/** The backup engine and its two jobs as they run: files and record fields updated in place. */
module BackupService {
  import opened Options
  import opened Text
  import opened BackupNames
  import opened Retention
  import opened BackupStore
  import opened BackupJobs
  import opened BackupTheorems

  /** In a sorted listing the expired names are the first ones. */
  lemma ExpiredPrefix(files: set<string>, retention: int, names: seq<string>)
    requires Ascending(names) && Elements(names) == Listed(files)
    ensures forall i | 0 <= i < |names| ::
              names[i] in Expired(files, retention) <==> retention > 0 && i < |names| - retention
    ensures forall f | f in Expired(files, retention) :: f in names
  {
    forall i | 0 <= i < |names|
      ensures names[i] in Expired(files, retention) <==> retention > 0 && i < |names| - retention
    {
      RankInListing(names, i);
      assert names[i] in Elements(names);
    }
  }

  predicate CompanionOfSome(names: seq<string>, f: string) {
    exists i :: 0 <= i < |names| && EndsWith(names[i], GZ) && f in Companions(names[i])
  }

  /** Removing the companions of the expired prefix is exactly what pruning does. */
  lemma PrefixIsDoomed(files: set<string>, retention: int, names: seq<string>, f: string)
    requires Ascending(names) && Elements(names) == Listed(files) && 0 < retention < |names|
    ensures IsDoomed(files, retention, f) <==> CompanionOfSome(names[..|names| - retention], f)
  {
    hide Companions, EndsWith;
    ExpiredPrefix(files, retention, names);
    var gone := names[..|names| - retention];
    if IsDoomed(files, retention, f) {
      var gz :| gz in Expired(files, retention) && f in Companions(gz);
      var i :| 0 <= i < |names| && names[i] == gz;
      assert gone[i] == gz;
    }
    if i :| 0 <= i < |gone| && EndsWith(gone[i], GZ) && f in Companions(gone[i]) {
      assert names[i] in Expired(files, retention);
    }
  }

  lemma InsertedInOrder(sorted: seq<string>, i: nat, f: string)
    requires Ascending(sorted) && f !in sorted && i <= |sorted|
    requires forall k | 0 <= k < i :: Before(sorted[k], f)
    requires i < |sorted| ==> !Before(sorted[i], f)
    ensures Ascending(sorted[..i] + [f] + sorted[i..])
    ensures Elements(sorted[..i] + [f] + sorted[i..]) == Elements(sorted) + {f}
  {
    hide Before;
    forall k | i <= k < |sorted| ensures Before(f, sorted[k]) {
      BeforeTotal(f, sorted[i]);
      if i < k { BeforeTransitive(f, sorted[i], sorted[k]); }
    }
    assert sorted == sorted[..i] + sorted[i..];
  }

  /** `sorted(...)` of a directory listing. */
  method SortedListing(names: set<string>) returns (sorted: seq<string>)
    ensures Ascending(sorted) && Elements(sorted) == names
  {
    sorted := [];
    var rest := names;
    while rest != {}
      invariant rest <= names && Elements(sorted) == names - rest
      invariant Ascending(sorted)
      decreases |rest|
    {
      var f :| f in rest;
      var i := 0;
      while i < |sorted| && Before(sorted[i], f)
        invariant 0 <= i <= |sorted|
        invariant forall k | 0 <= k < i :: Before(sorted[k], f)
      {
        i := i + 1;
      }
      InsertedInOrder(sorted, i, f);
      sorted := sorted[..i] + [f] + sorted[i..];
      rest := rest - {f};
    }
  }

  class BackupWorker {
    const cfg: Config
    var dir: Dir
    var records: seq<Record>
    var pending: set<Task>
    var databases: map<string, Database>
    var jobs: map<nat, Job>
    ghost var written: map<Stamp, Dump>
    ghost var late: set<Stamp>

    ghost function View(): State
      reads this
    {
      State(dir, records, pending, databases, jobs, written, late)
    }

    constructor (cfg: Config, databases: map<string, Database>)
      ensures View() == Init(databases) && this.cfg == cfg
    {
      this.cfg := cfg;
      this.databases := databases;
      dir, records, pending, jobs, written, late := map[], [], {}, map[], map[], {};
    }

    method EnforceRetention()
      modifies this`dir
      ensures dir == Prune(old(dir), cfg.retention)
    {
      if cfg.retention <= 0 { return; }
      ghost var files := dir.Keys;
      var names := SortedListing(Listed(dir.Keys));
      var excess := if |names| > cfg.retention then |names| - cfg.retention else 0;
      forall i | 0 <= i < |names| ensures EndsWith(names[i], GZ) { assert names[i] in Elements(names); }
      for i := 0 to excess
        invariant dir.Keys <= files && forall f | f in dir :: dir[f] == old(dir)[f]
        invariant forall f | f in files :: f in dir <==> !CompanionOfSome(names[..i], f)
      {
        var gone := [names[i], StemOf(names[i]) + SQL, StemOf(names[i]) + SHA];
        ghost var before := dir;
        for k := 0 to |gone|
          invariant dir == before - (set c | c in gone[..k])
        {
          if gone[k] in dir { dir := dir - {gone[k]}; }
        }
        assert gone[..|gone|] == gone;
        assert (set c | c in gone) == Companions(names[i]);
        GrowPrefix(names, i);
      }
      NothingOrPrefixDoomed(files, cfg.retention, names, excess);
    }

    static lemma GrowPrefix(names: seq<string>, i: nat)
      requires i < |names| && EndsWith(names[i], GZ)
      ensures forall f :: CompanionOfSome(names[..i + 1], f)
                          <==> CompanionOfSome(names[..i], f) || f in Companions(names[i])
    {
      hide EndsWith, Companions;
      var less, more := names[..i], names[..i + 1];
      forall f
        ensures CompanionOfSome(more, f) <==> CompanionOfSome(less, f) || f in Companions(names[i])
      {
        assert more[i] == names[i];
        if k :| 0 <= k < |less| && EndsWith(less[k], GZ) && f in Companions(less[k]) {
          assert more[k] == less[k];
        }
        if k :| 0 <= k < |more| && EndsWith(more[k], GZ) && f in Companions(more[k]) {
          assert k < i ==> less[k] == more[k];
        }
      }
    }

    static lemma NothingOrPrefixDoomed(files: set<string>, retention: int, names: seq<string>, excess: nat)
      requires Ascending(names) && Elements(names) == Listed(files) && retention > 0
      requires excess == if |names| > retention then |names| - retention else 0
      ensures forall f :: IsDoomed(files, retention, f) <==> CompanionOfSome(names[..excess], f)
    {
      hide Companions, EndsWith, Listed, Expired, CompanionOfSome;
      forall f
        ensures IsDoomed(files, retention, f) <==> CompanionOfSome(names[..excess], f)
      {
        if excess > 0 {
          PrefixIsDoomed(files, retention, names, f);
        } else {
          NothingDoomed(files, retention, names, f);
        }
      }
    }

    static lemma NothingDoomed(files: set<string>, retention: int, names: seq<string>, f: string)
      requires Ascending(names) && Elements(names) == Listed(files) && |names| <= retention
      ensures !IsDoomed(files, retention, f) && !CompanionOfSome([], f)
    {
      ExpiredPrefix(files, retention, names);
    }

    // ----- the steps of a backup job

    method CreateBackupRecord() returns (id: nat)
      modifies this`records, this`pending
      ensures View() == Step(cfg, old(View()), CreateBackup) && id == |records|
    {
      records := records + [Record(BackupOp, Running, None, false, NoReport)];
      id := |records|;
      pending := pending + {BackupTask(id)};
    }

    /** The exception path of both jobs. */
    method FailJob(id: nat)
      requires View().Has(id)
      modifies this`records, this`jobs
      ensures View() == Fails(old(View()), id)
    {
      records := records[id - 1 := records[id - 1].(status := Failed, report := ErrorReport)];
      jobs := jobs - {id};
    }

    method TakeDump(id: nat, dump: Option<Bytes>)
      requires View().Has(id)
      modifies this`records, this`jobs, this`pending
      ensures View() == DumpTaken(old(View()), id, dump)
    {
      pending := pending - {BackupTask(id)};
      if dump.None? {
        FailJob(id);
        return;
      }
      jobs := jobs[id := Dumped(dump.value)];
    }

    /** The two writes of `persist`. */
    method WritePair(id: nat, stamp: Stamp)
      requires View().Has(id) && id in jobs && jobs[id].Dumped?
      modifies this`dir, this`jobs, this`written
      ensures View() == PairWritten(cfg, old(View()), id, stamp)
    {
      var data := jobs[id].sql;
      dir := dir[SqlName(stamp) := Binary(data)];
      dir := dir[GzName(stamp) := Binary(cfg.codec.compress(data))];
      jobs := jobs[id := Paired(Backup(stamp, data))];
      written := written[stamp := Dump(id, data)];
    }

    /** The check of the compressed file; a failing pair is removed again. */
    method CheckPair(id: nat)
      requires View().Has(id) && id in jobs && jobs[id].Paired?
      modifies this`dir, this`jobs, this`records
      ensures View() == PairChecked(cfg, old(View()), id)
    {
      var b := jobs[id].backup;
      var gz := GzName(b.stamp);
      if gz !in dir || !dir[gz].Binary? {
        FailJob(id);
        return;
      }
      var check := Validate(cfg.codec, dir[gz].bytes);
      if !check.ok {
        dir := dir - {SqlName(b.stamp), gz};
        FailJob(id);
        return;
      }
      jobs := jobs[id := Checked(b, check.checksum)];
    }

    method WriteDigest(id: nat)
      requires View().Has(id) && id in jobs && jobs[id].Checked?
      modifies this`dir, this`jobs, this`late
      ensures View() == DigestWritten(old(View()), id)
    {
      var b := jobs[id].backup;
      if GzName(b.stamp) !in dir { late := late + {b.stamp}; }
      dir := dir[ShaName(b.stamp) := Note(jobs[id].checksum + "  " + GzName(b.stamp) + "\n")];
      jobs := jobs[id := Digested(b)];
    }

    method PruneOld(id: nat)
      requires View().Has(id) && id in jobs && jobs[id].Digested?
      modifies this`dir, this`jobs
      ensures View() == OldPruned(cfg, old(View()), id)
    {
      hide Prune;
      EnforceRetention();
      jobs := jobs[id := Trimmed(jobs[id].backup)];
    }

    method ConsistencyCheck(path: string, tables: Option<nat>) returns (consistent: Option<bool>)
      ensures consistent == if path in dir && tables.None? then None
                            else Some(Consistent(cfg.codec, dir, path))
    {
      if path !in dir { return Some(false); }
      if tables.None? { return None; }
      if !dir[path].Binary? { return Some(false); }
      var check := Validate(cfg.codec, dir[path].bytes);
      consistent := Some(check.ok && tables.value >= 0);
    }

    /** `consistency_check` and the final commit. */
    method ConcludeBackup(id: nat, tables: Option<nat>)
      requires View().Has(id) && id in jobs && jobs[id].Trimmed?
      modifies this`records, this`jobs
      ensures View() == Concluded(cfg, old(View()), id, tables)
    {
      hide Consistent, Stem;
      var path := GzName(jobs[id].backup.stamp);
      var consistent := ConsistencyCheck(path, tables);
      if consistent.None? {
        FailJob(id);
        return;
      }
      var ok := consistent.value;
      var r := records[id - 1];
      r := r.(status := if ok then Succeeded else Failed);
      r := r.(filePath := Some(path));
      r := r.(checksumOk := ok);
      r := r.(report := Finished(ok));
      records := records[id - 1 := r];
      jobs := jobs - {id};
    }

    /** `persist` with nothing running between its steps; false stands for an exception. */
    method Persist(id: nat, stamp: Stamp) returns (ok: bool)
      requires View().Has(id) && id in jobs && jobs[id].Dumped? && stamp.Valid() && stamp !in written
      modifies this`dir, this`jobs, this`records, this`written, this`late
      ensures var b := Backup(stamp, old(jobs)[id].sql);
        ok == PassesCheck(cfg.codec, b) && Runs(cfg, old(View()), PersistActions(cfg, id, b)) &&
        View() == After(cfg, old(View()), PersistActions(cfg, id, b)) &&
        dir == PersistedDir(cfg.codec, cfg.retention, old(dir), b) &&
        View().Has(id) && (if ok then id in jobs && jobs[id] == Trimmed(b) else id !in jobs)
    {
      hide Runs, After, PersistActions, PairWritten, PairChecked, DigestWritten, OldPruned, PersistedDir, PassesCheck,
        Stem;
      ghost var s, b := View(), Backup(stamp, jobs[id].sql);
      PersistChain(cfg, s, id, b);
      UndisturbedPersist(cfg, s, id, b);
      WritePair(id, stamp);
      CheckPair(id);
      PairOutcome(cfg, s, id, b);
      if id !in jobs { return false; }
      WriteDigest(id);
      PruneOld(id);
      ok := true;
    }

    /** A whole `run_backup_job` with nothing running between its steps. */
    method RunBackupJob(id: nat, dump: Option<Bytes>, stamp: Stamp, tables: Option<nat>)
      requires View().Has(id) && BackupTask(id) in pending && id !in jobs && records[id - 1].status == Running
      requires stamp.Valid() && stamp !in written
      modifies this`dir, this`records, this`pending, this`jobs, this`written, this`late
      ensures dump.None? ==> View() == DumpTaken(old(View()), id, None)
      ensures dump.Some? ==> var b := Backup(stamp, dump.value);
        Runs(cfg, old(View()), BackupActions(cfg, id, b, tables)) &&
        View() == After(cfg, old(View()), BackupActions(cfg, id, b, tables)) &&
        BackedUp(cfg, old(View()), View(), id, b, tables)
    {
      hide Runs, After, PersistActions, DumpTaken, Concluded, PersistedDir, PassesCheck, BackedUp, Stem;
      ghost var s := View();
      TakeDump(id, dump);
      if dump.None? { return; }
      ghost var s1, b := View(), Backup(stamp, dump.value);
      DumpShape(s, id, dump.value);
      UndisturbedBackup(cfg, s, id, b, tables);
      var ok := Persist(id, stamp);
      ghost var s2 := View();
      if ok {
        ConcludeBackup(id, tables);
        NoMore(cfg, View());
        RunsOn(cfg, s2, Conclude(id, tables), []);
      } else {
        NoMore(cfg, View());
      }
      RunExtends(cfg, s1, PersistActions(cfg, id, b), ConcludeActions(cfg, id, b, tables));
      RunsOn(cfg, s, BackupJobs.TakeDump(id, dump), PersistActions(cfg, id, b) + ConcludeActions(cfg, id, b, tables));
    }

    // ----- the steps of a restore job

    /** `POST /restore`; None is the 400 or 404 answer. */
    method RestoreBackup(backupId: nat) returns (id: Option<nat>)
      modifies this`records, this`pending
      ensures View() == RestoreAsked(old(View()), backupId)
      ensures id == if Restorable(old(View()), backupId) then Some(|records|) else None
    {
      if backupId == 0 || backupId > |records| { return None; }
      var backup := records[backupId - 1];
      if backup.op != BackupOp { return None; }
      if backup.status != Succeeded || !backup.checksumOk { return None; }
      records := records + [Record(RestoreOp, Running, None, false, RestoreFrom(backupId))];
      id := Some(|records|);
      pending := pending + {RestoreTask(|records|)};
    }

    /** `run_restore_job` up to the read of the backup file. */
    method FetchSource(id: nat)
      requires View().Has(id)
      modifies this`records, this`pending, this`jobs
      ensures View() == SourceFetched(cfg, old(View()), id)
    {
      pending := pending - {RestoreTask(id)};
      var report := records[id - 1].report;
      var source := if report.RestoreFrom? then report.source else 0;
      var path := if source == 0 || source > |records| then None else records[source - 1].filePath;
      if path.None? || path.value == "" || path.value !in dir || !dir[path.value].Binary? {
        FailJob(id);
        return;
      }
      var sql := cfg.codec.inflate(dir[path.value].bytes);
      if sql.None? {
        FailJob(id);
        return;
      }
      jobs := jobs[id := Fetched(sql.value)];
    }

    /** `restore` after the read: drop, create, import, statistics. */
    method Restore(id: nat, outcome: ImportOutcome)
      requires View().Has(id) && id in jobs && jobs[id].Fetched?
      modifies this`databases, this`records, this`jobs
      ensures View() == ImportRun(cfg, old(View()), id, outcome)
    {
      var sql, target := jobs[id].sql, cfg.Target();
      if outcome.BootstrapFails? {
        if outcome.dropped { databases := databases - {target}; }
        FailJob(id);
        return;
      }
      databases := databases - {target};
      if outcome.ImportFails? {
        databases := databases[target := PartlyLoaded(sql)];
        FailJob(id);
        return;
      }
      databases := databases[target := Loaded(sql)];
      if outcome.StatsRaise? {
        FailJob(id);
        return;
      }
      jobs := jobs[id := Imported(sql)];
    }

    method FinishRestore(id: nat)
      requires View().Has(id)
      modifies this`records, this`jobs
      ensures View() == RestoreFinished(old(View()), id)
    {
      records := records[id - 1 := records[id - 1].(status := Succeeded, report := Finished(true))];
      jobs := jobs - {id};
    }

    /** A whole `run_restore_job` with nothing running between its steps. */
    method RunRestoreJob(id: nat, outcome: ImportOutcome) returns (ghost acts: seq<Action>)
      requires Enabled(View(), Fetch(id)) && id !in jobs
      modifies this`databases, this`records, this`pending, this`jobs
      ensures Runs(cfg, old(View()), acts) && View() == After(cfg, old(View()), acts)
      ensures var source := SourceSql(cfg, old(View()), id);
        databases == (if source.Some? then Filled(cfg, old(databases), source.value, outcome) else old(databases)) &&
        id <= |records| && id !in jobs &&
        records[id - 1].status == if source.Some? && outcome.ImportDone? then Succeeded else Failed
    {
      hide Runs, After, SourceSql, Filled;
      ghost var s := View();
      FetchSource(id);
      ghost var t := View();
      if id !in jobs {
        NoMore(cfg, t);
        acts := [Fetch(id)] + [];
        RunsOn(cfg, s, Fetch(id), []);
        return;
      }
      Restore(id, outcome);
      ghost var u := View();
      if id !in jobs {
        NoMore(cfg, u);
        RunsOn(cfg, t, Import(id, outcome), []);
        acts := [Fetch(id)] + ([Import(id, outcome)] + []);
        RunsOn(cfg, s, Fetch(id), [Import(id, outcome)] + []);
        return;
      }
      FinishRestore(id);
      NoMore(cfg, View());
      RunsOn(cfg, u, Finish(id), []);
      RunsOn(cfg, t, Import(id, outcome), [Finish(id)] + []);
      acts := [Fetch(id)] + ([Import(id, outcome)] + ([Finish(id)] + []));
      RunsOn(cfg, s, Fetch(id), [Import(id, outcome)] + ([Finish(id)] + []));
    }
  }

  lemma DumpShape(s: State, id: nat, sql: Bytes)
    requires s.Has(id)
    ensures var t := DumpTaken(s, id, Some(sql)); id in t.jobs && t.jobs[id] == Dumped(sql)
  {
  }

  /** Undisturbed, the check ends the job or goes on according to the archive. */
  lemma PairOutcome(cfg: Config, s: State, id: nat, b: Backup)
    requires s.Has(id) && id in s.jobs && s.jobs[id] == Dumped(b.sql)
    ensures var u := PairChecked(cfg, PairWritten(cfg, s, id, b.stamp), id);
      (id in u.jobs <==> PassesCheck(cfg.codec, b)) && (id in u.jobs ==> u.jobs[id].Checked? && u.jobs[id].backup == b)
  {
    hide GzName, SqlName, Archive, WithPair, Validate;
    PairReadBack(cfg, s.dir, b);
    CheckIs(cfg, b);
  }
}

/** What backup and restore jobs promise, in every interleaving. */
module BackupTheorems {
  import opened Options
  import opened BackupNames
  import opened Retention
  import opened BackupStore
  import opened BackupJobs
  import opened BackupInvariant
  import opened BackupFiles
  import opened BackupSafety

  // ---------- runs ----------

  lemma GrowsTransitive(a: State, b: State, c: State)
    requires Grows(a, b) && Grows(b, c)
    ensures Grows(a, c)
  {
    forall id: nat | a.Has(id) && Restorable(a, id) ensures c.Get(id) == a.Get(id) {
      assert b.Get(id) == a.Get(id) && Restorable(b, id);
    }
  }

  lemma GrowsReflexive(s: State)
    ensures Grows(s, s)
  {
  }

  /** Nothing later in a run touches a backup record that passed the restore gate, forgets a written
      backup, or makes a late digest timely. */
  lemma {:induction false} RunGrows(cfg: Config, s: State, acts: seq<Action>)
    requires Inv(cfg, s) && Runs(cfg, s, acts)
    ensures Grows(s, After(cfg, s, acts))
    decreases |acts|
  {
    hide Inv, Step, Enabled, Grows;
    if acts == [] {
      GrowsReflexive(s);
    } else {
      var next := Step(cfg, s, acts[0]);
      InvTables(cfg, s);
      StepGrows(cfg, s, acts[0]);
      InvStep(cfg, s, acts[0]);
      RunGrows(cfg, next, acts[1..]);
      GrowsTransitive(s, next, After(cfg, next, acts[1..]));
    }
  }

  // ---------- whose data a file holds ----------

  /** The job of the record took this dump in the run. */
  predicate TookDump(a: Action, d: Dump) {
    a.TakeDump? && a.id == d.id && a.dump == Some(d.sql)
  }

  /** A written backup is the dump its job took, in the run or before it. */
  lemma {:induction false} WrittenIsADump(cfg: Config, s: State, acts: seq<Action>, stamp: Stamp)
    requires Runs(cfg, s, acts) && stamp in After(cfg, s, acts).written && stamp !in s.written
    ensures var d := After(cfg, s, acts).written[stamp];
      (exists k :: 0 <= k < |acts| && TookDump(acts[k], d)) ||
      (d.id in s.jobs && s.jobs[d.id] == Dumped(d.sql))
    decreases |acts|
  {
    hide Step, Enabled;
    var next, d := Step(cfg, s, acts[0]), After(cfg, s, acts).written[stamp];
    if stamp in next.written {
      WrittenIsOwn(cfg, s, acts[0], stamp);
      WrittenStays(cfg, next, acts[1..], stamp);
      PairFromDump(s, acts[0]);
    } else {
      WrittenIsADump(cfg, next, acts[1..], stamp);
      if k :| 0 <= k < |acts[1..]| && TookDump(acts[1..][k], d) {
        assert TookDump(acts[k + 1], d);
      } else {
        DumpedByTaking(cfg, s, acts[0], d);
        assert TookDump(acts[0], d) || (d.id in s.jobs && s.jobs[d.id] == Dumped(d.sql));
      }
    }
  }

  lemma PairFromDump(s: State, a: Action)
    requires Enabled(s, a) && a.WritePair?
    ensures a.id in s.jobs && s.jobs[a.id].Dumped?
  {
  }

  lemma DumpedByTaking(cfg: Config, s: State, a: Action, d: Dump)
    requires Enabled(s, a) && d.id in Step(cfg, s, a).jobs && Step(cfg, s, a).jobs[d.id] == Dumped(d.sql)
    ensures TookDump(a, d) || (d.id in s.jobs && s.jobs[d.id] == Dumped(d.sql))
  {
    hide SourceSql, Validate, Filled, Prune, Consistent, Restorable;
    if Subject(a) != Some(d.id) { JobUntouched(cfg, s, a, d.id); }
  }

  lemma {:induction false} WrittenStays(cfg: Config, s: State, acts: seq<Action>, stamp: Stamp)
    requires Runs(cfg, s, acts) && stamp in s.written
    ensures stamp in After(cfg, s, acts).written && After(cfg, s, acts).written[stamp] == s.written[stamp]
    decreases |acts|
  {
    hide Step, Enabled;
    if acts != [] {
      HistoryGrows(cfg, s, acts[0]);
      WrittenStays(cfg, Step(cfg, s, acts[0]), acts[1..], stamp);
    }
  }

  /** In every interleaving a compressed file holds the archive of the one dump written under its
      timestamp, taken by the job of its own record. */
  lemma FileHoldsOwnDump(cfg: Config, databases: map<string, Database>, acts: seq<Action>, stamp: Stamp)
    returns (k: nat)
    requires Runs(cfg, Init(databases), acts) && stamp in After(cfg, Init(databases), acts).written
    ensures var s := After(cfg, Init(databases), acts);
      k < |acts| && TookDump(acts[k], s.written[stamp]) &&
      (GzName(stamp) in s.dir ==>
         s.dir[GzName(stamp)] == Binary(Archive(cfg.codec, Backup(stamp, acts[k].dump.value))))
  {
    hide Runs, After, Superseded, PassesCheck, DigestLine, Archive, SqlName, GzName, ShaName;
    EveryRunIsSound(cfg, databases, acts);
    WrittenIsADump(cfg, Init(databases), acts, stamp);
    var s := After(cfg, Init(databases), acts);
    k :| 0 <= k < |acts| && TookDump(acts[k], s.written[stamp]);
    assert FileInv(cfg, s, stamp);
  }

  // ---------- when a backup disappears, and what is left at rest ----------

  /** A step removes a compressed file exactly if it is a pruning and at least `retention` of the
      files it lists are later, or the file's own check and the check fails. */
  lemma Disappears(cfg: Config, s: State, a: Action, stamp: Stamp)
    requires Inv(cfg, s) && Enabled(s, a) && stamp in s.written && GzName(stamp) in s.dir
    ensures GzName(stamp) !in Step(cfg, s, a).dir <==>
            (a.PruneOld? && Superseded(Present(s.written.Keys, s.dir.Keys), cfg.retention, stamp)) ||
            (a.CheckPair? && s.jobs[a.id].backup.stamp == stamp && !PassesCheck(cfg.codec, s.BackupAt(stamp)))
  {
    hide Superseded, PassesCheck, SqlName, GzName, ShaName, FileInv, PruningInv, WrittenInv, RecordInv, TaskInv,
      Present, PairChecked, Prune;
    if a.PruneOld? {
      PrunedFiles(cfg, s, stamp);
      NamesInFiles(stamp);
    } else if a.CheckPair? {
      var b := s.jobs[a.id].backup;
      assert JobInv(cfg, s, a.id);
      ReadsOwnArchive(cfg, s, a.id);
      assert FileInv(cfg, s, stamp) && FileInv(cfg, s, b.stamp);
      ValidInFile(cfg, s, stamp);
      ValidInFile(cfg, s, b.stamp);
      NamesAreDistinct(stamp, b.stamp);
      NamesAreDistinct(b.stamp, stamp);
    } else {
      NothingRemoved(cfg, s, a);
    }
  }

  lemma NothingRemoved(cfg: Config, s: State, a: Action)
    requires Enabled(s, a) && !a.PruneOld? && !a.CheckPair?
    ensures s.dir.Keys <= Step(cfg, s, a).dir.Keys
  {
    hide Restorable, DumpTaken, PairChecked, OldPruned, Concluded, SourceFetched, ImportRun, RestoreFinished, WithPair;
  }

  /** No backup job is between its dump and its final commit. */
  ghost predicate BackupsAtRest(s: State) {
    forall id | id in s.jobs :: s.jobs[id].Fetched? || s.jobs[id].Imported?
  }

  /** What gzip promises makes every check pass. */
  lemma LawfulPasses(cfg: Config, s: State)
    requires Lawful(cfg.codec)
    ensures AllPass(cfg, s)
  {
    hide Lawful, Validate;
    forall stamp | stamp in s.written ensures PassesCheck(cfg.codec, s.BackupAt(stamp)) {
      LawfulArchivePasses(cfg.codec, s.BackupAt(stamp));
    }
  }

  /** With no backup job in flight, each backup is there completely or not at all but for a late digest. */
  lemma BackupAtRest(cfg: Config, s: State, stamp: Stamp)
    requires Inv(cfg, s) && BackupsAtRest(s) && stamp in s.written
    ensures GzName(stamp) in s.dir ==> HoldsBackup(cfg.codec, s.dir, s.BackupAt(stamp)) && stamp !in s.late
    ensures GzName(stamp) !in s.dir ==>
              SqlName(stamp) !in s.dir && (ShaName(stamp) in s.dir <==> stamp in s.late)
  {
    hide Superseded, PassesCheck, SqlName, GzName, ShaName, DigestLine, Archive;
    assert FileInv(cfg, s, stamp);
  }

  /** The file is one of a backup that is there, or a late digest. */
  predicate Explains(s: State, stamp: Stamp, f: string) {
    stamp in s.written && f in FilesOf(stamp) && (GzName(stamp) in s.dir || (stamp in s.late && f == ShaName(stamp)))
  }

  /** With no backup job in flight, whatever the interleaving was, the directory holds complete
      triples and late digests and nothing else, and the backups in it are exactly the newest
      `retention` ever written, provided every check passed. */
  lemma RestingDirectory(cfg: Config, s: State)
    requires Inv(cfg, s) && BackupsAtRest(s)
    ensures forall f | f in s.dir :: exists stamp :: Explains(s, stamp, f)
    ensures AllPass(cfg, s) ==> forall stamp | stamp in s.written ::
              GzName(stamp) in s.dir <==> stamp in Unsuperseded(s.written.Keys, cfg.retention)
    ensures AllPass(cfg, s) && cfg.retention > 0 ==>
              |Present(s.written.Keys, s.dir.Keys)| ==
                if |s.written| < cfg.retention then |s.written| else cfg.retention
  {
    hide Superseded, PassesCheck, SqlName, GzName, ShaName, FileInv, TableInv, FilesOf;
    forall f | f in s.dir ensures exists stamp :: Explains(s, stamp, f) {
      var stamp :| stamp in s.written.Keys && f in FilesOf(stamp);
      BackupAtRest(cfg, s, stamp);
      NamesInFiles(stamp);
      assert Explains(s, stamp, f);
    }
    if AllPass(cfg, s) {
      assert forall id :: !WillPrune(s, id);
      forall stamp | stamp in s.written
        ensures GzName(stamp) in s.dir <==> stamp in Unsuperseded(s.written.Keys, cfg.retention)
      {
        MissingIsSuperseded(cfg, s, stamp);
      }
      assert Present(s.written.Keys, s.dir.Keys) == Unsuperseded(s.written.Keys, cfg.retention);
      if cfg.retention > 0 { UnsupersededCount(s.written.Keys, cfg.retention); }
    }
  }

  lemma MissingIsSuperseded(cfg: Config, s: State, stamp: Stamp)
    requires FilesInv(cfg, s) && AllPass(cfg, s) && stamp in s.written
    ensures GzName(stamp) !in s.dir ==> Superseded(s.written.Keys, cfg.retention, stamp)
  {
    hide Superseded, PassesCheck, SqlName, GzName, ShaName, DigestLine, Archive, AllOwned;
    if GzName(stamp) !in s.dir { assert FileInv(cfg, s, stamp); }
  }

  /** A digest is left alone only for a superseded backup that was pruned while its job was still at
      work; that job does not succeed, and the digest is never removed. */
  lemma LateIsOrphan(cfg: Config, s: State, stamp: Stamp, acts: seq<Action>)
    requires Inv(cfg, s) && stamp in s.late && Runs(cfg, s, acts)
    ensures stamp in s.written && Superseded(s.written.Keys, cfg.retention, stamp)
    ensures var id, t := s.written[stamp].id, After(cfg, s, acts);
      t.Has(id) && t.Get(id).status != Succeeded && (id !in t.jobs ==> t.Get(id).status == Failed) &&
      ShaName(stamp) in t.dir && GzName(stamp) !in t.dir
  {
    hide Superseded, PassesCheck, SqlName, GzName, ShaName, DigestLine, Archive, AllOwned, Runs, After, FileInv,
      RecordInv, JobInv, TaskInv, PruningInv;
    var t := After(cfg, s, acts);
    assert FileInv(cfg, s, stamp);
    LateFile(cfg, s, stamp);
    RunGrows(cfg, s, acts);
    RunKeepsInv(cfg, s, acts);
    assert FileInv(cfg, t, stamp);
    LateFile(cfg, t, stamp);
    assert WrittenInv(t, stamp);
    LateNotSucceeded(cfg, t, stamp);
  }

  lemma LateFile(cfg: Config, s: State, stamp: Stamp)
    requires stamp in s.written && stamp in s.late && FileInv(cfg, s, stamp)
    ensures ShaName(stamp) in s.dir && GzName(stamp) !in s.dir && Superseded(s.written.Keys, cfg.retention, stamp)
  {
    hide Superseded, PassesCheck, SqlName, GzName, ShaName, DigestLine, Archive;
  }

  lemma LateNotSucceeded(cfg: Config, s: State, stamp: Stamp)
    requires TableInv(cfg, s) && stamp in s.written && stamp in s.late
    ensures s.Has(s.written[stamp].id) && s.Get(s.written[stamp].id).status != Succeeded
  {
    hide PassesCheck, GzName, JobInv, TaskInv;
    var id := s.written[stamp].id;
    assert WrittenInv(s, stamp);
    assert RecordInv(cfg, s, id);
  }

  // ---------- when a backup job succeeds ----------

  /** The compressed file of the job's backup is in the directory. */
  predicate FileThere(s: State, id: nat) {
    id in s.jobs && (s.jobs[id].Paired? || s.jobs[id].Checked? || s.jobs[id].Digested? || s.jobs[id].Trimmed?) &&
    GzName(s.jobs[id].backup.stamp) in s.dir
  }

  predicate DumpPasses(cfg: Config, s: State, id: nat) {
    id in s.jobs && s.jobs[id].Paired? && PassesCheck(cfg.codec, s.jobs[id].backup)
  }

  /** How a step of a backup job can end the job, in any interleaving: it fails in the dump, fails in
      the check, also because its pair was pruned before it, or concludes; it then succeeds exactly
      if its file has not been pruned and the statistics were read. */
  lemma BackupEnds(cfg: Config, s: State, a: Action)
    requires Inv(cfg, s) && Enabled(s, a) && Subject(a).Some? && s.Get(a.id).op == BackupOp
    ensures var t := Step(cfg, s, a);
      t.Has(a.id) &&
      (a.id !in t.jobs <==>
         (a.TakeDump? && a.dump.None?) || (a.CheckPair? && !(FileThere(s, a.id) && DumpPasses(cfg, s, a.id))) ||
         a.Conclude?) &&
      (t.Get(a.id).status == Succeeded <==> a.Conclude? && FileThere(s, a.id) && a.tables.Some?) &&
      (a.id !in t.jobs && t.Get(a.id).status != Succeeded ==> t.Get(a.id).status == Failed)
  {
    hide FilesInv, PruningInv, TableInv, PassesCheck, GzName, PairChecked, Concluded;
    SubjectRuns(cfg, s, a);
    if a.Conclude? {
      OwnInvariants(cfg, s, a.id);
      ConcludedRecord(cfg, s, a.id, a.tables);
      ConcludedShape(cfg, s, a.id, a.tables);
    } else if a.CheckPair? {
      OwnInvariants(cfg, s, a.id);
      ReadsOwnArchive(cfg, s, a.id);
    }
  }

  lemma OwnInvariants(cfg: Config, s: State, id: nat)
    requires Inv(cfg, s) && id in s.jobs
    ensures JobInv(cfg, s, id) && RecordInv(cfg, s, id)
  {
    hide FilesInv, PruningInv, RecordInv, WrittenInv, TaskInv, FromSource, PassesCheck;
    assert JobInv(cfg, s, id);
  }

  lemma ConcludedShape(cfg: Config, s: State, id: nat, tables: Option<nat>)
    requires Enabled(s, Conclude(id, tables))
    ensures var t := Concluded(cfg, s, id, tables);
      t.Has(id) && id !in t.jobs && t.Get(id).status in {Succeeded, Failed}
  {
    hide Consistent;
  }

  /** A record whose status is final keeps it. */
  lemma {:induction false} FinalStays(cfg: Config, s: State, acts: seq<Action>, id: nat)
    requires Inv(cfg, s) && Runs(cfg, s, acts) && s.Has(id) && s.Get(id).status != Running
    ensures After(cfg, s, acts).Has(id) && After(cfg, s, acts).Get(id) == s.Get(id)
    decreases |acts|
  {
    hide Inv, Step, Enabled;
    if acts != [] {
      InvTables(cfg, s);
      if Subject(acts[0]).Some? { SubjectRuns(cfg, s, acts[0]); }
      RecordUntouched(cfg, s, acts[0], id);
      InvStep(cfg, s, acts[0]);
      FinalStays(cfg, Step(cfg, s, acts[0]), acts[1..], id);
    }
  }

  /** Over a whole run with any interleaving: if the job of a running backup record ends, one of its own
      steps ended it. The record says succeeded exactly if that step was the final commit, the file
      had not been pruned by then and the statistics were read. */
  lemma {:induction false} BackupOutcome(cfg: Config, s: State, acts: seq<Action>, id: nat) returns (k: nat)
    requires Inv(cfg, s) && Runs(cfg, s, acts) && s.Has(id) && s.Get(id).op == BackupOp && s.Get(id).status == Running
    requires After(cfg, s, acts).Has(id) && After(cfg, s, acts).Get(id).status != Running
    ensures k < |acts| && Subject(acts[k]) == Some(id) && Runs(cfg, s, acts[..k])
    ensures var u := After(cfg, s, acts[..k]);
      Enabled(u, acts[k]) &&
      (After(cfg, s, acts).Get(id).status == Succeeded <==>
         acts[k].Conclude? && FileThere(u, id) && acts[k].tables.Some?)
    decreases |acts|
  {
    hide Inv, Step, Enabled, FileThere;
    var t := Step(cfg, s, acts[0]);
    InvStep(cfg, s, acts[0]);
    RecordUntouched(cfg, s, acts[0], id);
    if t.Get(id).status != Running {
      k := 0;
      NoMore(cfg, s);
      assert acts[..0] == [];
      FinalStays(cfg, t, acts[1..], id);
      BackupEnds(cfg, s, acts[0]);
    } else {
      var j := BackupOutcome(cfg, t, acts[1..], id);
      k := j + 1;
      assert acts[..k] == [acts[0]] + acts[1..][..j];
      RunsOn(cfg, s, acts[0], acts[1..][..j]);
    }
  }

  // ---------- one job without interruption ----------

  lemma RunsOn(cfg: Config, s: State, a: Action, rest: seq<Action>)
    requires Enabled(s, a) && Runs(cfg, Step(cfg, s, a), rest)
    ensures Runs(cfg, s, [a] + rest) && After(cfg, s, [a] + rest) == After(cfg, Step(cfg, s, a), rest)
  {
    hide Enabled, Step;
    assert ([a] + rest)[1..] == rest;
  }

  lemma NoMore(cfg: Config, s: State)
    ensures Runs(cfg, s, []) && After(cfg, s, []) == s
  {
  }

  /** The steps of `persist`; a failing check ends them. */
  function PersistActions(cfg: Config, id: nat, b: Backup): seq<Action> {
    [WritePair(id, b.stamp)] + ([CheckPair(id)] +
      (if PassesCheck(cfg.codec, b) then [WriteDigest(id)] + ([PruneOld(id)] + []) else []))
  }

  function WithWritten(s: State, id: nat, b: Backup): State {
    s.(written := s.written[b.stamp := Dump(id, b.sql)])
  }

  lemma TailOfPersist(cfg: Config, s: State, id: nat, b: Backup)
    requires s.Has(id) && id in s.jobs && s.jobs[id] == Checked(b, cfg.codec.digest(Archive(cfg.codec, b)))
    requires GzName(b.stamp) in s.dir
    ensures Runs(cfg, s, [WriteDigest(id)] + ([PruneOld(id)] + []))
    ensures var line := Note(DigestLine(cfg.codec, b));
      After(cfg, s, [WriteDigest(id)] + ([PruneOld(id)] + [])) ==
        s.(dir := Prune(s.dir[ShaName(b.stamp) := line], cfg.retention), jobs := s.jobs[id := Trimmed(b)])
  {
    hide GzName, ShaName, Archive, Prune, Runs, After;
    var t := DigestWritten(s, id);
    var u := OldPruned(cfg, t, id);
    NoMore(cfg, u);
    RunsOn(cfg, t, PruneOld(id), []);
    RunsOn(cfg, s, WriteDigest(id), [PruneOld(id)] + []);
    assert s.jobs[id := Digested(b)][id := Trimmed(b)] == s.jobs[id := Trimmed(b)];
  }

  lemma PairReadBack(cfg: Config, dir: Dir, b: Backup)
    ensures var d := WithPair(cfg.codec, dir, b);
      GzName(b.stamp) in d && d[GzName(b.stamp)] == Binary(Archive(cfg.codec, b)) &&
      d - {SqlName(b.stamp), GzName(b.stamp)} == WithoutPair(cfg.codec, dir, b)
  {
  }

  /** Undisturbed, the steps of `persist` do to the directory what `persist` does as a whole. */
  lemma UndisturbedPersist(cfg: Config, s: State, id: nat, b: Backup)
    requires s.Has(id) && id in s.jobs && s.jobs[id] == Dumped(b.sql) && b.stamp.Valid() && b.stamp !in s.written
    ensures Runs(cfg, s, PersistActions(cfg, id, b))
    ensures var t := WithWritten(s, id, b).(dir := PersistedDir(cfg.codec, cfg.retention, s.dir, b));
      After(cfg, s, PersistActions(cfg, id, b)) ==
        if PassesCheck(cfg.codec, b) then t.(jobs := s.jobs[id := Trimmed(b)]) else Fails(t, id)
  {
    hide GzName, ShaName, SqlName, Archive, Prune, Runs, After, WithPair, Validate, DigestLine;
    var t := PairWritten(cfg, s, id, b.stamp);
    PairReadBack(cfg, s.dir, b);
    var u := PairChecked(cfg, t, id);
    CheckIs(cfg, b);
    if PassesCheck(cfg.codec, b) {
      assert u.jobs == s.jobs[id := Checked(b, cfg.codec.digest(Archive(cfg.codec, b)))];
      TailOfPersist(cfg, u, id, b);
      assert u.jobs[id := Trimmed(b)] == s.jobs[id := Trimmed(b)];
      RunsOn(cfg, t, CheckPair(id), [WriteDigest(id)] + ([PruneOld(id)] + []));
    } else {
      NoMore(cfg, u);
      RunsOn(cfg, t, CheckPair(id), []);
      assert s.jobs[id := Paired(b)] - {id} == s.jobs - {id};
    }
    RunsOn(cfg, s, WritePair(id, b.stamp), PersistActions(cfg, id, b)[1..]);
  }

  lemma CheckIs(cfg: Config, b: Backup)
    ensures var check := Validate(cfg.codec, Archive(cfg.codec, b));
      check.ok == PassesCheck(cfg.codec, b) && check.checksum == cfg.codec.digest(Archive(cfg.codec, b))
  {
  }

  function ConcludeActions(cfg: Config, id: nat, b: Backup, tables: Option<nat>): seq<Action> {
    if PassesCheck(cfg.codec, b) then [Conclude(id, tables)] + [] else []
  }

  /** All steps of a backup job whose dump succeeds. */
  function BackupActions(cfg: Config, id: nat, b: Backup, tables: Option<nat>): seq<Action> {
    [TakeDump(id, Some(b.sql))] + (PersistActions(cfg, id, b) + ConcludeActions(cfg, id, b, tables))
  }

  /** What a backup job leaves when nothing runs between its steps. */
  ghost predicate BackedUp(cfg: Config, s: State, t: State, id: nat, b: Backup, tables: Option<nat>) {
    s.Has(id) && |t.records| == |s.records| &&
    t.dir == PersistedDir(cfg.codec, cfg.retention, s.dir, b) && t.databases == s.databases && t.late == s.late &&
    t.pending == s.pending - {BackupTask(id)} && t.jobs == s.jobs &&
    t.written == s.written[b.stamp := Dump(id, b.sql)] &&
    (t.Get(id).status == Succeeded <==>
       PassesCheck(cfg.codec, b) && GzName(b.stamp) in t.dir && tables.Some?) &&
    forall k: nat | s.Has(k) && k != id :: t.Get(k) == s.Get(k)
  }

  lemma ConcludesUndisturbed(cfg: Config, s: State, id: nat, b: Backup, tables: Option<nat>)
    requires s.Has(id) && id in s.jobs && s.jobs[id] == Trimmed(b) && PassesCheck(cfg.codec, b)
    requires s.Get(id).status == Running
    requires GzName(b.stamp) in s.dir ==> s.dir[GzName(b.stamp)] == Binary(Archive(cfg.codec, b))
    ensures Runs(cfg, s, [Conclude(id, tables)] + [])
    ensures var t := After(cfg, s, [Conclude(id, tables)] + []);
      t == Concluded(cfg, s, id, tables) && t.jobs == s.jobs - {id} &&
      (t.Get(id).status == Succeeded <==> GzName(b.stamp) in s.dir && tables.Some?)
  {
    hide GzName, Archive, Runs, After;
    var t := Concluded(cfg, s, id, tables);
    NoMore(cfg, t);
    RunsOn(cfg, s, Conclude(id, tables), []);
  }

  lemma PersistedHasOwn(codec: Codec, retention: int, dir: Dir, b: Backup)
    requires PassesCheck(codec, b) && GzName(b.stamp) in PersistedDir(codec, retention, dir, b)
    ensures PersistedDir(codec, retention, dir, b)[GzName(b.stamp)] == Binary(Archive(codec, b))
  {
    hide PassesCheck, Remaining, Stem, Archive;
    assert GzName(b.stamp) != ShaName(b.stamp) by { NamesApart(b.stamp); }
  }

  lemma NamesApart(stamp: Stamp)
    ensures GzName(stamp) != ShaName(stamp)
  {
    assert GzName(stamp)[36] == 'z' && ShaName(stamp)[36] == '6';
  }

  /** A job whose steps nothing interrupts is `persist` as a whole, and succeeds exactly if dump, check
      and statistics do and its own pruning does not find `retention` later files. */
  lemma UndisturbedBackup(cfg: Config, s: State, id: nat, b: Backup, tables: Option<nat>)
    requires Enabled(s, TakeDump(id, Some(b.sql))) && b.stamp.Valid() && b.stamp !in s.written
    requires id !in s.jobs && s.Get(id).status == Running
    ensures Runs(cfg, s, BackupActions(cfg, id, b, tables))
    ensures BackedUp(cfg, s, After(cfg, s, BackupActions(cfg, id, b, tables)), id, b, tables)
  {
    hide PersistActions, PersistedDir, PassesCheck, GzName, Runs, After;
    var s1 := DumpTaken(s, id, Some(b.sql));
    UndisturbedPersist(cfg, s1, id, b);
    var s2 := After(cfg, s1, PersistActions(cfg, id, b));
    if PassesCheck(cfg.codec, b) {
      if GzName(b.stamp) in s2.dir { PersistedHasOwn(cfg.codec, cfg.retention, s.dir, b); }
      ConcludesUndisturbed(cfg, s2, id, b, tables);
    } else {
      NoMore(cfg, s2);
    }
    assert s.jobs[id := Dumped(b.sql)][id := Trimmed(b)] - {id} == s.jobs;
    assert s.jobs[id := Dumped(b.sql)] - {id} == s.jobs;
    RunExtends(cfg, s1, PersistActions(cfg, id, b), ConcludeActions(cfg, id, b, tables));
    RunsOn(cfg, s, TakeDump(id, Some(b.sql)), PersistActions(cfg, id, b) + ConcludeActions(cfg, id, b, tables));
  }

  /** A job that fails in the dump, or undisturbed in its check, leaves the directory, the databases
      and every other record as they were. */
  lemma FailedBackupChangesNothing(cfg: Config, s: State, id: nat, b: Backup, tables: Option<nat>)
    requires Inv(cfg, s) && Enabled(s, TakeDump(id, Some(b.sql))) && b.stamp.Valid() && b.stamp !in s.written
    ensures var t := DumpTaken(s, id, None);
      t.dir == s.dir && t.databases == s.databases && t.Get(id).status == Failed &&
      forall k: nat | s.Has(k) && k != id :: t.Get(k) == s.Get(k)
    ensures !PassesCheck(cfg.codec, b) ==>
              Runs(cfg, s, BackupActions(cfg, id, b, tables)) &&
              var t := After(cfg, s, BackupActions(cfg, id, b, tables));
              t.dir == s.dir && t.databases == s.databases && t.Has(id) && t.Get(id).status != Succeeded &&
              forall k: nat | s.Has(k) && k != id :: t.Has(k) && t.Get(k) == s.Get(k)
  {
    hide PassesCheck, FilesInv, PruningInv, RecordInv, JobInv, WrittenInv, Runs, After, BackupActions, FilesOf;
    assert TaskInv(s, BackupTask(id));
    if !PassesCheck(cfg.codec, b) {
      UndisturbedBackup(cfg, s, id, b, tables);
      NewStampFiles(cfg, s, b.stamp);
      PairRemoved(cfg.codec, s.dir, b);
    }
  }

  /** The states an undisturbed `persist` goes through. */
  lemma PersistChain(cfg: Config, s: State, id: nat, b: Backup)
    requires s.Has(id) && id in s.jobs && s.jobs[id] == Dumped(b.sql) && b.stamp.Valid() && b.stamp !in s.written
    ensures Runs(cfg, s, PersistActions(cfg, id, b)) && Enabled(PairWritten(cfg, s, id, b.stamp), CheckPair(id))
    ensures var u := PairChecked(cfg, PairWritten(cfg, s, id, b.stamp), id);
      if PassesCheck(cfg.codec, b)
      then Enabled(u, WriteDigest(id)) && Enabled(DigestWritten(u, id), PruneOld(id)) &&
           After(cfg, s, PersistActions(cfg, id, b)) == OldPruned(cfg, DigestWritten(u, id), id)
      else id !in u.jobs && After(cfg, s, PersistActions(cfg, id, b)) == u
  {
    hide GzName, ShaName, SqlName, Archive, Prune, Runs, After, WithPair, Validate, DigestLine;
    var t := PairWritten(cfg, s, id, b.stamp);
    PairReadBack(cfg, s.dir, b);
    var u := PairChecked(cfg, t, id);
    CheckIs(cfg, b);
    if PassesCheck(cfg.codec, b) {
      var v := DigestWritten(u, id);
      NoMore(cfg, OldPruned(cfg, v, id));
      RunsOn(cfg, v, PruneOld(id), []);
      RunsOn(cfg, u, WriteDigest(id), [PruneOld(id)] + []);
      RunsOn(cfg, t, CheckPair(id), [WriteDigest(id)] + ([PruneOld(id)] + []));
    } else {
      NoMore(cfg, u);
      RunsOn(cfg, t, CheckPair(id), []);
    }
    RunsOn(cfg, s, WritePair(id, b.stamp), PersistActions(cfg, id, b)[1..]);
  }

  // ---------- restores ----------

  /** A restore finds its backup exactly if the file has not been pruned, and reads what the job of
      its source record dumped. */
  lemma FetchesIff(cfg: Config, s: State, id: nat) returns (stamp: Stamp)
    requires Inv(cfg, s) && Lawful(cfg.codec) && Enabled(s, Fetch(id))
    ensures s.Get(id).report.RestoreFrom? && StoredAs(cfg, s, s.Get(id).report.source, stamp)
    ensures var t := SourceFetched(cfg, s, id);
      if GzName(stamp) in s.dir then t.jobs == s.jobs[id := Fetched(s.written[stamp].sql)] && t.records == s.records
      else t == Fails(s, id).(pending := s.pending - {RestoreTask(id)})
  {
    hide FilesInv, PruningInv, RecordInv, JobInv, WrittenInv, SourceSql, PassesCheck, Archive, GzName, Lawful;
    assert TaskInv(s, RestoreTask(id));
    stamp := SourceIsOwnArchive(cfg, s, id);
    LawfulArchivePasses(cfg.codec, s.BackupAt(stamp));
  }

  /** With no backup job in flight a restore finds its backup exactly if it is among the newest
      `retention` ever written. */
  lemma ReadsIfNewest(cfg: Config, s: State, id: nat) returns (stamp: Stamp)
    requires Inv(cfg, s) && Lawful(cfg.codec) && Enabled(s, Fetch(id)) && BackupsAtRest(s)
    ensures s.Get(id).report.RestoreFrom? && StoredAs(cfg, s, s.Get(id).report.source, stamp)
    ensures var t := SourceFetched(cfg, s, id);
      if stamp in Unsuperseded(s.written.Keys, cfg.retention)
      then t.jobs == s.jobs[id := Fetched(s.written[stamp].sql)] && t.records == s.records
      else t == Fails(s, id).(pending := s.pending - {RestoreTask(id)})
  {
    hide Inv, PassesCheck, GzName, Lawful, SourceFetched, Superseded, Enabled;
    LawfulPasses(cfg, s);
    stamp := FetchesIff(cfg, s, id);
    RestingDirectory(cfg, s);
  }

  /** What a restore job holds is what its source's job got from mysqldump. */
  lemma HoldsSourceDump(cfg: Config, s: State, id: nat) returns (stamp: Stamp)
    requires Inv(cfg, s) && Lawful(cfg.codec) && id in s.jobs && (s.jobs[id].Fetched? || s.jobs[id].Imported?)
    ensures s.Has(id) && s.Get(id).report.RestoreFrom? && stamp in s.written
    ensures s.written[stamp] == Dump(s.Get(id).report.source, s.jobs[id].sql)
  {
    hide FilesInv, PruningInv, RecordInv, TaskInv, WrittenInv, PassesCheck, Archive, Lawful;
    assert JobInv(cfg, s, id);
    stamp :| stamp in s.written && s.written[stamp].id == s.Get(id).report.source &&
      cfg.codec.inflate(Archive(cfg.codec, s.BackupAt(stamp))) == Some(s.jobs[id].sql);
    LawfulArchivePasses(cfg.codec, s.BackupAt(stamp));
  }

  /** End to end, in every interleaving: an import that succeeds leaves in the target exactly the bytes
      that the backup job of the restore's source record got from mysqldump. */
  lemma RestoreImportsTheDump(cfg: Config, databases: map<string, Database>, acts: seq<Action>, id: nat, tables: nat)
    returns (k: nat)
    requires Lawful(cfg.codec) && Runs(cfg, Init(databases), acts)
    requires Enabled(After(cfg, Init(databases), acts), Import(id, ImportDone(tables)))
    ensures var s := After(cfg, Init(databases), acts);
      s.Get(id).report.RestoreFrom? && k < |acts| && acts[k].TakeDump? && acts[k].id == s.Get(id).report.source &&
      acts[k].dump.Some? &&
      ImportRun(cfg, s, id, ImportDone(tables)).databases == s.databases[cfg.Target() := Loaded(acts[k].dump.value)]
  {
    hide Runs, After, Lawful, Inv;
    EveryRunIsSound(cfg, databases, acts);
    var s := After(cfg, Init(databases), acts);
    var stamp := HoldsSourceDump(cfg, s, id);
    WrittenIsADump(cfg, Init(databases), acts, stamp);
    k :| 0 <= k < |acts| && TookDump(acts[k], s.written[stamp]);
  }

  predicate NoImport(acts: seq<Action>) { forall a <- acts :: !a.Import? }

  lemma DatabasesFrame(cfg: Config, s: State, a: Action)
    requires Enabled(s, a) && !a.Import?
    ensures Step(cfg, s, a).databases == s.databases
  {
    hide Restorable, DumpTaken, PairWritten, PairChecked, DigestWritten, OldPruned, Concluded, SourceFetched, ImportRun,
      RestoreFinished;
  }

  /** Frame: the model lets an import write the restore target only, so no run changes another
      database; the target is never the live one. */
  lemma {:induction false} OtherDatabasesUntouched(cfg: Config, s: State, acts: seq<Action>, name: string)
    requires Runs(cfg, s, acts) && name != cfg.Target()
    ensures var t := After(cfg, s, acts);
      (name in t.databases <==> name in s.databases) &&
      (name in s.databases ==> t.databases[name] == s.databases[name])
    ensures cfg.database != cfg.Target()
    decreases |acts|
  {
    hide Enabled;
    if acts != [] {
      if !acts[0].Import? { DatabasesFrame(cfg, s, acts[0]); }
      hide DumpTaken, PairWritten, PairChecked, DigestWritten, OldPruned, Concluded, SourceFetched, RestoreFinished;
      OtherDatabasesUntouched(cfg, Step(cfg, s, acts[0]), acts[1..], name);
    }
    assert |cfg.Target()| == |cfg.database| + 8;
  }

  /** A restore record is only ever created for a restorable backup, and that backup is
      the same, restorable record in every later state. */
  lemma RestoreSourceStaysRestorable(cfg: Config, s: State, backup: nat, acts: seq<Action>)
    requires Inv(cfg, s) && Runs(cfg, s, [AskRestore(backup)] + acts)
    ensures Restorable(s, backup) <==> |RestoreAsked(s, backup).records| > |s.records|
    ensures Restorable(s, backup) ==>
              Restorable(After(cfg, s, [AskRestore(backup)] + acts), backup) &&
              After(cfg, s, [AskRestore(backup)] + acts).Get(backup) == s.Get(backup)
  {
    hide Inv, Runs, After;
    RunGrows(cfg, s, [AskRestore(backup)] + acts);
  }

  /** The import drops the target, whatever it then makes of it. */
  predicate Replaces(a: Action) { a.Import? && (a.outcome.BootstrapFails? ==> a.outcome.dropped) }

  predicate NoneReplaces(acts: seq<Action>) { forall a <- acts :: !Replaces(a) }

  /** The import fills the target with exactly these bytes. */
  predicate Fills(s: State, a: Action, sql: Bytes)
    requires Enabled(s, a)
  {
    a.Import? && (a.outcome.StatsRaise? || a.outcome.ImportDone?) && s.jobs[a.id].sql == sql
  }

  /** Some import drops the target, and the last one that does fills it with these bytes. */
  predicate LastFills(cfg: Config, s: State, acts: seq<Action>, sql: Bytes)
    requires Runs(cfg, s, acts)
    decreases |acts|
  {
    acts != [] &&
    if NoneReplaces(acts[1..]) then Replaces(acts[0]) && Fills(s, acts[0], sql)
    else LastFills(cfg, Step(cfg, s, acts[0]), acts[1..], sql)
  }

  predicate TargetHolds(cfg: Config, s: State, sql: Bytes) {
    cfg.Target() in s.databases && s.databases[cfg.Target()] == Loaded(sql)
  }

  lemma StepOnTarget(cfg: Config, s: State, a: Action, sql: Bytes)
    requires Enabled(s, a)
    ensures TargetHolds(cfg, Step(cfg, s, a), sql) <==>
            if Replaces(a) then Fills(s, a, sql) else TargetHolds(cfg, s, sql)
  {
    hide DumpTaken, PairWritten, PairChecked, DigestWritten, OldPruned, Concluded, SourceFetched, RestoreFinished,
      RestoreAsked;
    if !a.Import? { DatabasesFrame(cfg, s, a); }
  }

  /** What the target holds after a run is decided by the last import that dropped it. */
  lemma {:induction false} TargetHoldsIff(cfg: Config, s: State, acts: seq<Action>, sql: Bytes)
    requires Runs(cfg, s, acts)
    ensures TargetHolds(cfg, After(cfg, s, acts), sql) <==>
            (NoneReplaces(acts) && TargetHolds(cfg, s, sql)) || LastFills(cfg, s, acts, sql)
    decreases |acts|
  {
    hide Step, Enabled, TargetHolds, Replaces, Fills;
    if acts != [] {
      StepOnTarget(cfg, s, acts[0], sql);
      TargetHoldsIff(cfg, Step(cfg, s, acts[0]), acts[1..], sql);
      assert NoneReplaces(acts) <==> !Replaces(acts[0]) && NoneReplaces(acts[1..]) by {
        assert acts == [acts[0]] + acts[1..];
      }
      NothingReplacedNothingFilled(cfg, Step(cfg, s, acts[0]), acts[1..], sql);
    }
  }

  lemma {:induction false} NothingReplacedNothingFilled(cfg: Config, s: State, acts: seq<Action>, sql: Bytes)
    requires Runs(cfg, s, acts)
    ensures NoneReplaces(acts) ==> !LastFills(cfg, s, acts, sql)
  {
    hide Step, Enabled, Replaces, Fills;
    if acts != [] && NoneReplaces(acts) { assert acts[0] in acts; }
  }

  /** A restore that commits after its import says succeeded. Its own dump is in the target then if and
      only if no import dropped the target in between, or the last one that did filled it with the
      same bytes. */
  lemma SucceededRestoreHolds(cfg: Config, s: State, id: nat, tables: nat, acts: seq<Action>)
    requires Enabled(s, Import(id, ImportDone(tables)))
    requires Runs(cfg, ImportRun(cfg, s, id, ImportDone(tables)), acts)
    requires Enabled(After(cfg, ImportRun(cfg, s, id, ImportDone(tables)), acts), Finish(id))
    ensures var u := ImportRun(cfg, s, id, ImportDone(tables));
      var t := RestoreFinished(After(cfg, u, acts), id);
      t.Get(id).status == Succeeded &&
      (TargetHolds(cfg, t, s.jobs[id].sql) <==>
         NoneReplaces(acts) || LastFills(cfg, u, acts, s.jobs[id].sql))
  {
    hide Runs, After, NoneReplaces, LastFills;
    TargetHoldsIff(cfg, ImportRun(cfg, s, id, ImportDone(tables)), acts, s.jobs[id].sql);
  }

  /** In particular a restore beside which no other import runs holds its own dump. */
  lemma RestoreAloneHolds(cfg: Config, s: State, id: nat, tables: nat, acts: seq<Action>)
    requires Enabled(s, Import(id, ImportDone(tables))) && NoImport(acts)
    requires Runs(cfg, ImportRun(cfg, s, id, ImportDone(tables)), acts)
    requires Enabled(After(cfg, ImportRun(cfg, s, id, ImportDone(tables)), acts), Finish(id))
    ensures var t := RestoreFinished(After(cfg, ImportRun(cfg, s, id, ImportDone(tables)), acts), id);
      t.Get(id).status == Succeeded && cfg.Target() in t.databases &&
      t.databases[cfg.Target()] == Loaded(s.jobs[id].sql)
  {
    hide Runs, After;
    SucceededRestoreHolds(cfg, s, id, tables, acts);
  }

  // ---------- in every reachable state ----------

  /** In every interleaving a step removes a compressed file exactly if it is a pruning and at least
      `retention` of the files it lists are later, or the file's own check and the check fails. */
  lemma DisappearsIff(cfg: Config, databases: map<string, Database>, acts: seq<Action>, a: Action, stamp: Stamp)
    requires Runs(cfg, Init(databases), acts) && Enabled(After(cfg, Init(databases), acts), a)
    requires var s := After(cfg, Init(databases), acts); stamp in s.written && GzName(stamp) in s.dir
    ensures var s := After(cfg, Init(databases), acts);
      GzName(stamp) !in Step(cfg, s, a).dir <==>
        (a.PruneOld? && Superseded(Present(s.written.Keys, s.dir.Keys), cfg.retention, stamp)) ||
        (a.CheckPair? && s.jobs[a.id].backup.stamp == stamp && !PassesCheck(cfg.codec, s.BackupAt(stamp)))
  {
    hide Runs, After, Inv, Step, Superseded, PassesCheck, GzName, Present;
    EveryRunIsSound(cfg, databases, acts);
    Disappears(cfg, After(cfg, Init(databases), acts), a, stamp);
  }

  /** In every interleaving, whenever no backup job is in flight, the directory holds complete triples
      and late digests and nothing else; its backups are exactly the newest `retention` ever written. */
  lemma DirectoryAtRest(cfg: Config, databases: map<string, Database>, acts: seq<Action>)
    requires Runs(cfg, Init(databases), acts) && BackupsAtRest(After(cfg, Init(databases), acts))
    ensures var s := After(cfg, Init(databases), acts);
      (forall f | f in s.dir :: exists stamp :: Explains(s, stamp, f)) &&
      (forall stamp | stamp in s.written && GzName(stamp) in s.dir ::
         HoldsBackup(cfg.codec, s.dir, s.BackupAt(stamp)) && stamp !in s.late) &&
      (AllPass(cfg, s) ==>
         Present(s.written.Keys, s.dir.Keys) == Unsuperseded(s.written.Keys, cfg.retention) &&
         (cfg.retention > 0 ==>
            |Present(s.written.Keys, s.dir.Keys)| ==
              if |s.written| < cfg.retention then |s.written| else cfg.retention))
  {
    hide Runs, After, Inv, BackupsAtRest, AllPass, Explains, GzName, HoldsBackup, Superseded;
    EveryRunIsSound(cfg, databases, acts);
    var s := After(cfg, Init(databases), acts);
    RestingDirectory(cfg, s);
    forall stamp | stamp in s.written && GzName(stamp) in s.dir
      ensures HoldsBackup(cfg.codec, s.dir, s.BackupAt(stamp)) && stamp !in s.late
    {
      BackupAtRest(cfg, s, stamp);
    }
    if AllPass(cfg, s) {
      assert Present(s.written.Keys, s.dir.Keys) == Unsuperseded(s.written.Keys, cfg.retention);
    }
  }

  /** In every interleaving a digest without its backup is late: the backup was superseded and pruned
      while its job was at work, the job does not succeed, and the digest is never removed. */
  lemma LateDigestIsOrphan(cfg: Config, databases: map<string, Database>, acts: seq<Action>, stamp: Stamp,
                           more: seq<Action>)
    requires Runs(cfg, Init(databases), acts) && stamp in After(cfg, Init(databases), acts).late
    requires Runs(cfg, After(cfg, Init(databases), acts), more)
    ensures var s := After(cfg, Init(databases), acts); var t := After(cfg, s, more);
      stamp in s.written && Superseded(s.written.Keys, cfg.retention, stamp) &&
      var id := s.written[stamp].id;
      t.Has(id) && t.Get(id).status != Succeeded && (id !in t.jobs ==> t.Get(id).status == Failed) &&
      ShaName(stamp) in t.dir && GzName(stamp) !in t.dir
  {
    hide Runs, After, Inv, Superseded, GzName, ShaName;
    EveryRunIsSound(cfg, databases, acts);
    LateIsOrphan(cfg, After(cfg, Init(databases), acts), stamp, more);
  }

  /** In every interleaving, how a step of a backup job can end the job: it fails in the dump, fails in
      the check, also because its pair was pruned before it, or concludes; it then succeeds exactly
      if its file has not been pruned and the statistics were read. */
  lemma BackupSucceedsIff(cfg: Config, databases: map<string, Database>, acts: seq<Action>, a: Action)
    requires Runs(cfg, Init(databases), acts) && Enabled(After(cfg, Init(databases), acts), a) && Subject(a).Some?
    requires After(cfg, Init(databases), acts).Get(a.id).op == BackupOp
    ensures var s := After(cfg, Init(databases), acts); var t := Step(cfg, s, a);
      t.Has(a.id) &&
      (a.id !in t.jobs <==>
         (a.TakeDump? && a.dump.None?) || (a.CheckPair? && !(FileThere(s, a.id) && DumpPasses(cfg, s, a.id))) ||
         a.Conclude?) &&
      (t.Get(a.id).status == Succeeded <==> a.Conclude? && FileThere(s, a.id) && a.tables.Some?) &&
      (a.id !in t.jobs && t.Get(a.id).status != Succeeded ==> t.Get(a.id).status == Failed)
  {
    hide Runs, After, Inv, Step, FileThere, DumpPasses;
    EveryRunIsSound(cfg, databases, acts);
    BackupEnds(cfg, After(cfg, Init(databases), acts), a);
  }

  /** In every interleaving, a restore delivered while no backup job is in flight reads its source's dump
      if that is among the newest `retention` ever written, and fails otherwise. */
  lemma RestoresIffAmongNewest(cfg: Config, databases: map<string, Database>, acts: seq<Action>, id: nat)
    returns (stamp: Stamp)
    requires Lawful(cfg.codec) && Runs(cfg, Init(databases), acts) && BackupsAtRest(After(cfg, Init(databases), acts))
    requires Enabled(After(cfg, Init(databases), acts), Fetch(id))
    ensures var s := After(cfg, Init(databases), acts); var t := SourceFetched(cfg, s, id);
      s.Get(id).report.RestoreFrom? && stamp in s.written && s.written[stamp].id == s.Get(id).report.source &&
      if stamp in Unsuperseded(s.written.Keys, cfg.retention)
      then id in t.jobs && t.jobs[id] == Fetched(s.written[stamp].sql) && t.records == s.records
      else id !in t.jobs && t.Get(id).status == Failed && t.databases == s.databases
  {
    hide Runs, After, Inv, Lawful, BackupsAtRest, SourceFetched, Unsuperseded, GzName, PassesCheck;
    EveryRunIsSound(cfg, databases, acts);
    stamp := ReadsIfNewest(cfg, After(cfg, Init(databases), acts), id);
  }
}

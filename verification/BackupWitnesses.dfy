/** Runs in which overlapping jobs cost each other something, each constructed for all its inputs. */
module BackupWitnesses {
  import opened Options
  import opened BackupNames
  import opened Retention
  import opened BackupStore
  import opened BackupJobs
  import opened BackupInvariant
  import opened BackupFiles
  import opened BackupSafety
  import opened BackupTheorems

  // ---------- a backup pruned while its job is at work ----------

  /** A pair written and checked. */
  function PairActions(id: nat, b: Backup): seq<Action> { [WritePair(id, b.stamp)] + ([CheckPair(id)] + []) }

  lemma PairMade(cfg: Config, s: State, id: nat, b: Backup)
    requires s.Has(id) && id in s.jobs && s.jobs[id] == Dumped(b.sql) && b.stamp.Valid() && b.stamp !in s.written
    requires PassesCheck(cfg.codec, b)
    ensures Runs(cfg, s, PairActions(id, b))
    ensures After(cfg, s, PairActions(id, b)) ==
              s.(dir := WithPair(cfg.codec, s.dir, b), written := s.written[b.stamp := Dump(id, b.sql)],
                 jobs := s.jobs[id := Checked(b, cfg.codec.digest(Archive(cfg.codec, b)))])
  {
    hide GzName, SqlName, Archive, Runs, After, WithPair, Validate;
    var t := PairWritten(cfg, s, id, b.stamp);
    PairReadBack(cfg, s.dir, b);
    CheckIs(cfg, b);
    var u := PairChecked(cfg, t, id);
    NoMore(cfg, u);
    RunsOn(cfg, t, CheckPair(id), []);
    RunsOn(cfg, s, WritePair(id, b.stamp), [CheckPair(id)] + []);
    var made := Checked(b, cfg.codec.digest(Archive(cfg.codec, b)));
    assert s.jobs[id := Paired(b)][id := made] == s.jobs[id := made];
  }

  /** With retention 1 the pruning of a newer backup takes the pair of an older one whose job has not
      written its digest yet; the digest then comes late. */
  lemma PrunedInFlight(cfg: Config, s: State, slow: nat, fast: nat)
    requires Inv(cfg, s) && cfg.retention == 1 && slow in s.jobs && fast in s.jobs && s.Has(slow) && s.Has(fast)
    requires s.jobs[slow].Checked? && s.jobs[fast].Digested?
    requires Earlier(s.jobs[slow].backup.stamp, s.jobs[fast].backup.stamp)
    requires GzName(s.jobs[fast].backup.stamp) in s.dir
    ensures Runs(cfg, s, [PruneOld(fast)] + ([WriteDigest(slow)] + []))
    ensures s.jobs[slow].backup.stamp in After(cfg, s, [PruneOld(fast)] + ([WriteDigest(slow)] + [])).late
  {
    hide FilesInv, PruningInv, WrittenInv, RecordInv, TaskInv, GzName, ShaName, Prune, Runs, After, PassesCheck,
      Archive;
    var x, y := s.jobs[slow].backup.stamp, s.jobs[fast].backup.stamp;
    assert JobInv(cfg, s, slow) && JobInv(cfg, s, fast);
    PrunedFiles(cfg, s, x);
    NamesInFiles(x);
    assert y in Newer(Present(s.written.Keys, s.dir.Keys), x);
    FewerStamps({y}, Newer(Present(s.written.Keys, s.dir.Keys), x));
    var t := OldPruned(cfg, s, fast);
    var u := DigestWritten(t, slow);
    NoMore(cfg, u);
    RunsOn(cfg, t, WriteDigest(slow), []);
    RunsOn(cfg, s, PruneOld(fast), [WriteDigest(slow)] + []);
  }

  /** Two backup jobs asked for and dumped. */
  function TwoDumps(older: Backup, newer: Backup): seq<Action> {
    [CreateBackup] + ([CreateBackup] + ([TakeDump(1, Some(older.sql))] + ([TakeDump(2, Some(newer.sql))] + [])))
  }

  function TwoRecords(): seq<Record> {
    [Record(BackupOp, Running, None, false, NoReport), Record(BackupOp, Running, None, false, NoReport)]
  }

  lemma TwoDumpsTaken(cfg: Config, databases: map<string, Database>, older: Backup, newer: Backup)
    ensures Runs(cfg, Init(databases), TwoDumps(older, newer))
    ensures var s := After(cfg, Init(databases), TwoDumps(older, newer));
      s.dir == map[] && s.records == TwoRecords() && s.written == map[] && s.late == {} &&
      s.jobs == map[1 := Dumped(older.sql), 2 := Dumped(newer.sql)]
  {
    hide Runs, After;
    var s0 := Init(databases);
    var s1 := Step(cfg, s0, CreateBackup);
    var s2 := Step(cfg, s1, CreateBackup);
    var s3 := DumpTaken(s2, 1, Some(older.sql));
    var s4 := DumpTaken(s3, 2, Some(newer.sql));
    NoMore(cfg, s4);
    RunsOn(cfg, s3, TakeDump(2, Some(newer.sql)), []);
    RunsOn(cfg, s2, TakeDump(1, Some(older.sql)), [TakeDump(2, Some(newer.sql))] + []);
    RunsOn(cfg, s1, CreateBackup, [TakeDump(1, Some(older.sql))] + ([TakeDump(2, Some(newer.sql))] + []));
    RunsOn(cfg, s0, CreateBackup, TwoDumps(older, newer)[1..]);
  }

  function TwoPairs(older: Backup, newer: Backup): seq<Action> {
    PairActions(1, older) + (PairActions(2, newer) + ([WriteDigest(2)] + []))
  }

  lemma TwoPairsMade(cfg: Config, s: State, older: Backup, newer: Backup)
    requires |s.records| == 2 && s.dir == map[] && s.written == map[]
    requires s.jobs == map[1 := Dumped(older.sql), 2 := Dumped(newer.sql)]
    requires PassesCheck(cfg.codec, older) && PassesCheck(cfg.codec, newer)
    requires older.stamp.Valid() && newer.stamp.Valid() && older.stamp != newer.stamp
    ensures Runs(cfg, s, TwoPairs(older, newer))
    ensures var t := After(cfg, s, TwoPairs(older, newer));
      1 in t.jobs && 2 in t.jobs && t.jobs[1].Checked? && t.jobs[1].backup == older &&
      t.jobs[2] == Digested(newer) && GzName(newer.stamp) in t.dir && |t.records| == 2
  {
    hide Runs, After, WithPair, GzName, ShaName, PassesCheck, Archive, PairActions;
    PairMade(cfg, s, 1, older);
    var t := After(cfg, s, PairActions(1, older));
    PairMade(cfg, t, 2, newer);
    var u := After(cfg, t, PairActions(2, newer));
    PairReadBack(cfg, t.dir, newer);
    var v := DigestWritten(u, 2);
    NoMore(cfg, v);
    RunsOn(cfg, u, WriteDigest(2), []);
    RunExtends(cfg, t, PairActions(2, newer), [WriteDigest(2)] + []);
    RunExtends(cfg, s, PairActions(1, older), PairActions(2, newer) + ([WriteDigest(2)] + []));
  }

  /** The actions of two overlapping backup jobs up to the late digest. */
  function Overlap(older: Backup, newer: Backup): seq<Action> {
    TwoDumps(older, newer) + (TwoPairs(older, newer) + ([PruneOld(2)] + ([WriteDigest(1)] + [])))
  }

  /** With retention 1, for any two dumps that pass their checks: when the newer job prunes before the
      older one writes its digest, the older job never succeeds, although its dump and check did, and
      its digest file stays without a backup for ever. */
  lemma OverlapLosesBackup(cfg: Config, databases: map<string, Database>, older: Backup, newer: Backup,
                           more: seq<Action>)
    requires cfg.retention == 1 && PassesCheck(cfg.codec, older) && PassesCheck(cfg.codec, newer)
    requires older.stamp.Valid() && newer.stamp.Valid() && Earlier(older.stamp, newer.stamp)
    ensures Runs(cfg, Init(databases), Overlap(older, newer))
    ensures var s := After(cfg, Init(databases), Overlap(older, newer));
      older.stamp in s.late && (Runs(cfg, s, more) ==>
        var t := After(cfg, s, more);
        t.Has(1) && t.Get(1).status != Succeeded && ShaName(older.stamp) in t.dir && GzName(older.stamp) !in t.dir)
  {
    hide Runs, After, GzName, ShaName, PassesCheck, Inv, TwoDumps, TwoPairs, Earlier;
    EarlierIsOrder(older.stamp, newer.stamp, older.stamp);
    var s0 := Init(databases);
    TwoDumpsTaken(cfg, databases, older, newer);
    var s1 := After(cfg, s0, TwoDumps(older, newer));
    EveryRunIsSound(cfg, databases, TwoDumps(older, newer));
    TwoPairsMade(cfg, s1, older, newer);
    var s2 := After(cfg, s1, TwoPairs(older, newer));
    RunKeepsInv(cfg, s1, TwoPairs(older, newer));
    var late := [PruneOld(2)] + ([WriteDigest(1)] + []);
    PrunedInFlight(cfg, s2, 1, 2);
    OwnRecord(cfg, s2, 1);
    WrittenStays(cfg, s2, late, older.stamp);
    RunKeepsInv(cfg, s2, late);
    RunExtends(cfg, s1, TwoPairs(older, newer), late);
    RunExtends(cfg, s0, TwoDumps(older, newer), TwoPairs(older, newer) + late);
    if Runs(cfg, After(cfg, s2, late), more) { LateIsOrphan(cfg, After(cfg, s2, late), older.stamp, more); }
  }

  lemma OwnRecord(cfg: Config, s: State, id: nat)
    requires Inv(cfg, s) && id in s.jobs && s.jobs[id].Checked?
    ensures Wrote(s, id, s.jobs[id].backup)
  {
    hide FilesInv, PruningInv, RecordInv, WrittenInv, TaskInv, PassesCheck;
    assert JobInv(cfg, s, id);
  }

  // ---------- backups and restores one after another ----------

  function NextId(s: State): nat { |s.records| + 1 }

  function NewBackupActions(cfg: Config, s: State, b: Backup): seq<Action> {
    [CreateBackup] + BackupActions(cfg, NextId(s), b, Some(0))
  }

  /** A further backup later than all others succeeds and can be restored. */
  lemma NewBackup(cfg: Config, s: State, b: Backup)
    requires Inv(cfg, s) && Lawful(cfg.codec) && s.jobs == map[] && b.stamp.Valid()
    requires forall stamp | stamp in s.written :: Earlier(stamp, b.stamp)
    ensures Runs(cfg, s, NewBackupActions(cfg, s, b))
    ensures var t := After(cfg, s, NewBackupActions(cfg, s, b));
      Inv(cfg, t) && t.jobs == map[] && |t.records| == |s.records| + 1 && Restorable(t, NextId(s)) &&
      t.written == s.written[b.stamp := Dump(NextId(s), b.sql)] &&
      forall id: nat | s.Has(id) :: t.Get(id) == s.Get(id)
  {
    hide Runs, After, Inv, Lawful, BackupActions, PassesCheck, PersistedDir, GzName, Restorable, Earlier;
    var id := NextId(s);
    EarlierIsOrder(b.stamp, b.stamp, b.stamp);
    var s1 := Step(cfg, s, CreateBackup);
    InvStep(cfg, s, CreateBackup);
    UndisturbedBackup(cfg, s1, id, b, Some(0));
    var t := After(cfg, s1, BackupActions(cfg, id, b, Some(0)));
    RunKeepsInv(cfg, s1, BackupActions(cfg, id, b, Some(0)));
    RunsOn(cfg, s, CreateBackup, BackupActions(cfg, id, b, Some(0)));
    LawfulPasses(cfg, t);
    assert t.BackupAt(b.stamp) == b;
    RestingDirectory(cfg, t);
    NewestStays(t.written.Keys, cfg.retention, b.stamp);
    RunGrows(cfg, s1, BackupActions(cfg, id, b, Some(0)));
    SucceededIsRestorable(cfg, t, id);
  }

  lemma NewestStays(stamps: set<Stamp>, retention: int, s: Stamp)
    requires s in stamps && forall t | t in stamps && t != s :: Earlier(t, s)
    ensures s in Unsuperseded(stamps, retention)
  {
    hide Earlier;
    forall t | t in stamps ensures !Earlier(s, t) { EarlierIsOrder(s, t, s); EarlierIsOrder(s, s, s); }
    assert Newer(stamps, s) == {};
  }

  lemma SucceededIsRestorable(cfg: Config, s: State, id: nat)
    requires Inv(cfg, s) && s.Has(id) && s.Get(id).op == BackupOp && s.Get(id).status == Succeeded
    ensures Restorable(s, id)
  {
    hide FilesInv, PruningInv, JobInv, WrittenInv, TaskInv, StoredAs;
    assert RecordInv(cfg, s, id);
  }

  function TwoBackups(cfg: Config, databases: map<string, Database>, older: Backup, newer: Backup): seq<Action>
    requires Runs(cfg, Init(databases), NewBackupActions(cfg, Init(databases), older))
  {
    var s := After(cfg, Init(databases), NewBackupActions(cfg, Init(databases), older));
    NewBackupActions(cfg, Init(databases), older) + NewBackupActions(cfg, s, newer)
  }

  lemma TwoBackupsMade(cfg: Config, databases: map<string, Database>, older: Backup, newer: Backup)
    requires Lawful(cfg.codec) && older.stamp.Valid() && newer.stamp.Valid() && Earlier(older.stamp, newer.stamp)
    ensures Runs(cfg, Init(databases), NewBackupActions(cfg, Init(databases), older))
    ensures Runs(cfg, Init(databases), TwoBackups(cfg, databases, older, newer))
    ensures var s := After(cfg, Init(databases), TwoBackups(cfg, databases, older, newer));
      Inv(cfg, s) && s.jobs == map[] && |s.records| == 2 && Restorable(s, 1) && Restorable(s, 2) &&
      s.written == map[older.stamp := Dump(1, older.sql)][newer.stamp := Dump(2, newer.sql)]
  {
    hide Runs, After, Inv, Lawful, NewBackupActions, Earlier;
    var s0 := Init(databases);
    InitInv(cfg, databases);
    NewBackup(cfg, s0, older);
    var s1 := After(cfg, s0, NewBackupActions(cfg, s0, older));
    NewBackup(cfg, s1, newer);
    RunExtends(cfg, s0, NewBackupActions(cfg, s0, older), NewBackupActions(cfg, s1, newer));
  }

  /** With retention 1, for any two dumps: once the newer backup is made, a restore of the older one is
      still accepted and then fails. */
  lemma PrunedBackupIsRefused(cfg: Config, databases: map<string, Database>, older: Backup, newer: Backup)
    requires Lawful(cfg.codec) && cfg.retention == 1
    requires older.stamp.Valid() && newer.stamp.Valid() && Earlier(older.stamp, newer.stamp)
    ensures Runs(cfg, Init(databases), NewBackupActions(cfg, Init(databases), older))
    ensures Runs(cfg, Init(databases), TwoBackups(cfg, databases, older, newer))
    ensures var s := After(cfg, Init(databases), TwoBackups(cfg, databases, older, newer));
      Restorable(s, 1) && var t := RestoreAsked(s, 1);
      Enabled(t, Fetch(3)) && SourceFetched(cfg, t, 3).Get(3).status == Failed
  {
    hide Runs, After, Inv, Lawful, TwoBackups, NewBackupActions, SourceFetched, GzName, PassesCheck;
    TwoBackupsMade(cfg, databases, older, newer);
    var s := After(cfg, Init(databases), TwoBackups(cfg, databases, older, newer));
    var t := RestoreAsked(s, 1);
    InvStep(cfg, s, AskRestore(1));
    var stamp := ReadsIfNewest(cfg, t, 3);
    assert newer.stamp in Newer(t.written.Keys, older.stamp);
    FewerStamps({newer.stamp}, Newer(t.written.Keys, older.stamp));
  }

  // ---------- two restores at once ----------

  /** Of two restores that have both read their backups, the one that imports first ends succeeded
      while the target holds the other one's data. */
  lemma OverlappingRestores(cfg: Config, s: State, first: nat, second: nat)
    requires s.Has(first) && s.Has(second) && first != second && first in s.jobs && second in s.jobs
    requires s.jobs[first].Fetched? && s.jobs[second].Fetched?
    ensures var acts := [Import(first, ImportDone(0))] + ([Import(second, ImportDone(0))] + ([Finish(first)] + []));
      Runs(cfg, s, acts) && var t := After(cfg, s, acts);
      t.Has(first) && t.Get(first).status == Succeeded && cfg.Target() in t.databases &&
      t.databases[cfg.Target()] == Loaded(s.jobs[second].sql)
  {
    hide Runs, After;
    var t := ImportRun(cfg, s, first, ImportDone(0));
    var u := ImportRun(cfg, t, second, ImportDone(0));
    var v := RestoreFinished(u, first);
    NoMore(cfg, v);
    RunsOn(cfg, u, Finish(first), []);
    RunsOn(cfg, t, Import(second, ImportDone(0)), [Finish(first)] + []);
    RunsOn(cfg, s, Import(first, ImportDone(0)), [Import(second, ImportDone(0))] + ([Finish(first)] + []));
  }

  /** Which backup a record wrote, when there are two. */
  lemma OneOfTwo(cfg: Config, s: State, older: Backup, newer: Backup, source: nat, stamp: Stamp)
    requires s.written == map[older.stamp := Dump(1, older.sql)][newer.stamp := Dump(2, newer.sql)]
    requires older.stamp != newer.stamp && StoredAs(cfg, s, source, stamp) && source in {1, 2}
    ensures s.written[stamp].sql == (if source == 1 then older.sql else newer.sql)
  {
    hide PassesCheck, GzName;
  }

  lemma BothKept(cfg: Config, s: State, older: Backup, newer: Backup)
    requires s.written.Keys == {older.stamp, newer.stamp} && cfg.retention != 1 && Earlier(older.stamp, newer.stamp)
    ensures Unsuperseded(s.written.Keys, cfg.retention) == s.written.Keys
  {
    hide Earlier;
    EarlierIsOrder(older.stamp, newer.stamp, older.stamp);
    EarlierIsOrder(older.stamp, older.stamp, older.stamp);
    EarlierIsOrder(newer.stamp, newer.stamp, newer.stamp);
    FewerStamps(Newer(s.written.Keys, older.stamp), {newer.stamp});
    FewerStamps(Newer(s.written.Keys, newer.stamp), {});
  }

  /** A restore of the record next in line reads its backup. */
  lemma RestoreReads(cfg: Config, s: State, older: Backup, newer: Backup, id: nat)
    requires Inv(cfg, s) && Lawful(cfg.codec) && BackupsAtRest(s) && Enabled(s, Fetch(id))
    requires s.written == map[older.stamp := Dump(1, older.sql)][newer.stamp := Dump(2, newer.sql)]
    requires cfg.retention != 1 && Earlier(older.stamp, newer.stamp)
    requires s.Get(id).report.RestoreFrom? && s.Get(id).report.source in {1, 2}
    ensures var t := SourceFetched(cfg, s, id);
      t.records == s.records &&
      t.jobs == s.jobs[id := Fetched(if s.Get(id).report.source == 1 then older.sql else newer.sql)]
  {
    hide Inv, Lawful, StoredAs, SourceFetched, Superseded, Earlier, BackupsAtRest;
    EarlierIsOrder(older.stamp, older.stamp, older.stamp);
    var stamp := ReadsIfNewest(cfg, s, id);
    OneOfTwo(cfg, s, older, newer, s.Get(id).report.source, stamp);
    StoredIsWritten(cfg, s, s.Get(id).report.source, stamp);
    BothKept(cfg, s, older, newer);
  }

  lemma StoredIsWritten(cfg: Config, s: State, id: nat, stamp: Stamp)
    requires StoredAs(cfg, s, id, stamp)
    ensures stamp in s.written
  {
  }

  function RestoreBoth(): seq<Action> {
    [AskRestore(1)] + ([AskRestore(2)] + ([Fetch(3)] + ([Fetch(4)] +
      ([Import(3, ImportDone(0))] + ([Import(4, ImportDone(0))] + ([Finish(3)] + []))))))
  }

  /** For any two dumps and any retention but 1: restores of both backups at once can end with the
      restore of the older one succeeded and the newer one's data in the target. */
  lemma RestoresMixUp(cfg: Config, databases: map<string, Database>, older: Backup, newer: Backup)
    requires Lawful(cfg.codec) && cfg.retention != 1
    requires older.stamp.Valid() && newer.stamp.Valid() && Earlier(older.stamp, newer.stamp)
    ensures Runs(cfg, Init(databases), NewBackupActions(cfg, Init(databases), older))
    ensures Runs(cfg, Init(databases), TwoBackups(cfg, databases, older, newer))
    ensures Runs(cfg, Init(databases), TwoBackups(cfg, databases, older, newer) + RestoreBoth())
    ensures var t := After(cfg, Init(databases), TwoBackups(cfg, databases, older, newer) + RestoreBoth());
      t.Has(3) && t.Get(3).status == Succeeded && cfg.Target() in t.databases &&
      t.databases[cfg.Target()] == Loaded(newer.sql)
  {
    hide Runs, After, Inv, Lawful, TwoBackups, NewBackupActions, Earlier;
    TwoBackupsMade(cfg, databases, older, newer);
    var s := After(cfg, Init(databases), TwoBackups(cfg, databases, older, newer));
    RestoreBothMixes(cfg, s, older, newer);
    RunExtends(cfg, Init(databases), TwoBackups(cfg, databases, older, newer), RestoreBoth());
  }

  lemma RestoreBothMixes(cfg: Config, s: State, older: Backup, newer: Backup)
    requires Inv(cfg, s) && Lawful(cfg.codec) && cfg.retention != 1 && Earlier(older.stamp, newer.stamp)
    requires s.jobs == map[] && |s.records| == 2 && Restorable(s, 1) && Restorable(s, 2)
    requires s.written == map[older.stamp := Dump(1, older.sql)][newer.stamp := Dump(2, newer.sql)]
    ensures Runs(cfg, s, RestoreBoth())
    ensures var t := After(cfg, s, RestoreBoth());
      t.Has(3) && t.Get(3).status == Succeeded && cfg.Target() in t.databases &&
      t.databases[cfg.Target()] == Loaded(newer.sql)
  {
    hide Runs, After, Inv, Lawful, Earlier, SourceFetched;
    var t1 := RestoreAsked(s, 1);
    var t2 := RestoreAsked(t1, 2);
    InvStep(cfg, s, AskRestore(1));
    InvStep(cfg, t1, AskRestore(2));
    RestoreReads(cfg, t2, older, newer, 3);
    var t3 := SourceFetched(cfg, t2, 3);
    InvStep(cfg, t2, Fetch(3));
    FetchLeavesOthers(cfg, t2, 3);
    RestoreReads(cfg, t3, older, newer, 4);
    var t4 := SourceFetched(cfg, t3, 4);
    OverlappingRestores(cfg, t4, 3, 4);
    var rest := [Import(3, ImportDone(0))] + ([Import(4, ImportDone(0))] + ([Finish(3)] + []));
    RunsOn(cfg, t3, Fetch(4), rest);
    RunsOn(cfg, t2, Fetch(3), [Fetch(4)] + rest);
    RunsOn(cfg, t1, AskRestore(2), [Fetch(3)] + ([Fetch(4)] + rest));
    RunsOn(cfg, s, AskRestore(1), [AskRestore(2)] + ([Fetch(3)] + ([Fetch(4)] + rest)));
  }

  lemma FetchLeavesOthers(cfg: Config, s: State, id: nat)
    requires Enabled(s, Fetch(id))
    ensures forall t | t in s.pending && t != RestoreTask(id) :: t in SourceFetched(cfg, s, id).pending
  {
    hide SourceSql;
  }
}

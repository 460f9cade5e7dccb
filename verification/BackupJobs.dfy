/**
 Backup and restore jobs as a protocol: database records, the backup directory and the databases
 together, with any number of jobs in flight, each advancing step by step in any interleaving.
 */
module BackupJobs {
  import opened Options
  import opened BackupNames
  import opened Retention
  import opened BackupStore

  datatype Status = Running | Succeeded | Failed
  datatype Operation = BackupOp | RestoreOp
  datatype Report = NoReport | RestoreFrom(source: nat) | Finished(ok: bool) | ErrorReport

  datatype Record = Record(op: Operation, status: Status, filePath: Option<string>, checksumOk: bool, report: Report)

  /** What a database contains: never restored to, just created, or loaded (partly) from a dump. */
  datatype Database = Original(tag: int) | PartlyLoaded(sql: Bytes) | Loaded(sql: Bytes)

  datatype Task = BackupTask(id: nat) | RestoreTask(id: nat)

  datatype Config = Config(codec: Codec, retention: int, database: string) {
    /** The restore target; the live database is never one. */
    function Target(): string { database + "_restore" }
  }

  /** How far the job of a record has come: the last thing it did. */
  datatype Job =
    | Dumped(sql: Bytes)
    | Paired(backup: Backup)
    | Checked(backup: Backup, checksum: string)
    | Digested(backup: Backup)
    | Trimmed(backup: Backup)
    | Fetched(sql: Bytes)
    | Imported(sql: Bytes)

  /** The dump a job took. */
  datatype Dump = Dump(id: nat, sql: Bytes)

  /** Record `id` is `records[id - 1]`. `written` remembers every pair of files ever written, by its
      timestamp; `late` the timestamps whose digest was written when the pair was already pruned. */
  datatype State = State(dir: Dir, records: seq<Record>, pending: set<Task>, databases: map<string, Database>,
                         jobs: map<nat, Job>, written: map<Stamp, Dump>, late: set<Stamp>)
  {
    predicate Has(id: nat) { 1 <= id <= |records| }

    function Get(id: nat): Record
      requires Has(id)
    {
      records[id - 1]
    }

    function Put(id: nat, r: Record): State
      requires Has(id)
    {
      this.(records := records[id - 1 := r])
    }

    /** The backup written under a timestamp. */
    function BackupAt(stamp: Stamp): Backup
      requires stamp in written
    {
      Backup(stamp, written[stamp].sql)
    }
  }

  datatype ImportOutcome = BootstrapFails(dropped: bool) | ImportFails | StatsRaise | ImportDone(tables: nat)

  /** One API call, or one step of a job between two of its effects on shared state. What mysqldump,
      mysql and the clock do is part of the action. */
  datatype Action =
    | CreateBackup
    | TakeDump(id: nat, dump: Option<Bytes>)
    | WritePair(id: nat, stamp: Stamp)
    | CheckPair(id: nat)
    | WriteDigest(id: nat)
    | PruneOld(id: nat)
    | Conclude(id: nat, tables: Option<nat>)
    | AskRestore(backup: nat)
    | Fetch(id: nat)
    | Import(id: nat, outcome: ImportOutcome)
    | Finish(id: nat)

  /** Only record `id` and its job differ, and the record is for the same operation. */
  predicate Local(s: State, t: State, id: nat) {
    s.Has(id) && t.Has(id) && t.Get(id).op == s.Get(id).op && t.records == s.records[id - 1 := t.Get(id)] &&
    t.jobs - {id} == s.jobs - {id}
  }

  // ---------- backup steps ----------

  /** The exception path of both jobs. */
  function Fails(s: State, id: nat): (t: State)
    requires s.Has(id)
    ensures Local(s, t, id)
    ensures t.dir == s.dir && t.written == s.written && t.late == s.late && t.pending == s.pending &&
            t.databases == s.databases
  {
    s.Put(id, s.Get(id).(status := Failed, report := ErrorReport)).(jobs := s.jobs - {id})
  }

  /** `run_backup_job` up to the end of `dump`. */
  function DumpTaken(s: State, id: nat, dump: Option<Bytes>): (t: State)
    requires s.Has(id)
    ensures Local(s, t, id)
    ensures t.dir == s.dir && t.written == s.written && t.late == s.late && t.databases == s.databases
  {
    var begun := s.(pending := s.pending - {BackupTask(id)});
    if dump.None? then Fails(begun, id) else begun.(jobs := s.jobs[id := Dumped(dump.value)])
  }

  /** `persist` up to the end of its two writes. */
  function PairWritten(cfg: Config, s: State, id: nat, stamp: Stamp): (t: State)
    requires s.Has(id) && id in s.jobs && s.jobs[id].Dumped?
    ensures Local(s, t, id)
    ensures t.late == s.late && t.records == s.records && t.pending == s.pending && t.databases == s.databases
  {
    var b := Backup(stamp, s.jobs[id].sql);
    s.(dir := WithPair(cfg.codec, s.dir, b), jobs := s.jobs[id := Paired(b)],
       written := s.written[stamp := Dump(id, b.sql)])
  }

  /** `persist` reads the compressed file back and checks it; a failing pair is removed. */
  function PairChecked(cfg: Config, s: State, id: nat): (t: State)
    requires s.Has(id) && id in s.jobs && s.jobs[id].Paired?
    ensures Local(s, t, id)
    ensures t.written == s.written && t.late == s.late && t.pending == s.pending && t.databases == s.databases
  {
    var b := s.jobs[id].backup;
    var gz := GzName(b.stamp);
    if gz !in s.dir || !s.dir[gz].Binary? then Fails(s, id)
    else
      var check := Validate(cfg.codec, s.dir[gz].bytes);
      if check.ok then s.(jobs := s.jobs[id := Checked(b, check.checksum)])
      else Fails(s, id).(dir := s.dir - {SqlName(b.stamp), gz})
  }

  /** `persist` writes the digest file. */
  function DigestWritten(s: State, id: nat): (t: State)
    requires s.Has(id) && id in s.jobs && s.jobs[id].Checked?
    ensures Local(s, t, id)
    ensures t.written == s.written && t.records == s.records && t.pending == s.pending && t.databases == s.databases
  {
    var b := s.jobs[id].backup;
    var line := s.jobs[id].checksum + "  " + GzName(b.stamp) + "\n";
    s.(dir := s.dir[ShaName(b.stamp) := Note(line)], jobs := s.jobs[id := Digested(b)],
       late := if GzName(b.stamp) in s.dir then s.late else s.late + {b.stamp})
  }

  /** `_enforce_retention` */
  function OldPruned(cfg: Config, s: State, id: nat): (t: State)
    requires s.Has(id) && id in s.jobs && s.jobs[id].Digested?
    ensures Local(s, t, id)
    ensures t.written == s.written && t.late == s.late && t.records == s.records && t.pending == s.pending &&
            t.databases == s.databases
  {
    s.(dir := Prune(s.dir, cfg.retention), jobs := s.jobs[id := Trimmed(s.jobs[id].backup)])
  }

  /** `consistency_check` on a file: present, readable, statistics available. */
  predicate Consistent(codec: Codec, dir: Dir, path: string) {
    path in dir && dir[path].Binary? && Validate(codec, dir[path].bytes).ok
  }

  /** `consistency_check` and the final commit of a backup job. */
  function Concluded(cfg: Config, s: State, id: nat, tables: Option<nat>): (t: State)
    requires s.Has(id) && id in s.jobs && s.jobs[id].Trimmed?
    ensures Local(s, t, id)
    ensures t.dir == s.dir && t.written == s.written && t.late == s.late && t.pending == s.pending &&
            t.databases == s.databases
  {
    var path := GzName(s.jobs[id].backup.stamp);
    if path in s.dir && tables.None? then Fails(s, id)
    else
      var ok := Consistent(cfg.codec, s.dir, path);
      s.Put(id, s.Get(id).(status := if ok then Succeeded else Failed, filePath := Some(path),
                           checksumOk := ok, report := Finished(ok)))
       .(jobs := s.jobs - {id})
  }

  // ---------- restore steps ----------

  /** The restore gate: a succeeded backup whose checksum was verified. */
  predicate Restorable(s: State, id: nat) {
    s.Has(id) && s.Get(id).op == BackupOp && s.Get(id).status == Succeeded && s.Get(id).checksumOk
  }

  function RestoreAsked(s: State, backup: nat): State {
    if !Restorable(s, backup) then s
    else s.(records := s.records + [Record(RestoreOp, Running, None, false, RestoreFrom(backup))],
            pending := s.pending + {RestoreTask(|s.records| + 1)})
  }

  /** The SQL a restore of record `id` would import, if its file can be found and read. */
  function SourceSql(cfg: Config, s: State, id: nat): Option<Bytes>
    requires s.Has(id)
  {
    if !s.Get(id).report.RestoreFrom? || !s.Has(s.Get(id).report.source) then None
    else
      var path := s.Get(s.Get(id).report.source).filePath;
      if path.None? || path.value == "" || path.value !in s.dir || !s.dir[path.value].Binary? then None
      else cfg.codec.inflate(s.dir[path.value].bytes)
  }

  /** `run_restore_job` up to the read of the backup file. */
  function SourceFetched(cfg: Config, s: State, id: nat): (t: State)
    requires s.Has(id)
    ensures Local(s, t, id)
    ensures t.dir == s.dir && t.written == s.written && t.late == s.late && t.databases == s.databases
  {
    var begun := s.(pending := s.pending - {RestoreTask(id)});
    match SourceSql(cfg, s, id)
    case None => Fails(begun, id)
    case Some(sql) => begun.(jobs := s.jobs[id := Fetched(sql)])
  }

  /** The target database after `restore` drops, recreates and fills it. */
  function Filled(cfg: Config, dbs: map<string, Database>, sql: Bytes, outcome: ImportOutcome): map<string, Database> {
    match outcome
    case BootstrapFails(dropped) => if dropped then dbs - {cfg.Target()} else dbs
    case ImportFails => dbs[cfg.Target() := PartlyLoaded(sql)]
    case StatsRaise => dbs[cfg.Target() := Loaded(sql)]
    case ImportDone(_) => dbs[cfg.Target() := Loaded(sql)]
  }

  /** `restore` from its drop of the target to its statistics. */
  function ImportRun(cfg: Config, s: State, id: nat, outcome: ImportOutcome): (t: State)
    requires s.Has(id) && id in s.jobs && s.jobs[id].Fetched?
    ensures Local(s, t, id)
    ensures t.dir == s.dir && t.written == s.written && t.late == s.late && t.pending == s.pending
  {
    var sql := s.jobs[id].sql;
    var filled := s.(databases := Filled(cfg, s.databases, sql, outcome));
    if outcome.ImportDone? then filled.(jobs := s.jobs[id := Imported(sql)]) else Fails(filled, id)
  }

  /** The final commit of a restore job. */
  function RestoreFinished(s: State, id: nat): (t: State)
    requires s.Has(id)
    ensures Local(s, t, id)
    ensures t.dir == s.dir && t.written == s.written && t.late == s.late && t.pending == s.pending &&
            t.databases == s.databases
  {
    s.Put(id, s.Get(id).(status := Succeeded, report := Finished(true))).(jobs := s.jobs - {id})
  }

  // ---------- the protocol ----------

  /** Tasks are delivered once, and no two persists get the same time from the clock. */
  predicate Enabled(s: State, a: Action) {
    match a
    case CreateBackup => true
    case TakeDump(id, _) => s.Has(id) && BackupTask(id) in s.pending
    case WritePair(id, stamp) => s.Has(id) && id in s.jobs && s.jobs[id].Dumped? && stamp.Valid() && stamp !in s.written
    case CheckPair(id) => s.Has(id) && id in s.jobs && s.jobs[id].Paired?
    case WriteDigest(id) => s.Has(id) && id in s.jobs && s.jobs[id].Checked?
    case PruneOld(id) => s.Has(id) && id in s.jobs && s.jobs[id].Digested?
    case Conclude(id, _) => s.Has(id) && id in s.jobs && s.jobs[id].Trimmed?
    case AskRestore(_) => true
    case Fetch(id) => s.Has(id) && RestoreTask(id) in s.pending
    case Import(id, _) => s.Has(id) && id in s.jobs && s.jobs[id].Fetched?
    case Finish(id) => s.Has(id) && id in s.jobs && s.jobs[id].Imported?
  }

  function Step(cfg: Config, s: State, a: Action): State
    requires Enabled(s, a)
  {
    match a
    case CreateBackup =>
      s.(records := s.records + [Record(BackupOp, Running, None, false, NoReport)],
         pending := s.pending + {BackupTask(|s.records| + 1)})
    case TakeDump(id, dump) => DumpTaken(s, id, dump)
    case WritePair(id, stamp) => PairWritten(cfg, s, id, stamp)
    case CheckPair(id) => PairChecked(cfg, s, id)
    case WriteDigest(id) => DigestWritten(s, id)
    case PruneOld(id) => OldPruned(cfg, s, id)
    case Conclude(id, tables) => Concluded(cfg, s, id, tables)
    case AskRestore(backup) => RestoreAsked(s, backup)
    case Fetch(id) => SourceFetched(cfg, s, id)
    case Import(id, outcome) => ImportRun(cfg, s, id, outcome)
    case Finish(id) => RestoreFinished(s, id)
  }

  function Init(databases: map<string, Database>): State {
    State(map[], [], {}, databases, map[], map[], {})
  }

  /** A sequence of actions each enabled where it is taken. */
  predicate Runs(cfg: Config, s: State, acts: seq<Action>)
    decreases |acts|
  {
    acts == [] || (Enabled(s, acts[0]) && Runs(cfg, Step(cfg, s, acts[0]), acts[1..]))
  }

  function After(cfg: Config, s: State, acts: seq<Action>): State
    requires Runs(cfg, s, acts)
    decreases |acts|
  {
    if acts == [] then s else After(cfg, Step(cfg, s, acts[0]), acts[1..])
  }

  lemma {:induction false} RunExtends(cfg: Config, s: State, acts: seq<Action>, more: seq<Action>)
    requires Runs(cfg, s, acts) && Runs(cfg, After(cfg, s, acts), more)
    ensures Runs(cfg, s, acts + more) && After(cfg, s, acts + more) == After(cfg, After(cfg, s, acts), more)
    decreases |acts|
  {
    hide Enabled, Step;
    if acts == [] {
      assert acts + more == more;
    } else {
      assert (acts + more)[1..] == acts[1..] + more;
      RunExtends(cfg, Step(cfg, s, acts[0]), acts[1..], more);
    }
  }
}

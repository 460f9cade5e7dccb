/** What the backup directory, the records, the tasks and the jobs have to agree on. */
module BackupInvariant {
  import opened Options
  import opened BackupNames
  import opened Retention
  import opened BackupStore
  import opened BackupJobs

  // ---------- the directory ----------

  /** The job of a backup has written its pair and not yet its digest. */
  predicate BeforeDigest(s: State, stamp: Stamp)
    requires stamp in s.written
  {
    var id := s.written[stamp].id;
    id in s.jobs && (s.jobs[id].Paired? || s.jobs[id].Checked?)
  }

  predicate Unchecked(s: State, stamp: Stamp)
    requires stamp in s.written
  {
    s.written[stamp].id in s.jobs && s.jobs[s.written[stamp].id].Paired?
  }

  /** The files of one backup, whatever other jobs do: each holds what its own job wrote, a missing
      pair was pruned for newer ones or failed its own check, and a digest left alone came late. */
  predicate FileInv(cfg: Config, s: State, stamp: Stamp)
    requires stamp in s.written
  {
    var b := s.BackupAt(stamp);
    var sql, gz, sha := SqlName(stamp), GzName(stamp), ShaName(stamp);
    stamp.Valid() &&
    (gz in s.dir <==> sql in s.dir) &&
    (gz in s.dir ==> s.dir[sql] == Binary(b.sql) && s.dir[gz] == Binary(Archive(cfg.codec, b))) &&
    (sha in s.dir ==> s.dir[sha] == Note(DigestLine(cfg.codec, b)) && PassesCheck(cfg.codec, b)) &&
    (gz !in s.dir ==> Superseded(s.written.Keys, cfg.retention, stamp) || !PassesCheck(cfg.codec, b)) &&
    (stamp in s.late <==> sha in s.dir && gz !in s.dir) &&
    (gz in s.dir && sha !in s.dir ==> BeforeDigest(s, stamp)) &&
    (gz in s.dir && !PassesCheck(cfg.codec, b) ==> Unchecked(s, stamp))
  }

  ghost predicate FilesInv(cfg: Config, s: State) {
    AllOwned(s.written.Keys, s.dir.Keys) && s.late <= s.written.Keys &&
    forall stamp | stamp in s.written :: FileInv(cfg, s, stamp)
  }

  predicate AllPass(cfg: Config, s: State) {
    forall stamp | stamp in s.written :: PassesCheck(cfg.codec, s.BackupAt(stamp))
  }

  /** A job whose pair is in place has its own pruning still before it. */
  predicate WillPrune(s: State, id: nat) {
    id in s.jobs && (s.jobs[id].Paired? || s.jobs[id].Checked? || s.jobs[id].Digested?) &&
    GzName(s.jobs[id].backup.stamp) in s.dir
  }

  /** Once no pruning is owed, no superseded backup is left. */
  ghost predicate PruningInv(cfg: Config, s: State) {
    AllPass(cfg, s) && (forall id :: !WillPrune(s, id)) ==>
      forall stamp | stamp in s.written && GzName(stamp) in s.dir ::
        !Superseded(s.written.Keys, cfg.retention, stamp)
  }

  // ---------- records, tasks and jobs ----------

  /** The job of a record wrote this backup. */
  predicate Wrote(s: State, id: nat, b: Backup) {
    b.stamp in s.written && s.written[b.stamp] == Dump(id, b.sql)
  }

  /** What a restore job holds is what the compressed dump of its source inflates to. */
  ghost predicate FromSource(cfg: Config, s: State, source: nat, sql: Bytes) {
    exists stamp :: stamp in s.written && s.written[stamp].id == source &&
      cfg.codec.inflate(Archive(cfg.codec, s.BackupAt(stamp))) == Some(sql)
  }

  ghost predicate JobInv(cfg: Config, s: State, id: nat)
    requires id in s.jobs
  {
    s.Has(id) && BackupTask(id) !in s.pending && RestoreTask(id) !in s.pending && s.Get(id).status == Running &&
    match s.jobs[id]
    case Dumped(_) => s.Get(id).op == BackupOp
    case Paired(b) => s.Get(id).op == BackupOp && Wrote(s, id, b) && ShaName(b.stamp) !in s.dir
    case Checked(b, checksum) =>
      s.Get(id).op == BackupOp && Wrote(s, id, b) && PassesCheck(cfg.codec, b) &&
      checksum == cfg.codec.digest(Archive(cfg.codec, b))
    case Digested(b) => s.Get(id).op == BackupOp && Wrote(s, id, b) && PassesCheck(cfg.codec, b)
    case Trimmed(b) => s.Get(id).op == BackupOp && Wrote(s, id, b) && PassesCheck(cfg.codec, b)
    case Fetched(sql) =>
      s.Get(id).op == RestoreOp && s.Get(id).report.RestoreFrom? && FromSource(cfg, s, s.Get(id).report.source, sql)
    case Imported(sql) =>
      s.Get(id).op == RestoreOp && s.Get(id).report.RestoreFrom? && FromSource(cfg, s, s.Get(id).report.source, sql)
  }

  predicate WorksOn(job: Job, b: Backup) {
    (job.Paired? || job.Checked? || job.Digested? || job.Trimmed?) && job.backup == b
  }

  /** A written backup is its record's only one, and its job, if still there, works on it. */
  ghost predicate WrittenInv(s: State, stamp: Stamp)
    requires stamp in s.written
  {
    var id := s.written[stamp].id;
    s.Has(id) && s.Get(id).op == BackupOp && BackupTask(id) !in s.pending &&
    (if id in s.jobs then WorksOn(s.jobs[id], s.BackupAt(stamp)) else s.Get(id).status != Running) &&
    forall t | t in s.written && s.written[t].id == id :: t == stamp
  }

  predicate TaskInv(s: State, t: Task) {
    s.Has(t.id) && t.id !in s.jobs && s.Get(t.id).status == Running &&
    match t
    case BackupTask(id) => s.Get(id).op == BackupOp
    case RestoreTask(id) => s.Get(id).op == RestoreOp && s.Get(id).report.RestoreFrom?
  }

  /** The record names the file its own job wrote, which was there when the job checked it. */
  predicate StoredAs(cfg: Config, s: State, id: nat, stamp: Stamp) {
    s.Has(id) && stamp in s.written && s.written[stamp].id == id && s.Get(id).filePath == Some(GzName(stamp)) &&
    PassesCheck(cfg.codec, s.BackupAt(stamp)) && stamp !in s.late
  }

  ghost predicate RecordInv(cfg: Config, s: State, id: nat)
    requires s.Has(id)
  {
    var r := s.Get(id);
    (r.op == BackupOp && r.status == Succeeded ==>
       r.checksumOk && id !in s.jobs && exists stamp :: StoredAs(cfg, s, id, stamp)) &&
    (r.report.RestoreFrom? ==> r.op == RestoreOp && Restorable(s, r.report.source))
  }

  ghost predicate TableInv(cfg: Config, s: State) {
    (forall id | s.Has(id) :: RecordInv(cfg, s, id)) && (forall t | t in s.pending :: TaskInv(s, t)) &&
    (forall id | id in s.jobs :: JobInv(cfg, s, id)) && (forall stamp | stamp in s.written :: WrittenInv(s, stamp))
  }

  ghost predicate Inv(cfg: Config, s: State) {
    FilesInv(cfg, s) && PruningInv(cfg, s) && TableInv(cfg, s)
  }

  // ---------- what a later state keeps of an earlier one ----------

  /** Written backups stay on record, late digests stay late, and a restorable record does not change. */
  ghost predicate Grows(s: State, t: State) {
    (forall stamp | stamp in s.written :: stamp in t.written && t.written[stamp] == s.written[stamp]) &&
    s.late <= t.late && |s.records| <= |t.records| &&
    (forall id | s.Has(id) :: t.Get(id).op == s.Get(id).op) &&
    forall id | s.Has(id) && Restorable(s, id) :: t.Get(id) == s.Get(id)
  }

  /** The record an action works on, if any. */
  function Subject(a: Action): Option<nat> {
    if a.CreateBackup? || a.AskRestore? then None else Some(a.id)
  }

  lemma SubjectRuns(cfg: Config, s: State, a: Action)
    requires TableInv(cfg, s) && Enabled(s, a) && Subject(a).Some?
    ensures s.Get(a.id).status == Running
    ensures a.TakeDump? || a.Fetch? <==> a.id !in s.jobs
    ensures s.Get(a.id).op == RestoreOp <==> a.Fetch? || a.Import? || a.Finish?
  {
    hide RecordInv, WrittenInv, Wrote, FromSource, PassesCheck;
    if a.TakeDump? {
      assert TaskInv(s, BackupTask(a.id));
    } else if a.Fetch? {
      assert TaskInv(s, RestoreTask(a.id));
    } else {
      assert JobInv(cfg, s, a.id);
    }
  }

  /** An action changes no record but its subject's. */
  lemma RecordUntouched(cfg: Config, s: State, a: Action, id: nat)
    requires Enabled(s, a) && s.Has(id)
    ensures Step(cfg, s, a).Has(id) && Step(cfg, s, a).Get(id).op == s.Get(id).op
    ensures Subject(a) != Some(id) ==> Step(cfg, s, a).Get(id) == s.Get(id)
  {
    hide Restorable, DumpTaken, PairWritten, PairChecked, DigestWritten, OldPruned, Concluded, SourceFetched, ImportRun,
      RestoreFinished;
  }

  /** An action changes no job but its subject's. */
  lemma JobUntouched(cfg: Config, s: State, a: Action, id: nat)
    requires Enabled(s, a) && Subject(a) != Some(id)
    ensures id in Step(cfg, s, a).jobs <==> id in s.jobs
    ensures id in s.jobs ==> Step(cfg, s, a).jobs[id] == s.jobs[id]
  {
    hide Restorable, DumpTaken, PairWritten, PairChecked, DigestWritten, OldPruned, Concluded, SourceFetched, ImportRun,
      RestoreFinished;
    var t := Step(cfg, s, a);
    if Subject(a).Some? {
      assert id in t.jobs <==> id in t.jobs - {a.id};
      assert id in s.jobs <==> id in s.jobs - {a.id};
      assert id in s.jobs ==> (t.jobs - {a.id})[id] == (s.jobs - {a.id})[id];
    }
  }

  lemma HistoryGrows(cfg: Config, s: State, a: Action)
    requires Enabled(s, a)
    ensures |s.records| <= |Step(cfg, s, a).records| && s.late <= Step(cfg, s, a).late
    ensures forall stamp | stamp in s.written ::
              stamp in Step(cfg, s, a).written && Step(cfg, s, a).written[stamp] == s.written[stamp]
  {
    hide Restorable, Prune, WithPair, DumpTaken, PairChecked, OldPruned, Concluded, SourceFetched, ImportRun,
      RestoreFinished;
  }

  lemma StepGrows(cfg: Config, s: State, a: Action)
    requires TableInv(cfg, s) && Enabled(s, a)
    ensures Grows(s, Step(cfg, s, a))
  {
    hide TableInv, Step, Enabled;
    HistoryGrows(cfg, s, a);
    if Subject(a).Some? { SubjectRuns(cfg, s, a); }
    forall id: nat | s.Has(id)
      ensures Step(cfg, s, a).Has(id) && Step(cfg, s, a).Get(id).op == s.Get(id).op
      ensures Restorable(s, id) ==> Step(cfg, s, a).Get(id) == s.Get(id)
    {
      RecordUntouched(cfg, s, a, id);
    }
  }
}

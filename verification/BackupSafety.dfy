/** Every step of every job keeps records, tasks, jobs and files consistent. */
module BackupSafety {
  import opened Options
  import opened BackupNames
  import opened Retention
  import opened BackupStore
  import opened BackupJobs
  import opened BackupInvariant
  import opened BackupFiles

  // ---------- records, tasks and jobs, step by step ----------

  lemma FromSourceKept(cfg: Config, s: State, t: State, source: nat, sql: Bytes)
    requires FromSource(cfg, s, source, sql) && Grows(s, t)
    ensures FromSource(cfg, t, source, sql)
  {
    var stamp :| stamp in s.written && s.written[stamp].id == source &&
      cfg.codec.inflate(Archive(cfg.codec, s.BackupAt(stamp))) == Some(sql);
    assert t.BackupAt(stamp) == s.BackupAt(stamp);
  }

  /** Which digests can come late, and which files can appear, in one step. */
  lemma LateIsOwn(cfg: Config, s: State, a: Action, stamp: Stamp)
    requires Enabled(s, a) && stamp in Step(cfg, s, a).late && stamp !in s.late
    ensures a.WriteDigest? && s.jobs[a.id].backup.stamp == stamp
  {
    hide Restorable, DumpTaken, PairWritten, PairChecked, OldPruned, Concluded, SourceFetched, ImportRun,
      RestoreFinished;
  }

  lemma WrittenIsOwn(cfg: Config, s: State, a: Action, stamp: Stamp)
    requires Enabled(s, a) && stamp in Step(cfg, s, a).written && stamp !in s.written
    ensures a.WritePair? && a.stamp == stamp && Step(cfg, s, a).written[stamp] == Dump(a.id, s.jobs[a.id].sql)
  {
    hide Restorable, DumpTaken, PairChecked, DigestWritten, OldPruned, Concluded, SourceFetched, ImportRun,
      RestoreFinished, WithPair;
  }

  lemma TasksEvolve(cfg: Config, s: State, a: Action, t: Task)
    requires Enabled(s, a) && t in Step(cfg, s, a).pending
    ensures t in s.pending || (t.id == |s.records| + 1 && |Step(cfg, s, a).records| == |s.records| + 1)
    ensures !(a.Fetch? && t == RestoreTask(a.id)) && !(a.TakeDump? && t == BackupTask(a.id))
  {
    hide Restorable, PairWritten, PairChecked, DigestWritten, OldPruned, Concluded, ImportRun, RestoreFinished,
      SourceSql;
  }

  /** A file appears only when a job writes its own. */
  lemma FilesAppear(cfg: Config, s: State, a: Action, f: string)
    requires Enabled(s, a) && f in Step(cfg, s, a).dir && f !in s.dir
    ensures (a.WritePair? && f in {SqlName(a.stamp), GzName(a.stamp)}) ||
            (a.WriteDigest? && f == ShaName(s.jobs[a.id].backup.stamp))
  {
    hide Restorable, DumpTaken, Concluded, SourceFetched, ImportRun, RestoreFinished, SqlName, GzName, ShaName,
      Validate, Remaining;
  }

  // ----- records

  lemma NewRecord(cfg: Config, s: State, a: Action, id: nat)
    requires Enabled(s, a) && Step(cfg, s, a).Has(id) && !s.Has(id) && Grows(s, Step(cfg, s, a))
    ensures RecordInv(cfg, Step(cfg, s, a), id) && (a.CreateBackup? || a.AskRestore?)
    ensures var t := Step(cfg, s, a);
      id == |s.records| + 1 && t.jobs == s.jobs && t.Get(id).status == Running &&
      (if a.CreateBackup? then t.Get(id).op == BackupOp && t.pending == s.pending + {BackupTask(id)}
       else t.Get(id).op == RestoreOp && t.Get(id).report.RestoreFrom? && t.pending == s.pending + {RestoreTask(id)})
  {
    hide DumpTaken, PairWritten, PairChecked, DigestWritten, OldPruned, Concluded, SourceFetched, ImportRun,
      RestoreFinished, StoredAs;
  }

  lemma ConcludedRecord(cfg: Config, s: State, id: nat, tables: Option<nat>)
    requires Enabled(s, Conclude(id, tables)) && FilesInv(cfg, s) && JobInv(cfg, s, id) && RecordInv(cfg, s, id)
    ensures var t := Concluded(cfg, s, id, tables); t.Has(id) && RecordInv(cfg, t, id)
    ensures var stamp, t := s.jobs[id].backup.stamp, Concluded(cfg, s, id, tables);
      t.Has(id) && (t.Get(id).status == Succeeded <==> GzName(stamp) in s.dir && tables.Some?)
  {
    hide Superseded, DigestLine, SqlName, GzName, ShaName, Archive, AllOwned;
    var b := s.jobs[id].backup;
    assert FileInv(cfg, s, b.stamp);
    var t := Concluded(cfg, s, id, tables);
    assert s.BackupAt(b.stamp) == b;
    if t.Get(id).status == Succeeded { assert StoredAs(cfg, t, id, b.stamp); }
  }

  lemma SubjectRecord(cfg: Config, s: State, a: Action)
    requires Inv(cfg, s) && Enabled(s, a) && Subject(a).Some? && Grows(s, Step(cfg, s, a))
    ensures Step(cfg, s, a).Has(a.id) && RecordInv(cfg, Step(cfg, s, a), a.id)
  {
    SubjectRuns(cfg, s, a);
    assert RecordInv(cfg, s, a.id);
    if a.Conclude? {
      assert JobInv(cfg, s, a.id);
      ConcludedRecord(cfg, s, a.id, a.tables);
    } else {
      OpenRecord(cfg, s, a);
    }
  }

  /** The report of a failed job is an error note; one still running keeps its report. */
  lemma OpenRecord(cfg: Config, s: State, a: Action)
    requires Enabled(s, a) && Subject(a).Some? && !a.Conclude? && s.Get(a.id).status == Running
    requires RecordInv(cfg, s, a.id) && Grows(s, Step(cfg, s, a))
    requires a.Finish? ==> s.Get(a.id).op == RestoreOp
    ensures Step(cfg, s, a).Has(a.id) && RecordInv(cfg, Step(cfg, s, a), a.id)
  {
    hide StoredAs, Restorable, Grows;
    OpenRecordIs(cfg, s, a);
    hide Step;
    var r := s.Get(a.id);
    if r.report.RestoreFrom? { StillRestorable(s, Step(cfg, s, a), r.report.source); }
  }

  lemma StillRestorable(s: State, t: State, id: nat)
    requires Restorable(s, id) && Grows(s, t)
    ensures Restorable(t, id)
  {
  }

  lemma OpenRecordIs(cfg: Config, s: State, a: Action)
    requires Enabled(s, a) && Subject(a).Some? && !a.Conclude?
    ensures var t, r := Step(cfg, s, a), s.Get(a.id);
      t.Has(a.id) &&
      t.Get(a.id) in {r, r.(status := Failed, report := ErrorReport),
                      r.(status := Succeeded, report := Finished(true))} &&
      (t.Get(a.id) == r.(status := Succeeded, report := Finished(true)) && r.status == Running ==> a.Finish?)
  {
    hide Validate, SourceSql, Filled, WithPair, Prune;
  }

  lemma RecordKept(cfg: Config, s: State, a: Action, id: nat)
    requires TableInv(cfg, s) && Enabled(s, a) && s.Has(id) && Subject(a) != Some(id) && Grows(s, Step(cfg, s, a))
    ensures Step(cfg, s, a).Has(id) && RecordInv(cfg, Step(cfg, s, a), id)
  {
    hide Step, JobInv, TaskInv, PassesCheck, GzName;
    var t := Step(cfg, s, a);
    RecordUntouched(cfg, s, a, id);
    JobUntouched(cfg, s, a, id);
    assert RecordInv(cfg, s, id);
    if t.Get(id).op == BackupOp && t.Get(id).status == Succeeded {
      var stamp :| StoredAs(cfg, s, id, stamp);
      StampStaysOnTime(cfg, s, a, id, stamp);
      assert t.BackupAt(stamp) == s.BackupAt(stamp);
      assert StoredAs(cfg, t, id, stamp);
    }
  }

  /** A digest in time does not become late through another job. */
  lemma StampStaysOnTime(cfg: Config, s: State, a: Action, id: nat, stamp: Stamp)
    requires TableInv(cfg, s) && Enabled(s, a) && Subject(a) != Some(id)
    requires stamp in s.written && s.written[stamp].id == id && stamp !in s.late
    ensures stamp !in Step(cfg, s, a).late
  {
    hide Step, RecordInv, TaskInv, PassesCheck;
    assert a.WriteDigest? ==> JobInv(cfg, s, a.id);
    if stamp in Step(cfg, s, a).late { LateIsOwn(cfg, s, a, stamp); }
  }

  lemma RecordStep(cfg: Config, s: State, a: Action, id: nat)
    requires Inv(cfg, s) && Enabled(s, a) && Step(cfg, s, a).Has(id)
    ensures RecordInv(cfg, Step(cfg, s, a), id)
  {
    hide Step, FilesInv, PruningInv, RecordInv, Grows;
    StepGrows(cfg, s, a);
    if !s.Has(id) {
      NewRecord(cfg, s, a, id);
    } else if Subject(a) == Some(id) {
      SubjectRecord(cfg, s, a);
    } else {
      RecordKept(cfg, s, a, id);
    }
  }

  // ----- tasks

  lemma TaskStep(cfg: Config, s: State, a: Action, task: Task)
    requires Inv(cfg, s) && Enabled(s, a) && task in Step(cfg, s, a).pending
    ensures TaskInv(Step(cfg, s, a), task)
  {
    hide Step, FilesInv, PruningInv, RecordInv, Grows, JobInv, WrittenInv;
    TasksEvolve(cfg, s, a, task);
    StepGrows(cfg, s, a);
    if task in s.pending {
      assert TaskInv(s, task);
      OtherTask(cfg, s, a, task);
      RecordUntouched(cfg, s, a, task.id);
      JobUntouched(cfg, s, a, task.id);
    } else {
      NewTask(cfg, s, a, task);
    }
  }

  lemma NewTask(cfg: Config, s: State, a: Action, task: Task)
    requires Inv(cfg, s) && Enabled(s, a) && task in Step(cfg, s, a).pending && task !in s.pending
    ensures TaskInv(Step(cfg, s, a), task)
  {
    hide Step, FilesInv, PruningInv, RecordInv, Grows;
    TasksEvolve(cfg, s, a, task);
    StepGrows(cfg, s, a);
    NewRecord(cfg, s, a, task.id);
    assert task.id in s.jobs ==> JobInv(cfg, s, task.id);
  }

  /** A task still waiting is not the subject's. */
  lemma OtherTask(cfg: Config, s: State, a: Action, task: Task)
    requires TableInv(cfg, s) && Enabled(s, a) && task in s.pending && task in Step(cfg, s, a).pending
    ensures Subject(a) != Some(task.id)
  {
    hide Step, RecordInv, WrittenInv, FromSource, PassesCheck;
    TasksEvolve(cfg, s, a, task);
    assert TaskInv(s, task);
    if Subject(a).Some? { SubjectRuns(cfg, s, a); }
    assert a.TakeDump? ==> TaskInv(s, BackupTask(a.id));
    assert a.Fetch? ==> TaskInv(s, RestoreTask(a.id));
  }

  // ----- jobs

  /** A record with a job has no task, and none appears for it. */
  lemma NoTaskAppears(cfg: Config, s: State, a: Action, id: nat)
    requires Enabled(s, a) && s.Has(id)
    requires BackupTask(id) !in s.pending && RestoreTask(id) !in s.pending
    ensures BackupTask(id) !in Step(cfg, s, a).pending && RestoreTask(id) !in Step(cfg, s, a).pending
  {
    hide Step, Enabled;
    if BackupTask(id) in Step(cfg, s, a).pending { TasksEvolve(cfg, s, a, BackupTask(id)); }
    if RestoreTask(id) in Step(cfg, s, a).pending { TasksEvolve(cfg, s, a, RestoreTask(id)); }
  }

  /** The digest file of a job's backup does not appear through another job. */
  lemma DigestStaysAway(cfg: Config, s: State, a: Action, id: nat, stamp: Stamp)
    requires Inv(cfg, s) && Enabled(s, a) && Subject(a) != Some(id)
    requires stamp in s.written && s.written[stamp].id == id && ShaName(stamp) !in s.dir
    ensures ShaName(stamp) !in Step(cfg, s, a).dir
  {
    hide Step, FileInv, RecordInv, TaskInv, PassesCheck, SqlName, GzName, ShaName, PruningInv, AllOwned;
    assert FileInv(cfg, s, stamp);
    ValidInFile(cfg, s, stamp);
    if ShaName(stamp) in Step(cfg, s, a).dir {
      FilesAppear(cfg, s, a, ShaName(stamp));
      if a.WritePair? {
        NamesAreDistinct(a.stamp, stamp);
      } else {
        var b := s.jobs[a.id].backup;
        assert JobInv(cfg, s, a.id);
        assert FileInv(cfg, s, b.stamp);
        ValidInFile(cfg, s, b.stamp);
        NamesAreDistinct(b.stamp, stamp);
      }
    }
  }

  lemma JobKept(cfg: Config, s: State, a: Action, id: nat)
    requires Inv(cfg, s) && Enabled(s, a) && Subject(a) != Some(id) && id in Step(cfg, s, a).jobs
    requires Grows(s, Step(cfg, s, a))
    ensures JobInv(cfg, Step(cfg, s, a), id)
  {
    hide Step, FilesInv, PruningInv, RecordInv, TaskInv, WrittenInv, PassesCheck, FromSource, ShaName, Archive;
    JobUntouched(cfg, s, a, id);
    assert JobInv(cfg, s, id);
    RecordUntouched(cfg, s, a, id);
    NoTaskAppears(cfg, s, a, id);
    var job := s.jobs[id];
    if job.Paired? { DigestStaysAway(cfg, s, a, id, job.backup.stamp); }
    if job.Fetched? || job.Imported? {
      FromSourceKept(cfg, s, Step(cfg, s, a), s.Get(id).report.source, job.sql);
    }
  }

  lemma NewPairJob(cfg: Config, s: State, id: nat, stamp: Stamp)
    requires Inv(cfg, s) && Enabled(s, WritePair(id, stamp)) && JobInv(cfg, s, id)
    ensures JobInv(cfg, PairWritten(cfg, s, id, stamp), id)
  {
    hide PruningInv, TableInv, PassesCheck, Stem, FileInv;
    NewStampFiles(cfg, s, stamp);
    NamesAreDistinct(stamp, stamp);
  }

  lemma CheckedJob(cfg: Config, s: State, id: nat)
    requires Inv(cfg, s) && Enabled(s, CheckPair(id)) && JobInv(cfg, s, id) && id in PairChecked(cfg, s, id).jobs
    ensures JobInv(cfg, PairChecked(cfg, s, id), id)
  {
    hide FilesInv, PruningInv, TableInv, PassesCheck, GzName, ShaName, SqlName, PairChecked, Archive;
    ReadsOwnArchive(cfg, s, id);
  }

  lemma AdvancedJob(cfg: Config, s: State, a: Action)
    requires Enabled(s, a) && (a.WriteDigest? || a.PruneOld? || a.Import?) && JobInv(cfg, s, a.id)
    requires a.id in Step(cfg, s, a).jobs
    ensures JobInv(cfg, Step(cfg, s, a), a.id)
  {
    hide PassesCheck, GzName, ShaName, SqlName, Archive, Prune, Filled;
    if a.Import? {
      var source, sql := s.Get(a.id).report.source, s.jobs[a.id].sql;
      var stamp :| stamp in s.written && s.written[stamp].id == source &&
        cfg.codec.inflate(Archive(cfg.codec, s.BackupAt(stamp))) == Some(sql);
      var t := Step(cfg, s, a);
      assert t.BackupAt(stamp) == s.BackupAt(stamp);
    }
  }

  lemma DumpedJob(cfg: Config, s: State, id: nat, dump: Option<Bytes>)
    requires Inv(cfg, s) && Enabled(s, TakeDump(id, dump)) && id in DumpTaken(s, id, dump).jobs
    ensures JobInv(cfg, DumpTaken(s, id, dump), id)
  {
    hide FilesInv, PruningInv, RecordInv, WrittenInv, FromSource;
    assert TaskInv(s, BackupTask(id));
    assert RestoreTask(id) in s.pending ==> TaskInv(s, RestoreTask(id));
  }

  /** What a restore reads is its source's own archive. */
  lemma SourceIsOwnArchive(cfg: Config, s: State, id: nat) returns (stamp: Stamp)
    requires Inv(cfg, s) && s.Has(id) && s.Get(id).report.RestoreFrom?
    ensures StoredAs(cfg, s, s.Get(id).report.source, stamp)
    ensures SourceSql(cfg, s, id) ==
              if GzName(stamp) in s.dir then cfg.codec.inflate(Archive(cfg.codec, s.BackupAt(stamp))) else None
  {
    hide PruningInv, JobInv, TaskInv, WrittenInv, PassesCheck, Superseded, DigestLine, SqlName, ShaName, GzName,
      Archive;
    assert RecordInv(cfg, s, id);
    var source := s.Get(id).report.source;
    assert RecordInv(cfg, s, source);
    stamp :| StoredAs(cfg, s, source, stamp);
    assert FileInv(cfg, s, stamp);
    GzIsNonEmpty(stamp);
  }

  lemma GzIsNonEmpty(stamp: Stamp)
    ensures GzName(stamp) != ""
  {
  }

  lemma FetchedJob(cfg: Config, s: State, id: nat)
    requires Inv(cfg, s) && Enabled(s, Fetch(id)) && id in SourceFetched(cfg, s, id).jobs
    ensures JobInv(cfg, SourceFetched(cfg, s, id), id)
  {
    hide FilesInv, PruningInv, RecordInv, WrittenInv, SourceSql, PassesCheck, Archive, GzName;
    assert TaskInv(s, RestoreTask(id));
    assert BackupTask(id) in s.pending ==> TaskInv(s, BackupTask(id));
    var stamp := SourceIsOwnArchive(cfg, s, id);
    var t := SourceFetched(cfg, s, id);
    assert t.BackupAt(stamp) == s.BackupAt(stamp);
  }

  lemma SubjectJob(cfg: Config, s: State, a: Action)
    requires Inv(cfg, s) && Enabled(s, a) && Subject(a).Some? && a.id in Step(cfg, s, a).jobs
    ensures JobInv(cfg, Step(cfg, s, a), a.id)
  {
    hide FilesInv, PruningInv, RecordInv, JobInv, WrittenInv, TaskInv, DumpTaken, PairWritten, PairChecked,
      DigestWritten, OldPruned, SourceFetched, ImportRun;
    assert a.id in s.jobs ==> JobInv(cfg, s, a.id);
    match a
    case TakeDump(id, dump) => DumpedJob(cfg, s, id, dump);
    case WritePair(id, stamp) => NewPairJob(cfg, s, id, stamp);
    case CheckPair(id) => CheckedJob(cfg, s, id);
    case WriteDigest(_) => AdvancedJob(cfg, s, a);
    case PruneOld(_) => AdvancedJob(cfg, s, a);
    case Import(_, _) => AdvancedJob(cfg, s, a);
    case Fetch(id) => FetchedJob(cfg, s, id);
    case Conclude(_, _) =>
    case Finish(_) =>
  }

  lemma JobStep(cfg: Config, s: State, a: Action, id: nat)
    requires Inv(cfg, s) && Enabled(s, a) && id in Step(cfg, s, a).jobs
    ensures JobInv(cfg, Step(cfg, s, a), id)
  {
    hide Inv, Step, JobInv, Grows;
    if Subject(a) == Some(id) {
      SubjectJob(cfg, s, a);
    } else {
      InvTables(cfg, s);
      StepGrows(cfg, s, a);
      JobKept(cfg, s, a, id);
    }
  }

  lemma InvTables(cfg: Config, s: State)
    requires Inv(cfg, s)
    ensures TableInv(cfg, s)
  {
  }

  // ----- written backups

  lemma WrittenKept(cfg: Config, s: State, a: Action, stamp: Stamp)
    requires TableInv(cfg, s) && Enabled(s, a) && stamp in s.written && Grows(s, Step(cfg, s, a))
    requires forall t | t in Step(cfg, s, a).written && t !in s.written ::
               Step(cfg, s, a).written[t].id != s.written[stamp].id
    requires var id, t := s.written[stamp].id, Step(cfg, s, a);
      t.Has(id) && if id in t.jobs then WorksOn(t.jobs[id], s.BackupAt(stamp)) else t.Get(id).status != Running
    ensures WrittenInv(Step(cfg, s, a), stamp)
  {
    hide Step, RecordInv, JobInv, TaskInv, WorksOn;
    var id, t := s.written[stamp].id, Step(cfg, s, a);
    assert WrittenInv(s, stamp);
    RecordUntouched(cfg, s, a, id);
    if BackupTask(id) in t.pending { TasksEvolve(cfg, s, a, BackupTask(id)); }
    assert t.BackupAt(stamp) == s.BackupAt(stamp);
    forall u | u in t.written && t.written[u].id == id ensures u == stamp { assert u in s.written; }
  }

  /** The job of a written backup goes on working on it. */
  lemma GoesOn(cfg: Config, s: State, a: Action, stamp: Stamp)
    requires TableInv(cfg, s) && Enabled(s, a) && stamp in s.written
    ensures var id, t := s.written[stamp].id, Step(cfg, s, a);
      t.Has(id) && if id in t.jobs then WorksOn(t.jobs[id], s.BackupAt(stamp)) else t.Get(id).status != Running
    ensures a.WritePair? ==> a.id != s.written[stamp].id
  {
    hide RecordInv, JobInv, TaskInv, Step;
    var id := s.written[stamp].id;
    assert WrittenInv(s, stamp);
    RecordUntouched(cfg, s, a, id);
    if Subject(a) == Some(id) { SubjectGoesOn(cfg, s, a, stamp); } else { JobUntouched(cfg, s, a, id); }
  }

  lemma SubjectGoesOn(cfg: Config, s: State, a: Action, stamp: Stamp)
    requires TableInv(cfg, s) && Enabled(s, a) && stamp in s.written && Subject(a) == Some(s.written[stamp].id)
    ensures var id, t := s.written[stamp].id, Step(cfg, s, a);
      t.Has(id) && if id in t.jobs then WorksOn(t.jobs[id], s.BackupAt(stamp)) else t.Get(id).status != Running
    ensures !a.WritePair?
  {
    hide RecordInv, JobInv, SourceSql, Validate, Filled, Prune, Consistent;
    assert WrittenInv(s, stamp);
    assert a.Fetch? ==> TaskInv(s, RestoreTask(a.id));
  }

  lemma WrittenStep(cfg: Config, s: State, a: Action, stamp: Stamp)
    requires Inv(cfg, s) && Enabled(s, a) && stamp in Step(cfg, s, a).written
    ensures WrittenInv(Step(cfg, s, a), stamp)
  {
    hide Step, FilesInv, PruningInv, RecordInv, TaskInv, JobInv, WrittenInv, Grows;
    StepGrows(cfg, s, a);
    if stamp in s.written {
      GoesOn(cfg, s, a, stamp);
      forall t | t in Step(cfg, s, a).written && t !in s.written
        ensures Step(cfg, s, a).written[t].id != s.written[stamp].id
      {
        WrittenIsOwn(cfg, s, a, t);
      }
      GrowsHasWritten(s, Step(cfg, s, a));
      WrittenKept(cfg, s, a, stamp);
    } else {
      WrittenIsOwn(cfg, s, a, stamp);
      assert JobInv(cfg, s, a.id);
      FirstWritten(cfg, s, a.id, stamp);
    }
  }

  lemma GrowsHasWritten(s: State, t: State)
    requires Grows(s, t)
    ensures forall stamp | stamp in s.written :: stamp in t.written && t.written[stamp] == s.written[stamp]
  {
  }

  lemma FirstWritten(cfg: Config, s: State, id: nat, stamp: Stamp)
    requires TableInv(cfg, s) && Enabled(s, WritePair(id, stamp)) && JobInv(cfg, s, id)
    ensures var t := Step(cfg, s, WritePair(id, stamp)); stamp in t.written && WrittenInv(t, stamp)
  {
    hide RecordInv, TaskInv, WithPair, FromSource, PassesCheck;
    forall t | t in s.written ensures s.written[t].id != id { assert WrittenInv(s, t); }
  }

  // ---------- the invariant ----------

  lemma TableStep(cfg: Config, s: State, a: Action)
    requires Inv(cfg, s) && Enabled(s, a)
    ensures TableInv(cfg, Step(cfg, s, a))
  {
    hide Inv, Step, Enabled, RecordInv, TaskInv, JobInv, WrittenInv;
    var t := Step(cfg, s, a);
    forall id: nat | t.Has(id) ensures RecordInv(cfg, t, id) { RecordStep(cfg, s, a, id); }
    forall task | task in t.pending ensures TaskInv(t, task) { TaskStep(cfg, s, a, task); }
    forall id | id in t.jobs ensures JobInv(cfg, t, id) { JobStep(cfg, s, a, id); }
    forall stamp | stamp in t.written ensures WrittenInv(t, stamp) { WrittenStep(cfg, s, a, stamp); }
  }

  /** Every call and every step of every job keeps files, records, tasks and jobs consistent. */
  lemma InvStep(cfg: Config, s: State, a: Action)
    requires Inv(cfg, s) && Enabled(s, a)
    ensures Inv(cfg, Step(cfg, s, a))
  {
    hide Step, Enabled, FilesInv, PruningInv, TableInv;
    FilesStep(cfg, s, a);
    TableStep(cfg, s, a);
  }

  lemma InitInv(cfg: Config, databases: map<string, Database>)
    ensures Inv(cfg, Init(databases))
  {
  }

  lemma {:induction false} RunKeepsInv(cfg: Config, s: State, acts: seq<Action>)
    requires Inv(cfg, s) && Runs(cfg, s, acts)
    ensures Inv(cfg, After(cfg, s, acts))
    decreases |acts|
  {
    hide Inv, Step, Enabled;
    if acts != [] {
      InvStep(cfg, s, acts[0]);
      RunKeepsInv(cfg, Step(cfg, s, acts[0]), acts[1..]);
    }
  }

  /** Every interleaving of any number of backup and restore jobs keeps it. */
  lemma EveryRunIsSound(cfg: Config, databases: map<string, Database>, acts: seq<Action>)
    requires Runs(cfg, Init(databases), acts)
    ensures Inv(cfg, After(cfg, Init(databases), acts))
  {
    InitInv(cfg, databases);
    RunKeepsInv(cfg, Init(databases), acts);
  }
}

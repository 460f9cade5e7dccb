/** What the fields of a backup or restore record say, in every reachable state. */
module BackupLaws {
  import opened Options
  import opened BackupNames
  import opened Retention
  import opened BackupStore
  import opened BackupJobs
  import opened BackupInvariant
  import opened BackupFiles
  import opened BackupSafety
  import opened BackupTheorems

  /** The record names the compressed file its own job wrote. */
  ghost predicate NamesOwnFile(s: State, id: nat)
    requires s.Has(id)
  {
    exists stamp :: OwnFile(s, id, stamp)
  }

  predicate OwnFile(s: State, id: nat, stamp: Stamp)
    requires s.Has(id)
  {
    stamp in s.written && s.written[stamp].id == id && s.Get(id).filePath == Some(GzName(stamp))
  }

  /** The fields of a record, by what it is for and how far it has come. `checksumOk` is set exactly for
      a backup that succeeded. A job ended by its final commit names its file and reports what the check
      found; one ended by an exception names no file and reports the error. */
  ghost predicate FieldsFit(s: State, id: nat)
    requires s.Has(id)
  {
    var r := s.Get(id);
    match r.op
    case BackupOp =>
      (r.checksumOk <==> r.status == Succeeded) &&
      (match r.status
       case Running => r.filePath.None? && r.report == NoReport
       case Succeeded => r.report == Finished(true) && NamesOwnFile(s, id)
       case Failed =>
         (r.report == ErrorReport && r.filePath.None?) || (r.report == Finished(false) && NamesOwnFile(s, id)))
    case RestoreOp =>
      !r.checksumOk && r.filePath.None? &&
      (match r.status
       case Running => r.report.RestoreFrom?
       case Succeeded => r.report == Finished(true)
       case Failed => r.report == ErrorReport)
  }

  lemma FieldsKept(s: State, t: State, id: nat)
    requires s.Has(id) && FieldsFit(s, id) && t.Has(id) && t.Get(id) == s.Get(id)
    requires forall stamp | stamp in s.written :: stamp in t.written && t.written[stamp] == s.written[stamp]
    ensures FieldsFit(t, id)
  {
    hide GzName;
    if NamesOwnFile(s, id) {
      var stamp :| OwnFile(s, id, stamp);
      assert OwnFile(t, id, stamp);
    }
  }

  /** What the final commit of a backup writes. */
  lemma ConclusionFields(cfg: Config, s: State, id: nat, tables: Option<nat>)
    requires Inv(cfg, s) && Enabled(s, Conclude(id, tables)) && FieldsFit(s, id)
    ensures var t := Step(cfg, s, Conclude(id, tables)); var file := GzName(s.jobs[id].backup.stamp);
      t.Has(id) && FieldsFit(t, id) &&
      if file in s.dir && tables.None? then t.Get(id).report == ErrorReport && t.Get(id).filePath.None?
      else
        t.Get(id).filePath == Some(file) && t.Get(id).report == Finished(file in s.dir) &&
        t.Get(id).status == (if file in s.dir then Succeeded else Failed)
  {
    hide FilesInv, PruningInv, TableInv, GzName, Consistent, PassesCheck;
    InvTables(cfg, s);
    SubjectRuns(cfg, s, Conclude(id, tables));
    OwnInvariants(cfg, s, id);
    var b := s.jobs[id].backup;
    ConsistentIff(cfg, s, id);
    var t := Step(cfg, s, Conclude(id, tables));
    assert t.Get(id).filePath == Some(GzName(b.stamp)) ==> OwnFile(t, id, b.stamp);
  }

  /** The final check finds the file good if it finds it. */
  lemma ConsistentIff(cfg: Config, s: State, id: nat)
    requires FilesInv(cfg, s) && id in s.jobs && s.jobs[id].Trimmed? && JobInv(cfg, s, id)
    ensures Consistent(cfg.codec, s.dir, GzName(s.jobs[id].backup.stamp)) <==> GzName(s.jobs[id].backup.stamp) in s.dir
  {
    hide Superseded, DigestLine, SqlName, GzName, ShaName, Archive, AllOwned;
    assert FileInv(cfg, s, s.jobs[id].backup.stamp);
  }

  /** What any other step writes into its record: nothing, an error, or the end of a restore. */
  lemma OtherFields(cfg: Config, s: State, a: Action)
    requires Inv(cfg, s) && Enabled(s, a) && Subject(a).Some? && !a.Conclude? && FieldsFit(s, a.id)
    ensures Step(cfg, s, a).Has(a.id) && FieldsFit(Step(cfg, s, a), a.id)
    ensures var t := Step(cfg, s, a);
      t.Get(a.id) == s.Get(a.id) || t.Get(a.id).report == ErrorReport || a.Finish?
  {
    hide FilesInv, PruningInv, TableInv, Step, NamesOwnFile;
    InvTables(cfg, s);
    SubjectRuns(cfg, s, a);
    StepIs(cfg, s, a);
    HistoryGrows(cfg, s, a);
    if Step(cfg, s, a).Get(a.id) == s.Get(a.id) { FieldsKept(s, Step(cfg, s, a), a.id); }
  }

  lemma StepIs(cfg: Config, s: State, a: Action)
    requires Enabled(s, a) && Subject(a).Some? && !a.Conclude?
    ensures var t, r := Step(cfg, s, a), s.Get(a.id);
      t.Has(a.id) &&
      if a.Finish? then t.Get(a.id) == r.(status := Succeeded, report := Finished(true))
      else t.Get(a.id) == r || t.Get(a.id) == r.(status := Failed, report := ErrorReport)
  {
    hide Validate, SourceSql, Filled, WithPair, Prune;
  }

  lemma NewFields(cfg: Config, s: State, a: Action)
    requires Enabled(s, a) && Subject(a).None? && |Step(cfg, s, a).records| > |s.records|
    ensures var t := Step(cfg, s, a);
      t.Has(|s.records| + 1) && |t.records| == |s.records| + 1 && FieldsFit(t, |s.records| + 1)
  {
    hide Restorable;
  }

  lemma FieldsStep(cfg: Config, s: State, a: Action, id: nat)
    requires Inv(cfg, s) && Enabled(s, a) && Step(cfg, s, a).Has(id)
    requires s.Has(id) ==> FieldsFit(s, id)
    ensures FieldsFit(Step(cfg, s, a), id)
  {
    hide Inv, Step, FieldsFit, Enabled;
    if !s.Has(id) {
      OnlyCallsAdd(cfg, s, a);
      NewFields(cfg, s, a);
    } else if Subject(a) != Some(id) {
      RecordUntouched(cfg, s, a, id);
      HistoryGrows(cfg, s, a);
      FieldsKept(s, Step(cfg, s, a), id);
    } else if a.Conclude? {
      ConclusionFields(cfg, s, a.id, a.tables);
    } else {
      OtherFields(cfg, s, a);
    }
  }

  lemma OnlyCallsAdd(cfg: Config, s: State, a: Action)
    requires Enabled(s, a) && |Step(cfg, s, a).records| > |s.records|
    ensures Subject(a).None?
  {
    hide DumpTaken, PairWritten, PairChecked, DigestWritten, OldPruned, Concluded, SourceFetched, ImportRun,
      RestoreFinished, Restorable;
  }

  ghost predicate AllFit(s: State) { forall id | s.Has(id) :: FieldsFit(s, id) }

  lemma {:induction false} RunFits(cfg: Config, s: State, acts: seq<Action>)
    requires Inv(cfg, s) && Runs(cfg, s, acts) && AllFit(s)
    ensures AllFit(After(cfg, s, acts))
    decreases |acts|
  {
    hide Inv, Step, Enabled, FieldsFit;
    if acts != [] {
      forall id: nat | Step(cfg, s, acts[0]).Has(id) ensures FieldsFit(Step(cfg, s, acts[0]), id) {
        FieldsStep(cfg, s, acts[0], id);
      }
      InvStep(cfg, s, acts[0]);
      RunFits(cfg, Step(cfg, s, acts[0]), acts[1..]);
    }
  }

  /** In every interleaving, the fields of every record fit what it is for and how it ended. */
  lemma RecordsMean(cfg: Config, databases: map<string, Database>, acts: seq<Action>, id: nat)
    requires Runs(cfg, Init(databases), acts) && After(cfg, Init(databases), acts).Has(id)
    ensures FieldsFit(After(cfg, Init(databases), acts), id)
  {
    hide Inv, Runs, After, FieldsFit;
    InitInv(cfg, databases);
    RunFits(cfg, Init(databases), acts);
  }

  /** In every interleaving, what the step that ends a backup job writes: the final commit names the job's
      file and reports whether it was there; every other end, the failing statistics included, names no
      file and reports an error. */
  lemma EndMeans(cfg: Config, databases: map<string, Database>, acts: seq<Action>, a: Action)
    requires Runs(cfg, Init(databases), acts) && Enabled(After(cfg, Init(databases), acts), a) && Subject(a).Some?
    requires After(cfg, Init(databases), acts).Get(a.id).op == BackupOp
    requires a.id !in Step(cfg, After(cfg, Init(databases), acts), a).jobs
    ensures var s := After(cfg, Init(databases), acts); var t := Step(cfg, s, a);
      t.Has(a.id) && t.Get(a.id).checksumOk == (t.Get(a.id).status == Succeeded) &&
      if a.Conclude? && !(FileThere(s, a.id) && a.tables.None?)
      then t.Get(a.id).filePath == Some(GzName(s.jobs[a.id].backup.stamp)) &&
           t.Get(a.id).report == Finished(FileThere(s, a.id)) &&
           t.Get(a.id).status == (if FileThere(s, a.id) then Succeeded else Failed)
      else t.Get(a.id).filePath.None? && t.Get(a.id).report == ErrorReport && t.Get(a.id).status == Failed
  {
    hide Inv, Runs, After, Step, FieldsFit, GzName;
    var s := After(cfg, Init(databases), acts);
    EveryRunIsSound(cfg, databases, acts);
    RecordsMean(cfg, databases, acts, a.id);
    BackupEnds(cfg, s, a);
    InvTables(cfg, s);
    SubjectRuns(cfg, s, a);
    if a.Conclude? { ConclusionFields(cfg, s, a.id, a.tables); } else { OtherFields(cfg, s, a); }
    EndFields(s, Step(cfg, s, a), a.id);
    StillBackup(cfg, s, a);
  }

  lemma StillBackup(cfg: Config, s: State, a: Action)
    requires Enabled(s, a) && Subject(a).Some?
    ensures Step(cfg, s, a).Has(a.id) && Step(cfg, s, a).Get(a.id).op == s.Get(a.id).op
  {
    RecordUntouched(cfg, s, a, a.id);
  }

  lemma EndFields(s: State, t: State, id: nat)
    requires t.Has(id) && FieldsFit(t, id)
    ensures t.Get(id).op == BackupOp ==> t.Get(id).checksumOk == (t.Get(id).status == Succeeded)
    ensures t.Get(id).op == BackupOp && t.Get(id).report == ErrorReport ==>
              t.Get(id).filePath.None? && t.Get(id).status == Failed
  {
  }
}

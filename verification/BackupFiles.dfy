/** Every step of every job keeps the files of all backups in order. */
module BackupFiles {
  import opened Options
  import opened BackupNames
  import opened Retention
  import opened BackupStore
  import opened BackupJobs
  import opened BackupInvariant

  // ---------- files, step by step ----------

  /** What an action that leaves the directory alone may do with jobs: it starts or ends none that
      has written its pair and not yet its digest. */
  ghost predicate SameFiles(s: State, t: State) {
    t.dir == s.dir && t.written == s.written && t.late == s.late &&
    forall id: nat ::
      (WorksBeforePruning(s, id) <==> WorksBeforePruning(t, id)) &&
      (WorksBeforePruning(s, id) ==> t.jobs[id] == s.jobs[id])
  }

  predicate WorksBeforePruning(s: State, id: nat) {
    id in s.jobs && (s.jobs[id].Paired? || s.jobs[id].Checked? || s.jobs[id].Digested?)
  }

  lemma FilesUntouched(cfg: Config, s: State, a: Action)
    requires Enabled(s, a) && !(a.WritePair? || a.CheckPair? || a.WriteDigest? || a.PruneOld?)
    requires a.TakeDump? || a.Fetch? ==> a.id !in s.jobs
    ensures SameFiles(s, Step(cfg, s, a))
  {
    hide Restorable, Step;
    FrameOf(cfg, s, a);
    forall id: nat
      ensures WorksBeforePruning(s, id) <==> WorksBeforePruning(Step(cfg, s, a), id)
      ensures WorksBeforePruning(s, id) ==> Step(cfg, s, a).jobs[id] == s.jobs[id]
    {
      if Subject(a) != Some(id) { JobUntouched(cfg, s, a, id); } else { SubjectOutside(cfg, s, a); }
    }
  }

  lemma FrameOf(cfg: Config, s: State, a: Action)
    requires Enabled(s, a) && !(a.WritePair? || a.CheckPair? || a.WriteDigest? || a.PruneOld?)
    ensures Step(cfg, s, a).dir == s.dir && Step(cfg, s, a).written == s.written && Step(cfg, s, a).late == s.late
  {
    hide Restorable, DumpTaken, PairWritten, PairChecked, DigestWritten, OldPruned, Concluded, SourceFetched, ImportRun,
      RestoreFinished;
  }

  lemma SubjectOutside(cfg: Config, s: State, a: Action)
    requires Enabled(s, a) && !(a.WritePair? || a.CheckPair? || a.WriteDigest? || a.PruneOld?) && Subject(a).Some?
    requires a.TakeDump? || a.Fetch? ==> a.id !in s.jobs
    ensures !WorksBeforePruning(s, a.id) && !WorksBeforePruning(Step(cfg, s, a), a.id)
  {
    hide SourceSql, Consistent, Filled;
  }

  lemma SameFilesKeep(cfg: Config, s: State, t: State)
    requires FilesInv(cfg, s) && PruningInv(cfg, s) && SameFiles(s, t)
    ensures FilesInv(cfg, t) && PruningInv(cfg, t)
  {
    hide PassesCheck, Superseded, AllOwned, DigestLine, Archive, SqlName, GzName, ShaName;
    forall stamp | stamp in t.written ensures FileInv(cfg, t, stamp) {
      assert FileInv(cfg, s, stamp);
      assert WorksBeforePruning(s, s.written[stamp].id) <==> WorksBeforePruning(t, s.written[stamp].id);
    }
    assert AllPass(cfg, t) ==> AllPass(cfg, s) by {
      forall stamp | stamp in s.written ensures t.BackupAt(stamp) == s.BackupAt(stamp) {}
    }
    forall id: nat ensures WillPrune(s, id) ==> WillPrune(t, id) {
      assert WorksBeforePruning(s, id) ==> t.jobs[id] == s.jobs[id];
    }
  }

  lemma OwnNames(stamp: Stamp, other: Stamp, f: string)
    requires stamp.Valid() && other.Valid() && stamp != other && f in FilesOf(stamp)
    ensures f !in FilesOf(other)
  {
    hide FilesOf;
    if f in FilesOf(other) { FilesAreDisjoint(stamp, other, f); }
  }

  /** A backup whose three files and whose job are untouched keeps its invariant. */
  lemma FileInvKept(cfg: Config, s: State, t: State, stamp: Stamp)
    requires stamp in s.written && FileInv(cfg, s, stamp) && stamp in t.written && t.written[stamp] == s.written[stamp]
    requires s.written.Keys <= t.written.Keys && (stamp in t.late <==> stamp in s.late)
    requires forall f | f in FilesOf(stamp) :: (f in t.dir <==> f in s.dir) && (f in s.dir ==> t.dir[f] == s.dir[f])
    requires s.written[stamp].id in s.jobs ==>
               s.written[stamp].id in t.jobs && t.jobs[s.written[stamp].id] == s.jobs[s.written[stamp].id]
    ensures FileInv(cfg, t, stamp)
  {
    hide PassesCheck, DigestLine, Archive, SqlName, GzName, ShaName, Superseded;
    assert SqlName(stamp) in FilesOf(stamp) && GzName(stamp) in FilesOf(stamp) && ShaName(stamp) in FilesOf(stamp);
    if Superseded(s.written.Keys, cfg.retention, stamp) {
      SupersededAmongMore(s.written.Keys, t.written.Keys, cfg.retention, stamp);
    }
  }

  /** The job of another backup is not the one that works on this stamp. */
  lemma OtherStamps(cfg: Config, s: State, id: nat, b: Backup, stamp: Stamp)
    requires TableInv(cfg, s) && Wrote(s, id, b) && stamp in s.written && stamp != b.stamp
    ensures s.written[stamp].id != id
  {
    assert WrittenInv(s, stamp) && WrittenInv(s, b.stamp);
  }

  lemma NewStampFiles(cfg: Config, s: State, stamp: Stamp)
    requires FilesInv(cfg, s) && stamp.Valid() && stamp !in s.written
    ensures s.dir.Keys !! FilesOf(stamp)
  {
    hide FileInv, FilesOf, SqlName, GzName, ShaName;
    forall f | f in s.dir ensures f !in FilesOf(stamp) {
      var owner :| owner in s.written.Keys && f in FilesOf(owner);
      assert FileInv(cfg, s, owner);
      ValidInFile(cfg, s, owner);
      OwnNames(owner, stamp, f);
    }
  }

  lemma ValidInFile(cfg: Config, s: State, stamp: Stamp)
    requires stamp in s.written && FileInv(cfg, s, stamp)
    ensures stamp.Valid()
  {
  }

  // ----- the pair is written

  lemma WritePairFiles(cfg: Config, s: State, id: nat, stamp: Stamp)
    requires FilesInv(cfg, s) && TableInv(cfg, s) && Enabled(s, WritePair(id, stamp))
    ensures FilesInv(cfg, PairWritten(cfg, s, id, stamp)) && PruningInv(cfg, PairWritten(cfg, s, id, stamp))
  {
    hide FileInv, PassesCheck, DigestLine, Archive, SqlName, GzName, ShaName, RecordInv, TaskInv, JobInv;
    var t := PairWritten(cfg, s, id, stamp);
    NewStampFiles(cfg, s, stamp);
    NamesInFiles(stamp);
    forall other | other in t.written ensures FileInv(cfg, t, other) {
      if other != stamp {
        assert WrittenInv(s, other);
        ValidInFile(cfg, s, other);
        forall f | f in FilesOf(other) ensures f !in FilesOf(stamp) { OwnNames(other, stamp, f); }
        FileInvKept(cfg, s, t, other);
      } else {
        FreshPair(cfg, s, id, stamp);
      }
    }
    PairIsOwned(s.written.Keys, s.dir.Keys, t.dir.Keys, stamp);
    assert WillPrune(t, id);
  }

  lemma NamesInFiles(stamp: Stamp)
    ensures {SqlName(stamp), GzName(stamp), ShaName(stamp)} == FilesOf(stamp)
  {
  }

  lemma PairIsOwned(stamps: set<Stamp>, files: set<string>, more: set<string>, stamp: Stamp)
    requires AllOwned(stamps, files) && more <= files + FilesOf(stamp)
    ensures AllOwned(stamps + {stamp}, more)
  {
    hide FilesOf;
    forall f | f in more ensures exists s :: s in stamps + {stamp} && f in FilesOf(s) {
      if f in files {
        var s :| s in stamps && f in FilesOf(s);
      } else {
        assert stamp in stamps + {stamp};
      }
    }
  }

  lemma FreshPair(cfg: Config, s: State, id: nat, stamp: Stamp)
    requires Enabled(s, WritePair(id, stamp)) && s.dir.Keys !! FilesOf(stamp) && stamp !in s.late
    ensures FileInv(cfg, PairWritten(cfg, s, id, stamp), stamp)
  {
    hide PassesCheck, DigestLine, Archive, Superseded, Stem;
    NamesAreDistinct(stamp, stamp);
  }

  // ----- the pair is checked

  lemma FewerOwned(stamps: set<Stamp>, files: set<string>, fewer: set<string>)
    requires AllOwned(stamps, files) && fewer <= files
    ensures AllOwned(stamps, fewer)
  {
  }

  /** What the check reads back is the job's own archive, if it is still there. */
  lemma ReadsOwnArchive(cfg: Config, s: State, id: nat)
    requires FilesInv(cfg, s) && Enabled(s, CheckPair(id)) && JobInv(cfg, s, id)
    ensures var b := s.jobs[id].backup;
      PairChecked(cfg, s, id) ==
        if GzName(b.stamp) !in s.dir then Fails(s, id)
        else if PassesCheck(cfg.codec, b)
        then s.(jobs := s.jobs[id := Checked(b, cfg.codec.digest(Archive(cfg.codec, b)))])
        else Fails(s, id).(dir := s.dir - {SqlName(b.stamp), GzName(b.stamp)})
  {
    hide Superseded, DigestLine, SqlName, GzName, ShaName, Archive, Fails;
    assert FileInv(cfg, s, s.jobs[id].backup.stamp);
  }

  /** The other backups do not notice a job that at most removes its own pair. */
  lemma OthersNotice(cfg: Config, s: State, t: State, id: nat, b: Backup, stamp: Stamp)
    requires FilesInv(cfg, s) && TableInv(cfg, s) && Wrote(s, id, b) && stamp in s.written && stamp != b.stamp
    requires t.written == s.written && (stamp in t.late <==> stamp in s.late) && t.jobs - {id} == s.jobs - {id}
    requires forall f | f !in FilesOf(b.stamp) :: (f in t.dir <==> f in s.dir) && (f in s.dir ==> t.dir[f] == s.dir[f])
    ensures FileInv(cfg, t, stamp)
  {
    hide PassesCheck, DigestLine, Archive, SqlName, GzName, ShaName, RecordInv, TaskInv, JobInv, FilesOf, FileInv;
    assert FileInv(cfg, s, stamp) && FileInv(cfg, s, b.stamp);
    ValidInFile(cfg, s, stamp);
    ValidInFile(cfg, s, b.stamp);
    forall f | f in FilesOf(stamp) ensures f !in FilesOf(b.stamp) { OwnNames(stamp, b.stamp, f); }
    OtherStamps(cfg, s, id, b, stamp);
    var other := s.written[stamp].id;
    assert other in s.jobs ==> other in s.jobs - {id} && (s.jobs - {id})[other] == s.jobs[other];
    assert other in t.jobs - {id} ==> other in t.jobs && t.jobs[other] == (t.jobs - {id})[other];
    FileInvKept(cfg, s, t, stamp);
  }

  lemma OwnAfterCheck(cfg: Config, s: State, id: nat)
    requires FilesInv(cfg, s) && TableInv(cfg, s) && Enabled(s, CheckPair(id))
    ensures var b := s.jobs[id].backup;
      b.stamp in PairChecked(cfg, s, id).written && FileInv(cfg, PairChecked(cfg, s, id), b.stamp)
  {
    hide Superseded, DigestLine, Archive, Stem, PairChecked, PassesCheck, RecordInv, TaskInv, WrittenInv;
    assert JobInv(cfg, s, id);
    ReadsOwnArchive(cfg, s, id);
    assert FileInv(cfg, s, s.jobs[id].backup.stamp);
    NamesAreDistinct(s.jobs[id].backup.stamp, s.jobs[id].backup.stamp);
  }

  lemma CheckPairFiles(cfg: Config, s: State, id: nat)
    requires FilesInv(cfg, s) && TableInv(cfg, s) && Enabled(s, CheckPair(id))
    ensures FilesInv(cfg, PairChecked(cfg, s, id))
  {
    hide FileInv, PassesCheck, DigestLine, Archive, SqlName, GzName, ShaName, RecordInv, TaskInv, WrittenInv,
      PairChecked, AllOwned;
    var t, b := PairChecked(cfg, s, id), s.jobs[id].backup;
    assert JobInv(cfg, s, id);
    ReadsOwnArchive(cfg, s, id);
    OwnAfterCheck(cfg, s, id);
    NamesInFiles(b.stamp);
    forall stamp | stamp in t.written ensures FileInv(cfg, t, stamp) {
      if stamp != b.stamp { OthersNotice(cfg, s, t, id, b, stamp); }
    }
    FewerOwned(s.written.Keys, s.dir.Keys, t.dir.Keys);
  }

  lemma SamePassing(cfg: Config, s: State, t: State)
    requires t.written == s.written
    ensures AllPass(cfg, t) <==> AllPass(cfg, s)
  {
    assert forall stamp | stamp in s.written :: t.BackupAt(stamp) == s.BackupAt(stamp);
  }

  lemma CheckPairPruning(cfg: Config, s: State, id: nat)
    requires FilesInv(cfg, s) && PruningInv(cfg, s) && TableInv(cfg, s) && Enabled(s, CheckPair(id))
    ensures PruningInv(cfg, PairChecked(cfg, s, id))
  {
    hide FileInv, PassesCheck, DigestLine, Archive, SqlName, GzName, ShaName, RecordInv, TaskInv, WrittenInv,
      Superseded, PairChecked, AllOwned;
    var t, b := PairChecked(cfg, s, id), s.jobs[id].backup;
    assert JobInv(cfg, s, id);
    ReadsOwnArchive(cfg, s, id);
    SamePassing(cfg, s, t);
    if AllPass(cfg, t) {
      assert s.BackupAt(b.stamp) == b;
      assert PassesCheck(cfg.codec, b);
      forall k: nat ensures WillPrune(s, k) ==> WillPrune(t, k) {}
    }
  }

  // ----- the digest is written

  lemma OwnAfterDigest(cfg: Config, s: State, id: nat)
    requires FilesInv(cfg, s) && Enabled(s, WriteDigest(id)) && JobInv(cfg, s, id)
    ensures var b := s.jobs[id].backup;
      b.stamp in DigestWritten(s, id).written && FileInv(cfg, DigestWritten(s, id), b.stamp)
  {
    hide Superseded, Archive, Stem, PassesCheck;
    assert FileInv(cfg, s, s.jobs[id].backup.stamp);
    NamesAreDistinct(s.jobs[id].backup.stamp, s.jobs[id].backup.stamp);
  }

  lemma DigestFiles(cfg: Config, s: State, id: nat)
    requires FilesInv(cfg, s) && PruningInv(cfg, s) && TableInv(cfg, s) && Enabled(s, WriteDigest(id))
    ensures FilesInv(cfg, DigestWritten(s, id)) && PruningInv(cfg, DigestWritten(s, id))
  {
    hide FileInv, PassesCheck, DigestLine, Archive, SqlName, GzName, ShaName, RecordInv, TaskInv, WrittenInv,
      Superseded, AllOwned;
    var t, b := DigestWritten(s, id), s.jobs[id].backup;
    assert JobInv(cfg, s, id);
    OwnAfterDigest(cfg, s, id);
    NamesInFiles(b.stamp);
    assert FileInv(cfg, s, b.stamp);
    ValidInFile(cfg, s, b.stamp);
    forall stamp | stamp in t.written ensures FileInv(cfg, t, stamp) {
      if stamp != b.stamp { OthersNotice(cfg, s, t, id, b, stamp); }
    }
    PairIsOwned(s.written.Keys, s.dir.Keys, t.dir.Keys, b.stamp);
    assert s.written.Keys + {b.stamp} == s.written.Keys;
    SamePassing(cfg, s, t);
    forall k: nat ensures WillPrune(s, k) ==> WillPrune(t, k) {}
    forall stamp | stamp in s.written ensures GzName(stamp) in t.dir <==> GzName(stamp) in s.dir {
      assert FileInv(cfg, s, stamp);
      ValidInFile(cfg, s, stamp);
      NamesAreDistinct(stamp, b.stamp);
    }
  }

  // ----- old backups are pruned

  /** Pruning treats the files of one backup alike, except that it never takes a late digest. */
  lemma PrunedFiles(cfg: Config, s: State, stamp: Stamp)
    requires FilesInv(cfg, s) && stamp in s.written
    ensures var gone := GzName(stamp) in s.dir &&
              Superseded(Present(s.written.Keys, s.dir.Keys), cfg.retention, stamp);
      forall f | f in FilesOf(stamp) ::
        (f in Prune(s.dir, cfg.retention) <==> f in s.dir && !gone) &&
        (f in Prune(s.dir, cfg.retention) ==> Prune(s.dir, cfg.retention)[f] == s.dir[f])
  {
    hide FilesOf, GzName, Superseded, AllOwned, Remaining;
    AllAreValid(cfg, s);
    forall f | f in FilesOf(stamp) && f in s.dir
      ensures f in Remaining(s.dir.Keys, cfg.retention) <==>
              !(GzName(stamp) in s.dir && Superseded(Present(s.written.Keys, s.dir.Keys), cfg.retention, stamp))
    {
      PrunedIff(s.written.Keys, s.dir.Keys, cfg.retention, stamp, f);
    }
  }

  lemma AllAreValid(cfg: Config, s: State)
    requires FilesInv(cfg, s)
    ensures AllValid(s.written.Keys)
  {
    hide Superseded, PassesCheck, Archive, DigestLine, GzName, SqlName, ShaName;
    assert forall stamp | stamp in s.written.Keys :: FileInv(cfg, s, stamp);
  }

  lemma PrunedInv(cfg: Config, s: State, t: State, stamp: Stamp)
    requires stamp in s.written && FileInv(cfg, s, stamp)
    requires t.written == s.written && t.late == s.late
    requires BeforeDigest(s, stamp) ==> BeforeDigest(t, stamp)
    requires Unchecked(s, stamp) ==> Unchecked(t, stamp)
    requires var here := Present(s.written.Keys, s.dir.Keys);
      var gone := GzName(stamp) in s.dir && Superseded(here, cfg.retention, stamp);
      forall f | f in FilesOf(stamp) :: (f in t.dir <==> f in s.dir && !gone) && (f in t.dir ==> t.dir[f] == s.dir[f])
    ensures FileInv(cfg, t, stamp)
  {
    hide Archive, DigestLine, PassesCheck, SqlName, GzName, ShaName, Superseded;
    NamesInFiles(stamp);
    var here := Present(s.written.Keys, s.dir.Keys);
    if Superseded(here, cfg.retention, stamp) { SupersededAmongMore(here, s.written.Keys, cfg.retention, stamp); }
  }

  lemma PruneOldFiles(cfg: Config, s: State, id: nat)
    requires FilesInv(cfg, s) && Enabled(s, PruneOld(id))
    ensures FilesInv(cfg, OldPruned(cfg, s, id))
  {
    hide FileInv, AllOwned, Prune, FilesOf, Superseded, GzName, Present;
    var t := OldPruned(cfg, s, id);
    forall stamp | stamp in t.written ensures FileInv(cfg, t, stamp) {
      PrunedFiles(cfg, s, stamp);
      PrunedInv(cfg, s, t, stamp);
    }
    PrunedIsFewer(s.dir, cfg.retention);
    FewerOwned(s.written.Keys, s.dir.Keys, t.dir.Keys);
  }

  lemma PrunedIsFewer(dir: Dir, retention: int)
    ensures Prune(dir, retention).Keys <= dir.Keys
  {
    hide IsDoomed;
  }

  /** After a pruning no superseded backup is left, if every pair passed its check. */
  lemma NothingSupersededLeft(cfg: Config, s: State, stamp: Stamp)
    requires FilesInv(cfg, s) && AllPass(cfg, s) && stamp in s.written && GzName(stamp) in Prune(s.dir, cfg.retention)
    ensures !Superseded(s.written.Keys, cfg.retention, stamp)
  {
    hide Prune, Archive, DigestLine, PassesCheck, SqlName, GzName, ShaName, AllOwned, Superseded;
    PrunedFiles(cfg, s, stamp);
    NamesInFiles(stamp);
    var here := Present(s.written.Keys, s.dir.Keys);
    if Superseded(s.written.Keys, cfg.retention, stamp) {
      forall t | t in s.written.Keys && t !in here ensures Superseded(s.written.Keys, cfg.retention, t) {
        assert FileInv(cfg, s, t);
      }
      SupersededAmongPresent(s.written.Keys, here, cfg.retention, stamp);
    }
  }

  lemma PruneOldPruning(cfg: Config, s: State, id: nat)
    requires FilesInv(cfg, s) && Enabled(s, PruneOld(id))
    ensures PruningInv(cfg, OldPruned(cfg, s, id))
  {
    hide FilesInv, PassesCheck, Superseded, GzName, Prune;
    var t := OldPruned(cfg, s, id);
    SamePassing(cfg, s, t);
    if AllPass(cfg, t) {
      forall stamp | stamp in t.written && GzName(stamp) in t.dir
        ensures !Superseded(t.written.Keys, cfg.retention, stamp)
      {
        NothingSupersededLeft(cfg, s, stamp);
      }
    }
  }

  /** Every action keeps the directory invariant. */
  lemma FilesStep(cfg: Config, s: State, a: Action)
    requires Inv(cfg, s) && Enabled(s, a)
    ensures FilesInv(cfg, Step(cfg, s, a)) && PruningInv(cfg, Step(cfg, s, a))
  {
    hide FilesInv, PruningInv, TableInv, PairWritten, PairChecked, DigestWritten, OldPruned;
    if a.WritePair? {
      WritePairFiles(cfg, s, a.id, a.stamp);
    } else if a.CheckPair? {
      CheckPairFiles(cfg, s, a.id);
      CheckPairPruning(cfg, s, a.id);
    } else if a.WriteDigest? {
      DigestFiles(cfg, s, a.id);
    } else if a.PruneOld? {
      PruneOldFiles(cfg, s, a.id);
      PruneOldPruning(cfg, s, a.id);
    } else {
      if Subject(a).Some? { SubjectRuns(cfg, s, a); }
      FilesUntouched(cfg, s, a);
      SameFilesKeep(cfg, s, Step(cfg, s, a));
    }
  }
}

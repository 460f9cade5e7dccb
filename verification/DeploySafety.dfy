/** What every interleaving of deploys and rollbacks keeps, across tables, workers and remote files. */
module DeploySafety {
  import opened Options
  import opened DeployPlans
  import opened DeployProtocol

  predicate Final(st: Status) { st != Requested && st != Running }

  /** The four steps of a deployment, all successful. */
  const COMPLETE: seq<StepResult> :=
    [StepResult("pull", true), StepResult("build", true), StepResult("up", true), StepResult("healthcheck", true)]

  /** The two steps of a rollback, both successful. */
  const ROLLED_BACK: seq<StepResult> := [StepResult("rollback", true), StepResult("healthcheck", true)]

  /** The stored plan is valid and is the release's own. */
  predicate PlanKept(s: State, r: Release) {
    r.result.plan.Some? && r.project in s.projects &&
    var p := r.result.plan.value;
    Valid(p) && p.project == r.project && p.image == r.image && p.version == r.version &&
    p.steps == DEPLOY_STEPS && p.target == s.projects[r.project].target
  }

  /** On its host, the release's own file holds the document of the plan. */
  predicate Deployed(s: State, id: nat, p: Plan) {
    p.target.Some? &&
    var f := File(p.target.value, p.project, id);
    f in s.files && s.files[f] == ComposeDocument(p)
  }

  /** A succeeded release has run all of its plan, and the evidence is there. */
  predicate Proven(s: State, id: nat, r: Release) {
    r.kind == Deploy && r.digest.Some? && !r.result.error && PlanKept(s, r) &&
    r.gitRef == Some(s.projects[r.project].branch) &&
    r.result.steps == Some(COMPLETE) && r.result.outcome == Some("succeeded") &&
    Deployed(s, id, r.result.plan.value)
  }

  /** The rollback goes back to an earlier release of the project that succeeded and still has. */
  predicate GoesBack(s: State, r: Release) {
    r.result.rollbackTo.Some? && r.result.rollbackOf.Some? && r.result.plan.None? &&
    var to, of := r.result.rollbackTo.value, r.result.rollbackOf.value;
    s.Has(to) && s.Has(of) && to < of && s.Get(to).status == Succeeded &&
    s.Get(to).project == r.project && s.Get(of).project == r.project &&
    s.Get(to).image == r.image && s.Get(to).version == r.version && s.Get(to).gitRef == r.gitRef
  }

  predicate DeployInv(s: State, id: nat, r: Release) {
    r.status in {Requested, Running, Succeeded, Failed} &&
    (r.result.error ==> r.status == Failed) &&
    (!r.result.error ==> PlanKept(s, r)) &&
    (r.digest.Some? ==> r.status == Succeeded) &&
    (r.status == Succeeded ==> Proven(s, id, r))
  }

  predicate RollbackInv(s: State, id: nat, r: Release) {
    r.status in {Requested, Running, RollbackSucceeded, RollbackFailed} &&
    (r.result.error ==> r.status == RollbackFailed) &&
    (!r.result.error ==> GoesBack(s, r) && r.result.rollbackOf.value < id) &&
    (r.status == RollbackSucceeded ==>
       r.result.steps == Some(ROLLED_BACK) && r.result.outcome == Some("succeeded"))
  }

  predicate ReleaseInv(s: State, id: nat)
    requires s.Has(id)
  {
    var r := s.Get(id);
    r.project in s.projects && if r.kind == Deploy then DeployInv(s, id, r) else RollbackInv(s, id, r)
  }

  /** A worker follows its plan, and after a successful `up` its own file is in place. */
  predicate WorkerInv(s: State, id: nat)
    requires id in s.workers
  {
    s.Has(id) && id !in s.pending && s.Get(id).status == Running &&
    var w, r := s.workers[id], s.Get(id);
    w.Stepping? ==>
      w.plan == WorkPlan(s, r) && w.composeId == ComposeId(id, r) && Valid(w.plan) &&
      w.plan.target == Some(w.host) && Follows(w.plan.steps, w.results) &&
      (r.kind == Deploy && |w.results| >= 3 && w.results[2].ok ==> Deployed(s, id, w.plan))
  }

  predicate PendingInv(s: State) {
    forall id | id in s.pending :: s.Has(id) && s.Get(id).status == Requested
  }

  /** Every file belongs to a deploy of that project bound to that host. */
  predicate FileInv(s: State, f: File) {
    s.Has(f.release) && s.Get(f.release).kind == Deploy && s.Get(f.release).project == f.project &&
    f.project in s.projects && s.projects[f.project].target == Some(f.host) &&
    s.Get(f.release).status != Requested
  }

  ghost predicate Inv(s: State) {
    (forall id | s.Has(id) :: ReleaseInv(s, id)) &&
    (forall id | id in s.workers :: WorkerInv(s, id)) &&
    (forall f | f in s.files :: FileInv(s, f)) &&
    PendingInv(s)
  }

  /** The release an action works on. */
  function Subject(a: Action): Option<nat> {
    if a.Start? || a.Connect? || a.RunStep? || a.Finish? then Some(a.id) else None
  }

  ghost predicate SameFiles(s: State, s': State, id: nat) {
    forall f: File | f.release == id ::
      (f in s.files <==> f in s'.files) && (f in s.files ==> s.files[f] == s'.files[f])
  }

  /** What a later state keeps of an earlier one. */
  ghost predicate Grows(s: State, s': State) {
    |s.releases| <= |s'.releases| &&
    (forall n | n in s.projects :: n in s'.projects && s'.projects[n] == s.projects[n]) &&
    (forall id | s.Has(id) ::
       s'.Get(id).project == s.Get(id).project && s'.Get(id).kind == s.Get(id).kind &&
       (s.Get(id).status != Requested ==> s'.Get(id).status != Requested)) &&
    (forall id | s.Has(id) && Final(s.Get(id).status) :: s'.Get(id) == s.Get(id) && SameFiles(s, s', id))
  }

  /** A release other than the subject keeps its record and its files; new ones get the next id. */
  ghost predicate OthersKept(s: State, a: Action, s': State) {
    |s.releases| <= |s'.releases| &&
    forall id: nat | s.Has(id) && Subject(a) != Some(id) :: s'.Get(id) == s.Get(id) && SameFiles(s, s', id)
  }

  // ---------- the rollback point ----------

  /** The point is the latest succeeded release of the project, and there is none only if none succeeded. */
  lemma {:induction false} LastValidIff(rs: seq<Release>, project: nat)
    ensures var k := LastValid(rs, project);
      match k
      case None => forall j | 0 <= j < |rs| :: !(rs[j].project == project && rs[j].status == Succeeded)
      case Some(n) =>
        1 <= n <= |rs| && rs[n - 1].project == project && rs[n - 1].status == Succeeded &&
        (forall j | n <= j < |rs| :: !(rs[j].project == project && rs[j].status == Succeeded))
  {
    if rs != [] {
      var init := rs[..|rs| - 1];
      LastValidIff(init, project);
      assert forall j | 0 <= j < |init| :: init[j] == rs[j];
    }
  }

  lemma PointIsEarlier(s: State, id: nat)
    requires s.Has(id) && RollbackPoint(s, id).Some?
    ensures var to := RollbackPoint(s, id).value;
      s.Has(to) && to < id && s.Get(to).status == Succeeded && s.Get(to).project == s.Get(id).project
  {
    LastValidIff(s.releases[..id - 1], s.Get(id).project);
  }

  // ---------- workers and their files ----------

  /** A worker about to write a file is a deploy, and the file is its own. */
  lemma UpIsOwn(s: State, id: nat)
    requires id in s.workers && WorkerInv(s, id) && HasNext(s, id) && NextOf(s, id) == "up"
    ensures s.Get(id).kind == Deploy && FileOf(s.workers[id]).release == id && |s.workers[id].results| == 2
  {
    hide Valid, Deployed, ComposeDocument;
  }

  lemma StepWritesOwnFile(s: State, id: nat, e: Effect)
    requires s.Has(id) && HasNext(s, id) && WorkerInv(s, id)
    ensures forall other: nat | other != id :: SameFiles(s, Stepped(s, id, e), other)
    ensures NextOf(s, id) != "up" ==> Stepped(s, id, e).files == s.files
  {
    hide WorkerInv, ComposeDocument, StepReturns, RanRollback, Attempt, WorkPlan, ComposeId;
    if NextOf(s, id) == "up" { UpIsOwn(s, id); }
  }

  /** No action touches another release's record or file. */
  lemma OnlyOwnFiles(s: State, a: Action)
    requires Inv(s) && Enabled(s, a)
    ensures OthersKept(s, a, Step(s, a))
  {
    hide Valid, ReleaseInv, WorkerInv, FileInv, Merged, WorkPlan, BuildPlan, RollbackPoint, OnHost, ComposeId;
    if a.RunStep? { StepWritesOwnFile(s, a.id, a.effect); }
  }

  /** A final release is never worked on again. */
  lemma SubjectIsOpen(s: State, a: Action)
    requires Inv(s) && Enabled(s, a) && Subject(a).Some?
    ensures s.Has(a.id) && !Final(s.Get(a.id).status)
  {
    hide ReleaseInv, FileInv, NextStep;
    if !a.Start? { assert WorkerInv(s, a.id); }
  }

  /** Records stay the same project and kind, and an action that works on one marks it started. */
  lemma RecordsEvolve(s: State, a: Action, id: nat)
    requires Inv(s) && Enabled(s, a) && s.Has(id)
    ensures Step(s, a).Has(id)
    ensures Step(s, a).Get(id).project == s.Get(id).project && Step(s, a).Get(id).kind == s.Get(id).kind
    ensures s.Get(id).status != Requested ==> Step(s, a).Get(id).status != Requested
  {
    hide Valid, ReleaseInv, WorkerInv, FileInv, Merged, WorkPlan, BuildPlan, RollbackPoint, OnHost, HasNext, ComposeId;
  }

  lemma StepGrows(s: State, a: Action)
    requires Inv(s) && Enabled(s, a)
    ensures Grows(s, Step(s, a))
  {
    hide Step, Inv, SameFiles, Final, Enabled;
    OnlyOwnFiles(s, a);
    if Subject(a).Some? { SubjectIsOpen(s, a); }
    forall id: nat | s.Has(id)
      ensures Step(s, a).Get(id).project == s.Get(id).project && Step(s, a).Get(id).kind == s.Get(id).kind
      ensures s.Get(id).status != Requested ==> Step(s, a).Get(id).status != Requested
    {
      RecordsEvolve(s, a, id);
    }
    ProjectsKept(s, a);
  }

  lemma ProjectsKept(s: State, a: Action)
    requires Enabled(s, a)
    ensures forall n | n in s.projects :: n in Step(s, a).projects && Step(s, a).projects[n] == s.projects[n]
  {
    hide Valid, Merged, WorkPlan, BuildPlan, RollbackPoint, OnHost, ComposeId;
  }

  // ---------- the invariant, release by release ----------

  /** A record that did not change stays sound: its rollback target, plan and file are still there. */
  lemma ReleaseKept(s: State, s': State, id: nat)
    requires s.Has(id) && ReleaseInv(s, id) && Grows(s, s') && s'.Get(id) == s.Get(id)
    ensures ReleaseInv(s', id)
  {
    hide Valid, ComposeDocument;
  }

  lemma NewRelease(s: State, a: Action, id: nat)
    requires Inv(s) && Enabled(s, a) && Step(s, a).Has(id) && !s.Has(id)
    ensures ReleaseInv(Step(s, a), id)
    ensures Step(s, a).Get(id).status == Requested && id !in s.workers
  {
    hide Valid, ComposeDocument, BuildPlan, RollbackPoint, WorkPlan, OnHost, HasNext, FileInv, Proven;
    assert id in s.workers ==> WorkerInv(s, id);
    if a.AskRollback? && s.Has(a.release) && RollbackPoint(s, a.release).Some? {
      PointIsEarlier(s, a.release);
      assert ReleaseInv(s, a.release);
    }
  }

  /** All steps of a finished deploy succeeded exactly when the results are the complete list. */
  lemma CompleteIff(results: seq<StepResult>)
    requires Follows(DEPLOY_STEPS, results) && NextStep(DEPLOY_STEPS, results).None?
    ensures AllOk(results) <==> results == COMPLETE
  {
    if AllOk(results) {
      assert forall k | 0 <= k < 4 :: results[k] in results && results[k] == COMPLETE[k];
    }
  }

  lemma RolledBackIff(results: seq<StepResult>)
    requires Follows(ROLLBACK_STEPS, results) && NextStep(ROLLBACK_STEPS, results).None?
    ensures AllOk(results) <==> results == ROLLED_BACK
  {
    if AllOk(results) {
      assert forall k | 0 <= k < 2 :: results[k] in results && results[k] == ROLLED_BACK[k];
    }
  }

  /** A worker that raised leaves a sound record: failed, with an error note. */
  lemma BreaksSoundly(s: State, id: nat)
    requires s.Has(id) && ReleaseInv(s, id) && !Final(s.Get(id).status)
    ensures ReleaseInv(Broken(s, id), id)
  {
    hide PlanKept, GoesBack, Proven;
  }

  lemma PlanStaysKept(s: State, r: Release, s': State, r': Release)
    requires PlanKept(s, r) && s'.projects == s.projects && r'.result.plan == r.result.plan
    requires r'.project == r.project && r'.image == r.image && r'.version == r.version
    ensures PlanKept(s', r')
  {
  }

  /** What the worker of a deploy knows of its plan. */
  lemma WorkIsOwnPlan(s: State, id: nat)
    requires id in s.workers && WorkerInv(s, id) && ReleaseInv(s, id)
    requires s.Get(id).kind == Deploy && s.workers[id].Stepping?
    ensures var r, w := s.Get(id), s.workers[id];
      !r.result.error && PlanKept(s, r) && w.plan == r.result.plan.value && Follows(DEPLOY_STEPS, w.results) &&
      w.composeId == id && w.plan.target == Some(w.host)
  {
    hide Valid, Proven, Deployed, Follows;
  }

  lemma DeployFinishes(s: State, id: nat, digest: Option<string>)
    requires id in s.workers && WorkerInv(s, id) && ReleaseInv(s, id) && s.Get(id).kind == Deploy
    requires Enabled(s, Finish(id, digest))
    ensures ReleaseInv(Finished(s, id, digest), id)
    ensures Finished(s, id, digest).Get(id).status == Succeeded <==> s.workers[id].results == COMPLETE && digest.Some?
  {
    var s', r, w := Finished(s, id, digest), s.Get(id), s.workers[id];
    WorkIsOwnPlan(s, id);
    CompleteIff(w.results);
    if digest.None? {
      BreaksSoundly(s, id);
    } else {
      PlanStaysKept(s, r, s', s'.Get(id));
      if w.results == COMPLETE { DeployedByWorker(s, id); }
      hide Valid, PlanKept, Follows, NextStep, AllOk, WorkerInv, ReleaseInv, ComposeDocument;
      FinishedIsSound(s, id, digest);
    }
  }

  lemma DeployedByWorker(s: State, id: nat)
    requires id in s.workers && WorkerInv(s, id) && s.workers[id].Stepping? && s.Get(id).kind == Deploy
    requires s.workers[id].results == COMPLETE
    ensures Deployed(s, id, s.workers[id].plan)
  {
    hide Deployed, Valid, Follows, WorkPlan;
  }

  lemma FinishedIsSound(s: State, id: nat, digest: Option<string>)
    requires id in s.workers && s.Has(id) && s.workers[id].Stepping? && s.Get(id).kind == Deploy && digest.Some?
    requires s.Get(id).project in s.projects && !s.Get(id).result.error && PlanKept(s, s.Get(id))
    requires s.workers[id].plan == s.Get(id).result.plan.value
    requires AllOk(s.workers[id].results) <==> s.workers[id].results == COMPLETE
    requires s.workers[id].results == COMPLETE ==> Deployed(s, id, s.workers[id].plan)
    ensures ReleaseInv(Finished(s, id, digest), id)
  {
    var s' := Finished(s, id, digest);
    PlanStaysKept(s, s.Get(id), s', s'.Get(id));
    hide Valid, PlanKept, AllOk, ComposeDocument;
  }

  lemma RollbackFinishes(s: State, id: nat, digest: Option<string>)
    requires id in s.workers && WorkerInv(s, id) && ReleaseInv(s, id) && s.Get(id).kind == Rollback
    requires Enabled(s, Finish(id, digest))
    ensures ReleaseInv(Finished(s, id, digest), id)
    ensures Finished(s, id, digest).Get(id).status == RollbackSucceeded <==> s.workers[id].results == ROLLED_BACK
  {
    var s', r := Finished(s, id, digest), s.Get(id);
    RolledBackIff(s.workers[id].results);
    assert !r.result.error && GoesBack(s, r) && r.result.rollbackOf.value < id && s.Get(id).status == Running by {
      hide Valid, AllOk, Follows, Enabled, GoesBack, Deployed, WorkPlan;
    }
    hide Valid, WorkerInv, AllOk, Follows;
    GoesBackKept(s, r, s', s'.Get(id), id);
    hide GoesBack, HasNext;
  }

  lemma GoesBackKept(s: State, r: Release, s': State, r': Release, id: nat)
    requires GoesBack(s, r) && s.Has(id) && s.Get(id).status == Running && s'.releases == s.releases[id - 1 := r']
    requires s.Get(id) == r && r'.project == r.project && r'.image == r.image && r'.version == r.version
    requires r'.gitRef == r.gitRef
    requires (r'.result.rollbackTo, r'.result.rollbackOf, r'.result.plan)
             == (r.result.rollbackTo, r.result.rollbackOf, r.result.plan)
    ensures GoesBack(s', r')
  {
  }

  lemma StartsSoundly(s: State, id: nat)
    requires s.Has(id) && ReleaseInv(s, id) && s.Get(id).status == Requested
    ensures ReleaseInv(Started(s, id), id)
  {
    hide Valid, ComposeDocument, Deployed;
  }

  lemma ConnectKeeps(s: State, id: nat, resolvable: bool)
    requires s.Has(id) && ReleaseInv(s, id) && !Final(s.Get(id).status)
    ensures ReleaseInv(Connected(s, id, resolvable), id)
  {
    BreaksSoundly(s, id);
    hide Valid, ComposeDocument, WorkPlan;
  }

  lemma SubjectRelease(s: State, a: Action, id: nat)
    requires Inv(s) && Enabled(s, a) && Subject(a) == Some(id) && Step(s, a).Has(id)
    ensures ReleaseInv(Step(s, a), id)
  {
    SubjectIsOpen(s, a);
    assert ReleaseInv(s, id);
    assert id in s.workers ==> WorkerInv(s, id);
    hide ReleaseInv, WorkerInv;
    match a
    case Start(_) => assert s.Get(id).status == Requested; StartsSoundly(s, id);
    case Connect(_, resolvable) => ConnectKeeps(s, id, resolvable);
    case RunStep(_, e) => StepGrows(s, a); ReleaseKept(s, Step(s, a), id);
    case Finish(_, digest) =>
      if s.Get(id).kind == Deploy { DeployFinishes(s, id, digest); } else { RollbackFinishes(s, id, digest); }
  }

  lemma ReleasesStep(s: State, a: Action, id: nat)
    requires Inv(s) && Enabled(s, a) && Step(s, a).Has(id)
    ensures ReleaseInv(Step(s, a), id)
  {
    hide ReleaseInv, SameFiles;
    if !s.Has(id) {
      NewRelease(s, a, id);
    } else if Subject(a) == Some(id) {
      SubjectRelease(s, a, id);
    } else {
      OnlyOwnFiles(s, a);
      StepGrows(s, a);
      assert ReleaseInv(s, id);
      ReleaseKept(s, Step(s, a), id);
    }
  }

  // ---------- the invariant, worker by worker ----------

  /** A worker whose release did not change keeps its plan, its host and its file. */
  lemma WorkerKept(s: State, s': State, id: nat)
    requires id in s.workers && WorkerInv(s, id) && ReleaseInv(s, id)
    requires id in s'.workers && s'.workers[id] == s.workers[id] && s'.Has(id) && s'.Get(id) == s.Get(id)
    requires id !in s'.pending && SameFiles(s, s', id) && Grows(s, s')
    ensures WorkerInv(s', id)
  {
    hide Valid, ComposeDocument, Follows, GoesBack, Proven;
  }

  lemma WorkerConnects(s: State, id: nat, resolvable: bool)
    requires Inv(s) && Enabled(s, Connect(id, resolvable)) && id in Connected(s, id, resolvable).workers
    ensures WorkerInv(Connected(s, id, resolvable), id)
  {
    assert WorkerInv(s, id) && ReleaseInv(s, id);
    hide Valid, ComposeDocument, FileInv, Inv, Proven;
  }

  /** The file of a deploy is in place once its `up` returned, and stays so. */
  lemma WorkerDeployed(s: State, id: nat, e: Effect)
    requires s.Has(id) && HasNext(s, id) && WorkerInv(s, id) && ReleaseInv(s, id) && s.Get(id).kind == Deploy
    ensures var s' := Stepped(s, id, e);
      |s'.workers[id].results| >= 3 && s'.workers[id].results[2].ok ==> Deployed(s', id, s'.workers[id].plan)
  {
    hide Valid, ComposeDocument, Proven;
    StepWritesOwnFile(s, id, e);
  }

  lemma WorkerAdvances(s: State, id: nat, e: Effect)
    requires s.Has(id) && HasNext(s, id) && WorkerInv(s, id) && ReleaseInv(s, id)
    ensures WorkerInv(Stepped(s, id, e), id)
  {
    hide Valid, Deployed, OnHost, StepReturns, Follows, ReleaseInv;
    var w := s.workers[id];
    FollowsStep(w.plan.steps, w.results, Attempt(NextOf(s, id), StepReturns(s, w, NextOf(s, id), e)).ok);
    if s.Get(id).kind == Deploy { WorkerDeployed(s, id, e); }
  }

  lemma OtherWorkersKept(s: State, a: Action, id: nat)
    requires Inv(s) && Enabled(s, a) && id in Step(s, a).workers && Subject(a) != Some(id)
    ensures id in s.workers && Step(s, a).workers[id] == s.workers[id] && id !in Step(s, a).pending
  {
    hide ReleaseInv, FileInv, BuildPlan, RollbackPoint, WorkPlan, OnHost, Valid, Merged, ComposeId, StepReturns;
    assert id in s.workers ==> WorkerInv(s, id);
  }

  lemma WorkersStep(s: State, a: Action, id: nat)
    requires Inv(s) && Enabled(s, a) && id in Step(s, a).workers
    ensures WorkerInv(Step(s, a), id)
  {
    if Subject(a) != Some(id) {
      OtherWorkersKept(s, a, id);
      assert WorkerInv(s, id);
      assert ReleaseInv(s, id);
      OnlyOwnFiles(s, a);
      StepGrows(s, a);
      hide Step, Inv, WorkerInv, ReleaseInv, Grows, SameFiles;
      WorkerKept(s, Step(s, a), id);
    } else {
      SubjectWorker(s, a);
    }
  }

  lemma SubjectWorker(s: State, a: Action)
    requires Inv(s) && Enabled(s, a) && Subject(a).Some? && a.id in Step(s, a).workers
    ensures WorkerInv(Step(s, a), a.id)
  {
    hide Connected, Stepped, ReleaseInv, FileInv, Valid, WorkPlan, Deployed;
    assert ReleaseInv(s, a.id) && (a.id in s.workers ==> WorkerInv(s, a.id));
    match a
    case Start(id) =>
    case Connect(id, resolvable) => WorkerConnects(s, id, resolvable);
    case RunStep(id, e) => WorkerAdvances(s, id, e);
    case Finish(id, digest) =>
  }

  // ---------- the invariant, file by file ----------

  lemma FileKept(s: State, s': State, f: File)
    requires FileInv(s, f) && Grows(s, s')
    ensures FileInv(s', f)
  {
    hide SameFiles;
  }

  lemma UpFile(s: State, id: nat, e: Effect, f: File)
    requires s.Has(id) && HasNext(s, id) && WorkerInv(s, id) && ReleaseInv(s, id)
    requires f in Stepped(s, id, e).files && f !in s.files
    ensures FileInv(s, f)
  {
    hide Valid, ComposeDocument, Proven, Deployed, Follows;
    StepWritesOwnFile(s, id, e);
    UpIsOwn(s, id);
  }

  lemma NewFile(s: State, a: Action, f: File)
    requires Inv(s) && Enabled(s, a) && f in Step(s, a).files && f !in s.files
    ensures FileInv(s, f)
  {
    hide Valid, BuildPlan, RollbackPoint, Merged, Stepped, FileInv, ReleaseInv, WorkerInv, WorkPlan;
    assert a.RunStep?;
    UpFile(s, a.id, a.effect, f);
  }

  lemma PendingStep(s: State, a: Action)
    requires Inv(s) && Enabled(s, a)
    ensures PendingInv(Step(s, a))
  {
    hide ReleaseInv, FileInv, WorkerInv, BuildPlan, RollbackPoint, WorkPlan, OnHost, Valid, Merged, ComposeId,
      StepReturns;
    if Subject(a).Some? && !a.Start? { assert a.id in s.workers && WorkerInv(s, a.id); PendingIsNotWorked(s, a.id); }
  }

  lemma PendingIsNotWorked(s: State, id: nat)
    requires id in s.workers && WorkerInv(s, id)
    ensures id !in s.pending
  {
  }

  lemma InvStep(s: State, a: Action)
    requires Inv(s) && Enabled(s, a)
    ensures Inv(Step(s, a))
  {
    var s' := Step(s, a);
    forall id: nat | s'.Has(id) ensures ReleaseInv(s', id) { ReleasesStep(s, a, id); }
    forall id | id in s'.workers ensures WorkerInv(s', id) { WorkersStep(s, a, id); }
    StepGrows(s, a);
    forall f | f in s'.files ensures FileInv(s', f) {
      if f !in s.files { NewFile(s, a, f); }
      assert FileInv(s, f);
      FileKept(s, s', f);
    }
    PendingStep(s, a);
    hide Step, ReleaseInv, WorkerInv, FileInv, PendingInv;
  }

  lemma {:induction false} RunKeepsInv(s: State, acts: seq<Action>)
    requires Inv(s) && Runs(s, acts)
    ensures Inv(After(s, acts))
    decreases |acts|
  {
    if acts != [] {
      InvStep(s, acts[0]);
      RunKeepsInv(Step(s, acts[0]), acts[1..]);
    }
  }

  /** Every reachable state ties the release table, the workers and the remote files together. */
  lemma ReachableInv(acts: seq<Action>)
    requires Runs(INIT, acts)
    ensures Inv(After(INIT, acts))
  {
    RunKeepsInv(INIT, acts);
  }
}

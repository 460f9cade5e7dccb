/** What deploys and rollbacks promise, proved of every run. */
module DeployTheorems {
  import opened Options
  import opened DeployPlans
  import opened DeployProtocol
  import opened DeploySafety

  // ---------- runs ----------

  lemma GrowsTransitive(s: State, t: State, u: State)
    requires Grows(s, t) && Grows(t, u)
    ensures Grows(s, u)
  {
    forall id: nat | s.Has(id) && Final(s.Get(id).status)
      ensures u.Get(id) == s.Get(id) && SameFiles(s, u, id)
    {
      assert t.Get(id) == s.Get(id) && SameFiles(s, t, id);
      assert u.Get(id) == t.Get(id) && SameFiles(t, u, id);
    }
  }

  /** A release whose status is final is final: its record and its file never change again. */
  lemma {:induction false} RunGrows(s: State, acts: seq<Action>)
    requires Inv(s) && Runs(s, acts)
    ensures Grows(s, After(s, acts))
    decreases |acts|
  {
    hide Inv, Grows;
    if acts == [] {
      GrowsFromItself(s);
    } else {
      StepGrows(s, acts[0]);
      InvStep(s, acts[0]);
      RunGrows(Step(s, acts[0]), acts[1..]);
      GrowsTransitive(s, Step(s, acts[0]), After(s, acts));
    }
  }

  lemma GrowsFromItself(s: State)
    ensures Grows(s, s)
  {
  }

  // ---------- succeeded releases and their files ----------

  /** In every reachable state a succeeded release has run its four steps, and its own file on its
      own host holds the document of the plan stored when it was asked for. */
  lemma SucceededHasItsFile(acts: seq<Action>, id: nat)
    requires Runs(INIT, acts) && After(INIT, acts).Has(id) && After(INIT, acts).Get(id).status == Succeeded
    ensures Proven(After(INIT, acts), id, After(INIT, acts).Get(id))
  {
    ReachableInv(acts);
    assert ReleaseInv(After(INIT, acts), id);
    hide Runs, After, Inv, Proven;
  }

  /** A file changes only when the deploy it is named after runs `up`. */
  lemma WrittenOnlyByOwnUp(s: State, a: Action, f: File)
    requires Inv(s) && Enabled(s, a)
    requires (f in Step(s, a).files) != (f in s.files) || (f in s.files && Step(s, a).files[f] != s.files[f])
    ensures a.RunStep? && a.id == f.release && NextOf(s, a.id) == "up" && s.Get(a.id).kind == Deploy
  {
    hide Valid, ReleaseInv, WorkerInv, FileInv, Merged, WorkPlan, BuildPlan, RollbackPoint, OnHost, ComposeId;
    assert a.RunStep?;
    assert WorkerInv(s, a.id);
    StepWritesOwnFile(s, a.id, a.effect);
    assert f.release != a.id ==> SameFiles(s, Step(s, a), f.release);
    if NextOf(s, a.id) == "up" { UpIsOwn(s, a.id); }
  }

  /** The final commit of a deploy says succeeded exactly when pull, build, up and healthcheck all
      returned, in that order, and the image digest was obtained. */
  lemma SucceedsIffAllStepsRan(acts: seq<Action>, id: nat, digest: Option<string>)
    requires Runs(INIT, acts) && Enabled(After(INIT, acts), Finish(id, digest))
    requires After(INIT, acts).Get(id).kind == Deploy
    ensures var s := After(INIT, acts);
      Finished(s, id, digest).Get(id).status == Succeeded <==> s.workers[id].results == COMPLETE && digest.Some?
  {
    var s := After(INIT, acts);
    ReachableInv(acts);
    assert WorkerInv(s, id) && ReleaseInv(s, id);
    hide Runs, After, Inv, WorkerInv, ReleaseInv, Follows, AllOk;
    DeployFinishes(s, id, digest);
  }

  /** Whatever else ran between its steps, a worker's results are one fail-fast run of its plan. */
  lemma WorkerRunsItsPlan(acts: seq<Action>, id: nat, digest: Option<string>)
    requires Runs(INIT, acts) && Enabled(After(INIT, acts), Finish(id, digest))
    ensures var w := After(INIT, acts).workers[id];
      w.results == RunSteps(w.plan, AnswersOf(w.results))
  {
    var s := After(INIT, acts);
    ReachableInv(acts);
    assert WorkerInv(s, id) && ReleaseInv(s, id);
    hide Runs, After, Inv, ReleaseInv, Valid, Follows, RunSteps;
    CollectedResultsAreARun(s.workers[id].plan, s.workers[id].results);
  }

  /** The plan made at creation is the plan the worker runs and the plan in the final evidence. */
  lemma PlanSurvives(acts: seq<Action>, id: nat, digest: Option<string>)
    requires Runs(INIT, acts) && Enabled(After(INIT, acts), Finish(id, digest)) && digest.Some?
    requires After(INIT, acts).Get(id).kind == Deploy
    ensures var s := After(INIT, acts);
      PlanKept(s, s.Get(id)) && s.Get(id).result.plan == Some(s.workers[id].plan) &&
      Finished(s, id, digest).Get(id).result.plan == Some(s.workers[id].plan)
  {
    var s := After(INIT, acts);
    ReachableInv(acts);
    assert WorkerInv(s, id) && ReleaseInv(s, id);
    hide Runs, After, Inv, WorkerInv, ReleaseInv, PlanKept, Follows, AllOk;
    WorkIsOwnPlan(s, id);
  }

  // ---------- rollbacks ----------

  /** Release `k` is a succeeded release of the project. */
  predicate IsPoint(s: State, project: nat, k: nat) {
    s.Has(k) && s.Get(k).project == project && s.Get(k).status == Succeeded
  }

  lemma PointIsLatest(s: State, release: nat)
    requires s.Has(release)
    ensures var to := RollbackPoint(s, release); var project := s.Get(release).project;
      if to.None? then forall k: nat | k < release :: !IsPoint(s, project, k)
      else
        to.value < release && IsPoint(s, project, to.value) &&
        (forall k: nat | to.value < k < release :: !IsPoint(s, project, k))
  {
    LastValidIff(s.releases[..release - 1], s.Get(release).project);
    assert forall k: nat | s.Has(k) && k < release :: s.releases[..release - 1][k - 1] == s.Get(k);
  }

  /** A rollback that is created names the latest succeeded release below the one rolled back, with
      its image and version; it is refused exactly when the project has none. */
  lemma RollbackTakesLatest(acts: seq<Action>, release: nat)
    requires Runs(INIT, acts) && After(INIT, acts).Has(release)
    ensures var s := After(INIT, acts); var s' := RollbackAsked(s, release); var project := s.Get(release).project;
      if forall k: nat | k < release :: !IsPoint(s, project, k) then s' == s
      else
        |s'.releases| == |s.releases| + 1 &&
        var r := s'.releases[|s.releases|];
        r.kind == Rollback && r.project == project && GoesBack(s', r) && r.result.rollbackOf == Some(release) &&
        s.Has(r.result.rollbackTo.value) && s.Get(r.result.rollbackTo.value).kind == Deploy &&
        (forall k: nat | r.result.rollbackTo.value < k < release :: !IsPoint(s, project, k))
  {
    hide Runs, After, Inv, RollbackPoint, RollbackAsked, GoesBack;
    var s := After(INIT, acts);
    ReachableInv(acts);
    PointIsLatest(s, release);
    AskedGoesBack(s, release);
    if RollbackPoint(s, release).Some? { PointIsDeploy(s, RollbackPoint(s, release).value); }
  }

  /** The record made for a rollback, once its point is known. */
  lemma AskedGoesBack(s: State, release: nat)
    requires s.Has(release)
    requires var to := RollbackPoint(s, release);
      to.Some? ==> to.value < release && IsPoint(s, s.Get(release).project, to.value)
    ensures var to := RollbackPoint(s, release); var s' := RollbackAsked(s, release);
      if to.None? then s' == s
      else
        |s'.releases| == |s.releases| + 1 &&
        var r := s'.releases[|s.releases|];
        r.kind == Rollback && r.project == s.Get(release).project && GoesBack(s', r) &&
        r.result.rollbackTo == to && r.result.rollbackOf == Some(release)
  {
    hide RollbackPoint;
  }

  lemma PointIsDeploy(s: State, k: nat)
    requires Inv(s) && s.Has(k) && s.Get(k).status == Succeeded
    ensures s.Get(k).kind == Deploy
  {
    assert ReleaseInv(s, k);
    hide PlanKept, GoesBack, Deployed;
  }

  /** Failed releases and rollbacks never become rollback points: only deploys succeed. */
  lemma OnlyDeploysSucceed(acts: seq<Action>, id: nat)
    requires Runs(INIT, acts) && After(INIT, acts).Has(id)
    ensures After(INIT, acts).Get(id).kind == Rollback ==> After(INIT, acts).Get(id).status != Succeeded
    ensures forall more: seq<Action> | Runs(After(INIT, acts), more) && After(INIT, acts).Get(id).status == Failed ::
              After(After(INIT, acts), more).Has(id) && After(After(INIT, acts), more).Get(id).status == Failed
  {
    var s := After(INIT, acts);
    ReachableInv(acts);
    assert ReleaseInv(s, id);
    forall more: seq<Action> | Runs(s, more) && s.Get(id).status == Failed
      ensures s.Has(id) && After(s, more).Has(id) && After(s, more).Get(id).status == Failed
    {
      RunGrows(s, more);
    }
  }

  /** The release a rollback goes back to. */
  function TargetPlan(s: State, id: nat): Plan
    requires s.Has(id) && s.Get(id).result.rollbackTo.Some? && s.Has(s.Get(id).result.rollbackTo.value)
    requires s.Get(s.Get(id).result.rollbackTo.value).result.plan.Some?
  {
    s.Get(s.Get(id).result.rollbackTo.value).result.plan.value
  }

  /** What a connected rollback worker finds: the target's own document, on the host it talks to. */
  ghost predicate TargetReady(s: State, id: nat)
    requires s.Has(id) && id in s.workers && s.workers[id].Stepping?
  {
    var r, w := s.Get(id), s.workers[id];
    GoesBack(s, r) && var target := s.Get(r.result.rollbackTo.value);
    target.result.plan.Some? && Valid(target.result.plan.value) &&
    FileOf(w) == File(w.host, r.project, r.result.rollbackTo.value) && FileOf(w) in s.files &&
    s.files[FileOf(w)] == ComposeDocument(target.result.plan.value) &&
    w.plan.steps == ROLLBACK_STEPS && w.plan.image == target.image && w.plan.version == target.version
  }

  lemma RollbackReady(s: State, id: nat)
    requires Inv(s) && id in s.workers && s.workers[id].Stepping? && s.Has(id) && s.Get(id).kind == Rollback
    ensures TargetReady(s, id)
  {
    var r := s.Get(id);
    assert WorkerInv(s, id) && ReleaseInv(s, id);
    assert GoesBack(s, r);
    var to := r.result.rollbackTo.value;
    assert ReleaseInv(s, to);
    hide Inv, Follows, ComposeDocument;
  }

  /** `test -f` cannot fail: in every reachable state the rollback step fails only if its command does. */
  lemma RollbackFindsItsFile(acts: seq<Action>, id: nat, step: string, e: Effect)
    requires Runs(INIT, acts)
    requires var s := After(INIT, acts);
      s.Has(id) && id in s.workers && s.workers[id].Stepping? && s.Get(id).kind == Rollback
    requires step in ROLLBACK_STEPS
    ensures TargetReady(After(INIT, acts), id)
    ensures StepReturns(After(INIT, acts), After(INIT, acts).workers[id], step, e) == e.ok
  {
    ReachableInv(acts);
    hide Runs, After, Inv, Valid, GoesBack;
    RollbackReady(After(INIT, acts), id);
  }

  /** A rollback step that returns brings up the target's own document: its image, its version and
      the port it was deployed with. */
  lemma RollbackRestoresTarget(acts: seq<Action>, id: nat, e: Effect)
    requires Runs(INIT, acts)
    requires var s := After(INIT, acts);
      s.Has(id) && HasNext(s, id) && NextOf(s, id) == "rollback" && s.Get(id).kind == Rollback && e.ok
    ensures var s := After(INIT, acts); var w := s.workers[id];
      TargetReady(s, id) && var p := TargetPlan(s, id);
      StackOf(w) in Stepped(s, id, e).active &&
      Stepped(s, id, e).active[StackOf(w)] == ComposeDocument(p) &&
      Parse(Stepped(s, id, e).active[StackOf(w)]) == Some(Service(s.Get(id).image, s.Get(id).version, p.port))
  {
    var s := After(INIT, acts);
    ReachableInv(acts);
    RollbackReady(s, id);
    assert ReleaseInv(s, s.Get(id).result.rollbackTo.value);
    hide Runs, After, Inv, Valid, ComposeDocument, Parse;
    ValidNamesParse(TargetPlan(s, id));
  }

  /** The port in a rollback's own plan is not what is deployed, unless the target used it too. */
  lemma RollbackPlanIsNotTheDocument(acts: seq<Action>, id: nat)
    requires Runs(INIT, acts)
    requires var s := After(INIT, acts);
      s.Has(id) && id in s.workers && s.workers[id].Stepping? && s.Get(id).kind == Rollback
    ensures var s := After(INIT, acts);
      TargetReady(s, id) &&
      (ComposeDocument(s.workers[id].plan) == s.files[FileOf(s.workers[id])] <==> TargetPlan(s, id).port == 8080)
  {
    hide Runs, After, Inv, Valid, ComposeDocument, Follows;
    var s := After(INIT, acts);
    ReachableInv(acts);
    RollbackReady(s, id);
    RollbackWorker(s, id);
    DocumentDeterminesPlan(s.workers[id].plan, TargetPlan(s, id));
  }

  lemma RollbackWorker(s: State, id: nat)
    requires Inv(s) && id in s.workers && s.workers[id].Stepping? && s.Has(id) && s.Get(id).kind == Rollback
    requires TargetReady(s, id)
    ensures Valid(s.workers[id].plan) && s.workers[id].plan.port == 8080
    ensures var p, r := TargetPlan(s, id), s.Get(s.Get(id).result.rollbackTo.value);
      p.image == r.image && p.version == r.version
  {
    hide Valid, ComposeDocument, Follows;
    assert WorkerInv(s, id);
    assert ReleaseInv(s, s.Get(id).result.rollbackTo.value);
  }

  // ---------- what is active ----------

  /** The action may bring a stack up. */
  predicate Touches(s: State, a: Action, stack: Stack)
    requires Enabled(s, a)
  {
    a.RunStep? && NextOf(s, a.id) in ["up", "rollback"] && StackOf(s.workers[a.id]) == stack
  }

  predicate NoneTouches(s: State, acts: seq<Action>, stack: Stack)
    requires Runs(s, acts)
    decreases |acts|
  {
    acts == [] || (!Touches(s, acts[0], stack) && NoneTouches(Step(s, acts[0]), acts[1..], stack))
  }

  /** What a stack runs stays until another `up` or `rollback` on it. */
  lemma {:induction false} ActiveStays(s: State, acts: seq<Action>, stack: Stack)
    requires Runs(s, acts) && NoneTouches(s, acts, stack)
    ensures stack in After(s, acts).active <==> stack in s.active
    ensures stack in s.active ==> After(s, acts).active[stack] == s.active[stack]
    decreases |acts|
  {
    if acts != [] {
      UntouchedStays(s, acts[0], stack);
      ActiveStays(Step(s, acts[0]), acts[1..], stack);
    }
  }

  lemma UntouchedStays(s: State, a: Action, stack: Stack)
    requires Enabled(s, a) && !Touches(s, a, stack)
    ensures stack in Step(s, a).active <==> stack in s.active
    ensures stack in s.active ==> Step(s, a).active[stack] == s.active[stack]
  {
    hide Valid, Merged, WorkPlan, BuildPlan, RollbackPoint, ComposeDocument, StepReturns, HasNext;
  }

  lemma RunsOn(s: State, a: Action, rest: seq<Action>)
    requires Enabled(s, a) && Runs(Step(s, a), rest)
    ensures Runs(s, [a] + rest) && After(s, [a] + rest) == After(Step(s, a), rest)
  {
    assert ([a] + rest)[1..] == rest;
  }

  /** The rollback ended well and its target's document is what the stack runs. */
  predicate RolledBack(s: State, id: nat, stack: Stack, document: string) {
    s.Has(id) && s.Get(id).status == RollbackSucceeded && stack in s.active && s.active[stack] == document
  }

  lemma LastPhase(s: State, id: nat)
    requires s.Has(id) && id in s.workers && s.workers[id].Stepping? && s.Get(id).kind == Rollback
    requires s.workers[id].plan.steps == ROLLBACK_STEPS
    requires s.workers[id].results == [StepResult("rollback", true), StepResult("healthcheck", true)]
    requires StackOf(s.workers[id]) in s.active
    ensures Runs(s, [Finish(id, None)])
    ensures var stack := StackOf(s.workers[id]);
      RolledBack(After(s, [Finish(id, None)]), id, stack, s.active[stack])
  {
    RunsOn(s, Finish(id, None), []);
  }

  lemma HealthPhase(s: State, id: nat, e: Effect)
    requires s.Has(id) && id in s.workers && s.workers[id].Stepping? && s.Get(id).kind == Rollback
    requires s.workers[id].plan.steps == ROLLBACK_STEPS && s.workers[id].results == [StepResult("rollback", true)]
    requires StackOf(s.workers[id]) in s.active && FileOf(s.workers[id]) in s.files && e.ok
    ensures Runs(s, [RunStep(id, e), Finish(id, None)])
    ensures var stack := StackOf(s.workers[id]);
      RolledBack(After(s, [RunStep(id, e), Finish(id, None)]), id, stack, s.active[stack])
  {
    var s' := Stepped(s, id, e);
    assert NextOf(s, id) == "healthcheck";
    LastPhase(s', id);
    RunsOn(s, RunStep(id, e), [Finish(id, None)]);
  }

  lemma RollbackPhase(s: State, id: nat, first: Effect, second: Effect)
    requires s.Has(id) && id in s.workers && s.workers[id].Stepping? && s.Get(id).kind == Rollback
    requires s.workers[id].plan.steps == ROLLBACK_STEPS && s.workers[id].results == []
    requires FileOf(s.workers[id]) in s.files && first.ok && second.ok
    ensures Runs(s, [RunStep(id, first), RunStep(id, second), Finish(id, None)])
    ensures RolledBack(After(s, [RunStep(id, first), RunStep(id, second), Finish(id, None)]), id,
                       StackOf(s.workers[id]), s.files[FileOf(s.workers[id])])
  {
    var s' := Stepped(s, id, first);
    assert NextOf(s, id) == "rollback";
    HealthPhase(s', id, second);
    RunsOn(s, RunStep(id, first), [RunStep(id, second), Finish(id, None)]);
  }

  /** The worker of a rollback, from taking its task to its final commit. */
  function RollbackActions(id: nat, first: Effect, second: Effect): seq<Action> {
    [Start(id)] + ([Connect(id, true)] + [RunStep(id, first), RunStep(id, second), Finish(id, None)])
  }

  /** A requested rollback has a valid plan, for the host its target was deployed to. */
  lemma RequestedGoesBack(s: State, id: nat)
    requires Inv(s) && id in s.pending && s.Has(id) && s.Get(id).kind == Rollback
    ensures GoesBack(s, s.Get(id)) && s.Get(s.Get(id).result.rollbackTo.value).result.plan.Some?
    ensures var p := TargetPlan(s, id);
      p.target.Some? && TargetOf(s, s.Get(id).project) == p.target &&
      Valid(RollbackPlan(s.Get(id), p.target)) && s.Get(id).result.rollbackTo.value < id
  {
    assert ReleaseInv(s, id);
    assert GoesBack(s, s.Get(id));
    assert ReleaseInv(s, s.Get(id).result.rollbackTo.value);
    hide Inv, ComposeDocument, Follows;
  }

  /** A worker of a rollback that is about to bring up `document` on `stack`. */
  predicate AboutTo(s: State, id: nat, stack: Stack, document: string) {
    s.Has(id) && id in s.workers && s.workers[id].Stepping? && s.Get(id).kind == Rollback &&
    s.workers[id].plan.steps == ROLLBACK_STEPS && s.workers[id].results == [] &&
    FileOf(s.workers[id]) in s.files && s.files[FileOf(s.workers[id])] == document && StackOf(s.workers[id]) == stack
  }

  lemma ConnectsToHost(s: State, id: nat, host: nat)
    requires s.Has(id) && s.Get(id).kind == Rollback && TargetOf(s, s.Get(id).project) == Some(host)
    requires Valid(RollbackPlan(s.Get(id), Some(host)))
    ensures var s' := Connected(Started(s, id), id, true);
      s'.workers ==
        s.workers[id := Stepping(RollbackPlan(s.Get(id), Some(host)), host, ComposeId(id, s.Get(id)), [])] &&
      s'.Has(id) && s'.Get(id) == s.Get(id).(status := Running) &&
      (forall k: nat | s.Has(k) && k != id :: s'.Has(k) && s'.Get(k) == s.Get(k))
  {
    hide Valid;
    assert Started(s, id).Get(id) == s.Get(id).(status := Running);
  }

  lemma ConnectedInv(s: State, id: nat)
    requires Inv(s) && id in s.pending && s.Has(id)
    ensures Inv(Connected(Started(s, id), id, true))
  {
    hide Inv, Connected;
    InvStep(s, Start(id));
    InvStep(Started(s, id), Connect(id, true));
  }

  lemma ConnectedIsReady(s: State, id: nat)
    requires Inv(s) && id in s.pending && s.Has(id) && s.Get(id).kind == Rollback
    requires id in Connected(Started(s, id), id, true).workers
             && Connected(Started(s, id), id, true).workers[id].Stepping?
    ensures var s' := Connected(Started(s, id), id, true);
      s'.Has(id) && s'.Get(id).kind == Rollback && TargetReady(s', id)
  {
    hide Inv, TargetReady, WorkPlan, Valid;
    ConnectedInv(s, id);
    RollbackReady(Connected(Started(s, id), id, true), id);
  }

  lemma ConnectedRollback(s: State, id: nat)
    requires Inv(s) && id in s.pending && s.Has(id) && s.Get(id).kind == Rollback
    ensures GoesBack(s, s.Get(id)) && s.Get(s.Get(id).result.rollbackTo.value).result.plan.Some?
    ensures var p := TargetPlan(s, id);
      p.target.Some? && AboutTo(Connected(Started(s, id), id, true), id,
                                Stack(p.target.value, s.Get(id).project), ComposeDocument(p))
  {
    hide Inv, ComposeDocument, Valid, Connected, Started;
    RequestedGoesBack(s, id);
    ConnectsToHost(s, id, TargetPlan(s, id).target.value);
    ConnectedIsReady(s, id);
  }

  /** A requested rollback on a reachable host whose two commands succeed runs to completion,
      ends `rollback_succeeded`, and leaves the target's original document active. */
  lemma UninterruptedRollback(s: State, id: nat, first: Effect, second: Effect)
    requires Inv(s) && id in s.pending && s.Has(id) && s.Get(id).kind == Rollback && first.ok && second.ok
    ensures GoesBack(s, s.Get(id)) && s.Get(s.Get(id).result.rollbackTo.value).result.plan.Some?
    ensures var p := TargetPlan(s, id);
      p.target.Some? && Runs(s, RollbackActions(id, first, second)) &&
      RolledBack(After(s, RollbackActions(id, first, second)), id, Stack(p.target.value, s.Get(id).project),
                 ComposeDocument(p))
  {
    ConnectedRollback(s, id);
    hide Inv, Connected, Runs, After, ComposeDocument, GoesBack, RolledBack;
    var s1 := Started(s, id);
    var s2 := Connected(s1, id, true);
    RollbackPhase(s2, id, first, second);
    var rest := [RunStep(id, first), RunStep(id, second), Finish(id, None)];
    RunsOn(s1, Connect(id, true), rest);
    RunsOn(s, Start(id), [Connect(id, true)] + rest);
  }
}

/** What a stack runs when a deploy says it succeeded: the health check asks for the project's
    container, not for the release's, so another deploy or rollback can stand in for it. */
module DeployActive {
  import opened Options
  import opened DeployPlans
  import opened DeployProtocol
  import opened DeploySafety
  import opened DeployTheorems

  /** What a stack is brought up with: the document of a plan, or whatever text a failed `up` left. */
  datatype Use = Clean(plan: Plan) | Torn(text: string)

  function TextOf(u: Use): string {
    match u
    case Clean(p) => ComposeDocument(p)
    case Torn(text) => text
  }

  /** The same image, version and port as the plan; torn text has to be its whole document. */
  predicate SameService(u: Use, p: Plan) {
    match u
    case Clean(q) => (q.image, q.version, q.port) == (p.image, p.version, p.port)
    case Torn(text) => text == ComposeDocument(p)
  }

  predicate HasTarget(s: State, id: nat) {
    s.Has(id) && s.Get(id).result.rollbackTo.Some? && s.Has(s.Get(id).result.rollbackTo.value) &&
    s.Get(s.Get(id).result.rollbackTo.value).result.plan.Some?
  }

  /** What an action brings the stack up with, if it does: an `up` its own plan, a rollback its target's. */
  function UseOn(s: State, a: Action, stack: Stack): Option<Use>
    requires Enabled(s, a)
  {
    if !Touches(s, a, stack) then None
    else
      var w, e := s.workers[a.id], a.effect;
      if NextOf(s, a.id) == "up" then
        if e.ok then Some(Clean(w.plan))
        else if e.activated && e.left.Some? then Some(Torn(e.left.value))
        else if e.activated && FileOf(w) in s.files then Some(Torn(s.files[FileOf(w)]))
        else None
      else if (e.ok || e.activated) && HasTarget(s, a.id) then Some(Clean(TargetPlan(s, a.id)))
      else None
  }

  /** The last thing a run brings the stack up with, if it does at all. */
  function LastUse(s: State, acts: seq<Action>, stack: Stack): Option<Use>
    requires Runs(s, acts)
    decreases |acts|
  {
    if acts == [] then None
    else
      var later := LastUse(Step(s, acts[0]), acts[1..], stack);
      if later.Some? then later else UseOn(s, acts[0], stack)
  }

  predicate SameActive(s: State, t: State, stack: Stack) {
    (stack in t.active <==> stack in s.active) && (stack in s.active ==> t.active[stack] == s.active[stack])
  }

  predicate Shows(t: State, stack: Stack, u: Use) { stack in t.active && t.active[stack] == TextOf(u) }

  lemma UpShows(s: State, a: Action)
    requires Enabled(s, a) && a.RunStep? && NextOf(s, a.id) == "up"
    ensures var stack := StackOf(s.workers[a.id]);
      match UseOn(s, a, stack)
      case None => SameActive(s, Step(s, a), stack)
      case Some(u) => Shows(Step(s, a), stack, u)
  {
    hide ComposeDocument, StepReturns, Attempt;
  }

  lemma RollbackShows(s: State, a: Action)
    requires Inv(s) && Enabled(s, a) && a.RunStep? && NextOf(s, a.id) == "rollback"
    ensures var stack := StackOf(s.workers[a.id]);
      match UseOn(s, a, stack)
      case None => SameActive(s, Step(s, a), stack)
      case Some(u) => Shows(Step(s, a), stack, u)
  {
    hide Inv, ComposeDocument, StepReturns, Attempt, Valid;
    RollbackIsKind(s, a.id);
    RollbackReady(s, a.id);
  }

  lemma RollbackIsKind(s: State, id: nat)
    requires Inv(s) && s.Has(id) && HasNext(s, id) && NextOf(s, id) == "rollback"
    ensures s.Get(id).kind == Rollback
  {
    hide ReleaseInv, Valid, ComposeDocument, Follows, FileInv;
    assert WorkerInv(s, id);
  }

  /** Every plan a stack is cleanly brought up with is valid. */
  lemma UseIsValid(s: State, a: Action, stack: Stack)
    requires Inv(s) && Enabled(s, a) && UseOn(s, a, stack).Some? && UseOn(s, a, stack).value.Clean?
    ensures Valid(UseOn(s, a, stack).value.plan)
  {
    hide Valid, ReleaseInv, ComposeDocument, Follows, FileInv;
    assert WorkerInv(s, a.id);
    if NextOf(s, a.id) == "rollback" {
      RollbackIsKind(s, a.id);
      RollbackReady(s, a.id);
    }
  }

  lemma StepShows(s: State, a: Action, stack: Stack)
    requires Inv(s) && Enabled(s, a)
    ensures match UseOn(s, a, stack)
      case None => SameActive(s, Step(s, a), stack)
      case Some(u) => Shows(Step(s, a), stack, u)
  {
    hide Inv, Step, TextOf;
    if !Touches(s, a, stack) {
      UntouchedStays(s, a, stack);
    } else if NextOf(s, a.id) == "up" {
      UpShows(s, a);
    } else {
      RollbackShows(s, a);
    }
  }

  /** After any run a stack shows what the run last brought it up with. */
  lemma {:induction false} RunShows(s: State, acts: seq<Action>, stack: Stack)
    requires Inv(s) && Runs(s, acts)
    ensures match LastUse(s, acts, stack)
      case None => SameActive(s, After(s, acts), stack)
      case Some(u) => Shows(After(s, acts), stack, u) && (u.Clean? ==> Valid(u.plan))
    decreases |acts|
  {
    hide Inv, Step, Enabled, TextOf, UseOn, Valid;
    if acts != [] {
      InvStep(s, acts[0]);
      StepShows(s, acts[0], stack);
      var u := UseOn(s, acts[0], stack);
      if u.Some? && u.value.Clean? { UseIsValid(s, acts[0], stack); }
      RunShows(Step(s, acts[0]), acts[1..], stack);
    }
  }

  lemma SameTextIff(u: Use, p: Plan)
    requires Valid(p) && (u.Clean? ==> Valid(u.plan))
    ensures TextOf(u) == ComposeDocument(p) <==> SameService(u, p)
  {
    hide Valid, ComposeDocument;
    if u.Clean? { DocumentDeterminesPlan(u.plan, p); }
  }

  // ---------- a deploy that says succeeded ----------

  /** The plan in the document is the same, or an error note has replaced it, for good. */
  predicate PlanGoesOn(s: State, t: State, id: nat) {
    s.Has(id) && t.Has(id) &&
    (t.Get(id).result.error || t.Get(id).result.plan == s.Get(id).result.plan) &&
    (s.Get(id).result.error ==> t.Get(id).result.error)
  }

  lemma BreakingPlan(s: State, id: nat, other: nat)
    requires s.Has(id) && s.Has(other)
    ensures PlanGoesOn(s, Broken(s, id), other)
  {
  }

  lemma FinishingPlan(s: State, id: nat, digest: Option<string>, other: nat)
    requires s.Has(id) && s.Has(other) && id in s.workers && s.workers[id].Stepping?
    ensures PlanGoesOn(s, Finished(s, id, digest), other)
  {
    hide Broken, AllOk;
    BreakingPlan(s, id, other);
  }

  lemma ConnectingPlan(s: State, id: nat, resolvable: bool, other: nat)
    requires s.Has(id) && s.Has(other)
    ensures PlanGoesOn(s, Connected(s, id, resolvable), other)
  {
    hide Broken, Valid, WorkPlan;
    BreakingPlan(s, id, other);
  }

  lemma PlanByStep(s: State, a: Action, id: nat)
    requires Enabled(s, a) && s.Has(id)
    ensures PlanGoesOn(s, Step(s, a), id)
  {
    hide BuildPlan, RollbackPoint, OnHost, Finished, Connected;
    if a.Finish? { FinishingPlan(s, a.id, a.digest, id); }
    if a.Connect? { ConnectingPlan(s, a.id, a.resolvable, id); }
  }

  /** The stored plan stays, unless an error note replaces the document for good. */
  lemma {:induction false} PlanStays(s: State, acts: seq<Action>, id: nat)
    requires Runs(s, acts) && s.Has(id)
    ensures PlanGoesOn(s, After(s, acts), id)
    decreases |acts|
  {
    hide Step, Enabled;
    if acts != [] {
      PlanByStep(s, acts[0], id);
      PlanStays(Step(s, acts[0]), acts[1..], id);
    }
  }

  /** From a deploy's `up` to its final commit, in any interleaving: the stack then runs the deploy's own
      document if and only if nothing brought the stack up in between, or what did so last had the
      same image, version and port. Saying succeeded does not depend on it. */
  lemma DeployRunsOwnIff(before: seq<Action>, id: nat, e: Effect, acts: seq<Action>, digest: Option<string>)
    requires Runs(INIT, before)
    requires var s := After(INIT, before);
      s.Has(id) && HasNext(s, id) && NextOf(s, id) == "up" && e.ok && Runs(Stepped(s, id, e), acts) &&
      Enabled(After(Stepped(s, id, e), acts), Finish(id, digest))
    ensures var s := After(INIT, before); var w, s1 := s.workers[id], Stepped(s, id, e);
      var t := Finished(After(s1, acts), id, digest);
      t.Has(id) && StackOf(w) in t.active &&
      (t.active[StackOf(w)] == ComposeDocument(w.plan) <==>
         match LastUse(s1, acts, StackOf(w)) case None => true case Some(u) => SameService(u, w.plan)) &&
      (t.Get(id).status == Succeeded ==> t.Get(id).result.plan == Some(w.plan))
  {
    hide Runs, After, Inv, ComposeDocument, SameService, TextOf, LastUse, Finished, Stepped;
    var s := After(INIT, before);
    var s1, w := Stepped(s, id, e), s.workers[id];
    ReachableInv(before);
    InvStep(s, RunStep(id, e));
    UpBringsOwn(s, id, e);
    RunShows(s1, acts, StackOf(w));
    var last := LastUse(s1, acts, StackOf(w));
    if last.Some? { SameTextIff(last.value, w.plan); }
    PlanStays(s1, acts, id);
    RunKeepsInv(s1, acts);
    FinishKeeps(After(s1, acts), id, digest);
  }

  lemma UpBringsOwn(s: State, id: nat, e: Effect)
    requires Inv(s) && s.Has(id) && HasNext(s, id) && NextOf(s, id) == "up" && e.ok
    ensures var w, t := s.workers[id], Stepped(s, id, e);
      Valid(w.plan) && t.Has(id) && t.Get(id).result.plan == Some(w.plan) &&
      StackOf(w) in t.active && t.active[StackOf(w)] == ComposeDocument(w.plan)
  {
    hide Valid, ComposeDocument, FileInv, Proven, Deployed;
    assert WorkerInv(s, id) && ReleaseInv(s, id);
    UpIsOwn(s, id);
    WorkIsOwnPlan(s, id);
  }

  lemma FinishKeeps(s: State, id: nat, digest: Option<string>)
    requires Inv(s) && Enabled(s, Finish(id, digest))
    ensures var t := Finished(s, id, digest);
      t.active == s.active && t.Has(id) &&
      (t.Get(id).status == Succeeded ==> !s.Get(id).result.error && t.Get(id).result.plan == s.Get(id).result.plan)
  {
    hide Valid, ComposeDocument, FileInv, Proven, Deployed, AllOk, Follows, PlanKept, GoesBack, WorkPlan;
    assert WorkerInv(s, id) && ReleaseInv(s, id);
  }

  lemma RollbackBringsTarget(s: State, id: nat, e: Effect)
    requires Inv(s) && s.Has(id) && HasNext(s, id) && NextOf(s, id) == "rollback" && e.ok
    ensures HasTarget(s, id) && Valid(TargetPlan(s, id))
    ensures var w, t := s.workers[id], Stepped(s, id, e);
      StackOf(w) in t.active && t.active[StackOf(w)] == ComposeDocument(TargetPlan(s, id))
  {
    hide Inv, Valid, ComposeDocument;
    RollbackIsKind(s, id);
    RollbackReady(s, id);
  }

  /** From the `rollback` step of a rollback to its final commit, in any interleaving: the stack then runs
      the target's document if and only if nothing brought the stack up in between, or what did so last
      had the target's image, version and port. */
  lemma RollbackRunsTargetIff(before: seq<Action>, id: nat, e: Effect, acts: seq<Action>, digest: Option<string>)
    requires Runs(INIT, before)
    requires var s := After(INIT, before);
      s.Has(id) && HasNext(s, id) && NextOf(s, id) == "rollback" && e.ok && Runs(Stepped(s, id, e), acts) &&
      Enabled(After(Stepped(s, id, e), acts), Finish(id, digest))
    ensures var s := After(INIT, before); var stack, s1 := StackOf(s.workers[id]), Stepped(s, id, e);
      var t := Finished(After(s1, acts), id, digest);
      HasTarget(s, id) && stack in t.active &&
      (t.active[stack] == ComposeDocument(TargetPlan(s, id)) <==>
         match LastUse(s1, acts, stack) case None => true case Some(u) => SameService(u, TargetPlan(s, id)))
  {
    hide Runs, After, Inv, ComposeDocument, SameService, TextOf, LastUse, Finished, Stepped;
    var s := After(INIT, before);
    var s1, stack := Stepped(s, id, e), StackOf(s.workers[id]);
    ReachableInv(before);
    InvStep(s, RunStep(id, e));
    RollbackBringsTarget(s, id, e);
    RunShows(s1, acts, stack);
    var last := LastUse(s1, acts, stack);
    if last.Some? { SameTextIff(last.value, TargetPlan(s, id)); }
    RunKeepsInv(s1, acts);
    FinishKeeps(After(s1, acts), id, digest);
  }

  // ---------- one deploy without interruption ----------

  lemma NothingMore(s: State)
    ensures Runs(s, []) && After(s, []) == s
  {
  }

  const PULLED: seq<StepResult> := [StepResult("pull", true), StepResult("build", true)]

  /** A requested deploy, up to its `up`. */
  function Preparing(id: nat, pull: Effect, build: Effect): seq<Action> {
    [Start(id)] + ([Connect(id, true)] + ([RunStep(id, pull)] + ([RunStep(id, build)] + [])))
  }

  function PreparedState(s: State, id: nat, p: Plan, host: nat): State
    requires s.Has(id)
  {
    s.(releases := s.releases[id - 1 := s.Get(id).(status := Running)], pending := s.pending - {id},
       workers := s.workers[id := Stepping(p, host, id, PULLED)])
  }

  lemma PullAndBuild(s: State, id: nat, pull: Effect, build: Effect)
    requires s.Has(id) && id in s.workers && s.workers[id].Stepping? && pull.ok
    requires s.workers[id].plan.steps == DEPLOY_STEPS && s.workers[id].results == []
    ensures Runs(s, [RunStep(id, pull)] + ([RunStep(id, build)] + []))
    ensures After(s, [RunStep(id, pull)] + ([RunStep(id, build)] + []))
            == s.(workers := s.workers[id := s.workers[id].(results := PULLED)])
  {
    hide Runs, After;
    assert NextOf(s, id) == "pull";
    var t := Stepped(s, id, pull);
    assert t.workers[id].results == [StepResult("pull", true)];
    assert NextOf(t, id) == "build";
    var u := Stepped(t, id, build);
    assert u.workers[id].results == PULLED;
    assert u.workers == s.workers[id := s.workers[id].(results := PULLED)];
    NothingMore(u);
    RunsOn(t, RunStep(id, build), []);
    RunsOn(s, RunStep(id, pull), [RunStep(id, build)] + []);
  }

  lemma ConnectsDeploy(s: State, id: nat, host: nat)
    requires Inv(s) && s.Has(id) && id in s.pending && s.Get(id).kind == Deploy
    requires TargetOf(s, s.Get(id).project) == Some(host)
    ensures s.Get(id).result.plan.Some? && !s.Get(id).result.error && PlanKept(s, s.Get(id))
    ensures var p, t := s.Get(id).result.plan.value, Connected(Started(s, id), id, true);
      p.steps == DEPLOY_STEPS && p.target == Some(host) && p.project == s.Get(id).project && Valid(p) &&
      t == s.(releases := s.releases[id - 1 := s.Get(id).(status := Running)], pending := s.pending - {id},
              workers := s.workers[id := Stepping(p, host, id, [])])
  {
    hide Valid, ComposeDocument, FileInv, Proven;
    assert ReleaseInv(s, id);
    var p := s.Get(id).result.plan.value;
    assert p.(steps := DEPLOY_STEPS) == p;
  }

  lemma DeployPrepared(s: State, id: nat, host: nat, pull: Effect, build: Effect)
    requires Inv(s) && s.Has(id) && id in s.pending && s.Get(id).kind == Deploy && pull.ok
    requires TargetOf(s, s.Get(id).project) == Some(host)
    ensures PlanKept(s, s.Get(id)) && Runs(s, Preparing(id, pull, build))
    ensures After(s, Preparing(id, pull, build)) == PreparedState(s, id, s.Get(id).result.plan.value, host)
  {
    hide Runs, After, Inv, Valid, PlanKept, Connected, Started;
    StartThenConnect(s, id);
    ConnectsDeploy(s, id, host);
    var s1 := Started(s, id);
    var s2 := Connected(s1, id, true);
    PullAndBuild(s2, id, pull, build);
    RunsOn(s1, Connect(id, true), [RunStep(id, pull)] + ([RunStep(id, build)] + []));
    RunsOn(s, Start(id), Preparing(id, pull, build)[1..]);
    var p := s.Get(id).result.plan.value;
    assert s.workers[id := Stepping(p, host, id, [])][id := Stepping(p, host, id, PULLED)]
        == s.workers[id := Stepping(p, host, id, PULLED)];
  }

  lemma StartThenConnect(s: State, id: nat)
    requires s.Has(id) && id in s.pending
    ensures Enabled(s, Start(id)) && Started(s, id).Has(id) && Enabled(Started(s, id), Connect(id, true))
  {
  }

  /** A deploy's `up` that returns. */
  lemma UpReturns(s: State, id: nat, e: Effect)
    requires s.Has(id) && id in s.workers && s.workers[id].Stepping? && e.ok
    requires s.workers[id].plan.steps == DEPLOY_STEPS && s.workers[id].results == PULLED
    ensures Enabled(s, RunStep(id, e)) && NextOf(s, id) == "up"
    ensures var w, t := s.workers[id], Stepped(s, id, e);
      t == s.(files := s.files[FileOf(w) := ComposeDocument(w.plan)],
              active := s.active[StackOf(w) := ComposeDocument(w.plan)],
              workers := s.workers[id := w.(results := PULLED + [StepResult("up", true)])])
  {
    hide ComposeDocument;
  }

  /** The health check and the final commit of a deploy whose file is in place. */
  lemma DeployEnds(s: State, id: nat, e: Effect, digest: string)
    requires s.Has(id) && id in s.workers && s.workers[id].Stepping? && s.Get(id).kind == Deploy && e.ok
    requires s.workers[id].plan.steps == DEPLOY_STEPS && FileOf(s.workers[id]) in s.files
    requires s.workers[id].results == PULLED + [StepResult("up", true)]
    ensures Runs(s, [RunStep(id, e)] + ([Finish(id, Some(digest))] + []))
    ensures var t := After(s, [RunStep(id, e)] + ([Finish(id, Some(digest))] + []));
      t.Has(id) && t.Get(id).status == Succeeded && t.active == s.active
  {
    hide Runs, After;
    assert NextOf(s, id) == "healthcheck";
    var t := Stepped(s, id, e);
    assert t.workers[id].results == COMPLETE;
    var u := Finished(t, id, Some(digest));
    NothingMore(u);
    RunsOn(t, Finish(id, Some(digest)), []);
    RunsOn(s, RunStep(id, e), [Finish(id, Some(digest))] + []);
  }

  function Ending(id: nat, up: Effect, health: Effect, digest: string): seq<Action> {
    [RunStep(id, up)] + ([RunStep(id, health)] + ([Finish(id, Some(digest))] + []))
  }

  /** A requested deploy to a reachable host whose commands succeed, with nothing running between them,
      ends succeeded and leaves its own document active. */
  lemma UninterruptedDeploy(s: State, id: nat, host: nat, pull: Effect, build: Effect, up: Effect, health: Effect,
                            digest: string)
    requires Inv(s) && s.Has(id) && id in s.pending && s.Get(id).kind == Deploy
    requires TargetOf(s, s.Get(id).project) == Some(host) && pull.ok && up.ok && health.ok
    ensures PlanKept(s, s.Get(id)) && Runs(s, Preparing(id, pull, build) + Ending(id, up, health, digest))
    ensures var t := After(s, Preparing(id, pull, build) + Ending(id, up, health, digest));
      var stack := Stack(host, s.Get(id).project);
      t.Has(id) && t.Get(id).status == Succeeded && stack in t.active &&
      t.active[stack] == ComposeDocument(s.Get(id).result.plan.value)
  {
    hide Runs, After, Inv, Valid, ComposeDocument, Stepped, Preparing;
    DeployPrepared(s, id, host, pull, build);
    var s1 := PreparedState(s, id, s.Get(id).result.plan.value, host);
    UpReturns(s1, id, up);
    DeployEnds(Stepped(s1, id, up), id, health, digest);
    RunsOn(s1, RunStep(id, up), [RunStep(id, health)] + ([Finish(id, Some(digest))] + []));
    RunsAppend(s, Preparing(id, pull, build), Ending(id, up, health, digest));
  }

  lemma {:induction false} RunsAppend(s: State, acts: seq<Action>, more: seq<Action>)
    requires Runs(s, acts) && Runs(After(s, acts), more)
    ensures Runs(s, acts + more) && After(s, acts + more) == After(After(s, acts), more)
    decreases |acts|
  {
    hide Enabled, Step;
    if acts == [] {
      assert acts + more == more;
    } else {
      assert (acts + more)[1..] == acts[1..] + more;
      RunsAppend(Step(s, acts[0]), acts[1..], more);
    }
  }

  // ---------- two deploys of one project at once ----------

  /** A project, and two deploys of it asked for. */
  function Asking(number: nat, project: Project, p: Plan, q: Plan): seq<Action> {
    [AddProject(number, project)] + ([AskDeploy(number, p.image, p.version, p.port, p.template)] +
      ([AskDeploy(number, q.image, q.version, q.port, q.template)] + []))
  }

  /** The plan `build_plan` makes of its own image, version, port and template. */
  predicate PlanOf(number: nat, project: Project, p: Plan) {
    BuildPlan(number, project, p.image, p.version, p.port, p.template) == Some(p)
  }

  function RequestFor(number: nat, p: Plan): Release {
    Release(number, Deploy, Requested, p.image, p.version, None, None, NO_EVIDENCE.(plan := Some(p)))
  }

  lemma BothAsked(number: nat, project: Project, p: Plan, q: Plan)
    requires PlanOf(number, project, p) && PlanOf(number, project, q)
    ensures Runs(INIT, Asking(number, project, p, q))
    ensures var s := After(INIT, Asking(number, project, p, q));
      s.projects == map[number := project] && s.releases == [RequestFor(number, p), RequestFor(number, q)] &&
      s.pending == {1, 2} && s.workers == map[] && s.files == map[] && s.active == map[]
  {
    hide Runs, After, BuildPlan;
    var s1 := Step(INIT, AddProject(number, project));
    var askP := AskDeploy(number, p.image, p.version, p.port, p.template);
    var askQ := AskDeploy(number, q.image, q.version, q.port, q.template);
    var s2 := DeployAsked(s1, askP);
    var s3 := DeployAsked(s2, askQ);
    NothingMore(s3);
    RunsOn(s2, askQ, []);
    RunsOn(s1, askP, [askQ] + []);
    RunsOn(INIT, AddProject(number, project), [askP] + ([askQ] + []));
  }

  /** The first deploy brings its stack up, then the second one does, then the first one finishes. */
  function Overtaken(e: Effect, digest: string): seq<Action> {
    [RunStep(1, e)] + ([RunStep(2, e)] + ([RunStep(1, e)] + ([Finish(1, Some(digest))] + [])))
  }

  lemma OvertakenRun(s: State, p: Plan, q: Plan, host: nat, e: Effect, digest: string)
    requires s.Has(1) && s.Has(2) && s.Get(1).kind == Deploy && 1 in s.workers && 2 in s.workers && e.ok
    requires s.workers[1] == Stepping(p, host, 1, PULLED) && s.workers[2] == Stepping(q, host, 2, PULLED)
    requires p.project == q.project && p.steps == DEPLOY_STEPS && q.steps == DEPLOY_STEPS
    ensures Runs(s, Overtaken(e, digest))
    ensures var t := After(s, Overtaken(e, digest)); var stack := Stack(host, p.project);
      t.Has(1) && t.Get(1).status == Succeeded && stack in t.active && t.active[stack] == ComposeDocument(q)
  {
    hide Runs, After, ComposeDocument, Stepped;
    UpReturns(s, 1, e);
    var s1 := Stepped(s, 1, e);
    UpReturns(s1, 2, e);
    var s2 := Stepped(s1, 2, e);
    DeployEnds(s2, 1, e, digest);
    var rest := [RunStep(1, e)] + ([Finish(1, Some(digest))] + []);
    RunsOn(s1, RunStep(2, e), rest);
    RunsOn(s, RunStep(1, e), [RunStep(2, e)] + rest);
  }

  function TwoDeploys(number: nat, project: Project, p: Plan, q: Plan, e: Effect, digest: string): seq<Action> {
    Asking(number, project, p, q) + (Preparing(1, e, e) + (Preparing(2, e, e) + Overtaken(e, digest)))
  }

  /** For any two plans of a project bound to a host there is a run in which the first deploy ends
      succeeded while its stack runs the second one's document, which is another one unless image,
      version and port are the same. */
  lemma DeployOvertaken(number: nat, project: Project, host: nat, p: Plan, q: Plan, e: Effect, digest: string)
    requires PlanOf(number, project, p) && PlanOf(number, project, q) && project.target == Some(host) && e.ok
    ensures Runs(INIT, TwoDeploys(number, project, p, q, e, digest))
    ensures var t := After(INIT, TwoDeploys(number, project, p, q, e, digest)); var stack := Stack(host, number);
      t.Has(1) && t.Get(1).status == Succeeded && stack in t.active && t.active[stack] == ComposeDocument(q) &&
      (t.active[stack] == ComposeDocument(p) <==> (q.image, q.version, q.port) == (p.image, p.version, p.port))
  {
    hide Runs, After, Inv, Asking, Preparing, Overtaken, ComposeDocument, Valid;
    BothAsked(number, project, p, q);
    var s0 := After(INIT, Asking(number, project, p, q));
    ReachableInv(Asking(number, project, p, q));
    DeployPrepared(s0, 1, host, e, e);
    var s1 := After(s0, Preparing(1, e, e));
    RunKeepsInv(s0, Preparing(1, e, e));
    DeployPrepared(s1, 2, host, e, e);
    var s2 := After(s1, Preparing(2, e, e));
    OvertakenRun(s2, p, q, host, e, digest);
    RunsAppend(s1, Preparing(2, e, e), Overtaken(e, digest));
    RunsAppend(s0, Preparing(1, e, e), Preparing(2, e, e) + Overtaken(e, digest));
    RunsAppend(INIT, Asking(number, project, p, q), Preparing(1, e, e) + (Preparing(2, e, e) + Overtaken(e, digest)));
    DocumentDeterminesPlan(q, p);
  }
}

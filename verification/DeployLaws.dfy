/** What a deployment request and the answers of the remote commands amount to, said of requests and
    answers alone. */
module DeployLaws {
  import opened Options
  import opened DeployPlans
  import opened DeployProtocol
  import opened DeploySafety
  import opened DeployTheorems
  import opened DeployActive

  // ---------- well-formed names ----------

  const LOWER := "abcdefghijklmnopqrstuvwxyz"
  const UPPER := "ABCDEFGHIJKLMNOPQRSTUVWXYZ"
  const DIGITS := "0123456789"

  /** A character of `first`, then at most `most` characters of `rest`. */
  predicate Matches(s: string, first: string, rest: string, most: nat) {
    s != "" && s[0] in first && |s[1..]| <= most && forall c <- s[1..] :: c in rest
  }

  lemma Alphabets(c: char)
    ensures Lower(c) <==> c in LOWER + DIGITS
    ensures Alphanumeric(c) <==> c in LOWER + DIGITS + UPPER
  {
    InRange(c, 'a', LOWER);
    InRange(c, 'A', UPPER);
    InRange(c, '0', DIGITS);
  }

  /** A literal that lists consecutive characters contains exactly that range. */
  lemma InRange(c: char, from: char, literal: string)
    requires literal != "" && forall i | 0 <= i < |literal| :: literal[i] as int == from as int + i
    ensures c in literal <==> from as int <= c as int < from as int + |literal|
  {
    if from as int <= c as int < from as int + |literal| { assert literal[c as int - from as int] == c; }
  }

  lemma ImageNameMeans(s: string)
    ensures ImageName(s) <==> Matches(s, LOWER + DIGITS, LOWER + DIGITS + "._/-", 240)
  {
    hide Lower, LOWER, DIGITS;
    if s != "" {
      Alphabets(s[0]);
      forall i | 0 < i < |s| ensures Lower(s[i]) || s[i] in "._/-" <==> s[i] in LOWER + DIGITS + "._/-" {
        Alphabets(s[i]);
      }
      TailCharacters(s, LOWER + DIGITS + "._/-");
    }
  }

  lemma TailCharacters(s: string, alphabet: string)
    requires s != ""
    ensures (forall c <- s[1..] :: c in alphabet) <==> forall i | 0 < i < |s| :: s[i] in alphabet
  {
    assert forall i | 0 < i < |s| :: s[1..][i - 1] == s[i];
  }

  lemma VersionNameMeans(s: string)
    ensures VersionName(s) <==> Matches(s, LOWER + DIGITS + UPPER, LOWER + DIGITS + UPPER + "._-", 99)
  {
    hide Alphanumeric, LOWER, UPPER, DIGITS;
    if s != "" {
      Alphabets(s[0]);
      forall i | 0 < i < |s| ensures Alphanumeric(s[i]) || s[i] in "._-" <==> s[i] in LOWER + DIGITS + UPPER + "._-" {
        Alphabets(s[i]);
      }
      TailCharacters(s, LOWER + DIGITS + UPPER + "._-");
    }
  }

  // ---------- a request ----------

  /** The image a request asks for; without one, the project's default. */
  function AskedImage(project: Project, image: string): string {
    if image != "" then image else if project.name != "" then "easyops/" + project.name else "easyops/app"
  }

  /** A request that is accepted: the one template, well-formed names and a port that needs no privilege. */
  predicate Deployable(project: Project, image: string, version: string, port: int, template: string) {
    template == "compose-web" &&
    Matches(AskedImage(project, image), LOWER + DIGITS, LOWER + DIGITS + "._/-", 240) &&
    Matches(version, LOWER + DIGITS + UPPER, LOWER + DIGITS + UPPER + "._-", 99) && 1024 <= port <= 65535
  }

  /** What is stored for an accepted request. */
  ghost predicate StoredAsAsked(r: Release, number: nat, project: Project, image: string, version: string, port: int) {
    r.project == number && r.kind == Deploy && r.status == Requested && r.digest.None? && r.gitRef.None? &&
    r.image == AskedImage(project, image) && r.version == version &&
    !r.result.error && r.result.steps.None? && r.result.outcome.None? &&
    r.result.rollbackTo.None? && r.result.rollbackOf.None? && r.result.plan.Some? &&
    var p := r.result.plan.value;
    p.project == number && p.template == "compose-web" && p.image == AskedImage(project, image) &&
    p.version == version && p.port == port && p.branch == project.branch && p.gitRef.None? &&
    p.target == project.target && p.steps == ["pull", "build", "up", "healthcheck"]
  }

  /** A request adds exactly one release, with its own image, version, port and branch, and asks for its
      job, if the project exists and the request is well-formed; otherwise it changes nothing. */
  lemma RequestIsStoredIff(s: State, number: nat, image: string, version: string, port: int, template: string)
    ensures var t := Step(s, AskDeploy(number, image, version, port, template)); var id := |s.releases| + 1;
      if number in s.projects && Deployable(s.projects[number], image, version, port, template)
      then t == s.(releases := t.releases, pending := s.pending + {id}) && |t.releases| == id &&
           t.releases[..id - 1] == s.releases &&
           StoredAsAsked(t.releases[id - 1], number, s.projects[number], image, version, port)
      else t == s
  {
    hide ImageName, VersionName, Matches, LOWER, UPPER, DIGITS;
    assert "easyops/" + "app" == "easyops/app";
    VersionNameMeans(version);
    if number in s.projects {
      ImageNameMeans(AskedImage(s.projects[number], image));
      if Deployable(s.projects[number], image, version, port, template) {
        var added := Step(s, AskDeploy(number, image, version, port, template)).releases[|s.releases|];
        assert (s.releases + [added])[..|s.releases|] == s.releases;
      }
    }
  }

  // ---------- the answers of the remote commands ----------

  /** What the runner answered to the steps of one worker, in order. */
  function Answers(acts: seq<Action>, id: nat): seq<bool> {
    if acts == [] then []
    else
      (if acts[0].RunStep? && acts[0].id == id then [acts[0].effect.ok] else []) + Answers(acts[1..], id)
  }

  /** Each result names its step and is what the command answered; `build` runs no command. */
  predicate Reports(w: Worker, answers: seq<bool>)
    requires w.Stepping?
  {
    |w.results| == |answers| && |answers| <= |w.plan.steps| &&
    forall k | 0 <= k < |answers| ::
      w.results[k] == StepResult(w.plan.steps[k], w.plan.steps[k] == "build" || answers[k])
  }

  lemma FileForHealth(s: State, id: nat)
    requires Inv(s) && s.Has(id) && HasNext(s, id) && NextOf(s, id) in ["healthcheck", "rollback"]
    ensures FileOf(s.workers[id]) in s.files
  {
    hide Valid, FileInv, ComposeDocument;
    assert WorkerInv(s, id) && ReleaseInv(s, id);
    if s.Get(id).kind == Rollback {
      hide Inv;
      RollbackReady(s, id);
    } else {
      WorkIsOwnPlan(s, id);
      assert s.workers[id].results[2] in s.workers[id].results;
    }
  }

  lemma StepsAreKnown(s: State, id: nat)
    requires Inv(s) && s.Has(id) && HasNext(s, id)
    ensures NextOf(s, id) in ["pull", "build", "up", "healthcheck", "rollback"]
  {
    hide Valid, FileInv, ComposeDocument, Follows, ReleaseInv;
    assert WorkerInv(s, id);
  }

  /** In every reachable state the result of a step is what its command answered, and `build` succeeds. */
  lemma ResultIsAnswer(s: State, id: nat, e: Effect)
    requires Inv(s) && Enabled(s, RunStep(id, e))
    ensures var w, t := s.workers[id], Step(s, RunStep(id, e)); var step := w.plan.steps[|w.results|];
      id in t.workers && t.workers[id] == w.(results := w.results + [StepResult(step, step == "build" || e.ok)])
  {
    hide Inv, OnHost;
    StepsAreKnown(s, id);
    if NextOf(s, id) in ["healthcheck", "rollback"] { FileForHealth(s, id); }
  }

  /** What the answers so far say of the worker of a release. */
  predicate AnswersFit(s: State, id: nat, answers: seq<bool>) {
    if id in s.workers && s.workers[id].Stepping? then Reports(s.workers[id], answers)
    else answers == [] || (s.Has(id) && Final(s.Get(id).status))
  }

  lemma OwnStepFits(s: State, id: nat, e: Effect, answers: seq<bool>)
    requires Inv(s) && Enabled(s, RunStep(id, e)) && AnswersFit(s, id, answers)
    ensures AnswersFit(Step(s, RunStep(id, e)), id, answers + [e.ok])
  {
    hide Inv, Step;
    ResultIsAnswer(s, id, e);
  }

  lemma OwnActionFits(s: State, a: Action, id: nat, answers: seq<bool>)
    requires Inv(s) && Enabled(s, a) && Subject(a) == Some(id) && !a.RunStep? && AnswersFit(s, id, answers)
    ensures AnswersFit(Step(s, a), id, answers)
  {
    hide Valid, WorkPlan, AllOk, FileInv, ReleaseInv, Merged, Follows, Deployed, ComposeId;
    SubjectIsOpen(s, a);
    assert id in s.workers ==> WorkerInv(s, id);
  }

  lemma OtherActionFits(s: State, a: Action, id: nat, answers: seq<bool>)
    requires Inv(s) && Enabled(s, a) && Subject(a) != Some(id) && AnswersFit(s, id, answers)
    ensures AnswersFit(Step(s, a), id, answers)
  {
    hide Inv, Step, Reports;
    StepGrows(s, a);
    OtherWorkerSame(s, a, id);
  }

  lemma OtherWorkerSame(s: State, a: Action, id: nat)
    requires Enabled(s, a) && Subject(a) != Some(id)
    ensures id in Step(s, a).workers <==> id in s.workers
    ensures id in s.workers ==> Step(s, a).workers[id] == s.workers[id]
  {
    hide BuildPlan, RollbackPoint, WorkPlan, OnHost, Valid, Merged, ComposeId, StepReturns;
  }

  lemma {:induction false} RunFits(s: State, acts: seq<Action>, id: nat, answers: seq<bool>)
    requires Inv(s) && Runs(s, acts) && AnswersFit(s, id, answers)
    ensures AnswersFit(After(s, acts), id, answers + Answers(acts, id))
    decreases |acts|
  {
    hide Inv, Step, Enabled, AnswersFit;
    if acts == [] {
      assert answers + [] == answers;
    } else {
      var a, t := acts[0], Step(s, acts[0]);
      InvStep(s, a);
      if a.RunStep? && a.id == id {
        OwnStepFits(s, id, a.effect, answers);
        RunFits(t, acts[1..], id, answers + [a.effect.ok]);
        assert answers + [a.effect.ok] + Answers(acts[1..], id) == answers + ([a.effect.ok] + Answers(acts[1..], id));
      } else {
        if Subject(a) == Some(id) { OwnActionFits(s, a, id, answers); } else { OtherActionFits(s, a, id, answers); }
        RunFits(t, acts[1..], id, answers);
        assert [] + Answers(acts[1..], id) == Answers(acts[1..], id);
      }
    }
  }

  lemma InitIsSound()
    ensures Inv(INIT)
  {
  }

  /** In every run, whatever other deploys and rollbacks do: the final commit of a deploy says succeeded if
      and only if the image digest was obtained and its own pull, up and health check commands were
      answered with success, one after the other. */
  lemma DeploySucceedsIffAnswered(acts: seq<Action>, id: nat, digest: Option<string>)
    requires Runs(INIT, acts) && Enabled(After(INIT, acts), Finish(id, digest))
    requires After(INIT, acts).Get(id).kind == Deploy
    ensures var t := Step(After(INIT, acts), Finish(id, digest)); var answers := Answers(acts, id);
      t.Has(id) && (t.Get(id).status == Succeeded <==>
        digest.Some? && |answers| == 4 && answers[0] && answers[2] && answers[3])
    ensures var t := Step(After(INIT, acts), Finish(id, digest));
      t.Has(id) && t.Get(id).status in {Succeeded, Failed} &&
      t.Get(id).digest == if t.Get(id).status == Succeeded then digest else None
  {
    hide Runs, After, Inv, Valid, WorkerInv, ReleaseInv, Follows, Finished, Reports;
    var s := After(INIT, acts);
    ReachableInv(acts);
    InitIsSound();
    RunFits(INIT, acts, id, []);
    assert [] + Answers(acts, id) == Answers(acts, id);
    OpenDeploy(s, id);
    DeployFinishes(s, id, digest);
    CompleteByAnswers(s.workers[id], Answers(acts, id));
    FinishShape(s, id, digest);
  }

  lemma CompleteByAnswers(w: Worker, answers: seq<bool>)
    requires w.Stepping? && w.plan.steps == DEPLOY_STEPS && Reports(w, answers)
    ensures w.results == COMPLETE <==> |answers| == 4 && answers[0] && answers[2] && answers[3]
  {
    if |answers| == 4 {
      assert w.results[0] == StepResult("pull", answers[0]) && w.results[1] == StepResult("build", true);
      assert w.results[2] == StepResult("up", answers[2]) && w.results[3] == StepResult("healthcheck", answers[3]);
    }
  }

  lemma FinishShape(s: State, id: nat, digest: Option<string>)
    requires Enabled(s, Finish(id, digest)) && s.Get(id).kind == Deploy && s.Get(id).digest.None?
    ensures var t := Finished(s, id, digest);
      t.Has(id) && t.Get(id).status in {Succeeded, Failed} &&
      t.Get(id).digest == if t.Get(id).status == Succeeded then digest else None
  {
    hide AllOk;
  }

  lemma OpenDeploy(s: State, id: nat)
    requires Inv(s) && s.Has(id) && id in s.workers && s.workers[id].Stepping? && s.Get(id).kind == Deploy
    ensures WorkerInv(s, id) && ReleaseInv(s, id) && s.workers[id].plan.steps == DEPLOY_STEPS
    ensures s.Get(id).digest.None?
  {
    hide Valid, FileInv, ComposeDocument, Follows, Proven, Deployed;
    assert WorkerInv(s, id) && ReleaseInv(s, id);
  }

  /** And the final commit of a rollback if and only if both of its commands were. */
  lemma RollbackSucceedsIffAnswered(acts: seq<Action>, id: nat, digest: Option<string>)
    requires Runs(INIT, acts) && Enabled(After(INIT, acts), Finish(id, digest))
    requires After(INIT, acts).Get(id).kind == Rollback
    ensures var t := Step(After(INIT, acts), Finish(id, digest));
      t.Has(id) && t.Get(id).status in {RollbackSucceeded, RollbackFailed} &&
      (t.Get(id).status == RollbackSucceeded <==> Answers(acts, id) == [true, true])
  {
    hide Runs, After, Inv, Valid, WorkerInv, ReleaseInv, Follows, Finished, Reports;
    var s := After(INIT, acts);
    ReachableInv(acts);
    InitIsSound();
    RunFits(INIT, acts, id, []);
    assert [] + Answers(acts, id) == Answers(acts, id);
    OpenRollback(s, id);
    RollbackFinishes(s, id, digest);
    RolledBackByAnswers(s.workers[id], Answers(acts, id));
    RollbackShape(s, id, digest);
  }

  lemma RolledBackByAnswers(w: Worker, answers: seq<bool>)
    requires w.Stepping? && w.plan.steps == ROLLBACK_STEPS && Reports(w, answers)
    ensures w.results == ROLLED_BACK <==> answers == [true, true]
  {
    if |answers| == 2 {
      assert w.results[0] == StepResult("rollback", answers[0]);
      assert w.results[1] == StepResult("healthcheck", answers[1]);
    }
  }

  lemma RollbackShape(s: State, id: nat, digest: Option<string>)
    requires Enabled(s, Finish(id, digest)) && s.Get(id).kind == Rollback
    ensures var t := Finished(s, id, digest); t.Has(id) && t.Get(id).status in {RollbackSucceeded, RollbackFailed}
  {
    hide AllOk;
  }

  lemma OpenRollback(s: State, id: nat)
    requires Inv(s) && s.Has(id) && id in s.workers && s.workers[id].Stepping? && s.Get(id).kind == Rollback
    ensures WorkerInv(s, id) && ReleaseInv(s, id) && s.workers[id].plan.steps == ROLLBACK_STEPS
  {
    hide Valid, FileInv, ComposeDocument, Follows, Proven, Deployed;
    assert WorkerInv(s, id) && ReleaseInv(s, id);
  }

  // ---------- from the request to the running stack ----------

  /** From a well-formed request on, undisturbed and with commands that succeed, the stack ends up running
      exactly the service asked for: the image, the version and the port of the request. */
  lemma DeployedAsAsked(s: State, number: nat, image: string, version: string, port: int, template: string, host: nat,
                        e: Effect, digest: string)
    requires Inv(s) && number in s.projects && s.projects[number].target == Some(host) && e.ok
    requires Deployable(s.projects[number], image, version, port, template)
    ensures var id := |s.releases| + 1; var t := Step(s, AskDeploy(number, image, version, port, template));
      Runs(t, Preparing(id, e, e) + Ending(id, e, e, digest)) &&
      var u := After(t, Preparing(id, e, e) + Ending(id, e, e, digest)); var stack := Stack(host, number);
      u.Has(id) && u.Get(id).status == Succeeded && stack in u.active &&
      Parse(u.active[stack]) == Some(Service(AskedImage(s.projects[number], image), version, port))
  {
    hide Runs, After, Inv, Valid, ComposeDocument, Parse, Deployable, DeployAsked, Preparing, Ending, PlanKept;
    var a, id := AskDeploy(number, image, version, port, template), |s.releases| + 1;
    RequestIsStoredIff(s, number, image, version, port, template);
    InvStep(s, a);
    var t := Step(s, a);
    UninterruptedDeploy(t, id, host, e, e, e, e, digest);
    StoredIsValid(t, id);
    ValidNamesParse(t.Get(id).result.plan.value);
  }

  lemma StoredIsValid(s: State, id: nat)
    requires s.Has(id) && PlanKept(s, s.Get(id))
    ensures Valid(s.Get(id).result.plan.value)
  {
  }
}

/** The release API and the deploy worker as they run: tables, files and stacks updated in place. */
module DeployService {
  import opened Options
  import opened DeployPlans
  import opened DeployProtocol

  lemma {:induction false} RunExtends(s: State, acts: seq<Action>, a: Action)
    requires Runs(s, acts) && Enabled(After(s, acts), a)
    ensures Runs(s, acts + [a]) && After(s, acts + [a]) == Step(After(s, acts), a)
    decreases |acts|
  {
    hide Enabled, Step;
    if acts == [] {
      assert acts + [a] == [a] && [a][1..] == [];
    } else {
      assert (acts + [a])[1..] == acts[1..] + [a];
      RunExtends(Step(s, acts[0]), acts[1..], a);
    }
  }

  class DeployBackend {
    var projects: map<nat, Project>
    var releases: seq<Release>
    var pending: set<nat>
    var workers: map<nat, Worker>
    var files: map<File, string>
    var active: map<Stack, string>

    ghost function View(): State
      reads this
    {
      State(projects, releases, pending, workers, files, active)
    }

    constructor ()
      ensures View() == INIT
    {
      projects, releases, pending, workers, files, active := map[], [], {}, map[], map[], map[];
    }

    /** `create_release`; nothing is returned when the project is missing or the plan is refused. */
    method CreateRelease(number: nat, image: string, version: string, port: int, template: string)
      returns (id: Option<nat>)
      modifies this`releases, this`pending
      ensures View() == DeployAsked(old(View()), AskDeploy(number, image, version, port, template))
      ensures id == if |releases| > |old(releases)| then Some(|releases|) else None
    {
      hide BuildPlan;
      if number !in projects { return None; }
      var plan := BuildPlan(number, projects[number], image, version, port, template);
      if plan.None? { return None; }
      var p := plan.value;
      var r := Release(number, Deploy, Requested, p.image, p.version, None, None, NO_EVIDENCE.(plan := Some(p)));
      releases := releases + [r];
      pending := pending + {|releases|};
      id := Some(|releases|);
    }

    /** `last_valid_release`: newest first among the project's earlier releases. */
    method LastValidRelease(project: nat, before: nat) returns (point: Option<nat>)
      requires before <= |releases|
      ensures point == LastValid(releases[..before], project)
    {
      var k: nat := before;
      while k > 0 && !(releases[k - 1].project == project && releases[k - 1].status == Succeeded)
        invariant k <= before && LastValid(releases[..k], project) == LastValid(releases[..before], project)
      {
        assert releases[..k][..k - 1] == releases[..k - 1];
        k := k - 1;
      }
      point := if k > 0 then Some(k) else None;
    }

    /** `rollback_release` */
    method RollbackRelease(release: nat) returns (id: Option<nat>)
      modifies this`releases, this`pending
      ensures View() == RollbackAsked(old(View()), release)
      ensures id == if |releases| > |old(releases)| then Some(|releases|) else None
    {
      if release == 0 || release > |releases| { return None; }
      var rolled := releases[release - 1];
      var point := LastValidRelease(rolled.project, release - 1);
      if point.None? || point.value == 0 || point.value > |releases| { return None; }
      var target := releases[point.value - 1];
      var doc := NO_EVIDENCE.(rollbackTo := point, rollbackOf := Some(release));
      releases := releases + [Release(rolled.project, Rollback, Requested, target.image, target.version, None,
                                      target.gitRef, doc)];
      pending := pending + {|releases|};
      id := Some(|releases|);
    }

    /** The worker takes the task and commits `running`. */
    method StartRelease(id: nat)
      requires id in pending && 1 <= id <= |releases|
      modifies this`releases, this`pending, this`workers
      ensures View() == Started(old(View()), id)
    {
      releases := releases[id - 1 := releases[id - 1].(status := Running)];
      pending := pending - {id};
      workers := workers[id := Starting];
    }

    /** The exception path of both jobs. */
    method FailRelease(id: nat)
      requires 1 <= id <= |releases|
      modifies this`releases, this`workers
      ensures View() == Broken(old(View()), id)
    {
      var r := releases[id - 1];
      var failed := if r.kind == Deploy then Failed else RollbackFailed;
      releases := releases[id - 1 := r.(status := failed, result := ERROR_NOTE)];
      workers := workers - {id};
    }

    /** `_load_plan` or the rollback's own plan, then `_resolve_runner`. */
    method ResolveRunner(id: nat, resolvable: bool)
      requires 1 <= id <= |releases| && id in workers
      modifies this`releases, this`workers
      ensures View() == Connected(old(View()), id, resolvable)
    {
      var r := releases[id - 1];
      var target := if r.project in projects then projects[r.project].target else None;
      var plan := if r.kind == Deploy then LoadPlan(r).(steps := DEPLOY_STEPS) else RollbackPlan(r, target);
      if plan.target.None? || !resolvable || !Valid(plan) {
        FailRelease(id);
        return;
      }
      workers := workers[id := Stepping(plan, plan.target.value, ComposeId(id, r), [])];
    }

    /** The runner's call for one step: what happens on the host, and whether it returns. */
    method RunOnHost(w: Worker, step: string, e: Effect) returns (returned: bool)
      requires w.Stepping?
      modifies this`files, this`active
      ensures View() == OnHost(old(View()), w, step, e)
      ensures returned == StepReturns(old(View()), w, step, e)
    {
      var file, stack := FileOf(w), StackOf(w);
      match step
      case "pull" => returned := e.ok;
      case "build" => returned := true;
      case "up" =>
        if e.ok {
          files := files[file := ComposeDocument(w.plan)];
        } else if e.left.Some? {
          files := files[file := e.left.value];
        }
        if (e.ok || e.activated) && file in files { active := active[stack := files[file]]; }
        returned := e.ok;
      case "healthcheck" => returned := e.ok && file in files;
      case "rollback" =>
        if file in files && (e.ok || e.activated) { active := active[stack := files[file]]; }
        returned := e.ok && file in files;
      case _ => returned := false;
    }

    /** One turn of the step loop. */
    method AdvanceRelease(id: nat, e: Effect)
      requires HasNext(View(), id)
      modifies this`files, this`active, this`workers
      ensures View() == Stepped(old(View()), id, e)
    {
      hide OnHost, StepReturns;
      var w := workers[id];
      var step := NextStep(w.plan.steps, w.results).value;
      var returned := RunOnHost(w, step, e);
      workers := workers[id := w.(results := w.results + [StepResult(step, step in ALLOWED_STEPS && returned)])];
    }

    /** `_apply_results` and the final commit. */
    method FinishRelease(id: nat, digest: Option<string>)
      requires 1 <= id <= |releases| && id in workers && workers[id].Stepping?
      modifies this`releases, this`workers
      ensures View() == Finished(old(View()), id, digest)
    {
      var r, results := releases[id - 1], workers[id].results;
      var ok, doc := AllOk(results), Merged(r.result, results);
      if r.kind == Rollback {
        r := r.(status := if ok then RollbackSucceeded else RollbackFailed, result := doc);
      } else if digest.None? {
        FailRelease(id);
        return;
      } else {
        var branch := if r.project in projects then Some(projects[r.project].branch) else None;
        r := r.(status := if ok then Succeeded else Failed, digest := if ok then digest else None,
                gitRef := branch, result := doc);
      }
      releases := releases[id - 1 := r];
      workers := workers - {id};
    }

    /** A whole job, start to final commit. It is a run of the protocol on its own release, and it
        leaves that release neither requested nor running. */
    method RunRelease(id: nat, resolvable: bool, effects: nat -> Effect, digest: Option<string>)
      returns (ghost acts: seq<Action>)
      requires id in pending && 1 <= id <= |releases|
      modifies this`releases, this`pending, this`workers, this`files, this`active
      ensures Runs(old(View()), acts) && View() == After(old(View()), acts)
      ensures forall a <- acts :: (a.Start? || a.Connect? || a.RunStep? || a.Finish?) && a.id == id
      ensures id !in workers && id <= |releases| && releases[id - 1].status !in {Requested, Running}
    {
      hide Started, Connected, Stepped, Finished, Runs, After;
      ghost var s0 := View();
      acts := [];
      NothingRun(s0);
      RunExtends(s0, acts, Start(id));
      acts := acts + [Start(id)];
      StartRelease(id);
      StartedShape(s0, id);
      RunExtends(s0, acts, Connect(id, resolvable));
      acts := acts + [Connect(id, resolvable)];
      ConnectedShape(View(), id, resolvable);
      ResolveRunner(id, resolvable);
      if id !in workers { return; }
      var i := 0;
      while NextStep(workers[id].plan.steps, workers[id].results).Some?
        invariant Runs(s0, acts) && View() == After(s0, acts)
        invariant forall a <- acts :: (a.Start? || a.Connect? || a.RunStep? || a.Finish?) && a.id == id
        invariant id <= |releases| && id in workers && workers[id].Stepping?
        decreases |workers[id].plan.steps| - |workers[id].results|
      {
        ghost var s := View();
        RunExtends(s0, acts, RunStep(id, effects(i)));
        acts := acts + [RunStep(id, effects(i))];
        SteppedShape(s, id, effects(i));
        AdvanceRelease(id, effects(i));
        i := i + 1;
      }
      RunExtends(s0, acts, Finish(id, digest));
      acts := acts + [Finish(id, digest)];
      FinishedShape(View(), id, digest);
      FinishRelease(id, digest);
    }
  }

  lemma NothingRun(s: State)
    ensures Runs(s, []) && After(s, []) == s
  {
  }

  lemma StartedShape(s: State, id: nat)
    requires s.Has(id)
    ensures Started(s, id).Has(id) && id in Started(s, id).workers && Started(s, id).workers[id].Starting?
  {
  }

  lemma ConnectedShape(s: State, id: nat, resolvable: bool)
    requires s.Has(id)
    ensures var s' := Connected(s, id, resolvable);
      s'.Has(id) && (id in s'.workers ==> s'.workers[id].Stepping?) &&
      (id !in s'.workers ==> s'.Get(id).status in {Failed, RollbackFailed})
  {
    hide Valid, WorkPlan;
  }

  lemma SteppedShape(s: State, id: nat, e: Effect)
    requires HasNext(s, id)
    ensures var s' := Stepped(s, id, e);
      s'.releases == s.releases && id in s'.workers && s'.workers[id].Stepping? &&
      s'.workers[id].plan == s.workers[id].plan && |s'.workers[id].results| == |s.workers[id].results| + 1
  {
    hide OnHost, StepReturns;
  }

  lemma FinishedShape(s: State, id: nat, digest: Option<string>)
    requires s.Has(id) && id in s.workers && s.workers[id].Stepping?
    ensures var s' := Finished(s, id, digest);
      s'.Has(id) && id !in s'.workers && s'.Get(id).status !in {Requested, Running}
  {
    hide AllOk;
  }
}

/** What each call and each step of a worker does, in any state, said of releases, files and stacks. */
module DeploySteps {
  import opened Options
  import opened Text
  import opened DeployPlans
  import opened DeployProtocol
  import opened DeploySafety
  import opened DeployTheorems

  // ---------- the document ----------

  /** The whole text of a Compose document. */
  lemma DocumentReads(p: Plan)
    ensures ComposeDocument(p) ==
      "services:\n  web:\n    image: " + (p.image + (":" + (p.version + (
      ("\n" + "    ports:\n      - \"127.0.0.1:") + (Numeral(p.port) + (
      ":" + ("80\"\n    restart: unless-stopped\n    healthcheck:\n" +
      "      test: [\"CMD-SHELL\", \"wget -q -O /dev/null http://127.0.0.1/ || exit 1\"]\n" +
      "      interval: 5s\n      timeout: 3s\n      retries: 12\n      start_period: 5s\n")))))))
  {
    hide Numeral;
  }

  // ---------- what a step leaves ----------

  /** Only the record and the worker of this release differ. */
  predicate OnlyRelease(s: State, t: State, id: nat) {
    t.projects == s.projects && t.pending == s.pending && t.files == s.files && t.active == s.active &&
    s.Has(id) && t.Has(id) && t.releases == s.releases[id - 1 := t.Get(id)]
  }

  /** An exception: the release has failed, its document is an error note, and its worker is gone. */
  predicate EndedByError(s: State, t: State, id: nat) {
    OnlyRelease(s, t, id) && t.workers == s.workers - {id} &&
    t.Get(id) == s.Get(id).(status := if s.Get(id).kind == Deploy then Failed else RollbackFailed,
                            result := Evidence(None, None, None, None, None, true))
  }

  // ---------- calls ----------

  lemma AddingMeans(s: State, number: nat, project: Project)
    requires Enabled(s, AddProject(number, project))
    ensures Step(s, AddProject(number, project)) == s.(projects := s.projects[number := project])
  {
  }

  /** The greatest succeeded release of the project below this one. */
  predicate PointOf(s: State, release: nat, to: nat)
    requires s.Has(release)
  {
    to < release && IsPoint(s, s.Get(release).project, to) &&
    forall k: nat | to < k < release :: !IsPoint(s, s.Get(release).project, k)
  }

  /** A rollback call adds one requested release, with the image, version and branch of the rollback point
      and pointing at it, if the release exists and has a point; otherwise it changes nothing. */
  lemma RollingBackMeans(s: State, release: nat)
    ensures var t := Step(s, AskRollback(release));
      if to: nat :| s.Has(release) && PointOf(s, release, to) then
        t == s.(releases := s.releases + [Release(s.Get(release).project, Rollback, Requested, s.Get(to).image,
                                                  s.Get(to).version, None, s.Get(to).gitRef,
                                                  Evidence(None, Some(to), Some(release), None, None, false))],
                pending := s.pending + {|s.releases| + 1})
      else t == s
  {
    if s.Has(release) {
      PointIsLatest(s, release);
      hide RollbackPoint;
      if RollbackPoint(s, release).Some? {
        assert PointOf(s, release, RollbackPoint(s, release).value);
      }
    }
  }

  // ---------- worker steps ----------

  lemma StartingMeans(s: State, id: nat)
    requires Enabled(s, Start(id))
    ensures var t := Step(s, Start(id));
      t == s.(releases := s.releases[id - 1 := s.Get(id).(status := Running)], pending := s.pending - {id},
              workers := s.workers[id := Starting])
  {
  }

  /** The plan a worker is to run: a deploy its stored one, or one made of its record; a rollback one made
      of its record, with a port that stands for nothing. */
  ghost predicate ToRun(s: State, r: Release, p: Plan) {
    match r.kind
    case Deploy =>
      (match r.result.plan
       case Some(stored) => p == stored.(steps := ["pull", "build", "up", "healthcheck"])
       case None =>
         p == Plan(r.project, "compose-web", r.image, r.version, 8080, ["pull", "build", "up", "healthcheck"], "main",
                   None, None))
    case Rollback =>
      p == Plan(r.project, "compose-web", if r.image != "" then r.image else "easyops/app",
                if r.version != "" then r.version else "latest", 8080, ["rollback", "healthcheck"], "main", None,
                if r.project in s.projects then s.projects[r.project].target else None)
  }

  /** A worker gets its plan, the host bound to it and the number of the Compose file it works with: a
      rollback its target's, everything else its own. Without host, asset or valid plan it ends in an
      error. */
  lemma ConnectingMeans(s: State, id: nat, resolvable: bool, p: Plan)
    requires Enabled(s, Connect(id, resolvable)) && ToRun(s, s.Get(id), p)
    ensures var t, r := Step(s, Connect(id, resolvable)), s.Get(id);
      if p.target.Some? && resolvable && Valid(p) then
        t == s.(workers := s.workers[id := Stepping(p, p.target.value,
          if r.kind == Rollback && r.result.rollbackTo.Some? && r.result.rollbackTo.value > 0
          then r.result.rollbackTo.value else id, [])])
      else EndedByError(s, t, id)
  {
    hide Valid;
  }

  /** What a step of a worker leaves on its host and in its results. */
  lemma RunningMeans(s: State, id: nat, e: Effect)
    requires Enabled(s, RunStep(id, e))
    ensures var t, w := Step(s, RunStep(id, e)), s.workers[id]; var step := w.plan.steps[|w.results|];
      var file, stack := File(w.host, w.plan.project, w.composeId), Stack(w.host, w.plan.project);
      var ok := match step
        case "pull" => e.ok
        case "build" => true
        case "up" => e.ok
        case "healthcheck" => e.ok && file in s.files
        case "rollback" => e.ok && file in s.files
        case _ => false;
      t == s.(files := t.files, active := t.active,
              workers := s.workers[id := w.(results := w.results + [StepResult(step, ok)])]) &&
      match step
      case "up" =>
        t.files == (if e.ok then s.files[file := ComposeDocument(w.plan)]
                    else if e.left.Some? then s.files[file := e.left.value] else s.files) &&
        t.active == (if e.ok then s.active[stack := ComposeDocument(w.plan)]
                     else if e.activated && e.left.Some? then s.active[stack := e.left.value]
                     else if e.activated && file in s.files then s.active[stack := s.files[file]] else s.active)
      case "rollback" =>
        t.files == s.files &&
        t.active == (if file in s.files && (e.ok || e.activated) then s.active[stack := s.files[file]] else s.active)
      case _ => t.files == s.files && t.active == s.active
  {
    hide ComposeDocument;
  }

  /** The final commit. The evidence keeps what it had and gains the steps and their outcome; a deploy that
      succeeded gets the digest, any deploy the project's branch, and one without digest ends in an error. */
  lemma EndingMeans(s: State, id: nat, digest: Option<string>)
    requires Enabled(s, Finish(id, digest))
    ensures var t, r, results := Step(s, Finish(id, digest)), s.Get(id), s.workers[id].results;
      var ok := forall k | 0 <= k < |results| :: results[k].ok;
      var evidence := r.result.(steps := Some(results), outcome := Some(if ok then "succeeded" else "failed"));
      if r.kind == Deploy && digest.None? then EndedByError(s, t, id)
      else
        OnlyRelease(s, t, id) && t.workers == s.workers - {id} &&
        t.Get(id) ==
          if r.kind == Rollback then r.(status := if ok then RollbackSucceeded else RollbackFailed, result := evidence)
          else
            r.(status := if ok then Succeeded else Failed, digest := if ok then digest else None,
               gitRef := if r.project in s.projects then Some(s.projects[r.project].branch) else None,
               result := evidence)
  {
    AllOkMeans(s.workers[id].results);
    hide AllOk;
  }

  lemma AllOkMeans(results: seq<StepResult>)
    ensures AllOk(results) <==> forall k | 0 <= k < |results| :: results[k].ok
  {
    assert forall k | 0 <= k < |results| :: results[k] in results;
  }
}

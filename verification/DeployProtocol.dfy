/**
 Releases and rollbacks as a protocol: API calls, workers advancing one SSH command at a time, and
 the Compose files on the remote hosts, in any interleaving.
 */
module DeployProtocol {
  import opened Options
  import opened DeployPlans

  datatype Kind = Deploy | Rollback
  datatype Status = Requested | Running | Succeeded | Failed | RollbackSucceeded | RollbackFailed

  /** The `result` document of a release. `error` marks one replaced by an error note. */
  datatype Evidence = Evidence(plan: Option<Plan>, rollbackTo: Option<nat>, rollbackOf: Option<nat>,
                               steps: Option<seq<StepResult>>, outcome: Option<string>, error: bool)

  const NO_EVIDENCE := Evidence(None, None, None, None, None, false)
  const ERROR_NOTE := NO_EVIDENCE.(error := true)

  datatype Release = Release(project: nat, kind: Kind, status: Status, image: string, version: string,
                             digest: Option<string>, gitRef: Option<string>, result: Evidence)

  /** A worker that has marked its release running, then one that holds a runner for a host. */
  datatype Worker = Starting | Stepping(plan: Plan, host: nat, composeId: nat, results: seq<StepResult>)

  /** `release-<release>.yml` of a project on a host. */
  datatype File = File(host: nat, project: nat, release: nat)

  /** The Compose project of a deployment on a host. */
  datatype Stack = Stack(host: nat, project: nat)

  /** Release `id` is `releases[id - 1]`. `active` holds the document each stack was last brought up with. */
  datatype State = State(projects: map<nat, Project>, releases: seq<Release>, pending: set<nat>,
                         workers: map<nat, Worker>, files: map<File, string>, active: map<Stack, string>)
  {
    predicate Has(id: nat) { 1 <= id <= |releases| }

    function Get(id: nat): Release
      requires Has(id)
    {
      releases[id - 1]
    }

    function Put(id: nat, r: Release): State
      requires Has(id)
    {
      this.(releases := releases[id - 1 := r])
    }
  }

  /** What the remote side does with a command: whether it reports success and, for one that
      fails, what is left in the file and whether the stack was nevertheless brought up. */
  datatype Effect = Effect(ok: bool, left: Option<string>, activated: bool)

  datatype Action =
    | AddProject(number: nat, project: Project)
    | AskDeploy(number: nat, image: string, version: string, port: int, template: string)
    | AskRollback(release: nat)
    | Start(id: nat)
    | Connect(id: nat, resolvable: bool)
    | RunStep(id: nat, effect: Effect)
    | Finish(id: nat, digest: Option<string>)

  // ---------- queries ----------

  /** `last_valid_release`: the greatest succeeded release of the project in the table given. */
  function LastValid(releases: seq<Release>, project: nat): Option<nat> {
    if releases == [] then None
    else
      var last := releases[|releases| - 1];
      if last.project == project && last.status == Succeeded then Some(|releases|)
      else LastValid(releases[..|releases| - 1], project)
  }

  /** The rollback point of a release: only earlier releases are considered. */
  function RollbackPoint(s: State, id: nat): Option<nat>
    requires s.Has(id)
  {
    LastValid(s.releases[..id - 1], s.Get(id).project)
  }

  /** `_load_plan` */
  function LoadPlan(r: Release): Plan {
    match r.result.plan
    case Some(p) => p
    case None => Plan(r.project, DEFAULT_TEMPLATE, r.image, r.version, 8080, DEPLOY_STEPS, "main", None, None)
  }

  /** The plan a rollback runs; its port is a placeholder, the document comes from the target's file. */
  function RollbackPlan(r: Release, target: Option<nat>): Plan {
    Plan(r.project, DEFAULT_TEMPLATE, if r.image != "" then r.image else "easyops/app",
         if r.version != "" then r.version else "latest", 8080, ROLLBACK_STEPS, "main", None, target)
  }

  function TargetOf(s: State, project: nat): Option<nat> {
    if project in s.projects then s.projects[project].target else None
  }

  /** The plan the worker of a release runs. */
  function WorkPlan(s: State, r: Release): Plan {
    if r.kind == Deploy then LoadPlan(r).(steps := DEPLOY_STEPS) else RollbackPlan(r, TargetOf(s, r.project))
  }

  /** Whose Compose file the runner uses. */
  function ComposeId(id: nat, r: Release): nat {
    if r.kind == Rollback && r.result.rollbackTo.Some? && r.result.rollbackTo.value != 0
    then r.result.rollbackTo.value else id
  }

  function FileOf(w: Worker): File
    requires w.Stepping?
  {
    File(w.host, w.plan.project, w.composeId)
  }

  function StackOf(w: Worker): Stack
    requires w.Stepping?
  {
    Stack(w.host, w.plan.project)
  }

  // ---------- steps ----------

  function Added(s: State, r: Release): State {
    s.(releases := s.releases + [r], pending := s.pending + {|s.releases| + 1})
  }

  /** `create_release` */
  function DeployAsked(s: State, a: Action): State
    requires a.AskDeploy?
  {
    if a.number !in s.projects then s
    else
      match BuildPlan(a.number, s.projects[a.number], a.image, a.version, a.port, a.template)
      case None => s
      case Some(p) =>
        Added(s, Release(a.number, Deploy, Requested, p.image, p.version, None, None,
                         NO_EVIDENCE.(plan := Some(p))))
  }

  /** `rollback_release` */
  function RollbackAsked(s: State, release: nat): State {
    if !s.Has(release) || RollbackPoint(s, release).None? then s
    else
      var to := RollbackPoint(s, release).value;
      if !s.Has(to) then s
      else
        Added(s, Release(s.Get(release).project, Rollback, Requested, s.Get(to).image, s.Get(to).version, None,
                         s.Get(to).gitRef,
                         NO_EVIDENCE.(rollbackTo := Some(to), rollbackOf := Some(release))))
  }

  function Started(s: State, id: nat): State
    requires s.Has(id)
  {
    s.Put(id, s.Get(id).(status := Running)).(pending := s.pending - {id}, workers := s.workers[id := Starting])
  }

  /** The exception path: the status says failed and the document is an error note. */
  function Broken(s: State, id: nat): State
    requires s.Has(id)
  {
    var r := s.Get(id);
    s.Put(id, r.(status := if r.kind == Deploy then Failed else RollbackFailed, result := ERROR_NOTE))
     .(workers := s.workers - {id})
  }

  /** `_resolve_runner` and the runner's constructor: a host bound, registered, and a valid plan. */
  function Connected(s: State, id: nat, resolvable: bool): State
    requires s.Has(id)
  {
    var p := WorkPlan(s, s.Get(id));
    if p.target.None? || !resolvable || !Valid(p) then Broken(s, id)
    else s.(workers := s.workers[id := Stepping(p, p.target.value, ComposeId(id, s.Get(id)), [])])
  }

  /** Whether the runner's step returns. `rollback` and `healthcheck` name the file with `-f`. */
  function StepReturns(s: State, w: Worker, step: string, e: Effect): bool
    requires w.Stepping?
  {
    if step == "build" then true
    else if step == "pull" || step == "up" then e.ok
    else if step == "healthcheck" || step == "rollback" then e.ok && FileOf(w) in s.files
    else false
  }

  /** `up` writes its file, then brings the stack up with it. */
  function RanUp(s: State, w: Worker, e: Effect): State
    requires w.Stepping?
  {
    var left := if e.ok then Some(ComposeDocument(w.plan)) else e.left;
    var files := if left.Some? then s.files[FileOf(w) := left.value] else s.files;
    s.(files := files,
       active := if (e.ok || e.activated) && FileOf(w) in files
                 then s.active[StackOf(w) := files[FileOf(w)]] else s.active)
  }

  /** `rollback` brings the stack up with a file that must be there. */
  function RanRollback(s: State, w: Worker, e: Effect): (r: State)
    requires w.Stepping?
    ensures r.files == s.files
  {
    if FileOf(w) in s.files && (e.ok || e.activated)
    then s.(active := s.active[StackOf(w) := s.files[FileOf(w)]]) else s
  }

  function OnHost(s: State, w: Worker, step: string, e: Effect): (r: State)
    requires w.Stepping?
    ensures r.projects == s.projects && r.releases == s.releases && r.pending == s.pending && r.workers == s.workers
  {
    if step == "up" then RanUp(s, w, e) else if step == "rollback" then RanRollback(s, w, e) else s
  }

  predicate HasNext(s: State, id: nat) {
    id in s.workers && s.workers[id].Stepping? && NextStep(s.workers[id].plan.steps, s.workers[id].results).Some?
  }

  function NextOf(s: State, id: nat): string
    requires HasNext(s, id)
  {
    NextStep(s.workers[id].plan.steps, s.workers[id].results).value
  }

  function Stepped(s: State, id: nat, e: Effect): State
    requires HasNext(s, id)
  {
    var w := s.workers[id];
    var step := NextOf(s, id);
    var result := Attempt(step, StepReturns(s, w, step, e));
    OnHost(s, w, step, e).(workers := s.workers[id := w.(results := w.results + [result])])
  }

  /** `_apply_results` */
  function Merged(doc: Evidence, results: seq<StepResult>): Evidence {
    doc.(steps := Some(results), outcome := Some(if AllOk(results) then "succeeded" else "failed"))
  }

  /** The final commit of a worker whose steps are over. A deploy also needs the image digest. */
  function Finished(s: State, id: nat, digest: Option<string>): State
    requires s.Has(id) && id in s.workers && s.workers[id].Stepping?
  {
    var r := s.Get(id);
    var results := s.workers[id].results;
    var doc := Merged(r.result, results);
    if r.kind == Rollback then
      s.Put(id, r.(status := if AllOk(results) then RollbackSucceeded else RollbackFailed, result := doc))
       .(workers := s.workers - {id})
    else if digest.None? then Broken(s, id)
    else
      s.Put(id, r.(status := if AllOk(results) then Succeeded else Failed,
                   digest := if AllOk(results) then digest else None,
                   gitRef := if r.project in s.projects then Some(s.projects[r.project].branch) else None,
                   result := doc))
       .(workers := s.workers - {id})
  }

  /** Projects are never edited and tasks are delivered once. */
  predicate Enabled(s: State, a: Action) {
    match a
    case AddProject(number, _) => number !in s.projects
    case AskDeploy(_, _, _, _, _) => true
    case AskRollback(_) => true
    case Start(id) => s.Has(id) && id in s.pending
    case Connect(id, _) => s.Has(id) && id in s.workers && s.workers[id].Starting?
    case RunStep(id, _) => s.Has(id) && HasNext(s, id)
    case Finish(id, _) => s.Has(id) && id in s.workers && s.workers[id].Stepping? && !HasNext(s, id)
  }

  function Step(s: State, a: Action): State
    requires Enabled(s, a)
  {
    match a
    case AddProject(number, project) => s.(projects := s.projects[number := project])
    case AskDeploy(_, _, _, _, _) => DeployAsked(s, a)
    case AskRollback(release) => RollbackAsked(s, release)
    case Start(id) => Started(s, id)
    case Connect(id, resolvable) => Connected(s, id, resolvable)
    case RunStep(id, e) => Stepped(s, id, e)
    case Finish(id, digest) => Finished(s, id, digest)
  }

  const INIT := State(map[], [], {}, map[], map[], map[])

  predicate Runs(s: State, acts: seq<Action>)
    decreases |acts|
  {
    acts == [] || (Enabled(s, acts[0]) && Runs(Step(s, acts[0]), acts[1..]))
  }

  function After(s: State, acts: seq<Action>): State
    requires Runs(s, acts)
    decreases |acts|
  {
    if acts == [] then s else After(Step(s, acts[0]), acts[1..])
  }
}

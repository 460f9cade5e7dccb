/** Deployment plans, the Compose document made from one, and the fail-fast step executor. */
module DeployPlans {
  import opened Options
  import opened Text

  const DEFAULT_TEMPLATE := "compose-web"
  const DEPLOY_STEPS: seq<string> := ["pull", "build", "up", "healthcheck"]
  const ROLLBACK_STEPS: seq<string> := ["rollback", "healthcheck"]
  const ALLOWED_STEPS: seq<string> := ["pull", "build", "up", "healthcheck", "rollback"]

  datatype Project = Project(name: string, branch: string, target: Option<nat>)

  datatype Plan = Plan(project: nat, template: string, image: string, version: string, port: int,
                       steps: seq<string>, branch: string, gitRef: Option<string>, target: Option<nat>)

  // ---------- validation ----------

  predicate Lower(c: char) { 'a' <= c <= 'z' || '0' <= c <= '9' }

  predicate Alphanumeric(c: char) { Lower(c) || 'A' <= c <= 'Z' }

  predicate ImageName(s: string) {
    1 <= |s| <= 241 && Lower(s[0]) && forall i | 0 < i < |s| :: Lower(s[i]) || s[i] in "._/-"
  }

  predicate VersionName(s: string) {
    1 <= |s| <= 100 && Alphanumeric(s[0]) && forall i | 0 < i < |s| :: Alphanumeric(s[i]) || s[i] in "._-"
  }

  /** `validate_plan` raises nothing; the step list is not looked at. */
  predicate Valid(p: Plan) {
    p.template == DEFAULT_TEMPLATE && ImageName(p.image) && VersionName(p.version) && 1024 <= p.port <= 65535
  }

  /** `build_plan`, or nothing when validation raises. An empty image means the default one. */
  function BuildPlan(id: nat, project: Project, image: string, version: string, port: int, template: string)
    : (r: Option<Plan>)
    ensures r.Some? ==> Valid(r.value) && r.value.project == id && r.value.target == project.target
                        && r.value.steps == DEPLOY_STEPS
  {
    var chosen := if image != "" then image else "easyops/" + (if project.name != "" then project.name else "app");
    var p := Plan(id, template, chosen, version, port, DEPLOY_STEPS, project.branch, None, project.target);
    if Valid(p) then Some(p) else None
  }

  // ---------- the Compose document ----------

  const HEAD := "services:\n  web:\n    image: "
  const PORTS := "\n" + PUBLISHED
  const PUBLISHED := "    ports:\n      - \"127.0.0.1:"
  const TAIL := ":" + REMAINDER
  const REMAINDER := "80\"\n    restart: unless-stopped\n    healthcheck:\n"
    + "      test: [\"CMD-SHELL\", \"wget -q -O /dev/null http://127.0.0.1/ || exit 1\"]\n"
    + "      interval: 5s\n      timeout: 3s\n      retries: 12\n      start_period: 5s\n"

  function Document(image: string, version: string, port: int): string {
    HEAD + (image + (":" + (version + (PORTS + (Numeral(port) + TAIL)))))
  }

  function ComposeDocument(p: Plan): string { Document(p.image, p.version, p.port) }

  datatype Service = Service(image: string, version: string, port: int)

  /** The position of the first `c`, or the length. */
  function Find(text: string, c: char): (i: nat)
    ensures i <= |text| && (i < |text| ==> text[i] == c)
    ensures forall j | 0 <= j < i :: text[j] != c
  {
    if text == "" || text[0] == c then 0 else 1 + Find(text[1..], c)
  }

  /** The text before the first `c`. */
  function Head(text: string, c: char): string { text[..Find(text, c)] }

  /** The text from the first `c` on. */
  function Rest(text: string, c: char): string { text[Find(text, c)..] }

  function ParsePort(text: string): Option<int> {
    if PORTS <= text && Rest(text[|PORTS|..], ':') == TAIL
    then Some(NumeralValue(Head(text[|PORTS|..], ':')))
    else None
  }

  /** Reads a Compose document back: the image up to the first `:`, the version up to the line
      end, then the published port. Text that is no such document is refused. */
  function Parse(text: string): Option<Service> {
    if !(HEAD <= text) then None else ParseBody(text[|HEAD|..])
  }

  function ParseBody(body: string): Option<Service> {
    var rest := Rest(body, ':');
    if rest == "" then None
    else
      match ParsePort(Rest(rest[1..], '\n'))
      case None => None
      case Some(port) => Some(Service(Head(body, ':'), Head(rest[1..], '\n'), port))
  }

  lemma CutAt(a: string, c: char, b: string)
    requires b != "" && b[0] == c
    ensures c !in a ==> Head(a + b, c) == a && Rest(a + b, c) == b
    ensures c in a ==> |Head(a + b, c)| < |a|
  {
    var i := Find(a + b, c);
    assert (a + b)[|a|] == c && (a + b)[|a|..] == b;
    assert i < |a| ==> a[i] == (a + b)[i];
    if c in a {
      var j: nat :| j < |a| && a[j] == c;
      assert (a + b)[j] == c;
    }
  }

  lemma Separators()
    ensures PORTS != "" && PORTS[0] == '\n' && TAIL != "" && TAIL[0] == ':'
  {
    hide PUBLISHED, REMAINDER;
  }

  lemma PortParses(port: int)
    ensures ParsePort(PORTS + (Numeral(port) + TAIL)) == Some(port)
  {
    hide Numeral, NumeralValue, Head, Rest, PORTS, TAIL;
    Separators();
    CutAt(Numeral(port), ':', TAIL);
    NumeralRoundTrip(port);
    assert (PORTS + (Numeral(port) + TAIL))[|PORTS|..] == Numeral(port) + TAIL;
  }

  lemma BodyParsesIff(image: string, version: string, port: int)
    ensures ParseBody(image + (":" + (version + (PORTS + (Numeral(port) + TAIL)))))
              == Some(Service(image, version, port))
            <==> ':' !in image && '\n' !in version
  {
    hide Numeral, NumeralValue, ParsePort, Head, Rest, PORTS, TAIL;
    Separators();
    var end := PORTS + (Numeral(port) + TAIL);
    assert end[0] == '\n';
    CutAt(image, ':', ":" + (version + end));
    assert (":" + (version + end))[1..] == version + end;
    CutAt(version, '\n', end);
    PortParses(port);
  }

  /** Parsing gives back image, version and port exactly when the two names leave the separators alone. */
  lemma ParseIff(image: string, version: string, port: int)
    ensures Parse(Document(image, version, port)) == Some(Service(image, version, port))
            <==> ':' !in image && '\n' !in version
  {
    hide Numeral, ParseBody, HEAD, PORTS, TAIL;
    BodyParsesIff(image, version, port);
    var body := image + (":" + (version + (PORTS + (Numeral(port) + TAIL))));
    assert (HEAD + body)[|HEAD|..] == body;
  }

  lemma ValidNamesParse(p: Plan)
    requires Valid(p)
    ensures Parse(ComposeDocument(p)) == Some(Service(p.image, p.version, p.port))
  {
    hide Document, Parse;
    ParseIff(p.image, p.version, p.port);
  }

  /** Two validated plans have one document only if they deploy the same image, version and port. */
  lemma DocumentDeterminesPlan(p: Plan, q: Plan)
    requires Valid(p) && Valid(q)
    ensures ComposeDocument(p) == ComposeDocument(q)
            <==> (p.image, p.version, p.port) == (q.image, q.version, q.port)
  {
    hide Document, Parse;
    ValidNamesParse(p);
    ValidNamesParse(q);
  }

  /** Without validation two plans can share a document. */
  lemma UnvalidatedPlansCollide(port: int)
    ensures Document("a:b", "c", port) == Document("a", "b:c", port)
  {
    hide HEAD, PORTS, TAIL, Numeral;
    var end := PORTS + (Numeral(port) + TAIL);
    assert "a:b" + (":" + ("c" + end)) == "a" + (":" + ("b:c" + end));
  }

  // ---------- the step executor ----------

  datatype StepResult = StepResult(step: string, ok: bool)

  predicate AllOk(results: seq<StepResult>) { forall r <- results :: r.ok }

  /** The next step to run, if no step failed and one is left. */
  function NextStep(steps: seq<string>, results: seq<StepResult>): Option<string> {
    if AllOk(results) && |results| < |steps| then Some(steps[|results|]) else None
  }

  /** A step outside the list fails whatever the runner would answer. */
  function Attempt(step: string, answer: bool): StepResult {
    StepResult(step, step in ALLOWED_STEPS && answer)
  }

  /** `answers(k)`: whether the runner's k-th call returns rather than raises. */
  function Continued(steps: seq<string>, results: seq<StepResult>, answers: nat -> bool): seq<StepResult>
    decreases |steps| - |results|
  {
    match NextStep(steps, results)
    case None => results
    case Some(step) => Continued(steps, results + [Attempt(step, answers(|results|))], answers)
  }

  /** `run_deploy_steps` */
  function RunSteps(p: Plan, answers: nat -> bool): seq<StepResult> {
    if !Valid(p) then [StepResult("validate", false)] else Continued(p.steps, [], answers)
  }

  /** Results that follow the plan: each entry names its step and only the last may have failed. */
  predicate Follows(steps: seq<string>, results: seq<StepResult>) {
    |results| <= |steps| &&
    (forall k | 0 <= k < |results| :: results[k].step == steps[k]) &&
    (forall k | 0 <= k < |results| - 1 :: results[k].ok)
  }

  lemma FollowsStep(steps: seq<string>, results: seq<StepResult>, ok: bool)
    requires Follows(steps, results) && NextStep(steps, results).Some?
    ensures Follows(steps, results + [StepResult(NextStep(steps, results).value, ok)])
    ensures AllOk(results + [StepResult(NextStep(steps, results).value, ok)]) <==> ok
  {
    var more := results + [StepResult(NextStep(steps, results).value, ok)];
    assert forall k | 0 <= k < |more| - 1 :: more[k] in results;
    assert more[|more| - 1].ok == ok;
    forall r | r in more ensures ok ==> r.ok {
      assert r in results || r == more[|more| - 1];
    }
  }

  predicate Succeeds(steps: seq<string>, answers: nat -> bool, k: nat)
    requires k < |steps|
  {
    steps[k] in ALLOWED_STEPS && answers(k)
  }

  lemma {:induction false} ContinuedRuns(steps: seq<string>, results: seq<StepResult>, answers: nat -> bool)
    requires Follows(steps, results)
    requires forall k | 0 <= k < |results| :: results[k].ok == Succeeds(steps, answers, k)
    ensures var r := Continued(steps, results, answers);
      results <= r && Follows(steps, r) && (forall k | 0 <= k < |r| :: r[k].ok == Succeeds(steps, answers, k)) &&
      (AllOk(r) ==> |r| == |steps|)
    decreases |steps| - |results|
  {
    if NextStep(steps, results).Some? {
      var step := NextStep(steps, results).value;
      FollowsStep(steps, results, Attempt(step, answers(|results|)).ok);
      ContinuedRuns(steps, results + [Attempt(step, answers(|results|))], answers);
    }
  }

  /** Nothing failed before step `k`. */
  predicate Reached(steps: seq<string>, answers: nat -> bool, k: nat)
    requires k <= |steps|
  {
    forall j: nat | j < k :: Succeeds(steps, answers, j)
  }

  /** Fail fast: a valid plan's results stop with the first step that fails and report nothing else;
      an invalid plan reports one `validate` failure and calls no step. */
  lemma StepsStopAtFirstFailure(p: Plan, answers: nat -> bool)
    ensures !Valid(p) ==> RunSteps(p, answers) == [StepResult("validate", false)]
    ensures Valid(p) ==> Follows(p.steps, RunSteps(p, answers))
    ensures Valid(p) ==> forall k: nat | k < |p.steps| :: k < |RunSteps(p, answers)| <==> Reached(p.steps, answers, k)
  {
    if Valid(p) {
      ContinuedRuns(p.steps, [], answers);
      var r := RunSteps(p, answers);
      forall k: nat | k < |p.steps| ensures k < |r| <==> Reached(p.steps, answers, k) {
        if k >= |r| {
          var x :| x in r && !x.ok;
          var j: nat :| j < |r| && r[j] == x;
          assert !Succeeds(p.steps, answers, j);
        } else {
          forall j: nat | j < k ensures Succeeds(p.steps, answers, j) { assert r[j].ok; }
        }
      }
    }
  }

  /** No failure is reported exactly when the plan is valid and every planned step succeeded, in order. */
  lemma AllOkIff(p: Plan, answers: nat -> bool)
    ensures AllOk(RunSteps(p, answers))
            <==> Valid(p) && forall k: nat | k < |p.steps| :: Succeeds(p.steps, answers, k)
    ensures AllOk(RunSteps(p, answers)) ==>
              RunSteps(p, answers) == seq(|p.steps|, k requires 0 <= k < |p.steps| => StepResult(p.steps[k], true))
  {
    var r := RunSteps(p, answers);
    if Valid(p) {
      ContinuedRuns(p.steps, [], answers);
      if AllOk(r) {
        forall k: nat | k < |p.steps| ensures r[k].ok && Succeeds(p.steps, answers, k) { assert r[k] in r; }
      } else {
        var x :| x in r && !x.ok;
        var j: nat :| j < |r| && r[j] == x;
        assert !Succeeds(p.steps, answers, j);
      }
    } else {
      assert StepResult("validate", false) in r;
    }
  }

  /** What the runner answered, read off the results. */
  function AnswersOf(results: seq<StepResult>): nat -> bool {
    (k: nat) => k < |results| && results[k].ok
  }

  lemma {:induction false} ResumedRun(steps: seq<string>, results: seq<StepResult>, i: nat)
    requires Follows(steps, results) && NextStep(steps, results).None? && i <= |results|
    requires forall step <- steps :: step in ALLOWED_STEPS
    ensures Continued(steps, results[..i], AnswersOf(results)) == results
    decreases |results| - i
  {
    if i == |results| {
      assert results[..i] == results;
    } else {
      assert steps[i] in steps;
      assert AllOk(results[..i]);
      assert results[..i] + [results[i]] == results[..i + 1];
      ResumedRun(steps, results, i + 1);
    }
  }

  /** Results collected one step at a time until nothing is left to run are those of one run. */
  lemma CollectedResultsAreARun(p: Plan, results: seq<StepResult>)
    requires Valid(p) && Follows(p.steps, results) && NextStep(p.steps, results).None?
    requires forall step <- p.steps :: step in ALLOWED_STEPS
    ensures RunSteps(p, AnswersOf(results)) == results
  {
    ResumedRun(p.steps, results, 0);
  }

  /** The loop as written: results grow step by step and the first failure breaks out. */
  method RunDeploySteps(p: Plan, answers: nat -> bool) returns (results: seq<StepResult>)
    ensures results == RunSteps(p, answers)
    ensures AllOk(results) <==> Valid(p) && forall k: nat | k < |p.steps| :: Succeeds(p.steps, answers, k)
  {
    AllOkIff(p, answers);
    if !Valid(p) { return [StepResult("validate", false)]; }
    results := [];
    for i := 0 to |p.steps|
      invariant |results| == i && AllOk(results)
      invariant Continued(p.steps, results, answers) == RunSteps(p, answers)
    {
      var step := p.steps[i];
      if step !in ALLOWED_STEPS {
        results := results + [StepResult(step, false)];
        assert !results[i].ok;
        break;
      }
      var returned := answers(i);
      results := results + [StepResult(step, returned)];
      if !returned {
        assert !results[i].ok;
        break;
      }
    }
  }
}

/** The inspection rule engine: host facts and rules give one overall status. */
module InspectionRules {
  import opened Options

  datatype Level = Unknown | Healthy | Warning | Critical {
    /** `STATUS.ORDER`: unknown ranks below healthy. */
    function Rank(): nat {
      match this
      case Unknown => 0
      case Healthy => 1
      case Warning => 2
      case Critical => 3
    }
  }

  datatype Disk = Disk(used: Option<real>, inodes: Option<real>)

  /** What was measured on a host. Services and ports are given as the text compared with a threshold. */
  datatype Facts = Facts(unavailable: string, disks: seq<Disk>, memory: Option<real>, swap: Option<real>,
                         load5: Option<real>, services: seq<string>, ports: seq<string>)

  /** A threshold text as it is read: its number, if it has one, and its stripped form. */
  datatype Threshold = Threshold(number: Option<real>, name: string)

  /** `severity` is absent when the stored text is none of the four statuses. */
  datatype Rule = Rule(id: nat, metric: string, operator: string, threshold: Threshold,
                       severity: Option<Level>, enabled: bool)

  datatype Value = Missing | Number(n: real) | Names(names: seq<string>)

  datatype RuleResult = RuleResult(rule: nat, status: Level)

  datatype Outcome = Raised | Assessed(overall: Level, results: seq<RuleResult>)

  // ---------- one rule ----------

  function Larger(a: Option<real>, b: Option<real>): Option<real> {
    if a.None? then b else if b.None? || a.value >= b.value then a else b
  }

  function MaxUsed(disks: seq<Disk>): Option<real> {
    if disks == [] then None else Larger(MaxUsed(disks[..|disks| - 1]), disks[|disks| - 1].used)
  }

  function MaxInodes(disks: seq<Disk>): Option<real> {
    if disks == [] then None else Larger(MaxInodes(disks[..|disks| - 1]), disks[|disks| - 1].inodes)
  }

  function Measured(x: Option<real>): Value {
    if x.Some? then Number(x.value) else Missing
  }

  /** `_metric_value` */
  function MetricValue(f: Facts, metric: string): Value {
    match metric
    case "disk_used_pct" => Measured(MaxUsed(f.disks))
    case "inode_used_pct" => Measured(MaxInodes(f.disks))
    case "memory_used_pct" => Measured(f.memory)
    case "swap_used_pct" => Measured(f.swap)
    case "load_5" => Measured(f.load5)
    case "service_stopped" => Names(f.services)
    case "port_not_listening" => Names(f.ports)
    case _ => Missing
  }

  predicate Numeric(operator: string) { operator in ["gt", "lt", "eq", "ne"] }

  predicate Membership(operator: string) { operator in ["contains", "not_contains"] }

  /** `_compare` on a value that is there; nothing when it raises, which is when membership is asked
      of a number other than zero. */
  function Compare(v: Value, operator: string, t: Threshold): Option<bool>
    requires !v.Missing?
  {
    if Numeric(operator) then
      if v.Names? || t.number.None? then Some(false)
      else
        var n := t.number.value;
        Some(if operator == "gt" then v.n > n else if operator == "lt" then v.n < n
             else if operator == "eq" then v.n == n else v.n != n)
    else if Membership(operator) then
      if v.Number? && v.n != 0.0 then None
      else
        var found := v.Names? && t.name in v.names;
        Some(if operator == "not_contains" then !found else found)
    else Some(false)
  }

  /** The status one rule gives, or nothing when it raises. */
  function RuleStatus(f: Facts, r: Rule): Option<Level> {
    var v := MetricValue(f, r.metric);
    if v.Missing? then Some(Unknown)
    else
      match Compare(v, r.operator, r.threshold)
      case None => None
      case Some(hit) => if hit then r.severity else Some(Healthy)
  }

  // ---------- all rules ----------

  function Active(rules: seq<Rule>): (e: seq<Rule>)
    ensures forall r <- e :: r in rules && r.enabled
    ensures forall r <- rules :: r.enabled ==> r in e
  {
    if rules == [] then []
    else
      var last := rules[|rules| - 1];
      Active(rules[..|rules| - 1]) + (if last.enabled then [last] else [])
  }

  /** Every enabled rule's result in rule order, or nothing when one raises. */
  function Results(f: Facts, rules: seq<Rule>): (res: Option<seq<RuleResult>>)
    ensures res.Some? <==> forall r <- rules :: r.enabled ==> RuleStatus(f, r).Some?
    ensures res.Some? ==> |res.value| == |Active(rules)|
    ensures res.Some? ==> forall i | 0 <= i < |res.value| ::
              Some(res.value[i].status) == RuleStatus(f, Active(rules)[i]) && res.value[i].rule == Active(rules)[i].id
  {
    if rules == [] then Some([])
    else
      var init, last := rules[..|rules| - 1], rules[|rules| - 1];
      assert rules == init + [last];
      match Results(f, init)
      case None => None
      case Some(done) =>
        if !last.enabled then Some(done)
        else
          match RuleStatus(f, last)
          case None => None
          case Some(st) => Some(done + [RuleResult(last.id, st)])
  }

  function Worse(a: Level, b: Level): Level { if b.Rank() > a.Rank() then b else a }

  /** The fold of `evaluate`: healthy, raised by every worse result. */
  function Worst(results: seq<RuleResult>): Level {
    if results == [] then Healthy else Worse(Worst(results[..|results| - 1]), results[|results| - 1].status)
  }

  const COLLECT_FAILED := RuleResult(0, Unknown)

  /** `evaluate` */
  function Evaluate(f: Facts, rules: seq<Rule>): Outcome {
    if f.unavailable != "" then Assessed(Unknown, [COLLECT_FAILED])
    else
      match Results(f, rules)
      case None => Raised
      case Some(results) => Assessed(if results == [] then Unknown else Worst(results), results)
  }

  /** The loop as written: `worst` is raised while results are appended. */
  method EvaluateRules(f: Facts, rules: seq<Rule>) returns (outcome: Outcome)
    ensures outcome == Evaluate(f, rules)
  {
    hide RuleStatus;
    if f.unavailable != "" { return Assessed(Unknown, [COLLECT_FAILED]); }
    var worst := Healthy;
    var results: seq<RuleResult> := [];
    for i := 0 to |rules|
      invariant Results(f, rules[..i]) == Some(results) && worst == Worst(results)
    {
      assert rules[..i + 1][..i] == rules[..i] && rules[i] in rules;
      if rules[i].enabled {
        var status := RuleStatus(f, rules[i]);
        if status.None? {
          return Raised;
        }
        results := results + [RuleResult(rules[i].id, status.value)];
        assert results[..|results| - 1] + [RuleResult(rules[i].id, status.value)] == results;
        if status.value.Rank() > worst.Rank() { worst := status.value; }
      }
    }
    assert rules[..|rules|] == rules;
    outcome := Assessed(if worst == Healthy && results == [] then Unknown else worst, results);
  }

  // ---------- what the overall status means ----------

  lemma {:induction false} WorstIsMaximum(results: seq<RuleResult>)
    ensures Worst(results).Rank() >= Healthy.Rank()
    ensures forall r <- results :: r.status.Rank() <= Worst(results).Rank()
    ensures Worst(results) == Healthy || exists r <- results :: r.status == Worst(results)
  {
    if results != [] {
      WorstIsMaximum(results[..|results| - 1]);
      assert results == results[..|results| - 1] + [results[|results| - 1]];
    }
  }

  /** An enabled rule gives the status. */
  ghost predicate Gives(f: Facts, rules: seq<Rule>, st: Level) {
    exists r <- rules :: r.enabled && RuleStatus(f, r) == Some(st)
  }

  /** The overall status is the highest status an enabled rule gives, and never below healthy. */
  lemma OverallIsMaximum(f: Facts, rules: seq<Rule>)
    requires f.unavailable == "" && Evaluate(f, rules).Assessed? && Active(rules) != []
    ensures var overall := Evaluate(f, rules).overall;
      overall != Unknown && (overall == Healthy || Gives(f, rules, overall)) &&
      forall r <- rules | r.enabled :: RuleStatus(f, r).Some? && RuleStatus(f, r).value.Rank() <= overall.Rank()
  {
    hide RuleStatus;
    var results, on := Results(f, rules).value, Active(rules);
    WorstIsMaximum(results);
    forall r | r in rules && r.enabled
      ensures RuleStatus(f, r).Some? && RuleStatus(f, r).value.Rank() <= Worst(results).Rank()
    {
      var i :| 0 <= i < |on| && on[i] == r;
      assert results[i] in results;
    }
    if Worst(results) != Healthy {
      var x :| x in results && x.status == Worst(results);
      var i :| 0 <= i < |results| && results[i] == x;
      assert on[i] in rules;
    }
  }

  /** A rule raises: membership asked of a number other than zero, or a hit whose severity is not a status. */
  predicate Raises(f: Facts, r: Rule) {
    var v := MetricValue(f, r.metric);
    !v.Missing? &&
    if Membership(r.operator) && v.Number? && v.n != 0.0 then true
    else Compare(v, r.operator, r.threshold) == Some(true) && r.severity.None?
  }

  lemma RuleRaisesIff(f: Facts, r: Rule)
    ensures RuleStatus(f, r).None? <==> Raises(f, r)
  {
    hide MetricValue;
  }

  /** Evaluation raises exactly when no unavailable reason is recorded and an enabled rule raises. */
  lemma RaisedIff(f: Facts, rules: seq<Rule>)
    ensures Evaluate(f, rules) == Raised <==> f.unavailable == "" && exists r <- rules :: r.enabled && Raises(f, r)
  {
    forall r: Rule ensures RuleStatus(f, r).None? <==> Raises(f, r) { RuleRaisesIff(f, r); }
    hide RuleStatus, Raises;
  }

  predicate NumberMetric(metric: string) {
    metric in ["disk_used_pct", "inode_used_pct", "memory_used_pct", "swap_used_pct", "load_5"]
  }

  predicate ListMetric(metric: string) { metric in ["service_stopped", "port_not_listening"] }

  /** What can be seen of a rule when it is stored: it asks membership of a number, or it can fire and
      its severity is not a status. */
  predicate Hazardous(r: Rule) {
    (NumberMetric(r.metric) && Membership(r.operator)) ||
    (NumberMetric(r.metric) && Numeric(r.operator) && r.threshold.number.Some? && r.severity.None?) ||
    (ListMetric(r.metric) && Membership(r.operator) && r.severity.None?)
  }

  /** A host whose every number is `x` and whose services and ports are `names`. */
  function UniformHost(x: real, names: seq<string>): Facts {
    Facts("", [Disk(Some(x), Some(x))], Some(x), Some(x), Some(x), names, names)
  }

  lemma UniformValue(x: real, names: seq<string>, metric: string)
    ensures NumberMetric(metric) ==> MetricValue(UniformHost(x, names), metric) == Number(x)
    ensures ListMetric(metric) ==> MetricValue(UniformHost(x, names), metric) == Names(names)
  {
    var disks := [Disk(Some(x), Some(x))];
    assert disks[..0] == [];
    assert MaxUsed(disks) == Some(x) && MaxInodes(disks) == Some(x);
  }

  /** A host on which a hazardous rule raises. */
  lemma HazardHost(r: Rule) returns (f: Facts)
    requires Hazardous(r)
    ensures f.unavailable == "" && Raises(f, r)
  {
    hide MetricValue;
    var n := if r.threshold.number.Some? then r.threshold.number.value else 0.0;
    var x := if Membership(r.operator) then 1.0 else if r.operator == "lt" then n - 1.0
             else if r.operator == "eq" then n else n + 1.0;
    var names := if r.operator == "contains" then [r.threshold.name] else [];
    f := UniformHost(x, names);
    UniformValue(x, names, r.metric);
  }

  /** A rule can raise on some host exactly if it is hazardous. */
  lemma RaisesSomewhereIff(r: Rule)
    ensures (exists f: Facts :: f.unavailable == "" && Raises(f, r)) <==> Hazardous(r)
  {
    if Hazardous(r) {
      var f := HazardHost(r);
    } else {
      forall f: Facts ensures !Raises(f, r) { NoHazardNoRaise(f, r); }
    }
  }

  lemma NoHazardNoRaise(f: Facts, r: Rule)
    requires !Hazardous(r)
    ensures !Raises(f, r)
  {
    hide MaxUsed, MaxInodes;
  }

  /** Rules as `create_rule` lets them be stored evaluate everywhere, if operators fit their metrics. */
  predicate Fits(r: Rule) {
    r.severity.Some? && (Membership(r.operator) ==> r.metric in ["service_stopped", "port_not_listening"])
  }

  lemma FittingRulesNeverRaise(f: Facts, rules: seq<Rule>)
    requires forall r <- rules | r.enabled :: Fits(r)
    ensures Evaluate(f, rules) != Raised
  {
    RaisedIff(f, rules);
    hide Results, Active, Evaluate;
  }

  /** The overall status is unknown exactly when an unavailable reason is recorded or no rule is enabled. */
  lemma UnknownIff(f: Facts, rules: seq<Rule>)
    requires Evaluate(f, rules).Assessed?
    ensures Evaluate(f, rules).overall == Unknown <==> f.unavailable != "" || forall r <- rules :: !r.enabled
  {
    hide RuleStatus;
    if f.unavailable == "" {
      if Active(rules) != [] {
        OverallIsMaximum(f, rules);
        assert Active(rules)[0] in rules;
      }
    }
  }

  /** Healthy means: no unavailable reason, some rule enabled, and none gives warning or critical. Rules without
      data do not prevent it. */
  lemma HealthyIff(f: Facts, rules: seq<Rule>)
    requires Evaluate(f, rules).Assessed?
    ensures Evaluate(f, rules).overall == Healthy <==>
            f.unavailable == "" && (exists r <- rules :: r.enabled) &&
            !Gives(f, rules, Warning) && !Gives(f, rules, Critical)
  {
    hide RuleStatus, Evaluate;
    UnknownIff(f, rules);
    if f.unavailable == "" && exists r <- rules :: r.enabled {
      OverallIsMaximum(f, rules);
    }
  }

  /** A host with no unavailable reason on which a rule has no data is not reported unknown, whatever the rule set:
      when no rule has data it is reported healthy. */
  lemma MissingDataIsNotUnknown(f: Facts, rules: seq<Rule>, r: Rule)
    requires f.unavailable == "" && r in rules && r.enabled && MetricValue(f, r.metric).Missing?
    ensures Evaluate(f, rules).Assessed? ==> Evaluate(f, rules).overall != Unknown
    ensures (forall x <- rules | x.enabled :: MetricValue(f, x.metric).Missing?) ==>
              Evaluate(f, rules).Assessed? && Evaluate(f, rules).overall == Healthy
  {
    hide Results, Evaluate, Active, MetricValue;
    RaisedIff(f, rules);
    if Evaluate(f, rules).Assessed? {
      UnknownIff(f, rules);
      HealthyIff(f, rules);
    }
  }

  // ---------- what the operators mean ----------

  /** Of a number and a numeric threshold exactly one of `lt`, `eq`, `gt` holds, and `ne` is not `eq`;
      on anything else none of the four does. `not_contains` is not `contains` wherever both answer. */
  lemma ComparisonsPartition(v: Value, t: Threshold)
    requires !v.Missing?
    ensures var lt, eq := Compare(v, "lt", t) == Some(true), Compare(v, "eq", t) == Some(true);
      var gt, ne := Compare(v, "gt", t) == Some(true), Compare(v, "ne", t) == Some(true);
      (v.Number? && t.number.Some? ==>
         (lt || eq || gt) && !(lt && eq) && !(lt && gt) && !(eq && gt) && (ne <==> !eq)) &&
      (!(v.Number? && t.number.Some?) ==> !lt && !eq && !gt && !ne)
    ensures var has, hasNot := Compare(v, "contains", t), Compare(v, "not_contains", t);
      (has.None? <==> hasNot.None?) && (has.Some? ==> has.value != hasNot.value)
  {
  }

  /** A watched service that is not running makes a host, unless it is unavailable, at least as bad as its rule says. */
  lemma StoppedServiceIsReported(f: Facts, rules: seq<Rule>, r: Rule)
    requires f.unavailable == "" && r.threshold.name !in f.services
    requires r in rules && r.enabled && r.metric == "service_stopped" && r.operator == "not_contains"
    ensures Evaluate(f, rules).Assessed? ==>
              r.severity.Some? && r.severity.value.Rank() <= Evaluate(f, rules).overall.Rank()
  {
    hide Evaluate, Results;
    assert RuleStatus(f, r) == r.severity;
    hide RuleStatus;
    ActiveIfEnabled(rules, r);
    if Evaluate(f, rules).Assessed? { OverallIsMaximum(f, rules); }
  }

  lemma ActiveIfEnabled(rules: seq<Rule>, r: Rule)
    requires r in rules && r.enabled
    ensures r in Active(rules) && Active(rules) != []
  {
  }

  // ---------- the order of the rules does not matter ----------

  lemma SameRank(a: Level, b: Level)
    requires a.Rank() == b.Rank()
    ensures a == b
  {
  }

  /** Two rule sets with the same members give the same overall status, whatever their order. */
  lemma OrderDoesNotMatter(f: Facts, rules: seq<Rule>, other: seq<Rule>)
    requires forall r :: r in rules <==> r in other
    ensures Evaluate(f, rules).Raised? <==> Evaluate(f, other).Raised?
    ensures Evaluate(f, rules).Assessed? ==> Evaluate(f, other).overall == Evaluate(f, rules).overall
  {
    hide RuleStatus, Raises, Evaluate, Results;
    RaisedIff(f, rules);
    RaisedIff(f, other);
    if Evaluate(f, rules).Assessed? {
      UnknownIff(f, rules);
      UnknownIff(f, other);
      if Evaluate(f, rules).overall != Unknown {
        OverallIsMaximum(f, rules);
        OverallIsMaximum(f, other);
        SameRank(Evaluate(f, rules).overall, Evaluate(f, other).overall);
      }
    }
  }

  // ---------- higher readings never look better ----------

  /** `b` is measured wherever `a` is, and no lower. */
  predicate AtMost(a: Option<real>, b: Option<real>) { a.Some? ==> b.Some? && a.value <= b.value }

  predicate DisksAtMost(a: seq<Disk>, b: seq<Disk>) {
    |a| <= |b| && forall i | 0 <= i < |a| :: AtMost(a[i].used, b[i].used) && AtMost(a[i].inodes, b[i].inodes)
  }

  predicate FactsAtMost(f: Facts, g: Facts) {
    f.unavailable == "" && g.unavailable == "" && DisksAtMost(f.disks, g.disks) && AtMost(f.memory, g.memory) &&
    AtMost(f.swap, g.swap) && AtMost(f.load5, g.load5)
  }

  /** The disk metric is a reading of some disk, and no disk reads higher; it is absent only if no disk has one. */
  lemma {:induction false} MaxUsedIsMaximum(disks: seq<Disk>)
    ensures forall d <- disks :: AtMost(d.used, MaxUsed(disks))
    ensures MaxUsed(disks).Some? ==> exists d <- disks :: d.used == MaxUsed(disks)
  {
    if disks != [] {
      MaxUsedIsMaximum(disks[..|disks| - 1]);
      assert disks == disks[..|disks| - 1] + [disks[|disks| - 1]];
    }
  }

  /** Disk by disk higher readings give a higher maximum. */
  lemma {:induction false} MaximaRise(a: seq<Disk>, b: seq<Disk>)
    requires DisksAtMost(a, b)
    ensures AtMost(MaxUsed(a), MaxUsed(b)) && AtMost(MaxInodes(a), MaxInodes(b))
    decreases |b|
  {
    if b != [] {
      var rest := b[..|b| - 1];
      MaximaRise(if |a| == |b| then a[..|a| - 1] else a, rest);
    }
  }

  /** With `gt` rules only, a host with higher readings is never judged better. */
  lemma HigherReadingsAreNoBetter(f: Facts, g: Facts, rules: seq<Rule>)
    requires FactsAtMost(f, g)
    requires forall r <- rules | r.enabled :: r.operator == "gt" && r.severity.Some?
    ensures Evaluate(f, rules).Assessed? && Evaluate(g, rules).Assessed?
    ensures Evaluate(f, rules).overall.Rank() <= Evaluate(g, rules).overall.Rank()
  {
    FittingRulesNeverRaise(f, rules);
    FittingRulesNeverRaise(g, rules);
    hide Evaluate, Results, Active;
    UnknownIff(f, rules);
    UnknownIff(g, rules);
    if exists r <- rules :: r.enabled {
      OverallIsMaximum(f, rules);
      OverallIsMaximum(g, rules);
      var high := Evaluate(f, rules).overall;
      if high != Healthy {
        var r :| r in rules && r.enabled && RuleStatus(f, r) == Some(high);
        RuleRises(f, g, r);
      }
    }
  }

  /** A rule that fires on the lower readings fires on the higher ones. */
  lemma RuleRises(f: Facts, g: Facts, r: Rule)
    requires FactsAtMost(f, g) && r.operator == "gt"
    requires RuleStatus(f, r).Some? && RuleStatus(f, r).value !in {Unknown, Healthy}
    ensures RuleStatus(g, r) == RuleStatus(f, r)
  {
    MaximaRise(f.disks, g.disks);
  }
}

/** What the rule engine answers, said of the readings and the rules alone: which reading a rule looks
    at, when it fires, and what follows for the host. */
module InspectionLaws {
  import opened Options
  import opened InspectionRules

  // ---------- which rules answer, and in what order ----------

  /** How many rules are enabled before position `k`. */
  function EnabledBefore(rules: seq<Rule>, k: nat): nat
    requires k <= |rules|
  {
    if k == 0 then 0 else EnabledBefore(rules, k - 1) + (if rules[k - 1].enabled then 1 else 0)
  }

  lemma {:induction false} CountInPrefix(rules: seq<Rule>, n: nat, k: nat)
    requires k <= n <= |rules|
    ensures EnabledBefore(rules[..n], k) == EnabledBefore(rules, k)
  {
    if k > 0 { CountInPrefix(rules, n, k - 1); }
  }

  lemma ActiveUnfolds(rules: seq<Rule>)
    requires rules != []
    ensures var n := |rules| - 1;
      Active(rules) == Active(rules[..n]) + (if rules[n].enabled then [rules[n]] else [])
  {
  }

  lemma {:induction false} ActiveSize(rules: seq<Rule>)
    ensures |Active(rules)| == EnabledBefore(rules, |rules|)
  {
    hide Active;
    if rules != [] {
      var n := |rules| - 1;
      ActiveSize(rules[..n]);
      CountInPrefix(rules, n, n);
      ActiveUnfolds(rules);
    } else {
      NoneActive();
    }
  }

  lemma NoneActive()
    ensures Active([]) == []
  {
  }

  /** The enabled rule at position `k` answers after those enabled before it. */
  lemma {:induction false} ActiveAt(rules: seq<Rule>, k: nat)
    requires k < |rules| && rules[k].enabled
    ensures EnabledBefore(rules, k) < |Active(rules)| && Active(rules)[EnabledBefore(rules, k)] == rules[k]
    decreases |rules|
  {
    hide Active;
    var n := |rules| - 1;
    ActiveUnfolds(rules);
    CountInPrefix(rules, n, k);
    hide EnabledBefore;
    if k < n { ActiveAt(rules[..n], k); } else { ActiveSize(rules[..n]); }
  }

  // ---------- what one rule answers ----------

  /** A number satisfies the rule: a comparison with a numeric threshold, or, for zero, not being on a list. */
  predicate Satisfies(v: real, r: Rule) {
    match r.threshold.number
    case Some(n) =>
      (r.operator == "gt" && v > n) || (r.operator == "lt" && v < n) || (r.operator == "eq" && v == n) ||
      (r.operator == "ne" && v != n) || (r.operator == "not_contains" && v == 0.0)
    case None => r.operator == "not_contains" && v == 0.0
  }

  /** What a rule on a number answers: unknown without a reading, its own severity when the reading
      satisfies it, healthy otherwise. */
  predicate AnswersNumber(reading: Option<real>, r: Rule, status: Level) {
    match reading
    case None => status == Unknown
    case Some(v) => if Satisfies(v, r) then r.severity == Some(status) else status == Healthy
  }

  /** What a rule on a list of names answers. */
  predicate AnswersList(names: seq<string>, r: Rule, status: Level) {
    if (r.operator == "contains" && r.threshold.name in names) ||
       (r.operator == "not_contains" && r.threshold.name !in names)
    then r.severity == Some(status) else status == Healthy
  }

  /** The greatest of the readings there are. */
  predicate Greatest(readings: seq<Option<real>>, top: Option<real>) {
    (top.Some? ==> top in readings) &&
    forall x <- readings :: x.Some? ==> top.Some? && x.value <= top.value
  }

  function UsedOf(disks: seq<Disk>): (r: seq<Option<real>>)
    ensures |r| == |disks| && forall i | 0 <= i < |disks| :: r[i] == disks[i].used
  {
    seq(|disks|, i requires 0 <= i < |disks| => disks[i].used)
  }

  function InodesOf(disks: seq<Disk>): (r: seq<Option<real>>)
    ensures |r| == |disks| && forall i | 0 <= i < |disks| :: r[i] == disks[i].inodes
  {
    seq(|disks|, i requires 0 <= i < |disks| => disks[i].inodes)
  }

  /** What a rule answers on a host, metric by metric. */
  ghost predicate Answers(f: Facts, r: Rule, status: Level) {
    (r.metric == "disk_used_pct" ==>
       exists top :: Greatest(UsedOf(f.disks), top) && AnswersNumber(top, r, status)) &&
    (r.metric == "inode_used_pct" ==>
       exists top :: Greatest(InodesOf(f.disks), top) && AnswersNumber(top, r, status)) &&
    (r.metric == "memory_used_pct" ==> AnswersNumber(f.memory, r, status)) &&
    (r.metric == "swap_used_pct" ==> AnswersNumber(f.swap, r, status)) &&
    (r.metric == "load_5" ==> AnswersNumber(f.load5, r, status)) &&
    (r.metric == "service_stopped" ==> AnswersList(f.services, r, status)) &&
    (r.metric == "port_not_listening" ==> AnswersList(f.ports, r, status)) &&
    (!NumberMetric(r.metric) && !ListMetric(r.metric) ==> status == Unknown)
  }

  /** There is only one greatest reading, so `Answers` leaves no choice. */
  lemma GreatestIsUnique(readings: seq<Option<real>>, a: Option<real>, b: Option<real>)
    requires Greatest(readings, a) && Greatest(readings, b)
    ensures a == b
  {
  }

  lemma AnswerIsUnique(f: Facts, r: Rule, a: Level, b: Level)
    requires Answers(f, r, a) && Answers(f, r, b)
    ensures a == b
  {
    hide Greatest;
    forall readings: seq<Option<real>>, x: Option<real>, y: Option<real> |
      Greatest(readings, x) && Greatest(readings, y)
      ensures x == y
    {
      GreatestIsUnique(readings, x, y);
    }
  }

  lemma {:induction false} MaxUsedIsGreatest(disks: seq<Disk>)
    ensures Greatest(UsedOf(disks), MaxUsed(disks))
  {
    if disks != [] {
      var n := |disks| - 1;
      MaxUsedIsGreatest(disks[..n]);
      assert UsedOf(disks) == UsedOf(disks[..n]) + [disks[n].used];
    }
  }

  lemma {:induction false} MaxInodesIsGreatest(disks: seq<Disk>)
    ensures Greatest(InodesOf(disks), MaxInodes(disks))
  {
    if disks != [] {
      var n := |disks| - 1;
      MaxInodesIsGreatest(disks[..n]);
      assert InodesOf(disks) == InodesOf(disks[..n]) + [disks[n].inodes];
    }
  }

  /** What a metric looks at. */
  lemma MetricMeans(f: Facts)
    ensures MetricValue(f, "disk_used_pct") == Measured(MaxUsed(f.disks))
    ensures MetricValue(f, "inode_used_pct") == Measured(MaxInodes(f.disks))
    ensures MetricValue(f, "memory_used_pct") == Measured(f.memory)
    ensures MetricValue(f, "swap_used_pct") == Measured(f.swap)
    ensures MetricValue(f, "load_5") == Measured(f.load5)
    ensures MetricValue(f, "service_stopped") == Names(f.services)
    ensures MetricValue(f, "port_not_listening") == Names(f.ports)
  {
    hide MaxUsed, MaxInodes, Measured;
  }

  lemma NoMetric(f: Facts, metric: string)
    requires !NumberMetric(metric) && !ListMetric(metric)
    ensures MetricValue(f, metric) == Missing
  {
    hide MaxUsed, MaxInodes, Measured;
  }

  lemma NumberAnswers(f: Facts, r: Rule, x: Option<real>)
    requires MetricValue(f, r.metric) == Measured(x) && RuleStatus(f, r).Some?
    ensures AnswersNumber(x, r, RuleStatus(f, r).value)
  {
    hide MetricValue;
  }

  lemma ListAnswers(f: Facts, r: Rule, names: seq<string>)
    requires MetricValue(f, r.metric) == Names(names) && RuleStatus(f, r).Some?
    ensures AnswersList(names, r, RuleStatus(f, r).value)
  {
    hide MetricValue;
  }

  lemma RuleAnswers(f: Facts, r: Rule)
    requires RuleStatus(f, r).Some?
    ensures Answers(f, r, RuleStatus(f, r).value)
  {
    hide Greatest, MaxUsed, MaxInodes, MetricValue, Compare, AnswersNumber, AnswersList, Measured;
    MetricMeans(f);
    MaxUsedIsGreatest(f.disks);
    MaxInodesIsGreatest(f.disks);
    match r.metric
    case "disk_used_pct" => NumberAnswers(f, r, MaxUsed(f.disks));
    case "inode_used_pct" => NumberAnswers(f, r, MaxInodes(f.disks));
    case "memory_used_pct" => NumberAnswers(f, r, f.memory);
    case "swap_used_pct" => NumberAnswers(f, r, f.swap);
    case "load_5" => NumberAnswers(f, r, f.load5);
    case "service_stopped" => ListAnswers(f, r, f.services);
    case "port_not_listening" => ListAnswers(f, r, f.ports);
    case _ => NoMetric(f, r.metric);
  }

  // ---------- what evaluation answers ----------

  /** `top` is the worst of the statuses, never better than healthy. */
  predicate WorstOf(results: seq<RuleResult>, top: Level) {
    top.Rank() >= 1 && (forall x <- results :: x.status.Rank() <= top.Rank()) &&
    (top == Healthy || exists x <- results :: x.status == top)
  }

  lemma Ranks()
    ensures Unknown.Rank() == 0 && Healthy.Rank() == 1 && Warning.Rank() == 2 && Critical.Rank() == 3
  {
  }

  /** What evaluation answers when it does not raise. An unavailable host has one unknown result. On any
      other host there is exactly one result per enabled rule, in rule order, with that rule's own id
      and answer; the overall status is the worst of them, and unknown if there is none. */
  lemma EvaluationMeans(f: Facts, rules: seq<Rule>)
    requires Evaluate(f, rules).Assessed?
    ensures var results, overall := Evaluate(f, rules).results, Evaluate(f, rules).overall;
      if f.unavailable != "" then overall == Unknown && results == [RuleResult(0, Unknown)]
      else
        |results| == EnabledBefore(rules, |rules|) &&
        (forall k | 0 <= k < |rules| && rules[k].enabled ::
           EnabledBefore(rules, k) < |results| && results[EnabledBefore(rules, k)].rule == rules[k].id &&
           Answers(f, rules[k], results[EnabledBefore(rules, k)].status)) &&
        if results == [] then overall == Unknown else WorstOf(results, overall)
  {
    hide RuleStatus, Answers, EnabledBefore, Active;
    if f.unavailable == "" {
      var results := Evaluate(f, rules).results;
      ActiveSize(rules);
      WorstIsMaximum(results);
      forall k | 0 <= k < |rules| && rules[k].enabled
        ensures EnabledBefore(rules, k) < |results| && results[EnabledBefore(rules, k)].rule == rules[k].id
        ensures Answers(f, rules[k], results[EnabledBefore(rules, k)].status)
      {
        ActiveAt(rules, k);
        RuleAnswers(f, rules[k]);
      }
    }
  }

  /** An enabled rule asks of an available host what it cannot answer: membership of a number other than
      zero, or a severity that is no status although the rule fires. */
  predicate Unanswerable(f: Facts, r: Rule, top: Option<real>) {
    match top
    case None => false
    case Some(v) =>
      (r.operator in ["contains", "not_contains"] && v != 0.0) || (Satisfies(v, r) && r.severity.None?)
  }

  /** The reading of a number metric. */
  ghost predicate Reads(f: Facts, metric: string, x: Option<real>) {
    (metric == "disk_used_pct" && Greatest(UsedOf(f.disks), x)) ||
    (metric == "inode_used_pct" && Greatest(InodesOf(f.disks), x)) ||
    (metric == "memory_used_pct" && x == f.memory) || (metric == "swap_used_pct" && x == f.swap) ||
    (metric == "load_5" && x == f.load5)
  }

  /** A firing rule on a name list has no status to give. */
  predicate UnanswerableList(f: Facts, r: Rule) {
    r.severity.None? &&
    ((r.metric == "service_stopped" && Fires(f.services, r)) || (r.metric == "port_not_listening" && Fires(f.ports, r)))
  }

  predicate Fires(names: seq<string>, r: Rule) {
    (r.operator == "contains" && r.threshold.name in names) ||
    (r.operator == "not_contains" && r.threshold.name !in names)
  }

  /** The rule cannot be answered on the host. */
  ghost predicate CannotAnswer(f: Facts, r: Rule) {
    (exists x :: Reads(f, r.metric, x) && Unanswerable(f, r, x)) || UnanswerableList(f, r)
  }

  lemma NumberRaises(f: Facts, r: Rule, x: Option<real>)
    requires MetricValue(f, r.metric) == Measured(x)
    ensures Raises(f, r) <==> Unanswerable(f, r, x)
  {
    hide MetricValue;
  }

  lemma ListRaises(f: Facts, r: Rule, names: seq<string>)
    requires MetricValue(f, r.metric) == Names(names)
    ensures Raises(f, r) <==> r.severity.None? && Fires(names, r)
  {
    hide MetricValue;
  }

  lemma OneReading(f: Facts, r: Rule, x: Option<real>)
    requires Reads(f, r.metric, x) && (forall y :: Reads(f, r.metric, y) ==> y == x) && !UnanswerableList(f, r)
    ensures CannotAnswer(f, r) <==> Unanswerable(f, r, x)
  {
    hide Reads, Unanswerable, UnanswerableList;
  }

  lemma UsedIsRead(f: Facts)
    ensures Reads(f, "disk_used_pct", MaxUsed(f.disks))
    ensures forall y :: Reads(f, "disk_used_pct", y) ==> y == MaxUsed(f.disks)
  {
    hide Greatest, MaxUsed;
    MaxUsedIsGreatest(f.disks);
    forall y | Greatest(UsedOf(f.disks), y) ensures y == MaxUsed(f.disks) {
      GreatestIsUnique(UsedOf(f.disks), y, MaxUsed(f.disks));
    }
  }

  lemma InodesAreRead(f: Facts)
    ensures Reads(f, "inode_used_pct", MaxInodes(f.disks))
    ensures forall y :: Reads(f, "inode_used_pct", y) ==> y == MaxInodes(f.disks)
  {
    hide Greatest, MaxInodes;
    MaxInodesIsGreatest(f.disks);
    forall y | Greatest(InodesOf(f.disks), y) ensures y == MaxInodes(f.disks) {
      GreatestIsUnique(InodesOf(f.disks), y, MaxInodes(f.disks));
    }
  }

  lemma NumberRaisesMeans(f: Facts, r: Rule)
    requires NumberMetric(r.metric)
    ensures Raises(f, r) <==> CannotAnswer(f, r)
  {
    hide Greatest, MaxUsed, MaxInodes, MetricValue, Compare, Unanswerable, Fires, Measured, Raises, CannotAnswer;
    MetricMeans(f);
    var x := match r.metric
      case "disk_used_pct" => MaxUsed(f.disks)
      case "inode_used_pct" => MaxInodes(f.disks)
      case "memory_used_pct" => f.memory
      case "swap_used_pct" => f.swap
      case _ => f.load5;
    if r.metric == "disk_used_pct" { UsedIsRead(f); }
    if r.metric == "inode_used_pct" { InodesAreRead(f); }
    NumberRaises(f, r, x);
    OneReading(f, r, x);
  }

  lemma OtherRaisesMeans(f: Facts, r: Rule)
    requires !NumberMetric(r.metric)
    ensures Raises(f, r) <==> CannotAnswer(f, r)
  {
    hide Greatest, MaxUsed, MaxInodes, MetricValue, Compare, Unanswerable, Fires, Measured, Raises, CannotAnswer;
    MetricMeans(f);
    NothingRead(f, r);
    if r.metric == "service_stopped" {
      ListRaises(f, r, f.services);
    } else if r.metric == "port_not_listening" {
      ListRaises(f, r, f.ports);
    } else {
      NoMetric(f, r.metric);
      NothingRaises(f, r);
    }
  }

  lemma RaisesMeans(f: Facts, r: Rule)
    ensures Raises(f, r) <==> CannotAnswer(f, r)
  {
    hide Raises, CannotAnswer, NumberMetric;
    if NumberMetric(r.metric) { NumberRaisesMeans(f, r); } else { OtherRaisesMeans(f, r); }
  }

  lemma NothingRead(f: Facts, r: Rule)
    requires !NumberMetric(r.metric)
    ensures CannotAnswer(f, r) <==> UnanswerableList(f, r)
  {
    hide Greatest, Unanswerable, UnanswerableList;
  }

  lemma NothingRaises(f: Facts, r: Rule)
    requires MetricValue(f, r.metric) == Missing
    ensures !Raises(f, r)
  {
    hide MetricValue;
  }

  /** Evaluation raises exactly when the host is available and an enabled rule cannot be answered. */
  lemma EvaluationRaisesMeans(f: Facts, rules: seq<Rule>)
    ensures Evaluate(f, rules) == Raised <==>
            f.unavailable == "" && exists r <- rules :: r.enabled && CannotAnswer(f, r)
  {
    hide Raises, Evaluate, CannotAnswer;
    RaisedIff(f, rules);
    forall r: Rule ensures Raises(f, r) <==> CannotAnswer(f, r) { RaisesMeans(f, r); }
  }
}

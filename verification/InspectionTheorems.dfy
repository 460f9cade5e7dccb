/** Both ways of driving an inspection end alike, exactly when no evaluation raises. */
module InspectionTheorems {
  import opened Options
  import opened Lists
  import opened InspectionRules
  import opened InspectionDrivers

  // ---------- the rows either driver ends with ----------

  /** No earlier asset of the request is the same. */
  predicate IsFirst(assets: seq<nat>, k: nat)
    requires k < |assets|
  {
    forall j | 0 <= j < k :: assets[j] != assets[k]
  }

  /** Only the first row of an asset is ever written. */
  function WorkerRows(w: World, assets: seq<nat>): (rows: seq<Row>)
    ensures |rows| == |assets|
    ensures forall k: nat | k < |assets| ::
              rows[k] == if IsFirst(assets, k) then ByWorker(w, Fresh(assets[k])) else Fresh(assets[k])
  {
    seq(|assets|, k requires 0 <= k < |assets| =>
      if IsFirst(assets, k) then ByWorker(w, Fresh(assets[k])) else Fresh(assets[k]))
  }

  /** The rows line up with the request. */
  predicate Aligned(assets: seq<nat>, rows: seq<Row>) {
    |rows| == |assets| && forall k | 0 <= k < |rows| :: rows[k].asset == assets[k]
  }

  lemma FirstIsWhere(assets: seq<nat>, rows: seq<Row>, k: nat)
    requires Aligned(assets, rows) && k < |assets|
    ensures FirstOf(rows, assets[k]) <= k
    ensures FirstOf(rows, assets[k]) == k <==> IsFirst(assets, k)
  {
    var i := FirstOf(rows, assets[k]);
    assert i < |rows| ==> rows[i].asset == assets[i];
    if i < k { assert !IsFirst(assets, k); }
    assert rows[k].asset == assets[k];
  }

  /** Writing a finished or re-opened row again gives the same row. */
  lemma WriteIsStable(w: World, asset: nat)
    ensures var final := ByWorker(w, Fresh(asset));
      ByWorker(w, final) == final && ByWorker(w, final.(status := Running)) == final
  {
    hide Evaluate;
  }

  // ---------- what the workers keep ----------

  function Outstanding(s: State, asset: nat): nat { s.queue[asset] + s.collecting[asset] }

  /** A row is untouched, finished, or being worked on again; once nothing is outstanding, finished. */
  predicate RowInv(w: World, assets: seq<nat>, s: State, k: nat)
    requires k < |assets| && |s.rows| == |assets|
  {
    var row, start := s.rows[k], Fresh(assets[k]);
    var final := ByWorker(w, start);
    if !IsFirst(assets, k) then row == start
    else
      row in {start, final, final.(status := Running)} &&
      (Outstanding(s, assets[k]) == 0 ==> row == final) &&
      (NoDup(assets) && row.status != Running ==> Outstanding(s, assets[k]) == 0)
  }

  ghost predicate TaskInv(assets: seq<nat>, s: State) {
    forall x: nat :: (Outstanding(s, x) > 0 ==> x in assets) && (NoDup(assets) ==> Outstanding(s, x) <= 1)
  }

  /** Done is said only of a request without duplicates whose rows all have a verdict, and a quiet
      record says what the rows say. */
  predicate RecordInv(assets: seq<nat>, s: State) {
    (s.record.status == Done ==> NoDup(assets) && NoneRunning(s.rows)) &&
    (Quiet(s) ==> s.record == RecordOf(s.rows))
  }

  ghost predicate Inv(w: World, assets: seq<nat>, s: State) {
    assets != [] && Aligned(assets, s.rows) && (forall k: nat | k < |assets| :: RowInv(w, assets, s, k)) &&
    TaskInv(assets, s) && RecordInv(assets, s)
  }

  lemma {:induction false} DistinctCountsOnce(assets: seq<nat>, x: nat)
    requires NoDup(assets)
    ensures multiset(assets)[x] <= 1
  {
    if assets != [] {
      var init, last := assets[..|assets| - 1], assets[|assets| - 1];
      assert assets == init + [last];
      DistinctCountsOnce(init, x);
      if x == last { assert x !in init; }
    }
  }

  lemma InitInv(w: World, assets: seq<nat>)
    requires assets != []
    ensures Inv(w, assets, Collecting(assets))
  {
    hide ByWorker;
    var s := Collecting(assets);
    forall x: nat ensures NoDup(assets) ==> Outstanding(s, x) <= 1 {
      if NoDup(assets) { DistinctCountsOnce(assets, x); }
    }
    assert s.rows[0] in s.rows;
    assert multiset(assets)[assets[0]] > 0;
  }

  lemma DeliverRow(w: World, assets: seq<nat>, s: State, x: nat, k: nat)
    requires Inv(w, assets, s) && x in s.queue && k < |assets|
    ensures |Delivered(s, x).rows| == |assets| && Delivered(s, x).rows[k].asset == assets[k]
    ensures RowInv(w, assets, Delivered(s, x), k)
  {
    hide ByWorker, RecordInv;
    assert Outstanding(s, x) > 0;
    var i: nat :| i < |assets| && assets[i] == x;
    FirstIsWhere(assets, s.rows, i);
    FirstIsWhere(assets, s.rows, k);
    assert RowInv(w, assets, s, k);
  }

  lemma ReportRow(w: World, assets: seq<nat>, s: State, x: nat, k: nat)
    requires Inv(w, assets, s) && x in s.collecting && k < |assets|
    ensures |Reported(w, s, x).rows| == |assets| && Reported(w, s, x).rows[k].asset == assets[k]
    ensures RowInv(w, assets, Reported(w, s, x), k)
  {
    hide ByWorker, RecordInv;
    assert Outstanding(s, x) > 0;
    WriteIsStable(w, assets[k]);
    FirstIsWhere(assets, s.rows, k);
    assert RowInv(w, assets, s, k);
  }

  /** Once done, no worker is left to change a row. */
  lemma DoneIsOver(w: World, assets: seq<nat>, s: State, x: nat)
    requires Inv(w, assets, s) && s.record.status == Done
    ensures Outstanding(s, x) == 0
  {
    hide ByWorker;
    if Outstanding(s, x) > 0 {
      var i: nat :| i < |assets| && assets[i] == x;
      assert RowInv(w, assets, s, i);
      assert s.rows[i] in s.rows;
      assert IsFirst(assets, i);
    }
  }

  /** A request with duplicates has a row that no worker ever finds. */
  lemma DuplicateNeverRuns(w: World, assets: seq<nat>, s: State)
    requires Inv(w, assets, s) && !NoDup(assets)
    ensures !NoneRunning(s.rows)
  {
    hide ByWorker;
    var i, j :| 0 <= i < j < |assets| && assets[i] == assets[j];
    assert RowInv(w, assets, s, j);
    assert s.rows[j] in s.rows;
  }

  lemma RowStep(w: World, assets: seq<nat>, s: State, a: Action, k: nat)
    requires Inv(w, assets, s) && Enabled(s, a) && k < |assets|
    ensures |Step(w, s, a).rows| == |assets| && Step(w, s, a).rows[k].asset == assets[k]
    ensures RowInv(w, assets, Step(w, s, a), k)
  {
    hide ByWorker, RecordInv, Delivered, Reported;
    match a
    case Deliver(x) => DeliverRow(w, assets, s, x, k);
    case Report(x) => ReportRow(w, assets, s, x, k);
    case Reaggregate => assert RowInv(w, assets, s, k);
  }

  lemma TaskStep(w: World, assets: seq<nat>, s: State, a: Action)
    requires TaskInv(assets, s) && Enabled(s, a)
    ensures TaskInv(assets, Step(w, s, a))
  {
    hide ByWorker, FirstOf, NoDup;
    forall y: nat ensures Outstanding(Step(w, s, a), y) <= Outstanding(s, y) {}
  }

  lemma RecordStep(w: World, assets: seq<nat>, s: State, a: Action)
    requires Inv(w, assets, s) && Enabled(s, a)
    ensures RecordInv(assets, Step(w, s, a))
  {
    hide ByWorker, NoneRunning, RowInv, TaskInv, NoDup, Count;
    if s.record.status == Done && !a.Reaggregate? { DoneIsOver(w, assets, s, a.asset); }
    if !NoDup(assets) { DuplicateNeverRuns(w, assets, s); }
  }

  lemma InvStep(w: World, assets: seq<nat>, s: State, a: Action)
    requires Inv(w, assets, s) && Enabled(s, a)
    ensures Inv(w, assets, Step(w, s, a))
  {
    hide Step, RowInv, TaskInv, RecordInv;
    forall k: nat | k < |assets|
      ensures |Step(w, s, a).rows| == |assets| && Step(w, s, a).rows[k].asset == assets[k]
      ensures RowInv(w, assets, Step(w, s, a), k)
    {
      RowStep(w, assets, s, a, k);
    }
    RowStep(w, assets, s, a, 0);
    TaskStep(w, assets, s, a);
    RecordStep(w, assets, s, a);
  }

  lemma {:induction false} RunKeepsInv(w: World, assets: seq<nat>, s: State, acts: seq<Action>)
    requires Inv(w, assets, s) && Runs(w, s, acts)
    ensures Inv(w, assets, After(w, s, acts))
    decreases |acts|
  {
    if acts != [] {
      InvStep(w, assets, s, acts[0]);
      RunKeepsInv(w, assets, Step(w, s, acts[0]), acts[1..]);
    }
  }

  /** However workers interleave, a quiet inspection has the same rows and the record they amount to. */
  lemma WorkersAgree(w: World, assets: seq<nat>, acts: seq<Action>)
    requires assets != [] && Runs(w, Collecting(assets), acts) && Quiet(After(w, Collecting(assets), acts))
    ensures var s := After(w, Collecting(assets), acts);
      s.rows == WorkerRows(w, assets) && s.record == RecordOf(WorkerRows(w, assets))
  {
    InitInv(w, assets);
    RunKeepsInv(w, assets, Collecting(assets), acts);
    hide Runs, After;
    QuietRows(w, assets, After(w, Collecting(assets), acts));
  }

  lemma QuietRows(w: World, assets: seq<nat>, s: State)
    requires Inv(w, assets, s) && Quiet(s)
    ensures s.rows == WorkerRows(w, assets)
  {
    hide ByWorker, RecordInv, TaskInv, IsFirst;
    forall k: nat | k < |assets| ensures s.rows[k] == WorkerRows(w, assets)[k] { assert RowInv(w, assets, s, k); }
  }

  /** What a finished host row says: unknown for a host that could not be judged, with the reason, and
      otherwise the verdict of the rules on the facts stored beside it. */
  lemma FinishedRowMeans(w: World, assets: seq<nat>, acts: seq<Action>, k: nat)
    requires assets != [] && Runs(w, Collecting(assets), acts) && Quiet(After(w, Collecting(assets), acts))
    requires k < |assets| && IsFirst(assets, k) && !EvaluationRaises(w, assets[k])
    ensures var s := After(w, Collecting(assets), acts); var f := w.facts(assets[k]);
      |s.rows| == |assets| && var row := s.rows[k];
      row.asset == assets[k] && row.status.Judged? &&
      (row.status.level == Unknown <==>
         !w.decrypts(assets[k]) || f.unavailable != "" || forall r <- w.rules :: !r.enabled) &&
      (row.reason == NoReason <==> w.decrypts(assets[k]) && f.unavailable == "") &&
      (if w.decrypts(assets[k])
       then row.facts == Some(f) && row.results.Some? &&
            Evaluate(f, w.rules) == Assessed(row.status.level, row.results.value)
       else row.facts.None? && row.reason == DecryptFailed)
  {
    hide Runs, After, Evaluate;
    WorkersAgree(w, assets, acts);
    if w.decrypts(assets[k]) { UnknownIff(w.facts(assets[k]), w.rules); }
  }

  // ---------- quiescence ----------

  function Measure(s: State): nat { 3 * |s.queue| + 2 * |s.collecting| + s.finishing }

  lemma StepLowersMeasure(w: World, s: State, a: Action)
    requires Enabled(s, a)
    ensures Measure(Step(w, s, a)) < Measure(s)
  {
    hide ByWorker, Recomputed, FirstOf;
  }

  /** No run is longer than three steps per host, and a run that can go no further is quiet. */
  lemma {:induction false} RunsAreShort(w: World, s: State, acts: seq<Action>)
    requires Runs(w, s, acts)
    ensures |acts| + Measure(After(w, s, acts)) <= Measure(s)
    ensures (forall a: Action :: !Enabled(After(w, s, acts), a)) <==> Quiet(After(w, s, acts))
    decreases |acts|
  {
    if acts == [] {
      NothingEnabledIffQuiet(s);
    } else {
      StepLowersMeasure(w, s, acts[0]);
      RunsAreShort(w, Step(w, s, acts[0]), acts[1..]);
    }
  }

  lemma NothingEnabledIffQuiet(s: State)
    ensures (forall a: Action :: !Enabled(s, a)) <==> Quiet(s)
  {
    if s.queue != multiset{} {
      var x :| x in s.queue;
      assert Enabled(s, Deliver(x));
    } else if s.collecting != multiset{} {
      var x :| x in s.collecting;
      assert Enabled(s, Report(x));
    } else if s.finishing > 0 {
      assert Enabled(s, Reaggregate);
    }
  }

  // ---------- the loop ----------

  lemma {:induction false} LoopWrites(w: World, assets: seq<nat>, n: nat)
    requires n <= |assets|
    ensures var rows := LoopedAll(w, FreshRows(assets), assets[..n]);
      Aligned(assets, rows) && forall k: nat | k < |assets| ::
        rows[k] == if k < n && IsFirst(assets, k) then ByLoop(w, Fresh(assets[k])) else Fresh(assets[k])
  {
    hide ByLoop, IsFirst;
    if n > 0 {
      LoopWrites(w, assets, n - 1);
      var before := LoopedAll(w, FreshRows(assets), assets[..n - 1]);
      assert assets[..n][..n - 1] == assets[..n - 1];
      assert LoopedAll(w, FreshRows(assets), assets[..n]) == Looped(w, before, assets[n - 1]);
      hide LoopedAll;
      LoopWritesOne(w, assets, n - 1, before);
    }
  }

  lemma LoopWritesOne(w: World, assets: seq<nat>, n: nat, before: seq<Row>)
    requires n < |assets| && Aligned(assets, before)
    requires forall k: nat | k < |assets| ::
      before[k] == if k < n && IsFirst(assets, k) then ByLoop(w, Fresh(assets[k])) else Fresh(assets[k])
    ensures var rows := Looped(w, before, assets[n]);
      Aligned(assets, rows) && forall k: nat | k < |assets| ::
        rows[k] == if k < n + 1 && IsFirst(assets, k) then ByLoop(w, Fresh(assets[k])) else Fresh(assets[k])
  {
    hide ByLoop, IsFirst;
    FirstIsWhere(assets, before, n);
    LoopIsStable(w, assets[n]);
    var i := FirstOf(before, assets[n]);
    FirstIsWhere(assets, before, i);
  }

  lemma LoopIsStable(w: World, asset: nat)
    ensures ByLoop(w, ByLoop(w, Fresh(asset))) == ByLoop(w, Fresh(asset))
  {
    hide Evaluate;
  }

  lemma LoopLength(w: World, assets: seq<nat>)
    ensures |SyncRows(w, assets)| == |assets|
  {
    LoopWrites(w, assets, |assets|);
    assert assets[..|assets|] == assets;
  }

  lemma LoopEnds(w: World, assets: seq<nat>, k: nat)
    requires k < |assets|
    ensures |SyncRows(w, assets)| == |assets|
    ensures SyncRows(w, assets)[k] == if IsFirst(assets, k) then ByLoop(w, Fresh(assets[k])) else Fresh(assets[k])
  {
    LoopWrites(w, assets, |assets|);
    assert assets[..|assets|] == assets;
  }

  // ---------- the two drivers ----------

  lemma DriversDifferOnRow(w: World, asset: nat)
    ensures ByWorker(w, Fresh(asset)) == ByLoop(w, Fresh(asset)) <==> !EvaluationRaises(w, asset)
    ensures ByWorker(w, Fresh(asset)).status == Running <==> EvaluationRaises(w, asset)
  {
    hide Evaluate;
  }

  predicate NoneRaises(w: World, assets: seq<nat>) { forall x <- assets :: !EvaluationRaises(w, x) }

  /** Some first row is of an asset in the request. */
  lemma FirstExists(assets: seq<nat>, i: nat) returns (k: nat)
    requires i < |assets|
    ensures k <= i && assets[k] == assets[i] && IsFirst(assets, k)
  {
    k := 0;
    while assets[k] != assets[i]
      invariant k <= i && forall j | 0 <= j < k :: assets[j] != assets[i]
      decreases i - k
    {
      k := k + 1;
    }
  }

  lemma RowsAgreeIff(w: World, assets: seq<nat>)
    ensures WorkerRows(w, assets) == SyncRows(w, assets) <==> NoneRaises(w, assets)
  {
    hide EvaluationRaises, ByWorker, ByLoop, SyncRows, IsFirst;
    var rows, sync := WorkerRows(w, assets), SyncRows(w, assets);
    LoopLength(w, assets);
    forall k: nat | k < |assets|
      ensures rows[k] == sync[k] <==> !(IsFirst(assets, k) && EvaluationRaises(w, assets[k]))
    {
      LoopEnds(w, assets, k);
      DriversDifferOnRow(w, assets[k]);
    }
    if NoneRaises(w, assets) {
      assert rows == sync;
    } else {
      var i: nat :| i < |assets| && EvaluationRaises(w, assets[i]);
      var k := FirstExists(assets, i);
      assert rows[k] != sync[k];
    }
  }

  /** The inspection is done exactly when no asset is asked for twice and no evaluation raises. */
  lemma WorkersDoneIff(w: World, assets: seq<nat>)
    requires assets != []
    ensures NoneRunning(WorkerRows(w, assets)) <==> NoDup(assets) && NoneRaises(w, assets)
  {
    hide EvaluationRaises, ByWorker, IsFirst;
    var rows := WorkerRows(w, assets);
    forall k: nat | k < |assets|
      ensures rows[k] in rows
      ensures rows[k].status == Running <==> !IsFirst(assets, k) || EvaluationRaises(w, assets[k])
    {
      DriversDifferOnRow(w, assets[k]);
    }
    DistinctIffAllFirst(assets);
  }

  lemma DistinctIffAllFirst(assets: seq<nat>)
    ensures NoDup(assets) <==> forall k: nat | k < |assets| :: IsFirst(assets, k)
  {
    forall i, j | 0 <= i < j < |assets| && (forall k: nat | k < |assets| :: IsFirst(assets, k))
      ensures assets[i] != assets[j]
    {
      assert IsFirst(assets, j);
    }
  }

  lemma LoopDoneIff(w: World, assets: seq<nat>)
    requires assets != []
    ensures NoneRunning(SyncRows(w, assets)) <==> NoDup(assets)
  {
    hide ByLoop, IsFirst, SyncRows;
    var rows := SyncRows(w, assets);
    LoopLength(w, assets);
    forall k: nat | k < |assets|
      ensures rows[k] in rows
      ensures rows[k].status == Running <==> !IsFirst(assets, k)
    {
      LoopEnds(w, assets, k);
    }
    DistinctIffAllFirst(assets);
  }

  // ---------- counts ----------

  lemma {:induction false} CountsAddUp(rows: seq<Row>)
    ensures Count(rows, true) + Count(rows, false) == |rows|
  {
    if rows != [] { CountsAddUp(rows[..|rows| - 1]); }
  }

  /** More unknown rows, more counted. */
  lemma {:induction false} CountGrows(a: seq<Row>, b: seq<Row>)
    requires |a| == |b| && forall k | 0 <= k < |a| :: IsUnknown(a[k]) ==> IsUnknown(b[k])
    ensures Count(a, true) <= Count(b, true)
    ensures (exists k :: 0 <= k < |a| && IsUnknown(a[k]) != IsUnknown(b[k])) ==> Count(a, true) < Count(b, true)
  {
    if a != [] {
      CountGrows(a[..|a| - 1], b[..|b| - 1]);
      assert forall k | 0 <= k < |a| - 1 :: a[..|a| - 1][k] == a[k] && b[..|b| - 1][k] == b[k];
    }
  }

  lemma RaiseIsUnknownOnlyInLoop(w: World, asset: nat)
    ensures IsUnknown(ByWorker(w, Fresh(asset))) ==> IsUnknown(ByLoop(w, Fresh(asset)))
    ensures EvaluationRaises(w, asset) ==>
              !IsUnknown(ByWorker(w, Fresh(asset))) && IsUnknown(ByLoop(w, Fresh(asset)))
  {
    hide Evaluate;
  }

  /** A raise is counted as a success by the workers and as a failure by the loop. */
  lemma RecordsAgreeIff(w: World, assets: seq<nat>)
    ensures RecordOf(WorkerRows(w, assets)) == RecordOf(SyncRows(w, assets)) <==> NoneRaises(w, assets)
  {
    hide EvaluationRaises, ByWorker, ByLoop, SyncRows, IsFirst, Count, NoneRunning;
    RowsAgreeIff(w, assets);
    var rows, sync := WorkerRows(w, assets), SyncRows(w, assets);
    LoopLength(w, assets);
    if !NoneRaises(w, assets) {
      var i: nat :| i < |assets| && EvaluationRaises(w, assets[i]);
      var first := FirstExists(assets, i);
      forall k: nat | k < |assets|
        ensures IsUnknown(rows[k]) ==> IsUnknown(sync[k])
        ensures k == first ==> IsUnknown(rows[k]) != IsUnknown(sync[k])
      {
        LoopEnds(w, assets, k);
        RaiseIsUnknownOnlyInLoop(w, assets[k]);
      }
      CountGrows(rows, sync);
    }
  }

  /** However the workers interleave, they end with the rows and the record of the loop exactly when
      no evaluation raises; `done` is reached by the workers exactly when in addition no asset is
      asked for twice, and by the loop exactly when no asset is. */
  lemma DriversAgreeIff(w: World, assets: seq<nat>, acts: seq<Action>)
    requires assets != [] && Runs(w, Collecting(assets), acts) && Quiet(After(w, Collecting(assets), acts))
    ensures var s := After(w, Collecting(assets), acts);
      (s.rows == SyncRows(w, assets) <==> NoneRaises(w, assets)) &&
      (s.record == SyncRecord(w, assets) <==> NoneRaises(w, assets)) &&
      (s.record.status == Done <==> NoDup(assets) && NoneRaises(w, assets)) &&
      (SyncRecord(w, assets).status == Done <==> NoDup(assets))
  {
    hide Runs, After, SyncRows, NoneRaises, NoDup, NoneRunning, Count;
    WorkersAgree(w, assets, acts);
    RowsAgreeIff(w, assets);
    RecordsAgreeIff(w, assets);
    WorkersDoneIff(w, assets);
    LoopDoneIff(w, assets);
    LoopLength(w, assets);
  }

  /** With rules stored through `create_rule` and operators that fit their metrics, the drivers agree. */
  lemma FittingRulesAgree(w: World, assets: seq<nat>, acts: seq<Action>)
    requires assets != [] && Runs(w, Collecting(assets), acts) && Quiet(After(w, Collecting(assets), acts))
    requires forall r <- w.rules | r.enabled :: Fits(r)
    ensures var s := After(w, Collecting(assets), acts);
      s.rows == SyncRows(w, assets) && s.record == SyncRecord(w, assets)
  {
    hide Runs, After, SyncRows;
    forall x | x in assets ensures !EvaluationRaises(w, x) { FittingRulesNeverRaise(w.facts(x), w.rules); }
    DriversAgreeIff(w, assets, acts);
  }

  // ---------- which stored rules keep the drivers together ----------

  /** The workers can always be run to rest. */
  lemma RestCanBeReached(w: World, s: State) returns (acts: seq<Action>)
    ensures Runs(w, s, acts) && Quiet(After(w, s, acts))
    decreases Measure(s)
  {
    hide Step, Enabled, Quiet;
    if Quiet(s) {
      acts := [];
    } else {
      NothingEnabledIffQuiet(s);
      var a: Action :| Enabled(s, a);
      StepLowersMeasure(w, s, a);
      var rest := RestCanBeReached(w, Step(w, s, a));
      acts := [a] + rest;
      assert acts[1..] == rest;
    }
  }

  /** Whatever the hosts answer and however the workers interleave, both drivers end alike. */
  ghost predicate AlwaysAgree(rules: seq<Rule>, assets: seq<nat>) {
    forall w: World, acts: seq<Action> |
      w.rules == rules && Runs(w, Collecting(assets), acts) && Quiet(After(w, Collecting(assets), acts)) ::
      After(w, Collecting(assets), acts).rows == SyncRows(w, assets) &&
      After(w, Collecting(assets), acts).record == SyncRecord(w, assets)
  }

  /** All hosts answer the same facts. */
  function SameEverywhere(f: Facts, rules: seq<Rule>): World { World(_ => true, _ => f, rules) }

  /** A stored hazardous rule gives hosts on which the drivers differ in every run to rest. */
  lemma HazardSplitsDrivers(rules: seq<Rule>, assets: seq<nat>, r: Rule) returns (f: Facts)
    requires assets != [] && r in rules && r.enabled && Hazardous(r)
    ensures forall acts: seq<Action> |
      Runs(SameEverywhere(f, rules), Collecting(assets), acts) &&
      Quiet(After(SameEverywhere(f, rules), Collecting(assets), acts)) ::
      var s := After(SameEverywhere(f, rules), Collecting(assets), acts);
      s.rows != SyncRows(SameEverywhere(f, rules), assets) &&
      s.record != SyncRecord(SameEverywhere(f, rules), assets) && s.record.status != Done
  {
    hide Runs, After, Quiet, Hazardous, Raises, Evaluate, SyncRows, SyncRecord, NoDup;
    f := HazardHost(r);
    RaisedIff(f, rules);
    var w := SameEverywhere(f, rules);
    assert EvaluationRaises(w, assets[0]);
    forall acts: seq<Action> | Runs(w, Collecting(assets), acts) && Quiet(After(w, Collecting(assets), acts))
      ensures var s := After(w, Collecting(assets), acts);
        s.rows != SyncRows(w, assets) && s.record != SyncRecord(w, assets) && s.record.status != Done
    {
      DriversAgreeIff(w, assets, acts);
    }
  }

  /** The drivers agree on every host and in every run exactly if no enabled rule is hazardous, which
      can be checked when a rule is stored. */
  lemma AlwaysAgreeIff(rules: seq<Rule>, assets: seq<nat>)
    requires assets != []
    ensures AlwaysAgree(rules, assets) <==> forall r <- rules :: r.enabled ==> !Hazardous(r)
  {
    if r :| r in rules && r.enabled && Hazardous(r) {
      NotAlways(rules, assets, r);
    } else {
      forall w: World, acts: seq<Action> |
        w.rules == rules && Runs(w, Collecting(assets), acts) && Quiet(After(w, Collecting(assets), acts))
        ensures After(w, Collecting(assets), acts).rows == SyncRows(w, assets)
        ensures After(w, Collecting(assets), acts).record == SyncRecord(w, assets)
      {
        SafeRulesAgree(w, assets, acts);
      }
    }
  }

  lemma NotAlways(rules: seq<Rule>, assets: seq<nat>, r: Rule)
    requires assets != [] && r in rules && r.enabled && Hazardous(r)
    ensures !AlwaysAgree(rules, assets)
  {
    hide Runs, After, Quiet, Hazardous, SyncRows, SyncRecord;
    var f := HazardSplitsDrivers(rules, assets, r);
    var w := SameEverywhere(f, rules);
    var acts := RestCanBeReached(w, Collecting(assets));
  }

  lemma SafeRulesAgree(w: World, assets: seq<nat>, acts: seq<Action>)
    requires assets != [] && Runs(w, Collecting(assets), acts) && Quiet(After(w, Collecting(assets), acts))
    requires forall r <- w.rules :: r.enabled ==> !Hazardous(r)
    ensures var s := After(w, Collecting(assets), acts);
      s.rows == SyncRows(w, assets) && s.record == SyncRecord(w, assets)
  {
    hide Runs, After, Quiet, Hazardous, Raises, Evaluate, SyncRows, SyncRecord, NoDup;
    forall x | x in assets ensures !EvaluationRaises(w, x) {
      RaisedIff(w.facts(x), w.rules);
      forall r | r in w.rules && r.enabled ensures !Raises(w.facts(x), r) { NoHazardNoRaise(w.facts(x), r); }
    }
    DriversAgreeIff(w, assets, acts);
  }

  // ---------- the gauges ----------

  lemma {:induction false} GaugesAddUp(w: World, assets: seq<nat>)
    ensures Gauge(w, assets, Healthy) + Gauge(w, assets, Warning) + Gauge(w, assets, Critical) +
            Gauge(w, assets, Unknown) == |assets|
  {
    hide LoopLevel;
    if assets != [] { GaugesAddUp(w, assets[..|assets| - 1]); }
  }

  lemma {:induction false} GaugeCountsRows(w: World, assets: seq<nat>, rows: seq<Row>)
    requires |rows| == |assets| && forall k | 0 <= k < |rows| :: rows[k] == ByLoop(w, Fresh(assets[k]))
    ensures Gauge(w, assets, Unknown) == Count(rows, true)
  {
    hide ByLoop;
    if assets != [] {
      GaugeCountsRows(w, assets[..|assets| - 1], rows[..|rows| - 1]);
    }
  }

  /** For distinct assets the unknown gauge is the record's count of unknown hosts. */
  lemma GaugeAgreesWithRecord(w: World, assets: seq<nat>)
    requires NoDup(assets)
    ensures Gauge(w, assets, Unknown) == SyncRecord(w, assets).unknown
    ensures Gauge(w, assets, Healthy) + Gauge(w, assets, Warning) + Gauge(w, assets, Critical)
            == SyncRecord(w, assets).succeeded
  {
    hide ByLoop, SyncRows, Gauge, Count;
    LoopLength(w, assets);
    DistinctIffAllFirst(assets);
    forall k: nat | k < |assets| ensures SyncRows(w, assets)[k] == ByLoop(w, Fresh(assets[k])) {
      LoopEnds(w, assets, k);
    }
    GaugeCountsRows(w, assets, SyncRows(w, assets));
    GaugesAddUp(w, assets);
    CountsAddUp(SyncRows(w, assets));
  }
}

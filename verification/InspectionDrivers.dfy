/**
 One inspection, driven two ways: by one worker per host in any interleaving, or by a loop in
 the API process. Both write host rows and one record.
 */
module InspectionDrivers {
  import opened Options
  import opened Lists
  import opened InspectionRules

  datatype RowStatus = Running | Judged(level: Level)
  datatype Reason = NoReason | DecryptFailed | NotReached(why: string) | CollectionRaised

  datatype Row = Row(asset: nat, status: RowStatus, reason: Reason, facts: Option<Facts>,
                     results: Option<seq<RuleResult>>)

  datatype Progress = InProgress | Done
  datatype Record = Record(status: Progress, total: nat, succeeded: nat, failed: nat, unknown: nat)

  /** What a host answers and which rules are stored, the same for both drivers. */
  datatype World = World(decrypts: nat -> bool, facts: nat -> Facts, rules: seq<Rule>)

  // ---------- writing one row ----------

  predicate EvaluationRaises(w: World, asset: nat) {
    w.decrypts(asset) && Evaluate(w.facts(asset), w.rules) == Raised
  }

  /** The row after a host was handled without an exception. */
  function Handled(w: World, row: Row): (r: Row)
    requires !EvaluationRaises(w, row.asset)
    ensures r.status.Judged? && r.asset == row.asset
  {
    if !w.decrypts(row.asset) then row.(status := Judged(Unknown), reason := DecryptFailed)
    else
      var f := w.facts(row.asset);
      var verdict := Evaluate(f, w.rules);
      Row(row.asset, Judged(verdict.overall), if f.unavailable == "" then NoReason else NotReached(f.unavailable),
          Some(f), Some(verdict.results))
  }

  /** The worker has no exception path: a raise leaves the row as it is. */
  function ByWorker(w: World, row: Row): (r: Row)
    ensures r.asset == row.asset
  {
    if EvaluationRaises(w, row.asset) then row else Handled(w, row)
  }

  /** The loop catches a raise and reports the host unknown. */
  function ByLoop(w: World, row: Row): (r: Row)
    ensures r.asset == row.asset && r.status.Judged?
  {
    if EvaluationRaises(w, row.asset) then row.(status := Judged(Unknown), reason := CollectionRaised)
    else Handled(w, row)
  }

  function Fresh(asset: nat): Row { Row(asset, Running, NoReason, None, None) }

  function FreshRows(assets: seq<nat>): (rows: seq<Row>)
    ensures |rows| == |assets| && forall k | 0 <= k < |rows| :: rows[k] == Fresh(assets[k])
  {
    seq(|assets|, k requires 0 <= k < |assets| => Fresh(assets[k]))
  }

  /** `.first()` over the rows of the asset, or the number of rows. */
  function FirstOf(rows: seq<Row>, asset: nat): (k: nat)
    ensures k <= |rows| && (k < |rows| ==> rows[k].asset == asset)
    ensures forall j | 0 <= j < k :: rows[j].asset != asset
  {
    if rows == [] then 0 else if rows[0].asset == asset then 0 else 1 + FirstOf(rows[1..], asset)
  }

  // ---------- the record ----------

  predicate IsUnknown(row: Row) { row.status == Judged(Unknown) }

  /** Rows that are unknown, or that are not. */
  function Count(rows: seq<Row>, unknown: bool): nat {
    if rows == [] then 0
    else Count(rows[..|rows| - 1], unknown) + (if IsUnknown(rows[|rows| - 1]) == unknown then 1 else 0)
  }

  predicate NoneRunning(rows: seq<Row>) { forall row <- rows :: row.status != Running }

  /** `_recompute_record` */
  function Recomputed(record: Record, rows: seq<Row>): Record {
    Record(if NoneRunning(rows) && rows != [] then Done else record.status,
           |rows|, Count(rows, false), Count(rows, true), Count(rows, true))
  }

  /** The record that says what the rows say. */
  function RecordOf(rows: seq<Row>): Record { Recomputed(Record(InProgress, 0, 0, 0, 0), rows) }

  function NewRecord(assets: seq<nat>): Record { Record(InProgress, |assets|, 0, 0, 0) }

  // ---------- the worker driver ----------

  /** `finishing` counts workers that have committed their row and still have to re-aggregate. */
  datatype State = State(rows: seq<Row>, queue: multiset<nat>, collecting: multiset<nat>, finishing: nat,
                         record: Record)

  datatype Action = Deliver(asset: nat) | Report(asset: nat) | Reaggregate

  /** `collect`: one running row and one task per asset asked for. */
  function Collecting(assets: seq<nat>): State {
    State(FreshRows(assets), multiset(assets), multiset{}, 0, NewRecord(assets))
  }

  predicate Enabled(s: State, a: Action) {
    match a
    case Deliver(x) => x in s.queue
    case Report(x) => x in s.collecting
    case Reaggregate => s.finishing > 0
  }

  /** The worker marks its row running. */
  function Delivered(s: State, asset: nat): State {
    var k := FirstOf(s.rows, asset);
    s.(queue := s.queue - multiset{asset}, collecting := s.collecting + multiset{asset},
       rows := if k < |s.rows| then s.rows[k := s.rows[k].(status := Running)] else s.rows + [Fresh(asset)])
  }

  /** The worker's row after collection and evaluation. */
  function Reported(w: World, s: State, asset: nat): State {
    var k := FirstOf(s.rows, asset);
    s.(collecting := s.collecting - multiset{asset}, finishing := s.finishing + 1,
       rows := if k < |s.rows| then s.rows[k := ByWorker(w, s.rows[k])] else s.rows)
  }

  function Reaggregated(s: State): State
    requires s.finishing > 0
  {
    s.(finishing := s.finishing - 1, record := Recomputed(s.record, s.rows))
  }

  function Step(w: World, s: State, a: Action): State
    requires Enabled(s, a)
  {
    match a
    case Deliver(x) => Delivered(s, x)
    case Report(x) => Reported(w, s, x)
    case Reaggregate => Reaggregated(s)
  }

  predicate Runs(w: World, s: State, acts: seq<Action>)
    decreases |acts|
  {
    acts == [] || (Enabled(s, acts[0]) && Runs(w, Step(w, s, acts[0]), acts[1..]))
  }

  function After(w: World, s: State, acts: seq<Action>): State
    requires Runs(w, s, acts)
    decreases |acts|
  {
    if acts == [] then s else After(w, Step(w, s, acts[0]), acts[1..])
  }

  /** No task is outstanding and no re-aggregation is due. */
  predicate Quiet(s: State) { s.queue == multiset{} && s.collecting == multiset{} && s.finishing == 0 }

  // ---------- the loop driver ----------

  function Looped(w: World, rows: seq<Row>, asset: nat): seq<Row> {
    var k := FirstOf(rows, asset);
    if k < |rows| then rows[k := ByLoop(w, rows[k])] else rows
  }

  function LoopedAll(w: World, rows: seq<Row>, assets: seq<nat>): seq<Row> {
    if assets == [] then rows else Looped(w, LoopedAll(w, rows, assets[..|assets| - 1]), assets[|assets| - 1])
  }

  /** `collect_sync`: the rows it leaves. */
  function SyncRows(w: World, assets: seq<nat>): seq<Row> { LoopedAll(w, FreshRows(assets), assets) }

  function SyncRecord(w: World, assets: seq<nat>): Record { Recomputed(NewRecord(assets), SyncRows(w, assets)) }

  /** The status the loop reports for a host. */
  function LoopLevel(w: World, asset: nat): Level { ByLoop(w, Fresh(asset)).status.level }

  /** The gauge of one status: how many of the reported results have it. */
  function Gauge(w: World, assets: seq<nat>, level: Level): nat {
    if assets == [] then 0
    else Gauge(w, assets[..|assets| - 1], level) + (if LoopLevel(w, assets[|assets| - 1]) == level then 1 else 0)
  }
}

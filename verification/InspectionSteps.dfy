/** What each step of an inspection worker and each turn of the loop does, in any state. */
module InspectionSteps {
  import opened Options
  import opened InspectionRules
  import opened InspectionDrivers

  /** Position `k` holds the first row of the asset. */
  predicate FirstAt(rows: seq<Row>, asset: nat, k: nat) {
    k < |rows| && rows[k].asset == asset && forall j | 0 <= j < k :: rows[j].asset != asset
  }

  lemma FirstOfIsFirst(rows: seq<Row>, asset: nat)
    ensures forall k: nat :: FirstAt(rows, asset, k) ==> FirstOf(rows, asset) == k
    ensures (exists k: nat :: FirstAt(rows, asset, k)) <==> FirstOf(rows, asset) < |rows|
  {
    hide FirstOf;
    var i := FirstOf(rows, asset);
    if i < |rows| { assert FirstAt(rows, asset, i); }
    forall k: nat | FirstAt(rows, asset, k) ensures i == k { assert rows[k].asset == asset; }
  }

  /** The row of a host after it was inspected: unknown for credentials that cannot be decrypted; the
      verdict of the rules with the facts and results beside it, and the reason if the host was
      unavailable; and for an evaluation that raised, the row that is given. */
  predicate Inspected(w: World, row: Row, after: Row, raised: Row) {
    if !w.decrypts(row.asset) then after == row.(status := Judged(Unknown), reason := DecryptFailed)
    else
      var f := w.facts(row.asset);
      match Evaluate(f, w.rules)
      case Raised => after == raised
      case Assessed(overall, results) =>
        after == Row(row.asset, Judged(overall), if f.unavailable == "" then NoReason else NotReached(f.unavailable),
                     Some(f), Some(results))
  }

  /** A delivery takes the task, and the first row of the asset, or a new one, is running. */
  lemma DeliveryMeans(w: World, s: State, asset: nat)
    requires Enabled(s, Deliver(asset))
    ensures var t := Step(w, s, Deliver(asset));
      t == s.(queue := s.queue - multiset{asset}, collecting := s.collecting + multiset{asset}, rows := t.rows) &&
      (forall k: nat | FirstAt(s.rows, asset, k) :: t.rows == s.rows[k := s.rows[k].(status := Running)]) &&
      ((forall k: nat :: !FirstAt(s.rows, asset, k)) ==> t.rows == s.rows + [Row(asset, Running, NoReason, None, None)])
  {
    FirstOfIsFirst(s.rows, asset);
    hide FirstOf, FirstAt;
  }

  /** A worker writes the first row of its asset, leaves it alone if the evaluation raises, and has its
      re-aggregation still to do. */
  lemma ReportMeans(w: World, s: State, asset: nat)
    requires Enabled(s, Report(asset))
    ensures var t := Step(w, s, Report(asset));
      t == s.(collecting := s.collecting - multiset{asset}, finishing := s.finishing + 1, rows := t.rows) &&
      (forall k: nat | FirstAt(s.rows, asset, k) ::
         |t.rows| == |s.rows| && Inspected(w, s.rows[k], t.rows[k], s.rows[k]) && t.rows == s.rows[k := t.rows[k]]) &&
      ((forall k: nat :: !FirstAt(s.rows, asset, k)) ==> t.rows == s.rows)
  {
    FirstOfIsFirst(s.rows, asset);
    hide FirstOf, FirstAt, Evaluate;
  }

  /** One turn of the loop writes the first row of its asset, unknown if the evaluation raises. */
  lemma TurnMeans(w: World, rows: seq<Row>, asset: nat)
    ensures var after := Looped(w, rows, asset);
      (forall k: nat | FirstAt(rows, asset, k) ::
         |after| == |rows| && after == rows[k := after[k]] &&
         Inspected(w, rows[k], after[k], rows[k].(status := Judged(Unknown), reason := CollectionRaised))) &&
      ((forall k: nat :: !FirstAt(rows, asset, k)) ==> after == rows)
  {
    FirstOfIsFirst(rows, asset);
    hide FirstOf, FirstAt, Evaluate;
  }

  /** The loop takes the assets one after the other, from one running row each. */
  lemma LoopMeans(w: World, assets: seq<nat>, next: nat)
    ensures SyncRows(w, []) == []
    ensures forall k | 0 <= k < |assets| :: FreshRows(assets)[k] == Row(assets[k], Running, NoReason, None, None)
    ensures |FreshRows(assets)| == |assets| && SyncRows(w, assets) == LoopedAll(w, FreshRows(assets), assets)
    ensures LoopedAll(w, FreshRows(assets), []) == FreshRows(assets)
    ensures forall rows: seq<Row> :: LoopedAll(w, rows, assets + [next]) == Looped(w, LoopedAll(w, rows, assets), next)
  {
    assert (assets + [next])[..|assets|] == assets;
  }

  // ---------- what a record counts ----------

  /** The positions of the rows that are unknown, or of those that are not. */
  function RowsSuch(rows: seq<Row>, unknown: bool): set<nat> {
    set k: nat | k < |rows| && (rows[k].status == Judged(Unknown)) == unknown
  }

  lemma {:induction false} CountIsSize(rows: seq<Row>, unknown: bool)
    ensures Count(rows, unknown) == |RowsSuch(rows, unknown)|
  {
    if rows != [] {
      var n := |rows| - 1;
      CountIsSize(rows[..n], unknown);
      assert forall k: nat | k < n :: rows[..n][k] == rows[k];
      if (rows[n].status == Judged(Unknown)) == unknown {
        assert RowsSuch(rows, unknown) == RowsSuch(rows[..n], unknown) + {n};
      } else {
        assert RowsSuch(rows, unknown) == RowsSuch(rows[..n], unknown);
      }
    }
  }

  /** A re-aggregation counts all rows, the unknown ones as failed and unknown and every other one as
      succeeded, and says done once there are rows and none of them is running. */
  lemma RecordMeans(record: Record, rows: seq<Row>)
    ensures var unknown := |RowsSuch(rows, true)|;
      Recomputed(record, rows) ==
        Record(if rows != [] && forall k | 0 <= k < |rows| :: rows[k].status != Running then Done else record.status,
               |rows|, |RowsSuch(rows, false)|, unknown, unknown)
  {
    CountIsSize(rows, true);
    CountIsSize(rows, false);
    hide Count;
    assert forall k | 0 <= k < |rows| :: rows[k] in rows;
  }

  lemma ReaggregationMeans(w: World, s: State, assets: seq<nat>)
    ensures s.finishing > 0 ==>
              Step(w, s, Reaggregate) == s.(finishing := s.finishing - 1, record := Recomputed(s.record, s.rows))
    ensures NewRecord(assets) == Record(InProgress, |assets|, 0, 0, 0)
    ensures SyncRecord(w, assets) == Recomputed(NewRecord(assets), SyncRows(w, assets))
    ensures Collecting(assets) == State(FreshRows(assets), multiset(assets), multiset{}, 0, NewRecord(assets))
  {
  }

  // ---------- the gauges ----------

  /** The status the loop reports for an asset. */
  predicate Reports(w: World, asset: nat, level: Level) {
    if !w.decrypts(asset) || Evaluate(w.facts(asset), w.rules).Raised? then level == Unknown
    else level == Evaluate(w.facts(asset), w.rules).overall
  }

  /** The positions of the request whose asset is reported so. */
  function ReportedAs(w: World, assets: seq<nat>, level: Level): set<nat> {
    set k: nat | k < |assets| && Reports(w, assets[k], level)
  }

  lemma LevelMeans(w: World, asset: nat, level: Level)
    ensures LoopLevel(w, asset) == level <==> Reports(w, asset, level)
  {
    hide Evaluate;
  }

  /** Each gauge is the number of assets of the request reported with its status. */
  lemma {:induction false} GaugeMeans(w: World, assets: seq<nat>, level: Level)
    ensures Gauge(w, assets, level) == |ReportedAs(w, assets, level)|
  {
    hide LoopLevel, Reports;
    if assets != [] {
      var n := |assets| - 1;
      GaugeMeans(w, assets[..n], level);
      LevelMeans(w, assets[n], level);
      assert forall k: nat | k < n :: assets[..n][k] == assets[k];
      if Reports(w, assets[n], level) {
        assert ReportedAs(w, assets, level) == ReportedAs(w, assets[..n], level) + {n};
      } else {
        assert ReportedAs(w, assets, level) == ReportedAs(w, assets[..n], level);
      }
    }
  }
}

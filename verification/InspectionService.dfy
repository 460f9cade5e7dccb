/** The inspection worker and the inspection loop as they run: rows and record updated in place. */
module InspectionService {
  import opened Options
  import opened InspectionRules
  import opened InspectionDrivers

  lemma CountPrefix(rows: seq<Row>, i: nat, unknown: bool)
    requires i < |rows|
    ensures Count(rows[..i + 1], unknown)
            == Count(rows[..i], unknown) + (if IsUnknown(rows[i]) == unknown then 1 else 0)
  {
    assert rows[..i + 1][..i] == rows[..i];
  }

  lemma LoopPrefix(w: World, rows: seq<Row>, assets: seq<nat>, i: nat)
    requires i < |assets|
    ensures LoopedAll(w, rows, assets[..i + 1]) == Looped(w, LoopedAll(w, rows, assets[..i]), assets[i])
  {
    assert assets[..i + 1][..i] == assets[..i];
  }

  lemma GaugePrefix(w: World, assets: seq<nat>, i: nat, level: Level)
    requires i < |assets|
    ensures Gauge(w, assets[..i + 1], level)
            == Gauge(w, assets[..i], level) + (if LoopLevel(w, assets[i]) == level then 1 else 0)
  {
    assert assets[..i + 1][..i] == assets[..i];
  }

  class Inspection {
    var rows: seq<Row>
    var queue: multiset<nat>
    var collecting: multiset<nat>
    var finishing: nat
    var record: Record

    ghost function View(): State
      reads this
    {
      State(rows, queue, collecting, finishing, record)
    }

    /** `collect` after validation. */
    constructor Collect(assets: seq<nat>)
      ensures View() == Collecting(assets)
    {
      rows, queue, collecting, finishing := FreshRows(assets), multiset(assets), multiset{}, 0;
      record := NewRecord(assets);
    }

    method FindRow(asset: nat) returns (k: nat)
      ensures k == FirstOf(rows, asset)
    {
      k := 0;
      while k < |rows| && rows[k].asset != asset
        invariant k <= |rows| && forall j | 0 <= j < k :: rows[j].asset != asset
      {
        k := k + 1;
      }
    }

    /** `inspect_host` up to the commit of `running`. */
    method MarkRunning(asset: nat)
      requires asset in queue
      modifies this`rows, this`queue, this`collecting
      ensures View() == Delivered(old(View()), asset)
    {
      hide FirstOf;
      var k := FindRow(asset);
      rows := if k < |rows| then rows[k := rows[k].(status := Running)] else rows + [Fresh(asset)];
      queue := queue - multiset{asset};
      collecting := collecting + multiset{asset};
    }

    /** The rest of `inspect_host` before re-aggregation. */
    method InspectHost(w: World, asset: nat)
      requires asset in collecting
      modifies this`rows, this`collecting, this`finishing
      ensures View() == Reported(w, old(View()), asset)
    {
      hide FirstOf, Evaluate;
      var k := FindRow(asset);
      if k < |rows| {
        var row := rows[k];
        if !w.decrypts(asset) {
          rows := rows[k := row.(status := Judged(Unknown), reason := DecryptFailed)];
        } else {
          var facts := w.facts(asset);
          var outcome := EvaluateRules(facts, w.rules);
          if outcome.Assessed? {
            var reason := if facts.unavailable == "" then NoReason else NotReached(facts.unavailable);
            rows := rows[k := Row(asset, Judged(outcome.overall), reason, Some(facts), Some(outcome.results))];
          }
        }
      }
      collecting := collecting - multiset{asset};
      finishing := finishing + 1;
    }

    /** `_recompute_record` */
    method Recompute()
      modifies this`record
      ensures record == Recomputed(old(record), rows)
    {
      hide Count;
      var known, unknown, running := 0, 0, false;
      assert forall b: bool :: Count(rows[..0], b) == 0 by { CountNothing(rows); }
      for i := 0 to |rows|
        invariant record == old(record)
        invariant known == Count(rows[..i], false) && unknown == Count(rows[..i], true)
        invariant running <==> exists j :: 0 <= j < i && rows[j].status == Running
      {
        CountPrefix(rows, i, false);
        CountPrefix(rows, i, true);
        if IsUnknown(rows[i]) { unknown := unknown + 1; } else { known := known + 1; }
        if rows[i].status == Running { running := true; }
      }
      assert rows[..|rows|] == rows;
      record := Record(if !running && rows != [] then Done else record.status, |rows|, known, unknown, unknown);
    }

    method Reaggregate()
      requires finishing > 0
      modifies this`record, this`finishing
      ensures View() == Reaggregated(old(View()))
    {
      hide Recomputed;
      finishing := finishing - 1;
      Recompute();
    }

    /** One turn of the loop of `collect_sync`; the result is the status it reports. */
    method InspectInLoop(w: World, asset: nat) returns (level: Level)
      modifies this`rows
      ensures rows == Looped(w, old(rows), asset)
      ensures level == LoopLevel(w, asset)
    {
      hide FirstOf, Evaluate;
      var k := FindRow(asset);
      var row := if k < |rows| then rows[k] else Fresh(asset);
      if !w.decrypts(asset) {
        row := row.(status := Judged(Unknown), reason := DecryptFailed);
      } else {
        var facts := w.facts(asset);
        var outcome := EvaluateRules(facts, w.rules);
        match outcome
        case Raised => row := row.(status := Judged(Unknown), reason := CollectionRaised);
        case Assessed(overall, results) =>
          var reason := if facts.unavailable == "" then NoReason else NotReached(facts.unavailable);
          row := Row(asset, Judged(overall), reason, Some(facts), Some(results));
      }
      if k < |rows| { rows := rows[k := row]; }
      level := row.status.level;
    }

    /** `collect_sync`: rows, record and the four gauges. */
    method CollectSync(w: World, assets: seq<nat>) returns (healthy: nat, warning: nat, critical: nat, unknown: nat)
      modifies this`rows, this`record
      ensures rows == SyncRows(w, assets) && record == SyncRecord(w, assets)
      ensures healthy == Gauge(w, assets, Healthy) && warning == Gauge(w, assets, Warning)
      ensures critical == Gauge(w, assets, Critical) && unknown == Gauge(w, assets, Unknown)
    {
      hide Looped, LoopLevel, Recomputed;
      rows, record := FreshRows(assets), NewRecord(assets);
      healthy, warning, critical, unknown := 0, 0, 0, 0;
      for i := 0 to |assets|
        invariant record == NewRecord(assets) && rows == LoopedAll(w, FreshRows(assets), assets[..i])
        invariant healthy == Gauge(w, assets[..i], Healthy) && warning == Gauge(w, assets[..i], Warning)
        invariant critical == Gauge(w, assets[..i], Critical) && unknown == Gauge(w, assets[..i], Unknown)
      {
        LoopPrefix(w, FreshRows(assets), assets, i);
        forall l: Level ensures Gauge(w, assets[..i + 1], l)
                                == Gauge(w, assets[..i], l) + (if LoopLevel(w, assets[i]) == l then 1 else 0)
        {
          GaugePrefix(w, assets, i, l);
        }
        var level := InspectInLoop(w, assets[i]);
        match level
        case Healthy => healthy := healthy + 1;
        case Warning => warning := warning + 1;
        case Critical => critical := critical + 1;
        case Unknown => unknown := unknown + 1;
      }
      assert assets[..|assets|] == assets;
      Recompute();
    }
  }

  lemma CountNothing(rows: seq<Row>)
    ensures forall b: bool :: Count(rows[..0], b) == 0
  {
  }
}

/** What a batch request has to be like for its promises to hold, and runs of the others. */
module ExecWitnesses {
  import opened Lists
  import opened ExecProtocol
  import opened ExecInvariant
  import opened ExecSafety
  import opened ExecTheorems

  lemma RunsOn(s: State, a: Action, rest: seq<Action>)
    requires Enabled(s, a) && Runs(Step(s, a), rest)
    ensures Runs(s, [a] + rest) && After(s, [a] + rest) == After(Step(s, a), rest)
  {
    hide Enabled, Step;
    assert ([a] + rest)[1..] == rest;
  }

  lemma NoMore(s: State)
    ensures Runs(s, []) && After(s, []) == s
  {
  }

  // ---------- requests that name an asset twice ----------

  /** A request the API accepts, whatever it names twice. */
  predicate Acceptable(assets: set<nat>, ids: seq<nat>) {
    1 <= |ids| <= BATCH_MAX_ASSETS && forall x <- ids :: x in assets
  }

  function Requested(assets: set<nat>, user: string, ids: seq<nat>): State {
    Submitted(Init(assets), Submit(user, "", ids, true))
  }

  lemma RequestedIs(assets: set<nat>, user: string, ids: seq<nat>)
    requires Acceptable(assets, ids)
    ensures var s := Requested(assets, user, ids);
      Inv(s) && |s.batches| == 1 && s.batches[0].assets == ids && s.assets == assets && s.drafts == {0} &&
      s.rows == [] &&
      s.outbox == multiset{} && s.queue == multiset{} && s.executing == multiset{}
  {
    hide Inv;
    InitInv(assets);
    InvStep(Init(assets), Submit(user, "", ids, true));
  }

  lemma {:induction false} FiledTwice(rows: seq<Row>, i: nat, j: nat)
    requires i < j < |rows| && rows[i].task == rows[j].task
    ensures TasksOf(rows)[rows[i].task] >= 2
  {
    var front := rows[..|rows| - 1];
    if j < |front| {
      FiledTwice(front, i, j);
    } else {
      TasksOfMembers(front, rows[i].task);
      assert front[i].task == rows[i].task;
    }
  }

  function FirstSuccess(t: Task): seq<Action> {
    [FileRows(t.rec)] + ([Send(t)] + ([Send(t)] + ([Deliver(t)] + ([Report(t, true)] + []))))
  }

  /** A task that is queued twice: the first delivery succeeds, the second finds the same row. */
  lemma DeliveredTwice(s: State, t: Task) returns (k: nat)
    requires s.queue[t] >= 2 && t.rec < |s.batches| && t.asset in s.assets && FirstRow(s.rows, t) < |s.rows|
    ensures Runs(s, [Deliver(t)] + ([Report(t, true)] + []))
    ensures var u := After(s, [Deliver(t)] + ([Report(t, true)] + []));
      k < |u.rows| && u.rows[k] == Row(t, Succeeded) && Undelivered(u, t) > 0 && Runs(u, [Deliver(t)] + []) &&
      k < |After(u, [Deliver(t)] + []).rows| && After(u, [Deliver(t)] + []).rows[k].status == Running
  {
    hide Runs, After, FirstRow;
    k := FirstRow(s.rows, t);
    var s1 := Delivered(s, t);
    SameTasksSameFirst(s.rows, s1.rows, t);
    var s2 := Reported(s1, t, true);
    SameTasksSameFirst(s.rows, s2.rows, t);
    var s3 := Delivered(s2, t);
    NoMore(s3);
    RunsOn(s2, Deliver(t), []);
    NoMore(s2);
    RunsOn(s1, Report(t, true), []);
    RunsOn(s, Deliver(t), [Report(t, true)] + []);
  }

  lemma SentTwice(s: State, t: Task)
    requires s.outbox[t] >= 2
    ensures Enabled(s, Send(t)) && Enabled(Sent(s, t), Send(t))
    ensures var u := Sent(Sent(s, t), t);
      u.queue[t] >= 2 && u.batches == s.batches && u.assets == s.assets && u.rows == s.rows
  {
  }

  lemma FiledRows(s: State, ids: seq<nat>, i: nat, j: nat)
    requires |s.batches| == 1 && s.batches[0].assets == ids && s.rows == [] && s.outbox == multiset{}
    requires i < j < |ids| && ids[i] == ids[j]
    ensures var u, t := WithRows(s, 0), Task(0, ids[i]);
      u.batches == s.batches && u.assets == s.assets && FirstRow(u.rows, t) < |u.rows| && u.outbox[t] >= 2
  {
    hide TasksOf, FirstRow;
    var filed := FreshRows(0, ids);
    FiledTwice(filed, i, j);
    TasksOfMembers(filed, Task(0, ids[i]));
    assert s.rows + filed == filed;
  }

  /** The host's first task succeeds; its second one then finds the same row and runs it again. */
  lemma RunsTwice(assets: set<nat>, user: string, ids: seq<nat>, i: nat, j: nat) returns (k: nat)
    requires Acceptable(assets, ids) && i < j < |ids| && ids[i] == ids[j]
    ensures var s0, t := Requested(assets, user, ids), Task(0, ids[i]);
      Runs(s0, FirstSuccess(t)) &&
      var s := After(s0, FirstSuccess(t));
      k < |s.rows| && s.rows[k] == Row(t, Succeeded) && Undelivered(s, t) > 0 && Runs(s, [Deliver(t)] + []) &&
      k < |After(s, [Deliver(t)] + []).rows| && After(s, [Deliver(t)] + []).rows[k].status == Running
  {
    hide Runs, After, Inv, WithRows, Sent, FirstRow, Requested;
    RequestedIs(assets, user, ids);
    var s0, t := Requested(assets, user, ids), Task(0, ids[i]);
    assert ids[i] in ids;
    FiledRows(s0, ids, i, j);
    var s1 := WithRows(s0, 0);
    SentTwice(s1, t);
    var s2 := Sent(s1, t);
    k := DeliveredTwice(Sent(s2, t), t);
    var rest := [Deliver(t)] + ([Report(t, true)] + []);
    RunsOn(s2, Send(t), rest);
    RunsOn(s1, Send(t), [Send(t)] + rest);
    RunsOn(s0, FileRows(0), [Send(t)] + ([Send(t)] + rest));
  }

  /** In every run the rows of the request match their tasks. */
  ghost predicate AlwaysMatches(s0: State) {
    forall acts: seq<Action>, k: nat |
      Runs(s0, acts) && k < |After(s0, acts).rows| && After(s0, acts).rows[k].task.rec == 0 ::
      RowMatches(After(s0, acts), k)
  }

  /** In every run a host of the request that succeeded stays as it is. */
  ghost predicate SuccessStays(s0: State) {
    forall acts: seq<Action>, more: seq<Action>, k: nat |
      Runs(s0, acts) && Runs(After(s0, acts), more) && k < |After(s0, acts).rows| &&
      After(s0, acts).rows[k].task.rec == 0 && After(s0, acts).rows[k].status == Succeeded ::
      k < |After(After(s0, acts), more).rows| && After(After(s0, acts), more).rows[k] == After(s0, acts).rows[k]
  }

  lemma StaysDistinct(assets: set<nat>, user: string, ids: seq<nat>, acts: seq<Action>)
    requires Acceptable(assets, ids) && NoDup(ids) && Runs(Requested(assets, user, ids), acts)
    ensures Inv(After(Requested(assets, user, ids), acts)) && Distinct(After(Requested(assets, user, ids), acts), 0)
  {
    hide Inv, Runs, After, Requested;
    RequestedIs(assets, user, ids);
    RunKeepsInv(Requested(assets, user, ids), acts);
    AssetsStayInRun(Requested(assets, user, ids), acts, 0);
  }

  /** Rows and tasks of an accepted request match in every run exactly if no asset is named twice. */
  lemma AlwaysMatchesIff(assets: set<nat>, user: string, ids: seq<nat>)
    requires Acceptable(assets, ids)
    ensures AlwaysMatches(Requested(assets, user, ids)) <==> NoDup(ids)
  {
    hide Runs, After, RowMatches, Requested, Inv, Acceptable;
    var s0 := Requested(assets, user, ids);
    if NoDup(ids) {
      forall acts: seq<Action>, k: nat |
        Runs(s0, acts) && k < |After(s0, acts).rows| && After(s0, acts).rows[k].task.rec == 0
        ensures RowMatches(After(s0, acts), k)
      {
        StaysDistinct(assets, user, ids, acts);
        DistinctMatches(After(s0, acts), k);
      }
    } else {
      var i, j :| 0 <= i < j < |ids| && ids[i] == ids[j];
      var k := RunsTwice(assets, user, ids, i, j);
      var s := After(s0, FirstSuccess(Task(0, ids[i])));
      SucceededWithTask(s, k);
    }
  }

  lemma DistinctMatches(s: State, k: nat)
    requires Inv(s) && k < |s.rows| && Distinct(s, s.rows[k].task.rec)
    ensures RowMatches(s, k)
  {
    hide Linked, UniqueKeys, BatchesInv, Distinct;
    assert RowInv(s, k);
  }

  lemma SucceededWithTask(s: State, k: nat)
    requires k < |s.rows| && s.rows[k].status == Succeeded && Undelivered(s, s.rows[k].task) > 0
    ensures !RowMatches(s, k)
  {
  }

  /** A success is final in every run exactly if no asset is named twice. */
  lemma SuccessStaysIff(assets: set<nat>, user: string, ids: seq<nat>)
    requires Acceptable(assets, ids)
    ensures SuccessStays(Requested(assets, user, ids)) <==> NoDup(ids)
  {
    hide Runs, After, Requested, Inv, Acceptable, Distinct;
    var s0 := Requested(assets, user, ids);
    if NoDup(ids) {
      forall acts: seq<Action>, more: seq<Action>, k: nat |
        Runs(s0, acts) && Runs(After(s0, acts), more) && k < |After(s0, acts).rows| &&
        After(s0, acts).rows[k].task.rec == 0 && After(s0, acts).rows[k].status == Succeeded
        ensures k < |After(After(s0, acts), more).rows|
        ensures After(After(s0, acts), more).rows[k] == After(s0, acts).rows[k]
      {
        StaysDistinct(assets, user, ids, acts);
        SuccessIsFinal(After(s0, acts), more, k);
      }
    } else {
      var i, j :| 0 <= i < j < |ids| && ids[i] == ids[j];
      var k := RunsTwice(assets, user, ids, i, j);
    }
  }

  // ---------- assets deleted before their task arrives ----------

  lemma {:induction false} StrandedStays(s: State, acts: seq<Action>, t: Task)
    requires Runs(s, acts) && t in s.stranded
    ensures t in After(s, acts).stranded
    decreases |acts|
  {
    hide Enabled;
    if acts != [] {
      StrandedByStep(s, acts[0], t);
      StrandedStays(Step(s, acts[0]), acts[1..], t);
    }
  }

  lemma StrandedByStep(s: State, a: Action, t: Task)
    requires Enabled(s, a) && t in s.stranded
    ensures t in Step(s, a).stranded
  {
    hide Accepts, TrueCounts, FailedTasks, Requeued, Count, RowsRunning, SetStatus, TasksOf;
  }

  /** A batch one of whose tasks was delivered after its asset had been deleted never finishes. */
  lemma StrandedNeverFinishes(s: State, acts: seq<Action>, t: Task)
    requires Inv(s) && Runs(s, acts) && t in s.stranded
    ensures var u := After(s, acts); t.rec < |u.batches| && u.batches[t.rec].status == InProgress
  {
    hide Runs, After;
    StrandedStays(s, acts, t);
    RunKeepsInv(s, acts);
    StrandedIsOpen(After(s, acts), t);
  }

  lemma StrandedIsOpen(s: State, t: Task)
    requires Inv(s) && t in s.stranded
    ensures t.rec < |s.batches| && s.batches[t.rec].status == InProgress
  {
    hide UniqueKeys, RowsInv, BatchInv, Outstanding;
    assert HasRow(s, t);
    if s.batches[t.rec].status != InProgress { FinishedIsQuiet(s, t.rec); }
  }

  function Stranding(x: nat): seq<Action> {
    [FileRows(0)] + ([Send(Task(0, x))] + ([RemoveAsset(x)] + ([Deliver(Task(0, x))] + [])))
  }

  lemma RemovedThenDelivered(s: State, t: Task)
    requires t in s.queue && t.rec < |s.batches|
    ensures Runs(s, [RemoveAsset(t.asset)] + ([Deliver(t)] + []))
    ensures t in After(s, [RemoveAsset(t.asset)] + ([Deliver(t)] + [])).stranded
  {
    hide Runs, After;
    var s1 := Step(s, RemoveAsset(t.asset));
    var s2 := Delivered(s1, t);
    NoMore(s2);
    RunsOn(s1, Deliver(t), []);
    RunsOn(s, RemoveAsset(t.asset), [Deliver(t)] + []);
  }

  lemma FiledOne(s: State, x: nat)
    requires |s.batches| == 1 && s.batches[0].assets == [x] && s.rows == [] && s.outbox == multiset{}
    ensures WithRows(s, 0).batches == s.batches && Task(0, x) in WithRows(s, 0).outbox
  {
    hide TasksOf, FirstRow;
    var filed := FreshRows(0, [x]);
    assert filed[0] == Row(Task(0, x), Queued);
    TasksOfMembers(filed, Task(0, x));
  }

  /** A request for one existing asset that is deleted between dispatch and delivery. */
  lemma DeletedAssetStrands(assets: set<nat>, user: string, x: nat)
    requires x in assets
    ensures Runs(Requested(assets, user, [x]), Stranding(x))
    ensures Task(0, x) in After(Requested(assets, user, [x]), Stranding(x)).stranded
    ensures Inv(After(Requested(assets, user, [x]), Stranding(x)))
  {
    hide Runs, After, Inv, WithRows, Requested;
    RequestedIs(assets, user, [x]);
    var s0, t := Requested(assets, user, [x]), Task(0, x);
    FiledOne(s0, x);
    var s1 := WithRows(s0, 0);
    var rest := [RemoveAsset(x)] + ([Deliver(t)] + []);
    RemovedThenDelivered(Sent(s1, t), t);
    RunsOn(s1, Send(t), rest);
    RunsOn(s0, FileRows(0), [Send(t)] + rest);
    RunKeepsInv(s0, Stranding(x));
  }
}

/** Main results about batch execution, over every reachable state and every run. */
module ExecTheorems {
  import opened Options
  import opened ExecProtocol
  import opened ExecInvariant
  import opened ExecSafety

  lemma ReachableInv(assets: set<nat>, acts: seq<Action>)
    requires Runs(Init(assets), acts)
    ensures Inv(After(Init(assets), acts))
  {
    InitInv(assets);
    RunKeepsInv(Init(assets), acts);
  }

  // ---------- rows and tasks ----------

  /** A row is queued exactly when one undelivered task (or one delivered to a deleted asset) stands
      for it, running exactly when one worker executes it, and finished exactly when there is neither. */
  predicate RowMatches(s: State, k: nat)
    requires k < |s.rows|
  {
    var t, st := s.rows[k].task, s.rows[k].status;
    Active(s, t) <= 1 &&
    (st == Queued <==> Undelivered(s, t) == 1 || t in s.stranded) &&
    (st == Running <==> s.executing[t] == 1) &&
    (Terminal(st) <==> Active(s, t) == 0 && t !in s.stranded)
  }

  /** In every reachable state each row of a record of distinct assets matches its task, and no row
      of any record is ever timed out. */
  lemma RowsMatchTasks(assets: set<nat>, acts: seq<Action>, k: nat)
    requires Runs(Init(assets), acts) && k < |After(Init(assets), acts).rows|
    ensures var s := After(Init(assets), acts);
      s.rows[k].status != TimedOut && (Distinct(s, s.rows[k].task.rec) ==> RowMatches(s, k))
  {
    hide Runs, After, Linked, UniqueKeys, BatchesInv, Distinct;
    ReachableInv(assets, acts);
    assert RowInv(After(Init(assets), acts), k);
  }

  /** The cached record is exact: counts are the true ones and add up to the hosts of the request,
      it is finished if and only if the request named no asset twice and no asset was deleted before
      its task arrived, and partial if and only if there are a success and a failure. */
  predicate Exact(s: State, rec: nat)
    requires rec < |s.batches|
  {
    var b := s.batches[rec];
    b.counts == TrueCounts(s.rows, rec) && b.counts.total == |b.assets| &&
    b.counts.total == b.counts.succeeded + b.counts.failed + b.counts.running && b.counts.timedOut == 0 &&
    (b.status != InProgress <==> Distinct(s, rec) && forall t | t in s.stranded :: t.rec != rec) &&
    (b.status != InProgress <==> b.counts.running == 0) &&
    (b.status == Partial <==> b.counts.running == 0 && b.counts.succeeded > 0 && b.counts.failed > 0)
  }

  /** With nothing outstanding for a record, the record is exact. */
  lemma QuietRecordIsExact(s: State, rec: nat)
    requires Inv(s) && rec < |s.batches| && !Outstanding(s, rec)
    ensures Exact(s, rec)
  {
    hide Linked, UniqueKeys;
    var b := s.batches[rec];
    assert BatchInv(s, rec);
    QuietTotals(s, rec);
    CountZero(s.rows, rec, {Queued, Running});
    if Filed(s, rec) && b.status != InProgress { FinishedIsQuiet(s, rec); }
    if Distinct(s, rec) && forall t | t in s.stranded :: t.rec != rec { QuietRowsTerminal(s, rec); }
  }

  lemma QuietTotals(s: State, rec: nat)
    requires Inv(s) && rec < |s.batches| && !Outstanding(s, rec)
    ensures var c := TrueCounts(s.rows, rec);
      c.total == |s.batches[rec].assets| >= 1 && c.timedOut == 0 &&
      c.total == c.succeeded + c.failed + c.timedOut + c.running
  {
    CountsAddUp(s.rows, rec);
    CountZero(s.rows, rec, {TimedOut});
    forall k | 0 <= k < |s.rows| ensures s.rows[k].status != TimedOut { assert RowInv(s, k); }
  }

  lemma QuietRowsTerminal(s: State, rec: nat)
    requires Inv(s) && rec < |s.batches| && !Outstanding(s, rec) && Distinct(s, rec)
    requires forall t | t in s.stranded :: t.rec != rec
    ensures forall k | 0 <= k < |s.rows| && s.rows[k].task.rec == rec :: Terminal(s.rows[k].status)
  {
    hide Linked, UniqueKeys, BatchesInv;
    forall k | 0 <= k < |s.rows| && s.rows[k].task.rec == rec ensures Terminal(s.rows[k].status) {
      assert RowInv(s, k);
      assert Active(s, s.rows[k].task) == 0;
    }
  }

  // ---------- termination ----------

  function DraftWork(s: State, n: nat): nat
    requires n <= |s.batches|
  {
    if n == 0 then 0
    else DraftWork(s, n - 1) + (if n - 1 in s.drafts then 4 * |s.batches[n - 1].assets| + 1 else 0)
  }

  /** Worker and API steps still owed: four per unsent task, three per queued one, and so on. */
  function Work(s: State): nat {
    DraftWork(s, |s.batches|) + 4 * |s.outbox| + 3 * |s.queue| + 2 * |s.executing| + |s.finishing|
  }

  /** A step that finishes something already accepted, as opposed to a request from outside. */
  predicate Internal(a: Action) {
    a.FileRows? || a.Send? || a.Deliver? || a.Report? || a.Recompute?
  }

  lemma {:induction false} DraftWorkSame(s: State, s': State, n: nat)
    requires n <= |s.batches| && n <= |s'.batches|
    requires forall i | 0 <= i < n :: (i in s.drafts <==> i in s'.drafts) && s'.batches[i].assets == s.batches[i].assets
    ensures DraftWork(s, n) == DraftWork(s', n)
  {
    if n > 0 { DraftWorkSame(s, s', n - 1); }
  }

  lemma {:induction false} DraftWorkLess(s: State, s': State, n: nat, rec: nat)
    requires n <= |s.batches| == |s'.batches| && s'.batches == s.batches
    requires rec in s.drafts && s'.drafts == s.drafts - {rec}
    ensures DraftWork(s, n) == DraftWork(s', n) + (if rec < n then 4 * |s.batches[rec].assets| + 1 else 0)
  {
    if n > 0 { DraftWorkLess(s, s', n - 1, rec); }
  }

  lemma FilingDoesWork(s: State, rec: nat)
    requires rec in s.drafts && rec < |s.batches|
    ensures Work(WithRows(s, rec)) < Work(s)
  {
    DraftWorkLess(s, WithRows(s, rec), |s.batches|, rec);
  }

  lemma SendingDoesWork(s: State, t: Task)
    requires t in s.outbox
    ensures Work(Sent(s, t)) < Work(s)
  {
    DraftWorkSame(s, Sent(s, t), |s.batches|);
  }

  lemma DeliveryDoesWork(s: State, t: Task)
    requires t in s.queue
    ensures Work(Delivered(s, t)) < Work(s)
  {
    hide FirstRow, SetStatus;
    DraftWorkSame(s, Delivered(s, t), |s.batches|);
  }

  lemma ReportDoesWork(s: State, t: Task, ok: bool)
    requires t in s.executing
    ensures Work(Reported(s, t, ok)) < Work(s)
  {
    hide FirstRow, SetStatus;
    DraftWorkSame(s, Reported(s, t, ok), |s.batches|);
  }

  lemma RecomputeDoesWork(s: State, rec: nat)
    requires rec in s.finishing
    ensures Work(Reaggregated(s, rec)) < Work(s)
  {
    hide TrueCounts;
    DraftWorkSame(s, Reaggregated(s, rec), |s.batches|);
  }

  lemma InternalStepDoesWork(s: State, a: Action)
    requires Enabled(s, a) && Internal(a)
    ensures Work(Step(s, a)) < Work(s)
  {
    hide Work, WithRows, Sent, Delivered, Reported, Reaggregated;
    match a
    case FileRows(rec) => FilingDoesWork(s, rec);
    case Send(t) => SendingDoesWork(s, t);
    case Deliver(t) => DeliveryDoesWork(s, t);
    case Report(t, ok) => ReportDoesWork(s, t, ok);
    case Recompute(rec) => RecomputeDoesWork(s, rec);
  }

  /** Work a request brings in: that of one batch, or of the hosts a retry sends again. */
  function Granted(s: State, a: Action): nat {
    match a
    case Submit(_, _, assets, _) => if Accepts(s, a) then 4 * |assets| + 1 else 0
    case Retry(rec) => if rec < |s.batches| then 4 * Count(s.rows, rec, {Failed, TimedOut}) else 0
    case _ => 0
  }

  lemma RequestStepGrants(s: State, a: Action)
    requires Linked(s) && !Internal(a)
    ensures Work(Step(s, a)) == Work(s) + Granted(s, a)
  {
    hide Linked, Accepts, FailedTasks, Count, WithRows, Sent, Delivered, Reported, Reaggregated, Requeued;
    var s' := Step(s, a);
    assert |s.batches| !in s.drafts by { DraftsAreRecords(s); }
    DraftWorkSame(s, s', |s.batches|);
  }

  lemma DraftsAreRecords(s: State)
    requires Linked(s)
    ensures |s.batches| !in s.drafts
  {
  }

  function InternalSteps(acts: seq<Action>): nat {
    if acts == [] then 0 else (if Internal(acts[0]) then 1 else 0) + InternalSteps(acts[1..])
  }

  function GrantedBy(s: State, acts: seq<Action>): nat
    requires Runs(s, acts)
    decreases |acts|
  {
    if acts == [] then 0 else Granted(s, acts[0]) + GrantedBy(Step(s, acts[0]), acts[1..])
  }

  /** Workers cannot run for ever: their steps in any run are paid for by the requests in it. */
  lemma {:induction false} InternalStepsAreBounded(s: State, acts: seq<Action>)
    requires Inv(s) && Runs(s, acts)
    ensures InternalSteps(acts) + Work(After(s, acts)) <= Work(s) + GrantedBy(s, acts)
    decreases |acts|
  {
    hide Work, Granted, Linked, RowsInv, BatchesInv, UniqueKeys;
    if acts != [] {
      InvStep(s, acts[0]);
      if Internal(acts[0]) { InternalStepDoesWork(s, acts[0]); InternalGrantsNothing(s, acts[0]); }
      else { RequestStepGrants(s, acts[0]); }
      InternalStepsAreBounded(Step(s, acts[0]), acts[1..]);
    }
  }

  lemma InternalGrantsNothing(s: State, a: Action)
    requires Internal(a)
    ensures Granted(s, a) == 0
  {
  }

  lemma {:induction false} DraftWorkFound(s: State, n: nat) returns (rec: nat)
    requires n <= |s.batches| && DraftWork(s, n) > 0
    ensures rec < n && rec in s.drafts
  {
    if n - 1 in s.drafts { rec := n - 1; } else { rec := DraftWorkFound(s, n - 1); }
  }

  /** While work is owed, some worker or API call can do a step of it. */
  lemma WorkCanProceed(s: State) returns (a: Action)
    requires Work(s) > 0
    ensures Internal(a) && Enabled(s, a)
  {
    if DraftWork(s, |s.batches|) > 0 {
      var rec := DraftWorkFound(s, |s.batches|);
      a := FileRows(rec);
    } else if s.outbox != multiset{} {
      var t :| t in s.outbox; a := Send(t);
    } else if s.queue != multiset{} {
      var t :| t in s.queue; a := Deliver(t);
    } else if s.executing != multiset{} {
      var t :| t in s.executing; a := Report(t, true);
    } else {
      assert s.finishing != multiset{};
      var rec :| rec in s.finishing; a := Recompute(rec);
    }
  }

  lemma {:induction false} DraftHasWork(s: State, n: nat, rec: nat)
    requires rec < n <= |s.batches| && rec in s.drafts
    ensures DraftWork(s, n) > 0
  {
    if rec < n - 1 { DraftHasWork(s, n - 1, rec); }
  }

  /** No work owed means nothing outstanding for any record. */
  lemma NoWorkMeansQuiet(s: State, rec: nat)
    requires Linked(s) && Work(s) == 0
    ensures !Outstanding(s, rec)
  {
    if rec in s.drafts { DraftHasWork(s, |s.batches|, rec); }
    assert s.outbox == s.queue == s.executing == multiset{} && s.finishing == multiset{};
  }

  /** Left alone, the workers bring every reachable state to rest, and there every record is exact:
      in particular one that names distinct, existing assets is finished. */
  lemma WorkersComeToRest(s: State) returns (acts: seq<Action>)
    requires Inv(s)
    ensures Runs(s, acts) && forall a <- acts :: Internal(a)
    ensures Inv(After(s, acts)) && forall rec :: !Outstanding(After(s, acts), rec)
    ensures forall rec | 0 <= rec < |After(s, acts).batches| :: Exact(After(s, acts), rec)
    decreases Work(s)
  {
    hide Inv, Outstanding, Exact;
    if Work(s) == 0 {
      acts := [];
      forall rec ensures !Outstanding(s, rec) { assert Linked(s) by { InvLinked(s); } NoWorkMeansQuiet(s, rec); }
      forall rec | 0 <= rec < |s.batches| ensures Exact(s, rec) { QuietRecordIsExact(s, rec); }
    } else {
      var a := WorkCanProceed(s);
      InvStep(s, a);
      InternalStepDoesWork(s, a);
      var rest := WorkersComeToRest(Step(s, a));
      acts := [a] + rest;
      assert acts[1..] == rest;
    }
  }

  lemma InvLinked(s: State)
    requires Inv(s)
    ensures Linked(s)
  {
  }

  // ---------- a request that names an asset twice ----------

  lemma {:induction false} AssetsStayInRun(s: State, acts: seq<Action>, rec: nat)
    requires Runs(s, acts) && rec < |s.batches|
    ensures rec < |After(s, acts).batches| && After(s, acts).batches[rec].assets == s.batches[rec].assets
    decreases |acts|
  {
    hide Step, Enabled;
    if acts != [] {
      AssetsStay(s, acts[0], rec);
      AssetsStayInRun(Step(s, acts[0]), acts[1..], rec);
    }
  }

  /** A batch that names one asset twice is accepted and never finishes, whatever the workers, retries
      and other requests do. */
  lemma DuplicateNeverFinishes(assets: set<nat>, x: nat, user: string, acts: seq<Action>)
    requires x in assets && Runs(Submitted(Init(assets), Submit(user, "", [x, x], true)), acts)
    ensures var s := After(Submitted(Init(assets), Submit(user, "", [x, x], true)), acts);
      |s.batches| > 0 && s.batches[0].assets == [x, x] && s.batches[0].status == InProgress
  {
    hide Runs, After;
    var a := Submit(user, "", [x, x], true);
    var s0 := Submitted(Init(assets), a);
    InitInv(assets);
    InvStep(Init(assets), a);
    RunKeepsInv(s0, acts);
    AssetsStayInRun(s0, acts, 0);
    var s := After(s0, acts);
    assert s.batches[0].assets[0] == s.batches[0].assets[1];
    DuplicateIsOpen(s, 0);
  }

  lemma DuplicateIsOpen(s: State, rec: nat)
    requires Inv(s) && rec < |s.batches| && !Distinct(s, rec)
    ensures s.batches[rec].status == InProgress
  {
    hide Linked, UniqueKeys, RowsInv, Outstanding, Distinct;
    assert BatchInv(s, rec);
    if s.batches[rec].status != InProgress { FinishedIsQuiet(s, rec); }
  }

  // ---------- conservation ----------

  function Deliveries(acts: seq<Action>, t: Task): nat {
    if acts == [] then 0 else (if acts[0] == Deliver(t) then 1 else 0) + Deliveries(acts[1..], t)
  }

  /** How often this step sends the task again. */
  function ResentBy(s: State, a: Action, t: Task): nat {
    if a.Retry? && a.rec < |s.batches| then FailedTasks(s.rows, a.rec)[t] else 0
  }

  /** How often the retries of a run sent the task again. */
  function Resent(s: State, acts: seq<Action>, t: Task): nat
    requires Runs(s, acts)
    decreases |acts|
  {
    if acts == [] then 0 else ResentBy(s, acts[0], t) + Resent(Step(s, acts[0]), acts[1..], t)
  }

  lemma {:induction false} TasksOfSame(a: seq<Row>, b: seq<Row>)
    requires SameTasks(a, b)
    ensures TasksOf(a) == TasksOf(b)
  {
    if a != [] { TasksOfSame(a[..|a| - 1], b[..|b| - 1]); }
  }

  lemma {:induction false} TasksOfAppend(a: seq<Row>, b: seq<Row>)
    ensures TasksOf(a + b) == TasksOf(a) + TasksOf(b)
    decreases |b|
  {
    if b == [] {
      assert a + b == a;
    } else {
      assert (a + b)[..|a + b| - 1] == a + b[..|b| - 1];
      TasksOfAppend(a, b[..|b| - 1]);
    }
  }

  lemma RetryBalance(s: State, a: Action, t: Task)
    requires a.Retry?
    ensures Undelivered(Step(s, a), t) == Undelivered(s, t) + ResentBy(s, a, t)
    ensures SameTasks(s.rows, Step(s, a).rows)
  {
    if a.rec < |s.batches| && Count(s.rows, a.rec, {Failed, TimedOut}) == 0 {
      assert |FailedTasks(s.rows, a.rec)| == 0;
    }
  }

  lemma DeliveryBalance(s: State, task: Task, t: Task)
    requires Linked(s) && task in s.queue
    ensures Undelivered(Delivered(s, task), t) + (if task == t then 1 else 0) == Undelivered(s, t)
    ensures SameTasks(s.rows, Delivered(s, task).rows)
  {
    hide Linked, FirstRow;
    TaskHasRow(s, task);
  }

  lemma OtherBalance(s: State, a: Action, t: Task)
    requires Enabled(s, a) && !a.Retry? && !a.FileRows? && !a.Deliver?
    ensures Undelivered(Step(s, a), t) == Undelivered(s, t)
    ensures SameTasks(s.rows, Step(s, a).rows)
  {
    hide Accepts, Recomputed, WithRows, Retried, Delivered, FirstRow;
  }

  lemma TaskBalanceStep(s: State, a: Action, t: Task)
    requires Linked(s) && Enabled(s, a)
    ensures (if a == Deliver(t) then 1 else 0) + Undelivered(Step(s, a), t) + TasksOf(s.rows)[t]
            == Undelivered(s, t) + TasksOf(Step(s, a).rows)[t] + ResentBy(s, a, t)
  {
    if a.FileRows? {
      TasksOfAppend(s.rows, FreshRows(a.rec, s.batches[a.rec].assets));
    } else {
      hide Linked, TasksOf, Submitted, WithRows, Sent, Delivered, Reported, Reaggregated, Retried, Undelivered;
      if a.Retry? { RetryBalance(s, a, t); }
      else if a.Deliver? { DeliveryBalance(s, a.task, t); }
      else { OtherBalance(s, a, t); }
      TasksOfSame(s.rows, Step(s, a).rows);
    }
  }

  lemma {:induction false} TaskBalance(s: State, acts: seq<Action>, t: Task)
    requires Inv(s) && Runs(s, acts)
    ensures Deliveries(acts, t) + Undelivered(After(s, acts), t) + TasksOf(s.rows)[t]
            == Undelivered(s, t) + TasksOf(After(s, acts).rows)[t] + Resent(s, acts, t)
    decreases |acts|
  {
    hide Undelivered, RowsInv, BatchesInv, UniqueKeys, Linked;
    if acts != [] {
      TaskBalanceStep(s, acts[0], t);
      InvStep(s, acts[0]);
      TaskBalance(Step(s, acts[0]), acts[1..], t);
    }
  }

  /** Over any run, what was delivered plus what is still undelivered is one task per row
      plus one for each time a retry sent the host again: nothing is lost or duplicated. */
  lemma DispatchesAreRowsPlusRetries(assets: set<nat>, acts: seq<Action>, t: Task)
    requires Runs(Init(assets), acts)
    ensures var s := After(Init(assets), acts);
      Deliveries(acts, t) + Undelivered(s, t) == TasksOf(s.rows)[t] + Resent(Init(assets), acts, t)
  {
    InitInv(assets);
    TaskBalance(Init(assets), acts, t);
  }

  // ---------- success is final ----------

  /** No worker holds and no message carries the task of a host that succeeded. */
  lemma SucceededHasNoTask(s: State, k: nat)
    requires RowsInv(s) && k < |s.rows|
    requires Distinct(s, s.rows[k].task.rec) && s.rows[k].status == Succeeded
    ensures Active(s, s.rows[k].task) == 0
  {
    assert RowInv(s, k);
  }

  lemma SucceededStays(s: State, a: Action, k: nat)
    requires Inv(s) && Enabled(s, a) && k < |s.rows|
    requires Distinct(s, s.rows[k].task.rec) && s.rows[k].status == Succeeded
    ensures var s' := Step(s, a);
      k < |s'.rows| && s'.rows[k] == s.rows[k] && Distinct(s', s.rows[k].task.rec) &&
      a != Deliver(s.rows[k].task) && (a.Report? ==> a.task != s.rows[k].task)
  {
    hide Step, Linked, RowsInv, BatchesInv, UniqueKeys;
    SucceededHasNoTask(s, k);
    if a.Deliver? || a.Report? { assert Active(s, a.task) > 0; }
    OtherRowsStay(s, a, k);
    AssetsStay(s, a, s.rows[k].task.rec);
  }

  lemma OtherRowsStay(s: State, a: Action, k: nat)
    requires Enabled(s, a) && k < |s.rows| && s.rows[k].status == Succeeded
    requires a.Deliver? || a.Report? ==> a.task != s.rows[k].task
    ensures k < |Step(s, a).rows| && Step(s, a).rows[k] == s.rows[k]
  {
    hide FirstRow, Accepts, Recomputed, TasksOf, FailedTasks, Count;
  }

  lemma AssetsStay(s: State, a: Action, rec: nat)
    requires Enabled(s, a) && rec < |s.batches|
    ensures rec < |Step(s, a).batches| && Step(s, a).batches[rec].assets == s.batches[rec].assets
    ensures Step(s, a).batches[rec].key == s.batches[rec].key && Step(s, a).batches[rec].user == s.batches[rec].user
  {
    hide WithRows, Sent, Delivered, Reported, Accepts, TrueCounts, FailedTasks, Requeued, Count;
  }

  /** A host that succeeded is never executed again and its row never changes, whatever is
      retried, submitted or re-aggregated later. */
  lemma {:induction false} SuccessIsFinal(s: State, acts: seq<Action>, k: nat)
    requires Inv(s) && Runs(s, acts) && k < |s.rows|
    requires Distinct(s, s.rows[k].task.rec) && s.rows[k].status == Succeeded
    ensures var s' := After(s, acts); k < |s'.rows| && s'.rows[k] == s.rows[k]
    ensures Deliveries(acts, s.rows[k].task) == 0 && forall a <- acts | a.Report? :: a.task != s.rows[k].task
    decreases |acts|
  {
    hide Inv, Distinct;
    if acts != [] {
      SucceededStays(s, acts[0], k);
      InvStep(s, acts[0]);
      SuccessIsFinal(Step(s, acts[0]), acts[1..], k);
    }
  }

  // ---------- a finished row shows its last outcome ----------

  /** The last outcome reported for a task, `before` if there was none. */
  function LastReport(acts: seq<Action>, t: Task, before: Option<bool>): Option<bool> {
    if acts == [] then before else LastReport(acts[1..], t, Latest(acts[0], t, before))
  }

  function Latest(a: Action, t: Task, before: Option<bool>): Option<bool> {
    if a.Report? && a.task == t then Some(a.ok) else before
  }

  /** The row of the task, if finished, shows this outcome. */
  predicate Shows(s: State, t: Task, outcome: Option<bool>) {
    var k := FirstRow(s.rows, t);
    k < |s.rows| && Terminal(s.rows[k].status) ==>
      outcome.Some? && s.rows[k].status == if outcome.value then Succeeded else Failed
  }

  lemma ReportShows(s: State, a: Action, t: Task, before: Option<bool>)
    requires a.Report? && Enabled(s, a) && Shows(s, t, before)
    ensures Shows(Reported(s, a.task, a.ok), t, Latest(a, t, before))
  {
    hide FirstRow;
    SameTasksSameFirst(s.rows, Reported(s, a.task, a.ok).rows, t);
  }

  /** New rows are unfinished, and the row of a task stays where it is. */
  lemma AppendShows(s: State, s': State, t: Task, before: Option<bool>)
    requires Shows(s, t, before) && s.rows <= s'.rows
    requires forall k | |s.rows| <= k < |s'.rows| :: !Terminal(s'.rows[k].status)
    ensures Shows(s', t, before)
  {
    var k, k' := FirstRow(s.rows, t), FirstRow(s'.rows, t);
    assert k' < |s.rows| ==> s.rows[k'].task == t;
    assert k < |s.rows| ==> s'.rows[k].task == t;
  }

  lemma DeliverShows(s: State, t': Task, t: Task, before: Option<bool>)
    requires Shows(s, t, before)
    ensures Shows(Delivered(s, t'), t, before)
  {
    hide FirstRow;
    var s' := Delivered(s, t');
    if |s'.rows| == |s.rows| {
      SameTasksSameFirst(s.rows, s'.rows, t);
    } else {
      AppendShows(s, s', t, before);
    }
  }

  lemma RetryShows(s: State, rec: nat, t: Task, before: Option<bool>)
    requires Shows(s, t, before)
    ensures Shows(Retried(s, rec), t, before)
  {
    hide FirstRow, FailedTasks, Count;
    SameTasksSameFirst(s.rows, Retried(s, rec).rows, t);
  }

  lemma StepShows(s: State, a: Action, t: Task, before: Option<bool>)
    requires Enabled(s, a) && Shows(s, t, before)
    ensures Shows(Step(s, a), t, Latest(a, t, before))
  {
    hide Shows, Delivered, Reported, Retried;
    match a
    case Report(_, _) => ReportShows(s, a, t, before);
    case Deliver(t') => DeliverShows(s, t', t, before);
    case Retry(rec) => RetryShows(s, rec, t, before);
    case _ => AppendShows(s, Step(s, a), t, before);
  }

  lemma {:induction false} RunShows(s: State, acts: seq<Action>, t: Task, before: Option<bool>)
    requires Runs(s, acts) && Shows(s, t, before)
    ensures Shows(After(s, acts), t, LastReport(acts, t, before))
    decreases |acts|
  {
    hide Shows;
    if acts != [] {
      StepShows(s, acts[0], t, before);
      RunShows(Step(s, acts[0]), acts[1..], t, Latest(acts[0], t, before));
    }
  }

  /** In every reachable state a finished row says what the last worker of its task reported:
      succeeded if that worker succeeded, failed if it failed, whatever was retried in between. */
  lemma FinishedRowShowsLastReport(assets: set<nat>, acts: seq<Action>, t: Task)
    requires Runs(Init(assets), acts)
    ensures Shows(After(Init(assets), acts), t, LastReport(acts, t, None))
  {
    RunShows(Init(assets), acts, t, None);
  }

  // ---------- idempotent submission ----------

  lemma ExistingKept(a: seq<Batch>, b: seq<Batch>, user: string, key: string)
    requires |a| <= |b| && forall i | 0 <= i < |a| :: b[i].key == a[i].key && b[i].user == a[i].user
    requires Existing(a, user, key) < |a|
    ensures Existing(b, user, key) == Existing(a, user, key)
  {
    var i, j := Existing(a, user, key), Existing(b, user, key);
    assert b[i].key == key && b[i].user == user;
    assert j <= i;
    assert forall k | 0 <= k < i :: !(a[k].key == key && a[k].user == user);
  }

  /** From the moment a record answers for a user's key it answers for it in every later state;
      a repeated submission then returns it and changes nothing at all. */
  lemma {:induction false} RepeatReturnsSameRecord(s: State, acts: seq<Action>, repeat: Action)
    requires Inv(s) && Runs(s, acts) && repeat.Submit?
    requires Existing(s.batches, repeat.user, repeat.key) < |s.batches|
    ensures var s' := After(s, acts);
      Existing(s'.batches, repeat.user, repeat.key) == Existing(s.batches, repeat.user, repeat.key) < |s'.batches| &&
      Step(s', repeat) == s'
    decreases |acts|
  {
    hide Inv;
    if acts != [] {
      var next := Step(s, acts[0]);
      KeysKept(s, acts[0]);
      ExistingKept(s.batches, next.batches, repeat.user, repeat.key);
      InvStep(s, acts[0]);
      RepeatReturnsSameRecord(next, acts[1..], repeat);
    }
  }

  lemma KeysKept(s: State, a: Action)
    requires Enabled(s, a)
    ensures |s.batches| <= |Step(s, a).batches|
    ensures forall i | 0 <= i < |s.batches| ::
              Step(s, a).batches[i].key == s.batches[i].key && Step(s, a).batches[i].user == s.batches[i].user
  {
    hide Step;
    if s.batches != [] { AssetsStay(s, a, |s.batches| - 1); }
    forall i | 0 <= i < |s.batches|
      ensures Step(s, a).batches[i].key == s.batches[i].key && Step(s, a).batches[i].user == s.batches[i].user
    {
      AssetsStay(s, a, i);
    }
  }

  /** An accepted submission with a key makes the one record that will answer for that key. */
  lemma AcceptedSubmissionAnswers(s: State, a: Action)
    requires Inv(s) && a.Submit? && Accepts(s, a) && a.key != ""
    ensures var s' := Step(s, a);
      Existing(s'.batches, a.user, a.key) == |s.batches| < |s'.batches| &&
      forall i | 0 <= i < |s'.batches| && s'.batches[i].key == a.key && s'.batches[i].user == a.user :: i == |s.batches|
  {
    hide Linked, RowsInv, BatchesInv;
    KeysStep(s, a);
    var s' := Step(s, a);
    var j := Existing(s'.batches, a.user, a.key);
    assert s'.batches[|s.batches|].key == a.key && s'.batches[|s.batches|].user == a.user;
    assert forall i | 0 <= i < |s.batches| :: s'.batches[i] == s.batches[i];
  }
}

/** Every step of every interleaving keeps the invariant of the batch protocol. */
module ExecSafety {
  import opened ExecProtocol
  import opened ExecInvariant

  // ---------- links between rows, tasks and records ----------

  lemma NoRowsNoAssets(rows: seq<Row>, rec: nat)
    requires forall k | 0 <= k < |rows| :: rows[k].task.rec != rec
    ensures AssetsOf(rows, rec) == []
  {
    var xs := AssetsOf(rows, rec);
    if xs != [] { AssetAppears(rows, rec, xs[0]); }
  }

  /** A step that only changes row statuses, never creates a task and keeps every record's assets. */
  ghost predicate KeepsLinks(s: State, s': State) {
    SameTasks(s.rows, s'.rows) && s'.drafts == s.drafts && |s'.batches| == |s.batches| &&
    (forall rec | 0 <= rec < |s.batches| :: s'.batches[rec].assets == s.batches[rec].assets) &&
    (forall t | Active(s', t) > 0 || t in s'.stranded :: HasRow(s, t)) &&
    (forall rec | rec in s'.finishing :: Filed(s, rec))
  }

  lemma LinksKept(s: State, s': State)
    requires Linked(s) && KeepsLinks(s, s')
    ensures Linked(s')
  {
    forall rec | 0 <= rec < |s'.batches|
      ensures AssetsOf(s'.rows, rec) == if rec in s'.drafts then [] else s'.batches[rec].assets
    {
      SameTasksSameAssets(s.rows, s'.rows, rec);
    }
    forall t | Active(s', t) > 0 || t in s'.stranded ensures HasRow(s', t) {
      SameTasksSameFirst(s.rows, s'.rows, t);
    }
  }

  lemma SubmitLinked(s: State, a: Action)
    requires Linked(s) && a.Submit?
    ensures Linked(Step(s, a))
  {
    hide WithRows, Sent, Delivered, Reported, Reaggregated, Retried;
    hide Accepts, AssetsOf, Existing;
    var s' := Step(s, a);
    NoRowsNoAssets(s.rows, |s.batches|);
    forall t | Active(s', t) > 0 || t in s'.stranded ensures HasRow(s', t) {
      assert Active(s', t) == Active(s, t);
      assert HasRow(s, t);
    }
    if Accepts(s, a) { AcceptedHasAssets(s, a); }
  }

  lemma AcceptedHasAssets(s: State, a: Action)
    requires a.Submit? && Accepts(s, a)
    ensures a.assets != []
  {
  }

  lemma FiledAssets(s: State, rec: nat, r: nat)
    requires rec < |s.batches| && (r == rec ==> AssetsOf(s.rows, rec) == [])
    ensures AssetsOf(WithRows(s, rec).rows, r) == if r == rec then s.batches[rec].assets else AssetsOf(s.rows, r)
  {
    CountAppend(s.rows, FreshRows(rec, s.batches[rec].assets), r, {});
    FreshRowsOf(rec, s.batches[rec].assets, r);
  }

  /** A task has a row in the longer list if it has one in either part. */
  lemma RowInAppend(a: seq<Row>, b: seq<Row>, t: Task)
    ensures FirstRow(a + b, t) < |a + b| <==> FirstRow(a, t) < |a| || FirstRow(b, t) < |b|
  {
    if FirstRow(a, t) < |a| { assert (a + b)[FirstRow(a, t)].task == t; }
    if FirstRow(b, t) < |b| { assert (a + b)[|a| + FirstRow(b, t)].task == t; }
    var k := FirstRow(a + b, t);
    if k < |a + b| { assert if k < |a| then a[k].task == t else b[k - |a|].task == t; }
  }

  lemma FiledTasksHaveRows(s: State, rec: nat, t: Task)
    requires Linked(s) && rec in s.drafts
    requires Active(WithRows(s, rec), t) > 0 || t in s.stranded
    ensures HasRow(WithRows(s, rec), t)
  {
    hide AssetsOf, TasksOf, FirstRow;
    var filed := FreshRows(rec, s.batches[rec].assets);
    RowInAppend(s.rows, filed, t);
    if t in TasksOf(filed) {
      TasksOfMembers(filed, t);
      assert filed[FirstRow(filed, t)].task == t;
    } else {
      assert Active(s, t) == Active(WithRows(s, rec), t);
    }
  }

  lemma FileRowsLinked(s: State, a: Action)
    requires Linked(s) && a.FileRows? && Enabled(s, a)
    ensures Linked(Step(s, a))
  {
    hide Submitted, Sent, Delivered, Reported, Reaggregated, Retried, AssetsOf, TasksOf, HasRow;
    var s' := Step(s, a);
    var filed := FreshRows(a.rec, s.batches[a.rec].assets);
    forall r | 0 <= r < |s'.batches|
      ensures AssetsOf(s'.rows, r) == if r in s'.drafts then [] else s'.batches[r].assets
    {
      FiledAssets(s, a.rec, r);
    }
    forall k | 0 <= k < |s'.rows| ensures Filed(s', s'.rows[k].task.rec) {
      if k >= |s.rows| { assert s'.rows[k] == filed[k - |s.rows|]; }
    }
    forall t | Active(s', t) > 0 || t in s'.stranded ensures HasRow(s', t) { FiledTasksHaveRows(s, a.rec, t); }
  }

  lemma RetryLinked(s: State, rec: nat)
    requires Linked(s)
    ensures KeepsLinks(s, Retried(s, rec))
  {
    hide AssetsOf, FailedTasks, Count, FirstRow;
    var s' := Retried(s, rec);
    forall t | Active(s', t) > 0 || t in s'.stranded ensures HasRow(s, t) {
      FailedTaskHasRow(s.rows, rec, t);
      if t in FailedTasks(s.rows, rec) {
        var k :| 0 <= k < |s.rows| && s.rows[k].task == t;
        assert Filed(s, s.rows[k].task.rec);
      } else {
        assert Active(s', t) > 0 ==> Active(s, t) > 0;
      }
    }
  }

  lemma SendLinked(s: State, task: Task)
    requires Linked(s) && task in s.outbox
    ensures KeepsLinks(s, Sent(s, task))
  {
    hide AssetsOf;
    var s' := Sent(s, task);
    forall t | Active(s', t) > 0 || t in s'.stranded ensures HasRow(s, t) {
      assert Active(s', t) == Active(s, t);
    }
  }

  /** The row of a task being delivered or reported exists, so no row is ever added for it. */
  lemma TaskHasRow(s: State, task: Task)
    requires Linked(s) && (task in s.queue || task in s.executing || task in s.outbox)
    ensures HasRow(s, task)
  {
    assert Active(s, task) > 0;
  }

  lemma DeliverLinked(s: State, task: Task)
    requires Linked(s) && task in s.queue
    ensures KeepsLinks(s, Delivered(s, task))
  {
    hide AssetsOf;
    TaskHasRow(s, task);
    var s' := Delivered(s, task);
    forall t | Active(s', t) > 0 || t in s'.stranded ensures HasRow(s, t) {
      if t != task { assert Active(s', t) == Active(s, t); }
    }
  }

  lemma ReportLinked(s: State, task: Task, ok: bool)
    requires Linked(s) && task in s.executing
    ensures KeepsLinks(s, Reported(s, task, ok))
  {
    hide AssetsOf;
    TaskHasRow(s, task);
    var s' := Reported(s, task, ok);
    forall t | Active(s', t) > 0 || t in s'.stranded ensures HasRow(s, t) {
      if t != task { assert Active(s', t) == Active(s, t); }
    }
  }

  lemma RecomputeLinked(s: State, rec: nat)
    requires Linked(s) && rec in s.finishing
    ensures KeepsLinks(s, Reaggregated(s, rec))
  {
    hide AssetsOf, TrueCounts;
    var s' := Reaggregated(s, rec);
    forall t | Active(s', t) > 0 || t in s'.stranded ensures HasRow(s, t) {
      assert Active(s', t) == Active(s, t);
    }
  }

  lemma AssetsLinked(s: State, a: Action)
    requires Linked(s) && (a.AddAsset? || a.RemoveAsset?)
    ensures KeepsLinks(s, Step(s, a))
  {
    hide Submitted, WithRows, Sent, Delivered, Reported, Reaggregated, Retried;
    hide AssetsOf;
    var s' := Step(s, a);
    forall t | Active(s', t) > 0 || t in s'.stranded ensures HasRow(s, t) {
      assert Active(s', t) == Active(s, t);
    }
  }

  lemma LinkedStep(s: State, a: Action)
    requires Linked(s) && Enabled(s, a)
    ensures Linked(Step(s, a))
  {
    hide Linked, KeepsLinks, WithRows, Sent, Delivered, Reported, Reaggregated, Retried;
    if a.Submit? {
      SubmitLinked(s, a);
    } else if a.FileRows? {
      FileRowsLinked(s, a);
    } else {
      match a {
        case Retry(rec) => RetryLinked(s, rec);
        case Send(t) => SendLinked(s, t);
        case Deliver(t) => DeliverLinked(s, t);
        case Report(t, ok) => ReportLinked(s, t, ok);
        case Recompute(rec) => RecomputeLinked(s, rec);
        case _ => AssetsLinked(s, a);
      }
      LinksKept(s, Step(s, a));
    }
  }

  lemma KeysStep(s: State, a: Action)
    requires UniqueKeys(s.batches) && Enabled(s, a)
    ensures UniqueKeys(Step(s, a).batches)
  {
    hide WithRows, Sent, Delivered, Reported, TrueCounts, FailedTasks, Requeued, Count;
  }

  // ---------- rows ----------

  lemma FiledTaskOnce(s: State, rec: nat, t: Task)
    requires rec < |s.batches|
    ensures var filed := FreshRows(rec, s.batches[rec].assets);
      (t in TasksOf(filed) <==> FirstRow(filed, t) < |filed|) && (Distinct(s, rec) ==> TasksOf(filed)[t] <= 1)
  {
    var filed := FreshRows(rec, s.batches[rec].assets);
    TasksOfMembers(filed, t);
    FreshRowsOf(rec, s.batches[rec].assets, rec);
    FirstRowsIffNoDup(filed, rec);
  }

  lemma FirstRowInAppend(a: seq<Row>, b: seq<Row>, t: Task)
    ensures FirstRow(a, t) < |a| ==> FirstRow(a + b, t) == FirstRow(a, t)
    ensures FirstRow(a, t) == |a| ==> FirstRow(a + b, t) == |a| + FirstRow(b, t)
  {
    RowInAppend(a, b, t);
    var k := FirstRow(a + b, t);
    if FirstRow(a, t) < |a| {
      assert (a + b)[FirstRow(a, t)].task == t;
      assert a[k].task == t;
    } else if FirstRow(b, t) < |b| {
      assert (a + b)[|a| + FirstRow(b, t)].task == t;
      assert forall j | 0 <= j < |a| :: (a + b)[j].task != t;
      assert b[k - |a|].task == t;
    }
  }

  lemma OldRowKept(s: State, rec: nat, k: nat)
    requires Linked(s) && RowsInv(s) && rec in s.drafts && k < |s.rows|
    ensures RowInv(WithRows(s, rec), k)
  {
    hide TasksOf, AssetsOf, FirstRow;
    var s' := WithRows(s, rec);
    var t := s.rows[k].task;
    assert RowInv(s, k) && t.rec != rec;
    FiledTaskOnce(s, rec, t);
    assert t !in TasksOf(FreshRows(rec, s.batches[rec].assets));
    FirstRowInAppend(s.rows, FreshRows(rec, s.batches[rec].assets), t);
  }

  lemma NewRowSound(s: State, rec: nat, k: nat)
    requires Linked(s) && RowsInv(s) && rec in s.drafts && |s.rows| <= k < |WithRows(s, rec).rows|
    ensures RowInv(WithRows(s, rec), k)
  {
    hide TasksOf, AssetsOf, FirstRow;
    var s' := WithRows(s, rec);
    var filed := FreshRows(rec, s.batches[rec].assets);
    var t := s'.rows[k].task;
    assert s'.rows[k] == filed[k - |s.rows|] && t.rec == rec;
    assert FirstRow(s.rows, t) == |s.rows|;
    assert !HasRow(s, t);
    assert Active(s, t) == 0 && t !in s.stranded;
    FiledTaskOnce(s, rec, t);
    assert FirstRow(filed, t) <= k - |s.rows|;
  }

  lemma FileRowsRows(s: State, a: Action, k: nat)
    requires Linked(s) && RowsInv(s) && a.FileRows? && Enabled(s, a) && k < |Step(s, a).rows|
    ensures RowInv(Step(s, a), k)
  {
    hide WithRows, Linked, RowsInv, RowInv;
    if k < |s.rows| { OldRowKept(s, a.rec, k); } else { NewRowSound(s, a.rec, k); }
  }

  lemma RetryRows(s: State, a: Action, k: nat)
    requires Linked(s) && RowsInv(s) && a.Retry? && k < |s.rows|
    ensures RowInv(Step(s, a), k)
  {
    hide Submitted, WithRows, Sent, Delivered, Reported, Reaggregated;
    hide Linked, AssetsOf, FailedTasks, Count;
    var s' := Step(s, a);
    assert RowInv(s, k);
    var t := s.rows[k].task;
    SameTasksSameFirst(s.rows, s'.rows, t);
    forall j | 0 <= j < |s.rows| && !IsFirst(s.rows, j) ensures s.rows[j].status == Queued { assert RowInv(s, j); }
    FailedTasksAt(s.rows, a.rec, t);
    assert Distinct(s', t.rec) <==> Distinct(s, t.rec);
    RowIsFirstIfDistinct(s, k);
  }

  lemma RowIsFirstIfDistinct(s: State, k: nat)
    requires Linked(s) && k < |s.rows|
    ensures Distinct(s, s.rows[k].task.rec) ==> IsFirst(s.rows, k)
  {
    RowsOfDistinct(s, s.rows[k].task.rec);
  }

  /** Moving a task along touches only its own row. */
  lemma OtherRowKept(s: State, s': State, k: nat)
    requires k < |s.rows| && RowInv(s, k) && SameTasks(s.rows, s'.rows) && s'.rows[k] == s.rows[k]
    requires forall rec :: Distinct(s', rec) <==> Distinct(s, rec)
    requires Undelivered(s', s.rows[k].task) == Undelivered(s, s.rows[k].task)
    requires s'.executing[s.rows[k].task] == s.executing[s.rows[k].task]
    requires s.rows[k].task in s'.stranded <==> s.rows[k].task in s.stranded
    ensures RowInv(s', k)
  {
    SameTasksSameFirst(s.rows, s'.rows, s.rows[k].task);
  }

  lemma SendRows(s: State, task: Task, k: nat)
    requires RowsInv(s) && task in s.outbox && k < |s.rows|
    ensures RowInv(Sent(s, task), k)
  {
    hide RowInv;
    OtherRowKept(s, Sent(s, task), k);
  }

  lemma DeliverRows(s: State, task: Task, k: nat)
    requires Linked(s) && RowsInv(s) && task in s.queue && k < |Delivered(s, task).rows|
    ensures RowInv(Delivered(s, task), k)
  {
    hide Linked, AssetsOf, RowInv;
    TaskHasRow(s, task);
    var s' := Delivered(s, task);
    assert SameTasks(s.rows, s'.rows);
    if s.rows[k].task != task {
      OtherRowKept(s, s', k);
    } else {
      DeliveredRow(s, task, k);
    }
  }

  lemma DeliveredRow(s: State, task: Task, k: nat)
    requires Linked(s) && RowsInv(s) && task in s.queue && HasRow(s, task)
    requires k < |s.rows| && s.rows[k].task == task
    ensures |Delivered(s, task).rows| == |s.rows| && RowInv(Delivered(s, task), k)
  {
    hide Linked, AssetsOf, FirstRow;
    assert RowInv(s, k);
    RowIsFirstIfDistinct(s, k);
    SameTasksSameFirst(s.rows, Delivered(s, task).rows, task);
  }

  lemma ReportRows(s: State, task: Task, ok: bool, k: nat)
    requires Linked(s) && RowsInv(s) && task in s.executing && k < |s.rows|
    ensures RowInv(Reported(s, task, ok), k)
  {
    hide Linked, AssetsOf, FirstRow;
    TaskHasRow(s, task);
    var s' := Reported(s, task, ok);
    assert RowInv(s, k);
    if s.rows[k].task != task {
      OtherRowKept(s, s', k);
    } else {
      RowIsFirstIfDistinct(s, k);
      SameTasksSameFirst(s.rows, s'.rows, task);
    }
  }

  lemma RecomputeRows(s: State, rec: nat, k: nat)
    requires RowsInv(s) && rec in s.finishing && k < |s.rows|
    ensures RowInv(Reaggregated(s, rec), k)
  {
    hide RowInv, AssetsOf, TrueCounts;
    OtherRowKept(s, Reaggregated(s, rec), k);
  }

  lemma QuietRows(s: State, a: Action, k: nat)
    requires Linked(s) && RowsInv(s) && (a.Submit? || a.AddAsset? || a.RemoveAsset?) && k < |s.rows|
    ensures RowInv(Step(s, a), k)
  {
    hide AssetsOf, Accepts;
    assert RowInv(s, k);
  }

  lemma RowsStep(s: State, a: Action)
    requires Linked(s) && RowsInv(s) && Enabled(s, a)
    ensures RowsInv(Step(s, a))
  {
    hide RowInv, Linked;
    var s' := Step(s, a);
    forall k | 0 <= k < |s'.rows| ensures RowInv(s', k) {
      match a
      case FileRows(_) => FileRowsRows(s, a, k);
      case Retry(_) => RetryRows(s, a, k);
      case Send(t) => SendRows(s, t, k);
      case Deliver(t) => DeliverRows(s, t, k);
      case Report(t, ok) => assert |Reported(s, t, ok).rows| == |s.rows|; ReportRows(s, t, ok, k);
      case Recompute(rec) => RecomputeRows(s, rec, k);
      case _ => QuietRows(s, a, k);
    }
  }

  // ---------- records ----------

  lemma CountsLocal(a: seq<Row>, b: seq<Row>, rec: nat)
    requires SameRowsOf(a, b, rec)
    ensures TrueCounts(a, rec) == TrueCounts(b, rec)
  {
    CountLocal(a, b, rec, EVERY);
    CountLocal(a, b, rec, {Succeeded});
    CountLocal(a, b, rec, {Failed});
    CountLocal(a, b, rec, {TimedOut});
    CountLocal(a, b, rec, {Queued, Running});
  }

  /** A step that leaves a record and its rows alone keeps what holds of it. */
  lemma BatchKept(s: State, s': State, rec: nat)
    requires rec < |s.batches| && BatchInv(s, rec) && rec < |s'.batches| && s'.batches[rec] == s.batches[rec]
    requires SameRowsOf(s.rows, s'.rows, rec)
    requires Outstanding(s, rec) ==> Outstanding(s', rec)
    requires rec in s'.drafts ==> rec in s.drafts
    ensures BatchInv(s', rec)
  {
    hide Outstanding, TrueCounts;
    CountsLocal(s.rows, s'.rows, rec);
  }

  /** A record with work left is fine as long as it is not finished. */
  lemma BatchBusy(s: State, rec: nat)
    requires rec < |s.batches| && s.batches[rec].status == InProgress && Outstanding(s, rec)
    ensures BatchInv(s, rec)
  {
  }

  lemma SubmitBatch(s: State, a: Action, rec: nat)
    requires Inv(s) && a.Submit? && rec < |Step(s, a).batches|
    ensures BatchInv(Step(s, a), rec)
  {
    hide WithRows, Sent, Delivered, Reported, Reaggregated, Retried;
    hide Accepts, Linked, RowsInv, UniqueKeys, BatchInv;
    var s' := Step(s, a);
    if rec == |s.batches| {
      BatchBusy(s', rec);
    } else {
      assert BatchInv(s, rec);
      if Outstanding(s, rec) && rec !in s.drafts && rec !in s.finishing {
        var t: Task :| t.rec == rec && Active(s, t) > 0;
        assert Active(s', t) > 0;
      }
      BatchKept(s, s', rec);
    }
  }

  lemma FileRowsBatch(s: State, a: Action, rec: nat)
    requires Inv(s) && a.FileRows? && Enabled(s, a) && rec < |s.batches|
    ensures BatchInv(Step(s, a), rec)
  {
    hide Submitted, Sent, Delivered, Reported, Reaggregated, Retried;
    hide Linked, RowsInv, UniqueKeys;
    var s' := Step(s, a);
    var filed := FreshRows(a.rec, s.batches[a.rec].assets);
    assert BatchInv(s, rec);
    if rec == a.rec {
      assert s.batches[rec].assets != [] by { DraftHasAssets(s, rec); }
      var t := filed[0].task;
      TasksOfMembers(filed, t);
      assert Active(s', t) > 0;
      BatchBusy(s', rec);
    } else {
      FiledElsewhere(s.rows, filed, rec);
      if Outstanding(s, rec) && rec !in s.drafts && rec !in s.finishing {
        var t: Task :| t.rec == rec && Active(s, t) > 0;
        assert Active(s', t) > 0;
      }
      forall k | |s.rows| <= k < |s'.rows| ensures s'.rows[k].task.rec == a.rec {
        assert s'.rows[k] == filed[k - |s.rows|];
      }
    }
  }

  lemma DraftHasAssets(s: State, rec: nat)
    requires Linked(s) && rec < |s.batches|
    ensures s.batches[rec].assets != []
  {
  }

  lemma FiledElsewhere(rows: seq<Row>, filed: seq<Row>, rec: nat)
    requires forall k | 0 <= k < |filed| :: filed[k].task.rec != rec
    ensures TrueCounts(rows + filed, rec) == TrueCounts(rows, rec)
  {
    forall sts: set<HostStatus> ensures Count(rows + filed, rec, sts) == Count(rows, rec, sts) {
      CountAppend(rows, filed, rec, sts);
      CountZero(filed, rec, sts);
    }
  }

  lemma WorkerOwnBatch(s: State, a: Action)
    requires Inv(s) && Enabled(s, a) && (a.Send? || a.Deliver? || a.Report?) && a.task.rec < |s.batches|
    ensures BatchInv(Step(s, a), a.task.rec)
  {
    hide Submitted, WithRows, Reaggregated, Retried;
    hide Linked, RowsInv, UniqueKeys, BatchInv, SetStatus;
    var s' := Step(s, a);
    var rec := a.task.rec;
    TaskHasRow(s, a.task);
    assert Active(s, a.task) > 0;
    if s.batches[rec].status != InProgress { FinishedIsQuiet(s, rec); }
    assert Outstanding(s', rec) by {
      if a.Send? { assert Active(s', a.task) > 0; }
      if a.Deliver? && rec !in s'.finishing { assert Active(s', a.task) > 0; }
    }
    BatchBusy(s', rec);
  }

  /** Moving one task on keeps what is outstanding for every other record. */
  lemma OutstandingElsewhere(s: State, s': State, task: Task, rec: nat)
    requires rec != task.rec && Outstanding(s, rec) && s'.drafts == s.drafts
    requires forall r | r in s.finishing && r != task.rec :: r in s'.finishing
    requires forall t | t != task :: Active(s', t) == Active(s, t)
    ensures Outstanding(s', rec)
  {
    if rec !in s.drafts && rec !in s.finishing {
      var t: Task :| t.rec == rec && Active(s, t) > 0;
      assert Active(s', t) > 0;
    }
  }

  lemma SentElsewhere(s: State, t: Task, rec: nat)
    requires t in s.outbox && rec < |s.batches| && rec != t.rec && BatchInv(s, rec)
    ensures BatchInv(Sent(s, t), rec)
  {
    hide BatchInv, Outstanding;
    if Outstanding(s, rec) { OutstandingElsewhere(s, Sent(s, t), t, rec); }
    BatchKept(s, Sent(s, t), rec);
  }

  lemma DeliveredElsewhere(s: State, t: Task, rec: nat)
    requires t in s.queue && HasRow(s, t) && rec < |s.batches| && rec != t.rec && BatchInv(s, rec)
    ensures BatchInv(Delivered(s, t), rec)
  {
    hide BatchInv, Outstanding, FirstRow;
    var s' := Delivered(s, t);
    assert SameRowsOf(s.rows, s'.rows, rec);
    if Outstanding(s, rec) { OutstandingElsewhere(s, s', t, rec); }
    BatchKept(s, s', rec);
  }

  lemma ReportedElsewhere(s: State, t: Task, ok: bool, rec: nat)
    requires t in s.executing && rec < |s.batches| && rec != t.rec && BatchInv(s, rec)
    ensures BatchInv(Reported(s, t, ok), rec)
  {
    hide BatchInv, Outstanding, FirstRow;
    var s' := Reported(s, t, ok);
    assert SameRowsOf(s.rows, s'.rows, rec);
    if Outstanding(s, rec) { OutstandingElsewhere(s, s', t, rec); }
    BatchKept(s, s', rec);
  }

  lemma WorkerStepIs(s: State, a: Action)
    requires Enabled(s, a) && (a.Send? || a.Deliver? || a.Report?)
    ensures Step(s, a) == if a.Send? then Sent(s, a.task) else if a.Deliver? then Delivered(s, a.task)
                          else Reported(s, a.task, a.ok)
  {
  }

  lemma WorkerBatch(s: State, a: Action, rec: nat)
    requires Inv(s) && Enabled(s, a) && (a.Send? || a.Deliver? || a.Report?) && rec < |s.batches|
    ensures BatchInv(Step(s, a), rec)
  {
    hide Step, Linked, RowsInv, UniqueKeys, BatchInv;
    if rec == a.task.rec {
      WorkerOwnBatch(s, a);
    } else {
      assert BatchInv(s, rec);
      WorkerStepIs(s, a);
      match a
      case Send(t) => SentElsewhere(s, t, rec);
      case Deliver(t) => TaskHasRow(s, a.task); DeliveredElsewhere(s, t, rec);
      case Report(t, ok) => ReportedElsewhere(s, t, ok, rec);
    }
  }

  /** Re-aggregating makes the record agree with its rows, and finishes it only if they are finished. */
  lemma RecomputedBatch(b: Batch, rows: seq<Row>, rec: nat)
    requires b.status != InProgress ==>
               forall k | 0 <= k < |rows| && rows[k].task.rec == rec :: Terminal(rows[k].status)
    ensures var r := Recomputed(b, rows, rec);
      Recomputed(r, rows, rec) == r &&
      (r.status != InProgress ==> forall k | 0 <= k < |rows| && rows[k].task.rec == rec :: Terminal(rows[k].status))
  {
    CountZero(rows, rec, {Queued, Running});
  }

  lemma RecomputeBatch(s: State, a: Action, rec: nat)
    requires Inv(s) && Enabled(s, a) && a.Recompute? && rec < |s.batches|
    ensures BatchInv(Step(s, a), rec)
  {
    hide Submitted, WithRows, Sent, Delivered, Reported, Retried;
    hide Linked, RowsInv, UniqueKeys, Recomputed;
    var s' := Step(s, a);
    assert BatchInv(s, rec);
    if rec == a.rec {
      assert Filed(s, rec) by { FinishingIsFiled(s, rec); }
      RecomputedBatch(s.batches[rec], s.rows, rec);
    } else if Outstanding(s, rec) && rec !in s.drafts && rec !in s.finishing {
      var t: Task :| t.rec == rec && Active(s, t) > 0;
      assert Active(s', t) > 0;
    }
  }

  lemma FinishingIsFiled(s: State, rec: nat)
    requires Linked(s) && rec in s.finishing
    ensures Filed(s, rec)
  {
  }

  lemma RetryBatch(s: State, a: Action, rec: nat)
    requires Inv(s) && a.Retry? && rec < |s.batches|
    ensures BatchInv(Step(s, a), rec)
  {
    hide Submitted, WithRows, Sent, Delivered, Reported, Reaggregated;
    hide Linked, RowsInv, UniqueKeys, BatchInv, FailedTasks, Count;
    var s' := Step(s, a);
    assert BatchInv(s, rec);
    if s' == s {
    } else if rec == a.rec {
      var t :| t in FailedTasks(s.rows, rec);
      FailedTaskHasRow(s.rows, rec, t);
      assert Active(s', t) > 0;
      BatchBusy(s', rec);
    } else {
      if Outstanding(s, rec) && rec !in s.drafts && rec !in s.finishing {
        var t: Task :| t.rec == rec && Active(s, t) > 0;
        assert Active(s', t) > 0;
      }
      BatchKept(s, s', rec);
    }
  }

  lemma BatchesStep(s: State, a: Action)
    requires Inv(s) && Enabled(s, a)
    ensures BatchesInv(Step(s, a))
  {
    hide Inv, BatchInv, Accepts;
    forall rec | 0 <= rec < |Step(s, a).batches| ensures BatchInv(Step(s, a), rec) {
      match a
      case Submit(_, _, _, _) => SubmitBatch(s, a, rec);
      case FileRows(_) => FileRowsBatch(s, a, rec);
      case Recompute(_) => RecomputeBatch(s, a, rec);
      case Retry(_) => RetryBatch(s, a, rec);
      case AddAsset(_) => AssetsBatch(s, a, rec);
      case RemoveAsset(_) => AssetsBatch(s, a, rec);
      case _ => WorkerBatch(s, a, rec);
    }
  }

  lemma AssetsBatch(s: State, a: Action, rec: nat)
    requires Inv(s) && (a.AddAsset? || a.RemoveAsset?) && rec < |s.batches|
    ensures BatchInv(Step(s, a), rec)
  {
    hide Submitted, WithRows, Sent, Delivered, Reported, Reaggregated, Retried;
    hide Linked, RowsInv, UniqueKeys, BatchInv;
    var s' := Step(s, a);
    assert BatchInv(s, rec);
    if Outstanding(s, rec) && rec !in s.drafts && rec !in s.finishing {
      var t: Task :| t.rec == rec && Active(s, t) > 0;
      assert Active(s', t) > 0;
    }
    BatchKept(s, s', rec);
  }

  // ---------- every run ----------

  lemma InvStep(s: State, a: Action)
    requires Inv(s) && Enabled(s, a)
    ensures Inv(Step(s, a))
  {
    hide Linked, RowsInv, UniqueKeys, BatchesInv, Step;
    LinkedStep(s, a);
    KeysStep(s, a);
    RowsStep(s, a);
    BatchesStep(s, a);
  }

  lemma {:induction false} RunKeepsInv(s: State, acts: seq<Action>)
    requires Inv(s) && Runs(s, acts)
    ensures Inv(After(s, acts))
    decreases |acts|
  {
    hide Inv;
    if acts != [] {
      InvStep(s, acts[0]);
      RunKeepsInv(Step(s, acts[0]), acts[1..]);
    }
  }
}

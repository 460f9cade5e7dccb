/** What every reachable state of the batch protocol keeps. */
module ExecInvariant {
  import opened Lists
  import opened ExecProtocol

  // ---------- facts about row lists ----------

  /** The assets of a record's rows, in row order. */
  function AssetsOf(rows: seq<Row>, rec: nat): seq<nat> {
    if rows == [] then []
    else
      var last := rows[|rows| - 1];
      AssetsOf(rows[..|rows| - 1], rec) + (if last.task.rec == rec then [last.task.asset] else [])
  }

  predicate IsFirst(rows: seq<Row>, k: nat)
    requires k < |rows|
  {
    FirstRow(rows, rows[k].task) == k
  }

  predicate SameTasks(a: seq<Row>, b: seq<Row>) {
    |a| == |b| && forall k | 0 <= k < |a| :: a[k].task == b[k].task
  }

  lemma EveryStatus(st: HostStatus)
    ensures st in EVERY
  {
    match st case Queued => case Running => case Succeeded => case Failed => case TimedOut =>
  }

  lemma {:induction false} SameTasksSameAssets(a: seq<Row>, b: seq<Row>, rec: nat)
    requires SameTasks(a, b)
    ensures AssetsOf(a, rec) == AssetsOf(b, rec)
    ensures Count(a, rec, EVERY) == Count(b, rec, EVERY)
  {
    if a != [] {
      SameTasksSameAssets(a[..|a| - 1], b[..|b| - 1], rec);
      EveryStatus(a[|a| - 1].status);
      EveryStatus(b[|b| - 1].status);
    }
  }

  lemma SameTasksSameFirst(a: seq<Row>, b: seq<Row>, t: Task)
    requires SameTasks(a, b)
    ensures FirstRow(a, t) == FirstRow(b, t)
  {
    var i, j := FirstRow(a, t), FirstRow(b, t);
    assert i < |a| ==> b[i].task == t;
    assert j < |b| ==> a[j].task == t;
  }

  lemma {:induction false} AssetAppears(rows: seq<Row>, rec: nat, x: nat)
    ensures x in AssetsOf(rows, rec) <==> FirstRow(rows, Task(rec, x)) < |rows|
  {
    if rows != [] { AssetAppears(rows[..|rows| - 1], rec, x); }
  }

  lemma NoDupAppend(xs: seq<nat>, x: nat)
    ensures NoDup(xs + [x]) <==> NoDup(xs) && x !in xs
  {
    var all := xs + [x];
    if NoDup(all) {
      assert forall i | 0 <= i < |xs| :: all[i] == xs[i];
      assert all[|xs|] == x;
    }
  }

  /** A record's rows are all first rows of their task exactly when its assets do not repeat. */
  lemma {:induction false} FirstRowsIffNoDup(rows: seq<Row>, rec: nat)
    ensures NoDup(AssetsOf(rows, rec)) <==> forall k | 0 <= k < |rows| && rows[k].task.rec == rec :: IsFirst(rows, k)
  {
    if rows != [] {
      var front, last := rows[..|rows| - 1], rows[|rows| - 1];
      FirstRowsIffNoDup(front, rec);
      AssetAppears(front, rec, last.task.asset);
      NoDupAppend(AssetsOf(front, rec), last.task.asset);
      forall k | 0 <= k < |front| ensures IsFirst(front, k) <==> IsFirst(rows, k) {}
      if last.task.rec != rec { assert AssetsOf(front, rec) + [] == AssetsOf(front, rec); }
    }
  }

  predicate SameRowsOf(a: seq<Row>, b: seq<Row>, rec: nat) {
    |a| == |b| && forall k | 0 <= k < |a| :: a[k] == b[k] || (a[k].task.rec != rec && b[k].task.rec != rec)
  }

  lemma {:induction false} CountLocal(a: seq<Row>, b: seq<Row>, rec: nat, sts: set<HostStatus>)
    requires SameRowsOf(a, b, rec)
    ensures Count(a, rec, sts) == Count(b, rec, sts)
  {
    if a != [] { CountLocal(a[..|a| - 1], b[..|b| - 1], rec, sts); }
  }

  lemma {:induction false} CountAppend(a: seq<Row>, b: seq<Row>, rec: nat, sts: set<HostStatus>)
    ensures Count(a + b, rec, sts) == Count(a, rec, sts) + Count(b, rec, sts)
    ensures AssetsOf(a + b, rec) == AssetsOf(a, rec) + AssetsOf(b, rec)
    decreases |b|
  {
    if b == [] {
      assert a + b == a;
    } else {
      assert (a + b)[..|a + b| - 1] == a + b[..|b| - 1];
      CountAppend(a, b[..|b| - 1], rec, sts);
    }
  }

  /** A zero count means no such row. */
  lemma {:induction false} CountZero(rows: seq<Row>, rec: nat, sts: set<HostStatus>)
    ensures Count(rows, rec, sts) == 0 <==>
            forall k | 0 <= k < |rows| && rows[k].task.rec == rec :: rows[k].status !in sts
  {
    if rows != [] { CountZero(rows[..|rows| - 1], rec, sts); }
  }

  /** The counts of a record always add up to its rows. */
  lemma {:induction false} CountsAddUp(rows: seq<Row>, rec: nat)
    ensures var c := TrueCounts(rows, rec);
      c.total == c.succeeded + c.failed + c.timedOut + c.running && c.total == |AssetsOf(rows, rec)|
  {
    if rows != [] {
      CountsAddUp(rows[..|rows| - 1], rec);
      EveryStatus(rows[|rows| - 1].status);
    }
  }

  lemma {:induction false} FreshRowsOf(rec: nat, assets: seq<nat>, r: nat)
    ensures AssetsOf(FreshRows(rec, assets), r) == if r == rec then assets else []
    decreases |assets|
  {
    if assets != [] {
      var front := assets[..|assets| - 1];
      assert FreshRows(rec, assets)[..|assets| - 1] == FreshRows(rec, front);
      FreshRowsOf(rec, front, r);
    }
  }

  /** How often a task was filed. */
  lemma {:induction false} TasksOfMembers(rows: seq<Row>, t: Task)
    ensures t in TasksOf(rows) <==> FirstRow(rows, t) < |rows|
    ensures (forall k | 0 <= k < |rows| :: IsFirst(rows, k)) ==> TasksOf(rows)[t] <= 1
  {
    if rows != [] {
      var front := rows[..|rows| - 1];
      TasksOfMembers(front, t);
      if forall k | 0 <= k < |rows| :: IsFirst(rows, k) {
        forall k | 0 <= k < |front| ensures IsFirst(front, k) { assert IsFirst(rows, k); }
        assert IsFirst(rows, |rows| - 1);
      }
    }
  }

  /** A retry dispatches only tasks of failed rows of the record. */
  lemma {:induction false} FailedTaskHasRow(rows: seq<Row>, rec: nat, t: Task)
    ensures t in FailedTasks(rows, rec) ==>
              t.rec == rec && exists k :: 0 <= k < |rows| && rows[k].task == t && Retryable(rows[k].status)
  {
    if rows != [] {
      var front := rows[..|rows| - 1];
      FailedTaskHasRow(front, rec, t);
      if k :| 0 <= k < |front| && front[k].task == t && Retryable(front[k].status) {
        assert rows[k] == front[k];
      }
    }
  }

  /** A retry dispatches a task once if its first row has failed, when no other row was ever written. */
  lemma {:induction false} FailedTasksAt(rows: seq<Row>, rec: nat, t: Task)
    ensures (forall k | 0 <= k < |rows| && !IsFirst(rows, k) :: rows[k].status == Queued) ==>
              FailedTasks(rows, rec)[t] ==
                if t.rec == rec && FirstRow(rows, t) < |rows| && Retryable(rows[FirstRow(rows, t)].status)
                then 1 else 0
  {
    if rows != [] {
      var front := rows[..|rows| - 1];
      FailedTaskHasRow(front, rec, t);
      FailedTasksAt(front, rec, t);
      if forall k | 0 <= k < |rows| && !IsFirst(rows, k) :: rows[k].status == Queued {
        forall k | 0 <= k < |front| && !IsFirst(front, k) ensures front[k].status == Queued {
          assert !IsFirst(rows, k);
        }
      }
    }
  }

  // ---------- the invariant ----------

  function Undelivered(s: State, t: Task): nat { s.outbox[t] + s.queue[t] }

  function Active(s: State, t: Task): nat { Undelivered(s, t) + s.executing[t] }

  /** Some API call or worker still has work to do for the record. */
  ghost predicate Outstanding(s: State, rec: nat) {
    rec in s.drafts || rec in s.finishing || exists t: Task :: t.rec == rec && Active(s, t) > 0
  }

  predicate Filed(s: State, rec: nat) { rec < |s.batches| && rec !in s.drafts }

  predicate HasRow(s: State, t: Task) { Filed(s, t.rec) && FirstRow(s.rows, t) < |s.rows| }

  /** Rows, tasks and records refer to each other. */
  ghost predicate Linked(s: State) {
    (forall rec | rec in s.drafts :: rec < |s.batches|) &&
    (forall rec | 0 <= rec < |s.batches| :: s.batches[rec].assets != [] &&
       AssetsOf(s.rows, rec) == if rec in s.drafts then [] else s.batches[rec].assets) &&
    (forall k | 0 <= k < |s.rows| :: Filed(s, s.rows[k].task.rec)) &&
    (forall t | Active(s, t) > 0 || t in s.stranded :: HasRow(s, t)) &&
    (forall rec | rec in s.finishing :: Filed(s, rec))
  }

  /** At most one record per user and non-empty idempotency key. */
  predicate UniqueKeys(batches: seq<Batch>) {
    forall i, j | 0 <= i < j < |batches| ::
      batches[i].key != "" && batches[i].key == batches[j].key ==> batches[i].user != batches[j].user
  }

  /** A task of a record without repeated assets, and the one row that stands for it. */
  predicate TaskMatchesRow(s: State, t: Task, st: HostStatus) {
    match st
    case Queued => if t in s.stranded then Active(s, t) == 0 else Undelivered(s, t) == 1 && s.executing[t] == 0
    case Running => t !in s.stranded && Undelivered(s, t) == 0 && s.executing[t] == 1
    case _ => t !in s.stranded && Active(s, t) == 0
  }

  predicate Distinct(s: State, rec: nat) { rec < |s.batches| && NoDup(s.batches[rec].assets) }

  predicate RowInv(s: State, k: nat)
    requires k < |s.rows|
  {
    var r := s.rows[k];
    r.status != TimedOut &&
    (!IsFirst(s.rows, k) ==> r.status == Queued) &&
    (Distinct(s, r.task.rec) ==> TaskMatchesRow(s, r.task, r.status))
  }

  ghost predicate RowsInv(s: State) { forall k | 0 <= k < |s.rows| :: RowInv(s, k) }

  predicate AllTerminal(s: State, rec: nat) {
    forall k | 0 <= k < |s.rows| && s.rows[k].task.rec == rec :: Terminal(s.rows[k].status)
  }

  /** A record with nothing outstanding is up to date, and a finished one has only finished rows. */
  ghost predicate BatchInv(s: State, rec: nat)
    requires rec < |s.batches|
  {
    (rec in s.drafts ==> s.batches[rec].status == InProgress) &&
    (Outstanding(s, rec) || Recomputed(s.batches[rec], s.rows, rec) == s.batches[rec]) &&
    (s.batches[rec].status != InProgress ==> AllTerminal(s, rec))
  }

  ghost predicate BatchesInv(s: State) { forall rec | 0 <= rec < |s.batches| :: BatchInv(s, rec) }

  ghost predicate Inv(s: State) { Linked(s) && UniqueKeys(s.batches) && RowsInv(s) && BatchesInv(s) }

  // ---------- consequences ----------

  /** The rows of a filed record are all first rows exactly when its assets do not repeat. */
  lemma RowsOfDistinct(s: State, rec: nat)
    requires Linked(s) && Filed(s, rec)
    ensures Distinct(s, rec) <==> forall k | 0 <= k < |s.rows| && s.rows[k].task.rec == rec :: IsFirst(s.rows, k)
  {
    FirstRowsIffNoDup(s.rows, rec);
  }

  /** In a record of distinct assets, a task's row says where the task is. */
  lemma TaskRow(s: State, t: Task)
    requires RowsInv(s) && HasRow(s, t) && Distinct(s, t.rec)
    ensures TaskMatchesRow(s, t, s.rows[FirstRow(s.rows, t)].status)
  {
    assert RowInv(s, FirstRow(s.rows, t));
  }

  /** A record that is done or partial has distinct assets and nothing queued, running or stranded. */
  lemma FinishedIsQuiet(s: State, rec: nat)
    requires Inv(s) && Filed(s, rec) && s.batches[rec].status != InProgress
    ensures Distinct(s, rec)
    ensures forall t: Task | t.rec == rec :: Active(s, t) == 0 && t !in s.stranded
  {
    assert BatchInv(s, rec);
    forall k | 0 <= k < |s.rows| && s.rows[k].task.rec == rec ensures IsFirst(s.rows, k) {
      assert RowInv(s, k);
    }
    RowsOfDistinct(s, rec);
    forall t: Task | t.rec == rec ensures Active(s, t) == 0 && t !in s.stranded {
      if HasRow(s, t) { TaskRow(s, t); }
    }
  }

  lemma InitInv(assets: set<nat>)
    ensures Inv(Init(assets))
  {
  }
}

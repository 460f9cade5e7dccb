/** What the batch calls do, said of the request, the rows and the tasks alone. */
module ExecLaws {
  import opened ExecProtocol
  import opened ExecInvariant

  // ---------- submission ----------

  /** A record already answers for the user's key. */
  predicate AlreadyAnswered(s: State, user: string, key: string) {
    key != "" && exists b <- s.batches :: b.key == key && b.user == user
  }

  /** A request that may be carried out: command and confirmation accepted, and between 1 and 50 assets
      named, all of which exist. */
  predicate MayRun(s: State, assets: seq<nat>, resolved: bool) {
    resolved && 1 <= |assets| <= 50 && forall x <- assets :: x in s.assets
  }

  /** A submission adds exactly one record, of its own assets and with nothing counted yet, if no record
      answers for its key and it may be carried out; otherwise it changes nothing. */
  lemma SubmissionAddsIff(s: State, user: string, key: string, assets: seq<nat>, resolved: bool)
    ensures var t := Step(s, Submit(user, key, assets, resolved));
      if !AlreadyAnswered(s, user, key) && MayRun(s, assets, resolved)
      then t == s.(batches := s.batches + [Batch(user, key, assets, InProgress, Counts(|assets|, 0, 0, 0, 0))],
                   drafts := s.drafts + {|s.batches|})
      else t == s
  {
    AnsweredIff(s, user, key);
    hide Existing;
  }

  lemma AnsweredIff(s: State, user: string, key: string)
    ensures AlreadyAnswered(s, user, key) <==> Existing(s.batches, user, key) < |s.batches|
  {
    var i := Existing(s.batches, user, key);
    assert i < |s.batches| ==> s.batches[i] in s.batches;
  }

  // ---------- the first row of a task ----------

  /** Position `k` holds the first row of the task. */
  predicate FirstAt(rows: seq<Row>, t: Task, k: nat) {
    k < |rows| && rows[k].task == t && forall j | 0 <= j < k :: rows[j].task != t
  }

  lemma FirstRowIsFirst(rows: seq<Row>, t: Task)
    ensures forall k: nat :: FirstAt(rows, t, k) ==> FirstRow(rows, t) == k
    ensures (exists k: nat :: FirstAt(rows, t, k)) <==> FirstRow(rows, t) < |rows|
  {
    hide FirstRow;
    var i := FirstRow(rows, t);
    if i < |rows| { assert FirstAt(rows, t, i); }
    forall k: nat | FirstAt(rows, t, k) ensures i == k { assert rows[k].task == t; }
  }

  /** A delivery takes the task from the queue. For an unknown record that is all; for a deleted asset it
      only leaves a re-aggregation to do; otherwise a worker executes the task, and its first row, or a
      new one, is running. */
  lemma DeliveryMeans(s: State, t: Task)
    requires Enabled(s, Deliver(t))
    ensures var u := Step(s, Deliver(t)); var rest := s.queue - multiset{t};
      if t.rec >= |s.batches| then u == s.(queue := rest)
      else if t.asset !in s.assets
      then u == s.(queue := rest, finishing := s.finishing + multiset{t.rec}, stranded := s.stranded + {t})
      else
        u == s.(queue := rest, executing := s.executing + multiset{t}, rows := u.rows) &&
        (forall k: nat | FirstAt(s.rows, t, k) :: u.rows == s.rows[k := Row(t, Running)]) &&
        ((forall k: nat :: !FirstAt(s.rows, t, k)) ==> u.rows == s.rows + [Row(t, Running)])
  {
    FirstRowIsFirst(s.rows, t);
    hide FirstRow, FirstAt;
  }

  /** An outcome goes into the first row of the task, and a re-aggregation becomes due. */
  lemma ReportMeans(s: State, t: Task, ok: bool)
    requires Enabled(s, Report(t, ok))
    ensures var u := Step(s, Report(t, ok));
      u == s.(executing := s.executing - multiset{t}, finishing := s.finishing + multiset{t.rec}, rows := u.rows) &&
      (forall k: nat | FirstAt(s.rows, t, k) :: u.rows == s.rows[k := Row(t, if ok then Succeeded else Failed)]) &&
      ((forall k: nat :: !FirstAt(s.rows, t, k)) ==> u.rows == s.rows)
  {
    FirstRowIsFirst(s.rows, t);
    hide FirstRow, FirstAt;
  }

  // ---------- what a record counts ----------

  /** The positions of the rows of a record whose status is one of these. */
  function RowsWith(rows: seq<Row>, rec: nat, sts: set<HostStatus>): set<nat> {
    set k: nat | k < |rows| && rows[k].task.rec == rec && rows[k].status in sts
  }

  lemma {:induction false} CountIsSize(rows: seq<Row>, rec: nat, sts: set<HostStatus>)
    ensures Count(rows, rec, sts) == |RowsWith(rows, rec, sts)|
  {
    if rows != [] {
      var n := |rows| - 1;
      CountIsSize(rows[..n], rec, sts);
      var before := RowsWith(rows[..n], rec, sts);
      assert forall k: nat | k < n :: rows[..n][k] == rows[k];
      if rows[n].task.rec == rec && rows[n].status in sts {
        assert RowsWith(rows, rec, sts) == before + {n};
      } else {
        assert RowsWith(rows, rec, sts) == before;
      }
    }
  }

  const UNFINISHED: set<HostStatus> := {Queued, Running}
  const UNSUCCESSFUL: set<HostStatus> := {Failed, TimedOut}

  /** A re-aggregation counts the rows of the record by status. It changes the status only when there are
      rows and none is unfinished: to partial if some host succeeded and some did not, else to done. */
  lemma RecomputeMeans(s: State, rec: nat)
    requires Enabled(s, Recompute(rec))
    ensures var u := Step(s, Recompute(rec)); var fewer := s.finishing - multiset{rec};
      if rec >= |s.batches| then u == s.(finishing := fewer)
      else
        u == s.(finishing := fewer, batches := u.batches) && |u.batches| == |s.batches| &&
        (forall i | 0 <= i < |s.batches| && i != rec :: u.batches[i] == s.batches[i]) &&
        var b, c := u.batches[rec], u.batches[rec].counts;
        b == s.batches[rec].(counts := c, status := b.status) &&
        c.total == |RowsWith(s.rows, rec, EVERY)| && c.succeeded == |RowsWith(s.rows, rec, {Succeeded})| &&
        c.failed == |RowsWith(s.rows, rec, {Failed})| && c.timedOut == |RowsWith(s.rows, rec, {TimedOut})| &&
        c.running == |RowsWith(s.rows, rec, UNFINISHED)| &&
        b.status ==
          if RowsWith(s.rows, rec, EVERY) == {} || RowsWith(s.rows, rec, UNFINISHED) != {} then s.batches[rec].status
          else if RowsWith(s.rows, rec, UNSUCCESSFUL) != {} && RowsWith(s.rows, rec, {Succeeded}) != {} then Partial
          else Done
  {
    hide Count, RowsWith;
    forall sts: set<HostStatus> ensures Count(s.rows, rec, sts) == |RowsWith(s.rows, rec, sts)| {
      CountIsSize(s.rows, rec, sts);
    }
    UnsuccessfulSplit(s.rows, rec);
  }

  lemma UnsuccessfulSplit(rows: seq<Row>, rec: nat)
    ensures RowsWith(rows, rec, UNSUCCESSFUL) == {} <==>
            RowsWith(rows, rec, {Failed}) == {} && RowsWith(rows, rec, {TimedOut}) == {}
  {
    assert RowsWith(rows, rec, UNSUCCESSFUL) == RowsWith(rows, rec, {Failed}) + RowsWith(rows, rec, {TimedOut});
  }

  // ---------- filing and retrying ----------

  /** The positions of the rows that carry the task. */
  function RowsOf(rows: seq<Row>, t: Task): set<nat> { set k: nat | k < |rows| && rows[k].task == t }

  lemma {:induction false} TasksAreRows(rows: seq<Row>, t: Task)
    ensures TasksOf(rows)[t] == |RowsOf(rows, t)|
  {
    if rows != [] {
      var n := |rows| - 1;
      TasksAreRows(rows[..n], t);
      assert forall k: nat | k < n :: rows[..n][k] == rows[k];
      if rows[n].task == t {
        assert RowsOf(rows, t) == RowsOf(rows[..n], t) + {n};
      } else {
        assert RowsOf(rows, t) == RowsOf(rows[..n], t);
      }
    }
  }

  /** Filing a record appends one queued row per asset in the order of the request, and makes one task
      ready for each. */
  lemma FilingMeans(s: State, rec: nat)
    requires Enabled(s, FileRows(rec))
    ensures var u, ids := Step(s, FileRows(rec)), s.batches[rec].assets; var added := u.rows[|s.rows|..];
      |s.rows| <= |u.rows| &&
      u == s.(rows := s.rows + added, drafts := s.drafts - {rec}, outbox := u.outbox) && |added| == |ids| &&
      (forall i | 0 <= i < |ids| :: added[i] == Row(Task(rec, ids[i]), Queued)) &&
      forall t: Task :: u.outbox[t] == s.outbox[t] + |RowsOf(added, t)|
  {
    hide TasksOf;
    var added := FreshRows(rec, s.batches[rec].assets);
    assert (s.rows + added)[|s.rows|..] == added;
    forall t: Task ensures TasksOf(added)[t] == |RowsOf(added, t)| { TasksAreRows(added, t); }
  }

  /** The positions of the record's rows that carry the task and may be retried. */
  function RetriedOf(rows: seq<Row>, rec: nat, t: Task): set<nat> {
    set k: nat | k < |rows| && rows[k].task == t && t.rec == rec && rows[k].status in UNSUCCESSFUL
  }

  lemma FailedUnfolds(rows: seq<Row>, rec: nat)
    requires rows != []
    ensures var n := |rows| - 1;
      FailedTasks(rows, rec) == FailedTasks(rows[..n], rec) +
        (if rows[n].task.rec == rec && rows[n].status in UNSUCCESSFUL then multiset{rows[n].task} else multiset{})
  {
  }

  lemma RetriedUnfolds(rows: seq<Row>, rec: nat, t: Task)
    requires rows != []
    ensures var n := |rows| - 1;
      |RetriedOf(rows, rec, t)| == |RetriedOf(rows[..n], rec, t)| +
        (if rows[n].task == t && t.rec == rec && rows[n].status in UNSUCCESSFUL then 1 else 0)
  {
    var n := |rows| - 1;
    assert forall k: nat | k < n :: rows[..n][k] == rows[k];
    if rows[n].task == t && t.rec == rec && rows[n].status in UNSUCCESSFUL {
      assert RetriedOf(rows, rec, t) == RetriedOf(rows[..n], rec, t) + {n};
    } else {
      assert RetriedOf(rows, rec, t) == RetriedOf(rows[..n], rec, t);
    }
  }

  lemma {:induction false} FailedAreRows(rows: seq<Row>, rec: nat, t: Task)
    ensures FailedTasks(rows, rec)[t] == |RetriedOf(rows, rec, t)|
  {
    hide Count, FailedTasks, RetriedOf;
    if rows == [] {
      NoneFailed(rec, t);
    } else {
      FailedAreRows(rows[..|rows| - 1], rec, t);
      FailedUnfolds(rows, rec);
      RetriedUnfolds(rows, rec, t);
    }
  }

  lemma NoneFailed(rec: nat, t: Task)
    ensures FailedTasks([], rec)[t] == 0 == |RetriedOf([], rec, t)|
  {
  }

  /** A retry queues exactly the failed and timed-out rows of the record again, makes one task ready for
      each and reopens the record; without such a row it changes nothing. */
  lemma RetryMeans(s: State, rec: nat)
    ensures var u := Step(s, Retry(rec));
      if rec >= |s.batches| || RowsWith(s.rows, rec, UNSUCCESSFUL) == {} then u == s
      else
        u == s.(rows := u.rows, outbox := u.outbox,
                batches := s.batches[rec := s.batches[rec].(status := InProgress)]) &&
        |u.rows| == |s.rows| &&
        (forall k: nat | k < |s.rows| ::
           u.rows[k] == if k in RowsWith(s.rows, rec, UNSUCCESSFUL) then s.rows[k].(status := Queued) else s.rows[k]) &&
        forall t: Task :: u.outbox[t] == s.outbox[t] + |RetriedOf(s.rows, rec, t)|
  {
    hide FailedTasks, Count, RetriedOf;
    CountIsSize(s.rows, rec, {Failed, TimedOut});
    forall t: Task ensures FailedTasks(s.rows, rec)[t] == |RetriedOf(s.rows, rec, t)| { FailedAreRows(s.rows, rec, t); }
  }

  /** Sending moves one task to the queue; assets come and go by themselves. */
  lemma OtherStepsMean(s: State, t: Task, x: nat)
    ensures t in s.outbox ==>
              Step(s, Send(t)) == s.(outbox := s.outbox - multiset{t}, queue := s.queue + multiset{t})
    ensures Step(s, AddAsset(x)) == s.(assets := s.assets + {x})
    ensures Step(s, RemoveAsset(x)) == s.(assets := s.assets - {x})
  {
  }
}

/** The batch API and the worker as they run: records, rows and messages updated in place. */
module ExecService {
  import opened ExecProtocol
  import opened ExecInvariant
  import opened ExecLaws

  datatype Submission = Returned(rec: nat) | Rejected

  lemma PrefixStep(rows: seq<Row>, i: nat)
    requires i < |rows|
    ensures rows[..i + 1][..i] == rows[..i] && rows[..i + 1][i] == rows[i]
  {
  }

  lemma CountPrefix(rows: seq<Row>, rec: nat, i: nat, sts: set<HostStatus>)
    requires i < |rows|
    ensures Count(rows[..i + 1], rec, sts)
            == Count(rows[..i], rec, sts) + (if rows[i].task.rec == rec && rows[i].status in sts then 1 else 0)
  {
    PrefixStep(rows, i);
  }

  lemma CountNone(rows: seq<Row>, rec: nat, sts: set<HostStatus>)
    ensures Count(rows[..0], rec, sts) == 0
  {
  }

  lemma NothingFiled(rows: seq<Row>)
    ensures TasksOf(rows[..0]) == multiset{}
    ensures forall rec :: FailedTasks(rows[..0], rec) == multiset{}
  {
  }

  lemma FiledPrefix(filed: seq<Row>, i: nat)
    requires i < |filed|
    ensures TasksOf(filed[..i + 1]) == TasksOf(filed[..i]) + multiset{filed[i].task}
    ensures filed[..i + 1] == filed[..i] + [filed[i]]
  {
    PrefixStep(filed, i);
  }

  lemma FailedPrefix(rows: seq<Row>, rec: nat, i: nat)
    requires i < |rows|
    ensures FailedTasks(rows[..i + 1], rec) == FailedTasks(rows[..i], rec) +
      (if rows[i].task.rec == rec && Retryable(rows[i].status) then multiset{rows[i].task} else multiset{})
  {
    PrefixStep(rows, i);
  }

  lemma SetStatusAt(rows: seq<Row>, t: Task, st: HostStatus)
    ensures var k := FirstRow(rows, t);
      SetStatus(rows, t, st) == if k < |rows| then rows[k := rows[k].(status := st)] else rows
  {
  }

  class ExecBackend {
    var assets: set<nat>
    var batches: seq<Batch>
    var drafts: set<nat>
    var rows: seq<Row>
    var outbox: multiset<Task>
    var queue: multiset<Task>
    var executing: multiset<Task>
    var finishing: multiset<nat>
    ghost var stranded: set<Task>

    ghost function View(): State
      reads this
    {
      State(assets, batches, drafts, rows, outbox, queue, executing, finishing, stranded)
    }

    constructor (assets: set<nat>)
      ensures View() == Init(assets)
    {
      this.assets := assets;
      batches, drafts, rows := [], {}, [];
      outbox, queue, executing, finishing, stranded := multiset{}, multiset{}, multiset{}, multiset{}, {};
    }

    /** `_validate_assets` */
    method ValidateAssets(ids: seq<nat>) returns (ok: bool)
      ensures ok <==> 1 <= |ids| <= BATCH_MAX_ASSETS && forall x <- ids :: x in assets
    {
      if |ids| == 0 || |ids| > BATCH_MAX_ASSETS { return false; }
      ok := true;
      for i := 0 to |ids|
        invariant ok <==> forall j | 0 <= j < i :: ids[j] in assets
      {
        if ids[i] !in assets { ok := false; }
      }
    }

    /** `batch_exec` up to the commit of the record; `resolved` says whether the command,
        the permissions and the confirmation token were accepted. */
    method SubmitBatch(user: string, key: string, ids: seq<nat>, resolved: bool) returns (r: Submission)
      modifies this`batches, this`drafts
      ensures View() == Submitted(old(View()), Submit(user, key, ids, resolved))
      ensures r == if Existing(old(batches), user, key) < |old(batches)|
                   then Returned(Existing(old(batches), user, key))
                   else if Accepts(old(View()), Submit(user, key, ids, resolved)) then Returned(|old(batches)|)
                   else Rejected
      ensures r.Rejected? <==> !AlreadyAnswered(old(View()), user, key) && !MayRun(old(View()), ids, resolved)
      ensures r.Rejected? ==> View() == old(View())
      ensures r.Returned? ==> r.rec < |batches| && batches[r.rec].user == user && batches[r.rec].key == key
      ensures r.Returned? ==> (r.rec < |old(batches)| <==> AlreadyAnswered(old(View()), user, key))
    {
      AnsweredIff(View(), user, key);
      if key != "" {
        var existing := Existing(batches, user, key);
        if existing < |batches| { return Returned(existing); }
      }
      var valid := ValidateAssets(ids);
      if !valid || !resolved { return Rejected; }
      r := Returned(|batches|);
      drafts := drafts + {|batches|};
      batches := batches + [Batch(user, key, ids, InProgress, Counts(|ids|, 0, 0, 0, 0))];
    }

    /** The loop of `batch_exec` that inserts one queued row per host and prepares its task. */
    method InsertHostRows(rec: nat)
      requires rec in drafts && rec < |batches|
      modifies this`rows, this`outbox, this`drafts
      ensures View() == WithRows(old(View()), rec)
    {
      hide TasksOf;
      var ids := batches[rec].assets;
      ghost var filed := FreshRows(rec, ids);
      NothingFiled(filed);
      for i := 0 to |ids|
        invariant drafts == old(drafts) && rows == old(rows) + filed[..i]
        invariant outbox == old(outbox) + TasksOf(filed[..i])
      {
        rows := rows + [Row(Task(rec, ids[i]), Queued)];
        outbox := outbox + multiset{Task(rec, ids[i])};
        FiledPrefix(filed, i);
      }
      assert filed[..|ids|] == filed;
      drafts := drafts - {rec};
    }

    method SendTask(t: Task)
      requires t in outbox
      modifies this`outbox, this`queue
      ensures View() == Sent(old(View()), t)
    {
      outbox := outbox - multiset{t};
      queue := queue + multiset{t};
    }

    /** The worker's look-up of its row; `.first()` over the rows of record and asset. */
    method FindRow(t: Task) returns (k: nat)
      ensures k == FirstRow(rows, t)
    {
      k := 0;
      while k < |rows| && rows[k].task != t
        invariant k <= |rows| && forall j | 0 <= j < k :: rows[j].task != t
      {
        k := k + 1;
      }
    }

    /** `exec_host_result` up to the commit of `running`. */
    method DeliverTask(t: Task)
      requires t in queue
      modifies this`queue, this`finishing, this`stranded, this`rows, this`executing
      ensures View() == Delivered(old(View()), t)
    {
      hide RowsRunning;
      queue := queue - multiset{t};
      if t.rec >= |batches| { return; }
      if t.asset !in assets {
        stranded := stranded + {t};
        finishing := finishing + multiset{t.rec};
        return;
      }
      MarkRunning(t);
      executing := executing + multiset{t};
    }

    /** The row of the task becomes `running`; one is inserted if there is none. */
    method MarkRunning(t: Task)
      modifies this`rows
      ensures rows == RowsRunning(old(rows), t)
    {
      hide SetStatus, FirstRow;
      SetStatusAt(rows, t, Running);
      var k := FindRow(t);
      if k == |rows| {
        rows := rows + [Row(t, Running)];
      } else {
        rows := rows[k := rows[k].(status := Running)];
      }
    }

    /** Writes a status into the row of the task, if it has one. */
    method WriteStatus(t: Task, st: HostStatus)
      modifies this`rows
      ensures rows == SetStatus(old(rows), t, st)
    {
      hide SetStatus, FirstRow;
      SetStatusAt(rows, t, st);
      var k := FindRow(t);
      if k < |rows| {
        rows := rows[k := rows[k].(status := st)];
      }
    }

    /** The commit of a host's outcome; any failure, decryption included, ends in `Failed`. */
    method ReportTask(t: Task, ok: bool)
      requires t in executing
      modifies this`rows, this`executing, this`finishing
      ensures View() == Reported(old(View()), t, ok)
    {
      hide SetStatus, FirstRow;
      WriteStatus(t, if ok then Succeeded else Failed);
      executing := executing - multiset{t};
      finishing := finishing + multiset{t.rec};
    }

    /** The aggregation loop of `_recompute_record`. */
    method Tally(rec: nat) returns (c: Counts)
      ensures c == TrueCounts(rows, rec)
    {
      hide Count;
      forall sts: set<HostStatus> ensures Count(rows[..0], rec, sts) == 0 { CountNone(rows, rec, sts); }
      var total, succeeded, failed, timedOut, running := 0, 0, 0, 0, 0;
      for i := 0 to |rows|
        invariant total == Count(rows[..i], rec, EVERY)
        invariant succeeded == Count(rows[..i], rec, {Succeeded})
        invariant failed == Count(rows[..i], rec, {Failed})
        invariant timedOut == Count(rows[..i], rec, {TimedOut})
        invariant running == Count(rows[..i], rec, {Queued, Running})
      {
        CountPrefix(rows, rec, i, EVERY);
        CountPrefix(rows, rec, i, {Succeeded});
        CountPrefix(rows, rec, i, {Failed});
        CountPrefix(rows, rec, i, {TimedOut});
        CountPrefix(rows, rec, i, {Queued, Running});
        EveryStatus(rows[i].status);
        if rows[i].task.rec == rec {
          total := total + 1;
          match rows[i].status
          case Succeeded => succeeded := succeeded + 1;
          case Failed => failed := failed + 1;
          case TimedOut => timedOut := timedOut + 1;
          case Queued => running := running + 1;
          case Running => running := running + 1;
        }
      }
      assert rows[..|rows|] == rows;
      c := Counts(total, succeeded, failed, timedOut, running);
    }

    /** `_recompute_record` */
    method RecomputeRecord(rec: nat)
      requires rec in finishing
      modifies this`batches, this`finishing
      ensures View() == Reaggregated(old(View()), rec)
    {
      finishing := finishing - multiset{rec};
      if rec >= |batches| { return; }
      hide TrueCounts;
      var c := Tally(rec);
      var b := batches[rec].(counts := c);
      if c.running == 0 && c.total > 0 {
        if c.failed == 0 && c.timedOut == 0 {
          b := b.(status := Done);
        } else if c.succeeded > 0 {
          b := b.(status := Partial);
        } else {
          b := b.(status := Done);
        }
      }
      batches := batches[rec := b];
    }

    /** `retry_failed`; the result is the number of hosts sent again. */
    method RetryFailed(rec: nat) returns (retried: nat)
      modifies this`rows, this`batches, this`outbox
      ensures View() == Retried(old(View()), rec)
      ensures retried == if rec < |batches| then Count(old(rows), rec, {Failed, TimedOut}) else 0
    {
      hide FailedTasks, Count;
      if rec >= |batches| { return 0; }
      NothingFiled(rows);
      retried := 0;
      var again: multiset<Task> := multiset{};
      var changed := rows;
      for i := 0 to |rows|
        invariant rows == old(rows) && batches == old(batches) && outbox == old(outbox)
        invariant again == FailedTasks(rows[..i], rec) && retried == |again|
        invariant |changed| == |rows|
        invariant forall j | 0 <= j < |rows| :: changed[j] == if j < i then Requeued(rows, rec)[j] else rows[j]
      {
        FailedPrefix(rows, rec, i);
        if rows[i].task.rec == rec && Retryable(rows[i].status) {
          changed := changed[i := rows[i].(status := Queued)];
          again := again + multiset{rows[i].task};
          retried := retried + 1;
        }
      }
      assert rows[..|rows|] == rows && changed == Requeued(rows, rec);
      if retried == 0 { return; }
      rows := changed;
      batches := batches[rec := batches[rec].(status := InProgress)];
      outbox := outbox + again;
    }
  }
}

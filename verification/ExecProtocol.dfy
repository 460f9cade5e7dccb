/**
 Controlled batch execution as a protocol: API calls, the task queue, workers and the
 re-aggregation of records, one step per database commit, in any interleaving.
 */
module ExecProtocol {

  datatype HostStatus = Queued | Running | Succeeded | Failed | TimedOut
  datatype BatchStatus = InProgress | Done | Partial

  /** What a queue message carries: the record and the asset. */
  datatype Task = Task(rec: nat, asset: nat)

  datatype Row = Row(task: Task, status: HostStatus)

  datatype Counts = Counts(total: nat, succeeded: nat, failed: nat, timedOut: nat, running: nat)

  datatype Batch = Batch(user: string, key: string, assets: seq<nat>, status: BatchStatus, counts: Counts)

  /** `drafts` are records whose rows are not inserted yet; `outbox` holds tasks an API call has
      committed rows for but not sent; `finishing` holds the records whose workers still have to
      re-aggregate; `stranded` remembers tasks delivered after their asset was deleted. */
  datatype State = State(assets: set<nat>, batches: seq<Batch>, drafts: set<nat>, rows: seq<Row>,
                         outbox: multiset<Task>, queue: multiset<Task>, executing: multiset<Task>,
                         finishing: multiset<nat>, stranded: set<Task>)

  const BATCH_MAX_ASSETS := 50

  datatype Action =
    | Submit(user: string, key: string, assets: seq<nat>, resolved: bool)
    | FileRows(rec: nat)
    | Send(task: Task)
    | Deliver(task: Task)
    | Report(task: Task, ok: bool)
    | Recompute(rec: nat)
    | Retry(rec: nat)
    | AddAsset(asset: nat)
    | RemoveAsset(asset: nat)

  // ---------- queries ----------

  /** `.filter(record, asset).first()`: the first row of the task, or the number of rows. */
  function FirstRow(rows: seq<Row>, t: Task): (k: nat)
    ensures k <= |rows| && (k < |rows| ==> rows[k].task == t)
    ensures forall j | 0 <= j < k :: rows[j].task != t
  {
    if rows == [] then 0
    else
      var j := FirstRow(rows[..|rows| - 1], t);
      if j < |rows| - 1 then j else if rows[|rows| - 1].task == t then |rows| - 1 else |rows|
  }

  /** The first row of the task gets the status. */
  function SetStatus(rows: seq<Row>, t: Task, st: HostStatus): seq<Row> {
    var k := FirstRow(rows, t);
    if k < |rows| then rows[k := rows[k].(status := st)] else rows
  }

  predicate Retryable(st: HostStatus) { st == Failed || st == TimedOut }

  predicate Terminal(st: HostStatus) { st == Succeeded || Retryable(st) }

  /** Rows of `rec` whose status is in `sts`. */
  function Count(rows: seq<Row>, rec: nat, sts: set<HostStatus>): nat {
    if rows == [] then 0
    else
      var last := rows[|rows| - 1];
      Count(rows[..|rows| - 1], rec, sts) + (if last.task.rec == rec && last.status in sts then 1 else 0)
  }

  const EVERY: set<HostStatus> := {Queued, Running, Succeeded, Failed, TimedOut}

  function TrueCounts(rows: seq<Row>, rec: nat): Counts {
    Counts(Count(rows, rec, EVERY), Count(rows, rec, {Succeeded}), Count(rows, rec, {Failed}),
           Count(rows, rec, {TimedOut}), Count(rows, rec, {Queued, Running}))
  }

  /** `_recompute_record`: the counts are replaced, the status only once nothing is running. */
  function Recomputed(b: Batch, rows: seq<Row>, rec: nat): Batch {
    var c := TrueCounts(rows, rec);
    var status :=
      if c.running == 0 && c.total > 0
      then if c.failed == 0 && c.timedOut == 0 then Done else if c.succeeded > 0 then Partial else Done
      else b.status;
    b.(counts := c, status := status)
  }

  /** The record an idempotent repeat returns, or the number of records. */
  function Existing(batches: seq<Batch>, user: string, key: string): (i: nat)
    ensures i <= |batches|
    ensures i < |batches| ==> key != "" && batches[i].key == key && batches[i].user == user
    ensures forall j | 0 <= j < i && key != "" :: !(batches[j].key == key && batches[j].user == user)
  {
    if key == "" || batches == [] then |batches|
    else
      var j := Existing(batches[..|batches| - 1], user, key);
      var last := batches[|batches| - 1];
      if j < |batches| - 1 then j
      else if last.key == key && last.user == user then |batches| - 1 else |batches|
  }

  /** A new record is made: no repeat, assets valid, command and confirmation accepted. */
  predicate Accepts(s: State, a: Action)
    requires a.Submit?
  {
    Existing(s.batches, a.user, a.key) == |s.batches| &&
    1 <= |a.assets| <= BATCH_MAX_ASSETS && (forall x <- a.assets :: x in s.assets) && a.resolved
  }

  function FreshRows(rec: nat, assets: seq<nat>): (r: seq<Row>)
    ensures |r| == |assets| && forall k | 0 <= k < |r| :: r[k] == Row(Task(rec, assets[k]), Queued)
  {
    seq(|assets|, k requires 0 <= k < |assets| => Row(Task(rec, assets[k]), Queued))
  }

  function TasksOf(rows: seq<Row>): (m: multiset<Task>)
    ensures |m| == |rows|
  {
    if rows == [] then multiset{} else TasksOf(rows[..|rows| - 1]) + multiset{rows[|rows| - 1].task}
  }

  /** The tasks a retry dispatches again. */
  function FailedTasks(rows: seq<Row>, rec: nat): (m: multiset<Task>)
    ensures |m| == Count(rows, rec, {Failed, TimedOut})
  {
    if rows == [] then multiset{}
    else
      var last := rows[|rows| - 1];
      FailedTasks(rows[..|rows| - 1], rec) +
        (if last.task.rec == rec && Retryable(last.status) then multiset{last.task} else multiset{})
  }

  function Requeued(rows: seq<Row>, rec: nat): (r: seq<Row>)
    ensures |r| == |rows|
    ensures forall k | 0 <= k < |rows| ::
              r[k] == if rows[k].task.rec == rec && Retryable(rows[k].status)
                      then rows[k].(status := Queued) else rows[k]
  {
    seq(|rows|, k requires 0 <= k < |rows| =>
      if rows[k].task.rec == rec && Retryable(rows[k].status) then rows[k].(status := Queued) else rows[k])
  }

  // ---------- steps ----------

  predicate Enabled(s: State, a: Action) {
    match a
    case FileRows(rec) => rec in s.drafts && rec < |s.batches|
    case Send(t) => t in s.outbox
    case Deliver(t) => t in s.queue
    case Report(t, _) => t in s.executing
    case Recompute(rec) => rec in s.finishing
    case _ => true
  }

  /** `batch_exec` up to the commit of the record. */
  function Submitted(s: State, a: Action): State
    requires a.Submit?
  {
    if !Accepts(s, a) then s
    else s.(batches := s.batches + [Batch(a.user, a.key, a.assets, InProgress, Counts(|a.assets|, 0, 0, 0, 0))],
            drafts := s.drafts + {|s.batches|})
  }

  /** The rows of a record are inserted and their tasks are ready to be sent. */
  function WithRows(s: State, rec: nat): (r: State)
    requires rec < |s.batches|
    ensures r.batches == s.batches
  {
    var filed := FreshRows(rec, s.batches[rec].assets);
    s.(rows := s.rows + filed, drafts := s.drafts - {rec}, outbox := s.outbox + TasksOf(filed))
  }

  function Sent(s: State, t: Task): (r: State)
    ensures r.batches == s.batches
  {
    s.(outbox := s.outbox - multiset{t}, queue := s.queue + multiset{t})
  }

  /** The row of a delivered task is marked running, and inserted if there is none. */
  function RowsRunning(rows: seq<Row>, t: Task): seq<Row> {
    if FirstRow(rows, t) < |rows| then SetStatus(rows, t, Running) else rows + [Row(t, Running)]
  }

  /** `exec_host_result` up to the commit of `running`. */
  function Delivered(s: State, t: Task): (r: State)
    ensures r.batches == s.batches
  {
    var rest := s.queue - multiset{t};
    if t.rec >= |s.batches| then s.(queue := rest)
    else if t.asset !in s.assets then
      s.(queue := rest, finishing := s.finishing + multiset{t.rec}, stranded := s.stranded + {t})
    else s.(queue := rest, rows := RowsRunning(s.rows, t), executing := s.executing + multiset{t})
  }

  /** The commit of a host's outcome. */
  function Reported(s: State, t: Task, ok: bool): (r: State)
    ensures r.batches == s.batches
  {
    s.(executing := s.executing - multiset{t}, finishing := s.finishing + multiset{t.rec},
       rows := SetStatus(s.rows, t, if ok then Succeeded else Failed))
  }

  function Reaggregated(s: State, rec: nat): State {
    s.(finishing := s.finishing - multiset{rec},
       batches := if rec < |s.batches| then s.batches[rec := Recomputed(s.batches[rec], s.rows, rec)] else s.batches)
  }

  /** `retry_failed` up to the dispatch. */
  function Retried(s: State, rec: nat): State {
    if rec >= |s.batches| || Count(s.rows, rec, {Failed, TimedOut}) == 0 then s
    else s.(rows := Requeued(s.rows, rec),
            batches := s.batches[rec := s.batches[rec].(status := InProgress)],
            outbox := s.outbox + FailedTasks(s.rows, rec))
  }

  function Step(s: State, a: Action): State
    requires Enabled(s, a)
  {
    match a
    case Submit(_, _, _, _) => Submitted(s, a)
    case FileRows(rec) => WithRows(s, rec)
    case Send(t) => Sent(s, t)
    case Deliver(t) => Delivered(s, t)
    case Report(t, ok) => Reported(s, t, ok)
    case Recompute(rec) => Reaggregated(s, rec)
    case Retry(rec) => Retried(s, rec)
    case AddAsset(x) => s.(assets := s.assets + {x})
    case RemoveAsset(x) => s.(assets := s.assets - {x})
  }

  function Init(assets: set<nat>): State {
    State(assets, [], {}, [], multiset{}, multiset{}, multiset{}, multiset{}, {})
  }

  predicate Runs(s: State, acts: seq<Action>)
    decreases |acts|
  {
    acts == [] || (Enabled(s, acts[0]) && Runs(Step(s, acts[0]), acts[1..]))
  }

  function After(s: State, acts: seq<Action>): State
    requires Runs(s, acts)
    decreases |acts|
  {
    if acts == [] then s else After(Step(s, acts[0]), acts[1..])
  }
}

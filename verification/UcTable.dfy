/** The Unity Catalog task table and the guarded SQL statements the durable bus sends to it. */
module UcTable {
  import opened Basics
  import opened Delegation

  /** `task` is the stored payload; the attempt counter lives inside it. */
  datatype Row = Row(
    task: Task,
    key: Name,
    status: Status,
    leaseOwner: Option<Name>,
    leaseExpiresAt: Option<int>,
    result: Option<Result>,
    failureCode: Option<Name>,
    createdAt: int)

  /** One row for each task id. */
  type Table = map<Name, Row>

  function RecordOf(row: Row): Record {
    Record(row.task, row.status, row.leaseOwner, row.leaseExpiresAt, row.result, row.failureCode)
  }

  /** The guard of both lease updates; a missing lease time compares as not expired. */
  predicate Leasable(row: Row, now: int) {
    row.status.Pending? || (IsLeased(row.status) && row.leaseExpiresAt.Some? && row.leaseExpiresAt.value <= now)
  }

  function Get(t: Table, id: Name): Option<Record> {
    if id in t then Some(RecordOf(t[id])) else None
  }

  predicate HeldBy(t: Table, id: Name, worker: Name) {
    id in t && t[id].leaseOwner == Some(worker)
  }

  // ----- writes: one guarded statement each -----

  function InsertRow(t: Table, task: Task, now: int): Table {
    t[task.taskId := Row(task, task.idempotencyKey, Pending, None, None, None, None, now)]
  }

  function LeaseRow(t: Table, id: Name, worker: Name, until: int, now: int): Table {
    if id in t && Leasable(t[id], now)
    then t[id := t[id].(status := Claimed, leaseOwner := Some(worker), leaseExpiresAt := Some(until))]
    else t
  }

  function WritePayload(t: Table, id: Name, worker: Name, task: Task): Table {
    if HeldBy(t, id, worker) then t[id := t[id].(task := task)] else t
  }

  function BeginRow(t: Table, id: Name, worker: Name): Table {
    if HeldBy(t, id, worker) && t[id].status.Claimed? then t[id := t[id].(status := Running)] else t
  }

  function FinishRow(t: Table, result: Result, worker: Name): Table {
    var id := result.taskId;
    if HeldBy(t, id, worker) && IsLeased(t[id].status)
    then t[id := t[id].(status := result.status, result := Some(result), leaseOwner := None, leaseExpiresAt := None)]
    else t
  }

  /** Guarded by the owner alone. */
  function GiveUpRow(t: Table, id: Name, worker: Name, status: Status, code: Name): Table {
    if HeldBy(t, id, worker)
    then t[id := t[id].(status := status, failureCode := Some(code), leaseOwner := None, leaseExpiresAt := None)]
    else t
  }

  // ----- queries with more than one possible answer -----

  /** An answer to the candidate query: leasable rows by creation time, the first `limit` of them. */
  ghost predicate IsSelection(t: Table, limit: nat, now: int, ids: seq<Name>) {
    && |ids| <= limit
    && Distinct(ids)
    && (forall i :: 0 <= i < |ids| ==> ids[i] in t && Leasable(t[ids[i]], now))
    && (forall i, j :: 0 <= i < j < |ids| ==> t[ids[i]].createdAt <= t[ids[j]].createdAt)
    && (forall id :: id in t && Leasable(t[id], now) && id !in ids ==>
          |ids| == limit && forall i :: 0 <= i < |ids| ==> t[ids[i]].createdAt <= t[id].createdAt)
  }

  /** The first row of an answer to the lookup by idempotency key, if there is any. */
  ghost predicate IsLookup(t: Table, key: Name, found: Option<Name>) {
    match found
    case Some(id) => id in t && t[id].key == key
    case None => forall id :: id in t ==> t[id].key != key
  }
}

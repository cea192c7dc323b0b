/**
 * The in-memory task bus. Every operation runs under one lock, so each is one atomic step.
 * The step functions describe the new state of the whole bus; the class updates its
 * dictionaries in place and is proved against them.
 */
module TaskBus {
  import opened Basics
  import opened Delegation

  /** `order` is the insertion order of the record dictionary; `index` maps keys to task ids. */
  datatype BusState = BusState(order: seq<Name>, records: map<Name, Record>, index: map<Name, Name>)

  const EMPTY_BUS := BusState([], map[], map[])

  /** Every listed or indexed id has a record, stored under its own id. */
  ghost predicate WellFormed(s: BusState) {
    && (forall id :: id in s.order ==> id in s.records)
    && (forall id :: id in s.records ==> s.records[id].task.taskId == id)
    && (forall k :: k in s.index ==> s.index[k] in s.records)
  }

  /** The insertion order lists every record once. */
  ghost predicate Ordered(s: BusState) {
    Distinct(s.order) && forall id :: id in s.records ==> id in s.order
  }

  lemma OrderedFrame(s: BusState, t: BusState)
    requires Ordered(s) && t.order == s.order && t.records.Keys == s.records.Keys
    ensures Ordered(t)
  {
    forall id | id in t.records ensures id in t.order {
      assert id in s.records;
    }
  }

  datatype Reply = Accepted(record: Record) | UnknownTask | NotOwner

  // ----- per-record tests -----

  predicate IsDue(r: Record, now: int) {
    r.task.expiresAt.Some? && r.task.expiresAt.value <= now
  }

  predicate LeaseLapsed(r: Record, now: int) {
    IsLeased(r.status) && r.leaseExpiresAt.Some? && r.leaseExpiresAt.value <= now
  }

  predicate Eligible(r: Record, now: int) {
    !IsDue(r, now) && (r.status.Pending? || LeaseLapsed(r, now))
  }

  predicate OwnedBy(r: Record, worker: Name) {
    r.leaseOwner == Some(worker) && IsLeased(r.status)
  }

  function LeaseEnd(now: int, leaseSeconds: int): int {
    now + Max(leaseSeconds, 1)
  }

  /** A task that could be constructed is not due when it is created. */
  lemma NewTaskIsLive(task: Task)
    requires Constructible(task)
    ensures !IsDue(NewRecord(task), task.createdAt) && Eligible(NewRecord(task), task.createdAt)
  {
  }

  // ----- record updates -----

  function Expire(r: Record): Record {
    r.(status := Expired, failureCode := Some(Name("task_expired")))
  }

  /** A fresh lease drops any earlier result and failure code. */
  function Lease(r: Record, worker: Name, until: int): Record {
    Record(r.task.(attempt := r.task.attempt + 1), Claimed, Some(worker), Some(until), None, None)
  }

  /** What the owner of a lease may do with the task. */
  datatype Action = Begin | Finish(result: Result) | GiveUp(code: Name)

  function Act(r: Record, a: Action): Record {
    match a
    case Begin => r.(status := Running)
    case Finish(result) =>
      r.(status := result.status, result := Some(result), leaseOwner := None, leaseExpiresAt := None)
    case GiveUp(code) =>
      r.(status := if r.task.attempt >= r.task.maxAttempts then DeadLetter else Pending,
         leaseOwner := None, leaseExpiresAt := None, failureCode := Some(code))
  }

  function Put(s: BusState, id: Name, r: Record): BusState {
    s.(records := s.records[id := r])
  }

  // ----- whole-bus steps -----

  /** An empty task id in the index counts as no entry, as a falsy string does. */
  predicate KnownKey(s: BusState, key: Name) {
    key in s.index && s.index[key].text != ""
  }

  function SubmitStep(s: BusState, task: Task): (BusState, Record)
    requires WellFormed(s)
  {
    if KnownKey(s, task.idempotencyKey) then (s, s.records[s.index[task.idempotencyKey]])
    else
      (BusState(
         if task.taskId in s.records then s.order else s.order + [task.taskId],
         s.records[task.taskId := NewRecord(task)],
         s.index[task.idempotencyKey := task.taskId]),
       NewRecord(task))
  }

  function ClaimTaskStep(s: BusState, id: Name, worker: Name, leaseSeconds: int, now: int)
    : (r: (BusState, Option<Record>))
    requires WellFormed(s)
    ensures WellFormed(r.0) && r.0.order == s.order && r.0.index == s.index && r.0.records.Keys == s.records.Keys
  {
    if id !in s.records then (s, None)
    else
      var r := s.records[id];
      if IsDue(r, now) then (Put(s, id, Expire(r)), None)
      else if !Eligible(r, now) then (s, None)
      else
        var leased := Lease(r, worker, LeaseEnd(now, leaseSeconds));
        (Put(s, id, leased), Some(leased))
  }

  /** Claiming the named tasks one after the other until `limit` of them succeeded. */
  ghost function ClaimScan(s: BusState, ids: seq<Name>, worker: Name, limit: nat, leaseSeconds: int, now: int)
    : (r: (BusState, seq<Record>))
    requires WellFormed(s)
    ensures WellFormed(r.0) && r.0.order == s.order && r.0.index == s.index && r.0.records.Keys == s.records.Keys
    ensures |r.1| <= limit
    decreases |ids|
  {
    if ids == [] || limit == 0 then (s, [])
    else
      var (s1, got) := ClaimTaskStep(s, ids[0], worker, leaseSeconds, now);
      if got.None? then ClaimScan(s1, ids[1..], worker, limit, leaseSeconds, now)
      else
        var (s2, rest) := ClaimScan(s1, ids[1..], worker, limit - 1, leaseSeconds, now);
        (s2, [got.value] + rest)
  }

  ghost function ClaimStep(s: BusState, worker: Name, limit: int, leaseSeconds: int, now: int): (BusState, seq<Record>)
    requires WellFormed(s)
  {
    ClaimScan(s, s.order, worker, Max(limit, 1), leaseSeconds, now)
  }

  /** What the scan of `ids` from position `i` on still adds to the tasks leased so far completes `target`. */
  ghost predicate OnTrack(
      target: (BusState, seq<Record>), s: BusState, ids: seq<Name>, i: nat, worker: Name, limit: nat,
      leaseSeconds: int, now: int, claimed: seq<Record>)
    requires WellFormed(s) && i <= |ids|
  {
    var (t, rest) := ClaimScan(s, ids[i..], worker, limit, leaseSeconds, now);
    target == (t, claimed + rest)
  }

  lemma OnTrackStart(s: BusState, worker: Name, limit: int, leaseSeconds: int, now: int)
    requires WellFormed(s)
    ensures forall i :: 0 <= i < |s.order| ==> s.order[i] in s.records
    ensures
      var target := ClaimStep(s, worker, limit, leaseSeconds, now);
      OnTrack(target, s, s.order, 0, worker, Max(limit, 1), leaseSeconds, now, [])
  {
    var rest := ClaimStep(s, worker, limit, leaseSeconds, now).1;
    assert [] + rest == rest && s.order[0..] == s.order;
  }

  lemma OnTrackStep(
      target: (BusState, seq<Record>), s: BusState, s1: BusState, got: Option<Record>, ids: seq<Name>, i: nat,
      worker: Name, limit: nat, leaseSeconds: int, now: int, claimed: seq<Record>)
    requires WellFormed(s) && i < |ids| && limit > 0
    requires OnTrack(target, s, ids, i, worker, limit, leaseSeconds, now, claimed)
    requires (s1, got) == ClaimTaskStep(s, ids[i], worker, leaseSeconds, now)
    ensures WellFormed(s1)
    ensures if got.None? then OnTrack(target, s1, ids, i + 1, worker, limit, leaseSeconds, now, claimed)
            else OnTrack(target, s1, ids, i + 1, worker, limit - 1, leaseSeconds, now, claimed + [got.value])
  {
    hide WellFormed;
    assert ids[i..][1..] == ids[i + 1..];
    if got.Some? {
      var rest := ClaimScan(s1, ids[i + 1..], worker, limit - 1, leaseSeconds, now).1;
      assert claimed + ([got.value] + rest) == claimed + [got.value] + rest;
    }
  }

  lemma OnTrackEnd(
      target: (BusState, seq<Record>), s: BusState, ids: seq<Name>, i: nat, worker: Name, limit: nat,
      leaseSeconds: int, now: int, claimed: seq<Record>)
    requires WellFormed(s) && i <= |ids| && (i == |ids| || limit == 0)
    requires OnTrack(target, s, ids, i, worker, limit, leaseSeconds, now, claimed)
    ensures (s, claimed) == target
  {
    assert claimed + [] == claimed;
  }

  function OwnedStep(s: BusState, id: Name, worker: Name, a: Action): (BusState, Reply) {
    if id !in s.records then (s, UnknownTask)
    else if !OwnedBy(s.records[id], worker) then (s, NotOwner)
    else (Put(s, id, Act(s.records[id], a)), Accepted(Act(s.records[id], a)))
  }

  // ----- the class -----

  class InMemoryAgentTaskBus {
    var order: seq<Name>
    var records: map<Name, Record>
    var index: map<Name, Name>

    ghost function State(): BusState
      reads this
    {
      BusState(order, records, index)
    }

    ghost predicate Valid()
      reads this
    {
      WellFormed(State()) && Ordered(State())
    }

    constructor ()
      ensures Valid() && State() == EMPTY_BUS
    {
      order, records, index := [], map[], map[];
    }

    method Submit(task: Task) returns (record: Record)
      requires Valid()
      modifies this
      ensures (State(), record) == SubmitStep(old(State()), task)
      ensures Valid()
    {
      if task.idempotencyKey in index {
        var existing := index[task.idempotencyKey];
        if existing.text != "" {
          return records[existing];
        }
      }
      record := NewRecord(task);
      if task.taskId !in records {
        order := order + [task.taskId];
      }
      records := records[task.taskId := record];
      index := index[task.idempotencyKey := task.taskId];
    }

    /** The part of the claim loop body and of the named claim that looks at one record. */
    method TryLease(id: Name, worker: Name, leaseSeconds: int, now: int) returns (leased: Option<Record>)
      requires Valid() && id in records
      modifies this`records
      ensures (State(), leased) == ClaimTaskStep(old(State()), id, worker, leaseSeconds, now)
      ensures Valid()
    {
      hide WellFormed;
      var record := records[id];
      if record.task.expiresAt.Some? && record.task.expiresAt.value <= now {
        records := records[id := record.(status := Expired, failureCode := Some(Name("task_expired")))];
        return None;
      }
      var leaseExpired := (record.status.Claimed? || record.status.Running?)
                          && record.leaseExpiresAt.Some? && record.leaseExpiresAt.value <= now;
      if !record.status.Pending? && !leaseExpired {
        return None;
      }
      var task := record.task.(attempt := record.task.attempt + 1);
      var updated := Record(task, Claimed, Some(worker), Some(now + Max(leaseSeconds, 1)), None, None);
      records := records[id := updated];
      return Some(updated);
    }

    method Claim(worker: Name, limit: int, leaseSeconds: int, now: int) returns (claimed: seq<Record>)
      requires Valid()
      modifies this`records
      ensures (State(), claimed) == ClaimStep(old(State()), worker, limit, leaseSeconds, now)
      ensures Valid()
    {
      hide WellFormed, Ordered, ClaimStep, OnTrack, ClaimTaskStep;
      claimed := [];
      var items := order;
      ghost var target := ClaimStep(State(), worker, limit, leaseSeconds, now);
      OnTrackStart(State(), worker, limit, leaseSeconds, now);
      var i := 0;
      while i < |items| && |claimed| < Max(limit, 1)
        invariant 0 <= i <= |items| && |claimed| <= Max(limit, 1)
        invariant order == items && records.Keys == old(records.Keys) && Valid()
        invariant OnTrack(target, State(), items, i, worker, Max(limit, 1) - |claimed|, leaseSeconds, now, claimed)
      {
        ghost var before := State();
        var leased := TryLease(items[i], worker, leaseSeconds, now);
        ghost var left := Max(limit, 1) - |claimed|;
        OnTrackStep(target, before, State(), leased, items, i, worker, left, leaseSeconds, now, claimed);
        if leased.Some? {
          claimed := claimed + [leased.value];
        }
        i := i + 1;
      }
      OrderedFrame(old(State()), State());
      OnTrackEnd(target, State(), items, i, worker, Max(limit, 1) - |claimed|, leaseSeconds, now, claimed);
    }

    method ClaimTask(id: Name, worker: Name, leaseSeconds: int, now: int) returns (claimed: Option<Record>)
      requires Valid()
      modifies this`records
      ensures (State(), claimed) == ClaimTaskStep(old(State()), id, worker, leaseSeconds, now)
      ensures Valid()
    {
      hide WellFormed;
      if id !in records {
        return None;
      }
      claimed := TryLease(id, worker, leaseSeconds, now);
    }

    method RequireOwned(id: Name, worker: Name) returns (reply: Reply)
      requires Valid()
      ensures reply == (if id !in records then UnknownTask
                        else if !OwnedBy(records[id], worker) then NotOwner
                        else Accepted(records[id]))
    {
      if id !in records {
        return UnknownTask;
      }
      var record := records[id];
      if record.leaseOwner != Some(worker) || !(record.status.Claimed? || record.status.Running?) {
        return NotOwner;
      }
      return Accepted(record);
    }

    method MarkRunning(id: Name, worker: Name) returns (reply: Reply)
      requires Valid()
      modifies this`records
      ensures (State(), reply) == OwnedStep(old(State()), id, worker, Begin)
      ensures Valid()
    {
      reply := RequireOwned(id, worker);
      if reply.Accepted? {
        var updated := reply.record.(status := Running);
        records := records[id := updated];
        reply := Accepted(updated);
      }
    }

    method Complete(result: Result, worker: Name) returns (reply: Reply)
      requires Valid()
      modifies this`records
      ensures (State(), reply) == OwnedStep(old(State()), result.taskId, worker, Finish(result))
      ensures Valid()
    {
      reply := RequireOwned(result.taskId, worker);
      if reply.Accepted? {
        var status: Status := if result.status.Succeeded? then Succeeded else result.status;
        var updated :=
          reply.record.(status := status, result := Some(result), leaseOwner := None, leaseExpiresAt := None);
        records := records[result.taskId := updated];
        reply := Accepted(updated);
      }
    }

    method Fail(id: Name, worker: Name, code: Name) returns (reply: Reply)
      requires Valid()
      modifies this`records
      ensures (State(), reply) == OwnedStep(old(State()), id, worker, GiveUp(code))
      ensures reply.Accepted? ==>
                id in records && reply.record == records[id] && reply.record.failureCode == Some(code)
      ensures Valid()
    {
      reply := RequireOwned(id, worker);
      if reply.Accepted? {
        var record := reply.record;
        var updated: Record;
        if record.task.attempt >= record.task.maxAttempts {
          updated :=
            record.(status := DeadLetter, leaseOwner := None, leaseExpiresAt := None, failureCode := Some(code));
        } else {
          updated := record.(status := Pending, leaseOwner := None, leaseExpiresAt := None, failureCode := Some(code));
        }
        records := records[id := updated];
        reply := Accepted(updated);
      }
    }

    method Get(id: Name) returns (record: Option<Record>)
      requires Valid()
      ensures record == (if id in records then Some(records[id]) else None)
    {
      if id in records {
        return Some(records[id]);
      }
      return None;
    }
  }
}

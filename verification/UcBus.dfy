/**
 * The durable bus with nobody interfering: each method sends its statements one after the other and
 * every one takes effect. The answers of the two queries that SQL leaves open are parameters.
 */
module UcBus {
  import opened Basics
  import opened Delegation
  import opened UcTable
  import U = UcInterleaving

  datatype UcReply = Returned(record: Record) | Raised

  // ----- what each method does to the table -----

  function UcSubmit(t: Table, task: Task, now: int, found: Option<Name>): (Table, Record) {
    if found.Some? && found.value in t then (t, RecordOf(t[found.value]))
    else (InsertRow(t, task, now), NewRecord(task))
  }

  function UcClaimOne(t: Table, id: Name, worker: Name, leaseSeconds: int, now: int): (Table, Option<Record>) {
    var until := now + Max(leaseSeconds, 1);
    var leased := LeaseRow(t, id, worker, until, now);
    if HeldBy(leased, id, worker) && leased[id].status.Claimed? then
      var task := leased[id].task.(attempt := leased[id].task.attempt + 1);
      (WritePayload(leased, id, worker, task),
       Some(RecordOf(leased[id]).(task := task, leaseExpiresAt := Some(until))))
    else (leased, None)
  }

  function UcClaimAll(t: Table, ids: seq<Name>, worker: Name, leaseSeconds: int, now: int): (Table, seq<Record>) {
    if ids == [] then (t, [])
    else
      var (t1, got) := UcClaimOne(t, ids[0], worker, leaseSeconds, now);
      var (t2, rest) := UcClaimAll(t1, ids[1..], worker, leaseSeconds, now);
      (t2, (if got.Some? then [got.value] else []) + rest)
  }

  predicate Owned(t: Table, id: Name, worker: Name) {
    HeldBy(t, id, worker) && IsLeased(t[id].status)
  }

  function UcBegin(t: Table, id: Name, worker: Name): (Table, UcReply) {
    var begun := BeginRow(t, id, worker);
    (begun, if Owned(begun, id, worker) && begun[id].status.Running? then Returned(RecordOf(begun[id])) else Raised)
  }

  function UcFinish(t: Table, result: Result, worker: Name): (Table, UcReply) {
    var finished := FinishRow(t, result, worker);
    (finished,
     if result.taskId in finished && finished[result.taskId].status == result.status
     then Returned(RecordOf(finished[result.taskId])) else Raised)
  }

  function UcGiveUp(t: Table, id: Name, worker: Name, code: Name): (Table, UcReply) {
    if !Owned(t, id, worker) then (t, Raised)
    else
      var given := GiveUpRow(t, id, worker, U.Verdict(t[id].task), code);
      (given, Returned(RecordOf(given[id])))
  }

  class UcAgentTaskBus {
    var table: Table

    constructor ()
      ensures table == map[]
    {
      table := map[];
    }

    method Submit(task: Task, now: int, found: Option<Name>) returns (record: Record)
      requires IsLookup(table, task.idempotencyKey, found)
      requires found.None? ==> task.taskId !in table
      modifies this
      ensures (table, record) == UcSubmit(old(table), task, now, found)
    {
      if found.Some? {
        return RecordOf(table[found.value]);
      }
      table := InsertRow(table, task, now);
      record := NewRecord(task);
    }

    method Claim(worker: Name, limit: int, leaseSeconds: int, now: int, candidates: seq<Name>)
      returns (claimed: seq<Record>)
      requires IsSelection(table, Max(limit, 1), now, candidates)
      modifies this
      ensures (table, claimed) == UcClaimAll(old(table), candidates, worker, leaseSeconds, now)
    {
      claimed := [];
      var i := 0;
      ghost var target := UcClaimAll(table, candidates, worker, leaseSeconds, now);
      assert candidates[0..] == candidates && claimed + target.1 == target.1;
      while i < |candidates|
        invariant 0 <= i <= |candidates|
        invariant
          var (t, rest) := UcClaimAll(table, candidates[i..], worker, leaseSeconds, now);
          target == (t, claimed + rest)
      {
        assert candidates[i..][1..] == candidates[i + 1..];
        ghost var rest := UcClaimAll(table, candidates[i..], worker, leaseSeconds, now).1;
        var got := ClaimTask(candidates[i], worker, leaseSeconds, now);
        ghost var later := UcClaimAll(table, candidates[i + 1..], worker, leaseSeconds, now).1;
        if got.Some? {
          assert claimed + ([got.value] + later) == claimed + [got.value] + later;
          claimed := claimed + [got.value];
        } else {
          assert [] + later == later;
        }
        i := i + 1;
      }
      assert claimed + [] == claimed;
    }

    method ClaimTask(id: Name, worker: Name, leaseSeconds: int, now: int) returns (claimed: Option<Record>)
      modifies this
      ensures (table, claimed) == UcClaimOne(old(table), id, worker, leaseSeconds, now)
    {
      var until := now + Max(leaseSeconds, 1);
      table := LeaseRow(table, id, worker, until, now);
      var record := Get(table, id);
      if record.None? || record.value.leaseOwner != Some(worker) || !record.value.status.Claimed? {
        return None;
      }
      var task := record.value.task.(attempt := record.value.task.attempt + 1);
      table := WritePayload(table, id, worker, task);
      claimed := Some(record.value.(task := task, leaseExpiresAt := Some(until)));
    }

    method OwnedRecord(id: Name, worker: Name) returns (reply: UcReply)
      ensures reply == if Owned(table, id, worker) then Returned(RecordOf(table[id])) else Raised
    {
      var record := Get(table, id);
      if record.None? || record.value.leaseOwner != Some(worker)
         || !(record.value.status.Claimed? || record.value.status.Running?) {
        return Raised;
      }
      reply := Returned(record.value);
    }

    method MarkRunning(id: Name, worker: Name) returns (reply: UcReply)
      modifies this
      ensures (table, reply) == UcBegin(old(table), id, worker)
    {
      table := BeginRow(table, id, worker);
      reply := OwnedRecord(id, worker);
      if reply.Returned? && !reply.record.status.Running? {
        reply := Raised;
      }
    }

    method Complete(result: Result, worker: Name) returns (reply: UcReply)
      modifies this
      ensures (table, reply) == UcFinish(old(table), result, worker)
    {
      table := FinishRow(table, result, worker);
      var record := Get(table, result.taskId);
      if record.None? || record.value.status != result.status {
        return Raised;
      }
      reply := Returned(record.value);
    }

    method Fail(id: Name, worker: Name, code: Name) returns (reply: UcReply)
      modifies this
      ensures (table, reply) == UcGiveUp(old(table), id, worker, code)
      ensures reply.Returned? ==>
                id in table && reply.record == RecordOf(table[id]) && reply.record.failureCode == Some(code)
    {
      reply := OwnedRecord(id, worker);
      if reply.Raised? {
        return;
      }
      var task := reply.record.task;
      var status := if task.attempt >= task.maxAttempts then DeadLetter else Pending;
      table := GiveUpRow(table, id, worker, status, code);
      var updated := Get(table, id);
      if updated.None? {
        return Raised;
      }
      reply := Returned(updated.value);
    }
  }

  // ----- the same methods as uninterrupted runs of the interleaving model -----

  /** Statements left in a call. */
  function Remaining(pc: U.Pc): nat {
    match pc
    case Idle => 0
    case AtLookup(_) => 2
    case AtInsert(_) => 1
    case AtSelect(_, _, _) => 1
    case AtLease(_, rest, _, _) => 3 * |rest| + 3
    case AtReadBack(_, rest, _, _) => 3 * |rest| + 2
    case AtPayload(_, _, rest, _, _) => 3 * |rest| + 1
    case AtBegin(_) => 2
    case AtReadBegun(_) => 1
    case AtFinish(_) => 2
    case AtReadFinished(_) => 1
    case AtReadOwned(_, _) => 3
    case AtGiveUp(_, _, _) => 2
    case AtReadGivenUp(_) => 1
  }

  /** The table after the rest of a call runs with every statement effective and nobody in between. */
  function Finish(t: Table, me: Name, pc: U.Pc, o: U.Outcome): Table
    requires !pc.AtSelect?
    decreases Remaining(pc)
  {
    if pc.Idle? then t
    else
      var (t1, pc1) := U.Perform(t, me, pc, o.(effective := true));
      Finish(t1, me, pc1, o)
  }

  /** The records a statement adds to what its call returns; a call that raises returns none. */
  function Says(t: Table, me: Name, pc: U.Pc, o: U.Outcome): seq<Record> {
    match pc
    case AtLookup(_) => if o.rows != [] && o.rows[0] in t then [RecordOf(t[o.rows[0]])] else []
    case AtInsert(task) => [NewRecord(task)]
    case AtReadBack(id, _, leaseSeconds, now) =>
      if HeldBy(t, id, me) && t[id].status.Claimed? then
        [RecordOf(t[id]).(task := t[id].task.(attempt := t[id].task.attempt + 1),
                          leaseExpiresAt := Some(now + Max(leaseSeconds, 1)))]
      else []
    case AtReadBegun(id) => if Owned(t, id, me) && t[id].status.Running? then [RecordOf(t[id])] else []
    case AtReadFinished(result) =>
      if result.taskId in t && t[result.taskId].status == result.status then [RecordOf(t[result.taskId])] else []
    case AtReadGivenUp(id) => if id in t then [RecordOf(t[id])] else []
    case _ => []
  }

  /** What the rest of a call returns when every statement is effective and nobody is in between. */
  function Heard(t: Table, me: Name, pc: U.Pc, o: U.Outcome): seq<Record>
    requires !pc.AtSelect?
    decreases Remaining(pc)
  {
    if pc.Idle? then []
    else
      var (t1, pc1) := U.Perform(t, me, pc, o.(effective := true));
      Says(t, me, pc, o) + Heard(t1, me, pc1, o)
  }

  /** The statements of a claim loop, run to the end, leave the table and give the leases of the method. */
  lemma {:induction false} FinishLease(t: Table, me: Name, ids: seq<Name>, leaseSeconds: int, now: int, o: U.Outcome)
    ensures
      var pc := U.LeaseNext(ids, leaseSeconds, now);
      (Finish(t, me, pc, o), Heard(t, me, pc, o)) == UcClaimAll(t, ids, me, leaseSeconds, now)
    decreases |ids|
  {
    if ids != [] {
      FinishLease(UcClaimOne(t, ids[0], me, leaseSeconds, now).0, me, ids[1..], leaseSeconds, now, o);
      LeaseOne(t, me, ids, leaseSeconds, now, o);
    }
  }

  /** The three statements for one candidate. */
  lemma LeaseOne(t: Table, me: Name, ids: seq<Name>, leaseSeconds: int, now: int, o: U.Outcome)
    requires ids != []
    ensures
      var (t1, got) := UcClaimOne(t, ids[0], me, leaseSeconds, now);
      var pc, later := U.LeaseNext(ids, leaseSeconds, now), U.LeaseNext(ids[1..], leaseSeconds, now);
      && Finish(t, me, pc, o) == Finish(t1, me, later, o)
      && Heard(t, me, pc, o) == (if got.Some? then [got.value] else []) + Heard(t1, me, later, o)
  {
    var (t1, got) := UcClaimOne(t, ids[0], me, leaseSeconds, now);
    var leased := LeaseRow(t, ids[0], me, now + Max(leaseSeconds, 1), now);
    var start, later := U.LeaseNext(ids, leaseSeconds, now), U.LeaseNext(ids[1..], leaseSeconds, now);
    var back := U.AtReadBack(ids[0], ids[1..], leaseSeconds, now);
    OneStatement(t, me, start, leased, back, o);
    var (same, pc) := U.Perform(leased, me, back, o.(effective := true));
    OneStatement(leased, me, back, leased, pc, o);
    if pc.AtPayload? {
      OneStatement(leased, me, pc, t1, later, o);
    }
    assert Says(leased, me, back, o) == if got.Some? then [got.value] else [];
  }

  lemma OneStatement(t: Table, me: Name, pc: U.Pc, t1: Table, pc1: U.Pc, o: U.Outcome)
    requires !pc.AtSelect? && !pc.Idle? && U.Perform(t, me, pc, o.(effective := true)) == (t1, pc1)
    ensures !pc1.AtSelect? && Finish(t, me, pc, o) == Finish(t1, me, pc1, o)
    ensures Heard(t, me, pc, o) == Says(t, me, pc, o) + Heard(t1, me, pc1, o)
  {
  }

  /** The records of a reply. */
  function Replied(r: UcReply): seq<Record> {
    match r
    case Returned(record) => [record]
    case Raised => []
  }

  /** What a call of the durable bus does to the table, and the records it returns, when it is alone. */
  function Alone(t: Table, me: Name, call: U.Call, o: U.Outcome): (Table, seq<Record>) {
    match call
    case Submit(task) =>
      var (t1, record) := UcSubmit(t, task, o.clock, if o.rows == [] then None else Some(o.rows[0]));
      (t1, [record])
    case Claim(_, leaseSeconds, now) => UcClaimAll(t, o.rows, me, leaseSeconds, now)
    case ClaimTask(id, leaseSeconds, now) =>
      var (t1, got) := UcClaimOne(t, id, me, leaseSeconds, now);
      (t1, if got.Some? then [got.value] else [])
    case MarkRunning(id) => var (t1, reply) := UcBegin(t, id, me); (t1, Replied(reply))
    case Complete(result) => var (t1, reply) := UcFinish(t, result, me); (t1, Replied(reply))
    case Fail(id, code) => var (t1, reply) := UcGiveUp(t, id, me, code); (t1, Replied(reply))
  }

  /** Table and answer of a call of which the first statement is sent on table `t`. */
  function Uninterrupted(t: Table, me: Name, call: U.Call, o: U.Outcome): (Table, seq<Record>) {
    var pc := U.Entry(call);
    var (t1, pc1) := U.Perform(t, me, pc, o.(effective := true));
    if pc1.AtSelect? then (t1, []) else (Finish(t1, me, pc1, o), Says(t, me, pc, o) + Heard(t1, me, pc1, o))
  }

  /**
   * The sequential methods are the uninterrupted runs of the interleaving model: running a call's
   * statements to the end, all effective, leaves the table the method leaves and returns what it returns.
   */
  lemma AloneIsUninterrupted(t: Table, me: Name, call: U.Call, o: U.Outcome)
    requires call.Submit? && o.rows != [] ==> o.rows[0] in t
    ensures Uninterrupted(t, me, call, o) == Alone(t, me, call, o)
  {
    match call
    case Submit(task) =>
      AloneSubmit(t, me, task, o);
    case Claim(_, leaseSeconds, now) =>
      FirstStatement(t, me, call, t, U.LeaseNext(o.rows, leaseSeconds, now), o);
      FinishLease(t, me, o.rows, leaseSeconds, now, o);
    case ClaimTask(id, leaseSeconds, now) =>
      AloneClaimTask(t, me, id, leaseSeconds, now, o);
    case MarkRunning(id) =>
      AloneBegin(t, me, id, o);
    case Complete(result) =>
      AloneComplete(t, me, result, o);
    case Fail(id, code) =>
      AloneFail(t, me, id, code, o);
  }

  /** The first statement of a call that says nothing yet. */
  lemma FirstStatement(t: Table, me: Name, call: U.Call, t1: Table, pc1: U.Pc, o: U.Outcome)
    requires U.Perform(t, me, U.Entry(call), o.(effective := true)) == (t1, pc1) && !pc1.AtSelect?
    requires Says(t, me, U.Entry(call), o) == []
    ensures Uninterrupted(t, me, call, o) == (Finish(t1, me, pc1, o), Heard(t1, me, pc1, o))
  {
    assert [] + Heard(t1, me, pc1, o) == Heard(t1, me, pc1, o);
  }

  /** The last statement of a call that does not write. */
  lemma LastRead(t: Table, me: Name, pc: U.Pc, o: U.Outcome)
    requires !pc.AtSelect? && !pc.Idle? && U.Perform(t, me, pc, o.(effective := true)) == (t, U.Idle)
    ensures Finish(t, me, pc, o) == t && Heard(t, me, pc, o) == Says(t, me, pc, o)
  {
    OneStatement(t, me, pc, t, U.Idle, o);
  }

  lemma AloneSubmit(t: Table, me: Name, task: Task, o: U.Outcome)
    requires o.rows != [] ==> o.rows[0] in t
    ensures Uninterrupted(t, me, U.Submit(task), o) == Alone(t, me, U.Submit(task), o)
  {
    if o.rows == [] {
      var inserted := InsertRow(t, task, o.clock);
      FirstStatement(t, me, U.Submit(task), t, U.AtInsert(task), o);
      OneStatement(t, me, U.AtInsert(task), inserted, U.Idle, o);
      assert [NewRecord(task)] + [] == [NewRecord(task)];
    } else {
      var found := RecordOf(t[o.rows[0]]);
      assert [found] + [] == [found];
    }
  }

  lemma AloneClaimTask(t: Table, me: Name, id: Name, leaseSeconds: int, now: int, o: U.Outcome)
    ensures Uninterrupted(t, me, U.ClaimTask(id, leaseSeconds, now), o) ==
            Alone(t, me, U.ClaimTask(id, leaseSeconds, now), o)
  {
    var start := U.AtLease(id, [], leaseSeconds, now);
    assert [id][1..] == [] && U.LeaseNext([id], leaseSeconds, now) == start;
    LeaseOne(t, me, [id], leaseSeconds, now, o);
    var (t1, got) := UcClaimOne(t, id, me, leaseSeconds, now);
    var answer := if got.Some? then [got.value] else [];
    assert answer + [] == answer;
    var (leased, back) := U.Perform(t, me, start, o.(effective := true));
    FirstStatement(t, me, U.ClaimTask(id, leaseSeconds, now), leased, back, o);
    OneStatement(t, me, start, leased, back, o);
    assert [] + Heard(leased, me, back, o) == Heard(leased, me, back, o);
  }

  lemma AloneBegin(t: Table, me: Name, id: Name, o: U.Outcome)
    ensures Uninterrupted(t, me, U.MarkRunning(id), o) == Alone(t, me, U.MarkRunning(id), o)
  {
    var begun := BeginRow(t, id, me);
    FirstStatement(t, me, U.MarkRunning(id), begun, U.AtReadBegun(id), o);
    LastRead(begun, me, U.AtReadBegun(id), o);
  }

  lemma AloneComplete(t: Table, me: Name, result: Result, o: U.Outcome)
    ensures Uninterrupted(t, me, U.Complete(result), o) == Alone(t, me, U.Complete(result), o)
  {
    var finished := FinishRow(t, result, me);
    FirstStatement(t, me, U.Complete(result), finished, U.AtReadFinished(result), o);
    LastRead(finished, me, U.AtReadFinished(result), o);
  }

  lemma AloneFail(t: Table, me: Name, id: Name, code: Name, o: U.Outcome)
    ensures Uninterrupted(t, me, U.Fail(id, code), o) == Alone(t, me, U.Fail(id, code), o)
  {
    if Owned(t, id, me) {
      var given := UcGiveUp(t, id, me, code).0;
      var write, read := U.AtGiveUp(id, code, U.Verdict(t[id].task)), U.AtReadGivenUp(id);
      FirstStatement(t, me, U.Fail(id, code), t, write, o);
      OneStatement(t, me, write, given, read, o);
      LastRead(given, me, read, o);
      assert [] + Heard(given, me, read, o) == Heard(given, me, read, o);
    } else {
      FirstStatement(t, me, U.Fail(id, code), t, U.Idle, o);
    }
  }
}

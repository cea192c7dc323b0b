/** Who may settle a task, and when a task may be leased again, over whole runs of the in-memory bus. */
module LeaseSafety {
  import opened Basics
  import opened Delegation
  import opened TaskBus
  import opened TaskBusRuns
  import opened RetryBudget

  // ----- lease exclusion as a time bound -----

  /** No lease of task `id` is written before the end of its open lease. */
  ghost predicate Spaced(log: seq<Event>, id: Name) {
    forall j :: 0 <= j < |log| && log[j].Leased? && log[j].id == id ==>
      LedgerOf(log[..j], id).open.Some? ==> log[j].at >= LedgerOf(log[..j], id).open.value
  }

  lemma SpacedAppend(log: seq<Event>, e: Event, id: Name)
    requires Spaced(log, id)
    requires e.Leased? && e.id == id && LedgerOf(log, id).open.Some? ==> e.at >= LedgerOf(log, id).open.value
    ensures Spaced(log + [e], id)
  {
    forall j | 0 <= j < |log + [e]| && (log + [e])[j].Leased? && (log + [e])[j].id == id
      ensures LedgerOf((log + [e])[..j], id).open.Some? ==>
        (log + [e])[j].at >= LedgerOf((log + [e])[..j], id).open.value
    {
      if j < |log| {
        assert (log + [e])[..j] == log[..j];
      } else {
        assert (log + [e])[..j] == log;
      }
    }
  }

  lemma StepSpaced(h: History, op: Op, id: Name)
    requires WellFormed(h.bus) && !op.Claim? && TaskInvariant(h, id) && Spaced(h.log, id)
    ensures Spaced(Step(h, op).log, id)
  {
    hide WellFormed, LedgerOf, Spaced;
    var more := Emit(h.bus, op);
    if more == [] {
      assert h.log + more == h.log;
    } else {
      assert more == [more[0]];
      SpacedAppend(h.log, more[0], id);
    }
  }

  lemma {:induction false} RunSpaced(h: History, ops: seq<Op>, id: Name)
    requires WellFormed(h.bus) && SingleSteps(ops) && AllFresh(h.bus, ops)
    requires TaskInvariant(h, id) && Spaced(h.log, id)
    ensures Spaced(Run(h, ops).log, id)
    decreases |ops|
  {
    hide WellFormed, LedgerOf, Accounted, Spaced;
    if ops != [] {
      StepInvariant(h, ops[0], id);
      StepSpaced(h, ops[0], id);
      RunSpaced(Step(h, ops[0]), ops[1..], id);
    }
  }

  /** The entry at `k` neither leases task `id` nor gives it up. */
  predicate Quiet(log: seq<Event>, id: Name, k: nat)
    requires k < |log|
  {
    log[k].id == id ==> !log[k].Leased? && !log[k].GivenUp?
  }

  lemma {:induction false} OpenUntil(log: seq<Event>, i: nat, j: nat, id: Name)
    requires i < j <= |log| && log[i].Leased? && log[i].id == id
    requires forall k :: i < k < j ==> Quiet(log, id, k)
    ensures LedgerOf(log[..j], id).open == Some(LeaseEnd(log[i].at, log[i].leaseSeconds))
    decreases j
  {
    assert log[..j][..j - 1] == log[..j - 1];
    if j > i + 1 {
      OpenUntil(log, i, j - 1, id);
      assert Quiet(log, id, j - 1);
    }
  }

  /**
   * Lease exclusion, for every run from the empty bus: between two leases of one task with no give-up
   * in between, at least max(lease_seconds, 1) passes, whatever else happens to the task meanwhile.
   */
  lemma LeasesDoNotOverlap(ops: seq<Op>, id: Name, i: nat, j: nat)
    requires AllFresh(EMPTY_BUS, ops)
    requires i < j < |Trace(EMPTY_BUS, ops).log|
    requires
      var log := Trace(EMPTY_BUS, ops).log;
      && log[i].Leased? && log[i].id == id && log[j].Leased? && log[j].id == id
      && forall k :: i < k < j ==> Quiet(log, id, k)
    ensures
      var log := Trace(EMPTY_BUS, ops).log;
      log[j].at >= log[i].at + Max(log[i].leaseSeconds, 1)
  {
    FlattenFresh(EMPTY_BUS, ops);
    RunSpaced(History(EMPTY_BUS, []), Flatten(EMPTY_BUS, ops), id);
    OpenUntil(Trace(EMPTY_BUS, ops).log, i, j, id);
  }

  // ----- a worker that lost its lease -----

  /** Worker `w` does not claim anything in this step. */
  predicate ClaimsNothing(op: Op, w: Name) {
    (op.Claim? || op.ClaimTask?) ==> op.worker != w
  }

  ghost predicate NotHeld(s: BusState, id: Name, w: Name) {
    id in s.records && s.records[id].leaseOwner != Some(w)
  }

  lemma {:induction false} RunNotHeld(h: History, ops: seq<Op>, id: Name, w: Name)
    requires WellFormed(h.bus) && SingleSteps(ops) && NotHeld(h.bus, id, w)
    requires forall op :: op in ops ==> ClaimsNothing(op, w)
    ensures NotHeld(Run(h, ops).bus, id, w)
    decreases |ops|
  {
    hide WellFormed;
    if ops != [] {
      assert ops[0] in ops;
      RunNotHeld(Step(h, ops[0]), ops[1..], id, w);
    }
  }

  lemma {:induction false} FlattenClaimsNothing(s: BusState, ops: seq<Op>, w: Name)
    requires WellFormed(s) && forall op :: op in ops ==> ClaimsNothing(op, w)
    ensures forall op :: op in Flatten(s, ops) ==> ClaimsNothing(op, w)
    decreases |ops|
  {
    hide WellFormed;
    if ops != [] {
      assert ops[0] in ops;
      FlattenClaimsNothing(Apply(s, ops[0]), ops[1..], w);
    }
  }

  /**
   * Once somebody else holds the lease, a worker that claims nothing more is locked out for good:
   * after any run, each of its calls on the task is refused and changes nothing.
   */
  lemma FormerOwnerLockedOut(s: BusState, ops: seq<Op>, id: Name, w: Name, action: Action)
    requires WellFormed(s) && NotHeld(s, id, w)
    requires forall op :: op in ops ==> ClaimsNothing(op, w)
    ensures OwnedStep(ApplyAll(s, ops), id, w, action) == (ApplyAll(s, ops), NotOwner)
  {
    hide WellFormed;
    FlattenClaimsNothing(s, ops, w);
    RunNotHeld(History(s, []), Flatten(s, ops), id, w);
    FlattenRun(History(s, []), ops);
  }

  /** In particular after a different worker has reclaimed a lapsed lease. */
  lemma ReclaimLocksOut(
      s: BusState, ops: seq<Op>, id: Name, before: Name, after: Name, leaseSeconds: int, now: int, action: Action)
    requires WellFormed(s) && id in s.records && before != after
    requires OwnedBy(s.records[id], before) && ClaimTaskStep(s, id, after, leaseSeconds, now).1.Some?
    requires forall op :: op in ops ==> ClaimsNothing(op, before)
    ensures
      var t := ApplyAll(ClaimTaskStep(s, id, after, leaseSeconds, now).0, ops);
      && s.records[id].leaseExpiresAt.Some? && s.records[id].leaseExpiresAt.value <= now
      && OwnedStep(t, id, before, action) == (t, NotOwner)
  {
    FormerOwnerLockedOut(ClaimTaskStep(s, id, after, leaseSeconds, now).0, ops, id, before, action);
  }

  // ----- terminal statuses -----

  /** All that may still happen to a record in a terminal status. */
  predicate Settles(r: Record, later: Record) {
    later == r || (r.task.expiresAt.Some? && later == Expire(r))
  }

  lemma {:induction false} RunTerminal(h: History, ops: seq<Op>, id: Name, r: Record)
    requires WellFormed(h.bus) && SingleSteps(ops) && AllFresh(h.bus, ops)
    requires id in h.bus.records && IsTerminal(r.status) && Settles(r, h.bus.records[id])
    ensures id in Run(h, ops).bus.records && Settles(r, Run(h, ops).bus.records[id])
    decreases |ops|
  {
    hide WellFormed;
    if ops != [] {
      RunTerminal(Step(h, ops[0]), ops[1..], id, r);
    }
  }

  /**
   * Terminal statuses absorb, for every run: a settled task without an expiry time never changes again,
   * and one with an expiry time can only still turn into `expired`, with its result kept.
   */
  lemma TerminalAbsorbs(s: BusState, ops: seq<Op>, id: Name)
    requires WellFormed(s) && AllFresh(s, ops) && id in s.records && IsTerminal(s.records[id].status)
    ensures
      var t := ApplyAll(s, ops);
      && id in t.records
      && (s.records[id].task.expiresAt.None? ==> t.records[id] == s.records[id])
      && (t.records[id] == s.records[id] || t.records[id] == Expire(s.records[id]))
      && t.records[id].result == s.records[id].result
  {
    FlattenFresh(s, ops);
    RunTerminal(History(s, []), Flatten(s, ops), id, s.records[id]);
    FlattenRun(History(s, []), ops);
  }

  // ----- exactly when a settled task still changes -----

  /** A named claim leaves a settled task alone exactly when it is not due, or already marked expired. */
  lemma ClaimLeavesSettledExactly(s: BusState, id: Name, w: Name, leaseSeconds: int, now: int)
    requires WellFormed(s) && id in s.records && IsTerminal(s.records[id].status)
    ensures
      var r := s.records[id];
      ClaimTaskStep(s, id, w, leaseSeconds, now).0.records[id] == r <==> !(IsDue(r, now) && r != Expire(r))
  {
    hide WellFormed;
  }

  /** A claim that looks at task `id` at or after time `end`. */
  predicate LooksLate(op: Op, id: Name, end: int) {
    op.ClaimTask? && op.id == id && end <= op.now
  }

  lemma StepExpires(h: History, op: Op, id: Name, r: Record)
    requires WellFormed(h.bus) && !op.Claim? && Fresh(h.bus, op)
    requires IsTerminal(r.status) && r.task.expiresAt.Some? && Expire(r) != r
    requires id in h.bus.records && Settles(r, h.bus.records[id])
    ensures id in Step(h, op).bus.records && Settles(r, Step(h, op).bus.records[id])
    ensures Step(h, op).bus.records[id] == Expire(r) <==>
            h.bus.records[id] == Expire(r) || LooksLate(op, id, r.task.expiresAt.value)
  {
    hide WellFormed;
  }

  lemma {:induction false} RunExpires(h: History, ops: seq<Op>, id: Name, r: Record)
    requires WellFormed(h.bus) && SingleSteps(ops) && AllFresh(h.bus, ops)
    requires IsTerminal(r.status) && r.task.expiresAt.Some? && Expire(r) != r
    requires id in h.bus.records && Settles(r, h.bus.records[id])
    ensures id in Run(h, ops).bus.records
    ensures Run(h, ops).bus.records[id] == Expire(r) <==>
            h.bus.records[id] == Expire(r) || exists op :: op in ops && LooksLate(op, id, r.task.expiresAt.value)
    decreases |ops|
  {
    hide WellFormed, LooksLate, Settles;
    if ops != [] {
      StepExpires(h, ops[0], id, r);
      RunExpires(Step(h, ops[0]), ops[1..], id, r);
      var late := exists op :: op in ops[1..] && LooksLate(op, id, r.task.expiresAt.value);
      assert late ==> exists op :: op in ops && LooksLate(op, id, r.task.expiresAt.value);
      assert forall op :: op in ops <==> op == ops[0] || op in ops[1..];
    }
  }

  /**
   * A settled task with an expiry time turns into `expired` exactly when some claim, named or in a batch,
   * looks at it at that time or later.
   */
  lemma SettledExpiresExactly(s: BusState, ops: seq<Op>, id: Name)
    requires WellFormed(s) && AllFresh(s, ops) && id in s.records && IsTerminal(s.records[id].status)
    requires s.records[id].task.expiresAt.Some? && Expire(s.records[id]) != s.records[id]
    ensures id in ApplyAll(s, ops).records
    ensures
      var r := s.records[id];
      ApplyAll(s, ops).records[id] == Expire(r) <==>
      exists op :: op in Flatten(s, ops) && LooksLate(op, id, r.task.expiresAt.value)
  {
    FlattenFresh(s, ops);
    RunExpires(History(s, []), Flatten(s, ops), id, s.records[id]);
    FlattenRun(History(s, []), ops);
  }

  /** For every task with an expiry time there is a run that completes it and then turns it into `expired`. */
  lemma SettledTaskExpires(task: Task, w: Name, result: Result) returns (done: BusState, ops: seq<Op>)
    requires task.attempt == 0 && task.maxAttempts >= 1 && task.taskId.text != "" && task.expiresAt.Some?
    requires result.taskId == task.taskId && result.status.Succeeded?
    ensures AllFresh(EMPTY_BUS, ops) && |ops| == 4 && WellFormed(done) && done == ApplyAll(EMPTY_BUS, ops[..3])
    ensures task.taskId in done.records && done.records[task.taskId].status.Succeeded?
    ensures task.taskId in ApplyAll(EMPTY_BUS, ops).records
    ensures ApplyAll(EMPTY_BUS, ops).records[task.taskId] == Expire(done.records[task.taskId])
  {
    var id, end := task.taskId, task.expiresAt.value;
    var submit, claim := Submit(task), ClaimTask(id, w, 1, end - 1);
    var finish, look := Own(id, w, Finish(result)), ClaimTask(id, w, 1, end);
    ops := [submit, claim, finish, look];
    LeasedOnce(task, w, end - 1);
    done := OwnedStep(Apply(Apply(EMPTY_BUS, submit), claim), id, w, Finish(result)).0;
    FourSteps(EMPTY_BUS, submit, claim, finish, look);
  }

  /** The bus after one task was submitted and leased. */
  lemma LeasedOnce(task: Task, w: Name, now: int)
    requires !IsDue(NewRecord(task), now)
    ensures WellFormed(EMPTY_BUS)
    ensures Apply(Apply(EMPTY_BUS, Submit(task)), ClaimTask(task.taskId, w, 1, now)) ==
            BusState([task.taskId], map[task.taskId := Lease(NewRecord(task), w, LeaseEnd(now, 1))],
                     map[task.idempotencyKey := task.taskId])
  {
    var s1 := Apply(EMPTY_BUS, Submit(task));
    assert s1 == BusState([task.taskId], map[task.taskId := NewRecord(task)], map[task.idempotencyKey := task.taskId]);
  }

  lemma FourSteps(s: BusState, a: Op, b: Op, c: Op, d: Op)
    requires WellFormed(s) && Fresh(s, a) && !b.Submit? && !c.Submit? && !d.Submit?
    ensures AllFresh(s, [a, b, c, d])
    ensures ApplyAll(s, [a, b, c, d][..3]) == Apply(Apply(Apply(s, a), b), c)
    ensures ApplyAll(s, [a, b, c, d]) == Apply(Apply(Apply(Apply(s, a), b), c), d)
  {
    hide WellFormed, Apply, AllFresh, ApplyAll;
    var s1 := Apply(s, a);
    var s2 := Apply(s1, b);
    var s3 := Apply(s2, c);
    OneOp(s3, d);
    OpsCons(s2, c, [d]);
    OpsCons(s1, b, [c] + [d]);
    OpsCons(s, a, [b] + ([c] + [d]));
    OneOp(s2, c);
    OpsCons(s1, b, [c]);
    OpsCons(s, a, [b] + [c]);
    assert [a, b, c, d] == [a] + ([b] + ([c] + [d])) && [a, b, c, d][..3] == [a] + ([b] + [c]);
  }

  /** A run of one operation. */
  lemma OneOp(s: BusState, op: Op)
    requires WellFormed(s)
    ensures AllFresh(s, [op]) <==> Fresh(s, op)
    ensures ApplyAll(s, [op]) == Apply(s, op)
  {
    hide WellFormed, Apply, Fresh;
    var rest := [op][1..];
    assert rest == [];
    assert AllFresh(Apply(s, op), rest) && ApplyAll(Apply(s, op), rest) == Apply(s, op);
  }

  /** A run is its first operation and the run of the rest. */
  lemma OpsCons(s: BusState, op: Op, ops: seq<Op>)
    requires WellFormed(s)
    ensures AllFresh(s, [op] + ops) <==> Fresh(s, op) && AllFresh(Apply(s, op), ops)
    ensures ApplyAll(s, [op] + ops) == ApplyAll(Apply(s, op), ops)
  {
    hide WellFormed, Apply, Fresh;
    assert ([op] + ops)[1..] == ops;
  }

  // ----- exactly when an owner outlives its lease -----

  /** A task that turns into `expired` keeps an owner exactly when it was leased at that moment. */
  lemma ExpiryKeepsOwnerExactly(h: History, id: Name, w: Name, leaseSeconds: int, now: int)
    requires WellFormed(h.bus) && id in h.bus.records && TaskInvariant(h, id)
    requires IsDue(h.bus.records[id], now) && !h.bus.records[id].status.Expired?
    ensures
      var r, t := h.bus.records[id], ClaimTaskStep(h.bus, id, w, leaseSeconds, now).0.records[id];
      t.status.Expired? && t.leaseOwner == r.leaseOwner && (t.leaseOwner.Some? <==> IsLeased(r.status))
  {
    hide WellFormed, LedgerOf;
  }

  /**
   * For every run: an expired task still names an owner exactly when its last lease was neither given up
   * nor settled, and that owner can do nothing with it.
   */
  lemma ExpiredOwnerExactly(ops: seq<Op>, id: Name, w: Name, action: Action)
    requires AllFresh(EMPTY_BUS, ops) && id in ApplyAll(EMPTY_BUS, ops).records
    requires ApplyAll(EMPTY_BUS, ops).records[id].status.Expired?
    ensures
      var t, l := ApplyAll(EMPTY_BUS, ops), LedgerOf(Trace(EMPTY_BUS, ops).log, id);
      && (t.records[id].leaseOwner.Some? <==> l.open.Some? && l.settlements == 0)
      && OwnedStep(t, id, w, action) == (t, NotOwner)
  {
    BudgetKept(ops, id);
  }

  /** Such a run exists for every task with an expiry time: leased once, and looked at when it is due. */
  lemma LeasedTaskExpires(task: Task, w: Name) returns (ops: seq<Op>)
    requires task.attempt == 0 && task.maxAttempts >= 1 && task.taskId.text != "" && task.expiresAt.Some?
    ensures AllFresh(EMPTY_BUS, ops) && task.taskId in ApplyAll(EMPTY_BUS, ops).records
    ensures
      var r := ApplyAll(EMPTY_BUS, ops).records[task.taskId];
      r.status.Expired? && r.leaseOwner == Some(w)
  {
    hide Apply, WellFormed;
    var id, end := task.taskId, task.expiresAt.value;
    var submit, claim, look := Submit(task), ClaimTask(id, w, 1, end - 1), ClaimTask(id, w, 1, end);
    var begin := Own(id, w, Begin);
    ops := [submit, claim, begin, look];
    LeasedOnce(task, w, end - 1);
    var leased := Apply(Apply(EMPTY_BUS, submit), claim);
    BegunTaskExpires(leased, id, w, end);
    FourSteps(EMPTY_BUS, submit, claim, begin, look);
  }

  lemma BegunTaskExpires(s: BusState, id: Name, w: Name, end: int)
    requires WellFormed(s) && id in s.records && OwnedBy(s.records[id], w) && s.records[id].task.expiresAt == Some(end)
    ensures
      var t := Apply(Apply(s, Own(id, w, Begin)), ClaimTask(id, w, 1, end));
      id in t.records && t.records[id].status.Expired? && t.records[id].leaseOwner == Some(w)
  {
    hide WellFormed;
  }

  // ----- idempotent submission -----

  /** Every record is filed under its key, and under no other. */
  ghost predicate Indexed(s: BusState) {
    && (forall id :: id in s.records ==>
          KnownKey(s, s.records[id].task.idempotencyKey) && s.index[s.records[id].task.idempotencyKey] == id)
    && (forall k :: k in s.index ==> s.index[k] in s.records && s.records[s.index[k]].task.idempotencyKey == k)
  }

  lemma IndexedKnown(s: BusState, key: Name)
    requires Indexed(s) && KnownKey(s, key)
    ensures key in s.index && s.index[key] in s.records && s.records[s.index[key]].task.idempotencyKey == key
  {
  }

  lemma StepIndexed(h: History, op: Op)
    requires WellFormed(h.bus) && !op.Claim? && Fresh(h.bus, op) && Indexed(h.bus)
    ensures Indexed(Step(h, op).bus)
    ensures forall k :: KnownKey(h.bus, k) ==>
              KnownKey(Step(h, op).bus, k) && Step(h, op).bus.index[k] == h.bus.index[k]
  {
    hide WellFormed, Indexed;
    var s, t := h.bus, Step(h, op).bus;
    if op.Submit? {
      if !KnownKey(s, op.task.idempotencyKey) {
        InsertIndexed(s, t, op.task);
      }
    } else {
      assert t.index == s.index && t.records.Keys == s.records.Keys;
      assert forall id :: id in s.records ==> t.records[id].task.idempotencyKey == s.records[id].task.idempotencyKey;
      IndexedFrame(s, t);
    }
  }

  /** A new task is filed under its key. */
  lemma InsertIndexed(s: BusState, t: BusState, task: Task)
    requires Indexed(s) && task.taskId !in s.records && task.taskId.text != ""
    requires !KnownKey(s, task.idempotencyKey)
    requires t.records == s.records[task.taskId := NewRecord(task)]
    requires t.index == s.index[task.idempotencyKey := task.taskId]
    ensures Indexed(t)
  {
  }

  lemma IndexedFrame(s: BusState, t: BusState)
    requires Indexed(s) && t.index == s.index && t.records.Keys == s.records.Keys
    requires forall id :: id in s.records ==> t.records[id].task.idempotencyKey == s.records[id].task.idempotencyKey
    ensures Indexed(t)
  {
    assert forall id :: id in t.records.Keys <==> id in s.records.Keys;
  }

  lemma {:induction false} RunIndexed(h: History, ops: seq<Op>)
    requires WellFormed(h.bus) && SingleSteps(ops) && AllFresh(h.bus, ops) && Indexed(h.bus)
    ensures Indexed(Run(h, ops).bus)
    ensures forall k :: KnownKey(h.bus, k) ==>
              KnownKey(Run(h, ops).bus, k) && Run(h, ops).bus.index[k] == h.bus.index[k]
    decreases |ops|
  {
    hide WellFormed, Indexed;
    if ops != [] {
      StepIndexed(h, ops[0]);
      RunIndexed(Step(h, ops[0]), ops[1..]);
    }
  }

  /** No two tasks of a run carry the same idempotency key. */
  lemma OneTaskPerKey(ops: seq<Op>, a: Name, b: Name)
    requires AllFresh(EMPTY_BUS, ops)
    requires a in ApplyAll(EMPTY_BUS, ops).records && b in ApplyAll(EMPTY_BUS, ops).records
    requires
      var t := ApplyAll(EMPTY_BUS, ops);
      t.records[a].task.idempotencyKey == t.records[b].task.idempotencyKey
    ensures a == b
  {
    FlattenFresh(EMPTY_BUS, ops);
    RunIndexed(History(EMPTY_BUS, []), Flatten(EMPTY_BUS, ops));
    FlattenRun(History(EMPTY_BUS, []), ops);
  }

  /** Submitting a key again, after any run, returns the task first submitted, as it is now, and changes nothing. */
  lemma ResubmissionFindsTheFirst(s: BusState, first: Task, ops: seq<Op>, again: Task)
    requires WellFormed(s) && Indexed(s) && Fresh(s, Submit(first)) && AllFresh(SubmitStep(s, first).0, ops)
    requires again.idempotencyKey == first.idempotencyKey
    ensures
      var t := ApplyAll(SubmitStep(s, first).0, ops);
      var (t', record) := SubmitStep(t, again);
      && t' == t && record.task.taskId == SubmitStep(s, first).1.task.taskId
      && (!KnownKey(s, first.idempotencyKey) ==> SameTask(first, record.task))
  {
    hide WellFormed, Indexed, SameTask, TasksKept;
    var h := History(SubmitStep(s, first).0, []);
    StepIndexed(History(s, []), Submit(first));
    SubmittedTask(s, first, ops);
    FlattenFresh(h.bus, ops);
    RunIndexed(h, Flatten(h.bus, ops));
    FlattenRun(h, ops);
  }

  lemma ApplyIndexed(s: BusState, op: Op)
    requires WellFormed(s) && Fresh(s, op) && Indexed(s)
    ensures Indexed(Apply(s, op))
    ensures forall k :: KnownKey(Apply(s, op), k) ==>
              KnownKey(s, k) || (op.Submit? && k == op.task.idempotencyKey)
    ensures forall k :: KnownKey(s, k) ==> KnownKey(Apply(s, op), k) && Apply(s, op).index[k] == s.index[k]
  {
    hide WellFormed, Indexed;
    OneOp(s, op);
    FlattenFresh(s, [op]);
    RunIndexed(History(s, []), Flatten(s, [op]));
    FlattenRun(History(s, []), [op]);
  }

  /** A task submitted under the empty id is not found again under its key: the next submission replaces it. */
  lemma EmptyIdIsForgotten(s: BusState, first: Task, again: Task)
    requires WellFormed(s) && first.taskId.text == "" && !KnownKey(s, first.idempotencyKey)
    requires again.idempotencyKey == first.idempotencyKey && again.taskId.text != ""
    ensures WellFormed(SubmitStep(s, first).0)
    ensures
      var (t, record) := SubmitStep(SubmitStep(s, first).0, again);
      record == NewRecord(again) && again.taskId in t.records && t.records[again.taskId] == record
  {
  }

  // ----- what a task asks for -----

  lemma SubmittedTask(s: BusState, first: Task, ops: seq<Op>)
    requires WellFormed(s) && Fresh(s, Submit(first)) && AllFresh(SubmitStep(s, first).0, ops)
    requires Indexed(SubmitStep(s, first).0)
    ensures
      var t := ApplyAll(SubmitStep(s, first).0, ops);
      && first.idempotencyKey in SubmitStep(s, first).0.index
      && SubmitStep(s, first).0.index[first.idempotencyKey] == SubmitStep(s, first).1.task.taskId
      && SubmitStep(s, first).1.task.taskId in t.records
      && t.records[SubmitStep(s, first).1.task.taskId].task.taskId == SubmitStep(s, first).1.task.taskId
      && (!KnownKey(s, first.idempotencyKey) ==>
            SameTask(first, t.records[SubmitStep(s, first).1.task.taskId].task))
  {
    TasksStay(SubmitStep(s, first).0, ops);
  }

  /** The same task, up to the attempt counter. */
  predicate SameTask(a: Task, b: Task) {
    b == a.(attempt := b.attempt)
  }

  ghost predicate TasksKept(s: BusState, t: BusState) {
    forall id :: id in s.records ==> id in t.records && SameTask(s.records[id].task, t.records[id].task)
  }

  lemma {:induction false} RunKeepsTasks(h: History, ops: seq<Op>)
    requires WellFormed(h.bus) && SingleSteps(ops) && AllFresh(h.bus, ops)
    ensures TasksKept(h.bus, Run(h, ops).bus)
    decreases |ops|
  {
    hide WellFormed, SameTask;
    if ops == [] {
      SameTaskReflexive(h.bus);
    } else {
      StepKeepsTasks(h, ops[0]);
      RunKeepsTasks(Step(h, ops[0]), ops[1..]);
      SameTaskTransitive();
    }
  }

  lemma SameTaskReflexive(s: BusState)
    ensures TasksKept(s, s)
  {
  }

  lemma SameTaskTransitive()
    ensures forall a, b, c :: SameTask(a, b) && SameTask(b, c) ==> SameTask(a, c)
  {
  }

  lemma StepKeepsTasks(h: History, op: Op)
    requires WellFormed(h.bus) && !op.Claim? && Fresh(h.bus, op)
    ensures TasksKept(h.bus, Step(h, op).bus)
  {
    hide WellFormed;
  }

  /** Every run keeps what its tasks ask for: only the attempt counter of a stored task ever changes. */
  lemma TasksStay(s: BusState, ops: seq<Op>)
    requires WellFormed(s) && AllFresh(s, ops)
    ensures TasksKept(s, ApplyAll(s, ops))
  {
    hide WellFormed;
    FlattenFresh(s, ops);
    RunKeepsTasks(History(s, []), Flatten(s, ops));
    FlattenRun(History(s, []), ops);
  }

  lemma ApplyKeepsTasks(s: BusState, op: Op)
    requires WellFormed(s) && Fresh(s, op)
    ensures TasksKept(s, Apply(s, op))
  {
    hide WellFormed, TasksKept, Apply;
    OneOp(s, op);
    TasksStay(s, [op]);
  }
}

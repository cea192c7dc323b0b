/** Accounting over whole runs of the in-memory bus: attempts, retries, settlements and lease times. */
module RetryBudget {
  import opened Basics
  import opened Delegation
  import opened TaskBus
  import opened TaskBusRuns

  /** What a log says about one task. `open` is the end of its last lease, unless that lease was given up. */
  datatype Ledger = Ledger(leases: nat, reclaims: nat, failures: nat, settlements: nat, open: Option<int>)

  const BLANK := Ledger(0, 0, 0, 0, None)

  function Post(l: Ledger, e: Event, id: Name): Ledger {
    if e.id != id then l
    else match e
      case Leased(_, _, at, leaseSeconds, reclaim) =>
        l.(leases := l.leases + 1, reclaims := l.reclaims + (if reclaim then 1 else 0),
           open := Some(LeaseEnd(at, leaseSeconds)))
      case GivenUp(_, _) => l.(failures := l.failures + 1, open := None)
      case Settled(_, _) => l.(settlements := l.settlements + 1)
      case _ => l
  }

  function LedgerOf(log: seq<Event>, id: Name): Ledger {
    if log == [] then BLANK else Post(LedgerOf(log[..|log| - 1], id), log[|log| - 1], id)
  }

  /** Fresh submissions: a new task has an id of its own, no attempts yet and a budget of at least one. */
  predicate Fresh(s: BusState, op: Op) {
    op.Submit? && !KnownKey(s, op.task.idempotencyKey) ==>
      && op.task.taskId !in s.records && op.task.taskId.text != ""
      && op.task.attempt == 0 && op.task.maxAttempts >= 1
  }

  ghost predicate AllFresh(s: BusState, ops: seq<Op>)
    requires WellFormed(s)
    decreases |ops|
  {
    ops == [] || (Fresh(s, ops[0]) && AllFresh(Apply(s, ops[0]), ops[1..]))
  }

  /** The invariant of one task. */
  predicate Accounted(r: Record, l: Ledger) {
    && r.task.attempt == l.leases
    && r.task.maxAttempts >= 1
    && l.leases == l.failures + l.reclaims + (if l.open.Some? then 1 else 0)
    && l.failures <= r.task.maxAttempts
    && (l.open.Some? ==> l.failures < r.task.maxAttempts)
    && (IsLeased(r.status) ==> r.leaseOwner.Some?)
    && (r.leaseOwner.Some? ==> IsLeased(r.status) || r.status.Expired?)
    && (r.leaseOwner.Some? <==> l.open.Some? && l.settlements == 0)
    && (IsLeased(r.status) ==> r.leaseExpiresAt == l.open && l.open.Some?)
    && (r.status.Pending? ==> l.open.None? && r.task.attempt < r.task.maxAttempts)
    && (r.status.DeadLetter? ==> l.open.None? && r.task.attempt >= r.task.maxAttempts)
    && (l.failures == r.task.maxAttempts ==> r.status.DeadLetter? || r.status.Expired?)
    && l.settlements == (if r.result.Some? then 1 else 0)
    && (r.result.Some? ==> IsTerminal(r.status))
  }

  ghost predicate TaskInvariant(h: History, id: Name) {
    if id in h.bus.records then Accounted(h.bus.records[id], LedgerOf(h.log, id)) else LedgerOf(h.log, id) == BLANK
  }

  lemma LedgerAppend(log: seq<Event>, more: seq<Event>, id: Name)
    requires |more| <= 1
    ensures LedgerOf(log + more, id) == if more == [] then LedgerOf(log, id) else Post(LedgerOf(log, id), more[0], id)
  {
    if more == [] {
      assert log + more == log;
    } else {
      assert (log + more)[..|log|] == log;
    }
  }

  lemma StepInvariant(h: History, op: Op, id: Name)
    requires WellFormed(h.bus) && !op.Claim? && Fresh(h.bus, op) && TaskInvariant(h, id)
    ensures TaskInvariant(Step(h, op), id)
  {
    hide WellFormed, LedgerOf;
    LedgerAppend(h.log, Emit(h.bus, op), id);
  }

  lemma {:induction false} RunInvariant(h: History, ops: seq<Op>, id: Name)
    requires WellFormed(h.bus) && SingleSteps(ops) && AllFresh(h.bus, ops) && TaskInvariant(h, id)
    ensures TaskInvariant(Run(h, ops), id)
    decreases |ops|
  {
    hide WellFormed, LedgerOf, Accounted;
    if ops != [] {
      StepInvariant(h, ops[0], id);
      RunInvariant(Step(h, ops[0]), ops[1..], id);
    }
  }

  // ----- freshness survives flattening -----

  lemma {:induction false} VisitsFresh(s: BusState, ops: seq<Op>)
    requires WellFormed(s) && forall op :: op in ops ==> op.ClaimTask?
    ensures AllFresh(s, ops)
    decreases |ops|
  {
    hide WellFormed;
    if ops != [] {
      assert ops[0] in ops;
      VisitsFresh(Apply(s, ops[0]), ops[1..]);
    }
  }

  lemma {:induction false} FreshConcat(s: BusState, a: seq<Op>, b: seq<Op>)
    requires WellFormed(s) && AllFresh(s, a) && AllFresh(ApplyAll(s, a), b)
    ensures AllFresh(s, a + b)
    decreases |a|
  {
    hide WellFormed;
    if a == [] {
      assert a + b == b;
    } else {
      FreshConcat(Apply(s, a[0]), a[1..], b);
      assert (a + b)[1..] == a[1..] + b;
    }
  }

  lemma {:induction false} FlattenFresh(s: BusState, ops: seq<Op>)
    requires WellFormed(s) && AllFresh(s, ops)
    ensures AllFresh(s, Flatten(s, ops))
    decreases |ops|
  {
    hide WellFormed;
    if ops != [] {
      var head, op := Expand(s, ops[0]), ops[0];
      ExpandRun(s, op);
      if op.Claim? {
        VisitsFresh(s, head);
      }
      FlattenFresh(Apply(s, op), ops[1..]);
      FreshConcat(s, head, Flatten(Apply(s, op), ops[1..]));
    }
  }

  lemma ExpandRun(s: BusState, op: Op)
    requires WellFormed(s)
    ensures ApplyAll(s, Expand(s, op)) == Apply(s, op)
  {
    hide WellFormed;
    var h := History(s, []);
    FlattenRun(h, [op]);
    assert Flatten(s, [op]) == Expand(s, op);
    RunApply(h, Expand(s, op));
    assert ApplyAll(s, [op]) == Apply(s, op);
  }

  lemma {:induction false} RunApply(h: History, ops: seq<Op>)
    requires WellFormed(h.bus) && SingleSteps(ops)
    ensures Run(h, ops).bus == ApplyAll(h.bus, ops)
    decreases |ops|
  {
    hide WellFormed;
    if ops != [] {
      RunApply(Step(h, ops[0]), ops[1..]);
    }
  }

  // ----- the theorems -----

  lemma TraceInvariant(ops: seq<Op>, id: Name)
    requires AllFresh(EMPTY_BUS, ops)
    ensures TaskInvariant(Trace(EMPTY_BUS, ops), id)
  {
    FlattenFresh(EMPTY_BUS, ops);
    RunInvariant(History(EMPTY_BUS, []), Flatten(EMPTY_BUS, ops), id);
  }

  /**
   * Retry budget, for every run from the empty bus: the attempt counter is the number of successful
   * leases; failures never exceed the budget; the counter exceeds the budget by no more than the
   * number of reclaimed leases; a pending task has budget left and a dead-lettered one has none;
   * and at most one settlement ever succeeds.
   */
  lemma BudgetKept(ops: seq<Op>, id: Name)
    requires AllFresh(EMPTY_BUS, ops) && id in ApplyAll(EMPTY_BUS, ops).records
    ensures
      var r := ApplyAll(EMPTY_BUS, ops).records[id];
      var l := LedgerOf(Trace(EMPTY_BUS, ops).log, id);
      && r.task.attempt == l.leases == l.failures + l.reclaims + (if l.open.Some? then 1 else 0)
      && l.failures <= r.task.maxAttempts
      && r.task.attempt <= r.task.maxAttempts + l.reclaims
      && (r.status.Pending? ==> r.task.attempt < r.task.maxAttempts)
      && (r.status.DeadLetter? ==> r.task.attempt >= r.task.maxAttempts)
      && l.settlements <= 1 && (l.settlements == 1 <==> r.result.Some?)
      && (r.result.Some? ==> IsTerminal(r.status))
      && (IsLeased(r.status) ==> r.leaseOwner.Some?)
      && (r.leaseOwner.Some? ==> IsLeased(r.status) || r.status.Expired?)
      && (r.leaseOwner.Some? <==> l.open.Some? && l.settlements == 0)
  {
    FlattenRun(History(EMPTY_BUS, []), ops);
    TraceInvariant(ops, id);
  }

  // ----- exactly when the budget is overrun -----

  /** The guard the claim does not have: a lapsed lease of a task that has used all its attempts is taken again. */
  predicate ReclaimsSpent(r: Record, now: int) {
    LeaseLapsed(r, now) && !IsDue(r, now) && r.task.attempt >= r.task.maxAttempts
  }

  /** A claim takes a task within its budget over it exactly when it reclaims a spent one. */
  lemma ClaimKeepsBudgetExactly(h: History, id: Name, w: Name, leaseSeconds: int, now: int)
    requires WellFormed(h.bus) && id in h.bus.records && TaskInvariant(h, id)
    requires h.bus.records[id].task.attempt <= h.bus.records[id].task.maxAttempts
    ensures
      var r, t := h.bus.records[id], ClaimTaskStep(h.bus, id, w, leaseSeconds, now).0.records[id];
      t.task.attempt <= t.task.maxAttempts <==> !ReclaimsSpent(r, now)
  {
    hide WellFormed, LedgerOf;
  }

  /** Entry `j` of the log reclaims task `id` although its `most` attempts were used up before. */
  predicate SpentReclaimAt(log: seq<Event>, id: Name, most: int, j: nat)
    requires j < |log|
  {
    log[j].Leased? && log[j].id == id && log[j].reclaim && LedgerOf(log[..j], id).leases >= most
  }

  predicate Overran(log: seq<Event>, id: Name, most: int) {
    exists j :: 0 <= j < |log| && SpentReclaimAt(log, id, most, j)
  }

  lemma OverranAppend(log: seq<Event>, e: Event, id: Name, most: int)
    ensures Overran(log + [e], id, most) <==>
            Overran(log, id, most) || (e.Leased? && e.id == id && e.reclaim && LedgerOf(log, id).leases >= most)
  {
    hide LedgerOf;
    var longer := log + [e];
    assert longer[..|log|] == log;
    forall j | 0 <= j < |log| ensures SpentReclaimAt(longer, id, most, j) <==> SpentReclaimAt(log, id, most, j) {
      assert longer[..j] == log[..j];
    }
    assert SpentReclaimAt(longer, id, most, |log|) <==>
           e.Leased? && e.id == id && e.reclaim && LedgerOf(log, id).leases >= most;
  }

  /** The log knows who went over the budget, and says nothing about tasks that do not exist. */
  ghost predicate OverrunLogged(h: History, id: Name) {
    if id in h.bus.records then
      var r := h.bus.records[id];
      r.task.attempt > r.task.maxAttempts <==> Overran(h.log, id, r.task.maxAttempts)
    else forall j :: 0 <= j < |h.log| ==> h.log[j].id != id
  }

  lemma StepOverrunLogged(h: History, op: Op, id: Name)
    requires WellFormed(h.bus) && !op.Claim? && Fresh(h.bus, op) && TaskInvariant(h, id) && OverrunLogged(h, id)
    ensures OverrunLogged(Step(h, op), id)
  {
    hide WellFormed, LedgerOf, Overran;
    var more := Emit(h.bus, op);
    if id in h.bus.records {
      if more != [] {
        assert more == [more[0]];
        OverranAppend(h.log, more[0], id, h.bus.records[id].task.maxAttempts);
      } else {
        assert h.log + more == h.log;
      }
    } else if id in Step(h, op).bus.records {
      assert h.log + more == h.log;
      NotOverrun(h.log, id, op.task.maxAttempts);
    }
  }

  lemma NotOverrun(log: seq<Event>, id: Name, most: int)
    requires forall j :: 0 <= j < |log| ==> log[j].id != id
    ensures !Overran(log, id, most)
  {
  }

  lemma {:induction false} RunOverrunLogged(h: History, ops: seq<Op>, id: Name)
    requires WellFormed(h.bus) && SingleSteps(ops) && AllFresh(h.bus, ops)
    requires TaskInvariant(h, id) && OverrunLogged(h, id)
    ensures OverrunLogged(Run(h, ops), id)
    decreases |ops|
  {
    hide WellFormed, LedgerOf, Accounted, OverrunLogged;
    if ops != [] {
      StepInvariant(h, ops[0], id);
      StepOverrunLogged(h, ops[0], id);
      RunOverrunLogged(Step(h, ops[0]), ops[1..], id);
    }
  }

  /**
   * A task goes over its budget exactly when, somewhere in the run, a lapsed lease of it was reclaimed
   * although it had been leased max_attempts times before.
   */
  lemma BudgetOverrunExactly(ops: seq<Op>, id: Name)
    requires AllFresh(EMPTY_BUS, ops) && id in ApplyAll(EMPTY_BUS, ops).records
    ensures
      var r := ApplyAll(EMPTY_BUS, ops).records[id];
      r.task.attempt > r.task.maxAttempts <==> Overran(Trace(EMPTY_BUS, ops).log, id, r.task.maxAttempts)
  {
    FlattenRun(History(EMPTY_BUS, []), ops);
    FlattenFresh(EMPTY_BUS, ops);
    RunOverrunLogged(History(EMPTY_BUS, []), Flatten(EMPTY_BUS, ops), id);
  }

  /** A lapsed lease of a task can be reclaimed over and over. */
  lemma {:induction false} ReclaimAgain(s: BusState, id: Name, w: Name, now: int, n: nat) returns (ops: seq<Op>)
    requires WellFormed(s) && id in s.records && s.records[id].task.expiresAt.None?
    requires LeaseLapsed(s.records[id], now)
    ensures AllFresh(s, ops) && id in ApplyAll(s, ops).records
    ensures ApplyAll(s, ops).records[id].task == s.records[id].task.(attempt := s.records[id].task.attempt + n)
    decreases n
  {
    ops := [];
    if n > 0 {
      hide WellFormed;
      var op := ClaimTask(id, w, 1, now);
      ops := ReclaimAgain(Apply(s, op), id, w, now + 1, n - 1);
      ops := [op] + ops;
      assert ops[1..] == ([op] + ops[1..])[1..];
    }
  }

  /** Reclaiming a lapsed lease does not look at the budget: some run takes any new task to any number of attempts. */
  lemma ReclaimsOverrun(task: Task, w: Name, n: nat) returns (ops: seq<Op>)
    requires task.attempt == 0 && task.maxAttempts >= 1 && task.expiresAt.None? && task.taskId.text != "" && n >= 1
    ensures AllFresh(EMPTY_BUS, ops) && task.taskId in ApplyAll(EMPTY_BUS, ops).records
    ensures ApplyAll(EMPTY_BUS, ops).records[task.taskId].task == task.(attempt := n)
  {
    var submit, first := Submit(task), ClaimTask(task.taskId, w, 1, 0);
    var s1 := Apply(EMPTY_BUS, submit);
    var s2 := Apply(s1, first);
    assert s2.records[task.taskId] == Lease(NewRecord(task), w, 1);
    var more := ReclaimAgain(s2, task.taskId, w, 1, n - 1);
    ops := [first] + more;
    assert ops[1..] == more && AllFresh(s1, ops);
    ops := [submit] + ops;
    assert ops[1..] == [first] + more;
  }
}

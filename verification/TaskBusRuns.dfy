/**
 * Runs of the in-memory bus: any sequence of operations by any workers at any times.
 * A batch claim is a sequence of single-task claims, so a run is first flattened into
 * single-task steps; the log says what each step did to its task.
 */
module TaskBusRuns {
  import opened Basics
  import opened Delegation
  import opened TaskBus

  datatype Op =
    | Submit(task: Task)
    | Claim(worker: Name, limit: int, leaseSeconds: int, now: int)
    | ClaimTask(id: Name, worker: Name, leaseSeconds: int, now: int)
    | Own(id: Name, worker: Name, action: Action)

  ghost function Apply(s: BusState, op: Op): (t: BusState)
    requires WellFormed(s)
    ensures WellFormed(t)
  {
    match op
    case Submit(task) => SubmitStep(s, task).0
    case Claim(worker, limit, leaseSeconds, now) => ClaimStep(s, worker, limit, leaseSeconds, now).0
    case ClaimTask(id, worker, leaseSeconds, now) => ClaimTaskStep(s, id, worker, leaseSeconds, now).0
    case Own(id, worker, action) => OwnedStep(s, id, worker, action).0
  }

  ghost function ApplyAll(s: BusState, ops: seq<Op>): (t: BusState)
    requires WellFormed(s)
    ensures WellFormed(t)
    decreases |ops|
  {
    if ops == [] then s else ApplyAll(Apply(s, ops[0]), ops[1..])
  }

  // ----- the log -----

  datatype Event =
    | Leased(id: Name, worker: Name, at: int, leaseSeconds: int, reclaim: bool)
    | Began(id: Name)
    | Settled(id: Name, result: Result)
    | GivenUp(id: Name, code: Name)
    | Lapsed(id: Name)

  datatype History = History(bus: BusState, log: seq<Event>)

  /** What a single-task step does to its task; a refused step leaves no entry. */
  function Emit(s: BusState, op: Op): seq<Event>
    requires !op.Claim?
  {
    match op
    case Submit(_) => []
    case ClaimTask(id, worker, leaseSeconds, now) =>
      if id !in s.records then []
      else if IsDue(s.records[id], now) then [Lapsed(id)]
      else if Eligible(s.records[id], now) then
        [Leased(id, worker, now, leaseSeconds, !s.records[id].status.Pending?)]
      else []
    case Own(id, worker, action) =>
      if id !in s.records || !OwnedBy(s.records[id], worker) then []
      else match action
        case Begin => [Began(id)]
        case Finish(result) => [Settled(id, result)]
        case GiveUp(code) => [GivenUp(id, code)]
  }

  ghost function Step(h: History, op: Op): (t: History)
    requires WellFormed(h.bus) && !op.Claim?
    ensures WellFormed(t.bus)
  {
    History(Apply(h.bus, op), h.log + Emit(h.bus, op))
  }

  ghost predicate SingleSteps(ops: seq<Op>) {
    forall op :: op in ops ==> !op.Claim?
  }

  ghost function Run(h: History, ops: seq<Op>): (t: History)
    requires WellFormed(h.bus) && SingleSteps(ops)
    ensures WellFormed(t.bus)
    decreases |ops|
  {
    if ops == [] then h else Run(Step(h, ops[0]), ops[1..])
  }

  // ----- flattening batch claims -----

  /** The single-task claims that a batch claim performs. */
  ghost function Visits(
      s: BusState, ids: seq<Name>, worker: Name, limit: nat, leaseSeconds: int, now: int)
    : (ops: seq<Op>)
    requires WellFormed(s)
    ensures forall op :: op in ops ==> op.ClaimTask? && op.worker == worker
    decreases |ids|
  {
    if ids == [] || limit == 0 then []
    else
      var (s1, got) := ClaimTaskStep(s, ids[0], worker, leaseSeconds, now);
      [ClaimTask(ids[0], worker, leaseSeconds, now)]
      + Visits(s1, ids[1..], worker, if got.None? then limit else limit - 1, leaseSeconds, now)
  }

  ghost function Expand(s: BusState, op: Op): (ops: seq<Op>)
    requires WellFormed(s)
    ensures SingleSteps(ops)
  {
    match op
    case Claim(worker, limit, leaseSeconds, now) => Visits(s, s.order, worker, Max(limit, 1), leaseSeconds, now)
    case _ => [op]
  }

  ghost function Flatten(s: BusState, ops: seq<Op>): (flat: seq<Op>)
    requires WellFormed(s)
    ensures SingleSteps(flat)
    decreases |ops|
  {
    if ops == [] then [] else Expand(s, ops[0]) + Flatten(Apply(s, ops[0]), ops[1..])
  }

  /** The history of a run that starts in `s` with an empty log. */
  ghost function Trace(s: BusState, ops: seq<Op>): (h: History)
    requires WellFormed(s)
    ensures WellFormed(h.bus)
  {
    Run(History(s, []), Flatten(s, ops))
  }

  lemma {:induction false} RunConcat(h: History, a: seq<Op>, b: seq<Op>)
    requires WellFormed(h.bus) && SingleSteps(a) && SingleSteps(b)
    ensures SingleSteps(a + b) && Run(h, a + b) == Run(Run(h, a), b)
    decreases |a|
  {
    hide WellFormed, Step;
    if a == [] {
      assert a + b == b;
    } else {
      RunConcat(Step(h, a[0]), a[1..], b);
      assert (a + b)[0] == a[0] && (a + b)[1..] == a[1..] + b;
    }
  }

  lemma {:induction false} VisitsRun(h: History, ids: seq<Name>, worker: Name, limit: nat, leaseSeconds: int, now: int)
    requires WellFormed(h.bus)
    ensures Run(h, Visits(h.bus, ids, worker, limit, leaseSeconds, now)).bus
         == ClaimScan(h.bus, ids, worker, limit, leaseSeconds, now).0
    decreases |ids|
  {
    hide WellFormed;
    if ids != [] && limit > 0 {
      var op := ClaimTask(ids[0], worker, leaseSeconds, now);
      var (s1, got) := ClaimTaskStep(h.bus, ids[0], worker, leaseSeconds, now);
      var rest := Visits(s1, ids[1..], worker, if got.None? then limit else limit - 1, leaseSeconds, now);
      assert ([op] + rest)[1..] == rest;
      VisitsRun(Step(h, op), ids[1..], worker, if got.None? then limit else limit - 1, leaseSeconds, now);
    }
  }

  /** Replacing every batch claim by the single claims it performs does not change what a run does. */
  lemma {:induction false} FlattenRun(h: History, ops: seq<Op>)
    requires WellFormed(h.bus)
    ensures Run(h, Flatten(h.bus, ops)).bus == ApplyAll(h.bus, ops)
    decreases |ops|
  {
    hide WellFormed;
    if ops != [] {
      var head := Expand(h.bus, ops[0]);
      RunConcat(h, head, Flatten(Apply(h.bus, ops[0]), ops[1..]));
      if ops[0].Claim? {
        VisitsRun(h, h.bus.order, ops[0].worker, Max(ops[0].limit, 1), ops[0].leaseSeconds, ops[0].now);
      } else {
        assert Run(h, [ops[0]]) == Step(h, ops[0]);
      }
      FlattenRun(Run(h, head), ops[1..]);
    }
  }
}

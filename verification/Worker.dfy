/** The worker that claims one task at a time, checks policy, executes and settles it. */
module Worker {
  import opened Basics
  import opened Delegation
  import opened Subagents
  import opened Policy
  import opened TaskBus
  import opened BatchClaim

  /** What one call of the executor does: it may raise at will. */
  datatype Outcome = Produced(output: Payload) | Threw(errorType: Name)

  datatype Published =
    | TaskClaimed(id: Name)
    | PolicyRejected(id: Name, reason: Name)
    | TaskFailed(id: Name, errorType: Name)
    | TaskDeadLettered(id: Name, errorType: Name)
    | TaskCompleted(id: Name)

  const LEASE_SECONDS := 60

  function RejectedResult(task: Task, reason: Reason, at: int): Result {
    Result(task.taskId, task.correlationId, Rejected, None, Some(ReasonCode(reason)), at)
  }

  function SucceededResult(task: Task, output: Payload, at: int): Result {
    Result(task.taskId, task.correlationId, Succeeded, Some(output), None, at)
  }

  /** The stored record after a leased record `r` has been processed. */
  function Processed(r: Record, subagents: seq<SubagentConfig>, outcome: Outcome, at: int): Record {
    match Evaluate(r.task, subagents)
    case Deny(reason) => Act(r, Finish(RejectedResult(r.task, reason, at)))
    case Allow =>
      match outcome
      case Threw(errorType) => Act(Act(r, Begin), GiveUp(errorType))
      case Produced(output) => Act(Act(r, Begin), Finish(SucceededResult(r.task, output, at)))
  }

  /** The outcome event says what the stored status says. */
  predicate Reports(e: Published, r: Record) {
    && e.id == r.task.taskId
    && match e
       case TaskClaimed(_) => false
       case PolicyRejected(_, reason) =>
         r.status.Rejected? && r.result.Some? && r.result.value.errorCode == Some(reason)
       case TaskFailed(_, errorType) => r.status.Pending? && r.failureCode == Some(errorType)
       case TaskDeadLettered(_, errorType) => r.status.DeadLetter? && r.failureCode == Some(errorType)
       case TaskCompleted(_) => r.status.Succeeded? && r.result.Some? && r.result.value.output.Some?
  }

  /** The claim a poll makes: the next available task, or one named task. */
  ghost function PollClaim(s: BusState, taskId: Option<Name>, worker: Name, now: int): (BusState, seq<Record>)
    requires WellFormed(s)
  {
    match taskId
    case None => ClaimStep(s, worker, 1, LEASE_SECONDS, now)
    case Some(id) =>
      var (t, got) := ClaimTaskStep(s, id, worker, LEASE_SECONDS, now);
      (t, if got.Some? then [got.value] else [])
  }

  ghost predicate Holds(s: BusState, r: Record, worker: Name) {
    r.task.taskId in s.records && s.records[r.task.taskId] == r && OwnedBy(r, worker) && r.status.Claimed?
  }

  /** A poll claims at most one task, which the worker then holds. */
  lemma PollClaimHolds(s: BusState, taskId: Option<Name>, worker: Name, now: int)
    requires WellFormed(s) && Ordered(s)
    ensures
      var (t, got) := PollClaim(s, taskId, worker, now);
      WellFormed(t) && |got| <= 1 && (got != [] ==> Holds(t, got[0], worker))
  {
    match taskId
    case None =>
      ScanHolds(s, s.order, worker, now);
    case Some(id) =>
  }

  lemma {:induction false} ScanHolds(s: BusState, ids: seq<Name>, worker: Name, now: int)
    requires WellFormed(s)
    ensures
      var (t, got) := ClaimScan(s, ids, worker, 1, LEASE_SECONDS, now);
      got != [] ==> Holds(t, got[0], worker)
    decreases |ids|
  {
    if ids != [] {
      var (s1, got) := ClaimTaskStep(s, ids[0], worker, LEASE_SECONDS, now);
      if got.None? {
        ScanHolds(s1, ids[1..], worker, now);
      }
    }
  }

  // ----- the budget that polls spend -----

  /** Nothing is leased, and every pending task has budget left. */
  ghost predicate Quiescent(s: BusState) {
    forall id :: id in s.records ==>
      !IsLeased(s.records[id].status)
      && (s.records[id].status.Pending? ==> s.records[id].task.attempt < s.records[id].task.maxAttempts)
  }

  ghost predicate AllTerminal(s: BusState) {
    forall id :: id in s.records ==> IsTerminal(s.records[id].status)
  }

  /** The attempts a pending task still has. */
  function Left(r: Record): nat {
    if r.status.Pending? then Max(r.task.maxAttempts - r.task.attempt, 0) else 0
  }

  function LeftAt(s: BusState, id: Name): nat {
    if id in s.records then Left(s.records[id]) else 0
  }

  function Budget(s: BusState, ids: seq<Name>): nat {
    if ids == [] then 0 else LeftAt(s, ids[0]) + Budget(s, ids[1..])
  }

  lemma {:induction false} BudgetShrinks(s: BusState, t: BusState, ids: seq<Name>, spent: Option<Name>)
    requires forall id :: id in ids ==> LeftAt(t, id) <= LeftAt(s, id)
    requires spent.Some? ==> spent.value in ids && LeftAt(t, spent.value) < LeftAt(s, spent.value)
    ensures Budget(t, ids) + (if spent.Some? then 1 else 0) <= Budget(s, ids)
  {
    if ids != [] {
      assert ids[0] in ids;
      var here := spent.Some? && spent.value == ids[0];
      BudgetShrinks(s, t, ids[1..], if here then None else spent);
    }
  }

  lemma {:induction false} TerminalHasNoBudget(s: BusState, ids: seq<Name>)
    requires AllTerminal(s)
    ensures Budget(s, ids) == 0
  {
    if ids != [] {
      TerminalHasNoBudget(s, ids[1..]);
    }
  }

  /** How a poll that claims from the whole queue may change a record. */
  ghost predicate Polled(r: Record, t: Record, got: seq<Record>) {
    || t == r
    || (r.task.expiresAt.Some? && t == Expire(r))
    || (got != [] && t == got[0] && r.status.Pending? && t.task == r.task.(attempt := r.task.attempt + 1))
  }

  lemma {:induction false} ScanPolls(s: BusState, ids: seq<Name>, worker: Name, now: int, id: Name)
    requires WellFormed(s) && Quiescent(s) && id in s.records
    ensures
      var (t, got) := ClaimScan(s, ids, worker, 1, LEASE_SECONDS, now);
      && id in t.records && Polled(s.records[id], t.records[id], got)
      && (got == [] && id in ids ==> IsTerminal(t.records[id].status))
      && (got != [] && got[0].task.taskId == id ==> s.records[id].status.Pending? && t.records[id] == got[0])
    decreases |ids|
  {
    hide WellFormed;
    if ids != [] {
      var (s1, got) := ClaimTaskStep(s, ids[0], worker, LEASE_SECONDS, now);
      if got.None? {
        ScanPolls(s1, ids[1..], worker, now, id);
      } else {
        assert ClaimScan(s, ids, worker, 1, LEASE_SECONDS, now) == (s1, [got.value] + []);
        StoredUnderItsId(s, ids[0]);
      }
    }
  }

  lemma StoredUnderItsId(s: BusState, id: Name)
    requires WellFormed(s) && id in s.records
    ensures s.records[id].task.taskId == id
  {
  }

  /** The bus after one poll of the whole queue, given what the executor would do. */
  ghost function AfterPoll(
      s: BusState, worker: Name, subagents: seq<SubagentConfig>, executor: (Task, nat) -> Outcome, calls: nat, now: int,
      at: int)
    : BusState
    requires WellFormed(s)
  {
    var (t, got) := PollClaim(s, None, worker, now);
    if got == [] then t
    else Put(t, got[0].task.taskId, Processed(got[0], subagents, executor(got[0].task, calls), at))
  }

  /** A stored result is about its task, and was stored at `at`. */
  predicate About(result: Result, task: Task, at: int) {
    result.taskId == task.taskId && result.correlationId == task.correlationId && result.completedAt == at
  }

  /**
   * What is stored for a task that was just leased: a forbidden one is rejected with the first test that
   * fails and without output; a permitted one is completed with exactly what the executor produced, or keeps
   * the executor's error and is pending again or dead-lettered by its budget. The lease is gone in any case.
   */
  lemma ProcessedOutcome(r: Record, subagents: seq<SubagentConfig>, outcome: Outcome, at: int)
    requires r.result.None?
    ensures
      var p := Processed(r, subagents, outcome, at);
      && p.task == r.task && p.leaseOwner.None? && p.leaseExpiresAt.None?
      && (p.result.Some? ==> About(p.result.value, r.task, at))
      && (p.status.Rejected? <==> !Permitted(r.task, subagents))
      && (p.status.Succeeded? <==> Permitted(r.task, subagents) && outcome.Produced?)
      && (p.status.Pending? <==>
            Permitted(r.task, subagents) && outcome.Threw? && r.task.attempt < r.task.maxAttempts)
      && (p.status.DeadLetter? <==>
            Permitted(r.task, subagents) && outcome.Threw? && r.task.attempt >= r.task.maxAttempts)
    ensures
      var p := Processed(r, subagents, outcome, at);
      if p.status.Rejected? then
        && p.result.Some? && p.result.value.output.None? && p.failureCode == r.failureCode
        && forall reason :: p.result.value.errorCode == Some(ReasonCode(reason)) <==>
             Fails(r.task, subagents, reason)
             && forall earlier :: Rank(earlier) < Rank(reason) ==> !Fails(r.task, subagents, earlier)
      else if p.status.Succeeded? then
        && p.result.Some? && p.result.value.output == Some(outcome.output) && p.result.value.errorCode.None?
        && p.failureCode == r.failureCode
      else p.result.None? && p.failureCode == Some(outcome.errorType)
  {
    PolicyDecides(r.task, subagents);
    hide Permitted, Fails, Evaluate, ReasonCode;
    if !Permitted(r.task, subagents) {
      forall reason
        ensures Processed(r, subagents, outcome, at).result.value.errorCode == Some(ReasonCode(reason)) <==>
                Evaluate(r.task, subagents) == Deny(reason)
      {
        if ReasonCode(reason) == ReasonCode(Evaluate(r.task, subagents).reason) {
          CodesDiffer(reason, Evaluate(r.task, subagents).reason);
        }
      }
    }
  }

  lemma ProcessedSettles(r: Record, subagents: seq<SubagentConfig>, outcome: Outcome, at: int)
    ensures
      var p := Processed(r, subagents, outcome, at);
      && p.task == r.task
      && (IsTerminal(p.status) || (p.status.Pending? && p.task.attempt < p.task.maxAttempts))
      && (p.result != r.result ==> IsTerminal(p.status))
  {
  }

  /**
   * One poll of a quiescent bus leaves it quiescent. A productive poll uses up at least one unit of
   * the remaining budget, and an idle one finds every task in a terminal status.
   */
  lemma PollSpendsBudget(
      s: BusState, worker: Name, subagents: seq<SubagentConfig>, executor: (Task, nat) -> Outcome, calls: nat, now: int,
      at: int)
    requires WellFormed(s) && Ordered(s) && Quiescent(s)
    ensures
      var n := |PollClaim(s, None, worker, now).1|;
      var t := AfterPoll(s, worker, subagents, executor, calls, now, at);
      && t.order == s.order && Quiescent(t)
      && Budget(t, t.order) + n <= Budget(s, s.order)
      && (n == 0 ==> AllTerminal(t))
  {
    hide WellFormed, Processed, Polled;
    PollClaimHolds(s, None, worker, now);
    var (c, got) := PollClaim(s, None, worker, now);
    var t := AfterPoll(s, worker, subagents, executor, calls, now, at);
    if got != [] {
      ProcessedSettles(got[0], subagents, executor(got[0].task, calls), at);
    }
    forall id | id in s.records
      ensures
        && id in t.records && !IsLeased(t.records[id].status)
        && (t.records[id].status.Pending? ==> t.records[id].task.attempt < t.records[id].task.maxAttempts)
        && LeftAt(t, id) <= LeftAt(s, id)
        && (got != [] && id == got[0].task.taskId ==> LeftAt(t, id) < LeftAt(s, id))
        && (got == [] ==> IsTerminal(t.records[id].status))
    {
      PollOne(s, worker, subagents, executor, calls, now, at, id);
    }
    assert t.records.Keys == s.records.Keys;
    assert forall id :: id in t.records <==> id in s.records.Keys;
    assert forall id :: id in s.order ==> LeftAt(t, id) <= LeftAt(s, id);
    BudgetShrinks(s, t, s.order, if got == [] then None else Some(got[0].task.taskId));
  }

  lemma PollOne(
      s: BusState, worker: Name, subagents: seq<SubagentConfig>, executor: (Task, nat) -> Outcome, calls: nat, now: int,
      at: int, id: Name)
    requires WellFormed(s) && Ordered(s) && Quiescent(s) && id in s.records
    ensures
      var got := PollClaim(s, None, worker, now).1;
      var t := AfterPoll(s, worker, subagents, executor, calls, now, at);
      && id in t.records && !IsLeased(t.records[id].status)
      && (t.records[id].status.Pending? ==> t.records[id].task.attempt < t.records[id].task.maxAttempts)
      && LeftAt(t, id) <= LeftAt(s, id)
      && (got != [] && id == got[0].task.taskId ==> LeftAt(t, id) < LeftAt(s, id))
      && (got == [] ==> IsTerminal(t.records[id].status))
  {
    hide WellFormed, Processed;
    ScanPolls(s, s.order, worker, now, id);
    PollClaimHolds(s, None, worker, now);
    var (c, got) := PollClaim(s, None, worker, now);
    StoredUnderItsId(s, id);
    StoredUnderItsId(c, id);
    if got != [] {
      ProcessedSettles(got[0], subagents, executor(got[0].task, calls), at);
    }
  }

  // ----- the trace of many polls -----

  /**
   * The events come in pairs of a claimed event and an outcome event of the same task, and the last outcome
   * of a task agrees with its stored record, unless the task has expired since.
   */
  ghost predicate Told(events: seq<Published>, records: map<Name, Record>) {
    events == [] ||
    (&& |events| >= 2 && !events[1].TaskClaimed? && events[0] == TaskClaimed(events[1].id)
     && ((forall e :: e in events[2..] ==> e.id != events[1].id) ==> Stands(events[1], records))
     && Told(events[2..], records))
  }

  predicate Stands(e: Published, records: map<Name, Record>) {
    e.id in records && (Reports(e, records[e.id]) || records[e.id].status.Expired?)
  }

  /** Apart from the task `spent`, records at most turn into expired ones. */
  ghost predicate OnlyExpires(records: map<Name, Record>, later: map<Name, Record>, spent: Option<Name>) {
    forall id :: id in records && spent != Some(id) ==>
      id in later && (later[id] == records[id] || later[id].status.Expired?)
  }

  lemma {:induction false} ToldLater(events: seq<Published>, records: map<Name, Record>, later: map<Name, Record>)
    requires Told(events, records) && OnlyExpires(records, later, None)
    ensures Told(events, later)
  {
    if events != [] {
      ToldLater(events[2..], records, later);
    }
  }

  lemma {:induction false} ToldAppend(
      events: seq<Published>, records: map<Name, Record>, later: map<Name, Record>, outcome: Published)
    requires Told(events, records) && OnlyExpires(records, later, Some(outcome.id))
    requires !outcome.TaskClaimed? && Stands(outcome, later)
    ensures Told(events + [TaskClaimed(outcome.id), outcome], later)
  {
    hide Reports;
    var pair := [TaskClaimed(outcome.id), outcome];
    if events == [] {
      assert events + pair == pair && pair[2..] == [];
    } else {
      assert (events + pair)[2..] == events[2..] + pair;
      assert outcome in events[2..] + pair;
      assert forall e :: e in events[2..] ==> e in events[2..] + pair;
      ToldAppend(events[2..], records, later, outcome);
    }
  }

  /** A poll of a quiescent bus changes the task it processes; every other task at most expires. */
  lemma PollChanges(
      s: BusState, worker: Name, subagents: seq<SubagentConfig>, executor: (Task, nat) -> Outcome, calls: nat, now: int,
      at: int)
    requires WellFormed(s) && Ordered(s) && Quiescent(s)
    ensures
      var got := PollClaim(s, None, worker, now).1;
      var t := AfterPoll(s, worker, subagents, executor, calls, now, at);
      OnlyExpires(s.records, t.records, if got == [] then None else Some(got[0].task.taskId))
  {
    hide WellFormed, Quiescent, Processed, ClaimScan;
    var (c, got) := PollClaim(s, None, worker, now);
    forall id | id in s.records && (got == [] || got[0].task.taskId != id)
      ensures id in c.records && (c.records[id] == s.records[id] || c.records[id].status.Expired?)
    {
      ScanPolls(s, s.order, worker, now, id);
      StoredUnderItsId(s, id);
    }
  }

  /** The owner's action is accepted, and a later write to the same record replaces an earlier one. */
  lemma OwnedAccepts(s: BusState, r: Record, worker: Name, a: Action)
    requires r.task.taskId in s.records && s.records[r.task.taskId] == r && OwnedBy(r, worker)
    ensures OwnedStep(s, r.task.taskId, worker, a) == (Put(s, r.task.taskId, Act(r, a)), Accepted(Act(r, a)))
    ensures Act(r, a).task == r.task && (a.Begin? ==> OwnedBy(Act(r, a), worker))
  {
  }

  /** The outcome event that goes with the settled record. */
  lemma ProcessedReports(r: Record, subagents: seq<SubagentConfig>, outcome: Outcome, at: int)
    ensures
      var p, id := Processed(r, subagents, outcome, at), r.task.taskId;
      match Evaluate(r.task, subagents)
      case Deny(reason) => Reports(PolicyRejected(id, ReasonCode(reason)), p)
      case Allow =>
        match outcome
        case Threw(errorType) =>
          Reports(if p.status.DeadLetter? then TaskDeadLettered(id, errorType) else TaskFailed(id, errorType), p)
        case Produced(_) => Reports(TaskCompleted(id), p)
  {
  }

  lemma NothingTold(records: map<Name, Record>)
    ensures Told([], records)
  {
  }

  lemma ReportsTask(records: map<Name, Record>, id: Name, e: Published)
    requires id in records && records[id].task.taskId == id && Reports(e, records[id])
    ensures e.id == id && !e.TaskClaimed? && Stands(e, records)
  {
  }

  /** A poll adds nothing to the trace, or one pair about the task it processed. */
  lemma ToldPoll(
      s: BusState, worker: Name, subagents: seq<SubagentConfig>, executor: (Task, nat) -> Outcome, calls: nat, now: int,
      at: int, told: seq<Published>, more: seq<Published>)
    requires WellFormed(s) && Ordered(s) && Quiescent(s) && Told(told, s.records)
    requires
      var got := PollClaim(s, None, worker, now).1;
      var t := AfterPoll(s, worker, subagents, executor, calls, now, at);
      if got == [] then more == []
      else
        var id := got[0].task.taskId;
        |more| == 2 && more[0] == TaskClaimed(id) && id in t.records && Reports(more[1], t.records[id])
    ensures Told(told + more, AfterPoll(s, worker, subagents, executor, calls, now, at).records)
  {
    hide WellFormed, Ordered, Quiescent, Told, OnlyExpires, Reports, Stands, PollClaim, Processed;
    var got := PollClaim(s, None, worker, now).1;
    var t := AfterPoll(s, worker, subagents, executor, calls, now, at);
    PollChanges(s, worker, subagents, executor, calls, now, at);
    if got == [] {
      ToldLater(told, s.records, t.records);
      assert told + more == told;
    } else {
      ProcessedSettles(got[0], subagents, executor(got[0].task, calls), at);
      ReportsTask(t.records, got[0].task.taskId, more[1]);
      ToldAppend(told, s.records, t.records, more[1]);
      assert more == [TaskClaimed(more[1].id), more[1]];
    }
  }

  class AgentTaskWorker {
    const workerId: Name
    const bus: InMemoryAgentTaskBus
    const subagents: seq<SubagentConfig>
    /** The outcome of the n-th call of the executor. */
    const executor: (Task, nat) -> Outcome
    var published: seq<Published>
    var executed: seq<Task>

    constructor (
        workerId: Name, bus: InMemoryAgentTaskBus, subagents: seq<SubagentConfig>, executor: (Task, nat) -> Outcome)
      ensures this.workerId == workerId && this.bus == bus && this.subagents == subagents && this.executor == executor
      ensures published == [] && executed == []
    {
      this.workerId, this.bus, this.subagents, this.executor := workerId, bus, subagents, executor;
      published, executed := [], [];
    }

    /** The loop body of a poll: publish, check policy, execute and settle one held task. */
    method Process(record: Record, at: int)
      requires bus.Valid() && Holds(bus.State(), record, workerId)
      modifies this, bus`records
      ensures bus.Valid()
      ensures
        var outcome := executor(record.task, |old(executed)|);
        bus.State() == Put(old(bus.State()), record.task.taskId, Processed(record, subagents, outcome, at))
      ensures executed == old(executed) + if Permitted(record.task, subagents) then [record.task] else []
      ensures |published| == |old(published)| + 2 && published[..|old(published)|] == old(published)
      ensures published[|old(published)|] == TaskClaimed(record.task.taskId)
      ensures Reports(published[|old(published)| + 1], bus.records[record.task.taskId])
    {
      hide WellFormed, Ordered, OwnedStep, Act, Reports, OwnedBy, Permitted, Fails, Evaluate;
      ghost var s := bus.State();
      var task := record.task;
      PolicyDecides(task, subagents);
      published := published + [TaskClaimed(task.taskId)];
      var decision := Evaluate(task, subagents);
      ProcessedReports(record, subagents, executor(task, |executed|), at);
      if decision.Deny? {
        OwnedAccepts(s, record, workerId, Finish(RejectedResult(task, decision.reason, at)));
        var _ := bus.Complete(RejectedResult(task, decision.reason, at), workerId);
        published := published + [PolicyRejected(task.taskId, ReasonCode(decision.reason))];
        return;
      }
      OwnedAccepts(s, record, workerId, Begin);
      var _ := bus.MarkRunning(task.taskId, workerId);
      ghost var running := Act(record, Begin);
      var outcome := executor(task, |executed|);
      executed := executed + [task];
      match outcome {
        case Threw(errorType) =>
          OwnedAccepts(bus.State(), running, workerId, GiveUp(errorType));
          var reply := bus.Fail(task.taskId, workerId, errorType);
          if reply.Accepted? && reply.record.status.DeadLetter? {
            published := published + [TaskDeadLettered(task.taskId, errorType)];
          } else {
            published := published + [TaskFailed(task.taskId, errorType)];
          }
        case Produced(output) =>
          OwnedAccepts(bus.State(), running, workerId, Finish(SucceededResult(task, output, at)));
          var _ := bus.Complete(SucceededResult(task, output, at), workerId);
          published := published + [TaskCompleted(task.taskId)];
      }
    }

    /**
     * One poll. Either nothing was claimed and only due tasks may have expired, or exactly one task was
     * claimed, processed and settled; its trace is one claimed event followed by one outcome event that
     * agrees with the stored status, and the executor saw it only if policy allows it.
     */
    method RunOnce(taskId: Option<Name>, now: int, at: int) returns (n: nat)
      requires bus.Valid()
      modifies this, bus`records
      ensures bus.Valid()
      ensures n == |PollClaim(old(bus.State()), taskId, workerId, now).1| <= 1
      ensures n == 0 ==>
                && bus.State() == PollClaim(old(bus.State()), taskId, workerId, now).0
                && published == old(published) && executed == old(executed)
      ensures n == 1 ==>
                var (claimedBus, claimed) := PollClaim(old(bus.State()), taskId, workerId, now);
                var record := claimed[0];
                var id := record.task.taskId;
                var outcome := executor(record.task, |old(executed)|);
                && bus.State() == Put(claimedBus, id, Processed(record, subagents, outcome, at))
                && executed == old(executed) + (if Permitted(record.task, subagents) then [record.task] else [])
                && |published| == |old(published)| + 2 && published[..|old(published)|] == old(published)
                && published[|old(published)|] == TaskClaimed(id)
                && id in bus.records && Reports(published[|old(published)| + 1], bus.records[id])
    {
      hide WellFormed, Ordered, Permitted;
      PollClaimHolds(bus.State(), taskId, workerId, now);
      var claimed: seq<Record>;
      match taskId {
        case None =>
          claimed := bus.Claim(workerId, 1, LEASE_SECONDS, now);
        case Some(id) =>
          var record := bus.ClaimTask(id, workerId, LEASE_SECONDS, now);
          claimed := if record.Some? then [record.value] else [];
      }
      for i := 0 to |claimed|
        invariant bus.Valid()
        invariant i == 0 ==>
          && (bus.State(), claimed) == PollClaim(old(bus.State()), taskId, workerId, now)
          && published == old(published) && executed == old(executed)
        invariant i == 1 ==>
          var claimedBus := PollClaim(old(bus.State()), taskId, workerId, now).0;
          var record := claimed[0];
          var id := record.task.taskId;
          && claimed == PollClaim(old(bus.State()), taskId, workerId, now).1
          && bus.State() ==
             Put(claimedBus, id, Processed(record, subagents, executor(record.task, |old(executed)|), at))
          && executed == old(executed) + (if Permitted(record.task, subagents) then [record.task] else [])
          && |published| == |old(published)| + 2 && published[..|old(published)|] == old(published)
          && published[|old(published)|] == TaskClaimed(id)
          && id in bus.records && Reports(published[|old(published)| + 1], bus.records[id])
      {
        Process(claimed[i], at);
      }
      n := |claimed|;
    }

    /**
     * The polling loop, stopped after `polls` rounds. From a quiescent bus, with an executor that may
     * raise at will and whatever the clock says, it makes no more productive polls than the pending
     * tasks have attempts left; any further poll finds every task settled; and the executor only ever
     * sees tasks that policy allows.
     */
    method RunForever(polls: nat, clock: nat -> int) returns (productive: nat, idle: nat)
      requires bus.Valid() && Quiescent(bus.State())
      requires forall task :: task in executed ==> Permitted(task, subagents)
      modifies this, bus`records
      ensures bus.Valid() && productive + idle == polls
      ensures productive <= Budget(old(bus.State()), old(bus.order))
      ensures idle > 0 ==> AllTerminal(bus.State())
      ensures |published| == |old(published)| + 2 * productive && published[..|old(published)|] == old(published)
      ensures Told(published[|old(published)|..], bus.records)
      ensures forall task :: task in executed ==> Permitted(task, subagents)
    {
      hide WellFormed, Ordered, Quiescent, AllTerminal, Budget, Told, OnlyExpires, Reports, Permitted;
      productive, idle := 0, 0;
      ghost var first := |published|;
      NothingTold(bus.records);
      assert published[first..] == [];
      while productive + idle < polls
        invariant bus.Valid() && productive + idle <= polls && bus.order == old(bus.order)
        invariant Quiescent(bus.State())
        invariant Budget(bus.State(), bus.order) + productive <= Budget(old(bus.State()), old(bus.order))
        invariant idle > 0 ==> AllTerminal(bus.State())
        invariant |published| == first + 2 * productive && published[..first] == old(published)
        invariant Told(published[first..], bus.records)
        invariant forall task :: task in executed ==> Permitted(task, subagents)
        decreases polls - productive - idle
      {
        ghost var before := bus.State();
        var now := clock(productive + idle);
        ghost var calls := |executed|;
        PollSpendsBudget(before, workerId, subagents, executor, calls, now, now);
        if AllTerminal(before) {
          TerminalHasNoBudget(before, before.order);
        }
        ghost var told := published;
        var n := RunOnce(None, now, now);
        ghost var more := published[|told|..];
        ToldPoll(before, workerId, subagents, executor, calls, now, now, told[first..], more);
        assert published == told + more && published[first..] == told[first..] + more;
        if n == 0 {
          idle := idle + 1;
        } else {
          productive := productive + n;
        }
      }
    }
  }
}

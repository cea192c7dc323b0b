/** The synchronous handoff: submit a keyed task, run a one-task worker on it, report its state. */
module Handoff {
  import opened Basics
  import opened Delegation
  import opened Subagents
  import opened Policy
  import opened TaskBus
  import opened TaskBusRuns
  import opened RetryBudget
  import opened LeaseSafety
  import opened Worker
  import opened KeyParts

  datatype Args = Args(correlationId: string, targetAgent: string, intent: string, sqlQuery: string)

  // ----- the shared idempotency key -----

  function KeyText(a: Args): string {
    a.correlationId + ":" + (a.targetAgent + ":" + (a.intent + ":" + a.sqlQuery))
  }

  predicate SameColons(a: Args, b: Args) {
    && Colons(a.correlationId) == Colons(b.correlationId)
    && Colons(a.targetAgent) == Colons(b.targetAgent)
    && Colons(a.intent) == Colons(b.intent)
  }

  /** The key identifies all four parts exactly up to colons in the first three. */
  lemma KeyInjective(a: Args, b: Args)
    ensures KeyText(a) == KeyText(b) && SameColons(a, b) <==> a == b
  {
    if KeyText(a) == KeyText(b) && SameColons(a, b) {
      var ta := a.targetAgent + ":" + (a.intent + ":" + a.sqlQuery);
      var tb := b.targetAgent + ":" + (b.intent + ":" + b.sqlQuery);
      assert a.correlationId + ":" + ta == KeyText(a) && b.correlationId + ":" + tb == KeyText(b);
      CutIsUnique(a.correlationId, ta, b.correlationId, tb);
      assert a.targetAgent + ":" + (a.intent + ":" + a.sqlQuery) == ta;
      CutIsUnique(a.targetAgent, a.intent + ":" + a.sqlQuery, b.targetAgent, b.intent + ":" + b.sqlQuery);
      CutIsUnique(a.intent, a.sqlQuery, b.intent, b.sqlQuery);
    }
  }

  /** With a colon in an early part, two different requests can share one key. */
  lemma KeyCollision()
    ensures KeyText(Args("a:b", "c", "d", "e")) == KeyText(Args("a", "b", "c", "d:e"))
  {
    var x, y := KeyText(Args("a:b", "c", "d", "e")), KeyText(Args("a", "b", "c", "d:e"));
    assert x == ['a', ':', 'b', ':', 'c', ':', 'd', ':', 'e'];
    assert y == ['a', ':', 'b', ':', 'c', ':', 'd', ':', 'e'];
  }

  /** No other call has this key. */
  ghost predicate KeyIsUnique(a: Args) {
    forall b: Args :: KeyText(b) == KeyText(a) ==> b == a
  }

  predicate NoColons(a: Args) {
    Colons(a.correlationId) == 0 && Colons(a.targetAgent) == 0 && Colons(a.intent) == 0 && Colons(a.sqlQuery) == 0
  }

  /** The colons of the key are those of the parts and the three between them. */
  lemma KeyColons(a: Args)
    ensures Colons(KeyText(a)) ==
            Colons(a.correlationId) + Colons(a.targetAgent) + Colons(a.intent) + Colons(a.sqlQuery) + 3
  {
    hide Colons;
    var two := a.intent + ":" + a.sqlQuery;
    var three := a.targetAgent + ":" + two;
    ColonsOfPair(a.intent, a.sqlQuery);
    ColonsOfPair(a.targetAgent, two);
    ColonsOfPair(a.correlationId, three);
    assert KeyText(a) == a.correlationId + ":" + three;
  }

  /** A part with a colon lets the cuts fall elsewhere. */
  lemma OtherArgs(a: Args) returns (b: Args)
    requires !NoColons(a)
    ensures KeyText(b) == KeyText(a) && b != a
  {
    hide Colons;
    var key := KeyText(a);
    var c, t, i, q := a.correlationId, a.targetAgent, a.intent, a.sqlQuery;
    if Colons(c) != 0 {
      var x, y := CutAtColon(c);
      b := Args(x, y, t, i + ":" + q);
      assert (x + ":" + y) + ":" + (t + ":" + (i + ":" + q)) == x + ":" + (y + ":" + (t + ":" + (i + ":" + q)));
    } else if Colons(t) != 0 {
      var x, y := CutAtColon(t);
      b := Args(c, x, y, i + ":" + q);
      assert (x + ":" + y) + ":" + (i + ":" + q) == x + ":" + (y + ":" + (i + ":" + q));
    } else if Colons(i) != 0 {
      var x, y := CutAtColon(i);
      b := Args(c, t, x, y + ":" + q);
      assert (x + ":" + y) + ":" + q == x + ":" + (y + ":" + q);
    } else {
      var x, y := CutAtColon(q);
      b := Args(c, t, i + ":" + x, y);
      assert (i + ":" + x) + ":" + y == i + ":" + (x + ":" + y);
    }
  }

  /** No other call has the key of this one exactly when none of its four parts contains a colon. */
  lemma KeyUniqueExactly(a: Args)
    ensures KeyIsUnique(a) <==> NoColons(a)
    ensures NoColons(a) <==> Colons(KeyText(a)) == 3
  {
    hide KeyText, Colons;
    KeyColons(a);
    if NoColons(a) {
      forall b | KeyText(b) == KeyText(a) ensures b == a {
        KeyColons(b);
        KeyInjective(b, a);
      }
    } else {
      var b := OtherArgs(a);
    }
  }

  // ----- one call -----

  datatype Answer = Field(value: Value) | Whole(output: Payload)

  datatype Reply = NotFound | Answered(answer: Answer) | Refused(status: Status, code: Option<Name>) | InvalidTask

  const RESULT := Name("result")

  function AnswerOf(output: Payload): Answer {
    if RESULT in output then Field(output[RESULT]) else Whole(output)
  }

  /** An empty failure code falls through to the result, as a falsy string does. */
  function ReplyOf(r: Record): Reply {
    if r.result.Some? && r.result.value.output.Some? then Answered(AnswerOf(r.result.value.output.value))
    else if r.failureCode.Some? && r.failureCode.value.text != "" then Refused(r.status, r.failureCode)
    else if r.result.Some? then Refused(r.status, r.result.value.errorCode)
    else Refused(r.status, Some(Name("unknown")))
  }

  function KeyOf(a: Args): Name {
    Name(KeyText(a))
  }

  function WorkerOf(a: Args): Name {
    Name("handoff:" + a.correlationId)
  }

  function TaskOf(a: Args, freshId: Name, now: int): Task {
    Task(Name("orchestrator"), Name(a.targetAgent), Name(a.intent), map[Name("sql_query") := Text(a.sqlQuery)],
         Name(a.correlationId), KeyOf(a), [], Name("internal"), App, freshId, 0, DEFAULT_MAX_ATTEMPTS, None, now)
  }

  /** What changes between repeated calls: the id drawn for a new task, the executor's mood, the time. */
  datatype Try = Try(freshId: Name, executor: (Task, nat) -> Outcome, now: int)

  ghost predicate FreshTry(s: BusState, a: Args, t: Try) {
    !KnownKey(s, KeyOf(a)) ==> t.freshId !in s.records && t.freshId.text != ""
  }

  datatype Handed = Handed(bus: BusState, reply: Reply, executions: nat)

  ghost function HandoffStep(s: BusState, a: Args, subagents: seq<SubagentConfig>, t: Try): Handed
    requires WellFormed(s)
  {
    if !Constructible(TaskOf(a, t.freshId, t.now)) then Handed(s, InvalidTask, 0)
    else
      var (s1, record) := SubmitStep(s, TaskOf(a, t.freshId, t.now));
      var id := record.task.taskId;
      var (s2, got) := PollClaim(s1, Some(id), WorkerOf(a), t.now);
      var done :=
        if got == [] then s2
        else Put(s2, got[0].task.taskId, Processed(got[0], subagents, t.executor(got[0].task, 0), t.now));
      Handed(done, if id in done.records then ReplyOf(done.records[id]) else NotFound,
             if got != [] && Permitted(got[0].task, subagents) then 1 else 0)
  }

  /** The claim that a call makes on the task it submitted or found. */
  ghost function ClaimedBy(s: BusState, a: Args, t: Try): seq<Record>
    requires WellFormed(s)
  {
    if !Constructible(TaskOf(a, t.freshId, t.now)) then []
    else
      var (s1, record) := SubmitStep(s, TaskOf(a, t.freshId, t.now));
      PollClaim(s1, Some(record.task.taskId), WorkerOf(a), t.now).1
  }

  /** The tasks that a call hands to the executor. */
  ghost function ExecutedBy(s: BusState, a: Args, subagents: seq<SubagentConfig>, t: Try): seq<Task>
    requires WellFormed(s)
  {
    var got := ClaimedBy(s, a, t);
    if got != [] && Permitted(got[0].task, subagents) then [got[0].task] else []
  }

  method ExecuteDelegation(bus: InMemoryAgentTaskBus, subagents: seq<SubagentConfig>, a: Args, t: Try)
    returns (reply: Reply, executed: seq<Task>, published: seq<Published>)
    requires bus.Valid()
    modifies bus
    ensures bus.Valid()
    ensures HandoffStep(old(bus.State()), a, subagents, t) == Handed(bus.State(), reply, |executed|)
    ensures executed == ExecutedBy(old(bus.State()), a, subagents, t)
    ensures
      var claimed := ClaimedBy(old(bus.State()), a, t);
      if claimed == [] then published == []
      else
        var id := claimed[0].task.taskId;
        && |published| == 2 && published[0] == TaskClaimed(id)
        && id in bus.records && Reports(published[1], bus.records[id])
  {
    hide WellFormed, Ordered, Processed, Permitted, Evaluate;
    var task := TaskOf(a, t.freshId, t.now);
    if !Constructible(task) {
      return InvalidTask, [], [];
    }
    var record := bus.Submit(task);
    var worker := new AgentTaskWorker(WorkerOf(a), bus, subagents, t.executor);
    ghost var submitted := bus.State();
    var n := worker.RunOnce(Some(record.task.taskId), t.now, t.now);
    executed, published := worker.executed, worker.published;
    var final := bus.Get(record.task.taskId);
    if final.None? {
      reply := NotFound;
    } else {
      reply := ReplyOf(final.value);
    }
  }

  // ----- repeated calls -----

  /** The task under a key is at rest: nobody leases it, it never expires, and a retry is within budget. */
  ghost predicate AtRest(s: BusState, key: Name) {
    KnownKey(s, key) ==>
      && s.index[key] in s.records
      && var r := s.records[s.index[key]];
         && !IsLeased(r.status) && r.task.expiresAt.None? && r.task.maxAttempts == DEFAULT_MAX_ATTEMPTS
         && (r.status.Pending? ==> 0 <= r.task.attempt < r.task.maxAttempts)
         && (r.result.Some? ==> IsTerminal(r.status))
  }

  /** How often the executor may still be called for this key. */
  ghost function Allowance(s: BusState, key: Name): nat
    requires AtRest(s, key)
  {
    if KnownKey(s, key) then Left(s.records[s.index[key]]) else DEFAULT_MAX_ATTEMPTS
  }

  ghost predicate Over(s: BusState, key: Name) {
    KnownKey(s, key) && s.index[key] in s.records && IsTerminal(s.records[s.index[key]].status)
  }

  /** Submitting leaves the key known and its task at rest; a new task brings the full allowance. */
  lemma SubmitAtRest(s: BusState, a: Args, t: Try)
    requires WellFormed(s) && AtRest(s, KeyOf(a)) && FreshTry(s, a, t)
    ensures
      var (s1, record) := SubmitStep(s, TaskOf(a, t.freshId, t.now));
      && WellFormed(s1) && KnownKey(s1, KeyOf(a)) && s1.index[KeyOf(a)] == record.task.taskId
      && record.task.taskId in s1.records && s1.records[record.task.taskId] == record
      && AtRest(s1, KeyOf(a)) && Allowance(s1, KeyOf(a)) == Allowance(s, KeyOf(a))
  {
    if KnownKey(s, KeyOf(a)) {
      StoredUnderItsId(s, s.index[KeyOf(a)]);
    }
  }

  /** A named claim of a task at rest: a settled task stays, a pending one is leased for one more attempt. */
  lemma ClaimAtRest(s: BusState, id: Name, worker: Name, now: int)
    requires WellFormed(s) && id in s.records && !IsLeased(s.records[id].status) && s.records[id].task.expiresAt.None?
    ensures
      var (c, got) := PollClaim(s, Some(id), worker, now);
      var r := s.records[id];
      if r.status.Pending? then
        && |got| == 1 && got[0] == Lease(r, worker, LeaseEnd(now, LEASE_SECONDS)) && got[0].task.taskId == id
        && c == Put(s, id, got[0])
      else (c, got) == (s, [])
  {
    StoredUnderItsId(s, id);
  }

  lemma StepAtRest(s: BusState, a: Args, subagents: seq<SubagentConfig>, t: Try)
    requires WellFormed(s) && AtRest(s, KeyOf(a)) && FreshTry(s, a, t)
    ensures
      var h := HandoffStep(s, a, subagents, t);
      && WellFormed(h.bus) && AtRest(h.bus, KeyOf(a))
      && Allowance(h.bus, KeyOf(a)) + h.executions <= Allowance(s, KeyOf(a))
      && (h.reply.Answered? ==> Over(h.bus, KeyOf(a)) && h.reply == ReplyOf(h.bus.records[h.bus.index[KeyOf(a)]]))
  {
    hide Processed, Evaluate, WellFormed, SubmitStep, PollClaim, KeyOf, TaskOf, Constructible;
    var task := TaskOf(a, t.freshId, t.now);
    if Constructible(task) {
      SubmitAtRest(s, a, t);
      var (s1, record) := SubmitStep(s, task);
      var id := record.task.taskId;
      ClaimAtRest(s1, id, WorkerOf(a), t.now);
      var (s2, got) := PollClaim(s1, Some(id), WorkerOf(a), t.now);
      if got != [] {
        var outcome := t.executor(got[0].task, 0);
        ProcessedSettles(got[0], subagents, outcome, t.now);
        PutWellFormed(s2, id, Processed(got[0], subagents, outcome, t.now));
      }
    }
  }

  lemma PutWellFormed(s: BusState, id: Name, r: Record)
    requires WellFormed(s) && id in s.records && r.task.taskId == id
    ensures WellFormed(Put(s, id, r))
  {
  }

  /** Once the task is settled, a repeated call changes nothing, executes nothing and gives the same reply. */
  lemma OverStays(s: BusState, a: Args, subagents: seq<SubagentConfig>, t: Try)
    requires WellFormed(s) && AtRest(s, KeyOf(a)) && Over(s, KeyOf(a)) && Constructible(TaskOf(a, t.freshId, t.now))
    ensures HandoffStep(s, a, subagents, t) == Handed(s, ReplyOf(s.records[s.index[KeyOf(a)]]), 0)
  {
    StoredUnderItsId(s, s.index[KeyOf(a)]);
  }

  ghost predicate AllFreshTries(s: BusState, a: Args, subagents: seq<SubagentConfig>, tries: seq<Try>)
    requires WellFormed(s)
    decreases |tries|
  {
    tries == [] ||
    (FreshTry(s, a, tries[0]) &&
     var next := HandoffStep(s, a, subagents, tries[0]).bus;
     WellFormed(next) && AllFreshTries(next, a, subagents, tries[1..]))
  }

  /** All replies of a series of calls, and how often the executor was called altogether. */
  ghost function Repeat(s: BusState, a: Args, subagents: seq<SubagentConfig>, tries: seq<Try>): (r: (seq<Reply>, nat))
    requires WellFormed(s) && AllFreshTries(s, a, subagents, tries)
    ensures |r.0| == |tries|
    decreases |tries|
  {
    if tries == [] then ([], 0)
    else
      var h := HandoffStep(s, a, subagents, tries[0]);
      var (replies, executions) := Repeat(h.bus, a, subagents, tries[1..]);
      ([h.reply] + replies, h.executions + executions)
  }

  lemma {:induction false} RepeatWithinAllowance(s: BusState, a: Args, subagents: seq<SubagentConfig>, tries: seq<Try>)
    requires WellFormed(s) && AtRest(s, KeyOf(a)) && AllFreshTries(s, a, subagents, tries)
    ensures Repeat(s, a, subagents, tries).1 <= Allowance(s, KeyOf(a)) <= 2
    decreases |tries|
  {
    hide WellFormed, HandoffStep;
    if tries != [] {
      StepAtRest(s, a, subagents, tries[0]);
      RepeatWithinAllowance(HandoffStep(s, a, subagents, tries[0]).bus, a, subagents, tries[1..]);
    }
  }

  lemma {:induction false} RepeatAfterOver(
      s: BusState, a: Args, subagents: seq<SubagentConfig>, tries: seq<Try>, k: nat)
    requires WellFormed(s) && AtRest(s, KeyOf(a)) && Over(s, KeyOf(a)) && AllFreshTries(s, a, subagents, tries)
    requires k < |tries| && Constructible(TaskOf(a, Name(""), 0))
    ensures Repeat(s, a, subagents, tries).0[k] == ReplyOf(s.records[s.index[KeyOf(a)]])
    ensures Repeat(s, a, subagents, tries).1 == 0
    decreases |tries|
  {
    hide WellFormed, HandoffStep;
    OverStays(s, a, subagents, tries[0]);
    if |tries| > 1 {
      RepeatAfterOver(s, a, subagents, tries[1..], if k == 0 then 0 else k - 1);
    } else {
      assert tries[1..] == [];
    }
  }

  /**
   * Repeating a call with the same arguments, any number of times and whatever the executor does, calls
   * the executor at most twice altogether, its max_attempts; and as soon as one call returns an answer,
   * every later call returns that same answer.
   */
  lemma {:induction false} RepeatedHandoff(
      s: BusState, a: Args, subagents: seq<SubagentConfig>, tries: seq<Try>, i: nat, j: nat)
    requires WellFormed(s) && AtRest(s, KeyOf(a)) && AllFreshTries(s, a, subagents, tries)
    requires i <= j < |tries|
    ensures Repeat(s, a, subagents, tries).1 <= 2
    ensures
      var replies := Repeat(s, a, subagents, tries).0;
      replies[i].Answered? ==>
        replies[j] == replies[i] && (i == 0 ==> Repeat(s, a, subagents, tries).1 <= 1)
    decreases |tries|
  {
    hide WellFormed, HandoffStep;
    RepeatWithinAllowance(s, a, subagents, tries);
    StepAtRest(s, a, subagents, tries[0]);
    var h := HandoffStep(s, a, subagents, tries[0]);
    if i > 0 {
      RepeatedHandoff(h.bus, a, subagents, tries[1..], i - 1, j - 1);
    } else if h.reply.Answered? {
      AnswerNeedsValidArgs(s, a, subagents, tries[0]);
      if |tries| > 1 {
        RepeatAfterOver(h.bus, a, subagents, tries[1..], if j == 0 then 0 else j - 1);
      } else {
        assert tries[1..] == [];
      }
    }
  }

  lemma AnswerNeedsValidArgs(s: BusState, a: Args, subagents: seq<SubagentConfig>, t: Try)
    requires WellFormed(s)
    ensures HandoffStep(s, a, subagents, t).reply.Answered? ==> Constructible(TaskOf(a, Name(""), 0))
    ensures HandoffStep(s, a, subagents, t).executions <= 1
  {
  }

  // ----- what a call answers -----

  /** A call is refused as invalid exactly when it names no target or intent, or the orchestrator itself. */
  predicate ValidArgs(a: Args) {
    a.targetAgent != "" && a.intent != "" && a.targetAgent != "orchestrator"
  }

  lemma InvalidExactly(s: BusState, a: Args, subagents: seq<SubagentConfig>, t: Try)
    requires WellFormed(s)
    ensures HandoffStep(s, a, subagents, t).reply.InvalidTask? <==> !ValidArgs(a)
    ensures !ValidArgs(a) ==> HandoffStep(s, a, subagents, t).bus == s && ClaimedBy(s, a, t) == []
  {
    hide WellFormed;
    assert Constructible(TaskOf(a, t.freshId, t.now)) <==> ValidArgs(a);
  }

  /**
   * What a call that claims a task answers: the executor's `result` itself, or its whole output when that has
   * no `result`; the executor's error; or the first policy test that fails.
   */
  lemma AnswerTells(s: BusState, a: Args, subagents: seq<SubagentConfig>, t: Try)
    requires WellFormed(s) && ClaimedBy(s, a, t) != []
    ensures
      var task := ClaimedBy(s, a, t)[0].task;
      var reply, outcome := HandoffStep(s, a, subagents, t).reply, t.executor(task, 0);
      if Permitted(task, subagents) then
        match outcome
        case Produced(output) =>
          reply == Answered(if Name("result") in output then Field(output[Name("result")]) else Whole(output))
        case Threw(errorType) =>
          reply == Refused(if task.attempt >= task.maxAttempts then DeadLetter else Pending,
                           Some(if errorType.text != "" then errorType else Name("unknown")))
      else
        exists reason ::
          && reply == Refused(Rejected, Some(ReasonCode(reason)))
          && Fails(task, subagents, reason)
          && forall earlier :: Rank(earlier) < Rank(reason) ==> !Fails(task, subagents, earlier)
  {
    hide WellFormed, Processed, Permitted, Fails, Evaluate;
    var got := ClaimedBy(s, a, t)[0];
    var p := Processed(got, subagents, t.executor(got.task, 0), t.now);
    ClaimedRecord(s, a, t);
    ProcessedOutcome(got, subagents, t.executor(got.task, 0), t.now);
    assert HandoffStep(s, a, subagents, t).reply == ReplyOf(p);
    if !Permitted(got.task, subagents) {
      PolicyDecides(got.task, subagents);
      var reason := Evaluate(got.task, subagents).reason;
      assert Evaluate(got.task, subagents) == Deny(reason);
      assert Fails(got.task, subagents, reason);
      assert p.result.value.errorCode == Some(ReasonCode(reason));
    }
  }

  /** What a call claims is the stored task under its key, with one more attempt, freshly leased. */
  lemma ClaimedRecord(s: BusState, a: Args, t: Try)
    requires WellFormed(s) && ClaimedBy(s, a, t) != []
    ensures
      var s1 := SubmitStep(s, TaskOf(a, t.freshId, t.now)).0;
      var r, id := ClaimedBy(s, a, t)[0], ClaimedBy(s, a, t)[0].task.taskId;
      && r.result.None? && r.failureCode.None? && id == SubmitStep(s, TaskOf(a, t.freshId, t.now)).1.task.taskId
      && KeyOf(a) in s1.index && s1.index[KeyOf(a)] == id && id in s1.records
      && r.task == s1.records[id].task.(attempt := s1.records[id].task.attempt + 1)
      && r.leaseOwner == Some(WorkerOf(a)) && r.leaseExpiresAt == Some(t.now + 60)
  {
    hide WellFormed, Lease, SubmitStep, ClaimTaskStep, Constructible, KeyOf;
    var task := TaskOf(a, t.freshId, t.now);
    var (s1, record) := SubmitStep(s, task);
    SubmitIndexes(s, task);
    LeaseShape(s1, record.task.taskId, WorkerOf(a), t.now);
  }

  lemma SubmitIndexes(s: BusState, task: Task)
    requires WellFormed(s)
    ensures
      var (s1, record) := SubmitStep(s, task);
      && WellFormed(s1) && task.idempotencyKey in s1.index && s1.index[task.idempotencyKey] == record.task.taskId
      && record.task.taskId in s1.records && s1.records[record.task.taskId] == record
  {
  }

  lemma LeaseShape(s: BusState, id: Name, worker: Name, now: int)
    requires WellFormed(s)
    ensures
      var got := ClaimTaskStep(s, id, worker, LEASE_SECONDS, now).1;
      got.Some? ==>
        && id in s.records && got.value.result.None? && got.value.failureCode.None?
        && got.value.leaseOwner == Some(worker) && got.value.leaseExpiresAt == Some(now + 60)
        && got.value.task.taskId == id
        && got.value.task == s.records[id].task.(attempt := s.records[id].task.attempt + 1)
  {
  }

  /** Calls about different correlations claim under different names. */
  lemma WorkersDiffer(a: Args, b: Args)
    ensures WorkerOf(a) == WorkerOf(b) <==> a.correlationId == b.correlationId
  {
    assert a.correlationId == WorkerOf(a).text[|"handoff:"|..] && b.correlationId == WorkerOf(b).text[|"handoff:"|..];
  }
}

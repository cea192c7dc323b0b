/**
 * Runs of handoff calls among other users of the bus: which delegation the executor is given by a call, when
 * a failed task of another call with the same key may be retried in its place.
 */
module HandoffRuns {
  import opened Basics
  import opened Delegation
  import opened Subagents
  import opened Policy
  import opened TaskBus
  import opened TaskBusRuns
  import opened RetryBudget
  import opened LeaseSafety
  import opened Worker
  import opened Handoff
  import opened KeyParts

  // ----- runs of calls, among other users of the bus -----

  /** A handoff call, or anything else that happens on the bus. */
  datatype Move = Call(args: Args, try: Try) | Other(op: Op)

  /** New tasks get fresh ids, and nobody else submits under a handoff's key. */
  ghost predicate Legal(s: BusState, m: Move) {
    match m
    case Call(a, t) => FreshTry(s, a, t)
    case Other(op) => Fresh(s, op) && (op.Submit? ==> forall a :: op.task.idempotencyKey != KeyOf(a))
  }

  ghost function Next(s: BusState, subagents: seq<SubagentConfig>, m: Move): (t: BusState)
    requires WellFormed(s)
    ensures WellFormed(t)
  {
    match m
    case Call(a, t) =>
      HandoffWellFormed(s, a, subagents, t);
      HandoffStep(s, a, subagents, t).bus
    case Other(op) => Apply(s, op)
  }

  ghost predicate AllLegal(s: BusState, subagents: seq<SubagentConfig>, moves: seq<Move>)
    requires WellFormed(s)
    decreases |moves|
  {
    moves == [] || (Legal(s, moves[0]) && AllLegal(Next(s, subagents, moves[0]), subagents, moves[1..]))
  }

  ghost function Run(s: BusState, subagents: seq<SubagentConfig>, moves: seq<Move>): (t: BusState)
    requires WellFormed(s)
    ensures WellFormed(t)
    decreases |moves|
  {
    if moves == [] then s else Run(Next(s, subagents, moves[0]), subagents, moves[1..])
  }

  /** A handoff only touches the record of its own task after the submission. */
  lemma HandoffShape(s: BusState, a: Args, subagents: seq<SubagentConfig>, t: Try)
    requires WellFormed(s) && Constructible(TaskOf(a, t.freshId, t.now))
    ensures
      var (s1, record) := SubmitStep(s, TaskOf(a, t.freshId, t.now));
      var id, done := record.task.taskId, HandoffStep(s, a, subagents, t).bus;
      && WellFormed(s1) && id in s1.records
      && exists r :: done == Put(s1, id, r) && SameTask(s1.records[id].task, r.task)
  {
    hide WellFormed, SubmitStep, Processed, Constructible, Permitted, TaskOf;
    var task := TaskOf(a, t.freshId, t.now);
    var (s1, record) := SubmitStep(s, task);
    SubmitIndexes(s, task);
    var (s2, got) := PollClaim(s1, Some(record.task.taskId), WorkerOf(a), t.now);
    if got != [] {
      LeaseShape(s1, record.task.taskId, WorkerOf(a), t.now);
      ProcessedSettles(got[0], subagents, t.executor(got[0].task, 0), t.now);
    }
  }

  lemma HandoffWellFormed(s: BusState, a: Args, subagents: seq<SubagentConfig>, t: Try)
    requires WellFormed(s)
    ensures WellFormed(HandoffStep(s, a, subagents, t).bus)
  {
    if Constructible(TaskOf(a, t.freshId, t.now)) {
      hide WellFormed, HandoffStep, SubmitStep, TaskOf;
      HandoffShape(s, a, subagents, t);
      var (s1, record) := SubmitStep(s, TaskOf(a, t.freshId, t.now));
      var id := record.task.taskId;
      var r :| HandoffStep(s, a, subagents, t).bus == Put(s1, id, r) && SameTask(s1.records[id].task, r.task);
      StoredUnderItsId(s1, id);
      PutWellFormed(s1, id, r);
    }
  }

  // ----- what the executor is given -----

  /** The task is the delegation of the orchestrator that a call describes. */
  predicate Carries(task: Task, a: Args) {
    && task.sourceAgent == Name("orchestrator") && task.targetAgent == Name(a.targetAgent)
    && task.intent == Name(a.intent) && task.correlationId == Name(a.correlationId)
    && task.payload == map[Name("sql_query") := Text(a.sqlQuery)]
    && task.dataClassification == Name("internal") && task.authMode.App? && task.ancestry == []
  }

  /** A task determines the call it carries. */
  lemma CarriesOne(task: Task, a: Args, b: Args)
    requires Carries(task, a) && Carries(task, b)
    ensures a == b
  {
    assert map[Name("sql_query") := Text(a.sqlQuery)][Name("sql_query")] == Text(b.sqlQuery);
  }

  /** The task carries a valid call made so far that has the same key. */
  ghost predicate Serves(task: Task, a: Args, called: seq<Args>) {
    exists b :: b in called && KeyText(b) == KeyText(a) && ValidArgs(b) && Carries(task, b)
  }

  ghost predicate AsCalled(s: BusState, called: seq<Args>) {
    && Indexed(s)
    && forall a :: KnownKey(s, KeyOf(a)) ==> Serves(s.records[s.index[KeyOf(a)]].task, a, called)
  }

  lemma ServesLater(task: Task, later: Task, a: Args, called: seq<Args>, more: seq<Args>)
    requires Serves(task, a, called) && SameTask(task, later)
    ensures Serves(later, a, called + more)
  {
    hide KeyText;
  }

  /** A step that files nothing under a handoff's key keeps what is filed. */
  lemma KeepsAsCalled(s: BusState, t: BusState, called: seq<Args>)
    requires AsCalled(s, called) && Indexed(t) && TasksKept(s, t)
    requires forall a :: KnownKey(t, KeyOf(a)) ==> KnownKey(s, KeyOf(a)) && t.index[KeyOf(a)] == s.index[KeyOf(a)]
    ensures AsCalled(t, called)
  {
    hide KeyOf, Serves, SameTask;
    forall a | KnownKey(t, KeyOf(a)) ensures Serves(t.records[t.index[KeyOf(a)]].task, a, called) {
      IndexedKnown(s, KeyOf(a));
      ServesLater(s.records[s.index[KeyOf(a)]].task, t.records[t.index[KeyOf(a)]].task, a, called, []);
      assert called + [] == called;
    }
  }

  /** Submitting a call's task files it under the call's key, unless one is filed there already. */
  lemma SubmitAsCalled(s: BusState, a: Args, t: Try, called: seq<Args>)
    requires WellFormed(s) && AsCalled(s, called) && FreshTry(s, a, t) && ValidArgs(a)
    ensures
      var s1 := SubmitStep(s, TaskOf(a, t.freshId, t.now)).0;
      AsCalled(s1, called + [a])
  {
    hide Indexed, Serves, SameTask, KeyText;
    var task := TaskOf(a, t.freshId, t.now);
    var s1 := SubmitStep(s, task).0;
    ApplyIndexed(s, Submit(task));
    ApplyKeepsTasks(s, Submit(task));
    forall x | KnownKey(s1, KeyOf(x)) ensures Serves(s1.records[s1.index[KeyOf(x)]].task, x, called + [a]) {
      if KnownKey(s, KeyOf(x)) {
        IndexedKnown(s, KeyOf(x));
        ServesLater(s.records[s.index[KeyOf(x)]].task, s1.records[s1.index[KeyOf(x)]].task, x, called, [a]);
      } else {
        NewServes(task, a, x, t, called);
      }
    }
  }

  lemma NewServes(task: Task, a: Args, x: Args, t: Try, called: seq<Args>)
    requires task == TaskOf(a, t.freshId, t.now) && KeyText(x) == KeyText(a) && ValidArgs(a)
    ensures Serves(task, x, called + [a])
  {
    hide KeyText;
    assert a in called + [a] && Carries(task, a);
  }

  function CalledBy(m: Move): seq<Args> {
    match m
    case Call(a, _) => if ValidArgs(a) then [a] else []
    case Other(_) => []
  }

  function CallsOf(moves: seq<Move>): seq<Args> {
    if moves == [] then [] else CalledBy(moves[0]) + CallsOf(moves[1..])
  }

  lemma NextAsCalled(s: BusState, subagents: seq<SubagentConfig>, m: Move, called: seq<Args>)
    requires WellFormed(s) && AsCalled(s, called) && Legal(s, m)
    ensures AsCalled(Next(s, subagents, m), called + CalledBy(m))
  {
    hide WellFormed, AsCalled, HandoffStep, SubmitStep, TaskOf, Indexed, TasksKept;
    match m
    case Call(a, t) =>
      InvalidExactly(s, a, subagents, t);
      if ValidArgs(a) {
        CallAsCalled(s, subagents, a, t, called);
      } else {
        assert called + [] == called;
      }
    case Other(op) =>
      OtherAsCalled(s, op, called);
      assert called + [] == called;
  }

  lemma OtherAsCalled(s: BusState, op: Op, called: seq<Args>)
    requires WellFormed(s) && AsCalled(s, called) && Legal(s, Other(op))
    ensures AsCalled(Apply(s, op), called)
  {
    hide WellFormed, Apply, Serves, TasksKept;
    ApplyIndexed(s, op);
    ApplyKeepsTasks(s, op);
    KeepsAsCalled(s, Apply(s, op), called);
  }

  lemma CallAsCalled(s: BusState, subagents: seq<SubagentConfig>, a: Args, t: Try, called: seq<Args>)
    requires WellFormed(s) && AsCalled(s, called) && FreshTry(s, a, t) && ValidArgs(a)
    ensures AsCalled(HandoffStep(s, a, subagents, t).bus, called + [a])
  {
    hide WellFormed, Serves, HandoffStep, SubmitStep;
    SubmitAsCalled(s, a, t, called);
    HandoffShape(s, a, subagents, t);
    var (s1, record) := SubmitStep(s, TaskOf(a, t.freshId, t.now));
    var id := record.task.taskId;
    var r :| HandoffStep(s, a, subagents, t).bus == Put(s1, id, r) && SameTask(s1.records[id].task, r.task);
    PutKeepsIndex(s1, id, r);
    KeepsAsCalled(s1, Put(s1, id, r), called + [a]);
  }

  lemma PutKeepsIndex(s: BusState, id: Name, r: Record)
    requires Indexed(s) && id in s.records && SameTask(s.records[id].task, r.task)
    ensures Indexed(Put(s, id, r)) && TasksKept(s, Put(s, id, r))
  {
    IndexedFrame(s, Put(s, id, r));
  }

  lemma {:induction false} RunAsCalled(s: BusState, subagents: seq<SubagentConfig>, moves: seq<Move>, called: seq<Args>)
    requires WellFormed(s) && AsCalled(s, called) && AllLegal(s, subagents, moves)
    ensures AsCalled(Run(s, subagents, moves), called + CallsOf(moves))
    decreases |moves|
  {
    hide WellFormed, AsCalled, Legal, Next, CalledBy;
    if moves == [] {
      assert called + [] == called;
    } else {
      NextAsCalled(s, subagents, moves[0], called);
      RunAsCalled(Next(s, subagents, moves[0]), subagents, moves[1..], called + CalledBy(moves[0]));
      assert (called + CalledBy(moves[0])) + CallsOf(moves[1..]) == called + CallsOf(moves);
    }
  }

  /** No other valid call has the key of this one. */
  ghost predicate OnlyReading(a: Args) {
    forall b :: ValidArgs(b) && KeyText(b) == KeyText(a) ==> b == a
  }

  /**
   * For every run of calls among other traffic on the bus: the executor is given the delegation of a valid
   * call made so far with the same key; of this very call when its key has no other reading, as it has not
   * when no part contains a colon.
   */
  lemma ExecutedAsCalled(subagents: seq<SubagentConfig>, moves: seq<Move>, a: Args, t: Try, task: Task)
    requires AllLegal(EMPTY_BUS, subagents, moves) && FreshTry(Run(EMPTY_BUS, subagents, moves), a, t)
    ensures task in ExecutedBy(Run(EMPTY_BUS, subagents, moves), a, subagents, t) ==>
              && Permitted(task, subagents) && Serves(task, a, CallsOf(moves) + [a])
              && (OnlyReading(a) ==> Carries(task, a))
    ensures NoColons(a) ==> OnlyReading(a)
  {
    hide WellFormed, Permitted, KeyText, TaskOf, SubmitStep, ClaimedBy, Indexed;
    EmptyAsCalled();
    RunAsCalled(EMPTY_BUS, subagents, moves, []);
    assert [] + CallsOf(moves) == CallsOf(moves);
    var s := Run(EMPTY_BUS, subagents, moves);
    if task in ExecutedBy(s, a, subagents, t) {
      InvalidExactly(s, a, subagents, t);
      SubmitAsCalled(s, a, t, CallsOf(moves));
      ClaimedRecord(s, a, t);
      var s1 := SubmitStep(s, TaskOf(a, t.freshId, t.now)).0;
      KnownAfterSubmit(s, a, t);
      ServesLater(s1.records[s1.index[KeyOf(a)]].task, task, a, CallsOf(moves) + [a], []);
      assert CallsOf(moves) + [a] + [] == CallsOf(moves) + [a];
    }
    if NoColons(a) {
      KeyUniqueExactly(a);
    }
  }

  lemma EmptyAsCalled()
    ensures WellFormed(EMPTY_BUS) && AsCalled(EMPTY_BUS, [])
  {
  }

  lemma KnownAfterSubmit(s: BusState, a: Args, t: Try)
    requires WellFormed(s) && FreshTry(s, a, t)
    ensures KnownKey(SubmitStep(s, TaskOf(a, t.freshId, t.now)).0, KeyOf(a))
  {
  }

  // ----- exactly when a call gets its own delegation -----

  /** Whatever the subagents and the run before, the executor is only ever given this call's own delegation. */
  ghost predicate ServedExactly(a: Args) {
    forall subagents, moves, t, task ::
      AllLegal(EMPTY_BUS, subagents, moves) && FreshTry(Run(EMPTY_BUS, subagents, moves), a, t)
      && task in ExecutedBy(Run(EMPTY_BUS, subagents, moves), a, subagents, t)
      ==> Carries(task, a)
  }

  /** A configuration that permits what a call delegates, and nothing else. */
  function Accepting(a: Args): SubagentConfig {
    SubagentConfig(Name(a.targetAgent), AppKind, "", None, None, App, "", false, [], [Name("orchestrator")],
                   [Name(a.intent)], 1)
  }

  lemma AcceptingPermits(task: Task, a: Args)
    requires Carries(task, a) && ValidArgs(a)
    ensures Permitted(task, [Accepting(a)])
  {
    var subagents := [Accepting(a)];
    assert LastNamed(subagents, task.targetAgent, 0);
    assert subagents[0].name != Name("orchestrator");
  }

  /** After a failed first call with the same key, the second call executes the first one's delegation. */
  lemma OtherIsServed(a: Args, b: Args) returns (moves: seq<Move>, t: Try, task: Task)
    requires ValidArgs(a) && ValidArgs(b) && KeyText(a) == KeyText(b)
    ensures AllLegal(EMPTY_BUS, [Accepting(b)], moves)
    ensures FreshTry(Run(EMPTY_BUS, [Accepting(b)], moves), a, t)
    ensures task in ExecutedBy(Run(EMPTY_BUS, [Accepting(b)], moves), a, [Accepting(b)], t) && Carries(task, b)
  {
    hide Permitted, KeyText;
    t := Try(Name("1"), (task, n) => Threw(Name("error")), 0);
    moves := [Call(b, t)];
    EmptyAsCalled();
    assert moves[1..] == [];
    assert AllLegal(EMPTY_BUS, [Accepting(b)], moves);
    FailedCall(b, t);
    var s := HandoffStep(EMPTY_BUS, b, [Accepting(b)], t).bus;
    HandoffWellFormed(EMPTY_BUS, b, [Accepting(b)], t);
    assert Run(EMPTY_BUS, [Accepting(b)], moves) == s;
    task := RetriedCall(s, a, b, t);
    AcceptingPermits(task, b);
  }

  /** The bus after a first call whose executor raised: its task is pending, with one attempt used. */
  lemma FailedCall(b: Args, t: Try)
    requires ValidArgs(b) && t.freshId == Name("1") && t.executor(TaskOf(b, t.freshId, t.now).(attempt := 1), 0).Threw?
    ensures WellFormed(EMPTY_BUS)
    ensures
      var s := HandoffStep(EMPTY_BUS, b, [Accepting(b)], t).bus;
      && KnownKey(s, KeyOf(b)) && s.index[KeyOf(b)] == Name("1") && Name("1") in s.records
      && s.records[Name("1")].status.Pending? && s.records[Name("1")].task == TaskOf(b, t.freshId, t.now).(attempt := 1)
  {
    var task := TaskOf(b, t.freshId, t.now);
    assert Carries(task, b) && Constructible(task) && SubmitStep(EMPTY_BUS, task).0.index == map[KeyOf(b) := Name("1")];
    hide Permitted, KeyText, Processed, HandoffStep, TaskOf, Constructible;
    AcceptingPermits(task.(attempt := 1), b);
    var leased := Lease(NewRecord(task), WorkerOf(b), LeaseEnd(t.now, LEASE_SECONDS));
    ProcessedOutcome(leased, [Accepting(b)], t.executor(leased.task, 0), t.now);
  }

  lemma RetriedCall(s: BusState, a: Args, b: Args, t: Try) returns (task: Task)
    requires WellFormed(s) && ValidArgs(a) && KnownKey(s, KeyOf(a)) && s.index[KeyOf(a)] == Name("1")
    requires Name("1") in s.records && s.records[Name("1")].status.Pending?
    requires s.records[Name("1")].task == TaskOf(b, t.freshId, t.now).(attempt := 1)
    ensures ClaimedBy(s, a, t) != [] && task == ClaimedBy(s, a, t)[0].task && Carries(task, b)
  {
    hide KeyText, WellFormed;
    task := TaskOf(b, t.freshId, t.now).(attempt := 2);
    StoredUnderItsId(s, Name("1"));
  }

  /** A valid call is always given its own delegation exactly when its key has no other reading. */
  lemma ServedExactlyByKey(a: Args)
    requires ValidArgs(a)
    ensures ServedExactly(a) <==> OnlyReading(a)
  {
    hide KeyText, Carries, Permitted;
    if OnlyReading(a) {
      forall subagents, moves, t, task |
        AllLegal(EMPTY_BUS, subagents, moves) && FreshTry(Run(EMPTY_BUS, subagents, moves), a, t)
        && task in ExecutedBy(Run(EMPTY_BUS, subagents, moves), a, subagents, t)
        ensures Carries(task, a)
      {
        ExecutedAsCalled(subagents, moves, a, t, task);
      }
    } else {
      var b :| ValidArgs(b) && KeyText(b) == KeyText(a) && b != a;
      var moves, t, task := OtherIsServed(a, b);
      if Carries(task, a) {
        CarriesOne(task, a, b);
      }
    }
  }
}

/** The typed contracts of a delegated task: the task, its result and its stored record. */
module Delegation {
  import opened Basics

  datatype Status =
    | Pending
    | Claimed
    | Running
    | Succeeded
    | Failed
    | Rejected
    | Expired
    | DeadLetter

  /** The statuses a result may carry. */
  type ResultStatus = s: Status | s.Succeeded? || s.Failed? || s.Rejected? || s.Expired? witness Succeeded

  datatype Value = Text(value: string) | Flag(flag: bool) | Null

  /** An identifier, key or code; a text kept as one value. */
  datatype Name = Name(text: string)

  type Payload = map<Name, Value>

  datatype AuthMode = App | Obo

  datatype Task = Task(
    sourceAgent: Name,
    targetAgent: Name,
    intent: Name,
    payload: Payload,
    correlationId: Name,
    idempotencyKey: Name,
    ancestry: seq<Name>,
    dataClassification: Name,
    authMode: AuthMode,
    taskId: Name,
    attempt: int,
    maxAttempts: int,
    expiresAt: Option<int>,
    createdAt: int)

  const DEFAULT_MAX_ATTEMPTS := 2

  /** The checks a task passes when it is constructed. */
  predicate Constructible(t: Task) {
    && t.sourceAgent.text != "" && t.targetAgent.text != "" && t.intent.text != ""
    && t.authMode.App?
    && t.maxAttempts >= 1
    && t.sourceAgent != t.targetAgent && t.targetAgent !in t.ancestry
    && (t.expiresAt.Some? ==> t.createdAt < t.expiresAt.value)
  }

  datatype Result = Result(
    taskId: Name,
    correlationId: Name,
    status: ResultStatus,
    output: Option<Payload>,
    errorCode: Option<Name>,
    completedAt: int)

  datatype Record = Record(
    task: Task,
    status: Status,
    leaseOwner: Option<Name>,
    leaseExpiresAt: Option<int>,
    result: Option<Result>,
    failureCode: Option<Name>)

  function NewRecord(t: Task): Record {
    Record(t, Pending, None, None, None, None)
  }

  predicate IsLeased(s: Status) {
    s.Claimed? || s.Running?
  }

  predicate IsTerminal(s: Status) {
    !s.Pending? && !IsLeased(s)
  }

  // ----- chains of delegations -----

  /** The agents a task has passed through, up to its target. */
  function Chain(t: Task): seq<Name> {
    t.ancestry + [t.sourceAgent, t.targetAgent]
  }

  /** The target of `t` passes work on in `next`. */
  predicate PassesOn(t: Task, next: Task) {
    next.sourceAgent == t.targetAgent && next.ancestry == t.ancestry + [t.sourceAgent]
  }

  /** The loop check is exactly what keeps the agents of a chain apart. */
  lemma LoopCheckExactly(t: Task)
    requires Distinct(t.ancestry + [t.sourceAgent])
    ensures t.sourceAgent != t.targetAgent && t.targetAgent !in t.ancestry <==> Distinct(Chain(t))
  {
    var before, n := t.ancestry + [t.sourceAgent], |t.ancestry| + 1;
    assert Chain(t) == before + [t.targetAgent];
    if t.targetAgent in t.ancestry {
      var i :| 0 <= i < n - 1 && t.ancestry[i] == t.targetAgent;
      assert Chain(t)[i] == Chain(t)[n];
    } else {
      assert Chain(t)[n - 1] == t.sourceAgent && Chain(t)[n] == t.targetAgent;
      assert forall i :: 0 <= i < n - 1 ==> Chain(t)[i] in t.ancestry;
      assert forall i :: 0 <= i < n ==> Chain(t)[i] == before[i];
    }
  }

  /**
   * However often work is passed on, no agent occurs twice in a chain of constructible tasks, and each hop
   * makes the chain longer by one.
   */
  lemma {:induction false} ChainsHaveNoLoops(tasks: seq<Task>, k: nat)
    requires k < |tasks| && tasks[0].ancestry == []
    requires forall i :: 0 <= i < |tasks| ==> Constructible(tasks[i])
    requires forall i :: 0 < i < |tasks| ==> PassesOn(tasks[i - 1], tasks[i])
    ensures Distinct(Chain(tasks[k])) && |Chain(tasks[k])| == k + 2
    decreases k
  {
    var t := tasks[k];
    if k == 0 {
      assert t.ancestry + [t.sourceAgent] == [t.sourceAgent];
    } else {
      ChainsHaveNoLoops(tasks, k - 1);
      assert t.ancestry + [t.sourceAgent] == Chain(tasks[k - 1]);
    }
    LoopCheckExactly(t);
  }
}

/** Deny-by-default policy for agent-to-agent delegation. */
module Policy {
  import opened Basics
  import opened Delegation
  import opened Subagents

  datatype Reason =
    | UnknownAgent
    | OboNotSupported
    | SourceNotAllowed
    | TargetNotAllowed
    | IntentNotAllowed
    | MaxDepthExceeded

  datatype Decision = Allow | Deny(reason: Reason)

  function ReasonCode(r: Reason): Name {
    Name(match r
         case UnknownAgent => "unknown_agent"
         case OboNotSupported => "obo_not_supported"
         case SourceNotAllowed => "source_not_allowed"
         case TargetNotAllowed => "target_not_allowed"
         case IntentNotAllowed => "intent_not_allowed"
         case MaxDepthExceeded => "max_depth_exceeded")
  }

  function Evaluate(task: Task, subagents: seq<SubagentConfig>): Decision {
    var source, target := ByName(subagents, task.sourceAgent), ByName(subagents, task.targetAgent);
    if target.None? then Deny(UnknownAgent)
    else if !task.authMode.App? then Deny(OboNotSupported)
    else if source.Some? && task.targetAgent !in source.value.canDelegateTo then Deny(SourceNotAllowed)
    else if task.sourceAgent !in target.value.acceptsDelegationsFrom then Deny(TargetNotAllowed)
    else if task.intent !in target.value.allowedTaskIntents then Deny(IntentNotAllowed)
    else if |task.ancestry| >= (if source.Some? then source.value.maxDelegationDepth else 1) then Deny(MaxDepthExceeded)
    else Allow
  }

  // ----- the rules, said of the configured list -----

  ghost predicate Configured(subagents: seq<SubagentConfig>, name: Name) {
    exists i :: 0 <= i < |subagents| && subagents[i].name == name
  }

  /** Entry `i` is the last one with this name. */
  ghost predicate LastNamed(subagents: seq<SubagentConfig>, name: Name, i: int) {
    0 <= i < |subagents| && subagents[i].name == name && forall j :: i < j < |subagents| ==> subagents[j].name != name
  }

  /**
   * What a delegation needs: a configured target that accepts the source and lists the intent, app
   * authentication, and a source that may delegate to the target within its depth, or, when it is not
   * configured itself, a task without ancestors.
   */
  ghost predicate Permitted(task: Task, subagents: seq<SubagentConfig>) {
    && (exists t :: LastNamed(subagents, task.targetAgent, t)
          && task.sourceAgent in subagents[t].acceptsDelegationsFrom && task.intent in subagents[t].allowedTaskIntents)
    && task.authMode.App?
    && (forall s :: LastNamed(subagents, task.sourceAgent, s) ==>
          task.targetAgent in subagents[s].canDelegateTo && |task.ancestry| < subagents[s].maxDelegationDepth)
    && (!Configured(subagents, task.sourceAgent) ==> task.ancestry == [])
  }

  /** The single tests, in the order in which they are reported. */
  ghost predicate Fails(task: Task, subagents: seq<SubagentConfig>, reason: Reason) {
    match reason
    case UnknownAgent => !Configured(subagents, task.targetAgent)
    case OboNotSupported => task.authMode != App
    case SourceNotAllowed =>
      exists s :: LastNamed(subagents, task.sourceAgent, s) && task.targetAgent !in subagents[s].canDelegateTo
    case TargetNotAllowed =>
      exists t :: LastNamed(subagents, task.targetAgent, t)
                  && task.sourceAgent !in subagents[t].acceptsDelegationsFrom
    case IntentNotAllowed =>
      exists t :: LastNamed(subagents, task.targetAgent, t) && task.intent !in subagents[t].allowedTaskIntents
    case MaxDepthExceeded =>
      || (!Configured(subagents, task.sourceAgent) && task.ancestry != [])
      || exists s :: LastNamed(subagents, task.sourceAgent, s)
                     && |task.ancestry| >= subagents[s].maxDelegationDepth
  }

  function Rank(reason: Reason): nat {
    match reason
    case UnknownAgent => 0
    case OboNotSupported => 1
    case SourceNotAllowed => 2
    case TargetNotAllowed => 3
    case IntentNotAllowed => 4
    case MaxDepthExceeded => 5
  }

  lemma OneLastNamed(subagents: seq<SubagentConfig>, name: Name)
    ensures ByName(subagents, name).Some? <==> Configured(subagents, name)
    ensures
      match ByName(subagents, name)
      case None => forall i :: !LastNamed(subagents, name, i)
      case Some(a) => exists i :: LastNamed(subagents, name, i) && subagents[i] == a
                                  && forall j :: LastNamed(subagents, name, j) ==> j == i
  {
    ByNameIsLast(subagents, name);
    match ByName(subagents, name)
    case None =>
    case Some(a) =>
      var i :| 0 <= i < |subagents| && subagents[i] == a && a.name == name
               && forall j :: i < j < |subagents| ==> subagents[j].name != name;
      assert LastNamed(subagents, name, i);
  }

  /** The tests by way of the name table. */
  lemma TestsByName(task: Task, subagents: seq<SubagentConfig>)
    ensures
      var s, t := ByName(subagents, task.sourceAgent), ByName(subagents, task.targetAgent);
      && (Fails(task, subagents, UnknownAgent) <==> t.None?)
      && (Fails(task, subagents, OboNotSupported) <==> !task.authMode.App?)
      && (Fails(task, subagents, SourceNotAllowed) <==> s.Some? && task.targetAgent !in s.value.canDelegateTo)
      && (Fails(task, subagents, TargetNotAllowed) <==>
            t.Some? && task.sourceAgent !in t.value.acceptsDelegationsFrom)
      && (Fails(task, subagents, IntentNotAllowed) <==> t.Some? && task.intent !in t.value.allowedTaskIntents)
      && (Fails(task, subagents, MaxDepthExceeded) <==>
            if s.Some? then |task.ancestry| >= s.value.maxDelegationDepth else task.ancestry != [])
      && (Permitted(task, subagents) <==>
            && t.Some? && task.sourceAgent in t.value.acceptsDelegationsFrom
            && task.intent in t.value.allowedTaskIntents
            && task.authMode.App?
            && (s.Some? ==>
                  task.targetAgent in s.value.canDelegateTo && |task.ancestry| < s.value.maxDelegationDepth)
            && (s.None? ==> task.ancestry == []))
  {
    hide ByName, Configured;
    OneLastNamed(subagents, task.sourceAgent);
    OneLastNamed(subagents, task.targetAgent);
  }

  /**
   * A task is allowed exactly when it is permitted, which is when no test fails; otherwise the reason is the
   * first test that fails.
   */
  lemma PolicyDecides(task: Task, subagents: seq<SubagentConfig>)
    ensures Evaluate(task, subagents).Allow? <==> Permitted(task, subagents)
    ensures Permitted(task, subagents) <==> forall reason :: !Fails(task, subagents, reason)
    ensures forall reason ::
              Evaluate(task, subagents) == Deny(reason) <==>
              Fails(task, subagents, reason)
              && forall r :: Rank(r) < Rank(reason) ==> !Fails(task, subagents, r)
  {
    hide ByName, Fails, Permitted;
    TestsByName(task, subagents);
    FirstFailure(task, subagents);
  }

  lemma FirstFailure(task: Task, subagents: seq<SubagentConfig>)
    ensures forall reason ::
              Evaluate(task, subagents) == Deny(reason) <==>
              Fails(task, subagents, reason)
              && forall r :: Rank(r) < Rank(reason) ==> !Fails(task, subagents, r)
  {
    hide ByName, Fails, Permitted;
    TestsByName(task, subagents);
    forall reason
      ensures Evaluate(task, subagents) == Deny(reason) <==>
              Fails(task, subagents, reason)
              && forall r :: Rank(r) < Rank(reason) ==> !Fails(task, subagents, r)
    {
      assert Rank(UnknownAgent) < Rank(OboNotSupported) < Rank(SourceNotAllowed) < Rank(TargetNotAllowed)
          < Rank(IntentNotAllowed) < Rank(MaxDepthExceeded);
    }
  }

  /** A stored error code tells the reason. */
  lemma CodesDiffer(a: Reason, b: Reason)
    requires ReasonCode(a) == ReasonCode(b)
    ensures a == b
  {
    assert |ReasonCode(UnknownAgent).text| == 13 && |ReasonCode(OboNotSupported).text| == 17;
    assert |ReasonCode(SourceNotAllowed).text| == 18 && ReasonCode(SourceNotAllowed).text[0] == 's';
    assert |ReasonCode(TargetNotAllowed).text| == 18 && ReasonCode(TargetNotAllowed).text[0] == 't';
    assert |ReasonCode(IntentNotAllowed).text| == 18 && ReasonCode(IntentNotAllowed).text[0] == 'i';
    assert |ReasonCode(MaxDepthExceeded).text| == 18 && ReasonCode(MaxDepthExceeded).text[0] == 'm';
  }
}

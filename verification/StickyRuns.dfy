/** Routing over a whole conversation history: any requests, with allowed lists that may change. */
module StickyRuns {
  import opened Basics
  import opened Delegation
  import opened Subagents
  import opened RouteScores
  import opened Routing

  // ----- sticky answers over a run -----

  /** The stored routes after a series of requests. */
  ghost function RoutesAfter(requests: seq<Request>): StickyRoutes
    requires forall r :: r in requests ==> ValidRequest(r)
  {
    if requests == [] then map[]
    else
      var r := requests[|requests| - 1];
      assert r in requests && ValidRequest(r);
      Route(RoutesAfter(requests[..|requests| - 1]), r).routes
  }

  datatype Match = Match(at: real, names: seq<Name>)

  /** The conversation's most recent confident match, read off the requests alone. */
  ghost function LastMatch(requests: seq<Request>, conversation: Name): Option<Match>
    requires forall r :: r in requests ==> ValidRequest(r)
  {
    if requests == [] then None
    else
      var r := requests[|requests| - 1];
      assert r in requests && ValidRequest(r);
      if r.conversation == Some(conversation) && Confident(r.scores)
      then Some(Match(r.now, NamesOf(Scored(r.subagents, r.scores, Best(r.scores)))))
      else LastMatch(requests[..|requests| - 1], conversation)
  }

  /** The clock does not run backwards. */
  ghost predicate History(requests: seq<Request>) {
    && (forall r :: r in requests ==> ValidRequest(r))
    && forall i, j :: 0 <= i < j < |requests| ==> requests[i].now <= requests[j].now
  }

  ghost predicate Reflects(routes: StickyRoutes, last: Option<Match>, conversation: Name, now: real) {
    if conversation in routes then
      last.Some? && routes[conversation] == Sticky(last.value.at + ROUTE_STICKINESS_TTL_SECONDS, last.value.names)
    else last.Some? ==> last.value.at + ROUTE_STICKINESS_TTL_SECONDS < now
  }

  lemma StepReflects(routes: StickyRoutes, last: Option<Match>, conversation: Name, before: real, r: Request)
    requires conversation.text != "" && ValidRequest(r) && before <= r.now
    requires Reflects(routes, last, conversation, before)
    ensures
      var last' :=
        if r.conversation == Some(conversation) && Confident(r.scores)
        then Some(Match(r.now, NamesOf(Scored(r.subagents, r.scores, Best(r.scores))))) else last;
      Reflects(Route(routes, r).routes, last', conversation, r.now)
  {
    hide Best, Scored, Confidence, AnyEvidence, NobodyScores, Keep;
  }

  lemma {:induction false} RunReflects(requests: seq<Request>, conversation: Name, now: real)
    requires History(requests) && conversation.text != ""
    requires forall r :: r in requests ==> r.now <= now
    ensures Reflects(RoutesAfter(requests), LastMatch(requests, conversation), conversation, now)
    decreases |requests|
  {
    if requests != [] {
      var n := |requests| - 1;
      var r := requests[n];
      forall q | q in requests[..n] ensures q in requests && q.now <= r.now {
        var i :| 0 <= i < n && requests[i] == q;
      }
      RunReflects(requests[..n], conversation, r.now);
      hide Route, Confident, NamesOf, Scored, Best;
      StepReflects(RoutesAfter(requests[..n]), LastMatch(requests[..n], conversation), conversation, r.now, r);
    }
  }

  /**
   * Over every history with a clock that does not run backwards: a request is answered `sticky_route`
   * exactly when it is not confident itself, its conversation has a confident match at most 600 seconds
   * old, and some of that match's subagents are still allowed; the answer is then that most recent match
   * restricted to the allowed names.
   */
  lemma StickyExactly(requests: seq<Request>, r: Request)
    requires History(requests) && ValidRequest(r) && forall q :: q in requests ==> q.now <= r.now
    ensures
      var out := Route(RoutesAfter(requests), r);
      var allowed := NamesOf(r.subagents);
      && (out.plan.reason.StickyRoute? <==>
            && !Confident(r.scores) && Tracked(r.conversation)
            && LastMatch(requests, r.conversation.value).Some?
            && r.now - LastMatch(requests, r.conversation.value).value.at <= 600.0
            && Keep(LastMatch(requests, r.conversation.value).value.names, allowed) != [])
      && (out.plan.reason.StickyRoute? ==>
            && out.plan.candidates == Keep(LastMatch(requests, r.conversation.value).value.names, allowed)
            && out.agents == Named(r.subagents, out.plan.candidates))
  {
    hide Best, Scored, Confidence, AnyEvidence, NobodyScores, LastMatch, RoutesAfter;
    if Tracked(r.conversation) {
      RunReflects(requests, r.conversation.value, r.now);
    }
  }
}

/**
 * Route plans: the best-scoring subagents when the match is confident, else the conversation's last
 * confident route while it is fresh, else everybody.
 */
module Routing {
  import opened Basics
  import opened Delegation
  import opened Subagents
  import opened RouteScores

  const MIN_ROUTE_CONFIDENCE := 0.60
  const ROUTE_STICKINESS_TTL_SECONDS := 600.0
  const CONFIDENCE_GUARD := 0.000000001

  datatype Reason = CapabilityMatch | StickyRoute | AmbiguousFallback | LowConfidenceFallback

  datatype Plan = Plan(candidates: seq<Name>, reason: Reason, confidence: real, requiresEvidence: bool)

  // ----- sticky routes -----

  datatype Sticky = Sticky(expiresAt: real, candidates: seq<Name>)

  type StickyRoutes = map<Name, Sticky>

  /** A missing or empty conversation id keeps nothing. */
  predicate Tracked(conversation: Option<Name>) {
    conversation.Some? && conversation.value.text != ""
  }

  function Remember(routes: StickyRoutes, conversation: Option<Name>, candidates: seq<Name>, now: real): StickyRoutes {
    if Tracked(conversation) then routes[conversation.value := Sticky(now + ROUTE_STICKINESS_TTL_SECONDS, candidates)]
    else routes
  }

  function Keep(names: seq<Name>, allowed: seq<Name>): (r: seq<Name>)
    ensures forall n :: n in r <==> n in names && n in allowed
  {
    if names == [] then []
    else (if names[0] in allowed then [names[0]] else []) + Keep(names[1..], allowed)
  }

  /** Recalling deletes an expired entry. */
  function Recall(routes: StickyRoutes, conversation: Option<Name>, allowed: seq<Name>, now: real)
    : (StickyRoutes, seq<Name>)
  {
    if !Tracked(conversation) || conversation.value !in routes then (routes, [])
    else
      var entry := routes[conversation.value];
      if entry.expiresAt < now then (routes - {conversation.value}, [])
      else (routes, Keep(entry.candidates, allowed))
  }

  /** Recalling keeps other conversations' routes and leaves no expired entry of its own conversation behind. */
  lemma RecallForgets(routes: StickyRoutes, conversation: Name, allowed: seq<Name>, now: real)
    requires conversation.text != ""
    ensures
      var kept := Recall(routes, Some(conversation), allowed, now).0;
      && (forall c :: c in kept ==> c in routes && kept[c] == routes[c])
      && (forall c :: c in routes && c != conversation ==> c in kept)
      && (conversation in kept <==> conversation in routes && routes[conversation].expiresAt >= now)
  {
  }

  // ----- the decision on the scores -----

  function NamesOf(agents: seq<SubagentConfig>): (r: seq<Name>)
    ensures |r| == |agents| && forall i :: 0 <= i < |r| ==> r[i] == agents[i].name
  {
    if agents == [] then [] else [agents[0].name] + NamesOf(agents[1..])
  }

  function AnyEvidence(agents: seq<SubagentConfig>): bool {
    exists a :: a in agents && a.requiresEvidence
  }

  /** The agents whose name is in `names`, in their own order. */
  function Named(agents: seq<SubagentConfig>, names: seq<Name>): (r: seq<SubagentConfig>)
    ensures forall a :: a in r <==> a in agents && a.name in names
  {
    if agents == [] then []
    else (if agents[0].name in names then [agents[0]] else []) + Named(agents[1..], names)
  }

  /** The agents with exactly this score. */
  function Scored(agents: seq<SubagentConfig>, scores: seq<real>, score: real): (r: seq<SubagentConfig>)
    requires |scores| == |agents|
    ensures forall a :: a in r <==> exists i :: 0 <= i < |agents| && agents[i] == a && scores[i] == score
  {
    if agents == [] then []
    else
      var rest := Scored(agents[1..], scores[1..], score);
      assert forall i :: 0 <= i < |agents| - 1 ==> agents[1..][i] == agents[i + 1] && scores[1..][i] == scores[i + 1];
      if scores[0] == score then [agents[0]] + rest else rest
  }

  /** The highest score, or zero; zero scores are not kept. */
  function Best(scores: seq<real>): (b: real)
    ensures b >= 0.0 && forall i :: 0 <= i < |scores| ==> scores[i] <= b
    ensures b == 0.0 || b in scores
  {
    if scores == [] then 0.0
    else
      var b := Best(scores[1..]);
      assert forall i :: 1 <= i < |scores| ==> scores[i] == scores[1..][i - 1];
      if scores[0] > b then scores[0] else b
  }

  /** The highest score below `best`, or zero. */
  function NextBest(scores: seq<real>, best: real): (b: real)
    ensures b >= 0.0 && (best > 0.0 ==> b < best)
    ensures forall i :: 0 <= i < |scores| && scores[i] < best ==> scores[i] <= b
    ensures b == 0.0 || b in scores
  {
    if scores == [] then 0.0
    else
      var b := NextBest(scores[1..], best);
      assert forall i :: 1 <= i < |scores| ==> scores[i] == scores[1..][i - 1];
      if b < scores[0] < best then scores[0] else b
  }

  /** The share of the best score, with a guard against division by zero. */
  function Share(best: real, next: real): real {
    best / (if best + next > CONFIDENCE_GUARD then best + next else CONFIDENCE_GUARD)
  }

  function Confidence(scores: seq<real>): real {
    Share(Best(scores), NextBest(scores, Best(scores)))
  }

  predicate NobodyScores(scores: seq<real>) {
    forall i :: 0 <= i < |scores| ==> scores[i] == 0.0
  }

  predicate Confident(scores: seq<real>) {
    !NobodyScores(scores) && Confidence(scores) >= MIN_ROUTE_CONFIDENCE
  }

  /** A request: the allowed subagents with their scores, the conversation and the time. */
  datatype Request = Request(subagents: seq<SubagentConfig>, scores: seq<real>, conversation: Option<Name>, now: real)

  ghost predicate ValidRequest(r: Request) {
    |r.scores| == |r.subagents| && forall i :: 0 <= i < |r.scores| ==> r.scores[i] >= 0.0
  }

  /** The request as it is decided on, with the scores of all subagents. */
  function RequestFor(
      terms: seq<Term>, vocabularies: seq<Vocabulary>, subagents: seq<SubagentConfig>, conversation: Option<Name>,
      now: real)
    : (r: Request)
    requires |vocabularies| == |subagents|
    ensures |r.scores| == |r.subagents|
  {
    var caps := Capabilities(vocabularies);
    Request(subagents, Scores(caps, caps, terms), conversation, now)
  }

  /** Scores are never negative. */
  lemma RequestForIsValid(
      terms: seq<Term>, vocabularies: seq<Vocabulary>, subagents: seq<SubagentConfig>, conversation: Option<Name>,
      now: real)
    requires |vocabularies| == |subagents|
    ensures ValidRequest(RequestFor(terms, vocabularies, subagents, conversation, now))
  {
    var caps := Capabilities(vocabularies);
    forall i | 0 <= i < |caps| ensures Scores(caps, caps, terms)[i] >= 0.0 {
      ScoreNotNegative(caps[i], caps, terms);
    }
  }

  datatype Routed = Routed(routes: StickyRoutes, plan: Plan, agents: seq<SubagentConfig>)

  function Fallback(routes: StickyRoutes, r: Request, plan: Plan): Routed {
    var (kept, sticky) := Recall(routes, r.conversation, NamesOf(r.subagents), r.now);
    if sticky != [] then
      var agents := Named(r.subagents, sticky);
      Routed(kept, Plan(sticky, StickyRoute, plan.confidence, AnyEvidence(agents)), agents)
    else Routed(kept, plan, r.subagents)
  }

  function Route(routes: StickyRoutes, r: Request): Routed
    requires |r.scores| == |r.subagents|
  {
    var all := NamesOf(r.subagents);
    if NobodyScores(r.scores) then Fallback(routes, r, Plan(all, AmbiguousFallback, 0.0, false))
    else
      var confidence := Confidence(r.scores);
      if confidence < MIN_ROUTE_CONFIDENCE then
        Fallback(routes, r, Plan(all, LowConfidenceFallback, confidence, AnyEvidence(r.subagents)))
      else
        var agents := Scored(r.subagents, r.scores, Best(r.scores));
        Routed(Remember(routes, r.conversation, NamesOf(agents), r.now),
               Plan(NamesOf(agents), CapabilityMatch, confidence, AnyEvidence(agents)), agents)
  }

  // ----- what may be returned -----

  /** `xs` can be obtained from `ys` by leaving elements out. */
  predicate Subsequence<T(==)>(xs: seq<T>, ys: seq<T>) {
    xs == [] ||
    (ys != [] && if xs[0] == ys[0] then Subsequence(xs[1..], ys[1..]) else Subsequence(xs, ys[1..]))
  }

  lemma {:induction false} SubsequenceTail<T>(xs: seq<T>, ys: seq<T>)
    requires Subsequence(xs, ys) && xs != []
    ensures Subsequence(xs[1..], ys)
    decreases |ys|, 0
  {
    if xs[0] == ys[0] {
      SubsequenceSkip(xs[1..], ys[0], ys[1..]);
      assert [ys[0]] + ys[1..] == ys;
    } else {
      SubsequenceTail(xs, ys[1..]);
      SubsequenceSkip(xs[1..], ys[0], ys[1..]);
      assert [ys[0]] + ys[1..] == ys;
    }
  }

  lemma {:induction false} SubsequenceSkip<T>(xs: seq<T>, y: T, ys: seq<T>)
    requires Subsequence(xs, ys)
    ensures Subsequence(xs, [y] + ys)
    decreases |ys|, 1
  {
    assert ([y] + ys)[1..] == ys;
    if xs != [] && xs[0] == y {
      SubsequenceTail(xs, ys);
    }
  }

  lemma {:induction false} NamedSubsequence(agents: seq<SubagentConfig>, names: seq<Name>)
    ensures Subsequence(Named(agents, names), agents)
  {
    if agents != [] {
      NamedSubsequence(agents[1..], names);
      var rest := Named(agents[1..], names);
      if agents[0].name in names {
        assert ([agents[0]] + rest)[1..] == rest;
      } else {
        assert [] + rest == rest;
        SubsequenceSkip(rest, agents[0], agents[1..]);
        assert [agents[0]] + agents[1..] == agents;
      }
    }
  }

  lemma {:induction false} ScoredSubsequence(agents: seq<SubagentConfig>, scores: seq<real>, score: real)
    requires |scores| == |agents|
    ensures Subsequence(Scored(agents, scores, score), agents)
  {
    if agents != [] {
      ScoredSubsequence(agents[1..], scores[1..], score);
      var rest := Scored(agents[1..], scores[1..], score);
      if scores[0] == score {
        assert ([agents[0]] + rest)[1..] == rest;
      } else {
        SubsequenceSkip(rest, agents[0], agents[1..]);
        assert [agents[0]] + agents[1..] == agents;
      }
    }
  }

  lemma {:induction false} SubsequenceSelf<T>(xs: seq<T>)
    ensures Subsequence(xs, xs)
  {
    if xs != [] {
      SubsequenceSelf(xs[1..]);
    }
  }

  lemma SomebodyBest(agents: seq<SubagentConfig>, scores: seq<real>)
    requires |scores| == |agents| && !NobodyScores(scores) && forall i :: 0 <= i < |scores| ==> scores[i] >= 0.0
    ensures Scored(agents, scores, Best(scores)) != []
  {
    var best := Best(scores);
    var k :| 0 <= k < |scores| && scores[k] != 0.0;
    assert best >= scores[k] > 0.0;
    var i :| 0 <= i < |scores| && scores[i] == best;
    assert agents[i] in Scored(agents, scores, best);
  }

  /** Whatever the stored routes are, the answer is some of the allowed subagents, and not none of some. */
  lemma OnlyAllowed(routes: StickyRoutes, r: Request)
    requires ValidRequest(r)
    ensures
      var out := Route(routes, r);
      && Subsequence(out.agents, r.subagents)
      && (r.subagents != [] ==> out.agents != [])
  {
    hide Named, Scored, NamesOf, Best, NobodyScores, Confidence, AnyEvidence, Subsequence;
    SubsequenceSelf(r.subagents);
    ScoredSubsequence(r.subagents, r.scores, Best(r.scores));
    var sticky := Recall(routes, r.conversation, NamesOf(r.subagents), r.now).1;
    NamedSubsequence(r.subagents, sticky);
    if sticky != [] {
      NamedNames(r.subagents, sticky, sticky[0]);
    }
    if !NobodyScores(r.scores) {
      SomebodyBest(r.subagents, r.scores);
    }
  }

  /** Remembered names keep their order. */
  lemma {:induction false} KeepInOrder(names: seq<Name>, allowed: seq<Name>)
    ensures Subsequence(Keep(names, allowed), names)
    ensures (forall n :: n in names ==> n in allowed) ==> Keep(names, allowed) == names
  {
    if names != [] {
      var rest := Keep(names[1..], allowed);
      KeepInOrder(names[1..], allowed);
      if names[0] in allowed {
        assert ([names[0]] + rest)[1..] == rest;
      } else {
        assert [] + rest == rest;
        SubsequenceSkip(rest, names[0], names[1..]);
        assert [names[0]] + names[1..] == names;
      }
    }
  }

  lemma {:induction false} NamedNames(agents: seq<SubagentConfig>, names: seq<Name>, n: Name)
    ensures n in NamesOf(Named(agents, names)) <==> n in names && n in NamesOf(agents)
  {
    if agents != [] {
      var rest := Named(agents[1..], names);
      NamedNames(agents[1..], names, n);
      if agents[0].name in names {
        assert ([agents[0]] + rest)[1..] == rest;
      } else {
        assert [] + rest == rest;
      }
    }
  }

  /**
   * The plan describes the returned agents: the same names, and evidence is asked for exactly when one of
   * them requires it, except in the ambiguous fallback, which never asks.
   */
  lemma PlanDescribesAgents(routes: StickyRoutes, r: Request)
    requires ValidRequest(r)
    ensures
      var out := Route(routes, r);
      && (forall n :: n in out.plan.candidates <==> n in NamesOf(out.agents))
      && (out.plan.requiresEvidence <==> !out.plan.reason.AmbiguousFallback? && AnyEvidence(out.agents))
  {
    hide AnyEvidence, Scored, Named, NamesOf, Best, NobodyScores, Confidence;
    var out := Route(routes, r);
    if out.plan.reason.StickyRoute? {
      var sticky := Recall(routes, r.conversation, NamesOf(r.subagents), r.now).1;
      forall n ensures n in out.plan.candidates <==> n in NamesOf(out.agents) {
        NamedNames(r.subagents, sticky, n);
      }
    }
  }

  /**
   * Which branch answers: a confident match is the only capability match and names exactly the best-scoring
   * subagents; the two fallbacks return everybody, the ambiguous one when nobody scores at all.
   */
  lemma ReasonExactly(routes: StickyRoutes, r: Request)
    requires ValidRequest(r)
    ensures
      var out := Route(routes, r);
      && (out.plan.reason.CapabilityMatch? <==> Confident(r.scores))
      && (out.plan.reason.AmbiguousFallback? ==> NobodyScores(r.scores) && out.agents == r.subagents)
      && (out.plan.reason.LowConfidenceFallback? ==>
            !NobodyScores(r.scores) && !Confident(r.scores) && out.agents == r.subagents)
      && (out.plan.reason.CapabilityMatch? ==>
            forall a :: a in out.agents <==>
              exists i :: 0 <= i < |r.subagents| && r.subagents[i] == a && IsBest(r.scores, i))
      && out.plan.confidence == if NobodyScores(r.scores) then 0.0 else Confidence(r.scores)
  {
    hide NamesOf, AnyEvidence, Named, Recall, Confidence, Scored;
    var best := Best(r.scores);
    if !NobodyScores(r.scores) {
      var k :| 0 <= k < |r.scores| && r.scores[k] != 0.0;
      assert best > 0.0 && best in r.scores;
      forall i | 0 <= i < |r.scores| ensures r.scores[i] == best <==> IsBest(r.scores, i) {
        var j :| 0 <= j < |r.scores| && r.scores[j] == best;
      }
    }
  }

  predicate IsBest(scores: seq<real>, i: nat) {
    i < |scores| && forall j :: 0 <= j < |scores| ==> scores[j] <= scores[i]
  }

  class RoutePlanner {
    var routes: StickyRoutes

    constructor ()
      ensures routes == map[]
    {
      routes := map[];
    }

    method RememberSticky(conversation: Option<Name>, candidates: seq<Name>, now: real)
      modifies this
      ensures routes == Remember(old(routes), conversation, candidates, now)
    {
      if conversation.None? || conversation.value.text == "" {
        return;
      }
      routes := routes[conversation.value := Sticky(now + ROUTE_STICKINESS_TTL_SECONDS, candidates)];
    }

    method RecallSticky(conversation: Option<Name>, allowed: seq<Name>, now: real) returns (names: seq<Name>)
      modifies this
      ensures (routes, names) == Recall(old(routes), conversation, allowed, now)
    {
      if conversation.None? || conversation.value.text == "" || conversation.value !in routes {
        return [];
      }
      var entry := routes[conversation.value];
      if entry.expiresAt < now {
        routes := routes - {conversation.value};
        return [];
      }
      names := Keep(entry.candidates, allowed);
    }

    /** Weighs every subagent's terms, scores it, keeps the non-zero scores, and decides. */
    method BuildRoutePlan(
        terms: seq<Term>, vocabularies: seq<Vocabulary>, subagents: seq<SubagentConfig>, conversation: Option<Name>,
      now: real)
      returns (plan: Plan, agents: seq<SubagentConfig>)
      requires |vocabularies| == |subagents|
      modifies this
      ensures Routed(routes, plan, agents) ==
              Route(old(routes), RequestFor(terms, vocabularies, subagents, conversation, now))
      ensures Subsequence(agents, subagents) && (subagents != [] ==> agents != [])
    {
      hide Scores, Route, Capabilities, Subsequence, ValidRequest;
      var capabilities := BuildCapabilities(vocabularies);
      var scores := ScoreAll(capabilities, terms);
      RequestForIsValid(terms, vocabularies, subagents, conversation, now);
      OnlyAllowed(routes, RequestFor(terms, vocabularies, subagents, conversation, now));
      plan, agents := Decide(subagents, scores, conversation, now);
    }

    /** The part of a plan that only looks at the scores. */
    method Decide(subagents: seq<SubagentConfig>, scores: seq<real>, conversation: Option<Name>, now: real)
      returns (plan: Plan, agents: seq<SubagentConfig>)
      requires |scores| == |subagents|
      modifies this
      ensures Routed(routes, plan, agents) == Route(old(routes), Request(subagents, scores, conversation, now))
    {
      hide Share, Best, NextBest, Scored, Recall, Remember, AnyEvidence;
      if NobodyScores(scores) {
        var sticky := RecallSticky(conversation, NamesOf(subagents), now);
        if sticky != [] {
          agents := Named(subagents, sticky);
          plan := Plan(sticky, StickyRoute, 0.0, AnyEvidence(agents));
        } else {
          plan, agents := Plan(NamesOf(subagents), AmbiguousFallback, 0.0, false), subagents;
        }
        return;
      }
      var best := Best(scores);
      var candidates := Scored(subagents, scores, best);
      var confidence := Share(best, NextBest(scores, best));
      if confidence < MIN_ROUTE_CONFIDENCE {
        var sticky := RecallSticky(conversation, NamesOf(subagents), now);
        if sticky != [] {
          agents := Named(subagents, sticky);
          plan := Plan(sticky, StickyRoute, confidence, AnyEvidence(agents));
        } else {
          plan := Plan(NamesOf(subagents), LowConfidenceFallback, confidence, AnyEvidence(subagents));
          agents := subagents;
        }
        return;
      }
      plan, agents := Plan(NamesOf(candidates), CapabilityMatch, confidence, AnyEvidence(candidates)), candidates;
      RememberSticky(conversation, plan.candidates, now);
    }
  }

  // ----- confidence -----

  lemma ShareBounds(best: real, next: real)
    requires 0.0 <= next < best && best >= CONFIDENCE_GUARD
    ensures Share(best, next) == best / (best + next)
    ensures 0.5 < Share(best, next) <= 1.0
    ensures Share(best, next) >= MIN_ROUTE_CONFIDENCE <==> 3.0 * next <= 2.0 * best
  {
    var sum := best + next;
    var q := Share(best, next);
    assert sum == CONFIDENCE_GUARD || sum > CONFIDENCE_GUARD;
    assert q == best / sum;
    assert q * sum == best;
    SignOfProduct(q - 0.5, sum);
    SignOfProduct(1.0 - q, sum);
    SignOfProduct(q - MIN_ROUTE_CONFIDENCE, sum);
    assert (q - 0.5) * sum == best - 0.5 * sum;
    assert (1.0 - q) * sum == sum - best;
    assert (q - MIN_ROUTE_CONFIDENCE) * sum == best - MIN_ROUTE_CONFIDENCE * sum;
  }

  lemma SignOfProduct(x: real, d: real)
    requires d > 0.0
    ensures x * d >= 0.0 <==> x >= 0.0
    ensures x * d > 0.0 <==> x > 0.0
  {
  }

  /**
   * For up to 250 million subagents, whenever anybody scores: the guard against division by zero is
   * inert, the confidence lies in (1/2, 1], and the match is confident exactly when the runner-up scores
   * at most two thirds of the best.
   */
  lemma ConfidenceMeaning(caps: seq<Capability>, terms: seq<Term>)
    requires Weighted(caps) && |caps| <= 250_000_000
    requires !NobodyScores(Scores(caps, caps, terms))
    ensures
      var scores := Scores(caps, caps, terms);
      var best, next := Best(scores), NextBest(scores, Best(scores));
      && best + next >= CONFIDENCE_GUARD
      && Confidence(scores) == best / (best + next)
      && 0.5 < Confidence(scores) <= 1.0
      && (Confident(scores) <==> 3.0 * next <= 2.0 * best)
  {
    hide Scores, Matched, Score, Best, NextBest, Share, Weighted;
    var scores := Scores(caps, caps, terms);
    var best, next := Best(scores), NextBest(scores, Best(scores));
    SomeoneMatched(caps, terms);
    BestScoreBound(caps, terms, best);
    ShareBound(|caps|, Matched(caps, terms), best);
    ShareBounds(best, next);
  }

  lemma SomeoneMatched(caps: seq<Capability>, terms: seq<Term>)
    requires Weighted(caps) && !NobodyScores(Scores(caps, caps, terms))
    ensures Matched(caps, terms) > 0 && |caps| > 0
  {
    var i :| 0 <= i < |caps| && Scores(caps, caps, terms)[i] != 0.0;
    assert Scoring(caps, terms, i);
    SomeScoreIffMatched(caps, terms);
  }

  lemma ShareBound(n: nat, m: nat, best: real)
    requires 0 < n <= 250_000_000 && m > 0 && best >= 0.0
    requires 0.25 * (m as real) <= (n as real) * best
    ensures best >= CONFIDENCE_GUARD
  {
    var most := 250_000_000 as real;
    SignOfProduct(best, most);
    assert (n as real) * best <= most * best;
    assert most * best >= 0.25;
  }
}

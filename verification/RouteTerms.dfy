/** What scores and plans mean in terms of the words of names, descriptions and prompts. */
module RouteTerms {
  import opened Basics
  import opened Delegation
  import opened Subagents
  import opened RouteScores
  import opened Routing

  predicate Uses(v: Vocabulary, t: Term) {
    t in v.primary || t in v.secondary
  }

  /** How many subagents use a term anywhere. */
  function DocumentFrequency(vs: seq<Vocabulary>, t: Term): nat {
    if vs == [] then 0 else (if Uses(vs[0], t) then 1 else 0) + DocumentFrequency(vs[1..], t)
  }

  /** The share of one subagent in a term. */
  function ShareOf(vs: seq<Vocabulary>, t: Term): real {
    if DocumentFrequency(vs, t) == 0 then 0.0 else 1.0 / (DocumentFrequency(vs, t) as real)
  }

  /** The shares in the terms of the name and description. */
  function NameShares(v: Vocabulary, vs: seq<Vocabulary>, terms: seq<Term>): real {
    if terms == [] then 0.0
    else (if terms[0] in v.primary then ShareOf(vs, terms[0]) else 0.0) + NameShares(v, vs, terms[1..])
  }

  /** The shares in the terms found only in the prompt. */
  function PromptShares(v: Vocabulary, vs: seq<Vocabulary>, terms: seq<Term>): real {
    if terms == [] then 0.0
    else
      (if terms[0] in v.secondary && terms[0] !in v.primary then ShareOf(vs, terms[0]) else 0.0)
      + PromptShares(v, vs, terms[1..])
  }

  lemma {:induction false} FrequencyCounts(vs: seq<Vocabulary>, t: Term)
    ensures Frequency(Capabilities(vs), t) == DocumentFrequency(vs, t)
  {
    if vs != [] {
      FrequencyCounts(vs[1..], t);
      assert Capabilities(vs)[1..] == Capabilities(vs[1..]);
    }
  }

  lemma Quarter(d: real)
    requires d > 0.0
    ensures 0.25 / d == 0.25 * (1.0 / d)
  {
    var q := 1.0 / d;
    assert (0.25 * q) * d == 0.25 * (q * d) == 0.25;
  }

  /** One term's part of a score. */
  lemma ContributionIs(v: Vocabulary, vs: seq<Vocabulary>, t: Term)
    ensures Contribution(CapabilityOf(v), t, DocumentFrequency(vs, t)) ==
            if t in v.primary then ShareOf(vs, t) else if t in v.secondary then 0.25 * ShareOf(vs, t) else 0.0
  {
    if DocumentFrequency(vs, t) != 0 {
      Quarter(DocumentFrequency(vs, t) as real);
    }
  }

  /**
   * A score is the sum of the shares in the question's terms that stand in the name or description, and a
   * quarter of the shares in those that stand only in the prompt.
   */
  lemma {:induction false} ScoreIs(v: Vocabulary, vs: seq<Vocabulary>, terms: seq<Term>)
    ensures Score(CapabilityOf(v), Capabilities(vs), terms) ==
            NameShares(v, vs, terms) + 0.25 * PromptShares(v, vs, terms)
  {
    hide Contribution, CapabilityOf, ShareOf;
    if terms != [] {
      FrequencyCounts(vs, terms[0]);
      ContributionIs(v, vs, terms[0]);
      ScoreIs(v, vs, terms[1..]);
      assert 0.25 * (ShareOf(vs, terms[0]) + PromptShares(v, vs, terms[1..]))
          == 0.25 * ShareOf(vs, terms[0]) + 0.25 * PromptShares(v, vs, terms[1..]);
    }
  }

  // ----- moving a term into the name -----

  function Promoted(v: Vocabulary, t: Term): Vocabulary {
    v.(primary := v.primary + [t])
  }

  lemma {:induction false} FrequencyAfter(vs: seq<Vocabulary>, i: nat, t: Term, u: Term)
    requires i < |vs| && t in vs[i].secondary
    ensures DocumentFrequency(vs[i := Promoted(vs[i], t)], u) == DocumentFrequency(vs, u)
  {
    var later := vs[i := Promoted(vs[i], t)];
    if i == 0 {
      assert later[1..] == vs[1..];
    } else {
      FrequencyAfter(vs[1..], i - 1, t, u);
      assert later[1..] == vs[1..][i - 1 := Promoted(vs[i], t)];
    }
  }

  lemma ShareNotNegative(vs: seq<Vocabulary>, t: Term)
    ensures ShareOf(vs, t) >= 0.0
    ensures DocumentFrequency(vs, t) > 0 ==> ShareOf(vs, t) > 0.0
  {
    if DocumentFrequency(vs, t) > 0 {
      var d := DocumentFrequency(vs, t) as real;
      assert ShareOf(vs, t) * d == 1.0;
      SignOfProduct(ShareOf(vs, t), d);
    }
  }

  lemma {:induction false} UsedTermCounts(vs: seq<Vocabulary>, i: nat, t: Term)
    requires i < |vs| && Uses(vs[i], t)
    ensures DocumentFrequency(vs, t) > 0
  {
    if i > 0 {
      UsedTermCounts(vs[1..], i - 1, t);
    }
  }

  /**
   * Moving a term from the prompt of a subagent to its name never lowers its score, raises it if the term is
   * asked for and was not in the name, and leaves all other scores alone.
   */
  lemma {:induction false} PromotionHelps(vs: seq<Vocabulary>, i: nat, t: Term, terms: seq<Term>, j: nat)
    requires i < |vs| && j < |vs| && t in vs[i].secondary
    ensures
      var later := vs[i := Promoted(vs[i], t)];
      var before := Score(CapabilityOf(vs[j]), Capabilities(vs), terms);
      var after := Score(CapabilityOf(later[j]), Capabilities(later), terms);
      && after >= before
      && (j != i ==> after == before)
      && (j == i && t in terms && t !in vs[i].primary ==> after > before)
  {
    hide ShareOf, CapabilityOf, Score;
    var later := vs[i := Promoted(vs[i], t)];
    ScoreIs(vs[j], vs, terms);
    ScoreIs(later[j], later, terms);
    SharesAfter(vs, i, t, terms, j);
  }

  lemma {:induction false} SharesAfter(vs: seq<Vocabulary>, i: nat, t: Term, terms: seq<Term>, j: nat)
    requires i < |vs| && j < |vs| && t in vs[i].secondary
    ensures
      var later := vs[i := Promoted(vs[i], t)];
      var before := NameShares(vs[j], vs, terms) + 0.25 * PromptShares(vs[j], vs, terms);
      var after := NameShares(later[j], later, terms) + 0.25 * PromptShares(later[j], later, terms);
      && after >= before
      && (j != i ==> after == before)
      && (j == i && t in terms && t !in vs[i].primary ==> after > before)
  {
    if terms != [] {
      var u, rest := terms[0], terms[1..];
      FrequencyAfter(vs, i, t, u);
      ShareNotNegative(vs, u);
      if u == t {
        UsedTermCounts(vs, i, t);
      }
      SharesAfter(vs, i, t, rest, j);
      assert ShareOf(vs[i := Promoted(vs[i], t)], u) == ShareOf(vs, u);
      hide ShareOf, DocumentFrequency;
    }
  }

  // ----- one matched term -----

  /** The question matches one term, at position `k`, and nothing else. */
  predicate OneMatched(vs: seq<Vocabulary>, terms: seq<Term>, k: nat) {
    && k < |terms| && DocumentFrequency(vs, terms[k]) > 0
    && forall j :: 0 <= j < |terms| && j != k ==> DocumentFrequency(vs, terms[j]) == 0
  }

  lemma {:induction false} NoShares(v: Vocabulary, vs: seq<Vocabulary>, terms: seq<Term>)
    requires forall j :: 0 <= j < |terms| ==> DocumentFrequency(vs, terms[j]) == 0
    ensures NameShares(v, vs, terms) == 0.0 && PromptShares(v, vs, terms) == 0.0
  {
    if terms != [] {
      NoShares(v, vs, terms[1..]);
    }
  }

  lemma {:induction false} OneShare(v: Vocabulary, vs: seq<Vocabulary>, terms: seq<Term>, k: nat)
    requires OneMatched(vs, terms, k)
    ensures NameShares(v, vs, terms) == if terms[k] in v.primary then ShareOf(vs, terms[k]) else 0.0
    ensures PromptShares(v, vs, terms) ==
            if terms[k] in v.secondary && terms[k] !in v.primary then ShareOf(vs, terms[k]) else 0.0
  {
    if k == 0 {
      NoShares(v, vs, terms[1..]);
    } else {
      OneShare(v, vs, terms[1..], k - 1);
    }
  }

  /** Some subagent has the term in its name or description. */
  predicate NamedAfter(vs: seq<Vocabulary>, t: Term) {
    exists i :: 0 <= i < |vs| && t in vs[i].primary
  }

  /** The subagents a question about one term is for: those named after it, or else those prompted with it. */
  predicate Wanted(vs: seq<Vocabulary>, t: Term, i: nat)
    requires i < |vs|
  {
    if NamedAfter(vs, t) then t in vs[i].primary else t in vs[i].secondary
  }

  lemma {:induction false} SomeoneUses(vs: seq<Vocabulary>, t: Term) returns (i: nat)
    requires DocumentFrequency(vs, t) > 0
    ensures i < |vs| && Uses(vs[i], t)
  {
    if Uses(vs[0], t) {
      i := 0;
    } else {
      i := SomeoneUses(vs[1..], t);
      i := i + 1;
    }
  }

  lemma SomeoneWanted(vs: seq<Vocabulary>, t: Term) returns (i: nat)
    requires DocumentFrequency(vs, t) > 0
    ensures i < |vs| && Wanted(vs, t, i)
  {
    if NamedAfter(vs, t) {
      i :| 0 <= i < |vs| && t in vs[i].primary;
    } else {
      i := SomeoneUses(vs, t);
    }
  }

  /** The scores for a question with one matched term. */
  lemma OneTermScores(vs: seq<Vocabulary>, terms: seq<Term>, k: nat, i: nat)
    requires OneMatched(vs, terms, k) && i < |vs|
    ensures
      var caps, t := Capabilities(vs), terms[k];
      Scores(caps, caps, terms)[i] ==
      if t in vs[i].primary then ShareOf(vs, t) else if t in vs[i].secondary then 0.25 * ShareOf(vs, t) else 0.0
  {
    hide Score, CapabilityOf, ShareOf;
    ScoreIs(vs[i], vs, terms);
    OneShare(vs[i], vs, terms, k);
  }

  /** The best and the next best of those scores. */
  lemma OneTermBest(vs: seq<Vocabulary>, terms: seq<Term>, k: nat)
    requires OneMatched(vs, terms, k)
    ensures
      var caps, t := Capabilities(vs), terms[k];
      var scores := Scores(caps, caps, terms);
      && !NobodyScores(scores)
      && (forall i :: 0 <= i < |vs| ==> (scores[i] == Best(scores) <==> Wanted(vs, t, i)))
      && 3.0 * NextBest(scores, Best(scores)) <= 2.0 * Best(scores)
  {
    hide Scores, CapabilityOf, ShareOf, Best, NextBest, Capabilities;
    var caps, t := Capabilities(vs), terms[k];
    var scores, q := Scores(caps, caps, terms), ShareOf(vs, t);
    ShareNotNegative(vs, t);
    forall i | 0 <= i < |vs|
      ensures scores[i] == if t in vs[i].primary then q else if t in vs[i].secondary then 0.25 * q else 0.0
    {
      OneTermScores(vs, terms, k, i);
    }
    var wanted := SomeoneWanted(vs, t);
    var top := if NamedAfter(vs, t) then q else 0.25 * q;
    assert scores[wanted] == top > 0.0;
    assert forall i :: 0 <= i < |scores| ==> scores[i] <= top;
    assert Best(scores) == top;
    assert forall i :: 0 <= i < |scores| && scores[i] < top ==> scores[i] <= 0.25 * q;
    if NextBest(scores, top) > 0.0 {
      var i :| 0 <= i < |scores| && scores[i] == NextBest(scores, top);
    }
  }

  /**
   * For up to 250 million subagents, a question that matches one term is answered with a confident match on
   * exactly the subagents that have it in their name or description, or, if there are none, in their prompt.
   */
  lemma OneTermPlan(
      routes: StickyRoutes, terms: seq<Term>, vs: seq<Vocabulary>, subagents: seq<SubagentConfig>,
      conversation: Option<Name>, now: real, k: nat)
    requires |vs| == |subagents| <= 250_000_000 && OneMatched(vs, terms, k)
    ensures
      var out := Route(routes, RequestFor(terms, vs, subagents, conversation, now));
      && out.plan.reason.CapabilityMatch?
      && forall a :: a in out.agents <==>
           exists i :: 0 <= i < |subagents| && subagents[i] == a && Wanted(vs, terms[k], i)
  {
    hide Scores, Best, NextBest, Share, Capabilities, Scored, Wanted, NamesOf, AnyEvidence, NobodyScores, OneMatched;
    var caps := Capabilities(vs);
    OneTermBest(vs, terms, k);
    ConfidenceMeaning(caps, terms);
    var r := RequestFor(terms, vs, subagents, conversation, now);
    var out := Route(routes, r);
    assert out.agents == Scored(subagents, r.scores, Best(r.scores));
  }
}

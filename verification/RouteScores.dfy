/** Inverse-document-frequency scoring of the subagents against the terms of a question, in exact reals. */
module RouteScores {
  import opened Basics
  import opened Delegation

  type Term = Name

  /** The weight a subagent gives to each of its terms. */
  type Capability = map<Term, real>

  const PRIMARY := 1.0
  const SECONDARY := 0.25

  /** The terms of a subagent: those of its name and description, and those of its prompt. */
  datatype Vocabulary = Vocabulary(primary: seq<Term>, secondary: seq<Term>)

  function CapabilityOf(v: Vocabulary): Capability {
    map t | t in v.primary + v.secondary :: if t in v.primary then PRIMARY else SECONDARY
  }

  ghost predicate Weighted(caps: seq<Capability>) {
    forall i, t :: 0 <= i < |caps| && t in caps[i] ==> SECONDARY <= caps[i][t] <= PRIMARY
  }

  function Capabilities(vs: seq<Vocabulary>): (r: seq<Capability>)
    ensures |r| == |vs| && Weighted(r) && forall i :: 0 <= i < |r| ==> r[i] == CapabilityOf(vs[i])
  {
    if vs == [] then [] else [CapabilityOf(vs[0])] + Capabilities(vs[1..])
  }

  /** Terms of the name and description weigh fully; terms found only in the prompt weigh a quarter. */
  method BuildCapability(v: Vocabulary) returns (weights: Capability)
    ensures weights == CapabilityOf(v)
  {
    weights := map[];
    for i := 0 to |v.primary|
      invariant forall t :: t in weights <==> t in v.primary[..i]
      invariant forall t :: t in weights ==> weights[t] == PRIMARY
    {
      weights := weights[v.primary[i] := PRIMARY];
    }
    assert v.primary[..|v.primary|] == v.primary;
    for i := 0 to |v.secondary|
      invariant forall t :: t in weights <==> t in v.primary || t in v.secondary[..i]
      invariant forall t :: t in weights ==> weights[t] == if t in v.primary then PRIMARY else SECONDARY
    {
      if v.secondary[i] !in weights {
        weights := weights[v.secondary[i] := SECONDARY];
      }
    }
    assert v.secondary[..|v.secondary|] == v.secondary;
  }

  method BuildCapabilities(vs: seq<Vocabulary>) returns (capabilities: seq<Capability>)
    ensures capabilities == Capabilities(vs)
  {
    hide CapabilityOf, Weighted;
    capabilities := [];
    for i := 0 to |vs|
      invariant capabilities == Capabilities(vs)[..i]
    {
      var capability := BuildCapability(vs[i]);
      capabilities := capabilities + [capability];
    }
  }

  /** In how many of the capabilities a term occurs. */
  function Frequency(caps: seq<Capability>, t: Term): nat {
    if caps == [] then 0 else (if t in caps[0] then 1 else 0) + Frequency(caps[1..], t)
  }

  /** What one term contributes to a subagent's score, when it occurs `df` times. */
  function Contribution(cap: Capability, t: Term, df: nat): real {
    if t in cap && df != 0 then cap[t] / (df as real) else 0.0
  }

  function Score(cap: Capability, caps: seq<Capability>, terms: seq<Term>): real {
    if terms == [] then 0.0
    else Contribution(cap, terms[0], Frequency(caps, terms[0])) + Score(cap, caps, terms[1..])
  }

  /** The sum of the scores of the subagents in `some`, each scored against all of them. */
  function TotalScore(some: seq<Capability>, caps: seq<Capability>, terms: seq<Term>): real {
    if some == [] then 0.0 else Score(some[0], caps, terms) + TotalScore(some[1..], caps, terms)
  }

  function WeightSum(caps: seq<Capability>, t: Term): real {
    if caps == [] then 0.0 else (if t in caps[0] then caps[0][t] else 0.0) + WeightSum(caps[1..], t)
  }

  /** The average weight of a term over the subagents that have it. */
  function AverageWeight(caps: seq<Capability>, t: Term): real {
    if Frequency(caps, t) == 0 then 0.0 else WeightSum(caps, t) / (Frequency(caps, t) as real)
  }

  function AverageSum(caps: seq<Capability>, terms: seq<Term>): real {
    if terms == [] then 0.0 else AverageWeight(caps, terms[0]) + AverageSum(caps, terms[1..])
  }

  /** How many of the terms some subagent has. */
  function Matched(caps: seq<Capability>, terms: seq<Term>): nat {
    if terms == [] then 0 else (if Frequency(caps, terms[0]) > 0 then 1 else 0) + Matched(caps, terms[1..])
  }

  function ContributionSum(some: seq<Capability>, t: Term, df: nat): real {
    if some == [] then 0.0 else Contribution(some[0], t, df) + ContributionSum(some[1..], t, df)
  }

  lemma {:induction false} TermFirst(some: seq<Capability>, caps: seq<Capability>, terms: seq<Term>)
    requires terms != []
    ensures TotalScore(some, caps, terms)
         == ContributionSum(some, terms[0], Frequency(caps, terms[0])) + TotalScore(some, caps, terms[1..])
  {
    if some != [] {
      TermFirst(some[1..], caps, terms);
    }
  }

  lemma {:induction false} NoTermsNoScore(some: seq<Capability>, caps: seq<Capability>)
    ensures TotalScore(some, caps, []) == 0.0
  {
    if some != [] {
      NoTermsNoScore(some[1..], caps);
    }
  }

  lemma {:induction false} ContributionsAddUp(some: seq<Capability>, t: Term, df: nat)
    ensures ContributionSum(some, t, df) == if df == 0 then 0.0 else WeightSum(some, t) / (df as real)
  {
    if some != [] {
      ContributionsAddUp(some[1..], t, df);
      if df != 0 {
        var d := df as real;
        var w := if t in some[0] then some[0][t] else 0.0;
        assert w / d + WeightSum(some[1..], t) / d == (w + WeightSum(some[1..], t)) / d;
      }
    }
  }

  /** Scores are conserved: over all subagents they add up to the average weights of the terms. */
  lemma {:induction false} ScoresAddUp(caps: seq<Capability>, terms: seq<Term>)
    ensures TotalScore(caps, caps, terms) == AverageSum(caps, terms)
  {
    if terms == [] {
      NoTermsNoScore(caps, caps);
    } else {
      TermFirst(caps, caps, terms);
      ContributionsAddUp(caps, terms[0], Frequency(caps, terms[0]));
      ScoresAddUp(caps, terms[1..]);
    }
  }

  lemma {:induction false} WeightBounds(caps: seq<Capability>, t: Term)
    requires Weighted(caps)
    ensures SECONDARY * (Frequency(caps, t) as real) <= WeightSum(caps, t) <= PRIMARY * (Frequency(caps, t) as real)
  {
    if caps != [] {
      assert Weighted(caps[1..]);
      WeightBounds(caps[1..], t);
    }
  }

  lemma AverageBounds(caps: seq<Capability>, t: Term)
    requires Weighted(caps)
    ensures if Frequency(caps, t) == 0 then AverageWeight(caps, t) == 0.0
            else SECONDARY <= AverageWeight(caps, t) <= PRIMARY
  {
    if Frequency(caps, t) != 0 {
      WeightBounds(caps, t);
      QuotientBounds(WeightSum(caps, t), Frequency(caps, t) as real);
    }
  }

  lemma QuotientBounds(w: real, d: real)
    requires d > 0.0 && SECONDARY * d <= w <= PRIMARY * d
    ensures SECONDARY <= w / d <= PRIMARY
  {
    var q := w / d;
    assert q * d == w;
    FactorSign(q - SECONDARY, d);
    FactorSign(PRIMARY - q, d);
  }

  lemma FactorSign(x: real, d: real)
    requires d > 0.0 && x * d >= 0.0
    ensures x >= 0.0
  {
  }

  /** Hence the total lies between a quarter and the whole of the number of matched terms. */
  lemma {:induction false} TotalBounds(caps: seq<Capability>, terms: seq<Term>)
    requires Weighted(caps)
    ensures 0.25 * (Matched(caps, terms) as real) <= AverageSum(caps, terms) <= Matched(caps, terms) as real
  {
    if terms != [] {
      AverageBounds(caps, terms[0]);
      TotalBounds(caps, terms[1..]);
    }
  }

  // ----- scores of all subagents -----

  function Scores(some: seq<Capability>, caps: seq<Capability>, terms: seq<Term>): (r: seq<real>)
    ensures |r| == |some|
    ensures forall i :: 0 <= i < |some| ==> r[i] == Score(some[i], caps, terms)
  {
    if some == [] then [] else [Score(some[0], caps, terms)] + Scores(some[1..], caps, terms)
  }

  method ScoreAll(capabilities: seq<Capability>, terms: seq<Term>) returns (scores: seq<real>)
    ensures scores == Scores(capabilities, capabilities, terms)
  {
    hide Score;
    scores := [];
    for i := 0 to |capabilities|
      invariant scores == Scores(capabilities, capabilities, terms)[..i]
    {
      scores := scores + [Score(capabilities[i], capabilities, terms)];
    }
  }

  function Sum(xs: seq<real>): real {
    if xs == [] then 0.0 else xs[0] + Sum(xs[1..])
  }

  lemma {:induction false} ScoresSum(some: seq<Capability>, caps: seq<Capability>, terms: seq<Term>)
    ensures Sum(Scores(some, caps, terms)) == TotalScore(some, caps, terms)
  {
    if some != [] {
      ScoresSum(some[1..], caps, terms);
      assert Scores(some, caps, terms)[1..] == Scores(some[1..], caps, terms);
    }
  }

  lemma {:induction false} ScoreNotNegative(cap: Capability, caps: seq<Capability>, terms: seq<Term>)
    requires forall t :: t in cap ==> cap[t] >= SECONDARY
    ensures Score(cap, caps, terms) >= 0.0
  {
    if terms != [] {
      ScoreNotNegative(cap, caps, terms[1..]);
      var df := Frequency(caps, terms[0]);
      if terms[0] in cap && df != 0 {
        QuotientNotNegative(cap[terms[0]], df as real);
      }
    }
  }

  lemma QuotientNotNegative(w: real, d: real)
    requires d > 0.0 && w >= 0.0
    ensures w / d >= 0.0
  {
  }

  lemma {:induction false} SumBounded(xs: seq<real>, bound: real)
    requires forall i :: 0 <= i < |xs| ==> xs[i] <= bound
    ensures Sum(xs) <= (|xs| as real) * bound
  {
    if xs != [] {
      SumBounded(xs[1..], bound);
      assert (|xs| as real) == (|xs[1..]| as real) + 1.0;
      assert ((|xs[1..]| as real) + 1.0) * bound == (|xs[1..]| as real) * bound + bound;
    }
  }

  lemma {:induction false} AllZeroSum(xs: seq<real>)
    requires forall i :: 0 <= i < |xs| ==> xs[i] == 0.0
    ensures Sum(xs) == 0.0
  {
    if xs != [] {
      AllZeroSum(xs[1..]);
    }
  }

  lemma {:induction false} NoMatchNoScore(cap: Capability, caps: seq<Capability>, terms: seq<Term>)
    requires Matched(caps, terms) == 0
    ensures Score(cap, caps, terms) == 0.0
  {
    if terms != [] {
      NoMatchNoScore(cap, caps, terms[1..]);
    }
  }

  predicate Scoring(caps: seq<Capability>, terms: seq<Term>, i: nat)
    requires i < |caps|
  {
    Score(caps[i], caps, terms) != 0.0
  }

  /** Some subagent scores at all exactly when some term is matched. */
  lemma SomeScoreIffMatched(caps: seq<Capability>, terms: seq<Term>)
    requires Weighted(caps)
    ensures (exists i :: 0 <= i < |caps| && Scoring(caps, terms, i)) <==> Matched(caps, terms) > 0
  {
    if Matched(caps, terms) == 0 {
      forall i | 0 <= i < |caps| ensures !Scoring(caps, terms, i) {
        NoMatchNoScore(caps[i], caps, terms);
      }
    } else {
      ScoresSum(caps, caps, terms);
      ScoresAddUp(caps, terms);
      TotalBounds(caps, terms);
      SomeNonZero(Scores(caps, caps, terms));
      var i :| 0 <= i < |caps| && Scores(caps, caps, terms)[i] != 0.0;
      assert Scoring(caps, terms, i);
    }
  }

  lemma SomeNonZero(xs: seq<real>)
    requires Sum(xs) != 0.0
    ensures exists i :: 0 <= i < |xs| && xs[i] != 0.0
  {
    if forall i :: 0 <= i < |xs| ==> xs[i] == 0.0 {
      AllZeroSum(xs);
      assert false;
    }
  }

  /** The best score is at least a quarter of the matched terms, shared among all subagents. */
  lemma BestScoreBound(caps: seq<Capability>, terms: seq<Term>, best: real)
    requires Weighted(caps)
    requires forall i :: 0 <= i < |caps| ==> Scores(caps, caps, terms)[i] <= best
    ensures 0.25 * (Matched(caps, terms) as real) <= (|caps| as real) * best
  {
    hide Weighted, Scores, Matched, AverageSum, TotalScore, Sum;
    ScoresSum(caps, caps, terms);
    ScoresAddUp(caps, terms);
    TotalBounds(caps, terms);
    SumBounded(Scores(caps, caps, terms), best);
  }
}

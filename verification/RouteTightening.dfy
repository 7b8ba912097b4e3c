/** Tightening constraints under any ranking: exactly when the winner stays the winner. */
module RouteTightening {
  import opened Types
  import opened Sorting
  import opened Paths
  import opened Quality
  import opened Ranking
  import opened Routing
  import opened RouteSelection

  // ---- What a change of the nominal maximum does to a score ----

  /** The total weight of the nominal-bandwidth factors. */
  function NominalWeight(ranking: seq<RouteFactor>): real
  {
    if ranking == [] then 0.0
    else
      var f := ranking[|ranking| - 1];
      NominalWeight(ranking[..|ranking| - 1]) + if f.key.NominalBandwidth? then f.weight else 0.0
  }

  /** By how much one unit of nominal bandwidth counts for more after the maximum fell from `before` to `after`. */
  function Rescale(before: real, after: real): real
    requires before > 0.0 && after > 0.0
  {
    1.0 / after - 1.0 / before
  }

  lemma Fraction(n: real, m: real)
    requires 0.0 <= n <= m && m > 0.0
    ensures 0.0 <= n / m <= 1.0 && n / m == n * (1.0 / m)
  {
  }

  lemma NominalValue(q: PathQuality, c: FactorContext)
    requires q.nominalBandwidth as real <= c.maxNominal && c.maxNominal > 0.0
    ensures FactorValue(NominalBandwidth, q, c) == q.nominalBandwidth as real * (1.0 / c.maxNominal)
  {
    Fraction(q.nominalBandwidth as real, c.maxNominal);
  }

  lemma OtherValue(key: FactorKey, q: PathQuality, c: FactorContext, d: FactorContext)
    requires c.maxMeasured == d.maxMeasured && !key.NominalBandwidth?
    ensures FactorValue(key, q, c) == FactorValue(key, q, d)
  {
  }

  lemma Weighted(w: real, n: real, x: real, y: real)
    ensures w * (n * y) == w * (n * x) + w * (n * (y - x))
  {
    assert n * y == n * x + n * (y - x);
    Distributes(w, n * x, n * (y - x));
  }

  lemma Distributes(w: real, x: real, y: real)
    ensures w * (x + y) == w * x + w * y
  {
  }

  lemma SumDistributes(v: real, w: real, x: real)
    ensures (v + w) * x == v * x + w * x
  {
  }

  ghost predicate WithinContext(q: PathQuality, c: FactorContext)
  {
    q.nominalBandwidth as real <= c.maxNominal && c.maxNominal > 0.0
  }

  lemma {:induction false} RescaledScore(ranking: seq<RouteFactor>, q: PathQuality, c: FactorContext, d: FactorContext)
    requires c.maxMeasured == d.maxMeasured && WithinContext(q, c) && WithinContext(q, d)
    ensures Score(ranking, q, d) == Score(ranking, q, c) +
              NominalWeight(ranking) * (q.nominalBandwidth as real * Rescale(c.maxNominal, d.maxNominal))
  {
    hide FactorValue, Rescale;
    var n, r := q.nominalBandwidth as real, Rescale(c.maxNominal, d.maxNominal);
    if ranking != [] {
      var f, front := ranking[|ranking| - 1], ranking[..|ranking| - 1];
      RescaledScore(front, q, c, d);
      if f.key.NominalBandwidth? {
        NominalTerm(f.weight, q, c, d);
        SumDistributes(NominalWeight(front), f.weight, n * r);
      } else {
        OtherValue(f.key, q, c, d);
      }
    }
  }

  lemma NominalTerm(w: real, q: PathQuality, c: FactorContext, d: FactorContext)
    requires WithinContext(q, c) && WithinContext(q, d)
    ensures w * FactorValue(NominalBandwidth, q, d) == w * FactorValue(NominalBandwidth, q, c) +
              w * (q.nominalBandwidth as real * Rescale(c.maxNominal, d.maxNominal))
  {
    NominalValue(q, c);
    NominalValue(q, d);
    hide FactorValue;
    Weighted(w, q.nominalBandwidth as real, 1.0 / c.maxNominal, 1.0 / d.maxNominal);
  }

  lemma ContextBounds(evals: seq<Eval>)
    ensures ContextOf(evals).maxNominal >= 1.0
    ensures forall k :: 0 <= k < |evals| ==> WithinContext(evals[k].quality, ContextOf(evals))
  {
    hide ContextOf;
    ContextIsMaximum(evals);
    forall k | 0 <= k < |evals|
      ensures WithinContext(evals[k].quality, ContextOf(evals))
    {
      assert HasNominal(evals, k, evals[k].quality.nominalBandwidth as real);
    }
  }

  // ---- Margins ----

  /** The levels of the comparison below the score. */
  predicate BetterAtTie(a: Eval, b: Eval)
  {
    Better(a.(score := 0.0), b.(score := 0.0))
  }

  /** The margin by which x beats y is more than y gains on x by the rescaling, or it is exactly that and the other
    * levels, then the order of discovery, favour x. */
  predicate StaysAhead(x: Eval, y: Eval, weight: real, rescale: real, first: bool)
  {
    var margin := x.score - y.score;
    var gain := weight * (y.quality.nominalBandwidth as real * rescale)
              - weight * (x.quality.nominalBandwidth as real * rescale);
    margin > gain || (margin == gain && if first then !BetterAtTie(y, x) else BetterAtTie(x, y))
  }

  function Shifted(e: Eval, weight: real, rescale: real): Eval
  {
    e.(score := e.score + weight * (e.quality.nominalBandwidth as real * rescale))
  }

  lemma AheadAfterShift(x: Eval, y: Eval, weight: real, rescale: real, first: bool)
    ensures var x', y' := Shifted(x, weight, rescale), Shifted(y, weight, rescale);
            StaysAhead(x, y, weight, rescale, first) <==> if first then !Better(y', x') else Better(x', y')
  {
  }

  lemma AheadBothWays(x: Eval, y: Eval)
    ensures Better(x, y) ==> !Better(y, x)
  {
  }

  /** `at` and j say where the remaining candidates, and the winner among them, stood before. */
  ghost predicate Remaining(evals: seq<Eval>, fewer: seq<Eval>, at: seq<nat>, i: nat, j: nat)
  {
    && Rising(at, |evals|) && |at| == |fewer|
    && (forall k :: 0 <= k < |fewer| ==> fewer[k] == evals[at[k]])
    && j < |fewer| && at[j] == i
  }

  /** Against every remaining candidate the margin of the winner outweighs what rescaling takes away. */
  ghost predicate MarginsHold(scored: seq<Eval>, at: seq<nat>, j: nat, weight: real, rescale: real)
    requires Rising(at, |scored|) && j < |at|
  {
    forall k :: 0 <= k < |at| && k != j ==> StaysAhead(scored[at[j]], scored[at[k]], weight, rescale, j < k)
  }

  lemma FirstIff(scored: seq<Eval>, after: seq<Eval>, at: seq<nat>, j: nat, weight: real, rescale: real)
    requires Rising(at, |scored|) && |after| == |at| && j < |at|
    requires forall k :: 0 <= k < |at| ==> after[k] == Shifted(scored[at[k]], weight, rescale)
    ensures IsFirst(after, Better, j) <==> MarginsHold(scored, at, j, weight, rescale)
  {
    hide Better, Shifted, StaysAhead;
    forall k | 0 <= k < |at|
      ensures StaysAhead(scored[at[j]], scored[at[k]], weight, rescale, j < k) <==>
                if j < k then !Better(after[k], after[j]) else Better(after[j], after[k])
      ensures Better(after[j], after[k]) ==> !Better(after[k], after[j])
      ensures !Better(after[j], after[j])
    {
      AheadAfterShift(scored[at[j]], scored[at[k]], weight, rescale, j < k);
      AheadBothWays(after[j], after[k]);
      NeverBetterThanItself(after[j]);
    }
  }

  lemma ShiftedScore(ranking: seq<RouteFactor>, e: Eval, c: FactorContext, d: FactorContext)
    requires c.maxMeasured == d.maxMeasured && WithinContext(e.quality, c) && WithinContext(e.quality, d)
    ensures e.(score := Score(ranking, e.quality, d))
         == Shifted(e.(score := Score(ranking, e.quality, c)), NominalWeight(ranking),
                    Rescale(c.maxNominal, d.maxNominal))
  {
    hide Score, NominalWeight, Rescale;
    RescaledScore(ranking, e.quality, c, d);
  }

  lemma ShiftedScores(ranking: seq<RouteFactor>, evals: seq<Eval>, fewer: seq<Eval>, at: seq<nat>, i: nat, j: nat)
    requires Remaining(evals, fewer, at, i, j)
    requires ContextOf(fewer).maxMeasured == ContextOf(evals).maxMeasured
    ensures ContextOf(evals).maxNominal >= 1.0 && ContextOf(fewer).maxNominal >= 1.0
    ensures var c, d := ContextOf(evals), ContextOf(fewer);
            forall k :: 0 <= k < |fewer| ==>
              Scored(ranking, d, fewer)[k]
                == Shifted(Scored(ranking, c, evals)[at[k]], NominalWeight(ranking),
                           Rescale(c.maxNominal, d.maxNominal))
  {
    hide Score, ContextOf, Rescale, NominalWeight, WithinContext, Shifted;
    ContextBounds(evals);
    ContextBounds(fewer);
    var c, d := ContextOf(evals), ContextOf(fewer);
    forall k | 0 <= k < |fewer|
      ensures Scored(ranking, d, fewer)[k]
           == Shifted(Scored(ranking, c, evals)[at[k]], NominalWeight(ranking), Rescale(c.maxNominal, d.maxNominal))
    {
      ShiftedScore(ranking, fewer[k], c, d);
    }
  }

  /** For every ranking, a winner that passes the tighter constraints stays the winner exactly when against every
    * remaining candidate its margin in the looser decision is at least what that candidate gains by the new nominal
    * maximum, ties going by the other levels and the order of discovery. Without a nominal-bandwidth factor, or with
    * the maximum unmoved, the gain is 0. */
  lemma TighteningKeepsWinnerIff(view: View, hash: PathHash, limits: Limits, loose: RoutePolicy, tight: RoutePolicy,
                                 source: nat, target: nat, i: nat) returns (at: seq<nat>, j: nat)
    requires Tighter(tight.hard, loose.hard) && tight.ranking == loose.ranking
    requires Wins(view, loose, Enumerated(view.topology, hash, source, target, limits), i)
    requires i < |Eligible(view, loose.hard, Enumerated(view.topology, hash, source, target, limits))|
    requires ReasonFor(view, tight.hard,
                       Eligible(view, loose.hard, Enumerated(view.topology, hash, source, target, limits))[i].path)
          == NotRejected
    ensures var paths := Enumerated(view.topology, hash, source, target, limits);
            var evals, fewer := Eligible(view, loose.hard, paths), Eligible(view, tight.hard, paths);
            var c, d := ContextOf(evals), ContextOf(fewer);
            Remaining(evals, fewer, at, i, j) && c.maxNominal >= 1.0 && d.maxNominal >= 1.0 &&
            (Wins(view, tight, paths, j) <==>
              MarginsHold(Scored(loose.ranking, c, evals), at, j, NominalWeight(loose.ranking),
                          Rescale(c.maxNominal, d.maxNominal)))
  {
    hide Enumerated, Eligible, Score, Better, ContextOf, ReasonFor, Assessed, StableSort, IsFirst, Tighter, MarginsHold,
         Rescale, NominalWeight, Shifted;
    var paths := Enumerated(view.topology, hash, source, target, limits);
    EnumeratedEnds(view.topology, hash, source, target, limits);
    var evals, fewer := Eligible(view, loose.hard, paths), Eligible(view, tight.hard, paths);
    var kept := EligiblePositions(view, loose.hard, paths);
    var left := EligiblePositions(view, tight.hard, paths);
    KeptShrinks(view, loose.hard, tight.hard, paths, kept, left);
    at := Embedding(kept, left, |paths|);
    assert kept[i] in left;
    j :| 0 <= j < |left| && left[j] == kept[i];
    RisingInjective(kept, |paths|, at[j], i);
    SameMaxMeasured(view, loose.hard, tight.hard, paths, kept, left, source, target);
    ShiftedScores(loose.ranking, evals, fewer, at, i, j);
    var c, d := ContextOf(evals), ContextOf(fewer);
    var after := Scored(loose.ranking, d, fewer);
    FirstIff(Scored(loose.ranking, c, evals), after, at, j, NominalWeight(loose.ranking),
             Rescale(c.maxNominal, d.maxNominal));
    WinsIffFirst(view, tight, paths, j);
  }

  lemma WinsIffFirst(view: View, policy: RoutePolicy, paths: seq<Path>, j: nat)
    requires Eligible(view, policy.hard, paths) != []
    ensures var evals := Eligible(view, policy.hard, paths);
            Wins(view, policy, paths, j) <==> IsFirst(Scored(policy.ranking, ContextOf(evals), evals), Better, j)
  {
    hide Eligible, Score, Better, ContextOf, StableSort, IsFirst;
    var evals := Eligible(view, policy.hard, paths);
    var scored := Scored(policy.ranking, ContextOf(evals), evals);
    BetterIsStrictWeakOrder();
    var f := FrontOfSort(scored, Better);
    if IsFirst(scored, Better, j) {
      FirstIsUnique(scored, Better, f, j);
    }
  }
}

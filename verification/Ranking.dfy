/** Weighted scores of named route factors, over exact reals. */
module Ranking {
  import opened Types
  import opened Quality

  datatype FactorKey =
    | Directness | HopCount | MeasuredBandwidth | NominalBandwidth | MeasuredLatency | Degradation | Contention
    | Freshness | Confidence | PolicyPreference
    | Unnamed(code: nat)

  datatype RouteFactor = RouteFactor(key: FactorKey, weight: real)

  datatype HardConstraint = HardConstraint(
    requireSupportedLinks: bool,
    requireCurrentTopology: bool,
    requireFresh: bool,
    minNominal: Option<nat>,
    minMeasured: Option<real>,
    requiredTechnology: Option<Technology>,
    maxHops: Option<nat>,
    requireDirect: bool,
    excludeDegraded: bool,
    excludeDown: bool,
    excludeContended: bool)

  datatype RoutePolicy = RoutePolicy(id: nat, hard: HardConstraint, ranking: seq<RouteFactor>)

  const DEFAULT_HARD := HardConstraint(true, true, true, None, None, None, None, false, false, true, false)

  const DEFAULT_RANKING := [
    RouteFactor(Directness, 3.0),
    RouteFactor(HopCount, 2.0),
    RouteFactor(MeasuredBandwidth, 4.0),
    RouteFactor(MeasuredLatency, 1.0),
    RouteFactor(Degradation, 5.0),
    RouteFactor(Freshness, 1.0),
    RouteFactor(Confidence, 1.0)]

  const DEFAULT_POLICY := RoutePolicy(0, DEFAULT_HARD, DEFAULT_RANKING)

  /** The largest bandwidths among the eligible candidates, and at least 1. */
  datatype FactorContext = FactorContext(maxNominal: real, maxMeasured: real)

  function Clamp01(v: real): real
  {
    if v < 0.0 then 0.0 else if v > 1.0 then 1.0 else v
  }

  function ConfidenceValue(e: Evidence): real
  {
    match e.evidenceClass
    case Real => 1.0
    case Synthetic => 0.5
    case _ => 0.0
  }

  function FactorValue(key: FactorKey, q: PathQuality, ctx: FactorContext): real
  {
    match key
    case Directness => if q.direct then 1.0 else 0.0
    case HopCount => 1.0 / (q.hopCount + 1) as real
    case MeasuredBandwidth =>
      if q.measuredBandwidth.None? || ctx.maxMeasured <= 0.0 then 0.0
      else Clamp01(q.measuredBandwidth.value / ctx.maxMeasured)
    case NominalBandwidth =>
      if ctx.maxNominal <= 0.0 then 0.0 else Clamp01(q.nominalBandwidth as real / ctx.maxNominal)
    case MeasuredLatency => if q.measuredLatency.None? then 0.0 else 1.0 / (1.0 + q.measuredLatency.value)
    case Degradation => if q.degradedLinks == 0 then 1.0 else 0.0
    case Contention => if q.outcome.Contended? then 0.0 else 1.0
    case Freshness => if q.stale then 0.0 else 1.0
    case Confidence => ConfidenceValue(q.evidence)
    case PolicyPreference => 0.5
    case Unnamed(_) => 0.0
  }

  function Score(ranking: seq<RouteFactor>, q: PathQuality, ctx: FactorContext): real
  {
    if ranking == [] then 0.0
    else
      var f := ranking[|ranking| - 1];
      Score(ranking[..|ranking| - 1], q, ctx) + f.weight * FactorValue(f.key, q, ctx)
  }

  method ScorePath(policy: RoutePolicy, q: PathQuality, ctx: FactorContext) returns (score: real)
    ensures score == Score(policy.ranking, q, ctx)
  {
    hide FactorValue;
    var ranking := policy.ranking;
    score := 0.0;
    for i := 0 to |ranking|
      invariant score == Score(ranking[..i], q, ctx)
    {
      assert ranking[..i + 1][..i] == ranking[..i];
      score := score + ranking[i].weight * FactorValue(ranking[i].key, q, ctx);
    }
    assert ranking[..|ranking|] == ranking;
  }

  lemma Reciprocal(d: real)
    requires d >= 1.0
    ensures 0.0 < 1.0 / d <= 1.0
  {
  }

  lemma ReciprocalShrinks(c: real, d: real)
    requires 0.0 < c <= d
    ensures 1.0 / d <= 1.0 / c
  {
    assert 1.0 / c - 1.0 / d == (d - c) / (c * d);
    assert c * d > 0.0;
  }

  /** Every factor is normalised. */
  lemma FactorsAreNormalised(key: FactorKey, q: PathQuality, ctx: FactorContext)
    ensures 0.0 <= FactorValue(key, q, ctx) <= 1.0
  {
    match key
    case HopCount => Reciprocal((q.hopCount + 1) as real);
    case MeasuredLatency =>
      if q.measuredLatency.Some? {
        Reciprocal(1.0 + q.measuredLatency.value);
      }
    case _ =>
  }

  /** The default score spelled out. */
  lemma DefaultScore(q: PathQuality, ctx: FactorContext)
    ensures Score(DEFAULT_RANKING, q, ctx) ==
              3.0 * FactorValue(Directness, q, ctx) + 2.0 * FactorValue(HopCount, q, ctx) +
              4.0 * FactorValue(MeasuredBandwidth, q, ctx) + FactorValue(MeasuredLatency, q, ctx) +
              5.0 * FactorValue(Degradation, q, ctx) + FactorValue(Freshness, q, ctx) + FactorValue(Confidence, q, ctx)
  {
    hide FactorValue;
    var r := DEFAULT_RANKING;
    ScoreLast(r[..0], r[0], q, ctx);
    ScoreLast(r[..1], r[1], q, ctx);
    ScoreLast(r[..2], r[2], q, ctx);
    ScoreLast(r[..3], r[3], q, ctx);
    ScoreLast(r[..4], r[4], q, ctx);
    ScoreLast(r[..5], r[5], q, ctx);
    ScoreLast(r[..6], r[6], q, ctx);
    assert r[..1] == r[..0] + [r[0]];
    assert r[..2] == r[..1] + [r[1]];
    assert r[..3] == r[..2] + [r[2]];
    assert r[..4] == r[..3] + [r[3]];
    assert r[..5] == r[..4] + [r[4]];
    assert r[..6] == r[..5] + [r[5]];
    assert r == r[..6] + [r[6]];
  }

  lemma ScoreLast(front: seq<RouteFactor>, f: RouteFactor, q: PathQuality, ctx: FactorContext)
    ensures Score(front + [f], q, ctx) == Score(front, q, ctx) + f.weight * FactorValue(f.key, q, ctx)
  {
    hide FactorValue;
    assert (front + [f])[..|front|] == front;
  }

  /** What candidates of one call have in common under a policy that requires fresh evidence. */
  ghost predicate SameEvidence(a: PathQuality, b: PathQuality)
  {
    && a.measuredBandwidth == b.measuredBandwidth
    && a.measuredLatency == b.measuredLatency
    && a.stale == b.stale
  }

  /** Path lengths as enumeration makes them. */
  ghost predicate ProperHops(q: PathQuality)
  {
    q.hopCount >= 1 && (q.direct <==> q.hopCount == 1)
  }

  lemma SharedFactors(a: PathQuality, b: PathQuality, ctx: FactorContext)
    requires SameEvidence(a, b)
    ensures FactorValue(MeasuredBandwidth, a, ctx) == FactorValue(MeasuredBandwidth, b, ctx)
    ensures FactorValue(MeasuredLatency, a, ctx) == FactorValue(MeasuredLatency, b, ctx)
    ensures FactorValue(Freshness, a, ctx) == FactorValue(Freshness, b, ctx)
  {
  }

  lemma HopValues(q: PathQuality, ctx: FactorContext)
    requires ProperHops(q)
    ensures 0.0 < FactorValue(HopCount, q, ctx) <= 0.5
    ensures q.direct ==> FactorValue(HopCount, q, ctx) == 0.5
    ensures !q.direct ==> 3.0 * FactorValue(HopCount, q, ctx) <= 1.0
  {
    var d := (q.hopCount + 1) as real;
    Reciprocal(d);
    ReciprocalShrinks(2.0, d);
    if !q.direct {
      ReciprocalShrinks(3.0, d);
    }
  }

  /** The weight 5 of an undegraded path outweighs everything else that can differ: 3 for directness, 2 times
    * the hop factor (at most 1/2), and 1 for confidence. */
  lemma UndegradedScoresHigher(a: PathQuality, b: PathQuality, ctx: FactorContext)
    requires SameEvidence(a, b) && ProperHops(a) && ProperHops(b)
    requires a.degradedLinks == 0 && b.degradedLinks > 0
    ensures Score(DEFAULT_RANKING, a, ctx) > Score(DEFAULT_RANKING, b, ctx)
  {
    DefaultScore(a, ctx);
    DefaultScore(b, ctx);
    SharedFactors(a, b, ctx);
    HopValues(a, ctx);
    HopValues(b, ctx);
    FactorsAreNormalised(Confidence, a, ctx);
    FactorsAreNormalised(Confidence, b, ctx);
    assert FactorValue(Degradation, a, ctx) == 1.0 && FactorValue(Degradation, b, ctx) == 0.0;
    hide Score;
    FactorsAreNormalised(Directness, a, ctx);
    FactorsAreNormalised(Directness, b, ctx);
    hide FactorValue;
  }

  /** At equal degradation, directness (3 + 1) outweighs the rest (2/3 + 1). */
  lemma DirectScoresHigher(a: PathQuality, b: PathQuality, ctx: FactorContext)
    requires SameEvidence(a, b) && ProperHops(a) && ProperHops(b)
    requires (a.degradedLinks == 0) == (b.degradedLinks == 0) && a.direct && !b.direct
    ensures Score(DEFAULT_RANKING, a, ctx) > Score(DEFAULT_RANKING, b, ctx)
  {
    DefaultScore(a, ctx);
    DefaultScore(b, ctx);
    SharedFactors(a, b, ctx);
    HopValues(a, ctx);
    HopValues(b, ctx);
    FactorsAreNormalised(Confidence, a, ctx);
    FactorsAreNormalised(Confidence, b, ctx);
    assert FactorValue(Degradation, a, ctx) == FactorValue(Degradation, b, ctx);
    assert FactorValue(Directness, a, ctx) == 1.0 && FactorValue(Directness, b, ctx) == 0.0;
    hide Score, FactorValue;
  }

  /** Only the nominal-bandwidth factor looks at the nominal maximum, and only the measured one at the other. */
  lemma {:induction false} ScoreIgnoresContext(ranking: seq<RouteFactor>, q: PathQuality, c: FactorContext,
                                               d: FactorContext)
    requires c.maxMeasured == d.maxMeasured
    requires c.maxNominal == d.maxNominal || forall i :: 0 <= i < |ranking| ==> !ranking[i].key.NominalBandwidth?
    ensures Score(ranking, q, c) == Score(ranking, q, d)
  {
    if ranking != [] {
      ScoreIgnoresContext(ranking[..|ranking| - 1], q, c, d);
    }
  }

  // ---- What each factor prefers ----

  function Or0(m: Option<Magnitude>): real
  {
    if m.Some? then m.value else 0.0
  }

  /** Real evidence before synthetic before any other. */
  function Trust(e: EvidenceClass): nat
  {
    if e == EvidenceClass.Real then 2 else if e == EvidenceClass.Synthetic then 1 else 0
  }

  /** The context covers the candidate: no bandwidth of it exceeds the maxima, which are positive. */
  predicate Covers(ctx: FactorContext, q: PathQuality)
  {
    && ctx.maxMeasured > 0.0 && ctx.maxNominal > 0.0
    && Or0(q.measuredBandwidth) <= ctx.maxMeasured && q.nominalBandwidth as real <= ctx.maxNominal
  }

  lemma QuotientOrder(a: real, b: real, d: real)
    requires d > 0.0
    ensures a / d > b / d <==> a > b
  {
    assert a / d - b / d == (a - b) / d;
    QuotientSign(a - b, d);
  }

  lemma QuotientSign(a: real, d: real)
    requires d > 0.0
    ensures a / d > 0.0 <==> a > 0.0
  {
    assert a == (a / d) * d;
  }

  lemma QuotientRange(a: real, d: real)
    requires 0.0 <= a <= d && d > 0.0
    ensures 0.0 <= a / d <= 1.0
  {
    QuotientSign(a, d);
    QuotientSign(-a, d);
    if a / d > 1.0 {
      QuotientSign((a / d - 1.0) * d, d);
      assert (a / d - 1.0) * d == a - d;
    }
  }

  lemma ReciprocalOrder(c: real, d: real)
    requires c > 0.0 && d > 0.0
    ensures 1.0 / c > 1.0 / d <==> c < d
  {
    assert 1.0 / c - 1.0 / d == (d - c) / (c * d);
    assert c * d > 0.0;
    QuotientSign(d - c, c * d);
  }

  /** A factor is strictly greater for one candidate than for another exactly when: */
  lemma FactorPrefers(key: FactorKey, a: PathQuality, b: PathQuality, ctx: FactorContext)
    requires Covers(ctx, a) && Covers(ctx, b)
    ensures FactorValue(key, a, ctx) > FactorValue(key, b, ctx) <==>
              match key
              case Directness => a.direct && !b.direct
              case HopCount => a.hopCount < b.hopCount
              case MeasuredBandwidth => Or0(a.measuredBandwidth) > Or0(b.measuredBandwidth)
              case NominalBandwidth => a.nominalBandwidth > b.nominalBandwidth
              case MeasuredLatency =>
                a.measuredLatency.Some? &&
                (b.measuredLatency.Some? ==> a.measuredLatency.value < b.measuredLatency.value)
              case Degradation => a.degradedLinks == 0 && b.degradedLinks > 0
              case Contention => a.outcome != PathOutcome.Contended && b.outcome == PathOutcome.Contended
              case Freshness => !a.stale && b.stale
              case Confidence => Trust(a.evidence.evidenceClass) > Trust(b.evidence.evidenceClass)
              case PolicyPreference => false
              case Unnamed(_) => false
  {
    match key
    case HopCount => ReciprocalOrder((a.hopCount + 1) as real, (b.hopCount + 1) as real);
    case MeasuredBandwidth =>
      QuotientOrder(Or0(a.measuredBandwidth), Or0(b.measuredBandwidth), ctx.maxMeasured);
      QuotientRange(Or0(a.measuredBandwidth), ctx.maxMeasured);
      QuotientRange(Or0(b.measuredBandwidth), ctx.maxMeasured);
    case NominalBandwidth =>
      QuotientOrder(a.nominalBandwidth as real, b.nominalBandwidth as real, ctx.maxNominal);
      QuotientRange(a.nominalBandwidth as real, ctx.maxNominal);
      QuotientRange(b.nominalBandwidth as real, ctx.maxNominal);
    case MeasuredLatency =>
      if a.measuredLatency.Some? {
        Reciprocal(1.0 + a.measuredLatency.value);
        if b.measuredLatency.Some? {
          ReciprocalOrder(1.0 + a.measuredLatency.value, 1.0 + b.measuredLatency.value);
        }
      }
      if b.measuredLatency.Some? {
        Reciprocal(1.0 + b.measuredLatency.value);
      }
    case _ =>
  }

  /** The scale of each factor: its product with what it is inverse or proportional to, and the two ends of the rest. */
  lemma FactorScale(key: FactorKey, q: PathQuality, ctx: FactorContext)
    requires Covers(ctx, q)
    ensures var v := FactorValue(key, q, ctx);
            match key
            case HopCount => v * (q.hopCount + 1) as real == 1.0
            case MeasuredBandwidth => v * ctx.maxMeasured == Or0(q.measuredBandwidth)
            case NominalBandwidth => v * ctx.maxNominal == q.nominalBandwidth as real
            case MeasuredLatency =>
              if q.measuredLatency.Some? then v * (1.0 + q.measuredLatency.value) == 1.0 else v == 0.0
            case Confidence => 2.0 * v == Trust(q.evidence.evidenceClass) as real
            case PolicyPreference => 2.0 * v == 1.0
            case Unnamed(_) => v == 0.0
            case _ => v in {0.0, 1.0}
  {
    match key
    case MeasuredBandwidth => QuotientRange(Or0(q.measuredBandwidth), ctx.maxMeasured);
    case NominalBandwidth => QuotientRange(q.nominalBandwidth as real, ctx.maxNominal);
    case _ =>
  }
}

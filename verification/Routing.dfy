/** Route decisions: hard constraints, ranking, outcome, and the fence that keeps a decision executable. */
module Routing {
  import opened Types
  import opened Sorting
  import opened Registry
  import opened Paths
  import opened Quality
  import opened Ranking

  datatype RejectionReason =
    | NotRejected | EndpointUnknown | EndpointAbsent | EndpointStaleGeneration | LinkNotSupported | LinkIsDown
    | LinkBelowMinimum | LinkStaleGeneration | TopologyStale | EvidenceMissing | FreshnessViolation
    | MinCapabilityUnmet | TechnologyExcluded | PolicyExcluded | PathTooDeep | NotDirect

  datatype RouteOutcome =
    | RouteAllowed | RouteAllowedDegraded | NoRoute | StaleTopology | RevalidationRequired | Unsupported
    | InsufficientEvidence | PolicyRejected | EndpointStale | LinkStale

  datatype RejectedCandidate = RejectedCandidate(path: nat, reason: RejectionReason)

  /** Identity, generation and time that a decision is stamped with. */
  datatype Stamp = Stamp(id: nat, routeGeneration: nat, createdAt: Timestamp)

  datatype RouteDecision = RouteDecision(
    stamp: Stamp,
    source: nat,
    target: nat,
    topologyGeneration: nat,
    sourceGeneration: nat,
    targetGeneration: nat,
    policy: nat,
    candidates: seq<nat>,
    rejected: seq<RejectedCandidate>,
    selected: Option<nat>,
    outcome: RouteOutcome,
    executable: bool)

  datatype Eval = Eval(path: Path, quality: PathQuality, score: real)

  // ---- Hard constraints, in the order they are applied ----

  predicate SupportedState(l: LinkRecord)
  {
    l.state.Up? || l.state.Present? || l.state.Supported? || l.state.Degraded?
  }

  function LinkReason(r: Option<LinkRecord>): RejectionReason
  {
    if r.None? then LinkIsDown
    else if SupportedState(r.value) then NotRejected
    else if Is(r.value, DownLink) then LinkIsDown
    else if r.value.state.Unsupported? then LinkNotSupported
    else if r.value.state.Stale? then LinkStaleGeneration
    else if r.value.state.RevalidationRequired? then FreshnessViolation
    else LinkIsDown
  }

  /** The first link that is not in a supported state decides. */
  function SupportReason(rs: seq<Option<LinkRecord>>): RejectionReason
  {
    if rs == [] then NotRejected
    else
      var earlier := SupportReason(rs[..|rs| - 1]);
      if earlier != NotRejected then earlier else LinkReason(rs[|rs| - 1])
  }

  predicate OffTechnology(rs: seq<Option<LinkRecord>>, t: Technology)
  {
    exists i :: 0 <= i < |rs| && (rs[i].None? || rs[i].value.technology != t)
  }

  predicate OutOfDate(q: PathQuality)
  {
    q.outcome.RevalidationRequired? || q.stale
  }

  /** Why a candidate is rejected. */
  function Reason(rs: seq<Option<LinkRecord>>, hard: HardConstraint, p: Path, q: PathQuality): RejectionReason
  {
    if hard.requireSupportedLinks && SupportReason(rs) != NotRejected then SupportReason(rs)
    else if hard.requireFresh && OutOfDate(q) then FreshnessViolation
    else if hard.requireDirect && !p.direct then NotDirect
    else if hard.minNominal.Some? && q.nominalBandwidth < hard.minNominal.value then MinCapabilityUnmet
    else if hard.minMeasured.Some? && q.measuredBandwidth.None? then EvidenceMissing
    else if hard.minMeasured.Some? && q.measuredBandwidth.value < hard.minMeasured.value then MinCapabilityUnmet
    else if hard.requiredTechnology.Some? && OffTechnology(rs, hard.requiredTechnology.value) then TechnologyExcluded
    else if hard.maxHops.Some? && p.hopCount > hard.maxHops.value then PathTooDeep
    else if hard.excludeDegraded && q.degradedLinks > 0 then LinkBelowMinimum
    else if hard.excludeDown && q.downLinks > 0 then LinkIsDown
    else if hard.excludeContended && q.contended then PolicyExcluded
    else NotRejected
  }

  /** Whether the candidate fell to the freshness stage itself, having passed the support stage. */
  predicate FreshnessStage(rs: seq<Option<LinkRecord>>, hard: HardConstraint, q: PathQuality)
  {
    !(hard.requireSupportedLinks && SupportReason(rs) != NotRejected) && hard.requireFresh && OutOfDate(q)
  }

  // What the policy asks of a candidate, constraint by constraint and in terms of its links.

  ghost predicate SupportMet(rs: seq<Option<LinkRecord>>, hard: HardConstraint)
  {
    hard.requireSupportedLinks ==> forall i :: 0 <= i < |rs| ==> rs[i].Some? && SupportedState(rs[i].value)
  }

  ghost predicate FreshnessMet(rs: seq<Option<LinkRecord>>, hard: HardConstraint)
  {
    hard.requireFresh ==> forall i :: 0 <= i < |rs| && rs[i].Some? ==> !Is(rs[i].value, OutdatedLink)
  }

  ghost predicate DirectnessMet(hard: HardConstraint, p: Path)
  {
    hard.requireDirect ==> p.direct
  }

  ghost predicate NominalMet(rs: seq<Option<LinkRecord>>, hard: HardConstraint)
  {
    hard.minNominal.Some? ==> Nominal(rs) >= hard.minNominal.value
  }

  ghost predicate MeasuredMet(hard: HardConstraint, best: Option<MeasurementRecord>)
  {
    hard.minMeasured.Some? ==> best.Some? && best.value.bandwidth >= hard.minMeasured.value
  }

  ghost predicate TechnologyMet(rs: seq<Option<LinkRecord>>, hard: HardConstraint)
  {
    hard.requiredTechnology.Some? ==>
      forall i :: 0 <= i < |rs| ==> rs[i].Some? && rs[i].value.technology == hard.requiredTechnology.value
  }

  ghost predicate HopsMet(hard: HardConstraint, p: Path)
  {
    hard.maxHops.Some? ==> p.hopCount <= hard.maxHops.value
  }

  ghost predicate UndegradedMet(rs: seq<Option<LinkRecord>>, hard: HardConstraint)
  {
    hard.excludeDegraded ==> forall i :: 0 <= i < |rs| && rs[i].Some? ==> !Is(rs[i].value, DegradedLink)
  }

  ghost predicate NotDownMet(rs: seq<Option<LinkRecord>>, hard: HardConstraint)
  {
    hard.excludeDown ==> forall i :: 0 <= i < |rs| ==> rs[i].Some? && !Is(rs[i].value, DownLink)
  }

  ghost predicate UncontendedMet(hard: HardConstraint, best: Option<MeasurementRecord>)
  {
    hard.excludeContended ==> !(best.Some? && best.value.contended)
  }

  ghost predicate Satisfies(rs: seq<Option<LinkRecord>>, hard: HardConstraint, p: Path, best: Option<MeasurementRecord>)
  {
    && SupportMet(rs, hard) && FreshnessMet(rs, hard) && DirectnessMet(hard, p) && NominalMet(rs, hard)
    && MeasuredMet(hard, best) && TechnologyMet(rs, hard) && HopsMet(hard, p) && UndegradedMet(rs, hard)
    && NotDownMet(rs, hard) && UncontendedMet(hard, best)
  }

  lemma {:induction false} SupportMeansAll(rs: seq<Option<LinkRecord>>)
    ensures SupportReason(rs) == NotRejected <==>
              forall i :: 0 <= i < |rs| ==> rs[i].Some? && SupportedState(rs[i].value)
  {
    if rs != [] {
      SupportMeansAll(rs[..|rs| - 1]);
    }
  }

  lemma {:induction false} CountIsNone(rs: seq<Option<LinkRecord>>, a: Aspect)
    ensures Count(rs, a) == 0 <==> forall i :: 0 <= i < |rs| && rs[i].Some? ==> !Is(rs[i].value, a)
  {
    hide Is;
    if rs != [] {
      CountIsNone(rs[..|rs| - 1], a);
    }
  }

  lemma {:induction false} MissingCountIsNone(rs: seq<Option<LinkRecord>>)
    ensures MissingCount(rs) == 0 <==> forall i :: 0 <= i < |rs| ==> rs[i].Some?
  {
    if rs != [] {
      MissingCountIsNone(rs[..|rs| - 1]);
    }
  }

  lemma DownMeans(rs: seq<Option<LinkRecord>>)
    ensures MissingCount(rs) + Count(rs, DownLink) == 0 <==>
              forall i :: 0 <= i < |rs| ==> rs[i].Some? && !Is(rs[i].value, DownLink)
  {
    hide Is, Count, MissingCount;
    CountIsNone(rs, DownLink);
    MissingCountIsNone(rs);
  }

  lemma AnyMeans(rs: seq<Option<LinkRecord>>, a: Aspect)
    ensures Any(rs, a) <==> !forall i :: 0 <= i < |rs| && rs[i].Some? ==> !Is(rs[i].value, a)
  {
    hide Is;
  }

  lemma OutdatedMeans(topology: Topology, ms: seq<MeasurementRecord>, p: Path)
    ensures OutOfDate(QualityOf(topology, ms, p)) <==> Any(Traversed(topology.links, p.elements), OutdatedLink)
  {
    hide Is, Any, Count, MissingCount, Missing, Nominal, Traversed, BestMeasurement, EvidenceOf, GenerationOf;
  }

  /** The first link that is missing or not in a supported state. */
  ghost predicate FirstUnsupported(rs: seq<Option<LinkRecord>>, i: nat)
  {
    && i < |rs| && !(rs[i].Some? && SupportedState(rs[i].value))
    && forall j :: 0 <= j < i ==> rs[j].Some? && SupportedState(rs[j].value)
  }

  lemma {:induction false} SupportReasonIsFirst(rs: seq<Option<LinkRecord>>, i: nat)
    requires FirstUnsupported(rs, i)
    ensures SupportReason(rs) != NotRejected
    ensures var r := SupportReason(rs);
            if rs[i].None? then r == LinkIsDown
            else
              var state := rs[i].value.state;
              (r == LinkNotSupported <==> state == LinkState.Unsupported) &&
              (r == LinkStaleGeneration <==> state == LinkState.Stale) &&
              (r == FreshnessViolation <==> state == LinkState.RevalidationRequired) &&
              (r == LinkIsDown <==>
                state !in {LinkState.Unsupported, LinkState.Stale, LinkState.RevalidationRequired})
    decreases |rs|
  {
    var n := |rs| - 1;
    if i < n {
      assert forall j :: 0 <= j < n ==> rs[..n][j] == rs[j];
      SupportReasonIsFirst(rs[..n], i);
    } else {
      SupportMeansAll(rs[..n]);
    }
  }

  /** The reason names the first constraint, in this order, that the candidate violates. */
  lemma ReasonIsFirstViolation(topology: Topology, ms: seq<MeasurementRecord>, hard: HardConstraint, p: Path)
    ensures var rs, best := Traversed(topology.links, p.elements), BestMeasurement(ms, p.source, p.target);
            Reason(rs, hard, p, QualityOf(topology, ms, p)) ==
              if !SupportMet(rs, hard) then SupportReason(rs)
              else if !FreshnessMet(rs, hard) then FreshnessViolation
              else if !DirectnessMet(hard, p) then NotDirect
              else if !NominalMet(rs, hard) then MinCapabilityUnmet
              else if !MeasuredMet(hard, best) then if best.None? then EvidenceMissing else MinCapabilityUnmet
              else if !TechnologyMet(rs, hard) then TechnologyExcluded
              else if !HopsMet(hard, p) then PathTooDeep
              else if !UndegradedMet(rs, hard) then LinkBelowMinimum
              else if !NotDownMet(rs, hard) then LinkIsDown
              else if !UncontendedMet(hard, best) then PolicyExcluded
              else NotRejected
  {
    hide Is, Any, Count, MissingCount, Nominal, Traversed, BestMeasurement, EvidenceOf, GenerationOf, OutcomeOf,
         Missing, SupportReason, SupportedState, OutOfDate;
    var rs := Traversed(topology.links, p.elements);
    SupportMeansAll(rs);
    OutdatedMeans(topology, ms, p);
    AnyMeans(rs, OutdatedLink);
    CountIsNone(rs, DegradedLink);
    DownMeans(rs);
  }

  /** A candidate survives the filter exactly when it satisfies every enabled constraint. */
  lemma EligibleMeansSatisfies(topology: Topology, ms: seq<MeasurementRecord>, hard: HardConstraint, p: Path)
    ensures var rs := Traversed(topology.links, p.elements);
            Reason(rs, hard, p, QualityOf(topology, ms, p)) == NotRejected <==>
              Satisfies(rs, hard, p, BestMeasurement(ms, p.source, p.target))
  {
    hide Reason, Traversed, BestMeasurement, QualityOf, SupportReason;
    SupportMeansAll(Traversed(topology.links, p.elements));
    ReasonIsFirstViolation(topology, ms, hard, p);
  }

  // ---- The filter ----

  lemma SupportOneMore(rs: seq<Option<LinkRecord>>, r: Option<LinkRecord>)
    ensures SupportReason(rs + [r]) == if SupportReason(rs) != NotRejected then SupportReason(rs) else LinkReason(r)
  {
    hide LinkReason;
    assert (rs + [r])[..|rs|] == rs;
  }

  lemma {:induction false} SupportDecided(links: seq<LinkRecord>, elements: seq<PathElement>, i: nat)
    requires i <= |elements| && SupportReason(Traversed(links, elements[..i])) != NotRejected
    ensures SupportReason(Traversed(links, elements)) == SupportReason(Traversed(links, elements[..i]))
    decreases |elements| - i
  {
    hide SupportReason, Traversed, FindLink;
    if i < |elements| {
      TraversedOneMore(links, elements, i);
      var r := if elements[i].LinkElement? then FindLink(links, elements[i].link) else None;
      SupportOneMore(Traversed(links, elements[..i]), r);
      SupportDecided(links, elements, i + 1);
    } else {
      assert elements[..i] == elements;
    }
  }

  method JudgeSupport(links: seq<LinkRecord>, elements: seq<PathElement>) returns (r: RejectionReason)
    ensures r == SupportReason(Traversed(links, elements))
  {
    hide FindLink, Traversed, SupportReason;
    r := NotRejected;
    NothingTraversed(links, elements[..0]);
    for i := 0 to |elements|
      invariant r == NotRejected == SupportReason(Traversed(links, elements[..i]))
    {
      TraversedOneMore(links, elements, i);
      if elements[i].DeviceElement? {
        continue;
      }
      var l := FindLink(links, elements[i].link);
      SupportOneMore(Traversed(links, elements[..i]), l);
      if l.None? {
        r := LinkIsDown;
        SupportDecided(links, elements, i + 1);
        return;
      }
      if !SupportedState(l.value) {
        var state := l.value.state;
        if state.Down? || state.Absent? || state.Unreachable? {
          r := LinkIsDown;
        } else if state.Unsupported? {
          r := LinkNotSupported;
        } else if state.Stale? {
          r := LinkStaleGeneration;
        } else if state.RevalidationRequired? {
          r := FreshnessViolation;
        } else {
          r := LinkIsDown;
        }
        SupportDecided(links, elements, i + 1);
        return;
      }
    }
    assert elements[..|elements|] == elements;
  }

  lemma NothingTraversed(links: seq<LinkRecord>, elements: seq<PathElement>)
    requires elements == []
    ensures Traversed(links, elements) == [] && SupportReason(Traversed(links, elements)) == NotRejected
    ensures forall t :: !OffTechnology(Traversed(links, elements), t)
  {
  }

  lemma OffTechnologyOneMore(rs: seq<Option<LinkRecord>>, r: Option<LinkRecord>, t: Technology)
    ensures OffTechnology(rs + [r], t) <==> OffTechnology(rs, t) || r.None? || r.value.technology != t
  {
    var all := rs + [r];
    assert all[|rs|] == r;
    if OffTechnology(rs, t) {
      var i :| 0 <= i < |rs| && (rs[i].None? || rs[i].value.technology != t);
      assert all[i] == rs[i];
    }
  }

  lemma {:induction false} TechnologyDecided(links: seq<LinkRecord>, elements: seq<PathElement>, i: nat, t: Technology)
    requires i <= |elements| && OffTechnology(Traversed(links, elements[..i]), t)
    ensures OffTechnology(Traversed(links, elements), t)
    decreases |elements| - i
  {
    hide OffTechnology, Traversed, FindLink;
    if i < |elements| {
      TraversedOneMore(links, elements, i);
      var r := if elements[i].LinkElement? then FindLink(links, elements[i].link) else None;
      OffTechnologyOneMore(Traversed(links, elements[..i]), r, t);
      TechnologyDecided(links, elements, i + 1, t);
    } else {
      assert elements[..i] == elements;
    }
  }

  method JudgeTechnology(links: seq<LinkRecord>, elements: seq<PathElement>, t: Technology) returns (off: bool)
    ensures off == OffTechnology(Traversed(links, elements), t)
  {
    hide FindLink, Traversed, OffTechnology;
    NothingTraversed(links, elements[..0]);
    for i := 0 to |elements|
      invariant !OffTechnology(Traversed(links, elements[..i]), t)
    {
      TraversedOneMore(links, elements, i);
      if elements[i].DeviceElement? {
        continue;
      }
      var l := FindLink(links, elements[i].link);
      OffTechnologyOneMore(Traversed(links, elements[..i]), l, t);
      if l.None? || l.value.technology != t {
        TechnologyDecided(links, elements, i + 1, t);
        return true;
      }
    }
    assert elements[..|elements|] == elements;
    off := false;
  }

  /** The stages in order: once a candidate is ineligible the later ones are skipped. */
  method Judge(links: seq<LinkRecord>, hard: HardConstraint, p: Path, q: PathQuality)
    returns (reason: RejectionReason, freshness: bool)
    ensures reason == Reason(Traversed(links, p.elements), hard, p, q)
    ensures freshness == FreshnessStage(Traversed(links, p.elements), hard, q)
  {
    hide Traversed, SupportReason, OffTechnology;
    reason, freshness := NotRejected, false;
    if hard.requireSupportedLinks {
      reason := JudgeSupport(links, p.elements);
    }
    if reason == NotRejected && hard.requireFresh {
      if q.outcome.RevalidationRequired? {
        reason, freshness := FreshnessViolation, true;
      } else if q.stale {
        reason, freshness := FreshnessViolation, true;
      }
    }
    if reason == NotRejected && hard.requireDirect && !p.direct {
      reason := NotDirect;
    }
    if reason == NotRejected && hard.minNominal.Some? && q.nominalBandwidth < hard.minNominal.value {
      reason := MinCapabilityUnmet;
    }
    if reason == NotRejected && hard.minMeasured.Some? {
      if q.measuredBandwidth.None? {
        reason := EvidenceMissing;
      } else if q.measuredBandwidth.value < hard.minMeasured.value {
        reason := MinCapabilityUnmet;
      }
    }
    if reason == NotRejected && hard.requiredTechnology.Some? {
      var off := JudgeTechnology(links, p.elements, hard.requiredTechnology.value);
      if off {
        reason := TechnologyExcluded;
      }
    }
    if reason == NotRejected && hard.maxHops.Some? && p.hopCount > hard.maxHops.value {
      reason := PathTooDeep;
    }
    if reason == NotRejected && hard.excludeDegraded && q.degradedLinks > 0 {
      reason := LinkBelowMinimum;
    }
    if reason == NotRejected && hard.excludeDown && q.downLinks > 0 {
      reason := LinkIsDown;
    }
    if reason == NotRejected && hard.excludeContended && q.contended {
      reason := PolicyExcluded;
    }
  }

  /** One consistent view of the registry. */
  datatype View = View(topology: Topology, measurements: seq<MeasurementRecord>)

  function Assessed(view: View, p: Path): PathQuality
  {
    QualityOf(view.topology, view.measurements, p)
  }

  function ReasonFor(view: View, hard: HardConstraint, p: Path): RejectionReason
  {
    Reason(Traversed(view.topology.links, p.elements), hard, p, Assessed(view, p))
  }

  function Eligible(view: View, hard: HardConstraint, paths: seq<Path>): seq<Eval>
  {
    if paths == [] then []
    else
      var p := paths[|paths| - 1];
      Eligible(view, hard, paths[..|paths| - 1]) +
      if ReasonFor(view, hard, p) == NotRejected then [Eval(p, Assessed(view, p), 0.0)] else []
  }

  function Rejected(view: View, hard: HardConstraint, paths: seq<Path>): seq<RejectedCandidate>
  {
    if paths == [] then []
    else
      var p := paths[|paths| - 1];
      Rejected(view, hard, paths[..|paths| - 1]) +
      if ReasonFor(view, hard, p) == NotRejected then [] else [RejectedCandidate(p.id, ReasonFor(view, hard, p))]
  }

  /** Some rejected candidate runs over an unsupported link. */
  predicate RejectedUnsupported(view: View, hard: HardConstraint, paths: seq<Path>)
  {
    exists i :: 0 <= i < |paths| && ReasonFor(view, hard, paths[i]) != NotRejected &&
                Assessed(view, paths[i]).outcome.Unsupported?
  }

  /** Some candidate was rejected by the freshness stage itself. */
  predicate RejectedAsOutdated(view: View, hard: HardConstraint, paths: seq<Path>)
  {
    exists i :: 0 <= i < |paths| &&
                FreshnessStage(Traversed(view.topology.links, paths[i].elements), hard, Assessed(view, paths[i]))
  }

  method FilterPaths(view: View, hard: HardConstraint, paths: seq<Path>)
    returns (evals: seq<Eval>, rejected: seq<RejectedCandidate>, anyUnsupported: bool, anyFreshness: bool)
    ensures evals == Eligible(view, hard, paths)
    ensures rejected == Rejected(view, hard, paths)
    ensures anyUnsupported == RejectedUnsupported(view, hard, paths)
    ensures anyFreshness == RejectedAsOutdated(view, hard, paths)
  {
    hide Traversed, Reason, QualityOf, FreshnessStage;
    evals, rejected, anyUnsupported, anyFreshness := [], [], false, false;
    for i := 0 to |paths|
      invariant evals == Eligible(view, hard, paths[..i])
      invariant rejected == Rejected(view, hard, paths[..i])
      invariant anyUnsupported == RejectedUnsupported(view, hard, paths[..i])
      invariant anyFreshness == RejectedAsOutdated(view, hard, paths[..i])
    {
      var p := paths[i];
      assert paths[..i + 1][..i] == paths[..i];
      assert forall j :: 0 <= j < i ==> paths[..i][j] == paths[j] == paths[..i + 1][j];
      var q := ComputeQuality(view.topology, view.measurements, p);
      var reason, freshness := Judge(view.topology.links, hard, p, q);
      assert paths[..i + 1][i] == p;
      if freshness {
        anyFreshness := true;
      }
      if reason != NotRejected {
        if q.outcome.Unsupported? {
          anyUnsupported := true;
        }
        rejected := rejected + [RejectedCandidate(p.id, reason)];
      } else {
        evals := evals + [Eval(p, q, 0.0)];
      }
    }
    assert paths[..|paths|] == paths;
  }

  // ---- Ranking ----

  predicate Higher(a: Option<Magnitude>, b: Option<Magnitude>)
  {
    if a.Some? != b.Some? then a.Some? else a.Some? && a.value > b.value
  }

  predicate Lower(a: Option<Magnitude>, b: Option<Magnitude>)
  {
    if a.Some? != b.Some? then a.Some? else a.Some? && a.value < b.value
  }

  predicate Better(a: Eval, b: Eval)
  {
    if a.score != b.score then a.score > b.score
    else if a.path.direct != b.path.direct then a.path.direct
    else if a.path.hopCount != b.path.hopCount then a.path.hopCount < b.path.hopCount
    else if a.quality.nominalBandwidth != b.quality.nominalBandwidth then
      a.quality.nominalBandwidth > b.quality.nominalBandwidth
    else if Higher(a.quality.measuredBandwidth, b.quality.measuredBandwidth) then true
    else if Higher(b.quality.measuredBandwidth, a.quality.measuredBandwidth) then false
    else if Lower(a.quality.measuredLatency, b.quality.measuredLatency) then true
    else if Lower(b.quality.measuredLatency, a.quality.measuredLatency) then false
    else a.path.id < b.path.id
  }

  lemma BetterTransitive(x: Eval, y: Eval, z: Eval)
    ensures Better(x, y) && Better(y, z) ==> Better(x, z)
  {
  }

  lemma BetterSeparates(x: Eval, y: Eval, z: Eval)
    ensures Better(x, z) ==> Better(x, y) || Better(y, z)
  {
  }

  /** The seven-level comparison orders candidates consistently: ties are transitive and no cycle is possible. */
  lemma BetterIsStrictWeakOrder()
    ensures StrictWeakOrder(Better)
  {
    hide Better;
    forall x, y, z
      ensures Better(x, y) && Better(y, z) ==> Better(x, z)
      ensures Better(x, z) ==> Better(x, y) || Better(y, z)
    {
      BetterTransitive(x, y, z);
      BetterSeparates(x, y, z);
    }
    forall x
      ensures !Better(x, x)
    {
      NeverBetterThanItself(x);
    }
  }

  lemma NeverBetterThanItself(x: Eval)
    ensures !Better(x, x)
  {
  }

  function Larger(a: real, b: real): real
  {
    if a < b then b else a
  }

  function ContextOf(evals: seq<Eval>): FactorContext
  {
    if evals == [] then FactorContext(1.0, 1.0)
    else
      var c, q := ContextOf(evals[..|evals| - 1]), evals[|evals| - 1].quality;
      FactorContext(Larger(c.maxNominal, q.nominalBandwidth as real),
                    if q.measuredBandwidth.Some? then Larger(c.maxMeasured, q.measuredBandwidth.value)
                    else c.maxMeasured)
  }

  ghost predicate HasNominal(evals: seq<Eval>, i: nat, b: real)
  {
    i < |evals| && evals[i].quality.nominalBandwidth as real == b
  }

  ghost predicate HasMeasured(evals: seq<Eval>, i: nat, b: real)
  {
    i < |evals| && evals[i].quality.measuredBandwidth.Some? && evals[i].quality.measuredBandwidth.value == b
  }

  /** The context holds the largest bandwidths among the evaluations, but at least 1. */
  lemma {:induction false} ContextIsMaximum(evals: seq<Eval>)
    ensures var c := ContextOf(evals);
            c.maxNominal >= 1.0 && c.maxMeasured >= 1.0 &&
            (forall i: nat, b :: HasNominal(evals, i, b) ==> b <= c.maxNominal) &&
            (forall i: nat, b :: HasMeasured(evals, i, b) ==> b <= c.maxMeasured) &&
            (c.maxNominal == 1.0 || exists i: nat :: HasNominal(evals, i, c.maxNominal)) &&
            (c.maxMeasured == 1.0 || exists i: nat :: HasMeasured(evals, i, c.maxMeasured))
  {
    if evals != [] {
      var n := |evals| - 1;
      ContextIsMaximum(evals[..n]);
      var c, before := ContextOf(evals), ContextOf(evals[..n]);
      assert forall i: nat, b :: i < n ==> HasNominal(evals[..n], i, b) == HasNominal(evals, i, b);
      assert forall i: nat, b :: i < n ==> HasMeasured(evals[..n], i, b) == HasMeasured(evals, i, b);
      if c.maxNominal == before.maxNominal && c.maxNominal != 1.0 {
        var i: nat :| HasNominal(evals[..n], i, before.maxNominal);
        assert HasNominal(evals, i, c.maxNominal);
      } else if c.maxNominal != 1.0 {
        assert HasNominal(evals, n, c.maxNominal);
      }
      if c.maxMeasured == before.maxMeasured && c.maxMeasured != 1.0 {
        var i: nat :| HasMeasured(evals[..n], i, before.maxMeasured);
        assert HasMeasured(evals, i, c.maxMeasured);
      } else if c.maxMeasured != 1.0 {
        assert HasMeasured(evals, n, c.maxMeasured);
      }
    }
  }

  function Scored(ranking: seq<RouteFactor>, ctx: FactorContext, evals: seq<Eval>): (r: seq<Eval>)
    ensures |r| == |evals|
  {
    seq(|evals|, i requires 0 <= i < |evals| => evals[i].(score := Score(ranking, evals[i].quality, ctx)))
  }

  function Ranked(ranking: seq<RouteFactor>, evals: seq<Eval>): (r: seq<Eval>)
    ensures |r| == |evals|
  {
    StableSort(Scored(ranking, ContextOf(evals), evals), Better)
  }

  method RankEvals(policy: RoutePolicy, evals: seq<Eval>) returns (r: seq<Eval>)
    ensures r == Ranked(policy.ranking, evals)
  {
    hide Score;
    var ctx := FactorContext(1.0, 1.0);
    for i := 0 to |evals|
      invariant ctx == ContextOf(evals[..i])
    {
      assert evals[..i + 1][..i] == evals[..i];
      var q := evals[i].quality;
      ctx := ctx.(maxNominal := Larger(ctx.maxNominal, q.nominalBandwidth as real));
      if q.measuredBandwidth.Some? {
        ctx := ctx.(maxMeasured := Larger(ctx.maxMeasured, q.measuredBandwidth.value));
      }
    }
    assert evals[..|evals|] == evals;
    r := evals;
    for i := 0 to |evals|
      invariant |r| == |evals|
      invariant forall j :: i <= j < |evals| ==> r[j] == evals[j]
      invariant forall j :: 0 <= j < i ==> r[j] == evals[j].(score := Score(policy.ranking, evals[j].quality, ctx))
    {
      var score := ScorePath(policy, r[i].quality, ctx);
      r := r[i := r[i].(score := score)];
    }
    assert r == Scored(policy.ranking, ctx, evals);
    r := StableSort(r, Better);
  }

  // ---- The decision ----

  function OutcomeFor(o: PathOutcome): RouteOutcome
  {
    match o
    case Healthy => RouteAllowed
    case Degraded => RouteAllowedDegraded
    case Contended => RouteAllowedDegraded
    case Unsupported => RouteOutcome.Unsupported
    case RevalidationRequired => RouteOutcome.RevalidationRequired
    case InsufficientEvidence => RouteOutcome.InsufficientEvidence
    case LinkDown => NoRoute
    case NoPath => NoRoute
  }

  function Undecided(source: nat, target: nat, policy: RoutePolicy, stamp: Stamp): RouteDecision
  {
    RouteDecision(stamp, source, target, 0, 0, 0, policy.id, [], [], None, NoRoute, false)
  }

  function Ids(paths: seq<Path>): seq<nat>
  {
    seq(|paths|, i requires 0 <= i < |paths| => paths[i].id)
  }

  /** The outcome when every candidate was rejected. */
  function OutcomeOfRejection(view: View, hard: HardConstraint, paths: seq<Path>): RouteOutcome
  {
    if RejectedUnsupported(view, hard, paths) then RouteOutcome.Unsupported
    else if RejectedAsOutdated(view, hard, paths) then RouteOutcome.RevalidationRequired
    else PolicyRejected
  }

  function Allows(o: RouteOutcome): bool
  {
    o.RouteAllowed? || o.RouteAllowedDegraded?
  }

  /** The decision on a non-empty list of candidates. */
  function Settled(view: View, policy: RoutePolicy, paths: seq<Path>, pending: RouteDecision): RouteDecision
  {
    var d := pending.(candidates := Ids(paths), rejected := Rejected(view, policy.hard, paths));
    var evals := Eligible(view, policy.hard, paths);
    if evals == [] then d.(outcome := OutcomeOfRejection(view, policy.hard, paths))
    else
      var best := Ranked(policy.ranking, evals)[0];
      var outcome := OutcomeFor(best.quality.outcome);
      d.(selected := Some(best.path.id), outcome := outcome, executable := Allows(outcome))
  }

  /** What deciding a route on a view of the registry returns. */
  function Decide(view: View, hash: PathHash, limits: Limits, policy: RoutePolicy, source: nat, target: nat,
                  stamp: Stamp)
    : RouteDecision
  {
    var sd, td := FindDevice(view.topology.devices, source), FindDevice(view.topology.devices, target);
    if sd.None? || td.None? then Undecided(source, target, policy, stamp)
    else
      var d := Undecided(source, target, policy, stamp)
        .(topologyGeneration := view.topology.generation, sourceGeneration := sd.value.generation,
          targetGeneration := td.value.generation);
      var paths := Enumerated(view.topology, hash, source, target, limits);
      if paths == [] then d else Settled(view, policy, paths, d)
  }

  function ViewOf(s: State): View
  {
    View(Snapshot(s), s.history)
  }

  method SettleRoute(view: View, policy: RoutePolicy, paths: seq<Path>, pending: RouteDecision)
    returns (d: RouteDecision)
    ensures d == Settled(view, policy, paths, pending)
  {
    hide Eligible, Rejected, Ranked, RejectedUnsupported, RejectedAsOutdated;
    var ids := [];
    for i := 0 to |paths|
      invariant ids == Ids(paths[..i])
    {
      ids := ids + [paths[i].id];
    }
    assert paths[..|paths|] == paths;
    var evals, rejected, anyUnsupported, anyFreshness := FilterPaths(view, policy.hard, paths);
    d := pending.(candidates := ids, rejected := rejected);
    if evals == [] {
      if anyUnsupported {
        d := d.(outcome := RouteOutcome.Unsupported);
      } else if anyFreshness {
        d := d.(outcome := RouteOutcome.RevalidationRequired);
      } else {
        d := d.(outcome := PolicyRejected);
      }
      return;
    }
    var ranked := RankEvals(policy, evals);
    var best := ranked[0];
    var outcome := OutcomeFor(best.quality.outcome);
    d := d.(selected := Some(best.path.id), outcome := outcome);
    d := d.(executable := outcome == RouteAllowed || outcome == RouteAllowedDegraded);
  }

  method DecideRoute(registry: TopologyRegistry, hash: PathHash, source: nat, target: nat, policy: RoutePolicy,
                     stamp: Stamp) returns (d: RouteDecision)
    requires Filed(registry.state)
    ensures d == Decide(ViewOf(registry.state), hash, registry.limits, policy, source, target, stamp)
  {
    hide Settled, Enumerated, FindDevice;
    d := Undecided(source, target, policy, stamp);
    var topology, measurements := registry.ConsistentView();
    var view := View(topology, measurements);
    var sd := FindDevice(topology.devices, source);
    var td := FindDevice(topology.devices, target);
    if sd.None? || td.None? {
      return;
    }
    d := d.(sourceGeneration := sd.value.generation);
    d := d.(targetGeneration := td.value.generation);
    d := d.(topologyGeneration := topology.generation);
    var paths := EnumeratePaths(topology, hash, source, target, registry.limits);
    if paths == [] {
      return;
    }
    d := SettleRoute(view, policy, paths, d);
  }
}

/** The evidence folded over the links of one path. */
module Quality {
  import opened Bytes
  import opened Types
  import opened Paths

  datatype PathOutcome =
    | Healthy | Degraded | Contended | LinkDown | NoPath | InsufficientEvidence | RevalidationRequired | Unsupported

  datatype PathQuality = PathQuality(
    path: nat,
    source: nat,
    target: nat,
    hopCount: nat,
    nvlinkSegments: nat,
    switchTraversal: bool,
    direct: bool,
    nominalBandwidth: nat,
    measuredBandwidth: Option<Magnitude>,
    measuredLatency: Option<Magnitude>,
    measurementTimestamp: Timestamp,
    activeLinks: nat,
    degradedLinks: nat,
    downLinks: nat,
    evidenceSufficient: bool,
    stale: bool,
    contended: bool,
    outcome: PathOutcome,
    evidence: Evidence,
    topologyGeneration: nat,
    sourceGeneration: nat,
    targetGeneration: nat)

  const PATH_SOURCE: Text := Ascii("path")
  const PATH_NOTE: Text := Ascii("aggregate of traversed link evidence")

  // ---- What is asked of one link ----

  datatype Aspect =
    | ActiveLink | DegradedLink | DownLink | UnsupportedLink | OutdatedLink | UnknownLink | CapableLink
    | SyntheticLink | UnbackedLink | NvlinkLink

  predicate Is(l: LinkRecord, a: Aspect)
  {
    match a
    case ActiveLink => l.state.Up? || l.state.Present? || l.state.Supported?
    case DegradedLink => l.degraded || l.state.Degraded?
    case DownLink => l.state.Down? || l.state.Absent? || l.state.Unreachable?
    case UnsupportedLink => l.state.Unsupported?
    case OutdatedLink => l.state.RevalidationRequired? || l.state.Stale?
    case UnknownLink => l.state.Unknown?
    case CapableLink => l.capability.nominalBandwidth > 0 || !l.capability.interconnect.Unknown?
    case SyntheticLink => l.evidence.evidenceClass.Synthetic?
    case UnbackedLink => l.evidence.evidenceClass.Unsupported?
    case NvlinkLink => l.technology == Technology.NvLink
  }

  // ---- The links of a path ----

  /** The records of the path's links, in order; None where the topology has no such link. */
  function Traversed(links: seq<LinkRecord>, elements: seq<PathElement>): seq<Option<LinkRecord>>
  {
    if elements == [] then []
    else
      Traversed(links, elements[..|elements| - 1]) +
      if elements[|elements| - 1].LinkElement? then [FindLink(links, elements[|elements| - 1].link)] else []
  }

  predicate Missing(rs: seq<Option<LinkRecord>>)
  {
    exists i :: 0 <= i < |rs| && rs[i].None?
  }

  predicate Any(rs: seq<Option<LinkRecord>>, a: Aspect)
  {
    exists i :: 0 <= i < |rs| && rs[i].Some? && Is(rs[i].value, a)
  }

  function Count(rs: seq<Option<LinkRecord>>, a: Aspect): nat
  {
    if rs == [] then 0
    else
      var last := rs[|rs| - 1];
      Count(rs[..|rs| - 1], a) + if last.Some? && Is(last.value, a) then 1 else 0
  }

  function MissingCount(rs: seq<Option<LinkRecord>>): nat
  {
    if rs == [] then 0 else MissingCount(rs[..|rs| - 1]) + if rs[|rs| - 1].None? then 1 else 0
  }

  /** The smallest positive nominal bandwidth among the links, or 0. */
  function Nominal(rs: seq<Option<LinkRecord>>): nat
  {
    if rs == [] then 0 else Narrowed(Nominal(rs[..|rs| - 1]), rs[|rs| - 1])
  }

  function Narrowed(nominal: nat, r: Option<LinkRecord>): nat
  {
    if r.None? || r.value.capability.nominalBandwidth == 0 then nominal
    else if nominal == 0 || r.value.capability.nominalBandwidth < nominal then r.value.capability.nominalBandwidth
    else nominal
  }

  ghost predicate Carries(rs: seq<Option<LinkRecord>>, i: nat, bandwidth: nat)
  {
    i < |rs| && rs[i].Some? && rs[i].value.capability.nominalBandwidth == bandwidth
  }

  lemma {:induction false} NominalIsNarrowest(rs: seq<Option<LinkRecord>>)
    ensures forall i, b :: Carries(rs, i, b) && b > 0 ==> 0 < Nominal(rs) <= b
    ensures Nominal(rs) > 0 ==> exists i :: Carries(rs, i, Nominal(rs))
  {
    if rs != [] {
      var n := |rs| - 1;
      NominalIsNarrowest(rs[..n]);
      assert forall i: nat, b :: i < n ==> Carries(rs, i, b) == Carries(rs[..n], i, b);
      if Nominal(rs) > 0 {
        if Nominal(rs) == Nominal(rs[..n]) {
          var i :| Carries(rs[..n], i, Nominal(rs));
          assert Carries(rs, i, Nominal(rs));
        } else {
          assert Carries(rs, n, Nominal(rs));
        }
      }
    }
  }

  // ---- The measurement that counts ----

  predicate Current(m: MeasurementRecord, source: nat, target: nat)
  {
    m.valid && !m.stale && m.source == source && m.target == target
  }

  /** Position i holds the earliest of the latest current entries. */
  ghost predicate IsBest(ms: seq<MeasurementRecord>, source: nat, target: nat, i: nat)
  {
    && i < |ms|
    && Current(ms[i], source, target)
    && (forall j :: 0 <= j < |ms| && Current(ms[j], source, target) ==> ms[j].measuredAt.ns <= ms[i].measuredAt.ns)
    && (forall j :: 0 <= j < i && Current(ms[j], source, target) ==> ms[j].measuredAt.ns < ms[i].measuredAt.ns)
  }

  function BestMeasurement(ms: seq<MeasurementRecord>, source: nat, target: nat): Option<MeasurementRecord>
  {
    if ms == [] then None
    else
      var best := BestMeasurement(ms[..|ms| - 1], source, target);
      var m := ms[|ms| - 1];
      if Current(m, source, target) && (best.None? || m.measuredAt.ns > best.value.measuredAt.ns) then Some(m)
      else best
  }

  lemma {:induction false} BestIsFirstLatest(ms: seq<MeasurementRecord>, source: nat, target: nat) returns (i: nat)
    ensures match BestMeasurement(ms, source, target)
            case None => forall j :: 0 <= j < |ms| ==> !Current(ms[j], source, target)
            case Some(m) => IsBest(ms, source, target, i) && ms[i] == m
  {
    i := 0;
    if ms != [] {
      var n := |ms| - 1;
      i := BestIsFirstLatest(ms[..n], source, target);
      assert forall j :: 0 <= j < n ==> ms[..n][j] == ms[j];
      if BestMeasurement(ms, source, target) != BestMeasurement(ms[..n], source, target) {
        i := n;
      }
    }
  }

  /** The measurement that counts for the pair reports contention. */
  predicate ContendedPair(ms: seq<MeasurementRecord>, source: nat, target: nat)
  {
    var best := BestMeasurement(ms, source, target);
    best.Some? && best.value.contended
  }

  method FindBestMeasurement(ms: seq<MeasurementRecord>, source: nat, target: nat)
    returns (best: Option<MeasurementRecord>)
    ensures best == BestMeasurement(ms, source, target)
  {
    best := None;
    for i := 0 to |ms|
      invariant best == BestMeasurement(ms[..i], source, target)
    {
      var m := ms[i];
      assert ms[..i + 1][..i] == ms[..i];
      if !m.valid || m.stale {
        continue;
      }
      if m.source == source && m.target == target {
        if best.None? || m.measuredAt.ns > best.value.measuredAt.ns {
          best := Some(m);
        }
      }
    }
    assert ms[..|ms|] == ms;
  }

  // ---- The quality of a path ----

  function OutcomeOf(rs: seq<Option<LinkRecord>>, hopCount: nat, contended: bool): PathOutcome
  {
    if Missing(rs) || Any(rs, DownLink) || hopCount == 0 then LinkDown
    else if Any(rs, UnsupportedLink) then PathOutcome.Unsupported
    else if Any(rs, OutdatedLink) then PathOutcome.RevalidationRequired
    else if contended then Contended
    else if Any(rs, DegradedLink) then PathOutcome.Degraded
    else if Any(rs, UnknownLink) || !Any(rs, CapableLink) then InsufficientEvidence
    else Healthy
  }

  function EvidenceOf(rs: seq<Option<LinkRecord>>, best: Option<MeasurementRecord>): Evidence
  {
    Evidence(
      if Any(rs, UnbackedLink) || (best.Some? && best.value.evidence.evidenceClass.Unsupported?)
      then EvidenceClass.Unsupported
      else if Any(rs, SyntheticLink) || (best.Some? && best.value.evidence.evidenceClass.Synthetic?)
      then EvidenceClass.Synthetic
      else EvidenceClass.Real,
      0, PATH_SOURCE, PATH_NOTE)
  }

  function GenerationOf(devices: seq<DeviceRecord>, id: nat): nat
  {
    var d := FindDevice(devices, id);
    if d.Some? then d.value.generation else 0
  }

  function QualityOf(topology: Topology, measurements: seq<MeasurementRecord>, path: Path): PathQuality
  {
    var rs := Traversed(topology.links, path.elements);
    var best := BestMeasurement(measurements, path.source, path.target);
    var contended := best.Some? && best.value.contended;
    PathQuality(
      path.id, path.source, path.target, path.hopCount,
      path.nvlinkSegments + Count(rs, NvlinkLink),
      path.switchTraversal, path.direct,
      Nominal(rs),
      if best.Some? then Some(best.value.bandwidth) else None,
      if best.Some? then Some(best.value.latency) else None,
      if best.Some? then best.value.measuredAt else Timestamp(0, false),
      Count(rs, ActiveLink),
      Count(rs, DegradedLink),
      MissingCount(rs) + Count(rs, DownLink),
      Any(rs, ActiveLink) && (Any(rs, CapableLink) || best.Some?),
      Any(rs, OutdatedLink),
      contended,
      OutcomeOf(rs, path.hopCount, contended),
      EvidenceOf(rs, best),
      topology.generation,
      GenerationOf(topology.devices, path.source),
      GenerationOf(topology.devices, path.target))
  }

  // ---- The fold ----

  lemma AnyOneMore(rs: seq<Option<LinkRecord>>, r: Option<LinkRecord>, a: Aspect)
    ensures Any(rs + [r], a) <==> Any(rs, a) || (r.Some? && Is(r.value, a))
    ensures Count(rs + [r], a) == Count(rs, a) + if r.Some? && Is(r.value, a) then 1 else 0
  {
    var all := rs + [r];
    assert all[..|rs|] == rs && all[|rs|] == r;
    if Any(rs, a) {
      var i :| 0 <= i < |rs| && rs[i].Some? && Is(rs[i].value, a);
      assert all[i] == rs[i];
    }
    if Any(all, a) {
      var i :| 0 <= i < |all| && all[i].Some? && Is(all[i].value, a);
      assert i < |rs| ==> rs[i] == all[i];
    }
  }

  lemma MissingOneMore(rs: seq<Option<LinkRecord>>, r: Option<LinkRecord>)
    ensures Missing(rs + [r]) <==> Missing(rs) || r.None?
    ensures MissingCount(rs + [r]) == MissingCount(rs) + if r.None? then 1 else 0
    ensures Nominal(rs + [r]) == Narrowed(Nominal(rs), r)
  {
    var all := rs + [r];
    assert all[..|rs|] == rs && all[|rs|] == r;
    if Missing(rs) {
      var i :| 0 <= i < |rs| && rs[i].None?;
      assert all[i] == rs[i];
    }
    if Missing(all) {
      var i :| 0 <= i < |all| && all[i].None?;
      assert i < |rs| ==> rs[i] == all[i];
    }
  }

  lemma FoldOneMore(rs: seq<Option<LinkRecord>>, r: Option<LinkRecord>)
    ensures Missing(rs + [r]) <==> Missing(rs) || r.None?
    ensures MissingCount(rs + [r]) == MissingCount(rs) + if r.None? then 1 else 0
    ensures Nominal(rs + [r]) == Narrowed(Nominal(rs), r)
    ensures forall a :: Any(rs + [r], a) <==> Any(rs, a) || (r.Some? && Is(r.value, a))
    ensures forall a :: Count(rs + [r], a) == Count(rs, a) + if r.Some? && Is(r.value, a) then 1 else 0
  {
    hide Any, Count, Missing, MissingCount, Nominal, Is;
    MissingOneMore(rs, r);
    forall a
      ensures Any(rs + [r], a) <==> Any(rs, a) || (r.Some? && Is(r.value, a))
      ensures Count(rs + [r], a) == Count(rs, a) + if r.Some? && Is(r.value, a) then 1 else 0
    {
      AnyOneMore(rs, r, a);
    }
  }

  /** The counters of one pass over the links. */
  predicate Counters(rs: seq<Option<LinkRecord>>, nominal: nat, nvlink: nat, active: nat, degraded: nat, down: nat)
  {
    && nominal == Nominal(rs)
    && nvlink == Count(rs, NvlinkLink)
    && active == Count(rs, ActiveLink)
    && degraded == Count(rs, DegradedLink)
    && down == MissingCount(rs) + Count(rs, DownLink)
  }

  /** The flags that decide the outcome, */
  predicate StateFlags(rs: seq<Option<LinkRecord>>, anyDown: bool, anyUp: bool, anyDegraded: bool, anyUnsupported: bool,
                       anyReval: bool)
  {
    && (anyDown <==> Missing(rs) || Any(rs, DownLink))
    && (anyUp <==> Any(rs, ActiveLink))
    && (anyDegraded <==> Any(rs, DegradedLink))
    && (anyUnsupported <==> Any(rs, UnsupportedLink))
    && (anyReval <==> Any(rs, OutdatedLink))
  }

  /** and those about what is known. */
  predicate EvidenceFlags(rs: seq<Option<LinkRecord>>, anyUnknown: bool, hasCapability: bool, anySynth: bool,
                          anyUnsupEv: bool)
  {
    && (anyUnknown <==> Any(rs, UnknownLink))
    && (hasCapability <==> Any(rs, CapableLink))
    && (anySynth <==> Any(rs, SyntheticLink))
    && (anyUnsupEv <==> Any(rs, UnbackedLink))
  }

  method CountLink(l: LinkRecord, ghost rs: seq<Option<LinkRecord>>, nominal: nat, nvlink: nat, active: nat,
                   degraded: nat, down: nat)
    returns (nominal': nat, nvlink': nat, active': nat, degraded': nat, down': nat)
    requires Counters(rs, nominal, nvlink, active, degraded, down)
    ensures Counters(rs + [Some(l)], nominal', nvlink', active', degraded', down')
  {
    hide Any, Count, Missing, MissingCount, Nominal;
    FoldOneMore(rs, Some(l));
    nominal', nvlink', active', degraded', down' := nominal, nvlink, active, degraded, down;
    if l.technology == Technology.NvLink {
      nvlink' := nvlink + 1;
    }
    if l.state.Up? || l.state.Present? || l.state.Supported? {
      active' := active + 1;
    }
    if l.degraded || l.state.Degraded? {
      degraded' := degraded + 1;
    }
    if l.state.Down? || l.state.Absent? || l.state.Unreachable? {
      down' := down + 1;
    }
    if l.capability.nominalBandwidth > 0 {
      nominal' := if nominal == 0 || l.capability.nominalBandwidth < nominal then l.capability.nominalBandwidth
                  else nominal;
    }
  }

  method FlagState(l: LinkRecord, ghost rs: seq<Option<LinkRecord>>, anyDown: bool, anyUp: bool, anyDegraded: bool,
                   anyUnsupported: bool, anyReval: bool)
    returns (anyDown': bool, anyUp': bool, anyDegraded': bool, anyUnsupported': bool, anyReval': bool)
    requires StateFlags(rs, anyDown, anyUp, anyDegraded, anyUnsupported, anyReval)
    ensures StateFlags(rs + [Some(l)], anyDown', anyUp', anyDegraded', anyUnsupported', anyReval')
  {
    hide Any, Count, Missing, MissingCount, Nominal;
    FoldOneMore(rs, Some(l));
    anyDown', anyUp', anyDegraded', anyUnsupported', anyReval' := anyDown, anyUp, anyDegraded, anyUnsupported, anyReval;
    if l.state.Up? || l.state.Present? || l.state.Supported? {
      anyUp' := true;
    }
    if l.degraded || l.state.Degraded? {
      anyDegraded' := true;
    }
    if l.state.Down? || l.state.Absent? || l.state.Unreachable? {
      anyDown' := true;
    }
    if l.state.Unsupported? {
      anyUnsupported' := true;
    }
    if l.state.RevalidationRequired? || l.state.Stale? {
      anyReval' := true;
    }
  }

  method FlagEvidence(l: LinkRecord, ghost rs: seq<Option<LinkRecord>>, anyUnknown: bool, hasCapability: bool,
                      anySynth: bool, anyUnsupEv: bool)
    returns (anyUnknown': bool, hasCapability': bool, anySynth': bool, anyUnsupEv': bool)
    requires EvidenceFlags(rs, anyUnknown, hasCapability, anySynth, anyUnsupEv)
    ensures EvidenceFlags(rs + [Some(l)], anyUnknown', hasCapability', anySynth', anyUnsupEv')
  {
    hide Any, Count, Missing, MissingCount, Nominal;
    FoldOneMore(rs, Some(l));
    anyUnknown', hasCapability', anySynth', anyUnsupEv' := anyUnknown, hasCapability, anySynth, anyUnsupEv;
    if l.state.Unknown? {
      anyUnknown' := true;
    }
    if l.capability.nominalBandwidth > 0 || !l.capability.interconnect.Unknown? {
      hasCapability' := true;
    }
    if l.evidence.evidenceClass.Synthetic? {
      anySynth' := true;
    }
    if l.evidence.evidenceClass.Unsupported? {
      anyUnsupEv' := true;
    }
  }

  lemma FoldMissing(rs: seq<Option<LinkRecord>>, nominal: nat, nvlink: nat, active: nat, degraded: nat, down: nat,
                    anyDown: bool, anyUp: bool, anyDegraded: bool, anyUnsupported: bool, anyReval: bool,
                    anyUnknown: bool, hasCapability: bool, anySynth: bool, anyUnsupEv: bool)
    requires Counters(rs, nominal, nvlink, active, degraded, down)
    requires StateFlags(rs, anyDown, anyUp, anyDegraded, anyUnsupported, anyReval)
    requires EvidenceFlags(rs, anyUnknown, hasCapability, anySynth, anyUnsupEv)
    ensures Counters(rs + [None], nominal, nvlink, active, degraded, down + 1)
    ensures StateFlags(rs + [None], true, anyUp, anyDegraded, anyUnsupported, anyReval)
    ensures EvidenceFlags(rs + [None], anyUnknown, hasCapability, anySynth, anyUnsupEv)
  {
    hide Any, Count, Missing, MissingCount, Nominal, Is;
    FoldOneMore(rs, None);
  }

  method FoldLinks(topology: Topology, elements: seq<PathElement>, ghost rs: seq<Option<LinkRecord>>)
    returns (nominal: nat, nvlink: nat, active: nat, degraded: nat, down: nat,
             anyDown: bool, anyUp: bool, anyDegraded: bool, anyUnsupported: bool, anyReval: bool,
             anyUnknown: bool, hasCapability: bool, anySynth: bool, anyUnsupEv: bool)
    requires rs == Traversed(topology.links, elements)
    ensures Counters(rs, nominal, nvlink, active, degraded, down)
    ensures StateFlags(rs, anyDown, anyUp, anyDegraded, anyUnsupported, anyReval)
    ensures EvidenceFlags(rs, anyUnknown, hasCapability, anySynth, anyUnsupEv)
  {
    hide FindLink, Traversed, Counters, StateFlags, EvidenceFlags;
    nominal, nvlink, active, degraded, down := 0, 0, 0, 0, 0;
    anyDown, anyUp, anyDegraded, anyUnsupported, anyReval := false, false, false, false, false;
    anyUnknown, hasCapability, anySynth, anyUnsupEv := false, false, false, false;
    ghost var done := Traversed(topology.links, elements[..0]);
    NothingFolded(topology.links, elements[..0]);
    for i := 0 to |elements|
      invariant done == Traversed(topology.links, elements[..i])
      invariant Counters(done, nominal, nvlink, active, degraded, down)
      invariant StateFlags(done, anyDown, anyUp, anyDegraded, anyUnsupported, anyReval)
      invariant EvidenceFlags(done, anyUnknown, hasCapability, anySynth, anyUnsupEv)
    {
      TraversedOneMore(topology.links, elements, i);
      if elements[i].DeviceElement? {
        continue;
      }
      var r := FindLink(topology.links, elements[i].link);
      if r.None? {
        FoldMissing(done, nominal, nvlink, active, degraded, down, anyDown, anyUp, anyDegraded, anyUnsupported,
                    anyReval, anyUnknown, hasCapability, anySynth, anyUnsupEv);
        down, anyDown := down + 1, true;
      } else {
        nominal, nvlink, active, degraded, down := CountLink(r.value, done, nominal, nvlink, active, degraded, down);
        anyDown, anyUp, anyDegraded, anyUnsupported, anyReval :=
          FlagState(r.value, done, anyDown, anyUp, anyDegraded, anyUnsupported, anyReval);
        anyUnknown, hasCapability, anySynth, anyUnsupEv :=
          FlagEvidence(r.value, done, anyUnknown, hasCapability, anySynth, anyUnsupEv);
      }
      done := done + [r];
    }
    assert elements[..|elements|] == elements;
  }

  lemma NothingFolded(links: seq<LinkRecord>, elements: seq<PathElement>)
    requires elements == []
    ensures var rs := Traversed(links, elements);
            rs == [] && Counters(rs, 0, 0, 0, 0, 0) &&
            StateFlags(rs, false, false, false, false, false) && EvidenceFlags(rs, false, false, false, false)
  {
  }

  lemma TraversedOneMore(links: seq<LinkRecord>, elements: seq<PathElement>, i: nat)
    requires i < |elements|
    ensures Traversed(links, elements[..i + 1]) ==
              if elements[i].LinkElement? then Traversed(links, elements[..i]) + [FindLink(links, elements[i].link)]
              else Traversed(links, elements[..i])
  {
    hide FindLink;
    assert elements[..i + 1][..i] == elements[..i];
  }

  method ComputeQuality(topology: Topology, measurements: seq<MeasurementRecord>, path: Path) returns (q: PathQuality)
    ensures q == QualityOf(topology, measurements, path)
  {
    hide Any, Count, Missing, MissingCount, Nominal, Traversed, FindDevice, BestMeasurement;
    ghost var rs := Traversed(topology.links, path.elements);
    var nominal, nvlink, active, degraded, down, anyDown, anyUp, anyDegraded, anyUnsupported, anyReval,
        anyUnknown, hasCapability, anySynth, anyUnsupEv := FoldLinks(topology, path.elements, rs);
    var bandwidth, latency, measuredAt, contended := None, None, Timestamp(0, false), false;
    var stale := anyReval;
    var best := FindBestMeasurement(measurements, path.source, path.target);
    if best.Some? {
      var m := best.value;
      bandwidth, latency, measuredAt, contended := Some(m.bandwidth), Some(m.latency), m.measuredAt, m.contended;
      if m.evidence.evidenceClass.Unsupported? {
        anyUnsupEv := true;
      }
      if m.evidence.evidenceClass.Synthetic? {
        anySynth := true;
      }
      ghost var i := BestIsFirstLatest(measurements, path.source, path.target);
      if m.stale {
        stale := true;
      }
    }
    var evidenceClass := if anyUnsupEv then EvidenceClass.Unsupported
                         else if anySynth then EvidenceClass.Synthetic else EvidenceClass.Real;
    var evidenceSufficient := anyUp && (hasCapability || best.Some?);
    var outcome := PathOutcome.Healthy;
    if anyDown || path.hopCount == 0 {
      outcome := LinkDown;
    } else if anyUnsupported {
      outcome := PathOutcome.Unsupported;
    } else if anyReval {
      outcome := PathOutcome.RevalidationRequired;
    } else if contended {
      outcome := Contended;
    } else if anyDegraded {
      outcome := PathOutcome.Degraded;
    } else if anyUnknown || !hasCapability {
      outcome := InsufficientEvidence;
    }
    q := PathQuality(path.id, path.source, path.target, path.hopCount, path.nvlinkSegments + nvlink,
                     path.switchTraversal, path.direct, nominal, bandwidth, latency, measuredAt,
                     active, degraded, down, evidenceSufficient, stale, contended, outcome,
                     Evidence(evidenceClass, 0, PATH_SOURCE, PATH_NOTE), topology.generation,
                     GenerationOf(topology.devices, path.source), GenerationOf(topology.devices, path.target));
  }

  // ---- What the outcomes mean ----

  /** A state in which the link is out of use, or its record out of date. */
  predicate OutOfUse(l: LinkRecord)
  {
    Is(l, DownLink) || Is(l, UnsupportedLink) || Is(l, OutdatedLink)
  }

  predicate Passable(o: PathOutcome)
  {
    o.Healthy? || o.Degraded? || o.Contended?
  }

  ghost predicate AllUsable(rs: seq<Option<LinkRecord>>)
  {
    forall i :: 0 <= i < |rs| ==> rs[i].Some? && !OutOfUse(rs[i].value)
  }

  /** Exactly when a path may carry a route: no link is missing, down, unsupported or out of date, and either
    * some impairment is known (contention, degradation) or no link's state is unknown and some capability is
    * recorded. */
  lemma PassableOutcome(rs: seq<Option<LinkRecord>>, hopCount: nat, contended: bool)
    ensures Passable(OutcomeOf(rs, hopCount, contended)) <==>
              && hopCount != 0 && AllUsable(rs)
              && (contended || Any(rs, DegradedLink) || (!Any(rs, UnknownLink) && Any(rs, CapableLink)))
  {
    if AllUsable(rs) {
      assert !Missing(rs) && !Any(rs, DownLink) && !Any(rs, UnsupportedLink) && !Any(rs, OutdatedLink);
    } else {
      var i :| 0 <= i < |rs| && !(rs[i].Some? && !OutOfUse(rs[i].value));
      if rs[i].Some? {
        assert Is(rs[i].value, DownLink) ==> Any(rs, DownLink);
        assert Is(rs[i].value, UnsupportedLink) ==> Any(rs, UnsupportedLink);
        assert Is(rs[i].value, OutdatedLink) ==> Any(rs, OutdatedLink);
      }
    }
  }

  /** The state INCOMPATIBLE is not one of those that any outcome looks at: such a link counts as healthy. */
  lemma IncompatibleIsHealthy(l: LinkRecord)
    requires l.state == LinkState.Incompatible && !l.degraded && Is(l, CapableLink)
    ensures OutcomeOf([Some(l)], 1, false) == Healthy
    ensures Count([Some(l)], ActiveLink) == 0 && MissingCount([Some(l)]) + Count([Some(l)], DownLink) == 0
  {
    var rs := [Some(l)];
    assert rs[..0] == [];
    assert rs[0].Some? && Is(rs[0].value, CapableLink);
    assert Any(rs, CapableLink);
  }

  // ---- Counting over an enumerated path ----

  lemma {:induction false} TraversedRecords(links: seq<LinkRecord>, elements: seq<PathElement>)
    ensures |Traversed(links, elements)| == |LinksIn(elements)|
    ensures forall i :: 0 <= i < |LinksIn(elements)| ==>
              Traversed(links, elements)[i] == FindLink(links, LinksIn(elements)[i])
  {
    hide FindLink;
    if elements != [] {
      TraversedRecords(links, elements[..|elements| - 1]);
    }
  }

  lemma {:induction false} NvlinkCounts(links: seq<LinkRecord>, ids: seq<nat>, rs: seq<Option<LinkRecord>>)
    requires |rs| == |ids| && forall i :: 0 <= i < |ids| ==> rs[i] == FindLink(links, ids[i])
    ensures NvlinkCount(links, ids) == Count(rs, NvlinkLink)
  {
    hide FindLink;
    if ids != [] {
      NvlinkCounts(links, ids[..|ids| - 1], rs[..|rs| - 1]);
    }
  }

  /** The quality starts from the path's own NVLink count and counts the same links again. */
  lemma NvlinkSegmentsDoubled(topology: Topology, measurements: seq<MeasurementRecord>, hash: PathHash, source: nat,
                              target: nat, w: seq<Edge>)
    ensures var p := PathOf(topology, hash, source, target, w);
            QualityOf(topology, measurements, p).nvlinkSegments
              == 2 * Count(Traversed(topology.links, p.elements), NvlinkLink)
  {
    hide Traversed, LinksIn, NvlinkCount, Count, ElementsOf, Any, Nominal, Missing, MissingCount, EvidenceOf, OutcomeOf,
         GenerationOf, BestMeasurement, HasSwitch, Links;
    var es := ElementsOf(source, w);
    LinksOfWalk(source, w);
    TraversedRecords(topology.links, es);
    NvlinkCounts(topology.links, LinksIn(es), Traversed(topology.links, es));
  }
}

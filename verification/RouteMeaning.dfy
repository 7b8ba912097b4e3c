/** What a decision means in terms of the registry: the quality of a walk by the states of its links, the order in which
  * candidates are preferred, and the answer, without the functions that compute them. */
module RouteMeaning {
  import opened Types
  import opened Sorting
  import opened Registry
  import opened RegistryRuns
  import opened Paths
  import opened Quality
  import opened Ranking
  import opened Routing
  import opened RouteSelection
  import opened RouteSafety

  lemma PathOfHops(topology: Topology, hash: PathHash, source: nat, target: nat, w: seq<Edge>)
    ensures var p := PathOf(topology, hash, source, target, w);
            p.hopCount == |w| && p.source == source && p.target == target
  {
  }

  // ---- The links of a walk ----

  ghost predicate LinkAt(s: State, w: seq<Edge>, i: nat)
  {
    i < |w| && w[i].link in s.links
  }

  ghost predicate SomeState(s: State, w: seq<Edge>, states: set<LinkState>)
  {
    exists i: nat :: LinkAt(s, w, i) && s.links[w[i].link].state in states
  }

  ghost predicate SomeDegraded(s: State, w: seq<Edge>)
  {
    exists i: nat :: LinkAt(s, w, i) && (s.links[w[i].link].degraded || s.links[w[i].link].state == LinkState.Degraded)
  }

  ghost predicate SomeCapability(s: State, w: seq<Edge>)
  {
    exists i: nat :: LinkAt(s, w, i) && (s.links[w[i].link].capability.nominalBandwidth > 0 ||
                                         s.links[w[i].link].capability.interconnect != Technology.Unknown)
  }

  ghost predicate SomeEvidence(s: State, w: seq<Edge>, evidence: EvidenceClass)
  {
    exists i: nat :: LinkAt(s, w, i) && s.links[w[i].link].evidence.evidenceClass == evidence
  }

  const DOWN_STATES := {LinkState.Down, LinkState.Absent, LinkState.Unreachable}
  const OUTDATED_STATES := {LinkState.RevalidationRequired, LinkState.Stale}
  const ACTIVE_STATES := {LinkState.Up, LinkState.Present, LinkState.Supported}

  ghost predicate BrokenWalk(s: State, w: seq<Edge>)
  {
    w == [] || SomeState(s, w, DOWN_STATES) || exists i :: 0 <= i < |w| && w[i].link !in s.links
  }

  /** Every link is present and in none of the states that rule a path out. */
  ghost predicate UsableWalk(s: State, w: seq<Edge>)
  {
    w != [] && forall i :: 0 <= i < |w| ==>
      w[i].link in s.links && s.links[w[i].link].state !in DOWN_STATES + OUTDATED_STATES + {LinkState.Unsupported}
  }

  /** b is the smallest positive nominal bandwidth of the links, or 0 where there is none. */
  ghost predicate NarrowestOf(s: State, w: seq<Edge>, b: nat)
  {
    && (forall i: nat :: LinkAt(s, w, i) && s.links[w[i].link].capability.nominalBandwidth > 0 ==>
          0 < b <= s.links[w[i].link].capability.nominalBandwidth)
    && (b > 0 ==> exists i: nat :: LinkAt(s, w, i) && s.links[w[i].link].capability.nominalBandwidth == b)
  }

  /** The earliest of the latest valid, fresh measurements of the pair reports contention. */
  ghost predicate ReportsContention(s: State, source: nat, target: nat)
  {
    exists i: nat :: IsBest(s.history, source, target, i) && s.history[i].contended
  }

  // ---- From the fold to the links ----

  ghost predicate RecordsOf(s: State, w: seq<Edge>, rs: seq<Option<LinkRecord>>)
  {
    |rs| == |w| && forall i :: 0 <= i < |w| ==>
      rs[i] == if w[i].link in s.links then Some(s.links[w[i].link]) else None
  }

  lemma AnyOnWalk(s: State, w: seq<Edge>, rs: seq<Option<LinkRecord>>, a: Aspect)
    requires RecordsOf(s, w, rs)
    ensures Any(rs, a) <==> exists i: nat :: LinkAt(s, w, i) && Is(s.links[w[i].link], a)
  {
    hide Is;
    if Any(rs, a) {
      var i :| 0 <= i < |rs| && rs[i].Some? && Is(rs[i].value, a);
      assert LinkAt(s, w, i);
    }
    if exists i: nat :: LinkAt(s, w, i) && Is(s.links[w[i].link], a) {
      var i: nat :| LinkAt(s, w, i) && Is(s.links[w[i].link], a);
      assert rs[i].Some? && Is(rs[i].value, a);
    }
  }

  lemma StatesOfAspects(l: LinkRecord)
    ensures Is(l, DownLink) <==> l.state in DOWN_STATES
    ensures Is(l, UnsupportedLink) <==> l.state in {LinkState.Unsupported}
    ensures Is(l, OutdatedLink) <==> l.state in OUTDATED_STATES
    ensures Is(l, UnknownLink) <==> l.state in {LinkState.Unknown}
    ensures Is(l, ActiveLink) <==> l.state in ACTIVE_STATES
  {
  }

  lemma StateOnWalk(s: State, w: seq<Edge>, rs: seq<Option<LinkRecord>>, a: Aspect, states: set<LinkState>)
    requires RecordsOf(s, w, rs) && forall l :: Is(l, a) <==> l.state in states
    ensures Any(rs, a) <==> SomeState(s, w, states)
  {
    hide Any, RecordsOf, Is;
    AnyOnWalk(s, w, rs, a);
    if SomeState(s, w, states) {
      var i: nat :| LinkAt(s, w, i) && s.links[w[i].link].state in states;
      assert Is(s.links[w[i].link], a);
    }
  }

  lemma StatesOnWalk(s: State, w: seq<Edge>, rs: seq<Option<LinkRecord>>)
    requires RecordsOf(s, w, rs)
    ensures Any(rs, DownLink) <==> SomeState(s, w, DOWN_STATES)
    ensures Any(rs, UnsupportedLink) <==> SomeState(s, w, {LinkState.Unsupported})
    ensures Any(rs, OutdatedLink) <==> SomeState(s, w, OUTDATED_STATES)
    ensures Any(rs, UnknownLink) <==> SomeState(s, w, {LinkState.Unknown})
    ensures Any(rs, ActiveLink) <==> SomeState(s, w, ACTIVE_STATES)
  {
    hide Any, RecordsOf, LinkAt, Is, SomeState;
    forall l: LinkRecord
      ensures Is(l, DownLink) <==> l.state in DOWN_STATES
      ensures Is(l, UnsupportedLink) <==> l.state in {LinkState.Unsupported}
      ensures Is(l, OutdatedLink) <==> l.state in OUTDATED_STATES
      ensures Is(l, UnknownLink) <==> l.state in {LinkState.Unknown}
      ensures Is(l, ActiveLink) <==> l.state in ACTIVE_STATES
    {
      StatesOfAspects(l);
    }
    hide *;
    StateOnWalk(s, w, rs, DownLink, DOWN_STATES);
    StateOnWalk(s, w, rs, UnsupportedLink, {LinkState.Unsupported});
    StateOnWalk(s, w, rs, OutdatedLink, OUTDATED_STATES);
    StateOnWalk(s, w, rs, UnknownLink, {LinkState.Unknown});
    StateOnWalk(s, w, rs, ActiveLink, ACTIVE_STATES);
  }

  lemma OthersOnWalk(s: State, w: seq<Edge>, rs: seq<Option<LinkRecord>>)
    requires RecordsOf(s, w, rs)
    ensures Any(rs, DegradedLink) <==> SomeDegraded(s, w)
    ensures Any(rs, CapableLink) <==> SomeCapability(s, w)
    ensures Any(rs, SyntheticLink) <==> SomeEvidence(s, w, EvidenceClass.Synthetic)
    ensures Any(rs, UnbackedLink) <==> SomeEvidence(s, w, EvidenceClass.Unsupported)
  {
    hide Any, RecordsOf, LinkAt;
    AnyOnWalk(s, w, rs, DegradedLink);
    AnyOnWalk(s, w, rs, CapableLink);
    AnyOnWalk(s, w, rs, SyntheticLink);
    AnyOnWalk(s, w, rs, UnbackedLink);
  }

  lemma ContentionReported(s: State, source: nat, target: nat)
    ensures ContendedPair(s.history, source, target) <==> ReportsContention(s, source, target)
  {
    hide BestMeasurement, Current;
    var i := BestIsFirstLatest(s.history, source, target);
    if ReportsContention(s, source, target) {
      var j: nat :| IsBest(s.history, source, target, j) && s.history[j].contended;
      assert i == j;
    }
  }

  lemma UsableOrNot(s: State, w: seq<Edge>)
    ensures UsableWalk(s, w) <==> !BrokenWalk(s, w) && !SomeState(s, w, {LinkState.Unsupported}) &&
                                  !SomeState(s, w, OUTDATED_STATES)
  {
    if !BrokenWalk(s, w) && !SomeState(s, w, {LinkState.Unsupported}) && !SomeState(s, w, OUTDATED_STATES) {
      assert forall i :: 0 <= i < |w| ==> LinkAt(s, w, i);
    }
  }

  /** Each outcome of a path, by the states of its links and the measurement that counts for the pair. */
  ghost predicate OutcomeMeans(s: State, source: nat, target: nat, w: seq<Edge>, o: PathOutcome)
  {
    var contended := ReportsContention(s, source, target);
    && (o == LinkDown <==> BrokenWalk(s, w))
    && (o == PathOutcome.Unsupported <==> !BrokenWalk(s, w) && SomeState(s, w, {LinkState.Unsupported}))
    && (o == PathOutcome.RevalidationRequired <==>
          !BrokenWalk(s, w) && !SomeState(s, w, {LinkState.Unsupported}) && SomeState(s, w, OUTDATED_STATES))
    && (o == Contended <==> UsableWalk(s, w) && contended)
    && (o == PathOutcome.Degraded <==> UsableWalk(s, w) && !contended && SomeDegraded(s, w))
    && (o == PathOutcome.InsufficientEvidence <==>
          UsableWalk(s, w) && !contended && !SomeDegraded(s, w) &&
          (SomeState(s, w, {LinkState.Unknown}) || !SomeCapability(s, w)))
    && (o == Healthy <==>
          UsableWalk(s, w) && !contended && !SomeDegraded(s, w) &&
          !SomeState(s, w, {LinkState.Unknown}) && SomeCapability(s, w))
    && o != NoPath
  }

  lemma OutcomeOfWalk(s: State, w: seq<Edge>, rs: seq<Option<LinkRecord>>, source: nat, target: nat)
    requires RecordsOf(s, w, rs)
    ensures OutcomeMeans(s, source, target, w, OutcomeOf(rs, |w|, ContendedPair(s.history, source, target)))
  {
    hide Any, Missing, SomeState, SomeDegraded, SomeCapability, SomeEvidence, UsableWalk, ContendedPair,
         ReportsContention, RecordsOf;
    StatesOnWalk(s, w, rs);
    OthersOnWalk(s, w, rs);
    ContentionReported(s, source, target);
    UsableOrNot(s, w);
    MissingOnWalk(s, w, rs);
  }

  lemma MissingOnWalk(s: State, w: seq<Edge>, rs: seq<Option<LinkRecord>>)
    requires RecordsOf(s, w, rs)
    ensures Missing(rs) <==> exists i :: 0 <= i < |w| && w[i].link !in s.links
  {
    if exists i :: 0 <= i < |w| && w[i].link !in s.links {
      var i :| 0 <= i < |w| && w[i].link !in s.links;
      assert rs[i].None?;
    }
  }

  lemma RecordsOfWalk(s: State, hash: PathHash, source: nat, target: nat, w: seq<Edge>)
    requires Filed(s)
    ensures RecordsOf(s, w, Traversed(Snapshot(s).links, PathOf(Snapshot(s), hash, source, target, w).elements))
  {
    hide Traversed, Snapshot, ElementsOf, PathOf;
    PathOfElements(Snapshot(s), hash, source, target, w);
    WalkRecords(s, source, w);
  }

  /** The outcome of a path, by the states of its links and the measurement that counts for the pair. */
  lemma WalkOutcome(s: State, hash: PathHash, source: nat, target: nat, w: seq<Edge>)
    requires Filed(s)
    ensures OutcomeMeans(s, source, target, w,
                         Assessed(ViewOf(s), PathOf(Snapshot(s), hash, source, target, w)).outcome)
  {
    hide *;
    var p := PathOf(Snapshot(s), hash, source, target, w);
    RecordsOfWalk(s, hash, source, target, w);
    PathOfHops(Snapshot(s), hash, source, target, w);
    AssessedOutcome(ViewOf(s), p);
    ViewOfState(s);
    OutcomeOfWalk(s, w, Traversed(Snapshot(s).links, p.elements), source, target);
  }

  lemma ViewOfState(s: State)
    ensures ViewOf(s).topology == Snapshot(s) && ViewOf(s).measurements == s.history
  {
  }

  // ---- The other fields of a quality ----

  ghost predicate IsAt(rs: seq<Option<LinkRecord>>, a: Aspect, i: nat)
  {
    i < |rs| && rs[i].Some? && Is(rs[i].value, a)
  }

  ghost function Positions(rs: seq<Option<LinkRecord>>, a: Aspect): set<nat>
  {
    set i: nat | i < |rs| && IsAt(rs, a, i)
  }

  lemma {:induction false} CountIsSize(rs: seq<Option<LinkRecord>>, a: Aspect)
    ensures Count(rs, a) == |Positions(rs, a)|
  {
    hide Positions;
    if rs == [] {
      assert Positions(rs, a) == {} by {
        NoPositions(rs, a);
      }
    } else {
      hide IsAt, Is;
      var n := |rs| - 1;
      CountIsSize(rs[..n], a);
      OneMorePosition(rs, a);
    }
  }

  lemma NoPositions(rs: seq<Option<LinkRecord>>, a: Aspect)
    requires rs == []
    ensures Positions(rs, a) == {}
  {
  }

  lemma OneMoreMember(p: set<nat>, q: set<nat>, n: nat, last: bool)
    requires n !in q && forall i: nat :: i in p <==> i in q || (i == n && last)
    ensures |p| == |q| + if last then 1 else 0
  {
    assert p == q + if last then {n} else {};
  }

  lemma OneMorePosition(rs: seq<Option<LinkRecord>>, a: Aspect)
    requires rs != []
    ensures var n := |rs| - 1;
            |Positions(rs, a)| == |Positions(rs[..n], a)| + if rs[n].Some? && Is(rs[n].value, a) then 1 else 0
  {
    hide Is;
    var n := |rs| - 1;
    var front := rs[..n];
    assert forall i: nat :: i < n ==> front[i] == rs[i];
    OneMoreMember(Positions(rs, a), Positions(front, a), n, IsAt(rs, a, n));
  }

  ghost function LinksInState(s: State, w: seq<Edge>, states: set<LinkState>): set<nat>
  {
    set i: nat | i < |w| && w[i].link in s.links && s.links[w[i].link].state in states
  }

  ghost function DegradedLinks(s: State, w: seq<Edge>): set<nat>
  {
    set i: nat | i < |w| && w[i].link in s.links &&
      (s.links[w[i].link].degraded || s.links[w[i].link].state == LinkState.Degraded)
  }

  /** What a quality reports besides its outcome. */
  ghost predicate QualityMeans(s: State, source: nat, target: nat, w: seq<Edge>, q: PathQuality)
  {
    && q.source == source && q.target == target && q.hopCount == |w| && (q.direct <==> |w| == 1)
    && NarrowestOf(s, w, q.nominalBandwidth)
    && q.activeLinks == |LinksInState(s, w, ACTIVE_STATES)|
    && q.degradedLinks == |DegradedLinks(s, w)|
    && (q.downLinks == 0 <==>
          forall i :: 0 <= i < |w| ==> w[i].link in s.links && s.links[w[i].link].state !in DOWN_STATES)
    && (q.stale <==> SomeState(s, w, OUTDATED_STATES))
    && q.topologyGeneration == s.topologyGeneration
    && q.sourceGeneration == (if source in s.devices then s.devices[source].generation else 0)
    && q.targetGeneration == (if target in s.devices then s.devices[target].generation else 0)
  }

  /** and what it takes from the measurement that counts. */
  ghost predicate MeasuredMeans(s: State, source: nat, target: nat, w: seq<Edge>, q: PathQuality)
  {
    && (q.contended <==> ReportsContention(s, source, target))
    && (forall i: nat :: IsBest(s.history, source, target, i) ==>
          q.measuredBandwidth == Some(s.history[i].bandwidth) && q.measuredLatency == Some(s.history[i].latency) &&
          q.measurementTimestamp == s.history[i].measuredAt)
    && ((forall i: nat :: !IsBest(s.history, source, target, i)) ==>
          q.measuredBandwidth == None && q.measuredLatency == None && q.measurementTimestamp == Timestamp(0, false))
    && (q.evidence.evidenceClass == EvidenceClass.Unsupported <==>
          SomeEvidence(s, w, EvidenceClass.Unsupported) || MeasuredWith(s, source, target, EvidenceClass.Unsupported))
    && (q.evidence.evidenceClass == EvidenceClass.Synthetic <==>
          q.evidence.evidenceClass != EvidenceClass.Unsupported &&
          (SomeEvidence(s, w, EvidenceClass.Synthetic) || MeasuredWith(s, source, target, EvidenceClass.Synthetic)))
    && q.evidence.evidenceClass in {EvidenceClass.Real, EvidenceClass.Synthetic, EvidenceClass.Unsupported}
    && (q.evidenceSufficient <==>
          SomeState(s, w, ACTIVE_STATES) &&
          (SomeCapability(s, w) || exists i: nat :: IsBest(s.history, source, target, i)))
  }

  ghost predicate MeasuredWith(s: State, source: nat, target: nat, evidence: EvidenceClass)
  {
    exists i: nat :: IsBest(s.history, source, target, i) && s.history[i].evidence.evidenceClass == evidence
  }

  lemma SizesOnWalk(s: State, w: seq<Edge>, rs: seq<Option<LinkRecord>>)
    requires RecordsOf(s, w, rs)
    ensures Count(rs, ActiveLink) == |LinksInState(s, w, ACTIVE_STATES)|
    ensures Count(rs, DegradedLink) == |DegradedLinks(s, w)|
  {
    CountIsSize(rs, ActiveLink);
    CountIsSize(rs, DegradedLink);
    assert Positions(rs, ActiveLink) == LinksInState(s, w, ACTIVE_STATES);
    assert Positions(rs, DegradedLink) == DegradedLinks(s, w);
  }

  lemma NarrowestOnWalk(s: State, w: seq<Edge>, rs: seq<Option<LinkRecord>>)
    requires RecordsOf(s, w, rs)
    ensures NarrowestOf(s, w, Nominal(rs))
  {
    hide Nominal;
    NominalIsNarrowest(rs);
    forall i: nat | LinkAt(s, w, i) && s.links[w[i].link].capability.nominalBandwidth > 0
      ensures 0 < Nominal(rs) <= s.links[w[i].link].capability.nominalBandwidth
    {
      assert Carries(rs, i, s.links[w[i].link].capability.nominalBandwidth);
    }
    if Nominal(rs) > 0 {
      var i: nat :| Carries(rs, i, Nominal(rs));
      assert LinkAt(s, w, i);
    }
  }

  lemma DownOnWalk(s: State, w: seq<Edge>, rs: seq<Option<LinkRecord>>)
    requires RecordsOf(s, w, rs)
    ensures MissingCount(rs) + Count(rs, DownLink) == 0 <==>
              forall i :: 0 <= i < |w| ==> w[i].link in s.links && s.links[w[i].link].state !in DOWN_STATES
  {
    hide Count, MissingCount;
    DownMeans(rs);
    assert forall i :: 0 <= i < |w| && w[i].link in s.links ==> rs[i].value == s.links[w[i].link];
  }

  lemma QualityOfWalk(s: State, source: nat, target: nat, w: seq<Edge>, p: Path)
    requires RecordsOf(s, w, Traversed(Snapshot(s).links, p.elements)) && Filed(s)
    requires p.source == source && p.target == target && p.hopCount == |w| && (p.direct <==> |w| == 1)
    ensures QualityMeans(s, source, target, w, Assessed(ViewOf(s), p))
  {
    hide Any, Count, Missing, MissingCount, Nominal, Traversed, BestMeasurement, EvidenceOf, OutcomeOf, NarrowestOf,
         LinksInState, DegradedLinks, SomeState, SomeDegraded, RecordsOf, Ordered, FindDevice, GenerationOf;
    var rs := Traversed(Snapshot(s).links, p.elements);
    StatesOnWalk(s, w, rs);
    SizesOnWalk(s, w, rs);
    NarrowestOnWalk(s, w, rs);
    DownOnWalk(s, w, rs);
    RegisteredGeneration(s, source);
    RegisteredGeneration(s, target);
  }

  lemma RegisteredGeneration(s: State, id: nat)
    requires Filed(s)
    ensures GenerationOf(Snapshot(s).devices, id) == if id in s.devices then s.devices[id].generation else 0
  {
    hide Ordered, FindDevice;
    FindOrderedDevice(s.devices, id);
  }

  lemma MeasurementOfWalk(s: State, source: nat, target: nat, w: seq<Edge>, p: Path)
    requires RecordsOf(s, w, Traversed(Snapshot(s).links, p.elements))
    requires p.source == source && p.target == target
    ensures MeasuredMeans(s, source, target, w, Assessed(ViewOf(s), p))
  {
    var rs := Traversed(Snapshot(s).links, p.elements);
    StatesOnWalk(s, w, rs);
    OthersOnWalk(s, w, rs);
    ContentionReported(s, source, target);
    var best := BestIsFirstLatest(s.history, source, target);
    hide Any, Count, Missing, MissingCount, Nominal, Traversed, BestMeasurement, GenerationOf, OutcomeOf, RecordsOf,
         SomeState, SomeEvidence, SomeCapability, ReportsContention, Snapshot, Current;
    forall i: nat | IsBest(s.history, source, target, i)
      ensures BestMeasurement(s.history, source, target) == Some(s.history[i])
    {
    }
  }

  lemma PathOfDirect(topology: Topology, hash: PathHash, source: nat, target: nat, w: seq<Edge>)
    ensures var p := PathOf(topology, hash, source, target, w);
            (p.direct <==> |w| == 1) && p.id == hash(source, target, Links(w))
  {
  }

  lemma CopiedFields(s: State, p: Path)
    ensures Assessed(ViewOf(s), p).path == p.id && Assessed(ViewOf(s), p).switchTraversal == p.switchTraversal
  {
    hide Any, Count, Missing, MissingCount, Nominal, Traversed, BestMeasurement, EvidenceOf, OutcomeOf, GenerationOf,
         Snapshot;
  }

  /** Every field of the quality of a walk. */
  lemma WalkQuality(s: State, hash: PathHash, source: nat, target: nat, w: seq<Edge>)
    requires Filed(s)
    ensures var q := Assessed(ViewOf(s), PathOf(Snapshot(s), hash, source, target, w));
            QualityMeans(s, source, target, w, q) && MeasuredMeans(s, source, target, w, q) &&
            OutcomeMeans(s, source, target, w, q.outcome) && q.path == hash(source, target, Links(w)) &&
            q.switchTraversal == PathOf(Snapshot(s), hash, source, target, w).switchTraversal
  {
    CopiedFields(s, PathOf(Snapshot(s), hash, source, target, w));
    hide *;
    var p := PathOf(Snapshot(s), hash, source, target, w);
    RecordsOfWalk(s, hash, source, target, w);
    PathOfHops(Snapshot(s), hash, source, target, w);
    PathOfDirect(Snapshot(s), hash, source, target, w);
    QualityOfWalk(s, source, target, w, p);
    MeasurementOfWalk(s, source, target, w, p);
    WalkOutcome(s, hash, source, target, w);
  }

  // ---- Switches ----

  lemma SwitchElement(s: State, device: nat)
    requires Filed(s)
    ensures IsSwitch(Snapshot(s).devices, DeviceElement(device)) <==>
              device in s.devices && s.devices[device].kind == NodeKind.Switch
  {
    hide Ordered, FindDevice;
    FindOrderedDevice(s.devices, device);
  }

  lemma SwitchOnWalk(devices: seq<DeviceRecord>, source: nat, w: seq<Edge>)
    ensures HasSwitch(devices, ElementsOf(source, w)) <==>
              IsSwitch(devices, DeviceElement(source)) ||
              exists i :: 0 <= i < |w| && IsSwitch(devices, DeviceElement(w[i].to))
  {
    var es := ElementsOf(source, w);
    ElementsAlternate(source, w);
    if HasSwitch(devices, es) {
      var k :| 0 <= k < |es| && IsSwitch(devices, es[k]);
      if k > 0 {
        var i := (k - 1) / 2;
        assert k == 2 * i + 1 || k == 2 * i + 2;
        assert es[k] == DeviceElement(w[i].to);
      }
    }
    hide FindDevice, ElementsOf;
    if IsSwitch(devices, DeviceElement(source)) {
      assert IsSwitch(devices, es[0]);
    }
    if exists i :: 0 <= i < |w| && IsSwitch(devices, DeviceElement(w[i].to)) {
      var i :| 0 <= i < |w| && IsSwitch(devices, DeviceElement(w[i].to));
      assert IsSwitch(devices, es[2 * i + 2]);
    }
  }

  /** A path is marked as switched exactly when the source, or a device that some edge of the walk leads to, is a
    * registered switch. */
  lemma SwitchTraversal(s: State, hash: PathHash, source: nat, target: nat, w: seq<Edge>)
    requires Filed(s)
    ensures PathOf(Snapshot(s), hash, source, target, w).switchTraversal <==>
              (source in s.devices && s.devices[source].kind == NodeKind.Switch) ||
              exists i :: 0 <= i < |w| && w[i].to in s.devices && s.devices[w[i].to].kind == NodeKind.Switch
  {
    hide IsSwitch, HasSwitch, Snapshot, ElementsOf, NvlinkCount;
    SwitchElement(s, source);
    SwitchOnWalk(Snapshot(s).devices, source, w);
    forall i | 0 <= i < |w|
      ensures IsSwitch(Snapshot(s).devices, DeviceElement(w[i].to)) <==>
                w[i].to in s.devices && s.devices[w[i].to].kind == NodeKind.Switch
    {
      SwitchElement(s, w[i].to);
    }
  }

  /** The elements of a path are its source and then, for each edge, the link and the device it leads to. */
  lemma {:induction false} ElementsAlternate(source: nat, w: seq<Edge>)
    ensures ElementsOf(source, w)[0] == DeviceElement(source)
    ensures forall i :: 0 <= i < |w| ==>
              ElementsOf(source, w)[2 * i + 1] == LinkElement(w[i].link) &&
              ElementsOf(source, w)[2 * i + 2] == DeviceElement(w[i].to)
  {
    if w != [] {
      var n := |w| - 1;
      ElementsAlternate(source, w[..n]);
      var front := ElementsOf(source, w[..n]);
      assert forall k :: 0 <= k < |front| ==> ElementsOf(source, w)[k] == front[k];
    }
  }

  // ---- The order of preference ----

  /** What decides between two candidates, from the first field to the last. */
  datatype Standing = Standing(score: real, hops: nat, bandwidth: nat, id: nat, position: nat)

  /** The higher score, then the fewer links, then the wider bottleneck, then the smaller id, then the earlier find. */
  predicate Precedes(a: Standing, b: Standing)
  {
    if a.score != b.score then a.score > b.score
    else if a.hops != b.hops then a.hops < b.hops
    else if a.bandwidth != b.bandwidth then a.bandwidth > b.bandwidth
    else if a.id != b.id then a.id < b.id
    else a.position < b.position
  }

  lemma PrecedenceOfEvals(x: Eval, y: Eval, i: nat, j: nat)
    requires ProperHops(x.quality) && ProperHops(y.quality)
    requires x.path.direct == x.quality.direct && y.path.direct == y.quality.direct
    requires x.path.hopCount == x.quality.hopCount && y.path.hopCount == y.quality.hopCount
    requires x.quality.measuredBandwidth == y.quality.measuredBandwidth
    requires x.quality.measuredLatency == y.quality.measuredLatency && i != j
    ensures var a := Standing(x.score, x.path.hopCount, x.quality.nominalBandwidth, x.path.id, i);
            var b := Standing(y.score, y.path.hopCount, y.quality.nominalBandwidth, y.path.id, j);
            Precedes(a, b) <==> if i < j then !Better(y, x) else Better(x, y)
  {
  }

  /** Walk i is one of the first up to the cap. */
  ghost predicate Considered(s: State, limits: Limits, source: nat, target: nat, i: nat)
  {
    i < |AllWalks(Snapshot(s), source, target, limits)| && i < limits.maxCandidatePaths
  }

  /** Walk i is among the candidates and satisfies every enabled constraint. */
  ghost predicate Candidate(s: State, limits: Limits, hash: PathHash, hard: HardConstraint, source: nat, target: nat,
                            i: nat)
  {
    Considered(s, limits, source, target, i) &&
    var p := PathOf(Snapshot(s), hash, source, target, AllWalks(Snapshot(s), source, target, limits)[i]);
    Satisfies(Traversed(Snapshot(s).links, p.elements), hard, p, BestMeasurement(s.history, source, target))
  }

  ghost function StandingOf(s: State, limits: Limits, hash: PathHash, policy: RoutePolicy, source: nat, target: nat,
                            i: nat): Standing
    requires i < |AllWalks(Snapshot(s), source, target, limits)|
  {
    var w := AllWalks(Snapshot(s), source, target, limits)[i];
    var q := Assessed(ViewOf(s), PathOf(Snapshot(s), hash, source, target, w));
    var evals := Eligible(ViewOf(s), policy.hard, Enumerated(Snapshot(s), hash, source, target, limits));
    Standing(Score(policy.ranking, q, ContextOf(evals)), |w|, q.nominalBandwidth, hash(source, target, Links(w)), i)
  }

  /** Walk i is a candidate and precedes every other one. */
  ghost predicate Preferred(s: State, limits: Limits, hash: PathHash, policy: RoutePolicy, source: nat, target: nat,
                            i: nat)
  {
    && Candidate(s, limits, hash, policy.hard, source, target, i)
    && forall j: nat :: j != i && Candidate(s, limits, hash, policy.hard, source, target, j) ==>
         Precedes(StandingOf(s, limits, hash, policy, source, target, i),
                  StandingOf(s, limits, hash, policy, source, target, j))
  }

  lemma CandidateInRange(s: State, limits: Limits, hash: PathHash, hard: HardConstraint, source: nat, target: nat,
                         i: nat)
    requires Candidate(s, limits, hash, hard, source, target, i)
    ensures i < |AllWalks(Snapshot(s), source, target, limits)|
  {
  }

  lemma PreferredIsUnique(s: State, limits: Limits, hash: PathHash, policy: RoutePolicy, source: nat, target: nat,
                          i: nat, j: nat)
    requires Preferred(s, limits, hash, policy, source, target, i)
    requires Preferred(s, limits, hash, policy, source, target, j)
    ensures i == j
  {
    hide Candidate, StandingOf;
    CandidateInRange(s, limits, hash, policy.hard, source, target, i);
    CandidateInRange(s, limits, hash, policy.hard, source, target, j);
    if i != j {
      var a := StandingOf(s, limits, hash, policy, source, target, i);
      var b := StandingOf(s, limits, hash, policy, source, target, j);
      PrecedesOneWay(a, b);
    }
  }

  lemma PrecedesOneWay(a: Standing, b: Standing)
    ensures !(Precedes(a, b) && Precedes(b, a))
  {
  }

  /** The positions that pass the filter are the candidates. */
  lemma CandidatePositions(s: State, limits: Limits, hash: PathHash, hard: HardConstraint, source: nat, target: nat)
    returns (kept: seq<nat>)
    requires Good(s, limits) && source in s.devices && target in s.devices && source != target
    ensures var paths := Enumerated(Snapshot(s), hash, source, target, limits);
            KeptAt(ViewOf(s), hard, paths, Eligible(ViewOf(s), hard, paths), kept)
    ensures forall i: nat :: Candidate(s, limits, hash, hard, source, target, i) <==> i in kept
    ensures forall i: nat :: i in kept ==>
              i < |AllWalks(Snapshot(s), source, target, limits)| &&
              i < |Enumerated(Snapshot(s), hash, source, target, limits)| &&
              Enumerated(Snapshot(s), hash, source, target, limits)[i]
                == PathOf(Snapshot(s), hash, source, target, AllWalks(Snapshot(s), source, target, limits)[i])
  {
    hide AllWalks, Snapshot, Enumerated, Eligible, ReasonFor, PathOf, Simple, Satisfies, Traversed, BestMeasurement;
    var all := AllWalks(Snapshot(s), source, target, limits);
    var paths := Enumerated(Snapshot(s), hash, source, target, limits);
    EnumerationIsComplete(Snapshot(s), hash, source, target, limits);
    kept := EligiblePositions(ViewOf(s), hard, paths);
    ViewOfState(s);
    forall i: nat
      ensures Candidate(s, limits, hash, hard, source, target, i) <==> i in kept
    {
      if i < |paths| {
        CandidateMeans(s, limits, hash, hard, source, target, i);
      }
    }
  }

  lemma EnumeratedEval(s: State, limits: Limits, hash: PathHash, source: nat, target: nat, i: nat)
    requires i < |AllWalks(Snapshot(s), source, target, limits)| && source != target
    ensures var w := AllWalks(Snapshot(s), source, target, limits)[i];
            var p := PathOf(Snapshot(s), hash, source, target, w);
            p.id == hash(source, target, Links(w)) && p.hopCount == |w| &&
            p.source == source && p.target == target && (p.direct <==> |w| == 1) && |w| >= 1 &&
            Assessed(ViewOf(s), p).hopCount == |w| && (Assessed(ViewOf(s), p).direct <==> |w| == 1)
  {
    hide AllWalks, Snapshot, PathOf, Simple, Traversed, Any, Count, MissingCount, Missing, Nominal, BestMeasurement,
         EvidenceOf, GenerationOf, OutcomeOf;
    var all := AllWalks(Snapshot(s), source, target, limits);
    var w := all[i];
    assert w in all;
    WalksAreSimplePaths(Snapshot(s).links, source, {source}, target, Room(limits), w);
    AllWalksAre(Snapshot(s), source, target, limits);
    NothingIsNoPath(Snapshot(s).links, source, {source}, target);
    PathOfHops(Snapshot(s), hash, source, target, w);
    PathOfDirect(Snapshot(s), hash, source, target, w);
  }

  lemma AllWalksAre(topology: Topology, source: nat, target: nat, limits: Limits)
    ensures AllWalks(topology, source, target, limits)
         == Walks(topology.links, source, {source}, target, Room(limits))
  {
  }

  /** The position that the sorted list puts in front is the preferred one. */
  lemma WinnerIsPreferred(s: State, limits: Limits, hash: PathHash, policy: RoutePolicy, source: nat, target: nat)
    returns (i: nat)
    requires Good(s, limits) && source in s.devices && target in s.devices && source != target
    requires Eligible(ViewOf(s), policy.hard, Enumerated(Snapshot(s), hash, source, target, limits)) != []
    ensures Preferred(s, limits, hash, policy, source, target, i)
    ensures i < |AllWalks(Snapshot(s), source, target, limits)|
    ensures var p := PathOf(Snapshot(s), hash, source, target, AllWalks(Snapshot(s), source, target, limits)[i]);
            var best :=
              Ranked(policy.ranking, Eligible(ViewOf(s), policy.hard,
                                              Enumerated(Snapshot(s), hash, source, target, limits)))[0];
            best.path == p && best.quality == Assessed(ViewOf(s), p)
  {
    hide AllWalks, Snapshot, Enumerated, Eligible, ReasonFor, Assessed, PathOf, Candidate, Simple, Better, Score,
         ContextOf, StableSort, Precedes, Links;
    var view, all := ViewOf(s), AllWalks(Snapshot(s), source, target, limits);
    var paths := Enumerated(Snapshot(s), hash, source, target, limits);
    var kept := CandidatePositions(s, limits, hash, policy.hard, source, target);
    var evals := Eligible(view, policy.hard, paths);
    ViewOfState(s);
    var k := WinnerExists(view, policy, paths);
    var scored := Scored(policy.ranking, ContextOf(evals), evals);
    i := kept[k];
    assert forall m :: 0 <= m < |kept| ==> kept[m] in kept;
    forall j: nat | j != i && Candidate(s, limits, hash, policy.hard, source, target, j)
      ensures j < |all|
      ensures Precedes(StandingOf(s, limits, hash, policy, source, target, i),
                       StandingOf(s, limits, hash, policy, source, target, j))
    {
      var m :| 0 <= m < |kept| && kept[m] == j;
      FirstBeats(scored, Better, k, m);
      EnumeratedEval(s, limits, hash, source, target, i);
      EnumeratedEval(s, limits, hash, source, target, j);
      SharedMeasurement(view, paths[i], paths[j]);
      PrecedenceOfEvals(scored[k], scored[m], i, j);
    }
  }

  // ---- The answer ----

  /** What a decision that selects the walk answers. */
  ghost predicate AnswerMeans(s: State, source: nat, target: nat, w: seq<Edge>, o: RouteOutcome, executable: bool)
  {
    var contended := ReportsContention(s, source, target);
    var impaired := contended || SomeDegraded(s, w);
    var known := !SomeState(s, w, {LinkState.Unknown}) && SomeCapability(s, w);
    && (o == RouteAllowed <==> UsableWalk(s, w) && !impaired && known)
    && (o == RouteAllowedDegraded <==> UsableWalk(s, w) && impaired)
    && (o == RouteOutcome.InsufficientEvidence <==> UsableWalk(s, w) && !impaired && !known)
    && (o == NoRoute <==> BrokenWalk(s, w))
    && (o == RouteOutcome.Unsupported <==> !BrokenWalk(s, w) && SomeState(s, w, {LinkState.Unsupported}))
    && (o == RouteOutcome.RevalidationRequired <==>
          !BrokenWalk(s, w) && !SomeState(s, w, {LinkState.Unsupported}) && SomeState(s, w, OUTDATED_STATES))
    && (executable <==> UsableWalk(s, w) && (impaired || known))
  }

  lemma AnswerOfOutcome(s: State, source: nat, target: nat, w: seq<Edge>, o: PathOutcome)
    requires OutcomeMeans(s, source, target, w, o)
    ensures AnswerMeans(s, source, target, w, OutcomeFor(o), Allows(OutcomeFor(o)))
  {
    hide UsableWalk, BrokenWalk, SomeState, SomeDegraded, SomeCapability, ReportsContention;
  }

  /** The decision on a registry, before the ranking. */
  lemma DecideOnState(s: State, limits: Limits, hash: PathHash, policy: RoutePolicy, source: nat, target: nat,
                      stamp: Stamp)
    requires Filed(s)
    ensures var paths, none := Enumerated(Snapshot(s), hash, source, target, limits),
                               Undecided(source, target, policy, stamp);
            Decide(ViewOf(s), hash, limits, policy, source, target, stamp) ==
              if source !in s.devices || target !in s.devices then none
              else
                var d := none.(topologyGeneration := s.topologyGeneration,
                               sourceGeneration := s.devices[source].generation,
                               targetGeneration := s.devices[target].generation);
                if paths == [] then d else Settled(ViewOf(s), policy, paths, d)
  {
    hide Enumerated, FindDevice, Settled, Ordered;
    FindOrderedDevice(s.devices, source);
    FindOrderedDevice(s.devices, target);
  }

  lemma EndpointsFound(s: State, limits: Limits, hash: PathHash, policy: RoutePolicy, source: nat, target: nat,
                       stamp: Stamp)
    requires Good(s, limits) && source in s.devices && target in s.devices
    ensures var evals := Eligible(ViewOf(s), policy.hard, Enumerated(Snapshot(s), hash, source, target, limits));
            var d := Decide(ViewOf(s), hash, limits, policy, source, target, stamp);
            if evals == [] then !d.executable && d.selected == None
            else
              var best := Ranked(policy.ranking, evals)[0];
              d.selected == Some(best.path.id) && d.outcome == OutcomeFor(best.quality.outcome) &&
              d.executable == Allows(d.outcome)
  {
    hide Enumerated, FindDevice, Rejected, Ranked, Ordered, OutcomeFor, Allows, ReasonFor, Assessed, OutcomeOfRejection;
    FindOrderedDevice(s.devices, source);
    FindOrderedDevice(s.devices, target);
    RejectionAllowsNothing(ViewOf(s), policy.hard, Enumerated(Snapshot(s), hash, source, target, limits));
  }

  /** Two registered devices, and distinct. */
  predicate Endpoints(s: State, source: nat, target: nat)
  {
    source in s.devices && target in s.devices && source != target
  }

  /** A path is selected exactly when there is a candidate, and it is the preferred one; the answer is that of its
    * links. */
  lemma SelectedRoute(s: State, limits: Limits, hash: PathHash, policy: RoutePolicy, source: nat, target: nat,
                      stamp: Stamp)
    requires Good(s, limits)
    ensures var d := Decide(ViewOf(s), hash, limits, policy, source, target, stamp);
            (d.selected.Some? <==>
              Endpoints(s, source, target) &&
              exists i: nat :: Candidate(s, limits, hash, policy.hard, source, target, i)) &&
            (d.selected.Some? ==> exists i: nat :: Preferred(s, limits, hash, policy, source, target, i)) &&
            (d.selected.None? ==> !d.executable)
    ensures var d := Decide(ViewOf(s), hash, limits, policy, source, target, stamp);
            var all := AllWalks(Snapshot(s), source, target, limits);
            forall i: nat :: Endpoints(s, source, target) && Preferred(s, limits, hash, policy, source, target, i) ==>
              i < |all| && d.selected == Some(hash(source, target, Links(all[i]))) &&
              AnswerMeans(s, source, target, all[i], d.outcome, d.executable)
  {
    hide AllWalks, Snapshot, Enumerated, Decide, Eligible, Assessed, PathOf, Candidate, Preferred, Ranked, Rejected,
         OutcomeOfRejection, OutcomeFor, Allows, AnswerMeans, OutcomeMeans, Good, Links;
    GoodIsFiled(s, limits);
    DecideOnState(s, limits, hash, policy, source, target, stamp);
    var all := AllWalks(Snapshot(s), source, target, limits);
    var paths := Enumerated(Snapshot(s), hash, source, target, limits);
    var evals := Eligible(ViewOf(s), policy.hard, paths);
    if Endpoints(s, source, target) {
      var kept := CandidatePositions(s, limits, hash, policy.hard, source, target);
      RejectionAllowsNothing(ViewOf(s), policy.hard, paths);
      if evals != [] {
        assert Candidate(s, limits, hash, policy.hard, source, target, kept[0]);
        var i := WinnerIsPreferred(s, limits, hash, policy, source, target);
        EnumeratedEval(s, limits, hash, source, target, i);
        WalkOutcome(s, hash, source, target, all[i]);
        AnswerOfOutcome(s, source, target, all[i],
                        Assessed(ViewOf(s), PathOf(Snapshot(s), hash, source, target, all[i])).outcome);
        forall j: nat | Preferred(s, limits, hash, policy, source, target, j)
          ensures j == i
        {
          PreferredIsUnique(s, limits, hash, policy, source, target, i, j);
        }
      }
      forall j: nat | Preferred(s, limits, hash, policy, source, target, j)
        ensures Candidate(s, limits, hash, policy.hard, source, target, j)
      {
        PreferredIsCandidate(s, limits, hash, policy, source, target, j);
      }
    } else if source == target {
      NoCandidates(s, limits, hash, source, target);
    }
  }

  lemma PreferredIsCandidate(s: State, limits: Limits, hash: PathHash, policy: RoutePolicy, source: nat, target: nat,
                             i: nat)
    requires Preferred(s, limits, hash, policy, source, target, i)
    ensures Candidate(s, limits, hash, policy.hard, source, target, i)
  {
    hide Candidate, StandingOf;
  }

  lemma NoCandidates(s: State, limits: Limits, hash: PathHash, source: nat, target: nat)
    requires source == target
    ensures Enumerated(Snapshot(s), hash, source, target, limits) == []
  {
  }

  /** What is recorded whatever the answer. */
  lemma DecisionRecord(s: State, limits: Limits, hash: PathHash, policy: RoutePolicy, source: nat, target: nat,
                       stamp: Stamp)
    requires Good(s, limits)
    ensures var d := Decide(ViewOf(s), hash, limits, policy, source, target, stamp);
            var known := source in s.devices && target in s.devices;
            d.stamp == stamp && d.source == source && d.target == target && d.policy == policy.id &&
            d.topologyGeneration == (if known then s.topologyGeneration else 0) &&
            d.sourceGeneration == (if known then s.devices[source].generation else 0) &&
            d.targetGeneration == (if known then s.devices[target].generation else 0)
    ensures var d := Decide(ViewOf(s), hash, limits, policy, source, target, stamp);
            var all := AllWalks(Snapshot(s), source, target, limits);
            if Endpoints(s, source, target) then
              (forall i: nat :: i < |d.candidates| <==> Considered(s, limits, source, target, i)) &&
              forall i: nat :: i < |d.candidates| ==>
                i < |all| && d.candidates[i] == hash(source, target, Links(all[i]))
            else d.candidates == [] && d.rejected == []
  {
    hide AllWalks, Snapshot, Enumerated, Decide, Eligible, Ranked, Rejected, OutcomeOfRejection, OutcomeFor, Allows,
         Good, Links, PathOf, Simple;
    GoodIsFiled(s, limits);
    DecideOnState(s, limits, hash, policy, source, target, stamp);
    if Endpoints(s, source, target) {
      EndpointsNamed(s, limits, source);
      EndpointsNamed(s, limits, target);
      EnumerationIsComplete(Snapshot(s), hash, source, target, limits);
      forall i: nat | Considered(s, limits, source, target, i)
        ensures PathOf(Snapshot(s), hash, source, target, AllWalks(Snapshot(s), source, target, limits)[i]).id
             == hash(source, target, Links(AllWalks(Snapshot(s), source, target, limits)[i]))
      {
        PathOfDirect(Snapshot(s), hash, source, target, AllWalks(Snapshot(s), source, target, limits)[i]);
      }
    } else if source == target {
      NoCandidates(s, limits, hash, source, target);
    }
  }

  lemma EndpointsNamed(s: State, limits: Limits, id: nat)
    requires Good(s, limits) && id in s.devices
    ensures id != 0
  {
  }

  /** Without a selection: no route if there was nothing to consider; otherwise unsupported if some walk has an
    * unsupported link and none that is missing or down, else revalidation if freshness alone is required and some walk
    * is outdated, else rejected by the policy. */
  lemma UnselectedAnswer(s: State, limits: Limits, hash: PathHash, policy: RoutePolicy, source: nat, target: nat,
                         stamp: Stamp)
    requires Good(s, limits) && Decide(ViewOf(s), hash, limits, policy, source, target, stamp).selected.None?
    ensures var all := AllWalks(Snapshot(s), source, target, limits);
            Decide(ViewOf(s), hash, limits, policy, source, target, stamp).outcome ==
              if !Endpoints(s, source, target) || !Considered(s, limits, source, target, 0) then NoRoute
              else if exists i: nat :: Considered(s, limits, source, target, i) && !BrokenWalk(s, all[i]) &&
                                       SomeState(s, all[i], {LinkState.Unsupported}) then RouteOutcome.Unsupported
              else if !policy.hard.requireSupportedLinks && policy.hard.requireFresh &&
                      exists i: nat :: Considered(s, limits, source, target, i) && SomeState(s, all[i], OUTDATED_STATES)
              then RouteOutcome.RevalidationRequired
              else PolicyRejected
  {
    hide AllWalks, Snapshot, Enumerated, Decide, Eligible, Ranked, Rejected, OutcomeOfRejection, OutcomeFor, Allows,
         Good, PathOf, Simple, RejectedUnsupported, RejectedAsOutdated, SomeState, BrokenWalk, Outdated, ReasonFor;
    GoodIsFiled(s, limits);
    DecideOnState(s, limits, hash, policy, source, target, stamp);
    if Endpoints(s, source, target) {
      EndpointsNamed(s, limits, source);
      EndpointsNamed(s, limits, target);
      EnumerationIsComplete(Snapshot(s), hash, source, target, limits);
      if Considered(s, limits, source, target, 0) {
        RejectionOnWalks(s, limits, hash, policy.hard, source, target);
      }
    } else if source == target {
      NoCandidates(s, limits, hash, source, target);
    }
  }

  lemma RejectionOnWalks(s: State, limits: Limits, hash: PathHash, hard: HardConstraint, source: nat, target: nat)
    requires Good(s, limits) && Endpoints(s, source, target)
    requires Eligible(ViewOf(s), hard, Enumerated(Snapshot(s), hash, source, target, limits)) == []
    ensures var all := AllWalks(Snapshot(s), source, target, limits);
            OutcomeOfRejection(ViewOf(s), hard, Enumerated(Snapshot(s), hash, source, target, limits)) ==
              if exists i: nat :: Considered(s, limits, source, target, i) && !BrokenWalk(s, all[i]) &&
                                  SomeState(s, all[i], {LinkState.Unsupported}) then RouteOutcome.Unsupported
              else if !hard.requireSupportedLinks && hard.requireFresh &&
                      exists i: nat :: Considered(s, limits, source, target, i) && SomeState(s, all[i], OUTDATED_STATES)
              then RouteOutcome.RevalidationRequired
              else PolicyRejected
  {
    hide AllWalks, Snapshot, Enumerated, Eligible, Good, PathOf, Simple, RejectedAsOutdated, SomeState, BrokenWalk,
         Outdated, ReasonFor, Assessed;
    var all := AllWalks(Snapshot(s), source, target, limits);
    var paths := Enumerated(Snapshot(s), hash, source, target, limits);
    EndpointsNamed(s, limits, source);
    EndpointsNamed(s, limits, target);
    GoodIsFiled(s, limits);
    EnumerationIsComplete(Snapshot(s), hash, source, target, limits);
    RejectionRevalidation(ViewOf(s), hard, paths);
    var kept := EligiblePositions(ViewOf(s), hard, paths);
    forall i | 0 <= i < |paths|
      ensures Considered(s, limits, source, target, i)
      ensures Assessed(ViewOf(s), paths[i]).outcome.Unsupported? <==>
                !BrokenWalk(s, all[i]) && SomeState(s, all[i], {LinkState.Unsupported})
      ensures Outdated(ViewOf(s), paths[i]) <==> SomeState(s, all[i], OUTDATED_STATES)
    {
      WalkOutcome(s, hash, source, target, all[i]);
      OutdatedWalk(s, hash, source, target, all[i]);
    }
  }

  lemma OutdatedWalk(s: State, hash: PathHash, source: nat, target: nat, w: seq<Edge>)
    requires Filed(s)
    ensures Outdated(ViewOf(s), PathOf(Snapshot(s), hash, source, target, w)) <==> SomeState(s, w, OUTDATED_STATES)
  {
    hide PathOf, Snapshot, Traversed, SomeState, Any, RecordsOf;
    RecordsOfWalk(s, hash, source, target, w);
    StatesOnWalk(s, w, Traversed(Snapshot(s).links, PathOf(Snapshot(s), hash, source, target, w).elements));
  }

  /** The rejections are those of the considered walks that are no candidates, in order, each with its reason. */
  lemma RejectionsRecorded(s: State, limits: Limits, hash: PathHash, policy: RoutePolicy, source: nat, target: nat,
                           stamp: Stamp) returns (dropped: seq<nat>)
    requires Good(s, limits) && Endpoints(s, source, target)
    ensures var all := AllWalks(Snapshot(s), source, target, limits);
            var rejected := Decide(ViewOf(s), hash, limits, policy, source, target, stamp).rejected;
            Rising(dropped, |all|) && |rejected| == |dropped| &&
            (forall i: nat :: i in dropped <==>
              Considered(s, limits, source, target, i) && !Candidate(s, limits, hash, policy.hard, source, target,
                                                                     i)) &&
            forall k :: 0 <= k < |dropped| ==>
              rejected[k] == RejectedCandidate(
                hash(source, target, Links(all[dropped[k]])),
                ReasonFor(ViewOf(s), policy.hard, PathOf(Snapshot(s), hash, source, target, all[dropped[k]])))
  {
    hide AllWalks, Snapshot, Enumerated, Decide, Eligible, Ranked, Rejected, OutcomeOfRejection, OutcomeFor, Allows,
         Good, PathOf, Simple, Candidate, ReasonFor, Links;
    var all := AllWalks(Snapshot(s), source, target, limits);
    var paths := Enumerated(Snapshot(s), hash, source, target, limits);
    GoodIsFiled(s, limits);
    DecideOnState(s, limits, hash, policy, source, target, stamp);
    EndpointsNamed(s, limits, source);
    EndpointsNamed(s, limits, target);
    EnumerationIsComplete(Snapshot(s), hash, source, target, limits);
    dropped := RejectedPositions(ViewOf(s), policy.hard, paths);
    DroppedInRange(ViewOf(s), policy.hard, paths, Rejected(ViewOf(s), policy.hard, paths), dropped);
    forall i: nat | i < |paths|
      ensures ReasonFor(ViewOf(s), policy.hard, paths[i]) == NotRejected <==>
                Candidate(s, limits, hash, policy.hard, source, target, i)
      ensures paths[i].id == hash(source, target, Links(all[i]))
    {
      PathOfDirect(Snapshot(s), hash, source, target, all[i]);
      CandidateMeans(s, limits, hash, policy.hard, source, target, i);
    }
    if dropped != [] {
      assert dropped[0] in dropped;
    }
  }

  lemma CandidateMeans(s: State, limits: Limits, hash: PathHash, hard: HardConstraint, source: nat, target: nat, i: nat)
    requires Considered(s, limits, source, target, i)
    ensures Candidate(s, limits, hash, hard, source, target, i) <==>
              ReasonFor(ViewOf(s), hard, PathOf(Snapshot(s), hash, source, target,
                                                AllWalks(Snapshot(s), source, target, limits)[i])) == NotRejected
  {
    hide AllWalks, Snapshot, PathOf, Satisfies, Traversed, BestMeasurement, QualityOf, Reason;
    var w := AllWalks(Snapshot(s), source, target, limits)[i];
    PathOfHops(Snapshot(s), hash, source, target, w);
    EligibleMeansSatisfies(Snapshot(s), s.history, hard, PathOf(Snapshot(s), hash, source, target, w));
  }
}

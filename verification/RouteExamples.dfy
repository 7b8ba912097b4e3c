/** Registries with two devices and links from one to the other, registered through the mutations: inputs on which
  * general claims about routes hold or fail. */
module RouteExamples {
  import opened Types
  import opened Sorting
  import opened Registry
  import opened RegistryRuns
  import opened Paths
  import opened Quality
  import opened Ranking
  import opened Routing
  import opened RouteSelection
  import opened RouteSafety
  import opened RouteMeaning
  import opened RouteCompleteness

  // ---- Parallel links: each is one candidate ----

  ghost predicate AllFromTo(links: seq<LinkRecord>, source: nat, target: nat)
  {
    forall i :: 0 <= i < |links| ==> links[i].source == source && links[i].target == target
  }

  function EdgesTo(links: seq<LinkRecord>, target: nat): (es: seq<Edge>)
    ensures |es| == |links|
  {
    seq(|links|, i requires 0 <= i < |links| => Edge(links[i].id, target))
  }

  function Singles(edges: seq<Edge>): (ws: seq<seq<Edge>>)
    ensures |ws| == |edges|
  {
    seq(|edges|, i requires 0 <= i < |edges| => [edges[i]])
  }

  lemma {:induction false} ParallelEdges(links: seq<LinkRecord>, source: nat, target: nat)
    requires AllFromTo(links, source, target) && source != target
    ensures EdgesFrom(links, source) == EdgesTo(links, target)
  {
    if links != [] {
      var n := |links| - 1;
      ParallelEdges(links[..n], source, target);
      assert EdgesOf(links[n], source) == [Edge(links[n].id, target)];
      assert EdgesTo(links, target) == EdgesTo(links[..n], target) + [Edge(links[n].id, target)];
    }
  }

  lemma {:induction false} ViaTarget(links: seq<LinkRecord>, edges: seq<Edge>, visited: set<nat>, target: nat,
                                     room: nat)
    requires target !in visited && room >= 1 && forall i :: 0 <= i < |edges| ==> edges[i].to == target
    ensures WalksVia(links, edges, visited, target, room) == Singles(edges)
    decreases |edges|
  {
    if edges != [] {
      ViaTarget(links, edges[1..], visited, target, room);
      assert Through(links, edges[0], visited, target, room) == [[edges[0]]];
      assert Singles(edges) == [[edges[0]]] + Singles(edges[1..]);
    }
  }

  lemma ParallelWalks(links: seq<LinkRecord>, source: nat, target: nat, room: nat)
    requires AllFromTo(links, source, target) && source != target && Orderly(links) && room >= 1
    ensures Walks(links, source, {source}, target, room) == Singles(EdgesTo(links, target))
  {
    hide AllFromTo, Orderly, EdgesFrom, Neighbours, WalksVia;
    NeighboursIncrease(links, source);
    ParallelEdges(links, source, target);
    ViaTarget(links, EdgesTo(links, target), {source}, target, room);
  }

  // ---- Registering them ----

  ghost predicate Joinable(a: DeviceRecord, b: DeviceRecord)
  {
    a.id != 0 && b.id != 0 && a.id != b.id && a.generation != 0 && b.generation != 0
  }

  ghost predicate Connects(a: DeviceRecord, b: DeviceRecord, l: LinkRecord)
  {
    l.id != 0 && l.generation != 0 && l.source == a.id && l.target == b.id
  }

  function At(l: LinkRecord, g: nat): LinkRecord
  {
    l.(topologyGeneration := g)
  }

  lemma RunOne(limits: Limits, ops: seq<Mutation>, op: Mutation)
    ensures Run(INITIAL, limits, ops + [op]) == Apply(Run(INITIAL, limits, ops), limits, op)
  {
    hide Apply;
    assert (ops + [op])[..|ops|] == ops;
  }

  lemma FirstDevice(limits: Limits, a: DeviceRecord)
    requires limits.maxDevices >= 2 && a.id != 0 && a.generation != 0
    ensures AfterUpsertDevice(INITIAL, limits, a).0 == State(2, map[a.id := a], map[], [])
  {
  }

  lemma SecondDevice(limits: Limits, a: DeviceRecord, b: DeviceRecord)
    requires limits.maxDevices >= 2 && Joinable(a, b)
    ensures AfterUpsertDevice(State(2, map[a.id := a], map[], []), limits, b).0
         == State(3, map[a.id := a, b.id := b], map[], [])
  {
  }

  function TwoDevices(a: DeviceRecord, b: DeviceRecord): seq<Mutation>
  {
    [UpsertDevice(a)] + [UpsertDevice(b)]
  }

  lemma TwoDevicesState(limits: Limits, a: DeviceRecord, b: DeviceRecord)
    requires limits.maxDevices >= 2 && Joinable(a, b)
    ensures Run(INITIAL, limits, TwoDevices(a, b)) == State(3, map[a.id := a, b.id := b], map[], [])
  {
    hide AfterUpsertDevice;
    var none: seq<Mutation> := TwoDevices(a, b)[..0];
    assert none + [UpsertDevice(a)] == [UpsertDevice(a)];
    RunOne(limits, none, UpsertDevice(a));
    RunOne(limits, [UpsertDevice(a)], UpsertDevice(b));
    assert Run(INITIAL, limits, none) == INITIAL;
    hide Run;
    FirstDevice(limits, a);
    SecondDevice(limits, a, b);
  }

  lemma FewParallel(links: map<nat, LinkRecord>, a: nat, b: nat)
    ensures |ParallelLinks(links, a, b)| <= |links|
  {
    SubsetSmaller(ParallelLinks(links, a, b), links.Keys);
    assert |links.Keys| == |links|;
  }

  lemma LinkAdded(s: State, limits: Limits, a: DeviceRecord, b: DeviceRecord, l: LinkRecord)
    requires Joinable(a, b) && Connects(a, b, l) && s.devices == map[a.id := a, b.id := b] && l.id !in s.links
    requires |s.links| < limits.maxLinks && |s.links| < limits.maxParallelLinks
    ensures AfterUpsertLink(s, limits, l).0 == Advanced(s.(links := s.links[l.id := l]))
  {
    hide ParallelLinks, Advanced;
    FewParallel(s.links, l.source, l.target);
  }

  function OneLink(a: DeviceRecord, b: DeviceRecord, l: LinkRecord): seq<Mutation>
  {
    TwoDevices(a, b) + [UpsertLink(l)]
  }

  lemma OneLinkState(limits: Limits, a: DeviceRecord, b: DeviceRecord, l: LinkRecord)
    requires limits.maxDevices >= 2 && limits.maxLinks >= 3 && limits.maxParallelLinks >= 3
    requires Joinable(a, b) && Connects(a, b, l)
    ensures Run(INITIAL, limits, OneLink(a, b, l))
         == State(4, map[a.id := a, b.id := b], map[l.id := At(l, 4)], [])
  {
    hide Run, AfterUpsertLink, TwoDevices;
    TwoDevicesState(limits, a, b);
    RunOne(limits, TwoDevices(a, b), UpsertLink(l));
    var s := State(3, map[a.id := a, b.id := b], map[], []);
    LinkAdded(s, limits, a, b, l);
    assert s.links[l.id := l] == map[l.id := l];
  }

  function TwoLinks(a: DeviceRecord, b: DeviceRecord, l: LinkRecord, m: LinkRecord): seq<Mutation>
  {
    OneLink(a, b, l) + [UpsertLink(m)]
  }

  lemma TwoLinksState(limits: Limits, a: DeviceRecord, b: DeviceRecord, l: LinkRecord, m: LinkRecord)
    requires limits.maxDevices >= 2 && limits.maxLinks >= 3 && limits.maxParallelLinks >= 3
    requires Joinable(a, b) && Connects(a, b, l) && Connects(a, b, m) && l.id != m.id
    ensures Run(INITIAL, limits, TwoLinks(a, b, l, m))
         == State(5, map[a.id := a, b.id := b], map[l.id := At(l, 5), m.id := At(m, 5)], [])
  {
    hide Run, AfterUpsertLink, OneLink;
    OneLinkState(limits, a, b, l);
    RunOne(limits, OneLink(a, b, l), UpsertLink(m));
    var s := State(4, map[a.id := a, b.id := b], map[l.id := At(l, 4)], []);
    assert |s.links| == 1;
    LinkAdded(s, limits, a, b, m);
    assert Stamped(s.links[m.id := m], 5) == map[l.id := At(l, 5), m.id := At(m, 5)];
  }

  function PairOf(l: LinkRecord, m: LinkRecord): map<nat, LinkRecord>
  {
    map[l.id := l, m.id := m]
  }

  function TrioOf(l: LinkRecord, m: LinkRecord, n: LinkRecord): map<nat, LinkRecord>
  {
    map[l.id := l, m.id := m, n.id := n]
  }

  lemma ThirdStamped(l: LinkRecord, m: LinkRecord, n: LinkRecord)
    requires l.id < m.id < n.id
    ensures var pair := PairOf(At(l, 5), At(m, 5));
            |pair| == 2 && n.id !in pair && Stamped(pair[n.id := n], 6) == TrioOf(At(l, 6), At(m, 6), At(n, 6))
  {
  }

  lemma ThreeLinksState(limits: Limits, a: DeviceRecord, b: DeviceRecord, l: LinkRecord, m: LinkRecord, n: LinkRecord)
    requires limits.maxDevices >= 2 && limits.maxLinks >= 3 && limits.maxParallelLinks >= 3
    requires Joinable(a, b) && Connects(a, b, l) && Connects(a, b, m) && Connects(a, b, n)
    requires l.id < m.id < n.id
    ensures Run(INITIAL, limits, TwoLinks(a, b, l, m) + [UpsertLink(n)])
         == State(6, map[a.id := a, b.id := b], TrioOf(At(l, 6), At(m, 6), At(n, 6)), [])
  {
    hide Run, AfterUpsertLink, TwoLinks;
    TwoLinksState(limits, a, b, l, m);
    RunOne(limits, TwoLinks(a, b, l, m), UpsertLink(n));
    var s := State(5, map[a.id := a, b.id := b], PairOf(At(l, 5), At(m, 5)), []);
    assert Run(INITIAL, limits, TwoLinks(a, b, l, m)) == s;
    hide PairOf, TrioOf, At, Stamped;
    ThirdStamped(l, m, n);
    LinkAdded(s, limits, a, b, n);
  }

  // ---- Their candidates ----

  /** The snapshot lists these links, and each is one candidate walk. */
  lemma ListedWalks(s: State, limits: Limits, links: seq<LinkRecord>, source: nat, target: nat)
    requires Good(s, limits) && Increasing(links, LinkId) && Lists(links, s.links, LinkId)
    requires AllFromTo(links, source, target) && source != target
    ensures Snapshot(s).links == links
    ensures AllWalks(Snapshot(s), source, target, limits) == Singles(EdgesTo(links, target))
  {
    hide Good, AllFromTo, Orderly, Walks, Ordered, Lists, Increasing;
    IncreasingListingUnique(links, s.links, LinkId);
    SnapshotOrderly(s, limits);
    ParallelWalks(links, source, target, Room(limits));
  }

  lemma OneListed(l: LinkRecord)
    ensures Increasing([l], LinkId) && Lists([l], map[l.id := l], LinkId)
  {
  }

  lemma TwoListed(l: LinkRecord, m: LinkRecord)
    requires l.id < m.id
    ensures Increasing([l, m], LinkId) && Lists([l, m], map[l.id := l, m.id := m], LinkId)
  {
    var x := map[l.id := l, m.id := m];
    assert x.Keys == {l.id, m.id} && |x| == |x.Keys|;
  }

  lemma ThreeListed(l: LinkRecord, m: LinkRecord, n: LinkRecord)
    requires l.id < m.id < n.id
    ensures Increasing([l, m, n], LinkId) && Lists([l, m, n], TrioOf(l, m, n), LinkId)
  {
    var x := TrioOf(l, m, n);
    assert x.Keys == {l.id, m.id, n.id} && |x| == |x.Keys|;
  }

  // ---- One reported link makes a route ----

  /** Two devices and one reported link in a supported state, with a capability, make a route that may be executed. */
  lemma OneReportedLinkIsRoutable(a: DeviceRecord, b: DeviceRecord, l: LinkRecord, hash: PathHash, stamp: Stamp)
    requires Joinable(a, b) && Connects(a, b, l) && SupportedState(l) && Is(l, CapableLink)
    ensures Decide(ViewOf(Run(INITIAL, DEFAULT_LIMITS, OneLink(a, b, l))), hash, DEFAULT_LIMITS, DEFAULT_POLICY,
                   a.id, b.id, stamp).executable
  {
    hide Run, Decide, OneLink, Good, AllWalks, Snapshot, Lists, Increasing, SupportedCandidate;
    var s, m := Run(INITIAL, DEFAULT_LIMITS, OneLink(a, b, l)), At(l, 4);
    OneLinkState(DEFAULT_LIMITS, a, b, l);
    ReachableIsGood(DEFAULT_LIMITS, OneLink(a, b, l));
    OneListed(m);
    ListedWalks(s, DEFAULT_LIMITS, [m], a.id, b.id);
    assert SupportedState(m) && Is(m, CapableLink);
    hide SupportedState, Is;
    OnlyCandidate(s, DEFAULT_LIMITS, m, a.id, b.id);
    DefaultPolicyIsComplete(s, DEFAULT_LIMITS, hash, a.id, b.id, stamp);
  }

  lemma OnlyCandidate(s: State, limits: Limits, l: LinkRecord, source: nat, target: nat)
    requires limits.maxCandidatePaths > 0 && l.id in s.links && s.links[l.id] == l
    requires AllWalks(Snapshot(s), source, target, limits) == Singles(EdgesTo([l], target))
    requires SupportedState(l) && Is(l, CapableLink)
    ensures SupportedCandidate(s, limits, source, target, 0) && SupportedAreBacked(s, limits, source, target)
  {
    hide AllWalks, Snapshot, ReportsContention, SomeDegraded;
    var w := [Edge(l.id, target)];
    assert AllWalks(Snapshot(s), source, target, limits)[0] == w && w[0].link == l.id;
    assert LinkAt(s, w, 0) && SomeCapability(s, w);
  }

  // ---- The cap can hide a supported path ----

  /** With a cap of one candidate and a down link before an up one, no route is allowed, although a simple path over a
    * supported link exists. */
  lemma CapHidesSupportedPath(a: DeviceRecord, b: DeviceRecord, l: LinkRecord, m: LinkRecord, hash: PathHash,
                              stamp: Stamp)
    requires Joinable(a, b) && Connects(a, b, l) && Connects(a, b, m) && l.id < m.id
    requires l.state == LinkState.Down && m.state == LinkState.Up
    ensures var limits := DEFAULT_LIMITS.(maxCandidatePaths := 1);
            var s := Run(INITIAL, limits, TwoLinks(a, b, l, m));
            !Decide(ViewOf(s), hash, limits, DEFAULT_POLICY, a.id, b.id, stamp).executable &&
            exists w :: IsSimplePath(Snapshot(s).links, a.id, b.id, w) && |w| == 1 && AllSupported(s, w)
  {
    hide Run, Decide, TwoLinks, Good, AllWalks, Snapshot, Lists, Increasing, SupportedCandidate, Simple, Enumerated,
         PathOf;
    var limits := DEFAULT_LIMITS.(maxCandidatePaths := 1);
    var s := Run(INITIAL, limits, TwoLinks(a, b, l, m));
    TwoLinksState(limits, a, b, l, m);
    ReachableIsGood(limits, TwoLinks(a, b, l, m));
    TwoListed(At(l, 5), At(m, 5));
    ListedWalks(s, limits, [At(l, 5), At(m, 5)], a.id, b.id);
    FirstIsDown(s, limits, At(l, 5), At(m, 5), a.id, b.id);
    DefaultPolicyIsComplete(s, limits, hash, a.id, b.id, stamp);
    var w := [Edge(m.id, b.id)];
    assert AllWalks(Snapshot(s), a.id, b.id, limits)[1] == w;
    EnumerationIsComplete(Snapshot(s), hash, a.id, b.id, limits);
    assert IsSimplePath(Snapshot(s).links, a.id, b.id, w) && |w| == 1 && AllSupported(s, w);
  }

  lemma FirstIsDown(s: State, limits: Limits, l: LinkRecord, m: LinkRecord, source: nat, target: nat)
    requires limits.maxCandidatePaths == 1 && l.id in s.links && s.links[l.id] == l && l.state == LinkState.Down
    requires AllWalks(Snapshot(s), source, target, limits) == Singles(EdgesTo([l, m], target))
    ensures forall i: nat :: !SupportedCandidate(s, limits, source, target, i)
    ensures SupportedAreBacked(s, limits, source, target)
  {
    hide AllWalks, Snapshot;
    assert AllWalks(Snapshot(s), source, target, limits)[0] == [Edge(l.id, target)];
    assert [Edge(l.id, target)][0].link == l.id;
  }

  // ---- Tightening under a nominal-bandwidth factor ----

  const NOMINAL_RANKING := [
    RouteFactor(NominalBandwidth, 10.0),
    RouteFactor(Confidence, 2.0),
    RouteFactor(Degradation, 100.0)]

  const LOOSE := RoutePolicy(1, DEFAULT_HARD, NOMINAL_RANKING)
  const TIGHT := RoutePolicy(2, DEFAULT_HARD.(excludeDegraded := true), NOMINAL_RANKING)

  lemma NominalScore(q: PathQuality, ctx: FactorContext)
    ensures Score(NOMINAL_RANKING, q, ctx) ==
              10.0 * FactorValue(NominalBandwidth, q, ctx) + 2.0 * FactorValue(Confidence, q, ctx) +
              100.0 * FactorValue(Degradation, q, ctx)
  {
    hide FactorValue;
    var r := NOMINAL_RANKING;
    ScoreLast(r[..0], r[0], q, ctx);
    ScoreLast(r[..1], r[1], q, ctx);
    ScoreLast(r[..2], r[2], q, ctx);
    assert r[..1] == r[..0] + [r[0]];
    assert r[..2] == r[..1] + [r[1]];
    assert r == r[..2] + [r[2]];
  }

  lemma HighestScoreWins(ranking: seq<RouteFactor>, evals: seq<Eval>, i: nat)
    requires i < |evals|
    requires forall k :: 0 <= k < |evals| && k != i ==>
               Score(ranking, evals[i].quality, ContextOf(evals)) > Score(ranking, evals[k].quality, ContextOf(evals))
    ensures Ranked(ranking, evals)[0].path == evals[i].path
  {
    hide Score, ContextOf, Better, StableSort;
    var scored := Scored(ranking, ContextOf(evals), evals);
    BetterIsStrictWeakOrder();
    var f := FrontOfSort(scored, Better);
    FirstBeats(scored, Better, f, i);
    if f != i {
      LowerScoreLoses(scored[i], scored[f]);
    }
  }

  lemma ContextOfMore(evals: seq<Eval>, e: Eval)
    ensures ContextOf(evals + [e]).maxNominal == Larger(ContextOf(evals).maxNominal, e.quality.nominalBandwidth as real)
  {
    assert (evals + [e])[..|evals|] == evals;
  }

  lemma NoContext(evals: seq<Eval>)
    requires evals == []
    ensures ContextOf(evals).maxNominal == 1.0
  {
  }

  ghost predicate Rates(e: Eval, bandwidth: nat, degraded: bool, evidence: EvidenceClass)
  {
    && e.quality.nominalBandwidth == bandwidth
    && (e.quality.degradedLinks > 0 <==> degraded)
    && e.quality.evidence.evidenceClass == evidence
  }

  /** The third evaluation changes the scale, and with it the winner among the first two. */
  lemma ThirdSwapsFirstTwo(a: Eval, b: Eval, c: Eval)
    requires Rates(a, 1, false, EvidenceClass.Real) && Rates(b, 2, false, EvidenceClass.Synthetic)
    requires Rates(c, 100, true, EvidenceClass.Real)
    ensures Ranked(NOMINAL_RANKING, [a, b, c])[0].path == a.path
    ensures Ranked(NOMINAL_RANKING, [a, b])[0].path == b.path
  {
    hide Score, ContextOf, Ranked;
    var none: seq<Eval> := [a][..0];
    NoContext(none);
    ContextOfMore(none, a);
    ContextOfMore([a], b);
    ContextOfMore([a, b], c);
    assert none + [a] == [a] && [a] + [b] == [a, b] && [a, b] + [c] == [a, b, c];
    NominalScore(a.quality, ContextOf([a, b, c]));
    NominalScore(b.quality, ContextOf([a, b, c]));
    NominalScore(c.quality, ContextOf([a, b, c]));
    HighestScoreWins(NOMINAL_RANKING, [a, b, c], 0);
    NominalScore(a.quality, ContextOf([a, b]));
    NominalScore(b.quality, ContextOf([a, b]));
    HighestScoreWins(NOMINAL_RANKING, [a, b], 1);
  }

  /** The quality of a path over one link, with nothing measured. */
  lemma UnmeasuredLinkQuality(topology: Topology, ms: seq<MeasurementRecord>, p: Path, l: LinkRecord)
    requires ms == [] && Traversed(topology.links, p.elements) == [Some(l)]
    ensures var q := QualityOf(topology, ms, p);
            q.nominalBandwidth == l.capability.nominalBandwidth && q.measuredBandwidth == None &&
            q.measuredLatency == None && q.direct == p.direct && q.hopCount == p.hopCount &&
            (q.stale <==> Is(l, OutdatedLink)) &&
            (q.degradedLinks > 0 <==> Is(l, DegradedLink)) &&
            (l.evidence.evidenceClass.Real? || l.evidence.evidenceClass.Synthetic? ==>
              q.evidence.evidenceClass == l.evidence.evidenceClass)
  {
    hide Traversed, GenerationOf, OutcomeOf, Is, MissingCount, Missing;
    var rs := Traversed(topology.links, p.elements);
    assert BestMeasurement(ms, p.source, p.target) == None;
    var none := rs[..0];
    assert none == [] && Nominal(none) == 0 && Count(none, DegradedLink) == 0;
    assert rs == none + [Some(l)];
    MissingOneMore(none, Some(l));
    AnyOneMore(none, Some(l), DegradedLink);
    AnyOneMore(none, Some(l), SyntheticLink);
    AnyOneMore(none, Some(l), UnbackedLink);
    AnyOneMore(none, Some(l), OutdatedLink);
    assert !Any(none, SyntheticLink) && !Any(none, UnbackedLink) && !Any(none, OutdatedLink);
    EvidenceAspects(l);
  }

  lemma EvidenceAspects(l: LinkRecord)
    ensures Is(l, SyntheticLink) <==> l.evidence.evidenceClass.Synthetic?
    ensures Is(l, UnbackedLink) <==> l.evidence.evidenceClass.Unsupported?
  {
  }

  function PathOver(s: State, hash: PathHash, l: LinkRecord): Path
  {
    PathOf(Snapshot(s), hash, l.source, l.target, [Edge(l.id, l.target)])
  }

  function EvalOver(s: State, hash: PathHash, l: LinkRecord): Eval
  {
    Eval(PathOver(s, hash, l), Assessed(ViewOf(s), PathOver(s, hash, l)), 0.0)
  }

  lemma PathOverRecords(s: State, hash: PathHash, l: LinkRecord)
    requires Filed(s) && l.id in s.links && s.links[l.id] == l
    ensures var p := PathOver(s, hash, l);
            Traversed(Snapshot(s).links, p.elements) == [Some(l)] && p.source == l.source && p.target == l.target &&
            p.hopCount == 1 && p.id == hash(l.source, l.target, [l.id])
  {
    hide Traversed, Snapshot, ElementsOf, NvlinkCount, HasSwitch;
    var w := [Edge(l.id, l.target)];
    WalkRecords(s, l.source, w);
    assert Links(w) == [l.id];
  }

  /** One constraint beyond the default ones: no degraded or no contended candidates. */
  function Stricter(noDegraded: bool, noContended: bool): HardConstraint
  {
    DEFAULT_HARD.(excludeDegraded := noDegraded, excludeContended := noContended)
  }

  lemma SingleLinkKept(s: State, hash: PathHash, l: LinkRecord, noDegraded: bool, noContended: bool)
    requires Filed(s) && l.id in s.links && s.links[l.id] == l && SupportedState(l)
    ensures var best := BestMeasurement(s.history, l.source, l.target);
            ReasonFor(ViewOf(s), Stricter(noDegraded, noContended), PathOver(s, hash, l)) == NotRejected <==>
              (noDegraded ==> !Is(l, DegradedLink)) && (noContended ==> !(best.Some? && best.value.contended))
  {
    hide Traversed, Snapshot, BestMeasurement, QualityOf, Reason, SupportedState, Nominal, Is, PathOver;
    var p := PathOver(s, hash, l);
    PathOverRecords(s, hash, l);
    SupportedAspects(l);
    EligibleMeansSatisfies(Snapshot(s), s.history, Stricter(noDegraded, noContended), p);
    var rs := Traversed(Snapshot(s).links, p.elements);
    assert rs[0] == Some(l);
  }

  lemma EligibleOneMore(view: View, hard: HardConstraint, paths: seq<Path>, p: Path)
    ensures Eligible(view, hard, paths + [p]) == Eligible(view, hard, paths) +
              if ReasonFor(view, hard, p) == NotRejected then [Eval(p, Assessed(view, p), 0.0)] else []
  {
    hide ReasonFor, Assessed;
    assert (paths + [p])[..|paths|] == paths;
  }

  lemma NoPathsNoEvals(view: View, hard: HardConstraint, paths: seq<Path>)
    requires paths == []
    ensures Eligible(view, hard, paths) == []
  {
  }

  lemma EnumeratedOver(s: State, limits: Limits, hash: PathHash, links: seq<LinkRecord>, source: nat, target: nat)
    requires Good(s, limits) && Increasing(links, LinkId) && Lists(links, s.links, LinkId)
    requires AllFromTo(links, source, target) && source != target && source != 0 && target != 0
    requires |links| <= limits.maxCandidatePaths
    ensures Enumerated(Snapshot(s), hash, source, target, limits)
         == seq(|links|, i requires 0 <= i < |links| => PathOver(s, hash, links[i]))
  {
    hide Good, AllWalks, Snapshot, PathOf, Lists, Increasing;
    ListedWalks(s, limits, links, source, target);
    var ws := AllWalks(Snapshot(s), source, target, limits);
    assert forall i :: 0 <= i < |links| ==> ws[i] == [Edge(links[i].id, target)];
  }

  /** An up link with this bandwidth, degradation and evidence. */
  ghost predicate Reports(l: LinkRecord, bandwidth: nat, degraded: bool, evidence: EvidenceClass)
  {
    && l.state == LinkState.Up && l.capability.nominalBandwidth == bandwidth && l.degraded == degraded
    && l.evidence.evidenceClass == evidence
  }

  lemma RatedOver(s: State, hash: PathHash, l: LinkRecord, bandwidth: nat, degraded: bool, evidence: EvidenceClass)
    requires Filed(s) && l.id in s.links && s.links[l.id] == l && s.history == []
    requires Reports(l, bandwidth, degraded, evidence) && (evidence.Real? || evidence.Synthetic?)
    ensures Rates(EvalOver(s, hash, l), bandwidth, degraded, evidence)
    ensures SupportedState(l) && (Is(l, DegradedLink) <==> degraded)
  {
    hide Traversed, Snapshot, QualityOf, PathOver;
    PathOverRecords(s, hash, l);
    UnmeasuredLinkQuality(Snapshot(s), s.history, PathOver(s, hash, l), l);
  }

  lemma LooseKeepsAll(s: State, hash: PathHash, l: LinkRecord, m: LinkRecord, n: LinkRecord, paths: seq<Path>)
    requires Filed(s) && l.id in s.links && s.links[l.id] == l && m.id in s.links && s.links[m.id] == m
    requires n.id in s.links && s.links[n.id] == n
    requires SupportedState(l) && SupportedState(m) && SupportedState(n)
    requires !Is(l, DegradedLink) && !Is(m, DegradedLink) && Is(n, DegradedLink)
    requires paths == [PathOver(s, hash, l), PathOver(s, hash, m), PathOver(s, hash, n)]
    ensures Eligible(ViewOf(s), LOOSE.hard, paths)
         == [EvalOver(s, hash, l), EvalOver(s, hash, m), EvalOver(s, hash, n)]
    ensures Eligible(ViewOf(s), TIGHT.hard, paths) == [EvalOver(s, hash, l), EvalOver(s, hash, m)]
    ensures ReasonFor(ViewOf(s), TIGHT.hard, PathOver(s, hash, l)) == NotRejected
  {
    hide Eligible, ReasonFor, Assessed, PathOver, SupportedState, Is, BestMeasurement, Snapshot;
    assert LOOSE.hard == Stricter(false, false) && TIGHT.hard == Stricter(true, false);
    var p, q, r := PathOver(s, hash, l), PathOver(s, hash, m), PathOver(s, hash, n);
    var none: seq<Path> := paths[..0];
    assert none + [p] == [p] && [p] + [q] == [p, q] && [p, q] + [r] == paths;
    SingleLinkKept(s, hash, l, false, false);
    SingleLinkKept(s, hash, m, false, false);
    SingleLinkKept(s, hash, n, false, false);
    SingleLinkKept(s, hash, l, true, false);
    SingleLinkKept(s, hash, m, true, false);
    SingleLinkKept(s, hash, n, true, false);
    NoPathsNoEvals(ViewOf(s), LOOSE.hard, none);
    EligibleOneMore(ViewOf(s), LOOSE.hard, none, p);
    EligibleOneMore(ViewOf(s), LOOSE.hard, [p], q);
    EligibleOneMore(ViewOf(s), LOOSE.hard, [p, q], r);
    NoPathsNoEvals(ViewOf(s), TIGHT.hard, none);
    EligibleOneMore(ViewOf(s), TIGHT.hard, none, p);
    EligibleOneMore(ViewOf(s), TIGHT.hard, [p], q);
    EligibleOneMore(ViewOf(s), TIGHT.hard, [p, q], r);
  }

  lemma SelectedOver(s: State, hash: PathHash, policy: RoutePolicy, stamp: Stamp, evals: seq<Eval>, l: LinkRecord)
    requires Good(s, DEFAULT_LIMITS) && l.source in s.devices && l.target in s.devices
    requires l.id in s.links && s.links[l.id] == l
    requires Eligible(ViewOf(s), policy.hard, Enumerated(Snapshot(s), hash, l.source, l.target, DEFAULT_LIMITS))
          == evals
    requires evals != [] && Ranked(policy.ranking, evals)[0].path == PathOver(s, hash, l)
    ensures Decide(ViewOf(s), hash, DEFAULT_LIMITS, policy, l.source, l.target, stamp).selected
         == Some(hash(l.source, l.target, [l.id]))
  {
    GoodIsFiled(s, DEFAULT_LIMITS);
    hide Good, Decide, Eligible, Enumerated, Ranked, Snapshot, PathOver, Allows, OutcomeFor;
    EndpointsFound(s, DEFAULT_LIMITS, hash, policy, l.source, l.target, stamp);
    PathOverRecords(s, hash, l);
  }

  ghost predicate TrioState(s: State, l: LinkRecord, m: LinkRecord, n: LinkRecord, source: nat, target: nat)
  {
    && Good(s, DEFAULT_LIMITS) && source in s.devices && target in s.devices && source != target
    && s.links == TrioOf(l, m, n) && s.history == [] && l.id < m.id < n.id && AllFromTo([l, m, n], source, target)
    && Reports(l, 1, false, EvidenceClass.Real) && Reports(m, 2, false, EvidenceClass.Synthetic)
    && Reports(n, 100, true, EvidenceClass.Real)
  }

  lemma TrioListed(s: State, l: LinkRecord, m: LinkRecord, n: LinkRecord, source: nat, target: nat)
    requires TrioState(s, l, m, n, source, target)
    ensures Good(s, DEFAULT_LIMITS) && Increasing([l, m, n], LinkId) && Lists([l, m, n], s.links, LinkId)
    ensures AllFromTo([l, m, n], source, target) && source != target && source != 0 && target != 0
    ensures |[l, m, n]| <= DEFAULT_LIMITS.maxCandidatePaths
  {
    NonzeroIds(s, DEFAULT_LIMITS, source);
    NonzeroIds(s, DEFAULT_LIMITS, target);
    hide Good, Reports, Increasing, Lists, AllFromTo;
    ThreeListed(l, m, n);
  }

  lemma TrioPaths(s: State, l: LinkRecord, m: LinkRecord, n: LinkRecord, hash: PathHash, source: nat, target: nat)
    requires TrioState(s, l, m, n, source, target)
    ensures Enumerated(Snapshot(s), hash, source, target, DEFAULT_LIMITS)
         == [PathOver(s, hash, l), PathOver(s, hash, m), PathOver(s, hash, n)]
  {
    hide *;
    TrioListed(s, l, m, n, source, target);
    EnumeratedOver(s, DEFAULT_LIMITS, hash, [l, m, n], source, target);
  }

  lemma TrioLinks(s: State, l: LinkRecord, m: LinkRecord, n: LinkRecord, source: nat, target: nat)
    requires TrioState(s, l, m, n, source, target)
    ensures Filed(s) && l.id in s.links && s.links[l.id] == l && m.id in s.links && s.links[m.id] == m
    ensures n.id in s.links && s.links[n.id] == n
    ensures l.source == m.source == n.source == source && l.target == m.target == n.target == target
  {
    hide Reports, Good;
    GoodIsFiled(s, DEFAULT_LIMITS);
    assert [l, m, n][0] == l && [l, m, n][1] == m && [l, m, n][2] == n;
  }

  lemma TrioEvals(s: State, l: LinkRecord, m: LinkRecord, n: LinkRecord, hash: PathHash, source: nat, target: nat)
    requires TrioState(s, l, m, n, source, target)
    ensures var paths := Enumerated(Snapshot(s), hash, source, target, DEFAULT_LIMITS);
            var x, y, z := EvalOver(s, hash, l), EvalOver(s, hash, m), EvalOver(s, hash, n);
            Eligible(ViewOf(s), LOOSE.hard, paths) == [x, y, z] && Eligible(ViewOf(s), TIGHT.hard, paths) == [x, y] &&
            Ranked(NOMINAL_RANKING, [x, y, z])[0].path == x.path && Ranked(NOMINAL_RANKING, [x, y])[0].path == y.path
    ensures ReasonFor(ViewOf(s), TIGHT.hard, PathOver(s, hash, l)) == NotRejected
  {
    hide Good, Eligible, Enumerated, Ranked, Snapshot, PathOver, Reports, Rates, SupportedState, Is, EvalOver,
         ReasonFor, AllFromTo;
    TrioLinks(s, l, m, n, source, target);
    TrioPaths(s, l, m, n, hash, source, target);
    hide TrioOf;
    RatedOver(s, hash, l, 1, false, EvidenceClass.Real);
    RatedOver(s, hash, m, 2, false, EvidenceClass.Synthetic);
    RatedOver(s, hash, n, 100, true, EvidenceClass.Real);
    LooseKeepsAll(s, hash, l, m, n, Enumerated(Snapshot(s), hash, source, target, DEFAULT_LIMITS));
    ThirdSwapsFirstTwo(EvalOver(s, hash, l), EvalOver(s, hash, m), EvalOver(s, hash, n));
  }

  /** The two decisions on a state with these three links and nothing measured. */
  lemma SwappedSelections(s: State, l: LinkRecord, m: LinkRecord, n: LinkRecord, hash: PathHash, source: nat,
                          target: nat, stamp: Stamp)
    requires TrioState(s, l, m, n, source, target)
    ensures Decide(ViewOf(s), hash, DEFAULT_LIMITS, LOOSE, source, target, stamp).selected
         == Some(hash(source, target, [l.id]))
    ensures Decide(ViewOf(s), hash, DEFAULT_LIMITS, TIGHT, source, target, stamp).selected
         == Some(hash(source, target, [m.id]))
    ensures ReasonFor(ViewOf(s), TIGHT.hard, PathOver(s, hash, l)) == NotRejected
  {
    hide Good, Decide, Eligible, Enumerated, Ranked, Snapshot, PathOver, Reports, ReasonFor, Assessed, TrioOf,
         AllFromTo;
    TrioLinks(s, l, m, n, source, target);
    TrioEvals(s, l, m, n, hash, source, target);
    var x, y, z := EvalOver(s, hash, l), EvalOver(s, hash, m), EvalOver(s, hash, n);
    SelectedOver(s, hash, LOOSE, stamp, [x, y, z], l);
    SelectedOver(s, hash, TIGHT, stamp, [x, y], m);
  }

  lemma NonzeroIds(s: State, limits: Limits, id: nat)
    requires Good(s, limits) && id in s.devices
    ensures id != 0
  {
  }

  /** Stability under tightening fails with a nominal-bandwidth factor: after registering two devices and three parallel
    * links, excluding degraded candidates drops the third, keeps the winner eligible, and selects the second. */
  lemma NominalTighteningSwapsWinner(a: DeviceRecord, b: DeviceRecord, l: LinkRecord, m: LinkRecord, n: LinkRecord,
                                     hash: PathHash, stamp: Stamp)
    requires Joinable(a, b) && Connects(a, b, l) && Connects(a, b, m) && Connects(a, b, n) && l.id < m.id < n.id
    requires Reports(l, 1, false, EvidenceClass.Real) && Reports(m, 2, false, EvidenceClass.Synthetic)
    requires Reports(n, 100, true, EvidenceClass.Real)
    ensures var s := Run(INITIAL, DEFAULT_LIMITS, TwoLinks(a, b, l, m) + [UpsertLink(n)]);
            Tighter(TIGHT.hard, LOOSE.hard) && TIGHT.ranking == LOOSE.ranking &&
            Decide(ViewOf(s), hash, DEFAULT_LIMITS, LOOSE, a.id, b.id, stamp).selected
              == Some(hash(a.id, b.id, [l.id])) &&
            Decide(ViewOf(s), hash, DEFAULT_LIMITS, TIGHT, a.id, b.id, stamp).selected
              == Some(hash(a.id, b.id, [m.id])) &&
            ReasonFor(ViewOf(s), TIGHT.hard, PathOf(Snapshot(s), hash, a.id, b.id, [Edge(l.id, b.id)])) == NotRejected
  {
    hide Run, Decide, TwoLinks, Good, Snapshot, ReasonFor, PathOf;
    var ops := TwoLinks(a, b, l, m) + [UpsertLink(n)];
    ThreeLinksState(DEFAULT_LIMITS, a, b, l, m, n);
    ReachableIsGood(DEFAULT_LIMITS, ops);
    SwappedSelections(Run(INITIAL, DEFAULT_LIMITS, ops), At(l, 6), At(m, 6), At(n, 6), hash, a.id, b.id, stamp);
  }

  // ---- An unbacked winner blocks a route ----

  lemma MoreConfidentScoresHigher(q: PathQuality, r: PathQuality, ctx: FactorContext)
    requires SameEvidence(q, r) && q.direct == r.direct && q.hopCount == r.hopCount
    requires (q.degradedLinks == 0) == (r.degradedLinks == 0)
    requires ConfidenceValue(q.evidence) > ConfidenceValue(r.evidence)
    ensures Score(DEFAULT_RANKING, q, ctx) > Score(DEFAULT_RANKING, r, ctx)
  {
    DefaultScore(q, ctx);
    DefaultScore(r, ctx);
    SharedFactors(q, r, ctx);
    assert FactorValue(Directness, q, ctx) == FactorValue(Directness, r, ctx);
    assert FactorValue(HopCount, q, ctx) == FactorValue(HopCount, r, ctx);
    assert FactorValue(Degradation, q, ctx) == FactorValue(Degradation, r, ctx);
    assert FactorValue(Confidence, q, ctx) > FactorValue(Confidence, r, ctx);
    hide Score, FactorValue;
  }

  /** An up link with this evidence, and with or without a capability. */
  ghost predicate UpWith(l: LinkRecord, evidence: EvidenceClass, capable: bool)
  {
    && l.state == LinkState.Up && !l.degraded && l.evidence.evidenceClass == evidence
    && (Is(l, CapableLink) <==> capable)
  }

  lemma UpAspects(l: LinkRecord, evidence: EvidenceClass, capable: bool)
    requires UpWith(l, evidence, capable)
    ensures SupportedState(l) && !Is(l, DegradedLink) && !Is(l, OutdatedLink)
  {
  }

  lemma RealOutranksSynthetic(s: State, hash: PathHash, l: LinkRecord, m: LinkRecord, ctx: FactorContext)
    requires Filed(s) && s.history == [] && l.source == m.source && l.target == m.target
    requires l.id in s.links && s.links[l.id] == l && m.id in s.links && s.links[m.id] == m
    requires UpWith(l, EvidenceClass.Real, false) && UpWith(m, EvidenceClass.Synthetic, true)
    ensures Score(DEFAULT_RANKING, Assessed(ViewOf(s), PathOver(s, hash, l)), ctx)
          > Score(DEFAULT_RANKING, Assessed(ViewOf(s), PathOver(s, hash, m)), ctx)
  {
    UpAspects(l, EvidenceClass.Real, false);
    UpAspects(m, EvidenceClass.Synthetic, true);
    hide Traversed, Snapshot, QualityOf, PathOver, Score, Is;
    PathOverRecords(s, hash, l);
    PathOverRecords(s, hash, m);
    PathOverDirect(s, hash, l);
    PathOverDirect(s, hash, m);
    UnmeasuredLinkQuality(Snapshot(s), s.history, PathOver(s, hash, l), l);
    UnmeasuredLinkQuality(Snapshot(s), s.history, PathOver(s, hash, m), m);
    MoreConfidentScoresHigher(Assessed(ViewOf(s), PathOver(s, hash, l)), Assessed(ViewOf(s), PathOver(s, hash, m)),
                              ctx);
  }

  lemma PathOverDirect(s: State, hash: PathHash, l: LinkRecord)
    ensures PathOver(s, hash, l).direct
  {
    hide Snapshot, ElementsOf, NvlinkCount, HasSwitch;
  }

  ghost predicate UnbackedPair(s: State, l: LinkRecord, m: LinkRecord, source: nat, target: nat)
  {
    && Filed(s) && s.history == [] && s.links == PairOf(l, m) && l.id < m.id && AllFromTo([l, m], source, target)
    && UpWith(l, EvidenceClass.Real, false) && UpWith(m, EvidenceClass.Synthetic, true)
    && AllWalks(Snapshot(s), source, target, DEFAULT_LIMITS) == Singles(EdgesTo([l, m], target))
  }

  lemma PairWalks(s: State, l: LinkRecord, m: LinkRecord, source: nat, target: nat)
    requires UnbackedPair(s, l, m, source, target)
    ensures AllWalks(Snapshot(s), source, target, DEFAULT_LIMITS) == [[Edge(l.id, target)], [Edge(m.id, target)]]
    ensures l.id in s.links && s.links[l.id] == l && m.id in s.links && s.links[m.id] == m
    ensures l.source == m.source == source && l.target == m.target == target
  {
    assert [l, m][0] == l && [l, m][1] == m;
    hide AllWalks, Snapshot, UpWith, Filed;
  }

  lemma PairSupported(s: State, l: LinkRecord, m: LinkRecord, source: nat, target: nat)
    requires UnbackedPair(s, l, m, source, target)
    ensures forall i: nat :: SupportedCandidate(s, DEFAULT_LIMITS, source, target, i) <==> i < 2
  {
    PairWalks(s, l, m, source, target);
    hide AllWalks, Snapshot, Filed, Is;
    var w, v := [Edge(l.id, target)], [Edge(m.id, target)];
    assert w[0].link == l.id && v[0].link == m.id;
    assert AllSupported(s, w) && AllSupported(s, v);
  }

  /** The backing of one link, with nothing measured. */
  lemma SingleBacking(s: State, source: nat, target: nat, l: LinkRecord)
    requires s.history == [] && l.id in s.links && s.links[l.id] == l
    ensures Backing(s, source, target, [Edge(l.id, target)]) <==> Is(l, DegradedLink) || Is(l, CapableLink)
  {
    var w := [Edge(l.id, target)];
    assert w[0].link == l.id && LinkAt(s, w, 0);
    if SomeDegraded(s, w) || SomeCapability(s, w) {
      assert forall i: nat :: LinkAt(s, w, i) ==> i == 0;
    }
  }

  lemma PairBacking(s: State, l: LinkRecord, m: LinkRecord, source: nat, target: nat)
    requires UnbackedPair(s, l, m, source, target)
    ensures !Backing(s, source, target, [Edge(l.id, target)]) && Backing(s, source, target, [Edge(m.id, target)])
  {
    UpAspects(l, EvidenceClass.Real, false);
    UpAspects(m, EvidenceClass.Synthetic, true);
    PairWalks(s, l, m, source, target);
    assert s.history == [] && !Is(l, CapableLink) && Is(m, CapableLink);
    hide *;
    SingleBacking(s, source, target, l);
    SingleBacking(s, source, target, m);
  }

  lemma HigherPrecedes(a: Standing, b: Standing)
    ensures a.score > b.score ==> Precedes(a, b)
  {
  }

  lemma PairRanked(s: State, l: LinkRecord, m: LinkRecord, hash: PathHash, source: nat, target: nat)
    requires UnbackedPair(s, l, m, source, target) && |AllWalks(Snapshot(s), source, target, DEFAULT_LIMITS)| == 2
    ensures StandingOf(s, DEFAULT_LIMITS, hash, DEFAULT_POLICY, source, target, 0).score
          > StandingOf(s, DEFAULT_LIMITS, hash, DEFAULT_POLICY, source, target, 1).score
  {
    hide Score, Assessed, PathOf, ContextOf, Eligible, Enumerated, UpWith, AllWalks, Snapshot, Filed;
    PairWalks(s, l, m, source, target);
    var evals := Eligible(ViewOf(s), DEFAULT_HARD, Enumerated(Snapshot(s), hash, source, target, DEFAULT_LIMITS));
    RealOutranksSynthetic(s, hash, l, m, ContextOf(evals));
  }

  lemma UnbackedFirst(s: State, l: LinkRecord, m: LinkRecord, hash: PathHash, source: nat, target: nat)
    requires UnbackedPair(s, l, m, source, target)
    ensures Preferred(s, DEFAULT_LIMITS, hash, DEFAULT_POLICY, source, target, 0)
  {
    assert Filed(s);
    hide UnbackedPair, SupportedCandidate, StandingOf, Candidate, AllWalks, Snapshot, Filed, Precedes;
    PairWalks(s, l, m, source, target);
    PairSupported(s, l, m, source, target);
    PairRanked(s, l, m, hash, source, target);
    HigherPrecedes(StandingOf(s, DEFAULT_LIMITS, hash, DEFAULT_POLICY, source, target, 0),
                   StandingOf(s, DEFAULT_LIMITS, hash, DEFAULT_POLICY, source, target, 1));
    forall i: nat
      ensures Candidate(s, DEFAULT_LIMITS, hash, DEFAULT_HARD, source, target, i) <==> i < 2
    {
      SupportedAreCandidates(s, DEFAULT_LIMITS, hash, source, target, i);
    }
  }

  /** Two parallel up links, the first with real evidence but no capability, the second synthetic with one: the first
    * ranks higher, so the decision is that evidence is insufficient, although the second alone would carry a route. */
  lemma UnbackedWinnerBlocksRoute(a: DeviceRecord, b: DeviceRecord, l: LinkRecord, m: LinkRecord, hash: PathHash,
                                  stamp: Stamp)
    requires Joinable(a, b) && Connects(a, b, l) && Connects(a, b, m) && l.id < m.id
    requires UpWith(l, EvidenceClass.Real, false) && UpWith(m, EvidenceClass.Synthetic, true)
    ensures var s := Run(INITIAL, DEFAULT_LIMITS, TwoLinks(a, b, l, m));
            var d := Decide(ViewOf(s), hash, DEFAULT_LIMITS, DEFAULT_POLICY, a.id, b.id, stamp);
            d.outcome == RouteOutcome.InsufficientEvidence && !d.executable &&
            SupportedCandidate(s, DEFAULT_LIMITS, a.id, b.id, 1) && Backing(s, a.id, b.id, [Edge(m.id, b.id)])
  {
    hide Run, Decide, TwoLinks, Good, AllWalks, Snapshot, Lists, Increasing, SupportedCandidate, Backing,
         Preferred, PathOf;
    var s := Run(INITIAL, DEFAULT_LIMITS, TwoLinks(a, b, l, m));
    var x, y := At(l, 5), At(m, 5);
    TwoLinksState(DEFAULT_LIMITS, a, b, l, m);
    ReachableIsGood(DEFAULT_LIMITS, TwoLinks(a, b, l, m));
    GoodIsFiled(s, DEFAULT_LIMITS);
    TwoListed(x, y);
    ListedWalks(s, DEFAULT_LIMITS, [x, y], a.id, b.id);
    assert UpWith(x, EvidenceClass.Real, false) && UpWith(y, EvidenceClass.Synthetic, true);
    assert UnbackedPair(s, x, y, a.id, b.id);
    hide UpWith, UnbackedPair;
    PairSupported(s, x, y, a.id, b.id);
    PairBacking(s, x, y, a.id, b.id);
    UnbackedFirst(s, x, y, hash, a.id, b.id);
    DefaultDecisionIff(s, DEFAULT_LIMITS, hash, a.id, b.id, stamp);
    assert Singles(EdgesTo([x, y], b.id))[0] == [Edge(x.id, b.id)];
  }

  // ---- A publish can change what deciding again gives, though the fence stands still ----

  const UNCONTENDED := RoutePolicy(3, DEFAULT_HARD.(excludeContended := true), DEFAULT_RANKING)

  /** The only candidate of a state with one link, under a policy against contention. */
  lemma OneLinkEvals(s: State, l: LinkRecord, hash: PathHash)
    requires Good(s, DEFAULT_LIMITS) && l.source in s.devices && l.target in s.devices && l.source != l.target
    requires s.links == map[l.id := l] && SupportedState(l)
    ensures var best := BestMeasurement(s.history, l.source, l.target);
            Eligible(ViewOf(s), UNCONTENDED.hard, Enumerated(Snapshot(s), hash, l.source, l.target, DEFAULT_LIMITS))
              == if best.Some? && best.value.contended then [] else [EvalOver(s, hash, l)]
  {
    GoodIsFiled(s, DEFAULT_LIMITS);
    NonzeroIds(s, DEFAULT_LIMITS, l.source);
    NonzeroIds(s, DEFAULT_LIMITS, l.target);
    hide Good, Eligible, Enumerated, Snapshot, PathOver, SupportedState, Increasing, Lists, Assessed, ReasonFor,
         BestMeasurement;
    OneListed(l);
    EnumeratedOver(s, DEFAULT_LIMITS, hash, [l], l.source, l.target);
    var paths := Enumerated(Snapshot(s), hash, l.source, l.target, DEFAULT_LIMITS);
    var none: seq<Path> := paths[..0];
    assert paths == none + [PathOver(s, hash, l)];
    assert UNCONTENDED.hard == Stricter(false, true);
    SingleLinkKept(s, hash, l, false, true);
    NoPathsNoEvals(ViewOf(s), UNCONTENDED.hard, none);
    EligibleOneMore(ViewOf(s), UNCONTENDED.hard, none, PathOver(s, hash, l));
  }

  lemma OneLinkPasses(s: State, l: LinkRecord, hash: PathHash)
    requires Filed(s) && l.id in s.links && s.links[l.id] == l && SupportedState(l) && Is(l, CapableLink)
    ensures Passable(EvalOver(s, hash, l).quality.outcome)
  {
    var w := [Edge(l.id, l.target)];
    var o := EvalOver(s, hash, l).quality.outcome;
    assert w[0].link == l.id && LinkAt(s, w, 0) && SomeCapability(s, w) && AllSupported(s, w);
    hide Snapshot, PathOf, Assessed, Passable, OutcomeMeans, AnswerMeans, AllSupported, SomeCapability, SomeDegraded,
         ReportsContention, Allows, OutcomeFor;
    WalkOutcome(s, hash, l.source, l.target, w);
    AnswerOfOutcome(s, l.source, l.target, w, o);
    SupportedAnswer(s, l.source, l.target, w, OutcomeFor(o), Allows(OutcomeFor(o)));
    AllowedIsPassable(o);
  }

  lemma OneLinkDecision(s: State, l: LinkRecord, hash: PathHash, stamp: Stamp)
    requires Good(s, DEFAULT_LIMITS) && l.source in s.devices && l.target in s.devices && l.source != l.target
    requires s.links == map[l.id := l] && SupportedState(l) && Is(l, CapableLink)
    ensures var best := BestMeasurement(s.history, l.source, l.target);
            var d := Decide(ViewOf(s), hash, DEFAULT_LIMITS, UNCONTENDED, l.source, l.target, stamp);
            d.executable == !(best.Some? && best.value.contended)
  {
    GoodIsFiled(s, DEFAULT_LIMITS);
    hide Good, Decide, Eligible, Enumerated, Ranked, Snapshot, EvalOver, SupportedState, Is, Allows, OutcomeFor,
         BestMeasurement, Passable;
    OneLinkEvals(s, l, hash);
    OneLinkPasses(s, l, hash);
    EndpointsFound(s, DEFAULT_LIMITS, hash, UNCONTENDED, l.source, l.target, stamp);
    AllowedIsPassable(EvalOver(s, hash, l).quality.outcome);
    SingleRanked(UNCONTENDED.ranking, EvalOver(s, hash, l));
  }

  lemma SingleRanked(ranking: seq<RouteFactor>, e: Eval)
    ensures Ranked(ranking, [e])[0].quality == e.quality
  {
    hide Score, Better;
    var scored := Scored(ranking, ContextOf([e]), [e]);
    var none := scored[1..];
    assert none == [] && StableSort(none, Better) == [];
  }

  lemma OnlyMeasurement(ms: seq<MeasurementRecord>, x: MeasurementRecord)
    requires ms == [x] && x.valid && !x.stale
    ensures BestMeasurement(ms, x.source, x.target) == Some(x)
  {
    var none := ms[..0];
    assert none == [] && BestMeasurement(none, x.source, x.target) == None;
  }

  lemma PublishedFirst(s: State, x: MeasurementRecord, freshId: nat)
    requires s.history == []
    ensures AfterPublishMeasurement(s, DEFAULT_LIMITS, x, freshId) == s.(history := [Published(x, freshId)])
  {
  }

  /** A contended measurement, published after an executable decision, leaves that decision executable, but deciding
    * again under the same policy finds no route. */
  lemma PublishChangesRedecision(a: DeviceRecord, b: DeviceRecord, l: LinkRecord, x: MeasurementRecord, freshId: nat,
                                 hash: PathHash, stamp: Stamp, later: Stamp)
    requires Joinable(a, b) && Connects(a, b, l) && SupportedState(l) && Is(l, CapableLink)
    requires x.valid && x.contended && x.source == a.id && x.target == b.id
    ensures var s := Run(INITIAL, DEFAULT_LIMITS, OneLink(a, b, l));
            var t := Run(INITIAL, DEFAULT_LIMITS, OneLink(a, b, l) + [PublishMeasurement(x, freshId)]);
            var d := Decide(ViewOf(s), hash, DEFAULT_LIMITS, UNCONTENDED, a.id, b.id, stamp);
            d.executable && Executable(t, d) &&
            !Decide(ViewOf(t), hash, DEFAULT_LIMITS, UNCONTENDED, a.id, b.id, later).executable
  {
    hide Run, Decide, OneLink, Good, BestMeasurement, Snapshot, AfterPublishMeasurement;
    var ops, after := OneLink(a, b, l), [PublishMeasurement(x, freshId)];
    var s, t := Run(INITIAL, DEFAULT_LIMITS, ops), Run(INITIAL, DEFAULT_LIMITS, ops + after);
    OneLinkState(DEFAULT_LIMITS, a, b, l);
    ReachableIsGood(DEFAULT_LIMITS, ops);
    ReachableIsGood(DEFAULT_LIMITS, ops + after);
    RunOne(DEFAULT_LIMITS, ops, PublishMeasurement(x, freshId));
    PublishedFirst(s, x, freshId);
    OnlyMeasurement(t.history, Published(x, freshId));
    NothingMeasured(s.history, a.id, b.id);
    var m := At(l, 4);
    assert SupportedState(m) && Is(m, CapableLink);
    hide SupportedState, Is, Executable;
    OneLinkDecision(s, m, hash, stamp);
    OneLinkDecision(t, m, hash, later);
    FenceIsExact(DEFAULT_LIMITS, ops, after, hash, UNCONTENDED, a.id, b.id, stamp);
  }

  lemma NothingMeasured(ms: seq<MeasurementRecord>, source: nat, target: nat)
    requires ms == []
    ensures BestMeasurement(ms, source, target) == None
  {
  }
}

/** Decisions over whole runs: what an executable route rests on, and when it stops being executable. */
module RouteSafety {
  import opened Types
  import opened Sorting
  import opened Registry
  import opened RegistryRuns
  import opened RegistryTheorems
  import opened Paths
  import opened Quality
  import opened Ranking
  import opened Routing
  import opened RouteSelection

  // ---- Looking records up in a snapshot ----

  lemma {:induction false} FindOrderedLink(links: map<nat, LinkRecord>, id: nat)
    requires forall k :: k in links ==> links[k].id == k
    ensures FindLink(Ordered(links), id) == if id in links then Some(links[id]) else None
    decreases |links|
  {
    if links != map[] {
      hide Ordered;
      var k := OrderedFirst(links);
      FindOrderedLink(links - {k}, id);
      assert Ordered(links)[1..] == Ordered(links - {k});
    }
  }

  lemma {:induction false} FindOrderedDevice(devices: map<nat, DeviceRecord>, id: nat)
    requires forall k :: k in devices ==> devices[k].id == k
    ensures FindDevice(Ordered(devices), id) == if id in devices then Some(devices[id]) else None
    decreases |devices|
  {
    if devices != map[] {
      hide Ordered;
      var k := OrderedFirst(devices);
      FindOrderedDevice(devices - {k}, id);
      assert Ordered(devices)[1..] == Ordered(devices - {k});
    }
  }

  /** Snapshots of a registry are orderly, so enumeration over them is in order. */
  lemma SnapshotOrderly(s: State, limits: Limits)
    requires Good(s, limits)
    ensures Orderly(Snapshot(s).links)
  {
    OrderedLists(s.links, LinkId);
  }

  /** Whatever mutations made a registry, its candidate paths are discovered in order and each only once. */
  lemma RegistryPathsInOrder(limits: Limits, ops: seq<Mutation>, source: nat, target: nat)
    ensures var all := AllWalks(Snapshot(Run(INITIAL, limits, ops)), source, target, limits);
            InOrder(all) && forall i, j :: 0 <= i < j < |all| ==> all[i] != all[j]
  {
    hide Run, Walks, Before, Orderly, Good, Snapshot;
    ReachableIsGood(limits, ops);
    SnapshotOrderly(Run(INITIAL, limits, ops), limits);
    EnumerationInOrder(Snapshot(Run(INITIAL, limits, ops)), source, target, limits);
  }

  lemma SimplePathNotEmpty(links: seq<LinkRecord>, source: nat, target: nat, w: seq<Edge>)
    requires IsSimplePath(links, source, target, w)
    ensures w != []
  {
  }

  // ---- An executable route runs over usable links ----

  ghost predicate Usable(s: State, hard: HardConstraint, w: seq<Edge>)
  {
    forall i :: 0 <= i < |w| ==>
      w[i].link in s.links && !OutOfUse(s.links[w[i].link]) &&
      (hard.requireSupportedLinks ==> SupportedState(s.links[w[i].link]))
  }

  lemma AllowedIsPassable(o: PathOutcome)
    ensures Allows(OutcomeFor(o)) <==> Passable(o)
  {
  }

  lemma AssessedOutcome(view: View, p: Path)
    ensures Assessed(view, p).outcome == OutcomeOf(Traversed(view.topology.links, p.elements), p.hopCount,
                                                   ContendedPair(view.measurements, p.source, p.target))
  {
    hide Any, Count, MissingCount, Missing, Nominal, Traversed, BestMeasurement, EvidenceOf, GenerationOf, OutcomeOf;
  }

  lemma WalkRecords(s: State, source: nat, w: seq<Edge>)
    requires forall k :: k in s.links ==> s.links[k].id == k
    ensures var rs := Traversed(Snapshot(s).links, ElementsOf(source, w));
            |rs| == |w| && forall i :: 0 <= i < |w| ==>
              rs[i] == if w[i].link in s.links then Some(s.links[w[i].link]) else None
  {
    hide Traversed, FindLink, Ordered, ElementsOf, LinksIn;
    var es := ElementsOf(source, w);
    LinksOfWalk(source, w);
    TraversedRecords(Snapshot(s).links, es);
    forall i | 0 <= i < |w|
      ensures FindLink(Snapshot(s).links, w[i].link) == if w[i].link in s.links then Some(s.links[w[i].link]) else None
    {
      FindOrderedLink(s.links, w[i].link);
    }
  }

  lemma PassableWalkIsUsable(s: State, hard: HardConstraint, source: nat, w: seq<Edge>, p: Path)
    requires forall k :: k in s.links ==> s.links[k].id == k
    requires p.elements == ElementsOf(source, w)
    requires ReasonFor(ViewOf(s), hard, p) == NotRejected && Passable(Assessed(ViewOf(s), p).outcome)
    ensures Usable(s, hard, w)
  {
    hide Traversed, Snapshot, ElementsOf, OutcomeOf, BestMeasurement, QualityOf, Reason, OutOfUse, SupportedState,
         Nominal, Is;
    var view := ViewOf(s);
    var rs := Traversed(Snapshot(s).links, p.elements);
    WalkRecords(s, source, w);
    AssessedOutcome(view, p);
    PassableOutcome(rs, p.hopCount, ContendedPair(view.measurements, p.source, p.target));
    EligibleMeansSatisfies(view.topology, view.measurements, hard, p);
  }

  lemma EnumeratedWalk(topology: Topology, hash: PathHash, source: nat, target: nat, limits: Limits, i: nat)
    returns (w: seq<Edge>)
    requires i < |Enumerated(topology, hash, source, target, limits)|
    ensures Enumerated(topology, hash, source, target, limits)[i] == PathOf(topology, hash, source, target, w)
    ensures IsSimplePath(topology.links, source, target, w) && |w| <= Max(1, limits.maxPathDepth)
  {
    hide Walks, PathOf, Simple;
    var ws := AllWalks(topology, source, target, limits);
    w := ws[i];
    assert w in ws;
    WalksAreSimplePaths(topology.links, source, {source}, target, Room(limits), w);
  }

  lemma PathOfElements(topology: Topology, hash: PathHash, source: nat, target: nat, w: seq<Edge>)
    ensures PathOf(topology, hash, source, target, w).elements == ElementsOf(source, w)
  {
  }

  /** The selected path of an executable decision, whatever the policy, is a simple path of links that are all
    * present and neither down, absent, unreachable, unsupported, stale nor awaiting revalidation; with
    * supported links required, each is up, present, supported or degraded. */
  lemma ExecutableRoute(s: State, limits: Limits, hash: PathHash, policy: RoutePolicy, source: nat, target: nat,
                        stamp: Stamp) returns (w: seq<Edge>)
    requires Good(s, limits) && Decide(ViewOf(s), hash, limits, policy, source, target, stamp).executable
    ensures IsSimplePath(Snapshot(s).links, source, target, w) && |w| <= Max(1, limits.maxPathDepth)
    ensures Decide(ViewOf(s), hash, limits, policy, source, target, stamp).selected
         == Some(PathOf(Snapshot(s), hash, source, target, w).id)
    ensures Usable(s, policy.hard, w)
  {
    hide Enumerated, FindDevice, Eligible, Rejected, ReasonFor, Assessed, RejectedUnsupported, RejectedAsOutdated, Wins,
         Ranked, Scored, PathOf, Usable, Snapshot, Simple, OutcomeFor, Allows, ElementsOf, Passable;
    var view := ViewOf(s);
    var paths := Enumerated(view.topology, hash, source, target, limits);
    RejectionAllowsNothing(view, policy.hard, paths);
    var i := WinnerExists(view, policy, paths);
    var kept := EligiblePositions(view, policy.hard, paths);
    WinnerQuality(view, policy, paths, i);
    w := EnumeratedWalk(view.topology, hash, source, target, limits, kept[i]);
    var p := paths[kept[i]];
    AllowedIsPassable(Assessed(view, p).outcome);
    PathOfElements(view.topology, hash, source, target, w);
    PassableWalkIsUsable(s, policy.hard, source, w, p);
  }

  lemma RejectionAllowsNothing(view: View, hard: HardConstraint, paths: seq<Path>)
    ensures !Allows(OutcomeOfRejection(view, hard, paths))
  {
  }

  /** Operation k upserted or state-updated the link, successfully and with the state it still has, and no
    * mark and no successful restore came after. */
  ghost predicate WrittenSinceMark(limits: Limits, ops: seq<Mutation>, id: nat, k: nat)
  {
    && k < |ops| && (ops[k].UpsertLink? || ops[k].UpdateLinkState?)
    && id in Run(INITIAL, limits, ops).links
    && LinkWrite(Run(INITIAL, limits, ops[..k]), limits, ops[k], id) == Some(Run(INITIAL, limits, ops).links[id].state)
    && forall j :: k < j < |ops| ==> !ops[j].MarkRevalidation? && !RestoresAt(limits, ops, j)
  }

  ghost predicate Reported(limits: Limits, ops: seq<Mutation>, id: nat)
  {
    exists k: nat :: WrittenSinceMark(limits, ops, id, k)
  }

  lemma NotAwaitingRevalidation(l: LinkRecord)
    requires !OutOfUse(l)
    ensures l.state != LinkState.RevalidationRequired
  {
  }

  /** Over every run and for every policy, each link of an executable route was reported since the last mark or
    * restore. */
  lemma ExecutableRouteProvenance(limits: Limits, ops: seq<Mutation>, hash: PathHash, policy: RoutePolicy,
                                  source: nat, target: nat, stamp: Stamp) returns (w: seq<Edge>)
    requires Decide(ViewOf(Run(INITIAL, limits, ops)), hash, limits, policy, source, target, stamp).executable
    ensures IsSimplePath(Snapshot(Run(INITIAL, limits, ops)).links, source, target, w)
    ensures Decide(ViewOf(Run(INITIAL, limits, ops)), hash, limits, policy, source, target, stamp).selected
         == Some(PathOf(Snapshot(Run(INITIAL, limits, ops)), hash, source, target, w).id)
    ensures Usable(Run(INITIAL, limits, ops), policy.hard, w)
    ensures forall i :: 0 <= i < |w| ==> Reported(limits, ops, w[i].link)
  {
    hide Decide, Run, Snapshot, Simple, PathOf, LinkWrite, RestoresAt, OutOfUse;
    ReachableIsGood(limits, ops);
    w := ExecutableRoute(Run(INITIAL, limits, ops), limits, hash, policy, source, target, stamp);
    forall i | 0 <= i < |w|
      ensures Reported(limits, ops, w[i].link)
    {
      NotAwaitingRevalidation(Run(INITIAL, limits, ops).links[w[i].link]);
      var k := FreshLinkProvenance(limits, ops, w[i].link);
      assert WrittenSinceMark(limits, ops, w[i].link, k);
    }
  }

  // ---- The fence ----

  predicate Executable(s: State, d: RouteDecision)
  {
    && d.executable
    && s.topologyGeneration == d.topologyGeneration
    && d.source in s.devices && d.target in s.devices
    && s.devices[d.source].generation == d.sourceGeneration
    && s.devices[d.target].generation == d.targetGeneration
  }

  method IsRouteExecutable(registry: TopologyRegistry, d: RouteDecision) returns (yes: bool)
    requires Filed(registry.state)
    ensures yes == Executable(registry.state, d)
    ensures var devices := registry.state.devices;
            yes <==>
              d.executable && d.topologyGeneration == registry.state.topologyGeneration &&
              d.source in devices && devices[d.source].generation == d.sourceGeneration &&
              d.target in devices && devices[d.target].generation == d.targetGeneration
  {
    hide FindDevice, Ordered;
    if !d.executable {
      return false;
    }
    var topology, measurements := registry.ConsistentView();
    if topology.generation != d.topologyGeneration {
      return false;
    }
    FindOrderedDevice(registry.state.devices, d.source);
    FindOrderedDevice(registry.state.devices, d.target);
    var sd := FindDevice(topology.devices, d.source);
    var td := FindDevice(topology.devices, d.target);
    if sd.None? || td.None? {
      return false;
    }
    yes := sd.value.generation == d.sourceGeneration && td.value.generation == d.targetGeneration;
  }

  method RevalidateRoute(registry: TopologyRegistry, d: RouteDecision, stamp: Stamp) returns (r: RouteDecision)
    requires Filed(registry.state)
    ensures r == Revalidated(registry.state, d, stamp)
    ensures if Executable(registry.state, d) then r == d
            else r.outcome == RouteOutcome.RevalidationRequired && !r.executable && r.selected == None &&
                 r.stamp == stamp && r.source == d.source && r.target == d.target && r.policy == d.policy
  {
    var current := IsRouteExecutable(registry, d);
    if current {
      return d;
    }
    r := RouteDecision(stamp, d.source, d.target, 0, 0, 0, d.policy, [], [], None,
                       RouteOutcome.RevalidationRequired, false);
  }

  /** A decision that is no longer executable is answered by a refusal, not by a new route. */
  function Revalidated(s: State, d: RouteDecision, stamp: Stamp): RouteDecision
  {
    if Executable(s, d) then d
    else RouteDecision(stamp, d.source, d.target, 0, 0, 0, d.policy, [], [], None,
                       RouteOutcome.RevalidationRequired, false)
  }

  lemma DecisionFields(s: State, limits: Limits, hash: PathHash, policy: RoutePolicy, source: nat, target: nat,
                       stamp: Stamp)
    requires Filed(s) && Decide(ViewOf(s), hash, limits, policy, source, target, stamp).executable
    ensures var d := Decide(ViewOf(s), hash, limits, policy, source, target, stamp);
            Executable(s, d)
  {
    hide Enumerated, FindDevice, Eligible, Rejected, Ranked, OutcomeOfRejection, Ordered, OutcomeFor, Allows;
    FindOrderedDevice(s.devices, source);
    FindOrderedDevice(s.devices, target);
  }

  lemma GoodIsFiled(s: State, limits: Limits)
    requires Good(s, limits)
    ensures Filed(s)
  {
  }

  /** Whatever happens after an executable decision, it stays executable exactly as long as the topology
    * generation stands still, and while it is executable the devices and links are those it was made on. */
  lemma FenceIsExact(limits: Limits, before: seq<Mutation>, after: seq<Mutation>, hash: PathHash, policy: RoutePolicy,
                     source: nat, target: nat, stamp: Stamp)
    ensures var s, t := Run(INITIAL, limits, before), Run(INITIAL, limits, before + after);
            var d := Decide(ViewOf(s), hash, limits, policy, source, target, stamp);
            (Executable(t, d) <==> d.executable && t.topologyGeneration == s.topologyGeneration) &&
            (Executable(t, d) ==> t.devices == s.devices && t.links == s.links)
  {
    hide Run, Decide;
    var s := Run(INITIAL, limits, before);
    ReachableIsGood(limits, before);
    GoodIsFiled(s, limits);
    RunAppend(INITIAL, limits, before, after);
    RunFenced(s, limits, after);
    if Decide(ViewOf(s), hash, limits, policy, source, target, stamp).executable {
      DecisionFields(s, limits, hash, policy, source, target, stamp);
    }
  }

  /** Once a decision made at or below the current generation is not executable, it never is again. */
  lemma NeverExecutableAgain(s: State, limits: Limits, ops: seq<Mutation>, d: RouteDecision)
    requires d.topologyGeneration <= s.topologyGeneration && !Executable(s, d)
    ensures !Executable(Run(s, limits, ops), d)
  {
    hide Run;
    RunFenced(s, limits, ops);
  }

  lemma RestoreGeneration(s: State, limits: Limits, saved: DurableState)
    requires AfterRestore(s, limits, saved).1 == Done
    ensures AfterRestore(s, limits, saved).0.topologyGeneration
         == Max(saved.topologyGeneration, s.topologyGeneration) + 1
  {
    hide LoadDevices, LoadLinks, RestoredDevices, Stamped;
  }

  /** A restore fences off every decision of both histories, the saved one and the current one, for good. */
  lemma RestoreFencesDecisions(s: State, limits: Limits, saved: DurableState, ops: seq<Mutation>, d: RouteDecision)
    requires AfterRestore(s, limits, saved).1 == Done
    requires d.topologyGeneration <= Max(saved.topologyGeneration, s.topologyGeneration)
    ensures !Executable(Run(AfterRestore(s, limits, saved).0, limits, ops), d)
  {
    hide AfterRestore, Run;
    RestoreGeneration(s, limits, saved);
    NeverExecutableAgain(AfterRestore(s, limits, saved).0, limits, ops, d);
  }

  /** Revalidation returns an executable decision only by returning the one it was given, still current. */
  lemma RevalidationNeverGrants(s: State, d: RouteDecision, stamp: Stamp, limits: Limits, ops: seq<Mutation>)
    requires d.topologyGeneration <= s.topologyGeneration
    ensures var r := Revalidated(s, d, stamp);
            (Executable(Run(s, limits, ops), r) <==> Executable(s, d) && Executable(Run(s, limits, ops), d)) &&
            (r.executable ==> r == d && Executable(s, d))
  {
    hide Run;
    if !Executable(s, d) {
      NeverExecutableAgain(s, limits, ops, d);
    }
  }

  // ---- Determinism ----

  /** The order in which the hash tables yield their records leaves no trace in a decision. */
  lemma DecisionForgetsOrder(s: State, devices: seq<DeviceRecord>, links: seq<LinkRecord>, hash: PathHash,
                             limits: Limits, policy: RoutePolicy, source: nat, target: nat, stamp: Stamp)
    requires Lists(devices, s.devices, DeviceId) && Lists(links, s.links, LinkId)
    ensures var topology := Topology(s.topologyGeneration, StableSort(devices, By(DeviceId)),
                                     StableSort(links, By(LinkId)));
            Decide(View(topology, s.history), hash, limits, policy, source, target, stamp)
              == Decide(ViewOf(s), hash, limits, policy, source, target, stamp)
  {
    hide Decide, Ordered, StableSort, Lists;
    SortingForgetsOrder(devices, s.devices, DeviceId);
    SortingForgetsOrder(links, s.links, LinkId);
  }

  // ---- Deciding again ----

  lemma SameBestSameQuality(topology: Topology, ms: seq<MeasurementRecord>, ns: seq<MeasurementRecord>, p: Path)
    requires BestMeasurement(ms, p.source, p.target) == BestMeasurement(ns, p.source, p.target)
    ensures QualityOf(topology, ms, p) == QualityOf(topology, ns, p)
  {
    hide BestMeasurement, Any, Count, MissingCount, Missing, Nominal, Traversed, EvidenceOf, GenerationOf, OutcomeOf;
  }

  lemma {:induction false} SameQualitiesSameLists(v: View, u: View, hard: HardConstraint, paths: seq<Path>)
    requires v.topology == u.topology
    requires forall i :: 0 <= i < |paths| ==> Assessed(v, paths[i]) == Assessed(u, paths[i])
    ensures Eligible(v, hard, paths) == Eligible(u, hard, paths) && Rejected(v, hard, paths) == Rejected(u, hard, paths)
    ensures RejectedUnsupported(v, hard, paths) <==> RejectedUnsupported(u, hard, paths)
    ensures RejectedAsOutdated(v, hard, paths) <==> RejectedAsOutdated(u, hard, paths)
  {
    hide Assessed, Reason, Traversed, FreshnessStage;
    if paths != [] {
      assert forall i :: 0 <= i < |paths| - 1 ==> paths[..|paths| - 1][i] == paths[i];
      SameQualitiesSameLists(v, u, hard, paths[..|paths| - 1]);
    }
  }

  lemma SameBestSameDecision(topology: Topology, ms: seq<MeasurementRecord>, ns: seq<MeasurementRecord>, hash: PathHash,
                             limits: Limits, policy: RoutePolicy, source: nat, target: nat, stamp: Stamp, later: Stamp)
    requires BestMeasurement(ms, source, target) == BestMeasurement(ns, source, target)
    ensures Decide(View(topology, ns), hash, limits, policy, source, target, later)
         == Decide(View(topology, ms), hash, limits, policy, source, target, stamp).(stamp := later)
  {
    hide BestMeasurement, Enumerated, FindDevice, Eligible, Rejected, RejectedUnsupported, RejectedAsOutdated, Ranked,
         QualityOf;
    var paths := Enumerated(topology, hash, source, target, limits);
    EnumeratedEnds(topology, hash, source, target, limits);
    forall i | 0 <= i < |paths|
      ensures Assessed(View(topology, ms), paths[i]) == Assessed(View(topology, ns), paths[i])
    {
      SameBestSameQuality(topology, ms, ns, paths[i]);
    }
    SameQualitiesSameLists(View(topology, ms), View(topology, ns), policy.hard, paths);
  }

  /** While the fence stands still, deciding again gives the same decision under a new stamp as long as the measurement
    * that counts for the pair is the same. */
  lemma RedecisionStable(limits: Limits, before: seq<Mutation>, after: seq<Mutation>, hash: PathHash,
                         policy: RoutePolicy, source: nat, target: nat, stamp: Stamp, later: Stamp)
    requires var s, t := Run(INITIAL, limits, before), Run(INITIAL, limits, before + after);
             t.topologyGeneration == s.topologyGeneration &&
             BestMeasurement(t.history, source, target) == BestMeasurement(s.history, source, target)
    ensures var s, t := Run(INITIAL, limits, before), Run(INITIAL, limits, before + after);
            Decide(ViewOf(t), hash, limits, policy, source, target, later)
              == Decide(ViewOf(s), hash, limits, policy, source, target, stamp).(stamp := later)
  {
    hide Run, Decide, BestMeasurement, Ordered;
    var s, t := Run(INITIAL, limits, before), Run(INITIAL, limits, before + after);
    RunAppend(INITIAL, limits, before, after);
    RunFenced(s, limits, after);
    SameBestSameDecision(Snapshot(s), s.history, t.history, hash, limits, policy, source, target, stamp, later);
  }

  // ---- The measurement a decision rests on ----

  /** The measurement at log position i was published by operation log[i] and no mark came after it. */
  ghost predicate PublishedSinceMark(limits: Limits, ops: seq<Mutation>, m: MeasurementRecord, i: nat)
  {
    && Counts(limits, ops, i)
    && m == Published(ops[i].measurement, ops[i].freshId)
    && forall j :: i < j < |ops| ==> !ops[j].MarkRevalidation?
  }

  /** The measurement used for a pair was published, valid, since the last mark and the last restore; it is
    * the first latest-timestamped such entry among the retained ones, and there is none exactly when none
    * qualifies. */
  lemma MeasurementProvenance(limits: Limits, ops: seq<Mutation>, source: nat, target: nat) returns (i: nat)
    ensures var history := Run(INITIAL, limits, ops).history;
            match BestMeasurement(history, source, target) {
              case None => forall j :: 0 <= j < |history| ==> !Current(history[j], source, target)
              case Some(m) => PublishedSinceMark(limits, ops, m, i) && m.valid &&
                              exists j: nat :: IsBest(history, source, target, j) && history[j] == m
            }
  {
    hide Run, BestMeasurement, PublishLog, Counts, IsBest;
    var history := Run(INITIAL, limits, ops).history;
    var j := BestIsFirstLatest(history, source, target);
    i := 0;
    if BestMeasurement(history, source, target).Some? {
      BestIsCurrent(history, source, target, j);
      i := HistoryEntry(limits, ops, j);
    }
  }

  lemma BestIsCurrent(ms: seq<MeasurementRecord>, source: nat, target: nat, j: nat)
    requires IsBest(ms, source, target, j)
    ensures j < |ms| && ms[j].valid && !ms[j].stale
  {
  }

  /** A history entry that is not stale is a publish since the last mark and restore. */
  lemma HistoryEntry(limits: Limits, ops: seq<Mutation>, j: nat) returns (i: nat)
    requires j < |Run(INITIAL, limits, ops).history|
    requires !Run(INITIAL, limits, ops).history[j].stale
    ensures PublishedSinceMark(limits, ops, Run(INITIAL, limits, ops).history[j], i)
  {
    hide Run, PublishLog, Counts;
    var log := PublishLog(limits, ops);
    HistoryIsRecentLog(limits, ops);
    PublishLogHolds(limits, ops);
    var entries := LogEntries(ops, log);
    var k := if |entries| <= limits.maxMeasurementHistory then j else |entries| - limits.maxMeasurementHistory + j;
    assert Run(INITIAL, limits, ops).history[j] == entries[k] == LogEntry(ops, log[k]);
    i := log[k];
    assert i in log;
  }
}

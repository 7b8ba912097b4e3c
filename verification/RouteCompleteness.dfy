/** The converse of safety: exactly when the default policy allows a route, and which one. */
module RouteCompleteness {
  import opened Types
  import opened Registry
  import opened RegistryRuns
  import opened Paths
  import opened Quality
  import opened Ranking
  import opened Routing
  import opened RouteSafety
  import opened RouteMeaning

  const SUPPORTED_STATES := {LinkState.Up, LinkState.Present, LinkState.Supported, LinkState.Degraded}

  /** Every link of the walk is present and up, present, supported or degraded. */
  ghost predicate AllSupported(s: State, w: seq<Edge>)
  {
    forall i :: 0 <= i < |w| ==> w[i].link in s.links && s.links[w[i].link].state in SUPPORTED_STATES
  }

  /** The pair is contended, or some link of the walk is degraded or has a capability recorded. */
  ghost predicate Backing(s: State, source: nat, target: nat, w: seq<Edge>)
  {
    ReportsContention(s, source, target) || SomeDegraded(s, w) || SomeCapability(s, w)
  }

  lemma SupportedAspects(l: LinkRecord)
    ensures SupportedState(l) <==> l.state in SUPPORTED_STATES
    ensures SupportedState(l) ==>
              !Is(l, DownLink) && !Is(l, OutdatedLink) && !Is(l, UnsupportedLink) && !Is(l, UnknownLink)
  {
  }

  /** Under the default constraints a walk survives the filter exactly when all its links are supported. */
  lemma DefaultFilterKeeps(s: State, hash: PathHash, source: nat, target: nat, w: seq<Edge>)
    requires Filed(s)
    ensures ReasonFor(ViewOf(s), DEFAULT_HARD, PathOf(Snapshot(s), hash, source, target, w)) == NotRejected
       <==> AllSupported(s, w)
  {
    hide Traversed, Snapshot, ElementsOf, BestMeasurement, QualityOf, Reason, SupportedState, Nominal, Is, PathOf;
    var p := PathOf(Snapshot(s), hash, source, target, w);
    var rs := Traversed(Snapshot(s).links, p.elements);
    PathOfElements(Snapshot(s), hash, source, target, w);
    WalkRecords(s, source, w);
    EligibleMeansSatisfies(Snapshot(s), s.history, DEFAULT_HARD, p);
    forall i | 0 <= i < |rs| && rs[i].Some?
      ensures SupportedState(rs[i].value) <==> s.links[w[i].link].state in SUPPORTED_STATES
      ensures SupportedState(rs[i].value) ==> !Is(rs[i].value, DownLink) && !Is(rs[i].value, OutdatedLink)
    {
      SupportedAspects(rs[i].value);
    }
    if AllSupported(s, w) {
      assert Satisfies(rs, DEFAULT_HARD, p, BestMeasurement(s.history, p.source, p.target));
    }
  }

  /** Candidate i runs over supported links only. */
  ghost predicate SupportedCandidate(s: State, limits: Limits, source: nat, target: nat, i: nat)
  {
    Considered(s, limits, source, target, i) && AllSupported(s, AllWalks(Snapshot(s), source, target, limits)[i])
  }

  ghost predicate SupportedAreBacked(s: State, limits: Limits, source: nat, target: nat)
  {
    forall i: nat :: SupportedCandidate(s, limits, source, target, i) ==>
      Backing(s, source, target, AllWalks(Snapshot(s), source, target, limits)[i])
  }

  /** Under the default policy the candidates are the supported ones. */
  lemma SupportedAreCandidates(s: State, limits: Limits, hash: PathHash, source: nat, target: nat, i: nat)
    requires Filed(s)
    ensures SupportedCandidate(s, limits, source, target, i) <==>
              Candidate(s, limits, hash, DEFAULT_HARD, source, target, i)
  {
    hide AllWalks, Snapshot, PathOf, AllSupported, ReasonFor, Satisfies, Traversed, BestMeasurement;
    if Considered(s, limits, source, target, i) {
      DefaultFilterKeeps(s, hash, source, target, AllWalks(Snapshot(s), source, target, limits)[i]);
      CandidateMeans(s, limits, hash, DEFAULT_HARD, source, target, i);
    }
  }

  /** A supported walk is usable and nothing about it is unknown. */
  lemma SupportedAnswer(s: State, source: nat, target: nat, w: seq<Edge>, o: RouteOutcome, executable: bool)
    requires AllSupported(s, w) && w != [] && AnswerMeans(s, source, target, w, o, executable)
    ensures executable <==> Backing(s, source, target, w)
    ensures !executable ==> o == RouteOutcome.InsufficientEvidence
  {
    hide SomeDegraded, SomeCapability, ReportsContention;
    assert UsableWalk(s, w) && !SomeState(s, w, {LinkState.Unknown});
  }

  /** With no hypothesis on evidence: the default policy selects the preferred one of the supported candidates, and the
    * decision is executable exactly when that one has backing; otherwise it reads that evidence is insufficient,
    * whatever the other candidates could offer. */
  lemma DefaultDecisionIff(s: State, limits: Limits, hash: PathHash, source: nat, target: nat, stamp: Stamp)
    requires Good(s, limits) && Endpoints(s, source, target)
    ensures var d := Decide(ViewOf(s), hash, limits, DEFAULT_POLICY, source, target, stamp);
            var all := AllWalks(Snapshot(s), source, target, limits);
            (d.selected.Some? <==> exists i: nat :: SupportedCandidate(s, limits, source, target, i)) &&
            (d.selected.Some? <==> exists i: nat :: Preferred(s, limits, hash, DEFAULT_POLICY, source, target, i)) &&
            (d.executable ==> d.selected.Some?) &&
            forall i: nat :: Preferred(s, limits, hash, DEFAULT_POLICY, source, target, i) ==>
              SupportedCandidate(s, limits, source, target, i) && i < |all| &&
              d.selected == Some(hash(source, target, Links(all[i]))) &&
              (d.executable <==> Backing(s, source, target, all[i])) &&
              (!d.executable ==> d.outcome == RouteOutcome.InsufficientEvidence)
  {
    hide AllWalks, Snapshot, Decide, Candidate, Preferred, SupportedCandidate, Backing, AnswerMeans, Good, Links,
         Simple;
    var all := AllWalks(Snapshot(s), source, target, limits);
    var d := Decide(ViewOf(s), hash, limits, DEFAULT_POLICY, source, target, stamp);
    GoodIsFiled(s, limits);
    SelectedRoute(s, limits, hash, DEFAULT_POLICY, source, target, stamp);
    forall i: nat
      ensures SupportedCandidate(s, limits, source, target, i) <==>
                Candidate(s, limits, hash, DEFAULT_HARD, source, target, i)
    {
      SupportedAreCandidates(s, limits, hash, source, target, i);
    }
    forall i: nat | Preferred(s, limits, hash, DEFAULT_POLICY, source, target, i)
      ensures SupportedCandidate(s, limits, source, target, i) && i < |all|
      ensures d.executable <==> Backing(s, source, target, all[i])
      ensures !d.executable ==> d.outcome == RouteOutcome.InsufficientEvidence
    {
      PreferredIsCandidate(s, limits, hash, DEFAULT_POLICY, source, target, i);
      SupportedWalk(s, limits, source, target, i);
      SupportedAnswer(s, source, target, all[i], d.outcome, d.executable);
    }
  }

  lemma SupportedWalk(s: State, limits: Limits, source: nat, target: nat, i: nat)
    requires SupportedCandidate(s, limits, source, target, i) && source != target
    ensures var all := AllWalks(Snapshot(s), source, target,
                                limits); i < |all| && all[i] != [] && AllSupported(s, all[i])
  {
    hide Snapshot, Simple, AllSupported;
    var all := AllWalks(Snapshot(s), source, target, limits);
    assert all[i] in all;
    WalksAreSimplePaths(Snapshot(s).links, source, {source}, target, Room(limits), all[i]);
    NothingIsNoPath(Snapshot(s).links, source, {source}, target);
  }

  /** Where every supported candidate has backing, the default policy allows a route exactly when one of the candidates,
    * the first of the simple paths up to the cap, runs over supported links only. */
  lemma DefaultPolicyIsComplete(s: State, limits: Limits, hash: PathHash, source: nat, target: nat, stamp: Stamp)
    requires Good(s, limits) && Endpoints(s, source, target)
    requires SupportedAreBacked(s, limits, source, target)
    ensures Decide(ViewOf(s), hash, limits, DEFAULT_POLICY, source, target, stamp).executable <==>
              exists i: nat :: SupportedCandidate(s, limits, source, target, i)
  {
    hide AllWalks, Snapshot, Decide, SupportedCandidate, Preferred, Backing, Good, Links;
    DefaultDecisionIff(s, limits, hash, source, target, stamp);
    if Decide(ViewOf(s), hash, limits, DEFAULT_POLICY, source, target, stamp).selected.Some? {
      var i: nat :| Preferred(s, limits, hash, DEFAULT_POLICY, source, target, i);
    }
  }

  /** Below the cap, that is exactly when the topology has a simple path within the depth bound over supported links. */
  lemma DefaultPolicyBelowCap(s: State, limits: Limits, hash: PathHash, source: nat, target: nat, stamp: Stamp)
    requires Good(s, limits) && Endpoints(s, source, target)
    requires SupportedAreBacked(s, limits, source, target)
    requires |AllWalks(Snapshot(s), source, target, limits)| <= limits.maxCandidatePaths
    ensures Decide(ViewOf(s), hash, limits, DEFAULT_POLICY, source, target, stamp).executable <==>
              exists w :: IsSimplePath(Snapshot(s).links, source, target, w) && |w| <= Max(1, limits.maxPathDepth) &&
                          AllSupported(s, w)
  {
    hide AllWalks, Snapshot, Decide, Enumerated, PathOf, Simple, SupportedAreBacked, AllSupported;
    DefaultPolicyIsComplete(s, limits, hash, source, target, stamp);
    EnumerationIsComplete(Snapshot(s), hash, source, target, limits);
    var all := AllWalks(Snapshot(s), source, target, limits);
    if exists i: nat :: SupportedCandidate(s, limits, source, target, i) {
      var i: nat :| SupportedCandidate(s, limits, source, target, i);
      assert all[i] in all;
    }
    if exists w :: IsSimplePath(Snapshot(s).links, source, target, w) && |w| <= Max(1, limits.maxPathDepth) &&
                   AllSupported(s, w) {
      var w :| IsSimplePath(Snapshot(s).links, source, target, w) && |w| <= Max(1, limits.maxPathDepth) &&
               AllSupported(s, w);
      assert w in all;
      var i :| 0 <= i < |all| && all[i] == w;
      assert SupportedCandidate(s, limits, source, target, i);
    }
  }
}

/** What the filter and the ranking guarantee of the candidate they select. */
module RouteSelection {
  import opened Types
  import opened Sorting
  import opened Paths
  import opened Quality
  import opened Ranking
  import opened Routing

  // ---- The filter partitions the candidates ----

  ghost predicate Rising(ks: seq<nat>, n: nat)
  {
    && (forall a, b :: 0 <= a < b < |ks| ==> ks[a] < ks[b])
    && (forall a :: 0 <= a < |ks| ==> ks[a] < n)
  }

  ghost predicate KeptAt(view: View, hard: HardConstraint, paths: seq<Path>, evals: seq<Eval>, kept: seq<nat>)
  {
    && Rising(kept, |paths|)
    && |evals| == |kept|
    && forall k :: 0 <= k < |kept| ==>
         ReasonFor(view, hard, paths[kept[k]]) == NotRejected &&
         evals[k] == Eval(paths[kept[k]], Assessed(view, paths[kept[k]]), 0.0)
  }

  ghost predicate DroppedAt(view: View, hard: HardConstraint, paths: seq<Path>, rejected: seq<RejectedCandidate>,
                            dropped: seq<nat>)
  {
    && Rising(dropped, |paths|)
    && |rejected| == |dropped|
    && forall k :: 0 <= k < |dropped| ==>
         ReasonFor(view, hard, paths[dropped[k]]) != NotRejected &&
         rejected[k] == RejectedCandidate(paths[dropped[k]].id, ReasonFor(view, hard, paths[dropped[k]]))
  }

  lemma KeptGrows(view: View, hard: HardConstraint, paths: seq<Path>, evals: seq<Eval>, kept: seq<nat>)
    requires paths != [] && KeptAt(view, hard, paths[..|paths| - 1], evals, kept)
    ensures KeptAt(view, hard, paths, evals, kept)
    ensures var n := |paths| - 1;
            ReasonFor(view, hard, paths[n]) == NotRejected ==>
              KeptAt(view, hard, paths, evals + [Eval(paths[n], Assessed(view, paths[n]), 0.0)], kept + [n])
  {
    hide ReasonFor, Assessed;
    var n := |paths| - 1;
    assert forall i :: 0 <= i < n ==> paths[..n][i] == paths[i];
  }

  lemma {:induction false} EligiblePositions(view: View, hard: HardConstraint, paths: seq<Path>)
    returns (kept: seq<nat>)
    ensures KeptAt(view, hard, paths, Eligible(view, hard, paths), kept)
    ensures forall i :: 0 <= i < |paths| ==> (i in kept <==> ReasonFor(view, hard, paths[i]) == NotRejected)
  {
    kept := [];
    if paths != [] {
      hide ReasonFor, Assessed, KeptAt;
      var n := |paths| - 1;
      kept := EligiblePositions(view, hard, paths[..n]);
      KeptGrows(view, hard, paths, Eligible(view, hard, paths[..n]), kept);
      KeptInRange(view, hard, paths[..n], Eligible(view, hard, paths[..n]), kept);
      assert forall i :: 0 <= i < n ==> paths[..n][i] == paths[i];
      var front := kept;
      assert forall i :: i in front + [n] <==> i in front || i == n;
      if ReasonFor(view, hard, paths[n]) == NotRejected {
        kept := kept + [n];
      }
      NoneAdded(Eligible(view, hard, paths[..n]));
    }
  }

  lemma KeptInRange(view: View, hard: HardConstraint, paths: seq<Path>, evals: seq<Eval>, kept: seq<nat>)
    requires KeptAt(view, hard, paths, evals, kept)
    ensures forall i :: i in kept ==> i < |paths|
  {
    hide ReasonFor, Assessed;
  }

  lemma NoneAdded<T>(s: seq<T>)
    ensures s + [] == s
  {
  }

  lemma DroppedGrows(view: View, hard: HardConstraint, paths: seq<Path>, rejected: seq<RejectedCandidate>,
                     dropped: seq<nat>)
    requires paths != [] && DroppedAt(view, hard, paths[..|paths| - 1], rejected, dropped)
    ensures DroppedAt(view, hard, paths, rejected, dropped)
    ensures var n := |paths| - 1;
            ReasonFor(view, hard, paths[n]) != NotRejected ==>
              DroppedAt(view, hard, paths,
                        rejected + [RejectedCandidate(paths[n].id, ReasonFor(view, hard, paths[n]))], dropped + [n])
  {
    hide ReasonFor;
    var n := |paths| - 1;
    assert forall i :: 0 <= i < n ==> paths[..n][i] == paths[i];
  }

  lemma DroppedInRange(view: View, hard: HardConstraint, paths: seq<Path>, rejected: seq<RejectedCandidate>,
                       dropped: seq<nat>)
    requires DroppedAt(view, hard, paths, rejected, dropped)
    ensures forall i :: i in dropped ==> i < |paths|
  {
    hide ReasonFor;
  }

  lemma {:induction false} RejectedPositions(view: View, hard: HardConstraint, paths: seq<Path>)
    returns (dropped: seq<nat>)
    ensures DroppedAt(view, hard, paths, Rejected(view, hard, paths), dropped)
    ensures forall i :: 0 <= i < |paths| ==> (i in dropped <==> ReasonFor(view, hard, paths[i]) != NotRejected)
  {
    dropped := [];
    if paths != [] {
      hide ReasonFor, DroppedAt;
      var n := |paths| - 1;
      dropped := RejectedPositions(view, hard, paths[..n]);
      DroppedGrows(view, hard, paths, Rejected(view, hard, paths[..n]), dropped);
      DroppedInRange(view, hard, paths[..n], Rejected(view, hard, paths[..n]), dropped);
      assert forall i :: 0 <= i < n ==> paths[..n][i] == paths[i];
      var front := dropped;
      assert forall i :: i in front + [n] <==> i in front || i == n;
      if ReasonFor(view, hard, paths[n]) != NotRejected {
        dropped := dropped + [n];
      }
      NoneAdded(Rejected(view, hard, paths[..n]));
    }
  }

  /** Every candidate position ends up in exactly one of the two lists, in order; what is kept satisfies every
    * enabled constraint and what is dropped violates one and carries a reason. */
  lemma FilterPartitions(view: View, hard: HardConstraint, paths: seq<Path>)
    returns (kept: seq<nat>, dropped: seq<nat>)
    ensures KeptAt(view, hard, paths, Eligible(view, hard, paths), kept)
    ensures DroppedAt(view, hard, paths, Rejected(view, hard, paths), dropped)
    ensures forall i :: 0 <= i < |paths| ==> (i in kept <==> i !in dropped)
    ensures forall i :: 0 <= i < |paths| ==> (i in kept <==>
              Satisfies(Traversed(view.topology.links, paths[i].elements), hard, paths[i],
                        BestMeasurement(view.measurements, paths[i].source, paths[i].target)))
  {
    hide Eligible, Rejected, Reason, Satisfies, Traversed, BestMeasurement, QualityOf, KeptAt, DroppedAt;
    kept := EligiblePositions(view, hard, paths);
    dropped := RejectedPositions(view, hard, paths);
    forall i | 0 <= i < |paths|
      ensures ReasonFor(view, hard, paths[i]) == NotRejected <==>
                Satisfies(Traversed(view.topology.links, paths[i].elements), hard, paths[i],
                          BestMeasurement(view.measurements, paths[i].source, paths[i].target))
    {
      EligibleMeansSatisfies(view.topology, view.measurements, hard, paths[i]);
    }
  }

  // ---- The selection ----

  ghost predicate Wins(view: View, policy: RoutePolicy, paths: seq<Path>, i: nat)
  {
    var evals := Eligible(view, policy.hard, paths);
    var scored := Scored(policy.ranking, ContextOf(evals), evals);
    IsFirst(scored, Better, i) && Ranked(policy.ranking, evals)[0] == scored[i]
  }

  lemma WinnerExists(view: View, policy: RoutePolicy, paths: seq<Path>) returns (i: nat)
    requires Eligible(view, policy.hard, paths) != []
    ensures Wins(view, policy, paths, i)
  {
    hide Eligible, Better, Score, ContextOf, StableSort, IsFirst;
    var evals := Eligible(view, policy.hard, paths);
    BetterIsStrictWeakOrder();
    i := FrontOfSort(Scored(policy.ranking, ContextOf(evals), evals), Better);
  }

  /** A candidate is selected exactly when some candidate satisfies every enabled constraint. The selected one
    * does, nothing eligible ranks above it, and it was found before everything that ranks equally with it. */
  lemma SelectionIsBest(view: View, policy: RoutePolicy, paths: seq<Path>, pending: RouteDecision)
    returns (i: nat, kept: seq<nat>)
    requires pending.selected == None
    ensures var d := Settled(view, policy, paths, pending);
            KeptAt(view, policy.hard, paths, Eligible(view, policy.hard, paths), kept) &&
            (d.selected.Some? <==> kept != []) &&
            (d.selected.Some? ==>
              Wins(view, policy, paths, i) && i < |kept| && d.selected == Some(paths[kept[i]].id) &&
              var p := paths[kept[i]];
              Satisfies(Traversed(view.topology.links, p.elements), policy.hard, p,
                        BestMeasurement(view.measurements, p.source, p.target)))
  {
    hide Eligible, Rejected, Better, Score, ContextOf, StableSort, IsFirst, Satisfies, Traversed, BestMeasurement,
         QualityOf, Reason, RejectedUnsupported, RejectedAsOutdated;
    i := 0;
    kept := EligiblePositions(view, policy.hard, paths);
    if kept != [] {
      i := WinnerExists(view, policy, paths);
      WinnerInRange(view, policy, paths, i);
      EligibleMeansSatisfies(view.topology, view.measurements, policy.hard, paths[kept[i]]);
    }
  }

  lemma WinnerInRange(view: View, policy: RoutePolicy, paths: seq<Path>, i: nat)
    requires Wins(view, policy, paths, i)
    ensures i < |Eligible(view, policy.hard, paths)|
  {
  }

  // ---- What candidates of one call have in common ----

  ghost predicate AllBetween(paths: seq<Path>, source: nat, target: nat)
  {
    forall i :: 0 <= i < |paths| ==> paths[i].source == source && paths[i].target == target
  }

  lemma EnumeratedEnds(topology: Topology, hash: PathHash, source: nat, target: nat, limits: Limits)
    ensures AllBetween(Enumerated(topology, hash, source, target, limits), source, target)
  {
    hide Walks, HasSwitch, NvlinkCount, ElementsOf;
  }

  lemma SharedMeasurement(view: View, p: Path, q: Path)
    requires p.source == q.source && p.target == q.target
    ensures Assessed(view, p).measuredBandwidth == Assessed(view, q).measuredBandwidth
    ensures Assessed(view, p).measuredLatency == Assessed(view, q).measuredLatency
  {
    hide Any, Count, MissingCount, Missing, Nominal, Traversed, BestMeasurement, EvidenceOf, GenerationOf, OutcomeOf;
  }

  /** All candidates of a call are measured alike; those that pass a filter requiring fresh evidence are all fresh. */
  lemma FreshCandidatesShareEvidence(view: View, hard: HardConstraint, p: Path, q: Path)
    requires p.source == q.source && p.target == q.target && hard.requireFresh
    requires ReasonFor(view, hard, p) == NotRejected && ReasonFor(view, hard, q) == NotRejected
    ensures SameEvidence(Assessed(view, p), Assessed(view, q)) && !Assessed(view, p).stale
  {
    hide Traversed, QualityOf, SupportReason;
    SharedMeasurement(view, p, q);
  }

  // ---- The default ranking is a lexicographic preference ----

  lemma EnumeratedHops(view: View, hash: PathHash, source: nat, target: nat, limits: Limits, i: nat)
    requires i < |Enumerated(view.topology, hash, source, target, limits)|
    ensures ProperHops(Assessed(view, Enumerated(view.topology, hash, source, target, limits)[i]))
  {
    hide Walks, HasSwitch, NvlinkCount, ElementsOf, Any, Count, MissingCount, Missing, Nominal, Traversed,
         BestMeasurement, EvidenceOf, GenerationOf, OutcomeOf, Simple;
    var ws := AllWalks(view.topology, source, target, limits);
    assert Enumerated(view.topology, hash, source, target, limits)[i]
        == PathOf(view.topology, hash, source, target, ws[i]);
    assert ws[i] in ws;
    WalksAreSimplePaths(view.topology.links, source, {source}, target, Room(limits), ws[i]);
    NothingIsNoPath(view.topology.links, source, {source}, target);
  }

  lemma LowerScoreLoses(a: Eval, b: Eval)
    requires a.score > b.score
    ensures Better(a, b)
  {
  }

  lemma WinnerNotBeaten(view: View, policy: RoutePolicy, paths: seq<Path>, i: nat, k: nat)
    requires Wins(view, policy, paths, i) && k < |Eligible(view, policy.hard, paths)|
    ensures i < |Eligible(view, policy.hard, paths)|
    ensures var evals := Eligible(view, policy.hard, paths);
            Score(policy.ranking, evals[k].quality, ContextOf(evals))
              <= Score(policy.ranking, evals[i].quality, ContextOf(evals))
  {
    hide Eligible, Better, Score, ContextOf, StableSort;
    var evals := Eligible(view, policy.hard, paths);
    var scored := Scored(policy.ranking, ContextOf(evals), evals);
    assert scored[k].score == Score(policy.ranking, evals[k].quality, ContextOf(evals));
    if scored[k].score > scored[i].score {
      LowerScoreLoses(scored[k], scored[i]);
    }
  }

  /** Under the default ranking a degraded candidate is never selected while an undegraded one is eligible,
    * and at equal degradation a path of several hops is never selected while a direct one is eligible. */
  lemma DefaultPreference(view: View, hash: PathHash, limits: Limits, policy: RoutePolicy, source: nat, target: nat,
                          i: nat, k: nat)
    requires policy.ranking == DEFAULT_RANKING && policy.hard.requireFresh
    requires Wins(view, policy, Enumerated(view.topology, hash, source, target, limits), i)
    requires k < |Eligible(view, policy.hard, Enumerated(view.topology, hash, source, target, limits))|
    ensures var evals := Eligible(view, policy.hard, Enumerated(view.topology, hash, source, target, limits));
            i < |evals| &&
            var best, other := evals[i].quality, evals[k].quality;
            (other.degradedLinks == 0 ==> best.degradedLinks == 0) &&
            ((best.degradedLinks == 0) == (other.degradedLinks == 0) && other.direct ==> best.direct)
  {
    hide Enumerated, Eligible, Score, Wins, Assessed, ReasonFor, SameEvidence, ProperHops;
    var paths := Enumerated(view.topology, hash, source, target, limits);
    var evals := Eligible(view, policy.hard, paths);
    WinnerNotBeaten(view, policy, paths, i, k);
    var kept := EligiblePositions(view, policy.hard, paths);
    var p, q := paths[kept[i]], paths[kept[k]];
    EnumeratedEnds(view.topology, hash, source, target, limits);
    FreshCandidatesShareEvidence(view, policy.hard, p, q);
    FreshCandidatesShareEvidence(view, policy.hard, q, p);
    EnumeratedHops(view, hash, source, target, limits, kept[i]);
    EnumeratedHops(view, hash, source, target, limits, kept[k]);
    var best, other := evals[i].quality, evals[k].quality;
    if other.degradedLinks == 0 && best.degradedLinks > 0 {
      UndegradedScoresHigher(other, best, ContextOf(evals));
    } else if (best.degradedLinks == 0) == (other.degradedLinks == 0) && other.direct && !best.direct {
      DirectScoresHigher(other, best, ContextOf(evals));
    }
  }

  // ---- Tightening the constraints ----

  /** Every constraint of `b` asks at least what the same constraint of `a` asks. */
  predicate Tighter(b: HardConstraint, a: HardConstraint)
  {
    && (a.requireSupportedLinks ==> b.requireSupportedLinks)
    && (a.requireFresh ==> b.requireFresh)
    && (a.requireDirect ==> b.requireDirect)
    && (a.excludeDegraded ==> b.excludeDegraded)
    && (a.excludeDown ==> b.excludeDown)
    && (a.excludeContended ==> b.excludeContended)
    && (a.minNominal.Some? ==> b.minNominal.Some? && b.minNominal.value >= a.minNominal.value)
    && (a.minMeasured.Some? ==> b.minMeasured.Some? && b.minMeasured.value >= a.minMeasured.value)
    && (a.requiredTechnology.Some? ==> b.requiredTechnology == a.requiredTechnology)
    && (a.maxHops.Some? ==> b.maxHops.Some? && b.maxHops.value <= a.maxHops.value)
  }

  lemma TighterSatisfies(rs: seq<Option<LinkRecord>>, b: HardConstraint, a: HardConstraint, p: Path,
                         best: Option<MeasurementRecord>)
    requires Tighter(b, a) && Satisfies(rs, b, p, best)
    ensures Satisfies(rs, a, p, best)
  {
    hide Is, SupportedState, Nominal;
  }

  lemma TighteningShrinks(view: View, b: HardConstraint, a: HardConstraint, p: Path)
    requires Tighter(b, a) && ReasonFor(view, b, p) == NotRejected
    ensures ReasonFor(view, a, p) == NotRejected
  {
    hide Satisfies, Traversed, BestMeasurement, QualityOf, Reason, Tighter;
    EligibleMeansSatisfies(view.topology, view.measurements, b, p);
    EligibleMeansSatisfies(view.topology, view.measurements, a, p);
    TighterSatisfies(Traversed(view.topology.links, p.elements), b, a, p,
                     BestMeasurement(view.measurements, p.source, p.target));
  }

  ghost predicate MeasuredAs(evals: seq<Eval>, bandwidth: Option<Magnitude>)
  {
    forall k :: 0 <= k < |evals| ==> evals[k].quality.measuredBandwidth == bandwidth
  }

  lemma {:induction false} SharedContext(evals: seq<Eval>, bandwidth: Option<Magnitude>)
    requires MeasuredAs(evals, bandwidth)
    ensures ContextOf(evals).maxMeasured ==
              if evals != [] && bandwidth.Some? then Larger(1.0, bandwidth.value) else 1.0
  {
    if evals != [] {
      SharedContext(evals[..|evals| - 1], bandwidth);
    }
  }

  lemma EligibleMeasuredAlike(view: View, hard: HardConstraint, paths: seq<Path>, kept: seq<nat>, source: nat,
                              target: nat, bandwidth: Option<Magnitude>)
    requires KeptAt(view, hard, paths, Eligible(view, hard, paths), kept) && AllBetween(paths, source, target)
    requires paths != [] && bandwidth == Assessed(view, paths[0]).measuredBandwidth
    ensures MeasuredAs(Eligible(view, hard, paths), bandwidth)
  {
    hide Eligible, Assessed, ReasonFor;
    forall k | 0 <= k < |kept|
      ensures Eligible(view, hard, paths)[k].quality.measuredBandwidth == bandwidth
    {
      SharedMeasurement(view, paths[kept[k]], paths[0]);
    }
  }

  lemma FirstBeats<T>(s: seq<T>, less: (T, T) -> bool, i: nat, j: nat)
    requires IsFirst(s, less, i) && j < |s|
    ensures !less(s[j], s[i]) && (j < i ==> less(s[i], s[j]))
  {
  }

  lemma FirstIsUnique<T>(s: seq<T>, less: (T, T) -> bool, i: nat, j: nat)
    requires IsFirst(s, less, i) && IsFirst(s, less, j)
    ensures i == j
  {
    FirstBeats(s, less, i, j);
    FirstBeats(s, less, j, i);
  }

  /** A subsequence keeps its order, and what came before a kept element there came before it here. */
  lemma {:induction false} FirstOfSubsequence(s: seq<Eval>, t: seq<Eval>, at: seq<nat>, i: nat, j: nat)
    requires Rising(at, |s|) && |at| == |t| && forall k :: 0 <= k < |t| ==> t[k] == s[at[k]]
    requires IsFirst(s, Better, i) && j < |t| && at[j] == i
    ensures IsFirst(t, Better, j)
  {
    hide Better;
  }

  /** `at` says where the candidates left by the tighter filter stood among those left by the looser one. */
  lemma {:induction false} Embedding(kept: seq<nat>, fewer: seq<nat>, n: nat) returns (at: seq<nat>)
    requires Rising(kept, n) && Rising(fewer, n) && forall i :: i in fewer ==> i in kept
    ensures Rising(at, |kept|) && |at| == |fewer|
    ensures forall k :: 0 <= k < |fewer| ==> kept[at[k]] == fewer[k]
  {
    at := [];
    if fewer != [] {
      var m := |fewer| - 1;
      assert fewer[m] in fewer;
      var last :| 0 <= last < |kept| && kept[last] == fewer[m];
      assert forall i :: i in fewer[..m] ==> i in fewer;
      at := Embedding(kept, fewer[..m], n);
      forall k | 0 <= k < m
        ensures at[k] < last
      {
        assert kept[at[k]] == fewer[..m][k] == fewer[k] < fewer[m];
      }
      at := at + [last];
    }
  }

  /** Scores do not depend on which other candidates remain, as long as the ranking has no nominal-bandwidth
    * factor or the largest nominal bandwidth among the candidates stays the same. */
  predicate RankingIsStable(ranking: seq<RouteFactor>, b: FactorContext, a: FactorContext)
  {
    b.maxNominal == a.maxNominal || forall i :: 0 <= i < |ranking| ==> !ranking[i].key.NominalBandwidth?
  }

  lemma ScoredAlike(ranking: seq<RouteFactor>, evals: seq<Eval>, fewer: seq<Eval>, at: seq<nat>, b: FactorContext,
                    a: FactorContext)
    requires RankingIsStable(ranking, b, a) && b.maxMeasured == a.maxMeasured
    requires Rising(at, |evals|) && |at| == |fewer| && forall k :: 0 <= k < |fewer| ==> fewer[k] == evals[at[k]]
    ensures forall k :: 0 <= k < |fewer| ==> Scored(ranking, b, fewer)[k] == Scored(ranking, a, evals)[at[k]]
  {
    hide Score;
    forall k | 0 <= k < |fewer|
      ensures Score(ranking, fewer[k].quality, b) == Score(ranking, fewer[k].quality, a)
    {
      ScoreIgnoresContext(ranking, fewer[k].quality, b, a);
    }
  }

  /** Tightening the constraints leaves fewer candidates; if the winner is still one of them, it still wins. */
  lemma TighteningKeepsWinner(view: View, hash: PathHash, limits: Limits, loose: RoutePolicy, tight: RoutePolicy,
                              source: nat, target: nat, i: nat)
    requires Tighter(tight.hard, loose.hard) && tight.ranking == loose.ranking
    requires Wins(view, loose, Enumerated(view.topology, hash, source, target, limits), i)
    requires i < |Eligible(view, loose.hard, Enumerated(view.topology, hash, source, target, limits))|
    requires var paths := Enumerated(view.topology, hash, source, target, limits);
             RankingIsStable(loose.ranking, ContextOf(Eligible(view, tight.hard, paths)),
                             ContextOf(Eligible(view, loose.hard, paths))) &&
             ReasonFor(view, tight.hard, Eligible(view, loose.hard, paths)[i].path) == NotRejected
    ensures var paths := Enumerated(view.topology, hash, source, target, limits);
            Eligible(view, tight.hard, paths) != [] &&
            Ranked(tight.ranking, Eligible(view, tight.hard, paths))[0]
              == Ranked(loose.ranking, Eligible(view, loose.hard, paths))[0]
  {
    hide Enumerated, Eligible, Score, Better, ContextOf, ReasonFor, Assessed, StableSort, IsFirst, Tighter,
         RankingIsStable, Scored;
    var paths := Enumerated(view.topology, hash, source, target, limits);
    EnumeratedEnds(view.topology, hash, source, target, limits);
    var evals, fewer := Eligible(view, loose.hard, paths), Eligible(view, tight.hard, paths);
    var kept := EligiblePositions(view, loose.hard, paths);
    var left := EligiblePositions(view, tight.hard, paths);
    KeptShrinks(view, loose.hard, tight.hard, paths, kept, left);
    var at := Embedding(kept, left, |paths|);
    assert kept[i] in left;
    var j :| 0 <= j < |left| && left[j] == kept[i];
    RisingInjective(kept, |paths|, at[j], i);
    var c, d := ContextOf(evals), ContextOf(fewer);
    SameMaxMeasured(view, loose.hard, tight.hard, paths, kept, left, source, target);
    ScoredAlike(loose.ranking, evals, fewer, at, d, c);
    FirstOfSubsequence(Scored(loose.ranking, c, evals), Scored(loose.ranking, d, fewer), at, i, j);
    BetterIsStrictWeakOrder();
    var f := FrontOfSort(Scored(loose.ranking, d, fewer), Better);
    FirstIsUnique(Scored(loose.ranking, d, fewer), Better, f, j);
  }

  lemma KeptShrinks(view: View, loose: HardConstraint, tight: HardConstraint, paths: seq<Path>, kept: seq<nat>,
                    left: seq<nat>)
    requires Tighter(tight, loose)
    requires Rising(kept, |paths|) && Rising(left, |paths|)
    requires forall i :: 0 <= i < |paths| ==> (i in kept <==> ReasonFor(view, loose, paths[i]) == NotRejected)
    requires forall i :: 0 <= i < |paths| ==> (i in left <==> ReasonFor(view, tight, paths[i]) == NotRejected)
    ensures forall i :: i in left ==> i in kept
  {
    hide ReasonFor, Tighter;
    forall i | i in left
      ensures i in kept
    {
      TighteningShrinks(view, tight, loose, paths[i]);
    }
  }

  lemma RisingInjective(ks: seq<nat>, n: nat, a: nat, b: nat)
    requires Rising(ks, n) && a < |ks| && b < |ks| && ks[a] == ks[b]
    ensures a == b
  {
  }

  lemma SameMaxMeasured(view: View, loose: HardConstraint, tight: HardConstraint, paths: seq<Path>, kept: seq<nat>,
                        left: seq<nat>, source: nat, target: nat)
    requires KeptAt(view, loose, paths, Eligible(view, loose, paths), kept) && AllBetween(paths, source, target)
    requires KeptAt(view, tight, paths, Eligible(view, tight, paths), left)
    requires Eligible(view, loose, paths) != [] && Eligible(view, tight, paths) != []
    ensures ContextOf(Eligible(view, tight, paths)).maxMeasured == ContextOf(Eligible(view, loose, paths)).maxMeasured
  {
    hide Eligible, ContextOf, KeptAt, AllBetween, Assessed, ReasonFor;
    assert paths != [] by {
      NoneEligible(view, loose, paths);
    }
    var bandwidth := Assessed(view, paths[0]).measuredBandwidth;
    EligibleMeasuredAlike(view, loose, paths, kept, source, target, bandwidth);
    EligibleMeasuredAlike(view, tight, paths, left, source, target, bandwidth);
    SharedContext(Eligible(view, loose, paths), bandwidth);
    SharedContext(Eligible(view, tight, paths), bandwidth);
  }

  lemma NoneEligible(view: View, hard: HardConstraint, paths: seq<Path>)
    ensures paths == [] ==> Eligible(view, hard, paths) == []
  {
  }

  // ---- A constraint that nothing reads ----

  lemma {:induction false} SameReasonsSameLists(view: View, a: HardConstraint, b: HardConstraint, paths: seq<Path>)
    requires forall p: Path :: ReasonFor(view, a, p) == ReasonFor(view, b, p)
    ensures Eligible(view, a, paths) == Eligible(view, b, paths)
    ensures Rejected(view, a, paths) == Rejected(view, b, paths)
    ensures RejectedUnsupported(view, a, paths) <==> RejectedUnsupported(view, b, paths)
  {
    hide ReasonFor, Assessed;
    if paths != [] {
      SameReasonsSameLists(view, a, b, paths[..|paths| - 1]);
    }
  }

  lemma FlagUnread(view: View, hard: HardConstraint, flag: bool, p: Path)
    ensures ReasonFor(view, hard.(requireCurrentTopology := flag), p) == ReasonFor(view, hard, p)
    ensures var rs, q := Traversed(view.topology.links, p.elements), Assessed(view, p);
            FreshnessStage(rs, hard.(requireCurrentTopology := flag), q) <==> FreshnessStage(rs, hard, q)
  {
    hide Traversed, QualityOf, SupportReason;
  }

  /** No decision depends on whether the policy requires a current topology. */
  lemma CurrentTopologyUnread(view: View, hash: PathHash, limits: Limits, policy: RoutePolicy, flag: bool, source: nat,
                              target: nat, stamp: Stamp)
    ensures Decide(view, hash, limits, policy.(hard := policy.hard.(requireCurrentTopology := flag)), source, target,
                   stamp)
         == Decide(view, hash, limits, policy, source, target, stamp)
  {
    hide Enumerated, FindDevice, Eligible, Rejected, ReasonFor, Assessed, RejectedUnsupported, FreshnessStage,
         Traversed, Ranked;
    var paths := Enumerated(view.topology, hash, source, target, limits);
    var hard := policy.hard.(requireCurrentTopology := flag);
    forall p: Path
      ensures ReasonFor(view, hard, p) == ReasonFor(view, policy.hard, p)
      ensures FreshnessStage(Traversed(view.topology.links, p.elements), hard, Assessed(view, p))
         <==> FreshnessStage(Traversed(view.topology.links, p.elements), policy.hard, Assessed(view, p))
    {
      FlagUnread(view, policy.hard, flag, p);
    }
    SameReasonsSameLists(view, hard, policy.hard, paths);
  }

  // ---- When the answer is that revalidation is required ----

  /** With supported links required, no candidate reaches the freshness stage with outdated evidence. */
  lemma SupportedIsFresh(rs: seq<Option<LinkRecord>>)
    requires SupportReason(rs) == NotRejected
    ensures !Any(rs, OutdatedLink) && !Any(rs, UnsupportedLink) && !Any(rs, DownLink) && !Missing(rs)
  {
    SupportMeansAll(rs);
  }

  /** The path runs over a link that is stale or awaits revalidation. */
  predicate Outdated(view: View, p: Path)
  {
    Any(Traversed(view.topology.links, p.elements), OutdatedLink)
  }

  /** That is the worst that is wrong with it: no link is missing, down or unsupported. */
  predicate OnlyOutdated(view: View, p: Path)
  {
    var rs := Traversed(view.topology.links, p.elements);
    !Missing(rs) && !Any(rs, DownLink) && p.hopCount != 0 && !Any(rs, UnsupportedLink) && Any(rs, OutdatedLink)
  }

  /** The freshness stage rejects exactly the outdated candidates, and only where supported links are not required. */
  lemma FreshnessStageIff(view: View, hard: HardConstraint, p: Path)
    ensures FreshnessStage(Traversed(view.topology.links, p.elements), hard, Assessed(view, p)) <==>
              !hard.requireSupportedLinks && hard.requireFresh && Outdated(view, p)
  {
    hide Traversed, SupportReason, Any, Missing, QualityOf, OutOfDate;
    var rs := Traversed(view.topology.links, p.elements);
    OutdatedMeans(view.topology, view.measurements, p);
    if hard.requireSupportedLinks && SupportReason(rs) == NotRejected {
      SupportedIsFresh(rs);
    }
  }

  lemma AssessedRevalidation(view: View, p: Path)
    ensures Assessed(view, p).outcome.RevalidationRequired? <==> OnlyOutdated(view, p)
  {
    hide Traversed, Any, Missing, Count, MissingCount, Nominal, BestMeasurement, EvidenceOf, GenerationOf;
  }

  /** An eligible candidate can be outdated only where neither supported links nor freshness is required. */
  lemma EligibleOutdated(view: View, hard: HardConstraint, p: Path)
    requires ReasonFor(view, hard, p) == NotRejected && Outdated(view, p)
    ensures !hard.requireSupportedLinks && !hard.requireFresh
  {
    hide Traversed, SupportReason, Any, Missing, QualityOf, OutOfDate;
    OutdatedMeans(view.topology, view.measurements, p);
    if hard.requireSupportedLinks {
      SupportedIsFresh(Traversed(view.topology.links, p.elements));
    }
  }

  lemma WinnerRevalidation(view: View, policy: RoutePolicy, paths: seq<Path>)
    requires Eligible(view, policy.hard, paths) != []
    ensures var best := Ranked(policy.ranking, Eligible(view, policy.hard, paths))[0];
            OutcomeFor(best.quality.outcome) == RouteOutcome.RevalidationRequired <==>
              !policy.hard.requireSupportedLinks && !policy.hard.requireFresh && OnlyOutdated(view, best.path)
  {
    hide Eligible, Ranked, Scored, ReasonFor, Assessed, Wins, Traversed, Any, Missing;
    var i := WinnerExists(view, policy, paths);
    var kept := EligiblePositions(view, policy.hard, paths);
    WinnerQuality(view, policy, paths, i);
    AssessedRevalidation(view, paths[kept[i]]);
    if Outdated(view, paths[kept[i]]) {
      EligibleOutdated(view, policy.hard, paths[kept[i]]);
    }
  }

  lemma RejectionRevalidation(view: View, hard: HardConstraint, paths: seq<Path>)
    ensures OutcomeOfRejection(view, hard, paths) == RouteOutcome.RevalidationRequired <==>
              !hard.requireSupportedLinks && hard.requireFresh && !RejectedUnsupported(view, hard, paths) &&
              exists i :: 0 <= i < |paths| && Outdated(view, paths[i])
  {
    hide Traversed, Assessed, RejectedUnsupported, FreshnessStage, Outdated;
    forall i | 0 <= i < |paths|
      ensures FreshnessStage(Traversed(view.topology.links, paths[i].elements), hard, Assessed(view, paths[i])) <==>
                !hard.requireSupportedLinks && hard.requireFresh && Outdated(view, paths[i])
    {
      FreshnessStageIff(view, hard, paths[i]);
    }
  }

  /** For every policy, the answer is that revalidation is required exactly when there are candidates, supported links
    * are not required, and either freshness is required, every candidate was rejected, some is outdated and none was
    * rejected while unsupported, or freshness is not required and the winner is outdated and nothing worse. */
  lemma RevalidationAnswerIff(view: View, hash: PathHash, limits: Limits, policy: RoutePolicy, source: nat, target: nat,
                              stamp: Stamp)
    ensures var paths := Enumerated(view.topology, hash, source, target, limits);
            var evals, hard := Eligible(view, policy.hard, paths), policy.hard;
            Decide(view, hash, limits, policy, source, target, stamp).outcome == RouteOutcome.RevalidationRequired <==>
              FindDevice(view.topology.devices, source).Some? && FindDevice(view.topology.devices, target).Some? &&
              paths != [] && !hard.requireSupportedLinks &&
              if evals == [] then
                hard.requireFresh && !RejectedUnsupported(view, hard, paths) &&
                exists i :: 0 <= i < |paths| && Outdated(view, paths[i])
              else !hard.requireFresh && OnlyOutdated(view, Ranked(policy.ranking, evals)[0].path)
  {
    hide Enumerated, FindDevice, Eligible, Rejected, Ranked, RejectedUnsupported, RejectedAsOutdated, Outdated,
         OnlyOutdated, OutcomeOfRejection, OutcomeFor;
    var paths := Enumerated(view.topology, hash, source, target, limits);
    RejectionRevalidation(view, policy.hard, paths);
    if Eligible(view, policy.hard, paths) != [] {
      WinnerRevalidation(view, policy, paths);
    }
  }

  /** So a policy that requires supported links, such as the default one, never answers that: links awaiting
    * revalidation fail the support stage, and with everything rejected the decision reads policy-rejected, or
    * unsupported if some rejected candidate has an unsupported link. */
  lemma SupportedPolicyNeverAsksRevalidation(view: View, hash: PathHash, limits: Limits, policy: RoutePolicy,
                                             source: nat, target: nat, stamp: Stamp)
    requires policy.hard.requireSupportedLinks
    ensures var d := Decide(view, hash, limits, policy, source, target, stamp);
            d.outcome != RouteOutcome.RevalidationRequired &&
            (d.selected.None? && d.candidates != [] ==>
              d.outcome == if RejectedUnsupported(view, policy.hard,
                                                  Enumerated(view.topology, hash, source, target, limits))
                           then RouteOutcome.Unsupported else PolicyRejected)
  {
    hide Enumerated, FindDevice, Eligible, Rejected, Ranked, RejectedUnsupported, RejectedAsOutdated, Outdated,
         OnlyOutdated;
    RevalidationAnswerIff(view, hash, limits, policy, source, target, stamp);
  }

  lemma WinnerQuality(view: View, policy: RoutePolicy, paths: seq<Path>, i: nat)
    requires Wins(view, policy, paths, i)
    ensures var evals := Eligible(view, policy.hard, paths);
            i < |evals| && Ranked(policy.ranking, evals)[0].quality == evals[i].quality &&
            Ranked(policy.ranking, evals)[0].path == evals[i].path
  {
    hide Eligible, Score, ContextOf, Better, StableSort;
  }
}

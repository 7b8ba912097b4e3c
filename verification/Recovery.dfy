/** Crash recovery end to end: capture, serialize, deserialize, restore. */
module Recovery {
  import opened Bytes
  import opened Types
  import opened Sorting
  import opened Registry
  import opened RegistryRuns
  import opened RegistryTheorems
  import opened Serialization
  import opened Deserialization
  import opened DurableTheorems
  import opened Paths
  import opened Quality
  import opened Ranking
  import opened Routing
  import opened RouteSafety

  /** Every field of the registry is representable in its durable width, and every string in 4096 bytes. */
  ghost predicate Representable(s: State, now: Timestamp)
  {
    && s.topologyGeneration < Radix(8)
    && TimestampFits(now)
    && (forall k :: k in s.devices ==> DeviceFits(s.devices[k]))
    && (forall k :: k in s.links ==> LinkFits(s.links[k]))
  }

  /** The loader compares counts with the default limits, whatever limits the registry was built with. */
  predicate Loadable(s: State)
  {
    |s.devices| <= 256 && |s.links| <= 1024
  }

  lemma CaptureFits(s: State, limits: Limits, now: Timestamp)
    requires Good(s, limits)
    ensures DurableFits(Captured(s, now)) <==> Representable(s, now) && Loadable(s)
  {
    hide DeviceFits, LinkFits, Ordered;
    OrderedLists(s.devices, DeviceId);
    OrderedLists(s.links, LinkId);
    var ds, ls := Ordered(s.devices), Ordered(s.links);
    if DurableFits(Captured(s, now)) {
      forall k | k in s.devices
        ensures DeviceFits(s.devices[k])
      {
        var i := ListingCovers(ds, s.devices, DeviceId, k);
        assert DeviceFits(ds[i]);
      }
      forall k | k in s.links
        ensures LinkFits(s.links[k])
      {
        var i := ListingCovers(ls, s.links, LinkId, k);
        assert LinkFits(ls[i]);
      }
    }
  }

  /** Under any limits, the durable bytes of a reachable registry load as what was captured exactly when every field is
    * representable and the counts are within the default limits. */
  lemma SavedStateLoadsIff(limits: Limits, ops: seq<Mutation>, now: Timestamp)
    ensures var s := Run(INITIAL, limits, ops);
            Deserialize(Serialize(Captured(s, now))) == Ok(Captured(s, now)) <==> Representable(s, now) && Loadable(s)
  {
    hide Run, Deserialize, Serialize, Captured, DurableFits, Representable, Loadable;
    ReachableIsGood(limits, ops);
    CaptureFits(Run(INITIAL, limits, ops), limits, now);
    RoundTripExactly(Captured(Run(INITIAL, limits, ops), now));
  }

  /** Every field is within its durable width: strings have at most 65535 bytes, which is all that can arrive on the
    * wire, and counts fit in 32 bits. */
  ghost predicate WithinWidths(s: State, now: Timestamp)
  {
    && s.topologyGeneration < Radix(8)
    && TimestampFits(now)
    && |s.devices| < Radix(4)
    && |s.links| < Radix(4)
    && (forall k :: k in s.devices ==> DeviceWidths(s.devices[k]))
    && (forall k :: k in s.links ==> LinkWidths(s.links[k]))
  }

  lemma CaptureWidths(s: State, limits: Limits, now: Timestamp)
    requires Good(s, limits) && WithinWidths(s, now)
    ensures DurableWidths(Captured(s, now))
  {
    hide DeviceWidths, LinkWidths, Ordered, Radix;
    OrderedLists(s.devices, DeviceId);
    OrderedLists(s.links, LinkId);
  }

  /** While every string of a reachable registry has at most 65535 bytes and every field its width, saving it and
    * loading the bytes gives what was captured or an integrity failure, the failure exactly when a string has more than
    * 4096 bytes or a count exceeds the default limits. */
  lemma SavedStateLoadsOrFails(limits: Limits, ops: seq<Mutation>, now: Timestamp)
    requires WithinWidths(Run(INITIAL, limits, ops), now)
    ensures var s := Run(INITIAL, limits, ops);
            Deserialize(Serialize(Captured(s, now)))
              == if Representable(s, now) && Loadable(s) then Ok(Captured(s, now)) else Err(IntegrityFailure)
  {
    hide Run, Deserialize, Serialize, Captured, DurableFits, DurableWidths, Representable, WithinWidths, Loadable;
    var s := Run(INITIAL, limits, ops);
    ReachableIsGood(limits, ops);
    CaptureFits(s, limits, now);
    CaptureWidths(s, limits, now);
    SavedLoadsOrFails(Captured(s, now));
  }

  // ---- A registry too large for its own loader ----

  function Numbered(id: nat): DeviceRecord
  {
    DeviceRecord(id, [], NodeKind.Host, [], [], [], None, [], [], [],
                 Capability(Technology.Unknown, 0, 0, 0, false, MeasurementSupport.Unknown, 0, false),
                 DeviceHealth.Present, Evidence(EvidenceClass.Real, 0, [], []), 1, None, None)
  }

  /** Registers devices 1 to n. */
  function Fleet(n: nat): (ops: seq<Mutation>)
    ensures |ops| == n
  {
    if n == 0 then [] else Fleet(n - 1) + [UpsertDevice(Numbered(n))]
  }

  lemma DeviceAdded(s: State, limits: Limits, d: DeviceRecord)
    requires d.id != 0 && d.generation != 0 && d.id !in s.devices && |s.devices| < limits.maxDevices
    ensures var t := AfterUpsertDevice(s, limits, d).0;
            t.devices == s.devices[d.id := d] && |t.devices| == |s.devices| + 1 &&
            t.topologyGeneration == s.topologyGeneration + 1 && (s.links == map[] ==> t.links == map[])
  {
    OneMoreKey(s.devices, d.id, d);
  }

  ghost predicate AllNumbered(devices: map<nat, DeviceRecord>, n: nat)
  {
    forall k :: k in devices ==> 1 <= k <= n && devices[k] == Numbered(k)
  }

  ghost predicate HoldsFleet(s: State, n: nat)
  {
    |s.devices| == n && s.links == map[] && s.topologyGeneration == n + 1 && AllNumbered(s.devices, n)
  }

  lemma OneMoreNumbered(devices: map<nat, DeviceRecord>, n: nat)
    requires AllNumbered(devices, n)
    ensures n + 1 !in devices && AllNumbered(devices[n + 1 := Numbered(n + 1)], n + 1)
  {
    hide Numbered;
  }

  lemma FleetGrows(s: State, limits: Limits, n: nat)
    requires HoldsFleet(s, n) && n < limits.maxDevices
    ensures HoldsFleet(AfterUpsertDevice(s, limits, Numbered(n + 1)).0, n + 1)
  {
    hide AfterUpsertDevice, Numbered, AllNumbered;
    NumberedFields(n + 1);
    OneMoreNumbered(s.devices, n);
    DeviceAdded(s, limits, Numbered(n + 1));
  }

  lemma {:induction false} FleetState(n: nat, limits: Limits)
    requires n <= limits.maxDevices
    ensures HoldsFleet(Run(INITIAL, limits, Fleet(n)), n)
  {
    hide AfterUpsertDevice, Numbered;
    if n > 0 {
      FleetState(n - 1, limits);
      assert Fleet(n)[..n - 1] == Fleet(n - 1);
      FleetGrows(Run(INITIAL, limits, Fleet(n - 1)), limits, n - 1);
    }
  }

  lemma NumberedFields(id: nat)
    ensures Numbered(id).id == id && Numbered(id).generation == 1
    ensures id < Radix(8) ==> DeviceFits(Numbered(id)) && DeviceWidths(Numbered(id))
  {
    hide Radix;
    RadixValues();
  }

  /** 257 devices, which a registry may be built to hold, are saved in a file that the loader refuses. */
  lemma LargeRegistryUnloadable(limits: Limits)
    requires limits.maxDevices >= 257
    ensures var s := Run(INITIAL, limits, Fleet(257));
            |s.devices| == 257 && Deserialize(Serialize(Captured(s, Timestamp(0, false)))) == Err(IntegrityFailure)
  {
    hide Run, Fleet, Deserialize, Serialize, Captured, Numbered, DeviceFits, DeviceWidths, Radix;
    var s := Run(INITIAL, limits, Fleet(257));
    RadixValues();
    FleetState(257, limits);
    forall k | k in s.devices
      ensures DeviceWidths(s.devices[k])
    {
      NumberedFields(k);
    }
    SavedStateLoadsOrFails(limits, Fleet(257), Timestamp(0, false));
  }

  // ---- Recovery ----

  function Recovered(s: State, current: State): State
  {
    var g := Max(s.topologyGeneration, current.topologyGeneration) + 1;
    State(g, RestoredDevices(s.devices), Stamped(RestoredLinks(s.links), g), [])
  }

  /** Every record is there, with the health of an owned device and the state, degradation, note and stamp of a link
    * replaced, and nothing else. */
  ghost predicate RecordsKept(s: State, t: State, g: nat)
  {
    && t.topologyGeneration == g && t.history == []
    && t.devices.Keys == s.devices.Keys && t.links.Keys == s.links.Keys
    && (forall k :: k in s.devices ==>
          t.devices[k] == s.devices[k].(health :=
            if s.devices[k].ownerWorker.Some? || s.devices[k].ownerBoot.Some? then DeviceHealth.RevalidationRequired
            else s.devices[k].health))
    && forall k :: k in s.links ==>
         t.links[k] == s.links[k].(state := LinkState.RevalidationRequired, degraded := false,
                                   degradationNote := RESTORE_NOTE, topologyGeneration := g)
  }

  lemma RecoveredRecords(s: State, current: State)
    ensures RecordsKept(s, Recovered(s, current), Max(s.topologyGeneration, current.topologyGeneration) + 1)
  {
  }

  /** Saving any reachable registry whose fields are representable and whose counts the loader admits, and loading the
    * bytes into any other registry under the same limits, keeps every device and link up to the revalidation fields,
    * drops the measurements, and fences off every decision that either registry ever made. */
  lemma RecoveryKeepsTopology(limits: Limits, ops: seq<Mutation>, now: Timestamp, current: State, later: seq<Mutation>,
                              d: RouteDecision)
    requires Representable(Run(INITIAL, limits, ops), now) && Loadable(Run(INITIAL, limits, ops))
    ensures var s := Run(INITIAL, limits, ops);
            var loaded := Deserialize(Serialize(Captured(s, now)));
            loaded.Ok? && AfterRestore(current, limits, loaded.value) == (Recovered(s, current), Done) &&
            RecordsKept(s, Recovered(s, current), Max(s.topologyGeneration, current.topologyGeneration) + 1) &&
            (d.topologyGeneration <= Max(s.topologyGeneration, current.topologyGeneration) ==>
              !Executable(Run(Recovered(s, current), limits, later), d))
  {
    hide Run, Deserialize, Serialize, Captured, Representable, Loadable, AfterRestore, RestoredDevices, Stamped,
         RestoredLinks, Executable, RecordsKept;
    var s := Run(INITIAL, limits, ops);
    SavedStateLoadsIff(limits, ops, now);
    ReachableIsGood(limits, ops);
    RestoreOfCapture(s, limits, now, current);
    RecoveredRecords(s, current);
    CapturedGeneration(s, now);
    if d.topologyGeneration <= Max(s.topologyGeneration, current.topologyGeneration) {
      RestoreFencesDecisions(current, limits, Captured(s, now), later, d);
    }
  }

  lemma CapturedGeneration(s: State, now: Timestamp)
    ensures Captured(s, now).topologyGeneration == s.topologyGeneration
  {
  }

  // ---- Quiet until a link is reported ----

  /** Operation j upserts a link, or updates the state of one, and the registry takes it. */
  predicate ReportsAt(s: State, limits: Limits, ops: seq<Mutation>, j: nat)
    requires j < |ops|
  {
    var t := Run(s, limits, ops[..j]);
    match ops[j]
    case UpsertLink(l) => AfterUpsertLink(t, limits, l).1 == Done
    case UpdateLinkState(id, _, _, _, _, _) => id in t.links
    case _ => false
  }

  ghost predicate NothingReported(s: State, limits: Limits, ops: seq<Mutation>)
  {
    forall j :: 0 <= j < |ops| ==> !ReportsAt(s, limits, ops, j)
  }

  ghost predicate AllAwaiting(s: State)
  {
    forall k :: k in s.links ==> s.links[k].state.RevalidationRequired?
  }

  lemma AwaitingStep(s: State, limits: Limits, op: Mutation)
    requires Good(s, limits) && AllAwaiting(s)
    requires op.UpsertLink? ==> AfterUpsertLink(s, limits, op.link).1 != Done
    requires op.UpdateLinkState? ==> op.linkId !in s.links
    ensures AllAwaiting(Apply(s, limits, op))
  {
    hide Apply, AfterUpsertLink, AfterRestore;
    var t := Apply(s, limits, op);
    forall id | id in t.links
      ensures t.links[id].state.RevalidationRequired?
    {
      LinkWriteEffect(s, limits, op, id);
    }
  }

  lemma {:induction false} AwaitingStays(s: State, limits: Limits, ops: seq<Mutation>)
    requires Good(s, limits) && AllAwaiting(s) && NothingReported(s, limits, ops)
    ensures Good(Run(s, limits, ops), limits) && AllAwaiting(Run(s, limits, ops))
    decreases |ops|
  {
    hide Apply, Good, AllAwaiting, AfterUpsertLink;
    if ops != [] {
      var n := |ops| - 1;
      forall j | 0 <= j < n
        ensures !ReportsAt(s, limits, ops[..n], j)
      {
        assert !ReportsAt(s, limits, ops, j);
        assert ops[..n][..j] == ops[..j];
      }
      AwaitingStays(s, limits, ops[..n]);
      assert !ReportsAt(s, limits, ops, n);
      AwaitingStep(Run(s, limits, ops[..n]), limits, ops[n]);
      MutationKeepsGood(Run(s, limits, ops[..n]), limits, ops[n]);
    }
  }

  /** Where every link awaits revalidation, no policy finds an executable route until the registry takes a report of
    * one. */
  lemma QuietUntilReported(s: State, limits: Limits, ops: seq<Mutation>, hash: PathHash, policy: RoutePolicy,
                           source: nat, target: nat, stamp: Stamp)
    requires Good(s, limits) && AllAwaiting(s) && NothingReported(s, limits, ops)
    ensures !Decide(ViewOf(Run(s, limits, ops)), hash, limits, policy, source, target, stamp).executable
  {
    hide Decide, Run, Snapshot, Simple, PathOf, OutOfUse, Good, NothingReported;
    AwaitingStays(s, limits, ops);
    var t := Run(s, limits, ops);
    if Decide(ViewOf(t), hash, limits, policy, source, target, stamp).executable {
      var w := ExecutableRoute(t, limits, hash, policy, source, target, stamp);
      SimplePathNotEmpty(Snapshot(t).links, source, target, w);
      NotAwaitingRevalidation(t.links[w[0].link]);
    }
  }

  /** So it is after a restore, */
  lemma RestoredRegistryIsQuiet(s: State, limits: Limits, saved: DurableState, ops: seq<Mutation>, hash: PathHash,
                                policy: RoutePolicy, source: nat, target: nat, stamp: Stamp)
    requires Good(s, limits) && AfterRestore(s, limits, saved).1 == Done
    requires NothingReported(AfterRestore(s, limits, saved).0, limits, ops)
    ensures !Decide(ViewOf(Run(AfterRestore(s, limits, saved).0, limits, ops)), hash, limits, policy, source, target,
                    stamp)
              .executable
  {
    hide AfterRestore, Decide, Run, Good, NothingReported;
    var t := AfterRestore(s, limits, saved).0;
    RestoreKeepsGood(s, limits, saved);
    forall id | id in t.links
      ensures t.links[id].state.RevalidationRequired?
    {
      RestoreWritesLinks(s, limits, saved, id);
    }
    QuietUntilReported(t, limits, ops, hash, policy, source, target, stamp);
  }

  /** and after a mark. */
  lemma MarkedRegistryIsQuiet(s: State, limits: Limits, ops: seq<Mutation>, hash: PathHash, policy: RoutePolicy,
                              source: nat, target: nat, stamp: Stamp)
    requires Good(s, limits) && NothingReported(AfterMark(s), limits, ops)
    ensures !Decide(ViewOf(Run(AfterMark(s), limits, ops)), hash, limits, policy, source, target, stamp).executable
  {
    hide AfterMark, Decide, Run, Good, NothingReported;
    MarkKeepsGood(s, limits);
    forall id | id in AfterMark(s).links
      ensures AfterMark(s).links[id].state.RevalidationRequired?
    {
      MarkEffect(s, id);
    }
    QuietUntilReported(AfterMark(s), limits, ops, hash, policy, source, target, stamp);
  }
}

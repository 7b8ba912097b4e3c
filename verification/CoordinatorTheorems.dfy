/** Who stands behind the evidence in the coordinator's registry, under every interleaving of its handlers. */
module CoordinatorTheorems {
  import opened Types
  import opened Registry
  import opened RegistryRuns
  import opened RegistryTheorems
  import opened Coordinator
  import opened Paths
  import opened Quality
  import opened Ranking
  import opened Routing
  import opened RouteSafety

  // ---- Boots ----

  /** No pair of worker and boot is accepted twice, so an owner names one connection. */
  lemma BootAcceptedOnce(limits: Limits, epoch: nat, steps: seq<Step>, i: nat, j: nat)
    requires var cs := Interleaved(limits, epoch, steps).connections;
             i < |cs| && j < |cs| && SameWorker(cs[i], cs[j]) && cs[i].boot == cs[j].boot
    ensures i == j
  {
    hide Interleaved, SameWorker;
    BootsAlwaysIncrease(limits, epoch, steps);
    var cs := Interleaved(limits, epoch, steps).connections;
    SameWorkerEitherWay(cs[i], cs[j]);
  }

  lemma SameWorkerEitherWay(a: Connection, b: Connection)
    requires SameWorker(a, b)
    ensures SameWorker(b, a)
  {
  }

  /** An accepted connection has its worker's recorded boot exactly until a later one of that worker is accepted. */
  lemma CurrentBootIff(limits: Limits, epoch: nat, steps: seq<Step>, c: nat)
    requires var cs := Interleaved(limits, epoch, steps).connections; c < |cs| && WasAccepted(cs[c])
    ensures var s := Interleaved(limits, epoch, steps);
            var x := s.connections[c];
            x.worker in s.lastBoot &&
            (x.boot == s.lastBoot[x.worker] <==>
              forall j :: c < j < |s.connections| ==> !SameWorker(x, s.connections[j]))
  {
    hide Interleaved;
    BootsAlwaysIncrease(limits, epoch, steps);
    var s := Interleaved(limits, epoch, steps);
    var x := s.connections[c];
    var i: nat :| Holds(s.connections, i, x.worker, s.lastBoot[x.worker]);
    assert i < c ==> SameWorker(s.connections[i], x);
    if x.boot != s.lastBoot[x.worker] {
      assert SameWorker(x, s.connections[i]);
    }
  }

  lemma InterleavedLast(limits: Limits, epoch: nat, steps: seq<Step>, step: Step)
    ensures Interleaved(limits, epoch, steps + [step]) == Next(Interleaved(limits, epoch, steps), limits, step)
  {
    hide Next;
    assert (steps + [step])[..|steps|] == steps;
  }

  /** A HELLO is accepted exactly when it reports the coordinator's epoch and a boot above every boot accepted before
    * for its worker. Otherwise the boot table, the live count and the registry stay as they were. */
  lemma HelloAcceptedIff(limits: Limits, epoch: nat, steps: seq<Step>, worker: nat, boot: nat, reportedEpoch: nat)
    ensures var s := Interleaved(limits, epoch, steps);
            var t := Interleaved(limits, epoch, steps + [Hello(worker, boot, reportedEpoch)]);
            var accepted := reportedEpoch == epoch &&
              forall x :: x in s.connections && WasAccepted(x) && x.worker == worker ==> x.boot < boot;
            t == if accepted then
                   Shared(epoch, s.lastBoot[worker := boot], s.liveCount + 1, s.registry,
                          s.connections + [Connection(worker, boot, Accepted)])
                 else s.(connections := s.connections + [Connection(worker, boot, Refused)])
  {
    hide Interleaved;
    var s := Interleaved(limits, epoch, steps);
    InterleavedLast(limits, epoch, steps, Hello(worker, boot, reportedEpoch));
    EpochStays(limits, epoch, steps);
    BootsAlwaysIncrease(limits, epoch, steps);
    if worker in s.lastBoot {
      var i: nat :| Holds(s.connections, i, worker, s.lastBoot[worker]);
    }
  }

  lemma {:induction false} EpochStays(limits: Limits, epoch: nat, steps: seq<Step>)
    ensures Interleaved(limits, epoch, steps).epoch == epoch
    decreases |steps|
  {
    hide Next;
    if steps != [] {
      EpochStays(limits, epoch, steps[..|steps| - 1]);
      RegistryStep(Interleaved(limits, epoch, steps[..|steps| - 1]), limits, steps[|steps| - 1]);
    }
  }

  /** Step k opened connection c: a HELLO of its worker and boot that found c connections there. */
  ghost predicate Opened(limits: Limits, epoch: nat, steps: seq<Step>, c: nat, k: nat)
  {
    && k < |steps| && steps[k].Hello? && |Interleaved(limits, epoch, steps[..k]).connections| == c
    && c < |Interleaved(limits, epoch, steps).connections|
    && steps[k].worker == Interleaved(limits, epoch, steps).connections[c].worker
    && steps[k].boot == Interleaved(limits, epoch, steps).connections[c].boot
  }

  lemma StepOnConnections(s: Shared, limits: Limits, step: Step)
    ensures var cs, ds := s.connections, Next(s, limits, step).connections;
            |ds| == |cs| + (if step.Hello? then 1 else 0) &&
            (forall c :: 0 <= c < |cs| ==>
              ds[c].worker == cs[c].worker && ds[c].boot == cs[c].boot && WasAccepted(ds[c]) == WasAccepted(cs[c])) &&
            (step.Hello? ==>
              ds[|cs|].worker == step.worker && ds[|cs|].boot == step.boot &&
              (WasAccepted(ds[|cs|]) ==> step.reportedEpoch == s.epoch))
  {
    hide Apply, MutationOf;
  }

  /** Every connection was opened by one HELLO, and one that was accepted, as every one that publishes was, reported the
    * coordinator's epoch. */
  lemma {:induction false} ConnectionOpened(limits: Limits, epoch: nat, steps: seq<Step>, c: nat) returns (k: nat)
    requires c < |Interleaved(limits, epoch, steps).connections|
    ensures Opened(limits, epoch, steps, c, k)
    ensures WasAccepted(Interleaved(limits, epoch, steps).connections[c]) ==> steps[k].reportedEpoch == epoch
    ensures Coordinator.At(Interleaved(limits, epoch, steps), c, Serving) ==> steps[k].reportedEpoch == epoch
    decreases |steps|
  {
    hide Next;
    var n := |steps| - 1;
    var s := Interleaved(limits, epoch, steps[..n]);
    StepOnConnections(s, limits, steps[n]);
    EpochStays(limits, epoch, steps[..n]);
    if c < |s.connections| {
      k := ConnectionOpened(limits, epoch, steps[..n], c);
      assert steps[..n][..k] == steps[..k];
    } else {
      k := n;
    }
  }

  /** What a publication does never depends on the boot table. */
  lemma PublishIgnoresTable(s: Shared, limits: Limits, step: Step, table: map<nat, nat>)
    requires step.PublishDevice? || step.PublishLink? || step.PublishMeasurement?
    ensures Next(s.(lastBoot := table), limits, step) == Next(s, limits, step).(lastBoot := table)
  {
    hide Apply;
  }

  lemma PublishedIsLast(s: State, limits: Limits, m: MeasurementRecord, freshId: nat)
    requires limits.maxMeasurementHistory > 0
    ensures var h := AfterPublishMeasurement(s, limits, m, freshId).history;
            h != [] && h[|h| - 1] == Published(m, freshId)
  {
    hide Published;
  }

  lemma AcceptedDeviceStored(s: State, limits: Limits, d: DeviceRecord)
    requires AfterUpsertDevice(s, limits, d).1 == Done
    ensures var t := AfterUpsertDevice(s, limits, d).0; d.id in t.devices && t.devices[d.id] == d
  {
    hide Stamped;
  }

  /** The boot is checked at HELLO only. A connection that serves publishes measurements and devices under its own boot,
    * and that boot is behind the recorded one exactly when a later connection of its worker has been accepted. */
  lemma ServingPublishesUnderOwnBoot(limits: Limits, epoch: nat, steps: seq<Step>, c: nat, m: MeasurementRecord,
                                     freshId: nat, d: DeviceRecord)
    requires Coordinator.At(Interleaved(limits, epoch, steps), c, Serving)
    ensures var s := Interleaved(limits, epoch, steps);
            var x, h := s.connections[c],
                        Interleaved(limits, epoch, steps + [Step.PublishMeasurement(c, m, freshId)]).registry.history;
            limits.maxMeasurementHistory > 0 ==>
              h != [] && h[|h| - 1] == m.(id := if m.id == 0 then freshId else m.id, stale := false,
                                          revalidationRequired := false, ownerWorker := Some(x.worker),
                                          ownerBoot := Some(x.boot))
    ensures var s := Interleaved(limits, epoch, steps);
            var x, ds := s.connections[c], Interleaved(limits, epoch, steps + [PublishDevice(c, d)]).registry.devices;
            AfterUpsertDevice(s.registry, limits, OwnedDevice(d, x)).1 == Done ==>
              d.id in ds && ds[d.id] == d.(ownerWorker := Some(x.worker), ownerBoot := Some(x.boot))
    ensures var s := Interleaved(limits, epoch, steps);
            var x := s.connections[c];
            x.worker in s.lastBoot &&
            (x.boot < s.lastBoot[x.worker] <==> exists j :: c < j < |s.connections| && SameWorker(x, s.connections[j]))
  {
    hide Interleaved, AfterUpsertDevice, AfterPublishMeasurement;
    var s := Interleaved(limits, epoch, steps);
    var x := s.connections[c];
    InterleavedLast(limits, epoch, steps, Step.PublishMeasurement(c, m, freshId));
    InterleavedLast(limits, epoch, steps, PublishDevice(c, d));
    if limits.maxMeasurementHistory > 0 {
      PublishedIsLast(s.registry, limits, OwnedMeasurement(m, x), freshId);
    }
    if AfterUpsertDevice(s.registry, limits, OwnedDevice(d, x)).1 == Done {
      AcceptedDeviceStored(s.registry, limits, OwnedDevice(d, x));
    }
    BootsAlwaysIncrease(limits, epoch, steps);
    CurrentBootIff(limits, epoch, steps, c);
  }

  /** Worker 1 connects, and connects again with a newer boot. */
  function Superseded(epoch: nat): seq<Step>
  {
    [Hello(1, 1, epoch)] + [ReplySent(0)] + [Hello(1, 2, epoch)]
  }

  lemma SupersededState(limits: Limits, epoch: nat)
    ensures Interleaved(limits, epoch, Superseded(epoch)) ==
              Shared(epoch, map[1 := 2], 2, INITIAL, [Connection(1, 1, Serving), Connection(1, 2, Accepted)])
  {
    var none: seq<Step> := Superseded(epoch)[..0];
    assert none + [Hello(1, 1, epoch)] == [Hello(1, 1, epoch)];
    InterleavedLast(limits, epoch, none, Hello(1, 1, epoch));
    InterleavedLast(limits, epoch, [Hello(1, 1, epoch)], ReplySent(0));
    InterleavedLast(limits, epoch, [Hello(1, 1, epoch)] + [ReplySent(0)], Hello(1, 2, epoch));
    assert Interleaved(limits, epoch, none) == Start(epoch);
    hide Interleaved;
    assert Interleaved(limits, epoch, [Hello(1, 1, epoch)])
        == Shared(epoch, map[1 := 1], 1, INITIAL, [Connection(1, 1, Accepted)]);
    assert Interleaved(limits, epoch, [Hello(1, 1, epoch)] + [ReplySent(0)])
        == Shared(epoch, map[1 := 1], 1, INITIAL, [Connection(1, 1, Serving)]);
  }

  /** Such a connection exists: here the first of two still publishes under the boot that the second has replaced. */
  lemma OldBootStillPublishes(limits: Limits, epoch: nat, m: MeasurementRecord, freshId: nat)
    requires limits.maxMeasurementHistory > 0
    ensures var s := Interleaved(limits, epoch, Superseded(epoch) + [Step.PublishMeasurement(0, m, freshId)]);
            1 in s.lastBoot && s.lastBoot[1] == 2 && |s.registry.history| == 1 &&
            !s.registry.history[0].stale && s.registry.history[0].ownerBoot == Some(1)
  {
    hide Superseded;
    SupersededState(limits, epoch);
    InterleavedLast(limits, epoch, Superseded(epoch), Step.PublishMeasurement(0, m, freshId));
    hide Interleaved;
  }

  // ---- Owners of fresh devices and measurements ----

  /** The handler can still publish, or has lost its peer but not yet run its disconnect mark. */
  predicate Unmarked(c: Connection)
  {
    c.phase.Serving? || c.phase.Failed?
  }

  ghost predicate Owns(cs: seq<Connection>, c: nat, worker: Option<nat>, boot: Option<nat>)
  {
    c < |cs| && Unmarked(cs[c]) && worker == Some(cs[c].worker) && boot == Some(cs[c].boot)
  }

  ghost predicate Backed(cs: seq<Connection>, worker: Option<nat>, boot: Option<nat>)
  {
    exists c: nat :: Owns(cs, c, worker, boot)
  }

  ghost predicate MeasurementsBacked(cs: seq<Connection>, history: seq<MeasurementRecord>)
  {
    forall i :: 0 <= i < |history| && !history[i].stale ==> Backed(cs, history[i].ownerWorker, history[i].ownerBoot)
  }

  ghost predicate DevicesBacked(cs: seq<Connection>, devices: map<nat, DeviceRecord>)
  {
    forall k :: k in devices ==>
      devices[k].ownerWorker.Some? &&
      (!devices[k].health.RevalidationRequired? ==> Backed(cs, devices[k].ownerWorker, devices[k].ownerBoot))
  }

  /** Every owner that stood behind evidence still does. */
  ghost predicate StillBacked(cs: seq<Connection>, ds: seq<Connection>)
  {
    forall c: nat :: c < |cs| && Unmarked(cs[c]) ==>
      c < |ds| && Unmarked(ds[c]) && ds[c].worker == cs[c].worker && ds[c].boot == cs[c].boot
  }

  lemma BackedStays(cs: seq<Connection>, ds: seq<Connection>, worker: Option<nat>, boot: Option<nat>)
    requires StillBacked(cs, ds) && Backed(cs, worker, boot)
    ensures Backed(ds, worker, boot)
  {
    var c: nat :| Owns(cs, c, worker, boot);
    assert Owns(ds, c, worker, boot);
  }

  lemma EvidenceStaysBacked(cs: seq<Connection>, ds: seq<Connection>, s: State)
    requires StillBacked(cs, ds) && MeasurementsBacked(cs, s.history) && DevicesBacked(cs, s.devices)
    ensures MeasurementsBacked(ds, s.history) && DevicesBacked(ds, s.devices)
  {
    hide StillBacked, Backed;
    forall worker, boot | Backed(cs, worker, boot)
      ensures Backed(ds, worker, boot)
    {
      BackedStays(cs, ds, worker, boot);
    }
  }

  lemma ConnectionsStayBacked(s: Shared, limits: Limits, step: Step)
    requires !(Enabled(s, step) && step.Mark?)
    ensures StillBacked(s.connections, Next(s, limits, step).connections)
  {
    hide Apply, MutationOf;
  }

  lemma PublishBacked(cs: seq<Connection>, limits: Limits, s: State, m: MeasurementRecord, freshId: nat, c: nat)
    requires c < |cs| && Unmarked(cs[c]) && MeasurementsBacked(cs, s.history)
    ensures MeasurementsBacked(cs, AfterPublishMeasurement(s, limits, OwnedMeasurement(m, cs[c]), freshId).history)
  {
    hide Backed;
    var x := OwnedMeasurement(m, cs[c]);
    assert Backed(cs, x.ownerWorker, x.ownerBoot) by {
      OwnerBacks(cs, c);
    }
    var h := s.history + [Published(x, freshId)];
    assert MeasurementsBacked(cs, h);
    assert forall i :: 0 <= i < |h| - 1 ==> h[1..][i] == h[i + 1];
  }

  lemma OwnerBacks(cs: seq<Connection>, c: nat)
    requires c < |cs| && Unmarked(cs[c])
    ensures Backed(cs, Some(cs[c].worker), Some(cs[c].boot))
  {
    assert Owns(cs, c, Some(cs[c].worker), Some(cs[c].boot));
  }

  lemma UpsertBacked(cs: seq<Connection>, limits: Limits, s: State, d: DeviceRecord, c: nat)
    requires c < |cs| && Unmarked(cs[c]) && DevicesBacked(cs, s.devices)
    ensures DevicesBacked(cs, AfterUpsertDevice(s, limits, OwnedDevice(d, cs[c])).0.devices)
  {
    hide Backed, Stamped;
    OwnerBacks(cs, c);
  }

  lemma MarkLeavesNothingFresh(s: State)
    ensures forall i :: 0 <= i < |AfterMark(s).history| ==> AfterMark(s).history[i].stale
    ensures AfterMark(s).devices == MarkedDevices(s.devices)
    ensures forall k :: k in AfterMark(s).links ==> AfterMark(s).links[k].state.RevalidationRequired?
  {
  }

  lemma MarkedDevicesBacked(cs: seq<Connection>, ds: seq<Connection>, devices: map<nat, DeviceRecord>)
    requires DevicesBacked(cs, devices)
    ensures DevicesBacked(ds, MarkedDevices(devices))
  {
    hide Backed;
  }

  lemma DevicesUntouched(s: State, limits: Limits, l: LinkRecord)
    ensures AfterUpsertLink(s, limits, l).0.devices == s.devices && AfterUpsertLink(s, limits, l).0.history == s.history
  {
    hide Stamped, ParallelLinks;
  }

  lemma HistoryUntouched(s: State, limits: Limits, d: DeviceRecord)
    ensures AfterUpsertDevice(s, limits, d).0.history == s.history
  {
    hide Stamped;
  }

  lemma StepKeepsBacked(s: Shared, limits: Limits, step: Step)
    requires MeasurementsBacked(s.connections, s.registry.history) && DevicesBacked(s.connections, s.registry.devices)
    ensures var t := Next(s, limits, step);
            MeasurementsBacked(t.connections, t.registry.history) && DevicesBacked(t.connections, t.registry.devices)
  {
    hide MeasurementsBacked, DevicesBacked, AfterUpsertDevice, AfterUpsertLink, AfterPublishMeasurement, AfterMark,
         StillBacked, OwnedDevice, OwnedMeasurement;
    var t := Next(s, limits, step);
    var cs, r := s.connections, s.registry;
    if !Enabled(s, step) {
    } else if step.Mark? {
      MarkBacked(s.connections, t.connections, s.registry);
    } else {
      ConnectionsStayBacked(s, limits, step);
      if step.PublishDevice? {
        UpsertBacked(cs, limits, r, step.device, step.c);
        HistoryUntouched(r, limits, OwnedDevice(step.device, cs[step.c]));
      } else if step.PublishLink? {
        DevicesUntouched(r, limits, step.link);
      } else if step.PublishMeasurement? {
        PublishBacked(cs, limits, r, step.measurement, step.freshId, step.c);
        PublishKeepsDevices(r, limits, OwnedMeasurement(step.measurement, cs[step.c]), step.freshId);
      }
      EvidenceStaysBacked(cs, t.connections, t.registry);
    }
  }

  lemma PublishKeepsDevices(s: State, limits: Limits, m: MeasurementRecord, freshId: nat)
    ensures AfterPublishMeasurement(s, limits, m, freshId).devices == s.devices
  {
  }

  lemma MarkBacked(cs: seq<Connection>, ds: seq<Connection>, s: State)
    requires DevicesBacked(cs, s.devices)
    ensures MeasurementsBacked(ds, AfterMark(s).history) && DevicesBacked(ds, AfterMark(s).devices)
  {
    hide AfterMark, DevicesBacked, Backed, MarkedDevices;
    MarkLeavesNothingFresh(s);
    MarkedDevicesBacked(cs, ds, s.devices);
  }

  /** Under every interleaving: a measurement that is not stale, and a device that is not awaiting
    * revalidation, belongs to an accepted connection that has not yet run its disconnect mark. */
  lemma {:induction false} FreshEvidenceIsBacked(limits: Limits, epoch: nat, steps: seq<Step>)
    ensures var s := Interleaved(limits, epoch, steps);
            MeasurementsBacked(s.connections, s.registry.history) && DevicesBacked(s.connections, s.registry.devices)
    decreases |steps|
  {
    hide Next, MeasurementsBacked, DevicesBacked;
    if steps != [] {
      FreshEvidenceIsBacked(limits, epoch, steps[..|steps| - 1]);
      StepKeepsBacked(Interleaved(limits, epoch, steps[..|steps| - 1]), limits, steps[|steps| - 1]);
    } else {
      NothingToBack(epoch);
    }
  }

  lemma NothingToBack(epoch: nat)
    ensures MeasurementsBacked([], Start(epoch).registry.history) && DevicesBacked([], Start(epoch).registry.devices)
  {
  }

  // ---- One mark for all workers ----

  lemma MarkedLinkReplaced(s: State, limits: Limits, l: LinkRecord)
    requires Good(s, limits) && l.id in s.links && !l.state.RevalidationRequired?
    ensures AfterUpsertLink(AfterMark(s), limits, l).1 == Done <==> Replaces(s, limits, l)
    ensures !Replaces(s, limits, l) ==> AfterUpsertLink(AfterMark(s), limits, l).0 == AfterMark(s)
  {
    hide Stamped, ParallelLinks, StaleHistory;
    MarkKeepsParallel(s, l.source, l.target);
    hide MarkedDevices;
    assert GoodLink(s.links[l.id], s.devices);
  }

  /** The link carries a newer generation than the stored one, joins two registered devices, and there is room. */
  ghost predicate Replaces(s: State, limits: Limits, l: LinkRecord)
    requires l.id in s.links
  {
    && l.generation > s.links[l.id].generation
    && l.source != l.target && l.source in s.devices && l.target in s.devices
    && |s.links| < limits.maxLinks && |ParallelLinks(s.links, l.source, l.target)| < limits.maxParallelLinks
  }

  lemma MarkKeepsParallel(s: State, a: nat, b: nat)
    ensures AfterMark(s).links.Keys == s.links.Keys && AfterMark(s).devices.Keys == s.devices.Keys
    ensures |AfterMark(s).links| == |s.links| && ParallelLinks(AfterMark(s).links, a, b) == ParallelLinks(s.links, a, b)
    ensures forall k :: k in s.links ==> AfterMark(s).links[k].generation == s.links[k].generation &&
                                         AfterMark(s).links[k].state.RevalidationRequired?
  {
    hide StaleHistory;
    SameKeysSameSize(s.links, AfterMark(s).links);
  }

  lemma MarkStep(s: Shared, limits: Limits, c: nat, other: nat)
    requires Coordinator.At(s, c, Phase.Failed) && Coordinator.At(s, other, Serving)
    ensures Next(s, limits, Mark(c)).registry == AfterMark(s.registry)
    ensures Coordinator.At(Next(s, limits, Mark(c)), other, Serving)
  {
    hide AfterMark;
  }

  lemma PublishLinkStep(s: Shared, limits: Limits, c: nat, l: LinkRecord)
    requires Coordinator.At(s, c, Serving)
    ensures Next(s, limits, PublishLink(c, l)) == s.(registry := AfterUpsertLink(s.registry, limits, l).0)
  {
    hide AfterUpsertLink;
  }

  lemma MarkedRegistryReplaces(s: State, limits: Limits, l: LinkRecord)
    requires Good(s, limits) && l.id in s.links && !l.state.RevalidationRequired?
    ensures var u := AfterUpsertLink(AfterMark(s), limits, l).0;
            l.id in u.links && if Replaces(s, limits, l) then u.links[l.id].state == l.state else u == AfterMark(s)
  {
    hide AfterUpsertLink, AfterMark, Good, Replaces;
    MarkedLinkReplaced(s, limits, l);
    MarkKeepsParallel(s, l.source, l.target);
    if Replaces(s, limits, l) {
      AcceptedLinkState(AfterMark(s), limits, l);
    }
  }

  /** The mark of one connection leaves nothing fresh of any worker. Another connection that still serves, of any
    * worker, is not told, and its link, sent again under a generation no newer than the stored one, is refused: only a
    * newer generation brings the link back. */
  lemma MarkSilencesEveryWorker(limits: Limits, epoch: nat, steps: seq<Step>, c: nat, other: nat, l: LinkRecord)
    requires var s := Interleaved(limits, epoch, steps);
             Coordinator.At(s, c, Phase.Failed) && Coordinator.At(s, other, Serving) && l.id in s.registry.links &&
             !l.state.RevalidationRequired?
    ensures var t := Interleaved(limits, epoch, steps + [Mark(c)]);
            Coordinator.At(t, other, Serving) &&
            (forall i :: 0 <= i < |t.registry.history| ==> t.registry.history[i].stale) &&
            (forall k :: k in t.registry.devices ==> t.registry.devices[k].health.RevalidationRequired?) &&
            forall k :: k in t.registry.links ==> t.registry.links[k].state.RevalidationRequired?
    ensures var s := Interleaved(limits, epoch, steps);
            var t := Interleaved(limits, epoch, steps + [Mark(c)]);
            var u := Interleaved(limits, epoch, steps + [Mark(c)] + [PublishLink(other, l)]);
            l.id in u.registry.links &&
            if Replaces(s.registry, limits, l) then u.registry.links[l.id].state == l.state else u == t
  {
    hide Interleaved, Next, AfterUpsertLink, AfterMark, Good, Replaces, DevicesBacked, MeasurementsBacked,
         Coordinator.At, MarkedDevices;
    var s := Interleaved(limits, epoch, steps);
    CoordinatorRunsRegistry(limits, epoch, steps);
    ReachableIsGood(limits, Mutations(limits, epoch, steps));
    InterleavedLast(limits, epoch, steps, Mark(c));
    InterleavedLast(limits, epoch, steps + [Mark(c)], PublishLink(other, l));
    MarkStep(s, limits, c, other);
    PublishLinkStep(Next(s, limits, Mark(c)), limits, other, l);
    MarkLeavesNothingFresh(s.registry);
    FreshEvidenceIsBacked(limits, epoch, steps);
    OwnedAreMarked(s.connections, s.registry.devices);
    MarkedRegistryReplaces(s.registry, limits, l);
  }

  lemma OwnedAreMarked(cs: seq<Connection>, devices: map<nat, DeviceRecord>)
    requires DevicesBacked(cs, devices)
    ensures forall k :: k in MarkedDevices(devices) ==> MarkedDevices(devices)[k].health.RevalidationRequired?
  {
    hide Backed;
  }

  lemma AcceptedLinkState(s: State, limits: Limits, l: LinkRecord)
    requires AfterUpsertLink(s, limits, l).1 == Done
    ensures var t := AfterUpsertLink(s, limits, l).0; l.id in t.links && t.links[l.id].state == l.state
  {
    hide ParallelLinks;
  }

  // ---- Publishers of fresh links ----

  /** Step k is a publication of the link that the registry took. */
  ghost predicate TakenAt(limits: Limits, epoch: nat, steps: seq<Step>, id: nat, k: nat)
  {
    && k < |steps| && steps[k].PublishLink? && steps[k].link.id == id
    && Enabled(Interleaved(limits, epoch, steps[..k]), steps[k])
    && AfterUpsertLink(Interleaved(limits, epoch, steps[..k]).registry, limits, steps[k].link).1 == Done
  }

  ghost predicate NoMarkSince(limits: Limits, epoch: nat, steps: seq<Step>, k: nat)
  {
    forall j :: k < j < |steps| ==> !MarksAt(limits, epoch, steps, j)
  }

  /** Step k published the link with the state it still has, no mark has run since, and the connection it came
    * from has not run its own. */
  ghost predicate PublishedBy(limits: Limits, epoch: nat, steps: seq<Step>, id: nat, k: nat)
  {
    && TakenAt(limits, epoch, steps, id, k)
    && NoMarkSince(limits, epoch, steps, k)
    && var t := Interleaved(limits, epoch, steps);
       && id in t.registry.links && t.registry.links[id].state == steps[k].link.state
       && steps[k].c < |t.connections| && Unmarked(t.connections[steps[k].c])
  }

  predicate MarksAt(limits: Limits, epoch: nat, steps: seq<Step>, j: nat)
    requires j < |steps|
  {
    steps[j].Mark? && Enabled(Interleaved(limits, epoch, steps[..j]), steps[j])
  }

  lemma LinkStep(s: Shared, limits: Limits, step: Step, id: nat)
    requires id in Next(s, limits, step).registry.links
    requires !Next(s, limits, step).registry.links[id].state.RevalidationRequired?
    requires forall k :: k in s.registry.links ==> s.registry.links[k].id == k
    ensures !(Enabled(s, step) && step.Mark?)
    ensures if Enabled(s, step) && step.PublishLink? && step.link.id == id &&
               AfterUpsertLink(s.registry, limits, step.link).1 == Done
            then Next(s, limits, step).registry.links[id].state == step.link.state
            else id in s.registry.links &&
                 Next(s, limits, step).registry.links[id].state == s.registry.links[id].state
  {
    hide Apply, AfterUpsertLink, Next;
    RegistryStep(s, limits, step);
    if Enabled(s, step) && MutationOf(s, step).Some? {
      var op := MutationOf(s, step).value;
      if step.Mark? {
        MarkLeavesNothingFresh(s.registry);
        ApplyMark(s.registry, limits);
      } else {
        LinkWriteEffect(s.registry, limits, op, id);
      }
    }
  }

  lemma ApplyMark(s: State, limits: Limits)
    ensures Apply(s, limits, MarkRevalidation) == AfterMark(s)
  {
    hide AfterMark;
  }

  /** Under every interleaving, a link that is not awaiting revalidation was last published, with that very
    * state, over a connection that has not yet run its disconnect mark, and no mark at all has run since. */
  lemma {:induction false} FreshLinkPublisher(limits: Limits, epoch: nat, steps: seq<Step>, id: nat) returns (k: nat)
    requires id in Interleaved(limits, epoch, steps).registry.links
    requires !Interleaved(limits, epoch, steps).registry.links[id].state.RevalidationRequired?
    ensures PublishedBy(limits, epoch, steps, id, k)
    decreases |steps|
  {
    hide Next, Enabled, AfterUpsertLink, Unmarked;
    var n := |steps| - 1;
    var s := Interleaved(limits, epoch, steps[..n]);
    CoordinatorRunsRegistry(limits, epoch, steps[..n]);
    ReachableIsGood(limits, Mutations(limits, epoch, steps[..n]));
    LinkStep(s, limits, steps[n], id);
    if Enabled(s, steps[n]) && steps[n].PublishLink? && steps[n].link.id == id &&
       AfterUpsertLink(s.registry, limits, steps[n].link).1 == Done {
      k := n;
      PublisherServes(s, limits, steps[n]);
    } else {
      k := FreshLinkPublisher(limits, epoch, steps[..n], id);
      PublishedByStays(limits, epoch, steps, id, k);
    }
  }

  lemma PublisherServes(s: Shared, limits: Limits, step: Step)
    requires Enabled(s, step) && step.PublishLink?
    ensures var t := Next(s, limits, step); step.c < |t.connections| && Unmarked(t.connections[step.c])
  {
    hide Apply;
  }

  lemma TakenStays(limits: Limits, epoch: nat, steps: seq<Step>, id: nat, k: nat)
    requires steps != [] && TakenAt(limits, epoch, steps[..|steps| - 1], id, k)
    ensures TakenAt(limits, epoch, steps, id, k)
    ensures k < |steps| - 1 && steps[k].PublishLink? && steps[..|steps| - 1][k] == steps[k]
  {
    hide Interleaved, Enabled, AfterUpsertLink;
    assert steps[..|steps| - 1][..k] == steps[..k];
  }

  lemma NoMarkStays(limits: Limits, epoch: nat, steps: seq<Step>, k: nat)
    requires steps != [] && NoMarkSince(limits, epoch, steps[..|steps| - 1], k)
    requires !MarksAt(limits, epoch, steps, |steps| - 1)
    ensures NoMarkSince(limits, epoch, steps, k)
  {
    hide Interleaved, Enabled;
    var front := steps[..|steps| - 1];
    forall j | k < j < |steps|
      ensures !MarksAt(limits, epoch, steps, j)
    {
      if j < |front| {
        assert front[..j] == steps[..j];
        assert !MarksAt(limits, epoch, front, j);
      }
    }
  }

  lemma PublishedByStays(limits: Limits, epoch: nat, steps: seq<Step>, id: nat, k: nat)
    requires steps != [] && PublishedBy(limits, epoch, steps[..|steps| - 1], id, k)
    requires var s, t := Interleaved(limits, epoch, steps[..|steps| - 1]), Interleaved(limits, epoch, steps);
             id in s.registry.links && id in t.registry.links &&
             t.registry.links[id].state == s.registry.links[id].state
    requires !MarksAt(limits, epoch, steps, |steps| - 1)
    ensures PublishedBy(limits, epoch, steps, id, k)
  {
    hide Next, Enabled, TakenAt, NoMarkSince, Unmarked;
    TakenStays(limits, epoch, steps, id, k);
    NoMarkStays(limits, epoch, steps, k);
    ConnectionsStayBacked(Interleaved(limits, epoch, steps[..|steps| - 1]), limits, steps[|steps| - 1]);
  }

  // ---- No worker, no route ----

  /** When every accepted connection has run its disconnect mark, no policy finds an executable route. */
  lemma NoWorkerNoRoute(limits: Limits, epoch: nat, steps: seq<Step>, hash: PathHash, policy: RoutePolicy,
                        source: nat, target: nat, stamp: Stamp)
    requires var cs := Interleaved(limits, epoch, steps).connections;
             forall c :: 0 <= c < |cs| ==> !Unmarked(cs[c])
    ensures !Decide(ViewOf(Interleaved(limits, epoch, steps).registry), hash, limits, policy, source, target, stamp)
              .executable
  {
    hide Interleaved, Decide, Simple, Snapshot, PathOf, OutOfUse, Unmarked;
    var s := Interleaved(limits, epoch, steps).registry;
    CoordinatorRunsRegistry(limits, epoch, steps);
    ReachableIsGood(limits, Mutations(limits, epoch, steps));
    if Decide(ViewOf(s), hash, limits, policy, source, target, stamp).executable {
      var w := ExecutableRoute(s, limits, hash, policy, source, target, stamp);
      SimplePathNotEmpty(Snapshot(s).links, source, target, w);
      NotAwaitingRevalidation(s.links[w[0].link]);
      var k := FreshLinkPublisher(limits, epoch, steps, w[0].link);
    }
  }
}

/** Runs of the registry: what every state that mutations can reach has in common. */
module RegistryRuns {
  import opened Bytes
  import opened Types
  import opened Registry

  datatype Mutation =
    | UpsertDevice(device: DeviceRecord)
    | RemoveDevice(deviceId: nat)
    | UpsertLink(link: LinkRecord)
    | RemoveLink(linkId: nat)
    | UpdateLinkState(linkId: nat, state: LinkState, evidence: Evidence, degraded: bool, note: Text, now: Timestamp)
    | UpdateDeviceHealth(deviceId: nat, health: DeviceHealth, evidence: Evidence)
    | AdvanceTopology
    | PublishMeasurement(measurement: MeasurementRecord, freshId: nat)
    | MarkRevalidation
    | Restore(durable: DurableState)

  function Apply(s: State, limits: Limits, op: Mutation): State
  {
    match op
    case UpsertDevice(d) => AfterUpsertDevice(s, limits, d).0
    case RemoveDevice(id) => AfterRemoveDevice(s, id).0
    case UpsertLink(l) => AfterUpsertLink(s, limits, l).0
    case RemoveLink(id) => AfterRemoveLink(s, id).0
    case UpdateLinkState(id, state, evidence, degraded, note, now) =>
      AfterUpdateLinkState(s, id, state, evidence, degraded, note, now).0
    case UpdateDeviceHealth(id, health, evidence) => AfterUpdateDeviceHealth(s, id, health, evidence).0
    case AdvanceTopology => Advanced(s)
    case PublishMeasurement(m, freshId) => AfterPublishMeasurement(s, limits, m, freshId)
    case MarkRevalidation => AfterMark(s)
    case Restore(d) => AfterRestore(s, limits, d).0
  }

  function Run(s: State, limits: Limits, ops: seq<Mutation>): State
    decreases |ops|
  {
    if ops == [] then s else Apply(Run(s, limits, ops[..|ops| - 1]), limits, ops[|ops| - 1])
  }

  lemma {:induction false} RunAppend(s: State, limits: Limits, a: seq<Mutation>, b: seq<Mutation>)
    ensures Run(s, limits, a + b) == Run(Run(s, limits, a), limits, b)
    decreases |b|
  {
    hide Apply;
    if b == [] {
      assert a + b == a;
    } else {
      assert (a + b)[..|a + b| - 1] == a + b[..|b| - 1];
      RunAppend(s, limits, a, b[..|b| - 1]);
    }
  }

  // ---- Well-formedness of every reachable state ----

  ghost predicate GoodDevices(devices: map<nat, DeviceRecord>, limits: Limits)
  {
    && |devices| <= limits.maxDevices
    && forall k :: k in devices ==> k != 0 && devices[k].id == k && devices[k].generation != 0
  }

  ghost predicate GoodLink(l: LinkRecord, devices: map<nat, DeviceRecord>)
  {
    l.id != 0 && l.generation != 0 && l.source != l.target && l.source in devices && l.target in devices
  }

  ghost predicate GoodLinks(links: map<nat, LinkRecord>, devices: map<nat, DeviceRecord>, limits: Limits)
  {
    && |links| <= limits.maxLinks
    && forall k :: k in links ==> links[k].id == k && GoodLink(links[k], devices)
  }

  ghost predicate Good(s: State, limits: Limits)
  {
    && s.topologyGeneration >= 1
    && GoodDevices(s.devices, limits)
    && GoodLinks(s.links, s.devices, limits)
    && (forall k :: k in s.links ==> s.links[k].topologyGeneration == s.topologyGeneration)
    && |s.history| <= limits.maxMeasurementHistory
  }

  lemma SameKeysSameSize<V, W>(m: map<nat, V>, n: map<nat, W>)
    requires m.Keys == n.Keys
    ensures |m| == |n|
  {
    assert |m| == |m.Keys| && |n| == |n.Keys|;
  }

  lemma FewerKeysSmaller<V, W>(m: map<nat, V>, n: map<nat, W>)
    requires m.Keys <= n.Keys
    ensures |m| <= |n|
  {
    assert |m| == |m.Keys| && |n| == |n.Keys|;
    SubsetSmaller(m.Keys, n.Keys);
  }

  lemma SubsetSmaller(a: set<nat>, b: set<nat>)
    requires a <= b
    ensures |a| <= |b|
  {
    assert |b - a| == |b| - |a|;
  }

  lemma StampingKeepsGood(s: State, limits: Limits)
    requires GoodDevices(s.devices, limits) && GoodLinks(s.links, s.devices, limits)
    requires |s.history| <= limits.maxMeasurementHistory
    ensures Good(Advanced(s), limits)
  {
    SameKeysSameSize(s.links, Advanced(s).links);
  }

  lemma {:induction false} LoadedDevicesGood(ds: seq<DeviceRecord>, limits: Limits, acc: map<nat, DeviceRecord>)
    requires GoodDevices(acc, limits) && LoadDevices(ds, limits, acc).Ok?
    ensures GoodDevices(LoadDevices(ds, limits, acc).value, limits)
    decreases ds
  {
    if ds != [] {
      LoadedDevicesGood(ds[1..], limits, if ds[0].id in acc then acc else acc[ds[0].id := ds[0]]);
    }
  }

  lemma {:induction false} LoadedLinksGood(ls: seq<LinkRecord>, limits: Limits, devices: map<nat, DeviceRecord>,
                                           acc: map<nat, LinkRecord>)
    requires GoodLinks(acc, devices, limits) && LoadLinks(ls, limits, devices, acc).Ok?
    ensures GoodLinks(LoadLinks(ls, limits, devices, acc).value, devices, limits)
    decreases ls
  {
    if ls != [] {
      LoadedLinksGood(ls[1..], limits, devices,
                      if ls[0].id in acc then acc else acc[ls[0].id := MarkedLink(ls[0], RESTORE_NOTE)]);
    }
  }

  lemma RestoreKeepsGood(s: State, limits: Limits, d: DurableState)
    requires Good(s, limits)
    ensures Good(AfterRestore(s, limits, d).0, limits)
  {
    hide LoadDevices, LoadLinks, RestoredDevice;
    if AfterRestore(s, limits, d).1 == Done {
      LoadedDevicesGood(d.devices, limits, map[]);
      var devices := LoadDevices(d.devices, limits, map[]).value;
      LoadedLinksGood(d.links, limits, devices, map[]);
      var links := LoadLinks(d.links, limits, devices, map[]).value;
      var restored := RestoredDevices(devices);
      SameKeysSameSize(devices, restored);
      assert GoodDevices(restored, limits) by {
        RestoringKeepsIdentity(devices);
      }
      StampingKeepsGood(State(Max(d.topologyGeneration, s.topologyGeneration), restored, links, []), limits);
    }
  }

  lemma RestoringKeepsIdentity(devices: map<nat, DeviceRecord>)
    ensures forall k :: k in devices ==> RestoredDevices(devices)[k].id == devices[k].id
    ensures forall k :: k in devices ==> RestoredDevices(devices)[k].generation == devices[k].generation
  {
  }

  lemma MarkedDevicesGood(devices: map<nat, DeviceRecord>, limits: Limits)
    requires GoodDevices(devices, limits)
    ensures GoodDevices(MarkedDevices(devices), limits) && MarkedDevices(devices).Keys == devices.Keys
  {
    SameKeysSameSize(devices, MarkedDevices(devices));
  }

  lemma MarkedLinksGood(links: map<nat, LinkRecord>, devices: map<nat, DeviceRecord>, limits: Limits)
    requires GoodLinks(links, devices, limits)
    ensures GoodLinks(MarkedLinks(links), devices, limits)
  {
    SameKeysSameSize(links, MarkedLinks(links));
  }

  /** Links stay good when no device they use disappears. */
  lemma DevicesKept(links: map<nat, LinkRecord>, devices: map<nat, DeviceRecord>, more: map<nat, DeviceRecord>,
                    limits: Limits)
    requires GoodLinks(links, devices, limits) && devices.Keys <= more.Keys
    ensures GoodLinks(links, more, limits)
  {
  }

  lemma MarkKeepsGood(s: State, limits: Limits)
    requires Good(s, limits)
    ensures Good(AfterMark(s), limits)
  {
    hide Advanced, GoodDevices, GoodLinks, MarkedDevices, MarkedLinks;
    MarkedDevicesGood(s.devices, limits);
    MarkedLinksGood(s.links, s.devices, limits);
    DevicesKept(MarkedLinks(s.links), s.devices, MarkedDevices(s.devices), limits);
    StampingKeepsGood(State(s.topologyGeneration, MarkedDevices(s.devices), MarkedLinks(s.links),
                            StaleHistory(s.history)), limits);
  }

  lemma RemovalKeepsGood(s: State, limits: Limits, device: nat)
    requires Good(s, limits)
    ensures Good(AfterRemoveDevice(s, device).0, limits)
  {
    var devices, links := s.devices - {device}, Detached(s.links, device);
    FewerKeysSmaller(devices, s.devices);
    FewerKeysSmaller(links, s.links);
    if device in s.devices {
      StampingKeepsGood(s.(devices := devices, links := links), limits);
    }
  }

  lemma DeviceStored(devices: map<nat, DeviceRecord>, d: DeviceRecord, limits: Limits)
    requires GoodDevices(devices, limits) && d.id != 0 && d.generation != 0
    requires d.id in devices || |devices| < limits.maxDevices
    ensures GoodDevices(devices[d.id := d], limits)
  {
    if d.id in devices {
      SameKeysSameSize(devices[d.id := d], devices);
    }
  }

  lemma LinkStored(links: map<nat, LinkRecord>, devices: map<nat, DeviceRecord>, l: LinkRecord, limits: Limits)
    requires GoodLinks(links, devices, limits) && GoodLink(l, devices)
    requires l.id in links || |links| < limits.maxLinks
    ensures GoodLinks(links[l.id := l], devices, limits)
  {
    if l.id in links {
      SameKeysSameSize(links[l.id := l], links);
    }
  }

  lemma StoringDeviceKeepsGood(s: State, limits: Limits, d: DeviceRecord)
    requires Good(s, limits) && d.id != 0 && d.generation != 0
    requires d.id in s.devices || |s.devices| < limits.maxDevices
    ensures Good(Advanced(s.(devices := s.devices[d.id := d])), limits)
  {
    hide Advanced, GoodDevices, GoodLinks;
    DeviceStored(s.devices, d, limits);
    DevicesKept(s.links, s.devices, s.devices[d.id := d], limits);
    StampingKeepsGood(s.(devices := s.devices[d.id := d]), limits);
  }

  lemma StoringLinkKeepsGood(s: State, limits: Limits, l: LinkRecord)
    requires Good(s, limits) && GoodLink(l, s.devices)
    requires l.id in s.links || |s.links| < limits.maxLinks
    ensures Good(Advanced(s.(links := s.links[l.id := l])), limits)
  {
    hide Advanced, GoodDevices, GoodLinks;
    LinkStored(s.links, s.devices, l, limits);
    StampingKeepsGood(s.(links := s.links[l.id := l]), limits);
  }

  lemma UpsertDeviceKeepsGood(s: State, limits: Limits, d: DeviceRecord)
    requires Good(s, limits)
    ensures Good(AfterUpsertDevice(s, limits, d).0, limits)
  {
    hide Advanced, Good;
    if AfterUpsertDevice(s, limits, d).0 != s {
      StoringDeviceKeepsGood(s, limits, d);
    }
  }

  lemma UpsertLinkKeepsGood(s: State, limits: Limits, l: LinkRecord)
    requires Good(s, limits)
    ensures Good(AfterUpsertLink(s, limits, l).0, limits)
  {
    hide Advanced, Good, ParallelLinks;
    if AfterUpsertLink(s, limits, l).0 != s {
      StoringLinkKeepsGood(s, limits, l);
    }
  }

  lemma RemoveLinkKeepsGood(s: State, limits: Limits, id: nat)
    requires Good(s, limits)
    ensures Good(AfterRemoveLink(s, id).0, limits)
  {
    hide Advanced;
    if id in s.links {
      FewerKeysSmaller(s.links - {id}, s.links);
      StampingKeepsGood(s.(links := s.links - {id}), limits);
    }
  }

  lemma UpdateLinkKeepsGood(s: State, limits: Limits, id: nat, state: LinkState, evidence: Evidence, degraded: bool,
                            note: Text, now: Timestamp)
    requires Good(s, limits)
    ensures Good(AfterUpdateLinkState(s, id, state, evidence, degraded, note, now).0, limits)
  {
    hide Advanced;
    if id in s.links {
      StoringLinkKeepsGood(s, limits, LinkWithState(s.links[id], state, evidence, degraded, note, now));
    }
  }

  lemma UpdateHealthKeepsGood(s: State, limits: Limits, id: nat, health: DeviceHealth, evidence: Evidence)
    requires Good(s, limits)
    ensures Good(AfterUpdateDeviceHealth(s, id, health, evidence).0, limits)
  {
    hide Advanced;
    if id in s.devices {
      StoringDeviceKeepsGood(s, limits, DeviceWithHealth(s.devices[id], health, evidence));
    }
  }

  /** Every mutation, failed or not, keeps the registry well formed. */
  lemma MutationKeepsGood(s: State, limits: Limits, op: Mutation)
    requires Good(s, limits)
    ensures Good(Apply(s, limits, op), limits)
  {
    hide Advanced, Good, AfterUpsertDevice, AfterRemoveDevice, AfterUpsertLink, AfterRemoveLink, AfterUpdateLinkState,
         AfterUpdateDeviceHealth, AfterPublishMeasurement, AfterMark, AfterRestore;
    match op
    case UpsertDevice(d) => UpsertDeviceKeepsGood(s, limits, d);
    case RemoveDevice(id) => RemovalKeepsGood(s, limits, id);
    case UpsertLink(l) => UpsertLinkKeepsGood(s, limits, l);
    case RemoveLink(id) => RemoveLinkKeepsGood(s, limits, id);
    case UpdateLinkState(id, state, evidence, degraded, note, now) =>
      UpdateLinkKeepsGood(s, limits, id, state, evidence, degraded, note, now);
    case UpdateDeviceHealth(id, health, evidence) => UpdateHealthKeepsGood(s, limits, id, health, evidence);
    case AdvanceTopology => GoodAdvances(s, limits);
    case PublishMeasurement(m, freshId) => PublishingKeepsGood(s, limits, m, freshId);
    case MarkRevalidation => MarkKeepsGood(s, limits);
    case Restore(d) => RestoreKeepsGood(s, limits, d);
  }

  lemma GoodAdvances(s: State, limits: Limits)
    requires Good(s, limits)
    ensures Good(Advanced(s), limits)
  {
    StampingKeepsGood(s, limits);
  }

  lemma PublishingKeepsGood(s: State, limits: Limits, m: MeasurementRecord, freshId: nat)
    requires Good(s, limits)
    ensures Good(AfterPublishMeasurement(s, limits, m, freshId), limits)
  {
  }

  lemma {:induction false} ReachableIsGood(limits: Limits, ops: seq<Mutation>)
    ensures Good(Run(INITIAL, limits, ops), limits)
    decreases |ops|
  {
    if ops != [] {
      ReachableIsGood(limits, ops[..|ops| - 1]);
      MutationKeepsGood(Run(INITIAL, limits, ops[..|ops| - 1]), limits, ops[|ops| - 1]);
    }
  }

  // ---- Parallel links ----

  ghost predicate WithinParallelBound(links: map<nat, LinkRecord>, limits: Limits)
  {
    forall a, b :: |ParallelLinks(links, a, b)| <= limits.maxParallelLinks
  }

  /** Every link of `links` joins the same devices in `more`. */
  ghost predicate EndsKept(links: map<nat, LinkRecord>, more: map<nat, LinkRecord>)
  {
    forall k :: k in links ==> k in more && links[k].source == more[k].source && links[k].target == more[k].target
  }

  lemma StampedEndsKept(links: map<nat, LinkRecord>, g: nat, more: map<nat, LinkRecord>)
    requires EndsKept(links, more)
    ensures EndsKept(Stamped(links, g), more)
  {
  }

  lemma FewerParallel(links: map<nat, LinkRecord>, more: map<nat, LinkRecord>, limits: Limits)
    requires WithinParallelBound(more, limits)
    requires EndsKept(links, more)
    ensures WithinParallelBound(links, limits)
  {
    forall a, b
      ensures |ParallelLinks(links, a, b)| <= limits.maxParallelLinks
    {
      SubsetSmaller(ParallelLinks(links, a, b), ParallelLinks(more, a, b));
    }
  }

  lemma OneMoreParallel(links: map<nat, LinkRecord>, l: LinkRecord, limits: Limits)
    requires WithinParallelBound(links, limits)
    requires |ParallelLinks(links, l.source, l.target)| < limits.maxParallelLinks
    ensures WithinParallelBound(links[l.id := l], limits)
  {
    var after := links[l.id := l];
    forall a, b
      ensures |ParallelLinks(after, a, b)| <= limits.maxParallelLinks
    {
      var before := ParallelLinks(links, a, b);
      if Joins(l, a, b) {
        assert before == ParallelLinks(links, l.source, l.target);
        SubsetSmaller(ParallelLinks(after, a, b), before + {l.id});
      } else {
        SubsetSmaller(ParallelLinks(after, a, b), before);
      }
    }
  }

  lemma MutationKeepsParallelBound(s: State, limits: Limits, op: Mutation)
    requires WithinParallelBound(s.links, limits) && !op.Restore?
    ensures WithinParallelBound(Apply(s, limits, op).links, limits)
  {
    hide WithinParallelBound, ParallelLinks, Stamped;
    var t, g := Apply(s, limits, op), s.topologyGeneration + 1;
    if op.UpsertLink? && t != s {
      var links := s.links[op.link.id := op.link];
      OneMoreParallel(s.links, op.link, limits);
      StampedEndsKept(links, g, links);
      FewerParallel(t.links, links, limits);
    } else if t.links != s.links {
      var links := match op
        case RemoveDevice(id) => Detached(s.links, id)
        case RemoveLink(id) => s.links - {id}
        case UpdateLinkState(id, state, evidence, degraded, note, now) =>
          s.links[id := LinkWithState(s.links[id], state, evidence, degraded, note, now)]
        case MarkRevalidation => MarkedLinks(s.links)
        case _ => s.links;
      StampedEndsKept(links, g, s.links);
      FewerParallel(t.links, s.links, limits);
    }
  }

  /** Along runs without a restore no pair of devices ever has more links than the bound, in either direction. */
  lemma {:induction false} ReachableWithinParallelBound(limits: Limits, ops: seq<Mutation>)
    requires forall i :: 0 <= i < |ops| ==> !ops[i].Restore?
    ensures WithinParallelBound(Run(INITIAL, limits, ops).links, limits)
    decreases |ops|
  {
    if ops != [] {
      ReachableWithinParallelBound(limits, ops[..|ops| - 1]);
      MutationKeepsParallelBound(Run(INITIAL, limits, ops[..|ops| - 1]), limits, ops[|ops| - 1]);
    } else {
      forall a, b
        ensures ParallelLinks(INITIAL.links, a, b) == {}
      {
      }
    }
  }

  // ---- The fence: an unchanged topology generation means an unchanged topology ----

  lemma MutationFenced(s: State, limits: Limits, op: Mutation)
    ensures var t := Apply(s, limits, op);
            t.topologyGeneration >= s.topologyGeneration &&
            (t.topologyGeneration == s.topologyGeneration ==> t.devices == s.devices && t.links == s.links)
  {
    hide Stamped, LoadDevices, LoadLinks;
  }

  lemma {:induction false} RunFenced(s: State, limits: Limits, ops: seq<Mutation>)
    ensures var t := Run(s, limits, ops);
            t.topologyGeneration >= s.topologyGeneration &&
            (t.topologyGeneration == s.topologyGeneration ==> t.devices == s.devices && t.links == s.links)
    decreases |ops|
  {
    hide Apply;
    if ops != [] {
      RunFenced(s, limits, ops[..|ops| - 1]);
      MutationFenced(Run(s, limits, ops[..|ops| - 1]), limits, ops[|ops| - 1]);
    }
  }
}

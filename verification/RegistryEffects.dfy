/** What each mutation does, record by record and field by field, and what it leaves alone. */
module RegistryEffects {
  import opened Bytes
  import opened Types
  import opened Registry
  import opened RegistryTheorems
  import opened RestoreTheorems

  /** Every other link keeps its record up to the stamp, and there are no further ones. */
  ghost predicate OtherLinksKept(s: State, t: State, changed: set<nat>)
  {
    && (forall k :: k in s.links && k !in changed ==>
          k in t.links && t.links[k] == s.links[k].(topologyGeneration := t.topologyGeneration))
    && forall k :: k in t.links && k !in changed ==> k in s.links
  }

  ghost predicate OtherDevicesKept(s: State, t: State, changed: set<nat>)
  {
    && (forall k :: k in s.devices && k !in changed ==> k in t.devices && t.devices[k] == s.devices[k])
    && forall k :: k in t.devices && k !in changed ==> k in s.devices
  }

  /** The next generation, everything else as it was except for these devices and links. */
  ghost predicate Changes(s: State, t: State, devices: set<nat>, links: set<nat>)
  {
    && t.topologyGeneration == s.topologyGeneration + 1 && t.history == s.history
    && OtherDevicesKept(s, t, devices) && OtherLinksKept(s, t, links)
  }

  lemma DeviceUpsert(s: State, limits: Limits, d: DeviceRecord)
    ensures var (t, r) := AfterUpsertDevice(s, limits, d);
            var valid, known := d.id != 0 && d.generation != 0, d.id in s.devices;
            (r == Failed(InvalidArgument) <==> !valid) &&
            (r == Failed(ResourceLimit) <==> valid && !known && |s.devices| >= limits.maxDevices) &&
            (r == Failed(StaleGeneration) <==>
              valid && known && (d.generation < s.devices[d.id].generation ||
                                 (d.generation == s.devices[d.id].generation && d != s.devices[d.id]))) &&
            (r.Failed? ==> r.code in {InvalidArgument, ResourceLimit, StaleGeneration} && t == s) &&
            (r == Done ==> d.id in t.devices && t.devices[d.id] == d &&
                           if known && s.devices[d.id] == d then t == s else Changes(s, t, {d.id}, {}))
  {
  }

  /** The links that join two devices, in whichever direction. */
  function Between(links: map<nat, LinkRecord>, a: nat, b: nat): set<nat>
  {
    set k | k in links && {links[k].source, links[k].target} == {a, b}
  }

  lemma BetweenIsParallel(links: map<nat, LinkRecord>, a: nat, b: nat)
    ensures Between(links, a, b) == ParallelLinks(links, a, b)
  {
    forall k | k in links
      ensures {links[k].source, links[k].target} == {a, b} <==> Joins(links[k], a, b)
    {
      if {links[k].source, links[k].target} == {a, b} {
        assert links[k].source in {a, b} && links[k].target in {a, b};
        assert a in {links[k].source, links[k].target} && b in {links[k].source, links[k].target};
      }
    }
  }

  lemma LinkUpsert(s: State, limits: Limits, l: LinkRecord)
    ensures var (t, r) := AfterUpsertLink(s, limits, l);
            var valid, joins := l.id != 0 && l.generation != 0,
                                l.source != l.target && l.source in s.devices && l.target in s.devices;
            var full := |s.links| >= limits.maxLinks || |Between(s.links, l.source,
                                                                 l.target)| >= limits.maxParallelLinks;
            (r == Failed(InvalidArgument) <==> !valid) &&
            (r == Failed(InvalidTopology) <==> valid && !joins) &&
            (r == Failed(ResourceLimit) <==> valid && joins && full) &&
            (r == Failed(StaleGeneration) <==>
              valid && joins && !full && l.id in s.links &&
              (l.generation < s.links[l.id].generation ||
               (l.generation == s.links[l.id].generation && l != s.links[l.id]))) &&
            (r.Failed? ==>
              r.code in {InvalidArgument, InvalidTopology, ResourceLimit, StaleGeneration} && t == s) &&
            (r == Done ==> l.id in t.links && if l.id in s.links && s.links[l.id] == l then t == s
                                              else t.links[l.id] == l.(topologyGeneration := t.topologyGeneration) &&
                                                   Changes(s, t, {}, {l.id}))
  {
    BetweenIsParallel(s.links, l.source, l.target);
    hide ParallelLinks, Between;
  }

  lemma LinkStateUpdate(s: State, id: nat, state: LinkState, evidence: Evidence, degraded: bool, note: Text,
                        now: Timestamp)
    ensures var (t, r) := AfterUpdateLinkState(s, id, state, evidence, degraded, note, now);
            if id !in s.links then r == Failed(NotFound) && t == s
            else
              var l := s.links[id];
              r == Done && Changes(s, t, {}, {id}) && id in t.links &&
              t.links[id] == LinkRecord(l.id, l.source, l.target, l.directed, l.physicalIdentifier, state, l.technology,
                                        l.capability, l.generation + 1, evidence, now, l.measurementSupported, degraded,
                                        note, t.topologyGeneration)
  {
  }

  lemma DeviceHealthUpdate(s: State, id: nat, health: DeviceHealth, evidence: Evidence)
    ensures var (t, r) := AfterUpdateDeviceHealth(s, id, health, evidence);
            if id !in s.devices then r == Failed(NotFound) && t == s
            else
              var d := s.devices[id];
              r == Done && Changes(s, t, {id}, {}) && id in t.devices &&
              t.devices[id] == DeviceRecord(d.id, d.logicalName, d.kind, d.backend, d.backendInstance, d.pciIdentity,
                                            d.cudaOrdinal, d.vendor, d.architecture, d.deviceGeneration, d.capability,
                                            health, evidence, d.generation + 1, d.ownerWorker, d.ownerBoot)
  {
  }

  lemma DeviceRemoval(s: State, id: nat)
    ensures var (t, r) := AfterRemoveDevice(s, id);
            if id !in s.devices then r == Failed(NotFound) && t == s
            else
              r == Done && id !in t.devices &&
              Changes(s, t, {id}, set k | k in s.links && (s.links[k].source == id || s.links[k].target == id)) &&
              forall k :: k in t.links ==> t.links[k].source != id && t.links[k].target != id
  {
  }

  lemma LinkRemoval(s: State, id: nat)
    ensures var (t, r) := AfterRemoveLink(s, id);
            if id !in s.links then r == Failed(NotFound) && t == s
            else r == Done && id !in t.links && Changes(s, t, {}, {id})
  {
  }

  lemma TopologyAdvance(s: State)
    ensures Changes(s, Advanced(s), {}, {})
  {
  }

  /** The history gains the measurement as its last entry, fresh and under the given id if it had none, and loses its
    * first when it is full; nothing else changes. */
  lemma MeasurementPublication(s: State, limits: Limits, m: MeasurementRecord, freshId: nat)
    requires |s.history| <= limits.maxMeasurementHistory
    ensures var t := AfterPublishMeasurement(s, limits, m, freshId);
            var x := MeasurementRecord(if m.id == 0 then freshId else m.id, m.source, m.target, m.bandwidth, m.latency,
                                       m.contended, m.evidence, m.measuredAt, m.valid, false, false, m.ownerWorker,
                                       m.ownerBoot);
            t.history == (if |s.history| < limits.maxMeasurementHistory then s.history + [x]
                          else (s.history + [x])[1..]) &&
            t == s.(history := t.history)
  {
  }

  /** A mark keeps every record but for the fields that say how far it can be trusted. */
  lemma Mark(s: State)
    ensures var t := AfterMark(s);
            t.topologyGeneration == s.topologyGeneration + 1 &&
            t.devices.Keys == s.devices.Keys && t.links.Keys == s.links.Keys && |t.history| == |s.history| &&
            (forall k :: k in s.devices ==>
              t.devices[k] == s.devices[k].(health := if s.devices[k].ownerWorker.Some? then
                                                        DeviceHealth.RevalidationRequired else s.devices[k].health)) &&
            (forall k :: k in s.links ==>
              t.links[k] == s.links[k].(state := LinkState.RevalidationRequired, degraded := false,
                                        degradationNote := MARK_NOTE, topologyGeneration := t.topologyGeneration)) &&
            forall i :: 0 <= i < |s.history| ==>
              t.history[i] == s.history[i].(stale := true, revalidationRequired := true)
  {
  }

  // ---- Restore ----

  ghost predicate FirstAt<V>(s: seq<V>, id: V -> nat, k: nat, i: nat)
  {
    i < |s| && id(s[i]) == k && forall j :: 0 <= j < i ==> id(s[j]) != k
  }

  /** The map of first records, by position. */
  lemma {:induction false} FirstsByPosition<V>(s: seq<V>, id: V -> nat, acc: map<nat, V>, k: nat)
    ensures k in Firsts(s, id, acc) <==> k in acc || exists i: nat :: FirstAt(s, id, k, i)
    ensures k in acc ==> Firsts(s, id, acc)[k] == acc[k]
    ensures forall i: nat :: k !in acc && FirstAt(s, id, k, i) ==> Firsts(s, id, acc)[k] == s[i]
    decreases |s|
  {
    if s != [] {
      var more := if id(s[0]) in acc then acc else acc[id(s[0]) := s[0]];
      FirstsByPosition(s[1..], id, more, k);
      if id(s[0]) == k {
        assert FirstAt(s, id, k, 0);
        assert forall i: nat :: FirstAt(s, id, k, i) ==> i == 0;
      } else {
        assert forall i: nat :: FirstAt(s[1..], id, k, i) ==> FirstAt(s, id, k, i + 1);
        forall i: nat | FirstAt(s, id, k, i)
          ensures i > 0 && FirstAt(s[1..], id, k, i - 1)
        {
          assert forall j :: 0 <= j < i - 1 ==> s[1..][j] == s[j + 1];
        }
      }
    }
  }

  /** After a successful restore: for each id its first record in the durable state, with the health of an owned device
    * and the state, degradation, note and stamp of a link replaced, and nothing else. */
  lemma RestoredRecords(s: State, limits: Limits, d: DurableState)
    requires AfterRestore(s, limits, d).1 == Done
    ensures var t := AfterRestore(s, limits, d).0;
            t.topologyGeneration == Max(d.topologyGeneration, s.topologyGeneration) + 1 && t.history == []
    ensures var t := AfterRestore(s, limits, d).0;
            (forall k :: k in t.devices <==> exists i: nat :: FirstAt(d.devices, DeviceId, k, i)) &&
            (forall k :: k in t.links <==> exists i: nat :: FirstAt(d.links, LinkId, k, i))
    ensures var t := AfterRestore(s, limits, d).0;
            forall k, i: nat :: FirstAt(d.devices, DeviceId, k, i) && k in t.devices ==>
              var x := d.devices[i];
              t.devices[k] == x.(health := if x.ownerWorker.Some? || x.ownerBoot.Some? then
                                             DeviceHealth.RevalidationRequired else x.health)
    ensures var t := AfterRestore(s, limits, d).0;
            forall k, i: nat :: FirstAt(d.links, LinkId, k, i) && k in t.links ==>
              t.links[k] == d.links[i].(state := LinkState.RevalidationRequired, degraded := false,
                                        degradationNote := RESTORE_NOTE, topologyGeneration := t.topologyGeneration)
  {
    hide AfterRestore, Firsts;
    RestoreTakesFirsts(s, limits, d);
    forall k
      ensures k in Firsts(d.devices, DeviceId, map[]) <==> exists i: nat :: FirstAt(d.devices, DeviceId, k, i)
      ensures forall i: nat :: FirstAt(d.devices, DeviceId, k, i) ==>
                Firsts(d.devices, DeviceId, map[])[k] == d.devices[i]
    {
      FirstsByPosition(d.devices, DeviceId, map[], k);
    }
    forall k
      ensures k in Firsts(d.links, LinkId, map[]) <==> exists i: nat :: FirstAt(d.links, LinkId, k, i)
      ensures forall i: nat :: FirstAt(d.links, LinkId, k, i) ==> Firsts(d.links, LinkId, map[])[k] == d.links[i]
    {
      FirstsByPosition(d.links, LinkId, map[], k);
    }
  }

  ghost function IdsOf<V>(s: seq<V>, id: V -> nat): set<nat>
  {
    set i | 0 <= i < |s| :: id(s[i])
  }

  lemma IdsOfRest<V>(s: seq<V>, id: V -> nat, i: nat)
    requires i < |s|
    ensures IdsOf(s[..i + 1], id) == {id(s[0])} + IdsOf(s[1..][..i], id)
  {
    var front, rest := s[..i + 1], s[1..][..i];
    assert front == [s[0]] + rest;
    forall k
      ensures k in IdsOf(front, id) <==> k in {id(s[0])} + IdsOf(rest, id)
    {
      if k in IdsOf(rest, id) {
        var j :| 0 <= j < |rest| && id(rest[j]) == k;
        assert id(front[j + 1]) == k;
      }
      if k in IdsOf(front, id) {
        var j :| 0 <= j < |front| && id(front[j]) == k;
        assert j > 0 ==> id(rest[j - 1]) == k;
      }
      assert id(front[0]) == id(s[0]);
    }
  }

  /** There is room for record i beside the distinct ids before it, and its id and generation are valid. */
  ghost predicate FineDevice(ds: seq<DeviceRecord>, limits: Limits, ids: set<nat>, i: nat)
  {
    i < |ds| && |ids + IdsOf(ds[..i], DeviceId)| < limits.maxDevices && ds[i].id != 0 && ds[i].generation != 0
  }

  ghost predicate FineLink(ls: seq<LinkRecord>, limits: Limits, devices: set<nat>, ids: set<nat>, i: nat)
  {
    && i < |ls| && |ids + IdsOf(ls[..i], LinkId)| < limits.maxLinks && ls[i].id != 0 && ls[i].generation != 0
    && ls[i].source != ls[i].target && ls[i].source in devices && ls[i].target in devices
  }

  lemma IdsSoFar<V>(s: seq<V>, id: V -> nat, ids: set<nat>)
    ensures ids + IdsOf(s[..0], id) == ids
    ensures forall j: nat :: j < |s| ==>
              ids + IdsOf(s[..j + 1], id) == ids + {id(s[0])} + IdsOf(s[1..][..j], id)
  {
    hide IdsOf;
    assert IdsOf(s[..0], id) == {} by {
      NoIds(s[..0], id);
    }
    forall j: nat | j < |s|
      ensures ids + IdsOf(s[..j + 1], id) == ids + {id(s[0])} + IdsOf(s[1..][..j], id)
    {
      IdsOfRest(s, id, j);
    }
  }

  lemma NoIds<V>(s: seq<V>, id: V -> nat)
    requires s == []
    ensures IdsOf(s, id) == {}
  {
  }

  lemma LaterDevice(ds: seq<DeviceRecord>, limits: Limits, ids: set<nat>, j: nat)
    requires j + 1 < |ds|
    ensures FineDevice(ds[1..], limits, ids + {ds[0].id}, j) <==> FineDevice(ds, limits, ids, j + 1)
    ensures |ids + {ds[0].id} + IdsOf(ds[1..][..j], DeviceId)| == |ids + IdsOf(ds[..j + 1], DeviceId)|
  {
    hide IdsOf;
    IdsSoFar(ds, DeviceId, ids);
  }

  ghost predicate DevicesFine(ds: seq<DeviceRecord>, limits: Limits, ids: set<nat>, n: nat)
  {
    forall j: nat :: j < n ==> FineDevice(ds, limits, ids, j)
  }

  lemma MoreDevicesFine(ds: seq<DeviceRecord>, limits: Limits, ids: set<nat>, n: nat)
    requires FineDevice(ds, limits, ids, 0) && DevicesFine(ds[1..], limits, ids + {ds[0].id}, n)
    requires n < |ds|
    ensures DevicesFine(ds, limits, ids, n + 1)
  {
    hide FineDevice, IdsOf;
    forall j: nat | 0 < j < n + 1
      ensures FineDevice(ds, limits, ids, j)
    {
      LaterDevice(ds, limits, ids, j - 1);
      assert FineDevice(ds[1..], limits, ids + {ds[0].id}, j - 1);
    }
  }

  lemma FirstDeviceLoads(ds: seq<DeviceRecord>, limits: Limits, acc: map<nat, DeviceRecord>)
    returns (more: map<nat, DeviceRecord>)
    requires ds != []
    ensures more.Keys == acc.Keys + {ds[0].id}
    ensures |acc.Keys + IdsOf(ds[..0], DeviceId)| == |acc.Keys|
    ensures LoadDevices(ds, limits, acc) ==
              if FineDevice(ds, limits, acc.Keys, 0) then LoadDevices(ds[1..], limits, more)
              else Err(if |acc.Keys| >= limits.maxDevices then ResourceLimit else IntegrityFailure)
  {
    hide IdsOf;
    IdsSoFar(ds, DeviceId, acc.Keys);
    assert |acc| == |acc.Keys|;
    more := if ds[0].id in acc then acc else acc[ds[0].id := ds[0]];
  }

  lemma NoDeviceLoads(ds: seq<DeviceRecord>, limits: Limits, acc: map<nat, DeviceRecord>)
    requires ds == []
    ensures LoadDevices(ds, limits, acc).Ok? && DevicesFine(ds, limits, acc.Keys, 0)
  {
  }

  lemma NoDevicesYet(ds: seq<DeviceRecord>, limits: Limits, ids: set<nat>)
    ensures DevicesFine(ds, limits, ids, 0)
  {
  }

  lemma {:induction false} DeviceLoad(ds: seq<DeviceRecord>, limits: Limits, acc: map<nat, DeviceRecord>)
    returns (i: nat)
    ensures i <= |ds| && DevicesFine(ds, limits, acc.Keys, i)
    ensures LoadDevices(ds, limits, acc).Ok? <==> i == |ds|
    ensures i < |ds| ==>
              !FineDevice(ds, limits, acc.Keys, i) &&
              LoadDevices(ds, limits, acc) == Err(
                if |acc.Keys + IdsOf(ds[..i], DeviceId)| >= limits.maxDevices then ResourceLimit else IntegrityFailure)
    decreases |ds|
  {
    hide *;
    i := 0;
    if ds == [] {
      NoDeviceLoads(ds, limits, acc);
    } else {
      var more := FirstDeviceLoads(ds, limits, acc);
      NoDevicesYet(ds, limits, acc.Keys);
      if FineDevice(ds, limits, acc.Keys, 0) {
        var k := DeviceLoad(ds[1..], limits, more);
        i := k + 1;
        if i < |ds| {
          LaterDevice(ds, limits, acc.Keys, k);
        }
        MoreDevicesFine(ds, limits, acc.Keys, k);
      }
    }
  }

  lemma LaterLink(ls: seq<LinkRecord>, limits: Limits, devices: set<nat>, ids: set<nat>, j: nat)
    requires j + 1 < |ls|
    ensures FineLink(ls[1..], limits, devices, ids + {ls[0].id}, j) <==> FineLink(ls, limits, devices, ids, j + 1)
    ensures |ids + {ls[0].id} + IdsOf(ls[1..][..j], LinkId)| == |ids + IdsOf(ls[..j + 1], LinkId)|
  {
    hide IdsOf;
    IdsSoFar(ls, LinkId, ids);
  }

  ghost predicate LinksFine(ls: seq<LinkRecord>, limits: Limits, devices: set<nat>, ids: set<nat>, n: nat)
  {
    forall j: nat :: j < n ==> FineLink(ls, limits, devices, ids, j)
  }

  lemma MoreLinksFine(ls: seq<LinkRecord>, limits: Limits, devices: set<nat>, ids: set<nat>, n: nat)
    requires FineLink(ls, limits, devices, ids, 0) && LinksFine(ls[1..], limits, devices, ids + {ls[0].id}, n)
    requires n < |ls|
    ensures LinksFine(ls, limits, devices, ids, n + 1)
  {
    hide FineLink, IdsOf;
    forall j: nat | 0 < j < n + 1
      ensures FineLink(ls, limits, devices, ids, j)
    {
      LaterLink(ls, limits, devices, ids, j - 1);
      assert FineLink(ls[1..], limits, devices, ids + {ls[0].id}, j - 1);
    }
  }

  lemma FirstLinkLoads(ls: seq<LinkRecord>, limits: Limits, devices: map<nat, DeviceRecord>, acc: map<nat, LinkRecord>)
    returns (more: map<nat, LinkRecord>)
    requires ls != []
    ensures more.Keys == acc.Keys + {ls[0].id}
    ensures |acc.Keys + IdsOf(ls[..0], LinkId)| == |acc.Keys|
    ensures LoadLinks(ls, limits, devices, acc) ==
              if FineLink(ls, limits, devices.Keys, acc.Keys, 0) then LoadLinks(ls[1..], limits, devices, more)
              else Err(if |acc.Keys| >= limits.maxLinks then ResourceLimit else IntegrityFailure)
  {
    hide IdsOf, MarkedLink;
    IdsSoFar(ls, LinkId, acc.Keys);
    assert |acc| == |acc.Keys|;
    more := if ls[0].id in acc then acc else acc[ls[0].id := MarkedLink(ls[0], RESTORE_NOTE)];
  }

  lemma NoLinkLoads(ls: seq<LinkRecord>, limits: Limits, devices: map<nat, DeviceRecord>, acc: map<nat, LinkRecord>)
    requires ls == []
    ensures LoadLinks(ls, limits, devices, acc).Ok? && LinksFine(ls, limits, devices.Keys, acc.Keys, 0)
  {
  }

  lemma NoLinksYet(ls: seq<LinkRecord>, limits: Limits, devices: set<nat>, ids: set<nat>)
    ensures LinksFine(ls, limits, devices, ids, 0)
  {
  }

  lemma {:induction false} LinkLoad(ls: seq<LinkRecord>, limits: Limits, devices: map<nat, DeviceRecord>,
                                    acc: map<nat, LinkRecord>) returns (i: nat)
    ensures i <= |ls| && LinksFine(ls, limits, devices.Keys, acc.Keys, i)
    ensures LoadLinks(ls, limits, devices, acc).Ok? <==> i == |ls|
    ensures i < |ls| ==>
              !FineLink(ls, limits, devices.Keys, acc.Keys, i) &&
              LoadLinks(ls, limits, devices, acc) == Err(
                if |acc.Keys + IdsOf(ls[..i], LinkId)| >= limits.maxLinks then ResourceLimit else IntegrityFailure)
    decreases |ls|
  {
    hide *;
    i := 0;
    if ls == [] {
      NoLinkLoads(ls, limits, devices, acc);
    } else {
      var more := FirstLinkLoads(ls, limits, devices, acc);
      NoLinksYet(ls, limits, devices.Keys, acc.Keys);
      if FineLink(ls, limits, devices.Keys, acc.Keys, 0) {
        var k := LinkLoad(ls[1..], limits, devices, more);
        i := k + 1;
        if i < |ls| {
          LaterLink(ls, limits, devices.Keys, acc.Keys, k);
        }
        MoreLinksFine(ls, limits, devices.Keys, acc.Keys, k);
      }
    }
  }

  /** A restore succeeds exactly when the format is the current one and every device record, then every link record, is
    * fine where it stands; the first that is not decides the error, and nothing changes. */
  lemma RestoreVerdict(s: State, limits: Limits, d: DurableState) returns (i: nat, k: nat)
    ensures i <= |d.devices| && k <= |d.links|
    ensures DevicesFine(d.devices, limits, {}, i) && LinksFine(d.links, limits, IdsOf(d.devices, DeviceId), {}, k)
    ensures i < |d.devices| ==> !FineDevice(d.devices, limits, {}, i)
    ensures i == |d.devices| && k < |d.links| ==> !FineLink(d.links, limits, IdsOf(d.devices, DeviceId), {}, k)
    ensures var (t, r) := AfterRestore(s, limits, d);
            (r != Done ==> t == s) &&
            r == if d.formatVersion != DURABLE_FORMAT then Failed(IntegrityFailure)
                 else if i < |d.devices| then
                   Failed(if |IdsOf(d.devices[..i], DeviceId)| >= limits.maxDevices then ResourceLimit
                          else IntegrityFailure)
                 else if k < |d.links| then
                   Failed(if |IdsOf(d.links[..k], LinkId)| >= limits.maxLinks then ResourceLimit else IntegrityFailure)
                 else Done
  {
    hide LoadDevices, LoadLinks, IdsOf;
    var none: map<nat, DeviceRecord>, nothing: map<nat, LinkRecord> := map[], map[];
    i := DeviceLoad(d.devices, limits, none);
    k := 0;
    FailedRestoreKeepsState(s, limits, d);
    assert none.Keys == {} && nothing.Keys == {};
    assert forall j: nat :: j <= |d.devices| ==>
      none.Keys + IdsOf(d.devices[..j], DeviceId) == IdsOf(d.devices[..j], DeviceId);
    assert forall j: nat :: j <= |d.links| ==>
      nothing.Keys + IdsOf(d.links[..j], LinkId) == IdsOf(d.links[..j], LinkId);
    if i == |d.devices| {
      var devices := LoadDevices(d.devices, limits, none).value;
      LoadedIds(d.devices, limits, none);
      k := LinkLoad(d.links, limits, devices, nothing);
    }
  }

  lemma LoadedIds(ds: seq<DeviceRecord>, limits: Limits, none: map<nat, DeviceRecord>)
    requires none == map[] && LoadDevices(ds, limits, none).Ok?
    ensures LoadDevices(ds, limits, none).value.Keys == IdsOf(ds, DeviceId)
  {
    hide LoadDevices, Firsts;
    LoadedDevicesAreFirsts(ds, limits, none);
    var m := Firsts(ds, DeviceId, none);
    forall k
      ensures k in m <==> k in IdsOf(ds, DeviceId)
    {
      FirstsByPosition(ds, DeviceId, none, k);
      if k in IdsOf(ds, DeviceId) {
        var i := EarliestAt(ds, DeviceId, k);
      }
    }
  }

  lemma {:induction false} EarliestAt<V>(s: seq<V>, id: V -> nat, k: nat) returns (i: nat)
    requires k in IdsOf(s, id)
    ensures FirstAt(s, id, k, i)
    decreases |s|
  {
    if id(s[0]) == k {
      i := 0;
    } else {
      var j :| 0 <= j < |s| && id(s[j]) == k;
      assert id(s[1..][j - 1]) == k;
      var e := EarliestAt(s[1..], id, k);
      i := e + 1;
      assert forall m :: 0 < m < i ==> s[m] == s[1..][m - 1];
    }
  }
}

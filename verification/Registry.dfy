/** The canonical registry: copy-on-write mutations fenced by one topology generation. */
module Registry {
  import opened Bytes
  import opened Types
  import opened Sorting

  datatype State = State(
    topologyGeneration: nat,
    devices: map<nat, DeviceRecord>,
    links: map<nat, LinkRecord>,
    history: seq<MeasurementRecord>)

  const INITIAL := State(1, map[], map[], [])

  const MARK_NOTE: Text := Ascii("revalidation required after authority restart")
  const RESTORE_NOTE: Text := Ascii("revalidation required after durable-state restore")

  // ---- What each mutation does, as a function of the state it finds ----

  function Stamped(links: map<nat, LinkRecord>, g: nat): map<nat, LinkRecord>
  {
    map k | k in links :: links[k].(topologyGeneration := g)
  }

  /** A topology change: the next generation, stamped on every link. */
  function Advanced(s: State): State
  {
    s.(topologyGeneration := s.topologyGeneration + 1, links := Stamped(s.links, s.topologyGeneration + 1))
  }

  function AfterUpsertDevice(s: State, limits: Limits, d: DeviceRecord): (State, Status)
  {
    if d.id == 0 || d.generation == 0 then (s, Failed(InvalidArgument))
    else if d.id !in s.devices then
      if |s.devices| >= limits.maxDevices then (s, Failed(ResourceLimit))
      else (Advanced(s.(devices := s.devices[d.id := d])), Done)
    else if d.generation < s.devices[d.id].generation then (s, Failed(StaleGeneration))
    else if d.generation == s.devices[d.id].generation then
      if d == s.devices[d.id] then (s, Done) else (s, Failed(StaleGeneration))
    else (Advanced(s.(devices := s.devices[d.id := d])), Done)
  }

  predicate Touches(l: LinkRecord, device: nat)
  {
    l.source == device || l.target == device
  }

  function Detached(links: map<nat, LinkRecord>, device: nat): map<nat, LinkRecord>
  {
    map k | k in links && !Touches(links[k], device) :: links[k]
  }

  function AfterRemoveDevice(s: State, device: nat): (State, Status)
  {
    if device !in s.devices then (s, Failed(NotFound))
    else (Advanced(s.(devices := s.devices - {device}, links := Detached(s.links, device))), Done)
  }

  predicate Joins(l: LinkRecord, a: nat, b: nat)
  {
    (l.source == a && l.target == b) || (l.source == b && l.target == a)
  }

  function ParallelLinks(links: map<nat, LinkRecord>, a: nat, b: nat): set<nat>
  {
    set k | k in links && Joins(links[k], a, b)
  }

  function AfterUpsertLink(s: State, limits: Limits, l: LinkRecord): (State, Status)
  {
    if l.id == 0 || l.generation == 0 then (s, Failed(InvalidArgument))
    else if l.source == l.target then (s, Failed(InvalidTopology))
    else if l.source !in s.devices || l.target !in s.devices then (s, Failed(InvalidTopology))
    else if |s.links| >= limits.maxLinks then (s, Failed(ResourceLimit))
    else if |ParallelLinks(s.links, l.source, l.target)| >= limits.maxParallelLinks then (s, Failed(ResourceLimit))
    else if l.id !in s.links || l.generation > s.links[l.id].generation then
      (Advanced(s.(links := s.links[l.id := l])), Done)
    else if l.generation == s.links[l.id].generation && l == s.links[l.id] then (s, Done)
    else (s, Failed(StaleGeneration))
  }

  function AfterRemoveLink(s: State, link: nat): (State, Status)
  {
    if link !in s.links then (s, Failed(NotFound))
    else (Advanced(s.(links := s.links - {link})), Done)
  }

  function LinkWithState(l: LinkRecord, state: LinkState, evidence: Evidence, degraded: bool, note: Text,
                         now: Timestamp): LinkRecord
  {
    l.(state := state, evidence := evidence, degraded := degraded, degradationNote := note,
       generation := l.generation + 1, lastObservation := now)
  }

  function AfterUpdateLinkState(s: State, link: nat, state: LinkState, evidence: Evidence, degraded: bool, note: Text,
                                now: Timestamp): (State, Status)
  {
    if link !in s.links then (s, Failed(NotFound))
    else
      var l := LinkWithState(s.links[link], state, evidence, degraded, note, now);
      (Advanced(s.(links := s.links[link := l])), Done)
  }

  function DeviceWithHealth(d: DeviceRecord, health: DeviceHealth, evidence: Evidence): DeviceRecord
  {
    d.(health := health, evidence := evidence, generation := d.generation + 1)
  }

  function AfterUpdateDeviceHealth(s: State, device: nat, health: DeviceHealth, evidence: Evidence): (State, Status)
  {
    if device !in s.devices then (s, Failed(NotFound))
    else
      var d := DeviceWithHealth(s.devices[device], health, evidence);
      (Advanced(s.(devices := s.devices[device := d])), Done)
  }

  /** Appends, dropping the oldest entry when that exceeds the bound. */
  function Push<T>(q: seq<T>, x: T, bound: nat): seq<T>
  {
    if |q| + 1 > bound then (q + [x])[1..] else q + [x]
  }

  function Published(m: MeasurementRecord, freshId: nat): MeasurementRecord
  {
    m.(id := if m.id == 0 then freshId else m.id, stale := false, revalidationRequired := false)
  }

  function AfterPublishMeasurement(s: State, limits: Limits, m: MeasurementRecord, freshId: nat): State
  {
    s.(history := Push(s.history, Published(m, freshId), limits.maxMeasurementHistory))
  }

  function StaleMeasurement(m: MeasurementRecord): MeasurementRecord
  {
    m.(stale := true, revalidationRequired := true)
  }

  function MarkedLink(l: LinkRecord, note: Text): LinkRecord
  {
    l.(state := LinkState.RevalidationRequired, degraded := false, degradationNote := note)
  }

  function MarkedDevice(d: DeviceRecord): DeviceRecord
  {
    if d.ownerWorker.Some? then d.(health := DeviceHealth.RevalidationRequired) else d
  }

  function MarkedLinks(links: map<nat, LinkRecord>): map<nat, LinkRecord>
  {
    map k | k in links :: MarkedLink(links[k], MARK_NOTE)
  }

  function MarkedDevices(devices: map<nat, DeviceRecord>): map<nat, DeviceRecord>
  {
    map k | k in devices :: MarkedDevice(devices[k])
  }

  function StaleHistory(history: seq<MeasurementRecord>): seq<MeasurementRecord>
  {
    seq(|history|, i requires 0 <= i < |history| => StaleMeasurement(history[i]))
  }

  function AfterMark(s: State): State
  {
    Advanced(State(s.topologyGeneration, MarkedDevices(s.devices), MarkedLinks(s.links), StaleHistory(s.history)))
  }

  function RestoredDevice(d: DeviceRecord): DeviceRecord
  {
    if d.ownerWorker.Some? || d.ownerBoot.Some? then d.(health := DeviceHealth.RevalidationRequired) else d
  }

  function RestoredDevices(devices: map<nat, DeviceRecord>): map<nat, DeviceRecord>
  {
    map k | k in devices :: RestoredDevice(devices[k])
  }

  function RestoredLinks(m: map<nat, LinkRecord>): map<nat, LinkRecord>
  {
    map k | k in m :: MarkedLink(m[k], RESTORE_NOTE)
  }

  /** Devices are taken in order; a repeated id keeps the first record. */
  function LoadDevices(ds: seq<DeviceRecord>, limits: Limits, acc: map<nat, DeviceRecord>)
    : Result<map<nat, DeviceRecord>>
    decreases ds
  {
    if ds == [] then Ok(acc)
    else if |acc| >= limits.maxDevices then Err(ResourceLimit)
    else if ds[0].id == 0 || ds[0].generation == 0 then Err(IntegrityFailure)
    else LoadDevices(ds[1..], limits, if ds[0].id in acc then acc else acc[ds[0].id := ds[0]])
  }

  function LoadLinks(ls: seq<LinkRecord>, limits: Limits, devices: map<nat, DeviceRecord>, acc: map<nat, LinkRecord>)
    : Result<map<nat, LinkRecord>>
    decreases ls
  {
    if ls == [] then Ok(acc)
    else if |acc| >= limits.maxLinks then Err(ResourceLimit)
    else if ls[0].id == 0 || ls[0].generation == 0 || ls[0].source == ls[0].target then Err(IntegrityFailure)
    else if ls[0].source !in devices || ls[0].target !in devices then Err(IntegrityFailure)
    else LoadLinks(ls[1..], limits, devices,
                   if ls[0].id in acc then acc else acc[ls[0].id := MarkedLink(ls[0], RESTORE_NOTE)])
  }

  function Max(a: nat, b: nat): nat
  {
    if a > b then a else b
  }

  function AfterRestore(s: State, limits: Limits, d: DurableState): (State, Status)
  {
    if d.formatVersion != DURABLE_FORMAT then (s, Failed(IntegrityFailure))
    else
      match LoadDevices(d.devices, limits, map[])
      case Err(e) => (s, Failed(e))
      case Ok(devices) =>
        match LoadLinks(d.links, limits, devices, map[])
        case Err(e) => (s, Failed(e))
        case Ok(links) =>
          (Advanced(State(Max(d.topologyGeneration, s.topologyGeneration), RestoredDevices(devices), links, [])), Done)
  }

  // ---- Reading ----

  function DeviceId(d: DeviceRecord): nat
  {
    d.id
  }

  function LinkId(l: LinkRecord): nat
  {
    l.id
  }

  function Snapshot(s: State): Topology
  {
    Topology(s.topologyGeneration, Ordered(s.devices), Ordered(s.links))
  }

  function Captured(s: State, now: Timestamp): DurableState
  {
    DurableState(DURABLE_FORMAT, s.topologyGeneration, Ordered(s.devices), Ordered(s.links), now)
  }

  /** Every record is filed under its own id. */
  ghost predicate Filed(s: State)
  {
    && (forall k :: k in s.devices ==> s.devices[k].id == k)
    && (forall k :: k in s.links ==> s.links[k].id == k)
  }

  // ---- The registry object ----

  /** Visits the links in whatever order the hash table yields them. */
  method StampLinks(links: map<nat, LinkRecord>, g: nat) returns (r: map<nat, LinkRecord>)
    ensures r == Stamped(links, g)
  {
    r := links;
    var todo := links.Keys;
    while todo != {}
      invariant todo <= links.Keys == r.Keys
      invariant forall k :: k in links ==> r[k] == if k in todo then links[k] else links[k].(topologyGeneration := g)
      decreases todo
    {
      var k :| k in todo;
      r := r[k := r[k].(topologyGeneration := g)];
      todo := todo - {k};
    }
  }

  method DropLinksTouching(links: map<nat, LinkRecord>, device: nat) returns (r: map<nat, LinkRecord>)
    ensures r == Detached(links, device)
  {
    r := links;
    var todo := links.Keys;
    while todo != {}
      invariant todo <= r.Keys <= links.Keys
      invariant forall k :: k in links ==> (k in r <==> k in todo || !Touches(links[k], device))
      invariant forall k :: k in r ==> r[k] == links[k]
      decreases todo
    {
      var k :| k in todo;
      if r[k].source == device || r[k].target == device {
        r := r - {k};
      }
      todo := todo - {k};
    }
  }

  method CountParallel(links: map<nat, LinkRecord>, a: nat, b: nat) returns (n: nat)
    ensures n == |ParallelLinks(links, a, b)|
  {
    n := 0;
    var todo := links.Keys;
    ghost var counted := {};
    while todo != {}
      invariant todo <= links.Keys
      invariant forall k :: k in counted <==> k in links && k !in todo && Joins(links[k], a, b)
      invariant n == |counted|
      decreases todo
    {
      var k :| k in todo;
      if (links[k].source == a && links[k].target == b) || (links[k].source == b && links[k].target == a) {
        n := n + 1;
        counted := counted + {k};
      }
      todo := todo - {k};
    }
    assert forall k :: k in counted <==> k in links && Joins(links[k], a, b);
    assert counted == ParallelLinks(links, a, b);
  }

  method MarkLinks(links: map<nat, LinkRecord>) returns (r: map<nat, LinkRecord>)
    ensures r == MarkedLinks(links)
  {
    r := links;
    var todo := links.Keys;
    while todo != {}
      invariant todo <= links.Keys == r.Keys
      invariant forall k :: k in links ==> r[k] == if k in todo then links[k] else MarkedLink(links[k], MARK_NOTE)
      decreases todo
    {
      var k :| k in todo;
      r := r[k := r[k].(state := LinkState.RevalidationRequired, degraded := false, degradationNote := MARK_NOTE)];
      todo := todo - {k};
    }
  }

  /** The two revalidation passes over devices differ in whose records they touch. */
  method MarkDevices(devices: map<nat, DeviceRecord>, restoring: bool) returns (r: map<nat, DeviceRecord>)
    ensures r == if restoring then RestoredDevices(devices) else MarkedDevices(devices)
  {
    r := devices;
    var todo := devices.Keys;
    while todo != {}
      invariant todo <= devices.Keys == r.Keys
      invariant forall k :: k in todo ==> r[k] == devices[k]
      invariant forall k :: k in devices && k !in todo ==>
        r[k] == (if restoring then RestoredDevice(devices[k]) else MarkedDevice(devices[k]))
      decreases todo
    {
      var k :| k in todo;
      if r[k].ownerWorker.Some? || (restoring && r[k].ownerBoot.Some?) {
        r := r[k := r[k].(health := DeviceHealth.RevalidationRequired)];
      }
      todo := todo - {k};
    }
  }

  method MakeHistoryStale(history: seq<MeasurementRecord>) returns (r: seq<MeasurementRecord>)
    ensures r == StaleHistory(history)
  {
    r := history;
    for i := 0 to |history|
      invariant |r| == |history|
      invariant forall j :: 0 <= j < |history| ==> r[j] == if j < i then StaleMeasurement(history[j]) else history[j]
    {
      r := r[i := r[i].(stale := true, revalidationRequired := true)];
    }
  }

  /** Copies the records out in hash-table order. */
  method ListValues<V>(m: map<nat, V>, ghost id: V -> nat) returns (s: seq<V>)
    requires forall k :: k in m ==> id(m[k]) == k
    ensures Lists(s, m, id)
  {
    s := [];
    var todo := m.Keys;
    while todo != {}
      invariant todo <= m.Keys && |s| + |todo| == |m|
      invariant DistinctIds(s, id)
      invariant forall i :: 0 <= i < |s| ==> id(s[i]) in m.Keys - todo && m[id(s[i])] == s[i]
      decreases todo
    {
      var k :| k in todo;
      s := s + [m[k]];
      todo := todo - {k};
    }
  }

  method LoadDeviceRecords(ds: seq<DeviceRecord>, limits: Limits) returns (r: Result<map<nat, DeviceRecord>>)
    ensures r == LoadDevices(ds, limits, map[])
  {
    var devices: map<nat, DeviceRecord> := map[];
    for i := 0 to |ds|
      invariant LoadDevices(ds[i..], limits, devices) == LoadDevices(ds, limits, map[])
    {
      var x := ds[i];
      assert ds[i..][0] == x && ds[i..][1..] == ds[i + 1..];
      if |devices| >= limits.maxDevices {
        return Err(ResourceLimit);
      }
      if x.id == 0 || x.generation == 0 {
        return Err(IntegrityFailure);
      }
      if x.id !in devices {
        devices := devices[x.id := x];
      }
    }
    r := Ok(devices);
  }

  method LoadLinkRecords(ls: seq<LinkRecord>, limits: Limits, devices: map<nat, DeviceRecord>)
    returns (r: Result<map<nat, LinkRecord>>)
    ensures r == LoadLinks(ls, limits, devices, map[])
  {
    var links: map<nat, LinkRecord> := map[];
    for i := 0 to |ls|
      invariant LoadLinks(ls[i..], limits, devices, links) == LoadLinks(ls, limits, devices, map[])
    {
      var x := ls[i];
      assert ls[i..][0] == x && ls[i..][1..] == ls[i + 1..];
      if |links| >= limits.maxLinks {
        return Err(ResourceLimit);
      }
      if x.id == 0 || x.generation == 0 || x.source == x.target {
        return Err(IntegrityFailure);
      }
      if x.source !in devices || x.target !in devices {
        return Err(IntegrityFailure);
      }
      if x.id !in links {
        links := links[x.id := MarkedLink(x, RESTORE_NOTE)];
      }
    }
    r := Ok(links);
  }

  class TopologyRegistry {
    const limits: Limits
    var state: State

    constructor (limits: Limits)
      ensures this.limits == limits && state == INITIAL
    {
      this.limits, state := limits, State(1, map[], map[], []);
    }

    method UpsertDevice(device: DeviceRecord) returns (r: Status)
      modifies this
      ensures (state, r) == AfterUpsertDevice(old(state), limits, device)
    {
      var next := state;
      if device.id == 0 || device.generation == 0 {
        return Failed(InvalidArgument);
      }
      var changed := false;
      if device.id !in next.devices {
        if |next.devices| >= limits.maxDevices {
          return Failed(ResourceLimit);
        }
        next := next.(devices := next.devices[device.id := device]);
        changed := true;
      } else {
        var cur := next.devices[device.id];
        if device.generation < cur.generation {
          return Failed(StaleGeneration);
        }
        if device.generation == cur.generation {
          if device != cur {
            return Failed(StaleGeneration);
          }
          return Done;
        }
        next := next.(devices := next.devices[device.id := device]);
        changed := true;
      }
      if changed {
        next := next.(topologyGeneration := state.topologyGeneration + 1);
        var stamped := StampLinks(next.links, next.topologyGeneration);
        next := next.(links := stamped);
      }
      state := next;
      r := Done;
    }

    method RemoveDevice(device: nat) returns (r: Status)
      modifies this
      ensures (state, r) == AfterRemoveDevice(old(state), device)
    {
      var next := state;
      if device !in next.devices {
        return Failed(NotFound);
      }
      var kept := DropLinksTouching(next.links, device);
      next := next.(devices := next.devices - {device}, topologyGeneration := state.topologyGeneration + 1);
      var stamped := StampLinks(kept, next.topologyGeneration);
      state := next.(links := stamped);
      r := Done;
    }

    method UpsertLink(link: LinkRecord) returns (r: Status)
      modifies this
      ensures (state, r) == AfterUpsertLink(old(state), limits, link)
    {
      var next := state;
      if link.id == 0 || link.generation == 0 {
        return Failed(InvalidArgument);
      }
      if link.source == link.target {
        return Failed(InvalidTopology);
      }
      if link.source !in next.devices {
        return Failed(InvalidTopology);
      }
      if link.target !in next.devices {
        return Failed(InvalidTopology);
      }
      if |next.links| >= limits.maxLinks {
        return Failed(ResourceLimit);
      }
      var parallel := CountParallel(next.links, link.source, link.target);
      if parallel >= limits.maxParallelLinks {
        return Failed(ResourceLimit);
      }
      if link.id in next.links {
        var cur := next.links[link.id];
        if link.generation < cur.generation {
          return Failed(StaleGeneration);
        }
        if link.generation == cur.generation {
          if link != cur {
            return Failed(StaleGeneration);
          }
          return Done;
        }
      }
      next := next.(links := next.links[link.id := link], topologyGeneration := state.topologyGeneration + 1);
      var stamped := StampLinks(next.links, next.topologyGeneration);
      state := next.(links := stamped);
      r := Done;
    }

    method RemoveLink(link: nat) returns (r: Status)
      modifies this
      ensures (state, r) == AfterRemoveLink(old(state), link)
    {
      var next := state;
      if link !in next.links {
        return Failed(NotFound);
      }
      next := next.(links := next.links - {link}, topologyGeneration := state.topologyGeneration + 1);
      var stamped := StampLinks(next.links, next.topologyGeneration);
      state := next.(links := stamped);
      r := Done;
    }

    method UpdateLinkState(link: nat, linkState: LinkState, evidence: Evidence, degraded: bool, note: Text,
                           now: Timestamp) returns (r: Status)
      modifies this
      ensures (state, r) == AfterUpdateLinkState(old(state), link, linkState, evidence, degraded, note, now)
    {
      var next := state;
      if link !in next.links {
        return Failed(NotFound);
      }
      var l := next.links[link];
      l := l.(state := linkState);
      l := l.(evidence := evidence);
      l := l.(degraded := degraded);
      l := l.(degradationNote := note);
      l := l.(generation := l.generation + 1);
      l := l.(lastObservation := now);
      next := next.(links := next.links[link := l], topologyGeneration := state.topologyGeneration + 1);
      var stamped := StampLinks(next.links, next.topologyGeneration);
      state := next.(links := stamped);
      r := Done;
    }

    method UpdateDeviceHealth(device: nat, health: DeviceHealth, evidence: Evidence) returns (r: Status)
      modifies this
      ensures (state, r) == AfterUpdateDeviceHealth(old(state), device, health, evidence)
    {
      var next := state;
      if device !in next.devices {
        return Failed(NotFound);
      }
      var d := next.devices[device];
      d := d.(health := health);
      d := d.(evidence := evidence);
      d := d.(generation := d.generation + 1);
      next := next.(devices := next.devices[device := d], topologyGeneration := state.topologyGeneration + 1);
      var stamped := StampLinks(next.links, next.topologyGeneration);
      state := next.(links := stamped);
      r := Done;
    }

    method AdvanceTopology()
      modifies this
      ensures state == Advanced(old(state))
    {
      var next := state;
      next := next.(topologyGeneration := state.topologyGeneration + 1);
      var stamped := StampLinks(next.links, next.topologyGeneration);
      state := next.(links := stamped);
    }

    method PublishMeasurement(measurement: MeasurementRecord, freshId: nat)
      modifies this
      ensures state == AfterPublishMeasurement(old(state), limits, measurement, freshId)
    {
      var next := state;
      var m := measurement;
      if m.id == 0 {
        m := m.(id := freshId);
      }
      m := m.(stale := false);
      m := m.(revalidationRequired := false);
      next := next.(history := next.history + [m]);
      if |next.history| > limits.maxMeasurementHistory {
        next := next.(history := next.history[1..]);
      }
      state := next;
    }

    method MarkDynamicEvidenceRevalidationRequired()
      modifies this
      ensures state == AfterMark(old(state))
    {
      var next := state;
      var history := MakeHistoryStale(next.history);
      var links := MarkLinks(next.links);
      var devices := MarkDevices(next.devices, false);
      next := next.(history := history, links := links, devices := devices);
      next := next.(topologyGeneration := state.topologyGeneration + 1);
      var stamped := StampLinks(next.links, next.topologyGeneration);
      state := next.(links := stamped);
    }

    method CaptureDurableState(now: Timestamp) returns (d: DurableState)
      requires Filed(state)
      ensures d == Captured(state, now)
    {
      var devices := ListValues(state.devices, DeviceId);
      var links := ListValues(state.links, LinkId);
      SortingForgetsOrder(devices, state.devices, DeviceId);
      SortingForgetsOrder(links, state.links, LinkId);
      d := DurableState(DURABLE_FORMAT, state.topologyGeneration, StableSort(devices, By(DeviceId)),
                        StableSort(links, By(LinkId)), now);
    }

    /** One consistent view: the sorted topology and the measurement history. */
    method ConsistentView() returns (topology: Topology, measurements: seq<MeasurementRecord>)
      requires Filed(state)
      ensures topology == Snapshot(state) && measurements == state.history
    {
      var devices := ListValues(state.devices, DeviceId);
      var links := ListValues(state.links, LinkId);
      SortingForgetsOrder(devices, state.devices, DeviceId);
      SortingForgetsOrder(links, state.links, LinkId);
      topology := Topology(state.topologyGeneration, StableSort(devices, By(DeviceId)), StableSort(links, By(LinkId)));
      measurements := state.history;
    }

    method RestoreDurableState(d: DurableState) returns (r: Status)
      modifies this
      ensures (state, r) == AfterRestore(old(state), limits, d)
    {
      if d.formatVersion != DURABLE_FORMAT {
        return Failed(IntegrityFailure);
      }
      var generation := if d.topologyGeneration > state.topologyGeneration then d.topologyGeneration
                        else state.topologyGeneration;
      var devices := LoadDeviceRecords(d.devices, limits);
      if devices.Err? {
        return Failed(devices.code);
      }
      var links := LoadLinkRecords(d.links, limits, devices.value);
      if links.Err? {
        return Failed(links.code);
      }
      var restored := MarkDevices(devices.value, true);
      generation := generation + 1;
      var stamped := StampLinks(links.value, generation);
      state := State(generation, restored, stamped, []);
      r := Done;
    }
  }
}

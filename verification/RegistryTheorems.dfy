/** Consequences over whole runs: history, provenance, generations, resending and restoring. */
module RegistryTheorems {
  import opened Bytes
  import opened Types
  import opened Sorting
  import opened Registry
  import opened RegistryRuns

  // ---- Measurement history is the recent end of the publish log ----

  /** The last `n` entries of `q`. */
  function Recent<T>(q: seq<T>, n: nat): seq<T>
  {
    if |q| <= n then q else q[|q| - n..]
  }

  predicate RestoresAt(limits: Limits, ops: seq<Mutation>, j: nat)
    requires j < |ops|
  {
    ops[j].Restore? && AfterRestore(Run(INITIAL, limits, ops[..j]), limits, ops[j].durable).1 == Done
  }

  /** The positions of the publishes that no successful restore has wiped out, oldest first. */
  function PublishLog(limits: Limits, ops: seq<Mutation>): seq<nat>
    decreases |ops|
  {
    if ops == [] then []
    else
      var n := |ops| - 1;
      if ops[n].PublishMeasurement? then PublishLog(limits, ops[..n]) + [n]
      else if RestoresAt(limits, ops, n) then []
      else PublishLog(limits, ops[..n])
  }

  /** A publish counts until a successful restore follows it. */
  ghost predicate Counts(limits: Limits, ops: seq<Mutation>, i: nat)
  {
    i < |ops| && ops[i].PublishMeasurement? && forall j :: i < j < |ops| ==> !RestoresAt(limits, ops, j)
  }

  lemma CountsStep(limits: Limits, ops: seq<Mutation>, i: nat)
    requires ops != []
    ensures Counts(limits, ops, i) <==>
              if i < |ops| - 1 then Counts(limits, ops[..|ops| - 1], i) && !RestoresAt(limits, ops, |ops| - 1)
              else i == |ops| - 1 && ops[i].PublishMeasurement?
    ensures Counts(limits, ops[..|ops| - 1], i) ==> i < |ops| - 1
    ensures ops[|ops| - 1].PublishMeasurement? ==> !RestoresAt(limits, ops, |ops| - 1)
  {
    var n := |ops| - 1;
    var front := ops[..n];
    assert forall j :: 0 <= j < n ==> front[..j] == ops[..j];
    assert forall j :: 0 <= j < n ==> RestoresAt(limits, front, j) == RestoresAt(limits, ops, j);
  }

  lemma NothingCounts(limits: Limits)
    ensures forall i :: !Counts(limits, [], i)
  {
  }

  /** `log` lists the counting publishes, each once, oldest first. */
  ghost predicate IsLog(limits: Limits, ops: seq<Mutation>, log: seq<nat>)
  {
    && (forall a, b :: 0 <= a < b < |log| ==> log[a] < log[b])
    && (forall i: nat :: Counts(limits, ops, i) <==> i in log)
  }

  lemma {:induction false} PublishLogHolds(limits: Limits, ops: seq<Mutation>)
    ensures IsLog(limits, ops, PublishLog(limits, ops))
    decreases |ops|
  {
    hide Counts, RestoresAt;
    NothingCounts(limits);
    if ops != [] {
      var n := |ops| - 1;
      PublishLogHolds(limits, ops[..n]);
      var front, log := PublishLog(limits, ops[..n]), PublishLog(limits, ops);
      forall i: nat
        ensures Counts(limits, ops, i) <==> i in log
        ensures i in front ==> i < n
      {
        CountsStep(limits, ops, i);
      }
      assert forall a :: 0 <= a < |front| ==> front[a] in front;
    }
  }

  /** What the publish at position i has become: stale exactly if a mark came after it. */
  ghost function LogEntry(ops: seq<Mutation>, i: nat): MeasurementRecord
    requires i < |ops| && ops[i].PublishMeasurement?
  {
    var m := Published(ops[i].measurement, ops[i].freshId);
    if exists j :: i < j < |ops| && ops[j].MarkRevalidation? then StaleMeasurement(m) else m
  }

  ghost predicate Publishes(ops: seq<Mutation>, log: seq<nat>)
  {
    forall k :: 0 <= k < |log| ==> log[k] < |ops| && ops[log[k]].PublishMeasurement?
  }

  ghost function LogEntries(ops: seq<Mutation>, log: seq<nat>): seq<MeasurementRecord>
    requires Publishes(ops, log)
  {
    seq(|log|, k requires 0 <= k < |log| => LogEntry(ops, log[k]))
  }

  lemma {:induction false} LogPublishes(limits: Limits, ops: seq<Mutation>)
    ensures Publishes(ops, PublishLog(limits, ops))
  {
    PublishLogHolds(limits, ops);
    var log := PublishLog(limits, ops);
    forall k | 0 <= k < |log|
      ensures log[k] < |ops| && ops[log[k]].PublishMeasurement?
    {
      assert log[k] in log;
    }
  }

  lemma PushKeepsRecent<T>(q: seq<T>, x: T, n: nat)
    ensures Push(Recent(q, n), x, n) == Recent(q + [x], n)
  {
  }

  lemma HistoryStep(s: State, limits: Limits, op: Mutation)
    ensures Apply(s, limits, op).history ==
      match op {
        case PublishMeasurement(m, freshId) => Push(s.history, Published(m, freshId), limits.maxMeasurementHistory)
        case MarkRevalidation => StaleHistory(s.history)
        case Restore(d) => if AfterRestore(s, limits, d).1 == Done then [] else s.history
        case _ => s.history
      }
  {
    hide Stamped, LoadDevices, LoadLinks, Push, StaleHistory;
  }

  /** The retained history is exactly the last entries of the log, each stale exactly when a mark came after it. */
  lemma {:induction false} HistoryIsRecentLog(limits: Limits, ops: seq<Mutation>)
    ensures Publishes(ops, PublishLog(limits, ops))
    ensures Run(INITIAL, limits, ops).history
         == Recent(LogEntries(ops, PublishLog(limits, ops)), limits.maxMeasurementHistory)
    decreases |ops|
  {
    hide Apply, AfterRestore, Push, Published, StaleMeasurement;
    LogPublishes(limits, ops);
    if ops != [] {
      var n := |ops| - 1;
      var front := ops[..n];
      HistoryIsRecentLog(limits, front);
      HistoryStep(Run(INITIAL, limits, front), limits, ops[n]);
      var log := PublishLog(limits, front);
      var before := LogEntries(front, log);
      if ops[n].PublishMeasurement? {
        EntriesAfter(ops, log);
        var x := Published(ops[n].measurement, ops[n].freshId);
        PushKeepsRecent(before, x, limits.maxMeasurementHistory);
        assert LogEntries(ops, log + [n]) == before + [x];
      } else if ops[n].MarkRevalidation? {
        MarkMakesEntriesStale(ops, log, limits.maxMeasurementHistory);
      } else if !RestoresAt(limits, ops, n) {
        EntriesAfter(ops, log);
      }
    }
  }

  lemma StaleTwice(m: MeasurementRecord)
    ensures StaleMeasurement(StaleMeasurement(m)) == StaleMeasurement(m)
  {
  }

  lemma MarkMakesEntriesStale(ops: seq<Mutation>, log: seq<nat>, bound: nat)
    requires ops != [] && ops[|ops| - 1].MarkRevalidation? && Publishes(ops[..|ops| - 1], log)
    ensures Publishes(ops, log)
    ensures StaleHistory(Recent(LogEntries(ops[..|ops| - 1], log), bound)) == Recent(LogEntries(ops, log), bound)
  {
    hide Published, StaleMeasurement;
    var before, after := LogEntries(ops[..|ops| - 1], log), LogEntries(ops, log);
    forall k | 0 <= k < |log|
      ensures after[k] == StaleMeasurement(before[k])
    {
      StaleTwice(Published(ops[log[k]].measurement, ops[log[k]].freshId));
    }
  }

  /** An operation other than a mark changes no earlier entry. */
  lemma EntriesAfter(ops: seq<Mutation>, log: seq<nat>)
    requires ops != [] && !ops[|ops| - 1].MarkRevalidation? && Publishes(ops[..|ops| - 1], log)
    ensures Publishes(ops, log)
    ensures LogEntries(ops, log) == LogEntries(ops[..|ops| - 1], log)
  {
    hide Published, StaleMeasurement;
    var front := ops[..|ops| - 1];
    forall k | 0 <= k < |log|
      ensures LogEntry(ops, log[k]) == LogEntry(front, log[k])
    {
      var i := log[k];
      if exists j :: i < j < |ops| && ops[j].MarkRevalidation? {
        var j :| i < j < |ops| && ops[j].MarkRevalidation?;
        assert front[j].MarkRevalidation?;
      }
      if exists j :: i < j < |front| && front[j].MarkRevalidation? {
        var j :| i < j < |front| && front[j].MarkRevalidation?;
        assert ops[j].MarkRevalidation?;
      }
    }
  }

  // ---- Where a link's recorded state comes from ----

  /** The operational state that this mutation records for the link, if it records one. */
  function LinkWrite(s: State, limits: Limits, op: Mutation, id: nat): Option<LinkState>
  {
    match op
    case UpsertLink(l) => if l.id == id && AfterUpsertLink(s, limits, l).1 == Done then Some(l.state) else None
    case UpdateLinkState(k, state, _, _, _, _) => if k == id && id in s.links then Some(state) else None
    case MarkRevalidation => if id in s.links then Some(LinkState.RevalidationRequired) else None
    case Restore(d) =>
      var (t, r) := AfterRestore(s, limits, d);
      if r == Done && id in t.links then Some(LinkState.RevalidationRequired) else None
    case _ => None
  }

  lemma {:induction false} LoadedLinksMarked(ls: seq<LinkRecord>, limits: Limits, devices: map<nat, DeviceRecord>,
                                             acc: map<nat, LinkRecord>)
    requires LoadLinks(ls, limits, devices, acc).Ok?
    requires forall k :: k in acc ==> acc[k].state == LinkState.RevalidationRequired
    ensures var links := LoadLinks(ls, limits, devices, acc).value;
            forall k :: k in links ==> links[k].state == LinkState.RevalidationRequired
    decreases ls
  {
    if ls != [] {
      LoadedLinksMarked(ls[1..], limits, devices,
                        if ls[0].id in acc then acc else acc[ls[0].id := MarkedLink(ls[0], RESTORE_NOTE)]);
    }
  }

  lemma RestoreWritesLinks(s: State, limits: Limits, d: DurableState, id: nat)
    requires AfterRestore(s, limits, d).1 == Done && id in AfterRestore(s, limits, d).0.links
    ensures AfterRestore(s, limits, d).0.links[id].state == LinkState.RevalidationRequired
  {
    hide LoadDevices, LoadLinks;
    LoadedLinksMarked(d.links, limits, LoadDevices(d.devices, limits, map[]).value, map[]);
  }

  lemma FailedRestoreKeepsState(s: State, limits: Limits, d: DurableState)
    ensures AfterRestore(s, limits, d).1 == Done || AfterRestore(s, limits, d).0 == s
  {
    hide LoadDevices, LoadLinks;
  }

  lemma AdvanceEffect(s: State, id: nat)
    ensures id in Advanced(s).links <==> id in s.links
    ensures id in s.links ==> Advanced(s).links[id].state == s.links[id].state
  {
  }

  lemma StoreLinkEffect(s: State, l: LinkRecord, id: nat)
    ensures var t := Advanced(s.(links := s.links[l.id := l]));
            (id in t.links <==> id == l.id || id in s.links) &&
            (id in t.links ==> t.links[id].state == if id == l.id then l.state else s.links[id].state)
  {
  }

  lemma RemovalEffect(s: State, k: nat, id: nat)
    ensures id in AfterRemoveDevice(s, k).0.links ==>
              id in s.links && AfterRemoveDevice(s, k).0.links[id].state == s.links[id].state
    ensures id in AfterRemoveLink(s, k).0.links ==>
              id in s.links && AfterRemoveLink(s, k).0.links[id].state == s.links[id].state
  {
  }

  lemma MarkEffect(s: State, id: nat)
    ensures id in AfterMark(s).links <==> id in s.links
    ensures id in s.links ==> AfterMark(s).links[id].state == LinkState.RevalidationRequired
  {
  }

  lemma LinkWriteEffect(s: State, limits: Limits, op: Mutation, id: nat)
    requires id in Apply(s, limits, op).links
    requires forall k :: k in s.links ==> s.links[k].id == k
    ensures var state := Apply(s, limits, op).links[id].state;
            match LinkWrite(s, limits, op, id)
            case Some(st) => state == st
            case None => id in s.links && state == s.links[id].state
  {
    hide Advanced, AfterRestore, ParallelLinks, AfterRemoveDevice, AfterRemoveLink, AfterMark;
    match op
    case UpsertDevice(d) => AdvanceEffect(s.(devices := s.devices[d.id := d]), id);
    case RemoveDevice(k) => RemovalEffect(s, k, id);
    case UpsertLink(l) => StoreLinkEffect(s, l, id);
    case RemoveLink(k) => RemovalEffect(s, k, id);
    case UpdateLinkState(k, state, evidence, degraded, note, now) =>
      if k in s.links {
        StoreLinkEffect(s, LinkWithState(s.links[k], state, evidence, degraded, note, now), id);
      }
    case UpdateDeviceHealth(k, health, evidence) =>
      if k in s.devices {
        AdvanceEffect(s.(devices := s.devices[k := DeviceWithHealth(s.devices[k], health, evidence)]), id);
      }
    case AdvanceTopology => AdvanceEffect(s, id);
    case PublishMeasurement(_, _) =>
    case MarkRevalidation => MarkEffect(s, id);
    case Restore(d) =>
      FailedRestoreKeepsState(s, limits, d);
      if AfterRestore(s, limits, d).1 == Done {
        RestoreWritesLinks(s, limits, d, id);
      }
  }

  /** A present link owes its state to one mutation, after which it stayed and was not written again. */
  lemma {:induction false} LastLinkWrite(limits: Limits, ops: seq<Mutation>, id: nat) returns (k: nat)
    requires id in Run(INITIAL, limits, ops).links
    ensures k < |ops|
    ensures LinkWrite(Run(INITIAL, limits, ops[..k]), limits, ops[k], id)
         == Some(Run(INITIAL, limits, ops).links[id].state)
    ensures forall j :: k < j < |ops| ==>
      LinkWrite(Run(INITIAL, limits, ops[..j]), limits, ops[j], id) == None &&
      id in Run(INITIAL, limits, ops[..j]).links
    decreases |ops|
  {
    hide Apply, LinkWrite;
    var n := |ops| - 1;
    var front := ops[..n];
    ReachableIsGood(limits, front);
    LinkWriteEffect(Run(INITIAL, limits, front), limits, ops[n], id);
    if LinkWrite(Run(INITIAL, limits, front), limits, ops[n], id).Some? {
      k := n;
    } else {
      k := LastLinkWrite(limits, front, id);
      assert front[..k] == ops[..k];
      forall j | k < j < |ops|
        ensures LinkWrite(Run(INITIAL, limits, ops[..j]), limits, ops[j], id) == None
        ensures id in Run(INITIAL, limits, ops[..j]).links
      {
        if j < n {
          assert front[..j] == ops[..j];
        }
      }
    }
  }

  /** A link that is not awaiting revalidation was upserted or state-updated, with that very state, by a
    * mutation that succeeded, and no mark and no successful restore has happened since. */
  lemma FreshLinkProvenance(limits: Limits, ops: seq<Mutation>, id: nat) returns (k: nat)
    requires id in Run(INITIAL, limits, ops).links
    requires Run(INITIAL, limits, ops).links[id].state != LinkState.RevalidationRequired
    ensures k < |ops| && (ops[k].UpsertLink? || ops[k].UpdateLinkState?)
    ensures LinkWrite(Run(INITIAL, limits, ops[..k]), limits, ops[k], id)
         == Some(Run(INITIAL, limits, ops).links[id].state)
    ensures forall j :: k < j < |ops| ==> !ops[j].MarkRevalidation? && !RestoresAt(limits, ops, j)
  {
    hide Apply, Run, AfterUpsertLink, AfterRestore;
    k := LastLinkWrite(limits, ops, id);
    forall j | k < j < |ops|
      ensures !ops[j].MarkRevalidation? && !RestoresAt(limits, ops, j)
    {
      RunStep(limits, ops, j);
      assert ops[..|ops|] == ops;
      assert id in Run(INITIAL, limits, ops[..j + 1]).links;
      if ops[j].Restore? {
        ApplyRestore(Run(INITIAL, limits, ops[..j]), limits, ops[j].durable);
      }
    }
  }

  lemma RunStep(limits: Limits, ops: seq<Mutation>, j: nat)
    requires j < |ops|
    ensures Run(INITIAL, limits, ops[..j + 1]) == Apply(Run(INITIAL, limits, ops[..j]), limits, ops[j])
  {
    hide Apply;
    assert ops[..j + 1][..j] == ops[..j];
  }

  lemma ApplyRestore(s: State, limits: Limits, d: DurableState)
    ensures Apply(s, limits, Restore(d)) == AfterRestore(s, limits, d).0
  {
    hide AfterRestore;
  }

  // ---- Record generations ----

  lemma DeviceGenerationStep(s: State, limits: Limits, op: Mutation, id: nat)
    requires id in s.devices && op != RemoveDevice(id)
    requires op.Restore? ==> AfterRestore(s, limits, op.durable).1 != Done
    requires forall k :: k in s.devices ==> s.devices[k].id == k
    ensures var t := Apply(s, limits, op);
            id in t.devices && t.devices[id].generation >= s.devices[id].generation &&
            (t.devices[id].generation == s.devices[id].generation ==>
              t.devices[id] == s.devices[id].(health := t.devices[id].health))
  {
    hide Stamped, ParallelLinks, AfterRestore, MarkedLinks, StaleHistory, Detached;
    if op.Restore? {
      FailedRestoreKeepsState(s, limits, op.durable);
    }
  }

  /** No restore among `ops` succeeds, when they follow `before`. */
  ghost predicate NothingRestored(limits: Limits, before: seq<Mutation>, ops: seq<Mutation>)
  {
    forall j :: |before| <= j < |before + ops| ==> !RestoresAt(limits, before + ops, j)
  }

  lemma NothingRestoredEarlier(limits: Limits, before: seq<Mutation>, ops: seq<Mutation>)
    requires ops != [] && NothingRestored(limits, before, ops)
    ensures NothingRestored(limits, before, ops[..|ops| - 1])
    ensures ops[|ops| - 1].Restore? ==>
              AfterRestore(Run(INITIAL, limits, before + ops[..|ops| - 1]), limits, ops[|ops| - 1].durable).1 != Done
  {
    hide AfterRestore, Run;
    var n := |ops| - 1;
    var all, front := before + ops, before + ops[..n];
    forall j | |before| <= j < |front|
      ensures !RestoresAt(limits, front, j)
    {
      assert !RestoresAt(limits, all, j);
      assert front[..j] == all[..j];
    }
    assert !RestoresAt(limits, all, |before| + n);
    assert all[..|before| + n] == front;
  }

  /** While a device is neither removed nor restored, its generation never goes back, and while the generation
    * stands still nothing but the health field can have changed. */
  lemma {:induction false} DeviceGenerationsMonotone(limits: Limits, before: seq<Mutation>, ops: seq<Mutation>, id: nat)
    requires id in Run(INITIAL, limits, before).devices
    requires forall j :: 0 <= j < |ops| ==> ops[j] != RemoveDevice(id)
    requires NothingRestored(limits, before, ops)
    ensures var d := Run(INITIAL, limits, before).devices[id];
            var t := Run(INITIAL, limits, before + ops);
            id in t.devices && t.devices[id].generation >= d.generation &&
            (t.devices[id].generation == d.generation ==> t.devices[id] == d.(health := t.devices[id].health))
    decreases |ops|
  {
    hide Apply, AfterRestore, NothingRestored;
    if ops == [] {
      assert before + ops == before;
    } else {
      var n := |ops| - 1;
      NothingRestoredEarlier(limits, before, ops);
      DeviceGenerationsMonotone(limits, before, ops[..n], id);
      var s := Run(INITIAL, limits, before + ops[..n]);
      assert (before + ops)[..|before + ops| - 1] == before + ops[..n];
      ReachableIsGood(limits, before + ops[..n]);
      DeviceGenerationStep(s, limits, ops[n], id);
    }
  }

  /** `m` has a later generation than `l`, or differs from it only in what a mark and a topology change rewrite. */
  predicate SameOrNewer(l: LinkRecord, m: LinkRecord)
  {
    m.generation > l.generation ||
    m == l.(state := m.state, degraded := m.degraded, degradationNote := m.degradationNote,
            topologyGeneration := m.topologyGeneration)
  }

  lemma StampIsNoChange(s: State, l: LinkRecord, id: nat)
    requires id in s.links && SameOrNewer(l, s.links[id])
    ensures id in Advanced(s).links && SameOrNewer(l, Advanced(s).links[id])
  {
  }

  lemma NewerIsNewer(l: LinkRecord, m: LinkRecord)
    ensures m.generation > l.generation ==> SameOrNewer(l, m)
  {
  }

  lemma NothingNewer(l: LinkRecord)
    ensures SameOrNewer(l, l)
  {
  }

  // What each kind of mutation does to a link that outlives it.

  lemma DeviceUpsertKeepsLink(s: State, limits: Limits, d: DeviceRecord, id: nat)
    requires id in s.links
    ensures id in AfterUpsertDevice(s, limits, d).0.links
    ensures SameOrNewer(s.links[id], AfterUpsertDevice(s, limits, d).0.links[id])
  {
    NothingNewer(s.links[id]);
    hide Advanced, SameOrNewer;
    StampIsNoChange(s.(devices := s.devices[d.id := d]), s.links[id], id);
  }

  lemma HealthKeepsLink(s: State, device: nat, health: DeviceHealth, evidence: Evidence, id: nat)
    requires id in s.links
    ensures id in AfterUpdateDeviceHealth(s, device, health, evidence).0.links
    ensures SameOrNewer(s.links[id], AfterUpdateDeviceHealth(s, device, health, evidence).0.links[id])
  {
    NothingNewer(s.links[id]);
    hide Advanced, SameOrNewer;
    if device in s.devices {
      var d := DeviceWithHealth(s.devices[device], health, evidence);
      StampIsNoChange(s.(devices := s.devices[device := d]), s.links[id], id);
    }
  }

  lemma DeviceRemovalKeepsLink(s: State, device: nat, id: nat)
    requires id in s.links && id in AfterRemoveDevice(s, device).0.links
    ensures SameOrNewer(s.links[id], AfterRemoveDevice(s, device).0.links[id])
  {
  }

  lemma LinkRemovalKeepsLink(s: State, link: nat, id: nat)
    requires id in s.links && id in AfterRemoveLink(s, link).0.links
    ensures SameOrNewer(s.links[id], AfterRemoveLink(s, link).0.links[id])
  {
  }

  lemma LinkUpsertKeepsLink(s: State, limits: Limits, m: LinkRecord, id: nat)
    requires id in s.links
    ensures id in AfterUpsertLink(s, limits, m).0.links
    ensures SameOrNewer(s.links[id], AfterUpsertLink(s, limits, m).0.links[id])
  {
    var l := s.links[id];
    NothingNewer(l);
    NewerIsNewer(l, m);
    hide Advanced, SameOrNewer, ParallelLinks;
    if AfterUpsertLink(s, limits, m).0 != s {
      StampIsNoChange(s.(links := s.links[m.id := m]), l, id);
    }
  }

  lemma StateUpdateKeepsLink(s: State, link: nat, state: LinkState, evidence: Evidence, degraded: bool, note: Text,
                             now: Timestamp, id: nat)
    requires id in s.links
    ensures var t := AfterUpdateLinkState(s, link, state, evidence, degraded, note, now).0;
            id in t.links && SameOrNewer(s.links[id], t.links[id])
  {
    var l := s.links[id];
    NothingNewer(l);
    if link in s.links {
      var m := LinkWithState(s.links[link], state, evidence, degraded, note, now);
      NewerIsNewer(l, m);
      hide Advanced, SameOrNewer;
      StampIsNoChange(s.(links := s.links[link := m]), l, id);
    }
  }

  lemma MarkKeepsLink(s: State, id: nat)
    requires id in s.links
    ensures id in AfterMark(s).links && SameOrNewer(s.links[id], AfterMark(s).links[id])
  {
  }

  lemma LinkGenerationStep(s: State, limits: Limits, op: Mutation, id: nat)
    requires id in s.links && id in Apply(s, limits, op).links
    requires op.Restore? ==> AfterRestore(s, limits, op.durable).1 != Done
    ensures SameOrNewer(s.links[id], Apply(s, limits, op).links[id])
  {
    NothingNewer(s.links[id]);
    hide Advanced, SameOrNewer, AfterUpsertDevice, AfterRemoveDevice, AfterUpsertLink, AfterRemoveLink,
         AfterUpdateLinkState, AfterUpdateDeviceHealth, AfterPublishMeasurement, AfterMark, AfterRestore;
    match op
    case UpsertDevice(d) => DeviceUpsertKeepsLink(s, limits, d, id);
    case RemoveDevice(k) => DeviceRemovalKeepsLink(s, k, id);
    case UpsertLink(m) => LinkUpsertKeepsLink(s, limits, m, id);
    case RemoveLink(k) => LinkRemovalKeepsLink(s, k, id);
    case UpdateLinkState(k, state, evidence, degraded, note, now) =>
      StateUpdateKeepsLink(s, k, state, evidence, degraded, note, now, id);
    case UpdateDeviceHealth(k, health, evidence) => HealthKeepsLink(s, k, health, evidence, id);
    case AdvanceTopology => StampIsNoChange(s, s.links[id], id);
    case PublishMeasurement(m, freshId) => PublishKeepsLinks(s, limits, m, freshId);
    case MarkRevalidation => MarkKeepsLink(s, id);
    case Restore(d) => FailedRestoreKeepsState(s, limits, d);
  }

  lemma PublishKeepsLinks(s: State, limits: Limits, m: MeasurementRecord, freshId: nat)
    ensures AfterPublishMeasurement(s, limits, m, freshId).links == s.links
  {
  }

  lemma SameOrNewerChains(l: LinkRecord, m: LinkRecord, n: LinkRecord)
    requires SameOrNewer(l, m) && SameOrNewer(m, n)
    ensures SameOrNewer(l, n)
  {
  }

  /** While a link stays and nothing is restored, its generation never goes back, and while the generation stands still
    * only its state, its degradation and its stamp can have changed. */
  lemma {:induction false} LinkGenerationsMonotone(limits: Limits, before: seq<Mutation>, ops: seq<Mutation>, id: nat)
    requires forall j :: 0 <= j <= |ops| ==> id in Run(INITIAL, limits, before + ops[..j]).links
    requires NothingRestored(limits, before, ops)
    ensures id in Run(INITIAL, limits, before).links && id in Run(INITIAL, limits, before + ops).links
    ensures SameOrNewer(Run(INITIAL, limits, before).links[id], Run(INITIAL, limits, before + ops).links[id])
    decreases |ops|
  {
    hide Apply, SameOrNewer, AfterRestore, NothingRestored;
    assert before + ops[..0] == before && ops[..|ops|] == ops;
    if ops == [] {
      assert before + ops == before;
      NothingNewer(Run(INITIAL, limits, before).links[id]);
    } else {
      var n := |ops| - 1;
      assert forall j :: 0 <= j <= n ==> ops[..n][..j] == ops[..j];
      NothingRestoredEarlier(limits, before, ops);
      LinkGenerationsMonotone(limits, before, ops[..n], id);
      var s := Run(INITIAL, limits, before + ops[..n]);
      assert (before + ops)[..|before + ops| - 1] == before + ops[..n];
      ReachableIsGood(limits, before + ops[..n]);
      LinkGenerationStep(s, limits, ops[n], id);
      SameOrNewerChains(Run(INITIAL, limits, before).links[id], s.links[id], Apply(s, limits, ops[n]).links[id]);
    }
  }

  /** Removal forgets the generation: a replay of any older record is then taken as new. */
  lemma RemovalAdmitsStaleReplay(s: State, limits: Limits, d: DeviceRecord)
    requires Good(s, limits) && d.id in s.devices && d.generation != 0
    ensures AfterUpsertDevice(AfterRemoveDevice(s, d.id).0, limits, d).1 == Done
    ensures d.generation < s.devices[d.id].generation ==>
              AfterUpsertDevice(s, limits, d).1 == Failed(StaleGeneration)
  {
    RemovedSize(s.devices, d.id);
  }

  lemma OneFewerParallel(links: map<nat, LinkRecord>, id: nat, g: nat)
    requires id in links
    ensures var l := links[id];
            |ParallelLinks(Stamped(links - {id}, g), l.source, l.target)| < |ParallelLinks(links, l.source, l.target)|
  {
    var l := links[id];
    var all := ParallelLinks(links, l.source, l.target);
    assert ParallelLinks(Stamped(links - {id}, g), l.source, l.target) == all - {id};
    assert id in all;
  }

  lemma OneFewerLink(links: map<nat, LinkRecord>, id: nat, g: nat)
    requires id in links
    ensures |Stamped(links - {id}, g)| == |links| - 1
  {
    RemovedSize(links, id);
    SameKeysSameSize(Stamped(links - {id}, g), links - {id});
  }

  /** So does removing a link. */
  lemma LinkRemovalAdmitsStaleReplay(s: State, limits: Limits, l: LinkRecord)
    requires Good(s, limits) && WithinParallelBound(s.links, limits) && l.id in s.links && l.generation != 0
    requires l.source == s.links[l.id].source && l.target == s.links[l.id].target
    ensures AfterUpsertLink(AfterRemoveLink(s, l.id).0, limits, l).1 == Done
    ensures l.generation < s.links[l.id].generation ==> AfterUpsertLink(s, limits, l).1 != Done
  {
    hide Stamped, ParallelLinks;
    OneFewerLink(s.links, l.id, s.topologyGeneration + 1);
    OneFewerParallel(s.links, l.id, s.topologyGeneration + 1);
    StampedKeys(s.links - {l.id}, s.topologyGeneration + 1);
    var m := s.links[l.id];
    assert GoodLink(m, s.devices) && m.id == l.id;
    assert |ParallelLinks(s.links, l.source, l.target)| <= limits.maxParallelLinks && |s.links| <= limits.maxLinks;
    hide Good, GoodLinks, GoodDevices, WithinParallelBound;
  }

  lemma StampedKeys(links: map<nat, LinkRecord>, g: nat)
    ensures Stamped(links, g).Keys == links.Keys
  {
  }

  // ---- Sending the same record twice ----

  lemma DeviceResendAccepted(s: State, limits: Limits, d: DeviceRecord)
    requires AfterUpsertDevice(s, limits, d).1 == Done
    ensures var t := AfterUpsertDevice(s, limits, d).0; AfterUpsertDevice(t, limits, d) == (t, Done)
  {
    hide Stamped;
  }

  /** A stored link sent again is accepted only if it carries the generation the registry stamped on it, and only below
    * the limits, which are checked before the stored link is looked at. */
  lemma LinkResendAccepted(s: State, limits: Limits, l: LinkRecord)
    requires Good(s, limits) && l.id in s.links
    requires l == s.links[l.id].(topologyGeneration := l.topologyGeneration)
    ensures AfterUpsertLink(s, limits, l).0 == s
    ensures AfterUpsertLink(s, limits, l).1 == Done <==>
              && |s.links| < limits.maxLinks
              && |ParallelLinks(s.links, l.source, l.target)| < limits.maxParallelLinks
              && l.topologyGeneration == s.topologyGeneration
  {
    hide ParallelLinks, Stamped;
    assert GoodLink(s.links[l.id], s.devices);
  }

  /** A mark changes records without a new generation: an owner re-sending what was stored before is then
    * refused as a conflict, unless the record already asked for revalidation or has no owner. */
  lemma ResendAfterMark(s: State, limits: Limits, id: nat)
    requires Good(s, limits) && id in s.devices
    ensures var d := s.devices[id];
            AfterUpsertDevice(AfterMark(s), limits, d).1
              == if d.ownerWorker.None? || d.health == DeviceHealth.RevalidationRequired then Done
                 else Failed(StaleGeneration)
  {
    hide Stamped, MarkedLinks, StaleHistory;
  }

  // ---- Restoring what was captured ----

  lemma OrderedFirst<V>(m: map<nat, V>) returns (k: nat)
    requires m != map[]
    ensures k in m && Ordered(m) == [m[k]] + Ordered(m - {k}) && |m - {k}| == |m| - 1
  {
    k := Least(m.Keys);
    RemovedSize(m, k);
  }

  ghost predicate Apart<V>(acc: map<nat, V>, ks: set<nat>)
  {
    forall k :: k in ks ==> k !in acc
  }

  lemma MoveAcross<V>(acc: map<nat, V>, m: map<nat, V>, k: nat)
    requires k in m && Apart(acc, m.Keys)
    ensures acc[k := m[k]] + (m - {k}) == acc + m
    ensures Apart(acc[k := m[k]], (m - {k}).Keys)
  {
    var l, r := acc[k := m[k]] + (m - {k}), acc + m;
    forall j
      ensures j in l <==> j in r
      ensures j in l ==> l[j] == r[j]
    {
      assert j in m - {k} <==> j in m && j != k;
    }
  }

  lemma OneMoreKey<V>(acc: map<nat, V>, k: nat, v: V)
    requires k !in acc
    ensures |acc[k := v]| == |acc| + 1
  {
    assert acc[k := v].Keys == acc.Keys + {k};
    assert |acc[k := v]| == |acc[k := v].Keys| && |acc| == |acc.Keys|;
  }

  lemma {:induction false} LoadOrderedDevices(m: map<nat, DeviceRecord>, limits: Limits, acc: map<nat, DeviceRecord>)
    requires forall k :: k in m ==> k != 0 && m[k].id == k && m[k].generation != 0
    requires Apart(acc, m.Keys) && |acc| + |m| <= limits.maxDevices
    ensures LoadDevices(Ordered(m), limits, acc) == Ok(acc + m)
    decreases |m|
  {
    if m == map[] {
      assert acc + m == acc;
    } else {
      hide Ordered;
      var k := OrderedFirst(m);
      MoveAcross(acc, m, k);
      OneMoreKey(acc, k, m[k]);
      LoadOrderedDevices(m - {k}, limits, acc[k := m[k]]);
      LoadFirstDevice(m[k], Ordered(m - {k}), limits, acc);
    }
  }

  lemma LoadFirstDevice(d: DeviceRecord, rest: seq<DeviceRecord>, limits: Limits, acc: map<nat, DeviceRecord>)
    requires d.id != 0 && d.generation != 0 && d.id !in acc && |acc| < limits.maxDevices
    ensures LoadDevices([d] + rest, limits, acc) == LoadDevices(rest, limits, acc[d.id := d])
  {
    assert ([d] + rest)[1..] == rest;
  }

  lemma LoadFirstLink(l: LinkRecord, rest: seq<LinkRecord>, limits: Limits, devices: map<nat, DeviceRecord>,
                      acc: map<nat, LinkRecord>)
    requires GoodLink(l, devices) && l.id !in acc && |acc| < limits.maxLinks
    ensures LoadLinks([l] + rest, limits, devices, acc)
         == LoadLinks(rest, limits, devices, acc[l.id := MarkedLink(l, RESTORE_NOTE)])
  {
    assert ([l] + rest)[1..] == rest;
  }

  lemma RestoredWithout(m: map<nat, LinkRecord>, k: nat)
    ensures RestoredLinks(m).Keys == m.Keys && RestoredLinks(m - {k}) == RestoredLinks(m) - {k}
    ensures (m - {k}).Keys == (RestoredLinks(m) - {k}).Keys
  {
  }

  lemma {:induction false} LoadOrderedLinks(m: map<nat, LinkRecord>, limits: Limits, devices: map<nat, DeviceRecord>,
                                            acc: map<nat, LinkRecord>)
    requires forall k :: k in m ==> m[k].id == k && GoodLink(m[k], devices)
    requires Apart(acc, m.Keys) && |acc| + |m| <= limits.maxLinks
    ensures LoadLinks(Ordered(m), limits, devices, acc) == Ok(acc + RestoredLinks(m))
    decreases |m|
  {
    if m == map[] {
      assert acc + RestoredLinks(m) == acc;
    } else {
      hide Ordered, MarkedLink, GoodLink;
      var k := OrderedFirst(m);
      var restored := RestoredLinks(m);
      var next := acc[k := restored[k]];
      LoadFirstLink(m[k], Ordered(m - {k}), limits, devices, acc);
      hide LoadLinks;
      RestoredWithout(m, k);
      MoveAcross(acc, restored, k);
      OneMoreKey(acc, k, restored[k]);
      LoadOrderedLinks(m - {k}, limits, devices, next);
    }
  }

  lemma FromNothing<V>(m: map<nat, V>, none: map<nat, V>)
    requires none == map[]
    ensures none + m == m && Apart(none, m.Keys) && |none| + |m| == |m|
  {
  }

  lemma CapturedDevicesLoad(s: State, limits: Limits)
    requires Good(s, limits)
    ensures LoadDevices(Ordered(s.devices), limits, map[]) == Ok(s.devices)
  {
    hide LoadDevices, Ordered, Apart, GoodLinks;
    FromNothing(s.devices, map[]);
    LoadOrderedDevices(s.devices, limits, map[]);
  }

  lemma CapturedLinksLoad(s: State, limits: Limits)
    requires Good(s, limits)
    ensures LoadLinks(Ordered(s.links), limits, s.devices, map[]) == Ok(RestoredLinks(s.links))
  {
    hide LoadLinks, Ordered, RestoredLinks, Apart, GoodDevices, GoodLink;
    FromNothing(s.links, map[]);
    FromNothing(RestoredLinks(s.links), map[]);
    LoadOrderedLinks(s.links, limits, s.devices, map[]);
  }

  /** Restoring a capture into any registry with the same limits succeeds and keeps every record up to the
    * revalidation fields, under a generation above both the captured and the current one. */
  lemma RestoreOfCapture(s: State, limits: Limits, now: Timestamp, current: State)
    requires Good(s, limits)
    ensures var (t, r) := AfterRestore(current, limits, Captured(s, now));
            r == Done &&
            t.topologyGeneration == Max(s.topologyGeneration, current.topologyGeneration) + 1 &&
            t.devices == RestoredDevices(s.devices) &&
            t.links == Stamped(RestoredLinks(s.links), t.topologyGeneration) &&
            t.history == []
  {
    hide LoadDevices, LoadLinks, Ordered, Stamped, RestoredDevices, RestoredLinks, Good;
    CapturedDevicesLoad(s, limits);
    CapturedLinksLoad(s, limits);
  }
}

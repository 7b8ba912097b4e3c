/** What a restore keeps of an arbitrary durable state, and what it forgets. */
module RestoreTheorems {
  import opened Types
  import opened Sorting
  import opened Registry
  import opened RegistryRuns
  import opened RegistryTheorems

  // ---- The records a restore takes ----

  /** The first record of each id, beside those already there. */
  function Firsts<V>(s: seq<V>, id: V -> nat, acc: map<nat, V>): map<nat, V>
    decreases |s|
  {
    if s == [] then acc else Firsts(s[1..], id, if id(s[0]) in acc then acc else acc[id(s[0]) := s[0]])
  }

  lemma {:induction false} LoadedDevicesAreFirsts(ds: seq<DeviceRecord>, limits: Limits, acc: map<nat, DeviceRecord>)
    requires LoadDevices(ds, limits, acc).Ok?
    ensures LoadDevices(ds, limits, acc).value == Firsts(ds, DeviceId, acc)
    decreases |ds|
  {
    if ds != [] {
      LoadedDevicesAreFirsts(ds[1..], limits, if ds[0].id in acc then acc else acc[ds[0].id := ds[0]]);
    }
  }

  lemma RestoredWithOneMore(m: map<nat, LinkRecord>, l: LinkRecord)
    ensures RestoredLinks(m[l.id := l]) == RestoredLinks(m)[l.id := MarkedLink(l, RESTORE_NOTE)]
    ensures l.id in RestoredLinks(m) <==> l.id in m
  {
    hide MarkedLink;
  }

  lemma {:induction false} LoadedLinksAreFirsts(ls: seq<LinkRecord>, limits: Limits, devices: map<nat, DeviceRecord>,
                                                m: map<nat, LinkRecord>)
    requires LoadLinks(ls, limits, devices, RestoredLinks(m)).Ok?
    ensures LoadLinks(ls, limits, devices, RestoredLinks(m)).value == RestoredLinks(Firsts(ls, LinkId, m))
    decreases |ls|
  {
    hide RestoredLinks, MarkedLink;
    if ls != [] {
      RestoredWithOneMore(m, ls[0]);
      LoadedLinksAreFirsts(ls[1..], limits, devices, if ls[0].id in m then m else m[ls[0].id := ls[0]]);
    }
  }

  lemma NothingRestored(none: map<nat, LinkRecord>)
    requires none == map[]
    ensures RestoredLinks(none) == map[]
  {
  }

  /** A successful restore holds exactly the first record of each id, up to the revalidation fields, and no generation
    * that the registry held before. */
  lemma RestoreTakesFirsts(s: State, limits: Limits, d: DurableState)
    requires AfterRestore(s, limits, d).1 == Done
    ensures var t := AfterRestore(s, limits, d).0;
            t.devices == RestoredDevices(Firsts(d.devices, DeviceId, map[])) &&
            t.links == Stamped(RestoredLinks(Firsts(d.links, LinkId, map[])), t.topologyGeneration) &&
            t.topologyGeneration == Max(d.topologyGeneration, s.topologyGeneration) + 1 &&
            t.history == []
  {
    hide LoadDevices, LoadLinks, RestoredDevices, RestoredLinks, Stamped, Firsts;
    LoadedDevicesAreFirsts(d.devices, limits, map[]);
    NothingRestored(map[]);
    LoadedLinksAreFirsts(d.links, limits, LoadDevices(d.devices, limits, map[]).value, map[]);
  }

  lemma {:induction false} FirstsOfOrdered<V>(m: map<nat, V>, id: V -> nat, acc: map<nat, V>)
    requires (forall k :: k in m ==> id(m[k]) == k) && Apart(acc, m.Keys)
    ensures Firsts(Ordered(m), id, acc) == acc + m
    decreases |m|
  {
    if m == map[] {
      assert acc + m == acc;
    } else {
      hide Ordered;
      var k := OrderedFirst(m);
      MoveAcross(acc, m, k);
      FirstsOfOrdered(m - {k}, id, acc[k := m[k]]);
      assert Ordered(m)[1..] == Ordered(m - {k});
    }
  }

  // ---- The parallel-link bound, exactly ----

  lemma SameBound(m: map<nat, LinkRecord>, n: map<nat, LinkRecord>, limits: Limits)
    requires EndsKept(m, n) && EndsKept(n, m)
    ensures WithinParallelBound(m, limits) <==> WithinParallelBound(n, limits)
  {
    hide WithinParallelBound, EndsKept;
    if WithinParallelBound(n, limits) {
      FewerParallel(m, n, limits);
    }
    if WithinParallelBound(m, limits) {
      FewerParallel(n, m, limits);
    }
  }

  lemma RestoredEnds(m: map<nat, LinkRecord>, g: nat)
    ensures EndsKept(m, Stamped(RestoredLinks(m), g)) && EndsKept(Stamped(RestoredLinks(m), g), m)
  {
  }

  /** A successful restore respects the parallel-link bound exactly when the first record of each link id does, which a
    * caller can find out from the durable state alone. */
  lemma RestoreWithinBoundIff(s: State, limits: Limits, d: DurableState)
    requires AfterRestore(s, limits, d).1 == Done
    ensures WithinParallelBound(AfterRestore(s, limits, d).0.links, limits)
       <==> WithinParallelBound(Firsts(d.links, LinkId, map[]), limits)
  {
    hide AfterRestore, WithinParallelBound, Stamped, RestoredLinks, EndsKept, Firsts;
    RestoreTakesFirsts(s, limits, d);
    var m, g := Firsts(d.links, LinkId, map[]), AfterRestore(s, limits, d).0.topologyGeneration;
    RestoredEnds(m, g);
    SameBound(Stamped(RestoredLinks(m), g), m, limits);
  }

  lemma FirstsOfCapture(s: State, limits: Limits, now: Timestamp)
    requires Good(s, limits)
    ensures Firsts(Captured(s, now).links, LinkId, map[]) == s.links
  {
    hide Firsts, Ordered;
    FirstsOfOrdered(s.links, LinkId, map[]);
    assert map[] + s.links == s.links;
  }

  /** For captures that means: exactly when the captured registry did. */
  lemma RestoreOfCaptureWithinBound(s: State, limits: Limits, now: Timestamp, current: State)
    requires Good(s, limits)
    ensures WithinParallelBound(AfterRestore(current, limits, Captured(s, now)).0.links, limits)
       <==> WithinParallelBound(s.links, limits)
  {
    hide WithinParallelBound, AfterRestore, Firsts, Captured, Good, RestoredDevices, RestoredLinks, Stamped;
    RestoreOfCapture(s, limits, now, current);
    RestoreWithinBoundIff(current, limits, Captured(s, now));
    FirstsOfCapture(s, limits, now);
  }

  /** Every registry that the run passes through respects the bound. */
  ghost predicate BoundThroughout(limits: Limits, ops: seq<Mutation>)
  {
    forall j :: 0 <= j <= |ops| ==> WithinParallelBound(Run(INITIAL, limits, ops[..j]).links, limits)
  }

  /** Every durable state that the run restores successfully respects the bound. */
  ghost predicate RestoresWithinBound(limits: Limits, ops: seq<Mutation>)
  {
    forall i :: 0 <= i < |ops| && RestoresAt(limits, ops, i) ==>
      WithinParallelBound(Firsts(ops[i].durable.links, LinkId, map[]), limits)
  }

  lemma NothingInitially(limits: Limits)
    ensures WithinParallelBound(INITIAL.links, limits)
  {
    forall a, b
      ensures ParallelLinks(INITIAL.links, a, b) == {}
    {
    }
  }

  lemma {:induction false} BoundUpTo(limits: Limits, ops: seq<Mutation>, j: nat)
    requires RestoresWithinBound(limits, ops) && j <= |ops|
    ensures WithinParallelBound(Run(INITIAL, limits, ops[..j]).links, limits)
  {
    hide WithinParallelBound, Apply, AfterRestore, Firsts;
    if j == 0 {
      NothingInitially(limits);
    } else {
      var i := j - 1;
      var s := Run(INITIAL, limits, ops[..i]);
      BoundUpTo(limits, ops, i);
      RunStep(limits, ops, i);
      if ops[i].Restore? {
        ApplyRestore(s, limits, ops[i].durable);
        if RestoresAt(limits, ops, i) {
          RestoreWithinBoundIff(s, limits, ops[i].durable);
        } else {
          FailedRestoreKeepsState(s, limits, ops[i].durable);
        }
      } else {
        MutationKeepsParallelBound(s, limits, ops[i]);
      }
    }
  }

  /** A run respects the parallel-link bound throughout exactly when every durable state it restores does. */
  lemma BoundThroughoutIff(limits: Limits, ops: seq<Mutation>)
    ensures BoundThroughout(limits, ops) <==> RestoresWithinBound(limits, ops)
  {
    hide WithinParallelBound, Apply, AfterRestore, Firsts, Run;
    if RestoresWithinBound(limits, ops) {
      forall j | 0 <= j <= |ops|
        ensures WithinParallelBound(Run(INITIAL, limits, ops[..j]).links, limits)
      {
        BoundUpTo(limits, ops, j);
      }
    }
    if BoundThroughout(limits, ops) {
      forall i | 0 <= i < |ops| && RestoresAt(limits, ops, i)
        ensures WithinParallelBound(Firsts(ops[i].durable.links, LinkId, map[]), limits)
      {
        RunStep(limits, ops, i);
        ApplyRestore(Run(INITIAL, limits, ops[..i]), limits, ops[i].durable);
        RestoreWithinBoundIff(Run(INITIAL, limits, ops[..i]), limits, ops[i].durable);
      }
    }
  }

  /** An input on which it fails: two parallel links restored under a bound of one. */
  lemma RestoreIgnoresParallelBound(a: DeviceRecord, b: DeviceRecord, l: LinkRecord)
    requires a.id == 1 && b.id == 2 && a.generation != 0 && b.generation != 0
    requires l.id == 1 && l.generation != 0 && l.source == 1 && l.target == 2
    ensures var limits := DEFAULT_LIMITS.(maxParallelLinks := 1);
            var d := DurableState(DURABLE_FORMAT, 1, [a, b], [l, l.(id := 2)], Timestamp(0, false));
            AfterRestore(INITIAL, limits, d).1 == Done &&
            !WithinParallelBound(AfterRestore(INITIAL, limits, d).0.links, limits)
  {
    var limits := DEFAULT_LIMITS.(maxParallelLinks := 1);
    var l2 := l.(id := 2);
    var d := DurableState(DURABLE_FORMAT, 1, [a, b], [l, l2], Timestamp(0, false));
    var devices := map[1 := a][2 := b];
    assert [a, b][1..] == [b] && [b][1..] == [] && [l, l2][1..] == [l2] && [l2][1..] == [];
    assert LoadDevices([a, b], limits, map[]) == LoadDevices([b], limits, map[1 := a])
        == LoadDevices([], limits, devices);
    var m1, m2 := MarkedLink(l, RESTORE_NOTE), MarkedLink(l2, RESTORE_NOTE);
    assert LoadLinks([l, l2], limits, devices, map[]) == LoadLinks([l2], limits, devices, map[1 := m1])
        == LoadLinks([], limits, devices, map[1 := m1][2 := m2]);
    var links := AfterRestore(INITIAL, limits, d).0.links;
    SubsetSmaller({1, 2}, ParallelLinks(links, 1, 2));
    assert |{1, 2}| == 2;
  }

  // ---- What a restore forgets ----

  lemma RestoredGenerations(devices: map<nat, DeviceRecord>, links: map<nat, LinkRecord>, g: nat)
    ensures RestoredDevices(devices).Keys == devices.Keys && Stamped(RestoredLinks(links), g).Keys == links.Keys
    ensures forall k :: k in devices ==> RestoredDevices(devices)[k].generation == devices[k].generation
    ensures forall k :: k in links ==> Stamped(RestoredLinks(links), g)[k].generation == links[k].generation
  {
  }

  /** Record generations after a restore are those of the durable state, however far the registry had got; a device
    * record that the registry refused as stale is then accepted whenever it is newer than the restored one. */
  lemma RestoreForgetsGenerations(s: State, limits: Limits, saved: DurableState, d: DeviceRecord)
    requires AfterRestore(s, limits, saved).1 == Done
    ensures var t := AfterRestore(s, limits, saved).0;
            var devices, links := Firsts(saved.devices, DeviceId, map[]), Firsts(saved.links, LinkId, map[]);
            t.devices.Keys == devices.Keys && t.links.Keys == links.Keys &&
            (forall k :: k in devices ==> t.devices[k].generation == devices[k].generation) &&
            (forall k :: k in links ==> t.links[k].generation == links[k].generation) &&
            (d.id != 0 && d.id in devices && d.generation > devices[d.id].generation ==>
              AfterUpsertDevice(t, limits, d).1 == Done)
    ensures d.id != 0 && d.generation != 0 && d.id in s.devices && d.generation < s.devices[d.id].generation ==>
              AfterUpsertDevice(s, limits, d).1 == Failed(StaleGeneration)
  {
    hide AfterRestore, Firsts, RestoredDevices, RestoredLinks, Stamped;
    RestoreTakesFirsts(s, limits, saved);
    RestoredGenerations(Firsts(saved.devices, DeviceId, map[]), Firsts(saved.links, LinkId, map[]),
                        AfterRestore(s, limits, saved).0.topologyGeneration);
  }
}

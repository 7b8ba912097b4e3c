/** The coordinator: connection handlers interleave over the boot table, the live count and the registry. */
module Coordinator {
  import opened Types
  import opened Registry
  import opened RegistryRuns

  /** Where a handler stands. A refused connection does nothing further; an accepted one whose READY reply
    * cannot be sent is closed without ever touching the shared state again. */
  datatype Phase = Refused | Accepted | Dropped | Serving | Failed | Marked | Released

  datatype Connection = Connection(worker: nat, boot: nat, phase: Phase)

  datatype Shared = Shared(
    epoch: nat,
    lastBoot: map<nat, nat>,
    liveCount: nat,
    registry: State,
    connections: seq<Connection>)

  /** What one handler does in one go: a locked section, a registry call, or a change of its own phase. */
  datatype Step =
    | Hello(worker: nat, boot: nat, reportedEpoch: nat)
    | ReplySent(c: nat)
    | ReplyFailed(c: nat)
    | PublishDevice(c: nat, device: DeviceRecord)
    | PublishLink(c: nat, link: LinkRecord)
    | PublishMeasurement(c: nat, measurement: MeasurementRecord, freshId: nat)
    | ReceiveFailed(c: nat)
    | Mark(c: nat)
    | Release(c: nat)

  function Start(epoch: nat): Shared
  {
    Shared(epoch, map[], 0, INITIAL, [])
  }

  predicate At(s: Shared, c: nat, phase: Phase)
  {
    c < |s.connections| && s.connections[c].phase == phase
  }

  predicate Enabled(s: Shared, step: Step)
  {
    match step
    case Hello(_, _, _) => true
    case ReplySent(c) => At(s, c, Accepted)
    case ReplyFailed(c) => At(s, c, Accepted)
    case PublishDevice(c, _) => At(s, c, Serving)
    case PublishLink(c, _) => At(s, c, Serving)
    case PublishMeasurement(c, _, _) => At(s, c, Serving)
    case ReceiveFailed(c) => At(s, c, Serving)
    case Mark(c) => At(s, c, Phase.Failed)
    case Release(c) => At(s, c, Marked)
  }

  predicate Admits(s: Shared, worker: nat, boot: nat, reportedEpoch: nat)
  {
    reportedEpoch == s.epoch && (worker !in s.lastBoot || boot > s.lastBoot[worker])
  }

  function Moved(s: Shared, c: nat, phase: Phase): Shared
    requires c < |s.connections|
  {
    s.(connections := s.connections[c := s.connections[c].(phase := phase)])
  }

  function OwnedDevice(d: DeviceRecord, owner: Connection): DeviceRecord
  {
    d.(ownerWorker := Some(owner.worker), ownerBoot := Some(owner.boot))
  }

  function OwnedMeasurement(m: MeasurementRecord, owner: Connection): MeasurementRecord
  {
    m.(ownerWorker := Some(owner.worker), ownerBoot := Some(owner.boot))
  }

  function AfterHello(s: Shared, worker: nat, boot: nat, reportedEpoch: nat): Shared
  {
    if Admits(s, worker, boot, reportedEpoch) then
      s.(lastBoot := s.lastBoot[worker := boot], liveCount := s.liveCount + 1,
         connections := s.connections + [Connection(worker, boot, Accepted)])
    else s.(connections := s.connections + [Connection(worker, boot, Refused)])
  }

  /** The registry mutation that a step performs, if any. */
  function MutationOf(s: Shared, step: Step): Option<Mutation>
    requires Enabled(s, step)
  {
    match step
    case PublishDevice(c, d) => Some(UpsertDevice(OwnedDevice(d, s.connections[c])))
    case PublishLink(_, l) => Some(UpsertLink(l))
    case PublishMeasurement(c, m, freshId) =>
      Some(Mutation.PublishMeasurement(OwnedMeasurement(m, s.connections[c]), freshId))
    case Mark(_) => Some(MarkRevalidation)
    case _ => None
  }

  function Mutated(s: Shared, limits: Limits, op: Option<Mutation>): Shared
  {
    if op.None? then s else s.(registry := Apply(s.registry, limits, op.value))
  }

  function Next(s: Shared, limits: Limits, step: Step): Shared
  {
    if !Enabled(s, step) then s
    else
      var t := Mutated(s, limits, MutationOf(s, step));
      match step
      case Hello(worker, boot, reportedEpoch) => AfterHello(t, worker, boot, reportedEpoch)
      case ReplySent(c) => Moved(t, c, Serving)
      case ReplyFailed(c) => Moved(t, c, Dropped)
      case ReceiveFailed(c) => Moved(t, c, Phase.Failed)
      case Mark(c) => Moved(t, c, Marked)
      case Release(c) => Moved(t.(liveCount := if t.liveCount > 0 then t.liveCount - 1 else 0), c, Released)
      case _ => t
  }

  /** Any interleaving; a step that is not enabled does nothing. */
  function Interleaved(limits: Limits, epoch: nat, steps: seq<Step>): Shared
    decreases |steps|
  {
    if steps == [] then Start(epoch)
    else Next(Interleaved(limits, epoch, steps[..|steps| - 1]), limits, steps[|steps| - 1])
  }

  // ---- The server object ----

  class CoordinatorServer {
    const epoch: nat
    const registry: TopologyRegistry
    var lastBoot: map<nat, nat>
    var liveCount: nat
    ghost var connections: seq<Connection>

    constructor (epoch: nat, limits: Limits)
      ensures View() == Start(epoch) && registry.limits == limits && fresh(registry)
    {
      this.epoch := epoch;
      registry := new TopologyRegistry(limits);
      lastBoot, liveCount, connections := map[], 0, [];
    }

    ghost function View(): Shared
      reads this, registry
    {
      Shared(epoch, lastBoot, liveCount, registry.state, connections)
    }

    /** The check of epoch and boot authority, under the lock. */
    method AdmitHello(worker: nat, boot: nat, reportedEpoch: nat) returns (accepted: bool)
      modifies this
      ensures View() == Next(old(View()), registry.limits, Hello(worker, boot, reportedEpoch))
      ensures accepted <==> reportedEpoch == epoch && (worker in old(lastBoot) ==> boot > old(lastBoot)[worker])
    {
      accepted := false;
      if reportedEpoch != epoch {
        accepted := false;
      } else if worker !in lastBoot || boot > lastBoot[worker] {
        lastBoot := lastBoot[worker := boot];
        liveCount := liveCount + 1;
        accepted := true;
      }
      connections := connections + [Connection(worker, boot, if accepted then Accepted else Refused)];
    }

    method HandlePublishDevice(ghost c: nat, worker: nat, boot: nat, device: DeviceRecord)
      requires At(View(), c, Serving) && connections[c].worker == worker && connections[c].boot == boot
      modifies registry
      ensures View() == Next(old(View()), registry.limits, PublishDevice(c, device))
    {
      hide AfterUpsertDevice;
      var d := device;
      d := d.(ownerWorker := Some(worker));
      d := d.(ownerBoot := Some(boot));
      var _ := registry.UpsertDevice(d);
    }

    method HandlePublishLink(ghost c: nat, link: LinkRecord)
      requires At(View(), c, Serving)
      modifies registry
      ensures View() == Next(old(View()), registry.limits, PublishLink(c, link))
    {
      hide AfterUpsertLink;
      var _ := registry.UpsertLink(link);
    }

    method HandlePublishMeasurement(ghost c: nat, worker: nat, boot: nat, measurement: MeasurementRecord, freshId: nat)
      requires At(View(), c, Serving) && connections[c].worker == worker && connections[c].boot == boot
      modifies registry
      ensures View() == Next(old(View()), registry.limits, Step.PublishMeasurement(c, measurement, freshId))
    {
      hide AfterPublishMeasurement;
      var m := measurement;
      m := m.(ownerWorker := Some(worker));
      m := m.(ownerBoot := Some(boot));
      registry.PublishMeasurement(m, freshId);
    }

    /** The end of a handler: first the registry mark, */
    method HandleDisconnect(ghost c: nat)
      requires At(View(), c, Phase.Failed)
      modifies this, registry
      ensures View() == Next(old(View()), registry.limits, Mark(c))
    {
      hide AfterMark;
      registry.MarkDynamicEvidenceRevalidationRequired();
      connections := connections[c := connections[c].(phase := Marked)];
    }

    /** then, under the lock again, the live count. */
    method ReleaseWorker(ghost c: nat)
      requires At(View(), c, Marked)
      modifies this
      ensures View() == Next(old(View()), registry.limits, Release(c))
    {
      if liveCount > 0 {
        liveCount := liveCount - 1;
      }
      connections := connections[c := connections[c].(phase := Released)];
    }
  }

  // ---- A run of the coordinator is a run of its registry ----

  function Mutations(limits: Limits, epoch: nat, steps: seq<Step>): seq<Mutation>
    decreases |steps|
  {
    if steps == [] then []
    else
      var n := |steps| - 1;
      var s := Interleaved(limits, epoch, steps[..n]);
      Mutations(limits, epoch, steps[..n]) +
      if Enabled(s, steps[n]) && MutationOf(s, steps[n]).Some? then [MutationOf(s, steps[n]).value] else []
  }

  lemma RegistryStep(s: Shared, limits: Limits, step: Step)
    ensures Next(s, limits, step).registry ==
              if Enabled(s, step) && MutationOf(s, step).Some? then Apply(s.registry, limits, MutationOf(s, step).value)
              else s.registry
    ensures Next(s, limits, step).epoch == s.epoch
  {
    hide Apply;
  }

  lemma {:induction false} CoordinatorRunsRegistry(limits: Limits, epoch: nat, steps: seq<Step>)
    ensures Interleaved(limits, epoch, steps).registry == Run(INITIAL, limits, Mutations(limits, epoch, steps))
    ensures forall i :: 0 <= i < |Mutations(limits, epoch, steps)| ==> !Mutations(limits, epoch, steps)[i].Restore?
    decreases |steps|
  {
    hide Apply, Next, Enabled;
    if steps != [] {
      var n := |steps| - 1;
      CoordinatorRunsRegistry(limits, epoch, steps[..n]);
      var s := Interleaved(limits, epoch, steps[..n]);
      RegistryStep(s, limits, steps[n]);
      var ops := Mutations(limits, epoch, steps[..n]);
      if Enabled(s, steps[n]) && MutationOf(s, steps[n]).Some? {
        var op := MutationOf(s, steps[n]).value;
        assert (ops + [op])[..|ops|] == ops;
        assert Mutations(limits, epoch, steps) == ops + [op];
      } else {
        assert Mutations(limits, epoch, steps) == ops;
      }
    }
  }

  // ---- Boots ----

  predicate WasAccepted(c: Connection)
  {
    !c.phase.Refused?
  }

  predicate SameWorker(a: Connection, b: Connection)
  {
    WasAccepted(a) && WasAccepted(b) && a.worker == b.worker
  }

  /** Accepted boots of one worker strictly increase, */
  ghost predicate BootsRise(cs: seq<Connection>)
  {
    forall i, j | 0 <= i < j < |cs| && SameWorker(cs[i], cs[j]) :: cs[i].boot < cs[j].boot
  }

  ghost predicate Holds(cs: seq<Connection>, i: nat, worker: nat, boot: nat)
  {
    i < |cs| && WasAccepted(cs[i]) && cs[i].worker == worker && cs[i].boot == boot
  }

  /** and the table holds the largest of them. */
  ghost predicate TableHoldsLast(cs: seq<Connection>, lastBoot: map<nat, nat>)
  {
    && (forall i :: 0 <= i < |cs| && WasAccepted(cs[i]) ==>
          cs[i].worker in lastBoot && cs[i].boot <= lastBoot[cs[i].worker])
    && (forall w :: w in lastBoot ==> exists i: nat :: Holds(cs, i, w, lastBoot[w]))
  }

  /** The connections that raised the live count and have not lowered it; the dropped ones never will. */
  predicate Counted(c: Connection)
  {
    c.phase.Accepted? || c.phase.Dropped? || c.phase.Serving? || c.phase.Failed? || c.phase.Marked?
  }

  function LiveSet(cs: seq<Connection>): set<nat>
  {
    set i: nat | i < |cs| && Counted(cs[i])
  }

  lemma MoveKeepsBoots(cs: seq<Connection>, lastBoot: map<nat, nat>, c: nat, phase: Phase)
    requires BootsRise(cs) && TableHoldsLast(cs, lastBoot)
    requires c < |cs| && WasAccepted(cs[c]) && !phase.Refused?
    ensures BootsRise(cs[c := cs[c].(phase := phase)]) && TableHoldsLast(cs[c := cs[c].(phase := phase)], lastBoot)
  {
    var ds := cs[c := cs[c].(phase := phase)];
    assert forall i :: 0 <= i < |cs| ==>
      WasAccepted(ds[i]) == WasAccepted(cs[i]) && ds[i].worker == cs[i].worker && ds[i].boot == cs[i].boot;
    hide WasAccepted;
    forall w | w in lastBoot
      ensures exists i: nat :: Holds(ds, i, w, lastBoot[w])
    {
      var i: nat :| Holds(cs, i, w, lastBoot[w]);
      assert Holds(ds, i, w, lastBoot[w]);
    }
  }

  lemma RefusalKeepsBoots(cs: seq<Connection>, lastBoot: map<nat, nat>, x: Connection)
    requires BootsRise(cs) && TableHoldsLast(cs, lastBoot) && !WasAccepted(x)
    ensures BootsRise(cs + [x]) && TableHoldsLast(cs + [x], lastBoot)
  {
    hide WasAccepted;
    var ds := cs + [x];
    assert forall i :: 0 <= i < |cs| ==> ds[i] == cs[i];
    forall w | w in lastBoot
      ensures exists i: nat :: Holds(ds, i, w, lastBoot[w])
    {
      var i: nat :| Holds(cs, i, w, lastBoot[w]);
      assert Holds(ds, i, w, lastBoot[w]);
    }
  }

  lemma AdmissionKeepsBoots(cs: seq<Connection>, lastBoot: map<nat, nat>, x: Connection)
    requires BootsRise(cs) && TableHoldsLast(cs, lastBoot) && WasAccepted(x)
    requires x.worker !in lastBoot || x.boot > lastBoot[x.worker]
    ensures BootsRise(cs + [x]) && TableHoldsLast(cs + [x], lastBoot[x.worker := x.boot])
  {
    hide WasAccepted;
    var ds, table := cs + [x], lastBoot[x.worker := x.boot];
    assert forall i :: 0 <= i < |cs| ==> ds[i] == cs[i];
    forall w | w in table
      ensures exists i: nat :: Holds(ds, i, w, table[w])
    {
      if w == x.worker {
        assert Holds(ds, |cs|, w, table[w]);
      } else {
        var i: nat :| Holds(cs, i, w, lastBoot[w]);
        assert Holds(ds, i, w, table[w]);
      }
    }
  }

  ghost predicate BootsIncrease(s: Shared)
  {
    BootsRise(s.connections) && TableHoldsLast(s.connections, s.lastBoot)
  }

  lemma StepKeepsBoots(s: Shared, limits: Limits, step: Step)
    requires BootsIncrease(s)
    ensures BootsIncrease(Next(s, limits, step))
  {
    hide BootsRise, TableHoldsLast, Apply, MutationOf;
    if Enabled(s, step) {
      var cs := s.connections;
      match step
      case Hello(worker, boot, reportedEpoch) =>
        if Admits(s, worker, boot, reportedEpoch) {
          AdmissionKeepsBoots(cs, s.lastBoot, Connection(worker, boot, Accepted));
        } else {
          RefusalKeepsBoots(cs, s.lastBoot, Connection(worker, boot, Refused));
        }
      case ReplySent(c) => MoveKeepsBoots(cs, s.lastBoot, c, Serving);
      case ReplyFailed(c) => MoveKeepsBoots(cs, s.lastBoot, c, Dropped);
      case ReceiveFailed(c) => MoveKeepsBoots(cs, s.lastBoot, c, Phase.Failed);
      case Mark(c) => MoveKeepsBoots(cs, s.lastBoot, c, Marked);
      case Release(c) => MoveKeepsBoots(cs, s.lastBoot, c, Released);
      case _ =>
    }
  }

  /** Accepted boots of each worker strictly increase, the table holds their maximum, and so no pair of worker
    * and boot is ever accepted twice. */
  lemma {:induction false} BootsAlwaysIncrease(limits: Limits, epoch: nat, steps: seq<Step>)
    ensures BootsIncrease(Interleaved(limits, epoch, steps))
    decreases |steps|
  {
    hide Next, BootsIncrease;
    if steps != [] {
      BootsAlwaysIncrease(limits, epoch, steps[..|steps| - 1]);
      StepKeepsBoots(Interleaved(limits, epoch, steps[..|steps| - 1]), limits, steps[|steps| - 1]);
    } else {
      NoBoots(epoch);
    }
  }

  lemma NoBoots(epoch: nat)
    ensures BootsIncrease(Start(epoch))
  {
  }

  // ---- The live count ----

  lemma LiveWithOneMore(cs: seq<Connection>, x: Connection)
    ensures |LiveSet(cs + [x])| == |LiveSet(cs)| + if Counted(x) then 1 else 0
  {
    hide Counted;
    assert LiveSet(cs + [x]) == LiveSet(cs) + if Counted(x) then {|cs|} else {};
  }

  lemma LiveAfterMove(cs: seq<Connection>, c: nat, x: Connection)
    requires c < |cs| && Counted(cs[c])
    ensures c in LiveSet(cs)
    ensures |LiveSet(cs[c := x])| == |LiveSet(cs)| - if Counted(x) then 0 else 1
  {
    hide Counted;
    assert LiveSet(cs[c := x]) == LiveSet(cs) - if Counted(x) then {} else {c};
  }

  lemma StepKeepsLiveCount(s: Shared, limits: Limits, step: Step)
    requires s.liveCount == |LiveSet(s.connections)|
    ensures var t := Next(s, limits, step); t.liveCount == |LiveSet(t.connections)|
  {
    hide Apply, Admits, LiveSet;
    if Enabled(s, step) {
      var cs := s.connections;
      match step
      case Hello(worker, boot, reportedEpoch) =>
        var phase := if Admits(s, worker, boot, reportedEpoch) then Accepted else Refused;
        LiveWithOneMore(cs, Connection(worker, boot, phase));
      case ReplySent(c) => LiveAfterMove(cs, c, cs[c].(phase := Serving));
      case ReplyFailed(c) => LiveAfterMove(cs, c, cs[c].(phase := Dropped));
      case ReceiveFailed(c) => LiveAfterMove(cs, c, cs[c].(phase := Phase.Failed));
      case Mark(c) => LiveAfterMove(cs, c, cs[c].(phase := Marked));
      case Release(c) => LiveAfterMove(cs, c, cs[c].(phase := Released));
      case _ =>
    }
  }

  /** The live count is always the number of accepted connections that have not been released, so the guard
    * before the decrement is never false. */
  lemma {:induction false} LiveCountIsExact(limits: Limits, epoch: nat, steps: seq<Step>)
    ensures var s := Interleaved(limits, epoch, steps);
            s.liveCount == |LiveSet(s.connections)| && forall c :: At(s, c, Marked) ==> s.liveCount > 0
    decreases |steps|
  {
    hide Next;
    if steps != [] {
      LiveCountIsExact(limits, epoch, steps[..|steps| - 1]);
      StepKeepsLiveCount(Interleaved(limits, epoch, steps[..|steps| - 1]), limits, steps[|steps| - 1]);
    }
    var s := Interleaved(limits, epoch, steps);
    forall c | At(s, c, Marked)
      ensures s.liveCount > 0
    {
      assert c in LiveSet(s.connections);
    }
  }

  lemma DroppedStays(s: Shared, limits: Limits, step: Step, c: nat)
    requires At(s, c, Dropped)
    ensures At(Next(s, limits, step), c, Dropped)
  {
    hide Apply, MutationOf;
  }

  /** A connection whose READY reply could not be sent counts as live for ever: no step of any run takes it out. */
  lemma {:induction false} DroppedCountsForEver(limits: Limits, epoch: nat, steps: seq<Step>, more: seq<Step>, c: nat)
    requires At(Interleaved(limits, epoch, steps), c, Dropped)
    ensures var t := Interleaved(limits, epoch, steps + more);
            At(t, c, Dropped) && c in LiveSet(t.connections)
    decreases |more|
  {
    hide Next;
    if more == [] {
      assert steps + more == steps;
    } else {
      var n := |more| - 1;
      DroppedCountsForEver(limits, epoch, steps, more[..n], c);
      assert (steps + more)[..|steps + more| - 1] == steps + more[..n];
      DroppedStays(Interleaved(limits, epoch, steps + more[..n]), limits, more[n], c);
    }
  }
}

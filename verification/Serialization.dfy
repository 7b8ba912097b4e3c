/** The durable binary form: [magic 4][version 4][payload length 4][payload][crc 4]. */
module Serialization {
  import opened Bytes
  import opened Types
  import opened Checksum

  const MAGIC := 0x4446564E
  const VERSION := 1
  const MAX_STRING := 4096
  const HEADER := 12
  const TRAILER := 4
  const TWO63 := 0x8000_0000_0000_0000
  const TWO64 := 0x1_0000_0000_0000_0000

  datatype Serialized = Serialized(formatVersion: nat, bytes: seq<byte>)

  // ---- Enumeration codes ----

  const EVIDENCE_CLASSES: seq<EvidenceClass> :=
    [EvidenceClass.Real, EvidenceClass.Synthetic, EvidenceClass.Unsupported]

  function EvidenceClassCode(e: EvidenceClass): nat
  {
    match e
    case Real => 0
    case Synthetic => 1
    case Unsupported => 2
    case Unnamed(code) => code
  }

  function EvidenceClassOf(code: nat): EvidenceClass
  {
    if code < |EVIDENCE_CLASSES| then EVIDENCE_CLASSES[code] else EvidenceClass.Unnamed(code)
  }

  const TECHNOLOGIES: seq<Technology> :=
    [Technology.Unknown, NoInterconnect, NvLink, Pcie, Cxl, Other]

  function TechnologyCode(t: Technology): nat
  {
    match t
    case Unknown => 0
    case NoInterconnect => 1
    case NvLink => 2
    case Pcie => 3
    case Cxl => 4
    case Other => 5
    case Unnamed(code) => code
  }

  function TechnologyOf(code: nat): Technology
  {
    if code < |TECHNOLOGIES| then TECHNOLOGIES[code] else Technology.Unnamed(code)
  }

  const NODE_KINDS: seq<NodeKind> := [Accelerator, Switch, Host, NodeKind.Unknown]

  function NodeKindCode(k: NodeKind): nat
  {
    match k
    case Accelerator => 0
    case Switch => 1
    case Host => 2
    case Unknown => 3
    case Unnamed(code) => code
  }

  function NodeKindOf(code: nat): NodeKind
  {
    if code < |NODE_KINDS| then NODE_KINDS[code] else NodeKind.Unnamed(code)
  }

  const SUPPORTS: seq<MeasurementSupport> :=
    [MeasurementSupport.Unknown, MeasurementSupport.Unsupported, SyntheticOnly, MeasurementSupport.Real]

  function SupportCode(s: MeasurementSupport): nat
  {
    match s
    case Unknown => 0
    case Unsupported => 1
    case SyntheticOnly => 2
    case Real => 3
    case Unnamed(code) => code
  }

  function SupportOf(code: nat): MeasurementSupport
  {
    if code < |SUPPORTS| then SUPPORTS[code] else MeasurementSupport.Unnamed(code)
  }

  const HEALTHS: seq<DeviceHealth> := [
    DeviceHealth.Unknown, DeviceHealth.Present, DeviceHealth.Absent, DeviceHealth.Degraded,
    DeviceHealth.RevalidationRequired, DeviceHealth.Incompatible, DeviceHealth.Unreachable]

  function HealthCode(h: DeviceHealth): nat
  {
    match h
    case Unknown => 0
    case Present => 1
    case Absent => 2
    case Degraded => 3
    case RevalidationRequired => 4
    case Incompatible => 5
    case Unreachable => 6
    case Unnamed(code) => code
  }

  function HealthOf(code: nat): DeviceHealth
  {
    if code < |HEALTHS| then HEALTHS[code] else DeviceHealth.Unnamed(code)
  }

  const LINK_STATES: seq<LinkState> := [
    LinkState.Unknown, LinkState.Present, LinkState.Absent, Supported, LinkState.Unsupported, Up, Down,
    LinkState.Degraded, LinkState.RevalidationRequired, Stale, LinkState.Incompatible, LinkState.Unreachable]

  function LinkStateCode(s: LinkState): nat
  {
    match s
    case Unknown => 0
    case Present => 1
    case Absent => 2
    case Supported => 3
    case Unsupported => 4
    case Up => 5
    case Down => 6
    case Degraded => 7
    case RevalidationRequired => 8
    case Stale => 9
    case Incompatible => 10
    case Unreachable => 11
    case Unnamed(code) => code
  }

  function LinkStateOf(code: nat): LinkState
  {
    if code < |LINK_STATES| then LINK_STATES[code] else LinkState.Unnamed(code)
  }

  // ---- What the format can carry ----

  ghost predicate TextFits(s: Text)
  {
    |s| <= 4096
  }

  ghost predicate TimestampFits(t: Timestamp)
  {
    -TWO63 <= t.ns < TWO63
  }

  ghost predicate OptionFits(o: Option<nat>, k: nat)
  {
    o.Some? ==> o.value < Radix(k)
  }

  ghost predicate EvidenceFits(e: Evidence)
  {
    && EvidenceClassCode(e.evidenceClass) < 256
    && EvidenceClassOf(EvidenceClassCode(e.evidenceClass)) == e.evidenceClass
    && e.provenance < Radix(4)
    && TextFits(e.source)
    && TextFits(e.note)
  }

  ghost predicate CapabilityFits(c: Capability)
  {
    && TechnologyCode(c.interconnect) < 256
    && TechnologyOf(TechnologyCode(c.interconnect)) == c.interconnect
    && c.linkCount < Radix(4)
    && c.laneWidth < Radix(4)
    && c.nominalBandwidth < Radix(8)
    && SupportCode(c.measurementSupport) < 256
    && SupportOf(SupportCode(c.measurementSupport)) == c.measurementSupport
    && c.counters < Radix(4)
  }

  ghost predicate DeviceFits(d: DeviceRecord)
  {
    && d.id < Radix(8)
    && TextFits(d.logicalName)
    && NodeKindCode(d.kind) < 256
    && NodeKindOf(NodeKindCode(d.kind)) == d.kind
    && TextFits(d.backend)
    && TextFits(d.backendInstance)
    && TextFits(d.pciIdentity)
    && OptionFits(d.cudaOrdinal, 4)
    && TextFits(d.vendor)
    && TextFits(d.architecture)
    && TextFits(d.deviceGeneration)
    && CapabilityFits(d.capability)
    && HealthCode(d.health) < 256
    && HealthOf(HealthCode(d.health)) == d.health
    && EvidenceFits(d.evidence)
    && d.generation < Radix(8)
    && OptionFits(d.ownerWorker, 8)
    && OptionFits(d.ownerBoot, 8)
  }

  ghost predicate LinkFits(l: LinkRecord)
  {
    && l.id < Radix(8)
    && l.source < Radix(8)
    && l.target < Radix(8)
    && TextFits(l.physicalIdentifier)
    && LinkStateCode(l.state) < 256
    && LinkStateOf(LinkStateCode(l.state)) == l.state
    && TechnologyCode(l.technology) < 256
    && TechnologyOf(TechnologyCode(l.technology)) == l.technology
    && CapabilityFits(l.capability)
    && l.generation < Radix(8)
    && EvidenceFits(l.evidence)
    && TimestampFits(l.lastObservation)
    && TextFits(l.degradationNote)
    && l.topologyGeneration < Radix(8)
  }

  ghost predicate DurableFits(s: DurableState)
  {
    && s.formatVersion == DURABLE_FORMAT
    && s.topologyGeneration < Radix(8)
    && TimestampFits(s.savedAt)
    && |s.devices| <= 256
    && |s.links| <= 1024
    && (forall i :: 0 <= i < |s.devices| ==> DeviceFits(s.devices[i]))
    && (forall i :: 0 <= i < |s.links| ==> LinkFits(s.links[i]))
  }

  // ---- What the fields can hold: the widths alone, with the reader's bounds on strings and counts left out ----

  ghost predicate TextWidth(s: Text)
  {
    |s| < Radix(2)
  }

  ghost predicate EvidenceWidths(e: Evidence)
  {
    && EvidenceClassCode(e.evidenceClass) < 256
    && EvidenceClassOf(EvidenceClassCode(e.evidenceClass)) == e.evidenceClass
    && e.provenance < Radix(4)
    && TextWidth(e.source)
    && TextWidth(e.note)
  }

  ghost predicate DeviceWidths(d: DeviceRecord)
  {
    && d.id < Radix(8)
    && TextWidth(d.logicalName)
    && NodeKindCode(d.kind) < 256
    && NodeKindOf(NodeKindCode(d.kind)) == d.kind
    && TextWidth(d.backend)
    && TextWidth(d.backendInstance)
    && TextWidth(d.pciIdentity)
    && OptionFits(d.cudaOrdinal, 4)
    && TextWidth(d.vendor)
    && TextWidth(d.architecture)
    && TextWidth(d.deviceGeneration)
    && CapabilityFits(d.capability)
    && HealthCode(d.health) < 256
    && HealthOf(HealthCode(d.health)) == d.health
    && EvidenceWidths(d.evidence)
    && d.generation < Radix(8)
    && OptionFits(d.ownerWorker, 8)
    && OptionFits(d.ownerBoot, 8)
  }

  ghost predicate LinkWidths(l: LinkRecord)
  {
    && l.id < Radix(8)
    && l.source < Radix(8)
    && l.target < Radix(8)
    && TextWidth(l.physicalIdentifier)
    && LinkStateCode(l.state) < 256
    && LinkStateOf(LinkStateCode(l.state)) == l.state
    && TechnologyCode(l.technology) < 256
    && TechnologyOf(TechnologyCode(l.technology)) == l.technology
    && CapabilityFits(l.capability)
    && l.generation < Radix(8)
    && EvidenceWidths(l.evidence)
    && TimestampFits(l.lastObservation)
    && TextWidth(l.degradationNote)
    && l.topologyGeneration < Radix(8)
  }

  ghost predicate DurableWidths(s: DurableState)
  {
    && s.formatVersion == DURABLE_FORMAT
    && s.topologyGeneration < Radix(8)
    && TimestampFits(s.savedAt)
    && |s.devices| < Radix(4)
    && |s.links| < Radix(4)
    && (forall i :: 0 <= i < |s.devices| ==> DeviceWidths(s.devices[i]))
    && (forall i :: 0 <= i < |s.links| ==> LinkWidths(s.links[i]))
  }

  // ---- The written form ----

  function FlagBytes(b: bool): (r: seq<byte>)
    ensures |r| == 1
  {
    LittleEndian(if b then 1 else 0, 1)
  }

  function TextBytes(s: Text): (r: seq<byte>)
    ensures |r| == 2 + |s|
  {
    LittleEndian(|s|, 2) + s
  }

  function OptionBytes(o: Option<nat>, k: nat): (r: seq<byte>)
    ensures |r| <= 1 + k
  {
    match o
    case None => FlagBytes(false)
    case Some(v) => FlagBytes(true) + LittleEndian(v, k)
  }

  function TimestampBytes(t: Timestamp): (r: seq<byte>)
    ensures |r| == 9
  {
    LittleEndian(t.ns % TWO64, 8) + FlagBytes(t.valid)
  }

  function EvidenceBytes(e: Evidence): (r: seq<byte>)
    ensures |r| == 9 + |e.source| + |e.note|
  {
    LittleEndian(EvidenceClassCode(e.evidenceClass), 1) + (LittleEndian(e.provenance, 4) +
    (TextBytes(e.source) + TextBytes(e.note)))
  }

  function CapabilityBytes(c: Capability): (r: seq<byte>)
    ensures |r| == 24
  {
    LittleEndian(TechnologyCode(c.interconnect), 1) + (LittleEndian(c.linkCount, 4) +
    (LittleEndian(c.laneWidth, 4) + (LittleEndian(c.nominalBandwidth, 8) + (FlagBytes(c.peerAccess) +
    (LittleEndian(SupportCode(c.measurementSupport), 1) + (LittleEndian(c.counters, 4) +
    FlagBytes(c.telemetry)))))))
  }

  function DeviceIdentityBytes(d: DeviceRecord): (r: seq<byte>)
    ensures |r| == 17 + |d.logicalName| + |d.backend| + |d.backendInstance| + |d.pciIdentity|
  {
    LittleEndian(d.id, 8) + (TextBytes(d.logicalName) + (LittleEndian(NodeKindCode(d.kind), 1) +
    (TextBytes(d.backend) + (TextBytes(d.backendInstance) + TextBytes(d.pciIdentity)))))
  }

  function DeviceModelBytes(d: DeviceRecord): (r: seq<byte>)
    ensures |r| <= 11 + |d.vendor| + |d.architecture| + |d.deviceGeneration|
  {
    OptionBytes(d.cudaOrdinal, 4) + (TextBytes(d.vendor) + (TextBytes(d.architecture) +
    TextBytes(d.deviceGeneration)))
  }

  function DeviceStatusBytes(d: DeviceRecord): (r: seq<byte>)
    ensures |r| <= 60 + |d.evidence.source| + |d.evidence.note|
  {
    CapabilityBytes(d.capability) + (LittleEndian(HealthCode(d.health), 1) + (EvidenceBytes(d.evidence) +
    (LittleEndian(d.generation, 8) + (OptionBytes(d.ownerWorker, 8) + OptionBytes(d.ownerBoot, 8)))))
  }

  function DeviceBytes(d: DeviceRecord): seq<byte>
  {
    DeviceIdentityBytes(d) + (DeviceModelBytes(d) + DeviceStatusBytes(d))
  }

  function LinkIdentityBytes(l: LinkRecord): (r: seq<byte>)
    ensures |r| == 29 + |l.physicalIdentifier|
  {
    LittleEndian(l.id, 8) + (LittleEndian(l.source, 8) + (LittleEndian(l.target, 8) + (FlagBytes(l.directed) +
    (TextBytes(l.physicalIdentifier) + (LittleEndian(LinkStateCode(l.state), 1) +
    LittleEndian(TechnologyCode(l.technology), 1))))))
  }

  function LinkStatusBytes(l: LinkRecord): (r: seq<byte>)
    ensures |r| == 62 + |l.evidence.source| + |l.evidence.note| + |l.degradationNote|
  {
    CapabilityBytes(l.capability) + (LittleEndian(l.generation, 8) + (EvidenceBytes(l.evidence) +
    (TimestampBytes(l.lastObservation) + (FlagBytes(l.measurementSupported) + (FlagBytes(l.degraded) +
    (TextBytes(l.degradationNote) + LittleEndian(l.topologyGeneration, 8)))))))
  }

  function LinkBytes(l: LinkRecord): seq<byte>
  {
    LinkIdentityBytes(l) + LinkStatusBytes(l)
  }

  function DevicesBytes(ds: seq<DeviceRecord>): seq<byte>
  {
    if ds == [] then [] else DeviceBytes(ds[0]) + DevicesBytes(ds[1..])
  }

  function LinksBytes(ls: seq<LinkRecord>): seq<byte>
  {
    if ls == [] then [] else LinkBytes(ls[0]) + LinksBytes(ls[1..])
  }

  function Payload(s: DurableState): seq<byte>
  {
    LittleEndian(s.topologyGeneration, 8) + (TimestampBytes(s.savedAt) +
    (LittleEndian(|s.devices|, 4) + (DevicesBytes(s.devices) +
    (LittleEndian(|s.links|, 4) + LinksBytes(s.links)))))
  }

  function Sealable(s: DurableState): seq<byte>
  {
    LittleEndian(MAGIC, 4) + (LittleEndian(VERSION, 4) + (LittleEndian(|Payload(s)|, 4) + Payload(s)))
  }

  function Serialize(s: DurableState): Serialized
  {
    Serialized(VERSION, Sealable(s) + LittleEndian(Crc32(Sealable(s)), 4))
  }

  // ---- Writing, field by field ----

  method PutText(w: ByteBuffer, s: Text)
    modifies w
    ensures w.bytes == old(w.bytes) + TextBytes(s)
  {
    w.PutNum(|s|, 2);
    w.PutBytes(s);
  }

  method PutFlag(w: ByteBuffer, b: bool)
    modifies w
    ensures w.bytes == old(w.bytes) + FlagBytes(b)
  {
    w.PutNum(if b then 1 else 0, 1);
  }

  method PutOption(w: ByteBuffer, o: Option<nat>, k: nat)
    modifies w
    ensures w.bytes == old(w.bytes) + OptionBytes(o, k)
  {
    PutFlag(w, o.Some?);
    if o.Some? {
      w.PutNum(o.value, k);
    }
  }

  method PutTimestamp(w: ByteBuffer, t: Timestamp)
    modifies w
    ensures w.bytes == old(w.bytes) + TimestampBytes(t)
  {
    w.PutNum(t.ns % TWO64, 8);
    PutFlag(w, t.valid);
  }

  method PutEvidence(w: ByteBuffer, e: Evidence)
    modifies w
    ensures w.bytes == old(w.bytes) + EvidenceBytes(e)
  {
    hide LittleEndian, TextBytes, EvidenceClassCode;
    w.PutNum(EvidenceClassCode(e.evidenceClass), 1);
    w.PutNum(e.provenance, 4);
    PutText(w, e.source);
    PutText(w, e.note);
  }

  method PutCapability(w: ByteBuffer, c: Capability)
    modifies w
    ensures w.bytes == old(w.bytes) + CapabilityBytes(c)
  {
    hide LittleEndian, FlagBytes, TechnologyCode, SupportCode;
    w.PutNum(TechnologyCode(c.interconnect), 1);
    w.PutNum(c.linkCount, 4);
    w.PutNum(c.laneWidth, 4);
    w.PutNum(c.nominalBandwidth, 8);
    PutFlag(w, c.peerAccess);
    w.PutNum(SupportCode(c.measurementSupport), 1);
    w.PutNum(c.counters, 4);
    PutFlag(w, c.telemetry);
  }

  method PutDeviceIdentity(w: ByteBuffer, d: DeviceRecord)
    modifies w
    ensures w.bytes == old(w.bytes) + DeviceIdentityBytes(d)
  {
    hide LittleEndian, TextBytes, NodeKindCode;
    w.PutNum(d.id, 8);
    PutText(w, d.logicalName);
    w.PutNum(NodeKindCode(d.kind), 1);
    PutText(w, d.backend);
    PutText(w, d.backendInstance);
    PutText(w, d.pciIdentity);
  }

  method PutDeviceModel(w: ByteBuffer, d: DeviceRecord)
    modifies w
    ensures w.bytes == old(w.bytes) + DeviceModelBytes(d)
  {
    hide LittleEndian, TextBytes, OptionBytes;
    PutOption(w, d.cudaOrdinal, 4);
    PutText(w, d.vendor);
    PutText(w, d.architecture);
    PutText(w, d.deviceGeneration);
  }

  method PutDeviceStatus(w: ByteBuffer, d: DeviceRecord)
    modifies w
    ensures w.bytes == old(w.bytes) + DeviceStatusBytes(d)
  {
    hide LittleEndian, OptionBytes, CapabilityBytes, EvidenceBytes, HealthCode;
    PutCapability(w, d.capability);
    w.PutNum(HealthCode(d.health), 1);
    PutEvidence(w, d.evidence);
    w.PutNum(d.generation, 8);
    PutOption(w, d.ownerWorker, 8);
    PutOption(w, d.ownerBoot, 8);
  }

  method PutDevice(w: ByteBuffer, d: DeviceRecord)
    modifies w
    ensures w.bytes == old(w.bytes) + DeviceBytes(d)
  {
    hide DeviceIdentityBytes, DeviceModelBytes, DeviceStatusBytes;
    PutDeviceIdentity(w, d);
    PutDeviceModel(w, d);
    PutDeviceStatus(w, d);
  }

  method PutLinkIdentity(w: ByteBuffer, l: LinkRecord)
    modifies w
    ensures w.bytes == old(w.bytes) + LinkIdentityBytes(l)
  {
    hide LittleEndian, TextBytes, FlagBytes, LinkStateCode, TechnologyCode;
    w.PutNum(l.id, 8);
    w.PutNum(l.source, 8);
    w.PutNum(l.target, 8);
    PutFlag(w, l.directed);
    PutText(w, l.physicalIdentifier);
    w.PutNum(LinkStateCode(l.state), 1);
    w.PutNum(TechnologyCode(l.technology), 1);
  }

  method PutLinkStatus(w: ByteBuffer, l: LinkRecord)
    modifies w
    ensures w.bytes == old(w.bytes) + LinkStatusBytes(l)
  {
    hide LittleEndian, TextBytes, FlagBytes, CapabilityBytes, EvidenceBytes, TimestampBytes;
    PutCapability(w, l.capability);
    w.PutNum(l.generation, 8);
    PutEvidence(w, l.evidence);
    PutTimestamp(w, l.lastObservation);
    PutFlag(w, l.measurementSupported);
    PutFlag(w, l.degraded);
    PutText(w, l.degradationNote);
    w.PutNum(l.topologyGeneration, 8);
  }

  method PutLink(w: ByteBuffer, l: LinkRecord)
    modifies w
    ensures w.bytes == old(w.bytes) + LinkBytes(l)
  {
    hide LinkIdentityBytes, LinkStatusBytes;
    PutLinkIdentity(w, l);
    PutLinkStatus(w, l);
  }

  method PutDevices(w: ByteBuffer, ds: seq<DeviceRecord>)
    modifies w
    ensures w.bytes == old(w.bytes) + DevicesBytes(ds)
  {
    hide DeviceBytes;
    for i := 0 to |ds|
      invariant w.bytes + DevicesBytes(ds[i..]) == old(w.bytes) + DevicesBytes(ds)
    {
      assert ds[i..][1..] == ds[i + 1..];
      ghost var before := w.bytes;
      PutDevice(w, ds[i]);
      assert w.bytes + DevicesBytes(ds[i + 1..]) == before + DevicesBytes(ds[i..]);
    }
  }

  method PutLinks(w: ByteBuffer, ls: seq<LinkRecord>)
    modifies w
    ensures w.bytes == old(w.bytes) + LinksBytes(ls)
  {
    hide LinkBytes;
    for i := 0 to |ls|
      invariant w.bytes + LinksBytes(ls[i..]) == old(w.bytes) + LinksBytes(ls)
    {
      assert ls[i..][1..] == ls[i + 1..];
      ghost var before := w.bytes;
      PutLink(w, ls[i]);
      assert w.bytes + LinksBytes(ls[i + 1..]) == before + LinksBytes(ls[i..]);
    }
  }

  method PutDurable(w: ByteBuffer, s: DurableState)
    modifies w
    ensures w.bytes == old(w.bytes) + Payload(s)
  {
    hide LittleEndian, TimestampBytes, DevicesBytes, LinksBytes;
    w.PutNum(s.topologyGeneration, 8);
    PutTimestamp(w, s.savedAt);
    w.PutNum(|s.devices|, 4);
    PutDevices(w, s.devices);
    w.PutNum(|s.links|, 4);
    PutLinks(w, s.links);
  }

  method SerializeDurableState(s: DurableState) returns (r: Serialized)
    ensures r == Serialize(s)
  {
    hide LittleEndian, Payload, Crc32;
    var w := new ByteBuffer();
    w.PutNum(MAGIC, 4);
    w.PutNum(VERSION, 4);
    w.PutNum(0, 4);
    var lengthAt := |w.bytes| - 4;
    PutDurable(w, s);
    var length := |w.bytes| - (lengthAt + 4);
    PatchLength(w, lengthAt, length);
    assert w.bytes == Sealable(s);
    var crc := ComputeCrc32(w.bytes);
    w.PutNum(crc, 4);
    r := Serialized(VERSION, w.bytes);
  }

  /** Overwrites the four placeholder bytes at `at`. */
  method PatchLength(w: ByteBuffer, at: nat, length: nat)
    requires at + 4 <= |w.bytes|
    modifies w
    ensures w.bytes == old(w.bytes[..at]) + LittleEndian(length, 4) + old(w.bytes[at + 4..])
  {
    var rest := length;
    for i := 0 to 4
      invariant |w.bytes| == |old(w.bytes)|
      invariant w.bytes[..at + i] + LittleEndian(rest, 4 - i) == old(w.bytes[..at]) + LittleEndian(length, 4)
      invariant w.bytes[at + i..] == old(w.bytes[at + i..])
    {
      ghost var before := w.bytes[..at + i];
      var digit := (rest % 256) as byte;
      assert LittleEndian(rest, 4 - i) == [digit] + LittleEndian(rest / 256, 3 - i);
      w.bytes := w.bytes[at + i := digit];
      rest := rest / 256;
      hide LittleEndian;
      assert w.bytes[..at + i + 1] == before + [digit];
    }
  }
}

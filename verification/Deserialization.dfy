/** Reading the durable form back, with every check of the loader in its order. */
module Deserialization {
  import opened Bytes
  import opened Types
  import opened Checksum
  import opened Serialization

  // ---- What each reader yields, as a function of the bytes and the cursor; a bad cursor stays bad ----

  function FlagAt(b: seq<byte>, c: Cursor): (r: (bool, Cursor))
    ensures c.bad ==> r.1.bad
  {
    var (v, c1) := ReadNum(b, c, 1);
    (v != 0, c1)
  }

  /** Text longer than the format allows is refused, though the length field could hold it. */
  function TextAt(b: seq<byte>, c: Cursor): (r: (Text, Cursor))
    ensures c.bad ==> r.1.bad
  {
    var (n, c1) := ReadNum(b, c, 2);
    if c1.bad || n > MAX_STRING || !(c1.pos + n <= |b|) then ([], c1.(bad := true))
    else (b[c1.pos..c1.pos + n], c1.(pos := c1.pos + n))
  }

  function OptionAt(b: seq<byte>, c: Cursor, k: nat): (r: (Option<nat>, Cursor))
    ensures c.bad ==> r.1.bad
  {
    var (present, c1) := FlagAt(b, c);
    if present then
      var (v, c2) := ReadNum(b, c1, k);
      (Some(v), c2)
    else (None, c1)
  }

  function SignedOf(v: nat): int
  {
    if v < TWO63 then v else v - TWO64
  }

  function TimestampAt(b: seq<byte>, c: Cursor): (r: (Timestamp, Cursor))
    ensures c.bad ==> r.1.bad
  {
    var (ns, c1) := ReadNum(b, c, 8);
    var (valid, c2) := FlagAt(b, c1);
    (Timestamp(SignedOf(ns), valid), c2)
  }

  function EvidenceAt(b: seq<byte>, c: Cursor): (r: (Evidence, Cursor))
    ensures c.bad ==> r.1.bad
  {
    var (e, c1) := ReadNum(b, c, 1);
    var (p, c2) := ReadNum(b, c1, 4);
    var (source, c3) := TextAt(b, c2);
    var (note, c4) := TextAt(b, c3);
    (Evidence(EvidenceClassOf(e), p, source, note), c4)
  }

  function CapabilityAt(b: seq<byte>, c: Cursor): (r: (Capability, Cursor))
    ensures c.bad ==> r.1.bad
  {
    var (interconnect, c1) := ReadNum(b, c, 1);
    var (linkCount, c2) := ReadNum(b, c1, 4);
    var (laneWidth, c3) := ReadNum(b, c2, 4);
    var (bandwidth, c4) := ReadNum(b, c3, 8);
    var (peer, c5) := FlagAt(b, c4);
    var (support, c6) := ReadNum(b, c5, 1);
    var (counters, c7) := ReadNum(b, c6, 4);
    var (telemetry, c8) := FlagAt(b, c7);
    (Capability(TechnologyOf(interconnect), linkCount, laneWidth, bandwidth, peer, SupportOf(support), counters,
                telemetry), c8)
  }

  datatype DeviceIdentity = DeviceIdentity(
    id: nat, logicalName: Text, kind: NodeKind, backend: Text, backendInstance: Text, pciIdentity: Text)

  function DeviceIdentityAt(b: seq<byte>, c: Cursor): (r: (DeviceIdentity, Cursor))
    ensures c.bad ==> r.1.bad
  {
    var (id, c1) := ReadNum(b, c, 8);
    var (name, c2) := TextAt(b, c1);
    var (kind, c3) := ReadNum(b, c2, 1);
    var (backend, c4) := TextAt(b, c3);
    var (instance, c5) := TextAt(b, c4);
    var (pci, c6) := TextAt(b, c5);
    (DeviceIdentity(id, name, NodeKindOf(kind), backend, instance, pci), c6)
  }

  datatype DeviceModel = DeviceModel(cudaOrdinal: Option<nat>, vendor: Text, architecture: Text, generation: Text)

  function DeviceModelAt(b: seq<byte>, c: Cursor): (r: (DeviceModel, Cursor))
    ensures c.bad ==> r.1.bad
  {
    var (ordinal, c1) := OptionAt(b, c, 4);
    var (vendor, c2) := TextAt(b, c1);
    var (architecture, c3) := TextAt(b, c2);
    var (generation, c4) := TextAt(b, c3);
    (DeviceModel(ordinal, vendor, architecture, generation), c4)
  }

  datatype DeviceStatus = DeviceStatus(
    capability: Capability, health: DeviceHealth, evidence: Evidence, generation: nat,
    ownerWorker: Option<nat>, ownerBoot: Option<nat>)

  function DeviceStatusAt(b: seq<byte>, c: Cursor): (r: (DeviceStatus, Cursor))
    ensures c.bad ==> r.1.bad
  {
    var (capability, c1) := CapabilityAt(b, c);
    var (health, c2) := ReadNum(b, c1, 1);
    var (evidence, c3) := EvidenceAt(b, c2);
    var (generation, c4) := ReadNum(b, c3, 8);
    var (worker, c5) := OptionAt(b, c4, 8);
    var (boot, c6) := OptionAt(b, c5, 8);
    (DeviceStatus(capability, HealthOf(health), evidence, generation, worker, boot), c6)
  }

  function AssembleDevice(i: DeviceIdentity, m: DeviceModel, s: DeviceStatus): DeviceRecord
  {
    DeviceRecord(i.id, i.logicalName, i.kind, i.backend, i.backendInstance, i.pciIdentity, m.cudaOrdinal, m.vendor,
                 m.architecture, m.generation, s.capability, s.health, s.evidence, s.generation, s.ownerWorker,
                 s.ownerBoot)
  }

  function DeviceAt(b: seq<byte>, c: Cursor): (r: (DeviceRecord, Cursor))
    ensures c.bad ==> r.1.bad
  {
    var (i, c1) := DeviceIdentityAt(b, c);
    var (m, c2) := DeviceModelAt(b, c1);
    var (s, c3) := DeviceStatusAt(b, c2);
    (AssembleDevice(i, m, s), c3)
  }

  datatype LinkIdentity = LinkIdentity(
    id: nat, source: nat, target: nat, directed: bool, physicalIdentifier: Text, state: LinkState,
    technology: Technology)

  function LinkIdentityAt(b: seq<byte>, c: Cursor): (r: (LinkIdentity, Cursor))
    ensures c.bad ==> r.1.bad
  {
    var (id, c1) := ReadNum(b, c, 8);
    var (source, c2) := ReadNum(b, c1, 8);
    var (target, c3) := ReadNum(b, c2, 8);
    var (directed, c4) := FlagAt(b, c3);
    var (physical, c5) := TextAt(b, c4);
    var (state, c6) := ReadNum(b, c5, 1);
    var (technology, c7) := ReadNum(b, c6, 1);
    (LinkIdentity(id, source, target, directed, physical, LinkStateOf(state), TechnologyOf(technology)), c7)
  }

  datatype LinkStatus = LinkStatus(
    capability: Capability, generation: nat, evidence: Evidence, lastObservation: Timestamp,
    measurementSupported: bool, degraded: bool, degradationNote: Text, topologyGeneration: nat)

  function LinkStatusAt(b: seq<byte>, c: Cursor): (r: (LinkStatus, Cursor))
    ensures c.bad ==> r.1.bad
  {
    var (capability, c1) := CapabilityAt(b, c);
    var (generation, c2) := ReadNum(b, c1, 8);
    var (evidence, c3) := EvidenceAt(b, c2);
    var (observed, c4) := TimestampAt(b, c3);
    var (measurable, c5) := FlagAt(b, c4);
    var (degraded, c6) := FlagAt(b, c5);
    var (note, c7) := TextAt(b, c6);
    var (topology, c8) := ReadNum(b, c7, 8);
    (LinkStatus(capability, generation, evidence, observed, measurable, degraded, note, topology), c8)
  }

  function AssembleLink(i: LinkIdentity, s: LinkStatus): LinkRecord
  {
    LinkRecord(i.id, i.source, i.target, i.directed, i.physicalIdentifier, i.state, i.technology, s.capability,
               s.generation, s.evidence, s.lastObservation, s.measurementSupported, s.degraded, s.degradationNote,
               s.topologyGeneration)
  }

  function LinkAt(b: seq<byte>, c: Cursor): (r: (LinkRecord, Cursor))
    ensures c.bad ==> r.1.bad
  {
    var (i, c1) := LinkIdentityAt(b, c);
    var (s, c2) := LinkStatusAt(b, c1);
    (AssembleLink(i, s), c2)
  }

  /** Records one after the other; None as soon as one of them is corrupt. */
  function DevicesAt(b: seq<byte>, c: Cursor, n: nat): Option<(seq<DeviceRecord>, Cursor)>
    decreases n
  {
    if n == 0 then Some(([], c))
    else
      var (d, c1) := DeviceAt(b, c);
      if c1.bad then None
      else
        match DevicesAt(b, c1, n - 1)
        case None => None
        case Some((ds, c2)) => Some(([d] + ds, c2))
  }

  function LinksAt(b: seq<byte>, c: Cursor, n: nat): Option<(seq<LinkRecord>, Cursor)>
    decreases n
  {
    if n == 0 then Some(([], c))
    else
      var (l, c1) := LinkAt(b, c);
      if c1.bad then None
      else
        match LinksAt(b, c1, n - 1)
        case None => None
        case Some((ls, c2)) => Some(([l] + ls, c2))
  }

  /** The payload from the cursor on: its state and where it ends. */
  function PayloadAt(b: seq<byte>, c: Cursor): Option<(DurableState, nat)>
  {
    var (topology, c1) := ReadNum(b, c, 8);
    var (saved, c2) := TimestampAt(b, c1);
    var (nd, c3) := ReadNum(b, c2, 4);
    if c3.bad || nd > DEFAULT_LIMITS.maxDevices then None
    else
      match DevicesAt(b, c3, nd)
      case None => None
      case Some((ds, c4)) =>
        var (nl, c5) := ReadNum(b, c4, 4);
        if c5.bad || nl > DEFAULT_LIMITS.maxLinks then None
        else
          match LinksAt(b, c5, nl)
          case None => None
          case Some((ls, c6)) => Some((DurableState(DURABLE_FORMAT, topology, ds, ls, saved), c6.pos))
  }

  function Deserialize(x: Serialized): Result<DurableState>
  {
    var b := x.bytes;
    if x.formatVersion != VERSION || |b| < HEADER + TRAILER then Err(IntegrityFailure)
    else
      var length := ValueOf(b[8..12]);
      if ValueOf(b[0..4]) != MAGIC || ValueOf(b[4..8]) != VERSION then Err(IntegrityFailure)
      else if HEADER + length > |b| then Err(IntegrityFailure)
      else
        match PayloadAt(b, Cursor(HEADER, false))
        case None => Err(IntegrityFailure)
        case Some((state, end)) =>
          if |b| != HEADER + length + TRAILER then Err(IntegrityFailure)
          else if ValueOf(b[HEADER + length..]) != Crc32(b[..HEADER + length]) then Err(IntegrityFailure)
          else if end != HEADER + length then Err(IntegrityFailure)
          else Ok(state)
  }

  // ---- The readers themselves ----

  method GetFlag(r: ByteReader) returns (v: bool)
    modifies r
    ensures (v, r.At()) == FlagAt(r.b, old(r.At()))
  {
    var n := r.Num(1);
    v := n != 0;
  }

  method GetText(r: ByteReader) returns (s: Text)
    modifies r
    ensures (s, r.At()) == TextAt(r.b, old(r.At()))
  {
    hide ValueOf;
    var n := r.Num(2);
    if r.bad || n > MAX_STRING || !(r.pos + n <= |r.b|) {
      r.bad := true;
      return [];
    }
    s := r.Take(n);
  }

  method GetOption(r: ByteReader, k: nat) returns (o: Option<nat>)
    modifies r
    ensures (o, r.At()) == OptionAt(r.b, old(r.At()), k)
  {
    hide ReadNum;
    o := None;
    var present := GetFlag(r);
    if present {
      var v := r.Num(k);
      o := Some(v);
    }
  }

  method GetTimestamp(r: ByteReader) returns (t: Timestamp)
    modifies r
    ensures (t, r.At()) == TimestampAt(r.b, old(r.At()))
  {
    hide ReadNum, FlagAt;
    var ns := r.Num(8);
    var valid := GetFlag(r);
    t := Timestamp(SignedOf(ns), valid);
  }

  method GetEvidence(r: ByteReader) returns (e: Evidence)
    modifies r
    ensures (e, r.At()) == EvidenceAt(r.b, old(r.At()))
  {
    hide ReadNum, TextAt, EvidenceClassOf;
    var code := r.Num(1);
    var provenance := r.Num(4);
    var source := GetText(r);
    var note := GetText(r);
    e := Evidence(EvidenceClassOf(code), provenance, source, note);
  }

  method GetCapability(r: ByteReader) returns (c: Capability)
    modifies r
    ensures (c, r.At()) == CapabilityAt(r.b, old(r.At()))
  {
    hide ReadNum, FlagAt, TechnologyOf, SupportOf;
    var interconnect := r.Num(1);
    var linkCount := r.Num(4);
    var laneWidth := r.Num(4);
    var bandwidth := r.Num(8);
    var peer := GetFlag(r);
    var support := r.Num(1);
    var counters := r.Num(4);
    var telemetry := GetFlag(r);
    c := Capability(TechnologyOf(interconnect), linkCount, laneWidth, bandwidth, peer, SupportOf(support), counters,
                    telemetry);
  }

  method GetDevice(r: ByteReader) returns (d: DeviceRecord)
    modifies r
    ensures (d, r.At()) == DeviceAt(r.b, old(r.At()))
  {
    hide ReadNum, TextAt, OptionAt, CapabilityAt, EvidenceAt, NodeKindOf, HealthOf;
    var id := r.Num(8);
    var name := GetText(r);
    var kind := r.Num(1);
    var backend := GetText(r);
    var instance := GetText(r);
    var pci := GetText(r);
    var i := DeviceIdentity(id, name, NodeKindOf(kind), backend, instance, pci);
    var ordinal := GetOption(r, 4);
    var vendor := GetText(r);
    var architecture := GetText(r);
    var generationName := GetText(r);
    var m := DeviceModel(ordinal, vendor, architecture, generationName);
    var capability := GetCapability(r);
    var health := r.Num(1);
    var evidence := GetEvidence(r);
    var generation := r.Num(8);
    var worker := GetOption(r, 8);
    var boot := GetOption(r, 8);
    d := AssembleDevice(i, m, DeviceStatus(capability, HealthOf(health), evidence, generation, worker, boot));
  }

  method GetLink(r: ByteReader) returns (l: LinkRecord)
    modifies r
    ensures (l, r.At()) == LinkAt(r.b, old(r.At()))
  {
    hide ReadNum, FlagAt, TextAt, CapabilityAt, EvidenceAt, TimestampAt, LinkStateOf, TechnologyOf;
    var id := r.Num(8);
    var source := r.Num(8);
    var target := r.Num(8);
    var directed := GetFlag(r);
    var physical := GetText(r);
    var state := r.Num(1);
    var technology := r.Num(1);
    var i := LinkIdentity(id, source, target, directed, physical, LinkStateOf(state), TechnologyOf(technology));
    var capability := GetCapability(r);
    var generation := r.Num(8);
    var evidence := GetEvidence(r);
    var observed := GetTimestamp(r);
    var measurable := GetFlag(r);
    var degraded := GetFlag(r);
    var note := GetText(r);
    var topology := r.Num(8);
    l := AssembleLink(i, LinkStatus(capability, generation, evidence, observed, measurable, degraded, note, topology));
  }

  method GetDevices(r: ByteReader, n: nat) returns (ds: Option<seq<DeviceRecord>>)
    modifies r
    ensures match DevicesAt(r.b, old(r.At()), n)
            case None => ds == None
            case Some((xs, c)) => ds == Some(xs) && r.At() == c
  {
    hide DeviceAt;
    ghost var start := r.At();
    var got: seq<DeviceRecord> := [];
    assert forall xs: seq<DeviceRecord> :: got + xs == xs;
    for i := 0 to n
      invariant match DevicesAt(r.b, r.At(), n - i)
                case None => DevicesAt(r.b, start, n) == None
                case Some((xs, c)) => DevicesAt(r.b, start, n) == Some((got + xs, c))
    {
      var d := GetDevice(r);
      if r.bad {
        return None;
      }
      assert forall xs :: got + ([d] + xs) == (got + [d]) + xs;
      got := got + [d];
    }
    assert got + [] == got;
    ds := Some(got);
  }

  method GetLinks(r: ByteReader, n: nat) returns (ls: Option<seq<LinkRecord>>)
    modifies r
    ensures match LinksAt(r.b, old(r.At()), n)
            case None => ls == None
            case Some((xs, c)) => ls == Some(xs) && r.At() == c
  {
    hide LinkAt;
    ghost var start := r.At();
    var got: seq<LinkRecord> := [];
    assert forall xs: seq<LinkRecord> :: got + xs == xs;
    for i := 0 to n
      invariant match LinksAt(r.b, r.At(), n - i)
                case None => LinksAt(r.b, start, n) == None
                case Some((xs, c)) => LinksAt(r.b, start, n) == Some((got + xs, c))
    {
      var l := GetLink(r);
      if r.bad {
        return None;
      }
      assert forall xs :: got + ([l] + xs) == (got + [l]) + xs;
      got := got + [l];
    }
    assert got + [] == got;
    ls := Some(got);
  }

  method DeserializeDurableState(x: Serialized) returns (result: Result<DurableState>)
    ensures result == Deserialize(x)
  {
    hide ReadNum, TimestampAt, DevicesAt, LinksAt, ValueOf, Crc32;
    if x.formatVersion != VERSION {
      return Err(IntegrityFailure);
    }
    if |x.bytes| < HEADER + TRAILER {
      return Err(IntegrityFailure);
    }
    var r := new ByteReader(x.bytes);
    var magic, version, length := GetHeader(r);
    if magic != MAGIC {
      return Err(IntegrityFailure);
    }
    if version != VERSION {
      return Err(IntegrityFailure);
    }
    if !(r.pos + length <= |x.bytes|) {
      return Err(IntegrityFailure);
    }
    if !(r.pos + 4 <= |x.bytes|) {
      return Err(IntegrityFailure);
    }
    var topology := r.Num(8);
    var saved := GetTimestamp(r);
    var nd := r.Num(4);
    if r.bad || nd > DEFAULT_LIMITS.maxDevices {
      return Err(IntegrityFailure);
    }
    var devices := GetDevices(r, nd);
    if devices.None? {
      return Err(IntegrityFailure);
    }
    var nl := r.Num(4);
    if r.bad || nl > DEFAULT_LIMITS.maxLinks {
      return Err(IntegrityFailure);
    }
    var links := GetLinks(r, nl);
    if links.None? {
      return Err(IntegrityFailure);
    }
    var expected := ComputeCrc32(x.bytes[..HEADER + length]);
    var checksumAt := HEADER + length;
    if |x.bytes| < checksumAt + TRAILER {
      return Err(IntegrityFailure);
    }
    var stored := ValueOf(x.bytes[checksumAt..checksumAt + TRAILER]);
    if |x.bytes| != checksumAt + TRAILER {
      return Err(IntegrityFailure);
    }
    assert x.bytes[checksumAt..checksumAt + TRAILER] == x.bytes[checksumAt..];
    if stored != expected {
      return Err(IntegrityFailure);
    }
    if r.pos != checksumAt {
      return Err(IntegrityFailure);
    }
    result := Ok(DurableState(DURABLE_FORMAT, topology, devices.value, links.value, saved));
  }

  method GetHeader(r: ByteReader) returns (magic: nat, version: nat, length: nat)
    requires r.pos == 0 && !r.bad && |r.b| >= HEADER
    modifies r
    ensures r.At() == Cursor(HEADER, false)
    ensures magic == ValueOf(r.b[0..4]) && version == ValueOf(r.b[4..8]) && length == ValueOf(r.b[8..12])
  {
    hide ValueOf;
    magic := r.Num(4);
    version := r.Num(4);
    length := r.Num(4);
  }
}

/** What the durable form promises: round trips, its size, and the detection of damage. */
module DurableTheorems {
  import opened Bytes
  import opened Types
  import opened Checksum
  import opened Serialization
  import opened Deserialization

  // ---- Reading back what was written ----

  lemma FlagBack(b: seq<byte>, pos: nat, v: bool)
    requires Holds(b, pos, FlagBytes(v))
    ensures FlagAt(b, Cursor(pos, false)) == (v, Cursor(pos + 1, false))
  {
    hide Holds, LittleEndian, ValueOf;
    RadixValues();
    ReadNumBack(b, pos, if v then 1 else 0, 1);
  }

  /** A reader reports a written value, with the cursor behind it, or it fails. */
  ghost predicate BackOrBad<T>(r: (T, Cursor), v: T, end: nat)
  {
    r.1.bad || r == (v, Cursor(end, false))
  }

  lemma TextBack(b: seq<byte>, pos: nat, s: Text)
    requires TextWidth(s) && Holds(b, pos, TextBytes(s))
    ensures BackOrBad(TextAt(b, Cursor(pos, false)), s, pos + |TextBytes(s)|)
    ensures TextFits(s) ==> !TextAt(b, Cursor(pos, false)).1.bad
  {
    hide LittleEndian, ValueOf;
    RadixValues();
    HoldsBoth(b, pos, LittleEndian(|s|, 2), s);
    ReadNumBack(b, pos, |s|, 2);
  }

  lemma OptionBack(b: seq<byte>, pos: nat, o: Option<nat>, k: nat)
    requires OptionFits(o, k) && Holds(b, pos, OptionBytes(o, k))
    ensures OptionAt(b, Cursor(pos, false), k) == (o, Cursor(pos + |OptionBytes(o, k)|, false))
  {
    hide Holds, LittleEndian, ReadNum, FlagBytes, FlagAt;
    match o
    case None => FlagBack(b, pos, false);
    case Some(v) =>
      HoldsBoth(b, pos, FlagBytes(true), LittleEndian(v, k));
      FlagBack(b, pos, true);
      ReadNumBack(b, pos + 1, v, k);
  }

  lemma TimestampBack(b: seq<byte>, pos: nat, t: Timestamp)
    requires TimestampFits(t) && Holds(b, pos, TimestampBytes(t))
    ensures TimestampAt(b, Cursor(pos, false)) == (t, Cursor(pos + 9, false))
  {
    hide Holds, LittleEndian, ReadNum, FlagBytes, FlagAt;
    RadixValues();
    HoldsBoth(b, pos, LittleEndian(t.ns % TWO64, 8), FlagBytes(t.valid));
    ReadNumBack(b, pos, t.ns % TWO64, 8);
    FlagBack(b, pos + 8, t.valid);
    assert t.ns % TWO64 == if t.ns >= 0 then t.ns else t.ns + TWO64;
  }

  lemma EvidenceBack(b: seq<byte>, pos: nat, e: Evidence)
    requires EvidenceWidths(e) && Holds(b, pos, EvidenceBytes(e))
    ensures BackOrBad(EvidenceAt(b, Cursor(pos, false)), e, pos + |EvidenceBytes(e)|)
    ensures EvidenceFits(e) ==> !EvidenceAt(b, Cursor(pos, false)).1.bad
  {
    hide Holds, LittleEndian, ReadNum, TextBytes, TextAt, EvidenceClassCode, EvidenceClassOf, TextFits, TextWidth;
    RadixValues();
    var p2 := TextBytes(e.source) + TextBytes(e.note);
    var p1 := LittleEndian(e.provenance, 4) + p2;
    HoldsBoth(b, pos, LittleEndian(EvidenceClassCode(e.evidenceClass), 1), p1);
    HoldsBoth(b, pos + 1, LittleEndian(e.provenance, 4), p2);
    HoldsBoth(b, pos + 5, TextBytes(e.source), TextBytes(e.note));
    ReadNumBack(b, pos, EvidenceClassCode(e.evidenceClass), 1);
    ReadNumBack(b, pos + 1, e.provenance, 4);
    TextBack(b, pos + 5, e.source);
    TextBack(b, pos + 5 + |TextBytes(e.source)|, e.note);
  }

  lemma CapabilityBack(b: seq<byte>, pos: nat, c: Capability)
    requires CapabilityFits(c) && Holds(b, pos, CapabilityBytes(c))
    ensures CapabilityAt(b, Cursor(pos, false)) == (c, Cursor(pos + 24, false))
  {
    hide Holds, LittleEndian, ReadNum, FlagBytes, FlagAt, TechnologyCode, TechnologyOf, SupportCode, SupportOf;
    RadixValues();
    var p7 := LittleEndian(c.counters, 4) + FlagBytes(c.telemetry);
    var p6 := LittleEndian(SupportCode(c.measurementSupport), 1) + p7;
    var p5 := FlagBytes(c.peerAccess) + p6;
    var p4 := LittleEndian(c.nominalBandwidth, 8) + p5;
    var p3 := LittleEndian(c.laneWidth, 4) + p4;
    var p2 := LittleEndian(c.linkCount, 4) + p3;
    HoldsBoth(b, pos, LittleEndian(TechnologyCode(c.interconnect), 1), p2);
    HoldsBoth(b, pos + 1, LittleEndian(c.linkCount, 4), p3);
    HoldsBoth(b, pos + 5, LittleEndian(c.laneWidth, 4), p4);
    HoldsBoth(b, pos + 9, LittleEndian(c.nominalBandwidth, 8), p5);
    HoldsBoth(b, pos + 17, FlagBytes(c.peerAccess), p6);
    HoldsBoth(b, pos + 18, LittleEndian(SupportCode(c.measurementSupport), 1), p7);
    HoldsBoth(b, pos + 19, LittleEndian(c.counters, 4), FlagBytes(c.telemetry));
    ReadNumBack(b, pos, TechnologyCode(c.interconnect), 1);
    ReadNumBack(b, pos + 1, c.linkCount, 4);
    ReadNumBack(b, pos + 5, c.laneWidth, 4);
    ReadNumBack(b, pos + 9, c.nominalBandwidth, 8);
    FlagBack(b, pos + 17, c.peerAccess);
    ReadNumBack(b, pos + 18, SupportCode(c.measurementSupport), 1);
    ReadNumBack(b, pos + 19, c.counters, 4);
    FlagBack(b, pos + 23, c.telemetry);
  }

  lemma DeviceIdentityBack(b: seq<byte>, pos: nat, d: DeviceRecord)
    requires DeviceWidths(d) && Holds(b, pos, DeviceIdentityBytes(d))
    ensures BackOrBad(DeviceIdentityAt(b, Cursor(pos, false)),
                      DeviceIdentity(d.id, d.logicalName, d.kind, d.backend, d.backendInstance, d.pciIdentity),
                      pos + |DeviceIdentityBytes(d)|)
    ensures DeviceFits(d) ==> !DeviceIdentityAt(b, Cursor(pos, false)).1.bad
  {
    hide Holds, LittleEndian, ReadNum, TextBytes, TextAt, TextFits, TextWidth, NodeKindCode, NodeKindOf,
         CapabilityFits, EvidenceFits, EvidenceWidths, HealthCode, HealthOf, OptionFits;
    RadixValues();
    var p5 := TextBytes(d.backendInstance) + TextBytes(d.pciIdentity);
    var p4 := TextBytes(d.backend) + p5;
    var p3 := LittleEndian(NodeKindCode(d.kind), 1) + p4;
    var p2 := TextBytes(d.logicalName) + p3;
    var at3 := pos + 8 + |TextBytes(d.logicalName)|;
    var at5 := at3 + 1 + |TextBytes(d.backend)|;
    HoldsBoth(b, pos, LittleEndian(d.id, 8), p2);
    HoldsBoth(b, pos + 8, TextBytes(d.logicalName), p3);
    HoldsBoth(b, at3, LittleEndian(NodeKindCode(d.kind), 1), p4);
    HoldsBoth(b, at3 + 1, TextBytes(d.backend), p5);
    HoldsBoth(b, at5, TextBytes(d.backendInstance), TextBytes(d.pciIdentity));
    ReadNumBack(b, pos, d.id, 8);
    TextBack(b, pos + 8, d.logicalName);
    ReadNumBack(b, at3, NodeKindCode(d.kind), 1);
    TextBack(b, at3 + 1, d.backend);
    TextBack(b, at5, d.backendInstance);
    TextBack(b, at5 + |TextBytes(d.backendInstance)|, d.pciIdentity);
  }

  lemma DeviceModelBack(b: seq<byte>, pos: nat, d: DeviceRecord)
    requires DeviceWidths(d) && Holds(b, pos, DeviceModelBytes(d))
    ensures BackOrBad(DeviceModelAt(b, Cursor(pos, false)),
                      DeviceModel(d.cudaOrdinal, d.vendor, d.architecture, d.deviceGeneration),
                      pos + |DeviceModelBytes(d)|)
    ensures DeviceFits(d) ==> !DeviceModelAt(b, Cursor(pos, false)).1.bad
  {
    hide Holds, OptionBytes, OptionAt, TextBytes, TextAt, TextFits, TextWidth, NodeKindCode, NodeKindOf,
         CapabilityFits, EvidenceFits, EvidenceWidths, HealthCode, HealthOf, OptionFits;
    var p3 := TextBytes(d.architecture) + TextBytes(d.deviceGeneration);
    var p2 := TextBytes(d.vendor) + p3;
    var at2 := pos + |OptionBytes(d.cudaOrdinal, 4)|;
    var at3 := at2 + |TextBytes(d.vendor)|;
    HoldsBoth(b, pos, OptionBytes(d.cudaOrdinal, 4), p2);
    HoldsBoth(b, at2, TextBytes(d.vendor), p3);
    HoldsBoth(b, at3, TextBytes(d.architecture), TextBytes(d.deviceGeneration));
    OptionBack(b, pos, d.cudaOrdinal, 4);
    TextBack(b, at2, d.vendor);
    TextBack(b, at3, d.architecture);
    TextBack(b, at3 + |TextBytes(d.architecture)|, d.deviceGeneration);
  }

  lemma DeviceStatusBack(b: seq<byte>, pos: nat, d: DeviceRecord)
    requires DeviceWidths(d) && Holds(b, pos, DeviceStatusBytes(d))
    ensures BackOrBad(DeviceStatusAt(b, Cursor(pos, false)),
                      DeviceStatus(d.capability, d.health, d.evidence, d.generation, d.ownerWorker, d.ownerBoot),
                      pos + |DeviceStatusBytes(d)|)
    ensures DeviceFits(d) ==> !DeviceStatusAt(b, Cursor(pos, false)).1.bad
  {
    hide Holds, LittleEndian, ReadNum, OptionBytes, OptionAt, CapabilityBytes, CapabilityAt, EvidenceBytes,
         EvidenceAt, CapabilityFits, EvidenceFits, EvidenceWidths, TextFits, TextWidth, NodeKindCode, NodeKindOf,
         HealthCode, HealthOf, OptionFits;
    RadixValues();
    var p5 := OptionBytes(d.ownerWorker, 8) + OptionBytes(d.ownerBoot, 8);
    var p4 := LittleEndian(d.generation, 8) + p5;
    var p3 := EvidenceBytes(d.evidence) + p4;
    var p2 := LittleEndian(HealthCode(d.health), 1) + p3;
    var at4 := pos + 25 + |EvidenceBytes(d.evidence)|;
    HoldsBoth(b, pos, CapabilityBytes(d.capability), p2);
    HoldsBoth(b, pos + 24, LittleEndian(HealthCode(d.health), 1), p3);
    HoldsBoth(b, pos + 25, EvidenceBytes(d.evidence), p4);
    HoldsBoth(b, at4, LittleEndian(d.generation, 8), p5);
    HoldsBoth(b, at4 + 8, OptionBytes(d.ownerWorker, 8), OptionBytes(d.ownerBoot, 8));
    CapabilityBack(b, pos, d.capability);
    ReadNumBack(b, pos + 24, HealthCode(d.health), 1);
    EvidenceBack(b, pos + 25, d.evidence);
    ReadNumBack(b, at4, d.generation, 8);
    OptionBack(b, at4 + 8, d.ownerWorker, 8);
    OptionBack(b, at4 + 8 + |OptionBytes(d.ownerWorker, 8)|, d.ownerBoot, 8);
  }

  lemma DeviceBack(b: seq<byte>, pos: nat, d: DeviceRecord)
    requires DeviceWidths(d) && Holds(b, pos, DeviceBytes(d))
    ensures BackOrBad(DeviceAt(b, Cursor(pos, false)), d, pos + |DeviceBytes(d)|)
    ensures DeviceFits(d) ==> !DeviceAt(b, Cursor(pos, false)).1.bad
  {
    hide Holds, DeviceIdentityBytes, DeviceModelBytes, DeviceStatusBytes, DeviceIdentityAt, DeviceModelAt,
         DeviceStatusAt, DeviceFits, DeviceWidths;
    var p2 := DeviceModelBytes(d) + DeviceStatusBytes(d);
    var at2 := pos + |DeviceIdentityBytes(d)|;
    HoldsBoth(b, pos, DeviceIdentityBytes(d), p2);
    HoldsBoth(b, at2, DeviceModelBytes(d), DeviceStatusBytes(d));
    DeviceIdentityBack(b, pos, d);
    DeviceModelBack(b, at2, d);
    DeviceStatusBack(b, at2 + |DeviceModelBytes(d)|, d);
  }

  lemma LinkIdentityBack(b: seq<byte>, pos: nat, l: LinkRecord)
    requires LinkWidths(l) && Holds(b, pos, LinkIdentityBytes(l))
    ensures BackOrBad(LinkIdentityAt(b, Cursor(pos, false)),
                      LinkIdentity(l.id, l.source, l.target, l.directed, l.physicalIdentifier, l.state, l.technology),
                      pos + |LinkIdentityBytes(l)|)
    ensures LinkFits(l) ==> !LinkIdentityAt(b, Cursor(pos, false)).1.bad
  {
    hide Holds, LittleEndian, ReadNum, TextBytes, TextAt, FlagBytes, FlagAt, TextFits, TextWidth, LinkStateCode,
         LinkStateOf, TechnologyCode, TechnologyOf, CapabilityFits, EvidenceFits, EvidenceWidths, TimestampFits;
    RadixValues();
    var p6 := LittleEndian(LinkStateCode(l.state), 1) + LittleEndian(TechnologyCode(l.technology), 1);
    var p5 := TextBytes(l.physicalIdentifier) + p6;
    var p4 := FlagBytes(l.directed) + p5;
    var p3 := LittleEndian(l.target, 8) + p4;
    var p2 := LittleEndian(l.source, 8) + p3;
    var at6 := pos + 25 + |TextBytes(l.physicalIdentifier)|;
    HoldsBoth(b, pos, LittleEndian(l.id, 8), p2);
    HoldsBoth(b, pos + 8, LittleEndian(l.source, 8), p3);
    HoldsBoth(b, pos + 16, LittleEndian(l.target, 8), p4);
    HoldsBoth(b, pos + 24, FlagBytes(l.directed), p5);
    HoldsBoth(b, pos + 25, TextBytes(l.physicalIdentifier), p6);
    HoldsBoth(b, at6, LittleEndian(LinkStateCode(l.state), 1), LittleEndian(TechnologyCode(l.technology), 1));
    ReadNumBack(b, pos, l.id, 8);
    ReadNumBack(b, pos + 8, l.source, 8);
    ReadNumBack(b, pos + 16, l.target, 8);
    FlagBack(b, pos + 24, l.directed);
    TextBack(b, pos + 25, l.physicalIdentifier);
    ReadNumBack(b, at6, LinkStateCode(l.state), 1);
    ReadNumBack(b, at6 + 1, TechnologyCode(l.technology), 1);
  }

  lemma LinkStatusBack(b: seq<byte>, pos: nat, l: LinkRecord)
    requires LinkWidths(l) && Holds(b, pos, LinkStatusBytes(l))
    ensures BackOrBad(LinkStatusAt(b, Cursor(pos, false)),
                      LinkStatus(l.capability, l.generation, l.evidence, l.lastObservation, l.measurementSupported,
                                 l.degraded, l.degradationNote, l.topologyGeneration),
                      pos + |LinkStatusBytes(l)|)
    ensures LinkFits(l) ==> !LinkStatusAt(b, Cursor(pos, false)).1.bad
  {
    hide Holds, LittleEndian, ReadNum, TextBytes, TextAt, FlagBytes, FlagAt, CapabilityBytes, CapabilityAt,
         EvidenceBytes, EvidenceAt, TimestampBytes, TimestampAt, TextFits, TextWidth, LinkStateCode, LinkStateOf,
         TechnologyCode, TechnologyOf, CapabilityFits, EvidenceFits, EvidenceWidths, TimestampFits;
    RadixValues();
    var p7 := TextBytes(l.degradationNote) + LittleEndian(l.topologyGeneration, 8);
    var p6 := FlagBytes(l.degraded) + p7;
    var p5 := FlagBytes(l.measurementSupported) + p6;
    var p4 := TimestampBytes(l.lastObservation) + p5;
    var p3 := EvidenceBytes(l.evidence) + p4;
    var p2 := LittleEndian(l.generation, 8) + p3;
    var at4 := pos + 32 + |EvidenceBytes(l.evidence)|;
    HoldsBoth(b, pos, CapabilityBytes(l.capability), p2);
    HoldsBoth(b, pos + 24, LittleEndian(l.generation, 8), p3);
    HoldsBoth(b, pos + 32, EvidenceBytes(l.evidence), p4);
    HoldsBoth(b, at4, TimestampBytes(l.lastObservation), p5);
    HoldsBoth(b, at4 + 9, FlagBytes(l.measurementSupported), p6);
    HoldsBoth(b, at4 + 10, FlagBytes(l.degraded), p7);
    HoldsBoth(b, at4 + 11, TextBytes(l.degradationNote), LittleEndian(l.topologyGeneration, 8));
    CapabilityBack(b, pos, l.capability);
    ReadNumBack(b, pos + 24, l.generation, 8);
    EvidenceBack(b, pos + 32, l.evidence);
    TimestampBack(b, at4, l.lastObservation);
    FlagBack(b, at4 + 9, l.measurementSupported);
    FlagBack(b, at4 + 10, l.degraded);
    TextBack(b, at4 + 11, l.degradationNote);
    ReadNumBack(b, at4 + 11 + |TextBytes(l.degradationNote)|, l.topologyGeneration, 8);
  }

  lemma LinkBack(b: seq<byte>, pos: nat, l: LinkRecord)
    requires LinkWidths(l) && Holds(b, pos, LinkBytes(l))
    ensures BackOrBad(LinkAt(b, Cursor(pos, false)), l, pos + |LinkBytes(l)|)
    ensures LinkFits(l) ==> !LinkAt(b, Cursor(pos, false)).1.bad
  {
    hide Holds, LinkIdentityBytes, LinkStatusBytes, LinkIdentityAt, LinkStatusAt, LinkFits, LinkWidths;
    HoldsBoth(b, pos, LinkIdentityBytes(l), LinkStatusBytes(l));
    LinkIdentityBack(b, pos, l);
    LinkStatusBack(b, pos + |LinkIdentityBytes(l)|, l);
  }

  lemma {:induction false} DevicesBack(b: seq<byte>, pos: nat, ds: seq<DeviceRecord>)
    requires forall i :: 0 <= i < |ds| ==> DeviceWidths(ds[i])
    requires Holds(b, pos, DevicesBytes(ds))
    ensures var r := DevicesAt(b, Cursor(pos, false), |ds|);
            (r.Some? ==> r.value == (ds, Cursor(pos + |DevicesBytes(ds)|, false))) &&
            ((forall i :: 0 <= i < |ds| ==> DeviceFits(ds[i])) ==> r.Some?)
    decreases ds
  {
    hide DeviceBytes, DeviceAt, DeviceFits, DeviceWidths;
    if ds != [] {
      HoldsBoth(b, pos, DeviceBytes(ds[0]), DevicesBytes(ds[1..]));
      DeviceBack(b, pos, ds[0]);
      DevicesBack(b, pos + |DeviceBytes(ds[0])|, ds[1..]);
      assert [ds[0]] + ds[1..] == ds;
    }
  }

  lemma {:induction false} LinksBack(b: seq<byte>, pos: nat, ls: seq<LinkRecord>)
    requires forall i :: 0 <= i < |ls| ==> LinkWidths(ls[i])
    requires Holds(b, pos, LinksBytes(ls))
    ensures var r := LinksAt(b, Cursor(pos, false), |ls|);
            (r.Some? ==> r.value == (ls, Cursor(pos + |LinksBytes(ls)|, false))) &&
            ((forall i :: 0 <= i < |ls| ==> LinkFits(ls[i])) ==> r.Some?)
    decreases ls
  {
    hide LinkBytes, LinkAt, LinkFits, LinkWidths;
    if ls != [] {
      HoldsBoth(b, pos, LinkBytes(ls[0]), LinksBytes(ls[1..]));
      LinkBack(b, pos, ls[0]);
      LinksBack(b, pos + |LinkBytes(ls[0])|, ls[1..]);
      assert [ls[0]] + ls[1..] == ls;
    }
  }

  lemma FitsWidths(s: DurableState)
    requires DurableFits(s)
    ensures DurableWidths(s)
  {
    hide CapabilityFits, OptionFits, TimestampFits, EvidenceClassCode, EvidenceClassOf, NodeKindCode, NodeKindOf,
         HealthCode, HealthOf, LinkStateCode, LinkStateOf, TechnologyCode, TechnologyOf, Radix;
    RadixValues();
  }

  /** The payload of a state within the field widths reads back as that state, or not at all. */
  lemma PayloadBack(b: seq<byte>, pos: nat, s: DurableState)
    requires DurableWidths(s) && Holds(b, pos, Payload(s))
    ensures var r := PayloadAt(b, Cursor(pos, false));
            (r.Some? ==> r.value == (s, pos + |Payload(s)|)) && (DurableFits(s) ==> r.Some?)
  {
    hide Holds, LittleEndian, ReadNum, TimestampBytes, TimestampAt, DevicesBytes, DevicesAt, LinksBytes, LinksAt,
         DeviceFits, LinkFits, TimestampFits, DeviceWidths, LinkWidths;
    RadixValues();
    var p5 := LittleEndian(|s.links|, 4) + LinksBytes(s.links);
    var p4 := DevicesBytes(s.devices) + p5;
    var p3 := LittleEndian(|s.devices|, 4) + p4;
    var p2 := TimestampBytes(s.savedAt) + p3;
    var at5 := pos + 21 + |DevicesBytes(s.devices)|;
    HoldsBoth(b, pos, LittleEndian(s.topologyGeneration, 8), p2);
    HoldsBoth(b, pos + 8, TimestampBytes(s.savedAt), p3);
    HoldsBoth(b, pos + 17, LittleEndian(|s.devices|, 4), p4);
    HoldsBoth(b, pos + 21, DevicesBytes(s.devices), p5);
    HoldsBoth(b, at5, LittleEndian(|s.links|, 4), LinksBytes(s.links));
    ReadNumBack(b, pos, s.topologyGeneration, 8);
    TimestampBack(b, pos + 8, s.savedAt);
    ReadNumBack(b, pos + 17, |s.devices|, 4);
    DevicesBack(b, pos + 21, s.devices);
    ReadNumBack(b, at5, |s.links|, 4);
    LinksBack(b, at5 + 4, s.links);
  }

  // ---- Size ----

  lemma {:induction false} DevicesSize(ds: seq<DeviceRecord>)
    requires forall i :: 0 <= i < |ds| ==> DeviceFits(ds[i])
    ensures |DevicesBytes(ds)| <= 36952 * |ds|
  {
    if ds != [] {
      DevicesSize(ds[1..]);
      assert |DeviceBytes(ds[0])| <= 36952 by {
        hide DeviceIdentityBytes, DeviceModelBytes, DeviceStatusBytes;
        var d := ds[0];
        assert TextFits(d.logicalName) && TextFits(d.backend) && TextFits(d.backendInstance) && TextFits(d.pciIdentity);
        assert TextFits(d.vendor) && TextFits(d.architecture) && TextFits(d.deviceGeneration);
        assert TextFits(d.evidence.source) && TextFits(d.evidence.note);
      }
    }
  }

  lemma {:induction false} LinksSize(ls: seq<LinkRecord>)
    requires forall i :: 0 <= i < |ls| ==> LinkFits(ls[i])
    ensures |LinksBytes(ls)| <= 16475 * |ls|
  {
    if ls != [] {
      LinksSize(ls[1..]);
      assert |LinkBytes(ls[0])| <= 16475 by {
        hide LinkIdentityBytes, LinkStatusBytes;
        var l := ls[0];
        assert TextFits(l.physicalIdentifier) && TextFits(l.degradationNote);
        assert TextFits(l.evidence.source) && TextFits(l.evidence.note);
      }
    }
  }

  /** Every state that can be read back fits in the 64 MiB bound on persisted state. */
  lemma FrameSize(s: DurableState)
    requires DurableFits(s)
    ensures |Serialize(s).bytes| == HEADER + |Payload(s)| + TRAILER < 64 * 1024 * 1024
  {
    hide Crc32, LittleEndian, DevicesBytes, LinksBytes, TimestampBytes;
    DevicesSize(s.devices);
    LinksSize(s.links);
  }

  // ---- What can be read is what the format can carry ----

  lemma TextAtFits(b: seq<byte>, c: Cursor)
    ensures TextFits(TextAt(b, c).0) && (c.bad ==> TextAt(b, c).1.bad)
  {
    hide ValueOf;
  }

  lemma OptionAtFits(b: seq<byte>, c: Cursor, k: nat)
    ensures OptionFits(OptionAt(b, c, k).0, k) && (c.bad ==> OptionAt(b, c, k).1.bad)
  {
    ReadNumFits(b, FlagAt(b, c).1, k);
  }

  lemma CodesFit(b: seq<byte>, c: Cursor)
    ensures var v := ReadNum(b, c, 1).0;
            v < 256 && EvidenceClassCode(EvidenceClassOf(v)) == v && TechnologyCode(TechnologyOf(v)) == v &&
            NodeKindCode(NodeKindOf(v)) == v && SupportCode(SupportOf(v)) == v && HealthCode(HealthOf(v)) == v &&
            LinkStateCode(LinkStateOf(v)) == v
  {
    ReadNumFits(b, c, 1);
    RadixValues();
    CodesBack(ReadNum(b, c, 1).0);
  }

  lemma CodesBack(v: nat)
    ensures EvidenceClassCode(EvidenceClassOf(v)) == v && TechnologyCode(TechnologyOf(v)) == v
    ensures NodeKindCode(NodeKindOf(v)) == v && SupportCode(SupportOf(v)) == v
    ensures HealthCode(HealthOf(v)) == v && LinkStateCode(LinkStateOf(v)) == v
  {
    assert v < 3 ==> v == 0 || v == 1 || v == 2;
    assert v < 12 ==> v < 3 || v == 3 || v == 4 || v == 5 || v == 6 || v == 7 || v == 8 || v == 9 || v == 10 || v == 11;
  }

  lemma TimestampAtFits(b: seq<byte>, c: Cursor)
    ensures TimestampFits(TimestampAt(b, c).0)
  {
    ReadNumFits(b, c, 8);
    RadixValues();
  }

  lemma EvidenceAtFits(b: seq<byte>, c: Cursor)
    ensures EvidenceFits(EvidenceAt(b, c).0)
  {
    hide ReadNum, TextAt, EvidenceClassOf, EvidenceClassCode, TextFits;
    var c1 := ReadNum(b, c, 1).1;
    var c2 := ReadNum(b, c1, 4).1;
    CodesFit(b, c);
    ReadNumFits(b, c1, 4);
    TextAtFits(b, c2);
    TextAtFits(b, TextAt(b, c2).1);
  }

  lemma CapabilityAtFits(b: seq<byte>, c: Cursor)
    ensures CapabilityFits(CapabilityAt(b, c).0)
  {
    hide ReadNum, FlagAt, TechnologyOf, TechnologyCode, SupportOf, SupportCode;
    var c1 := ReadNum(b, c, 1).1;
    var c2 := ReadNum(b, c1, 4).1;
    var c3 := ReadNum(b, c2, 4).1;
    var c4 := ReadNum(b, c3, 8).1;
    var c5 := FlagAt(b, c4).1;
    var c6 := ReadNum(b, c5, 1).1;
    CodesFit(b, c);
    ReadNumFits(b, c1, 4);
    ReadNumFits(b, c2, 4);
    ReadNumFits(b, c3, 8);
    CodesFit(b, c5);
    ReadNumFits(b, c6, 4);
  }

  lemma DeviceAtFits(b: seq<byte>, c: Cursor)
    ensures DeviceFits(DeviceAt(b, c).0)
  {
    hide ReadNum, TextAt, OptionAt, CapabilityAt, EvidenceAt, NodeKindOf, NodeKindCode, HealthOf, HealthCode,
         CapabilityFits, EvidenceFits, EvidenceWidths, TextFits, OptionFits;
    var i1 := ReadNum(b, c, 8).1;
    var i2 := TextAt(b, i1).1;
    var i3 := ReadNum(b, i2, 1).1;
    var i4 := TextAt(b, i3).1;
    var i5 := TextAt(b, i4).1;
    var i6 := TextAt(b, i5).1;
    ReadNumFits(b, c, 8);
    TextAtFits(b, i1);
    CodesFit(b, i2);
    TextAtFits(b, i3);
    TextAtFits(b, i4);
    TextAtFits(b, i5);
    var m1 := OptionAt(b, i6, 4).1;
    var m2 := TextAt(b, m1).1;
    var m3 := TextAt(b, m2).1;
    var m4 := TextAt(b, m3).1;
    OptionAtFits(b, i6, 4);
    TextAtFits(b, m1);
    TextAtFits(b, m2);
    TextAtFits(b, m3);
    var s1 := CapabilityAt(b, m4).1;
    var s2 := ReadNum(b, s1, 1).1;
    var s3 := EvidenceAt(b, s2).1;
    var s4 := ReadNum(b, s3, 8).1;
    var s5 := OptionAt(b, s4, 8).1;
    CapabilityAtFits(b, m4);
    CodesFit(b, s1);
    EvidenceAtFits(b, s2);
    ReadNumFits(b, s3, 8);
    OptionAtFits(b, s4, 8);
    OptionAtFits(b, s5, 8);
  }

  lemma LinkAtFits(b: seq<byte>, c: Cursor)
    ensures LinkFits(LinkAt(b, c).0)
  {
    hide ReadNum, FlagAt, TextAt, CapabilityAt, EvidenceAt, TimestampAt, LinkStateOf, LinkStateCode, TechnologyOf,
         TechnologyCode, CapabilityFits, EvidenceFits, EvidenceWidths, TextFits, TimestampFits;
    var i1 := ReadNum(b, c, 8).1;
    var i2 := ReadNum(b, i1, 8).1;
    var i3 := ReadNum(b, i2, 8).1;
    var i4 := FlagAt(b, i3).1;
    var i5 := TextAt(b, i4).1;
    var i6 := ReadNum(b, i5, 1).1;
    var i7 := ReadNum(b, i6, 1).1;
    ReadNumFits(b, c, 8);
    ReadNumFits(b, i1, 8);
    ReadNumFits(b, i2, 8);
    TextAtFits(b, i4);
    CodesFit(b, i5);
    CodesFit(b, i6);
    var s1 := CapabilityAt(b, i7).1;
    var s2 := ReadNum(b, s1, 8).1;
    var s3 := EvidenceAt(b, s2).1;
    var s4 := TimestampAt(b, s3).1;
    var s5 := FlagAt(b, s4).1;
    var s6 := FlagAt(b, s5).1;
    var s7 := TextAt(b, s6).1;
    CapabilityAtFits(b, i7);
    ReadNumFits(b, s1, 8);
    EvidenceAtFits(b, s2);
    TimestampAtFits(b, s3);
    TextAtFits(b, s6);
    ReadNumFits(b, s7, 8);
  }

  lemma {:induction false} DevicesAtFit(b: seq<byte>, c: Cursor, n: nat)
    requires DevicesAt(b, c, n).Some?
    ensures var ds := DevicesAt(b, c, n).value.0; |ds| == n && forall i :: 0 <= i < n ==> DeviceFits(ds[i])
    decreases n
  {
    hide DeviceAt, DeviceFits;
    if n > 0 {
      DeviceAtFits(b, c);
      DevicesAtFit(b, DeviceAt(b, c).1, n - 1);
    }
  }

  lemma {:induction false} LinksAtFit(b: seq<byte>, c: Cursor, n: nat)
    requires LinksAt(b, c, n).Some?
    ensures var ls := LinksAt(b, c, n).value.0; |ls| == n && forall i :: 0 <= i < n ==> LinkFits(ls[i])
    decreases n
  {
    hide LinkAt, LinkFits;
    if n > 0 {
      LinkAtFits(b, c);
      LinksAtFit(b, LinkAt(b, c).1, n - 1);
    }
  }

  lemma PayloadAtFits(b: seq<byte>, c: Cursor)
    requires PayloadAt(b, c).Some?
    ensures DurableFits(PayloadAt(b, c).value.0)
  {
    hide ReadNum, TimestampAt, DevicesAt, LinksAt, DeviceFits, LinkFits, TimestampFits;
    var c1 := ReadNum(b, c, 8).1;
    var c2 := TimestampAt(b, c1).1;
    var (nd, c3) := ReadNum(b, c2, 4);
    ReadNumFits(b, c, 8);
    TimestampAtFits(b, c1);
    DevicesAtFit(b, c3, nd);
    var c4 := DevicesAt(b, c3, nd).value.1;
    var (nl, c5) := ReadNum(b, c4, 4);
    LinksAtFit(b, c5, nl);
  }

  // ---- The main results ----

  lemma RoundTrip(s: DurableState)
    requires DurableFits(s)
    ensures Deserialize(Serialize(s)) == Ok(s)
  {
    hide Crc32, LittleEndian, ValueOf, Payload, PayloadAt, DurableFits, DurableWidths;
    RadixValues();
    FrameSize(s);
    var b := Serialize(s).bytes;
    var body := Sealable(s);
    var n := |Payload(s)|;
    var p2 := LittleEndian(n, 4) + Payload(s);
    var p1 := LittleEndian(VERSION, 4) + p2;
    assert b[..|body|] == body && Holds(b, 0, body);
    HoldsBoth(b, 0, LittleEndian(MAGIC, 4), p1);
    HoldsBoth(b, 4, LittleEndian(VERSION, 4), p2);
    HoldsBoth(b, 8, LittleEndian(n, 4), Payload(s));
    ValueOfLittleEndian(MAGIC, 4);
    ValueOfLittleEndian(VERSION, 4);
    ValueOfLittleEndian(n, 4);
    FitsWidths(s);
    PayloadBack(b, HEADER, s);
    Crc32Fits(body);
    ValueOfLittleEndian(Crc32(body), 4);
    assert b[HEADER + n..] == LittleEndian(Crc32(body), 4);
  }

  /** A state survives being saved and loaded exactly when each of its parts fits the format. */
  lemma RoundTripExactly(s: DurableState)
    ensures Deserialize(Serialize(s)) == Ok(s) <==> DurableFits(s)
  {
    hide Crc32, LittleEndian, ValueOf, Payload, PayloadAt, DurableFits;
    if DurableFits(s) {
      RoundTrip(s);
    }
    if Deserialize(Serialize(s)) == Ok(s) {
      PayloadAtFits(Serialize(s).bytes, Cursor(HEADER, false));
    }
  }

  /** While every field is within its width, which for strings is 65535 bytes, failure is loud: what is saved loads as
    * itself, or, if a string or a count is beyond the reader's bounds, not at all. */
  lemma SavedLoadsOrFails(s: DurableState)
    requires DurableWidths(s)
    ensures Deserialize(Serialize(s)) == if DurableFits(s) then Ok(s) else Err(IntegrityFailure)
  {
    hide Crc32, LittleEndian, ValueOf, Payload, PayloadAt, DurableFits, DurableWidths;
    RoundTripExactly(s);
    var b, body := Serialize(s).bytes, Sealable(s);
    var p2 := LittleEndian(|Payload(s)|, 4) + Payload(s);
    assert b[..|body|] == body && Holds(b, 0, body);
    HoldsBoth(b, 0, LittleEndian(MAGIC, 4), LittleEndian(VERSION, 4) + p2);
    HoldsBoth(b, 4, LittleEndian(VERSION, 4), p2);
    HoldsBoth(b, 8, LittleEndian(|Payload(s)|, 4), Payload(s));
    PayloadBack(b, HEADER, s);
  }

  /** Whatever file the loader accepts, saving what it loaded and loading again changes nothing. */
  lemma AcceptedStatesAreStable(x: Serialized)
    requires Deserialize(x).Ok?
    ensures Deserialize(Serialize(Deserialize(x).value)) == Deserialize(x)
  {
    hide Crc32, LittleEndian, ValueOf, Payload, PayloadAt, DurableFits, Serialize;
    PayloadAtFits(x.bytes, Cursor(HEADER, false));
    RoundTrip(Deserialize(x).value);
  }

  lemma AcceptedIsSealed(x: Serialized)
    requires Deserialize(x).Ok?
    ensures Sealed(x.bytes)
    ensures |x.bytes| == HEADER + ValueOf(x.bytes[8..12]) + TRAILER
  {
    hide Crc32, ValueOf, PayloadAt;
  }

  /** Damage confined to any four consecutive bytes of an accepted file, in whatever fields, is rejected. */
  lemma DamagedStateRejected(x: Serialized, y: Serialized, i: nat)
    requires Deserialize(x).Ok? && DifferWithin(x.bytes, y.bytes, i) && x.bytes != y.bytes
    ensures Deserialize(y) == Err(IntegrityFailure)
  {
    hide Crc32, ValueOf, PayloadAt;
    AcceptedIsSealed(x);
    SealDetectsBurst(x.bytes, y.bytes, i);
    if Deserialize(y).Ok? {
      AcceptedIsSealed(y);
    }
  }

  /** A truncated or extended copy of an accepted file is never accepted. */
  lemma StatesSelfDelimit(x: Serialized, y: Serialized)
    requires Deserialize(x).Ok? && Deserialize(y).Ok? && x.bytes <= y.bytes
    ensures x.bytes == y.bytes
  {
    hide Crc32, ValueOf, PayloadAt;
    AcceptedIsSealed(x);
    AcceptedIsSealed(y);
    assert x.bytes[8..12] == y.bytes[8..12];
  }
}

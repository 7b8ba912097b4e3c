/** Where things stand in the bytes on the wire and on disk. */
module Layout {
  import opened Bytes
  import opened Types
  import opened Checksum
  import opened Deserialization
  import opened DurableTheorems
  import opened Serialization
  import Protocol

  // ---- Frames ----

  lemma FourBytes(v: nat, b0: byte, b1: byte, b2: byte, b3: byte)
    requires v == b0 as nat + 256 * (b1 as nat + 256 * (b2 as nat + 256 * b3 as nat))
    ensures LittleEndian(v, 4) == [b0, b1, b2, b3]
  {
    var bs := [b0, b1, b2, b3];
    assert bs[1..] == [b1, b2, b3] && bs[1..][1..] == [b2, b3] && bs[1..][1..][1..] == [b3];
    assert ValueOf(bs[1..][1..][1..][1..]) == 0;
    assert ValueOf(bs[1..][1..][1..]) == b3 as nat;
    assert ValueOf(bs[1..][1..]) == b2 as nat + 256 * b3 as nat;
    assert ValueOf(bs) == v;
    LittleEndianValueOf(bs);
  }

  /** A frame begins with the bytes of "NNVF", then 1, the type, and the length in four bytes; the payload follows, and
    * its checksum ends it. */
  lemma FrameLayout(f: Protocol.Frame, maxBytes: nat)
    requires Protocol.Encode(f, maxBytes).Ok?
    ensures var b, n := Protocol.Encode(f, maxBytes).value, |f.payload|;
            |b| == n + 14 && Holds(b, 0, [0x4E, 0x4E, 0x56, 0x46, 1, f.kind]) && Holds(b, 6, LittleEndian(n, 4)) &&
            Holds(b, 10, f.payload) && Holds(b, 10 + n, LittleEndian(Crc32(b[..10 + n]), 4))
  {
    hide Crc32, LittleEndian;
    var b, n := Protocol.Encode(f, maxBytes).value, |f.payload|;
    var trailer := LittleEndian(Crc32(Protocol.Prefix(f)), 4);
    Protocol.PrefixFields(f, trailer);
    FourBytes(Protocol.MAGIC, 0x4E, 0x4E, 0x56, 0x46);
    assert b[..10 + n] == Protocol.Prefix(f);
    assert b[0..6] == b[0..4] + [b[4]] + [b[5]];
  }

  lemma TypeOfAccepted(b: seq<byte>, maxBytes: nat)
    requires Protocol.Decode(b, maxBytes).Ok?
    ensures var f := Protocol.Decode(b, maxBytes).value; 1 <= f.kind <= 11 && |f.payload| < 0x1_0000_0000
  {
    hide Crc32, ValueOf;
    LittleEndianValueOf(b[6..10]);
    RadixValues();
  }

  /** The byte strings accepted are the encodings of the frames of types 1 to 11 whose length fits 32 bits, and no
    * others. */
  lemma AcceptedFrames(b: seq<byte>, maxBytes: nat)
    ensures Protocol.Decode(b, maxBytes).Ok? <==>
              exists f: Protocol.Frame :: 1 <= f.kind <= 11 && |f.payload| < 0x1_0000_0000 &&
                                          Protocol.Encode(f, maxBytes) == Ok(b)
  {
    if Protocol.Decode(b, maxBytes).Ok? {
      TypeOfAccepted(b, maxBytes);
      Protocol.EncodeDecode(b, maxBytes);
    }
    hide Protocol.Encode, Protocol.Decode;
    if exists f: Protocol.Frame :: 1 <= f.kind <= 11 && |f.payload| < 0x1_0000_0000 &&
                                   Protocol.Encode(f, maxBytes) == Ok(b) {
      var f: Protocol.Frame :| 1 <= f.kind <= 11 && |f.payload| < 0x1_0000_0000 &&
                               Protocol.Encode(f, maxBytes) == Ok(b);
      Protocol.DecodeEncode(f, maxBytes);
    }
  }

  /** Refused byte strings are a protocol error, except that a well-formed header whose frame would be too large is a
    * resource-limit error, whatever follows it. */
  lemma RefusedFrames(b: seq<byte>, maxBytes: nat)
    requires Protocol.Decode(b, maxBytes).Err?
    ensures Protocol.Decode(b, maxBytes) == Err(
              if |b| >= 14 && Holds(b, 0, [0x4E, 0x4E, 0x56, 0x46, 1]) && 1 <= b[5] <= 11 &&
                 14 + ValueOf(b[6..10]) > maxBytes then ResourceLimit
              else ProtocolError)
  {
    hide Crc32, ValueOf, LittleEndian;
    if |b| >= 14 {
      LittleEndianValueOf(b[0..4]);
      FourBytes(Protocol.MAGIC, 0x4E, 0x4E, 0x56, 0x46);
      ValueOfLittleEndian(Protocol.MAGIC, 4);
      RadixValues();
      assert b[0..5] == b[0..4] + [b[4]] && b[0..5][..4] == b[0..4] && b[0..5][4] == b[4];
      assert Holds(b, 0, [0x4E, 0x4E, 0x56, 0x46, 1]) <==> ValueOf(b[0..4]) == Protocol.MAGIC && b[4] == 1 by {
        assert [0x4E, 0x4E, 0x56, 0x46, 1][..4] == [0x4E, 0x4E, 0x56, 0x46];
      }
    }
  }

  // ---- Durable files ----

  /** A file begins with the bytes of "NVFD", the version and the payload's length, in four bytes each; the payload
    * begins with the topology generation, the time of saving and the number of devices. */
  lemma DurableLayout(s: DurableState)
    ensures var b, n := Serialize(s).bytes, |DevicesBytes(s.devices)|;
            |b| == 16 + |Payload(s)| && Holds(b, 0, [0x4E, 0x56, 0x46, 0x44]) && Holds(b, 4, LittleEndian(1, 4)) &&
            Holds(b, 8, LittleEndian(|b| - 16, 4)) && Holds(b, 12, LittleEndian(s.topologyGeneration, 8)) &&
            Holds(b, 20, LittleEndian(s.savedAt.ns % TWO64, 8)) &&
            Holds(b, 28, LittleEndian(if s.savedAt.valid then 1 else 0, 1)) &&
            Holds(b, 29, LittleEndian(|s.devices|, 4)) && Holds(b, 33, DevicesBytes(s.devices)) &&
            Holds(b, 33 + n, LittleEndian(|s.links|, 4)) && Holds(b, 37 + n, LinksBytes(s.links))
    ensures var b := Serialize(s).bytes; Holds(b, |b| - 4, LittleEndian(Crc32(b[..|b| - 4]), 4))
  {
    hide Crc32, LittleEndian, Holds, DevicesBytes, LinksBytes;
    var b := Serialize(s).bytes;
    var trailer := LittleEndian(Crc32(Sealable(s)), 4);
    var p5 := LittleEndian(|s.links|, 4) + LinksBytes(s.links);
    var p4 := DevicesBytes(s.devices) + p5;
    var p3 := LittleEndian(|s.devices|, 4) + p4;
    var flag := FlagBytes(s.savedAt.valid);
    var time := LittleEndian(s.savedAt.ns % TWO64, 8);
    var p2 := TimestampBytes(s.savedAt) + p3;
    var at := 33 + |DevicesBytes(s.devices)|;
    WholeHeld(b);
    HoldsBoth(b, 0, Sealable(s), trailer);
    HoldsBoth(b, 0, LittleEndian(Serialization.MAGIC, 4),
              LittleEndian(Serialization.VERSION, 4) + (LittleEndian(|Payload(s)|, 4) + Payload(s)));
    HoldsBoth(b, 4, LittleEndian(Serialization.VERSION, 4), LittleEndian(|Payload(s)|, 4) + Payload(s));
    HoldsBoth(b, 8, LittleEndian(|Payload(s)|, 4), Payload(s));
    HoldsBoth(b, 12, LittleEndian(s.topologyGeneration, 8), p2);
    HoldsBoth(b, 20, TimestampBytes(s.savedAt), p3);
    HoldsBoth(b, 20, time, flag);
    HoldsBoth(b, 29, LittleEndian(|s.devices|, 4), p4);
    HoldsBoth(b, 33, DevicesBytes(s.devices), p5);
    HoldsBoth(b, at, LittleEndian(|s.links|, 4), LinksBytes(s.links));
    FourBytes(Serialization.MAGIC, 0x4E, 0x56, 0x46, 0x44);
    assert b[..|b| - 4] == Sealable(s);
  }

  /** The parts of b that begin at the positions `at` are `xs`. */
  ghost predicate Fields(b: seq<byte>, at: seq<nat>, xs: seq<seq<byte>>)
  {
    |at| == |xs| && forall i :: 0 <= i < |at| ==> Holds(b, at[i], xs[i])
  }

  lemma CapabilityLayout(c: Capability)
    ensures Fields(CapabilityBytes(c), [0, 1, 5, 9, 17, 18, 19, 23],
                   [LittleEndian(TechnologyCode(c.interconnect), 1), LittleEndian(c.linkCount, 4),
                    LittleEndian(c.laneWidth, 4), LittleEndian(c.nominalBandwidth, 8), FlagBytes(c.peerAccess),
                    LittleEndian(SupportCode(c.measurementSupport), 1), LittleEndian(c.counters, 4),
                    FlagBytes(c.telemetry)])
  {
    hide LittleEndian, Holds, TechnologyCode, SupportCode, FlagBytes;
    var b := CapabilityBytes(c);
    var p7 := LittleEndian(c.counters, 4) + FlagBytes(c.telemetry);
    var p6 := LittleEndian(SupportCode(c.measurementSupport), 1) + p7;
    var p5 := FlagBytes(c.peerAccess) + p6;
    var p4 := LittleEndian(c.nominalBandwidth, 8) + p5;
    var p3 := LittleEndian(c.laneWidth, 4) + p4;
    var p2 := LittleEndian(c.linkCount, 4) + p3;
    WholeHeld(b);
    HoldsBoth(b, 0, LittleEndian(TechnologyCode(c.interconnect), 1), p2);
    HoldsBoth(b, 1, LittleEndian(c.linkCount, 4), p3);
    HoldsBoth(b, 5, LittleEndian(c.laneWidth, 4), p4);
    HoldsBoth(b, 9, LittleEndian(c.nominalBandwidth, 8), p5);
    HoldsBoth(b, 17, FlagBytes(c.peerAccess), p6);
    HoldsBoth(b, 18, LittleEndian(SupportCode(c.measurementSupport), 1), p7);
    HoldsBoth(b, 19, LittleEndian(c.counters, 4), FlagBytes(c.telemetry));
  }

  lemma EvidenceLayout(e: Evidence)
    ensures var n := |e.source|;
            Fields(EvidenceBytes(e), [0, 1, 5, 7, 7 + n, 9 + n],
                   [LittleEndian(EvidenceClassCode(e.evidenceClass), 1), LittleEndian(e.provenance, 4),
                    LittleEndian(n, 2), e.source, LittleEndian(|e.note|, 2), e.note])
  {
    hide LittleEndian, Holds, EvidenceClassCode;
    var b, n := EvidenceBytes(e), |e.source|;
    var p3 := Serialization.TextBytes(e.source) + Serialization.TextBytes(e.note);
    var p2 := LittleEndian(e.provenance, 4) + p3;
    WholeHeld(b);
    HoldsBoth(b, 0, LittleEndian(EvidenceClassCode(e.evidenceClass), 1), p2);
    HoldsBoth(b, 1, LittleEndian(e.provenance, 4), p3);
    HoldsBoth(b, 5, Serialization.TextBytes(e.source), Serialization.TextBytes(e.note));
    HoldsBoth(b, 5, LittleEndian(n, 2), e.source);
    HoldsBoth(b, 7 + n, LittleEndian(|e.note|, 2), e.note);
  }

  /** A link's endpoints, direction, identifier, state, technology, capability and generation. */
  lemma LinkLayout(l: LinkRecord)
    ensures var n := |l.physicalIdentifier|;
            Fields(LinkBytes(l), [0, 8, 16, 24, 25, 27, 27 + n, 28 + n, 29 + n, 53 + n],
                   [LittleEndian(l.id, 8), LittleEndian(l.source, 8), LittleEndian(l.target, 8), FlagBytes(l.directed),
                    LittleEndian(n, 2), l.physicalIdentifier, LittleEndian(LinkStateCode(l.state), 1),
                    LittleEndian(TechnologyCode(l.technology), 1), CapabilityBytes(l.capability),
                    LittleEndian(l.generation, 8)])
  {
    hide LittleEndian, Holds, TechnologyCode, LinkStateCode, FlagBytes, CapabilityBytes, EvidenceBytes, TimestampBytes;
    var b, n := LinkBytes(l), |l.physicalIdentifier|;
    var p6 := LittleEndian(LinkStateCode(l.state), 1) + LittleEndian(TechnologyCode(l.technology), 1);
    var p5 := Serialization.TextBytes(l.physicalIdentifier) + p6;
    var p4 := FlagBytes(l.directed) + p5;
    var p3 := LittleEndian(l.target, 8) + p4;
    var p2 := LittleEndian(l.source, 8) + p3;
    var q3 := EvidenceBytes(l.evidence) + (TimestampBytes(l.lastObservation) + (FlagBytes(l.measurementSupported) +
      (FlagBytes(l.degraded) + (Serialization.TextBytes(l.degradationNote) + LittleEndian(l.topologyGeneration, 8)))));
    var q2 := LittleEndian(l.generation, 8) + q3;
    WholeHeld(b);
    HoldsBoth(b, 0, LinkIdentityBytes(l), LinkStatusBytes(l));
    HoldsBoth(b, 0, LittleEndian(l.id, 8), p2);
    HoldsBoth(b, 8, LittleEndian(l.source, 8), p3);
    HoldsBoth(b, 16, LittleEndian(l.target, 8), p4);
    HoldsBoth(b, 24, FlagBytes(l.directed), p5);
    HoldsBoth(b, 25, Serialization.TextBytes(l.physicalIdentifier), p6);
    HoldsBoth(b, 25, LittleEndian(n, 2), l.physicalIdentifier);
    HoldsBoth(b, 27 + n, LittleEndian(LinkStateCode(l.state), 1), LittleEndian(TechnologyCode(l.technology), 1));
    HoldsBoth(b, 29 + n, CapabilityBytes(l.capability), q2);
    HoldsBoth(b, 53 + n, LittleEndian(l.generation, 8), q3);
  }

  /** and, from the evidence on, its evidence, time, measurement support, degradation, note and stamp. */
  lemma LinkTailLayout(l: LinkRecord)
    ensures var n := 61 + |l.physicalIdentifier|;
            var m := n + |EvidenceBytes(l.evidence)|;
            Fields(LinkBytes(l), [n, m, m + 8, m + 9, m + 10, m + 11, m + 13, m + 13 + |l.degradationNote|],
                   [EvidenceBytes(l.evidence), LittleEndian(l.lastObservation.ns % TWO64, 8),
                    FlagBytes(l.lastObservation.valid), FlagBytes(l.measurementSupported), FlagBytes(l.degraded),
                    LittleEndian(|l.degradationNote|, 2), l.degradationNote, LittleEndian(l.topologyGeneration, 8)])
  {
    hide LittleEndian, Holds, LinkIdentityBytes, FlagBytes, CapabilityBytes, EvidenceBytes;
    var b, n := LinkBytes(l), 61 + |l.physicalIdentifier|;
    var m := n + |EvidenceBytes(l.evidence)|;
    var note := Serialization.TextBytes(l.degradationNote);
    var q6 := note + LittleEndian(l.topologyGeneration, 8);
    var q5 := FlagBytes(l.degraded) + q6;
    var q4 := FlagBytes(l.measurementSupported) + q5;
    var q3 := TimestampBytes(l.lastObservation) + q4;
    var q2 := EvidenceBytes(l.evidence) + q3;
    WholeHeld(b);
    HoldsBoth(b, 0, LinkIdentityBytes(l), LinkStatusBytes(l));
    HoldsBoth(b, n - 32, CapabilityBytes(l.capability), LittleEndian(l.generation, 8) + q2);
    HoldsBoth(b, n - 8, LittleEndian(l.generation, 8), q2);
    HoldsBoth(b, n, EvidenceBytes(l.evidence), q3);
    HoldsBoth(b, m, TimestampBytes(l.lastObservation), q4);
    HoldsBoth(b, m, LittleEndian(l.lastObservation.ns % TWO64, 8), FlagBytes(l.lastObservation.valid));
    HoldsBoth(b, m + 9, FlagBytes(l.measurementSupported), q5);
    HoldsBoth(b, m + 10, FlagBytes(l.degraded), q6);
    HoldsBoth(b, m + 11, note, LittleEndian(l.topologyGeneration, 8));
    HoldsBoth(b, m + 11, LittleEndian(|l.degradationNote|, 2), l.degradationNote);
  }

  /** A device's id, name, kind, backend, instance and PCI identity. */
  lemma DeviceLayout(d: DeviceRecord)
    ensures var n := |d.logicalName|;
            var m := n + |d.backend|;
            var k := m + |d.backendInstance|;
            Fields(DeviceBytes(d), [0, 8, 10, 10 + n, 11 + n, 13 + n, 13 + m, 15 + m, 15 + k, 17 + k],
                   [LittleEndian(d.id, 8), LittleEndian(n, 2), d.logicalName, LittleEndian(NodeKindCode(d.kind), 1),
                    LittleEndian(|d.backend|, 2), d.backend, LittleEndian(|d.backendInstance|, 2), d.backendInstance,
                    LittleEndian(|d.pciIdentity|, 2), d.pciIdentity])
  {
    hide LittleEndian, Holds, NodeKindCode, DeviceModelBytes, DeviceStatusBytes;
    var b, n := DeviceBytes(d), |d.logicalName|;
    var m := n + |d.backend|;
    var k := m + |d.backendInstance|;
    var p5 := Serialization.TextBytes(d.backendInstance) + Serialization.TextBytes(d.pciIdentity);
    var p4 := Serialization.TextBytes(d.backend) + p5;
    var p3 := LittleEndian(NodeKindCode(d.kind), 1) + p4;
    var p2 := Serialization.TextBytes(d.logicalName) + p3;
    WholeHeld(b);
    HoldsBoth(b, 0, DeviceIdentityBytes(d), DeviceModelBytes(d) + DeviceStatusBytes(d));
    HoldsBoth(b, 0, LittleEndian(d.id, 8), p2);
    HoldsBoth(b, 8, Serialization.TextBytes(d.logicalName), p3);
    HoldsBoth(b, 8, LittleEndian(n, 2), d.logicalName);
    HoldsBoth(b, 10 + n, LittleEndian(NodeKindCode(d.kind), 1), p4);
    HoldsBoth(b, 11 + n, Serialization.TextBytes(d.backend), p5);
    HoldsBoth(b, 11 + n, LittleEndian(|d.backend|, 2), d.backend);
    HoldsBoth(b, 13 + m, Serialization.TextBytes(d.backendInstance), Serialization.TextBytes(d.pciIdentity));
    HoldsBoth(b, 13 + m, LittleEndian(|d.backendInstance|, 2), d.backendInstance);
    HoldsBoth(b, 15 + k, LittleEndian(|d.pciIdentity|, 2), d.pciIdentity);
  }

  /** and then its ordinal, vendor, architecture and generation name, */
  lemma DeviceModelLayout(d: DeviceRecord)
    ensures var at := |DeviceIdentityBytes(d)|;
            var n := at + |OptionBytes(d.cudaOrdinal, 4)|;
            var m := n + |d.vendor|;
            var k := m + |d.architecture|;
            Fields(DeviceBytes(d), [at, n, n + 2, m + 2, m + 4, k + 4, k + 6],
                   [OptionBytes(d.cudaOrdinal, 4), LittleEndian(|d.vendor|, 2), d.vendor,
                    LittleEndian(|d.architecture|, 2), d.architecture, LittleEndian(|d.deviceGeneration|, 2),
                    d.deviceGeneration])
  {
    hide LittleEndian, Holds, DeviceIdentityBytes, DeviceStatusBytes, OptionBytes;
    var b, at := DeviceBytes(d), |DeviceIdentityBytes(d)|;
    var n := at + |OptionBytes(d.cudaOrdinal, 4)|;
    var m := n + |d.vendor|;
    var k := m + |d.architecture|;
    var p3 := Serialization.TextBytes(d.architecture) + Serialization.TextBytes(d.deviceGeneration);
    var p2 := Serialization.TextBytes(d.vendor) + p3;
    WholeHeld(b);
    HoldsBoth(b, 0, DeviceIdentityBytes(d), DeviceModelBytes(d) + DeviceStatusBytes(d));
    HoldsBoth(b, at, DeviceModelBytes(d), DeviceStatusBytes(d));
    HoldsBoth(b, at, OptionBytes(d.cudaOrdinal, 4), p2);
    HoldsBoth(b, n, Serialization.TextBytes(d.vendor), p3);
    HoldsBoth(b, n, LittleEndian(|d.vendor|, 2), d.vendor);
    HoldsBoth(b, m + 2, Serialization.TextBytes(d.architecture), Serialization.TextBytes(d.deviceGeneration));
    HoldsBoth(b, m + 2, LittleEndian(|d.architecture|, 2), d.architecture);
    HoldsBoth(b, k + 4, LittleEndian(|d.deviceGeneration|, 2), d.deviceGeneration);
  }

  /** and last its capability, health, evidence, generation and owners. */
  lemma DeviceStatusLayout(d: DeviceRecord)
    ensures var at := |DeviceIdentityBytes(d)| + |DeviceModelBytes(d)|;
            var n := at + 25 + |EvidenceBytes(d.evidence)|;
            Fields(DeviceBytes(d), [at, at + 24, at + 25, n, n + 8, n + 8 + |OptionBytes(d.ownerWorker, 8)|],
                   [CapabilityBytes(d.capability), LittleEndian(HealthCode(d.health), 1), EvidenceBytes(d.evidence),
                    LittleEndian(d.generation, 8), OptionBytes(d.ownerWorker, 8), OptionBytes(d.ownerBoot, 8)])
  {
    hide LittleEndian, Holds, DeviceIdentityBytes, DeviceModelBytes, OptionBytes, CapabilityBytes, EvidenceBytes,
         HealthCode;
    var b, at := DeviceBytes(d), |DeviceIdentityBytes(d)| + |DeviceModelBytes(d)|;
    var n := at + 25 + |EvidenceBytes(d.evidence)|;
    var p4 := OptionBytes(d.ownerWorker, 8) + OptionBytes(d.ownerBoot, 8);
    var p3 := LittleEndian(d.generation, 8) + p4;
    var p2 := EvidenceBytes(d.evidence) + p3;
    WholeHeld(b);
    HoldsBoth(b, 0, DeviceIdentityBytes(d), DeviceModelBytes(d) + DeviceStatusBytes(d));
    HoldsBoth(b, |DeviceIdentityBytes(d)|, DeviceModelBytes(d), DeviceStatusBytes(d));
    HoldsBoth(b, at, CapabilityBytes(d.capability), LittleEndian(HealthCode(d.health), 1) + p2);
    HoldsBoth(b, at + 24, LittleEndian(HealthCode(d.health), 1), p2);
    HoldsBoth(b, at + 25, EvidenceBytes(d.evidence), p3);
    HoldsBoth(b, n, LittleEndian(d.generation, 8), p4);
    HoldsBoth(b, n + 8, OptionBytes(d.ownerWorker, 8), OptionBytes(d.ownerBoot, 8));
  }

  /** An optional field is a flag, followed by the value if there is one. */
  lemma OptionLayout(o: Option<nat>, k: nat)
    ensures OptionBytes(o, k) == if o.Some? then [1] + LittleEndian(o.value, k) else [0]
    ensures FlagBytes(true) == [1] && FlagBytes(false) == [0]
  {
    assert LittleEndian(1, 1) == [1] + LittleEndian(0, 0);
    assert LittleEndian(0, 1) == [0] + LittleEndian(0, 0);
  }

  lemma WholeHeld(b: seq<byte>)
    ensures Holds(b, 0, b)
  {
    assert b[0..|b|] == b;
  }

  /** What every accepted file begins and ends with. */
  lemma AcceptedHeader(x: Serialized)
    requires Deserialize(x).Ok?
    ensures x.formatVersion == 1 && Holds(x.bytes, 0, [0x4E, 0x56, 0x46, 0x44]) && Holds(x.bytes, 4, [1, 0, 0, 0])
    ensures Holds(x.bytes, 8, LittleEndian(|x.bytes| - 16, 4)) && Sealed(x.bytes)
  {
    hide Crc32, ValueOf, PayloadAt, LittleEndian;
    var b := x.bytes;
    LittleEndianValueOf(b[0..4]);
    LittleEndianValueOf(b[4..8]);
    LittleEndianValueOf(b[8..12]);
    FourBytes(Serialization.MAGIC, 0x4E, 0x56, 0x46, 0x44);
    FourBytes(Serialization.VERSION, 1, 0, 0, 0);
    AcceptedIsSealed(x);
  }

  /** Any byte but zero reads as true. */
  lemma FlagByte(b: seq<byte>, pos: nat)
    requires pos < |b|
    ensures FlagAt(b, Cursor(pos, false)) == (b[pos] != 0, Cursor(pos + 1, false))
  {
    var one := b[pos..pos + 1];
    assert one[0] == b[pos] && one[1..] == [];
    assert ValueOf(one[1..]) == 0;
    assert ValueOf(one) == b[pos] as nat;
  }

  /** The enumerations are numbered in the order of their declarations. */
  lemma DeclaredCodes()
    ensures [EvidenceClassCode(EvidenceClass.Real), EvidenceClassCode(EvidenceClass.Synthetic),
             EvidenceClassCode(EvidenceClass.Unsupported)] == [0, 1, 2]
    ensures [TechnologyCode(Technology.Unknown), TechnologyCode(NoInterconnect), TechnologyCode(NvLink),
             TechnologyCode(Pcie), TechnologyCode(Cxl), TechnologyCode(Other)] == [0, 1, 2, 3, 4, 5]
    ensures [NodeKindCode(Accelerator), NodeKindCode(Switch), NodeKindCode(Host), NodeKindCode(NodeKind.Unknown)]
         == [0, 1, 2, 3]
    ensures [SupportCode(MeasurementSupport.Unknown), SupportCode(MeasurementSupport.Unsupported),
             SupportCode(SyntheticOnly), SupportCode(MeasurementSupport.Real)] == [0, 1, 2, 3]
    ensures [HealthCode(DeviceHealth.Unknown), HealthCode(DeviceHealth.Present), HealthCode(DeviceHealth.Absent),
             HealthCode(DeviceHealth.Degraded), HealthCode(DeviceHealth.RevalidationRequired),
             HealthCode(DeviceHealth.Incompatible), HealthCode(DeviceHealth.Unreachable)] == [0, 1, 2, 3, 4, 5, 6]
    ensures [LinkStateCode(LinkState.Unknown), LinkStateCode(LinkState.Present), LinkStateCode(LinkState.Absent),
             LinkStateCode(Supported), LinkStateCode(LinkState.Unsupported), LinkStateCode(Up), LinkStateCode(Down),
             LinkStateCode(LinkState.Degraded), LinkStateCode(LinkState.RevalidationRequired), LinkStateCode(Stale),
             LinkStateCode(LinkState.Incompatible), LinkStateCode(LinkState.Unreachable)]
         == [0, 1, 2, 3, 4, 5, 6, 7, 8, 9, 10, 11]
  {
  }
}

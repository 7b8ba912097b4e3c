/** Strings beyond the 16-bit length: two states with one durable form. */
module Misload {
  import opened Bytes
  import opened Types
  import opened Checksum
  import opened Serialization
  import opened Deserialization
  import opened DurableTheorems

  function Filler(n: nat): (t: Text)
    ensures |t| == n
  {
    seq(n, i => 0 as byte)
  }

  const BLANK := Capability(Technology.Unknown, 0, 0, 0, false, MeasurementSupport.Unknown, 0, false)

  function Named(name: Text): DeviceRecord
  {
    DeviceRecord(1, name, NodeKind.Host, [], [], [], None, [], [], [], BLANK, DeviceHealth.Present,
                 Evidence(EvidenceClass.Real, 0, [], []), 1, None, None)
  }

  /** What follows the name in a written device. */
  function Tail(d: DeviceRecord): seq<byte>
  {
    LittleEndian(NodeKindCode(d.kind), 1) +
    (TextBytes(d.backend) + (TextBytes(d.backendInstance) + TextBytes(d.pciIdentity))) +
    (DeviceModelBytes(d) + DeviceStatusBytes(d))
  }

  function Forged(id: nat, note: Text, generation: nat): LinkRecord
  {
    LinkRecord(id, 1, 2, true, Filler(4096), LinkState.Up, Technology.NvLink, BLANK, 1,
               Evidence(EvidenceClass.Real, 0, Filler(4096), Filler(4096)), Timestamp(0, false), false, false, note,
               generation)
  }

  /** The end of a payload whose one device is this and which has no links. */
  function Ending(d: DeviceRecord): seq<byte>
  {
    Tail(d) + LittleEndian(0, 4)
  }

  lemma Regrouped(a: seq<byte>, b: seq<byte>, c: seq<byte>, d: seq<byte>, e: seq<byte>)
    ensures (a + (b + (c + d))) + e == a + (b + (c + d + e))
  {
  }

  lemma NamedBytes(name: Text)
    ensures DeviceBytes(Named(name)) == LittleEndian(1, 8) + (LittleEndian(|name|, 2) + name + Tail(Named([])))
  {
    hide LittleEndian, DeviceModelBytes, DeviceStatusBytes, NodeKindCode;
    ModelIgnoresName(name);
    var d := Named(name);
    var none: Text := d.backend;
    Regrouped(LittleEndian(1, 8), TextBytes(name), LittleEndian(NodeKindCode(d.kind), 1),
              TextBytes(none) + (TextBytes(none) + TextBytes(none)), DeviceModelBytes(d) + DeviceStatusBytes(d));
    hide TextBytes;
    TextForm(name);
  }

  lemma TextForm(s: Text)
    ensures TextBytes(s) == LittleEndian(|s|, 2) + s
  {
    hide LittleEndian;
  }

  lemma ModelIgnoresName(name: Text)
    ensures DeviceModelBytes(Named(name)) == DeviceModelBytes(Named([]))
    ensures DeviceStatusBytes(Named(name)) == DeviceStatusBytes(Named([]))
  {
    hide LittleEndian, CapabilityBytes, EvidenceBytes, OptionBytes, TextBytes;
  }

  lemma EndingSize()
    ensures |Ending(Named([]))| == 62
  {
    hide LittleEndian;
    assert |OptionBytes(None, 4)| == 1 && |OptionBytes(None, 8)| == 1;
  }

  lemma ForgedSize(id: nat, note: Text, generation: nat)
    ensures |LinkBytes(Forged(id, note, generation))| == 12379 + |note|
  {
    hide LinkIdentityBytes, LinkStatusBytes, Filler;
  }

  lemma ForgedEnds(id: nat, note: Text, generation: nat)
    ensures var b := LinkBytes(Forged(id, note, generation));
            |b| >= |note| + 8 && b[|b| - 8 - |note|..] == note + LittleEndian(generation, 8)
  {
    hide LittleEndian, LinkIdentityBytes, CapabilityBytes, EvidenceBytes, TimestampBytes, FlagBytes, Filler;
    var l := Forged(id, note, generation);
    var front := LinkIdentityBytes(l) + CapabilityBytes(l.capability) + LittleEndian(l.generation, 8) +
      EvidenceBytes(l.evidence) + TimestampBytes(l.lastObservation) + FlagBytes(l.measurementSupported) +
      FlagBytes(l.degraded) + LittleEndian(|note|, 2);
    assert LinkBytes(l) == front + (note + LittleEndian(generation, 8));
  }

  /** The last forged link, whose written form ends with the given 62 bytes. */
  function LastForged(ending: seq<byte>): LinkRecord
    requires |ending| == 62
  {
    Forged(4, Filler(3678) + ending[..54], ValueOf(ending[54..]))
  }

  lemma LastForgedEnds(ending: seq<byte>)
    requires |ending| == 62
    ensures var b := LinkBytes(LastForged(ending)); |b| == 16111 && b[16111 - 62..] == ending
    ensures LinkFits(LastForged(ending))
  {
    hide LinkBytes, LittleEndian, ValueOf, Filler, CapabilityFits, EvidenceFits;
    var note := Filler(3678) + ending[..54];
    LittleEndianValueOf(ending[54..]);
    ForgedSize(4, note, ValueOf(ending[54..]));
    ForgedEnds(4, note, ValueOf(ending[54..]));
    ForgedFits(4, note, ValueOf(ending[54..]));
    var b := LinkBytes(LastForged(ending));
    assert b[16111 - 62..] == b[|b| - 8 - |note|..][3678..];
    assert (note + ending[54..])[3678..] == ending;
  }

  lemma ForgedFits(id: nat, note: Text, generation: nat)
    requires id <= 4 && |note| <= 4096 && generation < Radix(8)
    ensures LinkFits(Forged(id, note, generation))
  {
    hide Filler, Radix;
    RadixValues();
  }

  lemma NamedFits()
    ensures DeviceFits(Named([]))
  {
    hide Radix;
    RadixValues();
  }

  function ForgedLinks(ending: seq<byte>): (ls: seq<LinkRecord>)
    requires |ending| == 62
    ensures |ls| == 4
  {
    [Forged(1, Filler(4096), 1)] +
      ([Forged(2, Filler(4096), 1)] + ([Forged(3, Filler(4096), 1)] + [LastForged(ending)]))
  }

  lemma LinksJoined(l: LinkRecord, rest: seq<LinkRecord>)
    ensures LinksBytes([l] + rest) == LinkBytes(l) + LinksBytes(rest)
  {
    hide LinkBytes;
    assert ([l] + rest)[1..] == rest;
  }

  lemma OneLink(l: LinkRecord)
    ensures LinksBytes([l]) == LinkBytes(l)
  {
    hide LinkBytes;
    var none := [l][1..];
    assert none == [] && LinksBytes(none) == [];
    assert LinkBytes(l) + [] == LinkBytes(l);
  }

  lemma ForgedLinksEnd(ending: seq<byte>)
    requires |ending| == 62
    ensures var b := LinksBytes(ForgedLinks(ending)); |b| == 65536 && b[65536 - 62..] == ending
  {
    hide LinkBytes, LinksBytes, Forged, LastForged;
    var l1, l2, l3, l4 := Forged(1, Filler(4096), 1), Forged(2, Filler(4096), 1), Forged(3, Filler(4096), 1),
                          LastForged(ending);
    LinksJoined(l1, [l2] + ([l3] + [l4]));
    LinksJoined(l2, [l3] + [l4]);
    LinksJoined(l3, [l4]);
    OneLink(l4);
    ForgedSize(1, Filler(4096), 1);
    ForgedSize(2, Filler(4096), 1);
    ForgedSize(3, Filler(4096), 1);
    LastForgedEnds(ending);
    var front := LinkBytes(l1) + LinkBytes(l2) + LinkBytes(l3);
    assert LinksBytes(ForgedLinks(ending)) == front + LinkBytes(l4);
  }

  /** 65536 bytes that the reader takes for the rest of a device and four links. */
  function LongName(): (s: Text)
    ensures |s| == 65536
  {
    EndingSize();
    var ending := Ending(Named([]));
    ForgedLinksEnd(ending);
    (Tail(Named([])) + LittleEndian(4, 4) + LinksBytes(ForgedLinks(ending)))[..65536]
  }

  /** One device with a long name, and no links. */
  function Saved(): DurableState
  {
    DurableState(DURABLE_FORMAT, 1, [Named(LongName())], [], Timestamp(0, false))
  }

  /** One device with no name, and four links. */
  function Loaded(): DurableState
  {
    EndingSize();
    DurableState(DURABLE_FORMAT, 1, [Named([])], ForgedLinks(Ending(Named([]))), Timestamp(0, false))
  }

  lemma Rejoined(front: seq<byte>, back: seq<byte>, ending: seq<byte>, n: nat)
    requires |front| + |back| == n + |ending| && |back| >= |ending| && back[|back| - |ending|..] == ending
    ensures (front + back)[..n] + ending == front + back
  {
  }

  lemma TailSwallowed()
    ensures |Ending(Named([]))| == 62
    ensures LongName() + Tail(Named([])) + LittleEndian(0, 4)
         == Tail(Named([])) + LittleEndian(4, 4) + LinksBytes(ForgedLinks(Ending(Named([]))))
  {
    EndingSize();
    var ending := Ending(Named([]));
    ForgedLinksEnd(ending);
    hide Tail, LinksBytes, ForgedLinks, LittleEndian, Named;
    Rejoined(Tail(Named([])) + LittleEndian(4, 4), LinksBytes(ForgedLinks(ending)), ending, 65536);
    hide LongName;
    LongNameForm();
    assert LongName() + Tail(Named([])) + LittleEndian(0, 4) == LongName() + ending;
  }

  lemma LongNameForm()
    ensures |Ending(Named([]))| == 62
    ensures LongName()
         == (Tail(Named([])) + LittleEndian(4, 4) + LinksBytes(ForgedLinks(Ending(Named([])))))[..65536]
  {
    hide Tail, LinksBytes, ForgedLinks, LittleEndian, Named;
    EndingSize();
  }

  /** The 16-bit length of 65536 bytes is 0. */
  lemma LengthWraps()
    ensures LittleEndian(65536, 2) == LittleEndian(0, 2)
  {
    assert LittleEndian(65536 / 256, 1) == [0] + LittleEndian(1, 0);
    assert LittleEndian(0 / 256, 1) == [0] + LittleEndian(0, 0);
  }

  lemma OneDevice(d: DeviceRecord)
    ensures DevicesBytes([d]) == DeviceBytes(d)
  {
    hide DeviceBytes;
    var none := [d][1..];
    assert none == [] && DevicesBytes(none) == [];
    assert DeviceBytes(d) + [] == DeviceBytes(d);
  }

  lemma NoLinkBytes(ls: seq<LinkRecord>)
    requires ls == []
    ensures LinksBytes(ls) == []
  {
  }

  lemma SamePayload()
    ensures Payload(Saved()) == Payload(Loaded())
  {
    EndingSize();
    hide LittleEndian, DeviceBytes, DevicesBytes, LinksBytes, TimestampBytes, LongName, ForgedLinks, Ending, Tail,
         Named;
    var name, links := LongName(), ForgedLinks(Ending(Named([])));
    OneDevice(Named(name));
    OneDevice(Named([]));
    NamedBytes(name);
    NamedBytes([]);
    NoLinkBytes(Saved().links);
    TailSwallowed();
    LengthWraps();
    var front := LittleEndian(1, 8) + TimestampBytes(Timestamp(0, false)) + LittleEndian(1, 4) + LittleEndian(1, 8) +
      LittleEndian(0, 2);
    assert Payload(Saved()) == front + (name + Tail(Named([])) + LittleEndian(0, 4));
    assert Payload(Loaded()) == front + (Tail(Named([])) + LittleEndian(4, 4) + LinksBytes(links));
  }

  lemma ForgedLinksFit(ending: seq<byte>, i: nat)
    requires |ending| == 62 && i < 4
    ensures LinkFits(ForgedLinks(ending)[i])
  {
    hide LinkFits, Forged, LastForged, Filler, Radix;
    RadixValues();
    ForgedFits(1, Filler(4096), 1);
    ForgedFits(2, Filler(4096), 1);
    ForgedFits(3, Filler(4096), 1);
    LastForgedEnds(ending);
  }

  lemma LoadedFits()
    ensures DurableFits(Loaded())
  {
    EndingSize();
    RadixValues();
    NamedFits();
    hide DeviceFits, LinkFits, Named, ForgedLinks, Ending, Radix;
    forall i | 0 <= i < 4
      ensures LinkFits(ForgedLinks(Ending(Named([])))[i])
    {
      ForgedLinksFit(Ending(Named([])), i);
    }
  }

  /** A string of 65536 bytes can be saved and loaded without any error into a different state: here a device without
    * links comes back without its name and with four links that nobody registered. */
  lemma SilentMisload()
    ensures Deserialize(Serialize(Saved())) == Ok(Loaded())
    ensures Saved().links == [] && |Loaded().links| == 4
  {
    hide Deserialize, DurableFits, Payload, Crc32, LongName, Forged, LastForged, Named, LittleEndian;
    SamePayload();
    LoadedFits();
    RoundTrip(Loaded());
  }
}

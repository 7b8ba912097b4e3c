/** The framed coordinator-worker protocol: [magic 4][version 1][type 1][length 4][payload][crc 4]. */
module Protocol {
  import opened Bytes
  import opened Types
  import opened Checksum

  const MAGIC := 0x46564E4E
  const VERSION := 1
  const HEADER := 10
  const TRAILER := 4

  const HELLO: byte := 1
  const GOODBYE: byte := 11

  /** A frame as callers build it: the type field may hold a byte outside the enumeration. */
  datatype Frame = Frame(kind: byte, payload: seq<byte>)

  predicate ValidType(t: byte)
  {
    HELLO <= t <= GOODBYE
  }

  function Prefix(f: Frame): (p: seq<byte>)
    ensures |p| == HEADER + |f.payload|
  {
    LittleEndian(MAGIC, 4) + (LittleEndian(VERSION, 1) + ([f.kind] + (LittleEndian(|f.payload|, 4) + f.payload)))
  }

  function Encode(f: Frame, maxBytes: nat): (r: Result<seq<byte>>)
    ensures r.Ok? <==> HEADER + |f.payload| + TRAILER <= maxBytes
    ensures r.Ok? ==> |r.value| == HEADER + |f.payload| + TRAILER
  {
    if |f.payload| + HEADER + TRAILER > maxBytes then Err(ResourceLimit)
    else Ok(Prefix(f) + LittleEndian(Crc32(Prefix(f)), 4))
  }

  method EncodeFrame(f: Frame, maxBytes: nat) returns (r: Result<seq<byte>>)
    ensures r == Encode(f, maxBytes)
  {
    hide LittleEndian, Crc32;
    if |f.payload| + HEADER + TRAILER > maxBytes {
      return Err(ResourceLimit);
    }
    var out := new ByteBuffer();
    out.PutNum(MAGIC, 4);
    out.PutNum(VERSION, 1);
    out.PutBytes([f.kind]);
    out.PutNum(|f.payload|, 4);
    out.PutBytes(f.payload);
    assert out.bytes == Prefix(f);
    var crc := ComputeCrc32(out.bytes);
    out.PutNum(crc, 4);
    r := Ok(out.bytes);
  }

  function DeclaredLength(b: seq<byte>): nat
    requires |b| >= HEADER
  {
    ValueOf(b[6..10])
  }

  function Decode(b: seq<byte>, maxBytes: nat): Result<Frame>
  {
    if |b| < HEADER + TRAILER then Err(ProtocolError)
    else if ValueOf(b[0..4]) != MAGIC then Err(ProtocolError)
    else if b[4] as nat != VERSION then Err(ProtocolError)
    else if !ValidType(b[5]) then Err(ProtocolError)
    else
      var size := HEADER + DeclaredLength(b) + TRAILER;
      if size > maxBytes then Err(ResourceLimit)
      else if |b| != size then Err(ProtocolError)
      else if ValueOf(b[size - TRAILER..size]) != Crc32(b[..size - TRAILER]) then Err(ProtocolError)
      else Ok(Frame(b[5], b[HEADER..HEADER + DeclaredLength(b)]))
  }

  method DecodeFrame(b: seq<byte>, maxBytes: nat) returns (r: Result<Frame>)
    ensures r == Decode(b, maxBytes)
  {
    hide Crc32, ValueOf, ValidType;
    if |b| < HEADER + TRAILER {
      return Err(ProtocolError);
    }
    var reader := new ByteReader(b);
    var magic := reader.Num(4);
    if magic != MAGIC {
      return Err(ProtocolError);
    }
    var version := b[reader.pos];
    if version as nat != VERSION {
      return Err(ProtocolError);
    }
    var kind := b[reader.pos + 1];
    if !ValidType(kind) {
      return Err(ProtocolError);
    }
    reader.pos := reader.pos + 2;
    var length := reader.Num(4);
    var size := HEADER + length + TRAILER;
    if size > maxBytes {
      return Err(ResourceLimit);
    }
    if |b| < size {
      return Err(ProtocolError);
    }
    if |b| != size {
      return Err(ProtocolError);
    }
    var expected := ComputeCrc32(b[..size - TRAILER]);
    reader.pos := size - TRAILER;
    var stored := reader.Num(4);
    if stored != expected {
      return Err(ProtocolError);
    }
    r := Ok(Frame(kind, b[HEADER..HEADER + length]));
  }

  // ---- What acceptance means ----

  lemma PrefixFields(f: Frame, rest: seq<byte>)
    ensures var b := Prefix(f) + rest;
            b[0..4] == LittleEndian(MAGIC, 4) && b[4] as nat == VERSION && b[5] == f.kind &&
            b[6..10] == LittleEndian(|f.payload|, 4) && b[HEADER..HEADER + |f.payload|] == f.payload
  {
    var p4 := LittleEndian(|f.payload|, 4) + f.payload;
    var p3 := [f.kind] + p4;
    var p2 := LittleEndian(VERSION, 1) + p3;
    var b := Prefix(f) + rest;
    assert Holds(b, 0, Prefix(f));
    HoldsBoth(b, 0, LittleEndian(MAGIC, 4), p2);
    HoldsBoth(b, 4, LittleEndian(VERSION, 1), p3);
    HoldsBoth(b, 5, [f.kind], p4);
    HoldsBoth(b, 6, LittleEndian(|f.payload|, 4), f.payload);
    assert b[4..5][0] == b[4] && b[5..6][0] == b[5];
  }

  /** A frame survives the trip exactly when its type is a real one and its length fits the length field. */
  lemma DecodeEncode(f: Frame, maxBytes: nat)
    requires Encode(f, maxBytes).Ok?
    ensures Decode(Encode(f, maxBytes).value, maxBytes) == Ok(f)
       <==> ValidType(f.kind) && |f.payload| < 0x1_0000_0000
  {
    hide Crc32, Prefix, ValidType, LittleEndian, ValueOf;
    var p := Prefix(f);
    var trailer := LittleEndian(Crc32(p), 4);
    var b := p + trailer;
    PrefixFields(f, trailer);
    RadixValues();
    ValueOfLittleEndian(MAGIC, 4);
    Crc32Fits(p);
    ValueOfLittleEndian(Crc32(p), 4);
    assert b[|p|..|b|] == trailer && b[..|p|] == p;
    if |f.payload| < 0x1_0000_0000 {
      ValueOfLittleEndian(|f.payload|, 4);
    } else {
      LittleEndianValueOf(b[6..10]);
    }
  }

  /** Accepted bytes are the encoding of the frame they decode to: there is one form on the wire. */
  lemma EncodeDecode(b: seq<byte>, maxBytes: nat)
    requires Decode(b, maxBytes).Ok?
    ensures Encode(Decode(b, maxBytes).value, maxBytes) == Ok(b)
  {
    hide Crc32, ValidType, LittleEndian, ValueOf;
    var f := Decode(b, maxBytes).value;
    var n := HEADER + |f.payload|;
    LittleEndianValueOf(b[0..4]);
    LittleEndianValueOf(b[4..5]);
    LittleEndianValueOf(b[6..10]);
    LittleEndianValueOf(b[n..n + TRAILER]);
    assert LittleEndian(VERSION, 1) == b[4..5] by {
      OneByteVersion(b[4..5]);
    }
    assert b[..n] == b[0..4] + (b[4..5] + ([b[5]] + (b[6..10] + b[HEADER..n])));
    assert b == b[..n] + b[n..n + TRAILER];
  }

  lemma OneByteVersion(v: seq<byte>)
    requires |v| == 1 && v[0] as nat == VERSION
    ensures LittleEndian(VERSION, 1) == v
  {
    assert LittleEndian(VERSION, 1) == [VERSION as byte] + LittleEndian(0, 0);
  }

  /** No accepted frame is a proper prefix, or a proper extension, of another. */
  lemma FramesSelfDelimit(a: seq<byte>, b: seq<byte>, maxBytes: nat)
    requires Decode(a, maxBytes).Ok? && Decode(b, maxBytes).Ok? && a <= b
    ensures a == b
  {
    hide Crc32, ValidType, LittleEndian, ValueOf;
    assert a[6..10] == b[6..10];
  }

  lemma AcceptedIsSealed(b: seq<byte>, maxBytes: nat)
    requires Decode(b, maxBytes).Ok?
    ensures Sealed(b)
  {
    hide Crc32, ValidType, LittleEndian, ValueOf;
    var n := |b| - TRAILER;
    assert b[n..] == b[n..n + TRAILER];
  }

  /** Damage confined to any four consecutive bytes of an accepted frame, in whatever fields, is rejected. */
  lemma DamagedFrameRejected(a: seq<byte>, b: seq<byte>, i: nat, maxBytes: nat)
    requires Decode(a, maxBytes).Ok? && DifferWithin(a, b, i) && a != b
    ensures Decode(b, maxBytes).Err?
  {
    hide Crc32, ValidType, LittleEndian, ValueOf;
    AcceptedIsSealed(a, maxBytes);
    SealDetectsBurst(a, b, i);
    if Decode(b, maxBytes).Ok? {
      AcceptedIsSealed(b, maxBytes);
    }
  }

  // ---- Length-prefixed text inside payloads ----

  function TextBytes(s: Text): seq<byte>
  {
    var n := if |s| <= 65535 then |s| else 65535;
    LittleEndian(n, 2) + s[..n]
  }

  method PutText(out: ByteBuffer, s: Text)
    modifies out
    ensures out.bytes == old(out.bytes) + TextBytes(s)
  {
    var n := if |s| <= 65535 then |s| else 65535;
    out.PutNum(n, 2);
    out.PutBytes(s[..n]);
  }

  function ReadText(b: seq<byte>, c: Cursor): (Text, Cursor)
  {
    var (n, d) := ReadNum(b, c, 2);
    if d.bad || !(d.pos + n <= |b|) then ([], d.(bad := true))
    else (b[d.pos..d.pos + n], d.(pos := d.pos + n))
  }

  method GetText(reader: ByteReader) returns (s: Text)
    modifies reader
    ensures (s, reader.At()) == ReadText(reader.b, old(reader.At()))
  {
    var n := reader.Num(2);
    if reader.bad || !(reader.pos + n <= |reader.b|) {
      reader.bad := true;
      return [];
    }
    s := reader.Take(n);
  }

  /** Text comes back whole exactly when it is at most 65535 bytes long; longer text is cut there. */
  lemma TextRoundTrip(b: seq<byte>, pos: nat, s: Text)
    requires Holds(b, pos, TextBytes(s))
    ensures var (t, c) := ReadText(b, Cursor(pos, false));
            !c.bad && c.pos == pos + |TextBytes(s)| && t <= s && (t == s <==> |s| <= 65535)
  {
    hide LittleEndian, ValueOf;
    RadixValues();
    var n := if |s| <= 65535 then |s| else 65535;
    HoldsBoth(b, pos, LittleEndian(n, 2), s[..n]);
    ReadNumBack(b, pos, n, 2);
  }
}

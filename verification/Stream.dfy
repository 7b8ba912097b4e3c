/** Reading frames from a byte stream that arrives in chunks of any size. */
module Stream {
  import opened Bytes
  import opened Types
  import opened Checksum
  import opened Protocol

  /** The receiving end of a connection: `incoming` is all that will arrive before it closes or fails. */
  class Socket {
    const incoming: seq<byte>
    var taken: nat

    ghost predicate Valid()
      reads this
    {
      taken <= |incoming|
    }

    ghost function Remaining(): seq<byte>
      requires Valid()
      reads this
    {
      incoming[taken..]
    }

    constructor (incoming: seq<byte>)
      ensures Valid() && this.incoming == incoming && Remaining() == incoming
    {
      this.incoming, taken := incoming, 0;
    }

    /** Some of the next bytes, at least one and at most `max`; nothing once the stream has ended. */
    method Receive(max: nat) returns (chunk: seq<byte>)
      requires Valid() && max > 0
      modifies this
      ensures Valid() && |chunk| <= max
      ensures old(Remaining()) == chunk + Remaining()
      ensures chunk == [] <==> old(Remaining()) == []
    {
      if taken == |incoming| {
        return [];
      }
      var n: nat :| 1 <= n <= max && n <= |incoming| - taken;
      chunk := incoming[taken..taken + n];
      taken := taken + n;
    }
  }

  /** Appends a chunk to the part of the buffer that has been filled. */
  method CopyInto(buf: array<byte>, start: nat, off: nat, chunk: seq<byte>)
    requires start + off + |chunk| <= buf.Length
    modifies buf
    ensures buf[start..start + off + |chunk|] == old(buf[start..start + off]) + chunk
    ensures buf[..start] == old(buf[..start])
  {
    forall i | 0 <= i < |chunk| {
      buf[start + off + i] := chunk[i];
    }
  }

  /** Fills buf[start..start+n] or reports that the stream ended first; chunk boundaries leave no trace. */
  method ReceiveExact(s: Socket, buf: array<byte>, start: nat, n: nat) returns (ok: bool)
    requires s.Valid() && start + n <= buf.Length
    modifies s, buf
    ensures s.Valid()
    ensures ok <==> n <= |old(s.Remaining())|
    ensures ok ==> buf[start..start + n] == old(s.Remaining())[..n] && s.Remaining() == old(s.Remaining())[n..]
    ensures !ok ==> s.Remaining() == []
    ensures buf[..start] == old(buf[..start])
  {
    hide s.Remaining;
    ghost var stream := s.Remaining();
    var off := 0;
    while off < n
      invariant 0 <= off <= n && s.Valid()
      invariant stream == buf[start..start + off] + s.Remaining()
      invariant buf[..start] == old(buf[..start])
    {
      var chunk := s.Receive(n - off);
      if chunk == [] {
        return false;
      }
      CopyInto(buf, start, off, chunk);
      off := off + |chunk|;
    }
    ok := true;
  }

  /** `max_bytes - header - crc` in unsigned 64-bit arithmetic. */
  function PayloadBound(maxBytes: nat): nat
  {
    (maxBytes + Radix(8) - HEADER - TRAILER) % Radix(8)
  }

  /** The outcome of reading one frame from a stream, and what is left of the stream. */
  function ReadFrame(stream: seq<byte>, maxBytes: nat): (r: (Result<Frame>, seq<byte>))
    ensures r.0.Ok? ==> |r.1| < |stream|
  {
    if |stream| < HEADER then (Err(ProtocolError), [])
    else
      var n := DeclaredLength(stream[..HEADER]);
      var size := HEADER + n + TRAILER;
      if n > PayloadBound(maxBytes) then (Err(ResourceLimit), stream[HEADER..])
      else if |stream| < size then (Err(ProtocolError), [])
      else (Decode(stream[..size], maxBytes), stream[size..])
  }

  method ReceiveFrame(s: Socket, maxBytes: nat) returns (r: Result<Frame>)
    requires s.Valid()
    modifies s
    ensures s.Valid() && (r, s.Remaining()) == ReadFrame(old(s.Remaining()), maxBytes)
  {
    ghost var stream := s.Remaining();
    var header := new byte[HEADER];
    var ok := ReceiveExact(s, header, 0, HEADER);
    if !ok {
      return Err(ProtocolError);
    }
    assert header[..] == stream[..HEADER];
    var n := DeclaredLength(header[..]);
    if n > PayloadBound(maxBytes) {
      return Err(ResourceLimit);
    }
    var full := new byte[HEADER + n + TRAILER];
    forall i | 0 <= i < HEADER {
      full[i] := header[i];
    }
    ok := ReceiveExact(s, full, HEADER, n + TRAILER);
    if !ok {
      return Err(ProtocolError);
    }
    assert full[..] == full[..HEADER] + full[HEADER..HEADER + n + TRAILER];
    assert full[..HEADER] == stream[..HEADER];
    assert full[..] == stream[..HEADER + n + TRAILER];
    r := DecodeFrame(full[..], maxBytes);
  }

  /** Every frame up to the first that cannot be read, as the serving loop sees them. */
  function ReadFrames(stream: seq<byte>, maxBytes: nat): seq<Frame>
    decreases |stream|
  {
    var (r, rest) := ReadFrame(stream, maxBytes);
    if r.Err? then [] else [r.value] + ReadFrames(rest, maxBytes)
  }

  method ServeFrames(s: Socket, maxBytes: nat) returns (frames: seq<Frame>)
    requires s.Valid()
    modifies s
    ensures s.Valid() && frames == ReadFrames(old(s.Remaining()), maxBytes)
  {
    hide Decode, DeclaredLength, PayloadBound;
    frames := [];
    while true
      invariant s.Valid()
      invariant frames + ReadFrames(s.Remaining(), maxBytes) == ReadFrames(old(s.Remaining()), maxBytes)
      decreases |s.Remaining()|
    {
      ghost var stream := s.Remaining();
      var r := ReceiveFrame(s, maxBytes);
      if r.Err? {
        return;
      }
      assert frames + ReadFrames(stream, maxBytes) == (frames + [r.value]) + ReadFrames(s.Remaining(), maxBytes);
      frames := frames + [r.value];
    }
  }

  /** The frames of `fs` as they are sent, one after the other. */
  function Sent(fs: seq<Frame>, maxBytes: nat): seq<byte>
    requires forall i :: 0 <= i < |fs| ==> Encode(fs[i], maxBytes).Ok?
  {
    if fs == [] then [] else Encode(fs[0], maxBytes).value + Sent(fs[1..], maxBytes)
  }

  /** A frame of a known type whose length the header can carry. */
  ghost predicate Sendable(f: Frame)
  {
    ValidType(f.kind) && |f.payload| < 0x1_0000_0000
  }

  lemma BoundAdmits(n: nat, maxBytes: nat)
    requires HEADER + n + TRAILER <= maxBytes < Radix(8)
    ensures n <= PayloadBound(maxBytes)
  {
    hide Radix;
    assert maxBytes + Radix(8) - HEADER - TRAILER == Radix(8) + (maxBytes - HEADER - TRAILER);
  }

  /** A length is too large exactly when the whole frame would exceed the bound; below 14 bytes the subtraction wraps,
    * and none is. */
  lemma BoundRefuses(n: nat, maxBytes: nat)
    requires n < 0x1_0000_0000 && maxBytes < Radix(8)
    ensures n > PayloadBound(maxBytes) <==> maxBytes >= 14 && 14 + n > maxBytes
  {
    RadixValues();
    hide Radix;
    if maxBytes >= 14 {
      assert maxBytes + Radix(8) - HEADER - TRAILER == Radix(8) + (maxBytes - 14);
    }
  }

  lemma ReadFirstFrame(f: Frame, rest: seq<byte>, maxBytes: nat)
    requires Encode(f, maxBytes).Ok? && Sendable(f) && maxBytes < Radix(8)
    ensures ReadFrame(Encode(f, maxBytes).value + rest, maxBytes) == (Ok(f), rest)
  {
    hide Crc32, Prefix, ValidType, ValueOf, LittleEndian, Decode;
    RadixValues();
    BoundAdmits(|f.payload|, maxBytes);
    var b := Encode(f, maxBytes).value;
    var stream := b + rest;
    DecodeEncode(f, maxBytes);
    PrefixFields(f, b[|Prefix(f)|..] + rest);
    assert stream == Prefix(f) + (b[|Prefix(f)|..] + rest);
    assert stream[..HEADER][6..10] == stream[6..10];
    ValueOfLittleEndian(|f.payload|, 4);
    assert stream[..|b|] == b && stream[|b|..] == rest;
  }

  /** Whatever the chunking, a reader of a concatenation of frames sees exactly the frames sent, and then goes
    * on with whatever follows them. */
  lemma {:induction false} FramesArriveAsSent(fs: seq<Frame>, rest: seq<byte>, maxBytes: nat)
    requires forall i :: 0 <= i < |fs| ==> Encode(fs[i], maxBytes).Ok? && Sendable(fs[i])
    requires maxBytes < Radix(8)
    ensures ReadFrames(Sent(fs, maxBytes) + rest, maxBytes) == fs + ReadFrames(rest, maxBytes)
  {
    hide Encode, ReadFrame, Sendable, Radix;
    if fs == [] {
      assert Sent(fs, maxBytes) + rest == rest;
    } else {
      var b := Encode(fs[0], maxBytes).value;
      var tail := Sent(fs[1..], maxBytes) + rest;
      assert Sent(fs, maxBytes) + rest == b + tail;
      ReadFirstFrame(fs[0], tail, maxBytes);
      FramesArriveAsSent(fs[1..], rest, maxBytes);
      assert fs + ReadFrames(rest, maxBytes) == [fs[0]] + (fs[1..] + ReadFrames(rest, maxBytes));
    }
  }

  /** A reader never invents a frame: what it reports is, re-encoded, a prefix of what arrived. */
  lemma {:induction false} FramesReadWereSent(stream: seq<byte>, maxBytes: nat)
    ensures var fs := ReadFrames(stream, maxBytes);
            (forall i :: 0 <= i < |fs| ==> Encode(fs[i], maxBytes).Ok?) && Sent(fs, maxBytes) <= stream
    decreases |stream|
  {
    hide Decode, Encode;
    var (r, rest) := ReadFrame(stream, maxBytes);
    if r.Ok? {
      var size := |stream| - |rest|;
      EncodeDecode(stream[..size], maxBytes);
      FramesReadWereSent(rest, maxBytes);
      var fs := ReadFrames(rest, maxBytes);
      assert ([r.value] + fs)[1..] == fs;
      assert stream == stream[..size] + rest;
    }
  }
}

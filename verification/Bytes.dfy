/** Bytes, little-endian integers, and the growing buffer and advancing reader shared by both codecs. */
module Bytes {

  newtype byte = n: int | 0 <= n < 256

  /** A C++ `std::string` or byte vector. */
  type Text = seq<byte>

  /** The number of values that fit in k bytes. */
  function Radix(k: nat): (r: nat)
    ensures r > 0
  {
    if k == 0 then 1 else 256 * Radix(k - 1)
  }

  lemma RadixValues()
    ensures Radix(1) == 0x100 && Radix(2) == 0x1_0000
    ensures Radix(4) == 0x1_0000_0000 && Radix(8) == 0x1_0000_0000_0000_0000
  {
    assert Radix(3) == 0x100_0000;
    assert Radix(5) == 0x100_0000_0000;
    assert Radix(6) == 0x1_0000_0000_0000;
    assert Radix(7) == 0x100_0000_0000_0000;
  }

  /** The k low-order bytes of v, least significant first; higher bytes of v are lost. */
  function LittleEndian(v: nat, k: nat): (bs: seq<byte>)
    ensures |bs| == k
  {
    if k == 0 then [] else [(v % 256) as byte] + LittleEndian(v / 256, k - 1)
  }

  function ValueOf(bs: seq<byte>): nat
  {
    if bs == [] then 0 else bs[0] as nat + 256 * ValueOf(bs[1..])
  }

  lemma ShiftedRemainder(v: nat, r: nat)
    requires r > 0
    ensures v % (256 * r) == v % 256 + 256 * ((v / 256) % r)
  {
    var low, rest := v % 256, v / 256;
    var q, m := rest / r, rest % r;
    assert rest == r * q + m;
    assert v == (256 * r) * q + (low + 256 * m);
    RemainderOf(v, 256 * r, q, low + 256 * m);
  }

  lemma AtLeastOnce(d: int, e: int)
    requires d >= 0 && e >= 1
    ensures d * e >= d
  {
    Distributed(d, e, 1);
    NotNegative(d, e - 1);
  }

  lemma NotNegative(d: int, e: int)
    requires d >= 0 && e >= 0
    ensures d * e >= 0
  {
  }

  lemma Distributed(d: int, q: int, r: int)
    ensures d * (q - r) == d * q - d * r
  {
  }

  lemma RemainderOf(v: nat, d: nat, q: nat, m: nat)
    requires v == d * q + m && m < d
    ensures v % d == m
  {
    assert v == d * (v / d) + v % d;
    Distributed(d, q, v / d);
    Distributed(d, v / d, q);
    if q > v / d {
      AtLeastOnce(d, q - v / d);
    } else if q < v / d {
      AtLeastOnce(d, v / d - q);
    }
  }

  lemma {:induction false} ValueOfLittleEndian(v: nat, k: nat)
    ensures ValueOf(LittleEndian(v, k)) == v % Radix(k)
    ensures v < Radix(k) ==> ValueOf(LittleEndian(v, k)) == v
  {
    if k > 0 {
      ValueOfLittleEndian(v / 256, k - 1);
      assert LittleEndian(v, k)[1..] == LittleEndian(v / 256, k - 1);
      ShiftedRemainder(v, Radix(k - 1));
    }
    if v < Radix(k) {
      RemainderOf(v, Radix(k), 0, v);
    }
  }

  lemma Grouped(d: nat, e: nat, q: nat, m: nat)
    ensures d * (e * q + m) == (d * e) * q + d * m
  {
    assert d * (e * q + m) == d * (e * q) + d * m;
    assert d * (e * q) == (d * e) * q;
  }

  lemma Below(d: nat, e: nat, m: nat, r: nat)
    requires m < e && r < d
    ensures d * m + r < d * e
  {
    AtLeastOnce(d, e - m);
    Distributed(d, e, m);
  }

  lemma QuotientTwice(v: nat, d: nat, e: nat, h: nat, q: nat, m: nat, r: nat)
    requires v == d * h + r && h == e * q + m && m < e && r < d && d * e > 0
    ensures v / (d * e) == q
  {
    Grouped(d, e, q, m);
    Below(d, e, m, r);
    QuotientOf(v, d * e, q, d * m + r);
  }

  lemma Divided(v: nat, d: nat)
    requires d > 0
    ensures v == d * (v / d) + v % d && v % d < d
  {
  }

  lemma DivideTwice(v: nat, d: nat, e: nat)
    requires d > 0 && e > 0
    ensures d * e > 0 && v / d / e == v / (d * e)
  {
    AtLeastOnce(d, e);
    Divided(v, d);
    Divided(v / d, e);
    QuotientTwice(v, d, e, v / d, v / d / e, v / d % e, v % d);
  }

  lemma QuotientOf(v: nat, d: nat, q: nat, m: nat)
    requires v == d * q + m && m < d
    ensures v / d == q
  {
    RemainderOf(v, d, q, m);
    assert d * (v / d) == d * q;
    SameFactor(d, q, v / d);
  }

  lemma SameFactor(d: nat, a: nat, b: nat)
    requires d > 0 && d * a == d * b
    ensures a == b
  {
  }

  /** Byte i of the written form is digit i to the base 256. */
  lemma {:induction false} DigitOfLittleEndian(v: nat, k: nat, i: nat)
    requires i < k
    ensures LittleEndian(v, k)[i] as nat == v / Radix(i) % 256
    decreases k
  {
    if i > 0 {
      DigitOfLittleEndian(v / 256, k - 1, i - 1);
      DivideTwice(v, 256, Radix(i - 1));
    }
  }

  lemma LowestDigit(d: nat, rest: nat)
    requires d < 256
    ensures (d + 256 * rest) % 256 == d && (d + 256 * rest) / 256 == rest
  {
  }

  lemma {:induction false} LittleEndianValueOf(bs: seq<byte>)
    ensures LittleEndian(ValueOf(bs), |bs|) == bs
    ensures ValueOf(bs) < Radix(|bs|)
  {
    if bs != [] {
      LittleEndianValueOf(bs[1..]);
      LowestDigit(bs[0] as nat, ValueOf(bs[1..]));
    }
  }

  /** `x` occupies bytes [pos, pos + |x|) of `b`. */
  ghost predicate Holds(b: seq<byte>, pos: nat, x: seq<byte>)
  {
    pos + |x| <= |b| && b[pos..pos + |x|] == x
  }

  lemma HoldsBoth(b: seq<byte>, pos: nat, x: seq<byte>, y: seq<byte>)
    ensures Holds(b, pos, x + y) <==> Holds(b, pos, x) && Holds(b, pos + |x|, y)
  {
    if pos + |x| + |y| <= |b| {
      var w := b[pos..pos + |x| + |y|];
      assert w[..|x|] == b[pos..pos + |x|] && w[|x|..] == b[pos + |x|..pos + |x| + |y|];
      if w == x + y {
        assert w[..|x|] == x && w[|x|..] == y;
      }
      assert w == w[..|x|] + w[|x|..];
    }
  }

  // Reading: a failed read sets `bad`, leaves the position and yields zero; later reads still go ahead.

  datatype Cursor = Cursor(pos: nat, bad: bool)

  function ReadNum(b: seq<byte>, c: Cursor, k: nat): (r: (nat, Cursor))
    ensures c.bad ==> r.1.bad
  {
    if c.pos + k <= |b| then (ValueOf(b[c.pos..c.pos + k]), c.(pos := c.pos + k))
    else (0, c.(bad := true))
  }

  lemma ReadNumBack(b: seq<byte>, pos: nat, v: nat, k: nat)
    requires v < Radix(k) && Holds(b, pos, LittleEndian(v, k))
    ensures ReadNum(b, Cursor(pos, false), k) == (v, Cursor(pos + k, false))
  {
    ValueOfLittleEndian(v, k);
  }

  lemma ReadNumFits(b: seq<byte>, c: Cursor, k: nat)
    ensures ReadNum(b, c, k).0 < Radix(k)
  {
    if c.pos + k <= |b| {
      LittleEndianValueOf(b[c.pos..c.pos + k]);
    }
  }

  class ByteBuffer {
    var bytes: seq<byte>

    constructor ()
      ensures bytes == []
    {
      bytes := [];
    }

    method PutNum(v: nat, k: nat)
      modifies this
      ensures bytes == old(bytes) + LittleEndian(v, k)
    {
      var rest, i := v, 0;
      while i < k
        invariant 0 <= i <= k
        invariant bytes + LittleEndian(rest, k - i) == old(bytes) + LittleEndian(v, k)
      {
        var before := bytes;
        bytes := bytes + [(rest % 256) as byte];
        assert before + LittleEndian(rest, k - i) == bytes + LittleEndian(rest / 256, k - i - 1);
        rest, i := rest / 256, i + 1;
      }
    }

    method PutBytes(s: seq<byte>)
      modifies this
      ensures bytes == old(bytes) + s
    {
      var i := 0;
      while i < |s|
        invariant 0 <= i <= |s|
        invariant bytes == old(bytes) + s[..i]
      {
        bytes := bytes + [s[i]];
        i := i + 1;
      }
    }
  }

  class ByteReader {
    const b: seq<byte>
    var pos: nat
    var bad: bool

    constructor (b: seq<byte>)
      ensures this.b == b && pos == 0 && !bad
    {
      this.b, pos, bad := b, 0, false;
    }

    function At(): Cursor
      reads this
    {
      Cursor(pos, bad)
    }

    method Num(k: nat) returns (v: nat)
      modifies this
      ensures (v, At()) == ReadNum(b, old(At()), k)
    {
      if !(pos + k <= |b|) {
        bad := true;
        return 0;
      }
      v := 0;
      var i := k;
      while i > 0
        invariant 0 <= i <= k
        invariant v == ValueOf(b[pos + i..pos + k])
      {
        i := i - 1;
        assert b[pos + i..pos + k][1..] == b[pos + i + 1..pos + k];
        v := b[pos + i] as nat + 256 * v;
      }
      pos := pos + k;
    }

    /** Copies n bytes; the caller has checked that they are there. */
    method Take(n: nat) returns (s: seq<byte>)
      requires pos + n <= |b|
      modifies this`pos
      ensures s == b[old(pos)..old(pos) + n] && pos == old(pos) + n
    {
      s := [];
      var i := 0;
      while i < n
        invariant 0 <= i <= n && pos == old(pos) + i
        invariant s == b[old(pos)..pos]
      {
        s := s + [b[pos]];
        pos, i := pos + 1, i + 1;
      }
    }
  }
}

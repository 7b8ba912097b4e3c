/** CRC-32 in reflected form with complement before and after (section 8 of RFC 1952). */
module Checksum {
  import opened Bytes

  /** The 32-bit shift register; proofs above the bit level use it only through the operations named here. */
  type Register = bv32

  const ONES: Register := 0xFFFF_FFFF
  const POLYNOMIAL: Register := 0xEDB88320

  function Xor(a: Register, b: Register): Register
  {
    a ^ b
  }

  function Complement(a: Register): Register
  {
    !a
  }

  function Half(a: Register): Register
  {
    a >> 1
  }

  function Up(a: Register): Register
  {
    a << 8
  }

  function Down(a: Register): Register
  {
    a >> 8
  }

  function Low(a: Register): Register
  {
    a & 0xFF
  }

  predicate Even(a: Register)
  {
    a & 1 == 0
  }

  predicate TopByteZero(a: Register)
  {
    a >> 24 == 0
  }

  // A byte as bits and back, one half at a time.

  function HighHalf(v: Register): bv4
  {
    ((v >> 4) & 0xF) as bv4
  }

  function LowHalf(v: Register): bv4
  {
    (v & 0xF) as bv4
  }

  function Join(h: bv4, l: bv4): Register
  {
    ((h as bv32) << 4) | (l as bv32)
  }

  function Number(h: bv4, l: bv4): byte
  {
    (16 * (h as int) + l as int) as byte
  }

  function FromByte(b: byte): Register
  {
    Join((b / 16) as bv4, (b % 16) as bv4)
  }

  function LowByte(v: Register): byte
  {
    Number(HighHalf(v), LowHalf(v))
  }

  /** One bit of division by the polynomial. */
  function Step(c: Register): Register
  {
    if Even(c) then Half(c) else Xor(Half(c), POLYNOMIAL)
  }

  /** The same, as the inner loop computes it: under a mask that is all ones when the low bit is set. */
  function MaskedStep(c: Register): Register
  {
    Xor(Half(c), POLYNOMIAL & Mask(c))
  }

  function Mask(c: Register): Register
  {
    0 - (c & 1)
  }

  function Steps(c: Register, k: nat): Register
    decreases k
  {
    if k == 0 then c else Steps(Step(c), k - 1)
  }

  function ByteStep(c: Register, b: byte): Register
  {
    Steps(Xor(c, FromByte(b)), 8)
  }

  /** The register after the bytes of `s`, started from `c`. */
  function Absorb(c: Register, s: seq<byte>): Register
    decreases s
  {
    if s == [] then c else Absorb(ByteStep(c, s[0]), s[1..])
  }

  /** The four bytes of a register, least significant first. */
  function RegisterBytes(w: Register): (bs: seq<byte>)
    ensures |bs| == 4
  {
    [LowByte(w), LowByte(Down(w)), LowByte(Down(Down(w))), LowByte(Down(Down(Down(w))))]
  }

  function Word(b0: byte, b1: byte, b2: byte, b3: byte): Register
  {
    Xor(FromByte(b0), Up(Xor(FromByte(b1), Up(Xor(FromByte(b2), Up(FromByte(b3)))))))
  }

  /** The checksum of `data` as a number. */
  function Crc32(data: seq<byte>): nat
  {
    ValueOf(RegisterBytes(Complement(Absorb(ONES, data))))
  }

  lemma Crc32Fits(data: seq<byte>)
    ensures Crc32(data) < Radix(4)
  {
    hide Complement, Absorb;
    LittleEndianValueOf(RegisterBytes(Complement(Absorb(ONES, data))));
  }

  method ComputeCrc32(data: seq<byte>) returns (crc: nat)
    ensures crc == Crc32(data)
  {
    var c := ONES;
    var i := 0;
    while i < |data|
      invariant 0 <= i <= |data|
      invariant Absorb(c, data[i..]) == Absorb(ONES, data)
    {
      hide Xor, FromByte, Step;
      ghost var before := c;
      c := Xor(c, FromByte(data[i]));
      var k := 0;
      while k < 8
        invariant 0 <= k <= 8
        invariant Steps(c, 8 - k) == ByteStep(before, data[i])
      {
        MaskForm(c);
        c := MaskedStep(c);
        k := k + 1;
      }
      assert data[i..][1..] == data[i + 1..];
      i := i + 1;
    }
    crc := ValueOf(RegisterBytes(Complement(c)));
  }

  // ---- Facts about single words ----

  lemma MaskCases(c: Register)
    ensures Mask(c) == if Even(c) then 0 else 0xFFFF_FFFF
  {
  }

  lemma MaskForm(c: Register)
    ensures MaskedStep(c) == Step(c)
  {
    hide Mask, Half, Even;
    MaskCases(c);
  }

  lemma XorCommutes(a: Register, b: Register)
    ensures Xor(a, b) == Xor(b, a)
  {
  }

  lemma XorAssociates(a: Register, b: Register, c: Register)
    ensures Xor(Xor(a, b), c) == Xor(a, Xor(b, c))
  {
  }

  lemma XorSwaps(a: Register, b: Register, c: Register)
    ensures Xor(Xor(a, b), c) == Xor(Xor(a, c), b)
  {
    hide *;
    XorAssociates(a, b, c);
    XorAssociates(a, c, b);
    XorCommutes(b, c);
  }

  lemma XorCancels(a: Register, b: Register, x: Register)
    requires Xor(a, x) == Xor(b, x)
    ensures a == b
  {
  }

  lemma XorCancelsLeft(x: Register, a: Register, b: Register)
    requires Xor(x, a) == Xor(x, b)
    ensures a == b
  {
    hide *;
    XorCommutes(x, a);
    XorCommutes(x, b);
    XorCancels(a, b, x);
  }

  lemma XorOfComplement(d: bv32)
    ensures d ^ !d == 0xFFFF_FFFF
  {
  }

  lemma ComplementXor(d: Register, w: Register)
    ensures Xor(d, w) == ONES <==> w == Complement(d)
  {
    hide Xor, Complement;
    assert Xor(d, Complement(d)) == ONES by {
      XorOfComplement(d);
      ComplementXorBits(d);
    }
    if Xor(d, w) == ONES {
      XorCancelsLeft(d, w, Complement(d));
    }
  }

  lemma ComplementXorBits(d: Register)
    ensures Xor(d, Complement(d)) == d ^ !d
  {
  }

  lemma ComplementInjective(d: Register, w: Register)
    requires Complement(d) == Complement(w)
    ensures d == w
  {
  }

  lemma HalfXor(c: Register, y: Register)
    ensures Half(Xor(c, y)) == Xor(Half(c), Half(y))
  {
  }

  lemma EvenXor(c: Register, y: Register)
    requires Even(y)
    ensures Even(Xor(c, y)) == Even(c)
  {
  }

  lemma StepInjective(a: Register, b: Register)
    requires Step(a) == Step(b)
    ensures a == b
  {
  }

  lemma StepPassesHighBits(c: Register, y: Register)
    requires Even(y)
    ensures Step(Xor(c, y)) == Xor(Step(c), Half(y))
  {
    hide Xor, Half, Even;
    HalfXor(c, y);
    EvenXor(c, y);
    XorSwaps(Half(c), Half(y), POLYNOMIAL);
  }

  lemma Shifted8(r: Register) requires TopByteZero(r) ensures Even(Up(r)) && Half(Up(r)) == r << 7 {}
  lemma Shifted7(r: Register) requires TopByteZero(r) ensures Even(r << 7) && Half(r << 7) == r << 6 {}
  lemma Shifted6(r: Register) requires TopByteZero(r) ensures Even(r << 6) && Half(r << 6) == r << 5 {}
  lemma Shifted5(r: Register) requires TopByteZero(r) ensures Even(r << 5) && Half(r << 5) == r << 4 {}
  lemma Shifted4(r: Register) requires TopByteZero(r) ensures Even(r << 4) && Half(r << 4) == r << 3 {}
  lemma Shifted3(r: Register) requires TopByteZero(r) ensures Even(r << 3) && Half(r << 3) == r << 2 {}
  lemma Shifted2(r: Register) requires TopByteZero(r) ensures Even(r << 2) && Half(r << 2) == r << 1 {}
  lemma Shifted1(r: Register) requires TopByteZero(r) ensures Even(r << 1) && Half(r << 1) == r {}

  lemma UpIsEven(r: Register)
    requires TopByteZero(r)
    ensures var y0 := Up(r); var y1 := Half(y0); var y2 := Half(y1); var y3 := Half(y2);
            var y4 := Half(y3); var y5 := Half(y4); var y6 := Half(y5); var y7 := Half(y6);
            Even(y0) && Even(y1) && Even(y2) && Even(y3) && Even(y4) && Even(y5) && Even(y6) && Even(y7) &&
            Half(y7) == r
  {
    hide *;
    Shifted8(r);
    Shifted7(r);
    Shifted6(r);
    Shifted5(r);
    Shifted4(r);
    Shifted3(r);
    Shifted2(r);
    Shifted1(r);
  }

  lemma HalvesOfJoin(h: bv4, l: bv4)
    ensures HighHalf(Join(h, l)) == h && LowHalf(Join(h, l)) == l && Down(Join(h, l)) == 0
  {
  }

  lemma JoinOfHalves(v: Register)
    ensures Join(HighHalf(v), LowHalf(v)) == Low(v)
  {
  }

  lemma HalfOfNumber(h: bv4)
    ensures 0 <= h as int < 16 && (h as int) as bv4 == h
  {
  }

  lemma NumberOfHalf(n: byte)
    requires n < 16
    ensures (n as bv4) as byte == n
  {
  }

  lemma FromNumber(h: bv4, l: bv4)
    ensures FromByte(Number(h, l)) == Join(h, l)
  {
    hide Join;
    HalfOfNumber(h);
    HalfOfNumber(l);
    var n := 16 * (h as int) + l as int;
    assert n / 16 == h as int && n % 16 == l as int;
  }

  lemma FromLowByte(v: Register)
    ensures FromByte(LowByte(v)) == Low(v)
  {
    hide FromByte, Number, HighHalf, LowHalf, Join, Low;
    FromNumber(HighHalf(v), LowHalf(v));
    JoinOfHalves(v);
  }

  lemma FromByteInjective(a: byte, b: byte)
    requires FromByte(a) == FromByte(b)
    ensures a == b
  {
    hide Join, HighHalf, LowHalf;
    HalvesOfJoin((a / 16) as bv4, (a % 16) as bv4);
    HalvesOfJoin((b / 16) as bv4, (b % 16) as bv4);
    NumberOfHalf(a / 16);
    NumberOfHalf(a % 16);
    NumberOfHalf(b / 16);
    NumberOfHalf(b % 16);
  }

  lemma FromByteIsSmall(b: byte)
    ensures Down(FromByte(b)) == 0
  {
    hide Join, HighHalf, LowHalf, Down;
    HalvesOfJoin((b / 16) as bv4, (b % 16) as bv4);
  }

  lemma TopBytesZero(x1: Register, x2: Register, x3: Register)
    requires Down(x1) == 0 && Down(x2) == 0 && Down(x3) == 0
    ensures TopByteZero(x3) && TopByteZero(Xor(x2, Up(x3))) && TopByteZero(Xor(x1, Up(Xor(x2, Up(x3)))))
  {
  }

  lemma TopBytesOfWordZero(b1: byte, b2: byte, b3: byte)
    ensures var x1, x2, x3 := FromByte(b1), FromByte(b2), FromByte(b3);
            TopByteZero(x3) && TopByteZero(Xor(x2, Up(x3))) && TopByteZero(Xor(x1, Up(Xor(x2, Up(x3)))))
  {
    hide *;
    FromByteIsSmall(b1);
    FromByteIsSmall(b2);
    FromByteIsSmall(b3);
    TopBytesZero(FromByte(b1), FromByte(b2), FromByte(b3));
  }

  lemma LowestByteApart(a: Register, r: Register, b: Register, q: Register)
    requires Down(a) == 0 && Down(b) == 0 && TopByteZero(r) && TopByteZero(q)
    requires Xor(a, Up(r)) == Xor(b, Up(q))
    ensures a == b && r == q
  {
  }

  lemma LowestByteDetermined(a: byte, r: Register, b: byte, q: Register)
    requires TopByteZero(r) && TopByteZero(q)
    requires Xor(FromByte(a), Up(r)) == Xor(FromByte(b), Up(q))
    ensures a == b && r == q
  {
    hide *;
    FromByteIsSmall(a);
    FromByteIsSmall(b);
    LowestByteApart(FromByte(a), r, FromByte(b), q);
    FromByteInjective(a, b);
  }

  lemma WordInjective(a0: byte, a1: byte, a2: byte, a3: byte, b0: byte, b1: byte, b2: byte, b3: byte)
    requires Word(a0, a1, a2, a3) == Word(b0, b1, b2, b3)
    ensures a0 == b0 && a1 == b1 && a2 == b2 && a3 == b3
  {
    hide Xor, Up, FromByte, TopByteZero;
    TopBytesOfWordZero(a1, a2, a3);
    TopBytesOfWordZero(b1, b2, b3);
    var r2, q2 := Xor(FromByte(a2), Up(FromByte(a3))), Xor(FromByte(b2), Up(FromByte(b3)));
    LowestByteDetermined(a0, Xor(FromByte(a1), Up(r2)), b0, Xor(FromByte(b1), Up(q2)));
    LowestByteDetermined(a1, r2, b1, q2);
    LowestByteDetermined(a2, FromByte(a3), b2, FromByte(b3));
    FromByteInjective(a3, b3);
  }

  lemma SplitLow(v: Register)
    ensures Xor(Low(v), Up(Down(v))) == v && TopByteZero(Down(v))
    ensures Low(Down(Down(Down(v)))) == Down(Down(Down(v)))
  {
  }

  lemma SplitLowByte(v: Register)
    ensures Xor(FromByte(LowByte(v)), Up(Down(v))) == v && TopByteZero(Down(v))
    ensures FromByte(LowByte(Down(Down(Down(v))))) == Down(Down(Down(v)))
  {
    hide *;
    SplitLow(v);
    FromLowByte(v);
    FromLowByte(Down(Down(Down(v))));
  }

  lemma WordOfRegisterBytes(w: Register)
    ensures var bs := RegisterBytes(w); Word(bs[0], bs[1], bs[2], bs[3]) == w
  {
    hide Xor, FromByte, LowByte, Up, Down;
    SplitLowByte(w);
    SplitLowByte(Down(w));
    SplitLowByte(Down(Down(w)));
  }

  // ---- Many steps: a bijection, through which bits still to be shifted down pass untouched ----

  lemma {:induction false} StepsInjective(a: Register, b: Register, k: nat)
    requires Steps(a, k) == Steps(b, k)
    ensures a == b
    decreases k
  {
    hide Step;
    if k > 0 {
      StepsInjective(Step(a), Step(b), k - 1);
      StepInjective(a, b);
    }
  }

  lemma {:induction false} StepsAdd(c: Register, j: nat, k: nat)
    ensures Steps(c, j + k) == Steps(Steps(c, j), k)
    decreases j
  {
    hide Step;
    if j > 0 {
      StepsAdd(Step(c), j - 1, k);
    }
  }

  /** Eight steps of a register whose upper bits are still to be mixed in by `r`. */
  lemma EightSteps(c: Register, r: Register)
    requires TopByteZero(r)
    ensures Steps(Xor(c, Up(r)), 8) == Xor(Steps(c, 8), r)
  {
    hide Step, Xor, Up, Half, Even, TopByteZero;
    UpIsEven(r);
    var c0, y0 := c, Up(r);
    var c1, y1 := Step(c0), Half(y0);
    StepPassesHighBits(c0, y0);
    var c2, y2 := Step(c1), Half(y1);
    StepPassesHighBits(c1, y1);
    var c3, y3 := Step(c2), Half(y2);
    StepPassesHighBits(c2, y2);
    var c4, y4 := Step(c3), Half(y3);
    StepPassesHighBits(c3, y3);
    var c5, y5 := Step(c4), Half(y4);
    StepPassesHighBits(c4, y4);
    var c6, y6 := Step(c5), Half(y5);
    StepPassesHighBits(c5, y5);
    var c7, y7 := Step(c6), Half(y6);
    StepPassesHighBits(c6, y6);
    StepPassesHighBits(c7, y7);
  }

  /** The table form of section 8 of RFC 1952: the table entry of the low byte, mixed with the upper bytes. */
  lemma TableForm(c: Register)
    ensures Steps(c, 8) == Xor(Steps(FromByte(LowByte(c)), 8), Down(c))
  {
    hide *;
    SplitLowByte(c);
    EightSteps(FromByte(LowByte(c)), Down(c));
  }

  /** Absorbing four bytes is mixing in their word at once and then taking 32 bit steps. */
  lemma AbsorbWord(c: Register, b0: byte, b1: byte, b2: byte, b3: byte)
    ensures Absorb(c, [b0, b1, b2, b3]) == Steps(Xor(c, Word(b0, b1, b2, b3)), 32)
  {
    hide Step, Steps, Xor, Up, FromByte, TopByteZero;
    var r3 := FromByte(b3);
    var r2 := Xor(FromByte(b2), Up(r3));
    var r1 := Xor(FromByte(b1), Up(r2));
    TopBytesOfWordZero(b1, b2, b3);
    var c1 := ByteStep(c, b0);
    ByteAndRest(c, b0, r1);
    StepsAdd(Xor(c, Word(b0, b1, b2, b3)), 8, 24);
    var c2 := ByteStep(c1, b1);
    ByteAndRest(c1, b1, r2);
    StepsAdd(Xor(c1, r1), 8, 16);
    var c3 := ByteStep(c2, b2);
    ByteAndRest(c2, b2, r3);
    StepsAdd(Xor(c2, r2), 8, 8);
    AbsorbFour(c, b0, b1, b2, b3);
  }

  lemma ByteAndRest(c: Register, b: byte, r: Register)
    requires TopByteZero(r)
    ensures Steps(Xor(c, Xor(FromByte(b), Up(r))), 8) == Xor(ByteStep(c, b), r)
  {
    hide Step, Steps, Xor, Up, FromByte, TopByteZero;
    XorAssociates(c, FromByte(b), Up(r));
    EightSteps(Xor(c, FromByte(b)), r);
  }

  lemma AbsorbFour(c: Register, b0: byte, b1: byte, b2: byte, b3: byte)
    ensures Absorb(c, [b0, b1, b2, b3]) == ByteStep(ByteStep(ByteStep(ByteStep(c, b0), b1), b2), b3)
  {
    hide ByteStep;
    AbsorbAppend(c, [b0], [b1, b2, b3]);
    AbsorbAppend(ByteStep(c, b0), [b1], [b2, b3]);
    AbsorbAppend(ByteStep(ByteStep(c, b0), b1), [b2], [b3]);
    assert [b0] + [b1, b2, b3] == [b0, b1, b2, b3] && [b1] + [b2, b3] == [b1, b2, b3] && [b2] + [b3] == [b2, b3];
  }

  lemma {:induction false} AbsorbAppend(c: Register, a: seq<byte>, b: seq<byte>)
    ensures Absorb(c, a + b) == Absorb(Absorb(c, a), b)
    decreases a
  {
    hide ByteStep;
    if a == [] {
      assert a + b == b;
    } else {
      assert (a + b)[1..] == a[1..] + b;
      AbsorbAppend(ByteStep(c, a[0]), a[1..], b);
    }
  }

  /** Registers that differ stay different over any common suffix. */
  lemma {:induction false} AbsorbInjective(c: Register, d: Register, s: seq<byte>)
    requires Absorb(c, s) == Absorb(d, s)
    ensures c == d
    decreases s
  {
    hide Steps, Xor, FromByte;
    if s != [] {
      AbsorbInjective(ByteStep(c, s[0]), ByteStep(d, s[0]), s[1..]);
      StepsInjective(Xor(c, FromByte(s[0])), Xor(d, FromByte(s[0])), 8);
      XorCancels(c, d, FromByte(s[0]));
    }
  }

  /** `a` and `b` agree everywhere outside the four positions from i on. */
  ghost predicate DifferWithin(a: seq<byte>, b: seq<byte>, i: nat)
  {
    |a| == |b| && forall j :: 0 <= j < |a| && a[j] != b[j] ==> i <= j < i + 4
  }

  lemma FourBytesSeparate(d: Register, u: seq<byte>, v: seq<byte>)
    requires |u| == |v| == 4 && Absorb(d, u) == Absorb(d, v)
    ensures u == v
  {
    hide Steps, Xor, Word, ByteStep;
    assert u == [u[0], u[1], u[2], u[3]] && v == [v[0], v[1], v[2], v[3]];
    AbsorbWord(d, u[0], u[1], u[2], u[3]);
    AbsorbWord(d, v[0], v[1], v[2], v[3]);
    var x, y := Word(u[0], u[1], u[2], u[3]), Word(v[0], v[1], v[2], v[3]);
    StepsInjective(Xor(d, x), Xor(d, y), 32);
    XorCancelsLeft(d, x, y);
    WordInjective(u[0], u[1], u[2], u[3], v[0], v[1], v[2], v[3]);
  }

  lemma AbsorbSeparatesBurst(c: Register, a: seq<byte>, b: seq<byte>, i: nat)
    requires DifferWithin(a, b, i) && i + 4 <= |a|
    requires Absorb(c, a) == Absorb(c, b)
    ensures a == b
  {
    hide Absorb;
    var u, v := a[i..i + 4], b[i..i + 4];
    var rest := a[i + 4..];
    assert a[..i] == b[..i] && rest == b[i + 4..];
    assert a == a[..i] + (u + rest) && b == b[..i] + (v + rest);
    var d := Absorb(c, a[..i]);
    AbsorbAppend(c, a[..i], u + rest);
    AbsorbAppend(c, b[..i], v + rest);
    AbsorbAppend(d, u, rest);
    AbsorbAppend(d, v, rest);
    AbsorbInjective(Absorb(d, u), Absorb(d, v), rest);
    FourBytesSeparate(d, u, v);
  }

  /** The checksum determines the register it was taken from. */
  lemma Crc32FixesRegister(a: seq<byte>, b: seq<byte>)
    requires Crc32(a) == Crc32(b)
    ensures Absorb(ONES, a) == Absorb(ONES, b)
  {
    hide Absorb, Complement, Word, LowByte, Down;
    var x, y := Complement(Absorb(ONES, a)), Complement(Absorb(ONES, b));
    LittleEndianValueOf(RegisterBytes(x));
    LittleEndianValueOf(RegisterBytes(y));
    WordOfRegisterBytes(x);
    WordOfRegisterBytes(y);
    ComplementInjective(Absorb(ONES, a), Absorb(ONES, b));
  }

  /** Two messages of one length that differ only within four consecutive bytes have different checksums. */
  lemma Crc32SeparatesBurst(a: seq<byte>, b: seq<byte>, i: nat)
    requires DifferWithin(a, b, i) && a != b
    ensures Crc32(a) != Crc32(b)
  {
    hide Absorb, Crc32;
    if Crc32(a) == Crc32(b) {
      Crc32FixesRegister(a, b);
      var pad := [0, 0, 0, 0];
      AbsorbAppend(ONES, a, pad);
      AbsorbAppend(ONES, b, pad);
      var k := if i <= |a| then i else |a|;
      assert a == (a + pad)[..|a|] && b == (b + pad)[..|b|];
      AbsorbSeparatesBurst(ONES, a + pad, b + pad, k);
    }
  }

  /** The register left by any message followed by its own checksum. */
  const RESIDUE: Register := Steps(ONES, 32)

  /** A trailer is the checksum of what precedes it exactly when the whole leaves the residue. */
  lemma TrailerMatchesResidue(m: seq<byte>, t: seq<byte>)
    requires |t| == 4
    ensures ValueOf(t) == Crc32(m) <==> Absorb(ONES, m + t) == RESIDUE
  {
    hide Absorb, Complement, Word, LowByte, Down, Xor, Steps;
    var d := Absorb(ONES, m);
    AbsorbAppend(ONES, m, t);
    assert t == [t[0], t[1], t[2], t[3]];
    AbsorbWord(d, t[0], t[1], t[2], t[3]);
    var w := Word(t[0], t[1], t[2], t[3]);
    var e := RegisterBytes(Complement(d));
    WordOfRegisterBytes(Complement(d));
    LittleEndianValueOf(t);
    LittleEndianValueOf(e);
    ComplementXor(d, w);
    if Absorb(ONES, m + t) == RESIDUE {
      StepsInjective(Xor(d, w), ONES, 32);
      WordInjective(t[0], t[1], t[2], t[3], e[0], e[1], e[2], e[3]);
      assert t == e;
    }
  }

  /** `a` ends in the checksum of what precedes its last four bytes. */
  ghost predicate Sealed(a: seq<byte>)
  {
    |a| >= 4 && ValueOf(a[|a| - 4..]) == Crc32(a[..|a| - 4])
  }

  /** Damage to a sealed frame that is confined to four consecutive bytes breaks the seal, wherever those
    * bytes lie: in the message, in the trailer, or across the two. */
  lemma SealDetectsBurst(a: seq<byte>, b: seq<byte>, i: nat)
    requires Sealed(a) && DifferWithin(a, b, i) && a != b
    ensures !Sealed(b)
  {
    hide Absorb, Crc32;
    var n := |a| - 4;
    TrailerMatchesResidue(a[..n], a[n..]);
    TrailerMatchesResidue(b[..n], b[n..]);
    assert a[..n] + a[n..] == a && b[..n] + b[n..] == b;
    if Sealed(b) {
      AbsorbSeparatesBurst(ONES, a, b, if i <= n then i else n);
    }
  }
}

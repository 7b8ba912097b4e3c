/** What the checksum is: a remainder of polynomials over the two-element field, by definitions that know nothing of
  * registers or of the loop. */
module Division {
  import opened Bytes
  import opened Checksum

  // ---- Polynomials, as the sets of their exponents ----

  /** The generator of IEEE 802.3. */
  const GENERATOR: set<nat> := {32, 26, 23, 22, 16, 12, 11, 10, 8, 7, 5, 4, 2, 1, 0}

  function Sum(a: set<nat>, b: set<nat>): set<nat>
  {
    (a - b) + (b - a)
  }

  /** The product with the k-th power of the variable. */
  function Raised(a: set<nat>, k: nat): (r: set<nat>)
    ensures forall e: nat :: e in r <==> e >= k && e - k in a
  {
    var r := set e | e in a :: e + k;
    RaisedMembers(a, k, r);
    r
  }

  lemma RaisedMembers(a: set<nat>, k: nat, r: set<nat>)
    requires r == set e | e in a :: e + k
    ensures forall e: nat :: e in r <==> e >= k && e - k in a
  {
    hide *;
    forall e: nat
      ensures e in r <==> e >= k && e - k in a
    {
      if e >= k && e - k in a {
        var f := e - k;
        assert f + k in r;
      }
    }
  }

  /** The product of the generator and the polynomial with these coefficients, the highest first (Horner's scheme). */
  function Multiple(q: seq<bool>): set<nat>
  {
    if q == [] then {}
    else Sum(Raised(Multiple(q[..|q| - 1]), 1), if q[|q| - 1] then GENERATOR else {})
  }

  /** r is what division of p by the generator leaves. */
  ghost predicate IsRemainder(p: set<nat>, r: set<nat>)
  {
    (forall e :: e in r ==> e < 32) && exists q :: p == Sum(Multiple(q), r)
  }

  /** Bit j of a number, the least significant one first. */
  predicate Bit(v: nat, j: nat)
  {
    if j == 0 then v % 2 == 1 else Bit(v / 2, j - 1)
  }

  /** The message: bytes in order, each from its least significant bit on, make the coefficients from the highest
    * down. */
  function Message(data: seq<byte>): set<nat>
  {
    set e: nat | e < 8 * |data| && Coefficient(data, e)
  }

  predicate Coefficient(data: seq<byte>, e: nat)
    requires e < 8 * |data|
  {
    var sent := 8 * |data| - 1 - e;
    Bit(data[sent / 8] as nat, sent % 8)
  }

  const LOW32: set<nat> := set e: nat | e < 32

  /** The message with 32 zeros behind it and its first 32 bits complemented. */
  function Dividend(data: seq<byte>): set<nat>
  {
    Sum(Raised(Message(data), 32), Raised(LOW32, 8 * |data|))
  }

  /** The polynomial of a complemented checksum: bit 0 is the coefficient of exponent 31. */
  function Reflected(v: nat): set<nat>
  {
    set e: nat | e < 32 && ReflectedBit(v, e)
  }

  predicate ReflectedBit(v: nat, e: nat)
    requires e < 32
  {
    !Bit(v, 31 - e)
  }

  // ---- The arithmetic of polynomials ----

  lemma SumAssociates(a: set<nat>, b: set<nat>, c: set<nat>)
    ensures Sum(Sum(a, b), c) == Sum(a, Sum(b, c))
  {
  }

  lemma SumSwaps(a: set<nat>, b: set<nat>, c: set<nat>, d: set<nat>)
    ensures Sum(Sum(a, b), Sum(c, d)) == Sum(Sum(a, c), Sum(b, d))
  {
  }

  lemma RaisedSum(a: set<nat>, b: set<nat>, k: nat)
    ensures Raised(Sum(a, b), k) == Sum(Raised(a, k), Raised(b, k))
  {
  }

  lemma RaisedTwice(a: set<nat>, j: nat, k: nat)
    ensures Raised(Raised(a, j), k) == Raised(a, j + k)
  {
  }

  lemma {:induction false} MultipleAppend(p: seq<bool>, q: seq<bool>)
    ensures Multiple(p + q) == Sum(Raised(Multiple(p), |q|), Multiple(q))
  {
    hide Raised, Sum;
    var m := Multiple(p);
    if q == [] {
      assert p + q == p;
      NothingAdded(m);
    } else {
      var n := |q| - 1;
      var last := if q[n] then GENERATOR else {};
      MultipleAppend(p, q[..n]);
      assert (p + q)[..|p + q| - 1] == p + q[..n];
      RaisedSum(Raised(m, n), Multiple(q[..n]), 1);
      RaisedTwice(m, n, 1);
      SumAssociates(Raised(m, n + 1), Raised(Multiple(q[..n]), 1), last);
    }
  }

  lemma NothingAdded(m: set<nat>)
    ensures Raised(m, 0) == m && Sum(m, {}) == m
  {
  }

  // ---- Remainders are unique ----

  lemma {:induction false} MultiplesAdd(p: seq<bool>, q: seq<bool>) returns (r: seq<bool>)
    requires |p| == |q|
    ensures Sum(Multiple(p), Multiple(q)) == Multiple(r)
  {
    r := [];
    if p != [] {
      hide Raised, Sum;
      var n := |p| - 1;
      r := MultiplesAdd(p[..n], q[..n]);
      var front := r;
      r := r + [p[n] != q[n]];
      assert r[..|r| - 1] == front;
      var a, b := if p[n] then GENERATOR else {}, if q[n] then GENERATOR else {};
      SumSwaps(Raised(Multiple(p[..n]), 1), a, Raised(Multiple(q[..n]), 1), b);
      RaisedSum(Multiple(p[..n]), Multiple(q[..n]), 1);
      GeneratorSums(p[n], q[n]);
    }
  }

  lemma GeneratorSums(a: bool, b: bool)
    ensures Sum(if a then GENERATOR else {}, if b then GENERATOR else {}) == if a != b then GENERATOR else {}
  {
    hide GENERATOR;
  }

  lemma {:induction false} Padded(q: seq<bool>, k: nat) returns (r: seq<bool>)
    ensures |r| == |q| + k && Multiple(r) == Multiple(q)
    decreases k
  {
    r := q;
    if k > 0 {
      hide Raised, Sum;
      var s := Padded(q, k - 1);
      r := [false] + s;
      MultipleAppend([false], s);
      NoMultiple([false], |s|);
      SumNothing(Multiple(s));
    }
  }

  lemma NoMultiple(q: seq<bool>, k: nat)
    requires q == [false]
    ensures Raised(Multiple(q), k) == {}
  {
    var none := q[..0];
    assert Multiple(none) == {};
    assert Raised({}, 1) == {};
  }

  lemma SumNothing(m: set<nat>)
    ensures Sum({}, m) == m
  {
  }

  /** A multiple of the generator is 0 or has degree 32 at least. */
  lemma {:induction false} MultipleIsLarge(q: seq<bool>) returns (e: nat)
    ensures Multiple(q) == {} || (e >= 32 && e in Multiple(q))
  {
    hide Raised, Sum, GENERATOR;
    e := 32;
    if q != [] {
      var n := |q| - 1;
      var f := MultipleIsLarge(q[..n]);
      e := NextIsLarge(Multiple(q[..n]), f, q[n]);
    }
  }

  lemma NextIsLarge(m: set<nat>, f: nat, b: bool) returns (e: nat)
    requires m == {} || (f >= 32 && f in m)
    ensures var n := Sum(Raised(m, 1), if b then GENERATOR else {}); n == {} || (e >= 32 && e in n)
  {
    GeneratorDegree();
    hide GENERATOR;
    e := if m == {} then 32 else f + 1;
    if m == {} {
      assert Raised(m, 1) == {};
    } else {
      assert e in Raised(m, 1) && e !in GENERATOR;
    }
  }

  lemma GeneratorDegree()
    ensures 32 in GENERATOR && forall e :: e in GENERATOR ==> e <= 32
  {
  }

  lemma RemainderIsUnique(p: set<nat>, r: set<nat>, t: set<nat>)
    requires IsRemainder(p, r) && IsRemainder(p, t)
    ensures r == t
  {
    hide Multiple, Sum;
    var a :| p == Sum(Multiple(a), r);
    var b :| p == Sum(Multiple(b), t);
    var c := Padded(a, |b|);
    var d := Padded(b, |a|);
    var m := MultiplesAdd(c, d);
    var e := MultipleIsLarge(m);
    EqualSums(Multiple(a), r, Multiple(b), t, e);
  }

  lemma EqualSums(a: set<nat>, r: set<nat>, b: set<nat>, t: set<nat>, e: nat)
    requires Sum(a, r) == Sum(b, t) && (Sum(a, b) == {} || (e >= 32 && e in Sum(a, b)))
    requires (forall f :: f in r ==> f < 32) && (forall f :: f in t ==> f < 32)
    ensures r == t
  {
    assert e in Sum(a, r) <==> e in Sum(b, t);
    forall f
      ensures f in r <==> f in t
    {
      assert f in Sum(a, r) <==> f in Sum(b, t);
      assert f in Sum(a, b) <==> (f in a) != (f in b);
    }
  }

  // ---- A register as a polynomial ----

  predicate RegisterBit(c: Register, j: nat)
    decreases j
  {
    if j == 0 then !Even(c) else RegisterBit(Half(c), j - 1)
  }

  /** Bit 0 of a register is the coefficient of exponent 31. */
  function PolynomialOf(c: Register): set<nat>
  {
    set e: nat | e < 32 && RegisterTerm(c, e)
  }

  predicate RegisterTerm(c: Register, e: nat)
    requires e < 32
  {
    RegisterBit(c, 31 - e)
  }

  lemma EvenOfXor(a: Register, b: Register)
    ensures Even(Xor(a, b)) <==> Even(a) == Even(b)
  {
  }

  lemma {:induction false} XorBits(a: Register, b: Register, j: nat)
    ensures RegisterBit(Xor(a, b), j) <==> RegisterBit(a, j) != RegisterBit(b, j)
    decreases j
  {
    hide Xor, Even, Half;
    if j == 0 {
      EvenOfXor(a, b);
    } else {
      HalfXor(a, b);
      XorBits(Half(a), Half(b), j - 1);
    }
  }

  lemma EightHalves(c: Register)
    ensures Half(Half(Half(Half(Half(Half(Half(Half(c)))))))) == Down(c)
  {
  }

  lemma BitOfDown(c: Register, j: nat)
    ensures RegisterBit(c, j + 8) == RegisterBit(Down(c), j)
  {
    hide Half, Down, Even;
    EightHalves(c);
    var c1 := Half(c);
    var c2 := Half(c1);
    var c3 := Half(c2);
    var c4 := Half(c3);
    var c5 := Half(c4);
    var c6 := Half(c5);
    var c7 := Half(c6);
    assert RegisterBit(c, j + 8) == RegisterBit(c1, j + 7) == RegisterBit(c2, j + 6) == RegisterBit(c3, j + 5)
        == RegisterBit(c4, j + 4) == RegisterBit(c5, j + 3) == RegisterBit(c6, j + 2) == RegisterBit(c7, j + 1);
  }

  lemma NothingFourBytesDown(c: Register)
    ensures Even(Down(Down(Down(Down(c)))))
  {
  }

  lemma NoBit32(c: Register)
    ensures !RegisterBit(c, 32)
  {
    hide Half, Down, Even;
    BitOfDown(c, 24);
    BitOfDown(Down(c), 16);
    BitOfDown(Down(Down(c)), 8);
    BitOfDown(Down(Down(Down(c))), 0);
    NothingFourBytesDown(c);
  }

  // ---- Bits of bytes and numbers ----

  function Pow2(k: nat): (p: nat)
    ensures p > 0
  {
    if k == 0 then 1 else 2 * Pow2(k - 1)
  }

  lemma {:induction false} LowerBits(d: nat, rest: nat, k: nat, j: nat)
    requires j < k
    ensures Bit(d + Pow2(k) * rest, j) == Bit(d, j)
    decreases k
  {
    var x := Pow2(k - 1) * rest;
    assert Pow2(k) * rest == 2 * x;
    Halved(d, x);
    if j > 0 {
      LowerBits(d / 2, rest, k - 1, j - 1);
    }
  }

  lemma {:induction false} UpperBits(d: nat, rest: nat, k: nat, j: nat)
    requires d < Pow2(k)
    ensures Bit(d + Pow2(k) * rest, j + k) == Bit(rest, j)
    decreases k
  {
    if k > 0 {
      var x := Pow2(k - 1) * rest;
      assert Pow2(k) * rest == 2 * x;
      Halved(d, x);
      UpperBits(d / 2, rest, k - 1, j);
    }
  }

  lemma Halved(d: nat, x: nat)
    ensures (d + 2 * x) % 2 == d % 2 && (d + 2 * x) / 2 == d / 2 + x
  {
  }

  lemma NibbleBits(h: bv4)
    ensures 0 <= h as int < 16
    ensures Bit(h as int, 0) == (h & 1 != 0) && Bit(h as int, 1) == (h & 2 != 0)
    ensures Bit(h as int, 2) == (h & 4 != 0) && Bit(h as int, 3) == (h & 8 != 0)
  {
    HalfOfNumber(h);
    var n := h as int;
    assert Bit(n, 1) == Bit(n / 2, 0) && Bit(n, 2) == Bit(n / 2, 1) == Bit(n / 2 / 2, 0);
    assert Bit(n, 3) == Bit(n / 2, 2) == Bit(n / 2 / 2, 1) == Bit(n / 2 / 2 / 2, 0);
    if n < 8 {
      if n == 0 { assert h == 0; } else if n == 1 { assert h == 1; } else if n == 2 { assert h == 2; }
      else if n == 3 { assert h == 3; } else if n == 4 { assert h == 4; } else if n == 5 { assert h == 5; }
      else if n == 6 { assert h == 6; } else { assert h == 7; }
    } else {
      if n == 8 { assert h == 8; } else if n == 9 { assert h == 9; } else if n == 10 { assert h == 10; }
      else if n == 11 { assert h == 11; } else if n == 12 { assert h == 12; } else if n == 13 { assert h == 13; }
      else if n == 14 { assert h == 14; } else { assert h == 15; }
    }
  }

  /** The low bits of a register, one by one. */
  lemma LowBits(c: Register)
    ensures RegisterBit(c, 0) == (LowHalf(c) & 1 != 0) && RegisterBit(c, 1) == (LowHalf(c) & 2 != 0)
    ensures RegisterBit(c, 2) == (LowHalf(c) & 4 != 0) && RegisterBit(c, 3) == (LowHalf(c) & 8 != 0)
  {
    var c1 := Half(c);
    var c2 := Half(c1);
    var c3 := Half(c2);
    assert RegisterBit(c, 1) == !Even(c1) && RegisterBit(c, 2) == RegisterBit(c1, 1) == !Even(c2);
    assert RegisterBit(c, 3) == RegisterBit(c1, 2) == RegisterBit(c2, 1) == !Even(c3);
  }

  lemma FourHalves(c: Register)
    ensures LowHalf(Half(Half(Half(Half(c))))) == HighHalf(c)
  {
  }

  lemma HighBits(c: Register)
    ensures RegisterBit(c, 4) == (HighHalf(c) & 1 != 0) && RegisterBit(c, 5) == (HighHalf(c) & 2 != 0)
    ensures RegisterBit(c, 6) == (HighHalf(c) & 4 != 0) && RegisterBit(c, 7) == (HighHalf(c) & 8 != 0)
  {
    hide Half, Even, LowHalf, HighHalf;
    FourHalves(c);
    var c1 := Half(c);
    var c2 := Half(c1);
    var c3 := Half(c2);
    LowBits(Half(c3));
    forall j: nat
      ensures RegisterBit(c, j + 4) == RegisterBit(Half(c3), j)
    {
      assert RegisterBit(c, j + 4) == RegisterBit(c1, j + 3) == RegisterBit(c2, j + 2) == RegisterBit(c3, j + 1);
    }
    assert RegisterBit(c, 0 + 4) == RegisterBit(Half(c3), 0) && RegisterBit(c, 1 + 4) == RegisterBit(Half(c3), 1);
    assert RegisterBit(c, 2 + 4) == RegisterBit(Half(c3), 2) && RegisterBit(c, 3 + 4) == RegisterBit(Half(c3), 3);
  }

  lemma LowByteBits(c: Register, j: nat)
    requires j < 8
    ensures RegisterBit(c, j) == Bit(LowByte(c) as nat, j)
  {
    hide RegisterBit, Bit, LowHalf, HighHalf;
    LowBits(c);
    HighBits(c);
    NibbleBits(LowHalf(c));
    NibbleBits(HighHalf(c));
    var h, l := HighHalf(c) as int, LowHalf(c) as int;
    assert Pow2(4) == 16 && LowByte(c) as nat == l + Pow2(4) * h;
    if j < 4 {
      LowerBits(l, h, 4, j);
    } else {
      UpperBits(l, h, 4, j - 4);
    }
  }

  lemma ByteBits(b: byte, j: nat)
    ensures RegisterBit(FromByte(b), j) == (j < 8 && Bit(b as nat, j))
  {
    hide RegisterBit, Bit, FromByte, LowByte, Low, Down;
    FromByteIsSmall(b);
    LowOfSmall(FromByte(b));
    FromLowByte(FromByte(b));
    FromByteInjective(LowByte(FromByte(b)), b);
    if j < 8 {
      LowByteBits(FromByte(b), j);
    } else {
      BitOfDown(FromByte(b), j - 8);
      ZeroBits(j - 8);
    }
  }

  lemma LowOfSmall(c: Register)
    requires Down(c) == 0
    ensures Low(c) == c
  {
  }

  lemma {:induction false} ZeroBits(j: nat)
    ensures !RegisterBit(0, j)
  {
    ZeroIsEven();
    hide Half, Even;
    if j > 0 {
      ZeroBits(j - 1);
    }
  }

  lemma ZeroIsEven()
    ensures Even(0) && Half(0) == 0
  {
  }

  /** The bits of four bytes as a number are those of the register. */
  lemma NumberBits(c: Register, j: nat)
    requires j < 32
    ensures RegisterBit(c, j) == Bit(ValueOf(RegisterBytes(c)), j)
  {
    hide RegisterBit, Bit, LowByte, Down;
    var c1 := Down(c);
    var c2 := Down(c1);
    var c3 := Down(c2);
    var bs := RegisterBytes(c);
    assert bs[1..] == [LowByte(c1), LowByte(c2), LowByte(c3)] && bs[1..][1..] == [LowByte(c2), LowByte(c3)];
    assert bs[1..][1..][1..] == [LowByte(c3)] && bs[1..][1..][1..][1..] == [];
    DigitBits(c, bs, j);
    if j >= 8 {
      DigitBits(c1, bs[1..], j - 8);
    }
    if j >= 16 {
      DigitBits(c2, bs[1..][1..], j - 16);
    }
    if j >= 24 {
      DigitBits(c3, bs[1..][1..][1..], j - 24);
    }
  }

  lemma DigitBits(c: Register, bs: seq<byte>, j: nat)
    requires bs != [] && bs[0] == LowByte(c)
    ensures j < 8 ==> RegisterBit(c, j) == Bit(ValueOf(bs), j)
    ensures j >= 8 ==> RegisterBit(c, j) == RegisterBit(Down(c),
                                                        j - 8) && Bit(ValueOf(bs), j) == Bit(ValueOf(bs[1..]), j - 8)
  {
    hide RegisterBit, Bit, LowByte, Down;
    var v, d, rest := ValueOf(bs), bs[0] as nat, ValueOf(bs[1..]);
    assert Pow2(8) == 256 && v == d + Pow2(8) * rest by {
      EightDoublings();
    }
    if j < 8 {
      LowByteBits(c, j);
      LowerBits(d, rest, 8, j);
    } else {
      BitOfDown(c, j - 8);
      UpperBits(d, rest, 8, j - 8);
    }
  }

  lemma EightDoublings()
    ensures Pow2(8) == 256
  {
    assert Pow2(4) == 16;
    assert Pow2(6) == 64;
  }

  // ---- One step is one step of the division ----

  lemma ConstantBits(c: Register, b0: byte, b1: byte, b2: byte, b3: byte, j: nat)
    requires c == Word(b0, b1, b2, b3) && j < 32
    ensures RegisterBit(c, j) == Bit((if j < 8 then b0 else if j < 16 then b1 else if j < 24 then b2 else b3) as nat,
                                     j % 8)
  {
    hide RegisterBit, Bit, LowByte, Down, Word;
    WordOfRegisterBytes(c);
    var bs := RegisterBytes(c);
    WordInjective(bs[0], bs[1], bs[2], bs[3], b0, b1, b2, b3);
    var c1 := Down(c);
    var c2 := Down(c1);
    var c3 := Down(c2);
    if j < 8 {
      LowByteBits(c, j);
    } else if j < 16 {
      BitOfDown(c, j - 8);
      LowByteBits(c1, j - 8);
    } else if j < 24 {
      BitOfDown(c, j - 8);
      BitOfDown(c1, j - 16);
      LowByteBits(c2, j - 16);
    } else {
      BitOfDown(c, j - 8);
      BitOfDown(c1, j - 16);
      BitOfDown(c2, j - 24);
      LowByteBits(c3, j - 24);
    }
  }

  lemma {:induction false} BitByDivision(v: nat, j: nat)
    ensures Bit(v, j) == (v / Pow2(j) % 2 == 1)
    decreases j
  {
    if j > 0 {
      BitByDivision(v / 2, j - 1);
      DivideTwice(v, 2, Pow2(j - 1));
    }
  }

  /** The polynomial of the code's constant is the generator without its leading term. */
  lemma PolynomialBits(e: nat)
    requires e < 32
    ensures RegisterBit(POLYNOMIAL, 31 - e) <==> e in GENERATOR
  {
    hide RegisterBit, Bit, Word;
    assert POLYNOMIAL == Word(0x20, 0x83, 0xB8, 0xED) by {
      PolynomialBytes();
    }
    var j := 31 - e;
    ConstantBits(POLYNOMIAL, 0x20, 0x83, 0xB8, 0xED, j);
    var b := if j < 8 then 0x20 else if j < 16 then 0x83 else if j < 24 then 0xB8 else 0xED;
    BitByDivision(b, j % 8);
    hide *;
    TableEntry(e, b);
  }

  lemma TableEntry(e: nat, b: nat)
    requires e < 32
    requires b == if e >= 24 then 0x20 else if e >= 16 then 0x83 else if e >= 8 then 0xB8 else 0xED
    ensures b / Pow2((31 - e) % 8) % 2 == 1 <==> e in GENERATOR
  {
    hide Pow2, GENERATOR;
    var k := (31 - e) % 8;
    SetBits(k);
    GeneratorTerms(k);
    assert e == if e >= 24 then 31 - k else if e >= 16 then 23 - k else if e >= 8 then 15 - k else 7 - k;
  }

  lemma GeneratorTerms(k: nat)
    requires k < 8
    ensures 31 - k in GENERATOR <==> k == 5
    ensures 23 - k in GENERATOR <==> k in {0, 1, 7}
    ensures 15 - k in GENERATOR <==> k in {3, 4, 5, 7}
    ensures 7 - k in GENERATOR <==> k in {0, 2, 3, 5, 6, 7}
  {
  }

  /** The bits set in the four bytes of the code's constant. */
  lemma SetBits(k: nat)
    requires k < 8
    ensures 0x20 / Pow2(k) % 2 == 1 <==> k == 5
    ensures 0x83 / Pow2(k) % 2 == 1 <==> k in {0, 1, 7}
    ensures 0xB8 / Pow2(k) % 2 == 1 <==> k in {3, 4, 5, 7}
    ensures 0xED / Pow2(k) % 2 == 1 <==> k in {0, 2, 3, 5, 6, 7}
  {
    SmallPowers();
    hide Pow2;
    if k < 4 {
      if k == 0 { assert Pow2(k) == 1; } else if k == 1 { assert Pow2(k) == 2; }
      else if k == 2 { assert Pow2(k) == 4; } else { assert Pow2(k) == 8; }
    } else {
      if k == 4 { assert Pow2(k) == 16; } else if k == 5 { assert Pow2(k) == 32; }
      else if k == 6 { assert Pow2(k) == 64; } else { assert Pow2(k) == 128; }
    }
  }

  lemma SmallPowers()
    ensures Pow2(0) == 1 && Pow2(1) == 2 && Pow2(2) == 4 && Pow2(3) == 8
    ensures Pow2(4) == 16 && Pow2(5) == 32 && Pow2(6) == 64 && Pow2(7) == 128
  {
  }

  lemma PolynomialBytes()
    ensures POLYNOMIAL == Word(0x20, 0x83, 0xB8, 0xED)
  {
  }

  lemma OnesBits(j: nat)
    requires j < 32
    ensures RegisterBit(ONES, j)
  {
    hide RegisterBit, Bit, Word;
    assert ONES == Word(0xFF, 0xFF, 0xFF, 0xFF) by {
      OnesBytes();
    }
    ConstantBits(ONES, 0xFF, 0xFF, 0xFF, 0xFF, j);
    BitByDivision(0xFF, j % 8);
    SmallPowers();
  }

  lemma OnesBytes()
    ensures ONES == Word(0xFF, 0xFF, 0xFF, 0xFF)
  {
  }

  function GeneratorIf(b: bool): set<nat>
  {
    if b then GENERATOR else {}
  }

  /** Shifting a register is raising its polynomial; the step takes the generator off when exponent 32 appears. */
  lemma StepDivides(c: Register)
    ensures Raised(PolynomialOf(c), 1) == Sum(GeneratorIf(!Even(c)), PolynomialOf(Step(c)))
  {
    hide GENERATOR, Even, Half, Xor;
    var l, r := Raised(PolynomialOf(c), 1), Sum(GeneratorIf(!Even(c)), PolynomialOf(Step(c)));
    GeneratorDegree();
    forall e: nat
      ensures e in l <==> e in r
    {
      if e < 32 {
        StepBit(c, e);
        if e == 0 {
          NoBit32(c);
        }
      }
    }
  }

  lemma StepBit(c: Register, e: nat)
    requires e < 32
    ensures RegisterBit(Step(c), 31 - e) <==> RegisterBit(c, 32 - e) != (!Even(c) && e in GENERATOR)
  {
    hide GENERATOR, Even, Half, Xor;
    PolynomialBits(e);
    XorBits(Half(c), POLYNOMIAL, 31 - e);
    assert RegisterBit(c, 32 - e) == RegisterBit(Half(c), 31 - e);
  }

  lemma {:induction false} StepsDivide(c: Register, k: nat) returns (q: seq<bool>)
    ensures |q| == k
    ensures Raised(PolynomialOf(c), k) == Sum(Multiple(q), PolynomialOf(Steps(c, k)))
    decreases k
  {
    hide Step, PolynomialOf, Raised, Sum, Even, GeneratorIf;
    q := [];
    if k == 0 {
      NothingAdded(PolynomialOf(c));
      SumNothing(PolynomialOf(c));
    } else {
      var b := !Even(c);
      var rest := StepsDivide(Step(c), k - 1);
      q := [b] + rest;
      StepDivides(c);
      RaisedTwice(PolynomialOf(c), 1, k - 1);
      RaisedSum(GeneratorIf(b), PolynomialOf(Step(c)), k - 1);
      MultipleAppend([b], rest);
      OneMultiple([b]);
      SumAssociates(Raised(GeneratorIf(b), k - 1), Multiple(rest), PolynomialOf(Steps(c, k)));
    }
  }

  lemma OneMultiple(q: seq<bool>)
    requires |q| == 1
    ensures Multiple(q) == GeneratorIf(q[0])
  {
    hide GENERATOR;
    var none := q[..0];
    assert Multiple(none) == {};
    assert Raised({}, 1) == {};
  }

  // ---- One byte ----

  function ByteTerms(b: byte): set<nat>
  {
    set e: nat | e < 8 && ByteTerm(b, e)
  }

  predicate ByteTerm(b: byte, e: nat)
    requires e < 8
  {
    Bit(b as nat, 7 - e)
  }

  lemma MixedByte(c: Register, b: byte)
    ensures PolynomialOf(Xor(c, FromByte(b))) == Sum(PolynomialOf(c), Raised(ByteTerms(b), 24))
  {
    hide RegisterBit, Bit, Xor, FromByte;
    var l, r := PolynomialOf(Xor(c, FromByte(b))), Sum(PolynomialOf(c), Raised(ByteTerms(b), 24));
    forall e: nat
      ensures e in l <==> e in r
    {
      if e < 32 {
        XorBits(c, FromByte(b), 31 - e);
        ByteBits(b, 31 - e);
        assert e in Raised(ByteTerms(b), 24) <==> e >= 24 && e - 24 in ByteTerms(b);
      }
    }
  }

  lemma ByteDivides(c: Register, b: byte) returns (q: seq<bool>)
    ensures |q| == 8
    ensures Sum(Raised(PolynomialOf(c), 8), Raised(ByteTerms(b), 32)) == Sum(Multiple(q), PolynomialOf(ByteStep(c, b)))
  {
    hide PolynomialOf, Raised, Sum, Steps, Xor, FromByte, ByteTerms, Multiple;
    q := StepsDivide(Xor(c, FromByte(b)), 8);
    MixedByte(c, b);
    RaisedSum(PolynomialOf(c), Raised(ByteTerms(b), 24), 8);
    RaisedTwice(ByteTerms(b), 24, 8);
  }

  lemma MessageGrows(data: seq<byte>, b: byte)
    ensures Message(data + [b]) == Sum(Raised(Message(data), 8), ByteTerms(b))
  {
    hide Bit;
    var all := data + [b];
    var l, r := Message(all), Sum(Raised(Message(data), 8), ByteTerms(b));
    forall e: nat
      ensures e in l <==> e in r
    {
      if e < 8 {
        assert (8 * |all| - 1 - e) / 8 == |data| && (8 * |all| - 1 - e) % 8 == 7 - e;
      } else if e < 8 * |all| {
        assert 8 * |all| - 1 - e == 8 * |data| - 1 - (e - 8);
        assert Coefficient(all, e) == Coefficient(data, e - 8);
      }
    }
  }

  lemma DividendGrows(data: seq<byte>, b: byte)
    ensures Dividend(data + [b]) == Sum(Raised(Dividend(data), 8), Raised(ByteTerms(b), 32))
  {
    hide Message, Raised, Sum, ByteTerms;
    var m, n := Message(data), 8 * |data|;
    MessageGrows(data, b);
    RaisedSum(Raised(m, 8), ByteTerms(b), 32);
    RaisedTwice(m, 8, 32);
    RaisedTwice(m, 32, 8);
    RaisedTwice(LOW32, n, 8);
    RaisedSum(Raised(m, 32), Raised(LOW32, n), 8);
    var x, y, z := Raised(m, 40), Raised(ByteTerms(b), 32), Raised(LOW32, n + 8);
    SumSwapsLast(x, y, z);
  }

  lemma SumSwapsLast(x: set<nat>, y: set<nat>, z: set<nat>)
    ensures Sum(Sum(x, y), z) == Sum(Sum(x, z), y)
  {
  }

  // ---- The checksum ----

  lemma {:induction false} AbsorbDivides(data: seq<byte>) returns (q: seq<bool>)
    ensures Dividend(data) == Sum(Multiple(q), PolynomialOf(Absorb(ONES, data)))
  {
    hide Dividend, PolynomialOf, Raised, Sum, ByteStep, ByteTerms, Multiple;
    q := [];
    if data == [] {
      NothingAbsorbed(data, q);
    } else {
      var n := |data| - 1;
      var front, b := data[..n], data[n];
      var c := Absorb(ONES, front);
      assert data == front + [b];
      AbsorbAppend(ONES, front, [b]);
      var p := AbsorbDivides(front);
      var eight := ByteDivides(c, b);
      q := p + eight;
      DividendGrows(front, b);
      RaisedSum(Multiple(p), PolynomialOf(c), 8);
      MultipleAppend(p, eight);
      var x, y, z := Raised(Multiple(p), 8), Raised(PolynomialOf(c), 8), Raised(ByteTerms(b), 32);
      SumAssociates(x, y, z);
      SumAssociates(x, Multiple(eight), PolynomialOf(ByteStep(c, b)));
    }
  }

  lemma NothingAbsorbed(data: seq<byte>, q: seq<bool>)
    requires data == [] && q == []
    ensures Dividend(data) == Sum(Multiple(q), PolynomialOf(Absorb(ONES, data)))
  {
    hide RegisterBit;
    assert Message(data) == {};
    assert Raised({}, 32) == {};
    NothingAdded(LOW32);
    forall e: nat
      ensures e in PolynomialOf(ONES) <==> e in LOW32
    {
      if e < 32 {
        OnesBits(31 - e);
      }
    }
    assert PolynomialOf(ONES) == LOW32;
  }

  lemma ComplementBits(c: Register, j: nat)
    requires j < 32
    ensures RegisterBit(Complement(c), j) <==> !RegisterBit(c, j)
  {
    hide RegisterBit, Complement, Xor;
    ComplementIsXor(c);
    XorBits(c, ONES, j);
    OnesBits(j);
  }

  lemma ComplementIsXor(c: Register)
    ensures Complement(c) == Xor(c, ONES)
  {
  }

  lemma ReflectedChecksum(data: seq<byte>)
    ensures Reflected(Crc32(data)) == PolynomialOf(Absorb(ONES, data))
  {
    hide RegisterBit, Bit, Complement, Absorb, RegisterBytes;
    var c := Absorb(ONES, data);
    forall e: nat | e < 32
      ensures ReflectedBit(Crc32(data), e) == RegisterTerm(c, e)
    {
      NumberBits(Complement(c), 31 - e);
      ComplementBits(c, 31 - e);
    }
  }

  lemma {:induction false} BitsDetermine(v: nat, w: nat, k: nat)
    requires v < Pow2(k) && w < Pow2(k) && forall j: nat :: j < k ==> Bit(v, j) == Bit(w, j)
    ensures v == w
    decreases k
  {
    if k > 0 {
      assert Bit(v, 0) == Bit(w, 0);
      forall j: nat | j < k - 1
        ensures Bit(v / 2, j) == Bit(w / 2, j)
      {
        assert Bit(v, j + 1) == Bit(w, j + 1);
      }
      BitsDetermine(v / 2, w / 2, k - 1);
    }
  }

  lemma ManyPowers()
    ensures Pow2(32) == 0x1_0000_0000
  {
    SmallPowers();
    assert Pow2(11) == 2048;
    assert Pow2(15) == 0x8000;
    assert Pow2(19) == 0x8_0000;
    assert Pow2(23) == 0x80_0000;
    assert Pow2(27) == 0x800_0000;
    assert Pow2(31) == 0x8000_0000;
  }

  /** Of all 32-bit numbers the checksum of a message is the one that, complemented and read from its lowest bit as the
    * highest coefficient, is the remainder of the message with its first 32 bits complemented, modulo the generator. */
  lemma ChecksumIsRemainder(data: seq<byte>, v: nat)
    requires v < 0x1_0000_0000
    ensures v == Crc32(data) <==> IsRemainder(Dividend(data), Reflected(v))
  {
    hide Dividend, Multiple, Sum, PolynomialOf, Crc32, Absorb, Bit;
    var q := AbsorbDivides(data);
    var r := Reflected(Crc32(data));
    ReflectedChecksum(data);
    assert forall e :: e in r ==> e < 32;
    assert IsRemainder(Dividend(data), r);
    if IsRemainder(Dividend(data), Reflected(v)) {
      RemainderIsUnique(Dividend(data), r, Reflected(v));
      forall j: nat | j < 32
        ensures Bit(v, j) == Bit(Crc32(data), j)
      {
        var e := 31 - j;
        assert e in r <==> e in Reflected(v);
      }
      ManyPowers();
      RadixValues();
      Crc32Fits(data);
      BitsDetermine(v, Crc32(data), 32);
    }
  }

  lemma Unrolled(c: Register, b: byte)
    ensures var m := Xor(c, FromByte(b));
            ByteStep(c, b) == Step(Step(Step(Step(Step(Step(Step(Step(m))))))))
  {
    hide Step, Xor, FromByte;
    var c0 := Xor(c, FromByte(b));
    var c1 := Step(c0);
    var c2 := Step(c1);
    var c3 := Step(c2);
    var c4 := Step(c3);
    assert Steps(c0, 8) == Steps(c1, 7) == Steps(c2, 6) == Steps(c3, 5) == Steps(c4, 4);
    var c5 := Step(c4);
    var c6 := Step(c5);
    var c7 := Step(c6);
    assert Steps(c4, 4) == Steps(c5, 3) == Steps(c6, 2) == Steps(c7, 1) == Steps(Step(c7), 0);
  }

  lemma Digit1() ensures ByteStep(0xFFFFFFFF, 0x31) == 0x7C231048 { Unrolled(0xFFFFFFFF, 0x31); }
  lemma Digit2() ensures ByteStep(0x7C231048, 0x32) == 0xB0ACBB32 { Unrolled(0x7C231048, 0x32); }
  lemma Digit3() ensures ByteStep(0xB0ACBB32, 0x33) == 0x77B79C2D { Unrolled(0xB0ACBB32, 0x33); }
  lemma Digit4() ensures ByteStep(0x77B79C2D, 0x34) == 0x641C1F5C { Unrolled(0x77B79C2D, 0x34); }
  lemma Digit5() ensures ByteStep(0x641C1F5C, 0x35) == 0x340AC5E3 { Unrolled(0x641C1F5C, 0x35); }
  lemma Digit6() ensures ByteStep(0x340AC5E3, 0x36) == 0xF68D2C9E { Unrolled(0x340AC5E3, 0x36); }
  lemma Digit7() ensures ByteStep(0xF68D2C9E, 0x37) == 0xAFFC9660 { Unrolled(0xF68D2C9E, 0x37); }
  lemma Digit8() ensures ByteStep(0xAFFC9660, 0x38) == 0x651F2550 { Unrolled(0xAFFC9660, 0x38); }
  lemma Digit9() ensures ByteStep(0x651F2550, 0x39) == 0x340BC6D9 { Unrolled(0x651F2550, 0x39); }

  lemma AbsorbsNext(c: Register, s: seq<byte>)
    requires s != []
    ensures Absorb(c, s) == Absorb(ByteStep(c, s[0]), s[1..])
  {
  }

  lemma CheckWord(c: Register)
    requires c == 0x340BC6D9
    ensures Complement(c) == Word(0x26, 0x39, 0xF4, 0xCB)
  {
  }

  lemma CheckBytes(c: Register)
    requires c == 0x340BC6D9
    ensures ValueOf(RegisterBytes(Complement(c))) == 0xCBF43926
  {
    var w := Complement(c);
    CheckWord(c);
    hide Word, Complement, LowByte, Down;
    WordOfRegisterBytes(w);
    var bs := RegisterBytes(w);
    WordInjective(bs[0], bs[1], bs[2], bs[3], 0x26, 0x39, 0xF4, 0xCB);
    assert bs[1..] == [0x39, 0xF4, 0xCB] && bs[1..][1..] == [0xF4, 0xCB] && bs[1..][1..][1..] == [0xCB];
    assert ValueOf(bs[1..][1..][1..][1..]) == 0;
    assert ValueOf(bs[1..][1..]) == 0xCBF4;
  }

  /** The check value published for this checksum: that of the nine digits in ASCII. */
  lemma CheckValue(data: seq<byte>)
    requires data == [0x31, 0x32, 0x33, 0x34, 0x35, 0x36, 0x37, 0x38, 0x39]
    ensures Crc32(data) == 0xCBF43926
  {
    hide ByteStep, Complement, RegisterBytes, ValueOf, Absorb;
    Digit1();
    AbsorbsNext(0xFFFFFFFF, data[0..]);
    assert data[0..][1..] == data[1..];
    Digit2();
    AbsorbsNext(0x7C231048, data[1..]);
    assert data[1..][1..] == data[2..];
    Digit3();
    AbsorbsNext(0xB0ACBB32, data[2..]);
    assert data[2..][1..] == data[3..];
    Digit4();
    AbsorbsNext(0x77B79C2D, data[3..]);
    assert data[3..][1..] == data[4..];
    Digit5();
    AbsorbsNext(0x641C1F5C, data[4..]);
    assert data[4..][1..] == data[5..];
    Digit6();
    AbsorbsNext(0x340AC5E3, data[5..]);
    assert data[5..][1..] == data[6..];
    Digit7();
    AbsorbsNext(0xF68D2C9E, data[6..]);
    assert data[6..][1..] == data[7..];
    Digit8();
    AbsorbsNext(0xAFFC9660, data[7..]);
    assert data[7..][1..] == data[8..];
    Digit9();
    AbsorbsNext(0x651F2550, data[8..]);
    assert data[8..][1..] == data[9..];
    NothingLeft(0x340BC6D9, data[9..]);
    CheckBytes(0x340BC6D9);
    assert data[0..] == data;
  }

  lemma NothingLeft(c: Register, s: seq<byte>)
    requires s == []
    ensures Absorb(c, s) == c
  {
  }
}

/** The CRC-32 of folder_zip_pump.c: the table-driven update, the bit-serial register and polynomial division. */
module Crc32 {
  import opened Bytes

  /** The reflected generator, as the table is built from it. */
  const POLY: nat := 0xEDB88320

  const ALL_ONES: nat := 0xFFFF_FFFF

  // ----- unsigned words -----

  /** Exclusive or of two unsigned integers, bit by bit. */
  function Xor(a: nat, b: nat): nat
    decreases a + b
  {
    if a == 0 && b == 0 then 0 else 2 * Xor(a / 2, b / 2) + (if a % 2 == b % 2 then 0 else 1)
  }

  lemma XorUnfold(a: nat, b: nat)
    ensures Xor(a, b) / 2 == Xor(a / 2, b / 2)
    ensures Xor(a, b) % 2 == (if a % 2 == b % 2 then 0 else 1)
  {
  }

  lemma {:induction false} XorComm(a: nat, b: nat)
    ensures Xor(a, b) == Xor(b, a)
    decreases a + b
  {
    if a != 0 || b != 0 { XorComm(a / 2, b / 2); }
  }

  lemma {:induction false} XorAssoc(a: nat, b: nat, c: nat)
    ensures Xor(Xor(a, b), c) == Xor(a, Xor(b, c))
    decreases a + b + c
  {
    if a != 0 || b != 0 || c != 0 {
      XorAssoc(a / 2, b / 2, c / 2);
      XorUnfold(a, b);
      XorUnfold(b, c);
      XorUnfold(Xor(a, b), c);
      XorUnfold(a, Xor(b, c));
    }
  }

  lemma {:induction false} XorZero(a: nat)
    ensures Xor(a, 0) == a && Xor(0, a) == a
  {
    if a != 0 { XorZero(a / 2); }
  }

  lemma {:induction false} XorSelf(a: nat)
    ensures Xor(a, a) == 0
  {
    if a != 0 { XorSelf(a / 2); }
  }

  lemma XorCancel(a: nat, b: nat)
    ensures Xor(Xor(a, b), b) == a
  {
    XorAssoc(a, b, b);
    XorSelf(b);
    XorZero(a);
  }

  /** (a ^ b) ^ (c ^ d) == (a ^ c) ^ (b ^ d) */
  lemma XorExchange(a: nat, b: nat, c: nat, d: nat)
    ensures Xor(Xor(a, b), Xor(c, d)) == Xor(Xor(a, c), Xor(b, d))
  {
    XorAssoc(a, b, Xor(c, d));
    XorAssoc(b, c, d);
    XorComm(b, c);
    XorAssoc(c, b, d);
    XorAssoc(a, c, Xor(b, d));
  }

  lemma {:induction false} XorBound(a: nat, b: nat, k: nat)
    requires a < Pow2(k) && b < Pow2(k)
    ensures Xor(a, b) < Pow2(k)
  {
    if k > 0 { XorBound(a / 2, b / 2, k - 1); }
  }

  lemma Word32()
    ensures Pow2(32) == U32 && Pow2(8) == 256
  {
    assert Pow2(8) == 256;
    assert Pow2(16) == U16;
    assert Pow2(24) == 0x100_0000;
    assert Pow2(32) == U32;
  }

  // ----- the bit-serial register -----

  /** One shift of the reflected register. */
  function Shift(c: nat): nat {
    if c % 2 == 1 then Xor(POLY, c / 2) else c / 2
  }

  function ShiftN(c: nat, n: nat): nat
    decreases n, c
  {
    if n == 0 then c else ShiftN(Shift(c), n - 1)
  }

  lemma {:induction false} ShiftNSnoc(c: nat, n: nat)
    ensures ShiftN(c, n + 1) == Shift(ShiftN(c, n))
    decreases n
  {
    if n > 0 { ShiftNSnoc(Shift(c), n - 1); }
  }

  lemma ShiftBound(c: nat)
    requires c < U32
    ensures Shift(c) < U32
  {
    Word32();
    XorBound(POLY, c / 2, 32);
  }

  lemma {:induction false} ShiftNBound(c: nat, n: nat)
    requires c < U32
    ensures ShiftN(c, n) < U32
    decreases n
  {
    if n > 0 {
      ShiftBound(c);
      ShiftNBound(Shift(c), n - 1);
    }
  }

  lemma ShiftLinear(a: nat, b: nat)
    ensures Shift(Xor(a, b)) == Xor(Shift(a), Shift(b))
  {
    var x, y := a / 2, b / 2;
    XorUnfold(a, b);
    if a % 2 == 1 && b % 2 == 1 {
      XorExchange(POLY, x, POLY, y);
      XorSelf(POLY);
      XorZero(Xor(x, y));
    } else if a % 2 == 1 {
      XorAssoc(POLY, x, y);
    } else if b % 2 == 1 {
      XorAssoc(x, POLY, y);
      XorComm(x, POLY);
      XorAssoc(POLY, x, y);
    }
  }

  lemma {:induction false} ShiftNLinear(a: nat, b: nat, n: nat)
    ensures ShiftN(Xor(a, b), n) == Xor(ShiftN(a, n), ShiftN(b, n))
    decreases n
  {
    if n > 0 {
      ShiftLinear(a, b);
      ShiftNLinear(Shift(a), Shift(b), n - 1);
    }
  }

  lemma PowerHalf(n: nat, h: nat)
    requires n > 0
    ensures Pow2(n) * h == 2 * (Pow2(n - 1) * h)
    ensures Pow2(n) * h / 2 == Pow2(n - 1) * h && Pow2(n) * h % 2 == 0
  {
    var p := Pow2(n - 1) * h;
    assert Pow2(n) * h == 2 * p;
  }

  /** Low-order zero bits leave the register without feedback. */
  lemma {:induction false} ShiftNOfMultiple(h: nat, n: nat)
    ensures ShiftN(Pow2(n) * h, n) == h
  {
    if n > 0 {
      PowerHalf(n, h);
      ShiftNOfMultiple(h, n - 1);
    }
  }

  lemma {:induction false} XorDisjoint(low: nat, high: nat, n: nat)
    requires low < Pow2(n)
    ensures Xor(low, Pow2(n) * high) == low + Pow2(n) * high
  {
    if n == 0 {
      XorZero(high);
    } else {
      PowerHalf(n, high);
      XorDisjoint(low / 2, high, n - 1);
      XorUnfold(low, Pow2(n) * high);
    }
  }

  /** Why one table lookup does the work of eight shifts: only the low byte feeds back. */
  lemma TableStep(x: nat)
    ensures ShiftN(x, 8) == Xor(ShiftN(x % 256, 8), x / 256)
  {
    Word32();
    LowBitsFeedBack(x % 256, x / 256, 8);
    assert x == x % 256 + Pow2(8) * (x / 256);
  }

  lemma LowBitsFeedBack(low: nat, high: nat, n: nat)
    requires low < Pow2(n)
    ensures ShiftN(low + Pow2(n) * high, n) == Xor(ShiftN(low, n), high)
  {
    hide ShiftN, Xor, Pow2;
    var top := Pow2(n) * high;
    XorDisjoint(low, high, n);
    ShiftNLinear(low, top, n);
    ShiftNOfMultiple(high, n);
  }

  /** The plain definition: xor each byte into the register, then shift eight times. */
  function Register(c: nat, p: seq<byte>): nat
    decreases |p|
  {
    if p == [] then c else Register(ShiftN(Xor(c, p[0]), 8), p[1..])
  }

  function Update(crc: nat, p: seq<byte>): nat {
    Xor(Register(Xor(crc, ALL_ONES), p), ALL_ONES)
  }

  /** The CRC of a whole message. */
  function Crc(p: seq<byte>): nat {
    Xor(Register(ALL_ONES, p), ALL_ONES)
  }

  lemma CrcIsUpdate(p: seq<byte>)
    ensures Crc(p) == Update(0, p)
  {
    XorZero(ALL_ONES);
  }

  lemma {:induction false} RegisterBound(c: nat, p: seq<byte>)
    requires c < U32
    ensures Register(c, p) < U32
    decreases |p|
  {
    if p != [] {
      Word32();
      XorBound(c, p[0], 32);
      ShiftNBound(Xor(c, p[0]), 8);
      RegisterBound(ShiftN(Xor(c, p[0]), 8), p[1..]);
    }
  }

  lemma UpdateBound(crc: nat, p: seq<byte>)
    requires crc < U32
    ensures Update(crc, p) < U32
  {
    Word32();
    XorBound(crc, ALL_ONES, 32);
    RegisterBound(Xor(crc, ALL_ONES), p);
    XorBound(Register(Xor(crc, ALL_ONES), p), ALL_ONES, 32);
  }

  lemma {:induction false} RegisterAppend(c: nat, p: seq<byte>, q: seq<byte>)
    ensures Register(c, p + q) == Register(Register(c, p), q)
    decreases |p|
  {
    hide ShiftN, Xor;
    if p == [] {
      assert p + q == q;
    } else {
      RegisterAppend(ShiftN(Xor(c, p[0]), 8), p[1..], q);
      assert (p + q)[1..] == p[1..] + q;
    }
  }

  /** Updates chain: the register is inverted on the way out and on the way back in. */
  lemma UpdateAppend(crc: nat, p: seq<byte>, q: seq<byte>)
    ensures Update(Update(crc, p), q) == Update(crc, p + q)
  {
    var c := Register(Xor(crc, ALL_ONES), p);
    XorCancel(c, ALL_ONES);
    RegisterAppend(Xor(crc, ALL_ONES), p, q);
  }

  function UpdateAll(crc: nat, slices: seq<seq<byte>>): nat
    decreases |slices|
  {
    if slices == [] then crc else UpdateAll(Update(crc, slices[0]), slices[1..])
  }

  lemma UpdateNothing(crc: nat)
    ensures Update(crc, []) == crc
  {
    XorCancel(crc, ALL_ONES);
  }

  /** However a message is cut into reads, the chained CRC is the CRC of the whole message. */
  lemma {:induction false} SlicingIndependent(crc: nat, slices: seq<seq<byte>>)
    ensures UpdateAll(crc, slices) == Update(crc, Flatten(slices))
    decreases |slices|
  {
    if slices == [] {
      UpdateNothing(crc);
    } else {
      SlicingIndependent(Update(crc, slices[0]), slices[1..]);
      UpdateAppend(crc, slices[0], Flatten(slices[1..]));
    }
  }

  // ----- polynomial division over GF(2) -----

  /** A polynomial over GF(2), coefficient of the highest power first. */
  type Poly = seq<bool>

  /** The exponents of the CRC-32 generator polynomial (ISO 3309). */
  const EXPONENTS: set<nat> := {32, 26, 23, 22, 16, 12, 11, 10, 8, 7, 5, 4, 2, 1, 0}

  /** Whether a leading coefficient is cancelled into the coefficient `i` places after the next. */
  predicate Taps(lead: bool, i: nat) {
    lead && i < 32 && 31 - i in EXPONENTS
  }

  /** One line of long division by the generator: clear the leading coefficient and drop it. */
  function DivideStep(d: Poly): (r: Poly)
    requires |d| > 32
    ensures |r| == |d| - 1
  {
    seq(|d| - 1, i requires 0 <= i < |d| - 1 => d[i + 1] != Taps(d[0], i))
  }

  function Remainder(d: Poly): Poly
    decreases |d|
  {
    if |d| <= 32 then d else Remainder(DivideStep(d))
  }

  /** The product so far with one more leading coefficient: the generator is added below it if it is set. */
  function Extended(lead: bool, t: Poly): (r: Poly)
    ensures |r| == |t| + 1
  {
    [lead] + seq(|t|, i requires 0 <= i < |t| => t[i] != Taps(lead, i))
  }

  /** `q` times the generator, by shift and add. */
  function Times(q: Poly): (t: Poly)
    ensures |t| == |q| + 32
  {
    if q == [] then seq(32, _ => false) else Extended(q[0], Times(q[1..]))
  }

  /** `t` plus a remainder of degree below 32. */
  function PlusLow(t: Poly, r: Poly): (d: Poly)
    requires |r| == 32 <= |t|
    ensures |d| == |t|
  {
    seq(|t|, i requires 0 <= i < |t| => t[i] != (|t| - 32 <= i && r[i - (|t| - 32)]))
  }

  function Quotient(d: Poly): (q: Poly)
    requires |d| >= 32
    ensures |q| == |d| - 32
    decreases |d|
  {
    if |d| == 32 then [] else [d[0]] + Quotient(DivideStep(d))
  }

  lemma {:induction false} RemainderLength(d: Poly)
    requires |d| >= 32
    ensures |Remainder(d)| == 32
    decreases |d|
  {
    if |d| > 32 { RemainderLength(DivideStep(d)); }
  }

  lemma TimesCons(lead: bool, q: Poly)
    ensures Times([lead] + q) == Extended(lead, Times(q))
  {
    hide Extended;
    assert ([lead] + q)[1..] == q;
  }

  lemma ExtendedAt(lead: bool, t: Poly, i: nat)
    requires i <= |t|
    ensures Extended(lead, t)[i] == if i == 0 then lead else t[i - 1] != Taps(lead, i - 1)
  {
    hide Taps;
  }

  /** The remainder's part of a coefficient. */
  predicate Low(r: Poly, n: nat, i: nat)
    requires |r| == 32 <= n && i < n
  {
    n - 32 <= i && r[i - (n - 32)]
  }

  lemma PlusLowAt(t: Poly, r: Poly, i: nat)
    requires |r| == 32 <= |t| && i < |t|
    ensures PlusLow(t, r)[i] == (t[i] != Low(r, |t|, i))
  {
  }

  lemma DivideStepAt(d: Poly, i: nat)
    requires |d| > 32 && i < |d| - 1
    ensures DivideStep(d)[i] == (d[i + 1] != Taps(d[0], i))
  {
    hide Taps;
  }

  /** The coefficients of a product with one more leading coefficient, against those without it. */
  lemma Leading(lead: bool, q: Poly, r: Poly, i: nat)
    requires |r| == 32 && i < |q| + 33
    ensures PlusLow(Times([lead] + q), r)[i]
         == if i == 0 then lead else PlusLow(Times(q), r)[i - 1] != Taps(lead, i - 1)
  {
    hide Times, PlusLow, Taps, Extended;
    TimesCons(lead, q);
    ExtendedAt(lead, Times(q), i);
    PlusLowAt(Times([lead] + q), r, i);
    if i > 0 { PlusLowAt(Times(q), r, i - 1); }
  }

  /** Undoing one step of the division puts one more coefficient in front of the quotient. */
  lemma StepBack(d: Poly, q: Poly, r: Poly)
    requires |d| > 32 && |r| == 32 && DivideStep(d) == PlusLow(Times(q), r)
    ensures d == PlusLow(Times([d[0]] + q), r)
  {
    hide Times, PlusLow, Taps, DivideStep;
    assert |DivideStep(d)| == |q| + 32;
    forall i | 0 <= i < |d| ensures d[i] == PlusLow(Times([d[0]] + q), r)[i] {
      Leading(d[0], q, r, i);
      if i > 0 { DivideStepAt(d, i - 1); }
    }
  }

  /** One step of the division takes the leading coefficient off the quotient. */
  lemma StepOn(lead: bool, q: Poly, r: Poly)
    requires |r| == 32
    ensures DivideStep(PlusLow(Times([lead] + q), r)) == PlusLow(Times(q), r)
  {
    hide Times, PlusLow, Taps, DivideStep;
    var d := PlusLow(Times([lead] + q), r);
    Leading(lead, q, r, 0);
    forall i | 0 <= i < |d| - 1 ensures DivideStep(d)[i] == PlusLow(Times(q), r)[i] {
      Leading(lead, q, r, i + 1);
      DivideStepAt(d, i);
    }
  }

  /** Long division is division: the dividend is the quotient times the generator plus the remainder. */
  lemma {:induction false} DivisionSound(d: Poly)
    requires |d| >= 32
    ensures |Remainder(d)| == 32 && d == PlusLow(Times(Quotient(d)), Remainder(d))
    decreases |d|
  {
    hide DivideStep;
    RemainderLength(d);
    if |d| > 32 {
      DivisionSound(DivideStep(d));
      StepBack(d, Quotient(DivideStep(d)), Remainder(DivideStep(d)));
    } else {
      assert d == PlusLow(Times([]), d);
    }
  }

  /** No other quotient and no other remainder of degree below 32 do. */
  lemma {:induction false} DivisionUnique(q: Poly, r: Poly)
    requires |r| == 32
    ensures Quotient(PlusLow(Times(q), r)) == q && Remainder(PlusLow(Times(q), r)) == r
    decreases |q|
  {
    hide DivideStep, Taps;
    var d := PlusLow(Times(q), r);
    if q == [] {
      assert d == r;
    } else {
      DivisionUnique(q[1..], r);
      hide Times, PlusLow;
      assert q == [q[0]] + q[1..];
      StepOn(q[0], q[1..], r);
      Leading(q[0], q[1..], r, 0);
    }
  }

  /** The `n` low bits of `v`, least significant first: the order in which they are transmitted. */
  function Bits(v: nat, n: nat): (s: seq<bool>)
    ensures |s| == n
  {
    if n == 0 then [] else [v % 2 == 1] + Bits(v / 2, n - 1)
  }

  function MessageBits(p: seq<byte>): (s: seq<bool>)
    ensures |s| == 8 * |p|
  {
    if p == [] then [] else Bits(p[0], 8) + MessageBits(p[1..])
  }

  /** The message times x^32, with `start` added to its 32 leading coefficients. */
  function Dividend(start: Poly, m: seq<bool>): (d: Poly)
    requires |start| == 32
    ensures |d| == |m| + 32
  {
    seq(|m| + 32, i requires 0 <= i < |m| + 32 => (i < |m| && m[i]) != (i < 32 && start[i]))
  }

  function Complement(s: seq<bool>): (r: seq<bool>)
    ensures |r| == |s|
  {
    seq(|s|, i requires 0 <= i < |s| => !s[i])
  }

  lemma {:induction false} BitsXor(a: nat, b: nat, n: nat, i: nat)
    requires i < n
    ensures Bits(Xor(a, b), n)[i] == (Bits(a, n)[i] != Bits(b, n)[i])
  {
    XorUnfold(a, b);
    if i > 0 { BitsXor(a / 2, b / 2, n - 1, i - 1); }
  }

  /** The reflected constant spells the generator polynomial. */
  lemma PolyIsGenerator(i: nat)
    requires i < 32
    ensures Bits(POLY, 32)[i] == (31 - i in EXPONENTS)
  {
    PolyBits(POLY);
  }

  lemma PolyBits(v: nat)
    requires v == POLY
    ensures Bits(v, 32) ==
      [false, false, false, false, false, true, false, false, true, true, false, false, false, false, false, true,
       false, false, false, true, true, true, false, true, true, false, true, true, false, true, true, true]
  {
    PolyNibbles(v);
    PolyList();
  }

  lemma PolyNibbles(v: nat)
    requires v == POLY
    ensures Bits(v, 32) == Nibble(0) + Nibble(2) + Nibble(3) + Nibble(8)
                           + (Nibble(8) + Nibble(11) + Nibble(13) + Nibble(14) + [])
  {
    hide Bits, Nibble;
    HalfWordBits(8, 3, 2, 0, 0xEDB8, 16);
    HalfWordBits(14, 13, 11, 8, 0, 0);
    BitsNone(0);
  }

  lemma PolyList()
    ensures Nibble(0) + Nibble(2) + Nibble(3) + Nibble(8) + (Nibble(8) + Nibble(11) + Nibble(13) + Nibble(14) + []) ==
      [false, false, false, false, false, true, false, false, true, true, false, false, false, false, false, true,
       false, false, false, true, true, true, false, true, true, false, true, true, false, true, true, true]
  {
  }

  lemma BitsNone(v: nat)
    ensures Bits(v, 0) == []
  {
  }

  function Nibble(x: nat): seq<bool> {
    [x % 2 == 1, x / 2 % 2 == 1, x / 4 % 2 == 1, x / 8 % 2 == 1]
  }

  lemma HalfWordBits(x3: nat, x2: nat, x1: nat, x0: nat, h: nat, n: nat)
    requires x0 < 16 && x1 < 16 && x2 < 16 && x3 < 16
    ensures Bits(0x1_0000 * h + 0x1000 * x3 + 0x100 * x2 + 16 * x1 + x0, n + 16)
         == Nibble(x0) + Nibble(x1) + Nibble(x2) + Nibble(x3) + Bits(h, n)
  {
    hide Bits, Nibble;
    var h3 := 16 * h + x3;
    var h2 := 16 * h3 + x2;
    var h1 := 16 * h2 + x1;
    BitsNibble(x3, h, n);
    BitsNibble(x2, h3, n + 4);
    BitsNibble(x1, h2, n + 8);
    BitsNibble(x0, h1, n + 12);
  }

  lemma LowestFirst(v: nat, n: nat)
    ensures Bits(v, n + 1) == [v % 2 == 1] + Bits(v / 2, n)
  {
  }

  lemma BitsNibble(x: nat, h: nat, n: nat)
    requires x < 16
    ensures Bits(16 * h + x, n + 4) == Nibble(x) + Bits(h, n)
  {
    var v := 16 * h + x;
    assert v / 2 == 8 * h + x / 2;
    assert v / 2 / 2 == 4 * h + x / 4;
    assert v / 2 / 2 / 2 == 2 * h + x / 8;
    assert v / 2 / 2 / 2 / 2 == h;
    hide Bits;
    LowestFirst(v, n + 3);
    LowestFirst(v / 2, n + 2);
    LowestFirst(v / 2 / 2, n + 1);
    LowestFirst(v / 2 / 2 / 2, n);
  }

  /** The register after one more bit. */
  function FeedOne(c: nat, b: bool): nat {
    Shift(Xor(c, if b then 1 else 0))
  }

  /** Feeding bits to the register one at a time. */
  function Feed(c: nat, m: seq<bool>): nat
    decreases |m|
  {
    if m == [] then c else Feed(FeedOne(c, m[0]), m[1..])
  }

  lemma {:induction false} FeedAppend(c: nat, m: seq<bool>, m': seq<bool>)
    ensures Feed(c, m + m') == Feed(Feed(c, m), m')
    decreases |m|
  {
    if m == [] {
      assert m + m' == m';
    } else {
      FeedAppend(FeedOne(c, m[0]), m[1..], m');
      assert (m + m')[1..] == m[1..] + m';
    }
  }

  /** Xoring a whole byte in and shifting is the same as feeding its bits one at a time. */
  lemma {:induction false} ByteIsBits(c: nat, x: nat, n: nat)
    requires x < Pow2(n)
    ensures ShiftN(Xor(c, x), n) == Feed(c, Bits(x, n))
    decreases n
  {
    if n == 0 {
      XorZero(c);
    } else {
      var b, x' := x % 2, x / 2;
      XorDisjoint(b, x', 1);
      assert Pow2(1) == 2;
      assert x == b + 2 * x';
      XorAssoc(c, b, 2 * x');
      ShiftLinear(Xor(c, b), 2 * x');
      assert Shift(2 * x') == x';
      var c' := Shift(Xor(c, b));
      assert Shift(Xor(c, x)) == Xor(c', x');
      ByteIsBits(c', x', n - 1);
      assert Bits(x, n)[1..] == Bits(x', n - 1);
    }
  }

  lemma {:induction false} RegisterIsFeed(c: nat, p: seq<byte>)
    ensures Register(c, p) == Feed(c, MessageBits(p))
    decreases |p|
  {
    if p != [] {
      Word32();
      ByteIsBits(c, p[0], 8);
      FeedAppend(c, Bits(p[0], 8), MessageBits(p[1..]));
      RegisterIsFeed(ShiftN(Xor(c, p[0]), 8), p[1..]);
    }
  }

  lemma BitsTail(v: nat, n: nat, i: nat)
    requires 0 < n && i < n - 1
    ensures Bits(v / 2, n)[i] == Bits(v, n)[i + 1]
  {
    BitsPrefix(v / 2, n, n - 1, i);
  }

  lemma {:induction false} BitsPrefix(v: nat, n: nat, k: nat, i: nat)
    requires i < k <= n
    ensures Bits(v, n)[i] == Bits(v, k)[i]
  {
    if i > 0 { BitsPrefix(v / 2, n - 1, k - 1, i - 1); }
  }

  lemma {:induction false} BitsAbove(v: nat, n: nat, i: nat)
    requires i < n && v < Pow2(i)
    ensures !Bits(v, n)[i]
  {
    if i > 0 { BitsAbove(v / 2, n - 1, i - 1); }
  }

  lemma FeedOneBound(c: nat, b: bool)
    requires c < U32
    ensures FeedOne(c, b) < U32
  {
    Word32();
    XorBound(c, if b then 1 else 0, 32);
    ShiftBound(Xor(c, if b then 1 else 0));
  }

  /**
    What one more bit does to coefficient `i`: the next one moves up and the generator is added if the top ones differ.
   */
  lemma FeedOneBits(c: nat, b: bool, i: nat)
    requires c < U32 && i < 32
    ensures Bits(FeedOne(c, b), 32)[i]
         == ((i < 31 && Bits(c, 32)[i + 1]) != ((Bits(c, 32)[0] != b) && 31 - i in EXPONENTS))
  {
    hide Xor, Bits;
    var x := Xor(c, if b then 1 else 0);
    BitZero(c);
    XorUnfold(c, if b then 1 else 0);
    XorZero(c / 2);
    if i < 31 { BitsTail(c, 32, i); } else { TopBitClear(c); }
    BitsXor(POLY, c / 2, 32, i);
    PolyIsGenerator(i);
  }

  lemma BitZero(c: nat)
    ensures Bits(c, 32)[0] == (c % 2 == 1)
  {
  }

  lemma TopBitClear(c: nat)
    requires c < U32
    ensures !Bits(c / 2, 32)[31]
  {
    Word32();
    BitsAbove(c / 2, 32, 31);
  }

  /** Feeding one bit is one line of the long division. */
  lemma FeedIsDivideStep(c: nat, m: seq<bool>)
    requires c < U32 && m != []
    ensures DivideStep(Dividend(Bits(c, 32), m)) == Dividend(Bits(FeedOne(c, m[0]), 32), m[1..])
  {
    hide FeedOne, Bits;
    var d, d' := Dividend(Bits(c, 32), m), Dividend(Bits(FeedOne(c, m[0]), 32), m[1..]);
    forall i | 0 <= i < |d'| ensures DivideStep(d)[i] == d'[i] {
      if i < 32 { FeedOneBits(c, m[0], i); }
    }
  }

  lemma {:induction false} FeedIsDivision(c: nat, m: seq<bool>)
    requires c < U32
    ensures Remainder(Dividend(Bits(c, 32), m)) == Bits(Feed(c, m), 32)
    decreases |m|
  {
    if m == [] {
      assert Dividend(Bits(c, 32), m) == Bits(c, 32);
    } else {
      FeedIsDivideStep(c, m);
      FeedOneBound(c, m[0]);
      FeedIsDivision(FeedOne(c, m[0]), m[1..]);
    }
  }

  lemma {:induction false} OnesBits(n: nat, i: nat)
    requires i < n
    ensures Bits(Pow2(n) - 1, n)[i]
  {
    assert (Pow2(n) - 1) / 2 == Pow2(n - 1) - 1;
    if i > 0 { OnesBits(n - 1, i - 1); }
  }

  /**
    The value in the data descriptor is the one RFC 1952 section 8 asks for: complement the first 32 bits of the
    message, divide by the generator, complement the remainder.
   */
  lemma CrcIsPolynomialRemainder(p: seq<byte>)
    ensures Crc(p) < U32
    ensures var ones := seq(32, _ => true);
            Bits(Crc(p), 32) == Complement(Remainder(Dividend(ones, MessageBits(p))))
  {
    Word32();
    CrcIsUpdate(p);
    UpdateBound(0, p);
    RegisterIsFeed(ALL_ONES, p);
    RegisterBound(ALL_ONES, p);
    var r := Register(ALL_ONES, p);
    FeedIsDivision(ALL_ONES, MessageBits(p));
    var ones: seq<bool> := seq(32, _ => true);
    forall i | 0 <= i < 32
      ensures Bits(ALL_ONES, 32)[i]
      ensures Bits(Crc(p), 32)[i] == !Bits(r, 32)[i]
    {
      OnesBits(32, i);
      BitsXor(r, ALL_ONES, 32, i);
    }
    assert Bits(ALL_ONES, 32) == ones;
    assert Bits(Crc(p), 32) == Complement(Bits(r, 32));
  }

  // ----- the code -----

  /** The process-wide lookup table. */
  class CrcTable {
    const entry: array<nat>

    ghost predicate Ready()
      reads entry
    {
      entry.Length == 256 && forall n :: 0 <= n < 256 ==> entry[n] == ShiftN(n, 8)
    }

    /** Allocates and fills the table. */
    constructor ()
      ensures Ready() && fresh(entry)
    {
      entry := new nat[256];
      new;
      for n := 0 to 256
        invariant forall j :: 0 <= j < n ==> entry[j] == ShiftN(j, 8)
      {
        var c := n;
        for k := 0 to 8
          invariant c == ShiftN(n, k)
          invariant forall j :: 0 <= j < n ==> entry[j] == ShiftN(j, 8)
        {
          ShiftNSnoc(n, k);
          c := if c % 2 == 1 then Xor(POLY, c / 2) else c / 2;
        }
        entry[n] := c;
      }
    }

    /** One table lookup per byte computes the bit-serial CRC. */
    method Continue(crc: nat, p: seq<byte>) returns (r: nat)
      requires Ready() && crc < U32
      ensures r == Update(crc, p) && r < U32
    {
      UpdateBound(crc, p);
      r := Xor(crc, ALL_ONES);
      ghost var start := r;
      for i := 0 to |p|
        invariant r == Register(start, p[..i])
      {
        RegisterAppend(start, p[..i], [p[i]]);
        assert p[..i + 1] == p[..i] + [p[i]];
        TableStep(Xor(r, p[i]));
        XorHighByte(r, p[i]);
        r := Xor(entry[Xor(r, p[i]) % 256], r / 256);
      }
      assert p[..|p|] == p;
      r := Xor(r, ALL_ONES);
    }
  }

  /** A byte does not reach the bits above the low eight. */
  lemma XorHighByte(c: nat, b: byte)
    ensures Xor(c, b) / 256 == c / 256
  {
    HalfEight(c);
    HalfEight(b);
    HalfEight(Xor(c, b));
    XorHalves(c, b);
    XorZero(c / 256);
  }

  lemma HalfEight(a: nat)
    ensures a / 2 / 2 / 2 / 2 / 2 / 2 / 2 / 2 == a / 256
  {
  }

  lemma XorHalves(a: nat, b: nat)
    ensures Xor(a, b) / 2 / 2 / 2 / 2 / 2 / 2 / 2 / 2
         == Xor(a / 2 / 2 / 2 / 2 / 2 / 2 / 2 / 2, b / 2 / 2 / 2 / 2 / 2 / 2 / 2 / 2)
  {
    var a4, b4 := a / 2 / 2 / 2 / 2, b / 2 / 2 / 2 / 2;
    XorQuarter(a, b);
    XorQuarter(a4, b4);
  }

  lemma XorQuarter(a: nat, b: nat)
    ensures Xor(a, b) / 2 / 2 / 2 / 2 == Xor(a / 2 / 2 / 2 / 2, b / 2 / 2 / 2 / 2)
  {
    XorUnfold(a, b);
    XorUnfold(a / 2, b / 2);
    XorUnfold(a / 2 / 2, b / 2 / 2);
    XorUnfold(a / 2 / 2 / 2, b / 2 / 2 / 2);
  }
}

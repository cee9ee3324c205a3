/** Octets, little-endian integers and fixed-layout binary records. */
module Bytes {

  type byte = x: int | 0 <= x < 256

  const U16: nat := 0x1_0000
  const U32: nat := 0x1_0000_0000
  const U64: nat := 0x1_0000_0000_0000_0000

  /** 256 to the power `width`: the number of values a field of that many octets can hold. */
  function Span(width: nat): (s: nat)
    ensures s > 0
  {
    if width == 0 then 1 else 256 * Span(width - 1)
  }

  lemma SpanValues()
    ensures Span(2) == U16 && Span(4) == U32 && Span(8) == U64
  {
    assert Span(2) == U16;
    assert Span(4) == 256 * (256 * Span(2));
    assert Span(8) == 256 * (256 * (256 * (256 * Span(4))));
  }

  /** The low `width` octets of `v`, least significant first. */
  function Le(v: nat, width: nat): (s: seq<byte>)
    ensures |s| == width
  {
    if width == 0 then [] else [v % 256] + Le(v / 256, width - 1)
  }

  /** The value of a little-endian octet string. */
  function FromLe(s: seq<byte>): nat {
    if s == [] then 0 else s[0] + 256 * FromLe(s[1..])
  }

  /** Decoding an encoded value gives it back modulo the width of the field. */
  lemma {:induction false} LeRoundTrip(v: nat, width: nat)
    ensures FromLe(Le(v, width)) == v % Span(width)
  {
    if width > 0 {
      LeRoundTrip(v / 256, width - 1);
      assert Le(v, width)[1..] == Le(v / 256, width - 1);
      SplitMod(v, Span(width - 1));
    }
  }

  lemma SplitMod(v: nat, m: nat)
    requires m > 0
    ensures v % 256 + 256 * (v / 256 % m) == v % (256 * m)
  {
    var q, r := v / 256 / m, v / 256 % m;
    var low := v % 256;
    assert v == 256 * (q * m + r) + low;
    assert v == q * (256 * m) + (256 * r + low);
    assert 256 * r + low < 256 * m;
    DivUnique(v, 256 * m, q, 256 * r + low);
  }

  lemma DivUnique(v: nat, m: nat, q: nat, r: nat)
    requires m > 0 && r < m && v == q * m + r
    ensures v / m == q && v % m == r
  {
    var q', r' := v / m, v % m;
    assert v == q' * m + r';
    MulGap(q, q', m);
    MulGap(q', q, m);
  }

  lemma MulGap(a: nat, b: nat, m: nat)
    ensures a > b ==> a * m >= b * m + m
  {
    if a > b {
      var t := a - b - 1;
      MulNonNegative(t, m);
      assert a == b + 1 + t;
    }
  }

  lemma MulNonNegative(a: nat, b: nat)
    ensures a * b >= 0
  {
  }

  // ----- records -----

  /** One field of a fixed-layout record: how many octets it takes and the value stored there. */
  datatype Field = Field(width: nat, value: nat)

  function Encode(fs: seq<Field>): seq<byte> {
    if fs == [] then [] else Le(fs[0].value, fs[0].width) + Encode(fs[1..])
  }

  function Widths(fs: seq<Field>): seq<nat> {
    seq(|fs|, i requires 0 <= i < |fs| => fs[i].width)
  }

  function Size(widths: seq<nat>): nat {
    if widths == [] then 0 else widths[0] + Size(widths[1..])
  }

  lemma {:induction false} SizeJoined(front: seq<nat>, tail: seq<nat>)
    ensures Size(front + tail) == Size(front) + Size(tail)
  {
    if front == [] {
      assert front + tail == tail;
    } else {
      assert (front + tail)[1..] == front[1..] + tail;
      SizeJoined(front[1..], tail);
    }
  }

  /** Reads consecutive fields of the given widths from the front of `s`. */
  function Decode(widths: seq<nat>, s: seq<byte>): (vs: seq<nat>)
    ensures |vs| == |widths|
    decreases |widths| + |s|
  {
    if widths == [] then [] else
    var w := if widths[0] <= |s| then widths[0] else |s|;
    [FromLe(s[..w])] + Decode(widths[1..], s[w..])
  }

  lemma {:induction false} EncodeLength(fs: seq<Field>)
    ensures |Encode(fs)| == Size(Widths(fs))
  {
    if fs != [] {
      EncodeLength(fs[1..]);
      assert Widths(fs)[1..] == Widths(fs[1..]);
    }
  }

  /** Every value is small enough for its field. */
  predicate Fits(fs: seq<Field>) {
    forall i :: 0 <= i < |fs| ==> fs[i].value < Span(fs[i].width)
  }

  function Values(fs: seq<Field>): seq<nat> {
    seq(|fs|, i requires 0 <= i < |fs| => fs[i].value)
  }

  lemma DecodeCons(width: nat, widths: seq<nat>, chunk: seq<byte>, rest: seq<byte>)
    requires |chunk| == width
    ensures Decode([width] + widths, chunk + rest) == [FromLe(chunk)] + Decode(widths, rest)
  {
    hide FromLe;
    assert ([width] + widths)[1..] == widths;
    assert (chunk + rest)[..width] == chunk && (chunk + rest)[width..] == rest;
  }

  lemma FieldsCons(fs: seq<Field>)
    requires fs != []
    ensures Encode(fs) == Le(fs[0].value, fs[0].width) + Encode(fs[1..])
    ensures Widths(fs) == [fs[0].width] + Widths(fs[1..]) && Values(fs) == [fs[0].value] + Values(fs[1..])
  {
    hide Le;
  }

  lemma EmptyRecord(rest: seq<byte>)
    ensures Decode(Widths([]), Encode([]) + rest) == Values([])
  {
  }

  /** A record whose values fit is read back field by field, whatever follows it. */
  lemma {:induction false} RecordRoundTrip(fs: seq<Field>, rest: seq<byte>)
    requires Fits(fs)
    ensures |Encode(fs)| == Size(Widths(fs))
    ensures Decode(Widths(fs), Encode(fs) + rest) == Values(fs)
  {
    hide Le, FromLe, Span, Fits, Decode, Encode, Widths, Values, Size;
    EncodeLength(fs);
    if fs == [] {
      EmptyRecord(rest);
    } else {
      var f, tail := fs[0], Encode(fs[1..]);
      FitsTail(fs);
      RecordRoundTrip(fs[1..], rest);
      LeRoundTrip(f.value, f.width);
      SmallMod(f.value, Span(f.width));
      FieldsCons(fs);
      DecodeCons(f.width, Widths(fs[1..]), Le(f.value, f.width), tail + rest);
      assert Encode(fs) + rest == Le(f.value, f.width) + (tail + rest);
    }
  }

  lemma FitsTail(fs: seq<Field>)
    requires Fits(fs) && fs != []
    ensures fs[0].value < Span(fs[0].width) && Fits(fs[1..])
  {
    forall i | 0 <= i < |fs[1..]| ensures fs[1..][i].value < Span(fs[1..][i].width) {
      assert fs[1..][i] == fs[i + 1];
    }
  }

  lemma SmallMod(v: nat, m: nat)
    requires v < m
    ensures v % m == v
  {
  }

  /** Appending a field to a record appends its octets. */
  lemma {:induction false} EncodeSnoc(fs: seq<Field>, f: Field)
    ensures Encode(fs + [f]) == Encode(fs) + Le(f.value, f.width)
  {
    hide Le;
    if fs == [] {
      assert (fs + [f])[1..] == [];
      assert Encode([f]) == Le(f.value, f.width) + Encode([]);
    } else {
      EncodeSnoc(fs[1..], f);
      assert (fs + [f])[1..] == fs[1..] + [f];
      var first, middle, last := Le(fs[0].value, fs[0].width), Encode(fs[1..]), Le(f.value, f.width);
      assert first + (middle + last) == (first + middle) + last;
    }
  }

  /** Powers of two. */
  function Pow2(k: nat): (p: nat)
    ensures p > 0
  {
    if k == 0 then 1 else 2 * Pow2(k - 1)
  }

  // ----- sequences of octet strings -----

  function Flatten(ss: seq<seq<byte>>): seq<byte> {
    if ss == [] then [] else ss[0] + Flatten(ss[1..])
  }

  lemma {:induction false} FlattenSnoc(ss: seq<seq<byte>>, s: seq<byte>)
    ensures Flatten(ss + [s]) == Flatten(ss) + s
  {
    if ss == [] {
      assert (ss + [s])[1..] == [];
      assert Flatten([s]) == s + Flatten([]);
    } else {
      FlattenSnoc(ss[1..], s);
      assert (ss + [s])[1..] == ss[1..] + [s];
    }
  }
}

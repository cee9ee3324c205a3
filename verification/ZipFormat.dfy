/**
  The archive folder_zip_pump.c prints, as a function of its entries, and a reader that follows PKWARE's APPNOTE.TXT
  from the end of the file: end of central directory (4.3.16), ZIP64 locator (4.3.15), ZIP64 record (4.3.14), central
  directory (4.3.12), local headers (4.3.7), ZIP64 extra fields (4.5.3) and data descriptors (4.3.9).
 */
module ZipFormat {
  import opened Bytes
  import opened Options
  import opened Crc32

  /** One file: the name and size the directory listing declares, and what is really on disk. */
  datatype Entry = Entry(name: seq<byte>, size: nat, blob: seq<byte>)

  /** What the reader hands back. */
  datatype Member = Member(name: seq<byte>, data: seq<byte>)

  const LOCAL_SIG: nat := 0x04034b50
  const DESCRIPTOR_SIG: nat := 0x08074b50
  const CENTRAL_SIG: nat := 0x02014b50
  const Z64_SIG: nat := 0x06064b50
  const LOCATOR_SIG: nat := 0x07064b50
  const EOCD_SIG: nat := 0x06054b50
  const ONES16: nat := 0xFFFF
  const ONES32: nat := 0xFFFF_FFFF

  /** The bytes of the file that make it into the archive: never more than the declared size. */
  function Data(e: Entry): seq<byte> {
    if e.size <= |e.blob| then e.blob[..e.size] else e.blob
  }

  predicate Complete(es: seq<Entry>) {
    forall i :: 0 <= i < |es| ==> es[i].size <= |es[i].blob|
  }

  // ----- the printed records -----

  function LocalHeader(name: nat): seq<Field> {
    [Field(4, LOCAL_SIG), Field(2, 45), Field(2, 0x0808), Field(2, 0), Field(2, 0), Field(2, 0x0021), Field(4, 0),
     Field(4, ONES32), Field(4, ONES32), Field(2, name), Field(2, 20)]
  }

  function LocalExtra(size: nat): seq<Field> {
    [Field(2, 1), Field(2, 16), Field(8, size), Field(8, size)]
  }

  function Descriptor(crc: nat, size: nat): seq<Field> {
    [Field(4, DESCRIPTOR_SIG), Field(4, crc), Field(8, size), Field(8, size)]
  }

  function CentralHeader(crc: nat, name: nat): seq<Field> {
    [Field(4, CENTRAL_SIG), Field(2, 45), Field(2, 45), Field(2, 0x0808), Field(2, 0), Field(2, 0), Field(2, 0x0021),
     Field(4, crc), Field(4, ONES32), Field(4, ONES32), Field(2, name), Field(2, 28), Field(2, 0), Field(2, 0),
     Field(2, 0), Field(4, 0), Field(4, ONES32)]
  }

  function CentralExtra(size: nat, offset: nat): seq<Field> {
    [Field(2, 1), Field(2, 24), Field(8, size), Field(8, size), Field(8, offset)]
  }

  function Z64Record(count: nat, cdBytes: nat, cdOffset: nat): seq<Field> {
    [Field(4, Z64_SIG), Field(8, 44), Field(2, 45), Field(2, 45), Field(4, 0), Field(4, 0), Field(8, count),
     Field(8, count), Field(8, cdBytes), Field(8, cdOffset)]
  }

  function Z64Locator(z64: nat): seq<Field> {
    [Field(4, LOCATOR_SIG), Field(4, 0), Field(8, z64), Field(4, 1)]
  }

  /** The classic trailer holds the true count and directory size where they fit below the all-ones marker. */
  function Eocd(count: nat, cdBytes: nat): seq<Field> {
    [Field(4, EOCD_SIG), Field(2, 0), Field(2, 0), Field(2, if count < ONES16 then count else ONES16),
     Field(2, if count < ONES16 then count else ONES16), Field(4, if cdBytes < ONES32 then cdBytes else ONES32),
     Field(4, ONES32), Field(2, 0)]
  }

  /** The cast of a name length to the 16 bits of its header field. */
  function Short(n: nat): nat {
    n % U16
  }

  function Section(e: Entry): seq<byte> {
    Encode(LocalHeader(Short(|e.name|))) + e.name + Encode(LocalExtra(e.size)) + Data(e)
    + Encode(Descriptor(Crc(Data(e)), e.size))
  }

  function CentralEntry(e: Entry, offset: nat): seq<byte> {
    Encode(CentralHeader(Crc(Data(e)), Short(|e.name|))) + e.name + Encode(CentralExtra(e.size, offset))
  }

  // ----- sizes, known before a byte is sent -----

  function SectionSize(e: Entry): nat {
    30 + 20 + |e.name| + e.size + 24
  }

  function BodySize(es: seq<Entry>): nat {
    if es == [] then 0 else BodySize(es[..|es| - 1]) + SectionSize(es[|es| - 1])
  }

  function CentralSize(es: seq<Entry>): nat {
    if es == [] then 0 else CentralSize(es[..|es| - 1]) + 46 + 28 + |es[|es| - 1].name|
  }

  function TotalSize(es: seq<Entry>): nat {
    BodySize(es) + CentralSize(es) + 56 + 20 + 22
  }

  // ----- the archive -----

  function SectionsFrom(es: seq<Entry>, i: nat): seq<byte>
    requires i <= |es|
    decreases |es| - i
  {
    if i == |es| then [] else Section(es[i]) + SectionsFrom(es, i + 1)
  }

  function CentralFrom(es: seq<Entry>, i: nat): seq<byte>
    requires i <= |es|
    decreases |es| - i
  {
    if i == |es| then [] else CentralEntry(es[i], Wrap(BodySize(es[..i]))) + CentralFrom(es, i + 1)
  }

  function Trailer(count: nat, cdBytes: nat, cdOffset: nat, z64: nat): seq<byte> {
    Encode(Z64Record(count, cdBytes, cdOffset)) + Encode(Z64Locator(z64)) + Encode(Eocd(count, cdBytes))
  }

  /** Offsets and sizes are 64-bit words: what does not fit wraps. */
  function Wrap(v: nat): nat {
    v % U64
  }

  function TrailerFor(es: seq<Entry>): seq<byte> {
    Trailer(|es|, Wrap(CentralSize(es)), Wrap(BodySize(es)), Wrap(BodySize(es) + CentralSize(es)))
  }

  function Archive(es: seq<Entry>): seq<byte> {
    SectionsFrom(es, 0) + CentralFrom(es, 0) + TrailerFor(es)
  }

  function Members(es: seq<Entry>): seq<Member> {
    seq(|es|, i requires 0 <= i < |es| => Member(es[i].name, Data(es[i])))
  }

  // ----- the reader -----

  const EOCD_WIDTHS: seq<nat> := [4, 2, 2, 2, 2, 4, 4, 2]
  const LOCATOR_WIDTHS: seq<nat> := [4, 4, 8, 4]
  const Z64_WIDTHS: seq<nat> := [4, 8, 2, 2, 4, 4, 8, 8, 8, 8]
  const CENTRAL_FRONT: seq<nat> := [4, 2, 2, 2, 2, 2, 2, 4]
  const CENTRAL_TAIL: seq<nat> := [4, 4, 2, 2, 2, 2, 2, 4, 4]
  const CENTRAL_WIDTHS: seq<nat> := CENTRAL_FRONT + CENTRAL_TAIL
  const CENTRAL_EXTRA_WIDTHS: seq<nat> := [2, 2, 8, 8, 8]
  const LOCAL_WIDTHS: seq<nat> := [4, 2, 2, 2, 2, 2, 4, 4, 4, 2, 2]
  const LOCAL_EXTRA_WIDTHS: seq<nat> := [2, 2, 8, 8]
  const DESCRIPTOR_WIDTHS: seq<nat> := [4, 4, 8, 8]

  /** The fields of a record of `size` octets at `p`. */
  function Record(size: nat, widths: seq<nat>, a: seq<byte>, p: nat): (r: Option<seq<nat>>)
    ensures r.Some? ==> |r.value| == |widths|
  {
    if p + size <= |a| then Some(Decode(widths, a[p..])) else None
  }

  function Slice(a: seq<byte>, p: nat, n: nat): (r: Option<seq<byte>>)
    ensures r.Some? ==> |r.value| == n
  {
    if p + n <= |a| then Some(a[p..p + n]) else None
  }

  function Check(b: bool): Option<()> {
    if b then Some(()) else None
  }

  /** Scans backwards for an end-of-central-directory record whose comment runs exactly to the end of the file. */
  function FindEocd(a: seq<byte>, comment: nat): Option<nat>
    decreases U16 - comment
  {
    if comment >= U16 || |a| < 22 + comment then None else
    var p := |a| - 22 - comment;
    var r :- Record(22, EOCD_WIDTHS, a, p);
    if r[0] == 0x06054b50 && r[7] == comment then Some(p) else FindEocd(a, comment + 1)
  }

  /** A local header, its ZIP64 extra field, the stored data and its descriptor; all must agree with the directory. */
  function ReadLocal(a: seq<byte>, p: nat, name: seq<byte>, crc: nat, size: nat): Option<Member> {
    var h :- Record(30, LOCAL_WIDTHS, a, p);
    var _ :- Check(h[0] == 0x04034b50 && h[1] <= 45 && h[2] == 0x0808 && h[3] == 0);
    var _ :- Check(h[4] == 0 && h[5] == 0x0021 && h[6] == 0 && h[7] == 0xFFFF_FFFF && h[8] == 0xFFFF_FFFF);
    var _ :- Check(h[9] == |name| && h[10] == 20);
    var local :- Slice(a, p + 30, |name|);
    var _ :- Check(local == name);
    var x :- Record(20, LOCAL_EXTRA_WIDTHS, a, p + 30 + |name|);
    var _ :- Check(x[0] == 1 && x[1] == 16 && x[2] == size && x[3] == size);
    var data :- Slice(a, p + 50 + |name|, size);
    var d :- Record(24, DESCRIPTOR_WIDTHS, a, p + 50 + |name| + size);
    var _ :- Check(d[0] == 0x08074b50 && d[1] == crc && d[2] == size && d[3] == size);
    var _ :- Check(Crc(data) == crc);
    Some(Member(name, data))
  }

  /** `n` directory entries from `p`, which must end exactly at `end`. */
  function ReadCentral(a: seq<byte>, p: nat, n: nat, end: nat): Option<seq<Member>>
    decreases n
  {
    if n == 0 then (if p == end then Some([]) else None) else
    var h :- Record(46, CENTRAL_WIDTHS, a, p);
    var _ :- Check(h[0] == 0x02014b50 && h[1] == 45 && h[2] <= 45 && h[3] == 0x0808 && h[4] == 0 && h[5] == 0);
    var _ :- Check(h[6] == 0x0021 && h[8] == 0xFFFF_FFFF && h[9] == 0xFFFF_FFFF && h[11] == 28 && h[12] == 0);
    var _ :- Check(h[13] == 0 && h[14] == 0 && h[15] == 0 && h[16] == 0xFFFF_FFFF);
    var name :- Slice(a, p + 46, h[10]);
    var x :- Record(28, CENTRAL_EXTRA_WIDTHS, a, p + 46 + h[10]);
    var _ :- Check(x[0] == 1 && x[1] == 24 && x[2] == x[3]);
    var member :- ReadLocal(a, x[4], name, h[7], x[2]);
    var members :- ReadCentral(a, p + 46 + h[10] + 28, n - 1, end);
    Some([member] + members)
  }

  /** A trailer field either holds the true value or is all ones and defers to the ZIP64 record. */
  predicate Defers(field: nat, ones: nat, value: nat) {
    field == ones || field == value
  }

  function ReadArchive(a: seq<byte>): Option<seq<Member>> {
    var p :- FindEocd(a, 0);
    var e :- Record(22, EOCD_WIDTHS, a, p);
    var _ :- Check(p >= 20);
    var l :- Record(20, LOCATOR_WIDTHS, a, p - 20);
    var _ :- Check(l[0] == 0x07064b50 && l[1] == 0 && l[3] == 1 && l[2] + 56 == p - 20);
    var z :- Record(56, Z64_WIDTHS, a, l[2]);
    var _ :- Check(z[0] == 0x06064b50 && z[1] == 44 && z[2] == 45 && z[3] <= 45);
    var _ :- Check(z[4] == 0 && z[5] == 0 && z[6] == z[7]);
    var _ :- Check(e[1] == 0 && e[2] == 0 && Defers(e[3], 0xFFFF, z[6]) && Defers(e[4], 0xFFFF, z[7]));
    var _ :- Check(Defers(e[5], 0xFFFF_FFFF, z[8]) && Defers(e[6], 0xFFFF_FFFF, z[9]) && z[9] + z[8] == l[2]);
    ReadCentral(a, z[9], z[7], l[2])
  }

  // ----- lengths -----

  lemma RecordLength(fs: seq<Field>, widths: seq<nat>)
    requires Widths(fs) == widths
    ensures |Encode(fs)| == Size(widths)
  {
    EncodeLength(fs);
  }

  lemma LocalHeaderSize()
    ensures Size(LOCAL_WIDTHS) == 30
  {
  }

  lemma LocalHeaderLayout(name: nat)
    ensures Widths(LocalHeader(name)) == LOCAL_WIDTHS && |Encode(LocalHeader(name))| == 30
  {
    assert Widths(LocalHeader(name)) == LOCAL_WIDTHS;
    RecordLength(LocalHeader(name), LOCAL_WIDTHS);
    LocalHeaderSize();
  }

  lemma LocalExtraSize()
    ensures Size(LOCAL_EXTRA_WIDTHS) == 20
  {
  }

  lemma LocalExtraLayout(size: nat)
    ensures Widths(LocalExtra(size)) == LOCAL_EXTRA_WIDTHS && |Encode(LocalExtra(size))| == 20
  {
    assert Widths(LocalExtra(size)) == LOCAL_EXTRA_WIDTHS;
    RecordLength(LocalExtra(size), LOCAL_EXTRA_WIDTHS);
    LocalExtraSize();
  }

  lemma DescriptorSize()
    ensures Size(DESCRIPTOR_WIDTHS) == 24
  {
  }

  lemma DescriptorLayout(crc: nat, size: nat)
    ensures Widths(Descriptor(crc, size)) == DESCRIPTOR_WIDTHS && |Encode(Descriptor(crc, size))| == 24
  {
    assert Widths(Descriptor(crc, size)) == DESCRIPTOR_WIDTHS;
    RecordLength(Descriptor(crc, size), DESCRIPTOR_WIDTHS);
    DescriptorSize();
  }

  lemma CentralFrontSize()
    ensures Size(CENTRAL_FRONT) == 20
  {
  }

  lemma CentralTailSize()
    ensures Size(CENTRAL_TAIL) == 26
  {
  }

  lemma CentralHeaderSize()
    ensures Size(CENTRAL_WIDTHS) == 46
  {
    hide Size;
    CentralFrontSize();
    CentralTailSize();
    SizeJoined(CENTRAL_FRONT, CENTRAL_TAIL);
  }

  lemma CentralHeaderLayout(crc: nat, name: nat)
    ensures Widths(CentralHeader(crc, name)) == CENTRAL_WIDTHS && |Encode(CentralHeader(crc, name))| == 46
  {
    assert Widths(CentralHeader(crc, name)) == CENTRAL_WIDTHS;
    RecordLength(CentralHeader(crc, name), CENTRAL_WIDTHS);
    CentralHeaderSize();
  }

  lemma CentralExtraSize()
    ensures Size(CENTRAL_EXTRA_WIDTHS) == 28
  {
  }

  lemma CentralExtraLayout(size: nat, offset: nat)
    ensures Widths(CentralExtra(size, offset)) == CENTRAL_EXTRA_WIDTHS && |Encode(CentralExtra(size, offset))| == 28
  {
    assert Widths(CentralExtra(size, offset)) == CENTRAL_EXTRA_WIDTHS;
    RecordLength(CentralExtra(size, offset), CENTRAL_EXTRA_WIDTHS);
    CentralExtraSize();
  }

  lemma Z64RecordSize()
    ensures Size(Z64_WIDTHS) == 56
  {
  }

  lemma Z64RecordLayout(count: nat, cdBytes: nat, cdOffset: nat)
    ensures var z := Z64Record(count, cdBytes, cdOffset); Widths(z) == Z64_WIDTHS && |Encode(z)| == 56
  {
    assert Widths(Z64Record(count, cdBytes, cdOffset)) == Z64_WIDTHS;
    RecordLength(Z64Record(count, cdBytes, cdOffset), Z64_WIDTHS);
    Z64RecordSize();
  }

  lemma Z64LocatorSize()
    ensures Size(LOCATOR_WIDTHS) == 20
  {
  }

  lemma Z64LocatorLayout(z64: nat)
    ensures Widths(Z64Locator(z64)) == LOCATOR_WIDTHS && |Encode(Z64Locator(z64))| == 20
  {
    assert Widths(Z64Locator(z64)) == LOCATOR_WIDTHS;
    RecordLength(Z64Locator(z64), LOCATOR_WIDTHS);
    Z64LocatorSize();
  }

  lemma EocdSize()
    ensures Size(EOCD_WIDTHS) == 22
  {
  }

  lemma EocdLayout(count: nat, cdBytes: nat)
    ensures Widths(Eocd(count, cdBytes)) == EOCD_WIDTHS && |Encode(Eocd(count, cdBytes))| == 22
  {
    assert Widths(Eocd(count, cdBytes)) == EOCD_WIDTHS;
    RecordLength(Eocd(count, cdBytes), EOCD_WIDTHS);
    EocdSize();
  }

  // ----- reading a record back -----

  /** `chunk` stands at offset `p`. */
  predicate At(a: seq<byte>, p: nat, chunk: seq<byte>) {
    p + |chunk| <= |a| && a[p..p + |chunk|] == chunk
  }

  lemma AtSplit(a: seq<byte>, p: nat, x: seq<byte>, y: seq<byte>)
    requires At(a, p, x + y)
    ensures At(a, p, x) && At(a, p + |x|, y)
  {
    assert a[p..p + |x|] == (x + y)[..|x|];
    assert a[p + |x|..p + |x| + |y|] == (x + y)[|x|..];
  }

  lemma ReadsBack(fs: seq<Field>, size: nat, widths: seq<nat>, a: seq<byte>, p: nat)
    requires At(a, p, Encode(fs))
    requires Widths(fs) == widths && |Encode(fs)| == size && Fits(fs)
    ensures Record(size, widths, a, p) == Some(Values(fs))
  {
    RecordRoundTrip(fs, a[p + size..]);
    assert a[p..] == a[p..p + size] + a[p + size..];
  }

  lemma LocalHeaderValues(name: nat)
    requires name < U16
    ensures Fits(LocalHeader(name))
    ensures Values(LocalHeader(name))
         == [LOCAL_SIG, 45, 0x0808, 0, 0, 0x0021, 0, ONES32, ONES32, name, 20]
  {
    SpanValues();
  }

  lemma LocalExtraValues(size: nat)
    requires size < U64
    ensures Fits(LocalExtra(size))
    ensures Values(LocalExtra(size))
         == [1, 16, size, size]
  {
    SpanValues();
  }

  lemma DescriptorValues(crc: nat, size: nat)
    requires crc < U32 && size < U64
    ensures Fits(Descriptor(crc, size))
    ensures Values(Descriptor(crc, size))
         == [DESCRIPTOR_SIG, crc, size, size]
  {
    SpanValues();
  }

  lemma CentralHeaderValues(crc: nat, name: nat)
    requires crc < U32 && name < U16
    ensures Fits(CentralHeader(crc, name))
    ensures Values(CentralHeader(crc, name))
         == [CENTRAL_SIG, 45, 45, 0x0808, 0, 0, 0x0021, crc, ONES32, ONES32, name, 28, 0, 0, 0, 0, ONES32]
  {
    SpanValues();
  }

  lemma CentralExtraValues(size: nat, offset: nat)
    requires size < U64 && offset < U64
    ensures Fits(CentralExtra(size, offset))
    ensures Values(CentralExtra(size, offset))
         == [1, 24, size, size, offset]
  {
    SpanValues();
  }

  lemma Z64RecordValues(count: nat, cdBytes: nat, cdOffset: nat)
    requires count < U64 && cdBytes < U64 && cdOffset < U64
    ensures Fits(Z64Record(count, cdBytes, cdOffset))
    ensures Values(Z64Record(count, cdBytes, cdOffset))
         == [Z64_SIG, 44, 45, 45, 0, 0, count, count, cdBytes, cdOffset]
  {
    SpanValues();
  }

  lemma Z64LocatorValues(z64: nat)
    requires z64 < U64
    ensures Fits(Z64Locator(z64))
    ensures Values(Z64Locator(z64))
         == [LOCATOR_SIG, 0, z64, 1]
  {
    SpanValues();
  }

  lemma EocdValues(count: nat, cdBytes: nat)
    ensures Fits(Eocd(count, cdBytes))
    ensures Values(Eocd(count, cdBytes))
         == [EOCD_SIG, 0, 0, if count < ONES16 then count else ONES16, if count < ONES16 then count else ONES16,
                     if cdBytes < ONES32 then cdBytes else ONES32, ONES32, 0]
  {
    SpanValues();
  }

  lemma ReadsLocalHeader(name: nat, a: seq<byte>, p: nat)
    requires At(a, p, Encode(LocalHeader(name))) && name < U16
    ensures Record(30, LOCAL_WIDTHS, a, p)
         == Some([LOCAL_SIG, 45, 0x0808, 0, 0, 0x0021, 0, ONES32, ONES32, name, 20])
  {
    LocalHeaderLayout(name);
    LocalHeaderValues(name);
    ReadsBack(LocalHeader(name), 30, LOCAL_WIDTHS, a, p);
  }

  lemma ReadsLocalExtra(size: nat, a: seq<byte>, p: nat)
    requires At(a, p, Encode(LocalExtra(size))) && size < U64
    ensures Record(20, LOCAL_EXTRA_WIDTHS, a, p)
         == Some([1, 16, size, size])
  {
    LocalExtraLayout(size);
    LocalExtraValues(size);
    ReadsBack(LocalExtra(size), 20, LOCAL_EXTRA_WIDTHS, a, p);
  }

  lemma ReadsDescriptor(crc: nat, size: nat, a: seq<byte>, p: nat)
    requires At(a, p, Encode(Descriptor(crc, size))) && crc < U32 && size < U64
    ensures Record(24, DESCRIPTOR_WIDTHS, a, p)
         == Some([DESCRIPTOR_SIG, crc, size, size])
  {
    DescriptorLayout(crc, size);
    DescriptorValues(crc, size);
    ReadsBack(Descriptor(crc, size), 24, DESCRIPTOR_WIDTHS, a, p);
  }

  lemma ReadsCentralHeader(crc: nat, name: nat, a: seq<byte>, p: nat)
    requires At(a, p, Encode(CentralHeader(crc, name))) && crc < U32 && name < U16
    ensures Record(46, CENTRAL_WIDTHS, a, p)
         == Some([CENTRAL_SIG, 45, 45, 0x0808, 0, 0, 0x0021, crc, ONES32, ONES32, name, 28, 0, 0, 0, 0, ONES32])
  {
    CentralHeaderLayout(crc, name);
    CentralHeaderValues(crc, name);
    ReadsBack(CentralHeader(crc, name), 46, CENTRAL_WIDTHS, a, p);
  }

  lemma ReadsCentralExtra(size: nat, offset: nat, a: seq<byte>, p: nat)
    requires At(a, p, Encode(CentralExtra(size, offset))) && size < U64 && offset < U64
    ensures Record(28, CENTRAL_EXTRA_WIDTHS, a, p)
         == Some([1, 24, size, size, offset])
  {
    CentralExtraLayout(size, offset);
    CentralExtraValues(size, offset);
    ReadsBack(CentralExtra(size, offset), 28, CENTRAL_EXTRA_WIDTHS, a, p);
  }

  lemma ReadsZ64Record(count: nat, cdBytes: nat, cdOffset: nat, a: seq<byte>, p: nat)
    requires At(a, p, Encode(Z64Record(count, cdBytes, cdOffset))) && count < U64 && cdBytes < U64 && cdOffset < U64
    ensures Record(56, Z64_WIDTHS, a, p)
         == Some([Z64_SIG, 44, 45, 45, 0, 0, count, count, cdBytes, cdOffset])
  {
    Z64RecordLayout(count, cdBytes, cdOffset);
    Z64RecordValues(count, cdBytes, cdOffset);
    ReadsBack(Z64Record(count, cdBytes, cdOffset), 56, Z64_WIDTHS, a, p);
  }

  lemma ReadsZ64Locator(z64: nat, a: seq<byte>, p: nat)
    requires At(a, p, Encode(Z64Locator(z64))) && z64 < U64
    ensures Record(20, LOCATOR_WIDTHS, a, p)
         == Some([LOCATOR_SIG, 0, z64, 1])
  {
    Z64LocatorLayout(z64);
    Z64LocatorValues(z64);
    ReadsBack(Z64Locator(z64), 20, LOCATOR_WIDTHS, a, p);
  }

  lemma ReadsEocd(count: nat, cdBytes: nat, a: seq<byte>, p: nat)
    requires At(a, p, Encode(Eocd(count, cdBytes)))
    ensures Record(22, EOCD_WIDTHS, a, p)
         == Some([EOCD_SIG, 0, 0, if count < ONES16 then count else ONES16, if count < ONES16 then count else ONES16,
                     if cdBytes < ONES32 then cdBytes else ONES32, ONES32, 0])
  {
    EocdLayout(count, cdBytes);
    EocdValues(count, cdBytes);
    ReadsBack(Eocd(count, cdBytes), 22, EOCD_WIDTHS, a, p);
  }

  // ----- reading the archive back -----

  lemma SplitThree(a: seq<byte>, p: nat, x: seq<byte>, y: seq<byte>, z: seq<byte>)
    requires At(a, p, x + y + z)
    ensures At(a, p, x) && At(a, p + |x|, y) && At(a, p + |x| + |y|, z)
  {
    AtSplit(a, p, x + y, z);
    AtSplit(a, p, x, y);
  }

  /** Where the parts of a section stand. */
  lemma SectionPlaces(e: Entry, a: seq<byte>, p: nat)
    requires At(a, p, Section(e))
    ensures var n := |e.name|;
            && At(a, p, Encode(LocalHeader(Short(n))))
            && At(a, p + 30, e.name)
            && At(a, p + 30 + n, Encode(LocalExtra(e.size)))
            && At(a, p + 50 + n, Data(e))
            && At(a, p + 50 + n + |Data(e)|, Encode(Descriptor(Crc(Data(e)), e.size)))
  {
    hide Encode, Crc, Data;
    var n := Short(|e.name|);
    var h, x, d := Encode(LocalHeader(n)), Encode(LocalExtra(e.size)), Encode(Descriptor(Crc(Data(e)), e.size));
    LocalHeaderLayout(n);
    LocalExtraLayout(e.size);
    SplitThree(a, p, h + e.name + x, Data(e), d);
    SplitThree(a, p, h, e.name, x);
  }

  lemma ReadsLocal(e: Entry, a: seq<byte>, p: nat)
    requires At(a, p, Section(e))
    requires |e.name| < U16 && e.size < U64 && e.size <= |e.blob|
    ensures ReadLocal(a, p, e.name, Crc(Data(e)), e.size) == Some(Member(e.name, Data(e)))
  {
    hide Encode, Crc, ReadLocal, Record, Section, At, Slice, LocalHeader, LocalExtra, Descriptor;
    var n, crc := |e.name|, Crc(Data(e));
    SmallMod(n, U16);
    SectionPlaces(e, a, p);
    CrcIsPolynomialRemainder(Data(e));
    ReadsLocalHeader(n, a, p);
    ReadsLocalExtra(e.size, a, p + 30 + n);
    ReadsDescriptor(crc, e.size, a, p + 50 + n + e.size);
    AtSlice(a, p + 30, e.name);
    AtSlice(a, p + 50 + n, Data(e));
    AcceptsLocal(a, p, e.name, crc, e.size, Data(e));
  }

  lemma AtSlice(a: seq<byte>, p: nat, chunk: seq<byte>)
    requires At(a, p, chunk)
    ensures Slice(a, p, |chunk|) == Some(chunk)
  {
  }

  lemma AcceptsLocal(a: seq<byte>, p: nat, name: seq<byte>, crc: nat, size: nat, data: seq<byte>)
    requires Record(30, LOCAL_WIDTHS, a, p)
          == Some([LOCAL_SIG, 45, 0x0808, 0, 0, 0x0021, 0, ONES32, ONES32, |name|, 20])
    requires Slice(a, p + 30, |name|) == Some(name)
    requires Record(20, LOCAL_EXTRA_WIDTHS, a, p + 30 + |name|) == Some([1, 16, size, size])
    requires Slice(a, p + 50 + |name|, size) == Some(data)
    requires Record(24, DESCRIPTOR_WIDTHS, a, p + 50 + |name| + size) == Some([DESCRIPTOR_SIG, crc, size, size])
    requires Crc(data) == crc
    ensures ReadLocal(a, p, name, crc, size) == Some(Member(name, data))
  {
  }

  lemma SectionLength(e: Entry)
    requires e.size <= |e.blob|
    ensures |Section(e)| == SectionSize(e)
  {
    LocalHeaderLayout(Short(|e.name|));
    LocalExtraLayout(e.size);
    DescriptorLayout(Crc(Data(e)), e.size);
  }

  lemma CentralEntryLength(e: Entry, offset: nat)
    ensures |CentralEntry(e, offset)| == 46 + 28 + |e.name|
  {
    CentralHeaderLayout(Crc(Data(e)), Short(|e.name|));
    CentralExtraLayout(e.size, offset);
  }

  lemma SizesSnoc(es: seq<Entry>, i: nat)
    requires i < |es|
    ensures BodySize(es[..i + 1]) == BodySize(es[..i]) + SectionSize(es[i])
    ensures CentralSize(es[..i + 1]) == CentralSize(es[..i]) + 46 + 28 + |es[i].name|
  {
    assert es[..i + 1][..i] == es[..i];
  }

  lemma {:induction false} SizesMonotone(es: seq<Entry>, i: nat)
    requires i <= |es|
    ensures BodySize(es[..i]) <= BodySize(es) && CentralSize(es[..i]) <= CentralSize(es)
    ensures forall j :: i <= j < |es| ==> es[j].size <= BodySize(es)
    ensures 74 * (|es| - i) <= BodySize(es) - BodySize(es[..i])
    decreases |es| - i
  {
    if i == |es| {
      assert es[..i] == es;
    } else {
      SizesSnoc(es, i);
      SizesMonotone(es, i + 1);
    }
  }

  /** Entry `i` starts at the sum of the sizes of the entries before it. */
  lemma {:induction false} SectionAt(es: seq<Entry>, i: nat, a: seq<byte>)
    requires i <= |es| && Complete(es) && At(a, 0, SectionsFrom(es, 0))
    ensures At(a, BodySize(es[..i]), SectionsFrom(es, i))
    ensures i < |es| ==> At(a, BodySize(es[..i]), Section(es[i]))
  {
    hide Section, Encode;
    if i > 0 {
      SectionAt(es, i - 1, a);
      SizesSnoc(es, i - 1);
      SectionLength(es[i - 1]);
      AtSplit(a, BodySize(es[..i - 1]), Section(es[i - 1]), SectionsFrom(es, i));
    }
    if i < |es| {
      AtSplit(a, BodySize(es[..i]), Section(es[i]), SectionsFrom(es, i + 1));
    }
  }

  lemma {:induction false} SectionsLength(es: seq<Entry>, i: nat)
    requires i <= |es| && Complete(es)
    ensures |SectionsFrom(es, i)| == BodySize(es) - BodySize(es[..i])
    decreases |es| - i
  {
    if i == |es| {
      assert es[..i] == es;
    } else {
      SizesSnoc(es, i);
      SectionLength(es[i]);
      SectionsLength(es, i + 1);
    }
  }

  lemma {:induction false} CentralLength(es: seq<Entry>, i: nat)
    requires i <= |es|
    ensures |CentralFrom(es, i)| == CentralSize(es) - CentralSize(es[..i])
    decreases |es| - i
  {
    if i == |es| {
      assert es[..i] == es;
    } else {
      SizesSnoc(es, i);
      CentralEntryLength(es[i], Wrap(BodySize(es[..i])));
      CentralLength(es, i + 1);
    }
  }

  /** Where the parts of a directory entry stand. */
  lemma CentralPlaces(e: Entry, offset: nat, a: seq<byte>, p: nat)
    requires At(a, p, CentralEntry(e, offset))
    ensures At(a, p, Encode(CentralHeader(Crc(Data(e)), Short(|e.name|)))) && At(a, p + 46, e.name)
    ensures At(a, p + 46 + |e.name|, Encode(CentralExtra(e.size, offset)))
  {
    hide Encode, Crc, Data;
    CentralHeaderLayout(Crc(Data(e)), Short(|e.name|));
    var header := Encode(CentralHeader(Crc(Data(e)), Short(|e.name|)));
    SplitThree(a, p, header, e.name, Encode(CentralExtra(e.size, offset)));
  }

  lemma ReadsCentralEntry(e: Entry, offset: nat, a: seq<byte>, p: nat)
    requires At(a, p, CentralEntry(e, offset))
    requires |e.name| < U16 && e.size < U64 && offset < U64
    ensures var crc := Crc(Data(e));
            && Record(46, CENTRAL_WIDTHS, a, p)
               == Some([CENTRAL_SIG, 45, 45, 0x0808, 0, 0, 0x0021, crc, ONES32, ONES32, |e.name|, 28, 0, 0, 0, 0,
                        ONES32])
            && Slice(a, p + 46, |e.name|) == Some(e.name)
            && Record(28, CENTRAL_EXTRA_WIDTHS, a, p + 46 + |e.name|) == Some([1, 24, e.size, e.size, offset])
  {
    hide Encode, Crc, Data, Record;
    SmallMod(|e.name|, U16);
    CentralPlaces(e, offset, a, p);
    CrcIsPolynomialRemainder(Data(e));
    ReadsCentralHeader(Crc(Data(e)), |e.name|, a, p);
    ReadsCentralExtra(e.size, offset, a, p + 46 + |e.name|);
  }

  /** One step of the directory walk, once its records have been read. */
  lemma AcceptsCentral(a: seq<byte>, p: nat, n: nat, end: nat, name: seq<byte>, crc: nat, size: nat, offset: nat,
                       m: Member)
    requires n > 0
    requires Record(46, CENTRAL_WIDTHS, a, p)
          == Some([CENTRAL_SIG, 45, 45, 0x0808, 0, 0, 0x0021, crc, ONES32, ONES32, |name|, 28, 0, 0, 0, 0, ONES32])
    requires Slice(a, p + 46, |name|) == Some(name)
    requires Record(28, CENTRAL_EXTRA_WIDTHS, a, p + 46 + |name|) == Some([1, 24, size, size, offset])
    requires ReadLocal(a, offset, name, crc, size) == Some(m)
    requires ReadCentral(a, p + 74 + |name|, n - 1, end).Some?
    ensures ReadCentral(a, p, n, end) == Some([m] + ReadCentral(a, p + 74 + |name|, n - 1, end).value)
  {
    hide ReadLocal, Record;
  }

  lemma NothingCentral(a: seq<byte>, p: nat)
    ensures ReadCentral(a, p, 0, p) == Some([])
  {
  }

  /** From directory entry `i` on, the reader finds the remaining members at their recorded offsets. */
  lemma {:induction false} ReadsCentral(es: seq<Entry>, i: nat, a: seq<byte>, p: nat)
    requires i <= |es| && Complete(es) && BodySize(es) < U64
    requires forall j :: i <= j < |es| ==> |es[j].name| < U16
    requires At(a, 0, SectionsFrom(es, 0)) && At(a, p, CentralFrom(es, i))
    ensures ReadCentral(a, p, |es| - i, p + |CentralFrom(es, i)|) == Some(Members(es)[i..])
    decreases |es| - i
  {
    hide ReadLocal, Record, CentralEntry, Section, Crc, Data, At, Slice, Members, SectionsFrom, BodySize, ReadCentral;
    if i == |es| {
      NothingCentral(a, p);
      MembersEnd(es);
    } else {
      var e, offset := es[i], BodySize(es[..i]);
      SizesMonotone(es, i);
      SmallMod(offset, U64);
      AtSplit(a, p, CentralEntry(e, offset), CentralFrom(es, i + 1));
      CentralEntryLength(e, offset);
      ReadsCentralEntry(e, offset, a, p);
      SectionAt(es, i, a);
      ReadsLocal(e, a, offset);
      MembersFrom(es, i);
      ReadsCentral(es, i + 1, a, p + 74 + |e.name|);
      var q, m := p + |CentralFrom(es, i)|, Member(e.name, Data(e));
      AcceptsCentral(a, p, |es| - i, q, e.name, Crc(Data(e)), e.size, offset, m);
    }
  }

  lemma MembersFrom(es: seq<Entry>, i: nat)
    requires i < |es|
    ensures Members(es)[i..] == [Member(es[i].name, Data(es[i]))] + Members(es)[i + 1..]
  {
  }

  lemma MembersEnd(es: seq<Entry>)
    ensures Members(es)[|es|..] == []
  {
  }

  /** The three parts of an archive, each at its place. */
  lemma ArchivePlaces(es: seq<Entry>)
    requires Complete(es)
    ensures var a, p, z := Archive(es), BodySize(es), BodySize(es) + CentralSize(es);
            && |a| == TotalSize(es)
            && At(a, 0, SectionsFrom(es, 0)) && At(a, p, CentralFrom(es, 0)) && At(a, z, TrailerFor(es))
            && |CentralFrom(es, 0)| == CentralSize(es)
  {
    hide TrailerFor, SectionsFrom, CentralFrom;
    var a := Archive(es);
    SectionsLength(es, 0);
    CentralLength(es, 0);
    TrailerForLength(es);
    assert es[..0] == [];
    AtWhole(a);
    SplitThree(a, 0, SectionsFrom(es, 0), CentralFrom(es, 0), TrailerFor(es));
  }

  lemma TrailerForLength(es: seq<Entry>)
    ensures |TrailerFor(es)| == 56 + 20 + 22
  {
    TrailerLength(|es|, Wrap(CentralSize(es)), Wrap(BodySize(es)), Wrap(BodySize(es) + CentralSize(es)));
  }

  lemma AtWhole(a: seq<byte>)
    ensures At(a, 0, a)
  {
  }

  lemma TrailerLength(n: nat, cd: nat, body: nat, z: nat)
    ensures |Trailer(n, cd, body, z)| == 56 + 20 + 22
  {
    Z64RecordLayout(n, cd, body);
    Z64LocatorLayout(z);
    EocdLayout(n, cd);
  }

  /** Where the three trailing records stand. */
  lemma TrailerPlaces(n: nat, cd: nat, body: nat, z: nat, a: seq<byte>, p: nat)
    requires At(a, p, Trailer(n, cd, body, z))
    ensures At(a, p, Encode(Z64Record(n, cd, body))) && At(a, p + 56, Encode(Z64Locator(z)))
    ensures At(a, p + 76, Encode(Eocd(n, cd)))
  {
    Z64RecordLayout(n, cd, body);
    Z64LocatorLayout(z);
    SplitThree(a, p, Encode(Z64Record(n, cd, body)), Encode(Z64Locator(z)), Encode(Eocd(n, cd)));
  }

  /** The path from the end of the file to the directory, once the trailing records have been read. */
  lemma AcceptsTrailer(a: seq<byte>, z: nat, n: nat, cd: nat, body: nat)
    requires |a| == z + 98 && z == body + cd
    requires Record(56, Z64_WIDTHS, a, z) == Some([Z64_SIG, 44, 45, 45, 0, 0, n, n, cd, body])
    requires Record(20, LOCATOR_WIDTHS, a, z + 56) == Some([LOCATOR_SIG, 0, z, 1])
    requires Record(22, EOCD_WIDTHS, a, z + 76)
          == Some([EOCD_SIG, 0, 0, if n < ONES16 then n else ONES16, if n < ONES16 then n else ONES16,
                   if cd < ONES32 then cd else ONES32, ONES32, 0])
    ensures ReadArchive(a) == ReadCentral(a, body, n, z)
  {
    hide Record, ReadCentral;
    assert FindEocd(a, 0) == Some(z + 76);
  }

  lemma ReadsArchive(es: seq<Entry>)
    requires Complete(es) && BodySize(es) + CentralSize(es) < U64
    requires forall i :: 0 <= i < |es| ==> |es[i].name| < U16
    ensures ReadArchive(Archive(es)) == Some(Members(es))
  {
    hide Record, ReadArchive, ReadCentral, Encode, SectionsFrom, CentralFrom, Trailer, Archive, At;
    hide BodySize, CentralSize, Members;
    var a, n, cd, body := Archive(es), |es|, CentralSize(es), BodySize(es);
    var z := body + cd;
    ArchivePlaces(es);
    TrailerForFits(es);
    SizesMonotone(es, 0);
    TrailerPlaces(n, cd, body, z, a, z);
    ReadsZ64Record(n, cd, body, a, z);
    ReadsZ64Locator(z, a, z + 56);
    ReadsEocd(n, cd, a, z + 76);
    AcceptsTrailer(a, z, n, cd, body);
    ReadsCentral(es, 0, a, body);
    MembersWhole(es);
  }

  lemma TrailerForFits(es: seq<Entry>)
    requires BodySize(es) + CentralSize(es) < U64
    ensures TrailerFor(es) == Trailer(|es|, CentralSize(es), BodySize(es), BodySize(es) + CentralSize(es))
  {
    hide Trailer, BodySize, CentralSize;
    SmallMod(CentralSize(es), U64);
    SmallMod(BodySize(es), U64);
    SmallMod(BodySize(es) + CentralSize(es), U64);
  }

  lemma MembersWhole(es: seq<Entry>)
    ensures Members(es)[0..] == Members(es)
  {
  }

  /** Names come from a 16-bit length, so no reader can hand back a longer one. */
  lemma {:induction false} NamesFit(a: seq<byte>, p: nat, n: nat, end: nat)
    ensures var r := ReadCentral(a, p, n, end);
            r.Some? ==> forall i :: 0 <= i < |r.value| ==> |r.value[i].name| < U16
    decreases n
  {
    hide ReadLocal, Record;
    var r := ReadCentral(a, p, n, end);
    if n > 0 && r.Some? {
      var h := Record(46, CENTRAL_WIDTHS, a, p).value;
      var name := Slice(a, p + 46, h[10]).value;
      var x := Record(28, CENTRAL_EXTRA_WIDTHS, a, p + 46 + h[10]).value;
      NameLengthBound(a, p);
      LocalName(a, x[4], name, h[7], x[2]);
      NamesFit(a, p + 46 + h[10] + 28, n - 1, end);
    }
  }

  lemma LocalName(a: seq<byte>, p: nat, name: seq<byte>, crc: nat, size: nat)
    ensures var r := ReadLocal(a, p, name, crc, size);
            r.Some? ==> r.value.name == name
  {
    hide Record, Crc;
  }

  lemma NameLengthBound(a: seq<byte>, p: nat)
    requires Record(46, CENTRAL_WIDTHS, a, p).Some?
    ensures Record(46, CENTRAL_WIDTHS, a, p).value[10] < U16
  {
    DecodeBound(CENTRAL_WIDTHS, a[p..], 10);
    SpanValues();
  }

  lemma {:induction false} DecodeBound(widths: seq<nat>, s: seq<byte>, i: nat)
    requires i < |widths|
    ensures Decode(widths, s)[i] < Span(widths[i])
    decreases i
  {
    var w := if widths[0] <= |s| then widths[0] else |s|;
    if i == 0 {
      FromLeBound(s[..w]);
      SpanMonotone(w, widths[0]);
    } else {
      DecodeBound(widths[1..], s[w..], i - 1);
    }
  }

  lemma {:induction false} SpanMonotone(v: nat, w: nat)
    requires v <= w
    ensures Span(v) <= Span(w)
    decreases w
  {
    if v < w { SpanMonotone(v, w - 1); }
  }

  lemma {:induction false} FromLeBound(s: seq<byte>)
    ensures FromLe(s) < Span(|s|)
  {
    if s != [] { FromLeBound(s[1..]); }
  }

  /**
    The round trip. With every file as long as declared and every offset inside 64 bits, the reader recovers exactly
    the names and contents, in order, if and only if every name fits the 16-bit length the headers give it.
   */
  lemma ZipRoundTrip(es: seq<Entry>)
    requires Complete(es) && BodySize(es) + CentralSize(es) < U64
    ensures ReadArchive(Archive(es)) == Some(Members(es)) <==> forall i :: 0 <= i < |es| ==> |es[i].name| < U16
  {
    hide Archive, ReadArchive, ReadCentral;
    var a := Archive(es);
    if forall i :: 0 <= i < |es| ==> |es[i].name| < U16 {
      ReadsArchive(es);
    } else {
      var i :| 0 <= i < |es| && |es[i].name| >= U16;
      assert Members(es)[i].name == es[i].name;
      if ReadArchive(a) == Some(Members(es)) {
        var z := ReadDirectoryPlace(a);
        NamesFit(a, z.0, z.1, z.2);
        assert false;
      }
    }
  }

  lemma ReadDirectoryPlace(a: seq<byte>) returns (z: (nat, nat, nat))
    requires ReadArchive(a).Some?
    ensures ReadArchive(a) == ReadCentral(a, z.0, z.1, z.2)
  {
    hide ReadCentral, Record;
    var p := FindEocd(a, 0).value;
    var l := Record(20, LOCATOR_WIDTHS, a, p - 20).value;
    var r := Record(56, Z64_WIDTHS, a, l[2]).value;
    z := (r[9], r[7], l[2]);
  }

  /** The Content-Length computed before the first byte is sent is the length of the archive, modulo 2^64. */
  lemma ContentLengthExact(es: seq<Entry>)
    requires Complete(es)
    ensures |Archive(es)| == TotalSize(es)
    ensures TotalSize(es) % U64 == |Archive(es)| <==> |Archive(es)| < U64
  {
    hide Archive, BodySize, CentralSize, At, SectionsFrom, CentralFrom, TrailerFor;
    ArchivePlaces(es);
    if TotalSize(es) < U64 { SmallMod(TotalSize(es), U64); }
  }
}

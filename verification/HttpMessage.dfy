/**
  The responses of response_writer.c as octets, and a client that reads them by RFC 9112: the status line (section 4),
  field lines (section 5) and the length of the body (section 6.3).
 */
module HttpMessage {
  import opened Bytes
  import opened Options
  import opened Text

  datatype Header = Header(name: seq<byte>, value: seq<byte>)

  /** A message as it is put together: the body must have the length the fields announce. */
  datatype Message = Message(status: nat, fields: seq<Header>, body: seq<byte>)

  /** What the application asks to be sent. */
  datatype Response = Response(status: nat, contentType: Option<seq<byte>>, headers: seq<Header>, body: seq<byte>)

  // ----- writing -----

  function Reason(status: nat): string {
    if status == 200 then "OK"
    else if status == 201 then "Created"
    else if status == 400 then "Bad Request"
    else if status == 401 then "Unauthorized"
    else if status == 403 then "Forbidden"
    else if status == 404 then "Not Found"
    else if status == 409 then "Conflict"
    else if status == 413 then "Content Too Large"
    else if status == 500 then "Internal Server Error"
    else if status == 507 then "Insufficient Storage"
    else "Status"
  }

  /** The phrases are those registered: sections 15.3, 15.5 and 15.6 of RFC 9110, section 11.5 of RFC 4918. */
  lemma RegisteredReasons()
    ensures Reason(200) == "OK" && Reason(201) == "Created"
    ensures Reason(400) == "Bad Request" && Reason(401) == "Unauthorized" && Reason(403) == "Forbidden"
    ensures Reason(404) == "Not Found" && Reason(409) == "Conflict" && Reason(413) == "Content Too Large"
    ensures Reason(500) == "Internal Server Error" && Reason(507) == "Insufficient Storage"
  {
  }

  const CRLF: seq<byte> := [CR, LF]

  function StatusLine(status: nat): seq<byte> {
    Ascii("HTTP/1.1 ") + Decimal(status) + [SP] + Ascii(Reason(status)) + CRLF
  }

  function FieldLine(h: Header): seq<byte> {
    h.name + [COLON, SP] + h.value + CRLF
  }

  function FieldLines(hs: seq<Header>): seq<byte> {
    if hs == [] then [] else FieldLine(hs[0]) + FieldLines(hs[1..])
  }

  function ContentLength(n: nat): Header {
    Header(Ascii("Content-Length"), Decimal(n))
  }

  function Connection(keepAlive: bool): Header {
    Header(Ascii("Connection"), if keepAlive then Ascii("keep-alive") else Ascii("close"))
  }

  function ContentType(t: seq<byte>): Header {
    Header(Ascii("Content-Type"), t)
  }

  /** The type is only announced for a body that is there. */
  function TypeField(r: Response): seq<Header> {
    if |r.body| > 0 && r.contentType.Some? then [ContentType(r.contentType.value)] else []
  }

  function Fields(r: Response, keepAlive: bool): seq<Header> {
    [ContentLength(|r.body|), Connection(keepAlive)] + TypeField(r) + r.headers
  }

  function Compose(m: Message): seq<byte> {
    StatusLine(m.status) + FieldLines(m.fields) + CRLF + m.body
  }

  /** What response_writer_send makes of a response. */
  function Whole(r: Response, keepAlive: bool): Message {
    Message(r.status, Fields(r, keepAlive), r.body)
  }

  function Serialize(r: Response, keepAlive: bool): seq<byte> {
    Compose(Whole(r, keepAlive))
  }

  // ----- reading -----

  /** What a client makes of the bytes it has so far. */
  datatype Parsed =
    | NeedMore
    | Malformed
    | Got(message: Message, rest: seq<byte>)

  datatype FieldBlock = BlockNeedsMore | BadBlock | Block(fields: seq<Header>, rest: seq<byte>)

  /** Where the first CR LF is. */
  function FindLine(s: seq<byte>): (r: Option<nat>)
    ensures r.Some? ==> r.value + 2 <= |s| && s[r.value..r.value + 2] == CRLF
  {
    if |s| < 2 then None
    else if s[0] == CR && s[1] == LF then Some(0)
    else
      var n :- FindLine(s[1..]);
      Some(n + 1)
  }

  predicate IsAlpha(b: byte) {
    65 <= b <= 90 || 97 <= b <= 122
  }

  /** tchar of RFC 9110 section 5.6.2. */
  predicate IsTchar(b: byte) {
    IsAlpha(b) || IsDigit(b) || b == 33 || 35 <= b <= 39 || b == 42 || b == 43 || b == 45 || b == 46 || 94 <= b <= 96
    || b == 124 || b == 126
  }

  predicate IsToken(s: seq<byte>) {
    s != [] && forall i :: 0 <= i < |s| ==> IsTchar(s[i])
  }

  predicate IsBlank(b: byte) {
    b == SP || b == TAB
  }

  predicate OneLine(s: seq<byte>) {
    forall i :: 0 <= i < |s| ==> s[i] != CR && s[i] != LF && s[i] != 0
  }

  /** A field value as a reader hands it on: one line, no blanks around it. */
  predicate IsFieldValue(s: seq<byte>) {
    OneLine(s) && (s != [] ==> !IsBlank(s[0]) && !IsBlank(s[|s| - 1]))
  }

  function TrimLeft(s: seq<byte>): seq<byte> {
    if s != [] && IsBlank(s[0]) then TrimLeft(s[1..]) else s
  }

  function TrimRight(s: seq<byte>): seq<byte> {
    if s != [] && IsBlank(s[|s| - 1]) then TrimRight(s[..|s| - 1]) else s
  }

  /** Where the first `b` is. */
  function Find(s: seq<byte>, b: byte): (r: Option<nat>)
    ensures r.Some? ==> r.value < |s|
  {
    if s == [] then None
    else if s[0] == b then Some(0)
    else
      var n :- Find(s[1..], b);
      Some(n + 1)
  }

  function Trim(s: seq<byte>): seq<byte> {
    TrimRight(TrimLeft(s))
  }

  function ParseField(line: seq<byte>): (h: Option<Header>) {
    var c :- Find(line, COLON);
    var name, value := line[..c], Trim(line[c + 1..]);
    if IsToken(name) && IsFieldValue(value) then Some(Header(name, value)) else None
  }

  function ParseFields(s: seq<byte>): FieldBlock
    decreases |s|
  {
    match FindLine(s)
    case None => BlockNeedsMore
    case Some(n) =>
      if n == 0 then Block([], s[2..]) else
      match ParseField(s[..n])
      case None => BadBlock
      case Some(h) =>
        match ParseFields(s[n + 2..])
        case Block(fields, rest) => Block([h] + fields, rest)
        case other => other
  }

  function Lower(b: byte): byte {
    if 65 <= b <= 90 then b + 32 else b
  }

  /** Names and options are compared without regard to case; `word` is in small letters. */
  predicate Spells(s: seq<byte>, word: string) {
    |s| == |word| && forall i :: 0 <= i < |word| ==> Lower(s[i]) == word[i] as int
  }

  predicate Named(h: Header, name: string) {
    Spells(h.name, name)
  }

  predicate IsLength(h: Header) {
    Named(h, "content-length")
  }

  /** The values of the Content-Length fields. */
  function Lengths(fields: seq<Header>): seq<seq<byte>> {
    if fields == [] then []
    else if IsLength(fields[0]) then [fields[0].value] + Lengths(fields[1..])
    else Lengths(fields[1..])
  }

  predicate NoTransferCoding(fields: seq<Header>) {
    forall i :: 0 <= i < |fields| ==> !Named(fields[i], "transfer-encoding")
  }

  /** Statuses whose responses end with their head. */
  predicate Bodyless(status: nat) {
    100 <= status < 200 || status == 204 || status == 304
  }

  /** Section 6.3, for a reader that takes counted bodies only and wants exactly one count. */
  function BodyLength(status: nat, fields: seq<Header>): Option<nat> {
    if !NoTransferCoding(fields) || |Lengths(fields)| != 1 then None else
    var n :- ParseDecimal(Lengths(fields)[0]);
    Some(if Bodyless(status) then 0 else n)
  }

  /** The reason phrase may be anything; a client ignores it. */
  function ParseStatusLine(line: seq<byte>): Option<nat> {
    if |line| < 13 || line[..9] != Ascii("HTTP/1.1 ") || line[12] != SP || !OneLine(line[13..]) then None
    else ParseDecimal(line[9..12])
  }

  function Parse(s: seq<byte>): Parsed {
    match FindLine(s)
    case None => NeedMore
    case Some(n) =>
      match ParseStatusLine(s[..n])
      case None => Malformed
      case Some(status) =>
        match ParseFields(s[n + 2..])
        case BlockNeedsMore => NeedMore
        case BadBlock => Malformed
        case Block(fields, rest) =>
          match BodyLength(status, fields)
          case None => Malformed
          case Some(len) =>
            if |rest| < len then NeedMore else Got(Message(status, fields, rest[..len]), rest[len..])
  }

  // ----- what a client is told about the connection: section 9.6 of RFC 9112 -----

  /** The elements of a comma-separated list (section 5.6.1 of RFC 9110). */
  function Elements(s: seq<byte>): seq<seq<byte>>
    decreases |s|
  {
    match Find(s, COMMA)
    case None => [Trim(s)]
    case Some(n) => [Trim(s[..n])] + Elements(s[n + 1..])
  }

  /** A Connection field with the option to close. */
  predicate SaysClose(h: Header) {
    Named(h, "connection") && exists i :: 0 <= i < |Elements(h.value)| && Spells(Elements(h.value)[i], "close")
  }

  predicate AnyClose(fields: seq<Header>) {
    exists i :: 0 <= i < |fields| && SaysClose(fields[i])
  }

  /** The client will not send another request on the connection: any of the fields may say so. */
  predicate AnnouncesClose(m: Message) {
    AnyClose(m.fields)
  }

  // ----- what a response must be to be read back -----

  predicate CleanHeader(h: Header) {
    IsToken(h.name) && IsFieldValue(h.value)
  }

  predicate CleanHeaders(hs: seq<Header>) {
    forall i :: 0 <= i < |hs| ==> CleanHeader(hs[i])
  }

  /** No field of the application's own decides where the body ends. */
  predicate FramesNothing(hs: seq<Header>) {
    NoTransferCoding(hs) && Lengths(hs) == []
  }

  /** Unambiguous: clean fields, framing left to the server, and no body where none may be sent. */
  predicate Readable(r: Response) {
    && CleanHeaders(TypeField(r)) && CleanHeaders(r.headers) && FramesNothing(r.headers)
    && (Bodyless(r.status) ==> r.body == [])
  }

  // ----- lines -----

  lemma {:induction false} FindLineAfter(text: seq<byte>, rest: seq<byte>)
    requires forall i :: 0 <= i < |text| ==> text[i] != CR
    ensures FindLine(text + CRLF + rest) == Some(|text|)
  {
    var s := text + CRLF + rest;
    if text != [] {
      FindLineAfter(text[1..], rest);
      assert s[1..] == text[1..] + CRLF + rest;
    }
  }

  lemma {:induction false} FindLineCut(text: seq<byte>, k: nat)
    requires (forall i :: 0 <= i < |text| ==> text[i] != CR) && k < |text| + 2
    ensures FindLine((text + CRLF)[..k]) == None
  {
    var s := (text + CRLF)[..k];
    if text != [] && k >= 2 {
      FindLineCut(text[1..], k - 1);
      assert s[1..] == (text[1..] + CRLF)[..k - 1];
    }
  }

  lemma {:induction false} FindColonAfter(name: seq<byte>, rest: seq<byte>)
    requires forall i :: 0 <= i < |name| ==> name[i] != COLON
    ensures Find(name + [COLON] + rest, COLON) == Some(|name|)
  {
    var s := name + [COLON] + rest;
    if name != [] {
      FindColonAfter(name[1..], rest);
      assert s[1..] == name[1..] + [COLON] + rest;
    }
  }

  lemma TokenIsPlain(name: seq<byte>)
    requires IsToken(name)
    ensures forall i :: 0 <= i < |name| ==> name[i] != CR && name[i] != COLON
  {
  }

  lemma TrimClean(value: seq<byte>)
    requires IsFieldValue(value)
    ensures Trim([SP] + value) == value
  {
    assert ([SP] + value)[1..] == value;
    assert TrimLeft([SP] + value) == TrimLeft(value);
  }

  /** A field line without its line end. */
  function FieldText(h: Header): seq<byte> {
    h.name + [COLON, SP] + h.value
  }

  lemma FieldTextRead(h: Header)
    requires CleanHeader(h)
    ensures var text := FieldText(h);
            text != [] && (forall i :: 0 <= i < |text| ==> text[i] != CR) && ParseField(text) == Some(h)
  {
    hide Trim, Find;
    var text := FieldText(h);
    TokenIsPlain(h.name);
    assert text == h.name + [COLON] + ([SP] + h.value);
    FindColonAfter(h.name, [SP] + h.value);
    assert text[..|h.name|] == h.name;
    assert text[|h.name| + 1..] == [SP] + h.value;
    TrimClean(h.value);
  }

  /** One line at a time. */
  lemma FieldsStep(text: seq<byte>, h: Header, tail: seq<byte>)
    requires text != [] && (forall i :: 0 <= i < |text| ==> text[i] != CR) && ParseField(text) == Some(h)
    ensures ParseFields(text + CRLF + tail)
         == match ParseFields(tail) case Block(fields, rest) => Block([h] + fields, rest) case other => other
  {
    hide ParseField, FindLine;
    var s := text + CRLF + tail;
    FindLineAfter(text, tail);
    assert s[..|text|] == text && s[|text| + 2..] == tail;
  }

  lemma FieldsEnd(rest: seq<byte>)
    ensures ParseFields(CRLF + rest) == Block([], rest)
  {
    assert (CRLF + rest)[2..] == rest;
  }

  lemma FieldLinesCons(hs: seq<Header>)
    requires hs != []
    ensures FieldLines(hs) == FieldText(hs[0]) + CRLF + FieldLines(hs[1..])
  {
  }

  /** A block of clean field lines is read back, and nothing after it is touched. */
  lemma {:induction false} FieldsRoundTrip(hs: seq<Header>, rest: seq<byte>)
    requires CleanHeaders(hs)
    ensures ParseFields(FieldLines(hs) + CRLF + rest) == Block(hs, rest)
  {
    hide ParseFields, CleanHeader, FieldText;
    if hs == [] {
      FieldsEnd(rest);
      assert FieldLines(hs) + CRLF + rest == CRLF + rest;
    } else {
      FieldTextRead(hs[0]);
      FieldLinesCons(hs);
      assert FieldLines(hs) + CRLF + rest == FieldText(hs[0]) + CRLF + (FieldLines(hs[1..]) + CRLF + rest);
      FieldsStep(FieldText(hs[0]), hs[0], FieldLines(hs[1..]) + CRLF + rest);
      FieldsRoundTrip(hs[1..], rest);
    }
  }

  lemma FieldsNothing(s: seq<byte>)
    requires FindLine(s) == None
    ensures ParseFields(s) == BlockNeedsMore
  {
  }

  /** Cut anywhere, the block of field lines is never mistaken for a complete one. */
  lemma {:induction false} FieldsCut(hs: seq<Header>, k: nat)
    requires CleanHeaders(hs) && k < |FieldLines(hs) + CRLF|
    ensures ParseFields((FieldLines(hs) + CRLF)[..k]) == BlockNeedsMore
    decreases |hs|
  {
    hide ParseFields, CleanHeader, FieldText, FindLine;
    var whole := FieldLines(hs) + CRLF;
    if hs == [] {
      assert whole == [] + CRLF;
      FindLineCut([], k);
      FieldsNothing(whole[..k]);
    } else {
      var text, tail := FieldText(hs[0]), FieldLines(hs[1..]) + CRLF;
      FieldTextRead(hs[0]);
      FieldLinesCons(hs);
      assert whole == text + CRLF + tail;
      if k < |text| + 2 {
        FindLineCut(text, k);
        assert whole[..k] == (text + CRLF)[..k];
        FieldsNothing(whole[..k]);
      } else {
        var k' := k - |text| - 2;
        assert whole[..k] == text + CRLF + tail[..k'];
        FieldsStep(text, hs[0], tail[..k']);
        FieldsCut(hs[1..], k');
      }
    }
  }

  /** Whatever bytes it is given, the reader only hands on clean fields. */
  lemma {:induction false} ParsedFieldsClean(s: seq<byte>)
    ensures var r := ParseFields(s); r.Block? ==> CleanHeaders(r.fields)
    decreases |s|
  {
    hide Find, Trim, IsToken, IsFieldValue;
    var r := ParseFields(s);
    if r.Block? {
      var n := FindLine(s).value;
      if n > 0 { ParsedFieldsClean(s[n + 2..]); }
    }
  }

  // ----- whole messages -----

  /** The status line without its line end. */
  function StatusText(status: nat): seq<byte> {
    Ascii("HTTP/1.1 ") + Decimal(status) + [SP] + Ascii(Reason(status))
  }

  lemma ThreeDigits(status: nat)
    requires 100 <= status < 1000
    ensures |Decimal(status)| == 3
  {
    assert Decimal(status) == Decimal(status / 10) + [48 + status % 10];
    assert Decimal(status / 10) == Decimal(status / 100) + [48 + status / 10 % 10];
  }

  predicate Printable(s: string) {
    forall i :: 0 <= i < |s| ==> 32 <= s[i] as int < 127
  }

  lemma PrintableIsOneLine(s: string)
    requires Printable(s)
    ensures OneLine(Ascii(s))
  {
  }

  lemma ReasonIsPlain(status: nat)
    ensures OneLine(Ascii(Reason(status)))
  {
    hide Ascii, Printable;
    ReasonPrintable(status);
    PrintableIsOneLine(Reason(status));
  }

  lemma ShortReasons()
    ensures Printable("OK") && Printable("Created") && Printable("Status") && Printable("Conflict")
  {
  }

  lemma ClientReasons()
    ensures Printable("Bad Request") && Printable("Forbidden") && Printable("Not Found") && Printable("Unauthorized")
  {
  }

  lemma SizeReason()
    ensures Printable("Content Too Large")
  {
  }

  lemma ServerReason()
    ensures Printable("Internal Server Error")
  {
  }

  lemma StorageReason()
    ensures Printable("Insufficient Storage")
  {
  }

  lemma ReasonPrintable(status: nat)
    ensures Printable(Reason(status))
  {
    hide Printable;
    ShortReasons();
    ClientReasons();
    SizeReason();
    ServerReason();
    StorageReason();
  }

  lemma StatusTextRead(status: nat)
    requires 100 <= status < 1000
    ensures ParseStatusLine(StatusText(status)) == Some(status)
    ensures forall i :: 0 <= i < |StatusText(status)| ==> StatusText(status)[i] != CR
  {
    hide Decimal, ParseDecimal, Reason;
    var d, reason := Decimal(status), Ascii(Reason(status));
    ThreeDigits(status);
    DecimalRoundTrip(status);
    ReasonIsPlain(status);
    StatusParts(d, reason);
  }

  lemma StatusParts(d: seq<byte>, reason: seq<byte>)
    requires |d| == 3 && (forall i :: 0 <= i < 3 ==> IsDigit(d[i])) && OneLine(reason)
    ensures var line := Ascii("HTTP/1.1 ") + d + [SP] + reason;
            && |line| >= 13 && line[..9] == Ascii("HTTP/1.1 ") && line[9..12] == d
            && line[12] == SP && line[13..] == reason
            && forall i :: 0 <= i < |line| ==> line[i] != CR
  {
    var version := Ascii("HTTP/1.1 ");
    assert forall i :: 0 <= i < 9 ==> version[i] != CR;
  }

  lemma {:induction false} LengthsAppend(xs: seq<Header>, ys: seq<Header>)
    ensures Lengths(xs + ys) == Lengths(xs) + Lengths(ys)
  {
    hide IsLength;
    if xs == [] {
      assert xs + ys == ys;
    } else {
      LengthsAppend(xs[1..], ys);
      assert (xs + ys)[1..] == xs[1..] + ys;
    }
  }

  predicate Letter(c: char) {
    c == '-' || 'A' <= c <= 'Z' || 'a' <= c <= 'z'
  }

  predicate TokenText(s: string) {
    s != "" && forall i :: 0 <= i < |s| ==> Letter(s[i])
  }

  lemma TokenTextIsToken(s: string)
    requires TokenText(s)
    ensures IsToken(Ascii(s)) && IsFieldValue(Ascii(s))
  {
    forall i | 0 <= i < |s|
      ensures IsTchar(Ascii(s)[i]) && Ascii(s)[i] !in {0, TAB, LF, CR, SP}
    {
      LetterOctet(s[i]);
    }
  }

  lemma LetterOctet(c: char)
    requires Letter(c)
    ensures var b := c as int % 256; IsTchar(b) && b !in {0, TAB, LF, CR, SP}
  {
  }

  predicate SameLetter(c: char, lower: char) {
    if 'A' <= c <= 'Z' then lower as int == c as int + 32 else c == lower && c < '{'
  }

  predicate SameText(s: string, name: string) {
    |s| == |name| && forall i :: 0 <= i < |s| ==> SameLetter(s[i], name[i])
  }

  lemma SameTextSpells(s: string, word: string)
    requires SameText(s, word)
    ensures Spells(Ascii(s), word)
  {
  }

  lemma SameTextIsNamed(s: string, name: string, value: seq<byte>)
    requires SameText(s, name)
    ensures Named(Header(Ascii(s), value), name)
  {
    hide Spells, SameText;
    SameTextSpells(s, name);
  }

  lemma OtherLengthSpells(s: seq<byte>, word: string)
    requires |s| != |word|
    ensures !Spells(s, word)
  {
  }

  lemma OtherLength(h: Header, name: string)
    requires |h.name| != |name|
    ensures !Named(h, name)
  {
  }

  lemma LengthText()
    ensures TokenText("Content-Length")
  {
  }

  lemma LengthName()
    ensures SameText("Content-Length", "content-length")
  {
  }

  lemma ConnectionText()
    ensures TokenText("Connection") && TokenText("close")
  {
  }

  lemma KeepAliveText()
    ensures TokenText("keep-alive")
  {
  }

  lemma TypeText()
    ensures TokenText("Content-Type")
  {
  }

  lemma DecimalIsValue(n: nat)
    ensures IsFieldValue(Decimal(n))
  {
    hide Decimal;
    DecimalRoundTrip(n);
  }

  /** The server's own fields are clean, and the only count among them is the size of the body. */
  lemma OwnFields(n: nat, keepAlive: bool)
    ensures CleanHeader(ContentLength(n)) && CleanHeader(Connection(keepAlive))
    ensures Named(ContentLength(n), "content-length") && !Named(Connection(keepAlive), "content-length")
    ensures !Named(ContentLength(n), "transfer-encoding") && !Named(Connection(keepAlive), "transfer-encoding")
  {
    hide Ascii, Named, IsToken, Decimal;
    hide TokenText, SameText;
    LengthText();
    LengthName();
    ConnectionText();
    KeepAliveText();
    TokenTextIsToken("Content-Length");
    TokenTextIsToken("Connection");
    TokenTextIsToken("keep-alive");
    TokenTextIsToken("close");
    DecimalIsValue(n);
    SameTextIsNamed("Content-Length", "content-length", Decimal(n));
    OtherLength(Connection(keepAlive), "content-length");
    OtherLength(Connection(keepAlive), "transfer-encoding");
    OtherLength(ContentLength(n), "transfer-encoding");
  }

  lemma TypeFieldNames(t: seq<byte>)
    ensures IsToken(ContentType(t).name)
    ensures !Named(ContentType(t), "content-length") && !Named(ContentType(t), "transfer-encoding")
  {
    hide Ascii, Named, IsToken;
    hide TokenText;
    TypeText();
    TokenTextIsToken("Content-Type");
    OtherLength(ContentType(t), "content-length");
    OtherLength(ContentType(t), "transfer-encoding");
  }

  lemma FieldsLengths(r: Response, keepAlive: bool)
    ensures Lengths(Fields(r, keepAlive)) == [Decimal(|r.body|)] + Lengths(r.headers)
    ensures NoTransferCoding(Fields(r, keepAlive)) <==> NoTransferCoding(r.headers)
  {
    hide Named, ContentLength, Connection, ContentType, Decimal;
    var own := [ContentLength(|r.body|), Connection(keepAlive)];
    OwnFields(|r.body|, keepAlive);
    OwnLengths(|r.body|, keepAlive);
    LengthsAppend(own + TypeField(r), r.headers);
    LengthsAppend(own, TypeField(r));
    if TypeField(r) != [] { TypeFieldNames(r.contentType.value); }
    assert Lengths(TypeField(r)) == [];
    CodingAppend(own + TypeField(r), r.headers);
  }

  lemma CodingAppend(xs: seq<Header>, ys: seq<Header>)
    requires NoTransferCoding(xs)
    ensures NoTransferCoding(xs + ys) <==> NoTransferCoding(ys)
  {
    hide Named;
    if NoTransferCoding(xs + ys) {
      forall i | 0 <= i < |ys| ensures !Named(ys[i], "transfer-encoding") {
        assert ys[i] == (xs + ys)[|xs| + i];
      }
    }
  }

  lemma OwnLengths(n: nat, keepAlive: bool)
    ensures Lengths([ContentLength(n), Connection(keepAlive)]) == [Decimal(n)]
  {
    hide Named, Decimal, Connection, Ascii;
    OwnFields(n, keepAlive);
    var own := [ContentLength(n), Connection(keepAlive)];
    assert own[1..] == [Connection(keepAlive)];
    assert own[1..][1..] == [];
    assert Lengths(own[1..]) == [];
  }

  lemma FieldsClean(r: Response, keepAlive: bool)
    ensures CleanHeaders(Fields(r, keepAlive)) <==> CleanHeaders(TypeField(r)) && CleanHeaders(r.headers)
  {
    hide CleanHeader, ContentLength, Connection, TypeField;
    OwnFields(|r.body|, keepAlive);
    var hs, t := Fields(r, keepAlive), TypeField(r);
    if CleanHeaders(hs) {
      forall i | 0 <= i < |t| ensures CleanHeader(t[i]) { assert t[i] == hs[2 + i]; }
      forall i | 0 <= i < |r.headers| ensures CleanHeader(r.headers[i]) { assert r.headers[i] == hs[2 + |t| + i]; }
    }
  }

  /** How much body follows the head of a response. */
  lemma FieldsBodyLength(r: Response, keepAlive: bool)
    ensures BodyLength(r.status, Fields(r, keepAlive))
         == if FramesNothing(r.headers) then Some(if Bodyless(r.status) then 0 else |r.body|) else None
  {
    hide Fields, Lengths, NoTransferCoding, Decimal, ParseDecimal;
    FieldsLengths(r, keepAlive);
    DecimalRoundTrip(|r.body|);
  }

  /** Parsing past a status line. */
  lemma ParseAfterStatus(status: nat, s: seq<byte>)
    requires 100 <= status < 1000
    ensures Parse(StatusText(status) + CRLF + s) ==
            match ParseFields(s)
            case BlockNeedsMore => NeedMore
            case BadBlock => Malformed
            case Block(fields, rest) =>
              match BodyLength(status, fields)
              case None => Malformed
              case Some(len) =>
                if |rest| < len then NeedMore
                else Got(Message(status, fields, rest[..len]), rest[len..])
  {
    hide ParseFields, BodyLength, ParseStatusLine, StatusText, FindLine, Reason;
    var text, whole := StatusText(status), StatusText(status) + CRLF + s;
    StatusTextRead(status);
    FindLineAfter(text, s);
    assert whole[..|text|] == text && whole[|text| + 2..] == s;
  }

  lemma FieldTextLength(h: Header)
    ensures |FieldText(h)| == |h.name| + 2 + |h.value|
  {
  }

  lemma NoFieldLines()
    ensures FieldLines([]) == []
  {
  }

  lemma ComposeLength(m: Message)
    requires 100 <= m.status <= 599
    ensures |Compose(m)| == 12 + |Reason(m.status)| + 3 + |FieldLines(m.fields)| + 2 + |m.body|
  {
    hide Reason, Decimal, FieldLines;
    ThreeDigits(m.status);
  }

  lemma ComposeParts(m: Message, rest: seq<byte>)
    ensures Compose(m) + rest == StatusText(m.status) + CRLF + (FieldLines(m.fields) + CRLF + (m.body + rest))
  {
    hide FieldLines, Decimal, Reason, Ascii;
  }

  /** Unambiguous: clean fields that announce exactly the body there is. */
  predicate Framed(m: Message) {
    100 <= m.status <= 599 && CleanHeaders(m.fields) && BodyLength(m.status, m.fields) == Some(|m.body|)
  }

  /** A framed message is read back exactly, and nothing that follows it on the connection is touched; no other is. */
  lemma MessageRoundTrip(m: Message, rest: seq<byte>)
    requires 100 <= m.status <= 599
    ensures Parse(Compose(m) + rest) == Got(m, rest) <==> Framed(m)
  {
    hide Parse, ParseFields, BodyLength, Compose, CleanHeaders, FieldLines, StatusText;
    var tail := m.body + rest;
    ComposeParts(m, rest);
    ParseAfterStatus(m.status, FieldLines(m.fields) + CRLF + tail);
    if CleanHeaders(m.fields) {
      FieldsRoundTrip(m.fields, tail);
      assert tail[..|m.body|] == m.body && tail[|m.body|..] == rest;
    } else {
      ParsedFieldsClean(FieldLines(m.fields) + CRLF + tail);
    }
  }

  /** A framed message cut short anywhere is seen to be incomplete: it is never read as a shorter one. */
  lemma CutMessageIsIncomplete(m: Message, k: nat)
    requires Framed(m) && k < |Compose(m)|
    ensures Parse(Compose(m)[..k]) == NeedMore
  {
    hide Parse, ParseFields, BodyLength, Compose, CleanHeaders, FieldLines, StatusText, FindLine, ParseStatusLine;
    var whole, text := Compose(m), StatusText(m.status);
    var head := FieldLines(m.fields) + CRLF;
    ComposeParts(m, []);
    assert whole + [] == whole && m.body + [] == m.body;
    assert whole == text + CRLF + (head + m.body);
    StatusTextRead(m.status);
    if k < |text| + 2 {
      FindLineCut(text, k);
      assert whole[..k] == (text + CRLF)[..k];
      NothingParsed(whole[..k]);
    } else {
      var k' := k - |text| - 2;
      assert whole[..k] == text + CRLF + (head + m.body)[..k'];
      ParseAfterStatus(m.status, (head + m.body)[..k']);
      if k' < |head| {
        assert (head + m.body)[..k'] == head[..k'];
        FieldsCut(m.fields, k');
      } else {
        assert (head + m.body)[..k'] == head + m.body[..k' - |head|];
        FieldsRoundTrip(m.fields, m.body[..k' - |head|]);
      }
    }
  }

  lemma NothingParsed(s: seq<byte>)
    requires FindLine(s) == None
    ensures Parse(s) == NeedMore
  {
  }

  /**
    Serialization round trip. What response_writer_send makes of a response is read back with the response's own status,
    fields and body if and only if its fields are clean, none of them frames the body, and it has no body where the
    status forbids one.
   */
  lemma ResponseRoundTrip(r: Response, keepAlive: bool, rest: seq<byte>)
    requires 100 <= r.status <= 599
    ensures Parse(Serialize(r, keepAlive) + rest) == Got(Whole(r, keepAlive), rest) <==> Readable(r)
  {
    hide Parse, Compose, Fields, FramesNothing, TypeField, CleanHeaders, BodyLength;
    MessageRoundTrip(Whole(r, keepAlive), rest);
    FieldsClean(r, keepAlive);
    FieldsBodyLength(r, keepAlive);
  }
}

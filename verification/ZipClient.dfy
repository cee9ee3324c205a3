/**
  The other end of a folder download: a client that reads the response by RFC 9112 and its body as a ZIP archive either
  gets every file as it was, or can tell that the download broke off.
 */
module ZipClient {
  import opened Bytes
  import opened Options
  import opened Text
  import opened Kernel
  import opened HttpMessage
  import opened ZipFormat
  import opened ZipPump
  import ClientObject
  import Crc32

  /** A C string holds no NUL. */
  predicate CString(s: seq<byte>) {
    forall i :: 0 <= i < |s| ==> s[i] != 0
  }

  /** Sanitizing drops what could end the quoted name or the header line, and nothing else. */
  lemma {:induction false} SanitizedIsSafe(name: seq<byte>)
    requires CString(name)
    ensures var s := Sanitized(name);
            && OneLine(s) && (forall i :: 0 <= i < |s| ==> s[i] != QUOTE)
            && (OneLine(name) && (forall i :: 0 <= i < |name| ==> name[i] != QUOTE) ==> s == name)
  {
    if name != [] { SanitizedIsSafe(name[1..]); }
  }

  /** The announced response, whatever its body. */
  function Announced(total: nat, fileName: seq<byte>, body: seq<byte>): Message {
    Message(200, HeadFields(total, fileName), body)
  }

  lemma HeadThenBody(total: nat, fileName: seq<byte>, body: seq<byte>)
    ensures Compose(Announced(total, fileName, body)) == Head(total, fileName) + body
  {
    hide StatusLine, FieldLines, HeadFields;
  }

  lemma DispositionText()
    ensures Printable("attachment; filename=\"")
  {
  }

  lemma CacheText()
    ensures TokenText("Cache-Control") && Printable("private, no-store")
  {
  }

  lemma DispositionName()
    ensures TokenText("Content-Disposition")
  {
  }

  lemma ZipText()
    ensures Printable("application/zip")
  {
  }

  /** A printable text that neither starts nor ends with a blank is a field value. */
  lemma TextIsValue(s: string)
    requires Printable(s) && s != "" && s[0] != ' ' && s[|s| - 1] != ' '
    ensures IsFieldValue(Ascii(s))
  {
    PrintableIsOneLine(s);
  }

  lemma DispositionClean(fileName: seq<byte>)
    requires OneLine(fileName)
    ensures CleanHeader(Disposition(fileName))
  {
    hide TokenText, Printable, IsToken;
    var front := "attachment; filename=\"";
    DispositionName();
    TokenTextIsToken("Content-Disposition");
    DispositionText();
    PrintableIsOneLine(front);
    var value := Ascii(front) + fileName + [QUOTE];
    assert value[0] == 97 && value[|value| - 1] == QUOTE;
  }

  lemma CacheClean()
    ensures CleanHeader(CacheControl())
  {
    hide TokenText, Printable, IsToken, IsFieldValue, Ascii;
    CacheText();
    TokenTextIsToken("Cache-Control");
    TextIsValue("private, no-store");
  }

  lemma TypeClean()
    ensures CleanHeader(ContentType(Ascii("application/zip")))
  {
    hide Printable, IsToken, IsFieldValue, Ascii;
    TypeFieldNames(Ascii("application/zip"));
    ZipText();
    TextIsValue("application/zip");
  }

  lemma HeadFieldsClean(total: nat, fileName: seq<byte>)
    requires OneLine(fileName)
    ensures CleanHeaders(HeadFields(total, fileName))
  {
    hide CleanHeader, ContentType, ContentLength, Disposition, CacheControl, Connection;
    TypeClean();
    OwnFields(total, false);
    DispositionClean(fileName);
    CacheClean();
  }

  lemma HeadFieldNames(total: nat, fileName: seq<byte>)
    ensures var hs := HeadFields(total, fileName);
            && NoTransferCoding(hs)
            && IsLength(hs[1]) && !IsLength(hs[0]) && !IsLength(hs[2]) && !IsLength(hs[3]) && !IsLength(hs[4])
  {
    hide Named, Ascii;
    TypeFieldNames(Ascii("application/zip"));
    OwnFields(total, false);
    OtherLength(Disposition(fileName), "content-length");
    OtherLength(Disposition(fileName), "transfer-encoding");
    OtherLength(CacheControl(), "content-length");
    OtherLength(CacheControl(), "transfer-encoding");
  }

  lemma HeadFieldLengthsOnly(total: nat, fileName: seq<byte>)
    ensures Lengths(HeadFields(total, fileName)) == [Decimal(total)]
  {
    hide IsLength, ContentType, Disposition, CacheControl, Connection, Decimal, NoTransferCoding;
    var hs := HeadFields(total, fileName);
    HeadFieldNames(total, fileName);
    assert hs[1..][1..] == hs[2..] && hs[2..][1..] == hs[3..] && hs[3..][1..] == hs[4..] && hs[4..][1..] == [];
    assert Lengths(hs[4..]) == [];
    assert Lengths(hs[3..]) == [];
    assert Lengths(hs[2..]) == [];
    assert Lengths(hs[1..]) == [Decimal(total)];
  }

  lemma AnnouncedIsFramed(fileName: seq<byte>, body: seq<byte>)
    requires OneLine(fileName)
    ensures Framed(Announced(|body|, fileName, body))
  {
    hide CleanHeaders, HeadFields, Lengths, Decimal, NoTransferCoding, ParseDecimal;
    HeadFieldsClean(|body|, fileName);
    HeadFieldLengthsOnly(|body|, fileName);
    HeadFieldNames(|body|, fileName);
    DecimalRoundTrip(|body|);
  }

  /** Anything shorter than the announced response is seen to be incomplete, whatever the body would have been. */
  lemma BrokenOff(total: nat, fileName: seq<byte>, stream: seq<byte>, sent: nat)
    requires OneLine(fileName) && Head(total, fileName) <= stream
    requires sent <= |stream| && sent < |Head(total, fileName)| + total
    ensures Parse(stream[..sent]) == NeedMore
  {
    hide Parse, Head, Compose, HeadFields, Framed;
    var head := Head(total, fileName);
    var given := stream[|head|..];
    var body := if |given| < total then given + seq(total - |given|, _ => 0) else given[..total];
    AnnouncedIsFramed(fileName, body);
    HeadThenBody(total, fileName, body);
    assert stream == head + given;
    assert (head + body)[..sent] == stream[..sent];
    CutMessageIsIncomplete(Announced(total, fileName, body), sent);
  }

  predicate NamesFitHeaders(es: seq<Entry>) {
    forall i :: 0 <= i < |es| ==> |es[i].name| < U16
  }

  /** What is left of a name without the bytes that may not stand in a quoted header value. */
  function Kept(name: seq<byte>): seq<byte> {
    if name == [] then []
    else
      var last := name[|name| - 1];
      Kept(name[..|name| - 1]) + (if last in {QUOTE, CR, LF} then [] else [last])
  }

  lemma {:induction false} SanitizedSnoc(name: seq<byte>, last: byte)
    ensures Sanitized(name + [last]) == Sanitized(name) + (if last in {QUOTE, CR, LF} then [] else [last])
  {
    if name == [] {
      assert (name + [last])[1..] == [];
    } else {
      SanitizedSnoc(name[1..], last);
      assert (name + [last])[1..] == name[1..] + [last];
    }
  }

  lemma {:induction false} SanitizedIsKept(name: seq<byte>)
    ensures Sanitized(name) == Kept(name)
  {
    hide Sanitized;
    if name == [] {
      NothingSanitized();
    } else {
      SanitizedIsKept(name[..|name| - 1]);
      SanitizedSnoc(name[..|name| - 1], name[|name| - 1]);
      assert name == name[..|name| - 1] + [name[|name| - 1]];
    }
  }

  lemma NothingSanitized()
    ensures Sanitized([]) == []
  {
  }

  /** The name a client is told to save the archive under: as it is where it can be, and cut to 79 bytes. */
  ghost predicate NamedAfter(archive: seq<byte>, n: seq<byte>) {
    && n == Kept(archive)[..Min(79, |Kept(archive)|)]
    && ((forall i :: 0 <= i < |archive| ==> archive[i] !in {QUOTE, CR, LF}) && |archive| <= 79 ==> n == archive)
  }

  lemma FileNameIsNamedAfter(archive: seq<byte>)
    requires CString(archive)
    ensures NamedAfter(archive, FileName(archive))
  {
    SanitizedIsKept(archive);
    SanitizedIsSafe(archive);
  }

  /** The five fields of the head, spelled out. */
  lemma HeadSpelledOut(total: nat, n: seq<byte>)
    ensures HeadFields(total, n) ==
            [Header(Ascii("Content-Type"), Ascii("application/zip")),
             Header(Ascii("Content-Length"), Decimal(total)),
             Header(Ascii("Content-Disposition"), Ascii("attachment; filename=\"") + n + Ascii("\"")),
             Header(Ascii("Cache-Control"), Ascii("private, no-store")),
             Header(Ascii("Connection"), Ascii("close"))]
  {
    hide Decimal;
    assert Ascii("\"") == [QUOTE];
  }

  /**
    What a client makes of the first `sent` bytes of a download: nothing yet, or one response with its five fields, the
    archive's own name among them, and every file.
   */
  ghost predicate AllOrVisiblyNothing(seen: Parsed, es: seq<Entry>, archive: seq<byte>, done: bool) {
    if done then
      && seen.Got? && seen.rest == [] && seen.message.status == 200
      && ReadArchive(seen.message.body) == Some(Members(es))
      && exists n: seq<byte> ::
           && NamedAfter(archive, n)
           && seen.message.fields ==
              [Header(Ascii("Content-Type"), Ascii("application/zip")),
               Header(Ascii("Content-Length"), Decimal(|seen.message.body|)),
               Header(Ascii("Content-Disposition"), Ascii("attachment; filename=\"") + n + Ascii("\"")),
               Header(Ascii("Cache-Control"), Ascii("private, no-store")),
               Header(Ascii("Connection"), Ascii("close"))]
    else seen == NeedMore
  }

  /**
    A whole download is one complete response, to be saved under the archive's name, whose body is an archive that gives
    back every file's name and contents, in order; anything short of the announced length is an incomplete response.
   */
  lemma DownloadRead(es: seq<Entry>, archive: seq<byte>, sent: nat, done: bool)
    requires CString(archive) && TotalSize(es) < U64 && NamesFitHeaders(es)
    requires var head := Head(Wrap(TotalSize(es)), FileName(archive));
             && sent <= |Stream(head, es)|
             && if done then Complete(es) && sent == |Stream(head, es)| else sent < |head| + TotalSize(es)
    ensures var head := Head(Wrap(TotalSize(es)), FileName(archive));
            AllOrVisiblyNothing(Parse(Stream(head, es)[..sent]), es, archive, done)
  {
    hide Parse, Head, Archive, ReadArchive, TotalSize, BodySize, CentralSize, Compose, HeadFields, Framed, Sanitized;
    hide Ascii, Decimal, NamedAfter, FileName;
    var total, name := TotalSize(es), FileName(archive);
    SmallTotal(total);
    FileNameIsSafe(archive);
    var head := Head(total, name);
    if done {
      var body := Archive(es);
      ContentLengthExact(es);
      AnnouncedIsFramed(name, body);
      HeadThenBody(total, name, body);
      MessageRoundTrip(Announced(total, name, body), []);
      assert Stream(head, es)[..sent] == Compose(Announced(total, name, body)) + [];
      WithinTotal(es);
      ZipRoundTrip(es);
      HeadSpelledOut(total, name);
      FileNameIsNamedAfter(archive);
    } else {
      BrokenOff(total, name, Stream(head, es), sent);
    }
  }

  /** A client at the other end of the pump's socket: it gets everything exactly when the pump reports success. */
  method Fetch(pump: FolderZipPump, client: ClientObject.Client, refusal: Response, es: seq<Entry>, archive: seq<byte>)
    returns (st: ClientObject.Status)
    requires client.sock == pump.sock && client.Idle() && !client.armedOut && client.buf.Length == BUFFER
    requires pump.table.Ready() && pump.calls == [] && pump.results == map[] && pump.sock.wire == []
    requires CString(archive) && TotalSize(es) < U64 && NamesFitHeaders(es)
    requires |es| < U64 && forall i :: 0 <= i < |es| ==> es[i].size < U64
    modifies pump, pump.sock, client.buf
    modifies client`policy, client`armedOut, client`draining, client`sendOff, client`sendLen
    ensures AllOrVisiblyNothing(Parse(pump.sock.wire), es, archive, st == ClientObject.Success)
  {
    hide Parse, Head, TotalSize, Stream, Download, AllOrVisiblyNothing, FileName, Track, Crc32.CrcTable.Ready;
    ghost var head := Head(Wrap(TotalSize(es)), FileName(archive));
    HonestTruncation(pump.sock.script, |head|, es);
    ghost var p := Download(pump.sock.script, |head|, es);
    ghost var end;
    st, end := pump.Pump(client, refusal, true, es, archive);
    DownloadRead(es, archive, p.sent, end == Some(Done));
    assert [] + Stream(head, es)[..p.sent] == Stream(head, es)[..p.sent];
  }

  lemma SmallTotal(total: nat)
    requires total < U64
    ensures Wrap(total) == total
  {
    SmallMod(total, U64);
  }

  lemma WithinTotal(es: seq<Entry>)
    ensures BodySize(es) + CentralSize(es) <= TotalSize(es)
  {
  }

  lemma FileNameIsSafe(archive: seq<byte>)
    requires CString(archive)
    ensures OneLine(FileName(archive))
  {
    SanitizedIsSafe(archive);
  }
}

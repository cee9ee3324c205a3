/**
  The protocol of one connection as client.c, response_writer.c and the event dispatch of operator.c run it: requests
  are read in fragments, each is answered through a send that may stop at any byte, park until the socket takes more,
  and be resumed, and only then is it decided whether the connection stays. The kernel and the peer are adversaries.
 */
module Exchange {
  import opened Bytes
  import opened Options
  import opened Text
  import opened Kernel
  import opened HttpMessage

  /** connection_policy: what the last request asked for. */
  datatype Policy = Unset | KeepAlive | Close

  /** What the router hands to the response writer. */
  datatype Reply = Refuse(status: nat) | Answer(response: Response)

  /** What the parser and the application make of the bytes of one message so far. */
  datatype Verdict = More | Nothing | Reject(tooLarge: bool) | Claim | Complete(policy: Policy, reply: Reply)

  /** Parser and application: any function of the number of requests before and the bytes of this one. */
  datatype Server = Server(judge: (nat, seq<byte>) -> Verdict, maxHeaders: nat)

  // ----- what is sent in reply -----

  function ErrorStatus(status: nat): nat {
    if status == 404 || status == 400 || status == 413 then status else 500
  }

  function ErrorText(status: nat): string {
    if status == 404 then "{\"error\":\"not_found\"}"
    else if status == 400 then "{\"error\":\"bad_body\"}"
    else if status == 413 then "{\"error\":\"body_too_large\"}"
    else "{\"error\":\"server_error\"}"
  }

  function ErrorFields(length: nat): seq<Header> {
    [ContentLength(length), ContentType(Ascii("application/json")), Connection(false)]
  }

  function ErrorMessage(status: nat): Message {
    var body := Ascii(ErrorText(ErrorStatus(status)));
    Message(ErrorStatus(status), ErrorFields(|body|), body)
  }

  /** Fields beyond the fixed maximum are not sent. */
  function Trimmed(r: Response, maxHeaders: nat): Response {
    r.(headers := r.headers[..Min(|r.headers|, maxHeaders)])
  }

  /** A message ready to go, and the policy that will decide what happens after it. */
  datatype Rendered = Rendered(message: Message, policy: Policy)

  /** Nothing is sent for an invalid status; what does not fit the buffer is replaced whole by the 500 message. */
  function Render(server: Server, reply: Reply, policy: Policy): Option<Rendered> {
    match reply
    case Refuse(status) => Some(Rendered(ErrorMessage(status), Close))
    case Answer(r) =>
      if r.status < 100 || r.status > 599 then None else
      var m := Whole(Trimmed(r, server.maxHeaders), policy == KeepAlive);
      if |Compose(m)| > BUFFER then Some(Rendered(ErrorMessage(500), Close)) else Some(Rendered(m, policy))
  }

  // ----- the conversation, told from the bytes that were read alone -----

  datatype Talk = Talk(said: seq<Message>, served: nat, input: seq<byte>, over: bool)

  const SILENCE := Talk([], 0, [], false)

  function Hear(server: Server, t: Talk, data: seq<byte>): Talk {
    var text := t.input + data;
    match server.judge(t.served, text)
    case More => t.(input := text)
    case Nothing => t.(input := text, over := true)
    case Claim => t.(input := text, over := true)
    case Reject(tooLarge) => Talk(t.said + [ErrorMessage(if tooLarge then 413 else 400)], t.served, text, true)
    case Complete(policy, reply) =>
      match Render(server, reply, policy)
      case None => Talk(t.said, t.served + 1, [], true)
      case Some(r) => Talk(t.said + [r.message], t.served + 1, [], r.policy == Close)
  }

  function Hears(server: Server, t: Talk, heard: seq<seq<byte>>): Talk {
    if heard == [] then t else Hear(server, Hears(server, t, heard[..|heard| - 1]), heard[|heard| - 1])
  }

  function Stream(said: seq<Message>): seq<byte> {
    if said == [] then [] else Stream(said[..|said| - 1]) + Compose(said[|said| - 1])
  }

  // ----- the protocol -----

  /** What the kernel has answered, taken and given so far, and what it will. */
  datatype Link = Link(script: seq<Answer>, incoming: seq<byte>, heard: seq<seq<byte>>, wire: seq<byte>)

  datatype Cause = Decided | PeerLeft | Overflow | Mute | ReadFailed | SendFailed | RearmFailed | HungUp | TimedOut

  /**
    Sending is a send the run ends in; `stale` request bytes are still counted in the buffer while Draining. A request
    that the upload gate claims at the end of its headers is Handed over to the pump, which ends the connection.
   */
  datatype Phase =
    | Listening(input: seq<byte>)
    | Handed(input: seq<byte>)
    | Draining(output: seq<byte>, off: nat, stale: nat)
    | Sending(output: seq<byte>, off: nat)
    | Closed(cause: Cause)

  datatype Conn = Conn(phase: Phase, policy: Policy, served: nat)

  datatype World = World(link: Link, conn: Conn)

  datatype Ending = Sent | Parked | Lost | Cut

  datatype Drove = Drove(sent: nat, rest: seq<Answer>, end: Ending) {
    function Plus(k: nat): Drove {
      Drove(k + sent, rest, end)
    }
  }

  /** _try_send of `len` bytes. A full socket parks a connection of the reactor and makes any other wait. */
  function Drive(script: seq<Answer>, len: nat, managed: bool): (d: Drove)
    ensures d.sent <= len && |d.rest| <= |script|
    ensures d.end == Sent <==> d.sent == len
    ensures d.end == Cut ==> d.rest == []
    ensures d.end == Parked ==> managed
    decreases |script|
  {
    if len == 0 then Drove(0, script, Sent)
    else if script == [] then Drove(0, [], Cut)
    else match script[0]
      case Count(n) =>
        if n == 0 then Drove(0, script[1..], Lost)
        else Drive(script[1..], len - Min(n, len), managed).Plus(Min(n, len))
      case Interrupted => Drive(script[1..], len, managed)
      case WouldBlock =>
        if |script| == 1 then Drove(0, [], Cut)
        else if managed then Drove(0, script[2..], if script[1].Count? then Parked else Lost)
        else if script[1].Count? && script[1].n > 0 then Drive(script[2..], len, managed)
        else Drove(0, script[2..], Lost)
      case Fault => Drove(0, script[1..], Lost)
  }

  /** The kernel refused a write, or a wait after it, or to park. */
  predicate Refusal(script: seq<Answer>, rest: seq<Answer>, managed: bool) {
    && |rest| < |script|
    && var a := LastUsed(script, rest);
       || a == Fault || a == Count(0)
       || (Waited(script, rest) && if managed then !a.Count? else !Positive(a))
  }

  /** Why a send ended where it did. */
  predicate DriveReason(script: seq<Answer>, d: Drove, managed: bool) {
    && LeftOf(script, d.rest)
    && (d.end == Parked ==>
          managed && |d.rest| < |script| && Waited(script, d.rest) && LastUsed(script, d.rest).Count?)
    && (d.end == Lost ==> Refusal(script, d.rest, managed))
  }

  lemma DriveReasonTail(script: seq<Answer>, j: nat, d: Drove, managed: bool, k: nat)
    requires j <= |script| && DriveReason(script[j..], d, managed)
    ensures DriveReason(script, d.Plus(k), managed)
  {
    LeftOfTail(script, j, d.rest);
  }

  lemma DriveLost(script: seq<Answer>, j: nat, managed: bool)
    requires 0 < j <= |script|
    requires || script[j - 1] == Fault || script[j - 1] == Count(0)
             || (j > 1 && script[j - 2] == WouldBlock
                 && if managed then !script[j - 1].Count? else !Positive(script[j - 1]))
    ensures DriveReason(script, Drove(0, script[j..], Lost), managed)
  {
  }

  lemma DriveParked(script: seq<Answer>)
    requires |script| >= 2 && script[0] == WouldBlock && script[1].Count?
    ensures DriveReason(script, Drove(0, script[2..], Parked), true)
  {
  }

  lemma DriveOver(script: seq<Answer>, j: nat, end: Ending, managed: bool)
    requires j <= |script| && (end == Sent || end == Cut)
    ensures DriveReason(script, Drove(0, script[j..], end), managed)
  {
  }

  /** A send only stops short when the kernel refuses it, or a wait, or has granted a reactor's to be parked. */
  lemma {:induction false} DriveStops(script: seq<Answer>, len: nat, managed: bool)
    ensures DriveReason(script, Drive(script, len, managed), managed)
    decreases |script|
  {
    hide DriveReason;
    if len == 0 || script == [] {
      DriveOver(script, 0, Drive(script, len, managed).end, managed);
      assert script[0..] == script;
    } else if script[0] == Fault || script[0] == Count(0) {
      DriveLost(script, 1, managed);
    } else if script[0].Count? {
      var k := Min(script[0].n, len);
      DriveStops(script[1..], len - k, managed);
      DriveReasonTail(script, 1, Drive(script[1..], len - k, managed), managed, k);
    } else if script[0] == Interrupted {
      DriveStops(script[1..], len, managed);
      DriveReasonTail(script, 1, Drive(script[1..], len, managed), managed, 0);
    } else if |script| == 1 {
      DriveOver(script, 1, Cut, managed);
    } else if managed {
      if script[1].Count? { DriveParked(script); } else { DriveLost(script, 2, managed); }
    } else if Positive(script[1]) {
      DriveStops(script[2..], len, managed);
      DriveReasonTail(script, 2, Drive(script[2..], len, managed), managed, 0);
    } else {
      DriveLost(script, 2, managed);
    }
  }

  /** The two write loops of the server, written separately, do the same to a connection that no reactor owns. */
  lemma {:induction false} WriteLoopsAgree(script: seq<Answer>, len: nat)
    ensures var d, p := Drive(script, len, false), PushAll(script, len);
            && d.sent == p.sent && d.rest == p.rest && (d.end == Sent <==> p.end == Done)
            && (d.end == Lost <==> p.end == Broken) && (d.end == Cut <==> p.end == Unfinished)
    decreases |script|
  {
    if len > 0 && script != [] {
      match script[0]
      case Count(n) => WriteLoopsAgree(script[1..], len - Min(n, len));
      case Interrupted => WriteLoopsAgree(script[1..], len);
      case WouldBlock => if |script| > 1 { WriteLoopsAgree(script[2..], len); }
      case Fault =>
    }
  }

  /** The write loop from `off` on; `after` is where a completed send leads. */
  function Transmit(managed: bool, w: World, output: seq<byte>, off: nat, stale: nat, after: Phase): World
    requires off <= |output|
  {
    var d := Drive(w.link.script, |output| - off, managed);
    World(
      w.link.(script := d.rest, wire := w.link.wire + output[off..off + d.sent]),
      w.conn.(phase :=
        match d.end
        case Sent => after
        case Parked => Draining(output, off + d.sent, stale)
        case Lost => Closed(SendFailed)
        case Cut => Sending(output, off + d.sent)))
  }

  function After(policy: Policy): Phase {
    if policy == Close then Closed(Decided) else Listening([])
  }

  function Shut(w: World, cause: Cause): World {
    w.(conn := w.conn.(phase := Closed(cause)))
  }

  /** client_handle on the bytes of one read. */
  function Receive(server: Server, managed: bool, w: World, text: seq<byte>): World {
    match server.judge(w.conn.served, text)
    case More => w.(conn := w.conn.(phase := Listening(text)))
    case Nothing => Shut(w, Mute)
    case Claim => w.(conn := w.conn.(phase := Handed(text)))
    case Reject(tooLarge) =>
      var out := Compose(ErrorMessage(if tooLarge then 413 else 400));
      Transmit(managed, w.(conn := w.conn.(policy := Close)), out, 0, |text|, Closed(Decided))
    case Complete(policy, reply) =>
      match Render(server, reply, policy)
      case None => Shut(w.(conn := w.conn.(policy := policy, served := w.conn.served + 1)), Mute)
      case Some(r) =>
        var w' := w.(conn := w.conn.(policy := r.policy, served := w.conn.served + 1));
        Transmit(managed, w', Compose(r.message), 0, 0, After(r.policy))
  }

  /** What one read brings. */
  function Fragment(w: World): (data: seq<byte>)
    requires w.conn.phase.Listening? && |w.conn.phase.input| <= BUFFER && w.link.script != []
  {
    var a := Limited(w.link.script[0], Min(BUFFER - |w.conn.phase.input|, |w.link.incoming|));
    if a.Count? then w.link.incoming[..a.n] else []
  }

  function Took(link: Link, data: seq<byte>): Link
    requires link.script != [] && |data| <= |link.incoming|
  {
    Link(link.script[1..], link.incoming[|data|..], if data == [] then link.heard else link.heard + [data], link.wire)
  }

  /** client_handle: read until a request is answered, the socket is empty, or something fails. */
  function Handle(server: Server, managed: bool, w: World): World
    requires w.conn.phase.Listening? && |w.conn.phase.input| <= BUFFER
    decreases |w.link.script|
  {
    var input := w.conn.phase.input;
    if |input| >= BUFFER then Shut(w, Overflow)
    else if w.link.script == [] then w
    else
      var data := Fragment(w);
      var w' := w.(link := Took(w.link, data));
      match w.link.script[0]
      case Count(_) =>
        if data == [] then Shut(w', PeerLeft)
        else
          var w'' := Receive(server, managed, w', input + data);
          if server.judge(w.conn.served, input + data).More? then Handle(server, managed, w'') else w''
      case Interrupted => Handle(server, managed, w')
      case WouldBlock => w'
      case Fault => Shut(w', ReadFailed)
  }

  /** response_writer_resume: go on sending; once done, watch for requests again and only then decide. */
  function Resume(managed: bool, w: World): World
    requires w.conn.phase.Draining? && w.conn.phase.off <= |w.conn.phase.output|
  {
    var out := w.conn.phase.output;
    var d := Drive(w.link.script, |out| - w.conn.phase.off, managed);
    var w' := Transmit(managed, w, out, w.conn.phase.off, w.conn.phase.stale, Sending(out, |out|));
    if d.end != Sent || d.rest == [] then w'
    else
      var armed := w'.(link := w'.link.(script := d.rest[1..]));
      if !d.rest[0].Count? then Shut(armed, RearmFailed)
      else armed.(conn := armed.conn.(phase := After(w.conn.policy)))
  }

  /** Ready: the event the descriptor is registered for; the others close the connection from outside. */
  datatype Event = Ready | HangUp | Expiry

  predicate Sound(w: World) {
    match w.conn.phase
    case Listening(input) => |input| <= BUFFER
    case Draining(output, off, _) => off <= |output|
    case _ => true
  }

  /** No event of the protocol matters to the connection any more. */
  predicate Finished(phase: Phase) {
    phase.Closed? || phase.Sending? || phase.Handed?
  }

  /** The dispatch of one event. A call the run ended in never returns. */
  function React(server: Server, managed: bool, w: World, e: Event): World
    requires Sound(w)
  {
    if Finished(w.conn.phase) then w
    else match e
      case Ready => if w.conn.phase.Draining? then Resume(managed, w) else Handle(server, managed, w)
      case HangUp => Shut(w, HungUp)
      case Expiry => Shut(w, TimedOut)
  }

  // ----- what holds at every moment of every run -----

  /** The wire holds everything said but the last `left` bytes, all of them of the last message. */
  predicate Owes(wire: seq<byte>, said: seq<Message>, left: nat) {
    wire <= Stream(said) && |wire| + left == |Stream(said)| && left <= (if said == [] then 0 else |Compose(Last(said))|)
  }

  function Last(said: seq<Message>): Message
    requires said != []
  {
    said[|said| - 1]
  }

  /** The wire is the last message up to `off`, after all the earlier ones. */
  predicate Mid(wire: seq<byte>, said: seq<Message>, output: seq<byte>, off: nat) {
    said != [] && output == Compose(Last(said)) && off <= |output| && Owes(wire, said, |output| - off)
  }

  /** What the parser said of the message that the last fragment belongs to. */
  function LastVerdict(server: Server, heard: seq<seq<byte>>): Verdict
    requires heard != []
  {
    var t := Hears(server, SILENCE, heard[..|heard| - 1]);
    server.judge(t.served, t.input + heard[|heard| - 1])
  }

  /** The parser turned the last request down. */
  predicate Rejected(server: Server, heard: seq<seq<byte>>) {
    heard != [] && LastVerdict(server, heard).Reject?
  }

  /** The last fragment was replied to. */
  predicate Spoke(server: Server, heard: seq<seq<byte>>) {
    && heard != []
    && var v := LastVerdict(server, heard);
       v.Reject? || (v.Complete? && Render(server, v.reply, v.policy).Some?)
  }

  predicate CutByForce(cause: Cause) {
    cause == SendFailed || cause == HungUp || cause == TimedOut
  }

  /** Every byte the peer sent is read once, in order, and none after the exchange that ends the connection. */
  ghost predicate Attentive(server: Server, peer: seq<byte>, heard: seq<seq<byte>>, incoming: seq<byte>) {
    && Flatten(heard) + incoming == peer
    && forall i :: 0 <= i < |heard| ==> heard[i] != [] && !Hears(server, SILENCE, heard[..i]).over
  }

  ghost predicate Faithful(server: Server, peer: seq<byte>, managed: bool, w: World) {
    var t := Hears(server, SILENCE, w.link.heard);
    Attentive(server, peer, w.link.heard, w.link.incoming) &&
    match w.conn.phase
    case Listening(input) =>
      Owes(w.link.wire, t.said, 0) && !t.over && t.input == input && |input| <= BUFFER && t.served == w.conn.served
    case Handed(input) =>
      Owes(w.link.wire, t.said, 0) && t.over && t.input == input && |input| <= BUFFER && t.served == w.conn.served
    case Draining(output, off, stale) =>
      && Mid(w.link.wire, t.said, output, off) && off < |output| <= BUFFER && t.served == w.conn.served
      && t.over == (w.conn.policy == Close) && stale == |t.input| && (stale > 0 ==> t.over)
      && (stale > 0 <==> Rejected(server, w.link.heard)) && Spoke(server, w.link.heard) && managed
    case Sending(output, off) => Mid(w.link.wire, t.said, output, off)
    case Closed(cause) =>
      && (if CutByForce(cause) then exists left: nat :: Owes(w.link.wire, t.said, left)
          else Owes(w.link.wire, t.said, 0))
      && (cause == Decided ==> t.over && Spoke(server, w.link.heard))
  }

  // ----- every message fits the buffer -----

  lemma ErrorTextLength(status: nat)
    ensures |ErrorText(status)| < 40
  {
  }

  lemma ReasonLength(status: nat)
    ensures |Reason(status)| < 40
  {
  }

  lemma ErrorFieldsLength(length: nat)
    requires length < 100
    ensures |FieldLines(ErrorFields(length))| < 400
  {
    hide Ascii, Decimal, FieldLines, FieldText;
    var hs := ErrorFields(length);
    DecimalLength(length, 2);
    FieldLinesCons(hs);
    FieldLinesCons(hs[1..]);
    FieldLinesCons(hs[2..]);
    assert hs[1..][1..] == hs[2..] && hs[2..][1..] == [];
    FieldTextLength(hs[0]);
    FieldTextLength(hs[1]);
    FieldTextLength(hs[2]);
    NoFieldLines();
  }

  lemma ErrorFits(status: nat)
    ensures 0 < |Compose(ErrorMessage(status))| < BUFFER
  {
    hide Compose, Reason, Ascii, ErrorText, FieldLines, ErrorFields;
    var s := ErrorStatus(status);
    ErrorTextLength(s);
    ReasonLength(s);
    ErrorFieldsLength(|Ascii(ErrorText(s))|);
    ComposeLength(ErrorMessage(status));
  }

  lemma RenderFits(server: Server, reply: Reply, policy: Policy)
    ensures var r := Render(server, reply, policy);
            r.Some? ==> 0 < |Compose(r.value.message)| <= BUFFER && 100 <= r.value.message.status <= 599
  {
    hide Compose, ErrorText, ErrorFields, Fields, FieldLines, Reason;
    if reply.Refuse? { ErrorFits(reply.status); } else { ErrorFits(500); }
    var r := Render(server, reply, policy);
    if r.Some? { ComposeLength(r.value.message); }
  }

  /** A fixed message in octets: the status line, three fields and the body. */
  function ErrorOctets(code: string, reason: string, length: string, body: string): seq<byte> {
    Ascii("HTTP/1.1 " + code + " " + reason) + CRLF
    + (Ascii("Content-Length" + ": " + length) + CRLF
       + (Ascii("Content-Type" + ": " + "application/json") + CRLF + (Ascii("Connection" + ": " + "close") + CRLF)))
    + CRLF + Ascii(body)
  }

  lemma AsciiJoin(a: string, b: string)
    ensures Ascii(a + b) == Ascii(a) + Ascii(b)
  {
  }

  lemma FieldAsText(name: string, value: string)
    ensures FieldText(Header(Ascii(name), Ascii(value))) == Ascii(name + ": " + value)
  {
    AsciiJoin(name, ": ");
    AsciiJoin(name + ": ", value);
    assert Ascii(": ") == [COLON, SP];
  }

  lemma TwoDigits(n: nat, text: string)
    requires 10 <= n < 100 && |text| == 2 && text[0] == (48 + n / 10) as char && text[1] == (48 + n % 10) as char
    ensures Decimal(n) == Ascii(text)
  {
    assert Decimal(n) == Decimal(n / 10) + [48 + n % 10];
  }

  lemma ThreeDigitText(n: nat, text: string)
    requires 100 <= n < 1000 && |text| == 3 && text[0] == (48 + n / 100) as char
    requires text[1] == (48 + n / 10 % 10) as char && text[2] == (48 + n % 10) as char
    ensures Decimal(n) == Ascii(text)
  {
    TwoDigits(n / 10, text[..2]);
    assert Decimal(n) == Decimal(n / 10) + [48 + n % 10];
  }

  lemma StatusAsText(status: nat, code: string, reason: string)
    requires Reason(status) == reason && Decimal(status) == Ascii(code)
    ensures StatusText(status) == Ascii("HTTP/1.1 " + code + " " + reason)
  {
    hide Reason, Decimal;
    AsciiJoin("HTTP/1.1 ", code);
    AsciiJoin("HTTP/1.1 " + code, " ");
    AsciiJoin("HTTP/1.1 " + code + " ", reason);
    assert Ascii(" ") == [SP];
  }

  /** A fixed message, put together from its texts. */
  lemma ErrorLines(status: nat, code: string, reason: string, length: string, body: string)
    requires ErrorStatus(status) == status && Reason(status) == reason && Decimal(status) == Ascii(code)
    requires ErrorText(status) == body && Decimal(|body|) == Ascii(length)
    ensures Compose(ErrorMessage(status)) == ErrorOctets(code, reason, length, body)
  {
    hide Reason, Decimal, Ascii, ErrorText, FieldText, FieldLines, ErrorStatus, Compose, StatusText;
    var m := ErrorMessage(status);
    StatusAsText(status, code, reason);
    FieldAsText("Content-Length", length);
    FieldAsText("Content-Type", "application/json");
    FieldAsText("Connection", "close");
    ThreeFields(m.fields[0], m.fields[1], m.fields[2]);
    ComposeParts(m, []);
    Joined(StatusText(status), FieldLines(m.fields), m.body);
    assert Compose(m) + [] == Compose(m) && m.body + [] == m.body;
  }

  lemma Joined(first: seq<byte>, fields: seq<byte>, body: seq<byte>)
    ensures first + CRLF + (fields + CRLF + body) == first + CRLF + fields + CRLF + body
  {
  }

  lemma ThreeFields(a: Header, b: Header, c: Header)
    ensures FieldLines([a, b, c]) == FieldText(a) + CRLF + (FieldText(b) + CRLF + (FieldText(c) + CRLF))
  {
    hide FieldText;
    var hs := [a, b, c];
    FieldLinesCons(hs);
    FieldLinesCons(hs[1..]);
    FieldLinesCons(hs[2..]);
    assert hs[1..][1..] == hs[2..] && hs[2..][1..] == [];
    NoFieldLines();
  }

  /** The fixed messages as they go out, octet for octet; any other status is sent as 500. */
  lemma ErrorsAsSent(status: nat)
    ensures Compose(ErrorMessage(404))
         == ErrorOctets("404", "Not Found", "21", "{\"error\":\"not_found\"}")
    ensures Compose(ErrorMessage(400))
         == ErrorOctets("400", "Bad Request", "20", "{\"error\":\"bad_body\"}")
    ensures Compose(ErrorMessage(413))
         == ErrorOctets("413", "Content Too Large", "26", "{\"error\":\"body_too_large\"}")
    ensures Compose(ErrorMessage(500))
         == ErrorOctets("500", "Internal Server Error", "24", "{\"error\":\"server_error\"}")
    ensures status != 404 && status != 400 && status != 413 ==> ErrorMessage(status) == ErrorMessage(500)
    ensures forall server, policy ::
              Render(server, Refuse(status), policy) == Some(Rendered(ErrorMessage(status), Close))
  {
    hide Compose, ErrorOctets, Decimal, Ascii;
    ThreeDigitText(404, "404");
    ThreeDigitText(400, "400");
    ThreeDigitText(413, "413");
    ThreeDigitText(500, "500");
    TwoDigits(21, "21");
    TwoDigits(20, "20");
    TwoDigits(26, "26");
    TwoDigits(24, "24");
    ErrorLines(404, "404", "Not Found", "21", "{\"error\":\"not_found\"}");
    ErrorLines(400, "400", "Bad Request", "20", "{\"error\":\"bad_body\"}");
    ErrorLines(413, "413", "Content Too Large", "26", "{\"error\":\"body_too_large\"}");
    ErrorLines(500, "500", "Internal Server Error", "24", "{\"error\":\"server_error\"}");
  }

  /**
    What a response becomes on its way out: its own status and body, and its own headers after the server's fields, all
    of them up to the maximum and in order, none dropped, none changed; or the 500 message, exactly if it does not fit.
   */
  lemma RenderKeeps(server: Server, r: Response, policy: Policy)
    requires 100 <= r.status <= 599
    ensures var stay := if policy == KeepAlive then "keep-alive" else "close";
            var typed := |r.body| > 0 && r.contentType.Some?;
            var fields :=
              [Header(Ascii("Content-Length"), Decimal(|r.body|)), Header(Ascii("Connection"), Ascii(stay))]
              + (if typed then [Header(Ascii("Content-Type"), r.contentType.value)] else [])
              + (if |r.headers| <= server.maxHeaders then r.headers else r.headers[..server.maxHeaders]);
            var m := Message(r.status, fields, r.body);
            Render(server, Answer(r), policy)
            == Some(if |Compose(m)| <= 32 * 1024 then Rendered(m, policy) else Rendered(ErrorMessage(500), Close))
  {
    hide Compose, Decimal, Ascii, ErrorMessage;
    assert r.headers[..|r.headers|] == r.headers;
  }

  lemma OwesSay(wire: seq<byte>, said: seq<Message>, m: Message)
    requires Owes(wire, said, 0)
    ensures Mid(wire, said + [m], Compose(m), 0)
  {
    hide Compose;
    assert (said + [m])[..|said|] == said;
  }

  lemma MidAdvance(wire: seq<byte>, said: seq<Message>, output: seq<byte>, off: nat, k: nat)
    requires Mid(wire, said, output, off) && off + k <= |output|
    ensures Mid(wire + output[off..off + k], said, output, off + k)
  {
    hide Compose;
    var before := Stream(said[..|said| - 1]);
    assert Stream(said) == before + output && |wire| == |before| + off;
    assert wire == (before + output)[..|wire|];
    assert wire + output[off..off + k] == (before + output)[..|before| + off + k];
  }

  lemma LastVerdictSnoc(server: Server, heard: seq<seq<byte>>, data: seq<byte>)
    ensures var t := Hears(server, SILENCE, heard);
            LastVerdict(server, heard + [data]) == server.judge(t.served, t.input + data)
  {
    hide Hears;
    assert (heard + [data])[..|heard|] == heard;
  }

  lemma StaysAttentive(server: Server, peer: seq<byte>, link: Link, data: seq<byte>)
    requires Attentive(server, peer, link.heard, link.incoming) && !Hears(server, SILENCE, link.heard).over
    requires link.script != [] && data != [] && data <= link.incoming
    ensures Attentive(server, peer, Took(link, data).heard, Took(link, data).incoming)
  {
    hide Hears;
    var heard := link.heard + [data];
    FlattenSnoc(link.heard, data);
    assert data + link.incoming[|data|..] == link.incoming;
    forall i | 0 <= i < |heard| ensures heard[i] != [] && !Hears(server, SILENCE, heard[..i]).over {
      assert heard[..i] == link.heard[..i];
      if i == |link.heard| { assert link.heard[..i] == link.heard; }
    }
  }

  lemma NothingTaken(server: Server, peer: seq<byte>, link: Link)
    requires Attentive(server, peer, link.heard, link.incoming) && link.script != []
    ensures Attentive(server, peer, Took(link, []).heard, Took(link, []).incoming)
  {
    assert link.incoming[0..] == link.incoming;
  }

  lemma HearsSnoc(server: Server, t: Talk, heard: seq<seq<byte>>, data: seq<byte>)
    ensures Hears(server, t, heard + [data]) == Hear(server, Hears(server, t, heard), data)
  {
    hide Hear;
    assert (heard + [data])[..|heard|] == heard;
  }

  /** A send, fresh or resumed, keeps the promise wherever it stops. */
  lemma TransmitFaithful(server: Server, peer: seq<byte>, managed: bool, w: World, output: seq<byte>, off: nat,
                         stale: nat, after: Phase)
    requires off <= |output| <= BUFFER
    requires var t := Hears(server, SILENCE, w.link.heard);
             && Attentive(server, peer, w.link.heard, w.link.incoming) && Mid(w.link.wire, t.said, output, off)
             && t.served == w.conn.served && t.over == (w.conn.policy == Close)
             && stale == |t.input| && (stale > 0 ==> t.over) && (stale > 0 <==> Rejected(server, w.link.heard))
             && Spoke(server, w.link.heard)
             && ((after == Closed(Decided) && t.over) || (after == Listening([]) && !t.over)
                 || after == Sending(output, |output|))
    ensures Faithful(server, peer, managed, Transmit(managed, w, output, off, stale, after))
  {
    hide Hears, Drive, Stream, Compose, Attentive, Rejected, Spoke;
    var t, d := Hears(server, SILENCE, w.link.heard), Drive(w.link.script, |output| - off, managed);
    MidAdvance(w.link.wire, t.said, output, off, d.sent);
  }

  /** One read, and the answer to it if it completes a request. */
  lemma ReceiveFaithful(server: Server, peer: seq<byte>, managed: bool, w: World, data: seq<byte>)
    requires w.conn.phase.Listening? && Faithful(server, peer, managed, w)
    requires data != [] && |w.conn.phase.input + data| <= BUFFER
    requires w.link.script != [] && data <= w.link.incoming
    ensures var w' := w.(link := Took(w.link, data));
            Faithful(server, peer, managed, Receive(server, managed, w', w.conn.phase.input + data))
  {
    hide Hears, Drive, Stream, Compose, Render, Transmit, ErrorMessage, Attentive, LastVerdict;
    var t := Hears(server, SILENCE, w.link.heard);
    var w' := w.(link := Took(w.link, data));
    var text := w.conn.phase.input + data;
    HearsSnoc(server, SILENCE, w.link.heard, data);
    StaysAttentive(server, peer, w.link, data);
    LastVerdictSnoc(server, w.link.heard, data);
    match server.judge(w.conn.served, text)
    case More =>
    case Nothing =>
    case Claim =>
    case Reject(tooLarge) =>
      var m := ErrorMessage(if tooLarge then 413 else 400);
      OwesSay(w.link.wire, t.said, m);
      ErrorFits(if tooLarge then 413 else 400);
      var closing := w'.(conn := w'.conn.(policy := Close));
      TransmitFaithful(server, peer, managed, closing, Compose(m), 0, |text|, Closed(Decided));
    case Complete(policy, reply) =>
      var r := Render(server, reply, policy);
      if r.Some? {
        OwesSay(w.link.wire, t.said, r.value.message);
        RenderFits(server, reply, policy);
        var conn := w'.conn.(policy := r.value.policy, served := w'.conn.served + 1);
        var replying := w'.(conn := conn);
        TransmitFaithful(server, peer, managed, replying, Compose(r.value.message), 0, 0, After(r.value.policy));
      }
  }

  lemma FragmentFits(w: World)
    requires w.conn.phase.Listening? && |w.conn.phase.input| <= BUFFER && w.link.script != []
    ensures var data := Fragment(w); data <= w.link.incoming && |w.conn.phase.input + data| <= BUFFER
  {
  }

  lemma {:induction false} HandleFaithful(server: Server, peer: seq<byte>, managed: bool, w: World)
    requires w.conn.phase.Listening? && Faithful(server, peer, managed, w)
    ensures Faithful(server, peer, managed, Handle(server, managed, w))
    decreases |w.link.script|
  {
    hide Hears, Stream, Compose, Fragment, Attentive;
    var input := w.conn.phase.input;
    if |input| < BUFFER && w.link.script != [] {
      FragmentFits(w);
      var data := Fragment(w);
      var w' := w.(link := Took(w.link, data));
      if data == [] { NothingTaken(server, peer, w.link); }
      if w.link.script[0].Count? {
        if data != [] {
          ReceiveFaithful(server, peer, managed, w, data);
          if server.judge(w.conn.served, input + data).More? {
            HandleFaithful(server, peer, managed, Receive(server, managed, w', input + data));
          }
        }
      } else {
        NoFragment(w);
        if w.link.script[0].Interrupted? { HandleFaithful(server, peer, managed, w'); }
      }
    }
  }

  lemma NoFragment(w: World)
    requires w.conn.phase.Listening? && |w.conn.phase.input| <= BUFFER
    requires w.link.script != [] && !w.link.script[0].Count?
    ensures Fragment(w) == [] && w.conn.phase.input + [] == w.conn.phase.input
  {
  }

  lemma ResumeFaithful(server: Server, peer: seq<byte>, managed: bool, w: World)
    requires w.conn.phase.Draining? && Faithful(server, peer, managed, w)
    ensures Faithful(server, peer, managed, Resume(managed, w))
  {
    hide Hears, Drive, Stream, Compose, Attentive, Rejected, Spoke;
    var p := w.conn.phase;
    TransmitFaithful(server, peer, managed, w, p.output, p.off, p.stale, Sending(p.output, |p.output|));
  }

  lemma ReactFaithful(server: Server, peer: seq<byte>, managed: bool, w: World, e: Event)
    requires Faithful(server, peer, managed, w)
    ensures Sound(w) && Faithful(server, peer, managed, React(server, managed, w, e))
  {
    hide Hears, Stream, Compose, Handle, Resume, Attentive;
    match w.conn.phase
    case Listening(_) => HandleFaithful(server, peer, managed, w);
    case Draining(_, _, _) => ResumeFaithful(server, peer, managed, w);
    case _ =>
  }

  function Run(server: Server, managed: bool, w: World, events: seq<Event>): World
    requires Sound(w)
    decreases |events|
  {
    if events == [] then w else
    var w' := React(server, managed, w, events[0]);
    if Sound(w') then Run(server, managed, w', events[1..]) else w'
  }

  /** A connection just accepted. */
  function Fresh(script: seq<Answer>, peer: seq<byte>): World {
    World(Link(script, peer, [], []), Conn(Listening([]), Unset, 0))
  }

  lemma {:induction false} RunFaithful(server: Server, peer: seq<byte>, managed: bool, w: World, events: seq<Event>)
    requires Faithful(server, peer, managed, w)
    ensures Sound(w) && Faithful(server, peer, managed, Run(server, managed, w, events))
    decreases |events|
  {
    hide Faithful, React;
    SoundIfFaithful(server, peer, managed, w);
    if events != [] {
      ReactFaithful(server, peer, managed, w, events[0]);
      RunFaithful(server, peer, managed, React(server, managed, w, events[0]), events[1..]);
    }
  }

  lemma SoundIfFaithful(server: Server, peer: seq<byte>, managed: bool, w: World)
    requires Faithful(server, peer, managed, w)
    ensures Sound(w)
  {
  }

  /**
    Wire refinement. Whatever the peer sends, however reads are fragmented and writes cut, interrupted, refused, parked
    and resumed, and whenever the connection is closed from outside: what is on the wire is the replies to the requests
    read so far, in order, the last one possibly cut; nothing is owed while listening or after any close of the server's
    own; and no byte is read after the exchange that ends the connection.
   */
  lemma WireRefinement(server: Server, managed: bool, script: seq<Answer>, peer: seq<byte>, events: seq<Event>)
    ensures Faithful(server, peer, managed, Run(server, managed, Fresh(script, peer), events))
  {
    FreshFaithful(server, managed, script, peer);
    RunFaithful(server, peer, managed, Fresh(script, peer), events);
  }

  lemma FreshFaithful(server: Server, managed: bool, script: seq<Answer>, peer: seq<byte>)
    ensures Faithful(server, peer, managed, Fresh(script, peer))
  {
    assert Fresh(script, peer).link.heard == [] && [] + peer == peer;
  }

  // ----- every event has its reason -----

  /** An answer to a read after which there may be more to read. */
  predicate Delivering(a: Answer) {
    a == Interrupted || Positive(a)
  }

  predicate AllDelivering(answers: seq<Answer>) {
    forall i :: 0 <= i < |answers| ==> Delivering(answers[i])
  }

  /**
    Where a send leads of the `output` from `off` on: to what has been decided, once all of it is out and, for one that
    was parked, the descriptor rearmed.
   */
  ghost predicate SendLeads(managed: bool, script: seq<Answer>, output: seq<byte>, off: nat, parked: bool, over: bool,
                            w: World)
    requires off <= |output|
  {
    var d := Drive(script, |output| - off, managed);
    var decided := if over then Closed(Decided) else Listening([]);
    match d.end
    case Parked =>
      && w.link.script == d.rest
      && w.conn.phase.Draining? && w.conn.phase.output == output && w.conn.phase.off == off + d.sent
    case Lost => w.link.script == d.rest && w.conn.phase == Closed(SendFailed)
    case Cut => w.link.script == [] && w.conn.phase == Sending(output, off + d.sent)
    case Sent =>
      if !parked then w.link.script == d.rest && w.conn.phase == decided
      else if d.rest == [] then w.link.script == [] && w.conn.phase == Sending(output, |output|)
      else w.link.script == d.rest[1..] && w.conn.phase == if d.rest[0].Count? then decided else Closed(RearmFailed)
  }

  /**
    What a read loop does that uses up `k` answers to reads. It goes on exactly through deliveries and interruptions,
    as long as the request is incomplete. It then goes back to listening only if the socket is empty (or the run ends),
    and closes only if the peer has ended, a read has failed, or the buffer is full. If the last delivery settles the
    request it does what the verdict says, and no more.
   */
  ghost predicate ReadReason(server: Server, managed: bool, w: World, w': World, k: nat) {
    var script, heard, heard' := w.link.script, w.link.heard, w'.link.heard;
    && k <= |script| && heard <= heard'
    && (forall i :: |heard| < i < |heard'| ==> LastVerdict(server, heard'[..i]).More?)
    && if heard' == heard || LastVerdict(server, heard').More? then
         && w'.link.script == script[k..]
         && match w'.conn.phase
            case Listening(_) =>
              || (k > 0 && script[k - 1] == WouldBlock && AllDelivering(script[..k - 1]))
              || (k == |script| && AllDelivering(script))
            case Closed(PeerLeft) =>
              && k > 0 && script[k - 1].Count? && (script[k - 1].n == 0 || w'.link.incoming == [])
              && AllDelivering(script[..k - 1])
            case Closed(ReadFailed) => k > 0 && script[k - 1] == Fault && AllDelivering(script[..k - 1])
            case Closed(Overflow) =>
              AllDelivering(script[..k]) && |Hears(server, SILENCE, heard').input| == BUFFER
            case _ => false
       else
         && AllDelivering(script[..k])
         && match LastVerdict(server, heard')
            case More => false
            case Nothing => w'.link.script == script[k..] && w'.conn.phase == Closed(Mute)
            case Claim => w'.link.script == script[k..] && w'.conn.phase.Handed?
            case Reject(tooLarge) =>
              SendLeads(managed, script[k..], Compose(ErrorMessage(if tooLarge then 413 else 400)), 0, false, true, w')
            case Complete(policy, reply) =>
              match Render(server, reply, policy)
              case None => w'.link.script == script[k..] && w'.conn.phase == Closed(Mute)
              case Some(r) => SendLeads(managed, script[k..], Compose(r.message), 0, false, r.policy == Close, w')
  }

  lemma TransmitLeads(managed: bool, w: World, output: seq<byte>, off: nat, stale: nat, over: bool)
    requires off <= |output|
    ensures SendLeads(managed, w.link.script, output, off, false, over,
                      Transmit(managed, w, output, off, stale, if over then Closed(Decided) else Listening([])))
  {
    hide Drive;
  }

  /** One delivery that settles the request. */
  lemma ReceiveReason(server: Server, peer: seq<byte>, managed: bool, w: World, data: seq<byte>)
    requires w.conn.phase.Listening? && Faithful(server, peer, managed, w)
    requires w.link.script != [] && Delivering(w.link.script[0]) && data != [] && |data| <= |w.link.incoming|
    requires !server.judge(w.conn.served, w.conn.phase.input + data).More?
    ensures var w' := Receive(server, managed, w.(link := Took(w.link, data)), w.conn.phase.input + data);
            ReadReason(server, managed, w, w', 1)
  {
    hide Hears, Drive, Compose, Render, ErrorMessage, Attentive, LastVerdict, SendLeads;
    LastVerdictSnoc(server, w.link.heard, data);
    var taken := w.(link := Took(w.link, data));
    match server.judge(w.conn.served, w.conn.phase.input + data)
    case Reject(tooLarge) =>
      var closing := taken.(conn := taken.conn.(policy := Close));
      var text := w.conn.phase.input + data;
      TransmitLeads(managed, closing, Compose(ErrorMessage(if tooLarge then 413 else 400)), 0, |text|, true);
    case Complete(policy, reply) =>
      var r := Render(server, reply, policy);
      if r.Some? {
        var conn := taken.conn.(policy := r.value.policy, served := taken.conn.served + 1);
        TransmitLeads(managed, taken.(conn := conn), Compose(r.value.message), 0, 0, r.value.policy == Close);
      }
    case _ =>
  }

  /** A reason for what follows a delivery or an interruption is a reason for the whole. */
  lemma ReasonGoesBack(server: Server, managed: bool, w: World, next: World, w': World, k: nat)
    requires w.link.script != [] && Delivering(w.link.script[0]) && next.link.script == w.link.script[1..]
    requires next.link.heard == w.link.heard
             || (|next.link.heard| == |w.link.heard| + 1 && w.link.heard <= next.link.heard
                 && LastVerdict(server, next.link.heard).More?)
    requires ReadReason(server, managed, next, w', k)
    ensures ReadReason(server, managed, w, w', k + 1)
  {
    hide Hears, SendLeads, Compose, Render, ErrorMessage, LastVerdict;
    var script, heard' := w.link.script, w'.link.heard;
    assert script[1..][k..] == script[k + 1..];
    if k > 0 { assert script[1..][k - 1] == script[k]; }
    DeliveringCons(script, k);
    if k > 0 { DeliveringCons(script, k - 1); }
    assert heard'[..|next.link.heard|] == next.link.heard;
    if heard' == w.link.heard { assert next.link.heard == w.link.heard; }
    if heard' == next.link.heard { assert heard'[..|heard'|] == heard'; }
  }

  lemma DeliveringCons(script: seq<Answer>, k: nat)
    requires script != [] && Delivering(script[0]) && k < |script|
    ensures AllDelivering(script[1..][..k]) ==> AllDelivering(script[..k + 1])
    ensures AllDelivering(script[1..]) ==> AllDelivering(script)
  {
    if AllDelivering(script[1..][..k]) {
      var front := script[..k + 1];
      forall i | 0 <= i < |front| ensures Delivering(front[i]) {
        if i > 0 { assert script[1..][..k][i - 1] == script[i]; }
      }
    }
    if AllDelivering(script[1..]) {
      forall i | 0 <= i < |script| ensures Delivering(script[i]) {
        if i > 0 { assert script[1..][i - 1] == script[i]; }
      }
    }
  }

  lemma {:induction false} HandleReason(server: Server, peer: seq<byte>, managed: bool, w: World) returns (k: nat)
    requires w.conn.phase.Listening? && Faithful(server, peer, managed, w)
    ensures ReadReason(server, managed, w, Handle(server, managed, w), k)
    decreases |w.link.script|
  {
    hide Hears, Compose, Fragment, Attentive, ReadReason, Receive, LastVerdict, Owes;
    var input := w.conn.phase.input;
    if |input| >= BUFFER || w.link.script == [] {
      k := 0;
      StopsAtOnce(server, managed, w);
      return;
    }
    FragmentFits(w);
    var data := Fragment(w);
    var taken := w.(link := Took(w.link, data));
    if data == [] { NothingTaken(server, peer, w.link); }
    if w.link.script[0].Count? {
      if data == [] {
        k := 1;
        NothingDelivered(server, managed, w);
        return;
      }
      var next := Receive(server, managed, taken, input + data);
      ReceiveFaithful(server, peer, managed, w, data);
      DeliveredSome(w);
      if server.judge(w.conn.served, input + data).More? {
        StaysListening(server, peer, managed, w, data);
        k := HandleReason(server, peer, managed, next);
        ReasonGoesBack(server, managed, w, next, Handle(server, managed, w), k);
        k := k + 1;
      } else {
        k := 1;
        ReceiveReason(server, peer, managed, w, data);
      }
    } else {
      NoFragment(w);
      if w.link.script[0].Interrupted? {
        k := HandleReason(server, peer, managed, taken);
        ReasonGoesBack(server, managed, w, taken, Handle(server, managed, w), k);
        k := k + 1;
      } else {
        k := 1;
        ReadEnds(server, managed, w);
      }
    }
  }

  lemma StopsAtOnce(server: Server, managed: bool, w: World)
    requires w.conn.phase.Listening? && |w.conn.phase.input| <= BUFFER
    requires |w.conn.phase.input| >= BUFFER || w.link.script == []
    requires Hears(server, SILENCE, w.link.heard).input == w.conn.phase.input
    ensures ReadReason(server, managed, w, Handle(server, managed, w), 0)
  {
    hide Hears, SendLeads, LastVerdict;
  }

  lemma NothingDelivered(server: Server, managed: bool, w: World)
    requires w.conn.phase.Listening? && |w.conn.phase.input| < BUFFER && w.link.script != []
    requires w.link.script[0].Count? && Fragment(w) == []
    ensures ReadReason(server, managed, w, Handle(server, managed, w), 1)
  {
    hide Hears, SendLeads, LastVerdict;
  }

  lemma DeliveredSome(w: World)
    requires w.conn.phase.Listening? && |w.conn.phase.input| < BUFFER && w.link.script != []
    requires w.link.script[0].Count? && Fragment(w) != []
    ensures Delivering(w.link.script[0])
  {
  }

  lemma StaysListening(server: Server, peer: seq<byte>, managed: bool, w: World, data: seq<byte>)
    requires w.conn.phase.Listening? && Faithful(server, peer, managed, w) && data != []
    requires w.link.script != [] && |data| <= |w.link.incoming|
    requires server.judge(w.conn.served, w.conn.phase.input + data).More?
    ensures var next := Receive(server, managed, w.(link := Took(w.link, data)), w.conn.phase.input + data);
            && next.conn.phase.Listening? && next.link.script == w.link.script[1..]
            && next.link.heard == w.link.heard + [data] && LastVerdict(server, next.link.heard).More?
  {
    hide Hears, Attentive, LastVerdict;
    LastVerdictSnoc(server, w.link.heard, data);
  }

  lemma ReadEnds(server: Server, managed: bool, w: World)
    requires w.conn.phase.Listening? && |w.conn.phase.input| < BUFFER && w.link.script != []
    requires w.link.script[0] == WouldBlock || w.link.script[0] == Fault
    ensures ReadReason(server, managed, w, Handle(server, managed, w), 1)
  {
    hide Hears, SendLeads, LastVerdict;
    NoFragment(w);
  }

  /** What one event does to a connection at `w`, and why. */
  ghost predicate EventReason(server: Server, managed: bool, w: World, e: Event, w': World)
    requires Sound(w)
  {
    if Finished(w.conn.phase) then w' == w
    else
      match e
      case HangUp => w' == w.(conn := w.conn.(phase := Closed(HungUp)))
      case Expiry => w' == w.(conn := w.conn.(phase := Closed(TimedOut)))
      case Ready =>
        if w.conn.phase.Listening? then exists k: nat :: ReadReason(server, managed, w, w', k)
        else
          && w'.link.heard == w.link.heard && w'.link.incoming == w.link.incoming
          && SendLeads(managed, w.link.script, w.conn.phase.output, w.conn.phase.off, true,
                       Hears(server, SILENCE, w.link.heard).over, w')
  }

  lemma ReactReason(server: Server, peer: seq<byte>, managed: bool, w: World, e: Event)
    requires Faithful(server, peer, managed, w)
    ensures Sound(w) && EventReason(server, managed, w, e, React(server, managed, w, e))
  {
    hide Hears, Drive, Compose, Handle, ReadReason, Attentive, Rejected, Owes;
    if e == Ready && w.conn.phase.Listening? {
      var k := HandleReason(server, peer, managed, w);
    }
  }

  lemma {:induction false} RunSnoc(server: Server, managed: bool, w: World, events: seq<Event>, e: Event,
                                   peer: seq<byte>)
    requires Faithful(server, peer, managed, w)
    ensures var w' := Run(server, managed, w, events);
            && Faithful(server, peer, managed, w') && Sound(w')
            && Run(server, managed, w, events + [e]) == React(server, managed, w', e)
    decreases |events|
  {
    hide Faithful, React;
    SoundIfFaithful(server, peer, managed, w);
    ReactFaithful(server, peer, managed, w, e);
    if events == [] {
      assert ([] + [e])[1..] == [];
    } else {
      ReactFaithful(server, peer, managed, w, events[0]);
      RunSnoc(server, managed, React(server, managed, w, events[0]), events[1..], e, peer);
      assert (events + [e])[1..] == events[1..] + [e];
    }
    SoundIfFaithful(server, peer, managed, Run(server, managed, w, events));
  }

  /**
    Every event has its reason. At any moment of any run, whatever the next event: a connection that listens is kept
    while its request is incomplete and closed only for what the kernel has just answered, a settled request gets its
    verdict's reply, and a parked reply is sent on and leads to what was decided when it was said.
   */
  lemma EveryEventHasItsReason(server: Server, managed: bool, script: seq<Answer>, peer: seq<byte>,
                               events: seq<Event>, e: Event)
    ensures var w := Run(server, managed, Fresh(script, peer), events);
            Sound(w) && EventReason(server, managed, w, e, Run(server, managed, Fresh(script, peer), events + [e]))
  {
    hide EventReason, React, Run, Faithful;
    FreshFaithful(server, managed, script, peer);
    RunSnoc(server, managed, Fresh(script, peer), events, e, peer);
    ReactReason(server, peer, managed, Run(server, managed, Fresh(script, peer), events), e);
  }

  /** Why a connection is closed, told from what the kernel answered last and what was read. */
  predicate CloseReason(server: Server, managed: bool, script: seq<Answer>, events: seq<Event>, w: World)
    requires w.conn.phase.Closed? && |w.link.script| <= |script|
  {
    var heard, rest := w.link.heard, w.link.script;
    match w.conn.phase.cause
    case Decided => heard != [] && Hears(server, SILENCE, heard).over
    case PeerLeft =>
      && |rest| < |script| && LastUsed(script, rest).Count?
      && (LastUsed(script, rest).n == 0 || w.link.incoming == [])
    case Overflow => |Hears(server, SILENCE, heard).input| == BUFFER
    case Mute =>
      && heard != []
      && (match LastVerdict(server, heard)
          case Nothing => true
          case Complete(_, reply) => reply.Answer? && !(100 <= reply.response.status <= 599)
          case _ => false)
    case ReadFailed => |rest| < |script| && LastUsed(script, rest) == Fault
    case SendFailed => Refusal(script, rest, managed)
    case RearmFailed => |rest| < |script| && !LastUsed(script, rest).Count?
    case HungUp => HangUp in events
    case TimedOut => Expiry in events
  }

  lemma LeftOfSuffix(script: seq<Answer>, k: nat)
    requires k <= |script|
    ensures LeftOf(script, script[k..]) && (k > 0 ==> LastUsed(script, script[k..]) == script[k - 1])
  {
  }

  /** How a send that left `rest` of the script may have ended in a close. */
  predicate SendCloseReason(managed: bool, script: seq<Answer>, over: bool, rest: seq<Answer>, phase: Phase) {
    && LeftOf(script, rest)
    && (phase.Closed? ==> phase.cause in {Decided, SendFailed, RearmFailed})
    && (phase == Closed(Decided) ==> over)
    && (phase == Closed(SendFailed) ==> Refusal(script, rest, managed))
    && (phase == Closed(RearmFailed) ==> |rest| < |script| && !LastUsed(script, rest).Count?)
  }

  /** A send that has stopped short. */
  lemma StoppedCloses(managed: bool, script: seq<Answer>, over: bool, d: Drove, rest: seq<Answer>, phase: Phase)
    requires DriveReason(script, d, managed) && d.end != Sent
    requires if d.end == Cut then rest == [] else rest == d.rest
    requires if d.end == Lost then phase == Closed(SendFailed) else !phase.Closed?
    ensures SendCloseReason(managed, script, over, rest, phase)
  {
    hide Refusal;
    LeftOfSuffix(script, |script|);
  }

  /** A send that is out. */
  lemma SentCloses(managed: bool, script: seq<Answer>, over: bool, d: Drove, rest: seq<Answer>, phase: Phase)
    requires DriveReason(script, d, managed)
    requires rest == d.rest || rest == [] || (d.rest != [] && rest == d.rest[1..])
    requires phase.Closed? ==>
               || (phase == Closed(Decided) && over)
               || (d.rest != [] && rest == d.rest[1..] && phase == Closed(RearmFailed) && !d.rest[0].Count?)
    ensures SendCloseReason(managed, script, over, rest, phase)
  {
    hide Refusal;
    LeftOfSuffix(script, |script|);
    if d.rest != [] { RearmLast(script, d.rest); }
  }

  lemma SendCloses(managed: bool, script: seq<Answer>, output: seq<byte>, off: nat, parked: bool, over: bool, w: World)
    requires off <= |output| && SendLeads(managed, script, output, off, parked, over, w)
    ensures SendCloseReason(managed, script, over, w.link.script, w.conn.phase)
  {
    hide Drive, DriveReason, SendCloseReason;
    var d := Drive(script, |output| - off, managed);
    DriveStops(script, |output| - off, managed);
    if d.end == Sent {
      SentCloses(managed, script, over, d, w.link.script, w.conn.phase);
    } else {
      StoppedCloses(managed, script, over, d, w.link.script, w.conn.phase);
    }
  }

  /** Rearming uses one more answer. */
  lemma RearmLast(script: seq<Answer>, rest: seq<Answer>)
    requires LeftOf(script, rest) && rest != []
    ensures LeftOf(script, rest[1..]) && LastUsed(script, rest[1..]) == rest[0]
  {
  }

  lemma Leaves(script: seq<Answer>, rest: seq<Answer>)
    requires LeftOf(script, rest)
    ensures |rest| <= |script| && script[|script| - |rest|..] == rest
  {
  }

  /** An event that closes the connection leaves a reason in the answers it has used. */
  lemma EventCloses(server: Server, managed: bool, w: World, e: Event, w': World)
    requires Sound(w) && EventReason(server, managed, w, e, w') && !Finished(w.conn.phase)
    requires w'.conn.phase == Closed(Decided) ==> w'.link.heard != []
    ensures LeftOf(w.link.script, w'.link.script)
    ensures w'.conn.phase.Closed? ==> CloseReason(server, managed, w.link.script, [e], w')
  {
    hide Hears, SendLeads, ReadReason, LeftOf, LastVerdict, CloseReason;
    LeftOfSuffix(w.link.script, 0);
    if e == Ready {
      if w.conn.phase.Listening? {
        var k: nat :| ReadReason(server, managed, w, w', k);
        ReadCloses(server, managed, w, w', k);
      } else {
        ResumeCloses(server, managed, w, w');
      }
    } else {
      ShutCloses(server, managed, w, e, w');
    }
  }

  lemma ResumeCloses(server: Server, managed: bool, w: World, w': World)
    requires Sound(w) && w.conn.phase.Draining? && w'.link.heard == w.link.heard
    requires SendLeads(managed, w.link.script, w.conn.phase.output, w.conn.phase.off, true,
                       Hears(server, SILENCE, w.link.heard).over, w')
    requires w'.conn.phase == Closed(Decided) ==> w'.link.heard != []
    ensures LeftOf(w.link.script, w'.link.script)
    ensures w'.conn.phase.Closed? ==> CloseReason(server, managed, w.link.script, [Ready], w')
  {
    hide Hears, SendLeads, Refusal, LastVerdict;
    SendCloses(managed, w.link.script, w.conn.phase.output, w.conn.phase.off, true,
               Hears(server, SILENCE, w.link.heard).over, w');
  }

  lemma ShutCloses(server: Server, managed: bool, w: World, e: Event, w': World)
    requires (e == HangUp && w'.conn.phase == Closed(HungUp)) || (e == Expiry && w'.conn.phase == Closed(TimedOut))
    requires w'.link == w.link
    ensures CloseReason(server, managed, w.link.script, [e], w')
  {
    hide Hears, LastVerdict;
  }

  lemma ReadCloses(server: Server, managed: bool, w: World, w': World, k: nat)
    requires ReadReason(server, managed, w, w', k)
    requires w'.conn.phase == Closed(Decided) ==> w'.link.heard != []
    ensures LeftOf(w.link.script, w'.link.script)
    ensures w'.conn.phase.Closed? ==> CloseReason(server, managed, w.link.script, [Ready], w')
  {
    hide Compose, ErrorMessage, SendLeads, LeftOf, Hears, Render, LastVerdict;
    var script, heard' := w.link.script, w'.link.heard;
    LeftOfSuffix(script, k);
    if heard' != w.link.heard && !LastVerdict(server, heard').More? {
      match LastVerdict(server, heard')
      case Reject(tooLarge) =>
        ReplyCloses(server, managed, script, k, ErrorMessage(if tooLarge then 413 else 400), true, w');
      case Complete(policy, reply) =>
        var r := Render(server, reply, policy);
        if r.Some? {
          ReplyCloses(server, managed, script, k, r.value.message, r.value.policy == Close, w');
        } else {
          MuteIsInvalid(server, reply, policy);
        }
      case _ =>
    }
  }

  lemma MuteIsInvalid(server: Server, reply: Reply, policy: Policy)
    requires Render(server, reply, policy).None?
    ensures reply.Answer? && !(100 <= reply.response.status <= 599)
  {
    hide Compose, Whole, ErrorMessage;
  }

  lemma ReplyCloses(server: Server, managed: bool, script: seq<Answer>, k: nat, m: Message, over: bool, w': World)
    requires k <= |script| && SendLeads(managed, script[k..], Compose(m), 0, false, over, w')
    requires w'.link.heard != [] && !LastVerdict(server, w'.link.heard).More?
    requires over <==> Ends(server, LastVerdict(server, w'.link.heard))
    ensures LeftOf(script, w'.link.script)
    ensures w'.conn.phase.Closed? ==> CloseReason(server, managed, script, [Ready], w')
  {
    hide Compose, SendLeads, Hears, LastVerdict, Ends;
    OverIsSettled(server, w'.link.heard);
    SendCloses(managed, script[k..], Compose(m), 0, false, over, w');
    LeftOfTail(script, k, w'.link.script);
  }

  /** Whether a verdict other than that there is more to come ends the conversation. */
  predicate Ends(server: Server, v: Verdict) {
    if v.Complete? then
      var r := Render(server, v.reply, v.policy);
      r.None? || r.value.policy == Close
    else true
  }

  lemma OverIsSettled(server: Server, heard: seq<seq<byte>>)
    requires heard != [] && !LastVerdict(server, heard).More?
    ensures Hears(server, SILENCE, heard).over <==> Ends(server, LastVerdict(server, heard))
  {
    hide Render, ErrorMessage;
  }

  /**
    No close without a reason. However a run has gone, if the connection is closed then what the kernel answered last,
    or what was read, or an event from outside says why: a connection is not dropped because its request is still
    incomplete, because a read was interrupted or found nothing, or because a reply had to wait.
   */
  lemma {:induction false} ClosedForAReason(server: Server, managed: bool, script: seq<Answer>, peer: seq<byte>,
                                            events: seq<Event>)
    ensures var w := Run(server, managed, Fresh(script, peer), events);
            && LeftOf(script, w.link.script)
            && (w.conn.phase.Closed? ==> CloseReason(server, managed, script, events, w))
    decreases |events|
  {
    hide Run, EventReason, Hears, LastVerdict, React, CloseReason, Faithful, LeftOf;
    FreshFaithful(server, managed, script, peer);
    if events == [] {
      NothingRun(server, managed, Fresh(script, peer));
      LeftOfSuffix(script, 0);
    } else {
      var before, e := events[..|events| - 1], events[|events| - 1];
      assert events == before + [e];
      var w := Run(server, managed, Fresh(script, peer), before);
      var w' := Run(server, managed, Fresh(script, peer), events);
      ClosedForAReason(server, managed, script, peer, before);
      EveryEventHasItsReason(server, managed, script, peer, before, e);
      if Finished(w.conn.phase) {
        NothingChanges(server, managed, w, e, w');
        if w.conn.phase.Closed? {
          Leaves(script, w.link.script);
          ReasonRemains(server, managed, script, before, events, 0, w);
        }
      } else {
        WireRefinement(server, managed, script, peer, events);
        DecidedAfterHearing(server, peer, managed, w');
        EventCloses(server, managed, w, e, w');
        Leaves(script, w.link.script);
        var k := |script| - |w.link.script|;
        Leaves(w.link.script, w'.link.script);
        LeftOfTail(script, k, w'.link.script);
        if w'.conn.phase.Closed? { ReasonRemains(server, managed, script, [e], events, k, w'); }
      }
    }
  }

  /** A reason for a part of a run is one for the whole. */
  lemma ReasonRemains(server: Server, managed: bool, script: seq<Answer>, some: seq<Event>, events: seq<Event>, k: nat,
                      w: World)
    requires k <= |script| && w.conn.phase.Closed? && |w.link.script| <= |script[k..]|
    requires LeftOf(script[k..], w.link.script) && CloseReason(server, managed, script[k..], some, w)
    requires forall e :: e in some ==> e in events
    ensures CloseReason(server, managed, script, events, w)
  {
    hide Hears, LastVerdict;
    LeftOfTail(script, k, w.link.script);
  }

  lemma NothingRun(server: Server, managed: bool, w: World)
    ensures Sound(w) ==> Run(server, managed, w, []) == w
  {
  }

  lemma NothingChanges(server: Server, managed: bool, w: World, e: Event, w': World)
    requires Sound(w) && EventReason(server, managed, w, e, w') && Finished(w.conn.phase)
    ensures w' == w
  {
  }

  lemma DecidedAfterHearing(server: Server, peer: seq<byte>, managed: bool, w: World)
    requires Faithful(server, peer, managed, w)
    ensures w.conn.phase == Closed(Decided) ==> w.link.heard != []
  {
    hide Owes, Attentive;
  }

  /** How many requests were completed. */
  function Completed(server: Server, heard: seq<seq<byte>>): nat {
    if heard == [] then 0
    else Completed(server, heard[..|heard| - 1]) + if LastVerdict(server, heard).Complete? then 1 else 0
  }

  /** The count of requests that decides a client's timeout is that of those completed. */
  lemma ServedIsCompleted(server: Server, managed: bool, script: seq<Answer>, peer: seq<byte>, events: seq<Event>)
    ensures var w := Run(server, managed, Fresh(script, peer), events);
            w.conn.phase.Listening? || w.conn.phase.Draining? || w.conn.phase.Handed? ==>
              w.conn.served == Completed(server, w.link.heard)
  {
    hide Run, Hears, Attentive, Owes, Spoke, Rejected;
    var w := Run(server, managed, Fresh(script, peer), events);
    WireRefinement(server, managed, script, peer, events);
    TalkCounts(server, w.link.heard);
  }

  lemma {:induction false} TalkCounts(server: Server, heard: seq<seq<byte>>)
    ensures Hears(server, SILENCE, heard).served == Completed(server, heard)
  {
    hide Render, ErrorMessage;
    if heard != [] { TalkCounts(server, heard[..|heard| - 1]); }
  }

  // ----- a request in pieces is answered -----

  function Waits(answers: seq<Answer>): nat {
    if answers == [] then 0 else (if answers[0] == WouldBlock then 1 else 0) + Waits(answers[1..])
  }

  function Delivered(answers: seq<Answer>): nat {
    if answers == [] then 0 else (if answers[0].Count? then answers[0].n else 0) + Delivered(answers[1..])
  }

  /** Answers to reads of a peer that is slow, but neither fails nor leaves. */
  predicate Patient(answers: seq<Answer>) {
    forall i :: 0 <= i < |answers| ==> Delivering(answers[i]) || answers[i] == WouldBlock
  }

  /** The message is complete with its last byte and not before. */
  ghost predicate InOneGo(server: Server, request: seq<byte>) {
    && request != [] && |request| <= BUFFER && !server.judge(0, request).More?
    && forall k :: 0 < k < |request| ==> server.judge(0, request[..k]) == More
  }

  /** A first request of which `j` bytes have been read. */
  ghost predicate Partway(server: Server, managed: bool, request: seq<byte>, w: World, j: nat) {
    && j < |request| && Faithful(server, request, managed, w)
    && w.conn.phase == Listening(request[..j]) && w.conn.served == 0
    && Flatten(w.link.heard) == request[..j] && w.link.incoming == request[j..]
  }

  /** One event reads on until the request is complete or the socket is empty. */
  lemma {:induction false} HandleReadsOn(server: Server, managed: bool, request: seq<byte>, w: World, j: nat,
                                         answers: seq<Answer>, after: seq<Answer>)
    returns (j': nat, answers': seq<Answer>)
    requires InOneGo(server, request) && Partway(server, managed, request, w, j)
    requires w.link.script == answers + after && Patient(answers) && j + Delivered(answers) >= |request|
    ensures var w' := Handle(server, managed, w);
            || Flatten(w'.link.heard) == request
            || (&& Partway(server, managed, request, w', j') && w'.link.script == answers' + after && Patient(answers')
                && j' + Delivered(answers') >= |request| && Waits(answers') < Waits(answers))
    decreases |answers|
  {
    hide Hears, Faithful, Receive, Attentive, Fragment, Delivered, Waits, Patient, Partway, InOneGo;
    j', answers' := j, answers;
    FirstAnswer(server, managed, request, w, j, answers, after);
    var first, rest := answers[0], answers[1..];
    var taken := w.(link := Took(w.link, []));
    match first
    case Count(n) =>
      var data := Fragment(w);
      PartOf(w, request, j, n);
      if j + |data| == |request| {
        ReadsLast(server, managed, request, w, j, data);
      } else {
        ReadsSome(server, managed, request, w, j, data);
        var next := Receive(server, managed, w.(link := Took(w.link, data)), w.conn.phase.input + data);
        j', answers' := HandleReadsOn(server, managed, request, next, j + |data|, rest, after);
      }
    case Interrupted =>
      NoFragment(w);
      StillThere(server, managed, request, w, j);
      j', answers' := HandleReadsOn(server, managed, request, taken, j, rest, after);
    case WouldBlock =>
      NoFragment(w);
      StillThere(server, managed, request, w, j);
      answers' := rest;
    case Fault =>
  }

  /** What is known of the next answer. */
  lemma FirstAnswer(server: Server, managed: bool, request: seq<byte>, w: World, j: nat, answers: seq<Answer>,
                    after: seq<Answer>)
    requires InOneGo(server, request) && Partway(server, managed, request, w, j)
    requires w.link.script == answers + after && Patient(answers) && j + Delivered(answers) >= |request|
    ensures answers != [] && w.link.script[0] == answers[0] && w.link.script[1..] == answers[1..] + after
    ensures Patient(answers[1..]) && (Delivering(answers[0]) || answers[0] == WouldBlock)
    ensures Delivered(answers) == Delivered(answers[1..]) + (if answers[0].Count? then answers[0].n else 0)
    ensures Waits(answers) == Waits(answers[1..]) + (if answers[0] == WouldBlock then 1 else 0)
    ensures j < |request| <= BUFFER && w.conn.phase == Listening(request[..j]) && w.link.incoming == request[j..]
    ensures w.conn.served == 0
  {
    hide Faithful;
    assert forall i :: 0 <= i < |answers[1..]| ==> answers[1..][i] == answers[i + 1];
  }

  /** The last of the request. */
  lemma ReadsLast(server: Server, managed: bool, request: seq<byte>, w: World, j: nat, data: seq<byte>)
    requires InOneGo(server, request) && Partway(server, managed, request, w, j)
    requires w.link.script != [] && w.link.script[0].Count? && data == Fragment(w) && data == request[j..] && data != []
    ensures Flatten(Handle(server, managed, w).link.heard) == request
  {
    hide Hears, Faithful, Receive, Fragment;
    var taken, text := w.(link := Took(w.link, data)), request[..j] + data;
    assert text == request;
    FlattenSnoc(w.link.heard, data);
    ReceiveKeepsHeard(server, managed, taken, text);
  }

  /** Some of the rest. */
  lemma ReadsSome(server: Server, managed: bool, request: seq<byte>, w: World, j: nat, data: seq<byte>)
    requires InOneGo(server, request) && Partway(server, managed, request, w, j)
    requires w.link.script != [] && w.link.script[0].Count? && data == Fragment(w) && data != []
    requires j + |data| < |request| && data == request[j..j + |data|]
    ensures var next := Receive(server, managed, w.(link := Took(w.link, data)), w.conn.phase.input + data);
            && Partway(server, managed, request, next, j + |data|) && next.link.script == w.link.script[1..]
            && Handle(server, managed, w) == Handle(server, managed, next)
  {
    hide Hears, Faithful, Receive, Fragment;
    FragmentFits(w);
    assert request[..j] + data == request[..j + |data|];
    StillPartway(server, managed, request, w, j, data);
  }

  /** What a read brings of the rest of the request. */
  lemma PartOf(w: World, request: seq<byte>, j: nat, n: nat)
    requires j < |request| <= BUFFER && w.conn.phase == Listening(request[..j]) && w.link.incoming == request[j..]
    requires w.link.script != [] && w.link.script[0] == Count(n) && n > 0
    ensures var data := Fragment(w);
            && data == request[j..j + |data|] && 0 < |data| && j + |data| <= |request|
            && (j + |data| == |request| || |data| == n)
  {
  }

  lemma ReceiveKeepsHeard(server: Server, managed: bool, w: World, text: seq<byte>)
    ensures Receive(server, managed, w, text).link.heard == w.link.heard
  {
    hide Drive, Compose, Render, ErrorMessage;
  }

  lemma StillPartway(server: Server, managed: bool, request: seq<byte>, w: World, j: nat, data: seq<byte>)
    requires InOneGo(server, request) && Partway(server, managed, request, w, j) && w.link.script != []
    requires data != [] && data <= w.link.incoming && j + |data| < |request|
    requires |w.conn.phase.input + data| <= BUFFER
    ensures var w' := Receive(server, managed, w.(link := Took(w.link, data)), request[..j] + data);
            Partway(server, managed, request, w', j + |data|) && w'.link.script == w.link.script[1..]
  {
    hide Hears, Attentive, Owes;
    ReceiveFaithful(server, request, managed, w, data);
    assert request[..j] + data == request[..j + |data|];
    assert w.link.incoming[|data|..] == request[j + |data|..];
    FlattenSnoc(w.link.heard, data);
  }

  lemma StillThere(server: Server, managed: bool, request: seq<byte>, w: World, j: nat)
    requires Partway(server, managed, request, w, j) && w.link.script != []
    ensures Partway(server, managed, request, w.(link := Took(w.link, [])), j)
  {
    hide Hears, Attentive, Owes;
    NothingTaken(server, request, w.link);
    assert w.link.incoming[0..] == w.link.incoming;
  }

  lemma {:induction false} FriendlyRun(server: Server, managed: bool, request: seq<byte>, w: World, j: nat,
                                       answers: seq<Answer>, after: seq<Answer>, events: seq<Event>)
    requires InOneGo(server, request) && Partway(server, managed, request, w, j)
    requires w.link.script == answers + after && Patient(answers) && j + Delivered(answers) >= |request|
    requires forall i :: 0 <= i < |events| ==> events[i] == Ready
    ensures Sound(w)
    ensures var w' := Run(server, managed, w, events);
            || Flatten(w'.link.heard) == request
            || (w'.conn.phase.Listening? && Flatten(w'.link.heard) < request && |events| <= Waits(answers))
    decreases |events|
  {
    hide Handle, Partway, Faithful, InOneGo, Patient, Delivered, Waits;
    PartwayIs(server, managed, request, w, j);
    if events != [] {
      var w' := Handle(server, managed, w);
      assert React(server, managed, w, events[0]) == w';
      var j', answers' := HandleReadsOn(server, managed, request, w, j, answers, after);
      if Flatten(w'.link.heard) == request {
        HandleFaithful(server, request, managed, w);
        RunFaithful(server, request, managed, w', events[1..]);
        HeardAll(server, request, managed, w', events[1..]);
      } else {
        FriendlyRun(server, managed, request, w', j', answers', after, events[1..]);
      }
    }
  }

  lemma PartwayIs(server: Server, managed: bool, request: seq<byte>, w: World, j: nat)
    requires Partway(server, managed, request, w, j)
    ensures Sound(w) && w.conn.phase.Listening? && Faithful(server, request, managed, w)
    ensures Flatten(w.link.heard) < request
  {
    hide Hears, Attentive, Owes;
  }

  /** Once everything the peer sends has been read, it stays so. */
  lemma {:induction false} HeardAll(server: Server, peer: seq<byte>, managed: bool, w: World, events: seq<Event>)
    requires Faithful(server, peer, managed, w) && Flatten(w.link.heard) == peer
    ensures Sound(w) && Flatten(Run(server, managed, w, events).link.heard) == peer
    decreases |events|
  {
    hide Faithful, React, EventReason;
    SoundIfFaithful(server, peer, managed, w);
    if events != [] {
      var w' := React(server, managed, w, events[0]);
      ReactFaithful(server, peer, managed, w, events[0]);
      ReactReason(server, peer, managed, w, events[0]);
      HeardGrows(server, managed, w, events[0], w');
      AllHeard(server, peer, managed, w, w');
      HeardAll(server, peer, managed, w', events[1..]);
    }
  }

  lemma HeardGrows(server: Server, managed: bool, w: World, e: Event, w': World)
    requires Sound(w) && EventReason(server, managed, w, e, w')
    ensures w.link.heard <= w'.link.heard
  {
    hide Hears, SendLeads, LastVerdict, Compose, Render, ErrorMessage;
  }

  lemma AllHeard(server: Server, peer: seq<byte>, managed: bool, w: World, w': World)
    requires Faithful(server, peer, managed, w) && Faithful(server, peer, managed, w')
    requires Flatten(w.link.heard) == peer && w.link.heard <= w'.link.heard
    ensures Flatten(w'.link.heard) == peer
  {
    hide Hears, Owes;
    FlattenGrows(w.link.heard, w'.link.heard);
  }

  lemma {:induction false} FlattenGrows(some: seq<seq<byte>>, all: seq<seq<byte>>)
    requires some <= all
    ensures Flatten(some) <= Flatten(all)
    decreases |all|
  {
    if all == some {
    } else {
      var front, last := all[..|all| - 1], all[|all| - 1];
      FlattenGrows(some, front);
      FlattenSnoc(front, last);
      assert all == front + [last];
    }
  }

  /**
    A request in pieces is answered. Its verdict comes with its last byte; it arrives over any number of events, cut
    anywhere, with interruptions and empty sockets in between, from a peer that neither fails nor leaves. As long as it
    is incomplete the connection is kept; it is complete at the latest when there have been more events than empty
    sockets; and then what has been said is what the verdict on the whole request demands.
   */
  lemma RequestInPieces(server: Server, managed: bool, request: seq<byte>, answers: seq<Answer>, after: seq<Answer>,
                        events: seq<Event>)
    requires InOneGo(server, request) && Patient(answers) && Delivered(answers) >= |request|
    requires forall i :: 0 <= i < |events| ==> events[i] == Ready
    ensures var w := Run(server, managed, Fresh(answers + after, request), events);
            if Flatten(w.link.heard) == request then
              Hears(server, SILENCE, w.link.heard) == Hear(server, SILENCE, request)
            else w.conn.phase.Listening? && w.link.wire == [] && |events| <= Waits(answers)
  {
    hide Run, Hear, Waits, Delivered, Compose;
    var w0 := Fresh(answers + after, request);
    FreshFaithful(server, managed, answers + after, request);
    assert request[..0] == [] && request[0..] == request && Flatten([]) == [];
    FriendlyRun(server, managed, request, w0, 0, answers, after, events);
    RunFaithful(server, request, managed, w0, events);
    var w := Run(server, managed, w0, events);
    if Flatten(w.link.heard) == request {
      assert w.link.heard != [];
      assert SILENCE.input + request == request;
      forall k | 0 < k < |request| ensures server.judge(SILENCE.served, SILENCE.input + request[..k]) == More {
        assert SILENCE.input + request[..k] == request[..k];
      }
      HeardFilled(server, request, managed, w);
      FragmentationInvisible(server, SILENCE, w.link.heard);
    } else {
      SilentSoFar(server, managed, request, w);
    }
  }

  lemma HeardFilled(server: Server, peer: seq<byte>, managed: bool, w: World)
    requires Faithful(server, peer, managed, w)
    ensures forall i :: 0 <= i < |w.link.heard| ==> w.link.heard[i] != []
  {
    hide Hears, Owes;
  }

  /** Nothing is said to an incomplete request. */
  lemma SilentSoFar(server: Server, managed: bool, request: seq<byte>, w: World)
    requires InOneGo(server, request) && Faithful(server, request, managed, w)
    requires w.conn.phase.Listening? && Flatten(w.link.heard) < request
    ensures w.link.wire == []
  {
    hide Hear, Compose;
    HeardFilled(server, request, managed, w);
    var text := Flatten(w.link.heard);
    if w.link.heard != [] {
      FlattenFilled(w.link.heard);
      forall k | 0 < k < |text| ensures server.judge(SILENCE.served, SILENCE.input + text[..k]) == More {
        assert SILENCE.input + text[..k] == request[..k];
      }
      FragmentationInvisible(server, SILENCE, w.link.heard);
      assert SILENCE.input + text == request[..|text|];
      MoreIsSilent(server, text);
    }
  }

  lemma MoreIsSilent(server: Server, text: seq<byte>)
    requires server.judge(0, [] + text) == More
    ensures Hear(server, SILENCE, text).said == []
  {
    hide Render, ErrorMessage;
  }

  // ----- the end of a connection -----

  /** What is left of a connection that says no more than `said`: the last of it is being sent, parked, or decided. */
  ghost predicate Finishing(w: World, said: seq<Message>) {
    match w.conn.phase
    case Draining(output, off, _) => Mid(w.link.wire, said, output, off) && w.conn.policy == Close
    case Sending(output, off) => Mid(w.link.wire, said, output, off)
    case Closed(cause) =>
      if CutByForce(cause) then exists left: nat :: Owes(w.link.wire, said, left) else Owes(w.link.wire, said, 0)
    case _ => false
  }

  lemma TransmitFinishes(managed: bool, w: World, said: seq<Message>, output: seq<byte>, off: nat, stale: nat,
                         after: Phase)
    requires off <= |output| && Mid(w.link.wire, said, output, off) && w.conn.policy == Close
    requires after == Closed(Decided) || after == Sending(output, |output|)
    ensures Finishing(Transmit(managed, w, output, off, stale, after), said)
  {
    hide Drive, Stream, Compose;
    MidAdvance(w.link.wire, said, output, off, Drive(w.link.script, |output| - off, managed).sent);
  }

  lemma {:induction false} FinishingRun(server: Server, managed: bool, w: World, events: seq<Event>, said: seq<Message>)
    requires Finishing(w, said)
    ensures Sound(w) && Finishing(Run(server, managed, w, events), said)
    decreases |events|
  {
    hide Stream, Compose, Handle, Drive;
    if events != [] {
      if w.conn.phase.Draining? {
        var p := w.conn.phase;
        TransmitFinishes(managed, w, said, p.output, p.off, p.stale, Sending(p.output, |p.output|));
      }
      FinishingRun(server, managed, React(server, managed, w, events[0]), events[1..], said);
    }
  }

  // ----- the deferred decision to close -----

  /**
    While a response is parked, something is left to send, it fits the buffer, the connection belongs to a reactor, and
    no request byte is counted in the buffer unless the parser rejected the request, in which case the connection
    closes.
   */
  lemma DeferredClose(server: Server, managed: bool, script: seq<Answer>, peer: seq<byte>, events: seq<Event>)
    ensures var w := Run(server, managed, Fresh(script, peer), events);
            w.conn.phase.Draining? ==>
              && managed && w.conn.phase.off < |w.conn.phase.output| <= BUFFER
              && (w.conn.phase.stale == 0 <==> !Rejected(server, w.link.heard))
              && (w.conn.phase.stale > 0 ==> w.conn.policy == Close)
  {
    hide Hears, Run, Rejected, Stream, Compose, Attentive;
    WireRefinement(server, managed, script, peer, events);
  }

  /** The receive count is not always zero while a response is parked: a rejected request leaves its own behind. */
  lemma StaleWhileDraining() returns (server: Server, script: seq<Answer>, peer: seq<byte>)
    ensures var w := Run(server, true, Fresh(script, peer), [Ready]);
            w.conn.phase.Draining? && w.conn.phase.stale == 1
  {
    hide Compose, ErrorMessage;
    server, script, peer := Server((n, text) => Reject(false), 0), [Count(1), WouldBlock, Count(0)], [0];
    var w := Fresh(script, peer);
    var w' := w.(link := Took(w.link, [0]));
    ErrorFits(400);
    assert Fragment(w) == [0];
    assert [] + [0] == [0];
    assert Drive(w'.link.script, |Compose(ErrorMessage(400))|, true) == Drove(0, [], Parked);
    assert React(server, true, w, Ready) == Receive(server, true, w', [0]);
    assert Run(server, true, w, [Ready]) == React(server, true, w, Ready);
  }

  // ----- what the client is told -----

  lemma {:induction false} NoComma(s: seq<byte>)
    requires forall i :: 0 <= i < |s| ==> s[i] != COMMA
    ensures Find(s, COMMA) == None
  {
    if s != [] { NoComma(s[1..]); }
  }

  /** A value without blanks around it and without commas is its own one element. */
  lemma OneElement(s: seq<byte>)
    requires s != [] && IsFieldValue(s) && forall i :: 0 <= i < |s| ==> s[i] != COMMA
    ensures Elements(s) == [s]
  {
    NoComma(s);
  }

  lemma PlainWords()
    ensures SameText("close", "close") && SameText("Connection", "connection")
    ensures forall i :: 0 <= i < 5 ==> Ascii("close")[i] != COMMA
    ensures forall i :: 0 <= i < 10 ==> Ascii("keep-alive")[i] != COMMA
  {
  }

  /** The server's own Connection field says close exactly if it is meant to. */
  lemma OwnConnection(keepAlive: bool)
    ensures SaysClose(Connection(keepAlive)) <==> !keepAlive
  {
    hide Elements, IsToken, IsFieldValue, Ascii, Spells, TokenText, SameText;
    var h := Connection(keepAlive);
    PlainWords();
    KeepAliveText();
    ConnectionText();
    TokenTextIsToken("keep-alive");
    TokenTextIsToken("close");
    OneElement(h.value);
    SameTextSpells("Connection", "connection");
    SameTextSpells("close", "close");
    OtherLengthSpells(Ascii("keep-alive"), "close");
    assert Elements(h.value)[0] == h.value;
  }

  /** None of its other fields does. */
  lemma OtherFields(n: nat, t: seq<byte>)
    ensures !SaysClose(ContentLength(n)) && !SaysClose(ContentType(t))
  {
    hide Elements, Named, Decimal;
    OtherLength(ContentLength(n), "connection");
    OtherLength(ContentType(t), "connection");
  }

  /**
    A response announces a close if the server means it to, or if the application has said so in a field of its own.
   */
  lemma WholeAnnounces(r: Response, keepAlive: bool)
    ensures AnnouncesClose(Whole(r, keepAlive)) <==> !keepAlive || AnyClose(r.headers)
  {
    hide SaysClose, ContentLength, Connection, ContentType;
    OwnConnection(keepAlive);
    OtherFields(|r.body|, if r.contentType.Some? then r.contentType.value else []);
    var fields, own := Fields(r, keepAlive), 2 + |TypeField(r)|;
    assert fields[1] == Connection(keepAlive);
    assert forall i :: 0 <= i < own && i != 1 ==> !SaysClose(fields[i]);
    if AnyClose(r.headers) {
      var i :| 0 <= i < |r.headers| && SaysClose(r.headers[i]);
      assert fields[own + i] == r.headers[i];
    }
    if AnyClose(fields) {
      var i :| 0 <= i < |fields| && SaysClose(fields[i]);
      if i >= own { assert r.headers[i - own] == fields[i]; }
    }
  }

  lemma ErrorAnnounces(status: nat)
    ensures AnnouncesClose(ErrorMessage(status))
  {
    hide SaysClose, Connection, Ascii, ErrorText;
    OwnConnection(false);
    assert ErrorMessage(status).fields[2] == Connection(false);
  }

  /** What the application says of the connection itself, within the fields that are sent. */
  predicate SaysCloseItself(reply: Reply, maxHeaders: nat) {
    reply.Answer? && AnyClose(Trimmed(reply.response, maxHeaders).headers)
  }

  /**
    What the Connection fields of a reply announce is what the server will decide once it is sent, if and only if the
    request left a policy and, if that is to stay, no field of the application's own announces a close. Without a policy
    the reply says close and the connection stays.
   */
  lemma HeaderMatchesDecision(server: Server, reply: Reply, policy: Policy)
    ensures var r := Render(server, reply, policy);
            r.Some? ==>
              && ((AnnouncesClose(r.value.message) <==> After(r.value.policy) == Closed(Decided)) <==>
                  || r.value.policy == Close
                  || (r.value.policy == KeepAlive && !SaysCloseItself(reply, server.maxHeaders)))
              && (r.value.policy == policy || r.value.policy == Close)
  {
    hide Compose, Whole, ErrorMessage, AnnouncesClose, AnyClose;
    match reply
    case Refuse(status) => ErrorAnnounces(status);
    case Answer(r) =>
      ErrorAnnounces(500);
      WholeAnnounces(Trimmed(r, server.maxHeaders), policy == KeepAlive);
  }

  /** A response that can be read back, tells the client to expect the close, and leaves the server waiting. */
  lemma ApplicationSaysClose(server: Server)
    requires server.maxHeaders > 0
    ensures var response := Response(200, None, [Connection(false)], []);
            var r := Render(server, Answer(response), KeepAlive);
            && Readable(Trimmed(response, server.maxHeaders)) && r.Some? && r.value.policy == KeepAlive
            && AnnouncesClose(r.value.message) && After(r.value.policy).Listening?
  {
    hide Compose, Ascii, AnyClose, Named, FieldLines, IsToken, IsFieldValue, Lengths, CleanHeader;
    var response := Response(200, None, [Connection(false)], []);
    assert Trimmed(response, server.maxHeaders) == response;
    OwnConnection(false);
    AnyCloseHere([Connection(false)], 0);
    WholeAnnounces(response, true);
    OwnFields(0, false);
    NoLengths(Connection(false));
    BareFits(true, Connection(false));
  }

  /** A response of nothing but one short field. */
  lemma BareFits(keepAlive: bool, h: Header)
    requires |h.name| + |h.value| < 100
    ensures |Compose(Whole(Response(200, None, [h], []), keepAlive))| < BUFFER
  {
    hide Compose, Ascii, Decimal, FieldLines, FieldText, Reason;
    var fields := Fields(Response(200, None, [h], []), keepAlive);
    assert fields == [ContentLength(0), Connection(keepAlive), h];
    ReasonLength(200);
    DecimalLength(0, 1);
    FieldLinesCons(fields);
    FieldLinesCons(fields[1..]);
    FieldLinesCons(fields[2..]);
    assert fields[1..][1..] == fields[2..] && fields[2..][1..] == [];
    FieldTextLength(fields[0]);
    FieldTextLength(fields[1]);
    FieldTextLength(h);
    NoFieldLines();
    ComposeLength(Whole(Response(200, None, [h], []), keepAlive));
  }

  lemma AnyCloseHere(fields: seq<Header>, i: nat)
    requires i < |fields| && SaysClose(fields[i])
    ensures AnyClose(fields)
  {
  }

  lemma NoLengths(h: Header)
    requires !Named(h, "content-length")
    ensures Lengths([h]) == []
  {
    assert [h][1..] == [];
  }

  /** Whether the last verdict is one whose reply the header speaks truly of. */
  predicate SpeaksTruly(server: Server, v: Verdict) {
    v.Reject? || (v.Complete? &&
      var r := Render(server, v.reply, v.policy);
      r.Some? && (r.value.policy == Close
                  || (r.value.policy == KeepAlive && !SaysCloseItself(v.reply, server.maxHeaders))))
  }

  /**
    The server keeps its word. At every moment of every run at which the last reply is out whole and the connection
    either listens again or has been closed for it: the client was told close if and only if it is closed, exactly for
    those replies whose header speaks truly. This holds of replies that were parked and resumed as of any others.
   */
  lemma KeepsItsWord(server: Server, managed: bool, script: seq<Answer>, peer: seq<byte>, events: seq<Event>)
    ensures var w := Run(server, managed, Fresh(script, peer), events);
            var said := Hears(server, SILENCE, w.link.heard).said;
            w.link.heard != [] && !LastVerdict(server, w.link.heard).More?
            && (w.conn.phase.Listening? || w.conn.phase == Closed(Decided)) ==>
              && said != [] && Owes(w.link.wire, said, 0)
              && ((AnnouncesClose(Last(said)) <==> w.conn.phase == Closed(Decided))
                  <==> SpeaksTruly(server, LastVerdict(server, w.link.heard)))
  {
    hide Run, Compose, AnnouncesClose, Attentive, Owes, Hear, SpeaksTruly, LastVerdict, Render;
    var w := Run(server, managed, Fresh(script, peer), events);
    WireRefinement(server, managed, script, peer, events);
    if w.link.heard != [] { LastReply(server, w.link.heard); }
  }

  /** The last reply and whether it was meant to be the last. */
  lemma LastReply(server: Server, heard: seq<seq<byte>>)
    requires heard != []
    ensures var v, t := LastVerdict(server, heard), Hears(server, SILENCE, heard);
            && (v.Nothing? || v.Claim? ==> t.over)
            && (!t.over && !v.More? ==> t.said != [] && (AnnouncesClose(Last(t.said)) <==> !SpeaksTruly(server, v)))
            && (t.over && (v.Reject? || (v.Complete? && Render(server, v.reply, v.policy).Some?)) ==>
                  t.said != [] && AnnouncesClose(Last(t.said)) && SpeaksTruly(server, v))
  {
    hide Compose, Whole, ErrorMessage, AnnouncesClose, AnyClose, Render;
    var v := LastVerdict(server, heard);
    match v
    case Reject(tooLarge) => ErrorAnnounces(if tooLarge then 413 else 400);
    case Complete(policy, reply) => HeaderMatchesDecision(server, reply, policy);
    case _ =>
  }

  // ----- what the client at the other end reads -----

  /** Reads responses off a stream for as long as they are complete. */
  function ReadAll(s: seq<byte>): seq<Message>
    decreases |s|
  {
    match Parse(s)
    case Got(m, rest) => if |rest| < |s| then [m] + ReadAll(rest) else []
    case _ => []
  }

  predicate AllFramed(said: seq<Message>) {
    forall i :: 0 <= i < |said| ==> Framed(said[i])
  }

  lemma {:induction false} StreamCons(said: seq<Message>)
    requires said != []
    ensures Stream(said) == Compose(said[0]) + Stream(said[1..])
  {
    hide Compose;
    if |said| > 1 {
      StreamCons(said[..|said| - 1]);
      assert said[..|said| - 1][1..] == said[1..][..|said| - 2];
    } else {
      assert said[..0] == [] && said[1..] == [];
    }
  }

  lemma {:induction false} ReadsStream(said: seq<Message>, tail: seq<byte>)
    requires AllFramed(said) && ReadAll(tail) == []
    ensures ReadAll(Stream(said) + tail) == said
  {
    hide Compose, Parse, Framed;
    if said == [] {
      assert Stream(said) + tail == tail;
    } else {
      var rest := Stream(said[1..]) + tail;
      StreamCons(said);
      assert Stream(said) + tail == Compose(said[0]) + rest;
      ReadsOne(said[0], rest);
      ReadsStream(said[1..], tail);
    }
  }

  lemma ReadsOne(m: Message, rest: seq<byte>)
    requires Framed(m)
    ensures ReadAll(Compose(m) + rest) == [m] + ReadAll(rest)
  {
    hide Compose, Parse, Reason, FieldLines, BodyLength, CleanHeaders;
    MessageRoundTrip(m, rest);
    ComposeLength(m);
  }

  lemma ReadsNone(m: Message, k: nat)
    requires Framed(m) && k < |Compose(m)|
    ensures ReadAll(Compose(m)[..k]) == []
  {
    hide Compose, Parse, Framed;
    CutMessageIsIncomplete(m, k);
  }

  lemma ReadsNothing()
    ensures ReadAll([]) == []
  {
    NothingParsed([]);
  }

  /** A client reads exactly what was said, less the last message if that is cut short. */
  lemma ClientReads(wire: seq<byte>, said: seq<Message>, left: nat)
    requires Owes(wire, said, left) && AllFramed(said)
    ensures ReadAll(wire) == if left == 0 then said else said[..|said| - 1]
  {
    hide Compose, Parse, Framed, ReadAll;
    if left == 0 {
      ReadsNothing();
      ReadsStream(said, []);
      assert wire == Stream(said) && Stream(said) + [] == Stream(said);
    } else {
      var before, last := said[..|said| - 1], Compose(Last(said));
      var k := |last| - left;
      ReadsNone(Last(said), k);
      ReadsStream(before, last[..k]);
      assert Stream(said) == Stream(before) + last;
      assert wire == Stream(before) + last[..k];
    }
  }

  /** An application whose responses can all be read back. */
  ghost predicate Courteous(server: Server) {
    forall n: nat, text: seq<byte> ::
      var v := server.judge(n, text);
      v.Complete? && v.reply.Answer? ==> Readable(Trimmed(v.reply.response, server.maxHeaders))
  }

  lemma ErrorFramed(status: nat)
    ensures Framed(ErrorMessage(status))
  {
    hide Ascii, Decimal, ParseDecimal, Named, IsToken, IsFieldValue, IsLength, ErrorText;
    hide Lengths;
    var m := ErrorMessage(status);
    var n, json := |m.body|, Ascii("application/json");
    OwnFields(n, false);
    TypeFieldNames(json);
    JsonValue();
    ErrorLengths(n);
    DecimalRoundTrip(n);
  }

  lemma ErrorLengths(n: nat)
    ensures Lengths(ErrorFields(n)) == [Decimal(n)]
  {
    hide Named, Decimal, Ascii, Connection, ContentType, IsLength;
    var fields := ErrorFields(n);
    LengthNamed(ContentLength(n));
    LengthNamed(ContentType(Ascii("application/json")));
    LengthNamed(Connection(false));
    OwnFields(n, false);
    TypeFieldNames(Ascii("application/json"));
    assert fields[1..] == [fields[1], fields[2]] && fields[1..][1..] == [fields[2]];
    assert [fields[2]][1..] == [];
    assert Lengths([fields[2]]) == [];
    assert Lengths(fields[1..]) == [];
  }

  lemma LengthNamed(h: Header)
    ensures IsLength(h) <==> Named(h, "content-length")
  {
  }

  lemma JsonText()
    ensures Printable("application/json")
  {
  }

  lemma JsonValue()
    ensures IsFieldValue(Ascii("application/json"))
  {
    hide Printable;
    JsonText();
    PrintableIsOneLine("application/json");
    assert Ascii("application/json")[0] == 97;
    assert Ascii("application/json")[15] == 110;
  }

  lemma RenderFramed(server: Server, n: nat, text: seq<byte>)
    requires Courteous(server)
    ensures var v := server.judge(n, text);
            v.Complete? ==> var r := Render(server, v.reply, v.policy); r.Some? ==> Framed(r.value.message)
  {
    hide Compose, Whole, ErrorMessage, Framed, Readable;
    var v := server.judge(n, text);
    if v.Complete? {
      match v.reply
      case Refuse(status) => ErrorFramed(status);
      case Answer(r) =>
        ErrorFramed(500);
        if 100 <= r.status <= 599 { WholeFramed(Trimmed(r, server.maxHeaders), v.policy == KeepAlive); }
    }
  }

  lemma WholeFramed(r: Response, keepAlive: bool)
    requires 100 <= r.status <= 599 && Readable(r)
    ensures Framed(Whole(r, keepAlive))
  {
    hide Parse, Compose, Readable, Framed;
    ResponseRoundTrip(r, keepAlive, []);
    MessageRoundTrip(Whole(r, keepAlive), []);
  }

  lemma {:induction false} SaidIsFramed(server: Server, heard: seq<seq<byte>>)
    requires Courteous(server)
    ensures AllFramed(Hears(server, SILENCE, heard).said)
    decreases |heard|
  {
    hide Framed, Render, ErrorMessage, Courteous;
    if heard != [] {
      var before, data := heard[..|heard| - 1], heard[|heard| - 1];
      SaidIsFramed(server, before);
      var t := Hears(server, SILENCE, before);
      RenderFramed(server, t.served, t.input + data);
      ErrorFramed(400);
      ErrorFramed(413);
    }
  }

  /**
    Nothing that was said is outstanding: the server listens, has handed a request over, or closed of its own accord.
   */
  predicate AllOut(phase: Phase) {
    phase.Listening? || phase.Handed? || (phase.Closed? && !CutByForce(phase.cause))
  }

  /**
    End to end: whatever the schedule, a client that reads the wire by RFC 9112 gets the very messages that were said,
    in order, and all of them whenever the server is listening again or has closed of its own accord.
   */
  lemma ClientReadsReplies(server: Server, managed: bool, script: seq<Answer>, peer: seq<byte>, events: seq<Event>)
    requires Courteous(server)
    ensures var w := Run(server, managed, Fresh(script, peer), events);
            var said, got := Hears(server, SILENCE, w.link.heard).said, ReadAll(w.link.wire);
            && (got == said || (said != [] && got == said[..|said| - 1]))
            && (AllOut(w.conn.phase) ==> got == said)
  {
    hide Hears, Run, Stream, Compose, Attentive, ReadAll, AllFramed, Rejected, Courteous;
    var w := Run(server, managed, Fresh(script, peer), events);
    var said := Hears(server, SILENCE, w.link.heard).said;
    WireRefinement(server, managed, script, peer, events);
    SaidIsFramed(server, w.link.heard);
    var left := Debt(server, peer, managed, w);
    ClientReads(w.link.wire, said, left);
  }

  /** The same for the end of a connection that says no more than `said`. */
  lemma ClientReadsFinish(w: World, said: seq<Message>)
    requires Finishing(w, said) && AllFramed(said)
    ensures var got := ReadAll(w.link.wire);
            && (got == said || (said != [] && got == said[..|said| - 1]))
            && (AllOut(w.conn.phase) ==> got == said)
  {
    hide Owes, Compose, Framed, ReadAll, AllFramed;
    match w.conn.phase
    case Draining(output, off, _) => ClientReads(w.link.wire, said, |output| - off);
    case Sending(output, off) => ClientReads(w.link.wire, said, |output| - off);
    case Closed(cause) =>
      var left: nat :| Owes(w.link.wire, said, left) && (!CutByForce(cause) ==> left == 0);
      ClientReads(w.link.wire, said, left);
      NothingSaid(w.link.wire, said, left);
  }

  lemma NothingSaid(wire: seq<byte>, said: seq<Message>, left: nat)
    requires Owes(wire, said, left)
    ensures said == [] ==> left == 0
  {
  }

  lemma Debt(server: Server, peer: seq<byte>, managed: bool, w: World) returns (left: nat)
    requires Faithful(server, peer, managed, w)
    ensures Owes(w.link.wire, Hears(server, SILENCE, w.link.heard).said, left)
    ensures AllOut(w.conn.phase) ==> left == 0
  {
    hide Hears, Owes, Compose, Attentive, Rejected;
    var said := Hears(server, SILENCE, w.link.heard).said;
    match w.conn.phase
    case Listening(_) => left := 0;
    case Handed(_) => left := 0;
    case Draining(output, off, _) => left := |output| - off;
    case Sending(output, off) => left := |output| - off;
    case Closed(cause) =>
      if CutByForce(cause) { left :| Owes(w.link.wire, said, left); } else { left := 0; }
  }

  // ----- fragmentation -----

  /** A request that is complete only with its last byte is judged the same however it arrives. */
  lemma {:induction false} FragmentationInvisible(server: Server, t: Talk, fragments: seq<seq<byte>>)
    requires !t.over && fragments != [] && forall i :: 0 <= i < |fragments| ==> fragments[i] != []
    requires var text := Flatten(fragments);
             forall k :: 0 < k < |text| ==> server.judge(t.served, t.input + text[..k]) == More
    ensures Hears(server, t, fragments) == Hear(server, t, Flatten(fragments))
    decreases |fragments|
  {
    hide Render;
    var text, before, data := Flatten(fragments), fragments[..|fragments| - 1], fragments[|fragments| - 1];
    assert fragments == before + [data];
    FlattenSnoc(before, data);
    var head := Flatten(before);
    assert text == head + data;
    if before == [] {
      assert head == [] && [] + data == data;
      assert Hears(server, t, []) == t;
    } else {
      forall k | 0 < k < |head| ensures server.judge(t.served, t.input + head[..k]) == More {
        assert head[..k] == text[..k];
      }
      FragmentationInvisible(server, t, before);
      FlattenFilled(before);
      assert text[..|head|] == head;
      assert (t.input + head) + data == t.input + text;
    }
  }

  lemma FlattenFilled(ss: seq<seq<byte>>)
    requires ss != [] && ss[0] != []
    ensures Flatten(ss) != []
  {
  }
}

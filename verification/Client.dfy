/**
  The client object of an operator slot, as client.c and response_writer.c update it: one buffer serves for receiving
  and for sending, and a parked response lives in it until the socket takes the rest. Every method is proved to follow
  the protocol of Exchange step for step, so what is proved there of every run holds of this object's socket.
 */
module ClientObject {
  import opened Bytes
  import opened Options
  import opened Text
  import opened Kernel
  import opened HttpMessage
  import opened Exchange

  /**
    STATUS_SUCCESS, STATUS_FAILURE, still inside the call when the run ended, or at the point where the pump takes
    over.
   */
  datatype Status = Success | Failure | Pending | Taken

  function StatusOf(phase: Phase): Status {
    match phase
    case Closed(_) => Failure
    case Sending(_, _) => Pending
    case Handed(_) => Taken
    case _ => Success
  }

  class Client {
    const buf: array<byte>
    const sock: Socket
    const server: Server
    /** Whether the descriptor belongs to an operator's reactor; those of the upload pool do not. */
    const managed: bool
    var bufIdx: nat
    var policy: Policy
    var served: nat
    var draining: bool
    var sendOff: nat
    var sendLen: nat
    var isBusy: bool
    /** What the descriptor is registered for: writing if true, reading if false. */
    var armedOut: bool

    ghost predicate Idle()
      reads this`draining, this`sendOff, this`sendLen
    {
      !draining && sendOff == 0 && sendLen == 0
    }

    /** The invariant of client_t: the send state is either clear or that of a parked response. */
    ghost predicate Valid()
      reads this
    {
      && buf.Length == BUFFER && bufIdx <= BUFFER && isBusy && armedOut == draining
      && if draining then managed && sendOff < sendLen <= BUFFER && (bufIdx > 0 ==> policy == Close) else Idle()
    }

    ghost predicate Linked(link: Link)
      reads sock
    {
      link == Link(sock.script, sock.incoming, sock.heard, sock.wire)
    }

    /** What the fields mean to the protocol. */
    ghost function View(): World
      requires Valid()
      reads this, buf, sock
    {
      World(
        Link(sock.script, sock.incoming, sock.heard, sock.wire),
        Conn(if draining then Draining(buf[..sendLen], sendOff, bufIdx) else Listening(buf[..bufIdx]), policy, served))
    }

    constructor (sock: Socket, server: Server, managed: bool)
      requires sock.heard == [] && sock.wire == []
      ensures Valid() && fresh(buf) && this.sock == sock && this.server == server && this.managed == managed
      ensures View() == Fresh(sock.script, sock.incoming)
    {
      this.sock, this.server, this.managed := sock, server, managed;
      buf := new byte[BUFFER];
      bufIdx, policy, served, draining, sendOff, sendLen, isBusy, armedOut := 0, Unset, 0, false, 0, 0, true, false;
    }

    // ----- writing into the buffer -----

    /** snprintf at `off`: what does not fit is cut, and the length of the whole is returned. */
    method Print(off: nat, text: seq<byte>) returns (n: nat)
      requires buf.Length == BUFFER && off < BUFFER
      modifies buf
      ensures n == |text| && buf[..off] == old(buf[..off])
      ensures n < BUFFER - off ==> buf[off..off + n] == text
    {
      n := |text|;
      var k := Min(n, BUFFER - off - 1);
      forall i | 0 <= i < k { buf[off + i] := text[i]; }
      buf[off + k] := 0;
      assert forall i :: 0 <= i < off ==> buf[i] == old(buf[i]);
      assert forall i :: 0 <= i < k ==> buf[off + i] == text[i];
    }

    /** memcpy into the buffer. */
    method Copy(off: nat, data: seq<byte>)
      requires buf.Length == BUFFER && off + |data| <= BUFFER
      modifies buf
      ensures buf[..off] == old(buf[..off]) && buf[off..off + |data|] == data
      ensures buf[off + |data|..] == old(buf[off + |data|..])
    {
      forall i | 0 <= i < |data| { buf[off + i] := data[i]; }
      assert forall i :: 0 <= i < off ==> buf[i] == old(buf[i]);
      assert forall i :: 0 <= i < |data| ==> buf[off + i] == data[i];
      assert forall i :: off + |data| <= i < BUFFER ==> buf[i] == old(buf[i]);
    }

    /** Appends `text` if snprintf can; `done` is what has been written so far. */
    method Append(off: nat, text: seq<byte>, ghost done: seq<byte>) returns (fits: bool, end: nat)
      requires buf.Length == BUFFER && off < BUFFER && buf[..off] == done
      modifies buf
      ensures fits == (|done + text| < BUFFER)
      ensures fits ==> end == |done + text| && buf[..end] == done + text
    {
      var n := Print(off, text);
      fits, end := n < BUFFER - off, off;
      if fits {
        end := off + n;
        assert buf[..end] == buf[..off] + buf[off..end];
      }
    }

    /** Every extra header, as long as they fit. */
    method AppendHeaders(off: nat, r: Response, ghost done: seq<byte>) returns (fits: bool, end: nat)
      requires buf.Length == BUFFER && off < BUFFER && buf[..off] == done
      modifies buf
      ensures var headers := Trimmed(r, server.maxHeaders).headers;
              fits == (|done + FieldLines(headers)| < BUFFER)
              && (fits ==> end == |done + FieldLines(headers)| && buf[..end] == done + FieldLines(headers))
    {
      hide FieldLine;
      ghost var headers := Trimmed(r, server.maxHeaders).headers;
      fits, end := true, off;
      assert headers[..0] == [] && done + [] == done;
      var i: nat := 0;
      while i < |r.headers| && i < server.maxHeaders
        invariant i <= |headers| && end < BUFFER
        invariant end == |done + FieldLines(headers[..i])| && buf[..end] == done + FieldLines(headers[..i])
      {
        FieldLinesSnoc(headers, i);
        assert done + FieldLines(headers[..i + 1]) == done + FieldLines(headers[..i]) + FieldLine(headers[i]);
        fits, end := Append(end, FieldLine(r.headers[i]), done + FieldLines(headers[..i]));
        if !fits {
          FieldLinesGrow(headers, i + 1);
          return;
        }
        i := i + 1;
      }
      assert headers[..i] == headers;
      fits := true;
    }

    /** The status line and the fields every response has. */
    method BuildFront(r: Response, keepAlive: bool) returns (fits: bool, off: nat)
      requires buf.Length == BUFFER && 100 <= r.status <= 599
      modifies buf
      ensures var front := Front(r, keepAlive);
              fits == (|front| < BUFFER) && (fits ==> off == |front| && buf[..off] == front)
    {
      hide StatusLine, FieldLine, FieldLines, ContentLength, Connection, ContentType;
      var text := StatusLine(r.status) + FieldLine(ContentLength(|r.body|)) + FieldLine(Connection(keepAlive));
      assert [] + text == text && buf[..0] == [];
      fits, off := Append(0, text, []);
      FrontParts(r, keepAlive);
      if fits && |r.body| > 0 && r.contentType.Some? {
        fits, off := Append(off, FieldLine(ContentType(r.contentType.value)), text);
      }
    }

    /** Lays a whole response out in the buffer, if it fits. */
    method Build(r: Response, keepAlive: bool) returns (fits: bool, off: nat)
      requires buf.Length == BUFFER && 100 <= r.status <= 599
      modifies buf
      ensures var whole := Compose(Whole(Trimmed(r, server.maxHeaders), keepAlive));
              fits == (|whole| <= BUFFER) && (fits ==> off == |whole| && buf[..off] == whole)
    {
      hide Front, Compose, FieldLines, Whole;
      ghost var t, front := Trimmed(r, server.maxHeaders), Front(r, keepAlive);
      ghost var head := front + FieldLines(t.headers);
      WholeParts(t, keepAlive);
      FrontTrimmed(r, server.maxHeaders, keepAlive);
      fits, off := BuildFront(r, keepAlive);
      if !fits { return; }
      fits, off := AppendHeaders(off, r, front);
      if !fits { return; }
      if BUFFER - off < 2 + |r.body| {
        fits := false;
        return;
      }
      Copy(off, [CR, LF]);
      assert buf[..off + 2] == buf[..off] + buf[off..off + 2];
      off := off + 2;
      Copy(off, r.body);
      assert buf[..off + |r.body|] == buf[..off] + buf[off..off + |r.body|];
      off := off + |r.body|;
    }

    // ----- sending -----

    /** reactor_mod: the kernel may refuse. */
    method Rearm(out: bool) returns (ok: bool)
      requires sock.script != []
      modifies this`armedOut, sock`script
      ensures sock.script == old(sock.script)[1..] && ok == old(sock.script)[0].Count?
      ensures armedOut == if ok then out else old(armedOut)
    {
      var a := sock.Ask();
      ok := a.Count?;
      if ok { armedOut := out; }
    }

    /** _park: register for writability and leave the rest in the buffer. */
    method Park(total: nat) returns (st: Status)
      requires sock.script != []
      modifies this`armedOut, this`draining, this`sendOff, this`sendLen, sock`script
      ensures sock.script == old(sock.script)[1..]
      ensures old(sock.script)[0].Count? ==>
                st == Success && draining && armedOut && sendLen == total && sendOff == old(sendOff)
      ensures !old(sock.script)[0].Count? ==> st == Failure && Idle()
    {
      var ok := Rearm(true);
      if !ok {
        draining, sendOff, sendLen := false, 0, 0;
        return Failure;
      }
      draining, sendLen := true, total;
      st := Success;
    }

    /** The send state a drive of `total - from` bytes leaves behind. */
    ghost predicate Settled(d: Drove, from: nat, total: nat, st: Status)
      reads this`draining, this`sendOff, this`sendLen, this`armedOut
    {
      match d.end
      case Parked => st == Success && draining && armedOut && sendOff == from + d.sent && sendLen == total
      case Sent => st == Success && Idle()
      case Lost => st == Failure && Idle()
      case Cut => st == Pending
    }

    /** The socket is full: park under a reactor, wait a bounded time otherwise; either may fail. */
    method OnFull(total: nat) returns (again: bool, st: Status)
      requires if draining then managed && sendLen == total else sendLen == 0
      modifies this`armedOut, this`draining, this`sendOff, this`sendLen, sock`script
      ensures old(sock.script) == [] ==> !again && st == Pending && sock.script == []
      ensures old(sock.script) != [] ==> sock.script == old(sock.script)[1..]
      ensures old(sock.script) != [] && managed ==>
                !again && if old(sock.script)[0].Count? then
                            st == Success && draining && armedOut && sendOff == old(sendOff) && sendLen == total
                          else st == Failure && Idle()
      ensures old(sock.script) != [] && !managed ==> again == (old(sock.script)[0].Count? && old(sock.script)[0].n > 0)
      ensures old(sock.script) != [] && !managed && !again ==> st == Failure && Idle()
      ensures again ==> armedOut == old(armedOut) && draining == old(draining) && sendOff == old(sendOff)
                        && sendLen == old(sendLen)
    {
      if sock.script == [] { return false, Pending; }
      if managed {
        st := Park(total);
        return false, st;
      }
      var ready := sock.Ask();
      again, st := ready.Count? && ready.n > 0, Failure;
      if !again { sendOff := 0; }
    }

    /** One write(2) of what is left, from a full copy `out` of what is to be sent. */
    method WriteSome(total: nat, ghost out: seq<byte>, ghost wire: seq<byte>, ghost from: nat) returns (a: Answer)
      requires sock.script != [] && total <= buf.Length && buf[..total] == out && from <= sendOff < total
      requires sock.wire == wire + out[from..sendOff]
      modifies this`sendOff, sock`script, sock`wire
      ensures sock.script == old(sock.script)[1..] && a == Limited(old(sock.script)[0], total - old(sendOff))
      ensures sendOff == old(sendOff) + (if a.Count? then a.n else 0) && sock.wire == wire + out[from..sendOff]
    {
      assert buf[sendOff..total] == out[sendOff..];
      a := sock.Write(buf[sendOff..total]);
      if a.Count? {
        SliceGrows(wire, out, from, sendOff, a.n);
        sendOff := sendOff + a.n;
      }
    }

    /** One turn of the write loop: either it goes on from where it now is, or the drive ends here. */
    method Turn(total: nat, ghost out: seq<byte>, ghost wire: seq<byte>, ghost from: nat)
      returns (again: bool, st: Status)
      requires total <= buf.Length && buf[..total] == out && from <= sendOff < total
      requires sock.wire == wire + out[from..sendOff]
      requires if draining then managed && sendLen == total else sendLen == 0
      modifies this`armedOut, this`draining, this`sendOff, this`sendLen, sock`script, sock`wire
      ensures var d := Drive(old(sock.script), total - old(sendOff), managed);
              if again then
                && old(sendOff) <= sendOff <= total && |sock.script| < |old(sock.script)|
                && d == Drive(sock.script, total - sendOff, managed).Plus(sendOff - old(sendOff))
                && sock.wire == wire + out[from..sendOff]
                && draining == old(draining) && sendLen == old(sendLen) && armedOut == old(armedOut)
              else
                && d.end != Sent && d.sent == 0 && sock.script == d.rest && Settled(d, old(sendOff), total, st)
                && sock.wire == old(sock.wire)
    {
      hide Drive;
      DriveEnds(sock.script, total - sendOff, managed);
      if sock.script == [] { return false, Pending; }
      DriveStep(sock.script, total - sendOff, managed);
      var a := WriteSome(total, out, wire, from);
      again, st := true, Pending;
      if a == WouldBlock {
        again, st := OnFull(total);
      } else if a == Fault || a == Count(0) {
        draining, sendOff, sendLen := false, 0, 0;
        again, st := false, Failure;
      }
    }

    /** _try_send: write from `sendOff` on until everything is out, the send parks, or it fails. */
    method TrySend(total: nat, ghost out: seq<byte>) returns (st: Status)
      requires total <= buf.Length && buf[..total] == out && sendOff <= total
      requires if draining then managed && sendLen == total else sendLen == 0
      modifies this`armedOut, this`draining, this`sendOff, this`sendLen, sock`script, sock`wire
      ensures var d := Drive(old(sock.script), total - old(sendOff), managed);
              && sock.script == d.rest && sock.wire == old(sock.wire) + out[old(sendOff)..old(sendOff) + d.sent]
              && Settled(d, old(sendOff), total, st)
              && (st == Success && !draining ==> armedOut == old(armedOut))
    {
      hide Drive;
      ghost var from, wire := sendOff, sock.wire;
      ghost var goal := Drive(sock.script, total - from, managed);
      assert wire + out[from..from] == wire;
      while sendOff < total
        invariant from <= sendOff <= total && draining == old(draining) && sendLen == old(sendLen)
        invariant goal == Drive(sock.script, total - sendOff, managed).Plus(sendOff - from)
        invariant sock.wire == wire + out[from..sendOff] && armedOut == old(armedOut)
        decreases |sock.script|
      {
        var again;
        again, st := Turn(total, out, wire, from);
        if !again { return; }
      }
      DriveEnds(sock.script, 0, managed);
      draining, sendOff, sendLen := false, 0, 0;
      st := Success;
    }

    /** The outcome of handing a rendered message to a socket that was at `script` and `wire`. */
    ghost predicate Delivered(r: Rendered, script: seq<Answer>, wire: seq<byte>, st: Status)
      reads this, buf, sock
    {
      var out := Compose(r.message);
      var d := Drive(script, |out|, managed);
      && policy == r.policy && sock.script == d.rest && sock.wire == wire + out[..d.sent]
      && Settled(d, 0, |out|, st) && (st == Success ==> armedOut == draining)
      && (d.end == Parked ==> |out| <= buf.Length && buf[..|out|] == out)
    }

    /** Sends what has just been laid out in the buffer. */
    method Deliver(total: nat, ghost r: Rendered) returns (st: Status)
      requires total <= buf.Length && buf[..total] == Compose(r.message)
      requires Idle() && !armedOut && policy == r.policy
      modifies this`armedOut, this`draining, this`sendOff, this`sendLen, sock`script, sock`wire
      ensures Delivered(r, old(sock.script), old(sock.wire), st)
    {
      hide Drive, Compose;
      sendOff := 0;
      st := TrySend(total, Compose(r.message));
    }

    /** response_writer_error: a fixed message, and the connection will close. */
    method SendError(status: nat) returns (st: Status)
      requires Idle() && !armedOut && buf.Length == BUFFER
      modifies this`policy, this`armedOut, this`draining, this`sendOff, this`sendLen, buf, sock`script, sock`wire
      ensures Delivered(Rendered(ErrorMessage(status), Close), old(sock.script), old(sock.wire), st)
    {
      hide Compose, ErrorMessage, Delivered;
      policy := Close;
      var m := ErrorMessage(status);
      ErrorFits(status);
      var text := Compose(m);
      var n := Print(0, text);
      assert buf[0..n] == buf[..n];
      st := Deliver(n, Rendered(m, Close));
    }

    /** response_writer_send. */
    method Send(r: Response) returns (st: Status)
      requires Idle() && !armedOut && buf.Length == BUFFER
      modifies this`policy, this`armedOut, this`draining, this`sendOff, this`sendLen, buf, sock`script, sock`wire
      ensures match Render(server, Answer(r), old(policy))
              case None =>
                && st == Failure && Idle() && policy == old(policy)
                && sock.script == old(sock.script) && sock.wire == old(sock.wire)
              case Some(m) => Delivered(m, old(sock.script), old(sock.wire), st)
    {
      hide Compose, ErrorMessage, Delivered, Whole, Trimmed;
      if r.status < 100 || r.status > 599 { return Failure; }
      ghost var m := Whole(Trimmed(r, server.maxHeaders), policy == KeepAlive);
      var fits, off := Build(r, policy == KeepAlive);
      if fits {
        st := Deliver(off, Rendered(m, policy));
      } else {
        st := SendError(500);
      }
    }

    // ----- client_handle, response_writer_resume and the operator's dispatch -----

    /** _client_reset_message. */
    method Reset()
      requires buf.Length == BUFFER
      modifies this`bufIdx, this`draining, this`sendOff, this`sendLen, buf
      ensures bufIdx == 0 && Idle()
    {
      bufIdx := 0;
      forall i | 0 <= i < BUFFER { buf[i] := 0; }
      draining, sendOff, sendLen := false, 0, 0;
    }

    /** Whether a call that ended with `st` left this object and its socket where the protocol says. */
    ghost predicate Follows(w: World, st: Status)
      reads this, buf, sock
    {
      && Linked(w.link) && st == StatusOf(w.conn.phase) && (st == Success ==> Valid() && View() == w)
      && (st == Taken ==> Valid() && View() == w.(conn := w.conn.(phase := Listening(w.conn.phase.input))))
    }

    /** What a delivery means to the protocol: `w` is the state before it, under the policy of the message. */
    lemma Arrived(r: Rendered, w: World, stale: nat, after: Phase, st: Status)
      requires Delivered(r, w.link.script, w.link.wire, st) && w.conn.policy == r.policy
      requires sock.incoming == w.link.incoming && sock.heard == w.link.heard && |Compose(r.message)| <= BUFFER
      ensures var w' := Transmit(managed, w, Compose(r.message), 0, stale, after);
              && Linked(w'.link) && policy == r.policy && st != Taken
              && match st
                 case Pending => w'.conn.phase.Sending?
                 case Failure => Idle() && w'.conn.phase == Closed(SendFailed)
                 case Success =>
                   if draining then
                     && managed && sendOff < sendLen <= buf.Length && sendLen <= BUFFER && armedOut
                     && w' == w.(link := w'.link, conn := w.conn.(phase := Draining(buf[..sendLen], sendOff, stale)))
                   else Idle() && !armedOut && w' == w.(link := w'.link, conn := w.conn.(phase := after))
    {
      hide Drive, Compose;
      var out := Compose(r.message);
      var d := Drive(w.link.script, |out|, managed);
      assert out[0..0 + d.sent] == out[..d.sent];
    }

    /** Answers the request that the bytes in the buffer complete. */
    method Respond(asked: Policy, reply: Reply, ghost w: World) returns (st: Status)
      requires Valid() && !draining && w == View() && server.judge(served, buf[..bufIdx]) == Complete(asked, reply)
      modifies this`bufIdx, this`policy, this`served, this`armedOut, this`draining, this`sendOff, this`sendLen, buf,
               sock`script, sock`wire
      ensures Follows(Receive(server, managed, w, w.conn.phase.input), st)
    {
      hide Compose, ErrorMessage, Drive, Delivered, Transmit, Whole, Trimmed;
      policy, served := asked, served + 1;
      match reply {
        case Refuse(status) => st := SendError(status);
        case Answer(r) => st := Send(r);
      }
      ghost var r := Render(server, reply, asked);
      if r.Some? {
        RenderFits(server, reply, asked);
        ghost var conn := w.conn.(policy := r.value.policy, served := w.conn.served + 1);
        Arrived(r.value, w.(conn := conn), 0, After(r.value.policy), st);
      }
      if st == Pending { return; }
      bufIdx := 0;
      if st == Failure {
        Reset();
      } else if !draining && policy == Close {
        Reset();
        st := Failure;
      }
    }

    /** Answers the request that the bytes in the buffer complete, rejects them, or leaves them to the pump. */
    method Reply(verdict: Verdict, ghost w: World) returns (st: Status)
      requires Valid() && !draining && w == View() && verdict == server.judge(served, buf[..bufIdx]) && !verdict.More?
      modifies this`bufIdx, this`policy, this`served, this`armedOut, this`draining, this`sendOff, this`sendLen, buf,
               sock`script, sock`wire
      ensures Follows(Receive(server, managed, w, w.conn.phase.input), st)
    {
      hide Compose, ErrorMessage, Drive, Delivered, Transmit, Whole, Trimmed;
      match verdict
      case Nothing =>
        Reset();
        st := Failure;
      case Claim => st := Taken;
      case Reject(tooLarge) =>
        var status := if tooLarge then 413 else 400;
        st := SendError(status);
        ErrorFits(status);
        ghost var closing := w.(conn := w.conn.(policy := Close));
        Arrived(Rendered(ErrorMessage(status), Close), closing, bufIdx, Closed(Decided), st);
        if st == Pending || draining { return; }
        Reset();
        st := Failure;
      case Complete(asked, reply) => st := Respond(asked, reply, w);
    }

    /** One read into the free part of the buffer. */
    method ReadMore(ghost w: World) returns (a: Answer, data: seq<byte>)
      requires Valid() && !draining && bufIdx < BUFFER && w == View() && sock.script != []
      modifies this`bufIdx, buf, sock`script, sock`incoming, sock`heard
      ensures data == Fragment(w) && a == Limited(old(sock.script)[0], Min(BUFFER - old(bufIdx), |old(sock.incoming)|))
      ensures Valid() && bufIdx == old(bufIdx) + |data|
      ensures View() == World(Took(w.link, data), w.conn.(phase := Listening(w.conn.phase.input + data)))
    {
      hide Trimmed, Compose;
      ghost var input := buf[..bufIdx];
      a, data := sock.Read(BUFFER - bufIdx);
      assert data == Fragment(w);
      Copy(bufIdx, data);
      assert buf[..bufIdx] == input;
      assert buf[..bufIdx + |data|] == buf[..bufIdx] + buf[bufIdx..bufIdx + |data|];
      bufIdx := bufIdx + |data|;
    }

    /** One turn of the loop of client_handle. */
    method HandleOnce() returns (again: bool, st: Status)
      requires Valid() && !draining
      modifies this`bufIdx, this`policy, this`served, this`armedOut, this`draining, this`sendOff, this`sendLen
      modifies buf, sock
      ensures again ==> Valid() && !draining && |sock.script| < |old(sock.script)|
                        && Handle(server, managed, View()) == Handle(server, managed, old(View()))
      ensures !again ==> Follows(Handle(server, managed, old(View())), st)
    {
      hide Receive, Fragment;
      if bufIdx >= BUFFER {
        Reset();
        return false, Failure;
      }
      if sock.script == [] { return false, Success; }
      ghost var w := View();
      FragmentFits(w);
      var a, data := ReadMore(w);
      if a.Count? {
        if data == [] {
          Reset();
          return false, Failure;
        }
        var verdict := server.judge(served, buf[..bufIdx]);
        ReceiveAt(server, managed, w, data);
        again, st := verdict.More?, Pending;
        if !again { st := Reply(verdict, View()); }
      } else {
        NoFragment(w);
        again, st := a == Interrupted, if a == WouldBlock then Success else Failure;
        if a == Fault { Reset(); }
      }
    }

    /** client_handle. */
    method HandleReady() returns (st: Status)
      requires Valid() && !draining
      modifies this`bufIdx, this`policy, this`served, this`armedOut, this`draining, this`sendOff, this`sendLen
      modifies buf, sock
      ensures Follows(Handle(server, managed, old(View())), st)
    {
      hide Handle;
      var again := true;
      st := Pending;
      while again
        invariant again ==> Valid() && !draining
        invariant again ==> Handle(server, managed, View()) == Handle(server, managed, old(View()))
        invariant !again ==> Follows(Handle(server, managed, old(View())), st)
        decreases again, |sock.script|
      {
        again, st := HandleOnce();
      }
    }

    /** response_writer_resume. */
    method ResumeSend() returns (st: Status)
      requires Valid() && draining
      modifies this`armedOut, this`draining, this`sendOff, this`sendLen, sock`script, sock`wire
      ensures Follows(Resume(managed, old(View())), st)
    {
      hide Drive;
      ghost var w := View();
      ghost var d := Drive(sock.script, sendLen - sendOff, managed);
      var total := sendLen;
      st := TrySend(total, w.conn.phase.output);
      if st != Success || draining { return; }
      if sock.script == [] { return Pending; }
      var ok := Rearm(false);
      if !ok { return Failure; }
      if policy == Close { return Failure; }
    }

    /** client_shutdown of a busy slot. */
    method Remove()
      requires buf.Length == BUFFER
      modifies this`bufIdx, this`policy, this`served, this`draining, this`sendOff, this`sendLen, this`isBusy, buf
      ensures !isBusy && Idle() && bufIdx == 0 && policy == Unset && served == 0
    {
      Reset();
      isBusy, policy, served := false, Unset, 0;
    }

    /** The operator's dispatch of one event: a parked client is resumed, any other handled; failure removes it. */
    method Dispatch(e: Event) returns (st: Status)
      requires Valid()
      modifies this, buf, sock
      ensures Follows(React(server, managed, old(View()), e), st)
      ensures isBusy == (st != Failure)
    {
      hide Handle, Resume;
      st := Failure;
      if e == Ready {
        if draining { st := ResumeSend(); } else { st := HandleReady(); }
      }
      if st == Failure { Remove(); }
    }

    /** A run of events. */
    method Serve(events: seq<Event>) returns (st: Status)
      requires Valid()
      modifies this, buf, sock
      ensures Sound(old(View())) && Follows(Run(server, managed, old(View()), events), st)
    {
      hide React;
      st := Success;
      ghost var goal := Run(server, managed, View(), events);
      var i: nat := 0;
      assert events[0..] == events;
      while i < |events|
        invariant i <= |events| && st == Success && Valid() && goal == Run(server, managed, View(), events[i..])
      {
        ghost var w := React(server, managed, View(), events[i]);
        assert events[i..][0] == events[i] && events[i..][1..] == events[i + 1..];
        st := Dispatch(events[i]);
        i := i + 1;
        if st != Success {
          OverIsOver(server, managed, w, events[i..]);
          return;
        }
      }
    }

    /**
      A whole connection, from the accepted descriptor on: after any events, on any socket, what the kernel has been
      given is the replies to what was read, as the theorems of Exchange tell.
     */
    static method Connect(sock: Socket, server: Server, managed: bool, events: seq<Event>) returns (c: Client)
      requires sock.heard == [] && sock.wire == []
      modifies sock
      ensures var w := Run(server, managed, Fresh(old(sock.script), old(sock.incoming)), events);
              c.sock == sock && c.Linked(w.link) && Faithful(server, old(sock.incoming), managed, w)
    {
      hide Run, Faithful;
      c := new Client(sock, server, managed);
      WireRefinement(server, managed, sock.script, sock.incoming, events);
      var _ := c.Serve(events);
    }
  }

  lemma {:induction false} OverIsOver(server: Server, managed: bool, w: World, events: seq<Event>)
    requires Finished(w.conn.phase)
    ensures Run(server, managed, w, events) == w
    decreases |events|
  {
    if events != [] { OverIsOver(server, managed, w, events[1..]); }
  }

  /** A read that leaves the request incomplete only extends the input. */
  lemma ReceiveAt(server: Server, managed: bool, w: World, data: seq<byte>)
    requires w.conn.phase.Listening? && w.link.script != [] && |data| <= |w.link.incoming|
    ensures var text := w.conn.phase.input + data;
            var w' := World(Took(w.link, data), w.conn.(phase := Listening(text)));
            && Receive(server, managed, w.(link := Took(w.link, data)), text) == Receive(server, managed, w', text)
            && (server.judge(w.conn.served, text).More? ==> Receive(server, managed, w', text) == w')
  {
    hide Compose, ErrorMessage, Drive, Render;
  }

  lemma SliceGrows(wire: seq<byte>, out: seq<byte>, from: nat, off: nat, n: nat)
    requires from <= off && off + n <= |out|
    ensures wire + out[from..off] + out[off..][..n] == wire + out[from..off + n]
  {
    assert out[from..off] + out[off..][..n] == out[from..off + n];
  }

  lemma DriveEnds(script: seq<Answer>, len: nat, managed: bool)
    ensures len == 0 ==> Drive(script, len, managed) == Drove(0, script, Ending.Sent)
    ensures len > 0 && script == [] ==> Drive(script, len, managed) == Drove(0, [], Cut)
  {
  }

  /** One turn of the loop. */
  lemma DriveStep(script: seq<Answer>, len: nat, managed: bool)
    requires len > 0 && script != []
    ensures Drive(script, len, managed) ==
            match script[0]
            case Count(n) =>
              if n == 0 then Drove(0, script[1..], Lost)
              else Drive(script[1..], len - Min(n, len), managed).Plus(Min(n, len))
            case Interrupted => Drive(script[1..], len, managed)
            case WouldBlock =>
              if script[1..] == [] then Drove(0, [], Cut)
              else if managed then Drove(0, script[1..][1..], if script[1].Count? then Parked else Lost)
              else if script[1].Count? && script[1].n > 0 then Drive(script[1..][1..], len, managed)
              else Drove(0, script[1..][1..], Lost)
            case Fault => Drove(0, script[1..], Lost)
  {
    if |script| > 1 { assert script[1..][1..] == script[2..]; }
  }

  function Front(r: Response, keepAlive: bool): seq<byte> {
    StatusLine(r.status) + FieldLine(ContentLength(|r.body|)) + FieldLine(Connection(keepAlive))
    + FieldLines(TypeField(r))
  }

  lemma OneLineOnly(h: Header)
    ensures FieldLines([h]) == FieldLine(h)
  {
    hide FieldLine;
    assert [h][1..] == [];
    assert FieldLines([h][1..]) == [];
  }

  lemma FrontParts(r: Response, keepAlive: bool)
    ensures Front(r, keepAlive)
         == StatusLine(r.status) + FieldLine(ContentLength(|r.body|)) + FieldLine(Connection(keepAlive))
            + (if |r.body| > 0 && r.contentType.Some? then FieldLine(ContentType(r.contentType.value)) else [])
  {
    hide StatusLine, FieldLine, FieldLines, ContentLength, Connection, ContentType;
    if |r.body| > 0 && r.contentType.Some? { OneLineOnly(ContentType(r.contentType.value)); } else { NoFieldLines(); }
  }

  lemma FrontTrimmed(r: Response, maxHeaders: nat, keepAlive: bool)
    ensures Front(Trimmed(r, maxHeaders), keepAlive) == Front(r, keepAlive)
  {
    hide StatusLine, FieldLine, FieldLines, ContentLength, Connection, ContentType;
  }

  lemma WholeParts(r: Response, keepAlive: bool)
    ensures Compose(Whole(r, keepAlive)) == Front(r, keepAlive) + FieldLines(r.headers) + CRLF + r.body
  {
    hide StatusLine, FieldLine, FieldLines, ContentLength, Connection, ContentType, TypeField;
    var length, stay := ContentLength(|r.body|), Connection(keepAlive);
    var fields := Fields(r, keepAlive);
    assert fields == [length] + ([stay] + (TypeField(r) + r.headers));
    FieldLinesAppend([length], [stay] + (TypeField(r) + r.headers));
    FieldLinesAppend([stay], TypeField(r) + r.headers);
    FieldLinesAppend(TypeField(r), r.headers);
    OneLineOnly(length);
    OneLineOnly(stay);
    assert FieldLines(fields) == FieldLine(length) + FieldLine(stay) + FieldLines(TypeField(r)) + FieldLines(r.headers);
  }

  lemma {:induction false} FieldLinesAppend(xs: seq<Header>, ys: seq<Header>)
    ensures FieldLines(xs + ys) == FieldLines(xs) + FieldLines(ys)
  {
    hide FieldLine;
    if xs == [] {
      assert xs + ys == ys;
    } else {
      FieldLinesAppend(xs[1..], ys);
      assert (xs + ys)[1..] == xs[1..] + ys;
      var first, middle, last := FieldLine(xs[0]), FieldLines(xs[1..]), FieldLines(ys);
      assert first + (middle + last) == (first + middle) + last;
    }
  }

  lemma FieldLinesSnoc(hs: seq<Header>, i: nat)
    requires i < |hs|
    ensures FieldLines(hs[..i + 1]) == FieldLines(hs[..i]) + FieldLine(hs[i])
  {
    hide FieldLine;
    assert hs[..i + 1] == hs[..i] + [hs[i]];
    FieldLinesAppend(hs[..i], [hs[i]]);
    assert [hs[i]][1..] == [];
  }

  lemma FieldLinesGrow(hs: seq<Header>, i: nat)
    requires i <= |hs|
    ensures |FieldLines(hs[..i])| <= |FieldLines(hs)|
  {
    hide FieldLines;
    FieldLinesAppend(hs[..i], hs[i..]);
    assert hs[..i] + hs[i..] == hs;
  }
}

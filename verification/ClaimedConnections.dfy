/**
  Connections with a request that the upload gate claims, from the first byte to the close: the protocol of Exchange up
  to the claim, the pump, and the protocol again for a reply that parked. The wire tells the replies in order, the
  pump's one reply included, unless a refusal parks and the drain after it is let loose on the buffer it is parked in.
 */
module ClaimedConnections {
  import opened Bytes
  import opened Options
  import opened Kernel
  import opened HttpMessage
  import opened Exchange
  import ClientObject
  import UploadPump

  /** What is said in all when the pump has made its reply. */
  function SaidWith(said: seq<Message>, reply: Option<Rendered>): seq<Message> {
    match reply
    case None => said
    case Some(r) => said + [r.message]
  }

  /** The protocol once the pump has made its reply, to which the connection closes. */
  function Answered(managed: bool, w: World, reply: Option<Rendered>, stale: nat): World {
    match reply
    case None => Shut(w, Mute)
    case Some(r) => Transmit(managed, w, Compose(r.message), 0, stale, Closed(Decided))
  }

  lemma AnsweredFinishes(managed: bool, w: World, said: seq<Message>, reply: Option<Rendered>, stale: nat)
    requires Owes(w.link.wire, said, 0) && w.conn.policy == Close
    ensures Finishing(Answered(managed, w, reply, stale), SaidWith(said, reply))
  {
    hide Stream, Compose, Drive, Transmit;
    if reply.Some? {
      var m := reply.value.message;
      OwesSay(w.link.wire, said, m);
      TransmitFinishes(managed, w, said + [m], Compose(m), 0, stale, Closed(Decided));
    }
  }

  // ----- a refusal that parks -----

  /** The protocol after a refusal `out` and the drain that follows it. */
  function Refused(managed: bool, w: World, out: seq<byte>, clock: nat -> nat, tick: nat, stale: nat): World {
    var d := Drive(w.link.script, |out|, managed);
    if d.end != Parked then Transmit(managed, w, out, 0, stale, Closed(Decided))
    else
      var z := UploadPump.DrainAfter(d.rest, clock, tick, w.link.incoming, out);
      World(
        w.link.(script := z.script, incoming := w.link.incoming[z.read..], wire := w.link.wire + out[..d.sent]),
        w.conn.(phase := Draining(z.held, d.sent, stale)))
  }

  /** A request handed over on a connection that has said nothing yet. */
  function Claimed(script: seq<Answer>, incoming: seq<byte>): World {
    World(Link(script, incoming, [], []), Conn(Handed([]), Close, 0))
  }

  /** Whatever happens after it, the wire holds nothing but the refusal. */
  ghost predicate TellsRefusal(server: Server, managed: bool, out: seq<byte>) {
    forall script: seq<Answer>, incoming: seq<byte>, clock: nat -> nat, tick: nat, stale: nat, events: seq<Event> ::
      RefusalWire(server, managed, out, script, incoming, clock, tick, stale, events) <= out
  }

  function RefusalWire(server: Server, managed: bool, out: seq<byte>, script: seq<Answer>, incoming: seq<byte>,
                       clock: nat -> nat, tick: nat, stale: nat, events: seq<Event>): seq<byte> {
    var w := Refused(managed, Claimed(script, incoming), out, clock, tick, stale);
    if Sound(w) then Run(server, managed, w, events).link.wire else w.link.wire
  }

  lemma UnmanagedTells(server: Server, out: seq<byte>)
    ensures TellsRefusal(server, false, out)
  {
    hide Drive, React;
    forall script: seq<Answer>, incoming: seq<byte>, clock: nat -> nat, tick: nat, stale: nat, events: seq<Event>
      ensures RefusalWire(server, false, out, script, incoming, clock, tick, stale, events) <= out
    {
      var w := Refused(false, Claimed(script, incoming), out, clock, tick, stale);
      ClientObject.OverIsOver(server, false, w, events);
      assert w.link.wire == [] + out[0..Drive(script, |out|, false).sent];
    }
  }

  /** A schedule on which a byte of the peer's own goes out in place of the first of the refusal, and all seems well. */
  lemma PeerBytesGoOut(server: Server, out: seq<byte>)
    returns (script: seq<Answer>, other: byte, clock: nat -> nat)
    requires out != []
    ensures var start := Refused(true, Claimed(script, [other]), out, clock, 0, 0);
            var w := Run(server, true, start, [Ready]);
            && Sound(start) && w.conn.phase == Closed(Decided)
            && w.link.wire == [other] + out[1..] && other != out[0]
  {
    hide UploadPump.DrainAfter, UploadPump.Overlay, Drive, React;
    other := if out[0] == 0 then 1 else 0;
    var drain, resume := [Count(1), Count(1), Count(0)], [Count(|out|), Count(0)];
    clock := _ => 0;
    script := [WouldBlock, Count(0)] + (drain + resume);
    var held := UploadPump.Overlay([other], out);
    ParksAtOnce(script, drain + resume, |out|);
    OneByteDrained(drain + resume, resume, clock, other, out);
    FirstByte(other, out);
    var start := Refused(true, Claimed(script, [other]), out, clock, 0, 0);
    assert [other][1..] == [] && [] + out[..0] == [];
    assert start == World(Link(resume, [], [], []), Conn(Draining(held, 0, 0), Close, 0));
    AllGoesOut(server, start);
  }

  lemma FirstByte(other: byte, out: seq<byte>)
    requires out != []
    ensures UploadPump.Overlay([other], out) == [other] + out[1..]
  {
  }

  lemma ParksAtOnce(script: seq<Answer>, rest: seq<Answer>, len: nat)
    requires script == [WouldBlock, Count(0)] + rest && len > 0
    ensures Drive(script, len, true) == Drove(0, rest, Parked)
  {
    assert script[2..] == rest;
  }

  /** A parked response that the socket takes whole, and the rearming with it. */
  lemma AllGoesOut(server: Server, w: World)
    requires w.conn.phase.Draining? && w.conn.phase.off == 0 && w.conn.policy == Close && w.link.wire == []
    requires w.conn.phase.output != [] && w.link.script == [Count(|w.conn.phase.output|), Count(0)]
    ensures var w' := Run(server, true, w, [Ready]);
            w'.conn.phase == Closed(Decided) && w'.link.wire == w.conn.phase.output
  {
    var out, rest := w.conn.phase.output, [Count(0)];
    assert w.link.script[1..] == rest;
    assert Drive(rest, 0, true) == Drove(0, rest, Sent);
    assert Drive(w.link.script, |out|, true) == Drove(|out|, rest, Sent);
    assert [] + out[0..|out|] == out;
    assert Run(server, true, w, [Ready]) == React(server, true, w, Ready);
  }

  /** A drain that reads one byte and then waits in vain. */
  lemma OneByteDrained(script: seq<Answer>, rest: seq<Answer>, clock: nat -> nat, other: byte, out: seq<byte>)
    requires script == [Count(1), Count(1), Count(0)] + rest && clock(1) == clock(2) == 0 && clock(0) == 0
    ensures UploadPump.DrainAfter(script, clock, 0, [other], out)
         == UploadPump.Drained(1, rest, 3, UploadPump.Overlay([other], out))
  {
    hide UploadPump.Overlay;
    var held := UploadPump.Overlay([other], out);
    assert [other][..1] == [other] && [other][1..] == [];
    assert script[1..][1..] == [Count(0)] + rest;
    UploadPump.DrainStep(script, clock, 1, UploadPump.DRAIN_MS, 0, [other], out);
    UploadPump.DrainStop([Count(0)] + rest, clock, 2, UploadPump.DRAIN_MS, 1, [], held);
    assert ([Count(0)] + rest)[1..] == rest;
  }

  /**
    A refusal on the wire. Nothing but the refusal goes out, under every schedule, clock and peer, if and only if the
    connection does not belong to a reactor: on one that does, the bytes the peer is still sending can go back to it.
   */
  lemma RefusalOnTheWireExactly(server: Server, managed: bool, out: seq<byte>)
    requires out != []
    ensures TellsRefusal(server, managed, out) <==> !managed
  {
    hide Refused, Run;
    if managed {
      var script, other, clock := PeerBytesGoOut(server, out);
      assert ([other] + out[1..])[0] == other;
      assert !(RefusalWire(server, true, out, script, [other], clock, 0, 0, [Ready]) <= out);
    } else {
      UnmanagedTells(server, out);
    }
  }

  // ----- whole connections -----

  /** The application turns the upload down, and its refusal parks. */
  predicate RefusalParks(managed: bool, q: UploadPump.Request, verdicts: seq<bool>, w: World, reply: Option<Rendered>) {
    q.TurnedDown(verdicts) && reply.Some? && Drive(w.link.script, |Compose(reply.value.message)|, managed).end == Parked
  }

  /** How the transfer of a claimed request goes that is handed over at `w`, if it comes to that. */
  function Transferred(q: UploadPump.Request, verdicts: seq<bool>, w: World, clock: nat -> nat)
    : Option<UploadPump.Fed>
  {
    if !q.adapted || !UploadPump.Says(verdicts) || !q.streamOk || |q.leftover| > q.total then None
    else
      Some(UploadPump.Transfer(w.link.script, clock, 0, UploadPump.Later(verdicts), |q.leftover|, q.total,
                               |w.link.incoming|))
  }

  function ResultOf(f: Option<UploadPump.Fed>): Option<UploadPump.Result> {
    if f.Some? then Some(f.value.result) else None
  }

  /** Where the kernel is when the reply is made. */
  function AtReply(w: World, f: Option<UploadPump.Fed>): World {
    World(w.link.(script := if f.Some? then f.value.script else w.link.script), w.conn.(policy := Close))
  }

  /** Two moments that differ in nothing that the rest of the run depends on once nothing more is read. */
  predicate SameEnd(v: World, w: World) {
    v.link.wire == w.link.wire && v.link.script == w.link.script && v.conn == w.conn
  }

  /** How a connection goes on after the reply to the request that was handed over at `w`. */
  function Leaves(managed: bool, q: UploadPump.Request, verdicts: seq<bool>, w: World, reply: Option<Rendered>,
                  f: Option<UploadPump.Fed>, clock: nat -> nat): World
    requires w.conn.phase.Handed?
  {
    var stale := |w.conn.phase.input|;
    if RefusalParks(managed, q, verdicts, w, reply) then
      Refused(managed, AtReply(w, f), Compose(reply.value.message), clock, 0, stale)
    else Answered(managed, AtReply(w, f), reply, stale)
  }

  lemma HandedOwesNothing(server: Server, peer: seq<byte>, managed: bool, w: World)
    requires Faithful(server, peer, managed, w) && w.conn.phase.Handed?
    ensures Owes(w.link.wire, Hears(server, SILENCE, w.link.heard).said, 0)
  {
    hide Hears, Attentive;
  }

  lemma NothingOffered(calls: seq<UploadPump.Verb>)
    requires calls == [] || calls == [UploadPump.Begun(false)] || calls == [UploadPump.Begun(true), UploadPump.Aborted]
    ensures UploadPump.Offered(calls) == []
  {
    if calls != [] {
      assert calls[..1][..0] == [];
      assert UploadPump.Offered(calls[..1]) == [];
    }
  }

  /** Where the pump leaves a connection that it took over at `w`. */
  lemma StartOf(pump: UploadPump.Pump, q: UploadPump.Request, was: UploadPump.Before, w: World,
                st: ClientObject.Status, result: Option<UploadPump.Result>, read: nat, left: seq<Answer>)
    returns (start: World)
    requires pump.Uploaded(q, was, st, result, read, left) && w.conn.phase.Handed?
    requires was.script == w.link.script && was.incoming == w.link.incoming && was.wire == w.link.wire
    requires was.policy == Close && was.tick == 0
    requires st == ClientObject.Success ==>
               && pump.client.Valid() && pump.client.draining && pump.client.policy == Close
               && pump.client.bufIdx == |w.conn.phase.input| && pump.client.served == w.conn.served
    ensures var client, f := pump.client, Transferred(q, was.verdicts, w, pump.clock);
            var reply := UploadPump.ReplyTo(client.server, q, Close, was.verdicts, ResultOf(f));
            && result == ResultOf(f) && (f.Some? ==> read == f.value.read)
            && client.sock.wire == start.link.wire
            && (if st == ClientObject.Success then client.Valid() && start == client.View()
                else Finished(start.conn.phase))
            && SameEnd(start, Leaves(client.managed, q, was.verdicts, w, reply, f, pump.clock))
  {
    hide UploadPump.ReplyTo, UploadPump.Transfer, UploadPump.Ended, UploadPump.DrainAfter, Compose, Drive;
    var client, f := pump.client, Transferred(q, was.verdicts, w, pump.clock);
    var reply := UploadPump.ReplyTo(client.server, q, Close, was.verdicts, ResultOf(f));
    start := if st == ClientObject.Success then client.View()
             else Answered(client.managed, AtReply(w, f), reply, |w.conn.phase.input|);
    if reply.Some? {
      var out := Compose(reply.value.message);
      assert out[0..0 + Drive(left, |out|, client.managed).sent] == out[..Drive(left, |out|, client.managed).sent];
    }
  }

  /** A reply that is not a parked refusal finishes what was said. */
  lemma LeavesFinishing(server: Server, peer: seq<byte>, managed: bool, q: UploadPump.Request, verdicts: seq<bool>,
                        w: World, reply: Option<Rendered>, f: Option<UploadPump.Fed>, clock: nat -> nat, start: World)
    requires Faithful(server, peer, managed, w) && w.conn.phase.Handed?
    requires !RefusalParks(managed, q, verdicts, w, reply)
    requires SameEnd(start, Leaves(managed, q, verdicts, w, reply, f, clock))
    ensures Finishing(start, SaidWith(Hears(server, SILENCE, w.link.heard).said, reply))
  {
    hide Hears, Compose, Drive, Transmit, Faithful, Owes;
    var said := Hears(server, SILENCE, w.link.heard).said;
    HandedOwesNothing(server, peer, managed, w);
    AnsweredFinishes(managed, AtReply(w, f), said, reply, |w.conn.phase.input|);
  }

  /**
    A whole connection, on any socket, with any events before and after a claim, any claimed request and any
    application. Up to the claim the protocol is kept; then the pump's one reply follows what was said before it, and
    nothing else is sent: the wire holds all of it but what is cut from its end, and the whole of it once the server
    has closed of its own accord. The application gets the body and ends its ticket once, or gets nothing. The one
    exception is a refusal that parks, and then the connection goes on from what the drain has left of it.
   */
  method Connect(sock: Socket, server: Server, managed: bool, events: seq<Event>, q: UploadPump.Request,
                 ticket: UploadPump.Ticket, clock: nat -> nat, later: seq<Event>)
    returns (client: ClientObject.Client, ghost start: World)
    requires sock.heard == [] && sock.wire == [] && ticket.calls == []
    modifies sock, ticket
    ensures var w := Run(server, managed, Fresh(old(sock.script), old(sock.incoming)), events);
            && client.sock == sock && Faithful(server, old(sock.incoming), managed, w)
            && if !w.conn.phase.Handed? then client.Linked(w.link) && ticket.calls == []
               else
                 var said := Hears(server, SILENCE, w.link.heard).said;
                 var f := Transferred(q, old(ticket.verdicts), w, clock);
                 var reply := UploadPump.ReplyTo(server, q, Close, old(ticket.verdicts), ResultOf(f));
                 && (match f
                     case None => UploadPump.Offered(ticket.calls) == []
                     case Some(t) =>
                       UploadPump.Ended(ticket.calls, q.leftover + w.link.incoming[..t.read], t.result))
                 && SameEnd(start, Leaves(managed, q, old(ticket.verdicts), w, reply, f, clock))
                 && Sound(start) && sock.wire == Run(server, managed, start, later).link.wire
                 && (!RefusalParks(managed, q, old(ticket.verdicts), w, reply) ==>
                       Finishing(Run(server, managed, start, later), SaidWith(said, reply)))
  {
    hide Run, Faithful, Hears, Finishing, Compose, Drive;
    hide UploadPump.ReplyTo, UploadPump.Transfer, UploadPump.DrainAfter;
    client := new ClientObject.Client(sock, server, managed);
    WireRefinement(server, managed, sock.script, sock.incoming, events);
    ghost var w := Run(server, managed, Fresh(sock.script, sock.incoming), events);
    var st := client.Serve(events);
    start := w;
    if st != ClientObject.Taken { return; }
    var pump := new UploadPump.Pump(client, ticket, clock);
    ghost var was := pump.Snapshot().(policy := Close);
    var result;
    ghost var read, left;
    st, result, read, left := pump.HandleClaimed(q);
    if result.None? { NothingOffered(ticket.calls); }
    start := StartOf(pump, q, was, w, st, result, read, left);
    ghost var f := Transferred(q, was.verdicts, w, clock);
    ghost var reply := UploadPump.ReplyTo(server, q, Close, was.verdicts, ResultOf(f));
    if !RefusalParks(managed, q, was.verdicts, w, reply) {
      LeavesFinishing(server, old(sock.incoming), managed, q, was.verdicts, w, reply, f, clock, start);
      FinishingRun(server, managed, start, later, SaidWith(Hears(server, SILENCE, w.link.heard).said, reply));
    }
    if st == ClientObject.Success {
      st := client.Serve(later);
    } else {
      ClientObject.OverIsOver(server, managed, start, later);
    }
  }
}

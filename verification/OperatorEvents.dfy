/**
  An event of a client as it passes through the operator: the handler finds the slot, the client object does the work,
  and the slot ends up with what the client has recorded, or free.
 */
module OperatorEvents {
  import opened Bytes
  import ClientObject
  import Exchange
  import OperatorSlots
  import UploadPump
  import opened Options
  import opened Kernel

  lemma ExpiryCloses(server: Exchange.Server, managed: bool, w: Exchange.World)
    requires Exchange.Sound(w) && (w.conn.phase.Listening? || w.conn.phase.Draining?)
    ensures Exchange.React(server, managed, w, Exchange.Expiry) == Exchange.Shut(w, Exchange.TimedOut)
  {
    hide Exchange.Handle, Exchange.Resume;
  }

  /** A request is only handed over after a read. */
  lemma HandedAfterRead(server: Exchange.Server, managed: bool, w: Exchange.World, e: Exchange.Event)
    requires Exchange.Sound(w) && (w.conn.phase.Listening? || w.conn.phase.Draining?)
    ensures var w' := Exchange.React(server, managed, w, e);
            w'.conn.phase.Handed? ==> |w.link.heard| < |w'.link.heard|
  {
    hide Exchange.Handle, Exchange.Drive;
    if e == Exchange.Ready && w.conn.phase.Listening? { HandleReads(server, managed, w); }
  }

  lemma {:induction false} HandleReads(server: Exchange.Server, managed: bool, w: Exchange.World)
    requires w.conn.phase.Listening? && |w.conn.phase.input| <= BUFFER
    ensures var w' := Exchange.Handle(server, managed, w);
            |w.link.heard| <= |w'.link.heard| && (w'.conn.phase.Handed? ==> |w.link.heard| < |w'.link.heard|)
    decreases |w.link.script|
  {
    hide Exchange.Drive, Exchange.ErrorMessage, Exchange.Render;
    if |w.conn.phase.input| < BUFFER && w.link.script != [] {
      Exchange.FragmentFits(w);
      var data := Exchange.Fragment(w);
      var w' := w.(link := Exchange.Took(w.link, data));
      var text := w.conn.phase.input + data;
      if w.link.script[0].Count? && data != [] && server.judge(w.conn.served, text).More? {
        HandleReads(server, managed, Exchange.Receive(server, managed, w', text));
      } else if w.link.script[0].Interrupted? {
        HandleReads(server, managed, w');
      }
    }
  }

  /** The pump has the request, and a client it leaves behind is removed. */
  method Hand(client: ClientObject.Client, pump: UploadPump.Pump, q: UploadPump.Request)
    returns (st: ClientObject.Status, ghost result: Option<UploadPump.Result>, ghost read: nat,
             ghost left: seq<Answer>)
    requires pump.client == client && client.Valid() && !client.draining && pump.ticket.calls == [] && pump.waits == []
    modifies client, client.buf, client.sock, pump, pump.ticket
    ensures st != ClientObject.Taken
    ensures pump.Uploaded(q, old(pump.Snapshot()).(policy := Exchange.Close), st, result, read, left)
    ensures st == ClientObject.Success ==> client.Valid() && client.served == old(client.served)
  {
    hide UploadPump.Transfer, UploadPump.Ended, UploadPump.Replied, UploadPump.ReplyTo;
    hide UploadPump.DrainedAfter, UploadPump.DrainAfter, Exchange.Drive;
    var end;
    st, end, read, left := pump.HandleClaimed(q);
    result := end;
    if st == ClientObject.Failure { client.Remove(); }
  }

  /**
    _operator_handle_client_event for the client in slot `i`, and the removal of one that hung up or timed out. The
    client follows its protocol, and a request the upload gate claims goes to the pump there and then. Its slot is
    freed and its descriptor closed exactly if the event ends with a failure, as every close of the protocol does, and
    otherwise counts its requests and is as recent as its last byte; no other slot is touched. Status and timer follow
    the load exactly if the client was removed otherwise than by the sweep for timeouts, which leaves them alone.
   */
  method OnClientEvent(op: OperatorSlots.Operator, i: nat, client: ClientObject.Client, pump: UploadPump.Pump,
                       q: UploadPump.Request, e: Exchange.Event, now: nat)
    returns (st: ClientObject.Status, ghost result: Option<UploadPump.Result>, ghost read: nat,
             ghost left: seq<Answer>)
    requires op.Valid() && i < op.slots.Length && op.slots[i].busy && now < U64
    requires client.Valid() && client.served == op.slots[i].requests
    requires pump.client == client && pump.ticket.calls == [] && pump.waits == []
    modifies client, client.buf, client.sock, pump, pump.ticket
    modifies op`active, op`open, op`status, op`timerPeriod, op.slots
    ensures var w := Exchange.React(client.server, client.managed, old(client.View()), e);
            && op.Valid()
            && (if w.conn.phase.Handed? then
                  var was := UploadPump.Before(w.link.script, w.link.incoming, w.link.wire, Exchange.Close,
                                               old(pump.ticket.verdicts), old(pump.tick));
                  st != ClientObject.Taken && pump.Uploaded(q, was, st, result, read, left)
                else client.Follows(w, st))
            && (w.conn.phase.Closed? ==> st == ClientObject.Failure)
            && (st == ClientObject.Success ==> client.Valid() && client.served == op.slots[i].requests)
            && (st != ClientObject.Pending ==>
                  && op.slots[..] == old(op.slots[..])[i :=
                       if st == ClientObject.Failure then OperatorSlots.NO_CLIENT
                       else
                         var moved :=
                           |old(client.sock.heard)| < |w.link.heard| || |old(client.sock.wire)| < |w.link.wire|;
                         var was := old(op.slots[i]);
                         OperatorSlots.Slot(true, was.fd, if moved then now else was.lastActivity, w.conn.served)]
                  && op.open
                     == (if st == ClientObject.Failure then old(op.open) - {old(op.slots[i]).fd} else old(op.open))
                  && if st == ClientObject.Failure && e != Exchange.Expiry then
                       && op.status == OperatorSlots.Active
                       && op.timerPeriod
                          == if op.active > 0 then OperatorSlots.PERIOD_SHORT else OperatorSlots.PERIOD_LONG
                     else op.status == old(op.status) && op.timerPeriod == old(op.timerPeriod))
  {
    hide Exchange.React, OperatorSlots.OnePlace, OperatorSlots.Clocked, UploadPump.Pump.Uploaded;
    ghost var before := client.View();
    result, read, left := None, 0, [];
    if e == Exchange.Expiry { ExpiryCloses(client.server, client.managed, before); }
    HandedAfterRead(client.server, client.managed, before, e);
    var slot := op.slots[i];
    var heard, written := |client.sock.heard|, |client.sock.wire|;
    st := client.Dispatch(e);
    var moved := heard < |client.sock.heard| || written < |client.sock.wire|;
    if st == ClientObject.Taken {
      st, result, read, left := Hand(client, pump, q);
    }
    OperatorSlots.SlotClock(op.slots[..], i);
    if e == Exchange.Expiry {
      op.Free(i);
    } else if st != ClientObject.Pending {
      var failed := st == ClientObject.Failure;
      var _ := op.HandleClient(slot.fd, i, if moved then now else slot.lastActivity, client.served, failed);
    }
  }
}

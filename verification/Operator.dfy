/**
  The slot table of one operator (operator.c): clients taken off the mailbox, removed on failure or hang-up, and swept
  for timeouts, with a count and a status beside the table that the dispatcher reads.
 */
module OperatorSlots {
  import opened Bytes
  import opened Counting

  const TIMEOUT_SHORT: nat := 15
  const TIMEOUT_LONG: nat := 60
  const PERIOD_SHORT: nat := 5
  const PERIOD_LONG: nat := 300

  datatype Slot = Slot(busy: bool, fd: int, lastActivity: nat, requests: nat)

  const NO_CLIENT := Slot(false, -1, 0, 0)

  datatype Status = Uninitialized | Initializing | Active | Full | Shutdown | InitFailed

  // ----- counting -----

  function CountBusy(slots: seq<Slot>): (n: nat)
    ensures n <= |slots|
  {
    if slots == [] then 0 else One(slots[0].busy) + CountBusy(slots[1..])
  }

  function Has(s: Slot, fd: int): nat {
    One(s.busy && s.fd == fd)
  }

  /** How many slots serve a descriptor. */
  function Serving(slots: seq<Slot>, fd: int): nat {
    if slots == [] then 0 else Has(slots[0], fd) + Serving(slots[1..], fd)
  }

  lemma {:induction false} CountPut(slots: seq<Slot>, i: nat, s: Slot)
    requires i < |slots|
    ensures CountBusy(slots[i := s]) + One(slots[i].busy) == CountBusy(slots) + One(s.busy)
  {
    hide One;
    if i == 0 {
      assert slots[0 := s][1..] == slots[1..];
    } else {
      CountPut(slots[1..], i - 1, s);
      assert slots[i := s][1..] == slots[1..][i - 1 := s];
    }
  }

  lemma {:induction false} ServingPut(slots: seq<Slot>, i: nat, s: Slot, fd: int)
    requires i < |slots|
    ensures Serving(slots[i := s], fd) + Has(slots[i], fd) == Serving(slots, fd) + Has(s, fd)
  {
    hide Has;
    if i == 0 {
      assert slots[0 := s][1..] == slots[1..];
    } else {
      ServingPut(slots[1..], i - 1, s, fd);
      assert slots[i := s][1..] == slots[1..][i - 1 := s];
    }
  }

  lemma {:induction false} ServingBounds(slots: seq<Slot>, i: nat, fd: int)
    requires i < |slots| && slots[i].busy && slots[i].fd == fd
    ensures Serving(slots, fd) >= 1
    ensures forall j :: 0 <= j < |slots| && j != i && slots[j].busy && slots[j].fd == fd ==> Serving(slots, fd) >= 2
  {
    if i > 0 {
      ServingBounds(slots[1..], i - 1, fd);
    } else {
      forall j | 0 < j < |slots| && slots[j].busy && slots[j].fd == fd ensures Serving(slots, fd) >= 2 {
        ServingBounds(slots[1..], j - 1, fd);
      }
    }
  }

  lemma {:induction false} FreeSlotCount(slots: seq<Slot>)
    ensures CountBusy(slots) == |slots| <==> forall i :: 0 <= i < |slots| ==> slots[i].busy
  {
    if slots != [] {
      FreeSlotCount(slots[1..]);
      if forall i :: 0 <= i < |slots| ==> slots[i].busy {
        forall i | 0 <= i < |slots| - 1 ensures slots[1..][i].busy { assert slots[i + 1].busy; }
      } else if slots[0].busy {
        var i :| 0 <= i < |slots| && !slots[i].busy;
        assert !slots[1..][i - 1].busy;
      }
    }
  }

  // ----- custody -----

  /**
    Each descriptor the operator was given and that is still open is in exactly one place: waiting in the ring, served
    by one slot, in `hand`, or among those the reject paths have let go of without closing.
   */
  ghost predicate OnePlace(ring: seq<int>, slots: seq<Slot>, rejected: set<int>, hand: set<int>, open: set<int>) {
    forall fd: int :: Placed(ring, slots, rejected, hand, open, fd)
  }

  predicate Placed(ring: seq<int>, slots: seq<Slot>, rejected: set<int>, hand: set<int>, open: set<int>, fd: int) {
    Queued(ring, fd) + Serving(slots, fd) + One(fd in rejected) + One(fd in hand) == One(fd in open)
  }

  // ----- timeouts -----

  function Timeout(s: Slot): nat {
    if s.requests == 0 then TIMEOUT_SHORT else TIMEOUT_LONG
  }

  /** Unsigned 64-bit difference. */
  predicate Expired(s: Slot, now: nat)
    requires s.lastActivity < U64 && now < U64
  {
    s.busy && (now + U64 - s.lastActivity) % U64 > Timeout(s)
  }

  /** What the wrap-around means: a clock set back expires everybody, unless it is set back by almost all of 2^64. */
  lemma ExpiryMeans(s: Slot, now: nat)
    requires s.lastActivity < U64 && now < U64
    ensures Expired(s, now) <==>
            s.busy && if s.lastActivity <= now then now - s.lastActivity > (if s.requests == 0 then 15 else 60)
                      else s.lastActivity - now < U64 - (if s.requests == 0 then 15 else 60)
  {
    if s.lastActivity <= now {
      assert now + U64 - s.lastActivity == (now - s.lastActivity) + U64;
      WrapOnce(now - s.lastActivity);
    } else {
      SmallMod(now + U64 - s.lastActivity, U64);
    }
  }

  lemma WrapOnce(n: nat)
    requires n < U64
    ensures (n + U64) % U64 == n
  {
  }

  predicate Clocked(slots: seq<Slot>) {
    forall i :: 0 <= i < |slots| ==> slots[i].lastActivity < U64
  }

  lemma SlotClock(slots: seq<Slot>, i: nat)
    requires i < |slots|
    ensures Clocked(slots) ==> slots[i].lastActivity < U64
  {
  }

  /** The table after a sweep, by definition: exactly the expired slots are free, the others as they were. */
  function Swept(slots: seq<Slot>, now: nat): (r: seq<Slot>)
    requires Clocked(slots) && now < U64
    ensures |r| == |slots|
  {
    seq(|slots|, i requires 0 <= i < |slots| && Clocked(slots) && now < U64 =>
      if Expired(slots[i], now) then NO_CLIENT else slots[i])
  }

  /** The descriptors a sweep closes. */
  function Evicted(slots: seq<Slot>, now: nat): set<int>
    requires Clocked(slots) && now < U64
  {
    set i | 0 <= i < |slots| && Expired(slots[i], now) :: slots[i].fd
  }

  function CountExpired(slots: seq<Slot>, now: nat): nat
    requires Clocked(slots) && now < U64
  {
    if slots == [] then 0 else One(Expired(slots[0], now)) + CountExpired(slots[1..], now)
  }

  /** The count falls by the number freed. */
  lemma {:induction false} SweptCount(slots: seq<Slot>, now: nat)
    requires Clocked(slots) && now < U64
    ensures CountBusy(Swept(slots, now)) + CountExpired(slots, now) == CountBusy(slots)
  {
    hide Timeout;
    if slots != [] {
      SweptCount(slots[1..], now);
      assert Swept(slots, now)[1..] == Swept(slots[1..], now);
    }
  }

  // ----- the operator -----

  class Operator {
    const slots: array<Slot>
    var active: nat
    var status: Status
    var timerPeriod: nat
    var ring: seq<int>
    /** The descriptors given to this operator and not closed; those a reject path forgot. */
    var open: set<int>
    ghost var rejected: set<int>
    /** What the kernel will say to each registration or option it is asked for. */
    var grants: seq<bool>

    ghost predicate Table(hand: set<int>)
      reads this, slots
    {
      && 0 < slots.Length < U32 && active == CountBusy(slots[..]) && Clocked(slots[..])
      && OnePlace(ring, slots[..], rejected, hand, open)
    }

    /** What holds between handlers. */
    ghost predicate Valid()
      reads this, slots
    {
      Table({}) && (status == Active ==> active < slots.Length)
    }

    constructor (maxClients: nat, grants: seq<bool>)
      requires 0 < maxClients < U32
      ensures Valid() && fresh(slots) && slots.Length == maxClients
      ensures active == 0 && ring == [] && status == Initializing
    {
      slots := new Slot[maxClients](_ => NO_CLIENT);
      active, status, timerPeriod, ring, open, rejected := 0, Initializing, PERIOD_LONG, [], {}, {};
      this.grants := grants;
      new;
      NoClients(slots[..]);
    }

    method Granted() returns (ok: bool)
      modifies this`grants
      ensures ok == (old(grants) != [] && old(grants)[0])
      ensures grants == if old(grants) == [] then [] else old(grants)[1..]
    {
      if grants == [] { return false; }
      ok := grants[0];
      grants := grants[1..];
    }

    method Close(fd: int)
      requires fd in open
      modifies this`open
      ensures open == old(open) - {fd}
    {
      open := open - {fd};
    }

    /** _operator_timer_update. */
    method TimerUpdate()
      modifies this`timerPeriod
      ensures timerPeriod == if active > 0 then 5 else 300
    {
      if active > 0 && timerPeriod != PERIOD_SHORT { timerPeriod := PERIOD_SHORT; }
      if active == 0 && timerPeriod != PERIOD_LONG { timerPeriod := PERIOD_LONG; }
    }

    /** _operator_status_update: whatever the status was, even Shutdown. */
    method StatusUpdate()
      modifies this`status
      ensures status == if active >= slots.Length then Full else Active
    {
      if active >= slots.Length && status != Full { status := Full; }
      if active < slots.Length && status != Active { status := Active; }
    }

    /** The first free slot. */
    method FreeSlot() returns (i: nat)
      ensures i <= slots.Length && forall j :: 0 <= j < i ==> slots[j].busy
      ensures i < slots.Length ==> !slots[i].busy
    {
      i := 0;
      while i < slots.Length
        invariant i <= slots.Length && forall j :: 0 <= j < i ==> slots[j].busy
      {
        if !slots[i].busy { return; }
        i := i + 1;
      }
    }

    /** Writes one slot. */
    method Set(i: nat, s: Slot)
      requires i < slots.Length
      modifies slots
      ensures slots[..] == old(slots[..])[i := s]
    {
      slots[i] := s;
    }

    /**
      _operator_add_client for a descriptor just taken off the ring: it ends in the first free slot, or, if there is
      none or the kernel refuses, in nobody's hands; nothing else changes.
     */
    method AddClient(fd: int, now: nat) returns (ok: bool)
      requires Table({fd}) && now < U64 && status == Active && active < slots.Length
      modifies this`active, this`status, this`timerPeriod, this`rejected, this`grants, slots
      ensures Valid()
      ensures ok ==>
                && rejected == old(rejected)
                && exists i: nat ::
                     && i < slots.Length && !old(slots[i]).busy && (forall j :: 0 <= j < i ==> old(slots[j]).busy)
                     && slots[..] == old(slots[..])[i := Slot(true, fd, now, 0)]
      ensures ok ==> timerPeriod == PERIOD_SHORT && status == if active >= slots.Length then Full else Active
      ensures ok <==> |old(grants)| >= 2 && old(grants)[0] && old(grants)[1]
      ensures ok ==> active == old(active) + 1 && grants == old(grants)[2..]
      ensures !ok ==> rejected == old(rejected) + {fd} && status == old(status) && active == old(active)
                      && timerPeriod == old(timerPeriod) && SameClients(old(slots[..]), slots[..])
    {
      hide Placed, Clocked;
      ghost var before := slots[..];
      var i := FreeSlot();
      RoomLeft(before, i);
      var granted := Granted();
      if !granted {
        rejected := rejected + {fd};
        LetGo(ring, before, old(rejected), open, fd);
        return false;
      }
      var free := slots[i];
      Set(i, free.(fd := fd));
      StillFree(before, i, fd);
      granted := Granted();
      if !granted {
        rejected := rejected + {fd};
        IdleSlotsHold(ring, before, i, fd, old(rejected), {fd}, open);
        LetGo(ring, slots[..], old(rejected), open, fd);
        return false;
      }
      Set(i, Slot(true, fd, now, 0));
      assert slots[..] == before[i := Slot(true, fd, now, 0)];
      active := Incremented(active);
      Taken(ring, before, rejected, open, i, Slot(true, fd, now, 0));
      CounterSteps(CountBusy(before));
      TimerUpdate();
      StatusUpdate();
      ok := true;
    }

    /** client_shutdown of a busy slot: its descriptor is closed, once, and the slot is free. */
    method Free(i: nat)
      requires i < slots.Length && slots[i].busy && Table({})
      modifies this`active, this`open, slots
      ensures Table({}) && slots[..] == old(slots[..])[i := NO_CLIENT]
      ensures open == old(open) - {old(slots[i]).fd} && active == old(active) - 1
    {
      hide Placed, Clocked;
      ghost var before := slots[..];
      Released(ring, before, rejected, open, i);
      Close(slots[i].fd);
      Set(i, NO_CLIENT);
      active := Decremented(active);
      CounterSteps(CountBusy(before));
    }

    /** _operator_remove_client_by_fd. */
    method RemoveByFd(fd: int) returns (ok: bool)
      requires Valid()
      modifies this`active, this`open, this`status, this`timerPeriod, slots
      ensures Valid() && ok == (Serving(old(slots[..]), fd) > 0)
      ensures !ok ==> slots[..] == old(slots[..]) && open == old(open) && active == old(active) && status == old(status)
      ensures ok ==>
                && open == old(open) - {fd} && status == Active && active == old(active) - 1
                && timerPeriod == (if active > 0 then PERIOD_SHORT else PERIOD_LONG)
                && exists i: nat :: i < slots.Length && old(slots[i]).busy && old(slots[i]).fd == fd
                                    && slots[..] == old(slots[..])[i := NO_CLIENT]
    {
      hide OnePlace, Clocked;
      var i: nat := 0;
      while i < slots.Length && !(slots[i].busy && slots[i].fd == fd)
        invariant i <= slots.Length && forall j :: 0 <= j < i ==> !(slots[j].busy && slots[j].fd == fd)
      {
        i := i + 1;
      }
      if i >= slots.Length {
        NotServed(slots[..], fd);
        return false;
      }
      ServingBounds(slots[..], i, fd);
      ghost var before := slots[..];
      Free(i);
      assert slots[..] == before[i := NO_CLIENT];
      TimerUpdate();
      StatusUpdate();
      ok := true;
    }

    /**
      _clean_clients: one pass over the whole table. Exactly the slots that had expired, each under its own timeout, are
      freed and their descriptors closed; the rest of the table is untouched, though the count shrinks during the scan.
     */
    method Sweep(now: nat)
      requires Valid() && now < U64
      modifies this`active, this`open, slots
      ensures Valid() && slots[..] == Swept(old(slots[..]), now)
      ensures active == old(active) - CountExpired(old(slots[..]), now)
      ensures open == old(open) - Evicted(old(slots[..]), now)
    {
      hide OnePlace;
      ghost var before := slots[..];
      var i: nat := 0;
      SweepStart(before, now);
      while i < slots.Length
        invariant i <= slots.Length && Table({}) && active <= old(active) && status == old(status)
        invariant slots[..] == Swept(before[..i], now) + before[i..]
        invariant open == old(open) - Evicted(before[..i], now)
      {
        SweepStep(before, now, i);
        if Expired(slots[i], now) { Free(i); }
        i := i + 1;
      }
      assert before[..i] == before;
      SweptCount(before, now);
    }

    /** _operator_handle_timer_event, when there was a tick to read. */
    method HandleTimer(now: nat)
      requires Valid() && now < U64
      modifies this`active, this`open, this`timerPeriod, slots
      ensures Valid() && slots[..] == Swept(old(slots[..]), now) && status == old(status)
      ensures active == old(active) - CountExpired(old(slots[..]), now)
      ensures open == old(open) - Evicted(old(slots[..]), now)
      ensures timerPeriod == if old(active) > 0 then PERIOD_SHORT else PERIOD_LONG
    {
      TimerUpdate();
      Sweep(now);
    }

    /** The dispatcher puts a newly accepted descriptor in the mailbox. */
    method Offer(fd: int)
      requires Valid() && fd !in open
      modifies this`ring, this`open
      ensures Valid() && ring == old(ring) + [fd] && open == old(open) + {fd}
    {
      Offered(ring, slots[..], rejected, open, fd);
      ring, open := ring + [fd], open + {fd};
    }

    /**
      _operator_handle_wakeup_event: takes descriptors off the mailbox one by one while the operator is active. Each
      gets a slot of its own, new as of now; all of them do exactly if the operator was active, there are slots enough
      and the kernel grants everything. The first that cannot be served ends the call, and stays open in nobody's hands.
     */
    method HandleWakeup(now: nat) returns (ok: bool)
      requires Valid() && now < U64
      modifies this`active, this`status, this`timerPeriod, this`rejected, this`grants, this`ring, slots
      ensures Valid()
      ensures open == old(open) && (ok ==> ring == [] && rejected == old(rejected))
      ensures Undisturbed(old(slots[..]), slots[..])
      ensures forall i :: 0 <= i < slots.Length && slots[i].busy && !old(slots[..])[i].busy ==>
                slots[i].fd in old(ring) && slots[i].lastActivity == now && slots[i].requests == 0
      ensures old(active) <= active <= old(active) + |old(ring)|
      ensures forall j :: 0 <= j < active - old(active) ==> Seated(slots[..], old(ring)[j])
      ensures !ok ==>
                && active < old(active) + |old(ring)| && ring == old(ring)[active - old(active) + 1..]
                && rejected == old(rejected) + {old(ring)[active - old(active)]}
      ensures ok <==>
                && (old(ring) == [] || old(status) == Active) && old(active) + |old(ring)| <= slots.Length
                && 2 * |old(ring)| <= |old(grants)|
                && forall g :: 0 <= g < 2 * |old(ring)| ==> old(grants)[g]
      ensures ok ==> active == old(active) + |old(ring)|
    {
      hide OnePlace, Clocked;
      ghost var k := 0;
      while ring != []
        invariant Valid() && rejected == old(rejected) && k + |ring| == |old(ring)| && ring == old(ring)[k..]
        invariant active == old(active) + k && 2 * k <= |old(grants)| && grants == old(grants)[2 * k..]
        invariant forall g :: 0 <= g < 2 * k ==> old(grants)[g]
        invariant k > 0 ==> old(status) == Active && status == if active >= slots.Length then Full else Active
        invariant k == 0 ==> status == old(status)
        invariant Undisturbed(old(slots[..]), slots[..])
        invariant forall i :: 0 <= i < slots.Length && slots[i].busy && !old(slots[..])[i].busy ==>
                    slots[i].fd in old(ring) && slots[i].lastActivity == now && slots[i].requests == 0
        invariant forall j :: 0 <= j < k ==> Seated(slots[..], old(ring)[j])
        decreases |ring|
      {
        ghost var before := slots[..];
        var fd := ring[0];
        assert fd == old(ring)[k];
        Popped(ring, slots[..], rejected, open);
        ring := ring[1..];
        Crowded(before);
        if status != Active {
          LetGo(ring, slots[..], rejected, open, fd);
          rejected := rejected + {fd};
          return false;
        }
        ghost var had := grants;
        var added := AddClient(fd, now);
        if !added {
          StillSeated(before, slots[..], old(ring)[..k]);
          NotGranted(old(grants), k);
          return false;
        }
        StillSeated(before, slots[..], old(ring)[..k]);
        k := k + 1;
      }
      ok := true;
    }

    /** What a client has recorded of its own activity and requests. */
    method Touch(i: nat, now: nat, requests: nat)
      requires Valid() && i < slots.Length && slots[i].busy && now < U64
      modifies slots
      ensures Valid() && slots[..] == old(slots[..])[i := old(slots[i]).(lastActivity := now, requests := requests)]
    {
      ghost var before := slots[..];
      Touched(ring, before, rejected, open, i, now, requests);
      Set(i, slots[i].(lastActivity := now, requests := requests));
    }

    /**
      The slot's part of _operator_handle_client_event: `now` and `requests` are what the client has left there, which
      may be what was there before; a failed client is removed.
     */
    method HandleClient(fd: int, i: nat, now: nat, requests: nat, failed: bool) returns (ok: bool)
      requires Valid() && now < U64 && i < slots.Length
      modifies this`active, this`open, this`status, this`timerPeriod, slots
      ensures Valid() && ok == (old(slots[i]).busy && old(slots[i]).fd == fd)
      ensures !ok ==> slots[..] == old(slots[..]) && open == old(open)
      ensures ok ==> open == if failed then old(open) - {fd} else old(open)
      ensures ok ==> slots[..] == old(slots[..])[i := if failed then NO_CLIENT else Slot(true, fd, now, requests)]
      ensures ok && failed ==> status == Active && timerPeriod == (if active > 0 then PERIOD_SHORT else PERIOD_LONG)
      ensures !(ok && failed) ==> status == old(status) && timerPeriod == old(timerPeriod)
    {
      hide OnePlace, Clocked;
      if slots[i].fd != fd || !slots[i].busy { return false; }
      Touch(i, now, requests);
      ok := true;
      if failed {
        ServingBounds(slots[..], i, fd);
        OneEach(ring, slots[..], rejected, open);
        var _ := RemoveByFd(fd);
      }
    }
  }

  datatype Event =
    | Assigned(fd: int)
    | Woken(now: nat)
    | Client(fd: int, slot: nat, now: nat, requests: nat, failed: bool)
    | HungUp(fd: int)
    | Tick(now: nat)
    | ShutdownAsked

  /** The table after any run of events, in any order, that keeps to the clock and to new descriptors being new. */
  method Serve(op: Operator, events: seq<Event>)
    requires op.Valid()
    modifies op, op.slots
    ensures op.Valid()
    ensures op.active == CountBusy(op.slots[..]) <= op.slots.Length
    ensures op.status == Active ==> op.active < op.slots.Length
    ensures DistinctClients(op.slots[..], op.open)
  {
    var i: nat := 0;
    while i < |events|
      invariant op.Valid()
    {
      match events[i] {
        case Assigned(fd) => if fd !in op.open { op.Offer(fd); }
        case Woken(now) => if now < U64 { var _ := op.HandleWakeup(now); }
        case Client(fd, slot, now, requests, failed) =>
          if now < U64 && slot < op.slots.Length { var _ := op.HandleClient(fd, slot, now, requests, failed); }
        case HungUp(fd) => var _ := op.RemoveByFd(fd);
        case Tick(now) => if now < U64 { op.HandleTimer(now); }
        case ShutdownAsked => op.status := Shutdown;
      }
      i := i + 1;
    }
    OneEach(op.ring, op.slots[..], op.rejected, op.open);
  }

  /** No two clients share a descriptor, and every client's is open. */
  predicate DistinctClients(slots: seq<Slot>, open: set<int>) {
    && (forall i :: 0 <= i < |slots| && slots[i].busy ==> slots[i].fd in open)
    && (forall i, j :: 0 <= i < |slots| && 0 <= j < |slots| && i != j && slots[i].busy && slots[j].busy ==>
          slots[i].fd != slots[j].fd)
  }

  lemma OneEach(ring: seq<int>, slots: seq<Slot>, rejected: set<int>, open: set<int>)
    requires OnePlace(ring, slots, rejected, {}, open)
    ensures DistinctClients(slots, open)
  {
    forall i | 0 <= i < |slots| && slots[i].busy
      ensures slots[i].fd in open
      ensures forall j :: 0 <= j < |slots| && i != j && slots[j].busy ==> slots[i].fd != slots[j].fd
    {
      assert Placed(ring, slots, rejected, {}, open, slots[i].fd);
      ServingBounds(slots, i, slots[i].fd);
    }
  }

  lemma {:induction false} NotServed(slots: seq<Slot>, fd: int)
    requires forall j :: 0 <= j < |slots| ==> !(slots[j].busy && slots[j].fd == fd)
    ensures Serving(slots, fd) == 0
  {
    if slots != [] {
      assert !(slots[0].busy && slots[0].fd == fd);
      NotServed(slots[1..], fd);
    }
  }

  lemma Released(ring: seq<int>, slots: seq<Slot>, rejected: set<int>, open: set<int>, i: nat)
    requires i < |slots| && slots[i].busy && OnePlace(ring, slots, rejected, {}, open) && Clocked(slots)
    ensures slots[i].fd in open && OnePlace(ring, slots[i := NO_CLIENT], rejected, {}, open - {slots[i].fd})
    ensures CountBusy(slots) > 0 && CountBusy(slots[i := NO_CLIENT]) == CountBusy(slots) - 1
    ensures Clocked(slots[i := NO_CLIENT])
  {
    hide Serving, Queued;
    var fd, after := slots[i].fd, slots[i := NO_CLIENT];
    CountPut(slots, i, NO_CLIENT);
    ServingBounds(slots, i, fd);
    assert Placed(ring, slots, rejected, {}, open, fd);
    forall x: int ensures Placed(ring, after, rejected, {}, open - {fd}, x) {
      assert Placed(ring, slots, rejected, {}, open, x);
      ServingPut(slots, i, NO_CLIENT, x);
    }
  }

  lemma Offered(ring: seq<int>, slots: seq<Slot>, rejected: set<int>, open: set<int>, fd: int)
    requires fd !in open && OnePlace(ring, slots, rejected, {}, open)
    ensures OnePlace(ring + [fd], slots, rejected, {}, open + {fd})
  {
    hide Serving, Queued;
    forall x: int ensures Placed(ring + [fd], slots, rejected, {}, open + {fd}, x) {
      assert Placed(ring, slots, rejected, {}, open, x);
      QueuedSnoc(ring, fd, x);
    }
  }

  lemma Popped(ring: seq<int>, slots: seq<Slot>, rejected: set<int>, open: set<int>)
    requires ring != [] && OnePlace(ring, slots, rejected, {}, open)
    ensures OnePlace(ring[1..], slots, rejected, {ring[0]}, open)
  {
    hide Serving;
    var rest := ring[1..];
    forall x: int ensures Placed(rest, slots, rejected, {ring[0]}, open, x) {
      assert Placed(ring, slots, rejected, {}, open, x);
    }
  }

  lemma Touched(ring: seq<int>, slots: seq<Slot>, rejected: set<int>, open: set<int>, i: nat, now: nat, requests: nat)
    requires i < |slots| && OnePlace(ring, slots, rejected, {}, open) && Clocked(slots) && now < U64
    ensures var after := slots[i := slots[i].(lastActivity := now, requests := requests)];
            OnePlace(ring, after, rejected, {}, open) && CountBusy(after) == CountBusy(slots) && Clocked(after)
  {
    hide Serving, Queued;
    var s := slots[i].(lastActivity := now, requests := requests);
    var after := slots[i := s];
    CountPut(slots, i, s);
    forall x: int ensures Placed(ring, after, rejected, {}, open, x) {
      assert Placed(ring, slots, rejected, {}, open, x);
      ServingPut(slots, i, s, x);
    }
  }

  lemma SweepStart(slots: seq<Slot>, now: nat)
    requires Clocked(slots) && now < U64
    ensures slots == Swept(slots[..0], now) + slots[0..] && Evicted(slots[..0], now) == {}
  {
  }

  /** One slot further: the part already swept grows by this slot, freed or kept. */
  lemma SweepStep(slots: seq<Slot>, now: nat, i: nat)
    requires Clocked(slots) && now < U64 && i < |slots|
    ensures Clocked(slots[..i]) && Clocked(slots[..i + 1])
    ensures var table := Swept(slots[..i], now) + slots[i..];
            && table[i] == slots[i]
            && Swept(slots[..i + 1], now) + slots[i + 1..]
               == (if Expired(slots[i], now) then table[i := NO_CLIENT] else table)
    ensures Evicted(slots[..i + 1], now)
         == Evicted(slots[..i], now) + (if Expired(slots[i], now) then {slots[i].fd} else {})
  {
    hide Expired;
    assert slots[..i + 1] == slots[..i] + [slots[i]];
    assert slots[i..] == [slots[i]] + slots[i + 1..];
  }

  /** Somebody serves the descriptor. */
  predicate Seated(slots: seq<Slot>, fd: int) {
    exists i :: 0 <= i < |slots| && slots[i].busy && slots[i].fd == fd
  }

  lemma StillSeated(before: seq<Slot>, after: seq<Slot>, fds: seq<int>)
    requires Undisturbed(before, after) && forall j :: 0 <= j < |fds| ==> Seated(before, fds[j])
    ensures forall j :: 0 <= j < |fds| ==> Seated(after, fds[j])
  {
    forall j | 0 <= j < |fds| ensures Seated(after, fds[j]) {
      var i :| 0 <= i < |before| && before[i].busy && before[i].fd == fds[j];
      assert after[i] == before[i];
    }
  }

  lemma Crowded(slots: seq<Slot>)
    ensures CountBusy(slots) <= |slots|
  {
  }

  /** A refusal among the next two answers is one among all that are needed. */
  lemma NotGranted(grants: seq<bool>, k: nat)
    requires 2 * k <= |grants|
    requires var rest := grants[2 * k..]; !(|rest| >= 2 && rest[0] && rest[1])
    ensures forall n: nat :: n > k ==>
              2 * n > |grants| || exists g :: 0 <= g < 2 * n && !grants[g]
  {
    forall n: nat | n > k && 2 * n <= |grants| ensures exists g :: 0 <= g < 2 * n && !grants[g] {
      var rest := grants[2 * k..];
      assert rest[0] == grants[2 * k] && rest[1] == grants[2 * k + 1];
    }
  }

  /** Clients that were there before are still there, as they were. */
  predicate Undisturbed(before: seq<Slot>, after: seq<Slot>) {
    |before| == |after| && forall i :: 0 <= i < |before| && before[i].busy ==> after[i] == before[i]
  }

  /** The same clients: busy slots are as they were, and no other has become busy. */
  predicate SameClients(before: seq<Slot>, after: seq<Slot>) {
    |before| == |after| && forall i :: 0 <= i < |before| ==>
      after[i].busy == before[i].busy && (before[i].busy ==> after[i] == before[i])
  }

  lemma RoomLeft(slots: seq<Slot>, i: nat)
    requires i <= |slots| && (forall j :: 0 <= j < i ==> slots[j].busy) && CountBusy(slots) < |slots|
    ensures i < |slots|
  {
    if i == |slots| { FreeSlotCount(slots); }
  }

  /** Writing a descriptor into a free slot serves nobody. */
  lemma StillFree(slots: seq<Slot>, i: nat, fd: int)
    requires i < |slots| && !slots[i].busy && Clocked(slots)
    ensures var after := slots[i := slots[i].(fd := fd)];
            SameClients(slots, after) && CountBusy(after) == CountBusy(slots) && Clocked(after)
  {
    CountPut(slots, i, slots[i].(fd := fd));
  }

  lemma IdleSlotsHold(ring: seq<int>, slots: seq<Slot>, i: nat, fd: int, rejected: set<int>, hand: set<int>,
                      open: set<int>)
    requires i < |slots| && !slots[i].busy && OnePlace(ring, slots, rejected, hand, open)
    ensures OnePlace(ring, slots[i := slots[i].(fd := fd)], rejected, hand, open)
  {
    hide Serving, Queued;
    var after := slots[i := slots[i].(fd := fd)];
    forall x: int ensures Placed(ring, after, rejected, hand, open, x) {
      assert Placed(ring, slots, rejected, hand, open, x);
      ServingPut(slots, i, slots[i].(fd := fd), x);
    }
  }

  lemma LetGo(ring: seq<int>, slots: seq<Slot>, rejected: set<int>, open: set<int>, fd: int)
    requires OnePlace(ring, slots, rejected, {fd}, open)
    ensures OnePlace(ring, slots, rejected + {fd}, {}, open)
  {
    hide Serving, Queued;
    forall x: int ensures Placed(ring, slots, rejected + {fd}, {}, open, x) {
      assert Placed(ring, slots, rejected, {fd}, open, x);
    }
  }

  lemma Taken(ring: seq<int>, slots: seq<Slot>, rejected: set<int>, open: set<int>, i: nat, s: Slot)
    requires i < |slots| && !slots[i].busy && s.busy && s.lastActivity < U64 && Clocked(slots)
    requires OnePlace(ring, slots, rejected, {s.fd}, open)
    ensures OnePlace(ring, slots[i := s], rejected, {}, open)
    ensures CountBusy(slots[i := s]) == CountBusy(slots) + 1 && Clocked(slots[i := s])
  {
    hide Serving, Queued;
    CountPut(slots, i, s);
    var after := slots[i := s];
    forall x: int ensures Placed(ring, after, rejected, {}, open, x) {
      assert Placed(ring, slots, rejected, {s.fd}, open, x);
      ServingPut(slots, i, s, x);
    }
  }

  lemma {:induction false} NoClients(slots: seq<Slot>)
    requires forall i :: 0 <= i < |slots| ==> slots[i] == NO_CLIENT
    ensures CountBusy(slots) == 0 && forall fd: int :: Serving(slots, fd) == 0
  {
    if slots != [] { NoClients(slots[1..]); }
  }
}

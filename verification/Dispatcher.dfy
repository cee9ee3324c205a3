/**
  worker.c's placement of new connections: the least loaded operator gets the next one, except that an operator below a
  tenth of its capacity is taken without looking further. Loads are sums of two unsigned 32-bit counts.
 */
module Dispatcher {
  import opened Bytes
  import opened Counting
  import opened Options

  const UINT_MAX: nat := 0xFFFF_FFFF

  /** An operator as the dispatcher sees it; `ring` is its mailbox of capacity `room`. */
  datatype Op = Op(full: bool, active: nat, queued: nat, ring: seq<int>, room: nat, healthy: bool)

  function Load(op: Op): nat {
    (op.active + op.queued) % U32
  }

  // ----- the scan -----

  /**
    Whether `i` is what the scan should come up with: the first below the threshold, or else the first of the lightest.
   */
  ghost predicate Best(ops: seq<Op>, threshold: nat, i: nat) {
    && i < |ops| && !ops[i].full
    && if Load(ops[i]) < threshold then
         forall j :: 0 <= j < i ==> ops[j].full || Load(ops[j]) >= threshold
       else
         && Load(ops[i]) < UINT_MAX
         && (forall j :: 0 <= j < |ops| ==> ops[j].full || Load(ops[j]) >= threshold)
         && (forall j :: 0 <= j < |ops| ==> ops[j].full || Load(ops[j]) >= Load(ops[i]))
         && (forall j :: 0 <= j < i ==> ops[j].full || Load(ops[j]) > Load(ops[i]))
  }

  /** Nobody can be chosen: an operator is FULL, or its load is the largest there is. */
  ghost predicate NobodyFree(ops: seq<Op>, threshold: nat) {
    forall j :: 0 <= j < |ops| ==> ops[j].full || (Load(ops[j]) >= threshold && Load(ops[j]) >= UINT_MAX)
  }

  /** The best of those before `i`, as the scan remembers it. */
  ghost predicate BestBefore(ops: seq<Op>, threshold: nat, i: nat, load: nat, index: nat) {
    && i <= |ops|
    && (forall j :: 0 <= j < i ==> ops[j].full || Load(ops[j]) >= threshold)
    && (forall j :: 0 <= j < i ==> ops[j].full || Load(ops[j]) >= load)
    && load <= UINT_MAX
    && (load < UINT_MAX ==>
          && index < i && !ops[index].full && Load(ops[index]) == load
          && forall j :: 0 <= j < index ==> ops[j].full || Load(ops[j]) > load)
  }

  /** Nobody can be chosen, but the scan ends on an operator that is not FULL. */
  ghost predicate MarksFull(ops: seq<Op>, threshold: nat) {
    NobodyFree(ops, threshold) && ops != [] && !ops[|ops| - 1].full
  }

  lemma LoadBound(op: Op)
    ensures Load(op) <= UINT_MAX
  {
  }

  /** There is never a choice between two. */
  lemma BestIsUnique(ops: seq<Op>, threshold: nat, i: nat, j: nat)
    requires Best(ops, threshold, i) && Best(ops, threshold, j)
    ensures i == j
  {
    hide Load;
  }

  /**
    Where no sum of counts overflows and no load is below the threshold, the choice is an operator, not FULL, with the
    fewest connections in hand and on the way together.
   */
  lemma BestIsLightest(ops: seq<Op>, threshold: nat, i: nat)
    requires Best(ops, threshold, i) && forall j :: 0 <= j < |ops| ==> ops[j].active + ops[j].queued < U32
    ensures i < |ops| && !ops[i].full
    ensures ops[i].active + ops[i].queued < threshold
            || forall j :: 0 <= j < |ops| && !ops[j].full ==>
                 ops[i].active + ops[i].queued <= ops[j].active + ops[j].queued
  {
    forall j | 0 <= j < |ops| ensures Load(ops[j]) == ops[j].active + ops[j].queued {
      SmallMod(ops[j].active + ops[j].queued, U32);
    }
  }

  datatype Status = Inactive | Active | Full

  class Worker {
    var ops: seq<Op>
    var status: Status
    var maxClients: nat

    constructor (ops: seq<Op>, maxClients: nat)
      ensures this.ops == ops && this.maxClients == maxClients && status == Active
    {
      this.ops, this.maxClients, status := ops, maxClients, Active;
    }

    /**
      _least_loaded_operator. The worker is marked full exactly if nobody can be chosen and yet the last operator is not
      FULL, having the largest load there is; when all operators are FULL it is left as it was.
     */
    method LeastLoaded() returns (best: Option<nat>)
      modifies this`status
      ensures match best
              case Some(i) => Best(ops, maxClients / 10, i)
              case None => NobodyFree(ops, maxClients / 10)
      ensures status
           == if ops != [] && !ops[|ops| - 1].full && NobodyFree(ops, maxClients / 10) then Full else old(status)
    {
      hide Load;
      var threshold := maxClients / 10;
      var index: nat, lightest: nat := 0, UINT_MAX;
      var i: nat := 0;
      while i < |ops|
        invariant BestBefore(ops, threshold, i, lightest, index)
        invariant status == if i == |ops| > 0 && lightest == UINT_MAX && !ops[|ops| - 1].full then Full else old(status)
      {
        if !ops[i].full {
          var load := Load(ops[i]);
          LoadBound(ops[i]);
          if load < threshold { return Some(i); }
          if load < lightest { lightest, index := load, i; }
          if i == |ops| - 1 && lightest == UINT_MAX { status := Full; }
        }
        i := i + 1;
      }
      if lightest == UINT_MAX { return None; }
      best := Some(index);
    }

    /** worker_dispatch_to_operator. */
    method Dispatch(fd: int) returns (ok: bool)
      modifies this`ops, this`status
      ensures ok <==>
                && fd >= 0 && old(status) == Active
                && exists i: nat :: Best(old(ops), maxClients / 10, i)
                                    && old(ops)[i].healthy && |old(ops)[i].ring| < old(ops)[i].room
      ensures ok ==>
                && |ops| == |old(ops)| && status == Active
                && exists i: nat ::
                     && Best(old(ops), maxClients / 10, i) && i < |ops|
                     && ops[i].ring == old(ops)[i].ring + [fd] && ops[i].queued == (old(ops)[i].queued + 1) % U32
                     && ops[i].full == old(ops)[i].full && ops[i].active == old(ops)[i].active
                     && ops[i].room == old(ops)[i].room && ops[i].healthy == old(ops)[i].healthy
                     && forall j :: 0 <= j < |ops| && j != i ==> ops[j] == old(ops)[j]
      ensures !ok ==> ops == old(ops)
      ensures status
           == if fd >= 0 && old(status) == Active && MarksFull(old(ops), maxClients / 10) then Full else old(status)
    {
      hide Best, NobodyFree;
      if fd < 0 { return false; }
      if status != Active { return false; }
      var best := LeastLoaded();
      match best
      case None =>
        NobodyIsBest(ops, maxClients / 10);
        return false;
      case Some(i) =>
        OnlyBest(ops, maxClients / 10, i);
        SomebodyIsFree(ops, maxClients / 10, i);
        assert Best(old(ops), maxClients / 10, i);
        if !ops[i].healthy { return false; }
        if |ops[i].ring| >= ops[i].room { return false; }
        ops := Placed(ops, i, fd);
        return true;
    }
  }

  function Placed(ops: seq<Op>, i: nat, fd: int): (r: seq<Op>)
    requires i < |ops|
  {
    ops[i := ops[i].(ring := ops[i].ring + [fd], queued := Incremented(ops[i].queued))]
  }

  /** A dispatch succeeds: the best operator is healthy and its mailbox has room; no other is tried. */
  ghost predicate Accepts(ops: seq<Op>, status: Status, threshold: nat, fd: int) {
    && fd >= 0 && status == Active
    && exists i: nat :: Best(ops, threshold, i) && ops[i].healthy && |ops[i].ring| < ops[i].room
  }

  lemma NobodyIsBest(ops: seq<Op>, threshold: nat)
    requires NobodyFree(ops, threshold)
    ensures forall i: nat :: !Best(ops, threshold, i)
  {
  }

  lemma SomebodyIsFree(ops: seq<Op>, threshold: nat, i: nat)
    requires Best(ops, threshold, i)
    ensures !NobodyFree(ops, threshold)
  {
  }

  lemma OnlyBest(ops: seq<Op>, threshold: nat, i: nat)
    requires Best(ops, threshold, i)
    ensures i < |ops| && forall j: nat :: Best(ops, threshold, j) ==> j == i
  {
    hide Best;
    forall j: nat | Best(ops, threshold, j) ensures j == i { BestIsUnique(ops, threshold, i, j); }
    BestIndex(ops, threshold, i);
  }

  lemma BestIndex(ops: seq<Op>, threshold: nat, i: nat)
    requires Best(ops, threshold, i)
    ensures i < |ops|
  {
  }

  // ----- saturation -----

  /** `n` operators that have not started to take anything off their mailboxes. */
  function Fresh(n: nat, room: nat): seq<Op> {
    seq(n, _ => Op(false, 0, 0, [], room, true))
  }

  /** One dispatch while the worker is active. */
  ghost function Dispatched(ops: seq<Op>, threshold: nat, fd: int): seq<Op> {
    if Accepts(ops, Active, threshold, fd) then
      var i: nat :| Best(ops, threshold, i) && ops[i].healthy && |ops[i].ring| < ops[i].room;
      Placed(ops, i, fd)
    else ops
  }

  ghost function DispatchAll(ops: seq<Op>, threshold: nat, fds: seq<int>): seq<Op> {
    if fds == [] then ops else Dispatched(DispatchAll(ops, threshold, fds[..|fds| - 1]), threshold, fds[|fds| - 1])
  }

  /**
    How the mailboxes fill: first one operator after another up to the threshold, the one at `place` holding `height`;
    then all of them level by level, those before `place` one higher than `height`.
   */
  datatype Shape = Filling(place: nat, height: nat) | Level(place: nat, height: nat)

  function NextShape(s: Shape, n: nat, threshold: nat): Shape {
    match s
    case Filling(place, height) =>
      if height + 1 < threshold then Filling(place, height + 1)
      else if place + 1 < n then Filling(place + 1, 0)
      else Level(0, threshold)
    case Level(place, height) => if place + 1 < n then Level(place + 1, height) else Level(0, height + 1)
  }

  function ShapeAt(k: nat, n: nat, threshold: nat): Shape {
    if k == 0 then if threshold == 0 then Level(0, 0) else Filling(0, 0)
    else NextShape(ShapeAt(k - 1, n, threshold), n, threshold)
  }

  function Height(s: Shape, threshold: nat, j: nat): nat {
    match s
    case Filling(place, height) => if j < place then threshold else if j == place then height else 0
    case Level(place, height) => if j < place then height + 1 else height
  }

  predicate Plain(op: Op, height: nat, room: nat) {
    !op.full && op.healthy && op.active == 0 && op.room == room && op.queued == |op.ring| == height
  }

  predicate Shaped(ops: seq<Op>, s: Shape, threshold: nat, room: nat) {
    forall j :: 0 <= j < |ops| ==> Plain(ops[j], Height(s, threshold, j), room)
  }

  predicate ShapeOk(s: Shape, n: nat, threshold: nat) {
    s.place < n && if s.Filling? then s.height < threshold else s.height >= threshold
  }

  /** How many have been placed. */
  function Total(s: Shape, n: nat, threshold: nat): nat {
    match s
    case Filling(place, height) => place * threshold + height
    case Level(place, height) => n * height + place
  }

  lemma {:induction false} ShapeAtFits(k: nat, n: nat, threshold: nat)
    requires n > 0
    ensures ShapeOk(ShapeAt(k, n, threshold), n, threshold) && Total(ShapeAt(k, n, threshold), n, threshold) == k
  {
    if k > 0 {
      ShapeAtFits(k - 1, n, threshold);
      var s := ShapeAt(k - 1, n, threshold);
      match s
      case Filling(place, height) => Distribute(place, threshold); Distribute(n - 1, threshold);
      case Level(place, height) => Distribute(height, n);
    }
  }

  lemma Distribute(a: nat, b: nat)
    ensures (a + 1) * b == a * b + b && b * (a + 1) == b * a + b && a * b == b * a
  {
  }

  /** The load of an operator is the height of its mailbox. */
  lemma PlainLoad(op: Op, height: nat, room: nat)
    requires Plain(op, height, room) && height <= room < UINT_MAX
    ensures Load(op) == height
  {
    SmallMod(height, U32);
  }

  lemma ShapedBest(ops: seq<Op>, s: Shape, threshold: nat, room: nat)
    requires Shaped(ops, s, threshold, room) && ShapeOk(s, |ops|, threshold)
    requires room < UINT_MAX && forall j :: 0 <= j < |ops| ==> Height(s, threshold, j) <= room
    ensures Best(ops, threshold, s.place)
  {
    hide Load, Plain;
    forall j | 0 <= j < |ops| ensures !ops[j].full && Load(ops[j]) == Height(s, threshold, j) {
      PlainLoad(ops[j], Height(s, threshold, j), room);
      PlainOpen(ops[j], Height(s, threshold, j), room);
    }
  }

  lemma PlainOpen(op: Op, height: nat, room: nat)
    requires Plain(op, height, room)
    ensures !op.full && op.healthy && |op.ring| == height && op.room == room
  {
  }

  /** One more dispatch finds room exactly if the operator in turn has some, and then moves the shape on. */
  lemma ShapedDispatch(ops: seq<Op>, s: Shape, threshold: nat, room: nat, fd: int)
    requires Shaped(ops, s, threshold, room) && ShapeOk(s, |ops|, threshold) && fd >= 0
    requires room < UINT_MAX && forall j :: 0 <= j < |ops| ==> Height(s, threshold, j) <= room
    ensures Accepts(ops, Active, threshold, fd) <==> s.height < room
    ensures s.height < room ==> Shaped(Dispatched(ops, threshold, fd), NextShape(s, |ops|, threshold), threshold, room)
                                && |Dispatched(ops, threshold, fd)| == |ops|
  {
    hide Best;
    ShapedBest(ops, s, threshold, room);
    OnlyBest(ops, threshold, s.place);
    assert Plain(ops[s.place], s.height, room);
    if s.height < room {
      var next := Dispatched(ops, threshold, fd);
      assert next == Placed(ops, s.place, fd);
      CounterSteps(s.height);
      assert Plain(next[s.place], s.height + 1, room);
      forall j | 0 <= j < |next| ensures Plain(next[j], Height(NextShape(s, |ops|, threshold), threshold, j), room) {
        assert Plain(ops[j], Height(s, threshold, j), room);
      }
    }
  }

  /** Below the whole capacity the operator in turn has room; at the whole capacity it has not. */
  lemma RoomInTurn(k: nat, n: nat, threshold: nat, room: nat)
    requires n > 0 && k <= n * room && (threshold <= room || n == 1)
    ensures var s := ShapeAt(k, n, threshold);
            && (k < n * room ==> s.height < room) && (k == n * room ==> s.height >= room)
            && forall j :: 0 <= j < n ==> Height(s, threshold, j) <= room
  {
    ShapeAtFits(k, n, threshold);
    var s := ShapeAt(k, n, threshold);
    match s
    case Filling(place, height) =>
      if n > 1 {
        Product(place, n - 1, threshold, threshold);
        Product(n, n, threshold, room);
        Distribute(n - 1, threshold);
      }
    case Level(place, height) =>
      LevelBelow(n, height, place, room);
  }

  lemma LevelBelow(n: nat, height: nat, place: nat, room: nat)
    requires place < n && n * height + place <= n * room
    ensures height < room || (height == room && place == 0)
    ensures n * height + place == n * room ==> height == room
  {
    Distribute(height, n);
    Distribute(room, n);
    if height < room { Product(n, n, height + 1, room); } else { Product(n, n, room, height); }
    if height > room { Product(n, n, room + 1, height); }
  }

  lemma Product(a: nat, b: nat, c: nat, d: nat)
    requires a <= b && c <= d
    ensures a * c <= b * d
  {
    assert b * d - a * c == (b - a) * d + a * (d - c);
    NonNegative(b - a, d);
    NonNegative(a, d - c);
  }

  lemma NonNegative(a: nat, b: nat)
    ensures a * b >= 0
  {
  }

  lemma {:induction false} ShapedRun(fds: seq<int>, n: nat, threshold: nat, room: nat)
    requires n > 0 && room < UINT_MAX && (threshold <= room || n == 1)
    requires |fds| <= n * room && forall i :: 0 <= i < |fds| ==> fds[i] >= 0
    ensures var ops := DispatchAll(Fresh(n, room), threshold, fds);
            |ops| == n && Shaped(ops, ShapeAt(|fds|, n, threshold), threshold, room)
  {
    hide Dispatched, Plain, Height, NextShape;
    if fds == [] {
      FreshShape(n, threshold, room);
    } else {
      var before, last := fds[..|fds| - 1], fds[|fds| - 1];
      ShapedRun(before, n, threshold, room);
      RoomInTurn(|before|, n, threshold, room);
      ShapeAtFits(|before|, n, threshold);
      var filled := DispatchAll(Fresh(n, room), threshold, before);
      ShapedDispatch(filled, ShapeAt(|before|, n, threshold), threshold, room, last);
    }
  }

  lemma FreshShape(n: nat, threshold: nat, room: nat)
    ensures Shaped(Fresh(n, room), ShapeAt(0, n, threshold), threshold, room)
  {
  }

  predicate AllSucceed(n: nat, threshold: nat, room: nat) {
    threshold <= room || n == 1
  }

  /** How often a descriptor waits in the mailboxes, all of them together. */
  function Held(ops: seq<Op>, fd: int): nat {
    if ops == [] then 0 else Queued(ops[0].ring, fd) + Held(ops[1..], fd)
  }

  lemma {:induction false} HeldPut(ops: seq<Op>, i: nat, op: Op, last: int, fd: int)
    requires i < |ops| && op.ring == ops[i].ring + [last]
    ensures Held(ops[i := op], fd) == Held(ops, fd) + One(last == fd)
  {
    hide Queued;
    if i == 0 {
      QueuedSnoc(ops[0].ring, last, fd);
      assert ops[0 := op][1..] == ops[1..];
    } else {
      HeldPut(ops[1..], i - 1, op, last, fd);
      assert ops[i := op][1..] == ops[1..][i - 1 := op];
    }
  }

  lemma {:induction false} NoneHeld(ops: seq<Op>, fd: int)
    requires forall j :: 0 <= j < |ops| ==> ops[j].ring == []
    ensures Held(ops, fd) == 0
  {
    if ops != [] { NoneHeld(ops[1..], fd); }
  }

  /** Each descriptor waits as often as it was dispatched. */
  lemma {:induction false} EachIsHeld(fds: seq<int>, n: nat, threshold: nat, room: nat, fd: int)
    requires n > 0 && room < UINT_MAX && AllSucceed(n, threshold, room)
    requires |fds| <= n * room && forall i :: 0 <= i < |fds| ==> fds[i] >= 0
    ensures Held(DispatchAll(Fresh(n, room), threshold, fds), fd) == Queued(fds, fd)
  {
    hide Dispatched, Best, Accepts, Plain, Height, Held, Queued;
    if fds == [] {
      NoneHeld(Fresh(n, room), fd);
      assert Queued([], fd) == 0 by { NoneQueued(fd); }
    } else {
      var before, last := fds[..|fds| - 1], fds[|fds| - 1];
      var filled, s := DispatchAll(Fresh(n, room), threshold, before), ShapeAt(|before|, n, threshold);
      EachIsHeld(before, n, threshold, room, fd);
      ShapedRun(before, n, threshold, room);
      RoomInTurn(|before|, n, threshold, room);
      ShapeAtFits(|before|, n, threshold);
      ShapedDispatch(filled, s, threshold, room, last);
      ShapedBest(filled, s, threshold, room);
      DispatchedIs(filled, threshold, last, s.place);
      HeldPut(filled, s.place, Placed(filled, s.place, last)[s.place], last, fd);
      QueuedSnoc(before, last, fd);
      assert fds == before + [last];
    }
  }

  lemma NoneQueued(fd: int)
    ensures Queued([], fd) == 0
  {
  }

  /**
    Saturation. With nobody taking anything off the mailboxes, any n * room descriptors are all placed, each of them
    waiting in exactly one mailbox as often as it was dispatched, and the next one is refused; at every moment, once all
    loads have reached the threshold, they differ by at most one.
   */
  lemma Saturation(fds: seq<int>, n: nat, threshold: nat, room: nat, next: int)
    requires n > 0 && 0 < room < UINT_MAX && AllSucceed(n, threshold, room)
    requires |fds| <= n * room && forall i :: 0 <= i < |fds| ==> fds[i] >= 0
    requires next >= 0
    ensures var ops := DispatchAll(Fresh(n, room), threshold, fds);
            && (Accepts(ops, Active, threshold, next) <==> |fds| < n * room)
            && |ops| == n && Waiting(ops) == |fds| && (forall fd: int :: Held(ops, fd) == Queued(fds, fd))
            && ((forall j :: 0 <= j < n ==> |ops[j].ring| >= threshold) ==>
                  forall i, j :: 0 <= i < n && 0 <= j < n ==> |ops[i].ring| <= |ops[j].ring| + 1)
  {
    hide Dispatched, DispatchAll, Best, Accepts, Waiting, Held;
    var ops, s := DispatchAll(Fresh(n, room), threshold, fds), ShapeAt(|fds|, n, threshold);
    ShapedRun(fds, n, threshold, room);
    RoomInTurn(|fds|, n, threshold, room);
    ShapeAtFits(|fds|, n, threshold);
    ShapedDispatch(ops, s, threshold, room, next);
    ShapeTotal(ops, s, threshold, room);
    forall fd: int ensures Held(ops, fd) == Queued(fds, fd) { EachIsHeld(fds, n, threshold, room, fd); }
    forall j | 0 <= j < n ensures |ops[j].ring| == Height(s, threshold, j) {
      assert Plain(ops[j], Height(s, threshold, j), room);
    }
    if s.Filling? { assert |ops[s.place].ring| < threshold; }
  }

  function Waiting(ops: seq<Op>): nat {
    if ops == [] then 0 else Waiting(ops[..|ops| - 1]) + |ops[|ops| - 1].ring|
  }

  lemma ShapeTotal(ops: seq<Op>, s: Shape, threshold: nat, room: nat)
    requires Shaped(ops, s, threshold, room) && ShapeOk(s, |ops|, threshold)
    ensures Waiting(ops) == Total(s, |ops|, threshold)
  {
    hide Plain, Height;
    QueuedUpTo(ops, s, threshold, room, |ops|);
    assert ops[..|ops|] == ops;
  }

  lemma {:induction false} QueuedUpTo(ops: seq<Op>, s: Shape, threshold: nat, room: nat, k: nat)
    requires Shaped(ops, s, threshold, room) && k <= |ops|
    ensures Waiting(ops[..k]) == match s
              case Filling(place, height) => if k <= place then k * threshold else place * threshold + height
              case Level(place, height) => k * height + if k <= place then k else place
  {
    if k > 0 {
      QueuedUpTo(ops, s, threshold, room, k - 1);
      assert ops[..k][..k - 1] == ops[..k - 1];
      assert Plain(ops[k - 1], Height(s, threshold, k - 1), room);
      match s
      case Filling(place, height) => Distribute(k - 1, threshold);
      case Level(place, height) => Distribute(k - 1, height);
    }
  }

  /**
    With a threshold above the capacity of a mailbox the first one is blindly chosen for good, however empty the rest.
   */
  lemma {:induction false} BlindToTheEnd(fds: seq<int>, n: nat, threshold: nat, room: nat)
    requires n > 1 && room < UINT_MAX && threshold > room && |fds| <= room && forall i :: 0 <= i < |fds| ==> fds[i] >= 0
    ensures var ops := DispatchAll(Fresh(n, room), threshold, fds);
            |ops| == n && Shaped(ops, Filling(0, |fds|), threshold, room)
  {
    hide Dispatched, Plain, Height;
    if fds == [] {
      FreshShape(n, threshold, room);
    } else {
      var before, last := fds[..|fds| - 1], fds[|fds| - 1];
      BlindToTheEnd(before, n, threshold, room);
      LowHeights(|before|, threshold, room, n);
      ShapedDispatch(DispatchAll(Fresh(n, room), threshold, before), Filling(0, |before|), threshold, room, last);
    }
  }

  lemma LowHeights(height: nat, threshold: nat, room: nat, n: nat)
    requires height <= room
    ensures forall j :: 0 <= j < n ==> Height(Filling(0, height), threshold, j) <= room
  {
  }

  /** The first n * room dispatches all succeed if and only if the threshold is at most the capacity, or n is one. */
  lemma SaturationExactly(n: nat, threshold: nat, room: nat)
    requires n > 0 && 0 < room < UINT_MAX
    ensures AllSucceed(n, threshold, room) <==>
            forall fds: seq<int>, next: int ::
              |fds| < n * room && (forall i :: 0 <= i < |fds| ==> fds[i] >= 0) && next >= 0 ==>
                Accepts(DispatchAll(Fresh(n, room), threshold, fds), Active, threshold, next)
  {
    hide DispatchAll, Accepts, Dispatched;
    if AllSucceed(n, threshold, room) {
      forall fds: seq<int>, next: int |
        |fds| < n * room && (forall i :: 0 <= i < |fds| ==> fds[i] >= 0) && next >= 0
        ensures Accepts(DispatchAll(Fresh(n, room), threshold, fds), Active, threshold, next)
      {
        Saturation(fds, n, threshold, room, next);
      }
    } else {
      var fds := seq(room, _ => 0);
      BlindToTheEnd(fds, n, threshold, room);
      LowHeights(room, threshold, room, n);
      Product(2, n, room, room);
      ShapedDispatch(DispatchAll(Fresh(n, room), threshold, fds), Filling(0, room), threshold, room, 0);
      assert |fds| < n * room;
    }
  }

  lemma DispatchedIs(ops: seq<Op>, threshold: nat, fd: int, i: nat)
    requires Accepts(ops, Active, threshold, fd) && Best(ops, threshold, i)
    ensures i < |ops| && Dispatched(ops, threshold, fd) == Placed(ops, i, fd)
  {
    hide Best;
    OnlyBest(ops, threshold, i);
  }

  /** What a dispatch that succeeds leaves is what the fill expects. */
  lemma PlacedIsDispatched(before: seq<Op>, after: seq<Op>, threshold: nat, fd: int)
    requires Accepts(before, Active, threshold, fd) && |after| == |before|
    requires exists i: nat ::
               && Best(before, threshold, i) && i < |after|
               && after[i].ring == before[i].ring + [fd] && after[i].queued == (before[i].queued + 1) % U32
               && after[i].full == before[i].full && after[i].active == before[i].active
               && after[i].room == before[i].room && after[i].healthy == before[i].healthy
               && forall j :: 0 <= j < |after| && j != i ==> after[j] == before[j]
    ensures after == Dispatched(before, threshold, fd)
  {
    hide Best, Dispatched;
    var i: nat :|
      && Best(before, threshold, i) && i < |after|
      && after[i].ring == before[i].ring + [fd] && after[i].queued == (before[i].queued + 1) % U32
      && after[i].full == before[i].full && after[i].active == before[i].active
      && after[i].room == before[i].room && after[i].healthy == before[i].healthy
      && forall j :: 0 <= j < |after| && j != i ==> after[j] == before[j];
    DispatchedIs(before, threshold, fd, i);
    assert after == Placed(before, i, fd);
  }

  /**
    The load balance test, for any number of operators, mailboxes and descriptors: all are placed, and one more fails.
   */
  method FillAndTryOneMore(n: nat, room: nat, maxClients: nat, fds: seq<int>, next: int)
    returns (placed: nat, more: bool)
    requires n > 0 && 0 < room < UINT_MAX && AllSucceed(n, maxClients / 10, room)
    requires |fds| <= n * room && next >= 0 && forall i :: 0 <= i < |fds| ==> fds[i] >= 0
    ensures placed == |fds| && more == (|fds| < n * room)
  {
    hide Dispatched, Best;
    var threshold := maxClients / 10;
    var w := new Worker(Fresh(n, room), maxClients);
    placed := 0;
    var i: nat := 0;
    assert fds[..0] == [];
    while i < |fds|
      invariant i <= |fds| && placed == i && w.maxClients == maxClients && w.status == Active
      invariant w.ops == DispatchAll(Fresh(n, room), threshold, fds[..i])
    {
      Saturation(fds[..i], n, threshold, room, fds[i]);
      ghost var before := w.ops;
      var ok := w.Dispatch(fds[i]);
      if ok {
        PlacedIsDispatched(before, w.ops, threshold, fds[i]);
        placed := placed + 1;
      }
      assert fds[..i + 1][..i] == fds[..i];
      i := i + 1;
    }
    assert fds[..i] == fds;
    Saturation(fds, n, threshold, room, next);
    more := w.Dispatch(next);
  }
}

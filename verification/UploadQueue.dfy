/**
  The circular queue behind the upload pool, as upload_worker.c keeps it in an array of 32 descriptors with a head, a
  tail and a count. It behaves as the sequence of descriptors that UploadPool reasons about.
 */
module UploadQueue {

  const QUEUE_MAX: nat := 32

  /** The place `i` steps after `head` on the circle. */
  function Slot(head: nat, i: nat): (p: nat)
    ensures p < QUEUE_MAX
  {
    (head + i) % QUEUE_MAX
  }

  /** The sequence a circular array stands for. */
  function Ring(slots: seq<int>, head: nat, count: nat): (c: seq<int>)
    requires |slots| == QUEUE_MAX
    ensures |c| == count
  {
    seq(count, i requires 0 <= i < count && |slots| == QUEUE_MAX => slots[Slot(head, i)])
  }

  lemma SlotsApart(head: nat, i: nat, count: nat)
    requires i < count < QUEUE_MAX
    ensures Slot(head, i) != Slot(head, count)
  {
  }

  lemma SlotNext(head: nat, i: nat)
    ensures Slot(Slot(head, 1), i) == Slot(head, i + 1)
  {
  }

  lemma SlotFirst(head: nat)
    requires head < QUEUE_MAX
    ensures Slot(head, 0) == head
  {
  }

  /** Writing at the tail appends, as long as the circle is not full. */
  lemma RingPut(slots: seq<int>, head: nat, count: nat, fd: int)
    requires |slots| == QUEUE_MAX && count < QUEUE_MAX
    ensures Ring(slots[Slot(head, count) := fd], head, count + 1) == Ring(slots, head, count) + [fd]
  {
    hide Slot;
    var put := slots[Slot(head, count) := fd];
    forall i | 0 <= i < count ensures put[Slot(head, i)] == slots[Slot(head, i)] { SlotsApart(head, i, count); }
  }

  /** Moving the head takes the first. */
  lemma RingTake(slots: seq<int>, head: nat, count: nat)
    requires |slots| == QUEUE_MAX && 0 < count && head < QUEUE_MAX
    ensures Ring(slots, head, count) == [slots[head]] + Ring(slots, Slot(head, 1), count - 1)
  {
    hide Slot;
    SlotFirst(head);
    var ring, rest := Ring(slots, head, count), Ring(slots, Slot(head, 1), count - 1);
    forall i | 0 <= i < count - 1 ensures rest[i] == ring[i + 1] { SlotNext(head, i); }
  }

  class Queue {
    const slots: array<int>
    var head: nat
    var tail: nat
    var count: nat
    var most: nat
    var running: bool

    ghost predicate Valid()
      reads this
    {
      slots.Length == QUEUE_MAX && head < QUEUE_MAX && count <= most <= QUEUE_MAX && tail == Slot(head, count)
    }

    /** The descriptors waiting, first come first. */
    ghost function Contents(): (c: seq<int>)
      requires Valid()
      reads this, slots
      ensures |c| == count
    {
      Ring(slots[..], head, count)
    }

    constructor ()
      ensures Valid() && Contents() == [] && !running && most == 0 && fresh(slots)
    {
      slots := new int[QUEUE_MAX];
      head, tail, count, most, running := 0, 0, 0, 0, false;
    }

    /** The queue's part of upload_workers_init. */
    method Init(depth: nat) returns (ok: bool)
      requires Valid()
      modifies this
      ensures Valid() && ok == (0 < depth <= 32 && !old(running))
      ensures if ok then Contents() == [] && most == depth && running
              else Contents() == old(Contents()) && most == old(most) && running == old(running)
    {
      ok := 0 < depth <= QUEUE_MAX && !running;
      if ok { head, tail, count, most, running := 0, 0, 0, depth, true; }
    }

    /** upload_worker_dispatch: at the end of the line, unless the pool is stopped or saturated. */
    method Dispatch(fd: int) returns (ok: bool)
      requires Valid()
      modifies this`tail, this`count, slots
      ensures Valid() && ok == (fd >= 0 && running && |old(Contents())| < most)
      ensures Contents() == if ok then old(Contents()) + [fd] else old(Contents())
    {
      if fd < 0 || !running { return false; }
      if count >= most { return false; }
      ghost var before := slots[..];
      RingPut(before, head, count, fd);
      slots[tail] := fd;
      assert slots[..] == before[tail := fd];
      tail := (tail + 1) % QUEUE_MAX;
      count := count + 1;
      ok := true;
    }

    /** A worker's turn, once it knows the queue is not empty. */
    method Take() returns (fd: int)
      requires Valid() && count > 0
      modifies this`head, this`count
      ensures Valid() && old(Contents()) == [fd] + Contents()
    {
      RingTake(slots[..], head, count);
      fd := slots[head];
      head := (head + 1) % QUEUE_MAX;
      count := count - 1;
    }

    /** The part of upload_workers_shutdown under the mutex: stop, and close whatever is queued, in order. */
    method Drain() returns (closed: seq<int>)
      requires Valid()
      modifies this`head, this`count, this`running
      ensures Valid() && !running && Contents() == [] && closed == old(Contents())
    {
      running, closed := false, [];
      while count > 0
        invariant Valid() && !running && old(Contents()) == closed + Contents()
        decreases count
      {
        ghost var rest := Contents();
        var fd := Take();
        assert closed + rest == (closed + [fd]) + Contents();
        closed := closed + [fd];
      }
    }
  }
}

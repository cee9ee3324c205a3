/** Counting descriptors in queues, and 32-bit counters. */
module Counting {
  import opened Bytes

  function One(b: bool): nat {
    if b then 1 else 0
  }

  /** How often a descriptor occurs in a queue. */
  function Queued(queue: seq<int>, fd: int): nat {
    if queue == [] then 0 else One(queue[0] == fd) + Queued(queue[1..], fd)
  }

  lemma {:induction false} QueuedSnoc(queue: seq<int>, last: int, fd: int)
    ensures Queued(queue + [last], fd) == Queued(queue, fd) + One(last == fd)
  {
    if queue == [] {
      assert (queue + [last])[1..] == [];
    } else {
      QueuedSnoc(queue[1..], last, fd);
      assert (queue + [last])[1..] == queue[1..] + [last];
    }
  }

  lemma QueuedHead(queue: seq<int>, fd: int)
    requires queue != []
    ensures Queued(queue, fd) == One(queue[0] == fd) + Queued(queue[1..], fd)
  {
  }

  /** atomic_fetch_add of one. */
  function Incremented(n: nat): nat {
    (n + 1) % U32
  }

  /** atomic_fetch_sub of one. */
  function Decremented(n: nat): nat {
    (n + U32 - 1) % U32
  }

  lemma CounterSteps(n: nat)
    requires n < U32
    ensures Incremented(n) == if n == U32 - 1 then 0 else n + 1
    ensures Decremented(n) == if n == 0 then U32 - 1 else n - 1
  {
    if n > 0 { assert n + U32 - 1 == (n - 1) + U32; }
  }
}

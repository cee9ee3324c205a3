/**
  The mailbox between the dispatcher and one operator: a bounded ring, and beside it a 32-bit count of what waits in the
  ring that each side updates after its own ring operation. The dispatcher pushes and then adds, the operator pops and
  then subtracts, and the four steps interleave freely.
 */
module Mailbox {
  import opened Bytes
  import opened Counting

  datatype State = State(
    ring: seq<int>,
    /** queued_clients: unsigned, wraps. */
    count: nat,
    /** The dispatcher has pushed and not yet added; the operator has popped and not yet subtracted. */
    pushed: bool,
    popped: bool,
    sent: seq<int>,
    received: seq<int>)

  /** What either thread does next; Read is the dispatcher looking at the count to compare loads. */
  datatype Action = Push(fd: int) | Add | Pop | Subtract | Read

  const EMPTY := State([], 0, false, false, [], [])

  function Step(s: State, a: Action, capacity: nat): State {
    match a
    case Push(fd) =>
      if !s.pushed && |s.ring| < capacity then s.(ring := s.ring + [fd], pushed := true, sent := s.sent + [fd]) else s
    case Add => if s.pushed then s.(count := Incremented(s.count), pushed := false) else s
    case Pop =>
      if !s.popped && s.ring != [] then
        s.(ring := s.ring[1..], popped := true, received := s.received + [s.ring[0]])
      else s
    case Subtract => if s.popped then s.(count := Decremented(s.count), popped := false) else s
    case Read => s
  }

  function Run(s: State, actions: seq<Action>, capacity: nat): State
    decreases |actions|
  {
    if actions == [] then s else Run(Step(s, actions[0], capacity), actions[1..], capacity)
  }

  /** What the count stands for while the two sides are in the middle of their updates. */
  function Owed(s: State): int {
    |s.ring| - One(s.pushed) + One(s.popped)
  }

  predicate Inv(s: State, capacity: nat) {
    && |s.ring| <= capacity && s.count < U32
    && s.count == (if Owed(s) < 0 then U32 - 1 else Owed(s))
    && s.sent == s.received + s.ring
  }

  lemma StepKeeps(s: State, a: Action, capacity: nat)
    requires capacity + 1 < U32 && Inv(s, capacity)
    ensures Inv(Step(s, a, capacity), capacity)
  {
    if a.Push? {
      assert s.received + (s.ring + [a.fd]) == s.received + s.ring + [a.fd];
    } else if a.Pop? && s.ring != [] {
      assert s.ring == [s.ring[0]] + s.ring[1..];
    }
    CounterSteps(s.count);
  }

  lemma {:induction false} RunKeeps(s: State, actions: seq<Action>, capacity: nat)
    requires capacity + 1 < U32 && Inv(s, capacity)
    ensures Inv(Run(s, actions, capacity), capacity)
    decreases |actions|
  {
    hide Step, Inv;
    if actions != [] {
      StepKeeps(s, actions[0], capacity);
      RunKeeps(Step(s, actions[0], capacity), actions[1..], capacity);
    }
  }

  /**
    Mailbox accounting. Under every interleaving the operator receives what was sent, in order, and whenever the
    dispatcher can look (it is not in the middle of its own update) the count is the length of the ring or one more,
    and so at most one more than the capacity.
   */
  lemma DispatcherReads(actions: seq<Action>, capacity: nat)
    requires capacity + 1 < U32
    ensures var s := Run(EMPTY, actions, capacity);
            && s.sent == s.received + s.ring
            && (!s.pushed ==> s.count in {|s.ring|, |s.ring| + 1} && s.count <= capacity + 1)
            && (!s.pushed && !s.popped ==> s.count == |s.ring|)
  {
    hide Run;
    RunKeeps(EMPTY, actions, capacity);
  }

  /** The count does wrap: the operator may subtract before the dispatcher has added. */
  lemma CountWraps()
    ensures Run(EMPTY, [Push(7), Pop, Subtract], 8).count == U32 - 1
  {
    var s1 := Step(EMPTY, Push(7), 8);
    var s2 := Step(s1, Pop, 8);
    assert s1.ring == [7];
    var s3 := Step(s2, Subtract, 8);
    assert Run(s2, [Subtract], 8) == s3;
    assert [Pop, Subtract][1..] == [Subtract];
    assert Run(s1, [Pop, Subtract], 8) == s3;
    assert [Push(7), Pop, Subtract][1..] == [Pop, Subtract];
  }

  /** The bound is reached: a ring refilled between the operator's pop and its subtraction reads as one too many. */
  lemma BoundIsReached()
    ensures var s := Run(EMPTY, [Push(7), Add, Pop, Push(8), Add], 1); !s.pushed && s.count == 2
  {
    var s1 := Step(EMPTY, Push(7), 1);
    var s2 := Step(s1, Add, 1);
    var s3 := Step(s2, Pop, 1);
    var s4 := Step(s3, Push(8), 1);
    var s5 := Step(s4, Add, 1);
    assert s1.ring == [7] && s3.ring == [] && s5.count == 2;
    assert Run(s4, [Add], 1) == s5;
    assert [Push(8), Add][1..] == [Add];
    assert Run(s3, [Push(8), Add], 1) == s5;
    assert [Pop, Push(8), Add][1..] == [Push(8), Add];
    assert Run(s2, [Pop, Push(8), Add], 1) == s5;
    assert [Add, Pop, Push(8), Add][1..] == [Pop, Push(8), Add];
    assert Run(s1, [Add, Pop, Push(8), Add], 1) == s5;
    assert [Push(7), Add, Pop, Push(8), Add][1..] == [Add, Pop, Push(8), Add];
  }
}

/**
  The kernel as an adversary. A script lists the answers it will give to the system calls of one connection, in order;
  every theorem quantifies over all scripts, so over every pattern of partial counts, interruptions and failures.
 */
module Kernel {
  import opened Bytes

  /** One answer: a count (0 is end of file, a timeout or an empty write), EINTR, EAGAIN or any other errno. */
  datatype Answer = Count(n: nat) | Interrupted | WouldBlock | Fault

  /** How a transfer ended; a transfer still waiting for an answer when the script runs out is Unfinished. */
  datatype End = Done | Broken | Unfinished

  /** What a transfer got through, what is left of the script, and how it ended. */
  datatype Push = Push(sent: nat, rest: seq<Answer>, end: End) {
    /** The same transfer after `k` more bytes that went before it. */
    function Plus(k: nat): Push {
      Push(k + sent, rest, end)
    }
  }

  // ----- what has been used of a script -----

  /** `rest` is what is left of `script` once some of its answers have been used. */
  predicate LeftOf(script: seq<Answer>, rest: seq<Answer>) {
    |rest| <= |script| && rest == script[|script| - |rest|..]
  }

  function LastUsed(script: seq<Answer>, rest: seq<Answer>): Answer
    requires |rest| < |script|
  {
    script[|script| - |rest| - 1]
  }

  /** The answer used last was that to a wait, after the kernel had taken nothing. */
  predicate Waited(script: seq<Answer>, rest: seq<Answer>) {
    |rest| + 1 < |script| && script[|script| - |rest| - 2] == WouldBlock
  }

  predicate Positive(a: Answer) {
    a.Count? && a.n > 0
  }

  /** Answers used before do not change which was used last. */
  lemma LeftOfTail(script: seq<Answer>, k: nat, rest: seq<Answer>)
    requires k <= |script| && LeftOf(script[k..], rest)
    ensures LeftOf(script, rest)
    ensures |rest| < |script[k..]| ==> LastUsed(script, rest) == LastUsed(script[k..], rest)
    ensures Waited(script[k..], rest) ==> Waited(script, rest)
  {
    var tail := script[k..];
    assert tail[|tail| - |rest|..] == script[|script| - |rest|..];
  }

  function Min(a: nat, b: nat): nat {
    if a <= b then a else b
  }

  /** A count never exceeds what there is to move. */
  function Limited(a: Answer, most: nat): (b: Answer)
    ensures b.Count? ==> b.n <= most
  {
    if a.Count? then Count(Min(a.n, most)) else a
  }

  /** Writing `len` bytes to the end, waiting for writability when the socket is full; one failed wait gives up. */
  function PushAll(script: seq<Answer>, len: nat): (p: Push)
    ensures p.sent <= len && |p.rest| <= |script|
    ensures p.end == Done <==> p.sent == len
    ensures p.end == Unfinished ==> p.rest == []
    decreases |script|
  {
    if len == 0 then Push(0, script, Done)
    else if script == [] then Push(0, [], Unfinished)
    else match script[0]
      case Count(n) =>
        if n == 0 then Push(0, script[1..], Broken)
        else PushAll(script[1..], len - Min(n, len)).Plus(Min(n, len))
      case Interrupted => PushAll(script[1..], len)
      case WouldBlock =>
        if |script| == 1 then Push(0, [], Unfinished)
        else if script[1].Count? && script[1].n > 0 then PushAll(script[2..], len)
        else Push(0, script[2..], Broken)
      case Fault => Push(0, script[1..], Broken)
  }

  /** Why a transfer ended where it did. */
  predicate PushReason(script: seq<Answer>, p: Push) {
    && LeftOf(script, p.rest)
    && (p.end == Broken ==>
          && |p.rest| < |script|
          && var a := LastUsed(script, p.rest);
             a == Fault || a == Count(0) || (Waited(script, p.rest) && !Positive(a)))
  }

  lemma PushReasonTail(script: seq<Answer>, j: nat, p: Push, k: nat)
    requires j <= |script| && PushReason(script[j..], p)
    ensures PushReason(script, p.Plus(k))
  {
    LeftOfTail(script, j, p.rest);
  }

  /** After `j` answers, the last of them a refusal. */
  lemma RefusedHere(script: seq<Answer>, j: nat)
    requires 0 < j <= |script|
    requires || script[j - 1] == Fault || script[j - 1] == Count(0)
             || (j > 1 && script[j - 2] == WouldBlock && !Positive(script[j - 1]))
    ensures PushReason(script, Push(0, script[j..], Broken))
  {
  }

  lemma NotRefused(script: seq<Answer>, j: nat, end: End)
    requires j <= |script| && end != Broken
    ensures PushReason(script, Push(0, script[j..], end))
  {
  }

  /** A transfer is only given up when the kernel refuses it, or a wait for the socket. */
  lemma {:induction false} PushStops(script: seq<Answer>, len: nat)
    ensures PushReason(script, PushAll(script, len))
    decreases |script|
  {
    hide PushReason;
    if len == 0 || script == [] {
      NotRefused(script, 0, PushAll(script, len).end);
      assert script[0..] == script;
    } else if script[0] == Fault || script[0] == Count(0) {
      RefusedHere(script, 1);
    } else if script[0].Count? {
      var k := Min(script[0].n, len);
      PushStops(script[1..], len - k);
      PushReasonTail(script, 1, PushAll(script[1..], len - k), k);
    } else if script[0] == Interrupted {
      PushStops(script[1..], len);
      PushReasonTail(script, 1, PushAll(script[1..], len), 0);
    } else if |script| == 1 {
      NotRefused(script, 1, Unfinished);
    } else if Positive(script[1]) {
      PushStops(script[2..], len);
      PushReasonTail(script, 2, PushAll(script[2..], len), 0);
    } else {
      RefusedHere(script, 2);
    }
  }

  /** One turn of the loop. */
  lemma PushStep(script: seq<Answer>, len: nat)
    requires len > 0 && script != []
    ensures PushAll(script, len) ==
            match script[0]
            case Count(n) =>
              if n == 0 then Push(0, script[1..], Broken)
              else PushAll(script[1..], len - Min(n, len)).Plus(Min(n, len))
            case Interrupted => PushAll(script[1..], len)
            case WouldBlock =>
              if script[1..] == [] then Push(0, [], Unfinished)
              else if script[1].Count? && script[1].n > 0 then PushAll(script[1..][1..], len)
              else Push(0, script[1..][1..], Broken)
            case Fault => Push(0, script[1..], Broken)
  {
    if |script| > 1 { assert script[1..][1..] == script[2..]; }
  }

  lemma PushEnds(script: seq<Answer>, len: nat)
    ensures len == 0 ==> PushAll(script, len) == Push(0, script, Done)
    ensures len > 0 && script == [] ==> PushAll(script, len) == Push(0, [], Unfinished)
  {
  }

  /** The size of a client's buffer, 32 KiB. */
  const BUFFER: nat := 32768

  /**
    The socket of one connection: what the kernel will answer, what the peer has yet to send, what has been read (one
    element a call) and every byte the kernel has accepted.
   */
  class Socket {
    var script: seq<Answer>
    var incoming: seq<byte>
    var heard: seq<seq<byte>>
    var wire: seq<byte>

    constructor (answers: seq<Answer>, peer: seq<byte>)
      ensures script == answers && incoming == peer && heard == [] && wire == []
    {
      script := answers;
      incoming := peer;
      heard := [];
      wire := [];
    }

    /** Takes the next answer, whatever the call. */
    method Ask() returns (a: Answer)
      requires script != []
      modifies this`script
      ensures a == old(script)[0] && script == old(script)[1..]
    {
      a := script[0];
      script := script[1..];
    }

    /** read(2): at most `room` of the bytes the peer has sent; nothing at all is end of file. */
    method Read(room: nat) returns (a: Answer, data: seq<byte>)
      requires script != []
      modifies this`script, this`incoming, this`heard
      ensures script == old(script)[1..]
      ensures a == Limited(old(script)[0], Min(room, |old(incoming)|))
      ensures data == if a.Count? then old(incoming)[..a.n] else []
      ensures incoming == old(incoming)[|data|..]
      ensures heard == old(heard) + (if data == [] then [] else [data])
    {
      a := Ask();
      data := [];
      if a.Count? {
        a := Count(Min(a.n, Min(room, |incoming|)));
        data := incoming[..a.n];
        incoming := incoming[a.n..];
        if data != [] { heard := heard + [data]; }
      }
    }

    /** write(2): the kernel takes a prefix of the data. */
    method Write(data: seq<byte>) returns (a: Answer)
      requires script != []
      modifies this`script, this`wire
      ensures script == old(script)[1..]
      ensures a == Limited(old(script)[0], |data|)
      ensures wire == old(wire) + (if a.Count? then data[..a.n] else [])
    {
      a := Ask();
      if a.Count? {
        a := Count(Min(a.n, |data|));
        wire := wire + data[..a.n];
      }
    }
  }
}

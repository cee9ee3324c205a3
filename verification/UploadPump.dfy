/**
  The upload pump of upload_pump.c: it moves exactly the declared number of body bytes from the socket into a ticket of
  the application, which it must then commit or abort exactly once. The kernel, the clock and the application's verdict
  on each chunk are adversaries.
 */
module UploadPump {
  import opened Bytes
  import opened Options
  import opened Kernel
  import opened HttpMessage
  import opened Exchange
  import opened ClientObject

  const READ_TIMEOUT_MS: nat := 10000
  const MAX_WALL_MS: nat := 7200000
  const DRAIN_MS: nat := 2000
  const DRAIN_BYTES: nat := 4194304

  // ----- the ticket -----

  datatype Verb = Begun(ok: bool) | Chunk(data: seq<byte>, ok: bool) | Committed | Aborted

  /**
    The life of a ticket for a body: Spoiled by a refused chunk, Gone after its one end, Misused after anything else.
   */
  datatype Life = Untaken | Live(got: seq<byte>) | Spoiled | Gone | Misused

  function After(life: Life, v: Verb, body: seq<byte>): Life {
    match life
    case Untaken => if v == Begun(true) then Live([]) else if v == Begun(false) then Gone else Misused
    case Live(got) =>
      (match v
       case Chunk(data, ok) => if ok then Live(got + data) else Spoiled
       case Committed => if got == body then Gone else Misused
       case Aborted => Gone
       case Begun(_) => Misused)
    case Spoiled => if v == Aborted then Gone else Misused
    case _ => Misused
  }

  function Track(calls: seq<Verb>, body: seq<byte>): Life {
    if calls == [] then Untaken else After(Track(calls[..|calls| - 1], body), calls[|calls| - 1], body)
  }

  lemma TrackSnoc(calls: seq<Verb>, v: Verb, body: seq<byte>)
    ensures Track(calls + [v], body) == After(Track(calls, body), v, body)
  {
    assert (calls + [v])[..|calls|] == calls;
  }

  /** Everything the application was handed, accepted or not. */
  function Offered(calls: seq<Verb>): seq<byte> {
    if calls == [] then [] else
    Offered(calls[..|calls| - 1]) + (if calls[|calls| - 1].Chunk? then calls[|calls| - 1].data else [])
  }

  lemma OfferedSnoc(calls: seq<Verb>, v: Verb)
    ensures Offered(calls + [v]) == Offered(calls) + (if v.Chunk? then v.data else [])
  {
    assert (calls + [v])[..|calls|] == calls;
  }

  // ----- the transfer, as the adversaries see it -----

  datatype Result = Ok | Answered(status: nat) | Vanished | Stuck

  /**
    How much was read from the socket, what is left of each adversary, and how the transfer ended; Stuck is a transfer
    the run ends in.
   */
  datatype Fed = Fed(read: nat, script: seq<Answer>, tick: nat, verdicts: seq<bool>, result: Result) {
    function Plus(k: nat): Fed {
      Fed(k + read, script, tick, verdicts, result)
    }
  }

  function Says(verdicts: seq<bool>): bool {
    verdicts == [] || verdicts[0]
  }

  function Later(verdicts: seq<bool>): seq<bool> {
    if verdicts == [] then [] else verdicts[1..]
  }

  /** Moving `remaining` bytes when the peer still has `avail` to send; `tick` counts the readings of the clock. */
  function Feed(script: seq<Answer>, clock: nat -> nat, tick: nat, verdicts: seq<bool>, deadline: nat, remaining: nat,
                avail: nat): (f: Fed)
    ensures f.read <= remaining && f.read <= avail
    ensures f.result == Ok ==> f.read == remaining
    decreases |script|
  {
    if remaining == 0 then Fed(0, script, tick, verdicts, Ok)
    else if clock(tick) >= deadline then Fed(0, script, tick + 1, verdicts, Answered(408))
    else if script == [] then Fed(0, [], tick + 1, verdicts, Stuck)
    else match script[0]
      case Interrupted => Feed(script[1..], clock, tick + 1, verdicts, deadline, remaining, avail)
      case WouldBlock => Fed(0, script[1..], tick + 1, verdicts, Answered(500))
      case Fault => Fed(0, script[1..], tick + 1, verdicts, Answered(500))
      case Count(ready) =>
        if ready == 0 then Fed(0, script[1..], tick + 1, verdicts, Answered(400))
        else if |script| == 1 then Fed(0, [], tick + 1, verdicts, Stuck)
        else FeedRead(script, clock, tick, verdicts, deadline, remaining, avail)
  }

  /** The turn's read, once poll has said there is something. */
  function FeedRead(script: seq<Answer>, clock: nat -> nat, tick: nat, verdicts: seq<bool>, deadline: nat,
                    remaining: nat, avail: nat): (f: Fed)
    requires remaining > 0 && |script| > 1
    ensures f.read <= remaining && f.read <= avail
    ensures f.result == Ok ==> f.read == remaining
    decreases |script|, 0
  {
    match Limited(script[1], Min(Min(remaining, BUFFER), avail))
    case Interrupted => Feed(script[2..], clock, tick + 1, verdicts, deadline, remaining, avail)
    case WouldBlock => Feed(script[2..], clock, tick + 1, verdicts, deadline, remaining, avail)
    case Fault => Fed(0, script[2..], tick + 1, verdicts, Answered(500))
    case Count(got) =>
      if got == 0 then Fed(0, script[2..], tick + 1, verdicts, Vanished)
      else if !Says(verdicts) then Fed(got, script[2..], tick + 1, Later(verdicts), Answered(400))
      else Feed(script[2..], clock, tick + 1, Later(verdicts), deadline, remaining - got, avail - got).Plus(got)
  }

  /** The whole transfer: the leftover first, and only then does the clock start for the rest. */
  function Transfer(script: seq<Answer>, clock: nat -> nat, tick: nat, verdicts: seq<bool>, leftover: nat, total: nat,
                    avail: nat): (f: Fed)
    requires leftover <= total
    ensures leftover + f.read <= total && f.read <= avail && (f.result == Ok ==> leftover + f.read == total)
  {
    if leftover > 0 && !Says(verdicts) then Fed(0, script, tick, Later(verdicts), Answered(400))
    else
      var rest := if leftover > 0 then Later(verdicts) else verdicts;
      Feed(script, clock, tick + 1, rest, clock(tick) + MAX_WALL_MS, total - leftover, avail)
  }

  lemma TransferRefused(script: seq<Answer>, clock: nat -> nat, tick: nat, verdicts: seq<bool>, leftover: nat,
                        total: nat, avail: nat)
    requires 0 < leftover <= total && !Says(verdicts)
    ensures Transfer(script, clock, tick, verdicts, leftover, total, avail)
         == Fed(0, script, tick, Later(verdicts), Answered(400))
  {
  }

  lemma TransferStarts(script: seq<Answer>, clock: nat -> nat, tick: nat, verdicts: seq<bool>, leftover: nat,
                       total: nat, avail: nat)
    requires leftover <= total && (leftover > 0 ==> Says(verdicts))
    ensures Transfer(script, clock, tick, verdicts, leftover, total, avail)
         == Feed(script, clock, tick + 1, if leftover > 0 then Later(verdicts) else verdicts, clock(tick) + MAX_WALL_MS,
                 total - leftover, avail)
  {
  }

  /** What a reply adds to the wire of a socket that is at `script`. */
  ghost predicate Replied(reply: Option<Rendered>, script: seq<Answer>, managed: bool, before: seq<byte>,
                          after: seq<byte>) {
    match reply
    case None => after == before
    case Some(m) =>
      var out := Compose(m.message);
      after == before + out[..Drive(script, |out|, managed).sent]
  }

  /** The one answer an upload gets once its ticket is open; nobody is left to answer if the peer has gone. */
  function AnswerTo(server: Server, policy: Policy, result: Result, outcome: Response): Option<Rendered> {
    match result
    case Ok => Render(server, Answer(outcome), policy)
    case Answered(status) => Some(Rendered(ErrorMessage(status), Close))
    case _ => None
  }

  // ----- turn by turn -----

  /** The answers of a turn after which the transfer goes on: an interrupted poll, or a read that may go on. */
  predicate GoesOn(turn: seq<Answer>) {
    || turn == [Interrupted]
    || (|turn| == 2 && Positive(turn[0]) && (turn[1] == Interrupted || turn[1] == WouldBlock || Positive(turn[1])))
  }

  function Answers(turns: seq<seq<Answer>>): seq<Answer> {
    if turns == [] then [] else turns[0] + Answers(turns[1..])
  }

  /** One turn after the other goes on, each begun before the deadline. */
  predicate AllGoOn(turns: seq<seq<Answer>>, clock: nat -> nat, tick: nat, deadline: nat) {
    turns == [] || (GoesOn(turns[0]) && clock(tick) < deadline && AllGoOn(turns[1..], clock, tick + 1, deadline))
  }

  /** Why a transfer ends with `f` after so many turns that went on, when the last one's answers are `last`. */
  predicate FeedReason(clock: nat -> nat, tick: nat, deadline: nat, remaining: nat, avail: nat, f: Fed, turns: nat,
                       last: seq<Answer>) {
    match f.result
    case Ok => last == [] && f.read == remaining && f.tick == tick + turns
    case Answered(status) =>
      && f.tick == tick + turns + 1
      && (status == 408 <==> clock(tick + turns) >= deadline)
      && (if status == 408 then last == []
          else if status == 500 then
            || last == [WouldBlock] || last == [Fault]
            || (|last| == 2 && Positive(last[0]) && last[1] == Fault)
          else
            && status == 400
            && (last == [Count(0)] || (|last| == 2 && Positive(last[0]) && Positive(last[1]) && f.read > 0)))
    case Vanished =>
      && f.tick == tick + turns + 1 && clock(tick + turns) < deadline
      && |last| == 2 && Positive(last[0]) && last[1].Count? && (last[1].n == 0 || f.read == avail)
    case Stuck =>
      && f.tick == tick + turns + 1 && clock(tick + turns) < deadline && f.script == []
      && (last == [] || (|last| == 1 && Positive(last[0])))
  }

  /** The first turn is one to go on after, and `read` bytes of it are handed on. */
  predicate FirstGoesOn(script: seq<Answer>, verdicts: seq<bool>, remaining: nat, avail: nat, turn: nat, read: nat) {
    if script == [] then false
    else if script[0] == Interrupted then turn == 1 && read == 0
    else if !Positive(script[0]) || |script| == 1 then false
    else
      var a := Limited(script[1], Min(Min(remaining, BUFFER), avail));
      && turn == 2
      && if a == Interrupted || a == WouldBlock then read == 0 else a == Count(read) && read > 0 && Says(verdicts)
  }

  lemma FeedFirst(script: seq<Answer>, clock: nat -> nat, tick: nat, verdicts: seq<bool>, deadline: nat,
                  remaining: nat, avail: nat, turn: nat, read: nat)
    requires remaining > 0 && clock(tick) < deadline && FirstGoesOn(script, verdicts, remaining, avail, turn, read)
    ensures turn <= |script| && GoesOn(script[..turn]) && read <= remaining && read <= avail
    ensures var rest := if read > 0 then Later(verdicts) else verdicts;
            Feed(script, clock, tick, verdicts, deadline, remaining, avail)
            == Feed(script[turn..], clock, tick + 1, rest, deadline, remaining - read, avail - read).Plus(read)
  {
  }

  lemma FeedLast(script: seq<Answer>, clock: nat -> nat, tick: nat, verdicts: seq<bool>, deadline: nat,
                 remaining: nat, avail: nat)
    returns (last: seq<Answer>)
    requires || remaining == 0 || clock(tick) >= deadline
             || forall turn: nat, read: nat :: !FirstGoesOn(script, verdicts, remaining, avail, turn, read)
    ensures var f := Feed(script, clock, tick, verdicts, deadline, remaining, avail);
            script == last + f.script && FeedReason(clock, tick, deadline, remaining, avail, f, 0, last)
  {
    if remaining == 0 || clock(tick) >= deadline || script == [] {
      last := [];
    } else {
      assert !FirstGoesOn(script, verdicts, remaining, avail, 1, 0);
      if !Positive(script[0]) || |script| == 1 {
        last := [script[0]];
      } else {
        last := script[..2];
        var a := Limited(script[1], Min(Min(remaining, BUFFER), avail));
        assert !FirstGoesOn(script, verdicts, remaining, avail, 2, if a.Count? then a.n else 0);
        assert script == last + script[2..];
      }
    }
  }

  lemma ReasonLater(clock: nat -> nat, tick: nat, deadline: nat, remaining: nat, avail: nat, f: Fed, turns: nat,
                    last: seq<Answer>, read: nat)
    requires FeedReason(clock, tick + 1, deadline, remaining, avail, f, turns, last)
    ensures FeedReason(clock, tick, deadline, remaining + read, avail + read, f.Plus(read), turns + 1, last)
  {
    assert tick + 1 + turns == tick + (turns + 1);
  }

  /**
    A transfer ends only for a reason. Every turn but the last is one to go on after, made before the deadline: an
    interruption or an empty socket never ends it. The last is a refused or timed-out poll, a failed read, a refused
    chunk, a peer that has ended, or the deadline; or all of the body has come.
   */
  lemma {:induction false} FeedTurns(script: seq<Answer>, clock: nat -> nat, tick: nat, verdicts: seq<bool>,
                                     deadline: nat, remaining: nat, avail: nat)
    returns (turns: seq<seq<Answer>>, last: seq<Answer>)
    ensures var f := Feed(script, clock, tick, verdicts, deadline, remaining, avail);
            && script == Answers(turns) + last + f.script && AllGoOn(turns, clock, tick, deadline)
            && FeedReason(clock, tick, deadline, remaining, avail, f, |turns|, last)
    decreases |script|
  {
    hide Feed, FeedReason, GoesOn, FirstGoesOn;
    turns, last := [], [];
    if turn: nat, read: nat :|
      remaining > 0 && clock(tick) < deadline && FirstGoesOn(script, verdicts, remaining, avail, turn, read)
    {
      FeedFirst(script, clock, tick, verdicts, deadline, remaining, avail, turn, read);
      Advances(script, verdicts, remaining, avail, turn, read);
      var rest := if read > 0 then Later(verdicts) else verdicts;
      turns, last := FeedTurns(script[turn..], clock, tick + 1, rest, deadline, remaining - read, avail - read);
      var f := Feed(script[turn..], clock, tick + 1, rest, deadline, remaining - read, avail - read);
      OneTurn(script, script[..turn], turns, last, f.script, clock, tick, deadline);
      ReasonLater(clock, tick, deadline, remaining - read, avail - read, f, |turns|, last, read);
      turns := [script[..turn]] + turns;
    } else {
      last := FeedLast(script, clock, tick, verdicts, deadline, remaining, avail);
      assert [] + last == last;
    }
  }

  lemma Advances(script: seq<Answer>, verdicts: seq<bool>, remaining: nat, avail: nat, turn: nat, read: nat)
    requires FirstGoesOn(script, verdicts, remaining, avail, turn, read)
    ensures turn > 0
  {
  }

  /** One more turn in front. */
  lemma OneTurn(script: seq<Answer>, turn: seq<Answer>, turns: seq<seq<Answer>>, last: seq<Answer>, rest: seq<Answer>,
                clock: nat -> nat, tick: nat, deadline: nat)
    requires |turn| <= |script| && script[..|turn|] == turn && script[|turn|..] == Answers(turns) + last + rest
    requires GoesOn(turn) && clock(tick) < deadline
    requires AllGoOn(turns, clock, tick + 1, deadline)
    ensures script == Answers([turn] + turns) + last + rest && AllGoOn([turn] + turns, clock, tick, deadline)
  {
    hide GoesOn;
    assert ([turn] + turns)[1..] == turns;
    assert script == turn + script[|turn|..];
  }

  /** A turn that polls and reads. */
  lemma FeedStep(script: seq<Answer>, clock: nat -> nat, tick: nat, verdicts: seq<bool>, deadline: nat, remaining: nat,
                 avail: nat)
    requires remaining > 0 && clock(tick) < deadline && |script| > 1 && script[0].Count? && script[0].n > 0
    ensures Feed(script, clock, tick, verdicts, deadline, remaining, avail) ==
            var rest := script[1..][1..];
            match Limited(script[1..][0], Min(Min(remaining, BUFFER), avail))
            case Interrupted => Feed(rest, clock, tick + 1, verdicts, deadline, remaining, avail)
            case WouldBlock => Feed(rest, clock, tick + 1, verdicts, deadline, remaining, avail)
            case Fault => Fed(0, rest, tick + 1, verdicts, Answered(500))
            case Count(got) =>
              if got == 0 then Fed(0, rest, tick + 1, verdicts, Vanished)
              else if !Says(verdicts) then Fed(got, rest, tick + 1, Later(verdicts), Answered(400))
              else Feed(rest, clock, tick + 1, Later(verdicts), deadline, remaining - got, avail - got).Plus(got)
  {
    assert script[1..][1..] == script[2..];
  }

  // ----- the drain after a refusal, as the adversaries see it -----

  /** What reading `data` to the front of a buffer does to what it held there. */
  function Overlay(data: seq<byte>, held: seq<byte>): (r: seq<byte>)
    ensures |r| == |held|
  {
    if |data| >= |held| then data[..|held|] else data + held[|data|..]
  }

  /** How much a drain has read, what is left of the adversaries, and what is at the front of the buffer. */
  datatype Drained = Drained(read: nat, script: seq<Answer>, tick: nat, held: seq<byte>)

  /** _drain_rejected_body from its loop on; `read` bytes have gone before, `held` is what the buffer starts with. */
  function Drain(script: seq<Answer>, clock: nat -> nat, tick: nat, deadline: nat, read: nat, incoming: seq<byte>,
                 held: seq<byte>): (z: Drained)
    requires read < DRAIN_BYTES + BUFFER
    ensures read <= z.read < DRAIN_BYTES + BUFFER && z.read <= read + |incoming| && |z.held| == |held|
    ensures z.read == read ==> z.held == held
    decreases |script|
  {
    if read >= DRAIN_BYTES then Drained(read, script, tick, held)
    else if clock(tick) >= deadline || script == [] then Drained(read, script, tick + 1, held)
    else if !script[0].Count? || script[0].n == 0 || |script| == 1 then Drained(read, script[1..], tick + 1, held)
    else
      var a := Limited(script[1], Min(BUFFER, |incoming|));
      if a.Count? && a.n > 0 then
        Drain(script[2..], clock, tick + 1, deadline, read + a.n, incoming[a.n..], Overlay(incoming[..a.n], held))
      else if a == Interrupted || a == WouldBlock then
        Drain(script[2..], clock, tick + 1, deadline, read, incoming, held)
      else Drained(read, script[2..], tick + 1, held)
  }

  /** Why a drain stops. Polls are answered at even places and reads at odd ones. */
  predicate DrainReason(script: seq<Answer>, clock: nat -> nat, deadline: nat, avail: nat, read: nat, z: Drained) {
    && LeftOf(script, z.script)
    && (|| z.read >= 4 * 1024 * 1024 || (z.tick > 0 && clock(z.tick - 1) >= deadline) || z.script == []
        || (&& |z.script| < |script|
            && var a := LastUsed(script, z.script);
               if (|script| - |z.script|) % 2 == 1 then !Positive(a)
               else a == Fault || a == Count(0) || (a.Count? && z.read == read + avail)))
  }

  lemma DrainReasonLater(script: seq<Answer>, clock: nat -> nat, deadline: nat, avail: nat, read: nat, k: nat,
                         z: Drained)
    requires |script| >= 2 && k <= avail
    requires DrainReason(script[2..], clock, deadline, avail - k, read + k, z)
    ensures DrainReason(script, clock, deadline, avail, read, z)
  {
    LeftOfTail(script, 2, z.script);
  }

  lemma DrainLast(script: seq<Answer>, clock: nat -> nat, tick: nat, deadline: nat, read: nat, incoming: seq<byte>,
                  held: seq<byte>)
    requires read < DRAIN_BYTES + BUFFER
    requires || read >= DRAIN_BYTES || clock(tick) >= deadline || script == [] || !Positive(script[0]) || |script| == 1
             || script[1] == Fault || (script[1].Count? && Limited(script[1], Min(BUFFER, |incoming|)) == Count(0))
    ensures DrainReason(script, clock, deadline, |incoming|, read,
                        Drain(script, clock, tick, deadline, read, incoming, held))
  {
    hide Overlay;
  }

  /** A drain stops only at its ceiling, its deadline, a poll that found nothing or failed, or the end of the peer. */
  lemma {:induction false} DrainStopsForAReason(script: seq<Answer>, clock: nat -> nat, tick: nat, deadline: nat,
                                                read: nat, incoming: seq<byte>, held: seq<byte>)
    requires read < DRAIN_BYTES + BUFFER
    ensures DrainReason(script, clock, deadline, |incoming|, read,
                        Drain(script, clock, tick, deadline, read, incoming, held))
    decreases |script|
  {
    hide Overlay, DrainReason;
    if read >= DRAIN_BYTES || clock(tick) >= deadline || script == [] || !Positive(script[0]) || |script| == 1 {
      DrainLast(script, clock, tick, deadline, read, incoming, held);
    } else {
      var a := Limited(script[1], Min(BUFFER, |incoming|));
      if a == Fault || a == Count(0) {
        DrainLast(script, clock, tick, deadline, read, incoming, held);
      } else {
        var k := if a.Count? then a.n else 0;
        var over := if a.Count? then Overlay(incoming[..k], held) else held;
        assert incoming[0..] == incoming;
        DrainStopsForAReason(script[2..], clock, tick + 1, deadline, read + k, incoming[k..], over);
        DrainReasonLater(script, clock, deadline, |incoming|, read, k,
                         Drain(script[2..], clock, tick + 1, deadline, read + k, incoming[k..], over));
      }
    }
  }

  /** The drain that follows a reply `out`, if there is something of it in the buffer. */
  function DrainAfter(script: seq<Answer>, clock: nat -> nat, tick: nat, incoming: seq<byte>, out: seq<byte>)
    : (z: Drained)
    ensures |z.held| == |out| && z.read <= |incoming|
  {
    Drain(script, clock, tick + 1, clock(tick) + DRAIN_MS, 0, incoming, out)
  }

  /** The drain after a refusal that a socket at `script` was given: it is over the refusal if that has parked. */
  function DrainedAfter(reply: Option<Rendered>, script: seq<Answer>, managed: bool, clock: nat -> nat, tick: nat,
                        incoming: seq<byte>): (z: Drained)
    ensures z.read <= |incoming|
  {
    match reply
    case None => DrainAfter(script, clock, tick, incoming, [])
    case Some(m) =>
      var out := Compose(m.message);
      var d := Drive(script, |out|, managed);
      DrainAfter(d.rest, clock, tick, incoming, if d.end == Parked then out else [])
  }

  /** If the refusal `out` parks, the part of it that is still to be sent is there after the drain. */
  predicate RefusalIntact(out: seq<byte>, managed: bool, script: seq<Answer>, clock: nat -> nat, tick: nat,
                          incoming: seq<byte>) {
    var d := Drive(script, |out|, managed);
    d.end == Parked ==> DrainAfter(d.rest, clock, tick, incoming, out).held[d.sent..] == out[d.sent..]
  }

  /** A schedule that parks a refusal before its first byte and then overwrites that byte. */
  lemma DrainOverwrites(out: seq<byte>) returns (script: seq<Answer>, clock: nat -> nat, incoming: seq<byte>)
    requires out != []
    ensures !RefusalIntact(out, true, script, clock, 0, incoming)
  {
    var other: byte := if out[0] == 0 then 1 else 0;
    script, clock, incoming := [WouldBlock, Count(0), Count(1), Count(1)], _ => 0, [other];
    var rest := [Count(1), Count(1)];
    assert script[2..] == rest;
    assert Drive(script, |out|, true) == Drove(0, rest, Parked);
    var held := Overlay(incoming, out);
    assert held[0] != out[0];
    assert incoming[..1] == incoming && rest[2..] == [];
    assert Drain([], clock, 2, DRAIN_MS, 1, incoming[1..], held) == Drained(1, [], 3, held);
    assert Drain(rest, clock, 1, DRAIN_MS, 0, incoming, out) == Drained(1, [], 3, held);
    assert held[0..][0] != out[0..][0];
  }

  /**
    A parked refusal and the drain share the buffer. The refusal that is still to be sent survives under every
    schedule, on every clock and whatever the peer sends, if and only if the connection does not belong to a reactor,
    where none parks.
   */
  lemma RefusalSurvivesExactly(out: seq<byte>, managed: bool)
    requires out != []
    ensures (forall script: seq<Answer>, clock: nat -> nat, tick: nat, incoming: seq<byte> ::
               RefusalIntact(out, managed, script, clock, tick, incoming)) <==> !managed
  {
    hide Drain;
    if managed {
      var script, clock, incoming := DrainOverwrites(out);
      assert !RefusalIntact(out, managed, script, clock, 0, incoming);
    }
  }

  // ----- the objects -----

  /** A ticket of the application. */
  class Ticket {
    var calls: seq<Verb>
    var verdicts: seq<bool>

    constructor (verdicts: seq<bool>)
      ensures calls == [] && this.verdicts == verdicts
    {
      calls, this.verdicts := [], verdicts;
    }

    method Begin() returns (ok: bool)
      modifies this
      ensures ok == Says(old(verdicts)) && verdicts == Later(old(verdicts)) && calls == old(calls) + [Begun(ok)]
    {
      ok := Says(verdicts);
      verdicts, calls := Later(verdicts), calls + [Begun(ok)];
    }

    method Take(data: seq<byte>) returns (ok: bool)
      modifies this
      ensures ok == Says(old(verdicts)) && verdicts == Later(old(verdicts)) && calls == old(calls) + [Chunk(data, ok)]
    {
      ok := Says(verdicts);
      verdicts, calls := Later(verdicts), calls + [Chunk(data, ok)];
    }

    method End(v: Verb)
      modifies this`calls
      ensures calls == old(calls) + [v]
    {
      calls := calls + [v];
    }
  }

  /** A wait: when it was begun and how long it may last. */
  datatype Wait = Wait(at: nat, timeout: nat)

  /** The waits made since `before` last until the deadline, if nothing comes before. */
  predicate WaitsUntil(before: seq<Wait>, waits: seq<Wait>, deadline: nat) {
    before <= waits && forall i :: |before| <= i < |waits| ==> waits[i].at + waits[i].timeout == deadline
  }

  predicate WithinDeadline(waits: seq<Wait>, deadline: nat) {
    forall i :: 0 <= i < |waits| ==>
      waits[i].at < deadline && waits[i].timeout == Min(deadline - waits[i].at, READ_TIMEOUT_MS)
  }

  lemma WithinSnoc(waits: seq<Wait>, w: Wait, deadline: nat)
    requires WithinDeadline(waits, deadline) && w.at < deadline
    requires w.timeout == Min(deadline - w.at, READ_TIMEOUT_MS)
    ensures WithinDeadline(waits + [w], deadline)
  {
  }

  class Pump {
    const client: Client
    const ticket: Ticket
    const clock: nat -> nat
    var tick: nat
    var waits: seq<Wait>

    constructor (client: Client, ticket: Ticket, clock: nat -> nat)
      ensures this.client == client && this.ticket == ticket && this.clock == clock && tick == 0 && waits == []
    {
      this.client, this.ticket, this.clock, tick, waits := client, ticket, clock, 0, [];
    }

    /** _pump_mono_ms. */
    method Now() returns (t: nat)
      modifies this`tick
      ensures t == clock(old(tick)) && tick == old(tick) + 1
    {
      t, tick := clock(tick), tick + 1;
    }

    /** poll(2) for readability. */
    method Poll(at: nat, timeout: nat) returns (a: Answer)
      requires client.sock.script != []
      modifies this`waits, client.sock`script
      ensures client.sock.script == old(client.sock.script)[1..] && a == old(client.sock.script)[0]
      ensures waits == old(waits) + [Wait(at, timeout)]
    {
      waits := waits + [Wait(at, timeout)];
      a := client.sock.Ask();
    }

    /** The forecast of what is still to come. */
    ghost function Ahead(deadline: nat, remaining: nat): Fed
      reads this, client.sock, ticket
    {
      Feed(client.sock.script, clock, tick, ticket.verdicts, deadline, remaining, |client.sock.incoming|)
    }

    /** One read(2) into the buffer, never beyond the body, and its chunk. */
    method ReadChunk(remaining: nat) returns (a: Answer, ok: bool)
      requires remaining > 0 && client.buf.Length == BUFFER && client.sock.script != []
      modifies client.buf, client.sock`script, client.sock`incoming, client.sock`heard, ticket
      ensures client.sock.script == old(client.sock.script)[1..]
      ensures a == Limited(old(client.sock.script)[0], Min(Min(remaining, BUFFER), |old(client.sock.incoming)|))
      ensures var got := if a.Count? then a.n else 0;
              && client.sock.incoming == old(client.sock.incoming)[got..]
              && ok == (got > 0 && Says(old(ticket.verdicts)))
              && ticket.verdicts == (if got > 0 then Later(old(ticket.verdicts)) else old(ticket.verdicts))
              && ticket.calls
                 == old(ticket.calls) + (if got > 0 then [Chunk(old(client.sock.incoming)[..got], ok)] else [])
    {
      var data;
      a, data := client.sock.Read(Min(remaining, BUFFER));
      ok := false;
      if data != [] {
        client.Copy(0, data);
        assert client.buf[..|data|] == client.buf[0..|data|];
        ok := ticket.Take(client.buf[..|data|]);
      }
    }

    /** One turn of the loop of _pump_body. */
    method FeedOnce(deadline: nat, remaining: nat) returns (again: bool, got: nat, result: Result)
      requires remaining > 0 && client.buf.Length == BUFFER && WithinDeadline(waits, deadline)
      modifies this, client.buf, client.sock`script, client.sock`incoming, client.sock`heard, ticket
      ensures WithinDeadline(waits, deadline) && client.sock.wire == old(client.sock.wire)
      ensures got <= remaining && got <= |old(client.sock.incoming)|
      ensures client.sock.incoming == old(client.sock.incoming)[got..]
      ensures ticket.calls == old(ticket.calls)
                              + (if got > 0 then [Chunk(old(client.sock.incoming)[..got], again)] else [])
      ensures again ==>
                |client.sock.script| < |old(client.sock.script)|
                && old(Ahead(deadline, remaining)) == Ahead(deadline, remaining - got).Plus(got)
      ensures !again ==>
                && old(Ahead(deadline, remaining)) == Fed(got, client.sock.script, tick, ticket.verdicts, result)
                && result != Ok && (got > 0 ==> result == Answered(400))
    {
      hide WithinDeadline, FeedRead;
      var now := Now();
      if now >= deadline { return false, 0, Answered(408); }
      var timeout := Min(deadline - now, READ_TIMEOUT_MS);
      if client.sock.script == [] { return false, 0, Stuck; }
      WithinSnoc(waits, Wait(now, timeout), deadline);
      var ready := Poll(now, timeout);
      match ready
      case Interrupted => return true, 0, Ok;
      case WouldBlock => return false, 0, Answered(500);
      case Fault => return false, 0, Answered(500);
      case Count(n) =>
        if n == 0 { return false, 0, Answered(400); }
      if client.sock.script == [] { return false, 0, Stuck; }
      FeedStep(old(client.sock.script), clock, old(tick), ticket.verdicts, deadline, remaining, |client.sock.incoming|);
      var a, ok := ReadChunk(remaining);
      match a
      case Interrupted => return true, 0, Ok;
      case WouldBlock => return true, 0, Ok;
      case Fault => return false, 0, Answered(500);
      case Count(n) =>
        if n == 0 { return false, 0, Vanished; }
        again, got, result := ok, n, Answered(400);
    }

    /** The loop of _pump_body; `data` is what has been handed over since `before`. */
    method MoveRest(deadline: nat, total: nat, ghost before: seq<Verb>, ghost data: seq<byte>)
      returns (result: Result, ghost read: nat)
      requires client.buf.Length == BUFFER && WithinDeadline(waits, deadline) && Given(before, ticket.calls, data, Ok)
      modifies this, client.buf, client.sock`script, client.sock`incoming, client.sock`heard, ticket
      ensures var peer := old(client.sock.incoming);
              && read <= |peer| && client.sock.incoming == peer[read..] && client.sock.wire == old(client.sock.wire)
              && Given(before, ticket.calls, data + peer[..read], result)
      ensures WithinDeadline(waits, deadline)
      ensures old(Ahead(deadline, total)) == Fed(read, client.sock.script, tick, ticket.verdicts, result)
    {
      hide Feed, Given, WithinDeadline;
      ghost var peer := client.sock.incoming;
      var remaining := total;
      read, result := 0, Ok;
      assert peer[..0] == [] && data + [] == data && peer[0..] == peer;
      while remaining > 0
        invariant read <= |peer| && read + remaining == total && result == Ok
        invariant client.sock.incoming == peer[read..] && client.sock.wire == old(client.sock.wire)
        invariant Given(before, ticket.calls, data + peer[..read], Ok)
        invariant old(Ahead(deadline, total)) == Ahead(deadline, remaining).Plus(read)
        invariant WithinDeadline(waits, deadline)
        decreases |client.sock.script|
      {
        ghost var had := ticket.calls;
        var again, got;
        again, got, result := FeedOnce(deadline, remaining);
        if again { result := Ok; }
        NextSlice(data, peer, read, got);
        if got > 0 {
          GivenMore(before, had, data + peer[..read], peer[read..][..got], again);
        } else {
          GivenStop(before, had, data + peer[..read], result);
        }
        read, remaining := read + got, remaining - got;
        if !again { return; }
      }
      FeedEnd(client.sock.script, clock, tick, ticket.verdicts, deadline, |client.sock.incoming|);
    }

    /**
      _pump_body without its answers: the leftover first, then exactly what the socket still owes. The body handed over
      is `leftover` followed by what the peer sent next, nothing beyond it is read, and no wait outlasts the deadline.
     */
    method Move(leftover: seq<byte>, total: nat) returns (result: Result, ghost read: nat)
      requires client.buf.Length == BUFFER && |leftover| <= total && waits == []
      modifies this, client.buf, client.sock`script, client.sock`incoming, client.sock`heard, ticket
      ensures var peer := old(client.sock.incoming);
              && read <= |peer| && client.sock.incoming == peer[read..] && client.sock.wire == old(client.sock.wire)
              && Given(old(ticket.calls), ticket.calls, leftover + peer[..read], result)
      ensures var deadline := clock(old(tick)) + 2 * 60 * 60 * 1000;
              forall i :: 0 <= i < |waits| ==>
                waits[i].at < deadline && waits[i].timeout == Min(deadline - waits[i].at, 10 * 1000)
      ensures Transfer(old(client.sock.script), clock, old(tick), old(ticket.verdicts), |leftover|, total,
                       |old(client.sock.incoming)|) == Fed(read, client.sock.script, tick, ticket.verdicts, result)
    {
      hide Feed, Transfer, Given;
      ghost var peer, before := client.sock.incoming, ticket.calls;
      ghost var script, verdicts := client.sock.script, ticket.verdicts;
      read := 0;
      GivenNothing(before);
      assert peer[..0] == [] && leftover + [] == leftover && peer[0..] == peer && [] + leftover == leftover;
      if leftover != [] {
        var ok := ticket.Take(leftover);
        GivenMore(before, before, [], leftover, ok);
        if !ok {
          NoWaits(clock(tick) + MAX_WALL_MS);
          TransferRefused(script, clock, tick, verdicts, |leftover|, total, |peer|);
          return Answered(400), 0;
        }
      }
      TransferStarts(script, clock, tick, verdicts, |leftover|, total, |peer|);
      var start := Now();
      NoWaits(start + MAX_WALL_MS);
      result, read := MoveRest(start + MAX_WALL_MS, total - |leftover|, before, leftover);
    }

    /** _pump_body: the transfer, and the answer to it if it failed while there is still somebody to answer. */
    method PumpBody(leftover: seq<byte>, total: nat)
      returns (result: Result, st: Status, ghost read: nat, ghost left: seq<Answer>)
      requires client.Idle() && !client.armedOut && client.buf.Length == BUFFER && |leftover| <= total && waits == []
      modifies this, client`policy, client`armedOut, client`draining, client`sendOff, client`sendLen, client.buf,
               client.sock, ticket
      ensures var peer := old(client.sock.incoming);
              && read <= |peer| && client.sock.incoming == peer[read..]
              && Given(old(ticket.calls), ticket.calls, leftover + peer[..read], result)
      ensures var deadline := clock(old(tick)) + 2 * 60 * 60 * 1000;
              forall i :: 0 <= i < |waits| ==>
                waits[i].at < deadline && waits[i].timeout == Min(deadline - waits[i].at, 10 * 1000)
      ensures Transfer(old(client.sock.script), clock, old(tick), old(ticket.verdicts), |leftover|, total,
                       |old(client.sock.incoming)|) == Fed(read, left, tick, ticket.verdicts, result)
      ensures if result.Answered? then
                client.Delivered(Rendered(ErrorMessage(result.status), Close), left, old(client.sock.wire), st)
              else
                && client.sock.script == left && client.sock.wire == old(client.sock.wire)
                && client.policy == old(client.policy) && client.Idle() && !client.armedOut
                && st == if result == Stuck then Pending else Failure
    {
      hide Transfer, Given, WithinDeadline, ErrorMessage, Client.Delivered;
      result, read := Move(leftover, total);
      left, st := client.sock.script, if result == Stuck then Pending else Failure;
      if result.Answered? { st := client.SendError(result.status); }
    }

    /** One turn of the loop of _drain_rejected_body. */
    method DrainOnce(deadline: nat, count: nat, ghost held: seq<byte>)
      returns (again: bool, got: nat, ghost over: seq<byte>)
      requires client.buf.Length == BUFFER && |held| <= BUFFER && client.buf[..|held|] == held && count < DRAIN_BYTES
      modifies this, client.buf, client.sock`script, client.sock`incoming, client.sock`heard
      ensures got <= BUFFER && got <= |old(client.sock.incoming)|
      ensures client.sock.incoming == old(client.sock.incoming)[got..]
      ensures |over| == |held| && client.buf[..|held|] == over
      ensures var peer := old(client.sock.incoming);
              var before := Drain(old(client.sock.script), clock, old(tick), deadline, count, peer, held);
              if again then
                && |client.sock.script| < |old(client.sock.script)|
                && before == Drain(client.sock.script, clock, tick, deadline, count + got, client.sock.incoming, over)
              else got == 0 && before == Drained(count, client.sock.script, tick, over)
      ensures WaitsUntil(old(waits), waits, deadline)
    {
      hide Overlay, Drain, WaitsUntil;
      DrainStop(client.sock.script, clock, tick, deadline, count, client.sock.incoming, held);
      NoMoreWaits(waits, deadline);
      again, got, over := false, 0, held;
      var now := Now();
      if now >= deadline || client.sock.script == [] { return; }
      OneMoreWait(waits, Wait(now, deadline - now), deadline);
      var ready := Poll(now, deadline - now);
      if !ready.Count? || ready.n == 0 || client.sock.script == [] { return; }
      DrainStep(old(client.sock.script), clock, old(tick), deadline, count, client.sock.incoming, held);
      var a, data := client.sock.Read(BUFFER);
      if data != [] {
        client.Copy(0, data);
        OverlayFront(data, held, client.buf[..], old(client.buf[..]));
        again, got, over := true, |data|, Overlay(data, held);
      } else {
        assert old(client.sock.incoming)[0..] == old(client.sock.incoming);
        again := a == Interrupted || a == WouldBlock;
      }
    }

    /** _drain_rejected_body: discards what the peer is still sending, within bounds of time and size. */
    method DrainRejected(ghost held: seq<byte>) returns (ghost z: Drained)
      requires client.buf.Length == BUFFER && |held| <= BUFFER && client.buf[..|held|] == held
      modifies this, client.buf, client.sock`script, client.sock`incoming, client.sock`heard
      ensures z == DrainAfter(old(client.sock.script), clock, old(tick), old(client.sock.incoming), held)
      ensures client.sock.script == z.script && tick == z.tick
      ensures client.sock.incoming == old(client.sock.incoming)[z.read..]
      ensures client.buf[..|held|] == z.held && z.read < 4 * 1024 * 1024 + BUFFER
      ensures WaitsUntil(old(waits), waits, clock(old(tick)) + 2000)
    {
      hide Drain, WaitsUntil;
      ghost var peer := client.sock.incoming;
      NoMoreWaits(waits, clock(tick) + DRAIN_MS);
      var start := Now();
      var deadline := start + DRAIN_MS;
      var count: nat := 0;
      ghost var front := held;
      z := Drain(client.sock.script, clock, tick, deadline, 0, peer, held);
      var again := true;
      while again && count < DRAIN_BYTES
        invariant count < DRAIN_BYTES + BUFFER && count <= |peer| && client.sock.incoming == peer[count..]
        invariant |front| == |held| && client.buf[..|held|] == front && WaitsUntil(old(waits), waits, deadline)
        invariant again ==> z == Drain(client.sock.script, clock, tick, deadline, count, client.sock.incoming, front)
        invariant !again ==> z == Drained(count, client.sock.script, tick, front)
        decreases again, |client.sock.script|
      {
        var got;
        ghost var waited := waits;
        again, got, front := DrainOnce(deadline, count, front);
        MoreWaits(old(waits), waited, waits, deadline);
        assert peer[count..][got..] == peer[count + got..];
        count := count + got;
      }
      if again { DrainFull(client.sock.script, clock, tick, deadline, count, client.sock.incoming, front); }
    }

    /** The client after its one reply: sent or given up, or parked under a reactor, unless the run ends inside. */
    ghost predicate Released(st: Status)
      reads client
    {
      match st
      case Pending => true
      case Taken => false
      case Failure => client.Idle()
      case Success =>
        if client.draining then client.managed && client.armedOut && client.sendOff < client.sendLen <= BUFFER
        else client.Idle() && !client.armedOut
    }

    /**
      What a reply that a socket at `script` was given has left parked: all of it is in the buffer, unless it turned the
      upload down and what the peer was still sending has been drained over it since `was`.
     */
    ghost predicate Parks(reply: Option<Rendered>, script: seq<Answer>, st: Status, was: Option<Before>)
      reads this, client, client.buf, client.sock
    {
      match reply
      case None => !(st == Success && client.draining)
      case Some(m) =>
        var out := Compose(m.message);
        var d := Drive(script, |out|, client.managed);
        && (st == Success && client.draining <==> d.end == Parked)
        && (d.end == Parked ==>
              var z := match was
                       case None => Drained(0, d.rest, 0, out)
                       case Some(b) => DrainAfter(d.rest, clock, b.tick, b.incoming, out);
              && client.sendLen == |out| <= client.buf.Length && client.sendOff == d.sent
              && client.buf[..|out|] == z.held && client.sock.script == z.script)
    }

    lemma DeliveredReleases(r: Rendered, script: seq<Answer>, wire: seq<byte>, st: Status)
      requires client.buf.Length == BUFFER && client.Delivered(r, script, wire, st)
      ensures Released(st) && client.policy == r.policy
      ensures Replied(Some(r), script, client.managed, wire, client.sock.wire)
      ensures Parks(Some(r), script, st, None)
      ensures client.sock.script == Drive(script, |Compose(r.message)|, client.managed).rest
    {
      hide Compose, Drive;
    }

    /** Commits or aborts what the transfer has left, and answers a commit; otherwise the answer `sent` stands. */
    method Conclude(r: Result, answered: Status, outcome: Response, ghost sent: seq<byte>, ghost left: seq<Answer>)
      returns (st: Status)
      requires client.buf.Length == BUFFER && Given([Begun(true)], ticket.calls, sent, r)
      requires r == Ok ==> client.Idle() && !client.armedOut
      requires r != Ok ==> Released(answered)
      requires r.Answered? ==> Parks(Some(Rendered(ErrorMessage(r.status), Close)), left, answered, None)
      requires r.Answered? || r == Ok || answered != Success
      modifies client`policy, client`armedOut, client`draining, client`sendOff, client`sendLen, client.buf, client.sock,
               ticket`calls
      ensures Ended(ticket.calls, sent, r) && client.sock.incoming == old(client.sock.incoming)
      ensures Released(st) && (old(client.policy) == Close ==> client.policy == Close)
      ensures Replied(if r == Ok then Render(client.server, Answer(outcome), old(client.policy)) else None,
                      old(client.sock.script), client.managed, old(client.sock.wire), client.sock.wire)
      ensures Parks(AnswerTo(client.server, old(client.policy), r, outcome),
                    if r == Ok then old(client.sock.script) else left, st, None)
    {
      hide Given, Compose, Drive, Render, ErrorMessage, Client.Delivered;
      st := answered;
      if r == Stuck {
        StillLive(ticket.calls, sent);
      } else if r == Ok {
        CommitEnds(ticket.calls, sent);
        ticket.End(Committed);
        ghost var reply := Render(client.server, Answer(outcome), client.policy);
        ghost var script, wire := client.sock.script, client.sock.wire;
        st := client.Send(outcome);
        RenderCloses(client.server, Answer(outcome));
        if reply.Some? { DeliveredReleases(reply.value, script, wire, st); }
      } else {
        AbortEnds(ticket.calls, sent, r);
        ticket.End(Aborted);
      }
    }

    /**
      The application turned the upload down: answer, and drain what the peer is still sending. Off a reactor nothing is
      left of the refusal in the buffer; under one a parked refusal is what the drain has made of it.
     */
    method TurnDown(refusal: Response) returns (st: Status)
      requires client.buf.Length == BUFFER && client.Idle() && !client.armedOut
      modifies this, client`policy, client`armedOut, client`draining, client`sendOff, client`sendLen, client.buf,
               client.sock
      ensures var reply := Render(client.server, Answer(refusal), old(client.policy));
              && Replied(reply, old(client.sock.script), client.managed, old(client.sock.wire), client.sock.wire)
              && Released(st) && (old(client.policy) == Close ==> client.policy == Close)
              && (!client.managed ==> st == Pending || client.Idle())
              && Parks(reply, old(client.sock.script), st, Some(old(Snapshot())))
              && var z := DrainedAfter(reply, old(client.sock.script), client.managed, clock, old(tick),
                                       old(client.sock.incoming));
                 client.sock.script == z.script && client.sock.incoming == old(client.sock.incoming)[z.read..]
    {
      hide Compose, Drive, Render, Client.Delivered, DrainAfter;
      ghost var was := Snapshot();
      ghost var reply := Render(client.server, Answer(refusal), client.policy);
      ghost var script, wire := client.sock.script, client.sock.wire;
      st := client.Send(refusal);
      RenderCloses(client.server, Answer(refusal));
      if reply.Some? { DeliveredReleases(reply.value, script, wire, st); }
      ghost var held := if st == Success && client.draining then Compose(reply.value.message) else [];
      ghost var z := DrainRejected(held);
    }

    /** A request that cannot be taken any further is answered 500. */
    method GiveUp() returns (st: Status)
      requires client.buf.Length == BUFFER && client.Idle() && !client.armedOut
      modifies client`policy, client`armedOut, client`draining, client`sendOff, client`sendLen, client.buf, client.sock
      ensures Released(st) && client.sock.incoming == old(client.sock.incoming) && client.policy == Close
      ensures Replied(Some(Rendered(ErrorMessage(500), Close)), old(client.sock.script), client.managed,
                      old(client.sock.wire), client.sock.wire)
      ensures Parks(Some(Rendered(ErrorMessage(500), Close)), old(client.sock.script), st, None)
    {
      hide Compose, Drive, ErrorMessage, Client.Delivered;
      ghost var script, wire := client.sock.script, client.sock.wire;
      st := client.SendError(500);
      DeliveredReleases(Rendered(ErrorMessage(500), Close), script, wire, st);
    }

    /** What a claimed request meets, as it is when the pump starts. */
    ghost function Snapshot(): Before
      reads this, client, client.sock, ticket
    {
      Before(client.sock.script, client.sock.incoming, client.sock.wire, client.policy, ticket.verdicts, tick)
    }

    /**
      How an upload goes: the ticket, what was read, the one reply, made when the kernel is at `left`, and what of it is
      parked.
     */
    ghost predicate Uploaded(q: Request, was: Before, st: Status, result: Option<Result>, read: nat, left: seq<Answer>)
      reads this, client, client.buf, client.sock, ticket
    {
      var reply := ReplyTo(client.server, q, was.policy, was.verdicts, result);
      && Replied(reply, left, client.managed, was.wire, client.sock.wire)
      && Parks(reply, left, st, if q.TurnedDown(was.verdicts) then Some(was) else None)
      && if !q.adapted then
           && result == None && ticket.calls == [] && client.sock.incoming == was.incoming && left == was.script
           && reply == Some(Rendered(ErrorMessage(500), Close))
         else if !Says(was.verdicts) then
           && result == None && ticket.calls == [Begun(false)] && left == was.script
           && reply == Render(client.server, Answer(q.refusal), was.policy)
           && var z := DrainedAfter(reply, left, client.managed, clock, was.tick, was.incoming);
              client.sock.script == z.script && client.sock.incoming == was.incoming[z.read..]
         else if !q.streamOk || |q.leftover| > q.total then
           && result == None && ticket.calls == [Begun(true), Aborted] && client.sock.incoming == was.incoming
           && left == was.script && reply == Some(Rendered(ErrorMessage(500), Close))
         else
           && result.Some? && read <= |was.incoming| && client.sock.incoming == was.incoming[read..]
           && Transfer(was.script, clock, was.tick, Later(was.verdicts), |q.leftover|, q.total, |was.incoming|)
              == Fed(read, left, tick, ticket.verdicts, result.value)
           && Ended(ticket.calls, q.leftover + was.incoming[..read], result.value)
           && reply == match result.value
                       case Ok => Render(client.server, Answer(q.outcome), was.policy)
                       case Answered(status) => Some(Rendered(ErrorMessage(status), Close))
                       case _ => None
    }

    /**
      client_upload_pump, for a one-shot upload and for one chunk of a resumable one. Every ticket that was begun is
      committed or aborted exactly once, committed only with the whole declared body, nothing beyond that body is read,
      and there is at most one answer.
     */
    method Upload(q: Request) returns (st: Status, result: Option<Result>, ghost read: nat, ghost left: seq<Answer>)
      requires client.Valid() && !client.draining && ticket.calls == [] && waits == []
      modifies this, client`policy, client`armedOut, client`draining, client`sendOff, client`sendLen, client.buf,
               client.sock, ticket
      ensures Uploaded(q, old(Snapshot()), st, result, read, left) && Released(st)
      ensures old(client.policy) == Close ==> client.policy == Close
    {
      hide Given, Ended, WithinDeadline, Transfer, Render, ErrorMessage, Compose, Drive, DrainAfter, Client.Delivered;
      result, read, left := None, 0, client.sock.script;
      if !q.adapted {
        st := GiveUp();
        return;
      }
      var ok := ticket.Begin();
      assert ticket.calls == [Begun(ok)];
      if !ok {
        st := TurnDown(q.refusal);
        return;
      }
      if !q.streamOk || |q.leftover| > q.total {
        ticket.End(Aborted);
        st := GiveUp();
        return;
      }
      var r, answered;
      r, answered, read, left := PumpBody(q.leftover, q.total);
      if r.Answered? {
        DeliveredReleases(Rendered(ErrorMessage(r.status), Close), left, old(client.sock.wire), answered);
      }
      st := Conclude(r, answered, q.outcome, q.leftover + old(client.sock.incoming)[..read], left);
      result := Some(r);
    }

    /**
      The branch of client_handle for a request the upload gate has claimed: the connection will close, whatever the
      request asked for; it stays only while its one reply is parked, and otherwise nothing of the request is left.
     */
    method HandleClaimed(q: Request)
      returns (st: Status, result: Option<Result>, ghost read: nat, ghost left: seq<Answer>)
      requires client.Valid() && !client.draining && ticket.calls == [] && waits == []
      modifies this, client`bufIdx, client`policy, client`armedOut, client`draining, client`sendOff, client`sendLen,
               client.buf, client.sock, ticket
      ensures Uploaded(q, old(Snapshot()).(policy := Close), st, result, read, left)
      ensures st == Success ==>
                client.Valid() && client.draining && client.policy == Close && client.bufIdx == old(client.bufIdx)
      ensures st != Taken
      ensures st == Failure ==> client.Idle() && client.bufIdx == 0
    {
      hide Transfer, Ended, Replied, ReplyTo, Compose, Drive, DrainAfter, DrainedAfter;
      client.policy := Close;
      assert Snapshot() == old(Snapshot()).(policy := Close);
      st, result, read, left := Upload(q);
      if st == Pending || client.draining { return; }
      client.Reset();
      st := Failure;
    }
  }

  /** A close once decided stays decided. */
  lemma RenderCloses(server: Server, reply: Reply)
    ensures var r := Render(server, reply, Close); r.Some? ==> r.value.policy == Close
  {
    hide Compose, Whole, ErrorMessage;
  }

  /**
    A claimed request and the application's part in it: `refusal` and `outcome` are its responses when it turns the
    upload down and when it has ended it.
   */
  datatype Request = Request(
    adapted: bool, refusal: Response, streamOk: bool, leftover: seq<byte>, total: nat, outcome: Response)
  {
    /** Whether the application will not have the upload. */
    predicate TurnedDown(verdicts: seq<bool>) {
      adapted && !Says(verdicts)
    }
  }

  /** The one reply to a claimed request; `result` is how its transfer went, if it came to that. */
  function ReplyTo(server: Server, q: Request, policy: Policy, verdicts: seq<bool>, result: Option<Result>)
    : Option<Rendered>
  {
    if !q.adapted then Some(Rendered(ErrorMessage(500), Close))
    else if !Says(verdicts) then Render(server, Answer(q.refusal), policy)
    else
      match result
      case None => Some(Rendered(ErrorMessage(500), Close))
      case Some(r) => AnswerTo(server, policy, r, q.outcome)
  }

  datatype Before = Before(
    script: seq<Answer>, incoming: seq<byte>, wire: seq<byte>, policy: Policy, verdicts: seq<bool>, tick: nat)

  /** How a ticket stands once a transfer that handed over `sent` has been concluded. */
  ghost predicate Ended(calls: seq<Verb>, sent: seq<byte>, r: Result) {
    && Offered(calls) == sent && calls != []
    && match r
       case Ok => calls[|calls| - 1] == Committed && Track(calls, sent) == Gone
       case Stuck => forall body: seq<byte> :: Track(calls, body) == Live(sent)
       case _ => calls[|calls| - 1] == Aborted && forall body: seq<byte> :: Track(calls, body) == Gone
  }

  lemma BegunLife(body: seq<byte>)
    ensures Track([Begun(true)], body) == Live([]) && Offered([Begun(true)]) == []
  {
    assert Track([], body) == Untaken;
    assert [Begun(true)][..0] == [];
  }

  lemma StillLive(calls: seq<Verb>, sent: seq<byte>)
    requires Given([Begun(true)], calls, sent, Stuck)
    ensures Ended(calls, sent, Stuck)
  {
    BegunLife([]);
    forall body: seq<byte> ensures Track(calls, body) == Live(sent) {
      BegunLife(body);
      assert [] + sent == sent;
    }
  }

  lemma CommitEnds(calls: seq<Verb>, sent: seq<byte>)
    requires Given([Begun(true)], calls, sent, Ok)
    ensures Ended(calls + [Committed], sent, Ok)
  {
    BegunLife(sent);
    assert [] + sent == sent;
    TrackSnoc(calls, Committed, sent);
    OfferedSnoc(calls, Committed);
  }

  lemma AbortEnds(calls: seq<Verb>, sent: seq<byte>, r: Result)
    requires Given([Begun(true)], calls, sent, r) && r != Ok && r != Stuck
    ensures Ended(calls + [Aborted], sent, r)
  {
    BegunLife(sent);
    assert [] + sent == sent;
    OfferedSnoc(calls, Aborted);
    forall body: seq<byte> ensures Track(calls + [Aborted], body) == Gone {
      BegunLife(body);
      TrackSnoc(calls, Aborted, body);
    }
  }

  /**
    From `before` to `after` the application was handed exactly `data`; all of it was accepted unless a chunk failed.
   */
  ghost predicate Given(before: seq<Verb>, after: seq<Verb>, data: seq<byte>, result: Result) {
    && Offered(after) == Offered(before) + data
    && forall body: seq<byte>, got: seq<byte> :: Track(before, body) == Live(got) ==>
         Track(after, body) == Live(got + data) || (Track(after, body) == Spoiled && result == Answered(400))
  }

  lemma GivenNothing(before: seq<Verb>)
    ensures Given(before, before, [], Ok)
  {
    assert Offered(before) + [] == Offered(before);
    forall body: seq<byte>, got: seq<byte> | Track(before, body) == Live(got) ensures got + [] == got {
    }
  }

  lemma GivenMore(before: seq<Verb>, had: seq<Verb>, data: seq<byte>, more: seq<byte>, ok: bool)
    requires Given(before, had, data, Ok)
    ensures Given(before, had + [Chunk(more, ok)], data + more, if ok then Ok else Answered(400))
  {
    var after := had + [Chunk(more, ok)];
    OfferedSnoc(had, Chunk(more, ok));
    assert Offered(before) + data + more == Offered(before) + (data + more);
    forall body: seq<byte>, got: seq<byte> | Track(before, body) == Live(got)
      ensures Track(after, body) == Live(got + (data + more)) || (Track(after, body) == Spoiled && !ok)
    {
      TrackSnoc(had, Chunk(more, ok), body);
      assert got + data + more == got + (data + more);
    }
  }

  lemma GivenStop(before: seq<Verb>, had: seq<Verb>, data: seq<byte>, result: Result)
    requires Given(before, had, data, Ok)
    ensures Given(before, had + [], data, result) && Given(before, had + [], data + [], result)
  {
    assert had + [] == had && data + [] == data;
  }

  lemma NextSlice(data: seq<byte>, peer: seq<byte>, read: nat, got: nat)
    requires read + got <= |peer|
    ensures peer[read..][got..] == peer[read + got..]
    ensures data + peer[..read + got] == data + peer[..read] + peer[read..][..got]
  {
  }

  /** Reading to the front of a buffer. */
  lemma OverlayFront(data: seq<byte>, held: seq<byte>, after: seq<byte>, before: seq<byte>)
    requires |held| <= |before| == |after| && before[..|held|] == held && |data| <= |after|
    requires after[..|data|] == data && after[|data|..] == before[|data|..]
    ensures after[..|held|] == Overlay(data, held)
  {
    forall i | 0 <= i < |held| ensures after[i] == Overlay(data, held)[i] {
      if i < |data| {
        assert after[i] == after[..|data|][i];
      } else {
        assert after[i] == after[|data|..][i - |data|];
        assert held[i] == before[i];
      }
    }
  }

  lemma NoMoreWaits(waits: seq<Wait>, deadline: nat)
    ensures WaitsUntil(waits, waits, deadline)
  {
  }

  lemma OneMoreWait(waits: seq<Wait>, w: Wait, deadline: nat)
    requires w.at + w.timeout == deadline
    ensures WaitsUntil(waits, waits + [w], deadline)
  {
  }

  lemma MoreWaits(first: seq<Wait>, middle: seq<Wait>, last: seq<Wait>, deadline: nat)
    requires WaitsUntil(first, middle, deadline) && WaitsUntil(middle, last, deadline)
    ensures WaitsUntil(first, last, deadline)
  {
    forall i | |first| <= i < |last| ensures last[i].at + last[i].timeout == deadline {
      if i < |middle| { assert last[i] == middle[i]; }
    }
  }

  /** The turns that end the drain before its read. */
  lemma DrainStop(script: seq<Answer>, clock: nat -> nat, tick: nat, deadline: nat, read: nat, incoming: seq<byte>,
                  held: seq<byte>)
    requires read < DRAIN_BYTES
    ensures var z := Drain(script, clock, tick, deadline, read, incoming, held);
            && (clock(tick) >= deadline || script == [] ==> z == Drained(read, script, tick + 1, held))
            && (clock(tick) < deadline && script != []
                  && (!script[0].Count? || script[0].n == 0 || script[1..] == []) ==>
                  z == Drained(read, script[1..], tick + 1, held))
  {
  }

  /** A turn that polls and reads. */
  lemma DrainStep(script: seq<Answer>, clock: nat -> nat, tick: nat, deadline: nat, read: nat, incoming: seq<byte>,
                  held: seq<byte>)
    requires read < DRAIN_BYTES && clock(tick) < deadline && |script| > 1 && script[0].Count? && script[0].n > 0
    ensures Drain(script, clock, tick, deadline, read, incoming, held) ==
            var rest, a := script[1..][1..], Limited(script[1..][0], Min(BUFFER, |incoming|));
            if a.Count? && a.n > 0 then
              Drain(rest, clock, tick + 1, deadline, read + a.n, incoming[a.n..], Overlay(incoming[..a.n], held))
            else if a == Interrupted || a == WouldBlock then
              Drain(rest, clock, tick + 1, deadline, read, incoming, held)
            else Drained(read, rest, tick + 1, held)
  {
    hide Overlay;
    assert script[1..][1..] == script[2..];
  }

  lemma DrainFull(script: seq<Answer>, clock: nat -> nat, tick: nat, deadline: nat, read: nat, incoming: seq<byte>,
                  held: seq<byte>)
    requires DRAIN_BYTES <= read < DRAIN_BYTES + BUFFER
    ensures Drain(script, clock, tick, deadline, read, incoming, held) == Drained(read, script, tick, held)
  {
  }

  lemma NoWaits(deadline: nat)
    ensures WithinDeadline([], deadline)
  {
  }

  lemma FeedEnd(script: seq<Answer>, clock: nat -> nat, tick: nat, verdicts: seq<bool>, deadline: nat, avail: nat)
    ensures Feed(script, clock, tick, verdicts, deadline, 0, avail) == Fed(0, script, tick, verdicts, Ok)
  {
  }
}

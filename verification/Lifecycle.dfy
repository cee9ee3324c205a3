/**
  Starting and stopping n operators (worker.c's worker_run and worker_destroy against operator.c's operator_thread): the
  boot thread creates the operator threads, waits for each to report, and on any failure asks them to stop, joins them
  and only then destroys what they used. The threads publish their own start-up with a compare-and-swap on a status that
  the boot thread may already have set to Shutdown.
 */
module Lifecycle {
  import opened Options

  datatype Status = Initializing | Active | Full | InitFailed | Shutdown

  /** Admitting: past the test for Active of a descriptor it has taken off the mailbox, and not done with it. */
  datatype Thread = NotCreated | Initing | Serving | Admitting | Exited

  /** One operator: its thread and status, and what the boot thread has done about it. */
  datatype Op = Op(thread: Thread, status: Status, seen: bool, asked: bool, joins: nat, destroyed: bool)

  /** The boot thread: worker_run up to Running or Refused, worker_destroy from Asking on. */
  datatype Boot =
    | Creating
    | Unwinding(next: nat, asked: bool)
    | Refused
    | Waiting(next: nat)
    | Running
    | Asking(next: nat)
    | Joining(next: nat)
    | Freeing(next: nat)
    | Done

  datatype State = State(ops: seq<Op>, boot: Boot, created: nat)

  /**
    Go is the next step of the boot thread; `bad` makes pthread_create fail, or the wait for a report time out. Destroy
    is a call of worker_destroy. Work is the next step of an operator thread between two events, whose own start-up
    fails if `bad`. Client is an event of a client on it, after which the status follows the load only if the client
    was removed. Take takes a descriptor off the mailbox; Place gives it a slot, and the status its load, or fails to.
   */
  datatype Action =
    | Go(bad: bool)
    | Destroy
    | Work(k: nat, bad: bool)
    | Client(k: nat, removed: bool)
    | Take(k: nat)
    | Place(k: nat, added: bool, full: bool)

  function Initial(n: nat): State {
    State(seq(n, _ => Op(NotCreated, Initializing, false, false, 0, false)), Creating, 0)
  }

  function Put(s: State, k: nat, op: Op): State
    requires k < |s.ops|
  {
    s.(ops := s.ops[k := op])
  }

  /** operator_request_shutdown: a plain store. */
  function Ask(op: Op): Op {
    op.(asked := true, status := Shutdown)
  }

  /** pthread_join returns only once the thread has. */
  function Join(s: State, k: nat, after: Boot): State
    requires k < |s.ops|
  {
    if s.ops[k].thread == Exited then Put(s, k, s.ops[k].(joins := s.ops[k].joins + 1)).(boot := after) else s
  }

  function BootStep(s: State, bad: bool): State
    requires s.created <= |s.ops|
  {
    var n := |s.ops|;
    match s.boot
    case Creating =>
      if s.created == n then s.(boot := Waiting(0))
      else if bad then s.(boot := Unwinding(0, false))
      else Put(s, s.created, s.ops[s.created].(thread := Initing)).(created := s.created + 1)
    case Unwinding(j, asked) =>
      if j >= s.created then s.(boot := Refused)
      else if !asked then Put(s, j, Ask(s.ops[j])).(boot := Unwinding(j, true))
      else Join(s, j, Unwinding(j + 1, false))
    case Waiting(i) =>
      if i >= n then s.(boot := Running)
      else if s.ops[i].status == Initializing then if bad then s.(boot := Asking(0)) else s
      else if s.ops[i].status == Active then Put(s, i, s.ops[i].(seen := true)).(boot := Waiting(i + 1))
      else s.(boot := Asking(0))
    case Asking(j) =>
      if j >= n then s.(boot := Joining(0)) else Put(s, j, Ask(s.ops[j])).(boot := Asking(j + 1))
    case Joining(j) => if j >= n then s.(boot := Freeing(0)) else Join(s, j, Joining(j + 1))
    case Freeing(j) =>
      if j >= n then s.(boot := Done)
      else Put(s, j, s.ops[j].(destroyed := true, status := Shutdown)).(boot := Freeing(j + 1))
    case _ => s
  }

  /** worker_destroy joins nobody if not all threads were started: those that were have been joined already. */
  function DestroyStep(s: State): State {
    match s.boot
    case Running => s.(boot := Asking(0))
    case Refused => s.(boot := Freeing(0))
    case _ => s
  }

  function OpStep(s: State, k: nat, bad: bool): State
    requires k < |s.ops|
  {
    var op := s.ops[k];
    match op.thread
    case Initing =>
      if op.status == Initializing then
        Put(s, k, if bad then op.(status := InitFailed, thread := Exited) else op.(status := Active, thread := Serving))
      else Put(s, k, op.(thread := Exited))
    case Serving => if op.status == Active || op.status == Full then s else Put(s, k, op.(thread := Exited))
    case _ => s
  }

  /** An event on an operator whose loop is running. */
  function EventStep(s: State, a: Action): State {
    match a
    case Client(k, removed) =>
      if k < |s.ops| && s.ops[k].thread == Serving && removed then Put(s, k, s.ops[k].(status := Active)) else s
    case Take(k) =>
      if k < |s.ops| && s.ops[k].thread == Serving && s.ops[k].status == Active then
        Put(s, k, s.ops[k].(thread := Admitting))
      else s
    case Place(k, added, full) =>
      if k < |s.ops| && s.ops[k].thread == Admitting then
        var op := s.ops[k].(thread := Serving);
        Put(s, k, if !added then op else op.(status := if full then Full else Active))
      else s
    case _ => s
  }

  function Step(s: State, a: Action): State
    requires s.created <= |s.ops|
  {
    match a
    case Go(bad) => BootStep(s, bad)
    case Destroy => DestroyStep(s)
    case Work(k, bad) => if k < |s.ops| then OpStep(s, k, bad) else s
    case _ => EventStep(s, a)
  }

  function Run(s: State, actions: seq<Action>): State
    requires s.created <= |s.ops|
    decreases |actions|
  {
    if actions == [] then s else
    var s' := Step(s, actions[0]);
    if s'.created <= |s'.ops| then Run(s', actions[1..]) else s'
  }

  // ----- the invariant, operator by operator -----

  /** How many operators the boot thread has asked to stop, joined, destroyed, and seen active. */
  function Asked(s: State): nat {
    match s.boot
    case Unwinding(j, asked) => j + if asked then 1 else 0
    case Asking(j) => j
    case Creating => 0
    case Waiting(_) => 0
    case Running => 0
    case _ => s.created
  }

  function Joined(s: State): nat {
    match s.boot
    case Unwinding(j, _) => j
    case Joining(j) => j
    case Refused => s.created
    case Freeing(_) => s.created
    case Done => s.created
    case _ => 0
  }

  function Freed(s: State): nat {
    match s.boot
    case Freeing(j) => j
    case Done => |s.ops|
    case _ => 0
  }

  /** Whether the boot thread has created an operator's thread and asked it to stop. */
  predicate Started(s: State, k: nat)
    requires k < |s.ops|
  {
    (s.ops[k].thread == NotCreated <==> k >= s.created) && (s.ops[k].asked <==> k < Asked(s))
  }

  /** Whether it has joined the thread and destroyed the operator. */
  predicate Ended(s: State, k: nat)
    requires k < |s.ops|
  {
    var op := s.ops[k];
    && op.joins == (if k < Joined(s) then 1 else 0) && (op.joins == 1 ==> op.thread == Exited)
    && (op.destroyed <==> k < Freed(s))
  }

  /** What it has seen of it. */
  predicate Seen(s: State, k: nat)
    requires k < |s.ops|
  {
    var op := s.ops[k];
    && (op.thread == NotCreated || op.thread == Initing ==> op.status == Initializing || op.status == Shutdown)
    && (op.seen ==> op.thread != NotCreated && op.thread != Initing)
    && (s.boot.Waiting? && k < s.boot.next ==> op.seen) && (s.boot == Running ==> op.seen)
    && (!op.asked && !op.destroyed ==>
          match op.thread
          case NotCreated => op.status == Initializing
          case Initing => op.status == Initializing
          case Exited => op.status == InitFailed && !op.seen
          case _ => op.status == Active || op.status == Full)
  }

  predicate OpInv(s: State, k: nat)
    requires k < |s.ops|
  {
    Started(s, k) && Ended(s, k) && Seen(s, k)
  }

  predicate BootInv(s: State) {
    var n := |s.ops|;
    && s.created <= n
    && match s.boot
       case Creating => true
       case Unwinding(j, asked) => s.created < n && j <= s.created && (asked ==> j < s.created)
       case Refused => s.created < n
       case Waiting(i) => s.created == n && i <= n
       case Running => s.created == n
       case Asking(j) => s.created == n && j <= n
       case Joining(j) => s.created == n && j <= n
       case Freeing(j) => j <= n
       case Done => true
  }

  ghost predicate Inv(s: State) {
    BootInv(s) && forall k :: 0 <= k < |s.ops| ==> OpInv(s, k)
  }

  lemma InitialInv(n: nat)
    ensures Inv(Initial(n))
  {
  }

  lemma BootKeepsStarted(s: State, bad: bool, k: nat)
    requires BootInv(s) && k < |s.ops| && Started(s, k)
    ensures |BootStep(s, bad).ops| == |s.ops| && Started(BootStep(s, bad), k)
  {
  }

  lemma BootKeepsEnded(s: State, bad: bool, k: nat)
    requires BootInv(s) && k < |s.ops| && Ended(s, k)
    ensures |BootStep(s, bad).ops| == |s.ops| && Ended(BootStep(s, bad), k)
  {
    hide Asked;
  }

  lemma BootKeepsSeen(s: State, bad: bool, k: nat)
    requires BootInv(s) && k < |s.ops| && Started(s, k) && Seen(s, k)
    ensures |BootStep(s, bad).ops| == |s.ops| && Seen(BootStep(s, bad), k)
  {
    hide Asked, Joined, Freed;
  }

  lemma BootKeepsBoot(s: State, bad: bool)
    requires BootInv(s)
    ensures BootInv(BootStep(s, bad)) && |BootStep(s, bad).ops| == |s.ops|
  {
  }

  lemma BootKeeps(s: State, bad: bool)
    requires Inv(s)
    ensures Inv(BootStep(s, bad))
  {
    hide Started, Ended, Seen, BootInv, BootStep;
    InvBoot(s);
    var s' := BootStep(s, bad);
    BootKeepsBoot(s, bad);
    forall k | 0 <= k < |s'.ops| ensures OpInv(s', k) {
      assert OpInv(s, k);
      BootKeepsStarted(s, bad, k);
      BootKeepsEnded(s, bad, k);
      BootKeepsSeen(s, bad, k);
    }
  }

  lemma DestroyKeeps(s: State)
    requires Inv(s)
    ensures Inv(DestroyStep(s))
  {
    var s' := DestroyStep(s);
    forall k | 0 <= k < |s'.ops| ensures OpInv(s', k) {
      assert OpInv(s, k);
    }
  }

  lemma OpKeeps(s: State, k: nat, bad: bool)
    requires Inv(s) && k < |s.ops|
    ensures Inv(OpStep(s, k, bad))
  {
    var s' := OpStep(s, k, bad);
    forall j | 0 <= j < |s'.ops| ensures OpInv(s', j) {
      assert OpInv(s, j);
    }
  }

  lemma StepKeeps(s: State, a: Action)
    requires Inv(s)
    ensures Inv(Step(s, a)) && |Step(s, a).ops| == |s.ops|
  {
    hide OpInv;
    match a
    case Go(bad) => BootKeeps(s, bad);
    case Destroy => DestroyKeeps(s);
    case Work(k, bad) => if k < |s.ops| { OpKeeps(s, k, bad); }
    case _ => EventKeeps(s, a);
  }

  lemma EventKeeps(s: State, a: Action)
    requires Inv(s)
    ensures Inv(EventStep(s, a)) && |EventStep(s, a).ops| == |s.ops|
  {
    hide EventStep, OpInv;
    EventKeepsBoot(s, a);
    forall j | 0 <= j < |s.ops| ensures OpInv(EventStep(s, a), j) {
      EventKeepsOp(s, a, j);
    }
  }

  lemma EventKeepsBoot(s: State, a: Action)
    requires BootInv(s)
    ensures BootInv(EventStep(s, a)) && |EventStep(s, a).ops| == |s.ops|
  {
  }

  lemma EventKeepsOp(s: State, a: Action, j: nat)
    requires j < |s.ops| && OpInv(s, j)
    ensures |EventStep(s, a).ops| == |s.ops| && OpInv(EventStep(s, a), j)
  {
  }

  lemma {:induction false} RunKeeps(s: State, actions: seq<Action>)
    requires Inv(s)
    ensures Inv(Run(s, actions)) && |Run(s, actions).ops| == |s.ops|
    decreases |actions|
  {
    hide OpInv, Step;
    if actions != [] {
      StepKeeps(s, actions[0]);
      RunKeeps(Step(s, actions[0]), actions[1..]);
    }
  }

  lemma {:induction false} RunAppend(s: State, xs: seq<Action>, ys: seq<Action>)
    requires Inv(s)
    ensures Inv(Run(s, xs)) && Run(s, xs + ys) == Run(Run(s, xs), ys)
    decreases |xs|
  {
    hide Step, OpInv;
    if xs == [] {
      assert xs + ys == ys;
    } else {
      StepKeeps(s, xs[0]);
      RunAppend(Step(s, xs[0]), xs[1..], ys);
      assert (xs + ys)[1..] == xs[1..] + ys;
    }
  }

  // ----- what that means -----

  /** The fate of one operator under every interleaving, creation failure and timeout. */
  ghost predicate Orderly(s: State, k: nat)
    requires k < |s.ops|
  {
    var op := s.ops[k];
    && op.joins <= 1 && (op.joins == 1 ==> op.thread == Exited)
    && (op.destroyed ==> if op.thread == NotCreated then op.joins == 0 else op.joins == 1)
    && (s.boot == Running ==>
          && op.seen && (op.thread == Serving || op.thread == Admitting)
          && (op.status == Active || op.status == Full))
    && (s.boot == Refused ==> op.thread == NotCreated || op.joins == 1)
  }

  /**
    Every operator thread that was created is joined exactly once, and before its operator is destroyed, whichever
    creation fails and whichever report is late; worker_run succeeds only after every operator was seen active, and then
    all of them serve until somebody asks them to stop.
   */
  lemma JoinedBeforeDestroyed(n: nat, actions: seq<Action>, k: nat)
    requires k < n
    ensures var s := Run(Initial(n), actions); |s.ops| == n && Orderly(s, k)
  {
    hide Run, BootInv;
    InitialInv(n);
    RunKeeps(Initial(n), actions);
    var s := Run(Initial(n), actions);
    assert OpInv(s, k);
    InvBoot(s);
  }

  lemma InvBoot(s: State)
    requires Inv(s)
    ensures s.created <= |s.ops|
  {
  }

  /** One operator that fails to start is enough: worker_run does not succeed, whatever happens before and after. */
  lemma FailedStartRefuses(n: nat, before: seq<Action>, k: nat, after: seq<Action>)
    requires k < n
    ensures var s := Run(Initial(n), before);
            && Inv(s) && |s.ops| == n
            && (s.ops[k].thread == Initing ==>
                  var s' := Step(s, Work(k, true));
                  && Inv(s') && |s'.ops| == n && s'.ops[k].thread == Exited
                  && (!s.ops[k].asked ==> s'.ops[k].status == InitFailed)
                  && Run(s', after).boot != Running)
  {
    hide Run, BootInv, Seen, Inv;
    InitialInv(n);
    RunKeeps(Initial(n), before);
    var s := Run(Initial(n), before);
    InvBoot(s);
    if s.ops[k].thread == Initing {
      var s' := Step(s, Work(k, true));
      StepKeeps(s, Work(k, true));
      FailsToStart(s, k);
      ExitedStays(s', after, k);
      RunKeeps(s', after);
      RunningServes(Run(s', after), k);
    }
  }

  lemma FailsToStart(s: State, k: nat)
    requires Inv(s) && k < |s.ops| && s.ops[k].thread == Initing
    ensures var s' := Step(s, Work(k, true));
            && |s'.ops| == |s.ops| && s'.ops[k].thread == Exited
            && (!s.ops[k].asked ==> s'.ops[k].status == InitFailed)
  {
    assert OpInv(s, k);
  }

  lemma RunningServes(s: State, k: nat)
    requires Inv(s) && k < |s.ops|
    ensures s.boot == Running ==> s.ops[k].thread == Serving || s.ops[k].thread == Admitting
  {
    assert OpInv(s, k);
  }

  /** How far the boot thread is from where it settles: serving, refused or done. */
  function BootRank(s: State): int {
    var n := |s.ops|;
    match s.boot
    case Creating => 5 + 5 * n - s.created
    case Waiting(i) => 4 + 4 * n - i
    case Asking(j) => 3 + 3 * n - j
    case Joining(j) => 2 + 2 * n - j
    case Freeing(j) => 1 + n - j
    case Unwinding(j, asked) => 1 + 2 * (n - j) + (if asked then 0 else 1)
    case _ => 0
  }

  /** The thread that the boot thread is joining. */
  function JoinedNext(boot: Boot): Option<nat> {
    match boot
    case Joining(j) => Some(j)
    case Unwinding(j, true) => Some(j)
    case _ => None
  }

  /**
    The boot thread always gets on: each of its steps brings it nearer to where it settles, unless it has settled, or
    waits for a thread it has asked to stop, or for an operator's report that may still come. A report that says
    anything but success, and one that is late, do not hold it up.
   */
  lemma BootGetsOn(s: State, bad: bool)
    requires Inv(s)
    ensures var s' := Step(s, Go(bad));
            && BootRank(s') >= 0
            && (|| BootRank(s') < BootRank(s)
                || (s' == s && (s.boot == Running || s.boot == Refused || s.boot == Done))
                || (s' == s && JoinedNext(s.boot).Some? && JoinedNext(s.boot).value < |s.ops|
                    && s.ops[JoinedNext(s.boot).value].thread != Exited)
                || (s' == s && s.boot.Waiting? && s.boot.next < |s.ops| && !bad
                    && s.ops[s.boot.next].status == Initializing))
  {
    hide OpInv;
    BootKeepsBoot(s, bad);
  }

  /** The steps that free the operators from `j` on. */
  lemma {:induction false} FreesRest(s: State, j: nat) returns (actions: seq<Action>)
    requires Inv(s) && s.boot == Freeing(j)
    ensures var e := Run(s, actions);
            && e.boot == Done && |e.ops| == |s.ops| && forall k :: 0 <= k < |e.ops| ==> e.ops[k].destroyed
    decreases |s.ops| - j
  {
    hide OpInv, Seen;
    var s' := Step(s, Go(false));
    StepKeeps(s, Go(false));
    FreesNext(s, j);
    if j == |s.ops| {
      actions := [Go(false)];
      AllFreed(s');
      assert Run(s', []) == s';
    } else {
      var rest := FreesRest(s', j + 1);
      actions := [Go(false)] + rest;
      assert actions[1..] == rest;
    }
  }

  lemma FreesNext(s: State, j: nat)
    requires Inv(s) && s.boot == Freeing(j)
    ensures j <= |s.ops|
    ensures var s' := Step(s, Go(false));
            |s'.ops| == |s.ops| && s'.boot == if j == |s.ops| then Done else Freeing(j + 1)
  {
    hide OpInv;
  }

  lemma AllFreed(s: State)
    requires Inv(s) && s.boot == Done
    ensures forall k :: 0 <= k < |s.ops| ==> s.ops[k].destroyed
  {
    forall k | 0 <= k < |s.ops| ensures s.ops[k].destroyed { assert OpInv(s, k); }
  }

  /** After a start-up that was refused, worker_destroy by itself gets to the end, with every operator destroyed. */
  lemma RefusedIsFreed(s: State) returns (actions: seq<Action>)
    requires Inv(s) && s.boot == Refused
    ensures Inv(Step(s, Destroy))
    ensures var e := Run(Step(s, Destroy), actions);
            && e.boot == Done && |e.ops| == |s.ops| && forall k :: 0 <= k < |e.ops| ==> e.ops[k].destroyed
  {
    hide OpInv, Run;
    StepKeeps(s, Destroy);
    actions := FreesRest(Step(s, Destroy), 0);
  }

  /** A client that has got its slot shows in the status: FULL with the last slot, and room before. */
  lemma AdmissionShows(s: State, k: nat, full: bool)
    requires Inv(s) && k < |s.ops| && s.ops[k].thread == Admitting
    ensures var s' := Step(s, Place(k, true, full));
            |s'.ops| == |s.ops| && s'.ops[k].thread == Serving && s'.ops[k].status == if full then Full else Active
  {
    hide OpInv;
  }

  // ----- a shutdown that has been asked for -----

  /**
    What overwrites a request: an event that removes a client of this very operator, or a client that gets its slot on
    it after its descriptor passed the test for Active before the request.
   */
  predicate Overwrites(s: State, a: Action, k: nat)
    requires k < |s.ops|
  {
    || (a.Client? && a.k == k && a.removed && s.ops[k].thread == Serving)
    || (a.Place? && a.k == k && a.added && s.ops[k].thread == Admitting)
  }

  /** Step by step, a stored shutdown stays if and only if the step is not that. */
  lemma ShutdownStep(s: State, a: Action, k: nat)
    requires Inv(s) && k < |s.ops| && s.ops[k].asked && s.ops[k].status == Shutdown
    ensures |Step(s, a).ops| == |s.ops| && Step(s, a).ops[k].asked
    ensures Step(s, a).ops[k].status == Shutdown <==> !Overwrites(s, a, k)
  {
    hide OpInv;
    StepKeeps(s, a);
  }

  /** At every moment of the run the operator's status is Shutdown. */
  ghost predicate AlwaysShutdown(s: State, actions: seq<Action>, k: nat)
    requires Inv(s) && k < |s.ops|
    decreases |actions|
  {
    StepKeepsAll(s);
    s.ops[k].status == Shutdown && (actions != [] ==> AlwaysShutdown(Step(s, actions[0]), actions[1..], k))
  }

  /** At no moment of the run is a client removed from the operator, or added to it. */
  ghost predicate NeverOverwritten(s: State, actions: seq<Action>, k: nat)
    requires Inv(s) && k < |s.ops|
    decreases |actions|
  {
    StepKeepsAll(s);
    actions != [] ==> !Overwrites(s, actions[0], k) && NeverOverwritten(Step(s, actions[0]), actions[1..], k)
  }

  lemma StepKeepsAll(s: State)
    requires Inv(s)
    ensures forall a :: Inv(Step(s, a)) && |Step(s, a).ops| == |s.ops|
  {
    hide Step, Inv;
    InvBoot(s);
    forall a ensures Inv(Step(s, a)) && |Step(s, a).ops| == |s.ops| { StepKeeps(s, a); }
  }

  lemma {:induction false} ShutdownRun(s: State, actions: seq<Action>, k: nat)
    requires Inv(s) && k < |s.ops| && s.ops[k].asked && s.ops[k].status == Shutdown
    ensures AlwaysShutdown(s, actions, k) <==> NeverOverwritten(s, actions, k)
    decreases |actions|
  {
    hide Step, Inv, Overwrites;
    InvBoot(s);
    if actions != [] {
      var s' := Step(s, actions[0]);
      StepKeeps(s, actions[0]);
      ShutdownStep(s, actions[0], k);
      if s'.ops[k].status == Shutdown { ShutdownRun(s', actions[1..], k); }
    }
  }

  /** The step in which the boot thread asks an operator to stop. */
  ghost predicate Requests(s: State, a: Action, k: nat)
    requires Inv(s) && k < |s.ops|
  {
    StepKeepsAll(s);
    !s.ops[k].asked && Step(s, a).ops[k].asked
  }

  /**
    The request stores Shutdown whatever was there: before the thread's compare-and-swap, after it, or while it serves.
   */
  lemma RequestStores(s: State, a: Action, k: nat)
    requires Inv(s) && k < |s.ops| && Requests(s, a, k)
    ensures |Step(s, a).ops| == |s.ops| && Step(s, a).ops[k].status == Shutdown
  {
    hide Ended, Seen;
    StepKeeps(s, a);
  }

  /**
    A shutdown stays exactly as long as the operator keeps the clients it has. Whatever happened before the request and
    whatever happens to other operators: from the moment an operator is asked to stop its status is Shutdown throughout
    if and only if none of its clients is removed by an event, and none that was on its way is added. Requests served
    on connections that stay, reads, parked sends and the sweep do not matter.
   */
  lemma ShutdownStaysExactly(n: nat, before: seq<Action>, a: Action, after: seq<Action>, k: nat)
    requires k < n
    ensures var s := Run(Initial(n), before);
            && Inv(s) && |s.ops| == n
            && (Requests(s, a, k) ==>
                  && Inv(Step(s, a)) && |Step(s, a).ops| == n
                  && (AlwaysShutdown(Step(s, a), after, k) <==> NeverOverwritten(Step(s, a), after, k)))
  {
    hide Run, Step, Inv, AlwaysShutdown, NeverOverwritten;
    InitialInv(n);
    RunKeeps(Initial(n), before);
    var s := Run(Initial(n), before);
    InvBoot(s);
    if Requests(s, a, k) {
      StepKeeps(s, a);
      RequestStores(s, a, k);
      ShutdownRun(Step(s, a), after, k);
    }
  }

  /** A thread that finds the shutdown exits at its next step, wherever it is in its start-up or loop. */
  lemma AskedExits(s: State, k: nat, bad: bool)
    requires Inv(s) && k < |s.ops| && s.ops[k].status == Shutdown
    requires s.ops[k].thread != NotCreated && s.ops[k].thread != Admitting
    ensures |Step(s, Work(k, bad)).ops| == |s.ops| && Step(s, Work(k, bad)).ops[k].thread == Exited
  {
    hide OpInv;
  }

  /** With the shutdown stored no descriptor passes the test for Active; one that had is dealt with first. */
  lemma NoMoreAdmitted(s: State, a: Action, k: nat)
    requires Inv(s) && k < |s.ops| && s.ops[k].status == Shutdown && s.ops[k].thread != NotCreated
    ensures |Step(s, a).ops| == |s.ops| && Step(s, a).ops[k].thread != NotCreated
    ensures Step(s, a).ops[k].thread == Admitting ==> s.ops[k].thread == Admitting && !(a.Place? && a.k == k)
  {
    StepKeeps(s, a);
    assert OpInv(s, k);
  }

  /** A thread that has exited stays so. */
  lemma {:induction false} ExitedStays(s: State, actions: seq<Action>, k: nat)
    requires Inv(s) && k < |s.ops| && s.ops[k].thread == Exited
    ensures |Run(s, actions).ops| == |s.ops| && Run(s, actions).ops[k].thread == Exited
    decreases |actions|
  {
    if actions != [] {
      StepKeeps(s, actions[0]);
      ExitedStep(s, actions[0], k);
      hide Step, Inv;
      ExitedStays(Step(s, actions[0]), actions[1..], k);
    }
  }

  lemma ExitedStep(s: State, a: Action, k: nat)
    requires Inv(s) && k < |s.ops| && s.ops[k].thread == Exited
    ensures |Step(s, a).ops| == |s.ops| && Step(s, a).ops[k].thread == Exited
  {
    StepKeeps(s, a);
    assert OpInv(s, k);
  }

  /**
    The join returns: as long as nothing overwrites the request, the thread has exited once it has been scheduled a
    single time after it, and after it has dealt with a descriptor it was just admitting.
   */
  lemma {:induction false} ShutdownJoins(s: State, actions: seq<Action>, k: nat, h: nat, i: nat)
    requires Inv(s) && k < |s.ops| && s.ops[k].asked && s.ops[k].status == Shutdown && s.ops[k].thread != NotCreated
    requires NeverOverwritten(s, actions, k) && i < |actions| && actions[i].Work? && actions[i].k == k
    requires s.ops[k].thread == Admitting ==> h < i && actions[h].Place? && actions[h].k == k
    ensures |Run(s, actions).ops| == |s.ops| && Run(s, actions).ops[k].thread == Exited
    decreases |actions|
  {
    hide Step, Inv, Overwrites;
    InvBoot(s);
    var s' := Step(s, actions[0]);
    StepKeeps(s, actions[0]);
    if i == 0 {
      AskedExits(s, k, actions[0].bad);
      ExitedStays(s', actions[1..], k);
    } else {
      ShutdownStep(s, actions[0], k);
      NoMoreAdmitted(s, actions[0], k);
      ShutdownJoins(s', actions[1..], k, if h > 0 then h - 1 else 0, i - 1);
    }
    InvBoot(s');
  }

  /** The case that fails: the thread serves on, and the join waits for it. */
  lemma ShutdownOverwritten() returns (actions: seq<Action>)
    ensures var s := Run(Initial(1), actions);
            && |s.ops| == 1 && s.boot == Joining(0)
            && s.ops[0].asked && s.ops[0].status == Active && s.ops[0].thread == Serving
  {
    var start := [Go(false), Work(0, false), Go(false), Go(false), Go(false)];
    var stop := [Destroy, Go(false), Go(false), Client(0, true)];
    StartOne(start);
    StopOne(State([Op(Serving, Active, true, false, 0, false)], Running, 1), stop);
    InitialInv(1);
    RunAppend(Initial(1), start, stop);
    actions := start + stop;
  }

  lemma StartOne(a: seq<Action>)
    requires a == [Go(false), Work(0, false), Go(false), Go(false), Go(false)]
    ensures Run(Initial(1), a) == State([Op(Serving, Active, true, false, 0, false)], Running, 1)
  {
    var s0 := Initial(1);
    var s1 := State([Op(Initing, Initializing, false, false, 0, false)], Creating, 1);
    var s2 := State([Op(Serving, Active, false, false, 0, false)], Creating, 1);
    var s3 := s2.(boot := Waiting(0));
    var s4 := State([Op(Serving, Active, true, false, 0, false)], Waiting(1), 1);
    RunTrace([s0, s1, s2, s3, s4, s4.(boot := Running)], a, 0);
    assert a[0..] == a;
  }

  lemma StopOne(s: State, a: seq<Action>)
    requires s == State([Op(Serving, Active, true, false, 0, false)], Running, 1)
    requires a == [Destroy, Go(false), Go(false), Client(0, true)]
    ensures Run(s, a) == State([Op(Serving, Active, true, true, 0, false)], Joining(0), 1)
  {
    var s1 := s.(boot := Asking(0));
    var s2 := State([Op(Serving, Shutdown, true, true, 0, false)], Asking(1), 1);
    var s3 := s2.(boot := Joining(0));
    var s4 := State([Op(Serving, Active, true, true, 0, false)], Joining(0), 1);
    RunTrace([s, s1, s2, s3, s4], a, 0);
    assert a[0..] == a;
  }

  /** A run through the given states. */
  lemma {:induction false} RunTrace(states: seq<State>, actions: seq<Action>, i: nat)
    requires |states| == |actions| + 1 && i <= |actions|
    requires forall j :: 0 <= j < |states| ==> states[j].created <= |states[j].ops|
    requires forall j :: 0 <= j < |actions| ==> states[j + 1] == Step(states[j], actions[j])
    ensures Run(states[i], actions[i..]) == states[|actions|]
    decreases |actions| - i
  {
    hide Step;
    if i < |actions| {
      RunTrace(states, actions, i + 1);
      assert actions[i..][1..] == actions[i + 1..];
    }
  }
}

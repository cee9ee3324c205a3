/**
  The upload pool of upload_worker.c as interleaved steps of n workers, the listener that feeds them and the thread that
  shuts them down. What runs under the mutex between two waits is one step; everything else interleaves freely, the
  condition variable may wake a worker for no reason, and a signal may wake more than one.
 */
module UploadPool {
  import opened Counting
  import opened Options

  /** Where a worker is: Locked owns the mutex before testing the queue, Waking has to take it again first. */
  datatype Worker = Starting | Wanting | Locked | Asleep | Waking | Holding(fd: int) | Gone

  /** The listener, from an accepted descriptor through upload_worker_dispatch to its answer. */
  datatype Listener =
    | Resting
    | Offering(fd: int)
    | Admitted(fd: int)
    | Entering(fd: int)
    | Pushed
    | Refused(fd: int)

  /** The main thread in upload_workers_shutdown. */
  datatype Main = Serving | Stopping | Draining | Joining(next: nat)

  datatype Owner = Free | Worker(index: nat) | TheListener | TheMain

  datatype State = State(
    workers: seq<Worker>,
    listener: Listener,
    main: Main,
    lock: Owner,
    queue: seq<int>,
    most: nat,
    running: bool,
    /** Every descriptor queued, and every one taken off the queue, in order. */
    accepted: seq<int>,
    removed: seq<int>,
    /** The descriptors now open; whether one that was not open was ever closed. */
    open: set<int>,
    closedTwice: bool)

  /** What the scheduler lets happen next. */
  datatype Action =
    | Work(i: nat, lucky: bool)
    | Spurious(i: nat)
    | Accept(fd: int)
    | Listen(woken: set<nat>)
    | Stop
    | Advance

  function Initial(n: nat, most: nat): State {
    State(seq(n, _ => Starting), Resting, Serving, Free, [], most, true, [], [], {}, false)
  }

  function Close(s: State, fd: int): State {
    s.(open := s.open - {fd}, closedTwice := s.closedTwice || fd !in s.open)
  }

  function Put(s: State, i: nat, w: Worker): State
    requires i < |s.workers|
  {
    s.(workers := s.workers[i := w])
  }

  /** The next step of worker `i`; `lucky` is whether its parser could be set up. */
  function WorkerStep(s: State, i: nat, lucky: bool): State
    requires i < |s.workers|
  {
    match s.workers[i]
    case Starting => Put(s, i, if lucky then Wanting else Gone)
    case Wanting => if s.lock.Free? then Put(s, i, Locked).(lock := Worker(i)) else s
    case Waking => if s.lock.Free? then Put(s, i, Locked).(lock := Worker(i)) else s
    case Locked =>
      if s.queue != [] then
        Put(s, i, Holding(s.queue[0])).(lock := Free, queue := s.queue[1..], removed := s.removed + [s.queue[0]])
      else if s.running then Put(s, i, Asleep).(lock := Free)
      else Put(s, i, Gone).(lock := Free)
    case Asleep => s
    case Holding(fd) => Put(Close(s, fd), i, Wanting)
    case Gone => s
  }

  function Wake(workers: seq<Worker>, woken: set<nat>): (r: seq<Worker>)
    ensures |r| == |workers|
  {
    seq(|workers|, i requires 0 <= i < |workers| => if i in woken && workers[i] == Asleep then Waking else workers[i])
  }

  function WakeAll(workers: seq<Worker>): (r: seq<Worker>)
    ensures |r| == |workers|
  {
    seq(|workers|, i requires 0 <= i < |workers| => if workers[i] == Asleep then Waking else workers[i])
  }

  predicate AnyAsleep(workers: seq<Worker>) {
    exists i :: 0 <= i < |workers| && workers[i] == Asleep
  }

  /** pthread_cond_signal wakes at least one of the workers that wait, if any does. */
  predicate Signals(workers: seq<Worker>, woken: set<nat>) {
    AnyAsleep(workers) ==> exists i :: 0 <= i < |workers| && workers[i] == Asleep && i in woken
  }

  /** upload_worker_dispatch; note that `running` is tested before the mutex is taken. */
  function ListenerStep(s: State, woken: set<nat>): State {
    match s.listener
    case Resting => s
    case Offering(fd) => s.(listener := if fd < 0 || !s.running then Refused(fd) else Admitted(fd))
    case Admitted(fd) => if s.lock.Free? then s.(listener := Entering(fd), lock := TheListener) else s
    case Entering(fd) =>
      if |s.queue| >= s.most then s.(listener := Refused(fd), lock := Free)
      else s.(listener := Pushed, queue := s.queue + [fd], accepted := s.accepted + [fd])
    case Pushed =>
      if Signals(s.workers, woken) then s.(listener := Resting, lock := Free, workers := Wake(s.workers, woken)) else s
    case Refused(fd) => Close(s, fd).(listener := Resting)
  }

  /** upload_workers_shutdown: stop, close what is queued one by one, wake everybody, join one by one. */
  function MainStep(s: State): State {
    match s.main
    case Serving => s
    case Stopping => if s.lock.Free? then s.(main := Draining, lock := TheMain, running := false) else s
    case Draining =>
      if s.queue != [] then
        Close(s, s.queue[0]).(queue := s.queue[1..], removed := s.removed + [s.queue[0]])
      else s.(main := Joining(0), lock := Free, workers := WakeAll(s.workers))
    case Joining(k) =>
      if k < |s.workers| && s.workers[k] == Gone then s.(main := Joining(k + 1)) else s
  }

  function Step(s: State, a: Action): State {
    match a
    case Work(i, lucky) => if i < |s.workers| then WorkerStep(s, i, lucky) else s
    case Spurious(i) => if i < |s.workers| && s.workers[i] == Asleep then Put(s, i, Waking) else s
    case Accept(fd) =>
      if s.listener == Resting && fd !in s.open && fd >= 0 then
        s.(listener := Offering(fd), open := s.open + {fd})
      else s
    case Listen(woken) => ListenerStep(s, woken)
    case Stop => if s.main == Serving then s.(main := Stopping) else s
    case Advance => MainStep(s)
  }

  function Run(s: State, actions: seq<Action>): State
    decreases |actions|
  {
    if actions == [] then s else Run(Step(s, actions[0]), actions[1..])
  }

  // ----- who has what -----

  function Has(w: Worker, fd: int): nat {
    One(w == Holding(fd))
  }

  function HeldBy(workers: seq<Worker>, fd: int): nat {
    if workers == [] then 0 else Has(workers[0], fd) + HeldBy(workers[1..], fd)
  }

  function InHand(l: Listener, fd: int): nat {
    One(l == Offering(fd) || l == Admitted(fd) || l == Entering(fd) || l == Refused(fd))
  }

  /** How often somebody is responsible for a descriptor. */
  function Custody(s: State, fd: int): nat {
    Queued(s.queue, fd) + HeldBy(s.workers, fd) + InHand(s.listener, fd)
  }

  predicate CustodyOf(s: State, fd: int) {
    Custody(s, fd) == One(fd in s.open)
  }

  // ----- who is coming -----

  /** Awake, and about to test the queue under the mutex. */
  predicate Coming(w: Worker) {
    w == Wanting || w == Waking || w == Locked
  }

  function CountComing(workers: seq<Worker>): nat {
    if workers == [] then 0 else One(Coming(workers[0])) + CountComing(workers[1..])
  }

  // ----- the invariant -----

  ghost predicate LockInv(s: State) {
    && (forall i :: 0 <= i < |s.workers| ==> (s.workers[i] == Locked <==> s.lock == Worker(i)))
    && (s.lock.Worker? ==> s.lock.index < |s.workers|)
    && (s.lock == TheListener <==> s.listener.Entering? || s.listener == Pushed)
    && (s.lock == TheMain <==> s.main == Draining)
  }

  ghost predicate CustodyInv(s: State) {
    && (forall fd: int :: CustodyOf(s, fd)) && !s.closedTwice
    && s.accepted == s.removed + s.queue && |s.queue| <= s.most
  }

  /** No lost wakeup: while somebody sleeps, every queued descriptor has somebody awake to fetch it. */
  ghost predicate WakeInv(s: State) {
    AnyAsleep(s.workers) ==> |s.queue| <= CountComing(s.workers) + One(s.listener == Pushed)
  }

  ghost predicate StopInv(s: State) {
    && (s.running <==> s.main.Serving? || s.main.Stopping?)
    && (s.main.Joining? ==>
          && !AnyAsleep(s.workers) && s.main.next <= |s.workers|
          && forall i :: 0 <= i < s.main.next ==> s.workers[i] == Gone)
  }

  ghost predicate Inv(s: State) {
    LockInv(s) && CustodyInv(s) && WakeInv(s) && StopInv(s)
  }

  // ----- counting -----

  lemma {:induction false} HeldPut(workers: seq<Worker>, i: nat, w: Worker, fd: int)
    requires i < |workers|
    ensures HeldBy(workers[i := w], fd) + Has(workers[i], fd) == HeldBy(workers, fd) + Has(w, fd)
  {
    hide Has;
    if i == 0 {
      assert workers[0 := w][1..] == workers[1..];
    } else {
      HeldPut(workers[1..], i - 1, w, fd);
      assert workers[i := w][1..] == workers[1..][i - 1 := w];
    }
  }

  lemma {:induction false} ComingPut(workers: seq<Worker>, i: nat, w: Worker)
    requires i < |workers|
    ensures CountComing(workers[i := w]) + One(Coming(workers[i])) == CountComing(workers) + One(Coming(w))
  {
    hide Coming;
    if i == 0 {
      assert workers[0 := w][1..] == workers[1..];
    } else {
      ComingPut(workers[1..], i - 1, w);
      assert workers[i := w][1..] == workers[1..][i - 1 := w];
    }
  }

  /** `after` is `before` with some sleepers woken. */
  predicate Woken(before: seq<Worker>, after: seq<Worker>) {
    |before| == |after| && forall i :: 0 <= i < |before| ==>
      after[i] == before[i] || (before[i] == Asleep && after[i] == Waking)
  }

  lemma {:induction false} WokenHold(before: seq<Worker>, after: seq<Worker>, fd: int)
    requires Woken(before, after)
    ensures HeldBy(after, fd) == HeldBy(before, fd)
  {
    if before != [] { WokenHold(before[1..], after[1..], fd); }
  }

  lemma {:induction false} WokenCome(before: seq<Worker>, after: seq<Worker>)
    requires Woken(before, after)
    ensures CountComing(after) >= CountComing(before)
    ensures before != after ==> CountComing(after) > CountComing(before)
  {
    if before != [] {
      WokenCome(before[1..], after[1..]);
      if before[1..] == after[1..] {
        assert before == [before[0]] + before[1..] && after == [after[0]] + after[1..];
      }
    }
  }

  lemma NoNewSleeper(before: seq<Worker>, after: seq<Worker>)
    requires |before| == |after| && forall i :: 0 <= i < |after| && after[i] == Asleep ==> before[i] == Asleep
    ensures AnyAsleep(after) ==> AnyAsleep(before)
  {
    if AnyAsleep(after) {
      var j :| 0 <= j < |after| && after[j] == Asleep;
      assert before[j] == Asleep;
    }
  }

  // ----- every step keeps the invariant -----

  lemma WorkerKeepsCustody(s: State, i: nat, lucky: bool)
    requires i < |s.workers| && CustodyInv(s)
    ensures CustodyInv(WorkerStep(s, i, lucky))
  {
    hide HeldBy, Queued, Has;
    var s' := WorkerStep(s, i, lucky);
    forall fd: int ensures CustodyOf(s', fd) {
      assert CustodyOf(s, fd);
      WorkerCustodyOf(s, i, lucky, fd);
    }
    if s.workers[i].Holding? {
      assert CustodyOf(s, s.workers[i].fd);
      HeldPut(s.workers, i, Wanting, s.workers[i].fd);
      HolderHas(s.workers[i].fd);
    } else if s.workers[i] == Locked && s.queue != [] {
      assert s.queue == [s.queue[0]] + s.queue[1..];
    }
  }

  lemma HolderHas(fd: int)
    ensures Has(Holding(fd), fd) == 1 && Has(Wanting, fd) == 0
  {
  }

  lemma HasWhat(w: Worker, fd: int)
    ensures Has(w, fd) == if w.Holding? then One(w.fd == fd) else 0
  {
  }

  /** A worker that is in the mutex takes the head of the queue, or nothing. */
  lemma LockedCustodyOf(s: State, i: nat, lucky: bool, fd: int)
    requires i < |s.workers| && s.workers[i] == Locked && CustodyOf(s, fd)
    ensures CustodyOf(WorkerStep(s, i, lucky), fd)
  {
    hide HeldBy, Queued, Has;
    var w := WorkerStep(s, i, lucky).workers[i];
    HeldPut(s.workers, i, w, fd);
    HasWhat(Locked, fd);
    HasWhat(w, fd);
    if s.queue != [] { QueuedHead(s.queue, fd); }
  }

  lemma HoldingCustodyOf(s: State, i: nat, lucky: bool, fd: int)
    requires i < |s.workers| && s.workers[i].Holding? && CustodyOf(s, fd)
    ensures CustodyOf(WorkerStep(s, i, lucky), fd)
  {
    hide HeldBy, Queued, Has;
    HeldPut(s.workers, i, Wanting, fd);
    HasWhat(s.workers[i], fd);
    HasWhat(Wanting, fd);
  }

  /** Any other step of a worker moves no descriptor. */
  lemma WorkerCustodyOf(s: State, i: nat, lucky: bool, fd: int)
    requires i < |s.workers| && CustodyOf(s, fd)
    ensures CustodyOf(WorkerStep(s, i, lucky), fd)
  {
    hide HeldBy, Queued, Has;
    if s.workers[i] == Locked {
      LockedCustodyOf(s, i, lucky, fd);
    } else if s.workers[i].Holding? {
      HoldingCustodyOf(s, i, lucky, fd);
    } else {
      var s' := WorkerStep(s, i, lucky);
      if s' != s {
        HeldPut(s.workers, i, s'.workers[i], fd);
        HasWhat(s.workers[i], fd);
        HasWhat(s'.workers[i], fd);
      }
    }
  }

  lemma WorkerKeepsWakeups(s: State, i: nat, lucky: bool)
    requires i < |s.workers| && WakeInv(s) && LockInv(s)
    ensures WakeInv(WorkerStep(s, i, lucky))
  {
    hide CountComing, AnyAsleep;
    var s' := WorkerStep(s, i, lucky);
    if s' != s {
      ComingPut(s.workers, i, s'.workers[i]);
      if s'.workers[i] != Asleep { NoNewSleeper(s.workers, s'.workers); }
    }
  }

  lemma WorkerKeepsLock(s: State, i: nat, lucky: bool)
    requires i < |s.workers| && LockInv(s)
    ensures LockInv(WorkerStep(s, i, lucky))
  {
  }

  lemma WorkerKeepsStop(s: State, i: nat, lucky: bool)
    requires i < |s.workers| && LockInv(s) && StopInv(s)
    ensures StopInv(WorkerStep(s, i, lucky))
  {
    hide AnyAsleep;
    var s' := WorkerStep(s, i, lucky);
    if s'.workers[i] != Asleep { NoNewSleeper(s.workers, s'.workers); }
  }

  lemma ListenerKeepsCustody(s: State, woken: set<nat>)
    requires CustodyInv(s)
    ensures CustodyInv(ListenerStep(s, woken))
  {
    hide HeldBy, Queued;
    var s' := ListenerStep(s, woken);
    forall fd: int ensures CustodyOf(s', fd) {
      assert CustodyOf(s, fd);
      ListenerCustodyOf(s, woken, fd);
    }
    if s.listener.Refused? { assert CustodyOf(s, s.listener.fd); }
    if s.listener.Entering? { assert s.accepted + [s.listener.fd] == s.removed + (s.queue + [s.listener.fd]); }
  }

  lemma ListenerCustodyOf(s: State, woken: set<nat>, fd: int)
    requires CustodyOf(s, fd)
    ensures CustodyOf(ListenerStep(s, woken), fd)
  {
    hide HeldBy, Queued, Signals;
    match s.listener
    case Entering(last) => QueuedSnoc(s.queue, last, fd);
    case Pushed => WokenHold(s.workers, Wake(s.workers, woken), fd);
    case _ =>
  }

  lemma ListenerKeepsWakeups(s: State, woken: set<nat>)
    requires WakeInv(s)
    ensures WakeInv(ListenerStep(s, woken))
  {
    hide CountComing, AnyAsleep, Signals;
    var s' := ListenerStep(s, woken);
    if s.listener == Pushed && Signals(s.workers, woken) {
      NoNewSleeper(s.workers, s'.workers);
      WokenCome(s.workers, s'.workers);
      if AnyAsleep(s.workers) { SomebodyWakes(s.workers, woken); }
    }
  }

  lemma SomebodyWakes(workers: seq<Worker>, woken: set<nat>)
    requires Signals(workers, woken) && AnyAsleep(workers)
    ensures Wake(workers, woken) != workers
  {
    var j :| 0 <= j < |workers| && workers[j] == Asleep && j in woken;
    assert Wake(workers, woken)[j] == Waking;
  }

  lemma ListenerKeepsRest(s: State, woken: set<nat>)
    requires LockInv(s) && StopInv(s)
    ensures LockInv(ListenerStep(s, woken)) && StopInv(ListenerStep(s, woken))
  {
    hide AnyAsleep, Signals;
    NoNewSleeper(s.workers, ListenerStep(s, woken).workers);
  }

  lemma MainKeepsCustody(s: State)
    requires CustodyInv(s)
    ensures CustodyInv(MainStep(s))
  {
    hide HeldBy;
    var s' := MainStep(s);
    forall fd: int ensures CustodyOf(s', fd) {
      assert CustodyOf(s, fd);
      MainCustodyOf(s, fd);
    }
    if s.main == Draining && s.queue != [] {
      assert CustodyOf(s, s.queue[0]);
      assert s.queue == [s.queue[0]] + s.queue[1..];
    }
  }

  lemma MainCustodyOf(s: State, fd: int)
    requires CustodyOf(s, fd)
    ensures CustodyOf(MainStep(s), fd)
  {
    hide HeldBy;
    if s.main == Draining && s.queue == [] { WokenHold(s.workers, WakeAll(s.workers), fd); }
  }

  lemma MainKeepsWakeups(s: State)
    requires WakeInv(s)
    ensures WakeInv(MainStep(s))
  {
    hide CountComing;
    var s' := MainStep(s);
    if s'.workers != s.workers { WokenCome(s.workers, s'.workers); }
  }

  lemma MainKeepsRest(s: State)
    requires LockInv(s) && StopInv(s)
    ensures LockInv(MainStep(s)) && StopInv(MainStep(s))
  {
  }

  lemma OtherKeepsCustody(s: State, a: Action)
    requires CustodyInv(s) && (a.Spurious? || a.Accept? || a.Stop?)
    ensures CustodyInv(Step(s, a))
  {
    hide HeldBy, Queued;
    var s' := Step(s, a);
    forall fd: int ensures CustodyOf(s', fd) {
      assert CustodyOf(s, fd);
      if a.Spurious? && s' != s { HeldPut(s.workers, a.i, Waking, fd); }
    }
  }

  lemma OtherKeepsRest(s: State, a: Action)
    requires WakeInv(s) && LockInv(s) && StopInv(s) && (a.Spurious? || a.Accept? || a.Stop?)
    ensures var s' := Step(s, a); WakeInv(s') && LockInv(s') && StopInv(s')
  {
    hide CountComing, AnyAsleep;
    var s' := Step(s, a);
    if s' != s && a.Spurious? {
      ComingPut(s.workers, a.i, Waking);
      NoNewSleeper(s.workers, s'.workers);
    }
  }

  lemma StepKeeps(s: State, a: Action)
    requires Inv(s)
    ensures Inv(Step(s, a))
  {
    hide LockInv, CustodyInv, WakeInv, StopInv, ListenerStep, MainStep, WorkerStep;
    match a
    case Work(i, lucky) =>
      if i < |s.workers| {
        WorkerKeepsCustody(s, i, lucky);
        WorkerKeepsWakeups(s, i, lucky);
        WorkerKeepsLock(s, i, lucky);
        WorkerKeepsStop(s, i, lucky);
      }
    case Listen(woken) =>
      ListenerKeepsCustody(s, woken);
      ListenerKeepsWakeups(s, woken);
      ListenerKeepsRest(s, woken);
    case Advance =>
      MainKeepsCustody(s);
      MainKeepsWakeups(s);
      MainKeepsRest(s);
    case _ =>
      OtherKeepsCustody(s, a);
      OtherKeepsRest(s, a);
  }

  // ----- whole runs -----

  lemma {:induction false} RunKeeps(s: State, actions: seq<Action>)
    requires Inv(s)
    ensures var s' := Run(s, actions); Inv(s') && |s'.workers| == |s.workers| && s'.most == s.most
    decreases |actions|
  {
    hide Inv, Step;
    if actions != [] {
      StepKeeps(s, actions[0]);
      SameSize(s, actions[0]);
      RunKeeps(Step(s, actions[0]), actions[1..]);
    }
  }

  lemma WorkerSameSize(s: State, i: nat, lucky: bool)
    requires i < |s.workers|
    ensures |WorkerStep(s, i, lucky).workers| == |s.workers| && WorkerStep(s, i, lucky).most == s.most
  {
  }

  lemma ListenerSameSize(s: State, woken: set<nat>)
    ensures |ListenerStep(s, woken).workers| == |s.workers| && ListenerStep(s, woken).most == s.most
  {
    hide Signals;
  }

  lemma MainSameSize(s: State)
    ensures |MainStep(s).workers| == |s.workers| && MainStep(s).most == s.most
  {
  }

  lemma SameSize(s: State, a: Action)
    ensures |Step(s, a).workers| == |s.workers| && Step(s, a).most == s.most
  {
    hide WorkerStep, ListenerStep, MainStep;
    match a
    case Work(i, lucky) => if i < |s.workers| { WorkerSameSize(s, i, lucky); }
    case Listen(woken) => ListenerSameSize(s, woken);
    case Advance => MainSameSize(s);
    case _ =>
  }

  lemma {:induction false} RunAppend(s: State, xs: seq<Action>, ys: seq<Action>)
    ensures Run(s, xs + ys) == Run(Run(s, xs), ys)
    decreases |xs|
  {
    hide Step;
    if xs == [] {
      assert xs + ys == ys;
    } else {
      RunAppend(Step(s, xs[0]), xs[1..], ys);
      assert (xs + ys)[1..] == xs[1..] + ys;
    }
  }

  lemma {:induction false} NobodyYet(workers: seq<Worker>, fd: int)
    requires forall i :: 0 <= i < |workers| ==> workers[i] == Starting
    ensures HeldBy(workers, fd) == 0
  {
    if workers != [] { NobodyYet(workers[1..], fd); }
  }

  lemma InitialInv(n: nat, most: nat)
    ensures Inv(Initial(n, most))
  {
    hide HeldBy;
    var s := Initial(n, most);
    forall fd: int ensures CustodyOf(s, fd) { NobodyYet(s.workers, fd); }
    assert LockInv(s);
    assert !AnyAsleep(s.workers);
  }

  /**
    No lost wakeup. In every interleaving, with spurious wakeups and even with a dispatch that races the shutdown:
    while a worker sleeps, at least as many workers are awake and about to test the queue as there are descriptors on
    it (the one the listener is just about to signal for aside), and nobody sleeps once the shutdown has broadcast.
   */
  lemma NoLostWakeup(n: nat, most: nat, actions: seq<Action>)
    ensures var s := Run(Initial(n, most), actions);
            && (AnyAsleep(s.workers) ==> |s.queue| <= CountComing(s.workers) + One(s.listener == Pushed))
            && (s.main.Joining? ==> !AnyAsleep(s.workers))
  {
    hide Run, Inv, CountComing, AnyAsleep, CustodyInv;
    InitialInv(n, most);
    RunKeeps(Initial(n, most), actions);
    InvParts(Run(Initial(n, most), actions));
  }

  lemma InvParts(s: State)
    requires Inv(s)
    ensures WakeInv(s) && StopInv(s) && CustodyInv(s)
  {
  }

  /**
    Conservation. In every interleaving each open descriptor is in exactly one place (queued, with one worker, or in the
    listener's hand), nothing else is anywhere, none is closed twice, the queue stays within its bound, and descriptors
    leave it in the order they were accepted.
   */
  lemma EveryDescriptorHasOneOwner(n: nat, most: nat, actions: seq<Action>, fd: int)
    ensures var s := Run(Initial(n, most), actions);
            && Custody(s, fd) == One(fd in s.open) && !s.closedTwice
            && s.accepted == s.removed + s.queue && |s.queue| <= most
  {
    hide Run, Inv, Custody;
    var s := Run(Initial(n, most), actions);
    InitialInv(n, most);
    RunKeeps(Initial(n, most), actions);
    InvParts(s);
    assert CustodyOf(s, fd);
  }

  /** How many more steps a worker can take once the pool has stopped and its queue is empty. */
  function Rank(w: Worker): nat {
    match w
    case Gone => 0
    case Locked => 1
    case Wanting => 2
    case Waking => 2
    case Asleep => 2
    case Starting => 3
    case Holding(_) => 3
  }

  // ----- the pool at work -----

  /** Whether a worker's parser could be set up, once it has had its first turn. */
  function FirstTurn(actions: seq<Action>, i: nat): Option<bool> {
    if actions == [] then None
    else if actions[0].Work? && actions[0].i == i then Some(actions[0].lucky)
    else FirstTurn(actions[1..], i)
  }

  lemma {:induction false} FirstTurnSnoc(actions: seq<Action>, a: Action, i: nat)
    ensures FirstTurn(actions + [a], i)
         == if FirstTurn(actions, i).Some? || !a.Work? || a.i != i then FirstTurn(actions, i) else Some(a.lucky)
  {
    if actions == [] {
      assert (actions + [a])[1..] == [];
    } else {
      FirstTurnSnoc(actions[1..], a, i);
      assert (actions + [a])[1..] == actions[1..] + [a];
    }
  }

  /** What a worker of a running pool is, given how its first turn went. */
  predicate Stays(s: State, i: nat, first: Option<bool>)
    requires i < |s.workers|
  {
    && (s.workers[i] == Starting <==> first == None)
    && (s.running ==> (s.workers[i] == Gone <==> first == Some(false)))
  }

  /** A worker's step as it looks from the worker alone. */
  lemma WorkerTurns(s: State, i: nat, lucky: bool)
    requires i < |s.workers|
    ensures var s' := WorkerStep(s, i, lucky);
            && |s'.workers| == |s.workers| && s'.running == s.running
            && (forall k :: 0 <= k < |s.workers| && k != i ==> s'.workers[k] == s.workers[k])
            && s'.workers[i] != Starting
            && (s.workers[i] == Starting ==> s'.workers[i] == if lucky then Wanting else Gone)
            && (s.workers[i] != Starting && s.running ==> (s'.workers[i] == Gone <==> s.workers[i] == Gone))
  {
  }

  lemma WorkerStays(s: State, j: nat, lucky: bool, i: nat, first: Option<bool>)
    requires i < |s.workers| && j < |s.workers| && Stays(s, i, first)
    ensures |WorkerStep(s, j, lucky).workers| == |s.workers|
    ensures Stays(WorkerStep(s, j, lucky), i, if first.Some? || j != i then first else Some(lucky))
  {
    hide WorkerStep;
    WorkerTurns(s, j, lucky);
  }

  /** Steps that at most wake sleepers. */
  lemma WakingStays(s: State, s': State, i: nat, first: Option<bool>)
    requires i < |s.workers| && Stays(s, i, first) && Woken(s.workers, s'.workers) && (s'.running ==> s.running)
    ensures |s'.workers| == |s.workers| && Stays(s', i, first)
  {
  }

  lemma StepWakes(s: State, a: Action)
    requires (s.running <==> s.main.Serving? || s.main.Stopping?) && !a.Work?
    ensures Woken(s.workers, Step(s, a).workers) && (Step(s, a).running ==> s.running)
  {
    hide Signals;
  }

  lemma StaysStep(s: State, a: Action, i: nat, first: Option<bool>)
    requires i < |s.workers| && Stays(s, i, first)
    requires s.running <==> s.main.Serving? || s.main.Stopping?
    ensures |Step(s, a).workers| == |s.workers|
    ensures Stays(Step(s, a), i, if first.Some? || !a.Work? || a.i != i then first else Some(a.lucky))
  {
    hide WorkerStep, ListenerStep, MainStep, Stays, Woken;
    if a.Work? {
      if a.i < |s.workers| { WorkerStays(s, a.i, a.lucky, i, first); }
    } else {
      StepWakes(s, a);
      WakingStays(s, Step(s, a), i, first);
    }
  }

  /**
    A worker of a running pool stays: however many uploads it has served, in every interleaving it is gone if and only
    if its parser could not be set up on its first turn.
   */
  lemma {:induction false} WorkersStay(n: nat, most: nat, actions: seq<Action>, i: nat)
    requires i < n
    ensures var s := Run(Initial(n, most), actions);
            && |s.workers| == n
            && (s.workers[i] == Starting <==> FirstTurn(actions, i) == None)
            && (s.running ==> (s.workers[i] == Gone <==> FirstTurn(actions, i) == Some(false)))
    decreases |actions|
  {
    hide Step, Inv;
    InitialInv(n, most);
    RunNothing(Initial(n, most));
    if actions != [] {
      var before, a := actions[..|actions| - 1], actions[|actions| - 1];
      var s := Run(Initial(n, most), before);
      assert actions == before + [a];
      WorkersStay(n, most, before, i);
      RunKeeps(Initial(n, most), before);
      InvParts(s);
      RunAppend(Initial(n, most), before, [a]);
      OneThen(s, a, []);
      assert [a] + [] == [a];
      RunNothing(Step(s, a));
      FirstTurnSnoc(before, a, i);
      StaysStep(s, a, i, FirstTurn(before, i));
    }
  }

  /** How far a worker is from taking a descriptor off the queue. */
  function Far(w: Worker): nat {
    match w
    case Starting => 5
    case Holding(_) => 4
    case Asleep => 3
    case Waking => 2
    case Wanting => 2
    case Locked => 1
    case Gone => 0
  }

  function AllFar(workers: seq<Worker>): nat {
    if workers == [] then 0 else Far(workers[0]) + AllFar(workers[1..])
  }

  lemma {:induction false} FarPut(workers: seq<Worker>, i: nat, w: Worker)
    requires i < |workers|
    ensures AllFar(workers[i := w]) + Far(workers[i]) == AllFar(workers) + Far(w)
  {
    hide Far;
    if i == 0 {
      assert workers[0 := w][1..] == workers[1..];
    } else {
      FarPut(workers[1..], i - 1, w);
      assert workers[i := w][1..] == workers[1..][i - 1 := w];
    }
  }

  lemma {:induction false} FarWoken(before: seq<Worker>, after: seq<Worker>)
    requires Woken(before, after)
    ensures AllFar(after) <= AllFar(before) && (before != after ==> AllFar(after) < AllFar(before))
  {
    if before != [] {
      FarWoken(before[1..], after[1..]);
      if before[1..] == after[1..] {
        assert before == [before[0]] + before[1..] && after == [after[0]] + after[1..];
      }
    }
  }

  /** How far the listener is from leaving the mutex. */
  function Leaving(l: Listener): nat {
    if l.Entering? then 2 else if l == Pushed then 1 else 0
  }

  /** The head of the queue has been taken off it, by a worker. */
  predicate HeadTaken(s: State, s': State)
    requires s.queue != []
  {
    && s'.removed == s.removed + [s.queue[0]]
    && exists i :: 0 <= i < |s'.workers| && s'.workers[i] == Holding(s.queue[0])
  }

  /** While the pool serves and something is queued, no step of anybody takes a worker further from the queue's head. */
  lemma ServingOnlyAdvances(s: State, a: Action)
    requires Inv(s) && s.main.Serving? && s.queue != []
    ensures var s' := Step(s, a); HeadTaken(s, s') || (s'.queue != [] && AllFar(s'.workers) <= AllFar(s.workers))
  {
    hide AllFar, Inv, Signals;
    InvParts(s);
    var s' := Step(s, a);
    match a
    case Work(i, lucky) =>
      if i < |s.workers| {
        FarPut(s.workers, i, s'.workers[i]);
        if s.workers[i] == Locked { assert s'.workers[i] == Holding(s.queue[0]); }
      }
    case Spurious(i) => if i < |s.workers| { FarPut(s.workers, i, s'.workers[i]); }
    case Listen(woken) =>
      if s'.workers != s.workers { FarWoken(s.workers, s'.workers); }
    case _ =>
  }

  /**
    While the pool serves, something is queued and there is a worker that has been set up, some thread can take a step
    that takes the head, or brings a worker nearer to it, or the listener nearer to leaving the mutex: under a fair
    scheduler the head is taken.
   */
  lemma ServingNeverStuck(s: State, w: nat) returns (a: Action)
    requires Inv(s) && s.main.Serving? && s.queue != []
    requires w < |s.workers| && s.workers[w] != Starting && s.workers[w] != Gone
    ensures var s' := Step(s, a);
            || HeadTaken(s, s')
            || AllFar(s'.workers) < AllFar(s.workers)
            || (s'.workers == s.workers && Leaving(s'.listener) < Leaving(s.listener))
  {
    hide AllFar, Inv, CountComing;
    LockFacts(s);
    if s.lock.Worker? {
      a := Work(s.lock.index, true);
      assert Step(s, a).workers[s.lock.index] == Holding(s.queue[0]);
    } else if s.lock == TheListener {
      var woken := {};
      if AnyAsleep(s.workers) {
        var j :| 0 <= j < |s.workers| && s.workers[j] == Asleep;
        woken := {j};
      }
      a := Listen(woken);
      assert Signals(s.workers, woken);
      if Wake(s.workers, woken) != s.workers { FarWoken(s.workers, Wake(s.workers, woken)); }
    } else {
      var i := w;
      if s.workers[w] == Asleep { i := SomebodyComes(s); }
      a := Work(i, true);
      FarPut(s.workers, i, Step(s, a).workers[i]);
    }
  }

  lemma LockFacts(s: State)
    requires Inv(s) && s.main.Serving?
    ensures s.running && WakeInv(s)
    ensures forall i :: 0 <= i < |s.workers| ==> (s.workers[i] == Locked <==> s.lock == Worker(i))
    ensures s.lock.Worker? ==> s.lock.index < |s.workers|
    ensures s.lock == TheListener <==> s.listener.Entering? || s.listener == Pushed
    ensures s.lock != TheMain
  {
    hide CustodyInv;
  }

  /** With somebody asleep, something queued and the mutex free, somebody else is awake and about to take it. */
  lemma SomebodyComes(s: State) returns (i: nat)
    requires Inv(s) && s.main.Serving? && s.queue != [] && s.lock.Free? && AnyAsleep(s.workers)
    ensures i < |s.workers| && (s.workers[i] == Wanting || s.workers[i] == Waking)
  {
    hide Inv;
    LockFacts(s);
    i := FirstComing(s.workers);
  }

  lemma {:induction false} FirstComing(workers: seq<Worker>) returns (i: nat)
    requires CountComing(workers) > 0
    ensures i < |workers| && Coming(workers[i])
  {
    if Coming(workers[0]) {
      i := 0;
    } else {
      i := FirstComing(workers[1..]);
      i := i + 1;
    }
  }

  /** How far a worker is from sleeping, when there is nothing to do. */
  function Awake(w: Worker): nat {
    match w
    case Starting => 4
    case Holding(_) => 3
    case Wanting => 2
    case Waking => 2
    case Locked => 1
    case Asleep => 0
    case Gone => 0
  }

  function AllAwake(workers: seq<Worker>): nat {
    if workers == [] then 0 else Awake(workers[0]) + AllAwake(workers[1..])
  }

  lemma {:induction false} AwakePut(workers: seq<Worker>, i: nat, w: Worker)
    requires i < |workers|
    ensures AllAwake(workers[i := w]) + Awake(workers[i]) == AllAwake(workers) + Awake(w)
  {
    hide Awake;
    if i == 0 {
      assert workers[0 := w][1..] == workers[1..];
    } else {
      AwakePut(workers[1..], i - 1, w);
      assert workers[i := w][1..] == workers[1..][i - 1 := w];
    }
  }

  /** With nothing queued no worker of a running pool turns in circles: each of its steps brings it nearer to sleep. */
  lemma IdlenessOnlyGrows(s: State, i: nat, lucky: bool)
    requires Inv(s) && s.main.Serving? && s.queue == [] && i < |s.workers|
    ensures var s' := Step(s, Work(i, lucky));
            s'.queue == [] && (s'.workers != s.workers ==> AllAwake(s'.workers) < AllAwake(s.workers))
  {
    hide AllAwake, Inv;
    LockFacts(s);
    AwakePut(s.workers, i, WorkerStep(s, i, lucky).workers[i]);
  }

  /** And as long as any of them is awake and the mutex is not the listener's, one of them can take such a step. */
  lemma IdlePoolSettles(s: State, w: nat) returns (i: nat)
    requires Inv(s) && s.main.Serving? && s.queue == [] && s.lock != TheListener
    requires w < |s.workers| && s.workers[w] != Asleep && s.workers[w] != Gone
    ensures i < |s.workers|
    ensures forall lucky :: AllAwake(Step(s, Work(i, lucky)).workers) < AllAwake(s.workers)
  {
    hide AllAwake, Inv;
    LockFacts(s);
    i := if s.lock.Worker? then s.lock.index else w;
    forall lucky ensures AllAwake(Step(s, Work(i, lucky)).workers) < AllAwake(s.workers) {
      AwakePut(s.workers, i, WorkerStep(s, i, lucky).workers[i]);
    }
  }

  lemma SomebodyWoken(workers: seq<Worker>, woken: set<nat>)
    requires Signals(workers, woken)
    ensures AnyAsleep(workers) ==>
              exists i :: 0 <= i < |workers| && workers[i] == Asleep && Wake(workers, woken)[i] == Waking
  {
    hide AnyAsleep;
  }

  /** The listener gets through a dispatch when nobody else moves. */
  function Dispatching(fd: int, woken: set<nat>): seq<Action> {
    [Accept(fd), Listen({}), Listen({}), Listen({}), Listen(woken)]
  }

  /**
    A dispatch that nobody gets in the way of: the descriptor is accepted at the end of the line, and somebody who
    sleeps is woken, exactly if there is room; otherwise it is closed and all is as before.
   */
  lemma UncontendedDispatch(s: State, fd: int, woken: set<nat>)
    requires s.running && s.listener == Resting && s.lock.Free? && fd >= 0 && fd !in s.open
    requires Signals(s.workers, woken)
    ensures var s' := Run(s, Dispatching(fd, woken));
            && s'.listener == Resting && s'.lock.Free? && s'.main == s.main && s'.running
            && if |s.queue| < s.most then
                 && s'.queue == s.queue + [fd] && s'.accepted == s.accepted + [fd] && s'.open == s.open + {fd}
                 && (AnyAsleep(s.workers) ==> exists i :: 0 <= i < |s.workers| && s.workers[i] == Asleep
                                                          && |s'.workers| == |s.workers| && s'.workers[i] == Waking)
               else s'.queue == s.queue && s'.workers == s.workers && s'.open == s.open && s'.accepted == s.accepted
  {
    hide Run, AnyAsleep, Signals, Wake;
    var l, s0 := Listen({}), Step(s, Accept(fd));
    var s1 := Step(s0, l);
    var s2 := Step(s1, l);
    var s3 := Step(s2, l);
    var s4 := Step(s3, Listen(woken));
    OneThen(s3, Listen(woken), []);
    assert [Listen(woken)] + [] == [Listen(woken)];
    RunNothing(s4);
    OneThen(s2, l, [Listen(woken)]);
    assert [l] + [Listen(woken)] == [l, Listen(woken)];
    OneThen(s1, l, [l, Listen(woken)]);
    assert [l] + [l, Listen(woken)] == [l, l, Listen(woken)];
    OneThen(s0, l, [l, l, Listen(woken)]);
    assert [l] + [l, l, Listen(woken)] == [l, l, l, Listen(woken)];
    OneThen(s, Accept(fd), [l, l, l, Listen(woken)]);
    assert [Accept(fd)] + [l, l, l, Listen(woken)] == Dispatching(fd, woken);
    if |s.queue| < s.most {
      assert s4.workers == Wake(s.workers, woken);
      SomebodyWoken(s.workers, woken);
    } else {
      assert s.open + {fd} - {fd} == s.open;
    }
  }

  // ----- what the shutdown leaves -----

  /** The pool is stopping and no dispatch is past its unlocked test of `running` any more. */
  predicate Sealed(s: State) {
    && !s.running && (s.main == Draining || s.main.Joining?)
    && (s.listener == Resting || s.listener.Offering? || s.listener.Refused?)
    && (s.main.Joining? ==> s.queue == [])
  }

  lemma SealedStep(s: State, a: Action)
    requires Sealed(s)
    ensures Sealed(Step(s, a))
  {
  }

  lemma {:induction false} SealedRun(s: State, actions: seq<Action>)
    requires Sealed(s)
    ensures Sealed(Run(s, actions))
    decreases |actions|
  {
    hide Sealed, Step;
    if actions != [] {
      SealedStep(s, actions[0]);
      SealedRun(Step(s, actions[0]), actions[1..]);
    }
  }

  /** Everybody has been joined and the listener holds nothing: then nothing is open. */
  predicate EndsClosed(s: State) {
    s.main == Joining(|s.workers|) && s.listener == Resting ==> s.open == {} && s.queue == []
  }

  lemma {:induction false} AllGone(workers: seq<Worker>, fd: int)
    requires forall i :: 0 <= i < |workers| ==> workers[i] == Gone
    ensures HeldBy(workers, fd) == 0
  {
    if workers != [] { AllGone(workers[1..], fd); }
  }

  lemma EmptyEndsClosed(s: State)
    requires Inv(s) && (s.main.Joining? ==> s.queue == [])
    ensures EndsClosed(s)
  {
    hide HeldBy;
    if s.main == Joining(|s.workers|) && s.listener == Resting {
      forall fd: int ensures fd !in s.open {
        assert CustodyOf(s, fd);
        AllGone(s.workers, fd);
      }
    }
  }

  /** The shutdown is about to take the mutex, and the mutex is free: its next step clears `running`. */
  predicate AboutToStop(s: State) {
    s.main == Stopping && s.lock == Free
  }

  /** Whatever happens next, everything is closed in the end. */
  ghost predicate ClosesEverything(s: State) {
    forall actions: seq<Action> :: EndsClosed(Run(s, actions))
  }

  lemma StopSeals(s: State)
    requires Inv(s) && AboutToStop(s) && !s.listener.Admitted?
    ensures Sealed(Step(s, Advance))
  {
    hide CustodyInv, WakeInv;
  }

  lemma SealedCloses(s: State)
    requires Inv(s) && Sealed(s)
    ensures ClosesEverything(s)
  {
    hide Inv, EndsClosed, Run;
    forall actions: seq<Action> ensures EndsClosed(Run(s, actions)) {
      SealedRun(s, actions);
      RunKeeps(s, actions);
      EmptyEndsClosed(Run(s, actions));
    }
  }

  /** The listener is past its test, the pool has stopped, its queue is empty and nobody is in the mutex. */
  predicate Late(s: State, fd: int) {
    s.listener == Admitted(fd) && s.main.Joining? && !s.running && s.queue == [] && s.lock == Free
  }

  /** The shutdown empties the queue and broadcasts. */
  lemma {:induction false} DrainAll(s: State, fd: int) returns (actions: seq<Action>)
    requires s.main == Draining && s.listener == Admitted(fd) && !s.running
    ensures var s' := Run(s, actions); Late(s', fd) && s'.main == Joining(0)
    decreases |s.queue|
  {
    var s' := Step(s, Advance);
    if s.queue == [] {
      RunAppend(s, [Advance], []);
      actions := [Advance];
    } else {
      var rest := DrainAll(s', fd);
      OneThen(s, Advance, rest);
      actions := [Advance] + rest;
    }
  }

  lemma OneThen(s: State, a: Action, rest: seq<Action>)
    ensures Run(s, [a] + rest) == Run(Step(s, a), rest)
  {
    assert ([a] + rest)[1..] == rest;
  }

  /** One worker finishes what it has and leaves, or never gets started. */
  lemma {:induction false} Retire(s: State, fd: int, i: nat) returns (actions: seq<Action>)
    requires Inv(s) && Late(s, fd) && i < |s.workers|
    ensures var s' := Run(s, actions);
            && Late(s', fd) && |s'.workers| == |s.workers| && s'.main == s.main && s'.workers[i] == Gone
            && forall j :: 0 <= j < |s.workers| && j != i ==> s'.workers[j] == s.workers[j]
    decreases Rank(s.workers[i])
  {
    hide CustodyInv, WakeInv, Run;
    var a, w := Work(i, false), s.workers[i];
    assert w != Asleep && w != Locked;
    if w == Gone {
      actions := [];
      RunNothing(s);
    } else if w.Holding? {
      StepKeeps(s, a);
      var rest := Retire(Step(s, a), fd, i);
      OneThen(s, a, rest);
      actions := [a] + rest;
    } else if w == Starting {
      OneThen(s, a, []);
      RunNothing(Step(s, a));
      actions := [a] + [];
    } else {
      OneThen(s, a, [a]);
      OneThen(Step(s, a), a, []);
      assert [a] + [] == [a];
      RunNothing(Step(Step(s, a), a));
      actions := [a] + [a];
    }
  }

  lemma RunNothing(s: State)
    ensures Run(s, []) == s
  {
  }

  /** All of them, one after the other. */
  lemma {:induction false} RetireAll(s: State, fd: int, i: nat) returns (actions: seq<Action>)
    requires Inv(s) && Late(s, fd) && i <= |s.workers| && forall j :: 0 <= j < i ==> s.workers[j] == Gone
    ensures var s' := Run(s, actions);
            && Late(s', fd) && |s'.workers| == |s.workers| && s'.main == s.main
            && forall j :: 0 <= j < |s.workers| ==> s'.workers[j] == Gone
    decreases |s.workers| - i
  {
    hide Inv, Run;
    if i == |s.workers| {
      actions := [];
      RunNothing(s);
    } else {
      var first := Retire(s, fd, i);
      RunKeeps(s, first);
      var rest := RetireAll(Run(s, first), fd, i + 1);
      RunAppend(s, first, rest);
      actions := first + rest;
    }
  }

  /** The joins return one by one. */
  lemma {:induction false} JoinAll(s: State, fd: int) returns (actions: seq<Action>)
    requires Late(s, fd) && s.main.next <= |s.workers| && forall j :: 0 <= j < |s.workers| ==> s.workers[j] == Gone
    ensures Run(s, actions) == s.(main := Joining(|s.workers|))
    decreases |s.workers| - s.main.next
  {
    if s.main.next == |s.workers| {
      actions := [];
    } else {
      var rest := JoinAll(Step(s, Advance), fd);
      OneThen(s, Advance, rest);
      actions := [Advance] + rest;
    }
  }

  /** Only then does the listener get the mutex: its descriptor goes onto a queue that nobody will look at. */
  lemma PushLate(s: State, fd: int)
    requires Late(s, fd) && s.most > 0 && !AnyAsleep(s.workers)
    ensures var s' := Run(s, [Listen({}), Listen({}), Listen({})]);
            s'.main == s.main && s'.workers == s.workers && s'.listener == Resting && s'.queue == [fd]
  {
    hide Run, AnyAsleep;
    var l := Listen({});
    var s1 := Step(s, l);
    var s2 := Step(s1, l);
    var s3 := Step(s2, l);
    OneThen(s2, l, []);
    assert [l] + [] == [l];
    OneThen(s1, l, [l]);
    assert [l] + [l] == [l, l];
    OneThen(s, l, [l, l]);
    assert [l] + [l, l] == [l, l, l];
    RunNothing(s3);
    assert Wake(s2.workers, {}) == s2.workers;
  }

  /** A dispatch past its test when the pool stops can strand its descriptor: open, queued, and nobody left. */
  lemma LateDispatchStrands(s: State, fd: int) returns (actions: seq<Action>)
    requires Inv(s) && s.main == Draining && !s.running && s.listener == Admitted(fd) && s.most > 0
    ensures var e := Run(s, actions);
            e.main == Joining(|e.workers|) && e.listener == Resting && e.queue == [fd] && fd in e.open
  {
    hide Run, Inv, AnyAsleep;
    var drain := DrainAll(s, fd);
    var s1 := Run(s, drain);
    RunKeeps(s, drain);
    var retire := RetireAll(s1, fd, 0);
    var s2 := Run(s1, retire);
    RunKeeps(s1, retire);
    LateJoining(s2, fd);
    var join := JoinAll(s2, fd);
    var s3 := Run(s2, join);
    RunKeeps(s2, join);
    LateJoining(s3, fd);
    var push := [Listen({}), Listen({}), Listen({})];
    PushLate(s3, fd);
    RunKeeps(s3, push);
    StillOpen(Run(s3, push), fd);
    RunAppend(s2, join, push);
    RunAppend(s1, retire, join + push);
    RunAppend(s, drain, retire + (join + push));
    actions := drain + (retire + (join + push));
  }

  lemma LateJoining(s: State, fd: int)
    requires Inv(s) && s.main.Joining?
    ensures !AnyAsleep(s.workers) && s.main.next <= |s.workers|
  {
  }

  lemma StillOpen(s: State, fd: int)
    requires Inv(s) && s.queue == [fd]
    ensures fd in s.open
  {
    assert CustodyOf(s, fd);
  }

  /**
    What a shutdown closes, exactly. Take any run up to the moment the shutdown clears `running`: whatever the schedule
    then is, everything is closed once the workers are joined and the listener has returned, if and only if the listener
    is not at that moment between its unlocked test of `running` and the mutex.
   */
  lemma ShutdownClosesExactly(n: nat, most: nat, before: seq<Action>)
    requires most > 0
    ensures var s := Run(Initial(n, most), before);
            AboutToStop(s) ==> (ClosesEverything(Step(s, Advance)) <==> !s.listener.Admitted?)
  {
    hide Run, Inv, ClosesEverything, Sealed;
    var s := Run(Initial(n, most), before);
    InitialInv(n, most);
    RunKeeps(Initial(n, most), before);
    if AboutToStop(s) {
      var s' := Step(s, Advance);
      StepKeeps(s, Advance);
      if s.listener.Admitted? {
        var actions := LateDispatchStrands(s', s.listener.fd);
        NotClosed(s', actions);
      } else {
        StopSeals(s);
        SealedCloses(s');
      }
    }
  }

  lemma NotClosed(s: State, actions: seq<Action>)
    requires !EndsClosed(Run(s, actions))
    ensures !ClosesEverything(s)
  {
  }

  /** The order the server keeps: with the listener thread gone before the pool is stopped, everything is closed. */
  lemma ShutdownClosesEverything(n: nat, most: nat, before: seq<Action>, after: seq<Action>)
    requires forall i :: 0 <= i < |after| ==> !after[i].Accept?
    ensures var s := Run(Initial(n, most), before);
            s.main == Serving && s.listener == Resting ==>
              var e := Run(Step(s, Stop), after);
              e.main == Joining(n) ==> e.open == {} && e.queue == [] && forall w :: w in e.workers ==> w == Gone
  {
    hide Run, Inv;
    var s := Run(Initial(n, most), before);
    InitialInv(n, most);
    RunKeeps(Initial(n, most), before);
    if s.main == Serving && s.listener == Resting {
      StepKeeps(s, Stop);
      DepartedRun(Step(s, Stop), after);
      RunKeeps(Step(s, Stop), after);
      EmptyEndsClosed(Run(Step(s, Stop), after));
      JoinedAreGone(Run(Step(s, Stop), after));
    }
  }

  /** The listener has gone. */
  predicate Departed(s: State) {
    s.listener == Resting && (s.main.Joining? ==> s.queue == [])
  }

  lemma DepartedStep(s: State, a: Action)
    requires Departed(s) && !a.Accept?
    ensures Departed(Step(s, a))
  {
  }

  lemma {:induction false} DepartedRun(s: State, actions: seq<Action>)
    requires Departed(s) && forall i :: 0 <= i < |actions| ==> !actions[i].Accept?
    ensures Departed(Run(s, actions))
    decreases |actions|
  {
    hide Departed, Step;
    if actions != [] {
      DepartedStep(s, actions[0]);
      DepartedRun(Step(s, actions[0]), actions[1..]);
    }
  }

  lemma JoinedAreGone(s: State)
    requires Inv(s)
    ensures s.main.Joining? ==> s.main.next <= |s.workers| && forall i :: 0 <= i < s.main.next ==> s.workers[i] == Gone
  {
  }

  // ----- the shutdown comes to an end -----

  function Ranks(workers: seq<Worker>): nat {
    if workers == [] then 0 else Rank(workers[0]) + Ranks(workers[1..])
  }

  lemma {:induction false} RanksPut(workers: seq<Worker>, i: nat, w: Worker)
    requires i < |workers|
    ensures Ranks(workers[i := w]) + Rank(workers[i]) == Ranks(workers) + Rank(w)
  {
    hide Rank;
    if i == 0 {
      assert workers[0 := w][1..] == workers[1..];
    } else {
      RanksPut(workers[1..], i - 1, w);
      assert workers[i := w][1..] == workers[1..][i - 1 := w];
    }
  }

  /** What a dispatch past its unlocked test may still cost. */
  function LateWork(l: Listener): nat {
    match l
    case Admitted(_) => 6
    case Entering(_) => 5
    case Pushed => 1
    case _ => 0
  }

  /** A bound on what is left to do while the shutdown joins; one descriptor that raced the stop may still be served. */
  function Distance(s: State): nat
    requires s.main.Joining? && s.main.next <= |s.workers|
  {
    Ranks(s.workers) + 3 * |s.queue| + LateWork(s.listener) + (|s.workers| - s.main.next)
  }

  /** From `s` to `s'` the joining has not been taken back, and nothing was done that has not brought it nearer. */
  predicate Nearer(s: State, s': State)
    requires s.main.Joining? && s.main.next <= |s.workers|
  {
    && s'.main.Joining? && s'.main.next <= |s'.workers| == |s.workers|
    && Distance(s') <= Distance(s)
    && (s'.workers != s.workers || s'.queue != s.queue || s'.main != s.main ==> Distance(s') < Distance(s))
  }

  lemma WorkerNearer(s: State, i: nat, lucky: bool)
    requires Inv(s) && s.main.Joining? && s.main.next <= |s.workers| && i < |s.workers|
    ensures Nearer(s, WorkerStep(s, i, lucky))
  {
    hide Ranks, Inv;
    JoiningFacts(s);
    RanksPut(s.workers, i, WorkerStep(s, i, lucky).workers[i]);
  }

  lemma ListenerNearer(s: State, woken: set<nat>)
    requires Inv(s) && s.main.Joining? && s.main.next <= |s.workers|
    ensures Nearer(s, ListenerStep(s, woken))
  {
    hide Ranks, Inv, Signals;
    JoiningFacts(s);
    assert Wake(s.workers, woken) == s.workers;
  }

  /**
    While the shutdown joins nothing that anybody does, a dispatch that raced the stop included, takes it further back.
   */
  lemma JoiningOnlyAdvances(s: State, a: Action)
    requires Inv(s) && s.main.Joining?
    ensures s.main.next <= |s.workers| && Nearer(s, Step(s, a))
  {
    hide Ranks, Inv, WorkerStep, ListenerStep;
    JoiningFacts(s);
    match a
    case Work(i, lucky) => if i < |s.workers| { WorkerNearer(s, i, lucky); }
    case Listen(woken) => ListenerNearer(s, woken);
    case _ =>
  }

  lemma JoiningFacts(s: State)
    requires Inv(s) && s.main.Joining?
    ensures !s.running && s.main.next <= |s.workers|
    ensures forall i :: 0 <= i < |s.workers| ==> s.workers[i] != Asleep
    ensures forall i :: 0 <= i < s.main.next ==> s.workers[i] == Gone
    ensures forall i :: 0 <= i < |s.workers| ==> (s.workers[i] == Locked <==> s.lock == Worker(i))
    ensures s.lock.Worker? ==> s.lock.index < |s.workers|
    ensures s.lock == TheListener ==> s.listener.Entering? || s.listener == Pushed
    ensures s.lock != TheMain
  {
    hide CustodyInv, WakeInv;
    forall i | 0 <= i < |s.workers| ensures s.workers[i] != Asleep {
      assert !AnyAsleep(s.workers);
    }
  }

  /**
    While it waits for somebody, some thread can take a step that brings it nearer: the join returns under a fair
    scheduler.
   */
  lemma JoiningNeverStuck(s: State) returns (a: Action)
    requires Inv(s) && s.main.Joining? && s.main.next < |s.workers|
    ensures var s' := Step(s, a);
            s'.main.Joining? && s'.main.next <= |s'.workers| && Distance(s') < Distance(s)
  {
    hide Ranks, Inv, AnyAsleep;
    JoiningFacts(s);
    var i := s.main.next;
    if s.lock.Worker? {
      a := Work(s.lock.index, false);
      RanksPut(s.workers, a.i, Step(s, a).workers[a.i]);
    } else if s.lock == TheListener {
      a := Listen({});
      assert Wake(s.workers, {}) == s.workers;
      assert Signals(s.workers, {}) by { NobodySleeps(s.workers); }
    } else if s.workers[i] == Gone {
      a := Advance;
    } else {
      a := Work(i, false);
      RanksPut(s.workers, i, Step(s, a).workers[i]);
    }
  }

  lemma NobodySleeps(workers: seq<Worker>)
    requires forall i :: 0 <= i < |workers| ==> workers[i] != Asleep
    ensures !AnyAsleep(workers)
  {
  }
}

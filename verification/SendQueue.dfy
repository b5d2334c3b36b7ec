/** A tunnel's bounded send queue: callers that meet backpressure park a wakeup, and the sender task
    wakes them after it has popped. */
module SendQueue {
  import opened Wrappers
  import Runs

  const SEND_QUEUE_CAP: nat := 64

  type Packet = nat
  type Waiter = nat

  /** Blocked at the receive; between a pop and the drain of the waiters; running the drained callbacks;
      aborted by a teardown. */
  datatype Sender = Blocked | Popped | Waking(ws: seq<Waiter>) | Aborted

  /** The thread that holds the waiters' lock in `on_send_drained`, before and after it read the capacity. */
  datatype Registrar = Checking(w: Waiter) | Parking(w: Waiter)

  /** `inline`: callbacks whose caller saw capacity and is about to run them itself. `accepted`, `popped`,
      `registered` and `woken` are histories. */
  datatype State = State(
    queue: seq<Packet>, waiters: seq<Waiter>, lock: Option<Registrar>, inline: seq<Waiter>, sender: Sender,
    accepted: seq<Packet>, popped: seq<Packet>, registered: multiset<Waiter>, woken: multiset<Waiter>)

  datatype Action =
    | TrySend(p: Packet)
    | Register(w: Waiter)
    | CheckCapacity
    | Park
    | WakeInline
    | Pop
    | DrainWaiters
    | Wake
    | Resume
    | Abort
    | TeardownDrain

  const INIT := State([], [], None, [], Blocked, [], [], multiset{}, multiset{})

  predicate Full(s: State) { |s.queue| >= SEND_QUEUE_CAP }

  /** The sender pops as long as there is something to pop, and only then flushes and drains. */
  predicate Enabled(s: State, a: Action) {
    match a
    case TrySend(_) => true
    case Register(_) => s.lock.None?
    case CheckCapacity => s.lock.Some? && s.lock.value.Checking?
    case Park => s.lock.Some? && s.lock.value.Parking?
    case WakeInline => s.inline != []
    case Pop => (s.sender.Blocked? || s.sender.Popped?) && s.queue != []
    case DrainWaiters => s.sender.Popped? && s.lock.None?
    case Wake => s.sender.Waking? && s.sender.ws != []
    case Resume => s.sender.Waking? && s.sender.ws == []
    case Abort => !s.sender.Aborted? && !s.sender.Waking?
    case TeardownDrain => s.sender.Aborted? && s.lock.None?
  }

  function Next(s: State, a: Action): State
    requires Enabled(s, a)
  {
    match a
    case TrySend(p) => if Full(s) then s else s.(queue := s.queue + [p], accepted := s.accepted + [p])
    case Register(w) => s.(lock := Some(Checking(w)), registered := s.registered + multiset{w})
    case CheckCapacity =>
      if Full(s) then s.(lock := Some(Parking(s.lock.value.w)))
      else s.(lock := None, inline := s.inline + [s.lock.value.w])
    case Park => s.(lock := None, waiters := s.waiters + [s.lock.value.w])
    case WakeInline => s.(inline := s.inline[1..], woken := s.woken + multiset{s.inline[0]})
    case Pop => s.(sender := Popped, queue := s.queue[1..], popped := s.popped + [s.queue[0]])
    case DrainWaiters => s.(sender := Waking(s.waiters), waiters := [])
    case Wake => s.(sender := Waking(s.sender.ws[1..]), woken := s.woken + multiset{s.sender.ws[0]})
    case Resume => s.(sender := Blocked)
    case Abort => s.(sender := Aborted)
    case TeardownDrain => s.(waiters := [], inline := s.inline + s.waiters)
  }

  // ── The invariant ────────────────────────────────────────────────────

  predicate SomeoneWaits(s: State) { s.waiters != [] || (s.lock.Some? && s.lock.value.Parking?) }

  /** A waiter, parked or deciding to park, is always ahead of some drain. */
  predicate NoLostWakeup(s: State) {
    SomeoneWaits(s) && !s.sender.Aborted? ==> s.queue != [] || s.sender.Popped?
  }

  function InHand(s: State): multiset<Waiter> {
    (if s.lock.Some? then multiset{s.lock.value.w} else multiset{})
    + if s.sender.Waking? then multiset(s.sender.ws) else multiset{}
  }

  predicate FifoOk(s: State) { |s.queue| <= SEND_QUEUE_CAP && s.accepted == s.popped + s.queue }

  predicate WaitersOk(s: State) {
    s.registered == s.woken + multiset(s.waiters) + multiset(s.inline) + InHand(s)
  }

  predicate Inv(s: State) { NoLostWakeup(s) && FifoOk(s) && WaitersOk(s) }

  lemma StepKeepsWakeup(s: State, a: Action)
    requires NoLostWakeup(s) && Enabled(s, a)
    ensures NoLostWakeup(Next(s, a))
  {
  }

  lemma StepKeepsFifo(s: State, a: Action)
    requires FifoOk(s) && Enabled(s, a)
    ensures FifoOk(Next(s, a))
  {
    if a.Pop? { assert s.queue == [s.queue[0]] + s.queue[1..]; }
  }

  lemma HeadAndTail<T>(s: seq<T>)
    requires s != []
    ensures multiset(s) == multiset{s[0]} + multiset(s[1..])
  {
    assert s == [s[0]] + s[1..];
  }

  lemma RegistrarKeepsWaiters(s: State, a: Action)
    requires WaitersOk(s) && Enabled(s, a) && (a.Register? || a.CheckCapacity? || a.Park?)
    ensures WaitersOk(Next(s, a))
  {
    if !a.Register? {
      var w := [s.lock.value.w];
      assert multiset(s.waiters + w) == multiset(s.waiters) + multiset(w);
      assert multiset(s.inline + w) == multiset(s.inline) + multiset(w);
    }
  }

  lemma WakeKeepsWaiters(s: State, a: Action)
    requires WaitersOk(s) && Enabled(s, a) && (a.WakeInline? || a.Wake?)
    ensures WaitersOk(Next(s, a))
  {
    HeadAndTail(if a.Wake? then s.sender.ws else s.inline);
  }

  lemma StepKeepsWaiters(s: State, a: Action)
    requires WaitersOk(s) && Enabled(s, a)
    ensures WaitersOk(Next(s, a))
  {
    if a.Register? || a.CheckCapacity? || a.Park? {
      RegistrarKeepsWaiters(s, a);
    } else if a.WakeInline? || a.Wake? {
      WakeKeepsWaiters(s, a);
    } else {
      assert multiset(s.inline + s.waiters) == multiset(s.inline) + multiset(s.waiters);
    }
  }

  // ── Whole runs ───────────────────────────────────────────────────────

  function Step(s: State, a: Action): Option<State> { if Enabled(s, a) then Some(Next(s, a)) else None }

  function After(run: seq<Action>): Option<State> { Runs.After(INIT, Step, run) }

  lemma RunKeepsInv(run: seq<Action>)
    requires After(run).Some?
    ensures Inv(After(run).value)
  {
    forall s, a | Inv(s) && Step(s, a).Some? ensures Inv(Step(s, a).value) {
      StepKeepsWakeup(s, a);
      StepKeepsFifo(s, a);
      StepKeepsWaiters(s, a);
    }
    Runs.Invariant(INIT, Step, Inv, run);
  }

  /** While the sender task lives, nobody is parked beside a sender blocked on an empty queue; packets leave
      in the order they were accepted; and every registered wakeup is parked, in somebody's hand or has been
      given, each as often as it was registered. */
  lemma WakeupsAreNotLost(run: seq<Action>)
    requires After(run).Some?
    ensures var s := After(run).value;
      && (s.waiters != [] && !s.sender.Aborted? ==> s.queue != [] || s.sender.Popped?)
      && (s.sender.Blocked? && s.queue == [] ==> s.waiters == [])
      && FifoOk(s) && WaitersOk(s)
  {
    RunKeepsInv(run);
  }

  // ── Progress ─────────────────────────────────────────────────────────

  /** The step that brings the parked waiters closer to their wakeup, without any new packet or caller. */
  function Helpful(s: State): Action
  {
    if s.lock.Some? then if s.lock.value.Checking? then CheckCapacity else Park
    else if s.sender.Waking? then if s.sender.ws != [] then Wake else Resume
    else if s.queue != [] then Pop
    else DrainWaiters
  }

  /** How many helpful steps are left before the waiters are drained. */
  function Distance(s: State): nat {
    (match s.lock case None => 0 case Some(Checking(_)) => 2 case Some(Parking(_)) => 1)
    + |s.queue| + (if s.sender.Waking? then |s.sender.ws| + 1 else 0)
  }

  /** As long as a waiter is parked and the sender lives, its next helpful step is possible, and either drains
      all waiters into the sender's hand or is one of a bounded number before that. */
  lemma WaitersProgress(s: State)
    requires NoLostWakeup(s) && s.waiters != [] && !s.sender.Aborted?
    ensures Enabled(s, Helpful(s))
    ensures var s' := Next(s, Helpful(s));
      if Helpful(s).DrainWaiters? then s'.sender == Waking(s.waiters)
      else Distance(s') < Distance(s) && s.waiters <= s'.waiters && !s'.sender.Aborted?
  {
  }

  /** So parked waiters cannot be stuck: without any new packet or caller, a bounded number of steps of the
      sender and of the lock's holder gets all of them into the sender's hand. */
  lemma {:induction false} WaitersAreDrained(s: State) returns (run: seq<Action>, s': State)
    requires NoLostWakeup(s) && s.waiters != [] && !s.sender.Aborted?
    ensures Runs.After(s, Step, run) == Some(s') && |run| <= Distance(s) + 1
    ensures s'.sender.Waking? && s.waiters <= s'.sender.ws
    decreases Distance(s)
  {
    WaitersProgress(s);
    var a := Helpful(s);
    var s1 := Next(s, a);
    if a.DrainWaiters? {
      run, s' := [], s1;
    } else {
      StepKeepsWakeup(s, a);
      run, s' := WaitersAreDrained(s1);
    }
    Runs.FirstStep(s, Step, a, run);
    run := [a] + run;
  }

  /** A packet is accepted exactly while fewer than 64 are queued, and a caller parks exactly while 64 are. */
  lemma CapacityIs64(s: State, a: Action)
    requires Inv(s) && Enabled(s, a)
    ensures a.TrySend? ==> (if |s.queue| < 64 then Next(s, a).queue == s.queue + [a.p] && a.p in Next(s, a).accepted
                            else Next(s, a) == s)
    ensures a.CheckCapacity? ==> (|s.queue| == 64 <==> SomeoneWaits(Next(s, a)) && Next(s, a).lock == Some(Parking(s.lock.value.w)))
    ensures a.CheckCapacity? && |s.queue| < 64 ==> Next(s, a).inline == s.inline + [s.lock.value.w]
  {
  }

  /** Everything accepted can be sent: while the sender lives, a bounded number of its own steps pops all of it. */
  lemma {:induction false} QueueIsSent(s: State) returns (run: seq<Action>, s': State)
    requires FifoOk(s) && !s.sender.Aborted?
    ensures Runs.After(s, Step, run) == Some(s') && s'.popped == s.accepted && s'.queue == []
    ensures forall a :: a in run ==> a.Pop? || a.Wake? || a.Resume?
    decreases |s.queue| + if s.sender.Waking? then |s.sender.ws| + 1 else 0
  {
    if s.queue == [] {
      run, s' := [], s;
    } else {
      var a := if s.sender.Waking? then if s.sender.ws != [] then Wake else Resume else Pop;
      StepKeepsFifo(s, a);
      run, s' := QueueIsSent(Next(s, a));
      Runs.FirstStep(s, Step, a, run);
      run := [a] + run;
    }
  }

  /** A teardown leaves nobody waiting: once the sender is aborted, a bounded number of steps of the lock's holder and of
      the teardown, without any new caller, gives every wakeup. */
  lemma {:induction false} TeardownWakesAll(s: State) returns (run: seq<Action>, s': State)
    requires WaitersOk(s) && s.sender.Aborted?
    ensures Runs.After(s, Step, run) == Some(s') && s'.waiters == [] && s'.inline == [] && s'.lock == None
    ensures s'.woken == s.registered && forall a :: a in run ==> a.CheckCapacity? || a.Park? || a.TeardownDrain? || a.WakeInline?
    decreases (match s.lock case None => 0 case Some(Checking(_)) => 2 case Some(Parking(_)) => 1), |s.waiters|, |s.inline|
  {
    if s.lock.None? && s.waiters == [] && s.inline == [] {
      run, s' := [], s;
    } else {
      var a := if s.lock.Some? then if s.lock.value.Checking? then CheckCapacity else Park
               else if s.waiters != [] then TeardownDrain else WakeInline;
      StepKeepsWaiters(s, a);
      run, s' := TeardownWakesAll(Next(s, a));
      Runs.FirstStep(s, Step, a, run);
      run := [a] + run;
    }
  }
}

/** A tunnel's inbound queue: the oldest packet is dropped when it is full, and a drain is posted to the
    dispatcher only by a push that found it empty. Packets are named by their order of arrival. */
module InboundQueue {
  import opened Wrappers
  import Runs

  const INBOUND_QUEUE_CAP: nat := 8192

  type Thread = nat

  /** The drain the dispatcher is running: about to pop, or about to inject what it popped. */
  datatype Drain = Popping | Injecting(p: nat)

  /** `posting`: threads that found the queue empty and have yet to post a drain. `posted`: drains waiting
      to run. `pushed`, `delivered` and `dropped` are histories; `drops` is the counter. */
  datatype State = State(
    queue: seq<nat>, drops: nat, posting: set<Thread>, posted: nat, running: Option<Drain>,
    pushed: nat, delivered: seq<nat>, dropped: seq<nat>)

  datatype Action = Push(t: Thread) | Post(t: Thread) | Start | Pop | Inject

  const INIT := State([], 0, {}, 0, None, 0, [], [])

  predicate Enabled(s: State, a: Action) {
    match a
    case Push(t) => t !in s.posting
    case Post(t) => t in s.posting
    case Start => s.running.None? && s.posted > 0
    case Pop => s.running == Some(Popping)
    case Inject => s.running.Some? && s.running.value.Injecting?
  }

  function Next(s: State, a: Action): State
    requires Enabled(s, a)
  {
    match a
    case Push(t) =>
      var full := |s.queue| >= INBOUND_QUEUE_CAP;
      s.(queue := (if full then s.queue[1..] else s.queue) + [s.pushed],
         drops := if full then s.drops + 1 else s.drops,
         dropped := if full then s.dropped + [s.queue[0]] else s.dropped,
         posting := if s.queue == [] then s.posting + {t} else s.posting,
         pushed := s.pushed + 1)
    case Post(t) => s.(posting := s.posting - {t}, posted := s.posted + 1)
    case Start => s.(posted := s.posted - 1, running := Some(Popping))
    case Pop =>
      if s.queue == [] then s.(running := None)
      else s.(running := Some(Injecting(s.queue[0])), queue := s.queue[1..])
    case Inject => s.(running := Some(Popping), delivered := s.delivered + [s.running.value.p])
  }

  // ── The invariant ────────────────────────────────────────────────────

  /** Somebody will come for what is in the queue. */
  predicate Attended(s: State) { s.queue != [] ==> s.posting != {} || s.posted > 0 || s.running.Some? }

  function InHand(s: State): seq<nat> {
    if s.running.Some? && s.running.value.Injecting? then [s.running.value.p] else []
  }

  /** Everything that got, or may yet get, through: the delivered, the one in hand, and the queue. */
  function Through(s: State): seq<nat> { s.delivered + InHand(s) + s.queue }

  predicate Increasing(s: seq<nat>) { forall i, j :: 0 <= i < j < |s| ==> s[i] < s[j] }

  /** The queue holds the latest arrivals. */
  predicate IsSuffix(q: seq<nat>, pushed: nat) {
    |q| <= pushed && forall i :: 0 <= i < |q| ==> q[i] == pushed - |q| + i
  }

  predicate OrderOk(s: State) {
    && IsSuffix(s.queue, s.pushed)
    && Increasing(s.delivered + InHand(s))
    && (forall i :: 0 <= i < |s.delivered + InHand(s)| ==> (s.delivered + InHand(s))[i] < s.pushed - |s.queue|)
  }

  predicate CountsOk(s: State) {
    && s.drops == |s.dropped|
    && |s.delivered| + |InHand(s)| + |s.queue| + |s.dropped| == s.pushed
    && (forall p :: 0 <= p < s.pushed - |s.queue| ==> p in s.delivered || p in InHand(s) || p in s.dropped)
    && (forall p :: p in s.dropped ==> p < s.pushed)
  }

  predicate Inv(s: State) {
    Attended(s) && |s.queue| <= INBOUND_QUEUE_CAP && OrderOk(s) && CountsOk(s)
  }

  lemma StepKeepsOrder(s: State, a: Action)
    requires Enabled(s, a) && OrderOk(s)
    ensures OrderOk(Next(s, a))
  {
    var s' := Next(s, a);
    match a
    case Pop => assert s.queue != [] ==> s'.delivered + InHand(s') == s.delivered + InHand(s) + [s.queue[0]];
    case Inject => assert s'.delivered + InHand(s') == s.delivered + InHand(s);
    case _ =>
  }

  lemma StepKeepsCounts(s: State, a: Action)
    requires Enabled(s, a) && IsSuffix(s.queue, s.pushed) && CountsOk(s)
    ensures CountsOk(Next(s, a))
  {
    var s' := Next(s, a);
    match a
    case Pop => assert forall p :: p in s.delivered ==> p in s'.delivered;
    case Inject => assert forall p :: p in s.delivered || p in InHand(s) ==> p in s'.delivered;
    case _ => assert forall p :: p in s.dropped ==> p in s'.dropped;
  }

  lemma StepKeepsInv(s: State, a: Action)
    requires Inv(s) && Enabled(s, a)
    ensures Inv(Next(s, a))
  {
    StepKeepsOrder(s, a);
    StepKeepsCounts(s, a);
    if a.Push? && s.queue == [] { assert a.t in Next(s, a).posting; }
  }

  // ── Whole runs ───────────────────────────────────────────────────────

  function Step(s: State, a: Action): Option<State> { if Enabled(s, a) then Some(Next(s, a)) else None }

  function After(run: seq<Action>): Option<State> { Runs.After(INIT, Step, run) }

  lemma RunKeepsInv(run: seq<Action>)
    requires After(run).Some?
    ensures Inv(After(run).value)
  {
    assert Inv(INIT);
    hide Inv, Enabled, Next;
    forall s, a | Inv(s) && Step(s, a).Some? ensures Inv(Step(s, a).value) {
      StepKeepsInv(s, a);
    }
    Runs.Invariant(INIT, Step, Inv, run);
  }

  /** A packet is never stranded: a non-empty queue has a pusher about to post, a posted drain, or a running
      drain that has not seen it empty. It never holds more than its capacity. */
  lemma NeverStranded(run: seq<Action>)
    requires After(run).Some?
    ensures var s := After(run).value;
      && (s.queue != [] ==> s.posting != {} || s.posted > 0 || s.running.Some?)
      && |s.queue| <= INBOUND_QUEUE_CAP
  {
    RunKeepsInv(run);
  }

  /** Packets come through in the order of arrival, and every packet that arrived is exactly one of:
      delivered, in hand, queued, or dropped and counted. */
  lemma InOrderAndConserved(run: seq<Action>)
    requires After(run).Some?
    ensures var s := After(run).value;
      && Increasing(Through(s))
      && s.drops == |s.dropped|
      && |Through(s)| + s.drops == s.pushed
      && (forall p: nat :: p < s.pushed <==> p in Through(s) || p in s.dropped)
  {
    RunKeepsInv(run);
    var s := After(run).value;
    ThroughIncreases(s);
    AllAccounted(s);
  }

  lemma ThroughIncreases(s: State)
    requires OrderOk(s)
    ensures Increasing(Through(s))
  {
  }

  lemma AllAccounted(s: State)
    requires OrderOk(s) && CountsOk(s)
    ensures forall p: nat :: p < s.pushed <==> p in Through(s) || p in s.dropped
  {
    forall p: nat ensures p < s.pushed <==> p in Through(s) || p in s.dropped {
      if s.pushed - |s.queue| <= p < s.pushed {
        assert s.queue[p - (s.pushed - |s.queue|)] == p;
      }
    }
  }

  /** A packet is dropped only by the arrival of another at a queue of 8192, and is then the oldest in it; every arrival
      is queued behind all others. */
  lemma DropsOnlyWhenFull(s: State, a: Action)
    requires Enabled(s, a)
    ensures Next(s, a).drops != s.drops || Next(s, a).dropped != s.dropped ==>
      a.Push? && |s.queue| >= 8192 && Next(s, a).dropped == s.dropped + [s.queue[0]]
    ensures a.Push? ==> |Next(s, a).queue| > 0 && Next(s, a).queue[|Next(s, a).queue| - 1] == s.pushed
  {
  }

  // ── Progress ─────────────────────────────────────────────────────────

  function Distance(s: State): nat {
    4 * |s.queue| + |InHand(s)| + (if s.running.None? then 2 else 0) + if s.posted == 0 then 1 else 0
  }

  lemma SomeStep(s: State) returns (a: Action)
    requires Attended(s) && (s.queue != [] || InHand(s) != [])
    ensures Enabled(s, a) && !a.Push? && Distance(Next(s, a)) < Distance(s)
    ensures Through(Next(s, a)) == Through(s)
  {
    if InHand(s) != [] {
      a := Inject;
    } else if s.running.Some? {
      a := Pop;
      assert s.queue == [s.queue[0]] + s.queue[1..];
    } else if s.posted > 0 {
      a := Start;
    } else {
      var t :| t in s.posting;
      a := Post(t);
    }
  }

  /** Everything in the queue can be delivered: without any new arrival, a bounded number of steps of the threads about
      to post and of the dispatcher delivers all of it, in order. */
  lemma {:induction false} QueueIsDelivered(s: State) returns (run: seq<Action>, s': State)
    requires Inv(s)
    ensures Runs.After(s, Step, run) == Some(s') && |run| <= Distance(s) && forall a :: a in run ==> !a.Push?
    ensures s'.queue == [] && InHand(s') == [] && s'.delivered == s.delivered + InHand(s) + s.queue
    decreases Distance(s)
  {
    hide Enabled, Next, Distance, Inv;
    if s.queue == [] && InHand(s) == [] {
      run, s' := [], s;
    } else {
      var a := SomeStep(s) by { assert Attended(s) by { InvAttends(s); } }
      StepKeepsInv(s, a);
      run, s' := QueueIsDelivered(Next(s, a));
      Runs.FirstStep(s, Step, a, run);
      run := [a] + run;
    }
  }

  lemma InvAttends(s: State)
    requires Inv(s)
    ensures Attended(s)
  {
  }
}

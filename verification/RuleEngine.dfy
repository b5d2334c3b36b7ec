/** The rule engine of the WebSocket client: setters store an input and then evaluate under the slot's
    lock whether a run loop should be up. */
module RuleEngine {
  import opened Wrappers
  import Runs

  type Thread = nat
  type Token = nat
  /** Run loops are named by the order in which they were spawned. */
  type Loop = nat

  /** Where the lock's holder is in its evaluation. */
  datatype Pc = AtReap | AtToken | AtDisconnect | AtActive | Decided(want: bool) | Leaving

  /** `storers`: threads that changed an input and have yet to take the lock. `tokens`: what each loop was
      started with. */
  datatype State = State(
    token: Option<Token>, userDisconnect: bool, managerActive: bool,
    storers: set<Thread>, holder: Option<(Thread, Pc)>, slot: Option<Loop>,
    tokens: seq<Option<Token>>, finished: set<Loop>, aborted: set<Loop>)

  datatype Action =
    | SetToken(t: Thread, token: Option<Token>)
    | SetUserDisconnect(t: Thread, disc: bool)
    | SetManagerActive(t: Thread, active: bool)
    | Lock(t: Thread)
    | Evaluate
    | Finish(l: Loop)

  const INIT := State(None, false, true, {}, None, None, [], {}, {})

  function Rule(s: State): bool { s.token.Some? && !s.userDisconnect && s.managerActive }

  predicate Idle(s: State, t: Thread) { t !in s.storers && !(s.holder.Some? && s.holder.value.0 == t) }

  predicate Enabled(s: State, a: Action) {
    match a
    case SetToken(t, _) => Idle(s, t)
    case SetUserDisconnect(t, _) => Idle(s, t)
    case SetManagerActive(t, _) => Idle(s, t)
    case Lock(t) => t in s.storers && s.holder.None?
    case Evaluate => s.holder.Some?
    case Finish(l) => l < |s.tokens| && l !in s.finished
  }

  /** A setter that changes nothing does not evaluate. */
  function Stored(s: State, t: Thread, changed: bool): State {
    if changed then s.(storers := s.storers + {t}) else s
  }

  function Next(s: State, a: Action): State
    requires Enabled(s, a)
  {
    match a
    case SetToken(t, token) => Stored(s.(token := token), t, s.token != token)
    case SetUserDisconnect(t, disc) => Stored(s.(userDisconnect := disc), t, s.userDisconnect != disc)
    case SetManagerActive(t, active) => Stored(s.(managerActive := active), t, s.managerActive != active)
    case Lock(t) => s.(storers := s.storers - {t}, holder := Some((t, AtReap)))
    case Evaluate => Continue(s, s.holder.value.0, s.holder.value.1)
    case Finish(l) => s.(finished := s.finished + {l})
  }

  function Goto(s: State, t: Thread, pc: Pc): State { s.(holder := Some((t, pc))) }

  function Continue(s: State, t: Thread, pc: Pc): State {
    match pc
    case AtReap => Goto(if s.slot.Some? && s.slot.value in s.finished then s.(slot := None) else s, t, AtToken)
    case AtToken => Goto(s, t, if s.token.Some? then AtDisconnect else Decided(false))
    case AtDisconnect => Goto(s, t, if s.userDisconnect then Decided(false) else AtActive)
    case AtActive => Goto(s, t, Decided(s.managerActive))
    case Decided(want) => Goto(Act(s, want), t, Leaving)
    case Leaving => s.(holder := None)
  }

  /** Spawns a loop with the token of the moment, or aborts the one in the slot, if the decision calls for it. */
  function Act(s: State, want: bool): State {
    if want && s.slot.None? then s.(slot := Some(|s.tokens|), tokens := s.tokens + [s.token])
    else if !want && s.slot.Some? then s.(slot := None, aborted := s.aborted + {s.slot.value})
    else s
  }

  // ── The invariant ────────────────────────────────────────────────────

  predicate ReadsAgree(s: State) {
    match s.holder
    case None => s.slot.Some? == Rule(s)
    case Some((_, pc)) =>
      match pc
      case AtReap => true
      case AtToken => true
      case AtDisconnect => s.token.Some?
      case AtActive => s.token.Some? && !s.userDisconnect
      case Decided(want) => want == Rule(s)
      case Leaving => s.slot.Some? == Rule(s)
  }

  /** Every loop that is neither finished nor aborted is in the slot. */
  predicate LoopsOk(s: State) {
    && (s.slot.Some? ==> s.slot.value < |s.tokens| && s.slot.value !in s.aborted)
    && (forall l :: l in s.aborted ==> l < |s.tokens|)
    && (forall l :: 0 <= l < |s.tokens| ==> l in s.finished || l in s.aborted || s.slot == Some(l))
  }

  predicate Inv(s: State) { (s.storers == {} ==> ReadsAgree(s)) && LoopsOk(s) }

  lemma EvaluateKeepsReads(s: State, t: Thread, pc: Pc)
    requires s.holder == Some((t, pc)) && ReadsAgree(s)
    ensures ReadsAgree(Continue(s, t, pc))
  {
  }

  lemma EvaluateKeepsLoops(s: State, t: Thread, pc: Pc)
    requires LoopsOk(s)
    ensures LoopsOk(Continue(s, t, pc))
  {
  }

  lemma StepKeepsInv(s: State, a: Action)
    requires Inv(s) && Enabled(s, a)
    ensures Inv(Next(s, a))
  {
    match a
    case Evaluate =>
      var (t, pc) := s.holder.value;
      EvaluateKeepsLoops(s, t, pc);
      if s.storers == {} { EvaluateKeepsReads(s, t, pc); }
    case Lock(_) =>
    case Finish(_) =>
    case _ => assert Next(s, a) == s || a.t in Next(s, a).storers;
  }

  // ── Whole runs ───────────────────────────────────────────────────────

  function Step(s: State, a: Action): Option<State> { if Enabled(s, a) then Some(Next(s, a)) else None }

  function After(run: seq<Action>): Option<State> { Runs.After(INIT, Step, run) }

  lemma RunKeepsInv(run: seq<Action>)
    requires After(run).Some?
    ensures Inv(After(run).value)
  {
    forall s, a | Inv(s) && Step(s, a).Some? ensures Inv(Step(s, a).value) {
      StepKeepsInv(s, a);
    }
    Runs.Invariant(INIT, Step, Inv, run);
  }

  predicate Quiescent(s: State) { s.storers == {} && s.holder == None }

  predicate Running(s: State, l: Loop) { l < |s.tokens| && l !in s.finished && l !in s.aborted }

  /** Whenever no setter is between its store and the end of its evaluation, the slot is occupied exactly when
      the rule says so, even if loops have finished by themselves; and at any time at most one loop runs, the
      one in the slot. */
  lemma SlotFollowsRule(run: seq<Action>)
    requires After(run).Some?
    ensures var s := After(run).value;
      && (Quiescent(s) ==> (s.slot.Some? <==> Rule(s)))
      && (forall l: Loop :: Running(s, l) ==> s.slot == Some(l))
      && (Quiescent(s) && !Rule(s) ==> forall l: Loop :: !Running(s, l))
  {
    RunKeepsInv(run);
  }

  // ── Every setter takes effect ────────────────────────────────────────

  function Evaluates(n: nat): (run: seq<Action>)
    ensures |run| == n && forall i :: 0 <= i < n ==> run[i] == Evaluate
  {
    seq(n, _ => Evaluate)
  }

  /** What a whole evaluation does. If the rule holds, a live loop is kept, and a missing or finished one replaced; if
      not, a live loop is aborted, and the slot is empty. */
  function Evaluated(s: State): State {
    var live := s.slot.Some? && s.slot.value !in s.finished;
    if Rule(s) then
      if live then s else s.(slot := Some(|s.tokens|), tokens := s.tokens + [s.token])
    else
      if live then s.(slot := None, aborted := s.aborted + {s.slot.value}) else s.(slot := None)
  }

  lemma OneMore(s: State, s1: State, n: nat, s': State)
    requires Step(s, Evaluate) == Some(s1) && Runs.After(s1, Step, Evaluates(n)) == Some(s')
    ensures Runs.After(s, Step, Evaluates(n + 1)) == Some(s')
  {
    Runs.FirstStep(s, Step, Evaluate, Evaluates(n));
    assert [Evaluate] + Evaluates(n) == Evaluates(n + 1);
  }

  /** From the decision on: two steps. */
  lemma FromDecided(s: State, t: Thread)
    requires s.holder == Some((t, Decided(Rule(s)))) && (s.slot.Some? ==> s.slot.value !in s.finished)
    ensures Runs.After(s, Step, Evaluates(2)) == Some(Evaluated(s).(holder := None))
  {
    var s2 := Evaluated(s).(holder := None);
    var s1 := Goto(s2, t, Leaving);
    assert Runs.After(s2, Step, Evaluates(0)) == Some(s2);
    OneMore(s1, s2, 0, s2);
    assert Step(s, Evaluate) == Some(s1);
    OneMore(s, s1, 1, s2);
  }

  /** From reading the token to the decision: the inputs are read one by one. */
  lemma FromToken(s: State, t: Thread, end: State) returns (n: nat)
    requires Runs.After(Goto(s, t, Decided(Rule(s))), Step, Evaluates(2)) == Some(end)
    ensures n <= 5 && Runs.After(Goto(s, t, AtToken), Step, Evaluates(n)) == Some(end)
  {
    hide Runs.After, Evaluates;
    var d := Goto(s, t, Decided(Rule(s)));
    n := 2;
    if s.token.Some? {
      if s.userDisconnect {
        OneMore(Goto(s, t, AtDisconnect), d, n, end);
        n := n + 1;
      } else {
        OneMore(Goto(s, t, AtActive), d, n, end);
        OneMore(Goto(s, t, AtDisconnect), Goto(s, t, AtActive), n + 1, end);
        n := n + 2;
      }
      OneMore(Goto(s, t, AtToken), Goto(s, t, AtDisconnect), n, end);
    } else {
      OneMore(Goto(s, t, AtToken), d, n, end);
    }
    n := n + 1;
  }

  function Reaped(s: State): State { if s.slot.Some? && s.slot.value in s.finished then s.(slot := None) else s }

  lemma EvaluatedReaped(s: State, t: Thread)
    ensures Evaluated(Goto(Reaped(s), t, Decided(Rule(s)))).(holder := None) == Evaluated(s).(holder := None)
    ensures Rule(Reaped(s)) == Rule(s)
  {
  }

  /** The holder of the lock gets to its end in at most six steps. */
  lemma EvaluationEnds(s: State, t: Thread) returns (n: nat)
    requires s.holder == Some((t, AtReap))
    ensures n <= 6 && Runs.After(s, Step, Evaluates(n)) == Some(Evaluated(s).(holder := None))
  {
    hide Runs.After, Evaluates, Evaluated, Rule;
    var end := Evaluated(s).(holder := None);
    EvaluatedReaped(s, t);
    FromDecided(Goto(Reaped(s), t, Decided(Rule(s))), t) by { RuleOfGoto(Reaped(s), t); }
    n := FromToken(Reaped(s), t, end);
    OneMore(s, Goto(Reaped(s), t, AtToken), n, end);
    n := n + 1;
  }

  lemma RuleOfGoto(s: State, t: Thread)
    ensures forall pc :: Rule(Goto(s, t, pc)) == Rule(s)
  {
  }

  /** What a setter does to the inputs. */
  function Set(s: State, a: Action): State {
    match a
    case SetToken(_, token) => s.(token := token)
    case SetUserDisconnect(_, disc) => s.(userDisconnect := disc)
    case SetManagerActive(_, active) => s.(managerActive := active)
    case _ => s
  }

  predicate IsSetter(a: Action) { a.SetToken? || a.SetUserDisconnect? || a.SetManagerActive? }

  /** A whole call of a setter, uninterrupted: it evaluates only if it changed its input. */
  function SetterRun(s: State, a: Action, n: nat): seq<Action>
    requires IsSetter(a)
  {
    if Set(s, a) == s then [a] else [a, Lock(a.t)] + Evaluates(n)
  }

  /** Every setter takes effect: called in a quiet state and left alone, it stores its argument and ends, in at most
      eight steps, quiet again; if it changed an input, the loop has been started, aborted, replaced or kept as the
      new inputs want it. */
  lemma SetterTakesEffect(s: State, a: Action) returns (n: nat, s': State)
    requires Quiescent(s) && IsSetter(a)
    ensures n <= 6 && Runs.After(s, Step, SetterRun(s, a, n)) == Some(s') && Quiescent(s')
    ensures s' == if Set(s, a) == s then s else Evaluated(Set(s, a))
  {
    if Set(s, a) == s {
      n, s' := 0, s;
      assert Next(s, a) == s;
      var run := Runs.Extend(s, Step, [], s, a);
      assert run == [a];
    } else {
      hide Runs.After, Evaluates, Evaluated, Step;
      var s2 := Goto(Set(s, a), a.t, AtReap);
      Locks(s, a);
      n := EvaluationEnds(s2, a.t);
      s' := Evaluated(Set(s, a));
      EvaluatedOfGoto(Set(s, a), a.t);
      var run := Runs.Concat(s, Step, [a, Lock(a.t)], s2, Evaluates(n));
    }
  }

  lemma EvaluatedOfGoto(s: State, t: Thread)
    requires s.holder == None
    ensures Evaluated(Goto(s, t, AtReap)).(holder := None) == Evaluated(s)
    ensures Evaluated(s).holder == None && Evaluated(s).storers == s.storers
  {
  }

  /** A setter that changes its input comes to hold the lock. */
  lemma Locks(s: State, a: Action)
    requires Quiescent(s) && IsSetter(a) && Set(s, a) != s
    ensures Runs.After(s, Step, [a, Lock(a.t)]) == Some(Goto(Set(s, a), a.t, AtReap))
  {
    var s1 := Set(s, a).(storers := {a.t});
    assert s.storers + {a.t} == {a.t} && {a.t} - {a.t} == s.storers;
    assert Step(s, a) == Some(s1);
    assert Step(s1, Lock(a.t)) == Some(Goto(Set(s, a), a.t, AtReap));
    hide Step;
    Runs.Two(s, Step, a, s1, Lock(a.t), Goto(Set(s, a), a.t, AtReap));
  }

  /** The rule by its cases, after a whole call in a quiet state of a run: without a token, disconnected by the user or
      not wanted by the manager, the slot is empty and no loop runs; else it is occupied. */
  lemma SlotByCase(run: seq<Action>, a: Action) returns (n: nat, s': State)
    requires After(run).Some? && Quiescent(After(run).value) && IsSetter(a)
    ensures Runs.After(After(run).value, Step, SetterRun(After(run).value, a, n)) == Some(s') && n <= 6
    ensures a == SetToken(a.t, None) ==> s'.slot.None?
    ensures a == SetUserDisconnect(a.t, true) ==> s'.slot.None?
    ensures a == SetManagerActive(a.t, false) ==> s'.slot.None?
    ensures s'.token.Some? && !s'.userDisconnect && s'.managerActive ==> s'.slot.Some?
    ensures s'.slot.None? ==> forall l: Loop :: !Running(s', l)
  {
    var s := After(run).value;
    RunKeepsInv(run);
    n, s' := SetterTakesEffect(s, a);
    var whole := Runs.Concat(INIT, Step, run, s, SetterRun(s, a, n));
    RunKeepsInv(whole);
  }

  // ── What is stored ───────────────────────────────────────────────────

  function LastToken(run: seq<Action>): Option<Token> {
    if run == [] then None
    else if run[|run| - 1].SetToken? then run[|run| - 1].token
    else LastToken(run[..|run| - 1])
  }

  function LastDisconnect(run: seq<Action>): bool {
    if run == [] then false
    else if run[|run| - 1].SetUserDisconnect? then run[|run| - 1].disc
    else LastDisconnect(run[..|run| - 1])
  }

  function LastActive(run: seq<Action>): bool {
    if run == [] then true
    else if run[|run| - 1].SetManagerActive? then run[|run| - 1].active
    else LastActive(run[..|run| - 1])
  }

  /** The inputs are what the setters were last given. */
  lemma {:induction false} InputsAreLatest(run: seq<Action>)
    requires After(run).Some?
    ensures var s := After(run).value;
      s.token == LastToken(run) && s.userDisconnect == LastDisconnect(run) && s.managerActive == LastActive(run)
  {
    if run != [] {
      var front, a := run[..|run| - 1], run[|run| - 1];
      InputsAreLatest(front);
      StepStores(After(front).value, a);
      hide Next, Enabled;
    }
  }

  lemma StepStores(s: State, a: Action)
    requires Enabled(s, a)
    ensures var s' := Next(s, a);
      && s'.token == (if a.SetToken? then a.token else s.token)
      && s'.userDisconnect == (if a.SetUserDisconnect? then a.disc else s.userDisconnect)
      && s'.managerActive == (if a.SetManagerActive? then a.active else s.managerActive)
  {
  }

  // ── Progress ─────────────────────────────────────────────────────────

  /** How many steps the threads under way may still take. */
  function Work(s: State): nat {
    8 * |s.storers| + if s.holder.None? then 0 else Left(s.holder.value.1)
  }

  function Left(pc: Pc): nat {
    match pc
    case AtReap => 6
    case AtToken => 5
    case AtDisconnect => 4
    case AtActive => 3
    case Decided(_) => 2
    case Leaving => 1
  }

  /** No state is a dead end: a bounded number of steps of the threads under way makes all quiet. */
  lemma {:induction false} Settles(s: State) returns (run: seq<Action>, s': State)
    ensures Runs.After(s, Step, run) == Some(s') && Quiescent(s')
    ensures |run| <= Work(s) && forall a :: a in run ==> a.Lock? || a.Evaluate?
    decreases Work(s)
  {
    hide Next, Enabled, Work;
    if Quiescent(s) {
      run, s' := [], s;
    } else {
      var a := SomeStep(s);
      StepWorks(s, a);
      run, s' := Settles(Next(s, a));
      Runs.FirstStep(s, Step, a, run);
      run := [a] + run;
    }
  }

  lemma SomeStep(s: State) returns (a: Action)
    requires !Quiescent(s)
    ensures Enabled(s, a) && (a.Lock? || a.Evaluate?)
  {
    if s.holder.Some? {
      a := Evaluate;
    } else {
      var t :| t in s.storers;
      a := Lock(t);
    }
  }

  lemma StepWorks(s: State, a: Action)
    requires Enabled(s, a) && (a.Lock? || a.Evaluate?)
    ensures Work(Next(s, a)) < Work(s)
  {
    if a.Evaluate? { assert Next(s, a).storers == s.storers; }
  }

  // ── The token of the running loop ────────────────────────────────────

  /** Exactly when the loop has the token the client was given: after `set_token(Some(b))` the loop in the slot was
      started with `b` if and only if there was none, or it already had been, or it had finished and the token is a
      new one. So a new token does not replace that of a live loop, and the same token does not restart a finished
      one. */
  lemma SetTokenExact(s: State, t: Thread, b: Token) returns (n: nat, s': State)
    requires Inv(s) && Quiescent(s) && !s.userDisconnect && s.managerActive
    ensures Runs.After(s, Step, SetterRun(s, SetToken(t, Some(b)), n)) == Some(s')
    ensures Quiescent(s') && s'.token == Some(b) && s'.slot.Some? && s'.slot.value < |s'.tokens|
    ensures s'.tokens[s'.slot.value] == Some(b) <==>
      || s.slot.None?
      || s.tokens[s.slot.value] == Some(b)
      || (s.slot.value in s.finished && s.token != Some(b))
  {
    n, s' := SetterTakesEffect(s, SetToken(t, Some(b)));
  }

  /** It happens: a run after which a live loop goes on under token 1 while the token is 2. */
  lemma TokenCanGoStale() returns (run: seq<Action>, s: State)
    ensures After(run) == Some(s) && Quiescent(s) && s.token == Some(2)
    ensures Running(s, 0) && s.slot == Some(0) && s.tokens[0] == Some(1)
  {
    var n, live := SetterTakesEffect(INIT, SetToken(0, Some(1)));
    run := SetterRun(INIT, SetToken(0, Some(1)), n);
    n, s := SetterTakesEffect(live, SetToken(0, Some(2)));
    run := Runs.Concat(INIT, Step, run, live, SetterRun(live, SetToken(0, Some(2)), n));
  }
}

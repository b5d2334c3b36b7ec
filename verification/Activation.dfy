/** The activation gate: threads store an input (mode, foreground, session count) and then reconcile
    under a lock, reading the inputs one by one and pushing a changed decision to the signaling layer. */
module Activation {
  import opened Wrappers
  import Runs

  type Thread = nat

  /** A thread that has stored an input and not yet taken the lock; `ModeStored` has the count to reset. */
  datatype Storer = ModeStored | Stored

  /** Where the lock's holder is in its reconcile. */
  datatype Pc = AtMode | AtForeground | AtActive | Decided(want: bool) | Pushing(want: bool) | Leaving

  datatype State = State(
    server: bool, foreground: bool, active: int, lastPush: bool,
    storers: map<Thread, Storer>, holder: Option<(Thread, Pc)>,
    signaling: bool, pushes: seq<bool>)

  /** Each action is one load, store, swap, lock operation or hook call. */
  datatype Action =
    | SetMode(t: Thread, server: bool)
    | ResetActive(t: Thread)
    | Bump(t: Thread, delta: int)
    | SetForeground(t: Thread, foreground: bool)
    | Lock(t: Thread)
    | Reconcile
    | DropSignaling

  function Rule(s: State): bool { s.server || (s.foreground && s.active <= 0) }

  /** Just constructed: the constructor is about to reconcile. */
  function Init(foreground: bool): State {
    State(false, foreground, 0, false, map[0 := Stored], None, true, [])
  }

  predicate Idle(s: State, t: Thread) { t !in s.storers && !(s.holder.Some? && s.holder.value.0 == t) }

  predicate Enabled(s: State, a: Action) {
    match a
    case SetMode(t, _) => Idle(s, t)
    case Bump(t, _) => Idle(s, t)
    case SetForeground(t, _) => Idle(s, t)
    case ResetActive(t) => t in s.storers && s.storers[t] == ModeStored
    case Lock(t) => t in s.storers && s.storers[t] == Stored && s.holder.None?
    case Reconcile => s.holder.Some?
    case DropSignaling => true
  }

  function Next(s: State, a: Action): State
    requires Enabled(s, a)
  {
    match a
    case SetMode(t, server) => s.(server := server, storers := s.storers[t := ModeStored])
    case ResetActive(t) => s.(active := 0, storers := s.storers[t := Stored])
    case Bump(t, delta) =>
      s.(active := if s.active + delta < 0 then 0 else s.active + delta, storers := s.storers[t := Stored])
    case SetForeground(t, foreground) => s.(foreground := foreground, storers := s.storers[t := Stored])
    case Lock(t) => s.(storers := s.storers - {t}, holder := Some((t, AtMode)))
    case Reconcile => Continue(s, s.holder.value.0, s.holder.value.1)
    case DropSignaling => s.(signaling := false)
  }

  function Goto(s: State, t: Thread, pc: Pc): State { s.(holder := Some((t, pc))) }

  function Continue(s: State, t: Thread, pc: Pc): State {
    match pc
    case AtMode => Goto(s, t, if s.server then Decided(true) else AtForeground)
    case AtForeground => Goto(s, t, if s.foreground then AtActive else Decided(false))
    case AtActive => Goto(s, t, Decided(s.active <= 0))
    case Decided(want) => Goto(s.(lastPush := want), t, if s.lastPush == want then Leaving else Pushing(want))
    case Pushing(want) => Goto(if s.signaling then s.(pushes := s.pushes + [want]) else s, t, Leaving)
    case Leaving => s.(holder := None)
  }

  // ── The invariant ────────────────────────────────────────────────────

  /** What the reconcile in progress has read so far is what the inputs say. */
  predicate ReadsAgree(s: State) {
    match s.holder
    case None => s.lastPush == Rule(s)
    case Some((_, pc)) =>
      match pc
      case AtMode => true
      case AtForeground => !s.server
      case AtActive => !s.server && s.foreground
      case Decided(want) => want == Rule(s)
      case Pushing(_) => s.lastPush == Rule(s)
      case Leaving => s.lastPush == Rule(s)
  }

  predicate MidPush(s: State) { s.holder.Some? && s.holder.value.1.Pushing? }

  predicate Alternates(pushes: seq<bool>) { forall i :: 0 <= i < |pushes| ==> pushes[i] == (i % 2 == 0) }

  predicate PushesOk(s: State) {
    && Alternates(s.pushes)
    && (MidPush(s) ==> s.holder.value.1.want == s.lastPush)
    && (s.signaling ==> (|s.pushes| % 2 == 1 <==> (if MidPush(s) then !s.lastPush else s.lastPush)))
  }

  predicate NoStorer(s: State) { s.storers.Keys == {} }

  /** Every input that some reconcile has not read in full is covered by a thread yet to take the lock. */
  predicate Inv(s: State) {
    s.active >= 0 && (NoStorer(s) ==> ReadsAgree(s)) && PushesOk(s)
  }

  lemma StoreKeepsInv(s: State, a: Action)
    requires Inv(s) && Enabled(s, a) && (a.SetMode? || a.Bump? || a.SetForeground? || a.ResetActive?)
    ensures Inv(Next(s, a))
  {
    assert a.t in Next(s, a).storers.Keys;
  }

  lemma ReconcileKeepsReads(s: State, t: Thread, pc: Pc)
    requires s.holder == Some((t, pc)) && ReadsAgree(s)
    requires pc.Pushing? ==> pc.want == s.lastPush
    ensures ReadsAgree(Continue(s, t, pc))
  {
  }

  lemma ReconcileKeepsPushes(s: State, t: Thread, pc: Pc)
    requires s.holder == Some((t, pc)) && PushesOk(s)
    ensures PushesOk(Continue(s, t, pc))
  {
    if pc.Pushing? && s.signaling {
      var s' := Continue(s, t, pc);
      assert |s'.pushes| == |s.pushes| + 1;
      assert Alternates(s'.pushes);
    }
  }

  lemma StepKeepsInv(s: State, a: Action)
    requires Inv(s) && Enabled(s, a)
    ensures Inv(Next(s, a))
  {
    match a
    case Lock(t) =>
    case DropSignaling =>
    case Reconcile =>
      var (t, pc) := s.holder.value;
      ReconcileKeepsPushes(s, t, pc);
      if NoStorer(s) { ReconcileKeepsReads(s, t, pc); }
    case _ => StoreKeepsInv(s, a);
  }

  // ── Whole runs ───────────────────────────────────────────────────────

  function Step(s: State, a: Action): Option<State> { if Enabled(s, a) then Some(Next(s, a)) else None }

  function After(foreground: bool, run: seq<Action>): Option<State> { Runs.After(Init(foreground), Step, run) }

  lemma RunKeepsInv(foreground: bool, run: seq<Action>)
    requires After(foreground, run).Some?
    ensures Inv(After(foreground, run).value)
  {
    forall s, a | Inv(s) && Step(s, a).Some? ensures Inv(Step(s, a).value) {
      StepKeepsInv(s, a);
    }
    assert 0 in Init(foreground).storers.Keys;
    Runs.Invariant(Init(foreground), Step, Inv, run);
  }

  /** What the signaling layer does: it starts active and obeys the pushes. */
  function Activated(pushes: seq<bool>): bool { pushes == [] || pushes[|pushes| - 1] }

  predicate Quiescent(s: State) { NoStorer(s) && s.holder == None }

  /** The gate is right whenever no thread is between its store and the end of its reconcile, pushes
      alternate from an activation on, and the count is never negative. While the signaling layer lives it
      then does what the rule says exactly when it has been pushed anything. */
  lemma GateFollowsRule(foreground: bool, run: seq<Action>)
    requires After(foreground, run).Some?
    ensures var s := After(foreground, run).value;
      && s.active >= 0
      && Alternates(s.pushes)
      && (Quiescent(s) ==> s.lastPush == Rule(s))
      && (Quiescent(s) && s.signaling ==> (Activated(s.pushes) == Rule(s) <==> s.pushes != []))
  {
    RunKeepsInv(foreground, run);
  }

  // ── What is stored ───────────────────────────────────────────────────

  /** The mode last set, the foreground state last reported, and the session count as bumps and resets make it. */
  function LastMode(run: seq<Action>): bool {
    if run == [] then false
    else if run[|run| - 1].SetMode? then run[|run| - 1].server
    else LastMode(run[..|run| - 1])
  }

  function LastForeground(foreground: bool, run: seq<Action>): bool {
    if run == [] then foreground
    else if run[|run| - 1].SetForeground? then run[|run| - 1].foreground
    else LastForeground(foreground, run[..|run| - 1])
  }

  function Sessions(run: seq<Action>): nat {
    if run == [] then 0
    else
      var n, a := Sessions(run[..|run| - 1]), run[|run| - 1];
      if a.ResetActive? then 0
      else if a.Bump? then if n + a.delta < 0 then 0 else n + a.delta
      else n
  }

  /** The inputs are what the setters were last given. */
  lemma {:induction false} InputsAreLatest(foreground: bool, run: seq<Action>)
    requires After(foreground, run).Some?
    ensures var s := After(foreground, run).value;
      s.server == LastMode(run) && s.foreground == LastForeground(foreground, run) && s.active == Sessions(run)
  {
    if run != [] {
      var front, a := run[..|run| - 1], run[|run| - 1];
      InputsAreLatest(foreground, front);
      StepStores(After(foreground, front).value, a);
      hide Next, Enabled, Init;
    }
  }

  lemma StepStores(s: State, a: Action)
    requires Enabled(s, a)
    ensures var s' := Next(s, a);
      && s'.server == (if a.SetMode? then a.server else s.server)
      && s'.foreground == (if a.SetForeground? then a.foreground else s.foreground)
      && s'.active == (if a.ResetActive? then 0
                       else if a.Bump? then if s.active + a.delta < 0 then 0 else s.active + a.delta
                       else s.active)
  {
  }

  // ── Every setter takes effect ────────────────────────────────────────

  function Reconciles(n: nat): (run: seq<Action>)
    ensures |run| == n && forall i :: 0 <= i < n ==> run[i] == Reconcile
  {
    seq(n, _ => Reconcile)
  }

  /** What a whole reconcile does: it pushes the rule's decision if that is not the last one pushed. */
  function Reconciled(s: State): State {
    s.(holder := None, lastPush := Rule(s),
       pushes := if s.lastPush != Rule(s) && s.signaling then s.pushes + [Rule(s)] else s.pushes)
  }

  lemma OneMore(s: State, s1: State, n: nat, s': State)
    requires Step(s, Reconcile) == Some(s1) && Runs.After(s1, Step, Reconciles(n)) == Some(s')
    ensures Runs.After(s, Step, Reconciles(n + 1)) == Some(s')
  {
    Runs.FirstStep(s, Step, Reconcile, Reconciles(n));
    assert [Reconcile] + Reconciles(n) == Reconciles(n + 1);
  }

  lemma Zero(s: State)
    ensures Runs.After(s, Step, Reconciles(0)) == Some(s)
  {
  }

  lemma FromDecided(s: State, t: Thread) returns (n: nat)
    requires s.holder == Some((t, Decided(Rule(s))))
    ensures n <= 3 && Runs.After(s, Step, Reconciles(n)) == Some(Reconciled(s))
  {
    var s' := Reconciled(s);
    Zero(s');
    var s1 := Goto(s', t, Leaving);
    OneMore(s1, s', 0, s');
    if s.lastPush == Rule(s) {
      assert Step(s, Reconcile) == Some(s1);
      OneMore(s, s1, 1, s');
      n := 2;
    } else {
      var s2 := Goto(s.(lastPush := Rule(s)), t, Pushing(Rule(s)));
      assert Step(s2, Reconcile) == Some(s1);
      OneMore(s2, s1, 1, s');
      assert Step(s, Reconcile) == Some(s2);
      OneMore(s, s2, 2, s');
      n := 3;
    }
  }

  lemma ReadsInputs(s: State, t: Thread)
    ensures s.server ==> Step(Goto(s, t, AtMode), Reconcile) == Some(Goto(s, t, Decided(Rule(s))))
    ensures !s.server ==> Step(Goto(s, t, AtMode), Reconcile) == Some(Goto(s, t, AtForeground))
    ensures !s.server && s.foreground ==> Step(Goto(s, t, AtForeground), Reconcile) == Some(Goto(s, t, AtActive))
    ensures !s.server && !s.foreground ==> Step(Goto(s, t, AtForeground), Reconcile) == Some(Goto(s, t, Decided(Rule(s))))
    ensures !s.server && s.foreground ==> Step(Goto(s, t, AtActive), Reconcile) == Some(Goto(s, t, Decided(Rule(s))))
    ensures Rule(Goto(s, t, Decided(Rule(s)))) == Rule(s) && Reconciled(Goto(s, t, Decided(Rule(s)))) == Reconciled(s)
  {
  }

  /** The holder of the lock gets to its end in at most six steps, and then the last push is the rule. */
  lemma ReconcileEnds(s: State, t: Thread) returns (n: nat)
    requires s.holder == Some((t, AtMode))
    ensures n <= 6 && Runs.After(s, Step, Reconciles(n)) == Some(Reconciled(s))
  {
    hide Runs.After, Reconciles, Reconciled, Rule, Step;
    var m, f, a, d := Goto(s, t, AtMode), Goto(s, t, AtForeground), Goto(s, t, AtActive), Goto(s, t, Decided(Rule(s)));
    assert m == s;
    ReadsInputs(s, t);
    n := FromDecided(d, t);
    if s.server {
      OneMore(s, d, n, Reconciled(s));
      n := n + 1;
    } else if s.foreground {
      OneMore(a, d, n, Reconciled(s));
      OneMore(f, a, n + 1, Reconciled(s));
      OneMore(s, f, n + 2, Reconciled(s));
      n := n + 3;
    } else {
      OneMore(f, d, n, Reconciled(s));
      OneMore(s, f, n + 1, Reconciled(s));
      n := n + 2;
    }
  }

  /** What a setter does to the inputs. */
  function Set(s: State, a: Action): State {
    match a
    case SetMode(_, server) => s.(server := server, active := 0)
    case Bump(_, delta) => s.(active := if s.active + delta < 0 then 0 else s.active + delta)
    case SetForeground(_, foreground) => s.(foreground := foreground)
    case _ => s
  }

  function SetterRun(a: Action, n: nat): seq<Action>
    requires a.SetMode? || a.Bump? || a.SetForeground?
  {
    [a] + (if a.SetMode? then [ResetActive(a.t)] else []) + [Lock(a.t)] + Reconciles(n)
  }

  /** Every setter takes effect: called in a quiet state and left alone, it stores its argument, a mode change clears the
      count, and it ends, in at most nine steps, quiet again with the gate following the new inputs: a push exactly
      if the decision changed. */
  lemma SetterTakesEffect(s: State, a: Action) returns (n: nat, s': State)
    requires Quiescent(s) && (a.SetMode? || a.Bump? || a.SetForeground?)
    ensures n <= 6 && Runs.After(s, Step, SetterRun(a, n)) == Some(s') && Quiescent(s')
    ensures s' == Reconciled(Set(s, a))
  {
    var t := a.t;
    var s1 := Next(s, a);
    var s2 := if a.SetMode? then Next(s1, ResetActive(t)) else s1;
    var s3 := Next(s2, Lock(t));
    assert s3 == Goto(Set(s, a), t, AtMode) by { assert s3.storers == map[]; }
    n := ReconcileEnds(s3, t);
    s' := Reconciled(Set(s, a));
    StartSetter(s, a, s1, s2, s3);
    hide Runs.After, Reconciles, Reconciled, Set;
    var start := [a] + (if a.SetMode? then [ResetActive(t)] else []) + [Lock(t)];
    var run := Runs.Concat(s, Step, start, s3, Reconciles(n));
  }

  /** The rule by its cases, after a whole call in a quiet state: a server is always active; a client is active in the
      foreground without a session, and not otherwise. */
  lemma GateByCase(s: State, a: Action) returns (n: nat, s': State)
    requires Quiescent(s) && s.active >= 0 && (a.SetMode? || a.Bump? || a.SetForeground?)
    ensures n <= 6 && Runs.After(s, Step, SetterRun(a, n)) == Some(s') && Quiescent(s')
    ensures a == SetMode(a.t, true) ==> s'.lastPush
    ensures a == SetMode(a.t, false) ==> s'.lastPush == s.foreground
    ensures a.Bump? && !s.server && a.delta > 0 ==> !s'.lastPush
    ensures a.Bump? && !s.server && s.active + a.delta <= 0 ==> s'.lastPush == s.foreground
    ensures a == SetForeground(a.t, false) && !s.server ==> !s'.lastPush
    ensures a == SetForeground(a.t, true) && !s.server ==> s'.lastPush == (s.active == 0)
    ensures (a.Bump? || a.SetForeground?) && s.server ==> s'.lastPush
    ensures s.signaling && s'.lastPush != s.lastPush ==> s'.pushes == s.pushes + [s'.lastPush]
    ensures s'.lastPush == s.lastPush ==> s'.pushes == s.pushes
  {
    hide Runs.After;
    n, s' := SetterTakesEffect(s, a);
  }

  lemma StartSetter(s: State, a: Action, s1: State, s2: State, s3: State)
    requires a.SetMode? || a.Bump? || a.SetForeground?
    requires Step(s, a) == Some(s1) && Step(s2, Lock(a.t)) == Some(s3)
    requires if a.SetMode? then Step(s1, ResetActive(a.t)) == Some(s2) else s2 == s1
    ensures Runs.After(s, Step, [a] + (if a.SetMode? then [ResetActive(a.t)] else []) + [Lock(a.t)]) == Some(s3)
  {
    hide Step, Runs.After;
    if a.SetMode? {
      Runs.Two(s, Step, a, s1, ResetActive(a.t), s2);
      var run := Runs.Extend(s, Step, [a, ResetActive(a.t)], s2, Lock(a.t));
      assert run == [a] + [ResetActive(a.t)] + [Lock(a.t)];
    } else {
      Runs.Two(s, Step, a, s1, Lock(a.t), s3);
      assert [a, Lock(a.t)] == [a] + [] + [Lock(a.t)];
    }
  }

  // ── Progress ─────────────────────────────────────────────────────────

  function ModeStorers(storers: map<Thread, Storer>): set<Thread> { set t | t in storers && storers[t] == ModeStored }

  /** How many steps the threads under way may still take. */
  function Work(s: State): nat {
    8 * |s.storers.Keys| + |ModeStorers(s.storers)| + if s.holder.None? then 0 else Left(s.holder.value.1)
  }

  function Left(pc: Pc): nat {
    match pc
    case AtMode => 6
    case AtForeground => 5
    case AtActive => 4
    case Decided(_) => 3
    case Pushing(_) => 2
    case Leaving => 1
  }

  /** A step of a thread under way. */
  predicate Finishing(a: Action) { a.ResetActive? || a.Lock? || a.Reconcile? }

  /** No state is a dead end: as long as a thread is under way, one of them can take a step, and after a bounded number
      of such steps all is quiet. */
  lemma {:induction false} Settles(s: State) returns (run: seq<Action>, s': State)
    ensures Runs.After(s, Step, run) == Some(s') && Quiescent(s')
    ensures |run| <= Work(s) && forall a :: a in run ==> Finishing(a)
    decreases Work(s)
  {
    hide Next, Enabled, Work;
    if Quiescent(s) {
      run, s' := [], s;
    } else {
      var a := SomeStep(s);
      var s1 := Next(s, a);
      StepWorks(s, a);
      run, s' := Settles(s1);
      Runs.FirstStep(s, Step, a, run);
      run := [a] + run;
    }
  }

  lemma SomeStep(s: State) returns (a: Action)
    requires !Quiescent(s)
    ensures Enabled(s, a) && Finishing(a)
  {
    if s.holder.Some? {
      a := Reconcile;
    } else {
      var t :| t in s.storers;
      a := if s.storers[t] == ModeStored then ResetActive(t) else Lock(t);
    }
  }

  lemma StepWorks(s: State, a: Action)
    requires Enabled(s, a) && Finishing(a)
    ensures Work(Next(s, a)) < Work(s)
  {
    if a.ResetActive? {
      ResetWorks(s, a.t);
    } else if a.Lock? {
      LockWorks(s, a.t);
    } else {
      ReconcileWorks(s, s.holder.value.0, s.holder.value.1);
    }
  }

  lemma ResetWorks(s: State, t: Thread)
    requires t in s.storers && s.storers[t] == ModeStored
    ensures Work(s.(active := 0, storers := s.storers[t := Stored])) < Work(s)
  {
    var after := s.storers[t := Stored];
    assert after.Keys == s.storers.Keys && ModeStorers(after) == ModeStorers(s.storers) - {t};
  }

  lemma LockWorks(s: State, t: Thread)
    requires t in s.storers && s.storers[t] == Stored && s.holder.None?
    ensures Work(s.(storers := s.storers - {t}, holder := Some((t, AtMode)))) < Work(s)
  {
    var after := s.storers - {t};
    assert after.Keys == s.storers.Keys - {t} && ModeStorers(after) == ModeStorers(s.storers);
  }

  lemma ReconcileWorks(s: State, t: Thread, pc: Pc)
    requires s.holder == Some((t, pc))
    ensures Work(Continue(s, t, pc)) < Work(s)
  {
    assert Continue(s, t, pc).storers == s.storers;
  }
}

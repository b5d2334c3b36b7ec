/** The client manager's one-call slot: calls that supersede each other, and the watcher task of each. */
module Calls {
  import opened Wrappers
  import Runs

  type Tunnel = nat

  /** What the application is told about a call, and what its tunnel reports. */
  datatype Notice = Connected | Disconnected | Failed
  datatype Event = Up | Down | Other

  /** `place_call` up to spawning the watcher, with the tunnel it still has to hang up, and then the watcher. */
  datatype Pc =
    | Placing(prev: Option<Tunnel>)
    | Waiting
    | Entering | Checking | Bumping | Upgrading | Emitting
    | Clearing | Rebalancing(was: bool) | Ending(was: bool)
    | Done(leaked: bool)

  /** How a call left the slot, if it has: through its own watcher, or taken by `place_call` or the drop. */
  datatype Exit = InSlot | OwnClear | Removed

  datatype Call = Call(pc: Pc, entered: bool, trace: seq<Notice>, exit: Exit, hungUp: bool)

  /** `owed`: tunnels a dropped manager took from the slot and has yet to hang up. `stale`: calls that were in the
      session count when it was last reset. */
  datatype State = State(
    current: Option<Tunnel>, calls: map<Tunnel, Call>, active: int, owed: set<Tunnel>, stale: set<Tunnel>)

  /** `Receive` is any event a tunnel may report, including those that hanging it up causes, and `Close` the
      end of its event channel. `Upgrade(t, alive)` resolves the watcher's weak reference, which cannot fail while
      the manager holds the tunnel. `ResetCount` is the driver's change of mode, as a new manager causes it. */
  datatype Action =
    | Place(t: Tunnel)
    | HangUpOld(t: Tunnel)
    | Spawn(t: Tunnel)
    | Receive(t: Tunnel, ev: Event)
    | Close(t: Tunnel)
    | Advance(t: Tunnel)
    | Upgrade(t: Tunnel, alive: bool)
    | DropManager
    | HangUpDropped(t: Tunnel)
    | ResetCount

  const INIT := State(None, map[], 0, {}, {})

  // ── Steps ────────────────────────────────────────────────────────────

  /** The slot, a `place_call` about to hang it up, or a drop about to do so holds the tunnel. */
  predicate HeldByManager(s: State, t: Tunnel) {
    s.current == Some(t) || t in s.owed || exists u :: u in s.calls && s.calls[u].pc == Placing(Some(t))
  }

  predicate Enabled(s: State, a: Action) {
    match a
    case Place(t) => t !in s.calls
    case ResetCount => true
    case DropManager => s.current.Some? && s.current.value in s.calls
    case HangUpDropped(t) => t in s.owed && t in s.calls
    case HangUpOld(t) =>
      t in s.calls && s.calls[t].pc.Placing? && s.calls[t].pc.prev.Some? && s.calls[t].pc.prev.value in s.calls
    case Spawn(t) => t in s.calls && s.calls[t].pc == Placing(None)
    case Receive(t, _) => t in s.calls && s.calls[t].pc == Waiting
    case Close(t) => t in s.calls && s.calls[t].pc == Waiting
    case Upgrade(t, alive) => t in s.calls && s.calls[t].pc == Upgrading && (HeldByManager(s, t) ==> alive)
    case Advance(t) =>
      t in s.calls && !s.calls[t].pc.Placing? && !s.calls[t].pc.Waiting? && !s.calls[t].pc.Upgrading?
      && !s.calls[t].pc.Done?
  }

  /** What an action of the watcher of `t` does to its call; `inSlot`: whether the slot holds `t`. */
  function Watch(c: Call, a: Action, inSlot: bool): Call {
    match a
    case Spawn(_) => c.(pc := Waiting)
    case Receive(_, ev) =>
      if ev == Up && !c.entered then c.(pc := Entering)
      else if ev == Down then c.(pc := Clearing)
      else c
    case Close(_) => c.(pc := Done(c.entered))
    case Upgrade(_, alive) => c.(pc := if alive then Emitting else Done(true))
    case _ =>
      match c.pc
      case Entering => c.(entered := true, pc := Checking)
      case Checking => c.(pc := if inSlot then Bumping else Done(false))
      case Bumping => c.(pc := Upgrading)
      case Emitting => c.(trace := c.trace + [Connected], pc := Waiting)
      case Clearing => c.(exit := if inSlot then OwnClear else c.exit, pc := Rebalancing(inSlot))
      case Rebalancing(was) => c.(pc := Ending(was))
      case Ending(was) =>
        c.(trace := if was then c.trace + [if c.entered then Disconnected else Failed] else c.trace, pc := Done(false))
      case _ => c
  }

  function Bumped(active: int, delta: int): int { if active + delta < 0 then 0 else active + delta }

  function Remove(calls: map<Tunnel, Call>, current: Option<Tunnel>): map<Tunnel, Call> {
    if current.Some? && current.value in calls then calls[current.value := calls[current.value].(exit := Removed)]
    else calls
  }

  function Next(s: State, a: Action): State
    requires Enabled(s, a)
  {
    match a
    case Place(t) =>
      s.(current := Some(t),
         calls := Remove(s.calls, s.current)[t := Call(Placing(s.current), false, [], InSlot, false)])
    case DropManager =>
      s.(current := None, calls := Remove(s.calls, s.current), owed := s.owed + {s.current.value})
    case ResetCount => s.(active := 0, stale := CountedSet(s.calls))
    case HangUpDropped(t) => s.(calls := s.calls[t := s.calls[t].(hungUp := true)], owed := s.owed - {t})
    case HangUpOld(t) =>
      var prev := s.calls[t].pc.prev.value;
      var calls := s.calls[prev := s.calls[prev].(hungUp := true)];
      s.(calls := calls[t := calls[t].(pc := Placing(None))])
    case _ =>
      var c := s.calls[a.t];
      var inSlot := s.current == Some(a.t);
      s.(calls := s.calls[a.t := Watch(c, a, inSlot)],
         current := if a.Advance? && c.pc == Clearing && inSlot then None else s.current,
         active :=
           if a.Advance? && c.pc == Bumping then Bumped(s.active, 1)
           else if a.Advance? && c.pc.Rebalancing? && c.entered then Bumped(s.active, -1)
           else s.active)
  }

  // ── One call ─────────────────────────────────────────────────────────

  predicate CallOk(c: Call) {
    var sofar := if c.entered then [Connected] else [];
    match c.pc
    case Placing(_) => !c.entered && c.trace == [] && c.exit != OwnClear
    case Waiting => c.trace == sofar && c.exit != OwnClear
    case Entering => !c.entered && c.trace == [] && c.exit != OwnClear
    case Clearing => c.trace == sofar && c.exit != OwnClear
    case Rebalancing(was) => c.trace == sofar && (was <==> c.exit == OwnClear) && (!was ==> c.exit == Removed)
    case Ending(was) => c.trace == sofar && (was <==> c.exit == OwnClear) && (!was ==> c.exit == Removed)
    case Done(leaked) =>
      if c.exit == OwnClear then !leaked && c.trace == if c.entered then [Connected, Disconnected] else [Failed]
      else c.trace == [] || c.trace == [Connected]
    case _ => c.entered && c.trace == [] && c.exit != OwnClear
  }

  /** Whether the call is in the session count. */
  predicate Counted(c: Call) {
    match c.pc
    case Upgrading => true
    case Emitting => true
    case Waiting => c.entered
    case Clearing => c.entered
    case Rebalancing(_) => c.entered
    case Done(leaked) => leaked
    case _ => false
  }

  predicate IsWatch(a: Action) { a.Spawn? || a.Receive? || a.Close? || a.Advance? || a.Upgrade? }

  lemma WatchKeepsCall(s: State, a: Action)
    requires IsWatch(a) && Enabled(s, a) && CallOk(s.calls[a.t])
    requires s.current == Some(a.t) <==> s.calls[a.t].exit == InSlot
    ensures CallOk(Watch(s.calls[a.t], a, s.current == Some(a.t)))
  {
  }

  // ── The session count ────────────────────────────────────────────────

  function CountedSet(calls: map<Tunnel, Call>): set<Tunnel> { set t | t in calls && Counted(calls[t]) }

  function FreshOf(calls: map<Tunnel, Call>, stale: set<Tunnel>): set<Tunnel> {
    set t | t in calls && t !in stale && Counted(calls[t])
  }

  /** The calls in the count that were not in it when it was last reset. */
  function Fresh(s: State): set<Tunnel> { FreshOf(s.calls, s.stale) }

  /** How many of them the count misses. */
  function Missed(s: State): int { |Fresh(s)| - s.active }

  /** The watcher of a counted call takes it out of the count. */
  predicate EndsSession(s: State, a: Action) {
    a.Advance? && a.t in s.calls && s.calls[a.t].pc.Rebalancing? && s.calls[a.t].entered
  }

  /** The set moves with the one call an action changes. */
  lemma FreshMoves(calls: map<Tunnel, Call>, stale: set<Tunnel>, t: Tunnel, c: Call)
    ensures |FreshOf(calls[t := c], stale)| == |FreshOf(calls, stale)|
      - (if t in FreshOf(calls, stale) then 1 else 0) + if Counted(c) && t !in stale then 1 else 0
  {
    hide Counted;
    var rest := FreshOf(calls, stale) - {t};
    assert FreshOf(calls[t := c], stale) == if Counted(c) && t !in stale then rest + {t} else rest;
    assert FreshOf(calls, stale) == if t in FreshOf(calls, stale) then rest + {t} else rest;
  }

  lemma RemoveKeepsFresh(calls: map<Tunnel, Call>, stale: set<Tunnel>, current: Option<Tunnel>)
    ensures FreshOf(Remove(calls, current), stale) == FreshOf(calls, stale)
  {
    var after := Remove(calls, current);
    assert forall t :: t in calls ==> t in after && Counted(after[t]) == Counted(calls[t]);
  }

  /** A call that was in the count at its reset does not enter it again. */
  predicate StaleOk(s: State) {
    forall t :: t in s.stale ==> t in s.calls && StaleCall(s.calls[t])
  }

  predicate StaleCall(c: Call) { Counted(c) || c.pc.Ending? || c.pc.Done? }

  // ── The slot ─────────────────────────────────────────────────────────

  predicate SlotOk(current: Option<Tunnel>, calls: map<Tunnel, Call>) {
    && (current.Some? ==> current.value in calls)
    && forall t :: t in calls ==> (current == Some(t) <==> calls[t].exit == InSlot) && CallOk(calls[t])
  }

  /** Every call taken from the slot by another has been hung up or is about to be. */
  ghost predicate HangUpsOk(s: State) {
    forall t :: t in s.calls && s.calls[t].exit == Removed && !s.calls[t].hungUp ==> t in s.owed || IsOwed(s.calls, t)
  }

  ghost predicate IsOwed(calls: map<Tunnel, Call>, t: Tunnel) {
    exists u :: u in calls && calls[u].pc == Placing(Some(t))
  }

  /** The count is never negative or too high, and is exact if no stale call can disturb it. */
  predicate CountOk(s: State) { StaleOk(s) && 0 <= s.active && 0 <= Missed(s) && (s.stale == {} ==> Missed(s) == 0) }

  ghost predicate Inv(s: State) {
    SlotOk(s.current, s.calls) && CountOk(s) && HangUpsOk(s)
  }

  lemma WatchKeepsSlot(s: State, a: Action)
    requires IsWatch(a) && Enabled(s, a) && SlotOk(s.current, s.calls)
    ensures SlotOk(Next(s, a).current, Next(s, a).calls)
  {
    WatchKeepsCall(s, a);
    var s' := Next(s, a);
    assert forall t :: t in s'.calls && t != a.t ==> t in s.calls && s'.calls[t] == s.calls[t];
  }

  lemma StepKeepsSlot(s: State, a: Action)
    requires Enabled(s, a) && SlotOk(s.current, s.calls)
    ensures SlotOk(Next(s, a).current, Next(s, a).calls)
  {
    hide SlotOk, Watch, Remove;
    if IsWatch(a) {
      WatchKeepsSlot(s, a);
    } else if a.Place? || a.DropManager? {
      TakeKeepsSlot(s, a);
    } else if !a.ResetCount? {
      HangUpKeepsSlot(s, a);
    }
  }

  lemma HangUpKeepsSlot(s: State, a: Action)
    requires Enabled(s, a) && (a.HangUpOld? || a.HangUpDropped?) && SlotOk(s.current, s.calls)
    ensures SlotOk(Next(s, a).current, Next(s, a).calls)
  {
    if a.HangUpDropped? {
      UpdateKeepsSlot(s.current, s.calls, a.t, s.calls[a.t].(hungUp := true));
    } else {
      var prev := s.calls[a.t].pc.prev.value;
      var calls := s.calls[prev := s.calls[prev].(hungUp := true)];
      UpdateKeepsSlot(s.current, s.calls, prev, s.calls[prev].(hungUp := true));
      UpdateKeepsSlot(s.current, calls, a.t, calls[a.t].(pc := Placing(None)));
    }
  }

  lemma UpdateKeepsSlot(current: Option<Tunnel>, calls: map<Tunnel, Call>, t: Tunnel, c: Call)
    requires SlotOk(current, calls) && t in calls && c.exit == calls[t].exit && (CallOk(calls[t]) ==> CallOk(c))
    ensures SlotOk(current, calls[t := c])
  {
    hide CallOk;
  }

  lemma TakeKeepsSlot(s: State, a: Action)
    requires Enabled(s, a) && (a.Place? || a.DropManager?) && SlotOk(s.current, s.calls)
    ensures SlotOk(Next(s, a).current, Next(s, a).calls)
  {
    var calls := Remove(s.calls, s.current);
    assert forall t :: t in calls ==> calls[t].exit != InSlot && CallOk(calls[t]);
  }

  lemma StepKeepsHangUps(s: State, a: Action)
    requires Enabled(s, a) && SlotOk(s.current, s.calls) && HangUpsOk(s)
    ensures HangUpsOk(Next(s, a))
  {
    var s' := Next(s, a);
    forall t | t in s'.calls && s'.calls[t].exit == Removed && !s'.calls[t].hungUp
      ensures t in s'.owed || IsOwed(s'.calls, t)
    {
      if s.current == Some(t) {
        assert a.Place? ==> s'.calls[a.t].pc == Placing(Some(t));
      } else if t !in s.owed {
        var u :| u in s.calls && s.calls[u].pc == Placing(Some(t));
        assert s'.calls[u].pc == Placing(Some(t));
      }
    }
  }

  // ── Steps and the count ──────────────────────────────────────────────

  lemma StepKeepsStale(s: State, a: Action)
    requires Enabled(s, a) && SlotOk(s.current, s.calls) && StaleOk(s)
    ensures StaleOk(Next(s, a))
  {
    var s' := Next(s, a);
    if !a.ResetCount? {
      forall t | t in s'.stale ensures t in s'.calls && StaleCall(s'.calls[t]) {
        assert StaleCall(s.calls[t]);
      }
    }
  }

  /** Exactly what each step does to the number of sessions the count misses: the end of a stale call raises it
      unless the count is zero, a reset clears it, and the end of a fresh call lowers it if the count is zero. */
  lemma MissedExact(s: State, a: Action)
    requires Enabled(s, a) && SlotOk(s.current, s.calls) && StaleOk(s) && s.active >= 0
    ensures Missed(Next(s, a)) ==
      if a.ResetCount? then 0
      else if EndsSession(s, a) && a.t in s.stale && s.active > 0 then Missed(s) + 1
      else if EndsSession(s, a) && a.t !in s.stale && s.active == 0 then Missed(s) - 1
      else Missed(s)
  {
    match a
    case Place(t) =>
      RemoveKeepsFresh(s.calls, s.stale, s.current);
      FreshMoves(Remove(s.calls, s.current), s.stale, t, Next(s, a).calls[t]);
    case DropManager => RemoveKeepsFresh(s.calls, s.stale, s.current);
    case ResetCount => assert Fresh(Next(s, a)) == {};
    case HangUpDropped(t) => FreshMoves(s.calls, s.stale, t, Next(s, a).calls[t]);
    case HangUpOld(t) =>
      var prev := s.calls[t].pc.prev.value;
      var calls := s.calls[prev := s.calls[prev].(hungUp := true)];
      FreshMoves(s.calls, s.stale, prev, calls[prev]);
      FreshMoves(calls, s.stale, t, Next(s, a).calls[t]);
    case _ => WatchMissed(s, a);
  }

  /** A step keeps an exact count exact, except exactly one in which the watcher of a call from before the last
      reset takes it out of a count that is not zero. */
  lemma CountStaysExact(s: State, a: Action)
    requires Inv(s) && Enabled(s, a) && Missed(s) == 0
    ensures Missed(Next(s, a)) == 0 <==> !(EndsSession(s, a) && a.t in s.stale && s.active > 0)
  {
    MissedExact(s, a);
    if EndsSession(s, a) && a.t !in s.stale {
      FreshIs(s, a.t);
      hide Fresh;
      assert a.t in Fresh(s) && |Fresh(s)| >= 1;
    }
  }

  lemma FreshIs(s: State, t: Tunnel)
    requires t in s.calls
    ensures t in FreshOf(s.calls, s.stale) <==> Counted(s.calls[t]) && t !in s.stale
  {
  }

  lemma WatchMissed(s: State, a: Action)
    requires IsWatch(a) && Enabled(s, a) && SlotOk(s.current, s.calls) && StaleOk(s) && s.active >= 0
    ensures Missed(Next(s, a)) ==
      if EndsSession(s, a) && a.t in s.stale && s.active > 0 then Missed(s) + 1
      else if EndsSession(s, a) && a.t !in s.stale && s.active == 0 then Missed(s) - 1
      else Missed(s)
  {
    hide FreshOf, HeldByManager;
    assert a.t in FreshOf(s.calls, s.stale) <==> Counted(s.calls[a.t]) && a.t !in s.stale by { FreshIs(s, a.t); }
    FreshMoves(s.calls, s.stale, a.t, Next(s, a).calls[a.t]);
  }

  lemma StepKeepsCount(s: State, a: Action)
    requires Enabled(s, a) && SlotOk(s.current, s.calls) && CountOk(s)
    ensures CountOk(Next(s, a))
  {
    StepKeepsStale(s, a);
    MissedExact(s, a);
    if EndsSession(s, a) && a.t !in s.stale {
      assert a.t in Fresh(s);
      hide Fresh;
      assert |Fresh(s)| >= 1;
    }
  }

  // ── Whole runs ───────────────────────────────────────────────────────

  function Step(s: State, a: Action): Option<State> { if Enabled(s, a) then Some(Next(s, a)) else None }

  function After(run: seq<Action>): Option<State> { Runs.After(INIT, Step, run) }

  lemma RunKeepsInv(run: seq<Action>)
    requires After(run).Some?
    ensures Inv(After(run).value)
  {
    forall s, a | Inv(s) && Step(s, a).Some? ensures Inv(Step(s, a).value) {
      StepKeepsSlot(s, a);
      StepKeepsCount(s, a);
      StepKeepsHangUps(s, a);
    }
    Runs.Invariant(INIT, Step, Inv, run);
  }

  predicate Terminal(trace: seq<Notice>) { Disconnected in trace || Failed in trace }

  /** In every reachable state: a call's trace has one of four forms; it has its terminal notice exactly
      when the call left the slot through its own watcher, which has finished; and a call that left so
      without finishing is just about to give it. */
  lemma TracesAreOrderly(run: seq<Action>, t: Tunnel)
    requires After(run).Some? && t in After(run).value.calls
    ensures var c := After(run).value.calls[t];
      && c.trace in [[], [Connected], [Connected, Disconnected], [Failed]]
      && (Terminal(c.trace) <==> c.exit == OwnClear && c.pc.Done?)
      && (c.exit == OwnClear && !c.pc.Done? ==> c.pc == Rebalancing(true) || c.pc == Ending(true))
  {
    RunKeepsInv(run);
  }

  /** Steps other than a later `place_call`, the drop, and the arrival of `t`'s own disconnection. */
  function OthersStep(t: Tunnel): (State, Action) -> Option<State> {
    (s: State, a: Action) => if a.Place? || a.DropManager? || a == Receive(t, Down) then None else Step(s, a)
  }

  predicate Settled(s: State, t: Tunnel) {
    s.current == Some(t) && t in s.calls && s.calls[t].pc != Clearing
  }

  /** No number of steps of other calls' watchers evicts the call in the slot: it stays there until it is
      superseded, dropped or disconnected itself. */
  lemma NeverEvictsSuccessor(s: State, t: Tunnel, more: seq<Action>)
    requires Settled(s, t) && Runs.After(s, OthersStep(t), more).Some?
    ensures Settled(Runs.After(s, OthersStep(t), more).value, t)
  {
    forall x, a | Settled(x, t) && OthersStep(t)(x, a).Some? ensures Settled(OthersStep(t)(x, a).value, t) {
    }
    Runs.Invariant(s, OthersStep(t), x => Settled(x, t), more);
  }

  /** The session count is never negative, and never counts more than the calls counted since its last reset.
      With no call left over from before, it is exact, and the clamp at zero never acts; once every watcher has
      finished, it is then the number of those that ended without seeing their own disconnection. */
  lemma SessionsConserved(run: seq<Action>)
    requires After(run).Some?
    ensures var s := After(run).value;
      && 0 <= s.active <= |Fresh(s)|
      && (s.stale == {} ==>
           && s.active == |CountedSet(s.calls)|
           && (forall t :: t in s.calls && s.calls[t].pc.Rebalancing? && s.calls[t].entered ==> s.active >= 1)
           && ((forall t :: t in s.calls ==> s.calls[t].pc.Done?) ==>
                 s.active == |set t | t in s.calls && s.calls[t].pc == Done(true)|))
  {
    RunKeepsInv(run);
    var s := After(run).value;
    if s.stale == {} {
      assert Fresh(s) == CountedSet(s.calls);
      hide Fresh;
      forall t | t in s.calls && s.calls[t].pc.Rebalancing? && s.calls[t].entered ensures s.active >= 1 {
        assert t in CountedSet(s.calls);
      }
      if forall t :: t in s.calls ==> s.calls[t].pc.Done? {
        assert CountedSet(s.calls) == set t | t in s.calls && s.calls[t].pc == Done(true);
      }
    }
  }

  lemma Extend(run: seq<Action>, s: State, a: Action) returns (run': seq<Action>, s': State)
    requires After(run) == Some(s) && Enabled(s, a)
    ensures s' == Next(s, a) && After(run') == Some(s')
  {
    run' := Runs.Extend(INIT, Step, run, s, a);
    s' := Next(s, a);
  }

  /** Placing a call and bringing it up, to the point where it is counted. */
  lemma Connect(run: seq<Action>, s: State, t: Tunnel) returns (run': seq<Action>, s': State)
    requires After(run) == Some(s) && t !in s.calls && s.current.None? && s.active >= 0
    ensures After(run') == Some(s')
    ensures s' == s.(current := Some(t), calls := s.calls[t := Call(Upgrading, true, [], InSlot, false)], active := s.active + 1)
  {
    var c := Call(Placing(None), false, [], InSlot, false);
    run', s' := Extend(run, s, Place(t));
    run', s' := Extend(run', s', Spawn(t));
    run', s' := Extend(run', s', Receive(t, Up));
    assert s' == s.(current := Some(t), calls := s.calls[t := c.(pc := Entering)]);
    run', s' := Extend(run', s', Advance(t));
    run', s' := Extend(run', s', Advance(t));
    run', s' := Extend(run', s', Advance(t));
    assert s'.calls == s.calls[t := Call(Upgrading, true, [], InSlot, false)];
  }

  /** There are such watchers: a call superseded after it was counted, whose tunnel is gone when its watcher
      upgrades its reference, stays counted for good. */
  lemma CountCanLeak() returns (run: seq<Action>, s: State)
    ensures After(run) == Some(s) && s.stale == {}
    ensures 0 in s.calls && s.calls[0].pc == Done(true) && s.calls[0].exit == Removed && s.calls[0].hungUp
  {
    run, s := Connect([], INIT, 0);
    run, s := Extend(run, s, Place(1));
    run, s := Extend(run, s, HangUpOld(1));
    run, s := Extend(run, s, Upgrade(0, false));
  }

  const LEFT_OVER := Call(Waiting, true, [Connected], Removed, true)

  lemma Established() returns (run: seq<Action>)
    ensures After(run) == Some(State(Some(0), map[0 := LEFT_OVER.(exit := InSlot, hungUp := false)], 1, {}, {}))
  {
    var s;
    run, s := Connect([], INIT, 0);
    assert s == State(Some(0), map[0 := Call(Upgrading, true, [], InSlot, false)], 1, {}, {});
    run, s := Extend(run, s, Upgrade(0, true));
    run, s := Extend(run, s, Advance(0));
    assert s.calls[0].trace == [Connected];
    assert s == State(Some(0), map[0 := LEFT_OVER.(exit := InSlot, hungUp := false)], 1, {}, {});
  }

  /** A session of a manager that was dropped, when the next manager has reset the count. */
  lemma LeftOver() returns (run: seq<Action>)
    ensures After(run) == Some(State(None, map[0 := LEFT_OVER], 0, {}, {0}))
  {
    var s := State(Some(0), map[0 := LEFT_OVER.(exit := InSlot, hungUp := false)], 1, {}, {});
    run := Established();
    run, s := Extend(run, s, DropManager);
    assert s == State(None, map[0 := LEFT_OVER.(hungUp := false)], 1, {0}, {});
    run, s := Extend(run, s, HangUpDropped(0));
    assert s.owed == {};
    assert s == State(None, map[0 := LEFT_OVER], 1, {}, {});
    run, s := Extend(run, s, ResetCount);
    assert CountedSet(map[0 := LEFT_OVER]) == {0};
  }

  /** A reset does not make the count forget the calls before it: the end of one of them takes a session that was
      connected since out of the count. */
  lemma StaleEndIsCounted() returns (run: seq<Action>, s: State)
    ensures After(run) == Some(s) && Fresh(s) == {1} && s.current == Some(1) && s.active == 0
  {
    run := LeftOver();
    run, s := Connect(run, State(None, map[0 := LEFT_OVER], 0, {}, {0}), 1);
    var up := Call(Upgrading, true, [], InSlot, false);
    assert s == State(Some(1), map[0 := LEFT_OVER, 1 := up], 1, {}, {0});
    run, s := Extend(run, s, Receive(0, Down));
    assert s == State(Some(1), map[0 := LEFT_OVER.(pc := Clearing), 1 := up], 1, {}, {0});
    run, s := Extend(run, s, Advance(0));
    assert s == State(Some(1), map[0 := LEFT_OVER.(pc := Rebalancing(false)), 1 := up], 1, {}, {0});
    run, s := Extend(run, s, Advance(0));
    assert s == State(Some(1), map[0 := LEFT_OVER.(pc := Ending(false)), 1 := up], 0, {}, {0});
  }

  /** No tunnel is left up behind its successor: once no `place_call` or drop is under way, every call that
      was taken from the slot by another has been hung up. */
  lemma SupersededAreHungUp(run: seq<Action>, t: Tunnel)
    requires After(run).Some?
    requires var s := After(run).value;
      t in s.calls && s.calls[t].exit == Removed && s.owed == {} && forall u :: u in s.calls ==> !s.calls[u].pc.Placing?
    ensures After(run).value.calls[t].hungUp
  {
    RunKeepsInv(run);
  }
}

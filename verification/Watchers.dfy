/** What a call's watcher does with what its tunnel reports: every report has its consequence. */
module Watchers {
  import opened Wrappers
  import opened Calls
  import Runs

  /** The watcher of `t` waits for an event. */
  predicate Waits(s: State, t: Tunnel) { t in s.calls && s.calls[t].pc == Waiting }

  /** `s'` is `s` with `t`'s call replaced. */
  predicate OnlyCall(s: State, s': State, t: Tunnel, c: Call) { s'.calls == s.calls[t := c] }

  lemma ReachedCall(before: seq<Action>, t: Tunnel)
    requires After(before).Some? && Waits(After(before).value, t)
    ensures var s := After(before).value;
      var c := s.calls[t];
      && (s.current == Some(t) <==> c.exit == InSlot) && c.exit != OwnClear
      && c.trace == (if c.entered then [Connected] else []) && s.active >= 0
  {
    RunKeepsInv(before);
  }

  /** A watcher's step, in a state that is some table with its call put into it. */
  lemma WatcherStep(s: State, calls: map<Tunnel, Call>, a: Action, c: Call)
    requires IsWatch(a) && s.calls == calls[a.t := c] && Enabled(s, a)
    ensures var inSlot := s.current == Some(a.t);
      Step(s, a) == Some(s.(
        calls := calls[a.t := Watch(c, a, inSlot)],
        current := if a.Advance? && c.pc == Clearing && inSlot then None else s.current,
        active := if a.Advance? && c.pc == Bumping then Bumped(s.active, 1)
                  else if a.Advance? && c.pc.Rebalancing? && c.entered then Bumped(s.active, -1)
                  else s.active))
  {
    var d := Watch(c, a, s.current == Some(a.t));
    assert s.calls[a.t := d] == calls[a.t := d];
  }

  predicate Moves(c: Call) { !c.pc.Placing? && !c.pc.Waiting? && !c.pc.Upgrading? && !c.pc.Done? }

  lemma CanMove(s: State, t: Tunnel)
    requires t in s.calls
    ensures Moves(s.calls[t]) ==> Enabled(s, Advance(t))
    ensures s.calls[t].pc == Waiting ==> forall ev :: Enabled(s, Receive(t, ev))
    ensures s.calls[t].pc == Upgrading ==> Enabled(s, Upgrade(t, true))
  {
  }

  // ── Disconnection ────────────────────────────────────────────────────

  /** How a call ends when its tunnel disconnects: with Disconnected if Connected was given and with Failed if not,
      if it still held the slot, and silently otherwise. */
  function Ended(c: Call, inSlot: bool): Call {
    var notice := if Connected in c.trace then Disconnected else Failed;
    c.(pc := Done(false), exit := if inSlot then OwnClear else c.exit,
       trace := if inSlot then c.trace + [notice] else c.trace)
  }

  /** In every reachable state in which the watcher of `t` waits, a disconnection and the watcher's own three steps
      finish the call. The slot is emptied if the call held it and left alone if not, one session is taken out of
      the count if Connected had been given, and no other call changes. */
  lemma DisconnectionEnds(before: seq<Action>, t: Tunnel) returns (s': State)
    requires After(before).Some? && Waits(After(before).value, t)
    ensures var s := After(before).value;
      var inSlot := s.current == Some(t);
      && Runs.After(s, Step, [Receive(t, Down), Advance(t), Advance(t), Advance(t)]) == Some(s')
      && OnlyCall(s, s', t, Ended(s.calls[t], inSlot))
      && s'.current == (if inSlot then None else s.current)
      && s'.active == (if Connected in s.calls[t].trace && s.active > 0 then s.active - 1 else s.active)
      && s'.owed == s.owed && s'.stale == s.stale
  {
    ReachedCall(before, t);
    s' := Disconnect(After(before).value, t);
  }

  function Exited(s: State, t: Tunnel): Call
    requires t in s.calls
  {
    s.calls[t].(exit := if s.current == Some(t) then OwnClear else s.calls[t].exit)
  }

  function AfterClear(s: State, t: Tunnel): State
    requires t in s.calls
  {
    s.(current := if s.current == Some(t) then None else s.current,
       calls := s.calls[t := Exited(s, t).(pc := Rebalancing(s.current == Some(t)))])
  }

  function AfterRebalance(s: State, t: Tunnel): State
    requires t in s.calls
  {
    AfterClear(s, t).(calls := s.calls[t := Exited(s, t).(pc := Ending(s.current == Some(t)))],
                      active := if s.calls[t].entered && s.active > 0 then s.active - 1 else s.active)
  }

  lemma Clears(s: State, t: Tunnel)
    requires Waits(s, t)
    ensures Runs.After(s, Step, [Receive(t, Down), Advance(t)]) == Some(AfterClear(s, t))
  {
    hide Step, Next, Enabled;
    var c := s.calls[t];
    var s1 := s.(calls := s.calls[t := c.(pc := Clearing)]);
    assert s.calls == s.calls[t := c];
    CanMove(s, t);
    CanMove(s1, t);
    WatcherStep(s, s.calls, Receive(t, Down), c);
    WatcherStep(s1, s.calls, Advance(t), s1.calls[t]);
    Runs.Two(s, Step, Receive(t, Down), s1, Advance(t), AfterClear(s, t));
  }

  lemma Rebalances(s: State, t: Tunnel)
    requires Waits(s, t) && s.active >= 0
    ensures Step(AfterClear(s, t), Advance(t)) == Some(AfterRebalance(s, t))
  {
    hide Step, Next, Enabled;
    var s2 := AfterClear(s, t);
    CanMove(s2, t);
    WatcherStep(s2, s.calls, Advance(t), s2.calls[t]);
  }

  lemma Gives(s: State, t: Tunnel)
    requires Waits(s, t) && s.calls[t].trace == if s.calls[t].entered then [Connected] else []
    ensures Step(AfterRebalance(s, t), Advance(t))
      == Some(AfterRebalance(s, t).(calls := s.calls[t := Ended(s.calls[t], s.current == Some(t))]))
  {
    hide Step, Next, Enabled;
    var s3 := AfterRebalance(s, t);
    CanMove(s3, t);
    WatcherStep(s3, s.calls, Advance(t), s3.calls[t]);
  }

  lemma Disconnect(s: State, t: Tunnel) returns (s': State)
    requires Waits(s, t) && s.active >= 0
    requires s.calls[t].trace == if s.calls[t].entered then [Connected] else []
    ensures var inSlot := s.current == Some(t);
      && Runs.After(s, Step, [Receive(t, Down), Advance(t), Advance(t), Advance(t)]) == Some(s')
      && s' == s.(current := if inSlot then None else s.current, calls := s.calls[t := Ended(s.calls[t], inSlot)],
                  active := if Connected in s.calls[t].trace && s.active > 0 then s.active - 1 else s.active)
  {
    hide Step, Ended;
    s' := AfterRebalance(s, t).(calls := s.calls[t := Ended(s.calls[t], s.current == Some(t))]);
    Clears(s, t);
    Rebalances(s, t);
    Gives(s, t);
    Runs.Two(AfterClear(s, t), Step, Advance(t), AfterRebalance(s, t), Advance(t), s');
    var run := Runs.Concat(s, Step, [Receive(t, Down), Advance(t)], AfterClear(s, t), [Advance(t), Advance(t)]);
    assert run == [Receive(t, Down), Advance(t), Advance(t), Advance(t)];
  }

  /** The watcher has seen its tunnel disconnect, and is finishing or has finished. */
  predicate PastDown(c: Call) { c.pc.Clearing? || c.pc.Rebalancing? || c.pc.Ending? || c.pc.Done? }

  /** Over every run: no watcher waits on after a disconnection. */
  lemma {:induction false} DownIsHeeded(run: seq<Action>, t: Tunnel)
    requires After(run).Some? && Receive(t, Down) in run
    ensures t in After(run).value.calls && PastDown(After(run).value.calls[t])
  {
    var front, a := run[..|run| - 1], run[|run| - 1];
    assert run == front + [a];
    var s := After(front).value;
    if Receive(t, Down) in front {
      DownIsHeeded(front, t);
      StaysPastDown(s, a, t);
    }
  }

  lemma StaysPastDown(s: State, a: Action, t: Tunnel)
    requires Enabled(s, a) && t in s.calls && PastDown(s.calls[t])
    ensures t in Next(s, a).calls && PastDown(Next(s, a).calls[t])
  {
  }

  // ── Connection ───────────────────────────────────────────────────────

  /** A first connection of the call in the slot is counted and told to the application; the watcher then waits on. */
  lemma ConnectionIsTold(before: seq<Action>, t: Tunnel) returns (s': State)
    requires After(before).Some? && Waits(After(before).value, t)
    requires After(before).value.calls[t].trace == [] && After(before).value.current == Some(t)
    ensures var s := After(before).value;
      && Runs.After(s, Step, [Receive(t, Up), Advance(t), Advance(t), Advance(t)] + [Upgrade(t, true), Advance(t)]) == Some(s')
      && OnlyCall(s, s', t, s.calls[t].(entered := true, trace := [Connected]))
      && s'.current == Some(t) && s'.active == s.active + 1 && s'.owed == s.owed && s'.stale == s.stale
  {
    ReachedCall(before, t);
    s' := ConnectFirst(After(before).value, t);
  }

  lemma ConnectFirst(s: State, t: Tunnel) returns (s': State)
    requires Waits(s, t) && s.active >= 0 && s.current == Some(t) && !s.calls[t].entered && s.calls[t].trace == []
    ensures Runs.After(s, Step, [Receive(t, Up), Advance(t), Advance(t), Advance(t)] + [Upgrade(t, true), Advance(t)]) == Some(s')
    ensures s' == s.(calls := s.calls[t := s.calls[t].(entered := true, trace := [Connected])], active := s.active + 1)
  {
    hide Step, Next, Enabled;
    var c := s.calls[t];
    var d := c.(entered := true);
    var s1 := s.(calls := s.calls[t := c.(pc := Entering)]);
    var s2 := s.(calls := s.calls[t := d.(pc := Checking)]);
    var s3 := s.(calls := s.calls[t := d.(pc := Bumping)]);
    var s4 := s.(calls := s.calls[t := d.(pc := Upgrading)], active := s.active + 1);
    var s5 := s4.(calls := s.calls[t := d.(pc := Emitting)]);
    s' := s4.(calls := s.calls[t := d.(trace := [Connected])]);
    assert s.calls == s.calls[t := c] && c.trace + [Connected] == [Connected];
    CanMove(s, t);
    CanMove(s1, t);
    CanMove(s2, t);
    CanMove(s3, t);
    CanMove(s4, t);
    CanMove(s5, t);
    WatcherStep(s, s.calls, Receive(t, Up), c);
    WatcherStep(s1, s.calls, Advance(t), s1.calls[t]);
    WatcherStep(s2, s.calls, Advance(t), s2.calls[t]);
    WatcherStep(s3, s.calls, Advance(t), s3.calls[t]);
    WatcherStep(s4, s.calls, Upgrade(t, true), s4.calls[t]);
    WatcherStep(s5, s.calls, Advance(t), s5.calls[t]);
    Runs.Four(s, Step, Receive(t, Up), s1, Advance(t), s2, Advance(t), s3, Advance(t), s4);
    Runs.Two(s4, Step, Upgrade(t, true), s5, Advance(t), s');
    var run := Runs.Concat(s, Step, [Receive(t, Up), Advance(t), Advance(t), Advance(t)], s4, [Upgrade(t, true), Advance(t)]);
  }

  /** A first connection of a call that was superseded is neither counted nor told, and its watcher finishes. */
  lemma SupersededIsSilent(before: seq<Action>, t: Tunnel) returns (s': State)
    requires After(before).Some? && Waits(After(before).value, t)
    requires After(before).value.calls[t].trace == [] && After(before).value.current != Some(t)
    ensures var s := After(before).value;
      && Runs.After(s, Step, [Receive(t, Up), Advance(t)] + [Advance(t)]) == Some(s')
      && s' == s.(calls := s.calls[t := s.calls[t].(entered := true, pc := Done(false))])
  {
    ReachedCall(before, t);
    var s := After(before).value;
    var c := s.calls[t];
    var s1 := s.(calls := s.calls[t := c.(pc := Entering)]);
    var s2 := s.(calls := s.calls[t := c.(entered := true, pc := Checking)]);
    s' := s.(calls := s.calls[t := c.(entered := true, pc := Done(false))]);
    assert Step(s, Receive(t, Up)) == Some(s1);
    assert Step(s1, Advance(t)) == Some(s2) by { assert s1.calls[t := s2.calls[t]] == s2.calls; }
    assert Step(s2, Advance(t)) == Some(s') by { assert s2.calls[t := s'.calls[t]] == s'.calls; }
    hide Step, After;
    Runs.Two(s, Step, Receive(t, Up), s1, Advance(t), s2);
    var one := Runs.Extend(s2, Step, [], s2, Advance(t));
    assert one == [Advance(t)];
    var run := Runs.Concat(s, Step, [Receive(t, Up), Advance(t)], s2, one);
  }

  /** A second connection, and every other event, is passed over. */
  lemma OthersAreIgnored(s: State, t: Tunnel, ev: Event)
    requires Waits(s, t) && (ev == Other || (ev == Up && s.calls[t].entered))
    ensures Step(s, Receive(t, ev)) == Some(s)
  {
    assert s.calls[t := s.calls[t]] == s.calls;
  }

  // ── Placing ──────────────────────────────────────────────────────────

  /** A new call takes the slot, hangs up the one it took it from, and its watcher comes to wait. */
  lemma CallIsPlaced(before: seq<Action>, t: Tunnel, prev: Tunnel) returns (s': State)
    requires After(before).Some? && t !in After(before).value.calls && After(before).value.current == Some(prev)
    ensures var s := After(before).value;
      && Runs.After(s, Step, [Place(t), HangUpOld(t)] + [Spawn(t)]) == Some(s')
      && prev in s.calls && prev != t && s'.current == Some(t) && s'.active == s.active
      && s'.calls == s.calls[prev := s.calls[prev].(exit := Removed, hungUp := true)]
                            [t := Call(Waiting, false, [], InSlot, false)]
  {
    RunKeepsInv(before);
    var s := After(before).value;
    hide After;
    var p := s.calls[prev];
    var c := Call(Placing(Some(prev)), false, [], InSlot, false);
    var calls2 := s.calls[prev := p.(exit := Removed, hungUp := true)];
    var s1 := s.(current := Some(t), calls := s.calls[prev := p.(exit := Removed)][t := c]);
    var s2 := s1.(calls := calls2[t := c.(pc := Placing(None))]);
    s' := s1.(calls := calls2[t := c.(pc := Waiting)]);
    assert Step(s, Place(t)) == Some(s1);
    assert Step(s1, HangUpOld(t)) == Some(s2) by {
      assert s1.calls[prev := s2.calls[prev]][t := s2.calls[t]] == s2.calls;
    }
    assert Step(s2, Spawn(t)) == Some(s') by { assert s2.calls[t := s'.calls[t]] == s'.calls; }
    hide Step;
    Runs.Two(s, Step, Place(t), s1, HangUpOld(t), s2);
    var one := Runs.Extend(s2, Step, [], s2, Spawn(t));
    assert one == [Spawn(t)];
    var run := Runs.Concat(s, Step, [Place(t), HangUpOld(t)], s2, one);
  }

  /** Dropping the manager empties the slot and hangs its call up. */
  lemma DropHangsUp(before: seq<Action>, t: Tunnel) returns (s': State)
    requires After(before).Some? && After(before).value.current == Some(t)
    ensures var s := After(before).value;
      && Runs.After(s, Step, [DropManager, HangUpDropped(t)]) == Some(s')
      && s'.current == None && t in s.calls && s'.active == s.active
      && s'.calls == s.calls[t := s.calls[t].(exit := Removed, hungUp := true)]
  {
    RunKeepsInv(before);
    var s := After(before).value;
    hide After;
    var s1 := Next(s, DropManager);
    s' := Next(s1, HangUpDropped(t));
    assert s'.calls == s.calls[t := s.calls[t].(exit := Removed, hungUp := true)];
    Runs.Two(s, Step, DropManager, s1, HangUpDropped(t), s');
  }
}

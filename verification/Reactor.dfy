/** The reactor's handler table. Deregistration takes a source out of the poll at once but removes its
    handler only between events; the table must still behave as if it were removed at once. */
module Reactor {
  import opened Bytes

  const WAKER_TOKEN: nat := 0xffff_ffff_ffff_ffff

  type Token = nat

  /** What a handler, a posted task or the tick does to the table. */
  datatype Command = Register | Deregister(t: Token)

  /** A wakeup with the commands of the tasks then in the queue, or a ready source with the commands of its
      handler, should that be invoked. */
  datatype Event = Wakeup(tasks: seq<Command>) | Ready(t: Token, script: seq<Command>)

  datatype Entry = Registered(t: Token) | Deregistered(t: Token) | Invoked(t: Token)

  // ── The ideal reactor: removal at once ───────────────────────────────

  datatype Ideal = Ideal(live: set<Token>, next: nat, log: seq<Entry>)

  function Do(s: Ideal, c: Command): Ideal {
    match c
    case Register => Ideal(s.live + {s.next}, s.next + 1, s.log + [Registered(s.next)])
    case Deregister(t) => Ideal(s.live - {t}, s.next, s.log + [Deregistered(t)])
  }

  function DoAll(s: Ideal, cs: seq<Command>): Ideal {
    if cs == [] then s else Do(DoAll(s, cs[..|cs| - 1]), cs[|cs| - 1])
  }

  /** An event whose source was deregistered earlier in the batch is skipped. */
  function On(s: Ideal, ev: Event): Ideal {
    match ev
    case Wakeup(tasks) => DoAll(s, tasks)
    case Ready(t, script) => if t in s.live then DoAll(s.(log := s.log + [Invoked(t)]), script) else s
  }

  function OnAll(s: Ideal, evs: seq<Event>): Ideal {
    if evs == [] then s else On(OnAll(s, evs[..|evs| - 1]), evs[|evs| - 1])
  }

  /** Callers deregister tokens they were given, and there are fewer than 2^64 - 2 registrations. */
  predicate Allowed(s: Ideal, c: Command) {
    match c
    case Register => s.next < WAKER_TOKEN
    case Deregister(t) => 1 <= t < s.next
  }

  predicate AllAllowed(s: Ideal, cs: seq<Command>) {
    forall i :: 0 <= i < |cs| ==> Allowed(DoAll(s, cs[..i]), cs[i])
  }

  predicate EventAllowed(s: Ideal, ev: Event) {
    match ev
    case Wakeup(tasks) => AllAllowed(s, tasks)
    case Ready(t, script) => t in s.live ==> AllAllowed(s.(log := s.log + [Invoked(t)]), script)
  }

  predicate BatchAllowed(s: Ideal, evs: seq<Event>) {
    forall i :: 0 <= i < |evs| ==> EventAllowed(OnAll(s, evs[..i]), evs[i])
  }

  /** Once deregistered, a token is neither invoked nor given out again. */
  predicate Orderly(log: seq<Entry>) {
    forall i, j :: 0 <= i < j < |log| && log[i].Deregistered? && log[j].t == log[i].t ==> log[j].Deregistered?
  }

  predicate Sound(s: Ideal) {
    && Orderly(s.log)
    && 1 <= s.next
    && (forall t :: t in s.live ==> 1 <= t < s.next && Deregistered(t) !in s.log)
    && (forall e :: e in s.log ==> e.t < s.next)
  }

  lemma DoKeepsSound(s: Ideal, c: Command)
    requires Sound(s) && Allowed(s, c)
    ensures Sound(Do(s, c))
  {
  }

  lemma InvokeKeepsSound(s: Ideal, t: Token)
    requires Sound(s) && t in s.live
    ensures Sound(s.(log := s.log + [Invoked(t)]))
  {
    assert forall i :: 0 <= i < |s.log| ==> s.log[i] in s.log;
  }

  // ── What is logged ───────────────────────────────────────────────────

  function Registrations(log: seq<Entry>): nat {
    if log == [] then 0 else Registrations(log[..|log| - 1]) + if log[|log| - 1].Registered? then 1 else 0
  }

  lemma {:induction false} RegistrationsAppend(a: seq<Entry>, b: seq<Entry>)
    ensures Registrations(a + b) == Registrations(a) + Registrations(b)
  {
    if b == [] {
      assert a + b == a;
    } else {
      RegistrationsAppend(a, b[..|b| - 1]);
      assert (a + b)[..|a + b| - 1] == a + b[..|b| - 1];
    }
  }

  /** One entry per command, in order; each registration gets the next token, counting from `next`. */
  function Entries(cs: seq<Command>, next: nat): seq<Entry> {
    if cs == [] then []
    else
      var front, c := Entries(cs[..|cs| - 1], next), cs[|cs| - 1];
      front + [if c.Register? then Registered(next + Registrations(front)) else Deregistered(c.t)]
  }

  /** What an event adds after `added`: the commands of a wakeup's tasks; for a ready source, its invocation and then
      the commands of its handler; and nothing if its token was deregistered earlier in the batch. */
  function Block(added: seq<Entry>, next: nat, ev: Event): seq<Entry> {
    match ev
    case Wakeup(tasks) => Entries(tasks, next + Registrations(added))
    case Ready(t, script) =>
      if Deregistered(t) in added then [] else [Invoked(t)] + Entries(script, next + Registrations(added))
  }

  /** What a batch adds, event by event. */
  function Trace(evs: seq<Event>, next: nat): seq<Entry> {
    if evs == [] then []
    else
      var front := Trace(evs[..|evs| - 1], next);
      front + Block(front, next, evs[|evs| - 1])
  }

  // ── The reactor ──────────────────────────────────────────────────────

  class Dispatcher {
    var handlers: set<Token>
    var pendingRemove: seq<Token>
    var nextToken: U64
    /** What the ideal reactor would have come to. */
    ghost var ideal: Ideal

    /** The handlers that are not about to be removed are those of the live tokens. */
    ghost predicate Valid()
      reads this
    {
      && Sound(ideal)
      && nextToken == ideal.next <= WAKER_TOKEN
      && (forall t :: t in ideal.live <==> t in handlers && t !in pendingRemove)
      && (forall t :: t in pendingRemove ==> t < ideal.next)
      && (forall t :: t in handlers ==> t < ideal.next)
    }

    constructor ()
      ensures Valid() && ideal == Ideal({}, 1, []) && pendingRemove == []
    {
      handlers, pendingRemove, nextToken, ideal := {}, [], 1, Ideal({}, 1, []);
    }

    /** The tokens count up from the counter; instead of the waker's, the count starts again from 0. */
    method AllocToken() returns (t: U64)
      modifies this`nextToken
      ensures t == if old(nextToken) == WAKER_TOKEN then 0 else old(nextToken)
      ensures nextToken == t + 1 <= WAKER_TOKEN
    {
      t := nextToken;
      nextToken := (nextToken as int + 1) % 0x1_0000_0000_0000_0000;
      if t == WAKER_TOKEN {
        t := nextToken;
        nextToken := (nextToken as int + 1) % 0x1_0000_0000_0000_0000;
      }
    }

    method RegisterSource() returns (t: Token)
      requires Valid() && Allowed(ideal, Command.Register)
      modifies this
      ensures Valid() && ideal == Do(old(ideal), Command.Register) && pendingRemove == old(pendingRemove)
      ensures t == old(ideal.next)
    {
      DoKeepsSound(ideal, Command.Register);
      t := AllocToken();
      handlers := handlers + {t};
      ideal := Do(ideal, Command.Register);
    }

    /** The handler stays in the table until the next drain. */
    method DeregisterSource(t: Token)
      requires Valid() && Allowed(ideal, Deregister(t))
      modifies this
      ensures Valid() && ideal == Do(old(ideal), Deregister(t)) && handlers == old(handlers)
    {
      DoKeepsSound(ideal, Deregister(t));
      pendingRemove := pendingRemove + [t];
      ideal := Do(ideal, Deregister(t));
    }

    /** Removes no handler of a live token, and leaves no other. */
    method DrainPendingRemoves()
      requires Valid()
      modifies this`handlers, this`pendingRemove
      ensures Valid() && pendingRemove == [] && handlers == ideal.live
    {
      var pending := pendingRemove;
      pendingRemove := [];
      for i := 0 to |pending|
        invariant pendingRemove == []
        invariant forall t :: t in handlers <==> t in old(handlers) && t !in pending[..i]
      {
        handlers := handlers - {pending[i]};
      }
      assert pending[..|pending|] == pending;
      assert forall t :: t in handlers <==> t in ideal.live;
    }

    method Execute(cs: seq<Command>)
      requires Valid() && AllAllowed(ideal, cs)
      modifies this
      ensures Valid() && ideal == DoAll(old(ideal), cs)
    {
      for i := 0 to |cs|
        invariant Valid() && ideal == DoAll(old(ideal), cs[..i])
      {
        assert cs[..i + 1][..i] == cs[..i];
        if cs[i].Register? {
          var _ := RegisterSource();
        } else {
          DeregisterSource(cs[i].t);
        }
      }
      assert cs[..|cs|] == cs;
    }

    /** One event of a batch. A token with a removal outstanding may not be polled. */
    method Dispatch(ev: Event)
      requires Valid() && EventAllowed(ideal, ev) && (ev.Ready? ==> ev.t !in pendingRemove)
      modifies this
      ensures Valid() && pendingRemove == [] && ideal == On(old(ideal), ev)
    {
      match ev {
        case Wakeup(tasks) => Execute(tasks);
        case Ready(t, script) =>
          if t in handlers {
            InvokeKeepsSound(ideal, t);
            ideal := ideal.(log := ideal.log + [Invoked(t)]);
            Execute(script);
          }
      }
      DrainPendingRemoves();
    }

    /** A whole batch, given that the poll reports only sources registered at that time: exactly what removal
        at once would have done. */
    method RunBatch(evs: seq<Event>)
      requires Valid() && BatchAllowed(ideal, evs)
      requires forall i :: 0 <= i < |evs| && evs[i].Ready? ==> evs[i].t in ideal.live
      modifies this
      ensures Valid() && ideal == OnAll(old(ideal), evs)
      ensures ideal.log == old(ideal.log) + Trace(evs, old(ideal.next))
      ensures evs != [] ==> pendingRemove == []
    {
      BatchLogs(ideal, evs);
      for i := 0 to |evs|
        invariant Valid() && ideal == OnAll(old(ideal), evs[..i])
        invariant i > 0 ==> pendingRemove == []
        invariant i == 0 ==> pendingRemove == old(pendingRemove) && handlers == old(handlers)
      {
        assert evs[..i + 1][..i] == evs[..i];
        Dispatch(evs[i]);
      }
      assert evs[..|evs|] == evs;
    }
  }

  // ── What the ideal reactor guarantees ────────────────────────────────

  lemma {:induction false} DoAllKeepsSound(s: Ideal, cs: seq<Command>)
    requires Sound(s) && AllAllowed(s, cs)
    ensures Sound(DoAll(s, cs))
  {
    if cs != [] {
      var front := cs[..|cs| - 1];
      forall i | 0 <= i < |front| ensures Allowed(DoAll(s, front[..i]), front[i]) {
        assert front[..i] == cs[..i];
      }
      DoAllKeepsSound(s, front);
      DoKeepsSound(DoAll(s, front), cs[|cs| - 1]);
    }
  }

  /** Across every batch of events and commands: no handler is invoked after its token was deregistered, and
      no token is given out twice. */
  lemma {:induction false} BatchKeepsSound(s: Ideal, evs: seq<Event>)
    requires Sound(s) && BatchAllowed(s, evs)
    ensures Sound(OnAll(s, evs))
  {
    if evs != [] {
      var front, ev := evs[..|evs| - 1], evs[|evs| - 1];
      forall i | 0 <= i < |front| ensures EventAllowed(OnAll(s, front[..i]), front[i]) {
        assert front[..i] == evs[..i];
      }
      BatchKeepsSound(s, front);
      var s' := OnAll(s, front);
      match ev
      case Wakeup(tasks) => DoAllKeepsSound(s', tasks);
      case Ready(t, script) =>
        if t in s'.live {
          InvokeKeepsSound(s', t);
          DoAllKeepsSound(s'.(log := s'.log + [Invoked(t)]), script);
        }
    }
  }

  /** `s'` follows `s`: the log only grows, and a token that is no longer live was deregistered since. */
  predicate Follows(s: Ideal, s': Ideal) {
    && s.log <= s'.log
    && forall t :: t in s.live && t !in s'.live ==> Deregistered(t) in s'.log[|s.log|..]
  }

  lemma FollowsTrans(a: Ideal, b: Ideal, c: Ideal)
    requires Follows(a, b) && Follows(b, c)
    ensures Follows(a, c)
  {
    assert c.log[|a.log|..|b.log|] == b.log[|a.log|..];
    assert c.log[|a.log|..] == b.log[|a.log|..] + c.log[|b.log|..];
  }

  lemma DoFollows(s: Ideal, c: Command)
    ensures Follows(s, Do(s, c))
  {
    assert c.Deregister? ==> Do(s, c).log[|s.log|..] == [Deregistered(c.t)];
  }

  lemma {:induction false} DoAllFollows(s: Ideal, cs: seq<Command>)
    ensures Follows(s, DoAll(s, cs))
  {
    if cs != [] {
      var s' := DoAll(s, cs[..|cs| - 1]);
      DoAllFollows(s, cs[..|cs| - 1]);
      DoFollows(s', cs[|cs| - 1]);
      FollowsTrans(s, s', DoAll(s, cs));
    }
  }

  /** An event is skipped only if its token was deregistered earlier in the batch. */
  lemma {:induction false} SkippedOnlyIfDeregistered(s: Ideal, evs: seq<Event>)
    ensures Follows(s, OnAll(s, evs))
  {
    if evs != [] {
      var s', ev := OnAll(s, evs[..|evs| - 1]), evs[|evs| - 1];
      SkippedOnlyIfDeregistered(s, evs[..|evs| - 1]);
      match ev {
        case Wakeup(tasks) => DoAllFollows(s', tasks);
        case Ready(t, script) =>
          if t in s'.live {
            var s1 := s'.(log := s'.log + [Invoked(t)]);
            DoAllFollows(s1, script);
            FollowsTrans(s', s1, DoAll(s1, script));
          }
      }
      FollowsTrans(s, s', OnAll(s, evs));
    }
  }

  lemma {:induction false} DoAllLogs(s: Ideal, cs: seq<Command>)
    ensures DoAll(s, cs).log == s.log + Entries(cs, s.next)
    ensures DoAll(s, cs).next == s.next + Registrations(Entries(cs, s.next))
  {
    if cs != [] {
      var front := cs[..|cs| - 1];
      DoAllLogs(s, front);
      var e := Entries(front, s.next);
      assert Entries(cs, s.next)[..|e|] == e;
    }
  }

  lemma OnLogs(s: Ideal, ev: Event, added: seq<Entry>, next: nat)
    requires s.next == next + Registrations(added)
    requires ev.Ready? ==> (ev.t in s.live <==> Deregistered(ev.t) !in added)
    ensures On(s, ev).log == s.log + Block(added, next, ev)
    ensures On(s, ev).next == next + Registrations(added + Block(added, next, ev))
  {
    hide Entries, Registrations, DoAll;
    RegistrationsAppend(added, Block(added, next, ev));
    match ev
    case Wakeup(tasks) => DoAllLogs(s, tasks);
    case Ready(t, script) =>
      if t in s.live {
        DoAllLogs(s.(log := s.log + [Invoked(t)]), script);
        RegistrationsAppend([Invoked(t)], Entries(script, s.next));
        NoRegistration(t);
      } else {
        assert added + [] == added;
        assert s.log + [] == s.log;
      }
  }

  lemma NoRegistration(t: Token)
    ensures Registrations([Invoked(t)]) == 0
  {
    assert [Invoked(t)][..0] == [];
  }

  /** A batch adds to the log exactly what its events say, given that the poll reports only live sources: every
      handler whose token was not deregistered earlier in the batch is invoked, once and in order. */
  lemma {:induction false} BatchLogs(s: Ideal, evs: seq<Event>)
    requires Sound(s) && BatchAllowed(s, evs)
    requires forall i :: 0 <= i < |evs| && evs[i].Ready? ==> evs[i].t in s.live
    ensures OnAll(s, evs).log == s.log + Trace(evs, s.next)
    ensures OnAll(s, evs).next == s.next + Registrations(Trace(evs, s.next))
  {
    hide Sound, BatchAllowed, On, Block, Follows;
    if evs == [] {
      assert s.log + [] == s.log;
    } else {
      var front, ev := evs[..|evs| - 1], evs[|evs| - 1];
      FrontAllowed(s, evs);
      BatchLogs(s, front);
      BatchKeepsSound(s, front);
      SkippedOnlyIfDeregistered(s, front);
      var s', added := OnAll(s, front), Trace(front, s.next);
      assert s'.log[|s.log|..] == added;
      if ev.Ready? { LiveIffNotDeregistered(s, s', added, ev.t); }
      OnLogs(s', ev, added, s.next);
      assert s.log + added + Block(added, s.next, ev) == s.log + (added + Block(added, s.next, ev));
    }
  }

  lemma FrontAllowed(s: Ideal, evs: seq<Event>)
    requires evs != [] && BatchAllowed(s, evs)
    ensures BatchAllowed(s, evs[..|evs| - 1])
  {
    var front := evs[..|evs| - 1];
    hide EventAllowed, OnAll;
    forall i | 0 <= i < |front| ensures EventAllowed(OnAll(s, front[..i]), front[i]) {
      assert front[..i] == evs[..i];
    }
  }

  lemma LiveIffNotDeregistered(s: Ideal, s': Ideal, added: seq<Entry>, t: Token)
    requires Sound(s') && Follows(s, s') && s'.log == s.log + added && t in s.live
    ensures t in s'.live <==> Deregistered(t) !in added
  {
    assert s'.log[|s.log|..] == added;
  }
}

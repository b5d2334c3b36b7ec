/** The table of pending RPCs: calls wait for the response with their index, a timeout or a drain. */
module Rpc {
  import opened Wrappers
  import Runs
  import opened Bytes
  import opened Proto
  import opened Messages

  /** Calls are named by the order in which they took their index. */
  type CallId = nat

  const MAX_CALLS: nat := 0x1_0000_0000

  /** What a call returns: the response's payload, its error, or one of the table's own failures. */
  datatype Reply = Success(payload: seq<U8>) | Rejected(e: RpcError) | NotConnected | TimedOut | Canceled

  /** The one-shot channel from the table to the caller. */
  datatype Channel = Open | Sent(reply: Reply) | Closed

  /** `Removing` has its reply and has yet to clear its entry. `Abandoned`: the caller dropped the call while
      it waited. */
  datatype Pc = Started | Inserted | Awaiting | Removing(r: Reply) | Returned(r: Reply) | Abandoned

  /** `since`: how many responses had arrived when the call entered the table. */
  datatype Call = Call(pc: Pc, chan: Channel, since: nat)

  /** `inHand`: responders taken out of the table, about to be answered or dropped. `frames` is the history of
      responses and `matched` which of them each call got. */
  datatype State = State(
    calls: seq<Call>, pending: map<int, CallId>, inHand: map<CallId, Option<Reply>>,
    frames: seq<RpcResponse>, matched: map<CallId, nat>)

  datatype Action =
    | Start
    | Insert(n: CallId)
    | Send(n: CallId, ok: bool)
    | Resolve(n: CallId)
    | Timeout(n: CallId)
    | Abandon(n: CallId)
    | Remove(n: CallId)
    | Dispatch(resp: RpcResponse)
    | Drain
    | Release(n: CallId)

  const INIT := State([], map[], map[], [], map[])

  /** The index of the `n`th call: a 32-bit counter from 1, wrapping. */
  function Idx(n: CallId): int { AsI32(n + 1) }

  lemma IdxInjective(m: CallId, n: CallId)
    requires m < MAX_CALLS && n < MAX_CALLS && Idx(m) == Idx(n)
    ensures m == n
  {
  }

  /** An error wins over a payload, and a response with neither is an empty success. */
  function ReplyOf(resp: RpcResponse): Reply {
    if resp.error.Some? then Rejected(ParseRpcError(resp.error.value, RpcError(0, [])))
    else if resp.payload.Some? then Success(resp.payload.value)
    else Success([])
  }

  // ── Steps ────────────────────────────────────────────────────────────

  predicate At(s: State, n: CallId, pc: Pc) { n < |s.calls| && s.calls[n].pc == pc }

  predicate Enabled(s: State, a: Action) {
    match a
    case Start => |s.calls| < MAX_CALLS
    case Insert(n) => At(s, n, Started)
    case Send(n, _) => At(s, n, Inserted)
    case Resolve(n) => At(s, n, Awaiting) && !s.calls[n].chan.Open?
    case Timeout(n) => At(s, n, Awaiting)
    case Abandon(n) => At(s, n, Awaiting)
    case Remove(n) => n < |s.calls| && s.calls[n].pc.Removing?
    case Dispatch(_) => true
    case Drain => true
    case Release(n) => n in s.inHand && n < |s.calls|
  }

  function Goto(s: State, n: CallId, pc: Pc): State
    requires n < |s.calls|
  {
    s.(calls := s.calls[n := s.calls[n].(pc := pc)])
  }

  function Waiting(pending: map<int, CallId>): set<CallId> { set i | i in pending :: pending[i] }

  function Next(s: State, a: Action): State
    requires Enabled(s, a)
  {
    match a
    case Start => s.(calls := s.calls + [Call(Started, Open, 0)])
    case Insert(n) =>
      s.(calls := s.calls[n := Call(Inserted, s.calls[n].chan, |s.frames|)], pending := s.pending[Idx(n) := n])
    case Send(n, ok) => Goto(s, n, if ok then Awaiting else Removing(NotConnected))
    case Resolve(n) => Goto(s, n, Removing(if s.calls[n].chan.Sent? then s.calls[n].chan.reply else Canceled))
    case Timeout(n) => Goto(s, n, Removing(TimedOut))
    case Abandon(n) => Goto(s, n, Abandoned)
    case Remove(n) => Goto(s, n, Returned(s.calls[n].pc.r)).(pending := s.pending - {Idx(n)})
    case Dispatch(resp) =>
      var s1 := s.(frames := s.frames + [resp]);
      if resp.idx !in s.pending then s1
      else
        var n := s.pending[resp.idx];
        s1.(pending := s.pending - {resp.idx}, inHand := s.inHand[n := Some(ReplyOf(resp))],
            matched := s.matched[n := |s.frames|])
    case Drain => s.(pending := map[], inHand := s.inHand + map n | n in Waiting(s.pending) :: None)
    case Release(n) =>
      var chan := if s.inHand[n].Some? then Sent(s.inHand[n].value) else Closed;
      s.(calls := s.calls[n := s.calls[n].(chan := chan)], inHand := s.inHand - {n})
  }

  // ── The invariant ────────────────────────────────────────────────────

  /** An entry's responder is unused, and belongs to a call that has not returned. */
  predicate EntryOk(s: State, i: int)
    requires i in s.pending
  {
    var n := s.pending[i];
    && n < |s.calls| && Idx(n) == i && !s.calls[n].pc.Started? && !s.calls[n].pc.Returned?
    && s.calls[n].chan.Open? && n !in s.inHand && n !in s.matched
  }

  predicate InHandOk(s: State, n: CallId)
    requires n in s.inHand
  {
    && n < |s.calls| && s.calls[n].chan.Open? && !s.calls[n].pc.Started?
    && (if s.inHand[n].Some? then Answers(s, n, s.inHand[n].value) else n !in s.matched)
  }

  /** `r` is what the response that call `n` got says. */
  predicate Answers(s: State, n: CallId, r: Reply) {
    n in s.matched && s.matched[n] < |s.frames| && r == ReplyOf(s.frames[s.matched[n]])
  }

  predicate MatchOk(s: State, n: CallId)
    requires n in s.matched
  {
    && n < |s.calls| && !s.calls[n].pc.Started?
    && s.calls[n].since <= s.matched[n] < |s.frames| && s.frames[s.matched[n]].idx == Idx(n)
  }

  predicate CallOk(s: State, n: CallId)
    requires n < |s.calls|
  {
    var c := s.calls[n];
    && c.since <= |s.frames|
    && (c.pc.Started? ==> c.chan.Open?)
    && (c.chan.Sent? ==> Answers(s, n, c.chan.reply))
    && (c.pc.Removing? || c.pc.Returned? ==> c.pc.r.Success? || c.pc.r.Rejected? ==> Answers(s, n, c.pc.r))
  }

  predicate Inv(s: State) {
    && |s.calls| <= MAX_CALLS
    && (forall i :: i in s.pending ==> EntryOk(s, i))
    && (forall n :: n in s.inHand ==> InHandOk(s, n))
    && (forall n :: n in s.matched ==> MatchOk(s, n))
    && (forall n :: 0 <= n < |s.calls| ==> CallOk(s, n))
  }

  /** The actions of one call on itself, other than entering and leaving the table. */
  lemma CallStepKeepsInv(s: State, a: Action)
    requires Inv(s) && Enabled(s, a) && (a.Send? || a.Resolve? || a.Timeout? || a.Abandon?)
    ensures Inv(Next(s, a))
  {
    hide ReplyOf, Idx;
    var s' := Next(s, a);
    assert forall i :: i in s.pending ==> EntryOk(s, i) ==> EntryOk(s', i);
    assert forall n :: n in s.inHand ==> InHandOk(s, n) ==> InHandOk(s', n);
    assert forall n :: n in s.matched ==> MatchOk(s, n) ==> MatchOk(s', n);
    forall n | 0 <= n < |s'.calls| ensures CallOk(s', n) { assert CallOk(s, n); }
  }

  lemma StartKeepsInv(s: State)
    requires Inv(s) && Enabled(s, Start)
    ensures Inv(Next(s, Start))
  {
    hide ReplyOf, Idx;
    var s' := Next(s, Start);
    assert forall i :: i in s.pending ==> EntryOk(s, i) ==> EntryOk(s', i);
    assert forall n :: n in s.inHand ==> InHandOk(s, n) ==> InHandOk(s', n);
    assert forall n :: n in s.matched ==> MatchOk(s, n) ==> MatchOk(s', n);
    forall n | 0 <= n < |s'.calls| ensures CallOk(s', n) { if n < |s.calls| { assert CallOk(s, n); } }
  }

  /** Indices are fresh, so that no call's entry is overwritten. */
  lemma InsertKeepsInv(s: State, n: CallId)
    requires Inv(s) && Enabled(s, Insert(n))
    ensures Idx(n) !in s.pending
    ensures Inv(Next(s, Insert(n)))
  {
    if Idx(n) in s.pending {
      assert EntryOk(s, Idx(n));
      IdxInjective(s.pending[Idx(n)], n);
      assert false;
    }
    var s' := Next(s, Insert(n));
    assert CallOk(s, n);
    assert n in s.inHand ==> InHandOk(s, n);
    assert n in s.matched ==> MatchOk(s, n);
    forall i | i in s'.pending ensures EntryOk(s', i) { if i != Idx(n) { assert EntryOk(s, i); } }
    assert forall m :: m in s.inHand ==> InHandOk(s, m) ==> InHandOk(s', m);
    assert forall m :: m in s.matched ==> MatchOk(s, m) ==> MatchOk(s', m);
    forall m | 0 <= m < |s'.calls| ensures CallOk(s', m) { assert CallOk(s, m); }
  }

  lemma RemoveKeepsInv(s: State, n: CallId)
    requires Inv(s) && Enabled(s, Remove(n))
    ensures Inv(Next(s, Remove(n)))
  {
    hide ReplyOf, Idx;
    var s' := Next(s, Remove(n));
    forall i | i in s'.pending ensures EntryOk(s', i) { assert EntryOk(s, i); }
    assert forall m :: m in s.inHand ==> InHandOk(s, m) ==> InHandOk(s', m);
    assert forall m :: m in s.matched ==> MatchOk(s, m) ==> MatchOk(s', m);
    forall m | 0 <= m < |s'.calls| ensures CallOk(s', m) { assert CallOk(s, m); }
  }

  lemma DispatchKeepsInv(s: State, resp: RpcResponse)
    requires Inv(s)
    ensures Inv(Next(s, Dispatch(resp)))
  {
    hide ReplyOf, Idx;
    var s' := Next(s, Dispatch(resp));
    assert forall k :: 0 <= k < |s.frames| ==> s'.frames[k] == s.frames[k];
    if resp.idx in s.pending { assert EntryOk(s, resp.idx) && CallOk(s, s.pending[resp.idx]); }
    forall i | i in s'.pending ensures EntryOk(s', i) {
      assert EntryOk(s, i);
      assert resp.idx in s.pending ==> s.pending[i] != s.pending[resp.idx];
    }
    forall m | m in s'.inHand ensures InHandOk(s', m) { if m in s.inHand { assert InHandOk(s, m); } }
    forall m | m in s'.matched ensures MatchOk(s', m) { if m in s.matched { assert MatchOk(s, m); } }
    forall m | 0 <= m < |s'.calls| ensures CallOk(s', m) { assert CallOk(s, m); }
  }

  lemma DrainKeepsInv(s: State)
    requires Inv(s)
    ensures Inv(Next(s, Drain))
  {
    hide ReplyOf, Idx;
    var s' := Next(s, Drain);
    forall m | m in s'.inHand ensures InHandOk(s', m) {
      if m in Waiting(s.pending) {
        var i :| i in s.pending && s.pending[i] == m;
        assert EntryOk(s, i);
      } else {
        assert InHandOk(s, m);
      }
    }
    assert forall m :: m in s.matched ==> MatchOk(s, m) ==> MatchOk(s', m);
    forall m | 0 <= m < |s'.calls| ensures CallOk(s', m) { assert CallOk(s, m); }
  }

  lemma ReleaseKeepsInv(s: State, n: CallId)
    requires Inv(s) && Enabled(s, Release(n))
    ensures Inv(Next(s, Release(n)))
  {
    hide ReplyOf, Idx;
    var s' := Next(s, Release(n));
    assert InHandOk(s, n);
    forall i | i in s'.pending ensures EntryOk(s', i) { assert EntryOk(s, i); }
    assert forall m :: m in s'.inHand ==> InHandOk(s, m) ==> InHandOk(s', m);
    assert forall m :: m in s.matched ==> MatchOk(s, m) ==> MatchOk(s', m);
    forall m | 0 <= m < |s'.calls| ensures CallOk(s', m) { assert CallOk(s, m); }
  }

  lemma StepKeepsInv(s: State, a: Action)
    requires Inv(s) && Enabled(s, a)
    ensures Inv(Next(s, a))
  {
    match a
    case Start => StartKeepsInv(s);
    case Insert(n) => InsertKeepsInv(s, n);
    case Remove(n) => RemoveKeepsInv(s, n);
    case Dispatch(resp) => DispatchKeepsInv(s, resp);
    case Drain => DrainKeepsInv(s);
    case Release(n) => ReleaseKeepsInv(s, n);
    case _ => CallStepKeepsInv(s, a);
  }

  // ── Which calls have an entry ────────────────────────────────────────

  /** The call has entered the table, and neither it nor a response nor a drain has taken it out. */
  predicate Held(s: State, n: CallId)
    requires n < |s.calls|
  {
    var c := s.calls[n];
    !c.pc.Started? && !c.pc.Returned? && c.chan.Open? && n !in s.inHand
  }

  predicate InTable(s: State, n: CallId) { Idx(n) in s.pending && s.pending[Idx(n)] == n }

  predicate Tabled(s: State) { forall n :: 0 <= n < |s.calls| && Held(s, n) ==> InTable(s, n) }

  lemma StepKeepsTabled(s: State, a: Action)
    requires Inv(s) && Tabled(s) && Enabled(s, a)
    ensures Tabled(Next(s, a))
  {
    var s' := Next(s, a);
    forall m | 0 <= m < |s'.calls| && Held(s', m) ensures InTable(s', m) {
      if a != Insert(m) {
        HeldBefore(s, a, m);
        if (a.Insert? || a.Remove?) && Idx(m) == Idx(a.n) { IdxInjective(m, a.n); }
      }
    }
  }

  /** No step but the insertion makes a call held. */
  lemma HeldBefore(s: State, a: Action, m: CallId)
    requires Inv(s) && Tabled(s) && Enabled(s, a) && m < |Next(s, a).calls| && Held(Next(s, a), m) && a != Insert(m)
    ensures m < |s.calls| && Held(s, m) && InTable(s, m)
    ensures a.Drain? ==> m in Waiting(s.pending)
  {
    assert Held(s, m);
  }

  // ── Whole runs ───────────────────────────────────────────────────────

  function Step(s: State, a: Action): Option<State> { if Enabled(s, a) then Some(Next(s, a)) else None }

  function After(run: seq<Action>): Option<State> { Runs.After(INIT, Step, run) }

  predicate TableInv(s: State) { Inv(s) && Tabled(s) }

  lemma RunKeepsInv(run: seq<Action>)
    requires After(run).Some?
    ensures Inv(After(run).value) && Tabled(After(run).value)
  {
    forall s, a | TableInv(s) && Step(s, a).Some? ensures TableInv(Step(s, a).value) {
      StepKeepsInv(s, a);
      StepKeepsTabled(s, a);
    }
    Runs.Invariant(INIT, Step, TableInv, run);
  }

  /** Exactly which calls have an entry: those that entered the table and have not returned, until a response or a
      drain takes them out. An abandoned call is no exception: it keeps its entry exactly until then. */
  lemma EntryExact(run: seq<Action>, n: CallId)
    requires After(run).Some? && n < |After(run).value.calls|
    ensures Idx(n) in After(run).value.pending <==> Held(After(run).value, n)
  {
    RunKeepsInv(run);
    var s := After(run).value;
    if Idx(n) in s.pending {
      assert EntryOk(s, Idx(n));
      IdxInjective(s.pending[Idx(n)], n);
    }
  }

  /** A call that returned has no entry left, and if it returned a response's payload or error, that response
      carried the call's own index and arrived after the call entered the table. */
  lemma ReturnedCall(run: seq<Action>, n: CallId)
    requires After(run).Some?
    requires var s := After(run).value; n < |s.calls| && s.calls[n].pc.Returned?
    ensures var s := After(run).value;
      && Idx(n) !in s.pending
      && var r := s.calls[n].pc.r;
         r.Success? || r.Rejected? ==>
           exists k :: s.calls[n].since <= k < |s.frames| && s.frames[k].idx == Idx(n) && r == ReplyOf(s.frames[k])
  {
    RunKeepsInv(run);
    var s := After(run).value;
    assert CallOk(s, n);
    assert n in s.matched ==> MatchOk(s, n);
    if Idx(n) in s.pending {
      assert EntryOk(s, Idx(n));
      IdxInjective(s.pending[Idx(n)], n);
    }
  }

  /** A call that got a response is out of the table, and no later step gives it another. */
  lemma MatchIsFinal(s: State, a: Action, n: CallId)
    requires Inv(s) && Enabled(s, a) && n in s.matched
    ensures n !in Waiting(s.pending)
    ensures n in Next(s, a).matched && Next(s, a).matched[n] == s.matched[n]
  {
    forall i | i in s.pending ensures s.pending[i] != n { assert EntryOk(s, i); }
  }

  /** No response is used by two calls. */
  lemma ResponsesAreUsedOnce(run: seq<Action>, m: CallId, n: CallId)
    requires After(run).Some? && m in After(run).value.matched && n in After(run).value.matched && m != n
    ensures After(run).value.matched[m] != After(run).value.matched[n]
  {
    RunKeepsInv(run);
    var s := After(run).value;
    assert MatchOk(s, m) && MatchOk(s, n);
    if s.matched[m] == s.matched[n] { IdxInjective(m, n); }
  }

  lemma Extend(run: seq<Action>, s: State, a: Action) returns (run': seq<Action>, s': State)
    requires After(run) == Some(s) && Enabled(s, a)
    ensures s' == Next(s, a) && After(run') == Some(s')
  {
    run' := Runs.Extend(INIT, Step, run, s, a);
    s' := Next(s, a);
  }

  /** There are such calls: dropped by its caller while it waits, a call leaves its entry behind. */
  lemma AbandonedLeavesEntry() returns (run: seq<Action>, s: State)
    ensures After(run) == Some(s) && |s.calls| == 1 && s.calls[0].pc == Abandoned && Idx(0) in s.pending
  {
    run, s := Extend([], INIT, Start);
    run, s := Extend(run, s, Insert(0));
    run, s := Extend(run, s, Send(0, true));
    run, s := Extend(run, s, Abandon(0));
  }
}

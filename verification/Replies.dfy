/** What becomes of an RPC: every way a call can return, what brings it about, and that nothing else does. */
module Replies {
  import opened Wrappers
  import opened Bytes
  import opened Proto
  import opened Messages
  import opened Rpc
  import Runs

  // ── Why a call returns what it returns ───────────────────────────────

  predicate Ends(pc: Pc) { pc.Removing? || pc.Returned? }

  /** The steps of the run that account for what call `n` returns and for the state of its channel. */
  predicate Caused(run: seq<Action>, s: State, n: CallId)
    requires n < |s.calls|
  {
    var c := s.calls[n];
    && (c.chan.Closed? || (n in s.inHand && s.inHand[n].None?) ==> n !in s.matched && Drain in run)
    && (Ends(c.pc) ==>
          match c.pc.r
          case TimedOut => Timeout(n) in run
          case NotConnected => Send(n, false) in run
          case Canceled => c.chan.Closed?
          case _ => c.chan == Sent(c.pc.r))
  }

  predicate AllCaused(run: seq<Action>, s: State) { forall n :: 0 <= n < |s.calls| ==> Caused(run, s, n) }

  predicate OwnAction(a: Action) { a.Insert? || a.Send? || a.Resolve? || a.Timeout? || a.Abandon? || a.Remove? }

  lemma StepKeepsCaused(run: seq<Action>, s: State, a: Action, n: CallId)
    requires Inv(s) && AllCaused(run, s) && Enabled(s, a) && n < |Next(s, a).calls|
    ensures Caused(run + [a], Next(s, a), n)
  {
    hide ReplyOf, Idx, Inv;
    assert forall x :: x in run ==> x in run + [a];
    if n == |s.calls| {
      NewCallCaused(run, s);
    } else if OwnAction(a) {
      OwnKeepsCaused(run, s, a, n);
    } else {
      TableKeepsCaused(run, s, a, n);
    }
  }

  lemma NewCallCaused(run: seq<Action>, s: State)
    requires Inv(s) && Enabled(s, Start)
    ensures Caused(run + [Start], Next(s, Start), |s.calls|)
  {
    NotInHand(s, |s.calls|);
  }

  lemma OwnKeepsCaused(run: seq<Action>, s: State, a: Action, n: CallId)
    requires Inv(s) && AllCaused(run, s) && Enabled(s, a) && OwnAction(a) && n < |s.calls|
    ensures Caused(run + [a], Next(s, a), n)
  {
    hide ReplyOf, Idx;
    assert forall x :: x in run ==> x in run + [a];
    assert a in run + [a];
    assert Caused(run, s, n);
    if a == Resolve(n) && s.calls[n].chan.Sent? {
      assert CallOk(s, n);
      ReplyKind(s.frames[s.matched[n]]);
    }
  }

  lemma TableKeepsCaused(run: seq<Action>, s: State, a: Action, n: CallId)
    requires Inv(s) && AllCaused(run, s) && Enabled(s, a) && !OwnAction(a) && n < |s.calls|
    ensures Caused(run + [a], Next(s, a), n)
  {
    hide ReplyOf, Idx;
    assert forall x :: x in run ==> x in run + [a];
    assert a in run + [a];
    assert Caused(run, s, n) && CallOk(s, n);
    if n in s.inHand { assert InHandOk(s, n); }
    if a.Dispatch? && a.resp.idx in s.pending { assert EntryOk(s, a.resp.idx); }
    if a.Drain? && n in Waiting(s.pending) { DrainedEntry(s, n); }
  }

  lemma ReplyKind(resp: RpcResponse)
    ensures ReplyOf(resp).Success? || ReplyOf(resp).Rejected?
  {
  }

  lemma DrainedEntry(s: State, n: CallId)
    requires Inv(s) && n in Waiting(s.pending)
    ensures n < |s.calls| && s.calls[n].chan.Open? && n !in s.matched && n !in s.inHand
  {
    var i :| i in s.pending && s.pending[i] == n;
    assert EntryOk(s, i);
  }

  lemma {:induction false} RunKeepsCaused(run: seq<Action>)
    requires After(run).Some?
    ensures AllCaused(run, After(run).value)
  {
    if run != [] {
      var front, a := run[..|run| - 1], run[|run| - 1];
      assert run == front + [a];
      RunKeepsCaused(front);
      RunKeepsInv(front);
      var s := After(front).value;
      forall n | 0 <= n < |Next(s, a).calls| ensures Caused(run, Next(s, a), n) {
        StepKeepsCaused(front, s, a, n);
      }
    }
  }

  /** Over every run: a call returns a timeout only after its timer, and that it is not connected only after its
      send failed; it is canceled only if a drain closed its channel and no response was ever matched with it; and
      a payload or an error is what its channel holds. */
  lemma ReturnedBecause(run: seq<Action>, n: CallId)
    requires After(run).Some? && n < |After(run).value.calls| && After(run).value.calls[n].pc.Returned?
    ensures var s := After(run).value;
      match s.calls[n].pc.r
      case TimedOut => Timeout(n) in run
      case NotConnected => Send(n, false) in run
      case Canceled => s.calls[n].chan.Closed? && n !in s.matched && Drain in run
      case Success(_) => s.calls[n].chan == Sent(s.calls[n].pc.r) && Answers(s, n, s.calls[n].pc.r)
      case Rejected(_) => s.calls[n].chan == Sent(s.calls[n].pc.r) && Answers(s, n, s.calls[n].pc.r)
  {
    RunKeepsCaused(run);
    RunKeepsInv(run);
    var s := After(run).value;
    assert Caused(run, s, n) && CallOk(s, n);
  }

  // ── Each way to return ───────────────────────────────────────────────

  predicate ReturnsWith(s: State, run: seq<Action>, n: CallId, r: Reply) {
    var s' := Runs.After(s, Step, run);
    s'.Some? && n < |s'.value.calls| && s'.value.calls[n].pc == Returned(r) && Idx(n) !in s'.value.pending
  }

  /** The steps that end a waiting call, and what it then is. */
  lemma Finishes(s: State, a: Action, n: CallId, r: Reply)
    requires n < |s.calls| && Enabled(s, a) && Next(s, a) == Goto(s, n, Removing(r))
    ensures ReturnsWith(s, [a, Remove(n)], n, r)
  {
    hide Idx;
    var s1 := Goto(s, n, Removing(r));
    Runs.Two(s, Step, a, s1, Remove(n), Next(s1, Remove(n)));
  }

  /** A call that was sent its reply returns it. */
  lemma SentIsReturned(s: State, n: CallId, r: Reply)
    requires At(s, n, Awaiting) && s.calls[n].chan == Sent(r)
    ensures ReturnsWith(s, [Resolve(n), Remove(n)], n, r)
  {
    Finishes(s, Resolve(n), n, r);
  }

  lemma ClosedIsCanceled(s: State, n: CallId)
    requires At(s, n, Awaiting) && s.calls[n].chan.Closed?
    ensures ReturnsWith(s, [Resolve(n), Remove(n)], n, Canceled)
  {
    Finishes(s, Resolve(n), n, Canceled);
  }

  lemma TimerTimesOut(s: State, n: CallId)
    requires At(s, n, Awaiting)
    ensures ReturnsWith(s, [Timeout(n), Remove(n)], n, TimedOut)
  {
    Finishes(s, Timeout(n), n, TimedOut);
  }

  lemma FailedSendReturns(s: State, n: CallId)
    requires At(s, n, Inserted)
    ensures ReturnsWith(s, [Send(n, false), Remove(n)], n, NotConnected)
  {
    Finishes(s, Send(n, false), n, NotConnected);
  }

  /** In every reachable state, a response with the index of a waiting call resolves it: the four steps from its arrival
      to the call's return end with the response's reply. */
  lemma ResponseIsReturned(before: seq<Action>, n: CallId, resp: RpcResponse)
    requires After(before).Some? && At(After(before).value, n, Awaiting) && Held(After(before).value, n)
    requires resp.idx == Idx(n)
    ensures ReturnsWith(After(before).value, [Dispatch(resp), Release(n), Resolve(n), Remove(n)], n, ReplyOf(resp))
  {
    hide ReplyOf, Idx;
    var s := After(before).value;
    RunKeepsInv(before);
    assert InTable(s, n);
    var s1 := Next(s, Dispatch(resp));
    assert n in s1.inHand && s1.inHand[n] == Some(ReplyOf(resp));
    Released(s, Dispatch(resp), s1, n, ReplyOf(resp));
  }

  /** A waiting call whose responder was taken out of the table returns what is done with the responder. */
  lemma Released(s: State, a: Action, s1: State, n: CallId, r: Reply)
    requires Enabled(s, a) && s1 == Next(s, a) && At(s1, n, Awaiting) && n in s1.inHand
    requires s1.inHand[n] == Some(r) || (s1.inHand[n] == None && r == Canceled)
    ensures ReturnsWith(s, [a, Release(n), Resolve(n), Remove(n)], n, r)
  {
    hide Idx;
    var s2 := Next(s1, Release(n));
    var s3 := Goto(s2, n, Removing(r));
    assert Step(s1, Release(n)) == Some(s2) && Step(s2, Resolve(n)) == Some(s3);
    var s4 := Next(s3, Remove(n));
    Runs.Four(s, Step, a, s1, Release(n), s2, Resolve(n), s3, Remove(n), s4);
  }

  /** A drain cancels every waiting call. */
  lemma DrainCancels(before: seq<Action>, n: CallId)
    requires After(before).Some? && At(After(before).value, n, Awaiting) && Held(After(before).value, n)
    ensures ReturnsWith(After(before).value, [Drain, Release(n), Resolve(n), Remove(n)], n, Canceled)
  {
    hide ReplyOf, Idx;
    var s := After(before).value;
    RunKeepsInv(before);
    assert InTable(s, n);
    assert n in Waiting(s.pending);
    var s1 := Next(s, Drain);
    assert n in s1.inHand && s1.inHand[n] == None;
    Released(s, Drain, s1, n, Canceled);
  }

  /** A response whose index no call waits with changes no call and no entry. */
  lemma StrayResponse(s: State, resp: RpcResponse)
    requires resp.idx !in s.pending
    ensures var s' := Next(s, Dispatch(resp));
      s'.calls == s.calls && s'.pending == s.pending && s'.inHand == s.inHand && s'.matched == s.matched
  {
  }

  /** A new call gets to wait, under an index of its own. */
  lemma CallWaits(before: seq<Action>) returns (s': State)
    requires After(before).Some? && |After(before).value.calls| < MAX_CALLS
    ensures var s := After(before).value;
      var n := |s.calls|;
      && After(before + [Start, Insert(n), Send(n, true)]) == Some(s')
      && At(s', n, Awaiting) && Held(s', n) && s'.pending == s.pending[Idx(n) := n] && Idx(n) !in s.pending
  {
    hide Idx;
    var s := After(before).value;
    var n := |s.calls|;
    RunKeepsInv(before);
    var s1 := Next(s, Start);
    StepKeepsInv(s, Start);
    InsertKeepsInv(s1, n);
    var s2 := Next(s1, Insert(n));
    s' := Next(s2, Send(n, true));
    NotInHand(s, n);
    var run := Runs.Extend(s, Step, [], s, Start);
    run := Runs.Extend(s, Step, run, s1, Insert(n));
    run := Runs.Extend(s, Step, run, s2, Send(n, true));
    assert run == [Start, Insert(n), Send(n, true)];
    var whole := Runs.Concat(INIT, Step, before, s, run);
  }

  lemma NotInHand(s: State, n: CallId)
    requires Inv(s) && n == |s.calls|
    ensures n !in s.inHand
  {
    assert n in s.inHand ==> InHandOk(s, n);
  }

  // ── From the wire ────────────────────────────────────────────────────

  /** The reply of a response as its bytes say: a payload succeeds, an error is rejected with its code and message even
      beside a payload, and a bare index is an empty success. */
  lemma ReplyFromWire(idx: int, payload: seq<U8>, e: RpcError)
    requires IsI32(idx) && |payload| < 0x1_0000_0000 && IsI32(e.code) && IsString(e.message)
    ensures var i, p := VarintField(3, OfI32(idx)), BytesField(2, payload);
      var body := Encode(VarintField(1, OfI32(e.code))) + Encode(BytesField(2, e.message));
      && ReplyOfWire(EncodeAll([i, p]), idx, Success(payload))
      && ReplyOfWire(EncodeAll([i]), idx, Success([]))
      && (|body| < 0x1_0000_0000_0000_0000 ==>
            && ReplyOfWire(EncodeAll([i, BytesField(1, body)]), idx, Rejected(e))
            && ReplyOfWire(EncodeAll([i, p, BytesField(1, body)]), idx, Rejected(e)))
  {
    var i, p := VarintField(3, OfI32(idx)), BytesField(2, payload);
    var body := Encode(VarintField(1, OfI32(e.code))) + Encode(BytesField(2, e.message));
    SignedRoundTrip(idx);
    RpcErrorRoundTrip(e);
    hide Encode, EncodeAll, DecodeRpc, ParseRpcError, OfI32, AsI32, IsString;
    WireTwo(i, p);
    WireOne(i);
    if |body| < 0x1_0000_0000_0000_0000 {
      WireTwo(i, BytesField(1, body));
      WireThree(i, p, BytesField(1, body));
    }
  }

  /** The bytes decode to a response with index `idx` and reply `r`. */
  predicate ReplyOfWire(s: seq<U8>, idx: int, r: Reply) {
    var resp := DecodeRpc(s, EMPTY_RESPONSE);
    resp.Some? && resp.value.idx == idx && ReplyOf(resp.value) == r
  }

  predicate AllTyped(xs: seq<Field>) { forall i :: 0 <= i < |xs| ==> WellTyped(xs[i]) }

  lemma MeaningCons(x: Field, xs: seq<Field>, out: RpcResponse)
    requires WellTyped(x) && AllTyped(xs)
    ensures AllTyped([x] + xs) && Meaning([x] + xs, out) == Meaning(xs, Apply(x, out))
  {
    hide WellTyped, Apply;
    assert ([x] + xs)[0] == x && ([x] + xs)[1..] == xs;
  }

  lemma WireOne(x: Field)
    requires WellTyped(x)
    ensures DecodeRpc(EncodeAll([x]), EMPTY_RESPONSE) == Some(Apply(x, EMPTY_RESPONSE))
  {
    hide Encode, EncodeAll, DecodeRpc, Apply, WellTyped;
    MeaningCons(x, [], EMPTY_RESPONSE);
    assert [x] + [] == [x];
    RpcRoundTrip([x], EMPTY_RESPONSE);
  }

  lemma WireTwo(x: Field, y: Field)
    requires WellTyped(x) && WellTyped(y)
    ensures DecodeRpc(EncodeAll([x, y]), EMPTY_RESPONSE) == Some(Apply(y, Apply(x, EMPTY_RESPONSE)))
  {
    hide Encode, EncodeAll, DecodeRpc, Apply, WellTyped;
    MeaningCons(y, [], Apply(x, EMPTY_RESPONSE));
    MeaningCons(x, [y], EMPTY_RESPONSE);
    assert [y] + [] == [y] && [x] + [y] == [x, y];
    RpcRoundTrip([x, y], EMPTY_RESPONSE);
  }

  lemma WireThree(x: Field, y: Field, z: Field)
    requires WellTyped(x) && WellTyped(y) && WellTyped(z)
    ensures DecodeRpc(EncodeAll([x, y, z]), EMPTY_RESPONSE) == Some(Apply(z, Apply(y, Apply(x, EMPTY_RESPONSE))))
  {
    hide Encode, EncodeAll, DecodeRpc, Apply, WellTyped;
    MeaningCons(z, [], Apply(y, Apply(x, EMPTY_RESPONSE)));
    MeaningCons(y, [z], Apply(x, EMPTY_RESPONSE));
    MeaningCons(x, [y, z], EMPTY_RESPONSE);
    assert [z] + [] == [z] && [y] + [z] == [y, z] && [x] + [y, z] == [x, y, z];
    RpcRoundTrip([x, y, z], EMPTY_RESPONSE);
  }

  // ── Indices ──────────────────────────────────────────────────────────

  /** Calls are numbered from 1 up to the largest 32-bit integer, and then from the smallest one on. */
  lemma IndexCounts(n: CallId)
    requires n < MAX_CALLS
    ensures Idx(n) == if n + 1 < 0x8000_0000 then n + 1 else if n + 1 < 0x1_0000_0000 then n + 1 - 0x1_0000_0000 else 0
  {
  }
}

/** Who holds the leases of a run: exactly the tunnels that were registered and not unregistered since, whether
    or not they still exist. */
module Leases {
  import opened Wrappers
  import opened Bytes
  import opened Gateway

  /** Step `m` gave its tunnel a lease, and that tunnel was not unregistered before step `n`. */
  predicate Holding(ops: seq<Op>, leases: seq<Option<U8>>, n: nat, m: nat) {
    && m < n <= |ops| && |leases| == |ops| && ops[m].Register? && leases[m].Some?
    && forall k :: m < k < n ==> ops[k] != Unregister(ops[m].t)
  }

  /** Step `m` put `t` into slot `i`, and `t` was not unregistered before step `n`. */
  predicate HoldsSlot(ops: seq<Op>, leases: seq<Option<U8>>, n: nat, m: nat, i: nat, t: Tunnel) {
    Holding(ops, leases, n, m) && ops[m] == Register(t) && leases[m].value == i + LEASE_FIRST
  }

  lemma HoldingAfter(ops: seq<Op>, leases: seq<Option<U8>>, n: nat, m: nat, i: nat, t: Tunnel)
    requires n < |ops| && |leases| == |ops|
    ensures HoldsSlot(ops, leases, n + 1, m, i, t) <==>
      || (HoldsSlot(ops, leases, n, m, i, t) && ops[n] != Unregister(t))
      || (m == n && ops[n] == Register(t) && leases[n] == Some(i + LEASE_FIRST))
  {
  }

  /** What a step does to slot `i`. */
  lemma SlotAfter(s: State, op: Op, s': State, lease: Option<U8>, i: nat, t: Tunnel)
    requires Inv(s) && Step(s, op, s', lease) && i < POOL_SIZE && |s'.pool| == POOL_SIZE
    ensures s'.pool[i] == Some(t) <==>
      (s.pool[i] == Some(t) && op != Unregister(t)) || (op == Register(t) && lease == Some(i + LEASE_FIRST))
    ensures op.Register? && lease == Some(i + LEASE_FIRST) ==> s.pool[i] == None
  {
    if op.Unregister? && s' != s {
      var j: nat :| FirstWhere(s.pool, Some(op.t), j) && s' == s.(pool := s.pool[j := None], handlers := s.handlers - {op.t});
    }
  }

  /** Slot `i` holds `t` exactly if a step put it there and none has unregistered it since. Discarding the tunnel
      does not free the slot. */
  lemma {:induction false} SlotHistory(states: seq<State>, ops: seq<Op>, leases: seq<Option<U8>>, n: nat, i: nat, t: Tunnel)
    requires IsRun(states, ops, leases) && n <= |ops| && i < POOL_SIZE
    ensures |states[n].pool| == POOL_SIZE
    ensures states[n].pool[i] == Some(t) <==> exists m: nat :: HoldsSlot(ops, leases, n, m, i, t)
    decreases n
  {
    RunKeepsInv(states, ops, leases, n);
    InvPool(states[n]);
    if n > 0 {
      var p := n - 1;
      RunKeepsInv(states, ops, leases, p);
      SlotHistory(states, ops, leases, p, i, t);
      SlotAfter(states[p], ops[p], states[n], leases[p], i, t);
      hide Inv, IsRun, Step, HoldsSlot;
      if states[p].pool[i] == Some(t) && ops[p] != Unregister(t) {
        var m: nat :| HoldsSlot(ops, leases, p, m, i, t);
        HoldingAfter(ops, leases, p, m, i, t);
      } else if ops[p] == Register(t) && leases[p] == Some(i + LEASE_FIRST) {
        HoldingAfter(ops, leases, p, p, i, t);
      }
      if m: nat :| HoldsSlot(ops, leases, n, m, i, t) {
        HoldingAfter(ops, leases, p, m, i, t);
      }
    }
  }

  // ── When the pool is exhausted ───────────────────────────────────────

  /** The tunnels that were given a lease before step `n` and not unregistered since. */
  function Holders(ops: seq<Op>, leases: seq<Option<U8>>, n: nat): set<Tunnel>
    requires n <= |ops| && |leases| == |ops|
  {
    set m | 0 <= m < n && Holding(ops, leases, n, m) :: ops[m].t
  }

  function Occupants(pool: seq<Option<Tunnel>>): set<Tunnel> {
    set i | 0 <= i < |pool| && pool[i].Some? :: pool[i].value
  }

  predicate Distinct(pool: seq<Option<Tunnel>>) {
    forall i, j :: 0 <= i < j < |pool| && pool[i].Some? ==> pool[i] != pool[j]
  }

  lemma {:induction false} CountOccupants(pool: seq<Option<Tunnel>>)
    requires Distinct(pool)
    ensures |Occupants(pool)| <= |pool|
    ensures |Occupants(pool)| == |pool| <==> None !in pool
    decreases |pool|
  {
    if pool != [] {
      var n := |pool| - 1;
      var front := pool[..n];
      CountOccupants(front);
      assert pool == front + [pool[n]];
      if pool[n].Some? {
        assert Occupants(pool) == Occupants(front) + {pool[n].value} by {
          assert pool[n].value in Occupants(pool);
          assert forall i :: 0 <= i < n ==> front[i] == pool[i];
        }
        assert pool[n].value !in Occupants(front);
      } else {
        assert Occupants(pool) == Occupants(front) by { assert forall i :: 0 <= i < n ==> front[i] == pool[i]; }
        assert None in pool;
      }
    }
  }

  lemma HoldersAreOccupants(states: seq<State>, ops: seq<Op>, leases: seq<Option<U8>>, n: nat)
    requires IsRun(states, ops, leases) && n <= |ops|
    ensures Holders(ops, leases, n) == Occupants(states[n].pool)
  {
    RunKeepsInv(states, ops, leases, n);
    InvPool(states[n]);
    forall t ensures t in Holders(ops, leases, n) <==> t in Occupants(states[n].pool) {
      if t in Holders(ops, leases, n) {
        var m :| 0 <= m < n && Holding(ops, leases, n, m) && ops[m].t == t;
        var i := LeaseInRange(states, ops, leases, m);
        assert HoldsSlot(ops, leases, n, m, i, t);
        SlotHistory(states, ops, leases, n, i, t);
        assert states[n].pool[i].value in Occupants(states[n].pool);
      }
      if t in Occupants(states[n].pool) {
        var i :| 0 <= i < POOL_SIZE && states[n].pool[i] == Some(t);
        SlotHistory(states, ops, leases, n, i, t);
        var m: nat :| HoldsSlot(ops, leases, n, m, i, t);
        assert ops[m].t == t;
      }
    }
  }

  lemma LeaseInRange(states: seq<State>, ops: seq<Op>, leases: seq<Option<U8>>, m: nat) returns (i: nat)
    requires IsRun(states, ops, leases) && m < |ops| && ops[m].Register? && leases[m].Some?
    ensures i < POOL_SIZE && leases[m].value == i + LEASE_FIRST
  {
    RunKeepsInv(states, ops, leases, m);
    InvPool(states[m]);
    StepKeepsLeases(states[m], ops[m], states[m + 1], leases[m]);
    i := leases[m].value - LEASE_FIRST;
  }

  /** Registration fails exactly when 253 tunnels were given a lease and never unregistered, discarded ones included. */
  lemma ExhaustedExactly(states: seq<State>, ops: seq<Op>, leases: seq<Option<U8>>, n: nat)
    requires IsRun(states, ops, leases) && n < |ops| && ops[n].Register?
    ensures leases[n].None? <==> |Holders(ops, leases, n)| == 253
    ensures leases[n].Some? ==> 2 <= leases[n].value <= 254
  {
    RunKeepsInv(states, ops, leases, n);
    HoldersAreOccupants(states, ops, leases, n);
    CountOccupants(states[n].pool);
    assert Step(states[n], ops[n], states[n + 1], leases[n]);
    InvPool(states[n]);
    StepKeepsLeases(states[n], ops[n], states[n + 1], leases[n]);
  }

  // ── Discarded tunnels ────────────────────────────────────────────────

  /** The lease of a tunnel that was discarded without being unregistered is never given out again. */
  lemma {:induction false} DiscardedKeepsLease(states: seq<State>, ops: seq<Op>, leases: seq<Option<U8>>, m: nat, n: nat, t: Tunnel)
    requires IsRun(states, ops, leases) && m < n <= |ops| && ops[m] == Discard(t) && Some(t) in states[m].pool
    ensures Some(t) in states[n].pool && t !in states[n].alive
    decreases n
  {
    if m < n - 1 { DiscardedKeepsLease(states, ops, leases, m, n - 1, t); }
    var s, op, s' := states[n - 1], ops[n - 1], states[n];
    assert Step(s, op, s', leases[n - 1]);
    GoneStaysGone(s, op, s', leases[n - 1], t);
  }

  lemma GoneStaysGone(s: State, op: Op, s': State, lease: Option<U8>, t: Tunnel)
    requires Step(s, op, s', lease) && Some(t) in s.pool && (op == Discard(t) || t !in s.alive)
    ensures Some(t) in s'.pool && t !in s'.alive
  {
    var i :| 0 <= i < |s.pool| && s.pool[i] == Some(t);
    if op.Unregister? && s' != s {
      var j: nat :| FirstWhere(s.pool, Some(op.t), j) && s' == s.(pool := s.pool[j := None], handlers := s.handlers - {op.t});
      assert s'.pool[i] == Some(t);
    } else {
      assert s'.pool[i] == Some(t);
    }
  }

  /** There is such a run. */
  lemma DiscardLeavesLease() returns (states: seq<State>, ops: seq<Op>, leases: seq<Option<U8>>)
    ensures IsRun(states, ops, leases) && ops == [Create(0), Register(0), Discard(0)]
    ensures Some(0) in states[3].pool && states[3].alive == {}
  {
    var empty: seq<Option<Tunnel>> := seq(POOL_SIZE, _ => None);
    var taken := empty[0 := Some(0)];
    ops := [Create(0), Register(0), Discard(0)];
    leases := [None, Some(2), None];
    var s0 := State(empty, {}, map[]);
    var s1 := State(empty, {0}, map[]);
    var s2 := State(taken, {0}, map[0 := 2]);
    var s3 := State(taken, {}, map[]);
    assert s0.alive + {0} == {0} && {0} - {0} == s3.alive && map[0 := 2] - {0} == s3.handlers;
    assert Step(s0, Create(0), s1, None);
    assert Step(s1, Register(0), s2, Some(2));
    assert Step(s2, Discard(0), s3, None);
    assert taken[0] == Some(0);
    hide Step;
    states := [s0, s1, s2, s3];
    assert forall i :: 0 <= i < |ops| ==> Step(states[i], ops[i], states[i + 1], leases[i]);
  }
}

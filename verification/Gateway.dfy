/** The kernel-TUN gateway: a pool of source-address leases, one per tunnel, and the translation of
    packets between a tunnel's canonical address 10.8.0.2 and its lease 10.8.0.X. */
module Gateway {
  import opened Wrappers
  import opened Bytes
  import opened Packets
  import opened Rewriting
  import opened Filter

  const LEASE_FIRST: nat := 2
  const LEASE_LAST: nat := 254
  const POOL_SIZE: nat := LEASE_LAST - LEASE_FIRST + 1
  const CLIENT: V4Addr := [10, 8, 0, 2]

  function LeaseAddr(lease: U8): V4Addr { [10, 8, 0, lease] }

  type Tunnel = nat

  /** `alive`: tunnels some owner still holds. The pool keeps weak references, so a slot can outlive its
      tunnel. `handlers`: the lease with which a live tunnel's inbound-packet handler rewrites. */
  datatype State = State(pool: seq<Option<Tunnel>>, alive: set<Tunnel>, handlers: map<Tunnel, U8>)

  // ── Leases ───────────────────────────────────────────────────────────

  predicate FirstWhere(pool: seq<Option<Tunnel>>, x: Option<Tunnel>, i: nat) {
    i < |pool| && pool[i] == x && forall j :: 0 <= j < i ==> pool[j] != x
  }

  /** Each live lease belongs to one tunnel, and a tunnel's handler uses the lease it holds. */
  ghost predicate Inv(s: State) {
    && |s.pool| == POOL_SIZE
    && (forall i, j :: 0 <= i < j < POOL_SIZE && s.pool[i].Some? ==> s.pool[i] != s.pool[j])
    && (forall t :: t in s.handlers ==>
         t in s.alive && LEASE_FIRST <= s.handlers[t] <= LEASE_LAST && s.pool[s.handlers[t] - LEASE_FIRST] == Some(t))
    && (forall i :: 0 <= i < POOL_SIZE && s.pool[i].Some? && s.pool[i].value in s.alive ==>
         s.pool[i].value in s.handlers && s.handlers[s.pool[i].value] == i + LEASE_FIRST)
  }

  datatype Op = Create(t: Tunnel) | Register(t: Tunnel) | Unregister(t: Tunnel) | Discard(t: Tunnel)

  /** The step relation. `Register` takes the first free slot and fails only when there is none;
      `Unregister` frees the first slot whose live tunnel is `t`; `Discard` drops a tunnel without
      unregistering it, which leaves its slot taken. */
  ghost predicate Step(s: State, op: Op, s': State, lease: Option<U8>) {
    match op
    case Create(t) => t !in s.alive && Some(t) !in s.pool && s' == s.(alive := s.alive + {t}) && lease == None
    case Register(t) =>
      && t in s.alive
      && (if lease.None? then None !in s.pool && s' == s
          else
            var i := lease.value - LEASE_FIRST;
            i >= 0 && FirstWhere(s.pool, None, i)
            && s' == s.(pool := s.pool[i := Some(t)], handlers := s.handlers[t := lease.value]))
    case Unregister(t) =>
      && t in s.alive && lease == None
      && ((Some(t) !in s.pool && s' == s)
          || exists i: nat :: FirstWhere(s.pool, Some(t), i)
                         && s' == s.(pool := s.pool[i := None], handlers := s.handlers - {t}))
    case Discard(t) => t in s.alive && lease == None && s' == s.(alive := s.alive - {t}, handlers := s.handlers - {t})
  }

  lemma InvPool(s: State)
    requires Inv(s)
    ensures |s.pool| == POOL_SIZE
  {
  }

  lemma RegisterKeepsInv(s: State, t: Tunnel, i: nat)
    requires Inv(s) && t in s.alive && FirstWhere(s.pool, None, i) && Some(t) !in s.pool
    ensures Inv(s.(pool := s.pool[i := Some(t)], handlers := s.handlers[t := i + LEASE_FIRST]))
  {
  }

  lemma UnregisterKeepsInv(s: State, t: Tunnel, i: nat)
    requires Inv(s) && FirstWhere(s.pool, Some(t), i)
    ensures Inv(s.(pool := s.pool[i := None], handlers := s.handlers - {t}))
  {
  }

  lemma DoubleRegistrationBreaksInv(s: State, t: Tunnel, i: nat, j: nat)
    requires |s.pool| == POOL_SIZE && FirstWhere(s.pool, None, i) && j < POOL_SIZE && s.pool[j] == Some(t)
    ensures !Inv(s.(pool := s.pool[i := Some(t)], handlers := s.handlers[t := i + LEASE_FIRST]))
  {
    var p := s.pool[i := Some(t)];
    assert p[i] == p[j] == Some(t);
  }

  lemma DiscardKeepsInv(s: State, t: Tunnel)
    requires Inv(s)
    ensures Inv(s.(alive := s.alive - {t}, handlers := s.handlers - {t}))
  {
  }

  lemma CreateKeepsInv(s: State, t: Tunnel)
    requires Inv(s) && Some(t) !in s.pool
    ensures Inv(s.(alive := s.alive + {t}))
  {
  }

  lemma RegisterExact(s: State, t: Tunnel, i: nat)
    requires Inv(s) && t in s.alive && FirstWhere(s.pool, None, i)
    ensures Inv(s.(pool := s.pool[i := Some(t)], handlers := s.handlers[t := i + LEASE_FIRST])) <==> Some(t) !in s.pool
  {
    if Some(t) in s.pool {
      var j: nat :| j < |s.pool| && s.pool[j] == Some(t);
      assert |s.pool| == POOL_SIZE;
      hide Inv;
      DoubleRegistrationBreaksInv(s, t, i, j);
    } else {
      hide Inv;
      RegisterKeepsInv(s, t, i);
    }
  }

  lemma UnregisterStep(s: State, t: Tunnel, s': State)
    requires Inv(s) && Step(s, Unregister(t), s', None)
    ensures Inv(s')
  {
    hide Inv;
    if s' != s {
      var i: nat :| FirstWhere(s.pool, Some(t), i) && s' == s.(pool := s.pool[i := None], handlers := s.handlers - {t});
      UnregisterKeepsInv(s, t, i);
    }
  }

  /** Every step keeps leases distinct, except exactly one that registers a tunnel which still holds a lease. */
  lemma StepKeepsInv(s: State, op: Op, s': State, lease: Option<U8>)
    requires Inv(s) && Step(s, op, s', lease)
    ensures Inv(s') <==> !(op.Register? && lease.Some? && Some(op.t) in s.pool)
  {
    hide Inv;
    match op
    case Create(t) => CreateKeepsInv(s, t);
    case Discard(t) => DiscardKeepsInv(s, t);
    case Unregister(t) => UnregisterStep(s, t, s');
    case Register(t) => if lease.Some? { RegisterExact(s, t, lease.value - LEASE_FIRST); }
  }

  /** A new lease is in 2..254, was nobody's, and is the lowest such; no step touches the lease of a tunnel other than its own. */
  lemma StepKeepsLeases(s: State, op: Op, s': State, lease: Option<U8>)
    requires |s.pool| == POOL_SIZE && Step(s, op, s', lease)
    ensures op.Register? && lease.Some? ==>
      && LEASE_FIRST <= lease.value <= LEASE_LAST && s.pool[lease.value - LEASE_FIRST] == None
      && forall i :: 0 <= i < lease.value - LEASE_FIRST ==> s.pool[i].Some?
    ensures forall t :: t in s.handlers && t != op.t ==> t in s'.handlers && s'.handlers[t] == s.handlers[t]
  {
  }

  /** A run from the empty pool in which every tunnel is registered at most once. */
  ghost predicate IsRun(states: seq<State>, ops: seq<Op>, leases: seq<Option<U8>>) {
    && |states| == |ops| + 1 && |leases| == |ops|
    && states[0] == State(seq(POOL_SIZE, _ => None), {}, map[])
    && (forall i :: 0 <= i < |ops| ==> Step(states[i], ops[i], states[i + 1], leases[i]))
    && (forall i, j :: 0 <= i < j < |ops| && ops[i].Register? && ops[j].Register? ==> ops[i] != ops[j])
  }

  ghost predicate Registered(ops: seq<Op>, n: nat, t: Tunnel) {
    exists i :: 0 <= i < n <= |ops| && ops[i] == Register(t)
  }

  lemma {:induction false} RunKeepsInv(states: seq<State>, ops: seq<Op>, leases: seq<Option<U8>>, n: nat)
    requires IsRun(states, ops, leases) && n <= |ops|
    ensures Inv(states[n])
    ensures forall t :: Some(t) in states[n].pool ==> Registered(ops, n, t)
  {
    if n > 0 {
      RunKeepsInv(states, ops, leases, n - 1);
      var s, s', op := states[n - 1], states[n], ops[n - 1];
      assert Step(s, op, s', leases[n - 1]);
      assert op.Register? ==> !Registered(ops, n - 1, op.t);
      StepKeepsInv(s, op, s', leases[n - 1]);
      forall t | Some(t) in s'.pool ensures Registered(ops, n, t) {
        if Some(t) in s.pool {
          var i :| 0 <= i < n - 1 <= |ops| && ops[i] == Register(t);
        } else {
          assert ops[n - 1] == Register(t);
        }
      }
    }
  }

  // ── Packets ──────────────────────────────────────────────────────────

  predicate DropOutbound(p: seq<U8>) {
    |p| < 20 || p[0] / 16 != 4 || (p[16] == 10 && p[17] == 8) || BlockedV4(p[16..20])
  }

  /** What a registered tunnel's handler writes to the TUN device for a packet from its client. */
  function Outbound(lease: U8, p: seq<U8>): Option<seq<U8>> {
    if DropOutbound(p) then None
    else
      var r := Rewrite(p, LeaseAddr(lease), true);
      if r.ok then Some(r.pkt) else None
  }

  /** The filter drops exactly what is not IPv4 and what goes to an address of the blocked ranges, which include all
      leases. */
  lemma DropExact(p: seq<U8>)
    ensures DropOutbound(p) <==> |p| < 20 || p[0] / 16 != 4 || InBlocks(p[16..20])
  {
    hide InBlocks;
    if |p| >= 20 {
      BlockedExact(p[16..20]);
      assert p[16..20][0] == p[16];
    }
  }

  /** A packet goes out exactly if its destination is in no blocked range and the rewriting accepts it: as every whole
      packet is. */
  lemma OutboundExact(lease: U8, p: seq<U8>)
    ensures Outbound(lease, p).Some? <==> Accepted(p, LeaseAddr(lease), true) && !InBlocks(p[16..20])
    ensures Whole(p) ==> (Outbound(lease, p).Some? <==> !InBlocks(p[16..20]))
    ensures Outbound(lease, p).Some? && HeaderLen(p) >= 20 ==> Outbound(lease, p).value[12..16] == [10, 8, 0, lease]
  {
    hide InBlocks, Rewrite;
    DropExact(p);
    RewriteAccepts(p, LeaseAddr(lease), true);
  }

  /** Which tunnel a packet read from the TUN device is for. */
  function Owner(s: State, p: seq<U8>): Option<Tunnel>
    requires |s.pool| == POOL_SIZE
  {
    if |p| < 20 || p[0] / 16 != 4 || p[16..19] != CLIENT[..3] || !(LEASE_FIRST <= p[19] <= LEASE_LAST) then None
    else
      var slot := s.pool[p[19] - LEASE_FIRST];
      if slot.None? || slot.value !in s.alive then None else slot
  }

  /** The tunnel that gets the packet, and what it is sent. */
  function Inbound(s: State, p: seq<U8>): Option<(Tunnel, seq<U8>)>
    requires |s.pool| == POOL_SIZE
  {
    var t, r := Owner(s, p), Rewrite(p, CLIENT, false);
    if t.Some? && r.ok then Some((t.value, r.pkt)) else None
  }

  /** An address is a lease exactly when it has the prefix and a last octet in the leases' range. */
  lemma OwnerExact(s: State, t: Tunnel, p: seq<U8>)
    requires Inv(s) && |p| >= 20 && p[0] / 16 == 4
    ensures Owner(s, p) == Some(t) <==> t in s.handlers && p[16..20] == LeaseAddr(s.handlers[t])
  {
    assert p[16..20] == p[16..19] + [p[19]];
    assert LeaseAddr(p[19]) == CLIENT[..3] + [p[19]];
    if t in s.handlers && p[16..20] == LeaseAddr(s.handlers[t]) {
      assert p[16..20][3] == s.handlers[t] && p[16..20][..3] == p[16..19];
    }
  }

  /** A packet reaches at most the live tunnel that holds its destination as a lease. */
  lemma InboundReachesOwner(s: State, p: seq<U8>)
    requires Inv(s) && Inbound(s, p).Some?
    ensures var t := Inbound(s, p).value.0;
      t in s.handlers && p[16..20] == LeaseAddr(s.handlers[t])
  {
    OwnerExact(s, Inbound(s, p).value.0, p);
  }

  /** A packet reaches tunnel `t` exactly if its destination is that tunnel's lease and the rewriting accepts it. */
  lemma InboundExact(s: State, t: Tunnel, p: seq<U8>)
    requires Inv(s)
    ensures Inbound(s, p).Some? && Inbound(s, p).value.0 == t <==>
      Accepted(p, [10, 8, 0, 2], false) && t in s.handlers && p[16..20] == [10, 8, 0, s.handlers[t]]
    ensures Inbound(s, p).Some? && HeaderLen(p) >= 20 ==> Inbound(s, p).value.1[16..20] == [10, 8, 0, 2]
  {
    hide Inv, Rewrite;
    InvPool(s);
    RewriteAccepts(p, CLIENT, false);
    if |p| >= 20 && p[0] / 16 == 4 { OwnerExact(s, t, p); }
  }

  /** ... and a whole packet does reach it, readdressed to the client, with each checksum verifying
      exactly when it did before. */
  lemma InboundDelivers(s: State, t: Tunnel, p: seq<U8>) returns (q: seq<U8>)
    requires Inv(s) && t in s.handlers && Whole(p) && p[16..20] == LeaseAddr(s.handlers[t])
    ensures Inbound(s, p) == Some((t, q)) && SameVerdict(p, q, CLIENT, 16)
  {
    OwnerExact(s, t, p);
    q := RewritePreservesValidity(p, CLIENT, false);
  }

  /** Steps that neither register, unregister nor discard `t`, in any number, leave its lease alone. */
  lemma {:induction false} LeaseStays(states: seq<State>, ops: seq<Op>, leases: seq<Option<U8>>, t: Tunnel, m: nat, n: nat)
    requires IsRun(states, ops, leases) && m <= n <= |ops| && t in states[m].handlers
    requires forall i :: m <= i < n ==> ops[i].t != t
    ensures t in states[n].handlers && states[n].handlers[t] == states[m].handlers[t]
  {
    if m < n {
      LeaseStays(states, ops, leases, t, m, n - 1);
      RunKeepsInv(states, ops, leases, n - 1);
      StepKeepsLeases(states[n - 1], ops[n - 1], states[n], leases[n - 1]);
    }
  }

  /** Source translation over a whole run: a whole packet that tunnel `t` sends to an allowed destination
      goes out under its lease with its checksums' verdicts kept, and any whole packet answering it, read
      any time later while `t` keeps its registration, comes back to `t` alone, addressed to the client,
      with its verdicts kept. */
  lemma SnatRoundTrip(states: seq<State>, ops: seq<Op>, leases: seq<Option<U8>>, t: Tunnel, m: nat, n: nat,
                      p: seq<U8>, reply: seq<U8>)
    returns (q: seq<U8>, back: seq<U8>)
    requires IsRun(states, ops, leases) && m <= n <= |ops| && t in states[m].handlers
    requires forall i :: m <= i < n ==> ops[i].t != t
    requires Whole(p) && !InBlocks(p[16..20]) && Whole(reply)
    requires reply[16..20] == LeaseAddr(states[m].handlers[t])
    ensures Outbound(states[m].handlers[t], p) == Some(q)
    ensures SameVerdict(p, q, LeaseAddr(states[m].handlers[t]), 12) && q[12..16] == reply[16..20]
    ensures |states[n].pool| == POOL_SIZE && Inbound(states[n], reply) == Some((t, back))
    ensures SameVerdict(reply, back, CLIENT, 16)
  {
    assert |p| >= 20 && p[0] / 16 == 4;
    hide Inv, Whole, Rewrite, Inbound, DropOutbound, IpChecksumOk, L4ChecksumOk, InBlocks;
    DropExact(p);
    q := RewritePreservesValidity(p, LeaseAddr(states[m].handlers[t]), true);
    LeaseStays(states, ops, leases, t, m, n);
    RunKeepsInv(states, ops, leases, n);
    InvPool(states[n]);
    back := InboundDelivers(states[n], t, reply);
  }

  // ── The gateway object ───────────────────────────────────────────────

  /** `alive` and `handlers` stand for what the tunnels themselves hold: their owners' references and the
      installed inbound-packet handlers. */
  class TunGateway {
    const pool: array<Option<Tunnel>>
    var alive: set<Tunnel>
    var handlers: map<Tunnel, U8>

    ghost predicate Valid()
      reads this
    {
      pool.Length == POOL_SIZE
    }

    ghost function View(): State
      reads this, pool
    {
      State(pool[..], alive, handlers)
    }

    constructor ()
      ensures Valid() && fresh(pool) && View() == State(seq(POOL_SIZE, _ => None), {}, map[])
    {
      pool := new Option<Tunnel>[POOL_SIZE](_ => None);
      alive, handlers := {}, map[];
    }

    /** The first slot that holds `x`, or the length of the pool. */
    method Position(x: Option<Tunnel>) returns (i: nat)
      requires Valid()
      ensures FirstWhere(pool[..], x, i) || (i == POOL_SIZE && x !in pool[..])
    {
      i := 0;
      while i < pool.Length
        invariant i <= pool.Length
        invariant forall j :: 0 <= j < i ==> pool[j] != x
      {
        if pool[i] == x { return; }
        i := i + 1;
      }
    }

    method Register(t: Tunnel) returns (lease: Option<U8>)
      requires Valid() && t in alive
      modifies this`handlers, pool
      ensures Valid() && Step(old(View()), Op.Register(t), View(), lease)
    {
      var i := Position(None);
      if i == POOL_SIZE { return None; }
      pool[i] := Some(t);
      lease := Some(i + LEASE_FIRST);
      handlers := handlers[t := i + LEASE_FIRST];
    }

    method Unregister(t: Tunnel)
      requires Valid() && t in alive
      modifies this`handlers, pool
      ensures Valid() && Step(old(View()), Op.Unregister(t), View(), None)
    {
      var i := Position(Some(t));
      if i == POOL_SIZE { return; }
      ghost var was := View();
      pool[i] := None;
      handlers := handlers - {t};
      assert FirstWhere(was.pool, Some(t), i) && View() == was.(pool := was.pool[i := None], handlers := was.handlers - {t});
    }

    method Lookup(buf: array<U8>) returns (t: Option<Tunnel>)
      requires Valid()
      ensures t == Owner(View(), buf[..])
    {
      if buf.Length < 20 || buf[0] / 16 != 4 || buf[16..19] != CLIENT[..3] { return None; }
      var lease := buf[19];
      if !(LEASE_FIRST <= lease <= LEASE_LAST) { return None; }
      var slot := pool[lease - LEASE_FIRST];
      t := if slot.None? || slot.value !in alive then None else slot;
    }

    /** One packet of the read loop, rewritten in its buffer. */
    method RouteInbound(buf: array<U8>) returns (r: Option<(Tunnel, seq<U8>)>)
      requires Valid()
      modifies buf
      ensures r == Inbound(View(), old(buf[..]))
    {
      var t := Lookup(buf);
      if t.None? { return None; }
      var ok := RewriteV4Addr(buf, CLIENT, false);
      r := if ok then Some((t.value, buf[..])) else None;
    }

    /** The handler that `Register` installs. */
    method HandleOutbound(t: Tunnel, pkt: seq<U8>) returns (written: Option<seq<U8>>)
      requires t in handlers
      ensures written == Outbound(handlers[t], pkt)
    {
      if DropOutbound(pkt) { return None; }
      var buf := new U8[|pkt|](i requires 0 <= i < |pkt| => pkt[i]);
      assert buf[..] == pkt;
      var ok := RewriteV4Addr(buf, LeaseAddr(handlers[t]), true);
      written := if ok then Some(buf[..]) else None;
    }
  }
}

/** The TUN bridge's writer: packets wait in wire form and are written as far as the device takes them. */
module TunBridge {
  import opened Bytes

  const MAX_PENDING_TX_PKTS: nat := 4096
  const UTUN_HEADER_LEN: nat := 4

  // ── Wire forms ───────────────────────────────────────────────────────

  datatype TunFormat = RawIp | UtunAfHeader

  /** AF_INET or AF_INET6, the latter for IP version 6 only. */
  function AfForIp(ip: seq<U8>): U8 { if ip != [] && ip[0] / 16 == 6 then 30 else 2 }

  function WrapForWire(ip: seq<U8>, format: TunFormat): seq<U8> {
    match format
    case RawIp => ip
    case UtunAfHeader => [0, 0, 0, AfForIp(ip)] + ip
  }

  function UnwrapFromWire(wire: seq<U8>, format: TunFormat): seq<U8> {
    match format
    case RawIp => wire
    case UtunAfHeader => if |wire| <= UTUN_HEADER_LEN then [] else wire[UTUN_HEADER_LEN..]
  }

  /** On macOS the address family tells the two IP versions apart; elsewhere nothing is added. */
  lemma WireFamily(ip: seq<U8>)
    requires ip != []
    ensures WrapForWire(ip, RawIp) == ip
    ensures |WrapForWire(ip, UtunAfHeader)| == 4 + |ip|
    ensures ip[0] / 16 == 4 ==> WrapForWire(ip, UtunAfHeader)[..4] == [0, 0, 0, 2]
    ensures ip[0] / 16 == 6 ==> WrapForWire(ip, UtunAfHeader)[..4] == [0, 0, 0, 30]
  {
  }

  lemma UnwrapWrap(ip: seq<U8>, format: TunFormat)
    ensures UnwrapFromWire(WrapForWire(ip, format), format) == ip
  {
    if format == UtunAfHeader { assert WrapForWire(ip, format)[UTUN_HEADER_LEN..] == ip; }
  }

  // ── The writer ───────────────────────────────────────────────────────

  /** What one write to the device returned. The operating system never reports more than it was given. */
  datatype WriteResult = Wrote(n: nat) | WouldBlock | Interrupted | Failed

  datatype Interest = Interest(read: bool, write: bool)

  /** What a drain leaves pending, the bytes it gets written, whether it succeeds, and the answers not asked for. */
  datatype Drained = Drained(pending: seq<seq<U8>>, taken: seq<U8>, ok: bool, rest: seq<WriteResult>)
  {
    function After(done: seq<U8>): Drained { this.(taken := done + taken) }
  }

  function Draining(pending: seq<seq<U8>>, script: seq<WriteResult>): Drained
    decreases |script|
  {
    if pending == [] || script == [] then Drained(pending, [], true, script)
    else
      match script[0]
      case WouldBlock => Drained(pending, [], true, script[1..])
      case Interrupted => Draining(pending, script[1..])
      case Failed => Drained(pending, [], false, script[1..])
      case Wrote(n) =>
        if n < |pending[0]| then Drained(pending[0 := pending[0][n..]], pending[0][..n], true, script[1..])
        else Draining(pending[1..], script[1..]).After(pending[0])
  }

  lemma AfterTwice(d: Drained, a: seq<U8>, b: seq<U8>)
    ensures d.After(b).After(a) == d.After(a + b)
  {
    assert a + (b + d.taken) == a + b + d.taken;
  }

  function Concat(ps: seq<seq<U8>>): seq<U8> {
    if ps == [] then [] else ps[0] + Concat(ps[1..])
  }

  lemma {:induction false} ConcatAppend(ps: seq<seq<U8>>, p: seq<U8>)
    ensures Concat(ps + [p]) == Concat(ps) + p
  {
    if ps == [] {
      assert ps + [p] == [p];
      assert Concat([p]) == p + Concat([]);
    } else {
      assert (ps + [p])[1..] == ps[1..] + [p];
      ConcatAppend(ps[1..], p);
    }
  }

  /** Whatever the device answers, the bytes it took and those still pending are those that were pending. */
  lemma {:induction false} DrainConserves(pending: seq<seq<U8>>, script: seq<WriteResult>)
    ensures var d := Draining(pending, script); d.taken + Concat(d.pending) == Concat(pending) && |d.pending| <= |pending|
    decreases |script|
  {
    if pending != [] && script != [] {
      match script[0]
      case Interrupted => DrainConserves(pending, script[1..]);
      case Wrote(n) =>
        if n < |pending[0]| {
          assert pending[0] == pending[0][..n] + pending[0][n..];
          assert pending[0 := pending[0][n..]][1..] == pending[1..];
        } else {
          DrainConserves(pending[1..], script[1..]);
          var d := Draining(pending[1..], script[1..]);
          assert pending[0] + d.taken + Concat(d.pending) == pending[0] + (d.taken + Concat(d.pending));
        }
      case _ =>
    }
  }

  /** Interrupted writes are tried again: they make no difference. */
  lemma {:induction false} InterruptedIsRetried(pending: seq<seq<U8>>, a: seq<WriteResult>, b: seq<WriteResult>)
    ensures var d, d' := Draining(pending, a + b), Draining(pending, a + [Interrupted] + b);
      d'.pending == d.pending && d'.taken == d.taken && d'.ok == d.ok
    decreases |a|
  {
    if a == [] {
      assert a + b == b && a + [Interrupted] + b == [Interrupted] + b && ([Interrupted] + b)[1..] == b;
    } else {
      assert (a + b)[1..] == a[1..] + b && (a + [Interrupted] + b)[1..] == a[1..] + [Interrupted] + b;
      if pending != [] {
        if a[0].Interrupted? {
          InterruptedIsRetried(pending, a[1..], b);
        } else if a[0].Wrote? && a[0].n >= |pending[0]| {
          InterruptedIsRetried(pending[1..], a[1..], b);
        }
      }
    }
  }

  /** The device's answer to full writes of the first `n` packets. */
  function FullWrites(pending: seq<seq<U8>>, n: nat): seq<WriteResult>
    requires n <= |pending|
  {
    if n == 0 then [] else [Wrote(|pending[0]|)] + FullWrites(pending[1..], n - 1)
  }

  /** What a drain comes to when the first `n` packets are written in full and the device then answers `stop`: a full
      device ends it as a success, a partial write as a success with the rest of the packet in front, and a failure
      as a failure; in each case the first `n` packets are gone. */
  lemma {:induction false} DrainByCase(pending: seq<seq<U8>>, n: nat, stop: WriteResult, rest: seq<WriteResult>)
    requires n < |pending| && !stop.Interrupted? && (stop.Wrote? ==> stop.n < |pending[n]|)
    ensures Draining(pending, FullWrites(pending, n) + [stop] + rest) ==
      if stop.Wrote? then Drained([pending[n][stop.n..]] + pending[n + 1..], Concat(pending[..n]) + pending[n][..stop.n], true, rest)
      else Drained(pending[n..], Concat(pending[..n]), stop.WouldBlock?, rest)
    decreases n
  {
    var script := FullWrites(pending, n) + [stop] + rest;
    if n == 0 {
      assert script[0] == stop && script[1..] == rest;
      assert stop.Wrote? ==> pending[0 := pending[0][stop.n..]] == [pending[0][stop.n..]] + pending[1..];
      assert stop.Wrote? ==> [] + pending[0][..stop.n] == pending[0][..stop.n];
    } else {
      DrainByCase(pending[1..], n - 1, stop, rest);
      assert script[0] == Wrote(|pending[0]|) && script[1..] == FullWrites(pending[1..], n - 1) + [stop] + rest;
      assert pending[..n][0] == pending[0] && pending[..n][1..] == pending[1..][..n - 1];
      assert pending[1..][n - 1..] == pending[n..] && pending[1..][n..] == pending[n + 1..];
      var front := Concat(pending[1..][..n - 1]);
      assert stop.Wrote? ==> pending[0] + (front + pending[n][..stop.n]) == pending[0] + front + pending[n][..stop.n];
    }
  }

  /** ... and when all are written in full, nothing is left. */
  lemma {:induction false} DrainAll(pending: seq<seq<U8>>, rest: seq<WriteResult>)
    ensures Draining(pending, FullWrites(pending, |pending|) + rest) == Drained([], Concat(pending), true, rest)
    decreases |pending|
  {
    var script := FullWrites(pending, |pending|) + rest;
    if pending == [] {
      assert script == rest;
    } else {
      DrainAll(pending[1..], rest);
      assert script[0] == Wrote(|pending[0]|) && script[1..] == FullWrites(pending[1..], |pending| - 1) + rest;
    }
  }

  class Bridge {
    const format: TunFormat
    var pending: seq<seq<U8>>
    var paused: bool
    var interest: Interest
    /** All bytes the device has taken. */
    var written: seq<U8>
    /** The wire forms of the packets accepted so far. */
    ghost var accepted: seq<seq<U8>>

    /** Nothing accepted is lost, repeated or reordered, and the queue is bounded. */
    ghost predicate Valid()
      reads this
    {
      written + Concat(pending) == Concat(accepted) && |pending| <= MAX_PENDING_TX_PKTS
    }

    constructor (format: TunFormat)
      ensures Valid() && this.format == format && accepted == [] && written == [] && pending == []
      ensures !paused && interest == Interest(true, false)
    {
      this.format := format;
      pending, paused, interest, written, accepted := [], false, Interest(true, false), [], [];
    }

    /** Reads are wanted unless paused; when neither is wanted, reads stay on, for some interest must. */
    method RefreshInterest()
      modifies this`interest
      ensures interest == Interest(!paused || pending == [], pending != [])
    {
      if pending != [] {
        interest := Interest(!paused, true);
      } else {
        interest := Interest(true, false);
      }
    }

    /** Writes until the queue is empty, the device is full or fails; `script` is what the device answers,
        and after its end it is full. Only a failure leaves the interest as it was. */
    method Drain(script: seq<WriteResult>) returns (ok: bool)
      requires Valid()
      modifies this`pending, this`written, this`interest
      ensures Valid() && |pending| <= |old(pending)|
      ensures var d := Draining(old(pending), script);
        ok == d.ok && pending == d.pending && written == old(written) + d.taken
      ensures interest == if ok then Interest(!paused || pending == [], pending != []) else old(interest)
    {
      DrainConserves(pending, script);
      ghost var d := Draining(pending, script);
      assert written + d.taken + Concat(d.pending) == written + (d.taken + Concat(d.pending));
      ok := WriteOut(script);
      if ok { RefreshInterest(); }
    }

    /** The loop of `drain`. */
    method WriteOut(script: seq<WriteResult>) returns (ok: bool)
      modifies this`pending, this`written
      ensures var d := Draining(old(pending), script);
        ok == d.ok && pending == d.pending && written == old(written) + d.taken
    {
      var rest := script;
      ghost var done: seq<U8> := [];
      while pending != [] && rest != []
        invariant written == old(written) + done
        invariant Draining(old(pending), script) == Draining(pending, rest).After(done)
        decreases |rest|
      {
        match rest[0] {
          case Wrote(n) =>
            var pkt := pending[0];
            if n < |pkt| {
              written := written + pkt[..n];
              pending := pending[0 := pkt[n..]];
              return true;
            } else {
              AfterTwice(Draining(pending[1..], rest[1..]), done, pkt);
              written, done := written + pkt, done + pkt;
              pending := pending[1..];
            }
          case WouldBlock => return true;
          case Interrupted =>
          case Failed => return false;
        }
        rest := rest[1..];
      }
      ok := true;
    }

    /** Refuses exactly when the queue is full; otherwise the packet's wire form is accepted, whatever the
        device does. */
    method Inject(ip: seq<U8>, script: seq<WriteResult>) returns (ok: bool)
      requires Valid()
      modifies this`pending, this`written, this`interest, this`accepted
      ensures Valid()
      ensures ok <==> |old(pending)| < 4096
      ensures accepted == old(accepted) + if ok then [WrapForWire(ip, format)] else []
      ensures !ok ==> pending == old(pending) && written == old(written) && interest == old(interest)
      ensures ok ==> var d := Draining(old(pending) + [WrapForWire(ip, format)], script);
        pending == d.pending && written == old(written) + d.taken
    {
      if |pending| >= MAX_PENDING_TX_PKTS { return false; }
      var wire := WrapForWire(ip, format);
      ConcatAppend(pending, wire);
      ConcatAppend(accepted, wire);
      pending := pending + [wire];
      accepted := accepted + [wire];
      ok := Drain(script);
      ok := true;
    }

    method Resume()
      requires Valid()
      modifies this`paused, this`interest
      ensures Valid() && !paused
      ensures interest == if old(paused) then Interest(true, pending != []) else old(interest)
    {
      if !paused { return; }
      paused := false;
      RefreshInterest();
    }
  }
}

/** Whether tunnels can reach each other through the gateway. */
module Isolation {
  import opened Wrappers
  import opened Bytes
  import opened Checksum
  import opened Packets
  import opened Rewriting
  import opened Gateway

  /** The two header lengths, below the minimum of 20, for which the transport checksum's place is in the
      destination address. Neither the filter nor the rewrite refuses them. */
  predicate HitsDestination(p: seq<U8>)
    requires |p| >= 20
  {
    (p[9] == TCP && HeaderLen(p) == 0) || (p[9] == UDP && HeaderLen(p) == 12 && Be16(p, 18) != 0)
  }

  /** The destination with which a packet leaves. */
  function OutDestination(lease: U8, p: seq<U8>): seq<U8>
    requires |p| >= 20
  {
    var was, addr := p[12..16], LeaseAddr(lease);
    if was == addr || !HitsDestination(p) then p[16..20]
    else if p[9] == TCP then Word(CsumUpdateAddr(Be16(p, 16), was, addr)) + p[18..20]
    else p[16..18] + Word(UdpUpdate(Be16(p, 18), was, addr))
  }

  lemma SpliceAround(q: seq<U8>, off: nat, w: seq<U8>)
    requires |q| >= 20 && |w| == 2 && off + 2 <= |q|
    ensures off == 16 ==> Splice(q, off, w)[16..20] == w + q[18..20]
    ensures off == 18 ==> Splice(q, off, w)[16..20] == q[16..18] + w
    ensures off + 2 <= 16 || off >= 20 ==> Splice(q, off, w)[16..20] == q[16..20]
  {
  }

  lemma L3KeepsDestination(p: seq<U8>, addr: V4Addr)
    requires |p| >= 20
    ensures var q := RewriteL3(p, addr, 12);
      && q[16..18] == p[16..18] && q[18..20] == p[18..20] && q[16..20] == p[16..20]
      && Be16(q, 16) == Be16(p, 16) && Be16(q, 18) == Be16(p, 18)
  {
  }

  lemma L4Destination(q: seq<U8>, n: nat, proto: U8, was: V4Addr, addr: V4Addr)
    requires |q| >= 20 && n <= |q| && n % 4 == 0 && RewriteL4(q, n, proto, was, addr).ok
    ensures RewriteL4(q, n, proto, was, addr).pkt[16..20] ==
      if proto == TCP && n == 0 then Word(CsumUpdateAddr(Be16(q, 16), was, addr)) + q[18..20]
      else if proto == UDP && n == 12 && Be16(q, 18) != 0 then q[16..18] + Word(UdpUpdate(Be16(q, 18), was, addr))
      else q[16..20]
  {
    hide CsumUpdateAddr, UdpUpdate, Word, Be16, Splice;
    if proto == TCP {
      SpliceAround(q, n + 16, Word(CsumUpdateAddr(Be16(q, n + 16), was, addr)));
    } else if proto == UDP && Be16(q, n + 6) != 0 {
      SpliceAround(q, n + 6, Word(UdpUpdate(Be16(q, n + 6), was, addr)));
    }
  }

  lemma OutboundDestination(lease: U8, p: seq<U8>)
    requires Outbound(lease, p).Some?
    ensures |Outbound(lease, p).value| == |p| && Outbound(lease, p).value[16..20] == OutDestination(lease, p)
  {
    hide DropOutbound, CsumUpdateAddr, UdpUpdate, Word, Be16;
    var was, addr, n := p[12..16], LeaseAddr(lease), HeaderLen(p);
    if was != addr {
      L3KeepsDestination(p, addr);
      L4Destination(RewriteL3(p, addr, 12), n, p[9], was, addr);
    }
  }

  /** Rewriting the source keeps the destination, except exactly when the checksum's place is in it and the
      checksum changes: when the two source addresses differ modulo 65535, or a TCP checksum is 0xffff. */
  lemma DestinationKept(lease: U8, p: seq<U8>)
    requires |p| >= 20
    ensures OutDestination(lease, p) == p[16..20] <==>
      || p[12..16] == LeaseAddr(lease) || !HitsDestination(p)
      || (AddrSum(p[12..16]) % 65535 == AddrSum(LeaseAddr(lease)) % 65535 && (p[9] == TCP ==> Be16(p, 16) != 0xffff))
  {
    var was, addr := p[12..16], LeaseAddr(lease);
    if was != addr && HitsDestination(p) {
      if p[9] == TCP {
        WordKept(Be16(p, 16), was, addr);
        WordInPlace(p[16..20], 0, CsumUpdateAddr(Be16(p, 16), was, addr));
        assert p[16..20][2..] == p[18..20];
      } else {
        UdpWordKept(Be16(p, 18), was, addr);
        WordInPlace(p[16..20], 2, UdpUpdate(Be16(p, 18), was, addr));
        assert p[16..20][..2] == p[16..18];
      }
    }
  }

  lemma WordInPlace(d: seq<U8>, i: nat, c: U16)
    requires |d| == 4 && (i == 0 || i == 2)
    ensures i == 0 ==> (Word(c) + d[2..] == d <==> c == Be16(d, 0))
    ensures i == 2 ==> (d[..2] + Word(c) == d <==> c == Be16(d, 2))
  {
    WordOfBe16(d, i);
    assert d == d[..2] + d[2..] && d[2..] == d[2..4] && d[..2] == d[0..2];
    if Word(c) == d[i..i + 2] { WordInjective(c, Be16(d, i)); }
    if i == 0 {
      assert (Word(c) + d[2..])[0..2] == Word(c);
    } else {
      assert (d[..2] + Word(c))[2..4] == Word(c);
    }
  }

  lemma WordInjective(c: U16, d: U16)
    requires Word(c) == Word(d)
    ensures c == d
  {
    assert Word(c)[0] == Word(d)[0] && Word(c)[1] == Word(d)[1];
  }

  lemma WordKept(c: U16, was: V4Addr, addr: V4Addr)
    requires AddrSum(addr) > 0
    ensures CsumUpdateAddr(c, was, addr) == c <==> AddrSum(was) % 65535 == AddrSum(addr) % 65535 && c != 0xffff
  {
    hide CsumUpdateAddr, AddrSum;
    var k := UpdateConserves(c, was, addr);
    Reduced(c);
    SameClass(CsumUpdateAddr(c, was, addr), c, AddrSum(was), AddrSum(addr), k);
  }

  lemma UdpWordKept(c: U16, was: V4Addr, addr: V4Addr)
    requires c != 0 && AddrSum(addr) > 0
    ensures UdpUpdate(c, was, addr) == c <==> AddrSum(was) % 65535 == AddrSum(addr) % 65535
  {
    hide CsumUpdateAddr, AddrSum;
    var k := UpdateConserves(c, was, addr);
    Reduced(c);
    SameClass(CsumUpdateAddr(c, was, addr), c, AddrSum(was), AddrSum(addr), k);
  }

  lemma Reduced(c: U16)
    ensures c % 65535 == if c == 0xffff then 0 else c
  {
  }

  /** `d` is the representative below 65535 of `c` exactly when `x` and `y` are congruent. */
  lemma SameClass(d: U16, c: U16, x: nat, y: nat, k: int)
    requires d < 0xffff && d + y == c + x + 65535 * k
    ensures x % 65535 == y % 65535 <==> d == c % 65535
  {
    Congruent(x, y);
    Congruent(c, d);
    if x % 65535 == y % 65535 {
      var m := (y - x) / 65535;
      assert c - d == 65535 * (m - k);
    }
  }

  lemma Congruent(x: nat, y: nat)
    ensures x % 65535 == y % 65535 <==> y - x == 65535 * ((y - x) / 65535)
    ensures forall m: int :: y - x == 65535 * m ==> x % 65535 == y % 65535
  {
  }

  /** Tunnels are isolated from each other: what a tunnel gets past the filter is routed to no tunnel when read
      back, except exactly a TCP packet with header length 0 whose updated checksum spells 10.8. */
  lemma NoPeerToPeer(s: State, lease: U8, p: seq<U8>, t: Tunnel)
    requires Inv(s)
    ensures Outbound(lease, p).Some? ==>
      (Owner(s, Outbound(lease, p).value) == Some(t) <==>
        && p[9] == TCP && HeaderLen(p) == 0 && p[12..16] != LeaseAddr(lease)
        && CsumUpdateAddr(Be16(p, 16), p[12..16], LeaseAddr(lease)) == 0x0a08
        && p[18] == 0 && t in s.handlers && p[19] == s.handlers[t])
  {
    if Outbound(lease, p).Some? {
      var q, d := Outbound(lease, p).value, OutDestination(lease, p);
      OutboundDestination(lease, p);
      OutboundVersion(lease, p);
      OwnerExact(s, t, q);
      if t in s.handlers { LeaseDestination(lease, p, d, s.handlers[t]); }
    }
  }

  lemma OutboundVersion(lease: U8, p: seq<U8>)
    requires Outbound(lease, p).Some?
    ensures |Outbound(lease, p).value| == |p| >= 20 && Outbound(lease, p).value[0] == p[0]
  {
    RewriteFrame(p, LeaseAddr(lease), true);
  }

  lemma LeaseDestination(lease: U8, p: seq<U8>, d: seq<U8>, x: U8)
    requires !DropOutbound(p) && d == OutDestination(lease, p)
    ensures d == LeaseAddr(x) <==>
      && p[9] == TCP && HeaderLen(p) == 0 && p[12..16] != LeaseAddr(lease)
      && CsumUpdateAddr(Be16(p, 16), p[12..16], LeaseAddr(lease)) == 0x0a08
      && p[18] == 0 && p[19] == x
  {
    var was, addr := p[12..16], LeaseAddr(lease);
    if p[9] == TCP && HeaderLen(p) == 0 && was != addr {
      var c := CsumUpdateAddr(Be16(p, 16), was, addr);
      assert d == [c / 256, c % 256, p[18], p[19]];
      assert c == 0x0a08 <==> c / 256 == 10 && c % 256 == 8;
      assert d == LeaseAddr(x) <==> d[0] == 10 && d[1] == 8 && d[2] == 0 && d[3] == x;
    } else {
      assert d[0] == p[16] && d[1] == p[17];
    }
  }

  /** There is such a packet: its destination 8.8.0.3 becomes 10.8.0.3, another tunnel's lease. */
  lemma ShortHeaderReachesPeer()
    ensures var p: seq<U8> := [0x40, 0, 0, 20, 0, 0, 0, 0, 64, 6, 0, 0, 12, 8, 0, 2, 8, 8, 0, 3];
      !DropOutbound(p) && Outbound(2, p).Some? && Outbound(2, p).value[16..20] == LeaseAddr(3)
  {
    var p: seq<U8> := [0x40, 0, 0, 20, 0, 0, 0, 0, 64, 6, 0, 0, 12, 8, 0, 2, 8, 8, 0, 3];
    assert p[12..16] == [12, 8, 0, 2] && p[16..20] == [8, 8, 0, 3];
    hide Outbound, DropOutbound, Rewrite, CsumUpdateAddr;
    ShortHeaderOut(p);
  }

  lemma ShortHeaderOut(p: seq<U8>)
    requires |p| == 20 && p[0] == 0x40 && p[9] == TCP && p[12..16] == [12, 8, 0, 2] && p[16..20] == [8, 8, 0, 3]
    ensures !DropOutbound(p) && Outbound(2, p).Some? && Outbound(2, p).value[16..20] == LeaseAddr(3)
  {
    assert p[16] == p[16..20][0] && p[17] == p[16..20][1] && p[18] == p[16..20][2] && p[19] == p[16..20][3];
    assert !DropOutbound(p) && Outbound(2, p).Some?;
    assert Be16(p, 16) == 0x0808;
    hide Outbound, DropOutbound, CsumUpdateAddr, OutDestination;
    OutboundDestination(2, p);
    ShortHeaderChecksum();
    LeaseDestination(2, p, OutDestination(2, p), 3);
  }

  lemma ShortHeaderChecksum()
    ensures CsumUpdateAddr(0x0808, [12, 8, 0, 2], LeaseAddr(2)) == 0x0a08
  {
    var was: V4Addr, addr := [12, 8, 0, 2], LeaseAddr(2);
    assert Be16(was, 0) == 0x0c08 && Be16(was, 2) == 2 && Be16(addr, 0) == 0x0a08 && Be16(addr, 2) == 2;
    assert CsumUpdate16(0x0808, 0x0c08, 0x0a08) == 0x0a08;
  }
}

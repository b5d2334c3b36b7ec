/** The destination policy: addresses that a tunneled client may not reach. */
module Filter {
  import opened Bytes
  import opened Packets

  predicate BlockedV4(a: V4Addr) {
    || a[0] == 0
    || a[0] == 127
    || a[0] == 10 || (a[0] == 172 && 16 <= a[1] < 32) || (a[0] == 192 && a[1] == 168)
    || (a[0] == 100 && 64 <= a[1] < 128)
    || (a[0] == 169 && a[1] == 254)
    || a == [255, 255, 255, 255]
    || 224 <= a[0] < 240
    || a[..3] == [192, 0, 2] || a[..3] == [198, 51, 100] || a[..3] == [203, 0, 113]
    || a == [192, 0, 0, 192]
  }

  function Number(a: V4Addr): nat { a[0] as int * 0x100_0000 + a[1] as int * 0x1_0000 + a[2] as int * 0x100 + a[3] }

  /** Whether `a` is in the block `net`/`bits`: whether the first `bits` of the 32 bits of the two agree. */
  predicate Within(a: V4Addr, net: V4Addr, bits: nat)
    requires bits <= 32
  {
    SamePrefix(Number(a), Number(net), Pow2(32 - bits))
  }

  predicate SamePrefix(m: nat, n: nat, size: nat)
    requires size > 0
  {
    m / size == n / size
  }

  function Pow2(n: nat): (p: nat)
    ensures p > 0
  {
    if n == 0 then 1 else 2 * Pow2(n - 1)
  }

  /** The policy in prefix notation: "this network", loopback, the private ranges, carrier-grade NAT, link-local,
      broadcast, multicast, the documentation ranges, and one cloud's metadata address. */
  predicate InBlocks(a: V4Addr) {
    hide Within;
    var thisNetwork, loopback := Within(a, [0, 0, 0, 0], 8), Within(a, [127, 0, 0, 0], 8);
    var private8, private12 := Within(a, [10, 0, 0, 0], 8), Within(a, [172, 16, 0, 0], 12);
    var private16, sharedNat := Within(a, [192, 168, 0, 0], 16), Within(a, [100, 64, 0, 0], 10);
    var linkLocal, broadcast := Within(a, [169, 254, 0, 0], 16), Within(a, [255, 255, 255, 255], 32);
    var multicast, metadata := Within(a, [224, 0, 0, 0], 4), Within(a, [192, 0, 0, 192], 32);
    var doc1, doc2, doc3 := Within(a, [192, 0, 2, 0], 24), Within(a, [198, 51, 100, 0], 24), Within(a, [203, 0, 113, 0], 24);
    || thisNetwork || loopback || private8 || private12 || private16 || sharedNat || linkLocal || broadcast
    || multicast || doc1 || doc2 || doc3 || metadata
  }

  lemma Powers()
    ensures Pow2(0) == 1 && Pow2(8) == 0x100 && Pow2(16) == 0x1_0000 && Pow2(20) == 0x10_0000
    ensures Pow2(22) == 0x40_0000 && Pow2(24) == 0x100_0000 && Pow2(28) == 0x1000_0000
  {
    assert Pow2(4) == 16;
    assert Pow2(12) == 0x1000;
  }

  // What the prefix of each length amounts to in octets.

  lemma Prefix4(a: V4Addr)
    ensures Number(a) / 0x1000_0000 == a[0] / 16
  {
  }

  lemma Prefix8(a: V4Addr)
    ensures Number(a) / 0x100_0000 == a[0]
  {
  }

  lemma Prefix10(a: V4Addr)
    ensures Number(a) / 0x40_0000 == a[0] as int * 4 + a[1] / 64
  {
  }

  lemma Prefix12(a: V4Addr)
    ensures Number(a) / 0x10_0000 == a[0] as int * 16 + a[1] / 16
  {
  }

  lemma Prefix16(a: V4Addr)
    ensures Number(a) / 0x1_0000 == a[0] as int * 256 + a[1]
  {
  }

  lemma Prefix24(a: V4Addr)
    ensures Number(a) / 0x100 == (a[0] as int * 256 + a[1]) * 256 + a[2]
  {
  }

  lemma LastOctet(a: V4Addr)
    ensures Number(a) == Number(a) / 0x100 * 0x100 + a[3]
  {
  }

  lemma Within8(a: V4Addr, net: V4Addr)
    ensures Within(a, net, 8) <==> a[0] == net[0]
  {
    hide Pow2, Number;
    Powers();
    Prefix8(a);
    Prefix8(net);
  }

  lemma Within16(a: V4Addr, net: V4Addr)
    ensures Within(a, net, 16) <==> a[0] == net[0] && a[1] == net[1]
  {
    hide Pow2, Number;
    Powers();
    Prefix16(a);
    Prefix16(net);
  }

  lemma Within24(a: V4Addr, net: V4Addr)
    ensures Within(a, net, 24) <==> a[..3] == net[..3]
  {
    hide Pow2, Number;
    Powers();
    Prefix24(a);
    Prefix24(net);
    assert a[..3] == [a[0], a[1], a[2]] && net[..3] == [net[0], net[1], net[2]];
  }

  lemma Within32(a: V4Addr, net: V4Addr)
    ensures Within(a, net, 32) <==> a == net
  {
    hide Pow2, Number;
    Powers();
    Within24(a, net);
    Prefix24(a);
    Prefix24(net);
    LastOctet(a);
    LastOctet(net);
    assert a == a[..3] + [a[3]] && net == net[..3] + [net[3]];
  }

  lemma OddBlocks(a: V4Addr)
    ensures Within(a, [172, 16, 0, 0], 12) <==> a[0] == 172 && 16 <= a[1] < 32
    ensures Within(a, [100, 64, 0, 0], 10) <==> a[0] == 100 && 64 <= a[1] < 128
    ensures Within(a, [224, 0, 0, 0], 4) <==> 224 <= a[0] < 240
  {
    hide Pow2, Number;
    Powers();
    Prefix12(a);
    Prefix12([172, 16, 0, 0]);
    Prefix10(a);
    Prefix10([100, 64, 0, 0]);
    Prefix4(a);
    Prefix4([224, 0, 0, 0]);
  }

  /** The tests on octets block exactly the addresses whose prefixes are those of the policy. */
  lemma BlockedExact(a: V4Addr)
    ensures BlockedV4(a) <==> InBlocks(a)
  {
    hide Within;
    Within8(a, [0, 0, 0, 0]);
    Within8(a, [127, 0, 0, 0]);
    Within8(a, [10, 0, 0, 0]);
    Within16(a, [192, 168, 0, 0]);
    Within16(a, [169, 254, 0, 0]);
    Within24(a, [192, 0, 2, 0]);
    Within24(a, [198, 51, 100, 0]);
    Within24(a, [203, 0, 113, 0]);
    Within32(a, [255, 255, 255, 255]);
    Within32(a, [192, 0, 0, 192]);
    OddBlocks(a);
  }
}

/** The Internet checksum (RFC 1071) and its incremental update (RFC 1624, equation 3). */
module Checksum {
  import opened Bytes

  /** Sum of the big-endian words of `s`, unbounded; an odd last byte is padded on the right. */
  function WordSum(s: seq<U8>): nat {
    if |s| == 0 then 0
    else if |s| == 1 then s[0] as int * 256
    else Be16(s, 0) + WordSum(s[2..])
  }

  /** One's complement reduction to 16 bits: 0 only for 0, else the representative in 1..0xffff.
      `FoldLoop` shows that end-around carry folding computes it. */
  function Fold(x: nat): U16 {
    if x == 0 then 0 else (x - 1) % 65535 + 1
  }

  lemma FoldStep(x: nat)
    requires x >= 0x1_0000
    ensures var y := x % 0x1_0000 + x / 0x1_0000;
      0 < y < x && Fold(x) == Fold(y)
  {
    var q, r := x / 0x1_0000, x % 0x1_0000;
    assert x == 0x1_0000 * q + r && q > 0;
    FoldEqual(x, q + r, q);
  }

  /** Folding forgets everything but the residue modulo 65535 and whether the sum is zero. */
  lemma FoldCongruent(x: nat, y: nat)
    ensures Fold(x) == Fold(y) <==> (x % 65535 == y % 65535 && (x == 0 <==> y == 0))
  {
    hide Fold;
    FoldByResidue(x);
    FoldByResidue(y);
  }

  /** The folded sum by the residue. */
  lemma FoldByResidue(x: nat)
    ensures Fold(x) == if x == 0 then 0 else if x % 65535 == 0 then 65535 else x % 65535
  {
    var q, r := x / 65535, x % 65535;
    assert x == 65535 * q + r;
    if x > 0 {
      if r == 0 { ModShift(65534, q - 1); } else { ModShift(r - 1, q); }
    }
  }

  lemma FoldQuotient(x: nat) returns (k: nat)
    ensures x == Fold(x) + 65535 * k
  {
    k := if x == 0 then 0 else (x - 1) / 65535;
  }

  lemma FoldEqual(x: nat, y: nat, k: int)
    requires x > 0 && y > 0 && x == y + 65535 * k
    ensures Fold(x) == Fold(y)
  {
    ModShift(y - 1, k);
  }

  lemma ModShift(a: int, k: int)
    ensures (a + 65535 * k) % 65535 == a % 65535
  {
  }

  /** Summation can be resumed from a folded partial sum. */
  lemma FoldResumes(x: nat, y: nat)
    ensures Fold(Fold(x) + y) == Fold(x + y)
  {
    var k := FoldQuotient(x);
    if Fold(x) + y > 0 { FoldEqual(x + y, Fold(x) + y, k); }
  }

  lemma {:induction false} WordSumConcat(a: seq<U8>, b: seq<U8>)
    requires |a| % 2 == 0
    ensures WordSum(a + b) == WordSum(a) + WordSum(b)
  {
    if |a| == 0 {
      assert a + b == b;
    } else {
      assert (a + b)[2..] == a[2..] + b;
      WordSumConcat(a[2..], b);
    }
  }

  lemma {:induction false} WordSumBound(s: seq<U8>)
    ensures WordSum(s) <= 65535 * ((|s| + 1) / 2)
  {
    if |s| >= 2 { WordSumBound(s[2..]); }
  }

  /** Replacing an even-aligned piece changes the sum by the difference of the pieces. */
  lemma WordSumSplice(s: seq<U8>, i: nat, w: seq<U8>)
    requires i % 2 == 0 && |w| % 2 == 0 && i + |w| <= |s|
    ensures WordSum(Splice(s, i, w)) == WordSum(s) - WordSum(s[i..i + |w|]) + WordSum(w)
  {
    assert s == s[..i] + s[i..i + |w|] + s[i + |w|..];
    WordSumThree(s[..i], s[i..i + |w|], s[i + |w|..]);
    WordSumThree(s[..i], w, s[i + |w|..]);
  }

  lemma WordSumThree(a: seq<U8>, m: seq<U8>, b: seq<U8>)
    requires |a| % 2 == 0 && |m| % 2 == 0
    ensures WordSum(a + m + b) == WordSum(a) + WordSum(m) + WordSum(b)
  {
    WordSumConcat(a + m, b);
    WordSumConcat(a, m);
  }

  lemma WordSumWord(v: U16)
    ensures WordSum(Word(v)) == v
  {
  }

  /** The sum of a four-byte address, without the recursion. */
  function AddrSum(a: seq<U8>): nat
    requires |a| == 4
  {
    Be16(a, 0) as nat + Be16(a, 2)
  }

  lemma WordSumAddr(a: seq<U8>)
    requires |a| == 4
    ensures WordSum(a) == AddrSum(a)
  {
    assert a == Word(Be16(a, 0)) + Word(Be16(a, 2));
    WordSumConcat(Word(Be16(a, 0)), Word(Be16(a, 2)));
  }

  lemma PatchWord(s: seq<U8>, i: nat, c: U16)
    requires i % 2 == 0 && i + 2 <= |s|
    ensures WordSum(Splice(s, i, Word(c))) == WordSum(s) - Be16(s, i) + c
  {
    WordSumSplice(s, i, Word(c));
    WordOfBe16(s, i);
    WordSumWord(c);
    WordSumWord(Be16(s, i));
  }

  lemma PatchAddr(s: seq<U8>, i: nat, a: seq<U8>)
    requires i % 2 == 0 && i + 4 <= |s| && |a| == 4
    ensures WordSum(Splice(s, i, a)) == WordSum(s) - AddrSum(s[i..i + 4]) + AddrSum(a)
  {
    WordSumSplice(s, i, a);
    WordSumAddr(a);
    WordSumAddr(s[i..i + 4]);
  }

  // ── The loops of the source ──────────────────────────────────────────

  lemma TakeWord(data: seq<U8>, i: nat)
    requires i % 2 == 0 && i + 1 < |data|
    ensures WordSum(data[..i + 2]) == WordSum(data[..i]) + Be16(data, i)
  {
    assert data[..i + 2] == data[..i] + Word(Be16(data, i));
    WordSumConcat(data[..i], Word(Be16(data, i)));
  }

  lemma TakeRest(data: seq<U8>, i: nat)
    requires i % 2 == 0 && |data| - 1 <= i <= |data|
    ensures WordSum(data) == WordSum(data[..i]) + if i < |data| then data[i] as int * 256 else 0
  {
    assert data == data[..i] + data[i..];
    WordSumConcat(data[..i], data[i..]);
  }

  lemma WrapAdd(x: nat, y: nat)
    ensures (x % 0x1_0000_0000 + y) % 0x1_0000_0000 == (x + y) % 0x1_0000_0000
  {
  }

  /** The adding loop: 32-bit sums that wrap around. */
  method AddWords(data: seq<U8>, seed: U32) returns (sum: U32)
    ensures sum == (seed + WordSum(data)) % 0x1_0000_0000
  {
    assert WordSum(data[..0]) == 0;
    hide WordSum, Be16;
    sum := seed;
    var i := 0;
    while i + 1 < |data|
      invariant i % 2 == 0 && i <= |data|
      invariant sum == (seed + WordSum(data[..i])) % 0x1_0000_0000
    {
      TakeWord(data, i);
      WrapAdd(seed + WordSum(data[..i]), Be16(data, i));
      sum := (sum + Be16(data, i)) % 0x1_0000_0000;
      i := i + 2;
    }
    TakeRest(data, i);
    if i < |data| {
      WrapAdd(seed + WordSum(data[..i]), data[i] as int * 256);
      sum := (sum + data[i] as int * 256) % 0x1_0000_0000;
    }
  }

  /** `checksum_partial`. The 32-bit sum never wraps when the seed is a folded sum and the data has
      at most 131072 bytes. */
  method ChecksumPartial(data: seq<U8>, seed: U32) returns (sum: U32)
    ensures sum == Fold((seed + WordSum(data)) % 0x1_0000_0000)
    ensures seed <= 0xffff && |data| <= 131072 ==> sum == Fold(seed + WordSum(data))
  {
    sum := AddWords(data, seed);
    WordSumBound(data);
    assert seed <= 0xffff && |data| <= 131072 ==> sum == seed + WordSum(data);
    sum := FoldLoop(sum);
  }

  method FoldLoop(start: U32) returns (sum: U32)
    ensures sum == Fold(start)
  {
    sum := start;
    while sum / 0x1_0000 != 0
      invariant Fold(sum) == Fold(start)
      decreases sum
    {
      FoldStep(sum);
      sum := sum % 0x1_0000 + sum / 0x1_0000;
    }
  }

  method ChecksumFinal(partial: U32) returns (c: U16)
    ensures c == 0xffff - Fold(partial)
  {
    var sum := FoldLoop(partial);
    c := 0xffff - sum;
  }

  /** The checksum of `data`: of its 32-bit sum, which is its sum for data of at most 131072 bytes. */
  method InternetChecksum(data: seq<U8>) returns (c: U16)
    ensures c == 0xffff - Fold(WordSum(data) % 0x1_0000_0000)
    ensures |data| <= 131072 ==> c == 0xffff - Fold(WordSum(data))
  {
    var p := ChecksumPartial(data, 0);
    c := ChecksumFinal(p);
    FoldResumes(WordSum(data), 0);
    FoldResumes(WordSum(data) % 0x1_0000_0000, 0);
  }

  /** What the TCP and UDP checksums cover: the IPv4 pseudo-header and the segment. */
  function PseudoSum(src: seq<U8>, dst: seq<U8>, proto: U8, l4: seq<U8>): nat
    requires |src| == |dst| == 4
  {
    AddrSum(src) + AddrSum(dst) + proto + |l4| % 0x1_0000 + WordSum(l4)
  }

  /** `l4_checksum` for IPv4: four partial sums chained through the seed. */
  method L4Checksum(src: seq<U8>, dst: seq<U8>, proto: U8, l4: seq<U8>) returns (c: U16)
    requires |src| == |dst| == 4
    ensures |l4| <= 131072 ==> c == 0xffff - Fold(PseudoSum(src, dst, proto, l4))
  {
    hide Fold, WordSum, AddrSum;
    var sum := PseudoPartial(src, dst, proto, |l4|);
    ghost var head := AddrSum(src) + AddrSum(dst) + proto + |l4| % 0x1_0000;
    sum := ChecksumPartial(l4, sum);
    FoldResumes(head, WordSum(l4));
    c := ChecksumFinal(sum);
    FoldResumes(head + WordSum(l4), 0);
  }

  method PseudoPartial(src: seq<U8>, dst: seq<U8>, proto: U8, n: nat) returns (sum: U32)
    requires |src| == |dst| == 4
    ensures sum == Fold(AddrSum(src) + AddrSum(dst) + proto + n % 0x1_0000)
  {
    hide Fold, WordSum, AddrSum;
    WordSumAddr(src);
    sum := ChecksumPartial(src, 0);
    WordSumAddr(dst);
    sum := ChecksumPartial(dst, sum);
    FoldResumes(AddrSum(src), AddrSum(dst));
    PseudoTail(proto, n);
    sum := ChecksumPartial([0, proto, n / 256 % 256, n % 256], sum);
    FoldResumes(AddrSum(src) + AddrSum(dst), proto + n % 0x1_0000);
  }

  lemma PseudoTail(proto: U8, n: nat)
    ensures WordSum([0, proto, n / 256 % 256, n % 256]) == proto + n % 0x1_0000
  {
    var t: seq<U8> := [0, proto, n / 256 % 256, n % 256];
    WordSumAddr(t);
    assert n % 0x1_0000 == n / 256 % 256 * 256 + n % 256;
  }

  /** The end of the IPv6 pseudo-header. */
  function Tail6(proto: U8, n: nat): (t: seq<U8>)
    ensures |t| == 8
  {
    [n / 0x100_0000 % 256, n / 0x1_0000 % 256, n / 256 % 256, n % 256, 0, 0, 0, proto]
  }

  /** `l4_checksum` for IPv6: the checksum of pseudo-header and segment laid end to end. */
  method L4Checksum6(src: seq<U8>, dst: seq<U8>, proto: U8, l4: seq<U8>) returns (c: U16)
    requires |src| == |dst| == 16
    ensures |l4| <= 131072 ==> c == 0xffff - Fold(WordSum(src + dst + Tail6(proto, |l4|) + l4))
  {
    hide Fold, WordSum, Tail6;
    var tail := Tail6(proto, |l4|);
    ghost var a, b, t, d := WordSum(src), WordSum(dst), WordSum(tail), WordSum(l4);
    WordSumConcat(src + dst + tail, l4);
    WordSumConcat(src + dst, tail);
    WordSumConcat(src, dst);
    var sum := ChecksumPartial(src, 0);
    sum := ChecksumPartial(dst, sum);
    FoldResumes(a, b);
    sum := ChecksumPartial(tail, sum);
    FoldResumes(a + b, t);
    sum := ChecksumPartial(l4, sum);
    FoldResumes(a + b + t, d);
    c := ChecksumFinal(sum);
    FoldResumes(a + b + t + d, 0);
  }

  // ── Incremental update ───────────────────────────────────────────────

  function CsumUpdate16(cksum: U16, old_: U16, new_: U16): U16 {
    0xffff - Fold((0xffff - cksum) + (0xffff - old_) + new_)
  }

  function CsumUpdateAddr(cksum: U16, oldAddr: seq<U8>, newAddr: seq<U8>): U16
    requires |oldAddr| == |newAddr| == 4
  {
    var c := CsumUpdate16(cksum, Be16(oldAddr, 0), Be16(newAddr, 0));
    CsumUpdate16(c, Be16(oldAddr, 2), Be16(newAddr, 2))
  }

  method ComputeCsumUpdate16(cksum: U16, old_: U16, new_: U16) returns (c: U16)
    ensures c == CsumUpdate16(cksum, old_, new_)
  {
    var sum := FoldLoop((0xffff - cksum) + (0xffff - old_) + new_);
    c := 0xffff - sum;
  }

  method ComputeCsumUpdateAddr(cksum: U16, oldAddr: seq<U8>, newAddr: seq<U8>) returns (c: U16)
    requires |oldAddr| == |newAddr| == 4
    ensures c == CsumUpdateAddr(cksum, oldAddr, newAddr)
  {
    c := ComputeCsumUpdate16(cksum, Be16(oldAddr, 0), Be16(newAddr, 0));
    c := ComputeCsumUpdate16(c, Be16(oldAddr, 2), Be16(newAddr, 2));
  }

  /** The update conserves checksum plus covered field, modulo 65535; and it yields 0xffff
      (the code for an all-zero sum) only from 0xffff, when 255.255.255.255 (the address whose words
      sum to 0x1fffe) becomes 0.0.0.0. The quotient `k` is returned as a witness. */
  lemma UpdateConserves(cksum: U16, oldAddr: seq<U8>, newAddr: seq<U8>) returns (k: int)
    requires |oldAddr| == |newAddr| == 4
    ensures var c := CsumUpdateAddr(cksum, oldAddr, newAddr);
      && c + AddrSum(newAddr) == cksum + AddrSum(oldAddr) + 65535 * k
      && (c == 0xffff <==> cksum == 0xffff && AddrSum(oldAddr) == 0x1_fffe && AddrSum(newAddr) == 0)
  {
    k := UpdateTwiceSum(cksum, Be16(oldAddr, 0), Be16(oldAddr, 2), Be16(newAddr, 0), Be16(newAddr, 2));
    UpdateTwiceZero(cksum, Be16(oldAddr, 0), Be16(oldAddr, 2), Be16(newAddr, 0), Be16(newAddr, 2));
  }

  lemma UpdateTwiceSum(cksum: U16, o1: U16, o2: U16, n1: U16, n2: U16) returns (k: int)
    ensures CsumUpdate16(CsumUpdate16(cksum, o1, n1), o2, n2) + (n1 as int + n2)
      == cksum + (o1 as int + o2) + 65535 * k
  {
    var i := UpdateSum(cksum, o1, n1);
    var j := UpdateSum(CsumUpdate16(cksum, o1, n1), o2, n2);
    k := i + j;
  }

  lemma UpdateSum(cksum: U16, o: U16, n: U16) returns (k: int)
    ensures CsumUpdate16(cksum, o, n) + n as int == cksum + o as int + 65535 * k
  {
    var j := FoldQuotient((0xffff - cksum) + (0xffff - o) + n);
    k := j as int - 1;
  }

  lemma UpdateTwiceZero(cksum: U16, o1: U16, o2: U16, n1: U16, n2: U16)
    ensures CsumUpdate16(CsumUpdate16(cksum, o1, n1), o2, n2) == 0xffff
      <==> cksum == 0xffff && o1 as int + o2 == 0x1_fffe && n1 as int + n2 == 0
  {
    UpdateZero(cksum, o1, n1);
    UpdateZero(CsumUpdate16(cksum, o1, n1), o2, n2);
  }

  lemma UpdateZero(cksum: U16, o: U16, n: U16)
    ensures CsumUpdate16(cksum, o, n) == 0xffff <==> cksum == 0xffff && o == 0xffff && n == 0
  {
  }
}

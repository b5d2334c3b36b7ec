/** What in-place address rewriting does to a packet's meaning. */
module Rewriting {
  import opened Bytes
  import opened Checksum
  import opened Packets

  // ── Validity of a packet on the wire ─────────────────────────────────

  /** An unfragmented IPv4 packet, options allowed, with a full transport header inside it. */
  predicate Whole(p: seq<U8>) {
    && |p| >= 20 && p[0] / 16 == 4 && 20 <= HeaderLen(p) <= Be16(p, 2) <= |p|
    && Be16(p, 6) % 0x4000 == 0
    && (p[9] == TCP ==> Be16(p, 2) - HeaderLen(p) >= 20)
    && (p[9] == UDP ==> Be16(p, 2) - HeaderLen(p) >= 8)
  }

  function Segment(p: seq<U8>): seq<U8>
    requires Whole(p)
  {
    p[HeaderLen(p)..Be16(p, 2)]
  }

  /** What a receiver sums to check the transport checksum. */
  function Covered(p: seq<U8>): nat
    requires Whole(p)
  {
    PseudoSum(p[12..16], p[16..20], p[9], Segment(p))
  }

  predicate IpChecksumOk(p: seq<U8>)
    requires Whole(p)
  {
    Fold(WordSum(p[..HeaderLen(p)])) == 0xffff
  }

  /** TCP always, UDP unless the sender skipped it; other protocols do not cover the addresses. */
  predicate L4ChecksumOk(p: seq<U8>)
    requires Whole(p)
  {
    if p[9] == TCP then Fold(Covered(p)) == 0xffff
    else if p[9] == UDP then Be16(Segment(p), 6) == 0 || Fold(Covered(p)) == 0xffff
    else true
  }

  /** Offset of the transport checksum within the packet. */
  function CksumOffset(p: seq<U8>): nat
    requires |p| >= 20
  {
    HeaderLen(p) + if p[9] == TCP then 16 else 6
  }

  predicate HasL4Checksum(p: seq<U8>)
    requires Whole(p)
  {
    p[9] == TCP || (p[9] == UDP && Be16(p, CksumOffset(p)) != 0)
  }

  // ── The IP header ────────────────────────────────────────────────────

  /** `q` is `p` with `addr` at offset `at`, up to the IP checksum field. */
  predicate Readdressed(p: seq<U8>, q: seq<U8>, addr: V4Addr, at: nat) {
    && |q| == |p| >= 20 && (at == 12 || at == 16)
    && (forall k :: 0 <= k < |p| && k != 10 && k != 11 && !(at <= k < at + 4) ==> q[k] == p[k])
    && q[at..at + 4] == addr
  }

  lemma ReaddressedIsWhole(p: seq<U8>, q: seq<U8>, addr: V4Addr, at: nat)
    requires Whole(p) && Readdressed(p, q, addr, at)
    ensures Whole(q) && HeaderLen(q) == HeaderLen(p) && q[9] == p[9] && Segment(q) == Segment(p)
    ensures q[28 - at..32 - at] == p[28 - at..32 - at] && (HasL4Checksum(q) <==> HasL4Checksum(p))
  {
    hide Fold, WordSum;
    assert forall k :: 0 <= k < 10 ==> q[k] == p[k];
    assert Be16(q, 2) == Be16(p, 2) && Be16(q, 6) == Be16(p, 6) && HeaderLen(q) == HeaderLen(p);
    var n, m := HeaderLen(p), Be16(p, 2);
    SameSlice(p, q, n, m);
    SameSlice(p, q, 28 - at, 32 - at);
    assert (p[9] == TCP || p[9] == UDP) ==> Be16(q, CksumOffset(q)) == Be16(p, CksumOffset(p));
  }

  lemma SameSlice(p: seq<U8>, q: seq<U8>, i: nat, j: nat)
    requires i <= j <= |p| == |q| && forall k :: i <= k < j ==> q[k] == p[k]
    ensures q[i..j] == p[i..j]
  {
  }

  lemma L3SumShifts(p: seq<U8>, addr: V4Addr, at: nat, n: nat) returns (k: int)
    requires 20 <= n <= |p| && (at == 12 || at == 16)
    ensures WordSum(RewriteL3(p, addr, at)[..n]) == WordSum(p[..n]) + 65535 * k
  {
    var was := p[at..at + 4];
    var c := CsumUpdateAddr(Be16(p, 10), was, addr);
    var p1 := Splice(p, 10, Word(c));
    SplicePrefix(p1, at, addr, n);
    SplicePrefix(p, 10, Word(c), n);
    assert p1[..n][at..at + 4] == was;
    PatchAddr(p1[..n], at, addr);
    PatchWord(p[..n], 10, c);
    k := UpdateConserves(Be16(p, 10), was, addr);
  }

  lemma FirstWordPositive(s: seq<U8>)
    requires |s| >= 2 && s[0] > 0
    ensures WordSum(s) > 0
  {
  }

  /** The residue that header verification tests does not change. */
  lemma L3KeepsResidue(p: seq<U8>, addr: V4Addr, at: nat, n: nat)
    requires 20 <= n <= |p| && p[0] > 0 && (at == 12 || at == 16)
    ensures Fold(WordSum(RewriteL3(p, addr, at)[..n])) == Fold(WordSum(p[..n]))
  {
    var q := RewriteL3(p, addr, at);
    var k := L3SumShifts(p, addr, at, n);
    FirstWordPositive(p[..n]);
    FirstWordPositive(q[..n]);
    FoldEqual(WordSum(q[..n]), WordSum(p[..n]), k);
  }

  // ── The transport checksum ───────────────────────────────────────────

  /** The transport checksum after a rewrite from `was` to `addr`. */
  function NewL4Checksum(proto: U8, cs: U16, was: V4Addr, addr: V4Addr): U16 {
    if proto == TCP then CsumUpdateAddr(cs, was, addr) else UdpUpdate(cs, was, addr)
  }

  lemma NewL4Conserves(proto: U8, cs: U16, was: V4Addr, addr: V4Addr) returns (k: int)
    ensures NewL4Checksum(proto, cs, was, addr) + AddrSum(addr) == cs + AddrSum(was) + 65535 * k
  {
    k := UpdateConserves(cs, was, addr);
    if proto != TCP && CsumUpdateAddr(cs, was, addr) == 0 { k := k + 1; }
  }

  lemma PatchedIsWhole(q: seq<U8>, w: seq<U8>)
    requires Whole(q) && (q[9] == TCP || q[9] == UDP) && |w| == 2
    ensures var n, off := HeaderLen(q), CksumOffset(q);
      var r := Splice(q, off, w);
      && Whole(r) && r[..n] == q[..n] && HeaderLen(r) == n && r[9] == q[9]
      && r[12..16] == q[12..16] && r[16..20] == q[16..20]
      && Segment(r) == Splice(Segment(q), off - n, w)
  {
    SpliceSlice(q, CksumOffset(q), w, HeaderLen(q), Be16(q, 2));
  }

  /** Replacing the transport checksum and one address moves the covered sum by the same amount as
      the two fields. */
  lemma CoveredShifts(p: seq<U8>, r: seq<U8>, addr: V4Addr, at: nat, cs: U16)
    requires Whole(p) && Whole(r) && (at == 12 || at == 16) && (p[9] == TCP || p[9] == UDP) && r[9] == p[9]
    requires r[at..at + 4] == addr && r[28 - at..32 - at] == p[28 - at..32 - at]
    requires Segment(r) == Splice(Segment(p), CksumOffset(p) - HeaderLen(p), Word(cs))
    ensures Covered(r) == Covered(p) - AddrSum(p[at..at + 4]) + AddrSum(addr) - Be16(p, CksumOffset(p)) + cs
  {
    var s, o := Segment(p), CksumOffset(p) - HeaderLen(p);
    PatchWord(s, o, cs);
    assert Be16(s, o) == Be16(p, CksumOffset(p));
    assert AddrSum(r[12..16]) + AddrSum(r[16..20])
      == AddrSum(p[12..16]) + AddrSum(p[16..20]) - AddrSum(p[at..at + 4]) + AddrSum(addr);
  }

  lemma L4OkAfter(p: seq<U8>, r: seq<U8>, addr: V4Addr, at: nat, cs: U16, k: int)
    requires Whole(p) && Whole(r) && (at == 12 || at == 16) && r[9] == p[9] && HasL4Checksum(p)
    requires r[at..at + 4] == addr && r[28 - at..32 - at] == p[28 - at..32 - at]
    requires Segment(r) == Splice(Segment(p), CksumOffset(p) - HeaderLen(p), Word(cs))
    requires cs + AddrSum(addr) == Be16(p, CksumOffset(p)) + AddrSum(p[at..at + 4]) + 65535 * k
    requires p[9] == UDP ==> cs != 0
    ensures L4ChecksumOk(r) <==> L4ChecksumOk(p)
  {
    CoveredShifts(p, r, addr, at, cs);
    FoldEqual(Covered(r), Covered(p), k);
    if p[9] == UDP {
      assert Be16(Segment(r), 6) == cs;
      assert Be16(Segment(p), 6) == Be16(p, CksumOffset(p));
    }
  }

  // ── Main results ─────────────────────────────────────────────────────

  lemma RewriteL4Patches(p: seq<U8>, q: seq<U8>, n: nat, proto: U8, was: V4Addr, addr: V4Addr)
    returns (cs: U16, k: int)
    requires |q| == |p| && 20 <= n <= |p| && forall i :: 20 <= i < |p| ==> q[i] == p[i]
    requires (proto == TCP && n + 18 <= |p|) || (proto == UDP && n + 8 <= |p| && Be16(p, n + 6) != 0)
    ensures var off := n + if proto == TCP then 16 else 6;
      && RewriteL4(q, n, proto, was, addr) == Rewritten(true, Splice(q, off, Word(cs)))
      && cs + AddrSum(addr) == Be16(p, off) + AddrSum(was) + 65535 * k
      && (proto == UDP ==> cs != 0)
      && cs == NewL4Checksum(proto, Be16(p, off), was, addr)
  {
    var off := n + if proto == TCP then 16 else 6;
    assert Be16(q, off) == Be16(p, off);
    cs := NewL4Checksum(proto, Be16(p, off), was, addr);
    k := NewL4Conserves(proto, Be16(p, off), was, addr);
  }

  /** `r` is whole, carries `addr` at `at`, has a transport checksum exactly if `p` has one (so that a zero UDP
      checksum stays zero, and no other becomes zero), and each of its checksums verifies exactly when that of
      `p` does. */
  predicate SameVerdict(p: seq<U8>, r: seq<U8>, addr: V4Addr, at: nat)
    requires Whole(p) && (at == 12 || at == 16)
  {
    && Whole(r) && r[at..at + 4] == addr && (HasL4Checksum(r) <==> HasL4Checksum(p))
    && (IpChecksumOk(r) <==> IpChecksumOk(p)) && (L4ChecksumOk(r) <==> L4ChecksumOk(p))
  }

  lemma VerdictUnpatched(p: seq<U8>, q: seq<U8>, addr: V4Addr, at: nat)
    requires Whole(p) && Readdressed(p, q, addr, at) && !HasL4Checksum(p)
    requires Fold(WordSum(q[..HeaderLen(p)])) == Fold(WordSum(p[..HeaderLen(p)]))
    ensures SameVerdict(p, q, addr, at)
  {
    ReaddressedIsWhole(p, q, addr, at);
    if p[9] == UDP { assert Be16(Segment(p), 6) == Be16(p, CksumOffset(p)); }
  }

  /** The patched packet is whole, with the readdressed header and the new checksum. */
  lemma PatchedFields(p: seq<U8>, q: seq<U8>, r: seq<U8>, addr: V4Addr, at: nat, cs: U16)
    requires Whole(p) && Readdressed(p, q, addr, at) && HasL4Checksum(p) && (p[9] == UDP ==> cs != 0)
    requires r == Splice(q, CksumOffset(p), Word(cs))
    ensures Whole(r) && HeaderLen(r) == HeaderLen(p) && r[..HeaderLen(p)] == q[..HeaderLen(p)] && r[9] == p[9]
    ensures r[at..at + 4] == addr && r[28 - at..32 - at] == p[28 - at..32 - at]
    ensures Segment(r) == Splice(Segment(p), CksumOffset(p) - HeaderLen(p), Word(cs)) && HasL4Checksum(r)
  {
    hide Fold, WordSum;
    ReaddressedIsWhole(p, q, addr, at);
    PatchedIsWhole(q, Word(cs));
    PatchedWord(q, r, CksumOffset(p), cs);
    hide Word, Be16, Splice;
    SameSlice(q, r, at, at + 4);
    SameSlice(q, r, 28 - at, 32 - at);
  }

  lemma PatchedWord(q: seq<U8>, r: seq<U8>, off: nat, cs: U16)
    requires off + 2 <= |q| && r == Splice(q, off, Word(cs))
    ensures Be16(r, off) == cs
  {
    assert r[off] == Word(cs)[0] && r[off + 1] == Word(cs)[1];
  }

  lemma VerdictPatched(p: seq<U8>, q: seq<U8>, r: seq<U8>, addr: V4Addr, at: nat, cs: U16, k: int)
    requires Whole(p) && Readdressed(p, q, addr, at) && HasL4Checksum(p)
    requires Fold(WordSum(q[..HeaderLen(p)])) == Fold(WordSum(p[..HeaderLen(p)]))
    requires cs + AddrSum(addr) == Be16(p, CksumOffset(p)) + AddrSum(p[at..at + 4]) + 65535 * k
    requires p[9] == UDP ==> cs != 0
    requires r == Splice(q, CksumOffset(p), Word(cs))
    ensures SameVerdict(p, r, addr, at)
  {
    hide Fold, WordSum, Splice, Word, Whole, HasL4Checksum, Segment, L4ChecksumOk, AddrSum, CksumOffset, Be16, HeaderLen;
    PatchedFields(p, q, r, addr, at, cs);
    L4OkAfter(p, r, addr, at, cs, k);
  }

  lemma UnpatchedL4(p: seq<U8>, q: seq<U8>, addr: V4Addr, at: nat)
    requires Whole(p) && Readdressed(p, q, addr, at) && !HasL4Checksum(p)
    ensures RewriteL4(q, HeaderLen(p), p[9], p[at..at + 4], addr) == Rewritten(true, q)
  {
    assert p[9] == UDP ==> Be16(q, CksumOffset(p)) == Be16(p, CksumOffset(p));
  }

  lemma PatchedL4(p: seq<U8>, q: seq<U8>, addr: V4Addr, at: nat) returns (r: seq<U8>, cs: U16, k: int)
    requires Whole(p) && Readdressed(p, q, addr, at) && HasL4Checksum(p)
    ensures r == Splice(q, CksumOffset(p), Word(cs))
    ensures RewriteL4(q, HeaderLen(p), p[9], p[at..at + 4], addr) == Rewritten(true, r)
    ensures cs + AddrSum(addr) == Be16(p, CksumOffset(p)) + AddrSum(p[at..at + 4]) + 65535 * k
    ensures p[9] == UDP ==> cs != 0
  {
    hide RewriteL4, NewL4Checksum, AddrSum, Word, Splice, Be16;
    cs, k := RewriteL4Patches(p, q, HeaderLen(p), p[9], p[at..at + 4], addr);
    r := Splice(q, CksumOffset(p), Word(cs));
  }

  lemma VerdictChanged(p: seq<U8>, q: seq<U8>, addr: V4Addr, at: nat) returns (r: seq<U8>)
    requires Whole(p) && Readdressed(p, q, addr, at)
    requires Fold(WordSum(q[..HeaderLen(p)])) == Fold(WordSum(p[..HeaderLen(p)]))
    ensures RewriteL4(q, HeaderLen(p), p[9], p[at..at + 4], addr) == Rewritten(true, r)
    ensures SameVerdict(p, r, addr, at)
  {
    hide Fold, WordSum, RewriteL4, SameVerdict, Splice, Word, AddrSum, Be16, HasL4Checksum;
    if HasL4Checksum(p) {
      var cs, k;
      r, cs, k := PatchedL4(p, q, addr, at);
      VerdictPatched(p, q, r, addr, at, cs, k);
    } else {
      r := q;
      UnpatchedL4(p, q, addr, at);
      VerdictUnpatched(p, q, addr, at);
    }
  }

  /** Rewriting neither breaks a packet nor repairs one: it is accepted, each checksum verifies after
      exactly when it verified before, and the address is the new one. */
  lemma RewritePreservesValidity(p: seq<U8>, addr: V4Addr, isSrc: bool) returns (r: seq<U8>)
    requires Whole(p)
    ensures Rewrite(p, addr, isSrc) == Rewritten(true, r)
    ensures SameVerdict(p, r, addr, AddrOffset(isSrc))
  {
    var at := AddrOffset(isSrc);
    if p[at..at + 4] == addr {
      r := p;
    } else {
      L3KeepsResidue(p, addr, at, HeaderLen(p));
      r := VerdictChanged(p, RewriteL3(p, addr, at), addr, at);
    }
  }

  /** Which packets are accepted: IPv4 with as much header as they announce, and, if the address changes, as much
      transport header as holds the checksum. */
  predicate Accepted(p: seq<U8>, addr: V4Addr, isSrc: bool) {
    && |p| >= 20 && p[0] / 16 == 4 && HeaderLen(p) <= |p|
    && var n := |p| - HeaderLen(p);
       p[AddrOffset(isSrc)..AddrOffset(isSrc) + 4] == addr || ((p[9] == TCP ==> n >= 18) && (p[9] == UDP ==> n >= 8))
  }

  /** A packet is rewritten exactly if it is one of these, and then carries the address unless its header is too
      short to hold it; one that has the address already, or is no IPv4 packet with its whole header, is unchanged. */
  lemma RewriteAccepts(p: seq<U8>, addr: V4Addr, isSrc: bool)
    ensures Rewrite(p, addr, isSrc).ok <==> Accepted(p, addr, isSrc)
    ensures |p| < 20 || p[0] / 16 != 4 || |p| < HeaderLen(p) ==> Rewrite(p, addr, isSrc).pkt == p
    ensures |p| >= 20 && p[AddrOffset(isSrc)..AddrOffset(isSrc) + 4] == addr ==> Rewrite(p, addr, isSrc).pkt == p
    ensures Accepted(p, addr, isSrc) && HeaderLen(p) >= 20 ==>
      Rewrite(p, addr, isSrc).pkt[AddrOffset(isSrc)..AddrOffset(isSrc) + 4] == addr
  {
    hide CsumUpdateAddr, UdpUpdate, Word, Splice, RewriteL3;
    if Accepted(p, addr, isSrc) && HeaderLen(p) >= 20 { RewriteSetsAddress(p, addr, isSrc); }
  }

  lemma RewriteSetsAddress(p: seq<U8>, addr: V4Addr, isSrc: bool)
    requires |p| >= 20 && p[0] / 16 == 4 && 20 <= HeaderLen(p) <= |p|
    ensures Rewrite(p, addr, isSrc).pkt[AddrOffset(isSrc)..AddrOffset(isSrc) + 4] == addr
  {
    hide CsumUpdateAddr, UdpUpdate, Word, Splice, RewriteL3, RewriteL4;
    var at := AddrOffset(isSrc);
    if p[at..at + 4] != addr {
      var q := RewriteL3(p, addr, at);
      SameSlice(q, RewriteL4(q, HeaderLen(p), p[9], p[at..at + 4], addr).pkt, at, at + 4);
    }
  }

  /** Fragments included: rewriting an accepted packet with a full IP header keeps what the header's verification
      tests, and moves the word in the place of the transport checksum, if the protocol has one and it is not a zero
      of UDP, by what the address moves, modulo 65535. */
  lemma RewriteConserves(p: seq<U8>, addr: V4Addr, isSrc: bool) returns (k: int)
    requires Accepted(p, addr, isSrc) && HeaderLen(p) >= 20
    ensures var r, n, at := Rewrite(p, addr, isSrc).pkt, HeaderLen(p), AddrOffset(isSrc);
      var off := CksumOffset(p);
      && |r| == |p| && Fold(WordSum(r[..n])) == Fold(WordSum(p[..n]))
      && ((p[9] == TCP || p[9] == UDP) && p[at..at + 4] != addr ==>
            && (p[9] == UDP ==> (Be16(r, off) == 0 <==> Be16(p, off) == 0))
            && (p[9] == TCP || Be16(p, off) != 0 ==>
                  Be16(r, off) + AddrSum(addr) == Be16(p, off) + AddrSum(p[at..at + 4]) + 65535 * k))
  {
    hide Fold, WordSum, CsumUpdateAddr, UdpUpdate, NewL4Checksum, AddrSum, Word, Splice;
    var n, at := HeaderLen(p), AddrOffset(isSrc);
    var off, was := CksumOffset(p), p[at..at + 4];
    k := 0;
    if was != addr {
      var q := RewriteL3(p, addr, at);
      L3KeepsResidue(p, addr, at, n);
      var r := RewriteL4(q, n, p[9], was, addr).pkt;
      SameSlice(q, r, 0, n);
      assert r[..n] == r[0..n] && q[..n] == q[0..n];
      if p[9] == TCP || (p[9] == UDP && Be16(p, off) != 0) {
        var cs;
        cs, k := RewriteL4Patches(p, q, n, p[9], was, addr);
        PatchedWord(q, r, off, cs);
      }
    }
  }

  /** On every input, valid or not: only the address and the two checksum fields can change. */
  lemma RewriteFrame(p: seq<U8>, addr: V4Addr, isSrc: bool)
    requires |p| >= 20
    ensures var at, off := AddrOffset(isSrc), CksumOffset(p);
      forall k :: 0 <= k < |p| && Rewrite(p, addr, isSrc).pkt[k] != p[k] ==>
        at <= k < at + 4 || k == 10 || k == 11 || k == off || k == off + 1
  {
  }
}

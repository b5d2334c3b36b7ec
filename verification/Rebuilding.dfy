/** Incremental rewriting agrees with building the packet afresh, and built packets parse back. */
module Rebuilding {
  import opened Wrappers
  import opened Bytes
  import opened Checksum
  import opened Packets
  import opened Rewriting

  // ── Arithmetic ───────────────────────────────────────────────────────

  lemma FoldUnique(x: nat, r: U16, m: int)
    requires x > 0 && r > 0 && x == r + 65535 * m
    ensures Fold(x) == r
  {
    FoldEqual(x, r, m);
  }

  /** Updating the checksum of a non-zero sum gives the checksum of the new sum (RFC 1624). */
  lemma UpdatedChecksum(s: nat, t: nat, was: V4Addr, addr: V4Addr)
    requires s > 0 && t > 0 && t == s - AddrSum(was) + AddrSum(addr)
    ensures CsumUpdateAddr(0xffff - Fold(s), was, addr) == 0xffff - Fold(t)
  {
    var c := CsumUpdateAddr(0xffff - Fold(s), was, addr);
    var k := UpdateConserves(0xffff - Fold(s), was, addr);
    var j := FoldQuotient(s);
    FoldUnique(t, 0xffff - c, j + k);
  }

  function UdpEncode(c: U16): U16 { if c == 0 then 0xffff else c }

  /** The same for UDP, where a checksum of 0 is always sent as 0xffff. */
  lemma UdpUpdatedChecksum(s: nat, t: nat, was: V4Addr, addr: V4Addr)
    requires s > 0 && t > 0 && t == s - AddrSum(was) + AddrSum(addr)
    ensures UdpUpdate(UdpEncode(0xffff - Fold(s)), was, addr) == UdpEncode(0xffff - Fold(t))
  {
    var cs := UdpEncode(0xffff - Fold(s));
    var k := NewL4Conserves(UDP, cs, was, addr);
    var i := FoldQuotient(s);
    var j := FoldQuotient(t);
    SameResidue(UdpUpdate(cs, was, addr), UdpEncode(0xffff - Fold(t)),
                k - j + i + (if Fold(s) == 0xffff then 1 else 0) - (if Fold(t) == 0xffff then 1 else 0));
  }

  lemma SameResidue(a: U16, b: U16, m: int)
    requires a > 0 && b > 0 && a as int == b + 65535 * m
    ensures a == b
  {
  }

  // ── Structure ────────────────────────────────────────────────────────

  /** Replacing the source (or else the destination) `was` by `addr` turns `src`, `dst` into `s`, `d`. */
  predicate Replaced(isSrc: bool, src: V4Addr, dst: V4Addr, was: V4Addr, addr: V4Addr, s: V4Addr, d: V4Addr) {
    if isSrc then was == src && s == addr && d == dst else was == dst && s == src && d == addr
  }

  lemma Readdress(front: seq<U8>, v: seq<U8>, w: seq<U8>, src: V4Addr, dst: V4Addr, seg: seq<U8>,
                  was: V4Addr, addr: V4Addr, isSrc: bool, s: V4Addr, d: V4Addr)
    requires |front| == 10 && |v| == |w| == 2 && Replaced(isSrc, src, dst, was, addr, s, d)
    ensures Splice(Splice(front + v + (src + dst) + seg, 10, w), AddrOffset(isSrc), addr) == front + w + (s + d) + seg
  {
  }

  lemma HeaderFields(total: U16, proto: U8, src: V4Addr, dst: V4Addr, id: U16, flagsOff: U16, ck: U16, seg: seq<U8>)
    ensures var p := HeaderWith(total, proto, src, dst, id, flagsOff, ck) + seg;
      && p[0] == 0x45 && p[8] == 64 && p[9] == proto && HeaderLen(p) == 20
      && p[2..4] == Word(total) && p[4..6] == Word(id) && p[6..8] == Word(flagsOff) && p[10..12] == Word(ck)
      && p[12..16] == src && p[16..20] == dst && p[20..] == seg
  {
  }

  lemma Be16OfWord(p: seq<U8>, i: nat, v: U16)
    requires i + 2 <= |p| && p[i..i + 2] == Word(v)
    ensures Be16(p, i) == v
  {
    assert p[i] == p[i..i + 2][0] && p[i + 1] == p[i..i + 2][1];
  }

  lemma BuiltFields(total: U16, proto: U8, src: V4Addr, dst: V4Addr, seg: seq<U8>, isSrc: bool)
    ensures var ck := 0xffff - Fold(HeaderSum(total, proto, src, dst, 0, DONT_FRAGMENT));
      var p := Header(total, proto, src, dst, 0, DONT_FRAGMENT) + seg;
      && p[0] == 0x45 && p[9] == proto && Be16(p, 10) == ck
      && p[AddrOffset(isSrc)..AddrOffset(isSrc) + 4] == if isSrc then src else dst
  {
    var ck := 0xffff - Fold(HeaderSum(total, proto, src, dst, 0, DONT_FRAGMENT));
    HeaderFields(total, proto, src, dst, 0, DONT_FRAGMENT, ck, seg);
    Be16OfWord(Header(total, proto, src, dst, 0, DONT_FRAGMENT) + seg, 10, ck);
  }

  /** Rewriting an address in a built header is building the header with that address. */
  lemma HeaderRebuilt(total: U16, proto: U8, src: V4Addr, dst: V4Addr, seg: seq<U8>,
                      was: V4Addr, addr: V4Addr, isSrc: bool, s: V4Addr, d: V4Addr)
    requires Replaced(isSrc, src, dst, was, addr, s, d)
    ensures RewriteL3(Header(total, proto, src, dst, 0, DONT_FRAGMENT) + seg, addr, AddrOffset(isSrc))
      == Header(total, proto, s, d, 0, DONT_FRAGMENT) + seg
  {
    hide HeaderFront, Fold, Word, CsumUpdateAddr;
    var x, y := HeaderSum(total, proto, src, dst, 0, DONT_FRAGMENT), HeaderSum(total, proto, s, d, 0, DONT_FRAGMENT);
    BuiltFields(total, proto, src, dst, seg, isSrc);
    UpdatedChecksum(x, y, was, addr);
    Readdress(HeaderFront(total, proto, 0, DONT_FRAGMENT), Word(0xffff - Fold(x)), Word(0xffff - Fold(y)),
              src, dst, seg, was, addr, isSrc, s, d);
  }

  lemma SegmentChecksumUpdated(proto: U8, src: V4Addr, dst: V4Addr, front: seq<U8>, back: seq<U8>,
                               was: V4Addr, addr: V4Addr, isSrc: bool, s: V4Addr, d: V4Addr)
    requires IsSegment(proto, front, back) && Replaced(isSrc, src, dst, was, addr, s, d)
    ensures NewL4Checksum(proto, SegmentChecksum(proto, src, dst, front, back), was, addr)
      == SegmentChecksum(proto, s, d, front, back)
  {
    var x, y := SegmentSum(proto, src, dst, front, back), SegmentSum(proto, s, d, front, back);
    if proto == TCP { UpdatedChecksum(x, y, was, addr); } else { UdpUpdatedChecksum(x, y, was, addr); }
  }

  lemma RewriteL4Of(h: seq<U8>, proto: U8, front: seq<U8>, cs: U16, back: seq<U8>, was: V4Addr, addr: V4Addr)
    requires |h| == 20 && IsSegment(proto, front, back) && (proto == UDP ==> cs != 0)
    ensures RewriteL4(h + (front + Word(cs) + back), 20, proto, was, addr)
      == Rewritten(true, h + (front + Word(NewL4Checksum(proto, cs, was, addr)) + back))
  {
    SegmentField(h, front, Word(cs), back, Word(NewL4Checksum(proto, cs, was, addr)));
    Be16OfWord(h + (front + Word(cs) + back), 20 + |front|, cs);
  }

  lemma SegmentField(h: seq<U8>, front: seq<U8>, v: seq<U8>, back: seq<U8>, w: seq<U8>)
    requires |v| == |w|
    ensures var p := h + (front + v + back);
      && p[|h| + |front|..|h| + |front| + |v|] == v
      && Splice(p, |h| + |front|, w) == h + (front + w + back)
  {
  }

  // ── Main results ─────────────────────────────────────────────────────

  /** For every packet with correct checksums, rewriting in place gives byte for byte the packet built
      with the new address. */
  lemma RewriteEqualsRebuild(proto: U8, src: V4Addr, dst: V4Addr, front: seq<U8>, back: seq<U8>,
                             addr: V4Addr, isSrc: bool)
    requires IsSegment(proto, front, back)
    ensures Rewrite(Packet(proto, src, dst, front, back), addr, isSrc)
      == Rewritten(true, Packet(proto, if isSrc then addr else src, if isSrc then dst else addr, front, back))
  {
    RebuildReplaced(proto, src, dst, front, back, if isSrc then src else dst, addr, isSrc,
                    if isSrc then addr else src, if isSrc then dst else addr);
  }

  lemma RebuildReplaced(proto: U8, src: V4Addr, dst: V4Addr, front: seq<U8>, back: seq<U8>,
                        was: V4Addr, addr: V4Addr, isSrc: bool, s: V4Addr, d: V4Addr)
    requires IsSegment(proto, front, back) && Replaced(isSrc, src, dst, was, addr, s, d)
    ensures Rewrite(Packet(proto, src, dst, front, back), addr, isSrc)
      == Rewritten(true, Packet(proto, s, d, front, back))
  {
    var p, q := Packet(proto, src, dst, front, back), Packet(proto, s, d, front, back);
    var cs := SegmentChecksum(proto, src, dst, front, back);
    var m := Header(|p|, proto, s, d, 0, DONT_FRAGMENT) + (front + Word(cs) + back);
    PacketFields(proto, src, dst, front, back, was, addr, isSrc, s, d);
    HeaderRebuilt(|p|, proto, src, dst, front + Word(cs) + back, was, addr, isSrc, s, d);
    SegmentRebuilt(proto, src, dst, front, back, was, addr, isSrc, s, d);
    RewriteOf(p, m, q, proto, was, addr, isSrc);
  }

  lemma PacketFields(proto: U8, src: V4Addr, dst: V4Addr, front: seq<U8>, back: seq<U8>,
                     was: V4Addr, addr: V4Addr, isSrc: bool, s: V4Addr, d: V4Addr)
    requires IsSegment(proto, front, back) && Replaced(isSrc, src, dst, was, addr, s, d)
    ensures var p := Packet(proto, src, dst, front, back);
      p[0] == 0x45 && p[9] == proto && p[AddrOffset(isSrc)..AddrOffset(isSrc) + 4] == was
  {
    BuiltFields(22 + |front| + |back|, proto, src, dst,
                front + Word(SegmentChecksum(proto, src, dst, front, back)) + back, isSrc);
  }

  lemma SegmentRebuilt(proto: U8, src: V4Addr, dst: V4Addr, front: seq<U8>, back: seq<U8>,
                       was: V4Addr, addr: V4Addr, isSrc: bool, s: V4Addr, d: V4Addr)
    requires IsSegment(proto, front, back) && Replaced(isSrc, src, dst, was, addr, s, d)
    ensures var cs := SegmentChecksum(proto, src, dst, front, back);
      var h := Header(22 + |front| + |back|, proto, s, d, 0, DONT_FRAGMENT);
      RewriteL4(h + (front + Word(cs) + back), 20, proto, was, addr)
      == Rewritten(true, Packet(proto, s, d, front, back))
  {
    SegmentChecksumUpdated(proto, src, dst, front, back, was, addr, isSrc, s, d);
    RewriteL4Of(Header(22 + |front| + |back|, proto, s, d, 0, DONT_FRAGMENT), proto, front,
                SegmentChecksum(proto, src, dst, front, back), back, was, addr);
  }

  /** `Rewrite` in terms of its two stages. */
  lemma RewriteOf(p: seq<U8>, q: seq<U8>, r: seq<U8>, proto: U8, was: V4Addr, addr: V4Addr, isSrc: bool)
    requires |p| >= 20 && p[0] == 0x45 && p[9] == proto
    requires p[AddrOffset(isSrc)..AddrOffset(isSrc) + 4] == was
    requires q == RewriteL3(p, addr, AddrOffset(isSrc))
    requires RewriteL4(q, 20, proto, was, addr) == Rewritten(true, r)
    requires was == addr ==> p == r
    ensures Rewrite(p, addr, isSrc) == Rewritten(true, r)
  {
  }

  /** The same for the packets of `build_tcp` and `build_udp`, whatever the build request. */
  lemma TcpRewriteIsRebuild(b: TcpBuild, addr: V4Addr, isSrc: bool)
    requires b.Ok()
    ensures Rewrite(TcpPacket(b), addr, isSrc)
      == Rewritten(true, TcpPacket(if isSrc then b.(src := V4(addr)) else b.(dst := V4(addr))))
  {
    var b' := if isSrc then b.(src := V4(addr)) else b.(dst := V4(addr));
    assert b'.Front() == b.Front() && b'.Back() == b.Back();
    RewriteEqualsRebuild(TCP, b.src.v4, b.dst.v4, b.Front(), b.Back(), addr, isSrc);
  }

  lemma UdpRewriteIsRebuild(b: UdpBuild, addr: V4Addr, isSrc: bool)
    requires b.Ok()
    ensures Rewrite(UdpPacket(b), addr, isSrc)
      == Rewritten(true, UdpPacket(if isSrc then b.(src := V4(addr)) else b.(dst := V4(addr))))
  {
    var b' := if isSrc then b.(src := V4(addr)) else b.(dst := V4(addr));
    assert b'.Front() == b.Front();
    RewriteEqualsRebuild(UDP, b.src.v4, b.dst.v4, b.Front(), b.payload, addr, isSrc);
  }

  // ── Parsing what was built ───────────────────────────────────────────

  lemma HeaderVerifies(total: U16, proto: U8, src: V4Addr, dst: V4Addr, id: U16, flagsOff: U16)
    ensures Fold(WordSum(Header(total, proto, src, dst, id, flagsOff))) == 0xffff
  {
    var s := HeaderSum(total, proto, src, dst, id, flagsOff);
    HeaderWithSum(total, proto, src, dst, id, flagsOff, 0xffff - Fold(s));
    var j := FoldQuotient(s);
    FoldUnique(s + (0xffff - Fold(s)), 0xffff, j);
  }

  /** Every written header verifies and parses back to the fields it was written from; bytes after
      the total length are ignored. */
  lemma ParseBuilt(proto: U8, src: V4Addr, dst: V4Addr, id: U16, flagsOff: U16, l4: seq<U8>, rest: seq<U8>)
    requires 20 + |l4| <= 0xffff
    ensures Parse(Header(20 + |l4|, proto, src, dst, id, flagsOff) + l4 + rest)
      == Some(IpPacket(proto, 64, id, flagsOff % 0x2000, flagsOff / 0x2000 % 2 == 1, V4(src), V4(dst), l4))
  {
    var h := Header(20 + |l4|, proto, src, dst, id, flagsOff);
    var p := h + (l4 + rest);
    assert h + l4 + rest == p;
    HeaderVerifies(20 + |l4|, proto, src, dst, id, flagsOff);
    HeaderFields(20 + |l4|, proto, src, dst, id, flagsOff,
                 0xffff - Fold(HeaderSum(20 + |l4|, proto, src, dst, id, flagsOff)), l4 + rest);
    Be16OfWord(p, 2, 20 + |l4|);
    Be16OfWord(p, 4, id);
    Be16OfWord(p, 6, flagsOff);
    assert p[..20] == h && p[20..20 + |l4|] == l4;
  }

  lemma ParseBuiltExact(proto: U8, src: V4Addr, dst: V4Addr, id: U16, flagsOff: U16, l4: seq<U8>)
    requires 20 + |l4| <= 0xffff
    ensures Parse(Header(20 + |l4|, proto, src, dst, id, flagsOff) + l4)
      == Some(IpPacket(proto, 64, id, flagsOff % 0x2000, flagsOff / 0x2000 % 2 == 1, V4(src), V4(dst), l4))
  {
    ParseBuilt(proto, src, dst, id, flagsOff, l4, []);
    var p := Header(20 + |l4|, proto, src, dst, id, flagsOff) + l4;
    assert p + [] == p;
  }

  // ── Undoing a rewrite ────────────────────────────────────────────────

  /** Updating back restores the checksum, except that 0xffff (no sum computes to it) becomes 0. */
  lemma UndoChecksum(c: U16, was: V4Addr, addr: V4Addr)
    ensures CsumUpdateAddr(CsumUpdateAddr(c, was, addr), addr, was) == if c == 0xffff then 0 else c
  {
    var m := CsumUpdateAddr(c, was, addr);
    var i := UpdateConserves(c, was, addr);
    var j := UpdateConserves(m, addr, was);
    UniqueBelow(CsumUpdateAddr(m, addr, was), if c == 0xffff then 0 else c, i + j + if c == 0xffff then 1 else 0);
  }

  lemma UniqueBelow(a: int, b: int, m: int)
    requires 0 <= a < 0xffff && 0 <= b < 0xffff && a == b + 65535 * m
    ensures a == b
  {
  }

  lemma UndoUdpChecksum(c: U16, was: V4Addr, addr: V4Addr)
    requires c != 0
    ensures UdpUpdate(UdpUpdate(c, was, addr), addr, was) == c
  {
    var i := NewL4Conserves(UDP, c, was, addr);
    var j := NewL4Conserves(UDP, UdpUpdate(c, was, addr), addr, was);
    SameResidue(UdpUpdate(UdpUpdate(c, was, addr), addr, was), c, i + j);
  }

  /** `r` is `p` with `addr` at `at`, `c` in the IP checksum field, and `d` in the field at `off`. */
  predicate Edited(p: seq<U8>, r: seq<U8>, at: nat, addr: V4Addr, c: U16, off: nat, d: U16) {
    && |r| == |p| && 12 <= at && at + 4 <= off && off + 2 <= |p|
    && (forall k :: 0 <= k < |p| && k != 10 && k != 11 && !(at <= k < at + 4) && k != off && k != off + 1 ==> r[k] == p[k])
    && r[at..at + 4] == addr && Be16(r, 10) == c && Be16(r, off) == d
  }

  lemma EditedBack(p: seq<U8>, r: seq<U8>, z: seq<U8>, at: nat, addr: V4Addr, c: U16, off: nat, d: U16, c': U16, d': U16)
    requires Edited(p, r, at, addr, c, off, d) && Edited(r, z, at, p[at..at + 4], c', off, d')
    ensures z == p <==> c' == Be16(p, 10) && d' == Be16(p, off)
  {
    if c' == Be16(p, 10) && d' == Be16(p, off) {
      WordOfBe16(p, 10);
      WordOfBe16(z, 10);
      WordOfBe16(p, off);
      WordOfBe16(z, off);
      assert z[10..12] == p[10..12] && z[off..off + 2] == p[off..off + 2];
      SamePieces(p, z, at, off);
    }
  }

  lemma SamePieces(p: seq<U8>, z: seq<U8>, at: nat, off: nat)
    requires |z| == |p| && 12 <= at && at + 4 <= off && off + 2 <= |p|
    requires forall k :: 0 <= k < |p| && k != 10 && k != 11 && !(at <= k < at + 4) && k != off && k != off + 1 ==> z[k] == p[k]
    requires z[10..12] == p[10..12] && z[at..at + 4] == p[at..at + 4] && z[off..off + 2] == p[off..off + 2]
    ensures z == p
  {
    forall k | 0 <= k < |p| ensures z[k] == p[k] {
      if 10 <= k < 12 { assert z[10..12][k - 10] == p[10..12][k - 10]; }
      if at <= k < at + 4 { assert z[at..at + 4][k - at] == p[at..at + 4][k - at]; }
      if off <= k < off + 2 { assert z[off..off + 2][k - off] == p[off..off + 2][k - off]; }
    }
  }

  lemma L3Field(p: seq<U8>, addr: V4Addr, at: nat)
    requires |p| >= 20 && (at == 12 || at == 16)
    ensures Be16(RewriteL3(p, addr, at), 10) == CsumUpdateAddr(Be16(p, 10), p[at..at + 4], addr)
  {
    var q := RewriteL3(p, addr, at);
    var c := CsumUpdateAddr(Be16(p, 10), p[at..at + 4], addr);
    assert q[10] == Word(c)[0] && q[11] == Word(c)[1];
  }

  lemma SplicedField(q: seq<U8>, off: nat, d: U16)
    requires 12 <= off && off + 2 <= |q|
    ensures var r := Splice(q, off, Word(d));
      Be16(r, off) == d && Be16(r, 10) == Be16(q, 10)
  {
    var r := Splice(q, off, Word(d));
    assert r[off] == Word(d)[0] && r[off + 1] == Word(d)[1];
  }

  /** `p` is whole, with a transport checksum at `off` and `was` at `at`. */
  predicate Rewritable(p: seq<U8>, isSrc: bool, at: nat, was: V4Addr, off: nat) {
    && Whole(p) && HasL4Checksum(p) && at == AddrOffset(isSrc) && p[at..at + 4] == was
    && off == CksumOffset(p) && at + 4 <= off && off + 2 <= |p|
  }

  /** What a rewrite does to a packet with a transport checksum, as an edit of three fields. */
  lemma RewriteEdits(p: seq<U8>, isSrc: bool, at: nat, was: V4Addr, off: nat, addr: V4Addr)
    returns (r: seq<U8>, c: U16, d: U16)
    requires Rewritable(p, isSrc, at, was, off) && was != addr
    ensures Rewrite(p, addr, isSrc) == Rewritten(true, r)
    ensures c == CsumUpdateAddr(Be16(p, 10), was, addr) && d == NewL4Checksum(p[9], Be16(p, off), was, addr)
    ensures Edited(p, r, at, addr, c, off, d)
  {
    L3Field(p, addr, at);
    c := CsumUpdateAddr(Be16(p, 10), was, addr);
    r, d := L4Edits(p, RewriteL3(p, addr, at), isSrc, at, was, off, addr, c);
  }

  lemma L4Edits(p: seq<U8>, q: seq<U8>, isSrc: bool, at: nat, was: V4Addr, off: nat, addr: V4Addr, c: U16)
    returns (r: seq<U8>, d: U16)
    requires Rewritable(p, isSrc, at, was, off) && Readdressed(p, q, addr, at) && Be16(q, 10) == c
    ensures RewriteL4(q, HeaderLen(p), p[9], was, addr) == Rewritten(true, r)
    ensures d == NewL4Checksum(p[9], Be16(p, off), was, addr)
    ensures Edited(p, r, at, addr, c, off, d)
  {
    hide NewL4Checksum, RewriteL4, Edited, Word, Splice;
    var k;
    d, k := RewriteL4Patches(p, q, HeaderLen(p), p[9], was, addr);
    r := Splice(q, off, Word(d));
    PatchEdits(p, q, at, addr, c, off, d);
  }

  lemma PatchEdits(p: seq<U8>, q: seq<U8>, at: nat, addr: V4Addr, c: U16, off: nat, d: U16)
    requires Readdressed(p, q, addr, at) && Be16(q, 10) == c && at + 4 <= off && off + 2 <= |p|
    ensures Edited(p, Splice(q, off, Word(d)), at, addr, c, off, d)
  {
    SplicedField(q, off, d);
    assert Splice(q, off, Word(d))[at..at + 4] == q[at..at + 4];
  }

  lemma EditedIsRewritable(p: seq<U8>, r: seq<U8>, isSrc: bool, at: nat, was: V4Addr, off: nat, addr: V4Addr, c: U16, d: U16)
    requires Rewritable(p, isSrc, at, was, off) && Edited(p, r, at, addr, c, off, d) && (p[9] == UDP ==> d != 0)
    ensures Rewritable(r, isSrc, at, addr, off) && r[9] == p[9]
  {
  }

  /** Rewriting a TCP or checksummed UDP packet and rewriting back restores every byte, exactly when
      no checksum field holds 0xffff in place of 0 (UDP must use 0xffff, so it is never affected). */
  lemma RewriteUndo(p: seq<U8>, isSrc: bool, at: nat, was: V4Addr, off: nat, addr: V4Addr)
    requires Rewritable(p, isSrc, at, was, off) && was != addr
    ensures Rewrite(Rewrite(p, addr, isSrc).pkt, was, isSrc).pkt == p
      <==> Be16(p, 10) != 0xffff && (p[9] == TCP ==> Be16(p, off) != 0xffff)
  {
    var r, c, d := RewriteEdits(p, isSrc, at, was, off, addr);
    EditedIsRewritable(p, r, isSrc, at, was, off, addr, c, d);
    var z, c', d' := RewriteEdits(r, isSrc, at, addr, off, was);
    EditedBack(p, r, z, at, addr, c, off, d, c', d');
    UndoBoth(p[9], Be16(p, 10), Be16(p, off), was, addr);
  }

  lemma UndoBoth(proto: U8, ip: U16, cs: U16, was: V4Addr, addr: V4Addr)
    requires proto != TCP ==> cs != 0
    ensures CsumUpdateAddr(CsumUpdateAddr(ip, was, addr), addr, was) == ip <==> ip != 0xffff
    ensures NewL4Checksum(proto, NewL4Checksum(proto, cs, was, addr), addr, was) == cs <==> (proto == TCP ==> cs != 0xffff)
  {
    UndoChecksum(ip, was, addr);
    if proto == TCP { UndoChecksum(cs, was, addr); } else { UndoUdpChecksum(cs, was, addr); }
  }
}

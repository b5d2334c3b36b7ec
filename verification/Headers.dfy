/** What a receiver reads in the packets that the builders make, read by position as the header views do. */
module Headers {
  import opened Wrappers
  import opened Bytes
  import opened Checksum
  import opened Packets
  import opened Rewriting
  import opened Rebuilding
  import opened Reassembly

  /** The big-endian 32-bit word at offset `i`. */
  function Be32(s: seq<U8>, i: nat): nat
    requires i + 3 < |s|
  {
    Be16(s, i) as nat * 0x1_0000 + Be16(s, i + 2)
  }

  // ── Segments ─────────────────────────────────────────────────────────

  /** A TCP segment with the fields of the request. The data offset has four bits, which 40 bytes of options fill. */
  predicate TcpFields(b: TcpBuild, l4: seq<U8>) {
    && |l4| == 20 + |b.options| + |b.payload|
    && Be16(l4, 0) == b.srcPort && Be16(l4, 2) == b.dstPort
    && Be32(l4, 4) == b.seqNo && Be32(l4, 8) == b.ackNo
    && l4[12] / 16 * 4 == (20 + |b.options|) % 64 && l4[12] % 16 == 0
    && l4[13] == b.flags && Be16(l4, 14) == b.window && Be16(l4, 18) == 0
    && l4[20..20 + |b.options|] == b.options && l4[20 + |b.options|..] == b.payload
  }

  predicate UdpFields(b: UdpBuild, l4: seq<U8>) {
    && |l4| == 8 + |b.payload|
    && Be16(l4, 0) == b.srcPort && Be16(l4, 2) == b.dstPort && Be16(l4, 4) == |l4| && Be16(l4, 6) != 0
    && l4[8..] == b.payload
  }

  lemma WordAt(s: seq<U8>, i: nat, v: U16)
    requires i + 2 <= |s| && s[i..i + 2] == Word(v)
    ensures Be16(s, i) == v
  {
    assert s[i] == s[i..i + 2][0] && s[i + 1] == s[i..i + 2][1];
  }

  lemma LongAt(s: seq<U8>, i: nat, v: U32)
    requires i + 4 <= |s| && s[i..i + 4] == Be32Bytes(v)
    ensures Be32(s, i) == v
  {
    var w := s[i..i + 4];
    assert s[i..i + 2] == w[..2] && s[i + 2..i + 4] == w[2..];
    WordAt(s, i, v / 0x1_0000);
    WordAt(s, i + 2, v % 0x1_0000);
  }

  lemma DataOffset(n: nat)
    requires n % 4 == 0
    ensures var x := n / 4 * 16 % 256; x / 16 * 4 == n % 64 && x % 16 == 0
  {
    var q := n / 4;
    var a, r := q / 16, q % 16;
    assert n == 64 * a + 4 * r && q * 16 == 256 * a + 16 * r;
    Nibble(a, r);
  }

  lemma Nibble(a: nat, r: nat)
    requires r < 16
    ensures (256 * a + 16 * r) % 256 == 16 * r && (64 * a + 4 * r) % 64 == 4 * r && 16 * r / 16 == r && 16 * r % 16 == 0
  {
  }

  lemma TcpSegmentFields(b: TcpBuild, ck: U16, l4: seq<U8>)
    requires b.Ok() && l4 == b.Front() + Word(ck) + b.Back()
    ensures TcpFields(b, l4)
  {
    hide Be16, Word, Be32Bytes, Be32;
    var x := (20 + |b.options|) / 4 * 16 % 256;
    assert l4 == Word(b.srcPort) + Word(b.dstPort) + Be32Bytes(b.seqNo) + Be32Bytes(b.ackNo) + [x, b.flags]
      + Word(b.window) + Word(ck) + Word(0) + b.options + b.payload;
    WordAt(l4, 0, b.srcPort);
    WordAt(l4, 2, b.dstPort);
    LongAt(l4, 4, b.seqNo);
    LongAt(l4, 8, b.ackNo);
    WordAt(l4, 14, b.window);
    WordAt(l4, 18, 0);
    DataOffset(20 + |b.options|);
  }

  lemma UdpSegmentFields(b: UdpBuild, ck: U16, l4: seq<U8>)
    requires b.Ok() && ck != 0 && l4 == b.Front() + Word(ck) + b.payload
    ensures UdpFields(b, l4)
  {
    hide Be16, Word;
    WordAt(l4, 0, b.srcPort);
    WordAt(l4, 2, b.dstPort);
    WordAt(l4, 4, 8 + |b.payload|);
    WordAt(l4, 6, ck);
  }

  // ── Whole packets ────────────────────────────────────────────────────

  lemma PacketParses(proto: U8, src: V4Addr, dst: V4Addr, front: seq<U8>, back: seq<U8>)
    requires IsSegment(proto, front, back)
    ensures Parse(Packet(proto, src, dst, front, back))
      == Some(IpPacket(proto, 64, 0, 0, false, V4(src), V4(dst),
                       front + Word(SegmentChecksum(proto, src, dst, front, back)) + back))
  {
    hide Parse, Header, SegmentChecksum, Word;
    var l4 := front + Word(SegmentChecksum(proto, src, dst, front, back)) + back;
    ParseBuiltExact(proto, src, dst, 0, DONT_FRAGMENT, l4);
    assert 22 + |front| + |back| == 20 + |l4|;
  }

  /** The segment's checksum verifies. */
  lemma SegmentVerifies(proto: U8, src: V4Addr, dst: V4Addr, front: seq<U8>, back: seq<U8>)
    requires IsSegment(proto, front, back)
    ensures Fold(PseudoSum(src, dst, proto, front + Word(SegmentChecksum(proto, src, dst, front, back)) + back)) == 0xffff
  {
    hide PseudoSum, SegmentSum, Word;
    var s, ck := SegmentSum(proto, src, dst, front, back), SegmentChecksum(proto, src, dst, front, back);
    SegmentSumIs(proto, src, dst, front, ck, back);
    var j := FoldQuotient(s);
    FoldUnique(s + ck, 0xffff, if ck == 0xffff - Fold(s) then j else j + 1);
  }

  /** What `build_tcp` makes is a TCP packet between the two addresses, not a fragment, whose segment has the fields
      of the request and a checksum that verifies; and the dispatcher delivers it to the flow of its ports. */
  lemma TcpRoundTrip(b: TcpBuild) returns (p: IpPacket)
    requires b.Ok()
    ensures Parse(TcpPacket(b)) == Some(p) && p.proto == TCP && p.src == b.src && p.dst == b.dst && !p.IsFragment()
    ensures TcpFields(b, p.l4) && Fold(PseudoSum(b.src.v4, b.dst.v4, TCP, p.l4)) == 0xffff
    ensures Route(p) == Delivered(TcpSegment(b.src, b.dst, b.srcPort, b.dstPort, p.l4))
  {
    hide Parse, Packet, PseudoSum, Fold, SegmentChecksum, Word;
    var ck := SegmentChecksum(TCP, b.src.v4, b.dst.v4, b.Front(), b.Back());
    PacketParses(TCP, b.src.v4, b.dst.v4, b.Front(), b.Back());
    SegmentVerifies(TCP, b.src.v4, b.dst.v4, b.Front(), b.Back());
    p := Parse(TcpPacket(b)).value;
    TcpSegmentFields(b, ck, p.l4);
  }

  /** The same for `build_udp`. */
  lemma UdpRoundTrip(b: UdpBuild) returns (p: IpPacket)
    requires b.Ok()
    ensures Parse(UdpPacket(b)) == Some(p) && p.proto == UDP && p.src == b.src && p.dst == b.dst && !p.IsFragment()
    ensures UdpFields(b, p.l4) && Fold(PseudoSum(b.src.v4, b.dst.v4, UDP, p.l4)) == 0xffff
    ensures Route(p) == Delivered(UdpData(b.src, b.dst, b.srcPort, b.dstPort, b.payload))
  {
    hide Parse, Packet, PseudoSum, Fold, Word;
    var ck := SegmentChecksum(UDP, b.src.v4, b.dst.v4, b.Front(), b.payload);
    PacketParses(UDP, b.src.v4, b.dst.v4, b.Front(), b.payload);
    SegmentVerifies(UDP, b.src.v4, b.dst.v4, b.Front(), b.payload);
    p := Parse(UdpPacket(b)).value;
    UdpSegmentFields(b, ck, p.l4);
  }

  // ── Every packet the parser accepts ──────────────────────────────────

  /** An IPv4 header as RFC 791 lays it out, with options. */
  datatype Ip4 = Ip4(tos: U8, id: U16, flagsOff: U16, ttl: U8, proto: U8, ck: U16, src: V4Addr, dst: V4Addr, options: seq<U8>)
  {
    predicate Ok(n: nat) { |options| <= 40 && |options| % 4 == 0 && 20 + |options| + n <= 0xffff }

    /** The header before `n` bytes of contents. */
    function Bytes(n: nat): (h: seq<U8>)
      requires Ok(n)
      ensures |h| == 20 + |options|
    {
      [0x45 + |options| / 4, tos] + Word(20 + |options| + n) + Word(id) + Word(flagsOff) + [ttl, proto] + Word(ck)
      + src + dst + options
    }

    function Parsed(l4: seq<U8>): IpPacket {
      IpPacket(proto, ttl, id, flagsOff % 0x2000, flagsOff / 0x2000 % 2 == 1, V4(src), V4(dst), l4)
    }
  }

  lemma FirstByte(n: nat)
    requires n <= 40 && n % 4 == 0
    ensures var b := 0x45 + n / 4; b / 16 == 4 && b % 16 * 4 == 20 + n
  {
  }

  lemma Ip4Fields(h: Ip4, n: nat, rest: seq<U8>)
    requires h.Ok(n)
    ensures var p := h.Bytes(n) + rest;
      && p[0] / 16 == 4 && HeaderLen(p) == 20 + |h.options| && Be16(p, 2) == 20 + |h.options| + n
      && Be16(p, 4) == h.id && Be16(p, 6) == h.flagsOff && p[8] == h.ttl && p[9] == h.proto
      && p[12..16] == h.src && p[16..20] == h.dst && p[..20 + |h.options|] == h.Bytes(n)
  {
    hide Be16, Word;
    var p := h.Bytes(n) + rest;
    FirstByte(|h.options|);
    WordAt(p, 2, 20 + |h.options| + n);
    WordAt(p, 4, h.id);
    WordAt(p, 6, h.flagsOff);
  }

  /** A packet laid out with any header, options included, and followed by anything, parses to its fields exactly
      if the header's checksum verifies. */
  lemma ParseLaidOut(h: Ip4, l4: seq<U8>, rest: seq<U8>)
    requires h.Ok(|l4|)
    ensures Parse(h.Bytes(|l4|) + (l4 + rest))
      == if Fold(WordSum(h.Bytes(|l4|))) == 0xffff then Some(h.Parsed(l4)) else None
  {
    var n := 20 + |h.options|;
    var p := h.Bytes(|l4|) + (l4 + rest);
    hide Fold, WordSum;
    Ip4Fields(h, |l4|, l4 + rest);
    assert p[n..n + |l4|] == l4;
  }

  lemma WordBack(p: seq<U8>, i: nat)
    requires i + 2 <= |p|
    ensures p[i..i + 2] == Word(Be16(p, i))
  {
    WordOfBe16(p, i);
  }

  /** ... and the parser accepts nothing else. */
  lemma ParsedIsLaidOut(p: seq<U8>) returns (h: Ip4, l4: seq<U8>, rest: seq<U8>)
    requires Parse(p).Some?
    ensures h.Ok(|l4|) && p == h.Bytes(|l4|) + (l4 + rest) && Parse(p) == Some(h.Parsed(l4))
  {
    hide Fold, WordSum;
    var n, total := HeaderLen(p), Be16(p, 2);
    h := Ip4(p[1], Be16(p, 4), Be16(p, 6), p[8], p[9], Be16(p, 10), p[12..16], p[16..20], p[20..n]);
    l4, rest := p[n..total], p[total..];
    LaidOutAgain(p, h, n, total);
    assert p == p[..n] + (p[n..total] + p[total..]);
  }

  lemma LaidOutAgain(p: seq<U8>, h: Ip4, n: nat, total: nat)
    requires |p| >= 20 && p[0] / 16 == 4 && n == HeaderLen(p) && total == Be16(p, 2) && 20 <= n <= total <= |p|
    requires h == Ip4(p[1], Be16(p, 4), Be16(p, 6), p[8], p[9], Be16(p, 10), p[12..16], p[16..20], p[20..n])
    ensures h.Ok(total - n) && h.Bytes(total - n) == p[..n]
  {
    assert p[0] == 0x40 + p[0] % 16;
    assert h.Ok(total - n);
    WordBack(p, 2);
    WordBack(p, 4);
    WordBack(p, 6);
    WordBack(p, 10);
    hide Be16, Word;
    assert p[..n] == [p[0], p[1]] + p[2..4] + p[4..6] + p[6..8] + [p[8], p[9]] + p[10..12] + p[12..16] + p[16..20] + p[20..n];
  }

  // ── Routing ──────────────────────────────────────────────────────────

  /** The dispatcher's choice by protocol and length: datagrams and segments with a full header go to the flow of their
      addresses and ports, shorter ones are refused, and other protocols are passed over. */
  lemma RouteByCase(p: IpPacket)
    ensures p.proto == 17 && |p.l4| >= 8 ==>
      Route(p) == Delivered(UdpData(p.src, p.dst, p.l4[0] as int * 256 + p.l4[1], p.l4[2] as int * 256 + p.l4[3], p.l4[8..]))
    ensures p.proto == 6 && |p.l4| >= 20 ==>
      Route(p) == Delivered(TcpSegment(p.src, p.dst, p.l4[0] as int * 256 + p.l4[1], p.l4[2] as int * 256 + p.l4[3], p.l4))
    ensures (p.proto == 17 && |p.l4| < 8) || (p.proto == 6 && |p.l4| < 20) ==> Route(p) == Rejected
    ensures p.proto != 17 && p.proto != 6 ==> Route(p) == Passed
  {
  }
}

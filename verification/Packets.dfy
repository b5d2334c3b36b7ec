/** IPv4, TCP and UDP packets: parsing, building, and in-place address rewriting. */
module Packets {
  import opened Wrappers
  import opened Bytes
  import opened Checksum

  type V4Addr = a: seq<U8> | |a| == 4 witness [0, 0, 0, 0]
  type V6Addr = a: seq<U8> | |a| == 16 witness [0, 0, 0, 0, 0, 0, 0, 0, 0, 0, 0, 0, 0, 0, 0, 0]

  datatype IpAddr = V4(v4: V4Addr) | V6(v6: V6Addr)

  const TCP: U8 := 6
  const UDP: U8 := 17

  // ── Parsing ──────────────────────────────────────────────────────────

  datatype IpPacket = IpPacket(
    proto: U8, ttl: U8, ipId: U16, fragOffUnits: nat, moreFrags: bool,
    src: IpAddr, dst: IpAddr, l4: seq<U8>)
  {
    function FragOffsetBytes(): nat { fragOffUnits * 8 }
    predicate IsFragment() { moreFrags || fragOffUnits != 0 }
  }

  /** Length in bytes of the IP header, as the low nibble of the first byte gives it. */
  function HeaderLen(p: seq<U8>): nat
    requires |p| >= 1
  {
    p[0] % 16 * 4
  }

  function Parse(data: seq<U8>): Option<IpPacket> {
    if |data| < 20 || data[0] / 16 != 4 then None
    else
      var hdr, total := HeaderLen(data), Be16(data, 2);
      if hdr < 20 || hdr > |data| || total > |data| || total < hdr then None
      else if Fold(WordSum(data[..hdr])) != 0xffff then None
      else
        var flagsOff := Be16(data, 6);
        Some(IpPacket(data[9], data[8], Be16(data, 4), flagsOff % 0x2000, flagsOff / 0x2000 % 2 == 1,
                      V4(data[12..16]), V4(data[16..20]), data[hdr..total]))
  }

  method ParsePacket(data: seq<U8>) returns (r: Option<IpPacket>)
    ensures r == Parse(data)
  {
    if |data| == 0 || data[0] / 16 != 4 || |data| < 20 { return None; }
    var ihl := data[0] % 16;
    var hdr := ihl * 4;
    var total := Be16(data, 2);
    if ihl < 5 || hdr > |data| || total > |data| || total < hdr { return None; }
    var c := InternetChecksum(data[..hdr]);
    if c != 0 { return None; }
    var flagsOff := Be16(data, 6);
    return Some(IpPacket(data[9], data[8], Be16(data, 4), flagsOff % 0x2000, flagsOff / 0x2000 % 2 == 1,
                         V4(data[12..16]), V4(data[16..20]), data[hdr..total]));
  }

  // ── The IPv4 header ──────────────────────────────────────────────────

  /** What precedes the checksum field: version 4, IHL 5, TTL 64. */
  function HeaderFront(total: U16, proto: U8, id: U16, flagsOff: U16): (h: seq<U8>)
    ensures |h| == 10
  {
    [0x45, 0] + Word(total) + Word(id) + Word(flagsOff) + [64, proto]
  }

  /** A 20-byte header with the given checksum field. */
  function HeaderWith(total: U16, proto: U8, src: V4Addr, dst: V4Addr, id: U16, flagsOff: U16, ck: U16)
    : (h: seq<U8>)
    ensures |h| == 20
  {
    HeaderFront(total, proto, id, flagsOff) + Word(ck) + (src + dst)
  }

  function HeaderSum(total: U16, proto: U8, src: V4Addr, dst: V4Addr, id: U16, flagsOff: U16): nat {
    0x4500 + total + id + flagsOff + 0x4000 + proto + AddrSum(src) + AddrSum(dst)
  }

  function Header(total: U16, proto: U8, src: V4Addr, dst: V4Addr, id: U16, flagsOff: U16): (h: seq<U8>)
    ensures |h| == 20
  {
    HeaderWith(total, proto, src, dst, id, flagsOff, 0xffff - Fold(HeaderSum(total, proto, src, dst, id, flagsOff)))
  }

  function FragFlags(offUnits: U16, more: bool): U16 {
    offUnits % 0x2000 + if more then 0x2000 else 0
  }

  const DONT_FRAGMENT: U16 := 0x4000

  lemma HeaderWithSum(total: U16, proto: U8, src: V4Addr, dst: V4Addr, id: U16, flagsOff: U16, ck: U16)
    ensures WordSum(HeaderWith(total, proto, src, dst, id, flagsOff, ck))
      == HeaderSum(total, proto, src, dst, id, flagsOff) + ck
  {
    var a: seq<U8> := [0x45, 0] + Word(total);
    var b: seq<U8> := Word(id) + Word(flagsOff);
    var c: seq<U8> := [64, proto] + Word(ck);
    WordSumAddr(a);
    WordSumAddr(b);
    WordSumAddr(c);
    WordSumAddr(src);
    WordSumAddr(dst);
    assert HeaderWith(total, proto, src, dst, id, flagsOff, ck) == a + b + c + src + dst;
    WordSumConcat(a + b + c + src, dst);
    WordSumConcat(a + b + c, src);
    WordSumThree(a, b, c);
  }

  /** `write_ipv4_header` (id 0, don't fragment) and `write_ipv4_header_frag`: every byte of the
      header is written, the checksum last, over the header with a zero checksum field. */
  method WriteHeader(out: array<U8>, total: U16, proto: U8, src: V4Addr, dst: V4Addr, id: U16, flagsOff: U16)
    requires out.Length >= 20
    modifies out
    ensures out[..] == Splice(old(out[..]), 0, Header(total, proto, src, dst, id, flagsOff))
  {
    ghost var was := out[..];
    ghost var front, h0 := HeaderFront(total, proto, id, flagsOff), HeaderWith(total, proto, src, dst, id, flagsOff, 0);
    WriteAt(out, 0, [0x45, 0] + Word(total) + Word(id) + Word(flagsOff) + [64, proto]);
    WriteAt(out, 10, Word(0));
    SpliceAdjacent(was, 0, front, Word(0));
    WriteAt(out, 12, src + dst);
    SpliceAdjacent(was, 0, front + Word(0), src + dst);
    assert out[..20] == h0;
    HeaderWithSum(total, proto, src, dst, id, flagsOff, 0);
    var cs := InternetChecksum(out[..20]);
    assert h0 == front + Word(0) + (src + dst)
      && Header(total, proto, src, dst, id, flagsOff) == front + Word(cs) + (src + dst);
    WriteAt(out, 10, Word(cs));
    SpliceInside(was, 0, h0, 10, Word(cs));
    SpliceMiddle(front, Word(0), src + dst, Word(cs));
  }

  // ── Whole packets ────────────────────────────────────────────────────

  /** A transport segment is what precedes the checksum field, the checksum, and what follows. */
  predicate IsSegment(proto: U8, front: seq<U8>, back: seq<U8>) {
    && ((proto == TCP && |front| == 16 && |back| >= 2) || (proto == UDP && |front| == 6))
    && 22 + |front| + |back| <= 0xffff
  }

  function SegmentSum(proto: U8, src: V4Addr, dst: V4Addr, front: seq<U8>, back: seq<U8>): nat {
    AddrSum(src) + AddrSum(dst) + proto + (|front| + 2 + |back|) + WordSum(front) + WordSum(back)
  }

  function SegmentChecksum(proto: U8, src: V4Addr, dst: V4Addr, front: seq<U8>, back: seq<U8>): U16 {
    var c := 0xffff - Fold(SegmentSum(proto, src, dst, front, back));
    if proto == UDP && c == 0 then 0xffff else c
  }

  /** The unfragmented packet with correct checksums from `src` to `dst`. */
  function Packet(proto: U8, src: V4Addr, dst: V4Addr, front: seq<U8>, back: seq<U8>): (p: seq<U8>)
    requires IsSegment(proto, front, back)
    ensures |p| == 22 + |front| + |back|
  {
    Header(22 + |front| + |back|, proto, src, dst, 0, DONT_FRAGMENT)
    + (front + Word(SegmentChecksum(proto, src, dst, front, back)) + back)
  }

  lemma SegmentSumIs(proto: U8, src: V4Addr, dst: V4Addr, front: seq<U8>, ck: U16, back: seq<U8>)
    requires IsSegment(proto, front, back)
    ensures PseudoSum(src, dst, proto, front + Word(ck) + back) == SegmentSum(proto, src, dst, front, back) + ck
  {
    WordSumThree(front, Word(ck), back);
    WordSumWord(ck);
  }

  datatype TcpBuild = TcpBuild(
    src: IpAddr, dst: IpAddr, srcPort: U16, dstPort: U16, seqNo: U32, ackNo: U32,
    flags: U8, window: U16, options: seq<U8>, payload: seq<U8>)
  {
    predicate Ok() {
      src.V4? && dst.V4? && |options| % 4 == 0 && 40 + |options| + |payload| <= 0xffff
    }
    function Front(): (f: seq<U8>)
      ensures |f| == 16
    {
      Word(srcPort) + Word(dstPort) + Be32Bytes(seqNo) + Be32Bytes(ackNo)
      + [(20 + |options|) / 4 * 16 % 256, flags] + Word(window)
    }
    function Back(): seq<U8> { Word(0) + options + payload }
  }

  datatype UdpBuild = UdpBuild(src: IpAddr, dst: IpAddr, srcPort: U16, dstPort: U16, payload: seq<U8>)
  {
    predicate Ok() {
      src.V4? && dst.V4? && 28 + |payload| <= 0xffff
    }
    function Front(): (f: seq<U8>)
      requires Ok()
      ensures |f| == 6
    {
      Word(srcPort) + Word(dstPort) + Word(8 + |payload|)
    }
  }

  function Be32Bytes(v: U32): (w: seq<U8>)
    ensures |w| == 4
  {
    Word(v / 0x1_0000) + Word(v % 0x1_0000)
  }

  /** The packet `b` asks for. */
  function TcpPacket(b: TcpBuild): seq<U8>
    requires b.Ok()
  {
    Packet(TCP, b.src.v4, b.dst.v4, b.Front(), b.Back())
  }

  function UdpPacket(b: UdpBuild): seq<U8>
    requires b.Ok()
  {
    Packet(UDP, b.src.v4, b.dst.v4, b.Front(), b.payload)
  }

  /** Writes a segment at offset 20 with a zero checksum field, checksums it, and patches it. */
  method WriteSegment(out: array<U8>, proto: U8, src: V4Addr, dst: V4Addr, front: seq<U8>, back: seq<U8>)
    requires IsSegment(proto, front, back) && 22 + |front| + |back| <= out.Length
    modifies out
    ensures out[..] == Splice(old(out[..]), 20, front + Word(SegmentChecksum(proto, src, dst, front, back)) + back)
  {
    ghost var was := out[..];
    WriteAt(out, 20, front + Word(0) + back);
    var l4 := out[20..22 + |front| + |back|];
    assert l4 == front + Word(0) + back;
    SegmentSumIs(proto, src, dst, front, 0, back);
    var cs := L4Checksum(src, dst, proto, l4);
    if proto == UDP && cs == 0 { cs := 0xffff; }
    assert cs == SegmentChecksum(proto, src, dst, front, back);
    WriteAt(out, 20 + |front|, Word(cs));
    SpliceInside(was, 20, front + Word(0) + back, |front|, Word(cs));
    SpliceMiddle(front, Word(0), back, Word(cs));
  }

  /** The common course of `build_tcp` and `build_udp`: the segment, then the IP header before it. */
  method WritePacket(out: array<U8>, proto: U8, src: V4Addr, dst: V4Addr, front: seq<U8>, back: seq<U8>)
    requires IsSegment(proto, front, back) && 22 + |front| + |back| <= out.Length
    modifies out
    ensures out[..] == Splice(old(out[..]), 0, Packet(proto, src, dst, front, back))
  {
    ghost var was := out[..];
    var total := 22 + |front| + |back|;
    WriteSegment(out, proto, src, dst, front, back);
    WriteHeader(out, total, proto, src, dst, 0, DONT_FRAGMENT);
    SpliceBefore(was, Header(total, proto, src, dst, 0, DONT_FRAGMENT),
                 front + Word(SegmentChecksum(proto, src, dst, front, back)) + back);
  }

  lemma SpliceBefore(s: seq<U8>, h: seq<U8>, w: seq<U8>)
    requires |h| + |w| <= |s|
    ensures Splice(Splice(s, |h|, w), 0, h) == Splice(s, 0, h + w)
  {
  }

  /** `build_tcp`: 0 and no write when the request is unbuildable or the buffer too small. */
  method BuildTcp(out: array<U8>, b: TcpBuild) returns (n: nat)
    modifies out
    ensures n > 0 <==>
      && b.src.V4? && b.dst.V4? && |b.options| % 4 == 0
      && 40 + |b.options| + |b.payload| <= 0xffff && 40 + |b.options| + |b.payload| <= out.Length
    ensures n > 0 ==> n == |TcpPacket(b)| && out[..] == Splice(old(out[..]), 0, TcpPacket(b))
    ensures n == 0 ==> out[..] == old(out[..])
  {
    if !b.src.V4? || !b.dst.V4? || |b.options| % 4 != 0 { return 0; }
    var total := 40 + |b.options| + |b.payload|;
    if out.Length < total || total > 0xffff { return 0; }
    WritePacket(out, TCP, b.src.v4, b.dst.v4, b.Front(), b.Back());
    return total;
  }

  method BuildUdp(out: array<U8>, b: UdpBuild) returns (n: nat)
    modifies out
    ensures n > 0 <==> b.src.V4? && b.dst.V4? && 28 + |b.payload| <= 0xffff && 28 + |b.payload| <= out.Length
    ensures n > 0 ==> n == |UdpPacket(b)| && out[..] == Splice(old(out[..]), 0, UdpPacket(b))
    ensures n == 0 ==> out[..] == old(out[..])
  {
    if !b.src.V4? || !b.dst.V4? { return 0; }
    var total := 28 + |b.payload|;
    if out.Length < total || total > 0xffff { return 0; }
    WritePacket(out, UDP, b.src.v4, b.dst.v4, b.Front(), b.payload);
    return total;
  }

  // ── In-place address rewriting ───────────────────────────────────────

  datatype Rewritten = Rewritten(ok: bool, pkt: seq<U8>)

  /** `rewrite_v4_addr`: the IP checksum and the address are updated before the transport header's
      length is checked, so a refused packet may have been changed. */
  function Rewrite(p: seq<U8>, addr: V4Addr, isSrc: bool): (r: Rewritten)
    ensures |r.pkt| == |p|
  {
    if |p| < 20 || p[0] / 16 != 4 || |p| < HeaderLen(p) then Rewritten(false, p)
    else
      var at := AddrOffset(isSrc);
      var was := p[at..at + 4];
      if was == addr then Rewritten(true, p)
      else RewriteL4(RewriteL3(p, addr, at), HeaderLen(p), p[9], was, addr)
  }

  function AddrOffset(isSrc: bool): nat { if isSrc then 12 else 16 }

  function RewriteL3(p: seq<U8>, addr: V4Addr, at: nat): (q: seq<U8>)
    requires |p| >= 20 && (at == 12 || at == 16)
    ensures |q| == |p|
    ensures forall k :: 0 <= k < |p| && k != 10 && k != 11 && !(at <= k < at + 4) ==> q[k] == p[k]
    ensures q[at..at + 4] == addr
  {
    Splice(Splice(p, 10, Word(CsumUpdateAddr(Be16(p, 10), p[at..at + 4], addr))), at, addr)
  }

  function RewriteL4(p: seq<U8>, ihl: nat, proto: U8, was: V4Addr, addr: V4Addr): (r: Rewritten)
    requires ihl <= |p|
    ensures |r.pkt| == |p|
    ensures var off := ihl + if proto == TCP then 16 else 6;
      forall k :: 0 <= k < |p| && k != off && k != off + 1 ==> r.pkt[k] == p[k]
  {
    if proto == TCP then
      if |p| - ihl < 18 then Rewritten(false, p)
      else Rewritten(true, Splice(p, ihl + 16, Word(CsumUpdateAddr(Be16(p, ihl + 16), was, addr))))
    else if proto == UDP then
      if |p| - ihl < 8 then Rewritten(false, p)
      else if Be16(p, ihl + 6) == 0 then Rewritten(true, p)
      else Rewritten(true, Splice(p, ihl + 6, Word(UdpUpdate(Be16(p, ihl + 6), was, addr))))
    else Rewritten(true, p)
  }

  /** A UDP checksum computed as 0 is sent as 0xffff (RFC 768). */
  function UdpUpdate(cs: U16, was: V4Addr, addr: V4Addr): (c: U16)
    ensures c != 0
  {
    var c := CsumUpdateAddr(cs, was, addr);
    if c == 0 then 0xffff else c
  }

  method RewriteV4Addr(pkt: array<U8>, addr: V4Addr, isSrc: bool) returns (ok: bool)
    modifies pkt
    ensures Rewritten(ok, pkt[..]) == Rewrite(old(pkt[..]), addr, isSrc)
  {
    if pkt.Length < 20 { return false; }
    if pkt[0] / 16 != 4 { return false; }
    var ihl := pkt[0] % 16 * 4;
    var proto := pkt[9];
    if pkt.Length < ihl { return false; }
    var at := if isSrc then 12 else 16;
    var was := pkt[at..at + 4];
    if was == addr { return true; }

    WriteAddress(pkt, addr, at);
    ok := FixL4Checksum(pkt, ihl, proto, was, addr);
  }

  method WriteAddress(pkt: array<U8>, addr: V4Addr, at: nat)
    requires pkt.Length >= 20 && (at == 12 || at == 16)
    modifies pkt
    ensures pkt[..] == RewriteL3(old(pkt[..]), addr, at)
  {
    var ck := ComputeCsumUpdateAddr(Be16(pkt[..], 10), pkt[at..at + 4], addr);
    WriteAt(pkt, 10, Word(ck));
    WriteAt(pkt, at, addr);
  }

  method FixL4Checksum(pkt: array<U8>, ihl: nat, proto: U8, was: V4Addr, addr: V4Addr) returns (ok: bool)
    requires ihl <= pkt.Length
    modifies pkt
    ensures Rewritten(ok, pkt[..]) == RewriteL4(old(pkt[..]), ihl, proto, was, addr)
  {
    if proto == TCP {
      if pkt.Length - ihl < 18 { return false; }
      var cs := ComputeCsumUpdateAddr(Be16(pkt[..], ihl + 16), was, addr);
      WriteAt(pkt, ihl + 16, Word(cs));
    } else if proto == UDP {
      if pkt.Length - ihl < 8 { return false; }
      var cs := Be16(pkt[..], ihl + 6);
      if cs != 0 {
        cs := ComputeCsumUpdateAddr(cs, was, addr);
        if cs == 0 { cs := 0xffff; }
        WriteAt(pkt, ihl + 6, Word(cs));
      }
    }
    return true;
  }
}

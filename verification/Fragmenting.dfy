/** UDP replies too large for one packet are emitted as IP fragments, and reassemble to the datagram. */
module Fragmenting {
  import opened Wrappers
  import opened Bytes
  import opened Checksum
  import opened Packets
  import opened Rebuilding
  import opened Reassembly

  const MAX_IP_PKT: nat := 1000
  /** The largest multiple of 8 that fits after a 20-byte header. */
  const MAX_FRAG_DATA: nat := 976

  /** The UDP datagram with its checksum, as it travels inside the fragments. */
  function Datagram(b: UdpBuild): seq<U8>
    requires b.Ok()
  {
    b.Front() + Word(SegmentChecksum(UDP, b.src.v4, b.dst.v4, b.Front(), b.payload)) + b.payload
  }

  /** The piece that starts at byte `off`. */
  function PieceAt(udp: seq<U8>, off: nat): FragPart
    requires off < |udp|
  {
    FragPart(off, udp[off..if |udp| - off <= MAX_FRAG_DATA then |udp| else off + MAX_FRAG_DATA])
  }

  /** The pieces from byte `off` on. */
  function PartsFrom(udp: seq<U8>, off: nat): seq<FragPart>
    decreases |udp| - off
  {
    if off >= |udp| then [] else [PieceAt(udp, off)] + PartsFrom(udp, PieceAt(udp, off).End())
  }

  lemma {:induction false} PartsTile(udp: seq<U8>, off: nat)
    requires off <= |udp|
    ensures Tiles(PartsFrom(udp, off), off, |udp|) && Join(PartsFrom(udp, off)) == udp[off..]
    decreases |udp| - off
  {
    if off < |udp| {
      var p := PieceAt(udp, off);
      PartsTile(udp, p.End());
      assert udp[off..] == p.data + udp[p.End()..];
    }
  }

  predicate PieceOk(p: FragPart, udp: seq<U8>) {
    p.off % 8 == 0 && 0 < |p.data| <= MAX_FRAG_DATA && p.End() <= |udp|
  }

  predicate StrictlySorted(s: seq<FragPart>) {
    forall i, j :: 0 <= i < j < |s| ==> s[i].off < s[j].off
  }

  /** Offsets are multiples of 8 and increase, every piece is non-empty and small, and the last piece
      reaches the end of the datagram. */
  lemma {:induction false} PartsShape(udp: seq<U8>, off: nat)
    requires off % 8 == 0 || off == |udp|
    ensures var parts := PartsFrom(udp, off);
      && (off < |udp| ==> parts != [] && parts[|parts| - 1].End() == |udp|)
      && (forall i :: 0 <= i < |parts| ==> PieceOk(parts[i], udp) && off <= parts[i].off)
      && StrictlySorted(parts)
    decreases |udp| - off
  {
    if off < |udp| {
      var p := PieceAt(udp, off);
      var rest := PartsFrom(udp, p.End());
      PartsShape(udp, p.End());
      assert PieceOk(p, udp);
      assert forall i :: 0 < i < |PartsFrom(udp, off)| ==> PartsFrom(udp, off)[i] == rest[i - 1];
    }
  }

  // ── Emission ─────────────────────────────────────────────────────────

  function FragPacket(src: V4Addr, dst: V4Addr, ipId: U16, part: FragPart, last: bool): seq<U8>
    requires 20 + |part.data| <= 0xffff && part.off / 8 <= 0xffff
  {
    Header(20 + |part.data|, UDP, src, dst, ipId, FragFlags(part.off / 8, !last)) + part.data
  }

  function FragPacketsFrom(src: V4Addr, dst: V4Addr, ipId: U16, udp: seq<U8>, off: nat): seq<seq<U8>>
    requires |udp| <= 65515
    decreases |udp| - off
  {
    if off >= |udp| then []
    else
      var p := PieceAt(udp, off);
      [FragPacket(src, dst, ipId, p, p.End() == |udp|)] + FragPacketsFrom(src, dst, ipId, udp, p.End())
  }

  /** Everything `build_and_emit` emits for one reply. */
  function Emission(b: UdpBuild, ipId: U16): seq<seq<U8>> {
    if !b.Ok() then []
    else if 28 + |b.payload| <= MAX_IP_PKT then [UdpPacket(b)]
    else FragPacketsFrom(b.src.v4, b.dst.v4, ipId, Datagram(b), 0)
  }

  method BuildAndEmit(b: UdpBuild, ipId: U16) returns (emitted: seq<seq<U8>>, nextId: U16)
    ensures emitted == Emission(b, ipId)
    ensures nextId == if b.Ok() && 28 + |b.payload| > MAX_IP_PKT then (ipId + 1) % 0x1_0000 else ipId
  {
    emitted, nextId := [], ipId;
    if 28 + |b.payload| <= MAX_IP_PKT {
      var out := new U8[MAX_IP_PKT + 8](_ => 0);
      var n := BuildUdp(out, b);
      if n == 0 { return; }
      assert out[..n] == UdpPacket(b);
      emitted := [out[..n]];
      return;
    }
    if 28 + |b.payload| > 0xffff { return; }
    if !b.src.V4? || !b.dst.V4? { return; }
    var udp := BuildDatagram(b);
    nextId := (ipId + 1) % 0x1_0000;
    emitted := EmitFragments(b.src.v4, b.dst.v4, ipId, udp);
  }

  method BuildDatagram(b: UdpBuild) returns (udp: seq<U8>)
    requires b.Ok()
    ensures udp == Datagram(b)
  {
    var front := Word(b.srcPort) + Word(b.dstPort) + Word(8 + |b.payload|);
    var buf := new U8[8 + |b.payload|](_ => 0);
    WriteAt(buf, 0, front + Word(0) + b.payload);
    assert buf[..] == front + Word(0) + b.payload;
    SegmentSumIs(UDP, b.src.v4, b.dst.v4, front, 0, b.payload);
    var cs := L4Checksum(b.src.v4, b.dst.v4, UDP, buf[..]);
    if cs == 0 { cs := 0xffff; }
    assert cs == SegmentChecksum(UDP, b.src.v4, b.dst.v4, front, b.payload);
    WriteAt(buf, 6, Word(cs));
    SpliceMiddle(front, Word(0), b.payload, Word(cs));
    udp := buf[..];
  }

  method EmitFragments(src: V4Addr, dst: V4Addr, ipId: U16, udp: seq<U8>) returns (emitted: seq<seq<U8>>)
    requires |udp| <= 65515
    ensures emitted == FragPacketsFrom(src, dst, ipId, udp, 0)
  {
    hide FragPacket;
    emitted := [];
    var off := 0;
    var out := new U8[MAX_IP_PKT + 8](_ => 0);
    while off < |udp|
      invariant 0 <= off <= |udp| && out.Length == MAX_IP_PKT + 8
      invariant emitted + FragPacketsFrom(src, dst, ipId, udp, off) == FragPacketsFrom(src, dst, ipId, udp, 0)
    {
      var last := |udp| - off <= MAX_FRAG_DATA;
      var n := if last then |udp| - off else MAX_FRAG_DATA;
      var pkt := WriteFragment(out, src, dst, ipId, FragPart(off, udp[off..off + n]), last);
      assert FragPart(off, udp[off..off + n]) == PieceAt(udp, off);
      assert FragPacketsFrom(src, dst, ipId, udp, off) == [pkt] + FragPacketsFrom(src, dst, ipId, udp, off + n);
      emitted := emitted + [pkt];
      off := off + n;
    }
  }

  /** One header and one piece in the reused buffer; the bytes beyond the packet stay behind. */
  method WriteFragment(out: array<U8>, src: V4Addr, dst: V4Addr, ipId: U16, part: FragPart, last: bool) returns (pkt: seq<U8>)
    requires 20 + |part.data| <= out.Length && 20 + |part.data| <= 0xffff && part.off / 8 <= 0xffff
    modifies out
    ensures pkt == FragPacket(src, dst, ipId, part, last)
  {
    WriteHeader(out, 20 + |part.data|, UDP, src, dst, ipId, FragFlags(part.off / 8, !last));
    ghost var h := out[..20];
    WriteAt(out, 20, part.data);
    pkt := out[..20 + |part.data|];
    assert pkt == h + part.data;
  }

  /** What a fragment parses to. */
  function FragIp(src: V4Addr, dst: V4Addr, ipId: U16, part: FragPart, last: bool): IpPacket {
    IpPacket(UDP, 64, ipId, part.off / 8, !last, V4(src), V4(dst), part.data)
  }

  lemma ParseFragment(src: V4Addr, dst: V4Addr, ipId: U16, part: FragPart, last: bool)
    requires part.off % 8 == 0 && part.off < 0x1_0000 && 20 + |part.data| <= 0xffff
    ensures Parse(FragPacket(src, dst, ipId, part, last)) == Some(FragIp(src, dst, ipId, part, last))
  {
    FlagsRoundTrip(part.off / 8, !last);
    ParseBuiltExact(UDP, src, dst, ipId, FragFlags(part.off / 8, !last), part.data);
  }

  lemma FlagsRoundTrip(units: nat, more: bool)
    requires units < 0x2000
    ensures FragFlags(units, more) % 0x2000 == units && (FragFlags(units, more) / 0x2000 % 2 == 1 <==> more)
  {
  }

  /** The emitted fragments are at most 1000 bytes each and parse, in order, to the pieces. */
  lemma {:induction false} FragmentsParse(src: V4Addr, dst: V4Addr, ipId: U16, udp: seq<U8>, off: nat)
    requires |udp| <= 65515 && (off % 8 == 0 || off == |udp|)
    ensures |FragPacketsFrom(src, dst, ipId, udp, off)| == |PartsFrom(udp, off)|
    ensures var pkts, parts := FragPacketsFrom(src, dst, ipId, udp, off), PartsFrom(udp, off);
      forall i :: 0 <= i < |pkts| ==> IsFragmentOf(pkts[i], src, dst, ipId, parts[i], udp)
    decreases |udp| - off
  {
    hide IsFragmentOf, FragPacket;
    if off < |udp| {
      var p := PieceAt(udp, off);
      FirstFragment(src, dst, ipId, udp, off);
      FragmentsParse(src, dst, ipId, udp, p.End());
      var pkts, parts := FragPacketsFrom(src, dst, ipId, udp, p.End()), PartsFrom(udp, p.End());
      var pkt := FragPacket(src, dst, ipId, p, p.End() == |udp|);
      assert FragPacketsFrom(src, dst, ipId, udp, off) == [pkt] + pkts && PartsFrom(udp, off) == [p] + parts;
    }
  }

  lemma FirstFragment(src: V4Addr, dst: V4Addr, ipId: U16, udp: seq<U8>, off: nat)
    requires |udp| <= 65515 && off < |udp| && off % 8 == 0
    ensures var p := PieceAt(udp, off);
      IsFragmentOf(FragPacket(src, dst, ipId, p, p.End() == |udp|), src, dst, ipId, p, udp)
  {
    var p := PieceAt(udp, off);
    ParseFragment(src, dst, ipId, p, p.End() == |udp|);
  }

  predicate IsFragmentOf(pkt: seq<U8>, src: V4Addr, dst: V4Addr, ipId: U16, part: FragPart, udp: seq<U8>) {
    20 < |pkt| <= MAX_IP_PKT && Parse(pkt) == Some(FragIp(src, dst, ipId, part, part.End() == |udp|))
  }
}

/** The bytes on the wire, laid out field by field. */
module Layout {
  import opened Wrappers
  import opened Bytes
  import opened Checksum
  import opened Packets
  import opened Rebuilding
  import opened Reassembly
  import opened Fragmenting
  import opened Headers

  // ── Packets ──────────────────────────────────────────────────────────

  /** What precedes the contents of every packet the program builds: no type of service, no options, time to live 64, and
      a checksum that verifies. */
  lemma BuiltHeader(n: nat, proto: U8, src: V4Addr, dst: V4Addr, id: U16, flagsOff: U16) returns (ck: U16)
    requires 20 + n <= 0xffff
    ensures var h := Ip4(0, id, flagsOff, 64, proto, ck, src, dst, []);
      && h.Ok(n) && Header(20 + n, proto, src, dst, id, flagsOff) == h.Bytes(n)
      && Fold(WordSum(h.Bytes(n))) == 0xffff
  {
    hide Fold, WordSum, Word;
    ck := 0xffff - Fold(HeaderSum(20 + n, proto, src, dst, id, flagsOff));
    var h := Ip4(0, id, flagsOff, 64, proto, ck, src, dst, []);
    HeaderVerifies(20 + n, proto, src, dst, id, flagsOff);
    assert Header(20 + n, proto, src, dst, id, flagsOff) == h.Bytes(n);
  }

  /** A TCP packet carries the request's fields behind a header with identifier 0 that forbids fragmentation. */
  lemma TcpLayout(b: TcpBuild) returns (ck: U16, l4: seq<U8>)
    requires b.Ok()
    ensures var h := Ip4(0, 0, 0x4000, 64, 6, ck, b.src.v4, b.dst.v4, []);
      h.Ok(|l4|) && TcpPacket(b) == h.Bytes(|l4|) + l4 && TcpFields(b, l4)
  {
    hide Header, Word, SegmentChecksum;
    var front, back := b.Front(), b.Back();
    l4 := front + Word(SegmentChecksum(TCP, b.src.v4, b.dst.v4, front, back)) + back;
    TcpSegmentFields(b, SegmentChecksum(TCP, b.src.v4, b.dst.v4, front, back), l4);
    ck := BuiltHeader(|l4|, TCP, b.src.v4, b.dst.v4, 0, DONT_FRAGMENT);
  }

  lemma UdpLayout(b: UdpBuild) returns (ck: U16, l4: seq<U8>)
    requires b.Ok()
    ensures var h := Ip4(0, 0, 0x4000, 64, 17, ck, b.src.v4, b.dst.v4, []);
      h.Ok(|l4|) && UdpPacket(b) == h.Bytes(|l4|) + l4 && UdpFields(b, l4)
  {
    hide Header, Word;
    var front := b.Front();
    var sum := SegmentChecksum(UDP, b.src.v4, b.dst.v4, front, b.payload);
    l4 := front + Word(sum) + b.payload;
    UdpSegmentFields(b, sum, l4);
    ck := BuiltHeader(|l4|, UDP, b.src.v4, b.dst.v4, 0, DONT_FRAGMENT);
  }

  /** A fragment carries its piece behind a header with the identifier, the offset in units of 8 bytes, and the
      more-fragments bit on all but the last; further fragmentation is not forbidden. */
  lemma FragmentLayout(src: V4Addr, dst: V4Addr, ipId: U16, part: FragPart, last: bool) returns (ck: U16)
    requires part.off % 8 == 0 && part.off < 0x1_0000 && 20 + |part.data| <= 0xffff
    ensures var h := Ip4(0, ipId, part.off / 8 + if last then 0 else 0x2000, 64, 17, ck, src, dst, []);
      h.Ok(|part.data|) && FragPacket(src, dst, ipId, part, last) == h.Bytes(|part.data|) + part.data
  {
    hide Header, Word;
    assert FragFlags(part.off / 8, !last) == part.off / 8 + if last then 0 else 0x2000;
    ck := BuiltHeader(|part.data|, UDP, src, dst, ipId, FragFlags(part.off / 8, !last));
  }

  /** The pieces of a datagram: each but the last has 976 bytes, the most that fit into 1000 with the header in units of
      8, so the `i`th begins at 976 times `i`. */
  lemma {:induction false} PiecesAreFull(udp: seq<U8>, off: nat, i: nat)
    requires i < |PartsFrom(udp, off)|
    ensures PartsFrom(udp, off)[i].off == off + 976 * i
    ensures i + 1 < |PartsFrom(udp, off)| ==> |PartsFrom(udp, off)[i].data| == 976
    ensures i + 1 == |PartsFrom(udp, off)| ==> |PartsFrom(udp, off)[i].data| <= 976 && PartsFrom(udp, off)[i].End() == |udp|
    decreases i
  {
    var p := PieceAt(udp, off);
    var rest := PartsFrom(udp, p.End());
    assert PartsFrom(udp, off) == [p] + rest;
    if i > 0 { PiecesAreFull(udp, p.End(), i - 1); }
  }
}

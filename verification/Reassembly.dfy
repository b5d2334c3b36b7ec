/** The IP fragment reassembler of the NAT dispatcher (RFC 791, section 3.2). */
module Reassembly {
  import opened Wrappers
  import opened Bytes
  import opened Checksum
  import opened Packets
  import opened Rebuilding

  const MAX_FRAG_STREAMS: nat := 64
  const MAX_FRAG_BYTES_PER_STREAM: nat := 65535
  const FRAG_EXPIRY_MS: nat := 30_000

  datatype FragKey = FragKey(src: IpAddr, dst: IpAddr, proto: U8, ipId: U16)

  datatype FragPart = FragPart(off: nat, data: seq<U8>)
  {
    function End(): nat { off + |data| }
  }

  /** `total` is -1 until a fragment without the more-fragments flag arrives. */
  datatype FragEntry = FragEntry(
    parts: seq<FragPart>, proto: U8, src: IpAddr, dst: IpAddr, total: int, accumulated: nat, arrivedMs: U32)

  /** What is handed to the per-flow sessions. */
  datatype Delivery =
    | UdpData(src: IpAddr, dst: IpAddr, srcPort: U16, dstPort: U16, payload: seq<U8>)
    | TcpSegment(src: IpAddr, dst: IpAddr, srcPort: U16, dstPort: U16, segment: seq<U8>)

  datatype Outcome =
    | Rejected              // `false`: malformed or dropped
    | Held                  // `true`: stored, the stream is not complete
    | Passed                // `true`: a protocol that is not forwarded
    | Delivered(delivery: Delivery)

  // ── Sorting the parts ────────────────────────────────────────────────

  function SumLen(parts: seq<FragPart>): nat {
    if parts == [] then 0 else |parts[0].data| + SumLen(parts[1..])
  }

  predicate SortedByOff(s: seq<FragPart>) {
    forall i, j :: 0 <= i < j < |s| ==> s[i].off <= s[j].off
  }

  /** Insert after every part with the same or a smaller offset. */
  function Insert(p: FragPart, s: seq<FragPart>): (r: seq<FragPart>)
    requires SortedByOff(s)
    ensures SortedByOff(r) && multiset(r) == multiset(s) + multiset{p} && |r| == |s| + 1
  {
    if s == [] then [p]
    else if p.off < s[0].off then [p] + s
    else
      var t := Insert(p, s[1..]);
      InsertHead(p, s, t);
      [s[0]] + t
  }

  lemma InsertHead(p: FragPart, s: seq<FragPart>, t: seq<FragPart>)
    requires s != [] && SortedByOff(s) && SortedByOff(t) && s[0].off <= p.off
    requires multiset(t) == multiset(s[1..]) + multiset{p}
    ensures SortedByOff([s[0]] + t) && multiset([s[0]] + t) == multiset(s) + multiset{p}
  {
    assert s == [s[0]] + s[1..];
    forall j | 0 <= j < |t| ensures s[0].off <= t[j].off {
      assert t[j] in multiset(t);
      assert t[j] == p || t[j] in s[1..];
    }
  }

  /** The stable sort by offset. */
  function SortByOff(parts: seq<FragPart>): (r: seq<FragPart>)
    ensures SortedByOff(r) && multiset(r) == multiset(parts)
  {
    if parts == [] then []
    else
      var n := |parts| - 1;
      assert parts == parts[..n] + [parts[n]];
      Insert(parts[n], SortByOff(parts[..n]))
  }

  /** The parts at offset `o`, in their order. */
  function AtOff(s: seq<FragPart>, o: nat): seq<FragPart> {
    if s == [] then [] else (if s[0].off == o then [s[0]] else []) + AtOff(s[1..], o)
  }

  lemma {:induction false} AtOffAppend(s: seq<FragPart>, p: FragPart, o: nat)
    ensures AtOff(s + [p], o) == AtOff(s, o) + if p.off == o then [p] else []
  {
    if s == [] {
      assert s + [p] == [p] && [p][1..] == [];
    } else {
      AtOffAppend(s[1..], p, o);
      assert (s + [p])[1..] == s[1..] + [p];
    }
  }

  lemma {:induction false} NoneAtOff(s: seq<FragPart>, o: nat)
    requires forall i :: 0 <= i < |s| ==> s[i].off != o
    ensures AtOff(s, o) == []
  {
    if s != [] { NoneAtOff(s[1..], o); }
  }

  lemma {:induction false} InsertStable(p: FragPart, s: seq<FragPart>, o: nat)
    requires SortedByOff(s)
    ensures AtOff(Insert(p, s), o) == AtOff(s, o) + if p.off == o then [p] else []
  {
    if s == [] {
      assert [p][1..] == [];
    } else if p.off < s[0].off {
      assert ([p] + s)[1..] == s;
      if p.off == o { NoneAtOff(s, o); }
    } else {
      InsertStable(p, s[1..], o);
      var t := Insert(p, s[1..]);
      assert ([s[0]] + t)[1..] == t;
    }
  }

  /** Sorting by offset is a permutation, sorted, and keeps the order of arrival of parts with the same offset. */
  lemma {:induction false} SortStable(parts: seq<FragPart>, o: nat)
    ensures SortedByOff(SortByOff(parts)) && multiset(SortByOff(parts)) == multiset(parts)
    ensures AtOff(SortByOff(parts), o) == AtOff(parts, o)
  {
    if parts != [] {
      var n := |parts| - 1;
      assert parts == parts[..n] + [parts[n]] && SortByOff(parts) == Insert(parts[n], SortByOff(parts[..n]));
      hide AtOff, Insert, SortByOff, SortedByOff;
      SortStable(parts[..n], o);
      InsertStable(parts[n], SortByOff(parts[..n]), o);
      AtOffAppend(parts[..n], parts[n], o);
    }
  }

  // ── Tiling ───────────────────────────────────────────────────────────

  /** The parts follow each other without gap or overlap from `at` to exactly `total`. */
  predicate Tiles(parts: seq<FragPart>, at: nat, total: nat) {
    if parts == [] then at == total
    else parts[0].off == at && parts[0].End() <= total && Tiles(parts[1..], parts[0].End(), total)
  }

  function Join(parts: seq<FragPart>): seq<U8> {
    if parts == [] then [] else parts[0].data + Join(parts[1..])
  }

  lemma {:induction false} JoinLength(parts: seq<FragPart>, at: nat, total: nat)
    requires Tiles(parts, at, total)
    ensures |Join(parts)| == total - at && SumLen(parts) == total - at
  {
    if parts != [] { JoinLength(parts[1..], parts[0].End(), total); }
  }

  /** Every part of a tiling is found in the joined bytes at its own offset. */
  lemma {:induction false} JoinPlaces(parts: seq<FragPart>, at: nat, total: nat, i: nat)
    requires Tiles(parts, at, total) && i < |parts|
    ensures at <= parts[i].off && parts[i].End() <= total
    ensures |Join(parts)| == total - at && Join(parts)[parts[i].off - at..parts[i].End() - at] == parts[i].data
  {
    JoinLength(parts, at, total);
    if i > 0 {
      JoinPlaces(parts[1..], parts[0].End(), total, i - 1);
    }
  }

  // ── One stream ───────────────────────────────────────────────────────

  /** Route an unfragmented packet to its flow. The UDP payload is everything after the header. */
  function Route(p: IpPacket): Outcome {
    if p.proto == UDP then
      if |p.l4| < 8 then Rejected
      else Delivered(UdpData(p.src, p.dst, Be16(p.l4, 0), Be16(p.l4, 2), p.l4[8..]))
    else if p.proto == TCP then
      if |p.l4| < 20 then Rejected
      else Delivered(TcpSegment(p.src, p.dst, Be16(p.l4, 0), Be16(p.l4, 2), p.l4))
    else Passed
  }

  function KeyOf(p: IpPacket): FragKey { FragKey(p.src, p.dst, p.proto, p.ipId) }

  function NewEntry(p: IpPacket, now: U32): FragEntry {
    FragEntry([], p.proto, p.src, p.dst, -1, 0, now)
  }

  function AddPart(e: FragEntry, p: IpPacket): FragEntry {
    e.(parts := e.parts + [FragPart(p.FragOffsetBytes(), p.l4)],
       accumulated := e.accumulated + |p.l4|,
       total := if p.moreFrags then e.total else p.FragOffsetBytes() + |p.l4|)
  }

  /** The rebuilt packet; its total length field is cut to 16 bits. */
  function Rebuilt(e: FragEntry, payload: seq<U8>): seq<U8>
    requires e.src.V4? && e.dst.V4?
  {
    Header((20 + |payload|) % 0x1_0000, e.proto, e.src.v4, e.dst.v4, 0, FragFlags(0, false)) + payload
  }

  function Complete(e: FragEntry): Outcome
    requires e.src.V4? && e.dst.V4? && e.total >= 0
  {
    var sorted := SortByOff(e.parts);
    if !Tiles(sorted, 0, e.total) then Rejected
    else match Parse(Rebuilt(e, Join(sorted)))
      case None => Rejected
      case Some(p) => Route(p)
  }

  datatype StreamResult = StreamResult(entry: Option<FragEntry>, outcome: Outcome)

  /** What becomes of a stream once a part was added. */
  function Settle(e: FragEntry): StreamResult
    requires e.src.V4? && e.dst.V4?
  {
    if e.accumulated > MAX_FRAG_BYTES_PER_STREAM then StreamResult(None, Rejected)
    else if e.total < 0 || e.accumulated < e.total then StreamResult(Some(e), Held)
    else StreamResult(None, Complete(e))
  }

  /** One fragment arriving at the stream it belongs to. */
  function StreamStep(e: Option<FragEntry>, p: IpPacket, now: U32): StreamResult
    requires p.src.V4? && p.dst.V4?
    requires e.Some? ==> e.value.src.V4? && e.value.dst.V4?
  {
    if p.FragOffsetBytes() + |p.l4| > MAX_FRAG_BYTES_PER_STREAM then StreamResult(None, Rejected)
    else Settle(AddPart(if e.Some? then e.value else NewEntry(p, now), p))
  }

  // ── The table of streams ─────────────────────────────────────────────

  type FragMap = map<FragKey, FragEntry>

  predicate Oldest(frag: FragMap, k: FragKey) {
    k in frag && forall j :: j in frag ==> frag[k].arrivedMs <= frag[j].arrivedMs
  }

  function Lookup(frag: FragMap, k: FragKey): Option<FragEntry> {
    if k in frag then Some(frag[k]) else None
  }

  function Store(frag: FragMap, k: FragKey, e: Option<FragEntry>): FragMap {
    if e.Some? then frag[k := e.value] else frag - {k}
  }

  /** Room is made, when a new stream meets a full table, by dropping an oldest stream: `victim`. */
  function Evict(frag: FragMap, k: FragKey, victim: FragKey): FragMap {
    if k !in frag && |frag| >= MAX_FRAG_STREAMS then frag - {victim} else frag
  }

  /** What holds of a stored stream: byte accounting is exact and bounded, and it is incomplete. */
  predicate EntryOk(k: FragKey, e: FragEntry) {
    && e.src == k.src && e.dst == k.dst && e.proto == k.proto && e.src.V4? && e.dst.V4?
    && e.parts != [] && e.accumulated == SumLen(e.parts) <= MAX_FRAG_BYTES_PER_STREAM
    && (forall i :: 0 <= i < |e.parts| ==> e.parts[i].End() <= MAX_FRAG_BYTES_PER_STREAM)
    && -1 <= e.total <= MAX_FRAG_BYTES_PER_STREAM
    && (e.total >= 0 ==> e.accumulated < e.total)
  }

  predicate TableOk(frag: FragMap) {
    && |frag| <= MAX_FRAG_STREAMS
    && forall k :: k in frag ==> EntryOk(k, frag[k])
  }

  datatype TableResult = TableResult(frag: FragMap, outcome: Outcome)

  lemma {:induction false} SumLenAppend(parts: seq<FragPart>, x: FragPart)
    ensures SumLen(parts + [x]) == SumLen(parts) + |x.data|
  {
    if parts != [] {
      assert (parts + [x])[1..] == parts[1..] + [x];
      SumLenAppend(parts[1..], x);
    }
  }

  /** A stream that stays stored is again a well-formed one. */
  lemma StreamStepOk(k: FragKey, e: Option<FragEntry>, p: IpPacket, now: U32)
    requires KeyOf(p) == k && p.src.V4? && p.dst.V4? && (e.Some? ==> EntryOk(k, e.value))
    ensures var r := StreamStep(e, p, now); r.entry.Some? ==> EntryOk(k, r.entry.value)
  {
    var entry := if e.Some? then e.value else NewEntry(p, now);
    SumLenAppend(entry.parts, FragPart(p.FragOffsetBytes(), p.l4));
  }

  /** `handle_fragment`: the table stays within 64 well-formed streams. */
  function TableStep(frag: FragMap, p: IpPacket, now: U32, victim: FragKey): (r: TableResult)
    requires TableOk(frag)
    requires KeyOf(p) !in frag && |frag| >= MAX_FRAG_STREAMS ==> Oldest(frag, victim)
    ensures TableOk(r.frag)
  {
    if !p.src.V4? || !p.dst.V4? then TableResult(frag, Rejected)
    else
      var k := KeyOf(p);
      var kept := Evict(frag, k, victim);
      var r := StreamStep(Lookup(kept, k), p, now);
      StreamStepOk(k, Lookup(kept, k), p, now);
      EvictMakesRoom(frag, k, victim);
      StoreOk(kept, k, r.entry);
      TableResult(Store(kept, k, r.entry), r.outcome)
  }

  lemma EvictMakesRoom(frag: FragMap, k: FragKey, victim: FragKey)
    requires TableOk(frag) && (k !in frag && |frag| >= MAX_FRAG_STREAMS ==> victim in frag)
    ensures TableOk(Evict(frag, k, victim))
    ensures k !in Evict(frag, k, victim) ==> |Evict(frag, k, victim)| < MAX_FRAG_STREAMS
  {
    if k !in frag && |frag| >= MAX_FRAG_STREAMS {
      assert (frag - {victim}).Keys == frag.Keys - {victim};
    }
  }

  lemma StoreOk(frag: FragMap, k: FragKey, e: Option<FragEntry>)
    requires TableOk(frag) && (k !in frag ==> |frag| < MAX_FRAG_STREAMS) && (e.Some? ==> EntryOk(k, e.value))
    ensures TableOk(Store(frag, k, e))
  {
    if e.Some? {
      assert frag[k := e.value].Keys == frag.Keys + {k};
    } else {
      assert (frag - {k}).Keys == frag.Keys - {k};
    }
  }

  /** Drop what arrived too long ago, on a 32-bit clock that wraps. */
  function Sweep(frag: FragMap, now: U32): (r: FragMap)
    requires TableOk(frag)
    ensures TableOk(r) && r.Items <= frag.Items
    ensures forall k :: k in frag ==> (k in r <==> (now - frag[k].arrivedMs) % 0x1_0000_0000 <= 30_000)
  {
    var r := map k | k in frag && (now - frag[k].arrivedMs) % 0x1_0000_0000 <= FRAG_EXPIRY_MS :: frag[k];
    SubsetSize(r.Keys, frag.Keys);
    r
  }

  lemma SubsetSize<T>(a: set<T>, b: set<T>)
    requires a <= b
    ensures |a| <= |b|
  {
    assert b == a + (b - a);
  }

  // ── What completion delivers ─────────────────────────────────────────

  /** A complete stream delivers exactly the bytes its parts tile, never more and never reordered; it is
      dropped when the sorted parts leave a gap, overlap or overrun, and always when the total is
      65516 or more, for which the rebuilt header's 16-bit length falls below 20. */
  lemma CompleteSound(e: FragEntry)
    requires e.src.V4? && e.dst.V4? && 0 <= e.total <= MAX_FRAG_BYTES_PER_STREAM
    ensures var sorted := SortByOff(e.parts);
      Complete(e) ==
        if Tiles(sorted, 0, e.total) && e.total <= 65515
        then Route(IpPacket(e.proto, 64, 0, 0, false, e.src, e.dst, Join(sorted)))
        else Rejected
  {
    var sorted := SortByOff(e.parts);
    if Tiles(sorted, 0, e.total) {
      JoinLength(sorted, 0, e.total);
      if e.total <= 65515 { LongEnough(e, Join(sorted)); } else { ShortTotal(e, Join(sorted)); }
    }
  }

  lemma LongEnough(e: FragEntry, payload: seq<U8>)
    requires e.src.V4? && e.dst.V4? && |payload| <= 65515
    ensures Parse(Rebuilt(e, payload)) == Some(IpPacket(e.proto, 64, 0, 0, false, e.src, e.dst, payload))
  {
    RebuiltInFull(e, payload);
    ParseBuiltExact(e.proto, e.src.v4, e.dst.v4, 0, 0, payload);
  }

  lemma RebuiltInFull(e: FragEntry, payload: seq<U8>)
    requires e.src.V4? && e.dst.V4? && |payload| <= 65515
    ensures Rebuilt(e, payload) == Header(20 + |payload|, e.proto, e.src.v4, e.dst.v4, 0, 0) + payload
  {
    assert (20 + |payload|) % 0x1_0000 == 20 + |payload| && FragFlags(0, false) == 0;
  }

  lemma ShortTotal(e: FragEntry, payload: seq<U8>)
    requires e.src.V4? && e.dst.V4? && 65516 <= |payload| <= 65535
    ensures Parse(Rebuilt(e, payload)) == None
  {
    var t := (20 + |payload|) % 0x1_0000;
    assert t < 20;
    HeaderFields(t, e.proto, e.src.v4, e.dst.v4, 0, 0, 0xffff - Fold(HeaderSum(t, e.proto, e.src.v4, e.dst.v4, 0, 0)), payload);
    Be16OfWord(Rebuilt(e, payload), 2, t);
  }

  // ── Runs over every sequence of packets and sweeps ───────────────────

  datatype Event =
    | Fragment(pkt: IpPacket, now: U32, victim: FragKey)
    | Unfragmented(pkt: IpPacket)
    | Unparsable
    | Tick(now: U32)

  /** `process`: what the bytes of a packet amount to. */
  function EventOf(bytes: seq<U8>, now: U32, victim: FragKey): Event {
    match Parse(bytes)
    case None => Unparsable
    case Some(p) => if p.IsFragment() then Fragment(p, now, victim) else Unfragmented(p)
  }

  predicate EventOk(frag: FragMap, ev: Event) {
    ev.Fragment? && KeyOf(ev.pkt) !in frag && |frag| >= MAX_FRAG_STREAMS ==> Oldest(frag, ev.victim)
  }

  /** `process` after parsing, and the fragment part of `sweep_idle`. */
  function EventStep(frag: FragMap, ev: Event): (r: TableResult)
    requires TableOk(frag) && EventOk(frag, ev)
    ensures TableOk(r.frag)
  {
    match ev
    case Fragment(p, now, victim) => TableStep(frag, p, now, victim)
    case Unfragmented(p) => TableResult(frag, Route(p))
    case Unparsable => TableResult(frag, Rejected)
    case Tick(now) => TableResult(Sweep(frag, now), Passed)
  }

  predicate RunOk(frag: FragMap, evs: seq<Event>)
    requires TableOk(frag)
    decreases |evs|
  {
    evs != [] ==> EventOk(frag, evs[0]) && RunOk(EventStep(frag, evs[0]).frag, evs[1..])
  }

  datatype RunResult = RunResult(frag: FragMap, outcomes: seq<Outcome>)

  /** At most 64 streams and exact, bounded accounting after every run. */
  function Run(frag: FragMap, evs: seq<Event>): (r: RunResult)
    requires TableOk(frag) && RunOk(frag, evs)
    ensures TableOk(r.frag) && |r.outcomes| == |evs|
    decreases |evs|
  {
    if evs == [] then RunResult(frag, [])
    else
      var s := EventStep(frag, evs[0]);
      var r := Run(s.frag, evs[1..]);
      RunResult(r.frag, [s.outcome] + r.outcomes)
  }

  // ── A single stream inside a run ─────────────────────────────────────

  datatype Arrival = Arrival(pkt: IpPacket, now: U32)

  function StreamOf(ev: Event, k: FragKey): Option<Arrival> {
    if ev.Fragment? && KeyOf(ev.pkt) == k then Some(Arrival(ev.pkt, ev.now)) else None
  }

  /** The fragments of stream `k`, in order of arrival. */
  function Project(evs: seq<Event>, k: FragKey): seq<Arrival> {
    if evs == [] then []
    else (if StreamOf(evs[0], k).Some? then [StreamOf(evs[0], k).value] else []) + Project(evs[1..], k)
  }

  function OutcomesOf(evs: seq<Event>, outs: seq<Outcome>, k: FragKey): seq<Outcome>
    requires |outs| == |evs|
  {
    if evs == [] then []
    else (if StreamOf(evs[0], k).Some? then [outs[0]] else []) + OutcomesOf(evs[1..], outs[1..], k)
  }

  /** Stream `k` is neither evicted nor expired: only its own fragments remove it. */
  predicate Undisturbed(frag: FragMap, evs: seq<Event>, k: FragKey)
    requires TableOk(frag) && RunOk(frag, evs)
    decreases |evs|
  {
    evs != [] ==>
      var s := EventStep(frag, evs[0]).frag;
      (StreamOf(evs[0], k).None? && k in frag ==> k in s) && Undisturbed(s, evs[1..], k)
  }

  predicate StreamInv(k: FragKey, e: Option<FragEntry>) {
    k.src.V4? && k.dst.V4? && (e.Some? ==> EntryOk(k, e.value))
  }

  predicate ArrivalsOf(k: FragKey, arr: seq<Arrival>) {
    forall i :: 0 <= i < |arr| ==> KeyOf(arr[i].pkt) == k
  }

  datatype StreamRunResult = StreamRunResult(entry: Option<FragEntry>, outcomes: seq<Outcome>)

  /** The stream on its own. */
  function StreamRun(k: FragKey, e: Option<FragEntry>, arr: seq<Arrival>): StreamRunResult
    requires StreamInv(k, e) && ArrivalsOf(k, arr)
    decreases |arr|
  {
    if arr == [] then StreamRunResult(e, [])
    else
      var s := StreamStep(e, arr[0].pkt, arr[0].now);
      StreamStepOk(k, e, arr[0].pkt, arr[0].now);
      var r := StreamRun(k, s.entry, arr[1..]);
      StreamRunResult(r.entry, [s.outcome] + r.outcomes)
  }

  lemma {:induction false} ProjectArrivals(evs: seq<Event>, k: FragKey)
    ensures ArrivalsOf(k, Project(evs, k))
  {
    if evs != [] { ProjectArrivals(evs[1..], k); }
  }

  lemma StepOthers(frag: FragMap, ev: Event, k: FragKey)
    requires TableOk(frag) && EventOk(frag, ev) && StreamOf(ev, k).None?
    requires k in frag ==> k in EventStep(frag, ev).frag
    ensures Lookup(EventStep(frag, ev).frag, k) == Lookup(frag, k)
  {
    hide StreamStep, Route, EntryOk, Oldest;
  }

  lemma StepOwn(frag: FragMap, ev: Event, k: FragKey)
    requires TableOk(frag) && EventOk(frag, ev) && StreamOf(ev, k).Some? && k.src.V4? && k.dst.V4?
    ensures var s, a := EventStep(frag, ev), StreamOf(ev, k).value;
      StreamResult(Lookup(s.frag, k), s.outcome) == StreamStep(Lookup(frag, k), a.pkt, a.now)
  {
  }

  /** Whatever else is interleaved, a stream that is neither evicted nor expired behaves as if it were alone. */
  lemma {:induction false} StreamsAreIndependent(frag: FragMap, evs: seq<Event>, k: FragKey)
    requires TableOk(frag) && RunOk(frag, evs) && Undisturbed(frag, evs, k) && k.src.V4? && k.dst.V4?
    ensures ArrivalsOf(k, Project(evs, k))
    ensures var r, alone := Run(frag, evs), StreamRun(k, Lookup(frag, k), Project(evs, k));
      Lookup(r.frag, k) == alone.entry && OutcomesOf(evs, r.outcomes, k) == alone.outcomes
    decreases |evs|
  {
    ProjectArrivals(evs, k);
    if evs != [] {
      var s := EventStep(frag, evs[0]);
      StreamsAreIndependent(s.frag, evs[1..], k);
      var r := Run(s.frag, evs[1..]);
      assert Run(frag, evs).outcomes[1..] == r.outcomes;
      if StreamOf(evs[0], k).Some? {
        StepOwn(frag, evs[0], k);
        assert Project(evs, k)[1..] == Project(evs[1..], k);
      } else {
        StepOthers(frag, evs[0], k);
        assert Project(evs, k) == Project(evs[1..], k);
      }
    }
  }
}

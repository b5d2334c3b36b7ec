/** Fragmenting a datagram and reassembling it, over every arrival order. */
module RoundTrip {
  import opened Wrappers
  import opened Bytes
  import opened Packets
  import opened Reassembly
  import opened Fragmenting
  import opened Headers

  // ── Permutations ─────────────────────────────────────────────────────

  lemma {:induction false} SumLenConcat(a: seq<FragPart>, b: seq<FragPart>)
    ensures SumLen(a + b) == SumLen(a) + SumLen(b)
  {
    if a == [] {
      assert a + b == b;
    } else {
      assert (a + b)[1..] == a[1..] + b;
      SumLenConcat(a[1..], b);
    }
  }

  lemma MultisetTail<T>(s: seq<T>)
    requires s != []
    ensures multiset(s[1..]) == multiset(s) - multiset{s[0]}
  {
    assert s == [s[0]] + s[1..];
  }

  lemma MultisetRemove<T>(s: seq<T>, i: nat)
    requires i < |s|
    ensures multiset(s[..i] + s[i + 1..]) == multiset(s) - multiset{s[i]}
  {
    assert s == s[..i] + [s[i]] + s[i + 1..];
  }

  lemma SumLenRemove(s: seq<FragPart>, i: nat)
    requires i < |s|
    ensures SumLen(s[..i] + s[i + 1..]) == SumLen(s) - |s[i].data|
  {
    assert s == s[..i] + ([s[i]] + s[i + 1..]);
    SumLenConcat(s[..i], [s[i]] + s[i + 1..]);
    SumLenConcat([s[i]], s[i + 1..]);
    SumLenConcat(s[..i], s[i + 1..]);
  }

  lemma {:induction false} SumLenPermutation(a: seq<FragPart>, b: seq<FragPart>)
    requires multiset(a) == multiset(b)
    ensures SumLen(a) == SumLen(b)
    decreases |a|
  {
    if a == [] {
      assert |multiset(b)| == 0;
    } else {
      assert a[0] in multiset(b);
      var i :| 0 <= i < |b| && b[i] == a[0];
      MultisetTail(a);
      MultisetRemove(b, i);
      SumLenRemove(b, i);
      SumLenPermutation(a[1..], b[..i] + b[i + 1..]);
    }
  }

  /** A sorted list is determined by its elements when their offsets differ. */
  lemma {:induction false} SortedUnique(s: seq<FragPart>, t: seq<FragPart>)
    requires SortedByOff(s) && StrictlySorted(t) && multiset(s) == multiset(t)
    ensures s == t
    decreases |s|
  {
    assert |s| == |multiset(s)| == |multiset(t)| == |t|;
    if s != [] {
      SameHead(s, t);
      MultisetTail(s);
      MultisetTail(t);
      SortedUnique(s[1..], t[1..]);
      assert s == [s[0]] + s[1..] && t == [t[0]] + t[1..];
    }
  }

  lemma SameHead(s: seq<FragPart>, t: seq<FragPart>)
    requires s != [] && t != [] && SortedByOff(s) && StrictlySorted(t) && multiset(s) == multiset(t)
    ensures s[0] == t[0]
  {
    assert t[0] in multiset(s) && s[0] in multiset(t);
    var i :| 0 <= i < |s| && s[i] == t[0];
    var j :| 0 <= j < |t| && t[j] == s[0];
    if j != 0 { assert t[0].off < t[j].off; }
  }

  // ── One stream fed with a permutation of the pieces ──────────────────

  function HeldTimes(n: nat): seq<Outcome> { seq(n, _ => Held) }

  predicate HasEnd(arr: seq<FragPart>, total: nat) {
    exists i :: 0 <= i < |arr| && arr[i].End() == total
  }

  /** The stream after the pieces `got` have arrived, the first of them at `first`. */
  function EntryAfter(k: FragKey, got: seq<FragPart>, total: nat, first: U32): FragEntry {
    FragEntry(got, k.proto, k.src, k.dst, if HasEnd(got, total) then total else -1, SumLen(got), first)
  }

  predicate IsShuffle(arr: seq<FragPart>, udp: seq<U8>) {
    multiset(arr) == multiset(PartsFrom(udp, 0))
  }

  lemma ShuffleFacts(arr: seq<FragPart>, udp: seq<U8>)
    requires IsShuffle(arr, udp) && udp != []
    ensures |arr| == |PartsFrom(udp, 0)| > 0
    ensures forall i :: 0 <= i < |arr| ==> PieceOk(arr[i], udp)
    ensures SumLen(arr) == |udp| && HasEnd(arr, |udp|)
  {
    var parts := PartsFrom(udp, 0);
    PartsShape(udp, 0);
    assert |arr| == |multiset(arr)| == |multiset(parts)| == |parts|;
    forall i | 0 <= i < |arr| ensures PieceOk(arr[i], udp) {
      assert arr[i] in multiset(parts);
    }
    var last := parts[|parts| - 1];
    assert last in multiset(arr);
    var i :| 0 <= i < |arr| && arr[i] == last;
    SumLenPermutation(arr, parts);
    assert SumLen(parts) == |udp| by {
      PartsTile(udp, 0);
      JoinLength(parts, 0, |udp|);
    }
  }

  lemma PrefixSum(arr: seq<FragPart>, udp: seq<U8>, j: nat)
    requires IsShuffle(arr, udp) && j <= |arr| && udp != []
    ensures SumLen(arr[..j]) <= |udp| && (j < |arr| ==> SumLen(arr[..j]) < |udp|)
  {
    ShuffleFacts(arr, udp);
    assert arr == arr[..j] + arr[j..];
    SumLenConcat(arr[..j], arr[j..]);
    if j < |arr| { assert PieceOk(arr[j], udp); }
  }

  predicate Carries(k: FragKey, a: Arrival, part: FragPart, udp: seq<U8>) {
    k.src.V4? && k.dst.V4? && a.pkt == FragIp(k.src.v4, k.dst.v4, k.ipId, part, part.End() == |udp|)
  }

  predicate CarriesAll(k: FragKey, arrivals: seq<Arrival>, arr: seq<FragPart>, udp: seq<U8>) {
    |arrivals| == |arr| && forall i :: 0 <= i < |arr| ==> Carries(k, arrivals[i], arr[i], udp)
  }

  lemma AddPiece(k: FragKey, got: seq<FragPart>, part: FragPart, udp: seq<U8>, a: Arrival, first: U32)
    requires Carries(k, a, part, udp) && part.off % 8 == 0
    ensures AddPart(EntryAfter(k, got, |udp|, first), a.pkt) == EntryAfter(k, got + [part], |udp|, first)
  {
    SumLenAppend(got, part);
    assert HasEnd(got + [part], |udp|) <==> HasEnd(got, |udp|) || part.End() == |udp| by {
      if HasEnd(got, |udp|) {
        var i :| 0 <= i < |got| && got[i].End() == |udp|;
        assert (got + [part])[i].End() == |udp|;
      }
      if part.End() == |udp| { assert (got + [part])[|got|].End() == |udp|; }
    }
  }

  /** All pieces present: the stream completes to the whole datagram. */
  lemma CompletesToDatagram(k: FragKey, arr: seq<FragPart>, udp: seq<U8>, first: U32)
    requires IsShuffle(arr, udp) && k.src.V4? && k.dst.V4? && udp != [] && |udp| <= 65515
    ensures HasEnd(arr, |udp|)
    ensures Complete(EntryAfter(k, arr, |udp|, first)) == Route(IpPacket(k.proto, 64, 0, 0, false, k.src, k.dst, udp))
  {
    ShuffleFacts(arr, udp);
    PartsShape(udp, 0);
    PartsTile(udp, 0);
    SortedUnique(SortByOff(arr), PartsFrom(udp, 0));
    CompleteSound(EntryAfter(k, arr, |udp|, first));
  }

  /** The stream settles when `j` pieces have arrived: held, or complete. */
  lemma SettlePieces(k: FragKey, arr: seq<FragPart>, udp: seq<U8>, j: nat, first: U32)
    requires IsShuffle(arr, udp) && j <= |arr| && 0 < |udp| <= 65515 && k.src.V4? && k.dst.V4?
    ensures var e := EntryAfter(k, arr[..j], |udp|, first);
      Settle(e) ==
        if j < |arr| then StreamResult(Some(e), Held)
        else StreamResult(None, Route(IpPacket(k.proto, 64, 0, 0, false, k.src, k.dst, udp)))
  {
    ShuffleFacts(arr, udp);
    PrefixSum(arr, udp, j);
    if j == |arr| {
      assert arr[..j] == arr;
      CompletesToDatagram(k, arr, udp, first);
    }
  }

  /** What one more piece does to a stream that has `j` of them. */
  lemma FeedOne(k: FragKey, arr: seq<FragPart>, udp: seq<U8>, j: nat, a: Arrival, first: U32)
    requires IsShuffle(arr, udp) && j < |arr| && 0 < |udp| <= 65515 && Carries(k, a, arr[j], udp) && k.proto == UDP
    requires j == 0 ==> first == a.now
    ensures var e := if j == 0 then None else Some(EntryAfter(k, arr[..j], |udp|, first));
      StreamStep(e, a.pkt, a.now) ==
        if j + 1 < |arr| then StreamResult(Some(EntryAfter(k, arr[..j + 1], |udp|, first)), Held)
        else StreamResult(None, Route(IpPacket(UDP, 64, 0, 0, false, k.src, k.dst, udp)))
  {
    ShuffleFacts(arr, udp);
    assert PieceOk(arr[j], udp);
    assert arr[..j] + [arr[j]] == arr[..j + 1];
    AddPiece(k, arr[..j], arr[j], udp, a, first);
    if j == 0 { assert NewEntry(a.pkt, a.now) == EntryAfter(k, arr[..0], |udp|, first); }
    SettlePieces(k, arr, udp, j + 1, first);
  }

  /** From any point on, the remaining pieces are held until the last one, which delivers. */
  lemma {:induction false} FeedRest(k: FragKey, arr: seq<FragPart>, udp: seq<U8>, arrivals: seq<Arrival>, j: nat, first: U32)
    requires IsShuffle(arr, udp) && j < |arr| && 0 < |udp| <= 65515 && CarriesAll(k, arrivals, arr, udp) && k.proto == UDP
    requires j == 0 ==> first == arrivals[0].now
    requires var e := if j == 0 then None else Some(EntryAfter(k, arr[..j], |udp|, first));
      StreamInv(k, e) && ArrivalsOf(k, arrivals[j..])
    ensures var e := if j == 0 then None else Some(EntryAfter(k, arr[..j], |udp|, first));
      StreamRun(k, e, arrivals[j..])
      == StreamRunResult(None, HeldTimes(|arr| - 1 - j) + [Route(IpPacket(UDP, 64, 0, 0, false, k.src, k.dst, udp))])
    decreases |arr| - j
  {
    hide StreamStep, EntryAfter, IsShuffle, Carries, Route;
    var e := if j == 0 then None else Some(EntryAfter(k, arr[..j], |udp|, first));
    var a := arrivals[j];
    FeedOne(k, arr, udp, j, a, first);
    StreamStepOk(k, e, a.pkt, a.now);
    StreamRunCons(k, e, arrivals[j..]);
    assert arrivals[j..][0] == a && arrivals[j..][1..] == arrivals[j + 1..];
    if j + 1 < |arr| {
      FeedRest(k, arr, udp, arrivals, j + 1, first);
      assert [Held] + HeldTimes(|arr| - 2 - j) == HeldTimes(|arr| - 1 - j);
    } else {
      assert arrivals[j + 1..] == [] && HeldTimes(0) == [];
    }
  }

  lemma StreamRunCons(k: FragKey, e: Option<FragEntry>, arr: seq<Arrival>)
    requires StreamInv(k, e) && ArrivalsOf(k, arr) && arr != []
    ensures var s := StreamStep(e, arr[0].pkt, arr[0].now);
      && StreamInv(k, s.entry)
      && StreamRun(k, e, arr).entry == StreamRun(k, s.entry, arr[1..]).entry
      && StreamRun(k, e, arr).outcomes == [s.outcome] + StreamRun(k, s.entry, arr[1..]).outcomes
  {
    StreamStepOk(k, e, arr[0].pkt, arr[0].now);
  }

  // ── Main result ──────────────────────────────────────────────────────

  /** For every datagram that is fragmented and every run in which its fragments arrive once each in any
      order, interleaved with any other traffic, without eviction or expiry of its stream: each
      fragment but the last to arrive is held, and that one delivers the payload that was sent. */
  lemma FragmentsReassemble(b: UdpBuild, ipId: U16, frag: FragMap, evs: seq<Event>, arr: seq<FragPart>)
    requires b.Ok() && 28 + |b.payload| > MAX_IP_PKT
    requires TableOk(frag) && RunOk(frag, evs)
    requires var k := FragKey(b.src, b.dst, UDP, ipId);
      && k !in frag && Undisturbed(frag, evs, k)
      && IsShuffle(arr, Datagram(b)) && CarriesAll(k, Project(evs, k), arr, Datagram(b))
    ensures var k, r := FragKey(b.src, b.dst, UDP, ipId), Run(frag, evs);
      && k !in r.frag
      && |arr| > 0 && OutcomesOf(evs, r.outcomes, k)
         == HeldTimes(|arr| - 1) + [Delivered(UdpData(b.src, b.dst, b.srcPort, b.dstPort, b.payload))]
  {
    var k, udp := FragKey(b.src, b.dst, UDP, ipId), Datagram(b);
    var arrivals := Project(evs, k);
    ShuffleFacts(arr, udp);
    StreamsAreIndependent(frag, evs, k);
    assert arrivals[0..] == arrivals;
    FeedRest(k, arr, udp, arrivals, 0, arrivals[0].now);
    RouteDatagram(b);
  }

  lemma RouteDatagram(b: UdpBuild)
    requires b.Ok()
    ensures Route(IpPacket(UDP, 64, 0, 0, false, b.src, b.dst, Datagram(b)))
      == Delivered(UdpData(b.src, b.dst, b.srcPort, b.dstPort, b.payload))
  {
    var udp := Datagram(b);
    assert udp[..8][..2] == Word(b.srcPort) && udp[2..4] == Word(b.dstPort) && udp[8..] == b.payload;
    assert udp[0] == Word(b.srcPort)[0] && udp[1] == Word(b.srcPort)[1];
  }

  // ── The same from the emitted bytes ──────────────────────────────────

  function PartOf(pkt: seq<U8>): FragPart {
    match Parse(pkt)
    case Some(p) => FragPart(p.FragOffsetBytes(), p.l4)
    case None => FragPart(0, [])
  }

  function Image(f: seq<U8> -> FragPart, s: seq<seq<U8>>): (r: seq<FragPart>)
    ensures |r| == |s| && forall i :: 0 <= i < |s| ==> r[i] == f(s[i])
  {
    seq(|s|, i requires 0 <= i < |s| => f(s[i]))
  }

  function PartsOf(pkts: seq<seq<U8>>): (parts: seq<FragPart>)
    ensures |parts| == |pkts|
  {
    Image(PartOf, pkts)
  }

  lemma ImageRemove(f: seq<U8> -> FragPart, s: seq<seq<U8>>, i: nat, s': seq<seq<U8>>)
    requires i < |s| && s' == s[..i] + s[i + 1..]
    ensures multiset(s) == multiset(s') + multiset{s[i]}
    ensures multiset(Image(f, s)) == multiset(Image(f, s')) + multiset{f(s[i])}
  {
    var t, r := Image(f, s), Image(f, s');
    assert s == s[..i] + [s[i]] + s[i + 1..];
    assert r == t[..i] + t[i + 1..];
    assert t == t[..i] + [t[i]] + t[i + 1..];
  }

  lemma {:induction false} ImagePermutation(f: seq<U8> -> FragPart, a: seq<seq<U8>>, b: seq<seq<U8>>)
    requires multiset(a) == multiset(b)
    ensures multiset(Image(f, a)) == multiset(Image(f, b))
    decreases |a|
  {
    if a == [] {
      assert |multiset(b)| == 0;
    } else {
      var i, b' := Without(b, a[0]);
      var a' := a[1..];
      assert a' == a[..0] + a[0 + 1..];
      ImageRemove(f, a, 0, a');
      ImageRemove(f, b, i, b');
      Cancel(multiset(a'), multiset(b'), a[0]);
      ImagePermutation(f, a', b');
    }
  }

  lemma Without(b: seq<seq<U8>>, x: seq<U8>) returns (i: nat, b': seq<seq<U8>>)
    requires x in multiset(b)
    ensures i < |b| && b[i] == x && b' == b[..i] + b[i + 1..]
  {
    i :| 0 <= i < |b| && b[i] == x;
    b' := b[..i] + b[i + 1..];
  }

  lemma Cancel(p: multiset<seq<U8>>, q: multiset<seq<U8>>, x: seq<U8>)
    requires p + multiset{x} == q + multiset{x}
    ensures p == q
  {
    assert p == (p + multiset{x}) - multiset{x};
    assert q == (q + multiset{x}) - multiset{x};
  }

  lemma EmissionParts(b: UdpBuild, ipId: U16)
    requires b.Ok() && 28 + |b.payload| > MAX_IP_PKT
    ensures PartsOf(Emission(b, ipId)) == PartsFrom(Datagram(b), 0)
    ensures forall pkt :: pkt in Emission(b, ipId) ==>
      |pkt| <= MAX_IP_PKT && IsFragmentOf(pkt, b.src.v4, b.dst.v4, ipId, PartOf(pkt), Datagram(b))
  {
    FragmentsParse(b.src.v4, b.dst.v4, ipId, Datagram(b), 0);
    PartsShape(Datagram(b), 0);
    var pkts, parts := Emission(b, ipId), PartsFrom(Datagram(b), 0);
    forall i | 0 <= i < |pkts| ensures PartOf(pkts[i]) == parts[i] {
      assert IsFragmentOf(pkts[i], b.src.v4, b.dst.v4, ipId, parts[i], Datagram(b));
      assert PieceOk(parts[i], Datagram(b));
    }
  }

  /** The bytes `build_and_emit` emits for a large reply are packets of at most 1000 bytes which, handed to
      the dispatcher once each in any order and amid any other traffic, deliver the reply. */
  lemma EmissionReassembles(b: UdpBuild, ipId: U16, pkts: seq<seq<U8>>, frag: FragMap, evs: seq<Event>)
    requires b.Ok() && 28 + |b.payload| > MAX_IP_PKT && multiset(pkts) == multiset(Emission(b, ipId))
    requires TableOk(frag) && RunOk(frag, evs)
    requires var k := FragKey(b.src, b.dst, UDP, ipId);
      && k !in frag && Undisturbed(frag, evs, k)
      && |Project(evs, k)| == |pkts|
      && forall i :: 0 <= i < |pkts| ==> Parse(pkts[i]) == Some(Project(evs, k)[i].pkt)
    ensures forall i :: 0 <= i < |pkts| ==> |pkts[i]| <= MAX_IP_PKT
    ensures var k, r := FragKey(b.src, b.dst, UDP, ipId), Run(frag, evs);
      && k !in r.frag
      && |pkts| > 0 && OutcomesOf(evs, r.outcomes, k)
         == HeldTimes(|pkts| - 1) + [Delivered(UdpData(b.src, b.dst, b.srcPort, b.dstPort, b.payload))]
  {
    var k := FragKey(b.src, b.dst, UDP, ipId);
    EmissionParts(b, ipId);
    ImagePermutation(PartOf, pkts, Emission(b, ipId));
    ShuffledCarry(b, ipId, pkts, Project(evs, k));
    FragmentsReassemble(b, ipId, frag, evs, PartsOf(pkts));
  }

  lemma ShuffledCarry(b: UdpBuild, ipId: U16, pkts: seq<seq<U8>>, arrivals: seq<Arrival>)
    requires b.Ok() && 28 + |b.payload| > MAX_IP_PKT && multiset(pkts) == multiset(Emission(b, ipId))
    requires |arrivals| == |pkts| && forall i :: 0 <= i < |pkts| ==> Parse(pkts[i]) == Some(arrivals[i].pkt)
    ensures forall i :: 0 <= i < |pkts| ==> |pkts[i]| <= MAX_IP_PKT
    ensures CarriesAll(FragKey(b.src, b.dst, UDP, ipId), arrivals, PartsOf(pkts), Datagram(b))
  {
    EmissionParts(b, ipId);
    forall i | 0 <= i < |pkts|
      ensures |pkts[i]| <= MAX_IP_PKT
      ensures Carries(FragKey(b.src, b.dst, UDP, ipId), arrivals[i], PartOf(pkts[i]), Datagram(b))
    {
      assert pkts[i] in multiset(pkts);
      assert pkts[i] in Emission(b, ipId);
    }
  }

  // ── A dispatcher that receives nothing else ──────────────────────────

  predicate AllOf(evs: seq<Event>, k: FragKey) {
    forall i :: 0 <= i < |evs| ==> evs[i].Fragment? && KeyOf(evs[i].pkt) == k
  }

  lemma OnlyStreamStep(frag: FragMap, ev: Event, k: FragKey)
    requires TableOk(frag) && frag.Keys <= {k} && ev.Fragment? && KeyOf(ev.pkt) == k
    ensures EventOk(frag, ev) && EventStep(frag, ev).frag.Keys <= {k}
  {
    SubsetSize(frag.Keys, {k});
    assert |frag| == |frag.Keys| <= 1;
  }

  lemma {:induction false} OnlyStream(frag: FragMap, evs: seq<Event>, k: FragKey)
    requires TableOk(frag) && frag.Keys <= {k} && AllOf(evs, k)
    ensures RunOk(frag, evs) && Undisturbed(frag, evs, k)
    ensures |Project(evs, k)| == |evs| && forall i :: 0 <= i < |evs| ==> Project(evs, k)[i].pkt == evs[i].pkt
    ensures OutcomesOf(evs, Run(frag, evs).outcomes, k) == Run(frag, evs).outcomes
    decreases |evs|
  {
    hide EventStep, EventOk, TableOk;
    if evs != [] {
      OnlyStreamStep(frag, evs[0], k);
      OnlyStream(EventStep(frag, evs[0]).frag, evs[1..], k);
      assert Run(frag, evs).outcomes[1..] == Run(EventStep(frag, evs[0]).frag, evs[1..]).outcomes;
    }
  }

  /** The packets as a dispatcher sees them at time `now`. */
  function Feed(pkts: seq<seq<U8>>, now: U32, k: FragKey): (evs: seq<Event>)
    ensures |evs| == |pkts| && forall i :: 0 <= i < |evs| ==> evs[i] == EventOf(pkts[i], now, k)
  {
    seq(|pkts|, i requires 0 <= i < |pkts| => EventOf(pkts[i], now, k))
  }

  lemma ParsedIsShorter(pkt: seq<U8>)
    requires Parse(pkt).Some?
    ensures |Parse(pkt).value.l4| + 20 <= |pkt|
  {
  }

  /** A datagram that does not fit one packet is never emitted as one. */
  lemma NeverWhole(pkt: seq<U8>, src: V4Addr, dst: V4Addr, ipId: U16, udp: seq<U8>)
    requires IsFragmentOf(pkt, src, dst, ipId, PartOf(pkt), udp) && |udp| > MAX_IP_PKT - 20
    ensures Parse(pkt).value.IsFragment() && KeyOf(Parse(pkt).value) == FragKey(V4(src), V4(dst), UDP, ipId)
  {
    ParsedIsShorter(pkt);
  }

  lemma FedFragments(b: UdpBuild, ipId: U16, pkts: seq<seq<U8>>, now: U32, k: FragKey)
    requires b.Ok() && 28 + |b.payload| > MAX_IP_PKT && multiset(pkts) == multiset(Emission(b, ipId))
    requires k == FragKey(b.src, b.dst, UDP, ipId)
    ensures AllOf(Feed(pkts, now, k), k)
    ensures forall i :: 0 <= i < |pkts| ==> Parse(pkts[i]) == Some(Feed(pkts, now, k)[i].pkt)
  {
    hide Parse, Emission, FragIp;
    EmissionParts(b, ipId);
    forall i | 0 <= i < |pkts|
      ensures Feed(pkts, now, k)[i].Fragment? && KeyOf(Feed(pkts, now, k)[i].pkt) == k
      ensures Parse(pkts[i]) == Some(Feed(pkts, now, k)[i].pkt)
    {
      assert pkts[i] in multiset(pkts);
      assert pkts[i] in Emission(b, ipId);
      NeverWhole(pkts[i], b.src.v4, b.dst.v4, ipId, Datagram(b));
    }
  }

  /** An empty dispatcher that is fed the emitted packets in any order holds each until the last, which delivers
      the reply, and is then empty again. */
  lemma EmptyDispatcherReassembles(b: UdpBuild, ipId: U16, pkts: seq<seq<U8>>, now: U32)
    requires b.Ok() && 28 + |b.payload| > MAX_IP_PKT && multiset(pkts) == multiset(Emission(b, ipId))
    ensures var evs := Feed(pkts, now, FragKey(b.src, b.dst, UDP, ipId));
      && TableOk(map[]) && RunOk(map[], evs) && |pkts| > 0
      && Run(map[], evs).outcomes
         == HeldTimes(|pkts| - 1) + [Delivered(UdpData(b.src, b.dst, b.srcPort, b.dstPort, b.payload))]
      && FragKey(b.src, b.dst, UDP, ipId) !in Run(map[], evs).frag
  {
    var k := FragKey(b.src, b.dst, UDP, ipId);
    var evs := Feed(pkts, now, k);
    FedFragments(b, ipId, pkts, now, k);
    OnlyStream(map[], evs, k);
    EmissionReassembles(b, ipId, pkts, map[], evs);
  }

  // ── Small replies, and none ──────────────────────────────────────────

  /** What `build_and_emit` emits, by case: one packet of at most 1000 bytes, which the dispatcher delivers as it is;
      fragments; or nothing, exactly if an address is not IPv4 or the reply exceeds 65507 bytes. */
  lemma EmissionByCase(b: UdpBuild, ipId: U16)
    ensures Emission(b, ipId) == [] <==> !b.src.V4? || !b.dst.V4? || |b.payload| > 65507
    ensures b.src.V4? && b.dst.V4? && |b.payload| <= 972 ==>
      && |Emission(b, ipId)| == 1
      && var r := Parse(Emission(b, ipId)[0]);
         r.Some? && !r.value.IsFragment()
         && Route(r.value) == Delivered(UdpData(b.src, b.dst, b.srcPort, b.dstPort, b.payload))
    ensures b.src.V4? && b.dst.V4? && 972 < |b.payload| <= 65507 ==> |Emission(b, ipId)| >= 2
  {
    hide Parse, Route, UdpPacket, FragPacket;
    if b.src.V4? && b.dst.V4? && |b.payload| <= 972 {
      var q := UdpRoundTrip(b);
    } else if b.Ok() {
      TwoOrMore(b.src.v4, b.dst.v4, ipId, Datagram(b));
    }
  }

  lemma TwoOrMore(src: V4Addr, dst: V4Addr, ipId: U16, udp: seq<U8>)
    requires 980 < |udp| <= 65515
    ensures |FragPacketsFrom(src, dst, ipId, udp, 0)| >= 2
  {
    hide FragPacket;
    var n := PieceAt(udp, 0).End();
    assert n < |udp|;
    var rest := FragPacketsFrom(src, dst, ipId, udp, n);
    assert |rest| >= 1;
  }
}

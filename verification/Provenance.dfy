/** The reassembler by history: what it stores and delivers, in terms of the fragments that arrived. */
module Provenance {
  import opened Wrappers
  import opened Bytes
  import opened Packets
  import opened Reassembly

  predicate OfStream(ev: Event, k: FragKey) { ev.Fragment? && KeyOf(ev.pkt) == k }

  function PartOfEvent(ev: Event): FragPart
    requires ev.Fragment?
  {
    FragPart(ev.pkt.FragOffsetBytes(), ev.pkt.l4)
  }

  /** All parts of stream `k` that arrived at or after event `start`, in order of arrival. */
  function PartsSince(evs: seq<Event>, start: nat, k: FragKey): seq<FragPart> {
    if |evs| <= start then []
    else
      var front, ev := evs[..|evs| - 1], evs[|evs| - 1];
      PartsSince(front, start, k) + if OfStream(ev, k) then [PartOfEvent(ev)] else []
  }

  /** The end of the latest of them that is a last fragment, or -1. */
  function TotalSince(evs: seq<Event>, start: nat, k: FragKey): int {
    if |evs| <= start then -1
    else
      var front, ev := evs[..|evs| - 1], evs[|evs| - 1];
      if OfStream(ev, k) && !ev.pkt.moreFrags then PartOfEvent(ev).End() else TotalSince(front, start, k)
  }

  /** Entry `e` is what arrived of its stream since event `start`, when it was opened. */
  predicate IsHistory(evs: seq<Event>, e: FragEntry, k: FragKey, start: nat) {
    && start < |evs| && OfStream(evs[start], k) && e.arrivedMs == evs[start].now
    && e.parts == PartsSince(evs, start, k) && e.total == TotalSince(evs, start, k)
  }

  ghost predicate FromHistory(evs: seq<Event>, e: FragEntry, k: FragKey) { exists start: nat :: IsHistory(evs, e, k, start) }

  ghost predicate Traced(evs: seq<Event>, frag: FragMap) {
    forall k :: k in frag ==> FromHistory(evs, frag[k], k)
  }

  lemma Unfolded(evs: seq<Event>, ev: Event, start: nat, k: FragKey)
    requires start <= |evs|
    ensures PartsSince(evs + [ev], start, k) == PartsSince(evs, start, k) + if OfStream(ev, k) then [PartOfEvent(ev)] else []
    ensures TotalSince(evs + [ev], start, k)
      == if OfStream(ev, k) && !ev.pkt.moreFrags then PartOfEvent(ev).End() else TotalSince(evs, start, k)
  {
    assert (evs + [ev])[..|evs|] == evs;
  }

  lemma OtherEvent(evs: seq<Event>, ev: Event, e: FragEntry, k: FragKey, start: nat)
    requires IsHistory(evs, e, k, start) && !OfStream(ev, k)
    ensures IsHistory(evs + [ev], e, k, start)
  {
    Unfolded(evs, ev, start, k);
  }

  /** The stream of `ev`, opened before or by it, when its part has been added. */
  lemma OwnEvent(evs: seq<Event>, ev: Event, kept: Option<FragEntry>) returns (start: nat)
    requires ev.Fragment? && (kept.Some? ==> FromHistory(evs, kept.value, KeyOf(ev.pkt)))
    ensures IsHistory(evs + [ev], AddPart(if kept.Some? then kept.value else NewEntry(ev.pkt, ev.now), ev.pkt), KeyOf(ev.pkt), start)
  {
    var k := KeyOf(ev.pkt);
    if kept.Some? {
      start :| IsHistory(evs, kept.value, k, start);
    } else {
      start := |evs|;
      assert PartsSince(evs, start, k) == [] && TotalSince(evs, start, k) == -1;
    }
    Unfolded(evs, ev, start, k);
  }

  // ── One event ────────────────────────────────────────────────────────

  /** The entry to which a fragment's part is added, and what it then is. */
  function Added(frag: FragMap, ev: Event): FragEntry
    requires ev.Fragment?
  {
    var kept := Lookup(frag, KeyOf(ev.pkt));
    AddPart(if kept.Some? then kept.value else NewEntry(ev.pkt, ev.now), ev.pkt)
  }

  lemma EvictKeepsOwn(frag: FragMap, k: FragKey, victim: FragKey)
    ensures Lookup(Evict(frag, k, victim), k) == Lookup(frag, k)
  {
  }

  /** A fragment's outcome and what is then stored of its stream. */
  lemma OwnStep(frag: FragMap, ev: Event)
    requires TableOk(frag) && EventOk(frag, ev) && ev.Fragment? && ev.pkt.src.V4? && ev.pkt.dst.V4?
    ensures var r, k, e := EventStep(frag, ev), KeyOf(ev.pkt), Added(frag, ev);
      && e.src == ev.pkt.src && e.dst == ev.pkt.dst && e.proto == ev.pkt.proto
      && e.accumulated == SumLen(e.parts) && -1 <= e.total
      && (k in r.frag <==> r.outcome == Held) && (k in r.frag ==> r.frag[k] == e)
      && r.outcome == (if ev.pkt.FragOffsetBytes() + |ev.pkt.l4| > 65535 || e.accumulated > 65535 then Rejected
                       else if e.total < 0 || e.accumulated < e.total then Held
                       else Complete(e))
  {
    hide Complete, Parse;
    var k := KeyOf(ev.pkt);
    EvictKeepsOwn(frag, k, ev.victim);
    CompleteIsNotHeld(Added(frag, ev));
    var kept := Lookup(frag, k);
    SumLenAppend(if kept.Some? then kept.value.parts else [], FragPart(ev.pkt.FragOffsetBytes(), ev.pkt.l4));
  }

  lemma CompleteIsNotHeld(e: FragEntry)
    ensures e.src.V4? && e.dst.V4? && e.total >= 0 ==> Complete(e) != Held
  {
    hide Parse, Tiles, SortByOff, Join;
  }

  /** Why a stream leaves the table: its own fragment completed or spoiled it; the table was full, another stream began,
      and it was an oldest one; or it was swept more than 30 seconds after it began. */
  lemma RemovedBecause(frag: FragMap, ev: Event, k: FragKey)
    requires TableOk(frag) && EventOk(frag, ev) && k in frag && k !in EventStep(frag, ev).frag
    ensures
      || (OfStream(ev, k) && EventStep(frag, ev).outcome != Held)
      || (ev.Fragment? && KeyOf(ev.pkt) !in frag && |frag| == 64 && Oldest(frag, k))
      || (ev.Tick? && (ev.now - frag[k].arrivedMs) % 0x1_0000_0000 > 30_000)
  {
    hide EventStep, TableOk, EventOk;
    if ev.Fragment? && ev.pkt.src.V4? && ev.pkt.dst.V4? {
      if OfStream(ev, k) { OwnStep(frag, ev); } else { EvictedBecause(frag, ev, k); }
    } else {
      SweptBecause(frag, ev, k);
    }
  }

  lemma EvictedBecause(frag: FragMap, ev: Event, k: FragKey)
    requires TableOk(frag) && EventOk(frag, ev) && ev.Fragment? && ev.pkt.src.V4? && ev.pkt.dst.V4?
    requires !OfStream(ev, k) && k in frag && k !in EventStep(frag, ev).frag
    ensures KeyOf(ev.pkt) !in frag && |frag| == 64 && Oldest(frag, k)
  {
    hide StreamStep, Route, EntryOk, Oldest;
  }

  lemma SweptBecause(frag: FragMap, ev: Event, k: FragKey)
    requires TableOk(frag) && EventOk(frag, ev) && !(ev.Fragment? && ev.pkt.src.V4? && ev.pkt.dst.V4?)
    requires k in frag && k !in EventStep(frag, ev).frag
    ensures ev.Tick? && (ev.now - frag[k].arrivedMs) % 0x1_0000_0000 > 30_000
  {
    hide StreamStep, Route, EntryOk, Oldest, Sweep;
  }

  lemma OthersKept(frag: FragMap, ev: Event, k: FragKey)
    requires TableOk(frag) && EventOk(frag, ev) && k in EventStep(frag, ev).frag && !OfStream(ev, k)
    ensures k in frag && EventStep(frag, ev).frag[k] == frag[k]
  {
    hide StreamStep, Route, EntryOk, Oldest, Sweep;
    if ev.Tick? { SweepKeeps(frag, ev.now, k); }
  }

  lemma SweepKeeps(frag: FragMap, now: U32, k: FragKey)
    requires TableOk(frag) && k in Sweep(frag, now)
    ensures k in frag && Sweep(frag, now)[k] == frag[k]
  {
    hide Sweep, EntryOk;
    var r := Sweep(frag, now);
    assert (k, r[k]) in r.Items;
  }

  lemma OnlyV4(frag: FragMap, ev: Event, k: FragKey)
    requires TableOk(frag) && EventOk(frag, ev) && k in EventStep(frag, ev).frag
    ensures k.src.V4? && k.dst.V4?
  {
    hide StreamStep, Route, Oldest;
    assert EntryOk(k, EventStep(frag, ev).frag[k]);
  }

  lemma StepTraced(evs: seq<Event>, frag: FragMap, ev: Event)
    requires TableOk(frag) && EventOk(frag, ev) && Traced(evs, frag)
    ensures Traced(evs + [ev], EventStep(frag, ev).frag)
  {
    hide EventStep, TableOk, EventOk, IsHistory;
    var after := EventStep(frag, ev).frag;
    forall k | k in after ensures FromHistory(evs + [ev], after[k], k) {
      OnlyV4(frag, ev, k);
      if OfStream(ev, k) {
        OwnStep(frag, ev);
        var start := OwnEvent(evs, ev, Lookup(frag, k));
      } else {
        OthersKept(frag, ev, k);
        var start: nat :| IsHistory(evs, frag[k], k, start);
        OtherEvent(evs, ev, frag[k], k, start);
      }
    }
  }

  // ── Outcomes ─────────────────────────────────────────────────────────

  /** What the arrival of the last event must come to, given that its stream was opened by event `start`: rejected
      beyond 65535 bytes; held while its last fragment or some byte is missing; and then delivered exactly if the
      parts, sorted by offset, tile the total and that is at most 65515 bytes. */
  function OutcomeSince(evs: seq<Event>, start: nat): Outcome
    requires evs != [] && evs[|evs| - 1].Fragment?
  {
    var p := evs[|evs| - 1].pkt;
    var k := KeyOf(p);
    var parts, total := PartsSince(evs, start, k), TotalSince(evs, start, k);
    var sorted := SortByOff(parts);
    if p.FragOffsetBytes() + |p.l4| > 65535 || SumLen(parts) > 65535 then Rejected
    else if total < 0 || SumLen(parts) < total then Held
    else if Tiles(sorted, 0, total) && total <= 65515 then
      Route(IpPacket(p.proto, 64, 0, 0, false, p.src, p.dst, Join(sorted)))
    else Rejected
  }

  predicate OpenedAt(evs: seq<Event>, start: nat) {
    evs != [] && evs[|evs| - 1].Fragment? && start < |evs| && OfStream(evs[start], KeyOf(evs[|evs| - 1].pkt))
  }

  lemma OutcomeByHistory(evs: seq<Event>, frag: FragMap, ev: Event) returns (start: nat)
    requires TableOk(frag) && EventOk(frag, ev) && Traced(evs, frag)
    requires ev.Fragment? && ev.pkt.src.V4? && ev.pkt.dst.V4?
    ensures OpenedAt(evs + [ev], start) && EventStep(frag, ev).outcome == OutcomeSince(evs + [ev], start)
  {
    hide EventStep, TableOk, EventOk, Complete, Tiles, SortByOff, Join, Route, PartsSince, TotalSince;
    OwnStep(frag, ev);
    start := OwnEvent(evs, ev, Lookup(frag, KeyOf(ev.pkt)));
    var e := Added(frag, ev);
    var whole := evs + [ev];
    assert whole[|whole| - 1] == ev;
    if 0 <= e.total <= 65535 { CompleteSound(e); }
  }

  ghost predicate ByHistory(evs: seq<Event>, o: Outcome) {
    exists start: nat :: OpenedAt(evs, start) && o == OutcomeSince(evs, start)
  }

  lemma {:induction false} RunByHistory(hist: seq<Event>, frag: FragMap, evs: seq<Event>, i: nat)
    requires TableOk(frag) && RunOk(frag, evs) && Traced(hist, frag)
    requires i < |evs| && evs[i].Fragment? && evs[i].pkt.src.V4? && evs[i].pkt.dst.V4?
    ensures ByHistory(hist + evs[..i + 1], Run(frag, evs).outcomes[i])
    decreases |evs|
  {
    hide EventStep, EventOk, TableOk, Traced, OutcomeSince, OpenedAt;
    var s := EventStep(frag, evs[0]);
    assert Run(frag, evs).outcomes == [s.outcome] + Run(s.frag, evs[1..]).outcomes;
    if i == 0 {
      var start := OutcomeByHistory(hist, frag, evs[0]);
      assert evs[..1] == [evs[0]];
    } else {
      StepTraced(hist, frag, evs[0]);
      RunByHistory(hist + [evs[0]], s.frag, evs[1..], i - 1);
      assert hist + evs[..i + 1] == hist + [evs[0]] + evs[1..][..i];
    }
  }

  /** Over every sequence of packets and sweeps, from the empty table: the outcome of every IPv4 fragment is determined
      by the fragments of its stream since the one that opened it, itself the last. In particular, whatever is
      delivered is tiled exactly by them, each used once. */
  lemma OutcomesByHistory(frag: FragMap, evs: seq<Event>, i: nat)
    requires frag == map[] && TableOk(frag) && RunOk(frag, evs)
    requires i < |evs| && evs[i].Fragment? && evs[i].pkt.src.V4? && evs[i].pkt.dst.V4?
    ensures ByHistory(evs[..i + 1], Run(frag, evs).outcomes[i])
  {
    hide ByHistory, Run, RunOk, TableOk;
    assert [] + evs[..i + 1] == evs[..i + 1];
    assert Traced([], frag);
    RunByHistory([], frag, evs, i);
  }
}

/** The dispatcher object: the fragment table updated in place, packet by packet. */
module NatDispatcher {
  import opened Wrappers
  import opened Bytes
  import opened Packets
  import opened Reassembly

  lemma {:induction false} JoinAppend(parts: seq<FragPart>, x: FragPart)
    ensures Join(parts + [x]) == Join(parts) + x.data
  {
    if parts != [] {
      assert (parts + [x])[1..] == parts[1..] + [x];
      JoinAppend(parts[1..], x);
    }
  }

  /** Copy the sorted parts into a buffer of the declared total length. No write leaves the buffer. */
  method CopyParts(parts: seq<FragPart>, total: nat) returns (ok: bool, payload: array<U8>)
    ensures ok <==> Tiles(parts, 0, total)
    ensures ok ==> payload[..] == Join(parts)
  {
    payload := new U8[total](_ => 0);
    var expected := 0;
    var i := 0;
    while i < |parts|
      invariant 0 <= i <= |parts| && expected <= total && payload.Length == total
      invariant Tiles(parts, 0, total) <==> Tiles(parts[i..], expected, total)
      invariant payload[..expected] == Join(parts[..i])
    {
      var p := parts[i];
      if p.off != expected { return false, payload; }
      var end := p.off + |p.data|;
      if end > total { return false, payload; }
      JoinAppend(parts[..i], p);
      assert parts[..i] + [p] == parts[..i + 1];
      ghost var was := payload[..];
      WriteAt(payload, p.off, p.data);
      assert payload[..end] == was[..expected] + p.data;
      expected := end;
      i := i + 1;
    }
    assert parts[..i] == parts;
    ok := expected == total;
  }

  /** The reassembled packet under a fresh header, whose length field is 16 bits wide. */
  method RebuildPacket(e: FragEntry, payload: seq<U8>) returns (full: seq<U8>)
    requires e.src.V4? && e.dst.V4?
    ensures full == Rebuilt(e, payload)
  {
    var buf := new U8[20 + |payload|](_ => 0);
    WriteHeader(buf, (20 + |payload|) % 0x1_0000, e.proto, e.src.v4, e.dst.v4, 0, FragFlags(0, false));
    WriteAt(buf, 20, payload);
    full := buf[..];
  }

  method CompleteStream(e: FragEntry) returns (o: Outcome)
    requires e.src.V4? && e.dst.V4? && 0 <= e.total <= MAX_FRAG_BYTES_PER_STREAM
    ensures o == Complete(e)
  {
    var sorted := SortByOff(e.parts);
    var ok, payload := CopyParts(sorted, e.total);
    if !ok { return Rejected; }
    JoinLength(sorted, 0, e.total);
    var full := RebuildPacket(e, payload[..]);
    var r := ParsePacket(full);
    o := if r.None? then Rejected else Route(r.value);
  }

  class NatDispatcher {
    var frag: FragMap
    var rxPkts: nat
    var rxBytes: nat

    ghost predicate Valid()
      reads this
    {
      TableOk(frag)
    }

    constructor ()
      ensures Valid() && frag == map[] && rxPkts == rxBytes == 0
    {
      frag, rxPkts, rxBytes := map[], 0, 0;
    }

    /** A stream with the earliest arrival time; ties are broken arbitrarily. */
    method OldestStream() returns (oldest: FragKey)
      requires frag != map[]
      ensures Oldest(frag, oldest)
    {
      var rest := frag.Keys;
      assert rest != {} by { assert |frag| == |frag.Keys|; }
      oldest :| oldest in rest;
      while rest != {}
        invariant rest <= frag.Keys && oldest in frag
        invariant forall j :: j in frag && j !in rest ==> frag[oldest].arrivedMs <= frag[j].arrivedMs
        decreases |rest|
      {
        var k :| k in rest;
        if frag[k].arrivedMs < frag[oldest].arrivedMs { oldest := k; }
        rest := rest - {k};
      }
    }

    method HandleFragment(p: IpPacket, now: U32) returns (o: Outcome, ghost victim: FragKey)
      requires Valid()
      modifies this`frag
      ensures Valid() && EventOk(old(frag), Fragment(p, now, victim))
      ensures TableResult(frag, o) == TableStep(old(frag), p, now, victim)
    {
      var k := KeyOf(p);
      victim := k;
      if !p.src.V4? || !p.dst.V4? {
        if k !in frag && |frag| >= MAX_FRAG_STREAMS { victim := OldestStream(); }
        return Rejected, victim;
      }
      if k !in frag && |frag| >= MAX_FRAG_STREAMS {
        var oldest := OldestStream();
        victim := oldest;
        frag := frag - {oldest};
      }
      EvictMakesRoom(old(frag), k, victim);
      o := AddFragment(k, p, now);
      assert TableOk(TableStep(old(frag), p, now, victim).frag);
    }

    /** Insert into the stream, then drop it, keep it, or complete it. */
    method AddFragment(k: FragKey, p: IpPacket, now: U32) returns (o: Outcome)
      requires KeyOf(p) == k && p.src.V4? && p.dst.V4?
      requires k in frag ==> frag[k].src.V4? && frag[k].dst.V4? && -1 <= frag[k].total <= MAX_FRAG_BYTES_PER_STREAM
      modifies this`frag
      ensures var r := StreamStep(old(Lookup(frag, k)), p, now);
        frag == Store(old(frag), k, r.entry) && o == r.outcome
    {
      var entry := if k in frag then frag[k] else NewEntry(p, now);
      var off := p.FragOffsetBytes();
      if off + |p.l4| > MAX_FRAG_BYTES_PER_STREAM {
        frag := frag - {k};
        return Rejected;
      }
      ghost var before := entry;
      entry := entry.(parts := entry.parts + [FragPart(off, p.l4)], accumulated := entry.accumulated + |p.l4|);
      if !p.moreFrags { entry := entry.(total := off + |p.l4|); }
      assert entry == AddPart(before, p);
      o := SettleStream(k, entry);
    }

    method SettleStream(k: FragKey, entry: FragEntry) returns (o: Outcome)
      requires entry.src.V4? && entry.dst.V4? && -1 <= entry.total <= MAX_FRAG_BYTES_PER_STREAM
      modifies this`frag
      ensures var r := Settle(entry);
        frag == Store(old(frag), k, r.entry) && o == r.outcome
    {
      if entry.accumulated > MAX_FRAG_BYTES_PER_STREAM {
        frag := frag - {k};
        return Rejected;
      }
      if entry.total < 0 || entry.accumulated < entry.total {
        frag := frag[k := entry];
        return Held;
      }
      frag := frag - {k};
      o := CompleteStream(entry);
    }

    method Process(bytes: seq<U8>, now: U32) returns (o: Outcome, ghost victim: FragKey)
      requires Valid()
      modifies this
      ensures Valid() && EventOk(old(frag), EventOf(bytes, now, victim))
      ensures TableResult(frag, o) == EventStep(old(frag), EventOf(bytes, now, victim))
      ensures rxPkts == old(rxPkts) + 1 && rxBytes == old(rxBytes) + |bytes|
    {
      hide Parse, TableStep, TableOk, Route;
      var parsed := ParsePacket(bytes);
      rxPkts, rxBytes := rxPkts + 1, rxBytes + |bytes|;
      victim := FragKey(V4([0, 0, 0, 0]), V4([0, 0, 0, 0]), 0, 0);
      if parsed.None? { return Rejected, victim; }
      if parsed.value.IsFragment() {
        o, victim := HandleFragment(parsed.value, now);
      } else {
        o := Route(parsed.value);
      }
    }

    method SweepIdle(now: U32)
      requires Valid()
      modifies this`frag
      ensures Valid() && frag == Sweep(old(frag), now)
    {
      var expired := set k | k in frag && (now - frag[k].arrivedMs) % 0x1_0000_0000 > FRAG_EXPIRY_MS;
      frag := frag - expired;
      assert frag == Sweep(old(frag), now);
    }
  }
}

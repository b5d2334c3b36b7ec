/** Carrier framing: packets packed behind 16-bit lengths into frames, the sender loop that fills the
    frames burst by burst, and the receiver that takes them apart. */
module Framing {
  import opened Wrappers
  import opened Bytes

  const MAX_FRAME_BYTES: nat := 1275

  type Packet = seq<U8>

  // ── Packing and unpacking ────────────────────────────────────────────

  /** What the length prefix can express, less the empty packet, which the receiver takes for the end. */
  predicate Packable(p: Packet) { 1 <= |p| <= 0xffff }

  predicate AllPackable(ps: seq<Packet>) { forall i :: 0 <= i < |ps| ==> Packable(ps[i]) }

  /** What the length prefix can express. */
  predicate AllFit(ps: seq<Packet>) { forall i :: 0 <= i < |ps| ==> |ps[i]| <= 0xffff }

  function Entry(p: Packet): seq<U8>
    requires |p| <= 0xffff
  {
    Word(|p|) + p
  }

  /** An entry is the length, high byte first, and the packet. */
  lemma EntryLayout(p: Packet)
    requires |p| <= 0xffff
    ensures Entry(p) == [|p| / 256, |p| % 256] + p
  {
  }

  function Pack(ps: seq<Packet>): seq<U8>
    requires AllFit(ps)
  {
    if ps == [] then [] else Entry(ps[0]) + Pack(ps[1..])
  }

  /** The packets of a frame; a zero length or a length beyond the end stops the walk. */
  function Unpack(frame: seq<U8>): seq<Packet>
    decreases |frame|
  {
    if |frame| < 2 then []
    else
      var n := Be16(frame, 0);
      if n == 0 || 2 + n > |frame| then [] else [frame[2..2 + n]] + Unpack(frame[2 + n..])
  }

  /** One turn of the walk, at offset `i`. */
  lemma UnpackAt(frame: seq<U8>, i: nat)
    requires i + 2 <= |frame|
    ensures var n := Be16(frame, i);
      Unpack(frame[i..]) ==
        if n == 0 || i + 2 + n > |frame| then [] else [frame[i + 2..i + 2 + n]] + Unpack(frame[i + 2 + n..])
  {
    var f, n := frame[i..], Be16(frame, i);
    assert Be16(f, 0) == n;
    if n != 0 && i + 2 + n <= |frame| {
      assert f[2..2 + n] == frame[i + 2..i + 2 + n];
      assert f[2 + n..] == frame[i + 2 + n..];
    }
  }

  lemma MoveFirst<T>(a: seq<T>, x: T, b: seq<T>)
    ensures a + ([x] + b) == a + [x] + b
  {
  }

  /** `unpack`, the callback's calls in order. */
  method UnpackFrame(frame: seq<U8>) returns (packets: seq<Packet>)
    ensures packets == Unpack(frame)
  {
    packets := [];
    var i := 0;
    ghost var rest := Unpack(frame);
    assert frame[0..] == frame;
    while i + 2 <= |frame|
      invariant i <= |frame|
      invariant rest == Unpack(frame[i..])
      invariant packets + rest == Unpack(frame)
    {
      UnpackAt(frame, i);
      var n := Be16(frame, i);
      i := i + 2;
      if n == 0 || i + n > |frame| { return; }
      MoveFirst(packets, frame[i..i + n], Unpack(frame[i + n..]));
      packets, rest := packets + [frame[i..i + n]], Unpack(frame[i + n..]);
      i := i + n;
    }
  }

  /** Unpacking an entry and whatever follows it. */
  lemma UnpackEntry(p: Packet, rest: seq<U8>)
    requires Packable(p)
    ensures Unpack(Entry(p) + rest) == [p] + Unpack(rest)
  {
    var f := Entry(p) + rest;
    assert f[0] == Word(|p|)[0] && f[1] == Word(|p|)[1];
    assert f[2..2 + |p|] == p && f[2 + |p|..] == rest;
  }

  function UpToEmpty(ps: seq<Packet>): (r: seq<Packet>)
    ensures r <= ps
  {
    if ps == [] || ps[0] == [] then [] else [ps[0]] + UpToEmpty(ps[1..])
  }

  lemma UnpackEmptyEntry(rest: seq<U8>)
    ensures Unpack(Entry([]) + rest) == []
  {
    var f := Entry([]) + rest;
    assert f[0] == 0 && f[1] == 0;
  }

  lemma {:induction false} UnpackPrefix(ps: seq<Packet>)
    requires AllFit(ps)
    ensures Unpack(Pack(ps)) == UpToEmpty(ps)
  {
    assert Unpack([]) == [];
    hide Unpack, Entry;
    if ps != [] {
      UnpackPrefix(ps[1..]);
      if ps[0] == [] { UnpackEmptyEntry(Pack(ps[1..])); } else { UnpackEntry(ps[0], Pack(ps[1..])); }
    }
  }

  lemma {:induction false} UpToEmptyExact(ps: seq<Packet>)
    requires AllFit(ps)
    ensures UpToEmpty(ps) == ps <==> AllPackable(ps)
  {
    if ps != [] {
      UpToEmptyExact(ps[1..]);
      if ps[0] == [] {
        assert !Packable(ps[0]);
      } else {
        assert ps == [ps[0]] + ps[1..];
      }
    }
  }

  /** Unpacking what was packed gives back the packets up to the first empty one: all of them exactly if none is
      empty. */
  lemma UnpackPack(ps: seq<Packet>)
    requires AllFit(ps)
    ensures Unpack(Pack(ps)) == UpToEmpty(ps)
    ensures UpToEmpty(ps) == ps <==> AllPackable(ps)
  {
    UnpackPrefix(ps);
    UpToEmptyExact(ps);
  }

  lemma {:induction false} PackAppend(ps: seq<Packet>, p: Packet)
    requires AllFit(ps) && |p| <= 0xffff
    ensures AllFit(ps + [p]) && Pack(ps + [p]) == Pack(ps) + Entry(p)
  {
    hide Entry;
    if ps == [] {
      assert Pack([p]) == Entry(p) + Pack([]);
      assert ps + [p] == [p];
    } else {
      PackAppend(ps[1..], p);
      assert (ps + [p])[1..] == ps[1..] + [p];
    }
  }

  lemma {:induction false} PackLength(ps: seq<Packet>)
    requires AllFit(ps)
    ensures |Pack(ps)| >= 2 * |ps|
  {
    if ps != [] { PackLength(ps[1..]); }
  }

  /** Losing a frame's tail loses only its last packets, whatever the frame. */
  lemma {:induction false} TruncatedIsPrefix(frame: seq<U8>, k: nat)
    requires k <= |frame|
    ensures Unpack(frame[..k]) <= Unpack(frame)
    decreases |frame|
  {
    if k >= 2 {
      var n := Be16(frame, 0);
      assert Be16(frame[..k], 0) == n;
      if n != 0 && 2 + n <= k {
        TruncatedIsPrefix(frame[2 + n..], k - 2 - n);
        assert frame[..k][2..2 + n] == frame[2..2 + n];
        assert frame[..k][2 + n..] == frame[2 + n..][..k - 2 - n];
      }
    }
  }

  // ── The sender ───────────────────────────────────────────────────────

  /** A frame handed to a track, and the packet for which it had to make room, if it was sent mid-burst. */
  datatype Sending = Sending(frame: seq<U8>, next: Option<Packet>, track: nat)

  /** What the sender transmits of what it is given: `send_raw_frame` admits 1 to 65536 bytes, and a packet
      that the length prefix cannot express is discarded. */
  function Sendable(ps: seq<Packet>): seq<Packet> {
    if ps == [] then []
    else Sendable(ps[..|ps| - 1]) + if |ps[|ps| - 1]| <= 0xffff then [ps[|ps| - 1]] else []
  }

  predicate Admitted(ps: seq<Packet>) { forall i :: 0 <= i < |ps| ==> 1 <= |ps[i]| <= 0x1_0000 }

  lemma {:induction false} SendableExact(ps: seq<Packet>)
    requires Admitted(ps)
    ensures AllPackable(Sendable(ps))
    ensures Sendable(ps) == ps <==> AllPackable(ps)
    ensures |Sendable(ps)| <= |ps|
  {
    if ps != [] {
      var front := ps[..|ps| - 1];
      SendableExact(front);
      assert ps == front + [ps[|ps| - 1]];
    }
  }

  function UnpackAll(log: seq<Sending>): seq<Packet> {
    if log == [] then [] else UnpackAll(log[..|log| - 1]) + Unpack(log[|log| - 1].frame)
  }

  /** A frame that exceeds the carrier's ceiling holds one packet, and one sent mid-burst could not have
      taken the next packet. */
  predicate SendingOk(f: Sending) {
    && f.frame != []
    && (|f.frame| > 1275 ==> |Unpack(f.frame)| == 1)
    && (f.next.Some? ==> |f.frame| + 2 + |f.next.value| > 1275)
  }

  predicate LogOk(log: seq<Sending>) { forall i :: 0 <= i < |log| ==> SendingOk(log[i]) }

  /** The bursts' packets in order. */
  function Flat(bursts: seq<seq<Packet>>): seq<Packet> {
    if bursts == [] then [] else Flat(bursts[..|bursts| - 1]) + bursts[|bursts| - 1]
  }

  // ── The choice of track ──────────────────────────────────────────────

  /** How many offers of a frame are declined before one is accepted. */
  function Declined(answers: seq<bool>): (k: nat)
    requires true in answers
    ensures k < |answers| && answers[k] && forall j :: 0 <= j < k ==> !answers[j]
  {
    if answers[0] then 0 else 1 + Declined(answers[1..])
  }

  /** Counting round `n` tracks. */
  function Round(x: nat, n: nat): nat
    requires n > 0
  {
    x % n
  }

  lemma Sweeps(x: nat, j: nat, n: nat)
    requires n > 0
    ensures Round(x + j * n, n) == Round(x, n)
  {
    var q, y := x / n, x + j * n;
    assert x == q * n + x % n;
    assert (q + j) * n == q * n + j * n;
    Unique(q + j, x % n, y / n, y % n, n);
  }

  /** Quotient and remainder are determined. */
  lemma Unique(q: nat, r: nat, q': nat, r': nat, n: nat)
    requires r < n && r' < n && q * n + r == q' * n + r'
    ensures r == r'
  {
    if q < q' {
      Apart(q, q', n);
    } else if q' < q {
      Apart(q', q, n);
    }
  }

  lemma {:induction false} Apart(a: nat, b: nat, n: nat)
    requires a < b
    ensures a * n + n <= b * n
    decreases b
  {
    assert b * n == (b - 1) * n + n;
    if a < b - 1 { Apart(a, b - 1, n); }
  }

  /** The sweeps of `flush_with_backpressure` over the tracks, each from the cursor on, until a track accepts:
      the offers go round the tracks, so the track is as far from the cursor as offers were declined. */
  method OfferToTracks(answers: seq<bool>, cursor: nat, n: nat) returns (track: nat)
    requires n > 0 && true in answers
    ensures track == Round(cursor + Declined(answers), n)
  {
    var k, j := 0, 0;
    while true
      invariant k == j * n <= Declined(answers)
      decreases |answers| - k
    {
      var off := 0;
      while off < n
        invariant 0 <= off <= n && k == j * n + off <= Declined(answers)
      {
        track := Round(cursor + off, n);
        if answers[k] {
          Sweeps(cursor + off, j, n);
          return;
        }
        off, k := off + 1, k + 1;
      }
      j := j + 1;
    }
  }

  /** The cursor after the first `m` frames. */
  function Cursor(log: seq<Sending>, m: nat, tracks: nat): nat
    requires m <= |log| && tracks > 0
  {
    if m == 0 then 0 else Round(log[m - 1].track + 1, tracks)
  }

  /** Every frame goes to the track after its predecessor's, or as much further as offers were declined. */
  predicate Striped(log: seq<Sending>, tracks: nat, answers: nat -> seq<bool>) {
    forall m :: 0 <= m < |log| ==> tracks > 0 && StripedAt(log, m, tracks, answers(m))
  }

  predicate StripedAt(log: seq<Sending>, m: nat, tracks: nat, replies: seq<bool>)
    requires m < |log| && tracks > 0
  {
    true in replies && log[m].track == Round(Cursor(log, m, tracks) + Declined(replies), tracks)
  }

  /** `answers(m)` is what the tracks answer to the offers of the `m`th frame; some track accepts in the end. */
  class Sender {
    const tracks: nat
    const answers: nat -> seq<bool>
    var batch: seq<U8>
    var nextTrack: nat
    var log: seq<Sending>
    /** The packets in the batch. */
    ghost var held: seq<Packet>

    ghost predicate Valid()
      reads this
    {
      && AllFit(held) && batch == Pack(held)
      && (|batch| > MAX_FRAME_BYTES ==> |held| == 1)
      && LogOk(log) && TracksOk()
    }

    ghost predicate TracksOk()
      reads this
    {
      && (forall m :: true in answers(m)) && Striped(log, tracks, answers)
      && (tracks > 0 ==> nextTrack == Cursor(log, |log|, tracks))
    }

    /** What has been sent, and what is about to be. */
    ghost function Sent(): seq<Packet>
      reads this
    {
      UnpackAll(log) + held
    }

    constructor (tracks: nat, answers: nat -> seq<bool>)
      requires forall m :: true in answers(m)
      ensures Valid() && this.tracks == tracks && this.answers == answers && held == [] && log == []
    {
      this.tracks, this.answers := tracks, answers;
      batch, nextTrack, log, held := [], 0, [], [];
    }

    /** `push_packed`: false, and nothing changed, exactly when a non-empty batch has no room; an empty packet is
        packed like any other. */
    method PushPacked(p: Packet) returns (ok: bool)
      requires Valid()
      modifies this`batch, this`held
      ensures Valid()
      ensures ok <==> |p| > 0xffff || old(batch) == [] || |old(batch)| + 2 + |p| <= MAX_FRAME_BYTES
      ensures held == old(held) + if ok && |p| <= 0xffff then [p] else []
      ensures Sent() == old(Sent()) + if ok && |p| <= 0xffff then [p] else []
      ensures !ok ==> batch == old(batch)
    {
      hide Striped, Cursor, LogOk, UnpackAll;
      PackLength(held);
      if |p| > 0xffff { return true; }
      var needed := |batch| + 2 + |p|;
      if needed > MAX_FRAME_BYTES && batch != [] { return false; }
      PackAppend(held, p);
      batch := batch + Word(|p|) + p;
      held := held + [p];
      return true;
    }

    /** `flush_with_backpressure`, with what the tracks answer. */
    method Flush(next: Option<Packet>, replies: seq<bool>)
      requires Valid() && replies == answers(|log|)
      requires next.Some? ==> |batch| + 2 + |next.value| > MAX_FRAME_BYTES
      modifies this
      ensures Valid()
      ensures AllPackable(old(held)) ==> Sent() == old(Sent()) && AllPackable(held)
      ensures tracks > 0 ==> batch == []
      ensures tracks == 0 ==> batch == old(batch) && log == old(log) && held == old(held)
      ensures tracks > 0 && old(batch) == [] ==> log == old(log)
      ensures tracks > 0 && old(batch) != [] ==>
        log == old(log) + [Sending(old(batch), next, Round(old(nextTrack) + Declined(replies), tracks))]
    {
      hide Striped, Cursor, SendingOk, LogOk, UnpackAll, UpToEmpty, Round, Declined, Unpack;
      if batch == [] || tracks == 0 {
        PackLength(held);
        return;
      }
      var track := OfferToTracks(replies, nextTrack, tracks);
      HandOver(next, track);
    }

    method HandOver(next: Option<Packet>, track: nat)
      requires Valid() && tracks > 0 && batch != [] && track == Round(nextTrack + Declined(answers(|log|)), tracks)
      requires next.Some? ==> |batch| + 2 + |next.value| > MAX_FRAME_BYTES
      modifies this
      ensures Valid() && batch == [] && held == [] && log == old(log) + [Sending(old(batch), next, track)]
      ensures AllPackable(old(held)) ==> Sent() == old(Sent())
    {
      hide Striped, Cursor, SendingOk, LogOk, UnpackAll, UpToEmpty, Round, Declined, Unpack;
      UnpackPack(held);
      FrameOk(held, batch, next);
      StripedAppend(log, tracks, answers, Sending(batch, next, track));
      Append(Sending(batch, next, track));
      nextTrack := Round(track + 1, tracks);
      batch, held := [], [];
    }

    method Append(f: Sending)
      requires LogOk(log) && SendingOk(f)
      modifies this`log
      ensures log == old(log) + [f] && LogOk(log)
      ensures UnpackAll(log) == UnpackAll(old(log)) + Unpack(f.frame)
    {
      hide SendingOk, Unpack;
      ghost var was := log;
      log := log + [f];
      assert log[..|log| - 1] == was;
    }

    /** A packet of a burst: into the batch, or into the next one after a flush. */
    method Add(p: Packet)
      requires Valid() && 1 <= |p| && AllPackable(held)
      modifies this
      ensures Valid() && AllPackable(held)
      ensures tracks > 0 ==> Sent() == old(Sent()) + if |p| <= 0xffff then [p] else []
      ensures tracks == 0 ==> log == old(log)
    {
      hide Striped, Cursor, LogOk, UnpackAll, Pack;
      var ok := PushPacked(p);
      if !ok {
        Flush(Some(p), answers(|log|));
        ok := PushPacked(p);
      }
    }

    /** One round of the sender loop: the packet it blocked for and those that had already arrived. */
    method SendBurst(burst: seq<Packet>)
      requires Valid() && AllPackable(held) && Admitted(burst) && (tracks > 0 ==> batch == [])
      modifies this
      ensures Valid() && AllPackable(held)
      ensures tracks > 0 ==> batch == [] && Sent() == old(Sent()) + Sendable(burst)
      ensures tracks == 0 ==> log == old(log)
    {
      hide Striped, Cursor, LogOk, UnpackAll, Pack;
      for i := 0 to |burst|
        invariant Valid() && AllPackable(held)
        invariant tracks > 0 ==> Sent() == old(Sent()) + Sendable(burst[..i])
        invariant tracks == 0 ==> log == old(log)
      {
        assert burst[..i + 1][..i] == burst[..i];
        Add(burst[i]);
      }
      assert burst[..|burst|] == burst;
      Flush(None, answers(|log|));
    }

    /** The whole life of the sender task: on any split into bursts, the receiver gets the sendable packets
        in order; without a track nothing is sent. */
    method Run(bursts: seq<seq<Packet>>)
      requires Valid() && batch == [] && log == []
      requires forall i :: 0 <= i < |bursts| ==> Admitted(bursts[i])
      modifies this
      ensures LogOk(log) && Striped(log, tracks, answers)
      ensures UnpackAll(log) == if tracks > 0 then Sendable(Flat(bursts)) else []
    {
      PackLength(held);
      for i := 0 to |bursts|
        invariant Valid() && AllPackable(held)
        invariant tracks > 0 ==> batch == [] && Sent() == Sendable(Flat(bursts[..i]))
        invariant tracks == 0 ==> log == []
      {
        hide Striped, Cursor, LogOk, UnpackAll, Pack;
        SendBurst(bursts[i]);
        assert bursts[..i + 1][..i] == bursts[..i];
        SendableConcat(Flat(bursts[..i]), bursts[i]);
      }
      assert bursts[..|bursts|] == bursts;
      PackLength(held);
      Flush(None, answers(|log|));
      PackLength(held);
    }
  }

  lemma FrameOk(held: seq<Packet>, batch: seq<U8>, next: Option<Packet>)
    requires AllFit(held) && batch == Pack(held) != [] && (|batch| > MAX_FRAME_BYTES ==> |held| == 1)
    requires next.Some? ==> |batch| + 2 + |next.value| > MAX_FRAME_BYTES
    ensures forall track :: SendingOk(Sending(batch, next, track))
  {
    UnpackPack(held);
    if |batch| > MAX_FRAME_BYTES {
      assert Pack(held) == Entry(held[0]) + Pack(held[1..]);
      assert UpToEmpty(held) == [held[0]] + UpToEmpty(held[1..]);
    }
  }

  lemma StripedAppend(log: seq<Sending>, tracks: nat, answers: nat -> seq<bool>, f: Sending)
    requires Striped(log, tracks, answers) && tracks > 0 && true in answers(|log|)
    requires f.track == Round(Cursor(log, |log|, tracks) + Declined(answers(|log|)), tracks)
    ensures Striped(log + [f], tracks, answers)
    ensures Cursor(log + [f], |log| + 1, tracks) == Round(f.track + 1, tracks)
  {
    hide Declined, Round;
    var after := log + [f];
    forall m | 0 <= m < |after| ensures StripedAt(after, m, tracks, answers(m)) {
      assert Cursor(after, m, tracks) == Cursor(log, m, tracks);
      if m < |log| { assert StripedAt(log, m, tracks, answers(m)); }
    }
  }

  lemma {:induction false} SendableConcat(a: seq<Packet>, b: seq<Packet>)
    ensures Sendable(a + b) == Sendable(a) + Sendable(b)
  {
    if b == [] {
      assert a + b == a;
    } else {
      SendableConcat(a, b[..|b| - 1]);
      assert (a + b)[..|a + b| - 1] == a + b[..|b| - 1];
    }
  }
}

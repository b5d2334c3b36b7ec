/** The protobuf wire format: a writer that appends to a buffer and a reader that walks one. */
module Proto {
  import opened Wrappers
  import opened Bytes

  // ── Reading, on the unread rest of a buffer ──────────────────────────

  /** A reading's value, if it succeeded, and what is left unread either way. */
  datatype Read<+T> = Read(value: Option<T>, rest: seq<U8>)

  /** One more than the largest value that the bytes from the `k`th on can contribute, in units of 128^k. */
  function Cap(k: nat): (c: nat)
    requires k <= 9
    ensures c >= 2 && (k < 9 ==> c >= 128)
    decreases 9 - k
  {
    if k == 9 then 2 else 128 * Cap(k + 1)
  }

  /** The bits of the `k`th byte that fit into 64. */
  function Low(b: U8, k: nat): (r: nat)
    ensures r < 128 && (k == 9 ==> r < 2)
  {
    if k == 9 then b % 2 else b % 128
  }

  /** A varint from its `k`th byte on; a tenth byte that announces another is an error. */
  function ReadVarint(s: seq<U8>, k: nat): (r: Read<nat>)
    requires k <= 9
    ensures |r.rest| <= |s| && (s != [] ==> |r.rest| < |s|)
    ensures r.value.Some? ==> r.value.value < Cap(k)
    decreases |s|
  {
    if s == [] then Read(None, [])
    else if s[0] < 128 then Read(Some(Low(s[0], k)), s[1..])
    else if k == 9 then Read(None, s[1..])
    else
      var r := ReadVarint(s[1..], k + 1);
      assert Cap(k) == 128 * Cap(k + 1);
      Read(if r.value.Some? then Some(Low(s[0], k) + 128 * r.value.value) else None, r.rest)
  }

  /** The field number and the wire type. */
  function ReadTag(s: seq<U8>): (r: Read<(U32, nat)>)
    ensures |r.rest| <= |s| && (s != [] ==> |r.rest| < |s|)
  {
    var r := ReadVarint(s, 0);
    Read(if r.value.Some? then Some((r.value.value / 8 % 0x1_0000_0000, r.value.value % 8)) else None, r.rest)
  }

  function Take(s: seq<U8>, n: nat): (r: Read<seq<U8>>)
    ensures |r.rest| <= |s|
  {
    if n <= |s| then Read(Some(s[..n]), s[n..]) else Read(None, s)
  }

  /** Bytes behind their length; if there are too few, only the length is consumed. */
  function ReadBytes(s: seq<U8>): (r: Read<seq<U8>>)
    ensures |r.rest| <= |s|
  {
    var n := ReadVarint(s, 0);
    if n.value.None? then Read(None, n.rest) else Take(n.rest, n.value.value)
  }

  /** Whether a field's contents can be passed over, and what follows them. */
  function SkipField(s: seq<U8>, wire: nat): (r: Read<()>)
    ensures |r.rest| <= |s|
  {
    match wire
    case 0 => var r := ReadVarint(s, 0); Done(r.value.Some?, r.rest)
    case 1 => var r := Take(s, 8); Done(r.value.Some?, r.rest)
    case 2 => var r := ReadBytes(s); Done(r.value.Some?, r.rest)
    case 5 => var r := Take(s, 4); Done(r.value.Some?, r.rest)
    case _ => Done(false, s)
  }

  function Done(ok: bool, rest: seq<U8>): Read<()> { Read(if ok then Some(()) else None, rest) }

  // ── Reading is stable under extension ────────────────────────────────

  /** What a successful reading returns does not depend on what follows it in the buffer. */
  lemma {:induction false} VarintExtends(s: seq<U8>, t: seq<U8>, k: nat)
    requires k <= 9 && ReadVarint(s, k).value.Some?
    ensures ReadVarint(s + t, k) == Read(ReadVarint(s, k).value, ReadVarint(s, k).rest + t)
    decreases |s|
  {
    assert (s + t)[1..] == s[1..] + t;
    if s[0] >= 128 && k < 9 { VarintExtends(s[1..], t, k + 1); }
  }

  lemma TakeExtends(s: seq<U8>, t: seq<U8>, n: nat)
    requires Take(s, n).value.Some?
    ensures Take(s + t, n) == Read(Take(s, n).value, Take(s, n).rest + t)
  {
    assert (s + t)[..n] == s[..n] && (s + t)[n..] == s[n..] + t;
  }

  lemma BytesExtends(s: seq<U8>, t: seq<U8>)
    requires ReadBytes(s).value.Some?
    ensures ReadBytes(s + t) == Read(ReadBytes(s).value, ReadBytes(s).rest + t)
  {
    VarintExtends(s, t, 0);
    var n := ReadVarint(s, 0);
    TakeExtends(n.rest, t, n.value.value);
  }

  lemma TagExtends(s: seq<U8>, t: seq<U8>)
    requires ReadTag(s).value.Some?
    ensures ReadTag(s + t) == Read(ReadTag(s).value, ReadTag(s).rest + t)
  {
    VarintExtends(s, t, 0);
  }

  lemma SkipExtends(s: seq<U8>, t: seq<U8>, wire: nat)
    requires SkipField(s, wire).value.Some?
    ensures SkipField(s + t, wire) == Read(Some(()), SkipField(s, wire).rest + t)
  {
    match wire
    case 0 => VarintExtends(s, t, 0);
    case 1 => TakeExtends(s, t, 8);
    case 2 => BytesExtends(s, t);
    case 5 => TakeExtends(s, t, 4);
    case _ =>
  }

  // ── Writing ──────────────────────────────────────────────────────────

  function EncodeVarint(v: nat): seq<U8> {
    if v < 128 then [v] else [v % 128 + 128] + EncodeVarint(v / 128)
  }

  lemma DivMod(v: nat)
    ensures 0 <= v % 128 < 128 && v % 128 + 128 * (v / 128) == v && (v % 128 + 128) % 128 == v % 128
  {
  }

  lemma ReadLast(v: nat, t: seq<U8>, k: nat)
    requires k <= 9 && v < 128 && v < Cap(k)
    ensures ReadVarint([v] + t, k) == Read(Some(v), t)
  {
    assert ([v] + t)[1..] == t;
  }

  lemma ReadMore(v: nat, s: seq<U8>, t: seq<U8>, k: nat)
    requires k < 9 && ReadVarint(s, k + 1) == Read(Some(v / 128), t)
    ensures 0 <= v % 128 < 128 && ReadVarint([v % 128 + 128] + s, k) == Read(Some(v), t)
  {
    DivMod(v);
    var b: U8 := v % 128 + 128;
    assert ([b] + s)[1..] == s;
    assert Low(b, k) == v % 128;
  }

  lemma EncodeStep(v: nat)
    ensures v < 128 ==> EncodeVarint(v) == [v]
    ensures v >= 128 ==> 0 <= v % 128 < 128 && EncodeVarint(v) == [v % 128 + 128] + EncodeVarint(v / 128)
  {
  }

  lemma CapStep(v: nat, k: nat)
    requires k <= 9 && 128 <= v < Cap(k)
    ensures k < 9 && v / 128 < Cap(k + 1) && v / 128 < v
  {
  }

  /** Every value that fits is read back, from as few bytes as 64 bits need. */
  lemma {:induction false} VarintRoundTrip(v: nat, t: seq<U8>, k: nat)
    requires k <= 9 && v < Cap(k)
    ensures 1 <= |EncodeVarint(v)| <= 10 - k
    ensures ReadVarint(EncodeVarint(v) + t, k) == Read(Some(v), t)
  {
    hide ReadVarint, Low, EncodeVarint, Cap;
    EncodeStep(v);
    if v < 128 {
      ReadLast(v, t, k);
    } else {
      CapStep(v, k);
      VarintRoundTrip(v / 128, t, k + 1);
      ReadMore(v, EncodeVarint(v / 128) + t, t, k);
      assert EncodeVarint(v) + t == [v % 128 + 128] + (EncodeVarint(v / 128) + t);
    }
  }

  lemma CapIs64Bits()
    ensures Cap(0) == 0x1_0000_0000_0000_0000
  {
    assert Cap(7) == 128 * Cap(8) && Cap(5) == 128 * Cap(6) && Cap(3) == 128 * Cap(4) && Cap(1) == 128 * Cap(2);
  }

  /** The layout of a varint: seven bits a byte, the lowest first, and the high bit on every byte but the last, which is
      not zero unless it is the only one. */
  lemma {:induction false} VarintLayout(v: nat, i: nat)
    requires i < |EncodeVarint(v)|
    ensures EncodeVarint(v)[i] % 128 == v / Pow128(i) % 128
    ensures EncodeVarint(v)[i] >= 128 <==> i + 1 < |EncodeVarint(v)|
    ensures i + 1 == |EncodeVarint(v)| ==> EncodeVarint(v)[i] > 0 || i == 0
    decreases i
  {
    EncodeStep(v);
    if i > 0 {
      hide EncodeVarint;
      VarintLayout(v / 128, i - 1);
      DivTwice(v, Pow128(i - 1));
      LastByte(v);
    } else {
      assert Pow128(0) == 1;
      DivMod(v);
    }
  }

  lemma {:induction false} LastByte(v: nat)
    ensures |EncodeVarint(v)| >= 1
    ensures v > 0 ==> EncodeVarint(v)[|EncodeVarint(v)| - 1] > 0
  {
    EncodeStep(v);
    if v >= 128 { LastByte(v / 128); }
  }

  lemma DivTwice(v: nat, p: nat)
    requires p > 0
    ensures v / 128 / p == v / (128 * p)
  {
    var q, r := v / 128, v % 128;
    var a, b := q / p, q % p;
    assert q == a * p + b;
    assert v == a * (128 * p) + (128 * b + r);
    assert 0 <= 128 * b + r < 128 * p;
    DivUnique(v, 128 * p, a, 128 * b + r);
  }

  lemma DivUnique(v: nat, n: nat, a: nat, r: nat)
    requires n > 0 && v == a * n + r && r < n
    ensures v / n == a
  {
    var q, s := v / n, v % n;
    assert v == q * n + s;
    if q < a {
      Times(q, a, n);
    } else if a < q {
      Times(a, q, n);
    }
  }

  lemma {:induction false} Times(a: nat, b: nat, n: nat)
    requires a < b
    ensures a * n + n <= b * n
    decreases b
  {
    assert b * n == (b - 1) * n + n;
    if a < b - 1 { Times(a, b - 1, n); }
  }

  /** A field number below 16 and its wire type make a one-byte tag. */
  lemma SmallTags(f: U32, wire: nat)
    requires f < 16 && wire < 8
    ensures EncodeTag(f, wire) == [8 * f + wire]
  {
  }

  datatype Field = VarintField(f: U32, v: U64) | BytesField(f: U32, b: seq<U8>)

  /** Lengths are 64 bits wide. */
  predicate Encodable(x: Field) { x.BytesField? ==> |x.b| < 0x1_0000_0000_0000_0000 }

  function EncodeTag(f: U32, wire: nat): seq<U8>
    requires wire < 8
  {
    EncodeVarint(f * 8 + wire)
  }

  function Encode(x: Field): seq<U8> {
    match x
    case VarintField(f, v) => EncodeTag(f, 0) + EncodeVarint(v)
    case BytesField(f, b) => EncodeTag(f, 2) + EncodeVarint(|b|) + b
  }

  function EncodeAll(xs: seq<Field>): seq<U8> {
    if xs == [] then [] else Encode(xs[0]) + EncodeAll(xs[1..])
  }

  lemma TagRoundTrip(f: U32, wire: nat, t: seq<U8>)
    requires wire < 8
    ensures ReadTag(EncodeTag(f, wire) + t) == Read(Some((f, wire)), t)
    ensures |EncodeTag(f, wire)| >= 1
  {
    hide ReadVarint, EncodeVarint, Cap;
    CapIs64Bits();
    TagParts(f, wire);
    VarintRoundTrip(f * 8 + wire, t, 0);
  }

  lemma TagParts(f: U32, wire: nat)
    requires wire < 8
    ensures (f * 8 + wire) / 8 == f && (f * 8 + wire) % 8 == wire && f % 0x1_0000_0000 == f
  {
  }

  lemma ReadBytesBehind(e: seq<U8>, b: seq<U8>, t: seq<U8>)
    requires ReadVarint(e + (b + t), 0) == Read(Some(|b|), b + t)
    ensures ReadBytes(e + b + t) == Read(Some(b), t)
  {
    assert e + b + t == e + (b + t);
    assert (b + t)[..|b|] == b && (b + t)[|b|..] == t;
  }

  lemma BytesRoundTrip(b: seq<U8>, t: seq<U8>)
    requires |b| < 0x1_0000_0000_0000_0000
    ensures ReadBytes(EncodeVarint(|b|) + b + t) == Read(Some(b), t)
  {
    CapIs64Bits();
    VarintRoundTrip(|b|, b + t, 0);
    ReadBytesBehind(EncodeVarint(|b|), b, t);
  }

  /** The contents of a field, as the writer lays them out. */
  function Contents(x: Field): seq<U8> {
    match x
    case VarintField(_, v) => EncodeVarint(v)
    case BytesField(_, b) => EncodeVarint(|b|) + b
  }

  function Wire(x: Field): nat { if x.VarintField? then 0 else 2 }

  lemma EncodeSplits(x: Field, t: seq<U8>)
    ensures Encode(x) + t == EncodeTag(x.f, Wire(x)) + (Contents(x) + t)
  {
  }

  /** One field of either kind, as its wire type says. */
  function ReadField(s: seq<U8>): (r: Read<Field>)
    ensures s != [] ==> |r.rest| < |s|
  {
    var t := ReadTag(s);
    if t.value.None? then Read(None, t.rest)
    else
      var (f, w) := t.value.value;
      if w == 0 then
        var v := ReadVarint(t.rest, 0);
        CapIs64Bits();
        Read(if v.value.Some? then Some(VarintField(f, v.value.value)) else None, v.rest)
      else if w == 2 then
        var b := ReadBytes(t.rest);
        Read(if b.value.Some? then Some(BytesField(f, b.value.value)) else None, b.rest)
      else Read(None, t.rest)
  }

  function ReadFields(s: seq<U8>): Option<seq<Field>>
    decreases |s|
  {
    if s == [] then Some([])
    else
      var r := ReadField(s);
      if r.value.None? then None
      else
        var more := ReadFields(r.rest);
        if more.None? then None else Some([r.value.value] + more.value)
  }

  lemma FieldRoundTrip(x: Field, t: seq<U8>)
    requires Encodable(x)
    ensures ReadField(Encode(x) + t) == Read(Some(x), t)
    ensures |Encode(x)| >= 1
  {
    EncodeSplits(x, t);
    TagRoundTrip(x.f, Wire(x), Contents(x) + t);
    match x
    case VarintField(_, v) =>
      CapIs64Bits();
      VarintRoundTrip(v, t, 0);
    case BytesField(_, b) => BytesRoundTrip(b, t);
  }

  lemma ReadFieldsCons(x: Field, xs: seq<Field>, s: seq<U8>, t: seq<U8>)
    requires s != [] && ReadField(s) == Read(Some(x), t) && ReadFields(t) == Some(xs)
    ensures ReadFields(s) == Some([x] + xs)
  {
  }

  /** Every list of varint and bytes fields is read back as written. */
  lemma {:induction false} FieldsRoundTrip(xs: seq<Field>)
    requires forall i :: 0 <= i < |xs| ==> Encodable(xs[i])
    ensures ReadFields(EncodeAll(xs)) == Some(xs)
  {
    if xs != [] {
      FieldRoundTrip(xs[0], EncodeAll(xs[1..]));
      FieldsRoundTrip(xs[1..]);
      ReadFieldsCons(xs[0], xs[1..], EncodeAll(xs), EncodeAll(xs[1..]));
      assert xs == [xs[0]] + xs[1..];
    }
  }

  // ── Signed integers ──────────────────────────────────────────────────

  function AsI32(v: nat): int {
    var x := v % 0x1_0000_0000;
    if x >= 0x8000_0000 then x - 0x1_0000_0000 else x
  }

  function AsI64(v: nat): int {
    var x := v % 0x1_0000_0000_0000_0000;
    if x >= 0x8000_0000_0000_0000 then x - 0x1_0000_0000_0000_0000 else x
  }

  /** How the writer turns an `i32` and an `i64` into the varint's unsigned value. */
  function OfI32(v: int): U32
    requires -0x8000_0000 <= v < 0x8000_0000
  {
    if v < 0 then v + 0x1_0000_0000 else v
  }

  function OfI64(v: int): U64
    requires -0x8000_0000_0000_0000 <= v < 0x8000_0000_0000_0000
  {
    if v < 0 then v + 0x1_0000_0000_0000_0000 else v
  }

  lemma SignedRoundTrip(v: int)
    ensures -0x8000_0000 <= v < 0x8000_0000 ==> AsI32(OfI32(v)) == v
    ensures -0x8000_0000_0000_0000 <= v < 0x8000_0000_0000_0000 ==> AsI64(OfI64(v)) == v
  {
  }

  // ── The writer and the reader ────────────────────────────────────────

  lemma Assoc(a: seq<U8>, b: seq<U8>, c: seq<U8>)
    ensures a + b + c == a + (b + c)
  {
  }

  class ProtoWriter {
    var buf: seq<U8>

    constructor ()
      ensures buf == []
    {
      buf := [];
    }

    method Varint(v: U64)
      modifies this
      ensures buf == old(buf) + EncodeVarint(v)
    {
      var value: nat := v;
      while value / 128 != 0
        invariant buf + EncodeVarint(value) == old(buf) + EncodeVarint(v)
      {
        buf := buf + [value % 128 + 128];
        value := value / 128;
      }
      buf := buf + [value % 128];
    }

    method Tag(f: U32, wire: nat)
      requires wire < 8
      modifies this
      ensures buf == old(buf) + EncodeTag(f, wire)
    {
      Varint(f * 8 + wire);
    }

    method Int32(f: U32, v: int)
      requires -0x8000_0000 <= v < 0x8000_0000
      modifies this
      ensures buf == old(buf) + Encode(VarintField(f, OfI32(v)))
    {
      Tag(f, 0);
      Varint(OfI32(v));
      Assoc(old(buf), EncodeTag(f, 0), EncodeVarint(OfI32(v)));
    }

    method Int64(f: U32, v: int)
      requires -0x8000_0000_0000_0000 <= v < 0x8000_0000_0000_0000
      modifies this
      ensures buf == old(buf) + Encode(VarintField(f, OfI64(v)))
    {
      Tag(f, 0);
      Varint(OfI64(v));
      Assoc(old(buf), EncodeTag(f, 0), EncodeVarint(OfI64(v)));
    }

    method Bytes(f: U32, v: seq<U8>)
      requires |v| < 0x1_0000_0000_0000_0000
      modifies this
      ensures buf == old(buf) + Encode(BytesField(f, v))
    {
      Tag(f, 2);
      Varint(|v|);
      buf := buf + v;
      Assoc(old(buf), EncodeTag(f, 2), EncodeVarint(|v|));
      Assoc(old(buf), EncodeTag(f, 2) + EncodeVarint(|v|), v);
    }
  }

  datatype ProtoError = Eof | UnsupportedWireType(w: nat) | TruncatedLength(need: nat, have: nat)

  datatype Result<+T> = Ok(value: T) | Err(error: ProtoError)

  // ── Errors ───────────────────────────────────────────────────────────

  /** Why `n` bytes cannot be had at position `pos` of a buffer with `have` bytes left: the sum overflows 64 bits, or
      the buffer is too short. */
  function AdvanceError(pos: nat, n: nat, have: nat): ProtoError {
    if pos + n >= 0x1_0000_0000_0000_0000 then Eof else TruncatedLength(n, have)
  }

  /** Why no bytes can be read from `s`, which begins at position `pos`. */
  function BytesError(s: seq<U8>, pos: nat): ProtoError {
    var n := ReadVarint(s, 0);
    if n.value.None? then Eof else AdvanceError(pos + |s| - |n.rest|, n.value.value, |n.rest|)
  }

  function SkipError(s: seq<U8>, pos: nat, wire: nat): ProtoError {
    match wire
    case 0 => Eof
    case 1 => AdvanceError(pos, 8, |s|)
    case 2 => BytesError(s, pos)
    case 5 => AdvanceError(pos, 4, |s|)
    case _ => UnsupportedWireType(wire)
  }

  // ── The reader ───────────────────────────────────────────────────────

  function Pow128(k: nat): (p: nat)
    ensures p > 0
  {
    if k == 0 then 1 else 128 * Pow128(k - 1)
  }

  lemma PowValues()
    ensures Pow128(8) == 0x100_0000_0000_0000 && Pow128(9) == 0x8000_0000_0000_0000
  {
    assert Pow128(2) == 0x4000;
    assert Pow128(4) == 0x1000_0000;
    assert Pow128(6) == 0x400_0000_0000;
  }

  lemma {:induction false} PowMonotone(k: nat, m: nat)
    requires k <= m
    ensures Pow128(k) <= Pow128(m)
    decreases m - k
  {
    if k < m { PowMonotone(k, m - 1); }
  }

  lemma TopBit(x: nat)
    ensures x * 0x8000_0000_0000_0000 % 0x1_0000_0000_0000_0000 == x % 2 * 0x8000_0000_0000_0000
  {
    var q, r := x / 2, x % 2;
    assert x * 0x8000_0000_0000_0000 == q * 0x1_0000_0000_0000_0000 + r * 0x8000_0000_0000_0000;
    Remainder64(q, r * 0x8000_0000_0000_0000);
  }

  lemma Remainder64(q: nat, r: nat)
    requires r < 0x1_0000_0000_0000_0000
    ensures (q * 0x1_0000_0000_0000_0000 + r) % 0x1_0000_0000_0000_0000 == r
  {
  }

  /** Shifting a byte's seven bits to their place drops those beyond the 64th. */
  lemma ShiftTruncates(b: U8, k: nat)
    requires k <= 9
    ensures b % 128 * Pow128(k) % 0x1_0000_0000_0000_0000 == Low(b, k) * Pow128(k)
  {
    PowValues();
    if k == 9 {
      TopBit(b % 128);
      assert b % 128 % 2 == b % 2;
    } else {
      PowMonotone(k, 8);
      SmallProduct(b % 128, Pow128(k));
    }
  }

  lemma SmallProduct(x: nat, p: nat)
    requires x < 128 && p <= 0x100_0000_0000_0000
    ensures x * p % 0x1_0000_0000_0000_0000 == x * p
  {
    assert 0 <= x * p <= 128 * p;
  }

  /** The whole reading is what has been accumulated over `k` bytes and the reading of the rest. */
  predicate Accumulated(all: Read<nat>, now: Read<nat>, result: nat, k: nat) {
    && now.rest == all.rest && (now.value.None? <==> all.value.None?)
    && (now.value.Some? ==> all.value == Some(result + Pow128(k) * now.value.value))
  }

  lemma VarintTurn(s: seq<U8>, k: nat, all: Read<nat>, result: nat)
    requires s != [] && k <= 9 && Accumulated(all, ReadVarint(s, k), result, k)
    ensures s[0] < 128 ==> all == Read(Some(result + Low(s[0], k) * Pow128(k)), s[1..])
    ensures s[0] >= 128 && k < 9 ==>
      Accumulated(all, ReadVarint(s[1..], k + 1), result + Low(s[0], k) * Pow128(k), k + 1)
    ensures s[0] >= 128 && k == 9 ==> all == Read(None, s[1..])
  {
    hide Low, Cap, Pow128;
    NextPower(k);
    if s[0] < 128 {
      Distribute(Low(s[0], k), 0, Pow128(k));
    } else if k < 9 {
      var t := ReadVarint(s[1..], k + 1);
      if t.value.Some? { Distribute(Low(s[0], k), t.value.value, Pow128(k)); }
    }
  }

  lemma NextPower(k: nat)
    ensures Pow128(k + 1) == 128 * Pow128(k)
  {
  }

  lemma NothingToRead(k: nat)
    requires k <= 9
    ensures ReadVarint([], k) == Read(None, [])
  {
  }

  lemma Distribute(l: nat, v: nat, p: nat)
    ensures p * (l + 128 * v) == l * p + 128 * p * v
  {
  }

  class ProtoReader {
    const buf: seq<U8>
    var pos: nat

    ghost predicate Valid()
      reads this
    {
      pos <= |buf| < 0x1_0000_0000_0000_0000
    }

    ghost function Rest(): seq<U8>
      reads this
      requires Valid()
    {
      buf[pos..]
    }

    constructor (buf: seq<U8>)
      requires |buf| < 0x1_0000_0000_0000_0000
      ensures Valid() && this.buf == buf && Rest() == buf
    {
      this.buf, pos := buf, 0;
    }

    method Varint() returns (r: Result<U64>)
      requires Valid()
      modifies this
      ensures Valid() && Rest() == ReadVarint(old(Rest()), 0).rest
      ensures ReadVarint(old(Rest()), 0).value == if r.Ok? then Some(r.value) else None
      ensures r.Err? ==> r.error == Eof
    {
      assert Pow128(0) == 1;
      hide ReadVarint, Low, Pow128, Cap;
      var result: nat, k: nat := 0, 0;
      CapIs64Bits();
      ghost var all := ReadVarint(Rest(), 0);
      while pos < |buf|
        invariant Valid() && k <= 9
        invariant Accumulated(all, ReadVarint(Rest(), k), result, k)
        decreases |buf| - pos
      {
        var b := buf[pos];
        ghost var rest := Rest();
        pos := pos + 1;
        assert rest[0] == b && rest[1..] == Rest();
        ShiftTruncates(b, k);
        VarintTurn(rest, k, all, result);
        result := result + b % 128 * Pow128(k) % 0x1_0000_0000_0000_0000;
        if b < 128 { return Ok(result); }
        k := k + 1;
        if k == 10 { return Err(Eof); }
      }
      NothingToRead(k);
      r := Err(Eof);
    }

    method Tag() returns (r: Result<(U32, nat)>)
      requires Valid()
      modifies this
      ensures Valid() && Rest() == ReadTag(old(Rest())).rest
      ensures ReadTag(old(Rest())).value == if r.Ok? then Some(r.value) else None
      ensures r.Err? ==> r.error == Eof
    {
      var v := Varint();
      if v.Err? { return Err(v.error); }
      r := Ok((v.value / 8 % 0x1_0000_0000, v.value % 8));
    }

    /** A length that would overflow the position is an early end, one beyond the buffer a truncation. */
    method Advance(n: nat) returns (r: Result<seq<U8>>)
      requires Valid()
      modifies this
      ensures Valid() && Rest() == Take(old(Rest()), n).rest
      ensures Take(old(Rest()), n).value == if r.Ok? then Some(r.value) else None
      ensures r.Err? ==> r.error == AdvanceError(old(pos), n, |old(Rest())|)
    {
      var end := pos + n;
      if end >= 0x1_0000_0000_0000_0000 { return Err(Eof); }
      if end > |buf| { return Err(TruncatedLength(n, |buf| - pos)); }
      r := Ok(buf[pos..end]);
      assert buf[pos..][..n] == buf[pos..end] && buf[pos..][n..] == buf[end..];
      pos := end;
    }

    method Bytes() returns (r: Result<seq<U8>>)
      requires Valid()
      modifies this
      ensures Valid() && Rest() == ReadBytes(old(Rest())).rest
      ensures ReadBytes(old(Rest())).value == if r.Ok? then Some(r.value) else None
      ensures r.Err? ==> r.error == BytesError(old(Rest()), old(pos))
    {
      var n := Varint();
      if n.Err? { return Err(n.error); }
      r := Advance(n.value);
    }

    method Skip(wire: nat) returns (r: Result<()>)
      requires Valid()
      modifies this
      ensures Valid() && Rest() == SkipField(old(Rest()), wire).rest
      ensures SkipField(old(Rest()), wire).value.Some? <==> r.Ok?
      ensures r.Err? ==> r.error == SkipError(old(Rest()), old(pos), wire)
    {
      if wire == 0 {
        var v := Varint();
        return if v.Ok? then Ok(()) else Err(v.error);
      } else if wire == 1 || wire == 5 {
        var a := Advance(if wire == 1 then 8 else 4);
        return if a.Ok? then Ok(()) else Err(a.error);
      } else if wire == 2 {
        var b := Bytes();
        return if b.Ok? then Ok(()) else Err(b.error);
      }
      return Err(UnsupportedWireType(wire));
    }
  }
}

/** Decoders of the signaling messages: RPC responses, errors and call entities. */
module Messages {
  import opened Wrappers
  import opened Bytes
  import opened Proto

  // ── RPC responses ────────────────────────────────────────────────────

  datatype RpcResponse = RpcResponse(idx: int, error: Option<seq<U8>>, payload: Option<seq<U8>>)

  const EMPTY_RESPONSE := RpcResponse(0, None, None)

  const RPC_FIELDS: set<nat> := {1, 2, 3}

  /** Takes the contents of field `f` from the front of `s`. The wire type is consulted only for unknown fields. */
  function PutRpc(out: RpcResponse, f: nat, wire: nat, s: seq<U8>): (r: Read<RpcResponse>)
    ensures |r.rest| <= |s|
  {
    if f == 1 then
      var b := ReadBytes(s);
      Read(if b.value.Some? then Some(out.(error := b.value)) else None, b.rest)
    else if f == 2 then
      var b := ReadBytes(s);
      Read(if b.value.Some? then Some(out.(payload := b.value)) else None, b.rest)
    else if f == 3 then
      var v := ReadVarint(s, 0);
      Read(if v.value.Some? then Some(out.(idx := AsI32(v.value.value))) else None, v.rest)
    else
      var k := SkipField(s, wire);
      Read(if k.value.Some? then Some(out) else None, k.rest)
  }

  /** The response read from `s` on top of `out`; none if a field is broken. */
  function DecodeRpc(s: seq<U8>, out: RpcResponse): Option<RpcResponse>
    decreases |s|
  {
    if s == [] then Some(out)
    else
      var t := ReadTag(s);
      if t.value.None? then None
      else
        var r := PutRpc(out, t.value.value.0, t.value.value.1, t.rest);
        if r.value.None? then None else DecodeRpc(r.rest, r.value.value)
  }

  lemma PutRpcExtends(out: RpcResponse, f: nat, wire: nat, s: seq<U8>, t: seq<U8>)
    requires PutRpc(out, f, wire, s).value.Some?
    ensures PutRpc(out, f, wire, s + t) == Read(PutRpc(out, f, wire, s).value, PutRpc(out, f, wire, s).rest + t)
  {
    if f == 1 || f == 2 {
      BytesExtends(s, t);
    } else if f == 3 {
      VarintExtends(s, t, 0);
    } else {
      SkipExtends(s, t, wire);
    }
  }

  /** Messages compose: whole fields followed by more are decoded one after the other. */
  lemma {:induction false} DecodeRpcConcat(a: seq<U8>, b: seq<U8>, out: RpcResponse)
    requires DecodeRpc(a, out).Some?
    ensures DecodeRpc(a + b, out) == DecodeRpc(b, DecodeRpc(a, out).value)
    decreases |a|
  {
    if a == [] {
      assert a + b == b;
    } else {
      var t := ReadTag(a);
      TagExtends(a, b);
      PutRpcExtends(out, t.value.value.0, t.value.value.1, t.rest, b);
      var r := PutRpc(out, t.value.value.0, t.value.value.1, t.rest);
      DecodeRpcConcat(r.rest, b, r.value.value);
    }
  }

  // ── Unknown fields ───────────────────────────────────────────────────

  /** `u` is read as exactly one field, whose number is not among `known`. */
  predicate IsUnknownField(u: seq<U8>, known: set<nat>) {
    var t := ReadTag(u);
    t.value.Some? && t.value.value.0 !in known && SkipField(t.rest, t.value.value.1) == Read(Some(()), [])
  }

  /** Every well-formed field with another number is one, for each of the four wire types. */
  lemma UnknownFieldForms(f: U32, wire: nat, contents: seq<U8>, known: set<nat>)
    requires f !in known
    requires
      || (wire == 0 && exists v: U64 :: contents == EncodeVarint(v))
      || (wire == 1 && |contents| == 8)
      || (wire == 2 && exists b: seq<U8> :: |b| < 0x1_0000_0000_0000_0000 && contents == EncodeVarint(|b|) + b)
      || (wire == 5 && |contents| == 4)
    ensures IsUnknownField(EncodeTag(f, wire) + contents, known)
  {
    TagRoundTrip(f, wire, contents);
    match wire
    case 0 =>
      var v: U64 :| contents == EncodeVarint(v);
      CapIs64Bits();
      VarintRoundTrip(v, [], 0);
      assert EncodeVarint(v) + [] == contents;
    case 2 =>
      var b: seq<U8> :| |b| < 0x1_0000_0000_0000_0000 && contents == EncodeVarint(|b|) + b;
      BytesRoundTrip(b, []);
      assert EncodeVarint(|b|) + b + [] == contents;
    case _ =>
  }

  /** An unknown field between whole fields does not change what is decoded, nor whether anything is. */
  lemma RpcIgnoresUnknown(a: seq<U8>, u: seq<U8>, b: seq<U8>, out: RpcResponse)
    requires DecodeRpc(a, out).Some? && IsUnknownField(u, RPC_FIELDS)
    ensures DecodeRpc(a + u + b, out) == DecodeRpc(a + b, out)
  {
    var mid := DecodeRpc(a, out).value;
    assert a + u + b == a + (u + b);
    DecodeRpcConcat(a, u + b, out);
    RpcUnknownAlone(u, mid);
    DecodeRpcConcat(u, b, mid);
    DecodeRpcConcat(a, b, out);
  }

  lemma RpcUnknownAlone(u: seq<U8>, out: RpcResponse)
    requires IsUnknownField(u, RPC_FIELDS)
    ensures DecodeRpc(u, out) == Some(out)
  {
    var t := ReadTag(u);
    assert PutRpc(out, t.value.value.0, t.value.value.1, t.rest) == Read(Some(out), []);
  }

  /** A field as a decoder that knows it expects it. */
  predicate WellTyped(x: Field) {
    Encodable(x) && (x.f in {1, 2} ==> x.BytesField?) && (x.f == 3 ==> x.VarintField?)
  }

  function Apply(x: Field, out: RpcResponse): RpcResponse
    requires WellTyped(x)
  {
    if x.f == 1 then out.(error := Some(x.b))
    else if x.f == 2 then out.(payload := Some(x.b))
    else if x.f == 3 then out.(idx := AsI32(x.v))
    else out
  }

  /** The meaning of a list of fields: of each known one, the last. */
  function Meaning(xs: seq<Field>, out: RpcResponse): RpcResponse
    requires forall i :: 0 <= i < |xs| ==> WellTyped(xs[i])
  {
    if xs == [] then out else assert WellTyped(xs[0]); Meaning(xs[1..], Apply(xs[0], out))
  }

  lemma PutField(x: Field, out: RpcResponse, t: seq<U8>)
    requires WellTyped(x)
    ensures PutRpc(out, x.f, Wire(x), Contents(x) + t) == Read(Some(Apply(x, out)), t)
  {
    match x
    case VarintField(_, v) =>
      CapIs64Bits();
      VarintRoundTrip(v, t, 0);
    case BytesField(_, b) => BytesRoundTrip(b, t);
  }

  /** What the writer wrote is decoded to its meaning. */
  lemma {:induction false} RpcRoundTrip(xs: seq<Field>, out: RpcResponse)
    requires forall i :: 0 <= i < |xs| ==> WellTyped(xs[i])
    ensures DecodeRpc(EncodeAll(xs), out) == Some(Meaning(xs, out))
  {
    if xs != [] {
      var x, s := xs[0], EncodeAll(xs[1..]);
      EncodeSplits(x, s);
      TagRoundTrip(x.f, Wire(x), Contents(x) + s);
      PutField(x, out, s);
      RpcRoundTrip(xs[1..], Apply(x, out));
    }
  }

  // ── Broken responses ─────────────────────────────────────────────────

  /** Why the contents of field `f` cannot be taken from `s`, which begins at position `pos`. */
  function PutError(f: nat, wire: nat, s: seq<U8>, pos: nat): ProtoError {
    if f == 1 || f == 2 then BytesError(s, pos) else if f == 3 then Eof else SkipError(s, pos, wire)
  }

  /** The error of the first reading that fails, in a buffer of length `end` of which `s` is the rest. */
  function RpcFailure(s: seq<U8>, out: RpcResponse, end: nat): ProtoError
    requires |s| <= end && DecodeRpc(s, out).None?
    decreases |s|
  {
    var t := ReadTag(s);
    if t.value.None? then Eof
    else
      var (f, wire) := t.value.value;
      var r := PutRpc(out, f, wire, t.rest);
      if r.value.None? then PutError(f, wire, t.rest, end - |t.rest|) else RpcFailure(r.rest, r.value.value, end)
  }

  lemma {:induction false} RpcFailureConcat(a: seq<U8>, b: seq<U8>, out: RpcResponse, end: nat)
    requires DecodeRpc(a, out).Some? && DecodeRpc(b, DecodeRpc(a, out).value).None? && |a + b| <= end
    ensures DecodeRpc(a + b, out).None? && RpcFailure(a + b, out, end) == RpcFailure(b, DecodeRpc(a, out).value, end)
    decreases |a|
  {
    DecodeRpcConcat(a, b, out);
    if a == [] {
      assert a + b == b;
    } else {
      var t := ReadTag(a);
      TagExtends(a, b);
      PutRpcExtends(out, t.value.value.0, t.value.value.1, t.rest, b);
      var r := PutRpc(out, t.value.value.0, t.value.value.1, t.rest);
      RpcFailureConcat(r.rest, b, r.value.value, end);
    }
  }

  lemma {:induction false} RpcFailureMoves(s: seq<U8>, out: RpcResponse, end: nat, d: nat)
    requires |s| <= end && DecodeRpc(s, out).None?
    ensures var e, e' := RpcFailure(s, out, end), RpcFailure(s, out, end + d);
      e' == e || (e.TruncatedLength? && e' == Eof && end + d + e.need >= 0x1_0000_0000_0000_0000)
    decreases |s|
  {
    var t := ReadTag(s);
    if t.value.Some? {
      var r := PutRpc(out, t.value.value.0, t.value.value.1, t.rest);
      if r.value.Some? { RpcFailureMoves(r.rest, r.value.value, end, d); }
    }
  }

  /** An unknown field between whole fields changes the error of a broken message at most from a truncation to an
      early end, and that only for a length within the buffer's own length of 2^64. */
  lemma RpcErrorIgnoresUnknown(a: seq<U8>, u: seq<U8>, b: seq<U8>, out: RpcResponse)
    requires DecodeRpc(a, out).Some? && IsUnknownField(u, RPC_FIELDS) && DecodeRpc(a + b, out).None?
    ensures DecodeRpc(a + u + b, out).None?
    ensures var e, e' := RpcFailure(a + b, out, |a + b|), RpcFailure(a + u + b, out, |a + u + b|);
      e' == e || (e.TruncatedLength? && e' == Eof && |a + u + b| + e.need >= 0x1_0000_0000_0000_0000)
  {
    hide DecodeRpc, RpcFailure, IsUnknownField;
    var mid := DecodeRpc(a, out).value;
    RpcIgnoresUnknown(a, u, b, out);
    DecodeRpcConcat(a, b, out);
    RpcFailureConcat(a, b, out, |a + b|);
    assert a + u + b == a + (u + b);
    RpcUnknownAlone(u, mid);
    RpcFailureConcat(u, b, mid, |a + u + b|);
    RpcFailureConcat(a, u + b, out, |a + u + b|);
    RpcFailureMoves(b, mid, |a + b|, |u|);
  }

  method TakeRpcField(reader: ProtoReader, out: RpcResponse, f: nat, w: nat) returns (r: Result<RpcResponse>)
    requires reader.Valid()
    modifies reader
    ensures reader.Valid() && reader.Rest() == PutRpc(out, f, w, old(reader.Rest())).rest
    ensures PutRpc(out, f, w, old(reader.Rest())).value == if r.Ok? then Some(r.value) else None
    ensures r.Err? ==> r.error == PutError(f, w, old(reader.Rest()), old(reader.pos))
  {
    if f == 1 || f == 2 {
      var b := reader.Bytes();
      if b.Err? { return Err(b.error); }
      r := Ok(if f == 1 then out.(error := Some(b.value)) else out.(payload := Some(b.value)));
    } else if f == 3 {
      var v := reader.Varint();
      if v.Err? { return Err(v.error); }
      r := Ok(out.(idx := AsI32(v.value)));
    } else {
      var k := reader.Skip(w);
      r := if k.Ok? then Ok(out) else Err(k.error);
    }
  }

  method RpcTurn(reader: ProtoReader, out: RpcResponse) returns (r: Result<RpcResponse>)
    requires reader.Valid() && reader.Rest() != []
    modifies reader
    ensures reader.Valid() && |reader.Rest()| < |old(reader.Rest())|
    ensures DecodeRpc(old(reader.Rest()), out) == if r.Ok? then DecodeRpc(reader.Rest(), r.value) else None
    ensures r.Err? ==> r.error == RpcFailure(old(reader.Rest()), out, |reader.buf|)
    ensures r.Ok? && DecodeRpc(reader.Rest(), r.value).None? ==>
      RpcFailure(old(reader.Rest()), out, |reader.buf|) == RpcFailure(reader.Rest(), r.value, |reader.buf|)
  {
    var tag := reader.Tag();
    if tag.Err? { return Err(tag.error); }
    r := TakeRpcField(reader, out, tag.value.0, tag.value.1);
  }

  /** The decoder's loop. Its error is that of the first reading that fails. */
  method DecodeRpcResponse(buf: seq<U8>) returns (r: Result<RpcResponse>)
    requires |buf| < 0x1_0000_0000_0000_0000
    ensures DecodeRpc(buf, EMPTY_RESPONSE) == if r.Ok? then Some(r.value) else None
    ensures r.Err? ==> r.error == RpcFailure(buf, EMPTY_RESPONSE, |buf|)
  {
    var reader := new ProtoReader(buf);
    var out := EMPTY_RESPONSE;
    while reader.pos < |reader.buf|
      invariant fresh(reader) && reader.Valid() && reader.buf == buf
      invariant DecodeRpc(reader.Rest(), out) == DecodeRpc(buf, EMPTY_RESPONSE)
      invariant DecodeRpc(reader.Rest(), out).None? ==>
          RpcFailure(reader.Rest(), out, |buf|) == RpcFailure(buf, EMPTY_RESPONSE, |buf|)
      decreases |reader.Rest()|
    {
      r := RpcTurn(reader, out);
      if r.Err? { return; }
      out := r.value;
    }
    r := Ok(out);
  }

  // ── Call entities ────────────────────────────────────────────────────

  /** UTF-8 as RFC 3629 defines it: no overlong forms, no surrogates, nothing beyond U+10FFFF. */
  predicate ValidUtf8(s: seq<U8>) {
    if s == [] then true
    else
      var n := Utf8Length(s);
      n > 0 && ValidUtf8(s[n..])
  }

  /** The length of the encoded character at the front, or 0. */
  function Utf8Length(s: seq<U8>): (n: nat)
    requires s != []
    ensures n <= |s|
  {
    var b := s[0];
    if b < 0x80 then 1
    else if 0xc2 <= b < 0xe0 && |s| >= 2 && Between(s[1], 0x80, 0xbf) then 2
    else if 0xe0 <= b < 0xf0 && |s| >= 3 && Between(s[2], 0x80, 0xbf)
      && Between(s[1], if b == 0xe0 then 0xa0 else 0x80, if b == 0xed then 0x9f else 0xbf) then 3
    else if 0xf0 <= b < 0xf5 && |s| >= 4 && Between(s[2], 0x80, 0xbf) && Between(s[3], 0x80, 0xbf)
      && Between(s[1], if b == 0xf0 then 0x90 else 0x80, if b == 0xf4 then 0x8f else 0xbf) then 4
    else 0
  }

  predicate Between(b: U8, lo: U8, hi: U8) { lo <= b <= hi }

  /** A string field's value; invalid UTF-8 and broken framing give the empty string. */
  function StringOr(r: Read<seq<U8>>): seq<U8> {
    if r.value.Some? && ValidUtf8(r.value.value) then r.value.value else []
  }

  function VarintOr(r: Read<nat>): nat { if r.value.Some? then r.value.value else 0 }

  datatype RpcError = RpcError(code: int, message: seq<U8>)

  /** An error envelope, read on top of `e` as far as it can be. */
  function ParseRpcError(s: seq<U8>, e: RpcError): RpcError
    decreases |s|
  {
    if s == [] then e
    else
      var t := ReadTag(s);
      if t.value.None? then e
      else if t.value.value.0 == 1 then
        var v := ReadVarint(t.rest, 0);
        ParseRpcError(v.rest, e.(code := AsI32(VarintOr(v))))
      else if t.value.value.0 == 2 then
        var b := ReadBytes(t.rest);
        ParseRpcError(b.rest, e.(message := StringOr(b)))
      else
        var k := SkipField(t.rest, t.value.value.1);
        if k.value.None? then e else ParseRpcError(k.rest, e)
  }

  /** The string in `{ f1 = string }`. */
  function ParseWrapped(s: seq<U8>): seq<U8>
    decreases |s|
  {
    if s == [] then []
    else
      var t := ReadTag(s);
      if t.value.None? then []
      else if t.value.value.0 == 1 then StringOr(ReadBytes(t.rest))
      else
        var k := SkipField(t.rest, t.value.value.1);
        if k.value.None? then [] else ParseWrapped(k.rest)
  }

  datatype CallEntity = CallEntity(
    callId: int, token: seq<U8>, room: seq<U8>, url: seq<U8>, video: bool, createDate: int, startDate: int,
    callerId: int, duration: int, discardReason: int, isLivekit: bool)

  const EMPTY_CALL := CallEntity(0, [], [], [], false, 0, 0, 0, 0, 0, false)

  const CALL_FIELDS: set<nat> := {1, 2, 3, 4, 5, 6, 7, 8, 10, 11, 12}

  /** The call after a field, what is left unread, and whether the field was whole. */
  datatype Filled = Filled(call: CallEntity, rest: seq<U8>, whole: bool)

  /** A broken known field takes its default, and reading goes on behind what was consumed. */
  function FillCall(c: CallEntity, f: nat, wire: nat, s: seq<U8>): (r: Filled)
    ensures |r.rest| <= |s|
  {
    if f in {2, 3, 4} then
      var b := ReadBytes(s);
      Filled(SetBytes(c, f, b), b.rest, b.value.Some?)
    else if f in CALL_FIELDS then
      var v := ReadVarint(s, 0);
      Filled(SetVarint(c, f, VarintOr(v)), v.rest, v.value.Some?)
    else
      var k := SkipField(s, wire);
      Filled(c, k.rest, k.value.Some?)
  }

  function SetBytes(c: CallEntity, f: nat, b: Read<seq<U8>>): CallEntity {
    match f
    case 2 => c.(token := StringOr(b))
    case 3 => c.(room := StringOr(b))
    case _ => c.(url := ParseWrapped(if b.value.Some? then b.value.value else []))
  }

  function SetVarint(c: CallEntity, f: nat, v: nat): CallEntity {
    match f
    case 1 => c.(callId := AsI64(v))
    case 5 => c.(video := v != 0)
    case 6 => c.(createDate := AsI64(v))
    case 7 => c.(startDate := AsI64(v))
    case 8 => c.(callerId := AsI64(v))
    case 10 => c.(duration := AsI32(v))
    case 11 => c.(discardReason := AsI32(v))
    case _ => c.(isLivekit := v != 0)
  }

  function ParseCall(s: seq<U8>, c: CallEntity): CallEntity
    decreases |s|
  {
    if s == [] then c
    else
      var t := ReadTag(s);
      if t.value.None? then c
      else
        var (f, wire) := t.value.value;
        var r := FillCall(c, f, wire, t.rest);
        if f !in CALL_FIELDS && !r.whole then c else ParseCall(r.rest, r.call)
  }

  /** `s` consists of whole fields. */
  predicate WholeCall(s: seq<U8>)
    decreases |s|
  {
    s == [] ||
    var t := ReadTag(s);
    t.value.Some? &&
    var r := FillCall(EMPTY_CALL, t.value.value.0, t.value.value.1, t.rest);
    r.whole && WholeCall(r.rest)
  }

  lemma FillCallExtends(c: CallEntity, f: nat, wire: nat, s: seq<U8>, t: seq<U8>)
    requires FillCall(EMPTY_CALL, f, wire, s).whole
    ensures FillCall(c, f, wire, s + t)
      == FillCall(c, f, wire, s).(rest := FillCall(EMPTY_CALL, f, wire, s).rest + t, whole := true)
    ensures FillCall(c, f, wire, s).rest == FillCall(EMPTY_CALL, f, wire, s).rest && FillCall(c, f, wire, s).whole
  {
    if f in {2, 3, 4} {
      BytesExtends(s, t);
    } else if f in CALL_FIELDS {
      VarintExtends(s, t, 0);
    } else {
      SkipExtends(s, t, wire);
    }
  }

  lemma {:induction false} ParseCallConcat(a: seq<U8>, b: seq<U8>, c: CallEntity)
    requires WholeCall(a)
    ensures ParseCall(a + b, c) == ParseCall(b, ParseCall(a, c))
    decreases |a|
  {
    if a == [] {
      assert a + b == b;
    } else {
      var t := ReadTag(a);
      TagExtends(a, b);
      FillCallExtends(c, t.value.value.0, t.value.value.1, t.rest, b);
      var r := FillCall(c, t.value.value.0, t.value.value.1, t.rest);
      ParseCallConcat(r.rest, b, r.call);
    }
  }

  lemma CallUnknownAlone(u: seq<U8>, c: CallEntity)
    requires IsUnknownField(u, CALL_FIELDS)
    ensures WholeCall(u) && ParseCall(u, c) == c
  {
    var t := ReadTag(u);
    assert FillCall(c, t.value.value.0, t.value.value.1, t.rest) == Filled(c, [], true);
    assert FillCall(EMPTY_CALL, t.value.value.0, t.value.value.1, t.rest) == Filled(EMPTY_CALL, [], true);
  }

  /** An unknown field behind whole fields does not change the call, whatever follows it, broken or not. */
  lemma CallIgnoresUnknown(a: seq<U8>, u: seq<U8>, b: seq<U8>, c: CallEntity)
    requires WholeCall(a) && IsUnknownField(u, CALL_FIELDS)
    ensures ParseCall(a + u + b, c) == ParseCall(a + b, c)
  {
    var mid := ParseCall(a, c);
    assert a + u + b == a + (u + b);
    ParseCallConcat(a, u + b, c);
    CallUnknownAlone(u, mid);
    ParseCallConcat(u, b, mid);
    ParseCallConcat(a, b, c);
  }

  method TakeCallField(reader: ProtoReader, c: CallEntity, f: nat, w: nat) returns (c': CallEntity, go: bool)
    requires reader.Valid()
    modifies reader
    ensures var r := FillCall(c, f, w, old(reader.Rest()));
      && reader.Valid() && reader.Rest() == r.rest && c' == r.call
      && (go <==> f in CALL_FIELDS || r.whole)
  {
    if f in {2, 3, 4} {
      var b := reader.Bytes();
      c', go := SetBytes(c, f, Read(if b.Ok? then Some(b.value) else None, [])), true;
    } else if f in CALL_FIELDS {
      var v := reader.Varint();
      c', go := SetVarint(c, f, if v.Ok? then v.value else 0), true;
    } else {
      var k := reader.Skip(w);
      c', go := c, k.Ok?;
    }
  }

  method CallTurn(reader: ProtoReader, c: CallEntity) returns (c': CallEntity, go: bool)
    requires reader.Valid() && reader.Rest() != []
    modifies reader
    ensures reader.Valid() && |reader.Rest()| < |old(reader.Rest())|
    ensures ParseCall(old(reader.Rest()), c) == if go then ParseCall(reader.Rest(), c') else c'
  {
    var tag := reader.Tag();
    if tag.Err? { return c, false; }
    c', go := TakeCallField(reader, c, tag.value.0, tag.value.1);
  }

  method ParseCallEntity(buf: seq<U8>) returns (c: CallEntity)
    requires |buf| < 0x1_0000_0000_0000_0000
    ensures c == ParseCall(buf, EMPTY_CALL)
  {
    var reader := new ProtoReader(buf);
    c := EMPTY_CALL;
    while reader.pos < |reader.buf|
      invariant fresh(reader) && reader.Valid()
      invariant ParseCall(reader.Rest(), c) == ParseCall(buf, EMPTY_CALL)
      decreases |reader.Rest()|
    {
      var go;
      c, go := CallTurn(reader, c);
      if !go { return; }
    }
  }

  // ── Written messages are read back ───────────────────────────────────

  predicate CallTyped(x: Field) {
    Encodable(x) && x.f in CALL_FIELDS && (x.BytesField? <==> x.f in {2, 3, 4})
  }

  function ApplyCall(x: Field, c: CallEntity): CallEntity
    requires CallTyped(x)
  {
    match x
    case VarintField(f, v) => SetVarint(c, f, v)
    case BytesField(f, b) => SetBytes(c, f, Read(Some(b), []))
  }

  lemma ParseCallField(x: Field, s: seq<U8>, c: CallEntity)
    requires CallTyped(x)
    ensures ParseCall(Encode(x) + s, c) == ParseCall(s, ApplyCall(x, c))
  {
    EncodeSplits(x, s);
    TagRoundTrip(x.f, Wire(x), Contents(x) + s);
    match x
    case VarintField(_, v) =>
      CapIs64Bits();
      VarintRoundTrip(v, s, 0);
    case BytesField(_, b) => BytesRoundTrip(b, s);
  }

  function MeaningCall(xs: seq<Field>, c: CallEntity): CallEntity
    requires forall i :: 0 <= i < |xs| ==> CallTyped(xs[i])
  {
    if xs == [] then c else ApplyCall(xs[|xs| - 1], MeaningCall(xs[..|xs| - 1], c))
  }

  lemma {:induction false} MeaningCallCons(xs: seq<Field>, c: CallEntity)
    requires xs != [] && forall i :: 0 <= i < |xs| ==> CallTyped(xs[i])
    ensures MeaningCall(xs, c) == MeaningCall(xs[1..], ApplyCall(xs[0], c))
    decreases |xs|
  {
    hide ApplyCall, CallTyped;
    var n := |xs| - 1;
    if n > 0 {
      MeaningCallCons(xs[..n], c);
      assert xs[..n][1..] == xs[1..][..n - 1];
    }
  }

  lemma {:induction false} ParseCallFields(xs: seq<Field>, c: CallEntity)
    requires forall i :: 0 <= i < |xs| ==> CallTyped(xs[i])
    ensures ParseCall(EncodeAll(xs), c) == MeaningCall(xs, c)
    decreases |xs|
  {
    if xs != [] {
      ParseCallField(xs[0], EncodeAll(xs[1..]), c);
      ParseCallFields(xs[1..], ApplyCall(xs[0], c));
      MeaningCallCons(xs, c);
    }
  }

  predicate IsI32(v: int) { -0x8000_0000 <= v < 0x8000_0000 }

  predicate IsI64(v: int) { -0x8000_0000_0000_0000 <= v < 0x8000_0000_0000_0000 }

  predicate IsString(s: seq<U8>) { ValidUtf8(s) && |s| < 0x1_0000_0000 }

  predicate Representable(c: CallEntity) {
    && IsI64(c.callId) && IsString(c.token) && IsString(c.room) && IsString(c.url)
    && IsI64(c.createDate) && IsI64(c.startDate) && IsI64(c.callerId) && IsI32(c.duration) && IsI32(c.discardReason)
  }

  function Flag(b: bool): U64 { if b then 1 else 0 }

  /** The fields of a call, by the numbers of the field map; the URL is wrapped in a message of its own. */
  function CallFields(c: CallEntity): seq<Field>
    requires Representable(c)
  {
    [VarintField(1, OfI64(c.callId)), BytesField(2, c.token), BytesField(3, c.room),
     BytesField(4, Encode(BytesField(1, c.url))), VarintField(5, Flag(c.video)), VarintField(6, OfI64(c.createDate)),
     VarintField(7, OfI64(c.startDate)), VarintField(8, OfI64(c.callerId)), VarintField(10, OfI32(c.duration)),
     VarintField(11, OfI32(c.discardReason)), VarintField(12, Flag(c.isLivekit))]
  }

  lemma WrappedRoundTrip(url: seq<U8>)
    requires IsString(url)
    ensures ParseWrapped(Encode(BytesField(1, url))) == url
    ensures |Encode(BytesField(1, url))| < 0x1_0000_0000_0000_0000
  {
    var x := BytesField(1, url);
    EncodeSplits(x, []);
    assert Encode(x) + [] == Encode(x) && Contents(x) + [] == Contents(x);
    TagRoundTrip(1, 2, Contents(x));
    BytesRoundTrip(url, []);
    CapIs64Bits();
    VarintRoundTrip(1 * 8 + 2, [], 0);
    VarintRoundTrip(|url|, [], 0);
  }

  /** The meaning of the first `n` fields, one at a time. */
  lemma MeaningUpTo(xs: seq<Field>, n: nat, c: CallEntity)
    requires n < |xs| && forall i :: 0 <= i < |xs| ==> CallTyped(xs[i])
    ensures MeaningCall(xs[..n + 1], c) == ApplyCall(xs[n], MeaningCall(xs[..n], c))
  {
    assert xs[..n + 1][..n] == xs[..n];
  }

  lemma CallFieldsTyped(c: CallEntity, xs: seq<Field>)
    requires Representable(c) && xs == CallFields(c) && |xs[3].b| < 0x1_0000_0000_0000_0000
    ensures forall i :: 0 <= i < |xs| ==> CallTyped(xs[i])
  {
  }

  /** Every call is read back from its fields. */
  lemma CallRoundTrip(c: CallEntity)
    requires Representable(c)
    ensures ParseCall(EncodeAll(CallFields(c)), EMPTY_CALL) == c
  {
    var xs := CallFields(c);
    WrappedRoundTrip(c.url);
    CallFieldsTyped(c, xs);
    ParseCallFields(xs, EMPTY_CALL);
    CallMeaning(c, xs);
    assert xs[..11] == xs;
  }

  lemma CallMeaning(c: CallEntity, xs: seq<Field>)
    requires Representable(c) && xs == CallFields(c) && ParseWrapped(xs[3].b) == c.url
    requires forall i :: 0 <= i < |xs| ==> CallTyped(xs[i])
    ensures MeaningCall(xs[..11], EMPTY_CALL) == c
  {
    FirstFields(c, xs);
    MiddleFields(c, xs);
    LastFields(c, xs);
  }

  lemma FirstFields(c: CallEntity, xs: seq<Field>)
    requires Representable(c) && xs == CallFields(c) && ParseWrapped(xs[3].b) == c.url
    requires forall i :: 0 <= i < |xs| ==> CallTyped(xs[i])
    ensures MeaningCall(xs[..4], EMPTY_CALL)
      == EMPTY_CALL.(callId := c.callId, token := c.token, room := c.room, url := c.url)
  {
    SignedRoundTrip(c.callId);
    assert MeaningCall(xs[..0], EMPTY_CALL) == EMPTY_CALL;
    MeaningUpTo(xs, 0, EMPTY_CALL);
    MeaningUpTo(xs, 1, EMPTY_CALL);
    MeaningUpTo(xs, 2, EMPTY_CALL);
    MeaningUpTo(xs, 3, EMPTY_CALL);
  }

  lemma MiddleFields(c: CallEntity, xs: seq<Field>)
    requires Representable(c) && xs == CallFields(c)
    requires forall i :: 0 <= i < |xs| ==> CallTyped(xs[i])
    ensures MeaningCall(xs[..8], EMPTY_CALL)
      == MeaningCall(xs[..4], EMPTY_CALL).(video := c.video, createDate := c.createDate, startDate := c.startDate,
                                           callerId := c.callerId)
  {
    SignedRoundTrip(c.createDate);
    SignedRoundTrip(c.startDate);
    SignedRoundTrip(c.callerId);
    MeaningUpTo(xs, 4, EMPTY_CALL);
    MeaningUpTo(xs, 5, EMPTY_CALL);
    MeaningUpTo(xs, 6, EMPTY_CALL);
    MeaningUpTo(xs, 7, EMPTY_CALL);
  }

  lemma LastFields(c: CallEntity, xs: seq<Field>)
    requires Representable(c) && xs == CallFields(c)
    requires forall i :: 0 <= i < |xs| ==> CallTyped(xs[i])
    ensures MeaningCall(xs[..11], EMPTY_CALL)
      == MeaningCall(xs[..8], EMPTY_CALL).(duration := c.duration, discardReason := c.discardReason,
                                           isLivekit := c.isLivekit)
  {
    SignedRoundTrip(c.duration);
    SignedRoundTrip(c.discardReason);
    MeaningUpTo(xs, 8, EMPTY_CALL);
    MeaningUpTo(xs, 9, EMPTY_CALL);
    MeaningUpTo(xs, 10, EMPTY_CALL);
  }

  lemma ErrorCode(v: U64, s: seq<U8>, e: RpcError)
    ensures ParseRpcError(Encode(VarintField(1, v)) + s, e) == ParseRpcError(s, e.(code := AsI32(v)))
  {
    var x := VarintField(1, v);
    CapIs64Bits();
    EncodeSplits(x, s);
    TagRoundTrip(1, 0, Contents(x) + s);
    VarintRoundTrip(v, s, 0);
  }

  lemma ErrorMessage(m: seq<U8>, s: seq<U8>, e: RpcError)
    requires IsString(m)
    ensures ParseRpcError(Encode(BytesField(2, m)) + s, e) == ParseRpcError(s, e.(message := m))
  {
    var x := BytesField(2, m);
    EncodeSplits(x, s);
    TagRoundTrip(2, 2, Contents(x) + s);
    BytesRoundTrip(m, s);
  }

  /** An error envelope is read back. */
  lemma RpcErrorRoundTrip(e: RpcError)
    requires IsI32(e.code) && IsString(e.message)
    ensures ParseRpcError(Encode(VarintField(1, OfI32(e.code))) + Encode(BytesField(2, e.message)), RpcError(0, [])) == e
  {
    var y := Encode(BytesField(2, e.message));
    SignedRoundTrip(e.code);
    ErrorCode(OfI32(e.code), y, RpcError(0, []));
    ErrorMessage(e.message, [], RpcError(e.code, []));
    assert y + [] == y;
  }
}

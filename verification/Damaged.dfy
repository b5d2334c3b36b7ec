/** What the decoders make of damaged and unusual messages. */
module Damaged {
  import opened Wrappers
  import opened Bytes
  import opened Proto
  import opened Messages

  // ── Damage ───────────────────────────────────────────────────────────

  /** A length behind which the buffer is too short. */
  predicate TooLong(n: nat, rest: seq<U8>) { |rest| < n < 0x1_0000_0000_0000_0000 }

  lemma TooLongIsRead(n: nat, rest: seq<U8>)
    requires TooLong(n, rest)
    ensures ReadBytes(EncodeVarint(n) + rest) == Read(None, rest)
  {
    hide ReadVarint, EncodeVarint, Cap;
    CapIs64Bits();
    VarintRoundTrip(n, rest, 0);
  }

  /** Ten bytes that each announce another. */
  predicate Endless(s: seq<U8>) { |s| == 10 && forall i :: 0 <= i < 10 ==> s[i] >= 128 }

  lemma {:induction false} EndlessFrom(s: seq<U8>, rest: seq<U8>, k: nat)
    requires k <= 9 && |s| == 10 - k && forall i :: 0 <= i < |s| ==> s[i] >= 128
    ensures ReadVarint(s + rest, k) == Read(None, rest)
    decreases |s|
  {
    assert (s + rest)[1..] == s[1..] + rest;
    if k < 9 {
      EndlessFrom(s[1..], rest, k + 1);
    } else {
      assert s[1..] + rest == rest;
    }
  }

  // ── Calls ────────────────────────────────────────────────────────────

  predicate IsTextField(f: nat) { f == 2 || f == 3 || f == 4 }

  predicate IsNumberField(f: nat) { f in {1, 5, 6, 7, 8, 10, 11, 12} }

  lemma CallTurn(f: U32, w: nat, s: seq<U8>, c: CallEntity)
    requires w < 8 && f in CALL_FIELDS
    ensures ParseCall(EncodeTag(f, w) + s, c) == ParseCall(FillCall(c, f, w, s).rest, FillCall(c, f, w, s).call)
  {
    hide FillCall, EncodeTag, ReadTag;
    TagRoundTrip(f, w, s);
  }

  /** The wire type of a known field is not looked at. */
  lemma CallWireTypeIgnored(x: Field, w: nat, s: seq<U8>, c: CallEntity)
    requires w < 8 && CallTyped(x)
    ensures ParseCall(EncodeTag(x.f, w) + (Contents(x) + s), c) == ParseCall(Encode(x) + s, c)
  {
    hide EncodeTag, ReadBytes, ReadVarint, Contents, ParseCall, SetBytes, SetVarint;
    EncodeSplits(x, s);
    CallTurn(x.f, w, Contents(x) + s, c);
    CallTurn(x.f, Wire(x), Contents(x) + s, c);
  }

  /** A text field that is cut short is empty, and reading goes on behind its length. */
  lemma CutTextIsEmpty(f: U32, w: nat, n: nat, rest: seq<U8>, c: CallEntity)
    requires w < 8 && IsTextField(f) && TooLong(n, rest)
    ensures ParseCall(EncodeTag(f, w) + (EncodeVarint(n) + rest), c) == ParseCall(rest,
      if f == 2 then c.(token := []) else if f == 3 then c.(room := []) else c.(url := []))
  {
    hide EncodeTag, ReadBytes, EncodeVarint, ParseCall;
    CallTurn(f, w, EncodeVarint(n) + rest, c);
    TooLongIsRead(n, rest);
  }

  /** Text that is not UTF-8 is empty, and reading goes on behind it. */
  lemma BadTextIsEmpty(f: U32, w: nat, b: seq<U8>, rest: seq<U8>, c: CallEntity)
    requires w < 8 && (f == 2 || f == 3) && |b| < 0x1_0000_0000_0000_0000 && !ValidUtf8(b)
    ensures ParseCall(EncodeTag(f, w) + (EncodeVarint(|b|) + b + rest), c)
      == ParseCall(rest, if f == 2 then c.(token := []) else c.(room := []))
  {
    hide EncodeTag, ReadBytes, EncodeVarint, ParseCall, ValidUtf8;
    CallTurn(f, w, EncodeVarint(|b|) + b + rest, c);
    BytesRoundTrip(b, rest);
  }

  /** A number that does not end within ten bytes is zero, and reading goes on behind them. */
  lemma EndlessNumberIsZero(f: U32, w: nat, s: seq<U8>, rest: seq<U8>, c: CallEntity)
    requires w < 8 && IsNumberField(f) && Endless(s)
    ensures ParseCall(EncodeTag(f, w) + (s + rest), c) == ParseCall(rest,
      match f
      case 1 => c.(callId := 0)
      case 5 => c.(video := false)
      case 6 => c.(createDate := 0)
      case 7 => c.(startDate := 0)
      case 8 => c.(callerId := 0)
      case 10 => c.(duration := 0)
      case 11 => c.(discardReason := 0)
      case _ => c.(isLivekit := false))
  {
    hide EncodeTag, ReadVarint, ParseCall;
    CallTurn(f, w, s + rest, c);
    EndlessFrom(s, rest, 0);
  }

  /** The contents of a field of wire type `w` are damaged: endless, cut short, or of no supported type. */
  ghost predicate Broken(w: nat, s: seq<U8>) {
    match w
    case 0 => |s| >= 10 && Endless(s[..10])
    case 1 => |s| < 8
    case 2 => exists n: nat, rest :: TooLong(n, rest) && s == EncodeVarint(n) + rest
    case 5 => |s| < 4
    case _ => true
  }

  lemma BrokenIsNotSkipped(w: nat, s: seq<U8>)
    requires Broken(w, s)
    ensures SkipField(s, w).value == None
  {
    hide ReadVarint, EncodeVarint, ReadBytes;
    if w == 0 {
      assert s == s[..10] + s[10..];
      EndlessFrom(s[..10], s[10..], 0);
    } else if w == 2 {
      var n: nat, rest :| TooLong(n, rest) && s == EncodeVarint(n) + rest;
      TooLongIsRead(n, rest);
    }
  }

  /** A damaged unknown field ends a call, of which what was read so far stands, and a response, which is refused. */
  lemma BrokenUnknownEnds(f: U32, w: nat, s: seq<U8>, c: CallEntity, out: RpcResponse)
    requires w < 8 && Broken(w, s)
    ensures f !in CALL_FIELDS ==> ParseCall(EncodeTag(f, w) + s, c) == c
    ensures f !in RPC_FIELDS ==> DecodeRpc(EncodeTag(f, w) + s, out) == None
  {
    hide EncodeTag, ReadTag, SkipField, Broken;
    BrokenIsNotSkipped(w, s);
    TagRoundTrip(f, w, s);
  }

  // ── Responses ────────────────────────────────────────────────────────

  lemma RpcTurn(f: U32, w: nat, s: seq<U8>, out: RpcResponse)
    requires w < 8
    ensures DecodeRpc(EncodeTag(f, w) + s, out)
      == (var r := PutRpc(out, f, w, s); if r.value.None? then None else DecodeRpc(r.rest, r.value.value))
  {
    hide PutRpc, EncodeTag, ReadTag;
    TagRoundTrip(f, w, s);
  }

  lemma RpcWireTypeIgnored(x: Field, w: nat, s: seq<U8>, out: RpcResponse)
    requires w < 8 && WellTyped(x) && x.f in RPC_FIELDS
    ensures DecodeRpc(EncodeTag(x.f, w) + (Contents(x) + s), out) == DecodeRpc(Encode(x) + s, out)
  {
    hide EncodeTag, ReadBytes, ReadVarint, Contents, DecodeRpc;
    EncodeSplits(x, s);
    RpcTurn(x.f, w, Contents(x) + s, out);
    RpcTurn(x.f, Wire(x), Contents(x) + s, out);
  }

  /** A response with a field cut short, an endless index or an unsupported wire type is refused. */
  lemma DamagedResponseIsRefused(f: U32, w: nat, n: nat, s: seq<U8>, rest: seq<U8>, out: RpcResponse)
    requires w < 8
    ensures (f == 1 || f == 2) && TooLong(n, rest) ==> DecodeRpc(EncodeTag(f, w) + (EncodeVarint(n) + rest), out) == None
    ensures f == 3 && Endless(s) ==> DecodeRpc(EncodeTag(f, w) + (s + rest), out) == None
    ensures f !in RPC_FIELDS && w !in {0, 1, 2, 5} ==> DecodeRpc(EncodeTag(f, w) + rest, out) == None
  {
    hide EncodeTag, ReadBytes, ReadVarint, EncodeVarint, DecodeRpc;
    RpcTurn(f, w, EncodeVarint(n) + rest, out);
    RpcTurn(f, w, s + rest, out);
    RpcTurn(f, w, rest, out);
    if TooLong(n, rest) { TooLongIsRead(n, rest); }
    if Endless(s) { EndlessFrom(s, rest, 0); }
  }

  // ── Errors and wrapped strings ───────────────────────────────────────

  /** In an error envelope, an unknown field changes nothing, a message that is cut short is empty, and reading goes on. */
  lemma ErrorIsLenient(u: seq<U8>, w: nat, n: nat, s: seq<U8>, rest: seq<U8>, e: RpcError)
    requires w < 8
    ensures IsUnknownField(u, {1, 2}) ==> ParseRpcError(u + rest, e) == ParseRpcError(rest, e)
    ensures TooLong(n, rest) ==> ParseRpcError(EncodeTag(2, w) + (EncodeVarint(n) + rest), e) == ParseRpcError(rest, e.(message := []))
    ensures Endless(s) ==> ParseRpcError(EncodeTag(1, w) + (s + rest), e) == ParseRpcError(rest, e.(code := 0))
  {
    hide EncodeTag, ReadTag, ReadBytes, ReadVarint, EncodeVarint, SkipField;
    if IsUnknownField(u, {1, 2}) { UnknownInFront(u, rest, {1, 2}); }
    TagRoundTrip(2, w, EncodeVarint(n) + rest);
    TagRoundTrip(1, w, s + rest);
    if TooLong(n, rest) { TooLongIsRead(n, rest); }
    if Endless(s) { EndlessFrom(s, rest, 0); }
  }

  lemma UnknownInFront(u: seq<U8>, rest: seq<U8>, known: set<nat>)
    requires IsUnknownField(u, known)
    ensures ReadTag(u + rest).value == ReadTag(u).value && ReadTag(u + rest).value.Some? && u + rest != []
    ensures SkipField(ReadTag(u + rest).rest, ReadTag(u).value.value.1) == Read(Some(()), rest)
  {
    hide SkipField, ReadTag;
    TagExtends(u, rest);
    SkipExtends(ReadTag(u).rest, rest, ReadTag(u).value.value.1);
    assert [] + rest == rest;
    NotEmpty(u);
  }

  lemma NotEmpty(u: seq<U8>)
    requires ReadTag(u).value.Some?
    ensures u != []
  {
  }

  /** Of a wrapped string, fields before the first with number 1 and all behind it are passed over. */
  lemma WrappedIsFirst(u: seq<U8>, url: seq<U8>, rest: seq<U8>)
    requires IsString(url)
    ensures IsUnknownField(u, {1}) ==> ParseWrapped(u + rest) == ParseWrapped(rest)
    ensures ParseWrapped(Encode(BytesField(1, url)) + rest) == url
  {
    hide ReadTag, ReadBytes, SkipField, EncodeTag, EncodeVarint, ValidUtf8;
    if IsUnknownField(u, {1}) { UnknownInFront(u, rest, {1}); }
    var x := BytesField(1, url);
    EncodeSplits(x, rest);
    TagRoundTrip(1, 2, Contents(x) + rest);
    BytesRoundTrip(url, rest);
  }
}

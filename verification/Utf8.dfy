/** Which byte strings the decoders take for text: exactly the encodings of sequences of Unicode scalar values. */
module Utf8 {
  import opened Bytes
  import opened Messages

  /** Any code point but the surrogates. */
  type Scalar = c: int | 0 <= c < 0xd800 || 0xe000 <= c < 0x11_0000

  /** One to four bytes, as RFC 3629, section 3, lays out the bits. */
  function EncodeChar(c: Scalar): (s: seq<U8>)
    ensures 1 <= |s| <= 4
  {
    if c < 0x80 then [c]
    else if c < 0x800 then [0xc0 + c / 0x40, 0x80 + c % 0x40]
    else if c < 0x1_0000 then [0xe0 + c / 0x1000, 0x80 + c / 0x40 % 0x40, 0x80 + c % 0x40]
    else [0xf0 + c / 0x4_0000, 0x80 + c / 0x1000 % 0x40, 0x80 + c / 0x40 % 0x40, 0x80 + c % 0x40]
  }

  function EncodeText(cs: seq<Scalar>): seq<U8> {
    if cs == [] then [] else EncodeChar(cs[0]) + EncodeText(cs[1..])
  }

  lemma Split3(c: int)
    requires 0x800 <= c < 0x1_0000
    ensures c == c / 0x1000 * 0x1000 + c / 0x40 % 0x40 * 0x40 + c % 0x40 && 0 <= c / 0x1000 < 16
  {
  }

  lemma Split4(c: int)
    requires 0x1_0000 <= c < 0x11_0000
    ensures c == c / 0x4_0000 * 0x4_0000 + c / 0x1000 % 0x40 * 0x1000 + c / 0x40 % 0x40 * 0x40 + c % 0x40
    ensures 0 <= c / 0x4_0000 < 5
  {
    var d, e := c / 0x40, c / 0x1000;
    Sixths(c);
    assert c == d * 0x40 + c % 0x40 && d == e * 0x40 + d % 0x40 && e == c / 0x4_0000 * 0x40 + e % 0x40;
  }

  lemma Sixths(c: nat)
    ensures c / 0x40 / 0x40 == c / 0x1000 && c / 0x1000 / 0x40 == c / 0x4_0000
  {
  }

  /** An encoded character is recognised, with its length, whatever follows. */
  lemma CharIsRead(c: Scalar, rest: seq<U8>)
    ensures Utf8Length(EncodeChar(c) + rest) == |EncodeChar(c)|
  {
    if 0x800 <= c < 0x1_0000 { Split3(c); }
    if 0x1_0000 <= c { Split4(c); }
  }

  lemma Unsplit3(a: int, b: int, d: int)
    requires 0 <= a < 16 && 0 <= b < 0x40 && 0 <= d < 0x40
    ensures var c := a * 0x1000 + b * 0x40 + d; c / 0x1000 == a && c / 0x40 % 0x40 == b && c % 0x40 == d
  {
    var c := a * 0x1000 + b * 0x40 + d;
    assert c / 0x40 == a * 0x40 + b;
  }

  lemma Unsplit4(a: int, b: int, d: int, e: int)
    requires 0 <= a < 8 && 0 <= b < 0x40 && 0 <= d < 0x40 && 0 <= e < 0x40
    ensures var c := a * 0x4_0000 + b * 0x1000 + d * 0x40 + e;
      c / 0x4_0000 == a && c / 0x1000 % 0x40 == b && c / 0x40 % 0x40 == d && c % 0x40 == e
  {
    var c := a * 0x4_0000 + b * 0x1000 + d * 0x40 + e;
    assert c / 0x40 == a * 0x1000 + b * 0x40 + d;
    assert c / 0x1000 == a * 0x40 + b;
  }

  /** What is recognised as a character is the encoding of one. */
  lemma ReadIsChar(s: seq<U8>) returns (c: Scalar)
    requires s != [] && Utf8Length(s) > 0
    ensures EncodeChar(c) == s[..Utf8Length(s)]
  {
    var n := Utf8Length(s);
    if n == 1 {
      c := s[0];
    } else if n == 2 {
      c := (s[0] as int - 0xc0) * 0x40 + (s[1] as int - 0x80);
      assert s[..2] == [s[0], s[1]];
    } else if n == 3 {
      c := Read3(s);
    } else {
      c := Read4(s);
    }
  }

  lemma Read3(s: seq<U8>) returns (c: Scalar)
    requires s != [] && Utf8Length(s) == 3
    ensures EncodeChar(c) == s[..3]
  {
    var a, b, d := s[0] as int - 0xe0, s[1] as int - 0x80, s[2] as int - 0x80;
    Unsplit3(a, b, d);
    c := a * 0x1000 + b * 0x40 + d;
    assert s[..3] == [s[0], s[1], s[2]];
  }

  lemma Read4(s: seq<U8>) returns (c: Scalar)
    requires s != [] && Utf8Length(s) == 4
    ensures EncodeChar(c) == s[..4]
  {
    var a, b, d, e := s[0] as int - 0xf0, s[1] as int - 0x80, s[2] as int - 0x80, s[3] as int - 0x80;
    Unsplit4(a, b, d, e);
    c := a * 0x4_0000 + b * 0x1000 + d * 0x40 + e;
    assert s[..4] == [s[0], s[1], s[2], s[3]];
  }

  lemma {:induction false} TextIsValid(cs: seq<Scalar>)
    ensures ValidUtf8(EncodeText(cs))
  {
    hide EncodeChar, Utf8Length;
    if cs != [] {
      var rest := EncodeText(cs[1..]);
      TextIsValid(cs[1..]);
      CharIsRead(cs[0], rest);
      assert (EncodeChar(cs[0]) + rest)[|EncodeChar(cs[0])|..] == rest;
    }
  }

  lemma {:induction false} ValidIsText(s: seq<U8>) returns (cs: seq<Scalar>)
    requires ValidUtf8(s)
    ensures EncodeText(cs) == s
  {
    hide EncodeChar, Utf8Length;
    if s == [] {
      cs := [];
    } else {
      var n := Utf8Length(s);
      var c := ReadIsChar(s);
      var more := ValidIsText(s[n..]);
      cs := [c] + more;
      assert cs[0] == c && cs[1..] == more;
      assert s == s[..n] + s[n..];
    }
  }

  /** The valid strings are exactly the encoded texts. */
  lemma ValidExactly(s: seq<U8>)
    ensures ValidUtf8(s) <==> exists cs: seq<Scalar> :: EncodeText(cs) == s
  {
    if ValidUtf8(s) {
      var cs := ValidIsText(s);
    } else if cs: seq<Scalar> :| EncodeText(cs) == s {
      TextIsValid(cs);
    }
  }
}

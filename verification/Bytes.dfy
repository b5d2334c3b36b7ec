/** Fixed-width unsigned integers and big-endian words, as the packet code uses them.
    Shifts and masks are written as division and remainder by powers of two. */
module Bytes {
  type U8 = x: int | 0 <= x < 0x100
  type U16 = x: int | 0 <= x < 0x1_0000
  type U32 = x: int | 0 <= x < 0x1_0000_0000
  type U64 = x: int | 0 <= x < 0x1_0000_0000_0000_0000

  /** The two bytes of `v`, high byte first. */
  function Word(v: U16): (w: seq<U8>)
    ensures |w| == 2
  {
    [v / 256, v % 256]
  }

  /** The big-endian 16-bit word at offset `i`. */
  function Be16(s: seq<U8>, i: nat): U16
    requires i + 1 < |s|
  {
    s[i] as int * 256 + s[i + 1]
  }

  /** `s` with `w` written over it at offset `i`. */
  function Splice<T>(s: seq<T>, i: nat, w: seq<T>): (r: seq<T>)
    requires i + |w| <= |s|
    ensures |r| == |s|
    ensures forall k :: 0 <= k < |s| ==> r[k] == if i <= k < i + |w| then w[k - i] else s[k]
  {
    s[..i] + w + s[i + |w|..]
  }

  /** In-place write of `w` at offset `i` (`copy_from_slice`, `put_be16`). */
  method WriteAt(a: array<U8>, i: nat, w: seq<U8>)
    requires i + |w| <= a.Length
    modifies a
    ensures a[..] == Splice(old(a[..]), i, w)
  {
    var k := 0;
    while k < |w|
      invariant 0 <= k <= |w|
      invariant forall j :: 0 <= j < a.Length ==> a[j] == if i <= j < i + k then w[j - i] else old(a[j])
    {
      a[i + k] := w[k];
      k := k + 1;
    }
  }

  /** Two adjacent writes are one write of the concatenation. */
  lemma SpliceAdjacent<T>(s: seq<T>, i: nat, v: seq<T>, w: seq<T>)
    requires i + |v| + |w| <= |s|
    ensures Splice(Splice(s, i, v), i + |v|, w) == Splice(s, i, v + w)
  {
  }

  /** A write inside an earlier write edits what was written. */
  lemma SpliceInside<T>(s: seq<T>, i: nat, v: seq<T>, j: nat, w: seq<T>)
    requires i + |v| <= |s| && j + |w| <= |v|
    ensures Splice(Splice(s, i, v), i + j, w) == Splice(s, i, Splice(v, j, w))
  {
  }

  lemma SpliceMiddle<T>(a: seq<T>, v: seq<T>, b: seq<T>, w: seq<T>)
    requires |v| == |w|
    ensures Splice(a + v + b, |a|, w) == a + w + b
  {
  }

  lemma SplicePrefix<T>(s: seq<T>, i: nat, w: seq<T>, n: nat)
    requires i + |w| <= n <= |s|
    ensures Splice(s, i, w)[..n] == Splice(s[..n], i, w)
  {
  }

  lemma SpliceSlice<T>(s: seq<T>, i: nat, w: seq<T>, m: nat, n: nat)
    requires m <= i && i + |w| <= n <= |s|
    ensures Splice(s, i, w)[m..n] == Splice(s[m..n], i - m, w)
  {
  }

  lemma WordOfBe16(s: seq<U8>, i: nat)
    requires i + 2 <= |s|
    ensures s[i..i + 2] == Word(Be16(s, i))
  {
    var hi: int, lo: int := s[i], s[i + 1];
    assert (hi * 256 + lo) / 256 == hi && (hi * 256 + lo) % 256 == lo;
  }
}

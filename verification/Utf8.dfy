/**
 UTF-8 text, as a `&str` holds it, and the character boundaries a `&str` may be
 sliced at.
 */
module Utf8 {
  import opened Text

  predicate IsContinuation(b: Byte) { 0x80 <= b < 0xc0 }

  /** Bytes of the character a lead byte starts; 0 for a byte that starts none. */
  function CharLength(lead: Byte): nat {
    if lead < 0x80 then 1
    else if 0xc2 <= lead < 0xe0 then 2
    else if 0xe0 <= lead < 0xf0 then 3
    else if 0xf0 <= lead < 0xf5 then 4
    else 0
  }

  /** Rules out overlong forms, surrogates and numbers above `0x10ffff`. */
  predicate SecondFits(lead: Byte, second: Byte) {
    && (lead == 0xe0 ==> second >= 0xa0)
    && (lead == 0xed ==> second < 0xa0)
    && (lead == 0xf0 ==> second >= 0x90)
    && (lead == 0xf4 ==> second < 0x90)
  }

  /** The text starts with one whole character. */
  predicate StartsChar(s: seq<Byte>)
    requires s != []
  {
    var n := CharLength(s[0]);
    && 0 < n <= |s| && (n > 1 ==> SecondFits(s[0], s[1]))
    && forall k :: 1 <= k < n ==> IsContinuation(s[k])
  }

  predicate IsUtf8(s: seq<Byte>) {
    s == [] || (StartsChar(s) && IsUtf8(s[CharLength(s[0])..]))
  }

  /** `str::is_char_boundary`. */
  predicate IsCharBoundary(s: seq<Byte>, i: nat) {
    i == 0 || i == |s| || (i < |s| && !IsContinuation(s[i]))
  }

  /** A boundary is where the text can be cut into two texts. */
  lemma {:induction false} BoundaryExact(s: seq<Byte>, i: nat)
    requires IsUtf8(s) && i <= |s|
    ensures IsCharBoundary(s, i) <==> IsUtf8(s[..i]) && IsUtf8(s[i..])
    decreases |s|
  {
    if i == 0 || i == |s| {
      assert s[0..] == s && s[..|s|] == s;
    } else if i < CharLength(s[0]) {
      assert IsContinuation(s[i]);
      assert s[i..][0] == s[i];
    } else {
      var n := CharLength(s[0]);
      BoundaryExact(s[n..], i - n);
      assert s[n..][i - n..] == s[i..] && s[n..][..i - n] == s[..i][n..];
    }
  }

  /** A continuation byte never follows an ASCII byte. */
  lemma {:induction false} ContinuationFollows(s: seq<Byte>, i: nat)
    requires IsUtf8(s) && i < |s| && IsContinuation(s[i])
    ensures i > 0 && s[i - 1] >= 0x80
    decreases |s|
  {
    var n := CharLength(s[0]);
    if i >= n {
      ContinuationFollows(s[n..], i - n);
    }
  }

  /** Both ends of a run of ASCII bytes are character boundaries, whatever is around it. */
  lemma AsciiRunOnBoundaries(s: seq<Byte>, lo: nat, hi: nat)
    requires IsUtf8(s) && lo < hi <= |s| && forall k :: lo <= k < hi ==> s[k] < 0x80
    ensures IsCharBoundary(s, lo) && IsCharBoundary(s, hi)
  {
    if hi < |s| && IsContinuation(s[hi]) {
      ContinuationFollows(s, hi);
    }
  }

  /** `&s[lo..hi]`, which panics off a character boundary. */
  function Slice(s: seq<Byte>, lo: nat, hi: nat): seq<Byte>
    requires lo <= hi <= |s| && (IsUtf8(s) ==> IsCharBoundary(s, lo) && IsCharBoundary(s, hi))
  {
    s[lo..hi]
  }
}

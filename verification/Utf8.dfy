/** Rust strings as the bytes they hold: what a character boundary is, and why cutting or
    matching at boundaries never splits a character. */
module Utf8 {

  newtype byte = b: int | 0 <= b < 256

  /** A byte that continues a character begun by an earlier byte (10xxxxxx). */
  predicate IsContinuation(b: byte) {
    0x80 <= b < 0xC0
  }

  /** The number of bytes in a character that begins with `lead`; 0 if no character does. */
  function Width(lead: byte): nat {
    if lead < 0x80 then 1
    else if lead < 0xC0 then 0
    else if lead < 0xE0 then 2
    else if lead < 0xF0 then 3
    else if lead < 0xF8 then 4
    else 0
  }

  /** The bytes fall into whole characters of one to four bytes. Every Rust string does. */
  predicate WellFormed(s: seq<byte>) {
    s == [] ||
    (var w := Width(s[0]);
     1 <= w <= |s| && (forall k :: 1 <= k < w ==> IsContinuation(s[k])) && WellFormed(s[w..]))
  }

  type Str = s: seq<byte> | WellFormed(s)

  /** Rust's `is_char_boundary`. */
  predicate IsBoundary(s: seq<byte>, k: nat) {
    k == 0 || k == |s| || (k < |s| && !IsContinuation(s[k]))
  }

  predicate IsAscii(s: seq<byte>) {
    forall k :: 0 <= k < |s| ==> s[k] < 0x80
  }

  /** The bytes of a string literal, which holds single-byte characters only. */
  function Ascii(literal: string): (s: Str)
    ensures |s| == |literal| && IsAscii(s)
    ensures forall k :: 0 <= k < |s| && literal[k] < '\U{80}' ==> s[k] as int == literal[k] as int
  {
    var s := seq(|literal|, k requires 0 <= k < |literal| =>
      if literal[k] < '\U{80}' then literal[k] as int as byte else 0x3F);
    AsciiIsWellFormed(s);
    s
  }

  lemma {:induction false} AsciiIsWellFormed(s: seq<byte>)
    requires IsAscii(s)
    ensures WellFormed(s)
  {
    if s != [] {
      AsciiIsWellFormed(s[1..]);
    }
  }

  lemma {:induction false} ConcatIsWellFormed(s: seq<byte>, t: seq<byte>)
    requires WellFormed(s) && WellFormed(t)
    ensures WellFormed(s + t)
  {
    hide WellFormed, Width;
    WellFormedUnfold(s);
    if s == [] {
      assert s + t == t;
    } else {
      var w := Width(s[0]);
      ConcatIsWellFormed(s[w..], t);
      assert (s + t)[w..] == s[w..] + t;
      WellFormedUnfold(s + t);
    }
  }

  lemma WellFormedUnfold(s: seq<byte>)
    ensures WellFormed(s) <==>
              s == [] ||
              (var w := Width(s[0]);
               1 <= w <= |s| && (forall k :: 1 <= k < w ==> IsContinuation(s[k])) && WellFormed(s[w..]))
  {
  }

  /** Cutting at a boundary leaves two strings of whole characters. */
  lemma {:induction false} CutAtBoundary(s: seq<byte>, k: nat)
    requires WellFormed(s) && k <= |s| && IsBoundary(s, k)
    ensures WellFormed(s[..k]) && WellFormed(s[k..])
  {
    if k == 0 {
      assert s[k..] == s;
    } else if k == |s| {
      assert s[..k] == s;
    } else {
      var w := Width(s[0]);
      assert w <= k;
      CutAtBoundary(s[w..], k - w);
      assert s[..k][w..] == s[w..][..k - w];
      assert s[w..][k - w..] == s[k..];
    }
  }

  /** A boundary of the part before or after a boundary is a boundary of the whole, and back. */
  lemma BoundaryOfSuffix(s: seq<byte>, k: nat, j: nat)
    requires WellFormed(s) && k <= |s| && IsBoundary(s, k) && j <= |s| - k
    ensures IsBoundary(s[k..], j) <==> IsBoundary(s, k + j)
  {
    CutAtBoundary(s, k);
  }

  /** The character that starts at a boundary ends at a boundary one to four bytes on. */
  lemma NextBoundary(s: seq<byte>, k: nat)
    requires WellFormed(s) && k < |s| && IsBoundary(s, k)
    ensures var w := Width(s[k]); 1 <= w <= 4 && k + w <= |s| && IsBoundary(s, k + w)
    ensures forall j :: k < j < k + Width(s[k]) ==> !IsBoundary(s, j)
  {
    CutAtBoundary(s, k);
    var w := Width(s[k]);
    forall j | k < j < k + w
      ensures !IsBoundary(s, j)
    {
      assert s[j] == s[k..][j - k];
    }
    if k + w < |s| {
      assert s[k + w] == s[k..][w..][0];
    }
  }

  /** The last boundary at or before `k`: where the backward loops of the splitter and of the ellipsis
      stop. */
  function Floor(s: seq<byte>, k: nat): (b: nat)
    requires k <= |s|
    ensures b <= k && IsBoundary(s, b)
    ensures forall j :: b < j <= k ==> !IsBoundary(s, j)
  {
    if IsBoundary(s, k) then k else Floor(s, k - 1)
  }

  lemma FloorIsGreatest(s: seq<byte>, k: nat, b: nat)
    requires b <= k <= |s| && IsBoundary(s, b)
    ensures b <= Floor(s, k)
  {
  }

  /** No character is longer than four bytes, so a boundary is never more than three bytes back. */
  lemma {:induction false} FloorIsNear(s: seq<byte>, k: nat)
    requires WellFormed(s) && k <= |s|
    ensures k <= Floor(s, k) + 3
    ensures IsAscii(s) ==> Floor(s, k) == k
  {
    if k < |s| && !IsAscii(s) {
      var b := CharacterStart(s, k);
      FloorIsGreatest(s, k, b);
    }
  }

  lemma {:induction false} CharacterStart(s: seq<byte>, k: nat) returns (b: nat)
    requires WellFormed(s) && k < |s|
    ensures b <= k <= b + 3 && IsBoundary(s, b)
  {
    var w := Width(s[0]);
    if k < w {
      b := 0;
    } else {
      NextBoundary(s, 0);
      b := CharacterStart(s[w..], k - w);
      BoundaryOfSuffix(s, w, b);
      b := w + b;
    }
  }

  /** The loop that steps a byte position back to a character boundary. */
  method RetreatToBoundary(s: seq<byte>, from: nat, stop: nat) returns (k: nat)
    requires stop <= from <= |s| && IsBoundary(s, stop)
    ensures stop <= k <= from && k == Floor(s, from)
  {
    k := from;
    while k > stop && !IsBoundary(s, k)
      invariant stop <= k <= from
      invariant Floor(s, from) == Floor(s, k)
    {
      k := k - 1;
    }
  }

  predicate MatchesAt(s: seq<byte>, pattern: seq<byte>, i: nat) {
    i + |pattern| <= |s| && s[i..i + |pattern|] == pattern
  }

  lemma {:induction false} PrefixEndsAtBoundary(s: seq<byte>, pattern: seq<byte>)
    requires WellFormed(s) && WellFormed(pattern) && pattern <= s
    ensures IsBoundary(s, |pattern|)
  {
    if pattern != [] {
      var w := Width(pattern[0]);
      assert s[0] == pattern[0];
      PrefixEndsAtBoundary(s[w..], pattern[w..]);
      NextBoundary(s, 0);
      BoundaryOfSuffix(s, w, |pattern| - w);
    }
  }

  /** A string of whole characters can only be found inside another at character boundaries. */
  lemma MatchIsAtBoundaries(s: seq<byte>, pattern: seq<byte>, i: nat)
    requires WellFormed(s) && WellFormed(pattern) && pattern != [] && MatchesAt(s, pattern, i)
    ensures IsBoundary(s, i) && IsBoundary(s, i + |pattern|)
    ensures WellFormed(s[..i]) && WellFormed(s[i + |pattern|..])
  {
    assert s[i] == s[i..i + |pattern|][0] == pattern[0];
    CutAtBoundary(s, i);
    assert s[i..][..|pattern|] == s[i..i + |pattern|];
    PrefixEndsAtBoundary(s[i..], pattern);
    BoundaryOfSuffix(s, i, |pattern|);
    CutAtBoundary(s, i + |pattern|);
  }
}

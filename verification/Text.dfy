/**
  The string operations the source takes from Go's `strings` and `unicode`
  packages: trimming, per-character mapping, joining and splitting.
*/
module Text {

  /** unicode.IsSpace: the White_Space property, code point by code point. */
  predicate IsSpace(c: char)
  {
    var u := c as int;
    9 <= u <= 13 || u == 32 || u == 0x85 || u == 0xA0 || u == 0x1680 || 0x2000 <= u <= 0x200A
    || u == 0x2028 || u == 0x2029 || u == 0x202F || u == 0x205F || u == 0x3000
  }

  /** The part of unicode.ToLower that concerns ASCII letters. */
  function AsciiLower(c: char): char
  {
    if 'A' <= c <= 'Z' then (c as int + 32) as char else c
  }

  /**
    What is used of unicode.ToLower: on ASCII it is AsciiLower, it leaves white
    space alone, and lowering twice is lowering once.  Its value on every other
    character is left open.
  */
  ghost predicate IsLowerMap(lower: char -> char)
  {
    && (forall c: char :: c as int < 128 ==> lower(c) == AsciiLower(c))
    && (forall c: char :: IsSpace(c) ==> lower(c) == c)
    && (forall c: char {:trigger lower(lower(c))} :: lower(lower(c)) == lower(c))
  }

  function Map(f: char -> char, s: string): (r: string)
    ensures |r| == |s|
    ensures forall i :: 0 <= i < |s| ==> r[i] == f(s[i])
  {
    if s == [] then [] else [f(s[0])] + Map(f, s[1..])
  }

  lemma MapAppend(f: char -> char, a: string, b: string)
    ensures Map(f, a + b) == Map(f, a) + Map(f, b)
  {
  }

  /** The first position at or after i whose character survives trimming. */
  function FirstKept(s: string, p: char -> bool, i: nat): (n: nat)
    requires i <= |s|
    ensures i <= n <= |s|
    ensures n < |s| ==> !p(s[n])
    ensures forall k :: i <= k < n ==> p(s[k])
    decreases |s| - i
  {
    if i < |s| && p(s[i]) then FirstKept(s, p, i + 1) else i
  }

  /** One past the last position before n whose character survives trimming. */
  function LastKept(s: string, p: char -> bool, n: nat): (e: nat)
    requires n <= |s|
    ensures e <= n
    ensures e > 0 ==> !p(s[e - 1])
    ensures forall k :: e <= k < n ==> p(s[k])
  {
    if n > 0 && p(s[n - 1]) then LastKept(s, p, n - 1) else n
  }

  function TrimLeft(s: string, p: char -> bool): string
  {
    s[FirstKept(s, p, 0)..]
  }

  function TrimRight(s: string, p: char -> bool): string
  {
    s[..LastKept(s, p, |s|)]
  }

  function Trim(s: string, p: char -> bool): string
  {
    TrimRight(TrimLeft(s, p), p)
  }

  function TrimSpace(s: string): string
  {
    Trim(s, IsSpace)
  }

  /** Any cut whose head is stripped and whose rest starts with a kept character is the cut. */
  lemma TrimLeftUnique(s: string, p: char -> bool, n: nat)
    requires n <= |s| && (n < |s| ==> !p(s[n]))
    requires forall k :: 0 <= k < n ==> p(s[k])
    ensures TrimLeft(s, p) == s[n..]
  {
    assert FirstKept(s, p, 0) == n;
  }

  lemma TrimRightUnique(s: string, p: char -> bool, e: nat)
    requires e <= |s| && (e > 0 ==> !p(s[e - 1]))
    requires forall k :: e <= k < |s| ==> p(s[k])
    ensures TrimRight(s, p) == s[..e]
  {
    assert LastKept(s, p, |s|) == e;
  }

  /** Trim cuts s into a stripped head, the result and a stripped tail. */
  lemma TrimParts(s: string, p: char -> bool) returns (head: string, tail: string)
    ensures s == head + Trim(s, p) + tail
    ensures forall i :: 0 <= i < |head| ==> p(head[i])
    ensures forall i :: 0 <= i < |tail| ==> p(tail[i])
  {
    var n := FirstKept(s, p, 0);
    var t := s[n..];
    var e := LastKept(t, p, |t|);
    head, tail := s[..n], t[e..];
  }

  /** A string whose two ends survive is its own trimming. */
  lemma TrimFixed(s: string, p: char -> bool)
    requires s != [] ==> !p(s[0]) && !p(s[|s| - 1])
    ensures Trim(s, p) == s
  {
  }

  lemma TrimIdempotent(s: string, p: char -> bool)
    ensures Trim(Trim(s, p), p) == Trim(s, p)
  {
    TrimFixed(Trim(s, p), p);
  }
}

/**
 * The JavaScript string operations the chat relies on: `toLowerCase`,
 * `includes` and `trim`.
 */
module TextOps {

  /** `toLowerCase` on one character, for Basic Latin and Latin-1 Supplement. */
  function LowerChar(c: char): char
  {
    if 'A' <= c <= 'Z' || ('\U{C0}' <= c <= '\U{DE}' && c != '\U{D7}') then
      (c as int + 32) as char
    else
      c
  }

  /** `toLowerCase`, character by character. */
  function Lower(s: string): (r: string)
    ensures |r| == |s|
    ensures forall i :: 0 <= i < |s| ==> r[i] == LowerChar(s[i])
  {
    seq(|s|, i requires 0 <= i < |s| => LowerChar(s[i]))
  }

  /** `k` occurs in `s` starting at position `i`. */
  predicate OccursAt(s: string, k: string, i: nat)
  {
    i + |k| <= |s| && s[i..i + |k|] == k
  }

  /** `s.includes(k)`: `k` occurs in `s` at some position. */
  function Contains(s: string, k: string): (r: bool)
    ensures r <==> exists i: nat :: OccursAt(s, k, i)
  {
    ContainsFrom(s, k, 0)
  }

  /** `k` occurs in `s` at a position `i` or later. */
  function ContainsFrom(s: string, k: string, i: nat): (r: bool)
    ensures r <==> exists p: nat :: i <= p && OccursAt(s, k, p)
    decreases |s| - i
  {
    if i + |k| > |s| then false
    else if s[i..i + |k|] == k then assert OccursAt(s, k, i); true
    else ContainsFrom(s, k, i + 1)
  }

  /** The characters `trim` removes: ECMAScript WhiteSpace and LineTerminator. */
  predicate IsJsSpace(c: char)
  {
    c == '\t' || c == '\n' || c == '\U{B}' || c == '\U{C}' || c == '\r' || c == ' '
    || c == '\U{A0}' || c == '\U{1680}' || ('\U{2000}' <= c <= '\U{200A}')
    || c == '\U{2028}' || c == '\U{2029}' || c == '\U{202F}' || c == '\U{205F}'
    || c == '\U{3000}' || c == '\U{FEFF}'
  }

  /** Index of the first non-space character at or after `i` (`|s|` if none). */
  function SkipSpaces(s: string, i: nat): (k: nat)
    requires i <= |s|
    ensures i <= k <= |s|
    ensures forall j :: i <= j < k ==> IsJsSpace(s[j])
    ensures k == |s| || !IsJsSpace(s[k])
    decreases |s| - i
  {
    if i == |s| || !IsJsSpace(s[i]) then i else SkipSpaces(s, i + 1)
  }

  /** End of `s[lo..hi]` once its trailing spaces are dropped. */
  function SkipSpacesBack(s: string, lo: nat, hi: nat): (e: nat)
    requires lo <= hi <= |s|
    ensures lo <= e <= hi
    ensures forall j :: e <= j < hi ==> IsJsSpace(s[j])
    ensures e == lo || !IsJsSpace(s[e - 1])
    decreases hi
  {
    if hi == lo || !IsJsSpace(s[hi - 1]) then hi else SkipSpacesBack(s, lo, hi - 1)
  }

  /** `r` is `s[a..a + |r|]` and every character of `s` outside it is a space. */
  predicate SpaceAround(s: string, r: string, a: nat)
  {
    a + |r| <= |s| && r == s[a..a + |r|]
    && (forall i :: 0 <= i < a ==> IsJsSpace(s[i]))
    && (forall i :: a + |r| <= i < |s| ==> IsJsSpace(s[i]))
  }

  /**
   * `trim`: a slice of `s` with nothing but spaces around it and no space at
   * either of its ends; empty exactly when `s` is all spaces.
   */
  function Trim(s: string): (r: string)
    ensures exists a: nat :: SpaceAround(s, r, a)
    ensures r == [] || (!IsJsSpace(r[0]) && !IsJsSpace(r[|r| - 1]))
    ensures r == [] <==> forall i :: 0 <= i < |s| ==> IsJsSpace(s[i])
  {
    var a := SkipSpaces(s, 0);
    var b := SkipSpacesBack(s, a, |s|);
    assert SpaceAround(s, s[a..b], a);
    s[a..b]
  }
}

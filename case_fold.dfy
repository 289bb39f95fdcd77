/**
 * Case-insensitive comparison of method names, as the filter uses it to pick
 * "statistical" or "radius": two strings match when they have the same length and
 * agree character by character once ASCII letters are folded to upper case (the
 * C locale's `toupper`).
 */
module CaseFold {

  /** `toupper` in the C locale: 'a'..'z' become 'A'..'Z'; every other character is kept. */
  function ToUpper(c: char): (u: char)
    ensures 'a' <= c <= 'z' ==> 'A' <= u <= 'Z' && u as int - c as int == 'A' as int - 'a' as int
    ensures !('a' <= c <= 'z') ==> u == c
  {
    if 'a' <= c <= 'z' then (c as int - 'a' as int + 'A' as int) as char else c
  }

  /** The whole string folded to upper case. */
  function Upper(s: string): (r: string)
    ensures |r| == |s|
    ensures forall i :: 0 <= i < |s| ==> r[i] == ToUpper(s[i])
  {
    if s == [] then [] else [ToUpper(s[0])] + Upper(s[1..])
  }

  /** Case-insensitive equality: equal lengths, and equal characters after folding. */
  predicate IEquals(a: string, b: string)
    ensures IEquals(a, b) ==> |a| == |b|
    ensures a == b ==> IEquals(a, b)
  {
    |a| == |b| && forall i :: 0 <= i < |a| ==> ToUpper(a[i]) == ToUpper(b[i])
  }

  /** Matching ignoring case is exactly equality of the upper-cased strings. */
  lemma IEqualsIsUpperEquality(a: string, b: string)
    ensures IEquals(a, b) <==> Upper(a) == Upper(b)
  {
  }
}

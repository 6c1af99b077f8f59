/**
 * The string operations the scope filter relies on: `toUpperCase`, `includes`
 * and `endsWith`. Upper-casing is modelled on ASCII letters only.
 */
module Text {

  /** ASCII upper-casing of one character; every other character is left alone. */
  function UpperChar(c: char): char
  {
    if 'a' <= c <= 'z' then (c as int - 32) as char else c
  }

  /** `s.toUpperCase()`, letter by letter. */
  function Upper(s: string): (r: string)
    ensures |r| == |s|
    ensures forall i :: 0 <= i < |s| ==> r[i] == UpperChar(s[i])
  {
    if s == [] then [] else [UpperChar(s[0])] + Upper(s[1..])
  }

  /** `hay.includes(needle)`: `needle` occurs as a contiguous block of `hay`. */
  predicate Contains(hay: string, needle: string)
  {
    exists i | 0 <= i <= |hay| :: OccursAt(hay, needle, i)
  }

  /** `needle` occurs in `hay` starting at position `i`. */
  predicate OccursAt(hay: string, needle: string, i: int)
  {
    0 <= i && i + |needle| <= |hay| && hay[i..i + |needle|] == needle
  }

  /** `s.endsWith(suffix)`. */
  predicate EndsWith(s: string, suffix: string)
  {
    |suffix| <= |s| && s[|s| - |suffix|..] == suffix
  }

  /** Upper-casing both sides keeps a verbatim occurrence: what is found as written is found case-insensitively. */
  lemma ContainsUpper(hay: string, needle: string)
    requires Contains(hay, needle)
    ensures Contains(Upper(hay), Upper(needle))
  {
    var i :| 0 <= i <= |hay| && OccursAt(hay, needle, i);
    assert 0 <= i && i + |needle| <= |hay| && hay[i..i + |needle|] == needle;
    var h, n := Upper(hay), Upper(needle);
    forall k | 0 <= k < |needle| ensures h[i..i + |needle|][k] == n[k] {
      assert hay[i..i + |needle|][k] == needle[k];
    }
    assert OccursAt(h, n, i);
  }

  /** Nothing non-empty occurs in, or ends, the empty string. */
  lemma EmptyMatchesNothing(needle: string)
    requires needle != []
    ensures !Contains("", needle) && !EndsWith("", needle)
  {
  }
}

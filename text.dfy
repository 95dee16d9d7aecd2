/**
 * The string operations the core relies on, over ASCII: `String.isBlank`,
 * `toLowerCase` and `contains`.
 */
module Text {

  /** `Character.isWhitespace` restricted to the ASCII range. */
  predicate IsWhitespace(c: char) {
    c == ' ' || ('\t' <= c <= '\r') || ('\U{1C}' <= c <= '\U{1F}')
  }

  /** `String.isBlank`: empty, or whitespace only. */
  predicate IsBlank(s: string) {
    forall i :: 0 <= i < |s| ==> IsWhitespace(s[i])
  }

  function LowerChar(c: char): char {
    if 'A' <= c <= 'Z' then (c as int + 32) as char else c
  }

  /** `String.toLowerCase` on ASCII letters. */
  function Lower(s: string): (r: string)
    ensures |r| == |s|
    ensures forall i :: 0 <= i < |s| ==> r[i] == LowerChar(s[i])
  {
    seq(|s|, i requires 0 <= i < |s| => LowerChar(s[i]))
  }

  /** `String.contains`: `t` occurs in `s` at some offset. */
  predicate Contains(s: string, t: string) {
    exists i :: 0 <= i <= |s| && t <= s[i..]
  }

  /** Case-insensitive containment, as `s.toLowerCase().contains(t.toLowerCase())`. */
  predicate ContainsIgnoreCase(s: string, t: string) {
    Contains(Lower(s), Lower(t))
  }

  /** Worked cases: whitespace-only text is blank, and search ignores case in both arguments. */
  lemma TextExamples()
    ensures IsBlank("") && IsBlank(" \t\n")
    ensures !IsBlank(" a ")
    ensures ContainsIgnoreCase("Cordless Drill", "DRILL")
    ensures !ContainsIgnoreCase("drill", "saw")
  {
    assert !IsWhitespace(" a "[1]);
    assert Lower("DRILL") <= Lower("Cordless Drill")[9..];
    var t := Lower("saw");
    assert t[0] == 's';
    forall i | 0 <= i <= |Lower("drill")| ensures !(t <= Lower("drill")[i..]) {
      if i + |t| <= 5 {
        assert Lower("drill")[i..][0] != 's';
      }
    }
  }

  /** Lowering twice is lowering once. */
  lemma LowerIdempotent(s: string)
    ensures Lower(Lower(s)) == Lower(s)
  {
  }

  /** Lowering keeps blankness: it changes letters only. */
  lemma LowerKeepsBlank(s: string)
    ensures IsBlank(Lower(s)) <==> IsBlank(s)
  {
  }

  /** The search is insensitive to the case of either argument. */
  lemma IgnoreCaseEitherSide(s: string, t: string)
    ensures ContainsIgnoreCase(s, t) <==> ContainsIgnoreCase(s, Lower(t))
    ensures ContainsIgnoreCase(s, t) <==> ContainsIgnoreCase(Lower(s), t)
  {
    LowerIdempotent(s);
    LowerIdempotent(t);
  }

  /** An empty pattern occurs in every string; a non-empty one never in the empty string. */
  lemma ContainsBounds(s: string, t: string)
    ensures ContainsIgnoreCase(s, "")
    ensures t != [] ==> !ContainsIgnoreCase("", t)
  {
    assert Lower("") == [];
    assert "" <= Lower(s)[0..];
  }
}

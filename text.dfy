// The string tests the bookstore relies on: Java's String.isBlank, the
// trim-based @NotBlank check of Bean Validation, lower-casing and substring
// containment (the `%...%` LIKE pattern without wildcards inside it).
module Text {
  import opened Common

  /** Character.isWhitespace: the Unicode space, line and paragraph separators other
      than the non-breaking ones, plus the ASCII controls TAB, LF, VT, FF, CR and FS..US. */
  predicate IsWhitespace(c: char)
  {
    || ('\t' <= c <= '\r')
    || ('\U{1C}' <= c <= ' ')
    || c == '\U{1680}'
    || ('\U{2000}' <= c <= '\U{2006}')
    || ('\U{2008}' <= c <= '\U{200A}')
    || c == '\U{2028}' || c == '\U{2029}' || c == '\U{205F}' || c == '\U{3000}'
  }

  /** String.isBlank: empty, or whitespace only. */
  predicate IsBlank(s: string)
  {
    forall k :: 0 <= k < |s| ==> IsWhitespace(s[k])
  }

  /** @NotBlank as Hibernate Validator checks it: non-null and non-empty once trim()
      has removed the characters up to U+0020 from both ends. */
  predicate NotBlank(s: Option<string>)
  {
    s.Some? && exists k :: 0 <= k < |s.value| && s.value[k] > ' '
  }

  /** An optional text, as the nullable String fields of the requests carry it. */
  predicate AtMost(s: Option<string>, max: nat)
  {
    s.None? || |s.value| <= max
  }

  function LowerChar(c: char): (d: char)
    ensures ('A' <= c <= 'Z') ==> d as int == c as int + 32
    ensures !('A' <= c <= 'Z') ==> d == c
  {
    if 'A' <= c <= 'Z' then (c as int + 32) as char else c
  }

  /** Lower-casing, of the ASCII letters only. */
  function Lower(s: string): (r: string)
    ensures |r| == |s|
    ensures forall k :: 0 <= k < |s| ==> r[k] == LowerChar(s[k])
  {
    seq(|s|, k requires 0 <= k < |s| => LowerChar(s[k]))
  }

  /** `needle` occurs in `hay` as a contiguous substring. */
  predicate Contains(hay: string, needle: string)
  {
    exists i :: 0 <= i <= |hay| - |needle| && OccursAt(hay, needle, i)
  }

  predicate OccursAt(hay: string, needle: string, i: int)
  {
    0 <= i && i + |needle| <= |hay| && hay[i..i + |needle|] == needle
  }

  lemma LowerIdempotent(s: string)
    ensures Lower(Lower(s)) == Lower(s)
  {
  }

  lemma ContainsSelf(s: string)
    ensures Contains(s, s)
  {
    assert s[0..|s|] == s;
    assert OccursAt(s, s, 0);
  }

  /** Lower-casing never turns a non-blank string blank or back: letters are not whitespace. */
  lemma {:induction false} BlankUnderCase(s: string, t: string)
    requires Lower(s) == Lower(t)
    ensures IsBlank(s) <==> IsBlank(t)
  {
    forall k | 0 <= k < |s|
      ensures IsWhitespace(s[k]) <==> IsWhitespace(t[k])
    {
      assert LowerChar(s[k]) == LowerChar(t[k]);
    }
  }
}

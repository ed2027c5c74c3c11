/**
 * The string operations of the core, as Python defines them: `str.isspace`/`str.strip`,
 * `str.startswith`, `str.replace`, and the two length caps built on slicing
 * (the explanation in api/agent.py and the review description in api/crud.py).
 */
module Text {

  /** Python's `str.isspace` for one character (the Unicode whitespace set). */
  predicate IsSpace(c: char) {
    || c == ' ' || ('\t' <= c <= '\r') || ('\U{1c}' <= c <= '\U{1f}')
    || c == '\U{85}' || c == '\U{a0}' || c == '\U{1680}' || ('\U{2000}' <= c <= '\U{200a}')
    || c == '\U{2028}' || c == '\U{2029}' || c == '\U{202f}' || c == '\U{205f}' || c == '\U{3000}'
  }

  /** Every character of `s` from index `lo` up to `hi` is whitespace. */
  predicate SpaceBetween(s: string, lo: int, hi: int) {
    forall i :: lo <= i < hi && 0 <= i < |s| ==> IsSpace(s[i])
  }

  /** The index of the first non-whitespace character at or after `lo`, or `|s|`. */
  function SkipSpace(s: string, lo: nat): (i: nat)
    requires lo <= |s|
    ensures lo <= i <= |s| && SpaceBetween(s, lo, i)
    ensures i == |s| || !IsSpace(s[i])
    decreases |s| - lo
  {
    if lo == |s| || !IsSpace(s[lo]) then lo else SkipSpace(s, lo + 1)
  }

  /** The end of `s[lo..hi]` once its trailing whitespace is dropped. */
  function SkipSpaceBack(s: string, lo: nat, hi: nat): (j: nat)
    requires lo <= hi <= |s|
    ensures lo <= j <= hi && SpaceBetween(s, j, hi)
    ensures j == lo || !IsSpace(s[j - 1])
    decreases hi
  {
    if hi == lo || !IsSpace(s[hi - 1]) then hi else SkipSpaceBack(s, lo, hi - 1)
  }

  /**
   * `str.strip()`: the slice of `s` between its leading and trailing whitespace; the
   * result neither starts nor ends with whitespace.
   */
  function Strip(s: string): (r: string)
    ensures var lo := SkipSpace(s, 0); var hi := SkipSpaceBack(s, lo, |s|);
      && SpaceBetween(s, 0, lo) && SpaceBetween(s, hi, |s|) && r == s[lo..hi]
    ensures r == [] || (!IsSpace(r[0]) && !IsSpace(r[|r| - 1]))
  {
    var lo := SkipSpace(s, 0);
    s[lo..SkipSpaceBack(s, lo, |s|)]
  }

  /** A string that neither starts nor ends with whitespace is its own strip. */
  lemma StripKeeps(s: string)
    requires s == [] || (!IsSpace(s[0]) && !IsSpace(s[|s| - 1]))
    ensures Strip(s) == s
  {
  }

  /** Stripping twice is stripping once. */
  lemma StripIdempotent(s: string)
    ensures Strip(Strip(s)) == Strip(s)
  {
    StripKeeps(Strip(s));
  }

  /** The marker both truncations append. */
  const Ellipsis: string := "..."

  /**
   * The length cap of `generate_explanation`: the stripped reply, or, when that is longer
   * than 200 characters, its first 197 characters and an ellipsis, exactly 200 in all.
   */
  function ShortenExplanation(reply: string): (r: string)
    ensures var e := Strip(reply);
      && |r| <= 200
      && (|e| <= 200 ==> r == e)
      && (|e| > 200 ==> |r| == 200 && r[..197] == e[..197] && r[197..] == Ellipsis)
  {
    var e := Strip(reply);
    if |e| > 200 then e[..197] + Ellipsis else e
  }

  /** An explanation already shortened is left alone by a second pass. */
  lemma ShortenIdempotent(reply: string)
    ensures ShortenExplanation(ShortenExplanation(reply)) == ShortenExplanation(reply)
  {
    var r := ShortenExplanation(reply);
    var e := Strip(reply);
    if |e| > 200 {
      assert r[0] == e[0] && r[|r| - 1] == '.';
    }
    StripKeeps(r);
  }

  /**
   * The `description` of a place created from a review: the review itself up to 200
   * characters, otherwise its first 200 characters and an ellipsis (203 in all; the
   * conditional expression binds looser than the concatenation).
   */
  function ReviewDescription(review: string): (r: string)
    ensures |review| <= 200 ==> r == review
    ensures |review| > 200 ==> |r| == 203 && r[..200] == review[..200] && r[200..] == Ellipsis
  {
    if |review| > 200 then review[..200] + Ellipsis else review
  }

  /** The description never exceeds 203 characters and always begins the review. */
  lemma ReviewDescriptionBounded(review: string)
    ensures var r := ReviewDescription(review);
      |r| <= 203 && (var n := if |review| < 200 then |review| else 200; r[..n] == review[..n])
  {
  }

  /** `str.startswith(prefix)`. */
  predicate StartsWith(s: string, prefix: string) {
    |prefix| <= |s| && s[..|prefix|] == prefix
  }

  /** `pattern` occurs in `s` starting at `i`. */
  predicate OccursAt(s: string, pattern: string, i: int) {
    0 <= i && i + |pattern| <= |s| && s[i..i + |pattern|] == pattern
  }

  /**
   * `s.replace(pattern, replacement)` for a non-empty pattern: every occurrence, scanning
   * left to right and resuming after each replaced one.
   */
  function ReplaceAll(s: string, pattern: string, replacement: string): (r: string)
    requires pattern != []
    ensures (forall i :: !OccursAt(s, pattern, i)) ==> r == s
    decreases |s|
  {
    if |s| < |pattern| then s
    else if s[..|pattern|] == pattern then
      assert OccursAt(s, pattern, 0);
      replacement + ReplaceAll(s[|pattern|..], pattern, replacement)
    else
      var rest := ReplaceAll(s[1..], pattern, replacement);
      assert forall i :: OccursAt(s[1..], pattern, i) ==> OccursAt(s, pattern, i + 1);
      assert s == [s[0]] + s[1..];
      [s[0]] + rest
  }

  /** Replacing a single character by a single character keeps the length. */
  lemma {:induction false} ReplaceCharLength(s: string, a: char, b: char)
    ensures |ReplaceAll(s, [a], [b])| == |s|
    ensures forall i :: 0 <= i < |s| ==> ReplaceAll(s, [a], [b])[i] == if s[i] == a then b else s[i]
    decreases |s|
  {
    if |s| >= 1 {
      ReplaceCharLength(s[1..], a, b);
    }
  }

  /** After replacing a character by another, the first is gone. */
  lemma ReplaceCharRemoves(s: string, a: char, b: char)
    requires a != b
    ensures a !in ReplaceAll(s, [a], [b])
  {
    ReplaceCharLength(s, a, b);
  }
}

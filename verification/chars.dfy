/**
 * Character classes of the selector lexer and the one scanning primitive
 * every loop of the form `while (isX(input[i])) i++` shares.
 *
 * Positions are unbounded naturals; reading at or past the end of the input
 * is JavaScript's `undefined`, which belongs to no class.
 */
module Chars {

  /** The whitespace of CSS selectors: space, tab, carriage return, line feed, form feed. */
  predicate IsWhitespace(c: char)
    ensures IsWhitespace(c) ==> c as int <= 0x20
    ensures c == '\U{000B}' || c == '\U{00A0}' ==> !IsWhitespace(c)
  {
    c == ' ' || c == '\t' || c == '\r' || c == '\n' || c == '\U{000C}'
  }

  /** The characters that stand for a combinator or the group separator. */
  predicate IsCombinatorChar(c: char)
    ensures IsCombinatorChar(c) ==> !IsWhitespace(c)
  {
    c == ',' || c == '>' || c == '+' || c == '~'
  }

  /** The ASCII decimal digits. */
  predicate IsDigit(c: char)
    ensures IsDigit(c) ==> !IsWhitespace(c) && !IsCombinatorChar(c)
  {
    '0' <= c <= '9'
  }

  /**
   * Characters with a reserved use: they end an identifier or a tag name.
   * Every whitespace and every combinator character is reserved; digits,
   * letters, '-', '_' and the quotes are not.
   */
  predicate IsReservedChar(c: char)
    ensures IsWhitespace(c) ==> IsReservedChar(c)
    ensures IsCombinatorChar(c) ==> IsReservedChar(c)
    ensures IsDigit(c) || ('a' <= c <= 'z') || ('A' <= c <= 'Z') ==> !IsReservedChar(c)
    ensures c == '-' || c == '_' || c == '"' || c == '\'' ==> !IsReservedChar(c)
  {
    || c == ':' || c == ',' || c == '+' || c == '~' || c == '>'
    || c == '#' || c == '.' || c == '=' || c == '(' || c == ')'
    || c == '[' || c == ']' || c == '|' || c == '*' || c == '^' || c == '$'
    || IsWhitespace(c)
  }

  /** A character that may continue an identifier or a tag name. */
  predicate IsNameChar(c: char) {
    !IsReservedChar(c)
  }

  /** `input[i] === c`, where a position past the end holds `undefined`. */
  predicate CharIs(s: string, i: nat, c: char) {
    i < |s| && s[i] == c
  }

  /**
   * The position of the first character at or after `i` that `keep` rejects,
   * or the end of `s`: the loop `while (keep(s[i])) i++`.
   */
  function SkipWhile(s: string, i: nat, keep: char -> bool): (j: nat)
    ensures i <= j
    ensures i < j ==> j <= |s|
    ensures i < |s| && keep(s[i]) ==> i < j
    ensures j < |s| ==> !keep(s[j])
    decreases |s| - i
  {
    if i >= |s| || !keep(s[i]) then i else SkipWhile(s, i + 1, keep)
  }

  /** Every character `SkipWhile` passes over is kept. */
  lemma {:induction false} SkipWhileKeeps(s: string, i: nat, keep: char -> bool)
    ensures forall k | i <= k < SkipWhile(s, i, keep) :: k < |s| && keep(s[k])
    decreases |s| - i
  {
    if i < |s| && keep(s[i]) {
      SkipWhileKeeps(s, i + 1, keep);
    }
  }

  /** `SkipWhile` stops exactly at the end of any run of kept characters it is started on. */
  lemma {:induction false} SkipWhileStopsAt(s: string, i: nat, j: nat, keep: char -> bool)
    requires i <= j <= |s|
    requires forall k | i <= k < j :: keep(s[k])
    requires j == |s| || !keep(s[j])
    ensures SkipWhile(s, i, keep) == j
    decreases j - i
  {
    if i < j {
      SkipWhileStopsAt(s, i + 1, j, keep);
    }
  }

  /** `SkipWhile` started on a run of kept characters stops right after it. */
  lemma SkipWhileOverRun(pre: string, run: string, post: string, keep: char -> bool)
    requires forall k | 0 <= k < |run| :: keep(run[k])
    requires post == [] || !keep(post[0])
    ensures SkipWhile(pre + run + post, |pre|, keep) == |pre| + |run|
  {
    var s := pre + run + post;
    assert forall k | |pre| <= k < |pre| + |run| :: s[k] == run[k - |pre|];
    assert |pre| + |run| < |s| ==> s[|pre| + |run|] == post[0];
    SkipWhileStopsAt(s, |pre|, |pre| + |run|, keep);
  }

  /** Cutting `s` off where `SkipWhile` stops does not change where it stops. */
  lemma SkipWhileSlice(s: string, lo: nat, i: nat, keep: char -> bool)
    requires lo <= i <= |s|
    ensures var hi := SkipWhile(s, i, keep);
            hi <= |s| && SkipWhile(s[lo..hi], i - lo, keep) == hi - lo
  {
    var hi := SkipWhile(s, i, keep);
    var t := s[lo..hi];
    SkipWhileKeeps(s, i, keep);
    forall k | i - lo <= k < hi - lo ensures keep(t[k]) {
      assert t[k] == s[lo + k];
    }
    SkipWhileStopsAt(t, i - lo, hi - lo, keep);
  }

  /** Skipping twice is skipping once. */
  lemma SkipWhileIdempotent(s: string, i: nat, keep: char -> bool)
    ensures SkipWhile(s, SkipWhile(s, i, keep), keep) == SkipWhile(s, i, keep)
  {
  }

  // ---------------------------------------------------------------------
  // Text at a position

  /** `text` occurs in `s` at position `i`. */
  predicate TextAt(s: string, i: nat, text: string) {
    i + |text| <= |s| && s[i..i + |text|] == text
  }

  /** `s` is the text before `i`, then `text`, then the rest. */
  lemma TextAtSplits(s: string, i: nat, text: string)
    requires TextAt(s, i, text)
    ensures s == s[..i] + text + s[i + |text|..]
    ensures |s[..i]| == i
  {
  }

  /** Text occurring at `i` in two parts occurs there part by part. */
  lemma TextAtParts(s: string, i: nat, a: string, b: string)
    requires TextAt(s, i, a + b)
    ensures TextAt(s, i, a) && TextAt(s, i + |a|, b)
  {
    assert s[i..i + |a|] == (a + b)[..|a|];
    assert s[i + |a|..i + |a| + |b|] == (a + b)[|a|..];
  }

  /** The `k`-th character of text occurring at `i`. */
  lemma TextAtChar(s: string, i: nat, text: string, k: nat)
    requires TextAt(s, i, text) && k < |text|
    ensures s[i + k] == text[k]
  {
    assert s[i..i + |text|][k] == s[i + k];
  }
}

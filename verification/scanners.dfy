/**
 * The lexer's helper scanners: identifiers, possibly-quoted attribute values,
 * signed integers and An+B intervals. Each reads `input` from a position and
 * reports what it read together with how far it got.
 */
module Scanners {
  import opened Results
  import opened Chars
  import opened Tokens

  /** A scanned value and the number of characters it took. */
  datatype Taken<T> = Taken(value: T, count: nat)

  /** An interval and the position just after it. */
  datatype IntervalEnd = IntervalEnd(interval: StepInterval, end: nat)

  /** A character that may start an identifier: not reserved, not '-', not a digit. */
  predicate IsIdentStart(c: char)
    ensures IsIdentStart(c) ==> !IsWhitespace(c) && !IsCombinatorChar(c) && c != ':'
    ensures ('a' <= c <= 'z') || ('A' <= c <= 'Z') || c == '_' ==> IsIdentStart(c)
  {
    !IsReservedChar(c) && c != '-' && !IsDigit(c)
  }

  /** A non-empty run of name characters whose first character may start an identifier. */
  predicate IsIdent(v: string) {
    && |v| > 0
    && IsIdentStart(v[0])
    && forall k | 0 <= k < |v| :: IsNameChar(v[k])
  }

  /** Position `i` of `s` is the end of the input or holds a reserved character. */
  predicate AtNameBoundary(s: string, i: nat) {
    i >= |s| || IsReservedChar(s[i])
  }

  /**
   * The identifier starting at `i`: the longest run of non-reserved
   * characters there. It fails at the end of the input and when the first
   * character is reserved, '-' or a digit.
   */
  function ParseIdent(input: string, i: nat): (r: Result<string>)
    ensures r.Ok? <==> i < |input| && IsIdentStart(input[i])
    ensures r.Ok? ==>
              && IsIdent(r.value)
              && i + |r.value| <= |input|
              && input[i..i + |r.value|] == r.value
              && AtNameBoundary(input, i + |r.value|)
  {
    if i >= |input| || !IsIdentStart(input[i]) then SyntaxError
    else
      SkipWhileKeeps(input, i, IsNameChar);
      Ok(input[i..SkipWhile(input, i, IsNameChar)])
  }

  /** An identifier followed by a reserved character (or nothing) is read back exactly. */
  lemma ParseIdentAt(s: string, i: nat, v: string)
    requires IsIdent(v) && TextAt(s, i, v) && AtNameBoundary(s, i + |v|)
    ensures ParseIdent(s, i) == Ok(v)
  {
    TextAtChar(s, i, v, 0);
    forall k | i <= k < i + |v| ensures IsNameChar(s[k]) {
      TextAtChar(s, i, v, k - i);
    }
    SkipWhileStopsAt(s, i, i + |v|, IsNameChar);
  }

  /** Whether `c` opens a quoted string. */
  predicate IsQuote(c: char) {
    c == '"' || c == '\''
  }

  /**
   * A value `ParseMaybeString` can return: an identifier that does not
   * start with a quote, or text lacking one of the two quotes.
   */
  predicate IsAttributeValue(v: string) {
    (IsIdent(v) && !IsQuote(v[0])) || '"' !in v || '\'' !in v
  }

  /**
   * An attribute value: text between matching quotes (taking its length plus
   * two characters), or else an identifier. An unterminated quote fails.
   */
  function ParseMaybeString(input: string, i: nat): (r: Result<Taken<string>>)
    ensures !(i < |input| && IsQuote(input[i])) ==>
              r == (var v :- ParseIdent(input, i); Ok(Taken(v, |v|)))
    ensures i < |input| && IsQuote(input[i]) ==>
              && (r.Ok? <==> input[i] in input[i + 1..])
              && (r.Ok? ==>
                    && r.value.count == |r.value.value| + 2
                    && i + r.value.count <= |input|
                    && input[i + 1..i + 1 + |r.value.value|] == r.value.value
                    && input[i] !in r.value.value
                    && input[i + 1 + |r.value.value|] == input[i])
    ensures r.Ok? ==> IsAttributeValue(r.value.value)
  {
    if i < |input| && IsQuote(input[i]) then
      var q := input[i];
      var j := SkipWhile(input, i + 1, c => c != q);
      SkipWhileKeeps(input, i + 1, c => c != q);
      if j >= |input| then
        var rest := input[i + 1..];
        assert q !in rest by {
          forall k | 0 <= k < |rest| ensures rest[k] != q {
            assert rest[k] == input[i + 1 + k];
          }
        }
        SyntaxError
      else
        var v := input[i + 1..j];
        assert input[i + 1..][j - (i + 1)] == q;
        assert forall k | 0 <= k < |v| :: v[k] == input[i + 1 + k];
        Ok(Taken(v, j - i + 1))
    else
      var v :- ParseIdent(input, i);
      Ok(Taken(v, |v|))
  }

  /** A quoted value is read back with its quotes, whatever follows it. */
  lemma ParseMaybeStringAtQuoted(s: string, i: nat, q: char, v: string)
    requires IsQuote(q) && q !in v
    requires TextAt(s, i, [q] + v + [q])
    ensures ParseMaybeString(s, i) == Ok(Taken(v, |v| + 2))
  {
    var j := i + 1 + |v|;
    TextAtParts(s, i, [q] + v, [q]);
    TextAtParts(s, i, [q], v);
    TextAtChar(s, i, [q], 0);
    TextAtChar(s, j, [q], 0);
    forall k | i + 1 <= k < j ensures s[k] != q {
      TextAtChar(s, i + 1, v, k - i - 1);
    }
    SkipWhileStopsAt(s, i + 1, j, c => c != q);
  }

  /** The value of a digit character. */
  function DigitValue(c: char): (d: nat)
    requires IsDigit(c)
    ensures d < 10
  {
    (c as int) - ('0' as int)
  }

  /** Every character of `s` is a digit. */
  predicate AllDigits(s: string) {
    forall k | 0 <= k < |s| :: IsDigit(s[k])
  }

  /** The value of a string of decimal digits (leading zeros allowed). */
  function DecimalValue(ds: string): (n: nat)
    requires AllDigits(ds)
    decreases |ds|
  {
    if |ds| == 0 then 0
    else DecimalValue(ds[..|ds| - 1]) * 10 + DigitValue(ds[|ds| - 1])
  }

  /**
   * JavaScript's `parseInt(text)` for decimal text that starts with an
   * optional sign: the sign applied to the longest run of digits after it,
   * or NaN (`None`) when there is none.
   */
  function ParseIntPrefix(text: string): (r: Option<int>)
    ensures r.Some? <==> (|text| > 0 && IsDigit(text[0])) || (|text| > 1 && IsSign(text[0]) && IsDigit(text[1]))
    ensures r.Some? && |text| > 0 && text[0] == '-' ==> r.value <= 0
    ensures r.Some? && !(|text| > 0 && text[0] == '-') ==> r.value >= 0
  {
    var d := if |text| > 0 && IsSign(text[0]) then 1 else 0;
    var e := SkipWhile(text, d, IsDigit);
    SkipWhileKeeps(text, d, IsDigit);
    if e == d then None
    else
      var n: int := DecimalValue(text[d..e]);
      Some(if text[0] == '-' then -n else n)
  }

  /** '+' or '-'. */
  predicate IsSign(c: char) {
    c == '+' || c == '-'
  }

  /** `n` negated when `negative` holds. */
  function Signed(negative: bool, n: nat): int {
    if negative then -(n as int) else n
  }

  /**
   * An optional sign followed by digits, starting at `start`, converted with
   * `parseInt`; the count is the number of characters consumed, sign
   * included, so a lone sign takes one character and gives NaN. The value is
   * computed here from the digits in place; `ParseIntegerIsParseInt` shows it
   * is `parseInt` of the consumed text.
   */
  function ParseInteger(input: string, start: nat): (r: Taken<Option<int>>)
    ensures start + r.count <= |input| || r.count == 0
    ensures r.count > 0 <==> start < |input| && (IsSign(input[start]) || IsDigit(input[start]))
    ensures forall k | start < k < start + r.count :: IsDigit(input[k])
    ensures start + r.count < |input| ==> !IsDigit(input[start + r.count])
    ensures r.value.Some? <==> r.count > 1 || (r.count == 1 && IsDigit(input[start]))
  {
    if start >= |input| then Taken(None, 0)
    else
      var d := if IsSign(input[start]) then start + 1 else start;
      var e := SkipWhile(input, d, IsDigit);
      SkipWhileKeeps(input, d, IsDigit);
      Taken(if e == d then None else Some(Signed(input[start] == '-', DecimalValue(input[d..e]))), e - start)
  }

  /** `parseInt` of `text` once the end `e` of the digits after its sign is known. */
  lemma ParseIntPrefixTakes(text: string, d: nat, e: nat)
    requires d == (if |text| > 0 && IsSign(text[0]) then 1 else 0)
    requires SkipWhile(text, d, IsDigit) == e
    requires d <= e <= |text| && AllDigits(text[d..e])
    ensures ParseIntPrefix(text) == if e == d then None else Some(Signed(text[0] == '-', DecimalValue(text[d..e])))
  {
    hide DecimalValue;
  }

  /** `parseInteger` at `start` once the end `e` of the digits after the sign is known. */
  lemma ParseIntegerTakes(input: string, start: nat, d: nat, e: nat)
    requires start < |input| && d == (if IsSign(input[start]) then start + 1 else start)
    requires SkipWhile(input, d, IsDigit) == e
    requires d <= e <= |input| && AllDigits(input[d..e])
    ensures ParseInteger(input, start) ==
              Taken(if e == d then None else Some(Signed(input[start] == '-', DecimalValue(input[d..e]))), e - start)
  {
    hide DecimalValue;
  }

  /** The run of digits `SkipWhile` passes over is all digits. */
  lemma SkippedDigits(s: string, d: nat)
    requires d <= |s|
    ensures var e := SkipWhile(s, d, IsDigit);
            e <= |s| && AllDigits(s[d..e])
  {
    var e := SkipWhile(s, d, IsDigit);
    SkipWhileKeeps(s, d, IsDigit);
    forall k | 0 <= k < e - d ensures IsDigit(s[d..e][k]) {
      assert s[d..e][k] == s[d + k];
    }
  }

  /** The value `parseInteger` gives is `parseInt` of exactly the text it consumed. */
  lemma ParseIntegerIsParseInt(input: string, start: nat)
    requires start <= |input|
    ensures var r := ParseInteger(input, start);
            start + r.count <= |input| && r.value == ParseIntPrefix(input[start..start + r.count])
  {
    if start < |input| {
      hide ParseInteger, ParseIntPrefix, DecimalValue, AllDigits;
      var d := if IsSign(input[start]) then start + 1 else start;
      var e := SkipWhile(input, d, IsDigit);
      var text := input[start..e];
      SkippedDigits(input, d);
      SkipWhileSlice(input, start, d, IsDigit);
      assert text[d - start..e - start] == input[d..e];
      hide SkipWhile;
      ParseIntegerTakes(input, start, d, e);
      ParseIntPrefixTakes(text, d - start, e - start);
    }
  }

  /** Skips the whitespace at `i`: `while (isWhitespace(input[i])) i++`. */
  function SkipWhitespace(input: string, i: nat): (j: nat)
    ensures i <= j && (i < j ==> j <= |input|)
    ensures j < |input| ==> !IsWhitespace(input[j])
  {
    SkipWhile(input, i, IsWhitespace)
  }

  /** Position `j` of `s` is the end of the input or holds no whitespace. */
  predicate NoSpaceAt(s: string, j: nat) {
    j >= |s| || !IsWhitespace(s[j])
  }

  /** Skipping whitespace where there is none stays put. */
  lemma NoSpaceSkipped(s: string, j: nat)
    requires NoSpaceAt(s, j)
    ensures SkipWhitespace(s, j) == j
  {
  }

  /**
   * An An+B interval starting at `i`. Without an 'n' after the first integer
   * the interval is the constant `0n+B` and ends right after that integer;
   * otherwise the integers before and after the 'n' are A and B. The second
   * component of the result is a position, not a count.
   */
  function ParseStepInterval(input: string, i: nat): (r: IntervalEnd)
    ensures i <= r.end && (i < r.end ==> r.end <= |input|)
  {
    var i1 := SkipWhitespace(input, i);
    var first := ParseInteger(input, i1);
    var initialFinish := i1 + first.count;
    var i2 := SkipWhitespace(input, initialFinish);
    if !CharIs(input, i2, 'n') then
      IntervalEnd(StepInterval(Some(0), first.value), initialFinish)
    else
      var i3 := SkipWhitespace(input, i2 + 1);
      var second := ParseInteger(input, i3);
      IntervalEnd(StepInterval(first.value, second.value), i3 + second.count)
  }
}

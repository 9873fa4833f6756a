/**
 * The text of integers and An+B intervals as the interval scanner reads
 * them, and the proofs that it reads that text back exactly.
 */
module NumberText {
  import opened Results
  import opened Chars
  import opened Tokens
  import opened Scanners

  // ---------------------------------------------------------------------
  // Integers

  /** The digit character for `d`. */
  function DigitChar(d: nat): (c: char)
    requires d < 10
    ensures IsDigit(c) && DigitValue(c) == d
  {
    ('0' as int + d) as char
  }

  /** The shortest decimal text of `n`. */
  function DecimalText(n: nat): (s: string)
    ensures |s| > 0 && IsDigit(s[0])
    decreases n
  {
    if n < 10 then [DigitChar(n)] else DecimalText(n / 10) + [DigitChar(n % 10)]
  }

  /** The decimal text of `n` is made of digits only. */
  lemma {:induction false} DecimalTextDigits(n: nat)
    ensures AllDigits(DecimalText(n))
    decreases n
  {
    if n >= 10 {
      DecimalTextDigits(n / 10);
    }
  }

  /** Reading the decimal text of `n` gives `n` back. */
  lemma {:induction false} DecimalTextValue(n: nat)
    ensures AllDigits(DecimalText(n)) && DecimalValue(DecimalText(n)) == n
    decreases n
  {
    DecimalTextDigits(n);
    if n >= 10 {
      DecimalTextDigits(n / 10);
      DecimalTextValue(n / 10);
      var s := DecimalText(n);
      assert s[..|s| - 1] == DecimalText(n / 10);
    }
  }

  /** The absolute value of `v`. */
  function Magnitude(v: int): nat {
    if v < 0 then -v else v
  }

  /** An integer as `parseInt` reads it; NaN prints as nothing. */
  function IntText(n: Option<int>): (s: string)
    ensures n.None? <==> |s| == 0
    ensures n.Some? ==> s[0] == '-' || IsDigit(s[0])
  {
    match n
    case None => ""
    case Some(v) => (if v < 0 then "-" else "") + DecimalText(Magnitude(v))
  }

  /** An integer with an explicit sign; NaN prints as nothing. */
  function SignedIntText(n: Option<int>): (s: string)
    ensures n.None? <==> |s| == 0
    ensures n.Some? ==> IsSign(s[0])
  {
    match n
    case None => ""
    case Some(v) => (if v < 0 then "-" else "+") + DecimalText(Magnitude(v))
  }

  /** `parseInt` of text whose digits after the optional sign run to its end. */
  lemma ParseIntPrefixOfDigits(text: string, d: nat, ds: string)
    requires d == (if |text| > 0 && IsSign(text[0]) then 1 else 0)
    requires d <= |text| && text[d..] == ds && |ds| > 0 && AllDigits(ds)
    requires SkipWhile(text, d, IsDigit) == |text|
    ensures ParseIntPrefix(text) == Some(Signed(text[0] == '-', DecimalValue(ds)))
  {
    assert text[d..|text|] == ds;
  }

  /** A sign (or none) followed by digits reads as the signed value of the digits. */
  lemma ParseIntPrefixReads(sign: string, ds: string)
    requires sign == "" || sign == "+" || sign == "-"
    requires |ds| > 0 && AllDigits(ds)
    ensures ParseIntPrefix(sign + ds) == Some(Signed(sign == "-", DecimalValue(ds)))
  {
    var text := sign + ds;
    assert text[|sign|] == ds[0];
    assert text[0] == '-' <==> sign == "-";
    assert text[|sign|..] == ds;
    assert text + [] == text;
    SkipWhileOverRun(sign, ds, [], IsDigit);
    ParseIntPrefixOfDigits(text, |sign|, ds);
  }

  /** Where the sign and the digits lie in `pre + sign + ds + post`. */
  lemma IntegerLayout(pre: string, sign: string, ds: string, post: string)
    requires sign == "" || sign == "+" || sign == "-"
    requires |ds| > 0 && AllDigits(ds)
    requires post == [] || !IsDigit(post[0])
    ensures var s := pre + sign + ds + post;
            var e := |pre| + |sign| + |ds|;
            && |pre| < |s|
            && (IsSign(s[|pre|]) <==> sign != "")
            && (s[|pre|] == '-' <==> sign == "-")
            && e <= |s| && s[|pre| + |sign|..e] == ds
            && SkipWhile(s, |pre| + |sign|, IsDigit) == e
  {
    var s := pre + sign + ds + post;
    var start := |pre|;
    assert s[start] == (sign + ds)[0];
    assert s == (pre + sign) + ds + post;
    SkipWhileOverRun(pre + sign, ds, post, IsDigit);
  }

  /** `parseInteger` reads a sign and digits up to the first non-digit. */
  lemma ParseIntegerReads(pre: string, sign: string, ds: string, post: string)
    requires sign == "" || sign == "+" || sign == "-"
    requires |ds| > 0 && AllDigits(ds)
    requires post == [] || !IsDigit(post[0])
    ensures ParseInteger(pre + sign + ds + post, |pre|) == Taken(Some(Signed(sign == "-", DecimalValue(ds))), |sign| + |ds|)
  {
    hide ParseInteger, SkipWhile, DecimalValue, Signed, AllDigits, IsSign;
    var s := pre + sign + ds + post;
    IntegerLayout(pre, sign, ds, post);
    ParseIntegerTakes(s, |pre|, |pre| + |sign|, |pre| + |sign| + |ds|);
  }

  /** With neither a sign nor a digit at the start, `parseInteger` takes nothing and gives NaN. */
  lemma ParseIntegerReadsNothing(pre: string, post: string)
    requires post == [] || (!IsDigit(post[0]) && !IsSign(post[0]))
    ensures ParseInteger(pre + post, |pre|) == Taken(None, 0)
  {
    var s := pre + post;
    if |post| > 0 {
      assert s[|pre|] == post[0];
    }
  }

  /** `parseInteger` reads `IntText(n)` back as `n`. */
  lemma ParseIntegerReadsIntText(pre: string, n: Option<int>, post: string)
    requires post == [] || (!IsDigit(post[0]) && !IsSign(post[0]))
    ensures ParseInteger(pre + IntText(n) + post, |pre|) == Taken(n, |IntText(n)|)
  {
    match n
    case None =>
      assert pre + IntText(n) + post == pre + post;
      ParseIntegerReadsNothing(pre, post);
    case Some(v) =>
      var sign := if v < 0 then "-" else "";
      var ds := DecimalText(Magnitude(v));
      assert IntText(n) == sign + ds;
      assert pre + IntText(n) + post == pre + sign + ds + post;
      DecimalTextDigits(Magnitude(v));
      DecimalTextValue(Magnitude(v));
      assert Signed(sign == "-", DecimalValue(ds)) == v;
      ParseIntegerReads(pre, sign, ds, post);
  }

  /** `parseInteger` reads `SignedIntText(n)` back as `n`. */
  lemma ParseIntegerReadsSignedIntText(pre: string, n: Option<int>, post: string)
    requires post == [] || (!IsDigit(post[0]) && !IsSign(post[0]))
    ensures ParseInteger(pre + SignedIntText(n) + post, |pre|) == Taken(n, |SignedIntText(n)|)
  {
    match n
    case None =>
      assert pre + SignedIntText(n) + post == pre + post;
      ParseIntegerReadsNothing(pre, post);
    case Some(v) =>
      var sign := if v < 0 then "-" else "+";
      var ds := DecimalText(Magnitude(v));
      assert SignedIntText(n) == sign + ds;
      assert pre + SignedIntText(n) + post == pre + sign + ds + post;
      DecimalTextDigits(Magnitude(v));
      DecimalTextValue(Magnitude(v));
      assert Signed(sign == "-", DecimalValue(ds)) == v;
      ParseIntegerReads(pre, sign, ds, post);
  }

  /** The character of `s` after position `j`, if any, is not a digit or a sign. */
  predicate EndsNumber(s: string, j: nat) {
    j >= |s| || (!IsDigit(s[j]) && !IsSign(s[j]))
  }

  /** Where neither a digit nor a sign stands, `parseInteger` reads NaN and takes nothing. */
  lemma ParseIntegerAtNothing(s: string, i: nat)
    requires EndsNumber(s, i)
    ensures ParseInteger(s, i) == Taken(None, 0)
  {
  }

  /** `parseInteger` reads `IntText(n)` wherever it occurs. */
  lemma ParseIntegerAtIntText(s: string, i: nat, n: Option<int>)
    requires TextAt(s, i, IntText(n))
    requires EndsNumber(s, i + |IntText(n)|)
    ensures ParseInteger(s, i) == Taken(n, |IntText(n)|)
  {
    var post := s[i + |IntText(n)|..];
    TextAtSplits(s, i, IntText(n));
    assert |post| > 0 ==> post[0] == s[i + |IntText(n)|];
    ParseIntegerReadsIntText(s[..i], n, post);
  }

  /** `parseInteger` reads `SignedIntText(n)` wherever it occurs. */
  lemma ParseIntegerAtSignedIntText(s: string, i: nat, n: Option<int>)
    requires TextAt(s, i, SignedIntText(n))
    requires EndsNumber(s, i + |SignedIntText(n)|)
    ensures ParseInteger(s, i) == Taken(n, |SignedIntText(n)|)
  {
    var post := s[i + |SignedIntText(n)|..];
    TextAtSplits(s, i, SignedIntText(n));
    assert |post| > 0 ==> post[0] == s[i + |SignedIntText(n)|];
    ParseIntegerReadsSignedIntText(s[..i], n, post);
  }

  // ---------------------------------------------------------------------
  // Intervals

  /** An An+B interval as text: `B` alone when A is 0, otherwise `An` and a signed `B`. */
  function IntervalText(iv: StepInterval): (s: string)
    ensures |s| > 0 ==> !IsWhitespace(s[0]) && s[0] != ')'
  {
    if iv.a == Some(0) then IntText(iv.b)
    else IntText(iv.a) + "n" + SignedIntText(iv.b)
  }

  /** Position `j` of `s` is the end of the input or holds `)`. */
  predicate ClosedAt(s: string, j: nat) {
    j >= |s| || s[j] == ')'
  }

  /** A constant interval prints as its `B` alone and is read back. */
  lemma ParseConstantIntervalAt(s: string, i: nat, iv: StepInterval)
    requires iv.a == Some(0)
    requires TextAt(s, i, IntervalText(iv))
    requires ClosedAt(s, i + |IntervalText(iv)|)
    ensures ParseStepInterval(s, i) == IntervalEnd(iv, i + |IntervalText(iv)|)
  {
    hide ParseInteger, ParseStepInterval, SkipWhitespace, DecimalText, IntText;
    var t := IntText(iv.b);
    if |t| > 0 {
      TextAtChar(s, i, t, 0);
    }
    NoSpaceSkipped(s, i);
    NoSpaceSkipped(s, i + |t|);
    ParseIntegerAtIntText(s, i, iv.b);
    ParseStepIntervalTakesConstant(s, i, i + |t|, iv.b);
  }

  /** `parseStepInterval` at a position where its integer has been read and no `n` follows. */
  lemma ParseStepIntervalTakesConstant(s: string, i: nat, f: nat, b: Option<int>)
    requires i <= f
    requires SkipWhitespace(s, i) == i && ParseInteger(s, i) == Taken(b, f - i)
    requires SkipWhitespace(s, f) == f && !CharIs(s, f, 'n')
    ensures ParseStepInterval(s, i) == IntervalEnd(StepInterval(Some(0), b), f)
  {
    hide ParseInteger, SkipWhitespace;
  }

  /** Where the pieces of `ta + "n" + tb` lie once it is written at `i` and closed. */
  lemma SteppedIntervalLayout(s: string, i: nat, ta: string, tb: string)
    requires TextAt(s, i, ta + "n" + tb)
    requires ClosedAt(s, i + |ta| + 1 + |tb|)
    requires |ta| > 0 ==> !IsWhitespace(ta[0])
    requires |tb| > 0 ==> !IsWhitespace(tb[0])
    ensures var f := i + |ta|;
            && TextAt(s, i, ta) && EndsNumber(s, f) && CharIs(s, f, 'n')
            && TextAt(s, f + 1, tb) && EndsNumber(s, f + 1 + |tb|)
            && NoSpaceAt(s, i) && NoSpaceAt(s, f + 1)
  {
    var f := i + |ta|;
    TextAtParts(s, i, ta + "n", tb);
    TextAtParts(s, i, ta, "n");
    TextAtChar(s, f, "n", 0);
    if |ta| > 0 {
      TextAtChar(s, i, ta, 0);
    }
    if |tb| > 0 {
      TextAtChar(s, f + 1, tb, 0);
    }
  }

  /** An interval with a step prints as `An` and a signed `B` and is read back. */
  lemma ParseSteppedIntervalAt(s: string, i: nat, iv: StepInterval)
    requires iv.a != Some(0)
    requires TextAt(s, i, IntervalText(iv))
    requires ClosedAt(s, i + |IntervalText(iv)|)
    ensures ParseStepInterval(s, i) == IntervalEnd(iv, i + |IntervalText(iv)|)
  {
    hide ParseInteger, DecimalText, IntText, SignedIntText, SkipWhitespace;
    var f := i + |IntText(iv.a)|;
    SteppedIntervalLayout(s, i, IntText(iv.a), SignedIntText(iv.b));
    NoSpaceSkipped(s, i);
    NoSpaceSkipped(s, f);
    NoSpaceSkipped(s, f + 1);
    ParseIntegerAtIntText(s, i, iv.a);
    ParseIntegerAtSignedIntText(s, f + 1, iv.b);
    ParseStepIntervalTakes(s, i, f, i + |IntervalText(iv)|, iv);
  }

  /** `parseStepInterval` at a position where its first integer and the `n` have been read. */
  lemma ParseStepIntervalTakesFirst(s: string, i: nat, f: nat, a: Option<int>)
    requires i <= f
    requires SkipWhitespace(s, i) == i && ParseInteger(s, i) == Taken(a, f - i)
    requires SkipWhitespace(s, f) == f && CharIs(s, f, 'n')
    ensures var j := SkipWhitespace(s, f + 1);
            ParseStepInterval(s, i) == IntervalEnd(StepInterval(a, ParseInteger(s, j).value), j + ParseInteger(s, j).count)
  {
  }

  /** `parseStepInterval` at a position where all its pieces have been read. */
  lemma ParseStepIntervalTakes(s: string, i: nat, f: nat, g: nat, iv: StepInterval)
    requires i <= f < g
    requires SkipWhitespace(s, i) == i && ParseInteger(s, i) == Taken(iv.a, f - i)
    requires SkipWhitespace(s, f) == f && CharIs(s, f, 'n')
    requires SkipWhitespace(s, f + 1) == f + 1 && ParseInteger(s, f + 1) == Taken(iv.b, g - f - 1)
    ensures ParseStepInterval(s, i) == IntervalEnd(iv, g)
  {
    ParseStepIntervalTakesFirst(s, i, f, iv.a);
  }

  /** Every interval, printed and followed by `)` or nothing, is read back exactly. */
  lemma ParseStepIntervalAt(s: string, i: nat, iv: StepInterval)
    requires TextAt(s, i, IntervalText(iv))
    requires ClosedAt(s, i + |IntervalText(iv)|)
    ensures ParseStepInterval(s, i) == IntervalEnd(iv, i + |IntervalText(iv)|)
  {
    if iv.a == Some(0) {
      ParseConstantIntervalAt(s, i, iv);
    } else {
      ParseSteppedIntervalAt(s, i, iv);
    }
  }
}

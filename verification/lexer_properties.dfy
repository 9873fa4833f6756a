/**
 * What the lexer does with the inputs its quirks are about: the off-by-one
 * pseudo-element check, `:focus`, unknown `:dir(...)` arguments, the
 * universal-selector rule, reserved characters, unusual attribute operators,
 * a sign with no coefficient before `n`, and inputs that yield no tokens.
 */
module LexerProperties {
  import opened Results
  import opened Chars
  import opened PseudoClass
  import opened Tokens
  import opened Scanners
  import opened Lexer
  import opened NumberText
  import opened Printer
  import opened ReadBack

  // ---------------------------------------------------------------------
  // Pseudo-classes

  /**
   * `::` is always rejected. The second `:` is looked for one character too
   * far on, so a pseudo-element name is never read: either the name is read
   * from the second `:`, where no identifier starts, or from the character
   * after it, which is then also reported as a syntax error.
   */
  lemma DoubleColonRejected(s: string, i: nat, last: Option<Token>)
    requires CharIs(s, i, ':') && CharIs(s, i + 1, ':')
    ensures i < |s| && Step(s, i, last).SyntaxError?
  {
    StepAtColon(s, i, last);
  }

  /** A pseudo-class is accepted only under a name the lookup knows. */
  lemma PseudoNeedsKnownName(s: string, i: nat, last: Option<Token>)
    requires CharIs(s, i, ':') && Step(s, i, last).Ok?
    ensures ParseIdent(s, i + 1).Ok? && ParsePseudoClassType(ParseIdent(s, i + 1).value).Some?
  {
    StepAtColon(s, i, last);
    hide ParseIdent, ParsePseudoClassType, SkipWhitespace, ParseStepInterval, DirectionOf, IsNth;
  }

  /**
   * `dir` and the nth pseudo-classes take their argument in parentheses: `(`
   * right after the name, and the accepted text ends with `)`.
   */
  lemma PseudoArgumentParenthesized(s: string, p: nat)
    requires ScanPseudo(s, p).Ok?
    ensures ParseIdent(s, p).Ok?
    ensures var name := ParseIdent(s, p).value;
            var t := ParsePseudoClassType(name);
            var next := ScanPseudo(s, p).value.next;
            t.Some? && (t.value == Dir || IsNth(t.value)) ==> CharIs(s, p + |name|, '(') && s[next - 1] == ')'
  {
    hide ParseIdent, ParsePseudoClassType, SkipWhitespace, ParseStepInterval, DirectionOf, IsNth;
  }

  /** `:focus` is read as `:active`, not as `:focus`. */
  lemma FocusReadsAsActive(s: string, i: nat, last: Option<Token>)
    requires TextAt(s, i, ":focus") && AtNameBoundary(s, i + 6)
    ensures i < |s| && Step(s, i, last) == Ok(Emit(i + 6, Some(PseudoClass(Active, NoArg))))
  {
    hide Step, ScanPseudo, ParsePseudoClassType, ParseIdent, Keyword, IsIdent;
    FocusLayout(s, i);
    StepAtColon(s, i, last);
    ParseIdentAt(s, i + 1, "focus");
    FocusResolvesToActive("focus");
    ScanPseudoTakesPlain(s, i + 1, "focus", Active);
  }

  /** Where the pieces of `:focus` lie once written at `i`. */
  lemma FocusLayout(s: string, i: nat)
    requires TextAt(s, i, ":focus") && AtNameBoundary(s, i + 6)
    ensures CharIs(s, i, ':') && !CharIs(s, i + 2, ':')
    ensures IsIdent("focus") && TextAt(s, i + 1, "focus") && AtNameBoundary(s, i + 1 + |"focus"|)
  {
    hide Keyword, ParsePseudoClassType;
    TextAtParts(s, i, ":", "focus");
    TextAtChar(s, i, ":", 0);
    TextAtChar(s, i + 1, "focus", 1);
    KeywordIsIdent(Focus);
  }

  /**
   * `:dir(x)` for any identifier `x`: a direction token for `rtl` and `ltr`,
   * and for every other identifier no token at all and no error.
   */
  lemma DirArgumentRead(s: string, i: nat, last: Option<Token>, x: string)
    requires IsIdent(x) && TextAt(s, i, ":dir(" + x + ")")
    ensures var dir := DirectionOf(x);
            && i < |s|
            && Step(s, i, last) ==
                 Ok(Emit(i + 6 + |x|, if dir.Some? then Some(PseudoClass(Dir, DirArg(dir.value))) else None))
  {
    hide ScanPseudo, ParsePseudoClassType, ParseIdent, SkipWhitespace, DirectionOf;
    var kw := Keyword(Dir);
    assert ":dir(" + x + ")" == ":" + (kw + "(" + x + ")");
    TextAtParts(s, i, ":", kw + "(" + x + ")");
    TextAtChar(s, i, ":", 0);
    StepAtColon(s, i, last);
    ScanPseudoReadsDirArg(s, i + 1, x);
  }

  // ---------------------------------------------------------------------
  // Dispatch on the current character

  /** A universal selector is accepted exactly where it may follow the last token. */
  lemma UniversalRule(s: string, i: nat, last: Option<Token>)
    requires CharIs(s, i, '*')
    ensures i < |s| && (Step(s, i, last).Ok? <==> UniversalMayFollow(last))
    ensures Step(s, i, last).Ok? ==> Step(s, i, last).value == Emit(i + 1, Some(Universal))
  {
  }

  /**
   * A reserved character that starts no construct (`=`, `(`, `)`, `]`, `|`,
   * `^`, `$`) is a syntax error wherever it is met.
   */
  lemma StrayReservedRejected(s: string, i: nat, last: Option<Token>)
    requires i < |s| && IsReservedChar(s[i]) && !IsWhitespace(s[i])
    requires s[i] !in {'.', '#', '[', ',', '>', '+', '~', ':', '*'}
    ensures Step(s, i, last).SyntaxError?
  {
  }

  /** Any non-reserved character starts a tag name, digits and `-` included. */
  lemma NameCharStartsTag(s: string, i: nat, last: Option<Token>)
    requires i < |s| && IsNameChar(s[i])
    ensures Step(s, i, last).Ok?
    ensures Step(s, i, last).value.token.Some? && Step(s, i, last).value.token.value.Tag?
  {
    hide ScanTag;
  }

  /** A single space beside a combinator character, or at the start of the input, pushes nothing. */
  lemma SpaceBesideCombinatorDropped(s: string, i: nat, last: Option<Token>)
    requires CharIs(s, i, ' ') && i + 1 < |s| && !IsWhitespace(s[i + 1])
    requires i == 0 || IsCombinatorChar(s[i - 1]) || IsCombinatorChar(s[i + 1])
    ensures Step(s, i, last) == Ok(Emit(i + 1, None))
  {
    hide ScanAttribute, ScanPseudo, ScanTag, ParseIdent, SkipWhile;
    SkipWhileStopsAt(s, i, i + 1, IsWhitespace);
  }

  /** A class or id name may not start with a digit or `-`, unlike a tag name. */
  lemma ClassOrIdNeedsIdentStart(s: string, i: nat, last: Option<Token>)
    requires CharIs(s, i, '.') || CharIs(s, i, '#')
    requires i + 1 < |s| && (IsDigit(s[i + 1]) || s[i + 1] == '-')
    ensures Step(s, i, last).SyntaxError?
  {
  }

  // ---------------------------------------------------------------------
  // Attribute selectors

  /** An attribute selector the lexer accepts always ends with the `]` it consumed. */
  lemma AttributeEndsWithBracket(s: string, p: nat)
    requires ScanAttribute(s, p).Ok?
    ensures var n := ScanAttribute(s, p).value.next; 0 < n <= |s| && s[n - 1] == ']'
  {
    hide ParseIdent, ParseMaybeString, SkipWhitespace, CloseAttribute, OperatorType;
  }

  /** An attribute name that runs, perhaps with trailing whitespace, to the end of the input is rejected. */
  lemma UnclosedAttributeRejected(s: string, p: nat, name: string)
    requires IsIdent(name) && TextAt(s, p, name) && SkipWhitespace(s, p + |name|) >= |s|
    ensures ScanAttribute(s, p).SyntaxError?
  {
    hide ParseIdent, ParseMaybeString, SkipWhitespace, CloseAttribute, OperatorType;
    var b := p + |name|;
    TextAtChar(s, p, name, 0);
    NoSpaceSkipped(s, p);
    if b < |s| && !IsWhitespace(s[b]) {
      NoSpaceSkipped(s, b);
    }
    ParseIdentAt(s, p, name);
  }

  /**
   * The first character after the name and any whitespace, when it is neither
   * `]` nor `=`, must be followed by `=`: `[a~b]`, `[ a ~ =b]` and `[a b]` are
   * all rejected.
   */
  lemma OperatorWithoutEqualsRejected(s: string, p: nat, name: string)
    requires var a := SkipWhitespace(s, p); IsIdent(name) && TextAt(s, a, name) && AtNameBoundary(s, a + |name|)
    requires var b := SkipWhitespace(s, SkipWhitespace(s, p) + |name|);
             b < |s| && s[b] != ']' && s[b] != '=' && !CharIs(s, b + 1, '=')
    ensures ScanAttribute(s, p).SyntaxError?
  {
    hide ScanAttribute, ScanAfterName, ParseIdent, SkipWhitespace;
    ParseIdentAt(s, SkipWhitespace(s, p), name);
    ScanAttributeTakesSpacedName(s, p, name);
  }

  /** `ScanAttribute` once the name has been read after any whitespace. */
  lemma ScanAttributeTakesSpacedName(s: string, p: nat, name: string)
    requires ParseIdent(s, SkipWhitespace(s, p)) == Ok(name)
    ensures IsIdent(name) && ScanAttribute(s, p) == ScanAfterName(s, name, SkipWhitespace(s, SkipWhitespace(s, p) + |name|))
  {
    hide ParseIdent, SkipWhitespace, ScanAfterName;
  }

  /** `ScanAttribute` once the name, a space, a two-character operator, the value and `]` have been read. */
  lemma ScanAttributeTakesSpacedOperator(s: string, p: nat, name: string, v: string, n: nat)
    requires SkipWhitespace(s, p) == p && ParseIdent(s, p) == Ok(name)
    requires var b := p + |name| + 1; SkipWhitespace(s, p + |name|) == b && b < |s| && !CharIs(s, b, ']') && !CharIs(s, b, '=') && CharIs(s, b + 1, '=')
    requires var c := p + |name| + 3; SkipWhitespace(s, c) == c && ParseMaybeString(s, c) == Ok(Taken(v, n))
    requires var d := p + |name| + 3 + n; SkipWhitespace(s, d) == d && CharIs(s, d, ']')
    ensures ScanAttribute(s, p) ==
              Ok(Emit(p + |name| + 3 + n + 1, Some(Attribute(name, OperatorType(s[p + |name| + 1]), Some(v)))))
  {
    hide ScanAttribute, ParseIdent, ParseMaybeString, SkipWhitespace, OperatorType, WellFormedToken, IsIdent, IsAttributeValue;
    ScanAttributeTakesName(s, p, name);
  }

  /** Where the pieces of `name`, a space, an operator, a value and `]` lie once written at `p`. */
  lemma SpacedOperatorLayout(s: string, p: nat, name: string, c: char, vt: string)
    requires |name| > 0 && !IsWhitespace(name[0]) && !IsWhitespace(c) && |vt| > 0 && !IsWhitespace(vt[0])
    requires TextAt(s, p, name + [' ', c, '='] + vt + "]")
    ensures var b := p + |name| + 1;
            var d := b + 2 + |vt|;
            && TextAt(s, p, name) && NoSpaceAt(s, p) && AtNameBoundary(s, p + |name|)
            && s[p + |name|] == ' '
            && b < |s| && s[b] == c && CharIs(s, b + 1, '=')
            && TextAt(s, b + 2, vt) && NoSpaceAt(s, b + 2)
            && CharIs(s, d, ']') && NoSpaceAt(s, d)
  {
    var op := [' ', c, '='];
    var b := p + |name| + 1;
    var d := b + 2 + |vt|;
    TextAtParts(s, p, name + op + vt, "]");
    TextAtParts(s, p, name + op, vt);
    TextAtParts(s, p, name, op);
    TextAtChar(s, p, name, 0);
    TextAtChar(s, p + |name|, op, 0);
    TextAtChar(s, p + |name|, op, 1);
    TextAtChar(s, p + |name|, op, 2);
    TextAtChar(s, b + 2, vt, 0);
    TextAtChar(s, d, "]", 0);
  }

  /**
   * Any character other than `]` and `=` followed by `=` is taken as an
   * operator, and one naming no matcher gives an attribute selector with a
   * value and no matcher: `[a b=c]` is read as `[a]` with the value `c`.
   */
  lemma UnknownOperatorHasNoMatcher(s: string, p: nat, name: string, c: char, v: string)
    requires IsIdent(name) && IsAttributeValue(v)
    requires !IsWhitespace(c) && c != ']' && c != '=' && OperatorType(c).None?
    requires TextAt(s, p, name + [' ', c, '='] + ValueText(v) + "]")
    ensures ScanAttribute(s, p) ==
              Ok(Emit(p + |name| + 3 + |ValueText(v)| + 1, Some(Attribute(name, None, Some(v)))))
  {
    hide ScanAttribute, ParseIdent, ParseMaybeString, SkipWhile, ValueText, OperatorType, IsAttributeValue, TextAt;
    var vt := ValueText(v);
    var b := p + |name| + 1;
    var d := b + 2 + |vt|;
    SpacedOperatorLayout(s, p, name, c, vt);
    NoSpaceSkipped(s, p);
    ParseIdentAt(s, p, name);
    SkipWhileStopsAt(s, p + |name|, b, IsWhitespace);
    NoSpaceSkipped(s, b + 2);
    ValueTextRead(s, b + 2, v);
    NoSpaceSkipped(s, d);
    ScanAttributeTakesSpacedOperator(s, p, name, v, |vt|);
  }

  // ---------------------------------------------------------------------
  // An+B intervals

  /**
   * A sign written straight before `n` is taken as the whole first integer,
   * which is NaN: `-n+3` has no coefficient rather than the coefficient -1.
   */
  lemma SignedNHasNoCoefficient(s: string, i: nat, sign: char, b: Option<int>)
    requires IsSign(sign)
    requires TextAt(s, i, [sign, 'n'] + SignedIntText(b)) && ClosedAt(s, i + 2 + |SignedIntText(b)|)
    ensures ParseStepInterval(s, i) == IntervalEnd(StepInterval(None, b), i + 2 + |SignedIntText(b)|)
  {
    hide ParseInteger, ParseStepInterval, SkipWhitespace, SignedIntText;
    var t := SignedIntText(b);
    TextAtParts(s, i, [sign, 'n'], t);
    TextAtChar(s, i, [sign, 'n'], 0);
    TextAtChar(s, i, [sign, 'n'], 1);
    if |t| > 0 {
      TextAtChar(s, i + 2, t, 0);
    }
    NoSpaceSkipped(s, i);
    NoSpaceSkipped(s, i + 1);
    NoSpaceSkipped(s, i + 2);
    SkipWhileStopsAt(s, i + 1, i + 1, IsDigit);
    assert AllDigits(s[i + 1..i + 1]);
    ParseIntegerTakes(s, i, i + 1, i + 1);
    ParseIntegerAtSignedIntText(s, i + 2, b);
    ParseStepIntervalTakes(s, i, i + 1, i + 2 + |t|, StepInterval(None, b));
  }

  // ---------------------------------------------------------------------
  // Whole selectors

  /** Input made of whitespace alone yields no token, which is an error. */
  lemma WhitespaceOnlyRejected(s: string)
    requires |s| > 0 && forall k | 0 <= k < |s| :: IsWhitespace(s[k])
    ensures Parse(s).SyntaxError?
  {
    hide Parse, Scan, AllWellFormed, UniversalsPlaced;
    SkipWhileStopsAt(s, 0, |s|, IsWhitespace);
    assert Step(s, 0, None) == Ok(Emit(|s|, None));
    ScanSteps(s, 0, [], Emit(|s|, None));
    ScanEnds(s, []);
    ParseOfScan(s, []);
  }

  /** A selector starting with `::` is rejected, whatever follows. */
  lemma LeadingDoubleColonRejected(rest: string)
    ensures Parse("::" + rest).SyntaxError?
  {
    hide Parse, Scan, Step, AllWellFormed, UniversalsPlaced;
    var s := "::" + rest;
    DoubleColonRejected(s, 0, None);
    ScanStops(s, 0, []);
    ParseOfScanError(s);
  }

  /** `:dir(x)` alone, for an identifier other than `rtl` and `ltr`, yields no token and is rejected. */
  lemma UnknownDirectionAloneRejected(x: string)
    requires IsIdent(x) && DirectionOf(x).None?
    ensures Parse(":dir(" + x + ")").SyntaxError?
  {
    hide Parse, Scan, Step, DirectionOf, IsIdent, AllWellFormed, UniversalsPlaced;
    var s := ":dir(" + x + ")";
    DirArgumentRead(s, 0, None, x);
    ScanSteps(s, 0, [], Emit(|s|, None));
    ScanEnds(s, []);
    ParseOfScan(s, []);
  }

  /** After a tag name, `:dir(x)` with an unknown direction is dropped without an error. */
  lemma UnknownDirectionDropped(name: string, x: string)
    requires WellFormedToken(Tag(name)) && IsIdent(x) && DirectionOf(x).None?
    ensures Parse(name + ":dir(" + x + ")") == Ok([Tag(name)])
  {
    hide Parse, Scan, Step, DirectionOf, IsIdent, WellFormedToken, AllWellFormed, UniversalsPlaced;
    var arg := ":dir(" + x + ")";
    var s := name + arg;
    assert s == name + ":dir(" + x + ")";
    TextAtParts(s, 0, name, arg);
    TextAtChar(s, |name|, arg, 0);
    StepReadsTag(s, 0, None, name);
    ScanSteps(s, 0, [], Emit(|name|, Some(Tag(name))));
    assert [] + [Tag(name)] == [Tag(name)];
    DirArgumentRead(s, |name|, Some(Tag(name)), x);
    ScanSteps(s, |name|, [Tag(name)], Emit(|s|, None));
    ScanEnds(s, [Tag(name)]);
    ParseOfScan(s, [Tag(name)]);
  }

  /** `:focus` alone is read as `:active`. */
  lemma FocusParsesAsActive()
    ensures Parse(":focus") == Ok([PseudoClass(Active, NoArg)])
  {
    hide Parse, Scan, Step, AllWellFormed, UniversalsPlaced;
    var s := ":focus";
    var t := PseudoClass(Active, NoArg);
    FocusReadsAsActive(s, 0, None);
    ScanSteps(s, 0, [], Emit(6, Some(t)));
    assert [] + [t] == [t];
    ScanEnds(s, [t]);
    ParseOfScan(s, [t]);
  }

  /** Any run of name characters is a selector of one tag name. */
  lemma TagAlone(name: string)
    requires WellFormedToken(Tag(name))
    ensures Parse(name) == Ok([Tag(name)])
  {
    hide Parse, WellFormedToken;
    var tokens := [Tag(name)];
    assert tokens[..0] == [];
    assert Print(tokens) == Print([]) + name == name;
    PrintParses(tokens);
  }

  /**
   * An nth argument with nothing after the `n`, as in `:nth-child(2n)` or
   * `:nth-child(0n)`, leaves the offset NaN: the `n` branch is taken even
   * for a zero coefficient.
   */
  lemma NthWithoutOffset(pseudo: PseudoClassType, a: int)
    requires IsNth(pseudo)
    ensures Parse(":" + Keyword(pseudo) + "(" + IntText(Some(a)) + "n)") ==
              Ok([PseudoClass(pseudo, IntervalArg(StepInterval(Some(a), None)))])
  {
    hide Parse, Keyword, IntText, TextAt, CharIs, NoSpaceAt, EndsNumber, AtNameBoundary;
    var s := ":" + Keyword(pseudo) + "(" + IntText(Some(a)) + "n)";
    NthArgLayout(s, Keyword(pseudo), IntText(Some(a)));
    NthReadsAt(s, pseudo, a);
  }

  /** `:name(Nn)` for an nth pseudo-class, from where its pieces lie. */
  lemma NthReadsAt(s: string, pseudo: PseudoClassType, a: int)
    requires IsNth(pseudo)
    requires var q := 1 + |Keyword(pseudo)| + 1;
             var f := q + |IntText(Some(a))|;
             && |s| == f + 2 && CharIs(s, 0, ':')
             && TextAt(s, 1, Keyword(pseudo)) && AtNameBoundary(s, 1 + |Keyword(pseudo)|) && CharIs(s, 1 + |Keyword(pseudo)|, '(')
             && TextAt(s, q, IntText(Some(a))) && NoSpaceAt(s, q) && EndsNumber(s, f)
             && CharIs(s, f, 'n') && NoSpaceAt(s, f)
             && CharIs(s, f + 1, ')') && NoSpaceAt(s, f + 1) && EndsNumber(s, f + 1)
    ensures Parse(s) == Ok([PseudoClass(pseudo, IntervalArg(StepInterval(Some(a), None)))])
  {
    hide Parse, Scan, Step, ScanPseudo, Keyword, IntText, AllWellFormed, UniversalsPlaced, WellFormedToken,
      TextAt, CharIs, NoSpaceAt, EndsNumber, AtNameBoundary, IsNth, ParseIdent, ParsePseudoClassType;
    var t := PseudoClass(pseudo, IntervalArg(StepInterval(Some(a), None)));
    NthPseudoAt(s, pseudo, a, Keyword(pseudo), IntText(Some(a)));
    StepAtColon(s, 0, None);
    ScanSteps(s, 0, [], Emit(|s|, Some(t)));
    assert [] + [t] == [t];
    ScanEnds(s, [t]);
    ParseOfScan(s, [t]);
  }

  /** The pseudo-class scanner on `name(Nn)` after the `:`, where `name` is the keyword `kw` and `N` the text `num`. */
  lemma NthPseudoAt(s: string, pseudo: PseudoClassType, a: int, kw: string, num: string)
    requires IsNth(pseudo) && kw == Keyword(pseudo) && num == IntText(Some(a))
    requires var q := 1 + |kw| + 1;
             var f := q + |num|;
             && |s| == f + 2
             && TextAt(s, 1, kw) && AtNameBoundary(s, 1 + |kw|) && CharIs(s, 1 + |kw|, '(')
             && TextAt(s, q, num) && NoSpaceAt(s, q) && EndsNumber(s, f)
             && CharIs(s, f, 'n') && NoSpaceAt(s, f)
             && CharIs(s, f + 1, ')') && NoSpaceAt(s, f + 1) && EndsNumber(s, f + 1)
    ensures ScanPseudo(s, 1) == Ok(Emit(|s|, Some(PseudoClass(pseudo, IntervalArg(StepInterval(Some(a), None))))))
  {
    hide ScanPseudo, ParseStepInterval, ParseInteger, ParseIdent, ParsePseudoClassType,
      SkipWhitespace, Keyword, IntText, TextAt, CharIs, NoSpaceAt, EndsNumber, AtNameBoundary;
    var iv := StepInterval(Some(a), None);
    var q := 1 + |kw| + 1;
    var f := q + |num|;
    PseudoNameRead(s, 1, pseudo);
    NoSpaceSkipped(s, q);
    NoSpaceSkipped(s, f + 1);
    NoOffsetIntervalAt(s, q, a, num);
    ScanPseudoTakesNth(s, 1, kw, pseudo, iv, f + 1);
  }

  /** `An` followed by `)` or the end, read by `parseStepInterval`: B is NaN. */
  lemma NoOffsetIntervalAt(s: string, q: nat, a: int, num: string)
    requires num == IntText(Some(a))
    requires var f := q + |num|;
             && TextAt(s, q, num) && NoSpaceAt(s, q) && EndsNumber(s, f)
             && CharIs(s, f, 'n') && NoSpaceAt(s, f) && NoSpaceAt(s, f + 1) && EndsNumber(s, f + 1)
    ensures ParseStepInterval(s, q) == IntervalEnd(StepInterval(Some(a), None), q + |num| + 1)
  {
    hide ParseStepInterval, ParseInteger, SkipWhitespace, IntText, TextAt, CharIs, NoSpaceAt, EndsNumber;
    var f := q + |num|;
    NoSpaceSkipped(s, q);
    NoSpaceSkipped(s, f);
    NoSpaceSkipped(s, f + 1);
    ParseIntegerAtIntText(s, q, Some(a));
    ParseIntegerAtNothing(s, f + 1);
    ParseStepIntervalTakes(s, q, f, f + 1, StepInterval(Some(a), None));
  }

  /** Where the pieces of `:name(Nn)` lie. */
  lemma NthArgLayout(s: string, kw: string, num: string)
    requires s == ":" + kw + "(" + num + "n)"
    requires |num| > 0 && (num[0] == '-' || IsDigit(num[0]))
    ensures var q := 1 + |kw| + 1;
            var f := q + |num|;
            && |s| == f + 2 && CharIs(s, 0, ':')
            && TextAt(s, 1, kw) && AtNameBoundary(s, 1 + |kw|) && CharIs(s, 1 + |kw|, '(')
            && TextAt(s, q, num) && NoSpaceAt(s, q) && EndsNumber(s, f)
            && CharIs(s, f, 'n') && NoSpaceAt(s, f)
            && CharIs(s, f + 1, ')') && NoSpaceAt(s, f + 1) && EndsNumber(s, f + 1)
  {
    var q := 1 + |kw| + 1;
    assert s[1..1 + |kw|] == kw;
    assert s[q..q + |num|] == num;
  }

  /** A tag name may start with digits: `123abc` is a tag name. */
  lemma DigitLedTag()
    ensures Parse("123abc") == Ok([Tag("123abc")])
  {
    hide Parse;
    TagAlone("123abc");
  }

  /** A second universal selector straight after the first is rejected. */
  lemma DoubleUniversalRejected(rest: string)
    ensures Parse("**" + rest).SyntaxError?
  {
    hide Parse, Scan, Step, AllWellFormed, UniversalsPlaced;
    var s := "**" + rest;
    UniversalRule(s, 0, None);
    ScanSteps(s, 0, [], Emit(1, Some(Universal)));
    assert [] + [Universal] == [Universal];
    UniversalRule(s, 1, Some(Universal));
    ScanStops(s, 1, [Universal]);
    ParseOfScanError(s);
  }

  /** A universal selector straight after a tag name is rejected. */
  lemma UniversalAfterTagRejected(name: string)
    requires WellFormedToken(Tag(name))
    ensures Parse(name + "*").SyntaxError?
  {
    hide Parse, Scan, Step, WellFormedToken, AllWellFormed, UniversalsPlaced;
    var s := name + "*";
    TextAtParts(s, 0, name, "*");
    TextAtChar(s, |name|, "*", 0);
    StepReadsTag(s, 0, None, name);
    ScanSteps(s, 0, [], Emit(|name|, Some(Tag(name))));
    assert [] + [Tag(name)] == [Tag(name)];
    UniversalRule(s, |name|, Some(Tag(name)));
    ScanStops(s, |name|, [Tag(name)]);
    ParseOfScanError(s);
  }

  /**
   * Whitespace around a combinator is not a descendant combinator:
   * `a > b` is read as `a`, `>`, `b`.
   */
  lemma SpacedCombinator(a: string, c: CombinatorType, b: string)
    requires WellFormedToken(Tag(a)) && WellFormedToken(Tag(b)) && c != Descendant
    ensures Parse(a + " " + CombinatorText(c) + " " + b) == Ok([Tag(a), Combinator(c), Tag(b)])
  {
    hide Parse, Scan, Step, CombinatorText, AllWellFormed, UniversalsPlaced;
    var op := CombinatorText(c);
    var s := a + " " + op + " " + b;
    var n := |a|;
    var ta := [Tag(a)];
    var tc := ta + [Combinator(c)];
    SpacedCombinatorLayout(a, op, b);
    StepReadsTag(s, 0, None, a);
    ScanSteps(s, 0, [], Emit(n, Some(Tag(a))));
    assert [] + [Tag(a)] == ta;
    SpaceBesideCombinatorDropped(s, n, Some(Tag(a)));
    ScanSteps(s, n, ta, Emit(n + 1, None));
    StepReadsPunctuation(s, n + 1, Some(Tag(a)), Combinator(c));
    ScanSteps(s, n + 1, ta, Emit(n + 2, Some(Combinator(c))));
    SpaceBesideCombinatorDropped(s, n + 2, Some(Combinator(c)));
    ScanSteps(s, n + 2, tc, Emit(n + 3, None));
    StepReadsTag(s, n + 3, Some(Combinator(c)), b);
    ScanSteps(s, n + 3, tc, Emit(|s|, Some(Tag(b))));
    assert tc + [Tag(b)] == [Tag(a), Combinator(c), Tag(b)];
    ScanEnds(s, tc + [Tag(b)]);
    ParseOfScan(s, tc + [Tag(b)]);
  }

  /** Where the pieces of `a op b`, spaced, lie. */
  lemma SpacedCombinatorLayout(a: string, op: string, b: string)
    requires |a| > 0 && |op| == 1 && IsCombinatorChar(op[0]) && |b| > 0 && IsNameChar(b[0])
    ensures var s := a + " " + op + " " + b;
            var n := |a|;
            && |s| == n + 3 + |b|
            && TextAt(s, 0, a) && AtNameBoundary(s, n)
            && CharIs(s, n, ' ') && TextAt(s, n + 1, op) && s[n + 1] == op[0] && CharIs(s, n + 2, ' ')
            && TextAt(s, n + 3, b) && s[n + 3] == b[0] && AtNameBoundary(s, |s|)
  {
    var s := a + " " + op + " " + b;
    var n := |a|;
    assert s[n] == ' ' && s[n + 1] == op[0] && s[n + 2] == ' ';
    assert s[..n] == a && s[n + 1..n + 2] == op && s[n + 3..] == b;
  }
}

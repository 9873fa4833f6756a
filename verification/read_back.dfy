/**
 * The lexer reads printed tokens back: each token's text, written where the
 * printer puts it, makes one turn of the main loop push exactly that token,
 * and the whole printed selector parses to the sequence it was printed from.
 */
module ReadBack {
  import opened Results
  import opened Chars
  import opened PseudoClass
  import opened Tokens
  import opened Scanners
  import opened Lexer
  import opened NumberText
  import opened Printer

  // ---------------------------------------------------------------------
  // Attribute values

  /** A printed attribute value followed by `]` is read back with its printed length. */
  lemma ValueTextRead(s: string, i: nat, v: string)
    requires IsAttributeValue(v)
    requires TextAt(s, i, ValueText(v)) && CharIs(s, i + |ValueText(v)|, ']')
    ensures ParseMaybeString(s, i) == Ok(Taken(v, |ValueText(v)|))
  {
    if IsIdent(v) && !IsQuote(v[0]) {
      TextAtChar(s, i, v, 0);
      ParseIdentAt(s, i, v);
    } else if '"' !in v {
      assert ValueText(v) == ['"'] + v + ['"'];
      ParseMaybeStringAtQuoted(s, i, '"', v);
    } else {
      assert ValueText(v) == ['\''] + v + ['\''];
      ParseMaybeStringAtQuoted(s, i, '\'', v);
    }
  }

  // ---------------------------------------------------------------------
  // Attribute selectors

  /** `ScanAttribute` once the name has been read: the rest is read from the next non-whitespace position. */
  lemma ScanAttributeTakesName(s: string, p: nat, name: string)
    requires SkipWhitespace(s, p) == p && ParseIdent(s, p) == Ok(name)
    ensures IsIdent(name) && ScanAttribute(s, p) == ScanAfterName(s, name, SkipWhitespace(s, p + |name|))
  {
    hide ParseIdent, SkipWhitespace, ScanAfterName;
  }

  /** `ScanAttribute` once the name has been read and is followed by `]`. */
  lemma ScanAttributeTakesBare(s: string, p: nat, name: string)
    requires SkipWhitespace(s, p) == p && ParseIdent(s, p) == Ok(name)
    requires SkipWhitespace(s, p + |name|) == p + |name| && CharIs(s, p + |name|, ']')
    ensures ScanAttribute(s, p) == Ok(Emit(p + |name| + 1, Some(Attribute(name, None, None))))
  {
    hide ScanAttribute, ParseIdent, SkipWhitespace;
    ScanAttributeTakesName(s, p, name);
  }

  /** `ScanAttribute` once the name, `=`, the value and `]` have been read. */
  lemma ScanAttributeTakesExact(s: string, p: nat, name: string, v: string, n: nat)
    requires SkipWhitespace(s, p) == p && ParseIdent(s, p) == Ok(name)
    requires var b := p + |name|; SkipWhitespace(s, b) == b && CharIs(s, b, '=')
    requires var c := p + |name| + 1; SkipWhitespace(s, c) == c && ParseMaybeString(s, c) == Ok(Taken(v, n))
    requires var d := p + |name| + 1 + n; SkipWhitespace(s, d) == d && CharIs(s, d, ']')
    ensures ScanAttribute(s, p) == Ok(Emit(p + |name| + 1 + n + 1, Some(Attribute(name, Some(Exact), Some(v)))))
  {
    hide ScanAttribute, ParseIdent, ParseMaybeString, SkipWhitespace, OperatorType, WellFormedToken, IsIdent, IsAttributeValue;
    ScanAttributeTakesName(s, p, name);
  }

  /** `ScanAttribute` once the name, a two-character operator, the value and `]` have been read. */
  lemma ScanAttributeTakesOperator(s: string, p: nat, name: string, v: string, n: nat)
    requires SkipWhitespace(s, p) == p && ParseIdent(s, p) == Ok(name)
    requires var b := p + |name|; SkipWhitespace(s, b) == b && b < |s| && s[b] != ']' && s[b] != '=' && CharIs(s, b + 1, '=')
    requires var c := p + |name| + 2; SkipWhitespace(s, c) == c && ParseMaybeString(s, c) == Ok(Taken(v, n))
    requires var d := p + |name| + 2 + n; SkipWhitespace(s, d) == d && CharIs(s, d, ']')
    ensures ScanAttribute(s, p) ==
              Ok(Emit(p + |name| + 2 + n + 1, Some(Attribute(name, OperatorType(s[p + |name|]), Some(v)))))
  {
    hide ScanAttribute, ParseIdent, ParseMaybeString, SkipWhitespace, OperatorType, WellFormedToken, IsIdent, IsAttributeValue;
    ScanAttributeTakesName(s, p, name);
  }

  /** `[name]` after its `[`. */
  lemma ScanAttributeReadsBare(s: string, p: nat, name: string)
    requires IsIdent(name) && TextAt(s, p, name + "]")
    ensures ScanAttribute(s, p) == Ok(Emit(p + |name| + 1, Some(Attribute(name, None, None))))
  {
    hide ScanAttribute, ParseIdent, SkipWhitespace;
    TextAtParts(s, p, name, "]");
    TextAtChar(s, p, name, 0);
    TextAtChar(s, p + |name|, "]", 0);
    NoSpaceSkipped(s, p);
    ParseIdentAt(s, p, name);
    NoSpaceSkipped(s, p + |name|);
    ScanAttributeTakesBare(s, p, name);
  }

  /** Where the pieces of `name`, an operator, a value and `]` lie once written at `p`. */
  lemma AttributeLayout(s: string, p: nat, name: string, op: string, vt: string)
    requires IsIdent(name) && |op| > 0 && IsReservedChar(op[0]) && !IsWhitespace(op[0]) && |vt| > 0 && !IsWhitespace(vt[0])
    requires TextAt(s, p, name + op + vt + "]")
    ensures var b := p + |name|;
            var c := b + |op|;
            var d := c + |vt|;
            && TextAt(s, p, name) && NoSpaceAt(s, p) && AtNameBoundary(s, b)
            && b < |s| && s[b] == op[0] && NoSpaceAt(s, b) && (|op| == 2 ==> s[b + 1] == op[1])
            && TextAt(s, c, vt) && NoSpaceAt(s, c)
            && CharIs(s, d, ']') && NoSpaceAt(s, d)
  {
    var b := p + |name|;
    var c := b + |op|;
    var d := c + |vt|;
    TextAtParts(s, p, name + op + vt, "]");
    TextAtParts(s, p, name + op, vt);
    TextAtParts(s, p, name, op);
    TextAtChar(s, p, name, 0);
    TextAtChar(s, b, op, 0);
    if |op| == 2 {
      TextAtChar(s, b, op, 1);
    }
    TextAtChar(s, c, vt, 0);
    TextAtChar(s, d, "]", 0);
  }

  /** `[name=value]` after its `[`. */
  lemma ScanAttributeReadsExact(s: string, p: nat, name: string, v: string)
    requires IsIdent(name) && IsAttributeValue(v)
    requires TextAt(s, p, name + "=" + ValueText(v) + "]")
    ensures ScanAttribute(s, p) == Ok(Emit(p + |name| + 1 + |ValueText(v)| + 1, Some(Attribute(name, Some(Exact), Some(v)))))
  {
    hide ScanAttribute, ParseIdent, ParseMaybeString, SkipWhitespace, ValueText, IsIdent, IsAttributeValue;
    var b := p + |name|;
    var c := b + 1;
    var d := c + |ValueText(v)|;
    AttributeLayout(s, p, name, "=", ValueText(v));
    NoSpaceSkipped(s, p);
    ParseIdentAt(s, p, name);
    NoSpaceSkipped(s, b);
    NoSpaceSkipped(s, c);
    ValueTextRead(s, c, v);
    NoSpaceSkipped(s, d);
    ScanAttributeTakesExact(s, p, name, v, |ValueText(v)|);
  }

  /** `[name` op `value]` after its `[`, for the two-character operators. */
  lemma ScanAttributeReadsOperator(s: string, p: nat, name: string, valueType: Option<AttributeValueType>, v: string)
    requires valueType != Some(Exact)
    requires IsIdent(name) && IsAttributeValue(v)
    requires TextAt(s, p, name + OperatorText(valueType) + ValueText(v) + "]")
    ensures ScanAttribute(s, p) == Ok(Emit(p + |name| + 2 + |ValueText(v)| + 1, Some(Attribute(name, valueType, Some(v)))))
  {
    hide ScanAttribute, ParseIdent, ParseMaybeString, SkipWhitespace, ValueText, OperatorText, IsIdent, IsAttributeValue;
    var b := p + |name|;
    var c := b + 2;
    var d := c + |ValueText(v)|;
    AttributeLayout(s, p, name, OperatorText(valueType), ValueText(v));
    NoSpaceSkipped(s, p);
    ParseIdentAt(s, p, name);
    NoSpaceSkipped(s, b);
    NoSpaceSkipped(s, c);
    ValueTextRead(s, c, v);
    NoSpaceSkipped(s, d);
    ScanAttributeTakesOperator(s, p, name, v, |ValueText(v)|);
  }

  /** Every well-formed attribute selector is read back from its text after `[`. */
  lemma ScanAttributeReads(s: string, p: nat, name: string, valueType: Option<AttributeValueType>, value: Option<string>)
    requires WellFormedToken(Attribute(name, valueType, value))
    requires TextAt(s, p, AttributeBody(name, valueType, value))
    ensures ScanAttribute(s, p) ==
              Ok(Emit(p + |AttributeBody(name, valueType, value)|, Some(Attribute(name, valueType, value))))
  {
    hide ScanAttribute, ValueText, OperatorText, IsIdent, IsAttributeValue;
    if value.None? {
      assert AttributeBody(name, valueType, value) == name + "]";
      ScanAttributeReadsBare(s, p, name);
    } else if valueType == Some(Exact) {
      assert AttributeBody(name, valueType, value) == name + "=" + ValueText(value.value) + "]";
      ScanAttributeReadsExact(s, p, name, value.value);
    } else {
      assert AttributeBody(name, valueType, value) == name + OperatorText(valueType) + ValueText(value.value) + "]";
      ScanAttributeReadsOperator(s, p, name, valueType, value.value);
    }
  }

  // ---------------------------------------------------------------------
  // Pseudo-classes

  /** A keyword is an identifier whose second character is not `:`. */
  lemma KeywordIsIdent(t: PseudoClassType)
    ensures IsIdent(Keyword(t)) && |Keyword(t)| > 1 && Keyword(t)[1] != ':'
  {
    hide Keyword, ParsePseudoClassType;
    var kw := Keyword(t);
    KeywordFacts(t);
    forall k | 0 <= k < |kw| ensures IsNameChar(kw[k]) {
      assert kw[k] in kw;
    }
    assert kw[1] in kw;
  }

  /** The name of a pseudo-class written at `p` is read and looked up, and is not taken for `::`. */
  lemma PseudoNameRead(s: string, p: nat, pseudo: PseudoClassType)
    requires pseudo != Focus
    requires TextAt(s, p, Keyword(pseudo)) && AtNameBoundary(s, p + |Keyword(pseudo)|)
    ensures !CharIs(s, p + 1, ':')
    ensures ParseIdent(s, p) == Ok(Keyword(pseudo))
    ensures ParsePseudoClassType(Keyword(pseudo)) == Some(pseudo)
  {
    hide Keyword, ParsePseudoClassType, ParseIdent;
    KeywordFacts(pseudo);
    KeywordIsIdent(pseudo);
    TextAtChar(s, p, Keyword(pseudo), 1);
    ParseIdentAt(s, p, Keyword(pseudo));
  }

  /** `ScanPseudo` once a name that is not preceded by a second `:` has been read. */
  lemma ScanPseudoTakesName(s: string, p: nat, name: string)
    requires !CharIs(s, p + 1, ':') && ParseIdent(s, p) == Ok(name)
    ensures p + |name| <= |s| && ScanPseudo(s, p) == ScanNamedPseudo(s, name, p + |name|)
  {
    hide ParseIdent, ScanNamedPseudo, ParsePseudoClassType, ScanPseudoArgument, ScanDirArgument, ScanNthArgument;
  }

  /** `ScanPseudo` once the name of an argument-less pseudo-class has been read. */
  lemma ScanPseudoTakesPlain(s: string, p: nat, name: string, pseudo: PseudoClassType)
    requires !CharIs(s, p + 1, ':') && ParseIdent(s, p) == Ok(name)
    requires ParsePseudoClassType(name) == Some(pseudo) && pseudo != Dir && !IsNth(pseudo)
    ensures ScanPseudo(s, p) == Ok(Emit(p + |name|, Some(PseudoClass(pseudo, NoArg))))
  {
    hide ScanPseudo, ParseIdent, ParsePseudoClassType, SkipWhitespace, ParseStepInterval, DirectionOf, IsNth, Keyword;
    ScanPseudoTakesName(s, p, name);
  }

  /** `ScanPseudo` once `dir`, `(`, an identifier and `)` have been read. */
  lemma ScanPseudoTakesDir(s: string, p: nat, name: string, ident: string)
    requires !CharIs(s, p + 1, ':') && ParseIdent(s, p) == Ok(name)
    requires ParsePseudoClassType(name) == Some(Dir)
    requires var i := p + |name|; CharIs(s, i, '(') && SkipWhitespace(s, i + 1) == i + 1
    requires ParseIdent(s, p + |name| + 1) == Ok(ident)
    requires var b := p + |name| + 1 + |ident|; SkipWhitespace(s, b) == b && CharIs(s, b, ')')
    ensures var dir := DirectionOf(ident);
            ScanPseudo(s, p) ==
              Ok(Emit(p + |name| + 1 + |ident| + 1, if dir.Some? then Some(PseudoClass(Dir, DirArg(dir.value))) else None))
  {
    hide ScanPseudo, ParseIdent, ParsePseudoClassType, SkipWhitespace, DirectionOf, IsNth, Keyword;
    ScanPseudoTakesName(s, p, name);
  }

  /** `ScanPseudo` once an nth pseudo-class, `(`, an interval and `)` have been read. */
  lemma ScanPseudoTakesNth(s: string, p: nat, name: string, pseudo: PseudoClassType, iv: StepInterval, e: nat)
    requires !CharIs(s, p + 1, ':') && ParseIdent(s, p) == Ok(name)
    requires ParsePseudoClassType(name) == Some(pseudo) && IsNth(pseudo)
    requires var i := p + |name|; CharIs(s, i, '(') && SkipWhitespace(s, i + 1) == i + 1
    requires ParseStepInterval(s, p + |name| + 1) == IntervalEnd(iv, e)
    requires SkipWhitespace(s, e) == e && CharIs(s, e, ')')
    ensures ScanPseudo(s, p) == Ok(Emit(e + 1, Some(PseudoClass(pseudo, IntervalArg(iv)))))
  {
    hide ScanPseudo, ParseIdent, ParsePseudoClassType, SkipWhitespace, ParseStepInterval, DirectionOf, Keyword;
    ScanPseudoTakesName(s, p, name);
  }

  /** Where a name, `(`, an argument and `)` lie once written at `p`. */
  lemma ArgLayout(s: string, p: nat, name: string, x: string)
    requires TextAt(s, p, name + "(" + x + ")")
    ensures var i := p + |name|;
            && TextAt(s, p, name) && CharIs(s, i, '(') && AtNameBoundary(s, i)
            && TextAt(s, i + 1, x) && CharIs(s, i + 1 + |x|, ')') && NoSpaceAt(s, i + 1 + |x|)
  {
    var i := p + |name|;
    TextAtParts(s, p, name + "(" + x, ")");
    TextAtParts(s, p, name + "(", x);
    TextAtParts(s, p, name, "(");
    TextAtChar(s, i, "(", 0);
    TextAtChar(s, i + 1 + |x|, ")", 0);
  }

  /** An argument-less pseudo-class followed by a reserved character (or nothing). */
  lemma ScanPseudoReadsPlain(s: string, p: nat, pseudo: PseudoClassType)
    requires pseudo != Focus && pseudo != Dir && !IsNth(pseudo)
    requires TextAt(s, p, Keyword(pseudo)) && AtNameBoundary(s, p + |Keyword(pseudo)|)
    ensures ScanPseudo(s, p) == Ok(Emit(p + |Keyword(pseudo)|, Some(PseudoClass(pseudo, NoArg))))
  {
    hide ScanPseudo, Keyword, ParsePseudoClassType, ParseIdent, IsNth;
    PseudoNameRead(s, p, pseudo);
    ScanPseudoTakesPlain(s, p, Keyword(pseudo), pseudo);
  }

  /**
   * `dir(x)` after the `:`, for any identifier `x`: a direction token for
   * `rtl` and `ltr`, and no token for any other identifier.
   */
  lemma ScanPseudoReadsDirArg(s: string, p: nat, x: string)
    requires IsIdent(x) && TextAt(s, p, Keyword(Dir) + "(" + x + ")")
    ensures var dir := DirectionOf(x);
            ScanPseudo(s, p) ==
              Ok(Emit(p + |Keyword(Dir)| + 1 + |x| + 1, if dir.Some? then Some(PseudoClass(Dir, DirArg(dir.value))) else None))
  {
    hide ScanPseudo, Keyword, ParsePseudoClassType, ParseIdent, SkipWhitespace, DirectionOf;
    var kw := Keyword(Dir);
    var i := p + |kw|;
    ArgLayout(s, p, kw, x);
    PseudoNameRead(s, p, Dir);
    TextAtChar(s, i + 1, x, 0);
    NoSpaceSkipped(s, i + 1);
    ParseIdentAt(s, i + 1, x);
    NoSpaceSkipped(s, i + 1 + |x|);
    ScanPseudoTakesDir(s, p, kw, x);
  }

  /** `dir(rtl)` and `dir(ltr)` after the `:`. */
  lemma ScanPseudoReadsDir(s: string, p: nat, d: Direction)
    requires TextAt(s, p, Keyword(Dir) + "(" + DirectionText(d) + ")")
    ensures ScanPseudo(s, p) == Ok(Emit(p + |Keyword(Dir)| + 1 + |DirectionText(d)| + 1, Some(PseudoClass(Dir, DirArg(d)))))
  {
    hide ScanPseudo, Keyword, ParsePseudoClassType, ParseIdent, SkipWhitespace, DirectionText, DirectionOf, TextAt;
    ScanPseudoReadsDirArg(s, p, DirectionText(d));
  }

  /** An nth pseudo-class with its interval after the `:`. */
  lemma ScanPseudoReadsNth(s: string, p: nat, pseudo: PseudoClassType, iv: StepInterval)
    requires IsNth(pseudo)
    requires TextAt(s, p, Keyword(pseudo) + "(" + IntervalText(iv) + ")")
    ensures ScanPseudo(s, p) ==
              Ok(Emit(p + |Keyword(pseudo)| + 1 + |IntervalText(iv)| + 1, Some(PseudoClass(pseudo, IntervalArg(iv)))))
  {
    hide ScanPseudo, Keyword, ParsePseudoClassType, ParseIdent, SkipWhitespace, ParseStepInterval, IntervalText, TextAt;
    var kw := Keyword(pseudo);
    var x := IntervalText(iv);
    var i := p + |kw|;
    var e := i + 1 + |x|;
    ArgLayout(s, p, kw, x);
    PseudoNameRead(s, p, pseudo);
    if |x| > 0 {
      TextAtChar(s, i + 1, x, 0);
    }
    NoSpaceSkipped(s, i + 1);
    ParseStepIntervalAt(s, i + 1, iv);
    NoSpaceSkipped(s, e);
    ScanPseudoTakesNth(s, p, kw, pseudo, iv, e);
  }

  /** Every well-formed pseudo-class token is read back from its text after `:`. */
  lemma ScanPseudoReads(s: string, p: nat, pseudo: PseudoClassType, arg: PseudoArg)
    requires WellFormedToken(PseudoClass(pseudo, arg))
    requires TextAt(s, p, Keyword(pseudo) + ArgText(arg))
    requires arg.NoArg? ==> AtNameBoundary(s, p + |Keyword(pseudo)|)
    ensures ScanPseudo(s, p) == Ok(Emit(p + |Keyword(pseudo) + ArgText(arg)|, Some(PseudoClass(pseudo, arg))))
  {
    hide ScanPseudo, Keyword, ParsePseudoClassType, IntervalText, DirectionText, IsNth;
    match arg
    case NoArg =>
      assert Keyword(pseudo) + ArgText(arg) == Keyword(pseudo);
      ScanPseudoReadsPlain(s, p, pseudo);
    case DirArg(d) =>
      assert Keyword(pseudo) + ArgText(arg) == Keyword(Dir) + "(" + DirectionText(d) + ")";
      ScanPseudoReadsDir(s, p, d);
    case IntervalArg(iv) =>
      assert Keyword(pseudo) + ArgText(arg) == Keyword(pseudo) + "(" + IntervalText(iv) + ")";
      ScanPseudoReadsNth(s, p, pseudo, iv);
  }

  // ---------------------------------------------------------------------
  // One turn of the main loop

  /** A tag name followed by a reserved character (or nothing). */
  lemma StepReadsTag(s: string, i: nat, last: Option<Token>, name: string)
    requires ReadableAt(s, i, last, Tag(name))
    ensures i < |s| && Step(s, i, last) == Ok(Emit(i + |Render(Tag(name))|, Some(Tag(name))))
  {
    hide ScanAttribute, ScanPseudo, ScanWhitespace, ParseIdent, SkipWhile;
    TextAtChar(s, i, name, 0);
    forall k | i <= k < i + |name| ensures IsNameChar(s[k]) {
      TextAtChar(s, i, name, k - i);
    }
    SkipWhileStopsAt(s, i, i + |name|, IsNameChar);
  }

  /** `.value` or `#value` followed by a reserved character (or nothing). */
  lemma StepReadsClassOrId(s: string, i: nat, last: Option<Token>, t: Token)
    requires t.Class? || t.Id?
    requires WellFormedToken(t) && TextAt(s, i, Render(t)) && AtNameBoundary(s, i + |Render(t)|)
    ensures i < |s| && Step(s, i, last) == Ok(Emit(i + |Render(t)|, Some(t)))
  {
    hide ScanAttribute, ScanPseudo, ScanWhitespace, ScanTag, ParseIdent;
    var mark := if t.Class? then "." else "#";
    assert Render(t) == mark + t.value;
    TextAtParts(s, i, mark, t.value);
    TextAtChar(s, i, mark, 0);
    ParseIdentAt(s, i + 1, t.value);
  }

  /** An attribute selector. */
  lemma StepReadsAttribute(s: string, i: nat, last: Option<Token>, t: Token)
    requires t.Attribute?
    requires WellFormedToken(t) && TextAt(s, i, Render(t))
    ensures i < |s| && Step(s, i, last) == Ok(Emit(i + |Render(t)|, Some(t)))
  {
    hide ScanAttribute, ScanPseudo, ScanWhitespace, ScanTag, ParseIdent, AttributeBody, WellFormedToken;
    var body := AttributeBody(t.name, t.valueType, t.attrValue);
    assert Render(t) == "[" + body;
    TextAtParts(s, i, "[", body);
    TextAtChar(s, i, "[", 0);
    ScanAttributeReads(s, i + 1, t.name, t.valueType, t.attrValue);
  }

  /** At `:` the main loop hands over to the pseudo-class scanner. */
  lemma StepAtColon(s: string, i: nat, last: Option<Token>)
    requires CharIs(s, i, ':')
    ensures i < |s| && Step(s, i, last) == ScanPseudo(s, i + 1)
  {
    hide ScanAttribute, ScanPseudo, ScanWhitespace, ScanTag, ParseIdent;
  }

  /** A pseudo-class, followed by a reserved character (or nothing) when it takes no argument. */
  lemma StepReadsPseudoClass(s: string, i: nat, last: Option<Token>, pseudo: PseudoClassType, arg: PseudoArg)
    requires WellFormedToken(PseudoClass(pseudo, arg))
    requires TextAt(s, i, ":" + (Keyword(pseudo) + ArgText(arg)))
    requires arg.NoArg? ==> AtNameBoundary(s, i + 1 + |Keyword(pseudo)|)
    ensures i < |s| && Step(s, i, last) == Ok(Emit(i + 1 + |Keyword(pseudo) + ArgText(arg)|, Some(PseudoClass(pseudo, arg))))
  {
    hide Step, ScanPseudo, Keyword, ArgText, WellFormedToken, ParseIdent, ParsePseudoClassType, ScanPseudoArgument;
    var body := Keyword(pseudo) + ArgText(arg);
    TextAtParts(s, i, ":", body);
    TextAtChar(s, i, ":", 0);
    StepAtColon(s, i, last);
    ScanPseudoReads(s, i + 1, pseudo, arg);
  }

  /** A space between two characters that are neither whitespace nor combinator characters. */
  lemma StepReadsDescendant(s: string, i: nat, last: Option<Token>)
    requires TextAt(s, i, " ")
    requires 0 < i && i + 1 < |s| && !IsCombinatorChar(s[i - 1])
    requires !IsWhitespace(s[i + 1]) && !IsCombinatorChar(s[i + 1])
    ensures i < |s| && Step(s, i, last) == Ok(Emit(i + 1, Some(Combinator(Descendant))))
  {
    hide ScanAttribute, ScanPseudo, ScanTag, ParseIdent;
    TextAtChar(s, i, " ", 0);
    NoSpaceSkipped(s, i + 1);
    assert SkipWhitespace(s, i) == SkipWhitespace(s, i + 1);
  }

  /** The one-character tokens: `,`, `>`, `+`, `~` and `*` (where a universal selector may go). */
  lemma StepReadsPunctuation(s: string, i: nat, last: Option<Token>, t: Token)
    requires t.GroupSeparator? || t == Universal || (t.Combinator? && t.combinator != Descendant)
    requires TextAt(s, i, Render(t))
    requires t == Universal ==> UniversalMayFollow(last)
    ensures i < |s| && Step(s, i, last) == Ok(Emit(i + 1, Some(t)))
  {
    hide ScanAttribute, ScanPseudo, ScanWhitespace, ScanTag, ParseIdent;
    TextAtChar(s, i, Render(t), 0);
  }

  /**
   * Where token `t` can be read back at `i` of `s`: it is well formed and
   * written there; a name at its end is not continued; a universal selector
   * may follow `last`; and a descendant combinator stands between two
   * characters that are neither whitespace nor combinator characters.
   */
  predicate ReadableAt(s: string, i: nat, last: Option<Token>, t: Token) {
    && WellFormedToken(t)
    && TextAt(s, i, Render(t))
    && (EndsInName(t) ==> AtNameBoundary(s, i + |Render(t)|))
    && (t == Universal ==> UniversalMayFollow(last))
    && (t == Combinator(Descendant) ==>
          0 < i && i + 1 < |s| && !IsCombinatorChar(s[i - 1]) && !IsWhitespace(s[i + 1]) && !IsCombinatorChar(s[i + 1]))
  }

  /** `ReadableAt` for a pseudo-class token. */
  lemma StepReadsPseudoClassToken(s: string, i: nat, last: Option<Token>, t: Token)
    requires t.PseudoClass? && ReadableAt(s, i, last, t)
    ensures i < |s| && Step(s, i, last) == Ok(Emit(i + |Render(t)|, Some(t)))
  {
    hide Step, Keyword, WellFormedToken, TextAt, AtNameBoundary;
    assert Render(t) == ":" + (Keyword(t.pseudo) + ArgText(t.arg));
    assert t.arg.NoArg? ==> Render(t) == ":" + Keyword(t.pseudo) by {
      if t.arg.NoArg? {
        assert ArgText(t.arg) == "";
      }
    }
    StepReadsPseudoClass(s, i, last, t.pseudo, t.arg);
  }

  /** `ReadableAt` for a combinator or the group separator. */
  lemma StepReadsCombinatorToken(s: string, i: nat, last: Option<Token>, t: Token)
    requires (t.Combinator? || t.GroupSeparator? || t.Universal?) && ReadableAt(s, i, last, t)
    ensures i < |s| && Step(s, i, last) == Ok(Emit(i + |Render(t)|, Some(t)))
  {
    hide Step, TextAt;
    if t == Combinator(Descendant) {
      StepReadsDescendant(s, i, last);
    } else {
      StepReadsPunctuation(s, i, last, t);
    }
  }

  /** One turn of the main loop reads a readable token and pushes exactly it. */
  lemma StepReads(s: string, i: nat, last: Option<Token>, t: Token)
    requires ReadableAt(s, i, last, t)
    ensures i < |s| && Step(s, i, last) == Ok(Emit(i + |Render(t)|, Some(t)))
  {
    hide Step, Render, TextAt;
    match t
    case Tag(name) => StepReadsTag(s, i, last, name);
    case Class(_) => StepReadsClassOrId(s, i, last, t);
    case Id(_) => StepReadsClassOrId(s, i, last, t);
    case Attribute(_, _, _) => StepReadsAttribute(s, i, last, t);
    case PseudoClass(_, _) => StepReadsPseudoClassToken(s, i, last, t);
    case Combinator(_) => StepReadsCombinatorToken(s, i, last, t);
    case GroupSeparator => StepReadsCombinatorToken(s, i, last, t);
    case Universal => StepReadsCombinatorToken(s, i, last, t);
  }

  // ---------------------------------------------------------------------
  // Whole selectors

  /** What follows token `k` in the printed text of a printable sequence. */
  lemma NextInPrint(tokens: seq<Token>, k: nat)
    requires Printable(tokens) && k < |tokens|
    ensures var s := Print(tokens);
            var j := |Print(tokens[..k + 1])|;
            && (EndsInName(tokens[k]) ==> AtNameBoundary(s, j))
            && (tokens[k] == Combinator(Descendant) ==> j < |s| && !IsWhitespace(s[j]) && !IsCombinatorChar(s[j]))
  {
    hide Render, WellFormedToken;
    var s := Print(tokens);
    var j := |Print(tokens[..k + 1])|;
    if k + 1 < |tokens| {
      var u := tokens[k + 1];
      RenderAt(tokens, k + 1);
      RenderStart(u);
      TextAtChar(s, j, Render(u), 0);
      assert MayFollow(tokens[k], u);
    } else {
      assert tokens[..k + 1] == tokens;
    }
  }

  /** What precedes token `k` in the printed text of a printable sequence. */
  lemma PreviousInPrint(tokens: seq<Token>, k: nat)
    requires Printable(tokens) && k < |tokens|
    ensures var s := Print(tokens);
            var i := |Print(tokens[..k])|;
            && (tokens[k] == Universal ==> UniversalMayFollow(LastToken(tokens[..k])))
            && (tokens[k] == Combinator(Descendant) ==> 0 < i <= |s| && !IsCombinatorChar(s[i - 1]))
  {
    hide Render, WellFormedToken;
    var s := Print(tokens);
    if k > 0 {
      var prev := tokens[k - 1];
      var h := |Print(tokens[..k - 1])|;
      RenderAt(tokens, k - 1);
      RenderEnd(prev);
      TextAtChar(s, h, Render(prev), |Render(prev)| - 1);
      assert MayFollow(prev, tokens[k]);
      assert tokens[..k][k - 1] == prev;
    }
  }

  /** Every token of a printable sequence can be read back where the printer put it. */
  lemma ReadableInPrint(tokens: seq<Token>, k: nat)
    requires Printable(tokens) && k < |tokens|
    ensures ReadableAt(Print(tokens), |Print(tokens[..k])|, LastToken(tokens[..k]), tokens[k])
    ensures |Print(tokens[..k + 1])| == |Print(tokens[..k])| + |Render(tokens[k])|
  {
    hide Print, TextAt, EndsInName, AtNameBoundary, UniversalMayFollow, LastToken;
    RenderAt(tokens, k);
    NextInPrint(tokens, k);
    PreviousInPrint(tokens, k);
  }

  /** The main loop, started where the printer put token `k`, reads the rest of a printable sequence. */
  lemma {:induction false} ScanPrinted(tokens: seq<Token>, k: nat)
    requires Printable(tokens) && k <= |tokens|
    ensures Scan(Print(tokens), |Print(tokens[..k])|, tokens[..k]) == Ok(tokens)
    decreases |tokens| - k
  {
    hide Scan, Step, Print, Printable, ReadableAt, Render, AllWellFormed, UniversalsPlaced, WellFormedToken;
    if k == |tokens| {
      assert tokens[..k] == tokens;
      assert |Print(tokens[..k])| == |Print(tokens)|;
      ScanEnds(Print(tokens), tokens);
    } else {
      var s := Print(tokens);
      var i := |Print(tokens[..k])|;
      ReadableInPrint(tokens, k);
      StepReads(s, i, LastToken(tokens[..k]), tokens[k]);
      ScanSteps(s, i, tokens[..k], Emit(i + |Render(tokens[k])|, Some(tokens[k])));
      assert tokens[..k] + [tokens[k]] == tokens[..k + 1];
      ScanPrinted(tokens, k + 1);
    }
  }

  /** A printable token sequence parses back from its text exactly. */
  lemma PrintParses(tokens: seq<Token>)
    requires Printable(tokens)
    ensures Parse(Print(tokens)) == Ok(tokens)
  {
    hide Scan;
    assert tokens[..0] == [];
    ScanPrinted(tokens, 0);
  }
}

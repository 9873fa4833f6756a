/**
 * The selector lexer: `parse` turns a selector string into tokens, one
 * dispatch on the current character at a time, and throws one and the same
 * syntax error for every malformed input.
 *
 * `Step` is one turn of the main loop: it reads the construct starting at
 * position `i` and says where the next turn starts and which token, if any,
 * the turn pushed. `Scan` runs the loop; `Parse` adds the final check that
 * at least one token was produced.
 */
module Lexer {
  import opened Results
  import opened Chars
  import opened PseudoClass
  import opened Tokens
  import opened Scanners

  /** One turn of the main loop: where the next turn starts and the token pushed, if any. */
  datatype Emit = Emit(next: nat, token: Option<Token>)

  /** The last token pushed so far, if any. */
  function LastToken(tokens: seq<Token>): (r: Option<Token>)
    ensures r.None? <==> |tokens| == 0
    ensures r.Some? ==> r.value == tokens[|tokens| - 1]
  {
    if |tokens| == 0 then None else Some(tokens[|tokens| - 1])
  }

  /** The shape every token the lexer pushes has. */
  predicate WellFormedToken(t: Token) {
    match t
    case Tag(name) => |name| > 0 && forall k | 0 <= k < |name| :: IsNameChar(name[k])
    case Class(value) => IsIdent(value)
    case Id(value) => IsIdent(value)
    case Attribute(name, valueType, value) =>
      && IsIdent(name)
      && (valueType.Some? ==> value.Some?)
      && (value.Some? ==> IsAttributeValue(value.value))
    case PseudoClass(pseudo, arg) => pseudo != Focus && ArgFits(pseudo, arg)
    case _ => true
  }

  predicate AllWellFormed(tokens: seq<Token>) {
    forall k | 0 <= k < |tokens| :: WellFormedToken(tokens[k])
  }

  /** Every universal selector comes first or right after a group separator or a combinator. */
  predicate UniversalsPlaced(tokens: seq<Token>) {
    forall k | 0 <= k < |tokens| && tokens[k] == Universal :: UniversalMayFollow(LastToken(tokens[..k]))
  }

  /** Pushing a well-formed token, or a universal selector where one may go, keeps both invariants. */
  lemma PushKeepsInvariants(tokens: seq<Token>, t: Token)
    ensures AllWellFormed(tokens) && WellFormedToken(t) ==> AllWellFormed(tokens + [t])
    ensures UniversalsPlaced(tokens) && (t == Universal ==> UniversalMayFollow(LastToken(tokens))) ==>
              UniversalsPlaced(tokens + [t])
  {
    var ts := tokens + [t];
    assert ts[..|tokens|] == tokens;
    forall k | 0 <= k < |tokens| ensures ts[..k] == tokens[..k] {
    }
  }

  /** The matcher named by the first character of a two-character attribute operator. */
  function OperatorType(c: char): (r: Option<AttributeValueType>)
    ensures r.Some? <==> c in {'~', '|', '^', '$', '*'}
    ensures r == Some(Sep) <==> c == '~'
    ensures r == Some(PrefixedDash) <==> c == '|'
    ensures r == Some(Prefixed) <==> c == '^'
    ensures r == Some(Suffixed) <==> c == '$'
    ensures r == Some(Includes) <==> c == '*'
  {
    match c
    case '~' => Some(Sep)
    case '|' => Some(PrefixedDash)
    case '^' => Some(Prefixed)
    case '$' => Some(Suffixed)
    case '*' => Some(Includes)
    case _ => None
  }

  /** The direction named by the argument of `:dir(...)`; any other identifier names none. */
  function DirectionOf(ident: string): (r: Option<Direction>)
    ensures r == Some(Rtl) <==> ident == "rtl"
    ensures r == Some(Ltr) <==> ident == "ltr"
  {
    if ident == "rtl" then Some(Rtl)
    else if ident == "ltr" then Some(Ltr)
    else None
  }

  /** Skips whitespace at `i`, then requires `]` to close the attribute `token`. */
  function CloseAttribute(input: string, i: nat, token: Token): (r: Result<Emit>)
    ensures r.Ok? <==> CharIs(input, SkipWhitespace(input, i), ']')
    ensures r.Ok? ==> i < r.value.next <= |input| && r.value.token == Some(token)
    ensures r.Ok? ==> input[r.value.next - 1] == ']'
  {
    var j := SkipWhitespace(input, i);
    if CharIs(input, j, ']') then Ok(Emit(j + 1, Some(token))) else SyntaxError
  }

  /**
   * An attribute selector; `p` is just past the `[`: its name, then the rest
   * from the first non-whitespace character after the name.
   */
  function ScanAttribute(input: string, p: nat): (r: Result<Emit>)
    ensures r.Ok? ==> p < r.value.next <= |input|
    ensures r.Ok? ==> r.value.token.Some? && r.value.token.value.Attribute?
    ensures r.Ok? ==> WellFormedToken(r.value.token.value)
    ensures r.Ok? ==>
              var a := SkipWhitespace(input, p);
              ParseIdent(input, a).Ok? && r.value.token.value.name == ParseIdent(input, a).value
  {
    var a := SkipWhitespace(input, p);
    var name :- ParseIdent(input, a);
    ScanAfterName(input, name, SkipWhitespace(input, a + |name|))
  }

  /**
   * An attribute selector from position `b` after its name. `]` closes a
   * matcher-less attribute. `=` reads a value; otherwise the two characters
   * `c=` read a value with the matcher `c` names, and with no matcher when
   * `c` names none.
   */
  function ScanAfterName(input: string, name: string, b: nat): (r: Result<Emit>)
    requires IsIdent(name)
    ensures r.Ok? ==> b < r.value.next <= |input|
    ensures r.Ok? ==> r.value.token.Some? && r.value.token.value.Attribute? && r.value.token.value.name == name
    ensures r.Ok? ==> WellFormedToken(r.value.token.value)
    ensures CharIs(input, b, ']') ==> r == Ok(Emit(b + 1, Some(Attribute(name, None, None))))
    ensures r.Ok? && CharIs(input, b, '=') ==>
              var c := SkipWhitespace(input, b + 1);
              && r.value.token.value.valueType == Some(Exact)
              && ParseMaybeString(input, c).Ok?
              && r.value.token.value.attrValue == Some(ParseMaybeString(input, c).value.value)
              && r.value.next == SkipWhitespace(input, c + ParseMaybeString(input, c).value.count) + 1
    ensures r.Ok? && !CharIs(input, b, ']') && !CharIs(input, b, '=') ==>
              var c := SkipWhitespace(input, b + 2);
              && b + 1 < |input| && input[b + 1] == '='
              && r.value.token.value.valueType == OperatorType(input[b])
              && ParseMaybeString(input, c).Ok?
              && r.value.token.value.attrValue == Some(ParseMaybeString(input, c).value.value)
              && r.value.next == SkipWhitespace(input, c + ParseMaybeString(input, c).value.count) + 1
  {
    if CharIs(input, b, ']') then
      Ok(Emit(b + 1, Some(Attribute(name, None, None))))
    else if CharIs(input, b, '=') then
      ScanAttributeValue(input, name, Some(Exact), b + 1)
    else if !CharIs(input, b + 1, '=') then
      SyntaxError
    else
      ScanAttributeValue(input, name, OperatorType(input[b]), b + 2)
  }

  /**
   * The value of an attribute selector, from just past its operator:
   * whitespace, a value, whitespace and the closing `]`. (The `=` branch
   * skips whitespace after the value twice over; the second skip finds none.)
   */
  function ScanAttributeValue(input: string, name: string, valueType: Option<AttributeValueType>, j: nat): (r: Result<Emit>)
    requires IsIdent(name)
    ensures r.Ok? ==> j < r.value.next <= |input|
    ensures r.Ok? ==>
              var c := SkipWhitespace(input, j);
              && ParseMaybeString(input, c).Ok?
              && r.value.token == Some(Attribute(name, valueType, Some(ParseMaybeString(input, c).value.value)))
              && r.value.next == SkipWhitespace(input, c + ParseMaybeString(input, c).value.count) + 1
              && input[r.value.next - 1] == ']'
  {
    var c := SkipWhitespace(input, j);
    var value :- ParseMaybeString(input, c);
    CloseAttribute(input, c + value.count, Attribute(name, valueType, Some(value.value)))
  }

  /**
   * A pseudo-class; `p` is just past the `:`. A second `:` is looked for one
   * character too far on (at `p + 1`), and when found the name is read from
   * there, where it cannot start. The name must be a known pseudo-class; the
   * rest is read by `ScanPseudoArgument`.
   */
  function ScanPseudo(input: string, p: nat): (r: Result<Emit>)
    ensures r.Ok? ==> p < r.value.next <= |input|
    ensures r.Ok? && r.value.token.Some? ==>
              && r.value.token.value.PseudoClass?
              && r.value.token.value.pseudo != Focus
              && ArgFits(r.value.token.value.pseudo, r.value.token.value.arg)
    ensures CharIs(input, p + 1, ':') ==> r.SyntaxError?
    ensures r.Ok? ==>
              && ParseIdent(input, p).Ok?
              && ParsePseudoClassType(ParseIdent(input, p).value).Some?
  {
    var isPseudoElement := CharIs(input, p + 1, ':');
    var start := if isPseudoElement then p + 1 else p;
    var name :- ParseIdent(input, start);
    assert !isPseudoElement;
    ScanNamedPseudo(input, name, start + |name|)
  }

  /** A pseudo-class whose name `name` ends at `i`: an unknown name is an error. */
  function ScanNamedPseudo(input: string, name: string, i: nat): (r: Result<Emit>)
    requires i <= |input|
    ensures ParsePseudoClassType(name).None? ==> r.SyntaxError?
    ensures ParsePseudoClassType(name).Some? ==> r == ScanPseudoArgument(input, ParsePseudoClassType(name).value, i)
  {
    match ParsePseudoClassType(name)
    case None => SyntaxError
    case Some(pseudo) => ScanPseudoArgument(input, pseudo, i)
  }

  /**
   * An accepted pseudo-class is the known name read at `p` itself, followed
   * by that pseudo-class's argument.
   */
  lemma ScanPseudoReadsName(input: string, p: nat)
    ensures ScanPseudo(input, p).Ok? ==>
              var name := ParseIdent(input, p).value;
              && ParseIdent(input, p).Ok?
              && ParsePseudoClassType(name).Some?
              && ScanPseudo(input, p) == ScanPseudoArgument(input, ParsePseudoClassType(name).value, p + |name|)
  {
    hide ScanPseudo, ParsePseudoClassType, ScanPseudoArgument, ScanDirArgument, ScanNthArgument, ScanNamedPseudo, ParseIdent;
    ScanPseudoIsNamed(input, p);
  }

  /** An accepted pseudo-class reads its name at `p`, never at `p + 1`. */
  lemma ScanPseudoIsNamed(input: string, p: nat)
    ensures ScanPseudo(input, p).Ok? ==>
              && ParseIdent(input, p).Ok?
              && p + |ParseIdent(input, p).value| <= |input|
              && ScanPseudo(input, p) == ScanNamedPseudo(input, ParseIdent(input, p).value, p + |ParseIdent(input, p).value|)
  {
    hide ParsePseudoClassType, ScanPseudoArgument, ScanDirArgument, ScanNthArgument, ScanNamedPseudo, ParseIdent;
    if ScanPseudo(input, p).Ok? {
      assert !CharIs(input, p + 1, ':');
    }
  }

  /**
   * A known pseudo-class after its name, which ends at `i`: `dir` and the
   * four nth pseudo-classes read a parenthesized argument, every other
   * pseudo-class takes none.
   */
  function ScanPseudoArgument(input: string, pseudo: PseudoClassType, i: nat): (r: Result<Emit>)
    requires pseudo != Focus && i <= |input|
    ensures r.Ok? ==> i <= r.value.next <= |input|
    ensures r.Ok? && r.value.token.Some? ==>
              && r.value.token.value.PseudoClass?
              && r.value.token.value.pseudo == pseudo
              && ArgFits(pseudo, r.value.token.value.arg)
    ensures r.Ok? && r.value.token.None? ==> pseudo == Dir
    ensures pseudo == Dir ==> r == ScanDirArgument(input, i)
    ensures IsNth(pseudo) ==> r == ScanNthArgument(input, pseudo, i)
    ensures pseudo != Dir && !IsNth(pseudo) ==> r == Ok(Emit(i, Some(PseudoClass(pseudo, NoArg))))
  {
    if pseudo == Dir then ScanDirArgument(input, i)
    else if IsNth(pseudo) then ScanNthArgument(input, pseudo, i)
    else Ok(Emit(i, Some(PseudoClass(pseudo, NoArg))))
  }

  /**
   * The argument of `:dir`, from just past the name: `(`, an identifier and
   * `)`, with whitespace allowed inside the parentheses. A token is pushed
   * only when the identifier is `rtl` or `ltr`.
   */
  function ScanDirArgument(input: string, i: nat): (r: Result<Emit>)
    ensures r.Ok? ==> i < r.value.next <= |input|
    ensures r.Ok? ==>
              var a := SkipWhitespace(input, i + 1);
              && CharIs(input, i, '(')
              && ParseIdent(input, a).Ok?
              && r.value.token == (match DirectionOf(ParseIdent(input, a).value)
                                   case Some(d) => Some(PseudoClass(Dir, DirArg(d)))
                                   case None => None)
              && r.value.next == SkipWhitespace(input, a + |ParseIdent(input, a).value|) + 1
              && input[r.value.next - 1] == ')'
  {
    if !CharIs(input, i, '(') then SyntaxError
    else
      var a := SkipWhitespace(input, i + 1);
      var ident :- ParseIdent(input, a);
      var b := SkipWhitespace(input, a + |ident|);
      if !CharIs(input, b, ')') then SyntaxError
      else
        var dir := DirectionOf(ident);
        Ok(Emit(b + 1, if dir.Some? then Some(PseudoClass(Dir, DirArg(dir.value))) else None))
  }

  /**
   * The argument of an nth pseudo-class, from just past the name: `(`, an
   * An+B interval and `)`, with whitespace allowed inside the parentheses.
   */
  function ScanNthArgument(input: string, pseudo: PseudoClassType, i: nat): (r: Result<Emit>)
    ensures r.Ok? ==> i < r.value.next <= |input|
    ensures r.Ok? ==>
              var a := SkipWhitespace(input, i + 1);
              && CharIs(input, i, '(')
              && r.value.token == Some(PseudoClass(pseudo, IntervalArg(ParseStepInterval(input, a).interval)))
              && r.value.next == SkipWhitespace(input, ParseStepInterval(input, a).end) + 1
              && input[r.value.next - 1] == ')'
  {
    if !CharIs(input, i, '(') then SyntaxError
    else
      var a := SkipWhitespace(input, i + 1);
      var interval := ParseStepInterval(input, a);
      var b := SkipWhitespace(input, interval.end);
      if !CharIs(input, b, ')') then SyntaxError
      else Ok(Emit(b + 1, Some(PseudoClass(pseudo, IntervalArg(interval.interval)))))
  }

  /**
   * A run of whitespace starting at `i`. It stands for the descendant
   * combinator only when it neither starts nor ends the input and neither
   * neighbouring character is a combinator character.
   */
  function ScanWhitespace(input: string, i: nat): (r: Emit)
    requires i < |input| && IsWhitespace(input[i])
    ensures i < r.next <= |input|
    ensures r.next < |input| ==> !IsWhitespace(input[r.next])
    ensures r.token.Some? <==>
              && i != 0
              && r.next != |input|
              && !IsCombinatorChar(input[i - 1])
              && !IsCombinatorChar(input[r.next])
    ensures r.token.Some? ==> r.token.value == Combinator(Descendant)
  {
    var j := SkipWhitespace(input, i);
    if i != 0 && j != |input| && !IsCombinatorChar(input[i - 1]) && !IsCombinatorChar(input[j]) then
      Emit(j, Some(Combinator(Descendant)))
    else
      Emit(j, None)
  }

  /** A tag name: the run of non-reserved characters at `i`, which must not be empty. */
  function ScanTag(input: string, i: nat): (r: Result<Emit>)
    requires i < |input|
    ensures r.Ok? <==> !IsReservedChar(input[i])
    ensures r.Ok? ==>
              && i < r.value.next <= |input|
              && r.value.token == Some(Tag(input[i..r.value.next]))
              && AtNameBoundary(input, r.value.next)
              && forall k | i <= k < r.value.next :: IsNameChar(input[k])
  {
    var j := SkipWhile(input, i, IsNameChar);
    SkipWhileKeeps(input, i, IsNameChar);
    if j == i then SyntaxError else Ok(Emit(j, Some(Tag(input[i..j]))))
  }

  /**
   * One turn of the main loop at position `i`, dispatching on `input[i]`;
   * `last` is the last token pushed so far.
   */
  function Step(input: string, i: nat, last: Option<Token>): (r: Result<Emit>)
    requires i < |input|
    ensures r.Ok? ==> i < r.value.next <= |input|
    ensures r.Ok? && r.value.token == Some(Universal) ==> UniversalMayFollow(last)
    ensures r.Ok? && r.value.token.None? ==> input[i] == ':' || IsWhitespace(input[i])
    ensures r.Ok? && r.value.token.Some? ==> WellFormedToken(r.value.token.value)
  {
    match input[i]
    case '.' =>
      var value :- ParseIdent(input, i + 1);
      Ok(Emit(i + 1 + |value|, Some(Class(value))))
    case '#' =>
      var value :- ParseIdent(input, i + 1);
      Ok(Emit(i + 1 + |value|, Some(Id(value))))
    case '[' => ScanAttribute(input, i + 1)
    case ',' => Ok(Emit(i + 1, Some(GroupSeparator)))
    case '>' => Ok(Emit(i + 1, Some(Combinator(Child))))
    case '+' => Ok(Emit(i + 1, Some(Combinator(NextSibling))))
    case '~' => Ok(Emit(i + 1, Some(Combinator(SubsequentSibling))))
    case ':' => ScanPseudo(input, i + 1)
    case '*' =>
      if UniversalMayFollow(last) then Ok(Emit(i + 1, Some(Universal))) else SyntaxError
    case c =>
      if IsWhitespace(c) then Ok(ScanWhitespace(input, i)) else ScanTag(input, i)
  }

  /** The main loop from position `i`, with `tokens` pushed so far. */
  function Scan(input: string, i: nat, tokens: seq<Token>): (r: Result<seq<Token>>)
    ensures r.Ok? ==> tokens <= r.value
    ensures r.Ok? && AllWellFormed(tokens) ==> AllWellFormed(r.value)
    ensures r.Ok? && UniversalsPlaced(tokens) ==> UniversalsPlaced(r.value)
    decreases |input| - i
  {
    if i >= |input| then Ok(tokens)
    else
      var e :- Step(input, i, LastToken(tokens));
      if e.token.Some? then
        PushKeepsInvariants(tokens, e.token.value);
        Scan(input, e.next, tokens + [e.token.value])
      else
        Scan(input, e.next, tokens)
  }

  /** The tokens of a selector; an input that yields none is an error too. */
  function Parse(input: string): (r: Result<seq<Token>>)
    ensures r.Ok? ==> |r.value| > 0 && AllWellFormed(r.value) && UniversalsPlaced(r.value)
    ensures |input| == 0 ==> r.SyntaxError?
  {
    var tokens :- Scan(input, 0, []);
    if |tokens| == 0 then SyntaxError else Ok(tokens)
  }

  /** A successful turn of the main loop hands on to the next. */
  lemma ScanSteps(s: string, i: nat, tokens: seq<Token>, e: Emit)
    requires i < |s| && Step(s, i, LastToken(tokens)) == Ok(e)
    ensures Scan(s, i, tokens) == Scan(s, e.next, if e.token.Some? then tokens + [e.token.value] else tokens)
  {
    hide Step;
  }

  /** The main loop stops at the end of the input with what it has pushed. */
  lemma ScanEnds(s: string, tokens: seq<Token>)
    ensures Scan(s, |s|, tokens) == Ok(tokens)
  {
  }

  /** The tokens of a selector are those of the main loop run from the start, when there are any. */
  lemma ParseOfScan(s: string, tokens: seq<Token>)
    requires Scan(s, 0, []) == Ok(tokens)
    ensures |tokens| > 0 ==> Parse(s) == Ok(tokens)
    ensures |tokens| == 0 ==> Parse(s).SyntaxError?
  {
    hide Scan;
  }

  /** A failed main loop fails the selector. */
  lemma ParseOfScanError(s: string)
    requires Scan(s, 0, []).SyntaxError?
    ensures Parse(s).SyntaxError?
  {
    hide Scan;
  }

  /** A failed turn of the main loop fails the whole scan. */
  lemma ScanStops(s: string, i: nat, tokens: seq<Token>)
    requires i < |s| && Step(s, i, LastToken(tokens)).SyntaxError?
    ensures Scan(s, i, tokens).SyntaxError?
  {
    hide Step;
  }
}

/**
 * A printer for token sequences, the inverse the lexer is checked against:
 * every sequence in which neighbouring tokens cannot run into each other
 * prints to a selector that the lexer reads back as exactly that sequence.
 */
module Printer {
  import opened Results
  import opened Chars
  import opened PseudoClass
  import opened Tokens
  import opened Scanners
  import opened Lexer
  import opened NumberText

  // ---------------------------------------------------------------------
  // Tokens

  /** The operator of an attribute selector; no matcher prints as `:=`, which the lexer reads as none. */
  function OperatorText(valueType: Option<AttributeValueType>): (s: string)
    ensures |s| > 0 && s[|s| - 1] == '=' && !IsWhitespace(s[0])
    ensures s == "=" <==> valueType == Some(Exact)
    ensures valueType != Some(Exact) ==> |s| == 2 && IsReservedChar(s[0]) && s[0] != ']' && s[0] != '=' && OperatorType(s[0]) == valueType
  {
    match valueType
    case None => ":="
    case Some(Exact) => "="
    case Some(Sep) => "~="
    case Some(PrefixedDash) => "|="
    case Some(Prefixed) => "^="
    case Some(Suffixed) => "$="
    case Some(Includes) => "*="
  }

  /** An attribute value: bare when it is an identifier, otherwise in quotes it does not contain. */
  function ValueText(v: string): (s: string)
    ensures IsAttributeValue(v) ==> |s| > 0 && !IsWhitespace(s[0])
    ensures IsIdent(v) && !IsQuote(v[0]) ==> s == v
  {
    if IsIdent(v) && !IsQuote(v[0]) then v
    else if '"' !in v then "\"" + v + "\""
    else "'" + v + "'"
  }

  /** The argument of `:dir(...)`. */
  function DirectionText(d: Direction): (s: string)
    ensures IsIdent(s) && DirectionOf(s) == Some(d)
  {
    match d
    case Rtl => "rtl"
    case Ltr => "ltr"
  }

  /** A combinator as one character: the descendant combinator is a space. */
  function CombinatorText(c: CombinatorType): (s: string)
    ensures |s| == 1
    ensures IsWhitespace(s[0]) <==> c == Descendant
    ensures IsCombinatorChar(s[0]) <==> c != Descendant
  {
    match c
    case Descendant => " "
    case Child => ">"
    case NextSibling => "+"
    case SubsequentSibling => "~"
  }

  /** An attribute selector after its `[`. */
  function AttributeBody(name: string, valueType: Option<AttributeValueType>, value: Option<string>): string {
    name + (if value.Some? then OperatorText(valueType) + ValueText(value.value) else "") + "]"
  }

  /** What follows the name of a pseudo-class. */
  function ArgText(arg: PseudoArg): string {
    match arg
    case NoArg => ""
    case DirArg(dir) => "(" + DirectionText(dir) + ")"
    case IntervalArg(iv) => "(" + IntervalText(iv) + ")"
  }

  /** The selector text of one token. */
  function Render(t: Token): string {
    match t
    case Tag(name) => name
    case Class(value) => "." + value
    case Id(value) => "#" + value
    case Attribute(name, valueType, value) => "[" + AttributeBody(name, valueType, value)
    case PseudoClass(pseudo, arg) => ":" + Keyword(pseudo) + ArgText(arg)
    case Combinator(c) => CombinatorText(c)
    case GroupSeparator => ","
    case Universal => "*"
  }

  /** A pseudo-class's text starts with `:` and ends in a keyword character or `)`. */
  lemma PseudoClassEdges(pseudo: PseudoClassType, arg: PseudoArg)
    ensures var s := ":" + Keyword(pseudo) + ArgText(arg);
            s[0] == ':' && (IsKeywordChar(s[|s| - 1]) || s[|s| - 1] == ')')
  {
    hide Keyword, ParsePseudoClassType;
    var kw := Keyword(pseudo);
    var s := ":" + kw + ArgText(arg);
    KeywordFacts(pseudo);
    if arg.NoArg? {
      assert s == ":" + kw;
      assert s[|s| - 1] == kw[|kw| - 1];
      assert kw[|kw| - 1] in kw;
    } else {
      assert s[|s| - 1] == ')';
    }
  }

  /**
   * The first character of a token's text: only a tag name starts with a
   * name character, only the descendant combinator with whitespace, and only
   * combinators and the group separator with a combinator character.
   */
  lemma RenderStart(t: Token)
    requires WellFormedToken(t)
    ensures var s := Render(t);
            && |s| > 0
            && (IsReservedChar(s[0]) <==> !t.Tag?)
            && (IsWhitespace(s[0]) <==> t == Combinator(Descendant))
            && (IsCombinatorChar(s[0]) <==> t.GroupSeparator? || (t.Combinator? && t.combinator != Descendant))
  {
    hide Keyword, ParsePseudoClassType, ArgText, IntervalText, ValueText, OperatorText, AttributeBody;
    match t
    case Tag(name) =>
    case Class(v) =>
    case Id(v) =>
    case Attribute(name, valueType, value) =>
    case PseudoClass(pseudo, arg) =>
    case Combinator(c) =>
    case GroupSeparator =>
    case Universal =>
  }

  /** Only combinators and the group separator end with a combinator character. */
  lemma RenderEnd(t: Token)
    requires WellFormedToken(t)
    ensures var s := Render(t);
            |s| > 0 && (IsCombinatorChar(s[|s| - 1]) ==> t.GroupSeparator? || t.Combinator?)
  {
    hide Keyword, ParsePseudoClassType, ArgText, IntervalText, ValueText, OperatorText;
    var s := Render(t);
    match t
    case Tag(name) =>
      assert IsNameChar(name[|name| - 1]);
    case Class(v) =>
      assert s[|s| - 1] == v[|v| - 1];
      assert IsNameChar(v[|v| - 1]);
    case Id(v) =>
      assert s[|s| - 1] == v[|v| - 1];
      assert IsNameChar(v[|v| - 1]);
    case Attribute(name, valueType, value) =>
      assert s[|s| - 1] == ']';
    case PseudoClass(pseudo, arg) =>
      PseudoClassEdges(pseudo, arg);
    case Combinator(c) =>
    case GroupSeparator =>
    case Universal =>
  }

  /** The text of a token sequence. */
  function Print(tokens: seq<Token>): string {
    if |tokens| == 0 then "" else Print(tokens[..|tokens| - 1]) + Render(tokens[|tokens| - 1])
  }

  /** The text of the first `k` tokens is a prefix of the text of them all. */
  lemma {:induction false} PrintPrefix(tokens: seq<Token>, k: nat)
    requires k <= |tokens|
    ensures |Print(tokens[..k])| <= |Print(tokens)|
    ensures Print(tokens)[..|Print(tokens[..k])|] == Print(tokens[..k])
    decreases |tokens| - k
  {
    hide Render;
    if k == |tokens| {
      assert tokens[..k] == tokens;
    } else {
      PrintPrefix(tokens, k + 1);
      var p := tokens[..k + 1];
      assert p[..|p| - 1] == tokens[..k];
    }
  }

  /** Token `k` is printed right after the first `k` tokens. */
  lemma RenderAt(tokens: seq<Token>, k: nat)
    requires k < |tokens|
    ensures |Print(tokens[..k + 1])| == |Print(tokens[..k])| + |Render(tokens[k])|
    ensures TextAt(Print(tokens), |Print(tokens[..k])|, Render(tokens[k]))
  {
    hide Render;
    PrintPrefix(tokens, k + 1);
    var p := tokens[..k + 1];
    assert p[..|p| - 1] == tokens[..k];
    assert p[|p| - 1] == tokens[k];
    var i := |Print(tokens[..k])|;
    var j := i + |Render(tokens[k])|;
    assert Print(tokens)[i..j] == Print(p)[i..j];
  }

  /** Tokens whose text ends inside a name, which a following tag name would extend. */
  predicate EndsInName(t: Token) {
    t.Tag? || t.Class? || t.Id? || (t.PseudoClass? && t.arg.NoArg?)
  }

  /** Whether `t` can be printed right after `prev` and read back as a separate token. */
  predicate MayFollow(prev: Token, t: Token) {
    && (t.Tag? ==> !EndsInName(prev))
    && (t == Universal ==> prev.GroupSeparator? || prev.Combinator?)
    && (t == Combinator(Descendant) ==> !(prev.GroupSeparator? || prev.Combinator?))
    && (prev == Combinator(Descendant) ==> !(t.GroupSeparator? || t.Combinator?))
  }

  /**
   * The sequences the printer is proved right for: well-formed tokens,
   * neighbours that do not run into each other, and no descendant
   * combinator at either end (whitespace there is dropped).
   */
  predicate Printable(tokens: seq<Token>) {
    && |tokens| > 0
    && AllWellFormed(tokens)
    && tokens[0] != Combinator(Descendant)
    && tokens[|tokens| - 1] != Combinator(Descendant)
    && forall k | 0 < k < |tokens| :: MayFollow(tokens[k - 1], tokens[k])
  }
}

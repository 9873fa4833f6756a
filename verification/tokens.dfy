/**
 * The tokens the selector lexer produces.
 *
 * `TokenType.MeshSelect` and `TokenType.PseudoElement` are declared by the
 * lexer but never produced by it, so they have no constructor here.
 */
module Tokens {
  import opened Results
  import opened PseudoClass

  /** The combinators; whitespace between compound selectors is `Descendant`. */
  datatype CombinatorType = Descendant | Child | NextSibling | SubsequentSibling

  /** The attribute matchers: `=`, `~=`, `|=`, `^=`, `$=` and `*=`. */
  datatype AttributeValueType = Exact | Sep | PrefixedDash | Prefixed | Suffixed | Includes

  /**
   * An An+B interval. Each coefficient is JavaScript's `parseInt` of the
   * digits found, so `None` stands for NaN (no digits at all).
   */
  datatype StepInterval = StepInterval(a: Option<int>, b: Option<int>)

  /** What follows the name of a pseudo-class token. */
  datatype PseudoArg = NoArg | DirArg(dir: Direction) | IntervalArg(interval: StepInterval)

  datatype Token =
    | Tag(name: string)
    | Class(value: string)
    | Id(value: string)
    | Attribute(name: string, valueType: Option<AttributeValueType>, attrValue: Option<string>)
    | PseudoClass(pseudo: PseudoClassType, arg: PseudoArg)
    | Combinator(combinator: CombinatorType)
    | GroupSeparator
    | Universal

  /** The argument a pseudo-class token carries is the one its pseudo-class takes. */
  predicate ArgFits(t: PseudoClassType, arg: PseudoArg) {
    if t == Dir then arg.DirArg?
    else if IsNth(t) then arg.IntervalArg?
    else arg.NoArg?
  }

  /** Whether a universal selector may follow `last` (the previous token, if any). */
  predicate UniversalMayFollow(last: Option<Token>)
    ensures last.None? ==> UniversalMayFollow(last)
    ensures last == Some(Universal) ==> !UniversalMayFollow(last)
    ensures last.Some? && (last.value.Tag? || last.value.Class? || last.value.Id? || last.value.Attribute? || last.value.PseudoClass?) ==>
              !UniversalMayFollow(last)
  {
    last.None? || last.value.GroupSeparator? || last.value.Combinator?
  }
}

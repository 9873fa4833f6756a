# quiksand selector lexer, modelled in Dafny

This project models the CSS-selector tokenizer of quiksand (`Lexer` in
`lexer.ts`) and the pseudo-class keyword lookup it calls
(`parsePseudoClassType` in `constants/pseudo_class.ts`). Properties of the
model are proved with Dafny.

The lexer reads a selector such as `h1[attr="x"]:hover, .foo > #bar` in one
pass and returns a flat sequence of tokens. There are three token families:
- simple selectors: tag, class, id, attribute, pseudo-class and universal;
- combinators: descendant, child, next sibling and subsequent sibling;
- the group separator `,`.

Every malformed input gives one and the same syntax error instead of tokens.

The model is functional. The input is a `string` with an explicit `nat`
cursor, and every scanner that can fail returns a `Result`. The main loop is the recursive
function `Lexer.Scan`, which terminates on `|input| - i`. One turn of that
loop is `Lexer.Step`.

Modules:
- `Results`: `Option` and `Result`.
- `PseudoClass`: the `PseudoClassType` and `Dir` enums. `Dir` is called `Direction` here because `Dir` is also a pseudo-class. It also holds the keyword lookup and a reference table `Keyword` that the lookup is proved against.
- `Chars`: the four character classes and the skip loops.
- `Tokens`: the token datatype.
- `Scanners`: `parseIdent`, `parseMaybeString`, `parseInteger` and `parseStepInterval`.
- `Lexer`: the dispatch loop.
- `NumberText`: a printer for integers and An+B intervals, with the proof that the scanners read them back.
- `Printer` and `ReadBack`: a printer for whole token sequences, with the proof that `Parse(Print(tokens)) == Ok(tokens)` for every non-empty well-formed sequence whose neighbours cannot run into each other and which neither starts nor ends with a descendant combinator.
- `LexerProperties`: the lexer's quirks, stated for whole families of inputs, with a few worked examples.

How JavaScript behaviour is modelled:
- Reading past the end of the input gives `undefined` in JavaScript. This is modelled by `CharIs(s, i, c)` being false.
- `NaN` from `parseInt` is `None`.
- Attribute values and matchers are `Option`s.

## Model

| member | source | states |
|---|---|---|
| PseudoClass.ParsePseudoClassType | constants/pseudo_class.ts:62-173 | the lookup never answers `Focus` (the keyword `focus` is answered with `Active`), and every name it knows is at least three characters long |
| PseudoClass.LookupMatchesTable | constants/pseudo_class.ts:62-173 | the lookup answers `t` for a name exactly when the name is `t`'s keyword, except that the keyword `focus` is answered with `Active` (both directions) |
| PseudoClass.KeywordFacts | constants/pseudo_class.ts:62-173 | every keyword is at least three lower-case keyword characters starting with a letter, and looking it up gives its own pseudo-class back (`Active` for `focus`) |
| PseudoClass.LookupKnowsOnlyKeywords | constants/pseudo_class.ts:62-173 | a name is known exactly when it is one of the keywords |
| PseudoClass.UnknownNames | constants/pseudo_class.ts:62-173 | the match is exact and case-sensitive: `Hover`, `HOVER`, the pseudo-element name `before` and the empty string are unknown |
| PseudoClass.DirKeyword | constants/pseudo_class.ts:64-65 | `dir` is the one name that yields `Dir` |
| PseudoClass.FocusResolvesToActive | constants/pseudo_class.ts:84-87 | `focus` and `active` both yield `Active`, and no name yields `Focus` |
| PseudoClass.NthKeywords | constants/pseudo_class.ts:150-163 | the four nth keywords yield the four nth pseudo-classes |
| PseudoClass.NthNames | constants/pseudo_class.ts:150-163 | a name yields an nth pseudo-class exactly when it is one of the four nth keywords |
| PseudoClass.LookupNearlyInjective | constants/pseudo_class.ts:62-173 | two distinct known names yield the same pseudo-class only when they are `focus` and `active` |
| Chars.IsWhitespace | lexer.ts:25-37 | every whitespace character is at or below U+0020; the vertical tab and the no-break space, which JavaScript's `\s` accepts, are not whitespace here |
| Chars.IsCombinatorChar | lexer.ts:43-53 | a combinator character is never whitespace |
| Chars.IsDigit | lexer.ts:55-71 | a digit is neither whitespace nor a combinator character |
| Chars.IsReservedChar | lexer.ts:74-97 | every whitespace and combinator character is reserved; digits, letters, `-`, `_` and the quotes are not |
| Chars.SkipWhile | lexer.ts:298-301 | a `while (p(input[i])) i++` loop never moves back, moves past a kept character, and stops at the end or at a rejected character |
| Chars.SkipWhileStopsAt | lexer.ts:298-301 | the loop stops exactly at the first rejected character after a run of kept ones |
| Chars.SkipWhileIdempotent | lexer.ts:298-301 | running the loop again where it stopped does not move |
| Scanners.IsIdentStart | lexer.ts:197-215 | an identifier never starts with whitespace, a combinator character or `:`; every ASCII letter and `_` may start one |
| Scanners.ParseIdent | lexer.ts:182-225 | succeeds exactly when a character remains and it is neither reserved, `-` nor a digit; the result is the input slice at `i`, a non-empty run of non-reserved characters that ends at a reserved character or the end |
| Scanners.ParseIdentAt | lexer.ts:182-225 | any identifier written at `i` and followed by a reserved character or the end is read back exactly |
| Scanners.ParseMaybeString | lexer.ts:238-275 | without a quote at `i` it is `parseIdent` with the identifier's length as count; with a quote it succeeds exactly when the same quote occurs later, returns the text up to the first such quote with no escapes, and counts that text plus two |
| Scanners.ParseMaybeStringAtQuoted | lexer.ts:238-275 | any text without the quote character, written between two such quotes, is read back with count length plus two |
| Scanners.ParseIntPrefix | lexer.ts:291-294 | `parseInt` of an optional sign and digits is defined exactly when a digit comes first or right after the sign; it is non-positive when the sign is `-` and non-negative otherwise |
| Scanners.ParseInteger | lexer.ts:277-295 | it consumes exactly the optional sign and the run of digits after it: something is consumed exactly when a sign or digit stands at the start, every consumed character after the first is a digit, and it stops before a non-digit; the value is NaN exactly when no digit was consumed, so a lone sign takes one character and gives NaN |
| Scanners.ParseIntegerIsParseInt | lexer.ts:277-295 | its value is `parseInt` of exactly the text it consumed |
| Scanners.SkipWhitespace | lexer.ts:298-301 | skips to the next non-whitespace position or the end |
| Scanners.ParseStepInterval | lexer.ts:298-325 | the returned position is never before the start and, when it moved, not past the end |
| NumberText.DecimalTextValue | lexer.ts:277-295 | the decimal text of `n` is all digits and its value is `n` |
| NumberText.ParseIntegerReads | lexer.ts:277-295 | a sign and digits followed by a non-digit are read as their signed value, counting sign and digits |
| NumberText.ParseIntegerReadsNothing | lexer.ts:277-295 | with no sign or digit at the position it reads NaN and consumes nothing |
| NumberText.ParseIntegerReadsIntText | lexer.ts:277-295 | every integer, and NaN printed as nothing, is read back from its text |
| NumberText.ParseIntegerReadsSignedIntText | lexer.ts:277-295 | the same for integers printed with an explicit sign |
| NumberText.ParseIntegerAtIntText | lexer.ts:277-295 | the same wherever the text stands, when no digit or sign follows |
| NumberText.ParseIntegerAtSignedIntText | lexer.ts:277-295 | the same for explicitly signed integers wherever they stand |
| NumberText.ParseConstantIntervalAt | lexer.ts:304-312 | an interval whose `A` is 0, written as its `B` alone and followed by `)` or the end, is read back as `0n+B` ending right after `B`: the branch taken when no `n` follows the first integer |
| NumberText.ParseSteppedIntervalAt | lexer.ts:314-324 | an interval whose `A` is not 0, written as `An` and a signed `B` and followed by `)` or the end, is read back with `A` and `B` from the integers before and after the `n`, ending after the second |
| NumberText.ParseStepIntervalAt | lexer.ts:298-325 | every interval, printed and followed by `)` or the end, is read back exactly with its end position |
| Lexer.OperatorType | lexer.ts:404-431 | the characters `~ \| ^ $ *` name the matchers Sep, PrefixedDash, Prefixed, Suffixed and Includes, and no other character names one |
| Lexer.DirectionOf | lexer.ts:524-537 | `rtl` and `ltr` are the only directions |
| Lexer.CloseAttribute | lexer.ts:443-449 | succeeds exactly when `]` follows after whitespace, and then consumes it |
| Lexer.ScanAttribute | lexer.ts:356-458 | an accepted attribute selector is a well-formed attribute token whose name is the identifier read after any whitespace following `[`; it has a value whenever it has a matcher, and the position advances |
| Lexer.ScanAfterName | lexer.ts:366-458 | at the first non-whitespace position after the name: `]` gives the name-only attribute and consumes it; `=` gives the `Exact` matcher with the value read after any whitespace; any other character must be followed by `=` and gives the matcher that character names (none for an unknown one), with the value read after any whitespace; in both value branches only whitespace may separate the value from the `]` that ends the selector |
| Lexer.ScanAttributeValue | lexer.ts:386-449 | after the operator: skips whitespace, reads the value there, and succeeds only if `]` is the next non-whitespace character after the value, ending just past it |
| Lexer.ScanPseudo | lexer.ts:495-512 | an accepted pseudo-class is never `Focus` and carries the argument its kind takes; its name is an identifier read at the position after `:` and is a known pseudo-class; when the character after the name's first character is `:` the result is an error |
| Lexer.ScanPseudoReadsName | lexer.ts:501-513 | an accepted pseudo-class is exactly what the argument scanner gives for the pseudo-class named by the identifier read after `:`, from the end of that identifier |
| Lexer.ScanPseudoArgument | lexer.ts:513-596 | the token carries the looked-up pseudo-class; only `dir` may push nothing; `dir` and the nth pseudo-classes read a parenthesized argument; every other pseudo-class takes none and consumes nothing more |
| Lexer.ScanDirArgument | lexer.ts:514-557 | `(` right after the name, then an identifier read after any whitespace, then `)` after any whitespace; the token carries `rtl` or `ltr` when the identifier names one and is absent otherwise, as in `:dir( foo )` |
| Lexer.ScanNthArgument | lexer.ts:559-590 | `(` right after the name, then the interval read after any whitespace, then `)` after any whitespace, as in `:nth-child( 2n+1 )`; the token carries that interval |
| Lexer.ScanWhitespace | lexer.ts:626-644 | a whitespace run gives a descendant combinator exactly when it neither starts nor ends the input and neither neighbour is a combinator character; it stops at the next non-whitespace character |
| Lexer.ScanTag | lexer.ts:649-668 | a tag name is read exactly when the first character is not reserved; it is the maximal run of non-reserved characters |
| Lexer.Step | lexer.ts:331-670 | every turn advances; a universal selector is pushed only where one may follow; a turn that pushes nothing read `:` or whitespace; every pushed token is well formed |
| Tokens.UniversalMayFollow | lexer.ts:605-617 | a universal selector may start the selector, and may never follow another universal selector or any other simple selector |
| Lexer.PushKeepsInvariants | lexer.ts:603-623 | pushing a well-formed token, or a universal selector after nothing, a group separator or a combinator, keeps the token invariants |
| Lexer.Scan | lexer.ts:330-671 | the loop only appends tokens and keeps the well-formedness and universal-placement invariants |
| Lexer.Parse | lexer.ts:327-700 | a successful result is a non-empty sequence of well-formed tokens with every universal selector correctly placed; the empty input fails |
| ReadBack.ValueTextRead | lexer.ts:238-275 | an attribute value, printed bare or quoted and followed by `]`, is read back exactly |
| ReadBack.ScanAttributeReads | lexer.ts:356-458 | every well-formed attribute selector is read back from its text: name only, `=`, and each two-character operator |
| ReadBack.KeywordIsIdent | lexer.ts:182-225 | every pseudo-class keyword is an identifier whose second character is not `:` |
| ReadBack.ScanPseudoReads | lexer.ts:495-600 | every well-formed pseudo-class is read back from its text, with its direction or interval argument |
| ReadBack.ScanPseudoReadsDirArg | lexer.ts:514-558 | `dir(x)` for an identifier `x` gives a direction token for `rtl` and `ltr` and no token otherwise, consuming through `)` |
| ReadBack.StepReads | lexer.ts:331-670 | every token that is written at a position, and not run into by its neighbours, is read back by one turn of the loop |
| ReadBack.ScanPrinted | lexer.ts:330-671 | started where the `k`-th token of a printed sequence was written, with the first `k` tokens pushed, the loop returns exactly the whole sequence |
| ReadBack.PrintParses | lexer.ts:327-700 | `Parse(Print(tokens)) == Ok(tokens)` for every non-empty well-formed sequence whose neighbours cannot run into each other and which neither starts nor ends with a descendant combinator |
| LexerProperties.DoubleColonRejected | lexer.ts:495-511 | `::` is always a syntax error: the pseudo-element check looks one character too far on |
| LexerProperties.LeadingDoubleColonRejected | lexer.ts:495-511 | every selector starting with `::` fails |
| LexerProperties.PseudoNeedsKnownName | lexer.ts:505-511 | an accepted pseudo-class was named by a keyword the lookup knows |
| LexerProperties.PseudoArgumentParenthesized | lexer.ts:514-581 | `dir` and the nth pseudo-classes are accepted only with `(` right after the name, and what they consumed ends with `)` |
| LexerProperties.FocusReadsAsActive | lexer.ts:495-596 | `:focus` is read as an `Active` pseudo-class |
| LexerProperties.FocusParsesAsActive | lexer.ts:327-700 | the selector `:focus` is the single token `Active` |
| LexerProperties.DirArgumentRead | lexer.ts:514-558 | `:dir(x)` gives a direction token for `rtl` and `ltr`; for any other identifier it gives no token and no error |
| LexerProperties.UnknownDirectionAloneRejected | lexer.ts:672-674 | `:dir(x)` alone, with `x` not a direction, yields no token and therefore fails |
| LexerProperties.UnknownDirectionDropped | lexer.ts:514-558 | after a tag name, `:dir(x)` with an unknown `x` is dropped: `h1:dir(foo)` gives only the tag |
| LexerProperties.UniversalRule | lexer.ts:603-623 | `*` is accepted exactly when no token, a group separator or a combinator precedes it |
| LexerProperties.UniversalAfterTagRejected | lexer.ts:603-623 | a tag name followed by `*` fails |
| LexerProperties.DoubleUniversalRejected | lexer.ts:603-623 | `**` fails |
| LexerProperties.StrayReservedRejected | lexer.ts:649-668 | a reserved character that starts no construct (`= ( ) ] \| ^ $`) is an error |
| LexerProperties.NameCharStartsTag | lexer.ts:649-668 | any non-reserved character starts a tag name, digits and `-` included |
| LexerProperties.TagAlone | lexer.ts:649-668 | any run of non-reserved characters parses as that one tag name |
| LexerProperties.DigitLedTag | lexer.ts:649-668 | `123abc` parses as the tag `123abc` |
| LexerProperties.ClassOrIdNeedsIdentStart | lexer.ts:336-354 | a class or id name that starts with a digit or `-` is an error |
| LexerProperties.SpaceBesideCombinatorDropped | lexer.ts:626-644 | a space at the start of the input or beside a combinator character pushes nothing |
| LexerProperties.SpacedCombinator | lexer.ts:626-644 | `a > b`, with any non-descendant combinator, is read as tag, combinator, tag, with no descendant combinator from the spaces |
| LexerProperties.WhitespaceOnlyRejected | lexer.ts:672-674 | input made of whitespace alone yields no token and fails |
| LexerProperties.AttributeEndsWithBracket | lexer.ts:443-449 | an accepted attribute selector always ends with the `]` it consumed |
| LexerProperties.UnclosedAttributeRejected | lexer.ts:365-449 | an attribute name running to the end of the input, with or without trailing whitespace, is an error |
| LexerProperties.OperatorWithoutEqualsRejected | lexer.ts:359-406 | with whitespace allowed before the name, the first character after the attribute name and any whitespace, when it is neither `]` nor `=`, must be followed by `=`, or the selector fails: `[a~b]`, `[ a ~ =b]` and `[a b]` all fail |
| LexerProperties.UnknownOperatorHasNoMatcher | lexer.ts:402-439 | any other character followed by `=` is accepted as an operator: `[a b=c]` gives the name `a`, the value `c` and no matcher |
| LexerProperties.SignedNHasNoCoefficient | lexer.ts:277-325 | a sign directly before `n` is the whole first integer, so `-n+3` has a NaN coefficient and the offset 3 |
| LexerProperties.NthWithoutOffset | lexer.ts:298-325 | for every coefficient `A`, zero included, `:nth-child(An)` and the other nth pseudo-classes give `A` and a NaN offset: the `n` branch is taken even for `0n` |

## Left out

- `quiksand.ts`, the matcher that consumes the tokens, is not part of this model. It is bound to an external DOM `Element` type.
- `bench.ts`, `dev.ts` and `mod.ts` are not part of this model. They hold timing and console output, a demo, and re-exports.
- `constants/pseudo_element.ts` is not part of this model. `parse` never pushes a pseudo-element token, so the token datatype has no pseudo-element case.
- `createError` (lexer.ts:227-232) is not modelled in detail. Every failure is the one value `SyntaxError`, without the `DOMException` message.
- Number semantics are simplified. JavaScript numbers are unbounded `int`s here, so large values are not rounded and `-0` is not told apart from `0`.
- `parseInt`'s leading-whitespace and `0x` handling is not modelled. It cannot arise, because the slice handed to `parseInt` is only a sign and digits.
- UTF-16 code units are not modelled. The input is a sequence of `char`, and characters outside the reserved set are name characters.
- The commented-out universal-selector count check (lexer.ts:682-697) is not modelled, because it is not active code.
- The nth token is stored under the field `incrementor` (lexer.ts:586), while the type declares `interval` (lexer.ts:134). The model uses one argument field, `IntervalArg`.
- Scanners.ParseStepInterval: its own contract states only the bounds of the returned position. The two result shapes (`0n+B` when no `n` follows, `An+B` otherwise) are stated through NumberText.ParseConstantIntervalAt, NumberText.ParseSteppedIntervalAt and LexerProperties.SignedNHasNoCoefficient, which fix them for every interval the printer can write.

Where the code and its own comments differ, the model follows the code:
- The comment at lexer.ts:632 says a descendant combinator is pushed when either side is a combinator character. The code pushes one only when neither side is.
- The comment at lexer.ts:498-504 describes pseudo-element support. The condition at lexer.ts:501 looks at the character after the name's first character, so `::name` always fails.
- A tag name takes no leading-character check, so `123abc` parses as a tag rather than failing.

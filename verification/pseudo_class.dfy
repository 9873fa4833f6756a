/**
 * The pseudo-class keyword table of the selector lexer.
 *
 * `ParsePseudoClassType` is the exact, case-sensitive string lookup the lexer
 * calls after a `:`; `Keyword` is an independent reference table (one name per
 * enum value) against which the lookup is proved correct.
 */
module PseudoClass {
  import opened Results

  /** Every pseudo-class the lexer knows, in declaration order. */
  datatype PseudoClassType =
    Dir
    | Lang
    | AnyLink
    | Link
    | Visited
    | LocalLink
    | Target
    | TargetWithin
    | Scope
    | Hover
    | Active
    | Focus
    | FocusVisible
    | FocusWithin
    | Current
    | Past
    | Future
    | Playing
    | Paused
    | Seeking
    | Buffering
    | Stalled
    | Muted
    | VolumeLocked
    | Enabled
    | Disabled
    | ReadOnly
    | ReadWrite
    | PlaceholderShown
    | Default
    | Checked
    | Indeterminate
    | Blank
    | Valid
    | Invalid
    | InRange
    | OutOfRange
    | Required
    | Optional
    | UserValid
    | UserInvalid
    | Root
    | Empty
    | NthChild
    | NthLastChild
    | FirstChild
    | LastChild
    | OnlyChild
    | NthOfType
    | NthLastOfType
    | FirstOfType
    | LastOfType
    | OnlyOfType

  /** The argument of `:dir(...)`; called `Dir` in the source. */
  datatype Direction = Rtl | Ltr

  /** The four pseudo-classes that take an An+B argument. */
  predicate IsNth(t: PseudoClassType) {
    t == NthChild || t == NthLastChild || t == NthOfType || t == NthLastOfType
  }

  /** The reference table: the keyword naming each pseudo-class. */
  function Keyword(t: PseudoClassType): string {
    match t
    case Dir => "dir"
    case Lang => "lang"
    case AnyLink => "any-link"
    case Link => "link"
    case Visited => "visited"
    case LocalLink => "local-link"
    case Target => "target"
    case TargetWithin => "target-within"
    case Scope => "scope"
    case Hover => "hover"
    case Active => "active"
    case Focus => "focus"
    case FocusVisible => "focus-visible"
    case FocusWithin => "focus-within"
    case Current => "current"
    case Past => "past"
    case Future => "future"
    case Playing => "playing"
    case Paused => "paused"
    case Seeking => "seeking"
    case Buffering => "buffering"
    case Stalled => "stalled"
    case Muted => "muted"
    case VolumeLocked => "volume-locked"
    case Enabled => "enabled"
    case Disabled => "disabled"
    case ReadOnly => "read-only"
    case ReadWrite => "read-write"
    case PlaceholderShown => "placeholder-shown"
    case Default => "default"
    case Checked => "checked"
    case Indeterminate => "indeterminate"
    case Blank => "blank"
    case Valid => "valid"
    case Invalid => "invalid"
    case InRange => "in-range"
    case OutOfRange => "out-of-range"
    case Required => "required"
    case Optional => "optional"
    case UserValid => "user-valid"
    case UserInvalid => "user-invalid"
    case Root => "root"
    case Empty => "empty"
    case NthChild => "nth-child"
    case NthLastChild => "nth-last-child"
    case FirstChild => "first-child"
    case LastChild => "last-child"
    case OnlyChild => "only-child"
    case NthOfType => "nth-of-type"
    case NthLastOfType => "nth-last-of-type"
    case FirstOfType => "first-of-type"
    case LastOfType => "last-of-type"
    case OnlyOfType => "only-of-type"
  }

  /**
   * The lookup the lexer performs on a pseudo-class name: an exact match
   * against the listed keywords, `None` (the source's `null`) for anything
   * else. Note that "focus" is answered with `Active`.
   */
  function ParsePseudoClassType(name: string): (r: Option<PseudoClassType>)
    ensures r.Some? ==> r.value != Focus
    ensures r.Some? ==> |name| >= 3
  {
    match name
    case "dir" => Some(Dir)
    case "lang" => Some(Lang)
    case "any-link" => Some(AnyLink)
    case "link" => Some(Link)
    case "visited" => Some(Visited)
    case "local-link" => Some(LocalLink)
    case "target" => Some(Target)
    case "target-within" => Some(TargetWithin)
    case "scope" => Some(Scope)
    case "hover" => Some(Hover)
    case "active" => Some(Active)
    case "focus" => Some(Active)
    case "focus-visible" => Some(FocusVisible)
    case "focus-within" => Some(FocusWithin)
    case "current" => Some(Current)
    case "past" => Some(Past)
    case "future" => Some(Future)
    case "playing" => Some(Playing)
    case "paused" => Some(Paused)
    case "seeking" => Some(Seeking)
    case "buffering" => Some(Buffering)
    case "stalled" => Some(Stalled)
    case "muted" => Some(Muted)
    case "volume-locked" => Some(VolumeLocked)
    case "enabled" => Some(Enabled)
    case "disabled" => Some(Disabled)
    case "read-only" => Some(ReadOnly)
    case "read-write" => Some(ReadWrite)
    case "placeholder-shown" => Some(PlaceholderShown)
    case "default" => Some(Default)
    case "checked" => Some(Checked)
    case "indeterminate" => Some(Indeterminate)
    case "blank" => Some(Blank)
    case "valid" => Some(Valid)
    case "invalid" => Some(Invalid)
    case "in-range" => Some(InRange)
    case "out-of-range" => Some(OutOfRange)
    case "required" => Some(Required)
    case "optional" => Some(Optional)
    case "user-valid" => Some(UserValid)
    case "user-invalid" => Some(UserInvalid)
    case "root" => Some(Root)
    case "empty" => Some(Empty)
    case "nth-child" => Some(NthChild)
    case "nth-last-child" => Some(NthLastChild)
    case "first-child" => Some(FirstChild)
    case "last-child" => Some(LastChild)
    case "only-child" => Some(OnlyChild)
    case "nth-of-type" => Some(NthOfType)
    case "nth-last-of-type" => Some(NthLastOfType)
    case "first-of-type" => Some(FirstOfType)
    case "last-of-type" => Some(LastOfType)
    case "only-of-type" => Some(OnlyOfType)
    case _ => None
  }

  /** Lower-case letters and '-': the only characters used in keywords. */
  predicate IsKeywordChar(c: char) {
    ('a' <= c <= 'z') || c == '-'
  }

  /** At least three keyword characters, the first a letter. */
  predicate KeywordShaped(s: string) {
    |s| >= 3 && 'a' <= s[0] <= 'z' && forall c | c in s :: IsKeywordChar(c)
  }

  /** The facts `KeywordFacts` states, for one pseudo-class. */
  predicate KeywordResolves(t: PseudoClassType) {
    && KeywordShaped(Keyword(t))
    && ParsePseudoClassType(Keyword(t)) == Some(if t == Focus then Active else t)
  }

  /**
   * `KeywordFacts`, one pseudo-class at a time (the table is split only to
   * keep each proof small).
   */
  lemma KeywordFactsDir()
    ensures KeywordResolves(Dir)
  {
  }

  lemma KeywordFactsLang()
    ensures KeywordResolves(Lang)
  {
  }

  lemma KeywordFactsAnyLink()
    ensures KeywordResolves(AnyLink)
  {
  }

  lemma KeywordFactsLink()
    ensures KeywordResolves(Link)
  {
  }

  lemma KeywordFactsVisited()
    ensures KeywordResolves(Visited)
  {
  }

  lemma KeywordFactsLocalLink()
    ensures KeywordResolves(LocalLink)
  {
  }

  lemma KeywordFactsTarget()
    ensures KeywordResolves(Target)
  {
  }

  lemma KeywordFactsTargetWithin()
    ensures KeywordResolves(TargetWithin)
  {
  }

  lemma KeywordFactsScope()
    ensures KeywordResolves(Scope)
  {
  }

  lemma KeywordFactsHover()
    ensures KeywordResolves(Hover)
  {
  }

  lemma KeywordFactsActive()
    ensures KeywordResolves(Active)
  {
  }

  lemma KeywordFactsFocus()
    ensures KeywordResolves(Focus)
  {
  }

  lemma KeywordFactsFocusVisible()
    ensures KeywordResolves(FocusVisible)
  {
  }

  lemma KeywordFactsFocusWithin()
    ensures KeywordResolves(FocusWithin)
  {
  }

  lemma KeywordFactsCurrent()
    ensures KeywordResolves(Current)
  {
  }

  lemma KeywordFactsPast()
    ensures KeywordResolves(Past)
  {
  }

  lemma KeywordFactsFuture()
    ensures KeywordResolves(Future)
  {
  }

  lemma KeywordFactsPlaying()
    ensures KeywordResolves(Playing)
  {
  }

  lemma KeywordFactsPaused()
    ensures KeywordResolves(Paused)
  {
  }

  lemma KeywordFactsSeeking()
    ensures KeywordResolves(Seeking)
  {
  }

  lemma KeywordFactsBuffering()
    ensures KeywordResolves(Buffering)
  {
  }

  lemma KeywordFactsStalled()
    ensures KeywordResolves(Stalled)
  {
  }

  lemma KeywordFactsMuted()
    ensures KeywordResolves(Muted)
  {
  }

  lemma KeywordFactsVolumeLocked()
    ensures KeywordResolves(VolumeLocked)
  {
  }

  lemma KeywordFactsEnabled()
    ensures KeywordResolves(Enabled)
  {
  }

  lemma KeywordFactsDisabled()
    ensures KeywordResolves(Disabled)
  {
  }

  lemma KeywordFactsReadOnly()
    ensures KeywordResolves(ReadOnly)
  {
  }

  lemma KeywordFactsReadWrite()
    ensures KeywordResolves(ReadWrite)
  {
  }

  lemma KeywordFactsPlaceholderShown()
    ensures KeywordResolves(PlaceholderShown)
  {
  }

  lemma KeywordFactsDefault()
    ensures KeywordResolves(Default)
  {
  }

  lemma KeywordFactsChecked()
    ensures KeywordResolves(Checked)
  {
  }

  lemma KeywordFactsIndeterminate()
    ensures KeywordResolves(Indeterminate)
  {
  }

  lemma KeywordFactsBlank()
    ensures KeywordResolves(Blank)
  {
  }

  lemma KeywordFactsValid()
    ensures KeywordResolves(Valid)
  {
  }

  lemma KeywordFactsInvalid()
    ensures KeywordResolves(Invalid)
  {
  }

  lemma KeywordFactsInRange()
    ensures KeywordResolves(InRange)
  {
  }

  lemma KeywordFactsOutOfRange()
    ensures KeywordResolves(OutOfRange)
  {
  }

  lemma KeywordFactsRequired()
    ensures KeywordResolves(Required)
  {
  }

  lemma KeywordFactsOptional()
    ensures KeywordResolves(Optional)
  {
  }

  lemma KeywordFactsUserValid()
    ensures KeywordResolves(UserValid)
  {
  }

  lemma KeywordFactsUserInvalid()
    ensures KeywordResolves(UserInvalid)
  {
  }

  lemma KeywordFactsRoot()
    ensures KeywordResolves(Root)
  {
  }

  lemma KeywordFactsEmpty()
    ensures KeywordResolves(Empty)
  {
  }

  lemma KeywordFactsNthChild()
    ensures KeywordResolves(NthChild)
  {
  }

  lemma KeywordFactsNthLastChild()
    ensures KeywordResolves(NthLastChild)
  {
  }

  lemma KeywordFactsFirstChild()
    ensures KeywordResolves(FirstChild)
  {
  }

  lemma KeywordFactsLastChild()
    ensures KeywordResolves(LastChild)
  {
  }

  lemma KeywordFactsOnlyChild()
    ensures KeywordResolves(OnlyChild)
  {
  }

  lemma KeywordFactsNthOfType()
    ensures KeywordResolves(NthOfType)
  {
  }

  lemma KeywordFactsNthLastOfType()
    ensures KeywordResolves(NthLastOfType)
  {
  }

  lemma KeywordFactsFirstOfType()
    ensures KeywordResolves(FirstOfType)
  {
  }

  lemma KeywordFactsLastOfType()
    ensures KeywordResolves(LastOfType)
  {
  }

  lemma KeywordFactsOnlyOfType()
    ensures KeywordResolves(OnlyOfType)
  {
  }

  /**
   * Every keyword is an identifier made of lower-case letters and '-', and
   * looking it up gives its pseudo-class back, except that the keyword of
   * `Focus` gives `Active`.
   */
  lemma KeywordFacts(t: PseudoClassType)
    ensures KeywordResolves(t)
  {
    match t
    case Dir => KeywordFactsDir();
    case Lang => KeywordFactsLang();
    case AnyLink => KeywordFactsAnyLink();
    case Link => KeywordFactsLink();
    case Visited => KeywordFactsVisited();
    case LocalLink => KeywordFactsLocalLink();
    case Target => KeywordFactsTarget();
    case TargetWithin => KeywordFactsTargetWithin();
    case Scope => KeywordFactsScope();
    case Hover => KeywordFactsHover();
    case Active => KeywordFactsActive();
    case Focus => KeywordFactsFocus();
    case FocusVisible => KeywordFactsFocusVisible();
    case FocusWithin => KeywordFactsFocusWithin();
    case Current => KeywordFactsCurrent();
    case Past => KeywordFactsPast();
    case Future => KeywordFactsFuture();
    case Playing => KeywordFactsPlaying();
    case Paused => KeywordFactsPaused();
    case Seeking => KeywordFactsSeeking();
    case Buffering => KeywordFactsBuffering();
    case Stalled => KeywordFactsStalled();
    case Muted => KeywordFactsMuted();
    case VolumeLocked => KeywordFactsVolumeLocked();
    case Enabled => KeywordFactsEnabled();
    case Disabled => KeywordFactsDisabled();
    case ReadOnly => KeywordFactsReadOnly();
    case ReadWrite => KeywordFactsReadWrite();
    case PlaceholderShown => KeywordFactsPlaceholderShown();
    case Default => KeywordFactsDefault();
    case Checked => KeywordFactsChecked();
    case Indeterminate => KeywordFactsIndeterminate();
    case Blank => KeywordFactsBlank();
    case Valid => KeywordFactsValid();
    case Invalid => KeywordFactsInvalid();
    case InRange => KeywordFactsInRange();
    case OutOfRange => KeywordFactsOutOfRange();
    case Required => KeywordFactsRequired();
    case Optional => KeywordFactsOptional();
    case UserValid => KeywordFactsUserValid();
    case UserInvalid => KeywordFactsUserInvalid();
    case Root => KeywordFactsRoot();
    case Empty => KeywordFactsEmpty();
    case NthChild => KeywordFactsNthChild();
    case NthLastChild => KeywordFactsNthLastChild();
    case FirstChild => KeywordFactsFirstChild();
    case LastChild => KeywordFactsLastChild();
    case OnlyChild => KeywordFactsOnlyChild();
    case NthOfType => KeywordFactsNthOfType();
    case NthLastOfType => KeywordFactsNthLastOfType();
    case FirstOfType => KeywordFactsFirstOfType();
    case LastOfType => KeywordFactsLastOfType();
    case OnlyOfType => KeywordFactsOnlyOfType();
  }
  /** The cases of the lookup's switch that return `Dir` to `AnyLink` ("focus" aside). */
  predicate SwitchCasesDirToAnyLink(name: string, t: PseudoClassType) {
    (name, t) in {("dir", Dir), ("lang", Lang), ("any-link", AnyLink)}
  }

  /** Each of these cases is labelled with the keyword of the pseudo-class it returns. */
  lemma SwitchCasesDirToAnyLinkAreKeywords(name: string, t: PseudoClassType)
    requires SwitchCasesDirToAnyLink(name, t)
    ensures t != Focus && name == Keyword(t)
  {
  }

  /** The cases of the lookup's switch that return `Link` to `LocalLink` ("focus" aside). */
  predicate SwitchCasesLinkToLocalLink(name: string, t: PseudoClassType) {
    (name, t) in {("link", Link), ("visited", Visited), ("local-link", LocalLink)}
  }

  /** Each of these cases is labelled with the keyword of the pseudo-class it returns. */
  lemma SwitchCasesLinkToLocalLinkAreKeywords(name: string, t: PseudoClassType)
    requires SwitchCasesLinkToLocalLink(name, t)
    ensures t != Focus && name == Keyword(t)
  {
  }

  /** The cases of the lookup's switch that return `Target` to `Scope` ("focus" aside). */
  predicate SwitchCasesTargetToScope(name: string, t: PseudoClassType) {
    (name, t) in {("target", Target), ("target-within", TargetWithin), ("scope", Scope)}
  }

  /** Each of these cases is labelled with the keyword of the pseudo-class it returns. */
  lemma SwitchCasesTargetToScopeAreKeywords(name: string, t: PseudoClassType)
    requires SwitchCasesTargetToScope(name, t)
    ensures t != Focus && name == Keyword(t)
  {
  }

  /** The cases of the lookup's switch that return `Hover` to `Active` ("focus" aside). */
  predicate SwitchCasesHoverToActive(name: string, t: PseudoClassType) {
    (name, t) in {("hover", Hover), ("active", Active)}
  }

  /** Each of these cases is labelled with the keyword of the pseudo-class it returns. */
  lemma SwitchCasesHoverToActiveAreKeywords(name: string, t: PseudoClassType)
    requires SwitchCasesHoverToActive(name, t)
    ensures t != Focus && name == Keyword(t)
  {
  }

  /** The cases of the lookup's switch that return `FocusVisible` to `Current` ("focus" aside). */
  predicate SwitchCasesFocusVisibleToCurrent(name: string, t: PseudoClassType) {
    (name, t) in {("focus-visible", FocusVisible), ("focus-within", FocusWithin), ("current", Current)}
  }

  /** Each of these cases is labelled with the keyword of the pseudo-class it returns. */
  lemma SwitchCasesFocusVisibleToCurrentAreKeywords(name: string, t: PseudoClassType)
    requires SwitchCasesFocusVisibleToCurrent(name, t)
    ensures t != Focus && name == Keyword(t)
  {
  }

  /** The cases of the lookup's switch that return `Past` to `Playing` ("focus" aside). */
  predicate SwitchCasesPastToPlaying(name: string, t: PseudoClassType) {
    (name, t) in {("past", Past), ("future", Future), ("playing", Playing)}
  }

  /** Each of these cases is labelled with the keyword of the pseudo-class it returns. */
  lemma SwitchCasesPastToPlayingAreKeywords(name: string, t: PseudoClassType)
    requires SwitchCasesPastToPlaying(name, t)
    ensures t != Focus && name == Keyword(t)
  {
  }

  /** The cases of the lookup's switch that return `Paused` to `Buffering` ("focus" aside). */
  predicate SwitchCasesPausedToBuffering(name: string, t: PseudoClassType) {
    (name, t) in {("paused", Paused), ("seeking", Seeking), ("buffering", Buffering)}
  }

  /** Each of these cases is labelled with the keyword of the pseudo-class it returns. */
  lemma SwitchCasesPausedToBufferingAreKeywords(name: string, t: PseudoClassType)
    requires SwitchCasesPausedToBuffering(name, t)
    ensures t != Focus && name == Keyword(t)
  {
  }

  /** The cases of the lookup's switch that return `Stalled` to `VolumeLocked` ("focus" aside). */
  predicate SwitchCasesStalledToVolumeLocked(name: string, t: PseudoClassType) {
    (name, t) in {("stalled", Stalled), ("muted", Muted), ("volume-locked", VolumeLocked)}
  }

  /** Each of these cases is labelled with the keyword of the pseudo-class it returns. */
  lemma SwitchCasesStalledToVolumeLockedAreKeywords(name: string, t: PseudoClassType)
    requires SwitchCasesStalledToVolumeLocked(name, t)
    ensures t != Focus && name == Keyword(t)
  {
  }

  /** The cases of the lookup's switch that return `Enabled` to `ReadOnly` ("focus" aside). */
  predicate SwitchCasesEnabledToReadOnly(name: string, t: PseudoClassType) {
    (name, t) in {("enabled", Enabled), ("disabled", Disabled), ("read-only", ReadOnly)}
  }

  /** Each of these cases is labelled with the keyword of the pseudo-class it returns. */
  lemma SwitchCasesEnabledToReadOnlyAreKeywords(name: string, t: PseudoClassType)
    requires SwitchCasesEnabledToReadOnly(name, t)
    ensures t != Focus && name == Keyword(t)
  {
  }

  /** The cases of the lookup's switch that return `ReadWrite` to `Default` ("focus" aside). */
  predicate SwitchCasesReadWriteToDefault(name: string, t: PseudoClassType) {
    (name, t) in {("read-write", ReadWrite), ("placeholder-shown", PlaceholderShown), ("default", Default)}
  }

  /** Each of these cases is labelled with the keyword of the pseudo-class it returns. */
  lemma SwitchCasesReadWriteToDefaultAreKeywords(name: string, t: PseudoClassType)
    requires SwitchCasesReadWriteToDefault(name, t)
    ensures t != Focus && name == Keyword(t)
  {
  }

  /** The cases of the lookup's switch that return `Checked` to `Blank` ("focus" aside). */
  predicate SwitchCasesCheckedToBlank(name: string, t: PseudoClassType) {
    (name, t) in {("checked", Checked), ("indeterminate", Indeterminate), ("blank", Blank)}
  }

  /** Each of these cases is labelled with the keyword of the pseudo-class it returns. */
  lemma SwitchCasesCheckedToBlankAreKeywords(name: string, t: PseudoClassType)
    requires SwitchCasesCheckedToBlank(name, t)
    ensures t != Focus && name == Keyword(t)
  {
  }

  /** The cases of the lookup's switch that return `Valid` to `InRange` ("focus" aside). */
  predicate SwitchCasesValidToInRange(name: string, t: PseudoClassType) {
    (name, t) in {("valid", Valid), ("invalid", Invalid), ("in-range", InRange)}
  }

  /** Each of these cases is labelled with the keyword of the pseudo-class it returns. */
  lemma SwitchCasesValidToInRangeAreKeywords(name: string, t: PseudoClassType)
    requires SwitchCasesValidToInRange(name, t)
    ensures t != Focus && name == Keyword(t)
  {
  }

  /** The cases of the lookup's switch that return `OutOfRange` to `Optional` ("focus" aside). */
  predicate SwitchCasesOutOfRangeToOptional(name: string, t: PseudoClassType) {
    (name, t) in {("out-of-range", OutOfRange), ("required", Required), ("optional", Optional)}
  }

  /** Each of these cases is labelled with the keyword of the pseudo-class it returns. */
  lemma SwitchCasesOutOfRangeToOptionalAreKeywords(name: string, t: PseudoClassType)
    requires SwitchCasesOutOfRangeToOptional(name, t)
    ensures t != Focus && name == Keyword(t)
  {
  }

  /** The cases of the lookup's switch that return `UserValid` to `Root` ("focus" aside). */
  predicate SwitchCasesUserValidToRoot(name: string, t: PseudoClassType) {
    (name, t) in {("user-valid", UserValid), ("user-invalid", UserInvalid), ("root", Root)}
  }

  /** Each of these cases is labelled with the keyword of the pseudo-class it returns. */
  lemma SwitchCasesUserValidToRootAreKeywords(name: string, t: PseudoClassType)
    requires SwitchCasesUserValidToRoot(name, t)
    ensures t != Focus && name == Keyword(t)
  {
  }

  /** The cases of the lookup's switch that return `Empty` to `NthLastChild` ("focus" aside). */
  predicate SwitchCasesEmptyToNthLastChild(name: string, t: PseudoClassType) {
    (name, t) in {("empty", Empty), ("nth-child", NthChild), ("nth-last-child", NthLastChild)}
  }

  /** Each of these cases is labelled with the keyword of the pseudo-class it returns. */
  lemma SwitchCasesEmptyToNthLastChildAreKeywords(name: string, t: PseudoClassType)
    requires SwitchCasesEmptyToNthLastChild(name, t)
    ensures t != Focus && name == Keyword(t)
  {
  }

  /** The cases of the lookup's switch that return `FirstChild` to `OnlyChild` ("focus" aside). */
  predicate SwitchCasesFirstChildToOnlyChild(name: string, t: PseudoClassType) {
    (name, t) in {("first-child", FirstChild), ("last-child", LastChild), ("only-child", OnlyChild)}
  }

  /** Each of these cases is labelled with the keyword of the pseudo-class it returns. */
  lemma SwitchCasesFirstChildToOnlyChildAreKeywords(name: string, t: PseudoClassType)
    requires SwitchCasesFirstChildToOnlyChild(name, t)
    ensures t != Focus && name == Keyword(t)
  {
  }

  /** The cases of the lookup's switch that return `NthOfType` to `FirstOfType` ("focus" aside). */
  predicate SwitchCasesNthOfTypeToFirstOfType(name: string, t: PseudoClassType) {
    (name, t) in {("nth-of-type", NthOfType), ("nth-last-of-type", NthLastOfType), ("first-of-type", FirstOfType)}
  }

  /** Each of these cases is labelled with the keyword of the pseudo-class it returns. */
  lemma SwitchCasesNthOfTypeToFirstOfTypeAreKeywords(name: string, t: PseudoClassType)
    requires SwitchCasesNthOfTypeToFirstOfType(name, t)
    ensures t != Focus && name == Keyword(t)
  {
  }

  /** The cases of the lookup's switch that return `LastOfType` to `OnlyOfType` ("focus" aside). */
  predicate SwitchCasesLastOfTypeToOnlyOfType(name: string, t: PseudoClassType) {
    (name, t) in {("last-of-type", LastOfType), ("only-of-type", OnlyOfType)}
  }

  /** Each of these cases is labelled with the keyword of the pseudo-class it returns. */
  lemma SwitchCasesLastOfTypeToOnlyOfTypeAreKeywords(name: string, t: PseudoClassType)
    requires SwitchCasesLastOfTypeToOnlyOfType(name, t)
    ensures t != Focus && name == Keyword(t)
  {
  }

  /** A case label of the lookup's switch, with the value it returns. */
  predicate IsSwitchCase(name: string, t: PseudoClassType) {
    || (name, t) == (Keyword(Focus), Active)
    || SwitchCasesDirToAnyLink(name, t)
    || SwitchCasesLinkToLocalLink(name, t)
    || SwitchCasesTargetToScope(name, t)
    || SwitchCasesHoverToActive(name, t)
    || SwitchCasesFocusVisibleToCurrent(name, t)
    || SwitchCasesPastToPlaying(name, t)
    || SwitchCasesPausedToBuffering(name, t)
    || SwitchCasesStalledToVolumeLocked(name, t)
    || SwitchCasesEnabledToReadOnly(name, t)
    || SwitchCasesReadWriteToDefault(name, t)
    || SwitchCasesCheckedToBlank(name, t)
    || SwitchCasesValidToInRange(name, t)
    || SwitchCasesOutOfRangeToOptional(name, t)
    || SwitchCasesUserValidToRoot(name, t)
    || SwitchCasesEmptyToNthLastChild(name, t)
    || SwitchCasesFirstChildToOnlyChild(name, t)
    || SwitchCasesNthOfTypeToFirstOfType(name, t)
    || SwitchCasesLastOfTypeToOnlyOfType(name, t)
  }

  /** Whatever the lookup answers is one of the switch's cases. */
  lemma LookupIsSwitchCase(name: string, t: PseudoClassType)
    requires ParsePseudoClassType(name) == Some(t)
    ensures IsSwitchCase(name, t)
  {
  }

  /** Every case of the switch pairs a keyword with its own pseudo-class, except "focus", which is paired with `Active`. */
  lemma SwitchCaseIsKeyword(name: string, t: PseudoClassType)
    requires IsSwitchCase(name, t)
    ensures (t != Focus && name == Keyword(t)) || (t == Active && name == Keyword(Focus))
  {
    if (name, t) == (Keyword(Focus), Active) {
    } else if SwitchCasesDirToAnyLink(name, t) {
      SwitchCasesDirToAnyLinkAreKeywords(name, t);
    } else if SwitchCasesLinkToLocalLink(name, t) {
      SwitchCasesLinkToLocalLinkAreKeywords(name, t);
    } else if SwitchCasesTargetToScope(name, t) {
      SwitchCasesTargetToScopeAreKeywords(name, t);
    } else if SwitchCasesHoverToActive(name, t) {
      SwitchCasesHoverToActiveAreKeywords(name, t);
    } else if SwitchCasesFocusVisibleToCurrent(name, t) {
      SwitchCasesFocusVisibleToCurrentAreKeywords(name, t);
    } else if SwitchCasesPastToPlaying(name, t) {
      SwitchCasesPastToPlayingAreKeywords(name, t);
    } else if SwitchCasesPausedToBuffering(name, t) {
      SwitchCasesPausedToBufferingAreKeywords(name, t);
    } else if SwitchCasesStalledToVolumeLocked(name, t) {
      SwitchCasesStalledToVolumeLockedAreKeywords(name, t);
    } else if SwitchCasesEnabledToReadOnly(name, t) {
      SwitchCasesEnabledToReadOnlyAreKeywords(name, t);
    } else if SwitchCasesReadWriteToDefault(name, t) {
      SwitchCasesReadWriteToDefaultAreKeywords(name, t);
    } else if SwitchCasesCheckedToBlank(name, t) {
      SwitchCasesCheckedToBlankAreKeywords(name, t);
    } else if SwitchCasesValidToInRange(name, t) {
      SwitchCasesValidToInRangeAreKeywords(name, t);
    } else if SwitchCasesOutOfRangeToOptional(name, t) {
      SwitchCasesOutOfRangeToOptionalAreKeywords(name, t);
    } else if SwitchCasesUserValidToRoot(name, t) {
      SwitchCasesUserValidToRootAreKeywords(name, t);
    } else if SwitchCasesEmptyToNthLastChild(name, t) {
      SwitchCasesEmptyToNthLastChildAreKeywords(name, t);
    } else if SwitchCasesFirstChildToOnlyChild(name, t) {
      SwitchCasesFirstChildToOnlyChildAreKeywords(name, t);
    } else if SwitchCasesNthOfTypeToFirstOfType(name, t) {
      SwitchCasesNthOfTypeToFirstOfTypeAreKeywords(name, t);
    } else if SwitchCasesLastOfTypeToOnlyOfType(name, t) {
      SwitchCasesLastOfTypeToOnlyOfTypeAreKeywords(name, t);
    }
  }

  /**
   * The lookup agrees with the reference table in both directions: a name is
   * answered with `t` exactly when it is `t`'s keyword, except that the
   * keyword of `Focus` is answered with `Active`.
   */
  lemma LookupMatchesTable(name: string, t: PseudoClassType)
    ensures ParsePseudoClassType(name) == Some(t) <==>
              (t != Focus && name == Keyword(t)) || (t == Active && name == Keyword(Focus))
  {
    KeywordFacts(t);
    KeywordFacts(Focus);
    if ParsePseudoClassType(name) == Some(t) {
      LookupIsSwitchCase(name, t);
      SwitchCaseIsKeyword(name, t);
    }
  }

  /** Only the listed names are known: the match is exact and case-sensitive. */
  lemma LookupKnowsOnlyKeywords(name: string)
    ensures ParsePseudoClassType(name).Some? <==> exists t :: name == Keyword(t)
  {
    if ParsePseudoClassType(name).Some? {
      var t := ParsePseudoClassType(name).value;
      LookupMatchesTable(name, t);
    }
    if t :| name == Keyword(t) {
      KeywordFacts(t);
    }
  }

  /** Names that are not keywords: other letter case, a pseudo-element name, the empty string. */
  lemma UnknownNames()
    ensures ParsePseudoClassType("Hover") == None
    ensures ParsePseudoClassType("HOVER") == None
    ensures ParsePseudoClassType("before") == None
    ensures ParsePseudoClassType("") == None
  {
  }

  /** "dir" is the one name that yields `Dir`. */
  lemma DirKeyword(name: string)
    ensures ParsePseudoClassType(name) == Some(Dir) <==> name == "dir"
  {
    LookupMatchesTable(name, Dir);
  }

  /** "focus" is resolved to `Active`, like "active"; `Focus` itself is never returned. */
  lemma FocusResolvesToActive(name: string)
    ensures ParsePseudoClassType("focus") == Some(Active)
    ensures ParsePseudoClassType("active") == Some(Active)
    ensures ParsePseudoClassType(name) != Some(Focus)
  {
    LookupMatchesTable(name, Focus);
    KeywordFacts(Focus);
    KeywordFacts(Active);
  }

  /** Apart from the focus/active pair, distinct names resolve to distinct pseudo-classes. */
  lemma LookupNearlyInjective(name1: string, name2: string)
    requires ParsePseudoClassType(name1).Some?
    requires ParsePseudoClassType(name1) == ParsePseudoClassType(name2)
    requires name1 != name2
    ensures {name1, name2} == {"focus", "active"}
  {
    var t := ParsePseudoClassType(name1).value;
    LookupMatchesTable(name1, t);
    LookupMatchesTable(name2, t);
  }

  /** The four nth pseudo-classes are named by their four keywords. */
  lemma NthKeywords()
    ensures ParsePseudoClassType("nth-child") == Some(NthChild)
    ensures ParsePseudoClassType("nth-last-child") == Some(NthLastChild)
    ensures ParsePseudoClassType("nth-of-type") == Some(NthOfType)
    ensures ParsePseudoClassType("nth-last-of-type") == Some(NthLastOfType)
  {
    hide ParsePseudoClassType, KeywordShaped;
    KeywordFactsNthChild();
    KeywordFactsNthLastChild();
    KeywordFactsNthOfType();
    KeywordFactsNthLastOfType();
  }

  /** Exactly the four nth keywords name an nth pseudo-class. */
  lemma NthNames(name: string)
    ensures var r := ParsePseudoClassType(name);
            r.Some? && IsNth(r.value) <==> name in {"nth-child", "nth-last-child", "nth-of-type", "nth-last-of-type"}
  {
    hide ParsePseudoClassType;
    NthKeywords();
    var r := ParsePseudoClassType(name);
    if r.Some? && IsNth(r.value) {
      LookupMatchesTable(name, r.value);
    }
  }
}

/** The error taxonomy of `time::error`: leaf kinds, the `Parse` kind that
    gathers the parsing leaves, and the universal `Error`. Wrapping (`From`) is
    total, narrowing (`TryFrom`) is partial and fails with `DifferentVariant`,
    and every wrapper displays exactly the text of what it wraps. */
module Errors {
  import opened Wrappers
  import opened Primitives

  // ---- Leaf kinds ----

  /** A value overflowed its target type in a lossy conversion. */
  datatype ConversionRange = ConversionRange

  /** A calendar primitive rejected a value: the field's name, its legal
      bounds and the value given. */
  datatype ComponentRange = ComponentRange(
    name: string, minimum: int, maximum: int, value: int, conditionalRange: bool)

  /** The UTC offset could not be determined. */
  datatype IndeterminateOffset = IndeterminateOffset

  /** A narrowing found a different variant from the one requested. */
  datatype DifferentVariant = DifferentVariant

  /** A platform I/O failure, opaque except for the text it displays. */
  datatype IoError = IoError(message: string)

  /** The four ways a format description can be malformed, each with the byte
      index it was found at. */
  datatype InvalidFormatDescription =
    | UnclosedOpeningBracket(index: nat)
    | InvalidComponentName(name: string, index: nat)
    | InvalidModifier(value: string, index: nat)
    | MissingComponentName(index: nat)

  datatype Format =
    | InsufficientTypeInformation
    | InvalidComponent(component: string)
    | StdIo(io: IoError)

  datatype ParseFromDescription =
    | InvalidLiteral
    | InvalidComponent(name: string)

  datatype TryFromParsed =
    | InsufficientInformation
    | ComponentRange(range: ComponentRange)

  // ---- Containing kinds ----

  datatype Parse =
    | TryFromParsed(tryFromParsed: TryFromParsed)
    | ParseFromDescription(parseFromDescription: ParseFromDescription)
    | UnexpectedTrailingCharacters

  datatype Error =
    | ConversionRange(conversionRange: ConversionRange)
    | ComponentRange(componentRange: ComponentRange)
    | IndeterminateOffset(indeterminateOffset: IndeterminateOffset)
    | Format(format: Format)
    | ParseFromDescription(parseFromDescription: ParseFromDescription)
    | UnexpectedTrailingCharacters
    | TryFromParsed(tryFromParsed: TryFromParsed)
    | InvalidFormatDescription(invalidFormatDescription: InvalidFormatDescription)
    | DifferentVariant(differentVariant: DifferentVariant)

  /** What `source()` hands back: the wrapped error, tagged with its type so
      that `is::<T>()` is a tag test. */
  datatype Cause =
    | ConversionRangeCause(conversionRange: ConversionRange)
    | ComponentRangeCause(componentRange: ComponentRange)
    | IndeterminateOffsetCause(indeterminateOffset: IndeterminateOffset)
    | FormatCause(format: Format)
    | ParseFromDescriptionCause(parseFromDescription: ParseFromDescription)
    | TryFromParsedCause(tryFromParsed: TryFromParsed)
    | InvalidFormatDescriptionCause(invalidFormatDescription: InvalidFormatDescription)
    | DifferentVariantCause(differentVariant: DifferentVariant)
    | IoCause(io: IoError)

  // ---- Display ----

  const ConversionRangeText := "Source value is out of range for the target type"
  const IndeterminateOffsetText := "The system's UTC offset could not be determined"
  const DifferentVariantText := "value was of a different variant than required"
  const UnexpectedTrailingCharactersText := "unexpected trailing characters; the end of input was expected"

  const ConditionalRangeText := ", given values of other parameters"

  /** The text names the field first, and ends with the remark on other
      parameters exactly when the range is conditional. */
  function ComponentRangeDisplay(e: ComponentRange): (r: string)
    ensures e.name + " must be in the range " <= r
    ensures e.conditionalRange <==> IsSuffix(ConditionalRangeText, r)
  {
    var bounds := e.name + " must be in the range " + IntToString(e.minimum) + "..=" + IntToString(e.maximum);
    var last := NatToString(if e.maximum < 0 then -e.maximum else e.maximum);
    assert bounds[|bounds| - 1] == last[|last| - 1];
    assert IsDigit(bounds[|bounds| - 1]);
    assert !IsDigit(ConditionalRangeText[|ConditionalRangeText| - 1]);
    bounds + (if e.conditionalRange then ConditionalRangeText else "")
  }

  /** The text ends with the byte index, and quotes the name or modifier
      that was rejected. */
  function InvalidFormatDescriptionDisplay(e: InvalidFormatDescription): (r: string)
    ensures IsSuffix(" at byte index " + NatToString(e.index), r)
    ensures e.InvalidComponentName? ==> "invalid component name `" + e.name + "`" <= r
    ensures e.InvalidModifier? ==> "invalid modifier `" + e.value + "`" <= r
  {
    var what :=
      match e
      case UnclosedOpeningBracket(_) => "unclosed opening bracket"
      case InvalidComponentName(name, _) => "invalid component name `" + name + "`"
      case InvalidModifier(value, _) => "invalid modifier `" + value + "`"
      case MissingComponentName(_) => "missing component name";
    var at := " at byte index " + NatToString(e.index);
    assert (what + at)[|what + at| - |at|..] == at;
    what + at
  }

  /** An I/O failure displays as the failure itself; an unformattable
      component is named. */
  function FormatDisplay(e: Format): (r: string)
    ensures e.StdIo? ==> r == e.io.message
    ensures e.InvalidComponent? ==> "The " + e.component + " component" <= r
  {
    match e
    case InsufficientTypeInformation =>
      "The type being formatted does not contain sufficient information to format a component."
    case InvalidComponent(component) =>
      var head := "The " + component + " component";
      head + " cannot be formatted into the requested format."
    case StdIo(io) => io.message
  }

  /** A component that could not be parsed is named in quotes. */
  function ParseFromDescriptionDisplay(e: ParseFromDescription): (r: string)
    ensures e.InvalidComponent? ==> "the '" + e.name + "'" <= r
  {
    match e
    case InvalidLiteral => "a character literal was not valid"
    case InvalidComponent(name) => "the '" + name + "' component could not be parsed"
  }

  /** A range error displays as the range error it holds. */
  function TryFromParsedDisplay(e: TryFromParsed): (r: string)
    ensures e.ComponentRange? ==> r == ComponentRangeDisplay(e.range) && e.range.name + " must be in the range " <= r
  {
    match e
    case InsufficientInformation =>
      "the `Parsed` struct did not include enough information to construct the type"
    case ComponentRange(range) => ComponentRangeDisplay(range)
  }

  /** A parse error displays as the leaf it holds, through one more level
      for a range error. */
  function ParseDisplay(e: Parse): string
  {
    match e
    case TryFromParsed(t) => TryFromParsedDisplay(t)
    case ParseFromDescription(p) => ParseFromDescriptionDisplay(p)
    case UnexpectedTrailingCharacters => UnexpectedTrailingCharactersText
  }

  /** A parse error shows the message of the error it wraps; trailing input
      has a fixed message of its own. */
  lemma ParseDisplayCases(e: Parse)
    ensures e.TryFromParsed? && e.tryFromParsed.ComponentRange? ==> ParseDisplay(e) == ComponentRangeDisplay(e.tryFromParsed.range)
    ensures e.ParseFromDescription? ==> ParseDisplay(e) == ParseFromDescriptionDisplay(e.parseFromDescription)
    ensures e.UnexpectedTrailingCharacters? ==> ParseDisplay(e) == UnexpectedTrailingCharactersText
  {
  }

  function ErrorDisplay(e: Error): string
  {
    match e
    case ConversionRange(_) => ConversionRangeText
    case ComponentRange(c) => ComponentRangeDisplay(c)
    case IndeterminateOffset(_) => IndeterminateOffsetText
    case Format(f) => FormatDisplay(f)
    case ParseFromDescription(p) => ParseFromDescriptionDisplay(p)
    case UnexpectedTrailingCharacters => UnexpectedTrailingCharactersText
    case TryFromParsed(t) => TryFromParsedDisplay(t)
    case InvalidFormatDescription(i) => InvalidFormatDescriptionDisplay(i)
    case DifferentVariant(_) => DifferentVariantText
  }

  /** The universal error displays the parsing leaves exactly as `Parse`
      wrapping them would. */
  lemma ErrorDisplayAgrees(e: Error)
    ensures e.UnexpectedTrailingCharacters? ==> ErrorDisplay(e) == ParseDisplay(Parse.UnexpectedTrailingCharacters)
    ensures e.TryFromParsed? ==> ErrorDisplay(e) == ParseDisplay(Parse.TryFromParsed(e.tryFromParsed))
    ensures e.ParseFromDescription? ==> ErrorDisplay(e) == ParseDisplay(Parse.ParseFromDescription(e.parseFromDescription))
  {
  }

  function CauseDisplay(c: Cause): string
  {
    match c
    case ConversionRangeCause(_) => ConversionRangeText
    case ComponentRangeCause(e) => ComponentRangeDisplay(e)
    case IndeterminateOffsetCause(_) => IndeterminateOffsetText
    case FormatCause(e) => FormatDisplay(e)
    case ParseFromDescriptionCause(e) => ParseFromDescriptionDisplay(e)
    case TryFromParsedCause(e) => TryFromParsedDisplay(e)
    case InvalidFormatDescriptionCause(e) => InvalidFormatDescriptionDisplay(e)
    case DifferentVariantCause(_) => DifferentVariantText
    case IoCause(e) => e.message
  }

  // ---- source() ----

  /** `Error::source`: every variant exposes the error it holds, except the
      payload-free trailing-characters variant; the cause displays the same text. */
  function ErrorSource(e: Error): (r: Option<Cause>)
    ensures r.None? <==> e.UnexpectedTrailingCharacters?
    ensures r.Some? ==> CauseDisplay(r.value) == ErrorDisplay(e)
  {
    match e
    case ConversionRange(x) => Some(ConversionRangeCause(x))
    case ComponentRange(x) => Some(ComponentRangeCause(x))
    case IndeterminateOffset(x) => Some(IndeterminateOffsetCause(x))
    case Format(x) => Some(FormatCause(x))
    case ParseFromDescription(x) => Some(ParseFromDescriptionCause(x))
    case UnexpectedTrailingCharacters => None
    case TryFromParsed(x) => Some(TryFromParsedCause(x))
    case InvalidFormatDescription(x) => Some(InvalidFormatDescriptionCause(x))
    case DifferentVariant(x) => Some(DifferentVariantCause(x))
  }

  /** `Parse::source`: the wrapped leaf, or nothing for trailing characters. */
  function ParseSource(e: Parse): (r: Option<Cause>)
    ensures r.None? <==> e.UnexpectedTrailingCharacters?
    ensures r.Some? ==> CauseDisplay(r.value) == ParseDisplay(e)
  {
    match e
    case TryFromParsed(x) => Some(TryFromParsedCause(x))
    case ParseFromDescription(x) => Some(ParseFromDescriptionCause(x))
    case UnexpectedTrailingCharacters => None
  }

  /** `TryFromParsed::source`: the range error it carries, if any. */
  function TryFromParsedSource(e: TryFromParsed): (r: Option<Cause>)
    ensures r.None? <==> e.InsufficientInformation?
    ensures r.Some? ==> CauseDisplay(r.value) == TryFromParsedDisplay(e)
  {
    match e
    case InsufficientInformation => None
    case ComponentRange(x) => Some(ComponentRangeCause(x))
  }

  /** `Format::source`: only the I/O variant has a cause, the I/O failure itself. */
  function FormatSource(e: Format): (r: Option<Cause>)
    ensures r.Some? <==> e.StdIo?
    ensures r.Some? ==> CauseDisplay(r.value) == FormatDisplay(e)
  {
    match e
    case StdIo(io) => Some(IoCause(io))
    case _ => None
  }

  // ---- Wrapping (From) ----

  function ErrorFromConversionRange(x: ConversionRange): (e: Error)
    ensures ErrorDisplay(e) == ConversionRangeText
    ensures ErrorSource(e) == Some(ConversionRangeCause(x))
  {
    Error.ConversionRange(x)
  }

  function ErrorFromComponentRange(x: ComponentRange): (e: Error)
    ensures ErrorDisplay(e) == ComponentRangeDisplay(x)
    ensures ErrorSource(e) == Some(ComponentRangeCause(x))
  {
    Error.ComponentRange(x)
  }

  function ErrorFromIndeterminateOffset(x: IndeterminateOffset): (e: Error)
    ensures ErrorDisplay(e) == IndeterminateOffsetText
    ensures ErrorSource(e) == Some(IndeterminateOffsetCause(x))
  {
    Error.IndeterminateOffset(x)
  }

  function ErrorFromFormat(x: Format): (e: Error)
    ensures ErrorDisplay(e) == FormatDisplay(x)
    ensures ErrorSource(e) == Some(FormatCause(x))
  {
    Error.Format(x)
  }

  function ErrorFromParseFromDescription(x: ParseFromDescription): (e: Error)
    ensures ErrorDisplay(e) == ParseFromDescriptionDisplay(x)
    ensures ErrorSource(e) == Some(ParseFromDescriptionCause(x))
  {
    Error.ParseFromDescription(x)
  }

  function ErrorFromTryFromParsed(x: TryFromParsed): (e: Error)
    ensures ErrorDisplay(e) == TryFromParsedDisplay(x)
    ensures ErrorSource(e) == Some(TryFromParsedCause(x))
  {
    Error.TryFromParsed(x)
  }

  function ErrorFromInvalidFormatDescription(x: InvalidFormatDescription): (e: Error)
    ensures ErrorDisplay(e) == InvalidFormatDescriptionDisplay(x)
    ensures ErrorSource(e) == Some(InvalidFormatDescriptionCause(x))
  {
    Error.InvalidFormatDescription(x)
  }

  function ErrorFromDifferentVariant(x: DifferentVariant): (e: Error)
    ensures ErrorDisplay(e) == DifferentVariantText
    ensures ErrorSource(e) == Some(DifferentVariantCause(x))
  {
    Error.DifferentVariant(x)
  }

  /** `Error::from(Parse)` flattens the parse error into the universal kind:
      the text and the cause stay those of the parse error. */
  function ErrorFromParse(x: Parse): (e: Error)
    ensures ErrorDisplay(e) == ParseDisplay(x)
    ensures ErrorSource(e) == ParseSource(x)
  {
    match x
    case TryFromParsed(t) => Error.TryFromParsed(t)
    case ParseFromDescription(p) => Error.ParseFromDescription(p)
    case UnexpectedTrailingCharacters => Error.UnexpectedTrailingCharacters
  }

  function ParseFromTryFromParsed(x: TryFromParsed): (e: Parse)
    ensures ParseDisplay(e) == TryFromParsedDisplay(x)
    ensures ParseSource(e) == Some(TryFromParsedCause(x))
  {
    Parse.TryFromParsed(x)
  }

  function ParseFromParseFromDescription(x: ParseFromDescription): (e: Parse)
    ensures ParseDisplay(e) == ParseFromDescriptionDisplay(x)
    ensures ParseSource(e) == Some(ParseFromDescriptionCause(x))
  {
    Parse.ParseFromDescription(x)
  }

  function TryFromParsedFromComponentRange(x: ComponentRange): (e: TryFromParsed)
    ensures TryFromParsedDisplay(e) == ComponentRangeDisplay(x)
    ensures TryFromParsedSource(e) == Some(ComponentRangeCause(x))
  {
    TryFromParsed.ComponentRange(x)
  }

  /** `Format::from(io::Error)`: the I/O failure becomes the format error's cause. */
  function FormatFromIo(x: IoError): (e: Format)
    ensures FormatDisplay(e) == x.message
    ensures FormatSource(e) == Some(IoCause(x))
  {
    Format.StdIo(x)
  }

  // ---- Narrowing (TryFrom) ----
  // Each narrowing succeeds exactly on the variant that wrapping produces, and
  // what it returns wraps back to the value it was given.

  function ConversionRangeTryFromError(e: Error): (r: Result<ConversionRange, DifferentVariant>)
    ensures r.Ok? <==> e.ConversionRange?
    ensures r.Ok? ==> ErrorFromConversionRange(r.value) == e
  {
    match e
    case ConversionRange(x) => Ok(x)
    case _ => Err(DifferentVariant.DifferentVariant)
  }

  function ComponentRangeTryFromError(e: Error): (r: Result<ComponentRange, DifferentVariant>)
    ensures r.Ok? <==> e.ComponentRange?
    ensures r.Ok? ==> ErrorFromComponentRange(r.value) == e
  {
    match e
    case ComponentRange(x) => Ok(x)
    case _ => Err(DifferentVariant.DifferentVariant)
  }

  function IndeterminateOffsetTryFromError(e: Error): (r: Result<IndeterminateOffset, DifferentVariant>)
    ensures r.Ok? <==> e.IndeterminateOffset?
    ensures r.Ok? ==> ErrorFromIndeterminateOffset(r.value) == e
  {
    match e
    case IndeterminateOffset(x) => Ok(x)
    case _ => Err(DifferentVariant.DifferentVariant)
  }

  function FormatTryFromError(e: Error): (r: Result<Format, DifferentVariant>)
    ensures r.Ok? <==> e.Format?
    ensures r.Ok? ==> ErrorFromFormat(r.value) == e
  {
    match e
    case Format(x) => Ok(x)
    case _ => Err(DifferentVariant.DifferentVariant)
  }

  function ParseFromDescriptionTryFromError(e: Error): (r: Result<ParseFromDescription, DifferentVariant>)
    ensures r.Ok? <==> e.ParseFromDescription?
    ensures r.Ok? ==> ErrorFromParseFromDescription(r.value) == e
  {
    match e
    case ParseFromDescription(x) => Ok(x)
    case _ => Err(DifferentVariant.DifferentVariant)
  }

  function TryFromParsedTryFromError(e: Error): (r: Result<TryFromParsed, DifferentVariant>)
    ensures r.Ok? <==> e.TryFromParsed?
    ensures r.Ok? ==> ErrorFromTryFromParsed(r.value) == e
  {
    match e
    case TryFromParsed(x) => Ok(x)
    case _ => Err(DifferentVariant.DifferentVariant)
  }

  function InvalidFormatDescriptionTryFromError(e: Error): (r: Result<InvalidFormatDescription, DifferentVariant>)
    ensures r.Ok? <==> e.InvalidFormatDescription?
    ensures r.Ok? ==> ErrorFromInvalidFormatDescription(r.value) == e
  {
    match e
    case InvalidFormatDescription(x) => Ok(x)
    case _ => Err(DifferentVariant.DifferentVariant)
  }

  function DifferentVariantTryFromError(e: Error): (r: Result<DifferentVariant, DifferentVariant>)
    ensures r.Ok? <==> e.DifferentVariant?
    ensures r.Ok? ==> ErrorFromDifferentVariant(r.value) == e
  {
    match e
    case DifferentVariant(x) => Ok(x)
    case _ => Err(DifferentVariant.DifferentVariant)
  }

  /** `Parse::try_from(Error)`: succeeds on the three variants a parse error
      flattens into. */
  function ParseTryFromError(e: Error): (r: Result<Parse, DifferentVariant>)
    ensures r.Ok? <==> (e.TryFromParsed? || e.ParseFromDescription? || e.UnexpectedTrailingCharacters?)
    ensures r.Ok? ==> ErrorFromParse(r.value) == e
  {
    match e
    case TryFromParsed(x) => Ok(Parse.TryFromParsed(x))
    case ParseFromDescription(x) => Ok(Parse.ParseFromDescription(x))
    case UnexpectedTrailingCharacters => Ok(Parse.UnexpectedTrailingCharacters)
    case _ => Err(DifferentVariant.DifferentVariant)
  }

  function TryFromParsedTryFromParse(e: Parse): (r: Result<TryFromParsed, DifferentVariant>)
    ensures r.Ok? <==> e.TryFromParsed?
    ensures r.Ok? ==> ParseFromTryFromParsed(r.value) == e
  {
    match e
    case TryFromParsed(x) => Ok(x)
    case _ => Err(DifferentVariant.DifferentVariant)
  }

  function ParseFromDescriptionTryFromParse(e: Parse): (r: Result<ParseFromDescription, DifferentVariant>)
    ensures r.Ok? <==> e.ParseFromDescription?
    ensures r.Ok? ==> ParseFromParseFromDescription(r.value) == e
  {
    match e
    case ParseFromDescription(x) => Ok(x)
    case _ => Err(DifferentVariant.DifferentVariant)
  }

  function ComponentRangeTryFromTryFromParsed(e: TryFromParsed): (r: Result<ComponentRange, DifferentVariant>)
    ensures r.Ok? <==> e.ComponentRange?
    ensures r.Ok? ==> TryFromParsedFromComponentRange(r.value) == e
  {
    match e
    case ComponentRange(x) => Ok(x)
    case _ => Err(DifferentVariant.DifferentVariant)
  }

  /** `io::Error::try_from(Format)`: only the I/O-carrying variant gives its failure back. */
  function IoErrorTryFromFormat(e: Format): (r: Result<IoError, DifferentVariant>)
    ensures r.Ok? <==> e.StdIo?
    ensures r.Ok? ==> FormatFromIo(r.value) == e
  {
    match e
    case StdIo(x) => Ok(x)
    case _ => Err(DifferentVariant.DifferentVariant)
  }

  // ---- Properties of the lattice ----

  /** Narrowing an `Error` back to the leaf it was built from succeeds and
      returns that leaf. */
  lemma ErrorNarrowingUndoesWrapping(
    conv: ConversionRange, range: ComponentRange, offset: IndeterminateOffset, format: Format,
    ifd: InvalidFormatDescription, dv: DifferentVariant)
    ensures ConversionRangeTryFromError(ErrorFromConversionRange(conv)) == Ok(conv)
    ensures ComponentRangeTryFromError(ErrorFromComponentRange(range)) == Ok(range)
    ensures IndeterminateOffsetTryFromError(ErrorFromIndeterminateOffset(offset)) == Ok(offset)
    ensures FormatTryFromError(ErrorFromFormat(format)) == Ok(format)
    ensures InvalidFormatDescriptionTryFromError(ErrorFromInvalidFormatDescription(ifd)) == Ok(ifd)
    ensures DifferentVariantTryFromError(ErrorFromDifferentVariant(dv)) == Ok(dv)
  {
  }

  /** Narrowing an `Error` to the intermediate `Parse` kind undoes wrapping
      a `Parse` error. */
  lemma NarrowingToParseUndoesWrapping(parse: Parse)
    ensures ParseTryFromError(ErrorFromParse(parse)) == Ok(parse)
  {
  }

  /** Narrowing an `Error` to `Parse` turns a leaf that `Parse` wraps into
      that `Parse` error, as if the leaf had gone through `Parse` first. */
  lemma NarrowingToParseRewraps(pfd: ParseFromDescription, tfp: TryFromParsed)
    ensures ParseTryFromError(ErrorFromTryFromParsed(tfp)) == Ok(ParseFromTryFromParsed(tfp))
    ensures ParseTryFromError(ErrorFromParseFromDescription(pfd)) == Ok(ParseFromParseFromDescription(pfd))
  {
  }

  /** Narrowing from `Parse`, `TryFromParsed` or `Format` to what they wrap
      undoes wrapping. */
  lemma IntermediateNarrowingUndoesWrapping(
    range: ComponentRange, pfd: ParseFromDescription, tfp: TryFromParsed, io: IoError)
    ensures TryFromParsedTryFromParse(ParseFromTryFromParsed(tfp)) == Ok(tfp)
    ensures ParseFromDescriptionTryFromParse(ParseFromParseFromDescription(pfd)) == Ok(pfd)
    ensures ComponentRangeTryFromTryFromParsed(TryFromParsedFromComponentRange(range)) == Ok(range)
    ensures IoErrorTryFromFormat(FormatFromIo(io)) == Ok(io)
  {
  }

  /** The parsing leaves narrow back out of `Error` whether they were wrapped
      directly or through `Parse`: one narrowing undoes two levels of wrapping. */
  lemma NarrowingThroughParse(pfd: ParseFromDescription, tfp: TryFromParsed)
    ensures ParseFromDescriptionTryFromError(ErrorFromParseFromDescription(pfd)) == Ok(pfd)
    ensures TryFromParsedTryFromError(ErrorFromTryFromParsed(tfp)) == Ok(tfp)
    ensures ParseFromDescriptionTryFromError(ErrorFromParse(ParseFromParseFromDescription(pfd))) == Ok(pfd)
    ensures TryFromParsedTryFromError(ErrorFromParse(ParseFromTryFromParsed(tfp))) == Ok(tfp)
  {
  }

  /** Wrapping twice keeps the leaf's text: a range error inside `TryFromParsed`
      inside `Parse` inside `Error` displays as the range error, and a
      description-parse error inside `Parse` inside `Error` likewise. */
  lemma NestedWrappingKeepsDisplay(range: ComponentRange, pfd: ParseFromDescription)
    ensures ErrorDisplay(ErrorFromParse(ParseFromTryFromParsed(TryFromParsedFromComponentRange(range))))
         == ComponentRangeDisplay(range)
    ensures ErrorDisplay(ErrorFromParse(ParseFromParseFromDescription(pfd)))
         == ParseFromDescriptionDisplay(pfd)
  {
  }

  /** Narrowing to a kind other than the one stored fails: an offset error is
      no range, conversion, format, description, parse, variant or resolution
      error; a conversion error is no offset error; trailing characters are
      neither a description-parse nor a resolution error; missing information
      holds no range; and a format error without I/O holds no I/O failure. */
  lemma NarrowingMismatches(offset: IndeterminateOffset, conv: ConversionRange, tfp: TryFromParsed, f: Format)
    requires tfp.InsufficientInformation? && !f.StdIo?
    ensures ComponentRangeTryFromError(ErrorFromIndeterminateOffset(offset)).Err?
    ensures ConversionRangeTryFromError(ErrorFromIndeterminateOffset(offset)).Err?
    ensures FormatTryFromError(ErrorFromIndeterminateOffset(offset)).Err?
    ensures IndeterminateOffsetTryFromError(ErrorFromConversionRange(conv)).Err?
    ensures InvalidFormatDescriptionTryFromError(ErrorFromIndeterminateOffset(offset)).Err?
    ensures ParseFromDescriptionTryFromError(ErrorFromIndeterminateOffset(offset)).Err?
    ensures ParseFromDescriptionTryFromParse(Parse.UnexpectedTrailingCharacters).Err?
    ensures ParseTryFromError(ErrorFromIndeterminateOffset(offset)).Err?
    ensures DifferentVariantTryFromError(ErrorFromIndeterminateOffset(offset)).Err?
    ensures ComponentRangeTryFromTryFromParsed(tfp).Err?
    ensures TryFromParsedTryFromError(ErrorFromIndeterminateOffset(offset)).Err?
    ensures TryFromParsedTryFromParse(Parse.UnexpectedTrailingCharacters).Err?
    ensures IoErrorTryFromFormat(f).Err?
  {
  }

  /** The source of a wrapped error narrows back to the error that was wrapped:
      for every error with a cause, the cause is the payload narrowing returns. */
  lemma SourceIsNarrowedPayload(e: Error)
    requires ErrorSource(e).Some?
    ensures var c := ErrorSource(e).value;
      (c.ConversionRangeCause? ==> ConversionRangeTryFromError(e) == Ok(c.conversionRange))
      && (c.ComponentRangeCause? ==> ComponentRangeTryFromError(e) == Ok(c.componentRange))
      && (c.IndeterminateOffsetCause? ==> IndeterminateOffsetTryFromError(e) == Ok(c.indeterminateOffset))
      && (c.FormatCause? ==> FormatTryFromError(e) == Ok(c.format))
      && (c.ParseFromDescriptionCause? ==> ParseFromDescriptionTryFromError(e) == Ok(c.parseFromDescription))
      && (c.TryFromParsedCause? ==> TryFromParsedTryFromError(e) == Ok(c.tryFromParsed))
      && (c.InvalidFormatDescriptionCause? ==> InvalidFormatDescriptionTryFromError(e) == Ok(c.invalidFormatDescription))
      && (c.DifferentVariantCause? ==> DifferentVariantTryFromError(e) == Ok(c.differentVariant))
      && !c.IoCause?
  {
  }
}

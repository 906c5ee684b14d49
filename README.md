# A verified model of `time`'s format descriptions and parsing core

This project models, in Dafny, the part of the Rust `time` crate (0.3 series) that turns
format descriptions into items and parses text with them:

- **The description compiler**, `format_description::parse` (`description_parse.dfy`).
  Text outside brackets becomes a literal and `[[` becomes the literal `[`.
  `[name key:value …]` becomes one `Component`: its modifier record starts at the kind's
  defaults and each modifier token overrides one field.
  The four `InvalidFormatDescription` errors carry the byte index where they were found.
  `modifier.dfy` and `format_description.dfy` hold the component kinds with their modifier records.
  `description_render.dfy` writes well-formed descriptions back out as text and proves that
  compiling them gives their meaning. `description_laws.dfy` holds the laws of the
  `key:value` tables. `description_examples.dfy` holds the concrete descriptions and
  error messages.
- **`FormatItem` and `Component`** (`format_description.dfy`): the `From`/`TryFrom`
  conversions and the cross-type equalities.
- **The `Parsed` accumulator** (`fields.dfy`, `parsed.dfy`). `Parsed` is a class with twenty
  optional fields. Its setters (`set_*`) change one field each. `parse_component`,
  `parse_item` and `parse_items` read from the front of the input, and a failure leaves
  the accumulator unchanged. The by-value builders (`with_*`) are functions on the
  record of fields. The component readers it calls are in `component_parse.dfy`.
  `Time::parse` with one item is modelled as a method on the class, and resolving a
  `Time` from the fields (`Time::try_from(Parsed)`) as a function.
- **The error lattice** (`errors.dfy`). The leaf errors are wrapped by `From` into
  `TryFromParsed`, `Parse` and `Error`, and narrowed back by `TryFrom`. Each error has a
  display text and an optional `source()`.
- **The calendar checks the core relies on** (`calendar.dfy`):
  - `Date::from_ordinal_date` and `Time::from_hms_nano`, with the `ComponentRange` errors they report;
  - the 12-hour clock rule used by `time!` and by the resolver.

Description text is a `string` with one character per byte, so positions are byte indices.
Integers are unbounded, and the Rust integer types appear as subset types of `int`
(`primitives.dfy`).

The crate's implementation files are not part of this model. What the model fixes comes from
the crate's integration tests (`tests/integration/*.rs`), which the table below cites line by
line. Where a test pins a behaviour down only partly, the model follows the crate's documented
behaviour:
- how each component is read;
- `n_to_m_digits`, padding and signs;
- subsecond digits beyond the ninth are ignored.

The RFC 3339 layout in `parse_format_description.rs` compiles to sixteen items, and the model
states sixteen.

## Model

| member | source | states |
|---|---|---|
| DescriptionParse.Parse | tests/integration/parse_format_description.rs:118-120 | compiling never yields more items than the description has bytes; every error index lies inside the description |
| DescriptionParse.ParseFrom | tests/integration/parse_format_description.rs:123-152 | the items compiled from a position are never compound, are no more than the bytes left, and an error points into the remaining text |
| DescriptionParse.ParseItem | tests/integration/parse_format_description.rs:140-151 | one step consumes at least one byte and yields a non-compound item; a literal is never empty; an unclosed `[` is reported at its own index |
| DescriptionParse.ParseComponent | tests/integration/parse_format_description.rs:277-295 | a failing bracket body is reported at an index between its `[` and its `]`, and never as an unclosed bracket |
| DescriptionParse.ParseModifiers | tests/integration/parse_format_description.rs:291-294 | a failing modifier list fails with `InvalidModifier` at the index of a byte of the list |
| DescriptionParse.ApplyAll | tests/integration/parse_format_description.rs:298-450 | applying modifiers keeps the component kind and the set of modifiers it accepts |
| DescriptionParse.Find | tests/integration/parse_format_description.rs:283-286 | the position found holds the byte sought, or is the end of the text |
| DescriptionParse.FindSkips | tests/integration/parse_format_description.rs:283-286 | no byte before the position found is the byte sought |
| DescriptionParse.SkipWhitespace | tests/integration/parse_format_description.rs:279-282 | whitespace before a name is skipped: the position returned holds no ASCII whitespace, or is the end of the bracket |
| DescriptionParse.SkipWhitespaceSkips | tests/integration/parse_format_description.rs:279-282 | every byte skipped is ASCII whitespace |
| DescriptionParse.TokenEnd | tests/integration/parse_format_description.rs:291-294 | a token stops at the first ASCII whitespace or at the end of the bracket |
| DescriptionParse.TokenEndSkips | tests/integration/parse_format_description.rs:291-294 | a token holds no whitespace |
| DescriptionParse.NameRoundTrip | tests/integration/parse_format_description.rs:155-274 | the name of every component kind compiles to that kind with every modifier at its default |
| DescriptionParse.NameBorne | tests/integration/parse_format_description.rs:155-274 | a name that denotes a component is that component's own name |
| DescriptionParse.NameSound | tests/integration/parse_format_description.rs:155-274 | a name that denotes a component denotes its kind's defaults |
| DescriptionParse.NameUnknown | tests/integration/parse_format_description.rs:279-282 | a name no table entry has is the name of no kind |
| DescriptionParse.DefaultKeepsSettings | tests/integration/parse_format_description.rs:155-274 | a kind's defaults accept exactly the modifiers of the kind |
| DescriptionParse.ApplyKeepsKind | tests/integration/parse_format_description.rs:298-450 | a modifier changes a field of the component, never its kind or its accepted modifiers |
| DescriptionParse.ComponentFromName | tests/integration/parse_format_description.rs:155-274 | a component name yields its kind with every modifier at its default |
| DescriptionParse.LookupFor | tests/integration/parse_format_description.rs:298-450 | a token a component's modifier lookup accepts yields a modifier that component accepts |
| DescriptionParse.PaddingSound | tests/integration/parse_format_description.rs:6-14 | a token the `Padding` table accepts is the token of the setting it yields, and that setting is in the table |
| DescriptionParse.PaddingComplete | tests/integration/parse_format_description.rs:6-14 | the token of every setting in the `Padding` table looks up to exactly that setting |
| DescriptionParse.ClockSound | tests/integration/parse_format_description.rs:16-18 | a token the `Clock` table accepts is the token of the setting it yields, and that setting is in the table |
| DescriptionParse.ClockComplete | tests/integration/parse_format_description.rs:16-18 | the token of every setting in the `Clock` table looks up to exactly that setting |
| DescriptionParse.PeriodCaseSound | tests/integration/parse_format_description.rs:20-24 | a token the `PeriodCase` table accepts is the token of the setting it yields, and that setting is in the table |
| DescriptionParse.PeriodCaseComplete | tests/integration/parse_format_description.rs:20-24 | the token of every setting in the `PeriodCase` table looks up to exactly that setting |
| DescriptionParse.MonthReprSound | tests/integration/parse_format_description.rs:26-34 | a token the `MonthRepr` table accepts is the token of the setting it yields, and that setting is in the table |
| DescriptionParse.MonthReprComplete | tests/integration/parse_format_description.rs:26-34 | the token of every setting in the `MonthRepr` table looks up to exactly that setting |
| DescriptionParse.DigitsSound | tests/integration/parse_format_description.rs:36-51 | a token the `Digits` table accepts is the token of the setting it yields, and that setting is in the table |
| DescriptionParse.DigitsComplete | tests/integration/parse_format_description.rs:36-51 | the token of every setting in the `Digits` table looks up to exactly that setting |
| DescriptionParse.WeekdayReprSound | tests/integration/parse_format_description.rs:53-62 | a token the `WeekdayRepr` table accepts is the token of the setting it yields, and that setting is in the table |
| DescriptionParse.WeekdayReprComplete | tests/integration/parse_format_description.rs:53-62 | the token of every setting in the `WeekdayRepr` table looks up to exactly that setting |
| DescriptionParse.WeekNumberReprSound | tests/integration/parse_format_description.rs:64-72 | a token the `WeekNumberRepr` table accepts is the token of the setting it yields, and that setting is in the table |
| DescriptionParse.WeekNumberReprComplete | tests/integration/parse_format_description.rs:64-72 | the token of every setting in the `WeekNumberRepr` table looks up to exactly that setting |
| DescriptionParse.YearReprSound | tests/integration/parse_format_description.rs:74-81 | a token the `YearRepr` table accepts is the token of the setting it yields, and that setting is in the table |
| DescriptionParse.YearReprComplete | tests/integration/parse_format_description.rs:74-81 | the token of every setting in the `YearRepr` table looks up to exactly that setting |
| DescriptionParse.YearBaseSound | tests/integration/parse_format_description.rs:83-87 | a token the `YearBase` table accepts is the token of the setting it yields, and that setting is in the table |
| DescriptionParse.YearBaseComplete | tests/integration/parse_format_description.rs:83-87 | the token of every setting in the `YearBase` table looks up to exactly that setting |
| DescriptionParse.SignSound | tests/integration/parse_format_description.rs:89-93 | a token the `Sign` table accepts is the token of the setting it yields, and that setting is in the table |
| DescriptionParse.SignComplete | tests/integration/parse_format_description.rs:89-93 | the token of every setting in the `Sign` table looks up to exactly that setting |
| DescriptionParse.OneIndexedSound | tests/integration/parse_format_description.rs:95-99 | a token the `OneIndexed` table accepts is the token of the setting it yields, and that setting is in the table |
| DescriptionParse.OneIndexedComplete | tests/integration/parse_format_description.rs:95-99 | the token of every setting in the `OneIndexed` table looks up to exactly that setting |
| DescriptionParse.CaseSensitiveSound | tests/integration/parse_format_description.rs:101-108 | a token the `CaseSensitive` table accepts is the token of the setting it yields, and that setting is in the table |
| DescriptionParse.CaseSensitiveComplete | tests/integration/parse_format_description.rs:101-108 | the token of every setting in the `CaseSensitive` table looks up to exactly that setting |
| DescriptionParse.NameIsWord | tests/integration/parse_format_description.rs:155-274 | every component name is a single token: no whitespace, no brackets |
| DescriptionParse.KeyIsWord | tests/integration/parse_format_description.rs:6-108 | every modifier key is a single token |
| DescriptionParse.ValueIsWord | tests/integration/parse_format_description.rs:6-108 | every modifier value is a single token |
| DescriptionParse.TokenIsWord | tests/integration/parse_format_description.rs:6-108 | every `key:value` modifier token is a single token |
| ModifierLaws.KeyTextInjective | tests/integration/parse_format_description.rs:6-108 | different keys are spelled differently, and no key contains a colon |
| ModifierLaws.ColonFollowsKey | tests/integration/parse_format_description.rs:6-108 | the first colon of a token is the one right after its key, and the token splits there into key and value |
| ModifierLaws.TokenSplits | tests/integration/parse_format_description.rs:6-108 | equal tokens have equal keys and equal values |
| ModifierLaws.ValueTextDistinct | tests/integration/parse_format_description.rs:6-108 | within one field, different values are spelled differently |
| ModifierLaws.KeyNamesField | tests/integration/parse_format_description.rs:298-450 | among the modifiers of one component, two tokens share a key exactly when they set the same field |
| ModifierLaws.TokensDistinct | tests/integration/parse_format_description.rs:298-450 | no two modifiers a component accepts share a token |
| ModifierLaws.LookupSound | tests/integration/parse_format_description.rs:298-450 | a token the component's lookup accepts spells the setting it yields, and that setting belongs to the component |
| ModifierLaws.LookupCovers | tests/integration/parse_format_description.rs:298-450 | the lookup finds a setting for the token of every modifier the component accepts |
| ModifierLaws.LookupComplete | tests/integration/parse_format_description.rs:298-450 | every modifier the component accepts is found by its own token, and that token is a single word |
| ModifierLaws.ReadAfterApply | tests/integration/parse_format_description.rs:298-450 | after a modifier is applied, its field reads back as that modifier |
| ModifierLaws.ApplyLeavesOtherFields | tests/integration/parse_format_description.rs:298-450 | a modifier leaves every field with a different key as it was |
| ModifierLaws.CurrentValueListed | tests/integration/parse_format_description.rs:298-450 | the value a field holds is one its table lists, under the same key |
| ModifierLaws.ApplyCurrentValue | tests/integration/parse_format_description.rs:298-450 | writing back the value a field already holds changes nothing |
| ModifierLaws.LastWriteWins | tests/integration/parse_format_description.rs:298-450 | of two modifiers with the same key, the later one wins |
| ModifierLaws.DistinctKeysCommute | tests/integration/parse_format_description.rs:298-450 | modifiers with different keys give the same component in either order |
| ModifierLaws.ReadApplyAll | tests/integration/parse_format_description.rs:298-450 | after a run of modifiers, each field holds the value of the last modifier for it, or its old value when none addresses it |
| DescriptionRender.ParseRendered | tests/integration/parse_format_description.rs:298-450 | a well-formed description, built from text, `[[` escapes and brackets with accepted modifiers, compiles to the meaning of each piece in order |
| DescriptionRender.ParsePieces | tests/integration/parse_format_description.rs:475-523 | a text that is the rendering of well-formed pieces compiles to the pieces' meanings |
| DescriptionRender.ParseFromRendered | tests/integration/parse_format_description.rs:475-523 | compiling from the start of any piece yields that piece's meaning followed by the meanings of the pieces after it |
| DescriptionRender.ParseItemRendered | tests/integration/parse_format_description.rs:475-523 | one compile step at the start of a rendered piece yields its meaning and stops at its end |
| DescriptionRender.BracketRendered | tests/integration/parse_format_description.rs:298-450 | a rendered bracket compiles to its component, with whitespace around the name and before `]` skipped |
| DescriptionRender.BracketParsed | tests/integration/parse_format_description.rs:298-450 | the body of a rendered bracket yields the kind's defaults with its modifiers applied in order |
| DescriptionRender.ParseModifiersRendered | tests/integration/parse_format_description.rs:298-450 | the modifier list of a rendered bracket yields its settings in order |
| DescriptionRender.TextRendered | tests/integration/parse_format_description.rs:123-139 | a rendered text piece compiles to one literal holding all of it |
| DescriptionRender.EscapeRendered | tests/integration/parse_format_description.rs:140-151 | `[[` compiles to the literal `[` and ends the literal before it |
| DescriptionRender.MeaningsJoin | tests/integration/parse_format_description.rs:475-523 | the meaning of two runs of pieces written one after the other is the meanings of each, concatenated |
| DescriptionRender.WellFormedJoin | tests/integration/parse_format_description.rs:475-523 | two well-formed runs written one after the other are well formed when the first does not end in text and the second does not start with text |
| DescriptionRender.RowsResolve | tests/integration/parse_format_description.rs:298-450 | rows spelled by the tokens of accepted settings resolve to those settings |
| DescriptionRender.BuiltinBracket | tests/integration/parse_format_description.rs:298-450 | a bracket naming a kind and holding accepted tokens is well formed and means the kind's defaults overridden by the tokens in order |
| DescriptionExamples.EmptyDescription | tests/integration/parse_format_description.rs:118-120 | the empty description compiles to no items |
| DescriptionExamples.TextOnly | tests/integration/parse_format_description.rs:123-139 | any text without `[` compiles to one literal with exactly its bytes |
| DescriptionExamples.TextOnlyCases | tests/integration/parse_format_description.rs:123-139 | "foo bar", leading spaces, trailing spaces and all-space text compile to a single literal |
| DescriptionExamples.Escapes | tests/integration/parse_format_description.rs:140-151 | `[[` is the literal `[`; `foo[[bar` is `foo`, `[`, `bar`; `[[ ` is `[` and ` ` |
| DescriptionExamples.EscapeBeforeSpace | tests/integration/macros.rs:125-128 | `[[ ` compiles to the two literals `[` and ` `: the escape ends the literal |
| DescriptionExamples.DescribedMeaning | tests/integration/parse_format_description.rs:298-450 | a bracket with any whitespace around the name and accepted modifiers means the kind's defaults with the modifiers applied in order |
| DescriptionExamples.ComponentCompiles | tests/integration/parse_format_description.rs:298-450 | every such bracket compiles to exactly that component |
| DescriptionExamples.BareName | tests/integration/parse_format_description.rs:155-274 | `[name]` compiles to the kind with every field at its default |
| DescriptionExamples.OneModifier | tests/integration/parse_format_description.rs:298-450 | `[name key:value]` sets exactly the field the token names, to that value, and leaves every other field at its default |
| DescriptionExamples.BracketsInSequence | tests/integration/macros.rs:30-90 | brackets written back to back compile to one component each, in order, each with its own modifier |
| DescriptionExamples.CoverageRecords | tests/integration/macros.rs:91-124 | partial modifier sets keep the other fields at their defaults: day paddings, `month repr:numerical`, `week_number repr:iso`, `weekday repr:long one_indexed:true`, `year repr:full base:calendar` |
| DescriptionExamples.Rfc3339 | tests/integration/parse_format_description.rs:475-523 | the RFC 3339 date-time layout compiles to its sixteen items in order |
| DescriptionExamples.Rfc3339Date | tests/integration/parse_format_description.rs:482-496 | the date part is well formed and means year, `-`, numerical month, `-`, day |
| DescriptionExamples.Rfc3339Time | tests/integration/parse_format_description.rs:497-513 | the time part is well formed and means `T`, hour, `:`, minute, `:`, second, `.`, subsecond |
| DescriptionExamples.Rfc3339Offset | tests/integration/parse_format_description.rs:514-521 | the offset part is well formed and means the signed offset hour, `:`, offset minute |
| DescriptionExamples.Rfc3339DateText | tests/integration/parse_format_description.rs:478 | the date pieces render as `[year]-[month repr:numerical]-[day]T` |
| DescriptionExamples.Rfc3339TimeText | tests/integration/parse_format_description.rs:478 | the time pieces render as `[hour]:[minute]:[second].[subsecond]` |
| DescriptionExamples.Rfc3339OffsetText | tests/integration/parse_format_description.rs:478-479 | the offset pieces render as `[offset_hour sign:mandatory]:[offset_minute]` |
| DescriptionExamples.Rfc3339Text | tests/integration/parse_format_description.rs:475-480 | the sixteen pieces render as exactly the description string the test compiles, `[year]-[month repr:numerical]-[day]T[hour]:[minute]:[second].[subsecond][offset_hour sign:mandatory]:[offset_minute]`, written as its date, time and offset parts joined |
| DescriptionExamples.BracketErrors | tests/integration/parse_format_description.rs:283-290 | `[` fails as an unclosed bracket at 0; `[]` as a missing name at 1 |
| DescriptionExamples.UnknownName | tests/integration/parse_format_description.rs:279-282 | `[ invalid ]` fails as the invalid component name `invalid` at 2 |
| DescriptionExamples.ForeignModifier | tests/integration/parse_format_description.rs:291-294 | `[day sign:mandatory]` fails as the invalid modifier `sign:mandatory` at 5: a modifier of another kind is rejected |
| DescriptionExamples.FooName | tests/integration/parse_format_description.rs:458-461 | `[foo]` fails as the invalid component name `foo` at 1 |
| DescriptionExamples.BarModifier | tests/integration/parse_format_description.rs:462-467 | `[day bar]` fails as the invalid modifier `bar` at 5 |
| DescriptionExamples.UnclosedDisplay | tests/integration/parse_format_description.rs:454-457 | `[` displays "unclosed opening bracket at byte index 0" |
| DescriptionExamples.MissingNameDisplay | tests/integration/parse_format_description.rs:468-471 | `[]` displays "missing component name at byte index 1" |
| DescriptionExamples.UnknownNameDisplay | tests/integration/parse_format_description.rs:458-461 | `[foo]` displays "invalid component name `foo` at byte index 1" |
| DescriptionExamples.UnknownModifierDisplay | tests/integration/parse_format_description.rs:462-467 | `[day bar]` displays "invalid modifier `bar` at byte index 5" |
| FormatDescription.ComponentTryFromItem | tests/integration/format_description.rs:10-11 | succeeds exactly on component items, and what it returns converts back to the item |
| FormatDescription.ItemFromComponent | tests/integration/format_description.rs:7-9 | the item built from a component is equal to that component, compared either way round |
| FormatDescription.CompoundTryFromItem | tests/integration/format_description.rs:12-20 | succeeds exactly on compound items, and what it returns converts back to the item |
| FormatDescription.ItemFromCompound | tests/integration/format_description.rs:17-19 | the item built from a slice of items is equal to that slice, compared either way round |
| FormatDescription.ComponentConversions | tests/integration/format_description.rs:6-13 | component to item and back is the identity, the item equals the component both ways, and a literal converts to neither a component nor a slice |
| FormatDescription.CompoundConversions | tests/integration/format_description.rs:16-21 | slice to item and back is the identity, and the item equals the slice both ways |
| FormatDescription.CrossEqualityIsConversion | tests/integration/format_description.rs:24-34 | cross-type equality holds exactly when conversion relates the two values, in both directions; a literal equals no component and no slice |
| Errors.ErrorSource | tests/integration/error.rs:114-148 | every `Error` has a cause except trailing characters, and the cause displays the same text |
| Errors.ParseSource | tests/integration/error.rs:124-141 | a `Parse` error has a cause except trailing characters, and the cause displays the same text |
| Errors.TryFromParsedSource | tests/integration/error.rs:118-119 | a resolution error has a cause exactly when it carries a range error, with the same text |
| Errors.FormatSource | tests/integration/error.rs:120-146 | a format error has a cause exactly when it is an I/O failure, and the cause displays the same text |
| Errors.ComponentRangeDisplay | tests/integration/error.rs:70-71 | the text starts with the field name and the range, and ends with the remark on other parameters exactly when the range is conditional |
| Errors.InvalidFormatDescriptionDisplay | tests/integration/error.rs:106-109 | the text ends with the byte index of the error, and quotes the rejected component name or modifier at its head |
| Errors.FormatDisplay | tests/integration/error.rs:77-84 | an I/O failure displays as the failure itself; an unformattable component is named at the head of the text |
| Errors.ParseFromDescriptionDisplay | tests/integration/error.rs:85-97 | a component that could not be parsed is named, in quotes, at the head of the text |
| Errors.TryFromParsedDisplay | tests/integration/error.rs:71 | a resolution error holding a range error displays as that range error, which names the field first |
| Errors.ParseDisplayCases | tests/integration/error.rs:89-101 | a `Parse` error displays as the description-parse or range error it holds; trailing characters have a fixed message |
| Errors.ErrorDisplayAgrees | tests/integration/error.rs:85-105 | an `Error` holding a parsing error displays exactly as the `Parse` error holding the same leaf |
| Errors.ErrorFromConversionRange | tests/integration/error.rs:69 | wrapping displays exactly the text of the conversion error and exposes it as the cause |
| Errors.ErrorFromComponentRange | tests/integration/error.rs:70 | wrapping displays exactly the text of the range error and exposes it as the cause |
| Errors.ErrorFromIndeterminateOffset | tests/integration/error.rs:72 | wrapping displays exactly the text of the offset error and exposes it as the cause |
| Errors.ErrorFromFormat | tests/integration/error.rs:77-84 | wrapping displays exactly the text of the format error and exposes it as the cause |
| Errors.ErrorFromParseFromDescription | tests/integration/error.rs:85-88 | wrapping displays exactly the text of the description-parse error and exposes it as the cause |
| Errors.ErrorFromTryFromParsed | tests/integration/error.rs:73-76 | wrapping displays exactly the text of the resolution error and exposes it as the cause |
| Errors.ErrorFromInvalidFormatDescription | tests/integration/error.rs:106-109 | wrapping displays exactly the text of the description error and exposes it as the cause |
| Errors.ErrorFromDifferentVariant | tests/integration/error.rs:111 | wrapping displays exactly the text of the variant error and exposes it as the cause |
| Errors.ErrorFromParse | tests/integration/error.rs:102-105 | wrapping displays exactly the text of the parse error and keeps that error's own cause (none for trailing characters) |
| Errors.ParseFromTryFromParsed | tests/integration/error.rs:98-101 | wrapping displays exactly the text of the resolution error and exposes it as the cause |
| Errors.ParseFromParseFromDescription | tests/integration/error.rs:94-97 | wrapping displays exactly the text of the description-parse error and exposes it as the cause |
| Errors.TryFromParsedFromComponentRange | tests/integration/error.rs:71 | wrapping displays exactly the text of the range error and exposes it as the cause |
| Errors.FormatFromIo | tests/integration/error.rs:110 | wrapping displays exactly the text of the I/O failure and exposes it as the cause |
| Errors.ConversionRangeTryFromError | tests/integration/error.rs:158 | narrowing succeeds exactly on the conversion variant, and what it returns wraps back to the value given |
| Errors.ComponentRangeTryFromError | tests/integration/error.rs:157 | narrowing succeeds exactly on the range variant, and what it returns wraps back to the value given |
| Errors.IndeterminateOffsetTryFromError | tests/integration/error.rs:160 | narrowing succeeds exactly on the offset variant, and what it returns wraps back to the value given |
| Errors.FormatTryFromError | tests/integration/error.rs:159 | narrowing succeeds exactly on the format variant, and what it returns wraps back to the value given |
| Errors.ParseFromDescriptionTryFromError | tests/integration/error.rs:162 | narrowing succeeds exactly on the description-parse variant, and what it returns wraps back to the value given |
| Errors.TryFromParsedTryFromError | tests/integration/error.rs:169 | narrowing succeeds exactly on the resolution variant, and what it returns wraps back to the value given |
| Errors.InvalidFormatDescriptionTryFromError | tests/integration/error.rs:161 | narrowing succeeds exactly on the description variant, and what it returns wraps back to the value given |
| Errors.DifferentVariantTryFromError | tests/integration/error.rs:167 | narrowing succeeds exactly on the different-variant variant, and what it returns wraps back to the value given |
| Errors.ParseTryFromError | tests/integration/error.rs:164-166 | narrowing succeeds exactly on the parse variant, and what it returns wraps back to the value given |
| Errors.TryFromParsedTryFromParse | tests/integration/error.rs:170 | narrowing succeeds exactly on the resolution variant, and what it returns wraps back to the value given |
| Errors.ParseFromDescriptionTryFromParse | tests/integration/error.rs:163 | narrowing succeeds exactly on the description-parse variant, and what it returns wraps back to the value given |
| Errors.ComponentRangeTryFromTryFromParsed | tests/integration/error.rs:168 | narrowing succeeds exactly on the range variant, and what it returns wraps back to the value given |
| Errors.IoErrorTryFromFormat | tests/integration/error.rs:171 | narrowing succeeds exactly on the I/O variant, and what it returns wraps back to the value given |
| Errors.ErrorNarrowingUndoesWrapping | tests/integration/error.rs:157-167 | narrowing an `Error` back to the leaf it was built from returns that leaf |
| Errors.NarrowingToParseUndoesWrapping | tests/integration/error.rs:164 | narrowing a wrapped `Parse` error back to `Parse` returns it |
| Errors.NarrowingToParseRewraps | tests/integration/error.rs:165-166 | narrowing to `Parse` an `Error` built from a parsing leaf gives that leaf wrapped in `Parse` |
| Errors.IntermediateNarrowingUndoesWrapping | tests/integration/error.rs:163-171 | narrowing from `Parse`, `TryFromParsed` or `Format` to what they wrap undoes wrapping |
| Errors.NarrowingThroughParse | tests/integration/error.rs:162-170 | the parsing leaves narrow back out of `Error` whether wrapped directly or through `Parse` |
| Errors.NarrowingMismatches | tests/integration/error.rs:173-185 | the thirteen mismatched narrowings the test lists each fail with `DifferentVariant`; that every mismatch fails follows from the if-and-only-if contracts of the narrowing functions |
| Errors.NestedWrappingKeepsDisplay | tests/integration/error.rs:90-93 | two levels of wrapping keep the leaf's display text |
| Errors.SourceIsNarrowedPayload | tests/integration/error.rs:115-148 | the cause of an error is exactly the payload narrowing returns, and never an I/O failure at the top level |
| Calendar.FromOrdinalDate | tests/integration/error.rs:34-36 | succeeds exactly when the year is supported and the day lies within its year; an error names the failing value and excludes it from its bounds |
| Calendar.OrdinalOutOfRange | tests/integration/error.rs:151-153 | day 367 of year 0 fails on the field "ordinal" with the conditional range 1..=366 |
| Calendar.OrdinalDates | tests/integration/macros.rs:132-137 | the ordinal dates the macro tests build are valid; day 366 exists in 2000 but not in 2018 |
| Calendar.MonthFromNumber | tests/integration/parsed.rs:127 | a number gives a month exactly when it lies in 1..=12, the month at that position |
| Calendar.MonthNumber | tests/integration/parsed.rs:127 | every month has a number in 1..=12 that indexes it |
| Calendar.MonthNumbering | tests/integration/parsed.rs:127 | numbering months and reading the number back are inverse |
| Calendar.FromHmsNano | tests/integration/macros.rs:142 | succeeds exactly on in-range fields, else names the first field out of range, with bounds 0..=max |
| Calendar.Hour12Of | tests/integration/macros.rs:140-143 | every hour of the day reads on the 12-hour clock as 1..=12 |
| Calendar.ClockHour | tests/integration/macros.rs:141-142 | a 12-hour reading in 1..=12 gives an hour of the day, in the afternoon half exactly when PM, with the same hour modulo 12 |
| Calendar.ClockHourBijection | tests/integration/macros.rs:140-143 | the 12-hour rule is a bijection between 1..=12 AM/PM and the hours 0..=23 |
| Calendar.ClockHourHalves | tests/integration/macros.rs:140-143 | PM readings are exactly the hours from noon on |
| Calendar.TwelveOClock | tests/integration/macros.rs:141-142 | 12 AM is midnight and 12 PM is 12:00:00 |
| ParsedFields.Get | tests/integration/parsed.rs:14 | a getter returns a value of its field's type or nothing |
| ParsedFields.ReadAfterPut | tests/integration/parsed.rs:12-14 | a field reads back the value it was last set to |
| ParsedFields.PutLeavesOthers | tests/integration/parsed.rs:12-14 | setting one field leaves every other field as it was |
| ParsedFields.FieldsExtensional | tests/integration/parsed.rs:67-95 | a `Parsed` is determined by what its twenty getters return |
| ParsedFields.DateFieldsAgree | tests/integration/parsed.rs:67-83 | equal getters give equal date fields |
| ParsedFields.TimeFieldsAgree | tests/integration/parsed.rs:84-95 | equal getters give equal time and offset fields |
| ParsedFields.LastWriteWins | tests/integration/parsed.rs:12-14 | setting a field twice keeps the last value only |
| ParsedFields.EmptyIsUnset | tests/integration/parsed.rs:12 | a new `Parsed` has every field unset |
| ParsedFields.SetThenGet | tests/integration/parsed.rs:9-40 | on a new `Parsed`, one set field reads back its value and every other field stays unset |
| ParsedFields.WithYear | tests/integration/parsed.rs:45 | the builder always succeeds, with its own field set to the value and every other field unchanged |
| ParsedFields.WithYearLastTwo | tests/integration/parsed.rs:46 | the builder always succeeds, with its own field set to the value and every other field unchanged |
| ParsedFields.WithIsoYear | tests/integration/parsed.rs:47 | the builder always succeeds, with its own field set to the value and every other field unchanged |
| ParsedFields.WithIsoYearLastTwo | tests/integration/parsed.rs:48 | the builder always succeeds, with its own field set to the value and every other field unchanged |
| ParsedFields.WithMonth | tests/integration/parsed.rs:49 | the builder always succeeds, with its own field set to the value and every other field unchanged |
| ParsedFields.WithSundayWeekNumber | tests/integration/parsed.rs:50 | the builder always succeeds, with its own field set to the value and every other field unchanged |
| ParsedFields.WithMondayWeekNumber | tests/integration/parsed.rs:51 | the builder always succeeds, with its own field set to the value and every other field unchanged |
| ParsedFields.WithIsoWeekNumber | tests/integration/parsed.rs:52 | the builder always succeeds, with its own field set to the value and every other field unchanged |
| ParsedFields.WithWeekday | tests/integration/parsed.rs:53 | the builder always succeeds, with its own field set to the value and every other field unchanged |
| ParsedFields.WithOrdinal | tests/integration/parsed.rs:54 | the builder always succeeds, with its own field set to the value and every other field unchanged |
| ParsedFields.WithDay | tests/integration/parsed.rs:55 | the builder always succeeds, with its own field set to the value and every other field unchanged |
| ParsedFields.WithHour24 | tests/integration/parsed.rs:56 | the builder always succeeds, with its own field set to the value and every other field unchanged |
| ParsedFields.WithHour12 | tests/integration/parsed.rs:57 | the builder always succeeds, with its own field set to the value and every other field unchanged |
| ParsedFields.WithHour12IsPm | tests/integration/parsed.rs:58 | the builder always succeeds, with its own field set to the value and every other field unchanged |
| ParsedFields.WithMinute | tests/integration/parsed.rs:59 | the builder always succeeds, with its own field set to the value and every other field unchanged |
| ParsedFields.WithSecond | tests/integration/parsed.rs:60 | the builder always succeeds, with its own field set to the value and every other field unchanged |
| ParsedFields.WithSubsecond | tests/integration/parsed.rs:61 | the builder always succeeds, with its own field set to the value and every other field unchanged |
| ParsedFields.WithOffsetHour | tests/integration/parsed.rs:62 | the builder always succeeds, with its own field set to the value and every other field unchanged |
| ParsedFields.WithOffsetMinute | tests/integration/parsed.rs:63 | the builder always succeeds, with its own field set to the value and every other field unchanged |
| ParsedFields.WithOffsetSecond | tests/integration/parsed.rs:64 | the builder always succeeds, with its own field set to the value and every other field unchanged |
| ParsedFields.BuilderChainDate | tests/integration/parsed.rs:44-83 | the chain of all twenty builders succeeds, and every date field reads back its own value |
| ParsedFields.BuilderChainTime | tests/integration/parsed.rs:84-95 | after the chain every time and offset field reads back its own value |
| ComponentParse.Interpret | tests/integration/parsed.rs:114-138 | whatever a component reads leaves a proper suffix and gives a value of the field's type |
| ComponentParse.InterpretField | tests/integration/parsed.rs:114-138 | a component read always sets the field of its own kind |
| ComponentParse.InterpretValue | tests/integration/parsed.rs:126-138 | each component stores exactly what its reader returns, with the field's type: padded digits for numeric fields, non-zero for day, ordinal, ISO week and 12-hour hour, the month, weekday or AM/PM read for the named fields |
| ComponentParse.EmptyInputFails | tests/integration/parsed.rs:126-138 | no component can be read from empty input |
| ComponentParse.ErrorName | tests/integration/parsed.rs:126-138 | the name a failure reports is the component's description name with every underscore replaced by a space |
| ComponentParse.IsoWeekZero | tests/integration/parsed.rs:140-146 | `00` is not an ISO week number, whatever the padding |
| ComponentParse.TwelveHourZero | tests/integration/parsed.rs:147-153 | `00` is not an hour on the 12-hour clock, whatever the padding |
| ComponentParse.NonZeroRejectsZero | tests/integration/parsed.rs:140-153 | the non-zero two-digit reader rejects `00` |
| ComponentParse.MidnightHour | tests/integration/parsed.rs:147-153 | on the 24-hour clock, `00` is read as hour 0 |
| ComponentParse.FifthDay | tests/integration/parsed.rs:126 | `05` is read as day 5 |
| ComponentParse.SubsecondDigits | tests/integration/parsed.rs:135 | reading one or more subsecond digits returns what the subsecond reader specifies: all leading digits consumed, the first nine giving the nanoseconds |
| ComponentParse.Subsecond | tests/integration/parsed.rs:135 | a subsecond read consumes a non-empty prefix and is below one second |
| ComponentParse.Nanoseconds | tests/integration/parsed.rs:135 | a run of subsecond digits is worth less than one second |
| ComponentParse.NanosecondsStepWithin | tests/integration/parsed.rs:135 | within the first nine digits, one more digit adds its value times its place |
| ComponentParse.NanosecondsStepBeyond | tests/integration/parsed.rs:135 | from the tenth digit on, further digits add nothing |
| ComponentParse.DigitRun | tests/integration/parsed.rs:135 | the run found is all digits and is followed by a non-digit, the end of the input, or the limit |
| ComponentParse.NToMDigits | tests/integration/parsed.rs:126-138 | succeeds exactly when at least n digits lead the input; reads the whole run of leading digits up to m of them and returns their value |
| ComponentParse.DigitsPadded | tests/integration/parsed.rs:126-138 | zero padding needs exactly n leading digits; no padding takes the run of up to n leading digits and needs one; space padding is the space-padded reader; each returns the value of the digits read |
| ComponentParse.SpacePadded | tests/integration/parsed.rs:126-138 | space padding skips up to n-1 leading spaces and then needs digits up to the n-th byte, whose value it returns |
| ComponentParse.Sign | tests/integration/parsed.rs:136 | a leading `+` or `-` is taken as the sign and nothing else is |
| ComponentParse.FirstMatch | tests/integration/parsed.rs:127 | the first table entry that starts the input wins, and nothing is read when no entry does |
| ComponentParse.Month | tests/integration/parsed.rs:127 | a numerical month is two padded digits in 1..=12 naming that month; a long or short month is the first name that starts the input |
| ComponentParse.Weekday | tests/integration/parsed.rs:129 | a weekday is read as the first name, abbreviation or number of its representation that starts the input |
| ComponentParse.Period | tests/integration/parsed.rs:133 | AM/PM is read as the first of the two names, in the chosen case, that starts the input |
| ComponentParse.Year | tests/integration/parsed.rs:131 | a full year is an optional sign, mandatory when the modifier says so, then four padded digits, negated after `-`; the last two digits are two padded digits; the value lies in -9999..=9999 or 0..=99 |
| ComponentParse.NonZeroPadded | tests/integration/parsed.rs:126-128 | a non-zero field succeeds exactly when the padded reader reads a non-zero number |
| ComponentParse.OffsetHour | tests/integration/parsed.rs:136 | an offset hour is an optional sign, mandatory when the modifier says so, then two padded digits, negated after `-`; the value lies in -99..=99 |
| ComponentParse.MandatorySign | tests/integration/parse_format_description.rs:264-273 | a full year whose sign is mandatory is rejected without one |
| Parsing.ParseLiteral | tests/integration/error.rs:56-58 | succeeds exactly when the literal is a prefix of the input, the rest being what follows it; otherwise `InvalidLiteral` |
| Parsing.LiteralRoundTrip | tests/integration/error.rs:56-58 | a literal followed by anything is consumed exactly |
| Parsing.LiteralMismatch | tests/integration/error.rs:56-58 | `parse_literal(b"a", b"b")` is `InvalidLiteral` |
| Parsing.ComponentStep | tests/integration/parsed.rs:114-123 | fails, naming the component, exactly when the component reads nothing; otherwise leaves what the read leaves and stores the value read in the component's own field |
| Parsing.ComponentStepFrame | tests/integration/parsed.rs:114-123 | a component changes no field but its own |
| Parsing.RunItem | tests/integration/parsed.rs:99-102 | running one item leaves a suffix of the input |
| Parsing.RunItems | tests/integration/parsed.rs:99-102 | running items leaves a suffix of the input; no items read nothing and change nothing |
| Parsing.RunItemFrame | tests/integration/parsed.rs:99-102 | a successful item leaves a suffix of its input and changes no field its components do not write |
| Parsing.RunItemsFrame | tests/integration/parsed.rs:99-102 | a successful item list leaves a suffix of its input and changes no field its components do not write |
| Parsing.RunItemsAppend | tests/integration/parsed.rs:99-102 | running two item lists one after the other is running their concatenation |
| Parsing.CompoundIsSequence | tests/integration/parsed.rs:99-102 | a compound item is its items run in sequence |
| Parsing.Parsed.constructor | tests/integration/parsed.rs:12 | `Parsed::new` has every field unset |
| Parsing.Parsed.SetYear | tests/integration/parsed.rs:19 | the setter sets its own field to the value and leaves the other nineteen unchanged |
| Parsing.Parsed.SetYearLastTwo | tests/integration/parsed.rs:20 | the setter sets its own field to the value and leaves the other nineteen unchanged |
| Parsing.Parsed.SetIsoYear | tests/integration/parsed.rs:21 | the setter sets its own field to the value and leaves the other nineteen unchanged |
| Parsing.Parsed.SetIsoYearLastTwo | tests/integration/parsed.rs:22 | the setter sets its own field to the value and leaves the other nineteen unchanged |
| Parsing.Parsed.SetMonth | tests/integration/parsed.rs:23 | the setter sets its own field to the value and leaves the other nineteen unchanged |
| Parsing.Parsed.SetSundayWeekNumber | tests/integration/parsed.rs:24 | the setter sets its own field to the value and leaves the other nineteen unchanged |
| Parsing.Parsed.SetMondayWeekNumber | tests/integration/parsed.rs:25 | the setter sets its own field to the value and leaves the other nineteen unchanged |
| Parsing.Parsed.SetIsoWeekNumber | tests/integration/parsed.rs:26 | the setter sets its own field to the value and leaves the other nineteen unchanged |
| Parsing.Parsed.SetWeekday | tests/integration/parsed.rs:27 | the setter sets its own field to the value and leaves the other nineteen unchanged |
| Parsing.Parsed.SetOrdinal | tests/integration/parsed.rs:28 | the setter sets its own field to the value and leaves the other nineteen unchanged |
| Parsing.Parsed.SetDay | tests/integration/parsed.rs:29 | the setter sets its own field to the value and leaves the other nineteen unchanged |
| Parsing.Parsed.SetHour24 | tests/integration/parsed.rs:30 | the setter sets its own field to the value and leaves the other nineteen unchanged |
| Parsing.Parsed.SetHour12 | tests/integration/parsed.rs:31 | the setter sets its own field to the value and leaves the other nineteen unchanged |
| Parsing.Parsed.SetHour12IsPm | tests/integration/parsed.rs:32 | the setter sets its own field to the value and leaves the other nineteen unchanged |
| Parsing.Parsed.SetMinute | tests/integration/parsed.rs:33 | the setter sets its own field to the value and leaves the other nineteen unchanged |
| Parsing.Parsed.SetSecond | tests/integration/parsed.rs:34 | the setter sets its own field to the value and leaves the other nineteen unchanged |
| Parsing.Parsed.SetSubsecond | tests/integration/parsed.rs:35 | the setter sets its own field to the value and leaves the other nineteen unchanged |
| Parsing.Parsed.SetOffsetHour | tests/integration/parsed.rs:36 | the setter sets its own field to the value and leaves the other nineteen unchanged |
| Parsing.Parsed.SetOffsetMinute | tests/integration/parsed.rs:37 | the setter sets its own field to the value and leaves the other nineteen unchanged |
| Parsing.Parsed.SetOffsetSecond | tests/integration/parsed.rs:38 | the setter sets its own field to the value and leaves the other nineteen unchanged |
| Parsing.Parsed.Store | tests/integration/parsed.rs:12-14 | the setter chosen by field name sets that field and nothing else |
| Parsing.Parsed.ParseComponent | tests/integration/parsed.rs:116-122 | on failure, the component-naming error and no change; on success, the rest of the input and only the component's field set |
| Parsing.Parsed.ParseItem | tests/integration/parsed.rs:99-102 | the item runs as its specification says; on failure the accumulator is unchanged |
| Parsing.Parsed.ParseItems | tests/integration/parsed.rs:99-102 | the items run in order; the first failure is returned with the accumulator unchanged, otherwise every field the items set is stored |
| Parsing.SetThenRead | tests/integration/parsed.rs:12-14 | on a new `Parsed`, a setter then the matching getter gives back exactly the value set |
| Parsing.ComponentOnEmptyInput | tests/integration/parsed.rs:126-138 | on a new `Parsed`, every component fails on empty input with `InvalidComponent` naming it |
| Parsing.ZeroRejected | tests/integration/parsed.rs:140-153 | `00` fails as "week number" for an ISO week and as "hour" on the 12-hour clock |
| Parsing.HourOf | tests/integration/macros.rs:140-143 | the 24-hour field wins; otherwise the 12-hour field and its AM/PM flag, both required, give the hour by the 12-hour rule |
| Parsing.TimeFromFields | tests/integration/parsed.rs:99-100 | missing hour or minute is exactly `InsufficientInformation`; otherwise a time is produced exactly when hour, minute, second and nanosecond are in range (second and subsecond defaulting to 0), it holds those fields, and a failure names the first field out of range with its value |
| Parsing.TimeFromFieldsRoundTrip | tests/integration/macros.rs:140-143 | every time of day is recovered from its fields, with the hour given on either clock |
| Parsing.Hour24Wins | tests/integration/macros.rs:140-143 | when both are set, the 24-hour field decides the hour |
| Parsing.NothingResolves | tests/integration/parsed.rs:99-100 | a new `Parsed` resolves to `InsufficientInformation` |
| Parsing.ParseFields | tests/integration/error.rs:44-46 | success means the item ran on a new `Parsed` and used all the input; an item error is reported as such; input left over is `UnexpectedTrailingCharacters` |
| Parsing.TimeParse | tests/integration/parsed.rs:99-102 | a time is returned exactly when the item consumes all the input and the fields resolve, and it is the resolved time; an item error and a resolution error are passed on, wrapped in `Parse` |
| Parsing.ParseTime | tests/integration/parsed.rs:99-102 | `Time::parse` with one item, run on a `Parsed` object, gives what the specification of parsing and resolution says |
| Parsing.LoneLiteralFails | tests/integration/parsed.rs:99-102 | with a lone literal no input gives a time: exact input leaves nothing to resolve, longer input is trailing characters, and anything else is an invalid literal |
| Parsing.LoneLiteralMatches | tests/integration/parsed.rs:100 | parsing "a" with the literal "a" fails: nothing is known to resolve a time from |
| Parsing.LoneLiteralMismatch | tests/integration/parsed.rs:101 | parsing "b" with the literal "a" fails as an invalid literal |
| Parsing.TrailingInput | tests/integration/error.rs:44-46 | parsing "a" against an empty description fails with `UnexpectedTrailingCharacters` |

## Left out

- Rust string-literal escapes inside `format_description!` (`\x4E`, `\u{..}`, line continuations) belong to the macro's lexer, not to the description grammar. They are not modelled.
- Compile-time evaluation of the macros (`format_description!`, `time!`, `date!`): the model compiles descriptions at run time, with the same grammar.
- ISO week dates (`date!(2019-W 01-1)`) and the resolution of a `Date` from `Parsed` are not modelled. The calendar only checks ordinal dates and times of day, and the `large-dates` feature is not modelled.
- Formatting (`Time::format`, RFC 3339 rendering) is not modelled. Only its error values appear: insufficient type information, invalid component, I/O.
- `io::Error::last_os_error` and all platform I/O. An I/O failure is an opaque value with a display text.
- `Debug` output, lifetimes, and the `dyn Error` downcasting machinery. `is::<T>()` becomes a test of the cause's tag.
- Non-ASCII descriptions: characters are not decoded from UTF-8. A multi-byte character would count as several bytes in the crate and as one here.
- Parsing.TimeParse: only `Time::parse` with a single item is modelled. Parsing into other types, and with a slice of items as the top-level description, is not modelled.
- Parsing.Parsed.SetHour12: like every setter, it stores any value of the field's Rust type without a range check, as the crate's setters do.
- Parsing.HourOf: `ClockHour` works on unbounded integers. A 12-hour value above 243, which only a direct setter call can store, would overflow a `u8` in `hour + 12`; the model does not capture that overflow.
- ParsedFields.WithYear: like every `with_*` builder, it always succeeds. The value-range checks the crate may apply to builder arguments are not modelled.
- ComponentParse.Subsecond: digits after the ninth are consumed and ignored. This is a truncation, not a rounding.
- DescriptionParse.ParseModifiers: makes two choices of its own. An `InvalidModifier` error carries the index of the first byte of the rejected token, which is what the `[day bar]` case pins down; for other layouts (for example `[day bar ]`) the crate may report a different byte. Whitespace between tokens is ASCII whitespace (space, tab, line feed, form feed, carriage return). This excludes U+000B and the non-ASCII spaces that Rust's `char::is_whitespace` accepts.

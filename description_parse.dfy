/** `time::format_description::parse`: the compiler from a description such as
    `[year]-[month repr:short]` to a sequence of `FormatItem`s. Positions are
    byte indices into the whole description, as in the error values. */
module DescriptionParse {
  import opened Wrappers
  import opened Primitives
  import M = Modifier
  import opened FormatDescription
  import E = Errors

  // ---- Modifier settings: one `key:value` token each ----

  /** The effect of one modifier token: which field it sets, to what value. */
  datatype Setting =
    | SetPadding(padding: M.Padding)
    | SetClock(is12HourClock: bool)
    | SetCaseSensitive(caseSensitive: bool)
    | SetMonthRepr(monthRepr: M.MonthRepr)
    | SetPeriodCase(isUppercase: bool)
    | SetDigits(digits: M.SubsecondDigits)
    | SetWeekdayRepr(weekdayRepr: M.WeekdayRepr)
    | SetOneIndexed(oneIndexed: bool)
    | SetWeekNumberRepr(weekNumberRepr: M.WeekNumberRepr)
    | SetSign(signIsMandatory: bool)
    | SetYearBase(isoWeekBased: bool)
    | SetYearRepr(yearRepr: M.YearRepr)

  /** The modifier keys, the part of a token before the colon. */
  datatype KeyName = PaddingKey | ReprKey | CaseSensitiveKey | CaseKey | DigitsKey | OneIndexedKey | SignKey | BaseKey

  function KeyText(k: KeyName): string
  {
    match k
    case PaddingKey => "padding"
    case ReprKey => "repr"
    case CaseSensitiveKey => "case_sensitive"
    case CaseKey => "case"
    case DigitsKey => "digits"
    case OneIndexedKey => "one_indexed"
    case SignKey => "sign"
    case BaseKey => "base"
  }

  /** The key of a setting: every representation choice shares `repr`. */
  function KeyOf(s: Setting): KeyName
  {
    match s
    case SetPadding(_) => PaddingKey
    case SetClock(_) => ReprKey
    case SetCaseSensitive(_) => CaseSensitiveKey
    case SetMonthRepr(_) => ReprKey
    case SetPeriodCase(_) => CaseKey
    case SetDigits(_) => DigitsKey
    case SetWeekdayRepr(_) => ReprKey
    case SetOneIndexed(_) => OneIndexedKey
    case SetWeekNumberRepr(_) => ReprKey
    case SetSign(_) => SignKey
    case SetYearBase(_) => BaseKey
    case SetYearRepr(_) => ReprKey
  }

  function Key(s: Setting): string
  {
    KeyText(KeyOf(s))
  }

  /** The part of a token after the colon. */
  function ValueText(s: Setting): string
  {
    match s
    case SetPadding(p) => (match p case Space => "space" case Zero => "zero" case None => "none")
    case SetClock(b) => if b then "12" else "24"
    case SetCaseSensitive(b) => if b then "true" else "false"
    case SetMonthRepr(r) => (match r case Numerical => "numerical" case Long => "long" case Short => "short")
    case SetPeriodCase(b) => if b then "upper" else "lower"
    case SetDigits(d) =>
      (match d
       case One => "1" case Two => "2" case Three => "3" case Four => "4" case Five => "5"
       case Six => "6" case Seven => "7" case Eight => "8" case Nine => "9" case OneOrMore => "1+")
    case SetWeekdayRepr(r) =>
      (match r case Short => "short" case Long => "long" case Sunday => "sunday" case Monday => "monday")
    case SetOneIndexed(b) => if b then "true" else "false"
    case SetWeekNumberRepr(r) => (match r case Iso => "iso" case Sunday => "sunday" case Monday => "monday")
    case SetSign(b) => if b then "mandatory" else "automatic"
    case SetYearBase(b) => if b then "iso_week" else "calendar"
    case SetYearRepr(r) => (match r case Full => "full" case LastTwo => "last_two")
  }

  /** The modifier token that denotes `s`. */
  function Token(s: Setting): string
  {
    Key(s) + ":" + ValueText(s)
  }

  const PaddingSettings: seq<Setting> :=
    [SetPadding(M.Space), SetPadding(M.Zero), SetPadding(M.Padding.None)]
  const ClockSettings: seq<Setting> := [SetClock(false), SetClock(true)]
  const CaseSensitiveSettings: seq<Setting> := [SetCaseSensitive(true), SetCaseSensitive(false)]
  const MonthReprSettings: seq<Setting> :=
    [SetMonthRepr(M.MonthRepr.Numerical), SetMonthRepr(M.MonthRepr.Long), SetMonthRepr(M.MonthRepr.Short)]
  const PeriodCaseSettings: seq<Setting> := [SetPeriodCase(true), SetPeriodCase(false)]
  const DigitsSettings: seq<Setting> :=
    [SetDigits(M.One), SetDigits(M.Two), SetDigits(M.Three), SetDigits(M.Four), SetDigits(M.Five),
     SetDigits(M.Six), SetDigits(M.Seven), SetDigits(M.Eight), SetDigits(M.Nine), SetDigits(M.OneOrMore)]
  const WeekdayReprSettings: seq<Setting> :=
    [SetWeekdayRepr(M.WeekdayRepr.Short), SetWeekdayRepr(M.WeekdayRepr.Long),
     SetWeekdayRepr(M.WeekdayRepr.Sunday), SetWeekdayRepr(M.WeekdayRepr.Monday)]
  const OneIndexedSettings: seq<Setting> := [SetOneIndexed(true), SetOneIndexed(false)]
  const WeekNumberReprSettings: seq<Setting> :=
    [SetWeekNumberRepr(M.WeekNumberRepr.Iso), SetWeekNumberRepr(M.WeekNumberRepr.Sunday),
     SetWeekNumberRepr(M.WeekNumberRepr.Monday)]
  const SignSettings: seq<Setting> := [SetSign(false), SetSign(true)]
  const YearBaseSettings: seq<Setting> := [SetYearBase(false), SetYearBase(true)]
  const YearReprSettings: seq<Setting> := [SetYearRepr(M.Full), SetYearRepr(M.LastTwo)]

  /** The modifiers a component kind accepts; any other token is invalid for it. */
  function SettingsFor(c: Component): seq<Setting>
  {
    match c
    case Day(_) => PaddingSettings
    case Month(_) => PaddingSettings + CaseSensitiveSettings + MonthReprSettings
    case Ordinal(_) => PaddingSettings
    case Weekday(_) => WeekdayReprSettings + OneIndexedSettings + CaseSensitiveSettings
    case WeekNumber(_) => PaddingSettings + WeekNumberReprSettings
    case Year(_) => PaddingSettings + YearReprSettings + YearBaseSettings + SignSettings
    case Hour(_) => PaddingSettings + ClockSettings
    case Minute(_) => PaddingSettings
    case Period(_) => PeriodCaseSettings + CaseSensitiveSettings
    case Second(_) => PaddingSettings
    case Subsecond(_) => DigitsSettings
    case OffsetHour(_) => PaddingSettings + SignSettings
    case OffsetMinute(_) => PaddingSettings
    case OffsetSecond(_) => PaddingSettings
  }

  /** Overwrite the field of `c` that `s` addresses (no change when `c` has no such field). */
  function Apply(c: Component, s: Setting): Component
  {
    match c
    case Day(m) => if s.SetPadding? then Day(m.(padding := s.padding)) else c
    case Month(m) =>
      if s.SetPadding? then Month(m.(padding := s.padding))
      else if s.SetCaseSensitive? then Month(m.(caseSensitive := s.caseSensitive))
      else if s.SetMonthRepr? then Month(m.(repr := s.monthRepr))
      else c
    case Ordinal(m) => if s.SetPadding? then Ordinal(m.(padding := s.padding)) else c
    case Weekday(m) =>
      if s.SetWeekdayRepr? then Weekday(m.(repr := s.weekdayRepr))
      else if s.SetOneIndexed? then Weekday(m.(oneIndexed := s.oneIndexed))
      else if s.SetCaseSensitive? then Weekday(m.(caseSensitive := s.caseSensitive))
      else c
    case WeekNumber(m) =>
      if s.SetPadding? then WeekNumber(m.(padding := s.padding))
      else if s.SetWeekNumberRepr? then WeekNumber(m.(repr := s.weekNumberRepr))
      else c
    case Year(m) =>
      if s.SetPadding? then Year(m.(padding := s.padding))
      else if s.SetYearRepr? then Year(m.(repr := s.yearRepr))
      else if s.SetYearBase? then Year(m.(isoWeekBased := s.isoWeekBased))
      else if s.SetSign? then Year(m.(signIsMandatory := s.signIsMandatory))
      else c
    case Hour(m) =>
      if s.SetPadding? then Hour(m.(padding := s.padding))
      else if s.SetClock? then Hour(m.(is12HourClock := s.is12HourClock))
      else c
    case Minute(m) => if s.SetPadding? then Minute(m.(padding := s.padding)) else c
    case Period(m) =>
      if s.SetPeriodCase? then Period(m.(isUppercase := s.isUppercase))
      else if s.SetCaseSensitive? then Period(m.(caseSensitive := s.caseSensitive))
      else c
    case Second(m) => if s.SetPadding? then Second(m.(padding := s.padding)) else c
    case Subsecond(m) => if s.SetDigits? then Subsecond(m.(digits := s.digits)) else c
    case OffsetHour(m) =>
      if s.SetPadding? then OffsetHour(m.(padding := s.padding))
      else if s.SetSign? then OffsetHour(m.(signIsMandatory := s.signIsMandatory))
      else c
    case OffsetMinute(m) => if s.SetPadding? then OffsetMinute(m.(padding := s.padding)) else c
    case OffsetSecond(m) => if s.SetPadding? then OffsetSecond(m.(padding := s.padding)) else c
  }

  /** The current value of the field of `c` that `s` addresses, as a setting
      (`s` itself when `c` has no such field). */
  function Read(c: Component, s: Setting): Setting
  {
    match c
    case Day(m) => if s.SetPadding? then SetPadding(m.padding) else s
    case Month(m) =>
      if s.SetPadding? then SetPadding(m.padding)
      else if s.SetCaseSensitive? then SetCaseSensitive(m.caseSensitive)
      else if s.SetMonthRepr? then SetMonthRepr(m.repr)
      else s
    case Ordinal(m) => if s.SetPadding? then SetPadding(m.padding) else s
    case Weekday(m) =>
      if s.SetWeekdayRepr? then SetWeekdayRepr(m.repr)
      else if s.SetOneIndexed? then SetOneIndexed(m.oneIndexed)
      else if s.SetCaseSensitive? then SetCaseSensitive(m.caseSensitive)
      else s
    case WeekNumber(m) =>
      if s.SetPadding? then SetPadding(m.padding)
      else if s.SetWeekNumberRepr? then SetWeekNumberRepr(m.repr)
      else s
    case Year(m) =>
      if s.SetPadding? then SetPadding(m.padding)
      else if s.SetYearRepr? then SetYearRepr(m.repr)
      else if s.SetYearBase? then SetYearBase(m.isoWeekBased)
      else if s.SetSign? then SetSign(m.signIsMandatory)
      else s
    case Hour(m) =>
      if s.SetPadding? then SetPadding(m.padding)
      else if s.SetClock? then SetClock(m.is12HourClock)
      else s
    case Minute(m) => if s.SetPadding? then SetPadding(m.padding) else s
    case Period(m) =>
      if s.SetPeriodCase? then SetPeriodCase(m.isUppercase)
      else if s.SetCaseSensitive? then SetCaseSensitive(m.caseSensitive)
      else s
    case Second(m) => if s.SetPadding? then SetPadding(m.padding) else s
    case Subsecond(m) => if s.SetDigits? then SetDigits(m.digits) else s
    case OffsetHour(m) =>
      if s.SetPadding? then SetPadding(m.padding)
      else if s.SetSign? then SetSign(m.signIsMandatory)
      else s
    case OffsetMinute(m) => if s.SetPadding? then SetPadding(m.padding) else s
    case OffsetSecond(m) => if s.SetPadding? then SetPadding(m.padding) else s
  }

  /** A row of a modifier table: the token text and the setting it denotes. */
  datatype Entry = Entry(token: string, setting: Setting)

  /** The setting of each row, in order. */
  function SettingsOf(rows: seq<Entry>): seq<Setting>
  {
    if rows == [] then [] else [rows[0].setting] + SettingsOf(rows[1..])
  }

  /** The first of two lookups that succeeds. */
  function OrElse(a: Option<Setting>, b: Option<Setting>): Option<Setting>
  {
    if a.Some? then a else b
  }

  // The tokens of each field, spelled out as the compiler matches them.

  function PaddingLookup(tok: string): Option<Setting>
  {
    if tok == "padding:space" then Some(SetPadding(M.Space))
    else if tok == "padding:zero" then Some(SetPadding(M.Zero))
    else if tok == "padding:none" then Some(SetPadding(M.Padding.None))
    else None
  }

  function ClockLookup(tok: string): Option<Setting>
  {
    if tok == "repr:24" then Some(SetClock(false))
    else if tok == "repr:12" then Some(SetClock(true))
    else None
  }

  function CaseSensitiveLookup(tok: string): Option<Setting>
  {
    if tok == "case_sensitive:true" then Some(SetCaseSensitive(true))
    else if tok == "case_sensitive:false" then Some(SetCaseSensitive(false))
    else None
  }

  function MonthReprLookup(tok: string): Option<Setting>
  {
    if tok == "repr:numerical" then Some(SetMonthRepr(M.MonthRepr.Numerical))
    else if tok == "repr:long" then Some(SetMonthRepr(M.MonthRepr.Long))
    else if tok == "repr:short" then Some(SetMonthRepr(M.MonthRepr.Short))
    else None
  }

  function PeriodCaseLookup(tok: string): Option<Setting>
  {
    if tok == "case:upper" then Some(SetPeriodCase(true))
    else if tok == "case:lower" then Some(SetPeriodCase(false))
    else None
  }

  function DigitsLookup(tok: string): Option<Setting>
  {
    if tok == "digits:1" then Some(SetDigits(M.One))
    else if tok == "digits:2" then Some(SetDigits(M.Two))
    else if tok == "digits:3" then Some(SetDigits(M.Three))
    else if tok == "digits:4" then Some(SetDigits(M.Four))
    else if tok == "digits:5" then Some(SetDigits(M.Five))
    else if tok == "digits:6" then Some(SetDigits(M.Six))
    else if tok == "digits:7" then Some(SetDigits(M.Seven))
    else if tok == "digits:8" then Some(SetDigits(M.Eight))
    else if tok == "digits:9" then Some(SetDigits(M.Nine))
    else if tok == "digits:1+" then Some(SetDigits(M.OneOrMore))
    else None
  }

  function WeekdayReprLookup(tok: string): Option<Setting>
  {
    if tok == "repr:short" then Some(SetWeekdayRepr(M.WeekdayRepr.Short))
    else if tok == "repr:long" then Some(SetWeekdayRepr(M.WeekdayRepr.Long))
    else if tok == "repr:sunday" then Some(SetWeekdayRepr(M.WeekdayRepr.Sunday))
    else if tok == "repr:monday" then Some(SetWeekdayRepr(M.WeekdayRepr.Monday))
    else None
  }

  function OneIndexedLookup(tok: string): Option<Setting>
  {
    if tok == "one_indexed:true" then Some(SetOneIndexed(true))
    else if tok == "one_indexed:false" then Some(SetOneIndexed(false))
    else None
  }

  function WeekNumberReprLookup(tok: string): Option<Setting>
  {
    if tok == "repr:iso" then Some(SetWeekNumberRepr(M.WeekNumberRepr.Iso))
    else if tok == "repr:sunday" then Some(SetWeekNumberRepr(M.WeekNumberRepr.Sunday))
    else if tok == "repr:monday" then Some(SetWeekNumberRepr(M.WeekNumberRepr.Monday))
    else None
  }

  function SignLookup(tok: string): Option<Setting>
  {
    if tok == "sign:automatic" then Some(SetSign(false))
    else if tok == "sign:mandatory" then Some(SetSign(true))
    else None
  }

  function YearBaseLookup(tok: string): Option<Setting>
  {
    if tok == "base:calendar" then Some(SetYearBase(false))
    else if tok == "base:iso_week" then Some(SetYearBase(true))
    else None
  }

  function YearReprLookup(tok: string): Option<Setting>
  {
    if tok == "repr:full" then Some(SetYearRepr(M.Full))
    else if tok == "repr:last_two" then Some(SetYearRepr(M.LastTwo))
    else None
  }

  /** The setting the modifier token `tok` denotes for a component of `c`'s
      kind, if the kind accepts it. */
  function LookupFor(c: Component, tok: string): (r: Option<Setting>)
    ensures r.Some? ==> r.value in SettingsFor(c)
  {
    match c
    case Day(_) => PaddingLookup(tok)
    case Month(_) => OrElse(PaddingLookup(tok), OrElse(CaseSensitiveLookup(tok), MonthReprLookup(tok)))
    case Ordinal(_) => PaddingLookup(tok)
    case Weekday(_) => OrElse(WeekdayReprLookup(tok), OrElse(OneIndexedLookup(tok), CaseSensitiveLookup(tok)))
    case WeekNumber(_) => OrElse(PaddingLookup(tok), WeekNumberReprLookup(tok))
    case Year(_) => OrElse(PaddingLookup(tok), OrElse(YearReprLookup(tok), OrElse(YearBaseLookup(tok), SignLookup(tok))))
    case Hour(_) => OrElse(PaddingLookup(tok), ClockLookup(tok))
    case Minute(_) => PaddingLookup(tok)
    case Period(_) => OrElse(PeriodCaseLookup(tok), CaseSensitiveLookup(tok))
    case Second(_) => PaddingLookup(tok)
    case Subsecond(_) => DigitsLookup(tok)
    case OffsetHour(_) => OrElse(PaddingLookup(tok), SignLookup(tok))
    case OffsetMinute(_) => PaddingLookup(tok)
    case OffsetSecond(_) => PaddingLookup(tok)
  }

  /** The settings of `ss`, applied left to right to `c`: a later setting of
      the same field overrides an earlier one. */
  function ApplyAll(c: Component, ss: seq<Setting>): (r: Component)
    ensures SameKind(r, c) && SettingsFor(r) == SettingsFor(c)
    decreases |ss|
  {
    if ss == [] then c
    else
      ApplyKeepsKind(c, ss[0]);
      ApplyAll(Apply(c, ss[0]), ss[1..])
  }

  /** The component a name denotes, with every modifier at its default
      (`NameRoundTrip`, `NameSound` and `NameUnknown` relate it to `Name`). */
  function ComponentFromName(name: string): (r: Option<Component>)
    ensures r.Some? ==> r.value == DefaultOf(r.value)
  {
    if name == "day" then Some(Day(M.DefaultDay))
    else if name == "month" then Some(Month(M.DefaultMonth))
    else if name == "ordinal" then Some(Ordinal(M.DefaultOrdinal))
    else if name == "weekday" then Some(Weekday(M.DefaultWeekday))
    else if name == "week_number" then Some(WeekNumber(M.DefaultWeekNumber))
    else if name == "year" then Some(Year(M.DefaultYear))
    else if name == "hour" then Some(Hour(M.DefaultHour))
    else if name == "minute" then Some(Minute(M.DefaultMinute))
    else if name == "period" then Some(Period(M.DefaultPeriod))
    else if name == "second" then Some(Second(M.DefaultSecond))
    else if name == "subsecond" then Some(Subsecond(M.DefaultSubsecond))
    else if name == "offset_hour" then Some(OffsetHour(M.DefaultOffsetHour))
    else if name == "offset_minute" then Some(OffsetMinute(M.DefaultOffsetMinute))
    else if name == "offset_second" then Some(OffsetSecond(M.DefaultOffsetSecond))
    else None
  }

  /** Every kind's name denotes that kind with its defaults. */
  lemma NameRoundTrip(c: Component)
    ensures ComponentFromName(Name(c)) == Some(DefaultOf(c))
  {
    match c {
      case Day(_) => assert Name(c) == "day";
      case Month(_) => assert Name(c) == "month";
      case Ordinal(_) => assert Name(c) == "ordinal";
      case Weekday(_) => assert Name(c) == "weekday";
      case WeekNumber(_) => assert Name(c) == "week_number";
      case Year(_) => assert Name(c) == "year";
      case Hour(_) => assert Name(c) == "hour";
      case Minute(_) => assert Name(c) == "minute";
      case Period(_) => assert Name(c) == "period";
      case Second(_) => assert Name(c) == "second";
      case Subsecond(_) => assert Name(c) == "subsecond";
      case OffsetHour(_) => assert Name(c) == "offset_hour";
      case OffsetMinute(_) => assert Name(c) == "offset_minute";
      case OffsetSecond(_) => assert Name(c) == "offset_second";
    }
  }

  /** Only the name of a kind denotes a component of that kind. */
  lemma NameBorne(name: string)
    ensures ComponentFromName(name).Some? ==> Name(ComponentFromName(name).value) == name
  {
    if name == "day" {
      assert Name(Day(M.DefaultDay)) == name;
    }
    else if name == "month" {
      assert Name(Month(M.DefaultMonth)) == name;
    }
    else if name == "ordinal" {
      assert Name(Ordinal(M.DefaultOrdinal)) == name;
    }
    else if name == "weekday" {
      assert Name(Weekday(M.DefaultWeekday)) == name;
    }
    else if name == "week_number" {
      assert Name(WeekNumber(M.DefaultWeekNumber)) == name;
    }
    else if name == "year" {
      assert Name(Year(M.DefaultYear)) == name;
    }
    else if name == "hour" {
      assert Name(Hour(M.DefaultHour)) == name;
    }
    else if name == "minute" {
      assert Name(Minute(M.DefaultMinute)) == name;
    }
    else if name == "period" {
      assert Name(Period(M.DefaultPeriod)) == name;
    }
    else if name == "second" {
      assert Name(Second(M.DefaultSecond)) == name;
    }
    else if name == "subsecond" {
      assert Name(Subsecond(M.DefaultSubsecond)) == name;
    }
    else if name == "offset_hour" {
      assert Name(OffsetHour(M.DefaultOffsetHour)) == name;
    }
    else if name == "offset_minute" {
      assert Name(OffsetMinute(M.DefaultOffsetMinute)) == name;
    }
    else if name == "offset_second" {
      assert Name(OffsetSecond(M.DefaultOffsetSecond)) == name;
    }
  }

  /** A name denotes the default component of the kind that bears it. */
  lemma NameSound(name: string)
    ensures ComponentFromName(name).Some? ==>
      Name(ComponentFromName(name).value) == name && ComponentFromName(name).value == DefaultOf(ComponentFromName(name).value)
  {
    NameBorne(name);
    if ComponentFromName(name).Some? {
      NameRoundTrip(ComponentFromName(name).value);
    }
  }

  /** A name no kind bears denotes nothing. */
  lemma NameUnknown(name: string, c: Component)
    ensures ComponentFromName(name).None? ==> Name(c) != name
  {
    NameRoundTrip(c);
  }

  // ---- Scanning ----

  /** The first position at or after `from` holding `b`, or `|s|` when there is none. */
  function Find(s: string, from: nat, b: char): (r: nat)
    requires from <= |s|
    ensures from <= r <= |s|
    ensures r < |s| ==> s[r] == b
    decreases |s| - from
  {
    if from == |s| || s[from] == b then from else Find(s, from + 1, b)
  }

  /** The first position in `[i, end)` that is not ASCII whitespace, or `end`. */
  function SkipWhitespace(s: string, i: nat, end: nat): (r: nat)
    requires i <= end <= |s|
    ensures i <= r <= end
    ensures r < end ==> !IsAsciiWhitespace(s[r])
    decreases end - i
  {
    if i == end || !IsAsciiWhitespace(s[i]) then i else SkipWhitespace(s, i + 1, end)
  }

  /** The first position in `[i, end)` that is ASCII whitespace, or `end`. */
  function TokenEnd(s: string, i: nat, end: nat): (r: nat)
    requires i <= end <= |s|
    ensures i <= r <= end
    ensures r < end ==> IsAsciiWhitespace(s[r])
    decreases end - i
  {
    if i == end || IsAsciiWhitespace(s[i]) then i else TokenEnd(s, i + 1, end)
  }

  /** Nothing before the position `Find` returns holds `b`. */
  lemma {:induction false} FindSkips(s: string, from: nat, b: char)
    requires from <= |s|
    ensures forall k :: from <= k < Find(s, from, b) ==> s[k] != b
    decreases |s| - from
  {
    if from < |s| && s[from] != b {
      FindSkips(s, from + 1, b);
    }
  }

  /** Everything `SkipWhitespace` passes over is whitespace. */
  lemma {:induction false} SkipWhitespaceSkips(s: string, i: nat, end: nat)
    requires i <= end <= |s|
    ensures forall k :: i <= k < SkipWhitespace(s, i, end) ==> IsAsciiWhitespace(s[k])
    decreases end - i
  {
    if i < end && IsAsciiWhitespace(s[i]) {
      SkipWhitespaceSkips(s, i + 1, end);
    }
  }

  /** A token holds no whitespace. */
  lemma {:induction false} TokenEndSkips(s: string, i: nat, end: nat)
    requires i <= end <= |s|
    ensures forall k :: i <= k < TokenEnd(s, i, end) ==> !IsAsciiWhitespace(s[k])
    decreases end - i
  {
    if i < end && !IsAsciiWhitespace(s[i]) {
      TokenEndSkips(s, i + 1, end);
    }
  }

  // ---- The compiler ----

  /** What the compiler consults besides the text: the component each name
      denotes, and for each component the setting each modifier token
      denotes. */
  datatype Tables = Tables(names: string -> Option<Component>, modifiers: (Component, string) -> Option<Setting>)

  /** The tables `time` compiles with. */
  const Builtin: Tables := Tables(ComponentFromName, LookupFor)

  /** The whitespace-separated modifier tokens of `s[i..end]`, each looked up
      among the modifiers of `c`; the first token `c` does not accept is
      reported with the index of its first byte. */
  function ParseModifiers(s: string, i: nat, end: nat, t: Tables, c: Component): (r: Result<seq<Setting>, E.InvalidFormatDescription>)
    requires i <= end <= |s|
    ensures r.Err? ==> r.error.InvalidModifier? && i <= r.error.index < end
    decreases end - i
  {
    var start := SkipWhitespace(s, i, end);
    if start == end then Ok([])
    else
      var stop := TokenEnd(s, start, end);
      match t.modifiers(c, s[start..stop])
      case None => Err(E.InvalidModifier(s[start..stop], start))
      case Some(st) =>
        var rest :- ParseModifiers(s, stop, end, t, c);
        Ok([st] + rest)
  }

  /** The component written between the brackets at `open - 1` and `close`:
      its name, then its modifiers, applied to the kind's defaults. */
  function ParseComponent(s: string, open: nat, close: nat, t: Tables): (r: Result<Component, E.InvalidFormatDescription>)
    requires open <= close <= |s|
    ensures r.Err? ==> !r.error.UnclosedOpeningBracket? && open <= r.error.index <= close
  {
    var nameStart := SkipWhitespace(s, open, close);
    var nameEnd := TokenEnd(s, nameStart, close);
    var name := s[nameStart..nameEnd];
    if name == [] then Err(E.MissingComponentName(nameStart))
    else match t.names(name)
      case None => Err(E.InvalidComponentName(name, nameStart))
      case Some(c) =>
        var settings :- ParseModifiers(s, nameEnd, close, t, c);
        Ok(ApplyAll(c, settings))
  }

  /** One compiled item and the position just after its text. */
  datatype Step = Step(item: FormatItem, next: nat)

  /** Compile the item that starts at `i`: the `[[` escape, a bracketed
      component, or a literal running up to the next `[`. */
  function ParseItem(s: string, i: nat, t: Tables): (r: Result<Step, E.InvalidFormatDescription>)
    requires i < |s|
    ensures r.Ok? ==> i < r.value.next <= |s| && !r.value.item.Compound?
    ensures r.Ok? && r.value.item.Literal? ==> r.value.item.bytes != []
    ensures r.Err? ==> i <= r.error.index < |s|
    ensures r.Err? && r.error.UnclosedOpeningBracket? ==> r.error.index == i
  {
    if s[i] == '[' then
      if i + 1 < |s| && s[i + 1] == '[' then Ok(Step(Literal("["), i + 2))
      else
        var close := Find(s, i + 1, ']');
        if close == |s| then Err(E.UnclosedOpeningBracket(i))
        else
          var c :- ParseComponent(s, i + 1, close, t);
          Ok(Step(FormatItem.Component(c), close + 1))
    else
      var j := Find(s, i, '[');
      Ok(Step(Literal(s[i..j]), j))
  }

  /** Compile `s[i..]` item by item, stopping at the first error. */
  function ParseFrom(s: string, i: nat, t: Tables): (r: Result<seq<FormatItem>, E.InvalidFormatDescription>)
    requires i <= |s|
    ensures r.Ok? ==> |r.value| <= |s| - i
    ensures r.Ok? ==> forall k :: 0 <= k < |r.value| ==> !r.value[k].Compound?
    ensures r.Err? ==> i <= r.error.index < |s|
    decreases |s| - i
  {
    if i == |s| then Ok([])
    else
      var st :- ParseItem(s, i, t);
      var rest :- ParseFrom(s, st.next, t);
      Ok([st.item] + rest)
  }

  /** `format_description::parse`. */
  function Parse(s: string): (r: Result<seq<FormatItem>, E.InvalidFormatDescription>)
    ensures r.Ok? ==> |r.value| <= |s|
    ensures r.Err? ==> r.error.index < |s|
  {
    ParseFrom(s, 0, Builtin)
  }

  // ---- Characters of names and tokens ----

  predicate WordChar(ch: char)
  {
    'a' <= ch <= 'z' || '0' <= ch <= '9' || ch == '_' || ch == ':' || ch == '+'
  }

  /** A non-empty run of characters that are neither whitespace nor brackets. */
  predicate IsWord(w: string)
  {
    w != [] && forall k :: 0 <= k < |w| ==> WordChar(w[k])
  }

  lemma WordConcat(a: string, b: string)
    requires IsWord(a) && IsWord(b)
    ensures IsWord(a + b)
  {
    assert forall k :: 0 <= k < |a| ==> (a + b)[k] == a[k];
    assert forall k :: |a| <= k < |a + b| ==> (a + b)[k] == b[k - |a|];
  }

  lemma NameIsWord(c: Component)
    ensures IsWord(Name(c))
  {
  }

  lemma KeyIsWord(s: Setting)
    ensures IsWord(Key(s))
  {
  }

  lemma ValueIsWord(s: Setting)
    ensures IsWord(ValueText(s))
  {
  }

  lemma TokenIsWord(s: Setting)
    ensures IsWord(Token(s))
  {
    KeyIsWord(s);
    ValueIsWord(s);
    WordConcat(Key(s), ":");
    WordConcat(Key(s) + ":", ValueText(s));
  }

  // ---- Facts about the modifier tables ----

  /** A kind's defaults accept the same modifiers as any component of the kind. */
  lemma DefaultKeepsSettings(c: Component)
    ensures SettingsFor(DefaultOf(c)) == SettingsFor(c)
  {
  }

  /** A modifier changes a field of the component, never its kind. */
  lemma ApplyKeepsKind(c: Component, s: Setting)
    ensures SameKind(Apply(c, s), c)
    ensures SettingsFor(Apply(c, s)) == SettingsFor(c)
  {
  }

  // Each field's lookup accepts exactly the `key:value` tokens of its
  // settings, and maps each to the setting it spells.

  lemma PaddingSound(tok: string)
    ensures PaddingLookup(tok).Some? ==> PaddingLookup(tok).value in PaddingSettings && tok == Token(PaddingLookup(tok).value)
  {
    if tok == "padding:space" {
      assert Token(SetPadding(M.Space)) == tok;
    }
    else if tok == "padding:zero" {
      assert Token(SetPadding(M.Zero)) == tok;
    }
    else if tok == "padding:none" {
      assert Token(SetPadding(M.Padding.None)) == tok;
    }
  }

  lemma PaddingComplete(st: Setting)
    ensures st in PaddingSettings ==> PaddingLookup(Token(st)) == Some(st)
  {
    if st == SetPadding(M.Space) {
      assert Token(st) == "padding:space";
    }
    else if st == SetPadding(M.Zero) {
      assert Token(st) == "padding:zero";
    }
    else if st == SetPadding(M.Padding.None) {
      assert Token(st) == "padding:none";
    }
  }

  lemma ClockSound(tok: string)
    ensures ClockLookup(tok).Some? ==> ClockLookup(tok).value in ClockSettings && tok == Token(ClockLookup(tok).value)
  {
    if tok == "repr:24" {
      assert Token(SetClock(false)) == tok;
    }
    else if tok == "repr:12" {
      assert Token(SetClock(true)) == tok;
    }
  }

  lemma ClockComplete(st: Setting)
    ensures st in ClockSettings ==> ClockLookup(Token(st)) == Some(st)
  {
    if st == SetClock(false) {
      assert Token(st) == "repr:24";
    }
    else if st == SetClock(true) {
      assert Token(st) == "repr:12";
    }
  }

  lemma CaseSensitiveSound(tok: string)
    ensures CaseSensitiveLookup(tok).Some? ==> CaseSensitiveLookup(tok).value in CaseSensitiveSettings && tok == Token(CaseSensitiveLookup(tok).value)
  {
    if tok == "case_sensitive:true" {
      assert Token(SetCaseSensitive(true)) == tok;
    }
    else if tok == "case_sensitive:false" {
      assert Token(SetCaseSensitive(false)) == tok;
    }
  }

  lemma CaseSensitiveComplete(st: Setting)
    ensures st in CaseSensitiveSettings ==> CaseSensitiveLookup(Token(st)) == Some(st)
  {
    if st == SetCaseSensitive(true) {
      assert Token(st) == "case_sensitive:true";
    }
    else if st == SetCaseSensitive(false) {
      assert Token(st) == "case_sensitive:false";
    }
  }

  lemma MonthReprSound(tok: string)
    ensures MonthReprLookup(tok).Some? ==> MonthReprLookup(tok).value in MonthReprSettings && tok == Token(MonthReprLookup(tok).value)
  {
    if tok == "repr:numerical" {
      assert Token(SetMonthRepr(M.MonthRepr.Numerical)) == tok;
    }
    else if tok == "repr:long" {
      assert Token(SetMonthRepr(M.MonthRepr.Long)) == tok;
    }
    else if tok == "repr:short" {
      assert Token(SetMonthRepr(M.MonthRepr.Short)) == tok;
    }
  }

  lemma MonthReprComplete(st: Setting)
    ensures st in MonthReprSettings ==> MonthReprLookup(Token(st)) == Some(st)
  {
    if st == SetMonthRepr(M.MonthRepr.Numerical) {
      assert Token(st) == "repr:numerical";
    }
    else if st == SetMonthRepr(M.MonthRepr.Long) {
      assert Token(st) == "repr:long";
    }
    else if st == SetMonthRepr(M.MonthRepr.Short) {
      assert Token(st) == "repr:short";
    }
  }

  lemma PeriodCaseSound(tok: string)
    ensures PeriodCaseLookup(tok).Some? ==> PeriodCaseLookup(tok).value in PeriodCaseSettings && tok == Token(PeriodCaseLookup(tok).value)
  {
    if tok == "case:upper" {
      assert Token(SetPeriodCase(true)) == tok;
    }
    else if tok == "case:lower" {
      assert Token(SetPeriodCase(false)) == tok;
    }
  }

  lemma PeriodCaseComplete(st: Setting)
    ensures st in PeriodCaseSettings ==> PeriodCaseLookup(Token(st)) == Some(st)
  {
    if st == SetPeriodCase(true) {
      assert Token(st) == "case:upper";
    }
    else if st == SetPeriodCase(false) {
      assert Token(st) == "case:lower";
    }
  }

  lemma DigitsSound(tok: string)
    ensures DigitsLookup(tok).Some? ==> DigitsLookup(tok).value in DigitsSettings && tok == Token(DigitsLookup(tok).value)
  {
    if tok == "digits:1" {
      assert Token(SetDigits(M.One)) == tok;
    }
    else if tok == "digits:2" {
      assert Token(SetDigits(M.Two)) == tok;
    }
    else if tok == "digits:3" {
      assert Token(SetDigits(M.Three)) == tok;
    }
    else if tok == "digits:4" {
      assert Token(SetDigits(M.Four)) == tok;
    }
    else if tok == "digits:5" {
      assert Token(SetDigits(M.Five)) == tok;
    }
    else if tok == "digits:6" {
      assert Token(SetDigits(M.Six)) == tok;
    }
    else if tok == "digits:7" {
      assert Token(SetDigits(M.Seven)) == tok;
    }
    else if tok == "digits:8" {
      assert Token(SetDigits(M.Eight)) == tok;
    }
    else if tok == "digits:9" {
      assert Token(SetDigits(M.Nine)) == tok;
    }
    else if tok == "digits:1+" {
      assert Token(SetDigits(M.OneOrMore)) == tok;
    }
  }

  lemma DigitsComplete(st: Setting)
    ensures st in DigitsSettings ==> DigitsLookup(Token(st)) == Some(st)
  {
    if st == SetDigits(M.One) {
      assert Token(st) == "digits:1";
    }
    else if st == SetDigits(M.Two) {
      assert Token(st) == "digits:2";
    }
    else if st == SetDigits(M.Three) {
      assert Token(st) == "digits:3";
    }
    else if st == SetDigits(M.Four) {
      assert Token(st) == "digits:4";
    }
    else if st == SetDigits(M.Five) {
      assert Token(st) == "digits:5";
    }
    else if st == SetDigits(M.Six) {
      assert Token(st) == "digits:6";
    }
    else if st == SetDigits(M.Seven) {
      assert Token(st) == "digits:7";
    }
    else if st == SetDigits(M.Eight) {
      assert Token(st) == "digits:8";
    }
    else if st == SetDigits(M.Nine) {
      assert Token(st) == "digits:9";
    }
    else if st == SetDigits(M.OneOrMore) {
      assert Token(st) == "digits:1+";
    }
  }

  lemma WeekdayReprSound(tok: string)
    ensures WeekdayReprLookup(tok).Some? ==> WeekdayReprLookup(tok).value in WeekdayReprSettings && tok == Token(WeekdayReprLookup(tok).value)
  {
    if tok == "repr:short" {
      assert Token(SetWeekdayRepr(M.WeekdayRepr.Short)) == tok;
    }
    else if tok == "repr:long" {
      assert Token(SetWeekdayRepr(M.WeekdayRepr.Long)) == tok;
    }
    else if tok == "repr:sunday" {
      assert Token(SetWeekdayRepr(M.WeekdayRepr.Sunday)) == tok;
    }
    else if tok == "repr:monday" {
      assert Token(SetWeekdayRepr(M.WeekdayRepr.Monday)) == tok;
    }
  }

  lemma WeekdayReprComplete(st: Setting)
    ensures st in WeekdayReprSettings ==> WeekdayReprLookup(Token(st)) == Some(st)
  {
    if st == SetWeekdayRepr(M.WeekdayRepr.Short) {
      assert Token(st) == "repr:short";
    }
    else if st == SetWeekdayRepr(M.WeekdayRepr.Long) {
      assert Token(st) == "repr:long";
    }
    else if st == SetWeekdayRepr(M.WeekdayRepr.Sunday) {
      assert Token(st) == "repr:sunday";
    }
    else if st == SetWeekdayRepr(M.WeekdayRepr.Monday) {
      assert Token(st) == "repr:monday";
    }
  }

  lemma OneIndexedSound(tok: string)
    ensures OneIndexedLookup(tok).Some? ==> OneIndexedLookup(tok).value in OneIndexedSettings && tok == Token(OneIndexedLookup(tok).value)
  {
    if tok == "one_indexed:true" {
      assert Token(SetOneIndexed(true)) == tok;
    }
    else if tok == "one_indexed:false" {
      assert Token(SetOneIndexed(false)) == tok;
    }
  }

  lemma OneIndexedComplete(st: Setting)
    ensures st in OneIndexedSettings ==> OneIndexedLookup(Token(st)) == Some(st)
  {
    if st == SetOneIndexed(true) {
      assert Token(st) == "one_indexed:true";
    }
    else if st == SetOneIndexed(false) {
      assert Token(st) == "one_indexed:false";
    }
  }

  lemma WeekNumberReprSound(tok: string)
    ensures WeekNumberReprLookup(tok).Some? ==> WeekNumberReprLookup(tok).value in WeekNumberReprSettings && tok == Token(WeekNumberReprLookup(tok).value)
  {
    if tok == "repr:iso" {
      assert Token(SetWeekNumberRepr(M.WeekNumberRepr.Iso)) == tok;
    }
    else if tok == "repr:sunday" {
      assert Token(SetWeekNumberRepr(M.WeekNumberRepr.Sunday)) == tok;
    }
    else if tok == "repr:monday" {
      assert Token(SetWeekNumberRepr(M.WeekNumberRepr.Monday)) == tok;
    }
  }

  lemma WeekNumberReprComplete(st: Setting)
    ensures st in WeekNumberReprSettings ==> WeekNumberReprLookup(Token(st)) == Some(st)
  {
    if st == SetWeekNumberRepr(M.WeekNumberRepr.Iso) {
      assert Token(st) == "repr:iso";
    }
    else if st == SetWeekNumberRepr(M.WeekNumberRepr.Sunday) {
      assert Token(st) == "repr:sunday";
    }
    else if st == SetWeekNumberRepr(M.WeekNumberRepr.Monday) {
      assert Token(st) == "repr:monday";
    }
  }

  lemma SignSound(tok: string)
    ensures SignLookup(tok).Some? ==> SignLookup(tok).value in SignSettings && tok == Token(SignLookup(tok).value)
  {
    if tok == "sign:automatic" {
      assert Token(SetSign(false)) == tok;
    }
    else if tok == "sign:mandatory" {
      assert Token(SetSign(true)) == tok;
    }
  }

  lemma SignComplete(st: Setting)
    ensures st in SignSettings ==> SignLookup(Token(st)) == Some(st)
  {
    if st == SetSign(false) {
      assert Token(st) == "sign:automatic";
    }
    else if st == SetSign(true) {
      assert Token(st) == "sign:mandatory";
    }
  }

  lemma YearBaseSound(tok: string)
    ensures YearBaseLookup(tok).Some? ==> YearBaseLookup(tok).value in YearBaseSettings && tok == Token(YearBaseLookup(tok).value)
  {
    if tok == "base:calendar" {
      assert Token(SetYearBase(false)) == tok;
    }
    else if tok == "base:iso_week" {
      assert Token(SetYearBase(true)) == tok;
    }
  }

  lemma YearBaseComplete(st: Setting)
    ensures st in YearBaseSettings ==> YearBaseLookup(Token(st)) == Some(st)
  {
    if st == SetYearBase(false) {
      assert Token(st) == "base:calendar";
    }
    else if st == SetYearBase(true) {
      assert Token(st) == "base:iso_week";
    }
  }

  lemma YearReprSound(tok: string)
    ensures YearReprLookup(tok).Some? ==> YearReprLookup(tok).value in YearReprSettings && tok == Token(YearReprLookup(tok).value)
  {
    if tok == "repr:full" {
      assert Token(SetYearRepr(M.Full)) == tok;
    }
    else if tok == "repr:last_two" {
      assert Token(SetYearRepr(M.LastTwo)) == tok;
    }
  }

  lemma YearReprComplete(st: Setting)
    ensures st in YearReprSettings ==> YearReprLookup(Token(st)) == Some(st)
  {
    if st == SetYearRepr(M.Full) {
      assert Token(st) == "repr:full";
    }
    else if st == SetYearRepr(M.LastTwo) {
      assert Token(st) == "repr:last_two";
    }
  }
}

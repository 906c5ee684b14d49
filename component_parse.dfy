/** The component parsers behind `Parsed::parse_component`: how each kind of
    component reads its token from the start of the input, and which field of
    the accumulator the value goes to. Every parser either fails or consumes a
    non-empty prefix of the input and returns what is left. */
module ComponentParse {
  import opened Wrappers
  import opened Primitives
  import M = Modifier
  import FD = FormatDescription
  import Cal = Calendar
  import PF = ParsedFields

  /** `ParsedItem`: the input left over, and the value read from the part consumed. */
  datatype Read<+T> = Read(rest: string, value: T)

  lemma {:induction false} Pow10Monotone(a: nat, b: nat)
    requires a <= b
    ensures Pow10(a) <= Pow10(b)
    decreases b
  {
    if a < b {
      Pow10Monotone(a, b - 1);
    }
  }

  // ---- Digits, spaces and signs ----

  /** The number of leading ASCII digits of `s`, stopping at `max`. */
  function DigitRun(s: string, max: nat): (n: nat)
    ensures n <= max && n <= |s| && AllDigits(s[..n])
    ensures n < max && n < |s| ==> !IsDigit(s[n])
  {
    if max == 0 || s == [] || !IsDigit(s[0]) then 0
    else
      var k := DigitRun(s[1..], max - 1);
      assert s[..k + 1] == [s[0]] + s[1..][..k];
      k + 1
  }

  /** The run of leading digits is the only prefix of digits that stops at a
      non-digit, the end of `s` or `max`. */
  lemma DigitRunUnique(s: string, max: nat, i: nat)
    requires i <= max && i <= |s| && AllDigits(s[..i])
    requires i < max && i < |s| ==> !IsDigit(s[i])
    ensures DigitRun(s, max) == i
  {
  }

  /** `n_to_m_digits`: at least `n` and at most `m` leading digits, as many as
      there are, read as a decimal number. */
  function NToMDigits(s: string, n: nat, m: nat): (r: Option<Read<nat>>)
    requires n <= m
    ensures r.Some? <==> n <= |s| && AllDigits(s[..n])
    ensures r.Some? ==> IsSuffix(r.value.rest, s) && n <= |s| - |r.value.rest| <= m
    ensures r.Some? ==>
      AllDigits(s[..|s| - |r.value.rest|]) && r.value.value == DigitsValue(s[..|s| - |r.value.rest|])
    ensures r.Some? ==> r.value.value < Pow10(m)
    ensures r.Some? ==>
      var k := |s| - |r.value.rest|;
      k < m && k < |s| ==> !IsDigit(s[k])
  {
    var k := DigitRun(s, m);
    if k < n then
      None
    else
      Pow10Monotone(k, m);
      assert s[k..] == s[|s| - |s[k..]|..];
      Some(Read(s[k..], DigitsValue(s[..k])))
  }

  /** The number of leading spaces of `s`, stopping at `max`. */
  function SpaceRun(s: string, max: nat): (n: nat)
    ensures n <= max && n <= |s|
    ensures forall i :: 0 <= i < n ==> s[i] == ' '
    ensures n < max && n < |s| ==> s[n] != ' '
  {
    if max == 0 || s == [] || s[0] != ' ' then 0
    else 1 + SpaceRun(s[1..], max - 1)
  }

  /** The space-padded case of `exactly_n_digits_padded`: up to `n - 1`
      spaces, and then digits filling the rest of the width. */
  function SpacePadded(s: string, n: nat): (r: Option<Read<nat>>)
    requires n >= 1
    ensures r.Some? ==> IsSuffix(r.value.rest, s) && 1 <= |s| - |r.value.rest| <= n
    ensures r.Some? ==> r.value.value < Pow10(n)
    ensures
      var k := SpaceRun(s, n - 1);
      (r.Some? <==> n <= |s| && AllDigits(s[k..n])) &&
      (r.Some? ==> r.value == Read(s[n..], DigitsValue(s[k..n])))
  {
    var k := SpaceRun(s, n - 1);
    var d := NToMDigits(s[k..], n - k, n - k);
    if d.None? then
      assert n <= |s| ==> s[k..][..n - k] == s[k..n];
      None
    else
      Pow10Monotone(n - k, n);
      assert s[k..][..n - k] == s[k..n];
      assert s[k..][n - k..] == s[n..];
      assert s[k..][|s[k..]| - |d.value.rest|..] == s[|s| - |d.value.rest|..];
      Some(Read(d.value.rest, d.value.value))
  }

  /** `exactly_n_digits_padded`: a number in a field `n` characters wide.
      Without padding it is one to `n` digits, as many as there are;
      zero-padded, exactly `n` digits; space-padded, as `SpacePadded`. */
  function DigitsPadded(s: string, n: nat, padding: M.Padding): (r: Option<Read<nat>>)
    requires n >= 1
    ensures r.Some? ==> IsSuffix(r.value.rest, s) && 1 <= |s| - |r.value.rest| <= n
    ensures r.Some? ==> r.value.value < Pow10(n)
    ensures padding == M.Zero ==> (r.Some? <==> n <= |s| && AllDigits(s[..n]))
    ensures padding == M.Zero && r.Some? ==> r.value == Read(s[n..], DigitsValue(s[..n]))
    ensures padding == M.None ==> (r.Some? <==> |s| > 0 && IsDigit(s[0]))
    ensures padding == M.None && r.Some? ==>
      var k := |s| - |r.value.rest|;
      AllDigits(s[..k]) && r.value.value == DigitsValue(s[..k]) && (k < n && k < |s| ==> !IsDigit(s[k]))
    ensures padding == M.Space ==> r == SpacePadded(s, n)
  {
    match padding
    case None =>
      assert |s| > 0 ==> s[..1] == [s[0]];
      NToMDigits(s, 1, n)
    case Zero => NToMDigits(s, n, n)
    case Space => SpacePadded(s, n)
  }

  /** A two-digit field, the width of most numeric components. */
  function TwoDigits(s: string, padding: M.Padding): (r: Option<Read<nat>>)
    ensures r.Some? ==> IsSuffix(r.value.rest, s) && |r.value.rest| < |s| && r.value.value < 100
  {
    assert Pow10(2) == 100;
    DigitsPadded(s, 2, padding)
  }

  /** `sign`: an optional leading `+` or `-`. */
  function Sign(s: string): (r: Read<Option<char>>)
    ensures r.value.Some? <==> |s| > 0 && (s[0] == '+' || s[0] == '-')
    ensures r.value.Some? ==> r.value.value == s[0] && r.rest == s[1..]
    ensures r.value.None? ==> r.rest == s
  {
    if |s| > 0 && (s[0] == '+' || s[0] == '-') then Read(s[1..], Some(s[0])) else Read(s, None)
  }

  // ---- Names ----

  /** A name in a lookup table is never empty. */
  type Name = s: string | |s| > 0 witness "?"

  /** `input` starts with `name`, compared byte for byte or ignoring ASCII case. */
  predicate StartsWith(input: string, name: string, caseSensitive: bool)
  {
    |name| <= |input| &&
    if caseSensitive then input[..|name|] == name else EqIgnoreAsciiCase(input[..|name|], name)
  }

  /** The index of the first entry of `table`, from index `from` on, whose
      name starts the input, or `|table|` when there is none. */
  function MatchIndex<T>(input: string, table: seq<(Name, T)>, caseSensitive: bool, from: nat): (i: nat)
    requires from <= |table|
    ensures from <= i <= |table|
    ensures i < |table| ==> StartsWith(input, table[i].0, caseSensitive)
    ensures forall j :: from <= j < i ==> !StartsWith(input, table[j].0, caseSensitive)
    decreases |table| - from
  {
    if from == |table| || StartsWith(input, table[from].0, caseSensitive) then from
    else MatchIndex(input, table, caseSensitive, from + 1)
  }

  /** `r` is what reading the first entry of `table` whose name starts the
      input gives: nothing when no name does, otherwise that entry's value,
      with its name consumed. */
  ghost predicate FirstEntry<T>(input: string, table: seq<(Name, T)>, caseSensitive: bool, r: Option<Read<T>>)
  {
    && (r.None? <==> forall i :: 0 <= i < |table| ==> !StartsWith(input, table[i].0, caseSensitive))
    && (r.Some? ==>
          exists i :: && 0 <= i < |table|
                      && StartsWith(input, table[i].0, caseSensitive)
                      && (forall j :: 0 <= j < i ==> !StartsWith(input, table[j].0, caseSensitive))
                      && r.value == Read(input[|table[i].0|..], table[i].1))
  }

  /** `first_match`: the value of the first entry of `table` whose name
      starts the input; the name is consumed. */
  function FirstMatch<T>(input: string, table: seq<(Name, T)>, caseSensitive: bool): (r: Option<Read<T>>)
    ensures r.None? <==> forall i :: 0 <= i < |table| ==> !StartsWith(input, table[i].0, caseSensitive)
    ensures r.Some? ==> IsSuffix(r.value.rest, input) && |r.value.rest| < |input|
    ensures r.Some? ==>
      var i := MatchIndex(input, table, caseSensitive, 0);
      i < |table| && r.value == Read(input[|table[i].0|..], table[i].1)
    ensures FirstEntry(input, table, caseSensitive, r)
  {
    var i := MatchIndex(input, table, caseSensitive, 0);
    if i == |table| then None
    else
      var n := |table[i].0|;
      assert input[n..] == input[|input| - |input[n..]|..];
      Some(Read(input[n..], table[i].1))
  }

  const MonthNames: seq<(Name, Cal.Month)> := [
    ("January", Cal.January), ("February", Cal.February), ("March", Cal.March),
    ("April", Cal.April), ("May", Cal.May), ("June", Cal.June),
    ("July", Cal.July), ("August", Cal.August), ("September", Cal.September),
    ("October", Cal.October), ("November", Cal.November), ("December", Cal.December)]

  const MonthAbbreviations: seq<(Name, Cal.Month)> := [
    ("Jan", Cal.January), ("Feb", Cal.February), ("Mar", Cal.March),
    ("Apr", Cal.April), ("May", Cal.May), ("Jun", Cal.June),
    ("Jul", Cal.July), ("Aug", Cal.August), ("Sep", Cal.September),
    ("Oct", Cal.October), ("Nov", Cal.November), ("Dec", Cal.December)]

  const WeekdayNames: seq<(Name, Cal.Weekday)> := [
    ("Monday", Cal.Monday), ("Tuesday", Cal.Tuesday), ("Wednesday", Cal.Wednesday),
    ("Thursday", Cal.Thursday), ("Friday", Cal.Friday), ("Saturday", Cal.Saturday),
    ("Sunday", Cal.Sunday)]

  const WeekdayAbbreviations: seq<(Name, Cal.Weekday)> := [
    ("Mon", Cal.Monday), ("Tue", Cal.Tuesday), ("Wed", Cal.Wednesday),
    ("Thu", Cal.Thursday), ("Fri", Cal.Friday), ("Sat", Cal.Saturday),
    ("Sun", Cal.Sunday)]

  /** The number a weekday is written as: counted from Sunday or from Monday,
      starting at 0 or at 1. */
  function WeekdayNumber(w: nat, sundayFirst: bool, oneIndexed: bool): (d: nat)
    requires w < 7
    ensures d < 8
  {
    (if sundayFirst then (w + 1) % 7 else w) + (if oneIndexed then 1 else 0)
  }

  /** The one-digit names of the weekdays, Monday first. */
  function WeekdayDigits(sundayFirst: bool, oneIndexed: bool): (table: seq<(Name, Cal.Weekday)>)
    ensures |table| == 7
    ensures forall w :: 0 <= w < 7 ==>
      table[w] == ([DigitChar(WeekdayNumber(w, sundayFirst, oneIndexed))], Cal.Weekdays[w])
  {
    seq(7, w requires 0 <= w < 7 =>
      ([DigitChar(WeekdayNumber(w, sundayFirst, oneIndexed))], Cal.Weekdays[w]))
  }

  /** AM and PM, as the flag "the hour is after noon". */
  function PeriodNames(isUppercase: bool): seq<(Name, bool)>
  {
    if isUppercase then [("AM", false), ("PM", true)] else [("am", false), ("pm", true)]
  }

  // ---- One parser per kind of component ----

  /** `parse_year`: the full year is an optional sign and four digits, a
      leading `-` negating it, and a missing sign rejected when the sign is
      mandatory; the last two digits are two digits. */
  function Year(s: string, m: M.Year): (r: Option<Read<int>>)
    ensures r.Some? ==> IsSuffix(r.value.rest, s) && |r.value.rest| < |s|
    ensures r.Some? ==> if m.repr == M.Full then -9999 <= r.value.value <= 9999 else 0 <= r.value.value < 100
    ensures m.repr == M.Full ==>
      var sign := Sign(s);
      var d := DigitsPadded(sign.rest, 4, m.padding);
      (r.Some? <==> d.Some? && (sign.value.Some? || !m.signIsMandatory)) &&
      (r.Some? ==> r.value == Read(d.value.rest, if sign.value == Some('-') then -(d.value.value as int) else d.value.value))
    ensures m.repr == M.LastTwo ==>
      var d := DigitsPadded(s, 2, m.padding);
      (r.Some? <==> d.Some?) && (r.Some? ==> r.value == Read(d.value.rest, d.value.value))
  {
    match m.repr
    case Full =>
      var sign := Sign(s);
      var digits :- DigitsPadded(sign.rest, 4, m.padding);
      if sign.value == Some('-') then Some(Read(digits.rest, -(digits.value as int)))
      else if sign.value.None? && m.signIsMandatory then None
      else Some(Read(digits.rest, digits.value as int))
    case LastTwo =>
      var digits :- DigitsPadded(s, 2, m.padding);
      Some(Read(digits.rest, digits.value as int))
  }

  /** `parse_month`: a number from 1 to 12 in two digits, or a name. */
  function Month(s: string, m: M.Month): (r: Option<Read<Cal.Month>>)
    ensures r.Some? ==> IsSuffix(r.value.rest, s) && |r.value.rest| < |s|
    ensures m.repr == M.Numerical ==>
      var d := DigitsPadded(s, 2, m.padding);
      (r.Some? <==> d.Some? && 1 <= d.value.value <= 12) &&
      (r.Some? ==> r.value == Read(d.value.rest, Cal.Months[d.value.value - 1]))
    ensures m.repr == M.MonthRepr.Long ==> FirstEntry(s, MonthNames, m.caseSensitive, r)
    ensures m.repr == M.MonthRepr.Short ==> FirstEntry(s, MonthAbbreviations, m.caseSensitive, r)
  {
    match m.repr
    case Numerical =>
      var digits :- DigitsPadded(s, 2, m.padding);
      var month :- Cal.MonthFromNumber(digits.value);
      Some(Read(digits.rest, month))
    case Long => FirstMatch(s, MonthNames, m.caseSensitive)
    case Short => FirstMatch(s, MonthAbbreviations, m.caseSensitive)
  }

  /** `parse_weekday`: a name, or one digit counted from Sunday or Monday. */
  function Weekday(s: string, m: M.Weekday): (r: Option<Read<Cal.Weekday>>)
    ensures r.Some? ==> IsSuffix(r.value.rest, s) && |r.value.rest| < |s|
    ensures m.repr == M.WeekdayRepr.Short ==> FirstEntry(s, WeekdayAbbreviations, m.caseSensitive, r)
    ensures m.repr == M.WeekdayRepr.Long ==> FirstEntry(s, WeekdayNames, m.caseSensitive, r)
    ensures m.repr == M.WeekdayRepr.Sunday ==> FirstEntry(s, WeekdayDigits(true, m.oneIndexed), m.caseSensitive, r)
    ensures m.repr == M.WeekdayRepr.Monday ==> FirstEntry(s, WeekdayDigits(false, m.oneIndexed), m.caseSensitive, r)
  {
    match m.repr
    case Short => FirstMatch(s, WeekdayAbbreviations, m.caseSensitive)
    case Long => FirstMatch(s, WeekdayNames, m.caseSensitive)
    case Sunday => FirstMatch(s, WeekdayDigits(true, m.oneIndexed), m.caseSensitive)
    case Monday => FirstMatch(s, WeekdayDigits(false, m.oneIndexed), m.caseSensitive)
  }

  /** A non-zero number in a field `n` wide (`parse_day`, `parse_ordinal`). */
  function NonZeroPadded(s: string, n: nat, padding: M.Padding): (r: Option<Read<nat>>)
    requires n >= 1
    ensures r.Some? ==> IsSuffix(r.value.rest, s) && |r.value.rest| < |s| && 0 < r.value.value < Pow10(n)
    ensures r.Some? <==> DigitsPadded(s, n, padding).Some? && DigitsPadded(s, n, padding).value.value != 0
  {
    var digits :- DigitsPadded(s, n, padding);
    if digits.value == 0 then None else Some(digits)
  }

  /** `parse_period`: AM or PM, read as "after noon". */
  function Period(s: string, m: M.Period): (r: Option<Read<bool>>)
    ensures r.Some? ==> IsSuffix(r.value.rest, s) && |r.value.rest| < |s|
    ensures FirstEntry(s, PeriodNames(m.isUppercase), m.caseSensitive, r)
  {
    FirstMatch(s, PeriodNames(m.isUppercase), m.caseSensitive)
  }

  /** The count of digits a fixed-width subsecond takes. */
  function DigitCount(d: M.SubsecondDigits): (n: nat)
    requires d != M.OneOrMore
    ensures 1 <= n <= 9
  {
    match d
    case One => 1 case Two => 2 case Three => 3 case Four => 4 case Five => 5
    case Six => 6 case Seven => 7 case Eight => 8 case Nine => 9
  }

  /** `v` followed by `k` decimal zeros, that is `v * Pow10(k)`, built up
      one factor of ten at a time. */
  function Shifted(v: nat, k: nat): nat
  {
    if k == 0 then v else 10 * Shifted(v, k - 1)
  }

  lemma {:induction false} ShiftedBound(v: nat, m: nat, k: nat)
    requires v < Pow10(m)
    ensures Shifted(v, k) < Pow10(m + k)
  {
    if k > 0 {
      ShiftedBound(v, m, k - 1);
    }
  }

  /** The nanoseconds a run of subsecond digits stands for: the first nine are
      the fraction of a second, any further digits are below a nanosecond and
      are dropped. */
  function Nanoseconds(digits: string): (ns: nat)
    requires AllDigits(digits)
    ensures ns < 1_000_000_000
  {
    var k := if |digits| < 9 then |digits| else 9;
    assert Pow10(9) == 1_000_000_000;
    ShiftedBound(DigitsValue(digits[..k]), k, 9 - k);
    Shifted(DigitsValue(digits[..k]), 9 - k)
  }

  /** `parse_subsecond`: a fixed count of digits, or at least one digit and
      then every digit that follows. */
  function Subsecond(s: string, m: M.Subsecond): (r: Option<Read<nat>>)
    ensures r.Some? ==> IsSuffix(r.value.rest, s) && |r.value.rest| < |s| && r.value.value < 1_000_000_000
    ensures r.Some? ==>
      AllDigits(s[..|s| - |r.value.rest|]) && r.value.value == Nanoseconds(s[..|s| - |r.value.rest|])
  {
    var n := if m.digits == M.OneOrMore then 1 else DigitCount(m.digits);
    var digits :- NToMDigits(s, n, if m.digits == M.OneOrMore then |s| + 1 else n);
    Some(Read(digits.rest, Nanoseconds(s[..|s| - |digits.rest|])))
  }

  /** `parse_offset_hour`: an optional sign and two digits, the sign rejected
      when missing and mandatory. */
  function OffsetHour(s: string, m: M.OffsetHour): (r: Option<Read<int>>)
    ensures r.Some? ==> IsSuffix(r.value.rest, s) && |r.value.rest| < |s| && -99 <= r.value.value <= 99
    ensures
      var sign := Sign(s);
      var d := TwoDigits(sign.rest, m.padding);
      (r.Some? <==> d.Some? && (sign.value.Some? || !m.signIsMandatory)) &&
      (r.Some? ==> r.value == Read(d.value.rest, if sign.value == Some('-') then -(d.value.value as int) else d.value.value))
  {
    var sign := Sign(s);
    var digits :- TwoDigits(sign.rest, m.padding);
    if sign.value == Some('-') then Some(Read(digits.rest, -(digits.value as int)))
    else if sign.value.None? && m.signIsMandatory then None
    else Some(Read(digits.rest, digits.value as int))
  }

  // ---- parse_component ----

  /** The field a component writes. */
  function FieldOf(c: FD.Component): PF.Field
  {
    match c
    case Day(_) => PF.Day
    case Month(_) => PF.Month
    case Ordinal(_) => PF.Ordinal
    case Weekday(_) => PF.Weekday
    case WeekNumber(m) =>
      (match m.repr
       case Iso => PF.IsoWeekNumber
       case Sunday => PF.SundayWeekNumber
       case Monday => PF.MondayWeekNumber)
    case Year(m) =>
      if m.isoWeekBased then (if m.repr == M.Full then PF.IsoYear else PF.IsoYearLastTwo)
      else (if m.repr == M.Full then PF.Year else PF.YearLastTwo)
    case Hour(m) => if m.is12HourClock then PF.Hour12 else PF.Hour24
    case Minute(_) => PF.Minute
    case Period(_) => PF.Hour12IsPm
    case Second(_) => PF.Second
    case Subsecond(_) => PF.Subsecond
    case OffsetHour(_) => PF.OffsetHour
    case OffsetMinute(_) => PF.OffsetMinute
    case OffsetSecond(_) => PF.OffsetSecond
  }

  /** The name `InvalidComponent` gives a component that cannot be read. */
  function ErrorName(c: FD.Component): (r: string)
    ensures |r| == |FD.Name(c)|
    ensures forall i :: 0 <= i < |r| ==> r[i] == if FD.Name(c)[i] == '_' then ' ' else FD.Name(c)[i]
  {
    match c
    case Day(_) => "day"
    case Month(_) => "month"
    case Ordinal(_) => "ordinal"
    case Weekday(_) => "weekday"
    case WeekNumber(_) => "week number"
    case Year(_) => "year"
    case Hour(_) => "hour"
    case Minute(_) => "minute"
    case Period(_) => "period"
    case Second(_) => "second"
    case Subsecond(_) => "subsecond"
    case OffsetHour(_) => "offset hour"
    case OffsetMinute(_) => "offset minute"
    case OffsetSecond(_) => "offset second"
  }

  /** What reading one component produces: the input left, the field the
      value goes to, and the value. */
  datatype Outcome = Outcome(rest: string, field: PF.Field, value: PF.Value)

  /** `o` leaves a proper suffix of `input` and gives its field a value of
      the field's type. */
  predicate Valid(o: Outcome, input: string)
  {
    IsSuffix(o.rest, input) && |o.rest| < |input| && PF.Fits(o.field, o.value)
  }

  /** A non-zero two-digit number (`parse_day`, and the ISO week number and
      12-hour-clock hour, whose fields are non-zero). */
  function NonZeroTwoDigits(s: string, padding: M.Padding): (r: Option<Read<nat>>)
    ensures r.Some? ==> IsSuffix(r.value.rest, s) && |r.value.rest| < |s| && 0 < r.value.value < 100
  {
    assert Pow10(2) == 100;
    NonZeroPadded(s, 2, padding)
  }

  /** A two-digit number read into `field`. */
  function TwoDigitField(input: string, padding: M.Padding, field: PF.Field): (r: Option<Outcome>)
    requires forall v :: 0 <= v < 100 ==> PF.Fits(field, PF.Int(v))
    ensures r.Some? ==> Valid(r.value, input) && r.value.field == field
  {
    var digits := TwoDigits(input, padding);
    if digits.None? then None else Some(Outcome(digits.value.rest, field, PF.Int(digits.value.value)))
  }

  /** A non-zero two-digit number read into `field`. */
  function NonZeroTwoDigitField(input: string, padding: M.Padding, field: PF.Field): (r: Option<Outcome>)
    requires forall v :: 0 < v < 100 ==> PF.Fits(field, PF.Int(v))
    ensures r.Some? ==> Valid(r.value, input) && r.value.field == field
  {
    var digits := NonZeroTwoDigits(input, padding);
    if digits.None? then None else Some(Outcome(digits.value.rest, field, PF.Int(digits.value.value)))
  }

  function OrdinalField(input: string, m: M.Ordinal): (r: Option<Outcome>)
    ensures r.Some? ==> Valid(r.value, input) && r.value.field == PF.Ordinal
  {
    var ordinal := NonZeroPadded(input, 3, m.padding);
    assert Pow10(3) == 1000;
    if ordinal.None? then None else Some(Outcome(ordinal.value.rest, PF.Ordinal, PF.Int(ordinal.value.value)))
  }

  function MonthField(input: string, m: M.Month): (r: Option<Outcome>)
    ensures r.Some? ==> Valid(r.value, input) && r.value.field == PF.Month
  {
    var month := Month(input, m);
    if month.None? then None else Some(Outcome(month.value.rest, PF.Month, PF.MonthOf(month.value.value)))
  }

  function WeekdayField(input: string, m: M.Weekday): (r: Option<Outcome>)
    ensures r.Some? ==> Valid(r.value, input) && r.value.field == PF.Weekday
  {
    var weekday := Weekday(input, m);
    if weekday.None? then None else Some(Outcome(weekday.value.rest, PF.Weekday, PF.WeekdayOf(weekday.value.value)))
  }

  function YearField(input: string, m: M.Year): (r: Option<Outcome>)
    ensures r.Some? ==> Valid(r.value, input) && r.value.field == FieldOf(FD.Year(m))
  {
    var year := Year(input, m);
    if year.None? then None else Some(Outcome(year.value.rest, FieldOf(FD.Year(m)), PF.Int(year.value.value)))
  }

  function PeriodField(input: string, m: M.Period): (r: Option<Outcome>)
    ensures r.Some? ==> Valid(r.value, input) && r.value.field == PF.Hour12IsPm
  {
    var pm := Period(input, m);
    if pm.None? then None else Some(Outcome(pm.value.rest, PF.Hour12IsPm, PF.Flag(pm.value.value)))
  }

  function SubsecondField(input: string, m: M.Subsecond): (r: Option<Outcome>)
    ensures r.Some? ==> Valid(r.value, input) && r.value.field == PF.Subsecond
  {
    var ns := Subsecond(input, m);
    if ns.None? then None else Some(Outcome(ns.value.rest, PF.Subsecond, PF.Int(ns.value.value)))
  }

  function OffsetHourField(input: string, m: M.OffsetHour): (r: Option<Outcome>)
    ensures r.Some? ==> Valid(r.value, input) && r.value.field == PF.OffsetHour
  {
    var hour := OffsetHour(input, m);
    if hour.None? then None
    else
      var o := Outcome(hour.value.rest, PF.OffsetHour, PF.Int(hour.value.value));
      assert PF.Fits(o.field, o.value);
      Some(o)
  }

  /** The token component `c` reads from the start of `input`, the field it
      goes to and its value; `None` when the input does not start with a
      token of the component. */
  function Interpret(input: string, c: FD.Component): (r: Option<Outcome>)
    ensures r.Some? ==> Valid(r.value, input)
  {
    match c
    case Day(m) => NonZeroTwoDigitField(input, m.padding, PF.Day)
    case Month(m) => MonthField(input, m)
    case Ordinal(m) => OrdinalField(input, m)
    case Weekday(m) => WeekdayField(input, m)
    case WeekNumber(m) =>
      if m.repr == M.Iso then NonZeroTwoDigitField(input, m.padding, PF.IsoWeekNumber)
      else TwoDigitField(input, m.padding, FieldOf(c))
    case Year(m) => YearField(input, m)
    case Hour(m) =>
      if m.is12HourClock then NonZeroTwoDigitField(input, m.padding, PF.Hour12)
      else TwoDigitField(input, m.padding, PF.Hour24)
    case Minute(m) => TwoDigitField(input, m.padding, PF.Minute)
    case Period(m) => PeriodField(input, m)
    case Second(m) => TwoDigitField(input, m.padding, PF.Second)
    case Subsecond(m) => SubsecondField(input, m)
    case OffsetHour(m) => OffsetHourField(input, m)
    case OffsetMinute(m) => TwoDigitField(input, m.padding, PF.OffsetMinute)
    case OffsetSecond(m) => TwoDigitField(input, m.padding, PF.OffsetSecond)
  }

  /** The value a component reads goes to the component's own field. */
  lemma InterpretField(input: string, c: FD.Component)
    ensures Interpret(input, c).Some? ==> Interpret(input, c).value.field == FieldOf(c)
  {
    match c
    case Day(_) =>
    case Month(_) =>
    case Ordinal(_) =>
    case Weekday(_) =>
    case WeekNumber(_) =>
    case Year(_) =>
    case Hour(_) =>
    case Minute(_) =>
    case Period(_) =>
    case Second(_) =>
    case Subsecond(_) =>
    case OffsetHour(_) =>
    case OffsetMinute(_) =>
    case OffsetSecond(_) =>
  }

  /** `r` stores exactly what `read` read: it succeeds when `read` does,
      leaves the same input and holds the number read. */
  predicate StoresInt(r: Option<Outcome>, read: Option<Read<int>>)
  {
    (r.Some? <==> read.Some?) &&
    (r.Some? ==> r.value.rest == read.value.rest && r.value.value == PF.Int(read.value.value))
  }

  /** The value a component reads is the value its reader returns, stored
      with the field's type: `[day]` on "05" stores 5, `[month]` stores the
      month read, `[period]` stores whether it read PM. */
  lemma InterpretValue(input: string, c: FD.Component)
    ensures c.Day? ==> StoresInt(Interpret(input, c), NonZeroPadded(input, 2, c.day.padding))
    ensures c.Ordinal? ==> StoresInt(Interpret(input, c), NonZeroPadded(input, 3, c.ordinal.padding))
    ensures c.WeekNumber? ==>
      StoresInt(Interpret(input, c),
        if c.weekNumber.repr == M.Iso then NonZeroPadded(input, 2, c.weekNumber.padding)
        else TwoDigits(input, c.weekNumber.padding))
    ensures c.Year? ==> StoresInt(Interpret(input, c), Year(input, c.year))
    ensures c.Hour? ==>
      StoresInt(Interpret(input, c),
        if c.hour.is12HourClock then NonZeroPadded(input, 2, c.hour.padding) else TwoDigits(input, c.hour.padding))
    ensures c.Minute? ==> StoresInt(Interpret(input, c), TwoDigits(input, c.minute.padding))
    ensures c.Second? ==> StoresInt(Interpret(input, c), TwoDigits(input, c.second.padding))
    ensures c.Subsecond? ==> StoresInt(Interpret(input, c), Subsecond(input, c.subsecond))
    ensures c.OffsetHour? ==> StoresInt(Interpret(input, c), OffsetHour(input, c.offsetHour))
    ensures c.OffsetMinute? ==> StoresInt(Interpret(input, c), TwoDigits(input, c.offsetMinute.padding))
    ensures c.OffsetSecond? ==> StoresInt(Interpret(input, c), TwoDigits(input, c.offsetSecond.padding))
    ensures c.Month? ==>
      var read := Month(input, c.month);
      (Interpret(input, c).Some? <==> read.Some?) &&
      (read.Some? ==> Interpret(input, c).value.rest == read.value.rest && Interpret(input, c).value.value == PF.MonthOf(read.value.value))
    ensures c.Weekday? ==>
      var read := Weekday(input, c.weekday);
      (Interpret(input, c).Some? <==> read.Some?) &&
      (read.Some? ==> Interpret(input, c).value.rest == read.value.rest && Interpret(input, c).value.value == PF.WeekdayOf(read.value.value))
    ensures c.Period? ==>
      var read := Period(input, c.period);
      (Interpret(input, c).Some? <==> read.Some?) &&
      (read.Some? ==> Interpret(input, c).value.rest == read.value.rest && Interpret(input, c).value.value == PF.Flag(read.value.value))
  {
    match c
    case Day(_) =>
    case Month(_) =>
    case Ordinal(_) =>
    case Weekday(_) =>
    case WeekNumber(_) =>
    case Year(_) =>
    case Hour(_) =>
    case Minute(_) =>
    case Period(_) =>
    case Second(_) =>
    case Subsecond(_) =>
    case OffsetHour(_) =>
    case OffsetMinute(_) =>
    case OffsetSecond(_) =>
  }

  // ---- The subsecond loop ----

  lemma DigitsValueSnoc(d: string, c: char)
    requires AllDigits(d) && IsDigit(c)
    ensures AllDigits(d + [c]) && DigitsValue(d + [c]) == DigitsValue(d) * 10 + DigitValue(c)
  {
    var e := d + [c];
    assert AllDigits(e) by {
      forall i | 0 <= i < |e| ensures IsDigit(e[i]) {
        if i < |d| { assert e[i] == d[i]; }
      }
    }
    assert e[..|e| - 1] == d;
  }

  /** Shifting distributes over a number with one more digit. */
  lemma {:induction false} ShiftedSnoc(v: nat, x: nat, n: nat, m: nat)
    requires m == n + 1
    ensures Shifted(v * 10 + x, n) == Shifted(v, m) + Shifted(x, n)
  {
    if n > 0 {
      ShiftedSnoc(v, x, n - 1, m - 1);
    }
  }

  lemma {:induction false} ShiftedIsProduct(x: nat, n: nat)
    ensures Shifted(x, n) == x * Pow10(n)
  {
    if n > 0 {
      ShiftedIsProduct(x, n - 1);
      assert x * Pow10(n) == 10 * (x * Pow10(n - 1));
    }
  }

  /** Within the first nine digits, one more digit adds its value times the
      power of ten below the last one's, `n`. */
  lemma NanosecondsStepWithin(d: string, c: char, n: nat)
    requires AllDigits(d) && IsDigit(c) && 1 <= |d| < 9 && n == 8 - |d|
    ensures AllDigits(d + [c])
    ensures Nanoseconds(d + [c]) == Nanoseconds(d) + DigitValue(c) * Pow10(n)
  {
    var e := d + [c];
    DigitsValueSnoc(d, c);
    assert e[..|e|] == e && d[..|d|] == d;
    var k: nat, m: nat := |e|, |d|;
    assert Nanoseconds(e) == Shifted(DigitsValue(e), 9 - k);
    assert Nanoseconds(d) == Shifted(DigitsValue(d), 9 - m);
    ShiftedSnoc(DigitsValue(d), DigitValue(c), 9 - k, 9 - m);
    ShiftedIsProduct(DigitValue(c), 9 - k);
    assert 9 - k == n;
  }

  /** A first digit alone is worth its value in tenths of a second. */
  lemma NanosecondsFirst(c: char)
    requires IsDigit(c)
    ensures AllDigits([c]) && Nanoseconds([c]) == DigitValue(c) * 100_000_000
  {
    DigitsValueSnoc([], c);
    assert [c][..1] == [c] && [] + [c] == [c];
    var k: nat := 1;
    assert Nanoseconds([c]) == Shifted(DigitValue(c), 9 - k);
    ShiftedIsProduct(DigitValue(c), 8);
    assert Pow10(8) == 100_000_000;
  }

  /** From the tenth digit on, digits add nothing. */
  lemma NanosecondsStepBeyond(d: string, c: char)
    requires AllDigits(d) && IsDigit(c) && |d| >= 9
    ensures AllDigits(d + [c])
    ensures Nanoseconds(d + [c]) == Nanoseconds(d)
  {
    DigitsValueSnoc(d, c);
    assert (d + [c])[..9] == d[..9];
  }

  /** A maximal run of `i` leading digits is what `OneOrMore` reads. */
  lemma SubsecondRun(input: string, i: nat)
    requires 1 <= i <= |input| && AllDigits(input[..i])
    requires i < |input| ==> !IsDigit(input[i])
    ensures Subsecond(input, M.Subsecond(M.OneOrMore)) == Some(Read(input[i..], Nanoseconds(input[..i])))
  {
    DigitRunUnique(input, |input| + 1, i);
  }

  /** The `OneOrMore` arm of `parse_subsecond` as the crate writes it: the
      first digit is worth 100 000 000 ns, each further digit a tenth of the
      previous one, with the multiplier reaching 0 after the ninth digit, and
      every digit is consumed. */
  method SubsecondDigits(input: string) returns (r: Option<Read<nat>>)
    ensures r == Subsecond(input, M.Subsecond(M.OneOrMore))
  {
    if input == [] || !IsDigit(input[0]) {
      return None;
    }
    var value := DigitValue(input[0]) * 100_000_000;
    var multiplier := 10_000_000;
    var i := 1;
    assert input[..1] == [input[0]];
    NanosecondsFirst(input[0]);
    assert Pow10(7) == 10_000_000;
    while i < |input| && IsDigit(input[i])
      invariant 1 <= i <= |input| && AllDigits(input[..i])
      invariant value == Nanoseconds(input[..i])
      invariant multiplier == if i < 9 then Pow10(8 - i) else 0
    {
      if i < 9 {
        NanosecondsStepWithin(input[..i], input[i], 8 - i);
      } else {
        NanosecondsStepBeyond(input[..i], input[i]);
      }
      assert input[..i + 1] == input[..i] + [input[i]];
      value := value + DigitValue(input[i]) * multiplier;
      multiplier := multiplier / 10;
      i := i + 1;
    }
    SubsecondRun(input, i);
    return Some(Read(input[i..], value));
  }

  // ---- What the parsers accept and reject ----

  /** No component can be read from empty input. */
  lemma EmptyInputFails(c: FD.Component)
    ensures Interpret("", c).None?
  {
  }

  /** Two digits, whatever the padding, read as their number. */
  lemma TwoDigitsRead(s: string, padding: M.Padding)
    requires |s| == 2 && IsDigit(s[0]) && IsDigit(s[1])
    ensures DigitsPadded(s, 2, padding) == Some(Read("", DigitValue(s[0]) * 10 + DigitValue(s[1])))
  {
    assert s[1..][1..] == [];
    assert DigitRun(s[1..][1..], 0) == 0;
    assert DigitRun(s[1..], 1) == 1;
    assert DigitRun(s, 2) == 2;
    assert s[..2] == s && s[..1] == [s[0]] && s[2..] == "";
    assert DigitsValue([s[0]]) == DigitValue(s[0]) by {
      assert [s[0]][..0] == [];
    }
    assert SpaceRun(s, 1) == 0;
    assert s[0..] == s;
  }

  /** A two-digit zero is rejected by the non-zero readers, whatever the padding. */
  lemma NonZeroRejectsZero(s: string, padding: M.Padding)
    requires s == "00"
    ensures NonZeroTwoDigits(s, padding).None?
  {
    TwoDigitsRead(s, padding);
    assert DigitsPadded(s, 2, padding).value.value == 0;
  }

  /** `00` is not an ISO week number, whatever the padding: the field is non-zero. */
  lemma IsoWeekZero(s: string, padding: M.Padding)
    requires s == "00"
    ensures Interpret(s, FD.WeekNumber(M.WeekNumber(padding, M.Iso))).None?
  {
    NonZeroRejectsZero(s, padding);
    assert NonZeroTwoDigitField(s, padding, PF.IsoWeekNumber).None?;
  }

  /** `00` is not an hour on the 12-hour clock, whatever the padding. */
  lemma TwelveHourZero(s: string, padding: M.Padding)
    requires s == "00"
    ensures Interpret(s, FD.Hour(M.Hour(padding, true))).None?
  {
    NonZeroRejectsZero(s, padding);
    assert NonZeroTwoDigitField(s, padding, PF.Hour12).None?;
  }

  /** Zero-padded `00` is midnight on the 24-hour clock. */
  lemma MidnightHour(s: string)
    requires s == "00"
    ensures Interpret(s, FD.Hour(M.DefaultHour)) == Some(Outcome("", PF.Hour24, PF.Int(0)))
  {
    TwoDigitsRead(s, M.Zero);
    assert TwoDigits(s, M.Zero) == Some(Read("", 0));
    assert TwoDigitField(s, M.Zero, PF.Hour24) == Some(Outcome("", PF.Hour24, PF.Int(0)));
  }

  /** Zero-padded `05` is the fifth day. */
  lemma FifthDay(s: string)
    requires s == "05"
    ensures Interpret(s, FD.Day(M.DefaultDay)) == Some(Outcome("", PF.Day, PF.Int(5)))
  {
    TwoDigitsRead(s, M.Zero);
    assert DigitsPadded(s, 2, M.Zero) == Some(Read("", 5));
    assert NonZeroTwoDigits(s, M.Zero) == Some(Read("", 5));
    assert NonZeroTwoDigitField(s, M.Zero, PF.Day) == Some(Outcome("", PF.Day, PF.Int(5)));
  }

  /** A full year whose sign is mandatory is rejected without one. */
  lemma MandatorySign(s: string, m: M.Year)
    requires m.repr == M.Full && m.signIsMandatory && !(|s| > 0 && (s[0] == '+' || s[0] == '-'))
    ensures Year(s, m).None?
  {
  }
}

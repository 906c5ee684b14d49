/** The `Parsed` accumulator of `time::parsing` and the parsing driver built
    on it: `parse_component`, `parse_literal`, `parse_item`/`parse_items`, the
    resolution `Time::try_from(Parsed)` and `Time::parse`.

    `Parsed` is a mutable record: its setters and `parse_component` update it
    in place, so it is a class whose `Contents()` is the value of
    `ParsedFields.Fields` it currently holds. Each method is specified by a
    pure function on that value (`ComponentStep`, `RunItem`, `RunItems`). */
module Parsing {
  import opened Wrappers
  import opened Primitives
  import FD = FormatDescription
  import E = Errors
  import Cal = Calendar
  import PF = ParsedFields
  import CP = ComponentParse
  import M = Modifier

  // ---- The specification on values ----

  /** Where a parse stands: what has been learned and what input is left. */
  datatype Progress = Progress(fields: PF.Fields, rest: string)

  /** `Parsed::parse_literal`: the input must start with the literal, which is
      consumed; anything else is `InvalidLiteral`. */
  function ParseLiteral(input: string, literal: string): (r: Result<string, E.ParseFromDescription>)
    ensures r.Ok? <==> |literal| <= |input| && input[..|literal|] == literal
    ensures r.Ok? ==> literal + r.value == input
    ensures r.Err? ==> r.error == E.ParseFromDescription.InvalidLiteral
  {
    if |literal| <= |input| && input[..|literal|] == literal then
      assert input == literal + input[|literal|..];
      Ok(input[|literal|..])
    else
      Err(E.ParseFromDescription.InvalidLiteral)
  }

  /** `Parsed::parse_component`: the component reads a value from the front
      of the input into its own field, or fails naming the component. */
  function ComponentStep(p: PF.Fields, input: string, c: FD.Component): (r: Result<Progress, E.ParseFromDescription>)
    ensures r.Err? ==> r.error == E.ParseFromDescription.InvalidComponent(CP.ErrorName(c))
    ensures r.Ok? ==> IsSuffix(r.value.rest, input) && |r.value.rest| < |input|
    ensures r.Ok? ==> PF.Get(r.value.fields, CP.FieldOf(c)).Some?
    ensures r.Ok? <==> CP.Interpret(input, c).Some?
    ensures r.Ok? ==>
      r.value.rest == CP.Interpret(input, c).value.rest &&
      PF.Get(r.value.fields, CP.FieldOf(c)) == Some(CP.Interpret(input, c).value.value)
  {
    CP.InterpretField(input, c);
    match CP.Interpret(input, c)
    case None => Err(E.ParseFromDescription.InvalidComponent(CP.ErrorName(c)))
    case Some(o) =>
      PF.ReadAfterPut(p, o.field, o.value);
      Ok(Progress(PF.Put(p, o.field, o.value), o.rest))
  }

  /** `Parsed::parse_item`: a literal, a component or a compound item. */
  function RunItem(p: PF.Fields, input: string, item: FD.FormatItem): (r: Result<Progress, E.ParseFromDescription>)
    ensures r.Ok? ==> IsSuffix(r.value.rest, input)
    decreases item
  {
    match item
    case Literal(literal) =>
      var rest :- ParseLiteral(input, literal);
      Ok(Progress(p, rest))
    case Component(c) => ComponentStep(p, input, c)
    case Compound(items) => RunItems(p, input, items)
  }

  /** `Parsed::parse_items`: the items in order, each from where the last one
      stopped; the first failure is the result. */
  function RunItems(p: PF.Fields, input: string, items: seq<FD.FormatItem>): (r: Result<Progress, E.ParseFromDescription>)
    ensures r.Ok? ==> IsSuffix(r.value.rest, input)
    ensures items == [] ==> r == Ok(Progress(p, input))
    decreases items
  {
    if items == [] then Ok(Progress(p, input))
    else
      var next :- RunItem(p, input, items[0]);
      RunItems(next.fields, next.rest, items[1..])
  }

  // ---- The accumulator ----

  class Parsed {

    var year: Option<I32>
    var yearLastTwo: Option<U8>
    var isoYear: Option<I32>
    var isoYearLastTwo: Option<U8>
    var month: Option<Cal.Month>
    var sundayWeekNumber: Option<U8>
    var mondayWeekNumber: Option<U8>
    var isoWeekNumber: Option<NonZeroU8>
    var weekday: Option<Cal.Weekday>
    var ordinal: Option<NonZeroU16>
    var day: Option<NonZeroU8>
    var hour24: Option<U8>
    var hour12: Option<NonZeroU8>
    var hour12IsPm: Option<bool>
    var minute: Option<U8>
    var second: Option<U8>
    var subsecond: Option<U32>
    var offsetHour: Option<I8>
    var offsetMinute: Option<U8>
    var offsetSecond: Option<U8>

    /** The value the accumulator holds. */
    function Contents(): PF.Fields
      reads this
    {
      PF.Fields(year, yearLastTwo, isoYear, isoYearLastTwo, month, sundayWeekNumber, mondayWeekNumber, isoWeekNumber, weekday, ordinal, day, hour24, hour12, hour12IsPm, minute, second, subsecond, offsetHour, offsetMinute, offsetSecond)
    }

    /** `Parsed::new`: every field unset. */
    constructor ()
      ensures Contents() == PF.Empty
    {

      year := None;
      yearLastTwo := None;
      isoYear := None;
      isoYearLastTwo := None;
      month := None;
      sundayWeekNumber := None;
      mondayWeekNumber := None;
      isoWeekNumber := None;
      weekday := None;
      ordinal := None;
      day := None;
      hour24 := None;
      hour12 := None;
      hour12IsPm := None;
      minute := None;
      second := None;
      subsecond := None;
      offsetHour := None;
      offsetMinute := None;
      offsetSecond := None;
    }

    /** A copy of a value, what `let mut this = *self` makes. */
    constructor Copy(p: PF.Fields)
      ensures Contents() == p
    {

      year := p.year;
      yearLastTwo := p.yearLastTwo;
      isoYear := p.isoYear;
      isoYearLastTwo := p.isoYearLastTwo;
      month := p.month;
      sundayWeekNumber := p.sundayWeekNumber;
      mondayWeekNumber := p.mondayWeekNumber;
      isoWeekNumber := p.isoWeekNumber;
      weekday := p.weekday;
      ordinal := p.ordinal;
      day := p.day;
      hour24 := p.hour24;
      hour12 := p.hour12;
      hour12IsPm := p.hour12IsPm;
      minute := p.minute;
      second := p.second;
      subsecond := p.subsecond;
      offsetHour := p.offsetHour;
      offsetMinute := p.offsetMinute;
      offsetSecond := p.offsetSecond;
    }

    /** `*self = this`: take over every field of a value. */
    method Assign(p: PF.Fields)
      modifies this
      ensures Contents() == p
    {
      AssignYears(p);
      AssignWeeks(p);
      AssignDays(p);
      AssignHours(p);
      AssignSeconds(p);
      AssignOffset(p);
    }

    /** Take over the year fields of a value. */
    method AssignYears(p: PF.Fields)
      modifies this
      ensures Contents() == old(Contents()).(year := p.year, yearLastTwo := p.yearLastTwo, isoYear := p.isoYear, isoYearLastTwo := p.isoYearLastTwo)
    {
      year := p.year;
      yearLastTwo := p.yearLastTwo;
      isoYear := p.isoYear;
      isoYearLastTwo := p.isoYearLastTwo;
    }

    /** Take over the month and week-number fields of a value. */
    method AssignWeeks(p: PF.Fields)
      modifies this
      ensures Contents() == old(Contents()).(month := p.month, sundayWeekNumber := p.sundayWeekNumber, mondayWeekNumber := p.mondayWeekNumber, isoWeekNumber := p.isoWeekNumber)
    {
      month := p.month;
      sundayWeekNumber := p.sundayWeekNumber;
      mondayWeekNumber := p.mondayWeekNumber;
      isoWeekNumber := p.isoWeekNumber;
    }

    /** Take over the weekday, ordinal and day fields of a value. */
    method AssignDays(p: PF.Fields)
      modifies this
      ensures Contents() == old(Contents()).(weekday := p.weekday, ordinal := p.ordinal, day := p.day)
    {
      weekday := p.weekday;
      ordinal := p.ordinal;
      day := p.day;
    }

    /** Take over the hour fields of a value. */
    method AssignHours(p: PF.Fields)
      modifies this
      ensures Contents() == old(Contents()).(hour24 := p.hour24, hour12 := p.hour12, hour12IsPm := p.hour12IsPm)
    {
      hour24 := p.hour24;
      hour12 := p.hour12;
      hour12IsPm := p.hour12IsPm;
    }

    /** Take over the minute, second and subsecond fields of a value. */
    method AssignSeconds(p: PF.Fields)
      modifies this
      ensures Contents() == old(Contents()).(minute := p.minute, second := p.second, subsecond := p.subsecond)
    {
      minute := p.minute;
      second := p.second;
      subsecond := p.subsecond;
    }

    /** Take over the offset fields of a value. */
    method AssignOffset(p: PF.Fields)
      modifies this
      ensures Contents() == old(Contents()).(offsetHour := p.offsetHour, offsetMinute := p.offsetMinute, offsetSecond := p.offsetSecond)
    {
      offsetHour := p.offsetHour;
      offsetMinute := p.offsetMinute;
      offsetSecond := p.offsetSecond;
    }

    // `set_*`: each setter overwrites its own field and no other.


    method SetYear(value: I32)
      modifies this
      ensures Contents() == PF.Put(old(Contents()), PF.Year, PF.Int(value))
    {
      year := Some(value);
    }

    method SetYearLastTwo(value: U8)
      modifies this
      ensures Contents() == PF.Put(old(Contents()), PF.YearLastTwo, PF.Int(value))
    {
      yearLastTwo := Some(value);
    }

    method SetIsoYear(value: I32)
      modifies this
      ensures Contents() == PF.Put(old(Contents()), PF.IsoYear, PF.Int(value))
    {
      isoYear := Some(value);
    }

    method SetIsoYearLastTwo(value: U8)
      modifies this
      ensures Contents() == PF.Put(old(Contents()), PF.IsoYearLastTwo, PF.Int(value))
    {
      isoYearLastTwo := Some(value);
    }

    method SetMonth(value: Cal.Month)
      modifies this
      ensures Contents() == PF.Put(old(Contents()), PF.Month, PF.MonthOf(value))
    {
      month := Some(value);
    }

    method SetSundayWeekNumber(value: U8)
      modifies this
      ensures Contents() == PF.Put(old(Contents()), PF.SundayWeekNumber, PF.Int(value))
    {
      sundayWeekNumber := Some(value);
    }

    method SetMondayWeekNumber(value: U8)
      modifies this
      ensures Contents() == PF.Put(old(Contents()), PF.MondayWeekNumber, PF.Int(value))
    {
      mondayWeekNumber := Some(value);
    }

    method SetIsoWeekNumber(value: NonZeroU8)
      modifies this
      ensures Contents() == PF.Put(old(Contents()), PF.IsoWeekNumber, PF.Int(value))
    {
      isoWeekNumber := Some(value);
    }

    method SetWeekday(value: Cal.Weekday)
      modifies this
      ensures Contents() == PF.Put(old(Contents()), PF.Weekday, PF.WeekdayOf(value))
    {
      weekday := Some(value);
    }

    method SetOrdinal(value: NonZeroU16)
      modifies this
      ensures Contents() == PF.Put(old(Contents()), PF.Ordinal, PF.Int(value))
    {
      ordinal := Some(value);
    }

    method SetDay(value: NonZeroU8)
      modifies this
      ensures Contents() == PF.Put(old(Contents()), PF.Day, PF.Int(value))
    {
      day := Some(value);
    }

    method SetHour24(value: U8)
      modifies this
      ensures Contents() == PF.Put(old(Contents()), PF.Hour24, PF.Int(value))
    {
      hour24 := Some(value);
    }

    method SetHour12(value: NonZeroU8)
      modifies this
      ensures Contents() == PF.Put(old(Contents()), PF.Hour12, PF.Int(value))
    {
      hour12 := Some(value);
    }

    method SetHour12IsPm(value: bool)
      modifies this
      ensures Contents() == PF.Put(old(Contents()), PF.Hour12IsPm, PF.Flag(value))
    {
      hour12IsPm := Some(value);
    }

    method SetMinute(value: U8)
      modifies this
      ensures Contents() == PF.Put(old(Contents()), PF.Minute, PF.Int(value))
    {
      minute := Some(value);
    }

    method SetSecond(value: U8)
      modifies this
      ensures Contents() == PF.Put(old(Contents()), PF.Second, PF.Int(value))
    {
      second := Some(value);
    }

    method SetSubsecond(value: U32)
      modifies this
      ensures Contents() == PF.Put(old(Contents()), PF.Subsecond, PF.Int(value))
    {
      subsecond := Some(value);
    }

    method SetOffsetHour(value: I8)
      modifies this
      ensures Contents() == PF.Put(old(Contents()), PF.OffsetHour, PF.Int(value))
    {
      offsetHour := Some(value);
    }

    method SetOffsetMinute(value: U8)
      modifies this
      ensures Contents() == PF.Put(old(Contents()), PF.OffsetMinute, PF.Int(value))
    {
      offsetMinute := Some(value);
    }

    method SetOffsetSecond(value: U8)
      modifies this
      ensures Contents() == PF.Put(old(Contents()), PF.OffsetSecond, PF.Int(value))
    {
      offsetSecond := Some(value);
    }


    /** The setter of field `f`, given a value of the field's type. */
    method Store(f: PF.Field, v: PF.Value)
      requires PF.Fits(f, v)
      modifies this
      ensures Contents() == PF.Put(old(Contents()), f, v)
    {
      match f
      case Year => SetYear(v.i);
      case YearLastTwo => SetYearLastTwo(v.i);
      case IsoYear => SetIsoYear(v.i);
      case IsoYearLastTwo => SetIsoYearLastTwo(v.i);
      case Month => SetMonth(v.month);
      case SundayWeekNumber => SetSundayWeekNumber(v.i);
      case MondayWeekNumber => SetMondayWeekNumber(v.i);
      case IsoWeekNumber => SetIsoWeekNumber(v.i);
      case Weekday => SetWeekday(v.weekday);
      case Ordinal => SetOrdinal(v.i);
      case Day => SetDay(v.i);
      case Hour24 => SetHour24(v.i);
      case Hour12 => SetHour12(v.i);
      case Hour12IsPm => SetHour12IsPm(v.flag);
      case Minute => SetMinute(v.i);
      case Second => SetSecond(v.i);
      case Subsecond => SetSubsecond(v.i);
      case OffsetHour => SetOffsetHour(v.i);
      case OffsetMinute => SetOffsetMinute(v.i);
      case OffsetSecond => SetOffsetSecond(v.i);
    }

    /** `parse_component`: on success the component's field is set and the
        rest of the input returned; on failure nothing changes. */
    method ParseComponent(input: string, c: FD.Component) returns (r: Result<string, E.ParseFromDescription>)
      modifies this
      ensures ComponentStep(old(Contents()), input, c).Err? ==>
        r == Err(ComponentStep(old(Contents()), input, c).error) && Contents() == old(Contents())
      ensures ComponentStep(old(Contents()), input, c).Ok? ==>
        r == Ok(ComponentStep(old(Contents()), input, c).value.rest) &&
        Contents() == ComponentStep(old(Contents()), input, c).value.fields
    {
      var outcome := CP.Interpret(input, c);
      CP.InterpretField(input, c);
      if outcome.None? {
        return Err(E.ParseFromDescription.InvalidComponent(CP.ErrorName(c)));
      }
      Store(outcome.value.field, outcome.value.value);
      return Ok(outcome.value.rest);
    }

    /** `parse_item`. A failure leaves the accumulator as it was. */
    method ParseItem(input: string, item: FD.FormatItem) returns (r: Result<string, E.ParseFromDescription>)
      modifies this
      decreases item, 0
      ensures RunItem(old(Contents()), input, item).Err? ==>
        r == Err(RunItem(old(Contents()), input, item).error) && Contents() == old(Contents())
      ensures RunItem(old(Contents()), input, item).Ok? ==>
        r == Ok(RunItem(old(Contents()), input, item).value.rest) &&
        Contents() == RunItem(old(Contents()), input, item).value.fields
    {
      match item
      case Literal(literal) =>
        r := ParseLiteral(input, literal);
      case Component(c) =>
        r := ParseComponent(input, c);
      case Compound(items) =>
        r := ParseItems(input, items);
    }

    /** `parse_items`: the items run on a copy, which replaces the
        accumulator only if every item succeeds. */
    method ParseItems(input: string, items: seq<FD.FormatItem>) returns (r: Result<string, E.ParseFromDescription>)
      modifies this
      decreases items, 1
      ensures RunItems(old(Contents()), input, items).Err? ==>
        r == Err(RunItems(old(Contents()), input, items).error) && Contents() == old(Contents())
      ensures RunItems(old(Contents()), input, items).Ok? ==>
        r == Ok(RunItems(old(Contents()), input, items).value.rest) &&
        Contents() == RunItems(old(Contents()), input, items).value.fields
    {
      var copy := new Parsed.Copy(Contents());
      var rest := input;
      var i := 0;
      while i < |items|
        invariant 0 <= i <= |items|
        invariant Contents() == old(Contents())
        invariant RunItems(old(Contents()), input, items) == RunItems(copy.Contents(), rest, items[i..])
      {
        var step := copy.ParseItem(rest, items[i]);
        if step.Err? {
          return Err(step.error);
        }
        rest := step.value;
        i := i + 1;
      }
      Assign(copy.Contents());
      return Ok(rest);
    }
  }


  // ---- Resolution: `Time::try_from(Parsed)` ----

  /** The hour a `Parsed` determines: the 24-hour field if set, otherwise
      the 12-hour field read with its AM/PM flag, which must then be set too. */
  function HourOf(p: PF.Fields): (h: Option<nat>)
    ensures p.hour24.Some? ==> h == Some(p.hour24.value)
    ensures p.hour24.None? ==> (h.Some? <==> p.hour12.Some? && p.hour12IsPm.Some?)
    ensures p.hour24.None? && h.Some? ==> h.value == Cal.ClockHour(p.hour12.value, p.hour12IsPm.value)
  {
    if p.hour24.Some? then Some(p.hour24.value)
    else if p.hour12.Some? && p.hour12IsPm.Some? then Some(Cal.ClockHour(p.hour12.value, p.hour12IsPm.value))
    else None
  }

  /** `Time::try_from(Parsed)`: an hour and a minute are required, the second
      and the subsecond default to zero, and the result is range-checked by
      `Time::from_hms_nano`. */
  function TimeFromFields(p: PF.Fields): (r: Result<Cal.Time, E.TryFromParsed>)
    ensures HourOf(p).None? || p.minute.None? <==> r == Err(E.TryFromParsed.InsufficientInformation)
    ensures r.Ok? ==>
      r.value.hour == HourOf(p).value && r.value.minute == p.minute.value &&
      r.value.second == (if p.second.Some? then p.second.value else 0) &&
      r.value.nanosecond == (if p.subsecond.Some? then p.subsecond.value else 0)
    ensures HourOf(p).Some? && p.minute.Some? ==>
      var hour, minute := HourOf(p).value, p.minute.value;
      var second := if p.second.Some? then p.second.value else 0;
      var subsecond := if p.subsecond.Some? then p.subsecond.value else 0;
      (r.Ok? <==> hour < 24 && minute < 60 && second < 60 && subsecond < 1_000_000_000) &&
      (r.Err? ==>
         r.error.ComponentRange? &&
         r.error.range.name ==
           (if hour >= 24 then "hour" else if minute >= 60 then "minute"
            else if second >= 60 then "second" else "nanosecond") &&
         r.error.range.value ==
           (if hour >= 24 then hour else if minute >= 60 then minute
            else if second >= 60 then second else subsecond))
  {
    if HourOf(p).None? || p.minute.None? then
      Err(E.TryFromParsed.InsufficientInformation)
    else
      var second := if p.second.Some? then p.second.value else 0;
      var subsecond := if p.subsecond.Some? then p.subsecond.value else 0;
      match Cal.FromHmsNano(HourOf(p).value, p.minute.value, second, subsecond)
      case Ok(time) => Ok(time)
      case Err(range) => Err(E.TryFromParsed.ComponentRange(range))
  }

  /** The fields that describe a time of day on the 24-hour clock. */
  function FieldsOf24(t: Cal.Time): PF.Fields
    requires t.hour < 24 && t.minute < 60 && t.second < 60 && t.nanosecond < 1_000_000_000
  {
    PF.Empty.(hour24 := Some(t.hour), minute := Some(t.minute), second := Some(t.second), subsecond := Some(t.nanosecond))
  }

  /** The fields that describe a time of day on the 12-hour clock. */
  function FieldsOf12(t: Cal.Time): PF.Fields
    requires t.hour < 24 && t.minute < 60 && t.second < 60 && t.nanosecond < 1_000_000_000
  {
    var (hour12, pm) := Cal.Hour12Of(t.hour);
    PF.Empty.(hour12 := Some(hour12), hour12IsPm := Some(pm), minute := Some(t.minute),
              second := Some(t.second), subsecond := Some(t.nanosecond))
  }

  /** Every time of day is recovered from its fields, whether its hour is
      given on the 24-hour or on the 12-hour clock. */
  lemma TimeFromFieldsRoundTrip(t: Cal.Time)
    requires t.hour < 24 && t.minute < 60 && t.second < 60 && t.nanosecond < 1_000_000_000
    ensures TimeFromFields(FieldsOf24(t)) == Ok(t)
    ensures TimeFromFields(FieldsOf12(t)) == Ok(t)
  {
    Cal.ClockHourBijection(1, false, t.hour);
    assert HourOf(FieldsOf12(t)) == Some(t.hour);
  }

  /** When both are set, the 24-hour field wins over the 12-hour one. */
  lemma Hour24Wins(p: PF.Fields, hour12: NonZeroU8, pm: bool)
    requires p.hour24.Some?
    ensures TimeFromFields(p.(hour12 := Some(hour12), hour12IsPm := Some(pm))) == TimeFromFields(p)
  {
  }

  /** `Parsed` -> `Time` fails with `InsufficientInformation` on a new `Parsed`. */
  lemma NothingResolves()
    ensures TimeFromFields(PF.Empty) == Err(E.TryFromParsed.InsufficientInformation)
  {
  }

  // ---- `Time::parse` ----

  /** `Parsable::parse` for a single item: run it on a new `Parsed`, and
      reject input it leaves over. */
  function ParseFields(input: string, item: FD.FormatItem): (r: Result<PF.Fields, E.Parse>)
    ensures r.Ok? ==> RunItem(PF.Empty, input, item).Ok? && RunItem(PF.Empty, input, item).value.rest == []
    ensures r.Ok? ==> r.value == RunItem(PF.Empty, input, item).value.fields
    ensures RunItem(PF.Empty, input, item).Err? ==>
      r == Err(E.Parse.ParseFromDescription(RunItem(PF.Empty, input, item).error))
    ensures RunItem(PF.Empty, input, item).Ok? && RunItem(PF.Empty, input, item).value.rest != [] ==>
      r == Err(E.Parse.UnexpectedTrailingCharacters)
  {
    match RunItem(PF.Empty, input, item)
    case Err(e) => Err(E.Parse.ParseFromDescription(e))
    case Ok(done) => if done.rest == [] then Ok(done.fields) else Err(E.Parse.UnexpectedTrailingCharacters)
  }

  /** `Time::parse` with a single format item. */
  function TimeParse(input: string, item: FD.FormatItem): (r: Result<Cal.Time, E.Parse>)
    ensures r.Ok? <==> ParseFields(input, item).Ok? && TimeFromFields(ParseFields(input, item).value).Ok?
    ensures r.Ok? ==> TimeFromFields(ParseFields(input, item).value) == Ok(r.value)
    ensures ParseFields(input, item).Err? ==> r == Err(ParseFields(input, item).error)
    ensures ParseFields(input, item).Ok? && TimeFromFields(ParseFields(input, item).value).Err? ==>
      r == Err(E.Parse.TryFromParsed(TimeFromFields(ParseFields(input, item).value).error))
  {
    var fields :- ParseFields(input, item);
    match TimeFromFields(fields)
    case Ok(time) => Ok(time)
    case Err(e) => Err(E.Parse.TryFromParsed(e))
  }

  /** `Time::parse` as the crate runs it: a new `Parsed`, the item, the
      check for leftover input, then the resolution. */
  method ParseTime(input: string, item: FD.FormatItem) returns (r: Result<Cal.Time, E.Parse>)
    ensures r == TimeParse(input, item)
  {
    var parsed := new Parsed();
    var step := parsed.ParseItem(input, item);
    if step.Err? {
      return Err(E.Parse.ParseFromDescription(step.error));
    }
    if step.value != [] {
      return Err(E.Parse.UnexpectedTrailingCharacters);
    }
    var time := TimeFromFields(parsed.Contents());
    if time.Err? {
      return Err(E.Parse.TryFromParsed(time.error));
    }
    return Ok(time.value);
  }

  // ---- Laws of the driver ----

  /** A literal followed by anything is consumed exactly. */
  lemma LiteralRoundTrip(literal: string, rest: string)
    ensures ParseLiteral(literal + rest, literal) == Ok(rest)
  {
    assert (literal + rest)[..|literal|] == literal;
  }

  /** `parse_literal(b"a", b"b")` is `InvalidLiteral`. */
  lemma LiteralMismatch(input: string, literal: string)
    requires input == "a" && literal == "b"
    ensures ParseLiteral(input, literal) == Err(E.ParseFromDescription.InvalidLiteral)
  {
    assert input[..|literal|][0] != literal[0];
  }

  /** A component changes no field but its own. */
  lemma ComponentStepFrame(p: PF.Fields, input: string, c: FD.Component, g: PF.Field)
    requires g != CP.FieldOf(c)
    ensures ComponentStep(p, input, c).Ok? ==> PF.Get(ComponentStep(p, input, c).value.fields, g) == PF.Get(p, g)
  {
    var o := CP.Interpret(input, c);
    CP.InterpretField(input, c);
    if o.Some? {
      PF.PutLeavesOthers(p, o.value.field, g, o.value.value);
    }
  }

  /** The fields the components of an item, or of a list of items, write. */
  function ItemFields(item: FD.FormatItem): set<PF.Field>
    decreases item
  {
    match item
    case Literal(_) => {}
    case Component(c) => {CP.FieldOf(c)}
    case Compound(items) => ItemsFields(items)
  }

  function ItemsFields(items: seq<FD.FormatItem>): set<PF.Field>
    decreases items
  {
    if items == [] then {} else ItemFields(items[0]) + ItemsFields(items[1..])
  }

  /** A successful item leaves a suffix of its input, and changes no field
      outside those its components write. */
  lemma {:induction false} RunItemFrame(p: PF.Fields, input: string, item: FD.FormatItem, g: PF.Field)
    requires g !in ItemFields(item)
    ensures RunItem(p, input, item).Ok? ==>
      IsSuffix(RunItem(p, input, item).value.rest, input) &&
      PF.Get(RunItem(p, input, item).value.fields, g) == PF.Get(p, g)
    decreases item, 0
  {
    match item
    case Literal(_) =>
    case Component(c) =>
      ComponentStepFrame(p, input, c, g);
    case Compound(items) =>
      RunItemsFrame(p, input, items, g);
  }

  lemma {:induction false} RunItemsFrame(p: PF.Fields, input: string, items: seq<FD.FormatItem>, g: PF.Field)
    requires g !in ItemsFields(items)
    ensures RunItems(p, input, items).Ok? ==>
      IsSuffix(RunItems(p, input, items).value.rest, input) &&
      PF.Get(RunItems(p, input, items).value.fields, g) == PF.Get(p, g)
    decreases items, 1
  {
    if items != [] {
      RunItemFrame(p, input, items[0], g);
      var next := RunItem(p, input, items[0]);
      if next.Ok? {
        RunItemsFrame(next.value.fields, next.value.rest, items[1..], g);
      }
    }
  }

  /** Running two lists of items one after the other is running their
      concatenation. */
  lemma {:induction false} RunItemsAppend(p: PF.Fields, input: string, a: seq<FD.FormatItem>, b: seq<FD.FormatItem>)
    ensures RunItems(p, input, a + b) ==
      match RunItems(p, input, a)
      case Err(e) => Err(e)
      case Ok(mid) => RunItems(mid.fields, mid.rest, b)
    decreases a
  {
    if a != [] {
      assert (a + b)[0] == a[0] && (a + b)[1..] == a[1..] + b;
      var next := RunItem(p, input, a[0]);
      if next.Ok? {
        RunItemsAppend(next.value.fields, next.value.rest, a[1..], b);
      }
    } else {
      assert a + b == b;
    }
  }

  /** A compound item is the same as its items in sequence. */
  lemma CompoundIsSequence(p: PF.Fields, input: string, a: FD.FormatItem, b: FD.FormatItem)
    ensures RunItem(p, input, FD.Compound([a, b])) ==
      match RunItem(p, input, a)
      case Err(e) => Err(e)
      case Ok(mid) => RunItem(mid.fields, mid.rest, b)
  {
    RunItemsAppend(p, input, [a], [b]);
    assert [a] + [b] == [a, b];
    assert [b][1..] == [];
    var first := RunItem(p, input, a);
    if first.Ok? {
      var second := RunItem(first.value.fields, first.value.rest, b);
      if second.Ok? {
        assert RunItems(first.value.fields, first.value.rest, [b]) == Ok(second.value);
      }
    }
  }

  // ---- What `Time::parse` does with a lone literal ----

  /** `Time::parse` with a lone literal never gives a time: a literal sets no
      field, so input it matches exactly cannot be resolved, input it matches
      with more after it has trailing characters, and any other input is an
      invalid literal. */
  lemma LoneLiteralFails(input: string, l: string)
    ensures TimeParse(input, FD.Literal(l)) ==
      if |l| <= |input| && input[..|l|] == l then
        (if |input| == |l| then Err(E.Parse.TryFromParsed(E.TryFromParsed.InsufficientInformation))
         else Err(E.Parse.UnexpectedTrailingCharacters))
      else Err(E.Parse.ParseFromDescription(E.ParseFromDescription.InvalidLiteral))
  {
    if |l| <= |input| && input[..|l|] == l {
      var rest := ParseLiteral(input, l).value;
      assert l + rest == input;
      assert rest == [] <==> |input| == |l|;
      NothingResolves();
    }
  }

  /** A literal that matches the whole input leaves nothing to resolve a time from. */
  lemma LoneLiteralMatches(input: string)
    requires input == "a"
    ensures TimeParse(input, FD.Literal("a")) == Err(E.Parse.TryFromParsed(E.TryFromParsed.InsufficientInformation))
  {
    LiteralRoundTrip("a", "");
    assert input == "a" + "";
    NothingResolves();
  }

  /** A literal that does not match fails as an invalid literal. */
  lemma LoneLiteralMismatch(input: string)
    requires input == "b"
    ensures TimeParse(input, FD.Literal("a")) == Err(E.Parse.ParseFromDescription(E.ParseFromDescription.InvalidLiteral))
  {
    LiteralMismatch("a", "b");
    assert input[..1][0] != "a"[0];
  }

  /** Input left over after the last item is rejected before resolution. */
  lemma TrailingInput(input: string)
    requires input == "a"
    ensures TimeParse(input, FD.Compound([])) == Err(E.Parse.UnexpectedTrailingCharacters)
  {
  }

  // ---- The accumulator in use ----

  /** On a new `Parsed`, a setter followed by the getter of the same field
      reads back what was set. */
  method SetThenRead(f: PF.Field, v: PF.Value) returns (r: Option<PF.Value>)
    requires PF.Fits(f, v)
    ensures r == Some(v)
  {
    var parsed := new Parsed();
    parsed.Store(f, v);
    PF.ReadAfterPut(PF.Empty, f, v);
    r := PF.Get(parsed.Contents(), f);
  }

  /** On a new `Parsed`, no component reads anything from empty input, and
      the error names the component. */
  method ComponentOnEmptyInput(c: FD.Component) returns (r: Result<string, E.ParseFromDescription>)
    ensures r == Err(E.ParseFromDescription.InvalidComponent(CP.ErrorName(c)))
  {
    var parsed := new Parsed();
    CP.EmptyInputFails(c);
    r := parsed.ParseComponent("", c);
  }

  /** `00` is neither an ISO week number nor an hour on the 12-hour clock. */
  method ZeroRejected(s: string, padding: M.Padding) returns (week: Result<string, E.ParseFromDescription>, hour: Result<string, E.ParseFromDescription>)
    requires s == "00"
    ensures week == Err(E.ParseFromDescription.InvalidComponent("week number"))
    ensures hour == Err(E.ParseFromDescription.InvalidComponent("hour"))
  {
    CP.IsoWeekZero(s, padding);
    CP.TwelveHourZero(s, padding);
    var parsed := new Parsed();
    week := parsed.ParseComponent(s, FD.WeekNumber(M.WeekNumber(padding, M.Iso)));
    hour := parsed.ParseComponent(s, FD.Hour(M.Hour(padding, true)));
  }
}

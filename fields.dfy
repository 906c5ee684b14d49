/** The `Parsed` accumulator's contents as a value: twenty optional fields,
    one per quantity a component can produce, each of the Rust type the crate
    stores. `Get` and `Put` address a field by name, and every builder and
    setter is `Put` on its own field. */
module ParsedFields {
  import opened Wrappers
  import opened Primitives
  import Cal = Calendar

  datatype Fields = Fields(
    year: Option<I32>,
    yearLastTwo: Option<U8>,
    isoYear: Option<I32>,
    isoYearLastTwo: Option<U8>,
    month: Option<Cal.Month>,
    sundayWeekNumber: Option<U8>,
    mondayWeekNumber: Option<U8>,
    isoWeekNumber: Option<NonZeroU8>,
    weekday: Option<Cal.Weekday>,
    ordinal: Option<NonZeroU16>,
    day: Option<NonZeroU8>,
    hour24: Option<U8>,
    hour12: Option<NonZeroU8>,
    hour12IsPm: Option<bool>,
    minute: Option<U8>,
    second: Option<U8>,
    subsecond: Option<U32>,
    offsetHour: Option<I8>,
    offsetMinute: Option<U8>,
    offsetSecond: Option<U8>)

  /** `Parsed::new`: nothing known yet. */
  const Empty := Fields(None, None, None, None, None, None, None, None, None, None, None, None, None, None, None, None, None, None, None, None)

  /** The names of the fields. */
  datatype Field =
    Year | YearLastTwo | IsoYear | IsoYearLastTwo | Month
    | SundayWeekNumber | MondayWeekNumber | IsoWeekNumber | Weekday | Ordinal
    | Day | Hour24 | Hour12 | Hour12IsPm | Minute
    | Second | Subsecond | OffsetHour | OffsetMinute | OffsetSecond

  /** A field's value, whatever its type. */
  datatype Value = Int(i: int) | MonthOf(month: Cal.Month) | WeekdayOf(weekday: Cal.Weekday) | Flag(flag: bool)

  /** `v` is a value of field `f`'s Rust type. */
  predicate Fits(f: Field, v: Value)
  {
    match f
    case Year => v.Int? && -0x8000_0000 <= v.i < 0x8000_0000
    case YearLastTwo => v.Int? && 0 <= v.i < 0x100
    case IsoYear => v.Int? && -0x8000_0000 <= v.i < 0x8000_0000
    case IsoYearLastTwo => v.Int? && 0 <= v.i < 0x100
    case Month => v.MonthOf?
    case SundayWeekNumber => v.Int? && 0 <= v.i < 0x100
    case MondayWeekNumber => v.Int? && 0 <= v.i < 0x100
    case IsoWeekNumber => v.Int? && 1 <= v.i < 0x100
    case Weekday => v.WeekdayOf?
    case Ordinal => v.Int? && 1 <= v.i < 0x1_0000
    case Day => v.Int? && 1 <= v.i < 0x100
    case Hour24 => v.Int? && 0 <= v.i < 0x100
    case Hour12 => v.Int? && 1 <= v.i < 0x100
    case Hour12IsPm => v.Flag?
    case Minute => v.Int? && 0 <= v.i < 0x100
    case Second => v.Int? && 0 <= v.i < 0x100
    case Subsecond => v.Int? && 0 <= v.i < 0x1_0000_0000
    case OffsetHour => v.Int? && -0x80 <= v.i < 0x80
    case OffsetMinute => v.Int? && 0 <= v.i < 0x100
    case OffsetSecond => v.Int? && 0 <= v.i < 0x100
  }

  function IntValue(o: Option<int>): Option<Value>
  {
    if o.Some? then Some(Int(o.value)) else None
  }

  /** The getter of field `f`. */
  function Get(p: Fields, f: Field): (r: Option<Value>)
    ensures r.Some? ==> Fits(f, r.value)
  {
    match f
    case Year => IntValue(p.year)
    case YearLastTwo => IntValue(p.yearLastTwo)
    case IsoYear => IntValue(p.isoYear)
    case IsoYearLastTwo => IntValue(p.isoYearLastTwo)
    case Month => if p.month.Some? then Some(MonthOf(p.month.value)) else None
    case SundayWeekNumber => IntValue(p.sundayWeekNumber)
    case MondayWeekNumber => IntValue(p.mondayWeekNumber)
    case IsoWeekNumber => IntValue(p.isoWeekNumber)
    case Weekday => if p.weekday.Some? then Some(WeekdayOf(p.weekday.value)) else None
    case Ordinal => IntValue(p.ordinal)
    case Day => IntValue(p.day)
    case Hour24 => IntValue(p.hour24)
    case Hour12 => IntValue(p.hour12)
    case Hour12IsPm => if p.hour12IsPm.Some? then Some(Flag(p.hour12IsPm.value)) else None
    case Minute => IntValue(p.minute)
    case Second => IntValue(p.second)
    case Subsecond => IntValue(p.subsecond)
    case OffsetHour => IntValue(p.offsetHour)
    case OffsetMinute => IntValue(p.offsetMinute)
    case OffsetSecond => IntValue(p.offsetSecond)
  }

  /** Field `f` set to `v`, every other field as in `p`. */
  function Put(p: Fields, f: Field, v: Value): Fields
    requires Fits(f, v)
  {
    match f
    case Year => p.(year := Some(v.i))
    case YearLastTwo => p.(yearLastTwo := Some(v.i))
    case IsoYear => p.(isoYear := Some(v.i))
    case IsoYearLastTwo => p.(isoYearLastTwo := Some(v.i))
    case Month => p.(month := Some(v.month))
    case SundayWeekNumber => p.(sundayWeekNumber := Some(v.i))
    case MondayWeekNumber => p.(mondayWeekNumber := Some(v.i))
    case IsoWeekNumber => p.(isoWeekNumber := Some(v.i))
    case Weekday => p.(weekday := Some(v.weekday))
    case Ordinal => p.(ordinal := Some(v.i))
    case Day => p.(day := Some(v.i))
    case Hour24 => p.(hour24 := Some(v.i))
    case Hour12 => p.(hour12 := Some(v.i))
    case Hour12IsPm => p.(hour12IsPm := Some(v.flag))
    case Minute => p.(minute := Some(v.i))
    case Second => p.(second := Some(v.i))
    case Subsecond => p.(subsecond := Some(v.i))
    case OffsetHour => p.(offsetHour := Some(v.i))
    case OffsetMinute => p.(offsetMinute := Some(v.i))
    case OffsetSecond => p.(offsetSecond := Some(v.i))
  }

  /** A field reads back the value it was last set to. */
  lemma ReadAfterPut(p: Fields, f: Field, v: Value)
    requires Fits(f, v)
    ensures Get(Put(p, f, v), f) == Some(v)
  {
  }

  /** Setting one field leaves every other field as it was. */
  lemma PutLeavesOthers(p: Fields, f: Field, g: Field, v: Value)
    requires Fits(f, v) && f != g
    ensures Get(Put(p, f, v), g) == Get(p, g)
  {
  }

  /** Equal getters give equal date fields. */
  lemma DateFieldsAgree(p: Fields, q: Fields)
    requires forall f :: Get(p, f) == Get(q, f)
    ensures p.year == q.year && p.yearLastTwo == q.yearLastTwo && p.isoYear == q.isoYear && p.isoYearLastTwo == q.isoYearLastTwo && p.month == q.month && p.sundayWeekNumber == q.sundayWeekNumber && p.mondayWeekNumber == q.mondayWeekNumber && p.isoWeekNumber == q.isoWeekNumber && p.weekday == q.weekday && p.ordinal == q.ordinal && p.day == q.day
  {
    assert Get(p, Year) == Get(q, Year);
    assert Get(p, YearLastTwo) == Get(q, YearLastTwo);
    assert Get(p, IsoYear) == Get(q, IsoYear);
    assert Get(p, IsoYearLastTwo) == Get(q, IsoYearLastTwo);
    assert Get(p, Month) == Get(q, Month);
    assert Get(p, SundayWeekNumber) == Get(q, SundayWeekNumber);
    assert Get(p, MondayWeekNumber) == Get(q, MondayWeekNumber);
    assert Get(p, IsoWeekNumber) == Get(q, IsoWeekNumber);
    assert Get(p, Weekday) == Get(q, Weekday);
    assert Get(p, Ordinal) == Get(q, Ordinal);
    assert Get(p, Day) == Get(q, Day);
  }

  /** Equal getters give equal time and offset fields. */
  lemma TimeFieldsAgree(p: Fields, q: Fields)
    requires forall f :: Get(p, f) == Get(q, f)
    ensures p.hour24 == q.hour24 && p.hour12 == q.hour12 && p.hour12IsPm == q.hour12IsPm && p.minute == q.minute && p.second == q.second && p.subsecond == q.subsecond && p.offsetHour == q.offsetHour && p.offsetMinute == q.offsetMinute && p.offsetSecond == q.offsetSecond
  {
    assert Get(p, Hour24) == Get(q, Hour24);
    assert Get(p, Hour12) == Get(q, Hour12);
    assert Get(p, Hour12IsPm) == Get(q, Hour12IsPm);
    assert Get(p, Minute) == Get(q, Minute);
    assert Get(p, Second) == Get(q, Second);
    assert Get(p, Subsecond) == Get(q, Subsecond);
    assert Get(p, OffsetHour) == Get(q, OffsetHour);
    assert Get(p, OffsetMinute) == Get(q, OffsetMinute);
    assert Get(p, OffsetSecond) == Get(q, OffsetSecond);
  }

  /** A `Parsed` is determined by what its getters return. */
  lemma FieldsExtensional(p: Fields, q: Fields)
    requires forall f :: Get(p, f) == Get(q, f)
    ensures p == q
  {
    DateFieldsAgree(p, q);
    TimeFieldsAgree(p, q);
  }

  /** Setting a field twice keeps the last value only. */
  lemma LastWriteWins(p: Fields, f: Field, v: Value, w: Value)
    requires Fits(f, v) && Fits(f, w)
    ensures Put(Put(p, f, v), f, w) == Put(p, f, w)
  {
  }

  /** A new `Parsed` has every field unset. */
  lemma EmptyIsUnset(f: Field)
    ensures Get(Empty, f) == None
  {
  }

  /** Setting one field of a new `Parsed` and reading it back gives the value
      set, whatever the field. */
  lemma SetThenGet(f: Field, v: Value)
    requires Fits(f, v)
    ensures Get(Put(Empty, f, v), f) == Some(v)
    ensures forall g :: g != f ==> Get(Put(Empty, f, v), g) == None
  {
    ReadAfterPut(Empty, f, v);
    forall g | g != f
      ensures Get(Put(Empty, f, v), g) == None
    {
      PutLeavesOthers(Empty, f, g, v);
    }
  }

  // ---- The builders: `with_*` consumes the value and returns it updated ----

  function WithYear(p: Fields, value: I32): (r: Option<Fields>)
    ensures r == Some(Put(p, Year, Int(value)))
  {
    Some(p.(year := Some(value)))
  }

  function WithYearLastTwo(p: Fields, value: U8): (r: Option<Fields>)
    ensures r == Some(Put(p, YearLastTwo, Int(value)))
  {
    Some(p.(yearLastTwo := Some(value)))
  }

  function WithIsoYear(p: Fields, value: I32): (r: Option<Fields>)
    ensures r == Some(Put(p, IsoYear, Int(value)))
  {
    Some(p.(isoYear := Some(value)))
  }

  function WithIsoYearLastTwo(p: Fields, value: U8): (r: Option<Fields>)
    ensures r == Some(Put(p, IsoYearLastTwo, Int(value)))
  {
    Some(p.(isoYearLastTwo := Some(value)))
  }

  function WithMonth(p: Fields, value: Cal.Month): (r: Option<Fields>)
    ensures r == Some(Put(p, Month, MonthOf(value)))
  {
    Some(p.(month := Some(value)))
  }

  function WithSundayWeekNumber(p: Fields, value: U8): (r: Option<Fields>)
    ensures r == Some(Put(p, SundayWeekNumber, Int(value)))
  {
    Some(p.(sundayWeekNumber := Some(value)))
  }

  function WithMondayWeekNumber(p: Fields, value: U8): (r: Option<Fields>)
    ensures r == Some(Put(p, MondayWeekNumber, Int(value)))
  {
    Some(p.(mondayWeekNumber := Some(value)))
  }

  function WithIsoWeekNumber(p: Fields, value: NonZeroU8): (r: Option<Fields>)
    ensures r == Some(Put(p, IsoWeekNumber, Int(value)))
  {
    Some(p.(isoWeekNumber := Some(value)))
  }

  function WithWeekday(p: Fields, value: Cal.Weekday): (r: Option<Fields>)
    ensures r == Some(Put(p, Weekday, WeekdayOf(value)))
  {
    Some(p.(weekday := Some(value)))
  }

  function WithOrdinal(p: Fields, value: NonZeroU16): (r: Option<Fields>)
    ensures r == Some(Put(p, Ordinal, Int(value)))
  {
    Some(p.(ordinal := Some(value)))
  }

  function WithDay(p: Fields, value: NonZeroU8): (r: Option<Fields>)
    ensures r == Some(Put(p, Day, Int(value)))
  {
    Some(p.(day := Some(value)))
  }

  function WithHour24(p: Fields, value: U8): (r: Option<Fields>)
    ensures r == Some(Put(p, Hour24, Int(value)))
  {
    Some(p.(hour24 := Some(value)))
  }

  function WithHour12(p: Fields, value: NonZeroU8): (r: Option<Fields>)
    ensures r == Some(Put(p, Hour12, Int(value)))
  {
    Some(p.(hour12 := Some(value)))
  }

  function WithHour12IsPm(p: Fields, value: bool): (r: Option<Fields>)
    ensures r == Some(Put(p, Hour12IsPm, Flag(value)))
  {
    Some(p.(hour12IsPm := Some(value)))
  }

  function WithMinute(p: Fields, value: U8): (r: Option<Fields>)
    ensures r == Some(Put(p, Minute, Int(value)))
  {
    Some(p.(minute := Some(value)))
  }

  function WithSecond(p: Fields, value: U8): (r: Option<Fields>)
    ensures r == Some(Put(p, Second, Int(value)))
  {
    Some(p.(second := Some(value)))
  }

  function WithSubsecond(p: Fields, value: U32): (r: Option<Fields>)
    ensures r == Some(Put(p, Subsecond, Int(value)))
  {
    Some(p.(subsecond := Some(value)))
  }

  function WithOffsetHour(p: Fields, value: I8): (r: Option<Fields>)
    ensures r == Some(Put(p, OffsetHour, Int(value)))
  {
    Some(p.(offsetHour := Some(value)))
  }

  function WithOffsetMinute(p: Fields, value: U8): (r: Option<Fields>)
    ensures r == Some(Put(p, OffsetMinute, Int(value)))
  {
    Some(p.(offsetMinute := Some(value)))
  }

  function WithOffsetSecond(p: Fields, value: U8): (r: Option<Fields>)
    ensures r == Some(Put(p, OffsetSecond, Int(value)))
  {
    Some(p.(offsetSecond := Some(value)))
  }

  /** The chain of all twenty builders, each given 5 (May, Monday or `true`
      for the fields of those types). */
  function BuildAll(): Option<Fields>
  {
    var p :- WithYear(Empty, 5);
    var p :- WithYearLastTwo(p, 5);
    var p :- WithIsoYear(p, 5);
    var p :- WithIsoYearLastTwo(p, 5);
    var p :- WithMonth(p, Cal.May);
    var p :- WithSundayWeekNumber(p, 5);
    var p :- WithMondayWeekNumber(p, 5);
    var p :- WithIsoWeekNumber(p, 5);
    var p :- WithWeekday(p, Cal.Monday);
    var p :- WithOrdinal(p, 5);
    var p :- WithDay(p, 5);
    var p :- WithHour24(p, 5);
    var p :- WithHour12(p, 5);
    var p :- WithHour12IsPm(p, true);
    var p :- WithMinute(p, 5);
    var p :- WithSecond(p, 5);
    var p :- WithSubsecond(p, 5);
    var p :- WithOffsetHour(p, 5);
    var p :- WithOffsetMinute(p, 5);
    WithOffsetSecond(p, 5)
  }

  /** Every builder in the chain succeeds, and the date fields read back the
      values their builders were given: no later builder disturbs them. */
  lemma BuilderChainDate()
    ensures BuildAll().Some?
    ensures Get(BuildAll().value, Year) == Some(Int(5))
    ensures Get(BuildAll().value, YearLastTwo) == Some(Int(5))
    ensures Get(BuildAll().value, IsoYear) == Some(Int(5))
    ensures Get(BuildAll().value, IsoYearLastTwo) == Some(Int(5))
    ensures Get(BuildAll().value, Month) == Some(MonthOf(Cal.May))
    ensures Get(BuildAll().value, SundayWeekNumber) == Some(Int(5))
    ensures Get(BuildAll().value, MondayWeekNumber) == Some(Int(5))
    ensures Get(BuildAll().value, IsoWeekNumber) == Some(Int(5))
    ensures Get(BuildAll().value, Weekday) == Some(WeekdayOf(Cal.Monday))
    ensures Get(BuildAll().value, Ordinal) == Some(Int(5))
    ensures Get(BuildAll().value, Day) == Some(Int(5))
  {
  }

  /** The time and offset fields of the chain's result read back the values
      their builders were given. */
  lemma BuilderChainTime()
    ensures BuildAll().Some?
    ensures Get(BuildAll().value, Hour24) == Some(Int(5))
    ensures Get(BuildAll().value, Hour12) == Some(Int(5))
    ensures Get(BuildAll().value, Hour12IsPm) == Some(Flag(true))
    ensures Get(BuildAll().value, Minute) == Some(Int(5))
    ensures Get(BuildAll().value, Second) == Some(Int(5))
    ensures Get(BuildAll().value, Subsecond) == Some(Int(5))
    ensures Get(BuildAll().value, OffsetHour) == Some(Int(5))
    ensures Get(BuildAll().value, OffsetMinute) == Some(Int(5))
    ensures Get(BuildAll().value, OffsetSecond) == Some(Int(5))
  {
  }
}

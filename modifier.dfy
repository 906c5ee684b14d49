/** The modifier records of `time::format_description::modifier`: one record
    per component kind, each with the default a bare `[name]` gets. */
module Modifier {

  datatype Padding = Space | Zero | None
  datatype MonthRepr = Numerical | Long | Short
  datatype WeekdayRepr = Short | Long | Sunday | Monday
  datatype WeekNumberRepr = Iso | Sunday | Monday
  datatype YearRepr = Full | LastTwo
  datatype SubsecondDigits = One | Two | Three | Four | Five | Six | Seven | Eight | Nine | OneOrMore

  datatype Day = Day(padding: Padding)
  datatype Month = Month(padding: Padding, repr: MonthRepr, caseSensitive: bool)
  datatype Ordinal = Ordinal(padding: Padding)
  datatype Weekday = Weekday(repr: WeekdayRepr, oneIndexed: bool, caseSensitive: bool)
  datatype WeekNumber = WeekNumber(padding: Padding, repr: WeekNumberRepr)
  datatype Year = Year(padding: Padding, repr: YearRepr, isoWeekBased: bool, signIsMandatory: bool)
  datatype Hour = Hour(padding: Padding, is12HourClock: bool)
  datatype Minute = Minute(padding: Padding)
  datatype Period = Period(isUppercase: bool, caseSensitive: bool)
  datatype Second = Second(padding: Padding)
  datatype Subsecond = Subsecond(digits: SubsecondDigits)
  datatype OffsetHour = OffsetHour(signIsMandatory: bool, padding: Padding)
  datatype OffsetMinute = OffsetMinute(padding: Padding)
  datatype OffsetSecond = OffsetSecond(padding: Padding)

  // The documented defaults: zero padding, numerical month, long one-indexed
  // weekday, ISO week number, full calendar-based year with an automatic
  // sign, 24-hour clock, upper-case period, one-or-more subsecond digits,
  // case-sensitive parsing.
  const DefaultDay := Day(Zero)
  const DefaultMonth := Month(Zero, MonthRepr.Numerical, true)
  const DefaultOrdinal := Ordinal(Zero)
  const DefaultWeekday := Weekday(WeekdayRepr.Long, true, true)
  const DefaultWeekNumber := WeekNumber(Zero, WeekNumberRepr.Iso)
  const DefaultYear := Year(Zero, Full, false, false)
  const DefaultHour := Hour(Zero, false)
  const DefaultMinute := Minute(Zero)
  const DefaultPeriod := Period(true, true)
  const DefaultSecond := Second(Zero)
  const DefaultSubsecond := Subsecond(OneOrMore)
  const DefaultOffsetHour := OffsetHour(false, Zero)
  const DefaultOffsetMinute := OffsetMinute(Zero)
  const DefaultOffsetSecond := OffsetSecond(Zero)
}

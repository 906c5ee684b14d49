/** The calendar and clock primitives the parsing core calls: months and
    weekdays, the range checks of `Date::from_ordinal_date` and
    `Time::from_hms_nano`, and the 12-hour clock rule shared by the `time!`
    macro and the resolver. Each range check fails with a `ComponentRange`
    naming the first field out of range. */
module Calendar {
  import opened Wrappers
  import opened Primitives
  import E = Errors

  datatype Month =
    | January | February | March | April | May | June
    | July | August | September | October | November | December

  datatype Weekday = Monday | Tuesday | Wednesday | Thursday | Friday | Saturday | Sunday

  /** The weekdays from Monday, the order `Weekday` counts in. */
  const Weekdays: seq<Weekday> := [Monday, Tuesday, Wednesday, Thursday, Friday, Saturday, Sunday]

  /** The months in calendar order. */
  const Months: seq<Month> :=
    [January, February, March, April, May, June, July, August, September, October, November, December]

  /** `Month::try_from(u8)`: the month with number `n`, counting January as 1. */
  function MonthFromNumber(n: int): (r: Option<Month>)
    ensures r.Some? <==> 1 <= n <= 12
    ensures r.Some? ==> Months[n - 1] == r.value
  {
    if 1 <= n <= 12 then Some(Months[n - 1]) else None
  }

  /** The number of month `m`, counting January as 1. */
  function MonthNumber(m: Month): (n: int)
    ensures 1 <= n <= 12 && Months[n - 1] == m
  {
    match m
    case January => 1 case February => 2 case March => 3 case April => 4
    case May => 5 case June => 6 case July => 7 case August => 8
    case September => 9 case October => 10 case November => 11 case December => 12
  }

  /** Numbering months and reading the number back are inverse. */
  lemma MonthNumbering(m: Month, n: int)
    ensures MonthFromNumber(MonthNumber(m)) == Some(m)
    ensures MonthFromNumber(n).Some? ==> MonthNumber(MonthFromNumber(n).value) == n
  {
  }

  // ---- Ordinal dates ----

  /** The supported years, without the crate's `large-dates` feature. */
  const MinYear := -9999
  const MaxYear := 9999

  /** Gregorian leap years, extended to year 0 and before (proleptic). */
  predicate IsLeapYear(year: int)
  {
    year % 4 == 0 && (year % 100 != 0 || year % 400 == 0)
  }

  function DaysInYear(year: int): (days: int)
    ensures days == 365 || days == 366
  {
    if IsLeapYear(year) then 366 else 365
  }

  /** A date as its year and its day of the year. */
  datatype Date = Date(year: int, ordinal: int)

  /** `Date::from_ordinal_date`: the year must lie in `MinYear..=MaxYear`,
      then the day of the year in `1..=DaysInYear(year)`, a range that depends
      on the year and is reported as conditional. */
  function FromOrdinalDate(year: I32, ordinal: U16): (r: Result<Date, E.ComponentRange>)
    ensures r.Ok? <==> MinYear <= year <= MaxYear && 1 <= ordinal <= DaysInYear(year)
    ensures r.Ok? ==> r.value.year == year && r.value.ordinal == ordinal
    ensures r.Err? ==> r.error.value in {year, ordinal as int}
    ensures r.Err? ==> r.error.minimum <= r.error.maximum
    ensures r.Err? ==> !(r.error.minimum <= r.error.value <= r.error.maximum)
  {
    if !(MinYear <= year <= MaxYear) then
      Err(E.ComponentRange.ComponentRange("year", MinYear, MaxYear, year, false))
    else if !(1 <= ordinal <= DaysInYear(year)) then
      Err(E.ComponentRange.ComponentRange("ordinal", 1, DaysInYear(year), ordinal, true))
    else
      Ok(Date(year, ordinal))
  }

  /** Day 367 of year 0 (a leap year) is out of range: the error names the
      ordinal, with bounds `1..=366` conditional on the year. */
  lemma OrdinalOutOfRange()
    ensures FromOrdinalDate(0, 367) == Err(OrdinalRange)
  {
    assert IsLeapYear(0);
  }

  const OrdinalRange := E.ComponentRange.ComponentRange("ordinal", 1, 366, 367, true)

  /** The dates `date_coverage` builds: the first day of 2000, the last of
      2018, the first of 2022 and day 239 of 2021. */
  lemma OrdinalDates()
    ensures FromOrdinalDate(2000, 1) == Ok(Date(2000, 1))
    ensures FromOrdinalDate(2018, 365) == Ok(Date(2018, 365))
    ensures FromOrdinalDate(2022, 1) == Ok(Date(2022, 1))
    ensures FromOrdinalDate(2021, 239) == Ok(Date(2021, 239))
    ensures FromOrdinalDate(2018, 366).Err? && FromOrdinalDate(2000, 366).Ok?
  {
  }

  // ---- Times of day ----

  datatype Time = Time(hour: nat, minute: nat, second: nat, nanosecond: nat)

  const Midnight := Time(0, 0, 0, 0)

  /** `Time::from_hms_nano`: each field is checked in turn, hour, minute,
      second, nanosecond, and the first out of range is named. */
  function FromHmsNano(hour: int, minute: int, second: int, nanosecond: int): (r: Result<Time, E.ComponentRange>)
    requires hour >= 0 && minute >= 0 && second >= 0 && nanosecond >= 0
    ensures r.Ok? <==> hour < 24 && minute < 60 && second < 60 && nanosecond < 1_000_000_000
    ensures r.Ok? ==> r.value == Time(hour, minute, second, nanosecond)
    ensures r.Err? ==> (r.error.name == "hour" <==> hour >= 24)
    ensures r.Err? ==> (r.error.name == "minute" <==> hour < 24 && minute >= 60)
    ensures r.Err? ==> (r.error.name == "second" <==> hour < 24 && minute < 60 && second >= 60)
    ensures r.Err? ==> r.error.value > r.error.maximum && !r.error.conditionalRange && r.error.minimum == 0
  {
    if hour >= 24 then Err(E.ComponentRange.ComponentRange("hour", 0, 23, hour, false))
    else if minute >= 60 then Err(E.ComponentRange.ComponentRange("minute", 0, 59, minute, false))
    else if second >= 60 then Err(E.ComponentRange.ComponentRange("second", 0, 59, second, false))
    else if nanosecond >= 1_000_000_000 then Err(E.ComponentRange.ComponentRange("nanosecond", 0, 999_999_999, nanosecond, false))
    else Ok(Time(hour, minute, second, nanosecond))
  }

  /** `Time::from_hms`: whole seconds. */
  function FromHms(hour: int, minute: int, second: int): (r: Result<Time, E.ComponentRange>)
    requires hour >= 0 && minute >= 0 && second >= 0
    ensures r == FromHmsNano(hour, minute, second, 0)
  {
    FromHmsNano(hour, minute, second, 0)
  }

  // ---- The 12-hour clock ----

  /** The hour of the day an hour on the 12-hour clock stands for: 12 AM is
      hour 0, 12 PM is hour 12, other PM hours are 12 later than written. */
  function ClockHour(hour12: nat, pm: bool): (h: nat)
    ensures 1 <= hour12 <= 12 ==> h < 24 && (pm <==> h >= 12) && h % 12 == hour12 % 12
  {
    if hour12 == 12 then (if pm then 12 else 0)
    else if pm then hour12 + 12 else hour12
  }

  /** The 12-hour clock reading of an hour of the day. */
  function Hour12Of(hour: nat): (r: (nat, bool))
    requires hour < 24
    ensures 1 <= r.0 <= 12
  {
    if hour == 0 then (12, false)
    else if hour < 12 then (hour, false)
    else if hour == 12 then (12, true)
    else (hour - 12, true)
  }

  /** The rule is a bijection between the readings `1..=12` AM/PM and the
      hours `0..=23`: every reading gives an hour of the day, which reads back
      as the same reading, and every hour is the reading of its own. */
  lemma ClockHourBijection(hour12: nat, pm: bool, hour: nat)
    ensures 1 <= hour12 <= 12 ==> ClockHour(hour12, pm) < 24 && Hour12Of(ClockHour(hour12, pm)) == (hour12, pm)
    ensures hour < 24 ==> ClockHour(Hour12Of(hour).0, Hour12Of(hour).1) == hour
  {
  }

  /** AM readings are the hours before noon and PM readings the hours from noon. */
  lemma ClockHourHalves(hour12: nat, pm: bool)
    requires 1 <= hour12 <= 12
    ensures pm <==> ClockHour(hour12, pm) >= 12
  {
  }

  /** `time!(12 AM)` is midnight and `time!(12 PM)` is noon. */
  lemma TwelveOClock()
    ensures FromHms(ClockHour(12, false), 0, 0) == Ok(Midnight)
    ensures FromHms(ClockHour(12, true), 0, 0) == Ok(Time(12, 0, 0, 0))
  {
    assert ClockHour(12, false) == 0 && ClockHour(12, true) == 12;
  }
}

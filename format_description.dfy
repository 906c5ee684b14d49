/** `time::format_description`: the component kinds with their modifiers and
    the compiled instruction (`FormatItem`), with the conversions and the
    cross-type equality between them. */
module FormatDescription {
  import opened Wrappers
  import M = Modifier
  import Errors

  /** One named date/time quantity together with its modifier record. */
  datatype Component =
    | Day(day: M.Day)
    | Month(month: M.Month)
    | Ordinal(ordinal: M.Ordinal)
    | Weekday(weekday: M.Weekday)
    | WeekNumber(weekNumber: M.WeekNumber)
    | Year(year: M.Year)
    | Hour(hour: M.Hour)
    | Minute(minute: M.Minute)
    | Period(period: M.Period)
    | Second(second: M.Second)
    | Subsecond(subsecond: M.Subsecond)
    | OffsetHour(offsetHour: M.OffsetHour)
    | OffsetMinute(offsetMinute: M.OffsetMinute)
    | OffsetSecond(offsetSecond: M.OffsetSecond)

  /** One compiled instruction: bytes matched or emitted verbatim, a
      component, or a nested run of instructions. */
  datatype FormatItem =
    | Literal(bytes: string)
    | Component(component: Component)
    | Compound(items: seq<FormatItem>)

  /** The name a description uses for the component's kind. */
  function Name(c: Component): string
  {
    match c
    case Day(_) => "day"
    case Month(_) => "month"
    case Ordinal(_) => "ordinal"
    case Weekday(_) => "weekday"
    case WeekNumber(_) => "week_number"
    case Year(_) => "year"
    case Hour(_) => "hour"
    case Minute(_) => "minute"
    case Period(_) => "period"
    case Second(_) => "second"
    case Subsecond(_) => "subsecond"
    case OffsetHour(_) => "offset_hour"
    case OffsetMinute(_) => "offset_minute"
    case OffsetSecond(_) => "offset_second"
  }

  /** The component of the same kind as `c` with every modifier at its default. */
  function DefaultOf(c: Component): Component
  {
    match c
    case Day(_) => Day(M.DefaultDay)
    case Month(_) => Month(M.DefaultMonth)
    case Ordinal(_) => Ordinal(M.DefaultOrdinal)
    case Weekday(_) => Weekday(M.DefaultWeekday)
    case WeekNumber(_) => WeekNumber(M.DefaultWeekNumber)
    case Year(_) => Year(M.DefaultYear)
    case Hour(_) => Hour(M.DefaultHour)
    case Minute(_) => Minute(M.DefaultMinute)
    case Period(_) => Period(M.DefaultPeriod)
    case Second(_) => Second(M.DefaultSecond)
    case Subsecond(_) => Subsecond(M.DefaultSubsecond)
    case OffsetHour(_) => OffsetHour(M.DefaultOffsetHour)
    case OffsetMinute(_) => OffsetMinute(M.DefaultOffsetMinute)
    case OffsetSecond(_) => OffsetSecond(M.DefaultOffsetSecond)
  }

  /** Two components are of the same kind. */
  predicate SameKind(a: Component, b: Component)
  {
    DefaultOf(a) == DefaultOf(b)
  }

  // ---- Conversions between components, slices and items ----

  /** `FormatItem::from(Component)`. */
  function ItemFromComponent(c: Component): (r: FormatItem)
    ensures ItemEqualsComponent(r, c) && ComponentEqualsItem(c, r)
  {
    FormatItem.Component(c)
  }

  /** `FormatItem::from(&[FormatItem])`. */
  function ItemFromCompound(items: seq<FormatItem>): (r: FormatItem)
    ensures ItemEqualsCompound(r, items) && CompoundEqualsItem(items, r)
  {
    Compound(items)
  }

  /** `Component::try_from(FormatItem)`: succeeds exactly on component items,
      and what it returns converts back to the item. */
  function ComponentTryFromItem(item: FormatItem): (r: Result<Component, Errors.DifferentVariant>)
    ensures r.Ok? <==> item.Component?
    ensures r.Ok? ==> ItemFromComponent(r.value) == item
  {
    match item
    case Component(c) => Ok(c)
    case _ => Err(Errors.DifferentVariant.DifferentVariant)
  }

  /** `<&[FormatItem]>::try_from(FormatItem)`: succeeds exactly on compound
      items, and what it returns converts back to the item. */
  function CompoundTryFromItem(item: FormatItem): (r: Result<seq<FormatItem>, Errors.DifferentVariant>)
    ensures r.Ok? <==> item.Compound?
    ensures r.Ok? ==> ItemFromCompound(r.value) == item
  {
    match item
    case Compound(items) => Ok(items)
    case _ => Err(Errors.DifferentVariant.DifferentVariant)
  }

  /** `impl PartialEq<Component> for FormatItem`: the item wraps exactly `c`. */
  predicate ItemEqualsComponent(item: FormatItem, c: Component)
  {
    item.Component? && item.component == c
  }

  /** `impl PartialEq<FormatItem> for Component`. */
  predicate ComponentEqualsItem(c: Component, item: FormatItem)
  {
    ItemEqualsComponent(item, c)
  }

  /** `impl PartialEq<&[FormatItem]> for FormatItem`: the item wraps exactly `items`. */
  predicate ItemEqualsCompound(item: FormatItem, items: seq<FormatItem>)
  {
    item.Compound? && item.items == items
  }

  /** `impl PartialEq<FormatItem> for &[FormatItem]`. */
  predicate CompoundEqualsItem(items: seq<FormatItem>, item: FormatItem)
  {
    ItemEqualsCompound(item, items)
  }

  /** Converting a component to an item and back is the identity, the item
      equals the component from both sides, and a literal converts to neither
      a component nor a slice. */
  lemma ComponentConversions(c: Component, bytes: string)
    ensures ComponentTryFromItem(ItemFromComponent(c)) == Ok(c)
    ensures ItemEqualsComponent(ItemFromComponent(c), c) && ComponentEqualsItem(c, ItemFromComponent(c))
    ensures ComponentTryFromItem(Literal(bytes)).Err?
    ensures CompoundTryFromItem(Literal(bytes)).Err?
  {
  }

  /** Converting a slice to an item and back is the identity, and the item
      equals the slice from both sides. */
  lemma CompoundConversions(items: seq<FormatItem>)
    ensures CompoundTryFromItem(ItemFromCompound(items)) == Ok(items)
    ensures ItemEqualsCompound(ItemFromCompound(items), items)
    ensures CompoundEqualsItem(items, ItemFromCompound(items))
  {
  }

  /** Cross-type equality is equality after conversion, in both directions:
      an item equals a component exactly when narrowing the item yields that
      component, and likewise for slices; so a literal equals neither. */
  lemma CrossEqualityIsConversion(item: FormatItem, c: Component, items: seq<FormatItem>)
    ensures ItemEqualsComponent(item, c) <==> ComponentTryFromItem(item) == Ok(c)
    ensures ComponentEqualsItem(c, item) <==> item == ItemFromComponent(c)
    ensures ItemEqualsCompound(item, items) <==> CompoundTryFromItem(item) == Ok(items)
    ensures CompoundEqualsItem(items, item) <==> item == ItemFromCompound(items)
    ensures item.Literal? ==> !ItemEqualsComponent(item, c) && !ItemEqualsCompound(item, items)
  {
  }
}

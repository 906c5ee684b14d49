/** Laws of the modifier lookups: every token a component accepts sets exactly
    one field, tokens of different keys commute, and a later token with the
    same key overrides an earlier one. */
module ModifierLaws {
  import opened Wrappers
  import opened FormatDescription
  import opened DescriptionParse
  import M = Modifier

  /** `s` and `t` address the same field (they are built by the same constructor). */
  predicate SameField(s: Setting, t: Setting)
  {
    match s
    case SetPadding(_) => t.SetPadding?
    case SetClock(_) => t.SetClock?
    case SetCaseSensitive(_) => t.SetCaseSensitive?
    case SetMonthRepr(_) => t.SetMonthRepr?
    case SetPeriodCase(_) => t.SetPeriodCase?
    case SetDigits(_) => t.SetDigits?
    case SetWeekdayRepr(_) => t.SetWeekdayRepr?
    case SetOneIndexed(_) => t.SetOneIndexed?
    case SetWeekNumberRepr(_) => t.SetWeekNumberRepr?
    case SetSign(_) => t.SetSign?
    case SetYearBase(_) => t.SetYearBase?
    case SetYearRepr(_) => t.SetYearRepr?
  }

  /** Distinct keys have distinct texts, none containing a colon. */
  lemma KeyTextInjective(a: KeyName, b: KeyName)
    ensures ':' !in KeyText(a)
    ensures KeyText(a) == KeyText(b) ==> a == b
  {
    if KeyText(a) == KeyText(b) {
      assert KeyText(a)[0] == KeyText(b)[0];
    }
  }

  lemma KeyHasNoColon(s: Setting)
    ensures ':' !in Key(s)
  {
    KeyTextInjective(KeyOf(s), KeyOf(s));
  }

  /** The first colon of a token is the one after its key. */
  lemma ColonFollowsKey(s: Setting)
    ensures |Key(s)| < |Token(s)| && Token(s)[|Key(s)|] == ':'
    ensures forall k :: 0 <= k < |Key(s)| ==> Token(s)[k] != ':'
    ensures Token(s)[..|Key(s)|] == Key(s) && Token(s)[|Key(s)| + 1..] == ValueText(s)
  {
    KeyHasNoColon(s);
    forall k | 0 <= k < |Key(s)|
      ensures Token(s)[k] != ':'
    {
      assert Token(s)[k] == Key(s)[k];
    }
  }

  /** A token splits back into its key and its value at the colon. */
  lemma TokenSplits(s: Setting, t: Setting)
    requires Token(s) == Token(t)
    ensures Key(s) == Key(t) && ValueText(s) == ValueText(t)
  {
    ColonFollowsKey(s);
    ColonFollowsKey(t);
    assert |Key(s)| == |Key(t)|;
  }

  /** Within one field, different values have different value texts. */
  lemma ValueTextDistinct(s: Setting, t: Setting)
    requires SameField(s, t) && ValueText(s) == ValueText(t)
    ensures s == t
  {
  }

  /** Among the modifiers one component accepts, a key names one field. */
  lemma KeyNamesField(c: Component, s: Setting, t: Setting)
    requires s in SettingsFor(c) && t in SettingsFor(c)
    ensures Key(s) == Key(t) <==> SameField(s, t)
  {
    KeyTextInjective(KeyOf(s), KeyOf(t));
    match c {
      case Day(_) =>
      case Month(_) =>
      case Ordinal(_) =>
      case Weekday(_) =>
      case WeekNumber(_) =>
      case Year(_) =>
      case Hour(_) =>
      case Minute(_) =>
      case Period(_) =>
      case Second(_) =>
      case Subsecond(_) =>
      case OffsetHour(_) =>
      case OffsetMinute(_) =>
      case OffsetSecond(_) =>
    }
  }

  /** No two modifiers a component accepts share a token, so a token names
      one setting unambiguously. */
  lemma TokensDistinct(c: Component, s: Setting, t: Setting)
    requires s in SettingsFor(c) && t in SettingsFor(c)
    requires Token(s) == Token(t)
    ensures s == t
  {
    TokenSplits(s, t);
    KeyNamesField(c, s, t);
    ValueTextDistinct(s, t);
  }

  /** A token a component's lookup accepts spells the setting it yields, and
      that setting is one the component accepts. */
  lemma LookupSound(c: Component, tok: string)
    ensures LookupFor(c, tok).Some? ==>
      LookupFor(c, tok).value in SettingsFor(c) && tok == Token(LookupFor(c, tok).value)
  {
    match c {
      case Day(_) => PaddingSound(tok);
      case Month(_) => PaddingSound(tok); CaseSensitiveSound(tok); MonthReprSound(tok);
      case Ordinal(_) => PaddingSound(tok);
      case Weekday(_) => WeekdayReprSound(tok); OneIndexedSound(tok); CaseSensitiveSound(tok);
      case WeekNumber(_) => PaddingSound(tok); WeekNumberReprSound(tok);
      case Year(_) => PaddingSound(tok); YearReprSound(tok); YearBaseSound(tok); SignSound(tok);
      case Hour(_) => PaddingSound(tok); ClockSound(tok);
      case Minute(_) => PaddingSound(tok);
      case Period(_) => PeriodCaseSound(tok); CaseSensitiveSound(tok);
      case Second(_) => PaddingSound(tok);
      case Subsecond(_) => DigitsSound(tok);
      case OffsetHour(_) => PaddingSound(tok); SignSound(tok);
      case OffsetMinute(_) => PaddingSound(tok);
      case OffsetSecond(_) => PaddingSound(tok);
    }
  }

  /** The lookup finds some setting for the token of every setting the
      component accepts. */
  lemma LookupCovers(c: Component, st: Setting)
    requires st in SettingsFor(c)
    ensures LookupFor(c, Token(st)).Some?
  {
    match c {
      case Day(_) => PaddingComplete(st);
      case Month(_) => PaddingComplete(st); CaseSensitiveComplete(st); MonthReprComplete(st);
      case Ordinal(_) => PaddingComplete(st);
      case Weekday(_) => WeekdayReprComplete(st); OneIndexedComplete(st); CaseSensitiveComplete(st);
      case WeekNumber(_) => PaddingComplete(st); WeekNumberReprComplete(st);
      case Year(_) => PaddingComplete(st); YearReprComplete(st); YearBaseComplete(st); SignComplete(st);
      case Hour(_) => PaddingComplete(st); ClockComplete(st);
      case Minute(_) => PaddingComplete(st);
      case Period(_) => PeriodCaseComplete(st); CaseSensitiveComplete(st);
      case Second(_) => PaddingComplete(st);
      case Subsecond(_) => DigitsComplete(st);
      case OffsetHour(_) => PaddingComplete(st); SignComplete(st);
      case OffsetMinute(_) => PaddingComplete(st);
      case OffsetSecond(_) => PaddingComplete(st);
    }
  }

  /** Every setting a component accepts is found by its own token, and that
      token is a word. Together with `LookupSound`: a component's lookup
      accepts a token exactly when it is the token of one of its settings. */
  lemma LookupComplete(c: Component, st: Setting)
    requires st in SettingsFor(c)
    ensures LookupFor(c, Token(st)) == Some(st) && IsWord(Token(st))
  {
    TokenIsWord(st);
    LookupCovers(c, st);
    LookupSound(c, Token(st));
    TokensDistinct(c, st, LookupFor(c, Token(st)).value);
  }

  /** After applying `s`, its field reads back as `s`. */
  lemma ReadAfterApply(c: Component, s: Setting)
    requires s in SettingsFor(c)
    ensures Read(Apply(c, s), s) == s
  {
  }

  /** Applying `s` leaves every field with a different key untouched. */
  lemma ApplyLeavesOtherFields(c: Component, s: Setting, t: Setting)
    requires s in SettingsFor(c) && t in SettingsFor(c)
    requires Key(s) != Key(t)
    ensures Read(Apply(c, s), t) == Read(c, t)
  {
    match c {
      case Day(_) =>
      case Month(_) =>
      case Ordinal(_) =>
      case Weekday(_) =>
      case WeekNumber(_) =>
      case Year(_) =>
      case Hour(_) =>
      case Minute(_) =>
      case Period(_) =>
      case Second(_) =>
      case Subsecond(_) =>
      case OffsetHour(_) =>
      case OffsetMinute(_) =>
      case OffsetSecond(_) =>
    }
  }

  // Each table lists every value of its field.

  lemma PaddingListed(p: M.Padding)
    ensures SetPadding(p) in PaddingSettings
  {
    match p { case Space => case Zero => case None => }
  }

  lemma MonthReprListed(r: M.MonthRepr)
    ensures SetMonthRepr(r) in MonthReprSettings
  {
    match r { case Numerical => case Long => case Short => }
  }

  lemma DigitsListed(d: M.SubsecondDigits)
    ensures SetDigits(d) in DigitsSettings
  {
    match d {
      case One => case Two => case Three => case Four => case Five =>
      case Six => case Seven => case Eight => case Nine => case OneOrMore =>
    }
  }

  lemma WeekdayReprListed(r: M.WeekdayRepr)
    ensures SetWeekdayRepr(r) in WeekdayReprSettings
  {
    match r { case Short => case Long => case Sunday => case Monday => }
  }

  lemma WeekNumberReprListed(r: M.WeekNumberRepr)
    ensures SetWeekNumberRepr(r) in WeekNumberReprSettings
  {
    match r { case Iso => case Sunday => case Monday => }
  }

  lemma YearReprListed(r: M.YearRepr)
    ensures SetYearRepr(r) in YearReprSettings
  {
    match r { case Full => case LastTwo => }
  }

  /** The value a field holds is one its table lists, under the same key. */
  lemma CurrentValueListed(c: Component, t: Setting)
    requires t in SettingsFor(c)
    ensures Read(c, t) in SettingsFor(c) && SameField(Read(c, t), t)
  {
    match c {
      case Day(m) => PaddingListed(m.padding);
      case Month(m) => PaddingListed(m.padding); MonthReprListed(m.repr);
      case Ordinal(m) => PaddingListed(m.padding);
      case Weekday(m) => WeekdayReprListed(m.repr);
      case WeekNumber(m) => PaddingListed(m.padding); WeekNumberReprListed(m.repr);
      case Year(m) => PaddingListed(m.padding); YearReprListed(m.repr);
      case Hour(m) => PaddingListed(m.padding);
      case Minute(m) => PaddingListed(m.padding);
      case Period(_) =>
      case Second(m) => PaddingListed(m.padding);
      case Subsecond(m) => DigitsListed(m.digits);
      case OffsetHour(m) => PaddingListed(m.padding);
      case OffsetMinute(m) => PaddingListed(m.padding);
      case OffsetSecond(m) => PaddingListed(m.padding);
    }
  }

  /** Writing back the value a field already holds changes nothing. */
  lemma ApplyCurrentValue(c: Component, t: Setting)
    requires t in SettingsFor(c)
    ensures Apply(c, Read(c, t)) == c
  {
    match c {
      case Day(_) =>
      case Month(_) =>
      case Ordinal(_) =>
      case Weekday(_) =>
      case WeekNumber(_) =>
      case Year(_) =>
      case Hour(_) =>
      case Minute(_) =>
      case Period(_) =>
      case Second(_) =>
      case Subsecond(_) =>
      case OffsetHour(_) =>
      case OffsetMinute(_) =>
      case OffsetSecond(_) =>
    }
  }

  /** Of two settings with the same key, the later one wins. */
  lemma LastWriteWins(c: Component, s: Setting, t: Setting)
    requires s in SettingsFor(c) && t in SettingsFor(c)
    requires Key(s) == Key(t)
    ensures Apply(Apply(c, s), t) == Apply(c, t)
  {
    KeyNamesField(c, s, t);
    match c {
      case Day(_) =>
      case Month(_) =>
      case Ordinal(_) =>
      case Weekday(_) =>
      case WeekNumber(_) =>
      case Year(_) =>
      case Hour(_) =>
      case Minute(_) =>
      case Period(_) =>
      case Second(_) =>
      case Subsecond(_) =>
      case OffsetHour(_) =>
      case OffsetMinute(_) =>
      case OffsetSecond(_) =>
    }
  }

  /** Settings with different keys may be applied in either order. */
  lemma DistinctKeysCommute(c: Component, s: Setting, t: Setting)
    requires s in SettingsFor(c) && t in SettingsFor(c)
    requires Key(s) != Key(t)
    ensures Apply(Apply(c, s), t) == Apply(Apply(c, t), s)
  {
    match c {
      case Day(_) =>
      case Month(_) =>
      case Ordinal(_) =>
      case Weekday(_) =>
      case WeekNumber(_) =>
      case Year(_) =>
      case Hour(_) =>
      case Minute(_) =>
      case Period(_) =>
      case Second(_) =>
      case Subsecond(_) =>
      case OffsetHour(_) =>
      case OffsetMinute(_) =>
      case OffsetSecond(_) =>
    }
  }

  /** Reading a field depends only on which field is addressed. */
  lemma SameFieldReads(c: Component, s: Setting, f: Setting)
    requires f in SettingsFor(c) && SameField(s, f)
    ensures Read(c, s) == Read(c, f)
  {
    match c {
      case Day(_) =>
      case Month(_) =>
      case Ordinal(_) =>
      case Weekday(_) =>
      case WeekNumber(_) =>
      case Year(_) =>
      case Hour(_) =>
      case Minute(_) =>
      case Period(_) =>
      case Second(_) =>
      case Subsecond(_) =>
      case OffsetHour(_) =>
      case OffsetMinute(_) =>
      case OffsetSecond(_) =>
    }
  }

  /** The setting that the last of `ss` addressing the field of `f` chose, or
      `d` when none of them addresses it. */
  function LastFor(ss: seq<Setting>, f: Setting, d: Setting): (r: Setting)
    ensures r == d || (r in ss && SameField(r, f))
    decreases |ss|
  {
    if ss == [] then d
    else LastFor(ss[1..], f, if SameField(ss[0], f) then ss[0] else d)
  }

  /** After a run of modifiers, each field holds the value of the last
      modifier addressing it, or its earlier value when none does. */
  lemma {:induction false} ReadApplyAll(c: Component, ss: seq<Setting>, f: Setting)
    requires f in SettingsFor(c)
    requires forall k :: 0 <= k < |ss| ==> ss[k] in SettingsFor(c)
    ensures Read(ApplyAll(c, ss), f) == LastFor(ss, f, Read(c, f))
    decreases |ss|
  {
    if ss != [] {
      var c' := Apply(c, ss[0]);
      ApplyKeepsKind(c, ss[0]);
      CurrentValueListed(c, f);
      KeyNamesField(c, ss[0], f);
      if SameField(ss[0], f) {
        ReadAfterApply(c, ss[0]);
        SameFieldReads(c', ss[0], f);
      } else {
        ApplyLeavesOtherFields(c, ss[0], f);
      }
      assert Read(c', f) == (if SameField(ss[0], f) then ss[0] else Read(c, f));
      ReadApplyAll(c', ss[1..], f);
    }
  }
}

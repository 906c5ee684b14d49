/** The descriptions the `time` test-suite compiles, stated once for every
    component kind and modifier where the tests loop over them, and as the
    concrete strings elsewhere. */
module DescriptionExamples {
  import opened Wrappers
  import opened Primitives
  import M = Modifier
  import opened FormatDescription
  import opened DescriptionParse
  import opened DescriptionRender
  import E = Errors

  /** The rows that spell `sts`, each as its own `key:value` token. */
  function Spelled(sts: seq<Setting>): (rows: seq<Entry>)
    ensures |rows| == |sts|
    ensures forall k :: 0 <= k < |sts| ==> rows[k] == Entry(Token(sts[k]), sts[k])
  {
    if sts == [] then [] else [Entry(Token(sts[0]), sts[0])] + Spelled(sts[1..])
  }

  /** `[name key:value …]` for the kind of `c`, with whitespace `lead` after the
      `[` and `trail` before the `]`. */
  function Described(lead: string, c: Component, sts: seq<Setting>, trail: string): Piece
  {
    Bracket(lead, Name(c), Spelled(sts), trail)
  }

  /** The settings all belong to the kind of `c`. */
  predicate Accepted(c: Component, sts: seq<Setting>)
  {
    forall k :: 0 <= k < |sts| ==> sts[k] in SettingsFor(c)
  }

  /** A described bracket is well formed and stands for the kind's defaults
      overridden, left to right, by the settings. */
  lemma DescribedMeaning(lead: string, c: Component, sts: seq<Setting>, trail: string)
    requires AllWhitespace(lead) && AllWhitespace(trail) && Accepted(c, sts)
    ensures PieceWellFormed(Builtin, Described(lead, c, sts, trail))
    ensures Meaning(Builtin, Described(lead, c, sts, trail)) == FormatItem.Component(ApplyAll(DefaultOf(c), sts))
  {
    var rows := Spelled(sts);
    assert SettingsOf(rows) == sts by {
      SettingsOfSpelled(sts);
    }
    BuiltinBracket(lead, c, rows, trail);
  }

  lemma {:induction false} SettingsOfSpelled(sts: seq<Setting>)
    ensures SettingsOf(Spelled(sts)) == sts
  {
    if sts != [] {
      assert Spelled(sts)[1..] == Spelled(sts[1..]);
      SettingsOfSpelled(sts[1..]);
    }
  }

  // ---- Text and escapes (parse_format_description.rs, `empty` and `only_literal`) ----

  /** The empty description compiles to no items. */
  lemma EmptyDescription()
    ensures Parse("") == Ok([])
  {
  }

  /** A description without brackets compiles to one literal holding all of it,
      spaces included. */
  lemma TextOnly(text: string)
    requires text != [] && '[' !in text
    ensures Parse(text) == Ok([Literal(text)])
  {
    var ps := [Text(text)];
    assert Render(ps) == text;
    assert WellFormed(Builtin, ps);
    ParsePieces(text, ps);
    assert Parse(text).value == [Literal(text)];
  }

  lemma TextOnlyCases()
    ensures Parse("foo bar") == Ok([Literal("foo bar")])
    ensures Parse("  leading spaces") == Ok([Literal("  leading spaces")])
    ensures Parse("trailing spaces  ") == Ok([Literal("trailing spaces  ")])
    ensures Parse("     ") == Ok([Literal("     ")])
  {
    TextOnly("foo bar");
    TextOnly("  leading spaces");
    TextOnly("trailing spaces  ");
    TextOnly("     ");
  }

  /** `[[` is a literal `[`, and it ends the literal before it: the text on
      either side becomes a literal of its own. */
  lemma Escapes()
    ensures Parse("[[") == Ok([Literal("[")])
    ensures Parse("foo[[bar") == Ok([Literal("foo"), Literal("["), Literal("bar")])
    ensures Parse("[[ ") == Ok([Literal("["), Literal(" ")])
  {
    EscapeAlone();
    EscapeBetweenText();
    EscapeBeforeSpace();
  }

  lemma EscapeAlone()
    ensures Parse("[[") == Ok([Literal("[")])
  {
    var ps := [Escape];
    assert Render(ps) == "[[";
    ParsePieces("[[", ps);
    assert Parse("[[").value == [Literal("[")];
  }

  lemma EscapeBetweenText()
    ensures Parse("foo[[bar") == Ok([Literal("foo"), Literal("["), Literal("bar")])
  {
    var ps := [Text("foo"), Escape, Text("bar")];
    assert Render(ps) == "foo[[bar";
    assert PieceWellFormed(Builtin, ps[0]) && PieceWellFormed(Builtin, ps[2]);
    ParsePieces("foo[[bar", ps);
    assert Parse("foo[[bar").value == [Literal("foo"), Literal("["), Literal("bar")];
  }

  lemma EscapeBeforeSpace()
    ensures Parse("[[ ") == Ok([Literal("["), Literal(" ")])
  {
    var ps := [Escape, Text(" ")];
    assert Render(ps) == "[[ ";
    assert PieceWellFormed(Builtin, ps[1]);
    ParsePieces("[[ ", ps);
    assert Parse("[[ ").value == [Literal("["), Literal(" ")];
  }

  // ---- Components ----

  /** A bracket naming a kind, with modifiers that kind accepts and whitespace
      around the name and before the `]`, compiles to one component: the
      kind's defaults with each modifier applied in order. */
  lemma ComponentCompiles(lead: string, c: Component, sts: seq<Setting>, trail: string)
    requires AllWhitespace(lead) && AllWhitespace(trail) && Accepted(c, sts)
    ensures Parse("[" + lead + Name(c) + Join(Spelled(sts)) + trail + "]")
         == Ok([FormatItem.Component(ApplyAll(DefaultOf(c), sts))])
  {
    var s := "[" + lead + Name(c) + Join(Spelled(sts)) + trail + "]";
    var p := Described(lead, c, sts, trail);
    assert Render([p]) == s;
    DescribedMeaning(lead, c, sts, trail);
    ParsePieces(s, [p]);
    assert Parse(s).value == [FormatItem.Component(ApplyAll(DefaultOf(c), sts))];
  }

  /** `[name]` compiles to the kind's defaults (parse_format_description.rs,
      `simple_component`, and each kind's defaults in the modifier tests). */
  lemma BareName(c: Component)
    ensures Parse("[" + Name(c) + "]") == Ok([FormatItem.Component(DefaultOf(c))])
  {
    ComponentCompiles("", c, [], "");
    BareNameText(c);
  }

  lemma BareNameText(c: Component)
    ensures "[" + "" + Name(c) + Join(Spelled([])) + "" + "]" == "[" + Name(c) + "]"
  {
  }

  /** `[name key:value]` sets exactly the field the token names, to the value
      it names, and leaves every other field at its default. */
  lemma OneModifier(c: Component, st: Setting, other: Setting)
    requires st in SettingsFor(c) && other in SettingsFor(c)
    ensures Parse("[" + Name(c) + " " + Token(st) + "]") == Ok([FormatItem.Component(Apply(DefaultOf(c), st))])
    ensures Read(Apply(DefaultOf(c), st), st) == st
    ensures Key(other) != Key(st) ==> Read(Apply(DefaultOf(c), st), other) == Read(DefaultOf(c), other)
  {
    ComponentCompiles("", c, [st], "");
    OneModifierText(c, st);
    DescriptionParse.DefaultKeepsSettings(c);
    ModifierLaws.ReadAfterApply(DefaultOf(c), st);
    if Key(other) != Key(st) {
      ModifierLaws.ApplyLeavesOtherFields(DefaultOf(c), st, other);
    }
  }

  lemma OneModifierText(c: Component, st: Setting)
    ensures "[" + "" + Name(c) + Join(Spelled([st])) + "" + "]" == "[" + Name(c) + " " + Token(st) + "]"
  {
    assert Spelled([st]) == [Entry(Token(st), st)];
    assert Join(Spelled([st])) == " " + Token(st);
  }

  // ---- The `format_description!` coverage cases (macros.rs) ----

  /** Brackets written back to back compile to one component each, in order. */
  lemma BracketsInSequence(c: Component, sts: seq<Setting>)
    requires Accepted(c, sts)
    ensures Parse(Render(EachSetting(c, sts))) == Ok(EachApplied(c, sts))
  {
    var ps := EachSetting(c, sts);
    forall k | 0 <= k < |ps|
      ensures PieceWellFormed(Builtin, ps[k]) && Meaning(Builtin, ps[k]) == EachApplied(c, sts)[k]
    {
      DescribedMeaning("", c, [sts[k]], "");
      assert ApplyAll(DefaultOf(c), [sts[k]]) == Apply(DefaultOf(c), sts[k]);
    }
    ParsePieces(Render(ps), ps);
    assert Parse(Render(ps)).value == EachApplied(c, sts);
  }

  /** One bracket per setting, each holding just that setting. */
  function EachSetting(c: Component, sts: seq<Setting>): (ps: seq<Piece>)
    ensures |ps| == |sts|
    ensures forall k :: 0 <= k < |sts| ==> ps[k] == Described("", c, [sts[k]], "")
  {
    if sts == [] then [] else [Described("", c, [sts[0]], "")] + EachSetting(c, sts[1..])
  }

  /** The kind's defaults with each setting applied on its own. */
  function EachApplied(c: Component, sts: seq<Setting>): (items: seq<FormatItem>)
    ensures |items| == |sts|
    ensures forall k :: 0 <= k < |sts| ==> items[k] == FormatItem.Component(Apply(DefaultOf(c), sts[k]))
  {
    if sts == [] then [] else [FormatItem.Component(Apply(DefaultOf(c), sts[0]))] + EachApplied(c, sts[1..])
  }

  /** The records the coverage descriptions spell: a partial set of modifiers
      leaves the other fields at their defaults. */
  lemma CoverageRecords()
    ensures EachApplied(Component.Day(M.DefaultDay), PaddingSettings)
         == [FormatItem.Component(Component.Day(M.Day(M.Space))), FormatItem.Component(Component.Day(M.Day(M.Zero))),
             FormatItem.Component(Component.Day(M.Day(M.Padding.None)))]
    ensures ApplyAll(Component.Month(M.DefaultMonth), [SetMonthRepr(M.MonthRepr.Numerical)])
         == Component.Month(M.Month(M.Zero, M.MonthRepr.Numerical, true))
    ensures ApplyAll(Component.WeekNumber(M.DefaultWeekNumber), [SetWeekNumberRepr(M.WeekNumberRepr.Iso)])
         == Component.WeekNumber(M.WeekNumber(M.Zero, M.WeekNumberRepr.Iso))
    ensures ApplyAll(Component.Weekday(M.DefaultWeekday), [SetWeekdayRepr(M.WeekdayRepr.Long), SetOneIndexed(true)])
         == Component.Weekday(M.Weekday(M.WeekdayRepr.Long, true, true))
    ensures ApplyAll(Component.Year(M.DefaultYear), [SetYearRepr(M.Full), SetYearBase(false)])
         == Component.Year(M.Year(M.Zero, M.Full, false, false))
  {
  }

  // ---- RFC 3339 (parse_format_description.rs, `rfc_3339`) ----

  /** `[year]-[month repr:numerical]-[day]T[hour]:[minute]:[second].[subsecond][offset_hour sign:mandatory]:[offset_minute]`,
      piece by piece, in three parts. */
  function Rfc3339Pieces(): seq<Piece>
  {
    Rfc3339DatePieces() + Rfc3339TimePieces() + Rfc3339OffsetPieces()
  }

  function Rfc3339DatePieces(): seq<Piece>
  {
    [Described("", Component.Year(M.DefaultYear), [], ""), Text("-"),
     Described("", Component.Month(M.DefaultMonth), [SetMonthRepr(M.MonthRepr.Numerical)], ""), Text("-"),
     Described("", Component.Day(M.DefaultDay), [], ""), Text("T")]
  }

  function Rfc3339TimePieces(): seq<Piece>
  {
    [Described("", Component.Hour(M.DefaultHour), [], ""), Text(":"),
     Described("", Component.Minute(M.DefaultMinute), [], ""), Text(":"),
     Described("", Component.Second(M.DefaultSecond), [], ""), Text("."),
     Described("", Component.Subsecond(M.DefaultSubsecond), [], "")]
  }

  function Rfc3339OffsetPieces(): seq<Piece>
  {
    [Described("", Component.OffsetHour(M.DefaultOffsetHour), [SetSign(true)], ""), Text(":"),
     Described("", Component.OffsetMinute(M.DefaultOffsetMinute), [], "")]
  }

  /** The sixteen items the layout stands for, in the same three parts. */
  function Rfc3339Items(): seq<FormatItem>
  {
    Rfc3339DateItems() + Rfc3339TimeItems() + Rfc3339OffsetItems()
  }

  function Rfc3339DateItems(): seq<FormatItem>
  {
    [FormatItem.Component(Component.Year(M.Year(M.Zero, M.Full, false, false))), Literal("-"),
     FormatItem.Component(Component.Month(M.Month(M.Zero, M.MonthRepr.Numerical, true))), Literal("-"),
     FormatItem.Component(Component.Day(M.Day(M.Zero))), Literal("T")]
  }

  function Rfc3339TimeItems(): seq<FormatItem>
  {
    [FormatItem.Component(Component.Hour(M.Hour(M.Zero, false))), Literal(":"),
     FormatItem.Component(Component.Minute(M.Minute(M.Zero))), Literal(":"),
     FormatItem.Component(Component.Second(M.Second(M.Zero))), Literal("."),
     FormatItem.Component(Component.Subsecond(M.Subsecond(M.OneOrMore)))]
  }

  function Rfc3339OffsetItems(): seq<FormatItem>
  {
    [FormatItem.Component(Component.OffsetHour(M.OffsetHour(true, M.Zero))), Literal(":"),
     FormatItem.Component(Component.OffsetMinute(M.OffsetMinute(M.Zero)))]
  }

  /** Each part of the layout is well formed and means the part's items:
      the date, ... */
  lemma Rfc3339Date()
    ensures WellFormed(Builtin, Rfc3339DatePieces()) && Meanings(Builtin, Rfc3339DatePieces()) == Rfc3339DateItems()
  {
    var ps, items := Rfc3339DatePieces(), Rfc3339DateItems();
    forall k | 0 <= k < 6
      ensures PieceWellFormed(Builtin, ps[k]) && Meaning(Builtin, ps[k]) == items[k]
    {
      if k == 0 {
        DescribedMeaning("", Component.Year(M.DefaultYear), [], "");
      } else if k == 2 {
        DescribedMeaning("", Component.Month(M.DefaultMonth), [SetMonthRepr(M.MonthRepr.Numerical)], "");
      } else if k == 4 {
        DescribedMeaning("", Component.Day(M.DefaultDay), [], "");
      }
    }
    MeaningsPointwise(Builtin, ps, items);
  }

  /** ... the time of day with its fraction, ... */
  lemma Rfc3339Time()
    ensures WellFormed(Builtin, Rfc3339TimePieces()) && Meanings(Builtin, Rfc3339TimePieces()) == Rfc3339TimeItems()
  {
    var ps, items := Rfc3339TimePieces(), Rfc3339TimeItems();
    forall k | 0 <= k < 7
      ensures PieceWellFormed(Builtin, ps[k]) && Meaning(Builtin, ps[k]) == items[k]
    {
      if k == 0 {
        DescribedMeaning("", Component.Hour(M.DefaultHour), [], "");
      } else if k == 2 {
        DescribedMeaning("", Component.Minute(M.DefaultMinute), [], "");
      } else if k == 4 {
        DescribedMeaning("", Component.Second(M.DefaultSecond), [], "");
      } else if k == 6 {
        DescribedMeaning("", Component.Subsecond(M.DefaultSubsecond), [], "");
      }
    }
    MeaningsPointwise(Builtin, ps, items);
  }

  /** ... and the offset, whose hour always carries a sign. */
  lemma Rfc3339Offset()
    ensures WellFormed(Builtin, Rfc3339OffsetPieces()) && Meanings(Builtin, Rfc3339OffsetPieces()) == Rfc3339OffsetItems()
  {
    var ps, items := Rfc3339OffsetPieces(), Rfc3339OffsetItems();
    forall k | 0 <= k < 3
      ensures PieceWellFormed(Builtin, ps[k]) && Meaning(Builtin, ps[k]) == items[k]
    {
      if k == 0 {
        Rfc3339SignedHour();
      } else if k == 2 {
        DescribedMeaning("", Component.OffsetMinute(M.DefaultOffsetMinute), [], "");
      }
    }
    MeaningsPointwise(Builtin, ps, items);
  }

  lemma Rfc3339SignedHour()
    ensures PieceWellFormed(Builtin, Rfc3339OffsetPieces()[0])
    ensures Meaning(Builtin, Rfc3339OffsetPieces()[0]) == Rfc3339OffsetItems()[0]
  {
    DescribedMeaning("", Component.OffsetHour(M.DefaultOffsetHour), [SetSign(true)], "");
  }

  /** The RFC 3339 date-time layout compiles to its sixteen items in order:
      components and the literals between them. */
  lemma Rfc3339()
    ensures Parse(Render(Rfc3339Pieces())) == Ok(Rfc3339Items())
  {
    var date, time, offset := Rfc3339DatePieces(), Rfc3339TimePieces(), Rfc3339OffsetPieces();
    Rfc3339Date();
    Rfc3339Time();
    Rfc3339Offset();
    MeaningsJoin(Builtin, date, time);
    MeaningsJoin(Builtin, date + time, offset);
    ParseRendered(Rfc3339Pieces());
  }

  /** Rendering the pieces up to and including `ps[k]` extends the rendering
      of those before it by the text of `ps[k]`. */
  lemma RenderSnoc(ps: seq<Piece>, k: nat)
    requires k < |ps|
    ensures Render(ps[..k + 1]) == Render(ps[..k]) + RenderPiece(ps[k])
  {
    assert ps[..k + 1] == ps[..k] + [ps[k]];
    RenderAppend(ps[..k], [ps[k]]);
    assert [ps[k]][1..] == [];
  }

  /** One step of rendering from the left, with the texts named. */
  lemma RenderStep(ps: seq<Piece>, k: nat, before: string, piece: string, after: string)
    requires k < |ps| && Render(ps[..k]) == before && RenderPiece(ps[k]) == piece && before + piece == after
    ensures Render(ps[..k + 1]) == after
  {
    RenderSnoc(ps, k);
  }

  /** The text of a bracket holding a bare name, and of one holding a name
      and one modifier. */
  lemma BareText(c: Component, text: string)
    requires text == "[" + Name(c) + "]"
    ensures RenderPiece(Described("", c, [], "")) == text
  {
    BareNameText(c);
  }

  lemma ModifiedText(c: Component, st: Setting, text: string)
    requires text == "[" + Name(c) + " " + Token(st) + "]"
    ensures RenderPiece(Described("", c, [st], "")) == text
  {
    OneModifierText(c, st);
  }

  /** The text of each piece of the layout, piece by piece from the left
      (`RenderStep`), for each of its three parts. */
  lemma Rfc3339DatePieceTexts(ps: seq<Piece>)
    requires ps == Rfc3339DatePieces()
    ensures RenderPiece(ps[0]) == "[year]"
    ensures RenderPiece(ps[1]) == "-"
    ensures RenderPiece(ps[2]) == "[month repr:numerical]"
    ensures RenderPiece(ps[3]) == "-"
    ensures RenderPiece(ps[4]) == "[day]"
    ensures RenderPiece(ps[5]) == "T"
  {
    BareText(Component.Year(M.DefaultYear), "[year]");
    Rfc3339NumericalMonthText();
    BareText(Component.Day(M.DefaultDay), "[day]");
  }

  lemma Rfc3339DateGlue()
    ensures "[year]" + "-" == "[year]-"
    ensures "[year]-" + "[month repr:numerical]" == "[year]-[month repr:numerical]"
    ensures "[year]-[month repr:numerical]" + "-" == "[year]-[month repr:numerical]-"
    ensures "[year]-[month repr:numerical]-" + "[day]" == "[year]-[month repr:numerical]-[day]"
    ensures "[year]-[month repr:numerical]-[day]" + "T" == "[year]-[month repr:numerical]-[day]T"
  {
  }

  lemma Rfc3339DateChain(ps: seq<Piece>)
    requires |ps| == 6
    requires RenderPiece(ps[0]) == "[year]"
    requires RenderPiece(ps[1]) == "-"
    requires RenderPiece(ps[2]) == "[month repr:numerical]"
    requires RenderPiece(ps[3]) == "-"
    requires RenderPiece(ps[4]) == "[day]"
    requires RenderPiece(ps[5]) == "T"
    ensures Render(ps) == "[year]-[month repr:numerical]-[day]T"
  {
    Rfc3339DateGlue();
    assert ps[..0] == [];
    RenderStep(ps, 0, "", "[year]", "[year]");
    RenderStep(ps, 1, "[year]", "-", "[year]-");
    RenderStep(ps, 2, "[year]-", "[month repr:numerical]", "[year]-[month repr:numerical]");
    RenderStep(ps, 3, "[year]-[month repr:numerical]", "-", "[year]-[month repr:numerical]-");
    RenderStep(ps, 4, "[year]-[month repr:numerical]-", "[day]", "[year]-[month repr:numerical]-[day]");
    RenderStep(ps, 5, "[year]-[month repr:numerical]-[day]", "T", "[year]-[month repr:numerical]-[day]T");
    assert ps[..6] == ps;
  }

  lemma Rfc3339DateText()
    ensures Render(Rfc3339DatePieces()) == "[year]-[month repr:numerical]-[day]T"
  {
    Rfc3339DatePieceTexts(Rfc3339DatePieces());
    Rfc3339DateChain(Rfc3339DatePieces());
  }

  lemma Rfc3339TimePieceTexts(ps: seq<Piece>)
    requires ps == Rfc3339TimePieces()
    ensures RenderPiece(ps[0]) == "[hour]"
    ensures RenderPiece(ps[1]) == ":"
    ensures RenderPiece(ps[2]) == "[minute]"
    ensures RenderPiece(ps[3]) == ":"
  {
    BareText(Component.Hour(M.DefaultHour), "[hour]");
    BareText(Component.Minute(M.DefaultMinute), "[minute]");
  }

  lemma Rfc3339SecondPieceTexts(ps: seq<Piece>)
    requires ps == Rfc3339TimePieces()
    ensures RenderPiece(ps[4]) == "[second]"
    ensures RenderPiece(ps[5]) == "."
    ensures RenderPiece(ps[6]) == "[subsecond]"
  {
    BareText(Component.Second(M.DefaultSecond), "[second]");
    BareText(Component.Subsecond(M.DefaultSubsecond), "[subsecond]");
  }

  lemma Rfc3339TimeGlue()
    ensures "[hour]" + ":" == "[hour]:"
    ensures "[hour]:" + "[minute]" == "[hour]:[minute]"
    ensures "[hour]:[minute]" + ":" == "[hour]:[minute]:"
    ensures "[hour]:[minute]:" + "[second]" == "[hour]:[minute]:[second]"
    ensures "[hour]:[minute]:[second]" + "." == "[hour]:[minute]:[second]."
    ensures "[hour]:[minute]:[second]." + "[subsecond]" == "[hour]:[minute]:[second].[subsecond]"
  {
  }

  lemma Rfc3339TimeChain(ps: seq<Piece>)
    requires |ps| == 7
    requires RenderPiece(ps[0]) == "[hour]"
    requires RenderPiece(ps[1]) == ":"
    requires RenderPiece(ps[2]) == "[minute]"
    requires RenderPiece(ps[3]) == ":"
    requires RenderPiece(ps[4]) == "[second]"
    requires RenderPiece(ps[5]) == "."
    requires RenderPiece(ps[6]) == "[subsecond]"
    ensures Render(ps) == "[hour]:[minute]:[second].[subsecond]"
  {
    Rfc3339TimeGlue();
    assert ps[..0] == [];
    RenderStep(ps, 0, "", "[hour]", "[hour]");
    RenderStep(ps, 1, "[hour]", ":", "[hour]:");
    RenderStep(ps, 2, "[hour]:", "[minute]", "[hour]:[minute]");
    RenderStep(ps, 3, "[hour]:[minute]", ":", "[hour]:[minute]:");
    RenderStep(ps, 4, "[hour]:[minute]:", "[second]", "[hour]:[minute]:[second]");
    RenderStep(ps, 5, "[hour]:[minute]:[second]", ".", "[hour]:[minute]:[second].");
    RenderStep(ps, 6, "[hour]:[minute]:[second].", "[subsecond]", "[hour]:[minute]:[second].[subsecond]");
    assert ps[..7] == ps;
  }

  lemma Rfc3339TimeText()
    ensures Render(Rfc3339TimePieces()) == "[hour]:[minute]:[second].[subsecond]"
  {
    Rfc3339TimePieceTexts(Rfc3339TimePieces());
    Rfc3339SecondPieceTexts(Rfc3339TimePieces());
    Rfc3339TimeChain(Rfc3339TimePieces());
  }

  lemma Rfc3339NumericalMonthTextGlue()
    ensures "[" + "month" == "[month"
    ensures "[month" + " " == "[month "
    ensures "[month " + "repr:numerical" == "[month repr:numerical"
    ensures "[month repr:numerical" + "]" == "[month repr:numerical]"
  {
  }

  lemma Rfc3339NumericalMonthText()
    ensures RenderPiece(Described("", Component.Month(M.DefaultMonth), [SetMonthRepr(M.MonthRepr.Numerical)], "")) == "[month repr:numerical]"
  {
    var c, st := Component.Month(M.DefaultMonth), SetMonthRepr(M.MonthRepr.Numerical);
    OneModifierText(c, st);
    assert Name(c) == "month";
    assert Token(st) == "repr:numerical";
    Rfc3339NumericalMonthTextGlue();
  }

  lemma Rfc3339SignedHourTextGlue()
    ensures "[" + "offset_hour" == "[offset_hour"
    ensures "[offset_hour" + " " == "[offset_hour "
    ensures "[offset_hour " + "sign:mandatory" == "[offset_hour sign:mandatory"
    ensures "[offset_hour sign:mandatory" + "]" == "[offset_hour sign:mandatory]"
  {
  }

  lemma Rfc3339SignedHourText()
    ensures RenderPiece(Described("", Component.OffsetHour(M.DefaultOffsetHour), [SetSign(true)], "")) == "[offset_hour sign:mandatory]"
  {
    var c, st := Component.OffsetHour(M.DefaultOffsetHour), SetSign(true);
    OneModifierText(c, st);
    assert Name(c) == "offset_hour";
    assert Token(st) == "sign:mandatory";
    Rfc3339SignedHourTextGlue();
  }

  lemma Rfc3339OffsetPieceTexts(ps: seq<Piece>)
    requires ps == Rfc3339OffsetPieces()
    ensures RenderPiece(ps[0]) == "[offset_hour sign:mandatory]"
    ensures RenderPiece(ps[1]) == ":"
    ensures RenderPiece(ps[2]) == "[offset_minute]"
  {
    Rfc3339SignedHourText();
    BareText(Component.OffsetMinute(M.DefaultOffsetMinute), "[offset_minute]");
  }

  lemma Rfc3339OffsetGlue()
    ensures "[offset_hour sign:mandatory]" + ":" == "[offset_hour sign:mandatory]:"
    ensures "[offset_hour sign:mandatory]:" + "[offset_minute]" == "[offset_hour sign:mandatory]:[offset_minute]"
  {
  }

  lemma Rfc3339OffsetChain(ps: seq<Piece>)
    requires |ps| == 3
    requires RenderPiece(ps[0]) == "[offset_hour sign:mandatory]"
    requires RenderPiece(ps[1]) == ":"
    requires RenderPiece(ps[2]) == "[offset_minute]"
    ensures Render(ps) == "[offset_hour sign:mandatory]:[offset_minute]"
  {
    Rfc3339OffsetGlue();
    assert ps[..0] == [];
    RenderStep(ps, 0, "", "[offset_hour sign:mandatory]", "[offset_hour sign:mandatory]");
    RenderStep(ps, 1, "[offset_hour sign:mandatory]", ":", "[offset_hour sign:mandatory]:");
    RenderStep(ps, 2, "[offset_hour sign:mandatory]:", "[offset_minute]", "[offset_hour sign:mandatory]:[offset_minute]");
    assert ps[..3] == ps;
  }

  lemma Rfc3339OffsetText()
    ensures Render(Rfc3339OffsetPieces()) == "[offset_hour sign:mandatory]:[offset_minute]"
  {
    Rfc3339OffsetPieceTexts(Rfc3339OffsetPieces());
    Rfc3339OffsetChain(Rfc3339OffsetPieces());
  }

  /** The pieces of the layout render as exactly the description the RFC 3339
      test compiles: date, time of day and offset, one after the other. */
  lemma Rfc3339Text()
    ensures Render(Rfc3339Pieces())
         == "[year]-[month repr:numerical]-[day]T" + "[hour]:[minute]:[second].[subsecond]" + "[offset_hour sign:mandatory]:[offset_minute]"
  {
    Rfc3339DateText();
    Rfc3339TimeText();
    Rfc3339OffsetText();
    RenderAppend(Rfc3339DatePieces(), Rfc3339TimePieces());
    RenderAppend(Rfc3339DatePieces() + Rfc3339TimePieces(), Rfc3339OffsetPieces());
  }

  // ---- Errors (parse_format_description.rs, `errors` and `error_display`) ----

  /** A `[` with no `]` after it is reported at the `[`; a bracket with no name
      at the position of its `]`. */
  lemma BracketErrors()
    ensures Parse("[") == Err(E.UnclosedOpeningBracket(0))
    ensures Parse("[]") == Err(E.MissingComponentName(1))
  {
  }

  /** A name that is no component's is reported with the index of its first byte. */
  lemma UnknownName()
    ensures Parse("[ invalid ]") == Err(E.InvalidComponentName("invalid", 2))
  {
    var s := "[ invalid ]";
    FindAt(s, 1, ']', 10);
    SkipWhitespaceTo(s, 1, 10, 2);
    TokenEndTo(s, 2, 10, 9);
    assert s[2..9] == "invalid";
    assert ComponentFromName("invalid") == None;
    assert ParseItem(s, 0, Builtin) == Err(E.InvalidComponentName("invalid", 2));
  }

  /** Where the scanner stops in `[day sign:mandatory]`: the name, ... */
  lemma ForeignModifierName(s: string)
    requires s == "[day sign:mandatory]"
    ensures Find(s, 1, ']') == 19
    ensures SkipWhitespace(s, 1, 19) == 1 && TokenEnd(s, 1, 19) == 4 && s[1..4] == "day"
  {
    FindAt(s, 1, ']', 19);
    SkipWhitespaceTo(s, 1, 19, 1);
    TokenEndTo(s, 1, 19, 4);
  }

  lemma DaySignGlue()
    ensures "[day " + "sign:mandatory" == "[day sign:mandatory"
    ensures "[day sign:mandatory" + "]" == "[day sign:mandatory]"
  {
  }

  /** ... and the modifier. */
  lemma ForeignModifierToken(s: string)
    requires s == "[day sign:mandatory]"
    ensures SkipWhitespace(s, 4, 19) == 5 && TokenEnd(s, 5, 19) == 19 && s[5..19] == "sign:mandatory"
  {
    SkipWhitespaceTo(s, 4, 19, 5);
    TokenEndTo(s, 5, 19, 19);
    DaySignGlue();
    var head, token := "[day ", "sign:mandatory";
    assert s == head + token + "]";
    assert s[|head|..|head| + |token|] == token;
  }

  /** A modifier that belongs to another kind (`sign` is not a `day` modifier)
      is reported whole, with the index of its first byte. */
  lemma ForeignModifier()
    ensures Parse("[day sign:mandatory]") == Err(E.InvalidModifier("sign:mandatory", 5))
  {
    var s := "[day sign:mandatory]";
    ForeignModifierName(s);
    ForeignModifierToken(s);
    var day := Component.Day(M.DefaultDay);
    assert ComponentFromName("day") == Some(day);
    assert PaddingLookup("sign:mandatory") == None;
    assert ParseModifiers(s, 4, 19, Builtin, day) == Err(E.InvalidModifier("sign:mandatory", 5));
    assert ParseItem(s, 0, Builtin) == Err(E.InvalidModifier("sign:mandatory", 5));
  }

  /** `[foo]` names no component. */
  lemma FooName()
    ensures Parse("[foo]") == Err(E.InvalidComponentName("foo", 1))
  {
    var s := "[foo]";
    FindAt(s, 1, ']', 4);
    SkipWhitespaceTo(s, 1, 4, 1);
    TokenEndTo(s, 1, 4, 4);
    assert s[1..4] == "foo";
    assert ComponentFromName("foo") == None;
    assert ParseItem(s, 0, Builtin) == Err(E.InvalidComponentName("foo", 1));
  }

  /** `bar` is no `day` modifier. */
  lemma BarModifier()
    ensures Parse("[day bar]") == Err(E.InvalidModifier("bar", 5))
  {
    var s := "[day bar]";
    FindAt(s, 1, ']', 8);
    SkipWhitespaceTo(s, 1, 8, 1);
    TokenEndTo(s, 1, 8, 4);
    assert s[1..4] == "day";
    SkipWhitespaceTo(s, 4, 8, 5);
    TokenEndTo(s, 5, 8, 8);
    assert s[5..8] == "bar";
    var day := Component.Day(M.DefaultDay);
    assert ComponentFromName("day") == Some(day);
    assert PaddingLookup("bar") == None;
    assert ParseModifiers(s, 4, 8, Builtin, day) == Err(E.InvalidModifier("bar", 5));
    assert ParseItem(s, 0, Builtin) == Err(E.InvalidModifier("bar", 5));
  }

  /** The messages of the four kinds of description error, as the failed
      descriptions of `error_display` print them. */
  lemma UnclosedDisplay()
    ensures Parse("[").Err? && E.InvalidFormatDescriptionDisplay(Parse("[").error) == "unclosed opening bracket at byte index 0"
  {
    BracketErrors();
    assert NatToString(0) == "0";
  }

  lemma MissingNameDisplay()
    ensures Parse("[]").Err? && E.InvalidFormatDescriptionDisplay(Parse("[]").error) == "missing component name at byte index 1"
  {
    BracketErrors();
    assert NatToString(1) == "1";
  }

  lemma UnknownNameDisplay()
    ensures Parse("[foo]").Err? && E.InvalidFormatDescriptionDisplay(Parse("[foo]").error) == "invalid component name `foo` at byte index 1"
  {
    FooName();
    FooMessage();
  }

  lemma FooMessage()
    ensures E.InvalidFormatDescriptionDisplay(E.InvalidComponentName("foo", 1)) == "invalid component name `foo` at byte index 1"
  {
    var d := E.InvalidFormatDescriptionDisplay(E.InvalidComponentName("foo", 1));
    assert NatToString(1) == "1";
    assert |d| == 44;
    assert forall k :: 0 <= k < 44 ==> d[k] == "invalid component name `foo` at byte index 1"[k];
  }

  lemma UnknownModifierDisplay()
    ensures Parse("[day bar]").Err? && E.InvalidFormatDescriptionDisplay(Parse("[day bar]").error) == "invalid modifier `bar` at byte index 5"
  {
    BarModifier();
    BarMessage();
  }

  lemma BarMessage()
    ensures E.InvalidFormatDescriptionDisplay(E.InvalidModifier("bar", 5)) == "invalid modifier `bar` at byte index 5"
  {
    var d := E.InvalidFormatDescriptionDisplay(E.InvalidModifier("bar", 5));
    assert NatToString(5) == "5";
    assert |d| == 38;
    assert forall k :: 0 <= k < 38 ==> d[k] == "invalid modifier `bar` at byte index 5"[k];
  }
}

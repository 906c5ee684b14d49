/** Descriptions written from pieces: literal text, the `[[` escape, and
    bracketed components with space-separated modifiers. The main theorem,
    `ParseRendered`, says the compiler returns, for every well-formed piece
    sequence, exactly the items the pieces stand for. Everything up to it is
    proved for any `Tables`, so it holds for the built-in ones. */
module DescriptionRender {
  import opened Wrappers
  import opened Primitives
  import opened FormatDescription
  import opened DescriptionParse
  import ModifierLaws
  import E = Errors

  /** A piece of description text as a writer composes it. */
  datatype Piece =
    | Text(text: string)
    | Escape
    | Bracket(lead: string, name: string, rows: seq<Entry>, trail: string)

  /** The token of each row, each preceded by one space. */
  function Join(rows: seq<Entry>): string
  {
    if rows == [] then "" else " " + rows[0].token + Join(rows[1..])
  }

  function RenderPiece(p: Piece): string
  {
    match p
    case Text(t) => t
    case Escape => "[["
    case Bracket(lead, name, rows, trail) => "[" + lead + name + Join(rows) + trail + "]"
  }

  function Render(ps: seq<Piece>): string
  {
    if ps == [] then "" else RenderPiece(ps[0]) + Render(ps[1..])
  }

  /** Rendering a sequence of pieces is rendering its parts one after the other. */
  lemma {:induction false} RenderAppend(a: seq<Piece>, b: seq<Piece>)
    ensures Render(a + b) == Render(a) + Render(b)
    decreases |a|
  {
    if a == [] {
      assert a + b == b;
    } else {
      assert (a + b)[0] == a[0] && (a + b)[1..] == a[1..] + b;
      RenderAppend(a[1..], b);
    }
  }

  predicate AllWhitespace(w: string)
  {
    forall k :: 0 <= k < |w| ==> IsAsciiWhitespace(w[k])
  }

  /** Every row's token is a word. */
  predicate AllWords(rows: seq<Entry>)
    decreases |rows|
  {
    rows != [] ==> IsWord(rows[0].token) && AllWords(rows[1..])
  }

  /** The tables map every row's token, as a modifier of `c`, to the row's setting. */
  predicate Resolves(t: Tables, c: Component, rows: seq<Entry>)
    decreases |rows|
  {
    rows != [] ==> t.modifiers(c, rows[0].token) == Some(rows[0].setting) && Resolves(t, c, rows[1..])
  }

  /** A bracket holds whitespace, a name the tables know, tokens the tables
      resolve for that component, and whitespace. */
  predicate BracketWellFormed(t: Tables, lead: string, name: string, rows: seq<Entry>, trail: string)
  {
    AllWhitespace(lead) && AllWhitespace(trail) && IsWord(name) && AllWords(rows)
    && t.names(name).Some? && Resolves(t, t.names(name).value, rows)
  }

  /** A text is non-empty and free of `[`; a bracket is well formed. */
  predicate PieceWellFormed(t: Tables, p: Piece)
  {
    match p
    case Text(text) => text != [] && '[' !in text
    case Escape => true
    case Bracket(lead, name, rows, trail) => BracketWellFormed(t, lead, name, rows, trail)
  }

  /** Every piece is well formed and no two texts are adjacent (adjacent texts
      would compile to one literal). */
  predicate WellFormed(t: Tables, ps: seq<Piece>)
  {
    (forall k :: 0 <= k < |ps| ==> PieceWellFormed(t, ps[k]))
    && (forall k :: 0 <= k < |ps| - 1 ==> !(ps[k].Text? && ps[k + 1].Text?))
  }

  /** The item a well-formed piece stands for. */
  function Meaning(t: Tables, p: Piece): FormatItem
    requires PieceWellFormed(t, p)
  {
    match p
    case Text(text) => Literal(text)
    case Escape => Literal("[")
    case Bracket(_, name, rows, _) =>
      FormatItem.Component(ApplyAll(t.names(name).value, SettingsOf(rows)))
  }

  function Meanings(t: Tables, ps: seq<Piece>): seq<FormatItem>
    requires WellFormed(t, ps)
  {
    if ps == [] then [] else [Meaning(t, ps[0])] + Meanings(t, ps[1..])
  }

  // ---- Positions ----

  /** `w` occurs in `s` at `i`, stated one character at a time. */
  predicate At(s: string, i: nat, w: string)
    decreases |w|
  {
    i + |w| <= |s| && (w != [] ==> s[i] == w[0] && At(s, i + 1, w[1..]))
  }

  /** An occurrence is a slice. */
  lemma {:induction false} AtSlice(s: string, i: nat, w: string)
    requires i + |w| <= |s|
    ensures At(s, i, w) <==> s[i..i + |w|] == w
    decreases |w|
  {
    if w != [] {
      AtSlice(s, i + 1, w[1..]);
      assert s[i..i + |w|] == [s[i]] + s[i + 1..i + |w|];
      assert w == [w[0]] + w[1..];
    }
  }

  lemma {:induction false} AtConcat(s: string, i: nat, a: string, b: string)
    requires At(s, i, a + b)
    ensures At(s, i, a) && At(s, i + |a|, b)
    decreases |a|
  {
    if a == [] {
      assert a + b == b;
    } else {
      assert (a + b)[0] == a[0] && (a + b)[1..] == a[1..] + b;
      AtConcat(s, i + 1, a[1..], b);
    }
  }

  lemma {:induction false} AtIndex(s: string, i: nat, w: string, k: nat)
    requires At(s, i, w) && k < |w|
    ensures s[i + k] == w[k]
    decreases k
  {
    if k > 0 {
      AtIndex(s, i + 1, w[1..], k - 1);
    }
  }

  /** The `[`...`]` span of a rendered piece never starts a text, and a
      non-empty rendering that does not start with text starts with `[`. */
  lemma RenderShape(t: Tables, ps: seq<Piece>)
    requires WellFormed(t, ps)
    ensures Render(ps) == [] <==> ps == []
    ensures ps != [] && !ps[0].Text? ==> Render(ps)[0] == '['
    ensures ps != [] && ps[0].Text? ==> Render(ps)[0] != '['
  {
    if ps != [] {
      assert PieceWellFormed(t, ps[0]);
      assert RenderPiece(ps[0]) != [];
      assert Render(ps)[0] == RenderPiece(ps[0])[0];
      if ps[0].Text? {
        assert ps[0].text[0] in ps[0].text;
      }
    }
  }

  lemma WellFormedTail(t: Tables, ps: seq<Piece>)
    requires WellFormed(t, ps) && ps != []
    ensures WellFormed(t, ps[1..]) && PieceWellFormed(t, ps[0])
    ensures ps[0].Text? && |ps| > 1 ==> !ps[1].Text?
  {
    assert forall k :: 0 <= k < |ps[1..]| ==> ps[1..][k] == ps[k + 1];
  }

  /** `p` is where whitespace skipping from `i` stops. */
  lemma {:induction false} SkipWhitespaceTo(s: string, i: nat, end: nat, p: nat)
    requires i <= p <= end <= |s|
    requires forall k :: i <= k < p ==> IsAsciiWhitespace(s[k])
    requires p < end ==> !IsAsciiWhitespace(s[p])
    ensures SkipWhitespace(s, i, end) == p
    decreases p - i
  {
    if i < p {
      SkipWhitespaceTo(s, i + 1, end, p);
    }
  }

  /** `p` is where a token starting at `i` ends. */
  lemma {:induction false} TokenEndTo(s: string, i: nat, end: nat, p: nat)
    requires i <= p <= end <= |s|
    requires forall k :: i <= k < p ==> !IsAsciiWhitespace(s[k])
    requires p < end ==> IsAsciiWhitespace(s[p])
    ensures TokenEnd(s, i, end) == p
    decreases p - i
  {
    if i < p {
      TokenEndTo(s, i + 1, end, p);
    }
  }

  /** `p` is the first position at or after `from` holding `b`, or `|s|`. */
  lemma {:induction false} FindAt(s: string, from: nat, b: char, p: nat)
    requires from <= p <= |s| && (p < |s| ==> s[p] == b)
    requires forall k :: from <= k < p ==> s[k] != b
    ensures Find(s, from, b) == p
    decreases p - from
  {
    if from < p {
      FindAt(s, from + 1, b, p);
    }
  }

  /** Every position of an occurrence of whitespace `w` holds whitespace. */
  lemma AtWhitespace(s: string, i: nat, w: string)
    requires At(s, i, w) && AllWhitespace(w)
    ensures forall k :: i <= k < i + |w| ==> IsAsciiWhitespace(s[k])
  {
    forall k | i <= k < i + |w|
      ensures IsAsciiWhitespace(s[k])
    {
      AtIndex(s, i, w, k - i);
    }
  }

  /** An occurrence of a word holds no whitespace, and starts with its first character. */
  lemma AtWord(s: string, i: nat, w: string)
    requires At(s, i, w) && IsWord(w)
    ensures forall k :: i <= k < i + |w| ==> WordChar(s[k])
    ensures s[i] == w[0]
  {
    forall k | i <= k < i + |w|
      ensures WordChar(s[k])
    {
      AtIndex(s, i, w, k - i);
    }
    AtIndex(s, i, w, 0);
  }

  /** An occurrence of `w` holds no `b` when `w` does not. */
  lemma AtLacks(s: string, i: nat, w: string, b: char)
    requires At(s, i, w) && b !in w
    ensures forall k :: i <= k < i + |w| ==> s[k] != b
  {
    forall k | i <= k < i + |w|
      ensures s[k] != b
    {
      AtIndex(s, i, w, k - i);
      assert w[k - i] in w;
    }
  }

  lemma WordLacks(w: string, b: char)
    requires IsWord(w) && !WordChar(b)
    ensures b !in w
  {
  }

  lemma WhitespaceLacks(w: string, b: char)
    requires AllWhitespace(w) && !IsAsciiWhitespace(b)
    ensures b !in w
  {
  }

  // ---- The modifier list ----

  /** A rendered modifier list holds only spaces and word characters. */
  lemma {:induction false} JoinLacks(rows: seq<Entry>, b: char)
    requires AllWords(rows)
    requires b != ' ' && !WordChar(b)
    ensures b !in Join(rows)
    decreases |rows|
  {
    if rows != [] {
      WordLacks(rows[0].token, b);
      JoinLacks(rows[1..], b);
    }
  }

  /** A space then the word `tok` is a token the modifier loop reads whole. */
  lemma TokenPlaced(s: string, j: nat, close: nat, tok: string)
    requires j + 1 + |tok| <= close <= |s|
    requires s[j] == ' ' && At(s, j + 1, tok) && IsWord(tok)
    requires j + 1 + |tok| < close ==> IsAsciiWhitespace(s[j + 1 + |tok|])
    ensures SkipWhitespace(s, j, close) == j + 1 && TokenEnd(s, j + 1, close) == j + 1 + |tok|
    ensures s[j + 1..j + 1 + |tok|] == tok
  {
    AtWord(s, j + 1, tok);
    AtSlice(s, j + 1, tok);
    SkipWhitespaceTo(s, j, close, j + 1);
    TokenEndTo(s, j + 1, close, j + 1 + |tok|);
  }

  /** The modifier loop's step, given where the token lies and what it names. */
  lemma ParseModifiersUnfold(s: string, j: nat, start: nat, stop: nat, close: nat, t: Tables, c: Component,
                             st: Setting, rest: seq<Setting>)
    requires j <= start < stop <= close <= |s|
    requires SkipWhitespace(s, j, close) == start && TokenEnd(s, start, close) == stop
    requires t.modifiers(c, s[start..stop]) == Some(st)
    requires ParseModifiers(s, stop, close, t, c) == Ok(rest)
    ensures ParseModifiers(s, j, close, t, c) == Ok([st] + rest)
  {
  }

  /** One step of the modifier loop over a space and the token `tok`,
      followed by whitespace or the end of the span. */
  lemma ParseModifiersStep(s: string, j: nat, close: nat, t: Tables, c: Component, tok: string,
                           st: Setting, rest: seq<Setting>)
    requires j + 1 + |tok| <= close <= |s|
    requires s[j] == ' ' && At(s, j + 1, tok) && IsWord(tok)
    requires j + 1 + |tok| < close ==> IsAsciiWhitespace(s[j + 1 + |tok|])
    requires t.modifiers(c, tok) == Some(st)
    requires ParseModifiers(s, j + 1 + |tok|, close, t, c) == Ok(rest)
    ensures ParseModifiers(s, j, close, t, c) == Ok([st] + rest)
  {
    TokenPlaced(s, j, close, tok);
    ParseModifiersUnfold(s, j, j + 1, j + 1 + |tok|, close, t, c, st, rest);
  }

  lemma JoinStartsWithSpace(rows: seq<Entry>)
    requires rows != []
    ensures Join(rows)[0] == ' '
  {
  }

  /** A rendered non-empty modifier list is a space, the first token, then
      the rest of the list. */
  lemma JoinSplits(s: string, j: nat, close: nat, rows: seq<Entry>, trail: string)
    requires At(s, j, Join(rows)) && At(s, j + |Join(rows)|, trail)
    requires close == j + |Join(rows)| + |trail|
    requires AllWhitespace(trail) && rows != []
    ensures s[j] == ' ' && At(s, j + 1, rows[0].token)
    ensures At(s, j + 1 + |rows[0].token|, Join(rows[1..]))
    ensures close == j + 1 + |rows[0].token| + |Join(rows[1..])| + |trail|
    ensures j + 1 + |rows[0].token| < close ==> IsAsciiWhitespace(s[j + 1 + |rows[0].token|])
  {
    var tok := rows[0].token;
    var rest := Join(rows[1..]);
    var next := j + 1 + |tok|;
    AtConcat(s, j, " " + tok, rest);
    AtConcat(s, j, " ", tok);
    AtIndex(s, j, " ", 0);
    if next < close {
      if rest != [] {
        JoinStartsWithSpace(rows[1..]);
        AtIndex(s, next, rest, 0);
      } else {
        AtIndex(s, next, trail, 0);
      }
    }
  }

  /** Only whitespace remains: the modifier list is over. */
  lemma ParseModifiersAtTrail(s: string, j: nat, close: nat, t: Tables, c: Component, trail: string)
    requires At(s, j, trail) && close == j + |trail| && AllWhitespace(trail)
    ensures ParseModifiers(s, j, close, t, c) == Ok([])
  {
    AtWhitespace(s, j, trail);
    SkipWhitespaceTo(s, j, close, close);
  }

  /** The modifier list rendered after a component name reads back as the
      rows' settings, in order, when the tables resolve each row's token;
      the trailing whitespace before `]` is skipped. */
  lemma {:induction false} ParseModifiersRendered(s: string, j: nat, close: nat, t: Tables, c: Component,
                                                  rows: seq<Entry>, trail: string)
    requires At(s, j, Join(rows)) && At(s, j + |Join(rows)|, trail)
    requires close == j + |Join(rows)| + |trail|
    requires AllWhitespace(trail) && AllWords(rows) && Resolves(t, c, rows)
    ensures ParseModifiers(s, j, close, t, c) == Ok(SettingsOf(rows))
    decreases |rows|
  {
    if rows == [] {
      ParseModifiersAtTrail(s, j, close, t, c, trail);
    } else {
      var tok := rows[0].token;
      JoinSplits(s, j, close, rows, trail);
      ParseModifiersRendered(s, j + 1 + |tok|, close, t, c, rows[1..], trail);
      ParseModifiersStep(s, j, close, t, c, tok, rows[0].setting, SettingsOf(rows[1..]));
    }
  }

  // ---- A bracket ----

  /** The parts of a rendered bracket, each where the rendering puts it. */
  lemma BracketSplit(s: string, i: nat, n0: nat, n1: nat, n2: nat, close: nat,
                     lead: string, name: string, rows: seq<Entry>, trail: string)
    requires n0 == i + 1 + |lead| && n1 == n0 + |name| && n2 == n1 + |Join(rows)| && close == n2 + |trail|
    requires At(s, i, "[" + lead + name + Join(rows) + trail + "]")
    ensures close < |s| && s[i] == '[' && s[close] == ']'
    ensures At(s, i + 1, lead) && At(s, n0, name) && At(s, n1, Join(rows)) && At(s, n2, trail)
  {
    AtConcat(s, i, "[" + lead + name + Join(rows) + trail, "]");
    AtConcat(s, i, "[" + lead + name + Join(rows), trail);
    AtConcat(s, i, "[" + lead + name, Join(rows));
    AtConcat(s, i, "[" + lead, name);
    AtConcat(s, i, "[", lead);
    AtIndex(s, i, "[", 0);
    AtIndex(s, close, "]", 0);
  }

  /** No `]` inside a rendered bracket body. */
  lemma BracketLacksClose(s: string, i: nat, n0: nat, n1: nat, n2: nat,
                          lead: string, name: string, rows: seq<Entry>, trail: string)
    requires n0 == i + 1 + |lead| && n1 == n0 + |name| && n2 == n1 + |Join(rows)|
    requires AllWhitespace(lead) && AllWhitespace(trail) && IsWord(name) && AllWords(rows)
    requires At(s, i + 1, lead) && At(s, n0, name) && At(s, n1, Join(rows)) && At(s, n2, trail)
    ensures forall k :: i + 1 <= k < n2 + |trail| ==> s[k] != ']'
  {
    WhitespaceLacks(lead, ']');
    AtLacks(s, i + 1, lead, ']');
    WordLacks(name, ']');
    AtLacks(s, n0, name, ']');
    JoinLacks(rows, ']');
    AtLacks(s, n1, Join(rows), ']');
    WhitespaceLacks(trail, ']');
    AtLacks(s, n2, trail, ']');
  }

  /** A rendered bracket opens with a single `[`, and its own `]` is the
      first one after the opening. */
  lemma BracketPlaced(s: string, i: nat, n0: nat, n1: nat, n2: nat, close: nat,
                      lead: string, name: string, rows: seq<Entry>, trail: string)
    requires n0 == i + 1 + |lead| && n1 == n0 + |name| && n2 == n1 + |Join(rows)| && close == n2 + |trail|
    requires AllWhitespace(lead) && AllWhitespace(trail) && IsWord(name) && AllWords(rows)
    requires close < |s| && s[close] == ']'
    requires At(s, i + 1, lead) && At(s, n0, name) && At(s, n1, Join(rows)) && At(s, n2, trail)
    ensures s[i + 1] != '['
    ensures Find(s, i + 1, ']') == close
  {
    BracketLacksClose(s, i, n0, n1, n2, lead, name, rows, trail);
    FindAt(s, i + 1, ']', close);
    if lead != [] {
      AtIndex(s, i + 1, lead, 0);
    } else {
      AtIndex(s, n0, name, 0);
    }
  }

  /** Where the name of a rendered component body lies. */
  lemma NamePlaced(s: string, open: nat, n0: nat, n1: nat, close: nat,
                   lead: string, name: string, rows: seq<Entry>, trail: string)
    requires n0 == open + |lead| && n1 == n0 + |name| && close == n1 + |Join(rows)| + |trail|
    requires AllWhitespace(lead) && AllWhitespace(trail) && IsWord(name)
    requires At(s, open, lead) && At(s, n0, name)
    requires At(s, n1, Join(rows)) && At(s, n1 + |Join(rows)|, trail)
    ensures n1 <= close <= |s|
    ensures SkipWhitespace(s, open, close) == n0 && TokenEnd(s, n0, close) == n1
    ensures s[n0..n1] == name
  {
    AtWhitespace(s, open, lead);
    AtWord(s, n0, name);
    SkipWhitespaceTo(s, open, close, n0);
    if n1 < close {
      if rows != [] {
        JoinStartsWithSpace(rows);
        AtIndex(s, n1, Join(rows), 0);
      } else {
        AtIndex(s, n1, trail, 0);
      }
    }
    TokenEndTo(s, n0, close, n1);
    AtSlice(s, n0, name);
  }

  /** The compiler's reading of a component body, given where its name lies
      and what its modifier list yields. */
  lemma ComponentParsed(s: string, open: nat, n0: nat, n1: nat, close: nat, t: Tables,
                        name: string, c: Component, settings: seq<Setting>)
    requires open <= n0 <= n1 <= close <= |s|
    requires SkipWhitespace(s, open, close) == n0 && TokenEnd(s, n0, close) == n1
    requires s[n0..n1] == name && name != [] && t.names(name) == Some(c)
    requires ParseModifiers(s, n1, close, t, c) == Ok(settings)
    ensures ParseComponent(s, open, close, t) == Ok(ApplyAll(c, settings))
  {
  }

  /** The component body between the brackets compiles to the component the
      name and modifiers describe. */
  lemma BracketBody(s: string, open: nat, n0: nat, n1: nat, close: nat, t: Tables,
                    lead: string, name: string, c: Component, rows: seq<Entry>, trail: string)
    requires n0 == open + |lead| && n1 == n0 + |name| && close == n1 + |Join(rows)| + |trail|
    requires AllWhitespace(lead) && AllWhitespace(trail) && IsWord(name) && AllWords(rows)
    requires t.names(name) == Some(c) && Resolves(t, c, rows)
    requires At(s, open, lead) && At(s, n0, name)
    requires At(s, n1, Join(rows)) && At(s, n1 + |Join(rows)|, trail)
    ensures ParseComponent(s, open, close, t) == Ok(ApplyAll(c, SettingsOf(rows)))
  {
    NamePlaced(s, open, n0, n1, close, lead, name, rows, trail);
    ParseModifiersRendered(s, n1, close, t, c, rows, trail);
    ComponentParsed(s, open, n0, n1, close, t, name, c, SettingsOf(rows));
  }

  /** The compiler's step over a bracket whose `]` and body are known. */
  lemma BracketStep(s: string, i: nat, close: nat, t: Tables, c: Component, item: FormatItem, next: nat)
    requires i + 1 <= close < |s| && s[i] == '[' && s[i + 1] != '['
    requires Find(s, i + 1, ']') == close
    requires ParseComponent(s, i + 1, close, t) == Ok(c)
    requires item == FormatItem.Component(c) && next == close + 1
    ensures ParseItem(s, i, t) == Ok(Step(item, next))
  {
    assert ParseItem(s, i, t).Ok?;
    assert ParseItem(s, i, t).value.item == item;
  }

  /** A bracket whose parts are in place compiles to its component and
      resumes after its `]`. */
  lemma BracketParsed(s: string, i: nat, n0: nat, n1: nat, n2: nat, close: nat, t: Tables,
                      lead: string, name: string, c: Component, rows: seq<Entry>, trail: string,
                      item: FormatItem, next: nat)
    requires n0 == i + 1 + |lead| && n1 == n0 + |name| && n2 == n1 + |Join(rows)| && close == n2 + |trail|
    requires AllWhitespace(lead) && AllWhitespace(trail) && IsWord(name) && AllWords(rows)
    requires t.names(name) == Some(c) && Resolves(t, c, rows)
    requires close < |s| && s[i] == '[' && s[close] == ']'
    requires At(s, i + 1, lead) && At(s, n0, name) && At(s, n1, Join(rows)) && At(s, n2, trail)
    requires item == FormatItem.Component(ApplyAll(c, SettingsOf(rows))) && next == close + 1
    ensures ParseItem(s, i, t) == Ok(Step(item, next))
  {
    var comp := ApplyAll(c, SettingsOf(rows));
    BracketBody(s, i + 1, n0, n1, close, t, lead, name, c, rows, trail);
    BracketPlaced(s, i, n0, n1, n2, close, lead, name, rows, trail);
    BracketStep(s, i, close, t, comp, item, next);
  }

  /** A rendered bracket compiles to its component and resumes after its `]`. */
  lemma BracketRendered(s: string, i: nat, t: Tables, p: Piece, item: FormatItem, next: nat)
    requires p.Bracket? && PieceWellFormed(t, p)
    requires At(s, i, RenderPiece(p))
    requires item == Meaning(t, p) && next == i + |RenderPiece(p)|
    ensures ParseItem(s, i, t) == Ok(Step(item, next))
  {
    var n0 := i + 1 + |p.lead|;
    var n1 := n0 + |p.name|;
    var n2 := n1 + |Join(p.rows)|;
    var close := n2 + |p.trail|;
    BracketSplit(s, i, n0, n1, n2, close, p.lead, p.name, p.rows, p.trail);
    BracketParsed(s, i, n0, n1, n2, close, t, p.lead, p.name, t.names(p.name).value, p.rows, p.trail, item, next);
  }

  // ---- Text and the escape ----

  /** Text runs up to the next `[` and compiles to one literal. */
  lemma TextRendered(s: string, i: nat, t: Tables, text: string, item: FormatItem, next: nat)
    requires text != [] && '[' !in text && At(s, i, text)
    requires next == i + |text| && (next < |s| ==> s[next] == '[')
    requires item == Literal(text)
    ensures ParseItem(s, i, t) == Ok(Step(item, next))
  {
    AtIndex(s, i, text, 0);
    forall k | i <= k < next
      ensures s[k] != '['
    {
      AtIndex(s, i, text, k - i);
      assert text[k - i] in text;
    }
    FindAt(s, i, '[', next);
    AtSlice(s, i, text);
  }

  /** `[[` compiles to a literal `[`. */
  lemma EscapeRendered(s: string, i: nat, t: Tables, item: FormatItem, next: nat)
    requires At(s, i, "[[") && next == i + 2 && item == Literal("[")
    ensures ParseItem(s, i, t) == Ok(Step(item, next))
  {
    AtIndex(s, i, "[[", 0);
    AtIndex(s, i, "[[", 1);
  }

  // ---- The compiler on rendered pieces ----

  /** The compiler's first step on a rendered piece yields the piece's meaning
      and resumes right after the piece. A text must be followed by `[` or the
      end of the description. */
  lemma ParseItemRendered(s: string, i: nat, t: Tables, p: Piece, item: FormatItem, next: nat)
    requires PieceWellFormed(t, p) && At(s, i, RenderPiece(p))
    requires item == Meaning(t, p) && next == i + |RenderPiece(p)|
    requires p.Text? && next < |s| ==> s[next] == '['
    ensures ParseItem(s, i, t) == Ok(Step(item, next))
  {
    if p.Text? {
      TextRendered(s, i, t, p.text, item, next);
    } else if p.Escape? {
      EscapeRendered(s, i, t, item, next);
    } else {
      BracketRendered(s, i, t, p, item, next);
    }
  }

  /** One step of the compiler's item loop. */
  lemma ParseFromStep(s: string, i: nat, t: Tables, item: FormatItem, next: nat, rest: seq<FormatItem>)
    requires i < next <= |s|
    requires ParseItem(s, i, t) == Ok(Step(item, next))
    requires ParseFrom(s, next, t) == Ok(rest)
    ensures ParseFrom(s, i, t) == Ok([item] + rest)
  {
  }

  /** From a position where the rendering of `ps` fills the rest of `s`, the
      compiler yields the pieces' meanings. */
  lemma {:induction false} ParseFromRendered(s: string, i: nat, t: Tables, ps: seq<Piece>)
    requires WellFormed(t, ps)
    requires At(s, i, Render(ps)) && i + |Render(ps)| == |s|
    ensures ParseFrom(s, i, t) == Ok(Meanings(t, ps))
    decreases |ps|
  {
    RenderShape(t, ps);
    if ps != [] {
      WellFormedTail(t, ps);
      var p := ps[0];
      var w := RenderPiece(p);
      var next := i + |w|;
      AtConcat(s, i, w, Render(ps[1..]));
      RenderShape(t, ps[1..]);
      if next < |s| {
        AtIndex(s, next, Render(ps[1..]), 0);
      }
      ParseItemRendered(s, i, t, p, Meaning(t, p), next);
      ParseFromRendered(s, next, t, ps[1..]);
      ParseFromStep(s, i, t, Meaning(t, p), next, Meanings(t, ps[1..]));
    }
  }

  /** Compiling the rendering of well-formed pieces yields exactly their
      meanings, in order. */
  lemma ParseRendered(ps: seq<Piece>)
    requires WellFormed(Builtin, ps)
    ensures Parse(Render(ps)) == Ok(Meanings(Builtin, ps))
  {
    AtSlice(Render(ps), 0, Render(ps));
    ParseFromRendered(Render(ps), 0, Builtin, ps);
  }

  /** The items of well-formed pieces are their meanings, one per piece, in order. */
  lemma {:induction false} MeaningsAt(t: Tables, ps: seq<Piece>)
    requires WellFormed(t, ps)
    ensures |Meanings(t, ps)| == |ps|
    ensures forall k :: 0 <= k < |ps| ==> Meanings(t, ps)[k] == Meaning(t, ps[k])
  {
    if ps != [] {
      WellFormedTail(t, ps);
      MeaningsAt(t, ps[1..]);
    }
  }

  /** A description written as well-formed pieces compiles to one item per
      piece, each the piece's meaning. */
  lemma ParsePieces(s: string, ps: seq<Piece>)
    requires WellFormed(Builtin, ps) && Render(ps) == s
    ensures Parse(s).Ok? && |Parse(s).value| == |ps|
    ensures forall k :: 0 <= k < |ps| ==> Parse(s).value[k] == Meaning(Builtin, ps[k])
  {
    ParseRendered(ps);
    MeaningsAt(Builtin, ps);
  }

  /** Pieces each well formed and standing for the item in the same place,
      with no two texts side by side, mean exactly those items. */
  lemma {:induction false} MeaningsPointwise(t: Tables, ps: seq<Piece>, items: seq<FormatItem>)
    requires |ps| == |items|
    requires forall k :: 0 <= k < |ps| ==> PieceWellFormed(t, ps[k]) && Meaning(t, ps[k]) == items[k]
    requires forall k :: 0 <= k < |ps| - 1 ==> !(ps[k].Text? && ps[k + 1].Text?)
    ensures WellFormed(t, ps) && Meanings(t, ps) == items
  {
    MeaningsAt(t, ps);
  }

  /** Two well-formed layouts side by side, with no two texts meeting at the
      seam, form a well-formed layout ... */
  lemma WellFormedJoin(t: Tables, a: seq<Piece>, b: seq<Piece>)
    requires WellFormed(t, a) && WellFormed(t, b)
    requires a != [] && b != [] ==> !(a[|a| - 1].Text? && b[0].Text?)
    ensures WellFormed(t, a + b)
  {
    var ab := a + b;
    forall k | 0 <= k < |ab|
      ensures PieceWellFormed(t, ab[k])
    {
      if k >= |a| {
        assert ab[k] == b[k - |a|];
      }
    }
    forall k | 0 <= k < |ab| - 1
      ensures !(ab[k].Text? && ab[k + 1].Text?)
    {
      if k + 1 < |a| {
        assert ab[k] == a[k] && ab[k + 1] == a[k + 1];
      } else if k + 1 == |a| {
        assert ab[k] == a[|a| - 1] && ab[k + 1] == b[0];
      } else {
        assert ab[k] == b[k - |a|] && ab[k + 1] == b[k + 1 - |a|];
      }
    }
  }

  /** ... meaning the first's items, then the second's. */
  lemma {:induction false} MeaningsJoin(t: Tables, a: seq<Piece>, b: seq<Piece>)
    requires WellFormed(t, a) && WellFormed(t, b)
    requires a != [] && b != [] ==> !(a[|a| - 1].Text? && b[0].Text?)
    ensures WellFormed(t, a + b) && Meanings(t, a + b) == Meanings(t, a) + Meanings(t, b)
  {
    WellFormedJoin(t, a, b);
    if a == [] {
      assert a + b == b;
    } else {
      WellFormedTail(t, a);
      assert a[1..] != [] ==> a[1..][|a[1..]| - 1] == a[|a| - 1];
      MeaningsJoin(t, a[1..], b);
      var ab := a + b;
      assert ab[0] == a[0] && ab[1..] == a[1..] + b;
      WellFormedTail(t, ab);
      assert Meanings(t, ab) == [Meaning(t, a[0])] + Meanings(t, a[1..] + b);
    }
  }

  // ---- Well-formed brackets for the built-in tables ----

  /** Rows that spell settings the component accepts are words its lookup
      resolves. */
  lemma {:induction false} RowsResolve(c: Component, rows: seq<Entry>)
    requires forall k :: 0 <= k < |rows| ==> rows[k].setting in SettingsFor(c) && rows[k].token == Token(rows[k].setting)
    ensures Resolves(Builtin, c, rows) && AllWords(rows)
    decreases |rows|
  {
    if rows != [] {
      ModifierLaws.LookupComplete(c, rows[0].setting);
      assert forall k :: 0 <= k < |rows[1..]| ==> rows[1..][k] == rows[k + 1];
      RowsResolve(c, rows[1..]);
    }
  }

  /** A bracket naming a component, with tokens of settings that component
      accepts and whitespace around them, is well formed for the built-in
      tables, and stands for that component with its defaults overridden
      by the tokens' settings. */
  lemma BuiltinBracket(lead: string, c: Component, rows: seq<Entry>, trail: string)
    requires AllWhitespace(lead) && AllWhitespace(trail)
    requires forall k :: 0 <= k < |rows| ==> rows[k].setting in SettingsFor(c) && rows[k].token == Token(rows[k].setting)
    ensures BracketWellFormed(Builtin, lead, Name(c), rows, trail)
    ensures Builtin.names(Name(c)) == Some(DefaultOf(c))
  {
    NameRoundTrip(c);
    NameIsWord(c);
    DefaultKeepsSettings(c);
    RowsResolve(DefaultOf(c), rows);
  }
}

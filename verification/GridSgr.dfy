/** Printing cells as text with SGR sequences, only differences being emitted, and a
    terminal that reads them (grid.c; SGR is section 8.3.117 of ECMA-48). */
module GridSgr {
  import opened GridCells

  // ----- The terminal

  /** One parameter of an SGR sequence: a number, or two joined by a colon. */
  datatype Param = Num(n: nat) | Sub(n: nat, m: nat)

  datatype Token = Sgr(params: seq<Param>) | ShiftOut | ShiftIn | Text(ch: byte)

  /** The graphic rendition in force: attributes, the shifted character set, colours. */
  datatype Style = Style(attrs: set<Attr>, charset: bool, fg: Colour, bg: Colour, us: Colour)

  const UNDERSCORES: set<Attr> := {Underscore, Underscore2, Underscore3, Underscore4, Underscore5}

  /** Setting an attribute; the forms of underscore exclude each other. */
  function SetAttr(attrs: set<Attr>, a: Attr): set<Attr> {
    if a in UNDERSCORES then attrs - UNDERSCORES + {a} else attrs + {a}
  }

  function ResetStyle(st: Style): Style {
    Style({}, st.charset, DEFAULT, DEFAULT, DEFAULT)
  }

  /** A parameter that stands alone. */
  function ApplyOne(st: Style, p: Param): Style {
    match p
    case Sub(n, m) =>
      if n != 4 then st
      else if m == 0 then st.(attrs := st.attrs - UNDERSCORES)
      else if m == 1 then st.(attrs := SetAttr(st.attrs, Underscore))
      else if m == 2 then st.(attrs := SetAttr(st.attrs, Underscore2))
      else if m == 3 then st.(attrs := SetAttr(st.attrs, Underscore3))
      else if m == 4 then st.(attrs := SetAttr(st.attrs, Underscore4))
      else if m == 5 then st.(attrs := SetAttr(st.attrs, Underscore5))
      else st
    case Num(n) =>
      if n == 0 then ResetStyle(st)
      else if n == 1 then st.(attrs := SetAttr(st.attrs, Bright))
      else if n == 2 then st.(attrs := SetAttr(st.attrs, Dim))
      else if n == 3 then st.(attrs := SetAttr(st.attrs, Italics))
      else if n == 4 then st.(attrs := SetAttr(st.attrs, Underscore))
      else if n == 5 then st.(attrs := SetAttr(st.attrs, Blink))
      else if n == 7 then st.(attrs := SetAttr(st.attrs, Reverse))
      else if n == 8 then st.(attrs := SetAttr(st.attrs, Hidden))
      else if n == 9 then st.(attrs := SetAttr(st.attrs, Strikethrough))
      else if 30 <= n <= 37 then st.(fg := Plain(n - 30))
      else if n == 39 then st.(fg := DEFAULT)
      else if 40 <= n <= 47 then st.(bg := Plain(n - 40))
      else if n == 49 then st.(bg := DEFAULT)
      else if n == 59 then st.(us := DEFAULT)
      else if 90 <= n <= 97 then st.(fg := Plain(n))
      else if 100 <= n <= 107 then st.(bg := Plain(n - 10))
      else st
  }

  function SetColour(st: Style, which: nat, c: Colour): Style {
    if which == 38 then st.(fg := c) else if which == 48 then st.(bg := c) else st.(us := c)
  }

  function ParamByte(p: Param): byte {
    if p.Num? && p.n < 256 then p.n else 0
  }

  /** The parameters of one sequence from left to right; 38, 48 and 58 take a colour. */
  function ApplyParams(st: Style, ps: seq<Param>): Style
    decreases |ps|
  {
    if ps == [] then st
    else if ps[0].Num? && ps[0].n in {38, 48, 58} then
      if |ps| >= 3 && ps[1] == Num(5) then
        ApplyParams(SetColour(st, ps[0].n, Indexed(ParamByte(ps[2]))), ps[3..])
      else if |ps| >= 5 && ps[1] == Num(2) then
        ApplyParams(SetColour(st, ps[0].n, Rgb(ParamByte(ps[2]), ParamByte(ps[3]), ParamByte(ps[4]))), ps[5..])
      else if |ps| >= 2 then ApplyParams(st, ps[2..])
      else st
    else ApplyParams(ApplyOne(st, ps[0]), ps[1..])
  }

  function ApplyToken(st: Style, t: Token): Style {
    match t
    case Sgr(params) => ApplyParams(st, params)
    case ShiftOut => st.(charset := true)
    case ShiftIn => st.(charset := false)
    case Text(_) => st
  }

  function ApplyAll(st: Style, ts: seq<Token>): Style {
    if ts == [] then st else ApplyToken(ApplyAll(st, ts[..|ts| - 1]), ts[|ts| - 1])
  }

  // ----- The sequences

  /** The table of grid_string_cells_code. */
  const CODES := 13

  function EntryAttr(i: nat): Attr
    requires i < CODES
  {
    [Bright, Dim, Italics, Underscore, Blink, Reverse, Hidden, Strikethrough,
     Underscore2, Underscore3, Underscore4, Underscore5, Overline][i]
  }

  function EntryCode(i: nat): Param
    requires i < CODES
  {
    [Num(1), Num(2), Num(3), Num(4), Num(5), Num(7), Num(8), Num(9),
     Sub(4, 2), Sub(4, 3), Sub(4, 4), Sub(4, 5), Sub(5, 3)][i]
  }

  const CODED_ATTRS: set<Attr> := {
    Bright, Dim, Italics, Underscore, Blink, Reverse, Hidden, Strikethrough,
    Underscore2, Underscore3, Underscore4, Underscore5, Overline}

  /** What a cell looks like. */
  function StyleOf(c: Cell): Style {
    Style(c.attr * CODED_ATTRS, Charset in c.attr, c.fg, c.bg, c.us)
  }

  /** The first loop of grid_string_cells_code: an attribute was removed, or the colour
      of the underscore goes back to the default, which has no code of its own. */
  predicate NeedsReset(last: Cell, gc: Cell) {
    (exists a :: a in CODED_ATTRS && a in last.attr && a !in gc.attr) || (last.us != DEFAULT && gc.us == DEFAULT)
  }

  /** The second loop, from entry `i` of the table. */
  function AttrCodes(i: nat, want: set<Attr>): seq<Param>
    requires i <= CODES
    decreases CODES - i
  {
    if i == CODES then []
    else (if EntryAttr(i) in want then [EntryCode(i)] else []) + AttrCodes(i + 1, want)
  }

  /** grid_string_cells_fg */
  function FgCodes(c: Colour): seq<Param> {
    match c
    case Indexed(i) => [Num(38), Num(5), Num(i)]
    case Rgb(r, g, b) => [Num(38), Num(2), Num(r), Num(g), Num(b)]
    case Plain(n) =>
      if n <= 7 then [Num(n + 30)] else if n == 8 then [Num(39)] else if 90 <= n <= 97 then [Num(n)] else []
  }

  /** grid_string_cells_bg */
  function BgCodes(c: Colour): seq<Param> {
    match c
    case Indexed(i) => [Num(48), Num(5), Num(i)]
    case Rgb(r, g, b) => [Num(48), Num(2), Num(r), Num(g), Num(b)]
    case Plain(n) =>
      if n <= 7 then [Num(n + 40)] else if n == 8 then [Num(49)] else if 90 <= n <= 97 then [Num(n + 10)] else []
  }

  /** grid_string_cells_us */
  function UsCodes(c: Colour): seq<Param> {
    match c
    case Indexed(i) => [Num(58), Num(5), Num(i)]
    case Rgb(r, g, b) => [Num(58), Num(2), Num(r), Num(g), Num(b)]
    case Plain(_) => []
  }

  /** grid_string_cells_add_code */
  function AddCode(reset: bool, newc: seq<Param>, oldc: seq<Param>): seq<Token> {
    if newc == [] then []
    else if !reset && newc == oldc then []
    else if reset && (newc[0] == Num(49) || newc[0] == Num(39)) then []
    else [Sgr(newc)]
  }

  function AttrTokens(last: Cell, gc: Cell): seq<Token> {
    var s := if NeedsReset(last, gc) then [Num(0)] + AttrCodes(0, gc.attr) else AttrCodes(0, gc.attr - last.attr);
    if s == [] then [] else [Sgr(s)]
  }

  function CharsetTokens(last: Cell, gc: Cell): seq<Token> {
    if Charset in gc.attr && Charset !in last.attr then [ShiftOut]
    else if Charset !in gc.attr && Charset in last.attr then [ShiftIn]
    else []
  }

  /** grid_string_cells_code: what to send to go from the look of one cell to another's. */
  function Code(last: Cell, gc: Cell): seq<Token> {
    var reset := NeedsReset(last, gc);
    AttrTokens(last, gc)
    + AddCode(reset, FgCodes(gc.fg), FgCodes(last.fg))
    + AddCode(reset, BgCodes(gc.bg), BgCodes(last.bg))
    + AddCode(reset, UsCodes(gc.us), UsCodes(last.us))
    + CharsetTokens(last, gc)
  }

  // ----- Which cells can be printed at all

  /** A colour that grid_string_cells_fg and _bg have a code for. */
  predicate HasCode(c: Colour) {
    c.Plain? ==> c.n <= 8 || 90 <= c.n <= 97
  }

  predicate OneUnderscore(attrs: set<Attr>) {
    forall a, b :: a in attrs && b in attrs && a in UNDERSCORES && b in UNDERSCORES ==> a == b
  }

  predicate Printable(c: Cell) {
    && HasCode(c.fg) && HasCode(c.bg) && (c.us.Plain? ==> c.us == DEFAULT)
    && Overline !in c.attr && OneUnderscore(c.attr)
  }

  // ----- The sequences do what they are for

  lemma ApplyAllConcat(st: Style, a: seq<Token>, b: seq<Token>)
    ensures ApplyAll(st, a + b) == ApplyAll(ApplyAll(st, a), b)
  {
    if b == [] {
      assert a + b == a;
    } else {
      ApplyAllConcat(st, a, b[..|b| - 1]);
      assert (a + b)[..|a + b| - 1] == a + b[..|b| - 1];
    }
  }

  lemma ApplySingle(st: Style, t: Token)
    ensures ApplyAll(st, [t]) == ApplyToken(st, t)
  {
    assert [t][..0] == [];
    assert ApplyAll(st, [t]) == ApplyToken(ApplyAll(st, [t][..0]), t);
  }

  lemma ApplyParamsOne(st: Style, p: Param, ps: seq<Param>)
    requires p.Num? ==> p.n !in {38, 48, 58}
    ensures ApplyParams(st, [p] + ps) == ApplyParams(ApplyOne(st, p), ps)
  {
    assert ([p] + ps)[1..] == ps;
  }

  /** The attributes in the table from entry `i` on. */
  function CodedFrom(i: nat): set<Attr>
    requires i <= CODES
    decreases CODES - i
  {
    if i == CODES then {} else {EntryAttr(i)} + CodedFrom(i + 1)
  }

  lemma EntrySets(st: Style, i: nat)
    requires i < CODES && EntryAttr(i) != Overline
    ensures EntryCode(i).Num? ==> EntryCode(i).n !in {38, 48, 58}
    ensures ApplyOne(st, EntryCode(i)) == st.(attrs := SetAttr(st.attrs, EntryAttr(i)))
  {
  }

  lemma ApplyNone(st: Style)
    ensures ApplyParams(st, []) == st
  {
  }

  /** Adding one wanted attribute, then the rest. */
  lemma AddWanted(attrs: set<Attr>, a: Attr, want: set<Attr>, others: set<Attr>)
    requires a in want && OneUnderscore(want + attrs)
    ensures SetAttr(attrs, a) == attrs + {a}
    ensures want + (attrs + {a}) == want + attrs
    ensures (attrs + {a}) + (want * others) == attrs + (want * ({a} + others))
  {
  }

  lemma SkipUnwanted(a: Attr, want: set<Attr>, others: set<Attr>)
    requires a !in want
    ensures want * others == want * ({a} + others)
  {
  }

  /** The codes of the second loop switch on exactly the wanted attributes. */
  lemma {:induction false} AttrCodesSet(st: Style, i: nat, want: set<Attr>)
    requires i <= CODES && Overline !in want && OneUnderscore(want + st.attrs)
    ensures ApplyParams(st, AttrCodes(i, want)) == st.(attrs := st.attrs + (want * CodedFrom(i)))
    decreases CODES - i
  {
    hide ApplyOne, ApplyParams, EntryAttr, EntryCode, SetAttr, OneUnderscore;
    if i == CODES {
      ApplyNone(st);
      assert st.attrs + (want * {}) == st.attrs;
      return;
    }
    var a := EntryAttr(i);
    if a in want {
      EntrySets(st, i);
      AddWanted(st.attrs, a, want, CodedFrom(i + 1));
      ApplyParamsOne(st, EntryCode(i), AttrCodes(i + 1, want));
      AttrCodesSet(st.(attrs := st.attrs + {a}), i + 1, want);
    } else {
      AttrCodesSet(st, i + 1, want);
      SkipUnwanted(a, want, CodedFrom(i + 1));
      assert [] + AttrCodes(i + 1, want) == AttrCodes(i + 1, want);
    }
  }

  lemma CodedFromStart()
    ensures CodedFrom(0) == CODED_ATTRS
  {
    assert CodedFrom(13) == {};
    assert CodedFrom(12) == {Overline} + CodedFrom(13);
    assert CodedFrom(11) == {Underscore5} + CodedFrom(12);
    assert CodedFrom(10) == {Underscore4} + CodedFrom(11);
    assert CodedFrom(9) == {Underscore3} + CodedFrom(10);
    assert CodedFrom(8) == {Underscore2} + CodedFrom(9);
    assert CodedFrom(7) == {Strikethrough} + CodedFrom(8);
    assert CodedFrom(6) == {Hidden} + CodedFrom(7);
    assert CodedFrom(5) == {Reverse} + CodedFrom(6);
    assert CodedFrom(4) == {Blink} + CodedFrom(5);
    assert CodedFrom(3) == {Underscore} + CodedFrom(4);
    assert CodedFrom(2) == {Italics} + CodedFrom(3);
    assert CodedFrom(1) == {Dim} + CodedFrom(2);
    assert CodedFrom(0) == {Bright} + CodedFrom(1);
  }

  /** The style after the attribute sequence: the wanted attributes, the colours as they
      were or, after a reset, all default. */
  lemma AttrTokensDo(last: Cell, gc: Cell)
    requires Printable(gc)
    ensures ApplyAll(StyleOf(last), AttrTokens(last, gc))
            == if NeedsReset(last, gc) then Style(gc.attr * CODED_ATTRS, Charset in last.attr, DEFAULT, DEFAULT, DEFAULT)
               else StyleOf(last).(attrs := gc.attr * CODED_ATTRS)
  {
    hide AttrCodes, ApplyParams;
    var st := StyleOf(last);
    CodedFromStart();
    ApplyNone(st);
    if NeedsReset(last, gc) {
      var s := [Num(0)] + AttrCodes(0, gc.attr);
      ApplySingle(st, Sgr(s));
      ApplyParamsOne(st, Num(0), AttrCodes(0, gc.attr));
      AttrCodesSet(ResetStyle(st), 0, gc.attr);
      assert {} + (gc.attr * CODED_ATTRS) == gc.attr * CODED_ATTRS;
    } else {
      var want := gc.attr - last.attr;
      NotRemoved(last, gc);
      AttrCodesSet(st, 0, want);
      if AttrCodes(0, want) != [] {
        ApplySingle(st, Sgr(AttrCodes(0, want)));
      }
    }
  }

  lemma NotRemoved(last: Cell, gc: Cell)
    requires !NeedsReset(last, gc) && Printable(gc)
    ensures OneUnderscore((gc.attr - last.attr) + StyleOf(last).attrs)
    ensures StyleOf(last).attrs + ((gc.attr - last.attr) * CODED_ATTRS) == gc.attr * CODED_ATTRS
  {
  }

  lemma ColourParams(st: Style, which: nat, c: Colour)
    requires which in {38, 48, 58} && !c.Plain?
    ensures var ps := match c case Indexed(i) => [Num(which), Num(5), Num(i)]
                              case Rgb(r, g, b) => [Num(which), Num(2), Num(r), Num(g), Num(b)]
                              case Plain(_) => [];
            ApplyParams(st, ps) == SetColour(st, which, c)
  {
    match c
    case Indexed(i) =>
      var ps := [Num(which), Num(5), Num(i)];
      assert ps[3..] == [];
      ApplyNone(SetColour(st, which, c));
    case Rgb(r, g, b) =>
      var ps := [Num(which), Num(2), Num(r), Num(g), Num(b)];
      assert ps[5..] == [];
      ApplyNone(SetColour(st, which, c));
    case Plain(_) =>
  }

  lemma PlainParam(st: Style, p: Param)
    requires p.Num? ==> p.n !in {38, 48, 58}
    ensures ApplyParams(st, [p]) == ApplyOne(st, p)
  {
    assert [p] == [p] + [];
    ApplyParamsOne(st, p, []);
    ApplyNone(ApplyOne(st, p));
  }

  lemma FgCodesSet(st: Style, c: Colour)
    requires HasCode(c)
    ensures FgCodes(c) != [] && ApplyParams(st, FgCodes(c)) == st.(fg := c)
  {
    if c.Plain? {
      PlainParam(st, FgCodes(c)[0]);
      assert FgCodes(c) == [FgCodes(c)[0]];
    } else {
      ColourParams(st, 38, c);
    }
  }

  lemma BgCodesSet(st: Style, c: Colour)
    requires HasCode(c)
    ensures BgCodes(c) != [] && ApplyParams(st, BgCodes(c)) == st.(bg := c)
  {
    if c.Plain? {
      PlainParam(st, BgCodes(c)[0]);
      assert BgCodes(c) == [BgCodes(c)[0]];
    } else {
      ColourParams(st, 48, c);
    }
  }

  /** Equal codes mean equal colours, so leaving them out is safe. */
  lemma CodesInjective(a: Colour, b: Colour)
    requires HasCode(a)
    ensures FgCodes(a) == FgCodes(b) ==> a == b
    ensures BgCodes(a) == BgCodes(b) ==> a == b
    ensures UsCodes(a) == UsCodes(b) && !a.Plain? ==> a == b
  {
  }

  lemma FgTokensDo(st: Style, reset: bool, c: Colour, was: Colour)
    requires HasCode(c) && st.fg == if reset then DEFAULT else was
    ensures ApplyAll(st, AddCode(reset, FgCodes(c), FgCodes(was))) == st.(fg := c)
  {
    CodesInjective(c, was);
    FgCodesSet(st, c);
    ApplySingle(st, Sgr(FgCodes(c)));
    assert ApplyAll(st, []) == st;
  }

  lemma BgTokensDo(st: Style, reset: bool, c: Colour, was: Colour)
    requires HasCode(c) && st.bg == if reset then DEFAULT else was
    ensures ApplyAll(st, AddCode(reset, BgCodes(c), BgCodes(was))) == st.(bg := c)
  {
    CodesInjective(c, was);
    BgCodesSet(st, c);
    ApplySingle(st, Sgr(BgCodes(c)));
    assert ApplyAll(st, []) == st;
  }

  lemma UsTokensDo(st: Style, reset: bool, c: Colour, was: Colour)
    requires c.Plain? ==> c == DEFAULT
    requires st.us == if reset then DEFAULT else was
    requires was != DEFAULT && c == DEFAULT ==> reset
    ensures ApplyAll(st, AddCode(reset, UsCodes(c), UsCodes(was))) == st.(us := c)
  {
    assert ApplyAll(st, []) == st;
    if !c.Plain? {
      CodesInjective(c, was);
      ColourParams(st, 58, c);
      ApplySingle(st, Sgr(UsCodes(c)));
    }
  }

  lemma CharsetTokensDo(st: Style, last: Cell, gc: Cell)
    requires st.charset == (Charset in last.attr)
    ensures ApplyAll(st, CharsetTokens(last, gc)) == st.(charset := Charset in gc.attr)
  {
    ApplySingle(st, ShiftOut);
    ApplySingle(st, ShiftIn);
    assert ApplyAll(st, []) == st;
  }

  /** From the look of any cell, the sequence leads to exactly the look of the next. */
  lemma CodeDoes(last: Cell, gc: Cell)
    requires Printable(gc)
    ensures ApplyAll(StyleOf(last), Code(last, gc)) == StyleOf(gc)
  {
    hide AttrTokens, AddCode, CharsetTokens, ApplyAll, FgCodes, BgCodes, UsCodes;
    var reset := NeedsReset(last, gc);
    var a, f := AttrTokens(last, gc), AddCode(reset, FgCodes(gc.fg), FgCodes(last.fg));
    var b, u := AddCode(reset, BgCodes(gc.bg), BgCodes(last.bg)), AddCode(reset, UsCodes(gc.us), UsCodes(last.us));
    var st := StyleOf(last);
    AttrTokensDo(last, gc);
    ApplyAllConcat(st, a, f);
    FgTokensDo(ApplyAll(st, a), reset, gc.fg, last.fg);
    ApplyAllConcat(st, a + f, b);
    BgTokensDo(ApplyAll(st, a + f), reset, gc.bg, last.bg);
    ApplyAllConcat(st, a + f + b, u);
    UsTokensDo(ApplyAll(st, a + f + b), reset, gc.us, last.us);
    ApplyAllConcat(st, a + f + b + u, CharsetTokens(last, gc));
    CharsetTokensDo(ApplyAll(st, a + f + b + u), last, gc);
  }

  // ----- And for no other cell

  /** Whatever is asked for, the attribute codes touch no colour, never overline, and
      leave one form of underscore at most. */
  lemma {:induction false} AttrCodesKeep(st: Style, i: nat, want: set<Attr>)
    requires i <= CODES && Overline !in st.attrs && OneUnderscore(st.attrs)
    ensures var r := ApplyParams(st, AttrCodes(i, want));
            r == st.(attrs := r.attrs) && Overline !in r.attrs && OneUnderscore(r.attrs)
    decreases CODES - i
  {
    if i == CODES {
      ApplyNone(st);
    } else if EntryAttr(i) in want {
      EntryKeeps(st, i);
      ApplyParamsOne(st, EntryCode(i), AttrCodes(i + 1, want));
      AttrCodesKeep(ApplyOne(st, EntryCode(i)), i + 1, want);
    } else {
      AttrCodesKeep(st, i + 1, want);
      assert [] + AttrCodes(i + 1, want) == AttrCodes(i + 1, want);
    }
  }

  lemma EntryKeeps(st: Style, i: nat)
    requires i < CODES && Overline !in st.attrs && OneUnderscore(st.attrs)
    ensures EntryCode(i).Num? ==> EntryCode(i).n !in {38, 48, 58}
    ensures var r := ApplyOne(st, EntryCode(i));
            r == st.(attrs := r.attrs) && Overline !in r.attrs && OneUnderscore(r.attrs)
  {
    if EntryAttr(i) != Overline {
      EntrySets(st, i);
    }
  }

  /** A colour with no code leaves the colour alone; the others are set. */
  lemma ColourTokensKeep(st: Style, gc: Cell)
    requires st.fg == DEFAULT && st.bg == DEFAULT && st.us == DEFAULT
    ensures ApplyAll(st, AddCode(false, FgCodes(gc.fg), FgCodes(DEFAULT)))
            == st.(fg := if HasCode(gc.fg) then gc.fg else DEFAULT)
    ensures ApplyAll(st, AddCode(false, BgCodes(gc.bg), BgCodes(DEFAULT)))
            == st.(bg := if HasCode(gc.bg) then gc.bg else DEFAULT)
    ensures ApplyAll(st, AddCode(false, UsCodes(gc.us), UsCodes(DEFAULT)))
            == st.(us := if gc.us.Plain? then DEFAULT else gc.us)
  {
    hide ApplyParams, ApplyOne;
    assert ApplyAll(st, []) == st;
    if HasCode(gc.fg) {
      FgTokensDo(st, false, gc.fg, DEFAULT);
    }
    if HasCode(gc.bg) {
      BgTokensDo(st, false, gc.bg, DEFAULT);
    }
    UsTokensDo(st, false, if gc.us.Plain? then DEFAULT else gc.us, DEFAULT);
  }

  /** What the terminal shows for any cell at all, coming from the default look. */
  lemma CodeFromDefault(gc: Cell)
    ensures var st := ApplyAll(StyleOf(DEFAULT_CELL), Code(DEFAULT_CELL, gc));
            && (st.fg == if HasCode(gc.fg) then gc.fg else DEFAULT)
            && (st.bg == if HasCode(gc.bg) then gc.bg else DEFAULT)
            && (st.us == if gc.us.Plain? then DEFAULT else gc.us)
            && Overline !in st.attrs && OneUnderscore(st.attrs)
  {
    hide AddCode, CharsetTokens, ApplyAll, FgCodes, BgCodes, UsCodes, AttrCodes, ApplyParams, HasCode;
    var last := DEFAULT_CELL;
    var a, f := AttrTokens(last, gc), AddCode(false, FgCodes(gc.fg), FgCodes(last.fg));
    var b, u := AddCode(false, BgCodes(gc.bg), BgCodes(last.bg)), AddCode(false, UsCodes(gc.us), UsCodes(last.us));
    var st := StyleOf(last);
    assert !NeedsReset(last, gc);
    AttrCodesKeep(st, 0, gc.attr - last.attr);
    ApplySingle(st, Sgr(AttrCodes(0, gc.attr - last.attr)));
    NoTokens(st);
    var s0 := ApplyAll(st, a);
    ApplyAllConcat(st, a, f);
    ColourTokensKeep(s0, gc);
    var s1 := ApplyAll(st, a + f);
    ApplyAllConcat(st, a + f, b);
    ColourTokensKeep(s1.(fg := DEFAULT), gc);
    ApplyAllConcat(st, a + f + b, u);
    BgUsAnyFg(s0, s1, gc);
    ApplyAllConcat(st, a + f + b + u, CharsetTokens(last, gc));
    CharsetTokensDo(ApplyAll(st, a + f + b + u), last, gc);
  }

  lemma NoTokens(st: Style)
    ensures ApplyAll(st, []) == st
  {
  }

  /** Setting one colour does not depend on the others. */
  lemma BgUsAnyFg(s0: Style, s1: Style, gc: Cell)
    requires s1 == s0.(fg := s1.fg) && s0.bg == DEFAULT && s0.us == DEFAULT
    ensures var b, u := AddCode(false, BgCodes(gc.bg), BgCodes(DEFAULT)), AddCode(false, UsCodes(gc.us), UsCodes(DEFAULT));
            var s2 := ApplyAll(s1, b);
            && s2 == s1.(bg := if HasCode(gc.bg) then gc.bg else DEFAULT)
            && ApplyAll(s2, u) == s2.(us := if gc.us.Plain? then DEFAULT else gc.us)
  {
    hide ApplyParams, ApplyOne;
    NoTokens(s1);
    if HasCode(gc.bg) {
      BgTokensDo(s1, false, gc.bg, DEFAULT);
    }
    var s2 := s1.(bg := if HasCode(gc.bg) then gc.bg else DEFAULT);
    UsTokensDo(s2, false, if gc.us.Plain? then DEFAULT else gc.us, DEFAULT);
  }

  /** The printable cells are exactly those that come out right after any other cell. */
  lemma PrintableExactly(gc: Cell)
    ensures Printable(gc) <==> forall last :: ApplyAll(StyleOf(last), Code(last, gc)) == StyleOf(gc)
  {
    hide ApplyAll, Code;
    if Printable(gc) {
      forall last
        ensures ApplyAll(StyleOf(last), Code(last, gc)) == StyleOf(gc)
      {
        CodeDoes(last, gc);
      }
    } else {
      CodeFromDefault(gc);
      OneUnderscoreOf(gc);
      assert ApplyAll(StyleOf(DEFAULT_CELL), Code(DEFAULT_CELL, gc)) != StyleOf(gc);
    }
  }

  lemma OneUnderscoreOf(gc: Cell)
    ensures OneUnderscore(gc.attr) <==> OneUnderscore(StyleOf(gc).attrs)
    ensures Overline in gc.attr <==> Overline in StyleOf(gc).attrs
  {
    assert UNDERSCORES <= CODED_ATTRS;
  }

  // ----- Only differences are sent

  lemma {:induction false} NoCodes(i: nat, want: set<Attr>)
    requires i <= CODES && want * CODED_ATTRS == {}
    ensures AttrCodes(i, want) == []
    decreases CODES - i
  {
    if i < CODES {
      NoCodes(i + 1, want);
      assert forall a :: a in want && a in CODED_ATTRS ==> a in want * CODED_ATTRS;
    }
  }

  /** Nothing is sent exactly when the next cell looks like the last. */
  lemma NothingSentIff(last: Cell, gc: Cell)
    requires Printable(gc)
    ensures Code(last, gc) == [] <==> StyleOf(last) == StyleOf(gc)
  {
    if StyleOf(last) == StyleOf(gc) {
      forall a | a in CODED_ATTRS && a in last.attr
        ensures a in gc.attr
      {
        assert a in StyleOf(last).attrs;
      }
      assert (gc.attr - last.attr) * CODED_ATTRS == {} by {
        assert forall a :: a in gc.attr && a in CODED_ATTRS ==> a in StyleOf(gc).attrs;
      }
      NoCodes(0, gc.attr - last.attr);
    }
    if Code(last, gc) == [] {
      CodeDoes(last, gc);
      NoTokens(StyleOf(last));
    }
  }

  /** A colour that both cells have plays no part, unless something has to be reset; what is
      reset is an attribute that goes away, or an underscore colour that goes back. */
  lemma SameColoursUnsent(last: Cell, gc: Cell, c: Colour)
    requires (last.attr - gc.attr) * CODED_ATTRS == {} && (last.us != DEFAULT ==> gc.us != DEFAULT)
    ensures last.fg == gc.fg ==> Code(last, gc) == Code(last.(fg := c), gc.(fg := c))
    ensures last.bg == gc.bg ==> Code(last, gc) == Code(last.(bg := c), gc.(bg := c))
    ensures last.us == gc.us && c != DEFAULT ==> Code(last, gc) == Code(last.(us := c), gc.(us := c))
  {
    hide AttrCodes, FgCodes, BgCodes, UsCodes;
    forall a | a in CODED_ATTRS && a in last.attr
      ensures a in gc.attr
    {
      assert a !in gc.attr ==> a in (last.attr - gc.attr) * CODED_ATTRS;
    }
    assert !NeedsReset(last, gc);
  }

  /** Of the attributes only those that are new are sent: no others make a difference. */
  lemma OldAttributesUnsent(last: Cell, gc: Cell)
    requires (last.attr - gc.attr) * CODED_ATTRS == {} && (last.us != DEFAULT ==> gc.us != DEFAULT)
    ensures AttrTokens(last, gc) == AttrTokens(last.(attr := {}), gc.(attr := gc.attr - last.attr))
  {
    hide AttrCodes;
    assert forall a :: a in CODED_ATTRS && a in last.attr ==> a in (last.attr - gc.attr) * CODED_ATTRS || a in gc.attr;
    assert (gc.attr - last.attr) - {} == gc.attr - last.attr;
  }
}

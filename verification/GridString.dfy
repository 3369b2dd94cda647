/** grid_string_cells: the bytes of a printed row, and the terminal reading them back
    (grid.c). */
module GridString {
  import opened GridCells
  import opened GridLines
  import opened Grids
  import opened GridSgr

  const ESC: byte := 0x1b
  const SO: byte := 0x0e
  const SI: byte := 0x0f
  const TAB: byte := 0x09
  const BRACKET: byte := 0x5b
  const SEMICOLON: byte := 0x3b
  const COLON: byte := 0x3a
  const FINAL: byte := 0x6d

  // ----- Writing

  /** %d */
  function Digits(n: nat): seq<byte> {
    if n < 10 then [0x30 + n] else Digits(n / 10) + [0x30 + n % 10]
  }

  function EncodeParam(p: Param): seq<byte> {
    match p case Num(n) => Digits(n) case Sub(n, m) => Digits(n) + [COLON] + Digits(m)
  }

  function EncodeParams(ps: seq<Param>): seq<byte> {
    if ps == [] then []
    else if |ps| == 1 then EncodeParam(ps[0])
    else EncodeParam(ps[0]) + [SEMICOLON] + EncodeParams(ps[1..])
  }

  function EncodeToken(t: Token): seq<byte> {
    match t
    case Sgr(ps) => [ESC, BRACKET] + EncodeParams(ps) + [FINAL]
    case ShiftOut => [SO]
    case ShiftIn => [SI]
    case Text(ch) => [ch]
  }

  function Encode(ts: seq<Token>): seq<byte> {
    if ts == [] then [] else EncodeToken(ts[0]) + Encode(ts[1..])
  }

  // ----- Reading

  datatype Scan = Scan(params: seq<Param>, rest: seq<byte>) | Bad

  function AddDigit(p: Param, d: nat): Param {
    match p case Num(n) => Num(10 * n + d) case Sub(n, m) => Sub(n, 10 * m + d)
  }

  /** The parameters of a control sequence, `cur` being read. */
  function ReadParams(bs: seq<byte>, done: seq<Param>, cur: Param): (r: Scan)
    ensures r.Scan? ==> |r.rest| < |bs|
  {
    if bs == [] then Bad
    else if 0x30 <= bs[0] <= 0x39 then ReadParams(bs[1..], done, AddDigit(cur, bs[0] - 0x30))
    else if bs[0] == SEMICOLON then ReadParams(bs[1..], done + [cur], Num(0))
    else if bs[0] == COLON && cur.Num? then ReadParams(bs[1..], done, Sub(cur.n, 0))
    else if bs[0] == FINAL then Scan(done + [cur], bs[1..])
    else Bad
  }

  /** What a terminal makes of a byte string. */
  function Parse(bs: seq<byte>): seq<Token>
    decreases |bs|
  {
    if bs == [] then []
    else if bs[0] == ESC && |bs| >= 2 && bs[1] == BRACKET then
      match ReadParams(bs[2..], [], Num(0))
      case Scan(ps, rest) => [Sgr(ps)] + Parse(rest)
      case Bad => Parse(bs[2..])
    else [if bs[0] == SO then ShiftOut else if bs[0] == SI then ShiftIn else Text(bs[0])] + Parse(bs[1..])
  }

  // ----- Reading back what was written

  predicate Safe(t: Token) {
    match t
    case Sgr(ps) => ps != []
    case Text(ch) => ch != ESC && ch != SO && ch != SI
    case _ => true
  }

  lemma {:induction false} ReadDigits(n: nat, rest: seq<byte>, done: seq<Param>, cur: Param)
    requires cur == Num(0) || (cur.Sub? && cur.m == 0)
    ensures ReadParams(Digits(n) + rest, done, cur)
            == ReadParams(rest, done, if cur.Num? then Num(n) else Sub(cur.n, n))
    decreases n
  {
    if n < 10 {
      assert (Digits(n) + rest)[1..] == rest;
    } else {
      var d := [0x30 + n % 10];
      assert Digits(n) + rest == Digits(n / 10) + (d + rest);
      ReadDigits(n / 10, d + rest, done, cur);
      assert (d + rest)[1..] == rest;
    }
  }

  lemma ReadParam(p: Param, rest: seq<byte>, done: seq<Param>)
    ensures ReadParams(EncodeParam(p) + rest, done, Num(0)) == ReadParams(rest, done, p)
  {
    match p
    case Num(n) => ReadDigits(n, rest, done, Num(0));
    case Sub(n, m) =>
      var tail := [COLON] + (Digits(m) + rest);
      assert EncodeParam(p) + rest == Digits(n) + tail;
      ReadDigits(n, tail, done, Num(0));
      assert tail[1..] == Digits(m) + rest;
      ReadDigits(m, rest, done, Sub(n, 0));
  }

  lemma {:induction false} ReadEncoded(ps: seq<Param>, rest: seq<byte>, done: seq<Param>)
    requires ps != []
    ensures ReadParams(EncodeParams(ps) + [FINAL] + rest, done, Num(0)) == Scan(done + ps, rest)
    decreases |ps|
  {
    if |ps| == 1 {
      var tail := [FINAL] + rest;
      assert EncodeParams(ps) + [FINAL] + rest == EncodeParam(ps[0]) + tail;
      ReadParam(ps[0], tail, done);
      assert tail[1..] == rest && done + [ps[0]] == done + ps;
    } else {
      var tail := EncodeParams(ps[1..]) + [FINAL] + rest;
      assert EncodeParams(ps) + [FINAL] + rest == EncodeParam(ps[0]) + ([SEMICOLON] + tail);
      ReadParam(ps[0], [SEMICOLON] + tail, done);
      assert ([SEMICOLON] + tail)[1..] == tail;
      ReadEncoded(ps[1..], rest, done + [ps[0]]);
      assert done + [ps[0]] + ps[1..] == done + ps;
    }
  }

  lemma ParseSgr(ps: seq<Param>, rest: seq<byte>)
    requires ps != []
    ensures Parse(EncodeToken(Sgr(ps)) + rest) == [Sgr(ps)] + Parse(rest)
  {
    hide EncodeParams, ReadParams;
    var tail := EncodeParams(ps) + [FINAL] + rest;
    var bs := [ESC, BRACKET] + tail;
    assert EncodeToken(Sgr(ps)) + rest == bs;
    assert bs[2..] == tail;
    ReadEncoded(ps, rest, []);
    assert [] + ps == ps;
    assert bs[0] == ESC && bs[1] == BRACKET && |bs| >= 2;
  }

  lemma ParseToken(t: Token, rest: seq<byte>)
    requires Safe(t)
    ensures Parse(EncodeToken(t) + rest) == [t] + Parse(rest)
  {
    hide EncodeParams, ReadParams;
    if t.Sgr? {
      ParseSgr(t.params, rest);
    } else {
      var bs := EncodeToken(t) + rest;
      assert bs[1..] == rest;
      assert bs[0] != ESC;
    }
  }

  /** A terminal reads back the tokens that were written. */
  lemma {:induction false} ParseEncode(ts: seq<Token>)
    requires forall t :: t in ts ==> Safe(t)
    ensures Parse(Encode(ts)) == ts
  {
    if ts != [] {
      ParseEncode(ts[1..]);
      ParseToken(ts[0], Encode(ts[1..]));
      assert [ts[0]] + ts[1..] == ts;
    }
  }

  lemma {:induction false} EncodeConcat(a: seq<Token>, b: seq<Token>)
    ensures Encode(a + b) == Encode(a) + Encode(b)
  {
    hide EncodeToken;
    if a == [] {
      assert a + b == b;
    } else {
      var t := a[1..];
      EncodeConcat(t, b);
      assert (a + b)[0] == a[0] && (a + b)[1..] == t + b;
      assert Encode(a + b) == EncodeToken(a[0]) + Encode(t + b);
      Joined(EncodeToken(a[0]), Encode(t), Encode(b));
    }
  }

  lemma Joined(a: seq<byte>, b: seq<byte>, c: seq<byte>)
    ensures a + (b + c) == a + b + c
  {
  }

  // ----- A row of cells

  /** The bytes a cell puts on the screen: a tab prints as one. */
  function CellBytes(c: Cell): seq<byte> {
    if c.flags.tab then [TAB] else if c.data.size <= |c.data.data| then c.data.data[..c.data.size] else c.data.data
  }

  function Texts(bs: seq<byte>): (ts: seq<Token>)
    ensures |ts| == |bs| && forall i :: 0 <= i < |bs| ==> ts[i] == Text(bs[i])
  {
    seq(|bs|, i requires 0 <= i < |bs| => Text(bs[i]))
  }

  /** The cell whose look is in force after some cells: the last that was not padding. */
  function LastOf(last: Cell, cells: seq<Cell>): Cell {
    if cells == [] then last
    else if cells[|cells| - 1].flags.padding then LastOf(last, cells[..|cells| - 1])
    else cells[|cells| - 1]
  }

  /** Everything sent for a row: before each cell, what its look changes. */
  function RowTokens(last: Cell, cells: seq<Cell>): seq<Token> {
    if cells == [] then []
    else
      var before, c := cells[..|cells| - 1], cells[|cells| - 1];
      if c.flags.padding then RowTokens(last, before)
      else RowTokens(last, before) + Code(LastOf(last, before), c) + Texts(CellBytes(c))
  }

  /** A byte on the screen and how it looks. */
  datatype Glyph = Glyph(ch: byte, style: Style)

  function Shown(st: Style, ts: seq<Token>): seq<Glyph> {
    if ts == [] then []
    else
      var before, t := ts[..|ts| - 1], ts[|ts| - 1];
      Shown(st, before) + if t.Text? then [Glyph(t.ch, ApplyAll(st, before))] else []
  }

  function Styled(bs: seq<byte>, st: Style): seq<Glyph> {
    seq(|bs|, i requires 0 <= i < |bs| => Glyph(bs[i], st))
  }

  /** What the row means: the bytes of each cell that is not padding, in its own look. */
  function Meaning(cells: seq<Cell>): seq<Glyph> {
    if cells == [] then []
    else
      var before, c := cells[..|cells| - 1], cells[|cells| - 1];
      if c.flags.padding then Meaning(before) else Meaning(before) + Styled(CellBytes(c), StyleOf(c))
  }

  /** No byte of the cell is read as a control byte. */
  predicate SafeBytes(c: Cell) {
    c.flags.padding || forall b :: b in CellBytes(c) ==> Safe(Text(b))
  }

  predicate Faithful(c: Cell) {
    c.flags.padding || (Printable(c) && SafeBytes(c))
  }

  lemma {:induction false} ShownConcat(st: Style, a: seq<Token>, b: seq<Token>)
    ensures Shown(st, a + b) == Shown(st, a) + Shown(ApplyAll(st, a), b)
  {
    if b == [] {
      assert a + b == a;
    } else {
      var before := b[..|b| - 1];
      ShownConcat(st, a, before);
      ApplyAllConcat(st, a, before);
      assert (a + b)[..|a + b| - 1] == a + before;
    }
  }

  /** Control tokens show nothing. */
  lemma {:induction false} ControlShowsNothing(st: Style, ts: seq<Token>)
    requires forall t :: t in ts ==> !t.Text?
    ensures Shown(st, ts) == []
  {
    if ts != [] {
      ControlShowsNothing(st, ts[..|ts| - 1]);
    }
  }

  lemma {:induction false} TextsShow(st: Style, bs: seq<byte>)
    ensures Shown(st, Texts(bs)) == Styled(bs, st) && ApplyAll(st, Texts(bs)) == st
  {
    if bs != [] {
      TextsShow(st, bs[..|bs| - 1]);
      assert Texts(bs)[..|bs| - 1] == Texts(bs[..|bs| - 1]);
    }
  }

  predicate Control(ts: seq<Token>) {
    forall t :: t in ts ==> !t.Text? && Safe(t)
  }

  lemma ControlConcat(a: seq<Token>, b: seq<Token>)
    requires Control(a) && Control(b)
    ensures Control(a + b)
  {
  }

  lemma CodeIsControl(last: Cell, gc: Cell)
    ensures forall t :: t in Code(last, gc) ==> !t.Text? && Safe(t)
  {
    hide NeedsReset, FgCodes, BgCodes, UsCodes, AttrCodes;
    var reset := NeedsReset(last, gc);
    var a, f := AttrTokens(last, gc), AddCode(reset, FgCodes(gc.fg), FgCodes(last.fg));
    var b, u := AddCode(reset, BgCodes(gc.bg), BgCodes(last.bg)), AddCode(reset, UsCodes(gc.us), UsCodes(last.us));
    assert Control(a) && Control(f) && Control(b) && Control(u) && Control(CharsetTokens(last, gc));
    hide AttrTokens, AddCode, CharsetTokens, Control;
    ControlConcat(a, f);
    ControlConcat(a + f, b);
    ControlConcat(a + f + b, u);
    ControlConcat(a + f + b + u, CharsetTokens(last, gc));
    assert Control(Code(last, gc));
    ControlTokens(Code(last, gc));
  }

  lemma ControlTokens(ts: seq<Token>)
    requires Control(ts)
    ensures forall t :: t in ts ==> !t.Text? && Safe(t)
  {
  }

  lemma CellShows(last: Cell, c: Cell)
    requires Printable(c)
    ensures var ts := Code(last, c) + Texts(CellBytes(c));
            && Shown(StyleOf(last), ts) == Styled(CellBytes(c), StyleOf(c))
            && ApplyAll(StyleOf(last), ts) == StyleOf(c)
  {
    var st := StyleOf(last);
    CodeDoes(last, c);
    CodeIsControl(last, c);
    ControlShowsNothing(st, Code(last, c));
    ShownConcat(st, Code(last, c), Texts(CellBytes(c)));
    ApplyAllConcat(st, Code(last, c), Texts(CellBytes(c)));
    TextsShow(StyleOf(c), CellBytes(c));
  }

  lemma {:induction false} RowSafe(last: Cell, cells: seq<Cell>)
    requires forall c :: c in cells ==> SafeBytes(c)
    ensures forall t :: t in RowTokens(last, cells) ==> Safe(t)
  {
    hide Code;
    if cells != [] {
      var before, c := cells[..|cells| - 1], cells[|cells| - 1];
      RowSafe(last, before);
      assert c in cells;
      CodeIsControl(LastOf(last, before), c);
    }
  }

  /** A terminal shows exactly the cells of the row, each in its own look, though only
      the differences between neighbours were sent. */
  lemma {:induction false} RowShows(last: Cell, cells: seq<Cell>)
    requires forall c :: c in cells ==> Faithful(c)
    ensures Shown(StyleOf(last), RowTokens(last, cells)) == Meaning(cells)
    ensures ApplyAll(StyleOf(last), RowTokens(last, cells)) == StyleOf(LastOf(last, cells))
  {
    hide Code, StyleOf, Printable;
    if cells != [] {
      var before, c := cells[..|cells| - 1], cells[|cells| - 1];
      RowShows(last, before);
      assert c in cells;
      if !c.flags.padding {
        var ts := Code(LastOf(last, before), c) + Texts(CellBytes(c));
        CellShows(LastOf(last, before), c);
        CodeIsControl(LastOf(last, before), c);
        assert RowTokens(last, cells) == RowTokens(last, before) + ts;
        ShownConcat(StyleOf(last), RowTokens(last, before), ts);
        ApplyAllConcat(StyleOf(last), RowTokens(last, before), ts);
      }
    }
  }

  /** The same from the bytes: printing a row and reading it on a terminal that starts in
      the look of `last` shows the row, and leaves the look of its last cell in force. */
  lemma PrintedRowShows(last: Cell, cells: seq<Cell>)
    requires forall c :: c in cells ==> Faithful(c)
    ensures Shown(StyleOf(last), Parse(Encode(RowTokens(last, cells)))) == Meaning(cells)
    ensures ApplyAll(StyleOf(last), Parse(Encode(RowTokens(last, cells)))) == StyleOf(LastOf(last, cells))
  {
    RowShows(last, cells);
    RowSafe(last, cells);
    ParseEncode(RowTokens(last, cells));
  }

  // ----- Writing it: grid_string_cells_code and grid_string_cells

  /** grid_string_cells_add_code and the attribute loop: one sequence, its parameters
      separated by semicolons. */
  method WriteSgr(buf: seq<byte>, ps: seq<Param>) returns (out: seq<byte>)
    requires ps != []
    ensures out == buf + EncodeToken(Sgr(ps))
  {
    hide EncodeParams;
    out := buf + [ESC, BRACKET];
    EncodeNoParams();
    ghost var goal := out + EncodeParams(ps);
    assert ps[0..] == ps;
    for i := 0 to |ps|
      invariant out + EncodeParams(ps[i..]) == goal
    {
      ghost var left := ps[i..];
      assert left[0] == ps[i] && left[1..] == ps[i + 1..];
      EncodeStep(left);
      ghost var was := out;
      out := out + EncodeParam(ps[i]);
      if i + 1 < |ps| {
        out := out + [SEMICOLON];
        Assoc(was, EncodeParam(ps[i]), [SEMICOLON], EncodeParams(ps[i + 1..]));
      } else {
        Assoc(was, EncodeParam(ps[i]), [], EncodeParams(ps[i + 1..]));
      }
    }
    assert out == goal;
    out := out + [FINAL];
    assert out == buf + ([ESC, BRACKET] + EncodeParams(ps) + [FINAL]);
  }

  lemma EncodeNoParams()
    ensures EncodeParams([]) == []
  {
  }

  lemma EncodeStep(ps: seq<Param>)
    requires ps != []
    ensures EncodeParams(ps)
            == EncodeParam(ps[0]) + (if |ps| > 1 then [SEMICOLON] else []) + EncodeParams(ps[1..])
  {
  }

  lemma Assoc(a: seq<byte>, b: seq<byte>, c: seq<byte>, d: seq<byte>)
    ensures a + (b + c + d) == (a + b + c) + d
  {
  }

  method WriteColour(buf: seq<byte>, reset: bool, newc: seq<Param>, oldc: seq<Param>) returns (out: seq<byte>)
    ensures out == buf + Encode(AddCode(reset, newc, oldc))
  {
    out := buf;
    if newc == [] {
      return;
    }
    if !reset && newc == oldc {
      return;
    }
    if reset && (newc[0] == Num(49) || newc[0] == Num(39)) {
      return;
    }
    out := WriteSgr(buf, newc);
    EncodeOne(Sgr(newc));
  }

  lemma EncodeOne(t: Token)
    ensures Encode([t]) == EncodeToken(t)
  {
    assert [t][1..] == [];
  }

  /** Character sets are not in the table, so what is known of them does not matter. */
  lemma {:induction false} AttrCodesCoded(i: nat, a: set<Attr>, b: set<Attr>)
    requires i <= CODES && forall x :: x != Charset ==> (x in a <==> x in b)
    ensures AttrCodes(i, a) == AttrCodes(i, b)
    decreases CODES - i
  {
    AttrCodesStep(i, a);
    AttrCodesStep(i, b);
    hide AttrCodes, EntryAttr, EntryCode;
    if i < CODES {
      EntryCoded(i);
      AttrCodesCoded(i + 1, a, b);
    }
  }

  lemma AttrCodesStep(i: nat, want: set<Attr>)
    requires i <= CODES
    ensures AttrCodes(i, want) == if i == CODES then []
                                  else (if EntryAttr(i) in want then [EntryCode(i)] else []) + AttrCodes(i + 1, want)
  {
    hide EntryAttr, EntryCode;
  }

  lemma EntryCoded(i: nat)
    requires i < CODES
    ensures EntryAttr(i) in CODED_ATTRS && EntryAttr(i) != Charset
  {
  }

  lemma CodedEntry(a: Attr) returns (i: nat)
    requires a in CODED_ATTRS
    ensures i < CODES && EntryAttr(i) == a
  {
    match a
    case Bright => i := 0;
    case Dim => i := 1;
    case Italics => i := 2;
    case Underscore => i := 3;
    case Blink => i := 4;
    case Reverse => i := 5;
    case Hidden => i := 6;
    case Strikethrough => i := 7;
    case Underscore2 => i := 8;
    case Underscore3 => i := 9;
    case Underscore4 => i := 10;
    case Underscore5 => i := 11;
    case Overline => i := 12;
  }

  /** The first loop of grid_string_cells_code. */
  method MustReset(last: Cell, gc: Cell) returns (reset: bool)
    ensures reset == NeedsReset(last, gc)
  {
    hide EntryAttr;
    for i := 0 to CODES
      invariant i > 0 ==> last.us == DEFAULT || gc.us != DEFAULT
      invariant forall k: nat :: k < i ==> !(EntryAttr(k) in last.attr && EntryAttr(k) !in gc.attr)
    {
      EntryCoded(i);
      if (EntryAttr(i) !in gc.attr && EntryAttr(i) in last.attr) || (last.us != DEFAULT && gc.us == DEFAULT) {
        return true;
      }
    }
    forall a | a in CODED_ATTRS && a in last.attr
      ensures a in gc.attr
    {
      var i := CodedEntry(a);
    }
    return false;
  }

  /** The first two loops of grid_string_cells_code: the parameters for the attributes. */
  method AttrParams(last: Cell, gc: Cell) returns (s: seq<Param>, reset: bool)
    ensures reset == NeedsReset(last, gc)
    ensures s == if reset then [Num(0)] + AttrCodes(0, gc.attr) else AttrCodes(0, gc.attr - last.attr)
  {
    hide EntryAttr, EntryCode, NeedsReset;
    reset := MustReset(last, gc);
    s := if reset then [Num(0)] else [];
    var lastattr := if reset then last.attr * {Charset} else last.attr;
    s := AddAttrs(s, gc.attr, lastattr);
    if reset {
      WithoutCharset(gc.attr, last.attr);
    }
  }

  lemma WithoutCharset(attr: set<Attr>, last: set<Attr>)
    ensures AttrCodes(0, attr - last * {Charset}) == AttrCodes(0, attr)
  {
    AttrCodesCoded(0, attr - last * {Charset}, attr);
  }

  method AddAttrs(s: seq<Param>, attr: set<Attr>, lastattr: set<Attr>) returns (out: seq<Param>)
    ensures out == s + AttrCodes(0, attr - lastattr)
  {
    hide EntryAttr, EntryCode;
    out := s;
    ghost var want := attr - lastattr;
    for i := 0 to CODES
      invariant out + AttrCodes(i, want) == s + AttrCodes(0, want)
    {
      AttrStep(out, i, want);
      if EntryAttr(i) in attr && EntryAttr(i) !in lastattr {
        out := out + [EntryCode(i)];
      }
    }
  }

  lemma AttrStep(s: seq<Param>, i: nat, want: set<Attr>)
    requires i < CODES
    ensures s + AttrCodes(i, want)
            == (if EntryAttr(i) in want then s + [EntryCode(i)] else s) + AttrCodes(i + 1, want)
  {
    hide EntryAttr, EntryCode;
  }

  /** grid_string_cells_code */
  method CodeString(last: Cell, gc: Cell) returns (code: seq<byte>)
    ensures code == Encode(Code(last, gc))
  {
    hide NeedsReset, AttrCodes, FgCodes, BgCodes, UsCodes, AddCode, EncodeToken;
    var s, reset := AttrParams(last, gc);
    code := [];
    if s != [] {
      code := WriteSgr(code, s);
      EncodeOne(Sgr(s));
    }
    ghost var a, f := AttrTokens(last, gc), AddCode(reset, FgCodes(gc.fg), FgCodes(last.fg));
    ghost var b, u := AddCode(reset, BgCodes(gc.bg), BgCodes(last.bg)), AddCode(reset, UsCodes(gc.us), UsCodes(last.us));
    assert code == Encode(a);
    code := WriteColour(code, reset, FgCodes(gc.fg), FgCodes(last.fg));
    EncodeConcat(a, f);
    code := WriteColour(code, reset, BgCodes(gc.bg), BgCodes(last.bg));
    EncodeConcat(a + f, b);
    code := WriteColour(code, reset, UsCodes(gc.us), UsCodes(last.us));
    EncodeConcat(a + f + b, u);
    EncodeConcat(a + f + b + u, CharsetTokens(last, gc));
    if Charset in gc.attr && Charset !in last.attr {
      code := code + [SO];
      EncodeOne(ShiftOut);
      ControlBytes();
    }
    if Charset !in gc.attr && Charset in last.attr {
      code := code + [SI];
      EncodeOne(ShiftIn);
      ControlBytes();
    }
  }

  lemma ControlBytes()
    ensures EncodeToken(ShiftOut) == [SO] && EncodeToken(ShiftIn) == [SI]
  {
  }

  lemma {:induction false} EncodeTexts(bs: seq<byte>)
    ensures Encode(Texts(bs)) == bs
  {
    if bs != [] {
      EncodeTexts(bs[1..]);
      assert Texts(bs)[1..] == Texts(bs[1..]);
      assert [bs[0]] + bs[1..] == bs;
    }
  }

  /** The bytes of the cells, as printed without sequences. */
  function PlainBytes(cells: seq<Cell>): seq<byte> {
    if cells == [] then []
    else
      var before, c := cells[..|cells| - 1], cells[|cells| - 1];
      if c.flags.padding then PlainBytes(before) else PlainBytes(before) + CellBytes(c)
  }

  function Bytes(gs: seq<Glyph>): (r: seq<byte>)
    ensures |r| == |gs| && forall i :: 0 <= i < |gs| ==> r[i] == gs[i].ch
  {
    seq(|gs|, i requires 0 <= i < |gs| => gs[i].ch)
  }

  lemma BytesConcat(st: Style, a: seq<Token>, b: seq<Token>)
    ensures Bytes(Shown(st, a + b)) == Bytes(Shown(st, a)) + Bytes(Shown(ApplyAll(st, a), b))
  {
    ShownConcat(st, a, b);
  }

  lemma {:induction false} RowBytes(st: Style, last: Cell, cells: seq<Cell>)
    ensures Bytes(Shown(st, RowTokens(last, cells))) == PlainBytes(cells)
  {
    hide Code, Bytes, CellBytes;
    if cells == [] {
      assert Shown(st, []) == [];
      NoBytes();
    } else {
      var before, c := cells[..|cells| - 1], cells[|cells| - 1];
      RowBytes(st, last, before);
      if !c.flags.padding {
        var row, code := RowTokens(last, before), Code(LastOf(last, before), c);
        CodeIsControl(LastOf(last, before), c);
        ControlShowsNothing(ApplyAll(st, row), code);
        BytesConcat(st, row, code);
        BytesConcat(st, row + code, Texts(CellBytes(c)));
        TextsShow(ApplyAll(st, row + code), CellBytes(c));
        StyledBytes(CellBytes(c), ApplyAll(st, row + code));
        NoBytes();
        assert PlainBytes(before) + [] == PlainBytes(before);
      }
    }
  }

  lemma NoBytes()
    ensures Bytes([]) == []
  {
  }

  lemma StyledBytes(bs: seq<byte>, st: Style)
    ensures Bytes(Styled(bs, st)) == bs
  {
  }

  /** Printing with sequences shows the same text as printing without, whatever the cells look
      like, as long as none of their bytes is a control byte. */
  lemma SequencesShowText(st: Style, last: Cell, cells: seq<Cell>)
    requires forall c :: c in cells ==> SafeBytes(c)
    ensures Bytes(Shown(st, Parse(Encode(RowTokens(last, cells))))) == PlainBytes(cells)
  {
    RowSafe(last, cells);
    ParseEncode(RowTokens(last, cells));
    RowBytes(st, last, cells);
  }

  /** What one more cell adds to a printed row, in its own look: nothing if it is padding, one
      tab if it is a tab, else the bytes of its buffer that are in use. */
  lemma OneMorePrinted(before: seq<Cell>, c: Cell)
    ensures var bytes := if c.flags.padding then [] else if c.flags.tab then [0x09]
                         else if c.data.size < |c.data.data| then c.data.data[..c.data.size] else c.data.data;
            && PlainBytes(before + [c]) == PlainBytes(before) + bytes
            && |Meaning(before + [c])| == |Meaning(before)| + |bytes| && Meaning(before + [c])[..|Meaning(before)|] == Meaning(before)
            && forall i :: 0 <= i < |bytes| ==>
                 var g := Meaning(before + [c])[|Meaning(before)| + i];
                 g.ch == bytes[i] && g.style.fg == c.fg && g.style.bg == c.bg && g.style.us == c.us
                 && g.style.attrs == c.attr - {Charset, NoAttr} && g.style.charset == (Charset in c.attr)
  {
    assert (before + [c])[..|before|] == before;
    forall a | a in c.attr
      ensures a in CODED_ATTRS <==> a != Charset && a != NoAttr
    {
      match a
      case NoAttr =>
      case _ =>
    }
    assert c.attr * CODED_ATTRS == c.attr - {Charset, NoAttr};
  }

  /** An ordinary cell: a character, and exactly its bytes. */
  predicate Letter(c: Cell) {
    !c.flags.padding && !c.flags.tab && c.data.size == |c.data.data|
  }

  /** The bytes of the characters, one after the other. */
  function Letters(cells: seq<Cell>): seq<byte> {
    if cells == [] then [] else cells[0].data.data + Letters(cells[1..])
  }

  lemma {:induction false} LettersSnoc(cells: seq<Cell>, c: Cell)
    ensures Letters(cells + [c]) == Letters(cells) + c.data.data
  {
    if cells == [] {
      assert [c][1..] == [];
    } else {
      LettersSnoc(cells[1..], c);
      assert (cells + [c])[1..] == cells[1..] + [c];
      Joined(cells[0].data.data, Letters(cells[1..]), c.data.data);
    }
  }

  /** A row of ordinary cells prints as its characters, with sequences and without. */
  lemma {:induction false} LettersPrint(cells: seq<Cell>)
    requires forall c :: c in cells ==> Letter(c)
    ensures PlainBytes(cells) == Letters(cells) && Bytes(Meaning(cells)) == Letters(cells)
  {
    if cells != [] {
      var before, c := cells[..|cells| - 1], cells[|cells| - 1];
      assert c in cells;
      LettersPrint(before);
      LettersSnoc(before, c);
      assert before + [c] == cells;
      OneMorePrinted(before, c);
      MeaningBytes(cells);
    }
  }

  lemma {:induction false} MeaningBytes(cells: seq<Cell>)
    ensures Bytes(Meaning(cells)) == PlainBytes(cells)
  {
    if cells != [] {
      MeaningBytes(cells[..|cells| - 1]);
    }
  }

  /** The cells of a row that are printed: from `px`, up to the used or, with empty cells
      wanted, up to the allocated ones. */
  ghost function CellsShown(l: Line, px: nat, nx: nat, empty: bool): seq<Cell>
    requires l.Valid()
    reads l
  {
    var end := if empty then |l.celldata| else l.cellused;
    var stop := if px + nx < end then px + nx else end;
    if px < stop then l.Cells()[px..stop] else []
  }

  ghost predicate AllLetters(cells: seq<Cell>) {
    forall c :: c in cells ==> Letter(c)
  }

  /** None of the characters has a control byte. */
  ghost predicate AllSafe(cells: seq<Cell>) {
    forall c :: c in cells ==> forall b :: b in c.data.data ==> Safe(Text(b))
  }

  /** The characters are what a terminal shows of these bytes, in whatever look it has. */
  ghost predicate Showing(bs: seq<byte>, text: seq<byte>) {
    forall st :: Bytes(Shown(st, Parse(bs))) == text
  }

  lemma ShownLetters(l: Line, px: nat, nx: nat, to: nat, empty: bool, last: Cell)
    requires l.Valid() && px <= to <= |l.Cells()| && AllLetters(l.Cells()[px..to])
    requires var end := if empty then |l.celldata| else l.cellused; to == if px + nx <= end then px + nx else end
    ensures var text, shown := Letters(l.Cells()[px..to]), CellsShown(l, px, nx, empty);
            shown == l.Cells()[px..to] && PlainBytes(shown) == text && (AllSafe(shown) ==> Showing(Encode(RowTokens(last, shown)), text))
  {
    hide SlotsOk, ReadAll, Line.Valid, Shown, Parse, Encode, RowTokens, PlainBytes;
    var cells := l.Cells()[px..to];
    assert CellsShown(l, px, nx, empty) == cells;
    LettersPrint(cells);
    if AllSafe(cells) {
      forall st
        ensures Bytes(Shown(st, Parse(Encode(RowTokens(last, cells))))) == Letters(cells)
      {
        SequencesShowText(st, last, cells);
      }
    }
  }

  /** grid_string_cells, without links, trimming or escaping: `last` is the cell whose look
      is in force before and after. */
  method StringCells(gd: Grid, px: nat, py: nat, nx: nat, last: Cell, sequences: bool, empty: bool)
    returns (buf: seq<byte>, now: Cell)
    requires gd.Valid()
    ensures py >= gd.hsize + gd.sy ==> buf == [] && now == last
    ensures py < gd.hsize + gd.sy ==>
              gd.linedata[py].Valid() &&
              var shown := CellsShown(gd.linedata[py], px, nx, empty);
              if sequences then buf == Encode(RowTokens(last, shown)) && now == LastOf(last, shown)
              else buf == PlainBytes(shown) && now == last
    ensures py < gd.hsize + gd.sy ==>
              var l := gd.linedata[py];
              var end := if empty then |l.celldata| else l.cellused;
              var to := if px + nx <= end then px + nx else end;
              px <= to && AllLetters(l.Cells()[px..to]) ==>
                var text := Letters(l.Cells()[px..to]);
                if sequences then AllSafe(l.Cells()[px..to]) ==> Showing(buf, text) else buf == text
  {
    hide SlotsOk, ReadAll, Line.Valid, Code, Encode, Read, CellBytes, PlainBytes, RowTokens, Letters, AllLetters, AllSafe, CellsShown, Showing;
    buf, now := CollectCells(gd, px, py, nx, last, sequences, empty);
    if py < gd.hsize + gd.sy {
      ghost var l := gd.linedata[py];
      UsedCells(l);
      ghost var end := if empty then |l.celldata| else l.cellused;
      ghost var to := if px + nx <= end then px + nx else end;
      if px <= to && AllLetters(l.Cells()[px..to]) {
        ShownLetters(l, px, nx, to, empty, last);
      }
    }
  }

  lemma UsedCells(l: Line)
    requires l.Valid()
    ensures l.cellused <= |l.celldata| == |l.Cells()|
  {
    hide SlotsOk, ReadAll;
  }

  /** The loop of grid_string_cells. */
  method CollectCells(gd: Grid, px: nat, py: nat, nx: nat, last: Cell, sequences: bool, empty: bool)
    returns (buf: seq<byte>, now: Cell)
    requires gd.Valid()
    ensures py >= gd.hsize + gd.sy ==> buf == [] && now == last
    ensures py < gd.hsize + gd.sy ==>
              gd.linedata[py].Valid() &&
              var shown := CellsShown(gd.linedata[py], px, nx, empty);
              if sequences then buf == Encode(RowTokens(last, shown)) && now == LastOf(last, shown)
              else buf == PlainBytes(shown) && now == last
  {
    hide SlotsOk, Code, Encode, Read, CellBytes;
    buf, now := [], last;
    if py >= gd.hsize + gd.sy {
      return;
    }
    var gl := gd.linedata[py];
    assert gl.Valid();
    var end := if empty then |gl.celldata| else gl.cellused;
    ghost var cs := gl.Cells();
    var xx := px;
    EncodeNothing();
    while xx < px + nx && xx < end
      invariant px <= xx && (xx <= end || xx == px) && (xx <= px + nx)
      invariant var shown := if px < xx then cs[px..xx] else [];
                if sequences then buf == Encode(RowTokens(last, shown)) && now == LastOf(last, shown)
                else buf == PlainBytes(shown) && now == last
      decreases end - xx
    {
      var gc := Read(gl.celldata[xx], gl.extddata);
      assert gc == cs[xx];
      ghost var before := if px < xx then cs[px..xx] else [];
      ghost var shown := cs[px..xx + 1];
      assert shown[..|shown| - 1] == before && shown[|shown| - 1] == gc;
      xx := xx + 1;
      if gc.flags.padding {
        continue;
      }
      if sequences {
        var code := CodeString(now, gc);
        RowStep(last, before, gc);
        buf := buf + code;
        now := gc;
      }
      buf := buf + CellBytes(gc);
    }
  }

  lemma EncodeNothing()
    ensures Encode([]) == []
  {
  }

  lemma RowStep(last: Cell, before: seq<Cell>, c: Cell)
    requires !c.flags.padding
    ensures Encode(RowTokens(last, before + [c]))
            == Encode(RowTokens(last, before)) + Encode(Code(LastOf(last, before), c)) + CellBytes(c)
  {
    hide Code, Encode;
    var cells := before + [c];
    assert cells[..|cells| - 1] == before;
    EncodeConcat(RowTokens(last, before), Code(LastOf(last, before), c));
    EncodeConcat(RowTokens(last, before) + Code(LastOf(last, before), c), Texts(CellBytes(c)));
    EncodeTexts(CellBytes(c));
  }
}

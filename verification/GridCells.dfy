/** Grid cells: the value of one screen position, and the compact and extended
    forms in which a row stores it (tmux.h, grid.c). */
module GridCells {

  type byte = x: int | 0 <= x < 256

  /** A colour number: a plain number (0-7 are the basic colours, 8 the default,
      9 the terminal's own, 90-97 the bright ones), one of the 256-colour palette,
      or a direct colour. The source packs the three forms in one int. */
  datatype Colour = Plain(n: byte) | Indexed(i: byte) | Rgb(r: byte, g: byte, b: byte)

  const DEFAULT := Plain(8)

  /** COLOUR_DEFAULT */
  predicate IsDefault(c: Colour) {
    c == Plain(8) || c == Plain(9)
  }

  datatype Attr =
    | Bright | Dim | Underscore | Blink | Reverse | Hidden | Italics | Charset
    | Strikethrough | Underscore2 | Underscore3 | Underscore4 | Underscore5 | Overline | NoAttr

  /** The attributes whose bit does not fit the 8-bit field of a compact cell. */
  const HIGH_ATTRS: set<Attr> :=
    {Strikethrough, Underscore2, Underscore3, Underscore4, Underscore5, Overline, NoAttr}

  /** The bytes of a character: a buffer of which `size` bytes are used, and the
      columns the character takes. */
  datatype Utf8 = Utf8(width: nat, size: nat, data: seq<byte>) {
    function Lead(): byte {
      if data == [] then 0 else data[0]
    }
  }

  const SPACE: byte := 0x20

  /** utf8_set: a single-byte character. */
  function OneByte(ch: byte): Utf8 {
    Utf8(1, 1, [ch])
  }

  datatype Flags = Flags(padding: bool, selected: bool, nopalette: bool, cleared: bool, tab: bool)

  const NO_FLAGS := Flags(false, false, false, false, false)
  const CLEARED := NO_FLAGS.(cleared := true)

  /** struct grid_cell: what is shown at one position. */
  datatype Cell = Cell(data: Utf8, attr: set<Attr>, flags: Flags, fg: Colour, bg: Colour, us: Colour, link: nat)

  const DEFAULT_CELL := Cell(OneByte(SPACE), {}, NO_FLAGS, DEFAULT, DEFAULT, DEFAULT, 0)
  const PADDING_CELL := Cell(Utf8(0, 0, [0x21]), {}, NO_FLAGS.(padding := true), DEFAULT, DEFAULT, DEFAULT, 0)

  /** The cell without the mark that it was only ever cleared. */
  function Strip(c: Cell): Cell {
    c.(flags := c.flags.(cleared := false))
  }

  function StripAll(cs: seq<Cell>): (r: seq<Cell>)
    ensures |r| == |cs|
    ensures forall i :: 0 <= i < |cs| ==> r[i] == Strip(cs[i])
  {
    seq(|cs|, i requires 0 <= i < |cs| => Strip(cs[i]))
  }

  /** struct grid_cell_entry: a compact cell, or the offset of an extended one. */
  datatype Entry =
    | Inline(attr: set<Attr>, fg: byte, fg256: bool, bg: byte, bg256: bool, ch: byte, flags: Flags)
    | Extended(offset: nat, eflags: Flags)

  /** The character word of an extended slot: a packed character, or the width of a tab. */
  datatype Stored = Char(u: Utf8) | TabWidth(n: nat)

  /** struct grid_extd_entry */
  datatype Extd = Extd(data: Stored, attr: set<Attr>, flags: Flags, fg: Colour, bg: Colour, us: Colour, link: nat)

  /** grid_cleared_entry */
  const CLEARED_ENTRY := Inline({}, 8, false, 8, false, SPACE, CLEARED)

  function Spaces(n: nat): seq<byte> {
    seq(n, _ => SPACE)
  }

  /** grid_set_tab */
  function SetTab(c: Cell, width: nat): Cell {
    c.(flags := c.flags.(tab := true, padding := false), data := Utf8(width, width, Spaces(width)))
  }

  function ColourByte(c: Colour): byte {
    match c case Plain(n) => n case Indexed(i) => i case Rgb(_, _, b) => b
  }

  function InlineColour(b: byte, is256: bool): Colour {
    if is256 then Indexed(b) else Plain(b)
  }

  /** grid_need_extended_cell */
  predicate NeedExtended(e: Entry, c: Cell) {
    || e.Extended?
    || c.attr * HIGH_ATTRS != {}
    || c.data.size > 1 || c.data.width > 1
    || c.fg.Rgb? || c.bg.Rgb?
    || c.us != DEFAULT
    || c.link != 0
    || c.flags.tab
  }

  /** grid_store_cell */
  function StoreInline(c: Cell, ch: byte): Entry {
    Inline(c.attr, ColourByte(c.fg), c.fg.Indexed?, ColourByte(c.bg), c.bg.Indexed?, ch,
           c.flags.(cleared := false))
  }

  /** The slot grid_extended_cell fills for a cell. */
  function StoreExtended(c: Cell): Extd {
    Extd(if c.flags.tab then TabWidth(c.data.width) else Char(c.data),
         c.attr, c.flags.(cleared := false), c.fg, c.bg, c.us, c.link)
  }

  /** Reading a slot: the extended branch of grid_get_cell1. */
  function ReadExtended(x: Extd): Cell {
    var c := Cell(OneByte(SPACE), x.attr, x.flags, x.fg, x.bg, x.us, x.link);
    match x.data
    case TabWidth(n) => if x.flags.tab then SetTab(c, n) else c
    case Char(u) => if x.flags.tab then SetTab(c, u.width) else c.(data := u)
  }

  /** grid_get_cell1 */
  function Read(e: Entry, slots: seq<Extd>): Cell {
    match e
    case Extended(offset, _) =>
      if offset >= |slots| then DEFAULT_CELL else ReadExtended(slots[offset])
    case Inline(attr, fg, fg256, bg, bg256, ch, flags) =>
      Cell(OneByte(ch), attr, flags, InlineColour(fg, fg256), InlineColour(bg, bg256), DEFAULT, 0)
  }

  /** What a position holds after a cell is stored there: a tab is normalised, a
      compact position keeps one byte one column wide, and CLEARED is dropped. */
  function Kept(c: Cell, extended: bool): Cell {
    if !extended then Strip(c).(data := OneByte(c.data.Lead()))
    else if c.flags.tab then SetTab(Strip(c), c.data.width)
    else Strip(c)
  }

  /** A cell whose stored form loses nothing: a one-column single byte or a cell
      that needs a slot, with tabs in the form grid_set_tab gives them. */
  predicate Storable(c: Cell) {
    && (c.flags.tab ==> SetTab(c, c.data.width) == c)
    && (!NeedExtended(CLEARED_ENTRY, c) ==> c.data == OneByte(c.data.Lead()))
  }

  lemma StoreInlineKept(c: Cell, slots: seq<Extd>)
    requires !NeedExtended(CLEARED_ENTRY, c)
    ensures Read(StoreInline(c, c.data.Lead()), slots) == Kept(c, false)
  {
  }

  lemma StoreExtendedKept(c: Cell)
    ensures ReadExtended(StoreExtended(c)) == Kept(c, true)
  {
  }

  /** Storing a cell keeps it, whatever the position held before, exactly when it
      is storable or the position already had a slot. */
  lemma KeptIsExact(e: Entry, c: Cell)
    ensures Kept(c, NeedExtended(e, c)) == Strip(c) <==>
            if e.Extended? then c.flags.tab ==> SetTab(c, c.data.width) == c else Storable(c)
  {
    if c.flags.tab {
      assert SetTab(Strip(c), c.data.width) == Strip(SetTab(c, c.data.width));
      var t := SetTab(c, c.data.width);
      assert t.data == c.data && t.flags == c.flags ==> t == c;
    }
  }

  /** A cell that no storing changes: a character in one byte and one column, or in more. */
  predicate Ordinary(c: Cell) {
    !c.flags.tab && (c.data.size > 1 || c.data.width > 1 || (c.data.size == c.data.width == |c.data.data| == 1))
  }

  lemma OrdinaryKept(c: Cell, slot: bool)
    requires Ordinary(c)
    ensures Kept(c, slot || NeedExtended(CLEARED_ENTRY, c)) == c.(flags := c.flags.(cleared := false))
  {
  }

  /** A tab is read as it was stored: so many columns, and as many spaces. */
  lemma TabKept(c: Cell)
    requires c.flags.tab
    ensures var r := ReadExtended(StoreExtended(c));
            && r.flags.tab && !r.flags.padding && r.data.width == c.data.width && r.data.size == |r.data.data| == c.data.width
            && (forall b :: b in r.data.data ==> b == 0x20)
            && r.attr == c.attr && r.fg == c.fg && r.bg == c.bg && r.us == c.us && r.link == c.link
  {
  }

  /** The cell grid_clear_cell leaves, as later read. */
  function Blank(bg: Colour, slot: bool): Cell {
    DEFAULT_CELL.(bg := bg, flags := if slot then NO_FLAGS else CLEARED)
  }

  /** A cell that shows a space on a background, in no other colour or attribute. */
  predicate Space(c: Cell, bg: Colour) {
    && c.data.width == 1 && c.data.size == 1 && c.data.data == [0x20]
    && c.bg == bg && c.fg == Plain(8) && c.us == Plain(8) && c.attr == {} && c.link == 0
    && !c.flags.padding && !c.flags.tab && !c.flags.selected
  }

  lemma BlankIsSpace(bg: Colour, slot: bool)
    ensures Space(Blank(bg, slot), bg)
  {
  }
}

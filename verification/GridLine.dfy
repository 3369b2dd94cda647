/** One row of a grid: a compact array of cells beside an array of extended slots
    addressed by offset, both reallocated as they grow (grid.c). */
module GridLines {
  import opened GridCells

  /** Every extended cell has a slot of its own, and a tab always has one. */
  ghost predicate SlotsOk(cells: seq<Entry>, slots: nat) {
    && (forall i :: 0 <= i < |cells| && cells[i].Inline? ==> !cells[i].flags.tab)
    && (forall i :: 0 <= i < |cells| && cells[i].Extended? ==> cells[i].offset < slots)
    && (forall i, j :: 0 <= i < j < |cells| && cells[i].Extended? && cells[j].Extended?
                       ==> cells[i].offset != cells[j].offset)
  }

  function ReadAll(cells: seq<Entry>, slots: seq<Extd>): (r: seq<Cell>)
    ensures |r| == |cells|
    ensures forall i :: 0 <= i < |cells| ==> r[i] == Read(cells[i], slots)
  {
    seq(|cells|, i requires 0 <= i < |cells| => Read(cells[i], slots))
  }

  /** Replacing one entry by a compact one disturbs no other position. */
  lemma ReadAfterInline(cells: seq<Entry>, slots: seq<Extd>, px: nat, e: Entry)
    requires px < |cells| && SlotsOk(cells, |slots|) && e.Inline? && !e.flags.tab
    ensures SlotsOk(cells[px := e], |slots|)
    ensures ReadAll(cells[px := e], slots) == ReadAll(cells, slots)[px := Read(e, slots)]
  {
  }

  /** Nor does rewriting the slot a position already has ... */
  lemma ReadAfterReuse(cells: seq<Entry>, slots: seq<Extd>, px: nat, x: Extd)
    requires px < |cells| && SlotsOk(cells, |slots|) && cells[px].Extended?
    ensures var after := slots[cells[px].offset := x];
            ReadAll(cells, after) == ReadAll(cells, slots)[px := ReadExtended(x)]
  {
  }

  /** ... or giving it a new slot at the end. */
  lemma ReadAfterAppend(cells: seq<Entry>, slots: seq<Extd>, px: nat, flags: Flags, x: Extd)
    requires px < |cells| && SlotsOk(cells, |slots|)
    ensures SlotsOk(cells[px := Extended(|slots|, flags)], |slots| + 1)
    ensures ReadAll(cells[px := Extended(|slots|, flags)], slots + [x])
            == ReadAll(cells, slots)[px := ReadExtended(x)]
  {
  }

  /** The size grid_expand_line picks for a row of a grid `gsx` columns wide. */
  function ExpandedSize(gsx: nat, sx: nat): (r: nat)
    ensures r >= sx
  {
    if sx < gsx / 4 then gsx / 4
    else if sx < gsx / 2 then gsx / 2
    else if gsx > sx then gsx
    else sx
  }

  /** It is the least of a quarter, a half and the whole of the grid's width that is more than
      needed; if none is, just what is needed. */
  lemma ExpandedLeast(gsx: nat, sx: nat)
    ensures var r := ExpandedSize(gsx, sx);
            && (gsx <= sx ==> r == sx)
            && (sx < gsx ==> sx < r <= gsx && r in {gsx / 4, gsx / 2, gsx})
            && (sx < gsx / 4 ==> r <= gsx / 4) && (sx < gsx / 2 ==> r <= gsx / 2)
  {
  }

  /** A row's cells after it is made long enough for `sx` cells. */
  function Padded(cs: seq<Cell>, gsx: nat, sx: nat, bg: Colour): (r: seq<Cell>)
    ensures |r| >= |cs| && |r| >= sx
    ensures r[..|cs|] == cs
  {
    if sx <= |cs| then cs
    else cs + seq(ExpandedSize(gsx, sx) - |cs|, _ => Blank(bg, bg.Rgb?))
  }

  /** A row's cells after a run of single bytes in one style is written over them. */
  function Written(cs: seq<Cell>, px: nat, c: Cell, s: seq<byte>): (r: seq<Cell>)
    requires px + |s| <= |cs|
    ensures |r| == |cs|
  {
    if s == [] then cs
    else Written(cs, px, c, s[..|s| - 1])[px + |s| - 1 := Strip(c).(data := OneByte(s[|s| - 1]))]
  }

  lemma {:induction false} WrittenAt(cs: seq<Cell>, px: nat, c: Cell, s: seq<byte>, i: nat)
    requires px + |s| <= |cs| && i < |cs|
    ensures Written(cs, px, c, s)[i]
            == if px <= i < px + |s| then c.(flags := c.flags.(cleared := false), data := Utf8(1, 1, [s[i - px]])) else cs[i]
  {
    if s != [] {
      WrittenAt(cs, px, c, s[..|s| - 1], i);
    }
  }

  /** A row's cells after `nx` of them move from `px` to `dx`, the places left behind
      cleared. */
  function Moved(cs: seq<Cell>, dx: nat, px: nat, nx: nat, bg: Colour): (r: seq<Cell>)
    requires px + nx <= |cs| && dx + nx <= |cs|
    ensures |r| == |cs|
  {
    seq(|cs|, i requires 0 <= i < |cs| =>
      if dx <= i < dx + nx then cs[i - dx + px]
      else if px <= i < px + nx then Blank(bg, bg.Rgb?)
      else cs[i])
  }

  /** What a move of cells shows: the cells there were at the new places, spaces at those left
      behind, and the others as they were. */
  ghost predicate Landed(was: seq<Cell>, now: seq<Cell>, dx: nat, px: nat, nx: nat, bg: Colour) {
    && (forall i :: dx <= i < dx + nx && i < |now| && i - dx + px < |was| ==> now[i] == was[i - dx + px])
    && (forall i :: px <= i < px + nx && i < |now| && !(dx <= i < dx + nx) ==> Space(now[i], bg))
    && (forall i :: 0 <= i < |was| && i < |now| && !(dx <= i < dx + nx) && !(px <= i < px + nx) ==> now[i] == was[i])
  }

  lemma MovedLands(was: seq<Cell>, cs: seq<Cell>, dx: nat, px: nat, nx: nat, bg: Colour)
    requires was <= cs && px + nx <= |cs| && dx + nx <= |cs|
    ensures Landed(was, Moved(cs, dx, px, nx, bg), dx, px, nx, bg)
  {
    hide Space, Blank;
    BlankIsSpace(bg, bg.Rgb?);
  }

  /** The state of the clearing loop of grid_expand_line: the old cells, cleared cells up
      to `xx`, zeroed memory after it. */
  ghost predicate Growing(was: seq<Entry>, kept: seq<Extd>, cells: seq<Entry>, slots: seq<Extd>, xx: nat, bg: Colour) {
    && was <= cells && kept <= slots && |was| <= xx <= |cells|
    && SlotsOk(cells, |slots|)
    && (forall i {:trigger cells[i]} :: xx <= i < |cells| ==> cells[i].Inline?)
    && (forall i {:trigger cells[i]} :: |was| <= i < xx ==>
          Read(cells[i], slots) == Blank(bg, bg.Rgb?) && (bg.Rgb? || cells[i].Inline?))
  }

  lemma GrowStep(was: seq<Entry>, kept: seq<Extd>, cells: seq<Entry>, slots: seq<Extd>,
                 xx: nat, bg: Colour, e: Entry, more: seq<Extd>)
    requires Growing(was, kept, cells, slots, xx, bg) && xx < |cells|
    requires slots <= more && Read(e, more) == Blank(bg, bg.Rgb?) && (bg.Rgb? || e.Inline?)
    requires e.Extended? ==> e.offset == |slots| < |more|
    ensures Growing(was, kept, cells[xx := e], more, xx + 1, bg)
  {
  }

  lemma GrowDone(was: seq<Entry>, kept: seq<Extd>, cells: seq<Entry>, slots: seq<Extd>, bg: Colour)
    requires Growing(was, kept, cells, slots, |cells|, bg) && SlotsOk(was, |kept|)
    ensures ReadAll(cells, slots)
            == ReadAll(was, kept) + seq(|cells| - |was|, _ => Blank(bg, bg.Rgb?))
  {
  }

  /** A position already wiped once the wiping loop of grid_move_cells has reached `xx`. */
  ghost predicate Wiped(i: int, px: int, xx: int, dx: int, nx: int) {
    px <= i < xx && !(dx <= i < dx + nx)
  }

  /** The loop's state: the cells that moved, the cells that stayed, and the wiped ones,
      each of which either needs no slot or got a new one. */
  ghost predicate Wiping(was: seq<Entry>, n: nat, cells: seq<Entry>, slots: seq<Extd>,
                         dx: nat, px: nat, nx: nat, xx: nat, bg: Colour)
  {
    && px + nx <= |was| && dx + nx <= |was| == |cells| && n <= |slots|
    && (forall i {:trigger cells[i]} :: 0 <= i < |was| && !Wiped(i, px, xx, dx, nx) ==>
          cells[i] == if dx <= i < dx + nx then was[i - dx + px] else was[i])
    && (forall i {:trigger cells[i]} :: 0 <= i < |was| && Wiped(i, px, xx, dx, nx) ==>
          && Read(cells[i], slots) == Blank(bg, bg.Rgb?)
          && (cells[i].Extended? ==> n <= cells[i].offset < |slots|))
    && (forall i, j :: 0 <= i < j < |was| && Wiped(i, px, xx, dx, nx) && Wiped(j, px, xx, dx, nx)
          && cells[i].Extended? && cells[j].Extended?
          ==> cells[i].offset != cells[j].offset)
  }

  lemma WipeStep(was: seq<Entry>, n: nat, cells: seq<Entry>, slots: seq<Extd>,
                 dx: nat, px: nat, nx: nat, xx: nat, bg: Colour, e: Entry, more: seq<Extd>)
    requires Wiping(was, n, cells, slots, dx, px, nx, xx, bg) && px <= xx < px + nx && !(dx <= xx < dx + nx)
    requires slots <= more && Read(e, more) == Blank(bg, bg.Rgb?)
    requires e.Extended? ==> e.offset == |slots| < |more|
    ensures Wiping(was, n, cells[xx := e], more, dx, px, nx, xx + 1, bg)
  {
  }

  lemma WipeDone(was: seq<Entry>, kept: seq<Extd>, cells: seq<Entry>, slots: seq<Extd>,
                 dx: nat, px: nat, nx: nat, bg: Colour)
    requires Wiping(was, |kept|, cells, slots, dx, px, nx, px + nx, bg)
    requires SlotsOk(was, |kept|) && kept <= slots
    ensures SlotsOk(cells, |slots|)
    ensures ReadAll(cells, slots) == Moved(ReadAll(was, kept), dx, px, nx, bg)
  {
  }

  function CountExtended(cells: seq<Entry>): (n: nat)
    ensures n <= |cells|
  {
    if cells == [] then 0
    else CountExtended(cells[..|cells| - 1]) + if cells[|cells| - 1].Extended? then 1 else 0
  }

  lemma NoneExtended(cells: seq<Entry>)
    requires CountExtended(cells) == 0
    ensures forall i :: 0 <= i < |cells| ==> !cells[i].Extended?
  {
    if cells != [] {
      NoneExtended(cells[..|cells| - 1]);
    }
  }

  class Line {
    var celldata: seq<Entry>
    var extddata: seq<Extd>
    var cellused: nat
    var wrapped: bool
    var extended: bool
    var dead: bool

    ghost predicate Valid()
      reads this
    {
      && cellused <= |celldata|
      && SlotsOk(celldata, |extddata|)
      && (!extended ==> forall i :: 0 <= i < |celldata| ==> !celldata[i].Extended?)
    }

    /** What a reader sees of the row. */
    ghost function Cells(): (r: seq<Cell>)
      reads this
      ensures |r| == |celldata|
    {
      ReadAll(celldata, extddata)
    }

    /** A row of zeroed memory. */
    constructor ()
      ensures Valid() && celldata == [] && cellused == 0 && !wrapped && !dead && extddata == [] && !extended
    {
      celldata, extddata, cellused := [], [], 0;
      wrapped, extended, dead := false, false, false;
    }

    /** grid_reflow_dead: zeroed memory, marked. */
    constructor Dead()
      ensures Valid() && dead
    {
      celldata, extddata, cellused := [], [], 0;
      wrapped, extended, dead := false, false, true;
    }

    /** grid_extended_cell, with grid_get_extended_cell where the position has no slot. */
    method ExtendCell(px: nat, c: Cell)
      requires px < |celldata|
      requires celldata[px].Extended? ==> celldata[px].offset < |extddata|
      modifies this`celldata, this`extddata, this`extended
      ensures extended
      ensures |celldata| == old(|celldata|) && celldata == old(celldata)[px := celldata[px]]
      ensures celldata[px].Extended? && celldata[px].offset < |extddata|
      ensures if old(celldata[px].Extended?)
              then celldata == old(celldata)
                   && extddata == old(extddata)[celldata[px].offset := StoreExtended(c)]
              else celldata[px] == Extended(old(|extddata|), c.flags.(cleared := false))
                   && extddata == old(extddata) + [StoreExtended(c)]
    {
      var slot := StoreExtended(c);
      match celldata[px] {
        case Inline(_, _, _, _, _, _, _) =>
          celldata := celldata[px := Extended(|extddata|, c.flags.(cleared := false))];
          extddata := extddata + [slot];
        case Extended(offset, _) =>
          extddata := extddata[offset := slot];
      }
      extended := true;
    }

    /** grid_clear_cell. A position whose slot has moved away gives the slot up. */
    method ClearCell(px: nat, bg: Colour, moved: bool)
      requires px < |celldata|
      requires !moved && celldata[px].Extended? ==> celldata[px].offset < |extddata|
      modifies this`celldata, this`extddata, this`extended
      ensures |celldata| == old(|celldata|) && celldata == old(celldata)[px := celldata[px]]
      ensures !moved && old(celldata[px].Extended?) ==>
                celldata[px].Extended? && celldata[px].offset == old(celldata[px].offset)
                && |extddata| == old(|extddata|)
                && forall k :: 0 <= k < |extddata| && k != celldata[px].offset ==> extddata[k] == old(extddata[k])
      ensures moved || !old(celldata[px].Extended?) ==>
                old(extddata) <= extddata && |extddata| <= old(|extddata|) + 1
                && (celldata[px].Extended? ==> celldata[px].offset == old(|extddata|) < |extddata|)
      ensures extended || (!old(extended) && !celldata[px].Extended?)
      ensures bg.Rgb? || (!moved && old(celldata[px].Extended?)) || celldata[px].Inline?
      ensures Read(celldata[px], extddata) == Blank(bg, bg.Rgb? || (!moved && old(celldata[px].Extended?)))
      ensures Space(Read(celldata[px], extddata), bg)
    {
      var was := celldata[px];
      celldata := celldata[px := CLEARED_ENTRY];
      if !moved && was.Extended? && was.offset < |extddata| {
        celldata := celldata[px := Extended(was.offset, CLEARED)];
        ExtendCell(px, Blank(DEFAULT, false));
        if bg != DEFAULT {
          extddata := extddata[was.offset := extddata[was.offset].(bg := bg)];
        }
      } else if bg != DEFAULT {
        if bg.Rgb? {
          ExtendCell(px, Blank(DEFAULT, false));
          var at := celldata[px].offset;
          extddata := extddata[at := extddata[at].(bg := bg)];
        } else {
          celldata := celldata[px := CLEARED_ENTRY.(bg256 := bg.Indexed?, bg := ColourByte(bg))];
        }
      }
    }

    /** grid_expand_line */
    method ExpandLine(gsx: nat, sx: nat, bg: Colour)
      requires Valid()
      modifies this`celldata, this`extddata, this`extended
      ensures Valid()
      ensures Cells() == Padded(old(Cells()), gsx, sx, bg)
      ensures old(Cells()) <= Cells() && forall i :: |old(Cells())| <= i < |Cells()| ==> Space(Cells()[i], bg)
      ensures extended || !old(extended)
      ensures forall i :: HasSlot(i) && !bg.Rgb? ==> old(HasSlot(i))
      ensures forall i :: old(HasSlot(i)) ==> HasSlot(i)
    {
      if sx <= |celldata| {
        return;
      }
      var size := ExpandedSize(gsx, sx);
      var n := |celldata|;
      ghost var was, kept := celldata, extddata;
      celldata := celldata + seq(size - n, _ => Inline({}, 0, false, 0, false, 0, NO_FLAGS));
      for xx := n to size
        invariant |celldata| == size && cellused == old(cellused)
        invariant Growing(was, kept, celldata, extddata, xx, bg)
        invariant extended || (!old(extended) && forall i :: 0 <= i < |celldata| ==> celldata[i].Inline?)
      {
        ghost var cells, slots := celldata, extddata;
        ClearCell(xx, bg, false);
        GrowStep(was, kept, cells, slots, xx, bg, celldata[xx], extddata);
      }
      GrowDone(was, kept, celldata, extddata, bg);
      assert Cells() == Padded(old(Cells()), gsx, sx, bg);
    }

    /** Whether a position holds an extended cell. */
    ghost predicate HasSlot(px: nat)
      reads this
    {
      px < |celldata| && celldata[px].Extended?
    }

    /** The storing half of grid_set_cell and of each step of grid_set_cells. */
    method StoreAt(px: nat, c: Cell)
      requires Valid() && px < |celldata|
      modifies this`celldata, this`extddata, this`extended
      ensures Valid()
      ensures Cells() == old(Cells())[px := Kept(c, old(HasSlot(px)) || NeedExtended(CLEARED_ENTRY, c))]
      ensures forall i :: 0 <= i < |celldata| && i != px ==> celldata[i] == old(celldata)[i]
      ensures extended || !old(extended)
      ensures old(NeedExtended(celldata[px], c)) ==>
                celldata[px].Extended? && extddata[celldata[px].offset] == StoreExtended(c)
    {
      if NeedExtended(celldata[px], c) {
        StoreExtendedKept(c);
        if celldata[px].Extended? {
          ReadAfterReuse(celldata, extddata, px, StoreExtended(c));
        } else {
          ReadAfterAppend(celldata, extddata, px, c.flags.(cleared := false), StoreExtended(c));
        }
        ExtendCell(px, c);
      } else {
        StoreInlineKept(c, extddata);
        ReadAfterInline(celldata, extddata, px, StoreInline(c, c.data.Lead()));
        celldata := celldata[px := StoreInline(c, c.data.Lead())];
      }
    }

    /** grid_set_cell: the row is expanded, `cellused` raised, and the cell stored in
        compact form unless it needs a slot. Every other position reads as before. */
    method SetCell(gsx: nat, px: nat, c: Cell)
      requires Valid()
      modifies this`celldata, this`extddata, this`extended, this`cellused
      ensures Valid()
      ensures cellused == if px + 1 > old(cellused) then px + 1 else old(cellused)
      ensures Cells() == Padded(old(Cells()), gsx, px + 1, DEFAULT)
                         [px := Kept(c, old(HasSlot(px)) || NeedExtended(CLEARED_ENTRY, c))]
      ensures Ordinary(c) ==> Cells()[px] == c.(flags := c.flags.(cleared := false))
      ensures forall i :: i != px ==> (HasSlot(i) <==> old(HasSlot(i)))
      ensures extended || !old(extended)
    {
      if Ordinary(c) {
        OrdinaryKept(c, HasSlot(px));
      }
      ExpandLine(gsx, px + 1, DEFAULT);
      if px + 1 > cellused {
        cellused := px + 1;
      }
      StoreAt(px, c);
    }

    /** One step of grid_set_cells: the style decides the form, the byte is the data. */
    method StoreByte(px: nat, c: Cell, ch: byte)
      requires Valid() && px < |celldata| && !c.flags.tab
      modifies this`celldata, this`extddata, this`extended
      ensures Valid()
      ensures Cells() == old(Cells())[px := Strip(c).(data := OneByte(ch))]
    {
      if NeedExtended(celldata[px], c) {
        StoreAt(px, c);
        var at := celldata[px].offset;
        ReadAfterReuse(celldata, extddata, px, extddata[at].(data := Char(OneByte(ch))));
        extddata := extddata[at := extddata[at].(data := Char(OneByte(ch)))];
      } else {
        ReadAfterInline(celldata, extddata, px, StoreInline(c, ch));
        celldata := celldata[px := StoreInline(c, ch)];
      }
    }

    /** grid_set_cells: a run of single-byte cells in one style. */
    method SetCells(gsx: nat, px: nat, c: Cell, s: seq<byte>)
      requires Valid() && !c.flags.tab
      modifies this`celldata, this`extddata, this`extended, this`cellused
      ensures Valid()
      ensures cellused == if px + |s| > old(cellused) then px + |s| else old(cellused)
      ensures Cells() == Written(Padded(old(Cells()), gsx, px + |s|, DEFAULT), px, c, s)
    {
      ExpandLine(gsx, px + |s|, DEFAULT);
      if px + |s| > cellused {
        cellused := px + |s|;
      }
      WriteRun(px, c, s);
    }

    /** The loop of grid_set_cells. */
    method WriteRun(px: nat, c: Cell, s: seq<byte>)
      requires Valid() && px + |s| <= |celldata| && !c.flags.tab
      modifies this`celldata, this`extddata, this`extended
      ensures Valid()
      ensures Cells() == Written(old(Cells()), px, c, s)
    {
      ghost var was := Cells();
      for i := 0 to |s|
        invariant Valid() && |celldata| == |was| && Cells() == Written(was, px, c, s[..i])
      {
        assert s[..i + 1][..i] == s[..i];
        StoreByte(px + i, c, s[i]);
      }
      assert s[..|s|] == s;
    }

    /** grid_move_cells: the cells land intact even where the two ranges overlap. */
    method MoveCells(gsx: nat, dx: nat, px: nat, nx: nat, bg: Colour)
      requires Valid()
      modifies this`celldata, this`extddata, this`extended, this`cellused
      ensures Valid()
      ensures cellused == if nx != 0 && px != dx && dx + nx > old(cellused) then dx + nx else old(cellused)
      ensures Cells() == if nx == 0 || px == dx then old(Cells())
                         else Moved(Padded(Padded(old(Cells()), gsx, px + nx, DEFAULT), gsx, dx + nx, DEFAULT),
                                    dx, px, nx, bg)
      ensures nx != 0 && px != dx ==> |Cells()| >= dx + nx && |Cells()| >= px + nx && Landed(old(Cells()), Cells(), dx, px, nx, bg)
    {
      hide SlotsOk, ReadAll, Moved, Padded, Landed, HasSlot;
      if nx == 0 || px == dx {
        return;
      }
      ExpandLine(gsx, px + nx, DEFAULT);
      ghost var once := Cells();
      assert once == Padded(old(Cells()), gsx, px + nx, DEFAULT);
      ExpandLine(gsx, dx + nx, DEFAULT);
      ghost var twice := Cells();
      assert twice == Padded(once, gsx, dx + nx, DEFAULT);
      if dx + nx > cellused {
        cellused := dx + nx;
      }
      ShiftCells(dx, px, nx, bg);
      MovedLands(old(Cells()), twice, dx, px, nx, bg);
    }

    /** The memmove and the wiping loop. */
    method ShiftCells(dx: nat, px: nat, nx: nat, bg: Colour)
      requires Valid() && px + nx <= |celldata| && dx + nx <= |celldata|
      modifies this`celldata, this`extddata, this`extended
      ensures Valid() && Cells() == Moved(old(Cells()), dx, px, nx, bg)
    {
      ghost var was, kept := celldata, extddata;
      celldata := celldata[..dx] + celldata[px..px + nx] + celldata[dx + nx..];
      WipeMoved(dx, px, nx, bg, was, kept);
      WipeDone(was, kept, celldata, extddata, dx, px, nx, bg);
    }

    /** The wiping loop of grid_move_cells. */
    method WipeMoved(dx: nat, px: nat, nx: nat, bg: Colour, ghost was: seq<Entry>, ghost kept: seq<Extd>)
      requires Wiping(was, |kept|, celldata, extddata, dx, px, nx, px, bg) && extddata == kept
      requires !extended ==> forall i :: 0 <= i < |celldata| ==> !celldata[i].Extended?
      modifies this`celldata, this`extddata, this`extended
      ensures Wiping(was, |kept|, celldata, extddata, dx, px, nx, px + nx, bg) && kept <= extddata
      ensures !extended ==> forall i :: 0 <= i < |celldata| ==> !celldata[i].Extended?
    {
      for xx := px to px + nx
        invariant Wiping(was, |kept|, celldata, extddata, dx, px, nx, xx, bg) && kept <= extddata
        invariant !extended ==> forall i :: 0 <= i < |celldata| ==> !celldata[i].Extended?
      {
        if dx <= xx < dx + nx {
          continue;
        }
        ghost var cells, slots := celldata, extddata;
        ClearCell(xx, bg, true);
        WipeStep(was, |kept|, cells, slots, dx, px, nx, xx, bg, celldata[xx], extddata);
      }
    }

    /** Setting cellsize and cellused together: the rest of the buffer is forgotten. */
    method Truncate(n: nat)
      requires Valid() && n <= |celldata|
      modifies this`celldata, this`cellused
      ensures Valid() && cellused == n == |celldata| && Cells() == old(Cells())[..n]
    {
      celldata := celldata[..n];
      cellused := n;
    }

    /** grid_compact_line: no reader can tell, and the slots that remain are exactly
        one for each extended cell. */
    method Compact()
      requires Valid()
      modifies this`celldata, this`extddata
      ensures Valid()
      ensures Cells() == old(Cells())
      ensures |extddata| == CountExtended(celldata)
    {
      if |extddata| == 0 {
        CountNoSlots(celldata);
        return;
      }
      var size := 0;
      for px := 0 to |celldata|
        invariant size == CountExtended(celldata[..px])
      {
        assert celldata[..px + 1][..px] == celldata[..px];
        if celldata[px].Extended? {
          size := size + 1;
        }
      }
      assert celldata[..|celldata|] == celldata;
      if size == 0 {
        NoneExtended(celldata);
        extddata := [];
        return;
      }
      CopySlots();
    }

    /** The copying loop of grid_compact_line. */
    method CopySlots()
      requires Valid()
      modifies this`celldata, this`extddata
      ensures Valid()
      ensures Cells() == old(Cells())
      ensures |extddata| == CountExtended(celldata)
    {
      var slots: seq<Extd> := [];
      ghost var was := celldata;
      for px := 0 to |celldata|
        invariant extddata == old(extddata) && Copying(was, extddata, celldata, slots, px)
      {
        if celldata[px].Extended? {
          CopyStep(was, extddata, celldata, slots, px);
          var slot := extddata[celldata[px].offset];
          celldata := celldata[px := celldata[px].(offset := |slots|)];
          slots := slots + [slot];
        } else {
          CopySkip(was, extddata, celldata, slots, px);
        }
      }
      assert celldata[..|celldata|] == celldata;
      extddata := slots;
    }
  }

  /** The copying loop's state: `px` entries renumbered, their slots copied in order. */
  ghost predicate Copying(was: seq<Entry>, kept: seq<Extd>, cells: seq<Entry>, slots: seq<Extd>, px: nat) {
    && px <= |was| == |cells|
    && (forall i :: px <= i < |was| ==> cells[i] == was[i])
    && (forall i :: 0 <= i < px ==>
          cells[i].Extended? == was[i].Extended? && Read(cells[i], slots) == Read(was[i], kept))
    && SlotsOk(cells[..px], |slots|)
    && |slots| == CountExtended(cells[..px])
  }

  lemma CopySkip(was: seq<Entry>, kept: seq<Extd>, cells: seq<Entry>, slots: seq<Extd>, px: nat)
    requires Copying(was, kept, cells, slots, px) && px < |was| && SlotsOk(was, |kept|)
    requires cells[px].Inline?
    ensures Copying(was, kept, cells, slots, px + 1)
  {
    assert cells[..px + 1][..px] == cells[..px];
  }

  lemma CopyStep(was: seq<Entry>, kept: seq<Extd>, cells: seq<Entry>, slots: seq<Extd>, px: nat)
    requires Copying(was, kept, cells, slots, px) && px < |was| && SlotsOk(was, |kept|)
    requires cells[px].Extended?
    ensures Copying(was, kept, cells[px := cells[px].(offset := |slots|)], slots + [kept[cells[px].offset]], px + 1)
  {
    var after := cells[px := cells[px].(offset := |slots|)];
    assert after[..px + 1] == cells[..px] + [after[px]];
    assert after[..px + 1][..px] == cells[..px];
  }

  lemma CountNoSlots(cells: seq<Entry>)
    requires SlotsOk(cells, 0)
    ensures CountExtended(cells) == 0
  {
  }
}

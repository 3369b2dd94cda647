/** Moving, clearing and freeing whole rows (grid.c). */
module GridMove {
  import opened GridCells
  import opened GridLines
  import opened Grids

  /** What a row shows: every cell of it, how many are used, and its wrap flag. */
  datatype View = View(cells: seq<Cell>, used: nat, wrapped: bool)

  const U32 := 0x1_0000_0000

  ghost function ViewOf(l: Line): View
    reads l
  {
    View(l.Cells(), l.cellused, l.wrapped)
  }

  ghost function ViewsOf(lines: seq<Line>): (r: seq<View>)
    reads lines
    ensures |r| == |lines|
    ensures forall i :: 0 <= i < |lines| ==> r[i] == ViewOf(lines[i])
  {
    if lines == [] then [] else ViewsOf(lines[..|lines| - 1]) + [ViewOf(lines[|lines| - 1])]
  }

  /** A row emptied with a background colour. */
  function BlankView(sx: nat, bg: Colour): View {
    View(if IsDefault(bg) then [] else Padded([], sx, sx, bg), 0, false)
  }

  /** What an emptied row shows: no cells with a default background, and otherwise the width
      of the grid in spaces of that background, in no other colour or attribute; nothing of it
      counts as used, and it does not go on below. */
  predicate Emptied(v: View, sx: nat, bg: Colour) {
    && v.used == 0 && !v.wrapped
    && (if bg == Plain(8) || bg == Plain(9) then v.cells == [] else |v.cells| == sx)
    && forall i :: 0 <= i < |v.cells| ==> Space(v.cells[i], bg)
  }

  lemma BlankIsEmptied(sx: nat, bg: Colour)
    ensures Emptied(BlankView(sx, bg), sx, bg)
  {
    if !IsDefault(bg) {
      var cells := Padded([], sx, sx, bg);
      assert forall i :: 0 <= i < |cells| ==> cells[i] == Blank(bg, bg.Rgb?);
    }
  }

  function Unwrapped(vs: seq<View>, k: int): (r: seq<View>)
    ensures |r| == |vs|
    ensures forall i :: 0 <= i < |vs| ==> r[i] == if i == k then vs[i].(wrapped := false) else vs[i]
  {
    if 0 <= k < |vs| then vs[k := vs[k].(wrapped := false)] else vs
  }

  /** `ny` rows copied from `py` to `dy`; those left behind blank. */
  function Spliced(vs: seq<View>, dy: nat, py: nat, ny: nat, blank: View): (r: seq<View>)
    requires py + ny <= |vs| && dy + ny <= |vs|
    ensures |r| == |vs|
    ensures forall i :: 0 <= i < |vs| ==>
              r[i] == if dy <= i < dy + ny then vs[i - dy + py] else if py <= i < py + ny then blank else vs[i]
  {
    seq(|vs|, i requires 0 <= i < |vs| =>
      if dy <= i < dy + ny then vs[i - dy + py] else if py <= i < py + ny then blank else vs[i])
  }

  /** grid_move_lines on what the rows show. */
  function MovedLines(vs: seq<View>, dy: nat, py: nat, ny: nat, blank: View): (r: seq<View>)
    ensures |r| == |vs|
  {
    if ny == 0 || py == dy || py + ny > |vs| || dy + ny > |vs| then vs
    else
      var r := Spliced(Unwrapped(vs, dy - 1), dy, py, ny, blank);
      if py < dy || py >= dy + ny then Unwrapped(r, py - 1) else r
  }

  /** grid_clear_lines on what the rows show: the end of the range is computed in 32 bits. */
  function ClearedLines(vs: seq<View>, py: nat, ny: nat, blank: View): (r: seq<View>)
    ensures |r| == |vs|
  {
    if ny == 0 || py >= |vs| || (py + ny - 1) % U32 >= |vs| then vs
    else
      Unwrapped(Blanked(vs, py, (py + ny) % U32, blank), py - 1)
  }

  /** The rows from `from` up to `to` emptied. */
  function Blanked(vs: seq<View>, from: nat, to: nat, blank: View): (r: seq<View>)
    ensures |r| == |vs|
    ensures forall i :: 0 <= i < |vs| ==> r[i] == if from <= i < to then blank else vs[i]
  {
    seq(|vs|, i requires 0 <= i < |vs| => if from <= i < to then blank else vs[i])
  }

  /** grid_free_line: the row's buffers are gone, so whoever still used it would see nothing. */
  method FreeLine(l: Line)
    modifies l
    ensures l.celldata == [] && l.extddata == []
  {
    l.celldata, l.extddata := [], [];
  }

  /** grid_empty_line: a new row, with cells only if the background is not the default. */
  method EmptyLine(sx: nat, bg: Colour) returns (l: Line)
    ensures fresh(l) && l.Valid() && ViewOf(l) == BlankView(sx, bg) && Emptied(ViewOf(l), sx, bg)
  {
    BlankIsEmptied(sx, bg);
    l := new Line();
    if !IsDefault(bg) {
      l.ExpandLine(sx, sx, bg);
    }
  }

  /** The loop of grid_move_lines that frees the rows about to be replaced. */
  method FreeReplaced(lines: seq<Line>, dy: nat, py: nat, ny: nat)
    requires Distinct(lines) && dy + ny <= |lines| && py + ny <= |lines|
    modifies lines
    ensures forall i :: 0 <= i < |lines| && !(dy <= i < dy + ny && !(py <= i < py + ny)) ==> unchanged(lines[i])
  {
    for yy := dy to dy + ny
      invariant forall i :: 0 <= i < |lines| && !(dy <= i < yy && !(py <= i < py + ny)) ==> unchanged(lines[i])
    {
      if py <= yy < py + ny {
        continue;
      }
      FreeLine(lines[yy]);
    }
  }

  /** Where the wiping loop of grid_move_lines has got to: the memmove has left two copies
      of some rows, and those at the old place are replaced up to `yy`. */
  ghost predicate Wiping(was: seq<Line>, now: seq<Line>, dy: nat, py: nat, ny: nat, yy: nat) {
    && dy + ny <= |was| == |now| && py + ny <= |was|
    && (forall i {:trigger now[i]} :: dy <= i < dy + ny ==> now[i] == was[i - dy + py])
    && (forall i {:trigger now[i]} :: 0 <= i < |was| && !(dy <= i < dy + ny) && !(py <= i < yy) ==> now[i] == was[i])
  }

  /** Taking the wrap flag off one row: the cells stay. */
  method UnwrapLine(lines: seq<Line>, k: int)
    requires -1 <= k < |lines| && Distinct(lines)
    modifies if 0 <= k < |lines| then {lines[k]} else {}
    ensures forall i :: 0 <= i < |lines| ==> lines[i].Valid() == old(lines[i].Valid())
    ensures ViewsOf(lines) == Unwrapped(old(ViewsOf(lines)), k)
  {
    hide SlotsOk, ReadAll;
    ghost var before := ViewsOf(lines);
    if k >= 0 {
      lines[k].wrapped := false;
    }
    assert forall i :: 0 <= i < |lines| ==> ViewOf(lines[i]) == Unwrapped(before, k)[i];
  }

  /** The wiping loop of grid_move_lines. */
  method WipeLines(gd: Grid, ghost was: seq<Line>, dy: nat, py: nat, ny: nat, bg: Colour)
    requires Wiping(was, gd.linedata, dy, py, ny, py)
    modifies gd`linedata
    ensures |gd.linedata| == |was|
    ensures Wiping(was, gd.linedata, dy, py, ny, py + ny)
    ensures forall i :: py <= i < py + ny && !(dy <= i < dy + ny) ==>
              fresh(gd.linedata[i]) && gd.linedata[i].Valid()
              && ViewOf(gd.linedata[i]) == BlankView(gd.sx, bg)
    ensures forall i, j :: py <= i < j < py + ny && !(dy <= i < dy + ny) && !(dy <= j < dy + ny) ==>
              gd.linedata[i] != gd.linedata[j]
  {
    hide SlotsOk, ViewOf, Line.Valid;
    for yy := py to py + ny
      invariant Wiping(was, gd.linedata, dy, py, ny, yy)
      invariant forall i :: py <= i < yy && !(dy <= i < dy + ny) ==>
                  fresh(gd.linedata[i]) && gd.linedata[i].Valid()
                  && ViewOf(gd.linedata[i]) == BlankView(gd.sx, bg)
      invariant forall i, j :: py <= i < j < yy && !(dy <= i < dy + ny) && !(dy <= j < dy + ny) ==>
                  gd.linedata[i] != gd.linedata[j]
    {
      if yy < dy || yy >= dy + ny {
        var l := EmptyLine(gd.sx, bg);
        gd.linedata := gd.linedata[yy := l];
      }
    }
  }

  /** The memmove and the wiping, once the replaced rows are freed: no row is in two
      places afterwards, and every row that moved or stayed is the same object. */
  method Shift(gd: Grid, dy: nat, py: nat, ny: nat, bg: Colour, ghost was: seq<Line>)
    requires was == gd.linedata && Distinct(was) && dy + ny <= |was| && py + ny <= |was|
    modifies gd`linedata
    ensures |gd.linedata| == |was| && Distinct(gd.linedata)
    ensures Wiping(was, gd.linedata, dy, py, ny, py + ny)
    ensures forall i :: py <= i < py + ny && !(dy <= i < dy + ny) ==>
              fresh(gd.linedata[i]) && gd.linedata[i].Valid()
              && ViewOf(gd.linedata[i]) == BlankView(gd.sx, bg)
  {
    hide SlotsOk, ViewOf, Line.Valid;
    gd.linedata := gd.linedata[..dy] + gd.linedata[py..py + ny] + gd.linedata[dy + ny..];
    WipeLines(gd, was, dy, py, ny, bg);
    ghost var now := gd.linedata;
    forall i, j | 0 <= i < j < |now|
      ensures now[i] != now[j]
    {
      var oi, oj := dy <= i < dy + ny, dy <= j < dy + ny;
      var wi, wj := !oi && py <= i < py + ny, !oj && py <= j < py + ny;
    }
  }

  /** The views after a shift, from those of the rows that were kept. */
  lemma ShiftedViews(was: seq<Line>, now: seq<Line>, vs: seq<View>, dy: nat, py: nat, ny: nat, blank: View)
    requires Wiping(was, now, dy, py, ny, py + ny) && |vs| == |was|
    requires forall i :: 0 <= i < |was| && !(dy <= i < dy + ny && !(py <= i < py + ny)) ==> ViewOf(was[i]) == vs[i]
    requires forall i :: py <= i < py + ny && !(dy <= i < dy + ny) ==> ViewOf(now[i]) == blank
    ensures ViewsOf(now) == Spliced(vs, dy, py, ny, blank)
  {
    hide ViewOf;
  }

  lemma ShiftedAt(was: seq<Line>, now: seq<Line>, dy: nat, py: nat, ny: nat, i: nat)
    requires Wiping(was, now, dy, py, ny, py + ny) && i < |now|
    ensures now[i] in was || (py <= i < py + ny && !(dy <= i < dy + ny))
  {
  }

  lemma ShiftedValid(was: seq<Line>, now: seq<Line>, dy: nat, py: nat, ny: nat)
    requires Wiping(was, now, dy, py, ny, py + ny)
    requires forall i :: 0 <= i < |was| && !(dy <= i < dy + ny && !(py <= i < py + ny)) ==> was[i].Valid()
    requires forall i :: py <= i < py + ny && !(dy <= i < dy + ny) ==> now[i].Valid()
    ensures AllValid(now)
  {
    hide Line.Valid;
  }

  /** Freeing the replaced rows and unwrapping the row above leaves every other row. */
  method PrepareMove(lines: seq<Line>, dy: nat, py: nat, ny: nat)
    requires Distinct(lines) && AllValid(lines) && dy + ny <= |lines| && py + ny <= |lines|
    modifies lines
    ensures forall i :: 0 <= i < |lines| && !(dy <= i < dy + ny && !(py <= i < py + ny)) ==>
              ViewOf(lines[i]) == Unwrapped(old(ViewsOf(lines)), dy - 1)[i] && lines[i].Valid()
  {
    hide SlotsOk, ReadAll;
    ghost var vs := ViewsOf(lines);
    assert forall i :: 0 <= i < |lines| ==> vs[i] == ViewOf(lines[i]);
    FreeReplaced(lines, dy, py, ny);
    ghost var freed := ViewsOf(lines);
    UnwrapLine(lines, dy - 1);
    assert forall i :: 0 <= i < |lines| ==> ViewsOf(lines)[i] == ViewOf(lines[i]);
  }

  /** Rows in use, and rows beyond them that a smaller history has left allocated. */
  lemma ViewsOfLines(gd: Grid)
    requires gd.hsize + gd.sy <= |gd.linedata|
    ensures ViewsOf(gd.Lines()) == ViewsOf(gd.linedata)[..gd.hsize + gd.sy]
  {
    hide ViewOf;
  }

  /** What grid_move_lines does once its arguments are in range. */
  method MoveInRange(gd: Grid, dy: nat, py: nat, ny: nat, bg: Colour)
    requires gd.Valid() && dy + ny <= |gd.linedata| && py + ny <= |gd.linedata|
    modifies gd`linedata, gd.linedata
    ensures gd.Valid() && |gd.linedata| == old(|gd.linedata|)
    ensures ViewsOf(gd.linedata)
            == Spliced(Unwrapped(old(ViewsOf(gd.linedata)), dy - 1), dy, py, ny, BlankView(gd.sx, bg))
    ensures forall i :: 0 <= i < |gd.linedata| ==> gd.linedata[i] in old(gd.linedata) || fresh(gd.linedata[i])
  {
    hide SlotsOk, ReadAll, ViewOf, ViewsOf, Line.Valid, Spliced, Unwrapped;
    ghost var was, vs := gd.linedata, ViewsOf(gd.linedata);
    PrepareMove(gd.linedata, dy, py, ny);
    Shift(gd, dy, py, ny, bg, was);
    ShiftedValid(was, gd.linedata, dy, py, ny);
    ghost var now := gd.linedata;
    forall i | 0 <= i < |now|
      ensures now[i] in was || fresh(now[i])
    {
      ShiftedAt(was, now, dy, py, ny, i);
    }
    hide Wiping, Distinct, AllValid;
    ShiftedViews(was, gd.linedata, Unwrapped(vs, dy - 1), dy, py, ny, BlankView(gd.sx, bg));
  }

  lemma SplicedPrefix(vs: seq<View>, n: nat, dy: nat, py: nat, ny: nat, blank: View)
    requires py + ny <= n <= |vs| && dy + ny <= n
    ensures Spliced(Unwrapped(vs, dy - 1), dy, py, ny, blank)[..n]
            == Spliced(Unwrapped(vs[..n], dy - 1), dy, py, ny, blank)
  {
  }

  lemma UnwrappedPrefix(vs: seq<View>, n: nat, k: int)
    requires n <= |vs|
    ensures Unwrapped(vs, k)[..n] == Unwrapped(vs[..n], k)
  {
  }

  /** Taking a wrap flag off one of the grid's rows. */
  method UnwrapRow(gd: Grid, k: int)
    requires gd.Valid() && -1 <= k < |gd.linedata|
    modifies gd.linedata
    ensures gd.Valid() && ViewsOf(gd.linedata) == Unwrapped(old(ViewsOf(gd.linedata)), k)
  {
    hide SlotsOk, ReadAll, ViewOf, Line.Valid;
    UnwrapLine(gd.linedata, k);
  }

  /** The two range checks grid_move_lines makes for each of its ranges, in 32 bits. */
  method RangeOut(gd: Grid, py: nat, ny: nat) returns (out: bool)
    requires gd.hsize + gd.sy < U32 && 0 < ny && py + ny <= U32
    ensures out <==> py + ny > gd.hsize + gd.sy
  {
    out := py >= gd.hsize + gd.sy || (py + ny - 1) % U32 >= gd.hsize + gd.sy;
  }

  lemma MovedPrefix(vs: seq<View>, n: nat, dy: nat, py: nat, ny: nat, blank: View)
    requires py + ny <= n <= |vs| && dy + ny <= n && ny != 0 && py != dy
    ensures var r := Spliced(Unwrapped(vs, dy - 1), dy, py, ny, blank);
            MovedLines(vs[..n], dy, py, ny, blank)
            == (if py < dy || py >= dy + ny then Unwrapped(r, py - 1) else r)[..n]
  {
    SplicedPrefix(vs, n, dy, py, ny, blank);
    UnwrappedPrefix(Spliced(Unwrapped(vs, dy - 1), dy, py, ny, blank), n, py - 1);
  }

  /** grid_move_lines after its checks. */
  method MoveChecked(gd: Grid, dy: nat, py: nat, ny: nat, bg: Colour)
    requires gd.Valid() && ny != 0 && py != dy
    requires py + ny <= gd.hsize + gd.sy && dy + ny <= gd.hsize + gd.sy
    modifies gd`linedata, gd.linedata
    ensures gd.Valid() && |gd.linedata| == old(|gd.linedata|)
    ensures ViewsOf(gd.linedata)[..gd.hsize + gd.sy]
            == MovedLines(old(ViewsOf(gd.linedata))[..gd.hsize + gd.sy], dy, py, ny, BlankView(gd.sx, bg))
    ensures forall i :: 0 <= i < |gd.linedata| ==> gd.linedata[i] in old(gd.linedata) || fresh(gd.linedata[i])
  {
    hide SlotsOk, ReadAll, ViewOf, Line.Valid, ViewsOf, Spliced, Unwrapped, MovedLines;
    ghost var n, vs := gd.hsize + gd.sy, ViewsOf(gd.linedata);
    MovedPrefix(vs, n, dy, py, ny, BlankView(gd.sx, bg));
    MoveInRange(gd, dy, py, ny, bg);
    if py != 0 && (py < dy || py >= dy + ny) {
      UnwrapRow(gd, py - 1);
    } else {
      UnwrappedNone(ViewsOf(gd.linedata));
    }
  }

  lemma UnwrappedNone(vs: seq<View>)
    ensures Unwrapped(vs, -1) == vs
  {
  }

  /** The rows left behind by a move are emptied ones. */
  lemma MovedEmpties(vs: seq<View>, dy: nat, py: nat, ny: nat, sx: nat, bg: Colour)
    ensures py != dy && py + ny <= |vs| && dy + ny <= |vs| ==>
              forall i :: py <= i < py + ny && !(dy <= i < dy + ny) ==>
                Emptied(MovedLines(vs, dy, py, ny, BlankView(sx, bg))[i], sx, bg)
    ensures ny == 0 || py == dy || py + ny > |vs| || dy + ny > |vs| ==> MovedLines(vs, dy, py, ny, BlankView(sx, bg)) == vs
  {
    BlankIsEmptied(sx, bg);
  }

  /** What a move does to a row and its wrap flag: the row above the new place is unwrapped
      before it moves, if it moves too, and the row above the old place at the end, unless rows
      were moved there. */
  lemma MovedRow(vs: seq<View>, dy: nat, py: nat, ny: nat, sx: nat, bg: Colour, i: nat)
    requires i < |vs| && ny != 0 && py != dy && py + ny <= |vs| && dy + ny <= |vs|
    ensures var r := MovedLines(vs, dy, py, ny, BlankView(sx, bg))[i];
            var at := if dy <= i < dy + ny then i - dy + py else i;
            var above := i == py - 1 && (py < dy || dy + ny <= py);
            if py <= i < py + ny && !(dy <= i < dy + ny) then Emptied(r, sx, bg)
            else r.cells == vs[at].cells && r.used == vs[at].used && (r.wrapped <==> vs[at].wrapped && at != dy - 1 && !above)
  {
    BlankIsEmptied(sx, bg);
  }

  /** So nothing is wrapped onto the rows moved, or onto those left empty. */
  lemma MovedUnwraps(vs: seq<View>, dy: nat, py: nat, ny: nat, sx: nat, bg: Colour)
    requires ny != 0 && py != dy && py + ny <= |vs| && dy + ny <= |vs|
    ensures var r := MovedLines(vs, dy, py, ny, BlankView(sx, bg));
            (dy > 0 ==> !r[dy - 1].wrapped) && (py > 0 && (py < dy || dy + ny <= py) ==> !r[py - 1].wrapped)
  {
    if dy > 0 {
      MovedRow(vs, dy, py, ny, sx, bg, dy - 1);
    }
    if py > 0 {
      MovedRow(vs, dy, py, ny, sx, bg, py - 1);
    }
  }

  /** And a wrapped row that moves together with the row below it goes on in it afterwards
      exactly when it was not the row above the new place: three rows moved down by one, the
      first of them wrapped, make two lines of one. */
  lemma MovedGoesOn(vs: seq<View>, dy: nat, py: nat, ny: nat, sx: nat, bg: Colour, i: nat)
    requires py != dy && py + ny <= |vs| && dy + ny <= |vs| && i + 1 < ny && vs[py + i].wrapped
    ensures MovedLines(vs, dy, py, ny, BlankView(sx, bg))[dy + i].wrapped <==> py + i != dy - 1
  {
    MovedRow(vs, dy, py, ny, sx, bg, dy + i);
  }

  lemma MovedBreaks(a: View, b: View, c: View, d: View, sx: nat, bg: Colour)
    requires a.wrapped
    ensures var r := MovedLines([a, b, c, d], 1, 0, 3, BlankView(sx, bg));
            r[1].cells == a.cells && r[2].cells == b.cells && !r[1].wrapped
  {
    MovedRow([a, b, c, d], 1, 0, 3, sx, bg, 1);
    MovedRow([a, b, c, d], 1, 0, 3, sx, bg, 2);
  }

  /** A clear in range leaves every other row as it was, but for the wrap of the row above. */
  lemma ClearedRow(vs: seq<View>, py: nat, ny: nat, sx: nat, bg: Colour, i: nat)
    requires i < |vs| < U32 && 0 < ny && py + ny <= |vs|
    ensures var r := ClearedLines(vs, py, ny, BlankView(sx, bg))[i];
            if py <= i < py + ny then Emptied(r, sx, bg)
            else r.cells == vs[i].cells && r.used == vs[i].used && (r.wrapped <==> vs[i].wrapped && i != py - 1)
  {
    BlankIsEmptied(sx, bg);
  }

  /** And so are those a clear names. */
  lemma ClearedEmpties(vs: seq<View>, py: nat, ny: nat, sx: nat, bg: Colour)
    ensures 0 < ny && py + ny <= |vs| < U32 ==>
              forall i :: py <= i < py + ny ==> Emptied(ClearedLines(vs, py, ny, BlankView(sx, bg))[i], sx, bg)
  {
    hide ClearedLines, BlankView, Emptied;
    if 0 < ny && py + ny <= |vs| < U32 {
      forall i | py <= i < py + ny
        ensures Emptied(ClearedLines(vs, py, ny, BlankView(sx, bg))[i], sx, bg)
      {
        ClearedRow(vs, py, ny, sx, bg, i);
      }
    }
  }

  /** grid_move_lines. Its range checks are done in 32 bits, which is exact as long as
      the ranges themselves do not pass the end of the address space. */
  method MoveLines(gd: Grid, dy: nat, py: nat, ny: nat, bg: Colour)
    requires gd.Valid() && gd.hsize + gd.sy < U32 && py + ny <= U32 && dy + ny <= U32
    modifies gd`linedata, gd.linedata
    ensures gd.Valid() && |gd.linedata| == old(|gd.linedata|)
    ensures ViewsOf(gd.Lines()) == MovedLines(old(ViewsOf(gd.Lines())), dy, py, ny, BlankView(gd.sx, bg))
    ensures py != dy && py + ny <= gd.hsize + gd.sy && dy + ny <= gd.hsize + gd.sy ==>
              forall i :: py <= i < py + ny && !(dy <= i < dy + ny) ==> Emptied(ViewsOf(gd.Lines())[i], gd.sx, bg)
    ensures ny != 0 && py != dy && py + ny <= gd.hsize + gd.sy && dy + ny <= gd.hsize + gd.sy ==>
              var r := ViewsOf(gd.Lines());
              (dy > 0 ==> !r[dy - 1].wrapped) && (py > 0 && (py < dy || dy + ny <= py) ==> !r[py - 1].wrapped)
    ensures forall i :: 0 <= i < |gd.linedata| ==> gd.linedata[i] in old(gd.linedata) || fresh(gd.linedata[i])
  {
    hide ViewsOf, ViewOf, Line.Valid, SlotsOk, ReadAll, Distinct, AllValid, MovedLines, Emptied, BlankView;
    ghost var vs := ViewsOf(gd.Lines());
    MovedEmpties(vs, dy, py, ny, gd.sx, bg);
    if ny != 0 && py != dy && py + ny <= |vs| && dy + ny <= |vs| {
      MovedUnwraps(vs, dy, py, ny, gd.sx, bg);
    }
    if ny == 0 || py == dy {
      return;
    }
    var out := RangeOut(gd, py, ny);
    if !out {
      out := RangeOut(gd, dy, ny);
    }
    if out {
      return;
    }
    ViewsOfLines(gd);
    MoveChecked(gd, dy, py, ny, bg);
    ViewsOfLines(gd);
  }

  /** One turn of the loop of grid_clear_lines: the old buffers are freed, the row is new. */
  method ClearLine(gd: Grid, yy: nat, bg: Colour)
    requires gd.Valid() && yy < |gd.linedata|
    modifies gd`linedata, gd.linedata[yy]
    ensures gd.Valid() && |gd.linedata| == old(|gd.linedata|)
    ensures ViewsOf(gd.linedata) == old(ViewsOf(gd.linedata))[yy := BlankView(gd.sx, bg)]
    ensures gd.linedata == old(gd.linedata)[yy := gd.linedata[yy]] && fresh(gd.linedata[yy])
  {
    hide SlotsOk, ReadAll, ViewOf, Line.Valid;
    ghost var was, vs := gd.linedata, ViewsOf(gd.linedata);
    FreeLine(gd.linedata[yy]);
    var l := EmptyLine(gd.sx, bg);
    DistinctUpdate(gd.linedata, yy, l);
    gd.linedata := gd.linedata[yy := l];
    assert forall i :: 0 <= i < |was| && i != yy ==> ViewOf(was[i]) == vs[i] && was[i] != was[yy];
  }

  /** The loop of grid_clear_lines. */
  method ClearLoop(gd: Grid, py: nat, end: nat, bg: Colour)
    requires gd.Valid() && end <= |gd.linedata|
    modifies gd`linedata, gd.linedata
    ensures gd.Valid() && |gd.linedata| == old(|gd.linedata|)
    ensures ViewsOf(gd.linedata) == Blanked(old(ViewsOf(gd.linedata)), py, end, BlankView(gd.sx, bg))
    ensures forall i :: 0 <= i < |gd.linedata| ==> gd.linedata[i] in old(gd.linedata) || fresh(gd.linedata[i])
  {
    hide SlotsOk, ReadAll, ViewOf, Line.Valid, ViewsOf, Distinct, AllValid;
    ghost var vs := ViewsOf(gd.linedata);
    var yy := py;
    assert Blanked(vs, py, py, BlankView(gd.sx, bg)) == vs;
    while yy < end
      invariant gd.Valid() && |gd.linedata| == |vs| && py <= yy && (yy <= end || yy == py)
      invariant ViewsOf(gd.linedata) == Blanked(vs, py, yy, BlankView(gd.sx, bg))
      invariant forall i :: 0 <= i < |gd.linedata| ==> gd.linedata[i] in old(gd.linedata) || fresh(gd.linedata[i])
    {
      ClearLine(gd, yy, bg);
      assert Blanked(vs, py, yy, BlankView(gd.sx, bg))[yy := BlankView(gd.sx, bg)]
          == Blanked(vs, py, yy + 1, BlankView(gd.sx, bg));
      yy := yy + 1;
    }
    assert Blanked(vs, py, yy, BlankView(gd.sx, bg)) == Blanked(vs, py, end, BlankView(gd.sx, bg));
  }

  /** grid_clear_lines, also when the range wraps around in 32 bits: the loop then does
      nothing, and only the row above loses its wrap flag. */
  method ClearLines(gd: Grid, py: nat, ny: nat, bg: Colour)
    requires gd.Valid() && gd.hsize + gd.sy < U32
    modifies gd`linedata, gd.linedata
    ensures gd.Valid() && |gd.linedata| == old(|gd.linedata|)
    ensures ViewsOf(gd.Lines()) == ClearedLines(old(ViewsOf(gd.Lines())), py, ny, BlankView(gd.sx, bg))
    ensures py + ny <= gd.hsize + gd.sy ==>
              forall i :: py <= i < py + ny ==> Emptied(ViewsOf(gd.Lines())[i], gd.sx, bg)
    ensures 0 < py && 0 < ny && py + ny <= gd.hsize + gd.sy ==> !ViewsOf(gd.Lines())[py - 1].wrapped
    ensures forall i :: 0 <= i < |gd.linedata| ==> gd.linedata[i] in old(gd.linedata) || fresh(gd.linedata[i])
  {
    hide SlotsOk, ReadAll, ViewOf, Line.Valid, ViewsOf, Distinct, AllValid, ClearedLines, Emptied, BlankView;
    ghost var vs := ViewsOf(gd.Lines());
    ClearedEmpties(vs, py, ny, gd.sx, bg);
    if 0 < py && 0 < ny && py + ny <= |vs| {
      ClearedRow(vs, py, ny, gd.sx, bg, py - 1);
    }
    if ny == 0 || py >= gd.hsize + gd.sy || (py + ny - 1) % U32 >= gd.hsize + gd.sy {
      ClearedNone(vs, py, ny, BlankView(gd.sx, bg));
      return;
    }
    ClearChecked(gd, py, ny, bg);
  }

  lemma ClearedNone(vs: seq<View>, py: nat, ny: nat, blank: View)
    requires ny == 0 || py >= |vs| || (py + ny - 1) % U32 >= |vs|
    ensures ClearedLines(vs, py, ny, blank) == vs
  {
  }

  /** grid_clear_lines after its checks. */
  method ClearChecked(gd: Grid, py: nat, ny: nat, bg: Colour)
    requires gd.Valid() && gd.hsize + gd.sy < U32
    requires ny != 0 && py < gd.hsize + gd.sy && (py + ny - 1) % U32 < gd.hsize + gd.sy
    modifies gd`linedata, gd.linedata
    ensures gd.Valid() && |gd.linedata| == old(|gd.linedata|)
    ensures ViewsOf(gd.Lines()) == ClearedLines(old(ViewsOf(gd.Lines())), py, ny, BlankView(gd.sx, bg))
    ensures forall i :: 0 <= i < |gd.linedata| ==> gd.linedata[i] in old(gd.linedata) || fresh(gd.linedata[i])
  {
    hide SlotsOk, ReadAll, ViewOf, Line.Valid, ViewsOf, Distinct, AllValid, Unwrapped, Blanked, BlankView;
    ghost var n, vs := gd.hsize + gd.sy, ViewsOf(gd.linedata);
    ghost var blank := BlankView(gd.sx, bg);
    var end := (py + ny) % U32;
    EndInRange(py, ny, n);
    ViewsOfLines(gd);
    ClearLoop(gd, py, end, bg);
    if py != 0 {
      UnwrapRow(gd, py - 1);
    } else {
      UnwrappedNone(ViewsOf(gd.linedata));
    }
    BlankedPrefix(vs, n, py, end, blank);
    UnwrappedPrefix(Blanked(vs, py, end, blank), n, py - 1);
    ViewsOfLines(gd);
  }

  lemma EndInRange(py: nat, ny: nat, n: nat)
    requires 0 < ny && (py + ny - 1) % U32 < n < U32
    ensures (py + ny) % U32 == (py + ny - 1) % U32 + 1 <= n
  {
  }

  lemma BlankedPrefix(vs: seq<View>, n: nat, from: nat, to: nat, blank: View)
    requires n <= |vs|
    ensures Blanked(vs, from, to, blank)[..n] == Blanked(vs[..n], from, to, blank)
  {
  }
}

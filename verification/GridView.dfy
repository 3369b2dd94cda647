/** Operations on the screen part of a grid: inserting and deleting rows, and scrolling
    with or without history (grid-view.c, grid.c). */
module GridView {
  import opened GridCells
  import opened GridLines
  import opened Grids
  import opened GridMove

  /** What the rows show, wrap flags aside. */
  function Bare(vs: seq<View>): (r: seq<View>)
    ensures |r| == |vs|
    ensures forall i :: 0 <= i < |vs| ==> r[i] == vs[i].(wrapped := false)
  {
    seq(|vs|, i requires 0 <= i < |vs| => vs[i].(wrapped := false))
  }

  function Repeat(v: View, n: nat): (r: seq<View>)
    ensures |r| == n
    ensures forall i :: 0 <= i < n ==> r[i] == v
  {
    seq(n, _ => v)
  }

  /** `ny` blank rows pushed in at `py`: the `m` rows from there on move down, and those
      that no longer fit are gone. */
  function Inserted(vs: seq<View>, py: nat, m: nat, ny: nat, blank: View): seq<View>
    requires py + m <= |vs| && ny <= m
  {
    vs[..py] + Repeat(blank, ny) + vs[py..py + m - ny] + vs[py + m..]
  }

  /** `ny` rows taken out at `py`: the rest of the `m` rows move up, blank rows follow. */
  function Deleted(vs: seq<View>, py: nat, m: nat, ny: nat, blank: View): seq<View>
    requires py + m <= |vs| && ny <= m
  {
    vs[..py] + vs[py + ny..py + m] + Repeat(blank, ny) + vs[py + m..]
  }

  /** Inserting and then deleting the same number of rows gives back the rows that
      survived, with blank rows where the others were. */
  lemma DeleteAfterInsert(vs: seq<View>, py: nat, m: nat, ny: nat, blank: View)
    requires py + m <= |vs| && ny <= m
    ensures Deleted(Inserted(vs, py, m, ny, blank), py, m, ny, blank)
            == vs[..py] + vs[py..py + m - ny] + Repeat(blank, ny) + vs[py + m..]
  {
    var a := Inserted(vs, py, m, ny, blank);
    assert a[..py] == vs[..py] && a[py + ny..py + m] == vs[py..py + m - ny] && a[py + m..] == vs[py + m..];
  }

  lemma InsertAfterDelete(vs: seq<View>, py: nat, m: nat, ny: nat, blank: View)
    requires py + m <= |vs| && ny <= m
    ensures Inserted(Deleted(vs, py, m, ny, blank), py, m, ny, blank)
            == vs[..py] + Repeat(blank, ny) + vs[py + ny..py + m] + vs[py + m..]
  {
    var a := Deleted(vs, py, m, ny, blank);
    assert a[..py] == vs[..py] && a[py..py + m - ny] == vs[py + ny..py + m] && a[py + m..] == vs[py + m..];
  }

  /** What grid_view_insert_lines_region does to the rows, for every count that fits the
      region, whether or not `ny - ny2` wraps around. */
  lemma InsertIsSplice(vs: seq<View>, py: nat, m: nat, ny: nat, blank: View)
    requires py + m <= |vs| < U32 && ny <= m && !blank.wrapped
    ensures var moved := MovedLines(vs, py + ny, py, m - ny, blank);
            Bare(ClearedLines(moved, py + m - ny, (ny - (m - ny)) % U32, blank))
            == Inserted(Bare(vs), py, m, ny, blank)
  {
    hide MovedLines, ClearedLines, Inserted;
    var ny2 := m - ny;
    var moved := MovedLines(vs, py + ny, py, ny2, blank);
    var r := ClearedLines(moved, py + ny2, (ny - ny2) % U32, blank);
    var want := Inserted(Bare(vs), py, m, ny, blank);
    InsertedLength(Bare(vs), py, m, ny, blank);
    forall i | 0 <= i < |vs|
      ensures Bare(r)[i] == want[i]
    {
      ClearedAt(moved, py, ny2, ny, blank, i);
      MovedAt(vs, py + ny, py, ny2, blank, i);
      InsertedAt(Bare(vs), py, m, ny, blank, i);
    }
  }

  lemma InsertedLength(vs: seq<View>, py: nat, m: nat, ny: nat, blank: View)
    requires py + m <= |vs| && ny <= m
    ensures |Inserted(vs, py, m, ny, blank)| == |vs| && |Deleted(vs, py, m, ny, blank)| == |vs|
  {
  }

  lemma InsertedAt(vs: seq<View>, py: nat, m: nat, ny: nat, blank: View, i: nat)
    requires py + m <= |vs| && ny <= m && i < |vs|
    ensures |Inserted(vs, py, m, ny, blank)| == |vs|
    ensures Inserted(vs, py, m, ny, blank)[i]
            == if py <= i < py + ny then blank else if py + ny <= i < py + m then vs[i - ny] else vs[i]
  {
  }

  lemma DeletedAt(vs: seq<View>, py: nat, m: nat, ny: nat, blank: View, i: nat)
    requires py + m <= |vs| && ny <= m && i < |vs|
    ensures |Deleted(vs, py, m, ny, blank)| == |vs|
    ensures Deleted(vs, py, m, ny, blank)[i]
            == if py <= i < py + m - ny then vs[i + ny] else if py + m - ny <= i < py + m then blank else vs[i]
  {
  }

  /** The same for grid_view_delete_lines_region. */
  lemma DeleteIsSplice(vs: seq<View>, py: nat, m: nat, ny: nat, blank: View)
    requires py + m <= |vs| < U32 && ny <= m && !blank.wrapped
    ensures var moved := MovedLines(vs, py, py + ny, m - ny, blank);
            Bare(ClearedLines(moved, py + m - ny, (ny - (m - ny)) % U32, blank))
            == Deleted(Bare(vs), py, m, ny, blank)
  {
    hide MovedLines, ClearedLines, Deleted;
    var ny2 := m - ny;
    var moved := MovedLines(vs, py, py + ny, ny2, blank);
    var r := ClearedLines(moved, py + ny2, (ny - ny2) % U32, blank);
    var want := Deleted(Bare(vs), py, m, ny, blank);
    InsertedLength(Bare(vs), py, m, ny, blank);
    forall i | 0 <= i < |vs|
      ensures Bare(r)[i] == want[i]
    {
      ClearedAt(moved, py, ny2, ny, blank, i);
      MovedAt(vs, py, py + ny, ny2, blank, i);
      DeletedAt(Bare(vs), py, m, ny, blank, i);
    }
  }

  /** The row of a clear whose count is `ny - ny2` in 32 bits: exactly the rows from
      `py + ny2` to `py + ny` are emptied, which is none of them if that is not ahead. */
  lemma ClearedAt(vs: seq<View>, py: nat, ny2: nat, ny: nat, blank: View, i: nat)
    requires i < |vs| < U32 && py + ny2 <= |vs| && py + ny <= |vs| && !blank.wrapped
    ensures ClearedLines(vs, py + ny2, (ny - ny2) % U32, blank)[i].(wrapped := false)
            == if py + ny2 <= i < py + ny then blank else vs[i].(wrapped := false)
  {
    var n := (ny - ny2) % U32;
    if ny < ny2 {
      assert n == ny - ny2 + U32;
      assert (py + ny2 + n) % U32 == py + ny;
    }
  }

  lemma MovedAt(vs: seq<View>, dy: nat, py: nat, ny: nat, blank: View, i: nat)
    requires i < |vs| && py + ny <= |vs| && dy + ny <= |vs| && !blank.wrapped
    ensures MovedLines(vs, dy, py, ny, blank)[i].(wrapped := false)
            == if dy <= i < dy + ny then vs[i - dy + py].(wrapped := false)
               else if py <= i < py + ny && py != dy then blank
               else vs[i].(wrapped := false)
  {
  }

  /** Emptying whole rows: grid_clear over the full width. */
  method ClearRows(gd: Grid, py: nat, ny: nat, bg: Colour)
    requires gd.Valid() && gd.hsize + gd.sy < U32 && gd.sx >= 1
    modifies gd`linedata, gd.linedata
    ensures gd.Valid() && |gd.linedata| == old(|gd.linedata|)
    ensures ViewsOf(gd.Lines()) == ClearedLines(old(ViewsOf(gd.Lines())), py, ny, BlankView(gd.sx, bg))
    ensures forall i :: 0 <= i < |gd.linedata| ==> gd.linedata[i] in old(gd.linedata) || fresh(gd.linedata[i])
  {
    if ny == 0 {
      return;
    }
    ClearLines(gd, py, ny, bg);
  }

  lemma Small(x: nat)
    requires x < U32
    ensures x % U32 == x
  {
  }

  /** Rows moved, and then some cleared. */
  method MoveThenClear(gd: Grid, dy: nat, py: nat, ny: nat, cy: nat, cn: nat, bg: Colour)
    requires gd.Valid() && gd.hsize + gd.sy < U32 && gd.sx >= 1 && py + ny <= U32 && dy + ny <= U32
    modifies gd`linedata, gd.linedata
    ensures gd.Valid()
    ensures var blank := BlankView(gd.sx, bg);
            ViewsOf(gd.Lines()) == ClearedLines(MovedLines(old(ViewsOf(gd.Lines())), dy, py, ny, blank), cy, cn, blank)
  {
    hide ViewsOf, MovedLines, ClearedLines, ViewOf, Distinct, AllValid, Line.Valid, Emptied, ReadAll, SlotsOk, Padded;
    MoveLines(gd, dy, py, ny, bg);
    ClearRows(gd, cy, cn, bg);
  }

  /** grid_view_insert_lines_region. Callers clamp the count to the region
      (screen-write.c). */
  method InsertLinesRegion(gd: Grid, rlower: nat, py: nat, ny: nat, bg: Colour)
    requires gd.Valid() && gd.hsize + gd.sy < U32 && gd.sx >= 1
    requires py <= rlower < gd.sy && ny <= rlower + 1 - py
    modifies gd`linedata, gd.linedata
    ensures gd.Valid()
    ensures Bare(ViewsOf(gd.Lines()))
            == Inserted(Bare(old(ViewsOf(gd.Lines()))), gd.hsize + py, rlower + 1 - py, ny, BlankView(gd.sx, bg))
  {
    hide ViewsOf, MovedLines, ClearedLines, Inserted, ViewOf, Distinct, AllValid, Line.Valid, Bare, Emptied, ReadAll, SlotsOk, Padded;
    ghost var vs := ViewsOf(gd.Lines());
    var lower, top := gd.hsize + rlower, gd.hsize + py;
    var ny2 := (lower + 1 - top - ny) % U32;
    Small(lower + 1 - top - ny);
    InsertIsSplice(vs, top, rlower + 1 - py, ny, BlankView(gd.sx, bg));
    MoveThenClear(gd, lower + 1 - ny2, top, ny2, top + ny2, (ny - ny2) % U32, bg);
  }

  /** grid_view_delete_lines_region */
  method DeleteLinesRegion(gd: Grid, rlower: nat, py: nat, ny: nat, bg: Colour)
    requires gd.Valid() && gd.hsize + gd.sy < U32 && gd.sx >= 1
    requires py <= rlower < gd.sy && ny <= rlower + 1 - py
    modifies gd`linedata, gd.linedata
    ensures gd.Valid()
    ensures Bare(ViewsOf(gd.Lines()))
            == Deleted(Bare(old(ViewsOf(gd.Lines()))), gd.hsize + py, rlower + 1 - py, ny, BlankView(gd.sx, bg))
  {
    hide ViewsOf, MovedLines, ClearedLines, Deleted, ViewOf, Distinct, AllValid, Line.Valid, Bare, Emptied, ReadAll, SlotsOk, Padded;
    ghost var vs := ViewsOf(gd.Lines());
    var lower, top := gd.hsize + rlower, gd.hsize + py;
    var ny2 := (lower + 1 - top - ny) % U32;
    Small(lower + 1 - top - ny);
    DeleteIsSplice(vs, top, rlower + 1 - py, ny, BlankView(gd.sx, bg));
    MoveThenClear(gd, top, top + ny, ny2, top + ny2, (ny - ny2) % U32, bg);
  }

  // ----- Without a clear after the move

  /** Moving rows down within `m` rows is an insertion exactly if every row that is
      neither moved nor moved onto was blank already: always when `2 * ny <= m`. */
  lemma MoveDownExact(vs: seq<View>, py: nat, m: nat, ny: nat, blank: View)
    requires py + m <= |vs| && ny <= m && !blank.wrapped
    ensures Bare(MovedLines(vs, py + ny, py, m - ny, blank)) == Inserted(Bare(vs), py, m, ny, blank)
            <==> forall i :: py + m - ny <= i < py + ny ==> Bare(vs)[i] == blank
  {
    hide MovedLines, Inserted;
    var r, want := Bare(MovedLines(vs, py + ny, py, m - ny, blank)), Inserted(Bare(vs), py, m, ny, blank);
    InsertedLength(Bare(vs), py, m, ny, blank);
    forall i | 0 <= i < |vs|
      ensures r[i] == want[i] <==> (py + m - ny <= i < py + ny ==> Bare(vs)[i] == blank)
    {
      MovedAt(vs, py + ny, py, m - ny, blank, i);
      InsertedAt(Bare(vs), py, m, ny, blank, i);
    }
    ExactAll(r, want, Bare(vs), py + m - ny, py + ny, blank);
  }

  lemma ExactAll(r: seq<View>, want: seq<View>, vs: seq<View>, lo: int, hi: int, blank: View)
    requires |r| == |want| == |vs| && 0 <= lo && hi <= |vs|
    requires forall i :: 0 <= i < |vs| ==> (r[i] == want[i] <==> (lo <= i < hi ==> vs[i] == blank))
    ensures r == want <==> forall i :: lo <= i < hi ==> vs[i] == blank
  {
  }

  /** Moving rows up within `m` rows is a deletion under the same condition. */
  lemma MoveUpExact(vs: seq<View>, py: nat, m: nat, ny: nat, blank: View)
    requires py + m <= |vs| && ny <= m && !blank.wrapped
    ensures Bare(MovedLines(vs, py, py + ny, m - ny, blank)) == Deleted(Bare(vs), py, m, ny, blank)
            <==> forall i :: py + m - ny <= i < py + ny ==> Bare(vs)[i] == blank
  {
    hide MovedLines, Deleted;
    var r, want := Bare(MovedLines(vs, py, py + ny, m - ny, blank)), Deleted(Bare(vs), py, m, ny, blank);
    InsertedLength(Bare(vs), py, m, ny, blank);
    forall i | 0 <= i < |vs|
      ensures r[i] == want[i] <==> (py + m - ny <= i < py + ny ==> Bare(vs)[i] == blank)
    {
      MovedAt(vs, py, py + ny, m - ny, blank, i);
      DeletedAt(Bare(vs), py, m, ny, blank, i);
    }
    ExactAll(r, want, Bare(vs), py + m - ny, py + ny, blank);
  }

  /** grid_view_insert_lines moves rows down but clears nothing: inserting more than half
      of the rows below leaves old rows where blank ones belong. */
  method InsertLines(gd: Grid, py: nat, ny: nat, bg: Colour)
    requires gd.Valid() && gd.hsize + gd.sy < U32 && py <= gd.sy && ny <= gd.sy - py
    modifies gd`linedata, gd.linedata
    ensures gd.Valid()
    ensures var vs, blank := old(ViewsOf(gd.Lines())), BlankView(gd.sx, bg);
            Bare(ViewsOf(gd.Lines())) == Inserted(Bare(vs), gd.hsize + py, gd.sy - py, ny, blank)
            <==> forall i :: gd.hsize + gd.sy - ny <= i < gd.hsize + py + ny ==> Bare(vs)[i] == blank
  {
    hide ViewsOf, MovedLines, Inserted, ViewOf, Distinct, AllValid, Line.Valid, Bare, Emptied, ReadAll, SlotsOk, Padded;
    var top, sy := gd.hsize + py, gd.hsize + gd.sy;
    MoveDownExact(ViewsOf(gd.Lines()), top, gd.sy - py, ny, BlankView(gd.sx, bg));
    MoveLines(gd, top + ny, top, sy - top - ny, bg);
  }

  lemma DeleteToEnd(vs: seq<View>, py: nat, ny: nat, blank: View)
    requires py + ny <= |vs| < U32 && !blank.wrapped
    ensures Bare(ClearedLines(MovedLines(vs, py, py + ny, |vs| - py - ny, blank), |vs| - ny, ny, blank))
            == Deleted(Bare(vs), py, |vs| - py, ny, blank)
  {
    hide MovedLines, ClearedLines, Deleted;
    var m := |vs| - py;
    var moved := MovedLines(vs, py, py + ny, m - ny, blank);
    var r, want := ClearedLines(moved, |vs| - ny, ny, blank), Deleted(Bare(vs), py, m, ny, blank);
    InsertedLength(Bare(vs), py, m, ny, blank);
    forall i | 0 <= i < |vs|
      ensures Bare(r)[i] == want[i]
    {
      ClearedAt(moved, |vs| - ny, 0, ny, blank, i);
      MovedAt(vs, py, py + ny, m - ny, blank, i);
      DeletedAt(Bare(vs), py, m, ny, blank, i);
    }
  }

  /** grid_view_delete_lines, which does clear the rows at the bottom. */
  method DeleteLines(gd: Grid, py: nat, ny: nat, bg: Colour)
    requires gd.Valid() && gd.hsize + gd.sy < U32 && gd.sx >= 1 && py <= gd.sy && ny <= gd.sy - py
    modifies gd`linedata, gd.linedata
    ensures gd.Valid()
    ensures Bare(ViewsOf(gd.Lines()))
            == Deleted(Bare(old(ViewsOf(gd.Lines()))), gd.hsize + py, gd.sy - py, ny, BlankView(gd.sx, bg))
  {
    hide ViewsOf, MovedLines, ClearedLines, Deleted, ViewOf, Distinct, AllValid, Line.Valid, Bare, Emptied, ReadAll, SlotsOk, Padded;
    var top, sy := gd.hsize + py, gd.hsize + gd.sy;
    DeleteToEnd(ViewsOf(gd.Lines()), top, ny, BlankView(gd.sx, bg));
    MoveThenClear(gd, top, top + ny, sy - top - ny, sy - ny, ny, bg);
  }

  /** grid_view_scroll_region_down: a blank row comes in at the top of the region, unless
      the region is a single row, which is left as it is. */
  method ScrollRegionDown(gd: Grid, rupper: nat, rlower: nat, bg: Colour)
    requires gd.Valid() && gd.hsize + gd.sy < U32 && rupper <= rlower < gd.sy
    modifies gd`linedata, gd.linedata
    ensures gd.Valid()
    ensures var vs, blank := old(ViewsOf(gd.Lines())), BlankView(gd.sx, bg);
            Bare(ViewsOf(gd.Lines())) == Inserted(Bare(vs), gd.hsize + rupper, rlower - rupper + 1, 1, blank)
            <==> rupper < rlower || Bare(vs)[gd.hsize + rupper] == blank
  {
    hide ViewsOf, MovedLines, Inserted, ViewOf, Distinct, AllValid, Line.Valid, Bare, Emptied, ReadAll, SlotsOk, Padded;
    var upper, lower := gd.hsize + rupper, gd.hsize + rlower;
    MoveDownExact(ViewsOf(gd.Lines()), upper, rlower - rupper + 1, 1, BlankView(gd.sx, bg));
    MoveLines(gd, upper + 1, upper, lower - upper, bg);
  }
}

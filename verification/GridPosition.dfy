/** The cursor across a reflow: grid_wrap_position, grid_unwrap_position (grid.c) and
    screen_reflow, which calls them around grid_reflow (screen.c). */
module GridPosition {
  import opened GridCells
  import opened GridLines
  import opened ReflowRows
  import opened ReflowLines
  import opened ReflowTurns
  import opened ReflowKept
  import opened ReflowPosition
  import opened ReflowCursor
  import opened Grids
  import opened GridReflow

  /** grid_wrap_position */
  method WrapPosition(gd: Grid, px: nat, py: nat) returns (wx: nat, wy: nat)
    requires gd.Valid() && py < gd.hsize + gd.sy
    ensures (wx, wy) == Wrap(RowsOf(gd.Lines()), px, py)
  {
    hide SlotsOk, StripAll, RowOf;
    ghost var rows := RowsOf(gd.Lines());
    var ax, ay := 0, 0;
    for yy := 0 to py
      invariant (ax, ay) == LineAbove(rows, yy)
    {
      LineAt(gd, yy);
      if gd.linedata[yy].wrapped {
        ax := ax + gd.linedata[yy].cellused;
      } else {
        ax, ay := 0, ay + 1;
      }
    }
    LineAt(gd, py);
    wx := if px >= gd.linedata[py].cellused then UINT_MAX else ax + px;
    wy := ay;
  }

  lemma LinesValid(gd: Grid)
    requires gd.Valid()
    ensures AllValid(gd.Lines())
  {
  }

  lemma LineAt(gd: Grid, yy: nat)
    requires gd.Valid() && yy < gd.hsize + gd.sy
    ensures RowsOf(gd.Lines())[yy].wrapped == gd.linedata[yy].wrapped
    ensures |RowsOf(gd.Lines())[yy].cells| == gd.linedata[yy].cellused
  {
    assert gd.Lines()[yy] == gd.linedata[yy];
    RowLength(gd.linedata[yy]);
  }

  /** grid_unwrap_position, where its walks stay in the grid: they read the rows unchecked. */
  method UnwrapPosition(gd: Grid, wx: nat, wy: nat) returns (px: nat, py: nat)
    requires gd.Valid() && gd.hsize + gd.sy > 0 && Unwrap(RowsOf(gd.Lines()), wx, wy).At?
    ensures At(px, py) == Unwrap(RowsOf(gd.Lines()), wx, wy)
  {
    hide SlotsOk, StripAll, RowOf, RowsOf, AllValid, Distinct, Line.Valid;
    LinesValid(gd);
    ghost var rows := RowsOf(gd.Lines());
    var yy, ay, last := 0, 0, gd.hsize + gd.sy - 1;
    while yy < last && ay != wy
      invariant yy <= last && Seek(rows, wy, yy, ay) == Seek(rows, wy, 0, 0)
    {
      LineAt(gd, yy);
      if !gd.linedata[yy].wrapped {
        ay := ay + 1;
      }
      yy := yy + 1;
    }
    ghost var at := yy;
    LineAt(gd, yy);
    if wx == UINT_MAX {
      while gd.linedata[yy].wrapped
        invariant yy < |rows| && LineEnd(rows, yy) == LineEnd(rows, at)
        invariant rows[yy].wrapped == gd.linedata[yy].wrapped && |rows[yy].cells| == gd.linedata[yy].cellused
        decreases |rows| - yy
      {
        yy := yy + 1;
        LineAt(gd, yy);
      }
      px := gd.linedata[yy].cellused;
    } else {
      px := wx;
      while gd.linedata[yy].wrapped && px >= gd.linedata[yy].cellused
        invariant yy < |rows| && Walk(rows, px, yy) == Walk(rows, wx, at)
        invariant rows[yy].wrapped == gd.linedata[yy].wrapped && |rows[yy].cells| == gd.linedata[yy].cellused
        decreases |rows| - yy
      {
        px := px - gd.linedata[yy].cellused;
        yy := yy + 1;
        LineAt(gd, yy);
      }
    }
    py := yy;
  }

  /** Where the cursor was at (x, y) and is after a reflow. On a used cell, it is on the same
      cell exactly when no join ends a line before it; past them, it is at the end of the same
      text exactly when none does down to the end of its line. */
  ghost predicate Follows(rows: seq<Row>, x: nat, y: nat, sx: nat, after: seq<Row>, nx: nat, ny: nat) {
    && y < |rows|
    && if x < |rows[y].cells| then
         var o, c := Offset(rows, x, y), rows[y].cells[x];
         && (OnPlace(after, At(nx, ny), o) <==> StopsBefore(rows, sx, o) == 0)
         && (OnPlace(after, At(nx, ny), o) ==> after[ny].cells[nx] in {c, Copied(c, true), Copied(c, false)})
       else
         var a := DownTo(rows, y);
         var n := |Reflow(a, sx)|;
         && n <= |after| && |Flat(after[..n])| == |Flat(a)|
         && (At(nx, ny) == EndPlace(after, n, LineEnd(rows, y).At?)
             <==> Stops(a, sx, AtBlank) == 0 && Stops(a, sx, AtWide) == 0)
  }

  lemma CursorFollows(rows: seq<Row>, spares: seq<set<nat>>, x: nat, y: nat, sx: nat, sy: nat)
    requires |spares| == |rows| && |Flat(rows)| < UINT_MAX && y < |rows|
    ensures var after, w := KeptGrid(rows, spares, sx, sy), Wrap(rows, x, y);
            after != [] &&
            var p := Unwrap(after, w.0, w.1);
            p.At? ==> Follows(rows, x, y, sx, after, p.x, p.y)
  {
    hide KeptGrid, Wrap, Unwrap, Reflow, StopsBefore, Stops, OnPlace, Copied;
    var after, w := KeptGrid(rows, spares, sx, sy), Wrap(rows, x, y);
    if x < |rows[y].cells| {
      PositionSurvivesIff(rows, spares, x, y, sx, sy);
      var p := Unwrap(after, w.0, w.1);
      if OnPlace(after, p, Offset(rows, x, y)) {
        CellAt(rows, spares, x, y, sx, sy, p);
      }
    } else {
      EndSurvivesIff(rows, spares, x, y, sx, sy);
    }
  }

  /** screen_reflow: the grid is rewrapped, and the cursor taken to its new place or put at the
      start of the screen. */
  method ScreenReflow(gd: Grid, sx: nat, cx: nat, cy: nat, cursor: bool) returns (nx: nat, ny: nat)
    requires gd.Valid() && sx >= 1 && (forall l :: l in gd.Lines() ==> !l.dead)
    requires var rows := RowsOf(gd.Lines());
             cursor ==> cy < |rows| && StaysInside(rows, SparesOf(gd.Lines()), cx, cy, sx, gd.sy)
    modifies gd, gd.linedata
    ensures gd.Valid()
    ensures RowsOf(gd.Lines()) == KeptGrid(old(RowsOf(gd.Lines())), old(SparesOf(gd.Lines())), sx, gd.sy)
    ensures var rows := old(RowsOf(gd.Lines()));
            cursor && |Flat(rows)| < UINT_MAX ==> Follows(rows, cx, cy, sx, RowsOf(gd.Lines()), nx, ny)
    ensures !cursor ==> nx == 0 && ny == gd.hsize
  {
    hide SlotsOk, StripAll, RowOf, RowsOf, SpareOf, SparesOf, KeptGrid, Wrap, Unwrap, Follows;
    ghost var rows, spares := RowsOf(gd.Lines()), SparesOf(gd.Lines());
    var wx, wy := 0, 0;
    if cursor {
      wx, wy := WrapPosition(gd, cx, cy);
    }
    ReflowAll(gd, sx);
    if cursor {
      nx, ny := UnwrapPosition(gd, wx, wy);
      if |Flat(rows)| < UINT_MAX {
        CursorFollows(rows, spares, cx, cy, sx, gd.sy);
      }
    } else {
      nx, ny := 0, gd.hsize;
    }
  }

  /** The walk after a reflow ends in the grid. */
  predicate StaysInside(rows: seq<Row>, spares: seq<set<nat>>, x: nat, y: nat, sx: nat, sy: nat)
    requires |spares| == |rows| && y < |rows|
  {
    var after, w := KeptGrid(rows, spares, sx, sy), Wrap(rows, x, y);
    after != [] && Unwrap(after, w.0, w.1).At?
  }

  lemma {:induction false} WalkEnded(rows: seq<Row>, wx: nat, yy: nat)
    requires Ended(rows) && yy < |rows|
    ensures Walk(rows, wx, yy).At? && LineEnd(rows, yy).At?
    decreases |rows| - yy
  {
    if rows[yy].wrapped {
      WalkEnded(rows, if wx < |rows[yy].cells| then 0 else wx - |rows[yy].cells|, yy + 1);
    }
  }

  /** It does, wherever the cursor is, when the last row does not go on; and when the last row
      goes on, for a used cell no join ends a line before. */
  lemma EndedInside(rows: seq<Row>, spares: seq<set<nat>>, x: nat, y: nat, sx: nat, sy: nat)
    requires |spares| == |rows| && y < |rows|
    ensures Ended(rows) ==> StaysInside(rows, spares, x, y, sx, sy)
    ensures x < |rows[y].cells| && StopsBefore(rows, sx, Offset(rows, x, y)) == 0 && |Flat(rows)| < UINT_MAX
            ==> StaysInside(rows, spares, x, y, sx, sy)
  {
    var after, w := KeptGrid(rows, spares, sx, sy), Wrap(rows, x, y);
    if Ended(rows) {
      GridEnded(rows, spares, sx, sy);
      WalkEnded(after, w.0, Seek(after, w.1, 0, 0));
    }
    if x < |rows[y].cells| && |Flat(rows)| < UINT_MAX {
      PositionSurvivesIff(rows, spares, x, y, sx, sy);
    }
  }

  lemma GridEnded(rows: seq<Row>, spares: seq<set<nat>>, sx: nat, sy: nat)
    requires |spares| == |rows| && Ended(rows)
    ensures Ended(KeptGrid(rows, spares, sx, sy))
  {
    hide Reflow, Holds, CopiesStand, KeptReflow, SameShape;
    var after, kept := Reflow(rows, sx), KeptReflow(rows, spares, sx);
    ReflowBreaks(rows, sx);
    KeptReflowIff(rows, spares, sx);
    ShapeEnded(after, kept);
  }

  lemma ShapeEnded(a: seq<Row>, b: seq<Row>)
    requires SameShape(b, a) && Ended(a)
    ensures Ended(b)
  {
  }
}

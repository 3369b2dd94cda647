/** What a reflow does not keep, with the grids that show it (grid.c). */
module ReflowLimits {
  import opened GridCells
  import opened ReflowRows
  import opened ReflowLines
  import opened ReflowTurns
  import opened ReflowKept

  const NARROW := DEFAULT_CELL
  const WIDE := DEFAULT_CELL.(data := Utf8(2, 3, [0xe2, 0x96, 0x88]))

  /** A wrapped row with a blank row below it stays wrapped, and the blank row stays too: a
      row that ends nowhere, instead of one logical line on one row. */
  lemma WrappedOverBlank()
    ensures var rows := [Row([NARROW], true), BLANK];
            Unit(rows) && !Followed(rows) && Reflow(rows, 2) == rows && ChunkAll(Glue(rows), 2) == [Row([NARROW], false)]
  {
    var rows: seq<Row> := [Row([NARROW], true), BLANK];
    var rest: seq<Row> := [BLANK];
    assert rows[1..] == rest && rest[1..] == [];
    assert [NARROW][..0] == [];
    assert Width([NARROW][..0]) == 0;
    assert Width([NARROW]) == 1;
    assert Reflow([], 2) == [];
    assert Width(BLANK.cells) == 0;
    assert Reflow(rest, 2) == [BLANK] + Reflow([], 2);
    assert ScanRows(rest, 2, Start([NARROW])) == Start([NARROW]).(wrapped := false);
    assert Join([NARROW], rest, 2) == Joined(Row([NARROW], true), rest);
    assert Glue([]) == [];
    assert Glue(rest) == [BLANK.cells] + Glue([]);
    assert [NARROW] + BLANK.cells == [NARROW];
    assert Glue(rows) == [[NARROW]];
    var lines := [[NARROW]];
    assert lines[1..] == [];
    assert ChunkAll([], 2) == [];
    assert ChunkAll(lines, 2) == Chunk([NARROW], 2) + ChunkAll([], 2);
    assert Cut([NARROW], 2) == [[NARROW]];
    assert Chunk([NARROW], 2) == [Row([NARROW], false)];
  }

  /** A wide cell that does not fit after its row was joined ends the logical line early: the
      cells are all there, in order, but on two lines where there was one. */
  lemma WideEndsLine()
    ensures var rows := [Row([NARROW], true), Row([NARROW], true), Row([WIDE], false)];
            && Followed(rows) && AllNarrow(rows, 3)
            && Reflow(rows, 3) == [Row([NARROW, NARROW], false), Row([WIDE], false)]
            && |Glue(rows)| == 1 && |Glue(Reflow(rows, 3))| == 2 && Stops(rows, 3, AtWide) == 1
  {
    var a, w := Row([NARROW], true), Row([WIDE], false);
    var rows: seq<Row> := [a, a, w];
    var rest: seq<Row> := [a, w];
    assert rows[1..] == rest && rest[1..] == [w] && [w][1..] == [];
    assert [NARROW][..0] == [] && [WIDE][..0] == [] && [NARROW, NARROW][..1] == [NARROW];
    assert Width([]) == 0;
    assert Width([NARROW]) == 1 && Width([WIDE]) == 2;
    assert Width([NARROW, NARROW]) == Width([NARROW]) + 1;
    assert [NARROW][1..] == [] && [NARROW][..1] == [NARROW];
    assert Fit([], 2, 3) == 0;
    assert Fit([NARROW], 1, 3) == 1;
    assert Fit([WIDE], 2, 3) == 0;
    var s := Start([NARROW]);
    assert [NARROW] + [NARROW] == [NARROW, NARROW];
    var t := Scan([NARROW, NARROW], 1, 0, 1, true);
    assert ScanRows(rest, 3, t) == t.(wrapped := false);
    assert ScanRows(rest, 3, s) == ScanRows(rest, 3, t);
    var row := Row([NARROW, NARROW], false);
    assert Join([NARROW], rest, 3) == Joined(row, [w]);
    assert Reflow([], 3) == [];
    assert Reflow([w], 3) == [w] + Reflow([], 3);
    assert Reflow(rows, 3) == [row] + Reflow([w], 3);
    var out: seq<Row> := [row, w];
    assert out[1..] == [w];
    assert Glue([]) == [];
    assert |Glue([w])| == 1;
    assert |Glue(rest)| == 1;
    assert |Glue(rows)| == 1;
    assert |Glue(out)| == 2;
    ReflowKeepsLinesIff(rows, 3);
    FollowedStops(rows, 3);
  }

  /** A padding cell in a slot, as a tab or a wide character leaves behind, takes no column;
      stored again without one it takes a column, though nothing is to be seen there. */
  lemma PaddingTakesColumn(slots: seq<Extd>)
    ensures Read(Extended(0, PADDING_CELL.flags), [StoreExtended(PADDING_CELL)]).data.width == 0
    ensures !NeedExtended(CLEARED_ENTRY, PADDING_CELL)
    ensures Read(StoreInline(PADDING_CELL, PADDING_CELL.data.Lead()), slots).data.width == 1
  {
  }

  /** A padding cell stored without a slot. */
  const SHOWN := Copied(PADDING_CELL, false)

  /** The widths of two wide characters and their padding. */
  lemma PaddedWidths()
    ensures var w: seq<Cell>, p: seq<Cell> := [WIDE, PADDING_CELL], [WIDE, SHOWN];
            Width(w) == 2 && Width(p) == 3 && Width(w + w) == 4
            && SHOWN.data.width == 1 && SHOWN.data != PADDING_CELL.data
            && !NeedExtended(CLEARED_ENTRY, PADDING_CELL)
            && forall slot :: Copied(WIDE, slot) == WIDE
  {
    var w: seq<Cell>, p: seq<Cell> := [WIDE, PADDING_CELL], [WIDE, SHOWN];
    assert w[..1] == [WIDE] && p[..1] == [WIDE] && [WIDE][..0] == [];
    assert Width([WIDE]) == 2;
    WidthConcat(w, w);
  }

  /** A row of two wide characters, each with its padding, all of which fits two columns. */
  const PADDED := [WIDE, PADDING_CELL] + [WIDE, PADDING_CELL]

  lemma PaddedPieces()
    ensures Pieces(PADDED, 2) == [[WIDE, PADDING_CELL], [WIDE, PADDING_CELL]]
  {
    var w: seq<Cell> := [WIDE, PADDING_CELL];
    assert PADDED[..2] == w && PADDED[2..] == w && w[1..] == [PADDING_CELL] && [PADDING_CELL][1..] == [];
    assert BreakAt(PADDED, 2, 2, 2) == 2;
    assert BreakAt(PADDED, 1, 2, 2) == 2;
    assert [] + [WIDE] == [WIDE] && [WIDE] + [PADDING_CELL] == w;
    assert Lay([], w, 2, 2) == [w];
    assert Lay([PADDING_CELL], [WIDE], 2, 2) == [w];
  }

  lemma PaddedTurn()
    ensures var w: seq<Cell> := [WIDE, PADDING_CELL];
            Turned([Row(PADDED, false)], 2) == Turn([w], Row(w, false), [], None) && Width(PADDED) > 2
  {
    PaddedWidths();
    PaddedPieces();
    hide Pieces;
  }

  lemma PaddedStored()
    ensures KeptReflow([Row(PADDED, false)], [{}], 2) == [Row([WIDE, PADDING_CELL], true), Row([WIDE, SHOWN], false)]
  {
    var rows: seq<Row> := [Row(PADDED, false)];
    var w: seq<Cell>, p: seq<Cell> := [WIDE, PADDING_CELL], [WIDE, SHOWN];
    PaddedWidths();
    assert KeptCells(w, Hold(2, {})) == w && KeptCells(w, NEW) == p;
    hide KeptCells, Copied, Width, Turned;
    PaddedTurn();
    KeptReflowTurn(rows, [{}], 2);
    assert KeptRows(Wrapped([w], true), FirstHolds([w])) == [Row(w, true)];
    assert Reflow([], 2) == [] && Holds([], [], 2) == [];
    assert [Row(w, true)] + [Row(p, false)] == [Row(w, true), Row(p, false)];
  }

  /** They become a row that fits and one that does not: the second padding was copied. */
  lemma PaddingWidens()
    ensures var rows := [Row(PADDED, false)];
            var narrow := [Row([WIDE, PADDING_CELL], true), Row([WIDE, SHOWN], false)];
            && AllNarrow(rows, 2) && KeptReflow(rows, [{}], 2) == narrow
            && !AllFit(narrow, 2) && KeptGrid(KeptGrid(rows, [{}], 2, 1), [{}, {}], 2, 1) != narrow
  {
    var rows: seq<Row> := [Row(PADDED, false)];
    var w: seq<Cell>, p: seq<Cell> := [WIDE, PADDING_CELL], [WIDE, SHOWN];
    var narrow: seq<Row> := [Row(w, true), Row(p, false)];
    hide Width, KeptReflow, KeptCells, Copied, NeedExtended, Turned, Reflow, Holds;
    PaddedWidths();
    PaddedStored();
    assert narrow[1] in narrow;
    KeptIdempotentIff(rows, [{}], 2, 1, [{}, {}]);
  }

  /** Back at four columns, the copied padding is on a row alone. */
  lemma PaddingBack()
    ensures var narrow := [Row([WIDE, PADDING_CELL], true), Row([WIDE, SHOWN], false)];
            KeptReflow(narrow, [{}, {}], 4) == [Row([WIDE, PADDING_CELL, WIDE], true), Row([SHOWN], false)]
  {
    var w: seq<Cell>, p: seq<Cell> := [WIDE, PADDING_CELL], [WIDE, SHOWN];
    var narrow: seq<Row> := [Row(w, true), Row(p, false)];
    var rest: seq<Row>, left: seq<Row> := [Row(p, false)], [Row([SHOWN], false)];
    PaddedWidths();
    assert narrow[1..] == rest && p[1..] == [SHOWN] && p[..1] == [WIDE] && [SHOWN][1..] == [] && [SHOWN][..0] == [];
    assert Fit([SHOWN], 4, 4) == 0;
    assert Fit(p, 2, 4) == 1;
    var three: seq<Cell> := [WIDE, PADDING_CELL, WIDE];
    assert w + [WIDE] == three;
    assert ScanRows(rest, 4, Start(w)) == Scan(three, 1, 0, 1, false);
    assert Join(w, rest, 4) == Joined(Row(three, true), left);
    var t := Turned(narrow, 4);
    assert t.first == [] && t.row == Row(three, true) && t.rest == left;
    KeptReflowTurn(narrow, [{}, {}], 4);
    assert KeptCells(three, Hold(2, {})) == three;
    assert Wrapped([], true) == [];
    assert Width([SHOWN]) == 1;
    var s := Turned(left, 4);
    assert s.first == [] && s.row == left[0] && s.rest == [];
    KeptReflowTurn(left, [{}], 4);
    assert KeptCells([SHOWN], Hold(1, {})) == [SHOWN];
    assert Reflow([], 4) == [] && Holds([], [], 4) == [];
  }

  const THREE := [NARROW, NARROW, NARROW]

  lemma NarrowWidths()
    ensures Width([NARROW]) == 1 && Width([NARROW, NARROW]) == 2 && Width(THREE) == 3 && Width(THREE + [NARROW]) == 4
    ensures Fit([NARROW], 1, 3) == 1 && Fit([NARROW], 2, 3) == 1 && Width([]) == 0
  {
    assert [NARROW][..0] == [] && [NARROW, NARROW][..1] == [NARROW] && THREE[..2] == [NARROW, NARROW];
    assert (THREE + [NARROW])[..3] == THREE && [NARROW][1..] == [];
    assert Fit([], 2, 3) == 0 && Fit([], 3, 3) == 0;
  }

  lemma ThreeJoin()
    ensures var left: seq<Row> := [Row(THREE + [NARROW], false), BLANK];
            Join([NARROW], [Row([NARROW], true), Row([NARROW], false)] + left, 3) == Joined(Row(THREE, false), left)
  {
    var left: seq<Row> := [Row(THREE + [NARROW], false), BLANK];
    var rest := [Row([NARROW], true), Row([NARROW], false)] + left;
    NarrowWidths();
    assert [NARROW][..1] == [NARROW] && [NARROW] + [NARROW] == [NARROW, NARROW] && [NARROW, NARROW] + [NARROW] == THREE;
    var s, t := Scan([NARROW, NARROW], 1, 0, 1, true), Scan(THREE, 2, 1, 1, false);
    assert rest[0] == Row([NARROW], true) && rest[1] == Row([NARROW], false);
    assert ScanRows(rest, 3, s) == t;
    assert ScanRows(rest, 3, Start([NARROW])) == ScanRows(rest, 3, s);
    assert rest[2..] == left;
  }

  lemma FourPieces()
    ensures Pieces(THREE + [NARROW], 3) == [THREE, [NARROW]]
  {
    var cs := THREE + [NARROW];
    assert cs[..3] == THREE && cs[3..] == [NARROW] && [NARROW][1..] == [];
    assert BreakAt(cs, 3, 3, 3) == 3;
    assert BreakAt(cs, 2, 2, 3) == 3;
    assert BreakAt(cs, 1, 1, 3) == 3;
    assert [] + [NARROW] == [NARROW];
    assert Lay([], [NARROW], 1, 3) == [[NARROW]];
  }

  /** A line over three rows, a row that is too wide, and a blank one. */
  const STEPS := [Row([NARROW], true), Row([NARROW], true), Row([NARROW], false)] + LEFT
  const LEFT := [Row(THREE + [NARROW], false), BLANK]

  lemma StepTurns()
    ensures Turned(STEPS, 3).first == [] && Turned(STEPS, 3).row == Row(THREE, false) && Turned(STEPS, 3).rest == LEFT
    ensures Turned(LEFT, 3).first == [THREE] && Turned(LEFT, 3).row == Row([NARROW], false) && Turned(LEFT, 3).rest == [BLANK]
    ensures Turned([BLANK], 3).first == [] && Turned([BLANK], 3).row == BLANK && Turned([BLANK], 3).rest == []
  {
    NarrowWidths();
    ThreeJoin();
    FourPieces();
    hide Width, Join, StopOf, Pieces;
    assert STEPS[1..] == [Row([NARROW], true), Row([NARROW], false)] + LEFT && LEFT[1..] == [BLANK];
  }

  /** In a pass that joins rows and then splits one, the scroll position may stay behind: here
      it is the start of the screen's one row, and ends up a row above it, since the split
      compares where the row was with where the position is by then. */
  lemma ScrollStaysBehind()
    ensures ScrollPass(STEPS, 3, 4, 0, 5) == 2
    ensures Reflow(STEPS, 3) == [Row(THREE, false), Row(THREE, true), Row([NARROW], false), BLANK]
  {
    hide Turned, ScrollPass, Reflow;
    StepTurns();
    ScrollNext(STEPS, 3, 4, 0, 5);
    ScrollNext(LEFT, 3, 2, 1, 5);
    ScrollNext([BLANK], 3, 2, 3, 5);
    ScrollNone(3, 2, 4, 5);
    ReflowTurn(STEPS, 3);
    ReflowTurn(LEFT, 3);
    ReflowTurn([BLANK], 3);
    ReflowNothing(3);
    assert Wrapped([], true) == [] && Wrapped([THREE], true) == [Row(THREE, true)];
  }
}

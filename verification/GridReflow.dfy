/** grid_reflow and its helpers: the rows of one grid are consumed while a target grid
    of the new width is built (grid.c). */
module GridReflow {
  import opened GridCells
  import opened GridLines
  import opened ReflowRows
  import opened ReflowLines
  import opened ReflowTurns
  import opened ReflowKept
  import opened Grids

  // ----- Copying cells to the end of a row

  /** The row holds these cells, and has slots after them where the hold says so. */
  ghost predicate Stocked(gl: Line, cs: seq<Cell>, h: Hold)
    reads gl
  {
    && gl.Valid() && h.keep <= |cs|
    && RowOf(gl).cells == KeptCells(cs, h) && SpareOf(gl) == After(h.spare, |cs|)
  }

  function After(spare: set<nat>, n: nat): set<nat> {
    set p | p in spare && p >= n
  }

  lemma KeptSnoc(cs: seq<Cell>, c: Cell, h: Hold)
    requires h.keep <= |cs|
    ensures KeptCells(cs + [c], h) == KeptCells(cs, h) + [Copied(c, |cs| in After(h.spare, |cs|))]
    ensures After(h.spare, |cs| + 1) == After(h.spare, |cs|) - {|cs|}
  {
  }

  lemma CopiedStrip(c: Cell, slot: bool)
    ensures Copied(Strip(c), slot) == Copied(c, slot)
  {
    assert Strip(Strip(c)) == Strip(c);
  }

  /** grid_set_cell just after the last used cell of a row. */
  method AppendCell(gl: Line, gsx: nat, c: Cell)
    requires gl.Valid()
    modifies gl
    ensures gl.Valid() && gl.wrapped == old(gl.wrapped) && gl.dead == old(gl.dead)
    ensures gl.cellused == old(gl.cellused) + 1 && SpareOf(gl) == old(SpareOf(gl)) - {old(gl.cellused)}
    ensures RowOf(gl).cells == old(RowOf(gl).cells) + [Copied(c, old(gl.cellused in SpareOf(gl)))]
  {
    ghost var was, at, spare := gl.Cells(), gl.cellused, SpareOf(gl);
    ghost var slot := gl.HasSlot(at);
    gl.SetCell(gsx, gl.cellused, c);
    assert gl.Cells()[..at] == was[..at];
    assert StripAll(gl.Cells()[..at + 1]) == StripAll(was[..at]) + [Copied(c, slot)];
    assert forall p :: p in SpareOf(gl) <==> p > at && gl.HasSlot(p);
    assert forall p :: p in spare <==> p >= at && old(gl.HasSlot(p));
  }

  /** The width of a used cell, as grid_get_cell1 reads it. */
  method CellWidth(from: Line, at: nat) returns (width: nat)
    requires from.Valid() && at < from.cellused
    ensures width == RowOf(from).cells[at].data.width
  {
    width := Read(from.celldata[at], from.extddata).data.width;
  }

  /** grid_get_cell1 from one row, then grid_set_cell at the end of another. */
  method CopyCell(gl: Line, gsx: nat, from: Line, at: nat, ghost cs: seq<Cell>, ghost h: Hold)
    requires gl != from && Stocked(gl, cs, h) && from.Valid() && at < from.cellused
    modifies gl
    ensures gl.wrapped == old(gl.wrapped) && gl.dead == old(gl.dead)
    ensures Stocked(gl, cs + [RowOf(from).cells[at]], h)
  {
    hide SlotsOk, StripAll, After;
    var gc := Read(from.celldata[at], from.extddata);
    ReadAt(from, at);
    CopiedStrip(gc, gl.cellused in SpareOf(gl));
    KeptSnoc(cs, Strip(gc), h);
    RowLength(gl);
    AppendCell(gl, gsx, gc);
  }

  lemma ReadAt(from: Line, at: nat)
    requires from.Valid() && at < from.cellused
    ensures |RowOf(from).cells| == from.cellused
    ensures RowOf(from).cells[at] == Strip(Read(from.celldata[at], from.extddata))
  {
  }

  // ----- Joining

  /** The inner loop's state: `want` cells of `cs` have gone into the row. */
  ghost predicate Filling(cs: seq<Cell>, want: nat, width0: nat, width: nat, sx: nat) {
    && want <= |cs|
    && Fit(cs, width0, sx) == want + Fit(cs[want..], width, sx)
    && width == width0 + Width(cs[..want])
  }

  lemma FillNext(cs: seq<Cell>, want: nat, width0: nat, width: nat, sx: nat)
    requires Filling(cs, want, width0, width, sx) && want < |cs|
    ensures if width + cs[want].data.width <= sx then Filling(cs, want + 1, width0, width + cs[want].data.width, sx)
            else want == Fit(cs, width0, sx)
  {
    assert cs[want..][1..] == cs[want + 1..];
    assert cs[..want + 1][..want] == cs[..want];
  }

  lemma FillStart(cs: seq<Cell>, width0: nat, sx: nat)
    ensures Filling(cs, 0, width0, width0, sx)
  {
    assert cs[0..] == cs;
  }

  lemma FillEnd(cs: seq<Cell>, width0: nat, width: nat, sx: nat)
    requires Filling(cs, |cs|, width0, width, sx)
    ensures |cs| == Fit(cs, width0, sx)
  {
  }

  lemma OneMore(cells: seq<Cell>, cs: seq<Cell>, want: nat)
    requires want < |cs|
    ensures cells + cs[..want + 1] == (cells + cs[..want]) + [cs[want]]
  {
  }

  /** The inner loop of grid_reflow_join, its first turn included: as many cells of
      `from` as still fit. */
  method FillFrom(gl: Line, gsx: nat, from: Line, sx: nat, width0: nat, ghost cells: seq<Cell>, ghost h: Hold)
    returns (want: nat, width: nat)
    requires gl != from && from.Valid() && Stocked(gl, cells, h)
    modifies gl
    ensures gl.wrapped == old(gl.wrapped) && gl.dead == old(gl.dead)
    ensures want == Fit(RowOf(from).cells, width0, sx)
    ensures Stocked(gl, cells + RowOf(from).cells[..want], h)
    ensures width == width0 + Width(RowOf(from).cells[..want])
  {
    hide SlotsOk, Filling, Stocked, StripAll, Line.Valid, RowOf;
    ghost var cs := RowOf(from).cells;
    want, width := 0, width0;
    FillStart(cs, width0, sx);
    assert cells + cs[..0] == cells;
    RowLength(from);
    while want < from.cellused
      invariant gl.wrapped == old(gl.wrapped) && gl.dead == old(gl.dead)
      invariant want <= |cs| && Stocked(gl, cells + cs[..want], h)
      invariant Filling(cs, want, width0, width, sx)
    {
      var w := CellWidth(from, want);
      FillNext(cs, want, width0, width, sx);
      if width + w > sx {
        FillWidth(cs, want, width0, width, sx);
        return;
      }
      CopyCell(gl, gsx, from, want, cells + cs[..want], h);
      OneMore(cells, cs, want);
      width := width + w;
      want := want + 1;
    }
    FillEnd(cs, width0, width, sx);
    FillWidth(cs, want, width0, width, sx);
  }

  lemma FillWidth(cs: seq<Cell>, want: nat, width0: nat, width: nat, sx: nat)
    requires Filling(cs, want, width0, width, sx)
    ensures width == width0 + Width(cs[..want])
  {
  }

  /** The same turn on values. */
  lemma ScanTurn(rest: seq<Row>, s: Scan, sx: nat)
    requires s.lines < |rest| && s.wrapped
    ensures var r := rest[s.lines];
            if r.cells == [] then
              ScanRows(rest, sx, s)
              == if r.wrapped then ScanRows(rest, sx, s.(lines := s.lines + 1)) else s.(wrapped := false)
            else if Width(s.cells) + r.cells[0].data.width > sx then ScanRows(rest, sx, s) == s.(wrapped := r.wrapped)
            else
              var n := Fit(r.cells, Width(s.cells), sx);
              var t := Scan(s.cells + r.cells[..n], s.lines + 1, s.lines, n, r.wrapped);
              ScanRows(rest, sx, s)
              == if r.wrapped && n == |r.cells| && Width(t.cells) != sx then ScanRows(rest, sx, t) else t
  {
  }

  /** One turn of the consuming loop of grid_reflow_join, at the row `line` below. */
  method JoinTurn(gl: Line, gsx: nat, line: Line, sx: nat, width0: nat,
                  lines0: nat, from0: int, want0: nat, ghost rest: seq<Row>, ghost cells: seq<Cell>, ghost h: Hold)
    returns (more: bool, width: nat, lines: nat, from: int, want: nat, wrapped: bool, ghost t: Scan)
    requires gl != line && line.Valid() && Stocked(gl, cells, h) && width0 == Width(cells)
    requires lines0 < |rest| && rest[lines0] == RowOf(line)
    modifies gl
    ensures gl.wrapped == old(gl.wrapped) && gl.dead == old(gl.dead)
    ensures t == Scan(t.cells, lines, from, want, wrapped) && t.lines <= |rest|
    ensures Stocked(gl, t.cells, h) && width == Width(t.cells)
    ensures ScanRows(rest, sx, Scan(cells, lines0, from0, want0, true))
            == if more then ScanRows(rest, sx, t) else t
    ensures more ==> lines == lines0 + 1 && wrapped
  {
    hide SlotsOk, Stocked, StripAll, ScanRows, Fit, Width;
    ScanTurn(rest, Scan(cells, lines0, from0, want0, true), sx);
    width, lines, from, want, wrapped := width0, lines0, from0, want0, line.wrapped;
    t := Scan(cells, lines, from, want, wrapped);
    if line.cellused == 0 {
      more := wrapped;
      if more {
        lines := lines + 1;
        t := t.(lines := lines);
      }
      return;
    }
    var w := CellWidth(line, 0);
    if width + w > sx {
      more := false;
      return;
    }
    ghost var cs := RowOf(line).cells;
    want, width := FillFrom(gl, gsx, line, sx, width0, cells, h);
    from := lines;
    lines := lines + 1;
    t := Scan(cells + cs[..want], lines, from, want, wrapped);
    WidthConcat(cells, cs[..want]);
    more := wrapped && want == line.cellused && width != sx;
  }

  /** The consuming loop of grid_reflow_join: the target row `gl` takes cells from the
      rows below row `yy`, which it only reads. */
  method JoinFill(gl: Line, gsx: nat, gd: Grid, yy: nat, sx: nat, width0: nat, ghost cur: seq<Cell>, ghost h: Hold)
    returns (lines: nat, from: int, want: nat, wrapped: bool, ghost t: Scan)
    requires yy < gd.hsize + gd.sy <= |gd.linedata|
    requires AllValid(gd.linedata) && gl !in gd.linedata
    requires Stocked(gl, cur, h) && width0 == Width(cur)
    modifies gl
    ensures gl.wrapped == old(gl.wrapped) && gl.dead == old(gl.dead)
    ensures t == Scan(t.cells, lines, from, want, wrapped) && Stocked(gl, t.cells, h)
    ensures t == ScanRows(RowsOf(gd.linedata[yy + 1..gd.hsize + gd.sy]), sx, Start(cur))
  {
    hide SlotsOk, Stocked, StripAll, RowOf, RowsOf, ScanRows, AllValid;
    ghost var below := gd.linedata[yy + 1..gd.hsize + gd.sy];
    AllValidSlice(gd.linedata, yy + 1, gd.hsize + gd.sy);
    ghost var rest := RowsOf(below);
    var width := width0;
    lines, from, want, wrapped, t := 0, -1, 0, true, Start(cur);
    while yy + 1 + lines != gd.hsize + gd.sy
      invariant gl.wrapped == old(gl.wrapped) && gl.dead == old(gl.dead)
      invariant lines <= |rest| && wrapped && AllValid(below) && rest == RowsOf(below)
      invariant t == Scan(t.cells, lines, from, want, true) && Stocked(gl, t.cells, h)
      invariant width == Width(t.cells) && ScanRows(rest, sx, t) == ScanRows(rest, sx, Start(cur))
      decreases |rest| - lines
    {
      var more;
      ValidAt(below, lines);
      more, width, lines, from, want, wrapped, t :=
        JoinTurn(gl, gsx, gd.linedata[yy + 1 + lines], sx, width, lines, from, want, rest, t.cells, h);
      if !more {
        return;
      }
    }
    ScanEnd(rest, sx, t);
  }

  /** Where a reflow has got to: `done` is in the target, `todo` starts at row `f` of the
      old grid with slots past its cells as in `spares`, and the rows between the loop's `yy` and `f` are dead. */
  ghost predicate Building(target: Grid, gd: Grid, yy: nat, f: nat, done: seq<Row>, todo: seq<Row>,
                           spares: seq<set<nat>>)
    reads target, gd, target.linedata, gd.linedata
  {
    var end := gd.hsize + gd.sy;
    && target != gd && yy <= f <= end <= |gd.linedata| && target.sy == |target.linedata|
    && Distinct(target.linedata) && Distinct(gd.linedata) && Disjoint(target.linedata, gd.linedata)
    && AllValid(target.linedata) && AllValid(gd.linedata)
    && (forall l :: l in target.linedata ==> !l.dead)
    && (forall i :: yy <= i < f ==> gd.linedata[i].dead)
    && (forall i :: f <= i < end ==> !gd.linedata[i].dead)
    && RowsOf(target.linedata) == done
    && (SliceWithin(gd.linedata, f, end); RowsOf(gd.linedata[f..end]) == todo && SparesOf(gd.linedata[f..end]) == spares)
  }

  lemma SliceWithin(lines: seq<Line>, from: nat, to: nat)
    requires from <= to <= |lines|
    ensures forall l :: l in lines[from..to] ==> l in lines
  {
  }

  /** The rows of both grids after a step are rows from before it, or new ones. */
  twostate predicate OwnLines(target: Grid, gd: Grid)
    reads target, gd
  {
    && (forall i :: 0 <= i < |target.linedata| ==> OwnLine(target, gd, target.linedata[i]))
    && (forall i :: 0 <= i < |gd.linedata| ==> OwnLine(target, gd, gd.linedata[i]))
  }

  twostate predicate OwnLine(target: Grid, gd: Grid, new l: Line) {
    l in old(target.linedata) || l in old(gd.linedata) || fresh(l)
  }

  lemma SparesSlice(lines: seq<Line>, from: nat, to: nat)
    requires from <= to <= |lines|
    ensures SparesOf(lines[from..to]) == SparesOf(lines)[from..to]
  {
  }

  lemma AllValidUpdate(lines: seq<Line>, i: nat, l: Line)
    requires i < |lines| && AllValid(lines) && l.Valid()
    ensures AllValid(lines[i := l])
  {
  }

  lemma DisjointUpdate(a: seq<Line>, b: seq<Line>, i: nat, l: Line)
    requires i < |b| && Disjoint(a, b) && l !in a
    ensures Disjoint(a, b[i := l])
  {
  }

  lemma DisjointMove(a: seq<Line>, b: seq<Line>, i: nat, l: Line)
    requires i < |b| && Disjoint(a, b) && Distinct(b) && l !in a && l !in b
    ensures Disjoint(a + [b[i]], b[i := l])
  {
  }

  /** The rows below one that a dead row replaces. */
  lemma RowsBelow(b: seq<Line>, yy: nat, end: nat, dead: Line)
    requires yy < end <= |b| && AllValid(b)
    ensures AllValid(b[yy..end]) && AllValid(b[yy + 1..end]) && b[yy := dead][yy + 1..end] == b[yy + 1..end]
    ensures RowsOf(b[yy + 1..end]) == RowsOf(b[yy..end])[1..] && SparesOf(b[yy + 1..end]) == SparesOf(b[yy..end])[1..]
  {
    hide RowOf, RowsOf, SpareOf, SparesOf, Line.Valid, AllValid;
    var rest := b[yy..end];
    AllValidSlice(b, yy, end);
    RowsOfSlice(rest, 1, |rest|);
    SparesSlice(rest, 1, |rest|);
    assert rest[1..|rest|] == b[yy + 1..end];
  }

  lemma MovedRows(a: seq<Line>, b: seq<Line>, yy: nat, end: nat, dead: Line)
    requires yy < end <= |b| && AllValid(a) && AllValid(b)
    ensures AllValid(a + [b[yy]]) && AllValid(b[yy..end]) && AllValid(b[yy + 1..end])
    ensures b[yy := dead][yy + 1..end] == b[yy + 1..end]
    ensures RowsOf(a + [b[yy]]) == RowsOf(a) + [RowsOf(b[yy..end])[0]]
    ensures RowsOf(b[yy + 1..end]) == RowsOf(b[yy..end])[1..] && SparesOf(b[yy + 1..end]) == SparesOf(b[yy..end])[1..]
  {
    hide RowOf, RowsOf, SpareOf, SparesOf, Line.Valid, AllValid;
    var l, rest := b[yy], b[yy..end];
    AllValidSlice(b, yy, end);
    ValidAt(rest, 0);
    AllValidFrom([l]);
    assert RowsOf([l]) == [RowsOf(rest)[0]];
    RowsOfConcat(a, [l]);
    RowsBelow(b, yy, end, dead);
  }

  /** A row moved from the old grid's rows `b` to the end of the target's rows `a`. */
  lemma MovedAcross(target: Grid, gd: Grid, a: seq<Line>, b: seq<Line>, yy: nat, l: Line, dead: Line,
                    done: seq<Row>, todo: seq<Row>, spares: seq<set<nat>>)
    requires target != gd && yy < gd.hsize + gd.sy <= |b| && l == b[yy]
    requires target.linedata == a + [l] && target.sy == |a| + 1 && gd.linedata == b[yy := dead]
    requires Distinct(a) && Distinct(b) && Disjoint(a, b) && AllValid(a) && AllValid(b)
    requires dead !in a && dead !in b && dead.Valid() && dead.dead
    requires forall l :: l in a ==> !l.dead
    requires forall i :: yy <= i < gd.hsize + gd.sy ==> !b[i].dead
    requires (AllValidSlice(b, yy, gd.hsize + gd.sy); RowsOf(b[yy..gd.hsize + gd.sy]) == todo)
    requires RowsOf(a) == done && SparesOf(b[yy..gd.hsize + gd.sy]) == spares
    ensures Building(target, gd, yy + 1, yy + 1, done + [todo[0]], todo[1..], spares[1..])
  {
    hide RowOf, RowsOf, SpareOf, SparesOf, Line.Valid, AllValid, Distinct, Disjoint;
    MovedRows(a, b, yy, gd.hsize + gd.sy, dead);
    ApartFrom(a, b, yy);
    DistinctAppend(a, l);
    DistinctUpdate(b, yy, dead);
    AllValidUpdate(b, yy, dead);
    DisjointMove(a, b, yy, dead);
  }

  /** grid_reflow_move: the row changes hands and a dead one takes its place. */
  method ReflowMove(target: Grid, gd: Grid, yy: nat, ghost done: seq<Row>, ghost todo: seq<Row>,
                    ghost spares: seq<set<nat>>)
    requires Building(target, gd, yy, yy, done, todo, spares) && yy < gd.hsize + gd.sy
    modifies target`linedata, target`sy, gd`linedata
    ensures todo != [] && spares != []
    ensures Building(target, gd, yy + 1, yy + 1, done + [todo[0]], todo[1..], spares[1..])
    ensures OwnLines(target, gd)
    ensures target.linedata == old(target.linedata) + [old(gd.linedata[yy])]
    ensures |gd.linedata| == old(|gd.linedata|) && fresh(gd.linedata[yy])
    ensures gd.linedata == old(gd.linedata)[yy := gd.linedata[yy]]
  {
    hide SlotsOk, RowOf, RowsOf, SpareOf, SparesOf, Line.Valid, AllValid, Distinct, Disjoint;
    ghost var a, b := target.linedata, gd.linedata;
    var dead := new Line.Dead();
    target.linedata := target.linedata + [gd.linedata[yy]];
    target.sy := target.sy + 1;
    gd.linedata := gd.linedata[yy := dead];
    MovedAcross(target, gd, a, b, yy, b[yy], dead, done, todo, spares);
  }

  /** grid_reflow_dead for a row that was used up. */
  method KillRow(target: Grid, gd: Grid, yy: nat, f: nat, ghost done: seq<Row>, ghost todo: seq<Row>,
                 ghost spares: seq<set<nat>>)
    requires Building(target, gd, yy, f, done, todo, spares) && todo != []
    modifies gd`linedata
    ensures Building(target, gd, yy, f + 1, done, todo[1..], spares[1..])
    ensures forall i :: 0 <= i < |gd.linedata| ==> gd.linedata[i] in old(gd.linedata) || fresh(gd.linedata[i])
  {
    hide SlotsOk, RowOf, RowsOf, SpareOf, SparesOf, Line.Valid, AllValid, Distinct, Disjoint;
    ghost var b := gd.linedata;
    var dead := new Line.Dead();
    DistinctUpdate(b, f, dead);
    AllValidUpdate(b, f, dead);
    DisjointUpdate(target.linedata, b, f, dead);
    RowsBelow(b, f, gd.hsize + gd.sy, dead);
    gd.linedata := gd.linedata[f := dead];
  }

  /** The tail of grid_reflow_join: every row that was used up becomes dead. */
  method KillRows(target: Grid, gd: Grid, at: nat, n: nat, ghost done: seq<Row>, ghost todo: seq<Row>,
                  ghost spares: seq<set<nat>>)
    requires Building(target, gd, at, at, done, todo, spares) && n <= |todo| == |spares|
    modifies gd`linedata
    ensures Building(target, gd, at, at + n, done, todo[n..], spares[n..])
    ensures forall i :: 0 <= i < |gd.linedata| ==> gd.linedata[i] in old(gd.linedata) || fresh(gd.linedata[i])
  {
    hide Building;
    for i := 0 to n
      invariant Building(target, gd, at, at + i, done, todo[i..], spares[i..])
      invariant forall i :: 0 <= i < |gd.linedata| ==> gd.linedata[i] in old(gd.linedata) || fresh(gd.linedata[i])
    {
      assert todo[i..][1..] == todo[i + 1..] && spares[i..][1..] == spares[i + 1..];
      KillRow(target, gd, at, at + i, done, todo[i..], spares[i..]);
    }
  }

  /** Removing the cells that were taken from the front of a row. */
  method TrimFront(line: Line, gsx: nat, want: nat)
    requires line.Valid() && 0 < want < line.cellused
    modifies line
    ensures line.Valid() && line.dead == old(line.dead) && SpareOf(line) == {}
    ensures RowOf(line) == old(RowOf(line)).(cells := old(RowOf(line)).cells[want..])
  {
    hide SlotsOk, StripAll, Moved, Padded;
    var left := line.cellused - want;
    ghost var cs := line.Cells();
    MovedFront(cs, gsx, want, line.cellused);
    StripFront(cs, want, line.cellused);
    line.MoveCells(gsx, 0, want, left, DEFAULT);
    line.Truncate(left);
    assert line.Cells()[..left] == line.Cells();
  }

  lemma MovedFront(cs: seq<Cell>, gsx: nat, want: nat, used: nat)
    requires 0 < want < used <= |cs|
    ensures var left := used - want;
            var now := Moved(Padded(Padded(cs, gsx, used, DEFAULT), gsx, left, DEFAULT), 0, want, left, DEFAULT);
            |now| >= left && now[..left] == cs[want..used]
  {
  }

  lemma StripFront(cs: seq<Cell>, want: nat, used: nat)
    requires want <= used <= |cs|
    ensures StripAll(cs[..used])[want..] == StripAll(cs[want..used])
  {
  }

  /** One row of several changed: the slots of the others are as they were. */
  lemma SparesOfChanged(before: seq<set<nat>>, lines: seq<Line>, k: nat)
    requires k < |lines| == |before|
    requires forall i :: 0 <= i < |lines| && i != k ==> SpareOf(lines[i]) == before[i]
    ensures SparesOf(lines) == before[k := SpareOf(lines[k])]
  {
  }

  /** Cutting short the row a join could not use up. */
  method TrimRow(target: Grid, gd: Grid, f: nat, k: nat, line: Line, want: nat,
                 ghost done: seq<Row>, ghost todo: seq<Row>, ghost spares: seq<set<nat>>)
    requires Building(target, gd, f, f, done, todo, spares)
    requires k < |todo| == |spares| && 0 < want < |todo[k].cells| && line == gd.linedata[f + k]
    modifies line
    ensures Building(target, gd, f, f, done, todo[k := todo[k].(cells := todo[k].cells[want..])], spares[k := {}])
  {
    hide SlotsOk, RowOf, RowsOf, SpareOf, SparesOf, StripAll, Disjoint, Distinct, AllValid, Line.Valid;
    ghost var rows := gd.linedata[f..gd.hsize + gd.sy];
    assert rows[k] == line;
    EachValid(target.linedata);
    EachValid(gd.linedata);
    EachValidSlice(gd.linedata, f, gd.hsize + gd.sy);
    assert RowOf(line) == todo[k];
    ApartFrom(target.linedata, gd.linedata, f + k);
    OthersApart(gd.linedata, f + k);
    RowLength(line);
    TrimFront(line, gd.sx, want);
    AllValidFrom(gd.linedata);
    AllValidFrom(rows);
    RowsOfChanged(todo, rows, k);
    SparesOfChanged(spares, rows, k);
  }

  lemma ApartFrom(a: seq<Line>, b: seq<Line>, k: nat)
    requires Disjoint(a, b)
    ensures k < |b| ==> b[k] !in a
    ensures k < |a| ==> a[k] !in b
  {
  }

  lemma EachValid(lines: seq<Line>)
    requires AllValid(lines)
    ensures forall i :: 0 <= i < |lines| ==> lines[i].Valid() && RowsOf(lines)[i] == RowOf(lines[i])
    ensures |RowsOf(lines)| == |lines|
  {
    hide Line.Valid;
  }

  lemma EachValidSlice(lines: seq<Line>, from: nat, to: nat)
    requires from <= to <= |lines| && AllValid(lines)
    ensures var s := lines[from..to];
            forall i :: 0 <= i < |s| ==> s[i].Valid() && RowsOf(s)[i] == RowOf(s[i])
    ensures |RowsOf(lines[from..to])| == to - from
  {
    hide Line.Valid;
  }

  /** Every row but one is left as it is. */
  lemma OthersApart(lines: seq<Line>, k: nat)
    requires Distinct(lines) && k < |lines|
    ensures forall i :: 0 <= i < |lines| && i != k ==> lines[i] != lines[k]
  {
  }

  /** After the last target row alone has changed. */
  lemma LastRowChanged(target: Grid, gd: Grid, yy: nat, f: nat, before: seq<Row>, todo: seq<Row>,
                       spares: seq<set<nat>>)
    requires before != []
    requires target != gd && |target.linedata| == |before| && target.sy == |target.linedata|
    requires yy <= f <= gd.hsize + gd.sy <= |gd.linedata|
    requires Distinct(target.linedata) && Distinct(gd.linedata) && Disjoint(target.linedata, gd.linedata)
    requires AllValid(target.linedata) && AllValid(gd.linedata)
    requires forall l :: l in target.linedata ==> !l.dead
    requires forall i :: yy <= i < f ==> gd.linedata[i].dead
    requires forall i :: f <= i < gd.hsize + gd.sy ==> !gd.linedata[i].dead
    requires RowsOf(gd.linedata[f..gd.hsize + gd.sy]) == todo && SparesOf(gd.linedata[f..gd.hsize + gd.sy]) == spares
    requires forall i :: 0 <= i < |before| - 1 ==> RowOf(target.linedata[i]) == before[i]
    ensures Building(target, gd, yy, f, before[..|before| - 1] + [RowOf(target.linedata[|before| - 1])], todo, spares)
  {
    hide SlotsOk, RowOf, StripAll, SpareOf, SparesOf, Line.Valid;
    RowsOfChanged(before, target.linedata, |before| - 1);
    assert before[|before| - 1 := RowOf(target.linedata[|before| - 1])]
           == before[..|before| - 1] + [RowOf(target.linedata[|before| - 1])];
  }

  /** The consuming loop applied to the last target row. */
  method FillLast(target: Grid, gd: Grid, yy: nat, sx: nat, width: nat, gl: Line,
                  ghost done: seq<Row>, ghost cur: seq<Cell>, ghost h: Hold, ghost rest: seq<Row>,
                  ghost spares: seq<set<nat>>)
    returns (lines: nat, from: int, want: nat, wrapped: bool, ghost t: Scan)
    requires Building(target, gd, yy + 1, yy + 1, done + [KeptRow(Row(cur, true), h)], rest, spares)
    requires gl == target.linedata[target.sy - 1] && Stocked(gl, cur, h) && width == Width(cur)
    modifies gl
    ensures Building(target, gd, yy + 1, yy + 1, done + [KeptRow(Row(t.cells, true), h)], rest, spares)
    ensures t == Scan(t.cells, lines, from, want, wrapped) && t == ScanRows(rest, sx, Start(cur))
  {
    hide SlotsOk, StripAll, RowOf, Line.Valid, ScanRows, KeptCells, After, Width, Disjoint, Distinct, AllValid, RowsOf,
      SpareOf, SparesOf;
    ghost var before := done + [KeptRow(Row(cur, true), h)];
    assert before[|done|] == KeptRow(Row(cur, true), h);
    ApartFrom(target.linedata, gd.linedata, |done|);
    OthersApart(target.linedata, |done|);
    EachValid(target.linedata);
    RowLength(gl);
    lines, from, want, wrapped, t := JoinFill(gl, target.sx, gd, yy, sx, width, cur, h);
    RowLength(gl);
    assert RowOf(gl) == KeptRow(Row(t.cells, true), h);
    AllValidFrom(target.linedata);
    LastRowChanged(target, gd, yy + 1, yy + 1, before, rest, spares);
    assert before[..|before| - 1] == done;
  }

  method ClearWrap(gl: Line)
    requires gl.Valid()
    modifies gl
    ensures gl.Valid() && RowOf(gl) == old(RowOf(gl)).(wrapped := false)
    ensures gl.dead == old(gl.dead) && SpareOf(gl) == old(SpareOf(gl))
  {
    hide SlotsOk, StripAll;
    gl.wrapped := false;
  }

  /** The line ends here after all: the last target row loses its wrap flag. */
  method UnwrapLast(target: Grid, gd: Grid, at: nat, gl: Line,
                    ghost done: seq<Row>, ghost r: Row, ghost rest: seq<Row>, ghost spares: seq<set<nat>>)
    requires Building(target, gd, at, at, done + [r], rest, spares)
    requires gl == target.linedata[target.sy - 1]
    modifies gl
    ensures Building(target, gd, at, at, done + [r.(wrapped := false)], rest, spares)
  {
    hide SlotsOk, StripAll, SpareOf, SparesOf, RowOf, RowsOf, AllValid, Distinct, Disjoint, Line.Valid;
    ghost var before := done + [r];
    assert before[|done|] == r;
    ApartFrom(target.linedata, gd.linedata, |done|);
    OthersApart(target.linedata, |done|);
    EachValid(target.linedata);
    ClearWrap(gl);
    AllValidFrom(target.linedata);
    LastRowChanged(target, gd, at, at, before, rest, spares);
    assert before[..|before| - 1] == done;
  }

  /** grid_reflow_join once the target row is in place: it is filled from below, and
      what it took is taken away. */
  method JoinOnto(target: Grid, gd: Grid, yy: nat, sx: nat, width: nat,
                  ghost done: seq<Row>, ghost cur: seq<Cell>, ghost h: Hold, ghost rest: seq<Row>,
                  ghost spares: seq<set<nat>>)
    returns (ghost f: nat)
    requires Building(target, gd, yy + 1, yy + 1, done + [KeptRow(Row(cur, true), h)], rest, spares)
    requires width == Width(cur) && target.linedata != [] && |rest| == |spares|
    requires Stocked(target.linedata[|target.linedata| - 1], cur, h)
    modifies gd`linedata, gd`hscrolled, gd.linedata, target.linedata
    ensures var j := Join(cur, rest, sx);
            Building(target, gd, yy + 1, f, done + [KeptRow(j.row, h)], j.rest, SparesLeft(rest, spares, j.rest))
            && gd.hscrolled == JoinScrolled(old(gd.hscrolled), |done|, |rest| - |j.rest|)
    ensures forall i :: 0 <= i < |gd.linedata| ==> gd.linedata[i] in old(gd.linedata) || fresh(gd.linedata[i])
  {
    hide Building, Consumed, ScanRows, Stocked, KeptRow;
    var gl := LastLine(target, gd, yy, done + [KeptRow(Row(cur, true), h)], rest, spares);
    var to := target.sy - 1;
    var lines, from, want, wrapped;
    ghost var t;
    lines, from, want, wrapped, t := FillLast(target, gd, yy, sx, width, gl, done, cur, h, rest, spares);
    JoinIsFinish(cur, rest, sx);
    f := yy + 1;
    if from == -1 {
      return;
    }
    lines, f := RemoveTaken(target, gd, yy, gl, lines, from, want, wrapped, done, cur, h, rest, spares, t);
    var at := if gd.hscrolled > to + lines then gd.hscrolled - lines
              else if gd.hscrolled > to then to
              else gd.hscrolled;
    ghost var j := Join(cur, rest, sx);
    SetScrolled(target, gd, yy + 1, f, at, done + [KeptRow(j.row, h)], j.rest, SparesLeft(rest, spares, j.rest));
  }

  /** A new scroll position touches no row. */
  method SetScrolled(target: Grid, gd: Grid, yy: nat, ghost f: nat, at: nat, ghost done: seq<Row>, ghost todo: seq<Row>,
                     ghost spares: seq<set<nat>>)
    requires Building(target, gd, yy, f, done, todo, spares)
    modifies gd`hscrolled
    ensures Building(target, gd, yy, f, done, todo, spares) && gd.hscrolled == at
  {
    hide RowOf, RowsOf, SpareOf, SparesOf, Line.Valid, Distinct, Disjoint;
    gd.hscrolled := at;
  }

  method LastLine(target: Grid, gd: Grid, yy: nat, ghost done: seq<Row>, ghost rest: seq<Row>,
                  ghost spares: seq<set<nat>>)
    returns (gl: Line)
    requires Building(target, gd, yy + 1, yy + 1, done, rest, spares) && done != []
    ensures target.sy > 0 && gl == target.linedata[target.sy - 1] && gl in target.linedata
    ensures target.sy == |target.linedata| == |done|
  {
    gl := target.linedata[target.sy - 1];
  }

  /** What is left of the rows below: from the row cut short on, or from the one after those
      used up. */
  lemma LeftBelow(cur: seq<Cell>, rest: seq<Row>, spares: seq<set<nat>>, t: Scan)
    requires |spares| == |rest| && Consumed(cur, rest, t) && t.from >= 0
    ensures var j := Finish(cur, rest, t);
            if t.want != |rest[t.from].cells| then
              && j.rest == rest[t.from := rest[t.from].(cells := rest[t.from].cells[t.want..])][t.from..]
              && SparesLeft(rest, spares, j.rest) == spares[t.from := {}][t.from..]
            else j.rest == rest[t.lines..] && SparesLeft(rest, spares, j.rest) == spares[t.lines..]
  {
  }

  /** The end of grid_reflow_join: a row cut short loses what was taken from it; if the
      last row was used up and not wrapped, neither is the target row any more. */
  method RemoveTaken(target: Grid, gd: Grid, yy: nat, gl: Line, lines0: nat, from: nat, want: nat, wrapped: bool,
                     ghost done: seq<Row>, ghost cur: seq<Cell>, ghost h: Hold, ghost rest: seq<Row>,
                     ghost spares: seq<set<nat>>, ghost t: Scan)
    returns (lines: nat, ghost f: nat)
    requires Building(target, gd, yy + 1, yy + 1, done + [KeptRow(Row(t.cells, true), h)], rest, spares)
    requires gl == target.linedata[target.sy - 1] && |spares| == |rest|
    requires t == Scan(t.cells, lines0, from, want, wrapped) && Consumed(cur, rest, t)
    modifies gl, gd`linedata, gd.linedata
    ensures var j := Finish(cur, rest, t);
            Building(target, gd, yy + 1, f, done + [KeptRow(j.row, h)], j.rest, SparesLeft(rest, spares, j.rest))
            && lines == |rest| - |j.rest|
    ensures forall i :: 0 <= i < |gd.linedata| ==> gd.linedata[i] in old(gd.linedata) || fresh(gd.linedata[i])
  {
    hide Building, KeptCells, SparesLeft;
    LeftBelow(cur, rest, spares, t);
    lines := lines0;
    f := yy + 1 + lines;
    ghost var r := KeptRow(Row(t.cells, true), h);
    var line := BelowLine(target, gd, yy, from, done + [r], rest, spares);
    var left := line.cellused - want;
    if left != 0 {
      TrimRow(target, gd, yy + 1, from, line, want, done + [r], rest, spares);
      lines := lines - 1;
      f := yy + 1 + lines;
      ghost var trimmed := rest[from := rest[from].(cells := rest[from].cells[want..])];
      KillRows(target, gd, yy + 1, lines, done + [r], trimmed, spares[from := {}]);
    } else {
      if !wrapped {
        UnwrapLast(target, gd, yy + 1, gl, done, r, rest, spares);
      }
      KillRows(target, gd, yy + 1, lines, done + [KeptRow(Row(t.cells, wrapped), h)], rest, spares);
    }
  }

  method BelowLine(target: Grid, gd: Grid, yy: nat, k: nat, ghost done: seq<Row>, ghost rest: seq<Row>,
                   ghost spares: seq<set<nat>>)
    returns (line: Line)
    requires Building(target, gd, yy + 1, yy + 1, done, rest, spares) && k < |rest|
    ensures yy + 1 + k < |gd.linedata| && line == gd.linedata[yy + 1 + k] && line in gd.linedata
    ensures |rest[k].cells| == line.cellused
  {
    line := gd.linedata[yy + 1 + k];
    assert line == gd.linedata[yy + 1..gd.hsize + gd.sy][k];
    RowLength(line);
  }

  lemma NotExtendedUnit(gl: Line)
    requires gl.Valid() && !gl.extended
    ensures UnitCells(RowOf(gl).cells)
  {
  }

  /** How many rows grid_reflow_split makes room for: by arithmetic if the row never had
      an extended cell, by counting otherwise. */
  method SplitLines(gl: Line, sx: nat, at: nat) returns (lines: nat)
    requires gl.Valid() && sx >= 1 && Width(RowOf(gl).cells) > sx
    requires at == BreakAt(RowOf(gl).cells, 0, 0, sx)
    ensures lines == |Pieces(RowOf(gl).cells, sx)|
  {
    hide SlotsOk, StripAll, RowOf, Overflows;
    ghost var cs := RowOf(gl).cells;
    RowLength(gl);
    if !gl.extended {
      NotExtendedUnit(gl);
      WidthUnit(cs);
      ArithmeticPath(cs, sx);
      lines := 1 + (gl.cellused - 1) / sx;
    } else {
      CountedPath(cs, sx);
      lines := 2;
      var width: nat := 0;
      var i := at;
      while i < gl.cellused
        invariant at <= i <= |cs|
        invariant lines + Overflows(cs[i..], width, sx) == |Pieces(cs, sx)|
      {
        OverflowsNext(cs, i, width, sx);
        var w := CellWidth(gl, i);
        if width + w > sx {
          lines := lines + 1;
          width := 0;
        }
        width := width + w;
        i := i + 1;
      }
      OverflowsNone(width, sx);
      assert cs[|cs|..] == [];
    }
  }

  lemma OverflowsNone(width: nat, sx: nat)
    ensures Overflows([], width, sx) == 0
  {
  }

  /** Setting the wrap flag of one of several rows. */
  method MarkWrapped(lines: seq<Line>, k: nat)
    requires k < |lines| && Distinct(lines) && AllValid(lines)
    modifies lines[k]
    ensures AllValid(lines) && RowsOf(lines) == old(RowsOf(lines))[k := old(RowsOf(lines))[k].(wrapped := true)]
    ensures forall l :: l in lines ==> l.dead == old(l.dead) && SpareOf(l) == old(SpareOf(l))
  {
    hide SlotsOk, StripAll, AllValid;
    ghost var before := RowsOf(lines);
    forall i | 0 <= i < |lines|
      ensures lines[i].Valid() && before[i] == RowOf(lines[i])
    {
      ValidAt(lines, i);
    }
    lines[k].wrapped := true;
    AllValidFrom(lines);
    RowsOfChanged(before, lines, k);
  }

  /** Copying a cell to the end of one of several rows that have no slots to spare. */
  method CopyInto(lines: seq<Line>, k: nat, gsx: nat, from: Line, at: nat, ghost cs: seq<Cell>)
    requires k < |lines| && Distinct(lines) && AllValid(lines) && from !in lines
    requires from.Valid() && at < from.cellused
    requires RowOf(lines[k]).cells == KeptCells(cs, NEW) && NoSpares(lines)
    modifies lines[k]
    ensures AllValid(lines) && NoSpares(lines)
    ensures RowsOf(lines)
            == old(RowsOf(lines))[k := old(RowsOf(lines))[k].(cells := KeptCells(cs + [RowOf(from).cells[at]], NEW))]
    ensures forall l :: l in lines ==> l.dead == old(l.dead)
  {
    hide SlotsOk, StripAll, AllValid, RowOf, KeptCells, SpareOf;
    ghost var before := RowsOf(lines);
    forall i | 0 <= i < |lines|
      ensures lines[i].Valid() && before[i] == RowOf(lines[i])
    {
      ValidAt(lines, i);
    }
    RowLength(lines[k]);
    RowLength(from);
    CopyCell(lines[k], gsx, from, at, cs, NEW);
    RowLength(lines[k]);
    AllValidFrom(lines);
    RowsOfChanged(before, lines, k);
  }

  ghost predicate NoSpares(lines: seq<Line>)
    reads lines
  {
    forall i :: 0 <= i < |lines| ==> SpareOf(lines[i]) == {}
  }

  /** Rows that are copied whole. */
  function Renewed(rows: seq<Row>): (r: seq<Row>)
    ensures |r| == |rows|
  {
    seq(|rows|, i requires 0 <= i < |rows| => KeptRow(rows[i], NEW))
  }

  /** The copying loop's state: `full` rows are finished, `cur` is being filled. */
  ghost predicate Laying(rows: seq<Row>, cs: seq<Cell>, at: nat, i: nat, sx: nat,
                         full: seq<seq<Cell>>, cur: seq<Cell>, width: nat)
  {
    && at <= i <= |cs| && width == Width(cur)
    && Lay(cs[at..], [], 0, sx) == full + Lay(cs[i..], cur, width, sx)
    && |rows| == |Lay(cs[at..], [], 0, sx)|
    && (forall k :: 0 <= k < |full| ==> rows[k] == KeptRow(Row(full[k], true), NEW))
    && |full| < |rows| && rows[|full|] == KeptRow(Row(cur, false), NEW)
    && (forall k :: |full| < k < |rows| ==> rows[k] == BLANK)
  }

  lemma LayStart(rows: seq<Row>, cs: seq<Cell>, at: nat, sx: nat)
    requires at <= |cs| && rows == Blanks(|Lay(cs[at..], [], 0, sx)|)
    ensures Laying(rows, cs, at, at, sx, [], [], 0)
  {
  }

  /** The next cell fits: the row being filled takes it. */
  lemma LayFits(rows: seq<Row>, cs: seq<Cell>, at: nat, i: nat, sx: nat,
                full: seq<seq<Cell>>, cur: seq<Cell>, width: nat)
    requires Laying(rows, cs, at, i, sx, full, cur, width) && i < |cs|
    requires width + cs[i].data.width <= sx
    ensures Laying(rows[|full| := KeptRow(Row(cur + [cs[i]], false), NEW)], cs, at, i + 1, sx,
                   full, cur + [cs[i]], width + cs[i].data.width)
  {
    WidthConcat(cur, [cs[i]]);
    assert Width([cs[i]]) == cs[i].data.width;
    hide Width, KeptCells;
    LayNext(cs, i, cur, width, sx);
  }

  lemma LayNext(cs: seq<Cell>, i: nat, cur: seq<Cell>, width: nat, sx: nat)
    requires i < |cs| && width + cs[i].data.width <= sx
    ensures Lay(cs[i..], cur, width, sx) == Lay(cs[i + 1..], cur + [cs[i]], width + cs[i].data.width, sx)
  {
    assert cs[i..][1..] == cs[i + 1..];
  }

  /** The next cell does not fit: the row is wrapped and the next one starts with it. */
  lemma LayBreaks(rows: seq<Row>, cs: seq<Cell>, at: nat, i: nat, sx: nat,
                  full: seq<seq<Cell>>, cur: seq<Cell>, width: nat)
    requires Laying(rows, cs, at, i, sx, full, cur, width) && i < |cs|
    requires width + cs[i].data.width > sx
    ensures |full| + 1 < |rows| && rows[|full| + 1] == BLANK && rows[|full|].cells == KeptCells(cur, NEW)
    ensures Laying(rows[|full| := rows[|full|].(wrapped := true)][|full| + 1 := KeptRow(Row([cs[i]], false), NEW)],
                   cs, at, i + 1, sx, full + [cur], [cs[i]], cs[i].data.width)
  {
    assert cs[i..][1..] == cs[i + 1..];
    assert Width([cs[i]]) == cs[i].data.width;
    Assoc(full, [cur], Lay(cs[i + 1..], [cs[i]], cs[i].data.width, sx));
  }

  lemma LayEnd(rows: seq<Row>, cs: seq<Cell>, at: nat, sx: nat, full: seq<seq<Cell>>, cur: seq<Cell>, width: nat)
    requires Laying(rows, cs, at, |cs|, sx, full, cur, width)
    ensures var pieces := Lay(cs[at..], [], 0, sx);
            |full| == |pieces| - 1 && rows == Renewed(Wrapped(pieces, false)) && width == Width(pieces[|pieces| - 1])
  {
    assert cs[|cs|..] == [];
  }

  /** A turn of the copying loop that starts the next row. */
  method CopyBreak(news: seq<Line>, line: nat, gsx: nat, gl: Line, at: nat, i: nat, sx: nat, width: nat,
                   ghost full: seq<seq<Cell>>, ghost cur: seq<Cell>)
    requires Distinct(news) && AllValid(news) && NoSpares(news) && gl.Valid() && gl !in news && i < gl.cellused
    requires line == |full| < |news|
    requires Laying(RowsOf(news), RowOf(gl).cells, at, i, sx, full, cur, width)
    requires width + RowOf(gl).cells[i].data.width > sx
    modifies news
    ensures AllValid(news) && NoSpares(news) && line + 1 < |news|
    ensures Laying(RowsOf(news), RowOf(gl).cells, at, i + 1, sx, full + [cur], [RowOf(gl).cells[i]],
                   RowOf(gl).cells[i].data.width)
    ensures forall l :: l in news ==> l.dead == old(l.dead)
  {
    hide SlotsOk, StripAll, AllValid, RowOf, Laying, Line.Valid, Distinct, SpareOf, KeptCells;
    ghost var rows := RowsOf(news);
    RowLength(gl);
    LayBreaks(rows, RowOf(gl).cells, at, i, sx, full, cur, width);
    MarkWrapped(news, line);
    ValidAt(news, line + 1);
    NoneKept();
    CopyInto(news, line + 1, gsx, gl, i, []);
    assert [] + [RowOf(gl).cells[i]] == [RowOf(gl).cells[i]];
  }

  lemma NoneKept()
    ensures KeptCells([], NEW) == []
  {
  }

  lemma LayingRow(rows: seq<Row>, cs: seq<Cell>, at: nat, i: nat, sx: nat,
                  full: seq<seq<Cell>>, cur: seq<Cell>, width: nat)
    requires Laying(rows, cs, at, i, sx, full, cur, width)
    ensures |full| < |rows| && rows[|full|] == KeptRow(Row(cur, false), NEW)
  {
  }

  /** A turn of the copying loop that stays on the row. */
  method CopyFit(news: seq<Line>, line: nat, gsx: nat, gl: Line, at: nat, i: nat, sx: nat, width: nat,
                 ghost full: seq<seq<Cell>>, ghost cur: seq<Cell>)
    requires Distinct(news) && AllValid(news) && NoSpares(news) && gl.Valid() && gl !in news && i < gl.cellused
    requires line == |full| < |news|
    requires Laying(RowsOf(news), RowOf(gl).cells, at, i, sx, full, cur, width)
    requires width + RowOf(gl).cells[i].data.width <= sx
    modifies news
    ensures AllValid(news) && NoSpares(news)
    ensures Laying(RowsOf(news), RowOf(gl).cells, at, i + 1, sx, full, cur + [RowOf(gl).cells[i]],
                   width + RowOf(gl).cells[i].data.width)
    ensures forall l :: l in news ==> l.dead == old(l.dead)
  {
    hide SlotsOk, StripAll, AllValid, RowOf, Laying, Line.Valid, Distinct, SpareOf, KeptCells;
    ghost var rows := RowsOf(news);
    RowLength(gl);
    LayingRow(rows, RowOf(gl).cells, at, i, sx, full, cur, width);
    ValidAt(news, line);
    CopyInto(news, line, gsx, gl, i, cur);
    LayFits(rows, RowOf(gl).cells, at, i, sx, full, cur, width);
  }

  /** The copying loop of grid_reflow_split. */
  method SplitCopy(news: seq<Line>, gsx: nat, gl: Line, at: nat, sx: nat) returns (width: nat)
    requires Distinct(news) && AllValid(news) && gl.Valid() && gl !in news && at <= gl.cellused
    requires |news| == |Lay(RowOf(gl).cells[at..], [], 0, sx)| && RowsOf(news) == Blanks(|news|) && NoSpares(news)
    modifies news
    ensures AllValid(news) && NoSpares(news)
    ensures RowsOf(news) == Renewed(Wrapped(Lay(RowOf(gl).cells[at..], [], 0, sx), false))
    ensures width == Width(Lay(RowOf(gl).cells[at..], [], 0, sx)[|news| - 1])
    ensures forall l :: l in news ==> l.dead == old(l.dead)
  {
    hide SlotsOk, StripAll, AllValid, RowOf, Laying, Line.Valid, Lay, Distinct, NoSpares, Width;
    ghost var cs := RowOf(gl).cells;
    RowLength(gl);
    width := 0;
    var line := 0;
    ghost var full: seq<seq<Cell>>, cur: seq<Cell> := [], [];
    LayStart(RowsOf(news), cs, at, sx);
    var i := at;
    while i < gl.cellused
      invariant at <= i <= |cs| && AllValid(news) && NoSpares(news) && line == |full| < |news|
      invariant Laying(RowsOf(news), cs, at, i, sx, full, cur, width)
      invariant forall l :: l in news ==> l.dead == old(l.dead)
    {
      var w := CellWidth(gl, i);
      if width + w > sx {
        CopyBreak(news, line, gsx, gl, at, i, sx, width, full, cur);
        full, cur := full + [cur], [cs[i]];
        line := line + 1;
        width := w;
      } else {
        CopyFit(news, line, gsx, gl, at, i, sx, width, full, cur);
        cur := cur + [cs[i]];
        width := width + w;
      }
      i := i + 1;
    }
    LayEnd(RowsOf(news), cs, at, sx, full, cur, width);
  }

  /** The new rows of a split, complete: the copied pieces, the last of them wrapped if
      the row was. */
  method NewRows(gsx: nat, gl: Line, at: nat, sx: nat, n: nat) returns (news: seq<Line>, width: nat)
    requires gl.Valid() && at <= gl.cellused && n == |Lay(RowOf(gl).cells[at..], [], 0, sx)|
    ensures fresh(news) && |news| == n && Distinct(news) && AllValid(news) && NoSpares(news)
    ensures forall l :: l in news ==> !l.dead
    ensures RowsOf(news) == Renewed(Wrapped(Lay(RowOf(gl).cells[at..], [], 0, sx), gl.wrapped))
    ensures width == Width(Lay(RowOf(gl).cells[at..], [], 0, sx)[n - 1])
  {
    hide SlotsOk, StripAll, RowOf, RowsOf, AllValid, Line.Valid, Lay, Distinct, Width, Wrapped, Renewed, SpareOf;
    RowLength(gl);
    ghost var pieces := Lay(RowOf(gl).cells[at..], [], 0, sx);
    news := FreshRows(n);
    width := SplitCopy(news, gsx, gl, at, sx);
    if gl.wrapped {
      MarkWrapped(news, n - 1);
      WrapLast(pieces);
    }
  }

  /** xcalloc for the new rows. */
  method FreshRows(n: nat) returns (news: seq<Line>)
    ensures |news| == n && fresh(news) && Distinct(news) && AllValid(news)
    ensures (forall l :: l in news ==> !l.dead) && RowsOf(news) == Blanks(n) && NoSpares(news)
  {
    hide SlotsOk, StripAll, Distinct;
    news := BlankLines(n);
    BlankRows(news);
  }

  lemma BlankRows(lines: seq<Line>)
    requires AllValid(lines)
    requires forall l :: l in lines ==> l.celldata == [] && l.cellused == 0 && !l.wrapped
    ensures RowsOf(lines) == Blanks(|lines|)
  {
  }

  lemma WrapLast(pieces: seq<seq<Cell>>)
    requires pieces != []
    ensures var rows := Renewed(Wrapped(pieces, false));
            rows[|rows| - 1 := rows[|rows| - 1].(wrapped := true)] == Renewed(Wrapped(pieces, true))
  {
  }

  /** The first part of a row that was split keeps its storage and is now wrapped. */
  method CutFirst(gl: Line, at: nat)
    requires gl.Valid() && at <= gl.cellused
    modifies gl
    ensures gl.Valid() && RowOf(gl) == Row(old(RowOf(gl)).cells[..at], true) && gl.dead == old(gl.dead)
    ensures SpareOf(gl) == {}
  {
    gl.Truncate(at);
    gl.wrapped := true;
  }

  /** Cutting the next row of the old grid where the first new row starts. */
  method CutRow(target: Grid, gd: Grid, f: nat, gl: Line, at: nat, ghost done: seq<Row>, ghost todo: seq<Row>,
                ghost spares: seq<set<nat>>)
    requires Building(target, gd, f, f, done, todo, spares)
    requires todo != [] && at <= |todo[0].cells| && gl == gd.linedata[f]
    modifies gl
    ensures spares != []
    ensures Building(target, gd, f, f, done, todo[0 := Row(todo[0].cells[..at], true)], spares[0 := {}])
  {
    hide SlotsOk, RowOf, RowsOf, SpareOf, SparesOf, StripAll, Disjoint, Distinct, AllValid, Line.Valid;
    ghost var rows := gd.linedata[f..gd.hsize + gd.sy];
    assert rows[0] == gl;
    EachValid(target.linedata);
    EachValid(gd.linedata);
    EachValidSlice(gd.linedata, f, gd.hsize + gd.sy);
    assert RowOf(gl) == todo[0];
    ApartFrom(target.linedata, gd.linedata, f);
    OthersApart(gd.linedata, f);
    RowLength(gl);
    CutFirst(gl, at);
    AllValidFrom(gd.linedata);
    AllValidFrom(rows);
    RowsOfChanged(todo, rows, 0);
    SparesOfChanged(spares, rows, 0);
  }

  /** The rows grid_reflow_add made for a split, at the end of the target. */
  method AppendRows(target: Grid, gd: Grid, f: nat, news: seq<Line>,
                    ghost done: seq<Row>, ghost todo: seq<Row>, ghost spares: seq<set<nat>>)
    requires Building(target, gd, f, f, done, todo, spares)
    requires Distinct(news) && AllValid(news) && (forall l :: l in news ==> !l.dead)
    requires Disjoint(target.linedata, news) && Disjoint(news, gd.linedata)
    modifies target`linedata, target`sy
    ensures AllValid(news) && RowsOf(news) == old(RowsOf(news))
    ensures Building(target, gd, f, f, done + RowsOf(news), todo, spares)
    ensures target.linedata == old(target.linedata) + news
  {
    hide SlotsOk, RowOf, RowsOf, SpareOf, SparesOf, Line.Valid;
    RowsOfConcat(target.linedata, news);
    DistinctConcat(target.linedata, news);
    target.linedata := target.linedata + news;
    target.sy := target.sy + |news|;
  }

  lemma DistinctConcat(a: seq<Line>, b: seq<Line>)
    requires Distinct(a) && Distinct(b) && Disjoint(a, b)
    ensures Distinct(a + b)
  {
  }

  /** The measuring loop of grid_reflow: the width of a row, and where it first breaks. */
  method MeasureRow(gl: Line, sx: nat) returns (at: nat, width: nat)
    requires gl.Valid() && sx >= 1
    ensures width == Width(RowOf(gl).cells)
    ensures width > sx ==> at == BreakAt(RowOf(gl).cells, 0, 0, sx)
  {
    hide SlotsOk, StripAll, RowOf;
    ghost var cs := RowOf(gl).cells;
    RowLength(gl);
    at, width := 0, 0;
    if !gl.extended {
      NotExtendedUnit(gl);
      WidthUnit(cs);
      width := gl.cellused;
      at := if width > sx then sx else width;
      if width > sx {
        BreakAtUnit(cs, 0, sx);
      }
    } else {
      for i := 0 to gl.cellused
        invariant width == Width(cs[..i])
        invariant BreakAt(cs, 0, 0, sx) == if at == 0 then BreakAt(cs, i, width, sx) else at
      {
        var w := CellWidth(gl, i);
        assert cs[..i + 1][..i] == cs[..i];
        if at == 0 && width + w > sx {
          at := i;
        }
        width := width + w;
      }
      assert cs[..|cs|] == cs;
    }
  }

  /** The rows a split makes: the first piece stays on its row, the others are copied. */
  function SplitRows(cs: seq<Cell>, sx: nat, wrapped: bool): seq<Row> {
    var pieces := Pieces(cs, sx);
    KeptRows(Wrapped(pieces, wrapped), FirstHolds(pieces))
  }

  lemma SplitShape(done: seq<Row>, cs: seq<Cell>, sx: nat, wrapped: bool)
    ensures var at := BreakAt(cs, 0, 0, sx);
            done + [Row(cs[..at], true)] + Renewed(Wrapped(Lay(cs[at..], [], 0, sx), wrapped))
            == done + SplitRows(cs, sx, wrapped)
  {
    var at := BreakAt(cs, 0, 0, sx);
    var first, news := Row(cs[..at], true), Renewed(Wrapped(Lay(cs[at..], [], 0, sx), wrapped));
    assert KeptRow(first, Hold(|cs[..at]|, {})) == first;
    assert [first] + news == SplitRows(cs, sx, wrapped);
    Assoc(done, [first], news);
  }

  /** The specification's next step at a row that is too wide. */
  lemma SplitStep(todo: seq<Row>, spares: seq<set<nat>>, sx: nat)
    requires todo != [] && |spares| == |todo| && Width(todo[0].cells) > sx
    ensures var r, rest := todo[0], todo[1..];
            var last := Last(r.cells, sx);
            if Width(last) < sx && r.wrapped then
              var j := Join(last, rest, sx);
              var before := KeptRows(Wrapped(First(r.cells, sx), true), FirstHolds(First(r.cells, sx)));
              && SplitRows(r.cells, sx, true) == before + [KeptRow(Row(last, true), NEW)]
              && before + [KeptRow(j.row, NEW)] + KeptReflow(j.rest, SparesLeft(rest, spares[1..], j.rest), sx)
                 == KeptReflow(todo, spares, sx)
            else SplitRows(r.cells, sx, r.wrapped) + KeptReflow(rest, spares[1..], sx) == KeptReflow(todo, spares, sx)
  {
    hide KeptRow, KeptReflow, Reflow, Holds, Join, StopOf;
    var r, rest, t := todo[0], todo[1..], Turned(todo, sx);
    KeptReflowTurn(todo, spares, sx);
    SparesBelow(todo, spares, t.rest);
    SplitLast(r.cells, sx, r.wrapped);
  }

  lemma SparesBelow(rows: seq<Row>, spares: seq<set<nat>>, rest: seq<Row>)
    requires |spares| == |rows| > |rest|
    ensures SparesLeft(rows, spares, rest) == SparesLeft(rows[1..], spares[1..], rest)
    ensures rest == rows[1..] ==> SparesLeft(rows, spares, rest) == spares[1..]
  {
  }

  lemma SplitLast(cs: seq<Cell>, sx: nat, wrapped: bool)
    requires Width(cs) > sx
    ensures var first, last := First(cs, sx), Last(cs, sx);
            SplitRows(cs, sx, wrapped)
            == KeptRows(Wrapped(first, true), FirstHolds(first)) + [KeptRow(Row(last, wrapped), NEW)]
  {
    hide KeptRow, Pieces;
    WrappedLast(Pieces(cs, sx), wrapped);
  }

  /** Where a turn leaves the scroll position, and how many rows it makes and uses. */
  ghost predicate ScrollsOn(todo: seq<Row>, sx: nat, yy: nat, h: nat, to: nat, todo': seq<Row>, h': nat, to': nat)
    requires todo != []
  {
    var t := Turned(todo, sx);
    && todo' == t.rest && to' == to + |t.first| + 1
    && h' == JoinScrolled(SplitScrolled(h, yy, |t.first|), to + |t.first|, |todo| - 1 - |t.rest|)
  }

  lemma ScrollOn(todo: seq<Row>, sx: nat, h: nat, to: nat, end: nat, todo': seq<Row>, h': nat, to': nat)
    requires todo != [] && |todo| <= end && ScrollsOn(todo, sx, end - |todo|, h, to, todo', h', to')
    ensures |todo'| < |todo| && ScrollPass(todo', sx, h', to', end) == ScrollPass(todo, sx, h, to, end)
  {
    ScrollNext(todo, sx, h, to, end);
  }

  /** A turn that joins, and one that does not. */
  lemma TurnJoins(todo: seq<Row>, sx: nat, yy: nat, h: nat, to: nat)
    requires todo != []
    ensures var r, rest, n := todo[0], todo[1..], |First(todo[0].cells, sx)|;
            var last, s := Last(r.cells, sx), SplitScrolled(h, yy, n);
            if r.wrapped && Width(last) < sx then
              var j := Join(last, rest, sx);
              ScrollsOn(todo, sx, yy, h, to, j.rest, JoinScrolled(s, to + n, |rest| - |j.rest|), to + n + 1)
            else ScrollsOn(todo, sx, yy, h, to, rest, s, to + n + 1)
    ensures Width(todo[0].cells) <= sx ==> First(todo[0].cells, sx) == [] && Last(todo[0].cells, sx) == todo[0].cells
  {
    hide Join, StopOf, Pieces;
  }

  lemma SplitCount(cs: seq<Cell>, sx: nat, wrapped: bool)
    requires Width(cs) > sx
    ensures |SplitRows(cs, sx, wrapped)| == |First(cs, sx)| + 1
  {
  }

  /** grid_reflow_split up to the join: the pieces are in the target. */
  method SplitAcross(target: Grid, gd: Grid, sx: nat, yy: nat, gl: Line, at: nat,
                     ghost done: seq<Row>, ghost todo: seq<Row>, ghost spares: seq<set<nat>>)
    returns (width: nat, wrapped: bool)
    requires Building(target, gd, yy, yy, done, todo, spares) && todo != [] && gl == gd.linedata[yy]
    requires sx >= 1 && Width(todo[0].cells) > sx && at == BreakAt(todo[0].cells, 0, 0, sx)
    modifies target, gd, gd.linedata
    ensures |spares| == |todo|
    ensures Building(target, gd, yy + 1, yy + 1, done + SplitRows(todo[0].cells, sx, todo[0].wrapped), todo[1..], spares[1..])
    ensures target.linedata != [] && SpareOf(target.linedata[|target.linedata| - 1]) == {}
    ensures wrapped == todo[0].wrapped && width == Width(Last(todo[0].cells, sx))
    ensures gd.hscrolled == SplitScrolled(old(gd.hscrolled), yy, |First(todo[0].cells, sx)|)
    ensures OwnLines(target, gd) && gd.hsize == old(gd.hsize) && gd.sy == old(gd.sy)
  {
    hide Building, RowOf, SpareOf, Line.Valid, Pieces, Lay, Renewed, SplitRows, Wrapped, Width, BreakAt;
    ghost var r := todo[0];
    var lines, news;
    lines, news, width, wrapped := SplitNews(target, gd, sx, yy, gl, at, done, todo, spares);
    SplitShape(done, r.cells, sx, r.wrapped);
    PlaceNews(target, gd, yy, gl, at, news, done, todo, spares);
    var scrolled := if yy <= gd.hscrolled then gd.hscrolled + lines - 1 else gd.hscrolled;
    SetScrolled(target, gd, yy + 1, yy + 1, scrolled, done + SplitRows(r.cells, sx, r.wrapped), todo[1..], spares[1..]);
  }

  /** The last row of the target, when it is the last piece of a split. */
  lemma LastPiece(target: Grid, gd: Grid, yy: nat, done: seq<Row>, last: seq<Cell>, todo: seq<Row>, spares: seq<set<nat>>)
    requires Building(target, gd, yy, yy, done + [KeptRow(Row(last, true), NEW)], todo, spares)
    requires target.linedata != [] && SpareOf(target.linedata[|target.linedata| - 1]) == {}
    ensures Stocked(target.linedata[|target.linedata| - 1], last, NEW)
  {
    hide SlotsOk, StripAll, RowOf, SpareOf, SparesOf, KeptCells, Distinct, Disjoint, Line.Valid;
    ValidAt(target.linedata, |target.linedata| - 1);
    assert (done + [KeptRow(Row(last, true), NEW)])[|done|] == KeptRow(Row(last, true), NEW);
  }

  /** grid_reflow_split */
  method ReflowSplit(target: Grid, gd: Grid, sx: nat, yy: nat, gl: Line, at: nat,
                     ghost done: seq<Row>, ghost todo: seq<Row>, ghost spares: seq<set<nat>>)
    returns (ghost f: nat, ghost done': seq<Row>, ghost todo': seq<Row>, ghost spares': seq<set<nat>>)
    requires Building(target, gd, yy, yy, done, todo, spares) && todo != [] && |spares| == |todo|
    requires gl == gd.linedata[yy] && sx >= 1
    requires Width(todo[0].cells) > sx && at == BreakAt(todo[0].cells, 0, 0, sx)
    modifies target, gd, target.linedata, gd.linedata
    ensures |spares'| == |todo'| && Building(target, gd, yy + 1, f, done', todo', spares')
    ensures done' + KeptReflow(todo', spares', sx) == done + KeptReflow(todo, spares, sx)
    ensures ScrollsOn(todo, sx, yy, old(gd.hscrolled), |done|, todo', gd.hscrolled, |done'|)
    ensures OwnLines(target, gd) && gd.hsize == old(gd.hsize) && gd.sy == old(gd.sy)
  {
    hide Building, RowOf, RowsOf, Line.Valid, Line.Cells, KeptReflow, Reflow, Holds, First, Last, Pieces, Lay, SplitRows,
      Stocked, KeptRow, KeptRows, Wrapped, Width, BreakAt, SpareOf, SparesOf, FirstHolds, Join, SparesLeft, ScrollsOn;
    ghost var r, rest, left := todo[0], todo[1..], spares[1..];
    ghost var first, last := First(r.cells, sx), Last(r.cells, sx);
    var width, wrapped := SplitAcross(target, gd, sx, yy, gl, at, done, todo, spares);
    f, done', todo', spares' := yy + 1, done + SplitRows(r.cells, sx, r.wrapped), rest, left;
    SplitStep(todo, spares, sx);
    SplitCount(r.cells, sx, r.wrapped);
    TurnJoins(todo, sx, yy, old(gd.hscrolled), |done|);
    if width < sx && wrapped {
      ghost var before := KeptRows(Wrapped(first, true), FirstHolds(first));
      ghost var j := Join(last, rest, sx);
      Assoc(done, before, [KeptRow(Row(last, true), NEW)]);
      LastPiece(target, gd, yy + 1, done + before, last, rest, left);
      f := JoinOnto(target, gd, yy, sx, width, done + before, last, NEW, rest, left);
      done', todo', spares' := done + before + [KeptRow(j.row, NEW)], j.rest, SparesLeft(rest, left, j.rest);
      Assoc(done, before, [KeptRow(j.row, NEW)]);
      Assoc(done, before + [KeptRow(j.row, NEW)], KeptReflow(todo', spares', sx));
    } else {
      Assoc(done, SplitRows(r.cells, sx, r.wrapped), KeptReflow(rest, left, sx));
    }
  }

  /** Making room for the pieces of the next row and filling all but the first. */
  method SplitNews(target: Grid, gd: Grid, sx: nat, yy: nat, gl: Line, at: nat,
                   ghost done: seq<Row>, ghost todo: seq<Row>, ghost spares: seq<set<nat>>)
    returns (lines: nat, news: seq<Line>, width: nat, wrapped: bool)
    requires Building(target, gd, yy, yy, done, todo, spares) && todo != [] && gl == gd.linedata[yy]
    requires sx >= 1 && Width(todo[0].cells) > sx && at == BreakAt(todo[0].cells, 0, 0, sx)
    ensures wrapped == todo[0].wrapped && lines == |Pieces(todo[0].cells, sx)|
    ensures fresh(news) && news != [] && Distinct(news) && AllValid(news) && NoSpares(news)
    ensures forall l :: l in news ==> !l.dead
    ensures RowsOf(news) == Renewed(Wrapped(Lay(todo[0].cells[at..], [], 0, sx), wrapped))
    ensures width == Width(Last(todo[0].cells, sx))
    ensures gl in gd.linedata && yy < gd.hsize + gd.sy && |spares| == |todo|
  {
    hide SlotsOk, StripAll, Renewed, RowOf, SpareOf, SparesOf, Lay, Width;
    assert gl == gd.linedata[yy..gd.hsize + gd.sy][0];
    RowLength(gl);
    lines := SplitLines(gl, sx, at);
    wrapped := gl.wrapped;
    news, width := NewRows(target.sx, gl, at, sx, lines - 1);
  }

  /** Cutting the row, moving it across, and the new rows after it. */
  method PlaceNews(target: Grid, gd: Grid, yy: nat, gl: Line, at: nat, news: seq<Line>,
                   ghost done: seq<Row>, ghost todo: seq<Row>, ghost spares: seq<set<nat>>)
    requires Building(target, gd, yy, yy, done, todo, spares) && todo != []
    requires gl == gd.linedata[yy] && gl in gd.linedata
    requires at <= |todo[0].cells| && yy < gd.hsize + gd.sy && |spares| == |todo|
    requires news != [] && Distinct(news) && AllValid(news) && NoSpares(news) && (forall l :: l in news ==> !l.dead)
    requires Disjoint(target.linedata, news) && Disjoint(news, gd.linedata)
    modifies target`linedata, target`sy, gd`linedata, gl
    ensures AllValid(news) && RowsOf(news) == old(RowsOf(news)) && NoSpares(news)
    ensures Building(target, gd, yy + 1, yy + 1, done + [Row(todo[0].cells[..at], true)] + RowsOf(news), todo[1..], spares[1..])
    ensures target.linedata == old(target.linedata) + [gl] + news
    ensures |gd.linedata| == old(|gd.linedata|) && fresh(gd.linedata[yy])
    ensures gd.linedata == old(gd.linedata)[yy := gd.linedata[yy]]
  {
    hide Building, RowOf, RowsOf, SpareOf, SparesOf, Line.Valid;
    ghost var cut := todo[0 := Row(todo[0].cells[..at], true)];
    CutRow(target, gd, yy, gl, at, done, todo, spares);
    assert cut[0] == Row(todo[0].cells[..at], true) && cut[1..] == todo[1..] && spares[0 := {}][1..] == spares[1..];
    ReflowMove(target, gd, yy, done, cut, spares[0 := {}]);
    AppendRows(target, gd, yy + 1, news, done + [cut[0]], todo[1..], spares[1..]);
  }

  lemma JoinStep(todo: seq<Row>, done: seq<Row>, spares: seq<set<nat>>, sx: nat)
    requires todo != [] && |spares| == |todo| && Width(todo[0].cells) < sx && todo[0].wrapped
    ensures var j := Join(todo[0].cells, todo[1..], sx);
            (done + [KeptRow(j.row, Hold(|todo[0].cells|, spares[0]))])
            + KeptReflow(j.rest, SparesLeft(todo[1..], spares[1..], j.rest), sx)
            == done + KeptReflow(todo, spares, sx)
  {
    hide KeptRow, KeptReflow, Reflow, Holds, StopOf;
    var j := Join(todo[0].cells, todo[1..], sx);
    var row := KeptRow(j.row, Hold(|todo[0].cells|, spares[0]));
    KeptReflowTurn(todo, spares, sx);
    SparesBelow(todo, spares, j.rest);
    assert KeptRows(Wrapped([], true), FirstHolds([])) + [row] == [row];
    Assoc(done, [row], KeptReflow(j.rest, SparesLeft(todo, spares, j.rest), sx));
  }

  lemma MoveStep(todo: seq<Row>, done: seq<Row>, spares: seq<set<nat>>, sx: nat)
    requires todo != [] && |spares| == |todo|
    requires Width(todo[0].cells) == sx || (Width(todo[0].cells) < sx && !todo[0].wrapped)
    ensures (done + [todo[0]]) + KeptReflow(todo[1..], spares[1..], sx) == done + KeptReflow(todo, spares, sx)
  {
    hide KeptReflow, Reflow, Holds;
    KeptReflowTurn(todo, spares, sx);
    SparesBelow(todo, spares, todo[1..]);
    OwnRow(todo[0], spares[0]);
    assert KeptRows(Wrapped([], true), FirstHolds([])) + [todo[0]] == [todo[0]];
    Assoc(done, [todo[0]], KeptReflow(todo[1..], spares[1..], sx));
  }

  /** A row keeps the cells it has. */
  lemma OwnRow(r: Row, spare: set<nat>)
    ensures KeptRow(r, Hold(|r.cells|, spare)) == r
  {
    assert KeptCells(r.cells, Hold(|r.cells|, spare)) == r.cells;
  }

  /** A row just moved across holds what it held. */
  lemma OwnStock(gl: Line)
    requires gl.Valid()
    ensures Stocked(gl, RowOf(gl).cells, Hold(|RowOf(gl).cells|, SpareOf(gl)))
  {
    RowLength(gl);
    OwnRow(RowOf(gl), SpareOf(gl));
  }

  /** One turn of the loop of grid_reflow, at a row that is not dead. */
  method ReflowLine(target: Grid, gd: Grid, sx: nat, yy: nat, gl: Line,
                    ghost done: seq<Row>, ghost todo: seq<Row>, ghost spares: seq<set<nat>>)
    returns (ghost f: nat, ghost done': seq<Row>, ghost todo': seq<Row>, ghost spares': seq<set<nat>>)
    requires Building(target, gd, yy, yy, done, todo, spares) && todo != [] && |spares| == |todo|
    requires gl == gd.linedata[yy] && sx >= 1
    requires gl.Valid() && RowOf(gl) == todo[0] && SpareOf(gl) == spares[0] && yy < gd.hsize + gd.sy
    modifies target, gd, target.linedata, gd.linedata
    ensures |spares'| == |todo'| && Building(target, gd, yy + 1, f, done', todo', spares')
    ensures done' + KeptReflow(todo', spares', sx) == done + KeptReflow(todo, spares, sx)
    ensures ScrollsOn(todo, sx, yy, old(gd.hscrolled), |done|, todo', gd.hscrolled, |done'|)
    ensures OwnLines(target, gd) && gd.hsize == old(gd.hsize) && gd.sy == old(gd.sy)
  {
    hide Building, RowOf, RowsOf, SpareOf, SparesOf, Line.Valid, Line.Cells, KeptReflow, Reflow, Holds, KeptRow, Stocked,
      First, Last, Pieces, Join, Width, BreakAt, SparesLeft, ScrollsOn;
    var at, width := MeasureRow(gl, sx);
    RowLength(gl);
    if width > sx {
      f, done', todo', spares' := ReflowSplit(target, gd, sx, yy, gl, at, done, todo, spares);
      return;
    }
    var wrapped := gl.wrapped;
    ghost var h := Hold(|todo[0].cells|, spares[0]);
    OwnStock(gl);
    OwnRow(todo[0], spares[0]);
    TurnJoins(todo, sx, yy, old(gd.hscrolled), |done|);
    ReflowMove(target, gd, yy, done, todo, spares);
    f, done', todo', spares' := yy + 1, done + [todo[0]], todo[1..], spares[1..];
    if width < sx && wrapped {
      ghost var j := Join(todo[0].cells, todo[1..], sx);
      assert todo[0] == Row(todo[0].cells, true);
      f := JoinOnto(target, gd, yy, sx, width, done, todo[0].cells, h, todo[1..], spares[1..]);
      done', todo', spares' := done + [KeptRow(j.row, h)], j.rest, SparesLeft(todo[1..], spares[1..], j.rest);
      JoinStep(todo, done, spares, sx);
    } else {
      MoveStep(todo, done, spares, sx);
    }
  }

  /** The row the loop has reached: dead, or the first of those still to be processed. */
  method NextLine(target: Grid, gd: Grid, yy: nat, ghost f: nat, ghost done: seq<Row>, ghost todo: seq<Row>,
                  ghost spares: seq<set<nat>>)
    returns (gl: Line)
    requires Building(target, gd, yy, f, done, todo, spares) && yy < gd.hsize + gd.sy
    ensures gl == gd.linedata[yy] && gl.Valid() && |spares| == |todo|
    ensures gl.dead ==> f > yy && Building(target, gd, yy + 1, f, done, todo, spares)
    ensures !gl.dead ==> f == yy && todo != [] && RowOf(gl) == todo[0] && SpareOf(gl) == spares[0]
    ensures !gl.dead ==> |todo| == gd.hsize + gd.sy - yy
  {
    hide SlotsOk, StripAll, RowOf, SpareOf;
    gl := gd.linedata[yy];
    ValidAt(gd.linedata, yy);
    if !gl.dead {
      assert gl == gd.linedata[f..gd.hsize + gd.sy][0];
    }
  }

  lemma StartBuilding(target: Grid, gd: Grid)
    requires target != gd && target.sy == 0 && target.linedata == [] && gd.Valid()
    requires forall l :: l in gd.Lines() ==> !l.dead
    ensures Building(target, gd, 0, 0, [], RowsOf(gd.Lines()), SparesOf(gd.Lines()))
  {
    hide SlotsOk, StripAll, RowOf, SpareOf, Line.Valid;
    assert gd.Lines() == gd.linedata[0..gd.hsize + gd.sy];
    forall i | 0 <= i < gd.hsize + gd.sy
      ensures !gd.linedata[i].dead
    {
      assert gd.linedata[i] == gd.Lines()[i];
    }
  }

  lemma KeptNone(spares: seq<set<nat>>, sx: nat, h: nat, to: nat, end: nat)
    requires spares == []
    ensures KeptReflow([], spares, sx) == [] && ScrollPass([], sx, h, to, end) == h
  {
  }

  lemma AllTodo(target: Grid, gd: Grid, f: nat, done: seq<Row>, todo: seq<Row>, spares: seq<set<nat>>)
    requires Building(target, gd, gd.hsize + gd.sy, f, done, todo, spares)
    ensures todo == [] && spares == []
  {
  }

  /** The end of grid_reflow: the target is padded to the height of the screen and its
      rows become the grid's. */
  method FinishReflow(target: Grid, gd: Grid, ghost f: nat, ghost done: seq<Row>)
    requires Building(target, gd, gd.hsize + gd.sy, f, done, [], [])
    modifies target, gd
    ensures gd.Valid() && (forall l :: l in gd.Lines() ==> !l.dead)
    ensures gd.sy == old(gd.sy) && gd.hsize + gd.sy == |gd.linedata|
    ensures gd.hscrolled == if old(gd.hscrolled) > gd.hsize then gd.hsize else old(gd.hscrolled)
    ensures RowsOf(gd.Lines()) == if |done| < gd.sy then done + Blanks(gd.sy - |done|) else done
  {
    hide SlotsOk, StripAll, RowOf, RowsOf, SpareOf, Line.Valid;
    if target.sy < gd.sy {
      var news := BlankLines(gd.sy - target.sy);
      BlankRows(news);
      RowsOfConcat(target.linedata, news);
      DistinctConcat(target.linedata, news);
      target.linedata := target.linedata + news;
      target.sy := gd.sy;
    }
    gd.hsize := target.sy - gd.sy;
    if gd.hscrolled > gd.hsize {
      gd.hscrolled := gd.hsize;
    }
    gd.linedata := target.linedata;
    assert gd.Lines() == gd.linedata;
  }

  /** The loop of grid_reflow over the rows of the old grid. */
  method ReflowLoop(target: Grid, gd: Grid, sx: nat, ghost rows: seq<Row>, ghost slots: seq<set<nat>>)
    returns (ghost f: nat)
    requires Building(target, gd, 0, 0, [], rows, slots) && sx >= 1
    requires |rows| == |slots| == gd.hsize + gd.sy
    modifies target, gd, target.linedata, gd.linedata
    ensures Building(target, gd, gd.hsize + gd.sy, f, KeptReflow(rows, slots, sx), [], [])
    ensures gd.hsize == old(gd.hsize) && gd.sy == old(gd.sy)
    ensures gd.hscrolled == ScrollPass(rows, sx, old(gd.hscrolled), 0, |rows|)
  {
    hide Building, RowOf, RowsOf, SpareOf, SparesOf, Line.Valid, KeptReflow, Reflow, Holds, ScrollPass, ScrollsOn, Turned,
      AllValid, Distinct, SlotsOk, Line.Cells;
    ghost var done, todo, spares := [], rows, slots;
    f := 0;
    var yy := 0;
    while yy < gd.hsize + gd.sy
      invariant yy <= gd.hsize + gd.sy && gd.hsize == old(gd.hsize) && gd.sy == old(gd.sy)
      invariant Building(target, gd, yy, f, done, todo, spares) && OwnLines(target, gd) && |todo| == |spares|
      invariant done + KeptReflow(todo, spares, sx) == KeptReflow(rows, slots, sx)
      invariant |todo| <= |rows|
      invariant ScrollPass(todo, sx, gd.hscrolled, |done|, |rows|) == ScrollPass(rows, sx, old(gd.hscrolled), 0, |rows|)
    {
      var gl := NextLine(target, gd, yy, f, done, todo, spares);
      if !gl.dead {
        ghost var was, h, to := todo, gd.hscrolled, |done|;
        f, done, todo, spares := ReflowLine(target, gd, sx, yy, gl, done, todo, spares);
        ScrollOn(was, sx, h, to, |rows|, todo, gd.hscrolled, |done|);
      }
      yy := yy + 1;
    }
    AllTodo(target, gd, f, done, todo, spares);
    KeptNone(spares, sx, gd.hscrolled, |done|, |rows|);
    assert done + [] == done;
  }

  /** grid_reflow: whatever the widths of the cells and the slots of the rows, the rows of the
      grid afterwards are exactly the specified ones. */
  method ReflowAll(gd: Grid, sx: nat)
    requires gd.Valid() && sx >= 1 && forall l :: l in gd.Lines() ==> !l.dead
    modifies gd, gd.linedata
    ensures gd.Valid() && (forall l :: l in gd.Lines() ==> !l.dead)
    ensures gd.sy == old(gd.sy) && gd.hsize + gd.sy == |gd.linedata|
    ensures RowsOf(gd.Lines()) == KeptGrid(old(RowsOf(gd.Lines())), old(SparesOf(gd.Lines())), sx, gd.sy)
    ensures var h := ScrollPass(old(RowsOf(gd.Lines())), sx, old(gd.hscrolled), 0, old(gd.hsize + gd.sy));
            gd.hscrolled == if h > gd.hsize then gd.hsize else h
  {
    hide Building, RowOf, RowsOf, SpareOf, SparesOf, Line.Valid, Line.Cells, SlotsOk, KeptReflow, Reflow, Holds;
    var target := new Grid(gd.sx, 0, 0);
    ghost var rows, spares := RowsOf(gd.Lines()), SparesOf(gd.Lines());
    StartBuilding(target, gd);
    ghost var f := ReflowLoop(target, gd, sx, rows, spares);
    FinishReflow(target, gd, f, KeptReflow(rows, spares, sx));
  }
}

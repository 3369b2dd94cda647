/** One turn of the reflow loop at a time, and what the turns do to the logical lines: which
    joins end a line too early, and that nothing else changes a line (grid.c). */
module ReflowTurns {
  import opened GridCells
  import opened ReflowRows
  import opened ReflowLines

  /** How a join left the wrap of its row: as the rows it used up have it, or cleared at a
      row it took nothing of, which was blank or did not fit. */
  datatype Stop = None | AtBlank | AtWide

  /** The guard of grid.c:1290-1306: `wrapped` is cleared before the row is looked at. */
  function StopAt(rest: seq<Row>, t: Scan): Stop
    requires Reached(rest, t)
  {
    if t.from == -1 || t.lines == |rest| || t.wrapped || !rest[t.from].wrapped then None
    else if rest[t.lines].cells == [] then AtBlank
    else AtWide
  }

  function StopOf(cur: seq<Cell>, rest: seq<Row>, sx: nat): Stop {
    ScanReached(rest, sx, Start(cur));
    StopAt(rest, ScanRows(rest, sx, Start(cur)))
  }

  /** What a turn writes and leaves: rows of a split, the row after them, the rows below. */
  datatype Turn = Turn(first: seq<seq<Cell>>, row: Row, rest: seq<Row>, stop: Stop)

  function Done(t: Turn, below: seq<Row>): seq<Row> {
    Wrapped(t.first, true) + ([t.row] + below)
  }

  /** The pieces of a row before its last, and its last. */
  function First(cs: seq<Cell>, sx: nat): seq<seq<Cell>> {
    if Width(cs) > sx then var p := Pieces(cs, sx); p[..|p| - 1] else []
  }

  function Last(cs: seq<Cell>, sx: nat): seq<Cell> {
    if Width(cs) > sx then var p := Pieces(cs, sx); p[|p| - 1] else cs
  }

  function Turned(rows: seq<Row>, sx: nat): (t: Turn)
    requires rows != []
    ensures |t.rest| < |rows|
  {
    var r, cur := rows[0], Last(rows[0].cells, sx);
    if r.wrapped && Width(cur) < sx then
      var j := Join(cur, rows[1..], sx);
      Turn(First(r.cells, sx), j.row, j.rest, StopOf(cur, rows[1..], sx))
    else Turn(First(r.cells, sx), Row(cur, r.wrapped), rows[1..], None)
  }

  lemma ReflowTurn(rows: seq<Row>, sx: nat)
    requires rows != []
    ensures Reflow(rows, sx) == Done(Turned(rows, sx), Reflow(Turned(rows, sx).rest, sx))
  {
    hide Pieces, Join, StopOf, Width;
    var r, rest := rows[0], rows[1..];
    var t := Turned(rows, sx);
    Assoc(Wrapped(t.first, true), [t.row], Reflow(t.rest, sx));
    if Width(r.cells) > sx {
      var p := Pieces(r.cells, sx);
      WrappedLast(p, r.wrapped);
    } else {
      assert Wrapped([], true) + ([t.row] + Reflow(t.rest, sx)) == [t.row] + Reflow(t.rest, sx);
    }
  }

  /** How many joins of the whole pass stop in this way. */
  function Stops(rows: seq<Row>, sx: nat, stop: Stop): nat
    decreases |rows|
  {
    if rows == [] then 0
    else
      var t := Turned(rows, sx);
      (if t.stop == stop then 1 else 0) + Stops(t.rest, sx, stop)
  }

  // ----- Lines of a grid before and after

  /** The lines that have cells. */
  function Said(g: seq<seq<Cell>>): nat {
    if g == [] then 0 else (if g[0] == [] then 0 else 1) + Said(g[1..])
  }

  lemma SaidCons(line: seq<Cell>, g: seq<seq<Cell>>)
    ensures Said([line] + g) == (if line == [] then 0 else 1) + Said(g)
  {
    assert ([line] + g)[1..] == g;
  }

  /** Lines `h` are `g` with lines cut in two: so many cuts leave a blank line, so many none. */
  ghost predicate Grown(g: seq<seq<Cell>>, h: seq<seq<Cell>>, blank: nat, said: nat) {
    && |h| == |g| + blank + said && Said(h) == Said(g) + said
    && (blank + said == 0 ==> h == g)
    && (g == [] <==> h == []) && (g != [] ==> (g[0] == [] <==> h[0] == []))
  }

  lemma GrownCons(line: seq<Cell>, g: seq<seq<Cell>>, h: seq<seq<Cell>>, blank: nat, said: nat)
    requires Grown(g, h, blank, said)
    ensures Grown([line] + g, [line] + h, blank, said)
  {
    SaidCons(line, g);
    SaidCons(line, h);
  }

  /** The first line made longer at its front, on both sides. */
  lemma GrownFirst(cs: seq<Cell>, g: seq<seq<Cell>>, h: seq<seq<Cell>>, blank: nat, said: nat)
    requires Grown(g, h, blank, said) && g != []
    ensures Grown([cs + g[0]] + g[1..], [cs + h[0]] + h[1..], blank, said)
  {
    SaidCons(cs + g[0], g[1..]);
    SaidCons(cs + h[0], h[1..]);
  }

  lemma GlueNone(rows: seq<Row>)
    ensures Glue(rows) == [] <==> rows == []
  {
  }

  lemma {:induction false} GrownAfter(pre: seq<Row>, a: seq<Row>, b: seq<Row>, blank: nat, said: nat)
    requires Grown(Glue(a), Glue(b), blank, said)
    ensures Grown(Glue(pre + a), Glue(pre + b), blank, said)
  {
    if pre == [] {
      assert pre + a == a && pre + b == b;
    } else {
      var r, p := pre[0], pre[1..];
      GrownAfter(p, a, b, blank, said);
      assert pre + a == [r] + (p + a) && pre + b == [r] + (p + b);
      GlueCons(r, p + a);
      GlueCons(r, p + b);
      GlueNone(p + a);
      GlueNone(p + b);
      hide Grown, Glue;
      if r.wrapped && p + a != [] {
        GrownSame(p + a, p + b, blank, said);
        GrownFirst(r.cells, Glue(p + a), Glue(p + b), blank, said);
      } else {
        GrownSame(p + a, p + b, blank, said);
        GrownCons(r.cells, Glue(p + a), Glue(p + b), blank, said);
      }
    }
  }

  lemma GrownSame(a: seq<Row>, b: seq<Row>, blank: nat, said: nat)
    requires Grown(Glue(a), Glue(b), blank, said)
    ensures a == [] <==> b == []
  {
    GlueNone(a);
    GlueNone(b);
  }

  lemma GrownTwice(f: seq<seq<Cell>>, g: seq<seq<Cell>>, h: seq<seq<Cell>>, b1: nat, s1: nat, b2: nat, s2: nat)
    requires Grown(f, g, b1, s1) && Grown(g, h, b2, s2)
    ensures Grown(f, h, b1 + b2, s1 + s2)
  {
  }

  // ----- A split keeps the line

  lemma {:induction false} GluePieces(first: seq<seq<Cell>>, row: Row, below: seq<Row>)
    ensures Glue(Wrapped(first, true) + ([row] + below)) == Glue([Row(Concat(first) + row.cells, row.wrapped)] + below)
  {
    if first == [] {
      assert Wrapped(first, true) + ([row] + below) == [row] + below;
      assert Concat(first) + row.cells == row.cells;
    } else {
      var p, more := first[0], Wrapped(first[1..], true) + ([row] + below);
      GluePieces(first[1..], row, below);
      assert Wrapped(first, true) + ([row] + below) == [Row(p, true)] + more;
      GlueCons(Row(p, true), more);
      var tail := Concat(first[1..]) + row.cells;
      GlueCons(Row(tail, row.wrapped), below);
      GlueCons(Row(Concat(first) + row.cells, row.wrapped), below);
      Assoc(p, Concat(first[1..]), row.cells);
      if row.wrapped && below != [] {
        Assoc(p, tail, Glue(below)[0]);
      }
    }
  }

  lemma LastConserves(cs: seq<Cell>, sx: nat)
    ensures Concat(First(cs, sx)) + Last(cs, sx) == cs
  {
    if Width(cs) > sx {
      PiecesConserve(cs, sx);
      ConcatLast(Pieces(cs, sx));
    }
  }

  // ----- A join keeps the line, or stops and leaves the rest of it as a line of its own

  /** The lines from a row on that goes on. */
  function From(cells: seq<Cell>, rest: seq<Row>): seq<seq<Cell>> {
    Glue([Row(cells, true)] + rest)
  }

  lemma FromCons(cells: seq<Cell>, r: Row, rest: seq<Row>)
    ensures From(cells, [r] + rest) == if r.wrapped then From(cells + r.cells, rest) else [cells + r.cells] + Glue(rest)
  {
    GlueCons(Row(cells, true), [r] + rest);
    GlueCons(r, rest);
    GlueCons(Row(cells + r.cells, true), rest);
    if r.wrapped && rest != [] {
      Assoc(cells, r.cells, Glue(rest)[0]);
    }
  }

  ghost predicate Scanning(cur: seq<Cell>, rest: seq<Row>, s: Scan) {
    && Reached(rest, s) && s.wrapped
    && (s.from == -1 ==> s.cells == cur && From(cur, rest) == From(cur, rest[s.lines..]))
    && (s.from >= 0 ==> s.want == |rest[s.from].cells| && s.cells != [] && rest[s.from].wrapped)
  }

  function One(a: Stop, b: Stop): nat {
    if a == b then 1 else 0
  }

  ghost predicate Finished(cur: seq<Cell>, rest: seq<Row>, t: Scan, before: seq<seq<Cell>>) {
    && Reached(rest, t)
    && var j := Finish(cur, rest, t);
       Grown(before, Glue([j.row] + j.rest), One(StopAt(rest, t), AtBlank), One(StopAt(rest, t), AtWide))
  }

  lemma GrownNone(g: seq<seq<Cell>>)
    ensures Grown(g, g, 0, 0)
  {
  }

  /** The loop ends, with what it has, before the row it is at. */
  lemma EndLines(cur: seq<Cell>, rest: seq<Row>, s: Scan)
    requires Scanning(cur, rest, s)
    ensures Finished(cur, rest, s, From(s.cells, rest[s.lines..]))
  {
    GrownNone(From(s.cells, rest[s.lines..]));
  }

  lemma StopLines(cur: seq<Cell>, rest: seq<Row>, s: Scan)
    requires Scanning(cur, rest, s) && s.lines < |rest| && !rest[s.lines].wrapped
    ensures Finished(cur, rest, s.(wrapped := false), From(s.cells, rest[s.lines..]))
  {
    var g := From(s.cells, rest[s.lines..]);
    if s.from == -1 {
      GrownNone(g);
    } else {
      var r, below := rest[s.lines], rest[s.lines + 1..];
      assert rest[s.lines..] == [r] + below;
      FromCons(s.cells, r, below);
      GlueCons(r, below);
      GlueCons(Row(s.cells, false), rest[s.lines..]);
      CutInTwo(s.cells, r.cells, Glue(below));
    }
  }

  lemma CutInTwo(a: seq<Cell>, b: seq<Cell>, g: seq<seq<Cell>>)
    requires a != []
    ensures Grown([a + b] + g, [a] + ([b] + g), if b == [] then 1 else 0, if b == [] then 0 else 1)
  {
    SaidCons(a + b, g);
    SaidCons(b, g);
    SaidCons(a, [b] + g);
  }

  /** The loop takes `n` cells of a row and is done. */
  lemma TakeLines(cur: seq<Cell>, rest: seq<Row>, s: Scan, n: nat)
    requires Scanning(cur, rest, s) && s.lines < |rest| && 0 < n <= |rest[s.lines].cells|
    ensures var r := rest[s.lines];
            Finished(cur, rest, Scan(s.cells + r.cells[..n], s.lines + 1, s.lines, n, r.wrapped),
                     From(s.cells, rest[s.lines..]))
  {
    var r, below := rest[s.lines], rest[s.lines + 1..];
    assert rest[s.lines..] == [r] + below;
    hide Glue, Grown, From;
    FromCons(s.cells, r, below);
    GrownNone(From(s.cells, rest[s.lines..]));
    var cells := s.cells + r.cells[..n];
    if n != |r.cells| {
      FromCons(cells, r.(cells := r.cells[n..]), below);
      FromGlue(cells, [r.(cells := r.cells[n..])] + below);
      assert cells + r.cells[n..] == s.cells + r.cells;
    } else {
      assert cells == s.cells + r.cells;
      FromGlue(cells, below);
      GlueCons(Row(cells, r.wrapped), below);
    }
  }

  lemma FromGlue(cells: seq<Cell>, rest: seq<Row>)
    ensures From(cells, rest) == Glue([Row(cells, true)] + rest)
  {
  }

  lemma {:induction false} ScanLines(cur: seq<Cell>, rest: seq<Row>, s: Scan, sx: nat)
    requires Scanning(cur, rest, s)
    ensures Finished(cur, rest, ScanRows(rest, sx, s), From(s.cells, rest[s.lines..]))
    decreases |rest| - s.lines
  {
    hide Finished, From, Fit, Width;
    if s.lines == |rest| {
      EndLines(cur, rest, s);
      return;
    }
    var r, below := rest[s.lines], rest[s.lines + 1..];
    assert rest[s.lines..] == [r] + below;
    FromCons(s.cells, r, below);
    var n := Fit(r.cells, Width(s.cells), sx);
    if r.cells == [] && r.wrapped {
      assert s.cells + r.cells == s.cells;
      ScanLines(cur, rest, s.(lines := s.lines + 1), sx);
    } else if n == 0 {
      if r.wrapped {
        EndLines(cur, rest, s);
        assert s.(wrapped := true) == s;
      } else {
        StopLines(cur, rest, s);
      }
    } else {
      var t := Scan(s.cells + r.cells[..n], s.lines + 1, s.lines, n, r.wrapped);
      if r.wrapped && n == |r.cells| && Width(t.cells) != sx {
        assert r.cells[..n] == r.cells;
        ScanLines(cur, rest, t, sx);
      } else {
        TakeLines(cur, rest, s, n);
      }
    }
  }

  lemma JoinLines(cur: seq<Cell>, rest: seq<Row>, sx: nat)
    ensures var j, stop := Join(cur, rest, sx), StopOf(cur, rest, sx);
            Grown(From(cur, rest), Glue([j.row] + j.rest), One(stop, AtBlank), One(stop, AtWide))
  {
    assert rest[0..] == rest;
    ScanLines(cur, rest, Start(cur), sx);
  }

  // ----- The whole pass

  lemma TurnLines(rows: seq<Row>, sx: nat)
    requires rows != []
    ensures var t := Turned(rows, sx);
            Grown(Glue(rows), Glue(Done(t, t.rest)), One(t.stop, AtBlank), One(t.stop, AtWide))
  {
    hide Join, StopOf, First, Last, Glue, Grown;
    var r, rest, t := rows[0], rows[1..], Turned(rows, sx);
    var cur := Last(r.cells, sx);
    assert rows == [r] + rest;
    LastConserves(r.cells, sx);
    GluePieces(t.first, Row(cur, r.wrapped), rest);
    if r.wrapped && Width(cur) < sx {
      JoinLines(cur, rest, sx);
      GrownAfter(Wrapped(t.first, true), [Row(cur, true)] + rest, [t.row] + t.rest, One(t.stop, AtBlank), One(t.stop, AtWide));
    } else {
      GrownNone(Glue(rows));
    }
  }

  /** The logical lines after a reflow, for cells of any width: as many more as there are
      joins that clear the wrap at a row they take nothing of. */
  lemma {:induction false} ReflowGrown(rows: seq<Row>, sx: nat)
    ensures Grown(Glue(rows), Glue(Reflow(rows, sx)), Stops(rows, sx, AtBlank), Stops(rows, sx, AtWide))
    decreases |rows|
  {
    hide Turned, Grown, Glue;
    if rows == [] {
      assert Reflow(rows, sx) == [];
      GrownNone(Glue(rows));
    } else {
      var t := Turned(rows, sx);
      TurnLines(rows, sx);
      ReflowGrown(t.rest, sx);
      GrownAfter(Wrapped(t.first, true) + [t.row], t.rest, Reflow(t.rest, sx),
                 Stops(t.rest, sx, AtBlank), Stops(t.rest, sx, AtWide));
      Assoc(Wrapped(t.first, true), [t.row], t.rest);
      Assoc(Wrapped(t.first, true), [t.row], Reflow(t.rest, sx));
      ReflowTurn(rows, sx);
      GrownTwice(Glue(rows), Glue(Done(t, t.rest)), Glue(Reflow(rows, sx)), One(t.stop, AtBlank), One(t.stop, AtWide),
                 Stops(t.rest, sx, AtBlank), Stops(t.rest, sx, AtWide));
    }
  }

  /** For any rows and any width: the logical lines are kept exactly when no join of the pass
      stops at an unwrapped row it takes nothing of; each that does adds a line. */
  lemma ReflowKeepsLinesIff(rows: seq<Row>, sx: nat)
    ensures |Glue(Reflow(rows, sx))| == |Glue(rows)| + Stops(rows, sx, AtBlank) + Stops(rows, sx, AtWide)
    ensures Glue(Reflow(rows, sx)) == Glue(rows) <==> Stops(rows, sx, AtBlank) == 0 && Stops(rows, sx, AtWide) == 0
  {
    ReflowGrown(rows, sx);
  }

  // ----- Breaks before and after

  /** Rows `b` have so many more breaks than `a`, and begin and end alike. */
  ghost predicate Broken(a: seq<Row>, b: seq<Row>, more: nat) {
    && Breaks(b) == Breaks(a) + more && Below(a) == Below(b) && (a == [] <==> b == [])
    && (a != [] ==> a[|a| - 1].wrapped == b[|b| - 1].wrapped)
  }

  lemma {:induction false} BrokenAfter(pre: seq<Row>, a: seq<Row>, b: seq<Row>, more: nat)
    requires Broken(a, b, more)
    ensures Broken(pre + a, pre + b, more)
  {
    if pre == [] {
      assert pre + a == a && pre + b == b;
    } else {
      var r, p := pre[0], pre[1..];
      BrokenAfter(p, a, b, more);
      assert pre + a == [r] + (p + a) && pre + b == [r] + (p + b);
      BreaksCons(r, p + a);
      BreaksCons(r, p + b);
    }
  }

  /** The pieces of a row before its last break nothing. */
  lemma {:induction false} BrokenPieces(first: seq<seq<Cell>>, row: Row, below: seq<Row>)
    requires first == [] || row != BLANK
    ensures Broken([Row(Concat(first) + row.cells, row.wrapped)] + below, Wrapped(first, true) + ([row] + below), 0)
  {
    if first == [] {
      assert Wrapped(first, true) + ([row] + below) == [row] + below;
      assert Concat(first) + row.cells == row.cells;
    } else {
      var p, more := first[0], Wrapped(first[1..], true) + ([row] + below);
      BrokenPieces(first[1..], row, below);
      assert Wrapped(first, true) + ([row] + below) == [Row(p, true)] + more;
      var whole, tail := Row(Concat(first) + row.cells, row.wrapped), Row(Concat(first[1..]) + row.cells, row.wrapped);
      BreaksCons(Row(p, true), more);
      BreaksCons(whole, below);
      BreaksCons(tail, below);
      assert tail != BLANK;
      assert Concat(first) + row.cells == p + tail.cells;
    }
  }

  lemma {:induction false} LayLast(cs: seq<Cell>, cur: seq<Cell>, width: nat, sx: nat)
    requires cs != [] || cur != []
    ensures var p := Lay(cs, cur, width, sx); p[|p| - 1] != []
    decreases |cs|
  {
    if cs != [] {
      if width + cs[0].data.width > sx {
        LayLast(cs[1..], [cs[0]], cs[0].data.width, sx);
      } else {
        LayLast(cs[1..], cur + [cs[0]], width + cs[0].data.width, sx);
      }
    }
  }

  lemma {:induction false} BreakAtInside(cs: seq<Cell>, i: nat, width: nat, sx: nat)
    requires i <= |cs| && cs != []
    ensures BreakAt(cs, i, width, sx) < |cs|
    decreases |cs| - i
  {
    if i < |cs| && !(i > 0 && width + cs[i].data.width > sx) {
      BreakAtInside(cs, i + 1, width + cs[i].data.width, sx);
    }
  }

  lemma LastNotEmpty(cs: seq<Cell>, sx: nat)
    requires cs != []
    ensures Last(cs, sx) != []
  {
    BreakAtInside(cs, 0, 0, sx);
    LayLast(cs[BreakAt(cs, 0, 0, sx)..], [], 0, sx);
  }

  ghost predicate Breaking(cur: seq<Cell>, rest: seq<Row>, s: Scan) {
    && Reached(rest, s) && s.wrapped
    && (s.from == -1 ==> s.cells == cur)
    && (s.from >= 0 ==> s.want == |rest[s.from].cells| && s.cells != [] && rest[s.from].wrapped)
    && Broken([Row(cur, true)] + rest, [Row(s.cells, true)] + rest[s.lines..], 0)
  }

  ghost predicate Broke(cur: seq<Cell>, rest: seq<Row>, t: Scan) {
    && Reached(rest, t)
    && var j := Finish(cur, rest, t);
       j.row != BLANK && Broken([Row(cur, true)] + rest, [j.row] + j.rest, One(StopAt(rest, t), AtWide))
  }

  lemma StopBreaks(cur: seq<Cell>, rest: seq<Row>, s: Scan)
    requires Breaking(cur, rest, s) && s.lines < |rest| && !rest[s.lines].wrapped
    ensures Broke(cur, rest, s.(wrapped := false))
  {
    if s.from >= 0 {
      BreaksCons(Row(s.cells, true), rest[s.lines..]);
      BreaksCons(Row(s.cells, false), rest[s.lines..]);
    }
  }

  lemma BrokenTwice(a: seq<Row>, b: seq<Row>, c: seq<Row>, more: nat)
    requires Broken(a, b, 0) && Broken(b, c, more)
    ensures Broken(a, c, more)
  {
  }

  /** Cells, or all there is, of the row below moved up. */
  lemma MoveUp(cells: seq<Cell>, r: Row, below: seq<Row>, longer: seq<Cell>, left: Row)
    requires r != BLANK && left != BLANK && r.wrapped == left.wrapped
    ensures Broken([Row(cells, true)] + ([r] + below), [Row(longer, true)] + ([left] + below), 0)
    ensures longer != [] || r.wrapped ==> Broken([Row(cells, true)] + ([r] + below), [Row(longer, r.wrapped)] + below, 0)
  {
    BreaksCons(Row(cells, true), [r] + below);
    BreaksCons(r, below);
    BreaksCons(Row(longer, true), [left] + below);
    BreaksCons(left, below);
    BreaksCons(Row(longer, r.wrapped), below);
  }

  lemma TakeBreaks(cur: seq<Cell>, rest: seq<Row>, s: Scan, n: nat)
    requires Breaking(cur, rest, s) && s.lines < |rest| && 0 < n <= |rest[s.lines].cells|
    ensures var r := rest[s.lines];
            var t := Scan(s.cells + r.cells[..n], s.lines + 1, s.lines, n, r.wrapped);
            Broke(cur, rest, t) && (n == |r.cells| && r.wrapped ==> Breaking(cur, rest, t))
  {
    hide Broken;
    var r, below := rest[s.lines], rest[s.lines + 1..];
    assert rest[s.lines..] == [r] + below;
    var cells, left := s.cells + r.cells[..n], r.(cells := if n == |r.cells| then r.cells else r.cells[n..]);
    MoveUp(s.cells, r, below, cells, left);
    var now := if n == |r.cells| then [Row(cells, r.wrapped)] + below else [Row(cells, true)] + ([left] + below);
    BrokenTwice([Row(cur, true)] + rest, [Row(s.cells, true)] + rest[s.lines..], now, 0);
  }

  lemma SkipBreaks(cur: seq<Cell>, rest: seq<Row>, s: Scan)
    requires Breaking(cur, rest, s) && s.lines < |rest| && rest[s.lines] == Row([], true)
    ensures Breaking(cur, rest, s.(lines := s.lines + 1))
  {
    hide Broken;
    var r, below := rest[s.lines], rest[s.lines + 1..];
    assert rest[s.lines..] == [r] + below;
    MoveUp(s.cells, r, below, s.cells, r);
    BrokenTwice([Row(cur, true)] + rest, [Row(s.cells, true)] + rest[s.lines..], [Row(s.cells, true)] + below, 0);
  }

  lemma {:induction false} ScanBreaks(cur: seq<Cell>, rest: seq<Row>, s: Scan, sx: nat)
    requires Breaking(cur, rest, s)
    ensures Broke(cur, rest, ScanRows(rest, sx, s))
    decreases |rest| - s.lines
  {
    hide Fit, Width, Broken, Broke;
    if s.lines == |rest| {
      EndBreaks(cur, rest, s);
      return;
    }
    var r := rest[s.lines];
    var n := Fit(r.cells, Width(s.cells), sx);
    if r.cells == [] && r.wrapped {
      SkipBreaks(cur, rest, s);
      ScanBreaks(cur, rest, s.(lines := s.lines + 1), sx);
    } else if n > 0 {
      TakeBreaks(cur, rest, s, n);
      var t := Scan(s.cells + r.cells[..n], s.lines + 1, s.lines, n, r.wrapped);
      if r.wrapped && n == |r.cells| && Width(t.cells) != sx {
        ScanBreaks(cur, rest, t, sx);
      }
    } else if !r.wrapped {
      StopBreaks(cur, rest, s);
    } else {
      assert s.(wrapped := true) == s;
      EndBreaks(cur, rest, s);
    }
  }

  lemma EndBreaks(cur: seq<Cell>, rest: seq<Row>, s: Scan)
    requires Breaking(cur, rest, s)
    ensures Broke(cur, rest, s)
  {
  }

  lemma JoinBreaks(cur: seq<Cell>, rest: seq<Row>, sx: nat)
    ensures var j := Join(cur, rest, sx);
            j.row != BLANK && Broken([Row(cur, true)] + rest, [j.row] + j.rest, One(StopOf(cur, rest, sx), AtWide))
  {
    assert rest[0..] == rest;
    ScanBreaks(cur, rest, Start(cur), sx);
  }

  lemma TurnBreaks(rows: seq<Row>, sx: nat)
    requires rows != []
    ensures var t := Turned(rows, sx); Broken(rows, Done(t, t.rest), One(t.stop, AtWide))
  {
    var r, rest, t := rows[0], rows[1..], Turned(rows, sx);
    var cur := Last(r.cells, sx);
    assert rows == [r] + rest;
    LastConserves(r.cells, sx);
    LastNotBlank(r, sx);
    hide Join, StopOf, Breaks, Broken, First, Last;
    BrokenPieces(t.first, Row(cur, r.wrapped), rest);
    if r.wrapped && Width(cur) < sx {
      JoinBreaks(cur, rest, sx);
      BrokenAfter(Wrapped(t.first, true), [Row(cur, true)] + rest, [t.row] + t.rest, One(t.stop, AtWide));
      BrokenTwice(rows, Wrapped(t.first, true) + ([Row(cur, true)] + rest), Done(t, t.rest), One(t.stop, AtWide));
    }
  }

  lemma LastNotBlank(r: Row, sx: nat)
    ensures First(r.cells, sx) == [] || Row(Last(r.cells, sx), r.wrapped) != BLANK
  {
    if r.cells != [] {
      LastNotEmpty(r.cells, sx);
    }
  }

  /** A reflow mends no break, and makes one only where a join stops at a row that does not
      fit; the last row goes on after it exactly when the last row did before. */
  lemma {:induction false} ReflowBreaks(rows: seq<Row>, sx: nat)
    ensures Breaks(Reflow(rows, sx)) == Breaks(rows) + Stops(rows, sx, AtWide)
    ensures Ended(Reflow(rows, sx)) <==> Ended(rows)
    ensures Broken(rows, Reflow(rows, sx), Stops(rows, sx, AtWide))
    decreases |rows|
  {
    hide Turned, Breaks;
    if rows != [] {
      var t := Turned(rows, sx);
      TurnBreaks(rows, sx);
      ReflowBreaks(t.rest, sx);
      BrokenAfter(Wrapped(t.first, true) + [t.row], t.rest, Reflow(t.rest, sx), Stops(t.rest, sx, AtWide));
      Assoc(Wrapped(t.first, true), [t.row], t.rest);
      Assoc(Wrapped(t.first, true), [t.row], Reflow(t.rest, sx));
      ReflowTurn(rows, sx);
    }
  }

  /** Where every wrapped row is followed, only a row that does not fit can end a line. */
  lemma FollowedStops(rows: seq<Row>, sx: nat)
    requires Followed(rows)
    ensures Stops(rows, sx, AtBlank) == 0
    ensures Glue(Reflow(rows, sx)) == Glue(rows) <==> Stops(rows, sx, AtWide) == 0
    ensures Stops(rows, sx, AtWide) == 0 ==> Followed(Reflow(rows, sx))
  {
    ReflowKeepsLinesIff(rows, sx);
    ReflowBreaks(rows, sx);
    BreaksLines(rows);
    BreaksLines(Reflow(rows, sx));
  }
}

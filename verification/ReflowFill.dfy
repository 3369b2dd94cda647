/** Reflow refines a simple specification: each logical line laid into rows as full as they
    go; reflowing again and reflowing back follow from it (grid.c). */
module ReflowFill {
  import opened GridCells
  import opened ReflowRows
  import opened ReflowLines
  import opened ReflowTurns

  /** A line laid into rows, each with all the cells that fit. */
  function Fill(line: seq<Cell>, sx: nat): (r: seq<seq<Cell>>)
    ensures r != []
    decreases |line|
  {
    var n := Fit(line, 0, sx);
    if n == |line| || n == 0 then [line] else [line[..n]] + Fill(line[n..], sx)
  }

  function FillAll(lines: seq<seq<Cell>>, sx: nat): seq<Row> {
    if lines == [] then [] else Wrapped(Fill(lines[0], sx), false) + FillAll(lines[1..], sx)
  }

  /** No row starts with a cell that takes no column. */
  predicate Starts(rows: seq<Row>) {
    forall r :: r in rows && r.cells != [] ==> r.cells[0].data.width >= 1
  }

  // ----- A reflow leaves nothing to move up

  /** Nothing below fits on a row that goes on and has `width` columns used. */
  predicate NoFit(rows: seq<Row>, width: nat, sx: nat) {
    rows == []
    || if rows[0].cells != [] then width + rows[0].cells[0].data.width > sx
       else !rows[0].wrapped || NoFit(rows[1..], width, sx)
  }

  /** Every row fits, and those that go on, at least with room left, have nothing below
      that fits. */
  predicate Settled(rows: seq<Row>, sx: nat, full: bool) {
    rows == []
    || (Width(rows[0].cells) <= sx && Settled(rows[1..], sx, full)
        && (rows[0].wrapped && (full || Width(rows[0].cells) < sx) ==> NoFit(rows[1..], Width(rows[0].cells), sx)))
  }

  lemma SettledCons(r: Row, rows: seq<Row>, sx: nat, full: bool)
    ensures Settled([r] + rows, sx, full)
            <==> Width(r.cells) <= sx && Settled(rows, sx, full)
                 && (r.wrapped && (full || Width(r.cells) < sx) ==> NoFit(rows, Width(r.cells), sx))
  {
    assert ([r] + rows)[1..] == rows;
  }

  lemma NoFitCons(r: Row, rows: seq<Row>, width: nat, sx: nat)
    ensures NoFit([r] + rows, width, sx)
            <==> if r.cells != [] then width + r.cells[0].data.width > sx else !r.wrapped || NoFit(rows, width, sx)
  {
    assert ([r] + rows)[1..] == rows;
  }

  lemma {:induction false} FitStops(cs: seq<Cell>, width: nat, sx: nat)
    requires width <= sx && Fit(cs, width, sx) < |cs|
    ensures var n := Fit(cs, width, sx); width + Width(cs[..n]) + cs[n].data.width > sx
  {
    if Fit(cs, width, sx) > 0 {
      var n := Fit(cs, width, sx);
      FitStops(cs[1..], width + cs[0].data.width, sx);
      assert cs[..n] == [cs[0]] + cs[1..][..n - 1];
      WidthConcat([cs[0]], cs[1..][..n - 1]);
      assert Width([cs[0]]) == cs[0].data.width;
    }
  }

  /** What a join leaves below does not fit on its row. */
  ghost predicate Full(cur: seq<Cell>, rest: seq<Row>, t: Scan, sx: nat) {
    && Reached(rest, t)
    && var j := Finish(cur, rest, t);
       j.row.wrapped && Width(j.row.cells) < sx ==> NoFit(j.rest, Width(j.row.cells), sx)
  }

  lemma {:induction false} ScanFull(cur: seq<Cell>, rest: seq<Row>, s: Scan, sx: nat)
    requires Reached(rest, s) && s.wrapped && Width(s.cells) < sx
    requires s.from == -1 ==> s.cells == cur && NoFit(rest, Width(cur), sx) == NoFit(rest[s.lines..], Width(cur), sx)
    requires s.from >= 0 ==> s.want == |rest[s.from].cells|
    ensures Full(cur, rest, ScanRows(rest, sx, s), sx)
    decreases |rest| - s.lines
  {
    if s.lines < |rest| {
      var r, below := rest[s.lines], rest[s.lines + 1..];
      assert rest[s.lines..] == [r] + below;
      NoFitCons(r, below, Width(s.cells), sx);
      var n := Fit(r.cells, Width(s.cells), sx);
      if r.cells == [] && r.wrapped {
        ScanFull(cur, rest, s.(lines := s.lines + 1), sx);
      } else if n > 0 {
        var t := Scan(s.cells + r.cells[..n], s.lines + 1, s.lines, n, r.wrapped);
        WidthConcat(s.cells, r.cells[..n]);
        FitWidth(r.cells, Width(s.cells), sx);
        if n < |r.cells| {
          FitStops(r.cells, Width(s.cells), sx);
          NoFitCons(r.(cells := r.cells[n..]), below, Width(t.cells), sx);
        } else if r.wrapped && Width(t.cells) != sx {
          ScanFull(cur, rest, t, sx);
        }
      }
    }
  }

  lemma JoinFull(cur: seq<Cell>, rest: seq<Row>, sx: nat)
    requires Width(cur) < sx
    ensures var j := Join(cur, rest, sx);
            j.row.wrapped && Width(j.row.cells) < sx ==> NoFit(j.rest, Width(j.row.cells), sx)
  {
    assert rest[0..] == rest;
    ScanFull(cur, rest, Start(cur), sx);
  }

  /** The loop starts a row, or has started one, with a cell that does not fit above. */
  lemma {:induction false} ScanFirst(rest: seq<Row>, s: Scan, width: nat, sx: nat)
    requires s.lines <= |rest|
    requires if s.cells == [] then NoFit(rest[s.lines..], width, sx) else width + s.cells[0].data.width > sx
    ensures var t := ScanRows(rest, sx, s); t.cells != [] ==> width + t.cells[0].data.width > sx
    decreases |rest| - s.lines
  {
    if s.lines < |rest| {
      var r, below := rest[s.lines], rest[s.lines + 1..];
      assert rest[s.lines..] == [r] + below;
      NoFitCons(r, below, width, sx);
      var wrapped := s.wrapped && r.wrapped;
      var n := Fit(r.cells, Width(s.cells), sx);
      if r.cells == [] && wrapped {
        ScanFirst(rest, s.(lines := s.lines + 1), width, sx);
      } else if n > 0 {
        var t := Scan(s.cells + r.cells[..n], s.lines + 1, s.lines, n, wrapped);
        if wrapped && n == |r.cells| && Width(t.cells) != sx {
          ScanFirst(rest, t, width, sx);
        }
      }
    }
  }

  lemma JoinFirst(cur: seq<Cell>, rest: seq<Row>, width: nat, sx: nat)
    requires if cur == [] then NoFit(rest, width, sx) else width + cur[0].data.width > sx
    ensures var j := Join(cur, rest, sx);
            if j.row.cells == [] then j == Joined(Row([], true), rest) && cur == [] else width + j.row.cells[0].data.width > sx
  {
    assert rest[0..] == rest;
    ScanFirst(rest, Start(cur), width, sx);
    JoinIsFinish(cur, rest, sx);
  }

  // ----- The pieces of a split

  /** Each piece fits, and the next starts with a cell that does not fit on it. */
  predicate Tight(p: seq<seq<Cell>>, sx: nat) {
    p == []
    || (Width(p[0]) <= sx && Tight(p[1..], sx)
        && (|p| > 1 ==> p[1] != [] && Width(p[0]) + p[1][0].data.width > sx))
  }

  lemma TightCons(piece: seq<Cell>, p: seq<seq<Cell>>, sx: nat)
    requires Tight(p, sx) && Width(piece) <= sx
    requires p != [] ==> p[0] != [] && Width(piece) + p[0][0].data.width > sx
    ensures Tight([piece] + p, sx)
  {
    assert ([piece] + p)[1..] == p;
  }

  lemma WidthOne(c: Cell)
    ensures Width([c]) == c.data.width
  {
  }

  lemma {:induction false} LayTight(cs: seq<Cell>, cur: seq<Cell>, sx: nat)
    requires Narrow(cs, sx) && Width(cur) <= sx
    ensures var p := Lay(cs, cur, Width(cur), sx); Tight(p, sx) && cur <= p[0] && (cs + cur != [] ==> p[0] != [] && p[0][0] == (cur + cs)[0])
    decreases |cs|
  {
    if cs != [] {
      WidthOne(cs[0]);
      WidthConcat(cur, [cs[0]]);
      if Width(cur) + cs[0].data.width > sx {
        LayTight(cs[1..], [cs[0]], sx);
        TightCons(cur, Lay(cs[1..], [cs[0]], cs[0].data.width, sx), sx);
      } else {
        LayTight(cs[1..], cur + [cs[0]], sx);
        assert (cur + [cs[0]] + cs[1..])[0] == (cur + cs)[0];
      }
    }
  }

  lemma {:induction false} BreakAtLay(cs: seq<Cell>, i: nat, sx: nat)
    requires Narrow(cs, sx) && i <= |cs| && Width(cs[..i]) <= sx < Width(cs)
    ensures var at := BreakAt(cs, i, Width(cs[..i]), sx);
            Lay(cs[i..], cs[..i], Width(cs[..i]), sx) == [cs[..at]] + Lay(cs[at..], [], 0, sx)
    decreases |cs| - i
  {
    assert cs[..|cs|] == cs;
    if i < |cs| {
      assert cs[..i + 1] == cs[..i] + [cs[i]];
      WidthConcat(cs[..i], [cs[i]]);
      WidthOne(cs[i]);
      hide Width;
      assert cs[i..][0] == cs[i] && cs[i..][1..] == cs[i + 1..];
      assert [] + [cs[i]] == [cs[i]];
      if Width(cs[..i + 1]) <= sx {
        BreakAtLay(cs, i + 1, sx);
      } else {
        assert i > 0;
      }
    }
  }

  lemma PiecesLaid(cs: seq<Cell>, sx: nat)
    requires Narrow(cs, sx) && Width(cs) > sx
    ensures Pieces(cs, sx) == Lay(cs, [], 0, sx)
  {
    assert cs[..0] == [] && cs[0..] == cs;
    BreakAtLay(cs, 0, sx);
  }

  lemma PiecesTight(cs: seq<Cell>, sx: nat)
    requires Narrow(cs, sx)
    ensures var p := First(cs, sx) + [Last(cs, sx)]; Tight(p, sx) && (cs != [] ==> p[0] != [] && p[0][0] == cs[0])
    ensures Width(Last(cs, sx)) <= sx
  {
    hide Pieces, Lay, Tight;
    if Width(cs) > sx {
      PiecesLaid(cs, sx);
      LayTight(cs, [], sx);
      var p := Pieces(cs, sx);
      assert First(cs, sx) + [Last(cs, sx)] == p;
      assert [] + cs == cs && cs + [] == cs;
      PiecesFit(cs, sx);
      assert p[|p| - 1] in p;
    } else {
      TightOne(cs, sx);
      assert [] + [cs] == [cs];
    }
  }

  lemma TightOne(cs: seq<Cell>, sx: nat)
    requires Width(cs) <= sx
    ensures Tight([cs], sx)
  {
  }

  lemma {:induction false} SettledPieces(first: seq<seq<Cell>>, cur: seq<Cell>, row: Row, below: seq<Row>, sx: nat, full: bool)
    requires Tight(first + [cur], sx) && cur <= row.cells && Settled([row] + below, sx, full)
    ensures Settled(Wrapped(first, true) + ([row] + below), sx, full)
  {
    if first == [] {
      assert Wrapped(first, true) + ([row] + below) == [row] + below;
    } else {
      var p, t := first[0], first + [cur];
      var more := Wrapped(first[1..], true) + ([row] + below);
      assert first[1..] + [cur] == t[1..];
      SettledPieces(first[1..], cur, row, below, sx, full);
      assert Wrapped(first, true) + ([row] + below) == [Row(p, true)] + more;
      SettledCons(Row(p, true), more, sx, full);
      assert t[1] <= more[0].cells && t[1] != [];
      assert Width(t[0]) + t[1][0].data.width > sx;
    }
  }

  // ----- Where the rows below a join start

  ghost predicate CutInside(rest: seq<Row>, t: Scan) {
    && Reached(rest, t)
    && (t.from >= 0 && t.want < |rest[t.from].cells| ==> rest[t.from].cells[t.want].data.width >= 1)
  }

  lemma {:induction false} ScanCuts(rest: seq<Row>, s: Scan, sx: nat)
    requires Reached(rest, s) && Width(s.cells) <= sx && (s.from >= 0 ==> s.want == |rest[s.from].cells|)
    ensures CutInside(rest, ScanRows(rest, sx, s))
    decreases |rest| - s.lines
  {
    if s.lines < |rest| {
      var r := rest[s.lines];
      var wrapped := s.wrapped && r.wrapped;
      var n := Fit(r.cells, Width(s.cells), sx);
      if r.cells == [] && wrapped {
        ScanCuts(rest, s.(lines := s.lines + 1), sx);
      } else if n > 0 {
        var t := Scan(s.cells + r.cells[..n], s.lines + 1, s.lines, n, wrapped);
        WidthConcat(s.cells, r.cells[..n]);
        FitWidth(r.cells, Width(s.cells), sx);
        if n < |r.cells| {
          FitStops(r.cells, Width(s.cells), sx);
        } else if wrapped && Width(t.cells) != sx {
          ScanCuts(rest, t, sx);
        }
      }
    }
  }

  lemma JoinStarts(cur: seq<Cell>, rest: seq<Row>, sx: nat)
    requires Width(cur) <= sx && Starts(rest)
    ensures Starts(Join(cur, rest, sx).rest)
  {
    hide Width, Fit;
    ScanReached(rest, sx, Start(cur));
    ScanCuts(rest, Start(cur), sx);
    var t, j := ScanRows(rest, sx, Start(cur)), Join(cur, rest, sx);
    forall r | r in j.rest && r.cells != []
      ensures r.cells[0].data.width >= 1
    {
      if r !in rest {
        assert r == rest[t.from].(cells := rest[t.from].cells[t.want..]);
      }
    }
  }

  lemma {:induction false} StartsNoFit(rows: seq<Row>, sx: nat)
    requires Starts(rows)
    ensures NoFit(rows, sx, sx)
  {
    if rows != [] {
      assert rows[0] in rows;
      StartsNoFit(rows[1..], sx);
    }
  }

  // ----- Settled after the pass, and nothing changes what is settled

  lemma TurnNarrow(rows: seq<Row>, sx: nat)
    requires rows != [] && AllNarrow(rows, sx)
    ensures AllNarrow(Turned(rows, sx).rest, sx) && Width(Turned(rows, sx).row.cells) <= sx
    ensures Starts(rows) ==> Starts(Turned(rows, sx).rest)
  {
    var cur := Last(rows[0].cells, sx);
    assert rows[0] in rows;
    PiecesTight(rows[0].cells, sx);
    assert AllNarrow(rows[1..], sx);
    JoinFits(cur, rows[1..], sx);
    if Starts(rows) {
      JoinStarts(cur, rows[1..], sx);
    }
  }

  lemma FirstEmpty(cs: seq<Cell>, sx: nat)
    ensures First(cs, sx) == [] ==> Last(cs, sx) == cs
    ensures First(cs, sx) != [] ==> cs != []
  {
  }

  /** The cells of the first row a turn writes. */
  function Head(t: Turn): seq<Cell> {
    if t.first != [] then t.first[0] else t.row.cells
  }

  lemma DoneFirst(t: Turn, below: seq<Row>, width: nat, sx: nat)
    ensures NoFit(Done(t, below), width, sx)
            <==> if Head(t) != [] then width + Head(t)[0].data.width > sx
                 else (t.first == [] && !t.row.wrapped)
                      || NoFit((Wrapped(t.first, true) + ([t.row] + below))[1..], width, sx)
  {
  }

  lemma TurnFirst(rows: seq<Row>, width: nat, sx: nat)
    requires rows != [] && AllNarrow(rows, sx) && NoFit(rows, width, sx)
    ensures var t := Turned(rows, sx);
            if Head(t) != [] then width + Head(t)[0].data.width > sx
            else t.first == [] && (t.row.wrapped ==> t.rest == rows[1..] && NoFit(t.rest, width, sx))
  {
    hide First, Last, Join, Tight;
    var r, rest, t := rows[0], rows[1..], Turned(rows, sx);
    var cur := Last(r.cells, sx);
    assert r in rows && rows == [r] + rest;
    NoFitCons(r, rest, width, sx);
    PiecesTight(r.cells, sx);
    FirstEmpty(r.cells, sx);
    if t.first != [] {
      assert (t.first + [cur])[0] == t.first[0];
    } else if r.wrapped && Width(cur) < sx {
      JoinFirst(cur, rest, width, sx);
    }
  }

  lemma {:induction false} NoFitReflow(rows: seq<Row>, width: nat, sx: nat)
    requires AllNarrow(rows, sx) && NoFit(rows, width, sx)
    ensures NoFit(Reflow(rows, sx), width, sx)
    decreases |rows|
  {
    if rows != [] {
      hide Reflow, Turned, Wrapped;
      var t := Turned(rows, sx);
      var below := Reflow(t.rest, sx);
      ReflowTurn(rows, sx);
      TurnFirst(rows, width, sx);
      DoneFirst(t, below, width, sx);
      TurnNarrow(rows, sx);
      if Head(t) == [] && t.row.wrapped {
        NoFitReflow(t.rest, width, sx);
        NoWrapped();
        assert ([] + ([t.row] + below))[1..] == below;
      }
    }
  }

  lemma NoWrapped()
    ensures Wrapped([], true) == []
  {
  }

  lemma {:induction false} ReflowSettled(rows: seq<Row>, sx: nat, full: bool)
    requires AllNarrow(rows, sx) && (full ==> Starts(rows))
    ensures Settled(Reflow(rows, sx), sx, full)
    decreases |rows|
  {
    if rows != [] {
      var r, rest, t := rows[0], rows[1..], Turned(rows, sx);
      var below, cur := Reflow(t.rest, sx), Last(r.cells, sx);
      assert r in rows;
      TurnNarrow(rows, sx);
      ReflowSettled(t.rest, sx, full);
      ReflowTurn(rows, sx);
      PiecesTight(r.cells, sx);
      if r.wrapped && Width(cur) < sx {
        JoinFull(cur, rest, sx);
        JoinIsFinish(cur, rest, sx);
      }
      if t.row.wrapped && (full || Width(t.row.cells) < sx) {
        if Width(t.row.cells) == sx {
          StartsNoFit(t.rest, sx);
        }
        NoFitReflow(t.rest, Width(t.row.cells), sx);
      }
      SettledCons(t.row, below, sx, full);
      SettledPieces(t.first, cur, t.row, below, sx, full);
    }
  }

  lemma JoinNothing(cur: seq<Cell>, rest: seq<Row>, sx: nat)
    requires NoFit(rest, Width(cur), sx)
    ensures Join(cur, rest, sx) == Joined(Row(cur, true), rest)
  {
    assert rest[0..] == rest;
    ScanNothing(cur, rest, Start(cur), sx);
  }

  lemma {:induction false} ScanNothing(cur: seq<Cell>, rest: seq<Row>, s: Scan, sx: nat)
    requires Reached(rest, s) && s.from == -1 && s.cells == cur && NoFit(rest[s.lines..], Width(cur), sx)
    ensures ScanRows(rest, sx, s).from == -1
    decreases |rest| - s.lines
  {
    if s.lines < |rest| {
      var r, below := rest[s.lines], rest[s.lines + 1..];
      assert rest[s.lines..] == [r] + below;
      NoFitCons(r, below, Width(cur), sx);
      if r.cells == [] && s.wrapped && r.wrapped {
        ScanNothing(cur, rest, s.(lines := s.lines + 1), sx);
      }
    }
  }

  lemma {:induction false} SettledFixed(rows: seq<Row>, sx: nat, full: bool)
    requires Settled(rows, sx, full)
    ensures Reflow(rows, sx) == rows
  {
    if rows != [] {
      SettledFixed(rows[1..], sx, full);
      if rows[0].wrapped && Width(rows[0].cells) < sx {
        JoinNothing(rows[0].cells, rows[1..], sx);
      }
    }
  }

  lemma {:induction false} NoFitBlanks(rows: seq<Row>, width: nat, n: nat, sx: nat)
    requires NoFit(rows, width, sx)
    ensures NoFit(rows + Blanks(n), width, sx)
  {
    if rows != [] {
      assert rows + Blanks(n) == [rows[0]] + (rows[1..] + Blanks(n));
      NoFitCons(rows[0], rows[1..] + Blanks(n), width, sx);
      if rows[0].cells == [] && rows[0].wrapped {
        NoFitBlanks(rows[1..], width, n, sx);
      }
    }
  }

  lemma {:induction false} SettledBlanks(rows: seq<Row>, n: nat, sx: nat, full: bool)
    requires Settled(rows, sx, full)
    ensures Settled(rows + Blanks(n), sx, full)
    decreases |rows| + n
  {
    if rows != [] {
      var r := rows[0];
      SettledBlanks(rows[1..], n, sx, full);
      assert rows + Blanks(n) == [r] + (rows[1..] + Blanks(n));
      SettledCons(r, rows[1..] + Blanks(n), sx, full);
      if r.wrapped && (full || Width(r.cells) < sx) {
        NoFitBlanks(rows[1..], Width(r.cells), n, sx);
      }
    } else if n > 0 {
      SettledBlanks(rows, n - 1, sx, full);
      assert rows + Blanks(n) == [BLANK] + (rows + Blanks(n - 1));
      SettledCons(BLANK, rows + Blanks(n - 1), sx, full);
    }
  }

  lemma TurnSame(rows: seq<Row>, sx: nat)
    requires rows != [] && Head(Turned(rows, sx)) == rows[0].cells
    ensures Width(rows[0].cells) <= sx && Turned(rows, sx).first == [] && Turned(rows, sx).rest == rows[1..]
  {
    var r := rows[0];
    if Width(r.cells) > sx {
      BreakAtInside(r.cells, 0, 0, sx);
    } else if r.wrapped && Width(r.cells) < sx {
      JoinIsFinish(r.cells, rows[1..], sx);
    }
  }

  /** Only rows that fit come out as they were. */
  lemma {:induction false} FixedFits(rows: seq<Row>, n: nat, sx: nat)
    requires Reflow(rows, sx) + Blanks(n) == rows
    ensures AllFit(rows, sx)
  {
    if rows != [] {
      var t := Turned(rows, sx);
      hide Turned;
      ReflowTurn(rows, sx);
      var below := Reflow(t.rest, sx);
      DoneHead(t, below);
      assert (Done(t, below) + Blanks(n))[0] == Done(t, below)[0];
      TurnSame(rows, sx);
      NoWrapped();
      assert Done(t, below) == [t.row] + below;
      assert ([t.row] + below + Blanks(n))[1..] == below + Blanks(n);
      FixedFits(rows[1..], n, sx);
    }
  }

  lemma DoneHead(t: Turn, below: seq<Row>)
    ensures Done(t, below) != [] && Done(t, below)[0].cells == Head(t)
  {
  }

  /** Reflowing again to the same width changes nothing exactly when every cell fits it. */
  lemma ReflowIdempotentIff(rows: seq<Row>, sx: nat, sy: nat)
    ensures ReflowGrid(ReflowGrid(rows, sx, sy), sx, sy) == ReflowGrid(rows, sx, sy) <==> AllNarrow(rows, sx)
  {
    hide Settled, Reflow, AllNarrow, AllFit;
    var r, g := Reflow(rows, sx), ReflowGrid(rows, sx, sy);
    if AllNarrow(rows, sx) {
      ReflowSettled(rows, sx, false);
      SettledFixed(r, sx, false);
      if |r| < sy {
        SettledBlanks(r, sy - |r|, sx, false);
        SettledFixed(g, sx, false);
      }
    }
    if ReflowGrid(g, sx, sy) == g {
      var n := |g| - |Reflow(g, sx)|;
      assert Reflow(g, sx) + Blanks(0) == Reflow(g, sx);
      FixedFits(g, n, sx);
      ReflowGridConserves(rows, sx, sy);
      FitsNarrow(g, sx);
      NarrowFlat(g, rows, sx);
    }
  }

  lemma FitsNarrow(rows: seq<Row>, sx: nat)
    requires AllFit(rows, sx)
    ensures AllNarrow(rows, sx)
  {
    forall r, c | r in rows && c in r.cells
      ensures c.data.width <= sx
    {
      CellWithinWidth(r.cells, c);
    }
  }

  // ----- Lines laid into rows

  lemma FillAllCons(line: seq<Cell>, lines: seq<seq<Cell>>, sx: nat)
    ensures FillAll([line] + lines, sx) == Wrapped(Fill(line, sx), false) + FillAll(lines, sx)
  {
    assert ([line] + lines)[1..] == lines;
  }

  lemma {:induction false} FillLine(line: seq<Cell>, sx: nat)
    ensures Concat(Fill(line, sx)) == line
    ensures line != [] ==> forall p :: p in Fill(line, sx) ==> p != []
  {
    var n := Fit(line, 0, sx);
    if n != |line| && n != 0 {
      FillLine(line[n..], sx);
      assert line == line[..n] + line[n..];
      assert Fill(line, sx)[1..] == Fill(line[n..], sx);
    } else {
      assert [line][1..] == [];
      assert line + [] == line;
    }
  }

  lemma WrappedFollowed(pieces: seq<seq<Cell>>)
    requires pieces != [] && (|pieces| > 1 ==> forall p :: p in pieces ==> p != [])
    ensures Followed(Wrapped(pieces, false)) && Ended(Wrapped(pieces, false))
  {
    assert forall i :: 0 <= i < |pieces| ==> pieces[i] in pieces;
  }

  /** Laying lines into rows and gluing them again gives the lines. */
  lemma {:induction false} GlueFillAll(lines: seq<seq<Cell>>, sx: nat)
    ensures Glue(FillAll(lines, sx)) == lines && Followed(FillAll(lines, sx))
  {
    if lines != [] {
      var p := Fill(lines[0], sx);
      var rows := Wrapped(p, false);
      FillLine(lines[0], sx);
      GlueFillAll(lines[1..], sx);
      WrappedFollowed(p);
      GlueWrapped(p);
      GlueConcat(rows, FillAll(lines[1..], sx));
      FollowedConcat(rows, FillAll(lines[1..], sx));
    }
  }

  lemma GlueWrapped(pieces: seq<seq<Cell>>)
    requires pieces != []
    ensures Glue(Wrapped(pieces, false)) == [Concat(pieces)]
  {
    var first, last := pieces[..|pieces| - 1], pieces[|pieces| - 1];
    WrappedLast(pieces, false);
    GluePieces(first, Row(last, false), []);
    ConcatLast(pieces);
    assert [Row(last, false)] + [] == [Row(last, false)];
    assert [Row(Concat(pieces), false)] + [] == [Row(Concat(pieces), false)];
  }

  lemma {:induction false} FillAllConcat(a: seq<seq<Cell>>, b: seq<seq<Cell>>, sx: nat)
    ensures FillAll(a + b, sx) == FillAll(a, sx) + FillAll(b, sx)
  {
    if a == [] {
      assert a + b == b;
    } else {
      FillAllConcat(a[1..], b, sx);
      assert (a + b)[1..] == a[1..] + b;
      Assoc(Wrapped(Fill(a[0], sx), false), FillAll(a[1..], sx), FillAll(b, sx));
    }
  }

  lemma {:induction false} FillAllBlanks(n: nat, sx: nat)
    ensures FillAll(EmptyLines(n), sx) == Blanks(n)
  {
    if n > 0 {
      FillAllBlanks(n - 1, sx);
      assert EmptyLines(n)[1..] == EmptyLines(n - 1);
      assert Blanks(n) == [BLANK] + Blanks(n - 1);
      assert Wrapped(Fill([], sx), false) == [BLANK];
    }
  }

  // ----- The refinement

  /** In rows that are all followed, a line that goes on has a cell ahead. */
  lemma {:induction false} CellAhead(rows: seq<Row>, sx: nat)
    requires Followed(rows) && rows != [] && rows[0] != BLANK && Settled(rows, sx, true)
    ensures !NoFit(rows, 0, sx) && rows[0].cells != []
  {
    if rows[0].cells == [] {
      FollowedTail(rows);
      CellAhead(rows[1..], sx);
    } else {
      CellWithinWidth(rows[0].cells, rows[0].cells[0]);
    }
  }

  lemma {:induction false} FitAll(cs: seq<Cell>, width: nat, sx: nat)
    requires width + Width(cs) <= sx
    ensures Fit(cs, width, sx) == |cs|
  {
    if cs != [] {
      assert cs == [cs[0]] + cs[1..];
      WidthConcat([cs[0]], cs[1..]);
      WidthOne(cs[0]);
      FitAll(cs[1..], width + cs[0].data.width, sx);
    }
  }

  lemma {:induction false} FitJust(cs: seq<Cell>, more: seq<Cell>, width: nat, sx: nat)
    requires width + Width(cs) <= sx && more != [] && width + Width(cs) + more[0].data.width > sx
    ensures Fit(cs + more, width, sx) == |cs|
  {
    if cs == [] {
      assert cs + more == more;
    } else {
      assert cs == [cs[0]] + cs[1..];
      WidthConcat([cs[0]], cs[1..]);
      WidthOne(cs[0]);
      FitJust(cs[1..], more, width + cs[0].data.width, sx);
      assert (cs + more)[1..] == cs[1..] + more;
    }
  }

  /** There is one way to lay the lines so that nothing can move up. */
  lemma {:induction false} SettledIsFilled(rows: seq<Row>, sx: nat)
    requires Settled(rows, sx, true) && Followed(rows)
    ensures rows == FillAll(Glue(rows), sx)
  {
    if rows != [] {
      var r, t := rows[0], rows[1..];
      assert rows == [r] + t;
      FollowedTail(rows);
      SettledIsFilled(t, sx);
      GlueCons(r, t);
      if r.wrapped {
        CellAhead(t, sx);
        var g := Glue(t);
        GlueStarts(t);
        assert r.cells != [];
        FitJust(r.cells, g[0], 0, sx);
        FillFirst(r.cells, g[0], sx);
        FillAllCons(r.cells + g[0], g[1..], sx);
        FillAllCons(g[0], g[1..], sx);
        assert [g[0]] + g[1..] == g;
        Assoc([r], Wrapped(Fill(g[0], sx), false), FillAll(g[1..], sx));
      } else {
        FitAll(r.cells, 0, sx);
        assert Wrapped(Fill(r.cells, sx), false) == [r];
        FillAllCons(r.cells, Glue(t), sx);
      }
    }
  }

  lemma FillFirst(cells: seq<Cell>, line: seq<Cell>, sx: nat)
    requires cells != [] && line != [] && Fit(cells + line, 0, sx) == |cells|
    ensures Wrapped(Fill(cells + line, sx), false) == [Row(cells, true)] + Wrapped(Fill(line, sx), false)
  {
    assert (cells + line)[..|cells|] == cells && (cells + line)[|cells|..] == line;
  }

  /** The main result, for cells of any width that fits and rows that do not start with one
      of no width: a reflow lays each logical line into rows as full as they go, exactly when
      no wrapped row is above a blank one or above nothing and no join of the pass stops at an
      unwrapped row that does not fit. */
  lemma ReflowIsFilledIff(rows: seq<Row>, sx: nat)
    requires AllNarrow(rows, sx) && Starts(rows)
    ensures Reflow(rows, sx) == FillAll(Glue(rows), sx) <==> Followed(rows) && Stops(rows, sx, AtWide) == 0
  {
    ReflowBreaks(rows, sx);
    BreaksLines(rows);
    ReflowKeepsLinesIff(rows, sx);
    if Reflow(rows, sx) == FillAll(Glue(rows), sx) {
      GlueFillAll(Glue(rows), sx);
      BreaksLines(FillAll(Glue(rows), sx));
    }
    if Followed(rows) && Stops(rows, sx, AtWide) == 0 {
      FollowedStops(rows, sx);
      ReflowSettled(rows, sx, true);
      SettledIsFilled(Reflow(rows, sx), sx);
    }
  }

  // ----- Cells of one column: pieces of exactly the width

  /** Where each row but the first starts with a cell of at most one column, no join stops at
      a row that does not fit. */
  predicate NarrowStarts(rows: seq<Row>) {
    forall i :: 0 < i < |rows| && rows[i].cells != [] ==> rows[i].cells[0].data.width <= 1
  }

  lemma {:induction false} ScanNarrow(rest: seq<Row>, s: Scan, sx: nat)
    requires Reached(rest, s) && s.wrapped && Width(s.cells) < sx
    requires forall i :: 0 <= i < |rest| && rest[i].cells != [] ==> rest[i].cells[0].data.width <= 1
    requires s.from >= 0 ==> rest[s.from].wrapped
    ensures Reached(rest, ScanRows(rest, sx, s)) && StopAt(rest, ScanRows(rest, sx, s)) != AtWide
    decreases |rest| - s.lines
  {
    if s.lines < |rest| {
      var r := rest[s.lines];
      var n := Fit(r.cells, Width(s.cells), sx);
      if r.cells == [] && r.wrapped {
        ScanNarrow(rest, s.(lines := s.lines + 1), sx);
      } else if n > 0 {
        var t := Scan(s.cells + r.cells[..n], s.lines + 1, s.lines, n, r.wrapped);
        WidthConcat(s.cells, r.cells[..n]);
        FitWidth(r.cells, Width(s.cells), sx);
        if r.wrapped && n == |r.cells| && Width(t.cells) != sx {
          ScanNarrow(rest, t, sx);
        }
      }
    }
  }

  lemma {:induction false} NarrowStartsStop(rows: seq<Row>, sx: nat)
    requires NarrowStarts(rows)
    ensures Stops(rows, sx, AtWide) == 0
    decreases |rows|
  {
    if rows != [] {
      var t, cur, rest := Turned(rows, sx), Last(rows[0].cells, sx), rows[1..];
      assert forall i :: 0 <= i < |rest| ==> rest[i] == rows[i + 1];
      if rows[0].wrapped && Width(cur) < sx {
        ScanNarrow(rest, Start(cur), sx);
        JoinIsFinish(cur, rest, sx);
      }
      assert NarrowStarts(t.rest);
      NarrowStartsStop(t.rest, sx);
    }
  }

  lemma {:induction false} FillUnit(line: seq<Cell>, sx: nat)
    requires sx >= 1 && UnitCells(line)
    ensures Fill(line, sx) == Cut(line, sx)
  {
    FitUnit(line, 0, sx);
    hide Fit;
    if |line| > sx {
      assert UnitCells(line[sx..]);
      hide UnitCells;
      FillUnit(line[sx..], sx);
    }
  }

  lemma {:induction false} FillAllUnit(lines: seq<seq<Cell>>, sx: nat)
    requires sx >= 1 && forall l :: l in lines ==> UnitCells(l)
    ensures FillAll(lines, sx) == ChunkAll(lines, sx)
  {
    if lines != [] {
      FillUnit(lines[0], sx);
      FillAllUnit(lines[1..], sx);
    }
  }

  lemma {:induction false} GlueUnit(rows: seq<Row>)
    requires Unit(rows)
    ensures forall l :: l in Glue(rows) ==> UnitCells(l)
  {
    if rows != [] {
      assert rows[0] in rows;
      GlueUnit(rows[1..]);
      var g := Glue(rows[1..]);
      assert rows[0].wrapped && |rows| > 1 ==> g[0] in g;
    }
  }

  /** With one-column cells a reflow is each logical line cut into rows of exactly the new
      width, the last one as long as what is left, exactly when no wrapped row is above a
      blank one or above nothing. */
  lemma ReflowIsChunksIff(rows: seq<Row>, sx: nat)
    requires sx >= 1 && Unit(rows)
    ensures Reflow(rows, sx) == ChunkAll(Glue(rows), sx) <==> Followed(rows)
    ensures Stops(rows, sx, AtWide) == 0
  {
    GlueUnit(rows);
    FillAllUnit(Glue(rows), sx);
    assert forall i :: 0 <= i < |rows| ==> rows[i] in rows;
    NarrowStartsStop(rows, sx);
    ReflowIsFilledIff(rows, sx);
  }

  // ----- The whole grid, and back again

  /** The whole grid: the logical lines laid into rows and blank rows up to the height, exactly
      when the pass lays them so; then those blank rows are lines of their own. */
  lemma ReflowGridIsFilledIff(rows: seq<Row>, sx: nat, sy: nat)
    requires AllNarrow(rows, sx) && Starts(rows)
    ensures var after, n := ReflowGrid(rows, sx, sy), |ReflowGrid(rows, sx, sy)| - |Reflow(rows, sx)|;
            && (after == FillAll(Glue(rows), sx) + Blanks(n) <==> Followed(rows) && Stops(rows, sx, AtWide) == 0)
            && (Followed(rows) && Stops(rows, sx, AtWide) == 0 ==>
                  && after == FillAll(Glue(rows) + EmptyLines(n), sx)
                  && Glue(after) == Glue(rows) + EmptyLines(n) && Followed(after))
  {
    hide Reflow, FillAll, Glue, Stops, Followed, AllNarrow, Starts, EmptyLines;
    var n := |ReflowGrid(rows, sx, sy)| - |Reflow(rows, sx)|;
    ReflowIsFilledIff(rows, sx);
    FillAllConcat(Glue(rows), EmptyLines(n), sx);
    FillAllBlanks(n, sx);
    assert Reflow(rows, sx) + Blanks(0) == Reflow(rows, sx);
    SameBefore(Reflow(rows, sx), FillAll(Glue(rows), sx), Blanks(n));
    GlueFillAll(Glue(rows) + EmptyLines(n), sx);
  }

  lemma SameBefore(a: seq<Row>, b: seq<Row>, c: seq<Row>)
    ensures a + c == b + c <==> a == b
  {
    if a + c == b + c {
      assert |a| == |b|;
      assert (a + c)[..|a|] == (b + c)[..|b|];
    }
  }

  lemma {:induction false} SaidBlanks(rows: seq<Row>, n: nat)
    ensures Said(Glue(rows + Blanks(n))) == Said(Glue(rows))
    ensures var g := Glue(rows + Blanks(n));
            g != [] ==> (g[0] == [] <==> rows == [] || Glue(rows)[0] == [])
  {
    if rows == [] {
      assert rows + Blanks(n) == Blanks(n);
      GlueBlanks(n);
      SaidEmpty(n);
    } else {
      var r, t := rows[0], rows[1..];
      SaidBlanks(t, n);
      var g := Glue(t + Blanks(n));
      assert rows + Blanks(n) == [r] + (t + Blanks(n)) && rows == [r] + t;
      GlueCons(r, t + Blanks(n));
      GlueCons(r, t);
      GlueNone(t + Blanks(n));
      SaidCons(r.cells, g);
      SaidCons(r.cells, Glue(t));
      if g != [] {
        SaidSplit(r.cells, g);
      }
      if Glue(t) != [] {
        SaidSplit(r.cells, Glue(t));
      }
    }
  }

  /** Cells put in front of the first line. */
  lemma SaidSplit(cells: seq<Cell>, g: seq<seq<Cell>>)
    requires g != []
    ensures Said([cells + g[0]] + g[1..]) == Said(g) + if cells != [] && g[0] == [] then 1 else 0
  {
    SaidCons(cells + g[0], g[1..]);
  }

  lemma {:induction false} SaidEmpty(n: nat)
    ensures Said(EmptyLines(n)) == 0
  {
    if n > 0 {
      SaidEmpty(n - 1);
      assert EmptyLines(n)[1..] == EmptyLines(n - 1);
    }
  }

  lemma NarrowFlat(a: seq<Row>, b: seq<Row>, sx: nat)
    requires AllNarrow(a, sx) && Flat(a) == Flat(b)
    ensures AllNarrow(b, sx)
  {
    forall r, c | r in b && c in r.cells
      ensures c.data.width <= sx
    {
      FlatHas(b, c);
      FlatHas(a, c);
    }
  }

  lemma {:induction false} FillStarts(line: seq<Cell>, sx: nat)
    requires line != [] ==> line[0].data.width >= 1
    ensures forall p: seq<Cell> :: p in Fill(line, sx) && p != [] ==> p[0].data.width >= 1
  {
    var n := Fit(line, 0, sx);
    if n != |line| && n != 0 {
      FitWidth(line, 0, sx);
      FitStops(line, 0, sx);
      FillStarts(line[n..], sx);
      assert line[..n][0] == line[0];
    }
  }

  lemma {:induction false} FillAllStarts(lines: seq<seq<Cell>>, sx: nat)
    requires forall l: seq<Cell> :: l in lines && l != [] ==> l[0].data.width >= 1
    ensures Starts(FillAll(lines, sx))
  {
    if lines != [] {
      FillStarts(lines[0], sx);
      FillAllStarts(lines[1..], sx);
    }
  }

  lemma {:induction false} GlueLinesStart(rows: seq<Row>)
    requires Starts(rows)
    ensures forall l: seq<Cell> :: l in Glue(rows) && l != [] ==> l[0].data.width >= 1
  {
    if rows != [] {
      assert rows[0] in rows;
      GlueLinesStart(rows[1..]);
      var g := Glue(rows[1..]);
      assert rows[0].wrapped && |rows| > 1 ==> g[0] in g;
    }
  }

  lemma GridSaid(rows: seq<Row>, sx: nat, sy: nat)
    ensures Said(Glue(ReflowGrid(rows, sx, sy))) == Said(Glue(rows)) + Stops(rows, sx, AtWide)
  {
    hide Reflow, Said, Glue, Stops;
    var r := Reflow(rows, sx);
    ReflowGrown(rows, sx);
    if |r| < sy {
      SaidBlanks(r, sy - |r|);
    }
  }

  lemma BlankLinesAfter(lines: seq<seq<Cell>>, n: nat, m: nat, sx: nat)
    ensures FillAll(lines + EmptyLines(n), sx) + Blanks(m) == FillAll(lines, sx) + Blanks(n + m)
  {
    FillAllConcat(lines, EmptyLines(n), sx);
    FillAllBlanks(n, sx);
    Assoc(FillAll(lines, sx), Blanks(n), Blanks(m));
    assert Blanks(n) + Blanks(m) == Blanks(n + m);
  }

  /** Away and back without a stop. */
  lemma BackAgain(rows: seq<Row>, sx: nat, other: nat, sy: nat)
    requires AllNarrow(rows, sx) && AllNarrow(rows, other) && Starts(rows) && rows == FillAll(Glue(rows), sx)
    requires Stops(rows, other, AtWide) == 0 && Stops(ReflowGrid(rows, other, sy), sx, AtWide) == 0
    ensures exists n: nat :: ReflowGrid(ReflowGrid(rows, other, sy), sx, sy) == rows + Blanks(n)
  {
    hide Reflow, ReflowGrid, Glue, Stops, AllNarrow, Followed, Starts, FillAll, Flat;
    var g, away := Glue(rows), ReflowGrid(rows, other, sy);
    GlueFillAll(g, sx);
    ReflowGridIsFilledIff(rows, other, sy);
    var n := |away| - |Reflow(rows, other)|;
    GlueLinesStart(rows);
    assert forall l :: l in EmptyLines(n) ==> l == [];
    FillAllStarts(g + EmptyLines(n), other);
    ReflowGridConserves(rows, other, sy);
    NarrowFlat(rows, away, sx);
    ReflowGridIsFilledIff(away, sx, sy);
    var back := ReflowGrid(away, sx, sy);
    var m := |back| - |Reflow(away, sx)|;
    BlankLinesAfter(g, n, m, sx);
    assert back == rows + Blanks(n + m);
  }

  /** A grid whose rows are as full as they go at one width comes back from a reflow to
      another width, with nothing but blank rows after it, exactly when neither pass has a
      join that stops at a row that does not fit. */
  lemma ReflowAwayAndBackIff(rows: seq<Row>, sx: nat, other: nat, sy: nat)
    requires AllNarrow(rows, sx) && AllNarrow(rows, other) && Starts(rows) && rows == FillAll(Glue(rows), sx)
    ensures var away := ReflowGrid(rows, other, sy);
            (exists n: nat :: ReflowGrid(away, sx, sy) == rows + Blanks(n))
            <==> Stops(rows, other, AtWide) == 0 && Stops(away, sx, AtWide) == 0
  {
    hide Reflow, ReflowGrid, Glue, Stops, AllNarrow, Followed, Starts, FillAll, Said;
    var away := ReflowGrid(rows, other, sy);
    if n: nat :| ReflowGrid(away, sx, sy) == rows + Blanks(n) {
      GridSaid(rows, other, sy);
      GridSaid(away, sx, sy);
      SaidBlanks(rows, n);
    }
    if Stops(rows, other, AtWide) == 0 && Stops(away, sx, AtWide) == 0 {
      BackAgain(rows, sx, other, sy);
    }
  }
}

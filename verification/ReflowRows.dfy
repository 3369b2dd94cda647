/** Reflow on row values: what grid_reflow does to the used cells and the wrap flag of
    each row, step for step, and what every result of it keeps (grid.c). */
module ReflowRows {
  import opened GridCells

  /** A row as reflow sees it: its used cells, and whether the line goes on below. */
  datatype Row = Row(cells: seq<Cell>, wrapped: bool)

  const BLANK := Row([], false)

  lemma Assoc<T>(a: seq<T>, b: seq<T>, c: seq<T>)
    ensures a + b + c == a + (b + c)
  {
  }

  function Width(cs: seq<Cell>): nat {
    if cs == [] then 0 else Width(cs[..|cs| - 1]) + cs[|cs| - 1].data.width
  }

  lemma {:induction false} WidthConcat(a: seq<Cell>, b: seq<Cell>)
    ensures Width(a + b) == Width(a) + Width(b)
  {
    if b == [] {
      assert a + b == a;
    } else {
      WidthConcat(a, b[..|b| - 1]);
      assert (a + b)[..|a + b| - 1] == a + b[..|b| - 1];
    }
  }

  /** All cells of the rows, in reading order. */
  function Flat(rows: seq<Row>): seq<Cell> {
    if rows == [] then [] else rows[0].cells + Flat(rows[1..])
  }

  lemma {:induction false} FlatConcat(a: seq<Row>, b: seq<Row>)
    ensures Flat(a + b) == Flat(a) + Flat(b)
  {
    if a == [] {
      assert a + b == b;
    } else {
      var t := a[1..];
      FlatConcat(t, b);
      assert (a + b)[0] == a[0] && (a + b)[1..] == t + b;
      assert Flat(a + b) == a[0].cells + Flat(t + b);
      Assoc(a[0].cells, Flat(t), Flat(b));
    }
  }

  /** How many of the cells fit after `width` columns of a row of `sx`. */
  function Fit(cs: seq<Cell>, width: nat, sx: nat): (n: nat)
    ensures n <= |cs|
  {
    if cs == [] || width + cs[0].data.width > sx then 0
    else 1 + Fit(cs[1..], width + cs[0].data.width, sx)
  }

  lemma {:induction false} FitWidth(cs: seq<Cell>, width: nat, sx: nat)
    requires width <= sx
    ensures width + Width(cs[..Fit(cs, width, sx)]) <= sx
  {
    if Fit(cs, width, sx) > 0 {
      FitWidth(cs[1..], width + cs[0].data.width, sx);
      var n := Fit(cs, width, sx);
      assert cs[..n] == [cs[0]] + cs[1..][..n - 1];
      WidthConcat([cs[0]], cs[1..][..n - 1]);
    }
  }

  /** The cell at which a row that is too wide is first broken: the scan of grid_reflow,
      which takes an index of zero for "not found yet". */
  function BreakAt(cs: seq<Cell>, i: nat, width: nat, sx: nat): (at: nat)
    requires i <= |cs|
    ensures at <= |cs|
    decreases |cs| - i
  {
    if i == |cs| then 0
    else if i > 0 && width + cs[i].data.width > sx then i
    else BreakAt(cs, i + 1, width + cs[i].data.width, sx)
  }

  /** The copying loop of grid_reflow_split: `cur` is the row being filled. */
  function Lay(cs: seq<Cell>, cur: seq<Cell>, width: nat, sx: nat): (r: seq<seq<Cell>>)
    ensures |r| > 0
    decreases |cs|
  {
    if cs == [] then [cur]
    else if width + cs[0].data.width > sx then [cur] + Lay(cs[1..], [cs[0]], cs[0].data.width, sx)
    else Lay(cs[1..], cur + [cs[0]], width + cs[0].data.width, sx)
  }

  /** grid_reflow_split: the pieces a row that is too wide becomes. */
  function Pieces(cs: seq<Cell>, sx: nat): (r: seq<seq<Cell>>)
    ensures |r| >= 2
  {
    var at := BreakAt(cs, 0, 0, sx);
    [cs[..at]] + Lay(cs[at..], [], 0, sx)
  }

  /** The rows made of the pieces: all but the last go on below. */
  function Wrapped(pieces: seq<seq<Cell>>, wrapped: bool): (r: seq<Row>)
    ensures |r| == |pieces|
  {
    seq(|pieces|, i requires 0 <= i < |pieces| => Row(pieces[i], i + 1 < |pieces| || wrapped))
  }

  /** The state of the consuming loop of grid_reflow_join: the target row's cells, the
      rows consumed, the last of them that had cells (-1 for none) and how many of its
      cells were taken, and whether every row looked at was wrapped. */
  datatype Scan = Scan(cells: seq<Cell>, lines: nat, from: int, want: nat, wrapped: bool)

  function ScanRows(rest: seq<Row>, sx: nat, s: Scan): Scan
    requires s.lines <= |rest|
    decreases |rest| - s.lines
  {
    if s.lines == |rest| then s
    else
      var r := rest[s.lines];
      var wrapped := s.wrapped && r.wrapped;
      if r.cells == [] then
        if !wrapped then s.(wrapped := false)
        else ScanRows(rest, sx, s.(lines := s.lines + 1))
      else
        var n := Fit(r.cells, Width(s.cells), sx);
        if n == 0 then s.(wrapped := wrapped)
        else
          var t := Scan(s.cells + r.cells[..n], s.lines + 1, s.lines, n, wrapped);
          if !wrapped || n != |r.cells| || Width(t.cells) == sx then t
          else ScanRows(rest, sx, t)
  }

  lemma ScanEnd(rest: seq<Row>, sx: nat, s: Scan)
    requires s.lines == |rest|
    ensures ScanRows(rest, sx, s) == s
  {
  }

  /** What a join leaves: the target row, and the rows still to be processed. */
  datatype Joined = Joined(row: Row, rest: seq<Row>)

  function Start(cur: seq<Cell>): Scan {
    Scan(cur, 0, -1, 0, true)
  }

  predicate Reached(rest: seq<Row>, t: Scan) {
    && t.lines <= |rest| && -1 <= t.from < t.lines
    && (t.from >= 0 ==> 0 < t.want <= |rest[t.from].cells|)
  }

  /** The rows taken away by a join: none, or up to the row cut short, or all consumed. */
  function Finish(cur: seq<Cell>, rest: seq<Row>, t: Scan): Joined
    requires Reached(rest, t)
  {
    if t.from == -1 then Joined(Row(cur, true), rest)
    else
      var last := rest[t.from];
      if t.want != |last.cells| then
        Joined(Row(t.cells, true), [last.(cells := last.cells[t.want..])] + rest[t.from + 1..])
      else Joined(Row(t.cells, t.wrapped), rest[t.lines..])
  }

  /** grid_reflow_join: the row above, not yet full, takes what it can from below. */
  function Join(cur: seq<Cell>, rest: seq<Row>, sx: nat): (j: Joined)
    ensures |j.rest| <= |rest|
  {
    ScanReached(rest, sx, Start(cur));
    Finish(cur, rest, ScanRows(rest, sx, Start(cur)))
  }

  lemma {:induction false} ScanReached(rest: seq<Row>, sx: nat, s: Scan)
    requires Reached(rest, s)
    ensures Reached(rest, ScanRows(rest, sx, s))
    ensures ScanRows(rest, sx, s).from >= s.from
    decreases |rest| - s.lines
  {
    if s.lines < |rest| {
      var r := rest[s.lines];
      var wrapped := s.wrapped && r.wrapped;
      if r.cells == [] {
        if wrapped {
          ScanReached(rest, sx, s.(lines := s.lines + 1));
        }
      } else {
        var n := Fit(r.cells, Width(s.cells), sx);
        var t := Scan(s.cells + r.cells[..n], s.lines + 1, s.lines, n, wrapped);
        if n > 0 && wrapped && n == |r.cells| && Width(t.cells) != sx {
          ScanReached(rest, sx, t);
        }
      }
    }
  }

  /** grid_reflow, before the target is padded to the height of the screen. */
  function Reflow(rows: seq<Row>, sx: nat): seq<Row>
    decreases |rows|
  {
    if rows == [] then []
    else
      var r, rest := rows[0], rows[1..];
      var width := Width(r.cells);
      if width == sx then [r] + Reflow(rest, sx)
      else if width > sx then
        var pieces := Pieces(r.cells, sx);
        var last := pieces[|pieces| - 1];
        if Width(last) < sx && r.wrapped then
          var j := Join(last, rest, sx);
          Wrapped(pieces[..|pieces| - 1], true) + [j.row] + Reflow(j.rest, sx)
        else Wrapped(pieces, r.wrapped) + Reflow(rest, sx)
      else if r.wrapped then
        var j := Join(r.cells, rest, sx);
        [j.row] + Reflow(j.rest, sx)
      else [r] + Reflow(rest, sx)
  }

  function Blanks(n: nat): (r: seq<Row>)
    ensures |r| == n
  {
    seq(n, _ => BLANK)
  }

  /** The whole grid after a reflow: never fewer rows than the screen is high. */
  function ReflowGrid(rows: seq<Row>, sx: nat, sy: nat): seq<Row> {
    var r := Reflow(rows, sx);
    if |r| < sy then r + Blanks(sy - |r|) else r
  }

  // ----- Conservation: no cell is lost, repeated or reordered

  lemma {:induction false} FlatBlanks(n: nat)
    ensures Flat(Blanks(n)) == []
  {
    if n > 0 {
      FlatBlanks(n - 1);
      assert Blanks(n)[1..] == Blanks(n - 1);
    }
  }

  function Concat(pieces: seq<seq<Cell>>): seq<Cell> {
    if pieces == [] then [] else pieces[0] + Concat(pieces[1..])
  }

  lemma {:induction false} LayConserves(cs: seq<Cell>, cur: seq<Cell>, width: nat, sx: nat)
    ensures Concat(Lay(cs, cur, width, sx)) == cur + cs
    decreases |cs|
  {
    if cs == [] {
    } else if width + cs[0].data.width > sx {
      LayConserves(cs[1..], [cs[0]], cs[0].data.width, sx);
      assert Lay(cs, cur, width, sx)[1..] == Lay(cs[1..], [cs[0]], cs[0].data.width, sx);
    } else {
      LayConserves(cs[1..], cur + [cs[0]], width + cs[0].data.width, sx);
    }
  }

  lemma {:induction false} FlatWrapped(pieces: seq<seq<Cell>>, wrapped: bool)
    ensures Flat(Wrapped(pieces, wrapped)) == Concat(pieces)
  {
    if pieces != [] {
      FlatWrapped(pieces[1..], wrapped);
      assert Wrapped(pieces, wrapped)[1..] == Wrapped(pieces[1..], wrapped);
    }
  }

  lemma PiecesConserve(cs: seq<Cell>, sx: nat)
    ensures Concat(Pieces(cs, sx)) == cs
  {
    var at := BreakAt(cs, 0, 0, sx);
    LayConserves(cs[at..], [], 0, sx);
    assert Pieces(cs, sx)[1..] == Lay(cs[at..], [], 0, sx);
  }

  /** The last piece set apart, as a join after a split does. */
  lemma {:induction false} ConcatLast(pieces: seq<seq<Cell>>)
    requires pieces != []
    ensures Concat(pieces) == Concat(pieces[..|pieces| - 1]) + pieces[|pieces| - 1]
  {
    if |pieces| > 1 {
      ConcatLast(pieces[1..]);
      assert pieces[1..][..|pieces| - 2] == pieces[..|pieces| - 1][1..];
    }
  }

  /** The cells the loop has taken from below. */
  function Taken(rest: seq<Row>, s: Scan): seq<Cell>
    requires Reached(rest, s)
  {
    if s.from == -1 then [] else Flat(rest[..s.from]) + rest[s.from].cells[..s.want]
  }

  /** What a join has consumed is exactly what its target row has gained. */
  ghost predicate Consumed(cur: seq<Cell>, rest: seq<Row>, s: Scan) {
    && Reached(rest, s)
    && (forall i :: s.from < i < s.lines ==> rest[i].cells == [])
    && s.cells == cur + Taken(rest, s)
    && (s.from >= 0 && s.want != |rest[s.from].cells| ==> s.lines == s.from + 1)
  }

  lemma {:induction false} FlatEmpty(rows: seq<Row>)
    requires forall i :: 0 <= i < |rows| ==> rows[i].cells == []
    ensures Flat(rows) == []
  {
    if rows != [] {
      FlatEmpty(rows[1..]);
    }
  }

  /** Cells of the rows before the next one, once all of those are used up. */
  lemma FlatUpTo(rest: seq<Row>, s: Scan)
    requires Reached(rest, s)
    requires forall i :: s.from < i < s.lines ==> rest[i].cells == []
    requires s.from >= 0 ==> s.want == |rest[s.from].cells|
    ensures Flat(rest[..s.lines]) == Taken(rest, s)
  {
    if s.from == -1 {
      FlatEmpty(rest[..s.lines]);
    } else {
      FlatEmpty(rest[s.from + 1..s.lines]);
      assert rest[..s.lines] == rest[..s.from] + ([rest[s.from]] + rest[s.from + 1..s.lines]);
      FlatConcat(rest[..s.from], [rest[s.from]] + rest[s.from + 1..s.lines]);
      assert ([rest[s.from]] + rest[s.from + 1..s.lines])[1..] == rest[s.from + 1..s.lines];
    }
  }

  lemma {:induction false} ScanConsumes(cur: seq<Cell>, rest: seq<Row>, sx: nat, s: Scan)
    requires Consumed(cur, rest, s)
    requires s.from >= 0 ==> s.want == |rest[s.from].cells|
    ensures Consumed(cur, rest, ScanRows(rest, sx, s))
    decreases |rest| - s.lines
  {
    hide Fit, Width, Flat;
    if s.lines < |rest| {
      var r := rest[s.lines];
      var wrapped := s.wrapped && r.wrapped;
      if r.cells == [] {
        if wrapped {
          ScanConsumes(cur, rest, sx, s.(lines := s.lines + 1));
        }
      } else {
        var n := Fit(r.cells, Width(s.cells), sx);
        if n > 0 {
          FlatUpTo(rest, s);
          var t := Scan(s.cells + r.cells[..n], s.lines + 1, s.lines, n, wrapped);
          assert t.cells == cur + (Flat(rest[..t.from]) + rest[t.from].cells[..t.want]);
          if wrapped && n == |r.cells| && Width(t.cells) != sx {
            ScanConsumes(cur, rest, sx, t);
          }
        }
      }
    }
  }

  lemma FlatCons(r: Row, rows: seq<Row>)
    ensures Flat([r] + rows) == r.cells + Flat(rows)
  {
    assert ([r] + rows)[1..] == rows;
  }

  lemma CutShortConserves(rest: seq<Row>, t: Scan)
    requires Reached(rest, t) && t.from >= 0
    ensures Taken(rest, t) + Flat([rest[t.from].(cells := rest[t.from].cells[t.want..])] + rest[t.from + 1..])
            == Flat(rest)
  {
    var last := rest[t.from];
    var left := last.(cells := last.cells[t.want..]);
    FlatCons(left, rest[t.from + 1..]);
    FlatCons(last, rest[t.from + 1..]);
    assert rest == rest[..t.from] + ([last] + rest[t.from + 1..]);
    FlatConcat(rest[..t.from], [last] + rest[t.from + 1..]);
    assert last.cells == last.cells[..t.want] + left.cells;
  }

  lemma AllTakenConserves(rest: seq<Row>, t: Scan)
    requires Reached(rest, t) && Flat(rest[..t.lines]) == Taken(rest, t)
    ensures Taken(rest, t) + Flat(rest[t.lines..]) == Flat(rest)
  {
    assert rest == rest[..t.lines] + rest[t.lines..];
    FlatConcat(rest[..t.lines], rest[t.lines..]);
  }

  lemma FinishConserves(cur: seq<Cell>, rest: seq<Row>, t: Scan)
    requires Consumed(cur, rest, t)
    ensures Finish(cur, rest, t).row.cells + Flat(Finish(cur, rest, t).rest) == cur + Flat(rest)
  {
    if t.from >= 0 {
      var j := Finish(cur, rest, t);
      if t.want != |rest[t.from].cells| {
        CutShortConserves(rest, t);
      } else {
        FlatUpTo(rest, t);
        AllTakenConserves(rest, t);
      }
      assert Taken(rest, t) + Flat(j.rest) == Flat(rest);
      assert j.row.cells == cur + Taken(rest, t);
      Assoc(cur, Taken(rest, t), Flat(j.rest));
    }
  }

  /** A join in terms of its scan. */
  lemma JoinIsFinish(cur: seq<Cell>, rest: seq<Row>, sx: nat)
    ensures var t := ScanRows(rest, sx, Start(cur));
            Consumed(cur, rest, t) && t.from >= -1 && Join(cur, rest, sx) == Finish(cur, rest, t)
            && (t.from == -1 ==> t.cells == cur && Join(cur, rest, sx) == Joined(Row(cur, true), rest))
  {
    ScanReached(rest, sx, Start(cur));
    ScanConsumes(cur, rest, sx, Start(cur));
  }

  lemma JoinConserves(cur: seq<Cell>, rest: seq<Row>, sx: nat)
    ensures Join(cur, rest, sx).row.cells + Flat(Join(cur, rest, sx).rest) == cur + Flat(rest)
  {
    JoinIsFinish(cur, rest, sx);
    FinishConserves(cur, rest, ScanRows(rest, sx, Start(cur)));
  }

  lemma SplitConserves(pieces: seq<seq<Cell>>, wrapped: bool, rows: seq<Row>)
    ensures Flat(Wrapped(pieces, wrapped) + rows) == Concat(pieces) + Flat(rows)
  {
    FlatConcat(Wrapped(pieces, wrapped), rows);
    FlatWrapped(pieces, wrapped);
  }

  lemma SplitJoinConserves(pieces: seq<seq<Cell>>, row: Row, rows: seq<Row>, rest: seq<Row>)
    requires pieces != []
    requires row.cells + Flat(rows) == pieces[|pieces| - 1] + Flat(rest)
    ensures Flat(Wrapped(pieces[..|pieces| - 1], true) + [row] + rows) == Concat(pieces) + Flat(rest)
  {
    var first := pieces[..|pieces| - 1];
    ConcatLast(pieces);
    SplitConserves(first, true, [row] + rows);
    FlatCons(row, rows);
    Assoc(Wrapped(first, true), [row], rows);
    Assoc(Concat(first), pieces[|pieces| - 1], Flat(rest));
  }

  /** For cells of any width: a reflow keeps the cells and their order. */
  lemma {:induction false} ReflowConserves(rows: seq<Row>, sx: nat)
    ensures Flat(Reflow(rows, sx)) == Flat(rows)
    decreases |rows|
  {
    if rows != [] {
      var r, rest := rows[0], rows[1..];
      var width := Width(r.cells);
      if width > sx {
        var pieces := Pieces(r.cells, sx);
        var last := pieces[|pieces| - 1];
        PiecesConserve(r.cells, sx);
        if Width(last) < sx && r.wrapped {
          var j := Join(last, rest, sx);
          JoinConserves(last, rest, sx);
          ReflowConserves(j.rest, sx);
          SplitJoinConserves(pieces, j.row, Reflow(j.rest, sx), rest);
        } else {
          ReflowConserves(rest, sx);
          SplitConserves(pieces, r.wrapped, Reflow(rest, sx));
        }
      } else if width < sx && r.wrapped {
        var j := Join(r.cells, rest, sx);
        JoinConserves(r.cells, rest, sx);
        ReflowConserves(j.rest, sx);
        FlatCons(j.row, Reflow(j.rest, sx));
      } else {
        ReflowConserves(rest, sx);
        FlatCons(r, Reflow(rest, sx));
      }
    }
  }

  lemma ReflowGridConserves(rows: seq<Row>, sx: nat, sy: nat)
    ensures Flat(ReflowGrid(rows, sx, sy)) == Flat(rows)
    ensures |ReflowGrid(rows, sx, sy)| >= sy
  {
    ReflowConserves(rows, sx);
    var r := Reflow(rows, sx);
    if |r| < sy {
      FlatBlanks(sy - |r|);
      FlatConcat(r, Blanks(sy - |r|));
    }
  }

  // ----- Width: the rows of a reflow fit exactly when every cell does

  predicate Narrow(cs: seq<Cell>, sx: nat) {
    forall c :: c in cs ==> c.data.width <= sx
  }

  predicate AllNarrow(rows: seq<Row>, sx: nat) {
    forall r :: r in rows ==> Narrow(r.cells, sx)
  }

  predicate AllFit(rows: seq<Row>, sx: nat) {
    forall r :: r in rows ==> Width(r.cells) <= sx
  }

  lemma {:induction false} BreakAtFits(cs: seq<Cell>, i: nat, sx: nat)
    requires Narrow(cs, sx) && i <= |cs| && Width(cs[..i]) <= sx
    ensures Width(cs[..BreakAt(cs, i, Width(cs[..i]), sx)]) <= sx
    decreases |cs| - i
  {
    if i < |cs| {
      assert cs[..i + 1] == cs[..i] + [cs[i]];
      WidthConcat(cs[..i], [cs[i]]);
      if Width(cs[..i + 1]) <= sx {
        BreakAtFits(cs, i + 1, sx);
      } else {
        assert i > 0;
      }
    }
  }

  lemma {:induction false} LayFits(cs: seq<Cell>, cur: seq<Cell>, sx: nat)
    requires Narrow(cs, sx) && Width(cur) <= sx
    ensures forall p :: p in Lay(cs, cur, Width(cur), sx) ==> Width(p) <= sx
    decreases |cs|
  {
    if cs != [] {
      assert Width([cs[0]]) == cs[0].data.width;
      WidthConcat(cur, [cs[0]]);
      if Width(cur) + cs[0].data.width > sx {
        LayFits(cs[1..], [cs[0]], sx);
      } else {
        LayFits(cs[1..], cur + [cs[0]], sx);
      }
    }
  }

  lemma PiecesFit(cs: seq<Cell>, sx: nat)
    requires Narrow(cs, sx)
    ensures forall p :: p in Pieces(cs, sx) ==> Width(p) <= sx
  {
    var at := BreakAt(cs, 0, 0, sx);
    BreakAtFits(cs, 0, sx);
    LayFits(cs[at..], [], sx);
  }

  lemma {:induction false} ScanFits(rest: seq<Row>, sx: nat, s: Scan)
    requires s.lines <= |rest| && Width(s.cells) <= sx
    ensures Width(ScanRows(rest, sx, s).cells) <= sx
    decreases |rest| - s.lines
  {
    if s.lines < |rest| {
      var r := rest[s.lines];
      var wrapped := s.wrapped && r.wrapped;
      if r.cells == [] {
        if wrapped {
          ScanFits(rest, sx, s.(lines := s.lines + 1));
        }
      } else {
        var n := Fit(r.cells, Width(s.cells), sx);
        var t := Scan(s.cells + r.cells[..n], s.lines + 1, s.lines, n, wrapped);
        FitWidth(r.cells, Width(s.cells), sx);
        WidthConcat(s.cells, r.cells[..n]);
        if n > 0 && wrapped && n == |r.cells| && Width(t.cells) != sx {
          ScanFits(rest, sx, t);
        }
      }
    }
  }

  lemma JoinFits(cur: seq<Cell>, rest: seq<Row>, sx: nat)
    requires Width(cur) <= sx && AllNarrow(rest, sx)
    ensures Width(Join(cur, rest, sx).row.cells) <= sx && AllNarrow(Join(cur, rest, sx).rest, sx)
  {
    ScanReached(rest, sx, Start(cur));
    ScanFits(rest, sx, Start(cur));
  }

  lemma FitsConcat(a: seq<Row>, b: seq<Row>, sx: nat)
    requires AllFit(a, sx) && AllFit(b, sx)
    ensures AllFit(a + b, sx)
  {
  }

  lemma WrappedFits(pieces: seq<seq<Cell>>, wrapped: bool, sx: nat)
    requires forall p :: p in pieces ==> Width(p) <= sx
    ensures AllFit(Wrapped(pieces, wrapped), sx)
  {
  }

  lemma SplitFits(r: Row, rest: seq<Row>, sx: nat)
    requires Width(r.cells) > sx && Narrow(r.cells, sx) && AllNarrow(rest, sx)
    requires forall rows :: |rows| <= |rest| && AllNarrow(rows, sx) ==> AllFit(Reflow(rows, sx), sx)
    ensures AllFit(Reflow([r] + rest, sx), sx)
  {
    var pieces := Pieces(r.cells, sx);
    var first, last := pieces[..|pieces| - 1], pieces[|pieces| - 1];
    assert ([r] + rest)[1..] == rest;
    PiecesFit(r.cells, sx);
    if Width(last) < sx && r.wrapped {
      var j := Join(last, rest, sx);
      JoinFits(last, rest, sx);
      WrappedFits(first, true, sx);
      FitsConcat([j.row], Reflow(j.rest, sx), sx);
      FitsConcat(Wrapped(first, true), [j.row] + Reflow(j.rest, sx), sx);
      Assoc(Wrapped(first, true), [j.row], Reflow(j.rest, sx));
    } else {
      WrappedFits(pieces, r.wrapped, sx);
      FitsConcat(Wrapped(pieces, r.wrapped), Reflow(rest, sx), sx);
    }
  }

  lemma {:induction false} ReflowFits(rows: seq<Row>, sx: nat)
    requires AllNarrow(rows, sx)
    ensures AllFit(Reflow(rows, sx), sx)
    decreases |rows|
  {
    if rows != [] {
      var r, rest := rows[0], rows[1..];
      var width := Width(r.cells);
      if width > sx {
        forall more: seq<Row> | |more| <= |rest| && AllNarrow(more, sx)
          ensures AllFit(Reflow(more, sx), sx)
        {
          ReflowFits(more, sx);
        }
        SplitFits(r, rest, sx);
        assert [r] + rest == rows;
      } else if width < sx && r.wrapped {
        var j := Join(r.cells, rest, sx);
        JoinFits(r.cells, rest, sx);
        ReflowFits(j.rest, sx);
        FitsConcat([j.row], Reflow(j.rest, sx), sx);
      } else {
        ReflowFits(rest, sx);
        FitsConcat([r], Reflow(rest, sx), sx);
      }
    }
  }

  lemma {:induction false} CellWithinWidth(cs: seq<Cell>, c: Cell)
    requires c in cs
    ensures c.data.width <= Width(cs)
  {
    if c != cs[|cs| - 1] {
      CellWithinWidth(cs[..|cs| - 1], c);
    }
  }

  lemma {:induction false} FlatHas(rows: seq<Row>, c: Cell)
    ensures c in Flat(rows) <==> exists r :: r in rows && c in r.cells
  {
    if rows != [] {
      FlatHas(rows[1..], c);
    }
  }

  /** Every row of the result fits the new width exactly when every cell does. */
  lemma ReflowFitsIff(rows: seq<Row>, sx: nat)
    ensures AllFit(Reflow(rows, sx), sx) <==> AllNarrow(rows, sx)
  {
    if AllNarrow(rows, sx) {
      ReflowFits(rows, sx);
    } else {
      var r :| r in rows && !Narrow(r.cells, sx);
      var c :| c in r.cells && c.data.width > sx;
      FlatHas(rows, c);
      ReflowConserves(rows, sx);
      FlatHas(Reflow(rows, sx), c);
      var r' :| r' in Reflow(rows, sx) && c in r'.cells;
      CellWithinWidth(r'.cells, c);
    }
  }

  // ----- Allocation: a split writes exactly the rows it made room for

  /** How often the counting loop of grid_reflow_split finds the row full. */
  function Overflows(cs: seq<Cell>, width: nat, sx: nat): nat {
    if cs == [] then 0
    else if width + cs[0].data.width > sx then 1 + Overflows(cs[1..], cs[0].data.width, sx)
    else Overflows(cs[1..], width + cs[0].data.width, sx)
  }

  lemma {:induction false} LayCount(cs: seq<Cell>, cur: seq<Cell>, width: nat, sx: nat)
    ensures |Lay(cs, cur, width, sx)| == 1 + Overflows(cs, width, sx)
    decreases |cs|
  {
    if cs != [] {
      if width + cs[0].data.width > sx {
        LayCount(cs[1..], [cs[0]], cs[0].data.width, sx);
      } else {
        LayCount(cs[1..], cur + [cs[0]], width + cs[0].data.width, sx);
      }
    }
  }

  /** The counting path allocates one row per piece, whatever the widths. */
  lemma CountedPath(cs: seq<Cell>, sx: nat)
    ensures |Pieces(cs, sx)| == 2 + Overflows(cs[BreakAt(cs, 0, 0, sx)..], 0, sx)
  {
    LayCount(cs[BreakAt(cs, 0, 0, sx)..], [], 0, sx);
  }

  lemma OverflowsNext(cs: seq<Cell>, i: nat, width: nat, sx: nat)
    requires i < |cs|
    ensures Overflows(cs[i..], width, sx)
            == if width + cs[i].data.width > sx then 1 + Overflows(cs[i + 1..], cs[i].data.width, sx)
               else Overflows(cs[i + 1..], width + cs[i].data.width, sx)
  {
    assert cs[i..][1..] == cs[i + 1..];
  }
}

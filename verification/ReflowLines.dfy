/** The logical lines of a grid, and lines cut into rows (grid.c). */
module ReflowLines {
  import opened GridCells
  import opened ReflowRows

  predicate UnitCells(cs: seq<Cell>) {
    forall c :: c in cs ==> c.data.width == 1
  }

  /** Every used cell is one column wide. */
  predicate Unit(rows: seq<Row>) {
    forall r :: r in rows ==> UnitCells(r.cells)
  }

  /** Every wrapped row is followed by a row that has cells or is wrapped itself. */
  predicate Followed(rows: seq<Row>) {
    forall i :: 0 <= i < |rows| && rows[i].wrapped ==> i + 1 < |rows| && rows[i + 1] != BLANK
  }

  /** The last row does not claim to go on. */
  predicate Ended(rows: seq<Row>) {
    rows != [] && !rows[|rows| - 1].wrapped
  }

  /** The logical lines: rows glued together where they wrap. */
  function Glue(rows: seq<Row>): (g: seq<seq<Cell>>)
    ensures rows != [] ==> g != []
  {
    if rows == [] then []
    else if rows[0].wrapped && |rows| > 1 then
      var g := Glue(rows[1..]);
      [rows[0].cells + g[0]] + g[1..]
    else [rows[0].cells] + Glue(rows[1..])
  }

  /** A line cut into pieces of exactly `sx` cells, the last of which may be shorter. */
  function Cut(line: seq<Cell>, sx: nat): (r: seq<seq<Cell>>)
    requires sx >= 1
    ensures r != []
  {
    if |line| <= sx then [line] else [line[..sx]] + Cut(line[sx..], sx)
  }

  function Chunk(line: seq<Cell>, sx: nat): seq<Row>
    requires sx >= 1
  {
    Wrapped(Cut(line, sx), false)
  }

  function ChunkAll(lines: seq<seq<Cell>>, sx: nat): seq<Row>
    requires sx >= 1
  {
    if lines == [] then [] else Chunk(lines[0], sx) + ChunkAll(lines[1..], sx)
  }

  // ----- One-column cells: measuring is counting

  lemma {:induction false} WidthUnit(cs: seq<Cell>)
    requires UnitCells(cs)
    ensures Width(cs) == |cs|
  {
    if cs != [] {
      WidthUnit(cs[..|cs| - 1]);
    }
  }

  lemma {:induction false} FitUnit(cs: seq<Cell>, width: nat, sx: nat)
    requires UnitCells(cs) && width <= sx
    ensures Fit(cs, width, sx) == if |cs| <= sx - width then |cs| else sx - width
  {
    if cs != [] && width < sx {
      FitUnit(cs[1..], width + 1, sx);
    }
  }

  lemma {:induction false} BreakAtUnit(cs: seq<Cell>, i: nat, sx: nat)
    requires UnitCells(cs) && i <= sx && 1 <= sx < |cs|
    ensures BreakAt(cs, i, i, sx) == sx
    decreases sx - i
  {
    if i < sx {
      BreakAtUnit(cs, i + 1, sx);
    }
  }

  lemma {:induction false} LayUnit(cs: seq<Cell>, cur: seq<Cell>, sx: nat)
    requires UnitCells(cs) && 1 <= sx && |cur| <= sx
    ensures Lay(cs, cur, |cur|, sx) == Cut(cur + cs, sx)
    decreases |cs|
  {
    if cs == [] {
      assert cur + cs == cur;
    } else if |cur| == sx {
      LayUnit(cs[1..], [cs[0]], sx);
      assert [cs[0]] + cs[1..] == cs;
      assert (cur + cs)[sx..] == cs && (cur + cs)[..sx] == cur;
    } else {
      LayUnit(cs[1..], cur + [cs[0]], sx);
      assert cur + [cs[0]] + cs[1..] == cur + cs;
    }
  }

  lemma PiecesUnit(cs: seq<Cell>, sx: nat)
    requires UnitCells(cs) && 1 <= sx < |cs|
    ensures Pieces(cs, sx) == Cut(cs, sx)
  {
    BreakAtUnit(cs, 0, sx);
    LayUnit(cs[sx..], [], sx);
    assert [] + cs[sx..] == cs[sx..];
  }

  lemma {:induction false} CutCount(line: seq<Cell>, sx: nat)
    requires 1 <= sx && line != []
    ensures |Cut(line, sx)| == 1 + (|line| - 1) / sx
  {
    if |line| > sx {
      CutCount(line[sx..], sx);
      DivStep(|line| - 1 - sx, sx);
    }
  }

  lemma DivStep(a: nat, b: nat)
    requires b >= 1
    ensures (a + b) / b == a / b + 1
  {
    DivUnique(a + b, b, a / b + 1, a % b);
  }

  lemma DivUnique(a: nat, b: nat, q: nat, r: nat)
    requires r < b && a == q * b + r
    ensures a / b == q
  {
    var d := a / b - q;
    assert d * b == r - a % b;
    AtLeastOnce(d, b);
    AtLeastOnce(-d, b);
  }

  lemma AtLeastOnce(d: int, b: nat)
    ensures d >= 1 ==> d * b >= b
  {
    if d >= 1 {
      assert d * b == b + (d - 1) * b;
    }
  }

  /** The arithmetic path of grid_reflow_split, for rows without extended cells,
      allocates one row per piece as well. */
  lemma ArithmeticPath(cs: seq<Cell>, sx: nat)
    requires UnitCells(cs) && 1 <= sx < |cs|
    ensures |Pieces(cs, sx)| == 1 + (|cs| - 1) / sx
  {
    PiecesUnit(cs, sx);
    CutCount(cs, sx);
  }

  // ----- Cutting and gluing

  lemma WrappedLast(p: seq<seq<Cell>>, wrapped: bool)
    requires p != []
    ensures Wrapped(p, wrapped) == Wrapped(p[..|p| - 1], true) + [Row(p[|p| - 1], wrapped)]
  {
  }

  lemma GlueCons(r: Row, rest: seq<Row>)
    ensures Glue([r] + rest) == if r.wrapped && rest != [] then [r.cells + Glue(rest)[0]] + Glue(rest)[1..]
                                else [r.cells] + Glue(rest)
  {
    assert ([r] + rest)[1..] == rest;
  }

  lemma GlueStarts(rows: seq<Row>)
    requires rows != []
    ensures rows[0].cells <= Glue(rows)[0]
  {
  }

  lemma FollowedTail(rows: seq<Row>)
    requires rows != [] && Followed(rows)
    ensures Followed(rows[1..])
    ensures rows[0].wrapped ==> |rows| > 1 && rows[1] != BLANK
  {
    assert forall i :: 0 <= i < |rows[1..]| ==> rows[1..][i] == rows[i + 1];
  }

  // ----- Breaks: where a line ends, or should go on and does not

  /** What a wrapped row costs by the rows below it: nothing when its line goes on, a break
      when it stands over a blank row, and two when it stands over nothing. */
  function Below(rows: seq<Row>): nat {
    if rows == [] then 2 else if rows[0] == BLANK then 1 else 0
  }

  /** The breaks of a grid: its unwrapped rows, and the wrapped rows whose line does not go on. */
  function Breaks(rows: seq<Row>): nat {
    if rows == [] then 0 else (if rows[0].wrapped then Below(rows[1..]) else 1) + Breaks(rows[1..])
  }

  lemma BreaksCons(r: Row, rows: seq<Row>)
    ensures Breaks([r] + rows) == (if r.wrapped then Below(rows) else 1) + Breaks(rows)
  {
    assert ([r] + rows)[1..] == rows;
  }

  /** There are at least as many breaks as logical lines, and no more exactly when every
      wrapped row is followed. */
  lemma {:induction false} BreaksLines(rows: seq<Row>)
    ensures Breaks(rows) >= |Glue(rows)|
    ensures Breaks(rows) == |Glue(rows)| <==> Followed(rows)
  {
    if rows != [] {
      var r, t := rows[0], rows[1..];
      BreaksLines(t);
      assert rows == [r] + t;
      GlueCons(r, t);
      FollowedCons(r, t);
    }
  }

  lemma FollowedCons(r: Row, rows: seq<Row>)
    ensures Followed([r] + rows) <==> Followed(rows) && (r.wrapped ==> rows != [] && rows[0] != BLANK)
  {
    var t := [r] + rows;
    assert t[1..] == rows;
    assert forall i :: 0 <= i < |rows| ==> rows[i] == t[i + 1];
    if Followed(t) {
      FollowedTail(t);
    }
    if Followed(rows) && (r.wrapped ==> rows != [] && rows[0] != BLANK) {
      forall i | 0 <= i < |t| && t[i].wrapped
        ensures i + 1 < |t| && t[i + 1] != BLANK
      {
        if i > 0 {
          assert rows[i - 1].wrapped;
        }
      }
    }
  }

  // ----- Blank lines, and grids put together

  function EmptyLines(n: nat): (r: seq<seq<Cell>>)
    ensures |r| == n
  {
    seq(n, _ => [])
  }

  lemma ConsConcat(x: seq<Cell>, a: seq<seq<Cell>>, b: seq<seq<Cell>>)
    requires a != []
    ensures [x + (a + b)[0]] + (a + b)[1..] == [x + a[0]] + a[1..] + b
  {
    assert (a + b)[0] == a[0] && (a + b)[1..] == a[1..] + b;
    assert [x + a[0]] + (a[1..] + b) == [x + a[0]] + a[1..] + b;
  }

  lemma {:induction false} GlueConcat(a: seq<Row>, b: seq<Row>)
    requires a == [] || Ended(a)
    ensures Glue(a + b) == Glue(a) + Glue(b)
  {
    if a == [] {
      assert a + b == b;
    } else {
      var t := a[1..];
      GlueConcat(t, b);
      GlueConsConcat(a[0], t, b);
      assert a == [a[0]] + t;
      Assoc([a[0]], t, b);
    }
  }

  lemma GlueConsConcat(r: Row, t: seq<Row>, b: seq<Row>)
    requires Glue(t + b) == Glue(t) + Glue(b) && (r.wrapped ==> t != [])
    ensures Glue([r] + (t + b)) == Glue([r] + t) + Glue(b)
  {
    GlueCons(r, t + b);
    GlueCons(r, t);
    hide Glue;
    if r.wrapped {
      ConsConcat(r.cells, Glue(t), Glue(b));
    } else {
      Assoc([r.cells], Glue(t), Glue(b));
    }
  }

  lemma FollowedConcat(a: seq<Row>, b: seq<Row>)
    requires Followed(a) && Followed(b)
    ensures Followed(a + b)
  {
  }

  lemma {:induction false} GlueBlanks(n: nat)
    ensures Glue(Blanks(n)) == EmptyLines(n)
  {
    if n > 0 {
      GlueBlanks(n - 1);
      assert Blanks(n) == [BLANK] + Blanks(n - 1);
      GlueCons(BLANK, Blanks(n - 1));
      assert EmptyLines(n) == [[]] + EmptyLines(n - 1);
    }
  }
}

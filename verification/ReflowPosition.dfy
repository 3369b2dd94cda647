/** Positions across a reflow: grid_wrap_position turns a row and column into a logical
    line and an index on it, grid_unwrap_position turns them back (grid.c). */
module ReflowPosition {
  import opened GridCells
  import opened ReflowRows
  import opened ReflowLines
  import opened ReflowTurns
  import opened ReflowKept

  const UINT_MAX := 0xFFFF_FFFF

  /** The loop of grid_wrap_position: cells of this logical line above row `py`, and
      logical lines that end above it. */
  function LineAbove(rows: seq<Row>, py: nat): (nat, nat)
    requires py <= |rows|
  {
    if py == 0 then (0, 0)
    else
      var (ax, ay) := LineAbove(rows, py - 1);
      if rows[py - 1].wrapped then (ax + |rows[py - 1].cells|, ay) else (0, ay + 1)
  }

  /** grid_wrap_position: UINT_MAX stands for any position past the row's cells. */
  function Wrap(rows: seq<Row>, px: nat, py: nat): (nat, nat)
    requires py < |rows|
  {
    var (ax, ay) := LineAbove(rows, py);
    (if px >= |rows[py].cells| then UINT_MAX else ax + px, ay)
  }

  /** The first loop of grid_unwrap_position: the first row of logical line `wy`. */
  function Seek(rows: seq<Row>, wy: nat, yy: nat, ay: nat): (r: nat)
    requires yy < |rows|
    ensures yy <= r < |rows|
    decreases |rows| - yy
  {
    if yy == |rows| - 1 || ay == wy then yy
    else Seek(rows, wy, yy + 1, if rows[yy].wrapped then ay else ay + 1)
  }

  /** What grid_unwrap_position finds: a place in the grid, or rows that go on past its last
      row, where the walk reads what is not there. */
  datatype Place = Outside | At(x: nat, y: nat)

  /** The walk to the end of the logical line: past the last row if no row ends it. */
  function EndRow(rows: seq<Row>, yy: nat): (r: nat)
    requires yy <= |rows|
    ensures yy <= r <= |rows| && (r < |rows| ==> !rows[r].wrapped)
    decreases |rows| - yy
  {
    if yy == |rows| || !rows[yy].wrapped then yy else EndRow(rows, yy + 1)
  }

  /** The walk to the row holding index `wx` of the logical line. */
  function Walk(rows: seq<Row>, wx: nat, yy: nat): (r: Place)
    requires yy <= |rows|
    ensures r.At? ==> r.y < |rows|
    decreases |rows| - yy
  {
    if yy == |rows| then Outside
    else if !rows[yy].wrapped || wx < |rows[yy].cells| then At(wx, yy)
    else Walk(rows, wx - |rows[yy].cells|, yy + 1)
  }

  /** The end of the logical line that row `yy` is on. */
  function LineEnd(rows: seq<Row>, yy: nat): (r: Place)
    requires yy <= |rows|
    ensures r.At? ==> r.y < |rows|
  {
    var e := EndRow(rows, yy);
    if e == |rows| then Outside else At(|rows[e].cells|, e)
  }

  /** grid_unwrap_position */
  function Unwrap(rows: seq<Row>, wx: nat, wy: nat): (r: Place)
    requires rows != []
    ensures r.At? ==> r.y < |rows|
  {
    var yy := Seek(rows, wy, 0, 0);
    if wx == UINT_MAX then LineEnd(rows, yy) else Walk(rows, wx, yy)
  }

  // ----- Positions as indexes into the text of the whole grid

  function Total(lines: seq<seq<Cell>>): nat {
    if lines == [] then 0 else |lines[0]| + Total(lines[1..])
  }

  /** How many cells come before a position, reading the grid from the top. */
  function Offset(rows: seq<Row>, px: nat, py: nat): nat
    requires py <= |rows|
  {
    |Flat(rows[..py])| + px
  }

  lemma FlatNext(rows: seq<Row>, py: nat)
    requires py < |rows|
    ensures Flat(rows[..py + 1]) == Flat(rows[..py]) + rows[py].cells
  {
    assert rows[..py + 1] == rows[..py] + [rows[py]];
    FlatConcat(rows[..py], [rows[py]]);
  }

  /** An offset within the text names one used cell. */
  lemma FlatAt(rows: seq<Row>, px: nat, py: nat)
    requires py < |rows| && px < |rows[py].cells|
    ensures Offset(rows, px, py) < |Flat(rows)| && Flat(rows)[Offset(rows, px, py)] == rows[py].cells[px]
  {
    FlatNext(rows, py);
    assert rows == rows[..py + 1] + rows[py + 1..];
    FlatConcat(rows[..py + 1], rows[py + 1..]);
  }

  lemma {:induction false} FlatGrows(rows: seq<Row>, a: nat, b: nat)
    requires a <= b <= |rows|
    ensures |Flat(rows[..a])| <= |Flat(rows[..b])|
    decreases b - a
  {
    if a < b {
      FlatNext(rows, a);
      FlatGrows(rows, a + 1, b);
    }
  }

  lemma OffsetInjective(rows: seq<Row>, px: nat, py: nat, qx: nat, qy: nat)
    requires py < |rows| && px < |rows[py].cells| && qy < |rows| && qx < |rows[qy].cells|
    requires Offset(rows, px, py) == Offset(rows, qx, qy)
    ensures px == qx && py == qy
  {
    FlatNext(rows, py);
    FlatNext(rows, qy);
    if py < qy {
      FlatGrows(rows, py + 1, qy);
    } else if qy < py {
      FlatGrows(rows, qy + 1, py);
    }
  }

  /** The logical lines of the rows from `yy` on, with `ax` cells of the first one
      already above: the shape both loops keep. */
  ghost predicate Above(rows: seq<Row>, yy: nat, ax: nat, ay: nat, g: seq<seq<Cell>>) {
    && yy < |rows| && ay < |g| && ax <= |g[ay]|
    && Total(g[..ay]) + ax == |Flat(rows[..yy])|
    && Glue(rows[yy..])[0] == g[ay][ax..] && Glue(rows[yy..])[1..] == g[ay + 1..]
  }

  lemma {:induction false} TotalSnoc(g: seq<seq<Cell>>, n: nat)
    requires n < |g|
    ensures Total(g[..n + 1]) == Total(g[..n]) + |g[n]|
  {
    if n > 0 {
      TotalSnoc(g[1..], n - 1);
      assert g[..n + 1][1..] == g[1..][..n] && g[..n][1..] == g[1..][..n - 1];
    }
  }

  lemma AboveNext(rows: seq<Row>, yy: nat, ax: nat, ay: nat, g: seq<seq<Cell>>)
    requires Above(rows, yy, ax, ay, g) && yy + 1 < |rows|
    ensures if rows[yy].wrapped then Above(rows, yy + 1, ax + |rows[yy].cells|, ay, g)
            else Above(rows, yy + 1, 0, ay + 1, g)
  {
    FlatNext(rows, yy);
    assert rows[yy..] == [rows[yy]] + rows[yy + 1..];
    GlueCons(rows[yy], rows[yy + 1..]);
    var tail := Glue(rows[yy + 1..]);
    if rows[yy].wrapped {
      assert g[ay][ax..][|rows[yy].cells|..] == g[ay][ax + |rows[yy].cells|..];
    } else {
      assert tail == g[ay + 1..];
      TotalSnoc(g, ay);
      assert tail[0] == g[ay + 1];
      assert tail[1..] == g[ay + 2..];
    }
  }

  lemma AboveStart(rows: seq<Row>)
    requires rows != []
    ensures Above(rows, 0, 0, 0, Glue(rows))
  {
    assert rows[0..] == rows;
  }

  lemma {:induction false} LineAboveIs(rows: seq<Row>, py: nat)
    requires py < |rows|
    ensures Above(rows, py, LineAbove(rows, py).0, LineAbove(rows, py).1, Glue(rows))
  {
    if py == 0 {
      AboveStart(rows);
    } else {
      LineAboveIs(rows, py - 1);
      AboveNext(rows, py - 1, LineAbove(rows, py - 1).0, LineAbove(rows, py - 1).1, Glue(rows));
    }
  }

  /** A used cell's wrapped position is its index on its logical line. */
  lemma WrapIsIndex(rows: seq<Row>, px: nat, py: nat)
    requires py < |rows| && px < |rows[py].cells|
    ensures var (wx, wy) := Wrap(rows, px, py);
            var g := Glue(rows);
            wy < |g| && wx < |g[wy]| && Total(g[..wy]) + wx == Offset(rows, px, py)
            && g[wy][wx] == rows[py].cells[px]
  {
    LineAboveIs(rows, py);
    var (ax, ay) := LineAbove(rows, py);
    GlueStarts(rows[py..]);
    var g := Glue(rows);
    assert rows[py].cells <= g[ay][ax..];
    assert g[ay][ax..][px] == rows[py].cells[px];
  }

  // ----- Turning a wrapped position back

  /** The walk ends on the row that holds the index. */
  lemma {:induction false} WalkIs(rows: seq<Row>, wx: nat, yy: nat, ax: nat, ay: nat, g: seq<seq<Cell>>)
    requires Above(rows, yy, ax, ay, g) && ax + wx < |g[ay]|
    ensures var p := Walk(rows, wx, yy);
            p.At? && p.x < |rows[p.y].cells| && Offset(rows, p.x, p.y) == Total(g[..ay]) + ax + wx
    decreases |rows| - yy
  {
    assert rows[yy..] == [rows[yy]] + rows[yy + 1..];
    GlueCons(rows[yy], rows[yy + 1..]);
    if rows[yy].wrapped && wx >= |rows[yy].cells| {
      AboveNext(rows, yy, ax, ay, g);
      WalkIs(rows, wx - |rows[yy].cells|, yy + 1, ax + |rows[yy].cells|, ay, g);
    }
  }

  /** The first loop stops on the first row of the line, which has none of it above. */
  lemma {:induction false} SeekIs(rows: seq<Row>, wy: nat, yy: nat, ax: nat, ay: nat, g: seq<seq<Cell>>)
    requires Above(rows, yy, ax, ay, g) && ay <= wy < |g|
    requires (ay == wy ==> ax == 0) && ay == LineAbove(rows, yy).1
    ensures Above(rows, Seek(rows, wy, yy, ay), 0, wy, g)
    ensures LineAbove(rows, Seek(rows, wy, yy, ay)).1 == wy
    decreases |rows| - yy
  {
    if yy == |rows| - 1 {
      assert rows[yy..] == [rows[yy]];
      assert Glue(rows[yy..])[1..] == [];
    } else if ay != wy {
      AboveNext(rows, yy, ax, ay, g);
      if rows[yy].wrapped {
        SeekIs(rows, wy, yy + 1, ax + |rows[yy].cells|, ay, g);
      } else {
        SeekIs(rows, wy, yy + 1, 0, ay + 1, g);
      }
    }
  }

  /** Any index on any logical line unwraps to the used cell with that index. */
  lemma UnwrapIsIndex(rows: seq<Row>, wx: nat, wy: nat)
    requires wy < |Glue(rows)| && wx < |Glue(rows)[wy]| && wx != UINT_MAX
    ensures var p := Unwrap(rows, wx, wy);
            p.At? && p.x < |rows[p.y].cells| && Offset(rows, p.x, p.y) == Total(Glue(rows)[..wy]) + wx
  {
    AboveStart(rows);
    SeekIs(rows, wy, 0, 0, 0, Glue(rows));
    WalkIs(rows, wx, Seek(rows, wy, 0, 0), 0, wy, Glue(rows));
  }

  // ----- Wrapping and unwrapping with no reflow in between

  /** Both loops agree on where a logical line starts. */
  lemma {:induction false} SeekBack(rows: seq<Row>, py: nat, yy: nat, ay: nat)
    requires yy <= py < |rows| && ay == LineAbove(rows, yy).1
    ensures var s := Seek(rows, LineAbove(rows, py).1, yy, ay);
            s <= py && forall i :: s <= i < py ==> rows[i].wrapped
    decreases py - yy
  {
    LineMonotone(rows, yy, py);
    if yy < |rows| - 1 && ay != LineAbove(rows, py).1 {
      SeekBack(rows, py, yy + 1, LineAbove(rows, yy + 1).1);
    }
  }

  lemma {:induction false} LineMonotone(rows: seq<Row>, a: nat, b: nat)
    requires a <= b <= |rows|
    ensures LineAbove(rows, a).1 <= LineAbove(rows, b).1
    ensures LineAbove(rows, a).1 == LineAbove(rows, b).1 ==> forall i :: a <= i < b ==> rows[i].wrapped
    decreases b - a
  {
    if a < b {
      LineMonotone(rows, a, b - 1);
    }
  }

  lemma {:induction false} EndRowFrom(rows: seq<Row>, a: nat, b: nat)
    requires a <= b <= |rows|
    requires forall i :: a <= i < b ==> rows[i].wrapped
    ensures EndRow(rows, a) == EndRow(rows, b)
    decreases b - a
  {
    if a < b {
      EndRowFrom(rows, a + 1, b);
    }
  }

  lemma {:induction false} EndRowInside(rows: seq<Row>, yy: nat)
    requires yy <= |rows|
    ensures EndRow(rows, yy) < |rows| <==> exists r :: yy <= r < |rows| && !rows[r].wrapped
    decreases |rows| - yy
  {
    if yy < |rows| && rows[yy].wrapped {
      EndRowInside(rows, yy + 1);
    }
  }

  /** A used cell comes back exactly, whatever the rows. A position past the end of its row
      comes back as the end of its logical line, and leaves the grid exactly when no row from
      there on ends the line. */
  lemma WrapUnwrap(rows: seq<Row>, px: nat, py: nat)
    requires py < |rows| && |Flat(rows)| < UINT_MAX
    ensures var (wx, wy) := Wrap(rows, px, py);
            Unwrap(rows, wx, wy) == if px < |rows[py].cells| then At(px, py) else LineEnd(rows, py)
    ensures LineEnd(rows, py).At? <==> exists r :: py <= r < |rows| && !rows[r].wrapped
  {
    EndRowInside(rows, py);
    var (wx, wy) := Wrap(rows, px, py);
    if px < |rows[py].cells| {
      WrapIsIndex(rows, px, py);
      FlatAt(rows, px, py);
      UnwrapIsIndex(rows, wx, wy);
      var p := Unwrap(rows, wx, wy);
      OffsetInjective(rows, px, py, p.x, p.y);
    } else {
      SeekBack(rows, py, 0, 0);
      EndRowFrom(rows, Seek(rows, wy, 0, 0), py);
    }
  }

  /** The smallest grid that a position leaves: one row, full and going on, as a line feed
      below the scroll region leaves the last row. */
  lemma LastRowGoesOn(c: Cell)
    ensures var rows := [Row([c], true)];
            Wrap(rows, 0, 0) == (0, 0) && Unwrap(rows, 0, 0) == At(0, 0)
            && Wrap(rows, 1, 0) == (UINT_MAX, 0) && Unwrap(rows, UINT_MAX, 0) == Outside
  {
    var rows := [Row([c], true)];
    assert EndRow(rows, 1) == 1;
  }
}

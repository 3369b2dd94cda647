/** The grid: history rows, then the rows of the screen (grid.c). */
module Grids {
  import opened GridCells
  import opened GridLines
  import opened ReflowRows

  /** No two rows share storage. */
  ghost predicate Distinct(lines: seq<Line>) {
    forall i, j :: 0 <= i < j < |lines| ==> lines[i] != lines[j]
  }

  ghost predicate Disjoint(a: seq<Line>, b: seq<Line>) {
    forall i, j :: 0 <= i < |a| && 0 <= j < |b| ==> a[i] != b[j]
  }

  lemma DistinctAppend(lines: seq<Line>, l: Line)
    requires Distinct(lines) && l !in lines
    ensures Distinct(lines + [l])
  {
  }

  /** Replacing a row by a new one, as dead rows are. */
  lemma DistinctUpdate(lines: seq<Line>, i: nat, l: Line)
    requires i < |lines| && Distinct(lines) && l !in lines
    ensures Distinct(lines[i := l]) && lines[i] !in lines[i := l]
  {
  }

  ghost predicate AllValid(lines: seq<Line>)
    reads lines
  {
    forall i :: 0 <= i < |lines| ==> lines[i].Valid()
  }

  lemma AllValidSlice(lines: seq<Line>, a: nat, b: nat)
    requires a <= b <= |lines| && AllValid(lines)
    ensures AllValid(lines[a..b])
  {
  }

  lemma AllValidFrom(lines: seq<Line>)
    requires forall i :: 0 <= i < |lines| ==> lines[i].Valid()
    ensures AllValid(lines)
  {
  }

  lemma ValidAt(lines: seq<Line>, i: nat)
    requires i < |lines| && AllValid(lines)
    ensures lines[i].Valid() && RowsOf(lines)[i] == RowOf(lines[i])
  {
  }

  /** Rows 0 to hsize - 1 are history, the next sy rows are the screen. */
  class Grid {
    var sx: nat
    var sy: nat
    var hscrolled: nat
    var hsize: nat
    var hlimit: nat
    var history: bool
    var linedata: seq<Line>

    ghost predicate Valid()
      reads this, linedata
    {
      && hsize + sy <= |linedata|
      && Distinct(linedata) && AllValid(linedata)
      && hscrolled <= hsize
    }

    /** The rows in use. */
    ghost function Lines(): (r: seq<Line>)
      reads this
      requires hsize + sy <= |linedata|
    {
      linedata[..hsize + sy]
    }

    /** grid_create */
    constructor (sx: nat, sy: nat, hlimit: nat)
      ensures Valid() && fresh(linedata)
      ensures this.sx == sx && this.sy == sy && this.hlimit == hlimit && history == (hlimit != 0)
      ensures hsize == 0 && hscrolled == 0 && |linedata| == sy
      ensures forall l :: l in linedata ==> l.Cells() == [] && !l.wrapped && !l.dead
    {
      this.sx, this.sy, this.hlimit := sx, sy, hlimit;
      history := hlimit != 0;
      hscrolled, hsize := 0, 0;
      new;
      linedata := BlankLines(sy);
    }
  }

  /** Zeroed memory for a number of rows. */
  method BlankLines(n: nat) returns (lines: seq<Line>)
    ensures |lines| == n && fresh(lines) && Distinct(lines) && AllValid(lines)
    ensures forall l :: l in lines ==> l.celldata == [] && l.cellused == 0 && !l.wrapped && !l.dead
  {
    lines := [];
    for i := 0 to n
      invariant |lines| == i && fresh(lines) && Distinct(lines) && AllValid(lines)
      invariant forall l :: l in lines ==> l.celldata == [] && l.cellused == 0 && !l.wrapped && !l.dead
    {
      var l := new Line();
      lines := lines + [l];
    }
  }

  /** A row as reflow sees it. */
  ghost function RowOf(l: Line): Row
    requires l.Valid()
    reads l
  {
    Row(StripAll(l.Cells()[..l.cellused]), l.wrapped)
  }

  lemma RowLength(l: Line)
    requires l.Valid()
    ensures |RowOf(l).cells| == l.cellused && RowOf(l).wrapped == l.wrapped
  {
  }

  ghost function RowsOf(lines: seq<Line>): (r: seq<Row>)
    requires AllValid(lines)
    reads lines
    ensures |r| == |lines|
    ensures forall i :: 0 <= i < |lines| ==> r[i] == RowOf(lines[i])
  {
    if lines == [] then []
    else
      assert AllValid(lines[..|lines| - 1]);
      RowsOf(lines[..|lines| - 1]) + [RowOf(lines[|lines| - 1])]
  }

  /** The positions past a row's used cells that have slots. */
  ghost function SpareOf(l: Line): set<nat>
    reads l
  {
    set p: nat | l.cellused <= p < |l.celldata| && l.celldata[p].Extended?
  }

  ghost function SparesOf(lines: seq<Line>): (s: seq<set<nat>>)
    reads lines
    ensures |s| == |lines|
    ensures forall i :: 0 <= i < |lines| ==> s[i] == SpareOf(lines[i])
  {
    seq(|lines|, i requires 0 <= i < |lines| reads lines => SpareOf(lines[i]))
  }

  lemma RowsOfSlice(lines: seq<Line>, a: nat, b: nat)
    requires a <= b <= |lines| && AllValid(lines)
    ensures AllValid(lines[a..b]) && RowsOf(lines[a..b]) == RowsOf(lines)[a..b]
  {
    hide SlotsOk, StripAll, RowOf;
    AllValidSlice(lines, a, b);
    var some := lines[a..b];
    forall i | 0 <= i < b - a
      ensures RowsOf(some)[i] == RowsOf(lines)[a..b][i]
    {
      ValidAt(some, i);
      ValidAt(lines, a + i);
    }
  }

  lemma RowsOfConcat(a: seq<Line>, b: seq<Line>)
    requires AllValid(a) && AllValid(b)
    ensures AllValid(a + b) && RowsOf(a + b) == RowsOf(a) + RowsOf(b)
  {
  }

  /** One row of several changed: the others read as before. */
  lemma RowsOfChanged(before: seq<Row>, lines: seq<Line>, k: nat)
    requires k < |lines| == |before| && AllValid(lines)
    requires forall i :: 0 <= i < |lines| && i != k ==> RowOf(lines[i]) == before[i]
    ensures RowsOf(lines) == before[k := RowOf(lines[k])]
  {
  }
}

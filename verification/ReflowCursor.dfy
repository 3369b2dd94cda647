/** A position taken over a reflow: it is on the same cell, or at the end of the same line,
    exactly when no join of the pass ended a line before it (grid.c, screen.c). */
module ReflowCursor {
  import opened GridCells
  import opened ReflowRows
  import opened ReflowLines
  import opened ReflowTurns
  import opened ReflowKept
  import opened ReflowPosition

  /** The wrapped position of a place in the text, `ax` cells and `ay` lines being above. */
  function WrapAt(rows: seq<Row>, o: nat, ax: nat, ay: nat): (nat, nat) {
    if rows == [] then (ax, ay)
    else
      var n := |rows[0].cells|;
      if o < n then (ax + o, ay)
      else if rows[0].wrapped then WrapAt(rows[1..], o - n, ax + n, ay)
      else WrapAt(rows[1..], o - n, 0, ay + 1)
  }

  lemma WrapAtCons(r: Row, rows: seq<Row>, o: nat, ax: nat, ay: nat)
    ensures WrapAt([r] + rows, o, ax, ay)
            == if o < |r.cells| then (ax + o, ay)
               else if r.wrapped then WrapAt(rows, o - |r.cells|, ax + |r.cells|, ay)
               else WrapAt(rows, o - |r.cells|, 0, ay + 1)
  {
    assert ([r] + rows)[1..] == rows;
  }

  /** How many joins of a pass end a line before a place in the text: those whose row is
      finished before it. */
  function StopsBefore(rows: seq<Row>, sx: nat, o: nat): nat
    decreases |rows|
  {
    if rows == [] then 0
    else
      var t := Turned(rows, sx);
      var n := |Concat(t.first)| + |t.row.cells|;
      if o < n then 0 else (if t.stop != None then 1 else 0) + StopsBefore(t.rest, sx, o - n)
  }

  /** In rows `b` a place is so many lines further down than in rows `a`, and if on none, at
      the same wrapped position. */
  ghost predicate Later(a: seq<Row>, b: seq<Row>, o: nat, k: nat) {
    && (forall ax: nat, ay: nat :: WrapAt(b, o, ax, ay).1 == WrapAt(a, o, ax, ay).1 + k)
    && (k == 0 ==> forall ax: nat, ay: nat :: WrapAt(b, o, ax, ay) == WrapAt(a, o, ax, ay))
  }

  lemma LaterTwice(a: seq<Row>, b: seq<Row>, c: seq<Row>, o: nat, j: nat, k: nat)
    requires Later(a, b, o, j) && Later(b, c, o, k)
    ensures Later(a, c, o, j + k)
  {
  }

  /** The line number does not depend on the cells above, and counts on. */
  lemma {:induction false} WrapAtLine(rows: seq<Row>, o: nat, ax: nat, bx: nat, ay: nat)
    ensures WrapAt(rows, o, ax, ay + 1).1 == WrapAt(rows, o, bx, ay).1 + 1
  {
    if rows != [] && o >= |rows[0].cells| {
      var n := |rows[0].cells|;
      if rows[0].wrapped {
        WrapAtLine(rows[1..], o - n, ax + n, bx + n, ay);
      } else {
        WrapAtLine(rows[1..], o - n, 0, 0, ay + 1);
      }
    }
  }

  lemma {:induction false} LaterAfter(pre: seq<Row>, a: seq<Row>, b: seq<Row>, o: nat, k: nat)
    requires o >= |Flat(pre)| ==> Later(a, b, o - |Flat(pre)|, k)
    ensures Later(pre + a, pre + b, o, if o < |Flat(pre)| then 0 else k)
  {
    if pre == [] {
      assert pre + a == a && pre + b == b;
    } else {
      var r, p := pre[0], pre[1..];
      assert pre + a == [r] + (p + a) && pre + b == [r] + (p + b);
      if o >= |r.cells| {
        LaterAfter(p, a, b, o - |r.cells|, k);
      }
      var n := if o < |Flat(pre)| then 0 else k;
      forall ax: nat, ay: nat
        ensures var x, y := WrapAt(pre + a, o, ax, ay), WrapAt(pre + b, o, ax, ay);
                y.1 == x.1 + n && (n == 0 ==> y == x)
      {
        WrapAtCons(r, p + a, o, ax, ay);
        WrapAtCons(r, p + b, o, ax, ay);
      }
    }
  }

  // ----- One turn

  lemma {:induction false} WrapAtPieces(first: seq<seq<Cell>>, row: Row, below: seq<Row>, o: nat, ax: nat, ay: nat)
    ensures WrapAt(Wrapped(first, true) + ([row] + below), o, ax, ay)
            == WrapAt([Row(Concat(first) + row.cells, row.wrapped)] + below, o, ax, ay)
  {
    if first == [] {
      assert Wrapped(first, true) + ([row] + below) == [row] + below;
      assert Concat(first) + row.cells == row.cells;
    } else {
      var p, more := first[0], Wrapped(first[1..], true) + ([row] + below);
      assert Wrapped(first, true) + ([row] + below) == [Row(p, true)] + more;
      WrapAtCons(Row(p, true), more, o, ax, ay);
      WrapAtCons(Row(Concat(first) + row.cells, row.wrapped), below, o, ax, ay);
      if o >= |p| {
        WrapAtPieces(first[1..], row, below, o - |p|, ax + |p|, ay);
        WrapAtCons(Row(Concat(first[1..]) + row.cells, row.wrapped), below, o - |p|, ax + |p|, ay);
      }
    }
  }

  /** Cells that move up from the row below, all or some of them. */
  lemma WrapAtMoved(cells: seq<Cell>, r: Row, below: seq<Row>, n: nat, o: nat, ax: nat, ay: nat)
    requires n <= |r.cells|
    ensures WrapAt([Row(cells, true)] + ([r] + below), o, ax, ay)
            == WrapAt([Row(cells + r.cells[..n], true)] + ([r.(cells := r.cells[n..])] + below), o, ax, ay)
            == WrapAt([Row(cells + r.cells, r.wrapped)] + below, o, ax, ay)
  {
    var left := r.(cells := r.cells[n..]);
    WrapAtCons(Row(cells, true), [r] + below, o, ax, ay);
    WrapAtCons(Row(cells + r.cells[..n], true), [left] + below, o, ax, ay);
    WrapAtCons(Row(cells + r.cells, r.wrapped), below, o, ax, ay);
    if o >= |cells| {
      WrapAtCons(r, below, o - |cells|, ax + |cells|, ay);
    }
    if o >= |cells| + n {
      WrapAtCons(left, below, o - |cells| - n, ax + |cells| + n, ay);
    }
  }

  ghost predicate Scanned(cur: seq<Cell>, rest: seq<Row>, s: Scan, o: nat) {
    && Reached(rest, s) && s.wrapped
    && (s.from == -1 ==> s.cells == cur)
    && (s.from >= 0 ==> s.want == |rest[s.from].cells| && rest[s.from].wrapped)
    && Later([Row(cur, true)] + rest, [Row(s.cells, true)] + rest[s.lines..], o, 0)
  }

  /** Whether a stop comes before a place `n` cells after the start of its row. */
  function Before(stop: Stop, n: nat, o: nat): nat {
    if stop != None && o >= n then 1 else 0
  }

  ghost predicate Joining(cur: seq<Cell>, rest: seq<Row>, t: Scan, o: nat) {
    && Reached(rest, t)
    && var j := Finish(cur, rest, t);
       Later([Row(cur, true)] + rest, [j.row] + j.rest, o, Before(StopAt(rest, t), |j.row.cells|, o))
  }

  lemma LaterSame(a: seq<Row>, o: nat)
    ensures Later(a, a, o, 0)
  {
  }

  lemma EndJoin(cur: seq<Cell>, rest: seq<Row>, s: Scan, o: nat)
    requires Scanned(cur, rest, s, o)
    ensures Joining(cur, rest, s, o)
  {
    LaterSame([Row(cur, true)] + rest, o);
  }

  /** The wrap of a row cleared: what is below is a line further down. */
  lemma ClearedLater(cells: seq<Cell>, below: seq<Row>, o: nat)
    ensures Later([Row(cells, true)] + below, [Row(cells, false)] + below, o, Before(AtWide, |cells|, o))
  {
    forall ax: nat, ay: nat
      ensures var x, y := WrapAt([Row(cells, true)] + below, o, ax, ay), WrapAt([Row(cells, false)] + below, o, ax, ay);
              if o < |cells| then y == x else y.1 == x.1 + 1
    {
      WrapAtCons(Row(cells, true), below, o, ax, ay);
      WrapAtCons(Row(cells, false), below, o, ax, ay);
      if o >= |cells| {
        WrapAtLine(below, o - |cells|, 0, ax + |cells|, ay);
      }
    }
  }

  lemma StopJoin(cur: seq<Cell>, rest: seq<Row>, s: Scan, o: nat)
    requires Scanned(cur, rest, s, o) && s.lines < |rest| && !rest[s.lines].wrapped
    ensures Joining(cur, rest, s.(wrapped := false), o)
  {
    if s.from == -1 {
      LaterSame([Row(cur, true)] + rest, o);
    } else {
      ClearedLater(s.cells, rest[s.lines..], o);
      LaterTwice([Row(cur, true)] + rest, [Row(s.cells, true)] + rest[s.lines..], [Row(s.cells, false)] + rest[s.lines..],
                 o, 0, Before(AtWide, |s.cells|, o));
    }
  }

  lemma TakeJoin(cur: seq<Cell>, rest: seq<Row>, s: Scan, n: nat, o: nat)
    requires Scanned(cur, rest, s, o) && s.lines < |rest| && n <= |rest[s.lines].cells|
    requires n == 0 ==> rest[s.lines] == Row([], true)
    ensures var r := rest[s.lines];
            var t := if n == 0 then s.(lines := s.lines + 1)
                     else Scan(s.cells + r.cells[..n], s.lines + 1, s.lines, n, r.wrapped);
            (n > 0 ==> Joining(cur, rest, t, o)) && (n == |r.cells| && r.wrapped ==> Scanned(cur, rest, t, o))
  {
    var r, below := rest[s.lines], rest[s.lines + 1..];
    assert rest[s.lines..] == [r] + below;
    var was := [Row(s.cells, true)] + ([r] + below);
    var part := [Row(s.cells + r.cells[..n], true)] + ([r.(cells := r.cells[n..])] + below);
    var all := [Row(s.cells + r.cells, r.wrapped)] + below;
    forall ax: nat, ay: nat
      ensures WrapAt(was, o, ax, ay) == WrapAt(part, o, ax, ay) == WrapAt(all, o, ax, ay)
    {
      WrapAtMoved(s.cells, r, below, n, o, ax, ay);
    }
    assert r.cells[..|r.cells|] == r.cells && s.cells + [] == s.cells;
    LaterTwice([Row(cur, true)] + rest, was, part, o, 0, 0);
    LaterTwice([Row(cur, true)] + rest, was, all, o, 0, 0);
  }

  lemma {:induction false} ScanJoins(cur: seq<Cell>, rest: seq<Row>, s: Scan, sx: nat, o: nat)
    requires Scanned(cur, rest, s, o)
    ensures Joining(cur, rest, ScanRows(rest, sx, s), o)
    decreases |rest| - s.lines
  {
    hide Fit, Width, Scanned, Joining;
    ScannedReached(cur, rest, s, o);
    if s.lines == |rest| {
      EndJoin(cur, rest, s, o);
      return;
    }
    var r := rest[s.lines];
    var n := Fit(r.cells, Width(s.cells), sx);
    if r.cells == [] && r.wrapped {
      TakeJoin(cur, rest, s, 0, o);
      ScanJoins(cur, rest, s.(lines := s.lines + 1), sx, o);
    } else if n > 0 {
      TakeJoin(cur, rest, s, n, o);
      var t := Scan(s.cells + r.cells[..n], s.lines + 1, s.lines, n, r.wrapped);
      if r.wrapped && n == |r.cells| && Width(t.cells) != sx {
        ScanJoins(cur, rest, t, sx, o);
      }
    } else if !r.wrapped {
      StopJoin(cur, rest, s, o);
    } else {
      assert s.(wrapped := true) == s;
      EndJoin(cur, rest, s, o);
    }
  }

  lemma ScannedReached(cur: seq<Cell>, rest: seq<Row>, s: Scan, o: nat)
    requires Scanned(cur, rest, s, o)
    ensures s.lines <= |rest| && s.wrapped
  {
  }

  lemma JoinLater(cur: seq<Cell>, rest: seq<Row>, sx: nat, o: nat)
    ensures var j := Join(cur, rest, sx);
            Later([Row(cur, true)] + rest, [j.row] + j.rest, o, Before(StopOf(cur, rest, sx), |j.row.cells|, o))
  {
    assert rest[0..] == rest;
    LaterSame([Row(cur, true)] + rest, o);
    ScanJoins(cur, rest, Start(cur), sx, o);
  }

  lemma PiecesLater(first: seq<seq<Cell>>, row: Row, below: seq<Row>, o: nat)
    ensures Later([Row(Concat(first) + row.cells, row.wrapped)] + below, Wrapped(first, true) + ([row] + below), o, 0)
  {
    forall ax: nat, ay: nat
      ensures WrapAt(Wrapped(first, true) + ([row] + below), o, ax, ay)
              == WrapAt([Row(Concat(first) + row.cells, row.wrapped)] + below, o, ax, ay)
    {
      WrapAtPieces(first, row, below, o, ax, ay);
    }
  }

  lemma JoinAfter(pre: seq<Row>, cur: seq<Cell>, rest: seq<Row>, sx: nat, o: nat)
    ensures var j, stop := Join(cur, rest, sx), StopOf(cur, rest, sx);
            Later(pre + ([Row(cur, true)] + rest), pre + ([j.row] + j.rest), o, Before(stop, |Flat(pre)| + |j.row.cells|, o))
  {
    hide Join, StopOf, Later;
    var j, stop := Join(cur, rest, sx), StopOf(cur, rest, sx);
    var k := if o < |Flat(pre)| then 0 else Before(stop, |j.row.cells|, o - |Flat(pre)|);
    if o >= |Flat(pre)| {
      JoinLater(cur, rest, sx, o - |Flat(pre)|);
    }
    LaterAfter(pre, [Row(cur, true)] + rest, [j.row] + j.rest, o, k);
  }

  lemma TurnLater(rows: seq<Row>, sx: nat, o: nat)
    requires rows != []
    ensures var t := Turned(rows, sx);
            Later(rows, Done(t, t.rest), o, Before(t.stop, |Concat(t.first)| + |t.row.cells|, o))
  {
    hide Join, StopOf, First, Last, Later;
    var r, rest, t := rows[0], rows[1..], Turned(rows, sx);
    var cur, pre := Last(r.cells, sx), Wrapped(t.first, true);
    assert rows == [r] + rest;
    LastConserves(r.cells, sx);
    PiecesLater(t.first, Row(cur, r.wrapped), rest, o);
    FlatWrapped(t.first, true);
    if r.wrapped && Width(cur) < sx {
      JoinAfter(pre, cur, rest, sx, o);
      LaterTwice(rows, pre + ([Row(cur, true)] + rest), Done(t, t.rest), o, 0,
                 Before(t.stop, |Concat(t.first)| + |t.row.cells|, o));
    }
  }

  // ----- The whole pass

  /** For any rows, any width and any place in the text: a reflow puts it as many lines
      further down as joins end a line before it, and if none does, at the same index. */
  lemma {:induction false} ReflowLater(rows: seq<Row>, sx: nat, o: nat)
    ensures Later(rows, Reflow(rows, sx), o, StopsBefore(rows, sx, o))
    decreases |rows|
  {
    hide Turned, Later;
    if rows == [] {
      LaterSame(rows, o);
    } else {
      var t := Turned(rows, sx);
      var n := |Concat(t.first)| + |t.row.cells|;
      var k := if o < n then 0 else StopsBefore(t.rest, sx, o - n);
      TurnLater(rows, sx, o);
      if o >= n {
        ReflowLater(t.rest, sx, o - n);
      }
      ReflowTurn(rows, sx);
      hide Reflow, StopsBefore, Done;
      BelowLater(t, t.rest, Reflow(t.rest, sx), o, k);
      LaterTwice(rows, Done(t, t.rest), Reflow(rows, sx), o, Before(t.stop, n, o), k);
      StopsNext(rows, sx, o);
    }
  }

  lemma StopsNext(rows: seq<Row>, sx: nat, o: nat)
    requires rows != []
    ensures var t := Turned(rows, sx);
            var n := |Concat(t.first)| + |t.row.cells|;
            StopsBefore(rows, sx, o)
            == Before(t.stop, n, o) + if o < n then 0 else StopsBefore(t.rest, sx, o - n)
  {
  }

  lemma BelowLater(t: Turn, a: seq<Row>, b: seq<Row>, o: nat, k: nat)
    requires var n := |Concat(t.first)| + |t.row.cells|; if o < n then k == 0 else Later(a, b, o - n, k)
    ensures Later(Done(t, a), Done(t, b), o, k)
  {
    hide Later;
    TurnFlat(t);
    LaterAfter(Wrapped(t.first, true) + [t.row], a, b, o, k);
    Assoc(Wrapped(t.first, true), [t.row], a);
    Assoc(Wrapped(t.first, true), [t.row], b);
  }

  lemma TurnFlat(t: Turn)
    ensures Flat(Wrapped(t.first, true) + [t.row]) == Concat(t.first) + t.row.cells
  {
    SplitConserves(t.first, true, [t.row]);
    assert [t.row][1..] == [];
  }

  // ----- Places and positions

  /** The wrapped position of a used cell is that of its place in the text. */
  lemma {:induction false} WrapIsAt(rows: seq<Row>, px: nat, py: nat, ax: nat, ay: nat)
    requires py < |rows| && px < |rows[py].cells|
    ensures var (x, y) := LineAbove(rows, py);
            WrapAt(rows, Offset(rows, px, py), ax, ay) == (if y == 0 then ax + x + px else x + px, ay + y)
    decreases py
  {
    if py > 0 {
      var r, t := rows[0], rows[1..];
      WrapIsAt(t, px, py - 1, if r.wrapped then ax + |r.cells| else 0, if r.wrapped then ay else ay + 1);
      AboveTail(rows, py);
      assert rows[..py][1..] == t[..py - 1];
    } else {
      assert rows[..0] == [];
    }
  }

  lemma {:induction false} AboveTail(rows: seq<Row>, py: nat)
    requires 0 < py <= |rows|
    ensures var (x, y), (sx, sy) := LineAbove(rows, py), LineAbove(rows[1..], py - 1);
            if rows[0].wrapped then y == sy && x == (if sy == 0 then |rows[0].cells| + sx else sx)
            else y == sy + 1 && x == sx
  {
    if py > 1 {
      AboveTail(rows, py - 1);
      assert rows[1..][py - 2] == rows[py - 1];
    } else {
      assert LineAbove(rows, 0) == (0, 0);
    }
  }

  lemma {:induction false} WrapAtShape(a: seq<Row>, b: seq<Row>, more: seq<Row>, o: nat, ax: nat, ay: nat)
    requires SameShape(a, b) && o < |Flat(a)|
    ensures WrapAt(b + more, o, ax, ay) == WrapAt(a, o, ax, ay)
  {
    if a != [] {
      var r, n := b[0], |b[0].cells|;
      assert b + more == [r] + (b[1..] + more);
      WrapAtCons(r, b[1..] + more, o, ax, ay);
      if o >= n {
        assert SameShape(a[1..], b[1..]);
        WrapAtShape(a[1..], b[1..], more, o - n, if r.wrapped then ax + n else 0, if r.wrapped then ay else ay + 1);
      }
    }
  }

  lemma {:induction false} PlaceOf(rows: seq<Row>, o: nat) returns (x: nat, y: nat)
    requires o < |Flat(rows)|
    ensures y < |rows| && x < |rows[y].cells| && Offset(rows, x, y) == o
  {
    var n := |rows[0].cells|;
    if o < n {
      x, y := o, 0;
      assert rows[..0] == [];
    } else {
      x, y := PlaceOf(rows[1..], o - n);
      assert rows[..y + 1][1..] == rows[1..][..y];
      y := y + 1;
    }
  }

  /** The first loop finds the line if there is one of that number. */
  lemma {:induction false} SeekLine(rows: seq<Row>, wy: nat, yy: nat, ay: nat)
    requires yy < |rows| && ay == LineAbove(rows, yy).1 <= wy <= LineAbove(rows, |rows| - 1).1
    ensures LineAbove(rows, Seek(rows, wy, yy, ay)).1 == wy
    decreases |rows| - yy
  {
    if yy < |rows| - 1 && ay != wy {
      SeekLine(rows, wy, yy + 1, LineAbove(rows, yy + 1).1);
    }
  }

  lemma {:induction false} WalkLine(rows: seq<Row>, wx: nat, yy: nat)
    requires yy <= |rows| && Walk(rows, wx, yy).At?
    ensures LineAbove(rows, Walk(rows, wx, yy).y).1 == LineAbove(rows, yy).1
    decreases |rows| - yy
  {
    if rows[yy].wrapped && wx >= |rows[yy].cells| {
      WalkLine(rows, wx - |rows[yy].cells|, yy + 1);
    }
  }

  lemma {:induction false} EndRowLine(rows: seq<Row>, yy: nat)
    requires yy <= |rows|
    ensures LineAbove(rows, EndRow(rows, yy)).1 == LineAbove(rows, yy).1
    decreases |rows| - yy
  {
    if yy < |rows| && rows[yy].wrapped {
      EndRowLine(rows, yy + 1);
    }
  }

  lemma UnwrapLine(rows: seq<Row>, wx: nat, wy: nat)
    requires rows != [] && wy <= LineAbove(rows, |rows| - 1).1 && Unwrap(rows, wx, wy).At?
    ensures LineAbove(rows, Unwrap(rows, wx, wy).y).1 == wy
  {
    SeekLine(rows, wy, 0, 0);
    EndRowLine(rows, Seek(rows, wy, 0, 0));
    if wx != UINT_MAX {
      WalkLine(rows, wx, Seek(rows, wy, 0, 0));
    }
  }

  // ----- The cursor on a used cell

  lemma LaterAt(a: seq<Row>, b: seq<Row>, o: nat, k: nat)
    requires Later(a, b, o, k)
    ensures WrapAt(b, o, 0, 0).1 == WrapAt(a, o, 0, 0).1 + k && (k == 0 ==> WrapAt(b, o, 0, 0) == WrapAt(a, o, 0, 0))
  {
  }

  lemma GridParts(rows: seq<Row>, spares: seq<set<nat>>, sx: nat, sy: nat) returns (more: seq<Row>)
    requires |spares| == |rows|
    ensures KeptGrid(rows, spares, sx, sy) == KeptReflow(rows, spares, sx) + more
  {
    hide KeptReflow;
    var kept := KeptReflow(rows, spares, sx);
    more := if |kept| < sy then Blanks(sy - |kept|) else [];
    assert kept + [] == kept;
  }

  lemma GridShape(rows: seq<Row>, spares: seq<set<nat>>, sx: nat, sy: nat, o: nat)
    requires |spares| == |rows| && o < |Flat(rows)|
    ensures WrapAt(KeptGrid(rows, spares, sx, sy), o, 0, 0) == WrapAt(Reflow(rows, sx), o, 0, 0)
    ensures |Flat(KeptGrid(rows, spares, sx, sy))| == |Flat(rows)|
  {
    hide KeptReflow, KeptGrid, Reflow, Holds, CopiesStand, WrapAt, Flat;
    ReflowConserves(rows, sx);
    KeptReflowIff(rows, spares, sx);
    GridRestored(rows, spares, sx, sy);
    var more := GridParts(rows, spares, sx, sy);
    WrapAtShape(Reflow(rows, sx), KeptReflow(rows, spares, sx), more, o, 0, 0);
  }

  lemma GridLater(rows: seq<Row>, spares: seq<set<nat>>, sx: nat, sy: nat, o: nat)
    requires |spares| == |rows| && o < |Flat(rows)|
    ensures var w, v := WrapAt(rows, o, 0, 0), WrapAt(KeptGrid(rows, spares, sx, sy), o, 0, 0);
            v.1 == w.1 + StopsBefore(rows, sx, o) && (StopsBefore(rows, sx, o) == 0 ==> v == w)
    ensures |Flat(KeptGrid(rows, spares, sx, sy))| == |Flat(rows)|
  {
    hide KeptGrid, Reflow, StopsBefore, Later, WrapAt;
    ReflowLater(rows, sx, o);
    LaterAt(rows, Reflow(rows, sx), o, StopsBefore(rows, sx, o));
    GridShape(rows, spares, sx, sy, o);
  }

  /** The place a cursor on a used cell is taken to. */
  ghost predicate OnPlace(after: seq<Row>, p: Place, o: nat) {
    p.At? && p.y < |after| && p.x < |after[p.y].cells| && Offset(after, p.x, p.y) == o
  }

  lemma OnPlaceIff(after: seq<Row>, o: nat, wx: nat, wy: nat, k: nat)
    requires o < |Flat(after)| < UINT_MAX && WrapAt(after, o, 0, 0).1 == wy + k
    requires k == 0 ==> WrapAt(after, o, 0, 0) == (wx, wy)
    ensures after != [] && (OnPlace(after, Unwrap(after, wx, wy), o) <==> k == 0)
  {
    hide WrapAt, LineAbove, Flat, Unwrap;
    var x, y := PlaceOf(after, o);
    WrapIsAt(after, x, y, 0, 0);
    WrapUnwrap(after, x, y);
    var p := Unwrap(after, wx, wy);
    if OnPlace(after, p, o) {
      OffsetInjective(after, x, y, p.x, p.y);
      LineMonotone(after, y, |after| - 1);
      UnwrapLine(after, wx, wy);
    }
  }

  /** For any rows, any width and any height: a cursor on a used cell is on that cell after a
      reflow, as it was or stored again, exactly when no join ends a line before it. */
  lemma PositionSurvivesIff(rows: seq<Row>, spares: seq<set<nat>>, px: nat, py: nat, sx: nat, sy: nat)
    requires |spares| == |rows| && |Flat(rows)| < UINT_MAX
    requires py < |rows| && px < |rows[py].cells|
    ensures var after, o := KeptGrid(rows, spares, sx, sy), Offset(rows, px, py);
            var (wx, wy) := Wrap(rows, px, py);
            after != [] && (OnPlace(after, Unwrap(after, wx, wy), o) <==> StopsBefore(rows, sx, o) == 0)
  {
    hide KeptGrid, StopsBefore, WrapAt, OnPlace, Flat;
    var o := Offset(rows, px, py);
    var (wx, wy) := Wrap(rows, px, py);
    FlatAt(rows, px, py);
    GridLater(rows, spares, sx, sy, o);
    WrapIsAt(rows, px, py, 0, 0);
    OnPlaceIff(KeptGrid(rows, spares, sx, sy), o, wx, wy, StopsBefore(rows, sx, o));
  }

  lemma CellAt(rows: seq<Row>, spares: seq<set<nat>>, px: nat, py: nat, sx: nat, sy: nat, p: Place)
    requires |spares| == |rows| && py < |rows| && px < |rows[py].cells|
    requires OnPlace(KeptGrid(rows, spares, sx, sy), p, Offset(rows, px, py))
    ensures var c := rows[py].cells[px];
            KeptGrid(rows, spares, sx, sy)[p.y].cells[p.x] in {c, Copied(c, true), Copied(c, false)}
  {
    hide KeptGrid, Copied;
    FlatAt(rows, px, py);
    FlatAt(KeptGrid(rows, spares, sx, sy), p.x, p.y);
    GridRestored(rows, spares, sx, sy);
  }

  // ----- Lines are reflowed one by one

  /** A join never takes from below the end of its line. */
  lemma {:induction false} ScanApart(a: seq<Row>, b: seq<Row>, sx: nat, s: Scan)
    requires Reached(a, s) && s.lines < |a| && Ended(a)
    ensures ScanRows(a + b, sx, s) == ScanRows(a, sx, s) && Reached(a, ScanRows(a, sx, s))
    ensures ScanRows(a, sx, s).lines == |a| ==> ScanRows(a, sx, s).from == |a| - 1
    decreases |a| - s.lines
  {
    hide Fit, Width;
    var r := a[s.lines];
    assert (a + b)[s.lines] == r;
    var wrapped := s.wrapped && r.wrapped;
    if r.cells == [] {
      if wrapped {
        ScanApart(a, b, sx, s.(lines := s.lines + 1));
      }
    } else {
      var n := Fit(r.cells, Width(s.cells), sx);
      var t := Scan(s.cells + r.cells[..n], s.lines + 1, s.lines, n, wrapped);
      if n > 0 && wrapped && n == |r.cells| && Width(t.cells) != sx {
        ScanApart(a, b, sx, t);
      }
    }
  }

  /** Rows whose last ends a line, or none. */
  predicate Whole(rows: seq<Row>) {
    rows == [] || Ended(rows)
  }

  lemma JoinApart(cur: seq<Cell>, a: seq<Row>, b: seq<Row>, sx: nat)
    requires Ended(a)
    ensures var j := Join(cur, a, sx);
            Join(cur, a + b, sx) == Joined(j.row, j.rest + b) && StopOf(cur, a + b, sx) == StopOf(cur, a, sx) && Whole(j.rest)
  {
    hide ScanRows;
    ScanApart(a, b, sx, Start(cur));
    ScanReached(a + b, sx, Start(cur));
    var t := ScanRows(a, sx, Start(cur));
    FinishApart(cur, a, b, t);
  }

  lemma SliceApart(a: seq<Row>, b: seq<Row>, i: nat)
    requires i <= |a| && Ended(a)
    ensures (a + b)[i..] == a[i..] + b && Whole(a[i..]) && (i < |a| ==> (a + b)[i] == a[i])
  {
  }

  lemma FinishApart(cur: seq<Cell>, a: seq<Row>, b: seq<Row>, t: Scan)
    requires Reached(a, t) && Reached(a + b, t) && Ended(a) && (t.lines == |a| ==> t.from == |a| - 1)
    ensures var j := Finish(cur, a, t); Finish(cur, a + b, t) == Joined(j.row, j.rest + b) && Whole(j.rest)
    ensures StopAt(a + b, t) == StopAt(a, t)
  {
    SliceApart(a, b, t.lines);
    if t.from >= 0 {
      SliceApart(a, b, t.from);
      SliceApart(a, b, t.from + 1);
      var left := [a[t.from].(cells := a[t.from].cells[t.want..])];
      Assoc(left, a[t.from + 1..], b);
      WholeCut(a, t.from, left[0]);
    }
  }

  lemma WholeCut(a: seq<Row>, i: nat, r: Row)
    requires i < |a| && Ended(a) && r.wrapped == a[i].wrapped
    ensures Whole([r] + a[i + 1..])
  {
  }

  lemma TurnApart(a: seq<Row>, b: seq<Row>, sx: nat)
    requires Ended(a)
    ensures Turned(a + b, sx) == Turned(a, sx).(rest := Turned(a, sx).rest + b) && Whole(Turned(a, sx).rest)
  {
    hide Join, StopOf, First, Last;
    assert (a + b)[0] == a[0] && (a + b)[1..] == a[1..] + b;
    if a[0].wrapped {
      JoinApart(Last(a[0].cells, sx), a[1..], b, sx);
    }
  }

  /** What is below the end of a line changes nothing above it, and the other way round. */
  lemma {:induction false} ReflowConcat(a: seq<Row>, b: seq<Row>, sx: nat)
    requires Whole(a)
    ensures Reflow(a + b, sx) == Reflow(a, sx) + Reflow(b, sx)
    ensures forall stop :: Stops(a + b, sx, stop) == Stops(a, sx, stop) + Stops(b, sx, stop)
    decreases |a|
  {
    hide Turned, Done;
    if a == [] {
      assert a + b == b;
    } else {
      var t := Turned(a, sx);
      TurnApart(a, b, sx);
      ReflowTurn(a, sx);
      ReflowTurn(a + b, sx);
      ReflowConcat(t.rest, b, sx);
      DoneConcat(t, Reflow(t.rest, sx), Reflow(b, sx));
    }
  }

  lemma DoneConcat(t: Turn, a: seq<Row>, b: seq<Row>)
    ensures forall r :: Done(t.(rest := r), a + b) == Done(t, a) + b
  {
    Assoc([t.row], a, b);
    Assoc(Wrapped(t.first, true), [t.row] + a, b);
  }

  // ----- The cursor past the used cells of its row

  lemma {:induction false} GlueCount(rows: seq<Row>)
    ensures |Glue(rows)| == LineAbove(rows, |rows|).1 + if Whole(rows) then 0 else 1
  {
    if rows != [] {
      GlueCount(rows[1..]);
      AboveTail(rows, |rows|);
    }
  }

  /** A pass makes a line more for each stop. */
  lemma LinesAdded(rows: seq<Row>, sx: nat)
    ensures var after := Reflow(rows, sx);
            && LineAbove(after, |after|).1
               == LineAbove(rows, |rows|).1 + Stops(rows, sx, AtBlank) + Stops(rows, sx, AtWide)
            && (Whole(after) <==> Whole(rows)) && (after == [] <==> rows == [])
  {
    hide LineAbove, Reflow, Stops;
    ReflowKeepsLinesIff(rows, sx);
    ReflowBreaks(rows, sx);
    GlueCount(rows);
    GlueCount(Reflow(rows, sx));
    GlueNone(rows);
    GlueNone(Reflow(rows, sx));
  }

  /** One row ends the line of a number. */
  lemma {:induction false} OneEnd(rows: seq<Row>, y: nat, e: nat)
    requires y < |rows| && e < |rows| && !rows[y].wrapped && !rows[e].wrapped
    requires LineAbove(rows, y).1 == LineAbove(rows, e).1
    ensures y == e
  {
    if e < y {
      LineMonotone(rows, e + 1, y);
    } else if e > y {
      LineMonotone(rows, y + 1, e);
    }
  }

  lemma {:induction false} AboveEnd(rows: seq<Row>, s: nat, y: nat)
    requires y < |rows| && s < |rows| && !rows[y].wrapped && LineAbove(rows, s).1 <= LineAbove(rows, y).1
    ensures s <= y
  {
    if s > y {
      LineMonotone(rows, y + 1, s);
    }
  }

  lemma {:induction false} EndIs(rows: seq<Row>, y: nat, wy: nat, k: nat)
    requires y < |rows| && !rows[y].wrapped && LineAbove(rows, y).1 == wy + k
    ensures Unwrap(rows, UINT_MAX, wy) == At(|rows[y].cells|, y) <==> k == 0
  {
    hide LineAbove, Seek, EndRow;
    LineMonotone(rows, y, |rows| - 1);
    FirstLine(rows);
    SeekLine(rows, wy, 0, 0);
    var s := Seek(rows, wy, 0, 0);
    AboveEnd(rows, s, y);
    EndRowInside(rows, s);
    EndRowLine(rows, s);
    if k == 0 {
      OneEnd(rows, y, EndRow(rows, s));
    }
  }

  lemma FirstLine(rows: seq<Row>)
    ensures LineAbove(rows, 0) == (0, 0)
  {
  }

  lemma {:induction false} EndOutside(rows: seq<Row>, wy: nat, k: nat)
    requires rows != [] && rows[|rows| - 1].wrapped && LineAbove(rows, |rows|).1 == wy + k
    ensures Unwrap(rows, UINT_MAX, wy) == Outside <==> k == 0
  {
    var s := Seek(rows, wy, 0, 0);
    SeekLine(rows, wy, 0, 0);
    var e := EndRow(rows, s);
    EndRowLine(rows, s);
    if e < |rows| {
      LineMonotone(rows, e + 1, |rows|);
    }
  }

  lemma {:induction false} LineAboveShape(a: seq<Row>, b: seq<Row>, n: nat)
    requires n <= |a| && n <= |b| && SameShape(a[..n], b[..n])
    ensures LineAbove(a, n) == LineAbove(b, n)
  {
    if n > 0 {
      assert a[..n][n - 1] == a[n - 1] && b[..n][n - 1] == b[n - 1];
      assert a[..n][..n - 1] == a[..n - 1] && b[..n][..n - 1] == b[..n - 1];
      assert SameShape(a[..n - 1], b[..n - 1]);
      LineAboveShape(a, b, n - 1);
    }
  }

  /** The rows down to the end of the line that row `py` is on. */
  function DownTo(rows: seq<Row>, py: nat): (r: seq<Row>)
    requires py < |rows|
    ensures r <= rows
  {
    var e := EndRow(rows, py);
    if e < |rows| then rows[..e + 1] else rows
  }

  lemma DownToLine(rows: seq<Row>, py: nat)
    requires py < |rows|
    ensures var a := DownTo(rows, py);
            && a != [] && rows == a + rows[|a|..] && (Whole(a) <==> LineEnd(rows, py).At?) && (!Whole(a) ==> a == rows)
            && LineAbove(a, |a|).1 == LineAbove(rows, py).1 + if Whole(a) then 1 else 0
  {
    var a, e := DownTo(rows, py), EndRow(rows, py);
    EndRowLine(rows, py);
    if e < |rows| {
      assert a[..e] == rows[..e];
      LineAboveShape(a, rows, e);
    } else {
      EndRowInside(rows, py);
      assert rows[|rows| - 1].wrapped;
    }
  }

  /** Where such a cursor goes: to the end of the last row that its line and those above it
      become, or to the blank row below if the grid's last row goes on. */
  function EndPlace(after: seq<Row>, n: nat, inside: bool): Place {
    if inside && 0 < n <= |after| then At(|after[n - 1].cells|, n - 1)
    else if n < |after| then At(0, n)
    else Outside
  }

  lemma ReflowDownTo(rows: seq<Row>, py: nat, sx: nat)
    requires py < |rows|
    ensures var a := DownTo(rows, py);
            && Reflow(a, sx) <= Reflow(rows, sx) && (!Whole(a) ==> Reflow(a, sx) == Reflow(rows, sx))
            && Reflow(a, sx) != [] && Reflow(a, sx)[|Reflow(a, sx)| - 1].wrapped == !Whole(a)
  {
    hide Reflow, DownTo;
    var a := DownTo(rows, py);
    DownToLine(rows, py);
    LinesAdded(a, sx);
    if Whole(a) {
      ReflowConcat(a, rows[|a|..], sx);
    }
  }

  /** The rows a prefix of a pass becomes, as they are stored. */
  lemma GridPrefix(rows: seq<Row>, spares: seq<set<nat>>, m: seq<Row>, sx: nat, sy: nat)
    requires |spares| == |rows| && m <= Reflow(rows, sx)
    ensures var after := KeptGrid(rows, spares, sx, sy);
            && |m| <= |after| && SameShape(m, after[..|m|])
            && (m == Reflow(rows, sx) && |m| < |after| ==> after[|m|] == BLANK)
  {
    hide Reflow, Holds, CopiesStand;
    KeptReflowIff(rows, spares, sx);
  }

  lemma GridAbove(rows: seq<Row>, spares: seq<set<nat>>, py: nat, sx: nat, sy: nat)
    requires |spares| == |rows| && py < |rows|
    ensures var after, a := KeptGrid(rows, spares, sx, sy), DownTo(rows, py);
            var n := |Reflow(a, sx)|;
            && 0 < n <= |after| && after[n - 1].wrapped == !Whole(a)
            && LineAbove(after, n).1 == LineAbove(a, |a|).1 + Stops(a, sx, AtBlank) + Stops(a, sx, AtWide)
            && (!Whole(a) && n < |after| ==> after[n] == BLANK)
            && |Flat(after[..n])| == |Flat(a)|
  {
    hide KeptGrid, Reflow, LineAbove, DownTo, Stops, Flat;
    var after, a := KeptGrid(rows, spares, sx, sy), DownTo(rows, py);
    var m := Reflow(a, sx);
    ReflowDownTo(rows, py, sx);
    GridPrefix(rows, spares, m, sx, sy);
    LinesAdded(a, sx);
    assert m[..|m|] == m;
    LineAboveShape(m, after, |m|);
    ShapeFlat(m, after[..|m|]);
    ReflowConserves(a, sx);
  }

  lemma {:induction false} ShapeFlat(a: seq<Row>, b: seq<Row>)
    requires SameShape(a, b)
    ensures |Flat(a)| == |Flat(b)|
  {
    if a != [] {
      assert SameShape(a[1..], b[1..]);
      ShapeFlat(a[1..], b[1..]);
    }
  }

  /** For any rows, any width and any height: a cursor past the used cells of its row is, after
      a reflow, at the end of the row that ends the same text exactly when no join ends a line
      too early down to the end of its own; if its line is the last and goes on, it is below
      it, and outside the grid if nothing is. */
  lemma EndSurvivesIff(rows: seq<Row>, spares: seq<set<nat>>, px: nat, py: nat, sx: nat, sy: nat)
    requires |spares| == |rows| && py < |rows| && px >= |rows[py].cells|
    ensures var after, a := KeptGrid(rows, spares, sx, sy), DownTo(rows, py);
            var (wx, wy) := Wrap(rows, px, py);
            var n := |Reflow(a, sx)|;
            && after != [] && n <= |after| && |Flat(after[..n])| == |Flat(a)|
            && (Unwrap(after, wx, wy) == EndPlace(after, n, LineEnd(rows, py).At?)
                <==> Stops(a, sx, AtBlank) == 0 && Stops(a, sx, AtWide) == 0)
  {
    hide KeptGrid, Reflow, LineAbove, Stops, Unwrap, DownTo;
    var after, a := KeptGrid(rows, spares, sx, sy), DownTo(rows, py);
    var (wx, wy) := Wrap(rows, px, py);
    var n, k := |Reflow(a, sx)|, Stops(a, sx, AtBlank) + Stops(a, sx, AtWide);
    GridAbove(rows, spares, py, sx, sy);
    DownToLine(rows, py);
    if Whole(a) {
      AboveNextRow(after, n - 1);
      EndIs(after, n - 1, wy, k);
    } else if n < |after| {
      EndIs(after, n, wy, k);
    } else {
      EndOutside(after, wy, k);
    }
  }

  lemma AboveNextRow(rows: seq<Row>, y: nat)
    requires y < |rows|
    ensures LineAbove(rows, y + 1).1 == LineAbove(rows, y).1 + if rows[y].wrapped then 0 else 1
  {
  }
}

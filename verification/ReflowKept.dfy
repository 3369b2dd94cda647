/** What a reflow stores: a row it moves keeps its cells as they are, a cell it copies is
    stored again; what that means for the cells, their widths and further reflows (grid.c). */
module ReflowKept {
  import opened GridCells
  import opened ReflowRows
  import opened ReflowLines
  import opened ReflowTurns
  import opened ReflowFill

  /** How a row of the result came to hold its cells: the first `keep` were on it already, the
      others were copied to it, onto positions of which those in `spare` had slots. */
  datatype Hold = Hold(keep: nat, spare: set<nat>)

  const NEW := Hold(0, {})

  /** A used cell after grid_set_cell stores it on another row. */
  function Copied(c: Cell, slot: bool): Cell {
    Kept(c, slot || NeedExtended(CLEARED_ENTRY, c))
  }

  function KeptCells(cs: seq<Cell>, h: Hold): (r: seq<Cell>)
    ensures |r| == |cs|
  {
    seq(|cs|, k requires 0 <= k < |cs| => if k < h.keep then cs[k] else Copied(cs[k], k in h.spare))
  }

  function KeptRow(r: Row, h: Hold): Row {
    r.(cells := KeptCells(r.cells, h))
  }

  function KeptRows(rows: seq<Row>, holds: seq<Hold>): (r: seq<Row>)
    requires |holds| == |rows|
    ensures |r| == |rows|
  {
    seq(|rows|, i requires 0 <= i < |rows| => KeptRow(rows[i], holds[i]))
  }

  // ----- Which rows of a pass hold what

  /** The row a turn ends on: new if it is the last piece of a split, else a row moved across. */
  function RowHold(r: Row, spare: set<nat>, sx: nat): Hold {
    if Width(r.cells) > sx then NEW else Hold(|r.cells|, spare)
  }

  /** The first piece of a split stays on its row. */
  function FirstHolds(first: seq<seq<Cell>>): (h: seq<Hold>)
    ensures |h| == |first|
  {
    seq(|first|, i requires 0 <= i < |first| => if i == 0 then Hold(|first[0]|, {}) else NEW)
  }

  /** The slots past the used cells of the rows left to process; a row cut short has none. */
  function SparesLeft(rows: seq<Row>, spares: seq<set<nat>>, rest: seq<Row>): (s: seq<set<nat>>)
    requires |spares| == |rows| >= |rest|
    ensures |s| == |rest|
  {
    var n := |rows| - |rest|;
    if rest != [] && rest[0] != rows[n] then [{}] + spares[n + 1..] else spares[n..]
  }

  /** The pass row by row, given the slots past the used cells of each row. */
  function Holds(rows: seq<Row>, spares: seq<set<nat>>, sx: nat): (h: seq<Hold>)
    requires |spares| == |rows|
    ensures |h| == |Reflow(rows, sx)|
    decreases |rows|
  {
    if rows == [] then []
    else
      var t := Turned(rows, sx);
      ReflowTurn(rows, sx);
      FirstHolds(t.first) + ([RowHold(rows[0], spares[0], sx)] + Holds(t.rest, SparesLeft(rows, spares, t.rest), sx))
  }

  /** The rows grid_reflow leaves, before the target is padded to the height of the screen. */
  function KeptReflow(rows: seq<Row>, spares: seq<set<nat>>, sx: nat): (r: seq<Row>)
    requires |spares| == |rows|
    ensures |r| == |Reflow(rows, sx)|
  {
    KeptRows(Reflow(rows, sx), Holds(rows, spares, sx))
  }

  function KeptGrid(rows: seq<Row>, spares: seq<set<nat>>, sx: nat, sy: nat): (r: seq<Row>)
    requires |spares| == |rows|
    ensures |r| == |ReflowGrid(rows, sx, sy)|
  {
    var r := KeptReflow(rows, spares, sx);
    if |r| < sy then r + Blanks(sy - |r|) else r
  }

  lemma KeptConcat(a: seq<Row>, b: seq<Row>, ha: seq<Hold>, hb: seq<Hold>)
    requires |a| == |ha| && |b| == |hb|
    ensures KeptRows(a + b, ha + hb) == KeptRows(a, ha) + KeptRows(b, hb)
  {
  }

  /** One turn's rows. */
  function KeptTurn(t: Turn, r: Row, spare: set<nat>, sx: nat): seq<Row> {
    KeptRows(Wrapped(t.first, true), FirstHolds(t.first)) + [KeptRow(t.row, RowHold(r, spare, sx))]
  }

  lemma KeptReflowTurn(rows: seq<Row>, spares: seq<set<nat>>, sx: nat)
    requires rows != [] && |spares| == |rows|
    ensures var t := Turned(rows, sx);
            KeptReflow(rows, spares, sx)
            == KeptTurn(t, rows[0], spares[0], sx) + KeptReflow(t.rest, SparesLeft(rows, spares, t.rest), sx)
  {
    var t := Turned(rows, sx);
    var left := SparesLeft(rows, spares, t.rest);
    var below, hb := Reflow(t.rest, sx), Holds(t.rest, left, sx);
    var h := RowHold(rows[0], spares[0], sx);
    ReflowTurn(rows, sx);
    hide Turned, Reflow, FirstHolds, RowHold;
    KeptConcat(Wrapped(t.first, true), [t.row] + below, FirstHolds(t.first), [h] + hb);
    KeptConcat([t.row], below, [h], hb);
    assert KeptRows([t.row], [h]) == [KeptRow(t.row, h)];
    Assoc(KeptRows(Wrapped(t.first, true), FirstHolds(t.first)), [KeptRow(t.row, h)], KeptRows(below, hb));
  }

  // ----- The scroll position

  /** A split moves it down by the rows it adds, if its row is not below it. */
  function SplitScrolled(h: nat, yy: nat, more: nat): nat {
    if yy <= h then h + more else h
  }

  /** A join onto row `to` moves it up by the rows it used up, or to the row they went to. */
  function JoinScrolled(h: nat, to: nat, gone: nat): nat {
    if h > to + gone then h - gone else if h > to then to else h
  }

  /** The scroll position after a pass over the last of `end` rows, `to` rows being made. */
  function ScrollPass(rows: seq<Row>, sx: nat, h: nat, to: nat, end: nat): nat
    requires |rows| <= end
    decreases |rows|
  {
    if rows == [] then h
    else
      var t := Turned(rows, sx);
      var at := SplitScrolled(h, end - |rows|, |t.first|);
      ScrollPass(t.rest, sx, JoinScrolled(at, to + |t.first|, |rows| - 1 - |t.rest|), to + |t.first| + 1, end)
  }

  lemma ScrollOnce(h: nat, yy: nat, more: nat, to: nat, n: nat, left: nat)
    requires h <= to + n && left < n
    ensures JoinScrolled(SplitScrolled(h, yy, more), to + more, n - 1 - left) <= to + more + 1 + left
  {
  }

  lemma TurnCount(rows: seq<Row>, sx: nat)
    requires rows != []
    ensures |Reflow(rows, sx)| == |Turned(rows, sx).first| + 1 + |Reflow(Turned(rows, sx).rest, sx)|
  {
    hide Turned, Reflow;
    ReflowTurn(rows, sx);
  }

  /** It stays within the rows there are. */
  lemma {:induction false} ScrollWithin(rows: seq<Row>, sx: nat, h: nat, to: nat, end: nat)
    requires |rows| <= end && h <= to + |rows|
    ensures ScrollPass(rows, sx, h, to, end) <= to + |Reflow(rows, sx)|
    decreases |rows|
  {
    hide Turned, Reflow, ScrollPass;
    if rows == [] {
      ScrollNone(sx, h, to, end);
    } else {
      var t := Turned(rows, sx);
      var gone := |rows| - 1 - |t.rest|;
      TurnCount(rows, sx);
      ScrollNext(rows, sx, h, to, end);
      ScrollOnce(h, end - |rows|, |t.first|, to, |rows|, |t.rest|);
      ScrollWithin(t.rest, sx, JoinScrolled(SplitScrolled(h, end - |rows|, |t.first|), to + |t.first|, gone),
                   to + |t.first| + 1, end);
    }
  }

  lemma ScrollNone(sx: nat, h: nat, to: nat, end: nat)
    ensures ScrollPass([], sx, h, to, end) == h
  {
  }

  lemma ScrollNext(rows: seq<Row>, sx: nat, h: nat, to: nat, end: nat)
    requires rows != [] && |rows| <= end
    ensures var t := Turned(rows, sx);
            var at := SplitScrolled(h, end - |rows|, |t.first|);
            ScrollPass(rows, sx, h, to, end)
            == ScrollPass(t.rest, sx, JoinScrolled(at, to + |t.first|, |rows| - 1 - |t.rest|), to + |t.first| + 1, end)
  {
    hide Turned, SplitScrolled, JoinScrolled;
  }

  /** Rows below it leave it where it is. */
  lemma {:induction false} ScrollAbove(rows: seq<Row>, sx: nat, h: nat, to: nat, end: nat)
    requires |rows| <= end && h < end - |rows| && h <= to
    ensures ScrollPass(rows, sx, h, to, end) == h
    decreases |rows|
  {
    hide Turned, ScrollPass;
    if rows == [] {
      ScrollNone(sx, h, to, end);
    } else {
      var t := Turned(rows, sx);
      ScrollNext(rows, sx, h, to, end);
      ScrollAbove(t.rest, sx, h, to + |t.first| + 1, end);
    }
  }

  /** Every row fits, so nothing is split; or no row goes on, so nothing is joined. */
  predicate OneWay(rows: seq<Row>, sx: nat, joins: bool) {
    if joins then AllFit(rows, sx) else forall i :: 0 <= i < |rows| ==> !rows[i].wrapped
  }

  lemma TurnOneWay(rows: seq<Row>, sx: nat, joins: bool)
    requires rows != [] && OneWay(rows, sx, joins)
    ensures var t := Turned(rows, sx); OneWay(t.rest, sx, joins) && if joins then t.first == [] else t.rest == rows[1..]
  {
    assert rows[0] in rows;
    if joins && rows[0].wrapped && Width(rows[0].cells) < sx {
      JoinFitsRest(rows[0].cells, rows[1..], sx);
    }
  }

  /** What a join leaves below fits as it did. */
  lemma JoinFitsRest(cur: seq<Cell>, rest: seq<Row>, sx: nat)
    requires AllFit(rest, sx)
    ensures AllFit(Join(cur, rest, sx).rest, sx)
  {
    ScanReached(rest, sx, Start(cur));
    var t, j := ScanRows(rest, sx, Start(cur)), Join(cur, rest, sx);
    forall r | r in j.rest
      ensures Width(r.cells) <= sx
    {
      if r !in rest {
        var last := rest[t.from];
        assert last in rest && last.cells == last.cells[..t.want] + last.cells[t.want..];
        WidthConcat(last.cells[..t.want], last.cells[t.want..]);
      }
    }
  }

  /** Where all rows are above it, it moves down by the rows that splits add, or up by the rows
      that joins use up: it stays as far from the end. */
  lemma {:induction false} ScrollKeepsEnd(rows: seq<Row>, sx: nat, h: nat, to: nat, end: nat, joins: bool)
    requires |rows| <= end && to + |rows| <= h && OneWay(rows, sx, joins) && (joins || end - |rows| <= to)
    ensures ScrollPass(rows, sx, h, to, end) == h + |Reflow(rows, sx)| - |rows|
    decreases |rows|
  {
    hide Turned, ScrollPass, Reflow, OneWay;
    if rows == [] {
      ScrollNone(sx, h, to, end);
      ReflowNothing(sx);
    } else {
      var t := Turned(rows, sx);
      TurnOneWay(rows, sx, joins);
      TurnCount(rows, sx);
      ScrollNext(rows, sx, h, to, end);
      var s := JoinScrolled(SplitScrolled(h, end - |rows|, |t.first|), to + |t.first|, |rows| - 1 - |t.rest|);
      assert s == h + |t.first| - (|rows| - 1 - |t.rest|);
      ScrollKeepsEnd(t.rest, sx, s, to + |t.first| + 1, end, joins);
    }
  }

  // ----- Which cells come through

  /** A copied cell reads back as it was. */
  predicate Stands(c: Cell, slot: bool) {
    !c.flags.cleared && if slot then c.flags.tab ==> SetTab(c, c.data.width) == c else Storable(c)
  }

  lemma CopiedIff(c: Cell, slot: bool)
    ensures Copied(c, slot) == c <==> Stands(c, slot)
  {
    KeptIsExact(if slot then Extended(0, NO_FLAGS) else CLEARED_ENTRY, c);
  }

  /** Storing a changed cell once more does not bring it back. */
  lemma CopiedTwice(c: Cell, slot: bool, again: bool)
    ensures Copied(Copied(c, slot), again) == c ==> Copied(c, slot) == c
  {
  }

  /** Every cell that is copied reads back as it was. */
  predicate CopiesStand(rows: seq<Row>, holds: seq<Hold>)
    requires |holds| == |rows|
  {
    forall i, k :: 0 <= i < |rows| && holds[i].keep <= k < |rows[i].cells| ==> Stands(rows[i].cells[k], k in holds[i].spare)
  }

  lemma KeptRowsIff(rows: seq<Row>, holds: seq<Hold>)
    requires |holds| == |rows|
    ensures KeptRows(rows, holds) == rows <==> CopiesStand(rows, holds)
  {
    var kept := KeptRows(rows, holds);
    forall i, k | 0 <= i < |rows| && 0 <= k < |rows[i].cells|
      ensures kept[i].cells[k] == rows[i].cells[k] <==> k < holds[i].keep || Stands(rows[i].cells[k], k in holds[i].spare)
    {
      CopiedIff(rows[i].cells[k], k in holds[i].spare);
    }
    if CopiesStand(rows, holds) {
      forall i | 0 <= i < |rows|
        ensures kept[i] == rows[i]
      {
        assert kept[i].cells == rows[i].cells;
      }
    }
  }

  /** Rows of the same lengths and wraps. */
  predicate SameShape(a: seq<Row>, b: seq<Row>) {
    |a| == |b| && forall i :: 0 <= i < |a| ==> |a[i].cells| == |b[i].cells| && a[i].wrapped == b[i].wrapped
  }

  lemma {:induction false} ShapeAndText(a: seq<Row>, b: seq<Row>)
    requires SameShape(a, b) && Flat(a) == Flat(b)
    ensures a == b
  {
    if a != [] {
      var n := |a[0].cells|;
      assert Flat(a) == a[0].cells + Flat(a[1..]) && Flat(b) == b[0].cells + Flat(b[1..]);
      assert Flat(a)[..n] == a[0].cells && Flat(a)[n..] == Flat(a[1..]);
      assert Flat(b)[..n] == b[0].cells && Flat(b)[n..] == Flat(b[1..]);
      assert SameShape(a[1..], b[1..]);
      ShapeAndText(a[1..], b[1..]);
    }
  }

  /** Whatever is copied, rows are cut and wrapped as on values; and they are those rows, with
      no cell of the grid changed, exactly when every copied cell reads back as it was. */
  lemma KeptReflowIff(rows: seq<Row>, spares: seq<set<nat>>, sx: nat)
    requires |spares| == |rows|
    ensures var kept, stand := KeptReflow(rows, spares, sx), CopiesStand(Reflow(rows, sx), Holds(rows, spares, sx));
            && SameShape(kept, Reflow(rows, sx))
            && (kept == Reflow(rows, sx) <==> stand) && (Flat(kept) == Flat(rows) <==> stand)
  {
    var kept := KeptReflow(rows, spares, sx);
    KeptRowsIff(Reflow(rows, sx), Holds(rows, spares, sx));
    ReflowConserves(rows, sx);
    if Flat(kept) == Flat(rows) {
      ShapeAndText(kept, Reflow(rows, sx));
    }
  }

  /** What may be asked of a grid before a reflow: no cell depends on its slot. */
  predicate AllStorable(rows: seq<Row>) {
    forall r :: r in rows ==> forall c :: c in r.cells ==> Stands(c, false)
  }

  lemma StorableFlat(a: seq<Row>, b: seq<Row>)
    requires AllStorable(a) && Flat(a) == Flat(b)
    ensures AllStorable(b)
  {
    forall r, c | r in b && c in r.cells
      ensures Stands(c, false)
    {
      FlatHas(b, c);
      FlatHas(a, c);
    }
  }

  /** It is enough, at every width and whatever slots there are. */
  lemma StorableStand(rows: seq<Row>, spares: seq<set<nat>>, sx: nat, sy: nat)
    requires |spares| == |rows| && AllStorable(rows)
    ensures CopiesStand(Reflow(rows, sx), Holds(rows, spares, sx))
    ensures KeptReflow(rows, spares, sx) == Reflow(rows, sx) && KeptGrid(rows, spares, sx, sy) == ReflowGrid(rows, sx, sy)
    ensures AllStorable(ReflowGrid(rows, sx, sy))
  {
    hide Stands, Holds;
    var after := Reflow(rows, sx);
    ReflowConserves(rows, sx);
    StorableFlat(rows, after);
    forall i, k | 0 <= i < |after| && 0 <= k < |after[i].cells|
      ensures Stands(after[i].cells[k], true) && Stands(after[i].cells[k], false)
    {
      assert after[i] in after && after[i].cells[k] in after[i].cells;
      StandsAnyway(after[i].cells[k]);
    }
    KeptReflowIff(rows, spares, sx);
    ReflowGridConserves(rows, sx, sy);
    StorableFlat(rows, ReflowGrid(rows, sx, sy));
  }

  lemma StandsAnyway(c: Cell)
    requires Stands(c, false)
    ensures Stands(c, true)
  {
  }

  // ----- Widths: a cell of no column that is stored without a slot takes one

  /** A cell that takes a column only once it is copied. */
  predicate Widens(c: Cell, slot: bool) {
    !slot && !NeedExtended(CLEARED_ENTRY, c) && c.data.width == 0
  }

  function Widened(cs: seq<Cell>, h: Hold): nat {
    if cs == [] then 0
    else
      var n := |cs| - 1;
      Widened(cs[..n], h) + if n >= h.keep && Widens(cs[n], n in h.spare) then 1 else 0
  }

  lemma {:induction false} KeptWidth(cs: seq<Cell>, h: Hold)
    ensures Width(KeptCells(cs, h)) == Width(cs) + Widened(cs, h)
  {
    if cs != [] {
      var n := |cs| - 1;
      KeptWidth(cs[..n], h);
      assert KeptCells(cs, h)[..n] == KeptCells(cs[..n], h);
    }
  }

  /** Every row of the result fits exactly when it does with a column for each of its cells
      that only takes one by being copied; if there are none, exactly when every cell fits. */
  lemma KeptFitsIff(rows: seq<Row>, spares: seq<set<nat>>, sx: nat)
    requires |spares| == |rows|
    ensures var after, holds := Reflow(rows, sx), Holds(rows, spares, sx);
            && (AllFit(KeptReflow(rows, spares, sx), sx)
                <==> forall i :: 0 <= i < |after| ==> Width(after[i].cells) + Widened(after[i].cells, holds[i]) <= sx)
            && (AllFit(KeptReflow(rows, spares, sx), sx) ==> AllNarrow(rows, sx))
            && ((forall i :: 0 <= i < |after| ==> Widened(after[i].cells, holds[i]) == 0)
                ==> (AllFit(KeptReflow(rows, spares, sx), sx) <==> AllNarrow(rows, sx)))
  {
    var after, holds, kept := Reflow(rows, sx), Holds(rows, spares, sx), KeptReflow(rows, spares, sx);
    hide Reflow, Holds, Width, Widened, AllNarrow;
    forall i | 0 <= i < |after|
      ensures kept[i] in kept && after[i] in after
      ensures Width(kept[i].cells) == Width(after[i].cells) + Widened(after[i].cells, holds[i])
    {
      KeptWidth(after[i].cells, holds[i]);
    }
    ReflowFitsIff(rows, sx);
  }

  // ----- Reflowing again

  lemma {:induction false} NoFitWider(a: seq<Row>, b: seq<Row>, width: nat, more: nat, sx: nat)
    requires SameShape(a, b) && width <= more && NoFit(a, width, sx)
    requires forall i :: 0 <= i < |a| && a[i].cells != [] ==> a[i].cells[0].data.width <= b[i].cells[0].data.width
    ensures NoFit(b, more, sx)
  {
    if a != [] && a[0].cells == [] && a[0].wrapped {
      assert SameShape(a[1..], b[1..]);
      NoFitWider(a[1..], b[1..], width, more, sx);
    }
  }

  /** Rows that have settled stay so when cells widen, as long as they fit. */
  lemma {:induction false} SettledWider(a: seq<Row>, b: seq<Row>, sx: nat)
    requires SameShape(a, b) && Settled(a, sx, false) && AllFit(b, sx)
    requires forall i :: 0 <= i < |a| && a[i].cells != [] ==> a[i].cells[0].data.width <= b[i].cells[0].data.width
    requires forall i :: 0 <= i < |a| ==> Width(a[i].cells) <= Width(b[i].cells)
    ensures Settled(b, sx, false)
  {
    hide Width;
    if a != [] {
      var s, t := a[1..], b[1..];
      assert SameShape(s, t) && AllFit(t, sx) && b[0] in b;
      assert forall i :: 0 <= i < |s| ==> s[i] == a[i + 1] && t[i] == b[i + 1];
      SettledWider(s, t, sx);
      if b[0].wrapped && Width(b[0].cells) < sx {
        NoFitWider(s, t, Width(a[0].cells), Width(b[0].cells), sx);
      }
    }
  }

  lemma TurnStays(rows: seq<Row>, sx: nat)
    requires rows != [] && Settled(rows, sx, false)
    ensures var t := Turned(rows, sx); t.first == [] && t.row == rows[0] && t.rest == rows[1..]
    ensures Width(rows[0].cells) <= sx && Settled(rows[1..], sx, false)
  {
    var r, rest := rows[0], rows[1..];
    if r.wrapped && Width(r.cells) < sx {
      JoinNothing(r.cells, rest, sx);
    }
  }

  /** In rows that have settled nothing is copied. */
  lemma {:induction false} SettledKept(rows: seq<Row>, spares: seq<set<nat>>, sx: nat)
    requires |spares| == |rows| && Settled(rows, sx, false)
    ensures KeptReflow(rows, spares, sx) == rows
  {
    hide Turned, Settled, Reflow, Holds, Width;
    if rows == [] {
      ReflowNothing(sx);
    } else {
      var r, rest := rows[0], rows[1..];
      TurnStays(rows, sx);
      KeptReflowTurn(rows, spares, sx);
      SettledKept(rest, SparesLeft(rows, spares, rest), sx);
      NoWrapped();
      assert KeptRow(r, Hold(|r.cells|, spares[0])) == r;
    }
  }

  lemma ReflowNothing(sx: nat)
    ensures Reflow([], sx) == []
  {
  }

  lemma RowWider(r: Row, h: Hold)
    ensures var kept := KeptRow(r, h);
            && |kept.cells| == |r.cells| && kept.wrapped == r.wrapped && Width(r.cells) <= Width(kept.cells)
            && (r.cells != [] ==> r.cells[0].data.width <= kept.cells[0].data.width)
  {
    KeptWidth(r.cells, h);
  }

  lemma KeptWider(rows: seq<Row>, spares: seq<set<nat>>, sx: nat)
    requires |spares| == |rows|
    ensures var after, kept := Reflow(rows, sx), KeptReflow(rows, spares, sx);
            SameShape(after, kept)
            && (forall i :: 0 <= i < |after| ==> Width(after[i].cells) <= Width(kept[i].cells))
            && (forall i :: 0 <= i < |after| && after[i].cells != []
                  ==> after[i].cells[0].data.width <= kept[i].cells[0].data.width)
  {
    hide Reflow, Holds, Width, Widened, KeptRow;
    var after, holds := Reflow(rows, sx), Holds(rows, spares, sx);
    forall i | 0 <= i < |after|
      ensures var kept := KeptRow(after[i], holds[i]);
              && |kept.cells| == |after[i].cells| && kept.wrapped == after[i].wrapped
              && Width(after[i].cells) <= Width(kept.cells)
              && (after[i].cells != [] ==> after[i].cells[0].data.width <= kept.cells[0].data.width)
    {
      RowWider(after[i], holds[i]);
    }
  }

  lemma KeptNarrow(rows: seq<Row>, spares: seq<set<nat>>, sx: nat)
    requires |spares| == |rows| && AllFit(KeptReflow(rows, spares, sx), sx)
    ensures AllNarrow(rows, sx)
  {
    KeptFitsIff(rows, spares, sx);
  }

  lemma KeptSettled(rows: seq<Row>, spares: seq<set<nat>>, sx: nat, sy: nat)
    requires |spares| == |rows| && AllFit(KeptReflow(rows, spares, sx), sx)
    ensures Settled(KeptGrid(rows, spares, sx, sy), sx, false)
  {
    hide KeptReflow, Reflow, Settled, Width, AllNarrow, AllFit;
    var kept := KeptReflow(rows, spares, sx);
    KeptNarrow(rows, spares, sx);
    ReflowSettled(rows, sx, false);
    KeptWider(rows, spares, sx);
    SettledWider(Reflow(rows, sx), kept, sx);
    if |kept| < sy {
      SettledBlanks(kept, sy - |kept|, sx, false);
    }
  }

  /** What a reflow leaves as it was came through it uncopied or unchanged. */
  lemma KeptFixed(rows: seq<Row>, spares: seq<set<nat>>, sx: nat, sy: nat)
    requires |spares| == |rows| && KeptGrid(rows, spares, sx, sy) == rows
    ensures AllFit(rows, sx)
  {
    var kept := KeptReflow(rows, spares, sx);
    var n := |rows| - |kept|;
    KeptReflowIff(rows, spares, sx);
    hide Reflow, Holds, CopiesStand;
    assert rows == kept + Blanks(n);
    FlatConcat(kept, Blanks(n));
    FlatBlanks(n);
    assert Flat(kept) == Flat(rows);
    FixedFits(rows, n, sx);
  }

  /** For any rows, any slots they have and any slots the result has: a second reflow to the
      same width changes nothing exactly when the rows of the first fit. */
  lemma KeptIdempotentIff(rows: seq<Row>, spares: seq<set<nat>>, sx: nat, sy: nat, again: seq<set<nat>>)
    requires |spares| == |rows| && |again| == |KeptGrid(rows, spares, sx, sy)|
    ensures var once := KeptGrid(rows, spares, sx, sy);
            KeptGrid(once, again, sx, sy) == once <==> AllFit(KeptReflow(rows, spares, sx), sx)
  {
    var once := KeptGrid(rows, spares, sx, sy);
    if AllFit(KeptReflow(rows, spares, sx), sx) {
      KeptSettled(rows, spares, sx, sy);
      SettledKept(once, again, sx);
      SettledFixed(once, sx, false);
    }
    if KeptGrid(once, again, sx, sy) == once {
      KeptFixed(once, again, sx, sy);
      FitsGrid(KeptReflow(rows, spares, sx), once, sx);
    }
  }

  lemma FitsGrid(a: seq<Row>, b: seq<Row>, sx: nat)
    requires a <= b && AllFit(b, sx)
    ensures AllFit(a, sx)
  {
  }

  // ----- Away and back

  /** Cells of which some were copied. */
  predicate Restored(a: seq<Cell>, b: seq<Cell>) {
    |a| == |b| && forall i :: 0 <= i < |a| ==> b[i] in {a[i], Copied(a[i], true), Copied(a[i], false)}
  }

  lemma {:induction false} KeptRestored(rows: seq<Row>, holds: seq<Hold>)
    requires |holds| == |rows|
    ensures Restored(Flat(rows), Flat(KeptRows(rows, holds)))
  {
    if rows != [] {
      KeptRestored(rows[1..], holds[1..]);
      assert KeptRows(rows, holds)[1..] == KeptRows(rows[1..], holds[1..]);
    }
  }

  lemma RestoredBack(a: seq<Cell>, b: seq<Cell>)
    requires Restored(a, b) && Restored(b, a)
    ensures a == b
  {
    hide Copied;
    forall i | 0 <= i < |a|
      ensures a[i] == b[i]
    {
      CopiedTwice(a[i], true, true);
      CopiedTwice(a[i], true, false);
      CopiedTwice(a[i], false, true);
      CopiedTwice(a[i], false, false);
    }
  }

  lemma GridRestored(rows: seq<Row>, spares: seq<set<nat>>, sx: nat, sy: nat)
    requires |spares| == |rows|
    ensures Restored(Flat(rows), Flat(KeptGrid(rows, spares, sx, sy)))
    ensures Flat(KeptGrid(rows, spares, sx, sy)) == Flat(KeptReflow(rows, spares, sx))
  {
    hide Reflow, Holds, Restored;
    ReflowConserves(rows, sx);
    KeptRestored(Reflow(rows, sx), Holds(rows, spares, sx));
    var kept := KeptReflow(rows, spares, sx);
    if |kept| < sy {
      FlatConcat(kept, Blanks(sy - |kept|));
      FlatBlanks(sy - |kept|);
      assert Flat(kept) + [] == Flat(kept);
    }
  }

  /** No copy of a pass changes a cell. */
  predicate Exact(rows: seq<Row>, spares: seq<set<nat>>, sx: nat)
    requires |spares| == |rows|
  {
    CopiesStand(Reflow(rows, sx), Holds(rows, spares, sx))
  }

  lemma ExactGrid(rows: seq<Row>, spares: seq<set<nat>>, sx: nat, sy: nat)
    requires |spares| == |rows|
    ensures Exact(rows, spares, sx) <==> Flat(KeptGrid(rows, spares, sx, sy)) == Flat(rows)
    ensures Exact(rows, spares, sx) ==> KeptGrid(rows, spares, sx, sy) == ReflowGrid(rows, sx, sy)
  {
    hide Reflow, Holds, Restored, CopiesStand;
    KeptReflowIff(rows, spares, sx);
    GridRestored(rows, spares, sx, sy);
  }

  lemma BackExact(rows: seq<Row>, spares: seq<set<nat>>, sx: nat, other: nat, sy: nat, again: seq<set<nat>>)
    requires |spares| == |rows| && |again| == |KeptGrid(rows, spares, other, sy)|
    requires Flat(KeptGrid(KeptGrid(rows, spares, other, sy), again, sx, sy)) == Flat(rows)
    ensures Exact(rows, spares, other) && Exact(KeptGrid(rows, spares, other, sy), again, sx)
  {
    hide KeptGrid, Exact, Restored;
    var away := KeptGrid(rows, spares, other, sy);
    GridRestored(rows, spares, other, sy);
    GridRestored(away, again, sx, sy);
    RestoredBack(Flat(rows), Flat(away));
    ExactGrid(rows, spares, other, sy);
    ExactGrid(away, again, sx, sy);
  }

  lemma FlatPadded(rows: seq<Row>, n: nat)
    ensures Flat(rows + Blanks(n)) == Flat(rows)
  {
    FlatConcat(rows, Blanks(n));
    FlatBlanks(n);
  }

  /** A grid whose rows are as full as they go comes back from another width, with nothing but
      blank rows after it, exactly when no copy either way changes a cell and no join either
      way stops at a row that does not fit. */
  lemma KeptAwayAndBackIff(rows: seq<Row>, spares: seq<set<nat>>, sx: nat, other: nat, sy: nat, again: seq<set<nat>>)
    requires AllNarrow(rows, sx) && AllNarrow(rows, other) && Starts(rows) && rows == FillAll(Glue(rows), sx)
    requires |spares| == |rows| && |again| == |KeptGrid(rows, spares, other, sy)|
    ensures var away := KeptGrid(rows, spares, other, sy);
            (exists n: nat :: KeptGrid(away, again, sx, sy) == rows + Blanks(n))
            <==> Exact(rows, spares, other) && Exact(away, again, sx)
                 && Stops(rows, other, AtWide) == 0 && Stops(away, sx, AtWide) == 0
  {
    hide KeptGrid, Exact, ReflowGrid, AllNarrow, Starts, FillAll, Glue, Stops, Flat;
    var away := KeptGrid(rows, spares, other, sy);
    if Exact(rows, spares, other) && Exact(away, again, sx) {
      ExactGrid(rows, spares, other, sy);
      ExactGrid(away, again, sx, sy);
      ReflowAwayAndBackIff(rows, sx, other, sy);
    } else if n: nat :| KeptGrid(away, again, sx, sy) == rows + Blanks(n) {
      FlatPadded(rows, n);
      BackExact(rows, spares, sx, other, sy, again);
    }
  }
}

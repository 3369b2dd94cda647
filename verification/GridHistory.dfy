/** The history of a grid: rows scrolled off the screen, and the oldest of them dropped
    when there are too many (grid.c, grid-view.c). */
module GridHistory {
  import opened GridCells
  import opened GridLines
  import opened Grids
  import opened GridMove
  import opened GridView

  /** A grid with history as a value: history rows first, then the screen. */
  datatype Log = Log(rows: seq<View>, hsize: nat, hscrolled: nat, sy: nat, hlimit: nat) {
    predicate Valid() {
      |rows| == hsize + sy && hscrolled <= hsize
    }

    function History(): seq<View>
      requires Valid()
    {
      rows[..hsize]
    }

    function Screen(): seq<View>
      requires Valid()
    {
      rows[hsize..]
    }
  }

  /** How many rows grid_collect_history drops at the limit: a tenth, but at least one. */
  function Excess(hsize: nat, hlimit: nat): (ny: nat)
    ensures ny <= hsize
  {
    if hsize == 0 || hsize < hlimit then 0
    else
      var ny := if hlimit / 10 < 1 then 1 else hlimit / 10;
      if ny > hsize then hsize else ny
  }

  /** How many it drops when asked for all: what is over the limit, but at least one row. */
  function ExcessAll(hsize: nat, hlimit: nat): (ny: nat)
    ensures ny <= hsize
  {
    if hsize == 0 || hsize < hlimit then 0 else if hsize == hlimit then 1 else hsize - hlimit
  }

  /** The log without its `ny` oldest rows. */
  function Dropped(g: Log, ny: nat): (r: Log)
    requires g.Valid() && ny <= g.hsize
    ensures r.Valid() && r.sy == g.sy && r.hlimit == g.hlimit
  {
    g.(rows := g.rows[ny..], hsize := g.hsize - ny,
       hscrolled := if g.hscrolled > g.hsize - ny then g.hsize - ny else g.hscrolled)
  }

  function Collected(g: Log): (r: Log)
    requires g.Valid()
    ensures r.Valid() && r.sy == g.sy && r.hlimit == g.hlimit
  {
    Dropped(g, Excess(g.hsize, g.hlimit))
  }

  /** Rows `upper` to `lower` of the screen scroll up; the top one becomes history. */
  function Scrolled(g: Log, upper: nat, lower: nat, blank: View): (r: Log)
    requires g.Valid() && upper <= lower < g.sy
    ensures r.Valid() && r.sy == g.sy && r.hlimit == g.hlimit
  {
    var s := g.Screen();
    Log(g.History() + [s[upper]] + (s[..upper] + s[upper + 1..lower + 1] + [blank] + s[lower + 1..]),
        g.hsize + 1, g.hscrolled + 1, g.sy, g.hlimit)
  }

  /** One scroll of a region with history. */
  function ScrollUp(g: Log, upper: nat, lower: nat, blank: View): (r: Log)
    requires g.Valid() && upper <= lower < g.sy
    ensures r.Valid() && r.sy == g.sy && r.hlimit == g.hlimit
  {
    Scrolled(Collected(g), upper, lower, blank)
  }

  /** The row a scroll moves into history. */
  function Leaving(g: Log, upper: nat): View
    requires g.Valid() && upper < g.sy
  {
    g.Screen()[upper]
  }

  /** What the history is meant to stay within: its limit, or its length when that is more. */
  function Bound(g: Log): nat {
    if g.hsize > g.hlimit then g.hsize else g.hlimit
  }

  predicate Bounded(g: Log, r: Log) {
    r.hsize <= Bound(g) || r.hsize == 1
  }

  predicate IsSuffix(a: seq<View>, b: seq<View>) {
    |a| <= |b| && b[|b| - |a|..] == a
  }

  /** One scroll, for any limit: the oldest rows may go, the row that leaves is the newest,
      and the screen loses it and gains a blank row. */
  lemma ScrollUpStep(g: Log, upper: nat, lower: nat, blank: View)
    requires g.Valid() && upper <= lower < g.sy
    ensures var r := ScrollUp(g, upper, lower, blank);
            && IsSuffix(r.History(), g.History() + [Leaving(g, upper)])
            && r.Screen() == Deleted(g.Screen(), upper, lower - upper + 1, 1, blank)
            && r.hsize >= 1 && r.History()[r.hsize - 1] == Leaving(g, upper)
  {
    hide Collected, Scrolled;
    CollectedKeeps(g);
    ScrolledParts(Collected(g), upper, lower, blank);
    var a, v := Collected(g).History(), Leaving(g, upper);
    assert a + [v] == (g.History() + [v])[|g.History()| - |a|..];
  }

  lemma ScrollUpLength(g: Log, upper: nat, lower: nat, blank: View)
    requires g.Valid() && upper <= lower < g.sy
    ensures ScrollUp(g, upper, lower, blank).hsize == g.hsize - Excess(g.hsize, g.hlimit) + 1
  {
  }

  /** Collecting drops rows from the front of the history only. */
  lemma CollectedKeeps(g: Log)
    requires g.Valid()
    ensures var c := Collected(g);
            && c.Screen() == g.Screen() && IsSuffix(c.History(), g.History())
            && if g.hlimit >= 1 || g.hsize >= 1 then c.hsize + 1 <= Bound(g) else c.hsize == 0
  {
    var ny := Excess(g.hsize, g.hlimit);
    assert Collected(g).History() == g.History()[ny..];
  }

  lemma ScrolledParts(c: Log, upper: nat, lower: nat, blank: View)
    requires c.Valid() && upper <= lower < c.sy
    ensures var r := Scrolled(c, upper, lower, blank);
            && r.hsize == c.hsize + 1 && r.History() == c.History() + [c.Screen()[upper]]
            && r.Screen() == Deleted(c.Screen(), upper, lower - upper + 1, 1, blank)
  {
  }

  datatype Op = Op(upper: nat, lower: nat, blank: View)

  predicate InScreen(ops: seq<Op>, sy: nat) {
    forall op :: op in ops ==> op.upper <= op.lower < sy
  }

  function Run(g: Log, ops: seq<Op>): (r: Log)
    requires g.Valid() && InScreen(ops, g.sy)
    ensures r.Valid() && r.sy == g.sy && r.hlimit == g.hlimit
  {
    if ops == [] then g
    else ScrollUp(Run(g, ops[..|ops| - 1]), ops[|ops| - 1].upper, ops[|ops| - 1].lower, ops[|ops| - 1].blank)
  }

  /** How many rows of history there are after `n` scrolls. */
  function LengthAfter(hsize: nat, hlimit: nat, n: nat): nat {
    if n == 0 then hsize
    else
      var h := LengthAfter(hsize, hlimit, n - 1);
      h - Excess(h, hlimit) + 1
  }

  /** At the limit a scroll drops a tenth of it, at least a row, and adds one row. */
  lemma ScrollAtLimit(hsize: nat, hlimit: nat)
    requires hlimit <= hsize && 0 < hsize
    ensures hlimit >= 10 ==> LengthAfter(hsize, hlimit, 1) == hsize - hlimit / 10 + 1
    ensures hlimit < 10 ==> LengthAfter(hsize, hlimit, 1) == hsize
  {
    assert LengthAfter(hsize, hlimit, 0) == hsize;
  }

  /** A collection of all there is too much leaves the limit, or one row less if it was met
      exactly; below the limit everything. */
  lemma CollectedAll(hsize: nat, hlimit: nat)
    ensures hsize - ExcessAll(hsize, hlimit)
            == if hsize > hlimit then hlimit else if hsize == hlimit && hsize > 0 then hlimit - 1 else hsize
  {
  }

  /** Every row stays while there is room for all. */
  lemma {:induction false} LengthBelow(hsize: nat, hlimit: nat, n: nat)
    requires hsize + n <= hlimit
    ensures LengthAfter(hsize, hlimit, n) == hsize + n
  {
    if n > 0 {
      LengthBelow(hsize, hlimit, n - 1);
    }
  }

  /** The rows scrolled out by a run, in order. */
  function LeavingRows(g: Log, ops: seq<Op>): seq<View>
    requires g.Valid() && InScreen(ops, g.sy)
  {
    if ops == [] then []
    else LeavingRows(g, ops[..|ops| - 1]) + [Leaving(Run(g, ops[..|ops| - 1]), ops[|ops| - 1].upper)]
  }

  lemma SuffixAppend(a: seq<View>, b: seq<View>, c: seq<View>, v: View)
    requires IsSuffix(a, b) && IsSuffix(c, a + [v])
    ensures IsSuffix(c, b + [v])
  {
    assert (a + [v])[|a| + 1 - |c|..] == c;
    assert b + [v] == b[..|b| - |a|] + (a + [v]);
  }

  /** The bound is kept unless the limit is 0 and there is no history yet, since the row
      that leaves is always stored. */
  lemma ScrollUpBound(g: Log, upper: nat, lower: nat, blank: View)
    requires g.Valid() && upper <= lower < g.sy
    ensures var n := ScrollUp(g, upper, lower, blank).hsize;
            && (n <= Bound(g) <==> g.hlimit >= 1 || g.hsize >= 1)
            && n >= 1 && (n <= Bound(g) || n == 1)
  {
  }

  lemma BoundedNext(g: Log, r: Log, upper: nat, lower: nat, blank: View)
    requires r.Valid() && upper <= lower < r.sy && r.hlimit == g.hlimit && Bounded(g, r)
    ensures Bounded(g, ScrollUp(r, upper, lower, blank))
  {
    ScrollUpBound(r, upper, lower, blank);
  }

  /** The length of the history over a run, by the length before the last scroll. */
  lemma {:induction false} HistoryBounded(g: Log, ops: seq<Op>)
    requires g.Valid() && InScreen(ops, g.sy)
    ensures var n := Run(g, ops).hsize;
            && Bounded(g, Run(g, ops)) && (if ops == [] then n == g.hsize else n >= 1)
  {
    if ops != [] {
      var before, op := ops[..|ops| - 1], ops[|ops| - 1];
      HistoryBounded(g, before);
      BoundedNext(g, Run(g, before), op.upper, op.lower, op.blank);
      ScrollUpBound(Run(g, before), op.upper, op.lower, op.blank);
    }
  }

  /** Over any run of scrolls and for any limit the history is a log: the end of the initial
      history followed by the rows scrolled out, as long as their number makes it. */
  lemma {:induction false} HistoryIsLog(g: Log, ops: seq<Op>)
    requires g.Valid() && InScreen(ops, g.sy)
    ensures IsSuffix(Run(g, ops).History(), g.History() + LeavingRows(g, ops))
    ensures Run(g, ops).hsize == LengthAfter(g.hsize, g.hlimit, |ops|)
    ensures Run(g, ops).hscrolled <= Run(g, ops).hsize
  {
    if ops == [] {
      assert g.History() + [] == g.History();
    } else {
      var before, op := ops[..|ops| - 1], ops[|ops| - 1];
      HistoryIsLog(g, before);
      var mid := Run(g, before);
      hide ScrollUp, IsSuffix, Deleted;
      ScrollUpStep(mid, op.upper, op.lower, op.blank);
      ScrollUpLength(mid, op.upper, op.lower, op.blank);
      SuffixAppend(mid.History(), g.History() + LeavingRows(g, before), Run(g, ops).History(), Leaving(mid, op.upper));
      assert g.History() + LeavingRows(g, ops) == (g.History() + LeavingRows(g, before)) + [Leaving(mid, op.upper)];
    }
  }

  /** It is never longer than the limit, unless it was longer to begin with: exactly when the
      limit is not 0, or there was a history, or nothing is scrolled. */
  lemma HistoryBoundedIff(g: Log, ops: seq<Op>)
    requires g.Valid() && InScreen(ops, g.sy)
    ensures Run(g, ops).hsize <= Bound(g) <==> ops == [] || g.hlimit >= 1 || g.hsize >= 1
    ensures Bounded(g, Run(g, ops))
  {
    HistoryBounded(g, ops);
  }

  /** A limit of 0, as an option may set, and an empty history: the next scroll leaves one row. */
  lemma LimitZero(v: View, blank: View)
    ensures var g, op := Log([v], 0, 0, 1, 0), Op(0, 0, blank);
            Run(g, [op]) == Log([v, blank], 1, 1, 1, 0) && Run(g, [op]).hsize > Bound(g)
  {
    var g, op := Log([v], 0, 0, 1, 0), Op(0, 0, blank);
    var ops := [op];
    assert ops[..0] == [];
    assert Run(g, []) == g;
    assert g.rows[0..] == g.rows;
    assert Collected(g) == g;
    assert ScrollUp(g, 0, 0, blank).rows == [v, blank];
  }

  /** Nothing is dropped while the history is below its limit. */
  lemma NothingDroppedBelowLimit(g: Log, upper: nat, lower: nat, blank: View)
    requires g.Valid() && upper <= lower < g.sy && g.hsize < g.hlimit
    ensures ScrollUp(g, upper, lower, blank).History() == g.History() + [Leaving(g, upper)]
  {
    assert Collected(g) == g by {
      assert g.rows[0..] == g.rows;
    }
  }

  // ----- The operations on the grid

  ghost function LogOf(gd: Grid): Log
    requires gd.hsize + gd.sy <= |gd.linedata|
    reads gd, gd.linedata
  {
    Log(ViewsOf(gd.Lines()), gd.hsize, gd.hscrolled, gd.sy, gd.hlimit)
  }

  lemma ViewsOfConcat(a: seq<Line>, b: seq<Line>)
    ensures ViewsOf(a + b) == ViewsOf(a) + ViewsOf(b)
  {
    hide ViewOf, ViewsOf;
  }

  /** grid_free_lines from the top. */
  method FreeFirst(lines: seq<Line>, ny: nat)
    requires Distinct(lines) && ny <= |lines|
    modifies lines
    ensures forall i :: ny <= i < |lines| ==> ViewOf(lines[i]) == old(ViewOf(lines[i])) && lines[i].Valid() == old(lines[i].Valid())
  {
    hide ViewOf, Line.Valid;
    for yy := 0 to ny
      invariant forall i :: ny <= i < |lines| ==> unchanged(lines[i])
    {
      FreeLine(lines[yy]);
    }
  }

  lemma AllViewed(lines: seq<Line>)
    requires AllValid(lines)
    ensures forall i :: 0 <= i < |lines| ==> lines[i].Valid() && ViewOf(lines[i]) == ViewsOf(lines)[i]
  {
  }

  /** grid_trim_history: the first rows are freed, the rest move up, and zeroed rows are
      left behind them. */
  method TrimHistory(gd: Grid, ny: nat)
    requires gd.Valid() && ny <= gd.hsize
    modifies gd`linedata, gd.linedata
    ensures |gd.linedata| == old(|gd.linedata|) && Distinct(gd.linedata) && AllValid(gd.linedata)
    ensures ViewsOf(gd.linedata)[..gd.hsize + gd.sy - ny] == old(ViewsOf(gd.Lines()))[ny..]
    ensures forall i :: gd.hsize + gd.sy - ny <= i < gd.hsize + gd.sy ==> ViewOf(gd.linedata[i]) == View([], 0, false)
    ensures forall i :: 0 <= i < |gd.linedata| ==> gd.linedata[i] in old(gd.linedata) || fresh(gd.linedata[i])
  {
    hide SlotsOk, ReadAll, ViewOf, Line.Valid, Distinct, AllValid, ViewsOf, Disjoint;
    ghost var was, vs := gd.linedata, ViewsOf(gd.linedata);
    ViewsOfLines(gd);
    AllViewed(was);
    FreeFirst(gd.linedata, ny);
    var zeroed := BlankLines(ny);
    FreshApart(was, zeroed);
    ZeroedViews(zeroed);
    var total := gd.hsize + gd.sy;
    TrimmedViews(was, zeroed, ny, total, vs);
    gd.linedata := gd.linedata[ny..total] + zeroed + gd.linedata[total..];
    forall i | 0 <= i < |gd.linedata|
      ensures gd.linedata[i] in was || fresh(gd.linedata[i])
    {
      TrimmedAt(was, zeroed, ny, total, i);
    }
  }

  lemma FreshApart(was: seq<Line>, zeroed: seq<Line>)
    requires forall i :: 0 <= i < |was| ==> was[i] !in zeroed
    ensures Disjoint(was, zeroed)
  {
  }

  lemma ZeroedViews(zeroed: seq<Line>)
    requires forall l :: l in zeroed ==> l.celldata == [] && l.cellused == 0 && !l.wrapped
    ensures forall i :: 0 <= i < |zeroed| ==> ViewOf(zeroed[i]) == View([], 0, false)
  {
    forall i | 0 <= i < |zeroed|
      ensures ViewOf(zeroed[i]) == View([], 0, false)
    {
      assert zeroed[i] in zeroed;
      assert zeroed[i].Cells() == [];
    }
  }

  /** The rows after a trim, position by position. */
  lemma TrimmedAt(was: seq<Line>, zeroed: seq<Line>, ny: nat, total: nat, i: nat)
    requires ny <= total <= |was| && |zeroed| == ny && i < |was|
    ensures |was[ny..total] + zeroed + was[total..]| == |was|
    ensures (was[ny..total] + zeroed + was[total..])[i]
            == if i < total - ny then was[ny + i] else if i < total then zeroed[i - (total - ny)] else was[i]
  {
  }

  lemma TrimmedViews(was: seq<Line>, zeroed: seq<Line>, ny: nat, total: nat, vs: seq<View>)
    requires ny <= total <= |was| == |vs| && |zeroed| == ny
    requires Distinct(was) && Distinct(zeroed) && Disjoint(was, zeroed)
    requires forall i :: ny <= i < |was| ==> was[i].Valid() && ViewOf(was[i]) == vs[i]
    requires AllValid(zeroed) && forall i :: 0 <= i < ny ==> ViewOf(zeroed[i]) == View([], 0, false)
    ensures var now := was[ny..total] + zeroed + was[total..];
            && Distinct(now) && AllValid(now) && ViewsOf(now)[..total - ny] == vs[..total][ny..]
            && forall i :: total - ny <= i < total ==> ViewOf(now[i]) == View([], 0, false)
  {
    hide SlotsOk, ReadAll, ViewOf, Line.Valid;
    var now := was[ny..total] + zeroed + was[total..];
    forall i | 0 <= i < |now|
      ensures now[i].Valid() && (i < total - ny ==> ViewOf(now[i]) == vs[ny + i])
      ensures total - ny <= i < total ==> ViewOf(now[i]) == View([], 0, false)
    {
      TrimmedAt(was, zeroed, ny, total, i);
    }
    forall i, j | 0 <= i < j < |now|
      ensures now[i] != now[j]
    {
      TrimmedAt(was, zeroed, ny, total, i);
      TrimmedAt(was, zeroed, ny, total, j);
    }
  }

  /** The second half of grid_collect_history. */
  method DropOldest(gd: Grid, ny: nat)
    requires gd.Valid() && ny <= gd.hsize
    modifies gd`linedata, gd`hsize, gd`hscrolled, gd.linedata
    ensures gd.Valid()
    ensures LogOf(gd) == Dropped(old(LogOf(gd)), ny)
    ensures forall i :: 0 <= i < |gd.linedata| ==> gd.linedata[i] in old(gd.linedata) || fresh(gd.linedata[i])
  {
    hide ViewsOf, Distinct, AllValid;
    TrimHistory(gd, ny);
    gd.hsize := gd.hsize - ny;
    if gd.hscrolled > gd.hsize {
      gd.hscrolled := gd.hsize;
    }
    ViewsOfLines(gd);
  }

  /** grid_collect_history */
  method CollectHistory(gd: Grid, all: bool)
    requires gd.Valid()
    modifies gd`linedata, gd`hsize, gd`hscrolled, gd.linedata
    ensures gd.Valid()
    ensures !all ==> LogOf(gd) == Collected(old(LogOf(gd)))
    ensures all ==> LogOf(gd) == Dropped(old(LogOf(gd)), ExcessAll(old(gd.hsize), gd.hlimit))
    ensures forall i :: 0 <= i < |gd.linedata| ==> gd.linedata[i] in old(gd.linedata) || fresh(gd.linedata[i])
  {
    hide ViewsOf, Distinct, AllValid;
    if gd.hsize == 0 || gd.hsize < gd.hlimit {
      assert LogOf(gd).rows[0..] == LogOf(gd).rows;
      return;
    }
    var ny: int := if all then gd.hsize - gd.hlimit else gd.hlimit / 10;
    if ny < 1 {
      ny := 1;
    }
    var hsize := gd.hsize;
    if ny > hsize {
      ny := hsize;
    }
    DropOldest(gd, ny);
  }

  /** Room for one more row below the screen, emptied; rows allocated beyond it go. */
  method AppendRow(gd: Grid, bg: Colour)
    requires gd.Valid()
    modifies gd`linedata
    ensures |gd.linedata| == gd.hsize + gd.sy + 1 && Distinct(gd.linedata) && AllValid(gd.linedata)
    ensures ViewsOf(gd.linedata) == old(ViewsOf(gd.Lines())) + [BlankView(gd.sx, bg)]
    ensures forall i :: 0 <= i < gd.hsize + gd.sy ==> gd.linedata[i] == old(gd.linedata)[i]
    ensures fresh(gd.linedata[gd.hsize + gd.sy])
    ensures forall i :: 0 <= i < |gd.linedata| ==> gd.linedata[i] in old(gd.linedata) || fresh(gd.linedata[i])
  {
    hide SlotsOk, ReadAll, ViewOf, Line.Valid;
    ghost var lines := gd.Lines();
    var l := EmptyLine(gd.sx, bg);
    gd.linedata := gd.linedata[..gd.hsize + gd.sy] + [l];
    ViewsOfConcat(lines, [l]);
  }

  /** Compacting a row changes nothing a reader can see. */
  method CompactRow(gd: Grid, k: nat)
    requires k < |gd.linedata| && Distinct(gd.linedata) && AllValid(gd.linedata)
    modifies gd.linedata[k]
    ensures AllValid(gd.linedata) && ViewsOf(gd.linedata) == old(ViewsOf(gd.linedata))
  {
    hide SlotsOk, ReadAll;
    ghost var vs := ViewsOf(gd.linedata);
    AllViewed(gd.linedata);
    gd.linedata[k].Compact();
    forall i | 0 <= i < |gd.linedata|
      ensures ViewOf(gd.linedata[i]) == vs[i]
    {
      assert i != k ==> gd.linedata[i] != gd.linedata[k];
    }
  }

  /** grid_scroll_history: a new row at the bottom, and the top row of the screen, its
      slots compacted, is now history. */
  method ScrollHistory(gd: Grid, bg: Colour)
    requires gd.Valid() && gd.sy >= 1
    modifies gd`linedata, gd`hsize, gd`hscrolled, gd.linedata
    ensures gd.Valid()
    ensures LogOf(gd) == Scrolled(old(LogOf(gd)), 0, gd.sy - 1, BlankView(gd.sx, bg))
    ensures forall i :: 0 <= i < |gd.linedata| ==> gd.linedata[i] in old(gd.linedata) || fresh(gd.linedata[i])
  {
    hide SlotsOk, ReadAll, Line.Valid, AllValid, ViewsOf, ViewOf, Distinct, Scrolled;
    ghost var g := LogOf(gd);
    GrowBottom(gd, bg);
    gd.hscrolled := gd.hscrolled + 1;
    gd.hsize := gd.hsize + 1;
    FullScroll(g, BlankView(gd.sx, bg));
    assert gd.Lines() == gd.linedata;
  }

  /** The new row, and the top row of the screen compacted. */
  method GrowBottom(gd: Grid, bg: Colour)
    requires gd.Valid() && gd.sy >= 1
    modifies gd`linedata, gd.linedata
    ensures |gd.linedata| == gd.hsize + gd.sy + 1 && Distinct(gd.linedata) && AllValid(gd.linedata)
    ensures ViewsOf(gd.linedata) == old(ViewsOf(gd.Lines())) + [BlankView(gd.sx, bg)]
    ensures forall i :: 0 <= i < |gd.linedata| ==> gd.linedata[i] in old(gd.linedata) || fresh(gd.linedata[i])
  {
    hide SlotsOk, ReadAll, Line.Valid, AllValid, ViewsOf, ViewOf, Distinct;
    AppendRow(gd, bg);
    ghost var lines := gd.linedata;
    assert lines[gd.hsize] == old(gd.linedata)[gd.hsize];
    CompactRow(gd, gd.hsize);
    assert gd.linedata == lines;
  }

  /** Scrolling the whole screen is one new row after all the others. */
  lemma FullScroll(g: Log, blank: View)
    requires g.Valid() && g.sy >= 1
    ensures Scrolled(g, 0, g.sy - 1, blank) == Log(g.rows + [blank], g.hsize + 1, g.hscrolled + 1, g.sy, g.hlimit)
  {
  }

  /** The rows after grid_scroll_history_region has moved them. */
  function RegionMoved<T>(rows: seq<T>, hsize: nat, upper: nat, lower: nat, l: T): seq<T>
    requires hsize <= upper <= lower < |rows|
  {
    rows[..hsize] + [rows[upper]] + rows[hsize..upper] + rows[upper + 1..lower + 1] + [l] + rows[lower + 1..]
  }

  lemma RegionMovedIsScrolled(g: Log, upper: nat, lower: nat, blank: View)
    requires g.Valid() && upper <= lower < g.sy
    ensures Scrolled(g, upper, lower, blank)
            == Log(RegionMoved(g.rows, g.hsize, g.hsize + upper, g.hsize + lower, blank),
                   g.hsize + 1, g.hscrolled + 1, g.sy, g.hlimit)
  {
    var s, rows := g.Screen(), g.rows;
    var u, l := g.hsize + upper, g.hsize + lower;
    assert s[upper] == rows[u] && s[..upper] == rows[g.hsize..u];
    assert s[upper + 1..lower + 1] == rows[u + 1..l + 1] && s[lower + 1..] == rows[l + 1..];
  }

  /** The two memmoves and the copy between them, as sequences. */
  lemma RegionSteps<T>(rows: seq<T>, hsize: nat, upper: nat, lower: nat, garbage: T, l: T)
    requires hsize <= upper <= lower < |rows|
    ensures var a := rows + [garbage];
            var b := a[..hsize + 1] + a[hsize..|rows|];
            |b| == |rows| + 1 &&
            var c := b[hsize := b[upper + 1]];
            var d := c[..upper + 1] + c[upper + 2..lower + 2] + c[lower + 1..];
            |d| == |rows| + 1 && d[lower + 1 := l] == RegionMoved(rows, hsize, upper, lower, l)
  {
    var a := rows + [garbage];
    var b := a[..hsize + 1] + a[hsize..|rows|];
    assert b == rows[..hsize] + [rows[hsize]] + rows[hsize..];
    var c := b[hsize := b[upper + 1]];
    assert c == rows[..hsize] + [rows[upper]] + rows[hsize..];
    var d := c[..upper + 1] + c[upper + 2..lower + 2] + c[lower + 1..];
    assert c[..upper + 1] == rows[..hsize] + [rows[upper]] + rows[hsize..upper];
    assert c[upper + 2..lower + 2] == rows[upper + 1..lower + 1];
    var head := rows[..hsize] + [rows[upper]] + rows[hsize..upper] + rows[upper + 1..lower + 1];
    assert c[lower + 1..] == rows[lower..];
    assert d == head + rows[lower..] && |head| == lower + 1;
    assert d[lower + 1 := l] == head + [l] + rows[lower + 1..];
  }

  /** The screen moves down one row, the region's top row drops into the gap, and the
      rest of the region closes up. */
  method MoveRegion(gd: Grid, upper: nat, lower: nat, bg: Colour)
    requires gd.Valid() && gd.hsize <= upper <= lower < gd.hsize + gd.sy
    modifies gd`linedata
    ensures |gd.linedata| == gd.hsize + gd.sy + 1
    ensures gd.linedata == RegionMoved(old(gd.Lines()), gd.hsize, upper, lower, gd.linedata[lower + 1])
    ensures fresh(gd.linedata[lower + 1]) && gd.linedata[lower + 1].Valid()
    ensures ViewOf(gd.linedata[lower + 1]) == BlankView(gd.sx, bg)
  {
    hide SlotsOk, ReadAll, ViewOf, Line.Valid, ViewsOf, Distinct, AllValid, RegionMoved;
    var h, yy := gd.hsize, gd.hsize + gd.sy;
    ghost var rows, garbage := gd.Lines(), gd.linedata[yy - 1];
    var l := EmptyLine(gd.sx, bg);
    RegionSteps(rows, h, upper, lower, garbage, l);
    gd.linedata := gd.linedata[..yy] + [gd.linedata[yy - 1]];
    ghost var a := rows + [garbage];
    assert gd.linedata == a;
    gd.linedata := gd.linedata[..h + 1] + gd.linedata[h..yy];
    ghost var b := a[..h + 1] + a[h..|rows|];
    assert gd.linedata == b;
    gd.linedata := gd.linedata[h := gd.linedata[upper + 1]];
    ghost var c := b[h := b[upper + 1]];
    assert gd.linedata == c;
    gd.linedata := gd.linedata[..upper + 1] + gd.linedata[upper + 2..lower + 2] + gd.linedata[lower + 1..];
    assert gd.linedata == c[..upper + 1] + c[upper + 2..lower + 2] + c[lower + 1..];
    gd.linedata := gd.linedata[lower + 1 := l];
    assert gd.linedata == RegionMoved(rows, h, upper, lower, l);
    assert gd.linedata[lower + 1] == l;
  }

  /** Where a row comes from: an old position, or -1 for the new row. */
  function RegionIndex(hsize: nat, upper: nat, lower: nat, i: nat): int {
    if i < hsize then i
    else if i == hsize then upper
    else if i <= upper then i - 1
    else if i <= lower then i
    else if i == lower + 1 then -1
    else i - 1
  }

  lemma RegionMovedAt<T>(rows: seq<T>, hsize: nat, upper: nat, lower: nat, l: T, i: nat)
    requires hsize <= upper <= lower < |rows| && i <= |rows|
    ensures |RegionMoved(rows, hsize, upper, lower, l)| == |rows| + 1
    ensures var k := RegionIndex(hsize, upper, lower, i);
            -1 <= k < |rows| && RegionMoved(rows, hsize, upper, lower, l)[i] == if k == -1 then l else rows[k]
  {
  }

  lemma RegionMovedDistinct(rows: seq<Line>, hsize: nat, upper: nat, lower: nat, l: Line)
    requires hsize <= upper <= lower < |rows| && Distinct(rows) && l !in rows
    ensures Distinct(RegionMoved(rows, hsize, upper, lower, l))
  {
    hide RegionMoved;
    var now := RegionMoved(rows, hsize, upper, lower, l);
    RegionMovedAt(rows, hsize, upper, lower, l, 0);
    forall i, j | 0 <= i < j <= |rows|
      ensures now[i] != now[j]
    {
      RegionMovedAt(rows, hsize, upper, lower, l, i);
      RegionMovedAt(rows, hsize, upper, lower, l, j);
    }
  }

  /** The moved rows still show what they did. */
  lemma RegionMovedViews(rows: seq<Line>, hsize: nat, upper: nat, lower: nat, l: Line)
    requires hsize <= upper <= lower < |rows| && AllValid(rows) && l.Valid()
    ensures var now := RegionMoved(rows, hsize, upper, lower, l);
            AllValid(now) && ViewsOf(now) == RegionMoved(ViewsOf(rows), hsize, upper, lower, ViewOf(l))
  {
    hide SlotsOk, ReadAll, ViewOf, Line.Valid, RegionMoved, RegionIndex, AllValid, ViewsOf;
    var now, vs := RegionMoved(rows, hsize, upper, lower, l), ViewsOf(rows);
    RegionMovedAt(rows, hsize, upper, lower, l, 0);
    RegionMovedAt(vs, hsize, upper, lower, ViewOf(l), 0);
    forall i | 0 <= i <= |rows|
      ensures now[i].Valid() && ViewOf(now[i]) == RegionMoved(vs, hsize, upper, lower, ViewOf(l))[i]
    {
      RegionMovedAt(rows, hsize, upper, lower, l, i);
      RegionMovedAt(vs, hsize, upper, lower, ViewOf(l), i);
      var k := RegionIndex(hsize, upper, lower, i);
      if k != -1 {
        ViewedAt(rows, k);
      }
    }
    AllValidFrom(now);
  }

  lemma ViewedAt(lines: seq<Line>, k: nat)
    requires k < |lines| && AllValid(lines)
    ensures lines[k].Valid() && ViewsOf(lines)[k] == ViewOf(lines[k])
  {
  }

  /** grid_scroll_history_region */
  method ScrollHistoryRegion(gd: Grid, upper: nat, lower: nat, bg: Colour)
    requires gd.Valid() && gd.hsize <= upper <= lower < gd.hsize + gd.sy
    modifies gd`linedata, gd`hsize, gd`hscrolled
    ensures gd.Valid()
    ensures LogOf(gd) == Scrolled(old(LogOf(gd)), upper - old(gd.hsize), lower - old(gd.hsize), BlankView(gd.sx, bg))
  {
    hide SlotsOk, ReadAll, ViewOf, Line.Valid, ViewsOf, Distinct, AllValid, RegionMoved, Scrolled;
    ghost var g, rows := LogOf(gd), gd.Lines();
    assert g.rows == ViewsOf(rows);
    SliceKept(gd);
    MoveRegion(gd, upper, lower, bg);
    RegionMovedDistinct(rows, gd.hsize, upper, lower, gd.linedata[lower + 1]);
    RegionMovedViews(rows, gd.hsize, upper, lower, gd.linedata[lower + 1]);
    RegionMovedIsScrolled(g, upper - gd.hsize, lower - gd.hsize, BlankView(gd.sx, bg));
    gd.hscrolled := gd.hscrolled + 1;
    gd.hsize := gd.hsize + 1;
    assert gd.Lines() == gd.linedata;
  }

  lemma SliceKept(gd: Grid)
    requires gd.Valid()
    ensures Distinct(gd.Lines()) && AllValid(gd.Lines())
  {
  }

  /** grid_view_scroll_region_up. With history the row that leaves is kept; without, the
      region is scrolled by moving rows, which does nothing to a region of one row. */
  method ScrollRegionUp(gd: Grid, rupper: nat, rlower: nat, bg: Colour)
    requires gd.Valid() && gd.hsize + gd.sy < U32 && rupper <= rlower < gd.sy
    modifies gd`linedata, gd`hsize, gd`hscrolled, gd.linedata
    ensures gd.Valid()
    ensures gd.history ==> LogOf(gd) == ScrollUp(old(LogOf(gd)), rupper, rlower, BlankView(gd.sx, bg))
    ensures !gd.history ==>
              var vs := old(ViewsOf(gd.Lines()));
              && gd.hsize == old(gd.hsize)
              && ViewsOf(gd.Lines()) == MovedLines(vs, gd.hsize + rupper, gd.hsize + rupper + 1, rlower - rupper,
                                                   BlankView(gd.sx, bg))
  {
    hide ViewsOf, Distinct, AllValid, ViewOf, Line.Valid, Scrolled, MovedLines, Collected, ScrollUp;
    if gd.history {
      ScrollWithHistory(gd, rupper, rlower, bg);
    } else {
      MoveLines(gd, gd.hsize + rupper, gd.hsize + rupper + 1, rlower - rupper, bg);
    }
  }

  /** The branch of grid_view_scroll_region_up with history. */
  method ScrollWithHistory(gd: Grid, rupper: nat, rlower: nat, bg: Colour)
    requires gd.Valid() && rupper <= rlower < gd.sy
    modifies gd`linedata, gd`hsize, gd`hscrolled, gd.linedata
    ensures gd.Valid() && LogOf(gd) == ScrollUp(old(LogOf(gd)), rupper, rlower, BlankView(gd.sx, bg))
  {
    hide ViewsOf, Distinct, AllValid, ViewOf, Line.Valid, Scrolled, Collected;
    CollectHistory(gd, false);
    if rupper == 0 && rlower == gd.sy - 1 {
      ScrollHistory(gd, bg);
    } else {
      ScrollHistoryRegion(gd, gd.hsize + rupper, gd.hsize + rlower, bg);
    }
  }

  lemma VisibleAt(g: Log, upper: nat, lower: nat, blank: View, i: nat)
    requires g.Valid() && upper <= lower < g.sy && !blank.wrapped && i < g.sy
    ensures var moved := MovedLines(g.rows, g.hsize + upper, g.hsize + upper + 1, lower - upper, blank);
            Bare(moved)[g.hsize + i] == Bare(Deleted(g.Screen(), upper, lower - upper + 1, 1, blank))[i]
            <==> (lower <= i < upper + 1 ==> Bare(g.rows)[g.hsize + i] == blank)
  {
    hide MovedLines, Deleted;
    MovedAt(g.rows, g.hsize + upper, g.hsize + upper + 1, lower - upper, blank, g.hsize + i);
    DeletedAt(g.Screen(), upper, lower - upper + 1, 1, blank, i);
  }

  /** The branch without history leaves the same visible rows as the two with it exactly
      when the region has more than one row or its row was blank. */
  lemma SameVisibleRows(g: Log, upper: nat, lower: nat, blank: View)
    requires g.Valid() && upper <= lower < g.sy && !blank.wrapped
    ensures var moved := MovedLines(g.rows, g.hsize + upper, g.hsize + upper + 1, lower - upper, blank);
            Bare(moved)[g.hsize..] == Bare(ScrollUp(g, upper, lower, blank).Screen())
            <==> upper < lower || Bare(g.rows)[g.hsize + upper] == blank
  {
    hide MovedLines, Deleted, ScrollUp;
    var moved := MovedLines(g.rows, g.hsize + upper, g.hsize + upper + 1, lower - upper, blank);
    var r, want := Bare(moved)[g.hsize..], Bare(ScrollUp(g, upper, lower, blank).Screen());
    ScrollUpStep(g, upper, lower, blank);
    InsertedLength(g.Screen(), upper, lower - upper + 1, 1, blank);
    forall i | 0 <= i < g.sy
      ensures r[i] == want[i] <==> (lower <= i < upper + 1 ==> Bare(g.rows)[g.hsize..][i] == blank)
    {
      VisibleAt(g, upper, lower, blank, i);
    }
    ExactAll(r, want, Bare(g.rows)[g.hsize..], lower, upper + 1, blank);
    assert upper == lower ==> Bare(g.rows)[g.hsize..][upper] == Bare(g.rows)[g.hsize + upper];
  }

  /** Whether a row has used cells, the test grid_view_clear_history makes. */
  predicate AllUnused(vs: seq<View>, from: nat) {
    forall i :: from <= i < |vs| ==> vs[i].used == 0
  }

  /** The rows of the screen in use are the first `last`. */
  ghost predicate UpTo(g: Log, last: nat) {
    && g.Valid() && last <= g.sy
    && AllUnused(g.Screen(), last) && (last > 0 ==> g.Screen()[last - 1].used != 0)
  }

  /** The first loop of grid_view_clear_history: one past the last row with used cells. */
  method LastUsed(gd: Grid) returns (last: nat)
    requires gd.Valid()
    ensures last <= gd.sy && UpTo(LogOf(gd), last)
  {
    hide ReadAll, SlotsOk;
    ghost var s := LogOf(gd).Screen();
    last := 0;
    for yy := 0 to gd.sy
      invariant last <= yy && forall i :: last <= i < yy ==> s[i].used == 0
      invariant last > 0 ==> s[last - 1].used != 0
    {
      assert s[yy] == ViewOf(gd.Lines()[gd.hsize + yy]);
      if gd.linedata[gd.hsize + yy].cellused != 0 {
        last := yy + 1;
      }
    }
  }

  /** What `k` scrolls of the whole screen have done. */
  ghost predicate ScreenScrolled(g: Log, r: Log, k: nat, blank: View) {
    && g.Valid() && r.Valid() && r.sy == g.sy && r.hlimit == g.hlimit && k <= g.sy
    && r.Screen() == g.Screen()[k..] + Repeat(blank, k)
    && IsSuffix(r.History(), g.History() + g.Screen()[..k])
    && r.hsize == LengthAfter(g.hsize, g.hlimit, k)
  }

  lemma ScreenScrolledSizes(g: Log, r: Log, k: nat, blank: View)
    requires ScreenScrolled(g, r, k, blank)
    ensures r.sy == g.sy && r.hlimit == g.hlimit && (r.hsize <= Bound(g) || r.hsize == 1)
  {
    LengthBound(g.hsize, g.hlimit, k);
  }

  lemma {:induction false} LengthBound(hsize: nat, hlimit: nat, n: nat)
    ensures var r := LengthAfter(hsize, hlimit, n); r <= hsize || r <= hlimit || r == 1
  {
    if n > 0 {
      LengthBound(hsize, hlimit, n - 1);
    }
  }

  lemma ScreenScrolledNext(g: Log, r: Log, k: nat, blank: View)
    requires ScreenScrolled(g, r, k, blank) && k < g.sy
    ensures ScreenScrolled(g, ScrollUp(r, 0, g.sy - 1, blank), k + 1, blank)
  {
    hide ScrollUp, IsSuffix, Deleted, Repeat;
    var n := ScrollUp(r, 0, g.sy - 1, blank);
    ScrollUpStep(r, 0, g.sy - 1, blank);
    ScrollUpLength(r, 0, g.sy - 1, blank);
    assert Leaving(r, 0) == g.Screen()[k];
    NextHistory(g.History(), g.Screen(), k, r.History(), n.History());
    NextScreen(g.Screen(), k, blank);
  }

  lemma NextHistory(history: seq<View>, screen: seq<View>, k: nat, was: seq<View>, now: seq<View>)
    requires k < |screen| && IsSuffix(was, history + screen[..k]) && IsSuffix(now, was + [screen[k]])
    ensures IsSuffix(now, history + screen[..k + 1])
  {
    SuffixAppend(was, history + screen[..k], now, screen[k]);
    assert history + screen[..k + 1] == (history + screen[..k]) + [screen[k]];
  }

  lemma NextScreen(screen: seq<View>, k: nat, blank: View)
    requires k < |screen|
    ensures Deleted(screen[k..] + Repeat(blank, k), 0, |screen|, 1, blank) == screen[k + 1..] + Repeat(blank, k + 1)
  {
    var s := screen[k..] + Repeat(blank, k);
    assert Deleted(s, 0, |screen|, 1, blank) == s[1..] + [blank];
    assert Repeat(blank, k + 1) == Repeat(blank, k) + [blank];
  }

  /** The second loop of grid_view_clear_history. */
  method ScrollOut(gd: Grid, last: nat, bg: Colour)
    requires gd.Valid() && last <= gd.sy
    modifies gd`linedata, gd`hsize, gd`hscrolled, gd.linedata
    ensures gd.Valid() && ScreenScrolled(old(LogOf(gd)), LogOf(gd), last, BlankView(gd.sx, bg))
    ensures forall i :: 0 <= i < |gd.linedata| ==> gd.linedata[i] in old(gd.linedata) || fresh(gd.linedata[i])
  {
    hide ViewsOf, Distinct, AllValid, ViewOf, Line.Valid, Scrolled, Collected, ScreenScrolled;
    ghost var g := LogOf(gd);
    ScreenScrolledNone(g, BlankView(gd.sx, bg));
    for yy := 0 to last
      invariant gd.Valid() && ScreenScrolled(g, LogOf(gd), yy, BlankView(gd.sx, bg))
      invariant forall i :: 0 <= i < |gd.linedata| ==> gd.linedata[i] in old(gd.linedata) || fresh(gd.linedata[i])
    {
      ScreenScrolledNext(g, LogOf(gd), yy, BlankView(gd.sx, bg));
      CollectHistory(gd, false);
      ScrollHistory(gd, bg);
    }
  }

  lemma ScreenScrolledNone(g: Log, blank: View)
    requires g.Valid()
    ensures ScreenScrolled(g, g, 0, blank)
  {
    assert g.Screen()[0..] + Repeat(blank, 0) == g.Screen();
    assert g.History() + g.Screen()[..0] == g.History();
  }

  /** Clearing the rows of the screen that were never used, once the others have gone. */
  lemma RestCleared(g: Log, r: Log, last: nat, blank: View, vs: seq<View>)
    requires ScreenScrolled(g, r, last, blank) && |r.rows| < U32 && !blank.wrapped
    requires vs == if last < g.sy then ClearedLines(r.rows, r.hsize, g.sy - last, blank) else r.rows
    ensures |vs| == |r.rows| && Bare(vs[r.hsize..]) == Repeat(blank, g.sy)
    ensures IsSuffix(Bare(vs[..r.hsize]), Bare(g.History() + g.Screen()[..last]))
  {
    hide ClearedLines, IsSuffix, Bare;
    var n := g.sy - last;
    forall i | 0 <= i < |vs|
      ensures |vs| == |r.rows|
      ensures Plain(vs[i]) == if last < g.sy && r.hsize <= i < r.hsize + n then blank else Plain(r.rows[i])
    {
      if last < g.sy {
        ClearedAt(r.rows, r.hsize, 0, n, blank, i);
      }
    }
    RestBlank(g, r, last, blank, vs);
    BareSame(vs[..r.hsize], r.History());
    BareSuffix(r.History(), g.History() + g.Screen()[..last]);
  }

  function Plain(v: View): View {
    v.(wrapped := false)
  }

  lemma RestBlank(g: Log, r: Log, last: nat, blank: View, vs: seq<View>)
    requires ScreenScrolled(g, r, last, blank) && !blank.wrapped && |vs| == |r.rows|
    requires forall i :: 0 <= i < |vs| ==>
               Plain(vs[i]) == if last < g.sy && r.hsize <= i < r.hsize + (g.sy - last) then blank else Plain(r.rows[i])
    ensures Bare(vs[r.hsize..]) == Repeat(blank, g.sy)
  {
    hide IsSuffix;
    var n := g.sy - last;
    forall i | 0 <= i < g.sy
      ensures Plain(vs[r.hsize..][i]) == blank
    {
      assert vs[r.hsize..][i] == vs[r.hsize + i];
      assert r.Screen()[i] == r.rows[r.hsize + i];
      assert i >= n ==> r.Screen()[i] == blank;
    }
  }

  lemma BareSame(a: seq<View>, b: seq<View>)
    requires |a| == |b| && forall i :: 0 <= i < |a| ==> Plain(a[i]) == Plain(b[i])
    ensures Bare(a) == Bare(b)
  {
  }

  lemma BareSuffix(a: seq<View>, b: seq<View>)
    requires IsSuffix(a, b)
    ensures IsSuffix(Bare(a), Bare(b))
  {
    assert Bare(b)[|b| - |a|..] == Bare(a);
  }

  /** The history is the end of the old one followed by those rows, as long as their number
      makes it. */
  ghost predicate Kept(g: Log, r: Log, last: nat) {
    && g.Valid() && r.Valid() && last <= g.sy
    && IsSuffix(Bare(r.History()), Bare(g.History() + g.Screen()[..last]))
    && r.hsize == LengthAfter(g.hsize, g.hlimit, last)
  }

  /** The clear that ends grid_view_clear_history. */
  method ClearRest(gd: Grid, last: nat, bg: Colour, ghost g: Log)
    requires gd.Valid() && gd.sx >= 1 && gd.hsize + gd.sy < U32 && g.sy == gd.sy
    requires ScreenScrolled(g, LogOf(gd), last, BlankView(gd.sx, bg))
    modifies gd`linedata, gd.linedata
    ensures gd.Valid() && Bare(LogOf(gd).Screen()) == Repeat(BlankView(gd.sx, bg), gd.sy)
    ensures Kept(g, LogOf(gd), last)
  {
    hide ViewsOf, Distinct, AllValid, ViewOf, Line.Valid, Bare, IsSuffix, ClearedLines, LengthAfter, Repeat, ReadAll, SlotsOk, Emptied, Padded, UpTo;
    ghost var r := LogOf(gd);
    if last < gd.sy {
      ClearRows(gd, gd.hsize, gd.sy - last, bg);
    }
    RestCleared(g, r, last, BlankView(gd.sx, bg), ViewsOf(gd.Lines()));
  }

  lemma KeptScrolled(g: Log, r: Log, last: nat)
    requires Kept(g, r, last)
    ensures Kept(g, r.(hscrolled := 0), last) && r.(hscrolled := 0).Screen() == r.Screen()
  {
  }

  /** grid_view_clear_history: every row down to the last used one goes into history, and
      the screen is blank. */
  method ClearHistory(gd: Grid, bg: Colour) returns (last: nat)
    requires gd.Valid() && gd.sx >= 1
    requires gd.hsize + gd.sy < U32 && gd.hlimit + gd.sy < U32 && 1 + gd.sy < U32
    modifies gd`linedata, gd`hsize, gd`hscrolled, gd.linedata
    ensures gd.Valid() && Bare(LogOf(gd).Screen()) == Repeat(BlankView(gd.sx, bg), gd.sy)
    ensures UpTo(old(LogOf(gd)), last) && Kept(old(LogOf(gd)), LogOf(gd), last)
    ensures gd.hscrolled == if last == 0 then old(gd.hscrolled) else 0
  {
    hide ViewsOf, Distinct, AllValid, ViewOf, Line.Valid, Bare, UpTo, Kept, ScreenScrolled, Repeat, BlankView, LengthAfter, IsSuffix;
    ghost var g, blank := LogOf(gd), BlankView(gd.sx, bg);
    last := LastUsed(gd);
    if last == 0 {
      ScreenScrolledNone(g, blank);
      ClearRest(gd, 0, bg, g);
      return;
    }
    ScrollOut(gd, last, bg);
    ScreenScrolledSizes(g, LogOf(gd), last, blank);
    ClearRest(gd, last, bg, g);
    ghost var r := LogOf(gd);
    KeptScrolled(g, r, last);
    gd.hscrolled := 0;
    assert ViewsOf(gd.Lines()) == r.rows;
    assert LogOf(gd) == r.(hscrolled := 0);
  }
}

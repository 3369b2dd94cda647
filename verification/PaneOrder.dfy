/** Rotating the panes of a window and swapping two panes (cmd-rotate-window.c,
    cmd-swap-pane.c): panes change places while the cells of the layout, and the geometry
    that belongs to a place, stay. */
module PaneOrder {

  /** struct layout_cell, as far as it knows its pane. */
  class Cell {
    var wp: Pane?

    constructor ()
      ensures wp == null
    {
      wp := null;
    }
  }

  /** struct window_pane */
  class Pane {
    var cell: Cell?
    var xoff: nat
    var yoff: nat
    var sx: nat
    var sy: nat
    var window: Window?

    constructor ()
      ensures cell == null && window == null
    {
      cell, window := null, null;
      xoff, yoff, sx, sy := 0, 0, 0, 0;
    }

    /** What belongs to the place a pane is in. */
    ghost function Place(): Slot
      reads this
    {
      Slot(cell, xoff, yoff, sx, sy)
    }

    /** window_pane_resize */
    method Resize(sx: nat, sy: nat)
      modifies this`sx, this`sy
      ensures this.sx == sx && this.sy == sy
    {
      this.sx, this.sy := sx, sy;
    }
  }

  datatype Slot = Slot(cell: Cell?, xoff: nat, yoff: nat, sx: nat, sy: nat)

  /** struct window */
  class Window {
    var panes: seq<Pane>
    var active: Pane

    constructor (first: Pane)
      ensures panes == [first] && active == first
    {
      panes, active := [first], first;
    }

    /** Each pane is in the window once, knows the window, and the cell it has has it. */
    ghost predicate Valid()
      reads this, panes, CellsOf(Places(panes))
    {
      && Distinct(panes) && active in panes
      && (forall i :: 0 <= i < |panes| ==> panes[i].window == this)
      && (forall i :: 0 <= i < |panes| && panes[i].cell != null ==> panes[i].cell.wp == panes[i])
    }
  }

  ghost predicate Distinct(panes: seq<Pane>) {
    forall i, j :: 0 <= i < j < |panes| ==> panes[i] != panes[j]
  }

  ghost function Places(panes: seq<Pane>): (r: seq<Slot>)
    reads panes
    ensures |r| == |panes| && forall i :: 0 <= i < |panes| ==> r[i] == panes[i].Place()
  {
    seq(|panes|, i requires 0 <= i < |panes| reads panes => panes[i].Place())
  }

  ghost function CellsOf(slots: seq<Slot>): set<Cell> {
    set i | 0 <= i < |slots| && slots[i].cell != null :: slots[i].cell
  }

  lemma CellsIn(slots: seq<Slot>)
    ensures forall i :: 0 <= i < |slots| && slots[i].cell != null ==> slots[i].cell in CellsOf(slots)
  {
  }

  // ----- Rotation on values

  function Down<T>(s: seq<T>): (r: seq<T>)
    ensures |r| == |s|
  {
    if s == [] then [] else [s[|s| - 1]] + s[..|s| - 1]
  }

  function Up<T>(s: seq<T>): (r: seq<T>)
    ensures |r| == |s|
  {
    if s == [] then [] else s[1..] + [s[0]]
  }

  /** Each rotation undoes the other. */
  lemma DownUp<T>(s: seq<T>)
    ensures Up(Down(s)) == s && Down(Up(s)) == s
  {
  }

  function Downs<T>(s: seq<T>, n: nat): (r: seq<T>)
    ensures |r| == |s|
  {
    if n == 0 then s else Down(Downs(s, n - 1))
  }

  lemma DownLast<T>(a: seq<T>, b: seq<T>, x: T)
    ensures Down(a + (b + [x])) == [x] + a + b
  {
    var s := a + (b + [x]);
    assert s[|s| - 1] == x && s[..|s| - 1] == a + b;
  }

  lemma CutAt<T>(s: seq<T>, k: nat)
    requires k < |s|
    ensures s[..k + 1] == s[..k] + [s[k]] && s[k..] == [s[k]] + s[k + 1..]
  {
  }

  lemma DownOne<T>(s: seq<T>, k: nat)
    requires k < |s|
    ensures Down(s[k + 1..] + s[..k + 1]) == s[k..] + s[..k]
  {
    hide Down;
    CutAt(s, k);
    DownLast(s[k + 1..], s[..k], s[k]);
  }

  /** After n rotations down the last n panes stand in front. */
  lemma {:induction false} DownsAre<T>(s: seq<T>, n: nat)
    requires n <= |s|
    ensures Downs(s, n) == s[|s| - n..] + s[..|s| - n]
  {
    hide Down;
    if n == 0 {
      assert s[|s|..] + s[..|s|] == s;
    } else {
      DownsAre(s, n - 1);
      DownOne(s, |s| - n);
    }
  }

  /** As many rotations as there are panes bring every one back. */
  lemma FullCircle<T>(s: seq<T>)
    ensures Downs(s, |s|) == s
  {
    DownsAre(s, |s|);
  }

  // ----- Rotation in place

  /** What one pane takes over from another: its place. */
  method TakePlace(wp: Pane, place: Slot)
    modifies wp`cell, wp`xoff, wp`yoff, wp`sx, wp`sy, place.cell
    ensures wp.Place() == place
    ensures place.cell != null ==> place.cell.wp == wp
  {
    wp.cell := place.cell;
    if wp.cell != null {
      wp.cell.wp := wp;
    }
    wp.xoff, wp.yoff := place.xoff, place.yoff;
    wp.Resize(place.sx, place.sy);
  }

  /** No cell belongs to two places. */
  ghost predicate Apart(slots: seq<Slot>) {
    forall i, j :: 0 <= i < j < |slots| && slots[i].cell != null ==> slots[i].cell != slots[j].cell
  }

  /** Each pane is in its place, and the place's cell has it. */
  ghost predicate Settled(panes: seq<Pane>, slots: seq<Slot>)
    requires |panes| == |slots|
    reads panes, CellsOf(slots)
  {
    forall k {:trigger panes[k]} :: 0 <= k < |panes| ==>
      panes[k].Place() == slots[k] && (slots[k].cell != null ==> slots[k].cell.wp == panes[k])
  }

  lemma WindowSettled(w: Window)
    requires w.Valid()
    ensures Settled(w.panes, Places(w.panes)) && Apart(Places(w.panes)) && w.panes != []
  {
  }

  /** The loop of a rotation down: every pane but the last takes the place of the next one,
      and the last the place that was the first one's. */
  method ShiftDown(panes: seq<Pane>, ghost slots: seq<Slot>)
    requires |panes| == |slots| > 0 && Distinct(panes) && Apart(slots)
    requires panes[0].Place() == slots[|slots| - 1]
    requires forall k {:trigger panes[k]} :: 0 < k < |panes| ==> panes[k].Place() == slots[k - 1]
    modifies panes, CellsOf(slots)
    ensures Settled(panes, slots)
    ensures forall k :: 0 <= k < |panes| ==> panes[k].window == old(panes[k].window)
  {
    var n := |panes|;
    var wp := panes[0];
    var first := Slot(wp.cell, wp.xoff, wp.yoff, wp.sx, wp.sy);
    CellsIn(slots);
    hide CellsOf;
    var i := 0;
    while i + 1 < n
      invariant 0 <= i < n
      invariant forall k :: 0 <= k < n ==> panes[k].window == old(panes[k].window)
      invariant forall k {:trigger panes[k]} :: 0 <= k < i ==>
                  panes[k].Place() == slots[k] && (slots[k].cell != null ==> slots[k].cell.wp == panes[k])
      invariant forall k :: i <= k < n ==> panes[k].Place() == old(panes[k].Place())
    {
      var wp2 := panes[i + 1];
      assert wp2.Place() == slots[i];
      TakePlace(panes[i], Slot(wp2.cell, wp2.xoff, wp2.yoff, wp2.sx, wp2.sy));
      i := i + 1;
    }
    TakePlace(panes[i], first);
  }

  /** The loop of a rotation up: every pane but the first takes the place of the one before,
      and the first the place that was the last one's. */
  method ShiftUp(panes: seq<Pane>, ghost slots: seq<Slot>)
    requires |panes| == |slots| > 0 && Distinct(panes) && Apart(slots)
    requires panes[|panes| - 1].Place() == slots[0]
    requires forall k {:trigger panes[k]} :: 0 <= k < |panes| - 1 ==> panes[k].Place() == slots[k + 1]
    modifies panes, CellsOf(slots)
    ensures Settled(panes, slots)
    ensures forall k :: 0 <= k < |panes| ==> panes[k].window == old(panes[k].window)
  {
    var n := |panes|;
    var wp := panes[n - 1];
    var last := Slot(wp.cell, wp.xoff, wp.yoff, wp.sx, wp.sy);
    CellsIn(slots);
    hide CellsOf;
    var i := n - 1;
    while i > 0
      invariant 0 <= i < n
      invariant forall k :: 0 <= k < n ==> panes[k].window == old(panes[k].window)
      invariant forall k {:trigger panes[k]} :: i < k < n ==>
                  panes[k].Place() == slots[k] && (slots[k].cell != null ==> slots[k].cell.wp == panes[k])
      invariant forall k :: 0 <= k <= i ==> panes[k].Place() == old(panes[k].Place())
    {
      var wp2 := panes[i - 1];
      assert wp2.Place() == slots[i];
      TakePlace(panes[i], Slot(wp2.cell, wp2.xoff, wp2.yoff, wp2.sx, wp2.sy));
      i := i - 1;
    }
    TakePlace(panes[0], last);
  }

  lemma DownDistinct(panes: seq<Pane>)
    requires Distinct(panes)
    ensures Distinct(Down(panes)) && Distinct(Up(panes))
    ensures forall p :: p in Down(panes) <==> p in panes
    ensures forall p :: p in Up(panes) <==> p in panes
  {
    if panes != [] {
      LastApartFrom(panes);
      FirstApartFrom(panes);
    }
  }

  lemma LastApartFrom(panes: seq<Pane>)
    requires panes != []
    ensures forall p :: p in panes <==> p in panes[..|panes| - 1] || p == panes[|panes| - 1]
  {
    assert panes == panes[..|panes| - 1] + [panes[|panes| - 1]];
  }

  lemma FirstApartFrom(panes: seq<Pane>)
    requires panes != []
    ensures forall p :: p in panes <==> p in panes[1..] || p == panes[0]
  {
    assert panes == [panes[0]] + panes[1..];
  }

  /** A window whose panes are settled in their places again. */
  lemma SettledValid(w: Window, slots: seq<Slot>)
    requires |w.panes| == |slots| && Settled(w.panes, slots) && Distinct(w.panes) && w.active in w.panes
    requires forall k :: 0 <= k < |w.panes| ==> w.panes[k].window == w
    ensures w.Valid() && Places(w.panes) == slots
  {
  }

  lemma DownReady(was: seq<Pane>, slots: seq<Slot>)
    requires Places(was) == slots && was != []
    ensures Down(was)[0].Place() == slots[|slots| - 1]
    ensures forall k {:trigger Down(was)[k]} :: 0 < k < |was| ==> Down(was)[k].Place() == slots[k - 1]
  {
  }

  lemma UpReady(was: seq<Pane>, slots: seq<Slot>)
    requires Places(was) == slots && was != []
    ensures Up(was)[|was| - 1].Place() == slots[0]
    ensures forall k {:trigger Up(was)[k]} :: 0 <= k < |was| - 1 ==> Up(was)[k].Place() == slots[k + 1]
  {
  }

  lemma DownPlace(was: seq<Pane>, p: Pane, k: nat)
    requires Distinct(was) && k < |was| && Down(was)[k] == p
    ensures forall j :: 0 <= j < |was| && was[j] == p ==> j == if k > 0 then k - 1 else |was| - 1
  {
    assert was[if k > 0 then k - 1 else |was| - 1] == p;
  }

  lemma UpPlace(was: seq<Pane>, p: Pane, k: nat)
    requires Distinct(was) && k < |was| && Up(was)[k] == p
    ensures forall j :: 0 <= j < |was| && was[j] == p ==> j == if k + 1 < |was| then k + 1 else 0
  {
    assert was[if k + 1 < |was| then k + 1 else 0] == p;
  }

  /** TAILQ_REMOVE of the last pane and TAILQ_INSERT_HEAD */
  method LastToHead(w: Window)
    requires w.panes != []
    modifies w`panes
    ensures w.panes == Down(old(w.panes))
  {
    var n := |w.panes|;
    var wp := w.panes[n - 1];
    w.panes := w.panes[..n - 1];
    w.panes := [wp] + w.panes;
  }

  /** TAILQ_REMOVE of the first pane and TAILQ_INSERT_TAIL */
  method HeadToLast(w: Window)
    requires w.panes != []
    modifies w`panes
    ensures w.panes == Up(old(w.panes))
  {
    var wp := w.panes[0];
    w.panes := w.panes[1..];
    w.panes := w.panes + [wp];
  }

  /** The pane before the active one becomes active: it stands where the active one stood. */
  method ActivateBefore(w: Window, ghost was: seq<Pane>)
    requires w.panes == Down(was) && Distinct(was) && w.active in w.panes
    modifies w`active
    ensures w.active in w.panes
    ensures forall k :: 0 <= k < |was| && was[k] == old(w.active) ==> w.active == w.panes[k]
  {
    hide Down, Distinct;
    var n := |w.panes|;
    var k := Find(w.panes, w.active);
    DownPlace(was, w.active, k);
    w.active := w.panes[if k > 0 then k - 1 else n - 1];
  }

  method ActivateAfter(w: Window, ghost was: seq<Pane>)
    requires w.panes == Up(was) && Distinct(was) && w.active in w.panes
    modifies w`active
    ensures w.active in w.panes
    ensures forall k :: 0 <= k < |was| && was[k] == old(w.active) ==> w.active == w.panes[k]
  {
    hide Up, Distinct;
    var n := |w.panes|;
    var k := Find(w.panes, w.active);
    UpPlace(was, w.active, k);
    w.active := w.panes[if k + 1 < n then k + 1 else 0];
  }

  /** cmd_rotate_window_exec with -D: the last pane comes first, places stay as they are, and
      the pane now in the active place is the active one. */
  method RotateDown(w: Window)
    requires w.Valid()
    modifies w, w.panes, CellsOf(Places(w.panes))
    ensures w.Valid() && w.panes == Down(old(w.panes)) && Places(w.panes) == old(Places(w.panes))
    ensures forall k :: 0 <= k < |w.panes| && old(w.panes)[k] == old(w.active) ==> w.active == w.panes[k]
  {
    ghost var was, slots := w.panes, Places(w.panes);
    WindowSettled(w);
    DownDistinct(was);
    LastToHead(w);
    hide Down, Settled, Apart, Distinct, Places, CellsOf, Window.Valid;
    DownReady(was, slots);
    ShiftDown(w.panes, slots);
    ActivateBefore(w, was);
    SettledValid(w, slots);
  }

  /** cmd_rotate_window_exec without -D: the first pane goes last. */
  method RotateUp(w: Window)
    requires w.Valid()
    modifies w, w.panes, CellsOf(Places(w.panes))
    ensures w.Valid() && w.panes == Up(old(w.panes)) && Places(w.panes) == old(Places(w.panes))
    ensures forall k :: 0 <= k < |w.panes| && old(w.panes)[k] == old(w.active) ==> w.active == w.panes[k]
  {
    ghost var was, slots := w.panes, Places(w.panes);
    WindowSettled(w);
    DownDistinct(was);
    HeadToLast(w);
    hide Up, Settled, Apart, Distinct, Places, CellsOf, Window.Valid;
    UpReady(was, slots);
    ShiftUp(w.panes, slots);
    ActivateAfter(w, was);
    SettledValid(w, slots);
  }

  /** Where a pane is in a list. */
  method Find(panes: seq<Pane>, p: Pane) returns (k: nat)
    requires p in panes
    ensures k < |panes| && panes[k] == p
  {
    k := 0;
    while panes[k] != p
      invariant exists j :: k <= j < |panes| && panes[j] == p
      decreases |panes| - k
    {
      k := k + 1;
    }
  }

  /** The list and the places are all there is to it, so a rotation down and one up leave
      every pane where it was. */
  method DownThenUp(w: Window)
    requires w.Valid()
    modifies w, w.panes, CellsOf(Places(w.panes))
    ensures w.Valid() && w.panes == old(w.panes) && w.active == old(w.active)
    ensures forall i :: 0 <= i < |w.panes| ==> w.panes[i].Place() == old(w.panes[i].Place())
  {
    ghost var was, slots := w.panes, Places(w.panes);
    DownUp(was);
    RotateDown(w);
    SameCells(w.panes, slots);
    RotateUp(w);
    assert forall i :: 0 <= i < |was| ==> Places(w.panes)[i] == slots[i];
  }

  lemma SameCells(panes: seq<Pane>, slots: seq<Slot>)
    requires Places(panes) == slots
    ensures forall i :: 0 <= i < |panes| ==> panes[i].cell == slots[i].cell
  {
  }

  // ----- Swapping

  function Without<T(==)>(s: seq<T>, x: T): seq<T> {
    if s == [] then [] else if s[0] == x then s[1..] else [s[0]] + Without(s[1..], x)
  }

  /** TAILQ_REPLACE */
  function Replaced<T(==)>(s: seq<T>, x: T, y: T): seq<T> {
    if s == [] then [] else if s[0] == x then [y] + s[1..] else [s[0]] + Replaced(s[1..], x, y)
  }

  /** TAILQ_INSERT_AFTER */
  function InsertAfter<T(==)>(s: seq<T>, after: T, x: T): seq<T> {
    if s == [] then [] else if s[0] == after then [after, x] + s[1..] else [s[0]] + InsertAfter(s[1..], after, x)
  }

  lemma {:induction false} WithoutAt<T>(a: seq<T>, x: T, b: seq<T>)
    requires x !in a
    ensures Without(a + [x] + b, x) == a + b
  {
    if a == [] {
      assert a + [x] + b == [x] + b && a + b == b;
      assert ([x] + b)[1..] == b;
    } else {
      WithoutAt(a[1..], x, b);
      assert (a + [x] + b)[1..] == a[1..] + [x] + b;
      assert a + b == [a[0]] + (a[1..] + b);
    }
  }

  lemma {:induction false} ReplacedAt<T>(a: seq<T>, x: T, b: seq<T>, y: T)
    requires x !in a
    ensures Replaced(a + [x] + b, x, y) == a + [y] + b
  {
    if a == [] {
      assert a + [x] + b == [x] + b && a + [y] + b == [y] + b;
      assert ([x] + b)[1..] == b;
    } else {
      ReplacedAt(a[1..], x, b, y);
      assert (a + [x] + b)[1..] == a[1..] + [x] + b;
      assert a + [y] + b == [a[0]] + (a[1..] + [y] + b);
    }
  }

  lemma {:induction false} InsertAfterAt<T>(a: seq<T>, x: T, b: seq<T>, y: T)
    requires x !in a
    ensures InsertAfter(a + [x] + b, x, y) == a + [x] + [y] + b
  {
    if a == [] {
      assert a + [x] + b == [x] + b && a + [x] + [y] + b == [x, y] + b;
      assert ([x] + b)[1..] == b;
    } else {
      InsertAfterAt(a[1..], x, b, y);
      assert (a + [x] + b)[1..] == a[1..] + [x] + b;
      assert a + [x] + [y] + b == [a[0]] + (a[1..] + [x] + [y] + b);
    }
  }

  /** The pane before another in a list, or none: TAILQ_PREV. */
  method Before(panes: seq<Pane>, p: Pane) returns (r: Pane?, ghost k: nat)
    requires p in panes
    ensures k < |panes| && panes[k] == p && r == if k > 0 then panes[k - 1] else null
  {
    var at := Find(panes, p);
    k := at;
    r := if at > 0 then panes[at - 1] else null;
  }

  /** A list with the panes at two places exchanged. */
  function Exchanged<T>(s: seq<T>, i: nat, j: nat): (r: seq<T>)
    requires i < |s| && j < |s|
    ensures |r| == |s|
  {
    s[i := s[j]][j := s[i]]
  }

  lemma ExchangeTwice<T>(s: seq<T>, i: nat, j: nat)
    requires i < |s| && j < |s|
    ensures Exchanged(Exchanged(s, i, j), i, j) == s
  {
  }

  /** The list surgery of cmd_swap_pane_exec within one list: `before` is the pane before
      the target, if any. */
  function Surgery<T(==)>(s: seq<T>, src: T, dst: T, first: bool, before: T): seq<T> {
    var r := Replaced(Without(s, dst), src, dst);
    if first then [src] + r else InsertAfter(r, if before == src then dst else before, src)
  }

  predicate AllDifferent<T(==)>(s: seq<T>) {
    forall x, y :: 0 <= x < y < |s| ==> s[x] != s[y]
  }

  lemma InsertLast<T>(a: seq<T>, b: seq<T>, c: seq<T>, src: T)
    requires b != [] && b[|b| - 1] !in a && b[|b| - 1] !in b[..|b| - 1]
    ensures InsertAfter(a + b + c, b[|b| - 1], src) == a + b + [src] + c
  {
    hide InsertAfter;
    var last, front := b[|b| - 1], a + b[..|b| - 1];
    assert a + b + c == front + [last] + c;
    InsertAfterAt(front, last, c, src);
    assert front + [last] + [src] + c == a + b + [src] + c;
  }

  /** The target after the source. */
  lemma ForwardParts<T>(a: seq<T>, src: T, b: seq<T>, dst: T, c: seq<T>)
    requires src != dst && src !in a && src !in b && dst !in a && dst !in b
    requires b != [] ==> b[|b| - 1] !in a && b[|b| - 1] !in b[..|b| - 1]
    ensures Surgery(a + [src] + b + [dst] + c, src, dst, false, if b == [] then src else b[|b| - 1])
            == a + [dst] + b + [src] + c
  {
    hide Without, Replaced, InsertAfter;
    WithoutAt(a + [src] + b, dst, c);
    assert a + [src] + b + c == a + [src] + (b + c);
    ReplacedAt(a, src, b + c, dst);
    if b == [] {
      assert b + c == c;
      InsertAfterAt(a, dst, c, src);
      assert a + [dst] + [src] + c == a + [dst] + b + [src] + c;
    } else {
      InsertLast(a + [dst], b, c, src);
      assert a + [dst] + (b + c) == a + [dst] + b + c;
    }
  }

  /** The target before the source. */
  lemma BackwardParts<T>(a: seq<T>, dst: T, b: seq<T>, src: T, c: seq<T>, any: T)
    requires src != dst && src !in a && src !in b && dst !in a && dst !in b
    requires a != [] ==> a[|a| - 1] !in a[..|a| - 1]
    ensures Surgery(a + [dst] + b + [src] + c, src, dst, a == [], if a == [] then any else a[|a| - 1])
            == a + [src] + b + [dst] + c
  {
    hide Without, Replaced, InsertAfter;
    assert a + [dst] + b + [src] + c == a + [dst] + (b + [src] + c);
    WithoutAt(a, dst, b + [src] + c);
    assert a + (b + [src] + c) == (a + b) + [src] + c;
    ReplacedAt(a + b, src, c, dst);
    if a == [] {
      assert [src] + (a + b + [dst] + c) == a + [src] + b + [dst] + c;
    } else {
      InsertLast([], a, b + [dst] + c, src);
      assert [] + a + (b + [dst] + c) == a + b + [dst] + c;
      assert [] + a + [src] + (b + [dst] + c) == a + [src] + b + [dst] + c;
      assert a[|a| - 1] in a;
    }
  }

  lemma SurgeryForward<T>(s: seq<T>, i: nat, j: nat)
    requires i < j < |s| && AllDifferent(s)
    ensures Surgery(s, s[i], s[j], false, s[j - 1]) == Exchanged(s, i, j)
  {
    hide Surgery;
    var a, b, c := s[..i], s[i + 1..j], s[j + 1..];
    ForwardParts(a, s[i], b, s[j], c);
    assert a + [s[i]] + b + [s[j]] + c == s;
    assert a + [s[j]] + b + [s[i]] + c == Exchanged(s, i, j);
  }

  lemma SurgeryBackward<T>(s: seq<T>, i: nat, j: nat)
    requires j < i < |s| && AllDifferent(s)
    ensures Surgery(s, s[i], s[j], j == 0, s[if j > 0 then j - 1 else 0]) == Exchanged(s, i, j)
  {
    hide Surgery;
    var a, b, c := s[..j], s[j + 1..i], s[i + 1..];
    BackwardParts(a, s[j], b, s[i], c, s[0]);
    assert a + [s[j]] + b + [s[i]] + c == s;
    assert a + [s[i]] + b + [s[j]] + c == Exchanged(s, i, j);
  }

  /** Within one list two panes change places, next to each other or not, first and last
      places included. */
  lemma SurgeryExchanges<T>(s: seq<T>, i: nat, j: nat)
    requires i < |s| && j < |s| && i != j && AllDifferent(s)
    ensures Surgery(s, s[i], s[j], j == 0, s[if j > 0 then j - 1 else 0]) == Exchanged(s, i, j)
  {
    if i < j {
      SurgeryForward(s, i, j);
    } else {
      SurgeryBackward(s, i, j);
    }
  }

  lemma Parts<T>(s: seq<T>, i: nat)
    requires i < |s|
    ensures s[..i] + [s[i]] + s[i + 1..] == s
  {
  }

  lemma PartsSet<T>(s: seq<T>, i: nat, y: T)
    requires i < |s|
    ensures s[..i] + [y] + s[i + 1..] == s[i := y]
  {
  }

  lemma ApartIn<T>(s: seq<T>, i: nat)
    requires i < |s| && AllDifferent(s)
    ensures s[i] !in s[..i]
  {
  }

  lemma ReplaceAt<T>(s: seq<T>, i: nat, y: T)
    requires i < |s| && AllDifferent(s)
    ensures Replaced(s, s[i], y) == s[i := y]
  {
    hide Replaced, AllDifferent;
    ApartIn(s, i);
    ReplacedAt(s[..i], s[i], s[i + 1..], y);
    Parts(s, i);
    PartsSet(s, i, y);
  }

  lemma BetweenParts<T>(a: seq<T>, dst: T, c: seq<T>, src: T)
    requires dst !in a && (a != [] ==> a[|a| - 1] !in a[..|a| - 1])
    ensures (if a == [] then [src] + Without(a + [dst] + c, dst) else InsertAfter(Without(a + [dst] + c, dst), a[|a| - 1], src))
            == a + [src] + c
  {
    hide Without, InsertAfter;
    WithoutAt(a, dst, c);
    if a == [] {
      assert [src] + (a + c) == a + [src] + c;
    } else {
      InsertLast([], a, c, src);
      assert [] + a + c == a + c && [] + a + [src] + c == a + [src] + c;
    }
  }

  /** With two lists each gets the other's pane in the same place. */
  lemma SurgeryBetween<T>(t: seq<T>, j: nat, src: T)
    requires j < |t| && AllDifferent(t)
    ensures (if j == 0 then [src] + Without(t, t[j]) else InsertAfter(Without(t, t[j]), t[j - 1], src)) == t[j := src]
  {
    hide Without, InsertAfter, AllDifferent;
    ApartIn(t, j);
    LastApart(t, j);
    BetweenParts(t[..j], t[j], t[j + 1..], src);
    Parts(t, j);
    PartsSet(t, j, src);
  }

  lemma LastApart<T>(t: seq<T>, j: nat)
    requires j < |t| && AllDifferent(t)
    ensures j > 0 ==> t[..j][j - 1] !in t[..j][..j - 1] && t[..j][j - 1] == t[j - 1]
  {
  }

  /** The list surgery of cmd_swap_pane_exec. */
  method SwapLists(srcW: Window, src: Pane, dstW: Window, dst: Pane) returns (ghost i: nat, ghost j: nat)
    requires Distinct(srcW.panes) && Distinct(dstW.panes) && src in srcW.panes && dst in dstW.panes && src != dst
    requires srcW != dstW ==> src !in dstW.panes && dst !in srcW.panes
    modifies srcW`panes, dstW`panes
    ensures i < |old(srcW.panes)| && j < |old(dstW.panes)| && old(srcW.panes)[i] == src && old(dstW.panes)[j] == dst
    ensures if srcW == dstW then srcW.panes == Exchanged(old(srcW.panes), i, j)
            else srcW.panes == old(srcW.panes)[i := dst] && dstW.panes == old(dstW.panes)[j := src]
  {
    hide Without, Replaced, InsertAfter;
    ghost var s, t := srcW.panes, dstW.panes;
    i := IndexOf(s, src);
    var tmp;
    tmp, j := Before(dstW.panes, dst);
    if srcW == dstW {
      SurgeryExchanges(s, i, j);
    } else {
      ReplaceAt(s, i, dst);
      SurgeryBetween(t, j, src);
    }
    dstW.panes := Without(dstW.panes, dst);
    srcW.panes := Replaced(srcW.panes, src, dst);
    if tmp == src {
      tmp := dst;
    }
    if tmp == null {
      dstW.panes := [src] + dstW.panes;
    } else {
      var after: Pane := tmp;
      dstW.panes := InsertAfter(dstW.panes, after, src);
    }
  }

  ghost function IndexOf(panes: seq<Pane>, p: Pane): (k: nat)
    requires p in panes
    ensures k < |panes| && panes[k] == p
  {
    var k :| 0 <= k < |panes| && panes[k] == p;
    k
  }

  /** The exchange of cells, windows and geometry of cmd_swap_pane_exec. */
  method ExchangePlaces(src: Pane, dst: Pane, srcW: Window, dstW: Window)
    requires src != dst && src.cell != null && dst.cell != null && src.cell != dst.cell
    modifies src, dst, src.cell, dst.cell
    ensures src.Place() == old(dst.Place()) && dst.Place() == old(src.Place())
    ensures src.cell != null && src.cell.wp == src && dst.cell != null && dst.cell.wp == dst
    ensures src.window == dstW && dst.window == srcW
  {
    var src_lc, dst_lc := src.cell, dst.cell;
    src_lc.wp := dst;
    dst.cell := src_lc;
    dst_lc.wp := src;
    src.cell := dst_lc;
    src.window := dstW;
    dst.window := srcW;
    var sx, sy, xoff, yoff := src.sx, src.sy, src.xoff, src.yoff;
    src.xoff, src.yoff := dst.xoff, dst.yoff;
    src.Resize(dst.sx, dst.sy);
    dst.xoff, dst.yoff := xoff, yoff;
    dst.Resize(sx, sy);
  }

  /** Which panes are active after a swap; `d` is the -d flag. */
  method Activate(srcW: Window, src: Pane, dstW: Window, dst: Pane, d: bool)
    modifies srcW`active, dstW`active
    ensures !d && srcW != dstW ==> srcW.active == dst && dstW.active == src
    ensures !d && srcW == dstW ==> srcW.active == dst
    ensures d && srcW != dstW ==>
              && srcW.active == (if old(srcW.active) == src then dst else old(srcW.active))
              && dstW.active == (if old(dstW.active) == dst then src else old(dstW.active))
    ensures d && srcW == dstW ==> srcW.active == if old(srcW.active) == dst then src else old(srcW.active)
  {
    if !d {
      srcW.active := dst;
      if srcW != dstW {
        dstW.active := src;
      }
    } else {
      if srcW.active == src {
        srcW.active := dst;
      }
      if dstW.active == dst {
        dstW.active := src;
      }
    }
  }

  /** Every place is as `slots` has it, and the pane in it belongs there. */
  ghost predicate Placed(panes: seq<Pane>, w: Window, slots: seq<Slot>)
    reads panes, CellsOf(Places(panes))
  {
    && |panes| == |slots| && Distinct(panes)
    && (forall k {:trigger panes[k]} :: 0 <= k < |panes| ==> panes[k].window == w && panes[k].Place() == slots[k])
    && (forall k {:trigger panes[k]} :: 0 <= k < |panes| && panes[k].cell != null ==> panes[k].cell.wp == panes[k])
  }

  lemma PlacedValid(w: Window, slots: seq<Slot>)
    requires Placed(w.panes, w, slots) && w.active in w.panes
    ensures w.Valid() && Places(w.panes) == slots
  {
  }

  lemma ExchangedMembers(s: seq<Pane>, i: nat, j: nat)
    requires i < |s| && j < |s|
    ensures forall p :: p in s ==> p in Exchanged(s, i, j)
  {
    var r := Exchanged(s, i, j);
    forall p | p in s
      ensures p in r
    {
      var k :| 0 <= k < |s| && s[k] == p;
      assert r[if k == i then j else if k == j then i else k] == p;
    }
  }

  lemma UpdatedMembers(s: seq<Pane>, i: nat, y: Pane)
    requires i < |s|
    ensures y in s[i := y] && forall p :: p in s && p != s[i] ==> p in s[i := y]
  {
    var r := s[i := y];
    assert r[i] == y;
    forall p | p in s && p != s[i]
      ensures p in r
    {
      var k :| 0 <= k < |s| && s[k] == p;
      assert r[k] == p;
    }
  }

  lemma SwapMembers(was: seq<Pane>, wasD: seq<Pane>, i: nat, j: nat, src: Pane, dst: Pane)
    requires i < |was| && j < |wasD| && was[i] == src && wasD[j] == dst
    ensures j < |was| ==> forall p :: p in was ==> p in Exchanged(was, i, j)
    ensures dst in was[i := dst] && forall p :: p in was && p != src ==> p in was[i := dst]
    ensures src in wasD[j := src] && forall p :: p in wasD && p != dst ==> p in wasD[j := src]
  {
    if j < |was| {
      ExchangedMembers(was, i, j);
    }
    UpdatedMembers(was, i, dst);
    UpdatedMembers(wasD, j, src);
  }

  lemma SwapDistinct(was: seq<Pane>, wasD: seq<Pane>, now: seq<Pane>, nowD: seq<Pane>, i: nat, j: nat, same: bool)
    requires Distinct(was) && Distinct(wasD) && i < |was| && j < |wasD|
    requires if same then wasD == was && now == nowD == Exchanged(was, i, j)
             else now == was[i := wasD[j]] && nowD == wasD[j := was[i]] && wasD[j] !in was && was[i] !in wasD
    ensures Distinct(now) && Distinct(nowD)
    ensures |now| == |was| && |nowD| == |wasD|
    ensures forall k {:trigger now[k]} :: 0 <= k < |now| ==>
              now[k] == if k == i then wasD[j] else if same && k == j then was[i] else was[k]
    ensures forall k {:trigger nowD[k]} :: 0 <= k < |nowD| ==>
              nowD[k] == if k == j then was[i] else if same && k == i then wasD[j] else wasD[k]
    ensures forall k {:trigger was[k]} :: 0 <= k < |was| && k != i && (!same || k != j) ==> was[k] != was[i] && was[k] != wasD[j]
    ensures forall k {:trigger wasD[k]} :: 0 <= k < |wasD| && k != j && (!same || k != i) ==> wasD[k] != was[i] && wasD[k] != wasD[j]
  {
  }

  /** The list surgery and the exchange of places: both windows have their places as before,
      each with the other's pane in one of them. */
  method MovePanes(srcW: Window, src: Pane, dstW: Window, dst: Pane) returns (ghost i: nat, ghost j: nat)
    requires srcW.Valid() && dstW.Valid() && src in srcW.panes && dst in dstW.panes && src != dst
    requires src.cell != null && dst.cell != null
    modifies srcW`panes, dstW`panes, src, dst, src.cell, dst.cell
    ensures i < |old(srcW.panes)| && j < |old(dstW.panes)| && old(srcW.panes)[i] == src && old(dstW.panes)[j] == dst
    ensures if srcW == dstW then srcW.panes == Exchanged(old(srcW.panes), i, j)
            else srcW.panes == old(srcW.panes)[i := dst] && dstW.panes == old(dstW.panes)[j := src]
    ensures Placed(srcW.panes, srcW, old(Places(srcW.panes))) && Placed(dstW.panes, dstW, old(Places(dstW.panes)))
    ensures src.window == dstW && dst.window == srcW && src.cell == old(dst.cell) && dst.cell == old(src.cell)
  {
    ghost var was, slots, wasD, slotsD := srcW.panes, Places(srcW.panes), dstW.panes, Places(dstW.panes);
    SwapApart(srcW, src, dstW, dst);
    i, j := SwapLists(srcW, src, dstW, dst);
    ghost var now, nowD := srcW.panes, dstW.panes;
    SwapDistinct(was, wasD, now, nowD, i, j, srcW == dstW);
    hide CellsOf, Distinct, Exchanged;
    ExchangePlaces(src, dst, srcW, dstW);
  }

  /** cmd_swap_pane_exec from the list surgery to the choice of active panes, for panes that
      are in a layout. */
  method SwapPanes(srcW: Window, src: Pane, dstW: Window, dst: Pane, d: bool) returns (ghost i: nat, ghost j: nat)
    requires srcW.Valid() && dstW.Valid() && src in srcW.panes && dst in dstW.panes && src != dst
    requires src.cell != null && dst.cell != null
    modifies srcW, dstW, src, dst, src.cell, dst.cell
    ensures srcW.Valid() && dstW.Valid()
    ensures i < |old(srcW.panes)| && j < |old(dstW.panes)| && old(srcW.panes)[i] == src && old(dstW.panes)[j] == dst
    ensures if srcW == dstW then srcW.panes == Exchanged(old(srcW.panes), i, j)
            else srcW.panes == old(srcW.panes)[i := dst] && dstW.panes == old(dstW.panes)[j := src]
    ensures Places(srcW.panes) == old(Places(srcW.panes)) && Places(dstW.panes) == old(Places(dstW.panes))
    ensures src.window == dstW && dst.window == srcW && src.cell == old(dst.cell) && dst.cell == old(src.cell)
    ensures !d ==> srcW.active == dst && (srcW != dstW ==> dstW.active == src)
    ensures d && srcW == dstW ==> srcW.active == if old(srcW.active) == dst then src else old(srcW.active)
    ensures d && srcW != dstW ==>
              && srcW.active == (if old(srcW.active) == src then dst else old(srcW.active))
              && dstW.active == (if old(dstW.active) == dst then src else old(dstW.active))
  {
    hide CellsOf, Distinct, Exchanged, Places;
    ghost var was, slots, wasD, slotsD := srcW.panes, Places(srcW.panes), dstW.panes, Places(dstW.panes);
    ActiveIn(srcW);
    ActiveIn(dstW);
    i, j := MovePanes(srcW, src, dstW, dst);
    SwapMembers(was, wasD, i, j, src, dst);
    Activate(srcW, src, dstW, dst, d);
    PlacedValid(srcW, slots);
    PlacedValid(dstW, slotsD);
  }

  lemma ActiveIn(w: Window)
    requires w.Valid()
    ensures w.active in w.panes
  {
  }

  lemma SwapApart(srcW: Window, src: Pane, dstW: Window, dst: Pane)
    requires srcW.Valid() && dstW.Valid() && src in srcW.panes && dst in dstW.panes && src != dst
    requires src.cell != null && dst.cell != null
    ensures src.cell != dst.cell && (srcW != dstW ==> src !in dstW.panes && dst !in srcW.panes)
    ensures forall k {:trigger srcW.panes[k]} :: 0 <= k < |srcW.panes| && srcW.panes[k] != src && srcW.panes[k] != dst ==>
              srcW.panes[k].cell != src.cell && srcW.panes[k].cell != dst.cell
    ensures forall k {:trigger dstW.panes[k]} :: 0 <= k < |dstW.panes| && dstW.panes[k] != src && dstW.panes[k] != dst ==>
              dstW.panes[k].cell != src.cell && dstW.panes[k].cell != dst.cell
  {
  }

  lemma DistinctOf(w: Window)
    requires w.Valid()
    ensures Distinct(w.panes) && forall k :: 0 <= k < |w.panes| ==> w.panes[k].window == w
  {
  }

  lemma SameIndex(panes: seq<Pane>, k: nat, j: nat)
    requires Distinct(panes) && k < |panes| && j < |panes| && panes[k] == panes[j]
    ensures k == j
  {
  }

  lemma ExchangedAt(s: seq<Pane>, i: nat, j: nat)
    requires i < |s| && j < |s|
    ensures Exchanged(s, i, j)[i] == s[j] && Exchanged(s, i, j)[j] == s[i]
    ensures s[i] in Exchanged(s, i, j) && s[j] in Exchanged(s, i, j)
  {
    var r := Exchanged(s, i, j);
    assert r[i] == s[j] && r[j] == s[i];
  }

  lemma BackAgain(s: seq<Pane>, i: nat, p: Pane)
    requires i < |s|
    ensures s[i := p][i := s[i]] == s
  {
  }

  lemma ExchangeFlip(s: seq<Pane>, i: nat, j: nat)
    requires i < |s| && j < |s|
    ensures Exchanged(s, i, j) == Exchanged(s, j, i)
  {
  }

  /** Swapping the same two panes again puts everything back, and the active panes too exactly
      when, within one window, the target was active (with -d, was not), or, with two windows,
      both panes were active (with -d, always). */
  method SwapTwice(srcW: Window, src: Pane, dstW: Window, dst: Pane, d: bool)
    requires srcW.Valid() && dstW.Valid() && src in srcW.panes && dst in dstW.panes && src != dst
    requires src.cell != null && dst.cell != null
    modifies srcW, dstW, src, dst, src.cell, dst.cell
    ensures srcW.Valid() && dstW.Valid() && srcW.panes == old(srcW.panes) && dstW.panes == old(dstW.panes)
    ensures Places(srcW.panes) == old(Places(srcW.panes)) && Places(dstW.panes) == old(Places(dstW.panes))
    ensures src.cell == old(src.cell) && dst.cell == old(dst.cell) && src.window == srcW && dst.window == dstW
    ensures srcW == dstW ==>
              (srcW.active == old(srcW.active) <==> if d then old(srcW.active) != dst else old(srcW.active) == dst)
    ensures srcW != dstW ==>
              (srcW.active == old(srcW.active) && dstW.active == old(dstW.active)
               <==> d || (old(srcW.active) == src && old(dstW.active) == dst))
  {
    hide CellsOf, Exchanged, Places;
    ghost var was, wasD := srcW.panes, dstW.panes;
    ghost var i, j := SwapPanes(srcW, src, dstW, dst, d);
    if srcW == dstW {
      ghost var now := srcW.panes;
      ExchangedAt(was, i, j);
      DistinctOf(srcW);
      ghost var k, l := SwapPanes(srcW, src, dstW, dst, d);
      SameIndex(now, k, j);
      SameIndex(now, l, i);
      ExchangeTwice(was, i, j);
      ExchangeFlip(now, i, j);
    } else {
      assert dst in srcW.panes && src in dstW.panes by { assert srcW.panes[i] == dst && dstW.panes[j] == src; }
      ghost var now, nowD := srcW.panes, dstW.panes;
      DistinctOf(srcW);
      DistinctOf(dstW);
      ghost var k, l := SwapPanes(srcW, dst, dstW, src, d);
      SameIndex(now, k, i);
      SameIndex(nowD, l, j);
      BackAgain(was, i, dst);
      BackAgain(wasD, j, src);
    }
  }
}

/** Where the sections of a format are drawn when there is no list or the list is on the
    left or the right (format-draw.c). */
module FormatLayout {

  datatype Section = Left | Centre | Right | AbsCentre | List | ListLeft | ListRight | After

  /** format_draw_put: columns of a section copied to columns of the target. */
  datatype Piece = Piece(section: Section, offset: nat, start: nat, width: nat)

  /** struct format_range: columns of a section that stand for something. */
  datatype Range = Range(section: Section, start: nat, end: nat)

  datatype Canvas = Canvas(pieces: seq<Piece>, ranges: seq<Range>)

  /** The columns each section has (screen cx). */
  datatype Sizes = Sizes(left: nat, centre: nat, right: nat, abs: nat, list: nat, listLeft: nat, listRight: nat, after: nat)

  function Min(a: nat, b: nat): nat {
    if a <= b then a else b
  }

  // ----- Fitting: the closed form

  function Sum(ws: seq<nat>): nat {
    if ws == [] then 0 else ws[0] + Sum(ws[1..])
  }

  /** The widths with `excess` columns taken away, from the first as far as it goes, then
      from the second, and so on. */
  function Shrink(ws: seq<nat>, excess: nat): (r: seq<nat>)
    ensures |r| == |ws|
  {
    if ws == [] then []
    else
      var cut := Min(ws[0], excess);
      [ws[0] - cut] + Shrink(ws[1..], excess - cut)
  }

  function Excess(ws: seq<nat>, available: nat): nat {
    if Sum(ws) > available then Sum(ws) - available else 0
  }

  function Fitted(ws: seq<nat>, available: nat): (r: seq<nat>)
    ensures |r| == |ws|
  {
    Shrink(ws, Excess(ws, available))
  }

  /** A width gives way only when those before it are gone. */
  predicate InOrder(ws: seq<nat>, r: seq<nat>)
    requires |r| == |ws|
  {
    && (forall i :: 0 <= i < |ws| ==> r[i] <= ws[i])
    && (forall i, j :: 0 <= i < j < |ws| && r[j] < ws[j] ==> r[i] == 0)
  }

  lemma {:induction false} ShrinkDoes(ws: seq<nat>, excess: nat)
    requires excess <= Sum(ws)
    ensures Sum(Shrink(ws, excess)) == Sum(ws) - excess
    ensures InOrder(ws, Shrink(ws, excess))
  {
    if ws != [] {
      var cut := Min(ws[0], excess);
      var r, t := Shrink(ws, excess), Shrink(ws[1..], excess - cut);
      ShrinkDoes(ws[1..], excess - cut);
      assert r == [ws[0] - cut] + t && r[1..] == t;
      forall i, j | 0 <= i < j < |ws| && r[j] < ws[j]
        ensures r[i] == 0
      {
        assert r[j] == t[j - 1] && ws[j] == ws[1..][j - 1];
        if i > 0 {
          assert r[i] == t[i - 1];
        } else {
          if excess - cut == 0 {
            ShrinkNone(ws[1..]);
          }
        }
      }
    }
  }

  lemma {:induction false} ShrinkNone(ws: seq<nat>)
    ensures Shrink(ws, 0) == ws
  {
    if ws != [] {
      ShrinkNone(ws[1..]);
      assert ws == [ws[0]] + ws[1..];
    }
  }

  /** Total and order leave no choice. */
  lemma {:induction false} ShrinkUnique(ws: seq<nat>, r: seq<nat>, excess: nat)
    requires |r| == |ws| && InOrder(ws, r) && excess <= Sum(ws) && Sum(r) == Sum(ws) - excess
    ensures r == Shrink(ws, excess)
  {
    if ws != [] {
      var cut := Min(ws[0], excess);
      SumAtMost(ws[1..], r[1..]);
      if r[0] > 0 {
        forall j | 1 <= j < |ws|
          ensures r[j] == ws[j]
        {
        }
        assert r[1..] == ws[1..];
        ShrinkNone(ws[1..]);
      } else {
        assert InOrder(ws[1..], r[1..]);
        ShrinkUnique(ws[1..], r[1..], excess - cut);
      }
      assert r == [r[0]] + r[1..];
    }
  }

  lemma {:induction false} SumAtMost(ws: seq<nat>, r: seq<nat>)
    requires |r| == |ws| && forall i :: 0 <= i < |ws| ==> r[i] <= ws[i]
    ensures Sum(r) <= Sum(ws)
  {
    if ws != [] {
      SumAtMost(ws[1..], r[1..]);
    }
  }

  /** The widths after fitting: they fit, none grew, and they are as wide as they can be. */
  lemma FittedFits(ws: seq<nat>, available: nat)
    ensures Sum(Fitted(ws, available)) == Min(Sum(ws), available)
    ensures InOrder(ws, Fitted(ws, available))
  {
    ShrinkDoes(ws, Excess(ws, available));
  }

  /** One column less, from the first that has any. */
  lemma {:induction false} ShrinkStep(ws: seq<nat>, k: nat, excess: nat)
    requires k < |ws| && ws[k] > 0 && (forall i :: 0 <= i < k ==> ws[i] == 0) && 0 < excess <= Sum(ws)
    ensures Shrink(ws[k := ws[k] - 1], excess - 1) == Shrink(ws, excess)
    ensures Sum(ws[k := ws[k] - 1]) == Sum(ws) - 1
  {
    var t := ws[k := ws[k] - 1];
    if k > 0 {
      assert t[1..] == ws[1..][k - 1 := ws[k] - 1];
      ShrinkStep(ws[1..], k - 1, excess);
    } else {
      assert t[1..] == ws[1..];
    }
  }

  lemma FittedStep(ws: seq<nat>, k: nat, available: nat)
    requires k < |ws| && ws[k] > 0 && (forall i :: 0 <= i < k ==> ws[i] == 0) && Sum(ws) > available
    ensures Fitted(ws[k := ws[k] - 1], available) == Fitted(ws, available)
    ensures Sum(ws[k := ws[k] - 1]) == Sum(ws) - 1
  {
    ShrinkStep(ws, k, Sum(ws) - available);
  }

  lemma Sum3(a: nat, b: nat, c: nat)
    ensures Sum([a, b, c]) == a + b + c
  {
    assert [a, b, c][1..] == [b, c] && [b, c][1..] == [c] && [c][1..] == [];
    assert Sum([c]) == c + Sum([c][1..]);
    assert Sum([b, c]) == b + Sum([b, c][1..]);
  }

  lemma Sum5(a: nat, b: nat, c: nat, d: nat, e: nat)
    ensures Sum([a, b, c, d, e]) == a + b + c + d + e
  {
    assert [a, b, c, d, e][1..] == [b, c, d, e] && [b, c, d, e][1..] == [c, d, e];
    Sum3(c, d, e);
    assert Sum([b, c, d, e]) == b + Sum([b, c, d, e][1..]);
  }

  /** The loop of format_draw_none. */
  method FitThree(centre: nat, right: nat, left: nat, available: nat) returns (c: nat, r: nat, l: nat)
    ensures [c, r, l] == Fitted([centre, right, left], available)
  {
    hide Sum, Fitted;
    c, r, l := centre, right, left;
    Sum3(c, r, l);
    while l + c + r > available
      invariant Sum([c, r, l]) == c + r + l
      invariant Fitted([c, r, l], available) == Fitted([centre, right, left], available)
      decreases l + c + r
    {
      ghost var ws := [c, r, l];
      if c > 0 {
        FittedStep(ws, 0, available);
        c := c - 1;
        assert [c, r, l] == ws[0 := ws[0] - 1];
      } else if r > 0 {
        FittedStep(ws, 1, available);
        r := r - 1;
        assert [c, r, l] == ws[1 := ws[1] - 1];
      } else {
        FittedStep(ws, 2, available);
        l := l - 1;
        assert [c, r, l] == ws[2 := ws[2] - 1];
      }
    }
    FittedAll([c, r, l], available);
  }

  lemma FittedAll(ws: seq<nat>, available: nat)
    requires Sum(ws) <= available
    ensures Fitted(ws, available) == ws
  {
    ShrinkNone(ws);
  }

  /** The loop of format_draw_left and format_draw_right. */
  method FitFive(centre: nat, list: nat, right: nat, after: nat, left: nat, available: nat)
    returns (c: nat, i: nat, r: nat, a: nat, l: nat)
    ensures [c, i, r, a, l] == Fitted([centre, list, right, after, left], available)
  {
    hide Sum, Fitted;
    c, i, r, a, l := centre, list, right, after, left;
    Sum5(c, i, r, a, l);
    while l + c + r + i + a > available
      invariant Sum([c, i, r, a, l]) == c + i + r + a + l
      invariant Fitted([c, i, r, a, l], available) == Fitted([centre, list, right, after, left], available)
      decreases l + c + r + i + a
    {
      ghost var ws := [c, i, r, a, l];
      if c > 0 {
        FittedStep(ws, 0, available);
        c := c - 1;
        assert [c, i, r, a, l] == ws[0 := ws[0] - 1];
      } else if i > 0 {
        FittedStep(ws, 1, available);
        i := i - 1;
        assert [c, i, r, a, l] == ws[1 := ws[1] - 1];
      } else if r > 0 {
        FittedStep(ws, 2, available);
        r := r - 1;
        assert [c, i, r, a, l] == ws[2 := ws[2] - 1];
      } else if a > 0 {
        FittedStep(ws, 3, available);
        a := a - 1;
        assert [c, i, r, a, l] == ws[3 := ws[3] - 1];
      } else {
        FittedStep(ws, 4, available);
        l := l - 1;
        assert [c, i, r, a, l] == ws[4 := ws[4] - 1];
      }
    }
    FittedAll([c, i, r, a, l], available);
  }

  // ----- Ranges

  /** A range after columns `start` to `start + width` of its section were drawn at
      `offset`; none if nothing of it was drawn. */
  function Moved(r: Range, offset: nat, start: nat, width: nat): seq<Range> {
    if r.end <= start || r.start >= start + width then []
    else
      var a, b := if r.start < start then start else r.start, Min(r.end, start + width);
      if a == b then [] else [r.(start := a - start + offset, end := if b >= start then b - start + offset else 0)]
  }

  function Updated(ranges: seq<Range>, section: Section, offset: nat, start: nat, width: nat): seq<Range> {
    if ranges == [] then []
    else (if ranges[0].section == section then Moved(ranges[0], offset, start, width) else [ranges[0]])
         + Updated(ranges[1..], section, offset, start, width)
  }

  predicate In(from: int, to: int, x: int) {
    from <= x < to
  }

  /** A range that is left lies in what was drawn and covers exactly the columns it covered
      before, none if its end was taken in another section and is not after its start; one
      that is gone had nothing drawn of it. */
  lemma MovedExact(r: Range, offset: nat, start: nat, width: nat)
    ensures var m := Moved(r, offset, start, width);
            && (m == [] ==> forall x :: In(r.start, r.end, x) ==> !In(start, start + width, x))
            && (m != [] ==> |m| == 1 && offset <= m[0].start && m[0].end <= offset + width && m[0].section == r.section)
            && (m != [] ==> (m[0].start < m[0].end <==> r.start < r.end))
            && (m != [] ==> forall x :: In(start, start + width, x) ==>
                  (In(r.start, r.end, x) <==> In(m[0].start, m[0].end, x - start + offset)))
  {
  }

  /** format_update_ranges */
  method UpdateRanges(ranges: seq<Range>, section: Section, offset: nat, start: nat, width: nat) returns (r: seq<Range>)
    ensures r == Updated(ranges, section, offset, start, width)
  {
    r := [];
    var left := ranges;
    while left != []
      invariant r + Updated(left, section, offset, start, width) == Updated(ranges, section, offset, start, width)
      decreases |left|
    {
      var fr := left[0];
      ghost var had, rest := r, Updated(left[1..], section, offset, start, width);
      left := left[1..];
      if fr.section != section {
        r := r + [fr];
        assert had + ([fr] + rest) == r + rest;
        continue;
      }
      if fr.end <= start || fr.start >= start + width {
        assert [] + rest == rest;
        continue;
      }
      var a, b := fr.start, fr.end;
      if a < start {
        a := start;
      }
      if b > start + width {
        b := start + width;
      }
      if a == b {
        assert [] + rest == rest;
        continue;
      }
      r := r + [fr.(start := a - start + offset, end := b - start + offset)];
      assert had + (Moved(fr, offset, start, width) + rest) == r + rest;
    }
  }

  // ----- Drawing

  /** The markers of a list are copied without a look at the ranges. */
  predicate Marker(s: Section) {
    s == ListLeft || s == ListRight
  }

  /** format_draw_put, and the copying of a marker */
  function Drawn(v: Canvas, p: Piece): Canvas {
    Canvas(v.pieces + [p],
           if Marker(p.section) then v.ranges else Updated(v.ranges, p.section, p.offset, p.start, p.width))
  }

  method Put(v: Canvas, section: Section, offset: nat, start: nat, width: nat) returns (r: Canvas)
    requires !Marker(section)
    ensures r == Drawn(v, Piece(section, offset, start, width))
  {
    var ranges := UpdateRanges(v.ranges, section, offset, start, width);
    r := Canvas(v.pieces + [Piece(section, offset, start, width)], ranges);
  }

  function DrawnAll(v: Canvas, ps: seq<Piece>): Canvas
    decreases |ps|
  {
    if ps == [] then v else DrawnAll(Drawn(v, ps[0]), ps[1..])
  }

  lemma {:induction false} DrawnMore(v: Canvas, ps: seq<Piece>, p: Piece)
    ensures DrawnAll(v, ps + [p]) == Drawn(DrawnAll(v, ps), p)
    decreases |ps|
  {
    if ps == [] {
      assert [p][1..] == [];
    } else {
      assert (ps + [p])[1..] == ps[1..] + [p];
      DrawnMore(Drawn(v, ps[0]), ps[1..], p);
    }
  }

  lemma {:induction false} DrawnConcat(v: Canvas, a: seq<Piece>, b: seq<Piece>)
    ensures DrawnAll(v, a + b) == DrawnAll(DrawnAll(v, a), b)
    decreases |a|
  {
    if a == [] {
      assert a + b == b;
    } else {
      assert (a + b)[1..] == a[1..] + b;
      DrawnConcat(Drawn(v, a[0]), a[1..], b);
    }
  }

  /** In the middle of the columns from `from` to `to`. */
  function Middle(from: nat, to: nat, width: nat): nat
    requires from + width <= to
  {
    from + (to - from) / 2 - width / 2
  }

  // ----- No list

  /** The pieces of format_draw_none. */
  function NonePieces(z: Sizes, available: nat): seq<Piece> {
    var f := Fitted([z.centre, z.right, z.left], available);
    NoneFits3(z, available);
    var c, r, l := f[0], f[1], f[2];
    var a := Min(z.abs, available);
    [Piece(Left, 0, 0, l),
     Piece(Right, available - r, z.right - r, r),
     Piece(Centre, Middle(l, available - r, c), z.centre / 2 - c / 2, c),
     Piece(AbsCentre, (available - a) / 2, 0, a)]
  }

  lemma NoneFits3(z: Sizes, available: nat)
    ensures var f := Fitted([z.centre, z.right, z.left], available);
            f[0] + f[1] + f[2] <= available && f[0] <= z.centre && f[1] <= z.right && f[2] <= z.left
  {
    var ws := [z.centre, z.right, z.left];
    var f := Fitted(ws, available);
    FittedFits(ws, available);
    assert f == [f[0], f[1], f[2]];
    Sum3(f[0], f[1], f[2]);
  }

  /** format_draw_none */
  method DrawNone(v: Canvas, z: Sizes, available: nat) returns (r: Canvas)
    ensures r == DrawnAll(v, NonePieces(z, available))
  {
    hide Fitted, Updated;
    ghost var f := Fitted([z.centre, z.right, z.left], available);
    var width_centre, width_right, width_left := FitThree(z.centre, z.right, z.left, available);
    NoneFits3(z, available);
    assert f == [width_centre, width_right, width_left];
    r := Put(v, Left, 0, 0, width_left);
    r := Put(r, Right, available - width_right, z.right - width_right, width_right);
    r := Put(r, Centre, width_left + (available - width_right - width_left) / 2 - width_centre / 2,
             z.centre / 2 - width_centre / 2, width_centre);
    var width_abs := z.abs;
    if width_abs > available {
      width_abs := available;
    }
    r := Put(r, AbsCentre, (available - width_abs) / 2, 0, width_abs);
    FourDrawn(v, NonePieces(z, available));
  }

  lemma FourDrawn(v: Canvas, ps: seq<Piece>)
    requires |ps| == 4
    ensures DrawnAll(v, ps) == Drawn(Drawn(Drawn(Drawn(v, ps[0]), ps[1]), ps[2]), ps[3])
  {
    hide Drawn, DrawnAll;
    DrawnNone(v);
    assert ps == [] + [ps[0]] + [ps[1]] + [ps[2]] + [ps[3]];
    DrawnMore(v, [], ps[0]);
    DrawnMore(v, [] + [ps[0]], ps[1]);
    DrawnMore(v, [] + [ps[0]] + [ps[1]], ps[2]);
    DrawnMore(v, [] + [ps[0]] + [ps[1]] + [ps[2]], ps[3]);
  }

  lemma DrawnNone(v: Canvas)
    ensures DrawnAll(v, []) == v
  {
  }

  function SizeOf(z: Sizes, s: Section): nat {
    match s
    case Left => z.left
    case Centre => z.centre
    case Right => z.right
    case AbsCentre => z.abs
    case List => z.list
    case ListLeft => z.listLeft
    case ListRight => z.listRight
    case After => z.after
  }

  /** A piece lies in the space there is and reads columns its section has. */
  predicate Inside(z: Sizes, available: nat, p: Piece) {
    p.offset + p.width <= available && p.start + p.width <= SizeOf(z, p.section)
  }

  predicate Apart(p: Piece, q: Piece) {
    p.offset + p.width <= q.offset || q.offset + q.width <= p.offset
  }

  /** All but the absolute centre, which goes over the others, are apart. */
  predicate Tidy(z: Sizes, available: nat, ps: seq<Piece>) {
    && (forall i :: 0 <= i < |ps| ==> Inside(z, available, ps[i]))
    && (forall i, j :: 0 <= i < j < |ps| && ps[i].section != AbsCentre && ps[j].section != AbsCentre ==>
          Apart(ps[i], ps[j]))
  }

  lemma MiddleInside(from: nat, to: nat, width: nat, size: nat)
    requires from + width <= to && width <= size
    ensures from <= Middle(from, to, width) && Middle(from, to, width) + width <= to
    ensures size / 2 >= width / 2 && size / 2 - width / 2 + width <= size
  {
  }

  lemma NoneTidy(z: Sizes, available: nat)
    ensures Tidy(z, available, NonePieces(z, available))
  {
    hide Fitted;
    NoneFits3(z, available);
    var f := Fitted([z.centre, z.right, z.left], available);
    MiddleInside(f[2], available - f[1], f[0], z.centre);
  }

  // ----- The list

  /** Where a list too wide for its place starts: with the middle of the focus in the middle,
      as far as that goes. */
  function ListStart(size: nat, width: nat, focusStart: nat, focusEnd: nat): nat
    requires width <= size && focusStart <= focusEnd
  {
    var focus := focusStart + (focusEnd - focusStart) / 2;
    var start := if focus < width / 2 then 0 else focus - width / 2;
    if start + width > size then size - width else start
  }

  /** The pieces of format_draw_put_list: the list, with a marker on either side where
      columns are left out and there is room for it. */
  function ListPieces(z: Sizes, offset: nat, width: nat, focusStart: nat, focusEnd: nat): seq<Piece>
    requires focusStart <= focusEnd
  {
    if width >= z.list then [Piece(List, offset, 0, width)]
    else
      var start := ListStart(z.list, width, focusStart, focusEnd);
      var l := if start != 0 && width > z.listLeft then z.listLeft else 0;
      var more := start + width < z.list && width - l > z.listRight;
      var r := if more then z.listRight else 0;
      (if start != 0 && width > z.listLeft then [Piece(ListLeft, offset, 0, l)] else [])
      + (if more then [Piece(ListRight, offset + width - r, 0, r)] else [])
      + [Piece(List, offset + l, start + l, width - l - r)]
  }

  /** The middle of the focus. */
  function Focus(focusStart: nat, focusEnd: nat): nat
    requires focusStart <= focusEnd
  {
    focusStart + (focusEnd - focusStart) / 2
  }

  /** Whether the columns of the list that are drawn include that one. */
  predicate Seen(ps: seq<Piece>, x: nat) {
    exists i :: 0 <= i < |ps| && ps[i].section == List && In(ps[i].start, ps[i].start + ps[i].width, x)
  }

  /** The middle of the focus is always in the part of the list that is chosen, and is seen
      exactly when neither marker, where it is drawn, is wide enough to reach it. */
  lemma FocusSeenIff(z: Sizes, offset: nat, width: nat, focusStart: nat, focusEnd: nat)
    requires 0 < width < z.list && focusStart <= focusEnd && Focus(focusStart, focusEnd) < z.list
    ensures var start := ListStart(z.list, width, focusStart, focusEnd);
            var x := Focus(focusStart, focusEnd) - start;
            var left := start != 0 && width > z.listLeft;
            var right := start + width < z.list && width - (if left then z.listLeft else 0) > z.listRight;
            && 0 <= x < width && (start == 0 || start + width == z.list || x == width / 2)
            && (Seen(ListPieces(z, offset, width, focusStart, focusEnd), Focus(focusStart, focusEnd))
                <==> (left ==> x >= z.listLeft) && (right ==> x + z.listRight < width))
  {
    var ps := ListPieces(z, offset, width, focusStart, focusEnd);
    assert ps[|ps| - 1].section == List && forall i :: 0 <= i < |ps| - 1 ==> ps[i].section != List;
  }

  /** With markers of one column the middle of the focus is hidden in one case only: a place of
      two columns, and the second of more than two columns in focus. */
  lemma FocusHidden(z: Sizes, offset: nat, width: nat, focusStart: nat, focusEnd: nat)
    requires 0 < width <= z.list && focusStart <= focusEnd && Focus(focusStart, focusEnd) < z.list
    requires z.listLeft == 1 && z.listRight == 1
    ensures Seen(ListPieces(z, offset, width, focusStart, focusEnd), Focus(focusStart, focusEnd))
            <==> !(width == 2 && z.list > 2 && Focus(focusStart, focusEnd) == 1)
  {
    if width == z.list {
      assert ListPieces(z, offset, width, focusStart, focusEnd)[0].width == width;
    } else {
      FocusSeenIff(z, offset, width, focusStart, focusEnd);
    }
  }

  /** The list and its markers fill the list's place and no more, side by side; a marker
      means that columns of the list on its side are not shown. */
  lemma ListFits(z: Sizes, available: nat, offset: nat, width: nat, focusStart: nat, focusEnd: nat)
    requires focusStart <= focusEnd && width <= z.list && offset + width <= available
    ensures var ps := ListPieces(z, offset, width, focusStart, focusEnd);
            && 1 <= |ps| <= 3 && Tidy(z, available, ps)
            && (forall i :: 0 <= i < |ps| ==> offset <= ps[i].offset && ps[i].offset + ps[i].width <= offset + width)
            && Total(ps) == width
            && ps[|ps| - 1].section == List
            && (forall i :: 0 <= i < |ps| && ps[i].section == ListLeft ==> ps[|ps| - 1].start > ps[i].width)
            && (forall i :: 0 <= i < |ps| && ps[i].section == ListRight ==>
                  ps[|ps| - 1].start + ps[|ps| - 1].width + ps[i].width < z.list)
  {
    var ps := ListPieces(z, offset, width, focusStart, focusEnd);
    if |ps| == 1 {
      assert ps[1..] == [];
    } else if |ps| == 2 {
      assert ps[1..][1..] == [];
    } else {
      var a := ps[1..];
      var b := a[1..];
      assert b[1..] == [];
      assert Total(b) == b[0].width + Total(b[1..]);
      assert Total(a) == a[0].width + Total(b);
    }
  }

  /** The markers are whole, one at either end of the list's place. */
  lemma MarkersPlaced(z: Sizes, offset: nat, width: nat, focusStart: nat, focusEnd: nat)
    requires focusStart <= focusEnd
    ensures var ps := ListPieces(z, offset, width, focusStart, focusEnd);
            && 1 <= |ps| <= 3 && ps[|ps| - 1].section == List
            && forall i :: 0 <= i < |ps| - 1 ==>
                 ps[i] == Piece(ListLeft, offset, 0, z.listLeft)
                 || (offset + width >= z.listRight && ps[i] == Piece(ListRight, offset + width - z.listRight, 0, z.listRight))
  {
  }

  function Total(ps: seq<Piece>): nat {
    if ps == [] then 0 else ps[0].width + Total(ps[1..])
  }

  /** format_draw_put_list */
  method PutList(v: Canvas, z: Sizes, offset: nat, width: nat, focusStart: nat, focusEnd: nat) returns (r: Canvas)
    requires focusStart <= focusEnd
    ensures r == DrawnAll(v, ListPieces(z, offset, width, focusStart, focusEnd))
  {
    hide Updated, DrawnAll;
    ghost var ps: seq<Piece> := [];
    DrawnNone(v);
    r := v;
    if width >= z.list {
      r := Put(v, List, offset, 0, width);
      DrawnMore(v, [], Piece(List, offset, 0, width));
      assert [] + [Piece(List, offset, 0, width)] == [Piece(List, offset, 0, width)];
      return;
    }
    var focus_centre := focusStart + (focusEnd - focusStart) / 2;
    var start: nat;
    if focus_centre < width / 2 {
      start := 0;
    } else {
      start := focus_centre - width / 2;
    }
    if start + width > z.list {
      start := z.list - width;
    }
    var at, room := offset, width;
    if start != 0 && room > z.listLeft {
      DrawnMore(v, ps, Piece(ListLeft, at, 0, z.listLeft));
      r := r.(pieces := r.pieces + [Piece(ListLeft, at, 0, z.listLeft)]);
      ps := ps + [Piece(ListLeft, at, 0, z.listLeft)];
      at := at + z.listLeft;
      start := start + z.listLeft;
      room := room - z.listLeft;
    }
    if start + room < z.list && room > z.listRight {
      DrawnMore(v, ps, Piece(ListRight, at + room - z.listRight, 0, z.listRight));
      r := r.(pieces := r.pieces + [Piece(ListRight, at + room - z.listRight, 0, z.listRight)]);
      ps := ps + [Piece(ListRight, at + room - z.listRight, 0, z.listRight)];
      room := room - z.listRight;
    }
    DrawnMore(v, ps, Piece(List, at, start, room));
    r := Put(r, List, at, start, room);
    assert ps + [Piece(List, at, start, room)] == ListPieces(z, offset, width, focusStart, focusEnd);
  }

  // ----- List on the left or on the right

  /** The sizes of the sections but for the list, fitted: centre, list, right, after, left. */
  function Five(z: Sizes, available: nat): (f: seq<nat>)
    ensures |f| == 5
  {
    Fitted([z.centre, z.list, z.right, z.after, z.left], available)
  }

  lemma FiveFits(z: Sizes, available: nat)
    ensures var f := Five(z, available);
            && f[0] + f[1] + f[2] + f[3] + f[4] <= available
            && f[0] <= z.centre && f[1] <= z.list && f[2] <= z.right && f[3] <= z.after && f[4] <= z.left
  {
    var ws := [z.centre, z.list, z.right, z.after, z.left];
    var f := Fitted(ws, available);
    FittedFits(ws, available);
    assert f == [f[0], f[1], f[2], f[3], f[4]];
    Sum5(f[0], f[1], f[2], f[3], f[4]);
  }

  /** The sections about a list on the left, and on the right. */
  function LeftFour(z: Sizes, available: nat, c: nat, i: nat, r: nat, a: nat, l: nat): seq<Piece>
    requires c + i + r + a + l <= available && c <= z.centre && r <= z.right
  {
    [Piece(Left, 0, 0, l),
     Piece(Right, available - r, z.right - r, r),
     Piece(After, l + i, 0, a),
     Piece(Centre, Middle(l + i + a, available - r, c), z.centre / 2 - c / 2, c)]
  }

  function RightFour(z: Sizes, available: nat, c: nat, i: nat, r: nat, a: nat, l: nat): seq<Piece>
    requires c + i + r + a + l <= available && c <= z.centre && a <= z.after
  {
    [Piece(Left, 0, 0, l),
     Piece(After, available - a, z.after - a, a),
     Piece(Right, available - r - i - a, 0, r),
     Piece(Centre, Middle(l, available - r - i - a, c), z.centre / 2 - c / 2, c)]
  }

  /** The pieces of format_draw_left. With no room for the list, what comes after it is
      copied behind the left section, which stays as wide as it was: so it is not drawn. */
  function LeftPieces(z: Sizes, available: nat, focusStart: nat, focusEnd: nat): seq<Piece>
    requires focusStart <= focusEnd
  {
    FiveFits(z, available);
    var f := Five(z, available);
    var c, i, r, a, l := f[0], f[1], f[2], f[3], f[4];
    var abs := Min(z.abs, available);
    if i == 0 then NonePieces(z, available)
    else
      LeftFour(z, available, c, i, r, a, l)
      + ListPieces(z, l, i, focusStart, focusEnd)
      + [Piece(AbsCentre, (available - abs) / 2, 0, abs)]
  }

  /** The pieces of format_draw_right. */
  function RightPieces(z: Sizes, available: nat, focusStart: nat, focusEnd: nat): seq<Piece>
    requires focusStart <= focusEnd
  {
    FiveFits(z, available);
    var f := Five(z, available);
    var c, i, r, a, l := f[0], f[1], f[2], f[3], f[4];
    var abs := Min(z.abs, available);
    if i == 0 then NonePieces(z, available)
    else
      RightFour(z, available, c, i, r, a, l)
      + ListPieces(z, available - i - a, i, focusStart, focusEnd)
      + [Piece(AbsCentre, (available - abs) / 2, 0, abs)]
  }

  /** Four sections and the list, all apart. */
  lemma WithListTidy(z: Sizes, available: nat, four: seq<Piece>, offset: nat, width: nat, list: seq<Piece>, abs: Piece)
    requires Tidy(z, available, four) && Tidy(z, available, list) && Inside(z, available, abs) && abs.section == AbsCentre
    requires forall i :: 0 <= i < |list| ==> offset <= list[i].offset && list[i].offset + list[i].width <= offset + width
    requires forall i :: 0 <= i < |four| ==> four[i].offset + four[i].width <= offset || offset + width <= four[i].offset
    ensures Tidy(z, available, four + list + [abs])
  {
    var ps := four + list + [abs];
    forall i | 0 <= i < |ps|
      ensures Inside(z, available, ps[i])
    {
      if i < |four| {
        assert ps[i] == four[i];
      } else if i < |four| + |list| {
        assert ps[i] == list[i - |four|];
      }
    }
    forall i, j | 0 <= i < j < |ps| && ps[i].section != AbsCentre && ps[j].section != AbsCentre
      ensures Apart(ps[i], ps[j])
    {
      assert ps[|ps| - 1] == abs;
      if j < |four| {
        assert ps[i] == four[i] && ps[j] == four[j];
      } else if i < |four| {
        assert ps[i] == four[i] && ps[j] == list[j - |four|];
      } else {
        assert ps[i] == list[i - |four|] && ps[j] == list[j - |four|];
      }
    }
  }

  lemma LeftFourTidy(z: Sizes, available: nat, c: nat, i: nat, r: nat, a: nat, l: nat)
    requires c + i + r + a + l <= available && c <= z.centre && r <= z.right && a <= z.after && l <= z.left
    ensures var four := LeftFour(z, available, c, i, r, a, l);
            && Tidy(z, available, four)
            && forall k :: 0 <= k < |four| ==> four[k].offset + four[k].width <= l || l + i <= four[k].offset
  {
    MiddleInside(l + i + a, available - r, c, z.centre);
    hide Middle;
  }

  lemma RightFourTidy(z: Sizes, available: nat, c: nat, i: nat, r: nat, a: nat, l: nat)
    requires c + i + r + a + l <= available && c <= z.centre && r <= z.right && a <= z.after && l <= z.left
    ensures var four := RightFour(z, available, c, i, r, a, l);
            && Tidy(z, available, four)
            && forall k :: 0 <= k < |four| ==>
                 four[k].offset + four[k].width <= available - i - a || available - a <= four[k].offset
  {
    MiddleInside(l, available - r - i - a, c, z.centre);
    hide Middle;
  }

  /** Everything lands in the space there is, apart from everything else, and reads only
      columns its section has. */
  lemma LeftTidy(z: Sizes, available: nat, focusStart: nat, focusEnd: nat)
    requires focusStart <= focusEnd
    ensures Tidy(z, available, LeftPieces(z, available, focusStart, focusEnd))
  {
    hide Five, ListPieces, NonePieces, Tidy, Middle;
    FiveFits(z, available);
    var f := Five(z, available);
    var c, i, r, a, l := f[0], f[1], f[2], f[3], f[4];
    var abs := Min(z.abs, available);
    if i == 0 {
      NoneTidy(z, available);
    } else {
      LeftFourTidy(z, available, c, i, r, a, l);
      ListFits(z, available, l, i, focusStart, focusEnd);
      WithListTidy(z, available, LeftFour(z, available, c, i, r, a, l), l, i, ListPieces(z, l, i, focusStart, focusEnd),
                   Piece(AbsCentre, (available - abs) / 2, 0, abs));
    }
  }

  lemma RightTidy(z: Sizes, available: nat, focusStart: nat, focusEnd: nat)
    requires focusStart <= focusEnd
    ensures Tidy(z, available, RightPieces(z, available, focusStart, focusEnd))
  {
    hide Five, ListPieces, NonePieces, Tidy, Middle;
    FiveFits(z, available);
    var f := Five(z, available);
    var c, i, r, a, l := f[0], f[1], f[2], f[3], f[4];
    var abs := Min(z.abs, available);
    if i == 0 {
      NoneTidy(z, available);
    } else {
      RightFourTidy(z, available, c, i, r, a, l);
      ListFits(z, available, available - i - a, i, focusStart, focusEnd);
      WithListTidy(z, available, RightFour(z, available, c, i, r, a, l), available - i - a, i,
                   ListPieces(z, available - i - a, i, focusStart, focusEnd),
                   Piece(AbsCentre, (available - abs) / 2, 0, abs));
    }
  }

  /** The list keeps a column exactly when what may not give way before it leaves one, and
      then what comes after the list keeps all of its own. */
  lemma ListRoom(z: Sizes, available: nat)
    ensures var f := Five(z, available);
            && (f[1] > 0 <==> z.list > 0 && z.left + z.right + z.after < available)
            && (f[1] > 0 ==> f[2] == z.right && f[3] == z.after && f[4] == z.left)
  {
    var ws := [z.centre, z.list, z.right, z.after, z.left];
    var f := Five(z, available);
    FittedFits(ws, available);
    assert f == [f[0], f[1], f[2], f[3], f[4]];
    Sum5(f[0], f[1], f[2], f[3], f[4]);
    Sum5(z.centre, z.list, z.right, z.after, z.left);
    hide Fitted, Sum;
    assert f[2] < ws[2] ==> f[1] == 0;
    assert f[3] < ws[3] ==> f[1] == 0;
    assert f[4] < ws[4] ==> f[1] == 0;
    assert f[1] < ws[1] ==> f[0] == 0;
  }

  // ----- Where each section is

  /** As even as whole columns allow. */
  predicate Even(a: int, b: int) {
    a <= b + 1 && b <= a + 1
  }

  /** A section in the middle of the columns from `from` to `to`, and the middle of it. */
  predicate Centred(p: Piece, size: nat, from: int, to: int) {
    Even(p.offset - from, to - (p.offset + p.width)) && Even(p.start, size - (p.start + p.width))
  }

  lemma MiddleCentred(section: Section, from: nat, to: nat, width: nat, size: nat)
    requires from + width <= to && width <= size
    ensures Centred(Piece(section, Middle(from, to, width), size / 2 - width / 2, width), size, from, to)
  {
  }

  predicate AbsPlaced(p: Piece, z: Sizes, available: nat) {
    && p.section == AbsCentre && p.start == 0 && p.width == Min(z.abs, available)
    && Even(p.offset, available - p.offset - p.width)
  }

  lemma WidthsThree(z: Sizes, available: nat)
    ensures var f := Fitted([z.centre, z.right, z.left], available);
            && f[2] == Min(z.left, available) && f[1] == Min(z.right, available - f[2])
            && f[0] == Min(z.centre, available - f[2] - f[1])
  {
    var ws := [z.centre, z.right, z.left];
    var f := Fitted(ws, available);
    FittedFits(ws, available);
    assert f == [f[0], f[1], f[2]];
    Sum3(f[0], f[1], f[2]);
    Sum3(z.centre, z.right, z.left);
    hide Fitted, Sum;
    assert (f[1] < ws[1] ==> f[0] == 0) && (f[2] < ws[2] ==> f[0] == 0 && f[1] == 0);
  }

  /** Without a list: the left from its start at the left edge, as much of it as there is room
      for; the right to its end at the right edge, in the room that leaves; the middle of the
      centre in the middle of what is left; the absolute centre in the middle of it all. */
  lemma NonePlaced(z: Sizes, available: nat)
    ensures var ps := NonePieces(z, available);
            && |ps| == 4 && ps[0] == Piece(Left, 0, 0, Min(z.left, available))
            && ps[1].section == Right && ps[1].width == Min(z.right, available - ps[0].width)
            && ps[1].offset + ps[1].width == available && ps[1].start + ps[1].width == z.right
            && ps[2].section == Centre && ps[2].width == Min(z.centre, available - ps[0].width - ps[1].width)
            && Centred(ps[2], z.centre, ps[0].width, ps[1].offset)
            && AbsPlaced(ps[3], z, available)
  {
    WidthsThree(z, available);
    var f := Fitted([z.centre, z.right, z.left], available);
    hide Fitted, Middle;
    MiddleCentred(Centre, f[2], available - f[1], f[0], z.centre);
  }

  lemma WidthsFive(z: Sizes, available: nat)
    requires z.list > 0 && z.left + z.right + z.after < available
    ensures var f, room := Five(z, available), available - z.left - z.right - z.after;
            && f[1] == Min(z.list, room) && f[0] == Min(z.centre, room - f[1])
            && f[2] == z.right && f[3] == z.after && f[4] == z.left
  {
    var ws := [z.centre, z.list, z.right, z.after, z.left];
    var f := Five(z, available);
    ListRoom(z, available);
    FittedFits(ws, available);
    assert f == [f[0], f[1], f[2], f[3], f[4]];
    Sum5(f[0], f[1], f[2], f[3], f[4]);
    Sum5(z.centre, z.list, z.right, z.after, z.left);
    hide Fitted, Sum;
    assert f[1] < ws[1] ==> f[0] == 0;
  }

  /** With the list on the left: left, list and what comes after it one after the other from the
      left edge, the right at the right edge, all whole but the list; the centre in the middle of
      the room between. */
  lemma LeftPlaced(z: Sizes, available: nat, focusStart: nat, focusEnd: nat)
    requires focusStart <= focusEnd && z.list > 0 && z.left + z.right + z.after < available
    ensures var ps, i := LeftPieces(z, available, focusStart, focusEnd), Min(z.list, available - z.left - z.right - z.after);
            var n := |ps| - 1;
            && n >= 4 && ps[0] == Piece(Left, 0, 0, z.left)
            && ps[1] == Piece(Right, available - z.right, 0, z.right) && ps[2] == Piece(After, z.left + i, 0, z.after)
            && ps[3].section == Centre && ps[3].width == Min(z.centre, available - z.left - z.right - z.after - i)
            && Centred(ps[3], z.centre, z.left + i + z.after, available - z.right)
            && ps[4..n] == ListPieces(z, z.left, i, focusStart, focusEnd) && AbsPlaced(ps[n], z, available)
  {
    WidthsFive(z, available);
    var f := Five(z, available);
    hide Five, Middle, ListPieces;
    MiddleCentred(Centre, z.left + f[1] + z.after, available - z.right, f[0], z.centre);
  }

  /** With the list on the right: the right, the list and what comes after it one after the
      other up to the right edge. */
  lemma RightPlaced(z: Sizes, available: nat, focusStart: nat, focusEnd: nat)
    requires focusStart <= focusEnd && z.list > 0 && z.left + z.right + z.after < available
    ensures var ps, i := RightPieces(z, available, focusStart, focusEnd), Min(z.list, available - z.left - z.right - z.after);
            var n, list := |ps| - 1, available - z.after - i;
            && n >= 4 && ps[0] == Piece(Left, 0, 0, z.left)
            && ps[1] == Piece(After, available - z.after, 0, z.after) && ps[2] == Piece(Right, list - z.right, 0, z.right)
            && ps[3].section == Centre && ps[3].width == Min(z.centre, available - z.left - z.right - z.after - i)
            && Centred(ps[3], z.centre, z.left, list - z.right)
            && ps[4..n] == ListPieces(z, list, i, focusStart, focusEnd) && AbsPlaced(ps[n], z, available)
  {
    WidthsFive(z, available);
    var f := Five(z, available);
    hide Five, Middle, ListPieces;
    MiddleCentred(Centre, z.left, available - z.right - f[1] - z.after, f[0], z.centre);
  }

  /** What comes after the list is drawn whole, in either layout, exactly when there is a list
      and room for a column of it beside the left, the right and what comes after; otherwise
      there is no piece of it at all. */
  lemma AfterNeedsList(z: Sizes, available: nat, focusStart: nat, focusEnd: nat, p: Piece)
    requires focusStart <= focusEnd && p.section == After
    ensures p in LeftPieces(z, available, focusStart, focusEnd)
            <==> z.list > 0 && z.left + z.right + z.after < available
                 && p == Piece(After, z.left + Five(z, available)[1], 0, z.after)
    ensures p in RightPieces(z, available, focusStart, focusEnd)
            <==> z.list > 0 && z.left + z.right + z.after < available
                 && p == Piece(After, available - z.after, 0, z.after)
  {
    ListRoom(z, available);
    FiveFits(z, available);
    NoneHasNoAfter(z, available, p);
    var f := Five(z, available);
    hide Five, NonePieces;
    if f[1] > 0 {
      ListHasNoAfter(z, f[4], f[1], focusStart, focusEnd, p);
      ListHasNoAfter(z, available - f[1] - f[3], f[1], focusStart, focusEnd, p);
      hide ListPieces, Middle;
      var l, r := LeftFour(z, available, f[0], f[1], f[2], f[3], f[4]), RightFour(z, available, f[0], f[1], f[2], f[3], f[4]);
      assert l[2] == Piece(After, f[4] + f[1], 0, f[3]) && r[1] == Piece(After, available - f[3], z.after - f[3], f[3]);
      assert p in l <==> p == l[2];
      assert p in r <==> p == r[1];
    }
  }

  lemma NoneHasNoAfter(z: Sizes, available: nat, p: Piece)
    requires p.section == After
    ensures p !in NonePieces(z, available)
  {
    hide Fitted, Middle;
    NoneFits3(z, available);
  }

  lemma ListHasNoAfter(z: Sizes, offset: nat, width: nat, focusStart: nat, focusEnd: nat, p: Piece)
    requires focusStart <= focusEnd && p.section == After
    ensures p !in ListPieces(z, offset, width, focusStart, focusEnd)
  {
  }

  /** With a list of five columns and no room for one of them, the three columns after the
      list are not drawn, though three of the four columns there are stay blank. */
  lemma AfterLost(focusStart: nat, focusEnd: nat, p: Piece)
    requires focusStart <= focusEnd && p.section == After
    ensures var z := Sizes(1, 0, 0, 0, 5, 0, 0, 3);
            p !in LeftPieces(z, 4, focusStart, focusEnd) && p !in RightPieces(z, 4, focusStart, focusEnd)
  {
    AfterNeedsList(Sizes(1, 0, 0, 0, 5, 0, 0, 3), 4, focusStart, focusEnd, p);
  }

  /** screen_write_fast_copy on one row: the cells are written behind the columns the target
      has, and the cursor, which says how many it has, is put back. */
  function Copied<T>(cells: seq<T>, cx: nat, more: seq<T>, n: nat): seq<T>
    requires cx <= |cells| && n <= |more|
  {
    cells[..cx] + more[..n] + if cx + n < |cells| then cells[cx + n..] else []
  }

  /** So what is copied when there is no room for the list is read by no piece: the pieces of
      format_draw_none read only columns the left and the right section had. */
  lemma CopyNotRead<T>(z: Sizes, available: nat, p: Piece, cells: seq<T>, more: seq<T>, n: nat)
    requires p in NonePieces(z, available) && (p.section == Left || p.section == Right)
    requires SizeOf(z, p.section) <= |cells| && n <= |more|
    ensures var now := Copied(cells, SizeOf(z, p.section), more, n);
            p.start + p.width <= |now| && p.start + p.width <= |cells| && now[p.start..p.start + p.width] == cells[p.start..p.start + p.width]
  {
    NoneTidy(z, available);
  }

  // ----- The ranges after all is drawn

  /** The piece drawn of a section, if any. */
  datatype Found = At(p: Piece) | Nowhere

  function PieceOf(ps: seq<Piece>, s: Section): Found {
    if ps == [] then Nowhere
    else if ps[0].section == s && !Marker(s) then At(ps[0])
    else PieceOf(ps[1..], s)
  }

  /** A range once the pieces are drawn: where its section was drawn, or as it was. */
  function Placed(r: Range, ps: seq<Piece>): seq<Range> {
    match PieceOf(ps, r.section)
    case Nowhere => [r]
    case At(p) => Moved(r, p.offset, p.start, p.width)
  }

  function PlacedAll(ranges: seq<Range>, ps: seq<Piece>): seq<Range> {
    if ranges == [] then [] else Placed(ranges[0], ps) + PlacedAll(ranges[1..], ps)
  }

  /** Each section is drawn at most once. */
  predicate Once(ps: seq<Piece>) {
    forall i, j :: 0 <= i < j < |ps| ==> ps[i].section != ps[j].section
  }

  lemma {:induction false} PlacedConcat(a: seq<Range>, b: seq<Range>, ps: seq<Piece>)
    ensures PlacedAll(a + b, ps) == PlacedAll(a, ps) + PlacedAll(b, ps)
  {
    if a == [] {
      assert a + b == b;
    } else {
      PlacedConcat(a[1..], b, ps);
      assert (a + b)[1..] == a[1..] + b;
      assert Placed(a[0], ps) + (PlacedAll(a[1..], ps) + PlacedAll(b, ps)) == PlacedAll(a, ps) + PlacedAll(b, ps);
    }
  }

  lemma {:induction false} NotDrawn(ps: seq<Piece>, s: Section)
    requires forall i :: 0 <= i < |ps| ==> ps[i].section != s
    ensures PieceOf(ps, s) == Nowhere
  {
    if ps != [] {
      NotDrawn(ps[1..], s);
    }
  }

  lemma PlacedOne(r: Range, ps: seq<Piece>)
    ensures PlacedAll([r], ps) == Placed(r, ps)
  {
    assert [r][1..] == [];
    assert Placed(r, ps) + [] == Placed(r, ps);
  }

  /** Drawing one piece first. */
  lemma {:induction false} PlacedFirst(r: Range, p: Piece, ps: seq<Piece>)
    requires forall i :: 0 <= i < |ps| ==> ps[i].section != p.section
    ensures var m := if r.section == p.section && !Marker(p.section) then Moved(r, p.offset, p.start, p.width) else [r];
            PlacedAll(m, ps) == Placed(r, [p] + ps)
  {
    assert ([p] + ps)[1..] == ps;
    if r.section == p.section && !Marker(p.section) {
      NotDrawn(ps, p.section);
      MovedExact(r, p.offset, p.start, p.width);
      var m := Moved(r, p.offset, p.start, p.width);
      if m != [] {
        assert m == [m[0]];
        PlacedOne(m[0], ps);
      }
    } else {
      PlacedOne(r, ps);
    }
  }

  lemma {:induction false} PlacedUpdated(ranges: seq<Range>, p: Piece, ps: seq<Piece>)
    requires forall i :: 0 <= i < |ps| ==> ps[i].section != p.section
    ensures PlacedAll(if Marker(p.section) then ranges else Updated(ranges, p.section, p.offset, p.start, p.width), ps)
            == PlacedAll(ranges, [p] + ps)
  {
    hide Moved, Placed;
    if ranges != [] {
      var r := ranges[0];
      PlacedUpdated(ranges[1..], p, ps);
      PlacedFirst(r, p, ps);
      var m := if r.section == p.section && !Marker(p.section) then Moved(r, p.offset, p.start, p.width) else [r];
      if Marker(p.section) {
        assert ranges == [r] + ranges[1..];
        PlacedConcat([r], ranges[1..], ps);
      } else {
        PlacedConcat(m, Updated(ranges[1..], p.section, p.offset, p.start, p.width), ps);
      }
    }
  }

  /** After a whole drawing every range is where its section was drawn; one of a section that
      was not drawn, or of a marker, still has its place in the section. */
  lemma {:induction false} RangesDrawn(v: Canvas, ps: seq<Piece>)
    requires Once(ps)
    ensures DrawnAll(v, ps).ranges == PlacedAll(v.ranges, ps)
    decreases |ps|
  {
    if ps == [] {
      PlacedNothing(v.ranges);
    } else {
      assert ps == [ps[0]] + ps[1..];
      RangesDrawn(Drawn(v, ps[0]), ps[1..]);
      PlacedUpdated(v.ranges, ps[0], ps[1..]);
    }
  }

  lemma {:induction false} PlacedNothing(ranges: seq<Range>)
    ensures PlacedAll(ranges, []) == ranges
  {
    if ranges != [] {
      PlacedNothing(ranges[1..]);
      assert ranges == [ranges[0]] + ranges[1..];
    }
  }

  lemma {:induction false} PieceHas(ps: seq<Piece>, s: Section)
    ensures match PieceOf(ps, s)
            case At(p) => p in ps && p.section == s && !Marker(s)
            case Nowhere => Marker(s) || forall i :: 0 <= i < |ps| ==> ps[i].section != s
  {
    if ps != [] {
      PieceHas(ps[1..], s);
    }
  }

  /** So a range returned lies in a piece of its own section exactly when there is one; the
      others are as they were found. */
  lemma {:induction false} RangesInside(ranges: seq<Range>, ps: seq<Piece>, r: Range)
    requires r in PlacedAll(ranges, ps)
    ensures match PieceOf(ps, r.section)
            case At(p) => p in ps && p.section == r.section && p.offset <= r.start && r.end <= p.offset + p.width
            case Nowhere => r in ranges
  {
    PieceHas(ps, r.section);
    if r in Placed(ranges[0], ps) {
      match PieceOf(ps, ranges[0].section)
      case At(p) => MovedExact(ranges[0], p.offset, p.start, p.width);
      case Nowhere =>
    } else {
      RangesInside(ranges[1..], ps, r);
    }
  }

  lemma LeftOnce(z: Sizes, available: nat, focusStart: nat, focusEnd: nat)
    requires focusStart <= focusEnd
    ensures Once(LeftPieces(z, available, focusStart, focusEnd)) && Once(RightPieces(z, available, focusStart, focusEnd))
    ensures Once(NonePieces(z, available))
  {
    hide Fitted, Five, Middle, ListStart;
    FiveFits(z, available);
    NoneFits3(z, available);
  }

  /** With no list left, the ranges of the list and of what comes after it are returned with
      the places they had in their sections, though nothing of those is drawn. */
  lemma ListRangesLost(z: Sizes, available: nat, focusStart: nat, focusEnd: nat, r: Range)
    requires focusStart <= focusEnd && (r.section == List || r.section == After)
    requires !(z.list > 0 && z.left + z.right + z.after < available)
    ensures Placed(r, LeftPieces(z, available, focusStart, focusEnd)) == [r]
    ensures Placed(r, RightPieces(z, available, focusStart, focusEnd)) == [r]
  {
    ListRoom(z, available);
    hide Five, Middle, Fitted;
    FiveFits(z, available);
    NoneFits3(z, available);
    NotDrawn(NonePieces(z, available), r.section);
  }

  /** format_draw_left, the focus already settled. */
  method DrawLeft(v: Canvas, z: Sizes, available: nat, focusStart: nat, focusEnd: nat) returns (r: Canvas)
    requires focusStart <= focusEnd
    ensures r == DrawnAll(v, LeftPieces(z, available, focusStart, focusEnd))
    ensures r.pieces == v.pieces + LeftPieces(z, available, focusStart, focusEnd)
    ensures r.ranges == PlacedAll(v.ranges, LeftPieces(z, available, focusStart, focusEnd))
  {
    hide Updated, Fitted, ListPieces, NonePieces, DrawnAll, PlacedAll, Once;
    ghost var f, ps := Five(z, available), LeftPieces(z, available, focusStart, focusEnd);
    FiveFits(z, available);
    PiecesOf(v, ps);
    LeftOnce(z, available, focusStart, focusEnd);
    RangesDrawn(v, ps);
    var width_centre, width_list, width_right, width_after, width_left :=
      FitFive(z.centre, z.list, z.right, z.after, z.left, available);
    assert f == [width_centre, width_list, width_right, width_after, width_left];
    if width_list == 0 {
      r := DrawNone(v, z, available);
      return;
    }
    ghost var four := LeftFour(z, available, width_centre, width_list, width_right, width_after, width_left);
    ghost var list := ListPieces(z, width_left, width_list, focusStart, focusEnd);
    FourDrawn(v, four);
    r := Put(v, Left, 0, 0, width_left);
    r := Put(r, Right, available - width_right, z.right - width_right, width_right);
    r := Put(r, After, width_left + width_list, 0, width_after);
    r := Put(r, Centre,
             width_left + width_list + width_after
             + (available - width_right - (width_left + width_list + width_after)) / 2 - width_centre / 2,
             z.centre / 2 - width_centre / 2, width_centre);
    r := PutList(r, z, width_left, width_list, focusStart, focusEnd);
    DrawnConcat(v, four, list);
    var width_abs := z.abs;
    if width_abs > available {
      width_abs := available;
    }
    r := Put(r, AbsCentre, (available - width_abs) / 2, 0, width_abs);
    DrawnMore(v, four + list, Piece(AbsCentre, (available - width_abs) / 2, 0, width_abs));
  }

  /** format_draw_right, the focus already settled. */
  method DrawRight(v: Canvas, z: Sizes, available: nat, focusStart: nat, focusEnd: nat) returns (r: Canvas)
    requires focusStart <= focusEnd
    ensures r == DrawnAll(v, RightPieces(z, available, focusStart, focusEnd))
    ensures r.pieces == v.pieces + RightPieces(z, available, focusStart, focusEnd)
    ensures r.ranges == PlacedAll(v.ranges, RightPieces(z, available, focusStart, focusEnd))
  {
    hide Updated, Fitted, ListPieces, NonePieces, DrawnAll, PlacedAll, Once;
    ghost var f, ps := Five(z, available), RightPieces(z, available, focusStart, focusEnd);
    FiveFits(z, available);
    PiecesOf(v, ps);
    LeftOnce(z, available, focusStart, focusEnd);
    RangesDrawn(v, ps);
    var width_centre, width_list, width_right, width_after, width_left :=
      FitFive(z.centre, z.list, z.right, z.after, z.left, available);
    assert f == [width_centre, width_list, width_right, width_after, width_left];
    if width_list == 0 {
      r := DrawNone(v, z, available);
      return;
    }
    ghost var four := RightFour(z, available, width_centre, width_list, width_right, width_after, width_left);
    ghost var list := ListPieces(z, available - width_list - width_after, width_list, focusStart, focusEnd);
    FourDrawn(v, four);
    r := Put(v, Left, 0, 0, width_left);
    r := Put(r, After, available - width_after, z.after - width_after, width_after);
    r := Put(r, Right, available - width_right - width_list - width_after, 0, width_right);
    r := Put(r, Centre,
             width_left + (available - width_right - width_list - width_after - width_left) / 2 - width_centre / 2,
             z.centre / 2 - width_centre / 2, width_centre);
    r := PutList(r, z, available - width_list - width_after, width_list, focusStart, focusEnd);
    DrawnConcat(v, four, list);
    var width_abs := z.abs;
    if width_abs > available {
      width_abs := available;
    }
    r := Put(r, AbsCentre, (available - width_abs) / 2, 0, width_abs);
    DrawnMore(v, four + list, Piece(AbsCentre, (available - width_abs) / 2, 0, width_abs));
  }

  lemma {:induction false} PiecesOf(v: Canvas, ps: seq<Piece>)
    ensures DrawnAll(v, ps).pieces == v.pieces + ps
    decreases |ps|
  {
    if ps != [] {
      PiecesOf(Drawn(v, ps[0]), ps[1..]);
      assert v.pieces + [ps[0]] + ps[1..] == v.pieces + ps;
    }
  }
}

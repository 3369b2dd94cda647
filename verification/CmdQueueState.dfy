/** The command queues as values: items on lists, what each holds a reference to, and what
    has been fired or cancelled (cmd-queue.c). */
module CmdQueueState {

  /** CMD_RETURN_NORMAL, CMD_RETURN_ERROR, CMD_RETURN_WAIT */
  datatype Result = Normal | Error | Wait

  /** A command as run: the client found for it, what it does to the queues, and what it
      returns. Any finite behaviour of a command or callback is some plan. */
  datatype Plan = Plan(found: nat, during: seq<Act>, after: seq<Act>, result: Result)

  datatype Command = Command(group: nat, plan: Plan)

  /** One use of the queues: commands of a list inserted after the running item or after
      the last item so inserted, commands appended to a queue, an item allowed to go on. */
  datatype Act =
    | Insert(atLast: bool, cmdlist: nat, state: nat, commands: seq<Command>)
    | Append(client: nat, cmdlist: nat, state: nat, commands: seq<Command>)
    | Continue(client: nat)

  datatype Link = End | To(id: nat)
  datatype Place = Nowhere | On(queue: nat)

  /** struct cmdq_item. Client 0 is no client, and names the global queue; command list 0
      is none, as a callback has. */
  datatype Item = Item(client: nat, place: Place, group: nat, state: nat, cmdlist: nat,
                       fired: bool, waiting: bool, plan: Plan, next: Link)

  /** References: the count of each object, and how many of them are not held by items. */
  datatype Refs = Refs(count: map<nat, nat>, base: map<nat, nat>)

  /** `running` is the item being fired, if any, and `saved` the client it really has.
      `timeline` keeps the items of each queue in queue order, gone ones too; `shots` is
      what was fired from it. */
  datatype State = State(
    items: map<nat, Item>,
    lists: map<nat, seq<nat>>,
    next: nat,
    running: Link,
    saved: nat,
    clients: Refs,
    states: Refs,
    cmdlists: Refs,
    timeline: map<nat, seq<nat>>,
    shots: map<nat, seq<nat>>,
    cancelled: set<nat>)

  // ----- Sequences

  predicate Unique(s: seq<nat>) {
    forall i, j :: 0 <= i < j < |s| ==> s[i] != s[j]
  }

  /** TAILQ_REMOVE */
  function Without(s: seq<nat>, x: nat): seq<nat> {
    if s == [] then [] else if s[0] == x then s[1..] else [s[0]] + Without(s[1..], x)
  }

  /** TAILQ_INSERT_AFTER */
  function Splice(s: seq<nat>, x: nat, y: nat): seq<nat> {
    if s == [] then [] else if s[0] == x then [x, y] + s[1..] else [s[0]] + Splice(s[1..], x, y)
  }

  function Filter(s: seq<nat>, keep: set<nat>): seq<nat> {
    if s == [] then [] else (if s[0] in keep then [s[0]] else []) + Filter(s[1..], keep)
  }

  lemma UniqueTail(s: seq<nat>)
    requires Unique(s) && s != []
    ensures Unique(s[1..]) && s[0] !in s[1..]
    ensures forall x :: x in s <==> x == s[0] || x in s[1..]
  {
    var r := s[1..];
    assert forall i :: 0 <= i < |r| ==> r[i] == s[i + 1];
  }

  lemma UniqueCons(x: nat, s: seq<nat>)
    requires Unique(s) && x !in s
    ensures Unique([x] + s)
    ensures forall y :: y in [x] + s <==> y == x || y in s
  {
  }

  lemma UniqueAppend(s: seq<nat>, x: nat)
    requires Unique(s) && x !in s
    ensures Unique(s + [x])
    ensures forall y :: y in s + [x] <==> y == x || y in s
  {
  }

  lemma {:induction false} WithoutMembers(s: seq<nat>, x: nat)
    requires Unique(s)
    ensures Unique(Without(s, x))
    ensures forall y :: y in Without(s, x) <==> y in s && y != x
    ensures |Without(s, x)| == |s| - if x in s then 1 else 0
  {
    if s != [] {
      UniqueTail(s);
      WithoutMembers(s[1..], x);
      if s[0] != x {
        UniqueCons(s[0], Without(s[1..], x));
      }
    }
  }

  lemma {:induction false} SpliceMembers(s: seq<nat>, x: nat, y: nat)
    requires Unique(s) && x in s && y !in s
    ensures Unique(Splice(s, x, y)) && |Splice(s, x, y)| == |s| + 1
    ensures Splice(s, x, y)[0] == s[0]
    ensures forall z :: z in Splice(s, x, y) <==> z in s || z == y
  {
    UniqueTail(s);
    if s[0] == x {
      UniqueCons(y, s[1..]);
      UniqueCons(x, [y] + s[1..]);
      assert [x, y] + s[1..] == [x] + ([y] + s[1..]);
    } else {
      SpliceMembers(s[1..], x, y);
      UniqueCons(s[0], Splice(s[1..], x, y));
    }
  }

  lemma {:induction false} FilterMembers(s: seq<nat>, keep: set<nat>)
    ensures forall x :: x in Filter(s, keep) <==> x in s && x in keep
  {
    if s != [] {
      FilterMembers(s[1..], keep);
      assert forall x :: x in s <==> x == s[0] || x in s[1..];
    }
  }

  lemma {:induction false} FilterSame(s: seq<nat>, a: set<nat>, b: set<nat>)
    requires forall x :: x in s ==> (x in a <==> x in b)
    ensures Filter(s, a) == Filter(s, b)
  {
    if s != [] {
      assert s[0] in s;
      FilterSame(s[1..], a, b);
    }
  }

  lemma {:induction false} FilterAppend(s: seq<nat>, x: nat, keep: set<nat>)
    ensures Filter(s + [x], keep) == Filter(s, keep) + if x in keep then [x] else []
  {
    if s == [] {
      assert [x][1..] == [];
    } else {
      FilterAppend(s[1..], x, keep);
      assert (s + [x])[1..] == s[1..] + [x];
    }
  }

  lemma FilterCons(x: nat, s: seq<nat>, keep: set<nat>)
    ensures Filter([x] + s, keep) == (if x in keep then [x] else []) + Filter(s, keep)
  {
    assert ([x] + s)[1..] == s;
  }

  lemma WithoutCons(a: nat, s: seq<nat>, x: nat)
    ensures Without([a] + s, x) == if a == x then s else [a] + Without(s, x)
  {
    assert ([a] + s)[1..] == s;
  }

  lemma SpliceCons(a: nat, s: seq<nat>, x: nat, y: nat)
    ensures Splice([a] + s, x, y) == if a == x then [x, y] + s else [a] + Splice(s, x, y)
  {
    assert ([a] + s)[1..] == s;
  }

  lemma {:induction false} FilterWithout(s: seq<nat>, keep: set<nat>, x: nat)
    requires Unique(s)
    ensures Filter(s, keep - {x}) == Without(Filter(s, keep), x)
  {
    if s != [] {
      UniqueTail(s);
      FilterWithout(s[1..], keep, x);
      WithoutCons(s[0], Filter(s[1..], keep), x);
      if s[0] == x {
        FilterSame(s[1..], keep - {x}, keep);
        FilterMembers(s[1..], keep);
        WithoutAbsent(Filter(s[1..], keep), x);
        assert [] + Filter(s[1..], keep) == Filter(s[1..], keep);
      } else {
        var f := Filter(s[1..], keep);
        assert s[0] in keep ==> Filter(s, keep) == [s[0]] + f;
        assert s[0] !in keep ==> Filter(s, keep) == f;
      }
    }
  }

  lemma {:induction false} WithoutAbsent(s: seq<nat>, x: nat)
    requires x !in s
    ensures Without(s, x) == s
  {
    if s != [] {
      assert s[0] != x;
      WithoutAbsent(s[1..], x);
      assert s == [s[0]] + s[1..];
    }
  }

  /** Inserting in the timeline is inserting in the queue. */
  lemma {:induction false} FilterSplice(s: seq<nat>, keep: set<nat>, x: nat, y: nat)
    requires Unique(s) && x in s && x in keep && y !in s
    ensures Filter(Splice(s, x, y), keep + {y}) == Splice(Filter(s, keep), x, y)
  {
    hide Filter, Splice, Unique;
    UniqueTail(s);
    var a, r := s[0], s[1..];
    assert s == [a] + r;
    SpliceCons(a, r, x, y);
    FilterCons(a, r, keep);
    SpliceCons(a, Filter(r, keep), x, y);
    if a == x {
      FilterSame(r, keep + {y}, keep);
      assert [x, y] + r == [x] + ([y] + r);
      FilterCons(x, [y] + r, keep + {y});
      FilterCons(y, r, keep + {y});
    } else {
      FilterSplice(r, keep, x, y);
      FilterCons(a, Splice(r, x, y), keep + {y});
      assert a in s && a != y;
      assert a !in keep ==> Filter(s, keep) == Filter(r, keep);
    }
  }

  /** Items not kept make no difference where they are. */
  lemma {:induction false} FilterSpliceOther(s: seq<nat>, keep: set<nat>, x: nat, y: nat)
    requires y !in keep
    ensures Filter(Splice(s, x, y), keep) == Filter(s, keep)
  {
    hide Filter, Splice;
    if s == [] {
      SpliceNone(x, y);
    } else {
      var a, r := s[0], s[1..];
      assert s == [a] + r;
      SpliceCons(a, r, x, y);
      FilterCons(a, r, keep);
      if a == x {
        assert [x, y] + r == [x] + ([y] + r);
        FilterCons(x, [y] + r, keep);
        FilterCons(y, r, keep);
      } else {
        FilterSpliceOther(r, keep, x, y);
        FilterCons(a, Splice(r, x, y), keep);
      }
    }
  }

  lemma SpliceNone(x: nat, y: nat)
    ensures Splice([], x, y) == []
  {
  }

  /** Where nothing kept comes after x, keeping x too puts it at the end. */
  lemma {:induction false} FilterLast(s: seq<nat>, keep: set<nat>, x: nat)
    requires Unique(s) && x in s && x !in keep
    requires forall i, j :: 0 <= i < j < |s| && s[i] == x ==> s[j] !in keep
    ensures Filter(s, keep + {x}) == Filter(s, keep) + [x]
  {
    UniqueTail(s);
    var r := s[1..];
    if s[0] == x {
      forall z | z in r
        ensures z !in keep && z != x
      {
        var k :| 0 <= k < |r| && r[k] == z;
        assert s[k + 1] == z;
      }
      FilterNone(r, keep);
      FilterNone(r, keep + {x});
    } else {
      assert forall i, j :: 0 <= i < j < |r| && r[i] == x ==> r[j] == s[j + 1] && s[i + 1] == x;
      FilterLast(r, keep, x);
    }
  }

  lemma {:induction false} FilterNone(s: seq<nat>, keep: set<nat>)
    requires forall x :: x in s ==> x !in keep
    ensures Filter(s, keep) == []
  {
    if s != [] {
      assert s[0] in s;
      FilterNone(s[1..], keep);
    }
  }

  // ----- Counting references

  ghost function Those(held: map<nat, nat>, v: nat): set<nat> {
    set id | id in held && held[id] == v
  }

  /** How many items hold `v`. */
  ghost function Holders(held: map<nat, nat>, v: nat): nat {
    |Those(held, v)|
  }

  lemma ThoseSet(held: map<nat, nat>, id: nat, v: nat, x: nat, k: nat)
    ensures k in Those(held[id := v], x) <==> k in Those(held - {id}, x) || (k == id && x == v)
    ensures id !in Those(held - {id}, x)
  {
  }

  lemma HoldersSet(held: map<nat, nat>, id: nat, v: nat, x: nat)
    ensures Holders(held[id := v], x)
            == Holders(held - {id}, x) + if x == v then 1 else 0
  {
    var more, less := Those(held[id := v], x), Those(held - {id}, x);
    forall k
      ensures k in more <==> k in less || (k == id && x == v)
      ensures id !in less
    {
      ThoseSet(held, id, v, x, k);
    }
    hide Those;
    if x == v {
      assert more == less + {id};
    } else {
      assert more == less;
    }
  }

  lemma HoldersGone(held: map<nat, nat>, id: nat, x: nat)
    requires id in held
    ensures Holders(held - {id}, x) == Holders(held, x) - if x == held[id] then 1 else 0
  {
    assert held[id := held[id]] == held;
    HoldersSet(held, id, held[id], x);
  }

  lemma NoHolder(held: map<nat, nat>, v: nat, id: nat)
    requires Holders(held, v) == 0 && id in held
    ensures held[id] != v
  {
    var who := Those(held, v);
    assert who == {};
    assert held[id] == v ==> id in who;
  }

  /** The count of every object is its base and one for each item holding it, and what an
      item holds is there. */
  ghost predicate Counted(refs: Refs, held: map<nat, nat>) {
    && refs.count.Keys == refs.base.Keys && 0 !in refs.count
    && (forall v :: v in refs.count ==> refs.count[v] == refs.base[v] + Holders(held, v) && refs.count[v] > 0)
    && (forall id :: id in held && held[id] != 0 ==> held[id] in refs.count)
  }

  /** One more reference; none for 0. */
  function Ref(refs: Refs, v: nat): Refs {
    if v in refs.count then refs.(count := refs.count[v := refs.count[v] + 1]) else refs
  }

  /** One fewer; the object is freed when none is left. */
  function Unref(refs: Refs, v: nat): Refs {
    if v !in refs.count || refs.count[v] == 0 then refs
    else if refs.count[v] == 1 then Refs(refs.count - {v}, refs.base - {v})
    else refs.(count := refs.count[v := refs.count[v] - 1])
  }

  lemma RefKeeps(refs: Refs, held: map<nat, nat>, id: nat, v: nat)
    requires Counted(refs, held) && (v == 0 || v in refs.count) && (id in held ==> held[id] == 0)
    ensures Counted(Ref(refs, v), held[id := v])
  {
    forall x | x in refs.count
      ensures Holders(held[id := v], x) == Holders(held, x) + if x == v then 1 else 0
    {
      HoldersSet(held, id, v, x);
      if id in held {
        HoldersGone(held, id, x);
      } else {
        assert held - {id} == held;
      }
    }
  }

  lemma UnrefKeeps(refs: Refs, held: map<nat, nat>, id: nat)
    requires Counted(refs, held) && id in held
    ensures Counted(Unref(refs, held[id]), held - {id})
  {
    var v := held[id];
    forall x | x in refs.count
      ensures Holders(held - {id}, x) == Holders(held, x) - if x == v then 1 else 0
    {
      HoldersGone(held, id, x);
    }
    if v in refs.count && refs.count[v] == 1 {
      forall k | k in held - {id}
        ensures (held - {id})[k] != v
      {
        HoldersGone(held, id, v);
        NoHolder(held - {id}, v, k);
      }
    }
  }

  /** More references from elsewhere, and fewer. */
  function RefOutside(refs: Refs, v: nat): Refs {
    if v in refs.count && v in refs.base then
      Refs(refs.count[v := refs.count[v] + 1], refs.base[v := refs.base[v] + 1])
    else refs
  }

  function UnrefOutside(refs: Refs, v: nat): Refs {
    if v !in refs.count || v !in refs.base || refs.count[v] == 0 || refs.base[v] == 0 then refs
    else if refs.count[v] == 1 then Refs(refs.count - {v}, refs.base - {v})
    else Refs(refs.count[v := refs.count[v] - 1], refs.base[v := refs.base[v] - 1])
  }

  /** A new object, with one reference. */
  function NewRef(refs: Refs, v: nat): Refs {
    Refs(refs.count[v := 1], refs.base[v := 1])
  }

  lemma RefOutsideKeeps(refs: Refs, held: map<nat, nat>, v: nat)
    requires Counted(refs, held)
    ensures Counted(RefOutside(refs, v), held)
  {
  }

  lemma UnrefOutsideKeeps(refs: Refs, held: map<nat, nat>, v: nat)
    requires Counted(refs, held) && v in refs.base && refs.base[v] > 0
    ensures Counted(UnrefOutside(refs, v), held)
  {
    if refs.count[v] == 1 {
      forall k | k in held
        ensures held[k] != v
      {
        NoHolder(held, v, k);
      }
    }
  }

  lemma NewRefKeeps(refs: Refs, held: map<nat, nat>, v: nat)
    requires Counted(refs, held) && v != 0 && v !in refs.count
    ensures Counted(NewRef(refs, v), held)
  {
    assert Those(held, v) == {} by {
      forall k | k in held
        ensures held[k] != v
      {
      }
    }
  }

  // ----- A queue and its history

  function Members(s: seq<nat>): set<nat> {
    set x | x in s
  }

  /** The queue, and what was fired from it, are both in the order of the timeline, and
      nothing still queued comes before anything fired. */
  ghost predicate Track(list: seq<nat>, timeline: seq<nat>, shots: seq<nat>) {
    && Unique(timeline)
    && list == Filter(timeline, Members(list))
    && shots == Filter(timeline, Members(shots))
    && forall i, j :: 0 <= i < j < |timeline| && timeline[j] in shots ==> timeline[i] !in list
  }

  lemma {:induction false} FilterUnique(s: seq<nat>, keep: set<nat>)
    requires Unique(s)
    ensures Unique(Filter(s, keep))
  {
    if s != [] {
      UniqueTail(s);
      FilterUnique(s[1..], keep);
      FilterMembers(s[1..], keep);
      if s[0] in keep {
        UniqueCons(s[0], Filter(s[1..], keep));
      }
    }
  }

  lemma TrackMembers(list: seq<nat>, timeline: seq<nat>, shots: seq<nat>)
    requires Track(list, timeline, shots)
    ensures Unique(list) && Unique(shots)
    ensures forall x :: x in list ==> x in timeline
    ensures forall x :: x in shots ==> x in timeline
  {
    FilterUnique(timeline, Members(list));
    FilterUnique(timeline, Members(shots));
    FilterMembers(timeline, Members(list));
    FilterMembers(timeline, Members(shots));
  }

  lemma TrackAppend(list: seq<nat>, timeline: seq<nat>, shots: seq<nat>, x: nat)
    requires Track(list, timeline, shots) && x !in timeline
    ensures Track(list + [x], timeline + [x], shots)
  {
    hide Unique, Filter;
    TrackMembers(list, timeline, shots);
    UniqueAppend(timeline, x);
    assert Members(list + [x]) == Members(list) + {x};
    FilterAppend(timeline, x, Members(list + [x]));
    FilterAppend(timeline, x, Members(shots));
    FilterSame(timeline, Members(list), Members(list + [x]));
    var t := timeline + [x];
    forall i, j | 0 <= i < j < |t| && t[j] in shots
      ensures t[i] !in list + [x]
    {
      assert t[j] != x;
      assert t[i] == timeline[i] && timeline[i] in timeline;
    }
  }

  lemma {:induction false} SpliceAt(s: seq<nat>, x: nat, y: nat, i: nat, j: nat)
    requires Unique(s) && x in s && y !in s
    requires i < j < |Splice(s, x, y)|
    ensures var r := Splice(s, x, y);
            if r[i] == y then r[j] in s && exists a, b :: 0 <= a < b < |s| && s[a] == x && s[b] == r[j]
            else r[j] != y ==> exists a, b :: 0 <= a < b < |s| && s[a] == r[i] && s[b] == r[j]
  {
    UniqueTail(s);
    var r, t := Splice(s, x, y), s[1..];
    if s[0] == x {
      assert r == [x, y] + t;
      if r[i] == y {
        forall k | 0 <= k < |t|
          ensures t[k] != y
        {
          assert t[k] in t;
        }
        assert i == 1;
        assert s[0] == x && s[j - 1] == r[j];
      } else if r[j] != y {
        assert s[if i == 0 then 0 else i - 1] == r[i] && s[j - 1] == r[j];
      }
    } else {
      var u := Splice(t, x, y);
      assert r == [s[0]] + u;
      SpliceMembers(t, x, y);
      if i > 0 {
        SpliceAt(t, x, y, i - 1, j - 1);
        assert r[i] == u[i - 1] && r[j] == u[j - 1];
        if r[i] == y {
          var a, b :| 0 <= a < b < |t| && t[a] == x && t[b] == r[j];
          assert s[a + 1] == x && s[b + 1] == r[j];
        } else if r[j] != y {
          var a, b :| 0 <= a < b < |t| && t[a] == r[i] && t[b] == r[j];
          assert s[a + 1] == r[i] && s[b + 1] == r[j];
        }
      } else if r[j] != y {
        assert u[j - 1] in t;
        var b :| 0 <= b < |t| && t[b] == r[j];
        assert s[0] == r[0] && s[b + 1] == r[j];
      }
    }
  }

  /** A new item right after one still queued. */
  lemma TrackSplice(list: seq<nat>, timeline: seq<nat>, shots: seq<nat>, x: nat, y: nat)
    requires Track(list, timeline, shots) && x in list && y !in timeline
    ensures Track(Splice(list, x, y), Splice(timeline, x, y), shots)
  {
    hide Unique, Filter, Splice;
    TrackMembers(list, timeline, shots);
    SpliceMembers(timeline, x, y);
    SpliceMembers(list, x, y);
    assert Members(Splice(list, x, y)) == Members(list) + {y};
    FilterSplice(timeline, Members(list), x, y);
    FilterSpliceOther(timeline, Members(shots), x, y);
    var t := Splice(timeline, x, y);
    forall i, j | 0 <= i < j < |t| && t[j] in shots
      ensures t[i] !in Splice(list, x, y)
    {
      SpliceAt(timeline, x, y, i, j);
    }
  }

  lemma TrackRemove(list: seq<nat>, timeline: seq<nat>, shots: seq<nat>, x: nat)
    requires Track(list, timeline, shots)
    ensures Track(Without(list, x), timeline, shots)
  {
    hide Unique, Filter, Without;
    TrackMembers(list, timeline, shots);
    WithoutMembers(list, x);
    assert Members(Without(list, x)) == Members(list) - {x};
    FilterWithout(timeline, Members(list), x);
  }

  lemma FilterFirst(s: seq<nat>, keep: set<nat>)
    requires s != []
    ensures s[0] in keep ==> Filter(s, keep) != [] && Filter(s, keep)[0] == s[0]
  {
  }

  lemma {:induction false} FilterHead(s: seq<nat>, keep: set<nat>, i: nat, j: nat)
    requires Filter(s, keep) != [] && i < j < |s| && s[j] == Filter(s, keep)[0] && Unique(s)
    ensures s[i] !in keep
  {
    UniqueTail(s);
    FilterFirst(s, keep);
    assert s[j] != s[0];
    if i > 0 {
      FilterHead(s[1..], keep, i - 1, j - 1);
    }
  }

  /** The head is fired, and that is in order. */
  lemma TrackShoot(list: seq<nat>, timeline: seq<nat>, shots: seq<nat>)
    requires Track(list, timeline, shots) && list != [] && list[0] !in shots
    ensures Track(list, timeline, shots + [list[0]])
  {
    hide Unique, Filter;
    var x := list[0];
    TrackMembers(list, timeline, shots);
    assert x in list;
    assert Members(shots + [x]) == Members(shots) + {x};
    FilterLast(timeline, Members(shots), x);
    forall i, j | 0 <= i < j < |timeline| && timeline[j] in shots + [x]
      ensures timeline[i] !in list
    {
      if timeline[j] !in shots {
        FilterHead(timeline, Members(list), i, j);
      }
    }
  }
}

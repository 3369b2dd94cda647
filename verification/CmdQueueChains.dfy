/** Chains of new items, put on a queue one after the other (cmd-queue.c). */
module CmdQueueChains {
  import opened CmdQueueState
  import opened CmdQueueSteps

  // ----- Chains of new items

  /** New items linked by their next pointers. */
  ghost predicate Chain(items: map<nat, Item>, first: Link, chain: seq<nat>) {
    && Unique(chain)
    && (if chain == [] then first == End else first == To(chain[0]))
    && forall i :: 0 <= i < |chain| ==>
         && chain[i] in items && items[chain[i]].place == Nowhere
         && items[chain[i]].next == if i + 1 < |chain| then To(chain[i + 1]) else End
  }

  /** A whole chain right after an item. */
  function SpliceAll(list: seq<nat>, x: nat, chain: seq<nat>): seq<nat> {
    if list == [] then [] else if list[0] == x then [x] + chain + list[1..] else [list[0]] + SpliceAll(list[1..], x, chain)
  }

  lemma {:induction false} SpliceNothing(list: seq<nat>, x: nat)
    ensures SpliceAll(list, x, []) == list
  {
    if list != [] {
      SpliceNothing(list[1..], x);
      assert list == [list[0]] + list[1..];
    }
  }

  /** Inserting after the last one inserted keeps the chain in order. */
  lemma {:induction false} SpliceMore(list: seq<nat>, x: nat, chain: seq<nat>, y: nat)
    requires Unique(list) && forall c :: c in chain ==> c !in list
    requires Unique(chain) && x in list
    ensures var last := if chain == [] then x else chain[|chain| - 1];
            Splice(SpliceAll(list, x, chain), last, y) == SpliceAll(list, x, chain + [y])
  {
    var last := if chain == [] then x else chain[|chain| - 1];
    UniqueTail(list);
    assert list == [list[0]] + list[1..];
    if list[0] == x {
      if chain == [] {
        assert [x] + [] + list[1..] == [x] + list[1..];
        SpliceCons(x, list[1..], x, y);
        assert [x, y] + list[1..] == [x] + ([] + [y]) + list[1..];
      } else {
        assert [x] + chain + list[1..] == [x] + (chain + list[1..]);
        assert last in chain;
        SpliceCons(x, chain + list[1..], last, y);
        SpliceEnd(chain, list[1..], y);
        assert [x] + (chain + [y] + list[1..]) == [x] + (chain + [y]) + list[1..];
      }
    } else {
      assert last != list[0] by {
        if chain != [] {
          assert last in chain;
        }
      }
      SpliceMore(list[1..], x, chain, y);
      SpliceCons(list[0], SpliceAll(list[1..], x, chain), last, y);
    }
  }

  lemma {:induction false} SpliceEnd(chain: seq<nat>, rest: seq<nat>, y: nat)
    requires chain != [] && Unique(chain)
    ensures Splice(chain + rest, chain[|chain| - 1], y) == chain + [y] + rest
  {
    hide Splice;
    var last := chain[|chain| - 1];
    assert chain == [chain[0]] + chain[1..];
    assert chain + rest == [chain[0]] + (chain[1..] + rest);
    SpliceCons(chain[0], chain[1..] + rest, last, y);
    if |chain| > 1 {
      UniqueTail(chain);
      SpliceEnd(chain[1..], rest, y);
      assert chain[0] + 0 != last;
      assert [chain[0]] + (chain[1..] + [y] + rest) == chain + [y] + rest;
    } else {
      assert chain[1..] + rest == rest;
      assert [last, y] + rest == chain + [y] + rest;
    }
  }

  function LastOf(x: nat, chain: seq<nat>): nat {
    if chain == [] then x else chain[|chain| - 1]
  }

  /** cmdq_append, the whole of it. */
  function EnqueueAll(s: State, q: nat, chain: seq<nat>): State {
    if chain == [] then s else Enqueue(EnqueueAll(s, q, chain[..|chain| - 1]), q, chain[|chain| - 1])
  }

  /** cmdq_insert_after, the whole of it. */
  function InsertAll(s: State, x: nat, chain: seq<nat>): State {
    if chain == [] then s
    else
      var before := chain[..|chain| - 1];
      InsertOne(InsertAll(s, x, before), LastOf(x, before), chain[|chain| - 1])
  }

  /** Items ready to be put on a queue. */
  ghost predicate Ready(s: State, chain: seq<nat>) {
    Unique(chain) && forall id :: id in chain ==> id in s.items && s.items[id].place == Nowhere
  }

  lemma ReadyBefore(s: State, chain: seq<nat>)
    requires Ready(s, chain) && chain != []
    ensures Ready(s, chain[..|chain| - 1]) && chain[|chain| - 1] !in chain[..|chain| - 1]
    ensures chain[|chain| - 1] in s.items && s.items[chain[|chain| - 1]].place == Nowhere
    ensures forall id :: id in chain <==> id in chain[..|chain| - 1] || id == chain[|chain| - 1]
  {
    assert chain == chain[..|chain| - 1] + [chain[|chain| - 1]];
    assert chain[|chain| - 1] in chain;
  }

  ghost predicate Appended(s: State, t: State, q: nat, chain: seq<nat>) {
    && t == s.(items := t.items, lists := t.lists, timeline := t.timeline, clients := t.clients)
    && t.items.Keys == s.items.Keys && t.clients.count.Keys == s.clients.count.Keys
    && q in s.lists && t.lists == s.lists[q := s.lists[q] + chain]
    && (forall id :: id in s.items && id !in chain ==> t.items[id] == s.items[id])
    && (forall id :: id in chain ==> id in s.items && t.items[id] == s.items[id].(client := q, place := On(q), next := End))
  }

  lemma {:induction false} EnqueueAllDoes(s: State, q: nat, chain: seq<nat>)
    requires Good(s) && Ready(s, chain) && q in s.lists && (q == 0 || q in s.clients.count)
    ensures Good(EnqueueAll(s, q, chain)) && Appended(s, EnqueueAll(s, q, chain), q, chain)
    decreases |chain|
  {
    hide Good, Unique;
    if chain == [] {
      assert s.lists[q := s.lists[q] + []] == s.lists by { assert s.lists[q] + [] == s.lists[q]; }
    } else {
      var before, id := chain[..|chain| - 1], chain[|chain| - 1];
      ReadyBefore(s, chain);
      EnqueueAllDoes(s, q, before);
      var t := EnqueueAll(s, q, before);
      EnqueueKeeps(t, q, id);
      EnqueueMore(s, t, q, before, id);
      assert chain == before + [id];
    }
  }

  lemma EnqueueMore(s: State, t: State, q: nat, before: seq<nat>, id: nat)
    requires Appended(s, t, q, before) && id !in before && id in s.items && Good(t) && q in t.lists
    ensures Appended(s, Enqueue(t, q, id), q, before + [id])
  {
    hide Good, Ref;
    QueueKnown(t, q);
    RefKeys(t.clients, q);
    assert s.lists[q] + before + [id] == s.lists[q] + (before + [id]);
    assert forall x :: x in before + [id] <==> x in before || x == id;
    assert t.items[id] == s.items[id];
  }

  lemma RefKeys(refs: Refs, v: nat)
    ensures Ref(refs, v).count.Keys == refs.count.Keys && Ref(refs, v).base == refs.base
  {
  }

  lemma QueueKnown(s: State, q: nat)
    requires Good(s) && q in s.lists
    ensures q in s.timeline && q in s.shots
  {
  }

  ghost predicate Inserted(s: State, t: State, x: nat, chain: seq<nat>)
    requires x in s.items && s.items[x].place.On?
  {
    var q := s.items[x].place.queue;
    && t == s.(items := t.items, lists := t.lists, timeline := t.timeline, clients := t.clients)
    && t.items.Keys == s.items.Keys && t.clients.count.Keys == s.clients.count.Keys
    && q in s.lists && t.lists == s.lists[q := SpliceAll(s.lists[q], x, chain)]
    && (forall id :: id in s.items && id !in chain && id != x ==> t.items[id] == s.items[id])
    && t.items[x] == s.items[x].(next := t.items[x].next)
    && (forall id :: id in chain ==> id in s.items)
    && (forall id :: id in chain ==>
          t.items[id] == s.items[id].(client := s.items[x].client, place := On(q), next := t.items[id].next))
  }

  lemma {:induction false} InsertAllDoes(s: State, x: nat, chain: seq<nat>)
    requires Good(s) && Ready(s, chain) && x in s.items && s.items[x].place.On?
    ensures Good(InsertAll(s, x, chain)) && Inserted(s, InsertAll(s, x, chain), x, chain)
    decreases |chain|
  {
    hide Good, Unique, SpliceAll;
    PlaceKnown(s, x);
    if chain == [] {
      SpliceNothing(s.lists[s.items[x].place.queue], x);
    } else {
      var before, id := chain[..|chain| - 1], chain[|chain| - 1];
      ReadyBefore(s, chain);
      InsertAllDoes(s, x, before);
      var t := InsertAll(s, x, before);
      assert LastOf(x, before) in t.items && t.items[LastOf(x, before)].place == s.items[x].place;
      InsertKeeps(t, LastOf(x, before), id);
      InsertMore(s, t, x, before, id);
      assert chain == before + [id];
    }
  }

  lemma InsertMore(s: State, t: State, x: nat, before: seq<nat>, id: nat)
    requires Good(s) && x in s.items && s.items[x].place.On? && Inserted(s, t, x, before) && Ready(s, before)
    requires id !in before && id in s.items && id != x && s.items[id].place == Nowhere && Good(t)
    ensures Inserted(s, InsertOne(t, LastOf(x, before), id), x, before + [id])
  {
    hide Good, Unique, SpliceAll, Splice, Ref;
    PlaceKnown(s, x);
    var q, last := s.items[x].place.queue, LastOf(x, before);
    QueueKnown(t, q);
    RefKeys(t.clients, t.items[last].client);
    assert before != [] ==> last in before;
    SpliceMore(s.lists[q], x, before, id);
    assert forall y :: y in before + [id] <==> y in before || y == id;
    assert t.items[id] == s.items[id];
    var u := InsertOne(t, last, id);
    assert u.lists == s.lists[q := SpliceAll(s.lists[q], x, before + [id])];
  }

  lemma PlaceKnown(s: State, x: nat)
    requires Good(s) && x in s.items && s.items[x].place.On?
    ensures var q := s.items[x].place.queue; q in s.lists && x in s.lists[q]
    ensures forall q :: q in s.lists ==> Unique(s.lists[q])
    ensures forall q, id :: q in s.lists && id in s.lists[q] ==> id in s.items && s.items[id].place == On(q)
  {
    hide Unique;
    QueueOf(s, x);
  }

  lemma PlaceIn(s: State, x: nat)
    requires Good(s) && x in s.items && s.items[x].place.On?
    ensures s.items[x].place.queue in s.lists && x in s.lists[s.items[x].place.queue]
  {
    hide Unique;
    PlaceKnown(s, x);
  }

  lemma EnqueueStep(s: State, q: nat, chain: seq<nat>, i: nat)
    requires i < |chain|
    ensures EnqueueAll(s, q, chain[..i + 1]) == Enqueue(EnqueueAll(s, q, chain[..i]), q, chain[i])
  {
    hide Enqueue;
    assert chain[..i + 1][..i] == chain[..i];
  }

  lemma EnqueueNone(s: State, q: nat)
    ensures EnqueueAll(s, q, []) == s
  {
  }

  lemma InsertNone(s: State, x: nat)
    ensures InsertAll(s, x, []) == s && LastOf(x, []) == x
  {
  }

  lemma InsertStep(s: State, x: nat, chain: seq<nat>, i: nat)
    requires i < |chain|
    ensures InsertAll(s, x, chain[..i + 1]) == InsertOne(InsertAll(s, x, chain[..i]), LastOf(x, chain[..i]), chain[i])
    ensures LastOf(x, chain[..i + 1]) == chain[i]
  {
    hide InsertOne;
    assert chain[..i + 1][..i] == chain[..i];
  }

  lemma ChainReady(s: State, first: Link, chain: seq<nat>)
    requires Chain(s.items, first, chain)
    ensures Ready(s, chain)
    ensures first == if chain == [] then End else To(chain[0])
    ensures forall k :: 0 <= k < |chain| ==> chain[k] in s.items && s.items[chain[k]].place == Nowhere
  {
    hide Unique;
  }

  lemma ChainDistinct(items: map<nat, Item>, first: Link, chain: seq<nat>, i: nat)
    requires Chain(items, first, chain) && i < |chain|
    ensures forall k :: i < k < |chain| ==> chain[k] != chain[i]
    ensures chain[i] in items && items[chain[i]].next == if i + 1 < |chain| then To(chain[i + 1]) else End
  {
  }

  // ----- Making a chain

  /** last->next = item */
  function LinkItem(s: State, last: nat, id: nat): State
    requires last in s.items
  {
    s.(items := s.items[last := s.items[last].(next := To(id))])
  }

  lemma LinkKeeps(s: State, last: nat, id: nat)
    requires Good(s) && last in s.items
    ensures Good(LinkItem(s, last, id))
  {
    hide Tracked, Past, Referenced;
    var t := LinkItem(s, last, id);
    HomedSame(s, t);
    PastSame(s, t);
    HeadedSame(s, t);
    TrackedSame(s, t);
    hide Homed, Headed;
    LinkReferenced(s, last, id);
  }

  lemma LinkReferenced(s: State, last: nat, id: nat)
    requires Referenced(s) && last in s.items
    ensures Referenced(LinkItem(s, last, id))
  {
    hide Counted;
    var t := LinkItem(s, last, id);
    assert Clients(t) == Clients(s);
    assert States(t) == States(s);
    assert Lists(t) == Lists(s);
  }

  lemma ChainMore(items: map<nat, Item>, more: map<nat, Item>, first: Link, chain: seq<nat>, id: nat)
    requires Chain(items, first, chain) && chain != [] && id !in items && id in more
    requires more[id].place == Nowhere && more[id].next == End && chain[|chain| - 1] in more
    requires forall x :: x in items && x != chain[|chain| - 1] ==> x in more && more[x] == items[x]
    requires more[chain[|chain| - 1]].next == To(id) && more[chain[|chain| - 1]].place == Nowhere
    ensures Chain(more, first, chain + [id])
  {
    hide Unique;
    assert forall k :: 0 <= k < |chain| ==> chain[k] in items;
    assert id !in chain;
    UniqueAppend(chain, id);
    ChainDistinct2(items, first, chain);
  }

  lemma ChainDistinct2(items: map<nat, Item>, first: Link, chain: seq<nat>)
    requires Chain(items, first, chain) && chain != []
    ensures forall k :: 0 <= k < |chain| - 1 ==> chain[k] != chain[|chain| - 1]
  {
  }

  lemma ChainOne(items: map<nat, Item>, id: nat)
    requires id in items && items[id].place == Nowhere && items[id].next == End
    ensures Chain(items, To(id), [id])
  {
  }

  /** What making a chain does: new items for the commands, and nothing else changed. */
  ghost predicate Made(s: State, t: State, chain: seq<nat>, commands: seq<Command>, cmdlist: nat, state: nat) {
    && t == s.(items := t.items, next := t.next, states := t.states, cmdlists := t.cmdlists)
    && t.cmdlists.count.Keys == s.cmdlists.count.Keys && t.next >= s.next
    && (forall v :: v in s.states.count ==> v in t.states.count)
    && (forall v :: v in s.states.base ==> v in t.states.base && t.states.base[v] == s.states.base[v])
    && NewItems(s.items, t.items, chain, commands, cmdlist, state)
  }

  ghost predicate NewItems(was: map<nat, Item>, now: map<nat, Item>, chain: seq<nat>, commands: seq<Command>, cmdlist: nat, state: nat) {
    && (forall id :: id in was ==> id in now && now[id] == was[id])
    && (forall id :: id in now ==> id in was || id in chain)
    && |chain| == |commands|
    && (forall i :: 0 <= i < |chain| ==>
          && chain[i] !in was && chain[i] in now
          && now[chain[i]] == Item(0, Nowhere, commands[i].group, state, cmdlist, false, false, commands[i].plan,
                                   now[chain[i]].next))
  }

  lemma MadeMore(s: State, t: State, u: State, chain: seq<nat>, commands: seq<Command>, cmdlist: nat, state: nat, id: nat, c: Command)
    requires Made(s, t, chain, commands, cmdlist, state)
    requires id !in t.items && id in u.items && u.next >= t.next
    requires u == t.(items := u.items, next := u.next, states := u.states, cmdlists := u.cmdlists)
    requires u.cmdlists.count.Keys == t.cmdlists.count.Keys && u.states.count.Keys == t.states.count.Keys
    requires u.states.base == t.states.base
    requires u.items.Keys == t.items.Keys + {id}
    requires forall x :: x in t.items && x !in chain ==> u.items[x] == t.items[x]
    requires forall x :: x in chain && x in t.items ==> u.items[x].(next := End) == t.items[x].(next := End)
    requires u.items[id] == Item(0, Nowhere, c.group, state, cmdlist, false, false, c.plan, u.items[id].next)
    ensures Made(s, u, chain + [id], commands + [c], cmdlist, state)
  {
    assert forall x :: x in s.items ==> x !in chain;
    forall i | 0 <= i < |chain|
      ensures u.items[chain[i]] == t.items[chain[i]].(next := u.items[chain[i]].next)
    {
      assert chain[i] in chain;
      var a, b := u.items[chain[i]], t.items[chain[i]];
      assert a.(next := End) == b.(next := End);
    }
  }

  lemma NewStateKeeps(s: State)
    requires Good(s)
    ensures s.next !in s.states.count && s.next > 0
    ensures Good(s.(next := s.next + 1, states := NewRef(s.states, s.next)))
  {
    hide Tracked, Headed, Counted;
    var t := s.(next := s.next + 1, states := NewRef(s.states, s.next));
    assert t.items == s.items;
    NewRefs(s);
    HomedSame(s, t);
    PastSame(s, t);
    TrackedSame(s, t);
    HeadedSame(s, t);
    assert Clients(t) == Clients(s);
    assert States(t) == States(s);
    assert Lists(t) == Lists(s);
  }

  lemma NewRefs(s: State)
    requires Referenced(s) && s.next > 0
    ensures Counted(NewRef(s.states, s.next), States(s))
    ensures forall v :: v in NewRef(s.states, s.next).count ==> v <= s.next
  {
    NewRefKeeps(s.states, States(s), s.next);
  }

  lemma StateOutsideKeeps(s: State, v: nat)
    requires Good(s) && v in s.states.count
    ensures Good(s.(states := RefOutside(s.states, v)))
    ensures v in s.states.base
    ensures s.states.base[v] > 0 ==> Good(s.(states := UnrefOutside(s.states, v)))
  {
    hide Tracked, Headed, Past, Homed;
    assert Counted(s.states, States(s));
    RefOutsideKeeps(s.states, States(s), v);
    StateRefs(s, s.(states := RefOutside(s.states, v)));
    if s.states.base[v] > 0 {
      UnrefOutsideKeeps(s.states, States(s), v);
      StateRefs(s, s.(states := UnrefOutside(s.states, v)));
    }
  }

  lemma BaseCounted(s: State, v: nat)
    requires Good(s) && v in s.states.base
    ensures v in s.states.count && s.states.count[v] >= s.states.base[v]
  {
    hide Tracked, Homed, Past, Headed;
  }

  lemma StateRefs(s: State, t: State)
    requires Good(s) && t == s.(states := t.states) && Counted(t.states, States(s))
    requires t.states.count.Keys <= s.states.count.Keys
    ensures Good(t)
  {
    hide Tracked, Counted;
    assert Clients(t) == Clients(s);
    assert States(t) == States(s);
    assert Lists(t) == Lists(s);
    HeadedSame(s, t);
    HomedSame(s, t);
    PastSame(s, t);
    TrackedSame(s, t);
  }

  lemma MakeFirst(s: State, c: Command, state: nat, cmdlist: nat)
    requires Good(s) && state in s.states.count && (cmdlist == 0 || cmdlist in s.cmdlists.count)
    ensures var t := Create(s, c.group, state, cmdlist, c.plan);
            && Good(t) && Chain(t.items, To(s.next), [s.next]) && Made(s, t, [s.next], [c], cmdlist, state)
            && s.next in t.items && state in t.states.count && (cmdlist == 0 || cmdlist in t.cmdlists.count)
  {
    hide Tracked, Past, Referenced;
    CreateKeeps(s, c.group, state, cmdlist, c.plan);
    NextIsNew(s);
    var t := Create(s, c.group, state, cmdlist, c.plan);
    RefKeys(s.states, state);
    RefKeys(s.cmdlists, cmdlist);
    hide Homed, Headed, Ref;
    ChainOne(t.items, s.next);
    assert Made(s, s, [], [], cmdlist, state);
    MadeMore(s, s, t, [], [], cmdlist, state, s.next, c);
    assert [] + [s.next] == [s.next] && [] + [c] == [c];
  }

  lemma MakeNext(s: State, t: State, first: Link, chain: seq<nat>, commands: seq<Command>, c: Command, state: nat, cmdlist: nat)
    requires Good(t) && Chain(t.items, first, chain) && chain != [] && Made(s, t, chain, commands, cmdlist, state)
    requires state in t.states.count && (cmdlist == 0 || cmdlist in t.cmdlists.count)
    ensures var u := Create(t, c.group, state, cmdlist, c.plan);
            var last := chain[|chain| - 1];
            && last in u.items && u == t.(items := u.items, next := u.next, states := u.states, cmdlists := u.cmdlists)
            && var v := LinkItem(u, last, t.next);
               && Good(v) && Chain(v.items, first, chain + [t.next])
               && Made(s, v, chain + [t.next], commands + [c], cmdlist, state)
               && state in v.states.count && (cmdlist == 0 || cmdlist in v.cmdlists.count) && t.next in v.items
  {
    hide Tracked, Past, Referenced, Homed, Headed, Ref, Made;
    var u := Create(t, c.group, state, cmdlist, c.plan);
    var last := chain[|chain| - 1];
    CreateKeeps(t, c.group, state, cmdlist, c.plan);
    NextIsNew(t);
    RefKeys(t.states, state);
    RefKeys(t.cmdlists, cmdlist);
    assert last in t.items && t.items[last].place == Nowhere;
    LinkKeeps(u, last, t.next);
    var v := LinkItem(u, last, t.next);
    ChainMore(t.items, v.items, first, chain, t.next);
    assert last in chain;
    MadeMore(s, t, v, chain, commands, cmdlist, state, t.next, c);
  }

  /** A state made for a chain and given to it. */
  lemma MadeOwn(s: State, t: State, chain: seq<nat>, commands: seq<Command>, cmdlist: nat, state: nat)
    requires state !in s.states.count && state != 0 && s.states.base.Keys == s.states.count.Keys
    requires Made(s.(next := s.next + 1, states := NewRef(s.states, state)), t, chain, commands, cmdlist, state)
    ensures state in t.states.base && t.states.base[state] > 0 && state in t.states.count
    ensures Made(s, t.(states := UnrefOutside(t.states, state)), chain, commands, cmdlist, state)
  {
    hide NewItems, UnrefOutside;
    var r := NewRef(s.states, state);
    assert state in r.base && r.base[state] == 1 && state in r.count;
    UnrefOutsideOthers(t.states, state);
    forall v | v in s.states.base
      ensures v != state && v in r.base && r.base[v] == s.states.base[v]
    {
    }
    forall v | v in s.states.count
      ensures v != state && v in r.count
    {
    }
  }

  lemma UnrefOutsideOthers(refs: Refs, v: nat)
    ensures forall x :: x in refs.count && x != v ==> x in UnrefOutside(refs, v).count
    ensures forall x :: x in refs.base && x != v ==> x in UnrefOutside(refs, v).base && UnrefOutside(refs, v).base[x] == refs.base[x]
  {
  }

  // ----- Clients and command lists that come and go

  function NewQueue(s: State, c: nat): State {
    s.(lists := s.lists[c := []], timeline := s.timeline[c := []], shots := s.shots[c := []], clients := NewRef(s.clients, c))
  }

  lemma NewQueueKeeps(s: State, c: nat)
    requires Good(s) && s.running == End && c != 0 && c !in s.lists && c !in s.clients.count
    ensures Good(NewQueue(s, c))
  {
    NewRefKeeps(s.clients, Clients(s), c);
    NewTracked(s, c);
    NewHomed(s, c);
    NewPast(s, c);
    ClientRefs(s, NewQueue(s, c));
  }

  lemma NewHomed(s: State, c: nat)
    requires Homed(s) && Headed(s) && c !in s.lists
    ensures Homed(NewQueue(s, c)) && Headed(NewQueue(s, c))
  {
    var t := NewQueue(s, c);
    forall id | id in s.items
      ensures Started(t, id) == Started(s, id)
      ensures s.items[id].place.On? ==> s.items[id].place.queue != c
    {
    }
  }

  lemma ClientRefs(s: State, t: State)
    requires Referenced(s) && s.running == t.running == End && t.items == s.items && t.next == s.next
    requires t.states == s.states && t.cmdlists == s.cmdlists && Counted(t.clients, Clients(s))
    ensures Referenced(t)
  {
    hide Counted;
    assert Clients(t) == Clients(s);
    assert States(t) == States(s);
    assert Lists(t) == Lists(s);
    HeldThere(t);
  }

  lemma NothingTracks()
    ensures Track([], [], [])
  {
  }

  lemma NewTracked(s: State, c: nat)
    requires Tracked(s) && c !in s.lists
    ensures Tracked(NewQueue(s, c))
  {
    hide Track;
    NothingTracks();
  }

  lemma NewPast(s: State, c: nat)
    requires Past(s) && c !in s.lists
    ensures Past(NewQueue(s, c))
  {
  }

  lemma CmdlistRefs(s: State, t: State)
    requires Good(s) && t == s.(cmdlists := t.cmdlists) && Counted(t.cmdlists, Lists(s))
    ensures Good(t)
  {
    hide Tracked, Counted;
    assert Clients(t) == Clients(s);
    assert States(t) == States(s);
    assert Lists(t) == Lists(s);
    HeadedSame(s, t);
    HomedSame(s, t);
    PastSame(s, t);
    TrackedSame(s, t);
  }

  lemma NewCmdlistKeeps(s: State, v: nat)
    requires Good(s) && v != 0 && v !in s.cmdlists.count
    ensures Good(s.(cmdlists := NewRef(s.cmdlists, v)))
  {
    NewRefKeeps(s.cmdlists, Lists(s), v);
    CmdlistRefs(s, s.(cmdlists := NewRef(s.cmdlists, v)));
  }

  lemma FreeCmdlistKeeps(s: State, v: nat)
    requires Good(s) && v in s.cmdlists.base && s.cmdlists.base[v] > 0
    ensures v in s.cmdlists.count && s.cmdlists.count[v] > 0
    ensures Good(s.(cmdlists := UnrefOutside(s.cmdlists, v)))
  {
    assert Counted(s.cmdlists, Lists(s));
    UnrefOutsideKeeps(s.cmdlists, Lists(s), v);
    CmdlistRefs(s, s.(cmdlists := UnrefOutside(s.cmdlists, v)));
  }

  /** A client goes away: its own reference is dropped while no item borrows it. */
  lemma LoseClientKeeps(s: State, c: nat)
    requires Good(s) && s.running == End && c in s.clients.base && s.clients.base[c] > 0
    ensures c in s.clients.count && s.clients.count[c] > 0
    ensures Good(s.(clients := UnrefOutside(s.clients, c)))
  {
    hide Tracked, Homed, Past, Headed;
    var t := s.(clients := UnrefOutside(s.clients, c));
    assert Counted(s.clients, Clients(s));
    UnrefOutsideKeeps(s.clients, Clients(s), c);
    hide Referenced;
    ClientRefs(s, t);
    LostOthers(s, t);
  }

  lemma LostOthers(s: State, t: State)
    requires Tracked(s) && Homed(s) && Past(s) && Headed(s) && t == s.(clients := t.clients)
    ensures Tracked(t) && Homed(t) && Past(t) && Headed(t)
  {
    HeadedSame(s, t);
    HomedSame(s, t);
    PastSame(s, t);
    TrackedSame(s, t);
  }

  /** A client with items queued is still there. */
  lemma QueuedClientThere(s: State, q: nat, id: nat)
    requires Good(s) && q in s.lists && q != 0 && id in s.lists[q]
    ensures q in s.clients.count
  {
    hide Track, Counted, Past;
    assert s.items[id].place == On(q);
  }
}

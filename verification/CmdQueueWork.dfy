/** How much a command queue can still do, and what one use of the queues by a running
    item changes (cmd-queue.c). */
module CmdQueueWork {
  import opened CmdQueueState
  import opened CmdQueueSteps
  import opened CmdQueueChains

  // ----- How much work a plan can make

  function PlanSize(p: Plan): nat {
    ActsSize(p.during) + ActsSize(p.after)
  }

  function ActsSize(acts: seq<Act>): nat {
    if acts == [] then 0 else ActSize(acts[0]) + ActsSize(acts[1..])
  }

  function ActSize(a: Act): nat {
    match a
    case Insert(_, _, _, commands) => 1 + CommandsSize(commands)
    case Append(_, _, _, commands) => 1 + CommandsSize(commands)
    case Continue(_) => 0
  }

  function CommandsSize(commands: seq<Command>): nat {
    if commands == [] then 0 else CommandSize(commands[0]) + CommandsSize(commands[1..])
  }

  function CommandSize(c: Command): nat {
    1 + PlanSize(c.plan)
  }

  /** cmdq_empty_command */
  const EMPTY := Plan(0, [], [], Normal)

  /** An item counts once, and for all it can still put on the queues. */
  function Cost(items: map<nat, Item>, id: nat): nat {
    if id in items && !items[id].fired then 1 + PlanSize(items[id].plan) else 1
  }

  function Work(list: seq<nat>, items: map<nat, Item>): nat {
    if list == [] then 0 else Cost(items, list[0]) + Work(list[1..], items)
  }

  lemma {:induction false} WorkSame(list: seq<nat>, a: map<nat, Item>, b: map<nat, Item>)
    requires forall id :: id in list ==> Cost(a, id) == Cost(b, id)
    ensures Work(list, a) == Work(list, b)
  {
    if list != [] {
      WorkSame(list[1..], a, b);
    }
  }

  lemma {:induction false} WorkConcat(a: seq<nat>, b: seq<nat>, items: map<nat, Item>)
    ensures Work(a + b, items) == Work(a, items) + Work(b, items)
  {
    if a == [] {
      assert a + b == b;
    } else {
      WorkConcat(a[1..], b, items);
      assert (a + b)[1..] == a[1..] + b;
    }
  }

  // ----- The effect of acting on the queues

  /** What an item that runs leaves alone: items that are queued stay where they are. */
  ghost predicate Steady(s: State, t: State) {
    && t.running == s.running && t.saved == s.saved && t.shots == s.shots && t.cancelled == s.cancelled
    && t.lists.Keys == s.lists.Keys && t.clients.count.Keys == s.clients.count.Keys
    && (forall x :: x in s.items ==>
          && x in t.items && t.items[x].plan == s.items[x].plan && t.items[x].group == s.items[x].group
          && t.items[x].fired == s.items[x].fired && t.items[x].cmdlist == s.items[x].cmdlist
          && (s.items[x].place.On? ==> t.items[x].place == s.items[x].place && t.items[x].client == s.items[x].client))
  }

  /** `b` has everything that `a` has, in the same order. */
  predicate Within(a: seq<nat>, b: seq<nat>) {
    Filter(b, Members(a)) == a
  }

  /** Nothing leaves a queue or moves on it. */
  ghost predicate Ordered(s: State, t: State) {
    forall p :: p in s.lists ==> p in t.lists && Within(s.lists[p], t.lists[p])
  }

  lemma {:induction false} FilterConcat(a: seq<nat>, b: seq<nat>, keep: set<nat>)
    ensures Filter(a + b, keep) == Filter(a, keep) + Filter(b, keep)
  {
    if a == [] {
      assert a + b == b;
    } else {
      FilterConcat(a[1..], b, keep);
      var here := if a[0] in keep then [a[0]] else [];
      assert a == [a[0]] + a[1..] && a + b == [a[0]] + (a[1..] + b);
      FilterCons(a[0], a[1..], keep);
      FilterCons(a[0], a[1..] + b, keep);
      assert here + (Filter(a[1..], keep) + Filter(b, keep)) == here + Filter(a[1..], keep) + Filter(b, keep);
    }
  }

  lemma {:induction false} FilterAll(s: seq<nat>, keep: set<nat>)
    requires forall x :: x in s ==> x in keep
    ensures Filter(s, keep) == s
  {
    if s != [] {
      FilterAll(s[1..], keep);
      assert s[0] in s;
    }
  }

  lemma {:induction false} FilterFilter(s: seq<nat>, a: set<nat>, b: set<nat>)
    requires a <= b
    ensures Filter(Filter(s, b), a) == Filter(s, a)
  {
    if s != [] {
      FilterFilter(s[1..], a, b);
      FilterConcat(if s[0] in b then [s[0]] else [], Filter(s[1..], b), a);
      FilterCons(s[0], [], a);
    }
  }

  lemma WithinSame(a: seq<nat>)
    ensures Within(a, a)
  {
    FilterAll(a, Members(a));
  }

  lemma WithinTwice(a: seq<nat>, b: seq<nat>, c: seq<nat>)
    requires Within(a, b) && Within(b, c)
    ensures Within(a, c)
  {
    FilterMembers(b, Members(a));
    FilterFilter(c, Members(a), Members(b));
  }

  lemma WithinAppend(a: seq<nat>, more: seq<nat>)
    requires forall x :: x in more ==> x !in a
    ensures Within(a, a + more)
  {
    FilterConcat(a, more, Members(a));
    FilterAll(a, Members(a));
    FilterNone(more, Members(a));
  }

  lemma {:induction false} FilterSpliceAll(list: seq<nat>, x: nat, chain: seq<nat>, keep: set<nat>)
    requires (forall y :: y in list ==> y in keep) && (forall y :: y in chain ==> y !in keep)
    ensures Filter(SpliceAll(list, x, chain), keep) == list
  {
    if list != [] {
      var a, r := list[0], list[1..];
      assert list == [a] + r && a in list;
      if a == x {
        FilterAll(r, keep);
        FilterNone(chain, keep);
        FilterConcat([x] + chain, r, keep);
        FilterCons(x, chain, keep);
      } else {
        FilterSpliceAll(r, x, chain, keep);
        FilterCons(a, SpliceAll(r, x, chain), keep);
      }
    }
  }

  lemma OrderedSame(s: State, t: State)
    requires t.lists == s.lists
    ensures Ordered(s, t)
  {
    forall p | p in s.lists
      ensures Within(s.lists[p], t.lists[p])
    {
      WithinSame(s.lists[p]);
    }
  }

  lemma OrderedTwice(s: State, t: State, u: State)
    requires Ordered(s, t) && Ordered(t, u)
    ensures Ordered(s, u)
  {
    hide Within;
    forall p | p in s.lists
      ensures Within(s.lists[p], u.lists[p])
    {
      WithinTwice(s.lists[p], t.lists[p], u.lists[p]);
    }
  }

  /** One queue longer, with none of its items anew. */
  lemma OrderedOne(s: State, t: State, q: nat)
    requires q in s.lists && q in t.lists && t.lists == s.lists[q := t.lists[q]] && Within(s.lists[q], t.lists[q])
    ensures Ordered(s, t)
  {
    forall p | p in s.lists
      ensures Within(s.lists[p], t.lists[p])
    {
      WithinSame(s.lists[p]);
    }
  }

  /** It puts at most `n` more work on queue `q`. */
  ghost predicate Acted(s: State, t: State, q: nat, n: nat) {
    Steady(s, t) && Ordered(s, t) && q in s.lists && Work(t.lists[q], t.items) <= Work(s.lists[q], s.items) + n
  }

  lemma ActedNothing(s: State, q: nat)
    requires q in s.lists
    ensures Acted(s, s, q, 0)
  {
    OrderedSame(s, s);
  }

  lemma ActedMore(s: State, t: State, u: State, q: nat, a: nat, b: nat)
    requires Acted(s, t, q, a) && Acted(t, u, q, b)
    ensures Acted(s, u, q, a + b)
  {
    OrderedTwice(s, t, u);
    hide Ordered, Work;
  }

  lemma ActedAtMost(s: State, t: State, q: nat, a: nat, b: nat)
    requires Acted(s, t, q, a) && a <= b
    ensures Acted(s, t, q, b)
  {
  }

  lemma OnList(s: State, q: nat)
    requires Good(s) && q in s.lists
    ensures forall id :: id in s.lists[q] ==> id in s.items && s.items[id].place == On(q)
    ensures Unique(s.lists[q])
  {
    hide Unique, Filter;
    TrackUnique(s.lists[q], s.timeline[q], s.shots[q]);
  }

  lemma MadeSteady(s: State, t: State, chain: seq<nat>, commands: seq<Command>, cmdlist: nat, state: nat)
    requires Made(s, t, chain, commands, cmdlist, state)
    ensures Steady(s, t)
  {
  }

  lemma MadeActed(s: State, t: State, chain: seq<nat>, commands: seq<Command>, cmdlist: nat, state: nat, q: nat)
    requires Good(s) && q in s.lists && Made(s, t, chain, commands, cmdlist, state)
    ensures Acted(s, t, q, 0)
    ensures Work(chain, t.items) == CommandsSize(commands)
  {
    OnList(s, q);
    MadeSteady(s, t, chain, commands, cmdlist, state);
    OrderedSame(s, t);
    hide Good, Unique, Work, Ordered;
    SteadyWork(s, t, s.lists[q]);
    ChainWork(s.items, t.items, chain, commands, cmdlist, state);
  }

  lemma {:induction false} ChainWork(was: map<nat, Item>, now: map<nat, Item>, chain: seq<nat>, commands: seq<Command>,
      cmdlist: nat, state: nat)
    requires NewItems(was, now, chain, commands, cmdlist, state)
    ensures Work(chain, now) == CommandsSize(commands)
  {
    PairsWork(now, chain, commands);
  }

  lemma {:induction false} PairsWork(now: map<nat, Item>, chain: seq<nat>, commands: seq<Command>)
    requires |chain| == |commands|
    requires forall i :: 0 <= i < |chain| ==> chain[i] in now && !now[chain[i]].fired && now[chain[i]].plan == commands[i].plan
    ensures Work(chain, now) == CommandsSize(commands)
  {
    if chain != [] {
      assert Cost(now, chain[0]) == CommandSize(commands[0]);
      PairsWork(now, chain[1..], commands[1..]);
    }
  }

  lemma AppendedSteady(s: State, t: State, p: nat, chain: seq<nat>)
    requires Appended(s, t, p, chain) && Ready(s, chain)
    ensures Steady(s, t)
  {
    hide Unique;
  }

  lemma AppendedActed(s: State, t: State, p: nat, chain: seq<nat>, q: nat)
    requires Good(s) && q in s.lists && Appended(s, t, p, chain) && Ready(s, chain)
    ensures Acted(s, t, q, Work(chain, s.items))
  {
    OnList(s, q);
    AppendedSteady(s, t, p, chain);
    OnList(s, p);
    hide Good, Unique, Work;
    WithinAppend(s.lists[p], chain);
    OrderedOne(s, t, p);
    hide Ordered;
    SteadyWork(s, t, s.lists[q]);
    SteadyWork(s, t, chain);
    WorkConcat(s.lists[q], chain, t.items);
  }

  lemma SteadyWork(s: State, t: State, list: seq<nat>)
    requires Steady(s, t) && forall x :: x in list ==> x in s.items
    ensures Work(list, s.items) == Work(list, t.items)
  {
    SamePlans(s.items, t.items, list);
  }

  lemma SamePlans(a: map<nat, Item>, b: map<nat, Item>, list: seq<nat>)
    requires forall x :: x in list ==> x in a && x in b && a[x].plan == b[x].plan && a[x].fired == b[x].fired
    ensures Work(list, a) == Work(list, b)
  {
    WorkSame(list, a, b);
  }

  lemma {:induction false} WorkSpliceAll(list: seq<nat>, x: nat, chain: seq<nat>, items: map<nat, Item>)
    ensures Work(SpliceAll(list, x, chain), items) <= Work(list, items) + Work(chain, items)
  {
    if list != [] {
      assert list == [list[0]] + list[1..];
      WorkConcat([list[0]], list[1..], items);
      if list[0] == x {
        WorkConcat([x] + chain, list[1..], items);
        WorkConcat([x], chain, items);
      } else {
        WorkSpliceAll(list[1..], x, chain, items);
        WorkConcat([list[0]], SpliceAll(list[1..], x, chain), items);
      }
    }
  }

  lemma InsertedSteady(s: State, t: State, x: nat, chain: seq<nat>)
    requires x in s.items && s.items[x].place.On? && Inserted(s, t, x, chain) && Ready(s, chain)
    ensures Steady(s, t)
  {
    hide Unique, SpliceAll;
  }

  lemma InsertedActed(s: State, t: State, x: nat, chain: seq<nat>, q: nat)
    requires Good(s) && q in s.lists && x in s.items && s.items[x].place.On? && Inserted(s, t, x, chain) && Ready(s, chain)
    ensures Acted(s, t, q, Work(chain, s.items))
  {
    OnList(s, q);
    InsertedSteady(s, t, x, chain);
    var p := s.items[x].place.queue;
    OnList(s, p);
    hide Good, Unique, SpliceAll, Work;
    FilterSpliceAll(s.lists[p], x, chain, Members(s.lists[p]));
    OrderedOne(s, t, p);
    hide Ordered;
    SteadyWork(s, t, s.lists[q]);
    SteadyWork(s, t, chain);
    WorkSpliceAll(s.lists[q], x, chain, t.items);
  }

  lemma ResumeSteady(s: State, id: nat)
    requires id in s.items
    ensures Steady(s, Resume(s, id))
  {
  }

  lemma ResumeActed(s: State, id: nat, q: nat)
    requires Good(s) && q in s.lists && id in s.items
    ensures Acted(s, Resume(s, id), q, 0)
  {
    hide Good, Unique, Work, Ordered, Steady;
    OnList(s, q);
    ResumeSteady(s, id);
    OrderedSame(s, Resume(s, id));
    SteadyWork(s, Resume(s, id), s.lists[q]);
  }

  // ----- Removing a group

  /** The items of a list that are not in a group. */
  function Others(list: seq<nat>, items: map<nat, Item>, group: nat): seq<nat> {
    if list == [] then []
    else Others(list[..|list| - 1], items, group)
         + if list[|list| - 1] in items && items[list[|list| - 1]].group == group then [] else [list[|list| - 1]]
  }

  lemma {:induction false} OthersMembers(list: seq<nat>, items: map<nat, Item>, group: nat)
    ensures forall id :: id in Others(list, items, group) <==> id in list && !(id in items && items[id].group == group)
  {
    if list != [] {
      OthersMembers(list[..|list| - 1], items, group);
      assert list == list[..|list| - 1] + [list[|list| - 1]];
    }
  }

  lemma {:induction false} WithoutAt(a: seq<nat>, x: nat, b: seq<nat>)
    requires x !in a
    ensures Without(a + [x] + b, x) == a + b
  {
    if a == [] {
      assert [] + [x] + b == [x] + b && [] + b == b;
      WithoutCons(x, b, x);
    } else {
      WithoutAt(a[1..], x, b);
      assert a + [x] + b == [a[0]] + (a[1..] + [x] + b);
      WithoutCons(a[0], a[1..] + [x] + b, x);
      assert a + b == [a[0]] + (a[1..] + b);
    }
  }

  /** Items removed, and what is left. */
  ghost predicate Removed(s: State, t: State, q: nat, gone: set<nat>) {
    && t == s.(items := t.items, lists := t.lists, clients := t.clients, states := t.states, cmdlists := t.cmdlists,
               cancelled := t.cancelled)
    && q in s.lists && t.lists.Keys == s.lists.Keys && (forall p :: p in s.lists && p != q ==> t.lists[p] == s.lists[p])
    && t.items == s.items - gone
    && t.cancelled == s.cancelled + gone
  }

  lemma RemovedNothing(s: State, q: nat)
    requires q in s.lists
    ensures Removed(s, s, q, {})
  {
    assert s.items - {} == s.items;
    assert s.cancelled + {} == s.cancelled;
  }

  lemma RemovedMore(s: State, t: State, q: nat, gone: set<nat>, id: nat)
    requires Removed(s, t, q, gone) && id in t.items && t.items[id].place == On(q) && !t.items[id].fired
    ensures Removed(s, Remove(t, id), q, gone + {id})
  {
    hide Without, Unref;
    assert s.items - (gone + {id}) == s.items - gone - {id};
    assert s.cancelled + (gone + {id}) == s.cancelled + gone + {id};
  }

  /** Only the head has been fired. */
  lemma LaterNotFired(s: State, q: nat, i: nat)
    requires Good(s) && q in s.lists && 0 < i < |s.lists[q]|
    ensures s.lists[q][i] in s.items && !s.items[s.lists[q][i]].fired && s.running != To(s.lists[q][i])
    ensures s.items[s.lists[q][i]].place == On(q)
  {
    OnlyHead(s, q, i);
    OnList(s, q);
    assert s.lists[q][i] in s.lists[q];
  }

  lemma {:induction false} WorkOthers(list: seq<nat>, items: map<nat, Item>, was: map<nat, Item>, group: nat)
    requires forall id :: id in list && !(id in was && was[id].group == group) ==> Cost(items, id) == Cost(was, id)
    ensures Work(Others(list, was, group), items) <= Work(list, was)
  {
    if list != [] {
      var init, x := list[..|list| - 1], list[|list| - 1];
      assert list == init + [x];
      WorkOthers(init, items, was, group);
      WorkConcat(init, [x], was);
      WorkConcat(Others(init, was, group), [x], items);
      assert x in list;
      assert Others(init, was, group) + [] == Others(init, was, group);
      assert Work([x], items) == Cost(items, x) by { WorkOne(x, items); }
      assert Work([x], was) == Cost(was, x) by { WorkOne(x, was); }
    }
  }

  lemma WorkOne(x: nat, items: map<nat, Item>)
    ensures Work([x], items) == Cost(items, x)
  {
    assert [x][1..] == [];
  }

  lemma OthersNone(items: map<nat, Item>, group: nat)
    ensures Others([], items, group) == []
  {
  }

  lemma OthersMore(list: seq<nat>, x: nat, items: map<nat, Item>, group: nat)
    ensures Others(list + [x], items, group)
            == Others(list, items, group) + if x in items && items[x].group == group then [] else [x]
  {
    assert (list + [x])[..|list|] == list;
  }

  lemma RemovedWithout(t: State, q: nat, x: nat, before: seq<nat>, after: seq<nat>)
    requires q in t.lists && t.lists[q] == before + [x] + after && Unique(t.lists[q])
    requires x in t.items && t.items[x].place == On(q)
    ensures q in Remove(t, x).lists && Remove(t, x).lists[q] == before + after
    ensures Remove(t, x).items == t.items - {x} && Remove(t, x).running == t.running
    ensures forall y :: y in after || y in before ==> y != x
  {
    var l := t.lists[q];
    forall i | 0 <= i < |before|
      ensures before[i] != x
    {
      assert l[i] == before[i] && l[|before|] == x;
    }
    forall i | 0 <= i < |after|
      ensures after[i] != x
    {
      assert l[|before| + 1 + i] == after[i] && l[|before|] == x;
    }
    WithoutAt(before, x, after);
  }

  // ----- What commands become

  /** What a command list comes to: an empty one is a callback that does nothing. */
  function Coming(commands: seq<Command>): seq<Command> {
    if commands == [] then [Command(0, Plan(0, [], [], Normal))] else commands
  }

  /** A new item for each command, in order, ready to run for a client on a queue. */
  ghost predicate Running(was: map<nat, Item>, items: map<nat, Item>, chain: seq<nat>, cmdlist: nat, commands: seq<Command>,
                          client: nat, place: Place) {
    && |chain| == |Coming(commands)| && Unique(chain)
    && forall i :: 0 <= i < |chain| ==>
         && chain[i] !in was && chain[i] in items
         && items[chain[i]].group == Coming(commands)[i].group && items[chain[i]].plan == Coming(commands)[i].plan
         && items[chain[i]].cmdlist == (if commands == [] then 0 else cmdlist)
         && items[chain[i]].client == client && items[chain[i]].place == place
         && !items[chain[i]].fired && !items[chain[i]].waiting
  }

  /** The other items are as they were, but for the links of the chains. */
  ghost predicate Untouched(was: map<nat, Item>, now: map<nat, Item>) {
    forall x :: x in was ==> x in now && now[x] == was[x].(next := now[x].next)
  }

  lemma MadeKeeps(s: State, t: State, chain: seq<nat>, commands: seq<Command>, cmdlist: nat, state: nat, x: nat)
    requires if commands == [] then Made(s, t, chain, [Command(0, EMPTY)], 0, state) else Made(s, t, chain, commands, cmdlist, state)
    requires x in s.items
    ensures x in t.items && t.items[x] == s.items[x]
  {
  }

  lemma MadeRunning(s: State, t: State, u: State, chain: seq<nat>, commands: seq<Command>, cmdlist: nat, state: nat,
                    client: nat, place: Place)
    requires if commands == [] then Made(s, t, chain, [Command(0, EMPTY)], 0, state) else Made(s, t, chain, commands, cmdlist, state)
    requires Unique(chain)
    requires forall id :: id in chain ==>
               id in t.items && id in u.items
               && u.items[id] == t.items[id].(client := client, place := place, next := u.items[id].next)
    ensures Running(s.items, u.items, chain, cmdlist, commands, client, place)
  {
    hide Unique;
    forall i | 0 <= i < |chain|
      ensures chain[i] in chain
    {
    }
  }

  lemma InsertedRunning(s: State, t: State, u: State, x: nat, chain: seq<nat>, commands: seq<Command>, cmdlist: nat, state: nat)
    requires if commands == [] then Made(s, t, chain, [Command(0, EMPTY)], 0, state) else Made(s, t, chain, commands, cmdlist, state)
    requires x in s.items && s.items[x].place.On? && x in t.items && t.items[x] == s.items[x] && Inserted(t, u, x, chain)
    requires Unique(chain)
    ensures Running(s.items, u.items, chain, cmdlist, commands, s.items[x].client, s.items[x].place)
    ensures Untouched(s.items, u.items)
    ensures var p := s.items[x].place.queue; p in s.lists && u.lists == s.lists[p := SpliceAll(s.lists[p], x, chain)]
  {
    hide SpliceAll, Running, Unique;
    MadeRunning(s, t, u, chain, commands, cmdlist, state, s.items[x].client, s.items[x].place);
    MadeOthers(s, t, chain, commands, cmdlist, state);
    forall y | y in s.items
      ensures y in u.items && u.items[y] == s.items[y].(next := u.items[y].next)
    {
      assert y !in chain && t.items[y] == s.items[y];
    }
  }

  lemma MadeOthers(s: State, t: State, chain: seq<nat>, commands: seq<Command>, cmdlist: nat, state: nat)
    requires if commands == [] then Made(s, t, chain, [Command(0, EMPTY)], 0, state) else Made(s, t, chain, commands, cmdlist, state)
    ensures forall y :: y in s.items ==> y !in chain && y in t.items && t.items[y] == s.items[y]
  {
  }

  lemma AppendedRunning(s: State, t: State, u: State, client: nat, chain: seq<nat>, commands: seq<Command>, cmdlist: nat, state: nat)
    requires if commands == [] then Made(s, t, chain, [Command(0, EMPTY)], 0, state) else Made(s, t, chain, commands, cmdlist, state)
    requires Appended(t, u, client, chain) && Unique(chain)
    ensures Running(s.items, u.items, chain, cmdlist, commands, client, On(client)) && Untouched(s.items, u.items)
    ensures client in s.lists && u.lists == s.lists[client := s.lists[client] + chain]
  {
    hide Running, Unique;
    MadeRunning(s, t, u, chain, commands, cmdlist, state, client, On(client));
    MadeOthers(s, t, chain, commands, cmdlist, state);
  }

  // ----- What a running item does, act by act

  /** One act as it was done: the states before and after it, the item after which the last
      chain ended and the one after which this one does, the chain it made if it did, and where
      on its queue that was put. */
  datatype Deed = Deed(before: State, after: State, last: nat, now: nat, chain: seq<nat>, at: nat)

  /** The command list and the state that items are made of are there. */
  predicate Allowed(s: State, cmdlist: nat, state: nat) {
    (cmdlist == 0 || cmdlist in s.cmdlists.count) && (state == 0 || state in s.states.count)
  }

  /** The new items stand right after item `x`, in order, on its queue and for its client. */
  ghost predicate PutAfter(d: Deed, x: nat, cmdlist: nat, commands: seq<Command>) {
    var s, t := d.before, d.after;
    && x in s.items && s.items[x].place.On? && s.items[x].place.queue in s.lists
    && var p := s.items[x].place.queue;
       var list := s.lists[p];
    && d.at < |list| && list[d.at] == x
    && t.lists == s.lists[p := list[..d.at + 1] + d.chain + list[d.at + 1..]]
    && Running(s.items, t.items, d.chain, cmdlist, commands, s.items[x].client, On(p)) && Untouched(s.items, t.items)
    && d.now == d.chain[|d.chain| - 1]
  }

  /** The new items are the new end of the client's queue, in order. */
  ghost predicate PutLast(d: Deed, client: nat, cmdlist: nat, commands: seq<Command>) {
    var s, t := d.before, d.after;
    && client in s.lists && t.lists == s.lists[client := s.lists[client] + d.chain]
    && Running(s.items, t.items, d.chain, cmdlist, commands, client, On(client)) && Untouched(s.items, t.items)
    && d.now == d.last
  }

  /** The head of the client's queue need not wait any more. */
  predicate LetGo(d: Deed, client: nat) {
    var s, t := d.before, d.after;
    && client in s.lists && s.lists[client] != [] && s.lists[client][0] in s.items && d.now == d.last
    && t == s.(items := s.items[s.lists[client][0] := s.items[s.lists[client][0]].(waiting := false)])
  }

  predicate NotDone(d: Deed) {
    d.after == d.before && d.now == d.last
  }

  /** What the act of item `id` is, is what was done. */
  ghost predicate Does(d: Deed, id: nat, act: Act) {
    match act
    case Insert(atLast, cmdlist, state, commands) =>
      if Allowed(d.before, cmdlist, state) then PutAfter(d, if atLast then d.last else id, cmdlist, commands) else NotDone(d)
    case Append(client, cmdlist, state, commands) =>
      if Allowed(d.before, cmdlist, state) && client in d.before.lists && (client == 0 || client in d.before.clients.count) then
        PutLast(d, client, cmdlist, commands)
      else NotDone(d)
    case Continue(client) =>
      if client in d.before.lists && d.before.lists[client] != [] then LetGo(d, client) else NotDone(d)
  }

  /** All the acts, one after the other; the first chain is put after item `id` itself. */
  ghost predicate DoesAll(s: State, deeds: seq<Deed>, t: State, id: nat, acts: seq<Act>) {
    && |deeds| == |acts|
    && if deeds == [] then s == t
       else
         var n := |deeds| - 1;
         && DoesAll(s, deeds[..n], deeds[n].before, id, acts[..n])
         && Does(deeds[n], id, acts[n]) && deeds[n].after == t
         && deeds[n].last == if n == 0 then id else deeds[n - 1].now
  }

  lemma DoesMore(s: State, deeds: seq<Deed>, d: Deed, id: nat, acts: seq<Act>, n: nat)
    requires n < |acts| && DoesAll(s, deeds, d.before, id, acts[..n]) && Does(d, id, acts[n])
    requires d.last == if deeds == [] then id else deeds[|deeds| - 1].now
    ensures DoesAll(s, deeds + [d], d.after, id, acts[..n + 1])
  {
    hide Does;
    assert (deeds + [d])[..n] == deeds && acts[..n + 1][..n] == acts[..n];
  }

  lemma DoesNone(s: State, id: nat)
    ensures DoesAll(s, [], s, id, [])
  {
  }

  /** Where a chain goes. */
  lemma {:induction false} ChainAt(list: seq<nat>, x: nat, chain: seq<nat>) returns (at: nat)
    requires x in list
    ensures at < |list| && list[at] == x && SpliceAll(list, x, chain) == list[..at + 1] + chain + list[at + 1..]
  {
    if list[0] == x {
      at := 0;
      assert list[..1] == [x];
    } else {
      at := ChainAt(list[1..], x, chain);
      assert list[1..][at + 1..] == list[at + 2..];
      assert list[..at + 2] == [list[0]] + list[1..][..at + 1];
      at := at + 1;
    }
  }

  lemma InsertDone(d: Deed, id: nat, atLast: bool, cmdlist: nat, state: nat, commands: seq<Command>)
    requires if Allowed(d.before, cmdlist, state) then PutAfter(d, if atLast then d.last else id, cmdlist, commands) else NotDone(d)
    ensures Does(d, id, Insert(atLast, cmdlist, state, commands))
  {
  }

  lemma AppendDone(d: Deed, id: nat, client: nat, cmdlist: nat, state: nat, commands: seq<Command>)
    requires var s := d.before;
             if Allowed(s, cmdlist, state) && client in s.lists && (client == 0 || client in s.clients.count) then
               PutLast(d, client, cmdlist, commands)
             else NotDone(d)
    ensures Does(d, id, Append(client, cmdlist, state, commands))
  {
  }

  lemma ContinueDone(d: Deed, id: nat, client: nat)
    requires if client in d.before.lists && d.before.lists[client] != [] then LetGo(d, client) else NotDone(d)
    ensures Does(d, id, Continue(client))
  {
  }

  lemma ChainThere(was: map<nat, Item>, items: map<nat, Item>, chain: seq<nat>, cmdlist: nat, commands: seq<Command>,
                   client: nat, place: Place)
    requires Running(was, items, chain, cmdlist, commands, client, place)
    ensures chain != []
  {
  }

  /** A plan being run: the state once the item has been started, what it does for the client
      found for it, the states before and after it has its own again, and what it does then. */
  datatype Run = Run(started: State, during: seq<Deed>, done: State, restored: State, after: seq<Deed>)

  /** The client an item runs for: its own, or if it has none, the one that is found. */
  function Acting(s: State, id: nat): nat
    requires id in s.items
  {
    var item := s.items[id];
    if item.client != 0 then item.client
    else if item.cmdlist != 0 && item.plan.found in s.clients.count then item.plan.found
    else 0
  }

  /** The head of queue `q` runs, from `s`: exactly its plan is done, act by act. */
  ghost predicate RanPlan(s: State, run: Run, ran: State, q: nat) {
    && q in s.lists && s.lists[q] != [] && s.lists[q][0] in s.items
    && var id := s.lists[q][0];
       var plan := s.items[id].plan;
    && run.started.running == To(id) && run.started.lists == s.lists
    && run.started.items == s.items[id := s.items[id].(client := Acting(s, id))]
    && DoesAll(run.started, run.during, run.done, id, plan.during)
    && id in run.done.items && run.restored.lists == run.done.lists
    && run.restored.items == run.done.items[id := run.done.items[id].(client := s.items[id].client)]
    && DoesAll(run.restored, run.after, ran, id, plan.after)
  }

  lemma RunDone(s: State, run: Run, ran: State, q: nat, found: nat)
    requires q in s.lists && s.lists[q] != [] && s.lists[q][0] in s.items && q in s.shots
    requires var item := s.items[s.lists[q][0]];
             found == if item.cmdlist != 0 && item.plan.found in s.clients.count then item.plan.found else 0
    requires run.started == Start(s, q, found) && run.done.running == To(s.lists[q][0]) && run.done.saved == run.started.saved
    requires s.lists[q][0] in run.done.items && run.restored == Restore(run.done)
    requires DoesAll(run.started, run.during, run.done, s.lists[q][0], s.items[s.lists[q][0]].plan.during)
    requires DoesAll(run.restored, run.after, ran, s.lists[q][0], s.items[s.lists[q][0]].plan.after)
    ensures RanPlan(s, run, ran, q)
  {
    hide DoesAll;
  }

  // ----- What firing an item does

  /** What is left of a queue and its items by an item that ran: none is gone or moved, and
      none but itself was fired. */
  ghost predicate Ran(s: State, t: State) {
    && Ordered(s, t) && t.cancelled == s.cancelled && t.lists.Keys == s.lists.Keys
    && forall x :: x in s.items ==>
         && x in t.items && t.items[x].plan == s.items[x].plan && t.items[x].group == s.items[x].group
         && t.items[x].fired == s.items[x].fired && t.items[x].cmdlist == s.items[x].cmdlist
         && (s.items[x].place.On? ==> t.items[x].place == s.items[x].place)
  }

  lemma RanActed(s: State, t: State, u: State, q: nat, n: nat)
    requires Ran(s, t) && Acted(t, u, q, n)
    ensures Ran(s, u)
  {
    OrderedTwice(s, t, u);
    hide Ordered, Work;
  }

  lemma RanStart(s: State, q: nat, found: nat)
    requires q in s.lists && s.lists[q] != [] && s.lists[q][0] in s.items && q in s.shots
    ensures Ran(s, Start(s, q, found))
  {
    OrderedSame(s, Start(s, q, found));
    hide Ordered;
  }

  lemma RanRestore(s: State, t: State)
    requires t.running.To? && t.running.id in t.items && Ran(s, t)
    ensures Ran(s, Restore(t))
  {
    OrderedSame(t, Restore(t));
    OrderedTwice(s, t, Restore(t));
    hide Ordered;
  }

  /** The items of a list that are in a group. */
  function Grouped(list: seq<nat>, items: map<nat, Item>, group: nat): set<nat> {
    set x | x in list && x in items && items[x].group == group
  }

  lemma GroupedMore(list: seq<nat>, x: nat, items: map<nat, Item>, group: nat)
    ensures Grouped(list + [x], items, group)
            == Grouped(list, items, group) + if x in items && items[x].group == group then {x} else {}
  {
  }

  /** Whether the head of a queue fails with a group that goes with it. */
  predicate Fails(s: State, q: nat)
    requires q in s.lists && s.lists[q] != [] && s.lists[q][0] in s.items
  {
    var item := s.items[s.lists[q][0]];
    item.plan.result.Error? && item.cmdlist != 0 && item.group != 0
  }

  /** What the head of queue `q` cancels when it has run: the later items of its group if it
      fails, and otherwise nothing. */
  function Gone(ran: State, q: nat): set<nat> {
    if q in ran.lists && ran.lists[q] != [] && ran.lists[q][0] in ran.items && Fails(ran, q) then
      Grouped(ran.lists[q][1..], ran.items, ran.items[ran.lists[q][0]].group)
    else {}
  }

  /** And what it leaves on the queue, in the order it was. */
  function Left(ran: State, q: nat): seq<nat>
    requires q in ran.lists
  {
    if ran.lists[q] != [] && ran.lists[q][0] in ran.items && Fails(ran, q) then
      [ran.lists[q][0]] + Others(ran.lists[q][1..], ran.items, ran.items[ran.lists[q][0]].group)
    else ran.lists[q]
  }

  /** The head of queue `q` fired: from `s` it runs, which is its plan being done and gives
      `ran`, and it is among the shots; then exactly the later items of its group are cancelled if it failed; nothing else goes or moves. */
  ghost predicate FiredAs(s: State, run: Run, ran: State, t: State, q: nat) {
    && q in s.lists && s.lists[q] != [] && s.lists[q][0] in s.items && Ran(s, ran) && RanPlan(s, run, ran, q)
    && var id := s.lists[q][0];
    && q in ran.lists && ran.lists[q] != [] && ran.lists[q][0] == id
    && q in s.shots && t.shots == s.shots[q := s.shots[q] + [id]]
    && t.cancelled == s.cancelled + Gone(ran, q)
    && t.lists == ran.lists[q := Left(ran, q)]
    && t.items == (ran.items - Gone(ran, q))[id := ran.items[id].(fired := true, waiting := s.items[id].plan.result.Wait?)]
  }

  lemma NoneGrouped(items: map<nat, Item>, group: nat)
    ensures Grouped([], items, group) == {}
  {
  }

  /** The group gone and the item done. */
  lemma FiredFinish(s: State, run: Run, d: State, e: State, q: nat, id: nat)
    requires q in s.lists && s.lists[q] != [] && s.lists[q][0] == id && id in s.items && Ran(s, d) && RanPlan(s, run, d, q)
    requires q in s.shots && d.shots == s.shots[q := s.shots[q] + [id]]
    requires q in d.lists && d.lists[q] != [] && d.lists[q][0] == id && id in d.items
    requires if Fails(d, q) then Removed(d, e, q, Gone(d, q)) && q in e.lists && e.lists[q] == Left(d, q) else e == d
    requires e.running == To(id) && id in e.items && e.items[id] == d.items[id]
    ensures FiredAs(s, run, d, Finish(e, s.items[id].plan.result.Wait?), q)
  {
    hide Ordered, Others, Grouped, RanPlan;
    var t := Finish(e, s.items[id].plan.result.Wait?);
    if !Fails(d, q) {
      assert d.items - {} == d.items;
      assert d.cancelled + {} == d.cancelled;
    }
    assert t.lists == d.lists[q := Left(d, q)];
  }

  /** One turn of the loop of cmdq_next: the head is fired, unless it was before, and goes,
      unless it waits. */
  datatype Round = Round(before: State, run: Run, ran: State, done: State, after: State)

  ghost predicate Gives(s: State, t: State, q: nat) {
    && q in s.lists && s.lists[q] != [] && s.lists[q][0] in s.items
    && s.items[s.lists[q][0]].place == On(q) && s.items[s.lists[q][0]].fired
    && t == Remove(s, s.lists[q][0])
  }

  predicate HeadFired(s: State, q: nat) {
    q in s.lists && s.lists[q] != [] && s.lists[q][0] in s.items && s.items[s.lists[q][0]].fired
  }

  ghost predicate Went(r: Round, q: nat) {
    && Good(r.before)
    && (if HeadFired(r.before, q) then r.done == r.before else FiredAs(r.before, r.run, r.ran, r.done, q))
    && (Gives(r.done, r.after, q) || (HeadWaits(r.done, q) && r.after == r.done))
  }

  predicate HeadWaits(s: State, q: nat) {
    q in s.lists && s.lists[q] != [] && s.lists[q][0] in s.items && s.items[s.lists[q][0]].waiting
  }

  ghost predicate Rounds(s: State, rounds: seq<Round>, t: State, q: nat) {
    if rounds == [] then s == t
    else
      var last := rounds[|rounds| - 1];
      Rounds(s, rounds[..|rounds| - 1], last.before, q) && Went(last, q) && last.after == t
  }

  /** All that the items fired in these turns have cancelled. */
  function AllGone(rounds: seq<Round>, q: nat): set<nat> {
    if rounds == [] then {}
    else
      var last := rounds[|rounds| - 1];
      AllGone(rounds[..|rounds| - 1], q) + if HeadFired(last.before, q) then {} else Gone(last.ran, q)
  }

  lemma RoundsMore(s: State, rounds: seq<Round>, r: Round, q: nat)
    requires Rounds(s, rounds, r.before, q) && Went(r, q)
    ensures Rounds(s, rounds + [r], r.after, q)
    ensures AllGone(rounds + [r], q) == AllGone(rounds, q) + if HeadFired(r.before, q) then {} else Gone(r.ran, q)
  {
    hide Went, Gone, HeadFired;
    assert (rounds + [r])[..|rounds|] == rounds && (rounds + [r])[|rounds|] == r;
  }

  lemma RoundCancels(r: Round, q: nat)
    requires Went(r, q)
    ensures r.after.cancelled == r.before.cancelled + if HeadFired(r.before, q) then {} else Gone(r.ran, q)
  {
    hide Good, Gone, Ran, RanPlan, Left, Without, Unref;
  }

  /** A command that fails takes with it, of what is on its queue when it has run, exactly the
      other items of its group, unless it has none; an item that does not fail, or a callback,
      takes nothing. */
  lemma ErrorEndsGroup(r: Round, q: nat)
    requires Went(r, q) && !HeadFired(r.before, q)
    ensures q in r.before.lists && r.before.lists[q] != [] && r.before.lists[q][0] in r.before.items
    ensures q in r.ran.lists && r.ran.lists[q] != [] && q in r.after.lists
    ensures var id := r.before.lists[q][0];
            var item := r.before.items[id];
            var ends := item.plan.result == Error && item.cmdlist != 0 && item.group != 0;
            forall x :: x in r.ran.lists[q] && x != id ==>
              if ends && x in r.ran.items && r.ran.items[x].group == item.group then
                x !in r.after.lists[q] && x in r.after.cancelled
              else
                x in r.after.lists[q] && (x in r.after.cancelled ==> x in r.before.cancelled)
  {
    RoundCancels(r, q);
    FiredHead(r, q);
    RoundLeaves(r, q);
    Parted(r.ran, q);
    hide *;
    var id := r.before.lists[q][0];
    var left, item := Left(r.ran, q), r.before.items[id];
    var ends := item.plan.result == Error && item.cmdlist != 0 && item.group != 0;
    forall x | x in r.ran.lists[q] && x != id
      ensures if ends && x in r.ran.items && r.ran.items[x].group == item.group then
                x !in r.after.lists[q] && x in r.after.cancelled
              else
                x in r.after.lists[q] && (x in r.after.cancelled ==> x in r.before.cancelled)
    {
      if x in left[1..] {
        assert x in left;
      }
    }
  }

  /** What is on a queue, but for its head, stays on it or is cancelled. */
  lemma Parted(ran: State, q: nat)
    requires q in ran.lists && ran.lists[q] != [] && ran.lists[q][0] in ran.items
    ensures var id := ran.lists[q][0];
            && Left(ran, q) != [] && Left(ran, q)[0] == id
            && forall x :: x in ran.lists[q] && x != id ==>
                 if ran.items[id].plan.result == Error && ran.items[id].cmdlist != 0 && ran.items[id].group != 0
                    && x in ran.items && ran.items[x].group == ran.items[id].group
                 then x !in Left(ran, q) && x in Gone(ran, q)
                 else x in Left(ran, q)[1..] && x !in Gone(ran, q)
  {
    hide Others;
    var rest := ran.lists[q][1..];
    OthersMembers(rest, ran.items, ran.items[ran.lists[q][0]].group);
    assert ran.lists[q] == [ran.lists[q][0]] + rest;
  }

  /** The head that is fired is the head when it has run, and is what it was. */
  lemma FiredHead(r: Round, q: nat)
    requires Went(r, q) && !HeadFired(r.before, q)
    ensures q in r.before.lists && r.before.lists[q] != [] && r.before.lists[q][0] in r.before.items
    ensures var id := r.before.lists[q][0];
            && q in r.ran.lists && r.ran.lists[q] != [] && r.ran.lists[q][0] == id && id in r.ran.items
            && r.ran.items[id].plan == r.before.items[id].plan && r.ran.items[id].group == r.before.items[id].group
            && r.ran.items[id].cmdlist == r.before.items[id].cmdlist
  {
    hide Good, Ordered, RanPlan, Left, Gone;
  }

  /** What is on the queue after a turn. */
  lemma RoundLeaves(r: Round, q: nat)
    requires Went(r, q) && !HeadFired(r.before, q)
    ensures q in r.ran.lists && r.ran.lists[q] != [] && q in r.after.lists
    ensures r.after.lists[q] == Left(r.ran, q) || r.after.lists[q] == Left(r.ran, q)[1..]
    ensures Left(r.ran, q)[0] == r.ran.lists[q][0]
  {
    hide Good, Ran, RanPlan, Others, Ordered, Unref, Gone;
  }

  lemma RoundDone(s: State, rounds: seq<Round>, r: Round, q: nat)
    requires Rounds(s, rounds, r.before, q) && Went(r, q) && r.before.cancelled == s.cancelled + AllGone(rounds, q)
    ensures Rounds(s, rounds + [r], r.after, q) && r.after.cancelled == s.cancelled + AllGone(rounds + [r], q)
  {
    hide Rounds, Went, AllGone, Gone;
    RoundsMore(s, rounds, r, q);
    RoundCancels(r, q);
  }

  lemma WentWaits(s: State, run: Run, ran: State, t: State, q: nat)
    requires Good(s) && !HeadFired(s, q) && FiredAs(s, run, ran, t, q) && HeadWaits(t, q)
    ensures Went(Round(s, run, ran, t, t), q)
  {
    hide Good;
  }

  lemma WentOn(s: State, run: Run, ran: State, mid: State, t: State, q: nat)
    requires Good(s) && if HeadFired(s, q) then mid == s else FiredAs(s, run, ran, mid, q)
    requires q in mid.lists && mid.lists[q] != [] && mid.lists[q][0] in mid.items
    requires mid.items[mid.lists[q][0]].place == On(q) && mid.items[mid.lists[q][0]].fired
    requires t == Remove(mid, mid.lists[q][0])
    ensures Went(Round(s, run, ran, mid, t), q)
  {
    hide FiredAs, Good;
  }

  lemma RoundsNone(s: State, q: nat)
    ensures Rounds(s, [], s, q) && AllGone([], q) == {}
  {
  }

  // ----- For the running item

  lemma KeptPlace(s: State, t: State, x: nat, q: nat, n: nat)
    requires Acted(s, t, q, n) && x in s.items && s.items[x].place.On?
    ensures x in t.items && t.items[x].place == s.items[x].place && t.items[x].client == s.items[x].client
    ensures t.running == s.running && t.saved == s.saved && t.shots == s.shots && t.cancelled == s.cancelled
    ensures t.lists.Keys == s.lists.Keys && t.clients.count.Keys == s.clients.count.Keys
    ensures t.items[x].fired == s.items[x].fired && t.items[x].plan == s.items[x].plan
    ensures t.items[x].group == s.items[x].group && t.items[x].cmdlist == s.items[x].cmdlist
  {
  }

  lemma HeadIn(list: seq<nat>)
    requires list != []
    ensures list[0] in list
  {
  }

  lemma ActsStep(acts: seq<Act>)
    requires acts != []
    ensures ActsSize(acts) == ActSize(acts[0]) + ActsSize(acts[1..])
  {
  }

  lemma MadeQueues(s: State, t: State, chain: seq<nat>, commands: seq<Command>, cmdlist: nat, state: nat)
    requires if commands == [] then Made(s, t, chain, [Command(0, EMPTY)], 0, state) else Made(s, t, chain, commands, cmdlist, state)
    ensures t.lists == s.lists && t.clients == s.clients
  {
  }

  lemma MadeEither(s: State, t: State, chain: seq<nat>, commands: seq<Command>, cmdlist: nat, state: nat, q: nat)
    requires Good(s) && q in s.lists
    requires if commands == [] then Made(s, t, chain, [Command(0, EMPTY)], 0, state) else Made(s, t, chain, commands, cmdlist, state)
    ensures Acted(s, t, q, 0) && Work(chain, t.items) <= 1 + CommandsSize(commands)
  {
    if commands == [] {
      MadeActed(s, t, chain, [Command(0, EMPTY)], 0, state, q);
      EmptySize();
    } else {
      MadeActed(s, t, chain, commands, cmdlist, state, q);
    }
  }

  lemma EmptySize()
    ensures CommandsSize([Command(0, EMPTY)]) == 1 && CommandsSize([]) == 0
  {
    var c := Command(0, EMPTY);
    assert [c][1..] == [];
    NoCommands();
    NoActs();
    hide ActsSize;
    assert CommandsSize([c]) == CommandSize(c) + CommandsSize([c][1..]);
  }

  lemma NoCommands()
    ensures CommandsSize([]) == 0
  {
  }

  lemma NoActs()
    ensures ActsSize([]) == 0
  {
  }

  lemma InsertedPlaces(s: State, t: State, x: nat, chain: seq<nat>)
    requires x in s.items && s.items[x].place.On? && Inserted(s, t, x, chain)
    ensures LastOf(x, chain) in t.items && t.items[LastOf(x, chain)].place.On?
  {
    if chain != [] {
      assert chain[|chain| - 1] in chain;
    }
  }

  // ----- One item from start to finish

  lemma StartWork(s: State, q: nat, found: nat, list: seq<nat>)
    requires Good(s) && q in s.lists && s.lists[q] != [] && q in s.shots
    ensures s.lists[q][0] in s.items && Work(list, Start(s, q, found).items) == Work(list, s.items)
  {
    OnList(s, q);
    HeadIn(s.lists[q]);
    WorkSame(list, s.items, Start(s, q, found).items);
  }

  lemma RestoreWork(s: State, list: seq<nat>)
    requires s.running.To? && s.running.id in s.items
    ensures Work(list, Restore(s).items) == Work(list, s.items)
  {
    WorkSame(list, s.items, Restore(s).items);
  }

  lemma HeadRuns(s: State, q: nat, id: nat)
    requires Good(s) && s.running == To(id) && id in s.items && s.items[id].place == On(q)
    ensures q in s.lists && q in s.shots && s.lists[q] != [] && s.lists[q][0] == id && !s.items[id].fired && !s.items[id].waiting
  {
    hide Track, Referenced, Past;
    assert Started(s, id);
  }

  lemma FinishWork(s: State, q: nat, id: nat, wait: bool)
    requires Good(s) && s.running == To(id) && id in s.items && s.items[id].place == On(q)
    ensures q in s.lists && Work(s.lists[q], Finish(s, wait).items) + PlanSize(s.items[id].plan) == Work(s.lists[q], s.items)
  {
    hide Good, PlanSize;
    HeadRuns(s, q, id);
    OnList(s, q);
    var l, t := s.lists[q], Finish(s, wait);
    UniqueTail(l);
    hide Unique;
    WorkSame(l[1..], s.items, t.items);
  }

  lemma RemovedLeft(s: State, t: State, q: nat, id: nat, gone: set<nat>, group: nat)
    requires Good(s) && Good(t) && Removed(s, t, q, gone) && q in s.lists && s.lists[q] != []
    requires t.lists[q] == [id] + Others(s.lists[q][1..], s.items, group)
    ensures forall x :: x in t.lists[q] && x != id ==> x in t.items && t.items[x].group != group
    ensures forall x :: x in s.lists[q][1..] && !(x in s.items && s.items[x].group == group) ==> x in s.items && x in t.items && t.items[x] == s.items[x]
  {
    hide Good, Unique;
    OnList(t, q);
    OnList(s, q);
    var r := s.lists[q][1..];
    OthersMembers(r, s.items, group);
    forall x | x in Others(r, s.items, group)
      ensures x in t.lists[q] && x in t.items && x in s.items && t.items[x] == s.items[x]
    {
      assert x in t.lists[q];
      assert x in s.items - gone;
    }
    hide Removed;
    assert forall x :: x in t.lists[q] && x != id ==> x in Others(r, s.items, group);
    assert forall x :: x in r ==> x in s.lists[q];
  }

  lemma RemovedWork(s: State, t: State, q: nat, id: nat, gone: set<nat>, group: nat)
    requires Good(s) && Good(t) && Removed(s, t, q, gone) && q in s.lists && s.lists[q] != [] && s.lists[q][0] == id
    requires id in s.items && id in t.items && t.items[id] == s.items[id]
    requires t.lists[q] == [id] + Others(s.lists[q][1..], s.items, group)
    ensures Work(t.lists[q], t.items) <= Work(s.lists[q], s.items)
    ensures forall x :: x in t.lists[q] && x != id ==> x in t.items && t.items[x].group != group
  {
    RemovedLeft(s, t, q, id, gone, group);
    hide Good, Work, Removed, Others;
    var l := s.lists[q];
    assert l == [id] + l[1..];
    WorkOthers(l[1..], t.items, s.items, group);
    WorkConcat([id], l[1..], s.items);
    WorkConcat([id], Others(l[1..], s.items, group), t.items);
    WorkOne(id, s.items);
    WorkOne(id, t.items);
  }

  lemma DropWork(s: State, q: nat, id: nat)
    requires Good(s) && q in s.lists && s.lists[q] != [] && s.lists[q][0] == id && id in s.items && s.items[id].place == On(q)
    ensures q in Remove(s, id).lists && Work(Remove(s, id).lists[q], Remove(s, id).items) < Work(s.lists[q], s.items)
    ensures Remove(s, id).lists[q] == s.lists[q][1..] && Remove(s, id).lists.Keys == s.lists.Keys
    ensures s.items[id].fired ==> Remove(s, id).cancelled == s.cancelled
  {
    hide Good, PlanSize;
    OnList(s, q);
    var l, t := s.lists[q], Remove(s, id);
    UniqueTail(l);
    hide Unique;
    assert l == [id] + l[1..];
    WithoutCons(id, l[1..], id);
    WorkSame(l[1..], s.items, t.items);
  }

  lemma NotWaiting(s: State, id: nat)
    requires Good(s) && s.running == To(id) && id in s.items
    ensures !s.items[id].waiting
  {
  }

  lemma ActedWork(s: State, t: State, q: nat, n: nat)
    requires Acted(s, t, q, n)
    ensures q in s.lists && q in t.lists && Work(t.lists[q], t.items) <= Work(s.lists[q], s.items) + n
  {
  }

  lemma StillRestored(s: State, t: State, id: nat, q: nat, n: nat)
    requires Restored(s) && s.running == To(id) && Acted(s, t, q, n) && id in s.items && s.items[id].place.On?
    ensures Restored(t)
  {
  }

  lemma RemovedRest(s: State, t: State, q: nat, gone: set<nat>)
    requires Removed(s, t, q, gone)
    ensures t.shots == s.shots && t.running == s.running && t.lists.Keys == s.lists.Keys
  {
  }

  /** `n` more items were fired from one queue, and none from the others. */
  ghost predicate Shot(was: map<nat, seq<nat>>, now: map<nat, seq<nat>>, q: nat, n: nat) {
    && q in was && now.Keys == was.Keys && |now[q]| == |was[q]| + n && now[q][..|was[q]|] == was[q]
    && forall p :: p in was && p != q ==> now[p] == was[p]
  }

  lemma ShotNone(shots: map<nat, seq<nat>>, q: nat, s: State)
    requires Good(s) && q in s.lists && s.shots == shots
    ensures Shot(shots, shots, q, 0)
  {
  }

  lemma ShotMore(was: map<nat, seq<nat>>, now: map<nat, seq<nat>>, more: map<nat, seq<nat>>, q: nat, n: nat, id: nat)
    requires Shot(was, now, q, n) && q in now && more == now[q := now[q] + [id]]
    ensures Shot(was, more, q, n + 1)
  {
    assert more[q][..|was[q]|] == now[q][..|was[q]|];
  }

  lemma HeadKnown(s: State, q: nat)
    requires Good(s) && q in s.lists && s.lists[q] != []
    ensures s.lists[q][0] in s.items && s.items[s.lists[q][0]].place == On(q)
  {
    OnList(s, q);
    HeadIn(s.lists[q]);
  }
}

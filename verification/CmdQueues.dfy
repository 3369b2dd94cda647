/** The command queues (cmd-queue.c): one for each client and a global one, whose items run
    one at a time, may insert and append others, and may wait. */
module CmdQueues {
  import opened CmdQueueState
  import opened CmdQueueSteps
  import opened CmdQueueChains
  import opened CmdQueueWork

  class Queues {
    var items: map<nat, Item>
    var lists: map<nat, seq<nat>>
    var next: nat

    /** Reference counts of the clients, of the states and of the command lists. */
    var clients: map<nat, nat>
    var states: map<nat, nat>
    var cmdlists: map<nat, nat>

    /** The item being fired, and its client while another is found for it. */
    var running: Link
    var saved: nat

    ghost var clientBase: map<nat, nat>
    ghost var stateBase: map<nat, nat>
    ghost var cmdlistBase: map<nat, nat>
    ghost var timeline: map<nat, seq<nat>>
    ghost var shots: map<nat, seq<nat>>
    ghost var cancelled: set<nat>

    ghost function St(): State
      reads this
    {
      State(items, lists, next, running, saved, Refs(clients, clientBase), Refs(states, stateBase),
            Refs(cmdlists, cmdlistBase), timeline, shots, cancelled)
    }

    /** Nothing but the global queue. */
    constructor ()
      ensures Good(St()) && running == End && lists == map[0 := []]
    {
      items, lists, next := map[], map[0 := []], 1;
      clients, states, cmdlists := map[], map[], map[];
      running, saved := End, 0;
      clientBase, stateBase, cmdlistBase := map[], map[], map[];
      timeline, shots, cancelled := map[0 := []], map[0 := []], {};
    }

    // ----- References

    method RefClient(c: nat)
      modifies this`clients
      ensures St() == old(St()).(clients := Ref(old(St()).clients, c)) && clients.Keys == old(clients).Keys
    {
      if c in clients {
        clients := clients[c := clients[c] + 1];
      }
    }

    /** server_client_unref */
    method UnrefClient(c: nat)
      modifies this`clients, this`clientBase
      ensures St() == old(St()).(clients := Unref(old(St()).clients, c))
    {
      if c in clients && clients[c] > 0 {
        clients := clients[c := clients[c] - 1];
        if clients[c] == 0 {
          clients := clients - {c};
          clientBase := clientBase - {c};
        }
      }
    }

    /** cmdq_link_state, by an item */
    method RefState(v: nat)
      modifies this`states
      ensures St() == old(St()).(states := Ref(old(St()).states, v))
    {
      if v in states {
        states := states[v := states[v] + 1];
      }
    }

    /** cmdq_free_state, by an item */
    method UnrefState(v: nat)
      modifies this`states, this`stateBase
      ensures St() == old(St()).(states := Unref(old(St()).states, v))
    {
      if v in states && states[v] > 0 {
        states := states[v := states[v] - 1];
        if states[v] == 0 {
          states := states - {v};
          stateBase := stateBase - {v};
        }
      }
    }

    method RefCmdlist(v: nat)
      modifies this`cmdlists
      ensures St() == old(St()).(cmdlists := Ref(old(St()).cmdlists, v))
    {
      if v in cmdlists {
        cmdlists := cmdlists[v := cmdlists[v] + 1];
      }
    }

    /** cmd_list_free, by an item */
    method UnrefCmdlist(v: nat)
      modifies this`cmdlists, this`cmdlistBase
      ensures St() == old(St()).(cmdlists := Unref(old(St()).cmdlists, v))
    {
      if v in cmdlists && cmdlists[v] > 0 {
        cmdlists := cmdlists[v := cmdlists[v] - 1];
        if cmdlists[v] == 0 {
          cmdlists := cmdlists - {v};
          cmdlistBase := cmdlistBase - {v};
        }
      }
    }

    /** A new client, with a queue of its own (cmdq_new) and one reference. */
    method NewClient(c: nat)
      requires Good(St()) && running == End && c != 0 && c !in lists && c !in clients
      modifies this`lists, this`timeline, this`shots, this`clients, this`clientBase
      ensures Good(St()) && St() == NewQueue(old(St()), c)
    {
      hide Good;
      NewQueueKeeps(St(), c);
      lists, timeline, shots := lists[c := []], timeline[c := []], shots[c := []];
      clients, clientBase := clients[c := 1], clientBase[c := 1];
    }

    /** The client is lost: its own reference goes, and with no item left so does it. */
    method LoseClient(c: nat)
      requires Good(St()) && running == End && c in clientBase && clientBase[c] > 0
      modifies this`clients, this`clientBase
      ensures Good(St()) && St() == old(St()).(clients := UnrefOutside(old(St()).clients, c))
    {
      hide Good;
      LoseClientKeeps(St(), c);
      if clients[c] - 1 == 0 {
        clients := clients - {c};
        clientBase := clientBase - {c};
      } else {
        clients := clients[c := clients[c] - 1];
        clientBase := clientBase[c := clientBase[c] - 1];
      }
    }

    /** cmd_list_new */
    method NewCmdlist(v: nat)
      requires Good(St()) && v != 0 && v !in cmdlists
      modifies this`cmdlists, this`cmdlistBase
      ensures Good(St()) && St() == old(St()).(cmdlists := NewRef(old(St()).cmdlists, v))
    {
      hide Good;
      NewCmdlistKeeps(St(), v);
      cmdlists, cmdlistBase := cmdlists[v := 1], cmdlistBase[v := 1];
    }

    /** cmd_list_free, by whoever has a reference of its own */
    method FreeCmdlist(v: nat)
      requires Good(St()) && v in cmdlistBase && cmdlistBase[v] > 0
      modifies this`cmdlists, this`cmdlistBase
      ensures Good(St()) && St() == old(St()).(cmdlists := UnrefOutside(old(St()).cmdlists, v))
    {
      hide Good;
      FreeCmdlistKeeps(St(), v);
      if cmdlists[v] - 1 == 0 {
        cmdlists := cmdlists - {v};
        cmdlistBase := cmdlistBase - {v};
      } else {
        cmdlists := cmdlists[v := cmdlists[v] - 1];
        cmdlistBase := cmdlistBase[v := cmdlistBase[v] - 1];
      }
    }

    // ----- Onto the queues

    method EnqueueItem(q: nat, id: nat)
      requires id in items && q in lists && q in timeline
      modifies this`items, this`lists, this`timeline, this`clients
      ensures St() == Enqueue(old(St()), q, id) && clients.Keys == old(clients).Keys
    {
      hide Ref;
      RefClient(q);
      items := items[id := items[id].(client := q, place := On(q), next := End)];
      lists := lists[q := lists[q] + [id]];
      timeline := timeline[q := timeline[q] + [id]];
    }

    /** cmdq_append: all the items of a chain, in order, at the end of a queue. */
    method AppendItems(q: nat, first: Link, ghost chain: seq<nat>)
      requires Good(St()) && Chain(items, first, chain) && first.To? && q in lists && (q == 0 || q in clients)
      modifies this`items, this`lists, this`timeline, this`clients
      ensures Good(St()) && Appended(old(St()), St(), q, chain)
    {
      hide Good, Appended, EnqueueAll, Chain;
      ghost var s := St();
      ChainReady(s, first, chain);
      var item := first;
      ghost var i := 0;
      QueueKnown(s, q);
      EnqueueNone(s, q);
      assert chain[..0] == [];
      while item != End
        invariant i <= |chain| && item == (if i < |chain| then To(chain[i]) else End)
        invariant St() == EnqueueAll(s, q, chain[..i]) && q in lists && q in timeline
        invariant items.Keys == s.items.Keys
        invariant forall k :: i <= k < |chain| ==> items[chain[k]] == s.items[chain[k]]
        decreases |chain| - i
      {
        var next := items[item.id].next;
        EnqueueStep(s, q, chain, i);
        ChainDistinct(s.items, first, chain, i);
        EnqueueItem(q, item.id);
        item := next;
        i := i + 1;
      }
      assert chain[..i] == chain;
      EnqueueAllDoes(s, q, chain);
    }

    /** One turn of cmdq_insert_after. */
    method InsertItem(x: nat, id: nat)
      requires x in items && id in items && items[x].place.On?
      requires items[x].place.queue in lists && items[x].place.queue in timeline
      modifies this`items, this`lists, this`timeline, this`clients
      ensures St() == InsertOne(old(St()), x, id) && clients.Keys == old(clients).Keys
    {
      hide Ref, Splice;
      var c, q := items[x].client, items[x].place.queue;
      items := items[id := items[id].(client := c, place := On(q), next := items[x].next)];
      items := items[x := items[x].(next := To(id))];
      RefClient(c);
      lists := lists[q := Splice(lists[q], x, id)];
      timeline := timeline[q := Splice(timeline[q], x, id)];
    }

    /** cmdq_insert_after: all the items of a chain, in order, right after an item. */
    method InsertAfter(after: nat, first: Link, ghost chain: seq<nat>) returns (last: nat)
      requires Good(St()) && Chain(items, first, chain) && first.To? && after in items && items[after].place.On?
      modifies this`items, this`lists, this`timeline, this`clients
      ensures Good(St()) && Inserted(old(St()), St(), after, chain) && last == LastOf(after, chain)
    {
      hide Good, Inserted, InsertAll, LastOf, Chain;
      ghost var s := St();
      ChainReady(s, first, chain);
      PlaceIn(s, after);
      InsertNone(s, after);
      assert chain[..0] == [];
      var x, item := after, first;
      ghost var q, i := items[after].place.queue, 0;
      QueueKnown(s, q);
      while item != End
        invariant i <= |chain| && item == (if i < |chain| then To(chain[i]) else End)
        invariant St() == InsertAll(s, after, chain[..i]) && q in lists && q in timeline
        invariant items.Keys == s.items.Keys && x == LastOf(after, chain[..i]) && x in items && items[x].place == On(q)
        invariant forall k :: i <= k < |chain| ==> items[chain[k]] == s.items[chain[k]] && chain[k] != x
        decreases |chain| - i
      {
        var next := items[item.id].next;
        InsertStep(s, after, chain, i);
        ChainDistinct(s.items, first, chain, i);
        InsertItem(x, item.id);
        x := item.id;
        item := next;
        i := i + 1;
      }
      assert chain[..i] == chain;
      InsertAllDoes(s, after, chain);
      last := x;
    }

    // ----- Making items

    /** cmdq_new_state: the new state belongs to the caller. */
    method NewState() returns (state: nat)
      requires Good(St())
      modifies this`next, this`states, this`stateBase
      ensures Good(St()) && state != 0 && state !in old(states) && old(stateBase).Keys == old(states).Keys
      ensures St() == old(St()).(next := old(next) + 1, states := NewRef(old(St()).states, state))
    {
      hide Tracked, Past, Headed;
      ghost var s := St();
      NewStateKeeps(s);
      state := next;
      next := next + 1;
      states := states[state := 1];
      stateBase := stateBase[state := 1];
    }

    /** cmdq_link_state, by something other than an item */
    method LinkState(v: nat)
      requires Good(St()) && v in states
      modifies this`states, this`stateBase
      ensures Good(St()) && St() == old(St()).(states := RefOutside(old(St()).states, v))
    {
      hide Good;
      StateOutsideKeeps(St(), v);
      states := states[v := states[v] + 1];
      stateBase := stateBase[v := stateBase[v] + 1];
    }

    /** cmdq_free_state, by whoever has a reference of its own */
    method FreeState(v: nat)
      requires Good(St()) && v in stateBase && stateBase[v] > 0
      modifies this`states, this`stateBase
      ensures Good(St()) && St() == old(St()).(states := UnrefOutside(old(St()).states, v))
    {
      hide Good;
      BaseCounted(St(), v);
      StateOutsideKeeps(St(), v);
      if states[v] - 1 == 0 {
        states := states - {v};
        stateBase := stateBase - {v};
      } else {
        states := states[v := states[v] - 1];
        stateBase := stateBase[v := stateBase[v] - 1];
      }
    }

    method CreateItem(group: nat, state: nat, cmdlist: nat, plan: Plan) returns (id: nat)
      modifies this`items, this`next, this`states, this`cmdlists
      ensures St() == Create(old(St()), group, state, cmdlist, plan) && id == old(next)
    {
      id := next;
      items := items[id := Item(0, Nowhere, group, state, cmdlist, false, false, plan, End)];
      next := next + 1;
      RefState(state);
      RefCmdlist(cmdlist);
    }

    /** The loop of cmdq_get_command: an item for each command of the list. */
    method MakeItems(cmdlist: nat, state: nat, commands: seq<Command>) returns (first: Link, ghost chain: seq<nat>)
      requires Good(St()) && commands != [] && (cmdlist == 0 || cmdlist in cmdlists) && state in states
      modifies this`items, this`next, this`states, this`cmdlists
      ensures Good(St()) && Chain(items, first, chain) && first.To?
      ensures Made(old(St()), St(), chain, commands, cmdlist, state)
    {
      hide Good, Chain, Made, Create;
      ghost var s := St();
      var last: nat;
      MakeFirst(s, commands[0], state, cmdlist);
      last := CreateItem(commands[0].group, state, cmdlist, commands[0].plan);
      first, chain := To(last), [last];
      assert commands[..1] == [commands[0]];
      var i := 1;
      while i < |commands|
        invariant 1 <= i <= |commands| && Good(St()) && Chain(items, first, chain)
        invariant chain != [] && last == chain[|chain| - 1] && last in items && state in states && (cmdlist == 0 || cmdlist in cmdlists)
        invariant Made(s, St(), chain, commands[..i], cmdlist, state)
      {
        ghost var t, cmd := St(), commands[i];
        MakeNext(s, t, first, chain, commands[..i], commands[i], state, cmdlist);
        var id := CreateItem(commands[i].group, state, cmdlist, commands[i].plan);
        items := items[last := items[last].(next := To(id))];
        assert commands[..i + 1] == commands[..i] + [commands[i]];
        chain := chain + [id];
        last := id;
        i := i + 1;
      }
      assert commands[..i] == commands;
    }

    /** cmdq_get_command; an empty list gives a callback that does nothing. */
    method GetCommand(cmdlist: nat, state: nat, commands: seq<Command>) returns (first: Link, ghost chain: seq<nat>, ghost used: nat)
      requires Good(St()) && (cmdlist == 0 || cmdlist in cmdlists) && (state == 0 || state in states)
      modifies this`items, this`next, this`states, this`stateBase, this`cmdlists
      ensures Good(St()) && Chain(items, first, chain) && first.To?
      ensures if commands == [] then Made(old(St()), St(), chain, [Command(0, EMPTY)], 0, used)
              else Made(old(St()), St(), chain, commands, cmdlist, used)
      ensures commands != [] && state != 0 ==> used == state
    {
      hide Good, Chain, Made;
      ghost var s := St();
      if commands == [] {
        var own := NewState();
        used := own;
        first, chain := MakeItems(0, own, [Command(0, EMPTY)]);
        MadeOwn(s, St(), chain, [Command(0, EMPTY)], 0, own);
        FreeState(own);
      } else if state == 0 {
        var own := NewState();
        used := own;
        first, chain := MakeItems(cmdlist, own, commands);
        MadeOwn(s, St(), chain, commands, cmdlist, own);
        FreeState(own);
      } else {
        used := state;
        first, chain := MakeItems(cmdlist, state, commands);
      }
    }

    // ----- Off the queues

    /** cmdq_remove */
    method RemoveItem(id: nat)
      requires Good(St()) && Restored(St()) && id in items && items[id].place.On? && running != To(id)
      modifies this`items, this`lists, this`clients, this`clientBase, this`states, this`stateBase,
        this`cmdlists, this`cmdlistBase, this`cancelled
      ensures Good(St()) && Restored(St()) && St() == Remove(old(St()), id)
    {
      hide Good, Without, Unref;
      ghost var s := St();
      RemoveKeeps(s, id);
      var item := items[id];
      UnrefClient(item.client);
      UnrefCmdlist(item.cmdlist);
      UnrefState(item.state);
      lists := lists[item.place.queue := Without(lists[item.place.queue], id)];
      cancelled := if item.fired then cancelled else cancelled + {id};
      items := items - {id};
      assert St() == Remove(s, id);
    }

    /** cmdq_remove_group: the later items of the running item's group, none for group 0. */
    method RemoveGroup(id: nat, ghost q: nat) returns (ghost gone: set<nat>)
      requires Good(St()) && Restored(St()) && running == To(id) && id in items && items[id].place == On(q)
      requires q in lists && lists[q] != [] && lists[q][0] == id
      modifies this`items, this`lists, this`clients, this`clientBase, this`states, this`stateBase,
        this`cmdlists, this`cmdlistBase, this`cancelled
      ensures Good(St()) && Restored(St()) && q in lists
      ensures Removed(old(St()), St(), q, gone) && id !in gone
      ensures gone == if items[id].group == 0 then {} else Grouped(old(lists)[q][1..], old(items), items[id].group)
      ensures lists[q] == if items[id].group == 0 then old(lists)[q]
                          else [id] + Others(old(lists)[q][1..], old(items), old(items)[id].group)
      ensures id in items && items[id] == old(items)[id]
    {
      hide Good, Removed, Remove, Others, Restored, Unique, Grouped;
      ghost var s := St();
      gone := {};
      RemovedNothing(s, q);
      if items[id].group == 0 {
        return;
      }
      var group, k := items[id].group, 1;
      ghost var was, j := lists[q], 1;
      OnList(s, q);
      OthersNone(s.items, group);
      NoneGrouped(s.items, group);
      assert was[1..1] == [] && [id] + [] + was[1..] == was;
      var here := items[id].place.queue;
      while k < |lists[here]|
        invariant here == q && q in lists && Good(St()) && Restored(St()) && Removed(s, St(), q, gone) && running == To(id)
        invariant 1 <= j <= |was| && lists[q] == [id] + Others(was[1..j], s.items, group) + was[j..]
        invariant k == 1 + |Others(was[1..j], s.items, group)| && id !in gone
        invariant id in items && items[id] == s.items[id] && gone == Grouped(was[1..j], s.items, group)
        invariant forall x :: x in was[j..] ==> x in items && x in s.items && items[x] == s.items[x]
        decreases |was| - j
      {
        ghost var before := [id] + Others(was[1..j], s.items, group);
        var x := lists[here][k];
        assert x == was[j] && was[j..] == [x] + was[j + 1..];
        assert was[1..j + 1] == was[1..j] + [x];
        OthersMore(was[1..j], x, s.items, group);
        GroupedMore(was[1..j], x, s.items, group);
        LaterNotFired(St(), q, k);
        if items[x].group == group {
          assert lists[q] == before + [x] + was[j + 1..];
          RemoveMember(q, x, before, was[j + 1..], s, gone);
          gone := gone + {x};
        } else {
          k := k + 1;
        }
        j := j + 1;
      }
      assert was[j..] == [] && was[1..j] == was[1..];
      assert lists[q] == [id] + Others(was[1..], s.items, group);
    }

    method RemoveMember(ghost q: nat, x: nat, ghost before: seq<nat>, ghost after: seq<nat>, ghost s: State, ghost gone: set<nat>)
      requires Good(St()) && Restored(St()) && Removed(s, St(), q, gone) && q in lists
      requires lists[q] == before + [x] + after && x in items && !items[x].fired && items[x].place == On(q) && running != To(x)
      modifies this`items, this`lists, this`clients, this`clientBase, this`states, this`stateBase,
        this`cmdlists, this`cmdlistBase, this`cancelled
      ensures Good(St()) && Restored(St()) && Removed(s, St(), q, gone + {x})
      ensures q in lists && lists[q] == before + after && items == old(items) - {x}
      ensures forall y :: y in after || y in before ==> y != x
    {
      hide Good, Removed, Remove, Restored, Unique;
      OnList(St(), q);
      RemovedMore(s, St(), q, gone, x);
      RemovedWithout(St(), q, x, before, after);
      RemoveItem(x);
    }

    // ----- Running

    /** One use of the queues by the running item; `last` is where it inserted last. */
    method PerformAct(id: nat, last: nat, act: Act, ghost q: nat) returns (now: nat, ghost deed: Deed)
      requires Good(St()) && running == To(id) && id in items && items[id].place == On(q)
      requires last in items && items[last].place.On?
      modifies this`items, this`lists, this`timeline, this`clients, this`next, this`states, this`stateBase, this`cmdlists
      ensures Good(St()) && Acted(old(St()), St(), q, ActSize(act))
      ensures now in items && items[now].place.On?
      ensures Does(deed, id, act) && deed == Deed(old(St()), St(), last, now, deed.chain, deed.at)
    {
      hide Good, Acted, Does, Running, Untouched;
      ghost var s := St();
      PlaceKnown(s, id);
      ActedNothing(s, q);
      now, deed := last, Deed(s, s, last, last, [], 0);
      match act
      case Insert(atLast, cmdlist, state, commands) =>
        ActedAtMost(s, s, q, 0, ActSize(act));
        if (cmdlist == 0 || cmdlist in cmdlists) && (state == 0 || state in states) {
          now, deed := InsertAct(last, if atLast then last else id, cmdlist, state, commands, q);
        }
        InsertDone(deed, id, atLast, cmdlist, state, commands);
      case Append(client, cmdlist, state, commands) =>
        ActedAtMost(s, s, q, 0, ActSize(act));
        if (cmdlist == 0 || cmdlist in cmdlists) && (state == 0 || state in states)
          && client in lists && (client == 0 || client in clients) {
          deed := AppendAct(last, client, cmdlist, state, commands, q);
          KeptPlace(s, St(), last, q, ActSize(act));
        }
        AppendDone(deed, id, client, cmdlist, state, commands);
      case Continue(client) =>
        if client in lists && lists[client] != [] {
          deed := ContinueAct(last, client, q);
          KeptPlace(s, St(), last, q, 0);
        }
        ContinueDone(deed, id, client);
    }

    method InsertAct(last: nat, x: nat, cmdlist: nat, state: nat, commands: seq<Command>, ghost q: nat)
      returns (now: nat, ghost deed: Deed)
      requires Good(St()) && q in lists && x in items && items[x].place.On?
      requires (cmdlist == 0 || cmdlist in cmdlists) && (state == 0 || state in states)
      modifies this`items, this`lists, this`timeline, this`clients, this`next, this`states, this`stateBase, this`cmdlists
      ensures Good(St()) && Acted(old(St()), St(), q, 1 + CommandsSize(commands))
      ensures now in items && items[now].place.On?
      ensures PutAfter(deed, x, cmdlist, commands) && deed == Deed(old(St()), St(), last, now, deed.chain, deed.at)
    {
      hide Good, Acted, Running, Untouched, SpliceAll;
      ghost var s, p := St(), items[x].place.queue;
      PlaceIn(s, x);
      ghost var chain;
      now, chain := InsertCommands(x, cmdlist, state, commands, q);
      ghost var at := ChainAt(s.lists[p], x, chain);
      ChainThere(s.items, items, chain, cmdlist, commands, s.items[x].client, s.items[x].place);
      deed := Deed(s, St(), last, now, chain, at);
    }

    method AppendAct(last: nat, client: nat, cmdlist: nat, state: nat, commands: seq<Command>, ghost q: nat)
      returns (ghost deed: Deed)
      requires Good(St()) && q in lists && client in lists && (client == 0 || client in clients)
      requires (cmdlist == 0 || cmdlist in cmdlists) && (state == 0 || state in states)
      modifies this`items, this`lists, this`timeline, this`clients, this`next, this`states, this`stateBase, this`cmdlists
      ensures Good(St()) && Acted(old(St()), St(), q, 1 + CommandsSize(commands))
      ensures PutLast(deed, client, cmdlist, commands) && deed == Deed(old(St()), St(), last, last, deed.chain, deed.at)
    {
      hide Good, Acted, Running, Untouched;
      ghost var s := St();
      ghost var chain := AppendCommands(client, cmdlist, state, commands, q);
      deed := Deed(s, St(), last, last, chain, 0);
    }

    method ContinueAct(last: nat, client: nat, ghost q: nat) returns (ghost deed: Deed)
      requires Good(St()) && q in lists && client in lists && lists[client] != []
      modifies this`items
      ensures Good(St()) && Acted(old(St()), St(), q, 0)
      ensures LetGo(deed, client) && deed == Deed(old(St()), St(), last, last, deed.chain, deed.at)
    {
      hide Good, Acted;
      ghost var s := St();
      OnList(s, client);
      HeadIn(lists[client]);
      ResumeActed(s, lists[client][0], q);
      ContinueItem(lists[client][0]);
      deed := Deed(s, St(), last, last, [], 0);
    }

    /** cmdq_continue */
    method ContinueItem(id: nat)
      requires Good(St()) && id in items
      modifies this`items
      ensures Good(St()) && St() == Resume(old(St()), id)
    {
      hide Good;
      ResumeKeeps(St(), id);
      items := items[id := items[id].(waiting := false)];
    }

    /** cmdq_get_command and cmdq_insert_after */
    method InsertCommands(x: nat, cmdlist: nat, state: nat, commands: seq<Command>, ghost q: nat)
      returns (last: nat, ghost chain: seq<nat>)
      requires Good(St()) && q in lists && x in items && items[x].place.On?
      requires (cmdlist == 0 || cmdlist in cmdlists) && (state == 0 || state in states)
      modifies this`items, this`lists, this`timeline, this`clients, this`next, this`states, this`stateBase, this`cmdlists
      ensures Good(St()) && Acted(old(St()), St(), q, 1 + CommandsSize(commands))
      ensures last in items && items[last].place.On? && last == LastOf(x, chain)
      ensures var p := old(items)[x].place.queue; p in old(lists) && lists == old(lists)[p := SpliceAll(old(lists)[p], x, chain)]
      ensures Running(old(items), items, chain, cmdlist, commands, old(items)[x].client, old(items)[x].place)
      ensures Untouched(old(items), items)
    {
      hide Good, Acted, Made, Chain, Inserted, Running, Untouched, SpliceAll, Unique;
      ghost var s := St();
      var first;
      ghost var used;
      first, chain, used := GetCommand(cmdlist, state, commands);
      ghost var t := St();
      MadeEither(s, t, chain, commands, cmdlist, used, q);
      KeptPlace(s, t, x, q, 0);
      ChainReady(t, first, chain);
      last := InsertAfter(x, first, chain);
      InsertedPlaces(t, St(), x, chain);
      MadeKeeps(s, t, chain, commands, cmdlist, used, x);
      InsertedRunning(s, t, St(), x, chain, commands, cmdlist, used);
      InsertedActed(t, St(), x, chain, q);
      ActedMore(s, t, St(), q, 0, Work(chain, t.items));
      ActedAtMost(s, St(), q, Work(chain, t.items), 1 + CommandsSize(commands));
    }

    /** cmdq_get_command and cmdq_append */
    method AppendCommands(client: nat, cmdlist: nat, state: nat, commands: seq<Command>, ghost q: nat)
      returns (ghost chain: seq<nat>)
      requires Good(St()) && q in lists && client in lists && (client == 0 || client in clients)
      requires (cmdlist == 0 || cmdlist in cmdlists) && (state == 0 || state in states)
      modifies this`items, this`lists, this`timeline, this`clients, this`next, this`states, this`stateBase, this`cmdlists
      ensures Good(St()) && Acted(old(St()), St(), q, 1 + CommandsSize(commands))
      ensures lists == old(lists)[client := old(lists)[client] + chain]
      ensures Running(old(items), items, chain, cmdlist, commands, client, On(client)) && Untouched(old(items), items)
    {
      hide Good, Acted, Made, Chain, Appended, Running, Untouched, Unique;
      ghost var s := St();
      var first;
      ghost var used;
      first, chain, used := GetCommand(cmdlist, state, commands);
      ghost var t := St();
      MadeEither(s, t, chain, commands, cmdlist, used, q);
      ChainReady(t, first, chain);
      MadeQueues(s, t, chain, commands, cmdlist, used);
      AppendItems(client, first, chain);
      AppendedRunning(s, t, St(), client, chain, commands, cmdlist, used);
      AppendedActed(t, St(), client, chain, q);
      ActedMore(s, t, St(), q, 0, Work(chain, t.items));
      ActedAtMost(s, St(), q, Work(chain, t.items), 1 + CommandsSize(commands));
    }

    /** All the acts of a plan, or of what is left of it. */
    method PerformActs(id: nat, acts: seq<Act>, ghost q: nat) returns (ghost deeds: seq<Deed>)
      requires Good(St()) && running == To(id) && id in items && items[id].place == On(q)
      modifies this`items, this`lists, this`timeline, this`clients, this`next, this`states, this`stateBase, this`cmdlists
      ensures Good(St()) && Acted(old(St()), St(), q, ActsSize(acts))
      ensures DoesAll(old(St()), deeds, St(), id, acts)
    {
      hide Good, Acted, ActsSize, DoesAll, Does;
      ghost var s := St();
      PlaceKnown(s, id);
      ActedNothing(s, q);
      DoesNone(s, id);
      deeds := [];
      var last := id;
      assert acts[0..] == acts && acts[..0] == [];
      for i := 0 to |acts|
        invariant Good(St()) && running == To(id) && id in items && items[id].place == On(q)
        invariant last in items && items[last].place.On? && last == if deeds == [] then id else deeds[|deeds| - 1].now
        invariant ActsSize(acts[i..]) <= ActsSize(acts)
        invariant Acted(s, St(), q, ActsSize(acts) - ActsSize(acts[i..]))
        invariant DoesAll(s, deeds, St(), id, acts[..i])
      {
        ghost var t, left := St(), acts[i..];
        assert left[0] == acts[i] && left[1..] == acts[i + 1..];
        ActsStep(left);
        ghost var deed;
        last, deed := PerformAct(id, last, acts[i], q);
        ActedMore(s, t, St(), q, ActsSize(acts) - ActsSize(left), ActSize(acts[i]));
        KeptPlace(t, St(), id, q, ActSize(acts[i]));
        DoesMore(s, deeds, deed, id, acts, i);
        deeds := deeds + [deed];
      }
      assert acts[|acts|..] == [] && acts[..|acts|] == acts;
      ActedAtMost(s, St(), q, ActsSize(acts) - ActsSize(acts[|acts|..]), ActsSize(acts));
    }

    method StartItem(q: nat, found: nat) returns (id: nat)
      requires Good(St()) && running == End && q in lists && lists[q] != [] && (found == 0 || found in clients)
      requires lists[q][0] in items && !items[lists[q][0]].fired
      modifies this`running, this`saved, this`items, this`shots
      ensures Good(St()) && id == lists[q][0] && q in old(shots) && St() == Start(old(St()), q, found)
      ensures id in items && items[id].place == On(q) && items[id].plan == old(items)[id].plan
    {
      hide Good;
      OnList(St(), q);
      HeadIn(lists[q]);
      StartKeeps(St(), q, found);
      id := lists[q][0];
      running := To(id);
      saved := items[id].client;
      shots := shots[q := shots[q] + [id]];
      items := items[id := items[id].(client := if saved == 0 then found else saved)];
    }

    method RestoreItem()
      requires Good(St()) && running.To?
      modifies this`items
      ensures Good(St()) && Restored(St()) && running.id in old(items) && St() == Restore(old(St()))
    {
      hide Good;
      RestoreKeeps(St());
      items := items[running.id := items[running.id].(client := saved)];
    }

    method FinishItem(wait: bool)
      requires Good(St()) && running.To? && Restored(St())
      modifies this`items, this`running
      ensures Good(St()) && old(running).id in old(items) && St() == Finish(old(St()), wait)
    {
      hide Good;
      FinishKeeps(St(), wait);
      NotWaiting(St(), running.id);
      var item := items[running.id].(fired := true);
      if wait {
        item := item.(waiting := true);
      }
      items := items[running.id := item];
      running := End;
    }

    /** cmdq_fire_command or cmdq_fire_callback: the head of the queue runs, and what it does
        is its plan, first with the client found for it, then with its own again. */
    method RunItem(q: nat) returns (id: nat, ghost run: Run)
      requires Good(St()) && running == End && q in lists && lists[q] != []
      requires lists[q][0] in items && !items[lists[q][0]].fired
      modifies this`items, this`lists, this`timeline, this`clients, this`next, this`states, this`stateBase,
        this`cmdlists, this`running, this`saved, this`shots
      ensures Good(St()) && Restored(St()) && running == To(id) && id == old(lists)[q][0]
      ensures id in items && items[id].place == On(q) && q in lists && lists.Keys == old(lists).Keys
      ensures q in old(shots) && shots == old(shots)[q := old(shots)[q] + [id]]
      ensures items[id].plan == old(items)[id].plan && items[id].group == old(items)[id].group
      ensures items[id].cmdlist == old(items)[id].cmdlist
      ensures Work(lists[q], items) <= Work(old(lists)[q], old(items)) + PlanSize(old(items)[id].plan)
      ensures Ran(old(St()), St()) && RanPlan(old(St()), run, St(), q)
    {
      hide Good, Acted, Work, ActsSize, Restored, Ran, DoesAll, RanPlan;
      ghost var s := St();
      var plan, cmdlist := items[lists[q][0]].plan, items[lists[q][0]].cmdlist;
      QueueKnown(s, q);
      var found := if cmdlist != 0 && plan.found in clients then plan.found else 0;
      StartWork(s, q, found, lists[q]);
      RanStart(s, q, found);
      id := StartItem(q, found);
      ghost var a := St();
      ghost var during := PerformActs(id, plan.during, q);
      ghost var b := St();
      KeptPlace(a, b, id, q, ActsSize(plan.during));
      ActedWork(a, b, q, ActsSize(plan.during));
      RanActed(s, a, b, q, ActsSize(plan.during));
      RestoreWork(b, lists[q]);
      RanRestore(s, b);
      RestoreItem();
      ghost var c := St();
      ghost var after := PerformActs(id, plan.after, q);
      KeptPlace(c, St(), id, q, ActsSize(plan.after));
      StillRestored(c, St(), id, q, ActsSize(plan.after));
      ActedWork(c, St(), q, ActsSize(plan.after));
      RanActed(s, c, St(), q, ActsSize(plan.after));
      run := Run(a, during, b, c, after);
      RunDone(s, run, St(), q, found);
    }

    /** The head of the queue is fired, as cmdq_next does it: an error removes the rest of
        its group. */
    method FireItem(q: nat) returns (wait: bool, ghost ran: State, ghost run: Run)
      requires Good(St()) && running == End && q in lists && lists[q] != []
      requires lists[q][0] in items && !items[lists[q][0]].fired
      modifies this`items, this`lists, this`timeline, this`clients, this`clientBase, this`next, this`states, this`stateBase,
        this`cmdlists, this`cmdlistBase, this`cancelled, this`running, this`saved, this`shots
      ensures Good(St()) && running == End && lists.Keys == old(lists).Keys
      ensures var id := old(lists)[q][0];
              && q in old(shots) && shots == old(shots)[q := old(shots)[q] + [id]]
              && lists[q] != [] && lists[q][0] == id && id in items && items[id].place == On(q)
              && items[id].fired && items[id].waiting == wait == old(items)[id].plan.result.Wait?
              && Work(lists[q], items) <= Work(old(lists)[q], old(items))
      ensures FiredAs(old(St()), run, ran, St(), q)
    {
      hide Good, Removed, Others, Work, PlanSize, Restored, Ran, RanPlan, Grouped, FiredAs;
      ghost var s := St();
      var id;
      id, run := RunItem(q);
      ghost var d := St();
      ran := d;
      var plan := items[id].plan;
      HeadRuns(d, q, id);
      if plan.result.Error? && items[id].cmdlist != 0 && items[id].group != 0 {
        ghost var gone := RemoveGroup(id, q);
        RemovedWork(d, St(), q, id, gone, items[id].group);
        RemovedRest(d, St(), q, gone);
      }
      ghost var e := St();
      HeadRuns(e, q, id);
      FinishWork(e, q, id, plan.result.Wait?);
      FiredFinish(s, run, d, e, q, id);
      wait := plan.result.Wait?;
      FinishItem(wait);
    }

    /** cmdq_next: items run from the head of a queue until one waits or none is left. What is
        cancelled is what the items fired take with them when they fail, and nothing else. */
    method Next(q: nat) returns (count: nat, ghost waited: bool, ghost rounds: seq<Round>)
      requires Good(St()) && running == End && q in lists
      modifies this`items, this`lists, this`timeline, this`clients, this`clientBase, this`next, this`states, this`stateBase,
        this`cmdlists, this`cmdlistBase, this`cancelled, this`running, this`saved, this`shots
      ensures Good(St()) && running == End && lists.Keys == old(lists).Keys
      ensures q in lists && (lists[q] == [] || HeadWaits(St(), q))
      ensures Shot(old(shots), shots, q, count + if waited then 1 else 0)
      ensures Rounds(old(St()), rounds, St(), q) && cancelled == old(cancelled) + AllGone(rounds, q)
      ensures HeadWaits(old(St()), q) ==> St() == old(St()) && count == 0 && !waited
    {
      hide Good, Work, Shot, Remove, Rounds, Went, FiredAs, AllGone, Gone;
      count, waited, rounds := 0, false, [];
      ShotNone(shots, q, St());
      RoundsNone(St(), q);
      OnList(St(), q);
      if lists[q] == [] {
        return;
      }
      HeadIn(lists[q]);
      if items[lists[q][0]].waiting {
        return;
      }
      ghost var was := St();
      while lists[q] != []
        invariant Good(St()) && running == End && q in lists && lists.Keys == old(lists).Keys
        invariant Shot(old(shots), shots, q, count)
        invariant Rounds(was, rounds, St(), q) && cancelled == old(cancelled) + AllGone(rounds, q)
        decreases Work(lists[q], items)
      {
        HeadKnown(St(), q);
        var id := lists[q][0];
        if items[id].waiting {
          return;
        }
        ghost var s := St();
        ghost var ran, run := s, Run(s, [], s, s, []);
        if !items[id].fired {
          ghost var before := shots;
          var wait;
          wait, ran, run := FireItem(q);
          ShotMore(old(shots), before, shots, q, count, id);
          if wait {
            waited := true;
            WentWaits(s, run, ran, St(), q);
            RoundDone(was, rounds, Round(s, run, ran, St(), St()), q);
            rounds := rounds + [Round(s, run, ran, St(), St())];
            return;
          }
          count := count + 1;
        }
        ghost var mid := St();
        DropHead(q, id);
        WentOn(s, run, ran, mid, St(), q);
        RoundDone(was, rounds, Round(s, run, ran, mid, St()), q);
        rounds := rounds + [Round(s, run, ran, mid, St())];
      }
    }

    /** cmdq_remove of an item that has been fired. */
    method DropHead(q: nat, id: nat)
      requires Good(St()) && running == End && q in lists && lists[q] != [] && lists[q][0] == id
      requires id in items && items[id].place == On(q) && items[id].fired
      modifies this`items, this`lists, this`clients, this`clientBase, this`states, this`stateBase,
        this`cmdlists, this`cmdlistBase, this`cancelled
      ensures Good(St()) && q in lists && lists.Keys == old(lists).Keys && lists[q] == old(lists)[q][1..]
      ensures cancelled == old(cancelled) && Work(lists[q], items) < Work(old(lists)[q], old(items))
      ensures St() == Remove(old(St()), id)
    {
      hide Good, Work, Remove;
      DropWork(St(), q, id);
      RemoveItem(id);
    }
  }
}

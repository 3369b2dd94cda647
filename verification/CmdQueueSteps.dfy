/** What holds of the command queues in every state, and the steps that keep it
    (cmd-queue.c). */
module CmdQueueSteps {
  import opened CmdQueueState

  // ----- What holds

  /** Each queue, and what was fired from it, is in the order of its timeline. */
  ghost predicate Tracked(s: State) {
    && s.lists.Keys == s.timeline.Keys == s.shots.Keys && 0 in s.lists
    && (forall q :: q in s.lists ==> Track(s.lists[q], s.timeline[q], s.shots[q]))
  }

  /** Every item is on at most one queue. */
  ghost predicate Homed(s: State) {
    && s.next > 0
    && (forall q, id :: q in s.lists && id in s.lists[q] ==> id in s.items && s.items[id].place == On(q))
    && (forall id :: id in s.items ==> 0 < id < s.next && (s.items[id].place == Nowhere ==> s.items[id].client == 0))
    && (forall id :: id in s.items && s.items[id].place.On? ==>
          s.items[id].place.queue in s.lists && id in s.lists[s.items[id].place.queue])
  }

  ghost predicate Accounted(list: seq<nat>, timeline: seq<nat>, shots: seq<nat>, cancelled: set<nat>, here: set<nat>, next: nat) {
    && (forall id :: id in timeline ==> id < next && (id in list || id in shots || id in cancelled))
    && (forall id :: id in shots ==> id in timeline && id !in cancelled && (id in here ==> id in list))
  }

  /** Everything that ever was on a queue is still there, was fired, or was cancelled
      without being fired. */
  ghost predicate Past(s: State) {
    && (forall q :: q in s.lists && q in s.timeline && q in s.shots ==>
          Accounted(s.lists[q], s.timeline[q], s.shots[q], s.cancelled, s.items.Keys, s.next))
    && (forall id :: id in s.cancelled ==> id !in s.items && id < s.next)
  }

  predicate Started(s: State, id: nat)
    requires id in s.items
  {
    s.items[id].fired || s.running == To(id)
  }

  function Head(s: State, q: nat): Link {
    if q in s.lists && s.lists[q] != [] then To(s.lists[q][0]) else End
  }

  /** Only the head of a queue is running, fired or waiting, and an item is among the shots
      of its queue exactly when it has been fired: so it is fired once. */
  ghost predicate Headed(s: State) {
    && (forall id :: id in s.items && Started(s, id) ==>
          s.items[id].place.On? && Head(s, s.items[id].place.queue) == To(id))
    && (forall id :: id in s.items && s.items[id].waiting ==> s.items[id].fired)
    && (forall id :: id in s.items && s.items[id].place.On? && s.items[id].place.queue in s.shots ==>
          (Started(s, id) <==> id in s.shots[s.items[id].place.queue]))
    && (s.running.To? ==> s.running.id in s.items && !s.items[s.running.id].fired)
  }

  ghost function Clients(s: State): map<nat, nat> {
    map id | id in s.items :: if s.running == To(id) then s.saved else s.items[id].client
  }

  ghost function States(s: State): map<nat, nat> {
    map id | id in s.items :: s.items[id].state
  }

  ghost function Lists(s: State): map<nat, nat> {
    map id | id in s.items :: s.items[id].cmdlist
  }

  /** Clients, states and command lists have their outside references and one for each item
      that holds them, and none that an item needs is gone. */
  ghost predicate Referenced(s: State) {
    && Counted(s.clients, Clients(s)) && Counted(s.states, States(s)) && Counted(s.cmdlists, Lists(s))
    && (forall id :: id in s.items ==>
          (s.items[id].client == 0 || s.items[id].client in s.clients.count) && s.items[id].state != 0)
    && (forall v :: v in s.states.count ==> v < s.next)
    && (forall id :: id in s.items && s.items[id].place.On? && s.items[id].place.queue != 0 ==>
          s.items[id].client == s.items[id].place.queue)
    && (forall id :: id in s.items && s.running == To(id) && s.items[id].place.On? && s.items[id].place.queue != 0 ==>
          s.saved == s.items[id].place.queue)
  }

  ghost predicate Good(s: State) {
    Tracked(s) && Homed(s) && Past(s) && Headed(s) && Referenced(s)
  }

  // ----- Steps

  /** A new item, not yet on a queue. */
  function Create(s: State, group: nat, state: nat, cmdlist: nat, plan: Plan): State {
    s.(items := s.items[s.next := Item(0, Nowhere, group, state, cmdlist, false, false, plan, End)],
       next := s.next + 1,
       states := Ref(s.states, state),
       cmdlists := Ref(s.cmdlists, cmdlist))
  }

  /** One turn of cmdq_append. */
  function Enqueue(s: State, q: nat, id: nat): State {
    if !(id in s.items && q in s.lists && q in s.timeline) then s
    else
      s.(items := s.items[id := s.items[id].(client := q, place := On(q), next := End)],
         lists := s.lists[q := s.lists[q] + [id]],
         timeline := s.timeline[q := s.timeline[q] + [id]],
         clients := Ref(s.clients, q))
  }

  /** One turn of cmdq_insert_after. */
  function InsertOne(s: State, x: nat, id: nat): State {
    if !(x in s.items && id in s.items && s.items[x].place.On?
         && s.items[x].place.queue in s.lists && s.items[x].place.queue in s.timeline) then s
    else
      var q, c := s.items[x].place.queue, s.items[x].client;
      var items := s.items[id := s.items[id].(client := c, place := On(q), next := s.items[x].next)];
      s.(items := items[x := items[x].(next := To(id))],
         lists := s.lists[q := Splice(s.lists[q], x, id)],
         timeline := s.timeline[q := Splice(s.timeline[q], x, id)],
         clients := Ref(s.clients, c))
  }

  /** cmdq_remove */
  function Remove(s: State, id: nat): State
    requires id in s.items && s.items[id].place.On? && s.items[id].place.queue in s.lists
  {
    var item := s.items[id];
    s.(items := s.items - {id},
       lists := s.lists[item.place.queue := Without(s.lists[item.place.queue], id)],
       clients := Unref(s.clients, item.client),
       states := Unref(s.states, item.state),
       cmdlists := Unref(s.cmdlists, item.cmdlist),
       cancelled := if item.fired then s.cancelled else s.cancelled + {id})
  }

  /** The head of a queue starts to run, with the client found for it if it has none. */
  function Start(s: State, q: nat, found: nat): State
    requires q in s.lists && s.lists[q] != [] && s.lists[q][0] in s.items && q in s.shots
  {
    var id := s.lists[q][0];
    var c := s.items[id].client;
    s.(running := To(id), saved := c, shots := s.shots[q := s.shots[q] + [id]],
       items := s.items[id := s.items[id].(client := if c == 0 then found else c)])
  }

  /** It has its own client again. */
  function Restore(s: State): State
    requires s.running.To? && s.running.id in s.items
  {
    s.(items := s.items[s.running.id := s.items[s.running.id].(client := s.saved)])
  }

  /** It has run. */
  function Finish(s: State, wait: bool): State
    requires s.running.To? && s.running.id in s.items
  {
    s.(items := s.items[s.running.id := s.items[s.running.id].(fired := true, waiting := wait)], running := End)
  }

  /** cmdq_continue */
  function Resume(s: State, id: nat): State
    requires id in s.items
  {
    s.(items := s.items[id := s.items[id].(waiting := false)])
  }

  // ----- Items changed or added off the queues

  lemma HomedSame(s: State, t: State)
    requires Homed(s) && t.lists == s.lists && t.next >= s.next && s.items.Keys <= t.items.Keys
    requires forall id :: id in s.items ==> t.items[id].place == s.items[id].place
    requires forall id :: id in s.items && s.items[id].place == Nowhere ==> t.items[id].client == s.items[id].client
    requires forall id :: id in t.items && id !in s.items ==>
               t.items[id].place == Nowhere && 0 < id < t.next && t.items[id].client == 0
    ensures Homed(t)
  {
  }

  lemma PastSame(s: State, t: State)
    requires Past(s) && t.lists == s.lists && t.timeline == s.timeline && t.shots == s.shots
    requires t.cancelled == s.cancelled && t.next >= s.next
    requires forall id :: id in t.items ==> id in s.items || id >= s.next
    ensures Past(t)
  {
    forall q | q in t.lists && q in t.timeline && q in t.shots
      ensures Accounted(t.lists[q], t.timeline[q], t.shots[q], t.cancelled, t.items.Keys, t.next)
    {
      assert Accounted(s.lists[q], s.timeline[q], s.shots[q], s.cancelled, s.items.Keys, s.next);
    }
  }

  lemma HeadedSame(s: State, t: State)
    requires Headed(s) && t.lists == s.lists && t.shots == s.shots && t.running == s.running && s.items.Keys <= t.items.Keys
    requires forall id :: id in s.items ==> t.items[id].place == s.items[id].place && t.items[id].fired == s.items[id].fired
    requires forall id :: id in t.items ==> t.items[id].waiting ==> id in s.items && s.items[id].waiting
    requires forall id :: id in t.items && id !in s.items ==> !t.items[id].fired && t.items[id].place == Nowhere
    ensures Headed(t)
  {
    forall id | id in t.items && Started(t, id)
      ensures id in s.items && Started(s, id) && Head(t, s.items[id].place.queue) == Head(s, s.items[id].place.queue)
    {
    }
    forall id | id in s.items
      ensures Started(t, id) == Started(s, id)
    {
    }
  }

  lemma CreateKeeps(s: State, group: nat, state: nat, cmdlist: nat, plan: Plan)
    requires Good(s) && state in s.states.count && (cmdlist == 0 || cmdlist in s.cmdlists.count)
    ensures Good(Create(s, group, state, cmdlist, plan))
  {
    hide Tracked, Homed, Past, Headed, Referenced, Ref;
    var t := Create(s, group, state, cmdlist, plan);
    NextIsNew(s);
    HomedSame(s, t);
    PastSame(s, t);
    HeadedSame(s, t);
    TrackedSame(s, t);
    CreateReferenced(s, group, state, cmdlist, plan);
  }

  lemma CreateMaps(s: State, group: nat, state: nat, cmdlist: nat, plan: Plan)
    requires s.next !in s.items && s.running != To(s.next)
    ensures var t := Create(s, group, state, cmdlist, plan);
            && States(t) == States(s)[s.next := state]
            && Lists(t) == Lists(s)[s.next := cmdlist]
            && Clients(t) == Clients(s)[s.next := 0]
  {
    hide Ref;
  }

  lemma CreateReferenced(s: State, group: nat, state: nat, cmdlist: nat, plan: Plan)
    requires Referenced(s) && s.next !in s.items && s.running != To(s.next) && s.next > 0
    requires state in s.states.count && (cmdlist == 0 || cmdlist in s.cmdlists.count)
    ensures Referenced(Create(s, group, state, cmdlist, plan))
  {
    hide Counted, Ref, States, Lists, Clients;
    CreateMaps(s, group, state, cmdlist, plan);
    CreateRefs(s, state, cmdlist);
  }

  lemma NextIsNew(s: State)
    requires Homed(s) && Headed(s)
    ensures s.next !in s.items && s.running != To(s.next) && s.next > 0
  {
  }

  lemma TrackedSame(s: State, t: State)
    requires Tracked(s) && t.lists == s.lists && t.timeline == s.timeline && t.shots == s.shots
    ensures Tracked(t)
  {
  }

  lemma CreateRefs(s: State, state: nat, cmdlist: nat)
    requires Referenced(s) && s.next !in s.items
    requires state in s.states.count && (cmdlist == 0 || cmdlist in s.cmdlists.count)
    ensures Counted(Ref(s.states, state), States(s)[s.next := state])
    ensures Counted(Ref(s.cmdlists, cmdlist), Lists(s)[s.next := cmdlist])
    ensures Counted(s.clients, Clients(s)[s.next := 0])
    ensures state != 0 && forall v :: v in Ref(s.states, state).count ==> v < s.next
  {
    RefKeeps(s.states, States(s), s.next, state);
    RefKeeps(s.cmdlists, Lists(s), s.next, cmdlist);
    RefKeeps(s.clients, Clients(s), s.next, 0);
  }

  // ----- Onto the queues

  /** An item on no queue has no history. */
  lemma Unplaced(s: State, id: nat, q: nat)
    requires Homed(s) && Past(s) && Headed(s) && Tracked(s) && id in s.items && s.items[id].place == Nowhere && q in s.lists
    ensures id !in s.timeline[q] && id !in s.lists[q] && id !in s.shots[q] && !Started(s, id) && !s.items[id].waiting
  {
    hide Track;
    assert Accounted(s.lists[q], s.timeline[q], s.shots[q], s.cancelled, s.items.Keys, s.next);
  }

  lemma EnqueueHomed(s: State, q: nat, id: nat)
    requires Homed(s) && id in s.items && s.items[id].place == Nowhere && q in s.lists && q in s.timeline
    ensures Homed(Enqueue(s, q, id))
  {
    var t := Enqueue(s, q, id);
    assert forall x :: x in s.lists[q] + [id] <==> x in s.lists[q] || x == id;
  }

  lemma PlacedPast(s: State, t: State, q: nat, id: nat)
    requires Past(s) && q in s.lists && q in t.lists && q in s.timeline && q in t.timeline && t.shots == s.shots && q in s.shots
    requires t.cancelled == s.cancelled && t.items.Keys == s.items.Keys && t.next == s.next && id < s.next
    requires t.lists == s.lists[q := t.lists[q]] && t.timeline == s.timeline[q := t.timeline[q]]
    requires forall x :: x in t.lists[q] <==> x in s.lists[q] || x == id
    requires forall x :: x in t.timeline[q] <==> x in s.timeline[q] || x == id
    ensures Past(t)
  {
    forall k | k in t.lists && k in t.timeline && k in t.shots
      ensures Accounted(t.lists[k], t.timeline[k], t.shots[k], t.cancelled, t.items.Keys, t.next)
    {
      assert Accounted(s.lists[k], s.timeline[k], s.shots[k], s.cancelled, s.items.Keys, s.next);
    }
  }

  lemma PlacedHeaded(s: State, t: State, q: nat, id: nat)
    requires Headed(s) && Homed(s) && q in s.lists && q in t.lists && t.shots == s.shots && q in s.shots && t.running == s.running
    requires id in s.items && !Started(s, id) && !s.items[id].waiting && id !in s.shots[q]
    requires t.items.Keys == s.items.Keys && t.items[id].place == On(q)
    requires t.lists == s.lists[q := t.lists[q]] && t.lists[q] != []
    requires s.lists[q] != [] ==> t.lists[q][0] == s.lists[q][0]
    requires forall x :: x in s.items && x != id ==> t.items[x].place == s.items[x].place
    requires forall x :: x in s.items ==> t.items[x].fired == s.items[x].fired && t.items[x].waiting == s.items[x].waiting
    ensures Headed(t)
  {
    forall x | x in t.items
      ensures Started(t, x) == Started(s, x)
    {
    }
    forall x | x in t.items && Started(t, x)
      ensures t.items[x].place.On? && Head(t, t.items[x].place.queue) == To(x)
    {
      assert Started(s, x) && x != id;
      assert Head(s, s.items[x].place.queue) == To(x);
    }
  }

  lemma EnqueueMaps(s: State, q: nat, id: nat)
    requires id in s.items && s.items[id].client == 0 && s.running != To(id) && q in s.lists && q in s.timeline
    ensures var t := Enqueue(s, q, id);
            id in Clients(s) && Clients(s)[id] == 0 && Clients(t) == Clients(s)[id := q]
            && States(t) == States(s) && Lists(t) == Lists(s)
  {
  }

  lemma EnqueueReferenced(s: State, q: nat, id: nat)
    requires Referenced(s) && id in s.items && s.items[id].client == 0 && s.running != To(id)
    requires q in s.lists && q in s.timeline && (q == 0 || q in s.clients.count)
    ensures Referenced(Enqueue(s, q, id))
  {
    hide Counted, Ref, Clients, States, Lists;
    EnqueueMaps(s, q, id);
    PlaceRefs(s, id, q);
  }

  lemma PlaceRefs(s: State, id: nat, c: nat)
    requires Counted(s.clients, Clients(s)) && id in Clients(s) && Clients(s)[id] == 0
    requires c == 0 || c in s.clients.count
    ensures Counted(Ref(s.clients, c), Clients(s)[id := c])
    ensures Ref(s.clients, c).count.Keys == s.clients.count.Keys
  {
    RefKeeps(s.clients, Clients(s), id, c);
  }

  lemma EnqueueKeeps(s: State, q: nat, id: nat)
    requires Good(s) && id in s.items && s.items[id].place == Nowhere && q in s.lists
    requires q == 0 || q in s.clients.count
    ensures Good(Enqueue(s, q, id))
  {
    hide Track, Referenced;
    Unplaced(s, id, q);
    assert s.items[id].client == 0 && id < s.next;
    hide Past, Headed, Homed;
    EnqueueTracked(s, q, id);
    hide Tracked;
    var t := Enqueue(s, q, id);
    EnqueueHomed(s, q, id);
    InAppended(s.lists[q], id);
    InAppended(s.timeline[q], id);
    PlacedPast(s, t, q, id);
    PlacedHeaded(s, t, q, id);
    EnqueueReferenced(s, q, id);
  }

  lemma InAppended(s: seq<nat>, id: nat)
    ensures forall x :: x in s + [id] <==> x in s || x == id
  {
  }

  lemma EnqueueTracked(s: State, q: nat, id: nat)
    requires Tracked(s) && id in s.items && q in s.lists && id !in s.timeline[q]
    ensures Tracked(Enqueue(s, q, id)) && q in s.timeline && q in s.shots
  {
    hide Track;
    TrackAppend(s.lists[q], s.timeline[q], s.shots[q], id);
  }

  lemma QueueOf(s: State, x: nat)
    requires Homed(s) && Tracked(s) && x in s.items && s.items[x].place.On?
    ensures var q := s.items[x].place.queue; q in s.lists && q in s.timeline && q in s.shots && x in s.lists[q]
    ensures forall q :: q in s.lists ==> Unique(s.lists[q])
  {
    hide Unique, Filter;
    forall q | q in s.lists
      ensures Unique(s.lists[q])
    {
      TrackMembers(s.lists[q], s.timeline[q], s.shots[q]);
    }
  }

  lemma InsertTracked(s: State, x: nat, id: nat)
    requires Tracked(s) && x in s.items && id in s.items && s.items[x].place.On?
    requires var q := s.items[x].place.queue; q in s.lists && x in s.lists[q] && id !in s.timeline[q]
    ensures Tracked(InsertOne(s, x, id))
    ensures var q, t := s.items[x].place.queue, InsertOne(s, x, id);
            && q in t.lists && q in t.timeline
            && (forall y :: y in t.lists[q] <==> y in s.lists[q] || y == id)
            && (forall y :: y in t.timeline[q] <==> y in s.timeline[q] || y == id)
            && t.lists[q] != [] && t.lists[q][0] == s.lists[q][0]
  {
    hide Track, Unique, Splice;
    var q := s.items[x].place.queue;
    TrackUnique(s.lists[q], s.timeline[q], s.shots[q]);
    TrackSplice(s.lists[q], s.timeline[q], s.shots[q], x, id);
    SpliceMembers(s.lists[q], x, id);
    SpliceMembers(s.timeline[q], x, id);
  }

  lemma TrackUnique(list: seq<nat>, timeline: seq<nat>, shots: seq<nat>)
    requires Track(list, timeline, shots)
    ensures Unique(timeline) && Unique(list) && Unique(shots)
    ensures forall x :: x in list ==> x in timeline
    ensures forall x :: x in shots ==> x in timeline
  {
    TrackMembers(list, timeline, shots);
  }

  lemma InsertHomed(s: State, x: nat, id: nat)
    requires Homed(s) && x in s.items && id in s.items && s.items[x].place.On? && s.items[id].place == Nowhere
    requires var q := s.items[x].place.queue; q in s.lists && x in s.lists[q] && q in s.timeline
    requires var q := s.items[x].place.queue; forall y :: y in InsertOne(s, x, id).lists[q] <==> y in s.lists[q] || y == id
    ensures Homed(InsertOne(s, x, id))
  {
    hide Splice;
  }

  lemma InsertMaps(s: State, x: nat, id: nat)
    requires x in s.items && id in s.items && s.items[x].place.On? && s.items[id].client == 0
    requires x != id && s.running != To(id)
    requires s.items[x].place.queue in s.lists && s.items[x].place.queue in s.timeline
    ensures var t := InsertOne(s, x, id);
            id in Clients(s) && Clients(s)[id] == 0 && Clients(t) == Clients(s)[id := s.items[x].client]
            && States(t) == States(s) && Lists(t) == Lists(s)
  {
    hide Splice, Ref;
  }

  lemma InsertReferenced(s: State, x: nat, id: nat)
    requires Referenced(s) && x in s.items && id in s.items && s.items[x].place.On? && s.items[id].client == 0
    requires x != id && s.running != To(id)
    requires s.items[x].place.queue in s.lists && s.items[x].place.queue in s.timeline
    ensures Referenced(InsertOne(s, x, id))
  {
    hide Counted, Ref, Splice, Clients, States, Lists;
    InsertMaps(s, x, id);
    PlaceRefs(s, id, s.items[x].client);
  }

  lemma NoClient(s: State, id: nat)
    requires Homed(s) && id in s.items && s.items[id].place == Nowhere
    ensures s.items[id].client == 0 && id < s.next
  {
  }

  lemma InsertKeeps(s: State, x: nat, id: nat)
    requires Good(s) && x in s.items && s.items[x].place.On? && id in s.items && s.items[id].place == Nowhere
    ensures s.items[x].place.queue in s.lists && s.items[x].place.queue in s.timeline && x != id
    ensures Good(InsertOne(s, x, id))
  {
    hide Tracked, Homed, Past, Headed, Referenced, Splice, Unique;
    QueueOf(s, x);
    var q := s.items[x].place.queue;
    Unplaced(s, id, q);
    NoClient(s, id);
    InsertTracked(s, x, id);
    InsertHomed(s, x, id);
    var t := InsertOne(s, x, id);
    PlacedPast(s, t, q, id);
    PlacedHeaded(s, t, q, id);
    InsertReferenced(s, x, id);
  }

  // ----- Off the queues

  lemma RemoveTracked(s: State, id: nat)
    requires Tracked(s) && id in s.items && s.items[id].place.On? && s.items[id].place.queue in s.lists
    ensures Tracked(Remove(s, id))
    ensures var q := s.items[id].place.queue;
            forall y :: y in Remove(s, id).lists[q] <==> y in s.lists[q] && y != id
    ensures var q := s.items[id].place.queue; var l := Remove(s, id).lists[q];
            s.lists[q] != [] && s.lists[q][0] != id ==> l != [] && l[0] == s.lists[q][0]
  {
    hide Track, Unique;
    var q := s.items[id].place.queue;
    TrackUnique(s.lists[q], s.timeline[q], s.shots[q]);
    TrackRemove(s.lists[q], s.timeline[q], s.shots[q], id);
    WithoutMembers(s.lists[q], id);
  }

  lemma RemoveHomed(s: State, id: nat)
    requires Homed(s) && id in s.items && s.items[id].place.On?
    requires var q := s.items[id].place.queue;
             q in s.lists && forall y :: y in Remove(s, id).lists[q] <==> y in s.lists[q] && y != id
    ensures Homed(Remove(s, id))
  {
    hide Without;
  }

  lemma RemovePast(s: State, id: nat)
    requires Past(s) && Homed(s) && Headed(s) && id in s.items && s.items[id].place.On? && s.running != To(id)
    requires var q := s.items[id].place.queue;
             q in s.lists && q in s.shots && forall y :: y in Remove(s, id).lists[q] <==> y in s.lists[q] && y != id
    ensures Past(Remove(s, id))
  {
    hide Without;
    var t := Remove(s, id);
    assert s.items[id].fired <==> Started(s, id);
    forall k | k in t.lists && k in t.timeline && k in t.shots
      ensures Accounted(t.lists[k], t.timeline[k], t.shots[k], t.cancelled, t.items.Keys, t.next)
    {
      assert Accounted(s.lists[k], s.timeline[k], s.shots[k], s.cancelled, s.items.Keys, s.next);
    }
  }

  lemma RemoveHeaded(s: State, id: nat)
    requires Headed(s) && Homed(s) && id in s.items && s.items[id].place.On? && s.running != To(id)
    requires var q := s.items[id].place.queue; q in s.lists
    requires var q := s.items[id].place.queue; var l := Remove(s, id).lists[q];
             s.lists[q] != [] && s.lists[q][0] != id ==> l != [] && l[0] == s.lists[q][0]
    ensures Headed(Remove(s, id))
  {
    hide Without, Unref;
    var t := Remove(s, id);
    forall x | x in t.items
      ensures Started(t, x) == Started(s, x)
    {
    }
    forall x | x in t.items && Started(t, x)
      ensures t.items[x].place.On? && Head(t, t.items[x].place.queue) == To(x)
    {
      assert Started(s, x);
      assert Head(s, s.items[x].place.queue) == To(x);
    }
  }

  lemma RemoveMaps(s: State, id: nat)
    requires id in s.items && s.items[id].place.On? && s.items[id].place.queue in s.lists && s.running != To(id)
    ensures var item, t := s.items[id], Remove(s, id);
            && id in Clients(s) && id in States(s) && id in Lists(s)
            && Clients(s)[id] == item.client && States(s)[id] == item.state && Lists(s)[id] == item.cmdlist
            && Clients(t) == Clients(s) - {id} && States(t) == States(s) - {id} && Lists(t) == Lists(s) - {id}
  {
    hide Without, Unref;
  }

  lemma RemoveReferenced(s: State, id: nat)
    requires Referenced(s) && id in s.items && s.items[id].place.On? && s.items[id].place.queue in s.lists
    requires s.running != To(id) && Restored(s)
    ensures Referenced(Remove(s, id))
  {
    hide Clients, States, Lists, Unref, Without, Counted;
    RemoveMaps(s, id);
    UnrefKeeps(s.clients, Clients(s), id);
    UnrefKeeps(s.states, States(s), id);
    UnrefKeeps(s.cmdlists, Lists(s), id);
    HeldThere(Remove(s, id));
    UnrefKeys(s.states, s.items[id].state);
  }

  lemma UnrefKeys(refs: Refs, v: nat)
    ensures Unref(refs, v).count.Keys <= refs.count.Keys
  {
  }

  /** The clients the items need are there, being held. */
  lemma HeldThere(s: State)
    requires Counted(s.clients, Clients(s)) && (s.running.To? && s.running.id in s.items ==> s.items[s.running.id].client == s.saved)
    ensures forall x :: x in s.items ==> s.items[x].client == 0 || s.items[x].client in s.clients.count
  {
    forall x | x in s.items
      ensures Clients(s)[x] == s.items[x].client
    {
    }
  }

  ghost predicate Restored(s: State) {
    s.running.To? ==> s.running.id in s.items && s.items[s.running.id].client == s.saved
  }

  lemma RemoveKeeps(s: State, id: nat)
    requires Good(s) && id in s.items && s.items[id].place.On? && s.running != To(id) && Restored(s)
    ensures s.items[id].place.queue in s.lists && Good(Remove(s, id)) && Restored(Remove(s, id))
  {
    hide Track, Unique, Without, Referenced;
    QueueOf(s, id);
    RemoveTracked(s, id);
    RemoveHomed(s, id);
    RemovePast(s, id);
    RemoveHeaded(s, id);
    RemoveReferenced(s, id);
  }

  // ----- Running

  lemma StartKeeps(s: State, q: nat, found: nat)
    requires Good(s) && s.running == End && q in s.lists && s.lists[q] != []
    requires found == 0 || found in s.clients.count
    requires s.lists[q][0] in s.items ==> !s.items[s.lists[q][0]].fired
    ensures s.lists[q][0] in s.items && q in s.shots && Good(Start(s, q, found))
  {
    hide Track, Counted;
    var id := s.lists[q][0];
    assert id in s.lists[q];
    assert s.items[id].place == On(q) && !Started(s, id);
    hide Referenced, Past, Tracked;
    var t := Start(s, q, found);
    StartTracked(s, q);
    HomedSame(s, t);
    StartPast(s, q, found);
    StartHeaded(s, q, found);
    StartReferenced(s, q, found);
  }

  lemma StartTracked(s: State, q: nat)
    requires Tracked(s) && q in s.lists && s.lists[q] != [] && s.lists[q][0] !in s.shots[q]
    ensures q in s.shots && Track(s.lists[q], s.timeline[q], s.shots[q] + [s.lists[q][0]])
    ensures Tracked(s.(shots := s.shots[q := s.shots[q] + [s.lists[q][0]]]))
    ensures s.lists[q][0] in s.timeline[q]
  {
    hide Track;
    assert s.lists[q][0] in s.lists[q];
    TrackUnique(s.lists[q], s.timeline[q], s.shots[q]);
    TrackShoot(s.lists[q], s.timeline[q], s.shots[q]);
  }

  lemma StartPast(s: State, q: nat, found: nat)
    requires Past(s) && Homed(s) && q in s.lists && s.lists[q] != [] && q in s.shots && q in s.timeline
    requires s.lists[q][0] in s.timeline[q] && s.lists[q][0] in s.items
    ensures Past(Start(s, q, found))
  {
    var t := Start(s, q, found);
    assert s.lists[q][0] in s.lists[q];
    forall k | k in t.lists && k in t.timeline && k in t.shots
      ensures Accounted(t.lists[k], t.timeline[k], t.shots[k], t.cancelled, t.items.Keys, t.next)
    {
      assert Accounted(s.lists[k], s.timeline[k], s.shots[k], s.cancelled, s.items.Keys, s.next);
    }
  }

  lemma StartHeaded(s: State, q: nat, found: nat)
    requires Headed(s) && Homed(s) && s.running == End && q in s.lists && s.lists[q] != [] && q in s.shots
    requires s.lists[q][0] in s.items && s.items[s.lists[q][0]].place == On(q) && !s.items[s.lists[q][0]].fired
    ensures Headed(Start(s, q, found))
  {
    var t, id := Start(s, q, found), s.lists[q][0];
    forall x | x in t.items
      ensures Started(t, x) <==> Started(s, x) || x == id
    {
    }
    forall x | x in t.items && Started(t, x)
      ensures t.items[x].place.On? && Head(t, t.items[x].place.queue) == To(x)
    {
      if x != id {
        assert Started(s, x);
        assert Head(s, s.items[x].place.queue) == To(x);
      }
    }
  }

  lemma StartReferenced(s: State, q: nat, found: nat)
    requires Referenced(s) && s.running == End && q in s.lists && s.lists[q] != [] && s.lists[q][0] in s.items && q in s.shots
    requires found == 0 || found in s.clients.count
    ensures Referenced(Start(s, q, found))
  {
    hide Counted, Clients, States, Lists;
    StartMaps(s, q, found);
  }

  lemma StartMaps(s: State, q: nat, found: nat)
    requires s.running == End && q in s.lists && s.lists[q] != [] && s.lists[q][0] in s.items && q in s.shots
    ensures var t := Start(s, q, found); Clients(t) == Clients(s) && States(t) == States(s) && Lists(t) == Lists(s)
  {
  }

  lemma RestoreKeeps(s: State)
    requires Good(s) && s.running.To?
    ensures s.running.id in s.items && Good(Restore(s)) && Restored(Restore(s))
  {
    assert s.items[s.running.id].place.On? by { assert Started(s, s.running.id); }
    hide Tracked, Past, Referenced;
    var t := Restore(s);
    HomedSame(s, t);
    PastSame(s, t);
    HeadedSame(s, t);
    TrackedSame(s, t);
    hide Homed, Headed;
    RestoreReferenced(s);
    assert Restored(t);
  }

  lemma RestoreReferenced(s: State)
    requires Referenced(s) && s.running.To? && s.running.id in s.items && s.items[s.running.id].place.On?
    ensures Referenced(Restore(s))
  {
    hide Counted;
    var t := Restore(s);
    assert Clients(t) == Clients(s);
    assert States(t) == States(s);
    assert Lists(t) == Lists(s);
    HeldThere(t);
  }

  lemma FinishKeeps(s: State, wait: bool)
    requires Good(s) && s.running.To? && Restored(s)
    ensures s.running.id in s.items && Good(Finish(s, wait))
  {
    hide Tracked, Past, Referenced;
    var t, id := Finish(s, wait), s.running.id;
    assert s.items[id].place.On? by { assert Started(s, id); }
    HomedSame(s, t);
    PastSame(s, t);
    TrackedSame(s, t);
    FinishHeaded(s, wait);
    hide Homed, Headed;
    FinishReferenced(s, wait);
  }

  lemma FinishHeaded(s: State, wait: bool)
    requires Headed(s) && s.running.To? && s.running.id in s.items
    ensures Headed(Finish(s, wait))
  {
    var t := Finish(s, wait);
    forall x | x in t.items
      ensures Started(t, x) == Started(s, x)
    {
    }
    forall x | x in t.items && Started(t, x)
      ensures t.items[x].place.On? && Head(t, t.items[x].place.queue) == To(x)
    {
      assert Started(s, x);
    }
  }

  lemma FinishReferenced(s: State, wait: bool)
    requires Referenced(s) && s.running.To? && s.running.id in s.items && Restored(s)
    ensures Referenced(Finish(s, wait))
  {
    hide Counted;
    var t := Finish(s, wait);
    assert Clients(t) == Clients(s);
    assert States(t) == States(s);
    assert Lists(t) == Lists(s);
  }

  lemma ResumeKeeps(s: State, id: nat)
    requires Good(s) && id in s.items
    ensures Good(Resume(s, id)) && (Restored(s) ==> Restored(Resume(s, id)))
  {
    hide Tracked, Past, Referenced;
    var t := Resume(s, id);
    HomedSame(s, t);
    PastSame(s, t);
    HeadedSame(s, t);
    TrackedSame(s, t);
    hide Homed, Headed;
    ResumeReferenced(s, id);
  }

  lemma ResumeReferenced(s: State, id: nat)
    requires Referenced(s) && id in s.items
    ensures Referenced(Resume(s, id))
  {
    hide Counted;
    var t := Resume(s, id);
    assert Clients(t) == Clients(s);
    assert States(t) == States(s);
    assert Lists(t) == Lists(s);
  }

  // ----- What the invariant says

  /** Only the head of a queue is ever running or waiting. */
  lemma OnlyHead(s: State, q: nat, i: nat)
    requires Good(s) && q in s.lists && i < |s.lists[q]|
    ensures s.lists[q][i] in s.items
    ensures var item := s.items[s.lists[q][i]];
            item.waiting || item.fired || s.running == To(s.lists[q][i]) ==> i == 0
  {
    hide Track, Referenced, Past, Unique;
    var id := s.lists[q][i];
    assert id in s.lists[q];
    TrackUnique(s.lists[q], s.timeline[q], s.shots[q]);
    if Started(s, id) {
      assert s.lists[q][0] == id;
      DistinctAt(s.lists[q], i);
    }
  }

  lemma DistinctAt(s: seq<nat>, i: nat)
    requires Unique(s) && i < |s|
    ensures s[i] == s[0] ==> i == 0
  {
  }

  /** Nothing is fired twice, and what is fired comes in queue order: if one item stands
      before another in the timeline of a queue and both were fired, they were fired in
      that order; and what stands before a fired item is no longer queued. */
  lemma FiredInOrder(s: State, q: nat, i: nat, j: nat)
    requires Good(s) && q in s.lists && i < j < |s.timeline[q]| && s.timeline[q][j] in s.shots[q]
    ensures Unique(s.shots[q])
    ensures s.timeline[q][i] !in s.lists[q]
    ensures s.timeline[q][i] in s.shots[q] || s.timeline[q][i] in s.cancelled
    ensures s.timeline[q][i] in s.shots[q] ==>
              exists a, b :: 0 <= a < b < |s.shots[q]| && s.shots[q][a] == s.timeline[q][i] && s.shots[q][b] == s.timeline[q][j]
  {
    var tl, shots := s.timeline[q], s.shots[q];
    TrackUnique(s.lists[q], tl, shots);
    assert tl[i] in tl;
    assert Accounted(s.lists[q], tl, shots, s.cancelled, s.items.Keys, s.next);
    if tl[i] in shots {
      hide Referenced, Past, Homed, Headed;
      FilterOrder(tl, Members(shots), i, j);
    }
  }

  lemma {:induction false} FilterOrder(s: seq<nat>, keep: set<nat>, i: nat, j: nat)
    requires i < j < |s| && s[i] in keep && s[j] in keep
    ensures exists a, b :: 0 <= a < b < |Filter(s, keep)| && Filter(s, keep)[a] == s[i] && Filter(s, keep)[b] == s[j]
  {
    var r, f := s[1..], Filter(s[1..], keep);
    if i > 0 {
      FilterOrder(r, keep, i - 1, j - 1);
      var a, b :| 0 <= a < b < |f| && f[a] == s[i] && f[b] == s[j];
      var d := if s[0] in keep then 1 else 0;
      assert Filter(s, keep)[a + d] == s[i] && Filter(s, keep)[b + d] == s[j];
    } else {
      FilterMembers(r, keep);
      assert r[j - 1] in f;
      var b :| 0 <= b < |f| && f[b] == s[j];
      assert Filter(s, keep)[0] == s[0] && Filter(s, keep)[b + 1] == s[j];
    }
  }
}

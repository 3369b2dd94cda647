/** The steps of a control client on the values of ControlQueue, and what each keeps
    (control.c). */
module ControlSteps {
  import opened ControlText
  import opened ControlQueue

  // ----- Panes

  /** control_add_pane */
  function AddPane(s: State, p: nat): State
    requires p in s.windows
  {
    if p in s.panes then s
    else
      var at := s.windows[p].offset;
      s.(panes := s.panes[p := Pane(at, at, false, false, false, [])], trace := s.trace[p := Trace(at, |s.log|, 0)])
  }

  /** Both offsets move to `at` with nothing sent: what follows starts afresh. */
  function Restart(s: State, p: nat, at: nat): State
    requires p in s.panes
  {
    s.(panes := s.panes[p := s.panes[p].(offset := at, queued := at)], trace := s.trace[p := Trace(at, |s.log|, 0)])
  }

  /** The first block of a pane is taken off both queues, its bytes never sent. */
  function DropFirst(s: State, p: nat): State
    requires p in s.panes && p in s.trace && s.panes[p].blocks != []
  {
    var cp := s.panes[p];
    var id := cp.blocks[0];
    s.(panes := s.panes[p := cp.(blocks := cp.blocks[1..])],
       blocks := s.blocks - {id},
       all := Without(s.all, id),
       trace := s.trace[p := s.trace[p].(lost := s.trace[p].lost + Size(s.blocks, id))])
  }

  /** control_discard_pane */
  function Discard(s: State, p: nat): State
    requires p in s.panes && p in s.trace
    decreases if p in s.panes then |s.panes[p].blocks| else 0
  {
    if s.panes[p].blocks == [] then s else Discard(DropFirst(s, p), p)
  }

  // ----- What a step that leaves the queues alone keeps

  lemma QueuesSame(s: State, t: State)
    requires Queues(s) && t.all == s.all && t.blocks == s.blocks && t.next == s.next
    requires forall p :: p in s.panes ==> p in t.panes && t.panes[p].blocks == s.panes[p].blocks
    requires forall p :: p in t.panes && p !in s.panes ==> t.panes[p].blocks == []
    ensures Queues(t)
  {
    hide Ascending;
    assert Ascending([]) by { NothingAscends(); }
  }

  lemma NothingAscends()
    ensures Ascending([])
  {
  }

  lemma ListedSame(s: State, t: State)
    requires Listed(s) && t.pending == s.pending && t.count == s.count
    requires forall p :: p in s.panes ==> p in t.panes && t.panes[p].listed == s.panes[p].listed
    requires forall p :: p in t.panes && p !in s.panes ==> !t.panes[p].listed && t.panes[p].blocks == []
    requires forall p :: p in s.panes ==>
               t.panes[p].blocks == [] || s.panes[p].blocks != []
    ensures Listed(t)
  {
    hide Unique;
  }

  lemma DeliveredSame(s: State, t: State, p: nat)
    requires AllDelivered(s) && Known(t) && p in s.panes && p in t.panes && t.windows == s.windows
    requires t.log == s.log && t.panes[p].offset == s.panes[p].offset
    requires t.panes[p].queued == s.panes[p].queued || t.panes[p].queued <= |s.windows[p].input|
    requires t.trace[p].(lost := 0) == s.trace[p].(lost := 0)
    ensures Delivered(t, p)
  {
    hide Received;
    assert Delivered(s, p);
  }

  lemma DeliveredFresh(t: State, p: nat)
    requires Known(t) && p in t.panes && t.panes[p].offset <= |t.windows[p].input|
    requires t.panes[p].queued <= |t.windows[p].input|
    requires t.trace[p].origin == t.panes[p].offset && t.trace[p].mark == |t.log|
    ensures Delivered(t, p)
  {
    assert t.log[|t.log|..] == [];
    assert t.windows[p].input[t.trace[p].origin..t.panes[p].offset] == [];
  }

  lemma SizesPositive(s: State, p: nat)
    requires Queues(s) && p in s.panes
    ensures forall id :: id in s.panes[p].blocks ==> Size(s.blocks, id) > 0
  {
  }

  lemma AddPaneKeeps(s: State, p: nat)
    requires Good(s) && p in s.windows
    ensures Good(AddPane(s, p)) && (Accounted(AddPane(s, p)) <==> Accounted(s))
  {
    hide Queues, Listed, Delivered, Ordered, Ahead, Said, Stored, Sum, Balanced;
    var t := AddPane(s, p);
    if p !in s.panes {
      QueuesSame(s, t);
      ListedSame(s, t);
      DeliveredFresh(t, p);
      forall q | q in s.panes
        ensures Delivered(t, q) && (Balanced(t, q) <==> Balanced(s, q))
      {
        DeliveredSame(s, t, q);
        BalancedSame(s, t, q);
      }
      BalancedFresh(t, p);
      assert forall q :: q in t.panes ==> q == p || q in s.panes;
    }
  }

  lemma BalancedSame(s: State, t: State, p: nat)
    requires Known(s) && Known(t) && p in s.panes && p in t.panes && t.windows == s.windows
    requires t.blocks == s.blocks && t.panes[p].blocks == s.panes[p].blocks && t.trace[p].lost == s.trace[p].lost
    requires t.panes[p].offset == s.panes[p].offset && t.panes[p].queued == s.panes[p].queued
    ensures Balanced(t, p) <==> Balanced(s, p)
  {
  }

  lemma BalancedFresh(t: State, p: nat)
    requires Known(t) && p in t.panes && t.trace[p].lost == 0
    requires t.panes[p].offset == t.panes[p].queued <= |t.windows[p].input|
    requires forall id :: id in t.panes[p].blocks ==> Size(t.blocks, id) > 0
    ensures Balanced(t, p) <==> t.panes[p].blocks == []
  {
    SumZero(t.panes[p].blocks, t.blocks);
  }

  /** Moving both offsets past bytes not sent keeps the account straight exactly when the
      pane has nothing queued. */
  lemma RestartKeeps(s: State, p: nat, at: nat)
    requires Good(s) && p in s.panes && at <= |s.windows[p].input|
    ensures Good(Restart(s, p, at))
    ensures Accounted(s) ==> (Accounted(Restart(s, p, at)) <==> s.panes[p].blocks == [])
    ensures s.panes[p].blocks == [] ==> Balanced(Restart(s, p, at), p)
  {
    hide Queues, Listed, Delivered, Ordered, Ahead, Said, Stored, Sum, Balanced;
    var t := Restart(s, p, at);
    SizesPositive(s, p);
    QueuesSame(s, t);
    ListedSame(s, t);
    DeliveredFresh(t, p);
    forall q | q in s.panes && q != p
      ensures Delivered(t, q) && (Balanced(t, q) <==> Balanced(s, q))
    {
      DeliveredSame(s, t, q);
      BalancedSame(s, t, q);
    }
    BalancedFresh(t, p);
  }

  // ----- Throwing blocks away

  lemma DropQueues(s: State, p: nat)
    requires Queues(s) && p in s.panes && p in s.trace && s.panes[p].blocks != []
    ensures Queues(DropFirst(s, p))
    ensures var id := s.panes[p].blocks[0]; id in s.blocks && s.blocks[id].Data? && s.blocks[id].pane == p
  {
    hide Ascending, Without;
    var id := s.panes[p].blocks[0];
    assert id in s.panes[p].blocks;
    AscendingTail(s.panes[p].blocks);
    WithoutMembers(s.all, id);
  }

  lemma InOrderFewer(s: State, t: State)
    requires InOrder(s) && t.log == s.log && t.next >= s.next
    requires forall id :: id in t.all ==> id in s.all
    ensures InOrder(t)
  {
    hide Ordered;
  }

  lemma DropBalanced(s: State, p: nat, q: nat)
    requires Queues(s) && Known(s) && p in s.panes && q in s.panes && s.panes[p].blocks != []
    ensures Known(DropFirst(s, p)) && (Balanced(DropFirst(s, p), q) <==> Balanced(s, q))
  {
    hide Ascending;
    var t := DropFirst(s, p);
    var id := s.panes[p].blocks[0];
    assert id in s.panes[p].blocks;
    AscendingTail(s.panes[p].blocks);
    assert t.panes.Keys == s.panes.Keys;
    forall x | x in t.panes[q].blocks
      ensures Size(t.blocks, x) == Size(s.blocks, x)
    {
      assert x != id;
    }
    SumSame(t.panes[q].blocks, t.blocks, s.blocks);
  }

  lemma DropFirstKeeps(s: State, p: nat)
    requires Good(s) && p in s.panes && s.panes[p].blocks != []
    ensures Good(DropFirst(s, p))
    ensures Accounted(DropFirst(s, p)) <==> Accounted(s)
    ensures Queued(DropFirst(s, p)) <= Queued(s)
  {
    hide Delivered, Balanced, Ordered, Ahead, Said, Stored, Sum, Ascending, Unique;
    var t := DropFirst(s, p);
    DropQueues(s, p);
    StoredWithout(s.all, s.panes[p].blocks[0], s.blocks);
    SumWithout(s.all, s.panes[p].blocks[0], s.blocks);
    WithoutMembers(s.all, s.panes[p].blocks[0]);
    InOrderFewer(s, t);
    assert t.panes.Keys == s.panes.Keys;
    hide Queues;
    ListedSame(s, t);
    forall q | q in s.panes
      ensures Known(t) && Delivered(t, q) && (Balanced(t, q) <==> Balanced(s, q))
    {
      DropBalanced(s, p, q);
      DeliveredSame(s, t, q);
    }
    assert Known(t) by { DropBalanced(s, p, p); }
  }

  /** What is gone and what is left when a pane's output is thrown away. */
  ghost predicate Emptied(s: State, t: State, p: nat)
    requires p in s.panes && p in s.trace
  {
    && t == s.(panes := t.panes, blocks := t.blocks, all := t.all, trace := t.trace)
    && t.panes == s.panes[p := s.panes[p].(blocks := [])]
    && t.trace == s.trace[p := s.trace[p].(lost := s.trace[p].lost + Sum(s.panes[p].blocks, s.blocks))]
    && (forall id :: id in t.blocks <==> id in s.blocks && id !in s.panes[p].blocks)
    && (forall id :: id in t.blocks ==> t.blocks[id] == s.blocks[id])
  }

  lemma {:induction false} DiscardKeeps(s: State, p: nat)
    requires Good(s) && p in s.panes
    ensures Good(Discard(s, p))
    ensures Accounted(Discard(s, p)) <==> Accounted(s)
    ensures Emptied(s, Discard(s, p), p) && Queued(Discard(s, p)) <= Queued(s)
    decreases |s.panes[p].blocks|
  {
    hide Queues, Listed, Delivered, InOrder, Fifo, Accounted, Queued;
    if s.panes[p].blocks == [] {
      assert Sum([], s.blocks) == 0;
      assert s.panes[p := s.panes[p].(blocks := [])] == s.panes;
    } else {
      var u := DropFirst(s, p);
      DropFirstKeeps(s, p);
      DiscardKeeps(u, p);
      EmptiedStep(s, u, Discard(u, p), p);
    }
  }

  lemma SumRest(ids: seq<nat>, blocks: map<nat, Block>)
    requires Ascending(ids) && ids != []
    ensures Sum(ids, blocks) == Size(blocks, ids[0]) + Sum(ids[1..], blocks - {ids[0]})
    ensures forall x :: x in ids <==> x == ids[0] || x in ids[1..]
  {
    AscendingTail(ids);
    SumSame(ids[1..], blocks - {ids[0]}, blocks);
  }

  lemma EmptiedStep(s: State, u: State, t: State, p: nat)
    requires Queues(s) && Known(s) && p in s.panes && s.panes[p].blocks != [] && u == DropFirst(s, p)
    requires Emptied(u, t, p)
    ensures Emptied(s, t, p)
  {
    hide Ascending, Without, Sum, Size;
    var ids := s.panes[p].blocks;
    assert Ascending(ids);
    hide Queues;
    SumRest(ids, s.blocks);
  }

  // ----- Lines

  /** control_write: at once when nothing is queued, otherwise behind what is. */
  function WriteLine(s: State, text: seq<byte>, t: nat): State {
    if s.all == [] then
      s.(log := s.log + [Line(s.next, text)], next := s.next + 1, issued := s.issued + [text])
    else
      s.(blocks := s.blocks[s.next := Note(text, t)], all := s.all + [s.next], next := s.next + 1,
         issued := s.issued + [text])
  }

  predicate LineFirst(s: State) {
    s.all != [] && s.all[0] in s.blocks && s.blocks[s.all[0]].Note?
  }

  function PopLine(s: State): State
    requires LineFirst(s)
  {
    var id := s.all[0];
    s.(log := s.log + [Line(id, s.blocks[id].text)], all := s.all[1..], blocks := s.blocks - {id})
  }

  /** control_flush_all_blocks */
  function Flush(s: State): State
    decreases |s.all|
  {
    if LineFirst(s) then Flush(PopLine(s)) else s
  }

  lemma DeliveredLine(s: State, t: State, p: nat, e: Event)
    requires AllDelivered(s) && Known(t) && p in s.panes && t.panes == s.panes && t.trace == s.trace
    requires t.windows == s.windows && t.log == s.log + [e] && (e.Line? || e.pane != p || e.parts == [])
    ensures Delivered(t, p)
  {
    hide Received;
    assert Delivered(s, p);
    var mark := s.trace[p].mark;
    assert t.log[mark..] == s.log[mark..] + [e];
    ReceivedAppend(s.log[mark..], e, p);
    assert PartsData([]) == [];
  }

  /** A line with a number between those written and those queued. */
  lemma InOrderLine(s: State, t: State, id: nat, text: seq<byte>)
    requires InOrder(s) && t.log == s.log + [Line(id, text)]
    requires forall i :: 0 <= i < |s.log| && s.log[i].Line? ==> s.log[i].id < id
    requires s.next <= t.next && id < t.next && forall x :: x in t.all ==> id < x
    requires forall x :: x in t.all ==> x in s.all
    ensures InOrder(t)
  {
    var e := Line(id, text);
    forall i, j | 0 <= i < j < |t.log| && t.log[i].Line?
      ensures Follows(t.log[i].id, t.log[j])
    {
      if j < |s.log| {
        assert Follows(s.log[i].id, s.log[j]);
      } else {
        assert t.log[j] == e && t.log[i] == s.log[i];
      }
    }
    forall i | 0 <= i < |t.log| && t.log[i].Line?
      ensures t.log[i].id < t.next && forall id :: id in t.all ==> t.log[i].id < id
    {
      if i < |s.log| {
        assert t.log[i] == s.log[i];
      }
    }
  }

  lemma WriteLineQueues(s: State, text: seq<byte>, t: nat)
    requires Queues(s)
    ensures Queues(WriteLine(s, text, t))
  {
    hide Ascending;
    if s.all != [] {
      AscendingAppend(s.all, s.next);
      assert forall id :: id in s.all + [s.next] <==> id in s.all || id == s.next;
      assert s.next !in s.blocks;
    }
  }

  /** A line behind those queued. */
  lemma FifoStored(s: State, text: seq<byte>, t: nat)
    requires Queues(s) && Fifo(s) && s.all != []
    ensures Fifo(WriteLine(s, text, t)) && Queued(WriteLine(s, text, t)) == Queued(s)
  {
    hide Said, Ascending;
    var blocks := s.blocks[s.next := Note(text, t)];
    StoredAppend(s.all, s.next, blocks);
    StoredSame(s.all, s.blocks, blocks);
    SumAppend(s.all, s.next, blocks);
    SumSame(s.all, s.blocks, blocks);
    assert Said(s.log) + (Stored(s.all, s.blocks) + [text]) == Said(s.log) + Stored(s.all, s.blocks) + [text];
  }

  lemma BalancedBlocks(s: State, t: State, p: nat)
    requires Queues(s) && Known(s) && t.windows == s.windows && t.panes == s.panes && t.trace == s.trace && p in s.panes
    requires forall id :: id in s.blocks && s.blocks[id].Data? ==> id in t.blocks && t.blocks[id] == s.blocks[id]
    ensures Known(t) && (Balanced(t, p) <==> Balanced(s, p))
  {
    hide Ascending;
    forall id | id in s.panes[p].blocks
      ensures Size(t.blocks, id) == Size(s.blocks, id)
    {
    }
    SumSame(s.panes[p].blocks, s.blocks, t.blocks);
  }

  lemma WriteNow(s: State, text: seq<byte>)
    requires Good(s) && s.all == []
    ensures InOrder(WriteLine(s, text, 0)) && Fifo(WriteLine(s, text, 0))
  {
    hide Queues, Listed, Delivered, Ordered, Said, Stored;
    var u := WriteLine(s, text, 0);
    InOrderLine(s, u, s.next, text);
    SaidAppend(s.log, Line(s.next, text));
    StoredNone(s.blocks);
  }

  lemma InOrderLater(s: State, t: State)
    requires Queues(s) && InOrder(s) && t.log == s.log && t.all == s.all + [s.next] && t.next == s.next + 1
    ensures InOrder(t)
  {
    hide Ordered;
  }

  lemma WriteLineKeeps(s: State, text: seq<byte>, t: nat)
    requires Good(s)
    ensures var u := WriteLine(s, text, t);
            Good(u) && (Accounted(u) <==> Accounted(s)) && Queued(u) == Queued(s)
  {
    hide Queues, Listed, Delivered, Balanced, InOrder, Fifo;
    var u := WriteLine(s, text, t);
    WriteLineQueues(s, text, t);
    ListedSame(s, u);
    if s.all == [] {
      WriteNow(s, text);
    } else {
      InOrderLater(s, u);
      FifoStored(s, text, t);
    }
    NumbersBelow(s);
    forall q | q in s.panes
      ensures Known(u) && Delivered(u, q) && (Balanced(u, q) <==> Balanced(s, q))
    {
      BalancedBlocks(s, u, q);
      if s.all == [] {
        DeliveredLine(s, u, q, Line(s.next, text));
      } else {
        DeliveredSame(s, u, q);
      }
    }
  }

  lemma NumbersBelow(s: State)
    requires Queues(s)
    ensures s.next !in s.blocks
  {
  }

  lemma StoredNone(blocks: map<nat, Block>)
    ensures Stored([], blocks) == []
  {
  }

  lemma PopQueues(s: State)
    requires Queues(s) && LineFirst(s)
    ensures Queues(PopLine(s)) && (forall x :: x in s.all[1..] ==> s.all[0] < x && x in s.all)
    ensures s.all[0] in s.all && s.all[0] < s.next
  {
    hide Ascending;
    AscendingTail(s.all);
  }

  /** The first line out of the queue is the first of those stored. */
  lemma StoredFirst(ids: seq<nat>, blocks: map<nat, Block>)
    requires Ascending(ids) && ids != [] && ids[0] in blocks && blocks[ids[0]].Note?
    ensures Stored(ids, blocks) == [blocks[ids[0]].text] + Stored(ids[1..], blocks - {ids[0]})
    ensures Sum(ids, blocks) == Sum(ids[1..], blocks - {ids[0]})
  {
    hide Ascending;
    AscendingTail(ids);
    StoredSmaller(ids[1..], ids[0], blocks);
    SumSame(ids[1..], blocks, blocks - {ids[0]});
  }

  lemma PopFifo(s: State)
    requires Queues(s) && Fifo(s) && LineFirst(s)
    ensures Fifo(PopLine(s)) && Queued(PopLine(s)) == Queued(s)
  {
    hide Ascending, Stored, Said, Sum;
    SaidAppend(s.log, Line(s.all[0], s.blocks[s.all[0]].text));
    StoredFirst(s.all, s.blocks);
  }

  lemma PopLineKeeps(s: State)
    requires Good(s) && LineFirst(s)
    ensures Good(PopLine(s)) && (Accounted(PopLine(s)) <==> Accounted(s)) && Queued(PopLine(s)) == Queued(s)
  {
    hide Queues, Listed, Delivered, Balanced, Ordered, Fifo;
    var u := PopLine(s);
    PopQueues(s);
    ListedSame(s, u);
    PopFifo(s);
    InOrderLine(s, u, s.all[0], s.blocks[s.all[0]].text);
    hide Ahead;
    forall q | q in s.panes
      ensures Known(u) && Delivered(u, q) && (Balanced(u, q) <==> Balanced(s, q))
    {
      BalancedBlocks(s, u, q);
      DeliveredLine(s, u, q, Line(s.all[0], s.blocks[s.all[0]].text));
    }
  }

  /** What a flush does: it writes some lines, the stored ones at the front, and stops at
      the first block of output. */
  lemma {:induction false} FlushKeeps(s: State)
    requires Good(s)
    ensures var u := Flush(s);
            && Good(u) && (Accounted(u) <==> Accounted(s)) && Queued(u) == Queued(s)
            && u == s.(log := u.log, all := u.all, blocks := u.blocks)
            && !LineFirst(u)
            && |s.log| <= |u.log| && u.log[..|s.log|] == s.log
            && (forall i :: |s.log| <= i < |u.log| ==> u.log[i].Line?)
            && (forall id :: id in u.blocks ==> id in s.blocks && u.blocks[id] == s.blocks[id])
            && (forall id :: id in s.blocks && s.blocks[id].Data? ==> id in u.blocks)
    decreases |s.all|
  {
    hide Queues, Listed, AllDelivered, Accounted, InOrder, Fifo, Queued;
    if LineFirst(s) {
      PopLineKeeps(s);
      FlushKeeps(PopLine(s));
      var u := Flush(s);
      assert u.log[..|s.log|] == u.log[..|PopLine(s).log|][..|s.log|];
    } else {
      assert s.log[..|s.log|] == s.log;
    }
  }

  // ----- Queueing output

  /** The end of control_write_output: `n` new bytes of a pane as a block on both queues,
      and the pane on the pending list. */
  function Enqueue(s: State, p: nat, n: nat, t: nat): State
    requires p in s.panes
  {
    var cp := s.panes[p];
    s.(blocks := s.blocks[s.next := Data(p, n, t)],
       all := s.all + [s.next],
       next := s.next + 1,
       panes := s.panes[p := cp.(queued := cp.queued + n, blocks := cp.blocks + [s.next], listed := true)],
       pending := if cp.listed then s.pending else s.pending + [p],
       count := if cp.listed then s.count else s.count + 1)
  }

  lemma EnqueueQueues(s: State, p: nat, n: nat, t: nat)
    requires Queues(s) && p in s.panes && n > 0
    ensures Queues(Enqueue(s, p, n, t))
  {
    hide Ascending;
    NumbersBelow(s);
    var ids := s.panes[p].blocks;
    forall id | id in ids
      ensures id in s.blocks && id < s.next
    {
    }
    AscendingAppend(s.all, s.next);
    AscendingAppend(ids, s.next);
    InAppended(s.all, s.next);
    InAppended(ids, s.next);
  }

  lemma InAppended(ids: seq<nat>, id: nat)
    ensures forall x :: x in ids + [id] <==> x in ids || x == id
  {
  }

  lemma EnqueueListed(s: State, p: nat, n: nat, t: nat)
    requires Listed(s) && p in s.panes
    ensures Listed(Enqueue(s, p, n, t))
  {
    if !s.panes[p].listed {
      assert p !in s.pending;
      assert forall q :: q in s.pending + [p] <==> q in s.pending || q == p;
      UniqueAppend(s.pending, p);
    }
  }

  lemma UniqueAppend(ids: seq<nat>, id: nat)
    requires Unique(ids) && id !in ids
    ensures Unique(ids + [id])
  {
  }

  lemma EnqueueBalanced(s: State, p: nat, n: nat, t: nat, q: nat)
    requires Queues(s) && Known(s) && p in s.panes && q in s.panes
    requires p == q ==> s.panes[p].queued + n <= |s.windows[p].input|
    ensures Known(Enqueue(s, p, n, t))
    ensures Balanced(Enqueue(s, p, n, t), q) <==> Balanced(s, q)
  {
    hide Ascending;
    var u := Enqueue(s, p, n, t);
    NumbersBelow(s);
    assert forall id :: id in s.panes[q].blocks ==> id in s.blocks;
    SumSame(s.panes[q].blocks, s.blocks, u.blocks);
    if p == q {
      SumAppend(s.panes[p].blocks, s.next, u.blocks);
    }
  }

  lemma EnqueueFifo(s: State, p: nat, n: nat, t: nat)
    requires Queues(s) && Fifo(s) && p in s.panes
    ensures Fifo(Enqueue(s, p, n, t))
  {
    hide Ascending, Said;
    var u := Enqueue(s, p, n, t);
    NumbersBelow(s);
    StoredAppend(s.all, s.next, u.blocks);
    StoredSame(s.all, s.blocks, u.blocks);
  }

  lemma EnqueueKeeps(s: State, p: nat, n: nat, t: nat)
    requires Good(s) && p in s.panes && 0 < n && s.panes[p].queued + n <= |s.windows[p].input|
    ensures Good(Enqueue(s, p, n, t))
    ensures Accounted(Enqueue(s, p, n, t)) <==> Accounted(s)
  {
    hide Queues, Listed, Delivered, Balanced, InOrder, Fifo;
    var u := Enqueue(s, p, n, t);
    EnqueueQueues(s, p, n, t);
    EnqueueListed(s, p, n, t);
    EnqueueFifo(s, p, n, t);
    InOrderLater(s, u);
    assert u.panes.Keys == s.panes.Keys;
    forall q | q in s.panes
      ensures Known(u) && Delivered(u, q) && (Balanced(u, q) <==> Balanced(s, q))
    {
      EnqueueBalanced(s, p, n, t, q);
      DeliveredSame(s, u, q);
    }
  }
}

/** What the pane commands of a control client do, as steps on the values of ControlQueue
    (control.c). */
module ControlPanes {
  import opened ControlText
  import opened ControlQueue
  import opened ControlSteps

  ghost predicate Extends(log: seq<Event>, was: seq<Event>) {
    |was| <= |log| && log[..|was|] == was
  }

  lemma ExtendsMore(a: seq<Event>, b: seq<Event>, c: seq<Event>)
    requires Extends(b, a) && Extends(c, b)
    ensures Extends(c, a)
  {
    assert c[..|a|] == c[..|b|][..|a|];
  }

  function Flagged(s: State, p: nat, off: bool, paused: bool): State
    requires p in s.panes
  {
    s.(panes := s.panes[p := s.panes[p].(off := off, paused := paused)])
  }

  lemma FlaggedKeeps(s: State, p: nat, off: bool, paused: bool)
    requires Good(s) && p in s.panes
    ensures var t := Flagged(s, p, off, paused);
            Good(t) && (Accounted(t) <==> Accounted(s)) && Queued(t) == Queued(s)
  {
    hide Queues, Listed, Delivered, Balanced, InOrder, Fifo;
    var t := Flagged(s, p, off, paused);
    QueuesSame(s, t);
    ListedSame(s, t);
    InOrderFewer(s, t);
    assert t.panes.Keys == s.panes.Keys;
    FifoSame(s, t);
    forall q | q in s.panes
      ensures Delivered(t, q) && (Balanced(t, q) <==> Balanced(s, q))
    {
      DeliveredSame(s, t, q);
      BalancedSame(s, t, q);
    }
  }

  /** What a pane's queues become when its output is thrown away and, from `at` on, it
      starts afresh. */
  lemma DiscardRestartKeeps(s: State, p: nat, at: nat)
    requires Good(s) && p in s.panes && at <= |s.windows[p].input|
    ensures p in Discard(s, p).panes && p in Discard(s, p).trace
    ensures var t := Restart(Discard(s, p), p, at); Good(t) && (Accounted(s) ==> Accounted(t))
    ensures Discard(s, p).panes[p] == s.panes[p].(blocks := [])
    ensures Discard(s, p).windows == s.windows
  {
    hide Queues, Listed, Delivered, Balanced, InOrder, Fifo;
    DiscardKeeps(s, p);
    RestartKeeps(Discard(s, p), p, at);
  }

  lemma QuietEmptied(s: State, t: State, p: nat)
    requires p in s.panes && p in s.trace && Emptied(s, t, p)
    requires forall q :: q in s.panes && q != p && (s.panes[q].off || s.panes[q].paused) ==> s.panes[q].blocks == []
    ensures Quiet(t)
  {
  }

  lemma FifoSame(s: State, t: State)
    requires Fifo(s) && t.log == s.log && t.all == s.all && t.blocks == s.blocks && t.issued == s.issued
    ensures Fifo(t)
  {
  }

  // ----- What the pane commands do, as steps

  function SwitchOn(s: State, p: nat): State
    requires p in s.panes && p in s.windows
  {
    Restart(Flagged(s, p, false, s.panes[p].paused), p, s.windows[p].offset)
  }

  lemma SwitchedOn(s: State, p: nat)
    requires Good(s) && Quiet(s) && p in s.panes && s.panes[p].off
    ensures p in s.windows && Good(SwitchOn(s, p)) && Quiet(SwitchOn(s, p))
    ensures Accounted(s) ==> Accounted(SwitchOn(s, p))
    ensures var at := s.windows[p].offset;
            && SwitchOn(s, p).panes == s.panes[p := s.panes[p].(off := false, offset := at, queued := at)]
            && SwitchOn(s, p) == s.(panes := SwitchOn(s, p).panes, trace := SwitchOn(s, p).trace)
  {
    hide Queues, Listed, AllDelivered, Accounted, InOrder, Fifo;
    KnownOf(s);
    FlaggedKeeps(s, p, false, s.panes[p].paused);
    RestartKeeps(Flagged(s, p, false, s.panes[p].paused), p, s.windows[p].offset);
  }

  function Continue(s: State, p: nat): State
    requires p in s.panes && p in s.windows
  {
    Restart(Flagged(s, p, s.panes[p].off, false), p, s.windows[p].offset)
  }

  lemma Continued(s: State, p: nat)
    requires Good(s) && Quiet(s) && p in s.panes && s.panes[p].paused
    ensures p in s.windows && Good(Continue(s, p)) && Quiet(Continue(s, p))
    ensures Accounted(s) ==> Accounted(Continue(s, p))
    ensures var at := s.windows[p].offset;
            && Continue(s, p).panes == s.panes[p := s.panes[p].(paused := false, offset := at, queued := at)]
            && Continue(s, p) == s.(panes := Continue(s, p).panes, trace := Continue(s, p).trace)
  {
    hide Queues, Listed, AllDelivered, Accounted, InOrder, Fifo;
    KnownOf(s);
    FlaggedKeeps(s, p, s.panes[p].off, false);
    RestartKeeps(Flagged(s, p, s.panes[p].off, false), p, s.windows[p].offset);
  }

  lemma AddedPane(s: State, p: nat)
    requires Good(s) && Quiet(s) && p in s.windows
    ensures var t := AddPane(s, p);
            && Good(t) && Quiet(t) && (Accounted(t) <==> Accounted(s))
            && p in t.panes && p in t.trace && t == s.(panes := t.panes, trace := t.trace)
            && (forall q :: q != p ==> (q in t.panes <==> q in s.panes) && (q in t.panes ==> t.panes[q] == s.panes[q]))
            && (t.panes[p].paused || t.panes[p].off ==> t.panes[p].blocks == [])
            && (p in s.panes ==> t == s)
            && (p !in s.panes ==> t.panes[p] == Pane(s.windows[p].offset, s.windows[p].offset, false, false, false, []))
  {
    hide Queues, Listed, Delivered, Balanced, InOrder, Fifo;
    AddPaneKeeps(s, p);
    KnownOf(s);
  }

  function SwitchOff(s: State, p: nat): State
    requires Good(s) && p in s.windows
  {
    AddPaneKeeps(s, p);
    var t := AddPane(s, p);
    DiscardKeeps(t, p);
    var u := Restart(Discard(t, p), p, s.windows[p].offset);
    Flagged(u, p, true, u.panes[p].paused)
  }

  lemma GoodOffset(s: State, p: nat)
    requires Good(s) && p in s.windows
    ensures s.windows[p].offset <= |s.windows[p].input|
  {
  }

  lemma QuietAfter(s: State, p: nat)
    requires Good(s) && Quiet(s) && p in s.panes && p in s.trace
    ensures Quiet(Discard(s, p))
  {
    hide Good;
    DiscardKeeps(s, p);
  }

  lemma QuietOff(s: State, p: nat, at: nat)
    requires Quiet(s) && p in s.panes && s.panes[p].blocks == []
    ensures var u := Restart(s, p, at); Quiet(Flagged(u, p, true, u.panes[p].paused))
  {
  }

  lemma SwitchedOff(s: State, p: nat)
    requires Good(s) && Quiet(s) && p in s.windows
    ensures var t := AddPane(s, p); p in t.panes && p in t.trace && p in Discard(t, p).panes
    ensures var t := SwitchOff(s, p);
            && Good(t) && Quiet(t) && (Accounted(s) ==> Accounted(t))
            && t == s.(panes := t.panes, trace := t.trace, all := t.all, blocks := t.blocks)
            && p in t.panes && t.panes[p].off && t.panes[p].blocks == []
            && t.panes[p].offset == t.panes[p].queued == s.windows[p].offset
            && (forall q :: q != p ==> (q in t.panes <==> q in s.panes) && (q in t.panes ==> t.panes[q] == s.panes[q]))
            && (p in s.panes ==> t.panes[p].paused == s.panes[p].paused && t.panes[p].listed == s.panes[p].listed)
  {
    hide Good, Accounted, AddPane, Quiet, Discard;
    AddedPane(s, p);
    var t := AddPane(s, p);
    DiscardKeeps(t, p);
    assert Quiet(Discard(t, p)) by { QuietAfter(t, p); }
    GoodOffset(s, p);
    DiscardRestartKeeps(t, p, s.windows[p].offset);
    var u := Restart(Discard(t, p), p, s.windows[p].offset);
    FlaggedKeeps(u, p, true, u.panes[p].paused);
    assert Quiet(SwitchOff(s, p)) by { QuietOff(Discard(t, p), p, s.windows[p].offset); }
  }

  function Suspend(s: State, p: nat): State
    requires p in s.panes && p in s.trace
  {
    Discard(Flagged(s, p, s.panes[p].off, true), p)
  }

  lemma Suspended(s: State, p: nat)
    requires Good(s) && Quiet(s) && p in s.panes
    ensures p in s.trace && Good(Suspend(s, p)) && Quiet(Suspend(s, p)) && (Accounted(Suspend(s, p)) <==> Accounted(s))
    ensures Queued(Suspend(s, p)) <= Queued(s)
    ensures Suspend(s, p).panes == s.panes[p := s.panes[p].(paused := true, blocks := [])]
    ensures var t := Suspend(s, p); t == s.(panes := t.panes, trace := t.trace, all := t.all, blocks := t.blocks)
  {
    hide Queues, Listed, Delivered, Balanced, InOrder, Fifo, Queued;
    var t := Flagged(s, p, s.panes[p].off, true);
    FlaggedKeeps(s, p, s.panes[p].off, true);
    DiscardKeeps(t, p);
    QuietEmptied(t, Discard(t, p), p);
  }

  lemma WrittenKeeps(s: State, text: seq<byte>, t: nat)
    requires Good(s) && Quiet(s)
    ensures var u := WriteLine(s, text, t);
            && Good(u) && Quiet(u) && (Accounted(u) <==> Accounted(s)) && Queued(u) == Queued(s)
            && u == s.(log := u.log, next := u.next, issued := u.issued, blocks := u.blocks, all := u.all)
            && u.issued == s.issued + [text] && Extends(u.log, s.log)
  {
    hide Queues, Listed, Delivered, Balanced, InOrder, Fifo, Queued;
    WriteLineKeeps(s, text, t);
  }

  lemma FirstKnown(s: State)
    requires Queues(s)
    ensures s.all != [] ==> s.all[0] in s.blocks
  {
    if s.all != [] {
      assert s.all[0] in s.all;
    }
  }

  lemma FlushStep(s: State)
    requires LineFirst(s)
    ensures Flush(s) == Flush(PopLine(s))
  {
  }

  lemma FlushDone(s: State)
    ensures !LineFirst(s) ==> Flush(s) == s
  {
  }

  // ----- All panes at once

  /** The state with the output of some panes thrown away. */
  ghost predicate Cleared(s: State, t: State, done: set<nat>) {
    && t == s.(panes := t.panes, trace := t.trace, all := t.all, blocks := t.blocks)
    && t.panes.Keys == s.panes.Keys
    && forall q :: q in s.panes ==> t.panes[q] == if q in done then s.panes[q].(blocks := []) else s.panes[q]
  }

  lemma ClearedMore(s: State, t: State, done: set<nat>, p: nat)
    requires Cleared(s, t, done) && Good(t) && Quiet(t) && p in t.panes
    ensures p in t.trace && Cleared(s, Discard(t, p), done + {p}) && Good(Discard(t, p)) && Quiet(Discard(t, p))
    ensures (Accounted(Discard(t, p)) <==> Accounted(t)) && Queued(Discard(t, p)) <= Queued(t)
  {
    hide Queues, Listed, Delivered, Balanced, InOrder, Fifo, Queued;
    DiscardKeeps(t, p);
    QuietEmptied(t, Discard(t, p), p);
  }

  lemma ClearedNone(s: State)
    ensures Cleared(s, s, {})
  {
  }

  /** With every pane's output gone, no block of output is left on any queue. */
  lemma ClearedAll(s: State, t: State)
    requires Cleared(s, t, s.panes.Keys) && Queues(t)
    ensures forall id :: id in t.blocks ==> t.blocks[id].Note?
  {
    hide Ascending;
  }

  /** Only the stored lines are left. */
  lemma ResetKeeps(t: State)
    requires Good(t) && forall id :: id in t.blocks ==> t.blocks[id].Note?
    ensures var u := t.(panes := map[], trace := map[], pending := [], count := 0);
            Good(u) && Quiet(u) && Accounted(u)
  {
    hide Ascending, Ordered, Ahead, Said, Stored;
  }

  lemma ClearedPanes(s: State, t: State)
    requires Cleared(s, t, s.panes.Keys)
    ensures t.panes.Keys == s.panes.Keys && t.log == s.log && t.issued == s.issued
    ensures forall q :: q in t.panes ==> t.panes[q] == s.panes[q].(blocks := [])
  {
  }

  lemma KeysOf(s: State, t: State, done: set<nat>)
    requires Cleared(s, t, done)
    ensures t.panes.Keys == s.panes.Keys
  {
  }

  lemma QueuesOf(s: State)
    requires Good(s)
    ensures Queues(s)
  {
  }

  lemma FifoOf(s: State)
    requires Good(s)
    ensures Fifo(s)
  {
  }

  lemma KnownGood(s: State)
    requires Good(s)
    ensures Known(s)
  {
  }

  lemma SameStored(s: State, t: State)
    requires Fifo(s) && Fifo(t) && t.log == s.log && t.issued == s.issued
    ensures Stored(t.all, t.blocks) == Stored(s.all, s.blocks)
  {
    var a, b := Stored(t.all, t.blocks), Stored(s.all, s.blocks);
    var n := |Said(s.log)|;
    assert a == s.issued[n..] && b == s.issued[n..];
  }

  lemma FirstBlock(s: State, p: nat)
    requires Good(s) && p in s.panes && s.panes[p].blocks != []
    ensures s.panes[p].blocks[0] in s.blocks && s.blocks[s.panes[p].blocks[0]].Data?
    ensures s.blocks[s.panes[p].blocks[0]].pane == p && Size(s.blocks, s.panes[p].blocks[0]) > 0
  {
    hide Listed, AllDelivered, InOrder, Fifo, Ascending;
    assert s.panes[p].blocks[0] in s.panes[p].blocks;
  }

  lemma ExtendsSelf(log: seq<Event>)
    ensures Extends(log, log)
  {
  }

  lemma RestartQuiet(s: State, p: nat, at: nat)
    requires Quiet(s) && p in s.panes
    ensures Quiet(Restart(s, p, at))
  {
  }

  lemma QueuedInside(s: State, p: nat)
    requires Good(s) && p in s.panes && p in s.windows
    ensures s.panes[p].queued <= |s.windows[p].input|
  {
    hide Queues, Listed, Received, InOrder, Fifo;
    KnownOf(s);
    assert Delivered(s, p);
  }

  lemma EnqueueOne(s: State, p: nat, n: nat, t: nat)
    requires Good(s) && Quiet(s) && p in s.panes && !s.panes[p].off && !s.panes[p].paused && p in s.windows
    requires 0 < n && s.panes[p].queued + n <= |s.windows[p].input|
    ensures var u := Enqueue(s, p, n, t); Good(u) && Quiet(u) && (Accounted(u) <==> Accounted(s))
  {
    hide Good, Accounted;
    EnqueueKeeps(s, p, n, t);
  }

  // ----- A pane writes more

  function Grown(s: State, p: nat, data: seq<byte>, used: nat): State
    requires p in s.windows
  {
    s.(windows := s.windows[p := WindowPane(s.windows[p].input + data, used)])
  }

  lemma ReceiveKeeps(s: State, p: nat, data: seq<byte>, used: nat)
    requires Good(s) && p in s.windows && used <= |s.windows[p].input| + |data|
    ensures var t := Grown(s, p, data, used); Good(t) && (Quiet(s) ==> Quiet(t))
    ensures Accounted(Grown(s, p, data, used)) <==> Accounted(s)
  {
    hide Queues, Listed, Delivered, Sum, InOrder, Fifo;
    var t := Grown(s, p, data, used);
    QueuesSame(s, t);
    ListedSame(s, t);
    InOrderFewer(s, t);
    assert Fifo(t) by { FifoSame(s, t); }
    assert t.windows.Keys == s.windows.Keys + {p};
    forall q | q in s.panes
      ensures Delivered(t, q) && s.panes[q].queued <= |s.windows[q].input|
    {
      GrownDelivered(s, p, data, used, q);
    }
  }

  lemma GrownDelivered(s: State, p: nat, data: seq<byte>, used: nat, q: nat)
    requires AllDelivered(s) && p in s.windows && used <= |s.windows[p].input| + |data| && q in s.panes
    ensures Known(Grown(s, p, data, used)) && Delivered(Grown(s, p, data, used), q)
    ensures s.panes[q].queued <= |s.windows[q].input|
  {
    hide Received;
    var t := Grown(s, p, data, used);
    assert Delivered(s, q);
    var a, b := s.trace[q].origin, s.panes[q].offset;
    assert t.windows[q].input[a..b] == s.windows[q].input[a..b];
  }

  // ----- The pending list

  /** A pane with nothing queued is taken off the pending list. */
  function Unlist(s: State, i: nat): State
    requires i < |s.pending| && s.pending[i] in s.panes && s.count > 0
  {
    var p := s.pending[i];
    s.(pending := s.pending[..i] + s.pending[i + 1..],
       panes := s.panes[p := s.panes[p].(listed := false)],
       count := s.count - 1)
  }

  lemma ListedAt(s: State, i: nat)
    requires Good(s) && i < |s.pending|
    ensures s.pending[i] in s.panes && s.count == |s.pending| > 0
  {
    assert s.pending[i] in s.pending;
  }

  lemma Cut(ids: seq<nat>, i: nat)
    requires i < |ids| && Unique(ids)
    ensures var r := ids[..i] + ids[i + 1..]; Unique(r) && forall x :: x in r <==> x in ids && x != ids[i]
  {
    var r := ids[..i] + ids[i + 1..];
    forall x | x in ids && x != ids[i]
      ensures x in r
    {
      var k :| 0 <= k < |ids| && ids[k] == x;
      assert r[if k < i then k else k - 1] == x;
    }
    assert forall k :: 0 <= k < |r| ==> r[k] == ids[if k < i then k else k + 1];
  }

  lemma UnlistKeeps(s: State, i: nat)
    requires Good(s) && i < |s.pending| && s.pending[i] in s.panes && s.panes[s.pending[i]].blocks == []
    requires s.count > 0
    ensures Good(Unlist(s, i)) && (Quiet(s) ==> Quiet(Unlist(s, i))) && (Accounted(Unlist(s, i)) <==> Accounted(s))
    ensures Queued(Unlist(s, i)) == Queued(s)
  {
    hide Queues, Delivered, Balanced, InOrder, Fifo, Unique, Queued;
    var t := Unlist(s, i);
    QueuesSame(s, t);
    Cut(s.pending, i);
    InOrderFewer(s, t);
    assert Fifo(t) by { FifoSame(s, t); }
    assert Queued(t) == Queued(s) by { QueuedSame(s, t); }
    assert t.panes.Keys == s.panes.Keys;
    forall q | q in s.panes
      ensures Delivered(t, q) && (Balanced(t, q) <==> Balanced(s, q))
    {
      DeliveredSame(s, t, q);
      BalancedSame(s, t, q);
    }
  }

  lemma QueuedSame(s: State, t: State)
    requires t.all == s.all && t.blocks == s.blocks
    ensures Queued(t) == Queued(s)
  {
  }

  lemma FlushSafe(s: State)
    requires Good(s) && Quiet(s)
    ensures var t := Flush(s);
            && Good(t) && Quiet(t) && (Accounted(t) <==> Accounted(s)) && Queued(t) == Queued(s)
            && t == s.(log := t.log, all := t.all, blocks := t.blocks) && Extends(t.log, s.log) && !LineFirst(t)
  {
    hide Good, Accounted, Queued, Flush, LineFirst;
    FlushKeeps(s);
  }
}

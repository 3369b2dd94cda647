/** Building an %output message out of the blocks of a pane (control.c). Bytes count as
    written when they are put into the message: no line is written in between. */
module ControlMessages {
  import opened ControlText
  import opened ControlQueue
  import opened ControlSteps

  /** The log ends in a message being built for `p`. */
  ghost predicate Half(s: State, p: nat) {
    && s.log != [] && s.log[|s.log| - 1].Message? && s.log[|s.log| - 1].pane == p
    && forall q :: q in s.trace ==> s.trace[q].mark < |s.log|
  }

  function Begin(s: State, p: nat, head: Heading): State {
    s.(log := s.log + [Message(p, head, [])])
  }

  /** The message with one more part. */
  function Extended(e: Event, part: Part): Event
    requires e.Message?
  {
    e.(parts := e.parts + [part])
  }

  predicate CanTake(s: State, p: nat, n: nat) {
    && p in s.panes && p in s.windows && s.panes[p].blocks != []
    && n <= Size(s.blocks, s.panes[p].blocks[0])
    && s.panes[p].offset + n <= |s.windows[p].input|
  }

  /** The copying done by control_append_data: `n` bytes of the pane's first block. */
  function Append(s: State, p: nat, n: nat): State
    requires CanTake(s, p, n) && s.log != [] && s.log[|s.log| - 1].Message?
  {
    var k, cp := |s.log| - 1, s.panes[p];
    var data := s.windows[p].input[cp.offset..cp.offset + n];
    s.(log := s.log[..k] + [Extended(s.log[k], Part(cp.blocks[0], data))],
       panes := s.panes[p := cp.(offset := cp.offset + n)])
  }

  /** The block is that much smaller, or done with and off both queues. */
  function Shrink(s: State, p: nat, n: nat): State
    requires p in s.panes && p in s.trace && s.panes[p].blocks != []
  {
    var id := s.panes[p].blocks[0];
    if n == Size(s.blocks, id) || id !in s.blocks || !s.blocks[id].Data? then DropFirst(s, p).(trace := s.trace)
    else if n < s.blocks[id].size then
      s.(blocks := s.blocks[id := s.blocks[id].(size := s.blocks[id].size - n)])
    else s
  }

  function Take(s: State, p: nat, n: nat): State
    requires CanTake(s, p, n) && s.log != [] && s.log[|s.log| - 1].Message? && p in s.trace
  {
    Shrink(Append(s, p, n), p, n)
  }

  /** The message is thrown away with what it held. */
  function Forget(s: State, p: nat): State
    requires s.log != [] && p in s.panes && p in s.trace
  {
    var k := |s.log| - 1;
    s.(log := s.log[..k], trace := s.trace[p := Trace(s.panes[p].offset, k, s.trace[p].lost)])
  }

  // ----- Order

  lemma OrderedPrefix(log: seq<Event>, k: nat, ids: seq<nat>, next: nat)
    requires k <= |log| && Ordered(log) && Ahead(log, ids, next)
    ensures Ordered(log[..k]) && Ahead(log[..k], ids, next)
  {
    var t := log[..k];
    forall i, j | 0 <= i < j < |t| && t[i].Line?
      ensures Follows(t[i].id, t[j])
    {
      assert Follows(log[i].id, log[j]);
    }
  }

  /** A message whose new bytes are all still queued may grow at the end of the log. */
  lemma OrderedMessage(log: seq<Event>, e: Event, ids: seq<nat>, next: nat)
    requires Ordered(log) && Ahead(log, ids, next) && e.Message?
    requires forall i, j :: 0 <= i < |log| && log[i].Line? && 0 <= j < |e.parts| ==> log[i].id < e.parts[j].id
    ensures Ordered(log + [e]) && Ahead(log + [e], ids, next)
  {
    var t := log + [e];
    forall i, j | 0 <= i < j < |t| && t[i].Line?
      ensures Follows(t[i].id, t[j])
    {
      if j < |log| {
        assert Follows(log[i].id, log[j]);
      }
    }
  }

  lemma AppendOrder(s: State, p: nat, n: nat)
    requires InOrder(s) && Queues(s) && Half(s, p) && CanTake(s, p, n)
    ensures InOrder(Append(s, p, n))
  {
    hide Ordered, Ahead, Ascending;
    var k, id := |s.log| - 1, s.panes[p].blocks[0];
    var pre, e := s.log[..k], s.log[k];
    var u := Append(s, p, n);
    var more := u.log[k];
    OrderedPrefix(s.log, k, s.all, s.next);
    assert id in s.panes[p].blocks && id in s.all;
    BeforeParts(s.log, s.all, s.next, id, e);
    forall i, j | 0 <= i < |pre| && pre[i].Line? && 0 <= j < |more.parts|
      ensures pre[i].id < more.parts[j].id
    {
      if j < |e.parts| {
        assert more.parts[j] == e.parts[j];
      }
    }
    OrderedMessage(pre, more, s.all, s.next);
  }

  lemma BeforeParts(log: seq<Event>, ids: seq<nat>, next: nat, id: nat, e: Event)
    requires Ordered(log) && Ahead(log, ids, next) && id in ids && log != [] && log[|log| - 1] == e && e.Message?
    ensures forall i, j :: 0 <= i < |log| - 1 && log[i].Line? && 0 <= j < |e.parts| ==> log[i].id < e.parts[j].id
    ensures forall i :: 0 <= i < |log| - 1 && log[i].Line? ==> log[i].id < id
  {
    forall i | 0 <= i < |log| - 1 && log[i].Line?
      ensures Follows(log[i].id, e)
    {
    }
  }

  // ----- Content

  lemma ReceivedExtended(log: seq<Event>, mark: nat, e: Event, part: Part, p: nat)
    requires e.Message? && mark < |log| && log[|log| - 1] == e
    ensures var more := log[..|log| - 1] + [Extended(e, part)];
            Received(more[mark..], p) == Received(log[mark..], p) + if e.pane == p then part.data else []
  {
    var k := |log| - 1;
    var more := log[..k] + [Extended(e, part)];
    var mid := log[mark..k];
    assert log[mark..] == mid + [e];
    assert more[mark..] == mid + [Extended(e, part)];
    ReceivedAppend(mid, e, p);
    ReceivedAppend(mid, Extended(e, part), p);
    PartsAppend(e.parts, part);
  }

  lemma SaidExtended(log: seq<Event>, e: Event)
    requires log != [] && e.Message? && log[|log| - 1].Message?
    ensures Said(log[..|log| - 1] + [e]) == Said(log)
    ensures Said(log[..|log| - 1]) == Said(log)
  {
    hide Said;
    var pre := log[..|log| - 1];
    SaidAppend(pre, e);
    assert log == pre + [log[|log| - 1]];
    SaidAppend(pre, log[|log| - 1]);
  }

  /** The bytes received with one more part, against the bytes of the pane. */
  lemma ReceivedMore(log: seq<Event>, mark: nat, part: Part, p: nat, q: nat, input: seq<byte>, from: nat, at: nat, n: nat)
    requires mark < |log| && log[|log| - 1].Message? && log[|log| - 1].pane == p
    requires from <= at && at + (if p == q then n else 0) <= |input| && Received(log[mark..], q) == input[from..at]
    requires p == q ==> part.data == input[at..at + n]
    ensures Received((log[..|log| - 1] + [Extended(log[|log| - 1], part)])[mark..], q)
            == input[from..if p == q then at + n else at]
  {
    hide Received;
    ReceivedExtended(log, mark, log[|log| - 1], part, q);
    if p == q {
      Slices(input, from, at, at + n);
    }
  }

  lemma AppendFrame(s: State, p: nat, n: nat, q: nat)
    requires Known(s) && s.log != [] && s.log[|s.log| - 1].Message? && CanTake(s, p, n) && q in s.panes
    ensures var u, at := Append(s, p, n), s.panes[p].offset;
            && Known(u) && u.windows == s.windows && u.trace == s.trace && |u.log| == |s.log| && q in u.panes
            && u.panes[q].offset == s.panes[q].offset + (if p == q then n else 0)
            && u.panes[q].queued == s.panes[q].queued
            && u.log == s.log[..|s.log| - 1]
                        + [Extended(s.log[|s.log| - 1], Part(s.panes[p].blocks[0], s.windows[p].input[at..at + n]))]
  {
    assert Append(s, p, n).panes.Keys == s.panes.Keys;
  }

  lemma AppendDelivered(s: State, p: nat, n: nat, q: nat)
    requires AllDelivered(s) && Half(s, p) && CanTake(s, p, n) && q in s.panes
    ensures Known(Append(s, p, n)) && Delivered(Append(s, p, n), q)
  {
    hide Received, Size, Extended, Append;
    AppendFrame(s, p, n, q);
    assert Delivered(s, q);
    var part := Part(s.panes[p].blocks[0], s.windows[p].input[s.panes[p].offset..s.panes[p].offset + n]);
    ReceivedMore(s.log, s.trace[q].mark, part, p, q, s.windows[q].input, s.trace[q].origin, s.panes[q].offset, n);
  }

  lemma Slices(bs: seq<byte>, a: nat, b: nat, c: nat)
    requires a <= b <= c <= |bs|
    ensures bs[a..b] + bs[b..c] == bs[a..c]
  {
  }

  lemma BeginKeeps(s: State, p: nat, head: Heading)
    requires Good(s) && p in s.panes
    ensures Good(Begin(s, p, head)) && Half(Begin(s, p, head), p)
    ensures Accounted(Begin(s, p, head)) <==> Accounted(s)
  {
    hide Queues, Listed, Delivered, Balanced, Ordered, Ahead, Said, Stored;
    var u, e := Begin(s, p, head), Message(p, head, []);
    QueuesSame(s, u);
    ListedSame(s, u);
    OrderedMessage(s.log, e, s.all, s.next);
    SaidAppend(s.log, e);
    forall q | q in s.panes
      ensures Delivered(u, q) && (Balanced(u, q) <==> Balanced(s, q)) && s.trace[q].mark < |u.log|
    {
      DeliveredLine(s, u, q, e);
      BalancedSame(s, u, q);
      DeliveredMark(s, q);
    }
  }

  lemma DeliveredMark(s: State, p: nat)
    requires AllDelivered(s) && p in s.panes
    ensures s.trace[p].mark <= |s.log| && s.trace[p].origin <= s.panes[p].offset <= |s.windows[p].input|
    ensures s.panes[p].queued <= |s.windows[p].input|
  {
    assert Delivered(s, p);
  }

  lemma AppendKeeps(s: State, p: nat, n: nat)
    requires Good(s) && Half(s, p) && CanTake(s, p, n)
    ensures Good(Append(s, p, n)) && Half(Append(s, p, n), p)
  {
    hide Queues, Listed, Delivered, InOrder, Said, Stored;
    var u := Append(s, p, n);
    QueuesSame(s, u);
    ListedSame(s, u);
    AppendOrder(s, p, n);
    SaidExtended(s.log, u.log[|u.log| - 1]);
    assert u.panes.Keys == s.panes.Keys;
    forall q | q in s.panes
      ensures Known(u) && Delivered(u, q)
    {
      AppendDelivered(s, p, n, q);
    }
  }

  // ----- Blocks getting smaller

  lemma ShrinkQueues(s: State, p: nat, n: nat)
    requires Queues(s) && p in s.panes && p in s.trace && s.panes[p].blocks != []
    requires n <= Size(s.blocks, s.panes[p].blocks[0])
    ensures Queues(Shrink(s, p, n))
    ensures var id := s.panes[p].blocks[0]; id in s.blocks && s.blocks[id].Data? && s.blocks[id].pane == p
  {
    hide Ascending, Without;
    var id := s.panes[p].blocks[0];
    assert id in s.panes[p].blocks;
    if n == Size(s.blocks, id) {
      DropQueues(s, p);
      var t := DropFirst(s, p);
      QueuesSame(t, t.(trace := s.trace));
    }
  }

  lemma ShrinkFifo(s: State, p: nat, n: nat)
    requires Queues(s) && Fifo(s) && p in s.panes && p in s.trace && s.panes[p].blocks != []
    requires n <= Size(s.blocks, s.panes[p].blocks[0])
    ensures Fifo(Shrink(s, p, n)) && Queued(Shrink(s, p, n)) == Queued(s) - n
    ensures forall id :: id in Shrink(s, p, n).all ==> id in s.all
  {
    hide Ascending, Said, Without, Sum, Stored;
    var id, u := s.panes[p].blocks[0], Shrink(s, p, n);
    assert id in s.panes[p].blocks;
    assert id in s.all;
    if n == Size(s.blocks, id) {
      StoredWithout(s.all, id, s.blocks);
      SumWithout(s.all, id, s.blocks);
      WithoutMembers(s.all, id);
    } else {
      StoredSame(s.all, s.blocks, u.blocks);
      SumShrunk(s.all, id, s.blocks, u.blocks[id]);
    }
  }

  lemma ShrinkKeeps(s: State, p: nat, n: nat)
    requires Good(s) && p in s.panes && s.panes[p].blocks != []
    requires n <= Size(s.blocks, s.panes[p].blocks[0])
    ensures Good(Shrink(s, p, n)) && Queued(Shrink(s, p, n)) == Queued(s) - n
    ensures Shrink(s, p, n).log == s.log && Shrink(s, p, n).trace == s.trace
  {
    hide Queues, Listed, Delivered, InOrder, Fifo, Size, Queued;
    var u := Shrink(s, p, n);
    ShrinkQueues(s, p, n);
    ShrinkFifo(s, p, n);
    InOrderFewer(s, u);
    assert u.panes.Keys == s.panes.Keys;
    ListedSame(s, u);
    forall q | q in s.panes
      ensures Delivered(u, q)
    {
      DeliveredSame(s, u, q);
    }
  }

  /** The bytes of a pane's queue go down by what was taken. */
  lemma ShrinkSum(s: State, p: nat, n: nat, q: nat)
    requires Queues(s) && p in s.panes && p in s.trace && q in s.panes && s.panes[p].blocks != []
    requires n <= Size(s.blocks, s.panes[p].blocks[0])
    ensures var u := Shrink(s, p, n);
            q in u.panes && Sum(u.panes[q].blocks, u.blocks) == Sum(s.panes[q].blocks, s.blocks) - if p == q then n else 0
  {
    hide Ascending, Without, Sum;
    var id, u, ids := s.panes[p].blocks[0], Shrink(s, p, n), s.panes[p].blocks;
    assert id in ids;
    if n == Size(s.blocks, id) {
      if p == q {
        SumRest(ids, s.blocks);
      } else {
        SumSame(s.panes[q].blocks, s.blocks, u.blocks);
      }
    } else {
      SumShrunk(s.panes[q].blocks, id, s.blocks, u.blocks[id]);
    }
  }

  lemma TakeFrame(s: State, p: nat, n: nat)
    requires Queues(s) && Known(s) && s.log != [] && s.log[|s.log| - 1].Message? && CanTake(s, p, n)
    ensures var u := Take(s, p, n);
            && u == s.(log := u.log, panes := u.panes, blocks := u.blocks, all := u.all)
            && u.log == Append(s, p, n).log && |u.log| == |s.log| && u.panes.Keys == s.panes.Keys
            && u.log[..|s.log| - 1] == s.log[..|s.log| - 1]
            && (forall q :: q in s.panes && q != p ==> u.panes[q] == s.panes[q])
            && u.panes[p] == s.panes[p].(offset := s.panes[p].offset + n, blocks := u.panes[p].blocks)
  {
    hide Queues, Size;
  }

  lemma TakeSum(s: State, p: nat, n: nat, q: nat)
    requires Queues(s) && Known(s) && s.log != [] && s.log[|s.log| - 1].Message? && CanTake(s, p, n) && q in s.panes
    ensures var u := Take(s, p, n);
            q in u.panes && Sum(u.panes[q].blocks, u.blocks) == Sum(s.panes[q].blocks, s.blocks) - (if p == q then n else 0)
  {
    hide Queues, Sum, Size, Shrink;
    var a := Append(s, p, n);
    QueuesSame(s, a);
    ShrinkSum(a, p, n, q);
  }

  /** Taking bytes keeps everything, and the account of every pane. */
  lemma TakeKeeps(s: State, p: nat, n: nat)
    requires Good(s) && Half(s, p) && CanTake(s, p, n)
    ensures p in s.trace && Good(Take(s, p, n)) && Half(Take(s, p, n), p)
    ensures Queued(Take(s, p, n)) == Queued(s) - n
    ensures Accounted(Take(s, p, n)) <==> Accounted(s)
  {
    hide Queues, Listed, Delivered, InOrder, Fifo, Size, Queued, Sum, Append, Shrink;
    var a := Append(s, p, n);
    AppendKeeps(s, p, n);
    AppendQueued(s, p, n);
    ShrinkKeeps(a, p, n);
    var u := Take(s, p, n);
    assert Good(u) && Known(u);
    TakeFrame(s, p, n);
    forall q | q in s.panes
      ensures Balanced(u, q) <==> Balanced(s, q)
    {
      TakeSum(s, p, n, q);
    }
  }

  lemma AppendQueued(s: State, p: nat, n: nat)
    requires CanTake(s, p, n) && s.log != [] && s.log[|s.log| - 1].Message?
    ensures Queued(Append(s, p, n)) == Queued(s)
    ensures p in Append(s, p, n).panes
    ensures Append(s, p, n).panes[p].blocks == s.panes[p].blocks && Append(s, p, n).blocks == s.blocks
  {
  }

  lemma ReceivedForget(log: seq<Event>, mark: nat, p: nat)
    requires mark < |log| && log[|log| - 1].Message? && log[|log| - 1].pane != p
    ensures Received(log[..|log| - 1][mark..], p) == Received(log[mark..], p)
  {
    var mid := log[mark..|log| - 1];
    assert log[mark..] == mid + [log[|log| - 1]];
    assert log[..|log| - 1][mark..] == mid;
    ReceivedAppend(mid, log[|log| - 1], p);
  }

  lemma ForgetKeeps(s: State, p: nat)
    requires Good(s) && Half(s, p) && p in s.panes
    ensures Good(Forget(s, p)) && (Accounted(Forget(s, p)) <==> Accounted(s))
  {
    hide Queues, Listed, Delivered, Balanced, Ordered, Ahead, Said, Stored, Received;
    var u, k := Forget(s, p), |s.log| - 1;
    QueuesSame(s, u);
    ListedSame(s, u);
    OrderedPrefix(s.log, k, s.all, s.next);
    SaidExtended(s.log, s.log[k]);
    DeliveredMark(s, p);
    DeliveredFresh(u, p);
    forall q | q in s.panes
      ensures Delivered(u, q) && (Balanced(u, q) <==> Balanced(s, q))
    {
      BalancedSame(s, u, q);
      if q != p {
        ForgetDelivered(s, p, q);
      }
    }
  }

  lemma ForgetDelivered(s: State, p: nat, q: nat)
    requires AllDelivered(s) && Half(s, p) && p in s.panes && q in s.panes && q != p
    ensures Known(Forget(s, p)) && Delivered(Forget(s, p), q)
  {
    hide Received;
    assert Delivered(s, q);
    ReceivedForget(s.log, s.trace[q].mark, q);
  }

  /** Were output ignored while blocks of the pane are queued, the next write would find too
      little data, and control_append_data would end the program. */
  lemma IgnoredThenShort(s: State, p: nat)
    requires Good(s) && p in s.panes && s.panes[p].blocks != []
    ensures p in s.windows && !CanTake(Restart(s, p, |s.windows[p].input|), p, Size(s.blocks, s.panes[p].blocks[0]))
  {
    assert s.panes[p].blocks[0] in s.panes[p].blocks;
  }
}

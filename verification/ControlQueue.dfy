/** The two kinds of queue of a control client and what its output owes them, as values
    (control.c). A block is named by a number that grows with every block made, so the
    numbers say which of two blocks was queued first. */
module ControlQueue {
  import opened ControlText

  /** struct window_pane as far as it matters: all the bytes the pane ever wrote, and how
      many of them the window itself has used. */
  datatype WindowPane = WindowPane(input: seq<byte>, offset: nat)

  /** struct control_block: a line, or a number of bytes of a pane. */
  datatype Block = Note(text: seq<byte>, t: nat) | Data(pane: nat, size: nat, t: nat)

  /** struct control_pane */
  datatype Pane = Pane(offset: nat, queued: nat, off: bool, paused: bool, listed: bool, blocks: seq<nat>)

  /** Bytes of one block inside a message. */
  datatype Part = Part(id: nat, data: seq<byte>)

  /** What was written: a line, or an %output message. A line written at once gets a
      number too. */
  datatype Event = Line(id: nat, text: seq<byte>) | Message(pane: nat, head: Heading, parts: seq<Part>)

  /** Where a pane's output last started afresh: the offset then, the length of the log
      then, and the bytes queued since that were thrown away. */
  datatype Trace = Trace(origin: nat, mark: nat, lost: nat)

  datatype State = State(
    windows: map<nat, WindowPane>,
    panes: map<nat, Pane>,
    pending: seq<nat>,
    count: nat,
    blocks: map<nat, Block>,
    all: seq<nat>,
    next: nat,
    log: seq<Event>,
    trace: map<nat, Trace>,
    issued: seq<seq<byte>>)

  // ----- Sequences of block numbers

  predicate Ascending(ids: seq<nat>) {
    forall i, j :: 0 <= i < j < |ids| ==> ids[i] < ids[j]
  }

  /** TAILQ_REMOVE */
  function Without(ids: seq<nat>, id: nat): seq<nat> {
    if ids == [] then [] else if ids[0] == id then ids[1..] else [ids[0]] + Without(ids[1..], id)
  }

  lemma {:induction false} WithoutMembers(ids: seq<nat>, id: nat)
    requires Ascending(ids)
    ensures Ascending(Without(ids, id))
    ensures forall x :: x in Without(ids, id) <==> x in ids && x != id
  {
    if ids != [] {
      assert forall x :: x in ids <==> x == ids[0] || x in ids[1..];
      assert forall x :: x in ids[1..] ==> ids[0] < x;
      WithoutMembers(ids[1..], id);
      if ids[0] != id {
        AscendingCons(ids[0], Without(ids[1..], id));
      }
    }
  }

  lemma AscendingAppend(ids: seq<nat>, id: nat)
    requires Ascending(ids) && forall x :: x in ids ==> x < id
    ensures Ascending(ids + [id])
  {
    var r := ids + [id];
    forall i, j | 0 <= i < j < |r|
      ensures r[i] < r[j]
    {
      assert r[i] == ids[i] && ids[i] in ids;
      if j < |ids| {
        assert r[j] == ids[j];
      } else {
        assert r[j] == id;
      }
    }
  }

  lemma AscendingCons(id: nat, ids: seq<nat>)
    requires Ascending(ids) && forall x :: x in ids ==> id < x
    ensures Ascending([id] + ids)
    ensures forall x :: x in [id] + ids <==> x == id || x in ids
  {
    var r := [id] + ids;
    forall i, j | 0 <= i < j < |r|
      ensures r[i] < r[j]
    {
      assert r[j] == ids[j - 1] && ids[j - 1] in ids;
      if i > 0 {
        assert r[i] == ids[i - 1];
      } else {
        assert r[i] == id;
      }
    }
    assert Ascending(r);
  }

  lemma AscendingTail(ids: seq<nat>)
    requires Ascending(ids) && ids != []
    ensures Ascending(ids[1..])
    ensures forall x :: x in ids[1..] <==> x in ids && x != ids[0]
    ensures forall x :: x in ids[1..] ==> ids[0] < x
  {
    assert forall x :: x in ids <==> x == ids[0] || x in ids[1..];
    var r := ids[1..];
    forall i, j | 0 <= i < j < |r|
      ensures r[i] < r[j]
    {
      assert r[i] == ids[i + 1] && r[j] == ids[j + 1];
    }
  }

  // ----- Sizes

  function Size(blocks: map<nat, Block>, id: nat): nat {
    if id in blocks && blocks[id].Data? then blocks[id].size else 0
  }

  function Sum(ids: seq<nat>, blocks: map<nat, Block>): nat {
    if ids == [] then 0 else Size(blocks, ids[0]) + Sum(ids[1..], blocks)
  }

  lemma {:induction false} SumSame(ids: seq<nat>, a: map<nat, Block>, b: map<nat, Block>)
    requires forall id :: id in ids ==> Size(a, id) == Size(b, id)
    ensures Sum(ids, a) == Sum(ids, b)
  {
    if ids != [] {
      SumSame(ids[1..], a, b);
    }
  }

  lemma {:induction false} SumAppend(ids: seq<nat>, id: nat, blocks: map<nat, Block>)
    ensures Sum(ids + [id], blocks) == Sum(ids, blocks) + Size(blocks, id)
  {
    if ids == [] {
      assert [id][1..] == [];
    } else {
      SumAppend(ids[1..], id, blocks);
      assert (ids + [id])[1..] == ids[1..] + [id];
    }
  }

  /** Taking a block out takes its bytes out of the sum. */
  lemma {:induction false} SumWithout(ids: seq<nat>, id: nat, blocks: map<nat, Block>)
    requires Ascending(ids)
    ensures Sum(Without(ids, id), blocks - {id}) == Sum(ids, blocks) - if id in ids then Size(blocks, id) else 0
  {
    if ids != [] {
      AscendingTail(ids);
      if ids[0] == id {
        SumSame(ids[1..], blocks - {id}, blocks);
      } else {
        SumWithout(ids[1..], id, blocks);
      }
    }
  }

  /** A smaller block. */
  lemma {:induction false} SumShrunk(ids: seq<nat>, id: nat, blocks: map<nat, Block>, b: Block)
    requires Ascending(ids) && b.Data? && id in blocks && blocks[id].Data? && b.size <= blocks[id].size
    ensures Sum(ids, blocks[id := b]) == Sum(ids, blocks) - if id in ids then blocks[id].size - b.size else 0
  {
    if ids != [] {
      AscendingTail(ids);
      if ids[0] == id {
        SumSame(ids[1..], blocks[id := b], blocks);
      } else {
        SumShrunk(ids[1..], id, blocks, b);
      }
    }
  }

  lemma {:induction false} SumZero(ids: seq<nat>, blocks: map<nat, Block>)
    requires forall id :: id in ids ==> Size(blocks, id) > 0
    ensures Sum(ids, blocks) == 0 <==> ids == []
  {
    if ids != [] {
      assert Size(blocks, ids[0]) > 0;
    }
  }

  // ----- The log

  /** The texts of the lines written, in order. */
  function Said(log: seq<Event>): seq<seq<byte>> {
    if log == [] then []
    else
      var e := log[|log| - 1];
      Said(log[..|log| - 1]) + if e.Line? then [e.text] else []
  }

  /** The texts of the lines still stored, in order. */
  function Stored(ids: seq<nat>, blocks: map<nat, Block>): seq<seq<byte>> {
    if ids == [] then []
    else (if ids[0] in blocks && blocks[ids[0]].Note? then [blocks[ids[0]].text] else []) + Stored(ids[1..], blocks)
  }

  function PartsData(parts: seq<Part>): seq<byte> {
    if parts == [] then [] else PartsData(parts[..|parts| - 1]) + parts[|parts| - 1].data
  }

  /** The bytes of a pane in what was written. */
  function Received(log: seq<Event>, p: nat): seq<byte> {
    if log == [] then []
    else
      var e := log[|log| - 1];
      Received(log[..|log| - 1], p) + if e.Message? && e.pane == p then PartsData(e.parts) else []
  }

  /** Nothing queued before a line is written after it. */
  predicate Follows(line: nat, e: Event) {
    match e
    case Line(id, _) => line < id
    case Message(_, _, parts) => forall i :: 0 <= i < |parts| ==> line < parts[i].id
  }

  predicate Plain(bs: seq<byte>) {
    forall b :: b in bs ==> b >= SPACE
  }

  /** In the order of queueing. */
  predicate Ordered(log: seq<Event>) {
    forall i, j :: 0 <= i < j < |log| && log[i].Line? ==> Follows(log[i].id, log[j])
  }

  /** Everything still queued, or yet to be, comes after the lines written. */
  predicate Ahead(log: seq<Event>, ids: seq<nat>, next: nat) {
    forall i :: 0 <= i < |log| && log[i].Line? ==> log[i].id < next && forall id :: id in ids ==> log[i].id < id
  }

  /** The bytes queued for the client. */
  function Queued(s: State): nat {
    Sum(s.all, s.blocks)
  }

  lemma SaidAppend(log: seq<Event>, e: Event)
    ensures Said(log + [e]) == Said(log) + if e.Line? then [e.text] else []
  {
    assert (log + [e])[..|log|] == log;
  }

  lemma ReceivedAppend(log: seq<Event>, e: Event, p: nat)
    ensures Received(log + [e], p) == Received(log, p) + if e.Message? && e.pane == p then PartsData(e.parts) else []
  {
    assert (log + [e])[..|log|] == log;
  }

  lemma PartsAppend(parts: seq<Part>, part: Part)
    ensures PartsData(parts + [part]) == PartsData(parts) + part.data
  {
    assert (parts + [part])[..|parts|] == parts;
  }

  lemma {:induction false} StoredSame(ids: seq<nat>, a: map<nat, Block>, b: map<nat, Block>)
    requires forall id :: id in ids ==> id in a && id in b && (a[id].Note? <==> b[id].Note?)
    requires forall id :: id in ids && a[id].Note? ==> a[id].text == b[id].text
    ensures Stored(ids, a) == Stored(ids, b)
  {
    if ids != [] {
      StoredSame(ids[1..], a, b);
    }
  }

  lemma {:induction false} StoredAppend(ids: seq<nat>, id: nat, blocks: map<nat, Block>)
    ensures Stored(ids + [id], blocks)
            == Stored(ids, blocks) + if id in blocks && blocks[id].Note? then [blocks[id].text] else []
  {
    if ids == [] {
      assert [id][1..] == [];
    } else {
      StoredAppend(ids[1..], id, blocks);
      assert (ids + [id])[1..] == ids[1..] + [id];
    }
  }

  /** Taking a block of data out of the queue leaves the stored lines as they were. */
  lemma {:induction false} StoredWithout(ids: seq<nat>, id: nat, blocks: map<nat, Block>)
    requires Ascending(ids)
    requires id in blocks && blocks[id].Data?
    ensures Stored(Without(ids, id), blocks - {id}) == Stored(ids, blocks)
  {
    if ids != [] {
      AscendingTail(ids);
      if ids[0] == id {
        StoredSmaller(ids[1..], id, blocks);
      } else {
        StoredWithout(ids[1..], id, blocks);
      }
    }
  }

  lemma {:induction false} StoredSmaller(ids: seq<nat>, id: nat, blocks: map<nat, Block>)
    requires id !in ids
    ensures Stored(ids, blocks - {id}) == Stored(ids, blocks)
  {
    if ids != [] {
      assert ids[0] != id;
      StoredSmaller(ids[1..], id, blocks);
    }
  }

  // ----- What holds in every state

  /** The queues share their blocks: each block is in the queue of the client once, in the
      order of making, and a pane's queue is what the client's holds of that pane. */
  ghost predicate Queues(s: State) {
    && Ascending(s.all)
    && (forall id :: id in s.all <==> id in s.blocks)
    && (forall id :: id in s.blocks ==> id < s.next)
    && (forall id :: id in s.blocks && s.blocks[id].Data? ==>
          s.blocks[id].size > 0 && s.blocks[id].pane in s.panes && id in s.panes[s.blocks[id].pane].blocks)
    && (forall p :: p in s.panes ==> Ascending(s.panes[p].blocks))
    && (forall p, id :: p in s.panes && id in s.panes[p].blocks ==>
          id in s.blocks && s.blocks[id].Data? && s.blocks[id].pane == p)
  }

  predicate Unique(ids: seq<nat>) {
    forall i, j :: 0 <= i < j < |ids| ==> ids[i] != ids[j]
  }

  /** The pending list: counted, each pane once and exactly when its flag is set, and with
      every pane that has blocks. */
  ghost predicate Listed(s: State) {
    && s.count == |s.pending| && Unique(s.pending)
    && (forall p :: p in s.pending <==> p in s.panes && s.panes[p].listed)
    && (forall p :: p in s.panes && s.panes[p].blocks != [] ==> s.panes[p].listed)
  }

  /** A pane that is off or paused has nothing queued. */
  ghost predicate Quiet(s: State) {
    forall p :: p in s.panes && (s.panes[p].off || s.panes[p].paused) ==> s.panes[p].blocks == []
  }

  ghost predicate Known(s: State) {
    && s.panes.Keys == s.trace.Keys && s.panes.Keys <= s.windows.Keys
    && (forall p :: p in s.windows ==> s.windows[p].offset <= |s.windows[p].input|)
  }

  /** What a client has been sent of a pane since it last started afresh is exactly the
      pane's bytes from there up to its offset. */
  ghost predicate Delivered(s: State, p: nat)
    requires p in s.panes && p in s.trace && p in s.windows
  {
    var at, tr, input := s.panes[p].offset, s.trace[p], s.windows[p].input;
    && tr.origin <= at <= |input| && s.panes[p].queued <= |input| && tr.mark <= |s.log|
    && Received(s.log[tr.mark..], p) == input[tr.origin..at]
  }

  ghost predicate AllDelivered(s: State) {
    Known(s) && forall p :: p in s.panes ==> Delivered(s, p)
  }

  lemma KnownOf(s: State)
    requires AllDelivered(s)
    ensures Known(s)
  {
  }

  ghost predicate InOrder(s: State) {
    Ordered(s.log) && Ahead(s.log, s.all, s.next)
  }

  /** Every line given to the client was written or is stored, in the order given. */
  ghost predicate Fifo(s: State) {
    Said(s.log) + Stored(s.all, s.blocks) == s.issued
  }

  ghost predicate Good(s: State) {
    Queues(s) && Listed(s) && AllDelivered(s) && InOrder(s) && Fifo(s)
  }

  /** Nothing queued is unaccounted for. */
  predicate Balanced(s: State, p: nat)
    requires p in s.panes && p in s.trace && p in s.windows
  {
    s.panes[p].offset + Sum(s.panes[p].blocks, s.blocks) + s.trace[p].lost == s.panes[p].queued <= |s.windows[p].input|
  }

  ghost predicate Accounted(s: State) {
    Known(s) && forall p :: p in s.panes ==> Balanced(s, p)
  }

  // ----- Each pane queue is the subsequence of the client's

  function Mine(ids: seq<nat>, blocks: map<nat, Block>, p: nat): seq<nat> {
    if ids == [] then []
    else (if ids[0] in blocks && blocks[ids[0]].Data? && blocks[ids[0]].pane == p then [ids[0]] else [])
         + Mine(ids[1..], blocks, p)
  }

  lemma {:induction false} MineMembers(ids: seq<nat>, blocks: map<nat, Block>, p: nat)
    requires Ascending(ids)
    ensures Ascending(Mine(ids, blocks, p))
    ensures forall id :: id in Mine(ids, blocks, p) <==>
                         id in ids && id in blocks && blocks[id].Data? && blocks[id].pane == p
  {
    if ids != [] {
      AscendingTail(ids);
      MineMembers(ids[1..], blocks, p);
      assert forall x :: x in ids <==> x == ids[0] || x in ids[1..];
      AscendingCons(ids[0], Mine(ids[1..], blocks, p));
    }
  }

  lemma HasMember(ids: seq<nat>)
    requires ids != []
    ensures exists x :: x in ids
  {
    assert ids[0] in ids;
  }

  lemma {:induction false} AscendingUnique(a: seq<nat>, b: seq<nat>)
    requires Ascending(a) && Ascending(b) && forall x :: x in a <==> x in b
    ensures a == b
  {
    if a == [] {
      if b != [] {
        HasMember(b);
        assert false;
      }
    } else {
      assert a[0] in b;
      assert b[0] in a;
      AscendingTail(a);
      AscendingTail(b);
      assert a[0] == b[0];
      AscendingUnique(a[1..], b[1..]);
      assert a == [a[0]] + a[1..] && b == [b[0]] + b[1..];
    }
  }

  lemma PaneQueueIsSubsequence(s: State, p: nat)
    requires Queues(s) && p in s.panes
    ensures s.panes[p].blocks == Mine(s.all, s.blocks, p)
  {
    MineMembers(s.all, s.blocks, p);
    AscendingUnique(s.panes[p].blocks, Mine(s.all, s.blocks, p));
  }

  // ----- Enough to write

  /** The check that ends the program in control_append_data cannot fail: the bytes of the
      first block, all of them, are there to be read. */
  lemma EnoughData(s: State, p: nat)
    requires Good(s) && Accounted(s) && p in s.panes && s.panes[p].blocks != []
    ensures Size(s.blocks, s.panes[p].blocks[0]) <= |s.windows[p].input| - s.panes[p].offset
  {
    assert Balanced(s, p);
  }
}

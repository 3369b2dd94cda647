/** The output of a control client (control.c): notifications and pane output share one
    queue, pane output is written in turn and in parts, and each method is tied to the
    steps of ControlSteps and ControlMessages. */
module ControlClient {
  import opened ControlText
  import opened ControlQueue
  import opened ControlSteps
  import opened ControlMessages
  import opened ControlPanes
  import opened ControlTrace

  /** CONTROL_BUFFER_HIGH, CONTROL_WRITE_MINIMUM, CONTROL_MAXIMUM_AGE */
  const HIGH := 8192
  const MINIMUM := 32
  const MAXIMUM_AGE := 300000

  /** The bytes of what was written. */
  function Rendered(e: Event): seq<byte> {
    match e
    case Line(_, text) => text + [NEWLINE]
    case Message(p, head, parts) => Header(head, p) + Escape(PartsData(parts)) + [NEWLINE]
  }

  function Render(log: seq<Event>): seq<byte> {
    if log == [] then [] else Render(log[..|log| - 1]) + Rendered(log[|log| - 1])
  }

  lemma RenderAppend(log: seq<Event>, e: Event)
    ensures Render(log + [e]) == Render(log) + Rendered(e)
  {
    assert (log + [e])[..|log|] == log;
  }

  /** Every message is one line: nothing in it but the end can end a line. */
  lemma OneLine(s: State, i: nat)
    requires Good(s) && i < |s.log| && s.log[i].Message?
    ensures var bs := Rendered(s.log[i]);
            |bs| > 0 && bs[|bs| - 1] == NEWLINE && Plain(bs[..|bs| - 1])
  {
    EscapePrintable(PartsData(s.log[i].parts));
    HeaderPrintable(s.log[i].head, s.log[i].pane);
    var bs := Rendered(s.log[i]);
    assert bs[..|bs| - 1] == Header(s.log[i].head, s.log[i].pane) + Escape(PartsData(s.log[i].parts));
  }

  datatype Buffer = Nothing | Building(bytes: seq<byte>)

  /** A message under construction is the last thing in the log, and not yet sent. */
  ghost predicate Sending(log: seq<Event>, sent: seq<byte>, message: Buffer) {
    match message
    case Nothing => sent == Render(log)
    case Building(bytes) =>
      && log != [] && sent == Render(log[..|log| - 1]) && bytes + [NEWLINE] == Rendered(log[|log| - 1])
  }

  lemma BeginRendered(log: seq<Event>, p: nat, head: Heading)
    ensures Sending(log + [Message(p, head, [])], Render(log), Building(Header(head, p)))
  {
    assert (log + [Message(p, head, [])])[..|log|] == log;
    assert PartsData([]) == [] && Escape([]) == [];
    assert Header(head, p) + [] == Header(head, p);
  }

  /** More escaped bytes at the end of a message. */
  lemma ExtendedRendered(e: Event, part: Part, was: seq<byte>, now: seq<byte>)
    requires e.Message? && was + [NEWLINE] == Rendered(e) && now == was + Escape(part.data)
    ensures now + [NEWLINE] == Rendered(Extended(e, part))
  {
    hide Escape;
    PartsAppend(e.parts, part);
    EscapeConcat(PartsData(e.parts), part.data);
    var head := Header(e.head, e.pane);
    var payload := head + Escape(PartsData(e.parts));
    assert was == payload by {
      assert (was + [NEWLINE])[..|was|] == (payload + [NEWLINE])[..|payload|];
    }
    assert head + (Escape(PartsData(e.parts)) + Escape(part.data)) == now;
  }

  function Least(a: nat, b: nat): nat {
    if a <= b then a else b
  }

  /** All the bytes of the pane not yet queued become one block. */
  ghost predicate Queueing(s: State, t: State, p: nat, now: nat) {
    && p in s.panes && p in s.windows && s.panes[p].queued <= |s.windows[p].input|
    && var n := |s.windows[p].input| - s.panes[p].queued;
       t == if n == 0 then s else Enqueue(s, p, n, now)
  }

  predicate Behind(now: nat, since: nat, allowed: nat) {
    since < now && now - since >= allowed
  }

  /** From when on a block is too old: as late as is allowed, and a millisecond at least. */
  lemma BehindFrom(now: nat, since: nat, allowed: nat)
    ensures Behind(now, since, allowed) <==> since + (if allowed == 0 then 1 else allowed) <= now
  {
  }

  /** The finished part of the log. */
  function Written(log: seq<Event>, message: Buffer): seq<Event> {
    if message.Building? && log != [] then log[..|log| - 1] else log
  }

  /** `n` bytes of a pane have gone, and nothing of the others. */
  ghost predicate Taken(s: State, t: State, p: nat, n: nat) {
    && t == s.(log := t.log, panes := t.panes, blocks := t.blocks, all := t.all)
    && p in s.panes && t.panes.Keys == s.panes.Keys
    && (forall q :: q in s.panes && q != p ==> t.panes[q] == s.panes[q])
    && t.panes[p] == s.panes[p].(offset := s.panes[p].offset + n, blocks := t.panes[p].blocks)
    && Sum(t.panes[p].blocks, t.blocks) == Sum(s.panes[p].blocks, s.blocks) - n
    && Queued(t) == Queued(s) - n
  }

  lemma TakenNone(s: State, p: nat)
    requires p in s.panes
    ensures Taken(s, s, p, 0)
  {
  }

  lemma TakenMore(s: State, t: State, u: State, p: nat, a: nat, b: nat)
    requires Taken(s, t, p, a) && Taken(t, u, p, b)
    ensures Taken(s, u, p, a + b)
  {
    hide Sum, Queued;
  }

  lemma TakenPanes(s: State, t: State, p: nat, n: nat)
    requires Taken(s, t, p, n)
    ensures t.panes.Keys == s.panes.Keys && p in t.panes
    ensures forall q :: q in s.panes && q != p ==> t.panes[q] == s.panes[q]
    ensures t.panes[p] == s.panes[p].(offset := s.panes[p].offset + n, blocks := t.panes[p].blocks)
    ensures t.issued == s.issued && Queued(t) + n == Queued(s)
  {
    hide Sum, Queued;
  }

  /** All of a pane's queue was written when nothing is left of it. */
  lemma SumOfNone(s: State, t: State, p: nat, n: nat)
    requires Taken(s, t, p, n)
    ensures n <= Sum(s.panes[p].blocks, s.blocks)
    ensures p in t.panes && (t.panes[p].blocks == [] ==> n == Sum(s.panes[p].blocks, s.blocks))
  {
    hide Queued;
  }

  lemma FlushTaken(s: State, t: State, p: nat, n: nat)
    requires Taken(s, t, p, n) && Good(t) && Quiet(t)
    ensures var u := Flush(t);
            && Taken(s, u, p, n) && Good(u) && Quiet(u) && (Accounted(u) <==> Accounted(t)) && Extends(u.log, t.log)
            && !LineFirst(u)
  {
    hide Queued, Good, Accounted, Sum, Flush, LineFirst;
    FlushKeeps(t);
    QueuesOf(t);
    SumKept(t, Flush(t), p);
  }

  lemma SumKept(s: State, t: State, p: nat)
    requires Queues(s) && p in s.panes && forall id :: id in s.blocks && s.blocks[id].Data? ==> id in t.blocks
    requires forall id :: id in t.blocks ==> id in s.blocks && t.blocks[id] == s.blocks[id]
    ensures Sum(s.panes[p].blocks, t.blocks) == Sum(s.panes[p].blocks, s.blocks)
  {
    forall id | id in s.panes[p].blocks
      ensures Size(t.blocks, id) == Size(s.blocks, id)
    {
    }
    SumSame(s.panes[p].blocks, t.blocks, s.blocks);
  }

  lemma EnoughToTake(s: State, p: nat)
    requires Good(s) && Accounted(s) && p in s.panes && s.panes[p].blocks != []
    ensures forall n: nat :: n <= Size(s.blocks, s.panes[p].blocks[0]) ==> CanTake(s, p, n)
  {
    KnownGood(s);
    EnoughData(s, p);
  }

  /** A dead pane: what it had queued is gone, and the lines behind it are written. */
  lemma DiscardDead(s: State, p: nat)
    requires Good(s) && Quiet(s) && Accounted(s) && p in s.panes
    ensures p in s.trace && Queues(Discard(s, p))
    ensures var t := Flush(Discard(s, p));
            && Good(t) && Quiet(t) && Accounted(t) && Queued(t) <= Queued(s) && Extends(t.log, s.log)
            && t.panes == s.panes[p := s.panes[p].(blocks := [])] && t.issued == s.issued && !LineFirst(t)
  {
    hide Queued, Listed, Delivered, InOrder, Fifo, Accounted, Queues, LineFirst;
    KnownGood(s);
    DiscardKeeps(s, p);
    QuietEmptied(s, Discard(s, p), p);
    FlushKeeps(Discard(s, p));
  }

  /** While a message is built, what is finished is what was sent. */
  lemma HalfSends(s: State, p: nat, message: Buffer, sent: seq<byte>)
    requires Sending(s.log, sent, message)
    ensures message.Building? ==> s.log != [] && sent == Render(s.log[..|s.log| - 1])
    ensures !message.Building? ==> sent == Render(s.log)
  {
  }

  lemma ExtendsTail(log: seq<Event>, was: seq<Event>)
    requires Extends(log, was) && was != []
    ensures Extends(log, was[..|was| - 1])
  {
    assert log[..|was| - 1] == log[..|was|][..|was| - 1];
  }

  lemma ExtendsOne(was: seq<Event>, log: seq<Event>)
    requires log != [] && Extends(log[..|log| - 1], was)
    ensures Extends(log, was)
  {
    ExtendsSelf(log);
    assert log[..|was|] == log[..|log| - 1][..|was|];
  }

  /** The pane's output was thrown away, and no pane's offset has moved. */
  ghost predicate Stopped(s: State, t: State, p: nat) {
    && t.panes.Keys == s.panes.Keys && t.pending == s.pending && p in s.panes
    && (forall q :: q in s.panes ==> t.panes[q].offset == s.panes[q].offset)
    && t.panes[p].blocks == [] && Queued(t) <= Queued(s)
  }

  lemma StoppedPanes(s: State, t: State, p: nat)
    requires Stopped(s, t, p)
    ensures t.panes.Keys == s.panes.Keys && p in t.panes && t.panes[p].blocks == []
    ensures forall q :: q in s.panes ==> t.panes[q].offset == s.panes[q].offset
    ensures Queued(t) <= Queued(s)
  {
  }

  /** What writing does to a client: no pane comes or goes, offsets only advance, the log
      only grows, and neither the bytes queued nor the pending list do. */
  ghost predicate Served(s: State, t: State) {
    && t.panes.Keys == s.panes.Keys && t.windows == s.windows
    && (forall q :: q in s.panes ==> t.panes[q].offset >= s.panes[q].offset)
    && Extends(t.log, s.log) && Queued(t) <= Queued(s) && |t.pending| <= |s.pending|
    && (forall q :: q in t.pending ==> q in s.pending)
  }

  lemma ServedWritten(s: State, t: State, p: nat)
    requires t.panes.Keys == s.panes.Keys && t.windows == s.windows && t.pending == s.pending && p in s.panes
    requires forall q :: q in s.panes && q != p ==> t.panes[q].offset == s.panes[q].offset
    requires t.panes[p].offset >= s.panes[p].offset && Extends(t.log, s.log) && Queued(t) <= Queued(s)
    ensures Served(s, t)
  {
    hide Queued, Extends;
  }

  lemma ServedUnlist(s: State, t: State, i: nat)
    requires Served(s, t) && t.pending == s.pending && i < |t.pending| && t.pending[i] in t.panes && t.count > 0
    requires Queued(Unlist(t, i)) == Queued(t)
    ensures Served(s, Unlist(t, i))
  {
    hide Queued, Extends;
    assert forall q :: q in t.pending[..i] + t.pending[i + 1..] ==> q in t.pending;
  }

  lemma ServedSelf(s: State)
    ensures Served(s, s)
  {
  }

  lemma ServedMore(s: State, t: State, u: State)
    requires Served(s, t) && Served(t, u)
    ensures Served(s, u)
  {
    hide Queued;
    ExtendsMore(s.log, t.log, u.log);
  }

  lemma ServedQueued(s: State, t: State)
    requires Served(s, t)
    ensures Queued(t) <= Queued(s) && |t.pending| <= |s.pending|
  {
  }

  lemma ServedKeys(s: State, t: State)
    requires Served(s, t)
    ensures t.panes.Keys == s.panes.Keys
  {
  }

  /** A pane's share of the room in the buffer: a byte takes up to three more when escaped. */
  function Share(buffered: nat, panes: nat): nat
    requires buffered < HIGH && panes > 0
  {
    var limit := (HIGH - buffered) / panes / 3;
    if limit < MINIMUM then MINIMUM else limit
  }

  lemma AtLeast(x: nat, a: nat, n: nat)
    requires a > 0
    ensures n <= x / a <==> n * a <= x
  {
    var q, r := x / a, x % a;
    assert x == q * a + r;
    if n <= q {
      Times(n, q, a);
    } else {
      Times(q + 1, n, a);
    }
  }

  lemma Times(a: nat, b: nat, c: nat)
    requires a <= b
    ensures a * c <= b * c && (a + 1) * c == a * c + c
  {
    if a < b {
      assert (b - a) * c >= 0;
      assert b * c == a * c + (b - a) * c;
    }
  }

  /** A share is the most bytes of which each pane can have three times as many within the room
      there is, or 32 if that is more. */
  lemma ShareExact(buffered: nat, panes: nat, n: nat)
    requires buffered < HIGH && panes > 0
    ensures n <= Share(buffered, panes) <==> n <= 32 || 3 * n * panes <= 8192 - buffered
  {
    var room := HIGH - buffered;
    AtLeast(room / panes, 3, n);
    AtLeast(room, panes, 3 * n);
  }

  /** Panes from the i-th of the pending list on have not had their turn, no pane has had
      more than its share. */
  ghost predicate OneShare(s: State, t: State, i: nat, limit: nat) {
    && t.panes.Keys == s.panes.Keys
    && (forall q :: q in s.panes ==> t.panes[q].offset <= s.panes[q].offset + limit)
    && (forall k :: i <= k < |t.pending| ==>
          t.pending[k] in s.panes && t.panes[t.pending[k]].offset == s.panes[t.pending[k]].offset)
  }

  lemma FirstShare(s: State, limit: nat)
    requires Good(s)
    ensures OneShare(s, s, 0, limit)
  {
    forall k | 0 <= k < |s.pending|
      ensures s.pending[k] in s.panes
    {
      assert s.pending[k] in s.pending;
    }
  }

  lemma SharesKept(s: State, t: State, i: nat, limit: nat)
    requires OneShare(s, t, i, limit)
    ensures forall q :: q in s.panes && q in t.panes ==> t.panes[q].offset <= s.panes[q].offset + limit
  {
  }

  lemma NextShare(s: State, t: State, u: State, i: nat, limit: nat, more: bool)
    requires OneShare(s, t, i, limit) && Good(t) && i < |t.pending| && u.panes.Keys == t.panes.Keys
    requires u.pending == if more then t.pending else t.pending[..i] + t.pending[i + 1..]
    requires forall q :: q in u.panes && q != t.pending[i] ==> u.panes[q].offset == t.panes[q].offset
    requires forall q :: q in u.panes ==> u.panes[q].offset <= t.panes[q].offset + limit
    ensures OneShare(s, u, if more then i + 1 else i, limit)
  {
    hide Queues, AllDelivered, InOrder, Fifo;
    var p, j := t.pending[i], if more then i + 1 else i;
    assert p in s.panes && t.panes[p].offset == s.panes[p].offset;
    forall k | j <= k < |u.pending|
      ensures u.pending[k] in s.panes && u.panes[u.pending[k]].offset == s.panes[u.pending[k]].offset
    {
      assert u.pending[k] == t.pending[if more then k else k + 1];
    }
  }

  lemma UnlistFront(s: State, i: nat)
    requires i < |s.pending| && s.pending[i] in s.panes && s.count > 0
    ensures LineFirst(Unlist(s, i)) <==> LineFirst(s)
  {
  }

  lemma ServedFlush(s: State, t: State)
    requires t == s.(log := t.log, all := t.all, blocks := t.blocks) && Extends(t.log, s.log) && Queued(t) == Queued(s)
    ensures Served(s, t)
  {
  }

  lemma CountOf(s: State)
    requires Good(s)
    ensures s.count == |s.pending|
  {
  }

  lemma BeginTake(s: State, p: nat, head: Heading, n: nat)
    requires CanTake(s, p, n)
    ensures CanTake(Begin(s, p, head), p, n)
  {
  }

  lemma QuietBegin(s: State, p: nat, head: Heading)
    requires Quiet(s)
    ensures Quiet(Begin(s, p, head))
  {
  }

  lemma QuietTake(s: State, p: nat, n: nat)
    requires Good(s) && Quiet(s) && Half(s, p) && CanTake(s, p, n)
    ensures p in s.trace && Quiet(Take(s, p, n))
  {
    KnownGood(s);
    TakeFrame(s, p, n);
  }

  /** A message has been begun, if there was none. */
  ghost predicate Opened(s: State, b: State, p: nat) {
    b == s || exists head :: b == Begin(s, p, head)
  }

  lemma TakeTaken(s: State, b: State, p: nat, n: nat)
    requires CanTake(b, p, n) && p in b.trace && Half(b, p) && Good(b) && Opened(s, b, p)
    ensures var u := Take(b, p, n);
            && Taken(s, u, p, n) && |u.log| == |b.log| && u.log[..|u.log| - 1] == b.log[..|b.log| - 1]
  {
    hide Queues, Listed, Delivered, InOrder, Fifo, Sum, Queued, Take;
    KnownGood(b);
    TakeKeeps(b, p, n);
    TakeFrame(b, p, n);
    TakeSum(b, p, n, p);
    assert Queued(b) == Queued(s) by { QueuedSame(s, b); }
  }

  /** Part of a block taken leaves the front of the queue as it is. */
  lemma TakeFront(s: State, b: State, p: nat, n: nat)
    requires Good(b) && Half(b, p) && CanTake(b, p, n) && n < Size(b.blocks, b.panes[p].blocks[0])
    requires b.all == s.all && b.blocks == s.blocks && p in b.trace
    ensures LineFirst(Take(b, p, n)) <==> LineFirst(s)
  {
    FirstBlock(b, p);
    hide Good, Size, Extended;
  }

  lemma AppendSame(s: State, p: nat, n: nat)
    requires CanTake(s, p, n) && s.log != [] && s.log[|s.log| - 1].Message?
    ensures var a := Append(s, p, n);
            && p in a.panes && a.panes[p].blocks == s.panes[p].blocks && a.blocks == s.blocks
            && a == s.(log := a.log, panes := a.panes)
  {
  }

  /** Bytes go into the message that is being built. */
  ghost predicate Took(b: State, t: State, p: nat, n: nat) {
    Half(b, p) && CanTake(b, p, n) && p in b.trace && t == Take(b, p, n)
  }

  lemma OffsetInside(s: State, p: nat)
    requires Good(s) && p in s.windows
    ensures s.windows[p].offset <= |s.windows[p].input|
  {
  }

  class Client {
    /** The panes of the server; those in a window of the client's session; those whose
        process has exited. */
    var windows: map<nat, WindowPane>
    var linked: set<nat>
    var exited: set<nat>
    var clock: nat

    /** CLIENT_CONTROL_NOOUTPUT, CLIENT_DEAD or CLIENT_SUSPENDED; CLIENT_EXIT. */
    var ignoring: bool
    var exit: bool
    var pauseAfter: bool
    var pauseAge: nat

    var panes: map<nat, Pane>
    var pending: seq<nat>
    var count: nat
    var blocks: map<nat, Block>
    var all: seq<nat>
    var next: nat

    /** Everything put in the output buffer so far, and how much of it has left it. */
    var sent: seq<byte>
    var drained: nat

    ghost var log: seq<Event>
    ghost var trace: map<nat, Trace>
    ghost var issued: seq<seq<byte>>

    /** The run so far: the panes it began with, and every step since. */
    ghost var start: map<nat, WindowPane>
    ghost var steps: seq<Step>

    ghost function St(): State
      reads this`windows, this`panes, this`pending, this`count, this`blocks, this`all, this`next, this`log, this`trace,
        this`issued
    {
      State(windows, panes, pending, count, blocks, all, next, log, trace, issued)
    }

    /** The state is the one that the run leads to. */
    ghost predicate Traced()
      reads this`windows, this`panes, this`pending, this`count, this`blocks, this`all, this`next, this`log, this`trace,
        this`issued, this`start, this`steps
    {
      Started(start) && St() == Run(start, steps)
    }

    ghost predicate Valid()
      reads this
    {
      Traced() && Good(St()) && Quiet(St()) && sent == Render(log) && drained <= |sent|
    }

    /** EVBUFFER_LENGTH of the output */
    function Buffered(): nat
      reads this
      requires drained <= |sent|
    {
      |sent| - drained
    }

    /** control_start */
    constructor (windows: map<nat, WindowPane>)
      requires forall p :: p in windows ==> windows[p].offset <= |windows[p].input|
      ensures Valid() && Accounted(St()) && log == [] && all == [] && panes == map[]
    {
      this.windows := windows;
      linked, exited, clock := {}, {}, 0;
      ignoring, exit, pauseAfter, pauseAge := false, false, false, 0;
      panes, pending, count, blocks, all, next := map[], [], 0, map[], [], 0;
      sent, drained := [], 0;
      log, trace, issued := [], map[], [];
      start, steps := windows, [];
    }

    /** One more step is put down. */
    ghost method Did(step: Step, s: State)
      requires Started(start) && s == Run(start, steps) && St() == Apply(s, step)
      modifies this`steps
      ensures Traced() && steps == old(steps) + [step]
    {
      RunMore(start, steps, step);
      steps := steps + [step];
    }

    /** get_timer: time never goes back. */
    method Timer() returns (t: nat)
      modifies this`clock
      ensures old(clock) <= clock == t
    {
      t :| clock <= t;
      clock := t;
    }

    /** The buffer is written out. */
    method Drain(n: nat)
      requires Valid() && n <= Buffered()
      modifies this`drained
      ensures Valid() && Buffered() == old(Buffered()) - n && St() == old(St())
    {
      drained := drained + n;
    }

    // ----- Lines

    /** control_vwrite */
    method WriteNow(text: seq<byte>)
      requires sent == Render(log)
      modifies this`sent, this`log, this`next, this`issued
      ensures sent == Render(log) && sent == old(sent) + text + [NEWLINE]
      ensures St() == old(St()).(log := old(log) + [Line(old(next), text)], next := old(next) + 1, issued := old(issued) + [text])
    {
      hide Render, Header, Escape, PartsData;
      RenderAppend(log, Line(next, text));
      sent := sent + text;
      sent := sent + [NEWLINE];
      log := log + [Line(next, text)];
      issued := issued + [text];
      next := next + 1;
    }

    /** control_write */
    method Write(text: seq<byte>)
      requires Traced() && sent == Render(log)
      modifies this`sent, this`log, this`next, this`issued, this`blocks, this`all, this`clock, this`steps
      ensures old(steps) <= steps
      ensures Traced() && sent == Render(log) && St() == WriteLine(old(St()), text, clock)
      ensures sent == old(sent) + if old(all) == [] then text + [NEWLINE] else []
      ensures clock >= old(clock)
    {
      hide Run, Apply, Render;
      ghost var s := St();
      if all == [] {
        WriteNow(text);
        SaidStep(s, text, clock);
        Did(Say(text, clock), s);
        return;
      }
      var t := Timer();
      blocks := blocks[next := Note(text, t)];
      all := all + [next];
      issued := issued + [text];
      next := next + 1;
      SaidStep(s, text, t);
      Did(Say(text, t), s);
    }

    /** control_flush_all_blocks */
    method FlushAll()
      requires Traced() && sent == Render(log) && Queues(St())
      modifies this`sent, this`log, this`all, this`blocks, this`steps
      ensures old(steps) <= steps
      ensures Traced() && St() == Flush(old(St())) && sent == Render(log)
      ensures |sent| >= |old(sent)|
    {
      hide Queues, Render, Flush, Run, Apply;
      ghost var s := St();
      assert all != [] ==> all[0] in blocks by { FirstKnown(St()); }
      while all != [] && blocks[all[0]].Note?
        invariant old(steps) <= steps
        invariant sent == Render(log) && Queues(St()) && |sent| >= |old(sent)|
        invariant Started(start) && s == Run(start, steps)
        invariant all != [] ==> all[0] in blocks
        invariant Flush(St()) == Flush(old(St()))
        decreases |all|
      {
        PopFirst();
        FirstKnown(St());
      }
      FlushDone(St());
      FlushedStep(s);
      Did(Step.WriteLines, s);
    }

    /** One turn of the flush. */
    method PopFirst()
      requires LineFirst(St()) && sent == Render(log) && Queues(St())
      modifies this`sent, this`log, this`all, this`blocks
      ensures St() == PopLine(old(St())) && sent == Render(log) && |sent| >= |old(sent)|
      ensures Queues(St()) && Flush(St()) == Flush(old(St())) && |all| < |old(all)|
    {
      hide Queues, Render, Flush, Run, Apply;
      PopQueues(St());
      FlushStep(St());
      var id := all[0];
      var text := blocks[id].text;
      RenderAppend(log, Line(id, text));
      sent := sent + text;
      sent := sent + [NEWLINE];
      log := log + [Line(id, text)];
      all := all[1..];
      blocks := blocks - {id};
    }

    // ----- Panes

    /** control_add_pane */
    method AddControlPane(p: nat)
      requires Traced() && p in windows
      modifies this`panes, this`trace, this`steps
      ensures old(steps) <= steps
      ensures Traced() && St() == AddPane(old(St()), p) && p in panes
    {
      hide Run;
      ghost var s := St();
      if p in panes {
        return;
      }
      var at := windows[p].offset;
      panes := panes[p := Pane(at, at, false, false, false, [])];
      trace := trace[p := Trace(at, |log|, 0)];
      Did(Know(p), s);
    }

    /** control_free_block */
    method FreeBlock(id: nat)
      modifies this`all, this`blocks
      ensures all == Without(old(all), id) && blocks == old(blocks) - {id}
    {
      all := Without(all, id);
      blocks := blocks - {id};
    }

    /** control_discard_pane */
    method DiscardPane(p: nat)
      requires Traced() && p in panes && p in trace
      modifies this`panes, this`all, this`blocks, this`trace, this`steps
      ensures old(steps) <= steps
      ensures Traced() && p in panes && p in trace && St() == Discard(old(St()), p)
    {
      hide Run, Apply, Discard;
      ghost var s := St();
      DropBlocks(p);
      EmptyStep(s, p);
      Did(Empty(p), s);
    }

    method DropBlocks(p: nat)
      requires p in panes && p in trace
      modifies this`panes, this`all, this`blocks, this`trace
      ensures p in panes && p in trace && St() == Discard(old(St()), p)
    {
      while panes[p].blocks != []
        invariant p in panes && p in trace
        invariant Discard(St(), p) == Discard(old(St()), p)
        decreases |panes[p].blocks|
      {
        ghost var s := St();
        var cp := panes[p];
        var id := cp.blocks[0];
        panes := panes[p := cp.(blocks := cp.blocks[1..])];
        trace := trace[p := trace[p].(lost := trace[p].lost + Size(blocks, id))];
        FreeBlock(id);
        assert St() == DropFirst(s, p);
      }
    }

    /** Both offsets copied from elsewhere. */
    method Resync(p: nat, at: nat)
      requires Traced() && p in panes && p in windows && at <= |windows[p].input|
      modifies this`panes, this`trace, this`steps
      ensures old(steps) <= steps
      ensures Traced() && St() == Restart(old(St()), p, at) && p in panes
      ensures panes[p] == old(panes)[p].(offset := at, queued := at)
    {
      hide Run;
      ghost var s := St();
      panes := panes[p := panes[p].(offset := at, queued := at)];
      trace := trace[p := Trace(at, |log|, 0)];
      Did(StartAt(p, at), s);
    }

    method SetFlags(p: nat, off: bool, paused: bool)
      requires Traced() && p in panes
      modifies this`panes, this`steps
      ensures old(steps) <= steps
      ensures Traced() && St() == Flagged(old(St()), p, off, paused) && p in panes && panes[p].blocks == old(panes)[p].blocks
    {
      hide Run;
      ghost var s := St();
      panes := panes[p := panes[p].(off := off, paused := paused)];
      Did(Flag(p, off, paused), s);
    }

    /** control_set_pane_on */
    method SetPaneOn(p: nat)
      requires Valid() && p in windows
      modifies this`panes, this`trace, this`steps
      ensures old(steps) <= steps
      ensures Valid() && (old(Accounted(St())) ==> Accounted(St()))
      ensures if p in old(panes) && old(panes)[p].off then
                var at := windows[p].offset;
                panes == old(panes)[p := old(panes)[p].(off := false, offset := at, queued := at)]
              else panes == old(panes)
    {
      hide Good, Quiet, Render, Flagged, Restart, Accounted, Run, Apply;
      if p in panes && panes[p].off {
        ghost var s := St();
        SwitchedOn(s, p);
        OffsetInside(s, p);
        SetFlags(p, false, panes[p].paused);
        Resync(p, windows[p].offset);
        assert St() == SwitchOn(s, p);
      }
    }

    /** control_set_pane_off */
    method SetPaneOff(p: nat)
      requires Valid() && p in windows
      modifies this`panes, this`trace, this`all, this`blocks, this`steps
      ensures old(steps) <= steps
      ensures Valid() && (old(Accounted(St())) ==> Accounted(St()))
      ensures p in panes && panes[p].off && panes[p].blocks == [] && panes[p].offset == panes[p].queued == windows[p].offset
      ensures forall q :: q != p ==> (q in panes <==> q in old(panes)) && (q in panes ==> panes[q] == old(panes)[q])
      ensures p in old(panes) ==> panes[p].paused == old(panes)[p].paused && panes[p].listed == old(panes)[p].listed
    {
      hide Good, Quiet, Render, Flagged, Restart, Accounted, AddPane, Run, Apply;
      ghost var s := St();
      AddControlPane(p);
      SwitchedOff(s, p);
      OffsetInside(s, p);
      DiscardPane(p);
      Resync(p, windows[p].offset);
      SetFlags(p, true, panes[p].paused);
      assert St() == SwitchOff(s, p);
    }

    /** control_continue_pane */
    method ContinuePane(p: nat)
      requires Valid() && p in windows
      modifies this`panes, this`trace, this`sent, this`log, this`next, this`issued, this`blocks, this`all, this`clock, this`steps
      ensures old(steps) <= steps
      ensures Valid() && (old(Accounted(St())) ==> Accounted(St()))
      ensures if p in old(panes) && old(panes)[p].paused then
                var at := windows[p].offset;
                && panes == old(panes)[p := old(panes)[p].(paused := false, offset := at, queued := at)]
                && issued == old(issued) + [ContinueText(p)]
              else St() == old(St())
    {
      hide Good, Quiet, Render, Flagged, Restart, Accounted, WriteLine, Run, Apply;
      if p in panes && panes[p].paused {
        ghost var s := St();
        Continued(s, p);
        OffsetInside(s, p);
        SetFlags(p, panes[p].off, false);
        Resync(p, windows[p].offset);
        ghost var t := St();
        assert t == Continue(s, p);
        Write(ContinueText(p));
        WrittenKeeps(t, ContinueText(p), clock);
      }
    }

    /** control_pause_pane */
    method PausePane(p: nat)
      requires Valid() && p in windows
      modifies this`panes, this`trace, this`sent, this`log, this`next, this`issued, this`blocks, this`all, this`clock, this`steps
      ensures old(steps) <= steps
      ensures Valid() && (old(Accounted(St())) ==> Accounted(St()))
      ensures p in panes && panes[p].paused && panes[p].blocks == []
      ensures p in old(panes) ==> panes[p] == old(panes)[p].(paused := true, blocks := [])
      ensures forall q :: q != p ==> (q in panes <==> q in old(panes)) && (q in panes ==> panes[q] == old(panes)[q])
      ensures issued == old(issued) + if p in old(panes) && old(panes)[p].paused then [] else [PauseText(p)]
    {
      hide Good, Quiet, Render, Flagged, Accounted, WriteLine, AddPane, Run, Apply;
      ghost var s := St();
      AddControlPane(p);
      AddedPane(s, p);
      ghost var t := St();
      if !panes[p].paused {
        Suspended(t, p);
        assert p in trace;
        SetFlags(p, panes[p].off, true);
        DiscardPane(p);
        assert St() == Suspend(t, p);
        Write(PauseText(p));
        WrittenKeeps(Suspend(t, p), PauseText(p), clock);
      }
    }

    /** control_discard */
    method DiscardAll()
      requires Traced() && Good(St()) && Quiet(St())
      modifies this`panes, this`all, this`blocks, this`trace, this`steps
      ensures old(steps) <= steps
      ensures Traced() && Good(St()) && Quiet(St()) && Cleared(old(St()), St(), old(panes).Keys)
      ensures (Accounted(St()) <==> old(Accounted(St()))) && Queued(St()) <= old(Queued(St()))
    {
      hide Good, Quiet, Accounted, Queued, Cleared, Discard, Run, Apply;
      ghost var s := St();
      var todo := panes.Keys;
      ghost var done: set<nat> := {};
      ClearedNone(s);
      while todo != {}
        invariant old(steps) <= steps
        invariant Traced() && Good(St()) && Quiet(St()) && Cleared(s, St(), done)
        invariant done + todo == s.panes.Keys && panes.Keys == s.panes.Keys
        invariant (Accounted(St()) <==> Accounted(s)) && Queued(St()) <= Queued(s)
      {
        var p :| p in todo;
        ghost var t := St();
        ClearedMore(s, t, done, p);
        DiscardPane(p);
        KeysOf(s, St(), done + {p});
        todo := todo - {p};
        done := done + {p};
      }
      assert done == s.panes.Keys;
    }

    /** control_reset_offsets */
    method ResetOffsets()
      requires Valid()
      modifies this`panes, this`all, this`blocks, this`trace, this`pending, this`count, this`steps
      ensures old(steps) <= steps
      ensures Valid() && Accounted(St()) && panes == map[] && pending == [] && count == 0
      ensures Stored(all, blocks) == old(Stored(all, blocks)) && forall id :: id in blocks ==> blocks[id].Note?
    {
      hide Good, Quiet, Accounted, Render, Queued, Stored, Run, Apply;
      ghost var s := St();
      DiscardAll();
      ghost var t := St();
      assert Queues(t) by { QueuesOf(t); }
      ClearedAll(s, t);
      ResetKeeps(t);
      assert Fifo(s) && Fifo(t) by { FifoOf(s); FifoOf(t); }
      assert t.log == s.log && t.issued == s.issued;
      SameStored(s, t);
      ForgetPanes();
    }

    /** The end of control_reset_offsets. */
    method ForgetPanes()
      requires Traced() && forall id :: id in blocks ==> blocks[id].Note?
      modifies this`panes, this`trace, this`pending, this`count, this`steps
      ensures old(steps) <= steps
      ensures Traced() && St() == old(St()).(panes := map[], trace := map[], pending := [], count := 0)
    {
      hide Run, Apply;
      ghost var s := St();
      panes, trace := map[], map[];
      pending, count := [], 0;
      ResetStep(s);
      Did(Step.Reset, s);
    }

    // ----- How far behind a pane may fall

    /** The message being built is thrown away. */
    ghost method ForgetMessage(p: nat, half: bool)
      requires Traced() && Good(St()) && Quiet(St()) && p in panes
      requires half ==> Half(St(), p) && sent == Render(log[..|log| - 1])
      requires !half ==> sent == Render(log)
      modifies this`log, this`trace, this`steps
      ensures old(steps) <= steps
      ensures Traced() && Good(St()) && Quiet(St()) && sent == Render(log)
      ensures (Accounted(St()) <==> old(Accounted(St()))) && Queued(St()) == old(Queued(St()))
      ensures log == if half then old(log)[..|old(log)| - 1] else old(log)
    {
      hide Good, Accounted, Render, Run, Apply;
      if half {
        ghost var s := St();
        KnownGood(s);
        ForgetKeeps(s, p);
        log := log[..|log| - 1];
        trace := trace[p := Trace(panes[p].offset, |log|, trace[p].lost)];
        assert St() == Forget(s, p);
        ForgotStep(s, p);
        Did(Step.GiveUp(p), s);
      }
    }

    /** control_check_age for a client that asked for panes to be paused. */
    method PauseLate(p: nat, ghost half: bool)
      requires Traced() && Good(St()) && Quiet(St()) && p in panes
      requires half ==> Half(St(), p) && sent == Render(log[..|log| - 1])
      requires !half ==> sent == Render(log)
      modifies this`clock, this`panes, this`blocks, this`all, this`next, this`log, this`trace, this`issued, this`sent, this`steps
      ensures old(steps) <= steps
      ensures clock >= old(clock)
      ensures Traced() && Good(St()) && Quiet(St()) && sent == Render(log) && |sent| >= |old(sent)|
      ensures (Accounted(St()) <==> old(Accounted(St()))) && Queued(St()) <= old(Queued(St()))
      ensures Extends(log, if half then old(log)[..|old(log)| - 1] else old(log))
      ensures panes == old(panes)[p := old(panes)[p].(paused := true, blocks := [])]
      ensures issued == old(issued) + [PauseText(p)]
    {
      hide Good, Quiet, Accounted, Queued, Render, Flagged, WriteLine, Half, Forget, Extends, Run, Apply;
      ForgetMessage(p, half);
      ghost var u := St();
      Suspended(u, p);
      SetFlags(p, panes[p].off, true);
      DiscardPane(p);
      assert St() == Suspend(u, p);
      Write(PauseText(p));
      WrittenKeeps(Suspend(u, p), PauseText(p), clock);
    }

    /** control_check_age for other clients: too far behind. */
    method GiveUp(p: nat, ghost half: bool)
      requires Traced() && Good(St()) && Quiet(St()) && p in panes
      requires half ==> Half(St(), p) && sent == Render(log[..|log| - 1])
      requires !half ==> sent == Render(log)
      modifies this`panes, this`blocks, this`all, this`log, this`trace, this`exit, this`steps
      ensures old(steps) <= steps
      ensures Traced() && Good(St()) && Quiet(St()) && sent == Render(log) && exit
      ensures (Accounted(St()) <==> old(Accounted(St()))) && Queued(St()) <= old(Queued(St()))
      ensures Extends(log, if half then old(log)[..|old(log)| - 1] else old(log))
      ensures panes.Keys == old(panes).Keys
      ensures forall q :: q in panes ==> panes[q] == old(panes)[q].(blocks := [])
    {
      hide Good, Quiet, Accounted, Queued, Render, Half, Extends, Cleared, Run, Apply;
      exit := true;
      ForgetMessage(p, half);
      ExtendsSelf(log);
      ghost var s := St();
      DiscardAll();
      ClearedPanes(s, St());
    }

    /** Between two steps of control_write_pending. */
    ghost predicate Working(p: nat, message: Buffer)
      reads this
    {
      && Traced() && Good(St()) && Quiet(St()) && Accounted(St()) && Sending(log, sent, message)
      && (message.Building? ==> Half(St(), p))
    }

    /** control_check_age; `half` says that a message of this pane is being built, which
        the caller throws away when the pane is too far behind. */
    method CheckAge(p: nat, ghost half: bool) returns (late: bool)
      requires Traced() && Good(St()) && Quiet(St()) && p in panes
      requires half ==> Half(St(), p) && sent == Render(log[..|log| - 1])
      requires !half ==> sent == Render(log)
      modifies this`clock, this`panes, this`blocks, this`all, this`next, this`log, this`trace, this`issued, this`sent, this`exit,
        this`steps
      ensures old(steps) <= steps
      ensures clock >= old(clock)
      ensures late <==> old(panes)[p].blocks != [] && old(panes)[p].blocks[0] in old(blocks) &&
                        Behind(clock, old(blocks)[old(panes)[p].blocks[0]].t, if pauseAfter then pauseAge else MAXIMUM_AGE)
      ensures !late ==> St() == old(St()) && sent == old(sent) && exit == old(exit)
      ensures Traced() && (late ==> Good(St()) && Quiet(St()) && sent == Render(log)) && (late ==> |sent| >= |old(sent)|)
      ensures late ==> (Accounted(St()) <==> old(Accounted(St()))) && Queued(St()) <= old(Queued(St()))
      ensures late ==> Extends(log, if half then old(log)[..|old(log)| - 1] else old(log))
      ensures late && pauseAfter ==> panes == old(panes)[p := old(panes)[p].(paused := true, blocks := [])]
      ensures late && pauseAfter ==> issued == old(issued) + [PauseText(p)] && exit == old(exit)
      ensures late && !pauseAfter ==> exit && issued == old(issued) && panes.Keys == old(panes).Keys
      ensures late && !pauseAfter ==> forall q :: q in panes ==> panes[q] == old(panes)[q].(blocks := [])
    {
      hide Traced, Good, Quiet, Accounted, Queued, Render, Half, Extends, Cleared, Run, Apply;
      if panes[p].blocks == [] {
        return false;
      }
      ghost var s := St();
      FirstBlock(s, p);
      var cb := blocks[panes[p].blocks[0]];
      var t := Timer();
      if cb.t >= t {
        return false;
      }
      var age := t - cb.t;
      if pauseAfter {
        if age < pauseAge {
          return false;
        }
        PauseLate(p, half);
      } else {
        if age < MAXIMUM_AGE {
          return false;
        }
        GiveUp(p, half);
      }
      late := true;
    }

    // ----- Queueing output

    /** window_pane_update_used_data on both offsets: what the pane wrote is passed over. */
    method IgnoreOutput(p: nat)
      requires Valid() && p in panes && p in windows
      modifies this`panes, this`trace, this`steps
      ensures old(steps) <= steps
      ensures Valid() && St() == Restart(old(St()), p, |windows[p].input|)
      ensures p in panes && panes[p].off == old(panes)[p].off && panes[p].paused == old(panes)[p].paused
      ensures old(Accounted(St())) ==> (Accounted(St()) <==> old(panes)[p].blocks == [])
    {
      hide Good, Quiet, Accounted, Render, Restart, Run, Apply;
      ghost var s := St();
      RestartKeeps(s, p, |windows[p].input|);
      RestartQuiet(s, p, |windows[p].input|);
      Resync(p, |windows[p].input|);
    }

    /** control_write_output, at the time `seen`. The account of what is queued is lost exactly when output is
        ignored with blocks of the pane still queued. */
    method WriteOutput(p: nat) returns (ghost late: bool, ghost seen: nat)
      requires Valid() && p in windows
      modifies this`clock, this`panes, this`blocks, this`all, this`next, this`log, this`trace, this`issued, this`sent, this`exit,
        this`pending, this`count, this`steps
      ensures old(steps) <= steps
      ensures Valid()
      ensures old(Accounted(St())) ==>
                (Accounted(St()) <==>
                 !(p in linked && (ignoring || old(exit)) && p in old(panes) && old(panes)[p].blocks != []))
      ensures p !in linked ==> St() == old(St())
      ensures p in linked && (ignoring || old(exit)) ==>
                St() == if p in old(panes) then Restart(old(St()), p, |windows[p].input|) else old(St())
      ensures p in linked && !ignoring && !old(exit) && p in old(panes) && (old(panes)[p].off || old(panes)[p].paused) ==>
                St() == Restart(old(St()), p, |windows[p].input|)
      ensures late <==>
                && p in linked && !ignoring && !old(exit) && p in old(panes) && !old(panes)[p].off && !old(panes)[p].paused
                && old(panes)[p].blocks != [] && old(panes)[p].blocks[0] in old(blocks)
                && Behind(seen, old(blocks)[old(panes)[p].blocks[0]].t, if pauseAfter then pauseAge else MAXIMUM_AGE)
      ensures old(clock) <= seen <= clock
      ensures late && pauseAfter ==>
                && panes == old(panes)[p := old(panes)[p].(paused := true, blocks := [])]
                && issued == old(issued) + [PauseText(p)] && exit == old(exit)
      ensures late && !pauseAfter ==>
                && exit && issued == old(issued) && panes.Keys == old(panes).Keys
                && forall q :: q in panes ==> panes[q] == old(panes)[q].(blocks := [])
      ensures late ==> Extends(log, old(log))
      ensures p in linked && !ignoring && !old(exit) && !late
              && (p in old(panes) ==> !old(panes)[p].paused && !old(panes)[p].off) ==>
                p in panes && Queueing(AddPane(old(St()), p), St(), p, clock)
    {
      hide Good, Quiet, Accounted, Queued, Render, Restart, AddPane, Extends, Half, Run, Apply;
      late, seen := false, clock;
      if p !in linked {
        return;
      }
      if ignoring || exit {
        if p in panes {
          IgnoreOutput(p);
        }
        return;
      }
      ghost var s := St();
      AddedPane(s, p);
      AddControlPane(p);
      if panes[p].off || panes[p].paused {
        IgnoreOutput(p);
        return;
      }
      late, seen := AgedOutput(p);
    }

    /** Output of a pane that is neither off nor paused, unless it is too far behind. */
    method AgedOutput(p: nat) returns (ghost late: bool, ghost seen: nat)
      requires Valid() && p in panes && !panes[p].off && !panes[p].paused && p in windows
      modifies this`clock, this`panes, this`blocks, this`all, this`next, this`log, this`trace, this`issued, this`sent, this`exit,
        this`pending, this`count, this`steps
      ensures old(steps) <= steps
      ensures Valid() && (Accounted(St()) <==> old(Accounted(St()))) && old(clock) <= seen <= clock
      ensures late <==>
                && old(panes)[p].blocks != [] && old(panes)[p].blocks[0] in old(blocks)
                && Behind(seen, old(blocks)[old(panes)[p].blocks[0]].t, if pauseAfter then pauseAge else MAXIMUM_AGE)
      ensures late && pauseAfter ==>
                && panes == old(panes)[p := old(panes)[p].(paused := true, blocks := [])]
                && issued == old(issued) + [PauseText(p)] && exit == old(exit)
      ensures late && !pauseAfter ==>
                && exit && issued == old(issued) && panes.Keys == old(panes).Keys
                && forall q :: q in panes ==> panes[q] == old(panes)[q].(blocks := [])
      ensures late ==> Extends(log, old(log))
      ensures !late ==> p in panes && Queueing(old(St()), St(), p, clock)
    {
      hide Good, Quiet, Accounted, Queued, Render, Extends, Half, Behind, Run, Apply;
      var behind := CheckAge(p, false);
      late, seen := behind, clock;
      if behind {
        return;
      }
      QueueNew(p);
    }

    /** The end of control_write_output. */
    method QueueNew(p: nat)
      requires Valid() && p in panes && !panes[p].off && !panes[p].paused && p in windows
      modifies this`clock, this`panes, this`blocks, this`all, this`next, this`pending, this`count, this`steps
      ensures old(steps) <= steps
      ensures Valid() && (Accounted(St()) <==> old(Accounted(St()))) && p in panes && !panes[p].paused && !panes[p].off
      ensures clock >= old(clock) && Queueing(old(St()), St(), p, clock)
    {
      hide Good, Quiet, Accounted, Queued, Render, Run, Apply;
      ghost var s := St();
      QueuedInside(s, p);
      var new_size := |windows[p].input| - panes[p].queued;
      if new_size == 0 {
        return;
      }
      var t := Timer();
      EnqueueOne(s, p, new_size, t);
      InsertBlock(p, new_size, t);
      QueuedStep(s, p, new_size, t);
      Did(Queue(p, new_size, t), s);
    }

    /** A new block of output at the end of both queues. */
    method InsertBlock(p: nat, n: nat, t: nat)
      requires p in panes
      modifies this`panes, this`blocks, this`all, this`next, this`pending, this`count
      ensures St() == Enqueue(old(St()), p, n, t)
      ensures p in panes && panes[p].off == old(panes)[p].off && panes[p].paused == old(panes)[p].paused
    {
      var cp := panes[p].(queued := panes[p].queued + n);
      var cb := next;
      next := next + 1;
      blocks := blocks[cb := Data(p, n, t)];
      all := all + [cb];
      cp := cp.(blocks := cp.blocks + [cb]);
      if !cp.listed {
        pending := pending + [p];
        cp := cp.(listed := true);
        count := count + 1;
      }
      panes := panes[p := cp];
    }

    // ----- The panes of the server

    /** A pane writes more, as window_pane_read_callback sees it, and the window later makes
        use of some of it. */
    method Receive(p: nat, data: seq<byte>, used: nat)
      requires Valid() && p in windows && windows[p].offset <= used <= |windows[p].input| + |data|
      modifies this`windows, this`steps
      ensures old(steps) <= steps
      ensures Valid() && (Accounted(St()) <==> old(Accounted(St())))
      ensures windows == old(windows)[p := WindowPane(old(windows)[p].input + data, used)]
    {
      hide Good, Quiet, Accounted, Render, Run, Apply;
      ReceiveKeeps(St(), p, data, used);
      windows := windows[p := WindowPane(windows[p].input + data, used)];
      assert St() == Grown(old(St()), p, data, used);
      GrownStep(old(St()), p, data, used);
      Did(Grow(p, data, used), old(St()));
    }

    // ----- Writing output

    /** The kind of message a client is sent. */
    function Head(age: nat): Heading
      reads this`pauseAfter
    {
      if pauseAfter then Aged(age) else Simple
    }

    /** control_append_data */
    method AppendData(p: nat, age: nat, message: Buffer, size: nat) returns (m: Buffer)
      requires Good(St()) && Sending(log, sent, message) && CanTake(St(), p, size)
      requires message.Building? ==> Half(St(), p)
      modifies this`panes, this`log
      ensures m.Building? && Sending(log, sent, m)
      ensures var s := if message.Building? then old(St()) else Begin(old(St()), p, Head(age));
              s.log != [] && s.log[|s.log| - 1].Message? && CanTake(s, p, size) && St() == Append(s, p, size)
    {
      hide Good, Render, Rendered, Size, Run, Apply;
      var bytes;
      if message == Nothing {
        bytes := Header(Head(age), p);
        BeginRendered(log, p, Head(age));
        log := log + [Message(p, Head(age), [])];
      } else {
        bytes := message.bytes;
      }
      ghost var s := St();
      assert Sending(log, sent, Building(bytes));
      var cp := panes[p];
      var new_data := windows[p].input[cp.offset..];
      var new_size := |new_data|;
      assert new_size >= size;
      ghost var was := bytes;
      bytes := AppendEscaped(bytes, new_data[..size]);
      ghost var k := |log| - 1;
      ghost var part := Part(cp.blocks[0], windows[p].input[cp.offset..cp.offset + size]);
      assert part.data == new_data[..size];
      ExtendedRendered(log[k], part, was, bytes);
      log := log[..k] + [Extended(log[k], part)];
      panes := panes[p := cp.(offset := cp.offset + size)];
      m := Building(bytes);
      assert St() == Append(s, p, size);
    }

    /** control_write_data */
    method WriteData(message: Buffer)
      requires message.Building? && Sending(log, sent, message)
      modifies this`sent
      ensures sent == Render(log) && |sent| > |old(sent)|
    {
      hide Header, Escape;
      assert log == log[..|log| - 1] + [log[|log| - 1]];
      RenderAppend(log[..|log| - 1], log[|log| - 1]);
      sent := sent + (message.bytes + [NEWLINE]);
    }

    /** Bytes of the first block of a pane go into the message; a block used up leaves both
        queues. */
    method TakeBytes(p: nat, age: nat, message: Buffer, size: nat) returns (m: Buffer)
      requires Traced() && Good(St()) && Quiet(St()) && Sending(log, sent, message) && CanTake(St(), p, size)
      requires message.Building? ==> Half(St(), p)
      modifies this`panes, this`log, this`blocks, this`all, this`steps
      ensures old(steps) <= steps
      ensures Traced() && Good(St()) && Quiet(St()) && (Accounted(St()) <==> old(Accounted(St())))
      ensures m.Building? && Sending(log, sent, m) && Half(St(), p)
      ensures message == Nothing ==> |old(steps)| < |steps| && steps[|old(steps)|] == Open(p, Head(age))
      ensures Taken(old(St()), St(), p, size)
      ensures Written(log, m) == Written(old(log), message)
      ensures size < Size(old(blocks), old(panes)[p].blocks[0]) ==> (LineFirst(St()) <==> LineFirst(old(St())))
    {
      hide Good, Quiet, Accounted, Render, Half, Taken, LineFirst, Sending, Begin, Take, Run, Apply;
      ghost var s := St();
      ghost var head := Head(age);
      ghost var b := if message.Building? then s else Begin(s, p, head);
      m := TakeInto(p, age, message, size);
      PutSteps(s, b, p, size, head, message == Nothing);
      if message == Nothing {
        RunMore(start, steps, Open(p, head));
        steps := steps + [Open(p, head)];
      }
      Did(Step.Put(p, size), b);
    }

    method TakeInto(p: nat, age: nat, message: Buffer, size: nat) returns (m: Buffer)
      requires Good(St()) && Quiet(St()) && Sending(log, sent, message) && CanTake(St(), p, size)
      requires message.Building? ==> Half(St(), p)
      modifies this`panes, this`log, this`blocks, this`all
      ensures Good(St()) && Quiet(St()) && (Accounted(St()) <==> old(Accounted(St())))
      ensures m.Building? && Sending(log, sent, m) && Half(St(), p)
      ensures Taken(old(St()), St(), p, size)
      ensures Took(if message.Building? then old(St()) else Begin(old(St()), p, Head(age)), St(), p, size)
      ensures Written(log, m) == Written(old(log), message)
      ensures size < Size(old(blocks), old(panes)[p].blocks[0]) ==> (LineFirst(St()) <==> LineFirst(old(St())))
    {
      hide Good, Quiet, Accounted, Render, Rendered, Append, Half, Queued, Sum, Shrink, LineFirst;
      ghost var s := St();
      ghost var b := if message.Building? then s else Begin(s, p, Head(age));
      if message == Nothing {
        KnownGood(s);
        BeginKeeps(s, p, Head(age));
        BeginTake(s, p, Head(age), size);
        QuietBegin(s, p, Head(age));
      }
      m := AppendData(p, age, message, size);
      TakeKeeps(b, p, size);
      QuietTake(b, p, size);
      TakeTaken(s, b, p, size);
      if size < Size(s.blocks, s.panes[p].blocks[0]) {
        TakeFront(s, b, p, size);
      }
      FirstBlock(b, p);
      AppendSame(b, p, size);
      ShrinkBlock(p, size);
    }

    /** A block is that much smaller; when nothing of it is left it is taken off both
        queues and freed. */
    method ShrinkBlock(p: nat, size: nat)
      requires p in panes && p in trace && panes[p].blocks != [] && panes[p].blocks[0] in blocks
      requires blocks[panes[p].blocks[0]].Data? && size <= blocks[panes[p].blocks[0]].size
      modifies this`panes, this`blocks, this`all
      ensures St() == Shrink(old(St()), p, size)
    {
      var id := panes[p].blocks[0];
      var cb := blocks[id];
      if cb.size - size == 0 {
        panes := panes[p := panes[p].(blocks := panes[p].blocks[1..])];
        FreeBlock(id);
      } else {
        blocks := blocks[id := cb.(size := cb.size - size)];
      }
    }

    /** One block, or as much of it as there is room for; when that was all of it and lines
        are next in the queue, the message is finished and they are written. */
    method WriteBlock(p: nat, t: nat, message: Buffer, room: nat) returns (m: Buffer, size: nat)
      requires Traced() && Good(St()) && Quiet(St()) && Accounted(St()) && Sending(log, sent, message)
      requires message.Building? ==> Half(St(), p)
      requires p in panes && panes[p].blocks != [] && room > 0
      modifies this`panes, this`log, this`blocks, this`all, this`sent, this`steps
      ensures old(steps) <= steps
      ensures Traced() && Good(St()) && Quiet(St()) && Accounted(St()) && Sending(log, sent, m)
      ensures m.Building? ==> Half(St(), p)
      ensures message == Nothing ==>
                && |old(steps)| < |steps| && old(panes)[p].blocks[0] in old(blocks)
                && var since := old(blocks)[old(panes)[p].blocks[0]].t;
                   steps[|old(steps)|] == Open(p, Head(if since < t then t - since else 0))
      ensures 0 < size <= room && Taken(old(St()), St(), p, size)
      ensures Extends(Written(log, m), Written(old(log), message)) && |sent| >= |old(sent)|
      ensures LineFirst(St()) ==> LineFirst(old(St()))
    {
      hide Good, Quiet, Accounted, Half, Queued, Sum, Render, Rendered, LineFirst, Extends, Taken, Run, Apply;
      ghost var s := St();
      FirstBlock(s, p);
      EnoughToTake(s, p);
      var cb := blocks[panes[p].blocks[0]];
      var age := if cb.t < t then t - cb.t else 0;
      size := if cb.size > room then room else cb.size;
      m := TakeBytes(p, age, message, size);
      ExtendsSelf(Written(log, m));
      if cb.size == size {
        m := WriteLines(p, m, s, size);
      }
    }

    /** With a block gone, the lines that waited for it are written, after what has been
        built. */
    method WriteLines(p: nat, message: Buffer, ghost s: State, ghost n: nat) returns (m: Buffer)
      requires Traced() && Good(St()) && Quiet(St()) && Accounted(St()) && Sending(log, sent, message)
      requires message.Building? && Half(St(), p) && Taken(s, St(), p, n)
      modifies this`log, this`blocks, this`all, this`sent, this`steps
      ensures old(steps) <= steps
      ensures Traced() && Good(St()) && Quiet(St()) && Accounted(St()) && Sending(log, sent, m)
      ensures m.Building? ==> Half(St(), p)
      ensures m == if LineFirst(old(St())) then Nothing else message
      ensures St() == if LineFirst(old(St())) then Flush(old(St())) else old(St())
      ensures Taken(s, St(), p, n) && Extends(Written(log, m), Written(old(log), message)) && |sent| >= |old(sent)|
      ensures !LineFirst(St())
    {
      hide Good, Quiet, Accounted, Half, Taken, Render, Rendered, Flush, Extends, Run, Apply;
      m := message;
      ghost var u := St();
      ExtendsSelf(Written(log, m));
      QueuesOf(u);
      FirstKnown(u);
      if all != [] && blocks[all[0]].Note? {
        WriteData(m);
        m := Nothing;
        FlushTaken(s, u, p, n);
        FlushAll();
        ExtendsTail(log, u.log);
      }
    }

    /** control_write_pending for a pane that is gone. */
    method WriteDead(p: nat)
      requires Valid() && Accounted(St()) && p in panes
      modifies this`panes, this`blocks, this`all, this`log, this`trace, this`sent, this`steps
      ensures old(steps) <= steps
      ensures Valid() && Accounted(St()) && Queued(St()) <= old(Queued(St()))
      ensures panes == old(panes)[p := old(panes)[p].(blocks := [])]
      ensures Extends(log, old(log)) && |sent| >= |old(sent)| && !LineFirst(St())
    {
      hide Good, Quiet, Accounted, Queued, Render, Discard, Flush, Extends, LineFirst, Run, Apply;
      DiscardDead(St(), p);
      DiscardPane(p);
      FlushAll();
    }

    /** One turn of the loop of control_write_pending. */
    method WriteTurn(p: nat, t: nat, message: Buffer, room: nat) returns (m: Buffer, size: nat, late: bool)
      requires Working(p, message) && p in panes && panes[p].blocks != [] && room > 0
      modifies this`clock, this`panes, this`blocks, this`all, this`next, this`log, this`trace, this`issued, this`sent, this`exit,
        this`steps
      ensures old(steps) <= steps
      ensures Working(p, m)
      ensures Extends(Written(log, m), Written(old(log), message)) && |sent| >= |old(sent)|
      ensures !late ==> 0 < size <= room && Taken(old(St()), St(), p, size) && exit == old(exit)
      ensures !late && LineFirst(St()) ==> LineFirst(old(St()))
      ensures late ==> m == Nothing && size == 0 && Stopped(old(St()), St(), p) && p in panes && if pauseAfter then panes[p].paused else exit
    {
      hide Good, Quiet, Accounted, Half, Queued, Sum, Render, Rendered, Taken, Extends, Behind, LineFirst, Run, Apply;
      ghost var s := St();
      HalfSends(s, p, message, sent);
      late := CheckAge(p, message.Building?);
      if late {
        return Nothing, 0, true;
      }
      m, size := WriteBlock(p, t, message, room);
    }

    /** control_write_pending: at most `limit` bytes of a pane, fewer only when it has no
        more or has fallen too far behind. */
    method WritePending(p: nat, limit: nat) returns (more: bool, ghost behind: bool)
      requires Valid() && Accounted(St()) && p in panes && limit > 0
      modifies this`clock, this`panes, this`blocks, this`all, this`next, this`log, this`trace, this`issued, this`sent, this`exit,
        this`steps
      ensures old(steps) <= steps
      ensures Valid() && Accounted(St())
      ensures panes.Keys == old(panes).Keys && (forall q :: q in panes && q != p ==> panes[q].offset == old(panes)[q].offset)
      ensures more <==> panes[p].blocks != []
      ensures old(panes)[p].offset <= panes[p].offset <= old(panes)[p].offset + limit
      ensures Queued(St()) + panes[p].offset <= old(Queued(St())) + old(panes)[p].offset
      ensures more ==> panes[p].offset == old(panes)[p].offset + limit
      ensures p in linked && p !in exited && !behind ==>
                && issued == old(issued) && exit == old(exit)
                && panes[p].offset == old(panes)[p].offset + Least(limit, old(Sum(panes[p].blocks, blocks)))
                && forall q :: q in panes && q != p ==> panes[q] == old(panes)[q]
      ensures behind ==> panes[p].blocks == [] && if pauseAfter then panes[p].paused else exit
      ensures !behind && LineFirst(St()) ==> LineFirst(old(St()))
      ensures !(p in linked && p !in exited) ==> panes == old(panes)[p := old(panes)[p].(blocks := [])] && !behind
      ensures Extends(log, old(log)) && |sent| >= |old(sent)|
    {
      hide Traced, Good, Quiet, Accounted, Queued, Sum, Render, Extends, LineFirst, Least;
      var t := Timer();
      if p in linked && p !in exited {
        more, behind := WriteLive(p, t, limit);
      } else {
        WriteDead(p);
        more, behind := false, false;
      }
    }

    /** The same for a pane that is there. */
    method WriteLive(p: nat, t: nat, limit: nat) returns (more: bool, ghost behind: bool)
      requires Valid() && Accounted(St()) && p in panes && limit > 0
      modifies this`clock, this`panes, this`blocks, this`all, this`next, this`log, this`trace, this`issued, this`sent, this`exit,
        this`steps
      ensures old(steps) <= steps
      ensures Valid() && Accounted(St())
      ensures panes.Keys == old(panes).Keys && (forall q :: q in panes && q != p ==> panes[q].offset == old(panes)[q].offset)
      ensures more <==> panes[p].blocks != []
      ensures old(panes)[p].offset <= panes[p].offset <= old(panes)[p].offset + limit
      ensures Queued(St()) + panes[p].offset <= old(Queued(St())) + old(panes)[p].offset
      ensures more ==> panes[p].offset == old(panes)[p].offset + limit
      ensures !behind ==>
                && issued == old(issued) && exit == old(exit)
                && panes[p].offset == old(panes)[p].offset + Least(limit, old(Sum(panes[p].blocks, blocks)))
                && forall q :: q in panes && q != p ==> panes[q] == old(panes)[q]
      ensures behind ==> panes[p].blocks == [] && if pauseAfter then panes[p].paused else exit
      ensures !behind && LineFirst(St()) ==> LineFirst(old(St()))
      ensures Extends(log, old(log)) && |sent| >= |old(sent)|
    {
      hide Traced, Sending, Working, Good, Quiet, Accounted, Half, Queued, Sum, Render, Rendered, Taken, Stopped, Extends,
        LineFirst, Run, Apply;
      ghost var s := St();
      behind := false;
      var message, used, late := WriteBlocks(p, t, limit);
      if late {
        NothingBuilt(p);
        return false, true;
      }
      TakenPanes(s, St(), p, used);
      FinishMessage(p, message, s.log);
      more := panes[p].blocks != [];
      SumOfNone(s, St(), p, used);
    }

    lemma NothingBuilt(p: nat)
      requires Working(p, Nothing) && drained <= |sent|
      ensures Valid() && Accounted(St())
    {
    }

    /** What has been built is written. */
    method FinishMessage(p: nat, message: Buffer, ghost was: seq<Event>)
      requires Working(p, message) && drained <= |sent| && Extends(Written(log, message), was)
      modifies this`sent
      ensures Valid() && Accounted(St()) && Extends(log, was) && |sent| >= |old(sent)|
    {
      hide Good, Quiet, Accounted, Half, Render, Rendered, Extends, Run, Apply;
      if message.Building? {
        ExtendsOne(was, log);
        WriteData(message);
      }
    }

    /** The loop of control_write_pending. */
    method WriteBlocks(p: nat, t: nat, limit: nat) returns (message: Buffer, used: nat, late: bool)
      requires Valid() && Accounted(St()) && p in panes
      modifies this`clock, this`panes, this`blocks, this`all, this`next, this`log, this`trace, this`issued, this`sent, this`exit,
        this`steps
      ensures old(steps) <= steps
      ensures Working(p, message) && used <= limit && p in panes && panes.Keys == old(panes).Keys
      ensures Extends(Written(log, message), old(log)) && |sent| >= |old(sent)|
      ensures !late ==> Taken(old(St()), St(), p, used) && exit == old(exit) && (used == limit || panes[p].blocks == [])
      ensures late ==> message == Nothing && panes[p].blocks == [] && if pauseAfter then panes[p].paused else exit
      ensures !late && LineFirst(St()) ==> LineFirst(old(St()))
      ensures late ==> panes[p].offset == old(panes)[p].offset + used
      ensures late ==> forall q :: q in panes && q != p ==> panes[q].offset == old(panes)[q].offset
      ensures Queued(St()) + used <= old(Queued(St()))
    {
      hide Good, Quiet, Accounted, Half, Queued, Sum, Render, Rendered, Taken, Stopped, Extends, LineFirst, Run, Apply;
      ghost var s := St();
      message, used, late := Nothing, 0, false;
      TakenNone(s, p);
      TakenPanes(s, s, p, 0);
      ExtendsSelf(log);
      hide Working, Written;
      while used != limit && panes[p].blocks != []
        invariant old(steps) <= steps
        invariant used <= limit && p in panes && Working(p, message) && panes.Keys == old(panes).Keys
        invariant Taken(s, St(), p, used) && exit == old(exit) && Queued(St()) + used <= old(Queued(St()))
        invariant Extends(Written(log, message), s.log) && |sent| >= |old(sent)|
        invariant LineFirst(St()) ==> LineFirst(s)
        decreases limit - used
      {
        ghost var u := St();
        TakenPanes(s, u, p, used);
        var m, size, stop := WriteTurn(p, t, message, limit - used);
        ExtendsMore(s.log, Written(u.log, message), Written(log, m));
        if stop {
          StoppedPanes(u, St(), p);
          return m, used, true;
        }
        TakenMore(s, u, St(), p, used, size);
        TakenPanes(s, St(), p, used + size);
        message := m;
        used := used + size;
      }
    }

    /** One pane's turn: it stays on the pending list while it has more. */
    method ServePane(i: nat, limit: nat) returns (more: bool, ghost behind: bool)
      requires Valid() && Accounted(St()) && i < |pending| && limit > 0
      modifies this`clock, this`panes, this`blocks, this`all, this`next, this`log, this`trace, this`issued, this`sent, this`exit,
        this`pending, this`count, this`steps
      ensures old(steps) <= steps
      ensures Valid() && Accounted(St()) && Served(old(St()), St())
      ensures more ==> Queued(St()) < old(Queued(St())) && pending == old(pending)
      ensures !more ==> pending == old(pending)[..i] + old(pending)[i + 1..]
      ensures forall q :: q in panes && q != old(pending)[i] ==> panes[q].offset == old(panes)[q].offset
      ensures forall q :: q in panes ==> panes[q].offset <= old(panes)[q].offset + limit
      ensures !behind && LineFirst(St()) ==> LineFirst(old(St()))
      ensures |sent| >= |old(sent)|
    {
      hide Good, Quiet, Accounted, Queued, Render, Extends, LineFirst, Served, Run, Apply;
      ghost var s := St();
      ListedAt(s, i);
      var p := pending[i];
      more, behind := WritePending(p, limit);
      ghost var t := St();
      ServedWritten(s, t, p);
      if more {
        return;
      }
      UnlistKeeps(t, i);
      UnlistFront(t, i);
      ServedUnlist(s, t, i);
      UnlistPane(i);
    }

    /** A pane that has nothing more leaves the pending list. */
    method UnlistPane(i: nat)
      requires Traced() && i < |pending| && pending[i] in panes && count > 0 && panes[pending[i]].blocks == []
      modifies this`pending, this`panes, this`count, this`steps
      ensures old(steps) <= steps
      ensures Traced() && St() == Unlist(old(St()), i)
    {
      hide Run, Apply;
      ghost var s := St();
      var p := pending[i];
      pending := pending[..i] + pending[i + 1..];
      panes := panes[p := panes[p].(listed := false)];
      count := count - 1;
      UnlistedStep(s, i);
      Did(Unwait(i), s);
    }

    /** One pass of control_write_callback over the pending list: each pane at most its
        share. */
    method ServeAll() returns (ghost behind: bool)
      requires Valid() && Accounted(St()) && pending != [] && Buffered() < HIGH
      modifies this`clock, this`panes, this`blocks, this`all, this`next, this`log, this`trace, this`issued, this`sent, this`exit,
        this`pending, this`count, this`steps
      ensures old(steps) <= steps
      ensures Valid() && Accounted(St()) && Served(old(St()), St())
      ensures Queued(St()) < old(Queued(St())) || |pending| < |old(pending)|
      ensures forall q :: q in old(panes) && q in panes ==>
                panes[q].offset <= old(panes)[q].offset + Share(old(Buffered()), |old(pending)|)
      ensures !behind && LineFirst(St()) ==> LineFirst(old(St()))
    {
      hide Good, Quiet, Accounted, Queued, Render, Served, LineFirst, OneShare, Share, Run, Apply;
      ghost var s := St();
      ListedAt(s, 0);
      var limit := ShareNow();
      var i := 0;
      behind := false;
      ServedSelf(s);
      FirstShare(s, limit);
      while i < |pending|
        invariant old(steps) <= steps
        invariant i <= |pending| <= |s.pending| && Valid() && Accounted(St()) && Served(s, St())
        invariant Queued(St()) <= Queued(s) && |sent| >= |old(sent)|
        invariant i > 0 ==> Queued(St()) < Queued(s)
        invariant i == 0 && |pending| == |s.pending| ==> Buffered() < HIGH
        invariant OneShare(s, St(), i, limit)
        invariant !behind && LineFirst(St()) ==> LineFirst(s)
        decreases |pending| - i
      {
        if Buffered() >= HIGH {
          break;
        }
        var more;
        ghost var late;
        more, late := ServeTurn(i, limit, s);
        behind := behind || late;
        if more {
          i := i + 1;
        }
      }
      SharesKept(s, St(), i, limit);
    }

    /** What each pane may have of the buffer. */
    method ShareNow() returns (limit: nat)
      requires drained <= |sent| && Buffered() < HIGH && count > 0
      ensures limit == Share(Buffered(), count) && limit > 0
    {
      var space := HIGH - Buffered();
      limit := space / count / 3;
      if limit < MINIMUM {
        limit := MINIMUM;
      }
    }

    method ServeTurn(i: nat, limit: nat, ghost s: State) returns (more: bool, ghost late: bool)
      requires Valid() && Accounted(St()) && i < |pending| && limit > 0
      requires Served(s, St()) && OneShare(s, St(), i, limit)
      modifies this`clock, this`panes, this`blocks, this`all, this`next, this`log, this`trace, this`issued, this`sent, this`exit,
        this`pending, this`count, this`steps
      ensures old(steps) <= steps
      ensures Valid() && Accounted(St()) && Served(s, St()) && OneShare(s, St(), if more then i + 1 else i, limit)
      ensures more ==> Queued(St()) < old(Queued(St())) && pending == old(pending)
      ensures !more ==> |pending| == |old(pending)| - 1
      ensures Queued(St()) <= old(Queued(St())) && |sent| >= |old(sent)|
      ensures !late && LineFirst(St()) ==> LineFirst(old(St()))
    {
      hide Good, Quiet, Accounted, Queued, Render, Served, LineFirst, OneShare, Run, Apply;
      ghost var t := St();
      more, late := ServePane(i, limit);
      ServedQueued(t, St());
      ServedKeys(t, St());
      NextShare(s, t, St(), i, limit, more);
      ServedMore(s, t, St());
    }

    /** control_write_callback: it ends, with the buffer full or nothing pending; unless a
        pane fell behind, no line is left waiting at the front of the queue. */
    method WriteCallback() returns (ghost behind: bool)
      requires Valid() && Accounted(St())
      modifies this`clock, this`panes, this`blocks, this`all, this`next, this`log, this`trace, this`issued, this`sent, this`exit,
        this`pending, this`count, this`steps
      ensures old(steps) <= steps
      ensures Valid() && Accounted(St()) && Served(old(St()), St())
      ensures Buffered() >= HIGH || pending == []
      ensures !behind ==> !LineFirst(St())
    {
      hide Good, Quiet, Accounted, Queued, Render, Served, Extends, Flush, LineFirst, Run, Apply;
      ghost var s := St();
      FlushSafe(s);
      QueuesOf(s);
      FlushAll();
      ServedFlush(s, St());
      behind := false;
      while Buffered() < HIGH
        invariant old(steps) <= steps
        invariant Valid() && Accounted(St()) && Served(s, St())
        invariant !behind ==> !LineFirst(St())
        decreases Queued(St()), |pending|
      {
        CountOf(St());
        if count == 0 {
          break;
        }
        ghost var t := St();
        ServedSelf(t);
        ghost var late := ServeAll();
        behind := behind || late;
        ServedQueued(t, St());
        ServedMore(s, t, St());
      }
      CountOf(St());
    }
  }
}

/** What a client is sent over whole runs: the bytes of its output with where each comes from,
    in any order of the steps of ControlSteps, ControlMessages and ControlPanes (control.c). */
module ControlRuns {
  import opened ControlText
  import opened ControlQueue
  import opened ControlSteps
  import opened ControlMessages
  import opened ControlPanes
  import opened ControlTrace
  import opened ControlClient

  lemma BegunGood(windows: map<nat, WindowPane>)
    requires Started(windows)
    ensures Good(Begun(windows))
  {
  }

  lemma ApplyKeeps(s: State, step: Step)
    requires Good(s)
    ensures Good(Apply(s, step))
  {
    hide Good, Flush, Discard, Begin, Take, Forget, WriteLine, Enqueue, Restart, AddPane, Grown, Unlist, Flagged;
    match step
    case Know(p) => if p in s.windows { AddPaneKeeps(s, p); }
    case Say(text, t) => WriteLineKeeps(s, text, t);
    case Queue(p, n, t) =>
      if p in s.panes && p in s.windows && 0 < n && s.panes[p].queued + n <= |s.windows[p].input| { EnqueueKeeps(s, p, n, t); }
    case Empty(p) => if p in s.panes { DiscardKeeps(s, p); }
    case StartAt(p, at) => if p in s.panes && p in s.windows && at <= |s.windows[p].input| { RestartKeeps(s, p, at); }
    case Flag(p, off, paused) => if p in s.panes { FlaggedKeeps(s, p, off, paused); }
    case Open(p, head) => if p in s.panes { BeginKeeps(s, p, head); }
    case Put(p, n) => if Half(s, p) && CanTake(s, p, n) { TakeKeeps(s, p, n); }
    case GiveUp(p) => if Half(s, p) && p in s.panes { ForgetKeeps(s, p); }
    case WriteLines => FlushKeeps(s);
    case Unwait(i) =>
      if i < |s.pending| && s.pending[i] in s.panes && s.count > 0 && s.panes[s.pending[i]].blocks == [] { UnlistKeeps(s, i); }
    case Reset => if forall id :: id in s.blocks ==> s.blocks[id].Note? { ResetKeeps(s); }
    case Grow(p, data, used) =>
      if p in s.windows && used <= |s.windows[p].input| + |data| { ReceiveKeeps(s, p, data, used); }
  }

  /** Every invariant holds in every run. */
  lemma {:induction false} RunGood(windows: map<nat, WindowPane>, steps: seq<Step>)
    requires Started(windows)
    ensures Good(Run(windows, steps))
  {
    hide Good;
    if steps == [] {
      BegunGood(windows);
    } else {
      RunGood(windows, steps[..|steps| - 1]);
      ApplyKeeps(Run(windows, steps[..|steps| - 1]), steps[|steps| - 1]);
    }
  }

  // ----- The account over runs

  /** A pane's offsets are moved while blocks of it are queued, as ignoring its output does. */
  ghost predicate Careless(s: State, step: Step) {
    && step.StartAt? && step.p in s.panes && step.p in s.windows && step.at <= |s.windows[step.p].input|
    && s.panes[step.p].blocks != []
  }

  /** The account is lost by such a step and by no other. */
  lemma ApplyAccounted(s: State, step: Step)
    requires Good(s) && Accounted(s)
    ensures Accounted(Apply(s, step)) <==> !Careless(s, step)
  {
    hide Good, Accounted, Flush, Discard, Begin, Take, Forget, WriteLine, Enqueue, Restart, AddPane, Grown, Unlist, Flagged;
    match step
    case Know(p) => if p in s.windows { AddPaneKeeps(s, p); }
    case Say(text, t) => WriteLineKeeps(s, text, t);
    case Queue(p, n, t) =>
      if p in s.panes && p in s.windows && 0 < n && s.panes[p].queued + n <= |s.windows[p].input| { EnqueueKeeps(s, p, n, t); }
    case Empty(p) => if p in s.panes { DiscardKeeps(s, p); }
    case StartAt(p, at) => if p in s.panes && p in s.windows && at <= |s.windows[p].input| { RestartKeeps(s, p, at); }
    case Flag(p, off, paused) => if p in s.panes { FlaggedKeeps(s, p, off, paused); }
    case Open(p, head) => if p in s.panes { BeginKeeps(s, p, head); }
    case Put(p, n) => if Half(s, p) && CanTake(s, p, n) { TakeKeeps(s, p, n); }
    case GiveUp(p) => if Half(s, p) && p in s.panes { ForgetKeeps(s, p); }
    case WriteLines => FlushKeeps(s);
    case Unwait(i) =>
      if i < |s.pending| && s.pending[i] in s.panes && s.count > 0 && s.panes[s.pending[i]].blocks == [] { UnlistKeeps(s, i); }
    case Reset => if forall id :: id in s.blocks ==> s.blocks[id].Note? { ResetKeeps(s); }
    case Grow(p, data, used) =>
      if p in s.windows && used <= |s.windows[p].input| + |data| { ReceiveKeeps(s, p, data, used); }
  }

  ghost predicate Careful(windows: map<nat, WindowPane>, steps: seq<Step>) {
    steps == []
    || (Careful(windows, steps[..|steps| - 1]) && !Careless(Run(windows, steps[..|steps| - 1]), steps[|steps| - 1]))
  }

  /** So in a run without one the check that ends the program in control_append_data is never
      met: all bytes of the first block of any pane are there to be read. */
  lemma {:induction false} RunAccounted(windows: map<nat, WindowPane>, steps: seq<Step>)
    requires Started(windows) && Careful(windows, steps)
    ensures var s := Run(windows, steps);
            && Good(s) && Accounted(s)
            && forall p :: p in s.panes && s.panes[p].blocks != [] ==> CanTake(s, p, Size(s.blocks, s.panes[p].blocks[0]))
    decreases |steps|
  {
    hide Good, Accounted, Careless, Apply;
    RunGood(windows, steps);
    var s := Run(windows, steps);
    if steps == [] {
      BegunAccounted(windows);
    } else {
      var before := steps[..|steps| - 1];
      RunAccounted(windows, before);
      ApplyAccounted(Run(windows, before), steps[|steps| - 1]);
    }
    forall p | p in s.panes && s.panes[p].blocks != []
      ensures CanTake(s, p, Size(s.blocks, s.panes[p].blocks[0]))
    {
      WithinInput(s, p);
    }
  }

  lemma WithinInput(s: State, p: nat)
    requires Good(s) && Accounted(s) && p in s.panes && s.panes[p].blocks != []
    ensures CanTake(s, p, Size(s.blocks, s.panes[p].blocks[0]))
  {
    hide Sum;
    EnoughData(s, p);
    assert Delivered(s, p);
  }

  lemma BegunAccounted(windows: map<nat, WindowPane>)
    requires Started(windows)
    ensures Accounted(Begun(windows))
  {
  }

  // ----- Where each byte comes from

  datatype Source = Framing | FromLine(id: nat) | FromBlock(id: nat)
  datatype Tagged = Tagged(b: byte, source: Source)

  function Tag(bs: seq<byte>, source: Source): (r: seq<Tagged>)
    ensures |r| == |bs| && forall i :: 0 <= i < |bs| ==> r[i] == Tagged(bs[i], source)
  {
    seq(|bs|, i requires 0 <= i < |bs| => Tagged(bs[i], source))
  }

  function TagParts(parts: seq<Part>): seq<Tagged> {
    if parts == [] then []
    else
      var part := parts[|parts| - 1];
      TagParts(parts[..|parts| - 1]) + Tag(Escape(part.data), FromBlock(part.id))
  }

  function TagEvent(e: Event): seq<Tagged> {
    match e
    case Line(id, text) => Tag(text + [NEWLINE], FromLine(id))
    case Message(p, head, parts) => Tag(Header(head, p), Framing) + TagParts(parts) + Tag([NEWLINE], Framing)
  }

  /** The bytes of the output, each with the line or the block it comes from. */
  function TagLog(log: seq<Event>): seq<Tagged> {
    if log == [] then [] else TagLog(log[..|log| - 1]) + TagEvent(log[|log| - 1])
  }

  function Bytes(ts: seq<Tagged>): (r: seq<byte>)
    ensures |r| == |ts| && forall i :: 0 <= i < |ts| ==> r[i] == ts[i].b
  {
    seq(|ts|, i requires 0 <= i < |ts| => ts[i].b)
  }

  lemma BytesConcat(a: seq<Tagged>, b: seq<Tagged>)
    ensures Bytes(a + b) == Bytes(a) + Bytes(b)
  {
  }

  lemma {:induction false} PartsBytes(parts: seq<Part>)
    ensures Bytes(TagParts(parts)) == Escape(PartsData(parts))
  {
    if parts == [] {
      EscapeEmpty();
      assert PartsData(parts) == [];
    } else {
      var before, part := parts[..|parts| - 1], parts[|parts| - 1];
      PartsBytes(before);
      EscapeConcat(PartsData(before), part.data);
      BytesConcat(TagParts(before), Tag(Escape(part.data), FromBlock(part.id)));
      assert Bytes(Tag(Escape(part.data), FromBlock(part.id))) == Escape(part.data);
    }
  }

  lemma EventBytes(e: Event)
    ensures Bytes(TagEvent(e)) == Rendered(e)
  {
    match e
    case Line(id, text) =>
    case Message(p, kind, parts) =>
      var head := Header(kind, p);
      PartsBytes(parts);
      BytesConcat(Tag(head, Framing), TagParts(parts));
      BytesConcat(Tag(head, Framing) + TagParts(parts), Tag([NEWLINE], Framing));
      assert Bytes(Tag(head, Framing)) == head && Bytes(Tag([NEWLINE], Framing)) == [NEWLINE];
  }

  /** Without where they come from these are the bytes sent. */
  lemma {:induction false} LogBytes(log: seq<Event>)
    ensures Bytes(TagLog(log)) == Render(log)
  {
    if log != [] {
      LogBytes(log[..|log| - 1]);
      EventBytes(log[|log| - 1]);
      BytesConcat(TagLog(log[..|log| - 1]), TagEvent(log[|log| - 1]));
    }
  }

  // ----- In order

  lemma {:induction false} PartsFrom(parts: seq<Part>, k: nat)
    requires k < |TagParts(parts)|
    ensures exists i :: 0 <= i < |parts| && TagParts(parts)[k].source == FromBlock(parts[i].id)
  {
    var before := parts[..|parts| - 1];
    if k < |TagParts(before)| {
      PartsFrom(before, k);
      var i :| 0 <= i < |before| && TagParts(before)[k].source == FromBlock(before[i].id);
      assert parts[i] == before[i];
    }
  }

  /** What an event has bytes of. */
  lemma EventFrom(e: Event, k: nat)
    requires k < |TagEvent(e)|
    ensures match TagEvent(e)[k].source
            case Framing => true
            case FromLine(id) => e.Line? && e.id == id
            case FromBlock(id) => e.Message? && exists i :: 0 <= i < |e.parts| && e.parts[i].id == id
  {
    hide Header;
    if e.Message? {
      var h := |Header(e.head, e.pane)|;
      if h <= k < h + |TagParts(e.parts)| {
        PartsFrom(e.parts, k - h);
        assert TagEvent(e)[k] == TagParts(e.parts)[k - h];
      }
    }
  }

  lemma {:induction false} LogFrom(log: seq<Event>, k: nat, id: nat)
    requires k < |TagLog(log)| && TagLog(log)[k].source == FromLine(id)
    ensures exists i :: 0 <= i < |log| && log[i].Line? && log[i].id == id
  {
    var before := log[..|log| - 1];
    var n := |TagLog(before)|;
    if k < n {
      LogFrom(before, k, id);
      var i :| 0 <= i < |before| && before[i].Line? && before[i].id == id;
      assert log[i] == before[i];
    } else {
      EventFrom(log[|log| - 1], k - n);
    }
  }

  /** After a byte of a line come only bytes of that line and of what was queued later. */
  predicate Later(line: nat, source: Source) {
    match source
    case Framing => true
    case FromLine(id) => line <= id
    case FromBlock(id) => line < id
  }

  lemma {:induction false} LogOrdered(log: seq<Event>, a: nat, b: nat, line: nat)
    requires Ordered(log) && a < b < |TagLog(log)| && TagLog(log)[a].source == FromLine(line)
    ensures Later(line, TagLog(log)[b].source)
  {
    var before, e := log[..|log| - 1], log[|log| - 1];
    var n := |TagLog(before)|;
    if b < n {
      LogOrdered(before, a, b, line);
    } else {
      EventFrom(e, b - n);
      if a < n {
        LogFrom(before, a, line);
        var i :| 0 <= i < |before| && before[i].Line? && before[i].id == line;
        assert log[i] == before[i] && Follows(log[i].id, log[|log| - 1]);
      } else {
        EventFrom(e, a - n);
      }
    }
  }

  // ----- Over runs

  /** Numbers only grow. */
  lemma ApplyNext(s: State, step: Step)
    requires Good(s)
    ensures Apply(s, step).next >= s.next
  {
    hide Good;
    if step.Empty? && step.p in s.panes {
      DiscardKeeps(s, step.p);
    }
    if step.WriteLines? {
      FlushKeeps(s);
    }
  }

  lemma {:induction false} RunNext(windows: map<nat, WindowPane>, steps: seq<Step>, k: nat)
    requires Started(windows) && k <= |steps|
    ensures Run(windows, steps[..k]).next <= Run(windows, steps).next
    decreases |steps| - k
  {
    hide Good, Apply;
    if k == |steps| {
      assert steps[..k] == steps;
    } else {
      RunNext(windows, steps, k + 1);
      RunGood(windows, steps[..k]);
      assert steps[..k + 1][..k] == steps[..k];
      ApplyNext(Run(windows, steps[..k]), steps[k]);
    }
  }

  /** In every run: a block of output queued by step `k`, and a line given to the client by a
      later step `m`. Whatever is done then, every byte sent of the block is before every byte
      of the line; and of two lines, every byte of the first is before every byte of the
      second. */
  lemma BlockBeforeLine(windows: map<nat, WindowPane>, steps: seq<Step>, k: nat, m: nat, a: nat, b: nat)
    requires Started(windows) && k < m < |steps| && steps[m].Say?
    requires Run(windows, steps[..k]).next < Run(windows, steps[..k + 1]).next
    requires var ts := TagLog(Run(windows, steps).log);
             a < |ts| && b < |ts| && ts[a].source == FromLine(Run(windows, steps[..m]).next)
             && (ts[b].source == FromBlock(Run(windows, steps[..k]).next)
                 || ts[b].source == FromLine(Run(windows, steps[..k]).next))
    ensures b < a
    ensures Bytes(TagLog(Run(windows, steps).log)) == Render(Run(windows, steps).log)
  {
    hide Good, Apply, Run, TagLog, Render, Bytes, Started;
    var t := Run(windows, steps);
    var block, line := Run(windows, steps[..k]).next, Run(windows, steps[..m]).next;
    RunGood(windows, steps);
    LogBytes(t.log);
    RunNext(windows, steps[..m], k + 1);
    assert steps[..m][..k + 1] == steps[..k + 1];
    if a < b {
      OrderedOf(t);
      LogOrdered(t.log, a, b, line);
    }
  }

  /** So it is of the bytes any client has put in its output buffer: its methods take these
      steps and no others, and keep the list of them. */
  lemma SentInOrder(c: Client, k: nat, m: nat, a: nat, b: nat)
    requires c.Valid() && k < m < |c.steps| && c.steps[m].Say?
    requires Run(c.start, c.steps[..k]).next < Run(c.start, c.steps[..k + 1]).next
    requires var ts := TagLog(c.log);
             a < |ts| && b < |ts| && ts[a].source == FromLine(Run(c.start, c.steps[..m]).next)
             && (ts[b].source == FromBlock(Run(c.start, c.steps[..k]).next)
                 || ts[b].source == FromLine(Run(c.start, c.steps[..k]).next))
    ensures b < a && Bytes(TagLog(c.log)) == c.sent
  {
    hide Good, Quiet, Apply, Run, TagLog, Render, Bytes, Started;
    assert c.St().log == c.log;
    BlockBeforeLine(c.start, c.steps, k, m, a, b);
  }

  lemma OrderedOf(s: State)
    requires Good(s)
    ensures Ordered(s.log)
  {
  }
}

/** The steps a control client takes, and runs of them (control.c). */
module ControlTrace {
  import opened ControlText
  import opened ControlQueue
  import opened ControlSteps
  import opened ControlMessages
  import opened ControlPanes

  /** One step of the client. */
  datatype Step =
    | Know(p: nat)
    | Say(text: seq<byte>, t: nat)
    | Queue(p: nat, n: nat, t: nat)
    | Empty(p: nat)
    | StartAt(p: nat, at: nat)
    | Flag(p: nat, off: bool, paused: bool)
    | Open(p: nat, head: Heading)
    | Put(p: nat, n: nat)
    | GiveUp(p: nat)
    | WriteLines
    | Unwait(i: nat)
    | Reset
    | Grow(p: nat, data: seq<byte>, used: nat)

  /** What a step does; where the code does not take it, nothing. */
  ghost function Apply(s: State, step: Step): State {
    match step
    case Know(p) => if p in s.windows then AddPane(s, p) else s
    case Say(text, t) => WriteLine(s, text, t)
    case Queue(p, n, t) =>
      if p in s.panes && p in s.windows && 0 < n && s.panes[p].queued + n <= |s.windows[p].input| then Enqueue(s, p, n, t) else s
    case Empty(p) => if p in s.panes && p in s.trace then Discard(s, p) else s
    case StartAt(p, at) => if p in s.panes && p in s.windows && at <= |s.windows[p].input| then Restart(s, p, at) else s
    case Flag(p, off, paused) => if p in s.panes then Flagged(s, p, off, paused) else s
    case Open(p, head) => if p in s.panes then Begin(s, p, head) else s
    case Put(p, n) => if Half(s, p) && CanTake(s, p, n) && p in s.trace then Take(s, p, n) else s
    case GiveUp(p) => if Half(s, p) && p in s.panes && p in s.trace then Forget(s, p) else s
    case WriteLines => Flush(s)
    case Unwait(i) =>
      if i < |s.pending| && s.pending[i] in s.panes && s.count > 0 && s.panes[s.pending[i]].blocks == [] then Unlist(s, i) else s
    case Reset =>
      if forall id :: id in s.blocks ==> s.blocks[id].Note? then s.(panes := map[], trace := map[], pending := [], count := 0)
      else s
    case Grow(p, data, used) =>
      if p in s.windows && used <= |s.windows[p].input| + |data| then Grown(s, p, data, used) else s
  }

  /** control_start */
  function Begun(windows: map<nat, WindowPane>): State {
    State(windows, map[], [], 0, map[], [], 0, [], map[], [])
  }

  ghost function Run(windows: map<nat, WindowPane>, steps: seq<Step>): State {
    if steps == [] then Begun(windows) else Apply(Run(windows, steps[..|steps| - 1]), steps[|steps| - 1])
  }

  predicate Started(windows: map<nat, WindowPane>) {
    forall p :: p in windows ==> windows[p].offset <= |windows[p].input|
  }

  lemma RunMore(windows: map<nat, WindowPane>, steps: seq<Step>, step: Step)
    ensures Run(windows, steps + [step]) == Apply(Run(windows, steps), step)
  {
    hide Apply;
    assert (steps + [step])[..|steps|] == steps;
  }

  // ----- Where the code takes a step it does what it says

  lemma SaidStep(s: State, text: seq<byte>, t: nat)
    ensures Apply(s, Say(text, t)) == WriteLine(s, text, t)
  {
  }

  lemma FlushedStep(s: State)
    ensures Apply(s, WriteLines) == Flush(s)
  {
  }

  lemma QueuedStep(s: State, p: nat, n: nat, t: nat)
    requires p in s.panes && p in s.windows && 0 < n && s.panes[p].queued + n <= |s.windows[p].input|
    ensures Apply(s, Queue(p, n, t)) == Enqueue(s, p, n, t)
  {
  }

  lemma EmptyStep(s: State, p: nat)
    requires p in s.panes && p in s.trace
    ensures Apply(s, Empty(p)) == Discard(s, p)
  {
  }

  lemma ResetStep(s: State)
    requires forall id :: id in s.blocks ==> s.blocks[id].Note?
    ensures Apply(s, Reset) == s.(panes := map[], trace := map[], pending := [], count := 0)
  {
  }

  lemma ForgotStep(s: State, p: nat)
    requires Half(s, p) && p in s.panes && p in s.trace
    ensures Apply(s, GiveUp(p)) == Forget(s, p)
  {
  }

  lemma GrownStep(s: State, p: nat, data: seq<byte>, used: nat)
    requires p in s.windows && used <= |s.windows[p].input| + |data|
    ensures Apply(s, Grow(p, data, used)) == Grown(s, p, data, used)
  {
  }

  lemma UnlistedStep(s: State, i: nat)
    requires i < |s.pending| && s.pending[i] in s.panes && s.count > 0 && s.panes[s.pending[i]].blocks == []
    ensures Apply(s, Unwait(i)) == Unlist(s, i)
  {
  }

  /** A message begun, if it is new, and bytes put in it. */
  lemma PutSteps(s: State, b: State, p: nat, n: nat, head: Heading, anew: bool)
    requires p in s.panes && b == if anew then Begin(s, p, head) else s
    requires Half(b, p) && CanTake(b, p, n) && p in b.trace
    ensures anew ==> Apply(s, Open(p, head)) == b
    ensures Apply(b, Put(p, n)) == Take(b, p, n)
  {
  }
}

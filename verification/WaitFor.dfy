/** Named wait channels: signals, waits and locks between command queue items
    (cmd-wait-for.c). Items are numbered; an item comes here at most once, since it is
    fired at most once. */
module WaitFor {

  datatype Result = Normal | Error | Block

  /** struct wait_channel */
  datatype Channel = Channel(locked: bool, woken: bool, waiters: seq<nat>, lockers: seq<nat>)

  const NEW := Channel(false, false, [], [])

  /** The channels, and what has happened: the items continued, in order; those that asked
      for the lock of a channel and those that were given it, in order; how often it was
      unlocked. */
  datatype State = State(
    channels: map<string, Channel>,
    continued: seq<nat>,
    asked: map<string, seq<nat>>,
    given: map<string, seq<nat>>,
    unlocks: map<string, nat>)

  const EMPTY := State(map[], [], map[], map[], map[])

  function Get<T>(m: map<string, T>, name: string, none: T): T {
    if name in m then m[name] else none
  }

  function Asked(s: State, name: string): seq<nat> {
    Get(s.asked, name, [])
  }

  function Given(s: State, name: string): seq<nat> {
    Get(s.given, name, [])
  }

  function Unlocks(s: State, name: string): nat {
    Get(s.unlocks, name, 0)
  }

  function Chan(s: State, name: string): Channel {
    Get(s.channels, name, NEW)
  }

  function Put(s: State, name: string, wc: Channel): State {
    s.(channels := s.channels[name := wc])
  }

  /** cmd_wait_for_remove */
  function Tidy(s: State, name: string): State {
    if name !in s.channels then s
    else
      var wc := s.channels[name];
      if wc.locked || wc.waiters != [] || !wc.woken then s else s.(channels := s.channels - {name})
  }

  // ----- The commands

  /** cmd_wait_for_signal */
  function Signal(s: State, name: string): State {
    var wc := Chan(s, name);
    if wc.waiters == [] && !wc.woken then Put(s, name, wc.(woken := true))
    else Tidy(Put(s, name, wc.(waiters := [])).(continued := s.continued + wc.waiters), name)
  }

  /** cmd_wait_for_wait */
  function Wait(s: State, item: nat, client: bool, name: string): (r: (State, Result)) {
    if !client then (s, Error)
    else
      var wc := Chan(s, name);
      if wc.woken then (Tidy(Put(s, name, wc), name), Normal)
      else (Put(s, name, wc.(waiters := wc.waiters + [item])), Block)
  }

  /** cmd_wait_for_lock */
  function Lock(s: State, item: nat, client: bool, name: string): (r: (State, Result)) {
    if !client then (s, Error)
    else
      var wc := Chan(s, name);
      var t := s.(asked := s.asked[name := Asked(s, name) + [item]]);
      if wc.locked then (Put(t, name, wc.(lockers := wc.lockers + [item])), Block)
      else (Put(t, name, wc.(locked := true)).(given := s.given[name := Given(s, name) + [item]]), Normal)
  }

  /** cmd_wait_for_unlock */
  function Unlock(s: State, name: string): (r: (State, Result)) {
    var wc := Chan(s, name);
    if name !in s.channels || !wc.locked then (s, Error)
    else
      var t := s.(unlocks := s.unlocks[name := Unlocks(s, name) + 1]);
      if wc.lockers != [] then
        (Put(t, name, wc.(lockers := wc.lockers[1..]))
           .(continued := s.continued + [wc.lockers[0]], given := s.given[name := Given(s, name) + [wc.lockers[0]]]),
         Normal)
      else (Tidy(Put(t, name, wc.(locked := false)), name), Normal)
  }

  datatype Step =
    | DoSignal(name: string)
    | DoWait(item: nat, client: bool, name: string)
    | DoLock(item: nat, client: bool, name: string)
    | DoUnlock(name: string)

  function Apply(s: State, step: Step): (r: (State, Result)) {
    match step
    case DoSignal(name) => (Signal(s, name), Normal)
    case DoWait(item, client, name) => Wait(s, item, client, name)
    case DoLock(item, client, name) => Lock(s, item, client, name)
    case DoUnlock(name) => Unlock(s, name)
  }

  /** The state after a run. */
  function Run(steps: seq<Step>): State {
    if steps == [] then EMPTY else Apply(Run(steps[..|steps| - 1]), steps[|steps| - 1]).0
  }

  /** The items that were made to wait in a run, in order. */
  function BlockedBy(steps: seq<Step>): seq<nat> {
    if steps == [] then []
    else
      var before, step := steps[..|steps| - 1], steps[|steps| - 1];
      BlockedBy(before) + if Apply(Run(before), step).1 == Block then [step.item] else []
  }

  /** Each item comes at most once. */
  predicate Once(steps: seq<Step>) {
    forall i, j :: 0 <= i < j < |steps| && HasItem(steps[i]) && HasItem(steps[j]) ==> steps[i].item != steps[j].item
  }

  predicate HasItem(step: Step) {
    step.DoWait? || step.DoLock?
  }

  // ----- What every run keeps

  ghost predicate Sane(wc: Channel) {
    && (wc.lockers != [] ==> wc.locked)
    && (wc.waiters != [] ==> !wc.woken)
  }

  /** The lock of a channel: who asked got it in the order of asking, but for those still
      waiting for it; and it is held exactly when it was given once more than unlocked. A
      channel that is not there is not locked and has nobody waiting. */
  ghost predicate Fair(s: State, name: string) {
    && Asked(s, name) == Given(s, name) + Chan(s, name).lockers
    && |Given(s, name)| == Unlocks(s, name) + if Chan(s, name).locked then 1 else 0
  }

  ghost predicate Inv(s: State) {
    && (forall name :: name in s.channels ==> Sane(s.channels[name]))
    && (forall name :: Fair(s, name))
  }

  /** A step changes one channel and what is known about it. */
  lemma OthersFair(s: State, t: State, name: string)
    requires Inv(s) && Fair(t, name) && (name in t.channels ==> Sane(t.channels[name]))
    requires forall n :: n != name ==> Chan(t, n) == Chan(s, n) && Asked(t, n) == Asked(s, n)
    requires forall n :: n != name ==> Given(t, n) == Given(s, n) && Unlocks(t, n) == Unlocks(s, n)
    requires forall n :: n in t.channels && n != name ==> n in s.channels
    ensures Inv(t)
  {
    hide Sane;
    forall n
      ensures Fair(t, n)
    {
      assert Fair(s, n);
    }
    forall n | n in t.channels
      ensures Sane(t.channels[n])
    {
      if n != name {
        assert Chan(t, n) == Chan(s, n);
      }
    }
  }

  lemma SignalKeeps(s: State, name: string)
    requires Inv(s)
    ensures Inv(Signal(s, name))
  {
    assert Fair(s, name);
    assert name in s.channels ==> Sane(s.channels[name]);
    OthersFair(s, Signal(s, name), name);
  }

  lemma WaitKeeps(s: State, item: nat, client: bool, name: string)
    requires Inv(s)
    ensures Inv(Wait(s, item, client, name).0)
  {
    assert Fair(s, name);
    assert name in s.channels ==> Sane(s.channels[name]);
    OthersFair(s, Wait(s, item, client, name).0, name);
  }

  lemma LockKeeps(s: State, item: nat, client: bool, name: string)
    requires Inv(s)
    ensures Inv(Lock(s, item, client, name).0)
  {
    assert Fair(s, name);
    assert name in s.channels ==> Sane(s.channels[name]);
    OthersFair(s, Lock(s, item, client, name).0, name);
  }

  lemma UnlockKeeps(s: State, name: string)
    requires Inv(s)
    ensures Inv(Unlock(s, name).0)
  {
    assert Fair(s, name);
    assert name in s.channels ==> Sane(s.channels[name]);
    OthersFair(s, Unlock(s, name).0, name);
  }

  lemma StepKeeps(s: State, step: Step)
    requires Inv(s)
    ensures Inv(Apply(s, step).0)
  {
    hide Inv, Signal, Wait, Lock, Unlock;
    match step
    case DoSignal(name) => SignalKeeps(s, name);
    case DoWait(item, client, name) => WaitKeeps(s, item, client, name);
    case DoLock(item, client, name) => LockKeeps(s, item, client, name);
    case DoUnlock(name) => UnlockKeeps(s, name);
  }

  /** Every run without a flush keeps the invariant. */
  lemma {:induction false} RunKeeps(steps: seq<Step>)
    ensures Inv(Run(steps))
    decreases |steps|
  {
    if steps != [] {
      RunKeeps(steps[..|steps| - 1]);
      StepKeeps(Run(steps[..|steps| - 1]), steps[|steps| - 1]);
    }
  }

  /** A channel is only ever removed when nobody holds, or waits for, anything of it. */
  lemma RemovedIdle(s: State, step: Step, name: string)
    requires Inv(s) && name in s.channels && name !in Apply(s, step).0.channels
    ensures step.name == name
    ensures s.channels[name].lockers == []
    ensures s.channels[name].waiters == []
    ensures s.channels[name].locked ==> step.DoUnlock?
    ensures s.channels[name].woken
  {
    assert Sane(s.channels[name]);
  }

  // ----- What each command does, after any run

  /** No channel but this one has changed, nor what is known of the others' locks. */
  ghost predicate Apart(s: State, t: State, name: string) {
    forall n :: n != name ==>
      Chan(t, n) == Chan(s, n) && Asked(t, n) == Asked(s, n) && Given(t, n) == Given(s, n) && Unlocks(t, n) == Unlocks(s, n)
  }

  lemma RunStep(steps: seq<Step>, step: Step)
    ensures Run(steps + [step]) == Apply(Run(steps), step).0 && Inv(Run(steps))
    ensures forall name :: Sane(Chan(Run(steps), name))
  {
    RunKeeps(steps);
    assert (steps + [step])[..|steps|] == steps;
  }

  /** A signal continues everybody who waits on its channel, in order, and leaves nobody
      waiting; it is kept for later exactly when nobody was waiting and none was kept, or the
      channel cannot go. It touches no lock and no other channel. */
  lemma SignalWakesAll(steps: seq<Step>, name: string)
    ensures var s, t := Run(steps), Run(steps + [DoSignal(name)]);
            && Chan(t, name).waiters == [] && t.continued == s.continued + Chan(s, name).waiters
            && (Chan(t, name).woken <==> Chan(s, name).waiters == [] && (Chan(s, name).woken ==> Chan(s, name).locked))
            && Chan(t, name).locked == Chan(s, name).locked && Chan(t, name).lockers == Chan(s, name).lockers
            && t.asked == s.asked && t.given == s.given && t.unlocks == s.unlocks && Apart(s, t, name)
  {
    RunStep(steps, DoSignal(name));
  }

  /** A wait stops an item exactly when no signal is kept, and then as the last of those who
      wait; it continues nobody and touches no lock and no other channel. */
  lemma WaitStops(steps: seq<Step>, item: nat, name: string)
    ensures var s, step := Run(steps), DoWait(item, true, name);
            var t, r := Run(steps + [step]), Apply(s, step).1;
            && (r == Block <==> !Chan(s, name).woken) && r != Error && t.continued == s.continued
            && Chan(t, name).waiters == (if r == Block then Chan(s, name).waiters + [item] else [])
            && Chan(t, name).locked == Chan(s, name).locked && Chan(t, name).lockers == Chan(s, name).lockers
            && t.asked == s.asked && t.given == s.given && t.unlocks == s.unlocks && Apart(s, t, name)
  {
    RunStep(steps, DoWait(item, true, name));
    assert Sane(Chan(Run(steps), name));
  }

  /** A lock is given at once exactly when nobody holds it; else the item is the last of those
      who want it. Nobody is continued, and nobody who waits for a signal is touched. */
  lemma LockGives(steps: seq<Step>, item: nat, name: string)
    ensures var s, step := Run(steps), DoLock(item, true, name);
            var t, r := Run(steps + [step]), Apply(s, step).1;
            && (r == Normal <==> !Chan(s, name).locked) && r != Error && t.continued == s.continued
            && Chan(t, name).locked && Chan(t, name).waiters == Chan(s, name).waiters && Chan(t, name).woken == Chan(s, name).woken
            && Chan(t, name).lockers == (if r == Block then Chan(s, name).lockers + [item] else Chan(s, name).lockers)
            && Given(t, name) == (if r == Normal then Given(s, name) + [item] else Given(s, name))
            && Unlocks(t, name) == Unlocks(s, name) && Apart(s, t, name)
  {
    RunStep(steps, DoLock(item, true, name));
  }

  /** Who has a lock handed on: the first who wants it, if anybody does. */
  function Heir(wc: Channel): seq<nat> {
    if wc.lockers == [] then [] else [wc.lockers[0]]
  }

  lemma UnlockEffect(s: State, name: string)
    requires Sane(Chan(s, name))
    ensures var (t, r) := Unlock(s, name);
            var first := Heir(Chan(s, name));
            && (r == Error <==> !Chan(s, name).locked) && (r == Error ==> t == s) && r != Block
            && (r != Error ==>
                  && t.continued == s.continued + first && Given(t, name) == Given(s, name) + first
                  && first + Chan(t, name).lockers == Chan(s, name).lockers && Unlocks(t, name) == Unlocks(s, name) + 1
                  && (Chan(t, name).locked <==> first != []))
            && Chan(t, name).waiters == Chan(s, name).waiters
  {
  }

  lemma UnlockApart(s: State, name: string)
    ensures Apart(s, Unlock(s, name).0, name)
  {
  }

  /** An unlock is an error exactly when nobody holds the lock, and then does nothing; else the
      first who wants it is continued and has it, or if nobody does it is free. */
  lemma UnlockPasses(steps: seq<Step>, name: string)
    ensures var s, step := Run(steps), DoUnlock(name);
            var t, r := Run(steps + [step]), Apply(s, step).1;
            var first := Heir(Chan(s, name));
            && (r == Error <==> !Chan(s, name).locked) && (r == Error ==> t == s) && r != Block
            && (r != Error ==>
                  && t.continued == s.continued + first && Given(t, name) == Given(s, name) + first
                  && first + Chan(t, name).lockers == Chan(s, name).lockers && Unlocks(t, name) == Unlocks(s, name) + 1
                  && (Chan(t, name).locked <==> first != []))
            && Chan(t, name).waiters == Chan(s, name).waiters && Apart(s, t, name)
  {
    hide Inv, Sane, Run, Apart, Chan, Given, Unlocks, Unlock, Heir;
    RunStep(steps, DoUnlock(name));
    UnlockEffect(Run(steps), name);
    UnlockApart(Run(steps), name);
  }

  /** Without a client a wait or a lock is an error and does nothing. */
  lemma NoClient(steps: seq<Step>, step: Step)
    requires HasItem(step) && !step.client
    ensures Run(steps + [step]) == Run(steps) && Apply(Run(steps), step).1 == Error
  {
    RunStep(steps, step);
  }

  /** Waiting for a signal to the channel, or continued since. */
  predicate Waits(s: State, item: nat, name: string) {
    item in Chan(s, name).waiters || item in s.continued
  }

  lemma OtherWaits(s: State, item: nat, name: string, other: nat, client: bool, at: string)
    requires Inv(s) && Waits(s, item, name)
    ensures Waits(Wait(s, other, client, at).0, item, name)
  {
    assert Sane(Chan(s, at));
  }

  lemma LockWaits(s: State, item: nat, name: string, other: nat, client: bool, at: string)
    requires Waits(s, item, name)
    ensures Waits(Lock(s, other, client, at).0, item, name)
  {
  }

  lemma UnlockWaits(s: State, item: nat, name: string, at: string)
    requires Inv(s) && Waits(s, item, name)
    ensures Waits(Unlock(s, at).0, item, name)
  {
    assert Sane(Chan(s, at));
    UnlockEffect(s, at);
    UnlockApart(s, at);
  }

  lemma SignalWaits(s: State, item: nat, name: string, at: string)
    requires Waits(s, item, name)
    ensures Waits(Signal(s, at), item, name) && (at == name ==> item in Signal(s, at).continued)
  {
  }

  lemma StillThere(s: State, step: Step, item: nat, name: string)
    requires Inv(s) && Waits(s, item, name)
    ensures Waits(Apply(s, step).0, item, name) && (step == DoSignal(name) ==> item in Apply(s, step).0.continued)
    ensures item in s.continued ==> item in Apply(s, step).0.continued
  {
    hide Inv, Waits;
    match step
    case DoSignal(at) => SignalWaits(s, item, name, at);
    case DoWait(other, client, at) => OtherWaits(s, item, name, other, client, at);
    case DoLock(other, client, at) => LockWaits(s, item, name, other, client, at);
    case DoUnlock(at) => UnlockWaits(s, item, name, at);
  }

  /** The run up to its last step, and that step. */
  lemma RunLast(steps: seq<Step>)
    requires steps != []
    ensures var n := |steps| - 1; Run(steps) == Apply(Run(steps[..n]), steps[n]).0 && Inv(Run(steps[..n]))
  {
    RunKeeps(steps[..|steps| - 1]);
  }

  lemma Stopped(s: State, item: nat, client: bool, name: string)
    requires Wait(s, item, client, name).1 == Block
    ensures Waits(Wait(s, item, client, name).0, item, name)
  {
  }

  /** In any run: who waits on a channel before it is signalled has been continued. */
  lemma {:induction false} SignalReaches(steps: seq<Step>, k: nat, m: nat)
    requires k < m < |steps| && steps[k].DoWait? && steps[m] == DoSignal(steps[k].name)
    requires Apply(Run(steps[..k]), steps[k]).1 == Block
    ensures steps[k].item in Run(steps).continued
    decreases |steps|
  {
    hide Inv, Run, Apply, Waits;
    var n := |steps| - 1;
    RunLast(steps);
    assert steps[..n][..k] == steps[..k];
    WaitsUntil(steps[..n], k);
    if m < n {
      SignalReaches(steps[..n], k, m);
    }
    StillThere(Run(steps[..n]), steps[n], steps[k].item, steps[k].name);
  }

  lemma {:induction false} WaitsUntil(steps: seq<Step>, k: nat)
    requires k < |steps| && steps[k].DoWait? && Apply(Run(steps[..k]), steps[k]).1 == Block
    ensures Waits(Run(steps), steps[k].item, steps[k].name)
    decreases |steps|
  {
    hide Inv, Run, Waits, Wait;
    var n := |steps| - 1;
    RunLast(steps);
    if k < n {
      assert steps[..n][..k] == steps[..k];
      WaitsUntil(steps[..n], k);
      StillThere(Run(steps[..n]), steps[n], steps[k].item, steps[k].name);
    } else {
      Stopped(Run(steps[..k]), steps[k].item, steps[k].client, steps[k].name);
    }
  }

  // ----- Each blocked item is in one list, and continued once

  /** The items in the lists of a channel. */
  function Held(wc: Channel): multiset<nat> {
    multiset(wc.waiters) + multiset(wc.lockers)
  }

  /** How many times an item is in the lists of all the channels. */
  ghost function Listed(channels: map<string, Channel>, item: nat): nat {
    if channels == map[] then 0
    else
      var name :| name in channels;
      Held(channels[name])[item] + Listed(channels - {name}, item)
  }

  lemma {:induction false} ListedSplit(channels: map<string, Channel>, item: nat, name: string)
    requires name in channels
    ensures Listed(channels, item) == Held(channels[name])[item] + Listed(channels - {name}, item)
    decreases |channels|
  {
    var n :| n in channels && Listed(channels, item) == Held(channels[n])[item] + Listed(channels - {n}, item);
    if n != name {
      ListedSplit(channels - {n}, item, name);
      ListedSplit(channels - {name}, item, n);
      assert channels - {n} - {name} == channels - {name} - {n};
    }
  }

  /** One channel flushed. */
  function Flushed(s: State, name: string): State
    requires name in s.channels
  {
    s.(channels := s.channels - {name}, continued := s.continued + s.channels[name].waiters + s.channels[name].lockers)
  }

  /** How often an item has been continued or is yet to be. */
  ghost function Waiting(s: State, item: nat): nat {
    multiset(s.continued)[item] + Listed(s.channels, item)
  }

  lemma FlushedWaits(s: State, name: string)
    requires name in s.channels
    ensures forall item :: Waiting(Flushed(s, name), item) == Waiting(s, item)
    ensures s.continued <= Flushed(s, name).continued && Flushed(s, name).channels == s.channels - {name}
  {
    forall item
      ensures Listed(s.channels, item) == Held(s.channels[name])[item] + Listed(s.channels - {name}, item)
    {
      ListedSplit(s.channels, item, name);
    }
  }

  lemma FlushedAll(channels: map<string, Channel>)
    requires channels.Keys == {}
    ensures forall item :: Listed(channels, item) == 0
  {
    assert channels == map[];
  }

  lemma ListedPut(channels: map<string, Channel>, item: nat, name: string, wc: Channel)
    ensures Listed(channels[name := wc], item) + (if name in channels then Held(channels[name])[item] else 0)
            == Listed(channels, item) + Held(wc)[item]
  {
    ListedSplit(channels[name := wc], item, name);
    assert channels[name := wc] - {name} == channels - {name};
    if name in channels {
      ListedSplit(channels, item, name);
    } else {
      assert channels - {name} == channels;
    }
  }

  /** Blocking puts an item in a list; being taken off a list is being continued. */
  ghost predicate Balanced(s: State, blocked: seq<nat>, item: nat) {
    Listed(s.channels, item) + multiset(s.continued)[item] == multiset(blocked)[item]
  }

  lemma TidyListed(s: State, name: string, item: nat)
    requires name in s.channels && Sane(s.channels[name])
    ensures Listed(Tidy(s, name).channels, item) == Listed(s.channels, item)
  {
    if Tidy(s, name) != s {
      ListedSplit(s.channels, item, name);
      assert Held(s.channels[name]) == multiset{};
    }
  }

  lemma SignalBalanced(s: State, blocked: seq<nat>, name: string, item: nat)
    requires Inv(s) && Balanced(s, blocked, item)
    ensures Balanced(Signal(s, name), blocked, item)
  {
    var wc := Chan(s, name);
    assert name in s.channels ==> Sane(s.channels[name]);
    if wc.waiters == [] && !wc.woken {
      ListedPut(s.channels, item, name, wc.(woken := true));
    } else {
      ListedPut(s.channels, item, name, wc.(waiters := []));
      var t := Put(s, name, wc.(waiters := [])).(continued := s.continued + wc.waiters);
      TidyListed(t, name, item);
    }
  }

  lemma UnlockBalanced(s: State, blocked: seq<nat>, name: string, item: nat)
    requires Inv(s) && Balanced(s, blocked, item)
    ensures Balanced(Unlock(s, name).0, blocked, item)
  {
    var wc := Chan(s, name);
    if name in s.channels && wc.locked {
      assert Sane(wc);
      if wc.lockers != [] {
        assert wc.lockers == [wc.lockers[0]] + wc.lockers[1..];
        ListedPut(s.channels, item, name, wc.(lockers := wc.lockers[1..]));
      } else {
        ListedPut(s.channels, item, name, wc.(locked := false));
        TidyListed(Put(s, name, wc.(locked := false)), name, item);
      }
    }
  }

  lemma WaitPassed(s: State, blocked: seq<nat>, name: string, item: nat)
    requires Inv(s) && Balanced(s, blocked, item) && Chan(s, name).woken
    ensures Balanced(Tidy(Put(s, name, Chan(s, name)), name), blocked, item)
  {
    var wc := Chan(s, name);
    assert name in s.channels && Sane(wc);
    ListedPut(s.channels, item, name, wc);
    TidyListed(Put(s, name, wc), name, item);
  }

  lemma WaitListed(s: State, blocked: seq<nat>, i: nat, name: string, item: nat)
    requires Balanced(s, blocked, item)
    ensures var wc := Chan(s, name);
            Balanced(Put(s, name, wc.(waiters := wc.waiters + [i])), blocked + [i], item)
  {
    var wc := Chan(s, name);
    ListedPut(s.channels, item, name, wc.(waiters := wc.waiters + [i]));
  }

  lemma WaitBalanced(s: State, blocked: seq<nat>, i: nat, client: bool, name: string, item: nat)
    requires Inv(s) && Balanced(s, blocked, item)
    ensures var r := Wait(s, i, client, name);
            Balanced(r.0, blocked + (if r.1 == Block then [i] else []), item)
  {
    hide Inv, Balanced, Tidy;
    assert blocked + [] == blocked;
    if client && Chan(s, name).woken {
      WaitPassed(s, blocked, name, item);
    } else if client {
      WaitListed(s, blocked, i, name, item);
    }
  }

  lemma LockBalanced(s: State, blocked: seq<nat>, i: nat, client: bool, name: string, item: nat)
    requires Inv(s) && Balanced(s, blocked, item)
    ensures var r := Lock(s, i, client, name);
            Balanced(r.0, blocked + (if r.1 == Block then [i] else []), item)
  {
    assert blocked + [] == blocked;
    var wc := Chan(s, name);
    if client {
      ListedPut(s.channels, item, name, if wc.locked then wc.(lockers := wc.lockers + [i]) else wc.(locked := true));
    }
  }

  lemma StepBalanced(s: State, blocked: seq<nat>, step: Step, item: nat)
    requires Inv(s) && Balanced(s, blocked, item)
    ensures var r := Apply(s, step);
            Balanced(r.0, blocked + (if r.1 == Block && HasItem(step) then [step.item] else []), item)
  {
    hide Inv, Balanced, Signal, Wait, Lock, Unlock;
    assert blocked + [] == blocked;
    match step
    case DoSignal(name) => SignalBalanced(s, blocked, name, item);
    case DoUnlock(name) =>
      UnlockBalanced(s, blocked, name, item);
      UnlockNeverBlocks(s, name);
    case DoWait(i, client, name) => WaitBalanced(s, blocked, i, client, name, item);
    case DoLock(i, client, name) => LockBalanced(s, blocked, i, client, name, item);
  }

  lemma UnlockNeverBlocks(s: State, name: string)
    ensures Unlock(s, name).1 != Block
  {
  }

  lemma {:induction false} RunBalanced(steps: seq<Step>, item: nat)
    ensures Balanced(Run(steps), BlockedBy(steps), item)
    decreases |steps|
  {
    if steps != [] {
      var before := steps[..|steps| - 1];
      RunBalanced(before, item);
      RunKeeps(before);
      StepBalanced(Run(before), BlockedBy(before), steps[|steps| - 1], item);
    }
  }

  lemma {:induction false} BlockedOnce(steps: seq<Step>, item: nat)
    requires Once(steps)
    ensures multiset(BlockedBy(steps))[item] <= 1
    ensures item in BlockedBy(steps) ==> exists i :: 0 <= i < |steps| && HasItem(steps[i]) && steps[i].item == item
    decreases |steps|
  {
    if steps != [] {
      var before, step := steps[..|steps| - 1], steps[|steps| - 1];
      assert Once(before);
      BlockedOnce(before, item);
      if item in BlockedBy(before) {
        var i :| 0 <= i < |before| && HasItem(before[i]) && before[i].item == item;
        assert steps[i] == before[i];
      }
      if Apply(Run(before), step).1 == Block {
        assert HasItem(steps[|steps| - 1]);
      }
    }
  }

  /** In any run, an item that was made to wait is either in exactly one list of one
      channel or has been continued exactly once; no other item is in a list or was
      continued. */
  lemma WaitsOnce(steps: seq<Step>, item: nat)
    requires Once(steps)
    ensures var s := Run(steps);
            Listed(s.channels, item) + multiset(s.continued)[item] == if item in BlockedBy(steps) then 1 else 0
  {
    RunBalanced(steps, item);
    BlockedOnce(steps, item);
  }

  // ----- What a signal is worth

  /** After a signal the next wait passes at once exactly when nobody was waiting and it was
      not a second signal to an unlocked channel. */
  lemma SignalThenWait(s: State, name: string, item: nat)
    requires Inv(s)
    ensures Wait(Signal(s, name), item, true, name).1 == Normal <==>
            Chan(s, name).waiters == [] && (!Chan(s, name).woken || Chan(s, name).locked)
  {
    assert name in s.channels ==> Sane(s.channels[name]);
  }

  /** A wait that passes uses the signal up exactly when the channel is not locked. */
  lemma WaitUsesSignal(s: State, name: string, a: nat, b: nat)
    requires Chan(s, name).woken && Chan(s, name).waiters == []
    ensures var t := Wait(s, a, true, name).0;
            Wait(t, b, true, name).1 == Block <==> !Chan(s, name).locked
  {
  }

  // ----- The channels in place

  /** struct wait_channel */
  class WaitChannel {
    const name: string
    var locked: bool
    var woken: bool
    var waiters: seq<nat>
    var lockers: seq<nat>

    constructor (name: string)
      ensures this.name == name && !locked && !woken && waiters == [] && lockers == []
    {
      this.name := name;
      locked, woken, waiters, lockers := false, false, [], [];
    }

    ghost function View(): Channel
      reads this
    {
      Channel(locked, woken, waiters, lockers)
    }
  }

  class WaitChannels {
    var channels: map<string, WaitChannel>
    ghost var continued: seq<nat>
    ghost var asked: map<string, seq<nat>>
    ghost var given: map<string, seq<nat>>
    ghost var unlocks: map<string, nat>

    ghost predicate Valid()
      reads this, channels.Values
    {
      forall name :: name in channels ==> channels[name].name == name
    }

    ghost function View(): State
      reads this, channels.Values
    {
      State(map name | name in channels :: channels[name].View(), continued, asked, given, unlocks)
    }

    constructor ()
      ensures Valid() && View() == EMPTY
    {
      channels, continued, asked, given, unlocks := map[], [], map[], map[], map[];
    }

    /** cmd_wait_for_add, when there is no channel of that name */
    method Find(name: string) returns (wc: WaitChannel)
      requires Valid()
      modifies this`channels
      ensures Valid() && name in channels && channels[name] == wc && wc.name == name
      ensures View() == Put(old(View()), name, Chan(old(View()), name)) && wc.View() == Chan(old(View()), name)
      ensures forall n :: n in old(channels) ==> n in channels && channels[n] == old(channels)[n]
      ensures forall n :: n in channels && n !in old(channels) ==> fresh(channels[n])
    {
      if name in channels {
        wc := channels[name];
      } else {
        wc := new WaitChannel(name);
        channels := channels[name := wc];
      }
    }

    /** cmd_wait_for_remove */
    method Remove(wc: WaitChannel)
      requires Valid() && wc.name in channels && channels[wc.name] == wc
      modifies this`channels
      ensures Valid() && View() == Tidy(old(View()), wc.name)
    {
      if wc.locked {
        return;
      }
      if wc.waiters != [] || !wc.woken {
        return;
      }
      channels := channels - {wc.name};
    }

    method SetWoken(wc: WaitChannel)
      requires Valid() && wc.name in channels && channels[wc.name] == wc
      modifies wc`woken
      ensures Valid() && View() == Put(old(View()), wc.name, old(wc.View()).(woken := true))
    {
      wc.woken := true;
    }

    method SetLocked(wc: WaitChannel, locked: bool)
      requires Valid() && wc.name in channels && channels[wc.name] == wc
      modifies wc`locked
      ensures Valid() && View() == Put(old(View()), wc.name, old(wc.View()).(locked := locked))
    {
      wc.locked := locked;
    }

    method AddWaiter(wc: WaitChannel, item: nat)
      requires Valid() && wc.name in channels && channels[wc.name] == wc
      modifies wc`waiters
      ensures Valid() && View() == Put(old(View()), wc.name, old(wc.View()).(waiters := old(wc.waiters) + [item]))
    {
      wc.waiters := wc.waiters + [item];
    }

    method AddLocker(wc: WaitChannel, item: nat)
      requires Valid() && wc.name in channels && channels[wc.name] == wc
      modifies wc`lockers
      ensures Valid() && View() == Put(old(View()), wc.name, old(wc.View()).(lockers := old(wc.lockers) + [item]))
    {
      wc.lockers := wc.lockers + [item];
    }

    /** cmdq_continue and TAILQ_REMOVE of the first waiter */
    method WakeWaiter(wc: WaitChannel)
      requires Valid() && wc.name in channels && channels[wc.name] == wc && wc.waiters != []
      modifies this`continued, wc`waiters
      ensures Valid() && wc.waiters == old(wc.waiters)[1..]
      ensures View() == Put(old(View()), wc.name, old(wc.View()).(waiters := old(wc.waiters)[1..]))
                          .(continued := old(continued) + [old(wc.waiters)[0]])
    {
      continued := continued + [wc.waiters[0]];
      wc.waiters := wc.waiters[1..];
    }

    /** cmdq_continue and TAILQ_REMOVE of the first locker */
    method WakeLocker(wc: WaitChannel)
      requires Valid() && wc.name in channels && channels[wc.name] == wc && wc.lockers != []
      modifies this`continued, wc`lockers
      ensures Valid() && wc.lockers == old(wc.lockers)[1..]
      ensures View() == Put(old(View()), wc.name, old(wc.View()).(lockers := old(wc.lockers)[1..]))
                          .(continued := old(continued) + [old(wc.lockers)[0]])
    {
      continued := continued + [wc.lockers[0]];
      wc.lockers := wc.lockers[1..];
    }

    ghost method Ask(name: string, item: nat)
      requires Valid()
      modifies this`asked
      ensures Valid() && View() == old(View()).(asked := old(asked)[name := Asked(old(View()), name) + [item]])
    {
      asked := asked[name := Get(asked, name, []) + [item]];
    }

    ghost method Give(name: string, item: nat)
      requires Valid()
      modifies this`given
      ensures Valid() && View() == old(View()).(given := old(given)[name := Given(old(View()), name) + [item]])
    {
      given := given[name := Get(given, name, []) + [item]];
    }

    ghost method CountUnlock(name: string)
      requires Valid()
      modifies this`unlocks
      ensures Valid() && View() == old(View()).(unlocks := old(unlocks)[name := Unlocks(old(View()), name) + 1])
    {
      unlocks := unlocks[name := Get(unlocks, name, 0) + 1];
    }

    lemma Known(name: string)
      requires Valid()
      ensures name in View().channels <==> name in channels
      ensures name in channels ==> channels[name].View() == Chan(View(), name) && channels[name].name == name
      ensures View().asked == asked && View().given == given && View().unlocks == unlocks && View().continued == continued
    {
    }

    /** cmd_wait_for_signal */
    method DoSignal(name: string)
      requires Valid()
      modifies this, channels.Values
      ensures Valid() && View() == Signal(old(View()), name)
    {
      hide Tidy, View;
      ghost var s := View();
      Known(name);
      var wc := Find(name);
      ghost var c := wc.View();
      assert c == Channel(wc.locked, wc.woken, wc.waiters, wc.lockers);
      if wc.waiters == [] && !wc.woken {
        SetWoken(wc);
        PutTwice(s, name, c, c.(woken := true));
        return;
      }
      WakeAll(wc);
      PutTwice(s, name, c, c.(waiters := []));
      Remove(wc);
    }

    /** The loop of cmd_wait_for_signal. */
    method WakeAll(wc: WaitChannel)
      requires Valid() && wc.name in channels && channels[wc.name] == wc
      modifies this`continued, wc`waiters
      ensures Valid()
      ensures View() == Put(old(View()), wc.name, old(wc.View()).(waiters := [])).(continued := old(continued) + old(wc.waiters))
    {
      hide View;
      ghost var s, c := View(), wc.View();
      assert c == Channel(wc.locked, wc.woken, wc.waiters, wc.lockers);
      Known(wc.name);
      PutSame(s, wc.name);
      while wc.waiters != []
        invariant Valid() && wc.name in channels && channels[wc.name] == wc
        invariant continued + wc.waiters == s.continued + c.waiters
        invariant View() == Put(s, wc.name, c.(waiters := wc.waiters)).(continued := continued)
        decreases |wc.waiters|
      {
        ghost var w := wc.waiters;
        Known(wc.name);
        assert continued + w == continued + [w[0]] + w[1..];
        assert wc.View() == c.(waiters := w);
        WakeWaiter(wc);
        Known(wc.name);
        PutTwice(s, wc.name, c.(waiters := w), c.(waiters := wc.waiters));
      }
      assert continued + [] == continued;
    }

    /** cmd_wait_for_wait */
    method DoWait(item: nat, client: bool, name: string) returns (r: Result)
      requires Valid()
      modifies this, channels.Values
      ensures Valid() && (View(), r) == Wait(old(View()), item, client, name)
    {
      hide Tidy, View;
      if !client {
        return Error;
      }
      ghost var s := View();
      var wc := Find(name);
      ghost var c := wc.View();
      assert c == Channel(wc.locked, wc.woken, wc.waiters, wc.lockers);
      if wc.woken {
        Remove(wc);
        return Normal;
      }
      AddWaiter(wc, item);
      PutTwice(s, name, c, c.(waiters := c.waiters + [item]));
      return Block;
    }

    /** cmd_wait_for_lock */
    method DoLock(item: nat, client: bool, name: string) returns (r: Result)
      requires Valid()
      modifies this, channels.Values
      ensures Valid() && (View(), r) == Lock(old(View()), item, client, name)
    {
      hide View;
      if !client {
        return Error;
      }
      ghost var s := View();
      Known(name);
      var wc := Find(name);
      ghost var c := wc.View();
      assert c == Channel(wc.locked, wc.woken, wc.waiters, wc.lockers);
      Known(name);
      Ask(name, item);
      ghost var t := s.(asked := s.asked[name := Asked(s, name) + [item]]);
      assert View() == Put(t, name, c);
      if wc.locked {
        PutTwice(t, name, c, c.(lockers := c.lockers + [item]));
        AddLocker(wc, item);
        return Block;
      }
      PutTwice(t, name, c, c.(locked := true));
      SetLocked(wc, true);
      Known(name);
      Give(name, item);
      return Normal;
    }

    /** The body of the loop of cmd_wait_for_flush. */
    method FlushOne(name: string)
      requires Valid() && name in channels
      modifies this`channels, this`continued, channels[name]
      ensures Valid() && View() == Flushed(old(View()), name)
      ensures channels == old(channels) - {name}
    {
      ghost var s := View();
      var wc := channels[name];
      continued := continued + wc.waiters;
      wc.waiters := [];
      wc.woken := true;
      continued := continued + wc.lockers;
      wc.lockers := [];
      wc.locked := false;
      if !wc.locked && wc.waiters == [] && wc.woken {
        channels := channels - {name};
      }
      assert View().channels == s.channels - {name};
    }

    /** cmd_wait_for_flush: every item that waits is continued as often as it is in a list, so
        once in any run, no other is, and every channel goes. */
    method Flush()
      requires Valid()
      modifies this`channels, this`continued, channels.Values
      ensures Valid() && channels == map[] && old(continued) <= continued
      ensures forall item :: multiset(continued)[item] == old(Waiting(View(), item))
    {
      hide View, Flushed;
      ghost var s := View();
      Viewed();
      while channels.Keys != {}
        invariant Valid() && channels.Values <= old(channels.Values) && s.continued <= continued
        invariant View().channels.Keys == channels.Keys && View().continued == continued
        invariant forall item :: Waiting(View(), item) == Waiting(s, item)
        decreases |channels|
      {
        var name :| name in channels.Keys;
        FlushedWaits(View(), name);
        FlushOne(name);
        Viewed();
      }
      FlushedAll(View().channels);
      forall item
        ensures multiset(continued)[item] == Waiting(s, item)
      {
        assert Waiting(View(), item) == Waiting(s, item);
      }
    }

    lemma Viewed()
      ensures View().channels.Keys == channels.Keys && View().continued == continued
    {
    }

    /** cmd_wait_for_unlock */
    method DoUnlock(name: string) returns (r: Result)
      requires Valid()
      modifies this, channels.Values
      ensures Valid() && (View(), r) == Unlock(old(View()), name)
    {
      hide Tidy, View;
      ghost var s := View();
      Known(name);
      if name !in channels || !channels[name].locked {
        return Error;
      }
      var wc := channels[name];
      ghost var c := wc.View();
      assert c == Channel(wc.locked, wc.woken, wc.waiters, wc.lockers);
      CountUnlock(name);
      if wc.lockers != [] {
        ghost var first := wc.lockers[0];
        Known(name);
        WakeLocker(wc);
        Known(name);
        Give(name, first);
      } else {
        SetLocked(wc, false);
        Remove(wc);
      }
      return Normal;
    }
  }

  lemma PutSame(s: State, name: string)
    requires name in s.channels
    ensures Put(s, name, s.channels[name]) == s
  {
  }

  lemma PutTwice(s: State, name: string, a: Channel, b: Channel)
    ensures Put(Put(s, name, a), name, b) == Put(s, name, b)
  {
  }
}

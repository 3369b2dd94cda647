/** What becomes of the items that a running item puts on its queue, over a whole call of
    cmdq_next (cmd-queue.c). */
module CmdQueueRuns {
  import opened CmdQueueState
  import opened CmdQueueSteps
  import opened CmdQueueChains
  import opened CmdQueueWork

  /** An item of a queue: still on it, or fired from it, or cancelled. */
  ghost predicate Known(s: State, q: nat, x: nat) {
    q in s.lists && q in s.shots && (x in s.lists[q] || x in s.shots[q] || x in s.cancelled)
  }

  lemma WithinHas(a: seq<nat>, b: seq<nat>, x: nat)
    requires Within(a, b) && x in a
    ensures x in b
  {
    FilterMembers(b, Members(a));
  }

  /** What a failing item leaves, and what it takes. */
  lemma LeftOrGone(ran: State, q: nat, x: nat)
    requires q in ran.lists && x in ran.lists[q]
    ensures x in Left(ran, q) || x in Gone(ran, q)
  {
    var list := ran.lists[q];
    if list[0] in ran.items && Fails(ran, q) {
      var group := ran.items[list[0]].group;
      OthersMembers(list[1..], ran.items, group);
      assert list == [list[0]] + list[1..];
    }
  }

  lemma FiredKnown(s: State, run: Run, ran: State, t: State, q: nat, x: nat)
    requires FiredAs(s, run, ran, t, q) && (Known(s, q, x) || (q in ran.lists && x in ran.lists[q]))
    ensures Known(t, q, x)
  {
    hide Gone, Left, RanPlan, Within;
    if x in s.lists[q] {
      WithinHas(s.lists[q], ran.lists[q], x);
    }
    if x in ran.lists[q] {
      LeftOrGone(ran, q, x);
    }
  }

  /** The head is among the shots once it has been fired. */
  lemma HeadShot(r: Round, q: nat)
    requires Went(r, q)
    ensures q in r.done.lists && r.done.lists[q] != [] && q in r.done.shots && r.done.lists[q][0] in r.done.shots[q]
  {
    if HeadFired(r.before, q) {
      HeadKnown(r.before, q);
      HeadStarted(r.before, q);
    } else {
      hide Good, Gone, Ran, RanPlan;
    }
  }

  lemma HeadStarted(s: State, q: nat)
    requires Good(s) && HeadFired(s, q) && s.items[s.lists[q][0]].place == On(q)
    ensures q in s.shots && s.lists[q][0] in s.shots[q]
  {
    hide Track, Referenced, Past, Homed;
  }

  lemma {:induction false} WithoutHas(list: seq<nat>, y: nat, x: nat)
    requires x in list && x != y
    ensures x in Without(list, y)
  {
    if list[0] != y && list[0] != x {
      WithoutHas(list[1..], y, x);
    }
  }

  lemma WentKnown(r: Round, q: nat, x: nat)
    requires Went(r, q)
    requires Known(r.before, q, x) || (!HeadFired(r.before, q) && q in r.ran.lists && x in r.ran.lists[q])
    ensures Known(r.after, q, x)
  {
    hide Good, FiredAs, Without, Unref;
    HeadShot(r, q);
    if !HeadFired(r.before, q) {
      FiredKnown(r.before, r.run, r.ran, r.done, q, x);
    }
    if r.after != r.done && x in r.done.lists[q] && x != r.done.lists[q][0] {
      WithoutHas(r.done.lists[q], r.done.lists[q][0], x);
    }
  }

  /** Of a queue that was worked off: whatever was on it while one of its items ran has been
      fired since, or was cancelled. */
  lemma {:induction false} WorkedOff(s: State, rounds: seq<Round>, t: State, q: nat, i: nat, x: nat)
    requires Rounds(s, rounds, t, q) && i < |rounds| && !HeadFired(rounds[i].before, q)
    requires q in rounds[i].ran.lists && x in rounds[i].ran.lists[q]
    ensures Known(t, q, x)
    decreases |rounds|
  {
    hide Went, Known;
    var n := |rounds| - 1;
    if i < n {
      assert rounds[..n][i] == rounds[i];
      WorkedOff(s, rounds[..n], rounds[n].before, q, i, x);
    }
    WentKnown(rounds[n], q, x);
  }

  // ----- From an act of a plan to the queue

  /** No act takes anything off a queue. */
  lemma DoesGrows(d: Deed, id: nat, act: Act, p: nat, x: nat)
    requires Does(d, id, act) && p in d.before.lists && x in d.before.lists[p]
    ensures p in d.after.lists && x in d.after.lists[p]
  {
    hide Running, Untouched;
    if d.after.lists != d.before.lists && act.Insert? {
      var y := if act.atLast then d.last else id;
      var list := d.before.lists[d.before.items[y].place.queue];
      assert list == list[..d.at + 1] + list[d.at + 1..];
    }
  }

  lemma {:induction false} DoesAllGrows(s: State, deeds: seq<Deed>, t: State, id: nat, acts: seq<Act>, p: nat, x: nat)
    requires DoesAll(s, deeds, t, id, acts) && p in s.lists && x in s.lists[p]
    ensures p in t.lists && x in t.lists[p]
    decreases |deeds|
  {
    hide Does;
    if deeds != [] {
      var n := |deeds| - 1;
      DoesAllGrows(s, deeds[..n], deeds[n].before, id, acts[..n], p, x);
      DoesGrows(deeds[n], id, acts[n], p, x);
    }
  }

  /** The running item, and the one last inserted, stay on its queue. */
  ghost predicate Here(s: State, x: nat, q: nat) {
    x in s.items && s.items[x].place == On(q)
  }

  lemma DoesHere(d: Deed, id: nat, act: Act, q: nat)
    requires Does(d, id, act) && Here(d.before, id, q) && Here(d.before, d.last, q)
    ensures Here(d.after, id, q) && Here(d.after, d.now, q)
  {
    if d.now != d.last && act.Insert? {
      assert d.after.items[d.chain[|d.chain| - 1]].place == On(q);
    }
  }

  lemma {:induction false} DoesAllHere(s: State, deeds: seq<Deed>, t: State, id: nat, acts: seq<Act>, q: nat)
    requires DoesAll(s, deeds, t, id, acts) && Here(s, id, q)
    ensures Here(t, id, q) && (deeds != [] ==> Here(t, deeds[|deeds| - 1].now, q))
    decreases |deeds|
  {
    hide Does, Here;
    if deeds != [] {
      var n := |deeds| - 1;
      DoesAllHere(s, deeds[..n], deeds[n].before, id, acts[..n], q);
      if n > 0 {
        assert deeds[..n][n - 1] == deeds[n - 1];
      }
      DoesHere(deeds[n], id, acts[n], q);
    }
  }

  /** What an insertion makes is on the queue when the acts are done. */
  lemma {:induction false} InsertedStays(s: State, deeds: seq<Deed>, t: State, id: nat, acts: seq<Act>, q: nat, k: nat, x: nat)
    requires DoesAll(s, deeds, t, id, acts) && Here(s, id, q) && k < |deeds| && x in deeds[k].chain
    requires acts[k].Insert? && Allowed(deeds[k].before, acts[k].cmdlist, acts[k].state)
    ensures q in t.lists && x in t.lists[q]
    decreases |deeds|
  {
    hide Does, Here;
    var n := |deeds| - 1;
    if k < n {
      assert deeds[..n][k] == deeds[k] && acts[..n][k] == acts[k];
      InsertedStays(s, deeds[..n], deeds[n].before, id, acts[..n], q, k, x);
      DoesGrows(deeds[n], id, acts[n], q, x);
    } else {
      DoesAllHere(s, deeds[..n], deeds[n].before, id, acts[..n], q);
      if n > 0 {
        assert deeds[..n][n - 1] == deeds[n - 1];
      }
      InsertedHere(deeds[n], id, acts[n], q, x);
    }
  }

  lemma InsertedHere(d: Deed, id: nat, act: Act, q: nat, x: nat)
    requires Does(d, id, act) && Here(d.before, id, q) && Here(d.before, d.last, q) && x in d.chain
    requires act.Insert? && Allowed(d.before, act.cmdlist, act.state)
    ensures q in d.after.lists && x in d.after.lists[q]
  {
    hide Running, Untouched;
  }

  lemma {:induction false} RoundsAt(s: State, rounds: seq<Round>, t: State, q: nat, i: nat)
    requires Rounds(s, rounds, t, q) && i < |rounds|
    ensures Went(rounds[i], q)
    decreases |rounds|
  {
    hide Went;
    var n := |rounds| - 1;
    if i < n {
      assert rounds[..n][i] == rounds[i];
      RoundsAt(s, rounds[..n], rounds[n].before, q, i);
    }
  }

  /** The head of the queue is fired in this turn, and its plan, while it has the client found
      for it, has an insertion as act `k`, of a list and for a state that are there. */
  ghost predicate Inserting(r: Round, q: nat, k: nat) {
    var b := r.before;
    && q in b.lists && b.lists[q] != [] && b.lists[q][0] in b.items && !HeadFired(b, q)
    && var acts := b.items[b.lists[q][0]].plan.during;
    && k < |acts| && k < |r.run.during| && acts[k].Insert?
    && Allowed(r.run.during[k].before, acts[k].cmdlist, acts[k].state)
  }

  /** The commands it inserts. */
  function ToInsert(r: Round, q: nat, k: nat): seq<Command>
    requires q in r.before.lists && r.before.lists[q] != [] && r.before.lists[q][0] in r.before.items
    requires var acts := r.before.items[r.before.lists[q][0]].plan.during; k < |acts| && acts[k].Insert?
  {
    r.before.items[r.before.lists[q][0]].plan.during[k].commands
  }

  lemma InsertingStays(r: Round, q: nat, k: nat, x: nat)
    requires Went(r, q) && Inserting(r, q, k) && x in r.run.during[k].chain
    ensures q in r.ran.lists && x in r.ran.lists[q]
  {
    var id := r.before.lists[q][0];
    var plan := r.before.items[id].plan;
    HeadKnown(r.before, q);
    hide Good, DoesAll, Does, Ran, Gone, Left;
    InsertedStays(r.run.started, r.run.during, r.run.done, id, plan.during, q, k, x);
    DoesAllGrows(r.run.restored, r.run.after, r.ran, id, plan.after, q, x);
  }

  lemma {:induction false} DoesAllAt(s: State, deeds: seq<Deed>, t: State, id: nat, acts: seq<Act>, k: nat)
    requires DoesAll(s, deeds, t, id, acts) && k < |deeds|
    ensures k < |acts| && Does(deeds[k], id, acts[k])
    decreases |deeds|
  {
    hide Does;
    var n := |deeds| - 1;
    if k < n {
      assert deeds[..n][k] == deeds[k] && acts[..n][k] == acts[k];
      DoesAllAt(s, deeds[..n], deeds[n].before, id, acts[..n], k);
    }
  }

  /** The commands that an item's plan inserts while it runs have each a new item of its own,
      and each of those has been fired from the queue, or was cancelled, or is still on it, when
      cmdq_next returns; so when the queue was worked off, fired or cancelled. */
  lemma InsertedAreFired(s: State, rounds: seq<Round>, t: State, q: nat, i: nat, k: nat)
    requires Rounds(s, rounds, t, q) && i < |rounds| && Inserting(rounds[i], q, k)
    ensures |rounds[i].run.during[k].chain| == |Coming(ToInsert(rounds[i], q, k))| && Unique(rounds[i].run.during[k].chain)
    ensures forall x :: x in rounds[i].run.during[k].chain ==> Known(t, q, x)
    ensures q in t.lists && t.lists[q] == [] ==>
              forall x :: x in rounds[i].run.during[k].chain ==> x in t.shots[q] || x in t.cancelled
  {
    hide Went, Inserting, Known;
    RoundsAt(s, rounds, t, q, i);
    InsertingChain(rounds[i], q, k);
    forall x | x in rounds[i].run.during[k].chain
      ensures Known(t, q, x)
    {
      InsertingStays(rounds[i], q, k, x);
      InsertingFires(rounds[i], q, k);
      WorkedOff(s, rounds, t, q, i, x);
    }
    KnownEmpty(t, q);
  }

  lemma KnownEmpty(t: State, q: nat)
    ensures forall x :: Known(t, q, x) ==> q in t.lists && q in t.shots && (t.lists[q] == [] ==> x in t.shots[q] || x in t.cancelled)
  {
  }

  lemma InsertingFires(r: Round, q: nat, k: nat)
    requires Inserting(r, q, k)
    ensures !HeadFired(r.before, q)
  {
  }

  lemma InsertingChain(r: Round, q: nat, k: nat)
    requires Went(r, q) && Inserting(r, q, k)
    ensures k < |r.run.during| && |r.run.during[k].chain| == |Coming(ToInsert(r, q, k))| && Unique(r.run.during[k].chain)
  {
    hide Good, DoesAll, Ran, Gone, Left;
    var id := r.before.lists[q][0];
    DoesAllAt(r.run.started, r.run.during, r.run.done, id, r.before.items[id].plan.during, k);
  }
}

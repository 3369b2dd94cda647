/** Command lists and the groups of their commands (cmd.c): an error in a queue cancels the
    rest of a group, so copies must not merge or split groups. */
module CmdLists {

  // ----- Groups on values

  /** The groups a copy gives: `last` is the group last seen in the original and `now` the
      one being given, a new one from `next` being taken whenever the group changes. */
  function Renumber(gs: seq<nat>, last: nat, now: nat, next: nat): (r: seq<nat>)
    ensures |r| == |gs|
  {
    if gs == [] then []
    else if gs[0] != last then [next] + Renumber(gs[1..], gs[0], next, next + 1)
    else [now] + Renumber(gs[1..], last, now, next)
  }

  lemma RenumberStep(gs: seq<nat>, last: nat, now: nat, next: nat)
    requires gs != []
    ensures Renumber(gs, last, now, next)
            == if gs[0] != last then [next] + Renumber(gs[1..], gs[0], next, next + 1)
               else [now] + Renumber(gs[1..], last, now, next)
  {
  }

  lemma Regroup(a: seq<nat>, b: nat, c: seq<nat>)
    ensures a + ([b] + c) == a + [b] + c
  {
  }

  lemma NoMore(last: nat, now: nat, next: nat)
    ensures Renumber([], last, now, next) == []
  {
  }

  /** Commands i and j of a list, i before j, and all between have one group. */
  predicate OneRun(gs: seq<nat>, i: nat, j: nat)
    requires i <= j < |gs|
  {
    forall k :: i <= k <= j ==> gs[k] == gs[i]
  }

  lemma {:induction false} RenumberBounds(gs: seq<nat>, last: nat, now: nat, next: nat)
    requires now < next
    ensures var r := Renumber(gs, last, now, next);
            && (forall i :: 0 <= i < |r| ==> r[i] >= now)
            && (gs != [] ==> (r[0] == now <==> gs[0] == last))
            && (gs != [] && gs[0] != last ==> forall i :: 0 <= i < |r| ==> r[i] > now)
  {
    if gs != [] {
      if gs[0] != last {
        RenumberBounds(gs[1..], gs[0], next, next + 1);
      } else {
        RenumberBounds(gs[1..], last, now, next);
      }
    }
  }

  /** A command of the copy is in the group being given exactly while the original's
      commands are all in the group last seen. */
  lemma {:induction false} SameAsNow(gs: seq<nat>, last: nat, now: nat, next: nat, j: nat)
    requires now < next && j < |gs|
    ensures Renumber(gs, last, now, next)[j] == now <==> forall k :: 0 <= k <= j ==> gs[k] == last
  {
    var r := Renumber(gs, last, now, next);
    RenumberBounds(gs, last, now, next);
    if gs[0] != last {
      assert r[j] > now;
    } else if j > 0 {
      var t := gs[1..];
      SameAsNow(t, last, now, next, j - 1);
      assert r[j] == Renumber(t, last, now, next)[j - 1];
      if forall k :: 0 <= k <= j - 1 ==> t[k] == last {
        forall k | 0 <= k <= j
          ensures gs[k] == last
        {
          assert k > 0 ==> gs[k] == t[k - 1];
        }
      } else {
        var k :| 0 <= k <= j - 1 && t[k] != last;
        assert gs[k + 1] != last;
      }
    }
  }

  /** Two commands of a copy are in one group exactly when the originals are, with all that
      stand between them: in particular, neighbours are exactly as before. */
  lemma {:induction false} CopyGroups(gs: seq<nat>, last: nat, now: nat, next: nat, i: nat, j: nat)
    requires now < next && i <= j < |gs|
    ensures var r := Renumber(gs, last, now, next);
            r[i] == r[j] <==> OneRun(gs, i, j)
  {
    var r, t := Renumber(gs, last, now, next), gs[1..];
    if i > 0 {
      var last', now', next' := if gs[0] != last then gs[0] else last, if gs[0] != last then next else now,
        if gs[0] != last then next + 1 else next;
      CopyGroups(t, last', now', next', i - 1, j - 1);
      assert r[i] == Renumber(t, last', now', next')[i - 1] && r[j] == Renumber(t, last', now', next')[j - 1];
      Shifted(gs, i, j);
    } else if gs[0] == last {
      SameAsNow(gs, last, now, next, j);
      assert r[0] == now;
    } else if j > 0 {
      SameAsNow(t, gs[0], next, next + 1, j - 1);
      assert r[0] == next && r[j] == Renumber(t, gs[0], next, next + 1)[j - 1];
      HeadRun(gs, j);
    }
  }

  lemma HeadRun(gs: seq<nat>, j: nat)
    requires 0 < j < |gs|
    ensures OneRun(gs, 0, j) <==> forall k :: 0 <= k <= j - 1 ==> gs[1..][k] == gs[0]
  {
    var t := gs[1..];
    if OneRun(gs, 0, j) {
      forall k | 0 <= k <= j - 1
        ensures t[k] == gs[0]
      {
        assert t[k] == gs[k + 1];
      }
    } else {
      var k :| 0 <= k <= j && gs[k] != gs[0];
      assert t[k - 1] == gs[k];
    }
  }

  lemma Shifted(gs: seq<nat>, i: nat, j: nat)
    requires 0 < i <= j < |gs|
    ensures OneRun(gs[1..], i - 1, j - 1) <==> OneRun(gs, i, j)
  {
    var t := gs[1..];
    if OneRun(t, i - 1, j - 1) {
      forall k | i <= k <= j
        ensures gs[k] == gs[i]
      {
        assert t[k - 1] == t[i - 1];
      }
    } else {
      var k :| i - 1 <= k <= j - 1 && t[k] != t[i - 1];
      assert gs[k + 1] != gs[i];
    }
  }

  /** A group is in one piece. */
  predicate Contiguous(gs: seq<nat>) {
    forall i, j :: 0 <= i <= j < |gs| && gs[i] == gs[j] ==> OneRun(gs, i, j)
  }

  /** A copy has the groups of the original exactly when each of those is in one piece. */
  lemma CopyIsFaithful(gs: seq<nat>, last: nat, now: nat, next: nat)
    requires now < next
    ensures var r := Renumber(gs, last, now, next);
            Contiguous(gs) <==> forall i, j :: 0 <= i <= j < |gs| ==> (r[i] == r[j] <==> gs[i] == gs[j])
  {
    forall i, j | 0 <= i <= j < |gs|
      ensures Renumber(gs, last, now, next)[i] == Renumber(gs, last, now, next)[j] <==> OneRun(gs, i, j)
    {
      CopyGroups(gs, last, now, next, i, j);
    }
  }

  // ----- The lists

  /** struct cmd, as far as lists go. */
  class Command {
    var group: nat
    const text: string

    constructor (text: string)
      ensures this.text == text && group == 0
    {
      this.text := text;
      group := 0;
    }
  }

  ghost predicate Distinct(list: seq<Command>) {
    forall i, j :: 0 <= i < j < |list| ==> list[i] != list[j]
  }

  ghost function GroupsOf(list: seq<Command>): (r: seq<nat>)
    reads list
    ensures |r| == |list| && forall i :: 0 <= i < |list| ==> r[i] == list[i].group
  {
    seq(|list|, i requires 0 <= i < |list| reads list => list[i].group)
  }

  /** cmd_list_next_group */
  class Counter {
    var next: nat

    constructor ()
      ensures next == 1
    {
      next := 1;
    }

    method Take() returns (group: nat)
      modifies this
      ensures group == old(next) && next == old(next) + 1
    {
      group := next;
      next := next + 1;
    }
  }

  /** struct cmd_list */
  class CmdList {
    var references: nat
    var group: nat
    var list: seq<Command>

    /** Every group was taken from the counter. */
    ghost predicate Valid(counter: Counter)
      reads this, list, counter
    {
      && Distinct(list) && group < counter.next
      && forall i :: 0 <= i < |list| ==> list[i].group < counter.next
    }

    /** cmd_list_new */
    constructor (counter: Counter)
      modifies counter
      ensures Valid(counter) && fresh(this) && references == 1 && list == [] && group == old(counter.next)
      ensures counter.next == old(counter.next) + 1
    {
      references := 1;
      list := [];
      group := counter.next;
      new;
      var g := counter.Take();
    }

    /** cmd_list_append */
    method Append(cmd: Command, counter: Counter)
      requires Valid(counter) && cmd !in list
      modifies this`list, cmd
      ensures Valid(counter) && list == old(list) + [cmd] && cmd.group == group
    {
      cmd.group := group;
      list := list + [cmd];
    }

    /** cmd_list_append_all: the commands come over into this list's group. */
    method AppendAll(from: CmdList, counter: Counter)
      requires Valid(counter) && from.Valid(counter) && from != this
      requires forall i, j :: 0 <= i < |list| && 0 <= j < |from.list| ==> list[i] != from.list[j]
      modifies this`list, from`list, from.list
      ensures Valid(counter) && from.Valid(counter) && from.list == []
      ensures list == old(list) + old(from.list)
      ensures forall i :: 0 <= i < |list| ==> list[i].group == if i < |old(list)| then old(list[i].group) else group
    {
      for i := 0 to |from.list|
        invariant list == old(list) && from.list == old(from.list)
        invariant forall k :: 0 <= k < i ==> from.list[k].group == group
        invariant forall k :: 0 <= k < |list| ==> list[k].group == old(list[k].group)
      {
        assert from.list[i] in from.list;
        from.list[i].group := group;
      }
      list := list + from.list;
      from.list := [];
    }

    /** cmd_list_move: the commands keep their groups, and what is appended later is in a
        group with none of them. */
    method Move(from: CmdList, counter: Counter)
      requires Valid(counter) && from.Valid(counter) && from != this
      requires forall i, j :: 0 <= i < |list| && 0 <= j < |from.list| ==> list[i] != from.list[j]
      modifies this`list, this`group, from`list, counter
      ensures Valid(counter) && from.Valid(counter) && from.list == []
      ensures group == old(counter.next) && counter.next == old(counter.next) + 1
      ensures list == old(list) + old(from.list)
      ensures forall i :: 0 <= i < |list| ==> list[i].group != group
    {
      list := list + from.list;
      from.list := [];
      group := counter.Take();
    }

    /** cmd_list_copy */
    method Copy(counter: Counter) returns (copy: CmdList)
      requires Valid(counter)
      modifies counter
      ensures fresh(copy) && copy.Valid(counter) && Valid(counter) && copy.references == 1
      ensures |copy.list| == |list| && fresh(copy.list)
      ensures forall i :: 0 <= i < |list| ==> copy.list[i].text == list[i].text
      ensures GroupsOf(copy.list) == Renumber(GroupsOf(list), group, old(counter.next), old(counter.next) + 1)
      ensures forall i, j :: 0 <= i <= j < |list| ==>
                (copy.list[i].group == copy.list[j].group <==> OneRun(GroupsOf(list), i, j))
    {
      hide Renumber, OneRun;
      copy := new CmdList(counter);
      copy.CopyAll(list, group, counter);
      forall i, j | 0 <= i <= j < |list|
        ensures copy.list[i].group == copy.list[j].group <==> OneRun(GroupsOf(list), i, j)
      {
        CopyGroups(GroupsOf(list), group, old(counter.next), old(counter.next) + 1, i, j);
      }
    }

    /** The loop of cmd_list_copy, by the copy. */
    method CopyAll(from: seq<Command>, first: nat, counter: Counter)
      requires Valid(counter) && list == []
      modifies this`group, this`list, counter
      ensures Valid(counter) && counter.next >= old(counter.next) && |list| == |from| && fresh(list)
      ensures forall k :: 0 <= k < |from| ==> list[k].text == from[k].text
      ensures GroupsOf(list) == Renumber(old(GroupsOf(from)), first, old(group), old(counter.next))
    {
      hide Renumber, GroupsOf, Distinct, Valid;
      var last := first;
      ghost var gs := GroupsOf(from);
      ghost var goal := Renumber(gs, first, group, counter.next);
      assert gs[0..] == gs;
      for i := 0 to |from|
        invariant Valid(counter) && counter.next >= old(counter.next) && |list| == i && fresh(list)
        invariant forall k :: 0 <= k < i ==> list[k].text == from[k].text
        invariant goal == GroupsOf(list) + Renumber(gs[i..], last, group, counter.next)
      {
        ghost var left, was := gs[i..], list;
        assert left[0] == gs[i] && left[1..] == gs[i + 1..];
        RenumberStep(left, last, group, counter.next);
        ghost var done := GroupsOf(list);
        last := CopyOne(from[i], last, counter);
        assert forall k :: 0 <= k < i ==> list[k] == was[k];
        Regroup(done, group, Renumber(gs[i + 1..], last, group, counter.next));
      }
      NoMore(last, group, counter.next);
      assert gs[|from|..] == [];
      assert GroupsOf(list) + [] == GroupsOf(list);
    }

    /** One turn of cmd_list_copy, by the copy. */
    method CopyOne(cmd: Command, last: nat, counter: Counter) returns (now: nat)
      requires Valid(counter)
      modifies this`group, this`list, counter
      ensures Valid(counter) && counter.next >= old(counter.next)
      ensures |list| == |old(list)| + 1 && list[..|list| - 1] == old(list) && fresh(list[|list| - 1])
      ensures list[|list| - 1].text == cmd.text && now == cmd.group
      ensures if cmd.group != last then group == old(counter.next) && counter.next == old(counter.next) + 1
              else group == old(group) && counter.next == old(counter.next)
      ensures GroupsOf(list) == old(GroupsOf(list)) + [group]
    {
      ghost var was := GroupsOf(list);
      now := last;
      if cmd.group != last {
        group := counter.Take();
        now := cmd.group;
      }
      var copy := new Command(cmd.text);
      Append(copy, counter);
      assert GroupsOf(list) == was + [group];
    }

    /** cmd_list_free; true when that was the last reference and the commands went too. */
    method Free() returns (freed: bool)
      requires references > 0
      modifies this`references, this`list
      ensures references == old(references) - 1 && freed == (references == 0)
      ensures list == if freed then [] else old(list)
    {
      references := references - 1;
      freed := references == 0;
      while freed && list != []
        invariant references == old(references) - 1 && freed == (references == 0)
        invariant !freed ==> list == old(list)
        decreases |list|
      {
        list := list[1..];
      }
    }
  }

  /** A command moved from a list, one appended, and another moved from the same list, which
      was used again: cmd_list_move takes a new group for one list and not for the other. */
  method MoveTwice(to: CmdList, from: CmdList, a: Command, b: Command, c: Command, counter: Counter)
    requires to != from && to.Valid(counter) && from.Valid(counter) && to.list == from.list == []
    requires a != b && a != c && b != c
    modifies to, from, a, b, c, counter
    ensures to.Valid(counter) && to.list == [a, b, c] && from.list == []
    ensures a.group == c.group == old(from.group) && b.group == old(counter.next)
    ensures counter.next == old(counter.next) + 2
  {
    from.Append(a, counter);
    to.Move(from, counter);
    to.Append(b, counter);
    from.Append(c, counter);
    to.Move(from, counter);
  }

  lemma InTwoPieces(list: seq<Command>)
    requires |list| == 3 && list[0].group == list[2].group != list[1].group
    ensures !OneRun(GroupsOf(list), 0, 2) && !Contiguous(GroupsOf(list))
  {
    var gs := GroupsOf(list);
    assert gs[0] == gs[2] != gs[1];
    assert !OneRun(gs, 0, 2);
  }

  /** So the operations can leave a group in two pieces. */
  method TwoPieces(texts: seq<string>) returns (to: CmdList, counter: Counter)
    requires |texts| == 3
    ensures to.Valid(counter) && |to.list| == 3 && forall i :: 0 <= i < 3 ==> to.list[i].text == texts[i]
    ensures to.list[0].group == to.list[2].group != to.list[1].group && !Contiguous(GroupsOf(to.list))
  {
    hide Contiguous, OneRun, GroupsOf;
    counter := new Counter();
    to := new CmdList(counter);
    var from := new CmdList(counter);
    var a := new Command(texts[0]);
    var b := new Command(texts[1]);
    var c := new Command(texts[2]);
    MoveTwice(to, from, a, b, c, counter);
    InTwoPieces(to.list);
  }

  /** In a copy of such a list the two pieces are not one group. */
  method CopyInTwo(from: CmdList, counter: Counter) returns (copy: CmdList)
    requires from.Valid(counter) && |from.list| == 3 && from.list[0].group == from.list[2].group != from.list[1].group
    modifies counter
    ensures |copy.list| == 3 && copy.list[0].group != copy.list[2].group
  {
    hide Contiguous, OneRun, Renumber, GroupsOf;
    InTwoPieces(from.list);
    copy := from.Copy(counter);
  }
}

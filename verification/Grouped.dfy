/** The grouped walk: one value of the group column at a time, and a keyset walk
    of the key inside it. The table's keys are pairs, group first. */
module Grouped {
  import opened Options
  import opened Order
  import opened Walk
  import opened Batches

  /** Where a grouped walk has got to. A group with no key is that group from its
      beginning. */
  datatype GroupCursor = NotStarted | InGroup(group: int, key: Option<int>)

  /** The same place in the flat order of pairs: a bare group sorts after every
      pair of an earlier group and before every pair of its own. */
  function PositionOf(c: GroupCursor): Position {
    match c
    case NotStarted => Bottom
    case InGroup(g, None) => At([g])
    case InGroup(g, Some(k)) => At([g, k])
  }

  ghost predicate Paired(t: Table) {
    forall k :: k in t ==> |k| == 2
  }

  lemma PairOrder(c: GroupCursor, g: int, k: int)
    ensures Above(PositionOf(c), [g, k]) <==>
            c.NotStarted? || c.group < g || (c.group == g && (c.key.None? || c.key.value < k))
  {
    if c.InGroup? {
      assert Less([], [k]) && !Less([k], []);
      if c.key.Some? {
        assert Less([c.key.value], [k]) <==> c.key.value < k by { assert !Less([], []); }
        assert [c.group, c.key.value][1..] == [c.key.value] && [g, k][1..] == [k];
      }
      assert [c.group][1..] == [] && [g, k][1..] == [k];
    }
  }

  /** The group values after the cursor's, or all of them, each as the key [g]. */
  function GroupsAfter(t: Table, c: GroupCursor): set<Key> {
    set k | k in t && k != [] && (c.NotStarted? || c.group < k[0]) :: [k[0]]
  }

  /** SELECT group ... WHERE group > $1 OR $1 IS NULL ORDER BY group LIMIT 1. */
  function NextGroup(t: Table, c: GroupCursor): (g: Option<int>)
    ensures g.None? <==> GroupsAfter(t, c) == {}
    ensures g.Some? ==> [g.value] in GroupsAfter(t, c) && forall x :: [x] in GroupsAfter(t, c) ==> g.value <= x
  {
    var s := GroupsAfter(t, c);
    if s == {} then None else
      var m := Smallest(s);
      assert forall x :: [x] in s ==> m[0] <= x by {
        forall x | [x] in s ensures m[0] <= x { assert !Less([x], m); }
      }
      Some(m[0])
  }

  /** SELECT key ... WHERE group = $1 AND (key > $2 OR $2 IS NULL) AND predicate. */
  function InGroupEligible(w: Intent, t: Table, c: GroupCursor): set<Key>
    requires c.InGroup?
  {
    set k | k in t && w.matches(t[k]) && |k| == 2 && k[0] == c.group && (c.key.None? || c.key.value < k[1])
  }

  datatype GroupOutcome = GroupOutcome(keys: seq<Key>, at: GroupCursor, skippedOnly: bool, commitFirst: bool)

  /** Entering the next group passes over nothing, once this one has no more work. */
  lemma EnterIsEmptyCut(w: Intent, t: Table, c: GroupCursor, g: int)
    requires Paired(t) && NextGroup(t, c) == Some(g)
    requires c.InGroup? ==> InGroupEligible(w, t, c) == {}
    ensures IsCut(w, t, PositionOf(c), {}, PositionOf(InGroup(g, None)), None)
    ensures GroupsAfter(t, InGroup(g, None)) == GroupsAfter(t, c) - {[g]} && [g] in GroupsAfter(t, c)
  {
    var next := InGroup(g, None);
    forall k
      ensures !(Matches(w, t, k) && Between(PositionOf(c), k, PositionOf(next)))
    {
      if k in t {
        assert k == [k[0], k[1]];
        PairOrder(c, k[0], k[1]);
        PairOrder(next, k[0], k[1]);
        if c.InGroup? && k[0] == c.group {
          assert k !in InGroupEligible(w, t, c);
        } else if c.NotStarted? || c.group < k[0] {
          assert [k[0]] in GroupsAfter(t, c);
        }
      }
    }
    OneGroupFewer(t, c, g);
  }

  lemma OneGroupFewer(t: Table, c: GroupCursor, g: int)
    requires NextGroup(t, c) == Some(g)
    ensures GroupsAfter(t, InGroup(g, None)) == GroupsAfter(t, c) - {[g]} && [g] in GroupsAfter(t, c)
  {
    hide NextGroup;
    forall x ensures x in GroupsAfter(t, InGroup(g, None)) <==> x in GroupsAfter(t, c) && x != [g] {
      if x in GroupsAfter(t, c) {
        var k :| k in t && k != [] && (c.NotStarted? || c.group < k[0]) && x == [k[0]];
        assert g <= k[0];
      }
    }
  }

  lemma EmptyCutThen(w: Intent, t: Table, a: Position, b: Position, keys: set<Key>, c: Position)
    requires IsCut(w, t, a, {}, b, None) && IsCut(w, t, b, keys, c, None)
    ensures IsCut(w, t, a, keys, c, None)
  {
    hide Less, Matches;
    Stretch(a, b, c);
    forall k
      ensures k in keys <==> Matches(w, t, k) && Between(a, k, c) && Within(None, k)
    {
      assert k !in {};
    }
  }

  /** No later group and no more work in this one: the walk is over. */
  lemma NoGroupLeft(w: Intent, t: Table, c: GroupCursor)
    requires Paired(t) && NextGroup(t, c).None?
    requires c.InGroup? ==> InGroupEligible(w, t, c) == {}
    ensures NothingAbove(w, t, PositionOf(c), None)
  {
    forall k | k in t && Above(PositionOf(c), k)
      ensures !w.matches(t[k])
    {
      assert k == [k[0], k[1]];
      PairOrder(c, k[0], k[1]);
      assert [k[0]] !in GroupsAfter(t, c);
      assert k !in InGroupEligible(w, t, c);
    }
  }

  lemma Enter(w: Intent, t: Table, from: GroupCursor, at: GroupCursor, g: int)
    requires Paired(t) && NextGroup(t, at) == Some(g)
    requires at.InGroup? ==> InGroupEligible(w, t, at) == {}
    requires IsCut(w, t, PositionOf(from), {}, PositionOf(at), None)
    ensures IsCut(w, t, PositionOf(from), {}, PositionOf(InGroup(g, None)), None)
    ensures GroupsAfter(t, InGroup(g, None)) == GroupsAfter(t, at) - {[g]} && [g] in GroupsAfter(t, at)
    ensures |GroupsAfter(t, InGroup(g, None))| == |GroupsAfter(t, at)| - 1
  {
    hide IsCut, PositionOf;
    EnterIsEmptyCut(w, t, at, g);
    EmptyCutThen(w, t, PositionOf(from), PositionOf(at), {}, PositionOf(InGroup(g, None)));
  }

  lemma InGroupIsCut(w: Intent, t: Table, c: GroupCursor, keys: seq<Key>)
    requires Paired(t) && c.InGroup?
    requires keys <= Sorted(InGroupEligible(w, t, c)) && keys != []
    ensures var last := keys[|keys| - 1];
            && |last| == 2 && last[0] == c.group
            && IsCut(w, t, PositionOf(c), Elements(keys), PositionOf(InGroup(c.group, Some(last[1]))), None)
  {
    hide Less, Sorted;
    var all, n := Sorted(InGroupEligible(w, t, c)), |keys|;
    var last := keys[n - 1];
    assert last in all && last in InGroupEligible(w, t, c);
    assert last == [c.group, last[1]];
    var next := InGroup(c.group, Some(last[1]));
    assert keys == all[..n];
    PairOrder(c, last[0], last[1]);
    LessTotal(last, if PositionOf(c).At? then PositionOf(c).key else last);
    forall k
      ensures k in Elements(keys) <==> Matches(w, t, k) && Between(PositionOf(c), k, PositionOf(next))
    {
      PrefixCut(all, n, k);
      if k in t {
        assert k == [k[0], k[1]];
        PairOrder(c, k[0], k[1]);
        PairOrder(next, k[0], k[1]);
      }
    }
  }

  /** What a grouped batch promises. Whatever it returns is a cut of the flat order
      of pairs, confined to one group, so a grouped walk is a flat walk. It reports
      the end only when nothing is left; a run of groups with no work, or a group
      that ended under locks, is neither the end nor work, and a skip enters at
      least one more group. */
  ghost predicate GroupLaw(w: Intent, t: Table, from: GroupCursor, limit: nat, holdsLocks: bool, out: GroupOutcome) {
    && IsCut(w, t, PositionOf(from), Elements(out.keys), PositionOf(out.at), None)
    && Increasing(out.keys) && |out.keys| <= limit
    && (forall i :: 0 <= i < |out.keys| ==>
        |out.keys[i]| == 2 && out.at.InGroup? && out.keys[i][0] == out.at.group)
    && (out.keys == [] && !out.skippedOnly && !out.commitFirst ==> NothingAbove(w, t, PositionOf(out.at), None))
    && (out.skippedOnly || out.commitFirst ==> out.keys == [])
    && (out.commitFirst ==> holdsLocks && !out.skippedOnly)
    && GroupsAfter(t, out.at) <= GroupsAfter(t, from)
    && (out.skippedOnly ==> GroupsAfter(t, out.at) < GroupsAfter(t, from))
  }

  lemma TakeLaw(w: Intent, t: Table, from: GroupCursor, at: GroupCursor, keys: seq<Key>, limit: nat, holdsLocks: bool)
    requires Paired(t) && at.InGroup? && |keys| <= limit
    requires IsCut(w, t, PositionOf(from), {}, PositionOf(at), None)
    requires GroupsAfter(t, at) <= GroupsAfter(t, from)
    requires keys <= Sorted(InGroupEligible(w, t, at)) && keys != []
    ensures |keys[|keys| - 1]| == 2
    ensures GroupLaw(w, t, from, limit, holdsLocks,
                     GroupOutcome(keys, InGroup(at.group, Some(keys[|keys| - 1][1])), false, false))
  {
    hide IsCut, PositionOf, Less, Sorted, Smallest, Paired;
    var all := Sorted(InGroupEligible(w, t, at));
    assert forall i :: 0 <= i < |keys| ==> keys[i] == all[i] && all[i] in InGroupEligible(w, t, at);
    InGroupIsCut(w, t, at, keys);
    var next := InGroup(at.group, Some(keys[|keys| - 1][1]));
    EmptyCutThen(w, t, PositionOf(from), PositionOf(at), Elements(keys), PositionOf(next));
    assert GroupsAfter(t, next) == GroupsAfter(t, at);
  }

  lemma NoWorkLaw(w: Intent, t: Table, from: GroupCursor, limit: nat, holdsLocks: bool, out: GroupOutcome)
    requires out.keys == [] && IsCut(w, t, PositionOf(from), {}, PositionOf(out.at), None)
    requires out.skippedOnly || out.commitFirst || NothingAbove(w, t, PositionOf(out.at), None)
    requires out.commitFirst ==> holdsLocks && !out.skippedOnly
    requires GroupsAfter(t, out.at) <= GroupsAfter(t, from)
    requires out.skippedOnly ==> GroupsAfter(t, out.at) < GroupsAfter(t, from)
    ensures GroupLaw(w, t, from, limit, holdsLocks, out)
  {
    assert Elements(out.keys) == {};
  }

  lemma NoEligible(w: Intent, t: Table, at: GroupCursor, limit: nat)
    requires at.InGroup? && limit > 0 && Take(Sorted(InGroupEligible(w, t, at)), limit) == []
    ensures InGroupEligible(w, t, at) == {}
  {
    hide Less;
    assert forall k :: k in InGroupEligible(w, t, at) ==> k in Sorted(InGroupEligible(w, t, at));
  }

  const GROUPS_PER_BATCH := 64

  /** Where a walk from `from` stands as it enters group `g`. */
  function Entering(from: GroupCursor, g: int): (c: GroupCursor) {
    if from.InGroup? && from.group == g then from else InGroup(g, None)
  }

  /** How far a grouped batch goes. It takes as many of its group's rows as the limit and
      the bytes allow. It gives up for want of work exactly when it has left 64 groups
      behind it, besides finding its first. Under locks it asks for no next group: it asks
      for a commit exactly where the group it is in has no more work. */
  ghost predicate GroupReach(w: Intent, t: Table, from: GroupCursor, limit: nat, size: Key -> nat, budget: int,
                             holdsLocks: bool, out: GroupOutcome) {
    && (out.keys != [] ==>
          && out.at.InGroup?
          && Fills(Sorted(InGroupEligible(w, t, Entering(from, out.at.group))), out.keys, limit, size, budget))
    && (out.skippedOnly <==> Entered(t, from, out.at) == 64 + if from.NotStarted? then 1 else 0)
    && (holdsLocks && from.InGroup? ==> out.at.InGroup? && out.at.group == from.group)
    && (out.commitFirst <==> holdsLocks && out.keys == [] && out.at.InGroup?)
    && (out.commitFirst ==> InGroupEligible(w, t, out.at) == {})
  }

  /** How many groups lie between two places. */
  ghost function Entered(t: Table, from: GroupCursor, at: GroupCursor): int {
    |GroupsAfter(t, from)| - |GroupsAfter(t, at)|
  }

  /** The groups left behind so far, for want of work, and where that leads. */
  ghost predicate Passing(t: Table, from: GroupCursor, at: GroupCursor, looked: nat, holdsLocks: bool) {
    && (at.NotStarted? ==> at == from && looked == 0)
    && (at.InGroup? ==> at == Entering(from, at.group))
    && Entered(t, from, at) == looked + (if from.NotStarted? && at.InGroup? then 1 else 0)
    && (holdsLocks ==> looked == 0)
    && (looked == 0 && from.InGroup? ==> at == from)
  }

  /** A later group is entered at its beginning. */
  lemma PassOn(t: Table, from: GroupCursor, at: GroupCursor, looked: nat, g: int, first: bool)
    requires Passing(t, from, at, looked, false) && NextGroup(t, at) == Some(g) && first == at.NotStarted?
    requires |GroupsAfter(t, InGroup(g, None))| == |GroupsAfter(t, at)| - 1
    requires GroupsAfter(t, at) <= GroupsAfter(t, from)
    ensures Passing(t, from, InGroup(g, None), if first then looked else looked + 1, false)
  {
    hide NextGroup;
    assert [g] in GroupsAfter(t, at);
    assert [g] in GroupsAfter(t, from);
  }

  lemma ReachTaken(w: Intent, t: Table, from: GroupCursor, at: GroupCursor, looked: nat, limit: nat, size: Key -> nat,
                   budget: int, holdsLocks: bool, keys: seq<Key>)
    requires at.InGroup? && looked < GROUPS_PER_BATCH && Passing(t, from, at, looked, holdsLocks) && keys != []
    requires Fills(Sorted(InGroupEligible(w, t, at)), keys, limit, size, budget) && |keys[|keys| - 1]| == 2
    ensures GroupReach(w, t, from, limit, size, budget, holdsLocks,
                       GroupOutcome(keys, InGroup(at.group, Some(keys[|keys| - 1][1])), false, false))
  {
    hide InGroupEligible, Sorted, Fills;
    assert GroupsAfter(t, InGroup(at.group, Some(keys[|keys| - 1][1]))) == GroupsAfter(t, at);
  }

  lemma ReachNone(w: Intent, t: Table, from: GroupCursor, looked: nat, limit: nat, size: Key -> nat, budget: int,
                  holdsLocks: bool, out: GroupOutcome)
    requires out.keys == [] && looked <= GROUPS_PER_BATCH && Passing(t, from, out.at, looked, holdsLocks)
    requires out.skippedOnly <==> looked == GROUPS_PER_BATCH
    requires out.commitFirst <==> holdsLocks && out.at.InGroup?
    requires out.commitFirst ==> InGroupEligible(w, t, out.at) == {}
    ensures GroupReach(w, t, from, limit, size, budget, holdsLocks, out)
  {
    hide InGroupEligible, Sorted, Fills, GroupsAfter;
  }

  lemma FirstPass(t: Table, from: GroupCursor, holdsLocks: bool)
    ensures Passing(t, from, from, 0, holdsLocks)
  {
    hide GroupsAfter;
  }

  lemma LockedPass(t: Table, from: GroupCursor, at: GroupCursor, looked: nat, holdsLocks: bool)
    requires Passing(t, from, at, looked, false) && (holdsLocks ==> looked == 0)
    ensures Passing(t, from, at, looked, holdsLocks)
  {
    hide GroupsAfter;
  }

  /** One batch of the grouped walk. */
  method RunGroupedBatch(w: Intent, t: Table, from: GroupCursor, limit: nat, size: Key -> nat, budget: int,
                         holdsLocks: bool) returns (out: GroupOutcome)
    requires Paired(t) && limit > 0
    ensures GroupLaw(w, t, from, limit, holdsLocks, out)
    ensures GroupReach(w, t, from, limit, size, budget, holdsLocks, out)
  {
    var at := from;
    Nowhere(PositionOf(from));
    assert IsCut(w, t, PositionOf(from), {}, PositionOf(at), None);
    FirstPass(t, from, holdsLocks);
    hide *;
    var looked := 0;
    while looked < GROUPS_PER_BATCH
      invariant 0 <= looked <= GROUPS_PER_BATCH
      invariant IsCut(w, t, PositionOf(from), {}, PositionOf(at), None)
      invariant GroupsAfter(t, at) <= GroupsAfter(t, from)
      invariant looked > 0 ==> GroupsAfter(t, at) < GroupsAfter(t, from)
      invariant Passing(t, from, at, looked, holdsLocks) && (looked > 0 ==> !holdsLocks && at.InGroup?)
    {
      Unlocked(t, from, at, looked, holdsLocks);
      if at.NotStarted? {
        var g := NextGroup(t, at);
        if g.None? {
          NoGroupLeft(w, t, at);
          out := GroupOutcome([], at, false, false);
          NoWorkLaw(w, t, from, limit, holdsLocks, out);
          ReachNone(w, t, from, looked, limit, size, budget, holdsLocks, out);
          return;
        }
        Enter(w, t, from, at, g.value);
        PassOn(t, from, at, looked, g.value, true);
        at := InGroup(g.value, None);
        LockedPass(t, from, at, looked, holdsLocks);
      }
      var sel := Take(Sorted(InGroupEligible(w, t, at)), limit);
      if sel == [] {
        NoEligible(w, t, at, limit);
        if holdsLocks {
          out := GroupOutcome([], at, false, true);
          NoWorkLaw(w, t, from, limit, holdsLocks, out);
          ReachNone(w, t, from, looked, limit, size, budget, holdsLocks, out);
          return;
        }
        var g := NextGroup(t, at);
        if g.None? {
          NoGroupLeft(w, t, at);
          out := GroupOutcome([], at, false, false);
          NoWorkLaw(w, t, from, limit, holdsLocks, out);
          ReachNone(w, t, from, looked, limit, size, budget, holdsLocks, out);
          return;
        }
        Enter(w, t, from, at, g.value);
        PassOn(t, from, at, looked, g.value, false);
        at := InGroup(g.value, None);
        looked := looked + 1;
        continue;
      }
      var keys := CutByBytes(sel, size, budget);
      CutFills(Sorted(InGroupEligible(w, t, at)), keys, limit, size, budget);
      TakePrefix(Sorted(InGroupEligible(w, t, at)), limit, keys);
      TakeLaw(w, t, from, at, keys, limit, holdsLocks);
      ReachTaken(w, t, from, at, looked, limit, size, budget, holdsLocks, keys);
      out := GroupOutcome(keys, InGroup(at.group, Some(keys[|keys| - 1][1])), false, false);
      return;
    }
    out := GroupOutcome([], at, true, false);
    NoWorkLaw(w, t, from, limit, holdsLocks, out);
    ReachNone(w, t, from, looked, limit, size, budget, holdsLocks, out);
  }

  lemma Unlocked(t: Table, from: GroupCursor, at: GroupCursor, looked: nat, holdsLocks: bool)
    requires Passing(t, from, at, looked, holdsLocks)
    ensures Passing(t, from, at, looked, false) && (at.NotStarted? ==> looked == 0)
  {
    hide GroupsAfter;
  }

  /** The grouped walk refines the flat one: what a batch takes is the next rows of
      the flat walk from the same place, in the flat walk's order. */
  lemma GroupedRefinesFlat(w: Intent, t: Table, from: GroupCursor, limit: nat, holdsLocks: bool, out: GroupOutcome)
    requires GroupLaw(w, t, from, limit, holdsLocks, out)
    ensures out.keys <= Sorted(Eligible(w, t, PositionOf(from), None))
  {
    hide Less, PositionOf;
    CutIsPrefix(w, t, PositionOf(from), out.keys, PositionOf(out.at), None);
  }

  lemma TakePrefix(all: seq<Key>, limit: nat, keys: seq<Key>)
    requires keys <= Take(all, limit)
    ensures keys <= all && |keys| <= limit
  {
  }
}

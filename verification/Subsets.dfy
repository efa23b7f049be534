/** Concurrent groups within a level: what the greedy grouping promises, and exactly
    when the members of every group are independent of each other. */
module Subsets {
  import opened Ordering

  /** The exact identity decides where both are known; a name can only answer yes. */
  predicate Differ(a: Entry, b: Entry) {
    if a.identity != "" && b.identity != "" then a.identity != b.identity
    else a.database != "" && b.database != "" && a.database != b.database
  }

  /** On different databases, or touching different relations with complete evidence
      on both sides. */
  predicate Independent(a: Entry, b: Entry) {
    Differ(a, b) || Apart(a, b)
  }

  predicate Apart(a: Entry, b: Entry) {
    a.relations !! b.relations && a.complete && b.complete
  }

  /** `c` may join a group seeded with `s` that touches `rels`. */
  predicate Joins(s: Entry, rels: set<string>, c: Entry) {
    rels !! c.relations && s.complete && c.complete
  }

  ghost predicate AllIn(repo: Listing, ids: seq<string>) {
    forall i :: 0 <= i < |ids| ==> ids[i] in repo
  }

  // --- the grouping as a function ----------------------------------------------------

  datatype Collected = Collected(group: seq<string>, left: seq<string>)

  /** One pass after the seed `s`: who joins its group, given the relations collected
      so far, and who is left for later groups. */
  function Collect(repo: Listing, s: Entry, rels: set<string>, rest: seq<string>): (r: Collected)
    requires AllIn(repo, rest)
    ensures |rest| == |r.group| + |r.left|
    ensures AllIn(repo, r.group) && AllIn(repo, r.left)
    decreases |rest|
  {
    if rest == [] then Collected([], []) else
      var c := repo[rest[0]];
      if Differ(s, c) then
        var r := Collect(repo, s, rels, rest[1..]);
        Collected([rest[0]] + r.group, r.left)
      else if Joins(s, rels, c) then
        var r := Collect(repo, s, rels + c.relations, rest[1..]);
        Collected([rest[0]] + r.group, r.left)
      else
        var r := Collect(repo, s, rels, rest[1..]);
        Collected(r.group, [rest[0]] + r.left)
  }

  function Groups(repo: Listing, ready: seq<string>): (r: seq<seq<string>>)
    requires AllIn(repo, ready)
    decreases |ready|
  {
    if ready == [] then [] else
      var s := repo[ready[0]];
      var c := Collect(repo, s, s.relations, ready[1..]);
      [[ready[0]] + c.group] + Groups(repo, c.left)
  }

  function Joined(groups: seq<seq<string>>): (r: seq<string>) {
    if groups == [] then [] else groups[0] + Joined(groups[1..])
  }

  lemma ConsEither(x: string, tail: seq<string>, g: seq<string>, l: seq<string>)
    requires multiset(tail) == multiset(g) + multiset(l)
    ensures multiset([x] + tail) == multiset([x] + g) + multiset(l) == multiset(g) + multiset([x] + l)
  {
  }

  lemma {:induction false} CollectPartition(repo: Listing, s: Entry, rels: set<string>, rest: seq<string>)
    requires AllIn(repo, rest)
    ensures var r := Collect(repo, s, rels, rest); multiset(rest) == multiset(r.group) + multiset(r.left)
    decreases |rest|
  {
    hide Differ;
    if rest != [] {
      var c := repo[rest[0]];
      var with := if !Differ(s, c) && Joins(s, rels, c) then rels + c.relations else rels;
      CollectPartition(repo, s, with, rest[1..]);
      var r := Collect(repo, s, with, rest[1..]);
      assert Collect(repo, s, rels, rest)
          == if Differ(s, c) || Joins(s, rels, c) then Collected([rest[0]] + r.group, r.left)
             else Collected(r.group, [rest[0]] + r.left);
      hide Collect, Joins;
      ConsEither(rest[0], rest[1..], r.group, r.left);
      assert rest == [rest[0]] + rest[1..];
    }
  }

  /** A level's groups hold its specifications, each as often as the level does. */
  lemma {:induction false} GroupsPartition(repo: Listing, ready: seq<string>)
    requires AllIn(repo, ready)
    ensures multiset(Joined(Groups(repo, ready))) == multiset(ready)
    decreases |ready|
  {
    if ready != [] {
      var s := repo[ready[0]];
      var c := Collect(repo, s, s.relations, ready[1..]);
      CollectPartition(repo, s, s.relations, ready[1..]);
      GroupsPartition(repo, c.left);
      assert Groups(repo, ready)[1..] == Groups(repo, c.left);
      assert ready == [ready[0]] + ready[1..];
    }
  }

  // --- who is independent of whom ------------------------------------------------------

  /** Between two members of the seed's group: independent unless one of them is on a
      database other than the seed's. */
  ghost predicate Compatible(s: Entry, a: Entry, b: Entry) {
    Differ(s, a) || Differ(s, b) || Apart(a, b)
  }

  ghost predicate MembersLaw(repo: Listing, s: Entry, rels: set<string>, group: seq<string>)
    requires AllIn(repo, group)
  {
    && (forall i :: 0 <= i < |group| ==>
          Differ(s, repo[group[i]]) || Joins(s, rels, repo[group[i]]))
    && (forall i, j :: 0 <= i < j < |group| ==> Compatible(s, repo[group[i]], repo[group[j]]))
  }

  lemma MembersCons(repo: Listing, s: Entry, rels: set<string>, more: set<string>, id: string, tail: seq<string>)
    requires id in repo && AllIn(repo, tail) && AllIn(repo, [id] + tail)
    requires MembersLaw(repo, s, rels + more, tail)
    requires Differ(s, repo[id]) || (Joins(s, rels, repo[id]) && more == repo[id].relations)
    ensures MembersLaw(repo, s, rels, [id] + tail)
  {
    var g := [id] + tail;
    hide Differ;
    forall i, j | 0 <= i < j < |g| ensures Compatible(s, repo[g[i]], repo[g[j]]) {
      assert g[j] == tail[j - 1];
      if i > 0 { assert g[i] == tail[i - 1]; }
    }
  }

  lemma {:induction false} CollectLaw(repo: Listing, s: Entry, rels: set<string>, rest: seq<string>)
    requires AllIn(repo, rest)
    ensures MembersLaw(repo, s, rels, Collect(repo, s, rels, rest).group)
    decreases |rest|
  {
    hide Differ;
    if rest != [] {
      var c := repo[rest[0]];
      if Differ(s, c) {
        CollectLaw(repo, s, rels, rest[1..]);
        assert rels + {} == rels;
        MembersCons(repo, s, rels, {}, rest[0], Collect(repo, s, rels, rest[1..]).group);
      } else if Joins(s, rels, c) {
        CollectLaw(repo, s, rels + c.relations, rest[1..]);
        MembersCons(repo, s, rels, c.relations, rest[0], Collect(repo, s, rels + c.relations, rest[1..]).group);
      } else {
        CollectLaw(repo, s, rels, rest[1..]);
      }
    }
  }

  /** What holds of every group, whatever the databases: the seed is first, every other
      member is independent of it, and two members on the seed's database are
      independent of each other. */
  ghost predicate GroupLaw(repo: Listing, g: seq<string>) {
    && g != [] && AllIn(repo, g)
    && (forall i :: 0 < i < |g| ==> Independent(repo[g[0]], repo[g[i]]))
    && (forall i, j :: 0 < i < j < |g| ==> Compatible(repo[g[0]], repo[g[i]], repo[g[j]]))
  }

  lemma {:induction false} SeedLaw(repo: Listing, ready: seq<string>)
    requires AllIn(repo, ready)
    ensures forall k :: 0 <= k < |Groups(repo, ready)| ==> GroupLaw(repo, Groups(repo, ready)[k])
    decreases |ready|
  {
    if ready != [] {
      var s := repo[ready[0]];
      var c := Collect(repo, s, s.relations, ready[1..]);
      CollectLaw(repo, s, s.relations, ready[1..]);
      SeedLaw(repo, c.left);
      var g := [ready[0]] + c.group;
      hide Differ;
      assert GroupLaw(repo, g) by {
        assert forall i :: 0 < i < |g| ==> g[i] == c.group[i - 1];
      }
    }
  }

  // --- nothing waits for a later group without a reason -------------------------------------

  /** `y` may not join the group of the seed `s`: it is not known to be on another database,
      and evidence is wanting on either side, or it shares a relation with `rels` or with a
      member that is not known to be on another database either. */
  ghost predicate Kept(repo: Listing, s: Entry, rels: set<string>, group: seq<string>, y: string) {
    && y in repo && !Differ(s, repo[y])
    && (s.complete && repo[y].complete ==>
          || !(rels !! repo[y].relations)
          || exists x :: x in group && x in repo && !Differ(s, repo[x]) && !(repo[x].relations !! repo[y].relations))
  }

  lemma KeptCons(repo: Listing, s: Entry, rels: set<string>, id: string, group: seq<string>, y: string)
    requires id in repo
    requires Kept(repo, s, rels, group, y) || (!Differ(s, repo[id]) && Kept(repo, s, rels + repo[id].relations, group, y))
    ensures Kept(repo, s, rels, [id] + group, y)
  {
    hide Differ;
    var g := [id] + group;
    assert g[0] == id && forall x :: x in group ==> x in g;
    if !Kept(repo, s, rels, group, y) && s.complete && repo[y].complete && rels !! repo[y].relations {
      if !(repo[id].relations !! repo[y].relations) {
        assert id in g;
      }
    }
  }

  lemma CollectNone(repo: Listing, s: Entry, rels: set<string>)
    ensures Collect(repo, s, rels, []) == Collected([], []) && Follows([], [])
  {
  }

  lemma CollectStep(repo: Listing, s: Entry, rels: set<string>, rest: seq<string>)
    requires AllIn(repo, rest) && rest != []
    ensures var c := repo[rest[0]];
            var t := Collect(repo, s, if !Differ(s, c) && Joins(s, rels, c) then rels + c.relations else rels, rest[1..]);
            Collect(repo, s, rels, rest)
              == if Differ(s, c) || Joins(s, rels, c) then Collected([rest[0]] + t.group, t.left)
                 else Collected(t.group, [rest[0]] + t.left)
  {
    hide Differ, Joins;
  }

  lemma {:induction false} CollectKeeps(repo: Listing, s: Entry, rels: set<string>, rest: seq<string>)
    requires AllIn(repo, rest)
    ensures forall y :: y in Collect(repo, s, rels, rest).left ==> Kept(repo, s, rels, Collect(repo, s, rels, rest).group, y)
    decreases |rest|
  {
    hide Differ, Kept, Collect, Joins;
    if rest == [] {
      CollectNone(repo, s, rels);
    } else {
      var id := rest[0];
      var c := repo[id];
      var with := if !Differ(s, c) && Joins(s, rels, c) then rels + c.relations else rels;
      CollectKeeps(repo, s, with, rest[1..]);
      var t := Collect(repo, s, with, rest[1..]);
      CollectStep(repo, s, rels, rest);
      if Differ(s, c) || Joins(s, rels, c) {
        forall y | y in t.left ensures Kept(repo, s, rels, [id] + t.group, y) {
          assert Kept(repo, s, with, t.group, y);
          KeptCons(repo, s, rels, id, t.group, y);
        }
      } else {
        assert Kept(repo, s, rels, t.group, id) by { Unjoined(repo, s, rels, t.group, id); }
      }
    }
  }

  lemma Unjoined(repo: Listing, s: Entry, rels: set<string>, group: seq<string>, y: string)
    requires y in repo && !Differ(s, repo[y]) && !Joins(s, rels, repo[y])
    ensures Kept(repo, s, rels, group, y)
  {
    hide Differ;
  }

  lemma FirstGroup(repo: Listing, ready: seq<string>)
    requires AllIn(repo, ready)
    ensures ready == [] ==> Groups(repo, ready) == []
    ensures ready != [] ==>
              var c := Collect(repo, repo[ready[0]], repo[ready[0]].relations, ready[1..]);
              Groups(repo, ready) == [[ready[0]] + c.group] + Groups(repo, c.left)
  {
  }

  /** Whatever is in a later group was kept out of every earlier one: the grouping is as
      coarse as a pass from each seed can make it. */
  lemma {:induction false} Greedy(repo: Listing, ready: seq<string>, k: nat, m: nat, y: string)
    requires AllIn(repo, ready) && k < m < |Groups(repo, ready)| && y in Groups(repo, ready)[m]
    ensures var g := Groups(repo, ready)[k];
            g != [] && g[0] in repo && Kept(repo, repo[g[0]], repo[g[0]].relations, g, y)
    decreases |ready|
  {
    hide Differ, Kept, Collect, Groups, Joined;
    FirstGroup(repo, ready);
    var s := repo[ready[0]];
    var c := Collect(repo, s, s.relations, ready[1..]);
    var later := Groups(repo, c.left);
    if k > 0 {
      Greedy(repo, c.left, k - 1, m - 1, y);
    } else {
      CollectKeeps(repo, s, s.relations, ready[1..]);
      GroupsPartition(repo, c.left);
      JoinedMember(later, m - 1);
      assert y in multiset(later[m - 1]) && y in multiset(c.left);
      KeptCons(repo, s, s.relations, ready[0], c.group, y);
    }
  }

  /** Within a group, in the order of the level. */
  lemma {:induction false} CollectFollows(repo: Listing, s: Entry, rels: set<string>, rest: seq<string>)
    requires AllIn(repo, rest) && DistinctIds(rest)
    ensures var r := Collect(repo, s, rels, rest);
            && Follows(rest, r.group) && Follows(rest, r.left) && DistinctIds(r.left)
            && (forall x :: x in r.group || x in r.left ==> x in rest)
    decreases |rest|
  {
    hide Differ, Joins, Collect, Follows;
    if rest == [] {
      CollectNone(repo, s, rels);
    } else {
      var c := repo[rest[0]];
      var with := if !Differ(s, c) && Joins(s, rels, c) then rels + c.relations else rels;
      CollectFollows(repo, s, with, rest[1..]);
      var t := Collect(repo, s, with, rest[1..]);
      CollectStep(repo, s, rels, rest);
      FollowsCons(rest, t.group);
      FollowsCons(rest, t.left);
      assert rest[0] !in rest[1..];
    }
  }

  lemma FollowsCons(s: seq<string>, sub: seq<string>)
    requires s != [] && DistinctIds(s) && Follows(s[1..], sub) && forall x :: x in sub ==> x in s[1..]
    ensures Follows(s, sub) && Follows(s, [s[0]] + sub)
  {
    var more := [s[0]] + sub;
    forall i, j, a, b | 0 <= i < j < |more| && 0 <= a < |s| && 0 <= b < |s| && s[a] == more[i] && s[b] == more[j] ensures a < b {
      assert sub[j - 1] in sub;
      assert b > 0;
      if i > 0 {
        assert sub[i - 1] in sub;
        assert a > 0;
        assert s[1..][a - 1] == sub[i - 1] && s[1..][b - 1] == sub[j - 1];
      }
    }
    forall i, j, a, b | 0 <= i < j < |sub| && 0 <= a < |s| && 0 <= b < |s| && s[a] == sub[i] && s[b] == sub[j] ensures a < b {
      assert more[i + 1] == sub[i] && more[j + 1] == sub[j];
    }
  }

  lemma {:induction false} GroupsFollow(repo: Listing, ready: seq<string>, k: nat)
    requires AllIn(repo, ready) && DistinctIds(ready) && k < |Groups(repo, ready)|
    ensures Follows(ready, Groups(repo, ready)[k])
    decreases |ready|
  {
    hide Differ, Collect, Follows;
    var s := repo[ready[0]];
    var c := Collect(repo, s, s.relations, ready[1..]);
    CollectFollows(repo, s, s.relations, ready[1..]);
    assert Groups(repo, ready)[0] == [ready[0]] + c.group;
    if k == 0 {
      FollowsCons(ready, c.group);
    } else {
      assert Groups(repo, ready)[k] == Groups(repo, c.left)[k - 1];
      GroupsFollow(repo, c.left, k - 1);
      FollowsCons(ready, c.left);
      forall id | id in Groups(repo, c.left)[k - 1] ensures id in c.left {
        GroupsPartition(repo, c.left);
        JoinedMember(Groups(repo, c.left), k - 1);
        assert id in multiset(Groups(repo, c.left)[k - 1]);
        assert id in multiset(c.left);
      }
      FollowsThrough(ready, c.left, Groups(repo, ready)[k]);
    }
  }

  // --- exactly when the members of a group are independent of each other ------------------

  ghost predicate Pairwise(repo: Listing, g: seq<string>)
    requires AllIn(repo, g)
  {
    forall i, j :: 0 <= i < j < |g| ==> Independent(repo[g[i]], repo[g[j]])
  }

  ghost predicate AllPairwise(repo: Listing, groups: seq<seq<string>>) {
    forall k :: 0 <= k < |groups| ==> AllIn(repo, groups[k]) && Pairwise(repo, groups[k])
  }

  /** Whatever is on another database than `x` is independent of everything `x` is
      independent of. */
  ghost predicate Agreeable(repo: Listing, x: string, y: string, z: string) {
    x in repo && y in repo && z in repo && Differ(repo[x], repo[y]) && Independent(repo[x], repo[z])
    ==> Independent(repo[y], repo[z])
  }

  ghost predicate Harmonious(repo: Listing, level: seq<string>) {
    forall x, y, z :: x in level && y in level && z in level && x != y && y != z && x != z ==>
      Agreeable(repo, x, y, z)
  }

  lemma Symmetric(a: Entry, b: Entry)
    ensures Independent(a, b) == Independent(b, a)
  {
  }

  lemma MembersIndependent(repo: Listing, g: seq<string>, i: nat, j: nat)
    requires GroupLaw(repo, g) && i < j < |g|
    requires 0 < i ==> Agreeable(repo, g[0], g[i], g[j]) && Agreeable(repo, g[0], g[j], g[i])
    ensures Independent(repo[g[i]], repo[g[j]])
  {
    assert Independent(repo[g[0]], repo[g[j]]);
    if i > 0 {
      assert Compatible(repo[g[0]], repo[g[i]], repo[g[j]]);
      assert Independent(repo[g[0]], repo[g[i]]);
      Symmetric(repo[g[i]], repo[g[j]]);
    }
  }

  lemma DistinctCounts(s: seq<string>)
    requires DistinctIds(s)
    ensures forall x :: multiset(s)[x] <= 1
  {
    if s != [] {
      DistinctCounts(s[1..]);
      assert s == [s[0]] + s[1..];
      assert s[0] !in s[1..];
      forall x ensures multiset(s)[x] <= 1 {
        assert multiset(s) == multiset{s[0]} + multiset(s[1..]);
      }
    }
  }

  lemma CountsDistinct(s: seq<string>)
    requires forall x :: multiset(s)[x] <= 1
    ensures DistinctIds(s)
  {
    forall i, j | 0 <= i < j < |s| ensures s[i] != s[j] {
      assert s == s[..j] + s[j..];
      assert multiset(s) == multiset(s[..j]) + multiset(s[j..]);
      assert s[..j][i] in multiset(s[..j]) && s[j..][0] in multiset(s[j..]);
      assert s[i] == s[j] ==> multiset(s)[s[i]] >= 2;
    }
  }

  lemma JoinedMember(groups: seq<seq<string>>, k: nat)
    requires k < |groups|
    ensures multiset(groups[k]) <= multiset(Joined(groups))
  {
    if k > 0 { JoinedMember(groups[1..], k - 1); }
  }

  /** Every group of a level without repeats has no repeats and only the level's
      specifications. */
  lemma GroupMembers(repo: Listing, level: seq<string>, k: nat)
    requires AllIn(repo, level) && DistinctIds(level) && k < |Groups(repo, level)|
    ensures DistinctIds(Groups(repo, level)[k])
    ensures forall id :: id in Groups(repo, level)[k] ==> id in level
  {
    var g := Groups(repo, level)[k];
    GroupsPartition(repo, level);
    JoinedMember(Groups(repo, level), k);
    DistinctCounts(level);
    CountsDistinct(g);
    forall id | id in g ensures id in level {
      assert id in multiset(g) && id in multiset(level);
    }
  }

  lemma HarmoniousSuffices(repo: Listing, level: seq<string>)
    requires AllIn(repo, level) && DistinctIds(level) && Harmonious(repo, level)
    ensures AllPairwise(repo, Groups(repo, level))
  {
    SeedLaw(repo, level);
    hide Differ, Independent, Compatible;
    forall k | 0 <= k < |Groups(repo, level)|
      ensures AllIn(repo, Groups(repo, level)[k]) && Pairwise(repo, Groups(repo, level)[k])
    {
      var g := Groups(repo, level)[k];
      GroupMembers(repo, level, k);
      assert GroupLaw(repo, g);
      forall i, j | 0 <= i < j < |g| ensures Independent(repo[g[i]], repo[g[j]]) {
        MembersIndependent(repo, g, i, j);
      }
    }
  }

  /** The order that seeds a group with `x` and offers it `y`, then `z`, puts all three
      in it. */
  lemma FirstThree(repo: Listing, x: string, y: string, z: string, rest: seq<string>)
    requires x in repo && y in repo && z in repo && AllIn(repo, [x, y, z] + rest)
    requires Differ(repo[x], repo[y]) && Independent(repo[x], repo[z])
    ensures var g := Groups(repo, [x, y, z] + rest)[0]; |g| >= 3 && g[1] == y && g[2] == z
  {
    var s := repo[x];
    var all := [x, y, z] + rest;
    assert all[1..] == [y, z] + rest;
    assert all[1..][1..] == [z] + rest;
    assert repo[all[1]] == repo[y] && repo[all[2]] == repo[z];
    hide Differ;
    var c := Collect(repo, s, s.relations, all[1..]);
    assert c.group == [y] + Collect(repo, s, s.relations, [z] + rest).group;
    assert Collect(repo, s, s.relations, [z] + rest).group[0] == z;
  }

  function Remove(s: seq<string>, x: string): (r: seq<string>)
    requires x in s
    ensures multiset(r) + multiset{x} == multiset(s)
  {
    assert s == [s[0]] + s[1..];
    if s[0] == x then s[1..] else [s[0]] + Remove(s[1..], x)
  }

  ghost predicate Reordering(p: seq<string>, level: seq<string>) {
    multiset(p) == multiset(level)
  }

  lemma ReorderingIn(repo: Listing, p: seq<string>, level: seq<string>)
    requires AllIn(repo, level) && Reordering(p, level)
    ensures AllIn(repo, p)
  {
    forall i | 0 <= i < |p| ensures p[i] in repo {
      assert p[i] in multiset(level);
    }
  }

  ghost predicate SafeInOrder(repo: Listing, p: seq<string>) {
    AllIn(repo, p) && AllPairwise(repo, Groups(repo, p))
  }

  lemma ThreeFirst(level: seq<string>, x: string, y: string, z: string) returns (rest: seq<string>)
    requires x in level && y in level && z in level && x != y && y != z && x != z
    ensures Reordering([x, y, z] + rest, level)
  {
    var a := Remove(level, x);
    assert y in multiset(level) && z in multiset(level);
    assert y in multiset(a) && z in multiset(a);
    var b := Remove(a, y);
    assert z in multiset(b);
    rest := Remove(b, z);
  }

  /** The grouping is safe in every order of the level if and only if the level is
      harmonious. */
  lemma SafeExactly(repo: Listing, level: seq<string>)
    requires AllIn(repo, level) && DistinctIds(level)
    ensures (forall p :: Reordering(p, level) ==> SafeInOrder(repo, p)) <==> Harmonious(repo, level)
  {
    if Harmonious(repo, level) {
      forall p | Reordering(p, level) ensures SafeInOrder(repo, p) {
        ReorderingIn(repo, p, level);
        DistinctCounts(level);
        CountsDistinct(p);
        forall x | x in p ensures x in level { assert x in multiset(level); }
        HarmoniousSuffices(repo, p);
      }
    }
    if forall p :: Reordering(p, level) ==> SafeInOrder(repo, p) {
      forall x, y, z | x in level && y in level && z in level && x != y && y != z && x != z
        ensures Agreeable(repo, x, y, z)
      {
        UnsafeOrder(repo, level, x, y, z);
      }
    }
  }

  lemma UnsafeOrder(repo: Listing, level: seq<string>, x: string, y: string, z: string)
    requires AllIn(repo, level) && x in level && y in level && z in level && x != y && y != z && x != z
    requires forall p :: Reordering(p, level) ==> SafeInOrder(repo, p)
    ensures Agreeable(repo, x, y, z)
  {
    if Differ(repo[x], repo[y]) && Independent(repo[x], repo[z]) {
      var rest := ThreeFirst(level, x, y, z);
      var p := [x, y, z] + rest;
      assert SafeInOrder(repo, p);
      FirstThree(repo, x, y, z, rest);
      hide Differ, Independent;
      assert Pairwise(repo, Groups(repo, p)[0]);
    }
  }

  /** With no two entries on provably different databases, a group's members touch
      different relations and a group of more than one has complete evidence. */
  lemma OneDatabase(repo: Listing, level: seq<string>, k: nat)
    requires AllIn(repo, level) && DistinctIds(level) && k < |Groups(repo, level)|
    requires forall x, y :: x in level && y in level ==> !Differ(repo[x], repo[y])
    ensures AllIn(repo, Groups(repo, level)[k])
    ensures var g := Groups(repo, level)[k];
            forall i, j :: 0 <= i < j < |g| ==> Apart(repo[g[i]], repo[g[j]])
  {
    hide Differ;
    forall x, y, z | x in level && y in level && z in level && x != y && y != z && x != z
      ensures Agreeable(repo, x, y, z)
    {
      assert !Differ(repo[x], repo[y]);
    }
    HarmoniousSuffices(repo, level);
    var g := Groups(repo, level)[k];
    GroupMembers(repo, level, k);
    assert Pairwise(repo, g);
    forall i, j | 0 <= i < j < |g| ensures Apart(repo[g[i]], repo[g[j]]) {
      assert Independent(repo[g[i]], repo[g[j]]) && !Differ(repo[g[i]], repo[g[j]]);
    }
  }

  const Three: Listing := map[
    "a" := Entry("a", Pending, [], {"t"}, true, "one", ""),
    "b" := Entry("b", Pending, [], {"u"}, true, "two", ""),
    "c" := Entry("c", Pending, [], {"u"}, true, "two", "")]

  /** Three specifications, two of them on one database and touching one table: both are
      on a database other than the first's, so both join it and run together. */
  lemma TwoOnOneDatabase()
    ensures AllIn(Three, ["a", "b", "c"])
    ensures var g := Groups(Three, ["a", "b", "c"])[0]; |g| >= 3 && g[1] == "b" && g[2] == "c"
    ensures !Independent(Three["b"], Three["c"])
  {
    assert "one"[0] != "two"[0];
    assert ["a", "b", "c"] + [] == ["a", "b", "c"];
    assert "u" in Three["b"].relations && "u" in Three["c"].relations;
    assert Differ(Three["a"], Three["b"]) && Differ(Three["a"], Three["c"]);
    hide Differ;
    FirstThree(Three, "a", "b", "c", []);
  }

  // --- the loop ----------------------------------------------------------------------------

  /** Those of ready[from..] no group has taken yet. */
  ghost function Free(ready: seq<string>, taken: seq<bool>, from: nat): (r: seq<string>)
    requires |taken| == |ready| && from <= |ready|
    decreases |ready| - from
  {
    if from == |ready| then []
    else if taken[from] then Free(ready, taken, from + 1)
    else [ready[from]] + Free(ready, taken, from + 1)
  }

  lemma FreeAgrees(ready: seq<string>, t: seq<bool>, u: seq<bool>, from: nat)
    requires |t| == |u| == |ready| && from <= |ready|
    requires forall i :: from <= i < |ready| ==> t[i] == u[i]
    ensures Free(ready, t, from) == Free(ready, u, from)
    decreases |ready| - from
  {
    if from < |ready| { FreeAgrees(ready, t, u, from + 1); }
  }

  lemma FreeNone(ready: seq<string>, t: seq<bool>, from: nat)
    requires |t| == |ready| && from <= |ready| && forall i :: from <= i < |ready| ==> !t[i]
    ensures Free(ready, t, from) == ready[from..]
    decreases |ready| - from
  {
    if from < |ready| { FreeNone(ready, t, from + 1); }
  }

  /** The same, up to `end`. */
  ghost function Range(ready: seq<string>, taken: seq<bool>, from: nat, end: nat): (r: seq<string>)
    requires |taken| == |ready| && from <= end <= |ready|
    decreases end
  {
    if from == end then []
    else Range(ready, taken, from, end - 1) + (if taken[end - 1] then [] else [ready[end - 1]])
  }

  lemma RangeAgrees(ready: seq<string>, t: seq<bool>, u: seq<bool>, from: nat, end: nat)
    requires |t| == |u| == |ready| && from <= end <= |ready|
    requires forall i :: from <= i < end ==> t[i] == u[i]
    ensures Range(ready, t, from, end) == Range(ready, u, from, end)
    decreases end
  {
    if from < end { RangeAgrees(ready, t, u, from, end - 1); }
  }

  lemma RangeNext(ready: seq<string>, t: seq<bool>, u: seq<bool>, from: nat, k: nat)
    requires |t| == |u| == |ready| && from <= k < |ready|
    requires forall i :: from <= i < k ==> t[i] == u[i]
    ensures Range(ready, u, from, k + 1) == Range(ready, t, from, k) + (if u[k] then [] else [ready[k]])
  {
    RangeAgrees(ready, t, u, from, k);
  }

  lemma RangeFree(ready: seq<string>, t: seq<bool>, from: nat, end: nat)
    requires |t| == |ready| && from <= end <= |ready|
    ensures Free(ready, t, from) == Range(ready, t, from, end) + Free(ready, t, end)
    decreases end
  {
    if from < end { RangeFree(ready, t, from, end - 1); }
  }

  /** What one position of the pass does. */
  lemma UnfoldCollect(repo: Listing, s: Entry, rels: set<string>, ready: seq<string>, t: seq<bool>, k: nat)
    requires |t| == |ready| && k < |ready| && ready[k] in repo
    requires AllIn(repo, Free(ready, t, k)) && AllIn(repo, Free(ready, t, k + 1))
    ensures var all := Collect(repo, s, rels, Free(ready, t, k));
            var c := repo[ready[k]];
            var r := Collect(repo, s, if t[k] then rels else Gathered(s, rels, c), Free(ready, t, k + 1));
            all == if t[k] then r
                   else if Admitted(s, rels, c) then Collected([ready[k]] + r.group, r.left)
                   else Collected(r.group, [ready[k]] + r.left)
  {
    hide Differ;
    if !t[k] {
      assert Free(ready, t, k)[1..] == Free(ready, t, k + 1);
    }
  }

  lemma FreeIn(repo: Listing, ready: seq<string>, taken: seq<bool>, from: nat)
    requires |taken| == |ready| && from <= |ready| && AllIn(repo, ready)
    ensures AllIn(repo, Free(ready, taken, from))
    decreases |ready| - from
  {
    if from < |ready| { FreeIn(repo, ready, taken, from + 1); }
  }

  ghost predicate Admitted(s: Entry, rels: set<string>, c: Entry) {
    Differ(s, c) || Joins(s, rels, c)
  }

  /** The relations after `c` was offered: those of one on another database are not
      added. */
  ghost function Gathered(s: Entry, rels: set<string>, c: Entry): (r: set<string>) {
    if !Differ(s, c) && Joins(s, rels, c) then rels + c.relations else rels
  }

  method Offer(s: Entry, rels: set<string>, c: Entry) returns (joins: bool, after: set<string>)
    ensures joins <==> Admitted(s, rels, c)
    ensures after == Gathered(s, rels, c)
  {
    if Differ(s, c) { return true, rels; }
    if !(rels !! c.relations) { return false, rels; }
    if !s.complete || !c.complete { return false, rels; }
    return true, rels + c.relations;
  }

  /** `joined` and `left` so far, with what the rest of the pass adds, make `all`. */
  ghost predicate Sofar(all: Collected, joined: seq<string>, left: seq<string>, rest: Collected) {
    all.group == joined + rest.group && all.left == left + rest.left
  }

  lemma SofarNext(repo: Listing, s: Entry, rels: set<string>, ready: seq<string>, t: seq<bool>, k: nat,
                  all: Collected, joined: seq<string>, left: seq<string>)
    requires |t| == |ready| && k < |ready| && ready[k] in repo && !t[k]
    requires AllIn(repo, Free(ready, t, k)) && AllIn(repo, Free(ready, t, k + 1))
    requires Sofar(all, joined, left, Collect(repo, s, rels, Free(ready, t, k)))
    ensures var c := repo[ready[k]];
            var rest := Collect(repo, s, Gathered(s, rels, c), Free(ready, t, k + 1));
            if Admitted(s, rels, c) then Sofar(all, joined + [ready[k]], left, rest)
            else Sofar(all, joined, left + [ready[k]], rest)
  {
    hide Collect, Free, Differ, AllIn, Admitted, Gathered;
    UnfoldCollect(repo, s, rels, ready, t, k);
  }

  lemma PassBegins(ready: seq<string>, t: seq<bool>, from: nat, all: Collected)
    requires |t| == |ready| && from <= |ready|
    ensures Sofar(all, [], [], all) && Range(ready, t, from, from) == []
  {
  }

  lemma PassEnds(repo: Listing, s: Entry, rels: set<string>, ready: seq<string>, was: seq<bool>, t: seq<bool>, from: nat,
                 all: Collected, joined: seq<string>, left: seq<string>)
    requires |was| == |t| == |ready| && from <= |ready| && AllIn(repo, Free(ready, was, |ready|))
    requires Sofar(all, joined, left, Collect(repo, s, rels, Free(ready, was, |ready|)))
    requires left == Range(ready, t, from, |ready|)
    ensures all == Collected(joined, Free(ready, t, from))
  {
    RangeFree(ready, t, from, |ready|);
  }

  /** The group seeded at `i`: marks what it takes. */
  method CollectGroup(repo: Listing, ready: seq<string>, taken: array<bool>, i: nat) returns (group: seq<string>)
    requires AllIn(repo, ready) && taken.Length == |ready| && i < |ready| && !taken[i]
    modifies taken
    ensures taken[i] && forall k :: 0 <= k < i ==> taken[k] == old(taken[k])
    ensures AllIn(repo, Free(ready, old(taken[..]), i + 1))
    ensures var c := Collect(repo, repo[ready[i]], repo[ready[i]].relations, Free(ready, old(taken[..]), i + 1));
            group == [ready[i]] + c.group && Free(ready, taken[..], i + 1) == c.left
  {
    hide Collect, Differ, Free, Range, Admitted, Gathered, Sofar, Joins;
    var seed := repo[ready[i]];
    var rels := seed.relations;
    var joined := [];
    ghost var left: seq<string> := [];
    ghost var was := taken[..];
    taken[i] := true;
    FreeIn(repo, ready, was, i + 1);
    ghost var c := Collect(repo, seed, rels, Free(ready, was, i + 1));
    PassBegins(ready, taken[..], i + 1, c);
    for k := i + 1 to |ready|
      invariant taken[i] && forall j :: 0 <= j < i || k <= j < |ready| ==> taken[j] == was[j]
      invariant AllIn(repo, Free(ready, was, k))
      invariant Sofar(c, joined, left, Collect(repo, seed, rels, Free(ready, was, k)))
      invariant left == Range(ready, taken[..], i + 1, k)
    {
      ghost var before := taken[..];
      assert ready[k] in repo;
      hide AllIn;
      FreeIn(repo, ready, was, k + 1);
      if !taken[k] {
        SofarNext(repo, seed, rels, ready, was, k, c, joined, left);
        var joins;
        joins, rels := Offer(seed, rels, repo[ready[k]]);
        if joins {
          joined := joined + [ready[k]];
          taken[k] := true;
        } else {
          left := left + [ready[k]];
        }
      } else {
        UnfoldCollect(repo, seed, rels, ready, was, k);
      }
      RangeNext(ready, before, taken[..], i + 1, k);
    }
    group := [ready[i]] + joined;
    PassEnds(repo, seed, rels, ready, was, taken[..], i + 1, c, joined, left);
  }

  lemma GroupsUnfold(repo: Listing, x: string, rest: seq<string>, all: seq<string>)
    requires x in repo && AllIn(repo, rest) && AllIn(repo, all) && all == [x] + rest
    ensures var c := Collect(repo, repo[x], repo[x].relations, rest);
            Groups(repo, all) == [[x] + c.group] + Groups(repo, c.left)
  {
    assert all[1..] == rest;
  }

  method ParallelSubsets(repo: Listing, ready: seq<string>) returns (groups: seq<seq<string>>)
    requires AllIn(repo, ready)
    ensures groups == Groups(repo, ready)
  {
    groups := [];
    var taken := new bool[|ready|](_ => false);
    FreeNone(ready, taken[..], 0);
    for i := 0 to |ready|
      invariant AllIn(repo, Free(ready, taken[..], i))
      invariant Groups(repo, ready) == groups + Groups(repo, Free(ready, taken[..], i))
    {
      hide Groups, Collect;
      FreeIn(repo, ready, taken[..], i + 1);
      if taken[i] { continue; }
      ghost var rest := Free(ready, taken[..], i + 1);
      FreeIn(repo, ready, taken[..], i);
      GroupsUnfold(repo, ready[i], rest, Free(ready, taken[..], i));
      hide Groups, Collect, Free, AllIn;
      var group := CollectGroup(repo, ready, taken, i);
      groups := groups + [group];
    }
  }
}

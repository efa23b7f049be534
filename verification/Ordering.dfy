/** The repository's order: levels from depends_on. */
module Ordering {

  datatype Status =
    | Pending | Applied | Modified | InProgress | Failed | Unreadable
    | WrongEnvironment | WrongDatabase | HeldForRelease | HeldForEpoch
    | RetiredEpoch | UnknownConnection

  datatype Entry = Entry(
    id: string, status: Status, deps: seq<string>,
    relations: set<string>, complete: bool,
    identity: string, database: string)

  type Listing = map<string, Entry>

  predicate Runnable(e: Entry) {
    e.status == Pending || e.status == Failed
  }

  /** A dependency that does not hold `id` back: not in this repository (reported
      apart), applied already, or placed at an earlier level. */
  predicate Satisfied(repo: Listing, placed: set<string>, d: string) {
    d !in repo || repo[d].status == Applied || d in placed
  }

  ghost predicate Ready(repo: Listing, placed: set<string>, id: string)
    requires id in repo
  {
    forall d :: d in repo[id].deps ==> Satisfied(repo, placed, d)
  }

  ghost predicate DistinctIds(s: seq<string>) {
    forall i, j :: 0 <= i < j < |s| ==> s[i] != s[j]
  }

  /** Those of `s` that are in `sub` stand there in the order of `s`. */
  ghost predicate Follows(s: seq<string>, sub: seq<string>) {
    forall i, j, a, b :: 0 <= i < j < |sub| && 0 <= a < |s| && 0 <= b < |s| && s[a] == sub[i] && s[b] == sub[j] ==> a < b
  }

  lemma FollowsThrough(s: seq<string>, mid: seq<string>, sub: seq<string>)
    requires Follows(s, mid) && Follows(mid, sub) && forall id :: id in sub ==> id in mid
    ensures Follows(s, sub)
  {
    forall i, j, a, b | 0 <= i < j < |sub| && 0 <= a < |s| && 0 <= b < |s| && s[a] == sub[i] && s[b] == sub[j] ensures a < b {
      assert sub[i] in sub && sub[j] in sub;
      var p :| 0 <= p < |mid| && mid[p] == sub[i];
      var q :| 0 <= q < |mid| && mid[q] == sub[j];
      assert p < q;
    }
  }

  lemma FollowsItself(s: seq<string>)
    requires DistinctIds(s)
    ensures Follows(s, s)
  {
    forall i, j, a, b | 0 <= i < j < |s| && 0 <= a < |s| && 0 <= b < |s| && s[a] == s[i] && s[b] == s[j] ensures a < b {
      assert a == i && b == j;
    }
  }

  /** One more, from further on. */
  lemma FollowsNext(s: seq<string>, k: nat, sub: seq<string>)
    requires DistinctIds(s) && k < |s| && Follows(s, sub) && forall id :: id in sub ==> id in s[..k]
    ensures Follows(s, sub + [s[k]])
  {
    var more := sub + [s[k]];
    forall i, j, a, b | 0 <= i < j < |more| && 0 <= a < |s| && 0 <= b < |s| && s[a] == more[i] && s[b] == more[j] ensures a < b {
      assert sub[i] in sub;
      var p :| 0 <= p < k && s[p] == sub[i];
      assert a == p;
      if j < |sub| { assert more[j] == sub[j]; } else { assert b == k; }
    }
  }

  function Ids(s: seq<string>): (r: set<string>) {
    set id | id in s
  }

  ghost predicate Known(repo: Listing, ids: seq<string>) {
    forall i :: 0 <= i < |ids| ==> ids[i] in repo && Runnable(repo[ids[i]])
  }

  /** A set no runnable specification is kept out of by anything but itself. */
  ghost predicate Closed(repo: Listing, runnable: seq<string>, s: set<string>)
    requires Known(repo, runnable)
  {
    forall i :: 0 <= i < |runnable| && Ready(repo, s, runnable[i]) ==> runnable[i] in s
  }

  // --- one pass -----------------------------------------------------------------

  /** Something that can never be ordered: neither applied nor runnable. */
  predicate Stuck(repo: Listing, placed: set<string>, d: string) {
    !Satisfied(repo, placed, d) && !Runnable(repo[d])
  }

  /** Why `b.0` cannot be ordered: a dependency of it, `b.1`, is stuck. */
  ghost predicate Blocks(repo: Listing, placed: set<string>, b: (string, string)) {
    b.0 in repo && b.1 in repo[b.0].deps && Stuck(repo, placed, b.1)
  }

  method Examine(repo: Listing, placed: set<string>, id: string) returns (ok: bool, blocked: seq<(string, string)>)
    requires id in repo
    ensures ok <==> Ready(repo, placed, id)
    ensures forall b :: b in blocked <==> b.0 == id && Blocks(repo, placed, b)
  {
    ok, blocked := true, [];
    var deps := repo[id].deps;
    for k := 0 to |deps|
      invariant ok <==> forall i :: 0 <= i < k ==> Satisfied(repo, placed, deps[i])
      invariant forall b :: b in blocked ==> b.0 == id && b.1 in deps && Stuck(repo, placed, b.1)
      invariant forall i :: 0 <= i < k && Stuck(repo, placed, deps[i]) ==> (id, deps[i]) in blocked
    {
      var d := deps[k];
      if d !in repo { continue; }
      if repo[d].status == Applied { continue; }
      if d in placed { continue; }
      ok := false;
      if !Runnable(repo[d]) {
        blocked := blocked + [(id, d)];
      }
    }
    forall b: (string, string) | b.0 == id && Blocks(repo, placed, b) ensures b in blocked {
      var i :| 0 <= i < |deps| && deps[i] == b.1;
      assert b == (id, deps[i]);
    }
  }

  method Scan(repo: Listing, placed: set<string>, remaining: seq<string>)
    returns (ready: seq<string>, blocked: seq<(string, string)>)
    requires Known(repo, remaining) && DistinctIds(remaining)
    ensures DistinctIds(ready) && Known(repo, ready) && Follows(remaining, ready)
    ensures forall id :: id in ready <==> id in remaining && Ready(repo, placed, id)
    ensures forall b :: b in blocked <==> b.0 in remaining && Blocks(repo, placed, b)
  {
    hide Blocks, Ready, Runnable;
    ready, blocked := [], [];
    for k := 0 to |remaining|
      invariant DistinctIds(ready) && Known(repo, ready) && Follows(remaining, ready)
      invariant forall id :: id in ready <==> id in remaining[..k] && Ready(repo, placed, id)
      invariant forall b :: b in blocked <==> b.0 in remaining[..k] && Blocks(repo, placed, b)
    {
      hide Follows;
      var ok, more := Examine(repo, placed, remaining[k]);
      assert remaining[k] !in remaining[..k];
      assert remaining[..k + 1] == remaining[..k] + [remaining[k]];
      if ok {
        FollowsNext(remaining, k, ready);
        ready := ready + [remaining[k]];
      }
      blocked := blocked + more;
    }
    assert remaining[..|remaining|] == remaining;
  }

  // --- a reported cycle is a cycle ---------------------------------------------------

  /** Each depends on the next, and the last on the first. */
  ghost predicate IsCycle(repo: Listing, c: seq<string>) {
    && c != []
    && (forall i :: 0 <= i < |c| ==> c[i] in repo)
    && (forall i :: 0 <= i < |c| - 1 ==> c[i + 1] in repo[c[i]].deps)
    && c[0] in repo[c[|c| - 1]].deps
  }

  ghost predicate IsPath(repo: Listing, within: set<string>, c: seq<string>) {
    && (forall i :: 0 <= i < |c| ==> c[i] in within && c[i] in repo)
    && (forall i :: 0 <= i < |c| - 1 ==> c[i + 1] in repo[c[i]].deps)
  }

  lemma Pigeonhole(s: seq<string>, holes: set<string>)
    requires |s| > |holes| && forall i :: 0 <= i < |s| ==> s[i] in holes
    ensures exists i, j :: 0 <= i < j < |s| && s[i] == s[j]
  {
    var n := |s| - 1;
    var last := s[n];
    if last in s[..n] {
      var i :| 0 <= i < n && s[..n][i] == last;
      assert s[i] == s[n];
    } else {
      Pigeonhole(s[..n], holes - {last});
      var i, j :| 0 <= i < j < n && s[..n][i] == s[..n][j];
      assert s[i] == s[j];
    }
  }

  /** `id` depends on one of `within`. */
  ghost predicate Waits(repo: Listing, within: set<string>, id: string) {
    id in repo && exists d :: d in repo[id].deps && d in within
  }

  lemma Follow(repo: Listing, within: set<string>, id: string) returns (d: string)
    requires id in within && forall x :: x in within ==> Waits(repo, within, x)
    ensures id in repo && d in repo[id].deps && d in within && d in repo
  {
    assert Waits(repo, within, id);
    d :| d in repo[id].deps && d in within;
    assert Waits(repo, within, d);
  }

  lemma LongPath(repo: Listing, within: set<string>, n: nat) returns (c: seq<string>)
    requires within != {} && forall id :: id in within ==> Waits(repo, within, id)
    ensures |c| == n + 1 && IsPath(repo, within, c)
  {
    hide Waits;
    if n == 0 {
      var id :| id in within;
      var _ := Follow(repo, within, id);
      c := [id];
    } else {
      var front := LongPath(repo, within, n - 1);
      var d := Follow(repo, within, front[n - 1]);
      c := front + [d];
    }
  }

  ghost predicate CycleWithin(repo: Listing, within: set<string>, c: seq<string>) {
    IsCycle(repo, c) && forall i :: 0 <= i < |c| ==> c[i] in within
  }

  lemma PathLoops(repo: Listing, within: set<string>, path: seq<string>, i: nat, j: nat)
    requires IsPath(repo, within, path) && i < j < |path| && path[i] == path[j]
    ensures CycleWithin(repo, within, path[i..j])
  {
    var c := path[i..j];
    assert forall k :: 0 <= k < |c| ==> c[k] == path[i + k];
    assert path[(j - 1) + 1] in repo[path[j - 1]].deps;
    forall k | 0 <= k < |c| - 1 ensures c[k + 1] in repo[c[k]].deps {
      assert path[(i + k) + 1] in repo[path[i + k]].deps;
    }
  }

  /** If every one of finitely many depends on another of them, some of them form a
      cycle. */
  lemma CycleExists(repo: Listing, within: set<string>)
    requires within != {} && forall id :: id in within ==> Waits(repo, within, id)
    ensures exists c :: CycleWithin(repo, within, c)
  {
    var path := LongPath(repo, within, |within|);
    Pigeonhole(path, within);
    var i, j :| 0 <= i < j < |path| && path[i] == path[j];
    PathLoops(repo, within, path, i, j);
  }

  // --- levels -----------------------------------------------------------------------

  /** Every dependency `id` has here is applied already or sits at a strictly lower
      level. */
  ghost predicate Below(repo: Listing, level: map<string, nat>, id: string)
    requires id in repo && id in level
  {
    forall d :: d in repo[id].deps && d in repo && repo[d].status != Applied ==>
      d in level && level[d] < level[id]
  }

  /** Above the first level, something one level lower holds `id` there: levels are as
      low as they can be. */
  ghost predicate Tight(repo: Listing, level: map<string, nat>, id: string)
    requires id in repo && id in level
  {
    level[id] == 0 || exists d :: d in repo[id].deps && d in level && level[d] + 1 == level[id]
  }

  /** `level` numbers exactly the members of `levels`. */
  ghost predicate Numbers(levels: seq<seq<string>>, level: map<string, nat>) {
    && (forall k, id :: 0 <= k < |levels| && id in levels[k] ==> id in level && level[id] == k)
    && (forall id :: id in level ==> level[id] < |levels| && id in levels[level[id]])
    && (forall k :: 0 <= k < |levels| ==> DistinctIds(levels[k]) && levels[k] != [])
  }

  ghost predicate Layered(repo: Listing, runnable: seq<string>, levels: seq<seq<string>>, level: map<string, nat>) {
    && Numbers(levels, level)
    && (forall id :: id in level ==>
          id in runnable && id in repo && Below(repo, level, id) && Tight(repo, level, id))
  }

  /** In every closed set: with `Closed(repo, runnable, placed)`, the least one. */
  ghost predicate Least(repo: Listing, runnable: seq<string>, placed: set<string>)
    requires Known(repo, runnable)
  {
    forall s: set<string> :: Closed(repo, runnable, s) ==> placed <= s
  }

  ghost predicate IsReady(repo: Listing, placed: set<string>, remaining: seq<string>, ready: seq<string>) {
    && Known(repo, remaining) && DistinctIds(ready)
    && (forall id :: id in ready <==> id in remaining && id in repo && Ready(repo, placed, id))
  }

  lemma LeastGrows(repo: Listing, runnable: seq<string>, placed: set<string>, remaining: seq<string>, ready: seq<string>)
    requires Known(repo, runnable) && IsReady(repo, placed, remaining, ready)
    requires forall id :: id in remaining ==> id in runnable
    requires Least(repo, runnable, placed)
    ensures Least(repo, runnable, placed + Ids(ready))
  {
    forall s: set<string> | Closed(repo, runnable, s)
      ensures placed + Ids(ready) <= s
    {
      assert placed <= s;
      forall id | id in ready ensures id in s {
        assert Ready(repo, s, id);
        var i :| 0 <= i < |runnable| && runnable[i] == id;
      }
    }
  }

  ghost function Number(level: map<string, nat>, ready: seq<string>, k: nat): (r: map<string, nat>) {
    level + map id | id in ready :: k
  }

  /** The level of each placed specification. */
  ghost function LevelsOf(levels: seq<seq<string>>): (r: map<string, nat>) {
    if levels == [] then map[]
    else Number(LevelsOf(levels[..|levels| - 1]), levels[|levels| - 1], |levels| - 1)
  }

  lemma LevelsGrow(levels: seq<seq<string>>, ready: seq<string>)
    ensures LevelsOf(levels + [ready]) == Number(LevelsOf(levels), ready, |levels|)
  {
    hide Number;
    assert (levels + [ready])[..|levels|] == levels;
  }

  lemma NumbersGrow(levels: seq<seq<string>>, level: map<string, nat>, ready: seq<string>)
    requires Numbers(levels, level) && DistinctIds(ready) && ready != []
    requires forall id :: id in ready ==> id !in level
    ensures Numbers(levels + [ready], Number(level, ready, |levels|))
  {
  }

  /** None of `remaining` was ready before the last level was added. */
  ghost predicate Held(repo: Listing, level: map<string, nat>, n: nat, remaining: seq<string>) {
    n == 0 || forall id :: id in remaining ==>
      id in repo && exists d :: d in repo[id].deps && !Satisfied(repo, Earlier(level, n - 1), d)
  }

  ghost function Earlier(level: map<string, nat>, n: nat): (s: set<string>) {
    set id | id in level && level[id] < n
  }

  lemma ReadyIsBelow(repo: Listing, level: map<string, nat>, n: nat, remaining: seq<string>, ready: seq<string>, id: string)
    requires forall x :: x in level ==> level[x] < n && x !in ready
    requires IsReady(repo, level.Keys, remaining, ready) && id in ready
    ensures Below(repo, Number(level, ready, n), id)
  {
    var next := Number(level, ready, n);
    forall d | d in repo[id].deps && d in repo && repo[d].status != Applied
      ensures d in next && next[d] < next[id]
    {
      assert Satisfied(repo, level.Keys, d);
    }
  }

  lemma ReadyIsTight(repo: Listing, level: map<string, nat>, n: nat, remaining: seq<string>, ready: seq<string>, id: string)
    requires forall x :: x in level ==> level[x] < n && x !in ready
    requires IsReady(repo, level.Keys, remaining, ready) && Held(repo, level, n, remaining)
    requires id in ready
    ensures Tight(repo, Number(level, ready, n), id)
  {
    var next := Number(level, ready, n);
    assert next[id] == n;
    if n > 0 {
      assert id in remaining;
      var d :| d in repo[id].deps && !Satisfied(repo, Earlier(level, n - 1), d);
      assert Satisfied(repo, level.Keys, d);
      assert d in next && next[d] + 1 == n;
    }
  }

  lemma StillTight(repo: Listing, level: map<string, nat>, next: map<string, nat>, id: string)
    requires id in repo && id in level && forall x :: x in level ==> x in next && next[x] == level[x]
    requires Below(repo, level, id) && Tight(repo, level, id)
    ensures Below(repo, next, id) && Tight(repo, next, id)
  {
    if level[id] > 0 {
      var d :| d in repo[id].deps && d in level && level[d] + 1 == level[id];
      assert d in next && next[d] + 1 == next[id];
    }
  }

  lemma LayeredGrows(repo: Listing, runnable: seq<string>, levels: seq<seq<string>>, level: map<string, nat>,
                     remaining: seq<string>, ready: seq<string>)
    requires Layered(repo, runnable, levels, level) && ready != []
    requires IsReady(repo, level.Keys, remaining, ready) && Held(repo, level, |levels|, remaining)
    requires forall id :: id in remaining ==> id in runnable && id !in level
    ensures Layered(repo, runnable, levels + [ready], Number(level, ready, |levels|))
  {
    NumbersGrow(levels, level, ready);
    var next := Number(level, ready, |levels|);
    forall id | id in next
      ensures id in runnable && id in repo && Below(repo, next, id) && Tight(repo, next, id)
    {
      if id in ready {
        ReadyIsBelow(repo, level, |levels|, remaining, ready, id);
        ReadyIsTight(repo, level, |levels|, remaining, ready, id);
      } else {
        StillTight(repo, level, next, id);
      }
    }
  }

  lemma HeldNext(repo: Listing, level: map<string, nat>, n: nat, remaining: seq<string>, ready: seq<string>, rest: seq<string>)
    requires forall x :: x in level ==> level[x] < n && x !in ready
    requires IsReady(repo, level.Keys, remaining, ready)
    requires forall id :: id in rest ==> id in remaining && id !in ready
    ensures Held(repo, Number(level, ready, n), n + 1, rest)
  {
    assert Earlier(Number(level, ready, n), n) == level.Keys;
  }

  method Without(remaining: seq<string>, placed: set<string>) returns (rest: seq<string>)
    requires DistinctIds(remaining)
    ensures DistinctIds(rest) && |rest| <= |remaining| && Follows(remaining, rest)
    ensures forall id :: id in rest <==> id in remaining && id !in placed
    ensures (exists id :: id in remaining && id in placed) ==> |rest| < |remaining|
  {
    rest := [];
    for k := 0 to |remaining|
      invariant DistinctIds(rest) && |rest| <= k && Follows(remaining, rest)
      invariant forall id :: id in rest <==> id in remaining[..k] && id !in placed
      invariant (exists id :: id in remaining[..k] && id in placed) ==> |rest| < k
    {
      hide Follows;
      assert remaining[k] !in remaining[..k];
      assert remaining[..k + 1] == remaining[..k] + [remaining[k]];
      if remaining[k] !in placed {
        FollowsNext(remaining, k, rest);
        rest := rest + [remaining[k]];
      }
    }
    assert remaining[..|remaining|] == remaining;
  }

  datatype Outcome = Ordered | BlockedOn(pairs: seq<(string, string)>) | Cyclic(ids: seq<string>)

  /** `b.0` was not placed, and `b.1` is a dependency of it that never can be. */
  ghost predicate Hinders(repo: Listing, runnable: seq<string>, level: map<string, nat>, b: (string, string)) {
    b.0 in runnable && b.0 !in level && Blocks(repo, level.Keys, b)
  }

  /** Each level lists its specifications in the order of the listing. */
  ghost predicate InListingOrder(runnable: seq<string>, levels: seq<seq<string>>) {
    forall k :: 0 <= k < |levels| ==> Follows(runnable, levels[k])
  }

  /** What the levels and the outcome mean. */
  ghost predicate LayersLaw(repo: Listing, runnable: seq<string>, levels: seq<seq<string>>, level: map<string, nat>, o: Outcome)
    requires Known(repo, runnable)
  {
    && Layered(repo, runnable, levels, level)
    && Closed(repo, runnable, level.Keys) && Least(repo, runnable, level.Keys)
    && (o == Ordered <==> forall id :: id in runnable ==> id in level)
    && InListingOrder(runnable, levels)
    && (forall b :: Hinders(repo, runnable, level, b) <==> o.BlockedOn? && b in o.pairs)
    && (o.BlockedOn? ==> o.pairs != [])
    && (o.Cyclic? ==> exists c :: CycleWithin(repo, Ids(o.ids), c))
    && (o.Cyclic? ==> DistinctIds(o.ids) && Follows(runnable, o.ids) && forall id :: id in o.ids <==> id in runnable && id !in level)
  }

  lemma RemainingHaveACycle(repo: Listing, runnable: seq<string>, placed: set<string>, remaining: seq<string>)
    requires Known(repo, remaining) && remaining != []
    requires forall id :: id in repo && Runnable(repo[id]) ==> id in runnable
    requires forall id :: id in remaining <==> id in runnable && id !in placed
    requires forall id :: id in remaining ==> !Ready(repo, placed, id)
    requires forall b: (string, string) :: b.0 in remaining ==> !Blocks(repo, placed, b)
    ensures exists c :: CycleWithin(repo, Ids(remaining), c)
  {
    var within := Ids(remaining);
    assert remaining[0] in within;
    forall id | id in within ensures Waits(repo, within, id) {
      var d :| d in repo[id].deps && !Satisfied(repo, placed, d);
      assert !Blocks(repo, placed, (id, d));
      assert d in within;
    }
    CycleExists(repo, within);
  }

  /** Between two levels. */
  ghost predicate MidLevels(repo: Listing, runnable: seq<string>, levels: seq<seq<string>>, level: map<string, nat>,
                          remaining: seq<string>)
    requires Known(repo, runnable)
  {
    && Known(repo, remaining) && DistinctIds(remaining) && Follows(runnable, remaining)
    && (forall id :: id in remaining <==> id in runnable && id !in level)
    && InListingOrder(runnable, levels) && Layered(repo, runnable, levels, level) && Least(repo, runnable, level.Keys)
    && Held(repo, level, |levels|, remaining)
  }

  lemma AdvanceLayers(repo: Listing, runnable: seq<string>, levels: seq<seq<string>>, level: map<string, nat>,
                      remaining: seq<string>, ready: seq<string>, rest: seq<string>)
    requires Known(repo, runnable) && MidLevels(repo, runnable, levels, level, remaining)
    requires IsReady(repo, level.Keys, remaining, ready) && ready != []
    requires forall id :: id in rest ==> id in remaining && id !in ready
    ensures Layered(repo, runnable, levels + [ready], Number(level, ready, |levels|))
    ensures Least(repo, runnable, Number(level, ready, |levels|).Keys)
    ensures Held(repo, Number(level, ready, |levels|), |levels| + 1, rest)
  {
    hide Least, Held, Ready, Below, Tight, Satisfied, Runnable, InListingOrder, Follows;
    forall id | id in level ensures level[id] < |levels| && id !in ready {
      assert id !in remaining;
    }
    hide Layered, Numbers;
    LayeredGrows(repo, runnable, levels, level, remaining, ready);
    HeldNext(repo, level, |levels|, remaining, ready, rest);
    assert Number(level, ready, |levels|).Keys == level.Keys + Ids(ready);
    LeastGrows(repo, runnable, level.Keys, remaining, ready);
  }

  lemma AdvanceRemaining(repo: Listing, runnable: seq<string>, level: map<string, nat>,
                         remaining: seq<string>, ready: seq<string>, rest: seq<string>, k: nat)
    requires Known(repo, remaining)
    requires forall id :: id in remaining <==> id in runnable && id !in level
    requires IsReady(repo, level.Keys, remaining, ready)
    requires forall id :: id in rest <==> id in remaining && id !in level.Keys + Ids(ready)
    ensures Known(repo, rest)
    ensures forall id :: id in rest <==> id in runnable && id !in Number(level, ready, k)
  {
    hide Ready;
    forall i | 0 <= i < |rest| ensures rest[i] in repo && Runnable(repo[rest[i]]) {
      assert rest[i] in remaining;
    }
  }

  lemma Advance(repo: Listing, runnable: seq<string>, levels: seq<seq<string>>, level: map<string, nat>,
                remaining: seq<string>, ready: seq<string>, rest: seq<string>)
    requires Known(repo, runnable) && MidLevels(repo, runnable, levels, level, remaining)
    requires IsReady(repo, level.Keys, remaining, ready) && ready != []
    requires DistinctIds(rest) && forall id :: id in rest <==> id in remaining && id !in level.Keys + Ids(ready)
    requires Follows(remaining, ready) && Follows(remaining, rest)
    ensures MidLevels(repo, runnable, levels + [ready], Number(level, ready, |levels|), rest)
  {
    hide Layered, Least, Held, Ready, Numbers, Follows;
    FollowsThrough(runnable, remaining, ready);
    FollowsThrough(runnable, remaining, rest);
    AdvanceLayers(repo, runnable, levels, level, remaining, ready, rest);
    AdvanceRemaining(repo, runnable, level, remaining, ready, rest, |levels|);
  }

  lemma NothingPlaced(repo: Listing, runnable: seq<string>)
    requires Known(repo, runnable) && DistinctIds(runnable)
    ensures MidLevels(repo, runnable, [], map[], runnable)
  {
    FollowsItself(runnable);
  }

  lemma AllOrdered(repo: Listing, runnable: seq<string>, levels: seq<seq<string>>, level: map<string, nat>)
    requires Known(repo, runnable) && MidLevels(repo, runnable, levels, level, [])
    ensures LayersLaw(repo, runnable, levels, level, Ordered)
  {
    hide Layered, Least, Held, InListingOrder, Follows, Blocks;
    forall i | 0 <= i < |runnable| ensures runnable[i] in level {
      assert runnable[i] !in [];
    }
  }

  lemma NothingReady(repo: Listing, runnable: seq<string>, levels: seq<seq<string>>, level: map<string, nat>,
                     remaining: seq<string>)
    requires Known(repo, runnable) && MidLevels(repo, runnable, levels, level, remaining)
    requires remaining != [] && IsReady(repo, level.Keys, remaining, [])
    ensures Closed(repo, runnable, level.Keys)
    ensures exists id :: id in runnable && id !in level
  {
    hide Layered, Least, Held, InListingOrder, Follows;
    assert remaining[0] in remaining;
    forall i | 0 <= i < |runnable| && Ready(repo, level.Keys, runnable[i]) ensures runnable[i] in level {
      assert runnable[i] !in [];
    }
  }

  lemma StopsThere(repo: Listing, runnable: seq<string>, levels: seq<seq<string>>, level: map<string, nat>,
                   remaining: seq<string>, blocked: seq<(string, string)>, o: Outcome)
    requires Known(repo, runnable) && MidLevels(repo, runnable, levels, level, remaining)
    requires forall id :: id in repo && Runnable(repo[id]) ==> id in runnable
    requires remaining != [] && IsReady(repo, level.Keys, remaining, [])
    requires forall b :: b in blocked <==> b.0 in remaining && Blocks(repo, level.Keys, b)
    requires o == if blocked != [] then BlockedOn(blocked) else Cyclic(remaining)
    ensures LayersLaw(repo, runnable, levels, level, o)
  {
    hide Layered, Least, Held, InListingOrder, Follows, Blocks, CycleWithin, Closed;
    NothingReady(repo, runnable, levels, level, remaining);
    if blocked == [] {
      RemainingHaveACycle(repo, runnable, level.Keys, remaining);
    }
  }

  method Layers(repo: Listing, runnable: seq<string>)
    returns (levels: seq<seq<string>>, o: Outcome)
    requires Known(repo, runnable) && DistinctIds(runnable)
    requires forall id :: id in repo && Runnable(repo[id]) ==> id in runnable
    ensures LayersLaw(repo, runnable, levels, LevelsOf(levels), o)
  {
    hide Layered, Least, Held, Ready, Runnable, Stuck, Closed, Blocks, InListingOrder, Follows, LayersLaw;
    levels, o := [], Ordered;
    ghost var level: map<string, nat> := map[];
    var placed := {};
    var remaining := runnable;
    NothingPlaced(repo, runnable);
    while remaining != []
      invariant placed == level.Keys && level == LevelsOf(levels)
      invariant MidLevels(repo, runnable, levels, level, remaining)
      decreases |remaining|
    {
      var ready, blocked := Scan(repo, placed, remaining);
      assert IsReady(repo, placed, remaining, ready);
      if ready == [] {
        if blocked != [] {
          o := BlockedOn(blocked);
        } else {
          o := Cyclic(remaining);
        }
        StopsThere(repo, runnable, levels, level, remaining, blocked, o);
        return;
      }
      assert ready[0] in remaining && ready[0] in Ids(ready);
      placed := placed + Ids(ready);
      var rest := Without(remaining, placed);
      Advance(repo, runnable, levels, level, remaining, ready, rest);
      LevelsGrow(levels, ready);
      level := Number(level, ready, |levels|);
      levels := levels + [ready];
      remaining := rest;
    }
    AllOrdered(repo, runnable, levels, level);
  }
}

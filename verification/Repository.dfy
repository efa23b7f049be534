/** From a listing to an order: levels, the groups within each, and the problems that
    forbid running any of it. */
module Repository {
  import opened Ordering
  import opened Subsets

  datatype Problem =
    | FoundByScan(text: string)
    | ModifiedAfterApply(id: string)
    | MissingDependency(id: string, dep: string)
    | BlockedBy(id: string, dep: string)
    | CycleAmong(ids: seq<string>)

  /** What the scan guarantees: a file that does not parse has no id and is not
      runnable, and an id claimed twice is listed once. */
  ghost predicate WellListed(entries: seq<Entry>) {
    && (forall i :: 0 <= i < |entries| && Runnable(entries[i]) ==> entries[i].id != "")
    && (forall i, j :: 0 <= i < j < |entries| && entries[i].id == entries[j].id ==> entries[i].id == "")
  }

  ghost predicate Listed(entries: seq<Entry>, repo: Listing) {
    && (forall i :: 0 <= i < |entries| && entries[i].id != "" ==>
          entries[i].id in repo && repo[entries[i].id] == entries[i])
    && (forall id :: id in repo ==> id != "" && repo[id] in entries && repo[id].id == id)
  }

  ghost predicate RunnableOf(repo: Listing, runnable: seq<string>) {
    && DistinctIds(runnable)
    && (forall id :: id in runnable <==> id in repo && Runnable(repo[id]))
  }

  /** In the order of the listing. */
  ghost predicate AsListed(entries: seq<Entry>, runnable: seq<string>) {
    forall i, j, a, b :: (0 <= i < j < |runnable| && 0 <= a < |entries| && 0 <= b < |entries|
                          && entries[a].id == runnable[i] && entries[b].id == runnable[j]) ==> a < b
  }

  lemma AsListedNext(entries: seq<Entry>, k: nat, repo: Listing, runnable: seq<string>)
    requires WellListed(entries) && k < |entries| && Runnable(entries[k])
    requires Listed(entries[..k], repo) && RunnableOf(repo, runnable) && AsListed(entries, runnable)
    ensures AsListed(entries, runnable + [entries[k].id])
  {
    var more := runnable + [entries[k].id];
    forall i, j, a, b | 0 <= i < j < |more| && 0 <= a < |entries| && 0 <= b < |entries|
      && entries[a].id == more[i] && entries[b].id == more[j] ensures a < b
    {
      var id := runnable[i];
      assert id in runnable && id in repo && repo[id] in entries[..k];
      var p :| 0 <= p < k && entries[..k][p] == repo[id];
      assert entries[p].id == id && id != "";
      assert a == p;
      if j < |runnable| { assert more[j] == runnable[j]; } else { assert b == k; }
    }
  }

  lemma NoneListed(entries: seq<Entry>)
    ensures Listed(entries[..0], map[]) && AsListed(entries, []) && forall id :: !ModifiedId(entries[..0], id)
  {
  }

  lemma ListedNext(entries: seq<Entry>, k: nat, repo: Listing)
    requires WellListed(entries) && k < |entries| && Listed(entries[..k], repo)
    ensures var e := entries[k];
            && Listed(entries[..k + 1], if e.id != "" then repo[e.id := e] else repo)
            && e.id !in repo && (Runnable(e) ==> e.id != "")
  {
    var e := entries[k];
    assert entries[..k + 1] == entries[..k] + [e];
    forall i | 0 <= i < k && e.id != "" ensures entries[..k][i].id != e.id {
    }
  }

  lemma ModifiedNext(entries: seq<Entry>, k: nat)
    requires k < |entries|
    ensures forall id :: ModifiedId(entries[..k + 1], id) <==>
                         ModifiedId(entries[..k], id) || (entries[k].status == Modified && entries[k].id == id)
  {
    assert entries[..k + 1] == entries[..k] + [entries[k]];
    forall id | ModifiedId(entries[..k], id) ensures ModifiedId(entries[..k + 1], id) {
      var i :| 0 <= i < k && entries[..k][i].status == Modified && entries[..k][i].id == id;
      assert entries[..k + 1][i].status == Modified;
    }
    if entries[k].status == Modified {
      assert entries[..k + 1][k].status == Modified;
    }
    forall id | ModifiedId(entries[..k + 1], id) && !(entries[k].status == Modified && entries[k].id == id)
      ensures ModifiedId(entries[..k], id)
    {
      var i :| 0 <= i < k + 1 && entries[..k + 1][i].status == Modified && entries[..k + 1][i].id == id;
      assert entries[..k][i].status == Modified;
    }
  }

  method Index(entries: seq<Entry>) returns (repo: Listing, runnable: seq<string>, problems: seq<Problem>)
    requires WellListed(entries)
    ensures Listed(entries, repo) && RunnableOf(repo, runnable) && AsListed(entries, runnable)
    ensures forall p :: p in problems <==> p.ModifiedAfterApply? && ModifiedId(entries, p.id)
  {
    hide WellListed, AsListed, ModifiedId, Listed;
    repo, runnable, problems := map[], [], [];
    NoneListed(entries);
    for k := 0 to |entries|
      invariant Listed(entries[..k], repo) && RunnableOf(repo, runnable) && AsListed(entries, runnable)
      invariant forall p :: p in problems <==> p.ModifiedAfterApply? && ModifiedId(entries[..k], p.id)
    {
      var e := entries[k];
      ListedNext(entries, k, repo);
      ModifiedNext(entries, k);
      if Runnable(e) { AsListedNext(entries, k, repo, runnable); }
      if e.id != "" { repo := repo[e.id := e]; }
      if Runnable(e) { runnable := runnable + [e.id]; }
      if e.status == Modified { problems := problems + [ModifiedAfterApply(e.id)]; }
    }
    assert entries[..|entries|] == entries;
  }

  ghost predicate ModifiedId(entries: seq<Entry>, id: string) {
    exists i :: 0 <= i < |entries| && entries[i].status == Modified && entries[i].id == id
  }

  /** Not in this repository, and recorded as succeeded by no database in the listing. */
  predicate Unanswered(repo: Listing, elsewhere: set<string>, d: string) {
    d !in repo && d !in elsewhere
  }

  ghost predicate MissingLaw(repo: Listing, elsewhere: set<string>, ids: seq<string>, problems: seq<Problem>) {
    && (forall p :: p in problems ==>
          p.MissingDependency? && p.id in ids && p.id in repo && p.dep in repo[p.id].deps && Unanswered(repo, elsewhere, p.dep))
    && (forall id, d :: id in ids && id in repo && d in repo[id].deps && Unanswered(repo, elsewhere, d) ==>
          MissingDependency(id, d) in problems)
  }

  method Unlisted(repo: Listing, elsewhere: set<string>, id: string) returns (problems: seq<Problem>)
    requires id in repo
    ensures MissingLaw(repo, elsewhere, [id], problems)
  {
    problems := [];
    var deps := repo[id].deps;
    for k := 0 to |deps|
      invariant forall p :: p in problems ==>
                  p.MissingDependency? && p.id == id && p.dep in deps && Unanswered(repo, elsewhere, p.dep)
      invariant forall i :: 0 <= i < k && Unanswered(repo, elsewhere, deps[i]) ==> MissingDependency(id, deps[i]) in problems
    {
      if deps[k] in repo { continue; }
      if deps[k] in elsewhere { continue; }
      problems := problems + [MissingDependency(id, deps[k])];
    }
  }

  method Missing(repo: Listing, elsewhere: set<string>, runnable: seq<string>) returns (problems: seq<Problem>)
    requires Known(repo, runnable)
    ensures MissingLaw(repo, elsewhere, runnable, problems)
  {
    problems := [];
    for k := 0 to |runnable|
      invariant MissingLaw(repo, elsewhere, runnable[..k], problems)
    {
      var more := Unlisted(repo, elsewhere, runnable[k]);
      assert runnable[..k + 1] == runnable[..k] + [runnable[k]];
      problems := problems + more;
    }
    assert runnable[..|runnable|] == runnable;
  }

  method GroupLevels(repo: Listing, levels: seq<seq<string>>) returns (order: seq<seq<seq<string>>>)
    requires forall k :: 0 <= k < |levels| ==> AllIn(repo, levels[k])
    ensures Grouping(repo, levels, order)
  {
    order := [];
    for k := 0 to |levels|
      invariant |order| == k && forall i :: 0 <= i < k ==> order[i] == Groups(repo, levels[i])
    {
      var groups := ParallelSubsets(repo, levels[k]);
      order := order + [groups];
    }
  }

  ghost predicate Grouping(repo: Listing, levels: seq<seq<string>>, order: seq<seq<seq<string>>>) {
    && |order| == |levels|
    && (forall k :: 0 <= k < |levels| ==> AllIn(repo, levels[k]) && order[k] == Groups(repo, levels[k]))
  }

  /** Everything the order promises: levels that are the least solution of the
      dependencies, grouped; and problems that say exactly what forbids the run. */
  ghost predicate Assembled(entries: seq<Entry>, elsewhere: set<string>, scanned: seq<Problem>, repo: Listing, runnable: seq<string>,
                            levels: seq<seq<string>>, o: Outcome,
                            order: seq<seq<seq<string>>>, problems: seq<Problem>)
  {
    && Listed(entries, repo) && RunnableOf(repo, runnable) && AsListed(entries, runnable) && Known(repo, runnable)
    && LayersLaw(repo, runnable, levels, LevelsOf(levels), o)
    && Grouping(repo, levels, order)
    && ProblemsLaw(entries, elsewhere, scanned, repo, runnable, LevelsOf(levels), o, problems)
  }

  /** What the order finds against running, beside what the scan found. */
  ghost predicate Forbids(entries: seq<Entry>, elsewhere: set<string>, repo: Listing, runnable: seq<string>,
                          level: map<string, nat>, p: Problem)
  {
    match p
    case FoundByScan(_) => false
    case ModifiedAfterApply(id) => ModifiedId(entries, id)
    case MissingDependency(id, d) => id in runnable && id in repo && d in repo[id].deps && Unanswered(repo, elsewhere, d)
    case BlockedBy(id, d) => id in runnable && id !in level && id in repo && d in repo[id].deps && Stuck(repo, level.Keys, d)
    case CycleAmong(ids) =>
      && ids != [] && DistinctIds(ids) && Follows(runnable, ids) && (forall id :: id in ids <==> id in runnable && id !in level)
      && (forall b :: !Hinders(repo, runnable, level, b))
  }

  ghost predicate ProblemsLaw(entries: seq<Entry>, elsewhere: set<string>, scanned: seq<Problem>, repo: Listing, runnable: seq<string>,
                              level: map<string, nat>, o: Outcome, problems: seq<Problem>)
  {
    && (forall p :: p in problems ==> p in scanned || Forbids(entries, elsewhere, repo, runnable, level, p))
    && (forall p :: p in scanned || (!p.CycleAmong? && Forbids(entries, elsewhere, repo, runnable, level, p)) ==> p in problems)
    && (o.Cyclic? ==> CycleAmong(o.ids) in problems)
    && scanned <= problems
    && (problems == [] <==>
          scanned == [] && o == Ordered && MissingLaw(repo, elsewhere, runnable, []) && forall id :: !ModifiedId(entries, id))
    && (forall p :: p in problems && p !in scanned && p.CycleAmong? ==> exists c :: CycleWithin(repo, Ids(p.ids), c))
  }

  lemma ProblemsExactly(entries: seq<Entry>, elsewhere: set<string>, scanned: seq<Problem>, repo: Listing, runnable: seq<string>,
                        levels: seq<seq<string>>, level: map<string, nat>, o: Outcome,
                        modified: seq<Problem>, missing: seq<Problem>)
    requires Known(repo, runnable) && LayersLaw(repo, runnable, levels, level, o)
    requires MissingLaw(repo, elsewhere, runnable, missing)
    requires forall p :: p in modified <==> p.ModifiedAfterApply? && ModifiedId(entries, p.id)
    ensures ProblemsLaw(entries, elsewhere, scanned, repo, runnable, level, o, scanned + modified + missing + AsProblems(o))
  {
    hide Layered, Closed, Least, Known, ModifiedId, Follows, InListingOrder, DistinctIds, CycleWithin, Stuck, Forbids;
    ForbidsExactly(entries, elsewhere, repo, runnable, levels, level, o, modified, missing);
    NoneMissing(repo, elsewhere, runnable, missing);
    if modified != [] {
      assert modified[0] in modified;
    }
    if exists id :: ModifiedId(entries, id) {
      var id :| ModifiedId(entries, id);
      assert ModifiedAfterApply(id) in modified;
    }
  }

  lemma ForbidsExactly(entries: seq<Entry>, elsewhere: set<string>, repo: Listing, runnable: seq<string>,
                       levels: seq<seq<string>>, level: map<string, nat>, o: Outcome,
                       modified: seq<Problem>, missing: seq<Problem>)
    requires Known(repo, runnable) && LayersLaw(repo, runnable, levels, level, o)
    requires MissingLaw(repo, elsewhere, runnable, missing)
    requires forall p :: p in modified <==> p.ModifiedAfterApply? && ModifiedId(entries, p.id)
    ensures forall p :: p in modified + missing + AsProblems(o) ==> Forbids(entries, elsewhere, repo, runnable, level, p)
    ensures forall p: Problem :: !p.CycleAmong? && Forbids(entries, elsewhere, repo, runnable, level, p) ==> p in modified + missing + AsProblems(o)
  {
    hide Layered, Closed, Least, ModifiedId, Follows, InListingOrder, DistinctIds, CycleWithin, Stuck;
    forall p | p in AsProblems(o) ensures Forbids(entries, elsewhere, repo, runnable, level, p) {
      AsProblemsForbid(entries, elsewhere, repo, runnable, levels, level, o, p);
    }
    forall p: Problem | p.BlockedBy? && Forbids(entries, elsewhere, repo, runnable, level, p) ensures p in AsProblems(o) {
      assert Hinders(repo, runnable, level, (p.id, p.dep));
      var i :| 0 <= i < |o.pairs| && o.pairs[i] == (p.id, p.dep);
      assert AsProblems(o)[i] == p;
    }
  }

  lemma AsProblemsForbid(entries: seq<Entry>, elsewhere: set<string>, repo: Listing, runnable: seq<string>,
                         levels: seq<seq<string>>, level: map<string, nat>, o: Outcome, p: Problem)
    requires Known(repo, runnable) && LayersLaw(repo, runnable, levels, level, o) && p in AsProblems(o)
    ensures Forbids(entries, elsewhere, repo, runnable, level, p)
  {
    hide Layered, Closed, Least, ModifiedId, Follows, InListingOrder, DistinctIds, Stuck;
    if o.BlockedOn? {
      var i :| 0 <= i < |o.pairs| && AsProblems(o)[i] == p;
      assert o.pairs[i] in o.pairs;
      assert Hinders(repo, runnable, level, o.pairs[i]);
    } else {
      var c :| CycleWithin(repo, Ids(o.ids), c);
      assert o.ids != [];
    }
  }

  function AsProblems(o: Outcome): (r: seq<Problem>) {
    match o
    case Ordered => []
    case BlockedOn(pairs) => seq(|pairs|, i requires 0 <= i < |pairs| => BlockedBy(pairs[i].0, pairs[i].1))
    case Cyclic(ids) => [CycleAmong(ids)]
  }

  lemma LevelsKnown(repo: Listing, runnable: seq<string>, levels: seq<seq<string>>, level: map<string, nat>)
    requires Layered(repo, runnable, levels, level)
    ensures forall k :: 0 <= k < |levels| ==> AllIn(repo, levels[k])
  {
    forall k, i | 0 <= k < |levels| && 0 <= i < |levels[k]| ensures levels[k][i] in repo {
      assert levels[k][i] in levels[k];
    }
  }

  lemma NoneMissing(repo: Listing, elsewhere: set<string>, runnable: seq<string>, problems: seq<Problem>)
    requires MissingLaw(repo, elsewhere, runnable, problems)
    ensures problems == [] <==> MissingLaw(repo, elsewhere, runnable, [])
  {
    if problems != [] {
      var p := problems[0];
      assert p in problems;
      assert MissingDependency(p.id, p.dep) !in [];
    }
  }

  method Assemble(entries: seq<Entry>, elsewhere: set<string>, scanned: seq<Problem>)
    returns (order: seq<seq<seq<string>>>, problems: seq<Problem>, repo: Listing, runnable: seq<string>,
             levels: seq<seq<string>>, o: Outcome)
    requires WellListed(entries)
    ensures Assembled(entries, elsewhere, scanned, repo, runnable, levels, o, order, problems)
  {
    hide LayersLaw, MissingLaw, WellListed, Listed, Grouping, ProblemsLaw, ModifiedId, AsListed, Follows;
    var modified;
    repo, runnable, modified := Index(entries);
    var missing := Missing(repo, elsewhere, runnable);
    levels, o := Layers(repo, runnable);
    ProblemsExactly(entries, elsewhere, scanned, repo, runnable, levels, LevelsOf(levels), o, modified, missing);
    order := LevelGroups(repo, runnable, levels, o);
    problems := scanned + modified + missing + AsProblems(o);
  }

  method LevelGroups(repo: Listing, runnable: seq<string>, levels: seq<seq<string>>, ghost o: Outcome)
    returns (order: seq<seq<seq<string>>>)
    requires Known(repo, runnable) && LayersLaw(repo, runnable, levels, LevelsOf(levels), o)
    ensures Grouping(repo, levels, order)
  {
    LevelsKnown(repo, runnable, levels, LevelsOf(levels));
    order := GroupLevels(repo, levels);
  }
}

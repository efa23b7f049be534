/** What every run of the walk machine keeps, and exactly when it keeps it. */
module WalkLaws {
  import opened Options
  import opened Order
  import opened Walk

  // --- the finished job -----------------------------------------------------------

  /** A job that finished changed each row that matched when it began and lay
      above its start exactly once, except the rows `lost` to its own cancels,
      and no other row. Batch sizes, throttling and byte budgets do not appear:
      they decide only how the stretches were cut. */
  lemma FinishedJob(w: Intent, s: State)
    requires Accounted(w, s) && s.running && s.done && s.pending == {}
    ensures s.changed !! s.lost
    ensures forall k :: k in s.changed + s.lost <==> Matches(w, s.orig, k) && Above(s.base, k)
    ensures s.data == Rewrite(w, s.orig, s.changed)
    ensures s.rowsDone == |s.changed| + |s.lost|
  {
    hide Less, Rewrite;
    assert Touched(s) == s.changed + s.lost;
  }

  /** What still matches above the start of a finished job is what its own
      cancels passed over; below the start nothing changed. */
  lemma WhatRemains(w: Intent, s: State, k: Key)
    requires Settles(w) && Accounted(w, s) && s.running && s.done && s.pending == {}
    ensures Above(s.base, k) ==> (Matches(w, s.data, k) <==> k in s.lost)
    ensures !Above(s.base, k) ==> (Matches(w, s.data, k) <==> Matches(w, s.orig, k))
  {
    hide Less;
    FinishedJob(w, s);
  }

  /** A finished job leaves no matching row in the whole table if and only if its
      cancels passed over none and none matched at or below its start. A walk by a
      single key starts just after the sentinel "0", so a matching row whose key is
      not above that is left. */
  lemma WholeTableExactly(w: Intent, s: State)
    requires Settles(w) && Accounted(w, s) && s.running && s.done && s.pending == {}
    ensures (forall k :: !Matches(w, s.data, k)) <==>
            s.lost == {} && forall k :: !Above(s.base, k) ==> !Matches(w, s.orig, k)
  {
    hide *;
    forall k { WhatRemains(w, s, k); }
    if s.lost != {} {
      var k :| k in s.lost;
      FinishedJob(w, s);
      assert k in s.changed + s.lost;
      assert Matches(w, s.data, k);
    }
  }

  // --- the tool's own cancel --------------------------------------------------------

  /** The cursor after the tool cancels its own batch still means "everything
      behind it is done" if and only if the cancelled batch was the first of its
      transaction. */
  lemma CancelExact(w: Intent, start: Position, s: State)
    requires Settles(w) && Accounted(w, s) && Legal(w, s, Cancel) && s.lost == {}
    ensures var t := Step(w, start, s, Cancel);
            (forall k :: Matches(w, View(w, t), k) ==> !Between(s.base, k, t.at)) <==> s.pending == {}
  {
    hide Less;
    var t := Step(w, start, s, Cancel);
    assert View(w, t) == s.data;
    if s.pending != {} {
      var k :| k in s.pending;
      assert k in Touched(s);
      assert Matches(w, View(w, t), k);
    } else {
      forall k | Matches(w, View(w, t), k)
        ensures !Between(s.base, k, t.at)
      {
        assert k in Touched(s) <==> k in s.changed;
      }
    }
  }

  lemma GentleSplit(w: Intent, start: Position, s: State, es: seq<Event>)
    requires es != []
    ensures var n := |es| - 1;
            GentleCancels(w, start, s, es) <==>
            GentleCancels(w, start, s, es[..n]) && (es[n].Cancel? ==> Run(w, start, s, es[..n]).pending == {})
  {
    hide Run, Less, Rewrite;
    var n := |es| - 1;
    var front := es[..n];
    assert forall i :: 0 <= i <= n ==> es[..i] == front[..i];
    assert front[..n] == front;
    assert forall i :: 0 <= i < n ==> es[i] == front[i];
  }

  lemma NoCancels(w: Intent, start: Position, s: State)
    ensures GentleCancels(w, start, s, [])
  {
  }

  lemma StepLost(w: Intent, start: Position, s: State, e: Event)
    requires !e.Resume?
    ensures Step(w, start, s, e).lost == {} <==> s.lost == {} && (e.Cancel? ==> s.pending == {})
  {
  }

  lemma {:induction false} LostExactly(w: Intent, start: Position, s: State, es: seq<Event>)
    requires s.lost == {}
    requires forall i :: 0 <= i < |es| ==> !es[i].Resume?
    ensures Run(w, start, s, es).lost == {} <==> GentleCancels(w, start, s, es)
  {
    hide Step, GentleCancels;
    if es == [] {
      NoCancels(w, start, s);
    } else {
      var n := |es| - 1;
      var front := es[..n];
      LostExactly(w, start, s, front);
      GentleSplit(w, start, s, es);
      StepLost(w, start, Run(w, start, s, front), es[n]);
    }
  }

  /** A job run from `s` to its final commit leaves no matching row above its
      start if and only if every cancel of its own batches hit the first batch
      of a transaction. */
  lemma CompleteExactly(w: Intent, start: Position, s: State, es: seq<Event>)
    requires Settles(w) && Accounted(w, s) && s.running && s.lost == {}
    requires LegalRun(w, start, s, es) && Undisturbed(es)
    requires forall i :: 0 <= i < |es| ==> !es[i].Resume?
    requires var t := Run(w, start, s, es); t.running && t.done && t.pending == {}
    ensures var t := Run(w, start, s, es);
            (forall k :: Above(t.base, k) ==> !Matches(w, t.data, k)) <==> GentleCancels(w, start, s, es)
  {
    hide *;
    var t := Run(w, start, s, es);
    RunAccounted(w, start, s, es);
    LostExactly(w, start, s, es);
    forall k { WhatRemains(w, t, k); }
    if t.lost != {} {
      var k :| k in t.lost;
      FinishedJob(w, t);
      assert Above(t.base, k) && Matches(w, t.data, k);
    }
  }

  // --- the committed cursor ---------------------------------------------------------

  /** No row above `floor` and at or below the local cursor matches, as the
      worker's transaction sees it; none is hidden above the walk's bound. */
  ghost predicate AtClaim(w: Intent, floor: Position, s: State) {
    s.running ==>
      && (forall k :: k in s.pending ==> Matches(w, s.data, k))
      && (forall k :: Matches(w, View(w, s), k) && Above(floor, k) ==> Above(s.at, k))
      && (forall k :: Matches(w, View(w, s), k) ==> Within(s.upto, k))
      && (s.done ==> forall k :: Matches(w, View(w, s), k) ==> !Above(s.at, k))
  }

  /** The same of the cursor and the data that are durable. */
  ghost predicate SavedClaim(w: Intent, floor: Position, s: State) {
    s.saved.Some? ==> forall k :: Matches(w, s.data, k) && Above(floor, k) ==> Above(s.saved.value, k)
  }

  lemma BatchView(w: Intent, s: State, keys: set<Key>, k: Key)
    requires Settles(w) && forall x :: x in s.pending ==> Matches(w, s.data, x)
    requires forall x :: x in keys ==> Matches(w, View(w, s), x)
    ensures Matches(w, Rewrite(w, s.data, s.pending + keys), k) <==>
            Matches(w, View(w, s), k) && k !in keys
    ensures k in keys ==> k !in s.pending && Matches(w, s.data, k)
  {
    assert k in s.pending ==> Matches(w, s.data, k);
  }

  lemma BatchClaim(w: Intent, start: Position, floor: Position, s: State, keys: set<Key>, next: Position)
    requires Settles(w) && AtClaim(w, floor, s) && Legal(w, s, Batch(keys, next))
    ensures AtClaim(w, floor, Step(w, start, s, Batch(keys, next)))
  {
    hide Less, Rewrite;
    var t := Step(w, start, s, Batch(keys, next));
    forall k | k in t.pending ensures Matches(w, t.data, k) {
      BatchView(w, s, keys, k);
    }
    forall k | Matches(w, View(w, t), k)
      ensures Above(floor, k) ==> Above(t.at, k)
      ensures Within(t.upto, k)
    {
      BatchView(w, s, keys, k);
    }
  }

  lemma ForeignClaim(w: Intent, start: Position, floor: Position, s: State, to: Table)
    requires AtClaim(w, floor, s) && Legal(w, s, Foreign(to))
    ensures AtClaim(w, floor, Step(w, start, s, Foreign(to)))
  {
    hide Less;
    var t := Step(w, start, s, Foreign(to));
    forall k | Matches(w, View(w, t), k)
      ensures Matches(w, View(w, s), k)
    {
      if k in s.pending {
        assert k in to && to[k] == s.data[k];
      } else {
        assert Matches(w, to, k);
      }
    }
  }

  /** Between a resume and the end of that process, nothing that happens can
      bring back a matching row behind the cursor: not batches, commits, other
      sessions' writes, nor a cancel that hits the first batch. */
  lemma {:induction false} StepClaim(w: Intent, start: Position, floor: Position, s: State, e: Event)
    requires Settles(w) && AtClaim(w, floor, s) && Legal(w, s, e)
    requires e.Cancel? ==> s.pending == {}
    requires !e.Resume?
    ensures AtClaim(w, floor, Step(w, start, s, e))
  {
    hide Less, Rewrite;
    match e
    case Batch(keys, next) => BatchClaim(w, start, floor, s, keys, next);
    case Foreign(to) => ForeignClaim(w, start, floor, s, to);
    case Commit => assert View(w, Step(w, start, s, e)) == View(w, s) by { NothingPending(w, View(w, s)); }
    case Finish =>
    case Cancel =>
    case Crash =>
  }

  lemma NothingPending(w: Intent, t: Table)
    ensures Rewrite(w, t, {}) == t
  {
  }

  /** A job begins where its claim holds: at the walk's start, or at a cursor the
      check accepted, and then with nothing left at or below it at all. */
  lemma ResumeClaim(w: Intent, start: Position, s: State, from: Option<Position>, bound: Option<Key>)
    requires Legal(w, s, Resume(from, bound))
    ensures var t := Step(w, start, s, Resume(from, bound));
            && AtClaim(w, start, t)
            && (t.at != start ==> AtClaim(w, Bottom, t))
            && (from.None? || Stale(w, s.data, from.value) ==> t.at == start)
            && (from.Some? && !Stale(w, s.data, from.value) ==> t.at == from.value && AtClaim(w, Bottom, t))
  {
    hide Less, Rewrite;
    var t := Step(w, start, s, Resume(from, bound));
    NothingPending(w, s.data);
    forall k | Matches(w, t.data, k)
      ensures Within(t.upto, k)
    {
      assert k in s.data;
    }
  }

  ghost predicate Claims(w: Intent, start: Position, s: State) {
    AtClaim(w, start, s) && SavedClaim(w, start, s)
  }

  lemma {:induction false} StepClaims(w: Intent, start: Position, s: State, e: Event)
    requires Settles(w) && Claims(w, start, s) && Legal(w, s, e)
    requires e.Cancel? ==> s.pending == {}
    ensures Claims(w, start, Step(w, start, s, e))
  {
    hide Less, Rewrite;
    match e
    case Resume(from, bound) => ResumeClaim(w, start, s, from, bound);
    case Batch(_, _) => StepClaim(w, start, start, s, e);
    case Foreign(_) => StepClaim(w, start, start, s, e);
    case Commit => StepClaim(w, start, start, s, e);
    case Finish => StepClaim(w, start, start, s, e);
    case Cancel => StepClaim(w, start, start, s, e);
    case Crash => StepClaim(w, start, start, s, e);
  }

  /** Cursor and data never disagree. Over every run of batches, commits, crashes,
      resumes, other sessions' writes and gentle cancels, no row above the walk's
      start and at or below the committed cursor still matches. */
  lemma {:induction false} CursorAndDataAgree(w: Intent, start: Position, s: State, es: seq<Event>)
    requires Settles(w) && Claims(w, start, s)
    requires LegalRun(w, start, s, es) && GentleCancels(w, start, s, es)
    ensures Claims(w, start, Run(w, start, s, es))
  {
    if es != [] {
      var n := |es| - 1;
      var front := es[..n];
      GentleSplit(w, start, s, es);
      CursorAndDataAgree(w, start, s, front);
      StepClaims(w, start, Run(w, start, s, front), es[n]);
    }
  }

  lemma {:induction false} RunAtClaim(w: Intent, start: Position, floor: Position, s: State, es: seq<Event>)
    requires Settles(w) && AtClaim(w, floor, s)
    requires LegalRun(w, start, s, es) && GentleCancels(w, start, s, es)
    requires forall i :: 0 <= i < |es| ==> !es[i].Resume?
    ensures AtClaim(w, floor, Run(w, start, s, es))
  {
    if es != [] {
      var n := |es| - 1;
      var front := es[..n];
      GentleSplit(w, start, s, es);
      RunAtClaim(w, start, floor, s, front);
      StepClaim(w, start, floor, Run(w, start, s, front), es[n]);
    }
  }

  /** Whatever state a job finds and wherever its cursor came from: accepted by
      the check and walked to the end, it leaves no matching row at all; rejected
      or absent, it begins at the walk's start and leaves none above that. Other
      sessions may write meanwhile, and rows they add above the bound do not
      escape, since a row they write never matches. */
  lemma ResumedJobFinishes(w: Intent, start: Position, s: State, from: Option<Position>, bound: Option<Key>,
                           es: seq<Event>)
    requires Settles(w) && Legal(w, s, Resume(from, bound))
    requires var r := Step(w, start, s, Resume(from, bound));
             LegalRun(w, start, r, es) && GentleCancels(w, start, r, es)
    requires forall i :: 0 <= i < |es| ==> !es[i].Resume?
    requires var t := Run(w, start, Step(w, start, s, Resume(from, bound)), es); t.running && t.done && t.pending == {}
    ensures var t := Run(w, start, Step(w, start, s, Resume(from, bound)), es);
            && (from.Some? && !Stale(w, s.data, from.value) ==> forall k :: !Matches(w, t.data, k))
            && (from.None? || Stale(w, s.data, from.value) ==>
                forall k :: Above(start, k) ==> !Matches(w, t.data, k))
  {
    hide Less, Rewrite, Run, LegalRun;
    var r := Step(w, start, s, Resume(from, bound));
    var t := Run(w, start, r, es);
    ResumeClaim(w, start, s, from, bound);
    RunAtClaim(w, start, start, r, es);
    NothingPending(w, t.data);
    if from.Some? && !Stale(w, s.data, from.value) {
      RunAtClaim(w, start, Bottom, r, es);
      forall k
        ensures !Matches(w, t.data, k)
      {
        assert Above(Bottom, k);
      }
    }
  }

  // --- a good cursor is accepted -------------------------------------------------------------

  /** Where a job begins: at the offered cursor if no matching row lies at or below it, at
      the walk's start if one does or if none is offered. */
  lemma BeginsAt(w: Intent, start: Position, s: State, c: Position, bound: Option<Key>)
    ensures (forall k :: k in s.data && w.matches(s.data[k]) ==> Above(c, k)) ==>
              Step(w, start, s, Resume(Some(c), bound)).at == c
    ensures (exists k :: k in s.data && w.matches(s.data[k]) && !Above(c, k)) ==>
              Step(w, start, s, Resume(Some(c), bound)).at == start
    ensures Step(w, start, s, Resume(None, bound)).at == start
  {
    hide Less, Rewrite, Above;
    if exists k :: k in s.data && w.matches(s.data[k]) && !Above(c, k) {
      var k :| k in s.data && w.matches(s.data[k]) && !Above(c, k);
      assert Matches(w, s.data, k);
    }
  }

  /** No row at or below the walk's start matches. */
  ghost predicate NoneBelow(w: Intent, start: Position, s: State) {
    forall k :: Matches(w, s.data, k) ==> Above(start, k)
  }

  lemma StepNoneBelow(w: Intent, start: Position, s: State, e: Event)
    requires Settles(w) && Claims(w, start, s) && NoneBelow(w, start, s) && Legal(w, s, e)
    ensures NoneBelow(w, start, Step(w, start, s, e))
  {
    hide Less, IsCut, NothingAbove, Caps, SavedOf, ResumeAt, Above;
    var t := Step(w, start, s, e);
    forall k | Matches(w, t.data, k) ensures Matches(w, s.data, k) {
      if e.Commit? && k in s.pending {
        assert Matches(w, s.data, k);
      }
    }
  }

  lemma {:induction false} RunNoneBelow(w: Intent, start: Position, s: State, es: seq<Event>)
    requires Settles(w) && Claims(w, start, s) && NoneBelow(w, start, s)
    requires LegalRun(w, start, s, es) && GentleCancels(w, start, s, es)
    ensures NoneBelow(w, start, Run(w, start, s, es))
  {
    hide Less, Step, Legal, Claims, NoneBelow;
    if es != [] {
      var front := es[..|es| - 1];
      GentleSplit(w, start, s, es);
      RunNoneBelow(w, start, s, front);
      CursorAndDataAgree(w, start, s, front);
      StepNoneBelow(w, start, Run(w, start, s, front), es[|es| - 1]);
    }
  }

  /** Over every gentle run from a table with no matching row at or below the walk's start,
      other sessions' writes included: the committed cursor is accepted by the next job,
      which goes on from it. */
  lemma CommittedCursorAccepted(w: Intent, start: Position, t: Table, es: seq<Event>, bound: Option<Key>)
    requires Settles(w) && forall k :: k in t && w.matches(t[k]) ==> Above(start, k)
    requires LegalRun(w, start, Fresh(t), es) && GentleCancels(w, start, Fresh(t), es)
    ensures var s := Run(w, start, Fresh(t), es);
            s.saved.Some? ==> Step(w, start, s, Resume(s.saved, bound)).at == s.saved.value
  {
    var s0 := Fresh(t);
    assert Claims(w, start, s0) && NoneBelow(w, start, s0);
    hide Run, LegalRun, GentleCancels, Less, Rewrite, Above, Step;
    CursorAndDataAgree(w, start, s0, es);
    RunNoneBelow(w, start, s0, es);
    var s := Run(w, start, s0, es);
    if s.saved.Some? {
      forall k | k in s.data && w.matches(s.data[k]) ensures Above(s.saved.value, k) {
        assert Matches(w, s.data, k);
      }
      BeginsAt(w, start, s, s.saved.value, bound);
    }
  }

  // --- once per job, whoever else writes ------------------------------------------------

  /** What a job has taken lies behind its cursor, in three places that share no row, and
      is what it counts. */
  ghost predicate TakenOnce(s: State) {
    s.running ==> Apart(s) && forall k :: k in Touched(s) ==> !Above(s.at, k)
  }

  lemma BatchTakenOnce(w: Intent, start: Position, s: State, keys: set<Key>, next: Position)
    requires TakenOnce(s) && Legal(w, s, Batch(keys, next))
    ensures TakenOnce(Step(w, start, s, Batch(keys, next)))
  {
    hide Less, Rewrite, Matches, NotAfter, Touched, Apart;
    forall k | k in keys ensures k !in Touched(s) && !Above(next, k) {
      assert Between(s.at, k, next);
    }
    BatchTouched(w, start, s, keys, next);
    forall k | k in Touched(s) ensures !Above(next, k) {
      if Above(next, k) { AboveMonotone(s.at, next, k); }
    }
  }

  lemma {:induction false} StepTakenOnce(w: Intent, start: Position, s: State, e: Event)
    requires TakenOnce(s) && Legal(w, s, e)
    ensures TakenOnce(Step(w, start, s, e))
  {
    hide Less, Rewrite, Legal, IsCut, NothingAbove, Caps, Harmless, SavedOf, Above, ResumeAt, View;
    if e.Batch? {
      BatchTakenOnce(w, start, s, e.keys, e.next);
    } else if e.Commit? || e.Cancel? {
      EndTakenOnce(w, start, s, e);
    } else if e.Resume? {
      assert Touched(Step(w, start, s, e)) == {};
    }
  }

  lemma EndTakenOnce(w: Intent, start: Position, s: State, e: Event)
    requires TakenOnce(s) && (e.Commit? || e.Cancel?)
    ensures TakenOnce(Step(w, start, s, e))
  {
    hide Less, Rewrite, SavedOf, Above, View;
    assert Touched(Step(w, start, s, e)) == Touched(s);
  }

  /** Over every run, other sessions' writes included, a job takes no row twice. */
  lemma {:induction false} RunTakenOnce(w: Intent, start: Position, s: State, es: seq<Event>)
    requires TakenOnce(s) && LegalRun(w, start, s, es)
    ensures TakenOnce(Run(w, start, s, es))
  {
    hide Less, Legal, Step, TakenOnce;
    if es != [] {
      RunTakenOnce(w, start, s, es[..|es| - 1]);
      StepTakenOnce(w, start, Run(w, start, s, es[..|es| - 1]), es[|es| - 1]);
    }
  }

  /** A job walked to its end among other sessions' writes: it changed each row at most
      once and counted it once, passed over none, and left no matching row above the
      walk's start. */
  lemma FinishedAmongOthers(w: Intent, start: Position, s: State, from: Option<Position>, bound: Option<Key>,
                            es: seq<Event>)
    requires Settles(w) && Legal(w, s, Resume(from, bound))
    requires var r := Step(w, start, s, Resume(from, bound));
             LegalRun(w, start, r, es) && GentleCancels(w, start, r, es)
    requires forall i :: 0 <= i < |es| ==> !es[i].Resume?
    requires var t := Run(w, start, Step(w, start, s, Resume(from, bound)), es); t.running && t.done && t.pending == {}
    ensures var t := Run(w, start, Step(w, start, s, Resume(from, bound)), es);
            && t.lost == {} && t.rowsDone == |t.changed|
            && forall k :: Above(start, k) ==> !Matches(w, t.data, k)
  {
    var r := Step(w, start, s, Resume(from, bound));
    assert TakenOnce(r);
    hide Run, LegalRun, Less, Rewrite, GentleCancels, Legal, Step, TakenOnce;
    ResumedJobFinishes(w, start, s, from, bound, es);
    RunTakenOnce(w, start, r, es);
    assert r.lost == {} by { ResumeLosesNone(w, start, s, from, bound); }
    LostExactly(w, start, r, es);
    CountedOnce(Run(w, start, r, es));
  }

  lemma ResumeLosesNone(w: Intent, start: Position, s: State, from: Option<Position>, bound: Option<Key>)
    ensures Step(w, start, s, Resume(from, bound)).lost == {}
  {
  }

  lemma CountedOnce(s: State)
    requires TakenOnce(s) && s.running && s.pending == {} && s.lost == {}
    ensures s.rowsDone == |s.changed|
  {
    assert Touched(s) == s.changed;
  }

  /** No batch takes a row above the walk's bound. */
  lemma NotPastBound(w: Intent, s: State, keys: set<Key>, next: Position, k: Key)
    requires Legal(w, s, Batch(keys, next)) && k in keys && s.upto.Some?
    ensures !Less(s.upto.value, k)
  {
    hide Less, Rewrite;
  }

  /** A job resumed under a bound takes no row above it, over every run. */
  lemma {:induction false} NeverPastBound(w: Intent, start: Position, s: State, from: Option<Position>, b: Key, es: seq<Event>)
    requires Legal(w, s, Resume(from, Some(b)))
    requires LegalRun(w, start, Step(w, start, s, Resume(from, Some(b))), es)
    requires forall i :: 0 <= i < |es| ==> !es[i].Resume?
    ensures Run(w, start, Step(w, start, s, Resume(from, Some(b))), es).upto == Some(b)
    ensures forall k :: k in Touched(Run(w, start, Step(w, start, s, Resume(from, Some(b))), es)) ==> !Less(b, k)
  {
    hide Less, Legal, Rewrite;
    if es != [] {
      var front, e := es[..|es| - 1], es[|es| - 1];
      assert forall i :: 0 <= i < |front| ==> front[i] == es[i];
      NeverPastBound(w, start, s, from, b, front);
      hide Run, LegalRun, Step, Touched;
      TouchedNext(w, start, Run(w, start, Step(w, start, s, Resume(from, Some(b))), front), e);
    }
  }

  lemma TouchedNext(w: Intent, start: Position, s: State, e: Event)
    requires Legal(w, s, e) && !e.Resume? && s.upto.Some?
    ensures Step(w, start, s, e).upto == s.upto
    ensures forall k :: k in Touched(Step(w, start, s, e)) ==> k in Touched(s) || !Less(s.upto.value, k)
  {
    hide Less, Rewrite, SavedOf;
    if e.Batch? {
      forall k | k in e.keys ensures !Less(s.upto.value, k) { NotPastBound(w, s, e.keys, e.next, k); }
    }
  }

  // --- progress ---------------------------------------------------------------------

  /** The rows a job has still to take. */
  ghost function Left(w: Intent, s: State): set<Key> {
    set k | k in View(w, s) && Matches(w, View(w, s), k) && Above(s.at, k) && Within(s.upto, k)
  }

  lemma LeftAfter(w: Intent, start: Position, s: State, keys: set<Key>, next: Position, k: Key)
    requires Legal(w, s, Batch(keys, next))
    ensures k in keys ==> k in Left(w, s)
    ensures k in Left(w, Step(w, start, s, Batch(keys, next))) <==> k in Left(w, s) && k !in keys
  {
    hide Less;
    if Above(next, k) {
      AboveMonotone(s.at, next, k);
      assert k !in keys;
    }
  }

  lemma LeftWithout(w: Intent, start: Position, s: State, keys: set<Key>, next: Position)
    requires Legal(w, s, Batch(keys, next))
    ensures keys <= Left(w, s)
    ensures Left(w, Step(w, start, s, Batch(keys, next))) == Left(w, s) - keys
  {
    hide *;
    forall k { LeftAfter(w, start, s, keys, next, k); }
  }

  /** A batch leaves exactly the rows it did not take, so one that takes a row
      brings the end nearer; and a job with nothing left may finish, and only such
      a job may. */
  lemma Progress(w: Intent, start: Position, s: State, keys: set<Key>, next: Position)
    requires Legal(w, s, Batch(keys, next))
    ensures keys <= Left(w, s)
    ensures Left(w, Step(w, start, s, Batch(keys, next))) == Left(w, s) - keys
    ensures |Left(w, Step(w, start, s, Batch(keys, next)))| == |Left(w, s)| - |keys|
    ensures Legal(w, s, Finish) <==> Left(w, s) == {}
  {
    assert s.running && !s.done;
    hide Left, Step, Less, IsCut, NothingAbove, View, Rewrite;
    LeftWithout(w, start, s, keys, next);
    SizeWithout(Left(w, s), keys);
    NothingLeft(w, s);
  }

  lemma SizeWithout(a: set<Key>, b: set<Key>)
    requires b <= a
    ensures |a - b| == |a| - |b|
  {
    assert a == (a - b) + b;
  }

  lemma NothingLeft(w: Intent, s: State)
    ensures NothingAbove(w, View(w, s), s.at, s.upto) <==> Left(w, s) == {}
  {
    hide Less, Rewrite, Above, Within;
    if Left(w, s) == {} {
      forall k
        ensures !(Matches(w, View(w, s), k) && Above(s.at, k) && Within(s.upto, k))
      {
        assert k !in Left(w, s);
      }
    }
  }
}

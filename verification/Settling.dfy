/** What "a changed row no longer matches" is worth: exactly the agreement of cursor and
    data, and exactly that no row is changed and saved twice. */
module Settling {
  import opened Options
  import opened Order
  import opened Walk
  import opened WalkLaws
  import Preimage

  // --- one row that still matches after it was changed -----------------------------------

  function KeyAbove(p: Position): (k: Key)
    ensures Above(p, k)
  {
    if p.At? && p.key != [] then [p.key[0] + 1] else [0]
  }

  ghost predicate Ready(start: Position, s: State, k: Key, r: Row) {
    s.running && !s.done && s.at == start && s.upto.None? && s.pending == {} && s.data == map[k := r]
  }

  ghost predicate Changed(w: Intent, before: State, s: State, k: Key, r: Row) {
    && w.act.Assign?
    && s.running && s.pending == {} && s.data == map[k := w.act.to(r)] && s.saved == Some(At(k))
    && s.image == before.image + multiset{Saved(k, Keep(w, r))}
  }

  lemma TakeTheRow(w: Intent, start: Position, s: State, k: Key, r: Row)
    requires Ready(start, s, k, r) && w.matches(r) && Above(start, k)
    ensures Legal(w, s, Batch({k}, At(k)))
  {
    LessIrreflexive(k);
    if start.At? { LessTotal(start.key, k); }
    hide Less;
    NothingPending(w, s.data);
    forall x
      ensures x in {k} <==> Matches(w, View(w, s), x) && Between(start, x, At(k)) && Within(None, x)
    {
    }
  }

  lemma KeepTheRow(w: Intent, start: Position, s: State, k: Key, r: Row)
    requires Ready(start, s, k, r) && w.act.Assign?
    ensures var t := Step(w, start, s, Batch({k}, At(k)));
            Legal(w, t, Commit) && Changed(w, s, Step(w, start, t, Commit), k, r)
  {
    RewriteOne(w, k, r);
    SavedOne(w, k, r);
    hide Less, Keep, ResumeAt, Rewrite, SavedOf;
    var t := Step(w, start, s, Batch({k}, At(k)));
    assert t.pending == {k};
  }

  lemma RewriteOne(w: Intent, k: Key, r: Row)
    requires w.act.Assign?
    ensures Rewrite(w, map[k := r], {k}) == map[k := w.act.to(r)]
  {
  }

  lemma SavedOne(w: Intent, k: Key, r: Row)
    ensures SavedOf(w, map[k := r], {k}) == {Saved(k, Keep(w, r))}
  {
  }

  ghost function Once(k: Key): (es: seq<Event>) {
    [Batch({k}, At(k)), Commit]
  }

  lemma RunOn(w: Intent, start: Position, s0: State, es: seq<Event>, k: Key, r: Row)
    requires LegalRun(w, start, s0, es) && w.act.Assign? && w.matches(r) && Above(start, k)
    requires Ready(start, Run(w, start, s0, es), k, r)
    ensures LegalRun(w, start, s0, es + Once(k))
    ensures Changed(w, Run(w, start, s0, es), Run(w, start, s0, es + Once(k)), k, r)
  {
    hide Run, LegalRun, Legal, Step, Changed, Less;
    var s := Run(w, start, s0, es);
    TakeTheRow(w, start, s, k, r);
    RunExtend(w, start, s0, es, Batch({k}, At(k)));
    KeepTheRow(w, start, s, k, r);
    RunExtend(w, start, s0, es + [Batch({k}, At(k))], Commit);
    assert es + [Batch({k}, At(k))] + [Commit] == es + Once(k);
  }

  function OneRow(start: Position, r: Row): (t: Table) {
    map[KeyAbove(start) := r]
  }

  /** The first job: resume, one batch, one commit. */
  ghost function FirstJob(start: Position): (es: seq<Event>) {
    [Resume(None, None)] + Once(KeyAbove(start))
  }

  lemma FirstJobRuns(w: Intent, start: Position, r: Row)
    requires w.act.Assign? && w.matches(r)
    ensures LegalRun(w, start, Fresh(OneRow(start, r)), FirstJob(start))
    ensures Changed(w, Fresh(OneRow(start, r)), Run(w, start, Fresh(OneRow(start, r)), FirstJob(start)), KeyAbove(start), r)
  {
    hide Less, Rewrite;
    var s0 := Fresh(OneRow(start, r));
    RunExtend(w, start, s0, [], Resume(None, None));
    assert [] + [Resume(None, None)] == [Resume(None, None)];
    assert Run(w, start, s0, [Resume(None, None)]) == Step(w, start, s0, Resume(None, None));
    RunOn(w, start, s0, [Resume(None, None)], KeyAbove(start), r);
  }

  /** A crash, and the next job, offered the committed cursor. */
  ghost function SecondJob(start: Position): (es: seq<Event>) {
    FirstJob(start) + [Crash] + [Resume(Some(At(KeyAbove(start))), None)] + Once(KeyAbove(start))
  }

  lemma Restarts(w: Intent, start: Position, s: State, k: Key, r: Row)
    requires w.matches(r) && s.running && s.data == map[k := r]
    ensures var t := Step(w, start, s, Crash);
            && Legal(w, s, Crash) && Legal(w, t, Resume(Some(At(k)), None))
            && Ready(start, Step(w, start, t, Resume(Some(At(k)), None)), k, r)
            && Step(w, start, t, Resume(Some(At(k)), None)).image == s.image
  {
    LessIrreflexive(k);
    hide Less, Rewrite;
    var t := Step(w, start, s, Crash);
    assert Matches(w, t.data, k) && !Above(At(k), k);
    assert Stale(w, t.data, At(k));
  }

  /** The cursor is rejected, and the row is changed again and saved again. */
  lemma SecondJobRuns(w: Intent, start: Position, r: Row)
    requires w.act.Assign? && w.matches(r) && w.matches(w.act.to(r))
    ensures var s := Run(w, start, Fresh(OneRow(start, r)), SecondJob(start));
            && LegalRun(w, start, Fresh(OneRow(start, r)), SecondJob(start))
            && s.data == map[KeyAbove(start) := w.act.to(w.act.to(r))]
            && s.image == multiset{Saved(KeyAbove(start), Keep(w, r)), Saved(KeyAbove(start), Keep(w, w.act.to(r)))}
  {
    var k, s0 := KeyAbove(start), Fresh(OneRow(start, r));
    hide Run, LegalRun, Legal, Step, Less, Keep, KeyAbove;
    FirstJobRuns(w, start, r);
    var es := FirstJob(start);
    Restarts(w, start, Run(w, start, s0, es), k, w.act.to(r));
    RunExtend(w, start, s0, es, Crash);
    RunExtend(w, start, s0, es + [Crash], Resume(Some(At(k)), None));
    RunOn(w, start, s0, es + [Crash] + [Resume(Some(At(k)), None)], k, w.act.to(r));
  }

  // --- the two exact conditions -------------------------------------------------------------

  /** The committed cursor is true of the committed data over every run with no bad
      cancel. */
  ghost predicate CursorsHold(w: Intent, start: Position) {
    forall t, es :: LegalRun(w, start, Fresh(t), es) && GentleCancels(w, start, Fresh(t), es) ==>
      SavedClaim(w, start, Run(w, start, Fresh(t), es))
  }

  lemma NoCancelIsGentle(w: Intent, start: Position, s: State, es: seq<Event>)
    requires forall i :: 0 <= i < |es| ==> !es[i].Cancel?
    ensures GentleCancels(w, start, s, es)
  {
  }

  lemma CursorFails(w: Intent, start: Position, r: Row)
    requires w.act.Assign? && w.matches(r) && w.matches(w.act.to(r))
    ensures !CursorsHold(w, start)
  {
    var k, t := KeyAbove(start), OneRow(start, r);
    LessIrreflexive(k);
    FirstJobRuns(w, start, r);
    NoCancelIsGentle(w, start, Fresh(t), FirstJob(start));
    var s := Run(w, start, Fresh(t), FirstJob(start));
    hide Run, LegalRun, GentleCancels, Less;
    assert Matches(w, s.data, k) && Above(start, k) && !Above(At(k), k);
    assert !SavedClaim(w, start, s);
  }

  /** Cursor and data agree over every table and every run with gentle cancels if and only
      if a matching row, once changed, no longer matches. */
  lemma CursorsHoldExactly(w: Intent, start: Position)
    ensures CursorsHold(w, start) <==> Settles(w)
  {
    if Settles(w) {
      forall t, es | LegalRun(w, start, Fresh(t), es) && GentleCancels(w, start, Fresh(t), es)
        ensures SavedClaim(w, start, Run(w, start, Fresh(t), es))
      {
        CursorAndDataAgree(w, start, Fresh(t), es);
      }
    } else {
      var r: Row :| w.matches(r) && w.matches(w.act.to(r));
      CursorFails(w, start, r);
    }
  }

  /** No row is kept twice in the side table. */
  ghost predicate SavedOnce(image: multiset<Saved>) {
    forall x, y :: x in image && y in image && x.key == y.key ==> x == y && image[x] == 1
  }

  ghost predicate NeverRepeats(w: Intent, start: Position) {
    forall t, es :: LegalRun(w, start, Fresh(t), es) && Undisturbed(es) ==>
      SavedOnce(Run(w, start, Fresh(t), es).image)
  }

  lemma KeptOnce(w: Intent, s: State)
    requires Preimage.Kept(w, s)
    ensures SavedOnce(s.image)
  {
    hide Less, Keep, Rewrite;
  }

  lemma RepeatsUnsettled(w: Intent, start: Position, r: Row)
    requires w.act.Assign? && w.matches(r) && w.matches(w.act.to(r))
    ensures !NeverRepeats(w, start)
  {
    hide Run, LegalRun, SecondJob, Less, Keep, Undisturbed, KeyAbove, SavedOnce;
    SecondJobRuns(w, start, r);
    SecondJobAlone(start);
    var k := KeyAbove(start);
    SavedTwice(Saved(k, Keep(w, r)), Saved(k, Keep(w, w.act.to(r))));
  }

  lemma SavedTwice(x: Saved, y: Saved)
    requires x.key == y.key
    ensures !SavedOnce(multiset{x, y})
  {
    var image := multiset{x, y};
    assert x in image && y in image;
    assert x == y ==> image[x] == 2;
  }

  lemma SecondJobAlone(start: Position)
    ensures Undisturbed(SecondJob(start))
  {
  }

  /** Over every undisturbed run, restarts included, each row is changed and saved at most
      once if and only if a matching row, once changed, no longer matches. */
  lemma NeverRepeatsExactly(w: Intent, start: Position)
    ensures NeverRepeats(w, start) <==> Settles(w)
  {
    if Settles(w) {
      forall t, es | LegalRun(w, start, Fresh(t), es) && Undisturbed(es)
        ensures SavedOnce(Run(w, start, Fresh(t), es).image)
      {
        Preimage.FreshKept(w, t);
        Preimage.RunKept(w, start, Fresh(t), es);
        KeptOnce(w, Run(w, start, Fresh(t), es));
      }
    } else {
      var r: Row :| w.matches(r) && w.matches(w.act.to(r));
      RepeatsUnsettled(w, start, r);
    }
  }
}

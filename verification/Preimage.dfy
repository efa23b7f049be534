/** The pre-image side table, filled by the statement that makes the change. */
module Preimage {
  import opened Options
  import opened Order
  import opened Walk

  ghost predicate Has(image: multiset<Saved>, k: Key) {
    exists x :: x in image && x.key == k
  }

  ghost function Find(image: multiset<Saved>, k: Key): Saved
    requires Has(image, k)
  {
    var x :| x in image && x.key == k;
    x
  }

  /** Writing the saved columns back by key: a row still there takes them over its
      own, a row that was removed is inserted from them. */
  ghost function Restore(t: Table, image: multiset<Saved>): Table {
    map k | k in t.Keys + set x | x in image :: x.key ::
      if !Has(image, k) then t[k]
      else if k in t then t[k] + Find(image, k).columns
      else Find(image, k).columns
  }

  /** Over all jobs so far: the rows ever changed matched in the first table, the
      data is that table with exactly those rows rewritten, and the side table
      holds each of them once, as it was. */
  ghost predicate Kept(w: Intent, s: State) {
    && s.pending !! s.ever
    && s.data == Rewrite(w, s.first, s.ever)
    && (forall k :: k in s.ever + s.pending ==> Matches(w, s.first, k))
    && s.image == multiset(SavedOf(w, s.first, s.ever))
  }

  /** A batch takes no row that was ever changed before. */
  ghost predicate TakesNew(s: State, e: Event) {
    e.Batch? ==> e.keys !! s.ever + s.pending
  }

  lemma BatchKept(w: Intent, start: Position, s: State, keys: set<Key>, next: Position)
    requires Kept(w, s) && Legal(w, s, Batch(keys, next)) && TakesNew(s, Batch(keys, next))
    ensures Kept(w, Step(w, start, s, Batch(keys, next)))
  {
    hide Less, SavedOf;
    forall k | k in keys
      ensures k !in s.ever && Matches(w, s.first, k)
    {
      assert Matches(w, View(w, s), k) && k !in s.ever + s.pending;
    }
  }

  lemma SettledTakesNew(w: Intent, s: State, e: Event)
    requires Settles(w) && Kept(w, s) && Legal(w, s, e)
    ensures TakesNew(s, e)
  {
    hide Less, SavedOf;
    if e.Batch? {
      forall k | k in e.keys ensures k !in s.ever + s.pending {
        assert Matches(w, View(w, s), k);
      }
    }
  }

  lemma SavedUnion(w: Intent, t: Table, a: set<Key>, b: set<Key>)
    requires a !! b
    ensures SavedOf(w, Rewrite(w, t, a), b) == SavedOf(w, t, b)
    ensures SavedOf(w, t, a) !! SavedOf(w, t, b)
    ensures SavedOf(w, t, a) + SavedOf(w, t, b) == SavedOf(w, t, a + b)
  {
    hide Keep;
    forall k | k in b
      ensures k in t <==> k in Rewrite(w, t, a)
      ensures k in t ==> Rewrite(w, t, a)[k] == t[k]
    {
    }
  }

  lemma CommitKept(w: Intent, start: Position, s: State)
    requires Kept(w, s)
    ensures Kept(w, Step(w, start, s, Commit))
  {
    hide Less, SavedOf, Rewrite;
    RewriteTwice(w, s.first, s.ever, s.pending);
    SavedUnion(w, s.first, s.ever, s.pending);
    var a, b := SavedOf(w, s.first, s.ever), SavedOf(w, s.first, s.pending);
    assert multiset(a) + multiset(b) == multiset(a + b);
  }

  lemma {:induction false} StepKept(w: Intent, start: Position, s: State, e: Event)
    requires Kept(w, s) && Legal(w, s, e) && !e.Foreign? && TakesNew(s, e)
    ensures Kept(w, Step(w, start, s, e))
  {
    hide Less, SavedOf, Rewrite, IsCut, NothingAbove, Caps, ResumeAt;
    match e
    case Batch(keys, next) => BatchKept(w, start, s, keys, next);
    case Commit => CommitKept(w, start, s);
    case Finish =>
    case Cancel =>
    case Crash =>
    case Resume(_, _) =>
  }

  lemma {:induction false} RunKept(w: Intent, start: Position, s: State, es: seq<Event>)
    requires Settles(w) && Kept(w, s) && LegalRun(w, start, s, es) && Undisturbed(es)
    ensures Kept(w, Run(w, start, s, es))
    ensures Run(w, start, s, es).first == s.first
  {
    hide Less, SavedOf, Rewrite, Kept, IsCut, TakesNew;
    if es != [] {
      var t := Run(w, start, s, es[..|es| - 1]);
      RunKept(w, start, s, es[..|es| - 1]);
      SettledTakesNew(w, t, es[|es| - 1]);
      StepKept(w, start, t, es[|es| - 1]);
    }
  }

  /** What was kept of a row, written over what the assignment left, is the row. */
  lemma RowBack(w: Intent, r: Row)
    requires WellFormed(w) && w.act.Assign? && w.matches(r)
    ensures w.act.to(r) + Keep(w, r) == r
  {
    var back := w.act.to(r) + Keep(w, r);
    assert back.Keys == r.Keys;
    assert forall c :: c in r ==> back[c] == r[c];
  }

  lemma FindKept(w: Intent, t: Table, ks: set<Key>, k: Key)
    requires forall x :: x in ks ==> x in t
    ensures var image := multiset(SavedOf(w, t, ks));
            && (Has(image, k) <==> k in ks)
            && (k in ks ==> Find(image, k) == Saved(k, Keep(w, t[k])))
  {
    hide Keep, Less;
    if k in ks {
      assert Saved(k, Keep(w, t[k])) in SavedOf(w, t, ks);
    }
  }

  lemma RestoreKept(w: Intent, s: State)
    requires WellFormed(w) && Kept(w, s)
    ensures Restore(s.data, s.image) == s.first
  {
    hide Less, SavedOf, Find, Has, WellFormed;
    var r := Restore(s.data, s.image);
    forall k
      ensures k in r <==> k in s.first
      ensures k in s.first ==> r[k] == s.first[k]
    {
      assert forall x :: x in s.ever ==> x in s.ever + s.pending;
      FindKept(w, s.first, s.ever, k);
      if k in s.ever && w.act.Assign? {
        RowBack(w, s.first[k]);
      }
      RestoreDomain(s.data, s.image, k);
    }
  }

  lemma RestoreDomain(t: Table, image: multiset<Saved>, k: Key)
    ensures k in Restore(t, image) <==> k in t || Has(image, k)
  {
    if Has(image, k) {
      var x :| x in image && x.key == k;
      assert k in set x | x in image :: x.key;
    }
  }

  /** What is kept of a row: as it was in the first table, the columns the assignment may
      change and no others, or every column where the row was removed. */
  lemma SavedColumns(w: Intent, s: State, x: Saved)
    requires Kept(w, s) && x in s.image
    ensures x.key in s.ever && x.key in s.first
    ensures forall c :: c in x.columns <==> c in s.first[x.key] && (w.act.Assign? ==> c in w.act.columns)
    ensures forall c :: c in x.columns ==> x.columns[c] == s.first[x.key][c]
  {
    hide Less, Rewrite;
  }

  // --- without a restart ------------------------------------------------------------

  ghost predicate NoneAbove(ks: set<Key>, p: Position) {
    forall k :: k in ks ==> !Above(p, k)
  }

  /** Everything ever changed lies behind the cursor, and behind the committed one. */
  ghost predicate Behind(s: State) {
    && (s.running ==> NoneAbove(s.ever + s.pending, s.at))
    && (s.ever != {} ==> s.saved.Some? && NoneAbove(s.ever, s.saved.value))
  }

  /** A job that follows another goes on from the committed cursor. */
  ghost predicate Continues(w: Intent, s: State, e: Event) {
    e.Resume? && s.ever != {} ==> e.from == s.saved && s.saved.Some? && !Stale(w, s.data, s.saved.value)
  }

  lemma BatchTakesNew(w: Intent, start: Position, s: State, keys: set<Key>, next: Position)
    requires Behind(s) && Legal(w, s, Batch(keys, next))
    ensures TakesNew(s, Batch(keys, next))
    ensures Behind(Step(w, start, s, Batch(keys, next)))
  {
    hide Less, Rewrite, NotAfter;
    forall k | k in keys ensures k !in s.ever + s.pending && !Above(next, k) {
      assert Between(s.at, k, next);
    }
    forall k | k in s.ever + s.pending ensures !Above(next, k) {
      if Above(next, k) { AboveMonotone(s.at, next, k); }
    }
  }

  lemma {:induction false} StepBehind(w: Intent, start: Position, s: State, e: Event)
    requires Behind(s) && Legal(w, s, e) && Continues(w, s, e)
    ensures TakesNew(s, e) && Behind(Step(w, start, s, e))
  {
    hide Less, SavedOf, Rewrite, IsCut, NothingAbove, Caps, Above, Stale, Harmless;
    match e
    case Batch(keys, next) => BatchTakesNew(w, start, s, keys, next);
    case _ =>
  }

  /** No job of the run starts over once something was changed. */
  ghost predicate NoRestart(w: Intent, start: Position, s: State, es: seq<Event>) {
    es == [] ||
    (NoRestart(w, start, s, es[..|es| - 1]) && Continues(w, Run(w, start, s, es[..|es| - 1]), es[|es| - 1]))
  }

  lemma {:induction false} RunForward(w: Intent, start: Position, s: State, es: seq<Event>)
    requires Kept(w, s) && Behind(s) && LegalRun(w, start, s, es) && Undisturbed(es) && NoRestart(w, start, s, es)
    ensures Kept(w, Run(w, start, s, es)) && Behind(Run(w, start, s, es))
    ensures Run(w, start, s, es).first == s.first
  {
    hide Less, SavedOf, Rewrite, Kept, Behind, IsCut, TakesNew, Continues;
    if es != [] {
      var t := Run(w, start, s, es[..|es| - 1]);
      RunForward(w, start, s, es[..|es| - 1]);
      StepBehind(w, start, t, es[|es| - 1]);
      StepKept(w, start, t, es[|es| - 1]);
    }
  }

  lemma FreshKept(w: Intent, t: Table)
    ensures Kept(w, Fresh(t)) && Behind(Fresh(t))
  {
    assert Rewrite(w, t, {}) == t;
    assert SavedOf(w, t, {}) == {};
  }

  /** The round trip, for any change at all: across crashes, cancels and resumes that go
      on from the committed cursor, writing the committed pre-images back by key gives
      the table as it was before the first job, exactly. */
  lemma RoundTripForward(w: Intent, start: Position, t: Table, es: seq<Event>)
    requires WellFormed(w)
    requires LegalRun(w, start, Fresh(t), es) && Undisturbed(es) && NoRestart(w, start, Fresh(t), es)
    ensures var s := Run(w, start, Fresh(t), es); Restore(s.data, s.image) == t
  {
    hide Run, LegalRun, Restore, Kept, Behind, NoRestart;
    FreshKept(w, t);
    RunForward(w, start, Fresh(t), es);
    RestoreKept(w, Run(w, start, Fresh(t), es));
  }

  /** The round trip for a change that settles, restarts included. Whatever batches,
      commits, cancels, crashes, resumes and restarts have happened to a table, and at
      whatever point, writing the committed pre-images back by key gives the table as
      it was before the first job, exactly. */
  lemma RoundTrip(w: Intent, start: Position, t: Table, es: seq<Event>)
    requires WellFormed(w) && Settles(w)
    requires LegalRun(w, start, Fresh(t), es) && Undisturbed(es)
    ensures var s := Run(w, start, Fresh(t), es); Restore(s.data, s.image) == t
  {
    hide Run, LegalRun, Restore, Kept;
    FreshKept(w, t);
    RunKept(w, start, Fresh(t), es);
    RestoreKept(w, Run(w, start, Fresh(t), es));
  }
}

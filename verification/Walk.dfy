/** The paced walk as a machine over committed and uncommitted state.

    One event is one thing that can happen between two looks at the database: a
    batch inside the open transaction, its commit together with the cursor, the
    tool cancelling its own batch, the process dying, another session writing,
    and a later job resuming. Every shape of walk (single key, composite,
    grouped) takes its batches through the same law, `IsCut`, so what is proved
    here holds of all of them.
 */
module Walk {
  import opened Options
  import opened Order

  type Row = map<string, Option<int>>

  /** A table, by the key its unique index proves. A row whose key is NULL is
      selected by no statement of a walk and is not part of the map. */
  type Table = map<Key, Row>

  /** What the step does to a row its predicate matches. */
  datatype Action =
    | Assign(to: Row -> Row, columns: set<string>)
    | Remove

  datatype Intent = Intent(matches: Row -> bool, act: Action)

  /** A row of the side table that keeps pre-images. */
  datatype Saved = Saved(key: Key, columns: Row)

  predicate Matches(w: Intent, t: Table, k: Key) {
    k in t && w.matches(t[k])
  }

  /** The mutating statement, applied to exactly the keys `ks`. */
  function Rewrite(w: Intent, t: Table, ks: set<Key>): Table {
    map k | k in t && !(k in ks && w.act.Remove?) ::
      if k in ks then w.act.to(t[k]) else t[k]
  }

  /** What the capture beside the mutation keeps of a row: every column of a row
      to be removed, otherwise the columns the assignment may change. */
  function Keep(w: Intent, r: Row): Row {
    match w.act
    case Remove => r
    case Assign(_, columns) => map c | c in r && c in columns :: r[c]
  }

  /** An assignment to a row it matches changes no column it does not name, and drops
      none. */
  ghost predicate WellFormed(w: Intent) {
    w.act.Assign? ==>
      forall r: Row :: w.matches(r) ==>
        && w.act.to(r).Keys == r.Keys
        && forall c :: c in r && c !in w.act.columns ==> w.act.to(r)[c] == r[c]
  }

  /** A matching row, once changed, no longer matches: the predicate is also what says
      "still to do". */
  ghost predicate Settles(w: Intent) {
    w.act.Assign? ==> forall r: Row :: w.matches(r) ==> !w.matches(w.act.to(r))
  }

  predicate Within(upto: Option<Key>, k: Key) {
    upto.None? || !Less(upto.value, k)
  }

  /** The upper bound of a walk: the highest key there is, or none. */
  ghost predicate Caps(t: Table, upto: Option<Key>) {
    forall k :: k in t ==> Within(upto, k)
  }

  datatype State = State(
    // what survives a crash
    data: Table,
    image: multiset<Saved>,
    saved: Option<Position>,
    // the process
    running: bool,
    at: Position,
    upto: Option<Key>,
    pending: set<Key>,
    rowsDone: nat,
    done: bool,
    // history: this job's start, and the table before any job
    base: Position,
    orig: Table,
    changed: set<Key>,
    lost: set<Key>,
    first: Table,
    ever: set<Key>)

  datatype Event =
    | Batch(keys: set<Key>, next: Position)
    | Finish
    | Commit
    | Cancel
    | Crash
    | Foreign(to: Table)
    | Resume(from: Option<Position>, bound: Option<Key>)

  /** What the worker's own transaction sees. */
  function View(w: Intent, s: State): Table {
    Rewrite(w, s.data, s.pending)
  }

  /** The law of one batch: it takes every matching row of one stretch, and
      nothing else. An empty stretch, or one with no matching row, takes none. */
  ghost predicate IsCut(w: Intent, t: Table, lo: Position, keys: set<Key>, hi: Position, upto: Option<Key>) {
    && NotAfter(lo, hi)
    && forall k :: k in keys <==> Matches(w, t, k) && Between(lo, k, hi) && Within(upto, k)
  }

  ghost predicate NothingAbove(w: Intent, t: Table, p: Position, upto: Option<Key>) {
    forall k :: !(Matches(w, t, k) && Above(p, k) && Within(upto, k))
  }

  /** The resume check: a row at or below the cursor still matches. */
  ghost predicate Stale(w: Intent, t: Table, c: Position) {
    exists k :: Matches(w, t, k) && !Above(c, k)
  }

  /** Where a job begins, given what the ledger offers it. */
  ghost function ResumeAt(w: Intent, t: Table, start: Position, from: Option<Position>): Position {
    if from.None? || Stale(w, t, from.value) then start else from.value
  }

  /** Another session's writes: not to rows this transaction has locked, and
      never making a row match. */
  ghost predicate Harmless(w: Intent, s: State, to: Table) {
    && (forall k :: k in s.pending ==> (k in to <==> k in s.data) && (k in to ==> to[k] == s.data[k]))
    && (forall k :: Matches(w, to, k) ==> Matches(w, s.data, k))
  }

  ghost predicate Legal(w: Intent, s: State, e: Event) {
    match e
    case Batch(keys, next) => s.running && !s.done && IsCut(w, View(w, s), s.at, keys, next, s.upto)
    case Finish => s.running && !s.done && NothingAbove(w, View(w, s), s.at, s.upto)
    case Commit => s.running
    case Cancel => s.running && !s.done
    case Crash => s.running
    case Foreign(to) => Harmless(w, s, to)
    case Resume(_, bound) => (s.running ==> s.done && s.pending == {}) && Caps(s.data, bound)
  }

  function SavedOf(w: Intent, t: Table, ks: set<Key>): set<Saved> {
    set k | k in ks && k in t :: Saved(k, Keep(w, t[k]))
  }

  ghost function Step(w: Intent, start: Position, s: State, e: Event): State {
    match e
    case Batch(keys, next) =>
      s.(pending := s.pending + keys, at := next, rowsDone := s.rowsDone + |keys|)
    case Finish =>
      s.(done := true)
    case Commit =>
      s.(data := View(w, s), image := s.image + multiset(SavedOf(w, s.data, s.pending)), saved := Some(s.at),
         changed := s.changed + s.pending, ever := s.ever + s.pending, pending := {})
    case Cancel =>
      // the transaction is rolled back; the local cursor and count stay
      s.(lost := s.lost + s.pending, pending := {})
    case Crash =>
      s.(running := false, pending := {})
    case Foreign(to) =>
      s.(data := to)
    case Resume(from, bound) =>
      var p := ResumeAt(w, s.data, start, from);
      s.(running := true, at := p, upto := bound, pending := {}, rowsDone := 0, done := false,
         base := p, orig := s.data, changed := {}, lost := {})
  }

  ghost function Run(w: Intent, start: Position, s: State, es: seq<Event>): State {
    if es == [] then s else Step(w, start, Run(w, start, s, es[..|es| - 1]), es[|es| - 1])
  }

  ghost predicate LegalRun(w: Intent, start: Position, s: State, es: seq<Event>) {
    es == [] ||
    (LegalRun(w, start, s, es[..|es| - 1]) && Legal(w, Run(w, start, s, es[..|es| - 1]), es[|es| - 1]))
  }

  lemma RunExtend(w: Intent, start: Position, s: State, es: seq<Event>, e: Event)
    ensures Run(w, start, s, es + [e]) == Step(w, start, Run(w, start, s, es), e)
    ensures LegalRun(w, start, s, es + [e]) <==> LegalRun(w, start, s, es) && Legal(w, Run(w, start, s, es), e)
  {
    hide Less, Rewrite, Step, Legal;
    assert (es + [e])[..|es + [e]| - 1] == es;
  }

  /** A table no job has touched yet. */
  function Fresh(t: Table): State {
    State(t, multiset{}, None, false, Bottom, None, {}, 0, false, Bottom, t, {}, {}, t, {})
  }

  ghost predicate Undisturbed(es: seq<Event>) {
    forall i :: 0 <= i < |es| ==> !es[i].Foreign?
  }

  /** Every cancel hits the first batch of its transaction. */
  ghost predicate GentleCancels(w: Intent, start: Position, s: State, es: seq<Event>) {
    forall i :: 0 <= i < |es| && es[i].Cancel? ==> Run(w, start, s, es[..i]).pending == {}
  }

  // --- one job, row by row ------------------------------------------------------

  /** The rows behind a job's cursor that matched when it began. */
  ghost function Touched(s: State): set<Key> {
    s.changed + s.pending + s.lost
  }

  ghost predicate Apart(s: State) {
    s.changed !! s.pending !! s.lost && s.rowsDone == |Touched(s)|
  }

  /** While a job runs, the rows that matched when it began and lie behind its
      cursor are each in exactly one of three places: committed as changed,
      changed in the open transaction, or passed over by a cancelled one. No
      other row has been touched. */
  ghost predicate Accounted(w: Intent, s: State) {
    s.running ==>
      && Apart(s)
      && s.data == Rewrite(w, s.orig, s.changed)
      && Caps(s.orig, s.upto)
      && NotAfter(s.base, s.at)
      && (forall k :: k in Touched(s) <==> Matches(w, s.orig, k) && Between(s.base, k, s.at))
      && (s.done ==> NothingAbove(w, s.orig, s.at, None))
  }

  /** Ahead of the cursor the transaction sees the table as the job found it. */
  lemma AheadUntouched(w: Intent, s: State, k: Key)
    requires Accounted(w, s) && s.running && Above(s.at, k)
    ensures k !in Touched(s)
    ensures Matches(w, View(w, s), k) <==> Matches(w, s.orig, k)
  {
    hide Less;
    assert k !in Touched(s);
    assert k in s.data <==> k in s.orig;
  }

  lemma BatchKeys(w: Intent, s: State, keys: set<Key>, next: Position, k: Key)
    requires Accounted(w, s) && Legal(w, s, Batch(keys, next))
    ensures k in keys <==> Matches(w, s.orig, k) && Between(s.at, k, next)
    ensures k in keys ==> k !in Touched(s)
  {
    hide Less, Rewrite;
    if Above(s.at, k) {
      AheadUntouched(w, s, k);
      assert Matches(w, s.orig, k) ==> Within(s.upto, k);
    }
  }

  lemma BatchTouched(w: Intent, start: Position, s: State, keys: set<Key>, next: Position)
    requires Apart(s) && forall k :: k in keys ==> k !in Touched(s)
    ensures var t := Step(w, start, s, Batch(keys, next)); Apart(t) && Touched(t) == Touched(s) + keys
  {
    assert Touched(s) !! keys;
    assert Touched(Step(w, start, s, Batch(keys, next))) == Touched(s) + keys;
  }

  lemma BatchAccounted(w: Intent, start: Position, s: State, keys: set<Key>, next: Position)
    requires Accounted(w, s) && Legal(w, s, Batch(keys, next))
    ensures Accounted(w, Step(w, start, s, Batch(keys, next)))
  {
    assert NotAfter(s.base, s.at) && NotAfter(s.at, next);
    hide Less, Rewrite, Matches, Between, Above, NotAfter, IsCut, Caps, NothingAbove, Touched, Apart;
    Stretch(s.base, s.at, next);
    forall k
      ensures k in keys <==> Matches(w, s.orig, k) && Between(s.at, k, next)
      ensures k in keys ==> k !in Touched(s)
    {
      BatchKeys(w, s, keys, next, k);
    }
    BatchTouched(w, start, s, keys, next);
  }

  lemma RewriteTwice(w: Intent, t: Table, a: set<Key>, b: set<Key>)
    requires a !! b
    ensures Rewrite(w, Rewrite(w, t, a), b) == Rewrite(w, t, a + b)
  {
  }

  lemma CommitAccounted(w: Intent, start: Position, s: State)
    requires Accounted(w, s) && Legal(w, s, Commit)
    ensures Accounted(w, Step(w, start, s, Commit))
  {
    hide Less, Rewrite, Matches, Between, NotAfter, Caps, NothingAbove, SavedOf;
    RewriteTwice(w, s.orig, s.changed, s.pending);
    var t := Step(w, start, s, Commit);
    assert Touched(t) == Touched(s);
  }

  lemma CancelAccounted(w: Intent, start: Position, s: State)
    requires Accounted(w, s) && Legal(w, s, Cancel)
    ensures Accounted(w, Step(w, start, s, Cancel))
  {
    hide Less, Rewrite, Matches, Between, NotAfter, Caps, NothingAbove, SavedOf;
    var t := Step(w, start, s, Cancel);
    assert Touched(t) == Touched(s);
  }

  lemma CrashAccounted(w: Intent, start: Position, s: State)
    ensures Accounted(w, Step(w, start, s, Crash))
  {
  }

  lemma FinishAccounted(w: Intent, start: Position, s: State)
    requires Accounted(w, s) && Legal(w, s, Finish)
    ensures Accounted(w, Step(w, start, s, Finish))
  {
    hide Less, Rewrite;
    forall k | Above(s.at, k)
      ensures !Matches(w, s.orig, k)
    {
      AheadUntouched(w, s, k);
    }
  }

  lemma ResumeAccounted(w: Intent, start: Position, s: State, from: Option<Position>, bound: Option<Key>)
    requires Legal(w, s, Resume(from, bound))
    ensures Accounted(w, Step(w, start, s, Resume(from, bound)))
  {
    hide Less;
    var t := Step(w, start, s, Resume(from, bound));
    assert t.data == Rewrite(w, t.orig, {});
    assert Touched(t) == {};
    Nowhere(t.at);
  }

  lemma {:induction false} StepAccounted(w: Intent, start: Position, s: State, e: Event)
    requires Accounted(w, s) && Legal(w, s, e) && !e.Foreign?
    ensures Accounted(w, Step(w, start, s, e))
  {
    hide *;
    match e
    case Batch(keys, next) => BatchAccounted(w, start, s, keys, next);
    case Finish => FinishAccounted(w, start, s);
    case Commit => CommitAccounted(w, start, s);
    case Cancel => CancelAccounted(w, start, s);
    case Crash => CrashAccounted(w, start, s);
    case Resume(from, bound) => ResumeAccounted(w, start, s, from, bound);
  }

  lemma {:induction false} RunAccounted(w: Intent, start: Position, s: State, es: seq<Event>)
    requires Accounted(w, s) && LegalRun(w, start, s, es) && Undisturbed(es)
    ensures Accounted(w, Run(w, start, s, es))
  {
    if es != [] {
      RunAccounted(w, start, s, es[..|es| - 1]);
      StepAccounted(w, start, Run(w, start, s, es[..|es| - 1]), es[|es| - 1]);
    }
  }
}

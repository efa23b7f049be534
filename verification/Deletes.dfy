/** The delete walk over a table whose key may repeat.

    A delete asks for no proof that its key is unique: it removes by value. So the table
    here is a bag of lines. Seen by key, the walk is the machine's walk: a key is there
    while some line with it matches, and a batch removes the key whole. */
module Deletes {
  import opened Options
  import opened Order
  import opened Walk
  import opened WalkLaws
  import opened Batches
  import Source

  datatype Line = Line(key: Key, row: Row)
  type Heap = multiset<Line>
  type Filter = Row -> bool

  /** The lines of `h` that satisfy `c`, each as often as `h` holds it. */
  ghost function Only(h: Heap, c: Line -> bool): (r: Heap)
    ensures forall l :: r[l] == if c(l) then h[l] else 0
    decreases |h|
  {
    if |h| == 0 then multiset{} else
      var l :| l in h;
      Only(h - multiset{l}, c) + if c(l) then multiset{l} else multiset{}
  }

  /** DELETE ... WHERE key = ANY(ks) AND predicate. */
  ghost function Deleted(p: Filter, h: Heap, ks: set<Key>): (r: Heap)
    ensures forall l :: r[l] == if l.key in ks && p(l.row) then 0 else h[l]
  {
    Only(h, (l: Line) => !(l.key in ks && p(l.row)))
  }

  /** The capture beside it names the batch by key alone. */
  ghost function Captured(h: Heap, ks: set<Key>): (r: Heap)
    ensures forall l :: r[l] == if l.key in ks then h[l] else 0
  {
    Only(h, (l: Line) => l.key in ks)
  }

  ghost predicate MatchAt(p: Filter, h: Heap, k: Key) {
    exists l :: l in h && l.key == k && p(l.row)
  }

  // --- the table by key ------------------------------------------------------------------

  ghost function Gone(): (w: Intent) {
    Intent((r: Row) => true, Remove)
  }

  ghost function ByKey(p: Filter, h: Heap): (t: Table)
    ensures forall k :: Matches(Gone(), t, k) <==> MatchAt(p, h, k)
  {
    var ks := set l | l in h && p(l.row) :: l.key;
    map k | k in ks :: map[]
  }

  lemma SameByKey(p: Filter, a: Table, b: Table)
    requires forall k :: Matches(Gone(), a, k) <==> Matches(Gone(), b, k)
    requires (forall k :: k in a ==> a[k] == map[]) && (forall k :: k in b ==> b[k] == map[])
    ensures a == b
  {
    forall k ensures k in a <==> k in b {
      assert Matches(Gone(), a, k) <==> k in a;
      assert Matches(Gone(), b, k) <==> k in b;
    }
  }

  lemma DeletedMatch(p: Filter, h: Heap, ks: set<Key>, k: Key)
    ensures MatchAt(p, Deleted(p, h, ks), k) <==> MatchAt(p, h, k) && k !in ks
  {
    hide Deleted;
    if MatchAt(p, h, k) && k !in ks {
      var l :| l in h && l.key == k && p(l.row);
      assert l in Deleted(p, h, ks);
    }
  }

  lemma ByKeyDeleted(p: Filter, h: Heap, ks: set<Key>)
    ensures ByKey(p, Deleted(p, h, ks)) == Rewrite(Gone(), ByKey(p, h), ks)
  {
    var a, b := ByKey(p, Deleted(p, h, ks)), Rewrite(Gone(), ByKey(p, h), ks);
    forall k ensures Matches(Gone(), a, k) <==> Matches(Gone(), b, k) {
      DeletedMatch(p, h, ks, k);
    }
    SameByKey(p, a, b);
  }

  // --- the machine over lines --------------------------------------------------------------

  /** The walk's own variables, with the heap they speak of, the pre-images, the heap this
      job found and the heap the first job found. */
  datatype HState = HState(s: State, heap: Heap, image: Heap, orig: Heap, first: Heap)

  datatype HEvent = Own(e: Event) | Others(to: Heap)

  ghost predicate HeapCut(p: Filter, h: Heap, lo: Position, keys: set<Key>, hi: Position) {
    NotAfter(lo, hi) && forall k :: k in keys <==> MatchAt(p, h, k) && Between(lo, k, hi)
  }

  ghost predicate NoneAhead(p: Filter, h: Heap, at: Position) {
    forall k :: MatchAt(p, h, k) ==> !Above(at, k)
  }

  /** Other sessions: not the rows this transaction has deleted, and never a row that
      matches. */
  ghost predicate HarmlessTo(p: Filter, x: HState, to: Heap) {
    && (forall l: Line :: p(l.row) ==> to[l] <= x.heap[l])
    && (forall l: Line :: p(l.row) && l.key in x.s.pending ==> to[l] == x.heap[l])
  }

  ghost predicate HLegal(p: Filter, x: HState, ev: HEvent) {
    match ev
    case Others(to) => HarmlessTo(p, x, to)
    case Own(e) =>
      match e
      case Batch(keys, next) => x.s.running && !x.s.done && HeapCut(p, Deleted(p, x.heap, x.s.pending), x.s.at, keys, next)
      case Finish => x.s.running && !x.s.done && NoneAhead(p, Deleted(p, x.heap, x.s.pending), x.s.at)
      case Commit => x.s.running
      case Cancel => x.s.running && !x.s.done
      case Crash => x.s.running
      case Foreign(_) => false
      case Resume(_, bound) => bound.None? && (x.s.running ==> x.s.done && x.s.pending == {})
  }

  /** The same event, seen by key. */
  ghost function Seen(p: Filter, ev: HEvent): (e: Event) {
    if ev.Own? then ev.e else Foreign(ByKey(p, ev.to))
  }

  ghost function HStep(p: Filter, start: Position, x: HState, ev: HEvent): (y: HState) {
    var t := Step(Gone(), start, x.s, Seen(p, ev));
    match ev
    case Others(to) => x.(s := t, heap := to)
    case Own(e) =>
      if e.Commit? then
        x.(s := t, heap := Deleted(p, x.heap, x.s.pending), image := x.image + Captured(x.heap, x.s.pending))
      else if e.Resume? then x.(s := t, orig := x.heap)
      else x.(s := t)
  }

  ghost function HRun(p: Filter, start: Position, x: HState, es: seq<HEvent>): (y: HState) {
    if es == [] then x else HStep(p, start, HRun(p, start, x, es[..|es| - 1]), es[|es| - 1])
  }

  ghost predicate HLegalRun(p: Filter, start: Position, x: HState, es: seq<HEvent>) {
    es == [] ||
    (HLegalRun(p, start, x, es[..|es| - 1]) && HLegal(p, HRun(p, start, x, es[..|es| - 1]), es[|es| - 1]))
  }

  lemma HRunExtend(p: Filter, start: Position, x: HState, es: seq<HEvent>, ev: HEvent)
    ensures HRun(p, start, x, es + [ev]) == HStep(p, start, HRun(p, start, x, es), ev)
    ensures HLegalRun(p, start, x, es + [ev]) <==> HLegalRun(p, start, x, es) && HLegal(p, HRun(p, start, x, es), ev)
  {
    hide HStep, HLegal;
    assert (es + [ev])[..|es + [ev]| - 1] == es;
  }

  ghost function SeenAll(p: Filter, es: seq<HEvent>): (r: seq<Event>)
    ensures |r| == |es|
  {
    if es == [] then [] else SeenAll(p, es[..|es| - 1]) + [Seen(p, es[|es| - 1])]
  }

  ghost function HFresh(p: Filter, h: Heap): (x: HState) {
    HState(Fresh(ByKey(p, h)), h, multiset{}, h, h)
  }

  // --- it is the machine's walk ---------------------------------------------------------------

  /** The walk's variables hold the heap by key. */
  ghost predicate Faithful(p: Filter, x: HState) {
    x.s.data == ByKey(p, x.heap) && x.s.upto.None?
  }

  lemma ViewByKey(p: Filter, x: HState)
    requires Faithful(p, x)
    ensures View(Gone(), x.s) == ByKey(p, Deleted(p, x.heap, x.s.pending))
  {
    ByKeyDeleted(p, x.heap, x.s.pending);
  }

  lemma OthersLegal(p: Filter, x: HState, to: Heap)
    requires Faithful(p, x) && HarmlessTo(p, x, to)
    ensures Harmless(Gone(), x.s, ByKey(p, to))
  {
    var t := ByKey(p, to);
    forall k | MatchAt(p, to, k) ensures MatchAt(p, x.heap, k) {
      var l :| l in to && l.key == k && p(l.row);
      assert l in x.heap;
    }
    forall k | k in x.s.pending && MatchAt(p, x.heap, k) ensures MatchAt(p, to, k) {
      var l :| l in x.heap && l.key == k && p(l.row);
      assert l in to;
    }
    forall k ensures k in t <==> MatchAt(p, to, k) {
      assert Matches(Gone(), t, k) <==> k in t;
    }
    forall k ensures k in x.s.data <==> MatchAt(p, x.heap, k) {
      assert Matches(Gone(), x.s.data, k) <==> k in x.s.data;
    }
  }

  lemma BatchSeen(p: Filter, x: HState, keys: set<Key>, next: Position)
    requires Faithful(p, x) && HLegal(p, x, Own(Batch(keys, next)))
    ensures Legal(Gone(), x.s, Batch(keys, next))
  {
    hide Less, Deleted, Captured, MatchAt, ByKey, Rewrite, Above, NotAfter, Matches, View;
    ViewByKey(p, x);
  }

  lemma FinishSeen(p: Filter, x: HState)
    requires Faithful(p, x) && HLegal(p, x, Own(Finish))
    ensures Legal(Gone(), x.s, Finish)
  {
    hide Less, Deleted, Captured, MatchAt, ByKey, Rewrite, Above, Matches, View;
    ViewByKey(p, x);
  }

  lemma LegalSeen(p: Filter, x: HState, ev: HEvent)
    requires Faithful(p, x) && HLegal(p, x, ev)
    ensures Legal(Gone(), x.s, Seen(p, ev))
  {
    hide Less, Deleted, Captured, MatchAt, ByKey, HarmlessTo, Harmless, Rewrite, IsCut, NothingAbove, HeapCut, NoneAhead, View;
    match ev
    case Others(to) => OthersLegal(p, x, to);
    case Own(e) =>
      match e
      case Batch(keys, next) => BatchSeen(p, x, keys, next);
      case Finish => FinishSeen(p, x);
      case _ =>
  }

  lemma StepData(w: Intent, start: Position, s: State, e: Event)
    ensures var t := Step(w, start, s, e);
            && t.data == (if e.Commit? then View(w, s) else if e.Foreign? then e.to else s.data)
            && t.upto == (if e.Resume? then e.bound else s.upto)
  {
    hide Less, View, ResumeAt, SavedOf;
  }

  lemma StepSeen(p: Filter, start: Position, x: HState, ev: HEvent)
    requires Faithful(p, x) && HLegal(p, x, ev)
    ensures Legal(Gone(), x.s, Seen(p, ev)) && Faithful(p, HStep(p, start, x, ev))
  {
    hide Deleted, Captured, ByKey, View, Legal, Step, Gone, HarmlessTo, HeapCut, NoneAhead;
    LegalSeen(p, x, ev);
    ViewByKey(p, x);
    StepData(Gone(), start, x.s, Seen(p, ev));
  }

  /** Every run over lines, seen by key, is a legal run of the walk machine, so every law
      of that machine holds of it. */
  lemma {:induction false} RunSeen(p: Filter, start: Position, x: HState, es: seq<HEvent>)
    requires Faithful(p, x) && HLegalRun(p, start, x, es)
    ensures LegalRun(Gone(), start, x.s, SeenAll(p, es))
    ensures HRun(p, start, x, es).s == Run(Gone(), start, x.s, SeenAll(p, es))
    ensures Faithful(p, HRun(p, start, x, es))
  {
    hide Less, HLegal, Legal, Step, Faithful, Seen;
    if es != [] {
      var front := es[..|es| - 1];
      RunSeen(p, start, x, front);
      StepSeen(p, start, HRun(p, start, x, front), es[|es| - 1]);
      HStepSeen(p, start, HRun(p, start, x, front), es[|es| - 1]);
      RunExtend(Gone(), start, x.s, SeenAll(p, front), Seen(p, es[|es| - 1]));
    }
  }

  lemma HStepSeen(p: Filter, start: Position, x: HState, ev: HEvent)
    ensures HStep(p, start, x, ev).s == Step(Gone(), start, x.s, Seen(p, ev))
  {
  }

  // --- what a delete walk does to lines -------------------------------------------------------

  ghost predicate Alone(es: seq<HEvent>) {
    forall i :: 0 <= i < |es| ==> es[i].Own?
  }

  ghost predicate LinesAccounted(p: Filter, x: HState) {
    && Accounted(Gone(), x.s)
    && (x.s.running ==> x.heap == Deleted(p, x.orig, x.s.changed) && x.s.orig == ByKey(p, x.orig))
  }

  lemma DeletedTwice(p: Filter, h: Heap, a: set<Key>, b: set<Key>)
    ensures Deleted(p, Deleted(p, h, a), b) == Deleted(p, h, a + b)
  {
    hide Deleted;
  }

  lemma DeletedNone(p: Filter, h: Heap)
    ensures Deleted(p, h, {}) == h
  {
    hide Deleted;
  }

  lemma StepHistory(w: Intent, start: Position, s: State, e: Event)
    ensures var t := Step(w, start, s, e);
            && t.orig == (if e.Resume? then s.data else s.orig)
            && t.changed == (if e.Resume? then {} else if e.Commit? then s.changed + s.pending else s.changed)
            && (t.running <==> (s.running || e.Resume?) && !e.Crash?)
  {
    hide Less, View, ResumeAt, SavedOf;
  }

  lemma StepLines(p: Filter, start: Position, x: HState, ev: HEvent)
    requires Faithful(p, x) && LinesAccounted(p, x) && HLegal(p, x, ev) && ev.Own?
    ensures LinesAccounted(p, HStep(p, start, x, ev))
  {
    hide Deleted, Captured, ByKey, View, Legal, Step, Gone, HarmlessTo, HeapCut, NoneAhead, Accounted;
    LegalSeen(p, x, ev);
    StepAccounted(Gone(), start, x.s, ev.e);
    StepHistory(Gone(), start, x.s, ev.e);
    DeletedTwice(p, x.orig, x.s.changed, x.s.pending);
    DeletedNone(p, x.heap);
  }

  lemma {:induction false} RunLines(p: Filter, start: Position, x: HState, es: seq<HEvent>)
    requires Faithful(p, x) && LinesAccounted(p, x) && HLegalRun(p, start, x, es) && Alone(es)
    ensures LinesAccounted(p, HRun(p, start, x, es)) && Faithful(p, HRun(p, start, x, es))
  {
    hide Less, HLegal, HStep, Faithful, LinesAccounted;
    if es != [] {
      var front := es[..|es| - 1];
      RunLines(p, start, x, front);
      StepSeen(p, start, HRun(p, start, x, front), es[|es| - 1]);
      StepLines(p, start, HRun(p, start, x, front), es[|es| - 1]);
    }
  }

  /** A finished delete removed every line that matched, above its start, however keys
      repeat, and no other line; only keys passed over by its own cancels are excepted. */
  lemma FinishedDelete(p: Filter, x: HState, l: Line)
    requires Faithful(p, x) && LinesAccounted(p, x) && x.s.running && x.s.done && x.s.pending == {}
    ensures x.heap[l] == if p(l.row) && Above(x.s.base, l.key) && l.key !in x.s.lost then 0 else x.orig[l]
  {
    hide Less, Deleted, ByKey, Accounted;
    FinishedJob(Gone(), x.s);
    if p(l.row) && l in x.orig {
      assert MatchAt(p, x.orig, l.key);
      assert l.key in x.s.changed + x.s.lost <==> Above(x.s.base, l.key);
    }
    if l.key in x.s.changed {
      assert l.key in x.s.changed + x.s.lost;
    }
  }

  /** No line above the walk's start and at or below the committed cursor still matches,
      over every run with gentle cancels, other sessions' writes included. */
  lemma DeleteCursorAgrees(p: Filter, start: Position, h: Heap, es: seq<HEvent>, l: Line)
    requires HLegalRun(p, start, HFresh(p, h), es)
    requires GentleCancels(Gone(), start, Fresh(ByKey(p, h)), SeenAll(p, es))
    requires var x := HRun(p, start, HFresh(p, h), es); l in x.heap && p(l.row) && x.s.saved.Some?
    ensures Above(start, l.key) ==> Above(HRun(p, start, HFresh(p, h), es).s.saved.value, l.key)
  {
    hide HRun, HLegalRun, Run, LegalRun, GentleCancels, ByKey, Less, Rewrite;
    var x0 := HFresh(p, h);
    RunSeen(p, start, x0, es);
    CursorAndDataAgree(Gone(), start, x0.s, SeenAll(p, es));
    var x := HRun(p, start, x0, es);
    assert MatchAt(p, x.heap, l.key);
    assert Matches(Gone(), x.s.data, l.key);
  }

  // --- pre-images of a delete ---------------------------------------------------------------------

  /** Over all jobs so far: the heap is the first one without the matching lines of the
      keys ever taken, and the side table holds every line of the first with such a key. */
  ghost predicate LinesKept(p: Filter, x: HState) {
    && x.s.pending !! x.s.ever
    && x.heap == Deleted(p, x.first, x.s.ever)
    && x.image == Captured(x.first, x.s.ever)
    && (forall k :: k in x.s.ever + x.s.pending ==> MatchAt(p, x.first, k))
  }

  lemma StepEver(w: Intent, start: Position, s: State, e: Event)
    ensures var t := Step(w, start, s, e);
            && t.ever == (if e.Commit? then s.ever + s.pending else s.ever)
            && t.pending == (if e.Batch? then s.pending + e.keys else if e.Finish? || e.Foreign? then s.pending else {})
  {
    hide Less, View, ResumeAt, SavedOf;
  }

  lemma CapturedUnion(p: Filter, h: Heap, a: set<Key>, b: set<Key>)
    requires a !! b
    ensures Captured(h, a) + Captured(Deleted(p, h, a), b) == Captured(h, a + b)
  {
    hide Deleted, Captured;
  }

  lemma BatchIsNew(p: Filter, x: HState, keys: set<Key>, next: Position, k: Key)
    requires LinesKept(p, x) && HLegal(p, x, Own(Batch(keys, next))) && k in keys
    ensures k !in x.s.ever && k !in x.s.pending && MatchAt(p, x.first, k)
  {
    hide Less, Deleted, Captured, MatchAt, Above;
    DeletedMatch(p, x.heap, x.s.pending, k);
    DeletedMatch(p, x.first, x.s.ever, k);
  }

  /** What an event of the walk itself does to the lines. */
  lemma StepHeap(p: Filter, start: Position, x: HState, e: Event)
    ensures var y := HStep(p, start, x, Own(e));
            && y.first == x.first && y.s == Step(Gone(), start, x.s, e)
            && y.heap == (if e.Commit? then Deleted(p, x.heap, x.s.pending) else x.heap)
            && y.image == (if e.Commit? then x.image + Captured(x.heap, x.s.pending) else x.image)
  {
    hide Deleted, Captured, Step, Gone;
  }

  lemma BatchLinesKept(p: Filter, start: Position, x: HState, keys: set<Key>, next: Position)
    requires LinesKept(p, x) && HLegal(p, x, Own(Batch(keys, next)))
    ensures LinesKept(p, HStep(p, start, x, Own(Batch(keys, next))))
  {
    hide Deleted, Captured, Step, Gone, HLegal, MatchAt, HStep;
    StepEver(Gone(), start, x.s, Batch(keys, next));
    StepHeap(p, start, x, Batch(keys, next));
    forall k | k in keys
      ensures k !in x.s.ever && k !in x.s.pending && MatchAt(p, x.first, k)
    {
      BatchIsNew(p, x, keys, next, k);
    }
  }

  lemma CommitLinesKept(p: Filter, start: Position, x: HState)
    requires LinesKept(p, x)
    ensures LinesKept(p, HStep(p, start, x, Own(Commit)))
  {
    hide Deleted, Captured, Step, Gone, MatchAt, HStep;
    StepEver(Gone(), start, x.s, Commit);
    StepHeap(p, start, x, Commit);
    DeletedTwice(p, x.first, x.s.ever, x.s.pending);
    CapturedUnion(p, x.first, x.s.ever, x.s.pending);
  }

  lemma StepLinesKept(p: Filter, start: Position, x: HState, ev: HEvent)
    requires LinesKept(p, x) && HLegal(p, x, ev) && ev.Own?
    ensures LinesKept(p, HStep(p, start, x, ev)) && HStep(p, start, x, ev).first == x.first
  {
    hide Deleted, Captured, Step, Gone, MatchAt, HStep, HeapCut, NoneAhead;
    StepHeap(p, start, x, ev.e);
    if ev.e.Batch? {
      BatchLinesKept(p, start, x, ev.e.keys, ev.e.next);
    } else if ev.e.Commit? {
      CommitLinesKept(p, start, x);
    } else {
      StepEver(Gone(), start, x.s, ev.e);
    }
  }

  lemma {:induction false} RunLinesKept(p: Filter, start: Position, x: HState, es: seq<HEvent>)
    requires LinesKept(p, x) && HLegalRun(p, start, x, es) && Alone(es)
    ensures LinesKept(p, HRun(p, start, x, es)) && HRun(p, start, x, es).first == x.first
  {
    hide Less, HLegal, HStep, LinesKept;
    if es != [] {
      var front := es[..|es| - 1];
      RunLinesKept(p, start, x, front);
      StepLinesKept(p, start, HRun(p, start, x, front), es[|es| - 1]);
    }
  }

  /** Every saved line is put back. */
  ghost function PutBack(h: Heap, image: Heap): (r: Heap) {
    h + image
  }

  /** The lines of each saved key are replaced by the saved ones. */
  ghost function ReplaceByKey(h: Heap, image: Heap): (r: Heap) {
    var ks := set l | l in image :: l.key;
    Only(h, (l: Line) => l.key !in ks) + image
  }

  /** No line that shares its key with a line the walk has taken fails the predicate. */
  ghost predicate NoBystander(p: Filter, h: Heap, taken: set<Key>) {
    forall l :: l in h && l.key in taken ==> p(l.row)
  }

  lemma PutBackExactly(p: Filter, x: HState)
    requires LinesKept(p, x)
    ensures PutBack(x.heap, x.image) == x.first <==> NoBystander(p, x.first, x.s.ever)
  {
    hide Deleted, Captured, MatchAt, Less;
    var back := PutBack(x.heap, x.image);
    if back == x.first {
      forall l | l in x.first && l.key in x.s.ever ensures p(l.row) {
        assert back[l] == x.heap[l] + x.image[l];
      }
    } else if NoBystander(p, x.first, x.s.ever) {
      assert forall l :: back[l] == x.first[l];
    }
  }

  lemma ReplaceRestores(p: Filter, x: HState)
    requires LinesKept(p, x)
    ensures ReplaceByKey(x.heap, x.image) == x.first
  {
    hide Deleted, Captured, Less;
    var ks := set l | l in x.image :: l.key;
    forall k ensures k in ks <==> k in x.s.ever {
      if k in x.s.ever {
        assert k in x.s.ever + x.s.pending;
        assert MatchAt(p, x.first, k);
        var l :| l in x.first && l.key == k && p(l.row);
        assert l in x.image;
      }
    }
    hide Only;
    assert forall l :: ReplaceByKey(x.heap, x.image)[l] == x.first[l];
  }

  lemma FreshLinesKept(p: Filter, h: Heap)
    ensures LinesKept(p, HFresh(p, h)) && Faithful(p, HFresh(p, h)) && LinesAccounted(p, HFresh(p, h))
  {
    hide Deleted, Captured, ByKey;
    DeletedNone(p, h);
    assert Captured(h, {}) == multiset{};
  }

  /** Putting the pre-images of a delete back restores the table, over every run and at
      every point of it, if and only if no line sharing a taken key fails the predicate. */
  lemma DeleteRoundTripExactly(p: Filter, start: Position, h: Heap, es: seq<HEvent>)
    requires HLegalRun(p, start, HFresh(p, h), es) && Alone(es)
    ensures var x := HRun(p, start, HFresh(p, h), es);
            PutBack(x.heap, x.image) == h <==> NoBystander(p, h, x.s.ever)
  {
    hide HRun, HLegalRun, LinesKept, PutBack, NoBystander;
    FreshLinesKept(p, h);
    RunLinesKept(p, start, HFresh(p, h), es);
    PutBackExactly(p, HRun(p, start, HFresh(p, h), es));
  }

  /** Replacing the lines of each saved key by the saved ones always restores it. */
  lemma DeleteReplaceRoundTrip(p: Filter, start: Position, h: Heap, es: seq<HEvent>)
    requires HLegalRun(p, start, HFresh(p, h), es) && Alone(es)
    ensures var x := HRun(p, start, HFresh(p, h), es); ReplaceByKey(x.heap, x.image) == h
  {
    hide HRun, HLegalRun, LinesKept, ReplaceByKey;
    FreshLinesKept(p, h);
    RunLinesKept(p, start, HFresh(p, h), es);
    ReplaceRestores(p, HRun(p, start, HFresh(p, h), es));
  }

  // --- what a caller can tell beforehand ---------------------------------------------------------

  /** Every job of the run starts from the beginning or is offered the committed cursor. */
  ghost predicate OwnCursors(p: Filter, start: Position, x: HState, es: seq<HEvent>) {
    es == [] ||
    (OwnCursors(p, start, x, es[..|es| - 1]) && OwnCursor(HRun(p, start, x, es[..|es| - 1]), es[|es| - 1]))
  }

  ghost predicate OwnCursor(x: HState, ev: HEvent) {
    ev.Own? && ev.e.Resume? ==> ev.e.from.None? || ev.e.from == x.s.saved
  }

  /** The walk is never before its start, nor has it taken a key there. */
  ghost predicate PastStart(start: Position, s: State) {
    && (s.running ==> NotAfter(start, s.at))
    && (s.saved.Some? ==> NotAfter(start, s.saved.value))
    && (forall k :: k in s.ever + s.pending ==> Above(start, k))
  }

  lemma BatchPastStart(p: Filter, start: Position, x: HState, keys: set<Key>, next: Position)
    requires PastStart(start, x.s) && HLegal(p, x, Own(Batch(keys, next)))
    ensures NotAfter(start, next) && forall k :: k in keys ==> Above(start, k)
  {
    hide Less, Deleted, MatchAt;
    NotAfterTransitive(start, x.s.at, next);
    forall k | k in keys ensures Above(start, k) {
      assert Between(x.s.at, k, next);
      AboveMonotone(start, x.s.at, k);
    }
  }

  lemma StepPlaces(w: Intent, start: Position, s: State, e: Event)
    ensures var t := Step(w, start, s, e);
            && (e.Resume? ==> t.at == start || (e.from.Some? && t.at == e.from.value))
            && (!e.Resume? ==> t.at == if e.Batch? then e.next else s.at)
            && t.saved == (if e.Commit? then Some(s.at) else s.saved)
            && (t.running ==> s.running || e.Resume?)
  {
    hide Less, View, SavedOf, Stale;
  }

  lemma StepPastStart(p: Filter, start: Position, x: HState, ev: HEvent)
    requires PastStart(start, x.s) && HLegal(p, x, ev) && ev.Own? && OwnCursor(x, ev)
    ensures PastStart(start, HStep(p, start, x, ev).s)
  {
    HStepSeen(p, start, x, ev);
    Nowhere(start);
    hide Less, Above, NotAfter, Step, HStep, Gone, Deleted, HeapCut, NoneAhead;
    StepPlaces(Gone(), start, x.s, ev.e);
    StepEver(Gone(), start, x.s, ev.e);
    if ev.e.Batch? {
      BatchPastStart(p, start, x, ev.e.keys, ev.e.next);
    }
  }

  lemma {:induction false} RunPastStart(p: Filter, start: Position, x: HState, es: seq<HEvent>)
    requires PastStart(start, x.s) && HLegalRun(p, start, x, es) && Alone(es) && OwnCursors(p, start, x, es)
    ensures PastStart(start, HRun(p, start, x, es).s)
  {
    hide Less, HLegal, HStep, PastStart, OwnCursor;
    if es != [] {
      RunPastStart(p, start, x, es[..|es| - 1]);
      StepPastStart(p, start, HRun(p, start, x, es[..|es| - 1]), es[|es| - 1]);
    }
  }

  /** No line above the start shares its key with a matching line and fails the predicate. */
  ghost predicate NoMixedKey(p: Filter, start: Position, h: Heap) {
    forall l :: l in h && Above(start, l.key) && MatchAt(p, h, l.key) ==> p(l.row)
  }

  /** Putting back restores the table after every run from it. */
  ghost predicate AlwaysRestores(p: Filter, start: Position, h: Heap) {
    forall es :: HLegalRun(p, start, HFresh(p, h), es) && Alone(es) && OwnCursors(p, start, HFresh(p, h), es) ==>
      Restores(p, start, h, es)
  }

  ghost predicate Restores(p: Filter, start: Position, h: Heap, es: seq<HEvent>) {
    var x := HRun(p, start, HFresh(p, h), es);
    PutBack(x.heap, x.image) == h
  }

  lemma TakenMatch(p: Filter, start: Position, h: Heap, es: seq<HEvent>, k: Key)
    requires HLegalRun(p, start, HFresh(p, h), es) && Alone(es) && OwnCursors(p, start, HFresh(p, h), es)
    requires k in HRun(p, start, HFresh(p, h), es).s.ever
    ensures Above(start, k) && MatchAt(p, h, k)
  {
    var x0 := HFresh(p, h);
    assert PastStart(start, x0.s);
    hide HRun, HLegalRun, OwnCursors, Less, Above, MatchAt, Deleted, Captured;
    FreshLinesKept(p, h);
    RunLinesKept(p, start, x0, es);
    RunPastStart(p, start, x0, es);
    assert k in HRun(p, start, x0, es).s.ever + HRun(p, start, x0, es).s.pending;
  }

  /** The job that takes every matching key up to `k`. */
  ghost function UpTo(p: Filter, start: Position, h: Heap, k: Key): (es: seq<HEvent>) {
    [Own(Resume(None, None)), Own(Batch(KeysUpTo(p, start, h, k), At(k))), Own(Commit)]
  }

  ghost function KeysUpTo(p: Filter, start: Position, h: Heap, k: Key): (r: set<Key>)
    ensures forall x :: x in r <==> MatchAt(p, h, x) && Between(start, x, At(k))
  {
    set l | l in h && p(l.row) && Between(start, l.key, At(k)) :: l.key
  }

  lemma UpToFits(p: Filter, start: Position, x: HState, h: Heap, k: Key)
    requires x.s.running && !x.s.done && x.s.at == start && x.s.pending == {} && x.heap == h && Above(start, k)
    ensures HLegal(p, x, Own(Batch(KeysUpTo(p, start, h, k), At(k))))
  {
    DeletedNone(p, h);
    if start.At? { LessTotal(start.key, k); }
    hide Less, Deleted, MatchAt, KeysUpTo;
  }

  lemma UpToRuns(p: Filter, start: Position, h: Heap, k: Key)
    requires Above(start, k)
    ensures HLegalRun(p, start, HFresh(p, h), UpTo(p, start, h, k)) && Alone(UpTo(p, start, h, k))
    ensures OwnCursors(p, start, HFresh(p, h), UpTo(p, start, h, k))
    ensures HRun(p, start, HFresh(p, h), UpTo(p, start, h, k)).s.ever == KeysUpTo(p, start, h, k)
  {
    var x0 := HFresh(p, h);
    var e1, e2, e3 := Own(Resume(None, None)), Own(Batch(KeysUpTo(p, start, h, k), At(k))), Own(Commit);
    hide HLegalRun, HRun, ByKey, Deleted, Captured, MatchAt, HeapCut, Less, KeysUpTo, OwnCursors, Above;
    EmptyRun(p, start, x0);
    HRunExtend(p, start, x0, [], e1);
    CursorsNext(p, start, x0, [], e1);
    var x1 := HStep(p, start, x0, e1);
    UpToFits(p, start, x1, h, k);
    HRunExtend(p, start, x0, [] + [e1], e2);
    CursorsNext(p, start, x0, [] + [e1], e2);
    HRunExtend(p, start, x0, [] + [e1] + [e2], e3);
    CursorsNext(p, start, x0, [] + [e1] + [e2], e3);
    assert [] + [e1] + [e2] + [e3] == UpTo(p, start, h, k);
  }

  lemma EmptyRun(p: Filter, start: Position, x: HState)
    ensures HLegalRun(p, start, x, []) && HRun(p, start, x, []) == x && OwnCursors(p, start, x, [])
  {
  }

  lemma CursorsNext(p: Filter, start: Position, x: HState, es: seq<HEvent>, ev: HEvent)
    requires OwnCursors(p, start, x, es) && OwnCursor(HRun(p, start, x, es), ev)
    ensures OwnCursors(p, start, x, es + [ev])
  {
    hide HRun, OwnCursor;
    assert (es + [ev])[..|es + [ev]| - 1] == es;
  }

  /** Putting the pre-images of a delete back restores the table after every run from it if
      and only if no line above the walk's start shares its key with a matching line and
      fails the predicate. */
  lemma AlwaysRestoresExactly(p: Filter, start: Position, h: Heap)
    ensures AlwaysRestores(p, start, h) <==> NoMixedKey(p, start, h)
  {
    hide HRun, HLegalRun, OwnCursors, Less, Above, MatchAt, PutBack, HFresh, UpTo;
    if NoMixedKey(p, start, h) {
      forall es | HLegalRun(p, start, HFresh(p, h), es) && Alone(es) && OwnCursors(p, start, HFresh(p, h), es)
        ensures Restores(p, start, h, es)
      {
        DeleteRoundTripExactly(p, start, h, es);
        forall l | l in h && l.key in HRun(p, start, HFresh(p, h), es).s.ever ensures p(l.row) {
          TakenMatch(p, start, h, es, l.key);
        }
      }
    } else {
      var l :| l in h && Above(start, l.key) && MatchAt(p, h, l.key) && !p(l.row);
      MixedKeyFails(p, start, h, l);
    }
  }

  lemma MixedKeyFails(p: Filter, start: Position, h: Heap, l: Line)
    requires l in h && Above(start, l.key) && MatchAt(p, h, l.key) && !p(l.row)
    ensures !AlwaysRestores(p, start, h)
  {
    LessIrreflexive(l.key);
    assert Between(start, l.key, At(l.key));
    hide HRun, HLegalRun, OwnCursors, Less, Above, MatchAt, PutBack, HFresh, UpTo, Between;
    var es := UpTo(p, start, h, l.key);
    UpToRuns(p, start, h, l.key);
    DeleteRoundTripExactly(p, start, h, es);
    assert !NoBystander(p, h, HRun(p, start, HFresh(p, h), es).s.ever);
    assert !Restores(p, start, h, es);
  }

  // --- one batch ---------------------------------------------------------------------------------

  /** The keys of the matching lines after the cursor, as often as there are lines. */
  function KeysToDelete(p: Filter, rows: seq<Line>, at: Position): (r: seq<Key>) {
    if rows == [] then [] else
      var l := rows[|rows| - 1];
      KeysToDelete(p, rows[..|rows| - 1], at) + if p(l.row) && Above(at, l.key) then [l.key] else []
  }

  lemma {:induction false} KeysToDeleteAre(p: Filter, rows: seq<Line>, at: Position, k: Key)
    ensures k in KeysToDelete(p, rows, at) <==> MatchAt(p, multiset(rows), k) && Above(at, k)
  {
    hide Less, Above;
    if rows != [] {
      var n := |rows| - 1;
      KeysToDeleteAre(p, rows[..n], at, k);
      assert rows == rows[..n] + [rows[n]];
      if MatchAt(p, multiset(rows[..n]), k) {
        var l :| l in multiset(rows[..n]) && l.key == k && p(l.row);
        assert l in multiset(rows);
      }
      if rows[n].key == k && p(rows[n].row) {
        assert rows[n] in multiset(rows);
      }
      if MatchAt(p, multiset(rows), k) {
        var l :| l in multiset(rows) && l.key == k && p(l.row);
        assert l in multiset(rows[..n]) || l == rows[n];
      }
    }
  }

  /** A prefix of an ordered list with repeats holds exactly the keys up to its last. */
  lemma PrefixUpTo(s: seq<Key>, n: nat, k: Key)
    requires Source.Nondecreasing(s) && 0 < n <= |s|
    ensures k in s[..n] <==> k in s && !Less(s[n - 1], k)
  {
    hide Less;
    LessIrreflexive(s[n - 1]);
    if k in s {
      var i :| 0 <= i < |s| && s[i] == k;
      if i < n {
        assert s[..n][i] == k;
      } else {
        LessTotal(s[n - 1], k);
        assert s[..n][n - 1] == s[n - 1];
      }
    }
    if k in s[..n] {
      var i :| 0 <= i < n && s[i] == k;
    }
  }

  /** One batch: the next keys after the cursor, one for each matching line, cut by rows
      and bytes. The delete is by value, so a key cut off from its repeats takes them
      along, and the batch is a whole stretch however keys repeat. */
  method RunDeleteBatch(p: Filter, rows: seq<Line>, at: Position, limit: nat, size: Key -> nat, budget: int)
    returns (keys: seq<Key>, next: Position)
    requires limit > 0
    ensures HeapCut(p, multiset(rows), at, Elements(keys), next)
    ensures keys == [] <==> NoneAhead(p, multiset(rows), at)
    ensures keys == [] ==> next == at
    ensures Fills(Source.SortAll(KeysToDelete(p, rows, at)), keys, limit, size, budget)
  {
    hide *;
    var all := Source.SortAll(KeysToDelete(p, rows, at));
    var sel := Take(all, limit);
    keys := CutByBytes(sel, size, budget);
    CutFills(all, keys, limit, size, budget);
    DeleteBatchLaw(p, rows, at, limit, keys);
    next := if keys == [] then at else At(keys[|keys| - 1]);
  }

  lemma DeleteBatchLaw(p: Filter, rows: seq<Line>, at: Position, limit: nat, keys: seq<Key>)
    requires limit > 0
    requires var sel := Take(Source.SortAll(KeysToDelete(p, rows, at)), limit);
             keys <= sel && (sel != [] ==> keys != [])
    ensures |keys| <= limit
    ensures HeapCut(p, multiset(rows), at, Elements(keys), if keys == [] then at else At(keys[|keys| - 1]))
    ensures keys == [] <==> NoneAhead(p, multiset(rows), at)
  {
    var wanted := KeysToDelete(p, rows, at);
    var all := Source.SortAll(wanted);
    Source.SortAllSorts(wanted);
    hide Less, Above, MatchAt, Source.SortAll, KeysToDelete;
    forall k ensures k in all <==> MatchAt(p, multiset(rows), k) && Above(at, k) {
      KeysToDeleteAre(p, rows, at, k);
    }
    if keys == [] {
      assert all == [];
      Nowhere(at);
    } else {
      var n := |keys|;
      assert keys == all[..n] && keys[0] in all;
      StretchOf(p, multiset(rows), at, all, n);
    }
  }

  lemma StretchOf(p: Filter, h: Heap, at: Position, all: seq<Key>, n: nat)
    requires Source.Nondecreasing(all) && 0 < n <= |all|
    requires forall k :: k in all <==> MatchAt(p, h, k) && Above(at, k)
    ensures HeapCut(p, h, at, Elements(all[..n]), At(all[n - 1]))
  {
    hide Less, MatchAt;
    var last := all[n - 1];
    assert last in all;
    if at.At? { LessTotal(at.key, last); }
    forall k ensures k in Elements(all[..n]) <==> MatchAt(p, h, k) && Between(at, k, At(last)) {
      PrefixUpTo(all, n, k);
    }
  }
}

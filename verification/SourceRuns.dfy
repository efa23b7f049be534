/** The one-statement walk over whole runs: transactions, the tool's own cancels, crashes
    and resumes. Its rows come from the specification, so a recorded cursor cannot be
    checked against the target and is resumed as it stands. */
module SourceRuns {
  import opened Options
  import opened Order
  import opened Source

  datatype State = State(
    // what survives a crash
    saved: Option<Position>,
    considered: multiset<nat>,
    passed: set<nat>,
    // the process
    running: bool,
    done: bool,
    at: Position,
    pending: set<nat>,
    lost: set<nat>)

  datatype Event = Batch(limit: nat) | Commit | Cancel | Crash | Resume

  function Begin(): (s: State) {
    State(None, multiset{}, {}, false, false, Bottom, {}, {})
  }

  predicate Legal(s: State, e: Event) {
    match e
    case Batch(limit) => s.running && !s.done && limit > 0
    case Commit => s.running
    case Cancel => s.running && !s.done
    case Crash => s.running
    case Resume => !s.running
  }

  /** Up to where the committed cursor says the source is done. */
  function Reached(start: Position, s: State): (p: Position) {
    if s.saved.Some? then s.saved.value else start
  }

  function Step(src: seq<Key>, start: Position, s: State, e: Event): (t: State)
    requires Legal(s, e)
  {
    match e
    case Batch(limit) =>
      var u := LastKey(src, s.at, limit);
      if u.None? then s.(done := true)
      else s.(at := At(u.value), pending := s.pending + BatchRows(src, s.at, limit))
    case Commit =>
      s.(saved := Some(s.at), considered := s.considered + multiset(s.pending), pending := {},
         passed := s.passed + s.lost, lost := {})
    case Cancel => s.(lost := s.lost + s.pending, pending := {})
    case Crash => s.(running := false, pending := {}, lost := {})
    case Resume => s.(running := true, done := false, at := Reached(start, s), pending := {}, lost := {})
  }

  ghost function Run(src: seq<Key>, start: Position, es: seq<Event>): (s: State)
    requires LegalRun(src, start, es)
    decreases |es|, 1
  {
    if es == [] then Begin() else Step(src, start, Run(src, start, es[..|es| - 1]), es[|es| - 1])
  }

  ghost predicate LegalRun(src: seq<Key>, start: Position, es: seq<Event>)
    decreases |es|, 0
  {
    es == [] || (LegalRun(src, start, es[..|es| - 1]) && Legal(Run(src, start, es[..|es| - 1]), es[|es| - 1]))
  }

  // --- every row in one place -----------------------------------------------------------------

  /** Behind the committed cursor a row was considered by exactly one committed batch, or
      was passed over; nowhere else was one considered. */
  ghost predicate Durable(src: seq<Key>, start: Position, s: State) {
    && NotAfter(start, Reached(start, s))
    && (forall r: nat :: r in s.passed ==> r < |src| && Between(start, src[r], Reached(start, s)))
    && (forall r: nat :: s.considered[r] ==
          if r < |src| && Between(start, src[r], Reached(start, s)) && r !in s.passed then 1 else 0)
  }

  /** Between the committed cursor and the local one a row is in the open transaction or
      was passed over by a cancelled one. */
  ghost predicate Volatile(src: seq<Key>, start: Position, s: State) {
    s.running ==>
      && NotAfter(Reached(start, s), s.at)
      && s.pending !! s.lost
      && (forall r: nat :: r in s.pending + s.lost <==> r < |src| && Between(Reached(start, s), src[r], s.at))
      && (s.done ==> forall r: nat :: r < |src| ==> !Above(s.at, src[r]))
  }

  ghost predicate Accounted(src: seq<Key>, start: Position, s: State) {
    Durable(src, start, s) && Volatile(src, start, s)
  }

  lemma BatchKept(src: seq<Key>, start: Position, s: State, limit: nat)
    requires Accounted(src, start, s) && Legal(s, Batch(limit))
    ensures Accounted(src, start, Step(src, start, s, Batch(limit)))
  {
    BatchLaw(src, s.at, limit);
    var u := LastKey(src, s.at, limit);
    hide Less, LastKey, Count, KeysAfter;
    if u.Some? {
      var rows := BatchRows(src, s.at, limit);
      if s.at.At? { LessTotal(s.at.key, u.value); }
      Stretch(Reached(start, s), s.at, At(u.value));
      forall r: nat
        ensures r in rows <==> r < |src| && Between(s.at, src[r], At(u.value))
        ensures r in rows ==> r !in s.pending + s.lost
      {
      }
    }
  }

  lemma CommitRow(src: seq<Key>, start: Position, s: State, r: nat)
    requires Accounted(src, start, s) && s.running
    ensures var t := Step(src, start, s, Commit);
            && t.considered[r] == (if r < |src| && Between(start, src[r], s.at) && r !in t.passed then 1 else 0)
            && (r in t.passed ==> r < |src| && Between(start, src[r], s.at))
  {
    Stretch(start, Reached(start, s), s.at);
    hide Less, Between, NotAfter;
    assert r in s.pending + s.lost <==> r in s.pending || r in s.lost;
    assert multiset(s.pending)[r] == if r in s.pending then 1 else 0;
    if r < |src| {
      assert Between(start, src[r], s.at) <==>
             Between(start, src[r], Reached(start, s)) || Between(Reached(start, s), src[r], s.at);
      assert !(Between(start, src[r], Reached(start, s)) && Between(Reached(start, s), src[r], s.at));
    }
  }

  lemma CommitDurable(src: seq<Key>, start: Position, s: State)
    requires Accounted(src, start, s) && s.running
    ensures Durable(src, start, Step(src, start, s, Commit))
  {
    Stretch(start, Reached(start, s), s.at);
    forall r: nat {
      CommitRow(src, start, s, r);
    }
    hide Accounted, Between, NotAfter, Less;
  }

  lemma CommitKept(src: seq<Key>, start: Position, s: State)
    requires Accounted(src, start, s) && s.running
    ensures Accounted(src, start, Step(src, start, s, Commit))
  {
    CommitDurable(src, start, s);
    Nowhere(s.at);
    hide Durable, Between, NotAfter, Less;
  }

  lemma {:induction false} StepKept(src: seq<Key>, start: Position, s: State, e: Event)
    requires Accounted(src, start, s) && Legal(s, e)
    ensures Accounted(src, start, Step(src, start, s, e))
  {
    hide Less, LastKey, BatchRows, Between;
    match e
    case Batch(limit) => BatchKept(src, start, s, limit);
    case Commit => CommitKept(src, start, s);
    case Cancel =>
      assert s.pending + s.lost == Step(src, start, s, e).pending + Step(src, start, s, e).lost;
    case Crash =>
    case Resume => Nowhere(Reached(start, s));
  }

  lemma {:induction false} RunKept(src: seq<Key>, start: Position, es: seq<Event>)
    requires LegalRun(src, start, es)
    ensures Accounted(src, start, Run(src, start, es))
  {
    hide Less, Step, Legal, Accounted;
    if es == [] {
      BeginKept(src, start);
    } else {
      RunKept(src, start, es[..|es| - 1]);
      StepKept(src, start, Run(src, start, es[..|es| - 1]), es[|es| - 1]);
    }
  }

  lemma BeginKept(src: seq<Key>, start: Position)
    ensures Accounted(src, start, Begin())
  {
    hide Less;
    Nowhere(start);
  }

  /** A cancel undid batches, and neither a commit nor a crash has come since. */
  ghost predicate OpenLoss(src: seq<Key>, start: Position, es: seq<Event>)
    requires LegalRun(src, start, es)
  {
    es != [] &&
    var front, e := es[..|es| - 1], es[|es| - 1];
    || (e.Cancel? && Run(src, start, front).pending != {})
    || ((e.Batch? || e.Cancel?) && OpenLoss(src, start, front))
  }

  /** A cancel that undid batches was followed by a commit before a crash. */
  ghost predicate Lossy(src: seq<Key>, start: Position, es: seq<Event>)
    requires LegalRun(src, start, es)
  {
    es != [] &&
    (Lossy(src, start, es[..|es| - 1]) || (es[|es| - 1].Commit? && OpenLoss(src, start, es[..|es| - 1])))
  }

  lemma {:induction false} LostExactly(src: seq<Key>, start: Position, es: seq<Event>)
    requires LegalRun(src, start, es)
    ensures Run(src, start, es).lost != {} <==> OpenLoss(src, start, es)
  {
    hide Less, LastKey, BatchRows;
    if es != [] {
      LostExactly(src, start, es[..|es| - 1]);
    }
  }

  /** Rows are passed over if and only if a cancel that undid batches was followed by a
      commit before a crash. */
  lemma {:induction false} PassedExactly(src: seq<Key>, start: Position, es: seq<Event>)
    requires LegalRun(src, start, es)
    ensures Run(src, start, es).passed != {} <==> Lossy(src, start, es)
  {
    hide Less, LastKey, BatchRows, OpenLoss;
    if es != [] {
      PassedExactly(src, start, es[..|es| - 1]);
      LostExactly(src, start, es[..|es| - 1]);
    }
  }

  lemma FinishedRow(src: seq<Key>, start: Position, s: State, r: nat)
    requires Accounted(src, start, s) && s.running && s.done && s.saved == Some(s.at)
    requires r < |src|
    ensures Above(start, src[r]) ==> (s.considered[r] == 1 <==> r !in s.passed)
    ensures r in s.passed ==> Above(start, src[r]) && s.considered[r] == 0
  {
    hide Less;
  }

  /** A walk that reached its end and committed, over any crashes and resumes on the way:
      every source row above the start was considered by exactly one committed batch if and
      only if no cancel that undid batches was followed by a commit before a crash. */
  lemma FinishedRun(src: seq<Key>, start: Position, es: seq<Event>)
    requires LegalRun(src, start, es)
    requires var s := Run(src, start, es); s.running && s.done && s.saved == Some(s.at)
    ensures (forall r: nat :: r < |src| && Above(start, src[r]) ==> Run(src, start, es).considered[r] == 1)
            <==> !Lossy(src, start, es)
  {
    hide Less, Run, LegalRun, Lossy, Above;
    RunKept(src, start, es);
    PassedExactly(src, start, es);
    var s := Run(src, start, es);
    forall r: nat | r < |src| {
      FinishedRow(src, start, s, r);
    }
    if s.passed != {} {
      PassedRow(src, start, s);
    }
  }

  lemma PassedRow(src: seq<Key>, start: Position, s: State)
    requires Accounted(src, start, s) && s.passed != {} && s.running && s.done && s.saved == Some(s.at)
    ensures exists r: nat :: r < |src| && Above(start, src[r]) && s.considered[r] == 0
  {
    hide Less;
    var r: nat :| r in s.passed;
    FinishedRow(src, start, s, r);
  }

  // --- a run that loses a row ---------------------------------------------------------------

  const START := At([0])

  function TwoKeys(): (src: seq<Key>) {
    [[1], [2]]
  }

  /** The first batch is undone by the cancel of the second, and the walk goes on. */
  function LosingRun(): (es: seq<Event>) {
    [Resume, Batch(1), Cancel, Batch(1), Batch(1), Commit]
  }

  lemma RunNext(src: seq<Key>, start: Position, es: seq<Event>, e: Event)
    requires LegalRun(src, start, es) && Legal(Run(src, start, es), e)
    ensures LegalRun(src, start, es + [e]) && Run(src, start, es + [e]) == Step(src, start, Run(src, start, es), e)
  {
    hide Step, Legal;
    assert (es + [e])[..|es + [e]| - 1] == es;
  }

  lemma SmallKeys()
    ensures Less([0], [1]) && Less([0], [2]) && Less([1], [2])
    ensures !Less([1], [1]) && !Less([2], [1]) && !Less([2], [2])
  {
  }

  lemma KeysLeft(n: nat)
    requires n <= 2
    ensures KeysAfter(TwoKeys(), At([n])) == TwoKeys()[n..]
  {
    SmallKeys();
    hide Less;
    var src := TwoKeys();
    assert src[..1] == [[1]] && src[..1][..0] == [];
    assert KeysAfter(src[..1], At([n])) == if n == 0 then [[1]] else [];
  }

  lemma RowsOf(n: nat, rows: set<nat>)
    requires n < 2 && LastKey(TwoKeys(), At([n]), 1) == Some([n + 1]) && rows == BatchRows(TwoKeys(), At([n]), 1)
    ensures rows == {n}
  {
    SmallKeys();
    hide Less, LastKey;
    forall r: nat ensures r in rows <==> r == n {
      assert r == 0 || r == 1 || r >= 2;
    }
  }

  /** A batch of one row takes the next key. */
  lemma OneByOne()
    ensures LastKey(TwoKeys(), At([0]), 1) == Some([1]) && BatchRows(TwoKeys(), At([0]), 1) == {0}
    ensures LastKey(TwoKeys(), At([1]), 1) == Some([2]) && BatchRows(TwoKeys(), At([1]), 1) == {1}
    ensures LastKey(TwoKeys(), At([2]), 1) == None
  {
    hide Less, LastKey, KeysAfter, BatchRows;
    KeysLeft(0);
    KeysLeft(1);
    KeysLeft(2);
    assert TwoKeys()[0..] == [[1], [2]] && TwoKeys()[1..] == [[2]] && TwoKeys()[2..] == [];
    NextOf(At([0]), [[1], [2]]);
    NextOf(At([1]), [[2]]);
    NextOf(At([2]), []);
    RowsOf(0, BatchRows(TwoKeys(), At([0]), 1));
    RowsOf(1, BatchRows(TwoKeys(), At([1]), 1));
  }

  lemma NextOf(lo: Position, keys: seq<Key>)
    requires keys == [[1], [2]] || keys == [[2]] || keys == []
    requires KeysAfter(TwoKeys(), lo) == keys
    ensures LastKey(TwoKeys(), lo, 1) == if keys == [] then None else Some(keys[0])
  {
    assert !Less([2], [1]);
    assert keys == [[1], [2]] ==> keys[..1] == [[1]] && SortAll([[1]]) == [[1]];
    SortAllSorts(keys);
  }

  /** The walk ends, its cursor past both rows, and the first was never considered. */
  lemma CancelMidTransactionPassesRows()
    ensures LegalRun(TwoKeys(), START, LosingRun()) && Lossy(TwoKeys(), START, LosingRun())
    ensures var s := Run(TwoKeys(), START, LosingRun());
            s.running && s.done && s.saved == Some(At([2])) && s.passed == {0} && s.considered == multiset{1}
  {
    OneByOne();
    hide Less, LastKey, BatchRows, Run, LegalRun, TwoKeys, Lossy;
    var src := TwoKeys();
    assert LegalRun(src, START, []) && Run(src, START, []) == Begin() by { Nothing(src); }
    RunNext(src, START, [], Resume);
    RunNext(src, START, [] + [Resume], Batch(1));
    RunNext(src, START, [] + [Resume] + [Batch(1)], Cancel);
    var mid := [] + [Resume] + [Batch(1)] + [Cancel];
    RunNext(src, START, mid, Batch(1));
    RunNext(src, START, mid + [Batch(1)], Batch(1));
    RunNext(src, START, mid + [Batch(1)] + [Batch(1)], Commit);
    assert mid + [Batch(1)] + [Batch(1)] + [Commit] == LosingRun();
    PassedExactly(src, START, LosingRun());
  }

  lemma Nothing(src: seq<Key>)
    ensures LegalRun(src, START, []) && Run(src, START, []) == Begin()
  {
  }
}

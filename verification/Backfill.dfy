/** The executor's walk: transactions around batches, with the cursor committed
    beside the data it describes. */
module Backfill {
  import opened Options
  import opened Order
  import opened Walk
  import opened WalkLaws
  import opened Batches
  import opened Grouped
  import opened Workers
  import opened Scripts

  datatype Shape = Single | Composite(columns: nat) | ByGroup

  datatype Cursor = Flat(position: Position) | ByGroupAt(group: GroupCursor)

  function Place(c: Cursor): Position {
    match c
    case Flat(p) => p
    case ByGroupAt(g) => PositionOf(g)
  }

  /** How a commit ended: acknowledged, or with its reply lost and the server having
      applied it or not. */
  datatype Fate = Acknowledged | Unsaid(applied: bool)

  /** What the outside decides at the n-th batch: the observer's flags, whether its cancel
      reached the statement, whether the statement fails or the process dies there,
      whether a waiter, the interval or the cap asks for a commit after it, and how that
      commit ends; and, where a transaction begins there, whether the job was told to stop
      before or at the gate, whether it was paused too long, and whether the gate gave a
      slot. */
  datatype Tick = Tick(throttled: bool, cancelled: bool, failed: bool, killed: bool, commitNow: bool, commit: Fate,
                       stop: bool, stopAtGate: bool, gaveUp: bool, slot: bool)

  /** What other sessions make of the table before the n-th batch, given the rows this
      transaction has locked. */
  type Writer = (nat, Table, set<Key>) -> Table

  /** They leave locked rows alone and never make a row match. */
  ghost predicate Polite(w: Intent, others: Writer) {
    forall n, t, p ::
      && (forall k :: k in p ==> (k in others(n, t, p) <==> k in t) && (k in t && k in others(n, t, p) ==> others(n, t, p)[k] == t[k]))
      && (forall k :: Matches(w, others(n, t, p), k) ==> Matches(w, t, k))
  }

  /** They keep the table one of pairs, and from the `calm`-th batch on they add no group
      to the rows not locked. */
  ghost predicate KeepsGroups(others: Writer, calm: nat) {
    && (forall n, t, p :: Paired(t) ==> Paired(others(n, t, p)))
    && (forall n, t, p, k :: n >= calm && k in others(n, t, p) && k !in p && k != [] ==> HasGroup(t, p, k[0]))
  }

  ghost predicate HasGroup(t: Table, p: set<Key>, g: int) {
    exists x :: x in t && x !in p && x != [] && x[0] == g
  }

  /** Nobody else writes. */
  ghost predicate NoOthers(others: Writer) {
    forall n, t, p :: others(n, t, p) == t
  }

  datatype End =
    | Finished | Stopped(atGate: bool) | Killed | Unreadable | Broke | GaveUp | CommitLost(applied: bool, rows: nat)

  /** What comes of one look inside a transaction. */
  datatype TurnEnd = Ends(end: End) | RolledBack | Goes(took: Took)

  /** A way a walk ends that is no end of the walk: the session goes with it. */
  predicate Dies(e: End) {
    !e.Finished? && !e.Stopped?
  }

  /** What one batch did, whatever its shape. */
  datatype Took = Took(keys: seq<Key>, cursor: Cursor, skippedOnly: bool, commitFirst: bool)

  /** The order in which a calm walk runs down: the cancels still to come, the rows
      still to take, the groups still to enter. */
  ghost function GroupsAhead(t: Table, c: Cursor): set<Key> {
    match c
    case Flat(_) => {}
    case ByGroupAt(g) => GroupsAfter(t, g)
  }

  ghost predicate TookLaw(w: Intent, t: Table, from: Cursor, upto: Option<Key>, holdsLocks: bool, took: Took) {
    && IsCut(w, t, Place(from), Elements(took.keys), Place(took.cursor), upto)
    && |Elements(took.keys)| == |took.keys|
    && (took.keys == [] && !took.skippedOnly && !took.commitFirst ==> NothingAbove(w, t, Place(took.cursor), upto))
    && (took.skippedOnly || took.commitFirst ==> took.keys == [])
    && (took.commitFirst ==> holdsLocks)
    && GroupsAhead(t, took.cursor) <= GroupsAhead(t, from)
    && (took.skippedOnly ==> GroupsAhead(t, took.cursor) < GroupsAhead(t, from))
  }

  // --- how a walk is paced -------------------------------------------------------------------------

  /** Half the batch while throttled, and never none. */
  function LimitAt(batchRows: nat, t: Tick): (limit: nat) {
    if !t.throttled then batchRows else if batchRows / 2 > 1 then batchRows / 2 else 1
  }

  /** How far a walk has come: the looks it has taken, whether a batch has run since its
      transaction began, the rows of that transaction, whether something has asked for its
      end, and whether the session was lost with a commit. */
  datatype Beat = Beat(n: nat, open: bool, rows: nat, asked: bool, gone: bool)

  const AT_FIRST := Beat(0, false, 0, false, false)

  ghost function After(env: nat -> Tick, cap: nat, b: Beat, e: Event): (r: Beat) {
    match e
    case Batch(keys, _) =>
      Beat(b.n + 1, true, b.rows + |keys|, keys == {} || env(b.n).commitNow || b.rows + |keys| >= cap, false)
    case Cancel => Beat(b.n + 1, false, 0, false, false)
    case Commit => Beat(b.n, false, 0, false, b.n > 0 && env(b.n - 1).commit != Acknowledged)
    case _ => b
  }

  ghost function BeatOf(env: nat -> Tick, cap: nat, log: seq<Event>): (b: Beat) {
    if log == [] then AT_FIRST else After(env, cap, BeatOf(env, cap, log[..|log| - 1]), log[|log| - 1])
  }

  /** A look goes on to its statement: nobody killed it, and where it begins a transaction
      nobody told the job to stop. */
  ghost predicate GoesOn(t: Tick, first: bool) {
    !t.killed && !t.failed && (first ==> !t.stop && !t.stopAtGate && !t.gaveUp)
  }

  /** The place a grouped walk's position stands for. */
  ghost function CursorAt(p: Position): (c: GroupCursor) {
    if p.Bottom? || p.key == [] then NotStarted
    else if |p.key| == 1 then InGroup(p.key[0], None)
    else InGroup(p.key[0], Some(p.key[1]))
  }

  /** The rows a batch may draw on: for a walk by group, those of the group it drew on. */
  ghost function Near(shape: Shape, keys: set<Key>, all: set<Key>): (r: set<Key>) {
    if shape.ByGroup? then set k | k in all && k != [] && exists x :: x in keys && x != [] && x[0] == k[0] else all
  }

  /** A batch takes as many of the next rows as its limit and the bytes allow. By group, a
      batch under a batch's worth of locks stays in its group, and one under fewer comes up
      empty only at the end of the walk or after 64 groups. */
  ghost predicate Full(shape: Shape, w: Intent, t: Table, lo: Position, upto: Option<Key>, keys: set<Key>, next: Position,
                       limit: nat, size: Key -> nat, budget: int, holdsLocks: bool) {
    && Fills(Sorted(Near(shape, keys, Eligible(w, t, lo, upto))), Sorted(keys), limit, size, budget)
    && (shape.ByGroup? && holdsLocks && CursorAt(lo).InGroup? ==> CursorAt(next).InGroup? && CursorAt(next).group == CursorAt(lo).group)
    && (shape.ByGroup? && !holdsLocks && keys == {} ==>
          NothingAbove(w, t, next, upto) || Entered(t, CursorAt(lo), CursorAt(next)) >= 64)
  }

  /** How the walk's end goes with its last look. */
  ghost predicate EndsAt(env: nat -> Tick, b: Beat, end: End, looked: nat) {
    match end
    case Finished => looked == b.n && !b.open
    case Stopped(atGate) => looked == b.n + 1 && !b.open && !b.gone && if atGate then env(b.n).stopAtGate else env(b.n).stop
    case Killed => looked == b.n + 1 && !b.asked && env(b.n).killed
    case Unreadable => looked == b.n + 1 && !b.asked
    case Broke => looked == b.n + 1 && !b.asked && env(b.n).failed && !env(b.n).killed
    case GaveUp => looked == b.n + 1 && !b.open && env(b.n).gaveUp && !env(b.n).stop
    case CommitLost(applied, _) => looked == b.n > 0 && env(b.n - 1).commit == Unsaid(applied) && (if applied then b.gone else b.asked)
  }

  lemma IncreasingIsSorted(s: seq<Key>)
    requires Increasing(s)
    ensures Sorted(Elements(s)) == s
  {
    hide Less;
    IncreasingUnique(Sorted(Elements(s)), s);
  }

  lemma FullFlat(shape: Shape, w: Intent, t: Table, lo: Position, upto: Option<Key>, keys: seq<Key>, next: Position,
                 limit: nat, size: Key -> nat, budget: int, holdsLocks: bool)
    requires !shape.ByGroup? && Increasing(keys) && Fills(Sorted(Eligible(w, t, lo, upto)), keys, limit, size, budget)
    ensures Full(shape, w, t, lo, upto, Elements(keys), next, limit, size, budget, holdsLocks)
  {
    hide Less, Sorted, Eligible, Fills, Increasing;
    IncreasingIsSorted(keys);
  }

  lemma FullGroup(w: Intent, t: Table, from: GroupCursor, limit: nat, size: Key -> nat, budget: int, holdsLocks: bool,
                  out: GroupOutcome)
    requires Paired(t) && GroupLaw(w, t, from, limit, holdsLocks, out)
    requires GroupReach(w, t, from, limit, size, budget, holdsLocks, out)
    ensures Full(ByGroup, w, t, PositionOf(from), None, Elements(out.keys), PositionOf(out.at), limit, size, budget, holdsLocks)
  {
    hide Less, Sorted, Eligible, Fills, GroupsAfter, InGroupEligible, Near, IsCut, Paired, NothingAbove;
    IncreasingIsSorted(out.keys);
    assert CursorAt(PositionOf(from)) == from && CursorAt(PositionOf(out.at)) == out.at;
    if out.keys == [] {
      NearNone(Elements(out.keys), Eligible(w, t, PositionOf(from), None));
      FillsNone(limit, size, budget);
    } else {
      NearGroup(w, t, from, out);
    }
  }

  lemma FillsNone(limit: nat, size: Key -> nat, budget: int)
    ensures Sorted({}) == [] && Fills([], [], limit, size, budget)
  {
  }

  lemma NearNone(keys: set<Key>, all: set<Key>)
    requires keys == {}
    ensures Near(ByGroup, keys, all) == {}
  {
  }

  lemma NearGroup(w: Intent, t: Table, from: GroupCursor, out: GroupOutcome)
    requires Paired(t) && out.keys != [] && out.at.InGroup?
    requires IsCut(w, t, PositionOf(from), Elements(out.keys), PositionOf(out.at), None)
    requires forall i :: 0 <= i < |out.keys| ==> |out.keys[i]| == 2 && out.keys[i][0] == out.at.group
    ensures Near(ByGroup, Elements(out.keys), Eligible(w, t, PositionOf(from), None)) == InGroupEligible(w, t, Entering(from, out.at.group))
  {
    hide Less, Above;
    var first := out.keys[0];
    assert first in Elements(out.keys) && first == [first[0], first[1]];
    PairOrder(from, first[0], first[1]);
    forall k
      ensures k in Near(ByGroup, Elements(out.keys), Eligible(w, t, PositionOf(from), None)) <==>
              k in InGroupEligible(w, t, Entering(from, out.at.group))
    {
      if k in t {
        assert k == [k[0], k[1]];
        PairOrder(from, k[0], k[1]);
      }
    }
  }

  lemma IncreasingDistinct(s: seq<Key>)
    requires Increasing(s)
    ensures |Elements(s)| == |s|
  {
    hide Less;
    if s != [] {
      var last := s[|s| - 1];
      var front := s[..|s| - 1];
      IncreasingDistinct(front);
      LessIrreflexive(last);
      assert last !in front;
      assert Elements(s) == Elements(front) + {last};
    }
  }

  /** One batch by the shape of the walk. */
  method RunBatch(shape: Shape, w: Intent, t: Table, cursor: Cursor, limit: nat, size: Key -> nat, budget: int,
                  upto: Option<Key>, holdsLocks: bool) returns (took: Option<Took>)
    requires limit > 0
    requires shape.ByGroup? ==> cursor.ByGroupAt? && Paired(t) && upto.None?
    requires !shape.ByGroup? ==> cursor.Flat?
    ensures took.None? <==> shape.Composite? && cursor.position.At? && |cursor.position.key| != shape.columns
    ensures took.Some? ==> TookLaw(w, t, cursor, upto, holdsLocks, took.value)
    ensures took.Some? ==> (took.value.cursor.Flat? <==> cursor.Flat?)
    ensures took.Some? ==>
              Full(shape, w, t, Place(cursor), upto, Elements(took.value.keys), Place(took.value.cursor), limit, size, budget, holdsLocks)
  {
    hide Less, Sorted, Smallest, Fills, Full, Eligible, GroupReach, Elements, Increasing, IsCut;
    match shape
    case ByGroup =>
      var g := RunGroupedBatch(w, t, cursor.group, limit, size, budget, holdsLocks);
      IncreasingDistinct(g.keys);
      FullGroup(w, t, cursor.group, limit, size, budget, holdsLocks, g);
      took := Some(Took(g.keys, ByGroupAt(g.at), g.skippedOnly, g.commitFirst));
    case Composite(columns) =>
      var c := RunCompositeBatch(w, t, cursor.position, limit, size, budget, columns, upto);
      if c.None? {
        return None;
      }
      IncreasingDistinct(c.value.keys);
      FullFlat(shape, w, t, cursor.position, upto, c.value.keys, c.value.next, limit, size, budget, holdsLocks);
      took := Some(Took(c.value.keys, Flat(c.value.next), false, false));
    case Single =>
      var c := RunPacedBatch(w, t, cursor.position, limit, size, budget, upto);
      IncreasingDistinct(c.keys);
      FullFlat(shape, w, t, cursor.position, upto, c.keys, c.next, limit, size, budget, holdsLocks);
      took := Some(Took(c.keys, Flat(c.next), false, false));
  }

  lemma CommitStep(w: Intent, start: Position, s: State)
    ensures var t := Step(w, start, s, Commit);
            && t.data == Rewrite(w, s.data, s.pending) && t.saved == Some(s.at) && t.pending == {}
            && t.at == s.at && t.upto == s.upto && t.rowsDone == s.rowsDone
            && t.running == s.running && t.done == s.done
            && View(w, t) == View(w, s) && Left(w, t) == Left(w, s)
  {
    hide Less, SavedOf;
    NothingPending(w, View(w, s));
  }

  /** What a batch means for the walk's end: the rows it takes are rows no longer
      to take, a skip enters a group, and it may be the end only when it is. */
  lemma TurnFacts(w: Intent, start: Position, s: State, cursor: Cursor, holdsLocks: bool, took: Took)
    requires s.running && !s.done && Place(cursor) == s.at
    requires TookLaw(w, View(w, s), cursor, s.upto, holdsLocks, took)
    ensures var t := Step(w, start, s, Batch(Elements(took.keys), Place(took.cursor)));
            && |Left(w, t)| == |Left(w, s)| - |took.keys|
            && (took.skippedOnly ==> GroupsAhead(View(w, t), took.cursor) < GroupsAhead(View(w, s), cursor))
            && (took.keys == [] && !took.skippedOnly && !took.commitFirst ==> Legal(w, t, Finish))
  {
    hide Less, Rewrite, IsCut, Left, GroupsAhead;
    Progress(w, start, s, Elements(took.keys), Place(took.cursor));
    if took.keys == [] {
      assert s.pending + Elements(took.keys) == s.pending;
    }
  }

  class Job {
    const w: Intent
    const start: Position
    const shape: Shape
    const size: Key -> nat
    const batchRows: nat
    const batchCapRows: nat
    const budget: int

    // the server
    var data: Table
    var saved: Option<Position>
    // the worker's session and the walk's own variables
    var inTransaction: bool
    var slotHeld: bool
    var admitted: bool
    var acts: seq<Act>
    var pending: set<Key>
    var cursor: Cursor
    var upto: Option<Key>
    var rowsDone: nat
    var rowsCommitted: nat
    // the transactions so far, as the step sees them
    var txns: seq<Txn>
    // what has happened, as the machine sees it
    ghost var born: State
    ghost var log: seq<Event>
    ghost var st: State

    ghost predicate Agrees()
      reads this
    {
      && data == st.data && saved == st.saved
      && pending == st.pending && Place(cursor) == st.at && upto == st.upto && rowsDone == st.rowsDone
    }

    /** The object is where a legal run of the machine has brought it. */
    ghost predicate Valid()
      reads this
    {
      && batchRows > 0
      && Agrees()
      && LegalRun(w, start, born, log) && st == Run(w, start, born, log)
      && (!inTransaction ==> pending == {})
      && Disciplined(acts) && ModeOf(acts) == Mode(false, slotHeld, inTransaction, admitted)
      && (shape.ByGroup? ==> cursor.ByGroupAt? && Paired(data) && upto.None?)
      && (!shape.ByGroup? ==> cursor.Flat?)
    }

    /** Outside the gate, with nothing open. */
    ghost predicate AtRest()
      reads this
    {
      !inTransaction && !slotHeld && !admitted
    }

    /** The transactions tell what the job has changed and what its cancels passed over. */
    ghost predicate Scripted()
      reads this
    {
      TakenOnce(st) && Kept(txns) == |st.changed| && Dropped(txns) == |st.lost|
    }

    constructor (w: Intent, start: Position, shape: Shape, size: Key -> nat, batchRows: nat, batchCapRows: nat,
                 budget: int, s: State, cursor: Cursor)
      requires batchRows > 0 && s.pending == {} && Place(cursor) == s.at
      requires shape.ByGroup? ==> cursor.ByGroupAt? && Paired(s.data) && s.upto.None?
      requires !shape.ByGroup? ==> cursor.Flat?
      ensures Valid() && born == s && st == s && log == [] && AtRest()
      ensures this.w == w && this.start == start && this.shape == shape
      ensures TakenOnce(s) && s.changed == {} && s.lost == {} ==> Scripted()
    {
      this.w, this.start, this.shape, this.size := w, start, shape, size;
      this.batchRows, this.batchCapRows, this.budget := batchRows, batchCapRows, budget;
      data, saved, pending, this.cursor := s.data, s.saved, {}, cursor;
      upto, rowsDone, rowsCommitted, inTransaction := s.upto, s.rowsDone, 0, false;
      slotHeld, admitted, acts, txns := false, false, [], [];
      born, log, st := s, [], s;
    }

    ghost method Happen(e: Event)
      requires LegalRun(w, start, born, log) && st == Run(w, start, born, log) && Legal(w, st, e)
      modifies this`st, this`log
      ensures LegalRun(w, start, born, log) && st == Run(w, start, born, log)
      ensures st == Step(w, start, old(st), e) && log == old(log) + [e]
      ensures old(Accounted(w, st)) && !e.Foreign? ==> Accounted(w, st)
      ensures old(TakenOnce(st)) ==> TakenOnce(st)
    {
      hide *;
      if TakenOnce(st) { StepTakenOnce(w, start, st, e); }
      RunExtend(w, start, born, log, e);
      if Accounted(w, st) && !e.Foreign? { StepAccounted(w, start, st, e); }
      st := Step(w, start, st, e);
      log := log + [e];
    }

    method Do(a: Act)
      requires Disciplined(acts) && May(ModeOf(acts), a)
      modifies this`acts
      ensures Disciplined(acts) && ModeOf(acts) == Then(ModeOf(old(acts)), a)
    {
      Extend(acts, a);
      acts := acts + [a];
    }

    method CloseTransaction()
      requires Disciplined(acts) && ModeOf(acts) == Mode(false, slotHeld, true, admitted)
      modifies this`acts, this`inTransaction
      ensures Disciplined(acts) && ModeOf(acts) == Mode(false, slotHeld, false, admitted) && !inTransaction
    {
      hide Disciplined, ModeOf;
      Do(CloseTxn);
      inTransaction := false;
    }

    /** The slot of the next transaction, waited for with nothing held. */
    method TakeSlot(held: bool)
      requires Valid() && AtRest()
      modifies this`acts, this`slotHeld, this`admitted
      ensures Valid() && admitted && ToTake() == old(ToTake()) && ToEnter() == old(ToEnter())
      ensures old(Scripted()) ==> Scripted()
    {
      hide Disciplined, ModeOf, Run, LegalRun, Rewrite, View, Left, GroupsAhead, Place, Paired;
      Do(Wait);
      Do(Got(held));
      slotHeld, admitted := held, true;
    }

    method DropSlot()
      requires Valid()
      modifies this`acts, this`slotHeld, this`admitted
      ensures Valid() && !slotHeld && !admitted && ToTake() == old(ToTake()) && ToEnter() == old(ToEnter())
      ensures old(Scripted()) ==> Scripted()
    {
      hide Disciplined, ModeOf, Run, LegalRun, Rewrite, View, Left, GroupsAhead, Place, Paired;
      Do(Drop);
      slotHeld, admitted := false, false;
    }

    method Begin()
      requires Valid() && !inTransaction && admitted
      modifies this`inTransaction, this`acts
      ensures Valid() && inTransaction
      ensures ToTake() == old(ToTake()) && ToEnter() == old(ToEnter())
      ensures old(Scripted()) ==> Scripted()
    {
      hide Disciplined, ModeOf, Run, LegalRun, Rewrite, View, Left, GroupsAhead, Place, Paired;
      Do(OpenTxn);
      inTransaction := true;
    }

    /** The rows of the batch change inside the open transaction. */
    method Apply(took: Took)
      requires Valid() && inTransaction && st.running && !st.done
      requires TookLaw(w, View(w, st), cursor, upto, true, took)
      requires took.cursor.Flat? <==> cursor.Flat?
      modifies this
      ensures Valid() && inTransaction && born == old(born) && log == old(log) + [Batch(Elements(took.keys), Place(took.cursor))]
      ensures st == Step(w, start, old(st), Batch(Elements(took.keys), Place(took.cursor)))
      ensures old(Accounted(w, st)) ==> Accounted(w, st)
      ensures old(Scripted()) ==> Scripted()
      ensures cursor == took.cursor && rowsCommitted == old(rowsCommitted)
    {
      hide Less, Rewrite, Run, LegalRun, IsCut, NothingAbove, Caps, Harmless, ResumeAt, SavedOf, GroupsAhead, PositionOf, Elements, Paired, Accounted, Disciplined, ModeOf, TakenOnce, Kept, Dropped, Legal, Step, View;
      CutIsLegal(w, st, Elements(took.keys), Place(took.cursor));
      StepFacts(w, start, st, Batch(Elements(took.keys), Place(took.cursor)));
      Happen(Batch(Elements(took.keys), Place(took.cursor)));
      pending := pending + Elements(took.keys);
      cursor := took.cursor;
      rowsDone := rowsDone + |took.keys|;
    }

    lemma StillPaired(t: Table, ks: set<Key>)
      requires Paired(t)
      ensures Paired(Rewrite(w, t, ks))
    {
    }

    /** Cursor and data in one transaction (and the pre-images, which the mutating
        statement itself wrote). */
    method CommitBatch()
      requires Valid() && inTransaction && st.running
      modifies this
      ensures Valid() && !inTransaction && born == old(born) && log == old(log) + [Commit]
      ensures st == Step(w, start, old(st), Commit)
      ensures old(Accounted(w, st)) ==> Accounted(w, st)
      ensures old(Scripted()) ==> Scripted()
      ensures cursor == old(cursor) && rowsCommitted == rowsDone
      ensures txns == old(txns) + [Committed(|old(pending)|)]
      ensures st.running && st.done == old(st.done) && st.saved == Some(st.at)
      ensures ToTake() == old(ToTake()) && ToEnter() == old(ToEnter())
    {
      hide Less, Rewrite, Run, LegalRun, GroupsAhead, Paired, Accounted, Disciplined, ModeOf, Place, Step, Left, View, TakenOnce, Kept, Dropped;
      CommitCounts(w, start, st, txns);
      var now := txns + [Committed(|pending|)];
      Store();
      txns := now;
    }

    method Store()
      requires Valid() && inTransaction && st.running
      modifies this
      ensures Valid() && !inTransaction && born == old(born) && log == old(log) + [Commit]
      ensures st == Step(w, start, old(st), Commit)
      ensures old(Accounted(w, st)) ==> Accounted(w, st)
      ensures old(TakenOnce(st)) ==> TakenOnce(st)
      ensures cursor == old(cursor) && rowsCommitted == rowsDone
      ensures st.running && st.done == old(st.done) && st.saved == Some(st.at)
      ensures ToTake() == old(ToTake()) && ToEnter() == old(ToEnter())
    {
      hide Less, Rewrite, Run, LegalRun, IsCut, NothingAbove, Caps, Harmless, ResumeAt, SavedOf, GroupsAhead, PositionOf, Elements, Paired, Accounted, Disciplined, ModeOf;
      hide Place, Step, Left, View, TakenOnce, Legal;
      if shape.ByGroup? { StillPaired(data, pending); }
      CommitStep(w, start, st);
      CommitIsLegal(w, st);
      Happen(Commit);
      data, saved := Rewrite(w, data, pending), Some(Place(cursor));
      pending := {};
      CloseTransaction();
      rowsCommitted := rowsDone;
    }

    /** The tool's own cancel: the transaction goes, the cursor and the count stay. */
    method RollBack()
      requires Valid() && inTransaction && st.running && !st.done
      modifies this
      ensures Valid() && !inTransaction && born == old(born) && log == old(log) + [Cancel]
      ensures st == Step(w, start, old(st), Cancel)
      ensures old(Accounted(w, st)) ==> Accounted(w, st)
      ensures old(Scripted()) ==> Scripted()
      ensures cursor == old(cursor) && rowsCommitted == old(rowsCommitted)
      ensures st.running && !st.done
    {
      hide Less, Rewrite, Run, LegalRun, IsCut, NothingAbove, Caps, Harmless, ResumeAt, SavedOf, GroupsAhead, PositionOf, Elements, Paired, Accounted, Disciplined, ModeOf, TakenOnce, Kept, Dropped, Legal, Step, View;
      CancelCounts(w, start, st, txns);
      CancelIsLegal(w, st);
      StepFacts(w, start, st, Cancel);
      Happen(Cancel);
      txns := txns + [Undone(|pending|)];
      pending := {};
      CloseTransaction();
    }

    /** A batch found nothing: the walk is over. */
    ghost method Complete()
      requires Valid() && inTransaction && st.running && Legal(w, st, Finish)
      modifies this
      ensures Valid() && inTransaction && born == old(born) && log == old(log) + [Finish]
      ensures st == Step(w, start, old(st), Finish) && st.running && st.done
      ensures old(Accounted(w, st)) ==> Accounted(w, st)
      ensures old(Scripted()) ==> Scripted()
    {
      hide Less, Rewrite, Run, LegalRun, IsCut, NothingAbove, Caps, Harmless, ResumeAt, SavedOf, GroupsAhead, PositionOf, Elements, Paired, Accounted, Disciplined, ModeOf, TakenOnce, Kept, Dropped, Legal, Step, View;
      StepFacts(w, start, st, Finish);
      Happen(Finish);
    }

    /** The process dies, or gives the step up, with a transaction open. */
    method Die()
      requires Valid() && st.running
      modifies this
      ensures Valid() && AtRest() && born == old(born) && log == old(log) + [Crash]
      ensures st == Step(w, start, old(st), Crash) && !st.running && txns == old(txns) && cursor == old(cursor)
      ensures old(Accounted(w, st)) ==> Accounted(w, st)
      ensures old(Scripted()) ==> Scripted()
    {
      hide Less, Rewrite, Run, LegalRun, IsCut, NothingAbove, Caps, Harmless, ResumeAt, SavedOf, GroupsAhead, PositionOf, Elements, Paired, Accounted, Disciplined, ModeOf, TakenOnce, Kept, Dropped, Legal, Step, View;
      CancelIsLegal(w, st);
      StepFacts(w, start, st, Crash);
      Happen(Crash);
      pending := {};
      Do(Drop);
      slotHeld, admitted := false, false;
      if inTransaction {
        CloseTransaction();
      }
    }

    /** The measure of a calm walk: rows to take, then groups to enter. */
    ghost function ToTake(): nat
      reads this
    {
      |Left(w, st)|
    }

    ghost function ToEnter(): set<Key>
      reads this
    {
      GroupsAhead(View(w, st), cursor)
    }

    /** One batch inside the open transaction. */
    method Turn(limit: nat, holdsLocks: bool) returns (took: Option<Took>)
      requires Valid() && inTransaction && st.running && !st.done && limit > 0
      modifies this
      ensures Valid() && born == old(born) && inTransaction && st.running && !st.done
      ensures old(Accounted(w, st)) ==> Accounted(w, st)
      ensures old(Scripted()) ==> Scripted()
      ensures took.None? ==> log == old(log) && Leaves(Unreadable)
      ensures took.Some? ==> log == old(log) + [Batch(Elements(took.value.keys), st.at)]
      ensures took.Some? ==> |Elements(took.value.keys)| == |took.value.keys|
      ensures took.Some? ==>
                Full(shape, w, old(View(w, st)), old(st.at), old(st.upto), Elements(took.value.keys), st.at, limit, size, budget, holdsLocks)
      ensures took.Some? ==> ToTake() == old(ToTake()) - |took.value.keys|
      ensures took.Some? && took.value.skippedOnly ==> ToEnter() < old(ToEnter())
      ensures took.Some? && (took.value.skippedOnly || took.value.commitFirst) ==> took.value.keys == []
      ensures took.Some? && took.value.commitFirst ==> holdsLocks
      ensures took.Some? && took.value.keys == [] && !took.value.skippedOnly && !took.value.commitFirst ==>
                Legal(w, st, Finish)
    {
      hide Less, Rewrite, Run, LegalRun, IsCut, NothingAbove, Caps, Harmless, ResumeAt, SavedOf, GroupsAhead,
        PositionOf, Elements, Paired, Accounted, Left, Legal, Disciplined, ModeOf, Full;
      if shape.ByGroup? { StillPaired(data, pending); }
      took := RunBatch(shape, w, Rewrite(w, data, pending), cursor, limit, size, budget, upto, holdsLocks);
      if took.None? {
        return;
      }
      TurnFacts(w, start, st, cursor, holdsLocks, took.value);
      Apply(took.value);
    }

    /** What the pacing allows next, where the walk has come to `b` and the machine to `s`. */
    ghost predicate Keeps(env: nat -> Tick, b: Beat, s: State, e: Event) {
      match e
      case Batch(keys, next) =>
        && !b.asked && !b.gone && GoesOn(env(b.n), !b.open) && !env(b.n).cancelled
        && var limit := LimitAt(batchRows, env(b.n));
           Full(shape, w, View(w, s), s.at, s.upto, keys, next, limit, size, budget, b.rows >= limit)
      case Cancel => !b.asked && !b.gone && GoesOn(env(b.n), !b.open) && env(b.n).cancelled
      case Commit => b.open && b.asked && b.n > 0 && env(b.n - 1).commit != Unsaid(false)
      case Finish => b.open && b.asked
      case Resume(_, _) => false
      case _ => true
    }

    /** The events of `log` from `from` on are paced as `env` asks, and have come to `b`. */
    ghost predicate Paced(env: nat -> Tick, s0: State, log: seq<Event>, from: nat, b: Beat) {
      && from <= |log| && BeatOf(env, batchCapRows, log[from..]) == b
      && forall i :: from <= i < |log| ==>
           Keeps(env, BeatOf(env, batchCapRows, log[from..i]), Run(w, start, s0, log[..i]), log[i])
    }

    lemma PacedFrom(env: nat -> Tick, s0: State, log: seq<Event>)
      ensures Paced(env, s0, log, |log|, AT_FIRST)
    {
      hide Run, Keeps;
    }

    lemma PacedNext(env: nat -> Tick, s0: State, log: seq<Event>, from: nat, b: Beat, e: Event)
      requires Paced(env, s0, log, from, b) && Keeps(env, b, Run(w, start, s0, log), e)
      ensures Paced(env, s0, log + [e], from, After(env, batchCapRows, b, e))
    {
      hide Run, Keeps, After;
      var more := log + [e];
      assert more[from..][..|more[from..]| - 1] == log[from..];
      forall i | from <= i < |more|
        ensures Keeps(env, BeatOf(env, batchCapRows, more[from..i]), Run(w, start, s0, more[..i]), more[i])
      {
        if i < |log| {
          assert more[from..i] == log[from..i] && more[..i] == log[..i] && more[i] == log[i];
        } else {
          assert more[from..i] == log[from..] && more[..i] == log;
        }
      }
    }

    /** The rows an open transaction of a paced walk may come to hold: what is short of the
        cap, and one batch. */
    ghost function MostRows(): (n: nat) {
      (if batchCapRows > 0 then batchCapRows - 1 else 0) + batchRows
    }

    ghost predicate Bounded(b: Beat) {
      b.rows <= MostRows() && (!b.asked ==> b.rows < batchCapRows || b.rows == 0)
    }

    lemma {:induction false} PacedBounded(env: nat -> Tick, s0: State, log: seq<Event>, from: nat, b: Beat)
      requires Paced(env, s0, log, from, b) && batchRows > 0 && Run(w, start, s0, log[..from]).pending == {}
      ensures Bounded(b) && |Run(w, start, s0, log).pending| <= b.rows
      decreases |log| - from
    {
      hide Run, Keeps, After, Bounded;
      if from == |log| {
        assert log[..from] == log;
        assert Bounded(AT_FIRST) by { AtFirstBounded(); }
      } else {
        var front, e := log[..|log| - 1], log[|log| - 1];
        assert front[..from] == log[..from];
        var b0 := BeatOf(env, batchCapRows, front[from..]);
        assert log[from..][..|log[from..]| - 1] == front[from..] == log[from..|log| - 1];
        forall i | from <= i < |front|
          ensures Keeps(env, BeatOf(env, batchCapRows, front[from..i]), Run(w, start, s0, front[..i]), front[i])
        {
          assert front[from..i] == log[from..i] && front[..i] == log[..i] && front[i] == log[i];
        }
        PacedBounded(env, s0, front, from, b0);
        assert Keeps(env, b0, Run(w, start, s0, front), e);
        BoundedNext(env, b0, Run(w, start, s0, front), e);
        RunExtend(w, start, s0, front, e);
        assert log == front + [e];
      }
    }

    lemma AtFirstBounded()
      ensures Bounded(AT_FIRST)
    {
    }

    lemma BoundedNext(env: nat -> Tick, b: Beat, s: State, e: Event)
      requires Bounded(b) && |s.pending| <= b.rows && Keeps(env, b, s, e) && batchRows > 0
      ensures Bounded(After(env, batchCapRows, b, e))
      ensures |Step(w, start, s, e).pending| <= After(env, batchCapRows, b, e).rows
    {
      hide Less, Rewrite, SavedOf, Sorted, Eligible, Near, NothingAbove, View, ResumeAt, CursorAt, Entered, GoesOn;
      if e.Batch? {
        UnionSize(s.pending, e.keys);
      }
    }

    /** Whatever the outside does, an open transaction never holds more changed rows than
        the cap less one and one batch, at any moment of a paced walk. */
    lemma LocksBounded(env: nat -> Tick, s0: State, log: seq<Event>, from: nat, b: Beat, m: nat)
      requires Paced(env, s0, log, from, b) && batchRows > 0 && Run(w, start, s0, log[..from]).pending == {}
      requires from <= m <= |log|
      ensures |Run(w, start, s0, log[..m]).pending| <= MostRows()
    {
      hide Run, Keeps;
      var front := log[..m];
      assert front[..from] == log[..from];
      forall i | from <= i < m
        ensures Keeps(env, BeatOf(env, batchCapRows, front[from..i]), Run(w, start, s0, front[..i]), front[i])
      {
        assert front[from..i] == log[from..i] && front[..i] == log[..i] && front[i] == log[i];
      }
      PacedBounded(env, s0, front, from, BeatOf(env, batchCapRows, front[from..]));
    }

    /** The paced walk is over, and why. */
    ghost predicate Ended(env: nat -> Tick, s0: State, log: seq<Event>, from: nat, end: End, looked: nat) {
      exists b :: Paced(env, s0, log, from, b) && EndsAt(env, b, end, looked)
    }

    ghost predicate NoResumeSince(from: nat)
      reads this
    {
      forall i :: from <= i < |log| ==> !log[i].Resume?
    }

    /** Other sessions write. A write that changes nothing is no event. */
    method Others(others: Writer, n: nat, ghost calm: nat, ghost env: nat -> Tick, ghost from: nat, ghost b: Beat)
      requires Valid() && st.running && !st.done && inTransaction && Polite(w, others) && (shape.ByGroup? ==> KeepsGroups(others, calm))
      modifies this
      ensures Valid() && born == old(born) && inTransaction && st.running && !st.done && slotHeld == old(slotHeld)
      ensures old(log) <= log && (forall i :: |old(log)| <= i < |log| ==> log[i].Foreign?)
      ensures NoOthers(others) ==> log == old(log) && st == old(st)
      ensures Paced(env, born, old(log), from, b) ==> Paced(env, born, log, from, b)
      ensures old(Scripted()) ==> Scripted()
      ensures ToTake() <= old(ToTake())
      ensures n >= calm ==> ToEnter() <= old(ToEnter())
    {
      hide Less, Rewrite, Run, LegalRun, Disciplined, ModeOf, Left, GroupsAhead, Paired, Place, View, Polite, KeepsGroups, NoOthers, Paced;
      var to := others(n, data, pending);
      SameIsNone(others, n, data, pending);
      if to == data { return; }
      PoliteIsHarmless(w, others, n, st);
      LeftShrinks(w, start, st, to);
      FewerGroups(w, others, calm, n, start, st, cursor, shape.ByGroup?);
      if Paced(env, born, log, from, b) { PacedNext(env, born, log, from, b, Foreign(to)); }
      Written(to);
    }

    /** The write itself. */
    method Written(to: Table)
      requires Valid() && st.running && !st.done && inTransaction && Harmless(w, st, to) && (shape.ByGroup? ==> Paired(to))
      modifies this`data, this`st, this`log
      ensures Valid() && log == old(log) + [Foreign(to)] && st == Step(w, start, old(st), Foreign(to))
      ensures st.running && !st.done && (old(Scripted()) ==> Scripted())
    {
      hide Less, Rewrite, Run, LegalRun, Disciplined, ModeOf, IsCut, NothingAbove, Caps, Harmless, ResumeAt, SavedOf, Paired, Place, TakenOnce, Kept, Dropped, Legal, Step, View;
      ForeignIsLegal(w, st, to);
      StepFacts(w, start, st, Foreign(to));
      Happen(Foreign(to));
      data := to;
    }

    /** What an end leaves: a cursor of the wrong width, or the commit whose reply was lost
        last among the transactions. */
    ghost predicate Leaves(end: End)
      reads this
    {
      && (end.Unreadable? ==> shape.Composite? && cursor.Flat? && cursor.position.At? && |cursor.position.key| != shape.columns)
      && (end.CommitLost? && end.applied ==> txns != [] && txns[|txns| - 1] == Committed(end.rows))
    }

    /** The walk itself. Whatever the outside decides at each batch and whatever politely
        writing others do in between, the object stays on a legal run of the machine, so
        every law of the machine holds of it. It waits for a slot only with none held and
        no transaction open. Its transactions tell what it changed and what its cancels
        passed over. And it ends once no more of its batches are cancelled and, for a walk
        by group, no more groups are added (from the `calm`-th batch on): each turn takes a
        row, enters a group, or finishes, and a commit-first turn, which does none of
        these, follows only turns of the same transaction that did. */
    method RunBackfill(env: nat -> Tick, others: Writer, ghost calm: nat) returns (end: End, looked: nat)
      requires Valid() && AtRest() && st.running && !st.done
      requires forall n :: n >= calm ==> !env(n).cancelled
      requires Polite(w, others) && (shape.ByGroup? ==> KeepsGroups(others, calm))
      modifies this
      ensures Valid() && AtRest() && born == old(born)
      ensures old(log) <= log && NoResumeSince(|old(log)|)
      ensures NoOthers(others) && old(Accounted(w, st)) ==> Accounted(w, st)
      ensures old(Scripted()) ==> Scripted()
      ensures end.Finished? ==> st.running && st.done && st.saved == Some(st.at)
      ensures end.Stopped? ==> st.running && !st.done
      ensures Dies(end) ==> !st.running
      ensures Leaves(end)
      ensures Ended(env, born, log, |old(log)|, end, looked)
    {
      hide Less, Valid, Rewrite, View, Run, LegalRun, Accounted, Left, Legal, Agrees, GroupsAhead, Paired, Step, Place,
        ToTake, ToEnter, Polite, KeepsGroups, NoOthers, Disciplined, ModeOf, Scripted, Paced, GoesOn;
      var n := 0;
      var done := false;
      ghost var from := |log|;
      PacedFrom(env, born, log);
      while !done
        invariant Valid() && AtRest() && born == old(born) && st.running && st.done == done
        invariant old(log) <= log && NoResumeSince(|old(log)|)
        invariant NoOthers(others) && old(Accounted(w, st)) ==> Accounted(w, st)
        invariant old(Scripted()) ==> Scripted()
        invariant done ==> st.saved == Some(st.at)
        invariant Paced(env, born, log, from, Beat(n, false, 0, false, false))
        decreases !done, if n < calm then calm - n else 0, ToTake(), ToEnter()
      {
        if env(n).stop {
          EndedSo(env, born, log, from, Beat(n, false, 0, false, false), Stopped(false), n + 1);
          return Stopped(false), n + 1;
        }
        if env(n).gaveUp {
          DieSo(env, from, Beat(n, false, 0, false, false), GaveUp, n + 1);
          return GaveUp, n + 1;
        }
        TakeSlot(env(n).slot);
        if env(n).stopAtGate {
          DropSlot();
          EndedSo(env, born, log, from, Beat(n, false, 0, false, false), Stopped(true), n + 1);
          return Stopped(true), n + 1;
        }
        Begin();
        var died;
        n, done, died := RunTransaction(env, others, n, calm, from);
        if died.Some? {
          return died.value, n;
        }
        DropSlot();
      }
      EndedSo(env, born, log, from, Beat(n, false, 0, false, false), Finished, n);
      return Finished, n;
    }

    lemma EndedSo(env: nat -> Tick, s0: State, log: seq<Event>, from: nat, b: Beat, end: End, looked: nat)
      requires Paced(env, s0, log, from, b) && EndsAt(env, b, end, looked)
      ensures Ended(env, s0, log, from, end, looked)
    {
    }

    /** The session goes with the walk's end. */
    method DieSo(ghost env: nat -> Tick, ghost from: nat, ghost b: Beat, ghost end: End, ghost looked: nat)
      requires Valid() && st.running && Paced(env, born, log, from, b) && EndsAt(env, b, end, looked)
      modifies this
      ensures Valid() && AtRest() && born == old(born) && log == old(log) + [Crash]
      ensures st == Step(w, start, old(st), Crash) && !st.running && txns == old(txns) && cursor == old(cursor)
      ensures old(Accounted(w, st)) ==> Accounted(w, st)
      ensures old(Scripted()) ==> Scripted()
      ensures Ended(env, born, log, from, end, looked)
    {
      hide Less, Rewrite, View, Run, LegalRun, Accounted, Left, Legal, Agrees, Step, Place, Disciplined, ModeOf, Scripted,
        Paced, EndsAt;
      PacedNext(env, born, log, from, b, Crash);
      Die();
      EndedSo(env, born, log, from, b, end, looked);
    }

    /** One transaction: batches until something asks for its end, and the commit. */
    method RunTransaction(env: nat -> Tick, others: Writer, n0: nat, ghost calm: nat, ghost from: nat)
      returns (n: nat, done: bool, died: Option<End>)
      requires Valid() && inTransaction && st.running && !st.done
      requires forall n :: n >= calm ==> !env(n).cancelled
      requires Polite(w, others) && (shape.ByGroup? ==> KeepsGroups(others, calm))
      requires Paced(env, born, log, from, Beat(n0, false, 0, false, false))
      requires !env(n0).stop && !env(n0).stopAtGate && !env(n0).gaveUp
      modifies this
      ensures Valid() && !inTransaction && born == old(born) && n > n0
      ensures old(log) <= log && NoResumeSince(|old(log)|)
      ensures NoOthers(others) && old(Accounted(w, st)) ==> Accounted(w, st)
      ensures old(Scripted()) ==> Scripted()
      ensures died.None? ==> st.running && st.done == done && (done ==> st.saved == Some(st.at))
      ensures died.None? ==>
                done || n0 < calm || ToTake() < old(ToTake()) || (ToTake() == old(ToTake()) && ToEnter() < old(ToEnter()))
      ensures died.None? ==> Paced(env, born, log, from, Beat(n, false, 0, false, false))
      ensures died.Some? ==> !st.running && AtRest() && Dies(died.value) && Leaves(died.value)
      ensures died.Some? ==> Ended(env, born, log, from, died.value, n)
    {
      hide Less, Valid, Rewrite, View, Run, LegalRun, Accounted, Left, Legal, Agrees, GroupsAhead, Paired, Step, Place,
        ToTake, ToEnter, Polite, KeepsGroups, NoOthers, Disciplined, ModeOf, Scripted, Paced, Ended;
      Batchful();
      n, done, died := n0, false, None;
      var rowsThisTxn := 0;
      while true
        invariant Valid() && inTransaction && born == old(born) && st.running && !st.done && !done && died.None?
        invariant old(log) <= log && NoResumeSince(|old(log)|)
        invariant NoOthers(others) && old(Accounted(w, st)) ==> Accounted(w, st)
        invariant old(Scripted()) ==> Scripted()
        invariant n >= n0 && rowsThisTxn >= 0
        invariant ToTake() <= old(ToTake()) - rowsThisTxn
        invariant rowsThisTxn == 0 ==> n == n0 && ToEnter() == old(ToEnter())
        invariant Paced(env, born, log, from, Beat(n, n > n0, rowsThisTxn, false, false))
        decreases if n < calm then calm - n else 0, ToTake()
      {
        var e := env(n);
        var limit := LimitAt(batchRows, e);
        var turn := OneTurn(env, limit, rowsThisTxn >= limit, others, n, calm, from, Beat(n, n > n0, rowsThisTxn, false, false));
        n := n + 1;
        if turn.Ends? {
          died := Some(turn.end);
          return;
        }
        if turn.RolledBack? {
          return;
        }
        var took := turn.took;
        rowsThisTxn := rowsThisTxn + |took.keys|;
        if took.commitFirst {
          break;
        }
        if took.keys == [] && !took.skippedOnly {
          PacedNext(env, born, log, from, Beat(n, true, rowsThisTxn, true, false), Finish);
          Complete();
          done := true;
          break;
        }
        if took.skippedOnly {
          break;
        }
        if e.commitNow || rowsThisTxn >= batchCapRows {
          break;
        }
      }
      died := TryCommit(env, n, rowsThisTxn, from);
    }

    lemma Batchful()
      requires Valid()
      ensures forall t :: LimitAt(batchRows, t) > 0
    {
    }

    /** One look and what comes of it: other sessions' writes, then the batch, unless the
        process dies, the statement fails or the tool cancels it. */
    method OneTurn(env: nat -> Tick, limit: nat, holdsLocks: bool, others: Writer, n: nat, ghost calm: nat,
                   ghost from: nat, ghost b: Beat) returns (turn: TurnEnd)
      requires Valid() && inTransaction && st.running && !st.done && limit > 0
      requires Polite(w, others) && (shape.ByGroup? ==> KeepsGroups(others, calm))
      requires Paced(env, born, log, from, b) && b.n == n && !b.asked && !b.gone
      requires limit == LimitAt(batchRows, env(n)) && holdsLocks == (b.rows >= limit)
      requires b.open || (!env(n).stop && !env(n).stopAtGate && !env(n).gaveUp)
      modifies this
      ensures Valid() && born == old(born)
      ensures old(log) <= log && forall i :: |old(log)| <= i < |log| ==> !log[i].Resume?
      ensures NoOthers(others) && old(Accounted(w, st)) ==> Accounted(w, st)
      ensures old(Scripted()) ==> Scripted()
      ensures turn.Ends? ==> !st.running && AtRest() && Ended(env, born, log, from, turn.end, n + 1)
      ensures turn.Ends? ==> (turn.end.Killed? || turn.end.Broke? || turn.end.Unreadable?) && Leaves(turn.end)
      ensures turn.RolledBack? ==>
                && env(n).cancelled && st.running && !st.done && !inTransaction
                && Paced(env, born, log, from, Beat(n + 1, false, 0, false, false))
      ensures turn.Goes? ==>
                && inTransaction && st.running && !st.done
                && ToTake() <= old(ToTake()) - |turn.took.keys|
                && (turn.took.skippedOnly || turn.took.commitFirst ==> turn.took.keys == [])
                && (turn.took.skippedOnly && n >= calm ==> ToEnter() < old(ToEnter()))
                && (turn.took.commitFirst ==> holdsLocks)
                && (turn.took.keys == [] && !turn.took.skippedOnly && !turn.took.commitFirst ==> Legal(w, st, Finish))
                && var rows := b.rows + |turn.took.keys|;
                   Paced(env, born, log, from,
                         Beat(n + 1, true, rows, turn.took.keys == [] || env(n).commitNow || rows >= batchCapRows, false))
    {
      hide Less, Rewrite, View, Run, LegalRun, Accounted, Left, Legal, Agrees, GroupsAhead, Paired, Step, Place,
        ToTake, ToEnter, Polite, KeepsGroups, NoOthers, Disciplined, ModeOf, Scripted, Paced, Ended, Full;
      Others(others, n, calm, env, from, b);
      var e := env(n);
      if e.killed || e.failed {
        var end := if e.killed then Killed else Broke;
        DieSo(env, from, b, end, n + 1);
        return Ends(end);
      }
      if e.cancelled {
        PacedNext(env, born, log, from, b, Cancel);
        RollBack();
        return RolledBack;
      }
      ghost var before, s := log, st;
      var took := Turn(limit, holdsLocks);
      if took.None? {
        DieSo(env, from, b, Unreadable, n + 1);
        return Ends(Unreadable);
      }
      PacedNext(env, born, before, from, b, Batch(Elements(took.value.keys), st.at));
      return Goes(took.value);
    }

    /** The commit, whose reply may be lost: then the session is gone, whatever the server
        did. */
    method TryCommit(env: nat -> Tick, n: nat, ghost rows0: nat, ghost from: nat) returns (died: Option<End>)
      requires Valid() && inTransaction && st.running && n > 0
      requires Paced(env, born, log, from, Beat(n, true, rows0, true, false))
      modifies this
      ensures Valid() && !inTransaction && born == old(born)
      ensures old(log) <= log && forall i :: |old(log)| <= i < |log| ==> !log[i].Resume? && !log[i].Foreign?
      ensures old(Accounted(w, st)) ==> Accounted(w, st)
      ensures old(Scripted()) ==> Scripted()
      ensures died.None? ==>
                && env(n - 1).commit == Acknowledged && st.running && st.done == old(st.done) && st.saved == Some(st.at)
                && ToTake() == old(ToTake()) && ToEnter() == old(ToEnter())
                && Paced(env, born, log, from, Beat(n, false, 0, false, false))
      ensures died.Some? ==>
                && died.value.CommitLost? && env(n - 1).commit == Unsaid(died.value.applied) && !st.running && AtRest()
                && Leaves(died.value)
                && Ended(env, born, log, from, died.value, n)
    {
      hide Less, Rewrite, View, Run, LegalRun, Accounted, Left, Legal, Agrees, GroupsAhead, Paired, Step, Place,
        ToTake, ToEnter, Disciplined, ModeOf, Scripted, Paced, Ended;
      var rows := |pending|;
      var fate := env(n - 1).commit;
      if fate == Unsaid(false) {
        DieSo(env, from, Beat(n, true, rows0, true, false), CommitLost(false, rows), n);
        return Some(CommitLost(false, rows));
      }
      PacedNext(env, born, log, from, Beat(n, true, rows0, true, false), Commit);
      CommitBatch();
      if fate == Acknowledged {
        return None;
      }
      DieSo(env, from, Beat(n, false, 0, false, true), CommitLost(true, rows), n);
      return Some(CommitLost(true, rows));
    }
  }

  lemma UnionSize(a: set<Key>, b: set<Key>)
    ensures |a + b| <= |a| + |b|
  {
    assert a + b == a + (b - a);
    SubsetSize(b - a, b);
  }

  lemma CutIsLegal(w: Intent, s: State, keys: set<Key>, next: Position)
    requires s.running && !s.done && IsCut(w, View(w, s), s.at, keys, next, s.upto)
    ensures Legal(w, s, Batch(keys, next))
  {
  }

  lemma CancelIsLegal(w: Intent, s: State)
    requires s.running
    ensures Legal(w, s, Crash) && (!s.done ==> Legal(w, s, Cancel))
  {
  }

  lemma ForeignIsLegal(w: Intent, s: State, to: Table)
    requires Harmless(w, s, to)
    ensures Legal(w, s, Foreign(to))
  {
  }

  /** What an event other than a commit or a resume leaves of the walk's variables. */
  lemma StepFacts(w: Intent, start: Position, s: State, e: Event)
    requires !e.Commit? && !e.Resume?
    ensures var t := Step(w, start, s, e);
            && t.data == (if e.Foreign? then e.to else s.data) && t.saved == s.saved && t.upto == s.upto
            && t.at == (if e.Batch? then e.next else s.at)
            && t.rowsDone == s.rowsDone + (if e.Batch? then |e.keys| else 0)
            && t.pending == (if e.Batch? then s.pending + e.keys else if e.Cancel? || e.Crash? then {} else s.pending)
            && t.running == (s.running && !e.Crash?) && t.done == (s.done || e.Finish?)
            && t.changed == s.changed && (!e.Cancel? ==> t.lost == s.lost)
  {
    hide Less, Rewrite, SavedOf, ResumeAt;
  }

  lemma CommitIsLegal(w: Intent, s: State)
    requires s.running
    ensures Legal(w, s, Commit)
  {
  }

  lemma CommitCounts(w: Intent, start: Position, s: State, txns: seq<Txn>)
    ensures s.running && TakenOnce(s) && Kept(txns) == |s.changed| ==>
              Kept(txns + [Committed(|s.pending|)]) == |Step(w, start, s, Commit).changed|
    ensures Dropped(txns + [Committed(|s.pending|)]) == Dropped(txns) && Step(w, start, s, Commit).lost == s.lost
  {
    hide Less, Rewrite, SavedOf;
    SumsNext(txns, Committed(|s.pending|));
    assert s.changed !! s.pending ==> |s.changed + s.pending| == |s.changed| + |s.pending|;
  }

  lemma CancelCounts(w: Intent, start: Position, s: State, txns: seq<Txn>)
    ensures s.running && TakenOnce(s) && Dropped(txns) == |s.lost| ==>
              Dropped(txns + [Undone(|s.pending|)]) == |Step(w, start, s, Cancel).lost|
    ensures Kept(txns + [Undone(|s.pending|)]) == Kept(txns) && Step(w, start, s, Cancel).changed == s.changed
  {
    hide Less, Rewrite, SavedOf;
    SumsNext(txns, Undone(|s.pending|));
    assert s.lost !! s.pending ==> |s.lost + s.pending| == |s.lost| + |s.pending|;
  }

  lemma PoliteIsHarmless(w: Intent, others: Writer, n: nat, s: State)
    requires Polite(w, others)
    ensures Harmless(w, s, others(n, s.data, s.pending))
  {
  }

  lemma LeftShrinks(w: Intent, start: Position, s: State, to: Table)
    requires Harmless(w, s, to)
    ensures Left(w, Step(w, start, s, Foreign(to))) <= Left(w, s)
    ensures |Left(w, Step(w, start, s, Foreign(to)))| <= |Left(w, s)|
  {
    hide Less;
    var t := Step(w, start, s, Foreign(to));
    forall k | k in Left(w, t) ensures k in Left(w, s) {
      if k in s.pending {
        assert k in to && to[k] == s.data[k];
      } else {
        assert Matches(w, to, k);
      }
    }
    SubsetSize(Left(w, t), Left(w, s));
  }

  lemma SubsetSize(a: set<Key>, b: set<Key>)
    requires a <= b
    ensures |a| <= |b|
  {
    assert b == a + (b - a);
  }

  lemma SameIsNone(others: Writer, n: nat, t: Table, p: set<Key>)
    ensures NoOthers(others) ==> others(n, t, p) == t
  {
  }

  lemma FewerGroups(w: Intent, others: Writer, calm: nat, n: nat, start: Position, s: State, c: Cursor, grouped: bool)
    requires Polite(w, others) && (if grouped then KeepsGroups(others, calm) && c.ByGroupAt? else c.Flat?)
    ensures var to := others(n, s.data, s.pending);
            && (n >= calm ==> GroupsAhead(View(w, Step(w, start, s, Foreign(to))), c) <= GroupsAhead(View(w, s), c))
            && (grouped && Paired(s.data) ==> Paired(to))
  {
    hide Less, Matches;
    if grouped && n >= calm {
      var to := others(n, s.data, s.pending);
      var before, after := View(w, s), Rewrite(w, to, s.pending);
      forall k | k in after && k != [] ensures exists x :: x in before && x != [] && x[0] == k[0] {
        if k in s.pending {
          assert k in s.data && k in before;
        } else {
          assert HasGroup(s.data, s.pending, k[0]);
          var x :| x in s.data && x !in s.pending && x != [] && x[0] == k[0];
          assert x in before;
        }
      }
      GroupsSubset(before, after, c.group);
    }
  }

  lemma GroupsSubset(before: Table, after: Table, c: GroupCursor)
    requires forall k :: k in after && k != [] ==> exists x :: x in before && x != [] && x[0] == k[0]
    ensures GroupsAfter(after, c) <= GroupsAfter(before, c)
  {
  }
}

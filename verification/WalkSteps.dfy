/** From the rows of a walk to the record of its step: what the walk tells its step is true
    of what it did to the table, so what the record says of a walk can be read off the
    table. */
module WalkSteps {
  import opened Options
  import opened Order
  import opened Scripts
  import opened Walk
  import opened WalkLaws
  import WalkWitnesses
  import Backfill
  import StepRunner
  import Executors
  import ExecutorWitnesses

  /** How the step sees the end of a walk whose process still lives. */
  function EndOf(end: Backfill.End, holds: bool): (r: StepRunner.WalkEnd)
    requires !end.Killed?
  {
    match end
    case Finished => StepRunner.Finished(holds)
    case Stopped(atGate) => if atGate then StepRunner.StopAtGate else StepRunner.StopBetween
    case Unreadable => StepRunner.Broke
    case Broke => StepRunner.Broke
    case GaveUp => StepRunner.GaveUp
    case CommitLost(applied, rows) => StepRunner.CommitLost(applied, rows)
  }

  /** A commit whose reply was lost is the walk's end and not one of its transactions. */
  function Before(txns: seq<Txn>, end: Backfill.End): (r: seq<Txn>) {
    if end.CommitLost? && end.applied && txns != [] then txns[..|txns| - 1] else txns
  }

  function AnswerOf(txns: seq<Txn>, end: Backfill.End, holds: bool): (a: StepRunner.Outside)
    requires !end.Killed?
  {
    ExecutorWitnesses.Answer(Before(txns, end), EndOf(end, holds), [])
  }

  /** The transactions of a walk are those of a job at `s` that ended so. */
  ghost predicate Tells(s: State, txns: seq<Txn>, end: Backfill.End) {
    && Kept(txns) == |s.changed| && Dropped(txns) == |s.lost|
    && (end.CommitLost? && end.applied ==> txns != [] && txns[|txns| - 1] == Committed(end.rows))
  }

  /** The answer has effects exactly where rows were changed and kept, and is whole exactly
      where the walk came to its end and its cancels passed over nothing. */
  lemma AnswerTells(s: State, txns: seq<Txn>, end: Backfill.End, holds: bool)
    requires !end.Killed? && Tells(s, txns, end)
    ensures var a := AnswerOf(txns, end, holds);
            && (StepRunner.Good(StepRunner.OwnKind.Walk, a) <==> end.Finished? && holds)
            && (StepRunner.Touches(StepRunner.OwnKind.Walk, a) <==> s.changed != {})
            && (StepRunner.Whole(StepRunner.OwnKind.Walk, a) <==> end.Finished? && s.lost == {})
  {
    var front := Before(txns, end);
    KeepsExactly(front);
    LosesExactly(front);
    if end.CommitLost? && end.applied {
      assert txns == front + [Committed(end.rows)];
      SumsNext(front, Committed(end.rows));
    }
  }

  /** Alone on the table, with a change that settles: the answer of a walk at its end is
      whole exactly where no row above its start is left. */
  lemma WholeMeansNoneLeft(w: Intent, s: State, txns: seq<Txn>, holds: bool)
    requires Settles(w) && Accounted(w, s) && s.running && s.done && s.pending == {}
    requires Tells(s, txns, Backfill.Finished)
    ensures StepRunner.Whole(StepRunner.OwnKind.Walk, AnswerOf(txns, Backfill.Finished, holds)) <==>
            forall k :: Above(s.base, k) ==> !Matches(w, s.data, k)
  {
    AnswerTells(s, txns, Backfill.Finished, holds);
    hide *;
    forall k { WhatRemains(w, s, k); }
    FinishedJob(w, s);
    forall k | k in s.lost ensures Above(s.base, k) && Matches(w, s.data, k) {
      assert k in s.changed + s.lost;
    }
    if s.lost != {} {
      var k :| k in s.lost;
    }
  }

  /** A walk run to its end and the step that ran it. With nobody else writing, the step
      reads "succeeded" where its checks held, and it is whole if and only if no matching
      row above the walk's start is left, that is, if and only if every cancel of its own
      batches hit the first batch of a transaction. */
  method RunWalkStep(job: Backfill.Job, env: nat -> Backfill.Tick, others: Backfill.Writer, ghost calm: nat,
                     step: StepRunner.PlanStep, holds: bool)
    returns (end: Backfill.End, run: Option<Executors.Executor>)
    requires job.Valid() && job.AtRest() && job.st.running && !job.st.done
    requires job.Scripted() && Accounted(job.w, job.st) && job.log == [] && job.st.lost == {}
    requires forall n :: n >= calm ==> !env(n).cancelled
    requires Backfill.Polite(job.w, others) && (job.shape.ByGroup? ==> Backfill.KeepsGroups(others, calm))
    requires step.action == StepRunner.Apply && step.cls == StepRunner.OwnPerBatch
    modifies job
    ensures run.None? <==> end.Killed?
    ensures run.Some? ==>
              var x := run.value;
              && (StepRunner.Says(x.record, step.ordinal) <==> end.Finished? && holds)
              && (StepRunner.OwnTouched(x.uses, x.env, step.ordinal) <==> job.st.changed != {})
              && (StepRunner.OwnWhole(x.uses, x.env, step.ordinal) <==> end.Finished? && job.st.lost == {})
    ensures end.Finished? && Settles(job.w) && Backfill.NoOthers(others) ==>
              && (job.st.lost == {} <==> forall k :: Above(job.st.base, k) ==> !Matches(job.w, job.st.data, k))
              && (job.st.lost == {} <==> GentleCancels(job.w, job.start, job.born, job.log))
  {
    JustBorn(job);
    hide *;
    var looked;
    end, looked := job.RunBackfill(env, others, calm);
    WalkTells(job, end);
    if end.Finished? {
      LostIsCancelled(job);
      if Settles(job.w) && Backfill.NoOthers(others) {
        NoneLeft(job);
      }
    }
    if end.Killed? {
      return end, None;
    }
    var a := AnswerOf(job.txns, end, holds);
    AnswerTells(job.st, job.txns, end, holds);
    var x := ExecutorWitnesses.RunAlone(step, a);
    WalkReadOff(x, step, job.txns, end, holds);
    run := Some(x);
  }

  lemma WalkTells(job: Backfill.Job, end: Backfill.End)
    requires job.Scripted() && job.Leaves(end)
    ensures Tells(job.st, job.txns, end)
  {
  }

  lemma JustBorn(job: Backfill.Job)
    requires job.Valid() && job.log == []
    ensures job.born == job.st
  {
  }

  lemma LostIsCancelled(job: Backfill.Job)
    requires job.Valid() && job.NoResumeSince(0) && job.born.lost == {}
    ensures job.st.lost == {} <==> GentleCancels(job.w, job.start, job.born, job.log)
  {
    hide Run, LegalRun, GentleCancels;
    LostExactly(job.w, job.start, job.born, job.log);
  }

  lemma NoneLeft(job: Backfill.Job)
    requires job.Valid() && !job.inTransaction && Settles(job.w) && Accounted(job.w, job.st) && job.st.running && job.st.done
    ensures job.st.lost == {} <==> forall k :: Above(job.st.base, k) ==> !Matches(job.w, job.st.data, k)
  {
    var w, s := job.w, job.st;
    assert s.pending == {};
    hide *;
    forall k { WhatRemains(w, s, k); }
    FinishedJob(w, s);
    forall k | k in s.lost ensures Above(s.base, k) && Matches(w, s.data, k) {
      assert k in s.changed + s.lost;
    }
    if s.lost != {} {
      var k :| k in s.lost;
    }
  }

  lemma WalkReadOff(x: Executors.Executor, step: StepRunner.PlanStep, txns: seq<Txn>, end: Backfill.End, holds: bool)
    requires !end.Killed? && ExecutorWitnesses.RanAlone(x, step, AnswerOf(txns, end, holds))
    requires step.cls == StepRunner.OwnPerBatch
    ensures var a := AnswerOf(txns, end, holds);
            && (StepRunner.Says(x.record, step.ordinal) <==> StepRunner.Good(StepRunner.OwnKind.Walk, a))
            && (StepRunner.OwnTouched(x.uses, x.env, step.ordinal) <==> StepRunner.Touches(StepRunner.OwnKind.Walk, a))
            && (StepRunner.OwnWhole(x.uses, x.env, step.ordinal) <==> StepRunner.Whole(StepRunner.OwnKind.Walk, a))
  {
    hide ExecutorWitnesses.RanAlone;
    ExecutorWitnesses.ReadOff(x, step, AnswerOf(txns, end, holds));
  }

  /** The run that loses a row to a cancel in mid-transaction, and its step: the record says
      it succeeded, it is not whole, and the row is not written. */
  method LosingWalkSucceeds(step: StepRunner.PlanStep) returns (x: Executors.Executor)
    requires step.action == StepRunner.Apply && step.cls == StepRunner.OwnPerBatch
    ensures var w, start := WalkWitnesses.Fill(), WalkWitnesses.START;
            var s := Run(w, start, Fresh(WalkWitnesses.TwoRows()), WalkWitnesses.LosingRun());
            && LegalRun(w, start, Fresh(WalkWitnesses.TwoRows()), WalkWitnesses.LosingRun())
            && Tells(s, [Undone(1), Committed(1)], Backfill.Finished)
            && s.done && s.pending == {} && Matches(w, s.data, [1])
    ensures StepRunner.Says(x.record, step.ordinal)
    ensures !StepRunner.OwnWhole(x.uses, x.env, step.ordinal)
  {
    WalkWitnesses.CancelMidTransactionLosesRows();
    ghost var s := Run(WalkWitnesses.Fill(), WalkWitnesses.START, Fresh(WalkWitnesses.TwoRows()), WalkWitnesses.LosingRun());
    TwoTransactions();
    hide Run, LegalRun, WalkWitnesses.Fill, WalkWitnesses.LosingRun, Kept, Dropped;
    AnswerTells(s, [Undone(1), Committed(1)], Backfill.Finished, true);
    x := ExecutorWitnesses.RunAlone(step, AnswerOf([Undone(1), Committed(1)], Backfill.Finished, true));
    hide *;
    WalkReadOff(x, step, [Undone(1), Committed(1)], Backfill.Finished, true);
  }

  lemma TwoTransactions()
    ensures Kept([Undone(1), Committed(1)]) == 1 && Dropped([Undone(1), Committed(1)]) == 1
  {
    var one: seq<Txn> := [Undone(1)];
    assert [] + [Undone(1)] == one && one + [Committed(1)] == [Undone(1), Committed(1)];
    SumsNext([], Undone(1));
    SumsNext(one, Committed(1));
  }
}

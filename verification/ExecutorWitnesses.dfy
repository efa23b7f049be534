/** Jobs whose record says less, or more, than the server kept. */
module ExecutorWitnesses {
  import opened Scripts
  import opened StepRunner
  import opened Executors

  /** What `Run` promises of a job of one own-transaction step, given one answer however
      often it asks. */
  ghost predicate RanAlone(job: Executor, step: PlanStep, a: Outside)
    reads job
  {
    && job.plan == [step] && (forall n :: job.env(n) == a) && |job.uses| == job.asked
    && (forall n :: 0 <= n < |job.uses| ==> FromPlan(job.plan, job.uses[n]))
    && (job.state != JobSucceeded ==> job.Faulty())
    && (job.state == JobSucceeded ==> Says(job.record, step.ordinal))
    && (forall n: nat, o :: OwnRunAt(job.uses, n, o) ==> (Says(job.record, o) <==> Good(job.uses[n].kind, job.env(n))))
    && (forall o :: Says(job.record, o) ==> o in GroupKept(job.uses, job.env) || OwnRan(job.uses, o))
    && ((forall o :: OwnRan(job.uses, o) && Says(job.record, o) ==> OwnWhole(job.uses, job.env, o))
        <==> !exists n: nat :: HollowAt(job.uses, job.env, n))
    && (forall o :: OwnTouched(job.uses, job.env, o) && !Says(job.record, o) <==>
          exists n: nat :: OwnRunAt(job.uses, n, o) && LeavesPart(job.uses[n].kind, job.env(n)))
  }

  method RunAlone(step: PlanStep, a: Outside) returns (job: Executor)
    requires step.action == Apply
    ensures RanAlone(job, step, a)
  {
    job := new Executor([step], 0, n => a);
    job.Run();
    assert job.plan[0] == step;
  }

  /** Whatever step with transactions of its own, and whatever answer that leaves part of
      it: the job runs, the server keeps some of the step, and the record does not say it
      succeeded, with no commit's reply lost to a group. */
  method LeavesPartOf(step: PlanStep, a: Outside) returns (job: Executor)
    requires step.action == Apply && !InItsGroup(step) && LeavesPart(OwnKindOf(step), a)
    requires !a.cancel && a.commit == Acknowledged
    ensures job.plan == [step] && job.state != JobSucceeded
    ensures OwnTouched(job.uses, job.env, step.ordinal) && !Says(job.record, step.ordinal)
    ensures !exists n: nat :: LostCommit(job.uses, job.env, n)
  {
    job := RunAlone(step, a);
    var n := Reached(job, step, a);
    assert LeavesPart(job.uses[n].kind, job.env(n));
  }

  /** Whatever such step, and whatever good answer that is hollow: the job runs and says the
      step succeeded, and it is not whole. */
  method SucceedsHollow(step: PlanStep, a: Outside) returns (job: Executor)
    requires step.action == Apply && !InItsGroup(step) && Good(OwnKindOf(step), a) && Hollow(OwnKindOf(step), a)
    requires !a.cancel && a.commit == Acknowledged
    ensures job.plan == [step] && job.state == JobSucceeded
    ensures Says(job.record, step.ordinal) && OwnRan(job.uses, step.ordinal)
    ensures !OwnWhole(job.uses, job.env, step.ordinal)
  {
    job := RunAlone(step, a);
    NoFault(job, step, a);
    var n := Reached(job, step, a);
    assert HollowAt(job.uses, job.env, n);
    NoneIsWhole(job, step, a);
  }

  lemma NoFault(job: Executor, step: PlanStep, a: Outside)
    requires RanAlone(job, step, a) && !InItsGroup(step) && Good(OwnKindOf(step), a) && !a.cancel && a.commit == Acknowledged
    ensures job.state == JobSucceeded
  {
    hide Good;
    forall n | 0 <= n < |job.uses| ensures !BadAnswer(job.uses[n], job.env(n)) {
      assert FromPlan(job.plan, job.uses[n]);
    }
  }

  lemma NoneIsWhole(job: Executor, step: PlanStep, a: Outside)
    requires RanAlone(job, step, a) && !InItsGroup(step) && Good(OwnKindOf(step), a) && Hollow(OwnKindOf(step), a)
    ensures !OwnWhole(job.uses, job.env, step.ordinal)
  {
    GoodIsWholeExactly(OwnKindOf(step), a);
    hide Good, Hollow, Whole;
    forall n: nat | OwnRunAt(job.uses, n, step.ordinal) ensures !Whole(job.uses[n].kind, job.env(n)) {
      assert FromPlan(job.plan, job.uses[n]);
    }
  }

  /** The record and the server, read off the one answer. */
  lemma ReadOff(job: Executor, step: PlanStep, a: Outside)
    requires RanAlone(job, step, a) && !InItsGroup(step) && !a.cancel && a.commit == Acknowledged
    ensures Says(job.record, step.ordinal) <==> Good(OwnKindOf(step), a)
    ensures OwnTouched(job.uses, job.env, step.ordinal) <==> Touches(OwnKindOf(step), a)
    ensures OwnWhole(job.uses, job.env, step.ordinal) <==> Whole(OwnKindOf(step), a)
  {
    var n := Reached(job, step, a);
    hide Good, Whole, Touches;
    forall m: nat | OwnRunAt(job.uses, m, step.ordinal) ensures job.uses[m].kind == OwnKindOf(step) {
      assert FromPlan(job.plan, job.uses[m]);
    }
  }

  /** The step was run: otherwise nothing could have gone wrong, nor been said. */
  lemma Reached(job: Executor, step: PlanStep, a: Outside) returns (n: nat)
    requires RanAlone(job, step, a) && !InItsGroup(step) && !a.cancel && a.commit == Acknowledged
    ensures OwnRunAt(job.uses, n, step.ordinal) && job.uses[n].kind == OwnKindOf(step)
  {
    assert exists m: nat :: OwnRunAt(job.uses, m, step.ordinal) by {
      if job.state == JobSucceeded {
        assert step.ordinal !in GroupKept(job.uses, job.env);
      } else {
        assert !job.Mixed();
        var m: nat :| m < |job.uses| && BadAnswer(job.uses[m], job.env(m));
        assert OwnRunAt(job.uses, m, step.ordinal);
      }
    }
    n :| OwnRunAt(job.uses, n, step.ordinal);
    assert FromPlan(job.plan, job.uses[n]);
  }

  function Answer(txns: seq<Txn>, end: WalkEnd, statements: seq<StatementReply>): (a: Outside) {
    Outside(Ok, Acknowledged, false, 0, false, txns, end, statements)
  }

  /** Four answers that leave part: every batch committed and then the completeness check
      failing; a batch failing after one was committed; the second of two statements
      failing; and one statement applied whose end was not told. */
  lemma FourWays()
    ensures LeavesPart(Walk, Answer([Committed(3)], Finished(false), []))
    ensures Whole(Walk, Answer([Committed(3)], Finished(false), []))
    ensures LeavesPart(Walk, Answer([Committed(3)], Broke, []))
    ensures LeavesPart(Build(2), Answer([], Broke, [Done(true), Refused(false, true)]))
    ensures LeavesPart(Build(1), Answer([], Broke, [Refused(true, false)]))
  {
    var a := Answer([Committed(3)], Finished(false), []);
    assert a.txns[0].Committed? && a.txns[0].rows > 0;
    var b := Answer([Committed(3)], Broke, []);
    assert b.txns[0].Committed? && b.txns[0].rows > 0;
    var c := Answer([], Broke, [Done(true), Refused(false, true)]);
    assert Applied(c, 0) == 0 && Applied(c, 1) == 1 && Applied(c, 2) == 1;
    assert ReplyAt(c, 1).Refused?;
    var d := Answer([], Broke, [Refused(true, false)]);
    assert Applied(d, 0) == 0 && Applied(d, 1) == 1;
    assert ReplyAt(d, 0).Refused?;
  }

  /** Two good answers that are hollow: a batch rolled back with the one its transaction was
      cancelled in, and a concurrent build that returns and leaves an invalid index. */
  lemma TwoHollow()
    ensures Good(Walk, Answer([Undone(1), Committed(1)], Finished(true), []))
    ensures Hollow(Walk, Answer([Undone(1), Committed(1)], Finished(true), []))
    ensures Good(Build(1), Answer([], Broke, [Done(false)]))
    ensures Hollow(Build(1), Answer([], Broke, [Done(false)]))
  {
    var a := Answer([Undone(1), Committed(1)], Finished(true), []);
    assert a.txns[0].Undone? && a.txns[0].lost > 0;
    assert ReplyAt(Answer([], Broke, [Done(false)]), 0) == Done(false);
  }
}

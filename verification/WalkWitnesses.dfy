/** Runs of the machine outside the conditions the laws ask for. */
module WalkWitnesses {
  import opened Options
  import opened Order
  import opened Walk
  import Settling

  const START := At([0])

  function Filled(v: Option<int>): Row {
    map["v" := v]
  }

  /** Fill column "v" where it is NULL: a change that settles. */
  function Fill(): Intent {
    Intent((r: Row) => "v" in r && r["v"].None?, Assign((r: Row) => if "v" in r then r["v" := Some(1)] else r, {"v"}))
  }

  /** Count column "v" up wherever it is set: a change that does not settle. */
  function CountUp(): Intent {
    Intent((r: Row) => "v" in r && r["v"].Some?,
           Assign((r: Row) => if "v" in r && r["v"].Some? then r["v" := Some(r["v"].value + 1)] else r, {"v"}))
  }

  function TwoRows(): Table {
    map[[1] := Filled(None), [2] := Filled(None)]
  }

  /** A batch takes row 1, the next is cancelled and the transaction rolled back,
      and the walk goes on from row 1. */
  function LosingRun(): seq<Event> {
    [Resume(None, None), Batch({[1]}, At([1])), Cancel, Batch({[2]}, At([2])), Finish, Commit]
  }

  lemma LosingPrefix()
    ensures var es := [Resume(None, None), Batch({[1]}, At([1])), Cancel];
            && LegalRun(Fill(), START, Fresh(TwoRows()), es)
            && var s := Run(Fill(), START, Fresh(TwoRows()), es);
               && s.running && !s.done && s.at == At([1]) && s.pending == {} && s.data == TwoRows()
               && s.upto.None? && s.lost == {[1]} && s.changed == {}
  {
    var w, s0 := Fill(), Fresh(TwoRows());
    var s1 := Step(w, START, s0, Resume(None, None));
    RunExtend(w, START, s0, [], Resume(None, None));
    assert [] + [Resume(None, None)] == [Resume(None, None)];
    assert Legal(w, s1, Batch({[1]}, At([1]))) by {
      assert View(w, s1) == TwoRows();
      assert Less([0], [1]) && !Less([1], [1]) && Less([1], [2]);
      assert forall k :: k in {[1]} <==> Matches(w, TwoRows(), k) && Between(START, k, At([1]));
    }
    RunExtend(w, START, s0, [Resume(None, None)], Batch({[1]}, At([1])));
    var es2 := [Resume(None, None), Batch({[1]}, At([1]))];
    assert [Resume(None, None)] + [Batch({[1]}, At([1]))] == es2;
    RunExtend(w, START, s0, es2, Cancel);
    assert es2 + [Cancel] == [Resume(None, None), Batch({[1]}, At([1])), Cancel];
  }

  lemma SecondBatch(s: State)
    requires s.running && !s.done && s.at == At([1]) && s.pending == {} && s.data == TwoRows() && s.upto.None?
    ensures Legal(Fill(), s, Batch({[2]}, At([2])))
  {
    assert Less([1], [2]) && !Less([1], [1]) && !Less([2], [2]);
    assert View(Fill(), s) == TwoRows();
    hide Less;
  }

  lemma LosingRest(s: State)
    requires s.running && !s.done && s.at == At([1]) && s.pending == {} && s.data == TwoRows() && s.upto.None?
    ensures Legal(Fill(), s, Batch({[2]}, At([2])))
    ensures var t := Step(Fill(), START, s, Batch({[2]}, At([2])));
            && Legal(Fill(), t, Finish)
            && Matches(Fill(), View(Fill(), t), [1])
  {
    SecondBatch(s);
    assert !Less([2], [1]) && !Less([2], [2]);
    hide Less, IsCut;
    var w := Fill();
    var t := Step(w, START, s, Batch({[2]}, At([2])));
    assert t.pending == {[2]};
    assert View(w, t)[[1]] == Filled(None);
  }

  /** The job finishes, its committed cursor is the last key, and a row behind
      that cursor was never written. */
  lemma CancelMidTransactionLosesRows()
    ensures LegalRun(Fill(), START, Fresh(TwoRows()), LosingRun())
    ensures var s := Run(Fill(), START, Fresh(TwoRows()), LosingRun());
            && s.done && s.pending == {} && s.saved == Some(At([2]))
            && Matches(Fill(), s.data, [1]) && Between(START, [1], At([2]))
            && s.lost == {[1]} && s.changed == {[2]}
  {
    hide Run, LegalRun, Rewrite, Fill, IsCut, NothingAbove;
    var w, s0 := Fill(), Fresh(TwoRows());
    LosingPrefix();
    var es3, b := [Resume(None, None), Batch({[1]}, At([1])), Cancel], Batch({[2]}, At([2]));
    LosingRest(Run(w, START, s0, es3));
    RunExtend(w, START, s0, es3, b);
    RunExtend(w, START, s0, es3 + [b], Finish);
    RunExtend(w, START, s0, es3 + [b] + [Finish], Commit);
    assert es3 + [b] + [Finish] + [Commit] == LosingRun();
    assert Less([0], [1]) && !Less([2], [1]);
  }

  /** With a change that does not settle: one job changes the row and crashes after its
      commit, the next is offered that cursor, rejects it, and changes and saves the row
      again. */
  lemma UnsettledChangeIsRepeated()
    ensures var es := [Resume(None, None), Batch({[1]}, At([1])), Commit, Crash,
                       Resume(Some(At([1])), None), Batch({[1]}, At([1])), Commit];
            var s := Run(CountUp(), START, Fresh(map[[1] := Filled(Some(5))]), es);
            && LegalRun(CountUp(), START, Fresh(map[[1] := Filled(Some(5))]), es)
            && s.data == map[[1] := Filled(Some(7))]
            && s.image == multiset{Saved([1], Filled(Some(5))), Saved([1], Filled(Some(6)))}
  {
    CountsUp();
    TwoJobs();
    hide Run, LegalRun, Settling.SecondJob, CountUp, Keep;
    Settling.SecondJobRuns(CountUp(), START, Filled(Some(5)));
  }

  lemma CountsUp()
    ensures var w := CountUp();
            && w.act.Assign? && w.matches(Filled(Some(5))) && w.matches(Filled(Some(6)))
            && w.act.to(Filled(Some(5))) == Filled(Some(6)) && w.act.to(Filled(Some(6))) == Filled(Some(7))
            && Keep(w, Filled(Some(5))) == Filled(Some(5)) && Keep(w, Filled(Some(6))) == Filled(Some(6))
  {
  }

  lemma TwoJobs()
    ensures Settling.KeyAbove(START) == [1]
    ensures Settling.SecondJob(START) ==
            [Resume(None, None), Batch({[1]}, At([1])), Commit, Crash,
             Resume(Some(At([1])), None), Batch({[1]}, At([1])), Commit]
  {
  }
}

/** A delete whose pre-images cannot simply be put back. */
module DeleteWitnesses {
  import opened Options
  import opened Order
  import opened Walk
  import opened Deletes

  const START := At([0])

  function Aged(v: int): (r: Row) {
    map["v" := Some(v)]
  }

  function Old(): (p: Filter) {
    (r: Row) => r == Aged(0)
  }

  const OldLine := Line([1], Aged(0))
  const NewLine := Line([1], Aged(1))

  function Shared(): (h: Heap) {
    multiset{OldLine, NewLine}
  }

  ghost function ThreeEvents(): (es: seq<HEvent>) {
    [Own(Resume(None, None)), Own(Batch({[1]}, At([1]))), Own(Commit)]
  }

  lemma Different()
    ensures OldLine != NewLine && Old()(OldLine.row) && !Old()(NewLine.row)
  {
    assert Aged(0)["v"] != Aged(1)["v"];
  }

  lemma OneKey(k: Key)
    ensures MatchAt(Old(), Shared(), k) <==> k == [1]
  {
    Different();
    if k == [1] { assert OldLine in Shared(); }
  }

  lemma TakesKeyOne(x: HState)
    requires x.s.running && !x.s.done && x.s.at == START && x.s.pending == {} && x.heap == Shared()
    ensures HLegal(Old(), x, Own(Batch({[1]}, At([1]))))
  {
    assert Less([0], [1]) && !Less([1], [1]) && !Less([1], [0]);
    DeletedNone(Old(), Shared());
    hide Less, Deleted, MatchAt, Old;
    forall k ensures k in {[1]} <==> MatchAt(Old(), Shared(), k) && Between(START, k, At([1])) {
      OneKey(k);
    }
  }

  /** An old line and a new one share key 1, and the old ones are deleted. Both are saved,
      one is removed, and putting both back leaves the new one twice. */
  lemma SharedKeyIsSavedWhole()
    ensures HLegalRun(Old(), START, HFresh(Old(), Shared()), ThreeEvents())
    ensures var x := HRun(Old(), START, HFresh(Old(), Shared()), ThreeEvents());
            && x.s.ever == {[1]} && x.heap == multiset{NewLine} && x.image == Shared()
            && PutBack(x.heap, x.image) == multiset{OldLine, NewLine, NewLine}
            && PutBack(x.heap, x.image) != Shared()
  {
    var p, x0 := Old(), HFresh(Old(), Shared());
    Different();
    hide HLegalRun, HRun, ByKey, Deleted, Captured, MatchAt, HeapCut, Less, Old;
    var e1, e2, e3 := Own(Resume(None, None)), Own(Batch({[1]}, At([1]))), Own(Commit);
    assert HLegalRun(p, START, x0, []) && HRun(p, START, x0, []) == x0 by { Nothing(x0); }
    HRunExtend(p, START, x0, [], e1);
    var x1 := HStep(p, START, x0, e1);
    TakesKeyOne(x1);
    HRunExtend(p, START, x0, [] + [e1], e2);
    HRunExtend(p, START, x0, [] + [e1] + [e2], e3);
    assert [] + [e1] + [e2] + [e3] == ThreeEvents();
    TheLines();
  }

  lemma Nothing(x: HState)
    ensures HLegalRun(Old(), START, x, []) && HRun(Old(), START, x, []) == x
  {
  }

  lemma TheLines()
    ensures Deleted(Old(), Shared(), {[1]}) == multiset{NewLine}
    ensures Captured(Shared(), {[1]}) == Shared()
    ensures multiset{NewLine} + Shared() == multiset{OldLine, NewLine, NewLine} != Shared()
  {
    Different();
    hide Deleted, Captured, Old;
    assert multiset{OldLine, NewLine, NewLine}[NewLine] == 2 && Shared()[NewLine] == 1;
  }
}

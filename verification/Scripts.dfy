/** The transactions of a walk, as its step sees them. */
module Scripts {

  /** Committed with so many rows changed; or rolled back by the tool's own cancel, with so
      many rows of its earlier batches that the walk has passed and will not come back to.
      The one statement that may go ahead of a walk is such a transaction too. */
  datatype Txn = Committed(rows: nat) | Undone(lost: nat)

  function Kept(txns: seq<Txn>): (n: nat) {
    if txns == [] then 0
    else Kept(txns[..|txns| - 1]) + if txns[|txns| - 1].Committed? then txns[|txns| - 1].rows else 0
  }

  function Dropped(txns: seq<Txn>): (n: nat) {
    if txns == [] then 0
    else Dropped(txns[..|txns| - 1]) + if txns[|txns| - 1].Undone? then txns[|txns| - 1].lost else 0
  }

  /** Some transaction kept a row, or lost one. */
  ghost predicate Keeps(txns: seq<Txn>) {
    exists j :: 0 <= j < |txns| && txns[j].Committed? && txns[j].rows > 0
  }

  ghost predicate Loses(txns: seq<Txn>) {
    exists j :: 0 <= j < |txns| && txns[j].Undone? && txns[j].lost > 0
  }

  lemma SumsNext(txns: seq<Txn>, x: Txn)
    ensures Kept(txns + [x]) == Kept(txns) + if x.Committed? then x.rows else 0
    ensures Dropped(txns + [x]) == Dropped(txns) + if x.Undone? then x.lost else 0
  {
    assert (txns + [x])[..|txns + [x]| - 1] == txns;
  }

  lemma {:induction false} KeepsExactly(txns: seq<Txn>)
    ensures Keeps(txns) <==> Kept(txns) > 0
  {
    if txns != [] {
      var n := |txns| - 1;
      var front := txns[..n];
      KeepsExactly(front);
      if j :| 0 <= j < |front| && front[j].Committed? && front[j].rows > 0 {
        assert txns[j] == front[j];
      }
      if j :| 0 <= j < |txns| && txns[j].Committed? && txns[j].rows > 0 {
        assert j < n ==> front[j] == txns[j];
      }
    }
  }

  lemma {:induction false} LosesExactly(txns: seq<Txn>)
    ensures Loses(txns) <==> Dropped(txns) > 0
  {
    if txns != [] {
      var n := |txns| - 1;
      var front := txns[..n];
      LosesExactly(front);
      if j :| 0 <= j < |front| && front[j].Undone? && front[j].lost > 0 {
        assert txns[j] == front[j];
      }
      if j :| 0 <= j < |txns| && txns[j].Undone? && txns[j].lost > 0 {
        assert j < n ==> front[j] == txns[j];
      }
    }
  }
}

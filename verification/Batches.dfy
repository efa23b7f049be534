/** One batch of each shape of walk, proved to obey the machine's law. */
module Batches {
  import opened Options
  import opened Order
  import opened Walk

  datatype Outcome = Outcome(keys: seq<Key>, next: Position)

  function Eligible(w: Intent, t: Table, lo: Position, upto: Option<Key>): set<Key> {
    set k | k in t && w.matches(t[k]) && Above(lo, k) && Within(upto, k)
  }

  function Take(s: seq<Key>, limit: nat): seq<Key> {
    if |s| <= limit then s else s[..limit]
  }

  /** SELECT key ... WHERE key > $1 AND key <= bound AND predicate ORDER BY key LIMIT n. */
  function Select(w: Intent, t: Table, lo: Position, limit: nat, upto: Option<Key>): seq<Key> {
    Take(Sorted(Eligible(w, t, lo, upto)), limit)
  }

  function Bytes(size: Key -> nat, s: seq<Key>): nat {
    if s == [] then 0 else Bytes(size, s[..|s| - 1]) + size(s[|s| - 1])
  }

  /** The byte budget: stop between keys, never at none. The keys taken are the
      longest prefix of the selection that fits, or its first key alone. */
  method CutByBytes(sel: seq<Key>, size: Key -> nat, budget: int) returns (keys: seq<Key>)
    ensures keys <= sel
    ensures sel != [] ==> keys != []
    ensures |keys| > 1 ==> Bytes(size, keys) <= budget
    ensures |keys| < |sel| ==> Bytes(size, sel[..|keys| + 1]) > budget
  {
    keys := [];
    var bytes := 0;
    var i := 0;
    while i < |sel|
      invariant 0 <= i <= |sel|
      invariant keys == sel[..i]
      invariant bytes == Bytes(size, keys)
      invariant |keys| > 1 ==> bytes <= budget
    {
      var v := sel[i];
      assert sel[..i + 1] == sel[..i] + [v];
      assert sel[..i + 1][..i] == sel[..i];
      assert Bytes(size, sel[..i + 1]) == Bytes(size, sel[..i]) + size(v);
      if keys != [] && bytes + size(v) > budget {
        return;
      }
      bytes := bytes + size(v);
      keys := keys + [v];
      i := i + 1;
    }
  }

  /** As many keys as the limit and the bytes allow: short of the limit only where nothing
      more is left or the next key does not fit. */
  ghost predicate Fills(all: seq<Key>, keys: seq<Key>, limit: nat, size: Key -> nat, budget: int) {
    && keys <= all && |keys| <= limit && (all != [] ==> keys != [])
    && (|keys| > 1 ==> Bytes(size, keys) <= budget)
    && (|keys| < limit && |keys| < |all| ==> Bytes(size, all[..|keys| + 1]) > budget)
  }

  lemma CutFills(all: seq<Key>, keys: seq<Key>, limit: nat, size: Key -> nat, budget: int)
    requires limit > 0
    requires var sel := Take(all, limit);
             && keys <= sel && (sel != [] ==> keys != []) && (|keys| > 1 ==> Bytes(size, keys) <= budget)
             && (|keys| < |sel| ==> Bytes(size, sel[..|keys| + 1]) > budget)
    ensures Fills(all, keys, limit, size, budget)
  {
    hide Bytes;
    if |keys| < limit && |keys| < |all| {
      assert Take(all, limit)[..|keys| + 1] == all[..|keys| + 1];
    }
  }

  /** A non-empty prefix of the eligible keys, in order, is a cut ending at its
      last key. */
  lemma PrefixIsCut(w: Intent, t: Table, lo: Position, upto: Option<Key>, keys: seq<Key>)
    requires keys <= Sorted(Eligible(w, t, lo, upto)) && keys != []
    ensures IsCut(w, t, lo, Elements(keys), At(keys[|keys| - 1]), upto)
  {
    hide Less, Sorted;
    var all := Sorted(Eligible(w, t, lo, upto));
    var n := |keys|;
    var last := keys[n - 1];
    assert keys == all[..n];
    forall k
      ensures k in Elements(keys) <==> Matches(w, t, k) && Between(lo, k, At(last)) && Within(upto, k)
    {
      PrefixCut(all, n, k);
    }
    assert last in Eligible(w, t, lo, upto);
    if lo.At? {
      LessTotal(lo.key, last);
    }
  }

  /** Conversely every cut, in order, is a prefix of the eligible keys: however a
      shape of walk finds its batches, it visits the rows of the flat walk in the
      flat walk's order. */
  lemma CutIsPrefix(w: Intent, t: Table, lo: Position, keys: seq<Key>, hi: Position, upto: Option<Key>)
    requires Increasing(keys) && IsCut(w, t, lo, Elements(keys), hi, upto)
    ensures keys <= Sorted(Eligible(w, t, lo, upto))
  {
    hide Less;
    var all := Sorted(Eligible(w, t, lo, upto));
    var rest := Sorted(Eligible(w, t, hi, upto));
    forall k
      ensures k in keys + rest <==> k in all
    {
      assert k in keys <==> k in Elements(keys);
      if Above(hi, k) { AboveMonotone(lo, hi, k); }
    }
    forall i, j | 0 <= i < |keys| && 0 <= j < |rest|
      ensures Less(keys[i], rest[j])
    {
      assert keys[i] in Elements(keys);
      assert rest[j] in Eligible(w, t, hi, upto);
      LessTotal(keys[i], rest[j]);
      if hi.At? && keys[i] != rest[j] && Less(rest[j], keys[i]) {
        LessTransitive(hi.key, rest[j], keys[i]);
      }
    }
    IncreasingUnique(keys + rest, all);
  }

  /** One batch of the single-key walk: the next rows after the cursor, as many as the
      rows and the bytes allow, and changed; nothing else. None are taken only when none
      are left. */
  method RunPacedBatch(w: Intent, t: Table, at: Position, limit: nat, size: Key -> nat, budget: int, upto: Option<Key>)
    returns (out: Outcome)
    requires limit > 0
    ensures IsCut(w, t, at, Elements(out.keys), out.next, upto)
    ensures Increasing(out.keys) && |out.keys| <= limit
    ensures out.keys == [] <==> NothingAbove(w, t, at, upto)
    ensures out.keys == [] ==> out.next == at
    ensures Fills(Sorted(Eligible(w, t, at, upto)), out.keys, limit, size, budget)
  {
    hide *;
    var sel := Select(w, t, at, limit, upto);
    var keys := CutByBytes(sel, size, budget);
    SelectFills(w, t, at, limit, upto, keys, size, budget);
    SelectPrefix(w, t, at, limit, upto, keys);
    if keys == [] {
      return Outcome([], at);
    }
    PrefixIsCut(w, t, at, upto, keys);
    out := Outcome(keys, At(keys[|keys| - 1]));
  }

  lemma SelectFills(w: Intent, t: Table, at: Position, limit: nat, upto: Option<Key>, keys: seq<Key>, size: Key -> nat, budget: int)
    requires limit > 0
    requires var sel := Select(w, t, at, limit, upto);
             && keys <= sel && (sel != [] ==> keys != []) && (|keys| > 1 ==> Bytes(size, keys) <= budget)
             && (|keys| < |sel| ==> Bytes(size, sel[..|keys| + 1]) > budget)
    ensures Fills(Sorted(Eligible(w, t, at, upto)), keys, limit, size, budget)
  {
    hide Bytes, Sorted, Eligible, Take;
    CutFills(Sorted(Eligible(w, t, at, upto)), keys, limit, size, budget);
  }

  lemma SelectPrefix(w: Intent, t: Table, at: Position, limit: nat, upto: Option<Key>, keys: seq<Key>)
    requires limit > 0 && keys <= Select(w, t, at, limit, upto)
    requires Select(w, t, at, limit, upto) != [] ==> keys != []
    ensures keys <= Sorted(Eligible(w, t, at, upto)) && |keys| <= limit && Increasing(keys)
    ensures keys == [] <==> NothingAbove(w, t, at, upto)
    ensures keys == [] ==> IsCut(w, t, at, Elements(keys), at, upto)
  {
    hide Less, Above, Within;
    var all := Sorted(Eligible(w, t, at, upto));
    if keys == [] {
      forall k
        ensures !(Matches(w, t, k) && Above(at, k) && Within(upto, k))
      {
        assert k !in all;
      }
      Nowhere(at);
    } else {
      assert keys[0] == all[0] && all[0] in Eligible(w, t, at, upto);
      assert Matches(w, t, keys[0]) && Above(at, keys[0]) && Within(upto, keys[0]);
    }
  }

  /** One batch of the composite walk. A cursor that does not hold one value for
      each key column is refused; otherwise the batch is the single-key walk's,
      over row comparison, and it may begin before the first row. */
  method RunCompositeBatch(w: Intent, t: Table, at: Position, limit: nat, size: Key -> nat, budget: int,
                           columns: nat, upto: Option<Key>) returns (out: Option<Outcome>)
    requires limit > 0
    ensures out.None? <==> at.At? && |at.key| != columns
    ensures out.Some? ==>
              && IsCut(w, t, at, Elements(out.value.keys), out.value.next, upto)
              && Increasing(out.value.keys) && |out.value.keys| <= limit
              && (out.value.keys == [] <==> NothingAbove(w, t, at, upto))
              && (out.value.keys == [] ==> out.value.next == at)
              && Fills(Sorted(Eligible(w, t, at, upto)), out.value.keys, limit, size, budget)
  {
    hide *;
    if at.At? && |at.key| != columns {
      return None;
    }
    var batch := RunPacedBatch(w, t, at, limit, size, budget, upto);
    out := Some(batch);
  }
}

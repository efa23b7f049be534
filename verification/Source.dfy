/** The one-statement batch, over a source whose key may repeat.

    The statement finds the key the limit falls on and takes every source row up
    to and including that key. The rows come from the specification, so what the
    mutation then matches in the target plays no part in where the walk goes. */
module Source {
  import opened Options
  import opened Order

  /** The source's keys after the cursor, in the source's own order. */
  function KeysAfter(src: seq<Key>, lo: Position): seq<Key> {
    if src == [] then []
    else KeysAfter(src[..|src| - 1], lo) + (if Above(lo, src[|src| - 1]) then [src[|src| - 1]] else [])
  }

  function Insert(k: Key, s: seq<Key>): seq<Key> {
    if s == [] || Less(k, s[0]) then [k] + s else [s[0]] + Insert(k, s[1..])
  }

  /** ORDER BY key, repeats kept. */
  function SortAll(s: seq<Key>): seq<Key> {
    if s == [] then [] else Insert(s[|s| - 1], SortAll(s[..|s| - 1]))
  }

  predicate Nondecreasing(s: seq<Key>) {
    forall i, j :: 0 <= i < j < |s| ==> !Less(s[j], s[i])
  }

  lemma {:induction false} InsertSorts(k: Key, s: seq<Key>)
    requires Nondecreasing(s)
    ensures Nondecreasing(Insert(k, s)) && |Insert(k, s)| == |s| + 1
    ensures forall x :: x in Insert(k, s) <==> x == k || x in s
  {
    hide Less;
    var r := Insert(k, s);
    if s == [] || Less(k, s[0]) {
      forall j | 0 < j < |r|
        ensures !Less(r[j], k)
      {
        LessTotal(r[j], k);
        LessTotal(s[0], s[j - 1]);
        if j > 1 && Less(r[j], k) { LessTransitive(r[j], k, s[0]); }
      }
    } else {
      InsertSorts(k, s[1..]);
      assert s == [s[0]] + s[1..];
      forall j | 0 < j < |r|
        ensures !Less(r[j], s[0])
      {
        assert r[j] == k || r[j] in s[1..];
      }
    }
  }

  lemma {:induction false} SortAllSorts(s: seq<Key>)
    ensures Nondecreasing(SortAll(s)) && |SortAll(s)| == |s|
    ensures forall x :: x in SortAll(s) <==> x in s
  {
    if s != [] {
      var n := |s| - 1;
      SortAllSorts(s[..n]);
      InsertSorts(s[n], SortAll(s[..n]));
      assert s == s[..n] + [s[n]];
    }
  }

  /** How many keys of `s` lie below `u`, or at it too. */
  function Count(s: seq<Key>, u: Key, too: bool): nat {
    if s == [] then 0 else (if Counts(s[0], u, too) then 1 else 0) + Count(s[1..], u, too)
  }

  predicate Counts(k: Key, u: Key, too: bool) {
    Less(k, u) || (too && k == u)
  }

  lemma {:induction false} CountSplit(a: seq<Key>, b: seq<Key>, u: Key, too: bool)
    ensures Count(a + b, u, too) == Count(a, u, too) + Count(b, u, too)
  {
    if a == [] {
      assert a + b == b;
    } else {
      assert (a + b)[1..] == a[1..] + b;
      CountSplit(a[1..], b, u, too);
    }
  }

  lemma {:induction false} InsertCount(k: Key, s: seq<Key>, u: Key, too: bool)
    ensures Count(Insert(k, s), u, too) == Count(s, u, too) + if Counts(k, u, too) then 1 else 0
  {
    hide Counts;
    if s == [] || Less(k, s[0]) {
      assert ([k] + s)[1..] == s;
    } else {
      InsertCount(k, s[1..], u, too);
      assert ([s[0]] + Insert(k, s[1..]))[1..] == Insert(k, s[1..]);
    }
  }

  lemma {:induction false} SortCount(s: seq<Key>, u: Key, too: bool)
    ensures Count(SortAll(s), u, too) == Count(s, u, too)
  {
    if s != [] {
      var n := |s| - 1;
      SortCount(s[..n], u, too);
      InsertCount(s[n], SortAll(s[..n]), u, too);
      CountSplit(s[..n], [s[n]], u, too);
      assert s == s[..n] + [s[n]];
    }
  }

  /** In sorted order fewer than m keys lie below the m-th, and at least m not above it. */
  lemma {:induction false} CountInOrder(s: seq<Key>, m: nat)
    requires Nondecreasing(s) && 0 < m <= |s|
    ensures Count(s, s[m - 1], false) < m <= Count(s, s[m - 1], true)
  {
    var u := s[m - 1];
    LessIrreflexive(u);
    NoneBelow(s[m - 1..], u);
    CountSplit(s[..m - 1], s[m - 1..], u, false);
    CountAtMost(s[..m - 1], u);
    assert s == s[..m - 1] + s[m - 1..];
    forall i | 0 <= i < m ensures Counts(s[i], u, true) { LessTotal(s[i], u); }
    AllCount(s[..m], u);
    CountSplit(s[..m], s[m..], u, true);
    assert s == s[..m] + s[m..];
  }

  lemma {:induction false} NoneBelow(s: seq<Key>, u: Key)
    requires forall i :: 0 <= i < |s| ==> !Less(s[i], u)
    ensures Count(s, u, false) == 0
  {
    if s != [] {
      NoneBelow(s[1..], u);
    }
  }

  lemma {:induction false} AllCount(s: seq<Key>, u: Key)
    requires forall i :: 0 <= i < |s| ==> Counts(s[i], u, true)
    ensures Count(s, u, true) == |s|
  {
    if s != [] {
      AllCount(s[1..], u);
    }
  }

  lemma {:induction false} CountAtMost(s: seq<Key>, u: Key)
    ensures Count(s, u, false) <= |s|
  {
    if s != [] {
      CountAtMost(s[1..], u);
    }
  }

  lemma {:induction false} KeysAfterIs(src: seq<Key>, lo: Position)
    ensures forall x :: x in KeysAfter(src, lo) <==> x in src && Above(lo, x)
  {
    hide Less, Above;
    if src != [] {
      KeysAfterIs(src[..|src| - 1], lo);
      assert src == src[..|src| - 1] + [src[|src| - 1]];
    }
  }

  /** The key the limit falls on: the last of the first `limit` keys after the
      cursor, or none when the source is exhausted. */
  function LastKey(src: seq<Key>, lo: Position, limit: nat): Option<Key>
    requires limit > 0
  {
    var o := SortAll(KeysAfter(src, lo));
    SortAllSorts(KeysAfter(src, lo));
    if o == [] then None else Some(o[(if |o| < limit then |o| else limit) - 1])
  }

  /** The batch: every source row after the cursor and not after that key. */
  function BatchRows(src: seq<Key>, lo: Position, limit: nat): set<nat>
    requires limit > 0
  {
    var u := LastKey(src, lo, limit);
    set r: nat | r < |src| && u.Some? && Between(lo, src[r], At(u.value))
  }

  /** The source rows after `lo` and not after `u`. */
  ghost function RowsUpTo(src: seq<Key>, lo: Position, u: Key): (rows: set<nat>) {
    set r: nat | r < |src| && Between(lo, src[r], At(u))
  }

  lemma {:induction false} HowManyRows(src: seq<Key>, lo: Position, u: Key)
    ensures |RowsUpTo(src, lo, u)| == Count(KeysAfter(src, lo), u, true)
  {
    hide Less;
    if src != [] {
      var n := |src| - 1;
      HowManyRows(src[..n], lo, u);
      LessTotal(src[n], u);
      CountSplit(KeysAfter(src[..n], lo), if Above(lo, src[n]) then [src[n]] else [], u, true);
      assert RowsUpTo(src, lo, u) == RowsUpTo(src[..n], lo, u) + if Between(lo, src[n], At(u)) then {n} else {};
    }
  }

  lemma {:induction false} NoneMissed(s: seq<Key>, u: Key)
    ensures Count(s, u, true) <= |s|
    ensures Count(s, u, true) == |s| ==> forall x :: x in s ==> !Less(u, x)
  {
    if s != [] {
      NoneMissed(s[1..], u);
      LessTotal(s[0], u);
      LessIrreflexive(u);
      assert s == [s[0]] + s[1..];
    }
  }

  /** A batch is empty only when the source is exhausted; it stops at a key of the source
      above the cursor; and what takes it past its limit is only rows that share that last
      key. */
  lemma BatchLaw(src: seq<Key>, lo: Position, limit: nat)
    requires limit > 0
    ensures var u := LastKey(src, lo, limit);
            && (u.None? <==> forall r :: 0 <= r < |src| ==> !Above(lo, src[r]))
            && (BatchRows(src, lo, limit) == {} <==> u.None?)
            && (u.Some? ==> Above(lo, u.value) && u.value in src && Count(KeysAfter(src, lo), u.value, false) < limit)
  {
    hide Less, SortAll, Insert, KeysAfter, Count, Nondecreasing;
    var keys := KeysAfter(src, lo);
    var o := SortAll(keys);
    KeysAfterIs(src, lo);
    SortAllSorts(keys);
    var u := LastKey(src, lo, limit);
    if o == [] {
      assert keys == [];
    } else {
      var m := if |o| < limit then |o| else limit;
      CountInOrder(o, m);
      SortCount(keys, u.value, false);
      assert u.value in o;
      var r :| 0 <= r < |src| && src[r] == u.value;
      LessIrreflexive(u.value);
      assert r in BatchRows(src, lo, limit);
    }
  }

  /** And it falls short of its limit only where nothing is left after it. */
  lemma BatchFull(src: seq<Key>, lo: Position, limit: nat)
    requires limit > 0
    ensures |BatchRows(src, lo, limit)| >= limit || forall r: nat :: r < |src| && Above(lo, src[r]) ==> r in BatchRows(src, lo, limit)
  {
    hide Less, SortAll, Insert, KeysAfter, Count, Nondecreasing;
    var keys := KeysAfter(src, lo);
    var o := SortAll(keys);
    KeysAfterIs(src, lo);
    SortAllSorts(keys);
    if o != [] {
      var u := LastKey(src, lo, limit).value;
      CountInOrder(o, if |o| < limit then |o| else limit);
      SortCount(keys, u, true);
      HowManyRows(src, lo, u);
      NoneMissed(keys, u);
      assert BatchRows(src, lo, limit) == RowsUpTo(src, lo, u);
    }
  }

  /** The walk of a whole source. Its batches partition the rows above the start:
      no row is skipped, none is considered twice, and it ends only when none is
      left, whatever the limits were and however keys repeat. */
  method WalkSource(src: seq<Key>, start: Position, limits: nat -> nat) returns (batches: seq<set<nat>>)
    requires forall n :: limits(n) > 0
    ensures forall r: nat :: r < |src| ==>
              (Above(start, src[r]) <==> exists b :: 0 <= b < |batches| && r in batches[b])
    ensures forall a, b :: 0 <= a < b < |batches| ==> batches[a] !! batches[b]
    ensures forall b :: 0 <= b < |batches| ==> batches[b] != {} && forall r :: r in batches[b] ==> r < |src|
  {
    hide Less, LastKey;
    batches := [];
    var at := start;
    Nowhere(start);
    while true
      invariant NotAfter(start, at)
      invariant forall r: nat :: r < |src| ==>
                  (Between(start, src[r], at) <==> exists b :: 0 <= b < |batches| && r in batches[b])
      invariant forall a, b :: 0 <= a < b < |batches| ==> batches[a] !! batches[b]
      invariant forall b :: 0 <= b < |batches| ==> batches[b] != {} && forall r :: r in batches[b] ==> r < |src|
      decreases RowsAbove(src, at)
    {
      var limit := limits(|batches|);
      BatchLaw(src, at, limit);
      var u := LastKey(src, at, limit);
      if u.None? {
        forall r: nat | r < |src|
          ensures Above(start, src[r]) <==> Between(start, src[r], at)
        {
        }
        return;
      }
      Advance(src, start, at, u.value, batches, BatchRows(src, at, limit));
      batches := batches + [BatchRows(src, at, limit)];
      at := At(u.value);
    }
  }

  ghost function RowsAbove(src: seq<Key>, at: Position): set<nat> {
    set r: nat | r < |src| && Above(at, src[r])
  }

  lemma Advance(src: seq<Key>, start: Position, at: Position, u: Key, batches: seq<set<nat>>, rows: set<nat>)
    requires NotAfter(start, at) && Above(at, u) && u in src
    requires rows == set r: nat | r < |src| && Between(at, src[r], At(u))
    requires forall r: nat :: r < |src| ==>
               (Between(start, src[r], at) <==> exists b :: 0 <= b < |batches| && r in batches[b])
    requires forall b :: 0 <= b < |batches| ==> forall r :: r in batches[b] ==> r < |src|
    ensures NotAfter(start, At(u))
    ensures forall r: nat :: r < |src| ==>
              (Between(start, src[r], At(u)) <==> exists b :: 0 <= b < |batches + [rows]| && r in (batches + [rows])[b])
    ensures forall a :: 0 <= a < |batches| ==> batches[a] !! rows
    ensures RowsAbove(src, At(u)) < RowsAbove(src, at)
  {
    hide Less;
    if at.At? { LessTotal(at.key, u); }
    Stretch(start, at, At(u));
    var more := batches + [rows];
    forall r: nat | r < |src|
      ensures Between(start, src[r], At(u)) <==> exists b :: 0 <= b < |more| && r in more[b]
    {
      if Between(at, src[r], At(u)) { assert r in more[|batches|]; }
      if Between(start, src[r], at) {
        var b :| 0 <= b < |batches| && r in batches[b];
        assert r in more[b];
      }
      if b :| 0 <= b < |more| && r in more[b] {
        assert b < |batches| ==> r in batches[b];
      }
    }
    forall r | r in RowsAbove(src, At(u))
      ensures r in RowsAbove(src, at)
    {
      AboveMonotone(at, At(u), src[r]);
    }
    var r :| 0 <= r < |src| && src[r] == u;
    LessIrreflexive(u);
    assert r in RowsAbove(src, at) && r !in RowsAbove(src, At(u));
  }
}

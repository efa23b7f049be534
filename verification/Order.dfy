/** Keys and their order.

    A key is the list of its columns' values, in the order of the index that
    proves it unique; a key of one column is a list of length one. A value is an
    integer: its place in its column's own order. PostgreSQL compares such lists
    as rows, left to right, and so does `std::vector<uint16_t>`'s operator<.
 */
module Order {

  type Key = seq<int>

  /** Row comparison: left to right, and a proper prefix comes first. */
  predicate Less(a: Key, b: Key)
    decreases |a|
  {
    b != [] && (a == [] || a[0] < b[0] || (a[0] == b[0] && Less(a[1..], b[1..])))
  }

  lemma {:induction false} LessIrreflexive(a: Key)
    ensures !Less(a, a)
  {
    if a != [] {
      LessIrreflexive(a[1..]);
    }
  }

  lemma {:induction false} LessTransitive(a: Key, b: Key, c: Key)
    requires Less(a, b) && Less(b, c)
    ensures Less(a, c)
    decreases |a|
  {
    if a != [] && a[0] == b[0] && b[0] == c[0] {
      LessTransitive(a[1..], b[1..], c[1..]);
    }
  }

  lemma {:induction false} LessTotal(a: Key, b: Key)
    ensures a == b || Less(a, b) || Less(b, a)
    ensures !(Less(a, b) && Less(b, a))
    decreases |a|
  {
    if a != [] && b != [] && a[0] == b[0] {
      LessTotal(a[1..], b[1..]);
      assert a == [a[0]] + a[1..] && b == [b[0]] + b[1..];
    }
  }

  /** Where a walk stands: before every key, or just after one. */
  datatype Position = Bottom | At(key: Key)

  predicate Above(p: Position, k: Key) {
    p.Bottom? || Less(p.key, k)
  }

  /** `k` lies after `lo` and not after `hi`. */
  predicate Between(lo: Position, k: Key, hi: Position) {
    Above(lo, k) && !Above(hi, k)
  }

  predicate NotAfter(p: Position, q: Position) {
    p.Bottom? || (q.At? && !Less(q.key, p.key))
  }

  lemma AboveMonotone(p: Position, q: Position, k: Key)
    requires NotAfter(p, q) && Above(q, k)
    ensures Above(p, k)
  {
    if p.At? {
      LessTotal(p.key, q.key);
      if p.key != q.key {
        LessTransitive(p.key, q.key, k);
      }
    }
  }

  lemma NotAfterTransitive(p: Position, q: Position, r: Position)
    requires NotAfter(p, q) && NotAfter(q, r)
    ensures NotAfter(p, r)
  {
    if p.At? && Less(r.key, p.key) {
      AboveMonotone(q, r, p.key);
    }
  }

  lemma Nowhere(p: Position)
    ensures NotAfter(p, p)
    ensures forall k :: !Between(p, k, p)
  {
    if p.At? {
      LessIrreflexive(p.key);
    }
  }

  /** Two adjoining stretches make one, and share no key. */
  lemma Stretch(a: Position, b: Position, c: Position)
    requires NotAfter(a, b) && NotAfter(b, c)
    ensures NotAfter(a, c)
    ensures forall k :: Between(a, k, c) <==> Between(a, k, b) || Between(b, k, c)
    ensures forall k :: !(Between(a, k, b) && Between(b, k, c))
  {
    NotAfterTransitive(a, b, c);
    forall k
      ensures Between(a, k, c) <==> Between(a, k, b) || Between(b, k, c)
    {
      if Above(b, k) { AboveMonotone(a, b, k); }
      if Above(c, k) { AboveMonotone(b, c, k); }
    }
  }

  predicate Increasing(s: seq<Key>) {
    forall i, j :: 0 <= i < j < |s| ==> Less(s[i], s[j])
  }

  /** The keys of `s`, as a set. */
  function Elements(s: seq<Key>): set<Key> {
    set k | k in s
  }

  lemma SmallestExists(s: set<Key>)
    requires s != {}
    ensures exists m :: m in s && forall x :: x in s ==> !Less(x, m)
  {
    var k :| k in s;
    var rest := s - {k};
    if rest == {} {
      LessIrreflexive(k);
      assert s == {k};
    } else {
      SmallestExists(rest);
      var m :| m in rest && forall x :: x in rest ==> !Less(x, m);
      var least := if Less(k, m) then k else m;
      forall x | x in s
        ensures !Less(x, least)
      {
        LessIrreflexive(k);
        if Less(k, m) && Less(x, k) {
          LessTransitive(x, k, m);
        }
        assert x == k || x in rest;
      }
    }
  }

  lemma SmallestUnique(s: set<Key>, m: Key, n: Key)
    requires m in s && n in s
    requires !Less(m, n) && !Less(n, m)
    ensures m == n
  {
    LessTotal(m, n);
  }

  function Smallest(s: set<Key>): (m: Key)
    requires s != {}
    ensures m in s && forall x :: x in s ==> !Less(x, m)
  {
    SmallestExists(s);
    assert forall m, n | m in s && n in s && !Less(m, n) && !Less(n, m) :: m == n by {
      forall m, n | m in s && n in s && !Less(m, n) && !Less(n, m)
        ensures m == n
      {
        SmallestUnique(s, m, n);
      }
    }
    var m :| m in s && forall x :: x in s ==> !Less(x, m);
    m
  }

  /** ORDER BY: the keys of a finite set, smallest first. */
  function Sorted(s: set<Key>): (r: seq<Key>)
    ensures Increasing(r)
    ensures forall k :: k in r <==> k in s
    ensures |r| == |s|
    decreases |s|
  {
    if s == {} then
      []
    else
      var m := Smallest(s);
      var rest := Sorted(s - {m});
      assert forall k :: k in rest ==> Less(m, k) by {
        forall k | k in rest ensures Less(m, k) { LessTotal(m, k); }
      }
      [m] + rest
  }

  /** An increasing list is the only increasing list of its elements, so a sort
      gives the same list whatever order the elements were handed to it in. */
  lemma {:induction false} IncreasingUnique(a: seq<Key>, b: seq<Key>)
    requires Increasing(a) && Increasing(b)
    requires forall k :: k in a <==> k in b
    ensures a == b
    decreases |a|
  {
    assert b != [] ==> b[0] in b;
    if a != [] {
      assert a[0] in b;
      assert b != [] && b[0] in a;
      LessTotal(a[0], b[0]);
      var i :| 0 <= i < |a| && a[i] == b[0];
      var j :| 0 <= j < |b| && b[j] == a[0];
      assert a[0] == b[0];
      forall k
        ensures k in a[1..] <==> k in b[1..]
      {
        LessIrreflexive(a[0]);
        if k in a[1..] { assert k in b && k != b[0]; }
        if k in b[1..] { assert k in a && k != a[0]; }
      }
      IncreasingUnique(a[1..], b[1..]);
      assert a == [a[0]] + a[1..] && b == [b[0]] + b[1..];
    }
  }

  /** What a prefix of an increasing list leaves out lies after all it holds. */
  lemma PrefixCut(s: seq<Key>, n: nat, k: Key)
    requires Increasing(s) && 0 < n <= |s|
    ensures k in s[..n] <==> k in s && !Less(s[n - 1], k)
  {
    if k in s {
      var i :| 0 <= i < |s| && s[i] == k;
      LessIrreflexive(k);
      if i < n {
        assert s[..n][i] == k;
        if i < n - 1 { LessTotal(s[i], s[n - 1]); }
      } else {
        assert Less(s[n - 1], k);
      }
    }
  }
}

/** Text as the canonical form sees it: UTF-8 bytes, code points, UTF-16 code units. */
module Utf {
  import opened Options
  import opened Order

  type byte = b: int | 0 <= b < 256
  type Bytes = seq<byte>

  // --- one code point ----------------------------------------------------------------------

  datatype Char = Char(cp: int, len: nat)

  predicate Continues(s: Bytes, n: nat) {
    n < |s| && forall k :: 1 <= k <= n ==> 0x80 <= s[k] < 0xC0
  }

  /** The code point at the front of `s`, as the decoder reads it. */
  function Head(s: Bytes): (r: Option<Char>)
    requires s != []
    ensures r.Some? ==> 1 <= r.value.len <= 4 && r.value.len <= |s|
  {
    if s[0] < 0x80 then Some(Char(s[0], 1))
    else if 0xC0 <= s[0] < 0xE0 then
      if Continues(s, 1) then Some(Char(Join2(s[0], s[1]), 2)) else None
    else if 0xE0 <= s[0] < 0xF0 then
      if Continues(s, 2) then Some(Char(Join3(s[0], s[1], s[2]), 3)) else None
    else if 0xF0 <= s[0] < 0xF8 then
      if Continues(s, 3) then Some(Char(Join4(s[0], s[1], s[2], s[3]), 4)) else None
    else None
  }

  function Join2(a: int, b: int): (r: int) {
    (a - 0xC0) * 0x40 + (b - 0x80)
  }

  function Join3(a: int, b: int, c: int): (r: int) {
    (a - 0xE0) * 0x1000 + (b - 0x80) * 0x40 + (c - 0x80)
  }

  function Join4(a: int, b: int, c: int, d: int): (r: int) {
    (a - 0xF0) * 0x4_0000 + (b - 0x80) * 0x1000 + (c - 0x80) * 0x40 + (d - 0x80)
  }

  /** What Unicode text is made of: every code point but the surrogates. */
  predicate Scalar(cp: int) {
    0 <= cp < 0xD800 || 0xE000 <= cp < 0x11_0000
  }

  /** Section 3 of RFC 3629. */
  function Encode(cp: int): (r: Bytes)
    requires Scalar(cp)
    ensures 1 <= |r| <= 4
  {
    if cp < 0x80 then [cp]
    else if cp < 0x800 then [0xC0 + cp / 0x40, 0x80 + cp % 0x40]
    else
      var high := cp / 0x40;
      if cp < 0x1_0000 then [0xE0 + high / 0x40, 0x80 + high % 0x40, 0x80 + cp % 0x40]
      else
        var top := high / 0x40;
        [0xF0 + top / 0x40, 0x80 + top % 0x40, 0x80 + high % 0x40, 0x80 + cp % 0x40]
  }

  lemma Joined(cp: int)
    requires Scalar(cp)
    ensures var r := Encode(cp);
            && (|r| == 2 ==> Join2(r[0], r[1]) == cp)
            && (|r| == 3 ==> Join3(r[0], r[1], r[2]) == cp)
            && (|r| == 4 ==> Join4(r[0], r[1], r[2], r[3]) == cp)
  {
    var high := cp / 0x40;
    var top := high / 0x40;
    assert cp == high * 0x40 + cp % 0x40;
    assert high == top * 0x40 + high % 0x40;
    assert top == top / 0x40 * 0x40 + top % 0x40;
  }

  lemma EncodeShape(cp: int)
    requires Scalar(cp)
    ensures var r := Encode(cp);
            && (|r| == 1 ==> r[0] == cp < 0x80)
            && (|r| == 2 ==> 0xC0 <= r[0] < 0xE0 && Continues(r, 1))
            && (|r| == 3 ==> 0xE0 <= r[0] < 0xF0 && Continues(r, 2))
            && (|r| == 4 ==> 0xF0 <= r[0] < 0xF8 && Continues(r, 3))
  {
  }

  /** The decoder reads back what the encoding wrote. */
  lemma HeadEncode(cp: int, rest: Bytes)
    requires Scalar(cp)
    ensures Head(Encode(cp) + rest) == Some(Char(cp, |Encode(cp)|))
  {
    hide Encode, Join2, Join3, Join4;
    Joined(cp);
    EncodeShape(cp);
    var s := Encode(cp) + rest;
    assert forall k :: 0 <= k < |Encode(cp)| ==> s[k] == Encode(cp)[k];
  }

  // --- whole strings -------------------------------------------------------------------------

  function Decode(s: Bytes): (r: Option<seq<int>>) {
    if s == [] then Some([])
    else match Head(s)
      case None => None
      case Some(c) => Prepend([c.cp], Decode(s[c.len..]))
  }

  function Prepend(a: seq<int>, o: Option<seq<int>>): (r: Option<seq<int>>) {
    if o.None? then None else Some(a + o.value)
  }

  ghost predicate Scalars(cps: seq<int>) {
    forall i :: 0 <= i < |cps| ==> Scalar(cps[i])
  }

  function EncodeAll(cps: seq<int>): (r: Bytes)
    requires Scalars(cps)
  {
    if cps == [] then [] else Encode(cps[0]) + EncodeAll(cps[1..])
  }

  /** Well-formed UTF-8: the encoding of some Unicode text. */
  ghost predicate WellFormed(s: Bytes) {
    exists cps :: Scalars(cps) && EncodeAll(cps) == s
  }

  lemma {:induction false} DecodeEncode(cps: seq<int>)
    requires Scalars(cps)
    ensures Decode(EncodeAll(cps)) == Some(cps)
  {
    if cps != [] {
      var rest := EncodeAll(cps[1..]);
      HeadEncode(cps[0], rest);
      var s := EncodeAll(cps);
      hide Head, Encode;
      DecodeEncode(cps[1..]);
      assert s[|Encode(cps[0])|..] == rest;
      assert cps == [cps[0]] + cps[1..];
    }
  }

  // --- UTF-16 ----------------------------------------------------------------------------------

  function Units(cp: int): (r: seq<int>) {
    if cp <= 0xFFFF then [cp]
    else [0xD800 + (cp - 0x1_0000) / 0x400, 0xDC00 + (cp - 0x1_0000) % 0x400]
  }

  function AllUnits(cps: seq<int>): (r: seq<int>) {
    if cps == [] then [] else Units(cps[0]) + AllUnits(cps[1..])
  }

  /** The sort key of a member name; nothing where it does not decode. */
  function SortKey(s: Bytes): (r: Key) {
    match Decode(s)
    case None => []
    case Some(cps) => AllUnits(cps)
  }

  /** The first unit says how many belong to the first code point. */
  lemma UnitsHead(a: int, b: int, x: seq<int>, y: seq<int>)
    requires Scalar(a) && Scalar(b) && Units(a) + x == Units(b) + y
    ensures a == b && x == y
  {
    var u, v := Units(a) + x, Units(b) + y;
    assert u[0] == Units(a)[0] && v[0] == Units(b)[0];
    assert (a <= 0xFFFF) == (b <= 0xFFFF);
    if a <= 0xFFFF {
      assert x == u[1..] && y == v[1..];
    } else {
      assert u[1] == Units(a)[1] && v[1] == Units(b)[1];
      assert x == u[2..] && y == v[2..];
    }
  }

  lemma {:induction false} AllUnitsInjective(a: seq<int>, b: seq<int>)
    requires Scalars(a) && Scalars(b) && AllUnits(a) == AllUnits(b)
    ensures a == b
  {
    hide Units;
    if a != [] && b != [] {
      UnitsHead(a[0], b[0], AllUnits(a[1..]), AllUnits(b[1..]));
      AllUnitsInjective(a[1..], b[1..]);
      assert a == [a[0]] + a[1..] && b == [b[0]] + b[1..];
    } else {
      UnitsNonEmpty(a);
      UnitsNonEmpty(b);
    }
  }

  lemma UnitsNonEmpty(a: seq<int>)
    ensures AllUnits(a) == [] <==> a == []
  {
  }

  /** Different well-formed names have different sort keys. */
  lemma SortKeyInjective(s: Bytes, t: Bytes)
    requires WellFormed(s) && WellFormed(t) && SortKey(s) == SortKey(t)
    ensures s == t
  {
    var a :| Scalars(a) && EncodeAll(a) == s;
    var b :| Scalars(b) && EncodeAll(b) == t;
    DecodeEncode(a);
    DecodeEncode(b);
    AllUnitsInjective(a, b);
  }

  predicate NameLess(s: Bytes, t: Bytes) {
    Less(SortKey(s), SortKey(t))
  }

  /** On well-formed names the comparison is a strict total order. */
  lemma NameLessTotal(s: Bytes, t: Bytes)
    requires WellFormed(s) && WellFormed(t)
    ensures !NameLess(s, s)
    ensures s == t || NameLess(s, t) || NameLess(t, s)
    ensures !(NameLess(s, t) && NameLess(t, s))
  {
    LessIrreflexive(SortKey(s));
    LessTotal(SortKey(s), SortKey(t));
    if SortKey(s) == SortKey(t) { SortKeyInjective(s, t); }
  }

  lemma NameLessTransitive(s: Bytes, t: Bytes, u: Bytes)
    requires NameLess(s, t) && NameLess(t, u)
    ensures NameLess(s, u)
  {
    LessTransitive(SortKey(s), SortKey(t), SortKey(u));
  }

  /** Outside well-formed text it is not total: an overlong encoding of a letter and the
      letter itself are two names neither of which comes first. */
  lemma OverlongTies()
    ensures Decode([0xC1, 0x81]) == Some([0x41]) == Decode([0x41])
    ensures !NameLess([0xC1, 0x81], [0x41]) && !NameLess([0x41], [0xC1, 0x81])
  {
    var s: Bytes, t: Bytes := [0xC1, 0x81], [0x41];
    assert s[2..] == [] && t[1..] == [];
    assert Head(s) == Some(Char(0x41, 2));
    assert Decode(s[2..]) == Some([]) && Decode(t[1..]) == Some([]);
    PrependNothing(Decode([]));
    assert Decode(s) == Some([0x41]) by { assert [0x41] + [] == [0x41]; }
    LessIrreflexive(SortKey(t));
  }

  /** Unit by unit: a proper prefix comes first, and otherwise the smaller unit at the first
      place where they differ. */
  ghost predicate ComesFirst(u: seq<int>, v: seq<int>) {
    || (|u| < |v| && forall i :: 0 <= i < |u| ==> u[i] == v[i])
    || (exists i :: 0 <= i < |u| && i < |v| && u[i] < v[i] && forall j :: 0 <= j < i ==> u[j] == v[j])
  }

  lemma {:induction false} LessIs(u: Key, v: Key)
    ensures Less(u, v) <==> ComesFirst(u, v)
    decreases |u|
  {
    if u != [] && v != [] && u[0] == v[0] {
      LessIs(u[1..], v[1..]);
      TailFirst(u, v);
    } else if u != [] && v != [] && u[0] < v[0] {
      assert ComesFirst(u, v);
    }
  }

  lemma TailFirst(u: Key, v: Key)
    requires u != [] && v != [] && u[0] == v[0]
    ensures ComesFirst(u, v) <==> ComesFirst(u[1..], v[1..])
  {
    var x, y := u[1..], v[1..];
    assert forall i :: 0 <= i < |x| ==> x[i] == u[i + 1];
    assert forall i :: 0 <= i < |y| ==> y[i] == v[i + 1];
    if i :| 0 <= i < |x| && i < |y| && x[i] < y[i] && forall j :: 0 <= j < i ==> x[j] == y[j] {
      assert u[i + 1] < v[i + 1];
      forall j | 0 <= j < i + 1 ensures u[j] == v[j] { if j > 0 { assert x[j - 1] == y[j - 1]; } }
    }
    if i :| 0 <= i < |u| && i < |v| && u[i] < v[i] && forall j :: 0 <= j < i ==> u[j] == v[j] {
      assert x[i - 1] < y[i - 1];
      forall j | 0 <= j < i - 1 ensures x[j] == y[j] { assert u[j + 1] == v[j + 1]; }
    }
    if |x| < |y| && forall i :: 0 <= i < |x| ==> x[i] == y[i] {
      forall i | 0 <= i < |u| ensures u[i] == v[i] { if i > 0 { assert x[i - 1] == y[i - 1]; } }
    }
    if |u| < |v| && forall i :: 0 <= i < |u| ==> u[i] == v[i] {
      forall i | 0 <= i < |x| ensures x[i] == y[i] { assert u[i + 1] == v[i + 1]; }
    }
  }

  /** The comparison of names is that of their texts' UTF-16 code units. */
  lemma NameLessIs(a: seq<int>, b: seq<int>)
    requires Scalars(a) && Scalars(b)
    ensures NameLess(EncodeAll(a), EncodeAll(b)) <==> ComesFirst(AllUnits(a), AllUnits(b))
  {
    DecodeEncode(a);
    DecodeEncode(b);
    LessIs(AllUnits(a), AllUnits(b));
  }

  /** A code point of the basic plane is its own unit; another is a high and a low surrogate
      that add up to it. */
  lemma UnitsAre(cp: int)
    requires Scalar(cp)
    ensures cp <= 0xFFFF ==> Units(cp) == [cp]
    ensures cp > 0xFFFF ==>
              && |Units(cp)| == 2 && 0xD800 <= Units(cp)[0] < 0xDC00 && 0xDC00 <= Units(cp)[1] < 0xE000
              && cp == 0x1_0000 + (Units(cp)[0] - 0xD800) * 0x400 + (Units(cp)[1] - 0xDC00)
  {
  }

  // --- the loops ---------------------------------------------------------------------------------

  method Need(s: Bytes, i: nat, n: nat) returns (ok: bool)
    requires i < |s|
    ensures ok == Continues(s[i..], n)
  {
    if i + n >= |s| { return false; }
    for k := 1 to n + 1
      invariant forall j :: 1 <= j < k ==> 0x80 <= s[i..][j] < 0xC0
    {
      if !(0x80 <= s[i + k] < 0xC0) {
        assert s[i..][k] == s[i + k];
        return false;
      }
    }
    return true;
  }

  method Utf8Next(s: Bytes, i: nat) returns (ok: bool, cp: int, next: nat)
    requires i < |s|
    ensures i <= next <= |s|
    ensures if ok then Head(s[i..]) == Some(Char(cp, next - i)) && i < next else Head(s[i..]) == None
  {
    hide Join2, Join3, Join4, Continues;
    assert forall k :: 0 <= k < |s| - i ==> s[i..][k] == s[i + k];
    var c := s[i];
    if c < 0x80 { return true, c, i + 1; }
    if 0xC0 <= c < 0xE0 {
      var more := Need(s, i, 1);
      if !more { return false, 0, i; }
      ContinuesBound(s[i..], 1);
      return true, Join2(c, s[i + 1]), i + 2;
    }
    if 0xE0 <= c < 0xF0 {
      var more := Need(s, i, 2);
      if !more { return false, 0, i; }
      ContinuesBound(s[i..], 2);
      return true, Join3(c, s[i + 1], s[i + 2]), i + 3;
    }
    if 0xF0 <= c < 0xF8 {
      var more := Need(s, i, 3);
      if !more { return false, 0, i; }
      ContinuesBound(s[i..], 3);
      return true, Join4(c, s[i + 1], s[i + 2], s[i + 3]), i + 4;
    }
    return false, 0, i;
  }

  lemma ContinuesBound(s: Bytes, n: nat)
    requires Continues(s, n)
    ensures n < |s|
  {
  }

  /** The UTF-16 code units of `s`, or nothing where it does not decode. */
  method Utf16Units(s: Bytes) returns (r: Option<seq<int>>)
    ensures r == match Decode(s) case None => None case Some(cps) => Some(AllUnits(cps))
  {
    hide Head;
    var out := [];
    var i := 0;
    ghost var seen: seq<int> := [];
    assert s[0..] == s;
    PrependNothing(Decode(s));
    while i < |s|
      invariant i <= |s|
      invariant Decode(s) == Prepend(seen, Decode(s[i..]))
      invariant out == AllUnits(seen)
    {
      hide Head, Units, AllUnits;
      var ok, cp, next := Utf8Next(s, i);
      if !ok { return None; }
      DecodeStep(s, i, Char(cp, next - i));
      UnitsSnoc(seen, cp);
      PrependTwice(seen, [cp], Decode(s[next..]));
      if cp <= 0xFFFF {
        out := out + [cp];
      } else {
        out := out + [0xD800 + (cp - 0x1_0000) / 0x400, 0xDC00 + (cp - 0x1_0000) % 0x400];
      }
      seen := seen + [cp];
      i := next;
    }
    assert Prepend(seen, Some([])) == Some(seen) by { assert seen + [] == seen; }
    return Some(out);
  }

  lemma PrependNothing(o: Option<seq<int>>)
    ensures Prepend([], o) == o
  {
    if o.Some? { assert [] + o.value == o.value; }
  }

  lemma PrependTwice(a: seq<int>, b: seq<int>, o: Option<seq<int>>)
    ensures Prepend(a, Prepend(b, o)) == Prepend(a + b, o)
  {
    if o.Some? { assert a + (b + o.value) == a + b + o.value; }
  }

  lemma {:induction false} UnitsSnoc(cps: seq<int>, cp: int)
    ensures AllUnits(cps + [cp]) == AllUnits(cps) + Units(cp)
    ensures Units(cp) == if cp <= 0xFFFF then [cp]
                         else [0xD800 + (cp - 0x1_0000) / 0x400, 0xDC00 + (cp - 0x1_0000) % 0x400]
  {
    if cps != [] {
      assert (cps + [cp])[1..] == cps[1..] + [cp];
      UnitsSnoc(cps[1..], cp);
    }
  }

  lemma DecodeStep(s: Bytes, i: nat, c: Char)
    requires i < |s| && Head(s[i..]) == Some(c)
    ensures Decode(s[i..]) == Prepend([c.cp], Decode(s[i + c.len..]))
  {
    assert s[i..][c.len..] == s[i + c.len..];
  }
}

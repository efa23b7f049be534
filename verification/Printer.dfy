/** The printer as it runs: loops that append to a buffer. */
module Printer {
  import opened Options
  import opened Utf
  import opened Tokens
  import opened Canonical

  // --- what is accepted -----------------------------------------------------------------------

  lemma {:induction false} EscapesExactly(s: Bytes)
    ensures EscapeText(s).Some? <==> Decode(s).Some?
    decreases |s|
  {
    hide Head, EscapeChar;
    if s != [] {
      var c := Head(s);
      if c.Some? { EscapesExactly(s[c.value.len..]); }
    }
  }

  /** No floating point and no binary data, every integer within the safe range once cast,
      every string decodable. */
  ghost predicate Acceptable(v: Json) {
    match v
    case Float(_) => false
    case Binary(_) => false
    case Signed(n) => -0x1F_FFFF_FFFF_FFFF <= n <= 0x1F_FFFF_FFFF_FFFF
    case Unsigned(u) => u <= 0x1F_FFFF_FFFF_FFFF || u >= 0xFFE0_0000_0000_0001
    case Text(s) => Decode(s).Some?
    case Array(items) => forall i :: 0 <= i < |items| ==> Acceptable(items[i])
    case Object(m) => forall k :: k in m ==> Decode(k).Some? && Acceptable(m[k])
    case _ => true
  }

  lemma {:induction false} AcceptedExactly(v: Json)
    ensures Print(v).Some? <==> Acceptable(v)
    decreases v, 1, 0
  {
    hide Head, EscapeChar, Decimal, InOrder, PrintItems, PrintMembers, Decode, EscapeText;
    match v
    case Unsigned(u) => UnsignedExactly(u);
    case Text(s) => EscapesExactly(s);
    case Array(_) => ItemsAccepted(v, 0);
    case Object(m) =>
      var names := InOrder(m.Keys);
      MembersAccepted(v, names, 0);
      hide Acceptable;
      NamesAccepted(v, names);
    case _ =>
  }

  lemma NamesAccepted(v: Json, names: seq<Bytes>)
    requires v.Object? && forall k :: k in names <==> k in v.members
    ensures Acceptable(v) <==>
              forall j :: 0 <= j < |names| ==> Decode(names[j]).Some? && names[j] in v.members && Acceptable(v.members[names[j]])
  {
    hide Decode;
    if forall j :: 0 <= j < |names| ==> Decode(names[j]).Some? && names[j] in v.members && Acceptable(v.members[names[j]]) {
      forall k | k in v.members ensures Decode(k).Some? && Acceptable(v.members[k]) {
        var j :| 0 <= j < |names| && names[j] == k;
      }
    }
    assert forall j :: 0 <= j < |names| ==> names[j] in names;
  }

  lemma {:induction false} ItemsAccepted(v: Json, i: nat)
    requires v.Array? && i <= |v.items|
    ensures PrintItems(v, i).Some? <==> forall j :: i <= j < |v.items| ==> Acceptable(v.items[j])
    decreases v, 0, |v.items| - i
  {
    hide Print, Acceptable;
    if i < |v.items| {
      AcceptedExactly(v.items[i]);
      ItemsAccepted(v, i + 1);
    }
  }

  lemma {:induction false} MembersAccepted(v: Json, names: seq<Bytes>, i: nat)
    requires v.Object? && i <= |names| && forall k :: k in names ==> k in v.members
    ensures PrintMembers(v, names, i).Some? <==>
              forall j :: i <= j < |names| ==> Decode(names[j]).Some? && names[j] in v.members && Acceptable(v.members[names[j]])
    decreases v, 0, |names| - i
  {
    hide Print, Acceptable, Decode, EscapeText;
    if i < |names| {
      assert names[i] in names;
      EscapesExactly(names[i]);
      AcceptedExactly(v.members[names[i]]);
      MembersAccepted(v, names, i + 1);
    }
  }

  // --- strings --------------------------------------------------------------------------------------

  lemma GlueTwice(a: Bytes, b: Bytes, o: Option<Bytes>)
    ensures Glue(a, Glue(b, o)) == Glue(a + b, o)
  {
    if o.Some? { assert a + (b + o.value) == a + b + o.value; }
  }

  lemma EscapeStep(s: Bytes, i: nat, c: Char)
    requires i < |s| && Head(s[i..]) == Some(c) && i + c.len <= |s|
    ensures EscapeText(s[i..]) == Glue(EscapeChar(c.cp, s[i..i + c.len]), EscapeText(s[i + c.len..]))
  {
    hide Head, EscapeChar;
    assert s[i..][c.len..] == s[i + c.len..] && s[i..][..c.len] == s[i..i + c.len];
  }

  method EscapeInto(s: Bytes) returns (r: Option<Bytes>)
    ensures r == Quoted(s)
  {
    hide Head, EscapeChar;
    var out: Bytes := [];
    var i := 0;
    assert s[0..] == s;
    assert Glue([], EscapeText(s)) == EscapeText(s) by {
      if EscapeText(s).Some? { assert [] + EscapeText(s).value == EscapeText(s).value; }
    }
    while i < |s|
      invariant i <= |s|
      invariant EscapeText(s) == Glue(out, EscapeText(s[i..]))
    {
      var start := i;
      var ok, cp, next := Utf8Next(s, i);
      if !ok { return None; }
      EscapeStep(s, i, Char(cp, next - i));
      GlueTwice(out, EscapeChar(cp, s[start..next]), EscapeText(s[next..]));
      out := out + EscapeChar(cp, s[start..next]);
      i := next;
    }
    assert s[i..] == [];
    assert out + [] == out;
    r := Some([Quote] + (out + [Quote]));
  }

  // --- member names -----------------------------------------------------------------------------------

  /** Into its place among names already in order. */
  method Insert(names: seq<Bytes>, k: Bytes) returns (r: seq<Bytes>)
    ensures Adds(names, k, r) && |r| == |names| + 1
    ensures StrictlyOrdered(names) && (forall i :: 0 <= i < |names| ==> SortKey(names[i]) != SortKey(k)) ==> StrictlyOrdered(r)
  {
    hide NameLess, StrictlyOrdered, SortKey, Adds;
    var i := 0;
    while i < |names| && NameLess(names[i], k)
      invariant 0 <= i <= |names| && forall j :: 0 <= j < i ==> NameLess(names[j], k)
    {
      i := i + 1;
    }
    r := names[..i] + [k] + names[i..];
    if StrictlyOrdered(names) && forall j :: 0 <= j < |names| ==> SortKey(names[j]) != SortKey(k) {
      InsertedInOrder(names, i, k);
    }
    InsertedMembers(names, i, k);
  }

  lemma InsertedMembers(names: seq<Bytes>, i: nat, k: Bytes)
    requires i <= |names|
    ensures Adds(names, k, names[..i] + [k] + names[i..])
  {
    assert names == names[..i] + names[i..];
    forall x ensures x in names[..i] + [k] + names[i..] <==> x == k || x in names {
      assert x in names <==> x in names[..i] || x in names[i..];
    }
  }

  ghost predicate Adds(names: seq<Bytes>, k: Bytes, r: seq<Bytes>) {
    forall x :: x in r <==> x == k || x in names
  }

  lemma InsertedInOrder(names: seq<Bytes>, i: nat, k: Bytes)
    requires StrictlyOrdered(names) && i <= |names|
    requires forall j :: 0 <= j < |names| ==> SortKey(names[j]) != SortKey(k)
    requires forall j :: 0 <= j < i ==> NameLess(names[j], k)
    requires i < |names| ==> !NameLess(names[i], k)
    ensures StrictlyOrdered(names[..i] + [k] + names[i..])
  {
    hide NameLess;
    forall j | i <= j < |names| ensures NameLess(k, names[j]) {
      Comparable(names[i], k);
      if j > i { NameLessTransitive(k, names[i], names[j]); }
    }
  }

  /** The names of an object, in whatever order they come, sorted: all of them, and, where
      no two compare as equal, in the one order there is. */
  method Sort(ks: set<Bytes>) returns (names: seq<Bytes>)
    ensures forall k :: k in names <==> k in ks
    ensures Tieless(ks) ==> names == InOrder(ks)
  {
    hide InOrder, SortKey;
    names := [];
    var left := ks;
    while left != {}
      invariant left <= ks && (Tieless(ks) ==> StrictlyOrdered(names))
      invariant forall x :: x in names <==> x in ks && x !in left
      decreases |left|
    {
      hide StrictlyOrdered;
      var k :| k in left;
      if Tieless(ks) {
        forall i | 0 <= i < |names| ensures SortKey(names[i]) != SortKey(k) {
          assert names[i] in names;
        }
      }
      names := Insert(names, k);
      left := left - {k};
    }
    if Tieless(ks) {
      InOrderStrict(ks);
      OneOrder(names, InOrder(ks));
    }
  }

  // --- values ------------------------------------------------------------------------------------------

  /** In every object of `v`, no two names compare as equal, or some name does not decode
      and the object is refused in any order. */
  ghost predicate Sortable(v: Json) {
    match v
    case Array(items) => forall i :: 0 <= i < |items| ==> Sortable(items[i])
    case Object(m) =>
      && (Tieless(m.Keys) || exists k :: k in m && Decode(k).None?)
      && (forall k :: k in m ==> Sortable(m[k]))
    case _ => true
  }

  lemma {:induction false} ProperSortable(v: Json)
    requires Proper(v)
    ensures Sortable(v)
  {
    match v
    case Array(items) => forall i | 0 <= i < |items| ensures Sortable(items[i]) { ProperSortable(items[i]); }
    case Object(m) =>
      WellFormedTieless(m.Keys);
      forall k | k in m ensures Sortable(m[k]) { ProperSortable(m[k]); }
    case _ =>
  }

  /** The canonical bytes of `v`: given exactly where `v` is acceptable, and then its
      canonical form, wherever there is one order of names to sort into. */
  method Canonicalize(v: Json) returns (r: Option<Bytes>)
    ensures r.Some? <==> Acceptable(v)
    ensures Sortable(v) ==> r == Print(v)
    decreases v, 1
  {
    AcceptedExactly(v);
    match v
    case Null => r := Some([110, 117, 108, 108]);
    case Bool(b) => r := Some(if b then [116, 114, 117, 101] else [102, 97, 108, 115, 101]);
    case Float(_) => r := None;
    case Binary(_) => r := None;
    case Signed(n) => r := Number(n);
    case Unsigned(u) => r := Number(Cast(u));
    case Text(s) => r := EscapeInto(s);
    case Array(_) => r := CanonicalizeArray(v);
    case Object(_) => r := CanonicalizeObject(v);
  }

  method CanonicalizeArray(v: Json) returns (r: Option<Bytes>)
    requires v.Array?
    ensures r.Some? <==> Acceptable(v)
    ensures Sortable(v) ==> r == Print(v)
    decreases v, 0
  {
    hide Acceptable, PrintItems, Print, Sortable;
    AcceptableItems(v);
    var out: Bytes := [91];
    var i := 0;
    while i < |v.items|
      invariant i <= |v.items|
      invariant Sortable(v) ==> Print(v) == Then(Some(out), PrintItems(v, i))
      invariant forall j :: 0 <= j < i ==> Acceptable(v.items[j])
      decreases |v.items| - i
    {
      var p := Canonicalize(v.items[i]);
      ItemStep(v, i, out);
      if p.None? { return None; }
      out := out + Comma(i) + p.value;
      i := i + 1;
    }
    ItemsEnd(v);
    r := Some(out + [93]);
  }

  lemma AcceptableItems(v: Json)
    requires v.Array?
    ensures Acceptable(v) <==> forall j :: 0 <= j < |v.items| ==> Acceptable(v.items[j])
    ensures Acceptable(v) <==> Print(v).Some?
    ensures Print(v) == Then(Some([91]), PrintItems(v, 0))
    ensures Sortable(v) ==> forall j :: 0 <= j < |v.items| ==> Sortable(v.items[j])
  {
    AcceptedExactly(v);
  }

  lemma ItemsEnd(v: Json)
    requires v.Array?
    ensures PrintItems(v, |v.items|) == Some([93])
  {
  }

  lemma ItemStep(v: Json, i: nat, out: Bytes)
    requires v.Array? && i < |v.items|
    ensures var p := Print(v.items[i]);
            Then(Some(out), PrintItems(v, i)) ==
              if p.None? then None else Then(Some(out + Comma(i) + p.value), PrintItems(v, i + 1))
  {
    hide Print, Comma;
    var p, tail := Print(v.items[i]), PrintItems(v, i + 1);
    assert PrintItems(v, i) == Then(Some(Comma(i)), Then(p, tail));
    hide PrintItems;
    if p.Some? && tail.Some? {
      assert out + (Comma(i) + (p.value + tail.value)) == out + Comma(i) + p.value + tail.value;
    }
  }

  /** Sorting decodes the names and so does printing them: one that does not decode is
      refused either way. */
  method CanonicalizeObject(v: Json) returns (r: Option<Bytes>)
    requires v.Object?
    ensures r.Some? <==> Acceptable(v)
    ensures Sortable(v) ==> r == Print(v)
    decreases v, 0
  {
    hide Acceptable, PrintMembers, Print, Quoted, InOrder, Decode, Sortable, Tieless;
    var names := Sort(v.members.Keys);
    NamesAccepted(v, names);
    AcceptedExactly(v);
    if Sortable(v) { SortableMembers(v); }
    var out: Bytes := [123];
    var i := 0;
    MembersBegin(v, names);
    while i < |names|
      invariant i <= |names|
      invariant Tieless(v.members.Keys) && Sortable(v) ==> Print(v) == Then(Some(out), PrintMembers(v, names, i))
      invariant forall j :: 0 <= j < i ==> Decode(names[j]).Some? && names[j] in v.members && Acceptable(v.members[names[j]])
      decreases |names| - i
    {
      assert names[i] in names;
      var q := EscapeInto(names[i]);
      QuotedExactly(names[i]);
      var p := Canonicalize(v.members[names[i]]);
      MemberStep(v, names, i, out);
      if q.None? || p.None? { return None; }
      out := out + Comma(i) + q.value + [58] + p.value;
      i := i + 1;
    }
    MembersEnd(v, names);
    if Sortable(v) { SortableIsTieless(v, names); }
    r := Some(out + [125]);
  }

  lemma QuotedExactly(s: Bytes)
    ensures Quoted(s).Some? <==> Decode(s).Some?
  {
    EscapesExactly(s);
  }

  lemma SortableMembers(v: Json)
    requires v.Object? && Sortable(v)
    ensures forall k :: k in v.members ==> Sortable(v.members[k])
  {
  }

  lemma SortableIsTieless(v: Json, names: seq<Bytes>)
    requires v.Object? && Sortable(v) && forall k :: k in names <==> k in v.members
    requires forall j :: 0 <= j < |names| ==> Decode(names[j]).Some?
    ensures Tieless(v.members.Keys)
  {
    forall k | k in v.members ensures Decode(k).Some? {
      var j :| 0 <= j < |names| && names[j] == k;
    }
  }

  lemma MembersBegin(v: Json, names: seq<Bytes>)
    requires v.Object? && (forall k :: k in names <==> k in v.members.Keys)
    requires Tieless(v.members.Keys) ==> names == InOrder(v.members.Keys)
    ensures Tieless(v.members.Keys) ==> Print(v) == Then(Some([123]), PrintMembers(v, names, 0))
  {
    hide Tieless, InOrder, PrintMembers;
  }

  lemma MembersEnd(v: Json, names: seq<Bytes>)
    requires v.Object? && forall k :: k in names ==> k in v.members
    ensures PrintMembers(v, names, |names|) == Some([125])
  {
  }

  lemma MemberStep(v: Json, names: seq<Bytes>, i: nat, out: Bytes)
    requires v.Object? && i < |names| && (forall k :: k in names ==> k in v.members) && names[i] in v.members
    ensures var q, p := Quoted(names[i]), Print(v.members[names[i]]);
            Then(Some(out), PrintMembers(v, names, i))
            == if q.None? || p.None? then None
               else Then(Some(out + Comma(i) + q.value + [58] + p.value), PrintMembers(v, names, i + 1))
  {
    hide Print, Quoted, Comma;
    var q, p := Quoted(names[i]), Print(v.members[names[i]]);
    var tail := PrintMembers(v, names, i + 1);
    assert PrintMembers(v, names, i) == Then(Some(Comma(i)), Then(q, Then(Some([58]), Then(p, tail))));
    hide PrintMembers;
    if q.Some? && p.Some? && tail.Some? {
      Regroup(out, Comma(i), q.value, [58], p.value, tail.value);
    }
  }

  lemma Regroup(a: Bytes, b: Bytes, c: Bytes, d: Bytes, e: Bytes, f: Bytes)
    ensures a + (b + (c + (d + (e + f)))) == a + b + c + d + e + f
  {
  }
}

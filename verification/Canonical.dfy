/** The canonical form of a JSON value (RFC 8785 without floating point): what is printed,
    what is refused, and what a reader gets back. */
module Canonical {
  import opened Options
  import opened Order
  import opened Utf
  import opened Tokens

  type int64 = n: int | -0x8000_0000_0000_0000 <= n < 0x8000_0000_0000_0000
  type uint64 = n: int | 0 <= n < 0x1_0000_0000_0000_0000

  /** A parsed JSON value. Integers come in two kinds, signed and unsigned. */
  datatype Json =
    | Null
    | Bool(b: bool)
    | Signed(n: int64)
    | Unsigned(u: uint64)
    | Float(bits: uint64)
    | Text(s: Bytes)
    | Array(items: seq<Json>)
    | Object(members: map<Bytes, Json>)
    | Binary(bytes: Bytes)

  // --- integers ------------------------------------------------------------------------------

  const MaxSafe: int := 9007199254740991

  /** The conversion from unsigned to signed: values from 2^63 on wrap around. */
  function Cast(u: uint64): (n: int64) {
    if u < 0x8000_0000_0000_0000 then u else u - 0x1_0000_0000_0000_0000
  }

  function Number(n: int64): (r: Option<Bytes>) {
    if n > MaxSafe || n < -MaxSafe then None else Some(Decimal(n))
  }

  /** The safe range, section 3.2.2.3 of RFC 8785: what fits a double exactly. */
  lemma SafeExactly(n: int64)
    ensures Number(n).Some? <==> -0x1F_FFFF_FFFF_FFFF <= n <= 0x1F_FFFF_FFFF_FFFF
    ensures Number(n).Some? ==> Number(n).value == Decimal(n)
  {
  }

  /** Of the unsigned integers beyond the safe range most are refused, but the last
      2^53 - 1 wrap to small negative ones and are printed as those. */
  lemma UnsignedExactly(u: uint64)
    ensures Number(Cast(u)).Some? <==> u <= 0x1F_FFFF_FFFF_FFFF || u >= 0xFFE0_0000_0000_0001
    ensures Cast(u) == u <==> u < 0x8000_0000_0000_0000
  {
  }

  // --- member order ----------------------------------------------------------------------------

  lemma FirstExists(ks: set<Bytes>)
    requires ks != {}
    ensures exists k :: k in ks && forall x :: x in ks ==> !NameLess(x, k)
  {
    var image := set k | k in ks :: SortKey(k);
    var some :| some in ks;
    assert SortKey(some) in image;
    var m := Smallest(image);
    var k :| k in ks && SortKey(k) == m;
    assert forall x :: x in ks ==> SortKey(x) in image;
  }

  /** The names, each no later than any after it. */
  ghost function InOrder(ks: set<Bytes>): (r: seq<Bytes>)
    ensures forall k :: k in r <==> k in ks
    ensures |r| == |ks|
    decreases |ks|
  {
    if ks == {} then [] else
      FirstExists(ks);
      var k :| k in ks && forall x :: x in ks ==> !NameLess(x, k);
      [k] + InOrder(ks - {k})
  }

  ghost predicate StrictlyOrdered(s: seq<Bytes>) {
    forall i, j :: 0 <= i < j < |s| ==> NameLess(s[i], s[j])
  }

  /** No two names compare as equal. */
  ghost predicate Tieless(ks: set<Bytes>) {
    forall a, b :: a in ks && b in ks && SortKey(a) == SortKey(b) ==> a == b
  }

  lemma WellFormedTieless(ks: set<Bytes>)
    requires forall k :: k in ks ==> WellFormed(k)
    ensures Tieless(ks)
  {
    forall a, b | a in ks && b in ks && SortKey(a) == SortKey(b) ensures a == b {
      SortKeyInjective(a, b);
    }
  }

  lemma {:induction false} InOrderStrict(ks: set<Bytes>)
    requires Tieless(ks)
    ensures StrictlyOrdered(InOrder(ks))
    decreases |ks|
  {
    hide InOrder, NameLess;
    if ks != {} {
      var r := InOrder(ks);
      InOrderFirst(ks);
      InOrderStrict(ks - {r[0]});
      forall j | 0 < j < |r| ensures NameLess(r[0], r[j]) {
        assert r[j] == r[1..][j - 1] && r[j] in InOrder(ks - {r[0]});
        Comparable(r[0], r[j]);
        assert r[0] != r[j];
      }
      forall i, j | 0 < i < j < |r| ensures NameLess(r[i], r[j]) {
        assert r[1..][i - 1] == r[i] && r[1..][j - 1] == r[j];
      }
    } else {
      assert InOrder(ks) == [];
    }
  }

  lemma InOrderFirst(ks: set<Bytes>)
    requires ks != {}
    ensures var r := InOrder(ks);
            r[0] in ks && (forall x :: x in ks ==> !NameLess(x, r[0])) && r[1..] == InOrder(ks - {r[0]})
  {
    hide NameLess;
  }

  /** Whatever order the names come in, sorting them gives one list. */
  lemma {:induction false} OneOrder(a: seq<Bytes>, b: seq<Bytes>)
    requires StrictlyOrdered(a) && StrictlyOrdered(b) && forall k :: k in a <==> k in b
    ensures a == b
    decreases |a|
  {
    hide NameLess;
    assert b != [] ==> b[0] in b;
    if a != [] {
      assert a[0] in b && b != [] && b[0] in a;
      var i :| 0 <= i < |a| && a[i] == b[0];
      var j :| 0 <= j < |b| && b[j] == a[0];
      NotBoth(a[0], b[0]);
      assert a[0] == b[0];
      forall k ensures k in a[1..] <==> k in b[1..] {
        NotBoth(a[0], a[0]);
        if k in a[1..] { assert k in b && k != b[0]; }
        if k in b[1..] { assert k in a && k != a[0]; }
      }
      OneOrder(a[1..], b[1..]);
      assert a == [a[0]] + a[1..] && b == [b[0]] + b[1..];
    }
  }

  lemma Comparable(s: Bytes, t: Bytes)
    ensures SortKey(s) == SortKey(t) || NameLess(s, t) || NameLess(t, s)
  {
    LessTotal(SortKey(s), SortKey(t));
  }

  lemma NotBoth(s: Bytes, t: Bytes)
    ensures !(NameLess(s, t) && NameLess(t, s))
  {
    LessTotal(SortKey(s), SortKey(t));
  }

  // --- printing ----------------------------------------------------------------------------------

  function Then(a: Option<Bytes>, b: Option<Bytes>): (r: Option<Bytes>) {
    if a.None? || b.None? then None else Some(a.value + b.value)
  }

  function Quoted(s: Bytes): (r: Option<Bytes>) {
    Then(Some([Quote]), Then(EscapeText(s), Some([Quote])))
  }

  function Comma(i: nat): (r: Bytes) {
    if i == 0 then [] else [44]
  }

  /** The canonical bytes of `v`; nothing where the printer refuses it. */
  ghost function Print(v: Json): (r: Option<Bytes>)
    decreases v, 1, 0
  {
    match v
    case Null => Some([110, 117, 108, 108])
    case Bool(b) => Some(if b then [116, 114, 117, 101] else [102, 97, 108, 115, 101])
    case Signed(n) => Number(n)
    case Unsigned(u) => Number(Cast(u))
    case Float(_) => None
    case Text(s) => Quoted(s)
    case Array(_) => Then(Some([91]), PrintItems(v, 0))
    case Object(m) => Then(Some([123]), PrintMembers(v, InOrder(m.Keys), 0))
    case Binary(_) => None
  }

  /** The items from `i` on, and the closing bracket. */
  ghost function PrintItems(v: Json, i: nat): (r: Option<Bytes>)
    requires v.Array? && i <= |v.items|
    decreases v, 0, |v.items| - i
  {
    if i == |v.items| then Some([93])
    else Then(Some(Comma(i)), Then(Print(v.items[i]), PrintItems(v, i + 1)))
  }

  ghost function PrintMembers(v: Json, names: seq<Bytes>, i: nat): (r: Option<Bytes>)
    requires v.Object? && i <= |names| && forall k :: k in names ==> k in v.members
    decreases v, 0, |names| - i
  {
    if i == |names| then Some([125])
    else Then(Some(Comma(i)), Then(Quoted(names[i]), Then(Some([58]),
           Then(Print(v.members[names[i]]), PrintMembers(v, names, i + 1)))))
  }

  // --- reading back --------------------------------------------------------------------------------

  predicate StartsWith(s: Bytes, p: Bytes) {
    |p| <= |s| && s[..|p|] == p
  }

  function ReadValue(s: Bytes): (r: Option<Read<Json>>)
    ensures r.Some? ==> |r.value.rest| < |s|
    decreases |s|, 0
  {
    if s == [] then None
    else if s[0] == Quote then
      var t := ReadText(s[1..]);
      if t.None? then None else Some(Read(Text(t.value.value), t.value.rest))
    else if s[0] == 91 then
      var t := ReadItems(s[1..], true);
      if t.None? then None else Some(Read(Array(t.value.value), t.value.rest))
    else if s[0] == 123 then
      var t := ReadMembers(s[1..], true);
      if t.None? then None else Some(Read(Object(t.value.value), t.value.rest))
    else if StartsWith(s, [110, 117, 108, 108]) then Some(Read(Null, s[4..]))
    else if StartsWith(s, [116, 114, 117, 101]) then Some(Read(Bool(true), s[4..]))
    else if StartsWith(s, [102, 97, 108, 115, 101]) then Some(Read(Bool(false), s[5..]))
    else
      var t := ReadInteger(s);
      if t.None? || !(-0x8000_0000_0000_0000 <= t.value.value < 0x8000_0000_0000_0000) then None
      else Some(Read(Signed(t.value.value), t.value.rest))
  }

  function ReadItems(s: Bytes, first: bool): (r: Option<Read<seq<Json>>>)
    ensures r.Some? ==> |r.value.rest| < |s|
    decreases |s|, 1
  {
    if s == [] then None
    else if s[0] == 93 then Some(Read([], s[1..]))
    else if !first && s[0] != 44 then None
    else
      var x := ReadValue(if first then s else s[1..]);
      if x.None? then None else
        var more := ReadItems(x.value.rest, false);
        if more.None? then None else Some(Read([x.value.value] + more.value.value, more.value.rest))
  }

  function ReadMembers(s: Bytes, first: bool): (r: Option<Read<map<Bytes, Json>>>)
    ensures r.Some? ==> |r.value.rest| < |s|
    decreases |s|, 1
  {
    if s == [] then None
    else if s[0] == 125 then Some(Read(map[], s[1..]))
    else if !first && s[0] != 44 then None
    else
      var t := if first then s else s[1..];
      if t == [] || t[0] != Quote then None else
        var k := ReadText(t[1..]);
        if k.None? || k.value.rest == [] || k.value.rest[0] != 58 then None else
          var x := ReadValue(k.value.rest[1..]);
          if x.None? then None else
            var more := ReadMembers(x.value.rest, false);
            if more.None? then None
            else Some(Read(more.value.value[k.value.value := x.value.value], more.value.rest))
  }

  /** The value `s` spells, and nothing after it. */
  function Parse(s: Bytes): (r: Option<Json>) {
    var x := ReadValue(s);
    if x.None? || x.value.rest != [] then None else Some(x.value.value)
  }

  // --- what the reader gets back -----------------------------------------------------------------

  /** The value with every integer as the printer sees it: cast to signed. */
  function Seen(v: Json): (r: Json) {
    match v
    case Unsigned(u) => Signed(Cast(u))
    case Array(items) => Array(seq(|items|, i requires 0 <= i < |items| => Seen(items[i])))
    case Object(m) => Object(map k | k in m :: Seen(m[k]))
    case _ => v
  }

  /** Every string of `v`, member names included, is well-formed UTF-8. */
  ghost predicate Proper(v: Json) {
    match v
    case Text(s) => WellFormed(s)
    case Array(items) => forall i :: 0 <= i < |items| ==> Proper(items[i])
    case Object(m) => forall k :: k in m ==> WellFormed(k) && Proper(m[k])
    case _ => true
  }

  ghost predicate Opening(b: byte) {
    b != 93 && b != 125 && b != 44
  }

  lemma FirstByte(v: Json)
    requires Print(v).Some?
    ensures var p := Print(v).value; p != [] && Opening(p[0])
  {
    hide Decimal;
    if v.Signed? { DecimalFirst(v.n); }
    if v.Unsigned? { DecimalFirst(Cast(v.u)); }
  }

  lemma DecimalFirst(n: int)
    ensures var p := Decimal(n); p != [] && (p[0] == Minus || IsDigit(p[0]))
  {
  }

  lemma NumberBack(n: int64, rest: Bytes)
    requires Number(n).Some? && NoDigitFirst(rest)
    ensures ReadValue(Number(n).value + rest) == Some(Read(Signed(n), rest))
  {
    ReadDecimal(n, rest);
    DecimalFirst(n);
    hide Decimal, ReadInteger;
    var s := Decimal(n) + rest;
    assert s[0] == Decimal(n)[0];
    assert !StartsWith(s, [110, 117, 108, 108]) by { assert |s| < 4 || s[..4][0] == s[0]; }
    assert !StartsWith(s, [116, 114, 117, 101]) by { assert |s| < 4 || s[..4][0] == s[0]; }
    assert !StartsWith(s, [102, 97, 108, 115, 101]) by { assert |s| < 5 || s[..5][0] == s[0]; }
  }

  lemma QuotedBack(s: Bytes, rest: Bytes)
    requires WellFormed(s)
    ensures Quoted(s).Some?
    ensures var q := Quoted(s).value + rest;
            q[0] == Quote && ReadText(q[1..]) == Some(Read(s, rest))
  {
    EscapeIsBytewise(s);
    hide WellFormed, EscapeText, ReadText;
    ReadEscaped(s, rest);
    var e := EscapeBytes(s);
    var q := Quoted(s).value + rest;
    assert q == [Quote] + (e + ([Quote] + rest));
    assert q[1..] == e + ([Quote] + rest);
  }

  lemma WordBack(v: Json, rest: Bytes)
    requires v.Null? || v.Bool?
    ensures ReadValue(Print(v).value + rest) == Some(Read(v, rest))
  {
    var p := Print(v).value;
    var s := p + rest;
    assert s[..|p|] == p && s[|p|..] == rest;
    assert s[0] == p[0];
    assert p != [110, 117, 108, 108] ==> !StartsWith(s, [110, 117, 108, 108]) by {
      assert |s| < 4 || s[..4][0] == s[0];
    }
    assert p[0] != 116 ==> !StartsWith(s, [116, 114, 117, 101]) by { assert |s| < 4 || s[..4][0] == s[0]; }
  }

  /** Read back, in front of anything that does not go on with a digit. */
  ghost predicate ReadsBack(v: Json, rest: Bytes)
    requires Print(v).Some?
  {
    ReadValue(Print(v).value + rest) == Some(Read(Seen(v), rest))
  }

  lemma {:induction false} ReadBack(v: Json, rest: Bytes)
    requires Proper(v) && Print(v).Some? && NoDigitFirst(rest)
    ensures ReadsBack(v, rest)
    decreases v, 1, 0
  {
    match v
    case Null => WordBack(v, rest);
    case Bool(_) => WordBack(v, rest);
    case Signed(n) => NumberBack(n, rest);
    case Unsigned(u) => NumberBack(Cast(u), rest);
    case Text(s) => QuotedBack(s, rest);
    case Array(items) =>
      ItemsBack(v, 0, rest);
      ArrayBack(v, rest);
    case Object(m) =>
      MembersBack(v, InOrder(m.Keys), 0, rest);
      ObjectBack(v, rest);
  }

  ghost function SeenFrom(v: Json, i: nat): (r: seq<Json>)
    requires v.Array? && i <= |v.items|
  {
    seq(|v.items| - i, j requires 0 <= j < |v.items| - i => Seen(v.items[i + j]))
  }

  lemma ReadArray(t: Bytes, items: seq<Json>, rest: Bytes)
    requires ReadItems(t, true) == Some(Read(items, rest))
    ensures ReadValue([91] + t) == Some(Read(Array(items), rest))
  {
    hide ReadItems;
    var s := [91] + t;
    assert s[0] == 91 && s[1..] == t;
  }

  lemma ReadObject(t: Bytes, members: map<Bytes, Json>, rest: Bytes)
    requires ReadMembers(t, true) == Some(Read(members, rest))
    ensures ReadValue([123] + t) == Some(Read(Object(members), rest))
  {
    hide ReadMembers;
    var s := [123] + t;
    assert s[0] == 123 && s[1..] == t;
  }

  lemma ArrayBack(v: Json, rest: Bytes)
    requires v.Array? && Print(v).Some?
    requires ReadItems(PrintItems(v, 0).value + rest, true) == Some(Read(SeenFrom(v, 0), rest))
    ensures ReadsBack(v, rest)
  {
    hide ReadItems, PrintItems, ReadValue;
    var p := PrintItems(v, 0).value;
    assert Print(v).value + rest == [91] + (p + rest);
    ReadArray(p + rest, SeenFrom(v, 0), rest);
    assert SeenFrom(v, 0) == Seen(v).items;
  }

  lemma TailByte(v: Json, i: nat, rest: Bytes)
    requires v.Array? && i <= |v.items| && PrintItems(v, i).Some? && i > 0
    ensures NoDigitFirst(PrintItems(v, i).value + rest)
  {
    hide Print;
  }

  lemma {:induction false} ItemsBack(v: Json, i: nat, rest: Bytes)
    requires v.Array? && i <= |v.items| && Proper(v) && PrintItems(v, i).Some?
    ensures ReadItems(PrintItems(v, i).value + rest, i == 0) == Some(Read(SeenFrom(v, i), rest))
    decreases v, 0, |v.items| - i
  {
    hide Print, ReadValue;
    if i == |v.items| {
      assert ([93] + rest)[1..] == rest;
      assert SeenFrom(v, i) == [];
    } else {
      var tail := PrintItems(v, i + 1).value + rest;
      TailByte(v, i + 1, rest);
      FirstByte(v.items[i]);
      ReadBack(v.items[i], tail);
      ItemsBack(v, i + 1, rest);
      ItemNext(v, i, rest);
    }
  }

  lemma ItemNext(v: Json, i: nat, rest: Bytes)
    requires v.Array? && i < |v.items| && PrintItems(v, i).Some?
    requires var p := Print(v.items[i]).value; p != [] && Opening(p[0])
    requires ReadsBack(v.items[i], PrintItems(v, i + 1).value + rest)
    requires ReadItems(PrintItems(v, i + 1).value + rest, false) == Some(Read(SeenFrom(v, i + 1), rest))
    ensures ReadItems(PrintItems(v, i).value + rest, i == 0) == Some(Read(SeenFrom(v, i), rest))
  {
    hide Print, ReadValue, Seen;
    var p := Print(v.items[i]).value;
    var tail := PrintItems(v, i + 1).value + rest;
    var s := PrintItems(v, i).value + rest;
    assert s == Comma(i) + (p + tail);
    assert i == 0 ==> s == p + tail;
    assert i > 0 ==> s[0] == 44 && s[1..] == p + tail;
    assert SeenFrom(v, i) == [Seen(v.items[i])] + SeenFrom(v, i + 1);
  }

  ghost predicate NamesOf(v: Json, names: seq<Bytes>) {
    v.Object? && forall k :: k in names ==> k in v.members
  }

  ghost function SeenOf(v: Json, names: seq<Bytes>): (r: map<Bytes, Json>)
    requires v.Object?
  {
    map k | k in names && k in v.members :: Seen(v.members[k])
  }

  lemma ObjectBack(v: Json, rest: Bytes)
    requires v.Object? && Print(v).Some?
    requires var names := InOrder(v.members.Keys);
             ReadMembers(PrintMembers(v, names, 0).value + rest, true) == Some(Read(SeenOf(v, names[0..]), rest))
    ensures ReadsBack(v, rest)
  {
    hide ReadMembers, PrintMembers, ReadValue, InOrder, Seen, SeenOf;
    var names := InOrder(v.members.Keys);
    var p := PrintMembers(v, names, 0).value;
    assert Print(v).value + rest == [123] + (p + rest);
    assert names[0..] == names;
    SeenAll(v, names);
    ReadObject(p + rest, SeenOf(v, names), rest);
  }

  lemma SeenAll(v: Json, names: seq<Bytes>)
    requires v.Object? && forall k :: k in names <==> k in v.members
    ensures Seen(v) == Object(SeenOf(v, names))
  {
  }

  lemma MembersTail(v: Json, names: seq<Bytes>, i: nat, rest: Bytes)
    requires NamesOf(v, names) && i <= |names| && PrintMembers(v, names, i).Some? && i > 0
    ensures NoDigitFirst(PrintMembers(v, names, i).value + rest)
  {
    hide Print, Quoted;
  }

  lemma {:induction false} MembersBack(v: Json, names: seq<Bytes>, i: nat, rest: Bytes)
    requires NamesOf(v, names) && i <= |names| && Proper(v) && PrintMembers(v, names, i).Some?
    ensures ReadMembers(PrintMembers(v, names, i).value + rest, i == 0) == Some(Read(SeenOf(v, names[i..]), rest))
    decreases v, 0, |names| - i
  {
    hide Print, ReadValue, Quoted, ReadText, WellFormed;
    if i == |names| {
      assert ([125] + rest)[1..] == rest;
      assert SeenOf(v, names[i..]) == map[];
    } else {
      assert names[i] in names;
      var tail := PrintMembers(v, names, i + 1).value + rest;
      MembersTail(v, names, i + 1, rest);
      ReadBack(v.members[names[i]], tail);
      MembersBack(v, names, i + 1, rest);
      MemberNext(v, names, i, rest);
    }
  }

  lemma MemberNext(v: Json, names: seq<Bytes>, i: nat, rest: Bytes)
    requires NamesOf(v, names) && i < |names| && PrintMembers(v, names, i).Some? && names[i] in names
    requires WellFormed(names[i])
    requires ReadsBack(v.members[names[i]], PrintMembers(v, names, i + 1).value + rest)
    requires ReadMembers(PrintMembers(v, names, i + 1).value + rest, false) == Some(Read(SeenOf(v, names[i + 1..]), rest))
    ensures ReadMembers(PrintMembers(v, names, i).value + rest, i == 0) == Some(Read(SeenOf(v, names[i..]), rest))
  {
    hide Print, ReadValue, Seen, SeenOf, Quoted, ReadText, WellFormed, PrintMembers;
    MemberLaidOut(v, names, i, rest);
    var p := Print(v.members[names[i]]).value;
    var tail := PrintMembers(v, names, i + 1).value + rest;
    var after: Bytes := [58] + (p + tail);
    QuotedBack(names[i], after);
    assert after[1..] == p + tail;
    SeenNext(v, names, i);
  }

  lemma MemberLaidOut(v: Json, names: seq<Bytes>, i: nat, rest: Bytes)
    requires NamesOf(v, names) && i < |names| && PrintMembers(v, names, i).Some? && names[i] in v.members
    ensures Quoted(names[i]).Some? && Print(v.members[names[i]]).Some? && PrintMembers(v, names, i + 1).Some?
    ensures var q, p := Quoted(names[i]).value, Print(v.members[names[i]]).value;
            var s, from := PrintMembers(v, names, i).value + rest, q + ([58] + (p + (PrintMembers(v, names, i + 1).value + rest)));
            (i == 0 ==> s == from) && (i > 0 ==> s != [] && s[0] == 44 && s[1..] == from)
  {
    hide Print, Quoted;
    var q, p := Quoted(names[i]).value, Print(v.members[names[i]]).value;
    var from := q + ([58] + (p + (PrintMembers(v, names, i + 1).value + rest)));
    assert PrintMembers(v, names, i).value + rest == Comma(i) + from;
  }

  lemma SeenNext(v: Json, names: seq<Bytes>, i: nat)
    requires NamesOf(v, names) && i < |names| && names[i] in v.members
    ensures SeenOf(v, names[i + 1..])[names[i] := Seen(v.members[names[i]])] == SeenOf(v, names[i..])
  {
    hide Seen;
    assert names[i..] == [names[i]] + names[i + 1..];
  }

  /** Every printed value whose text is well-formed is read back as the printer saw it. */
  lemma Recovered(v: Json)
    requires Proper(v) && Print(v).Some?
    ensures Parse(Print(v).value) == Some(Seen(v))
  {
    ReadBack(v, []);
    assert Print(v).value + [] == Print(v).value;
  }

  // --- equal values, equal bytes ---------------------------------------------------------------

  /** Equality of JSON values: integers by their value, whichever kind they are. */
  ghost predicate Equal(v: Json, w: Json) {
    match v
    case Signed(n) => (w.Signed? && n == w.n) || (w.Unsigned? && n == w.u)
    case Unsigned(u) => (w.Signed? && u == w.n) || (w.Unsigned? && u == w.u)
    case Array(items) => w.Array? && |items| == |w.items| && forall i :: 0 <= i < |items| ==> Equal(items[i], w.items[i])
    case Object(m) => w.Object? && m.Keys == w.members.Keys && forall k :: k in m ==> Equal(m[k], w.members[k])
    case _ => v == w
  }

  /** No unsigned integer of 2^63 or more. */
  ghost predicate Narrow(v: Json) {
    match v
    case Unsigned(u) => u < 0x8000_0000_0000_0000
    case Array(items) => forall i :: 0 <= i < |items| ==> Narrow(items[i])
    case Object(m) => forall k :: k in m ==> Narrow(m[k])
    case _ => true
  }

  /** What the reader gets back equals what was printed, exactly where nothing wrapped. */
  lemma {:induction false} SeenEqual(v: Json)
    ensures Equal(v, Seen(v)) <==> Narrow(v)
  {
    match v
    case Array(items) =>
      forall i | 0 <= i < |items| ensures Equal(items[i], Seen(v).items[i]) <==> Narrow(items[i]) {
        SeenEqual(items[i]);
      }
    case Object(m) =>
      forall k | k in m ensures Equal(m[k], Seen(v).members[k]) <==> Narrow(m[k]) {
        SeenEqual(m[k]);
      }
    case _ =>
  }

  lemma RecoveredExactly(v: Json)
    requires Proper(v) && Print(v).Some?
    ensures Parse(Print(v).value).Some?
    ensures Equal(v, Parse(Print(v).value).value) <==> Narrow(v)
  {
    Recovered(v);
    SeenEqual(v);
  }

  lemma {:induction false} EqualSeen(v: Json, w: Json)
    requires Narrow(v) && Narrow(w)
    ensures Equal(v, w) <==> Seen(v) == Seen(w)
  {
    match v
    case Array(items) =>
      if w.Array? && |items| == |w.items| {
        forall i | 0 <= i < |items|
          ensures Equal(items[i], w.items[i]) <==> Seen(items[i]) == Seen(w.items[i])
        {
          EqualSeen(items[i], w.items[i]);
        }
        ArraysSeen(v, w);
      } else if w.Array? {
        assert |Seen(v).items| == |items| && |Seen(w).items| == |w.items|;
      }
    case Object(m) =>
      if w.Object? && m.Keys == w.members.Keys {
        forall k | k in m
          ensures Equal(m[k], w.members[k]) <==> Seen(m[k]) == Seen(w.members[k])
        {
          EqualSeen(m[k], w.members[k]);
        }
        ObjectsSeen(v, w);
      } else if w.Object? {
        assert Seen(v).members.Keys == m.Keys && Seen(w).members.Keys == w.members.Keys;
      }
    case _ =>
  }

  lemma ArraysSeen(v: Json, w: Json)
    requires v.Array? && w.Array? && |v.items| == |w.items|
    ensures Seen(v) == Seen(w) <==> forall i :: 0 <= i < |v.items| ==> Seen(v.items[i]) == Seen(w.items[i])
  {
    if Seen(v) == Seen(w) {
      forall i | 0 <= i < |v.items| ensures Seen(v.items[i]) == Seen(w.items[i]) {
        assert Seen(v).items[i] == Seen(w).items[i];
      }
    } else {
      assert exists i :: 0 <= i < |v.items| && Seen(v).items[i] != Seen(w).items[i];
    }
  }

  lemma SeenMembers(v: Json)
    requires v.Object?
    ensures Seen(v).Object? && Seen(v).members.Keys == v.members.Keys
    ensures forall k :: k in v.members ==> Seen(v).members[k] == Seen(v.members[k])
  {
  }

  lemma SameMap(a: map<Bytes, Json>, b: map<Bytes, Json>)
    requires a.Keys == b.Keys
    ensures a == b <==> forall k :: k in a ==> a[k] == b[k]
  {
  }

  lemma ObjectsSeen(v: Json, w: Json)
    requires v.Object? && w.Object? && v.members.Keys == w.members.Keys
    ensures Seen(v) == Seen(w) <==> forall k :: k in v.members ==> Seen(v.members[k]) == Seen(w.members[k])
  {
    hide Seen;
    SeenMembers(v);
    SeenMembers(w);
    SameMap(Seen(v).members, Seen(w).members);
  }

  lemma {:induction false} PrintSeen(v: Json)
    ensures Print(Seen(v)) == Print(v)
    decreases v, 1, 0
  {
    match v
    case Array(_) => ItemsSeen(v, 0);
    case Object(m) =>
      assert Seen(v).members.Keys == m.Keys;
      MembersSeen(v, InOrder(m.Keys), 0);
    case _ =>
  }

  lemma {:induction false} ItemsSeen(v: Json, i: nat)
    requires v.Array? && i <= |v.items|
    ensures PrintItems(Seen(v), i) == PrintItems(v, i)
    decreases v, 0, |v.items| - i
  {
    if i < |v.items| {
      PrintSeen(v.items[i]);
      ItemsSeen(v, i + 1);
    }
  }

  lemma {:induction false} MembersSeen(v: Json, names: seq<Bytes>, i: nat)
    requires v.Object? && i <= |names| && forall k :: k in names ==> k in v.members
    ensures PrintMembers(Seen(v), names, i) == PrintMembers(v, names, i)
    decreases v, 0, |names| - i
  {
    if i < |names| {
      assert names[i] in names;
      PrintSeen(v.members[names[i]]);
      MembersSeen(v, names, i + 1);
    }
  }

  /** Two printed values with well-formed text have the same bytes exactly when the
      printer sees the same value, and, where nothing wraps, exactly when they are
      equal. */
  lemma SameBytesExactly(v: Json, w: Json)
    requires Proper(v) && Proper(w) && Print(v).Some? && Print(w).Some?
    ensures Print(v) == Print(w) <==> Seen(v) == Seen(w)
    ensures Narrow(v) && Narrow(w) ==> (Print(v) == Print(w) <==> Equal(v, w))
  {
    Recovered(v);
    Recovered(w);
    PrintSeen(v);
    PrintSeen(w);
    if Narrow(v) && Narrow(w) { EqualSeen(v, w); }
  }

  /** The largest unsigned integer is printed as minus one. */
  lemma WrapsToMinusOne()
    ensures Print(Unsigned(0xFFFF_FFFF_FFFF_FFFF)) == Print(Signed(-1)) == Some([45, 49])
    ensures !Equal(Unsigned(0xFFFF_FFFF_FFFF_FFFF), Signed(-1))
  {
    assert Digits(1) == [49];
    assert Decimal(-1) == [Minus] + [49] == [45, 49];
  }

  /** An overlong quotation mark is printed as the quotation mark. */
  lemma OverlongCollides()
    ensures Print(Text([0xC0, 0xA2])) == Print(Text([0x22]))
    ensures Print(Text([0x22])).Some?
  {
    var s: Bytes, t: Bytes := [0xC0, 0xA2], [0x22];
    assert Head(s) == Some(Char(0x22, 2)) && Head(t) == Some(Char(0x22, 1));
    assert s[2..] == [] && t[1..] == [];
    assert EscapeText([]) == Some([]);
    assert EscapeText(s) == Glue(EscapeChar(0x22, s[..2]), EscapeText(s[2..]));
    assert EscapeText(t) == Glue(EscapeChar(0x22, t[..1]), EscapeText(t[1..]));
  }

  // --- the order in which members appear ----------------------------------------------------------

  /** The names of the members of an object, in the order in which they appear. */
  function ReadNames(s: Bytes, first: bool): (r: Option<Read<seq<Bytes>>>)
    ensures r.Some? ==> |r.value.rest| < |s|
    decreases |s|
  {
    if s == [] then None
    else if s[0] == 125 then Some(Read([], s[1..]))
    else if !first && s[0] != 44 then None
    else
      var t := if first then s else s[1..];
      if t == [] || t[0] != Quote then None else
        var k := ReadText(t[1..]);
        if k.None? || k.value.rest == [] || k.value.rest[0] != 58 then None else
          var x := ReadValue(k.value.rest[1..]);
          if x.None? then None else
            var more := ReadNames(x.value.rest, false);
            if more.None? then None else Some(Read([k.value.value] + more.value.value, more.value.rest))
  }

  lemma {:induction false} NamesBack(v: Json, names: seq<Bytes>, i: nat, rest: Bytes)
    requires NamesOf(v, names) && i <= |names| && Proper(v) && PrintMembers(v, names, i).Some?
    ensures ReadNames(PrintMembers(v, names, i).value + rest, i == 0) == Some(Read(names[i..], rest))
    decreases |names| - i
  {
    hide Print, ReadValue, Quoted, ReadText, WellFormed;
    if i == |names| {
      assert ([125] + rest)[1..] == rest;
      assert names[i..] == [];
    } else {
      assert names[i] in names;
      MembersTail(v, names, i + 1, rest);
      ReadBack(v.members[names[i]], PrintMembers(v, names, i + 1).value + rest);
      NamesBack(v, names, i + 1, rest);
      NameNext(v, names, i, rest);
    }
  }

  lemma NameNext(v: Json, names: seq<Bytes>, i: nat, rest: Bytes)
    requires NamesOf(v, names) && i < |names| && PrintMembers(v, names, i).Some? && names[i] in names
    requires WellFormed(names[i])
    requires ReadsBack(v.members[names[i]], PrintMembers(v, names, i + 1).value + rest)
    requires ReadNames(PrintMembers(v, names, i + 1).value + rest, false) == Some(Read(names[i + 1..], rest))
    ensures ReadNames(PrintMembers(v, names, i).value + rest, i == 0) == Some(Read(names[i..], rest))
  {
    hide Print, ReadValue, Seen, Quoted, ReadText, WellFormed, PrintMembers;
    MemberLaidOut(v, names, i, rest);
    var p := Print(v.members[names[i]]).value;
    var tail := PrintMembers(v, names, i + 1).value + rest;
    var after: Bytes := [58] + (p + tail);
    QuotedBack(names[i], after);
    assert after[1..] == p + tail;
    assert names[i..] == [names[i]] + names[i + 1..];
  }

  /** The text of a name. */
  ghost predicate Spells(s: Bytes, cps: seq<int>) {
    Scalars(cps) && EncodeAll(cps) == s
  }

  /** Each name before the next, by the UTF-16 code units of their texts. */
  ghost predicate Ascending(names: seq<Bytes>) {
    forall i, j, a, b :: 0 <= i < j < |names| && Spells(names[i], a) && Spells(names[j], b) ==>
      ComesFirst(AllUnits(a), AllUnits(b))
  }

  /** The members of a printed object appear each once, in ascending order of the UTF-16
      code units of their names. */
  lemma MembersAppearInOrder(v: Json)
    requires v.Object? && Proper(v) && Print(v).Some?
    ensures var s := Print(v).value;
            && s != [] && s[0] == 123 && ReadNames(s[1..], true).Some? && ReadNames(s[1..], true).value.rest == []
            && var names := ReadNames(s[1..], true).value.value;
               Ascending(names) && |names| == |v.members| && forall k :: k in names <==> k in v.members
  {
    hide InOrder, Less, NameLess, ReadNames, PrintMembers, ReadText, ReadValue, WellFormed, Tieless;
    var names := InOrder(v.members.Keys);
    WellFormedTieless(v.members.Keys);
    InOrderStrict(v.members.Keys);
    NamesBack(v, names, 0, []);
    var p := PrintMembers(v, names, 0).value;
    assert Print(v).value == [123] + p && ([123] + p)[1..] == p && p + [] == p;
    assert names[0..] == names;
    forall i, j, a, b | 0 <= i < j < |names| && Spells(names[i], a) && Spells(names[j], b)
      ensures ComesFirst(AllUnits(a), AllUnits(b))
    {
      NameLessIs(a, b);
    }
  }

  lemma Letter(b: byte)
    requires b == 97 || b == 98
    ensures Decode([b]) == Some([b]) && SortKey([b]) == [b] && Quoted([b]) == Some([34, b, 34])
  {
    assert [b][1..] == [] && [b][..1] == [b];
    assert Head([b]) == Some(Char(b, 1));
    var one: seq<int> := [b];
    assert one + [] == one && one[1..] == [];
    assert Decode([]) == Some([]) && Prepend(one, Some([])) == Some(one);
    assert EscapeText([]) == Some([]);
    assert EscapeText([b]) == Some([b]);
    assert AllUnits(one) == one + AllUnits([]);
    assert [34] + ([b] + [34]) == [34, b, 34];
  }

  lemma AbInOrder()
    ensures InOrder({[97], [98]}) == [[97], [98]]
  {
    Letter(97);
    Letter(98);
    assert Less([97], [98]);
    var ks: set<Bytes> := {[97], [98]};
    hide SortKey;
    assert Tieless(ks);
    InOrderStrict(ks);
    OneOrder([[97], [98]], InOrder(ks));
  }

  lemma MemberIs(v: Json, names: seq<Bytes>, i: nat, q: Bytes, p: Bytes, tail: Bytes)
    requires NamesOf(v, names) && i < |names| && names[i] in v.members
    requires Quoted(names[i]) == Some(q) && Print(v.members[names[i]]) == Some(p) && PrintMembers(v, names, i + 1) == Some(tail)
    ensures PrintMembers(v, names, i) == Some(Comma(i) + (q + ([58] + (p + tail))))
  {
    hide Quoted, Print;
  }

  function Ab(): (v: Json) {
    Object(map[[97] := Signed(1), [98] := Signed(2)])
  }

  lemma AbMembers()
    ensures NamesOf(Ab(), [[97], [98]])
    ensures PrintMembers(Ab(), [[97], [98]], 0) == Some([34, 97, 34, 58, 49, 44, 34, 98, 34, 58, 50, 125])
  {
    var v, names := Ab(), [[97], [98]];
    Letter(97);
    Letter(98);
    assert Decimal(1) == [49] && Decimal(2) == [50];
    assert Print(v.members[names[0]]) == Some([49]) && Print(v.members[names[1]]) == Some([50]);
    hide Quoted, Print;
    var tail: Bytes := [125];
    assert PrintMembers(v, names, 2) == Some(tail);
    hide PrintMembers;
    MemberIs(v, names, 1, [34, 98, 34], [50], tail);
    var second: Bytes := Comma(1) + ([34, 98, 34] + ([58] + ([50] + tail)));
    assert second == [44, 34, 98, 34, 58, 50, 125];
    MemberIs(v, names, 0, [34, 97, 34], [49], second);
    assert Comma(0) + ([34, 97, 34] + ([58] + ([49] + second))) == [34, 97, 34, 58, 49, 44, 34, 98, 34, 58, 50, 125];
  }

  /** {"a":1,"b":2} is printed so, to the byte. */
  lemma AnObject()
    ensures Print(Ab()) == Some([123, 34, 97, 34, 58, 49, 44, 34, 98, 34, 58, 50, 125])
  {
    hide InOrder, PrintMembers, Quoted, Number;
    AbInOrder();
    AbMembers();
    assert Ab().members.Keys == {[97], [98]};
    var inside: Bytes := [34, 97, 34, 58, 49, 44, 34, 98, 34, 58, 50, 125];
    assert [123] + inside == [123, 34, 97, 34, 58, 49, 44, 34, 98, 34, 58, 50, 125];
  }
}

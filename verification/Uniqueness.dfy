/** The planner's proofs that a key names at most one row, and why they are sound
    under SQL's reading of NULL. */
module Uniqueness {
  import opened Options
  import opened Order
  import Walk

  type Row = Walk.Row

  function Val(r: Row, c: string): Option<int> {
    if c in r then r[c] else None
  }

  /** An index as observed. A column is None where it is an expression; `columns` or
      `filter` is None where the observation does not say. An empty filter is
      no predicate. */
  datatype Index = Index(
    name: string, unique: bool, valid: bool, primary: bool, expressions: bool, leading: string,
    columns: Option<seq<Option<string>>>, keyColumns: Option<nat>, filter: Option<string>)

  /** A table as observed, its indexes in the order of their names. */
  datatype Observed = Observed(indexes: seq<Index>, notNull: set<string>)

  /** Key columns come first; INCLUDE payload follows them. */
  function KeyCount(ix: Index): nat {
    if ix.keyColumns.Some? then ix.keyColumns.value
    else if ix.columns.Some? then |ix.columns.value| else 0
  }

  predicate PlainKey(ix: Index) {
    && ix.columns.Some? && KeyCount(ix) <= |ix.columns.value|
    && forall c :: 0 <= c < KeyCount(ix) ==> ix.columns.value[c].Some?
  }

  function KeyColumns(ix: Index): seq<string>
    requires PlainKey(ix)
  {
    seq(KeyCount(ix), c requires 0 <= c < KeyCount(ix) => ix.columns.value[c].value)
  }

  /** SQL equality on every column of a list: NULL equals nothing, not even NULL. */
  ghost predicate SameOn(a: Row, b: Row, columns: seq<string>) {
    forall c :: c in columns ==> Val(a, c).Some? && Val(a, c) == Val(b, c)
  }

  /** What an index truly enforces on a table: a unique, valid index with plain key
      columns admits no two of the rows its predicate covers that are equal, in the
      sense of SQL, on all of them. */
  ghost predicate Enforced(ix: Index, rows: seq<Row>, covered: Row -> bool) {
    ix.unique && ix.valid && PlainKey(ix) && !ix.expressions ==>
      forall i, j :: 0 <= i < |rows| && 0 <= j < |rows| && i != j && covered(rows[i]) && covered(rows[j]) ==>
        !SameOn(rows[i], rows[j], KeyColumns(ix))
  }

  /** The observation is true of the table. `covers` says which rows an index's
      predicate covers: all of them where there is none. */
  ghost predicate Truthful(t: Observed, rows: seq<Row>, covers: (Index, Row) -> bool) {
    && (forall i :: 0 <= i < |t.indexes| ==>
        var ix := t.indexes[i];
        && Enforced(ix, rows, r => covers(ix, r))
        && (ix.filter == Some("") ==> forall r :: covers(ix, r))
        && (ix.columns.Some? ==>
            && KeyCount(ix) <= |ix.columns.value|
            && (ix.leading != "" ==> ix.columns.value != [] && ix.columns.value[0] == Some(ix.leading))
            && (ix.leading != "" && KeyCount(ix) == 1 ==> !ix.expressions)))
    && (forall i, c :: 0 <= i < |rows| && c in t.notNull ==> Val(rows[i], c).Some?)
    && (forall i :: 0 <= i < |rows| ==> "" !in rows[i])
  }

  /** A complete index: one that covers every row. */
  ghost predicate EnforcedOnAll(ix: Index, rows: seq<Row>)
    requires PlainKey(ix)
  {
    forall i, j :: 0 <= i < |rows| && 0 <= j < |rows| && i != j ==> !SameOn(rows[i], rows[j], KeyColumns(ix))
  }

  ghost predicate AtMostOne(rows: seq<Row>, columns: seq<string>) {
    forall i, j :: 0 <= i < |rows| && 0 <= j < |rows| && SameOn(rows[i], rows[j], columns) ==> i == j
  }

  // --- one column ---------------------------------------------------------------

  predicate ProvesKey(ix: Index, key: string) {
    && ix.leading == key && ix.unique && ix.valid
    && ix.columns.Some? && ix.filter.Some?
    && KeyCount(ix) == 1 && ix.filter.value == ""
  }

  /** The first name there is among the indexes that lead with the key. */
  function LeadingName(indexes: seq<Index>, key: string): (name: string)
    ensures name == "" <==> forall i :: 0 <= i < |indexes| && indexes[i].leading == key ==> indexes[i].name == ""
    ensures name != "" ==> exists i :: 0 <= i < |indexes| && indexes[i].leading == key && indexes[i].name == name
                                       && forall j :: 0 <= j < i && indexes[j].leading == key ==> indexes[j].name == ""
  {
    if indexes == [] then ""
    else
      var n := |indexes| - 1;
      var before := LeadingName(indexes[..n], key);
      assert forall i :: 0 <= i < n ==> indexes[..n][i] == indexes[i];
      if before != "" || indexes[n].leading != key then before else indexes[n].name
  }

  /** The proving index, or, for the message, the first that leads with the key. */
  method UniqueKeyIndex(t: Observed, key: string) returns (found: bool, name: string)
    ensures found <==> exists i :: 0 <= i < |t.indexes| && ProvesKey(t.indexes[i], key)
    ensures found ==> exists i :: 0 <= i < |t.indexes| && ProvesKey(t.indexes[i], key) && name == t.indexes[i].name
                                  && forall j :: 0 <= j < i ==> !ProvesKey(t.indexes[j], key)
    ensures !found ==> name == LeadingName(t.indexes, key)
  {
    name := "";
    for n := 0 to |t.indexes|
      invariant forall i :: 0 <= i < n ==> !ProvesKey(t.indexes[i], key)
      invariant name == LeadingName(t.indexes[..n], key)
    {
      assert t.indexes[..n + 1][..n] == t.indexes[..n];
      var ix := t.indexes[n];
      if ix.leading != key { continue; }
      if name == "" { name := ix.name; }
      if !ix.unique { continue; }
      if !ix.valid { continue; }
      if ix.columns.None? || ix.filter.None? { continue; }
      if KeyCount(ix) != 1 { continue; }
      if ix.filter.value != "" { continue; }
      return true, ix.name;
    }
    assert t.indexes[..|t.indexes|] == t.indexes;
    return false, name;
  }

  lemma KeySound(t: Observed, rows: seq<Row>, covers: (Index, Row) -> bool, n: nat, key: string)
    requires Truthful(t, rows, covers) && n < |t.indexes| && ProvesKey(t.indexes[n], key)
    ensures AtMostOne(rows, [key])
  {
    var ix := t.indexes[n];
    assert key in [key];
    if key != "" {
      assert KeyColumns(ix) == [key];
    }
  }

  /** "Leads with the key" is not enough, and one key column is: a complete plain
      unique index that leads with `key` makes it unique in every table it holds of
      if and only if `key` is its only key column. */
  lemma LeadingAloneExactly(ix: Index, key: string)
    requires PlainKey(ix)
    requires KeyCount(ix) > 0 && KeyColumns(ix)[0] == key
    requires forall i, j :: 0 <= i < j < KeyCount(ix) ==> KeyColumns(ix)[i] != KeyColumns(ix)[j]
    ensures KeyCount(ix) == 1 <==> forall rows :: EnforcedOnAll(ix, rows) ==> AtMostOne(rows, [key])
  {
    var cols := KeyColumns(ix);
    if KeyCount(ix) == 1 {
      forall rows | EnforcedOnAll(ix, rows)
        ensures AtMostOne(rows, [key])
      {
        assert cols == [key];
      }
    } else {
      var a := map c | c in cols :: Some(0);
      var b := map c | c in cols :: if c == cols[1] then Some(1) else Some(0);
      var rows := [a, b];
      assert cols[1] in cols && Val(a, cols[1]) != Val(b, cols[1]);
      assert EnforcedOnAll(ix, rows);
      assert SameOn(rows[0], rows[1], [key]) by { assert cols[0] in cols; }
    }
  }

  // --- a key unique within a group -------------------------------------------------

  predicate ProvesWithinGroup(ix: Index, key: string, required: string) {
    && ix.unique && ix.valid && !ix.expressions && ix.columns.Some? && ix.filter == Some("")
    && KeyCount(ix) == 2 && |ix.columns.value| >= 2
    && ix.columns.value[0].Some? && ix.columns.value[1] == Some(key)
    && (required != "" ==> ix.columns.value[0].value == required)
  }

  method UniqueGroupKeyIndex(t: Observed, key: string, required: string)
    returns (found: bool, group: string, name: string)
    ensures found <==> exists i :: 0 <= i < |t.indexes| && ProvesWithinGroup(t.indexes[i], key, required)
    ensures found ==> exists i :: 0 <= i < |t.indexes| && ProvesWithinGroup(t.indexes[i], key, required) &&
                                  name == t.indexes[i].name && Some(group) == t.indexes[i].columns.value[0] &&
                                  forall j :: 0 <= j < i ==> !ProvesWithinGroup(t.indexes[j], key, required)
    ensures found && required != "" ==> group == required
  {
    for n := 0 to |t.indexes|
      invariant forall i :: 0 <= i < n ==> !ProvesWithinGroup(t.indexes[i], key, required)
    {
      var ix := t.indexes[n];
      if !ix.unique || !ix.valid { continue; }
      if ix.expressions { continue; }
      if ix.columns.None? || ix.filter.None? { continue; }
      if ix.filter.value != "" { continue; }
      if KeyCount(ix) != 2 || |ix.columns.value| < 2 { continue; }
      if ix.columns.value[0].None? || ix.columns.value[1].None? { continue; }
      if ix.columns.value[1].value != key { continue; }
      var g := ix.columns.value[0].value;
      if required != "" && g != required { continue; }
      return true, g, ix.name;
    }
    return false, "", "";
  }

  lemma GroupKeySound(t: Observed, rows: seq<Row>, covers: (Index, Row) -> bool, n: nat, key: string, required: string)
    requires Truthful(t, rows, covers) && n < |t.indexes| && ProvesWithinGroup(t.indexes[n], key, required)
    ensures AtMostOne(rows, [t.indexes[n].columns.value[0].value, key])
  {
    var ix := t.indexes[n];
    assert KeyColumns(ix) == [ix.columns.value[0].value, key];
  }

  // --- the columns of a composite walk ------------------------------------------------

  predicate Usable(t: Observed, ix: Index, key: string) {
    && ix.unique && ix.valid && !ix.expressions && ix.columns.Some? && ix.filter == Some("")
    && KeyCount(ix) >= 2 && PlainKey(ix)
    && (forall c :: 0 <= c < KeyCount(ix) ==> ix.columns.value[c].value in t.notNull)
    && key in KeyColumns(ix)
  }

  /** Primary first, then the narrower. */
  predicate Better(a: Index, b: Index) {
    (a.primary && !b.primary) || (a.primary == b.primary && KeyCount(a) < KeyCount(b))
  }

  method ReadKey(t: Observed, ix: Index, key: string) returns (ok: bool, cols: seq<string>)
    requires ix.columns.Some? && KeyCount(ix) <= |ix.columns.value|
    ensures ok <==>
      && PlainKey(ix)
      && (forall c :: 0 <= c < KeyCount(ix) ==> ix.columns.value[c].value in t.notNull)
      && key in KeyColumns(ix)
    ensures ok ==> cols == KeyColumns(ix)
  {
    cols := [];
    var hasKey := false;
    for c := 0 to KeyCount(ix)
      invariant |cols| == c
      invariant forall d :: 0 <= d < c ==> ix.columns.value[d] == Some(cols[d]) && cols[d] in t.notNull
      invariant hasKey <==> key in cols
    {
      if ix.columns.value[c].None? { return false, cols; }
      var name := ix.columns.value[c].value;
      if name !in t.notNull { return false, cols; }
      if name == key { hasKey := true; }
      cols := cols + [name];
    }
    assert cols == KeyColumns(ix);
    return hasKey, cols;
  }

  /** The index whose columns a composite walk follows. Found when any index serves;
      no other is better, and of equals the first by name. */
  method UniqueIndexContaining(t: Observed, key: string) returns (best: Option<nat>, columns: seq<string>)
    ensures best.None? <==> forall i :: 0 <= i < |t.indexes| ==> !Usable(t, t.indexes[i], key)
    ensures best.Some? ==>
              && best.value < |t.indexes| && Usable(t, t.indexes[best.value], key)
              && columns == KeyColumns(t.indexes[best.value])
              && (forall i :: 0 <= i < |t.indexes| && Usable(t, t.indexes[i], key) ==>
                  !Better(t.indexes[i], t.indexes[best.value]))
              && (forall i :: 0 <= i < best.value && Usable(t, t.indexes[i], key) ==>
                  Better(t.indexes[best.value], t.indexes[i]))
  {
    best, columns := None, [];
    for n := 0 to |t.indexes|
      invariant best.None? <==> forall i :: 0 <= i < n ==> !Usable(t, t.indexes[i], key)
      invariant best.Some? ==>
                  && best.value < n && Usable(t, t.indexes[best.value], key)
                  && columns == KeyColumns(t.indexes[best.value])
                  && (forall i :: 0 <= i < n && Usable(t, t.indexes[i], key) ==>
                      !Better(t.indexes[i], t.indexes[best.value]))
                  && (forall i :: 0 <= i < best.value && Usable(t, t.indexes[i], key) ==>
                      Better(t.indexes[best.value], t.indexes[i]))
    {
      var ix := t.indexes[n];
      if !ix.unique || !ix.valid { continue; }
      if ix.expressions { continue; }
      if ix.columns.None? || ix.filter.None? { continue; }
      if ix.filter.value != "" { continue; }
      if KeyCount(ix) < 2 || |ix.columns.value| < KeyCount(ix) { continue; }
      var usable, cols := ReadKey(t, ix, key);
      if !usable { continue; }
      assert Usable(t, ix, key);
      if best.None? || Better(ix, t.indexes[best.value]) {
        best, columns := Some(n), cols;
      }
    }
  }

  function KeyOf(r: Row, columns: seq<string>): Key {
    seq(|columns|, i requires 0 <= i < |columns| => if Val(r, columns[i]).Some? then Val(r, columns[i]).value else 0)
  }

  /** The accepted columns give every row a whole key, and put any two rows in
      order one way and not the other: a walk along them meets each row once. */
  lemma CompositeSound(t: Observed, rows: seq<Row>, covers: (Index, Row) -> bool, n: nat, key: string, i: nat, j: nat)
    requires Truthful(t, rows, covers) && n < |t.indexes| && Usable(t, t.indexes[n], key)
    requires i < |rows| && j < |rows| && i != j
    ensures var cols := KeyColumns(t.indexes[n]);
            && (forall c :: c in cols ==> Val(rows[i], c).Some?)
            && KeyOf(rows[i], cols) != KeyOf(rows[j], cols)
            && (Less(KeyOf(rows[i], cols), KeyOf(rows[j], cols)) <==> !Less(KeyOf(rows[j], cols), KeyOf(rows[i], cols)))
  {
    var ix := t.indexes[n];
    var cols := KeyColumns(ix);
    var a, b := KeyOf(rows[i], cols), KeyOf(rows[j], cols);
    assert forall c :: c in cols ==> c in t.notNull;
    assert !SameOn(rows[i], rows[j], cols);
    var c :| c in cols && Val(rows[i], c) != Val(rows[j], c);
    var p :| 0 <= p < |cols| && cols[p] == c;
    assert a[p] != b[p];
    LessTotal(a, b);
  }

  // --- the key of a row-level kind ------------------------------------------------------

  predicate ProvesRowKey(ix: Index, key: seq<string>) {
    && ix.unique && ix.valid && !ix.expressions && ix.columns.Some? && ix.filter == Some("")
    && KeyCount(ix) > 0 && PlainKey(ix)
    && forall c :: c in KeyColumns(ix) ==> c in key
  }

  method WithinKey(ix: Index, key: seq<string>) returns (within: bool)
    requires ix.columns.Some? && KeyCount(ix) <= |ix.columns.value|
    ensures within <==> PlainKey(ix) && forall c :: c in KeyColumns(ix) ==> c in key
  {
    for c := 0 to KeyCount(ix)
      invariant forall d :: 0 <= d < c ==> ix.columns.value[d].Some? && ix.columns.value[d].value in key
    {
      if ix.columns.value[c].None? { return false; }
      if ix.columns.value[c].value !in key {
        assert PlainKey(ix) ==> KeyColumns(ix)[c] in KeyColumns(ix);
        return false;
      }
    }
    return true;
  }

  method RowKeyIsUnique(t: Observed, key: seq<string>) returns (proved: bool, name: string)
    ensures |key| > 1 ==> (proved <==> exists i :: 0 <= i < |t.indexes| && ProvesRowKey(t.indexes[i], key))
    ensures |key| <= 1 ==>
              (proved <==>
               exists i :: 0 <= i < |t.indexes| && ProvesKey(t.indexes[i], if key == [] then "" else key[0]))
    ensures |key| > 1 && proved ==> exists i :: 0 <= i < |t.indexes| && ProvesRowKey(t.indexes[i], key) && name == t.indexes[i].name
                                                && forall j :: 0 <= j < i ==> !ProvesRowKey(t.indexes[j], key)
  {
    if |key| <= 1 {
      proved, name := UniqueKeyIndex(t, if key == [] then "" else key[0]);
      return;
    }
    for n := 0 to |t.indexes|
      invariant forall i :: 0 <= i < n ==> !ProvesRowKey(t.indexes[i], key)
    {
      var ix := t.indexes[n];
      if !ix.unique || !ix.valid { continue; }
      if ix.expressions { continue; }
      if ix.columns.None? || ix.filter.None? { continue; }
      if ix.filter.value != "" { continue; }
      if KeyCount(ix) == 0 || |ix.columns.value| < KeyCount(ix) { continue; }
      var within := WithinKey(ix, key);
      if !within { continue; }
      return true, ix.name;
    }
    return false, "";
  }

  lemma RowKeySound(t: Observed, rows: seq<Row>, covers: (Index, Row) -> bool, n: nat, key: seq<string>)
    requires Truthful(t, rows, covers) && n < |t.indexes| && ProvesRowKey(t.indexes[n], key)
    ensures AtMostOne(rows, key)
  {
    var ix := t.indexes[n];
    forall i, j | 0 <= i < |rows| && 0 <= j < |rows| && SameOn(rows[i], rows[j], key)
      ensures i == j
    {
      assert SameOn(rows[i], rows[j], KeyColumns(ix));
    }
  }
}

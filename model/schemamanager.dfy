/** The platform-independent part of schema introspection: turning the rows
    a catalogue query returns into indexes, columns and name lists, and
    reading the Doctrine type hint kept in a column comment. The queries
    themselves are not modelled: their rows are inputs. */
module SchemaManager {
  import opened Base
  import opened Arrays
  import opened Asset
  import opened Errors
  import opened Index
  import opened Objects
  import opened Platform

  // ---------------------------------------------------------------------
  // Grouping rows by a key (the `isset($result[$key])` fold)

  /** One pass of the fold: a row whose key is new starts a record, a row
      whose key is known extends that key's record. */
  function GroupStep<R, D>(d: Dict<D>, r: R, key: R -> string, first: R -> D, add: (D, R) -> D): (e: Dict<D>)
    requires ValidDict(d)
    ensures ValidDict(e)
  {
    var k := key(r);
    if k in d.m then Put(d, k, add(d.m[k], r)) else Put(d, k, first(r))
  }

  /** The records after folding all the rows, in order. */
  function Grouped<R, D>(rows: seq<R>, key: R -> string, first: R -> D, add: (D, R) -> D): (d: Dict<D>)
    ensures ValidDict(d)
  {
    if |rows| == 0 then Empty()
    else GroupStep(Grouped(rows[..|rows| - 1], key, first, add), rows[|rows| - 1], key, first, add)
  }

  /** The rows that carry key k, in order. */
  function RowsWithKey<R>(rows: seq<R>, key: R -> string, k: string): (rs: seq<R>)
    ensures forall i :: 0 <= i < |rs| ==> key(rs[i]) == k
  {
    if |rows| == 0 then []
    else RowsWithKey(rows[..|rows| - 1], key, k) + (if key(rows[|rows| - 1]) == k then [rows[|rows| - 1]] else [])
  }

  /** The rows of a group are rows of the listing. */
  lemma {:induction false} RowsWithKeyMembers<R>(rows: seq<R>, key: R -> string, k: string)
    ensures forall r :: r in RowsWithKey(rows, key, k) ==> r in rows
  {
    if |rows| > 0 {
      var n := |rows| - 1;
      RowsWithKeyMembers(rows[..n], key, k);
      assert forall r :: r in rows[..n] ==> r in rows;
    }
  }

  /** The record one group of rows folds into: the first row starts it and
      every later row extends it. */
  function FoldGroup<R, D>(rs: seq<R>, first: R -> D, add: (D, R) -> D): D
    requires |rs| > 0
  {
    if |rs| == 1 then first(rs[0]) else add(FoldGroup(rs[..|rs| - 1], first, add), rs[|rs| - 1])
  }

  /** Each row mapped through `f`, in order: the keys of the rows, or the
      objects built from them. */
  function Mapped<R, V>(rows: seq<R>, f: R -> V): (vs: seq<V>)
    ensures |vs| == |rows| && forall i :: 0 <= i < |rows| ==> vs[i] == f(rows[i])
  {
    seq(|rows|, i requires 0 <= i < |rows| => f(rows[i]))
  }

  /** The fold as a loop over the rows. */
  method Group<R, D>(rows: seq<R>, key: R -> string, first: R -> D, add: (D, R) -> D) returns (d: Dict<D>)
    ensures d == Grouped(rows, key, first, add)
  {
    d := Empty();
    for i := 0 to |rows|
      invariant d == Grouped(rows[..i], key, first, add)
    {
      assert rows[..i + 1][..i] == rows[..i];
      var k := key(rows[i]);
      if k in d.m {
        d := Put(d, k, add(d.m[k], rows[i]));
      } else {
        d := Put(d, k, first(rows[i]));
      }
    }
    assert rows[..|rows|] == rows;
  }

  /** There is one record per distinct key, the keys in order of first
      appearance, and each record is its group's rows folded in order. */
  lemma {:induction false} GroupedSpec<R, D>(rows: seq<R>, key: R -> string, first: R -> D, add: (D, R) -> D)
    ensures Grouped(rows, key, first, add).keys == Unique(Mapped(rows, key))
    ensures forall k :: k in Grouped(rows, key, first, add).m <==> |RowsWithKey(rows, key, k)| > 0
    ensures forall k :: k in Grouped(rows, key, first, add).m ==>
      |RowsWithKey(rows, key, k)| > 0 &&
      Grouped(rows, key, first, add).m[k] == FoldGroup(RowsWithKey(rows, key, k), first, add)
  {
    if |rows| > 0 {
      var n := |rows| - 1;
      var pre := rows[..n];
      var r := rows[n];
      GroupedSpec(pre, key, first, add);
      var d0 := Grouped(pre, key, first, add);
      var d := Grouped(rows, key, first, add);
      assert Mapped(pre, key) == Mapped(rows, key)[..n];
      assert Mapped(rows, key)[n] == key(r);
      forall k
        ensures k in d.m <==> |RowsWithKey(rows, key, k)| > 0
        ensures k in d.m ==> d.m[k] == FoldGroup(RowsWithKey(rows, key, k), first, add)
      {
        var rs0 := RowsWithKey(pre, key, k);
        var rs := RowsWithKey(rows, key, k);
        if k == key(r) {
          assert rs == rs0 + [r];
          if k in d0.m {
            assert rs[..|rs| - 1] == rs0;
          }
        } else {
          assert rs == rs0;
        }
      }
    }
  }

  // ---------------------------------------------------------------------
  // _getPortableTableIndexesList

  /** One row of an index listing, after the platform's preprocessing:
      `flags` and `where` may be unset. */
  datatype IndexRow = IndexRow(
    keyName: string,
    columnName: string,
    nonUnique: bool,
    primary: bool,
    flags: Option<seq<string>>,
    where: Option<string>)

  /** The array the fold builds for one index. */
  datatype IndexData = IndexData(
    name: string,
    columns: seq<string>,
    unique: bool,
    primary: bool,
    flags: seq<string>,
    options: map<string, string>)

  /** Rows are grouped by their lower-cased key name; every primary-key row
      goes to the group `primary`. */
  function IndexKey(r: IndexRow): string {
    Lower(if r.primary then "primary" else r.keyName)
  }

  function FirstIndexData(r: IndexRow): IndexData {
    IndexData(r.keyName, [r.columnName], !r.nonUnique, r.primary,
              if r.flags.Some? then r.flags.value else [],
              if r.where.Some? then map["where" := r.where.value] else map[])
  }

  function AddIndexColumn(d: IndexData, r: IndexRow): IndexData {
    d.(columns := d.columns + [r.columnName])
  }

  /** The index the constructor builds from one record. */
  function BuildIndex(d: IndexData): (ix: Index)
    ensures ValidIndex(ix)
  {
    UniqueLowered(LowerAll(d.flags));
    Index(NewIdentifier(d.name), Unique(d.columns), d.unique || d.primary, d.primary,
          Unique(LowerAll(d.flags)), d.options)
  }

  /** The indexes built for the first n records, under the records' keys. */
  function BuildUpTo(g: Dict<IndexData>, n: nat): (d: Dict<Index>)
    requires ValidDict(g) && n <= |g.keys|
    ensures ValidDict(d)
  {
    if n == 0 then Empty()
    else Put(BuildUpTo(g, n - 1), g.keys[n - 1], BuildIndex(g.m[g.keys[n - 1]]))
  }

  function IndexRecords(rows: seq<IndexRow>): (g: Dict<IndexData>)
    ensures ValidDict(g)
  {
    Grouped(rows, IndexKey, FirstIndexData, AddIndexColumn)
  }

  /** The indexes the listing describes, keyed as the fold keys them. */
  function PortableIndexes(rows: seq<IndexRow>): Dict<Index> {
    var g := IndexRecords(rows);
    BuildUpTo(g, |g.keys|)
  }

  /** `_getPortableTableIndexesList`: group the rows, then build one index
      per group. */
  method PortableTableIndexesList(rows: seq<IndexRow>) returns (indexes: Dict<Index>)
    ensures indexes == PortableIndexes(rows)
  {
    var result := Group(rows, IndexKey, FirstIndexData, AddIndexColumn);
    indexes := Empty();
    for i := 0 to |result.keys|
      invariant indexes == BuildUpTo(result, i)
    {
      var data := result.m[result.keys[i]];
      var args := seq(|data.columns|, j requires 0 <= j < |data.columns| => Str(data.columns[j]));
      assert Strings(args) == data.columns;
      var index := NewIndex(data.name, args, data.unique, data.primary, data.flags, data.options);
      assert index.Ok?;
      indexes := Put(indexes, result.keys[i], index.value);
    }
  }

  /** Building visits every record once, under its own key. */
  lemma {:induction false} BuildUpToSpec(g: Dict<IndexData>, n: nat)
    requires ValidDict(g) && n <= |g.keys|
    ensures BuildUpTo(g, n).keys == g.keys[..n]
    ensures forall k :: k in BuildUpTo(g, n).m ==> k in g.m && BuildUpTo(g, n).m[k] == BuildIndex(g.m[k])
  {
    if n > 0 {
      BuildUpToSpec(g, n - 1);
      assert g.keys[..n] == g.keys[..n - 1] + [g.keys[n - 1]];
      assert g.keys[n - 1] !in g.keys[..n - 1];
    }
  }

  /** The column names of a group of rows, in order. */
  function ColumnNames(rs: seq<IndexRow>): (cs: seq<string>)
    ensures |cs| == |rs| && forall i :: 0 <= i < |rs| ==> cs[i] == rs[i].columnName
  {
    seq(|rs|, i requires 0 <= i < |rs| => rs[i].columnName)
  }

  /** A group's record takes everything but its columns from its first row,
      and its columns from all its rows in order. */
  lemma {:induction false} FoldIndexGroup(rs: seq<IndexRow>)
    requires |rs| > 0
    ensures FoldGroup(rs, FirstIndexData, AddIndexColumn) == FirstIndexData(rs[0]).(columns := ColumnNames(rs))
  {
    if |rs| > 1 {
      FoldIndexGroup(rs[..|rs| - 1]);
      assert ColumnNames(rs) == ColumnNames(rs[..|rs| - 1]) + [rs[|rs| - 1].columnName];
    } else {
      assert ColumnNames(rs) == [rs[0].columnName];
    }
  }

  /** One index per group key, in order of first appearance; each index is
      named after its group's first row, takes uniqueness, primary flag,
      flags and `where` option from that row, and lists the group's columns
      in row order (a repeated column once). */
  lemma IndexesByGroup(rows: seq<IndexRow>)
    ensures PortableIndexes(rows).keys == Unique(Mapped(rows, IndexKey))
    ensures forall k :: k in PortableIndexes(rows).m <==> |RowsWithKey(rows, IndexKey, k)| > 0
    ensures forall k :: k in PortableIndexes(rows).m ==>
      var rs := RowsWithKey(rows, IndexKey, k);
      var ix := PortableIndexes(rows).m[k];
      |rs| > 0 &&
      ix.name == NewIdentifier(rs[0].keyName) &&
      ix.columns == Unique(ColumnNames(rs)) &&
      ix.isPrimary == rs[0].primary &&
      ix.isUnique == (!rs[0].nonUnique || rs[0].primary) &&
      ix.flags == Unique(LowerAll(if rs[0].flags.Some? then rs[0].flags.value else [])) &&
      ix.options == (if rs[0].where.Some? then map["where" := rs[0].where.value] else map[])
  {
    var g := IndexRecords(rows);
    GroupedSpec(rows, IndexKey, FirstIndexData, AddIndexColumn);
    BuildUpToSpec(g, |g.keys|);
    assert g.keys[..|g.keys|] == g.keys;
    forall k | k in g.m {
      FoldIndexGroup(RowsWithKey(rows, IndexKey, k));
    }
  }
  /** IndexesByGroup for one stored key. */
  lemma IndexOfGroup(rows: seq<IndexRow>, k: string)
    requires k in PortableIndexes(rows).m
    ensures var rs := RowsWithKey(rows, IndexKey, k);
      var ix := PortableIndexes(rows).m[k];
      |rs| > 0 &&
      ix.name == NewIdentifier(rs[0].keyName) &&
      ix.columns == Unique(ColumnNames(rs)) &&
      ix.isPrimary == rs[0].primary
  {
    IndexesByGroup(rows);
  }

  // ---------------------------------------------------------------------
  // _getPortableTableColumnList and _getPortableViewsList

  /** The pairs (lower-cased quoted name, item), one per item in order. */
  function NamedPairs<T>(items: seq<T>, name: T -> AssetName, p: Platform): (ps: seq<(string, T)>)
    ensures |ps| == |items|
    ensures forall i :: 0 <= i < |items| ==> ps[i] == (Lower(Quoted(p, name(items[i]))), items[i])
  {
    seq(|items|, i requires 0 <= i < |items| => (Lower(Quoted(p, name(items[i]))), items[i]))
  }

  /** Items keyed by their lower-cased quoted name, a later item replacing
      an earlier one of the same name. */
  method KeyByQuotedName<T>(items: seq<T>, name: T -> AssetName, p: Platform) returns (list: Dict<T>)
    ensures list == FromPairs(NamedPairs(items, name, p))
  {
    list := Empty();
    for i := 0 to |items|
      invariant list == FromPairs(NamedPairs(items[..i], name, p))
    {
      var key := Lower(Quoted(p, name(items[i])));
      assert NamedPairs(items[..i + 1], name, p)[..i] == NamedPairs(items[..i], name, p);
      list := Put(list, key, items[i]);
    }
    assert items[..|items|] == items;
  }

  /** `_getPortableTableColumnList`: each row becomes a column through the
      platform's column definition `def`, keyed by its lower-cased quoted
      name. */
  method PortableTableColumnList<R>(rows: seq<R>, def: R -> Column, p: Platform) returns (list: Dict<Column>)
    ensures list == FromPairs(NamedPairs(Mapped(rows, def), ColumnName, p))
  {
    var columns := Mapped(rows, def);
    list := KeyByQuotedName(columns, ColumnName, p);
  }

  function ColumnName(c: Column): AssetName {
    c.name
  }

  /** `_getPortableViewsList`: the views the platform recognises (`def`
      answers None for the others), keyed by lower-cased quoted name. */
  method PortableViewsList<R, V>(rows: seq<R>, def: R -> Option<V>, name: V -> AssetName, p: Platform) returns (list: Dict<V>)
    ensures list == FromPairs(NamedPairs(Present(rows, def), name, p))
  {
    var views := Present(rows, def);
    list := KeyByQuotedName(views, name, p);
  }

  /** The key holds the item named last among those with that name. */
  lemma {:induction false} FromPairsLastWins<V>(ps: seq<(string, V)>, j: nat)
    requires j < |ps|
    requires forall t :: j < t < |ps| ==> ps[t].0 != ps[j].0
    ensures ps[j].0 in FromPairs(ps).m && FromPairs(ps).m[ps[j].0] == ps[j].1
  {
    if j < |ps| - 1 {
      var pre := ps[..|ps| - 1];
      assert forall t :: j < t < |pre| ==> pre[t] == ps[t];
      FromPairsLastWins(pre, j);
    }
  }

  /** The keys of a keyed list are lower-case, and each name maps to the
      last item carrying it. */
  lemma KeyedListSpec<T>(items: seq<T>, name: T -> AssetName, p: Platform, j: nat)
    requires j < |items|
    requires forall t :: j < t < |items| ==> Lower(Quoted(p, name(items[t]))) != Lower(Quoted(p, name(items[j])))
    ensures var d := FromPairs(NamedPairs(items, name, p));
      (forall k :: k in d.m ==> Lower(k) == k) &&
      Lower(Quoted(p, name(items[j]))) in d.m && d.m[Lower(Quoted(p, name(items[j])))] == items[j]
  {
    var ps := NamedPairs(items, name, p);
    FromPairsLastWins(ps, j);
    forall k | k in FromPairs(ps).m ensures Lower(k) == k {
      var i :| 0 <= i < |ps| && ps[i].0 == k;
      LowerIdempotent(Quoted(p, name(items[i])));
    }
  }

  // ---------------------------------------------------------------------
  // The _getPortable*List filters

  /** The definitions that are present, in order (`if ($v = def($row))
      $list[] = $v`, for a definition that answers null or false to skip a
      row). */
  function Present<R, V>(rows: seq<R>, def: R -> Option<V>): (vs: seq<V>)
  {
    if |rows| == 0 then []
    else Present(rows[..|rows| - 1], def) + (match def(rows[|rows| - 1]) case Some(v) => [v] case None => [])
  }

  /** The filter loop shared by the table, database, function, trigger,
      sequence, user and foreign key lists. */
  method PortableList<R, V>(rows: seq<R>, def: R -> Option<V>) returns (list: seq<V>)
    ensures list == Present(rows, def)
  {
    list := [];
    for i := 0 to |rows|
      invariant list == Present(rows[..i], def)
    {
      assert rows[..i + 1][..i] == rows[..i];
      var v := def(rows[i]);
      if v.Some? {
        list := list + [v.value];
      }
    }
    assert rows[..|rows|] == rows;
  }

  /** The list keeps exactly the present definitions, in row order: it
      distributes over concatenation and drops nothing when every row has a
      definition. */
  lemma {:induction false} PresentAppend<R, V>(a: seq<R>, b: seq<R>, def: R -> Option<V>)
    ensures Present(a + b, def) == Present(a, def) + Present(b, def)
    decreases |b|
  {
    if |b| == 0 {
      assert a + b == a;
    } else {
      var n := |b| - 1;
      assert (a + b)[..|a + b| - 1] == a + b[..n];
      PresentAppend(a, b[..n], def);
    }
  }

  lemma {:induction false} PresentAll<R, V>(rows: seq<R>, def: R -> Option<V>)
    requires forall i :: 0 <= i < |rows| ==> def(rows[i]).Some?
    ensures |Present(rows, def)| == |rows|
    ensures forall i :: 0 <= i < |rows| ==> Present(rows, def)[i] == def(rows[i]).value
  {
    if |rows| > 0 {
      PresentAll(rows[..|rows| - 1], def);
    }
  }

  /** A value is listed exactly when some row's definition is that value. */
  lemma {:induction false} PresentMembers<R, V>(rows: seq<R>, def: R -> Option<V>, v: V)
    ensures v in Present(rows, def) <==> exists i :: 0 <= i < |rows| && def(rows[i]) == Some(v)
  {
    if |rows| > 0 {
      var n := |rows| - 1;
      PresentMembers(rows[..n], def, v);
      if exists i :: 0 <= i < n && def(rows[..n][i]) == Some(v) {
        var i :| 0 <= i < n && def(rows[..n][i]) == Some(v);
        assert rows[i] == rows[..n][i];
      }
      if exists i :: 0 <= i < |rows| && def(rows[i]) == Some(v) {
        var i :| 0 <= i < |rows| && def(rows[i]) == Some(v);
        if i < n {
          assert rows[..n][i] == rows[i];
        }
      }
    }
  }

  /** A string value kept only when PHP reads it as true. */
  function KeepTruthy(o: Option<string>): (r: Option<string>)
    ensures r.Some? <==> SomeTruthy(o)
    ensures r.Some? ==> r == o
  {
    if SomeTruthy(o) then o else None
  }

  /** The parent's definitions of a table, database, function, trigger,
      user and foreign key row hand the row back: it is kept when it is not
      empty. */
  function RowItself<T>(row: seq<T>): (r: Option<seq<T>>)
    ensures r.Some? <==> |row| > 0
  {
    if |row| > 0 then Some(row) else None
  }

  // ---------------------------------------------------------------------
  // tablesExist

  /** `tablesExist`: as many lower-cased names as are found among the
      lower-cased listed names. */
  function TablesExist(names: seq<string>, listed: seq<string>): bool {
    var lowered := LowerAll(listed);
    |LowerAll(names)| == |Filter(LowerAll(names), n => n in lowered)|
  }

  /** Every name must be listed (case-insensitively), and one that is not
      makes the answer false. */
  lemma TablesExistIff(names: seq<string>, listed: seq<string>)
    ensures TablesExist(names, listed) <==>
      forall i :: 0 <= i < |names| ==> exists j :: 0 <= j < |listed| && Lower(listed[j]) == Lower(names[i])
  {
    var lowered := LowerAll(listed);
    FilterKeepsAll(LowerAll(names), n => n in lowered);
  }

  /** A filter keeps its input's length exactly when it keeps every element. */
  lemma {:induction false} FilterKeepsAll<T>(s: seq<T>, p: T -> bool)
    ensures |Filter(s, p)| == |s| <==> forall i :: 0 <= i < |s| ==> p(s[i])
  {
    if |s| > 0 {
      FilterKeepsAll(s[1..], p);
      if forall i :: 0 <= i < |s[1..]| ==> p(s[1..][i]) {
        assert forall i :: 1 <= i < |s| ==> p(s[i]) by {
          forall i | 1 <= i < |s| ensures p(s[i]) {
            assert s[i] == s[1..][i - 1];
          }
        }
      } else {
        var i :| 0 <= i < |s[1..]| && !p(s[1..][i]);
        assert !p(s[i + 1]);
      }
    }
  }

  // ---------------------------------------------------------------------
  // The Doctrine type hint in a column comment

  const HintOpen: string := "(DC2Type:"

  /** The characters of `[a-zA-Z0-9_]`. */
  predicate IsWordChar(c: char) {
    'a' <= c <= 'z' || 'A' <= c <= 'Z' || '0' <= c <= '9' || c == '_'
  }

  predicate IsWord(s: string) {
    |s| > 0 && forall i :: 0 <= i < |s| ==> IsWordChar(s[i])
  }

  /** Length of the run of word characters at the start of s. */
  function WordRun(s: string): (n: nat)
    ensures n <= |s|
    ensures forall i :: 0 <= i < n ==> IsWordChar(s[i])
    ensures n < |s| ==> !IsWordChar(s[n])
  {
    if |s| > 0 && IsWordChar(s[0]) then 1 + WordRun(s[1..]) else 0
  }

  /** The hint `(DC2Type:name)` when s starts with one. */
  function HintAt(s: string): (r: Option<string>)
    ensures r.Some? ==> IsWord(r.value) && IsPrefix(HintOpen + r.value + ")", s)
  {
    if !IsPrefix(HintOpen, s) then None
    else
      var rest := s[|HintOpen|..];
      var n := WordRun(rest);
      if 0 < n < |rest| && rest[n] == ')' then
        assert s[..|HintOpen| + n + 1] == HintOpen + rest[..n] + ")";
        Some(rest[..n])
      else None
  }

  /** The leftmost hint in s. */
  function FirstHint(s: string): Option<string>
    decreases |s|
  {
    if |s| == 0 then None
    else if HintAt(s).Some? then HintAt(s)
    else FirstHint(s[1..])
  }

  /** `extractDoctrineTypeFromComment`: the type named by the first hint,
      otherwise the current type. */
  function ExtractDoctrineTypeFromComment(comment: string, currentType: string): string {
    match FirstHint(comment)
    case Some(t) => t
    case None => currentType
  }

  /** `removeDoctrineTypeFromComment`: every `(DC2Type:type)` is deleted. */
  function RemoveDoctrineTypeFromComment(comment: string, typ: string): string {
    ReplaceAll(comment, HintOpen + typ + ")", "")
  }

  /** A hint is found exactly when the comment contains one: the type found
      is a word whose hint the comment contains, and without a hint the
      current type stays. */
  lemma {:induction false} ExtractFindsHint(comment: string, currentType: string)
    ensures FirstHint(comment).Some? ==>
      var t := ExtractDoctrineTypeFromComment(comment, currentType);
      IsWord(t) && Contains(comment, HintOpen + t + ")")
    ensures FirstHint(comment).None? ==>
      ExtractDoctrineTypeFromComment(comment, currentType) == currentType &&
      forall t :: IsWord(t) ==> !Contains(comment, HintOpen + t + ")")
    decreases |comment|
  {
    if |comment| > 0 && HintAt(comment).None? {
      ExtractFindsHint(comment[1..], currentType);
      if FirstHint(comment).None? {
        forall t | IsWord(t) ensures !Contains(comment, HintOpen + t + ")") {
          HintAtPrefix(comment, t);
        }
      }
    } else if |comment| == 0 {
      forall t | IsWord(t) ensures !Contains(comment, HintOpen + t + ")") {
      }
    }
  }

  /** A string that starts with the hint of a word has that hint at its
      head. */
  lemma HintAtPrefix(s: string, t: string)
    requires IsWord(t)
    ensures IsPrefix(HintOpen + t + ")", s) ==> HintAt(s) == Some(t)
  {
    var h := HintOpen + t + ")";
    if IsPrefix(h, s) {
      assert s[..|h|] == h;
      assert s[..|HintOpen|] == HintOpen;
      var rest := s[|HintOpen|..];
      forall i | 0 <= i < |t| ensures rest[i] == t[i] {
        assert rest[i] == s[|HintOpen| + i] == h[|HintOpen| + i];
      }
      assert rest[|t|] == s[|HintOpen| + |t|] == h[|HintOpen| + |t|];
      WordRunOf(rest, |t|);
      assert rest[..|t|] == t;
    }
  }

  lemma WordRunOf(s: string, n: nat)
    requires n < |s| && s[n] == ')' && n > 0
    requires forall i :: 0 <= i < n ==> IsWordChar(s[i])
    ensures WordRun(s) == n
  {
  }

  /** A comment that ends with a hint, and has no `(` before it, reads back
      the hinted type; removing the hint gives back the comment. */
  lemma {:induction false} HintRoundTrip(comment: string, t: string, currentType: string)
    requires IsWord(t) && '(' !in comment
    ensures ExtractDoctrineTypeFromComment(comment + HintOpen + t + ")", currentType) == t
    ensures RemoveDoctrineTypeFromComment(comment + HintOpen + t + ")", t) == comment
  {
    var h := HintOpen + t + ")";
    HintAfterPlain(comment, h, t);
    ReplaceAllSkips(comment, h, h, "");
    assert ReplaceAll(h, h, "") == "" + ReplaceAll("", h, "");
    assert comment + HintOpen + t + ")" == comment + h;
  }

  lemma {:induction false} HintAfterPlain(c: string, h: string, t: string)
    requires IsWord(t) && '(' !in c && h == HintOpen + t + ")"
    ensures FirstHint(c + h) == Some(t)
    decreases |c|
  {
    if |c| > 0 {
      assert (c + h)[0] == c[0] && c[0] != '(';
      assert !IsPrefix(HintOpen, c + h);
      assert (c + h)[1..] == c[1..] + h;
      HintAfterPlain(c[1..], h, t);
    } else {
      assert c + h == h;
      assert h[..|HintOpen|] == HintOpen;
      var rest := h[|HintOpen|..];
      assert rest == t + ")";
      WordRunOf(rest, |t|);
      assert rest[..|t|] == t;
      assert HintAt(h) == Some(t);
    }
  }

  /** A comment without the hint of the type is left unchanged. */
  lemma RemoveWithoutHint(comment: string, typ: string)
    requires !Contains(comment, HintOpen + typ + ")")
    ensures RemoveDoctrineTypeFromComment(comment, typ) == comment
  {
    ReplaceAllAbsent(comment, HintOpen + typ + ")", "");
  }
}

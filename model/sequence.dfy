/** Sequences and the heuristic that recognises the sequence a platform
    creates implicitly for an autoincrement primary key. */
module Sequence {
  import opened Base
  import opened Asset
  import opened Arrays
  import opened Index
  import opened Objects

  /** An allocation size or initial value as given: a number, or anything
      that `is_numeric` refuses. */
  datatype NumArg = Numeric(n: int) | NonNumeric

  datatype Sequence = Sequence(name: AssetName, allocationSize: int, initialValue: int, cache: Option<int>)

  /** `is_numeric($v) ? $v : 1` */
  function NumericOrOne(a: NumArg): (r: int)
    ensures a.NonNumeric? ==> r == 1
    ensures a.Numeric? ==> r == a.n
  {
    if a.Numeric? then a.n else 1
  }

  /** The constructor: a non-numeric size or initial value becomes 1; the
      cache is stored as given. */
  function NewSequence(name: string, allocationSize: NumArg, initialValue: NumArg, cache: Option<int>): Sequence {
    Sequence(NewIdentifier(name), NumericOrOne(allocationSize), NumericOrOne(initialValue), cache)
  }

  /** setAllocationSize: the same rule as the constructor. */
  function SetAllocationSize(s: Sequence, a: NumArg): Sequence {
    s.(allocationSize := NumericOrOne(a))
  }

  /** setInitialValue */
  function SetInitialValue(s: Sequence, a: NumArg): Sequence {
    s.(initialValue := NumericOrOne(a))
  }

  /** setCache: stored unchanged. */
  function SetCache(s: Sequence, c: Option<int>): Sequence {
    s.(cache := c)
  }

  /** The getters read back what the constructor was given, with 1 for a
      size or initial value `is_numeric` refuses; a sequence built with the
      defaults has size 1, initial value 1 and no cache. */
  lemma NewSequenceReadBack(name: string, a: NumArg, i: NumArg, c: Option<int>)
    ensures var s := NewSequence(name, a, i, c);
      s.name == NewIdentifier(name) && s.cache == c &&
      (a.Numeric? ==> s.allocationSize == a.n) && (a.NonNumeric? ==> s.allocationSize == 1) &&
      (i.Numeric? ==> s.initialValue == i.n) && (i.NonNumeric? ==> s.initialValue == 1)
    ensures NewSequence(name, Numeric(1), Numeric(1), None) == NewSequence(name, NonNumeric, NonNumeric, None)
  {
  }

  /** Each setter is read back by its getter and leaves every other
      property as it was. */
  lemma SettersReadBack(s: Sequence, a: NumArg, c: Option<int>)
    ensures var r := SetAllocationSize(s, a);
      r.allocationSize == NumericOrOne(a) &&
      r.name == s.name && r.initialValue == s.initialValue && r.cache == s.cache
    ensures var r := SetInitialValue(s, a);
      r.initialValue == NumericOrOne(a) &&
      r.name == s.name && r.allocationSize == s.allocationSize && r.cache == s.cache
    ensures var r := SetCache(s, c);
      r.cache == c &&
      r.name == s.name && r.allocationSize == s.allocationSize && r.initialValue == s.initialValue
  {
  }

  /** Setting a property to the value it has changes nothing, and the
      setters touch distinct properties, so their order does not matter. */
  lemma SettersCommute(s: Sequence, a: NumArg, i: NumArg, c: Option<int>)
    ensures SetAllocationSize(s, Numeric(s.allocationSize)) == s
    ensures SetInitialValue(s, Numeric(s.initialValue)) == s
    ensures SetCache(s, s.cache) == s
    ensures SetInitialValue(SetAllocationSize(s, a), i) == SetAllocationSize(SetInitialValue(s, i), a)
    ensures SetCache(SetAllocationSize(s, a), c) == SetAllocationSize(SetCache(s, c), a)
  {
  }

  /** The setters and the constructor agree: setting the size and initial
      value of any sequence gives what the constructor gives. */
  lemma SettersMatchConstructor(s: Sequence, name: string, a: NumArg, i: NumArg)
    requires s.name == NewIdentifier(name) && s.cache.None?
    ensures SetInitialValue(SetAllocationSize(s, a), i) == NewSequence(name, a, i, None)
  {
  }

  /** `sprintf('%s_%s_seq', table, column)` */
  function SequenceNameFor(table: string, column: string): string {
    table + "_" + column + "_seq"
  }

  /** isAutoIncrementsFor: the table has a one-column primary key whose
      column is autoincrement, and the sequence's shortest name is
      `<table>_<column>_seq`, both names shortened relative to the table's
      namespace. The column name is taken as stored, not lower-cased. */
  predicate IsAutoIncrementsFor(s: Sequence, t: Table)
    requires PrimaryKeyColumnsExist(t)
  {
    if !HasPrimaryKey(t) then false
    else
      var pk := PrimaryKey(t).columns;
      if |pk| != 1 then false
      else if !GetColumn(t, pk[0]).autoincrement then false
      else
        var ns := t.name.namespace;
        SequenceNameFor(GetShortestName(t.name, ns), pk[0]) == GetShortestName(s.name, ns)
  }

  /** The three guards each rule a table out. */
  lemma AutoIncrementsForRequires(s: Sequence, t: Table)
    requires PrimaryKeyColumnsExist(t) && IsAutoIncrementsFor(s, t)
    ensures HasPrimaryKey(t)
    ensures |PrimaryKey(t).columns| == 1
    ensures GetColumn(t, PrimaryKey(t).columns[0]).autoincrement
    ensures GetShortestName(s.name, t.name.namespace) ==
            SequenceNameFor(Lower(t.name.name), PrimaryKey(t).columns[0])
  {
  }

  /** The sequence a platform names after a table with a lower-case,
      one-column autoincrement primary key is recognised, whatever the
      table's namespace. */
  lemma {:induction false} ImplicitSequenceRecognised(t: Table, cache: Option<int>)
    requires PrimaryKeyColumnsExist(t) && HasPrimaryKey(t)
    requires |PrimaryKey(t).columns| == 1
    requires var c := PrimaryKey(t).columns[0];
      GetColumn(t, c).autoincrement && Lower(c) == c && '.' !in c
    requires '.' !in t.name.name
    requires !IsIdentifierQuoted(Lower(t.name.name))
    ensures IsAutoIncrementsFor(
      NewSequence(SequenceNameFor(Lower(t.name.name), PrimaryKey(t).columns[0]), Numeric(1), Numeric(1), cache), t)
  {
    var c := PrimaryKey(t).columns[0];
    var raw := SequenceNameFor(Lower(t.name.name), c);
    assert raw == Lower(t.name.name) + ("_" + c + "_seq");
    assert '.' !in raw by {
      assert forall i :: 0 <= i < |Lower(t.name.name)| ==> Lower(t.name.name)[i] == LowerChar(t.name.name[i]);
    }
    assert IsIdentifierQuoted(raw) == IsIdentifierQuoted(Lower(t.name.name)) by {
      if |Lower(t.name.name)| > 0 { assert raw[0] == Lower(t.name.name)[0]; }
    }
    var s := NewSequence(raw, Numeric(1), Numeric(1), cache);
    assert s.name == AssetName(raw, None, false);
    SequenceNameLower(t.name.name, c);
    assert Lower(raw) == raw;
  }

  /** The implicit sequence name of a lower-case column is lower-case. */
  lemma SequenceNameLower(table: string, c: string)
    requires Lower(c) == c
    ensures Lower(SequenceNameFor(Lower(table), c)) == SequenceNameFor(Lower(table), c)
  {
    LowerIdempotent(table);
    LowerConcat(Lower(table), "_" + c + "_seq");
    LowerConcat("_" + c, "_seq");
    LowerConcat("_", c);
  }
}

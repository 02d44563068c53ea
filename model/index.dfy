/** Schema indexes: their column lists, flags and options, and the relations
    the comparator uses to decide whether one index can stand in for
    another. */
module Index {
  import opened Base
  import opened Errors
  import opened Asset
  import opened Arrays

  /** A value handed to the constructor as a column: a string, or anything
      else (which the constructor refuses). */
  datatype ColumnArg = Str(s: string) | NonString

  /** An index. `columns` are the keys of the column map in insertion order;
      `flags` are the (lower-cased) keys of the flag map in insertion order;
      an option is present when it is set and not null. */
  datatype Index = Index(
    name: AssetName,
    columns: seq<string>,
    isUnique: bool,
    isPrimary: bool,
    flags: seq<string>,
    options: map<string, string>)

  /** What the constructor guarantees of every index it builds. */
  predicate ValidIndex(ix: Index) {
    Distinct(ix.columns) && Distinct(ix.flags) &&
    (forall i :: 0 <= i < |ix.flags| ==> Lower(ix.flags[i]) == ix.flags[i]) &&
    (ix.isPrimary ==> ix.isUnique)
  }

  /** Inserting a key into a PHP array: a new key goes last, an existing one
      keeps its place. */
  function InsertKey(keys: seq<string>, k: string): seq<string> {
    if k in keys then keys else keys + [k]
  }

  function Strings(args: seq<ColumnArg>): (r: seq<string>)
    requires forall i :: 0 <= i < |args| ==> args[i].Str?
    ensures |r| == |args| && forall i :: 0 <= i < |args| ==> r[i] == args[i].s
  {
    seq(|args|, i requires 0 <= i < |args| => args[i].s)
  }

  function LowerAll(s: seq<string>): (r: seq<string>)
    ensures |r| == |s| && forall i :: 0 <= i < |s| ==> r[i] == Lower(s[i])
  {
    seq(|s|, i requires 0 <= i < |s| => Lower(s[i]))
  }

  /** The constructor: primary implies unique, the columns are keyed by
      name (duplicates collapse, first insertion order is kept), a
      non-string column raises InvalidArgumentException, and flags are
      stored lower-cased. */
  method NewIndex(indexName: string, columns: seq<ColumnArg>, isUnique: bool, isPrimary: bool,
                  flags: seq<string>, options: map<string, string>)
    returns (r: Result<Index, Error>)
    ensures r.Err? <==> exists i :: 0 <= i < |columns| && columns[i].NonString?
    ensures r.Err? ==> r.error == InvalidArgument
    ensures r.Ok? ==>
      ValidIndex(r.value) &&
      r.value.name == NewIdentifier(indexName) &&
      r.value.isUnique == (isUnique || isPrimary) && r.value.isPrimary == isPrimary &&
      r.value.columns == Unique(Strings(columns)) &&
      r.value.flags == Unique(LowerAll(flags)) &&
      r.value.options == options
  {
    var cols: seq<string> := [];
    var i := 0;
    while i < |columns|
      invariant 0 <= i <= |columns|
      invariant forall j :: 0 <= j < i ==> columns[j].Str?
      invariant cols == Unique(Strings(columns[..i]))
    {
      if columns[i].NonString? {
        return Err(InvalidArgument);
      }
      StringsSnoc(columns, i);
      cols := InsertKey(cols, columns[i].s);
      i := i + 1;
    }
    assert columns[..i] == columns;
    var fl: seq<string> := [];
    i := 0;
    while i < |flags|
      invariant 0 <= i <= |flags|
      invariant fl == Unique(LowerAll(flags[..i]))
    {
      LowerAllSnoc(flags, i);
      fl := InsertKey(fl, Lower(flags[i]));
      i := i + 1;
    }
    assert flags[..i] == flags;
    UniqueLowered(LowerAll(flags));
    r := Ok(Index(NewIdentifier(indexName), cols, isUnique || isPrimary, isPrimary, fl, options));
  }

  lemma StringsSnoc(columns: seq<ColumnArg>, i: nat)
    requires i < |columns| && forall j :: 0 <= j <= i ==> columns[j].Str?
    ensures Unique(Strings(columns[..i + 1])) == InsertKey(Unique(Strings(columns[..i])), columns[i].s)
  {
    assert Strings(columns[..i + 1]) == Strings(columns[..i]) + [columns[i].s];
  }

  lemma LowerAllSnoc(flags: seq<string>, i: nat)
    requires i < |flags|
    ensures Unique(LowerAll(flags[..i + 1])) == InsertKey(Unique(LowerAll(flags[..i])), Lower(flags[i]))
  {
    assert LowerAll(flags[..i + 1]) == LowerAll(flags[..i]) + [Lower(flags[i])];
  }

  lemma UniqueLowered(s: seq<string>)
    requires forall i :: 0 <= i < |s| ==> Lower(s[i]) == s[i]
    ensures forall i :: 0 <= i < |Unique(s)| ==> Lower(Unique(s)[i]) == Unique(s)[i]
  {
  }

  /** isSimpleIndex */
  predicate IsSimple(ix: Index) {
    !ix.isPrimary && !ix.isUnique
  }

  /** The comparison form of a column name: lower-cased, quotes trimmed
      (NormIsTrimQuotesLower), one character at a time. */
  function Norm(c: string): string {
    if |c| == 0 then "" else (if IsQuoteChar(c[0]) then "" else [LowerChar(c[0])]) + Norm(c[1..])
  }

  lemma {:induction false} NormIsTrimQuotesLower(c: string)
    ensures Norm(c) == TrimQuotes(Lower(c))
  {
    if |c| > 0 {
      NormIsTrimQuotesLower(c[1..]);
      assert Lower(c)[1..] == Lower(c[1..]);
    }
  }

  /** spansColumns: every column of this index matches the given name at the
      same position; a missing position fails. */
  predicate Spans(ix: Index, names: seq<string>) {
    forall i :: 0 <= i < |ix.columns| ==> i < |names| && Norm(ix.columns[i]) == Norm(names[i])
  }

  /** spansColumns as the source runs it: a loop that clears the flag on the
      first mismatch and goes on to the end. */
  method SpansColumns(ix: Index, names: seq<string>) returns (same: bool)
    ensures same <==> (|ix.columns| <= |names| &&
      forall i :: 0 <= i < |ix.columns| ==> Norm(ix.columns[i]) == Norm(names[i]))
  {
    same := true;
    var i := 0;
    while i < |ix.columns|
      invariant 0 <= i <= |ix.columns|
      invariant same <==> forall j :: 0 <= j < i ==> j < |names| && Norm(ix.columns[j]) == Norm(names[j])
    {
      if i >= |names| || Norm(ix.columns[i]) != Norm(names[i]) {
        same := false;
      }
      i := i + 1;
    }
    if same && |ix.columns| > 0 {
      var k := |ix.columns| - 1;
      var c := ix.columns[k];
      assert k < |names|;
    }
  }

  /** The predicate that specifies the loop: an index spans a list exactly
      when the list is at least as long and agrees position by position. */
  lemma SpansIff(ix: Index, names: seq<string>)
    ensures Spans(ix, names) <==> (|ix.columns| <= |names| &&
      forall i :: 0 <= i < |ix.columns| ==> Norm(ix.columns[i]) == Norm(names[i]))
  {
    if Spans(ix, names) && |ix.columns| > 0 {
      var k := |ix.columns| - 1;
      var c := ix.columns[k];
      assert k < |names|;
    }
  }

  /** samePartialIndex: equal `where` options, or neither has one (the
      option key asked for is already lower-case). */
  predicate SamePartial(a: Index, b: Index) {
    ("where" in a.options && "where" in b.options && a.options["where"] == b.options["where"]) ||
    ("where" !in a.options && "where" !in b.options)
  }

  /** Being the same partial index is an equivalence. */
  lemma SamePartialEquivalence(a: Index, b: Index, c: Index)
    ensures SamePartial(a, a)
    ensures SamePartial(a, b) ==> SamePartial(b, a)
    ensures SamePartial(a, b) && SamePartial(b, c) ==> SamePartial(a, c)
  {
  }

  /** isFullfilledBy: `other` has the same number of columns, agrees with
      this index position by position and on the partial predicate; a simple
      index is then fulfilled, any other one only by an index with the same
      primary and unique flags. */
  function FulfilledBy(ix: Index, other: Index): (r: bool)
    ensures |other.columns| != |ix.columns| ==> !r
    ensures r ==> SamePartial(ix, other)
    ensures r ==> forall i :: 0 <= i < |ix.columns| ==> Norm(ix.columns[i]) == Norm(other.columns[i])
    ensures r && !IsSimple(ix) ==> ix.isPrimary == other.isPrimary && ix.isUnique == other.isUnique
    ensures |other.columns| == |ix.columns| && Spans(ix, other.columns) && SamePartial(ix, other) && IsSimple(ix) ==> r
  {
    if |other.columns| != |ix.columns| then false
    else if !Spans(ix, other.columns) then false
    else if !SamePartial(ix, other) then false
    else if IsSimple(ix) then true
    else other.isPrimary == ix.isPrimary && other.isUnique == ix.isUnique
  }

  /** Every index fulfils itself. */
  lemma FulfilledByReflexive(ix: Index)
    ensures FulfilledBy(ix, ix)
  {
    assert Spans(ix, ix.columns);
  }

  /** Mutual fulfilment means same columns (up to case and quotes), same
      partial predicate, and the same flags unless both are simple. */
  lemma MutualFulfilment(a: Index, b: Index)
    requires FulfilledBy(a, b) && FulfilledBy(b, a)
    ensures |a.columns| == |b.columns|
    ensures forall i :: 0 <= i < |a.columns| ==> Norm(a.columns[i]) == Norm(b.columns[i])
    ensures SamePartial(a, b)
    ensures IsSimple(a) <==> IsSimple(b)
    ensures !IsSimple(a) ==> a.isPrimary == b.isPrimary && a.isUnique == b.isUnique
  {
  }

  /** overrules */
  function Overrules(ix: Index, other: Index): (r: bool)
    ensures other.isPrimary ==> !r
    ensures IsSimple(ix) && other.isUnique ==> !r
    ensures r ==> (ix.isPrimary || ix.isUnique) && Spans(ix, other.columns) && SamePartial(ix, other)
    ensures (!other.isPrimary && !(IsSimple(ix) && other.isUnique) &&
             (ix.isPrimary || ix.isUnique) && Spans(ix, other.columns) && SamePartial(ix, other)) ==> r
  {
    if other.isPrimary then false
    else if IsSimple(ix) && other.isUnique then false
    else Spans(ix, other.columns) && (ix.isPrimary || ix.isUnique) && SamePartial(ix, other)
  }

  /** A simple index overrules nothing. */
  lemma SimpleOverrulesNothing(ix: Index, other: Index)
    requires IsSimple(ix)
    ensures !Overrules(ix, other)
  {
  }

  /** First position of x in s (array_search). */
  function Search(s: seq<string>, x: string): (r: Option<nat>)
    ensures r.Some? ==> r.value < |s| && s[r.value] == x && x !in s[..r.value]
    ensures r.None? ==> x !in s
  {
    if |s| == 0 then None
    else if s[0] == x then Some(0)
    else match Search(s[1..], x)
      case None => None
      case Some(k) => assert s[..k + 1] == [s[0]] + s[1..][..k]; Some(k + 1)
  }

  /** array_search finds a position exactly when the value stands there and
      nowhere before. */
  lemma {:induction false} SearchAt(s: seq<string>, x: string, pos: nat)
    ensures Search(s, x) == Some(pos) <==>
      (pos < |s| && s[pos] == x && forall j :: 0 <= j < pos ==> s[j] != x)
  {
    if |s| > 0 && s[0] != x && pos > 0 {
      SearchAt(s[1..], x, pos - 1);
      if pos < |s| && s[pos] == x && (forall j :: 0 <= j < pos ==> s[j] != x) {
        assert forall j :: 0 <= j < pos - 1 ==> s[1..][j] == s[j + 1];
      }
    }
  }

  /** hasColumnAtPosition: the first column that matches (case-insensitively,
      quotes trimmed) stands at the given position. */
  function HasColumnAtPosition(ix: Index, columnName: string, pos: nat): (r: bool)
    ensures r <==> (pos < |ix.columns| &&
      Lower(TrimQuotes(ix.columns[pos])) == Norm(columnName) &&
      forall j :: 0 <= j < pos ==> Lower(TrimQuotes(ix.columns[j])) != Norm(columnName))
  {
    var cols := UnquotedLowerColumns(ix);
    SearchAt(cols, Norm(columnName), pos);
    Search(cols, Norm(columnName)) == Some(pos)
  }

  /** The columns as hasColumnAtPosition compares them. */
  function UnquotedLowerColumns(ix: Index): (r: seq<string>)
    ensures |r| == |ix.columns|
    ensures forall i :: 0 <= i < |r| ==> r[i] == Lower(TrimQuotes(ix.columns[i]))
  {
    seq(|ix.columns|, i requires 0 <= i < |ix.columns| => Lower(TrimQuotes(ix.columns[i])))
  }

  // ---------------------------------------------------------------------
  // Flags

  /** addFlag */
  function AddFlag(ix: Index, flag: string): Index {
    ix.(flags := InsertKey(ix.flags, Lower(flag)))
  }

  /** hasFlag */
  predicate HasFlag(ix: Index, flag: string) {
    Lower(flag) in ix.flags
  }

  /** removeFlag */
  function RemoveFlag(ix: Index, flag: string): Index {
    ix.(flags := RemoveFrom(ix.flags, Lower(flag)))
  }

  /** Flags are case-insensitive: after adding a flag, every spelling of it
      is present, other flags are unaffected, and validity is kept. */
  lemma AddFlagSpec(ix: Index, flag: string, query: string)
    requires ValidIndex(ix)
    ensures ValidIndex(AddFlag(ix, flag))
    ensures HasFlag(AddFlag(ix, flag), query) <==> Lower(query) == Lower(flag) || HasFlag(ix, query)
    ensures AddFlag(ix, flag).columns == ix.columns
  {
    LowerIdempotent(flag);
  }

  /** After removing a flag no spelling of it is present, and the others are
      unaffected. */
  lemma RemoveFlagSpec(ix: Index, flag: string, query: string)
    requires ValidIndex(ix)
    ensures ValidIndex(RemoveFlag(ix, flag))
    ensures HasFlag(RemoveFlag(ix, flag), query) <==> Lower(query) != Lower(flag) && HasFlag(ix, query)
  {
    var r := RemoveFrom(ix.flags, Lower(flag));
    forall i | 0 <= i < |r| ensures Lower(r[i]) == r[i] {
      assert r[i] in ix.flags;
    }
  }
}

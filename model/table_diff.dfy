/** The record of the changes between two versions of one table. Its
    collections are public and are changed in place by the comparator and
    by the platform while it renders the ALTER statements. */
module TableDiff {
  import opened Base
  import opened Asset
  import opened Arrays
  import opened Index
  import opened Objects
  import opened ColumnDiff

  /** What getNewName returns: an Identifier for a truthy new name,
      otherwise the stored value itself (`false`, or a falsy string). */
  datatype NewName = Renamed(id: AssetName) | NotRenamed(raw: Option<string>)

  /** The fields of a diff at one moment, as the unseen parent platform
      hooks receive them. */
  datatype TableDiffValue = TableDiffValue(
    name: string,
    newName: Option<string>,
    addedColumns: Dict<Column>,
    changedColumns: Dict<ColumnDiff>,
    removedColumns: Dict<Column>,
    renamedColumns: Dict<Column>,
    addedIndexes: Dict<Index>,
    changedIndexes: Dict<Index>,
    removedIndexes: Dict<Index>,
    renamedIndexes: Dict<Index>,
    addedForeignKeys: seq<ForeignKey>,
    changedForeignKeys: seq<ForeignKey>,
    removedForeignKeys: seq<ForeignKey>,
    fromTable: Option<Table>)

  class TableDiff {
    var name: string
    /** `false` is None. */
    var newName: Option<string>
    var addedColumns: Dict<Column>
    var changedColumns: Dict<ColumnDiff>
    var removedColumns: Dict<Column>
    var renamedColumns: Dict<Column>
    var addedIndexes: Dict<Index>
    var changedIndexes: Dict<Index>
    var removedIndexes: Dict<Index>
    var renamedIndexes: Dict<Index>
    var addedForeignKeys: seq<ForeignKey>
    var changedForeignKeys: seq<ForeignKey>
    var removedForeignKeys: seq<ForeignKey>
    var fromTable: Option<Table>

    ghost predicate Valid()
      reads this
    {
      ValidDict(addedColumns) && ValidDict(changedColumns) && ValidDict(removedColumns) &&
      ValidDict(renamedColumns) && ValidDict(addedIndexes) && ValidDict(changedIndexes) &&
      ValidDict(removedIndexes) && ValidDict(renamedIndexes)
    }

    /** The constructor stores the column and index collections and the
        old table as given; there is no new name and nothing is renamed. */
    constructor(tableName: string, addedColumns: Dict<Column>, changedColumns: Dict<ColumnDiff>,
                removedColumns: Dict<Column>, addedIndexes: Dict<Index>, changedIndexes: Dict<Index>,
                removedIndexes: Dict<Index>, fromTable: Option<Table>)
      requires ValidDict(addedColumns) && ValidDict(changedColumns) && ValidDict(removedColumns)
      requires ValidDict(addedIndexes) && ValidDict(changedIndexes) && ValidDict(removedIndexes)
      ensures Valid()
      ensures this.name == tableName && this.newName.None?
      ensures this.addedColumns == addedColumns && this.changedColumns == changedColumns
      ensures this.removedColumns == removedColumns && this.renamedColumns == Empty()
      ensures this.addedIndexes == addedIndexes && this.changedIndexes == changedIndexes
      ensures this.removedIndexes == removedIndexes && this.renamedIndexes == Empty()
      ensures this.addedForeignKeys == [] && this.changedForeignKeys == [] && this.removedForeignKeys == []
      ensures this.fromTable == fromTable
    {
      this.name := tableName;
      this.newName := None;
      this.addedColumns := addedColumns;
      this.changedColumns := changedColumns;
      this.removedColumns := removedColumns;
      this.renamedColumns := Empty();
      this.addedIndexes := addedIndexes;
      this.changedIndexes := changedIndexes;
      this.removedIndexes := removedIndexes;
      this.renamedIndexes := Empty();
      this.addedForeignKeys := [];
      this.changedForeignKeys := [];
      this.removedForeignKeys := [];
      this.fromTable := fromTable;
    }

    function Value(): TableDiffValue
      reads this
    {
      TableDiffValue(name, newName, addedColumns, changedColumns, removedColumns, renamedColumns,
        addedIndexes, changedIndexes, removedIndexes, renamedIndexes,
        addedForeignKeys, changedForeignKeys, removedForeignKeys, fromTable)
    }

    /** getName: the old table's quoted name when there is an old table,
        otherwise the stored name, parsed as an Identifier. */
    function GetName(quote: string -> string, isKeyword: string -> bool): (r: AssetName)
      reads this
    {
      NameOf(Value(), quote, isKeyword)
    }

    /** getNewName */
    function GetNewName(): (r: NewName)
      reads this
      ensures SomeTruthy(newName) <==> r.Renamed?
      ensures r.Renamed? ==> r.id == NewIdentifier(newName.value)
      ensures r.NotRenamed? ==> r.raw == newName
    {
      if SomeTruthy(newName) then Renamed(NewIdentifier(newName.value)) else NotRenamed(newName)
    }
  }

  /** The collections of a diff value are well-formed PHP arrays. */
  ghost predicate ValidValue(v: TableDiffValue) {
    ValidDict(v.addedColumns) && ValidDict(v.changedColumns) && ValidDict(v.removedColumns) &&
    ValidDict(v.renamedColumns) && ValidDict(v.addedIndexes) && ValidDict(v.changedIndexes) &&
    ValidDict(v.removedIndexes) && ValidDict(v.renamedIndexes)
  }

  /** getName on a diff value. */
  function NameOf(d: TableDiffValue, quote: string -> string, isKeyword: string -> bool): AssetName {
    NewIdentifier(
      if d.fromTable.Some? then GetQuotedName(d.fromTable.value.name, quote, isKeyword) else d.name)
  }

  /** Without an old table getName parses the stored name; with one, a
      plain lower-case table name that is no keyword comes back unchanged,
      and a quoted one comes back marked as quoted when quoting puts the
      name between backticks. */
  lemma NameOfFromTable(d: TableDiffValue, quote: string -> string, isKeyword: string -> bool)
    ensures d.fromTable.None? ==> NameOf(d, quote, isKeyword) == NewIdentifier(d.name)
    ensures d.fromTable.Some? ==>
      var t := d.fromTable.value.name;
      !SomeTruthy(t.namespace) && '.' !in t.name && Unquoted(t.name) && !isKeyword(t.name) && !t.quoted ==>
      NameOf(d, quote, isKeyword) == AssetName(t.name, None, false)
    ensures d.fromTable.Some? ==>
      var t := d.fromTable.value.name;
      !SomeTruthy(t.namespace) && '.' !in t.name && Unquoted(t.name) && t.quoted &&
      quote(t.name) == "`" + t.name + "`" ==>
      NameOf(d, quote, isKeyword) == AssetName(t.name, None, true)
  {
    if d.fromTable.Some? {
      var t := d.fromTable.value.name;
      if !SomeTruthy(t.namespace) && '.' !in t.name && Unquoted(t.name) {
        assert Split(t.name, '.') == [t.name];
        assert Join([QuoteSegment(t, t.name, quote, isKeyword)], ".") == QuoteSegment(t, t.name, quote, isKeyword);
        var q := seq(1, i requires 0 <= i < 1 => QuoteSegment(t, [t.name][i], quote, isKeyword));
        assert q == [QuoteSegment(t, t.name, quote, isKeyword)];
        if t.quoted && quote(t.name) == "`" + t.name + "`" {
          BacktickQuoted(t.name);
        }
        if !isKeyword(t.name) && !t.quoted && |t.name| > 0 {
          assert !IsQuoteChar(t.name[0]);
        }
      }
    }
  }
}

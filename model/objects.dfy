/** The parts of Column, ForeignKeyConstraint and Table that the core reads.
    Those classes are not part of this model: each is reduced to the values
    its getters return, and nothing is assumed about how it computes them
    beyond the shape stated here. */
module Objects {
  import opened Base
  import opened Asset
  import opened Types
  import opened Arrays
  import opened Index

  /** A column, as `toArray()` exposes it. `length`, `precision`, `scale`,
      `default` and `comment` may be null; the value list of an enum/set
      column is empty when unset. */
  datatype Column = Column(
    name: AssetName,
    typ: TypeTag,
    default: Option<string>,
    notnull: bool,
    length: Option<int>,
    precision: Option<int>,
    scale: Option<int>,
    fixed: bool,
    unsigned: bool,
    autoincrement: bool,
    comment: Option<string>,
    list: seq<string>,
    customOptions: Dict<string>,
    platformOptions: Dict<string>)

  /** `array_key_exists($key, $column->toArray())` for an option key: the
      custom and platform options are merged into the property array. */
  predicate HasProperty(c: Column, key: string) {
    key in c.customOptions.m || key in c.platformOptions.m
  }

  /** `$column->toArray()[$key]` for an option key; custom options are merged
      last and win. */
  function Property(c: Column, key: string): string
    requires HasProperty(c, key)
  {
    if key in c.customOptions.m then c.customOptions.m[key] else c.platformOptions.m[key]
  }

  /** A foreign key constraint, through its getters. */
  datatype ForeignKey = ForeignKey(
    name: string,
    localTableName: string,
    localColumns: seq<string>,
    foreignTableName: string,
    unqualifiedForeignTableName: string,
    foreignColumns: seq<string>,
    onUpdate: Option<string>,
    onDelete: Option<string>)

  /** getUnquotedLocalColumns / getUnquotedForeignColumns */
  function UnquotedAll(cols: seq<string>): (r: seq<string>)
    ensures |r| == |cols| && forall i :: 0 <= i < |cols| ==> r[i] == TrimQuotes(cols[i])
  {
    seq(|cols|, i requires 0 <= i < |cols| => TrimQuotes(cols[i]))
  }

  /** A table: its columns and indexes as the keyed arrays getColumns and
      getIndexes return, the key of its primary index, its foreign keys and
      its options. */
  datatype Table = Table(
    name: AssetName,
    columns: Dict<Column>,
    indexes: Dict<Index>,
    primaryKey: Option<string>,
    foreignKeys: Dict<ForeignKey>,
    options: map<string, string>)

  /** hasColumn: columns are keyed by their lower-cased, unquoted name. */
  predicate HasColumn(t: Table, name: string) {
    Norm(name) in t.columns.m
  }

  /** getColumn */
  function GetColumn(t: Table, name: string): Column
    requires HasColumn(t, name)
  {
    t.columns.m[Norm(name)]
  }

  /** hasIndex: indexes are keyed like columns. */
  predicate HasIndex(t: Table, name: string) {
    Norm(name) in t.indexes.m
  }

  /** getIndex */
  function GetIndex(t: Table, name: string): Index
    requires HasIndex(t, name)
  {
    t.indexes.m[Norm(name)]
  }

  /** What the Table class guarantees: its arrays are well formed and keyed
      by normalised names, each column's option arrays are well formed,
      every index names columns of the table, and the primary key is the
      one index flagged primary. */
  ghost predicate WellFormed(t: Table) {
    ValidDict(t.columns) && ValidDict(t.indexes) && ValidDict(t.foreignKeys) &&
    (forall k :: k in t.columns.m ==> Norm(k) == k) &&
    (forall k :: k in t.indexes.m ==> Norm(k) == k) &&
    (forall k :: k in t.columns.m ==>
      ValidDict(t.columns.m[k].customOptions) && ValidDict(t.columns.m[k].platformOptions)) &&
    (forall k, i :: k in t.indexes.m && 0 <= i < |t.indexes.m[k].columns| ==>
      HasColumn(t, t.indexes.m[k].columns[i])) &&
    (t.primaryKey.Some? ==>
      t.primaryKey.value in t.indexes.m &&
      t.indexes.m[t.primaryKey.value].isPrimary) &&
    (forall k :: k in t.indexes.m && t.indexes.m[k].isPrimary ==> t.primaryKey == Some(k))
  }

  predicate HasPrimaryKey(t: Table) {
    t.primaryKey.Some? && t.primaryKey.value in t.indexes.m
  }

  function PrimaryKey(t: Table): Index
    requires HasPrimaryKey(t)
  {
    t.indexes.m[t.primaryKey.value]
  }

  /** The primary key's columns are columns of the table. */
  predicate PrimaryKeyColumnsExist(t: Table) {
    HasPrimaryKey(t) ==>
      forall i :: 0 <= i < |PrimaryKey(t).columns| ==> HasColumn(t, PrimaryKey(t).columns[i])
  }

  lemma WellFormedPrimaryKey(t: Table)
    requires WellFormed(t)
    ensures PrimaryKeyColumnsExist(t)
  {
  }

  /** getPrimaryKeyColumns; empty when the table has no primary key. */
  function PrimaryKeyColumns(t: Table): (r: seq<string>)
    ensures HasPrimaryKey(t) ==> r == PrimaryKey(t).columns
    ensures !HasPrimaryKey(t) ==> r == []
  {
    if HasPrimaryKey(t) then PrimaryKey(t).columns else []
  }

  /** getName of the table's asset. */
  function TableName(t: Table): string {
    GetName(t.name)
  }
}

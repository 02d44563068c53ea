/** The record of one changed column: the old name, the new column, the
    names of the properties that differ and, optionally, the old column. */
module ColumnDiff {
  import opened Base
  import opened Asset
  import opened Objects

  datatype ColumnDiff = ColumnDiff(
    oldColumnName: string,
    column: Column,
    changedProperties: seq<string>,
    fromColumn: Option<Column>)

  /** The constructor stores what it is given; the old column is null unless
      passed. */
  function NewColumnDiff(oldColumnName: string, column: Column, changedProperties: seq<string>): ColumnDiff {
    ColumnDiff(oldColumnName, column, changedProperties, None)
  }

  /** hasChanged: membership in the changed property list. */
  predicate HasChanged(d: ColumnDiff, property: string) {
    property in d.changedProperties
  }

  /** A diff built with no changed properties reports no property as
      changed, and one built with a list reports exactly its members; the
      old name and the new column read back as given, and no old column is
      attached. */
  lemma HasChangedIff(oldColumnName: string, column: Column, props: seq<string>, p: string)
    ensures HasChanged(NewColumnDiff(oldColumnName, column, props), p) <==>
            exists i :: 0 <= i < |props| && props[i] == p
    ensures props == [] ==> !HasChanged(NewColumnDiff(oldColumnName, column, props), p)
    ensures var d := NewColumnDiff(oldColumnName, column, props);
      d.oldColumnName == oldColumnName && d.column == column && d.fromColumn.None?
  {
    if p in props {
      var i :| 0 <= i < |props| && props[i] == p;
    }
  }

  /** getOldColumnName: the stored old name parsed as an Identifier. */
  function GetOldColumnName(d: ColumnDiff): (r: AssetName)
    ensures r.quoted == IsIdentifierQuoted(d.oldColumnName)
    ensures '.' !in Unquote(d.oldColumnName) ==> r.name == Unquote(d.oldColumnName) && r.namespace.None?
  {
    NewIdentifier(d.oldColumnName)
  }

  /** A quoted old name loses its quotes but keeps the quoted flag, so the
      platform quotes it again when rendering. */
  lemma OldColumnNameQuoted(d: ColumnDiff, n: string)
    requires d.oldColumnName == "`" + n + "`" && Unquoted(n) && '.' !in n
    ensures GetOldColumnName(d) == AssetName(n, None, true)
  {
    BacktickQuoted(n);
  }
}

/** The MySQL 5.7 platform. It renames an index in place with RENAME INDEX,
    so it switches off the dropping and re-creating of the foreign keys
    around index renames that the base MySQL platform does; everything else
    it inherits. The inherited rendering lives in module MySql, which looks
    at the platform's variant where the two differ. */
module MySQL57 {
  import opened Base
  import opened Asset
  import opened Arrays
  import opened Index
  import opened TableDiff
  import opened Platform
  import opened MySql

  /** getRenameIndexSQL: on 5.7 a single RENAME INDEX statement with the
      new name quoted as the platform quotes it; the base platform keeps the
      generic implementation, which is not part of this model. */
  function RenameIndexSQL(p: Platform, oldIndexName: string, ix: Index, tableName: string): (r: seq<string>) {
    if p.variant == MySql57 then
      ["ALTER TABLE " + tableName + " RENAME INDEX " + oldIndexName + " TO " + Quoted(p, ix.name)]
    else p.parentRenameIndexSQL(oldIndexName, ix, tableName)
  }

  /** On 5.7 there is exactly one statement; an index with a plain,
      unquoted name that is no keyword is renamed to that bare name, and a
      quoted one to the name as the platform quotes it. */
  lemma RenameIndexStatement(p: Platform, oldIndexName: string, ix: Index, tableName: string)
    requires p.variant == MySql57
    requires !SomeTruthy(ix.name.namespace) && '.' !in ix.name.name && Unquoted(ix.name.name)
    ensures var r := RenameIndexSQL(p, oldIndexName, ix, tableName);
      var head := "ALTER TABLE " + tableName + " RENAME INDEX " + oldIndexName + " TO ";
      |r| == 1 &&
      (!ix.name.quoted && !p.isKeyword(ix.name.name) ==> r[0] == head + ix.name.name) &&
      (ix.name.quoted ==> r[0] == head + p.quoteIdentifier(ix.name.name))
  {
    var a := ix.name;
    assert GetName(a) == a.name;
    assert Split(a.name, '.') == [a.name];
    var q := seq(1, i requires 0 <= i < 1 => QuoteSegment(a, [a.name][i], p.quoteIdentifier, p.isKeyword));
    assert q == [QuoteSegment(a, a.name, p.quoteIdentifier, p.isKeyword)];
    assert Join(q, ".") == QuoteSegment(a, a.name, p.quoteIdentifier, p.isKeyword);
  }

  /** On 5.7 the pre-phase of getAlterTableSQL renders the collapsed index
      pairs, the autoincrement clears of changed primary keys and the
      parent's pre-phase, and no foreign key drops around index renames. */
  lemma PreAlterOrder(p: Platform, c: TableDiffValue)
    requires AlterReady(c) && p.variant == MySql57
    ensures var paired := PairedDiff(p, c);
      var g := EngineGate(paired.diff);
      PreAlter(p, c).diff == g &&
      PreAlter(p, c).sql == paired.sql +
        (AlterIndexClears(p, TableQuoted(p, g), g.fromTable, Values(g.changedIndexes), |g.changedIndexes.keys|) +
         p.parentPreAlterSQL(g))
  {
    var g := PreAlterUnfold(p, c);
    RenameIndexForeignKeysQuiet(p, g);
    RestUnfold(p, g);
  }

  /** On 5.7 getAlterTableSQL renders the pre-phase, the ALTER TABLE
      statement and the parent's post-phase, with no foreign key
      re-creation after index renames. */
  lemma AlterTableOrder(p: Platform, v: TableDiffValue)
    requires AlterReady(v) && p.variant == MySql57
    ensures var c := Consumed(v);
      var pre := PreAlter(p, c);
      AlterTable(p, v).sql == pre.sql + AlterStatements(p, c, QueryParts(p, v)) + p.parentPostAlterSQL(pre.diff)
  {
    var pre := PreAlter(p, Consumed(v));
    RenameIndexForeignKeysQuiet(p, pre.diff);
  }

  /** The pre-phase is the pairing followed by the rest of the pre-phase on
      the gated diff. */
  lemma PreAlterUnfold(p: Platform, c: TableDiffValue) returns (g: TableDiffValue)
    requires AlterReady(c)
    ensures g == EngineGate(PairedDiff(p, c).diff) && AlterReady(g)
    ensures PreAlter(p, c).diff == g && PreAlter(p, c).sql == PairedDiff(p, c).sql + PreAlterRest(p, g)
  {
    g := EngineGate(PairedDiff(p, c).diff);
  }

  lemma RestUnfold(p: Platform, g: TableDiffValue)
    requires AlterReady(g) && RenameIndexForeignKeysPre(p, g) == []
    ensures PreAlterRest(p, g) ==
      AlterIndexClears(p, TableQuoted(p, g), g.fromTable, Values(g.changedIndexes), |g.changedIndexes.keys|) +
      p.parentPreAlterSQL(g)
  {
    var clears := AlterIndexClears(p, TableQuoted(p, g), g.fromTable, Values(g.changedIndexes), |g.changedIndexes.keys|);
    assert clears + p.parentPreAlterSQL(g) + [] == clears + p.parentPreAlterSQL(g);
  }
}

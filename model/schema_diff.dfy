/** The differences between two schemas, and the statements that migrate
    the first to the second. The platform renders each statement; the
    order of the statements and which of them save mode keeps are what this
    class decides. */
module SchemaDiff {
  import opened Base
  import opened Arrays
  import opened Objects
  import opened Sequence
  import opened TableDiff
  import opened Platform
  import opened MySql
  import S = Schema

  /** What _toSql reads of a schema diff besides the changed tables, each
      collection in the order its foreach visits it. */
  datatype SchemaDiffValue = SchemaDiffValue(
    newNamespaces: seq<string>,
    orphanedForeignKeys: seq<ForeignKey>,
    changedSequences: seq<Sequence>,
    removedSequences: seq<Sequence>,
    newSequences: seq<Sequence>,
    newTables: seq<Table>,
    removedTables: seq<Table>)

  // ---------------------------------------------------------------------
  // The statements, as functions of the diff

  /** The piece f gives for each element, by position. */
  function Pieces<T>(xs: seq<T>, f: T -> seq<string>): nat -> seq<string> {
    (i: nat) => if i < |xs| then f(xs[i]) else []
  }

  /** What a foreach that appends f of each element leaves appended. */
  function Each<T>(xs: seq<T>, f: T -> seq<string>): seq<string> {
    Chain(Pieces(xs, f), |xs|)
  }

  function CreateSchemaOf(p: Platform): string -> seq<string> {
    (n: string) => [p.createSchemaSQL(n)]
  }

  /** An orphaned foreign key is dropped from its local table, named. */
  function DropOrphanOf(p: Platform): ForeignKey -> seq<string> {
    (fk: ForeignKey) => [p.dropForeignKeySQL(fk, TableNamed(fk.localTableName))]
  }

  function AlterSequenceOf(p: Platform): Sequence -> seq<string> {
    (q: Sequence) => [p.alterSequenceSQL(q)]
  }

  function DropSequenceOf(p: Platform): Sequence -> seq<string> {
    (q: Sequence) => [p.dropSequenceSQL(q)]
  }

  function CreateSequenceOf(p: Platform): Sequence -> seq<string> {
    (q: Sequence) => [p.createSequenceSQL(q)]
  }

  function CreateTableOf(p: Platform): Table -> seq<string> {
    (t: Table) => p.createTableSQL(t)
  }

  function DropTableOf(p: Platform): Table -> seq<string> {
    (t: Table) => [p.dropTableSQL(t)]
  }

  /** A new table's foreign keys, each created on the table object. */
  function CreateForeignKeyOf(p: Platform, t: Table): ForeignKey -> seq<string> {
    (fk: ForeignKey) => [p.createForeignKeySQL(fk, TableObject(t))]
  }

  function TableForeignKeys(p: Platform, t: Table): seq<string> {
    if p.supportsForeignKeyConstraints then Each(PresentValues(t.foreignKeys), CreateForeignKeyOf(p, t)) else []
  }

  function TableForeignKeysOf(p: Platform): Table -> seq<string> {
    (t: Table) => TableForeignKeys(p, t)
  }

  function NamespaceSql(p: Platform, s: SchemaDiffValue): seq<string> {
    if p.supportsSchemas then Each(s.newNamespaces, CreateSchemaOf(p)) else []
  }

  function OrphanSql(p: Platform, s: SchemaDiffValue, saveMode: bool): seq<string> {
    if p.supportsForeignKeyConstraints && !saveMode then Each(s.orphanedForeignKeys, DropOrphanOf(p)) else []
  }

  function SequenceSql(p: Platform, s: SchemaDiffValue, saveMode: bool): seq<string> {
    if p.supportsSequences then
      Each(s.changedSequences, AlterSequenceOf(p)) +
      (if saveMode then [] else Each(s.removedSequences, DropSequenceOf(p))) +
      Each(s.newSequences, CreateSequenceOf(p))
    else []
  }

  function TableDropSql(p: Platform, s: SchemaDiffValue, saveMode: bool): seq<string> {
    if saveMode then [] else Each(s.removedTables, DropTableOf(p))
  }

  /** The diffs' values, in order. */
  ghost function ValuesOf(ds: seq<TableDiff>): (vs: seq<TableDiffValue>)
    reads ds
    ensures |vs| == |ds| && forall i :: 0 <= i < |ds| ==> vs[i] == ds[i].Value()
  {
    if |ds| == 0 then [] else ValuesOf(ds[..|ds| - 1]) + [ds[|ds| - 1].Value()]
  }

  /** What getAlterTableSQL needs of every changed table. */
  ghost predicate AllReady(vs: seq<TableDiffValue>) {
    forall i :: 0 <= i < |vs| ==> AlterReady(vs[i])
  }

  /** What getAlterTableSQL gives for each changed table, in order. */
  function Renderings(p: Platform, vs: seq<TableDiffValue>): (rs: seq<Altered>)
    requires AllReady(vs)
    ensures |rs| == |vs|
  {
    seq(|vs|, i requires 0 <= i < |vs| => AlterTable(p, vs[i]))
  }

  lemma RenderingsRender(p: Platform, vs: seq<TableDiffValue>)
    requires AllReady(vs)
    ensures Renders(p, vs, Renderings(p, vs))
  {
  }

  /** rs holds the renderings of vs. */
  ghost predicate Renders(p: Platform, vs: seq<TableDiffValue>, rs: seq<Altered>) {
    |rs| == |vs| && AllReady(vs) &&
    forall j {:trigger AlterTable(p, vs[j])} :: 0 <= j < |vs| ==> rs[j] == AlterTable(p, vs[j])
  }

  /** The statements of the renderings, one table after another. */
  function SqlOf(rs: seq<Altered>): seq<string> {
    if |rs| == 0 then [] else SqlOf(rs[..|rs| - 1]) + rs[|rs| - 1].sql
  }

  /** The diffs as the renderings leave them. */
  function DiffsOf(rs: seq<Altered>): (r: seq<TableDiffValue>)
    ensures |r| == |rs| && forall i :: 0 <= i < |rs| ==> r[i] == rs[i].diff
  {
    seq(|rs|, i requires 0 <= i < |rs| => rs[i].diff)
  }

  /** The ALTER statements of the changed tables, one table after another. */
  function AlterSql(p: Platform, vs: seq<TableDiffValue>): seq<string>
    requires AllReady(vs)
  {
    SqlOf(Renderings(p, vs))
  }

  /** Each changed table's diff as its rendering leaves it. */
  function AlteredDiffs(p: Platform, vs: seq<TableDiffValue>): seq<TableDiffValue>
    requires AllReady(vs)
  {
    DiffsOf(Renderings(p, vs))
  }

  /** Every diff getAlterTableSQL leaves can be rendered again. */
  lemma AlteredReady(p: Platform, vs: seq<TableDiffValue>)
    requires AllReady(vs)
    ensures |AlteredDiffs(p, vs)| == |vs| && AllReady(AlteredDiffs(p, vs))
  {
    var rs := Renderings(p, vs);
    RenderingsRender(p, vs);
    forall j | 0 <= j < |vs| ensures AlterReady(DiffsOf(rs)[j]) {
      assert rs[j] == AlterTable(p, vs[j]);
    }
  }

  /** The changed-tables foreach of _toSql: each diff in turn is handed
      to getAlterTableSQL, which consumes it, and its statements are
      appended. */
  method AlterEach(p: Platform, ds: seq<TableDiff>, ghost olds: seq<TableDiffValue>, ghost rs: seq<Altered>,
                   ghost objs: set<TableDiff>)
    returns (sql: seq<string>)
    requires Distinct(ds) && Holds(ds, olds) && Renders(p, olds, rs)
    requires forall d :: d in ds ==> d in objs
    modifies objs
    ensures sql == SqlOf(rs)
    ensures Holds(ds, DiffsOf(rs))
  {
    ghost var cur := olds;
    sql := [];
    var i := 0;
    assert olds[0..] == olds;
    while i < |ds|
      invariant 0 <= i <= |ds| && Progress(ds, olds, rs, cur, sql, i)
    {
      sql, cur := AlterNext(p, ds, olds, rs, cur, sql, i);
      i := i + 1;
    }
    ProgressDone(ds, olds, rs, cur, sql);
  }

  lemma ProgressDone(ds: seq<TableDiff>, olds: seq<TableDiffValue>, rs: seq<Altered>,
                     cur: seq<TableDiffValue>, sql: seq<string>)
    requires Progress(ds, olds, rs, cur, sql, |ds|)
    ensures sql == SqlOf(rs) && Holds(ds, DiffsOf(rs))
  {
    assert rs[..|ds|] == rs;
    assert cur == DiffsOf(rs);
  }

  /** The state of the foreach after i tables: those rendered, the rest
      as they were. */
  ghost predicate Progress(ds: seq<TableDiff>, olds: seq<TableDiffValue>, rs: seq<Altered>,
                           cur: seq<TableDiffValue>, sql: seq<string>, i: nat)
    reads ds
  {
    i <= |ds| == |olds| == |rs| && Holds(ds, cur) &&
    cur == DiffsOf(rs[..i]) + olds[i..] && sql == SqlOf(rs[..i])
  }

  /** One pass of the foreach. */
  method AlterNext(p: Platform, ds: seq<TableDiff>, ghost olds: seq<TableDiffValue>, ghost rs: seq<Altered>,
                   ghost cur: seq<TableDiffValue>, sql: seq<string>, i: nat)
    returns (sql': seq<string>, ghost cur': seq<TableDiffValue>)
    requires Distinct(ds) && Renders(p, olds, rs) && Progress(ds, olds, rs, cur, sql, i) && i < |ds|
    modifies ds[i]
    ensures Progress(ds, olds, rs, cur', sql', i + 1)
  {
    var part := AlterAt(p, ds, cur, i, olds, rs);
    cur' := cur[i := ds[i].Value()];
    RenderStep(rs, i);
    ReplaceNext(cur, DiffsOf(rs[..i]), olds, i, ds[i].Value(), DiffsOf(rs[..i + 1]));
    sql' := sql + part;
  }

  /** The values of the diffs, index by index. */
  ghost predicate Holds(ds: seq<TableDiff>, vs: seq<TableDiffValue>)
    reads ds
  {
    |vs| == |ds| && forall j :: 0 <= j < |ds| ==> ds[j].Value() == vs[j]
  }

  lemma HoldsValuesOf(ds: seq<TableDiff>, vs: seq<TableDiffValue>)
    requires |ds| == |vs|
    ensures Holds(ds, vs) <==> ValuesOf(ds) == vs
  {
  }

  /** One diff of the foreach handed to getAlterTableSQL; the others keep
      their values. */
  method AlterAt(p: Platform, ds: seq<TableDiff>, ghost vs: seq<TableDiffValue>, i: nat,
                 ghost olds: seq<TableDiffValue>, ghost rs: seq<Altered>)
    returns (part: seq<string>)
    requires Distinct(ds) && i < |ds| && Holds(ds, vs) && Renders(p, olds, rs) && i < |olds| && vs[i] == olds[i]
    modifies ds[i]
    ensures Holds(ds, vs[i := ds[i].Value()])
    ensures Altered(part, ds[i].Value()) == rs[i]
  {
    part := AlterOne(p, ds[i], olds, rs, i);
  }

  /** getAlterTableSQL on the i-th diff gives the i-th rendering. */
  method AlterOne(p: Platform, d: TableDiff, ghost olds: seq<TableDiffValue>, ghost rs: seq<Altered>, i: nat)
    returns (part: seq<string>)
    requires Renders(p, olds, rs) && i < |olds| && d.Value() == olds[i]
    modifies d
    ensures Altered(part, d.Value()) == rs[i]
  {
    part := GetAlterTableSQL(p, d);
  }

  /** A prefix that grows by the next element while the suffix shrinks. */
  lemma ReplaceNext<T>(cur: seq<T>, done: seq<T>, rest: seq<T>, i: nat, x: T, done': seq<T>)
    requires i < |rest| && |done| == i && cur == done + rest[i..] && done' == done + [x]
    ensures cur[i := x] == done' + rest[i + 1..]
  {
  }

  lemma RenderStep(rs: seq<Altered>, i: nat)
    requires i < |rs|
    ensures SqlOf(rs[..i + 1]) == SqlOf(rs[..i]) + rs[i].sql
    ensures DiffsOf(rs[..i + 1]) == DiffsOf(rs[..i]) + [rs[i].diff]
  {
    assert rs[..i + 1][..i] == rs[..i];
  }

  /** _toSql up to the changed tables: namespaces, orphan drops,
      sequences, new tables, their foreign keys and table drops. The ALTER
      statements of the changed tables follow, the same in both modes. */
  function CreateDropSql(p: Platform, s: SchemaDiffValue, saveMode: bool): seq<string> {
    NamespaceSql(p, s) + OrphanSql(p, s, saveMode) + SequenceSql(p, s, saveMode) +
    Each(s.newTables, CreateTableOf(p)) + Each(s.newTables, TableForeignKeysOf(p)) +
    TableDropSql(p, s, saveMode)
  }

  /** The diff with nothing removed. */
  function NothingRemoved(s: SchemaDiffValue): SchemaDiffValue {
    s.(orphanedForeignKeys := [], removedSequences := [], removedTables := [])
  }

  /** The statements that delete: orphan foreign keys, sequences, tables. */
  function Drops(p: Platform, s: SchemaDiffValue): seq<string> {
    OrphanSql(p, s, false) +
    (if p.supportsSequences then Each(s.removedSequences, DropSequenceOf(p)) else []) +
    Each(s.removedTables, DropTableOf(p))
  }

  // ---------------------------------------------------------------------
  // The class

  class SchemaDiff {
    var fromSchema: Option<S.Schema>
    var newNamespaces: Dict<string>
    var removedNamespaces: Dict<string>
    var newTables: Dict<Table>
    var changedTables: Dict<TableDiff>
    var removedTables: Dict<Table>
    var newSequences: seq<Sequence>
    var changedSequences: seq<Sequence>
    var removedSequences: seq<Sequence>
    var orphanedForeignKeys: seq<ForeignKey>

    /** The TableDiff objects of the changed tables. */
    ghost var Diffs: set<TableDiff>

    /** No TableDiff object is listed under two tables. */
    ghost predicate Unshared()
      reads this
    {
      ValidDict(changedTables) && Distinct(Values(changedTables))
    }

    /** The collections the create and drop statements come from are
        well-formed PHP arrays. */
    ghost predicate Keyed()
      reads this
    {
      ValidDict(newNamespaces) && ValidDict(removedNamespaces) && ValidDict(newTables) &&
      ValidDict(removedTables)
    }

    /** Well-formed collections, and Diffs holds every changed table's
        diff. */
    ghost predicate Valid()
      reads this
    {
      Keyed() && Unshared() &&
      forall d :: d in Values(changedTables) ==> d in Diffs
    }

    /** Every changed table can be rendered by getAlterTableSQL. */
    ghost predicate Ready()
      reads this, Diffs
      requires Valid()
    {
      AllReady(ChangedValues())
    }

    /** The changed tables' diffs as they are now. */
    ghost function ChangedValues(): (vs: seq<TableDiffValue>)
      reads this, Diffs
      requires Valid()
    {
      ValuesOf(Values(changedTables))
    }

    ghost function Snapshot(): SchemaDiffValue
      reads this
      requires Keyed()
    {
      SchemaDiffValue(Values(newNamespaces), orphanedForeignKeys, changedSequences, removedSequences,
        newSequences, Values(newTables), Values(removedTables))
    }

    /** The constructor stores the new, changed and removed tables and the
        old schema; the other collections start empty. */
    constructor(newTables: Dict<Table>, changedTables: Dict<TableDiff>, removedTables: Dict<Table>,
                fromSchema: Option<S.Schema>)
      ensures this.newTables == newTables && this.changedTables == changedTables
      ensures this.removedTables == removedTables && this.fromSchema == fromSchema
      ensures newNamespaces == Empty() && removedNamespaces == Empty()
      ensures newSequences == [] && changedSequences == [] && removedSequences == []
      ensures orphanedForeignKeys == []
      ensures Diffs == set k | k in changedTables.m :: changedTables.m[k]
    {
      Diffs := set k | k in changedTables.m :: changedTables.m[k];
      this.newTables := newTables;
      this.changedTables := changedTables;
      this.removedTables := removedTables;
      this.fromSchema := fromSchema;
      newNamespaces := Empty();
      removedNamespaces := Empty();
      newSequences := [];
      changedSequences := [];
      removedSequences := [];
      orphanedForeignKeys := [];
    }

    /** The last foreach: each changed table's ALTER statements, rendered
        by getAlterTableSQL, which changes that table's diff as it goes. */
    method AlterChangedTables(p: Platform) returns (sql: seq<string>)
      requires Valid() && Ready()
      modifies Diffs
      ensures Valid() && Ready()
      ensures sql == AlterSql(p, old(ChangedValues()))
      ensures ChangedValues() == AlteredDiffs(p, old(ChangedValues()))
    {
      var ds := Values(changedTables);
      ghost var olds := ChangedValues();
      ghost var rs := Renderings(p, olds);
      RenderingsRender(p, olds);
      HoldsValuesOf(ds, olds);
      sql := AlterEach(p, ds, olds, rs, Diffs);
      assert DiffsOf(rs) == AlteredDiffs(p, olds);
      AfterAlter(p, ds, olds);
    }

    /** The diffs getAlterTableSQL left keep the object valid, and their
        values are the renderings' diffs. */
    lemma AfterAlter(p: Platform, ds: seq<TableDiff>, olds: seq<TableDiffValue>)
      requires Valid() && ds == Values(changedTables)
      requires AllReady(olds) && Holds(ds, AlteredDiffs(p, olds))
      ensures ChangedValues() == AlteredDiffs(p, olds) && Ready()
    {
      AlteredReady(p, olds);
      HoldsValuesOf(ds, AlteredDiffs(p, olds));
    }

    /** _toSql */
    method ToSqlMode(p: Platform, saveMode: bool) returns (sql: seq<string>)
      requires Valid() && Ready()
      modifies Diffs
      ensures Valid() && Ready()
      ensures sql == CreateDropSql(p, old(Snapshot()), saveMode) + AlterSql(p, old(ChangedValues()))
      ensures ChangedValues() == AlteredDiffs(p, old(ChangedValues()))
    {
      sql := CreateDropStatements(p, saveMode);
      assert unchanged(this) && unchanged(Diffs);
      var alters := AlterChangedTables(p);
      sql := sql + alters;
    }

    /** The foreaches of _toSql before the changed tables. */
    method CreateDropStatements(p: Platform, saveMode: bool) returns (sql: seq<string>)
      requires Keyed()
      ensures sql == CreateDropSql(p, Snapshot(), saveMode)
    {
      ghost var s := Snapshot();
      sql := [];
      if p.supportsSchemas {
        sql := AppendEach(Values(newNamespaces), CreateSchemaOf(p));
      }
      assert sql == NamespaceSql(p, s);
      var orphans := [];
      if p.supportsForeignKeyConstraints && !saveMode {
        orphans := AppendEach(orphanedForeignKeys, DropOrphanOf(p));
      }
      assert orphans == OrphanSql(p, s, saveMode);
      var sequences := SequenceStatements(p, saveMode);
      var creates, foreignKeySql := NewTableStatements(p, Values(newTables));
      var drops := [];
      if !saveMode {
        drops := AppendEach(Values(removedTables), DropTableOf(p));
      }
      assert drops == TableDropSql(p, s, saveMode);
      sql := sql + orphans + sequences + creates + foreignKeySql + drops;
    }

    /** The sequence foreaches: alters, drops outside save mode, creates;
        all only on a platform with sequences. */
    method SequenceStatements(p: Platform, saveMode: bool) returns (sql: seq<string>)
      ensures sql == SequenceSql(p, SchemaDiffValue([], [], changedSequences, removedSequences, newSequences, [], []), saveMode)
    {
      sql := [];
      if p.supportsSequences {
        sql := AppendEach(changedSequences, AlterSequenceOf(p));
        if !saveMode {
          var part := AppendEach(removedSequences, DropSequenceOf(p));
          sql := sql + part;
        }
        var part := AppendEach(newSequences, CreateSequenceOf(p));
        sql := sql + part;
      }
    }

    /** toSql: every statement, drops included. */
    method ToSql(p: Platform) returns (sql: seq<string>)
      requires Valid() && Ready()
      modifies Diffs
      ensures Valid() && Ready()
      ensures sql == CreateDropSql(p, old(Snapshot()), false) + AlterSql(p, old(ChangedValues()))
      ensures ChangedValues() == AlteredDiffs(p, old(ChangedValues()))
    {
      sql := ToSqlMode(p, false);
    }

    /** toSaveSql: the statements of save mode, which deletes nothing. */
    method ToSaveSql(p: Platform) returns (sql: seq<string>)
      requires Valid() && Ready()
      modifies Diffs
      ensures Valid() && Ready()
      ensures sql == CreateDropSql(p, old(Snapshot()), true) + AlterSql(p, old(ChangedValues()))
      ensures ChangedValues() == AlteredDiffs(p, old(ChangedValues()))
    {
      sql := ToSqlMode(p, true);
    }
  }

  /** A foreach that appends f of each element. */
  method AppendEach<T>(xs: seq<T>, f: T -> seq<string>) returns (out: seq<string>)
    ensures out == Each(xs, f)
  {
    out := [];
    var i := 0;
    while i < |xs|
      invariant 0 <= i <= |xs|
      invariant out == Chain(Pieces(xs, f), i)
    {
      out := out + f(xs[i]);
      i := i + 1;
    }
  }

  /** The foreach over the new tables: each table's CREATE statements go
      to the result at once, its foreign keys to a list kept for later. */
  method NewTableStatements(p: Platform, ts: seq<Table>) returns (sql: seq<string>, foreignKeySql: seq<string>)
    ensures sql == Each(ts, CreateTableOf(p))
    ensures foreignKeySql == Each(ts, TableForeignKeysOf(p))
  {
    sql := [];
    foreignKeySql := [];
    var i := 0;
    while i < |ts|
      invariant 0 <= i <= |ts|
      invariant sql == Chain(Pieces(ts, CreateTableOf(p)), i)
      invariant foreignKeySql == Chain(Pieces(ts, TableForeignKeysOf(p)), i)
    {
      sql := sql + p.createTableSQL(ts[i]);
      if p.supportsForeignKeyConstraints {
        var part := AppendEach(PresentValues(ts[i].foreignKeys), CreateForeignKeyOf(p, ts[i]));
        foreignKeySql := foreignKeySql + part;
      }
      i := i + 1;
    }
  }

  // ---------------------------------------------------------------------
  // Properties

  /** Each element's piece stays in what the foreach appends. */
  lemma EachIncludes<T>(x: string, xs: seq<T>, f: T -> seq<string>, t: nat)
    requires t < |xs| && x in f(xs[t])
    ensures x in Each(xs, f)
  {
    ChainIncludes(x, Pieces(xs, f), t, |xs|);
  }

  /** Save mode renders what the full mode renders for the same diff with
      nothing removed; and the full mode renders, besides, exactly the
      orphan foreign key drops, the sequence drops and the table drops.
      (The ALTER statements that follow are the same in both modes.) */
  lemma SaveModeOmitsDrops(p: Platform, s: SchemaDiffValue)
    ensures CreateDropSql(p, s, true) == CreateDropSql(p, NothingRemoved(s), false)
    ensures multiset(CreateDropSql(p, s, false)) == multiset(CreateDropSql(p, s, true)) + multiset(Drops(p, s))
  {
    var n := NothingRemoved(s);
    assert OrphanSql(p, n, false) == [];
    assert Each(n.removedSequences, DropSequenceOf(p)) == [];
    assert TableDropSql(p, n, false) == [];
    assert SequenceSql(p, n, false) == SequenceSql(p, s, true);
    var seqDrops := if p.supportsSequences then Each(s.removedSequences, DropSequenceOf(p)) else [];
    assert multiset(SequenceSql(p, s, false)) == multiset(SequenceSql(p, s, true)) + multiset(seqDrops);
    assert OrphanSql(p, s, true) == [] && TableDropSql(p, s, true) == [];
    MultisetRegroup(NamespaceSql(p, s), OrphanSql(p, s, false), SequenceSql(p, s, false), SequenceSql(p, s, true),
      seqDrops, Each(s.newTables, CreateTableOf(p)), Each(s.newTables, TableForeignKeysOf(p)), TableDropSql(p, s, false));
  }

  lemma MultisetRegroup(ns: seq<string>, o: seq<string>, full: seq<string>, save: seq<string>, sd: seq<string>,
                        c: seq<string>, f: seq<string>, d: seq<string>)
    requires multiset(full) == multiset(save) + multiset(sd)
    ensures multiset(ns + o + full + c + f + d) == multiset(ns + [] + save + c + f + []) + multiset(o + sd + d)
  {
    assert ns + [] + save + c + f + [] == ns + save + c + f;
  }

  /** Namespaces are created only on a platform with schemas, sequences
      are touched only on one with sequences, and no foreign key is
      dropped or created on one without foreign keys. */
  lemma CapabilityGates(p: Platform, s: SchemaDiffValue, saveMode: bool)
    ensures !p.supportsSchemas ==> CreateDropSql(p, s, saveMode) == CreateDropSql(p, s.(newNamespaces := []), saveMode)
    ensures !p.supportsSequences ==>
      CreateDropSql(p, s, saveMode) ==
      CreateDropSql(p, s.(changedSequences := [], removedSequences := [], newSequences := []), saveMode)
    ensures !p.supportsForeignKeyConstraints ==>
      Each(s.newTables, TableForeignKeysOf(p)) == [] &&
      CreateDropSql(p, s, saveMode) == CreateDropSql(p, s.(orphanedForeignKeys := []), saveMode)
  {
    if !p.supportsForeignKeyConstraints {
      NoForeignKeysCreated(p, s.newTables, |s.newTables|);
    }
  }

  lemma {:induction false} NoForeignKeysCreated(p: Platform, ts: seq<Table>, n: nat)
    requires !p.supportsForeignKeyConstraints
    ensures Chain(Pieces(ts, TableForeignKeysOf(p)), n) == []
  {
    if n > 0 {
      NoForeignKeysCreated(p, ts, n - 1);
    }
  }

  /** Every CREATE TABLE statement of a new table comes before every
      foreign key statement, and every foreign key of a new table is
      created when the platform supports foreign keys. */
  lemma ForeignKeysAfterTables(p: Platform, s: SchemaDiffValue, saveMode: bool)
    ensures var sql := CreateDropSql(p, s, saveMode);
      exists k :: 0 <= k <= |sql| &&
        (forall t, x :: t in s.newTables && x in p.createTableSQL(t) ==> x in sql[..k]) &&
        (p.supportsForeignKeyConstraints ==>
          forall t, fk :: t in s.newTables && fk in PresentValues(t.foreignKeys) ==>
            p.createForeignKeySQL(fk, TableObject(t)) in sql[k..])
  {
    var pre := NamespaceSql(p, s) + OrphanSql(p, s, saveMode) + SequenceSql(p, s, saveMode);
    var creates := Each(s.newTables, CreateTableOf(p));
    var fks := Each(s.newTables, TableForeignKeysOf(p));
    var k := |pre + creates|;
    SplitAfter(pre, creates, fks, TableDropSql(p, s, saveMode));
    TablesCreated(p, s.newTables);
    if p.supportsForeignKeyConstraints {
      ForeignKeysCreated(p, s.newTables);
    }
    assert 0 <= k <= |CreateDropSql(p, s, saveMode)|;
  }

  /** Whatever stands in the second of four pieces lies before the point
      where the third begins, and whatever stands in the third after it. */
  lemma SplitAfter<T>(a: seq<T>, b: seq<T>, c: seq<T>, d: seq<T>)
    ensures var s, k := a + b + c + d, |a + b|;
      (forall x :: x in b ==> x in s[..k]) && (forall y :: y in c ==> y in s[k..])
  {
    var s, k := a + b + c + d, |a + b|;
    assert s[..k] == a + b;
    assert s[k..] == c + d;
  }

  /** Every statement createTableSQL gives for a new table is rendered. */
  lemma TablesCreated(p: Platform, ts: seq<Table>)
    ensures forall t, x :: t in ts && x in p.createTableSQL(t) ==> x in Each(ts, CreateTableOf(p))
  {
    forall t, x | t in ts && x in p.createTableSQL(t)
      ensures x in Each(ts, CreateTableOf(p))
    {
      var i :| 0 <= i < |ts| && ts[i] == t;
      EachIncludes(x, ts, CreateTableOf(p), i);
    }
  }

  /** On a platform with foreign keys, every foreign key of a new table is
      created. */
  lemma ForeignKeysCreated(p: Platform, ts: seq<Table>)
    requires p.supportsForeignKeyConstraints
    ensures forall t, fk :: t in ts && fk in PresentValues(t.foreignKeys) ==>
      p.createForeignKeySQL(fk, TableObject(t)) in Each(ts, TableForeignKeysOf(p))
  {
    forall t, fk | t in ts && fk in PresentValues(t.foreignKeys)
      ensures p.createForeignKeySQL(fk, TableObject(t)) in Each(ts, TableForeignKeysOf(p))
    {
      var i :| 0 <= i < |ts| && ts[i] == t;
      var fkList := PresentValues(t.foreignKeys);
      var j :| 0 <= j < |fkList| && fkList[j] == fk;
      EachIncludes(p.createForeignKeySQL(fk, TableObject(t)), fkList, CreateForeignKeyOf(p, t), j);
      EachIncludes(p.createForeignKeySQL(fk, TableObject(t)), ts, TableForeignKeysOf(p), i);
    }
  }
}

/** compare and isAutoIncrementSequenceInSchema: the differences between
    two schemas, table by table and sequence by sequence. */
module SchemaComparator {
  import opened Base
  import opened Asset
  import opened Arrays
  import opened Objects
  import opened Sequence
  import opened TableDiff
  import opened Comparator
  import S = Schema
  import SD = SchemaDiff


  /** getShortestName against the schema's own name. */
  function ShortName(a: AssetName, s: S.SchemaValue): string {
    GetShortestName(a, Some(s.name))
  }

  /** Table `k` is found again under its shortest name, the way compare
      looks each one up, and is one diffTable and isAutoIncrementsFor can
      read. */
  ghost predicate TableReadable(s: S.SchemaValue, k: string) {
    k in s.tables.m ==>
      S.QualifiedAssetName(s.name, ShortName(s.tables.m[k].name, s)) == k &&
      Keyed(s.tables.m[k]) && PrimaryKeyColumnsExist(s.tables.m[k])
  }

  /** Sequence `k` is found again under its shortest name. */
  ghost predicate SequenceReadable(s: S.SchemaValue, k: string) {
    k in s.sequences.m ==> S.QualifiedAssetName(s.name, ShortName(s.sequences.m[k].name, s)) == k
  }

  /** What compare needs of each schema: well-formed arrays of tables and
      sequences, each of them readable. */
  ghost predicate Comparable(s: S.SchemaValue) {
    ValidDict(s.tables) && ValidDict(s.sequences) &&
    (forall k :: TableReadable(s, k)) && (forall k :: SequenceReadable(s, k))
  }

  /** A schema compare can read. */
  type ComparableSchema = s: S.SchemaValue | Comparable(s) witness S.SchemaValue("", Empty(), Empty())

  /** getTable of a name hasTable accepts. */
  function TableIn(s: S.SchemaValue, n: string): Table
    requires S.HasTableIn(s, n)
  {
    s.tables.m[S.QualifiedAssetName(s.name, n)]
  }

  /** getSequence of a name hasSequence accepts. */
  function SequenceIn(s: S.SchemaValue, n: string): Sequence
    requires S.HasSequenceIn(s, n)
  {
    s.sequences.m[S.QualifiedAssetName(s.name, n)]
  }

  /** The i-th table in the order getTables lists them. */
  function TableAt(s: S.SchemaValue, i: nat): Table
    requires ValidDict(s.tables) && i < |s.tables.keys|
  {
    s.tables.m[s.tables.keys[i]]
  }

  /** The i-th sequence in the order getSequences lists them. */
  function SequenceAt(s: S.SchemaValue, i: nat): Sequence
    requires ValidDict(s.sequences) && i < |s.sequences.keys|
  {
    s.sequences.m[s.sequences.keys[i]]
  }

  /** `n` is the shortest name of one of the schema's tables. */
  ghost predicate NamesTable(s: S.SchemaValue, n: string) {
    S.HasTableIn(s, n) && ShortName(TableIn(s, n).name, s) == n
  }

  /** `n` is the shortest name of one of the schema's sequences. */
  ghost predicate NamesSequence(s: S.SchemaValue, n: string) {
    S.HasSequenceIn(s, n) && ShortName(SequenceIn(s, n).name, s) == n
  }

  /** What the loop over the new schema's tables has gathered: the tables
      the old schema lacks, and the diffs of those that changed, both under
      their shortest names. */
  datatype TablesSeen = TablesSeen(newTables: Dict<Table>, changed: Dict<TableDiffValue>)

  /** The first `n` passes of the loop over the new schema's tables. */
  function NewAndChangedTablesSpec(from: ComparableSchema, to: ComparableSchema, n: nat): (r: TablesSeen)
    requires n <= |to.tables.keys|
    ensures ValidDict(r.newTables) && ValidDict(r.changed)
    decreases n, 0
  {
    if n == 0 then TablesSeen(Empty(), Empty())
    else SeeTable(from, to, n - 1)
  }

  /** Pass `i`: a table the old schema lacks is new; one it has is diffed
      against it, and kept when diffTable reports a change. */
  function SeeTable(from: ComparableSchema, to: ComparableSchema, i: nat): (r': TablesSeen)
    requires i < |to.tables.keys|
    ensures ValidDict(r'.newTables) && ValidDict(r'.changed)
    decreases i, 1
  {
    var r := NewAndChangedTablesSpec(from, to, i);
    var tn := ShortName(TableAt(to, i).name, to);
    ResolvedTableAt(to, i);
    ComparableTable(to, tn);
    if !S.HasTableIn(from, tn) then TablesSeen(Put(r.newTables, tn, TableIn(to, tn)), r.changed)
    else
      ComparableTable(from, tn);
      var d := DiffTableSpec(TableIn(from, tn), TableIn(to, tn));
      if d.Some? then TablesSeen(r.newTables, Put(r.changed, tn, d.value)) else r
  }

  /** What the loop over the old schema's tables has gathered: the tables
      the new schema lacks, under their shortest names, and every foreign
      key filed under the lower-cased name of the table it points at. */
  datatype TablesLeft = TablesLeft(removed: Dict<Table>, pointing: Dict<seq<ForeignKey>>)

  /** The keys filed under `n`; the isset guard reads an absent entry as
      none. */
  function Filed(d: Dict<seq<ForeignKey>>, n: string): seq<ForeignKey> {
    if n in d.m then d.m[n] else []
  }

  /** Filing one table's foreign keys, in order. */
  function FileForeignKeys(d: Dict<seq<ForeignKey>>, fks: seq<ForeignKey>): (r: Dict<seq<ForeignKey>>)
    requires ValidDict(d)
    ensures ValidDict(r)
    decreases |fks|
  {
    if |fks| == 0 then d
    else
      var r := FileForeignKeys(d, fks[..|fks| - 1]);
      var fk := fks[|fks| - 1];
      Put(r, Lower(fk.foreignTableName), Filed(r, Lower(fk.foreignTableName)) + [fk])
  }

  /** The first `n` passes of the loop over the old schema's tables. */
  function RemovedTablesSpec(from: ComparableSchema, to: ComparableSchema, n: nat): (r: TablesLeft)
    requires n <= |from.tables.keys|
    ensures ValidDict(r.removed) && ValidDict(r.pointing)
    decreases n, 0
  {
    if n == 0 then TablesLeft(Empty(), Empty())
    else LeaveTable(from, to, n - 1)
  }

  /** Pass `i`: a table the new schema lacks is removed, and its foreign
      keys are filed whether or not it is. */
  function LeaveTable(from: ComparableSchema, to: ComparableSchema, i: nat): (r': TablesLeft)
    requires i < |from.tables.keys|
    ensures ValidDict(r'.removed) && ValidDict(r'.pointing)
    decreases i, 1
  {
    var r := RemovedTablesSpec(from, to, i);
    var tn := ShortName(TableAt(from, i).name, from);
    ResolvedTableAt(from, i);
    ComparableTable(from, tn);
    var t := TableIn(from, tn);
    TablesLeft(if S.HasTableIn(to, tn) then r.removed else Put(r.removed, tn, t),
               FileForeignKeys(r.pointing, Values(t.foreignKeys)))
  }

  /** The removed foreign keys that do not point at table `n`. */
  function PointingElsewhere(fks: seq<ForeignKey>, n: string): (r: seq<ForeignKey>)
    ensures forall fk :: fk in r <==> fk in fks && Lower(fk.foreignTableName) != n
  {
    Filter(fks, (fk: ForeignKey) => Lower(fk.foreignTableName) != n)
  }

  /** As written, a changed table holding a key that points at the removed
      table `n` loses all its removed foreign keys. */
  function ClearedAsWritten(v: TableDiffValue, n: string): TableDiffValue {
    v.(removedForeignKeys := [])
  }

  /** Corrected: it loses only those that point at `n`, which the orphan
      list drops in their place. */
  function Cleared(v: TableDiffValue, n: string): TableDiffValue {
    v.(removedForeignKeys := PointingElsewhere(v.removedForeignKeys, n))
  }

  /** The inner loop over the keys pointing at the removed table `n`. */
  function ClearLocal(changed: Dict<TableDiffValue>, n: string, fks: seq<ForeignKey>, asWritten: bool): (r: Dict<TableDiffValue>)
    requires ValidDict(changed)
    ensures ValidDict(r) && r.keys == changed.keys
    decreases |fks|
  {
    if |fks| == 0 then changed
    else
      var r := ClearLocal(changed, n, fks[..|fks| - 1], asWritten);
      var local := Lower(fks[|fks| - 1].localTableName);
      if local in r.m then
        Put(r, local, if asWritten then ClearedAsWritten(r.m[local], n) else Cleared(r.m[local], n))
      else r
  }

  /** The orphaned foreign keys and the changed tables' diffs after the
      loop over the removed tables. */
  datatype Orphans = Orphans(orphans: seq<ForeignKey>, changed: Dict<TableDiffValue>)

  function OrphansSpec(removedKeys: seq<string>, pointing: Dict<seq<ForeignKey>>, changed: Dict<TableDiffValue>,
                       asWritten: bool): (r: Orphans)
    requires ValidDict(changed)
    ensures ValidDict(r.changed) && r.changed.keys == changed.keys
    decreases |removedKeys|
  {
    if |removedKeys| == 0 then Orphans([], changed)
    else
      var r := OrphansSpec(removedKeys[..|removedKeys| - 1], pointing, changed, asWritten);
      var n := removedKeys[|removedKeys| - 1];
      if n in pointing.m then Orphans(r.orphans + pointing.m[n], ClearLocal(r.changed, n, pointing.m[n], asWritten))
      else r
  }

  /** isAutoIncrementSequenceInSchema: some table of the schema is the one
      the sequence numbers. */
  ghost predicate AutoIncrementIn(s: S.SchemaValue, q: Sequence) {
    exists k :: k in s.tables.m && PrimaryKeyColumnsExist(s.tables.m[k]) && IsAutoIncrementsFor(q, s.tables.m[k])
  }

  /** What the loop over the new schema's sequences has gathered. */
  datatype SequencesSeen = SequencesSeen(newSequences: seq<Sequence>, changed: seq<Sequence>)

  /** The first `n` passes of the loop over the new schema's sequences. */
  ghost function NewAndChangedSequencesSpec(from: ComparableSchema, to: ComparableSchema, n: nat): SequencesSeen
    requires n <= |to.sequences.keys|
    decreases n, 0
  {
    if n == 0 then SequencesSeen([], [])
    else SeeSequence(from, to, n - 1)
  }

  /** Pass `i`: a sequence the old schema lacks is new unless it numbers
      one of the old schema's tables; one it has is changed when diffSequence
      says so. */
  ghost function SeeSequence(from: ComparableSchema, to: ComparableSchema, i: nat): SequencesSeen
    requires i < |to.sequences.keys|
    decreases i, 1
  {
    var r := NewAndChangedSequencesSpec(from, to, i);
    var q := SequenceAt(to, i);
    var sn := ShortName(q.name, to);
    ResolvedSequenceAt(to, i);
    if !S.HasSequenceIn(from, sn) then
      if AutoIncrementIn(from, q) then r else SequencesSeen(r.newSequences + [q], r.changed)
    else if DiffSequence(q, SequenceIn(from, sn)) then SequencesSeen(r.newSequences, r.changed + [SequenceIn(to, sn)])
    else r
  }

  /** The loop over the old schema's sequences. */
  ghost function RemovedSequencesSpec(from: ComparableSchema, to: ComparableSchema, n: nat): seq<Sequence>
    requires n <= |from.sequences.keys|
    decreases n, 0
  {
    if n == 0 then []
    else LeaveSequence(from, to, n - 1)
  }

  /** Pass `i`: a sequence the new schema lacks is removed unless it numbers
      one of the new schema's tables. */
  ghost function LeaveSequence(from: ComparableSchema, to: ComparableSchema, i: nat): seq<Sequence>
    requires i < |from.sequences.keys|
    decreases i, 1
  {
    var r := RemovedSequencesSpec(from, to, i);
    var q := SequenceAt(from, i);
    if AutoIncrementIn(to, q) || S.HasSequenceIn(to, ShortName(q.name, from)) then r else r + [q]
  }

  /** The differences compare reports, as values. */
  datatype Comparison = Comparison(
    newTables: Dict<Table>, changedTables: Dict<TableDiffValue>, removedTables: Dict<Table>,
    orphanedForeignKeys: seq<ForeignKey>,
    newSequences: seq<Sequence>, changedSequences: seq<Sequence>, removedSequences: seq<Sequence>)

  /** compare, with the orphan clearing corrected. */
  ghost function Compared(from: ComparableSchema, to: ComparableSchema): Comparison
  {
    var seen := NewAndChangedTablesSpec(from, to, |to.tables.keys|);
    var left := RemovedTablesSpec(from, to, |from.tables.keys|);
    var o := OrphansSpec(left.removed.keys, left.pointing, seen.changed, false);
    var sq := NewAndChangedSequencesSpec(from, to, |to.sequences.keys|);
    Comparison(seen.newTables, o.changed, left.removed, o.orphans, sq.newSequences, sq.changed,
      RemovedSequencesSpec(from, to, |from.sequences.keys|))
  }

  /** The diff objects `ds` hold the values `vs` key by key, and no two
      keys share an object. */
  ghost predicate DiffsHold(ds: Dict<TableDiff>, vs: Dict<TableDiffValue>)
    reads ds.m.Values
  {
    ValidDict(ds) && ValidDict(vs) && ds.keys == vs.keys &&
    (forall k :: k in ds.m ==> k in vs.m && ds.m[k].Valid() && ds.m[k].Value() == vs.m[k]) &&
    (forall k1, k2 :: k1 in ds.m && k2 in ds.m && k1 != k2 ==> ds.m[k1] != ds.m[k2])
  }

  /** A table found by hasTable is one diffTable and isAutoIncrementsFor
      can read. */
  lemma ComparableTable(s: ComparableSchema, n: string)
    requires S.HasTableIn(s, n)
    ensures Keyed(TableIn(s, n)) && PrimaryKeyColumnsExist(TableIn(s, n))
  {
    assert TableReadable(s, S.QualifiedAssetName(s.name, n));
  }

  /** Every table's primary key columns exist. */
  lemma ComparableTables(s: ComparableSchema)
    ensures forall k :: k in s.tables.m ==> PrimaryKeyColumnsExist(s.tables.m[k])
  {
    forall k | k in s.tables.m ensures PrimaryKeyColumnsExist(s.tables.m[k]) {
      assert TableReadable(s, k);
    }
  }

  /** The i-th table is found again under its shortest name. */
  lemma ResolvedTableAt(s: ComparableSchema, i: nat)
    requires i < |s.tables.keys|
    ensures var n := ShortName(TableAt(s, i).name, s); S.HasTableIn(s, n) && TableIn(s, n) == TableAt(s, i)
  {
    assert TableReadable(s, s.tables.keys[i]);
  }

  /** The i-th sequence is found again under its shortest name. */
  lemma ResolvedSequenceAt(s: ComparableSchema, i: nat)
    requires i < |s.sequences.keys|
    ensures var n := ShortName(SequenceAt(s, i).name, s); S.HasSequenceIn(s, n) && SequenceIn(s, n) == SequenceAt(s, i)
  {
    assert SequenceReadable(s, s.sequences.keys[i]);
  }

  /** Storing a diff object no other key holds. */
  lemma DiffsHoldPut(ds: Dict<TableDiff>, vs: Dict<TableDiffValue>, k: string, d: TableDiff)
    requires DiffsHold(ds, vs) && d.Valid()
    requires forall k' :: k' in ds.m ==> ds.m[k'] != d
    ensures DiffsHold(Put(ds, k, d), Put(vs, k, d.Value()))
  {
    assert k in ds.m <==> k in vs.m;
    forall k1 | k1 in Put(ds, k, d).m
      ensures k1 in Put(vs, k, d.Value()).m && Put(ds, k, d).m[k1].Valid() &&
              Put(ds, k, d).m[k1].Value() == Put(vs, k, d.Value()).m[k1]
    {
      DiffsHoldPutAt(ds, vs, k, d, k1);
    }
    forall k1, k2 | k1 in Put(ds, k, d).m && k2 in Put(ds, k, d).m && k1 != k2
      ensures Put(ds, k, d).m[k1] != Put(ds, k, d).m[k2]
    {
      DiffsHoldPutApart(ds, vs, k, d, k1, k2);
    }
  }

  lemma DiffsHoldPutAt(ds: Dict<TableDiff>, vs: Dict<TableDiffValue>, k: string, d: TableDiff, k1: string)
    requires DiffsHold(ds, vs) && d.Valid()
    requires k1 in Put(ds, k, d).m
    ensures k1 in Put(vs, k, d.Value()).m && Put(ds, k, d).m[k1].Valid() &&
            Put(ds, k, d).m[k1].Value() == Put(vs, k, d.Value()).m[k1]
  {
  }

  lemma DiffsHoldPutApart(ds: Dict<TableDiff>, vs: Dict<TableDiffValue>, k: string, d: TableDiff, k1: string, k2: string)
    requires DiffsHold(ds, vs)
    requires forall k' :: k' in ds.m ==> ds.m[k'] != d
    requires k1 in Put(ds, k, d).m && k2 in Put(ds, k, d).m && k1 != k2
    ensures Put(ds, k, d).m[k1] != Put(ds, k, d).m[k2]
  {
  }

  /** Each loop's first `i + 1` passes are its first `i` and pass `i`. */
  lemma SeeTableStep(from: ComparableSchema, to: ComparableSchema, i: nat)
    requires i < |to.tables.keys|
    ensures NewAndChangedTablesSpec(from, to, i + 1) == SeeTable(from, to, i)
  {
  }

  lemma LeaveTableStep(from: ComparableSchema, to: ComparableSchema, i: nat)
    requires i < |from.tables.keys|
    ensures RemovedTablesSpec(from, to, i + 1) == LeaveTable(from, to, i)
  {
  }

  lemma SeeSequenceStep(from: ComparableSchema, to: ComparableSchema, i: nat)
    requires i < |to.sequences.keys|
    ensures NewAndChangedSequencesSpec(from, to, i + 1) == SeeSequence(from, to, i)
  {
  }

  lemma LeaveSequenceStep(from: ComparableSchema, to: ComparableSchema, i: nat)
    requires i < |from.sequences.keys|
    ensures RemovedSequencesSpec(from, to, i + 1) == LeaveSequence(from, to, i)
  {
  }

  /** One pass of the loop over the new schema's tables. */
  method VisitNewTable(from: ComparableSchema, to: ComparableSchema, i: nat, newTables: Dict<Table>, changed: Dict<TableDiff>)
    returns (newTables': Dict<Table>, changed': Dict<TableDiff>)
    requires i < |to.tables.keys|
    requires newTables == NewAndChangedTablesSpec(from, to, i).newTables
    requires DiffsHold(changed, NewAndChangedTablesSpec(from, to, i).changed)
    ensures newTables' == SeeTable(from, to, i).newTables
    ensures DiffsHold(changed', SeeTable(from, to, i).changed)
    ensures forall k :: k in changed'.m ==> (k in changed.m && changed'.m[k] == changed.m[k]) || fresh(changed'.m[k])
  {
    ghost var seen := NewAndChangedTablesSpec(from, to, i);
    ResolvedTableAt(to, i);
    newTables', changed' := newTables, changed;
    var tableName := ShortName(to.tables.m[to.tables.keys[i]].name, to);
    ComparableTable(to, tableName);
    if !S.HasTableIn(from, tableName) {
      newTables' := Put(newTables, tableName, TableIn(to, tableName));
    } else {
      ComparableTable(from, tableName);
      var d := DiffTable(TableIn(from, tableName), TableIn(to, tableName));
      if d.Some? {
        DiffsHoldPut(changed, seen.changed, tableName, d.value);
        changed' := Put(changed, tableName, d.value);
      }
    }
  }

  /** The loop over the new schema's tables. */
  method NewAndChangedTables(from: ComparableSchema, to: ComparableSchema) returns (newTables: Dict<Table>, changed: Dict<TableDiff>)
    ensures var r := NewAndChangedTablesSpec(from, to, |to.tables.keys|);
      newTables == r.newTables && DiffsHold(changed, r.changed)
    ensures forall k :: k in changed.m ==> fresh(changed.m[k])
  {
    newTables, changed := Empty(), Empty();
    ghost var seen := NewAndChangedTablesSpec(from, to, 0);
    var i := 0;
    while i < |to.tables.keys|
      invariant 0 <= i <= |to.tables.keys| && seen == NewAndChangedTablesSpec(from, to, i)
      invariant newTables == seen.newTables && DiffsHold(changed, seen.changed)
      invariant forall k :: k in changed.m ==> fresh(changed.m[k])
    {
      SeeTableStep(from, to, i);
      newTables, changed := VisitNewTable(from, to, i, newTables, changed);
      seen := SeeTable(from, to, i);
      i := i + 1;
    }
  }

  /** The inner loop filing one table's foreign keys. */
  method FileKeys(pointing: Dict<seq<ForeignKey>>, fks: seq<ForeignKey>) returns (r: Dict<seq<ForeignKey>>)
    requires ValidDict(pointing)
    ensures r == FileForeignKeys(pointing, fks)
  {
    r := pointing;
    var j := 0;
    while j < |fks|
      invariant 0 <= j <= |fks|
      invariant r == FileForeignKeys(pointing, fks[..j])
    {
      assert fks[..j + 1][..j] == fks[..j];
      var foreignTable := Lower(fks[j].foreignTableName);
      if foreignTable !in r.m {
        r := Put(r, foreignTable, []);
      }
      r := Put(r, foreignTable, r.m[foreignTable] + [fks[j]]);
      j := j + 1;
    }
    assert fks[..j] == fks;
  }

  /** One pass of the loop over the old schema's tables. */
  method VisitOldTable(from: ComparableSchema, to: ComparableSchema, i: nat, removed: Dict<Table>, pointing: Dict<seq<ForeignKey>>)
    returns (removed': Dict<Table>, pointing': Dict<seq<ForeignKey>>)
    requires i < |from.tables.keys|
    requires TablesLeft(removed, pointing) == RemovedTablesSpec(from, to, i)
    ensures TablesLeft(removed', pointing') == LeaveTable(from, to, i)
  {
    ResolvedTableAt(from, i);
    var tableName := ShortName(from.tables.m[from.tables.keys[i]].name, from);
    ComparableTable(from, tableName);
    var table := TableIn(from, tableName);
    removed' := removed;
    if !S.HasTableIn(to, tableName) {
      removed' := Put(removed, tableName, table);
    }
    pointing' := FileKeys(pointing, Values(table.foreignKeys));
  }

  /** The loop over the old schema's tables. */
  method RemovedTables(from: ComparableSchema, to: ComparableSchema) returns (removed: Dict<Table>, pointing: Dict<seq<ForeignKey>>)
    ensures TablesLeft(removed, pointing) == RemovedTablesSpec(from, to, |from.tables.keys|)
  {
    removed, pointing := Empty(), Empty();
    var i := 0;
    while i < |from.tables.keys|
      invariant 0 <= i <= |from.tables.keys|
      invariant TablesLeft(removed, pointing) == RemovedTablesSpec(from, to, i)
    {
      LeaveTableStep(from, to, i);
      removed, pointing := VisitOldTable(from, to, i, removed, pointing);
      i := i + 1;
    }
  }

  /** One changed table's diff drops the removed foreign keys that point at
      the removed table `tableName`. */
  method ClearDiff(changed: Dict<TableDiff>, k: string, tableName: string, ghost vs: Dict<TableDiffValue>)
    requires DiffsHold(changed, vs) && k in changed.m
    modifies changed.m[k]
    ensures DiffsHold(changed, Put(vs, k, Cleared(vs.m[k], tableName)))
  {
    var d := changed.m[k];
    ghost var before := d.Value();
    d.removedForeignKeys := PointingElsewhere(d.removedForeignKeys, tableName);
    assert d.Value() == Cleared(before, tableName);
    ghost var vs' := Put(vs, k, Cleared(vs.m[k], tableName));
    forall k1 | k1 in changed.m
      ensures k1 in vs'.m && changed.m[k1].Valid() && changed.m[k1].Value() == vs'.m[k1]
    {
      if k1 != k {
        assert changed.m[k1] != d;
        assert unchanged(changed.m[k1]);
      }
    }
  }

  /** One more key of the inner loop clears the diff of its own table,
      when that table changed. */
  lemma ClearLocalStep(vs: Dict<TableDiffValue>, n: string, fks: seq<ForeignKey>, j: nat)
    requires ValidDict(vs) && j < |fks|
    ensures var cur := ClearLocal(vs, n, fks[..j], false);
      var local := Lower(fks[j].localTableName);
      cur.keys == vs.keys &&
      ClearLocal(vs, n, fks[..j + 1], false) ==
        if local in cur.m then Put(cur, local, Cleared(cur.m[local], n)) else cur
  {
    assert fks[..j + 1][..j] == fks[..j];
    assert fks[..j + 1][j] == fks[j];
  }

  /** One pass of the inner loop: key `j` stops its own table's diff from
      dropping keys that point at `tableName`. */
  method ClearKey(changed: Dict<TableDiff>, tableName: string, fks: seq<ForeignKey>, j: nat, ghost vs: Dict<TableDiffValue>)
    requires j < |fks| && ValidDict(vs)
    requires DiffsHold(changed, ClearLocal(vs, tableName, fks[..j], false))
    modifies changed.m.Values
    ensures DiffsHold(changed, ClearLocal(vs, tableName, fks[..j + 1], false))
  {
    ghost var cur := ClearLocal(vs, tableName, fks[..j], false);
    var localTableName := Lower(fks[j].localTableName);
    ClearLocalStep(vs, tableName, fks, j);
    if localTableName in changed.m {
      ClearDiff(changed, localTableName, tableName, cur);
    }
  }

  /** The inner loop over the keys pointing at the removed table
      `tableName`. */
  method ClearPointing(changed: Dict<TableDiff>, tableName: string, fks: seq<ForeignKey>, ghost vs: Dict<TableDiffValue>)
    requires DiffsHold(changed, vs)
    modifies changed.m.Values
    ensures DiffsHold(changed, ClearLocal(vs, tableName, fks, false))
  {
    var j := 0;
    while j < |fks|
      invariant 0 <= j <= |fks|
      invariant DiffsHold(changed, ClearLocal(vs, tableName, fks[..j], false))
    {
      ClearKey(changed, tableName, fks, j, vs);
      j := j + 1;
    }
    assert fks[..j] == fks;
  }

  /** The loop over the removed tables: the keys pointing at each become
      orphans, and the changed tables holding them stop dropping them
      themselves. */
  method ClearOrphans(removed: Dict<Table>, pointing: Dict<seq<ForeignKey>>, changed: Dict<TableDiff>,
                      ghost vs: Dict<TableDiffValue>) returns (orphans: seq<ForeignKey>)
    requires DiffsHold(changed, vs)
    modifies changed.m.Values
    ensures var r := OrphansSpec(removed.keys, pointing, vs, false);
      orphans == r.orphans && DiffsHold(changed, r.changed)
  {
    orphans := [];
    ghost var cur := vs;
    var i := 0;
    while i < |removed.keys|
      invariant 0 <= i <= |removed.keys|
      invariant OrphansSpec(removed.keys[..i], pointing, vs, false) == Orphans(orphans, cur)
      invariant DiffsHold(changed, cur)
    {
      assert removed.keys[..i + 1][..i] == removed.keys[..i];
      var tableName := removed.keys[i];
      if tableName in pointing.m {
        orphans := orphans + pointing.m[tableName];
        ClearPointing(changed, tableName, pointing.m[tableName], cur);
        cur := ClearLocal(cur, tableName, pointing.m[tableName], false);
      }
      i := i + 1;
    }
    assert removed.keys[..i] == removed.keys;
  }

  /** isAutoIncrementSequenceInSchema: the first table the sequence numbers
      ends the search. */
  method IsAutoIncrementSequenceInSchema(schema: S.SchemaValue, q: Sequence) returns (r: bool)
    requires ValidDict(schema.tables)
    requires forall k :: k in schema.tables.m ==> PrimaryKeyColumnsExist(schema.tables.m[k])
    ensures r <==> AutoIncrementIn(schema, q)
  {
    var i := 0;
    while i < |schema.tables.keys|
      invariant 0 <= i <= |schema.tables.keys|
      invariant forall j :: 0 <= j < i ==> !IsAutoIncrementsFor(q, schema.tables.m[schema.tables.keys[j]])
    {
      if IsAutoIncrementsFor(q, schema.tables.m[schema.tables.keys[i]]) {
        return true;
      }
      i := i + 1;
    }
    return false;
  }

  /** One pass of the loop over the new schema's sequences. */
  method VisitNewSequence(from: ComparableSchema, to: ComparableSchema, i: nat, newSequences: seq<Sequence>,
                          changedSequences: seq<Sequence>)
    returns (newSequences': seq<Sequence>, changedSequences': seq<Sequence>)
    requires i < |to.sequences.keys|
    requires SequencesSeen(newSequences, changedSequences) == NewAndChangedSequencesSpec(from, to, i)
    ensures SequencesSeen(newSequences', changedSequences') == SeeSequence(from, to, i)
  {
    ComparableTables(from);
    ResolvedSequenceAt(to, i);
    newSequences', changedSequences' := newSequences, changedSequences;
    var q := to.sequences.m[to.sequences.keys[i]];
    var sequenceName := ShortName(q.name, to);
    if !S.HasSequenceIn(from, sequenceName) {
      var auto := IsAutoIncrementSequenceInSchema(from, q);
      if !auto {
        newSequences' := newSequences + [q];
      }
    } else if DiffSequence(q, SequenceIn(from, sequenceName)) {
      changedSequences' := changedSequences + [SequenceIn(to, sequenceName)];
    }
  }

  /** The loop over the new schema's sequences. */
  method NewAndChangedSequences(from: ComparableSchema, to: ComparableSchema) returns (newSequences: seq<Sequence>, changedSequences: seq<Sequence>)
    ensures SequencesSeen(newSequences, changedSequences) == NewAndChangedSequencesSpec(from, to, |to.sequences.keys|)
  {
    newSequences, changedSequences := [], [];
    var i := 0;
    while i < |to.sequences.keys|
      invariant 0 <= i <= |to.sequences.keys|
      invariant SequencesSeen(newSequences, changedSequences) == NewAndChangedSequencesSpec(from, to, i)
    {
      SeeSequenceStep(from, to, i);
      newSequences, changedSequences := VisitNewSequence(from, to, i, newSequences, changedSequences);
      i := i + 1;
    }
  }

  /** One pass of the loop over the old schema's sequences: the
      autoincrement check comes first, as in the source. */
  method VisitOldSequence(from: ComparableSchema, to: ComparableSchema, i: nat, removedSequences: seq<Sequence>)
    returns (removedSequences': seq<Sequence>)
    requires i < |from.sequences.keys|
    requires removedSequences == RemovedSequencesSpec(from, to, i)
    ensures removedSequences' == LeaveSequence(from, to, i)
  {
    ComparableTables(to);
    removedSequences' := removedSequences;
    var q := from.sequences.m[from.sequences.keys[i]];
    var auto := IsAutoIncrementSequenceInSchema(to, q);
    if !auto && !S.HasSequenceIn(to, ShortName(q.name, from)) {
      removedSequences' := removedSequences + [q];
    }
  }

  /** The loop over the old schema's sequences. */
  method RemovedSequences(from: ComparableSchema, to: ComparableSchema) returns (removedSequences: seq<Sequence>)
    ensures removedSequences == RemovedSequencesSpec(from, to, |from.sequences.keys|)
  {
    removedSequences := [];
    var i := 0;
    while i < |from.sequences.keys|
      invariant 0 <= i <= |from.sequences.keys|
      invariant removedSequences == RemovedSequencesSpec(from, to, i)
    {
      LeaveSequenceStep(from, to, i);
      removedSequences := VisitOldSequence(from, to, i, removedSequences);
      i := i + 1;
    }
  }

  /** The three table loops of compare: new and changed tables, removed
      tables, and the orphaned foreign keys of the removed ones. */
  method CompareTables(from: ComparableSchema, to: ComparableSchema)
    returns (newTables: Dict<Table>, changed: Dict<TableDiff>, removed: Dict<Table>, orphans: seq<ForeignKey>)
    ensures var c := Compared(from, to);
      newTables == c.newTables && DiffsHold(changed, c.changedTables) &&
      removed == c.removedTables && orphans == c.orphanedForeignKeys
    ensures forall k :: k in changed.m ==> fresh(changed.m[k])
  {
    newTables, changed := NewAndChangedTables(from, to);
    var pointing;
    removed, pointing := RemovedTables(from, to);
    ghost var seen := NewAndChangedTablesSpec(from, to, |to.tables.keys|);
    orphans := ClearOrphans(removed, pointing, changed, seen.changed);
  }

  /** The loops of compare, on the schemas' values. */
  method CompareValues(from: ComparableSchema, to: ComparableSchema)
    returns (newTables: Dict<Table>, changed: Dict<TableDiff>, removed: Dict<Table>, orphans: seq<ForeignKey>,
             newSequences: seq<Sequence>, changedSequences: seq<Sequence>, removedSequences: seq<Sequence>)
    ensures var c := Compared(from, to);
      newTables == c.newTables && DiffsHold(changed, c.changedTables) &&
      removed == c.removedTables && orphans == c.orphanedForeignKeys &&
      newSequences == c.newSequences && changedSequences == c.changedSequences &&
      removedSequences == c.removedSequences
    ensures forall k :: k in changed.m ==> fresh(changed.m[k])
  {
    newTables, changed, removed, orphans := CompareTables(from, to);
    newSequences, changedSequences := NewAndChangedSequences(from, to);
    removedSequences := RemovedSequences(from, to);
  }

  /** compare: the diff that turns the old schema into the new one. The
      schemas' tables and sequences are read as values, since compare
      changes neither schema. */
  method Compare(from: S.Schema, to: S.Schema) returns (diff: SD.SchemaDiff)
    requires Comparable(from.Value()) && Comparable(to.Value())
    ensures fresh(diff) && diff.Valid() && diff.fromSchema == Some(from)
    ensures diff.newNamespaces == Empty() && diff.removedNamespaces == Empty()
    ensures var c := Compared(from.Value(), to.Value());
      diff.newTables == c.newTables && DiffsHold(diff.changedTables, c.changedTables) &&
      diff.removedTables == c.removedTables && diff.orphanedForeignKeys == c.orphanedForeignKeys &&
      diff.newSequences == c.newSequences && diff.changedSequences == c.changedSequences &&
      diff.removedSequences == c.removedSequences
  {
    var newTables, changed, removed, orphans, newSequences, changedSequences, removedSequences :=
      CompareValues(from.Value(), to.Value());
    diff := Assemble(from, newTables, changed, removed, orphans, newSequences, changedSequences, removedSequences,
                     Compared(from.Value(), to.Value()).changedTables);
  }

  /** The schema diff compare returns, holding what its loops found. */
  method Assemble(from: S.Schema, newTables: Dict<Table>, changed: Dict<TableDiff>, removed: Dict<Table>,
                  orphans: seq<ForeignKey>, newSequences: seq<Sequence>, changedSequences: seq<Sequence>,
                  removedSequences: seq<Sequence>, ghost vs: Dict<TableDiffValue>)
    returns (diff: SD.SchemaDiff)
    requires ValidDict(newTables) && ValidDict(removed) && DiffsHold(changed, vs)
    ensures fresh(diff) && diff.Valid() && diff.fromSchema == Some(from)
    ensures diff.newNamespaces == Empty() && diff.removedNamespaces == Empty()
    ensures diff.newTables == newTables && diff.changedTables == changed
    ensures diff.removedTables == removed && diff.orphanedForeignKeys == orphans
    ensures diff.newSequences == newSequences && diff.changedSequences == changedSequences
    ensures diff.removedSequences == removedSequences
  {
    DistinctDiffs(changed);
    diff := new SD.SchemaDiff(newTables, changed, removed, Some(from));
    diff.orphanedForeignKeys, diff.newSequences, diff.changedSequences, diff.removedSequences :=
      orphans, newSequences, changedSequences, removedSequences;
  }

  /** Diff objects held under distinct keys are distinct objects. */
  lemma DistinctDiffs(ds: Dict<TableDiff>)
    requires ValidDict(ds)
    requires forall k1, k2 :: k1 in ds.m && k2 in ds.m && k1 != k2 ==> ds.m[k1] != ds.m[k2]
    ensures Distinct(Values(ds))
  {
  }

  // ---------------------------------------------------------------------
  // What compare reports

  /** Some of the first `n` tables of the schema go by the shortest name
      `tn`. */
  ghost predicate NamedBefore(s: ComparableSchema, tn: string, n: nat) {
    exists i :: 0 <= i < n && i < |s.tables.keys| && ShortName(TableAt(s, i).name, s) == tn
  }

  /** diffTable finds a difference between the tables both schemas hold
      under `tn`. */
  ghost predicate TableChanged(from: ComparableSchema, to: ComparableSchema, tn: string)
    requires S.HasTableIn(from, tn) && S.HasTableIn(to, tn)
  {
    ComparableTable(from, tn);
    ComparableTable(to, tn);
    DiffTableSpec(TableIn(from, tn), TableIn(to, tn)).Some?
  }

  /** Every table of a schema is listed under its shortest name. */
  lemma NamedBeforeIff(s: ComparableSchema, tn: string)
    ensures NamedBefore(s, tn, |s.tables.keys|) <==> NamesTable(s, tn)
  {
    if NamesTable(s, tn) {
      var k := S.QualifiedAssetName(s.name, tn);
      assert k in s.tables.keys;
      var i :| 0 <= i < |s.tables.keys| && s.tables.keys[i] == k;
      assert TableAt(s, i) == TableIn(s, tn);
    }
    if NamedBefore(s, tn, |s.tables.keys|) {
      var i :| 0 <= i < |s.tables.keys| && ShortName(TableAt(s, i).name, s) == tn;
      ResolvedTableAt(s, i);
    }
  }

  /** The first `n + 1` tables have the name `tn` when the first `n` have
      it or table `n` has it. */
  lemma NamedBeforeStep(s: ComparableSchema, tn: string, n: nat)
    requires n < |s.tables.keys|
    ensures NamedBefore(s, tn, n + 1) <==> NamedBefore(s, tn, n) || ShortName(TableAt(s, n).name, s) == tn
  {
    var here := ShortName(TableAt(s, n).name, s);
    if NamedBefore(s, tn, n) {
      var j :| 0 <= j < n && j < |s.tables.keys| && ShortName(TableAt(s, j).name, s) == tn;
      assert 0 <= j < n + 1;
    }
    if here == tn {
      assert 0 <= n < n + 1 && ShortName(TableAt(s, n).name, s) == tn;
    }
    if NamedBefore(s, tn, n + 1) && here != tn {
      var j :| 0 <= j < n + 1 && j < |s.tables.keys| && ShortName(TableAt(s, j).name, s) == tn;
      assert j != n;
      assert 0 <= j < n && j < |s.tables.keys| && ShortName(TableAt(s, j).name, s) == tn;
    }
  }

  /** A name some of the first `n` tables have is a table of the schema. */
  lemma NamedBeforeHas(s: ComparableSchema, tn: string, n: nat)
    requires NamedBefore(s, tn, n)
    ensures S.HasTableIn(s, tn)
  {
    var j :| 0 <= j < n && j < |s.tables.keys| && ShortName(TableAt(s, j).name, s) == tn;
    ResolvedTableAt(s, j);
  }

  /** Pass `i` over the new schema's tables files at most its own table's
      name, as new or as changed. */
  lemma SeeTableKeys(from: ComparableSchema, to: ComparableSchema, i: nat, tn: string)
    requires i < |to.tables.keys|
    ensures var r := NewAndChangedTablesSpec(from, to, i);
      var r' := NewAndChangedTablesSpec(from, to, i + 1);
      var tn' := ShortName(TableAt(to, i).name, to);
      S.HasTableIn(to, tn') &&
      (tn in r'.newTables.m <==> tn in r.newTables.m || (tn == tn' && !S.HasTableIn(from, tn))) &&
      (tn in r'.changed.m <==> tn in r.changed.m || (tn == tn' && S.HasTableIn(from, tn) && TableChanged(from, to, tn)))
  {
    SeeTableStep(from, to, i);
    ResolvedTableAt(to, i);
    var r := NewAndChangedTablesSpec(from, to, i);
    var tn' := ShortName(TableAt(to, i).name, to);
    ComparableTable(to, tn');
    if !S.HasTableIn(from, tn') {
      assert NewAndChangedTablesSpec(from, to, i + 1) == TablesSeen(Put(r.newTables, tn', TableIn(to, tn')), r.changed);
    } else {
      ComparableTable(from, tn');
      var d := DiffTableSpec(TableIn(from, tn'), TableIn(to, tn'));
      if d.Some? {
        assert NewAndChangedTablesSpec(from, to, i + 1) == TablesSeen(r.newTables, Put(r.changed, tn', d.value));
      } else {
        assert NewAndChangedTablesSpec(from, to, i + 1) == r;
      }
    }
  }

  /** After `n` passes over the new schema's tables, a name is new when a
      table seen so far has it and the old schema lacks it, and changed
      when the old schema has it and diffTable reports a change. */
  lemma {:induction false} SeenNames(from: ComparableSchema, to: ComparableSchema, n: nat, tn: string)
    requires n <= |to.tables.keys|
    ensures var r := NewAndChangedTablesSpec(from, to, n);
      (tn in r.newTables.m <==> NamedBefore(to, tn, n) && !S.HasTableIn(from, tn)) &&
      (tn in r.changed.m <==> NamedBefore(to, tn, n) && S.HasTableIn(from, tn) && S.HasTableIn(to, tn) &&
                              TableChanged(from, to, tn))
  {
    if n > 0 {
      var i := n - 1;
      SeenNames(from, to, i, tn);
      SeeTableKeys(from, to, i, tn);
      NamedBeforeStep(to, tn, i);
      if NamedBefore(to, tn, i) {
        NamedBeforeHas(to, tn, i);
      }
    }
  }

  /** Pass `i` over the old schema's tables removes at most its own
      table's name. */
  lemma LeaveTableKeys(from: ComparableSchema, to: ComparableSchema, i: nat, tn: string)
    requires i < |from.tables.keys|
    ensures var tn' := ShortName(TableAt(from, i).name, from);
      tn in RemovedTablesSpec(from, to, i + 1).removed.m <==>
      tn in RemovedTablesSpec(from, to, i).removed.m || (tn == tn' && !S.HasTableIn(to, tn))
  {
    LeaveTableStep(from, to, i);
    ResolvedTableAt(from, i);
    var r := RemovedTablesSpec(from, to, i);
    var tn' := ShortName(TableAt(from, i).name, from);
    assert LeaveTable(from, to, i).removed ==
      if S.HasTableIn(to, tn') then r.removed else Put(r.removed, tn', TableIn(from, tn'));
  }

  /** After `n` passes over the old schema's tables, a name is removed
      when a table seen so far has it and the new schema lacks it. */
  lemma {:induction false} LeftNames(from: ComparableSchema, to: ComparableSchema, n: nat, tn: string)
    requires n <= |from.tables.keys|
    ensures tn in RemovedTablesSpec(from, to, n).removed.m <==> NamedBefore(from, tn, n) && !S.HasTableIn(to, tn)
  {
    if n > 0 {
      var i := n - 1;
      LeftNames(from, to, i, tn);
      LeaveTableKeys(from, to, i, tn);
      NamedBeforeStep(from, tn, i);
      var here := ShortName(TableAt(from, i).name, from);
      var before := tn in RemovedTablesSpec(from, to, i).removed.m;
      var after := tn in RemovedTablesSpec(from, to, i + 1).removed.m;
      assert before <==> NamedBefore(from, tn, i) && !S.HasTableIn(to, tn);
      assert after <==> before || (tn == here && !S.HasTableIn(to, tn));
      assert NamedBefore(from, tn, i + 1) <==> NamedBefore(from, tn, i) || here == tn;
    }
  }

  /** compare files every table under exactly one heading: a table only the
      new schema has is new, one only the old schema has is removed, and one
      both have is changed exactly when diffTable reports a difference. */
  lemma TablesPartition(from: ComparableSchema, to: ComparableSchema, tn: string)
    ensures var c := Compared(from, to);
      (tn in c.newTables.m <==> NamesTable(to, tn) && !S.HasTableIn(from, tn)) &&
      (tn in c.changedTables.m <==> NamesTable(to, tn) && S.HasTableIn(from, tn) && TableChanged(from, to, tn)) &&
      (tn in c.removedTables.m <==> NamesTable(from, tn) && !S.HasTableIn(to, tn))
    ensures var c := Compared(from, to);
      !(tn in c.newTables.m && tn in c.changedTables.m) &&
      !(tn in c.removedTables.m && (tn in c.newTables.m || tn in c.changedTables.m))
  {
    SeenNames(from, to, |to.tables.keys|, tn);
    LeftNames(from, to, |from.tables.keys|, tn);
    NamedBeforeIff(to, tn);
    NamedBeforeIff(from, tn);
  }

  /** Every table of the schema can be compared with itself: it is well
      formed and no two of its foreign keys could pair. */
  ghost predicate SelfComparable(s: S.SchemaValue) {
    forall k :: k in s.tables.m ==> WellFormed(s.tables.m[k]) && ForeignKeysApart(s.tables.m[k])
  }

  lemma {:induction false} NothingSeenInSelf(s: ComparableSchema, n: nat)
    requires SelfComparable(s) && n <= |s.tables.keys|
    ensures NewAndChangedTablesSpec(s, s, n) == TablesSeen(Empty(), Empty())
  {
    if n > 0 {
      var i := n - 1;
      NothingSeenInSelf(s, i);
      SeeTableStep(s, s, i);
      ResolvedTableAt(s, i);
      var t := TableAt(s, i);
      var tn := ShortName(t.name, s);
      assert S.HasTableIn(s, tn) && TableIn(s, tn) == t;
      assert WellFormed(t) && ForeignKeysApart(t) by {
        assert s.tables.keys[i] in s.tables.m;
      }
      DiffTableReflexive(t);
      assert SeeTable(s, s, i) == NewAndChangedTablesSpec(s, s, i);
    }
  }

  lemma {:induction false} NothingLeftInSelf(s: ComparableSchema, n: nat)
    requires n <= |s.tables.keys|
    ensures RemovedTablesSpec(s, s, n).removed == Empty()
  {
    if n > 0 {
      var i := n - 1;
      NothingLeftInSelf(s, i);
      LeaveTableStep(s, s, i);
      ResolvedTableAt(s, i);
      var tn := ShortName(TableAt(s, i).name, s);
      assert S.HasTableIn(s, tn);
      assert LeaveTable(s, s, i).removed == RemovedTablesSpec(s, s, i).removed;
    }
  }

  lemma {:induction false} NoSequencesSeenInSelf(s: ComparableSchema, n: nat)
    requires n <= |s.sequences.keys|
    ensures NewAndChangedSequencesSpec(s, s, n) == SequencesSeen([], [])
  {
    if n > 0 {
      var i := n - 1;
      NoSequencesSeenInSelf(s, i);
      SeeSequenceStep(s, s, i);
      ResolvedSequenceAt(s, i);
      var q := SequenceAt(s, i);
      var sn := ShortName(q.name, s);
      assert S.HasSequenceIn(s, sn) && SequenceIn(s, sn) == q;
      assert !DiffSequence(q, q);
      assert SeeSequence(s, s, i) == NewAndChangedSequencesSpec(s, s, i);
    }
  }

  lemma {:induction false} NoSequencesLeftInSelf(s: ComparableSchema, n: nat)
    requires n <= |s.sequences.keys|
    ensures RemovedSequencesSpec(s, s, n) == []
  {
    if n > 0 {
      var i := n - 1;
      NoSequencesLeftInSelf(s, i);
      LeaveSequenceStep(s, s, i);
      ResolvedSequenceAt(s, i);
      assert S.HasSequenceIn(s, ShortName(SequenceAt(s, i).name, s));
      assert LeaveSequence(s, s, i) == RemovedSequencesSpec(s, s, i);
    }
  }

  /** A schema compared with itself shows no difference at all. */
  lemma CompareSelf(s: ComparableSchema)
    requires SelfComparable(s)
    ensures Compared(s, s) == Comparison(Empty(), Empty(), Empty(), [], [], [], [])
  {
    NothingSeenInSelf(s, |s.tables.keys|);
    NothingLeftInSelf(s, |s.tables.keys|);
    NoSequencesSeenInSelf(s, |s.sequences.keys|);
    NoSequencesLeftInSelf(s, |s.sequences.keys|);
  }

  // ---------------------------------------------------------------------
  // Clearing the removed foreign keys of the changed tables

  /** Some key of `fks` is local to the table named `local`. */
  ghost predicate Touches(fks: seq<ForeignKey>, local: string) {
    exists j :: 0 <= j < |fks| && Lower(fks[j].localTableName) == local
  }

  lemma TouchesStep(fks: seq<ForeignKey>, local: string)
    requires |fks| > 0
    ensures Touches(fks, local) <==>
      Touches(fks[..|fks| - 1], local) || Lower(fks[|fks| - 1].localTableName) == local
  {
    var init := fks[..|fks| - 1];
    if Touches(fks, local) && Lower(fks[|fks| - 1].localTableName) != local {
      var j :| 0 <= j < |fks| && Lower(fks[j].localTableName) == local;
      assert init[j] == fks[j];
    }
    if Touches(init, local) {
      var j :| 0 <= j < |init| && Lower(init[j].localTableName) == local;
      assert fks[j] == init[j];
    }
  }

  /** The last pass of the inner clearing loop. */
  lemma ClearLocalLast(changed: Dict<TableDiffValue>, n: string, fks: seq<ForeignKey>, asWritten: bool)
    requires ValidDict(changed) && |fks| > 0
    ensures var r := ClearLocal(changed, n, fks[..|fks| - 1], asWritten);
      var local := Lower(fks[|fks| - 1].localTableName);
      ClearLocal(changed, n, fks, asWritten).m ==
        if local in r.m then r.m[local := if asWritten then ClearedAsWritten(r.m[local], n) else Cleared(r.m[local], n)]
        else r.m
  {
  }

  /** As written, a changed table some orphaned key is local to loses every
      removed foreign key; its other parts stay. */
  lemma {:induction false} ClearLocalAsWritten(changed: Dict<TableDiffValue>, n: string, fks: seq<ForeignKey>, local: string)
    requires ValidDict(changed) && local in changed.m
    ensures var r := ClearLocal(changed, n, fks, true);
      local in r.m && r.m[local].(removedForeignKeys := []) == changed.m[local].(removedForeignKeys := []) &&
      r.m[local].removedForeignKeys == (if Touches(fks, local) then [] else changed.m[local].removedForeignKeys)
    decreases |fks|
  {
    if |fks| > 0 {
      ClearLocalAsWritten(changed, n, fks[..|fks| - 1], local);
      TouchesStep(fks, local);
      ClearLocalLast(changed, n, fks, true);
    }
  }

  /** Corrected, such a table loses exactly the removed foreign keys that
      point at the removed table `n`; its other parts stay. */
  lemma {:induction false} ClearLocalCorrected(changed: Dict<TableDiffValue>, n: string, fks: seq<ForeignKey>,
                                               local: string, fk: ForeignKey)
    requires ValidDict(changed) && local in changed.m
    ensures var r := ClearLocal(changed, n, fks, false);
      local in r.m && r.m[local].(removedForeignKeys := []) == changed.m[local].(removedForeignKeys := []) &&
      (fk in r.m[local].removedForeignKeys <==>
        fk in changed.m[local].removedForeignKeys && (Touches(fks, local) ==> Lower(fk.foreignTableName) != n))
    decreases |fks|
  {
    if |fks| > 0 {
      ClearLocalCorrected(changed, n, fks[..|fks| - 1], local, fk);
      TouchesStep(fks, local);
      ClearLocalLast(changed, n, fks, false);
    }
  }

  /** The clearing as written drops a removed foreign key of a changed
      table that points at a table compare does not remove; the corrected
      clearing keeps it. */
  lemma ClearingLosesForeignKeys(changed: Dict<TableDiffValue>, n: string, fks: seq<ForeignKey>, local: string,
                                 fk: ForeignKey)
    requires ValidDict(changed) && local in changed.m && Touches(fks, local)
    requires fk in changed.m[local].removedForeignKeys && Lower(fk.foreignTableName) != n
    ensures fk !in ClearLocal(changed, n, fks, true).m[local].removedForeignKeys
    ensures fk in ClearLocal(changed, n, fks, false).m[local].removedForeignKeys
  {
    ClearLocalAsWritten(changed, n, fks, local);
    ClearLocalCorrected(changed, n, fks, local, fk);
  }
}

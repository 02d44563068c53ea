/** The MySQL platform: its LIMIT clause, column type declarations, index
    flags, DROP INDEX, CREATE TABLE and the multi-phase ALTER TABLE
    rendering, which also changes the table diff it renders. The 5.7
    platform differs only in the rename-index hooks (module MySql57). */
module MySql {
  import opened Base
  import opened Asset
  import opened Types
  import opened Arrays
  import opened Index
  import opened Objects
  import opened ColumnDiff
  import opened TableDiff
  import opened Platform
  import opened Errors

  // ---------------------------------------------------------------------
  // LIMIT

  /** The largest unsigned BIGINT, written out as the LIMIT sentinel. */
  const MaxUnsignedBigInt: nat := 0x1_0000_0000_0000_0000 - 1

  /** doModifyLimitQuery: the clause appended to the query; null limits and
      offsets are None. */
  function LimitClause(limit: Option<int>, offset: Option<int>): string {
    if limit.Some? then
      " LIMIT " + IntToString(limit.value) + (if offset.Some? then " OFFSET " + IntToString(offset.value) else "")
    else if offset.Some? then
      " LIMIT " + "18446744073709551615" + (" OFFSET " + IntToString(offset.value))
    else
      ""
  }

  function LimitQuery(query: string, limit: Option<int>, offset: Option<int>): string {
    query + LimitClause(limit, offset)
  }

  /** The sentinel is the decimal rendering of the largest unsigned
      BIGINT. */
  lemma SentinelDigits()
    ensures IntToString(MaxUnsignedBigInt) == "18446744073709551615"
  {
    assert NatToString(1) == "1";
    assert NatToString(18) == "18";
    assert NatToString(184) == "184";
    assert NatToString(1844) == "1844";
    assert NatToString(18446) == "18446";
    assert NatToString(184467) == "184467";
    assert NatToString(1844674) == "1844674";
    assert NatToString(18446744) == "18446744";
    assert NatToString(184467440) == "184467440";
    assert NatToString(1844674407) == "1844674407";
    assert NatToString(18446744073) == "18446744073";
    assert NatToString(184467440737) == "184467440737";
    assert NatToString(1844674407370) == "1844674407370";
    assert NatToString(18446744073709) == "18446744073709";
    assert NatToString(184467440737095) == "184467440737095";
    assert NatToString(1844674407370955) == "1844674407370955";
    assert NatToString(18446744073709551) == "18446744073709551";
    assert NatToString(184467440737095516) == "184467440737095516";
    assert NatToString(1844674407370955161) == "1844674407370955161";
    assert NatToString(18446744073709551615) == "18446744073709551615";
  }

  /** The query is only ever extended, and it is left as it is exactly when
      neither a limit nor an offset is given; an offset alone behaves as an
      offset with the largest possible limit. */
  lemma LimitQueryExtends(query: string, limit: Option<int>, offset: Option<int>)
    ensures IsPrefix(query, LimitQuery(query, limit, offset))
    ensures LimitQuery(query, limit, offset) == query <==> limit.None? && offset.None?
    ensures limit.None? && offset.Some? ==>
      LimitQuery(query, limit, offset) == LimitQuery(query, Some(MaxUnsignedBigInt), offset)
  {
    var clause := LimitClause(limit, offset);
    assert (query + clause)[..|query|] == query;
    if limit.Some? || offset.Some? {
      assert |clause| > 0;
    }
    if limit.None? && offset.Some? {
      SentinelDigits();
    }
  }

  // ---------------------------------------------------------------------
  // Type declarations

  /** getVarcharTypeDeclarationSQLSnippet: a falsy length (null or 0)
      declares 255. */
  function VarcharTypeSnippet(length: Option<int>, fixed: bool): string {
    if fixed then
      (if length.Some? && length.value != 0 then "CHAR(" + IntToString(length.value) + ")" else "CHAR(255)")
    else
      (if length.Some? && length.value != 0 then "VARCHAR(" + IntToString(length.value) + ")" else "VARCHAR(255)")
  }

  /** getBinaryTypeDeclarationSQLSnippet */
  function BinaryTypeSnippet(length: Option<int>, fixed: bool): string {
    (if fixed then "BINARY(" else "VARBINARY(") + IntToString(OrElse(length, 255)) + ")"
  }

  /** Both string snippets declare the given length when it is truthy and
      255 otherwise, and differ between fixed and variable width only in the
      keyword. */
  lemma SnippetLengths(length: Option<int>, fixed: bool)
    ensures VarcharTypeSnippet(length, fixed) ==
      (if fixed then "CHAR(" else "VARCHAR(") + IntToString(OrElse(length, 255)) + ")"
    ensures BinaryTypeSnippet(length, fixed) ==
      (if fixed then "BINARY(" else "VARBINARY(") + IntToString(OrElse(length, 255)) + ")"
    ensures OrElse(length, 255) == 255 <==> length.None? || length.value == 0 || length.value == 255
  {
    assert IntToString(255) == "255";
  }

  /** The four storage tiers of TEXT and BLOB columns. */
  datatype Tier = Tiny | Regular | Medium | Long

  const LengthLimitTiny := 255
  const LengthLimitRegular := 65535
  const LengthLimitMedium := 16777215
  const LengthLimitLong := 4294967295

  /** The ladder shared by getClobTypeDeclarationSQL and
      getBlobTypeDeclarationSQL: an empty (null or 0) length is LONG. */
  function TierOf(length: Option<int>): Tier {
    if length.Some? && length.value != 0 then
      if length.value <= LengthLimitTiny then Tiny
      else if length.value <= LengthLimitRegular then Regular
      else if length.value <= LengthLimitMedium then Medium
      else Long
    else Long
  }

  function Capacity(t: Tier): int {
    match t
    case Tiny => LengthLimitTiny
    case Regular => LengthLimitRegular
    case Medium => LengthLimitMedium
    case Long => LengthLimitLong
  }

  function Rank(t: Tier): nat {
    match t
    case Tiny => 0
    case Regular => 1
    case Medium => 2
    case Long => 3
  }

  function TierPrefix(t: Tier): string {
    match t
    case Tiny => "TINY"
    case Regular => ""
    case Medium => "MEDIUM"
    case Long => "LONG"
  }

  /** getClobTypeDeclarationSQL */
  function ClobTypeDeclaration(length: Option<int>): string {
    TierPrefix(TierOf(length)) + "TEXT"
  }

  /** getBlobTypeDeclarationSQL */
  function BlobTypeDeclaration(length: Option<int>): string {
    TierPrefix(TierOf(length)) + "BLOB"
  }

  /** A positive length up to the LONG capacity gets the smallest tier that
      holds it: it fits, and every smaller tier is too small. */
  lemma TierIsSmallestFitting(n: int, t: Tier)
    requires 0 < n <= LengthLimitLong
    ensures n <= Capacity(TierOf(Some(n)))
    ensures Rank(t) < Rank(TierOf(Some(n))) ==> Capacity(t) < n
  {
  }

  /** Longer lengths never get a smaller tier. */
  lemma TierMonotonic(n: int, m: int)
    requires 0 < n <= m
    ensures Rank(TierOf(Some(n))) <= Rank(TierOf(Some(m)))
  {
  }

  /** Declaring a tier's capacity as the length gives that tier back. */
  lemma TierCapacityRoundTrip(t: Tier)
    ensures TierOf(Some(Capacity(t))) == t
    ensures ClobTypeDeclaration(Some(Capacity(t))) == TierPrefix(t) + "TEXT"
  {
  }

  /** getBooleanTypeDeclarationSQL */
  const BooleanTypeDeclaration := "TINYINT(1)"

  /** _getCommonIntegerTypeDeclarationSQL: UNSIGNED before AUTO_INCREMENT. */
  function IntegerSuffix(unsigned: bool, autoincrement: bool): string {
    (if unsigned then " UNSIGNED" else "") + (if autoincrement then " AUTO_INCREMENT" else "")
  }

  /** The integer kinds with their own declaration keyword. */
  datatype IntegerKind = Int | BigInt | SmallInt

  /** getIntegerTypeDeclarationSQL, getBigIntTypeDeclarationSQL and
      getSmallIntTypeDeclarationSQL. */
  function IntegerTypeDeclaration(kind: IntegerKind, c: Column): string {
    (match kind case Int => "INT" case BigInt => "BIGINT" case SmallInt => "SMALLINT") +
    IntegerSuffix(c.unsigned, c.autoincrement)
  }

  predicate EndsWith(s: string, suffix: string) {
    |suffix| <= |s| && s[|s| - |suffix|..] == suffix
  }

  /** Reading the two flags back from a suffix. */
  function ParseIntegerSuffix(s: string): (bool, bool) {
    (IsPrefix(" UNSIGNED", s), EndsWith(s, " AUTO_INCREMENT"))
  }

  /** The suffix records both flags, in a fixed order, so they can be read
      back. */
  lemma IntegerSuffixRoundTrip(unsigned: bool, autoincrement: bool)
    ensures ParseIntegerSuffix(IntegerSuffix(unsigned, autoincrement)) == (unsigned, autoincrement)
  {
    var s := IntegerSuffix(unsigned, autoincrement);
    if unsigned && autoincrement {
      assert s[..9] == " UNSIGNED";
      assert s[|s| - 15..] == " AUTO_INCREMENT";
    } else if unsigned {
      assert s == " UNSIGNED";
      assert s[..9] == " UNSIGNED";
    } else if autoincrement {
      assert s == " AUTO_INCREMENT";
      assert s[..9] != " UNSIGNED" by { assert s[1] == 'A'; }
      assert s[|s| - 15..] == " AUTO_INCREMENT";
    } else {
      assert s == "";
    }
  }

  // ---------------------------------------------------------------------
  // Index statements

  /** The index argument of getDropIndexSQL: an Index, a name, or anything
      else. */
  datatype IndexArg = IndexGiven(index: Index) | IndexNameGiven(name: string) | OtherIndexArg

  /** The table argument of getDropIndexSQL: a Table, a name, or anything
      else (including the default null). */
  datatype TableRefArg = TableGiven(table: Table) | TableNameGiven(name: string) | OtherTableArg

  /** getDropIndexSQL */
  function DropIndexSQL(p: Platform, index: IndexArg, table: TableRefArg): Result<string, Error> {
    if index.OtherIndexArg? || table.OtherTableArg? then Err(InvalidArgument)
    else
      var indexName := if index.IndexGiven? then Quoted(p, index.index.name) else index.name;
      var tableName := if table.TableGiven? then Quoted(p, table.table.name) else table.name;
      if index.IndexGiven? && index.index.isPrimary then Ok("ALTER TABLE " + tableName + " DROP PRIMARY KEY")
      else Ok("DROP INDEX " + indexName + " ON " + tableName)
  }

  /** An argument of the wrong kind is refused; a primary index is dropped
      as the table's primary key, whatever its name; anything else by name. */
  lemma DropIndexCases(p: Platform, index: IndexArg, table: TableRefArg)
    ensures DropIndexSQL(p, index, table).Err? <==> index.OtherIndexArg? || table.OtherTableArg?
    ensures DropIndexSQL(p, index, table).Err? ==> DropIndexSQL(p, index, table).error == InvalidArgument
    ensures index.IndexGiven? && index.index.isPrimary && table.TableNameGiven? ==>
      DropIndexSQL(p, index, table) == Ok("ALTER TABLE " + table.name + " DROP PRIMARY KEY")
    ensures index.IndexGiven? && index.index.isPrimary && table.TableNameGiven? ==>
      forall other: Index :: other.isPrimary ==>
        DropIndexSQL(p, IndexGiven(other), table) == DropIndexSQL(p, index, table)
    ensures index.IndexNameGiven? && table.TableNameGiven? ==>
      DropIndexSQL(p, index, table) == Ok("DROP INDEX " + index.name + " ON " + table.name)
  {
  }

  /** getCreateIndexSQLFlags */
  function CreateIndexFlags(ix: Index): string {
    if ix.isUnique then "UNIQUE "
    else if HasFlag(ix, "fulltext") then "FULLTEXT "
    else if HasFlag(ix, "spatial") then "SPATIAL "
    else ""
  }

  /** At most one keyword is rendered: UNIQUE exactly for unique indexes
      (so for every valid primary index), and a flag counts only when the
      index is not unique. */
  lemma CreateIndexFlagsCases(ix: Index)
    ensures CreateIndexFlags(ix) in {"UNIQUE ", "FULLTEXT ", "SPATIAL ", ""}
    ensures CreateIndexFlags(ix) == "UNIQUE " <==> ix.isUnique
    ensures ValidIndex(ix) && ix.isPrimary ==> CreateIndexFlags(ix) == "UNIQUE "
    ensures CreateIndexFlags(ix) == "" <==> !ix.isUnique && !HasFlag(ix, "fulltext") && !HasFlag(ix, "spatial")
  {
  }

  /** getQuotedColumns of an index: each column name parsed as an
      Identifier and quoted. */
  function QuotedColumns(p: Platform, ix: Index): (r: seq<string>)
    ensures |r| == |ix.columns|
    ensures forall i :: 0 <= i < |r| ==> r[i] == Quoted(p, NewIdentifier(ix.columns[i]))
  {
    seq(|ix.columns|, i requires 0 <= i < |ix.columns| => Quoted(p, NewIdentifier(ix.columns[i])))
  }

  /** A column written between backticks is always quoted for the platform;
      a plain column without a dot is quoted exactly when it is a keyword. */
  lemma QuotedColumnCases(p: Platform, ix: Index, i: nat, n: string)
    requires i < |ix.columns|
    ensures Unquoted(n) && '.' !in n && ix.columns[i] == "`" + n + "`" ==>
      QuotedColumns(p, ix)[i] == p.quoteIdentifier(n)
    ensures '.' !in n && !IsIdentifierQuoted(n) && ix.columns[i] == n ==>
      QuotedColumns(p, ix)[i] == (if p.isKeyword(n) then p.quoteIdentifier(n) else n)
  {
    if Unquoted(n) && '.' !in n && ix.columns[i] == "`" + n + "`" {
      BacktickQuoted(n);
      QuotedSingleSegment(p, AssetName(n, None, true));
    }
    if '.' !in n && !IsIdentifierQuoted(n) && ix.columns[i] == n {
      QuotedSingleSegment(p, AssetName(n, None, false));
    }
  }

  /** A name without a namespace and without a dot is one segment. */
  lemma QuotedSingleSegment(p: Platform, a: AssetName)
    requires !SomeTruthy(a.namespace) && '.' !in a.name
    ensures Quoted(p, a) == if a.quoted || p.isKeyword(a.name) then p.quoteIdentifier(a.name) else a.name
  {
    assert Split(GetName(a), '.') == [a.name];
  }

  // ---------------------------------------------------------------------
  // Column defaults

  /** getDefaultValueDeclarationSQL: TEXT and BLOB columns cannot carry a
      default, so theirs is dropped before the generic rendering. */
  function DefaultValueDeclaration(p: Platform, c: Column): string {
    p.parentDefaultValueDeclarationSQL(if IsTextOrBlob(c.typ) then c.(default := None) else c)
  }

  /** For TEXT and BLOB columns the default never shows; for other columns
      the generic rendering is used unchanged. */
  lemma DefaultValueIgnoredForTextAndBlob(p: Platform, c: Column, d: Option<string>)
    ensures IsTextOrBlob(c.typ) ==>
      DefaultValueDeclaration(p, c) == DefaultValueDeclaration(p, c.(default := d))
    ensures IsTextOrBlob(c.typ) ==>
      DefaultValueDeclaration(p, c) == p.parentDefaultValueDeclarationSQL(c.(default := None))
    ensures !IsTextOrBlob(c.typ) ==> DefaultValueDeclaration(p, c) == p.parentDefaultValueDeclarationSQL(c)
  {
    assert c.(default := d).(default := None) == c.(default := None);
  }

  // ---------------------------------------------------------------------
  // CREATE TABLE

  /** The options array of _getCreateTableSQL; an option that is not set
      (or null) is None, an absent list is empty. */
  datatype CreateOptions = CreateOptions(
    uniqueConstraints: Dict<Index>,
    indexes: Dict<Index>,
    primary: seq<string>,
    temporary: bool,
    tableOptions: Option<string>,
    charset: Option<string>,
    collate: Option<string>,
    engine: Option<string>,
    autoIncrement: Option<string>,
    comment: Option<string>,
    rowFormat: Option<string>,
    partitionOptions: Option<string>,
    foreignKeys: Option<seq<ForeignKey>>)

  function OrDefault(o: Option<string>, d: string): string {
    if o.Some? then o.value else d
  }

  /** The option clauses of buildTableOptions, in order. */
  function TableOptionList(p: Platform, o: CreateOptions): seq<string> {
    ["DEFAULT CHARACTER SET " + OrDefault(o.charset, "utf8"),
     "COLLATE " + OrDefault(o.collate, "utf8_unicode_ci"),
     "ENGINE = " + OrDefault(o.engine, "InnoDB")] +
    (if o.autoIncrement.Some? then ["AUTO_INCREMENT = " + o.autoIncrement.value] else []) +
    (if o.comment.Some? then ["COMMENT = " + p.quoteStringLiteral(Trim(o.comment.value, {' ', '\''})) + " "] else []) +
    (if o.rowFormat.Some? then ["ROW_FORMAT = " + o.rowFormat.value] else [])
  }

  /** buildTableOptions: `table_options` replaces everything else. */
  function BuildTableOptions(p: Platform, o: CreateOptions): string {
    if o.tableOptions.Some? then o.tableOptions.value else Join(TableOptionList(p, o), " ")
  }

  /** Without any option the table is created as utf8, utf8_unicode_ci,
      InnoDB; `table_options` wins over every other option; otherwise the
      three defaults are always rendered first and each further clause only
      for an option that is set. */
  lemma TableOptionDefaults(p: Platform, o: CreateOptions)
    ensures o.tableOptions.Some? ==> BuildTableOptions(p, o) == o.tableOptions.value
    ensures o.tableOptions.None? && o.charset.None? && o.collate.None? && o.engine.None? &&
            o.autoIncrement.None? && o.comment.None? && o.rowFormat.None? ==>
      BuildTableOptions(p, o) ==
        Join(["DEFAULT CHARACTER SET " + "utf8", "COLLATE " + "utf8_unicode_ci", "ENGINE = " + "InnoDB"], " ")
    ensures |TableOptionList(p, o)| ==
      3 + (if o.autoIncrement.Some? then 1 else 0) + (if o.comment.Some? then 1 else 0) +
      (if o.rowFormat.Some? then 1 else 0)
  {
    if o.tableOptions.None? && o.charset.None? && o.collate.None? && o.engine.None? &&
       o.autoIncrement.None? && o.comment.None? && o.rowFormat.None? {
      assert TableOptionList(p, o) ==
        ["DEFAULT CHARACTER SET " + "utf8", "COLLATE " + "utf8_unicode_ci", "ENGINE = " + "InnoDB"];
    }
  }

  /** The engine an option names, as compared: trimmed and upper-cased;
      InnoDB when no engine is set. */
  function EngineOf(engine: Option<string>): string {
    if engine.Some? then Upper(Trim(engine.value, Whitespace)) else "INNODB"
  }

  /** `, <declaration>` for each of the first n entries of a keyed list. */
  function DeclarationFields(keys: seq<string>, m: map<string, Index>, n: nat,
                             decl: (string, Index) -> string): string
    requires n <= |keys| && forall i :: 0 <= i < |keys| ==> keys[i] in m
  {
    if n == 0 then "" else DeclarationFields(keys, m, n - 1, decl) + ", " + decl(keys[n - 1], m[keys[n - 1]])
  }

  /** The column list, then the unique constraints, the indexes and the
      de-duplicated primary key. */
  function CreateTableFields(p: Platform, columns: Dict<Column>, o: CreateOptions): string
    requires ValidDict(o.uniqueConstraints) && ValidDict(o.indexes)
  {
    p.columnDeclarationListSQL(columns) +
    DeclarationFields(o.uniqueConstraints.keys, o.uniqueConstraints.m, |o.uniqueConstraints.keys|,
                      p.uniqueConstraintDeclarationSQL) +
    DeclarationFields(o.indexes.keys, o.indexes.m, |o.indexes.keys|, p.indexDeclarationSQL) +
    (if |o.primary| > 0 then ", PRIMARY KEY(" + Join(Unique(o.primary), ", ") + ")" else "")
  }

  function CreateKeyword(temporary: bool): string {
    if temporary then "CREATE " + "TEMPORARY " else "CREATE "
  }

  function CreateTableStatement(p: Platform, tableName: string, columns: Dict<Column>, o: CreateOptions): string
    requires ValidDict(o.uniqueConstraints) && ValidDict(o.indexes)
  {
    CreateKeyword(o.temporary) +
    ("TABLE " + tableName + " (" + CreateTableFields(p, columns, o) + ") " + BuildTableOptions(p, o) +
     (if o.partitionOptions.Some? then " " + o.partitionOptions.value else ""))
  }

  /** The CREATE statements of the first n foreign keys. */
  function CreateForeignKeys(p: Platform, tableName: string, fks: seq<ForeignKey>, n: nat): (r: seq<string>)
    requires n <= |fks|
    ensures |r| == n
    ensures forall i :: 0 <= i < n ==> r[i] == p.createForeignKeySQL(fks[i], TableNamed(tableName))
  {
    if n == 0 then [] else CreateForeignKeys(p, tableName, fks, n - 1) + [p.createForeignKeySQL(fks[n - 1], TableNamed(tableName))]
  }

  /** Whether _getCreateTableSQL propagates the foreign keys. */
  predicate PropagatesForeignKeys(o: CreateOptions) {
    o.foreignKeys.Some? && EngineOf(o.engine) == "INNODB"
  }

  /** What _getCreateTableSQL returns. */
  function CreateTable(p: Platform, tableName: string, columns: Dict<Column>, o: CreateOptions): seq<string>
    requires ValidDict(o.uniqueConstraints) && ValidDict(o.indexes)
  {
    [CreateTableStatement(p, tableName, columns, o)] +
    (if PropagatesForeignKeys(o) then CreateForeignKeys(p, tableName, o.foreignKeys.value, |o.foreignKeys.value|) else [])
  }

  /** One foreach over a keyed list of indexes, appending `, <declaration>`
      per entry. */
  method AppendDeclarations(keys: seq<string>, m: map<string, Index>, decl: (string, Index) -> string)
    returns (fields: string)
    requires forall i :: 0 <= i < |keys| ==> keys[i] in m
    ensures fields == DeclarationFields(keys, m, |keys|, decl)
  {
    fields := "";
    for i := 0 to |keys|
      invariant fields == DeclarationFields(keys, m, i, decl)
    {
      fields := fields + ", " + decl(keys[i], m[keys[i]]);
    }
  }

  /** The foreach over the foreign keys of a new table. */
  method AppendForeignKeys(p: Platform, tableName: string, fks: seq<ForeignKey>) returns (sql: seq<string>)
    ensures sql == CreateForeignKeys(p, tableName, fks, |fks|)
  {
    sql := [];
    for i := 0 to |fks|
      invariant sql == CreateForeignKeys(p, tableName, fks, i)
    {
      sql := sql + [p.createForeignKeySQL(fks[i], TableNamed(tableName))];
    }
  }

  /** _getCreateTableSQL */
  method GetCreateTableSQL(p: Platform, tableName: string, columns: Dict<Column>, o: CreateOptions)
    returns (sql: seq<string>)
    requires ValidDict(o.uniqueConstraints) && ValidDict(o.indexes)
    ensures sql == CreateTable(p, tableName, columns, o)
  {
    var queryFields := QueryFields(p, columns, o);
    var query := "CREATE ";
    if o.temporary {
      query := query + "TEMPORARY ";
    }
    var tail := "TABLE " + tableName + " (" + queryFields + ") " + BuildTableOptions(p, o) +
                (if o.partitionOptions.Some? then " " + o.partitionOptions.value else "");
    query := query + tail;
    sql := [query];
    var engine := "INNODB";
    if o.engine.Some? {
      engine := Upper(Trim(o.engine.value, Whitespace));
    }
    assert engine == EngineOf(o.engine);
    if o.foreignKeys.Some? && engine == "INNODB" {
      var fkSql := AppendForeignKeys(p, tableName, o.foreignKeys.value);
      sql := sql + fkSql;
    }
  }

  /** The column list of _getCreateTableSQL: the column declarations, the
      unique constraints, the indexes, then the primary key. */
  method QueryFields(p: Platform, columns: Dict<Column>, o: CreateOptions) returns (queryFields: string)
    requires ValidDict(o.uniqueConstraints) && ValidDict(o.indexes)
    ensures queryFields == CreateTableFields(p, columns, o)
  {
    queryFields := p.columnDeclarationListSQL(columns);
    var constraints := AppendDeclarations(o.uniqueConstraints.keys, o.uniqueConstraints.m, p.uniqueConstraintDeclarationSQL);
    queryFields := queryFields + constraints;
    var indexes := AppendDeclarations(o.indexes.keys, o.indexes.m, p.indexDeclarationSQL);
    queryFields := queryFields + indexes;
    if |o.primary| > 0 {
      var keyColumns := Unique(o.primary);
      queryFields := queryFields + ", PRIMARY KEY(" + Join(keyColumns, ", ") + ")";
    }
  }

  /** The CREATE TABLE statement comes first; the foreign keys follow it, in
      order and against the new table's name, exactly when they are given
      and the engine is InnoDB; the primary key lists each column once. */
  lemma CreateTableForeignKeys(p: Platform, tableName: string, columns: Dict<Column>, o: CreateOptions)
    requires ValidDict(o.uniqueConstraints) && ValidDict(o.indexes)
    ensures var sql := CreateTable(p, tableName, columns, o);
      IsPrefix("CREATE ", sql[0]) &&
      |sql| == 1 + (if PropagatesForeignKeys(o) then |o.foreignKeys.value| else 0) &&
      (PropagatesForeignKeys(o) ==>
        forall i :: 0 <= i < |o.foreignKeys.value| ==>
          sql[1 + i] == p.createForeignKeySQL(o.foreignKeys.value[i], TableNamed(tableName)))
  {
    var k := CreateKeyword(o.temporary);
    assert k[..7] == "CREATE ";
    PrefixConcat("CREATE ", k, "TABLE " + tableName + " (" + CreateTableFields(p, columns, o) + ") " +
                 BuildTableOptions(p, o) + (if o.partitionOptions.Some? then " " + o.partitionOptions.value else ""));
  }

  /** A prefix of a string is a prefix of any extension of it. */
  lemma PrefixConcat(pre: string, a: string, b: string)
    requires IsPrefix(pre, a)
    ensures IsPrefix(pre, a + b)
  {
    assert (a + b)[..|pre|] == a[..|pre|];
  }

  // ---------------------------------------------------------------------
  // ALTER TABLE: the parts of the single ALTER statement

  /** A column declaration as getAlterTableSQL renders it: the column's
      quoted name and its properties, with the comment the platform
      computes for the column. */
  function Declaration(p: Platform, c: Column): string {
    p.columnDeclarationSQL(Quoted(p, c.name), c.(comment := p.columnComment(c)))
  }

  /** What a foreach contributes for the first n entries of a list, each
      entry rendering to zero or more statements. */
  function Rendered<T>(s: seq<T>, n: nat, render: T -> seq<string>): seq<string>
    requires n <= |s|
  {
    if n == 0 then [] else Rendered(s, n - 1, render) + render(s[n - 1])
  }

  function AddColumnPart(p: Platform): Column -> seq<string> {
    (c: Column) => ["ADD " + Declaration(p, c)]
  }

  function DropColumnPart(p: Platform): Column -> seq<string> {
    (c: Column) => ["DROP " + Quoted(p, c.name)]
  }

  /** A change MySQL cannot express: only the default of a TEXT or BLOB
      column changed. */
  predicate DefaultOnlyOnTextOrBlob(cd: ColumnDiff) {
    HasChanged(cd, "default") && |cd.changedProperties| == 1 && IsTextOrBlob(cd.column.typ)
  }

  function ChangeColumnPart(p: Platform): ColumnDiff -> seq<string> {
    cd => if DefaultOnlyOnTextOrBlob(cd) then []
          else ["CHANGE " + Quoted(p, GetOldColumnName(cd)) + " " + Declaration(p, cd.column)]
  }

  function RenameColumnPart(p: Platform): ((string, Column)) -> seq<string> {
    (e: (string, Column)) => ["CHANGE " + Quoted(p, NewIdentifier(e.0)) + " " + Declaration(p, e.1)]
  }

  function RenamePart(p: Platform, v: TableDiffValue): seq<string> {
    if v.newName.Some? then ["RENAME TO " + Quoted(p, NewIdentifier(v.newName.value))] else []
  }

  function PrimaryKeyPart(added: Dict<Index>): seq<string> {
    if "primary" in added.m then ["ADD PRIMARY KEY (" + Join(Unique(added.m["primary"].columns), ", ") + ")"] else []
  }

  /** The parts of the ALTER statement, in order: rename, added, removed,
      changed and renamed columns, added primary key. */
  function QueryParts(p: Platform, v: TableDiffValue): seq<string>
    requires ValidValue(v)
  {
    RenamePart(p, v) +
    Rendered(Values(v.addedColumns), |v.addedColumns.keys|, AddColumnPart(p)) +
    Rendered(Values(v.removedColumns), |v.removedColumns.keys|, DropColumnPart(p)) +
    Rendered(Values(v.changedColumns), |v.changedColumns.keys|, ChangeColumnPart(p)) +
    Rendered(Entries(v.renamedColumns), |v.renamedColumns.keys|, RenameColumnPart(p)) +
    PrimaryKeyPart(v.addedIndexes)
  }

  /** getName of the diff, quoted. */
  function TableQuoted(p: Platform, v: TableDiffValue): string {
    Quoted(p, NameOf(v, p.quoteIdentifier, p.isKeyword))
  }

  /** The ALTER statement, when it has parts. */
  function AlterStatements(p: Platform, v: TableDiffValue, parts: seq<string>): seq<string> {
    if |parts| > 0 then ["ALTER TABLE " + TableQuoted(p, v) + " " + Join(parts, ", ")] else []
  }

  /** One foreach appending what each entry renders. */
  method AppendParts<T>(parts: seq<string>, s: seq<T>, render: T -> seq<string>) returns (r: seq<string>)
    ensures r == parts + Rendered(s, |s|, render)
  {
    r := parts;
    for i := 0 to |s|
      invariant r == parts + Rendered(s, i, render)
    {
      r := r + render(s[i]);
    }
  }

  /** The first half of getAlterTableSQL: collecting the parts. */
  method AlterQueryParts(p: Platform, d: TableDiff) returns (parts: seq<string>)
    requires d.Valid()
    ensures parts == QueryParts(p, d.Value())
  {
    parts := [];
    if d.newName.Some? {
      parts := ["RENAME TO " + Quoted(p, NewIdentifier(d.newName.value))];
    }
    parts := AppendParts(parts, Values(d.addedColumns), AddColumnPart(p));
    parts := AppendParts(parts, Values(d.removedColumns), DropColumnPart(p));
    parts := AppendParts(parts, Values(d.changedColumns), ChangeColumnPart(p));
    parts := AppendParts(parts, Entries(d.renamedColumns), RenameColumnPart(p));
    if "primary" in d.addedIndexes.m {
      var keyColumns := Unique(d.addedIndexes.m["primary"].columns);
      parts := parts + ["ADD PRIMARY KEY (" + Join(keyColumns, ", ") + ")"];
    }
  }

  // ---------------------------------------------------------------------
  // ALTER TABLE: the pre-phase

  /** `ALTER TABLE t MODIFY` the column with its autoincrement flag off.
      The source switches the flag off on the old table's column and back
      on after rendering, so the column ends as it was. */
  function Modify(p: Platform, table: string, c: Column): string {
    "ALTER TABLE " + table + " MODIFY " + p.columnDeclarationSQL(Quoted(p, c.name), c.(autoincrement := false))
  }

  /** For each position, the MODIFY clearing the named column, if any. */
  function ClearPieces(p: Platform, table: string, t: Table, names: seq<string>, keep: seq<string>): nat -> seq<string>
    requires forall i :: 0 <= i < |names| ==> HasColumn(t, names[i])
  {
    (i: nat) => if i < |names| then ClearFor(p, table, t, names[i], keep) else []
  }

  /** For the first n names: a MODIFY for each autoincrement column of the
      old table that is not among `keep`. */
  function AutoIncrementClears(p: Platform, table: string, t: Table, names: seq<string>, keep: seq<string>, n: nat): seq<string>
    requires n <= |names| && forall i :: 0 <= i < |names| ==> HasColumn(t, names[i])
  {
    Chain(ClearPieces(p, table, t, names, keep), n)
  }

  /** The MODIFY for one named column, if it is autoincrement and not kept. */
  function ClearFor(p: Platform, table: string, t: Table, name: string, keep: seq<string>): seq<string>
    requires HasColumn(t, name)
  {
    if GetColumn(t, name).autoincrement && name !in keep then [Modify(p, table, GetColumn(t, name))] else []
  }

  method ClearAutoIncrement(p: Platform, table: string, t: Table, names: seq<string>, keep: seq<string>)
    returns (sql: seq<string>)
    requires forall i :: 0 <= i < |names| ==> HasColumn(t, names[i])
    ensures sql == AutoIncrementClears(p, table, t, names, keep, |names|)
  {
    sql := [];
    for i := 0 to |names|
      invariant sql == AutoIncrementClears(p, table, t, names, keep, i)
    {
      ClearsStep(p, table, t, names, keep, i);
      var column := GetColumn(t, names[i]);
      if column.autoincrement && names[i] !in keep {
        sql := sql + [Modify(p, table, column)];
      }
    }
  }

  lemma ClearsStep(p: Platform, table: string, t: Table, names: seq<string>, keep: seq<string>, i: nat)
    requires i < |names| && forall j :: 0 <= j < |names| ==> HasColumn(t, names[j])
    ensures AutoIncrementClears(p, table, t, names, keep, i + 1) ==
      AutoIncrementClears(p, table, t, names, keep, i) + ClearFor(p, table, t, names[i], keep)
  {
  }

  /** The first key, from position i on, whose index has exactly the given
      column list. */
  function FirstSameColumns(keys: seq<string>, m: map<string, Index>, cols: seq<string>, i: nat): (r: Option<string>)
    requires forall j :: 0 <= j < |keys| ==> keys[j] in m
    ensures r.Some? ==> r.value in m && m[r.value].columns == cols
    ensures r.None? ==> forall j :: i <= j < |keys| ==> m[keys[j]].columns != cols
    decreases |keys| - i
  {
    if i >= |keys| then None
    else if m[keys[i]].columns == cols then Some(keys[i])
    else FirstSameColumns(keys, m, cols, i + 1)
  }

  /** The inner foreach over the added indexes, up to its break. */
  method FindSameColumns(added: Dict<Index>, cols: seq<string>) returns (r: Option<string>)
    requires ValidDict(added)
    ensures r == FirstSameColumns(added.keys, added.m, cols, 0)
  {
    var i := 0;
    while i < |added.keys|
      invariant 0 <= i <= |added.keys|
      invariant FirstSameColumns(added.keys, added.m, cols, 0) == FirstSameColumns(added.keys, added.m, cols, i)
    {
      if added.m[added.keys[i]].columns == cols {
        return Some(added.keys[i]);
      }
      i := i + 1;
    }
    return None;
  }

  /** How an added index is declared when it replaces a removed one. */
  function IndexClause(add: Index): string {
    if add.isPrimary then "PRIMARY KEY"
    else if add.isUnique then "UNIQUE INDEX " + GetName(add.name)
    else "INDEX " + GetName(add.name)
  }

  /** A removed and an added index over the same columns, as one statement. */
  function Collapse(p: Platform, table: string, rem: Index, add: Index): string {
    "ALTER TABLE " + table + " DROP INDEX " + GetName(rem.name) + ", " + "ADD " + IndexClause(add) +
    " (" + p.indexFieldDeclarationListSQL(QuotedColumns(p, add)) + ")"
  }

  /** Every entry of a is an entry of b. */
  predicate Submap(a: map<string, Index>, b: map<string, Index>) {
    forall k :: k in a ==> k in b && a[k] == b[k]
  }

  /** The removed and the added indexes while the removed ones are
      visited. */
  datatype Collections = Collections(removed: Dict<Index>, added: Dict<Index>)

  ghost predicate ValidCollections(c: Collections) {
    ValidDict(c.removed) && ValidDict(c.added)
  }

  /** The old table has every column a removed primary index names. */
  predicate ClearsResolve(from: Option<Table>, rem: Index) {
    from.Some? && rem.isPrimary ==> forall i :: 0 <= i < |rem.columns| ==> HasColumn(from.value, rem.columns[i])
  }

  /** Before a primary key is dropped, autoincrement is cleared on its
      columns. */
  function PrimaryDropClears(p: Platform, table: string, from: Option<Table>, rem: Index): seq<string>
    requires ClearsResolve(from, rem)
  {
    if rem.isPrimary && from.Some? then AutoIncrementClears(p, table, from.value, rem.columns, [], |rem.columns|) else []
  }

  method ClearBeforeDrop(p: Platform, table: string, from: Option<Table>, rem: Index) returns (sql: seq<string>)
    requires ClearsResolve(from, rem)
    ensures sql == PrimaryDropClears(p, table, from, rem)
  {
    sql := [];
    if rem.isPrimary && from.Some? {
      sql := ClearAutoIncrement(p, table, from.value, rem.columns, []);
    }
  }

  /** No index of the collection has exactly these columns. */
  predicate NoSameColumns(added: Dict<Index>, cols: seq<string>) {
    forall b :: b in added.m ==> added.m[b].columns != cols
  }

  /** The first added index over the same columns as a removed one. */
  function PartnerOf(c: Collections, rem: Index): Option<string>
    requires ValidDict(c.added)
  {
    FirstSameColumns(c.added.keys, c.added.m, rem.columns, 0)
  }

  /** One removed index: it and the first added index over the same columns
      both leave the diff; with no such added index nothing changes. */
  function PairWith(c: Collections, remKey: string, rem: Index): (r: Collections)
    requires ValidCollections(c)
    ensures ValidCollections(r)
  {
    var hit := PartnerOf(c, rem);
    if hit.Some? then Collections(Remove(c.removed, remKey), Remove(c.added, hit.value)) else c
  }

  /** A visit only takes entries out of the two collections. */
  lemma PairWithSubmap(c: Collections, remKey: string, rem: Index)
    requires ValidCollections(c)
    ensures var r := PairWith(c, remKey, rem);
      Submap(r.removed.m, c.removed.m) && Submap(r.added.m, c.added.m)
  {
  }

  /** A visit takes out no removed index but its own. */
  lemma PairWithKeeps(c: Collections, remKey: string, rem: Index, k: string)
    requires ValidCollections(c) && k in c.removed.m && k != remKey
    ensures k in PairWith(c, remKey, rem).removed.m
  {
  }

  /** A visit of a removed index that is still there takes out as many
      added indexes as removed ones: its partner and itself, or nothing. */
  lemma PairWithCounts(c: Collections, remKey: string, rem: Index)
    requires ValidCollections(c) && remKey in c.removed.m
    ensures var r := PairWith(c, remKey, rem);
      |c.removed.keys| - |r.removed.keys| == |c.added.keys| - |r.added.keys|
  {
  }

  /** A visit leaves the removed index only when no added index has its
      columns. */
  lemma PairWithUnpaired(c: Collections, remKey: string, rem: Index)
    requires ValidCollections(c) && remKey in PairWith(c, remKey, rem).removed.m
    ensures PairWith(c, remKey, rem) == c && NoSameColumns(c.added, rem.columns)
  {
    var hit := PartnerOf(c, rem);
    if hit.None? {
      forall b | b in c.added.m ensures c.added.m[b].columns != rem.columns {
        var i :| 0 <= i < |c.added.keys| && c.added.keys[i] == b;
      }
    }
  }

  /** The collections once the first n removed indexes are visited, in key
      order. */
  function Paired(keys: seq<string>, m: map<string, Index>, c0: Collections, n: nat): (r: Collections)
    requires n <= |keys| && (forall i :: 0 <= i < |keys| ==> keys[i] in m) && ValidCollections(c0)
    ensures ValidCollections(r)
  {
    if n == 0 then c0 else PairWith(Paired(keys, m, c0, n - 1), keys[n - 1], m[keys[n - 1]])
  }

  /** The pairing only takes entries out of the two collections. */
  lemma {:induction false} PairedSubmap(keys: seq<string>, m: map<string, Index>, c0: Collections, n: nat)
    requires n <= |keys| && (forall i :: 0 <= i < |keys| ==> keys[i] in m) && ValidCollections(c0)
    ensures SubCollections(Paired(keys, m, c0, n), c0)
  {
    if n > 0 {
      PairedSubmap(keys, m, c0, n - 1);
      SubmapStep(Paired(keys, m, c0, n - 1), c0, keys[n - 1], m[keys[n - 1]]);
    }
  }

  /** Both collections of r are parts of those of c. */
  ghost predicate SubCollections(r: Collections, c: Collections) {
    Submap(r.removed.m, c.removed.m) && Submap(r.added.m, c.added.m)
  }

  /** A visit keeps the collections sub-collections of the original ones. */
  lemma SubmapStep(st: Collections, c0: Collections, remKey: string, rem: Index)
    requires ValidCollections(st)
    requires SubCollections(st, c0)
    ensures SubCollections(PairWith(st, remKey, rem), c0)
  {
    PairWithSubmap(st, remKey, rem);
  }

  /** The statement collapsing a removed index with its partner, if it has
      one. */
  function CollapseFor(p: Platform, table: string, c: Collections, rem: Index): seq<string>
    requires ValidDict(c.added)
  {
    var hit := PartnerOf(c, rem);
    if hit.Some? then [Collapse(p, table, rem, c.added.m[hit.value])] else []
  }

  /** The statements for the visit of one removed index: the autoincrement
      clears, then the collapse with the added indexes as the earlier
      visits left them. */
  function VisitSql(p: Platform, table: string, from: Option<Table>, c: Collections, rem: Index): seq<string>
    requires ValidCollections(c) && ClearsResolve(from, rem)
  {
    PrimaryDropClears(p, table, from, rem) + CollapseFor(p, table, c, rem)
  }

  /** The statements of the visit of the i-th removed index, for each i. */
  function Visits(p: Platform, table: string, from: Option<Table>, keys: seq<string>, m: map<string, Index>,
                  c0: Collections): nat -> seq<string>
    requires forall i :: 0 <= i < |keys| ==> keys[i] in m && ClearsResolve(from, m[keys[i]])
    requires ValidCollections(c0)
  {
    (i: nat) => if i < |keys| then VisitSql(p, table, from, Paired(keys, m, c0, i), m[keys[i]]) else []
  }

  /** The statements for the first n removed indexes. */
  function PairSql(p: Platform, table: string, from: Option<Table>, keys: seq<string>, m: map<string, Index>,
                   c0: Collections, n: nat): seq<string>
    requires n <= |keys| && (forall i :: 0 <= i < |keys| ==> keys[i] in m && ClearsResolve(from, m[keys[i]]))
    requires ValidCollections(c0)
  {
    Chain(Visits(p, table, from, keys, m, c0), n)
  }

  /** One more visit: its statements follow those of the earlier ones, and
      it pairs the collections they left. */
  lemma PairStep(p: Platform, table: string, from: Option<Table>, keys: seq<string>, m: map<string, Index>,
                 c0: Collections, i: nat)
    requires i < |keys| && (forall i :: 0 <= i < |keys| ==> keys[i] in m && ClearsResolve(from, m[keys[i]]))
    requires ValidCollections(c0)
    ensures PairSql(p, table, from, keys, m, c0, i + 1) ==
      PairSql(p, table, from, keys, m, c0, i) + VisitSql(p, table, from, Paired(keys, m, c0, i), m[keys[i]])
    ensures Paired(keys, m, c0, i + 1) == PairWith(Paired(keys, m, c0, i), keys[i], m[keys[i]])
  {
  }

  /** The engine of the old table, as compared: InnoDB without one. */
  function TableEngine(from: Option<Table>): string {
    if from.Some? && "engine" in from.value.options then EngineOf(Some(from.value.options["engine"])) else "INNODB"
  }

  /** getPreAlterTableAlterIndexForeignKeySQL for the first n changed
      indexes: a changed primary key that loses an autoincrement column of
      the old primary key first clears that column's flag. */
  function AlterIndexClears(p: Platform, table: string, from: Option<Table>, changed: seq<Index>, n: nat): seq<string>
    requires n <= |changed| && (from.Some? ==> PrimaryKeyColumnsExist(from.value))
  {
    Chain(ChangedPieces(p, table, from, changed), n)
  }

  /** For each changed index, the clears it calls for. */
  function ChangedPieces(p: Platform, table: string, from: Option<Table>, changed: seq<Index>): nat -> seq<string>
    requires from.Some? ==> PrimaryKeyColumnsExist(from.value)
  {
    (i: nat) =>
      if i < |changed| && changed[i].isPrimary && from.Some?
      then AutoIncrementClears(p, table, from.value, PrimaryKeyColumns(from.value), changed[i].columns,
                               |PrimaryKeyColumns(from.value)|)
      else []
  }

  method ClearChangedPrimaryKeys(p: Platform, table: string, from: Option<Table>, changed: seq<Index>)
    returns (sql: seq<string>)
    requires from.Some? ==> PrimaryKeyColumnsExist(from.value)
    ensures sql == AlterIndexClears(p, table, from, changed, |changed|)
  {
    sql := [];
    for i := 0 to |changed|
      invariant sql == AlterIndexClears(p, table, from, changed, i)
    {
      if changed[i].isPrimary && from.Some? {
        var clears := ClearAutoIncrement(p, table, from.value, PrimaryKeyColumns(from.value), changed[i].columns);
        sql := sql + clears;
      }
    }
  }

  // ---------------------------------------------------------------------
  // ALTER TABLE: foreign keys around renamed indexes

  /** intersectsIndexColumns holds for some renamed index. */
  predicate IntersectsRenamed(p: Platform, fk: ForeignKey, renamed: seq<Index>) {
    exists i :: 0 <= i < |renamed| && p.intersectsIndexColumns(fk, renamed[i])
  }

  /** The first n foreign keys that intersect a renamed index. */
  function RequiringRenamed(p: Platform, fks: seq<ForeignKey>, renamed: seq<Index>, n: nat): seq<ForeignKey>
    requires n <= |fks|
  {
    if n == 0 then []
    else RequiringRenamed(p, fks, renamed, n - 1) + (if IntersectsRenamed(p, fks[n - 1], renamed) then [fks[n - 1]] else [])
  }

  /** Membership test against a list, as a filter callback. */
  function NotIn(fks: seq<ForeignKey>): ForeignKey -> bool {
    fk => fk !in fks
  }

  /** A key of a PHP list of length n: a position 0 .. n-1 in decimal
      (PHP keeps such a string key as that integer). */
  predicate IsListKey(k: string, n: nat) {
    exists i :: 0 <= i < n && NatToString(i) == k
  }

  /** getRemainingForeignKeyConstraintsRequiringRenamedIndexes as written:
      array_diff_key against the list of removed foreign keys takes out of
      the old table's foreign keys only those stored under a position of
      that list, whichever they are. */
  function RemainingAsWritten(p: Platform, v: TableDiffValue): seq<ForeignKey>
    requires ValidValue(v)
  {
    if v.renamedIndexes.keys == [] || v.fromTable.None? then []
    else
      var fks := v.fromTable.value.foreignKeys;
      var keys := Filter(fks.keys, (k: string) => !IsListKey(k, |v.removedForeignKeys|));
      var remaining := PresentValuesOf(keys, fks.m);
      RequiringRenamed(p, remaining, Values(v.renamedIndexes), |remaining|)
  }

  /** A foreign key the diff removes, stored under its name in the old
      table, still counts as remaining as written, and would be dropped
      and created again around the index rename. */
  lemma RemovedForeignKeyRemainsAsWritten(p: Platform, fk: ForeignKey, ix: Index, t: Table)
    requires t.foreignKeys == Dict(["fk_a"], map["fk_a" := fk])
    requires p.intersectsIndexColumns(fk, ix)
    ensures var v := TableDiffValue("t", None, Empty(), Empty(), Empty(), Empty(), Empty(), Empty(), Empty(),
                                    Dict(["old"], map["old" := ix]), [], [], [fk], Some(t));
      ValidValue(v) && fk in RemainingAsWritten(p, v) && fk !in RemainingForeignKeys(p, v)
  {
    var v := TableDiffValue("t", None, Empty(), Empty(), Empty(), Empty(), Empty(), Empty(), Empty(),
                            Dict(["old"], map["old" := ix]), [], [], [fk], Some(t));
    assert !IsListKey("fk_a", 1) by {
      assert NatToString(0) == "0";
    }
    var keys := Filter(t.foreignKeys.keys, (k: string) => !IsListKey(k, 1));
    assert keys == ["fk_a"];
    assert Values(v.renamedIndexes) == [ix];
    assert IntersectsRenamed(p, fk, [ix]) by {
      assert p.intersectsIndexColumns(fk, [ix][0]);
    }
    assert RequiringRenamed(p, [fk], [ix], 1) == [fk];
    RemainingForeignKeysMembers(p, v, fk);
  }

  /** getRemainingForeignKeyConstraintsRequiringRenamedIndexes, with the
      removed foreign keys subtracted by value (see RemainingAsWritten). */
  function RemainingForeignKeys(p: Platform, v: TableDiffValue): seq<ForeignKey>
    requires ValidValue(v)
  {
    if v.renamedIndexes.keys == [] || v.fromTable.None? then []
    else
      var remaining := Filter(PresentValues(v.fromTable.value.foreignKeys), NotIn(v.removedForeignKeys));
      RequiringRenamed(p, remaining, Values(v.renamedIndexes), |remaining|)
  }

  /** The inner foreach over the renamed indexes, up to its break. */
  method IntersectsSome(p: Platform, fk: ForeignKey, renamed: seq<Index>) returns (b: bool)
    ensures b == IntersectsRenamed(p, fk, renamed)
  {
    for i := 0 to |renamed|
      invariant forall j :: 0 <= j < i ==> !p.intersectsIndexColumns(fk, renamed[j])
    {
      if p.intersectsIndexColumns(fk, renamed[i]) {
        return true;
      }
    }
    return false;
  }

  method RemainingForeignKeyConstraints(p: Platform, d: TableDiff) returns (fks: seq<ForeignKey>)
    requires d.Valid()
    ensures fks == RemainingForeignKeys(p, d.Value())
  {
    if d.renamedIndexes.keys == [] || d.fromTable.None? {
      return [];
    }
    var remaining := Filter(PresentValues(d.fromTable.value.foreignKeys), NotIn(d.removedForeignKeys));
    fks := KeepRequiringRenamed(p, remaining, Values(d.renamedIndexes));
  }

  /** The outer foreach: the foreign keys that intersect a renamed index. */
  method KeepRequiringRenamed(p: Platform, remaining: seq<ForeignKey>, renamed: seq<Index>) returns (fks: seq<ForeignKey>)
    ensures fks == RequiringRenamed(p, remaining, renamed, |remaining|)
  {
    fks := [];
    for i := 0 to |remaining|
      invariant fks == RequiringRenamed(p, remaining, renamed, i)
    {
      var hit := IntersectsSome(p, remaining[i], renamed);
      if hit {
        fks := fks + [remaining[i]];
      }
    }
  }

  /** For the first n foreign keys: one statement each, skipping those the
      diff changes anyway. */
  function ForeignKeyStatements(fks: seq<ForeignKey>, changed: seq<ForeignKey>, render: ForeignKey -> string, n: nat): seq<string>
    requires n <= |fks|
  {
    if n == 0 then []
    else ForeignKeyStatements(fks, changed, render, n - 1) + (if fks[n - 1] in changed then [] else [render(fks[n - 1])])
  }

  method RenderForeignKeys(fks: seq<ForeignKey>, changed: seq<ForeignKey>, render: ForeignKey -> string)
    returns (sql: seq<string>)
    ensures sql == ForeignKeyStatements(fks, changed, render, |fks|)
  {
    sql := [];
    for i := 0 to |fks|
      invariant sql == ForeignKeyStatements(fks, changed, render, i)
    {
      if fks[i] !in changed {
        sql := sql + [render(fks[i])];
      }
    }
  }

  function DropForeignKeyOn(p: Platform, table: string): ForeignKey -> string {
    fk => p.dropForeignKeySQL(fk, TableNamed(table))
  }

  function CreateForeignKeyOn(p: Platform, table: string): ForeignKey -> string {
    fk => p.createForeignKeySQL(fk, TableNamed(table))
  }

  /** The table's name after the alteration, quoted. */
  function NewTableQuoted(p: Platform, v: TableDiffValue): string {
    if v.newName.Some? then Quoted(p, NewIdentifier(v.newName.value)) else TableQuoted(p, v)
  }

  /** getPreAlterTableRenameIndexForeignKeySQL: the 5.7 platform renames
      indexes in place and drops nothing. */
  function RenameIndexForeignKeysPre(p: Platform, v: TableDiffValue): seq<string>
    requires ValidValue(v)
  {
    if p.variant == MySql57 then []
    else
      var fks := RemainingForeignKeys(p, v);
      ForeignKeyStatements(fks, v.changedForeignKeys, DropForeignKeyOn(p, TableQuoted(p, v)), |fks|)
  }

  /** getPostAlterTableRenameIndexForeignKeySQL: recreate what the
      pre-phase dropped, under the table's new name. */
  function RenameIndexForeignKeysPost(p: Platform, v: TableDiffValue): seq<string>
    requires ValidValue(v)
  {
    if p.variant == MySql57 then []
    else
      var fks := RemainingForeignKeys(p, v);
      ForeignKeyStatements(fks, v.changedForeignKeys, CreateForeignKeyOn(p, NewTableQuoted(p, v)), |fks|)
  }

  method RenameIndexForeignKeysPreSQL(p: Platform, d: TableDiff) returns (sql: seq<string>)
    requires d.Valid()
    ensures sql == RenameIndexForeignKeysPre(p, d.Value())
  {
    if p.variant == MySql57 {
      return [];
    }
    var tableName := Quoted(p, d.GetName(p.quoteIdentifier, p.isKeyword));
    var fks := RemainingForeignKeyConstraints(p, d);
    sql := RenderForeignKeys(fks, d.changedForeignKeys, DropForeignKeyOn(p, tableName));
  }

  method RenameIndexForeignKeysPostSQL(p: Platform, d: TableDiff) returns (sql: seq<string>)
    requires d.Valid()
    ensures sql == RenameIndexForeignKeysPost(p, d.Value())
  {
    if p.variant == MySql57 {
      return [];
    }
    var tableName := if d.newName.Some? then Quoted(p, NewIdentifier(d.newName.value))
                     else Quoted(p, d.GetName(p.quoteIdentifier, p.isKeyword));
    var fks := RemainingForeignKeyConstraints(p, d);
    sql := RenderForeignKeys(fks, d.changedForeignKeys, CreateForeignKeyOn(p, tableName));
  }

  // ---------------------------------------------------------------------
  // ALTER TABLE: the whole rendering

  /** What getAlterTableSQL needs of its diff: well-formed collections, a
      new name that is truthy when set (getNewName would otherwise hand
      back the raw value and the call on it fail), and an old table that
      has every column the pre-phase looks up (getColumn would otherwise
      throw). */
  ghost predicate AlterReady(v: TableDiffValue) {
    ValidValue(v) &&
    (v.newName.Some? ==> Truthy(v.newName.value)) &&
    (v.fromTable.Some? ==> PrimaryKeyColumnsExist(v.fromTable.value)) &&
    (forall k :: k in v.removedIndexes.m ==> ClearsResolve(v.fromTable, v.removedIndexes.m[k]))
  }

  /** SQL statements together with the diff as the rendering left it. */
  datatype Altered = Altered(sql: seq<string>, diff: TableDiffValue)

  function ClearForeignKeys(v: TableDiffValue): TableDiffValue {
    v.(addedForeignKeys := [], changedForeignKeys := [], removedForeignKeys := [])
  }

  /** The removed indexes paired with the added ones: the statements and
      the diff with the collapsed pairs taken out. */
  function PairedDiff(p: Platform, v: TableDiffValue): (r: Altered)
    requires AlterReady(v)
    ensures AlterReady(r.diff)
    ensures Submap(r.diff.removedIndexes.m, v.removedIndexes.m) && Submap(r.diff.addedIndexes.m, v.addedIndexes.m)
  {
    var keys := v.removedIndexes.keys;
    var c0 := Collections(v.removedIndexes, v.addedIndexes);
    var c := Paired(keys, v.removedIndexes.m, c0, |keys|);
    PairedSubmap(keys, v.removedIndexes.m, c0, |keys|);
    Altered(PairSql(p, TableQuoted(p, v), v.fromTable, keys, v.removedIndexes.m, c0, |keys|),
            v.(removedIndexes := c.removed, addedIndexes := c.added))
  }

  /** Foreign key changes are dropped for a table whose engine is not
      InnoDB. */
  function EngineGate(v: TableDiffValue): TableDiffValue {
    if TableEngine(v.fromTable) != "INNODB" then ClearForeignKeys(v) else v
  }

  /** The statements of the pre-phase after the pairing. */
  function PreAlterRest(p: Platform, v: TableDiffValue): seq<string>
    requires AlterReady(v)
  {
    AlterIndexClears(p, TableQuoted(p, v), v.fromTable, Values(v.changedIndexes), |v.changedIndexes.keys|) +
    p.parentPreAlterSQL(v) + RenameIndexForeignKeysPre(p, v)
  }

  /** getPreAlterTableIndexForeignKeySQL: the statements and the diff it
      leaves. */
  function PreAlter(p: Platform, v: TableDiffValue): (r: Altered)
    requires AlterReady(v)
    ensures AlterReady(r.diff)
    ensures Submap(r.diff.removedIndexes.m, v.removedIndexes.m) && Submap(r.diff.addedIndexes.m, v.addedIndexes.m)
    ensures r.diff.(removedIndexes := v.removedIndexes, addedIndexes := v.addedIndexes,
                    addedForeignKeys := v.addedForeignKeys, changedForeignKeys := v.changedForeignKeys,
                    removedForeignKeys := v.removedForeignKeys) == v
    ensures TableEngine(v.fromTable) != "INNODB" ==>
      r.diff.addedForeignKeys == [] && r.diff.changedForeignKeys == [] && r.diff.removedForeignKeys == []
    ensures TableEngine(v.fromTable) == "INNODB" ==>
      r.diff.addedForeignKeys == v.addedForeignKeys && r.diff.changedForeignKeys == v.changedForeignKeys &&
      r.diff.removedForeignKeys == v.removedForeignKeys
  {
    var paired := PairedDiff(p, v);
    var v2 := EngineGate(paired.diff);
    Altered(paired.sql + PreAlterRest(p, v2), v2)
  }

  /** getPostAlterTableIndexForeignKeySQL */
  function PostAlter(p: Platform, v: TableDiffValue): seq<string>
    requires ValidValue(v)
  {
    p.parentPostAlterSQL(v) + RenameIndexForeignKeysPost(p, v)
  }

  /** getAlterTableSQL: the pre-phase statements, at most one ALTER TABLE,
      the post-phase statements; and the diff as the rendering leaves it. */
  function AlterTable(p: Platform, v: TableDiffValue): (r: Altered)
    requires AlterReady(v)
    ensures AlterReady(r.diff)
    ensures "primary" !in r.diff.addedIndexes.m
  {
    var parts := QueryParts(p, v);
    var v1 := Consumed(v);
    var pre := PreAlter(p, v1);
    Altered(pre.sql + AlterStatements(p, v1, parts) + PostAlter(p, pre.diff), pre.diff)
  }

  /** The diff once the added primary key has gone into the ALTER
      statement. */
  function Consumed(v: TableDiffValue): (r: TableDiffValue)
    requires AlterReady(v)
    ensures AlterReady(r) && "primary" !in r.addedIndexes.m
  {
    v.(addedIndexes := Remove(v.addedIndexes, "primary"))
  }

  // ---------------------------------------------------------------------
  // ALTER TABLE: the methods, which change the diff as they render it

  /** The foreach over a snapshot of the removed indexes, on the two index
      collections; the inner foreach sees the added indexes as the earlier
      visits left them. */
  method PairLoop(p: Platform, table: string, from: Option<Table>, c0: Collections)
    returns (sql: seq<string>, c: Collections)
    requires ValidCollections(c0)
    requires forall i :: 0 <= i < |c0.removed.keys| ==>
      c0.removed.keys[i] in c0.removed.m && ClearsResolve(from, c0.removed.m[c0.removed.keys[i]])
    ensures sql == PairSql(p, table, from, c0.removed.keys, c0.removed.m, c0, |c0.removed.keys|)
    ensures c == Paired(c0.removed.keys, c0.removed.m, c0, |c0.removed.keys|)
  {
    var keys, m := c0.removed.keys, c0.removed.m;
    c := c0;
    sql := [];
    for i := 0 to |keys|
      invariant sql == PairSql(p, table, from, keys, m, c0, i)
      invariant c == Paired(keys, m, c0, i)
    {
      sql, c := PairNext(p, table, from, keys, m, c0, i, sql, c);
    }
  }

  /** The i-th pass of the pairing foreach. */
  method PairNext(p: Platform, table: string, from: Option<Table>, keys: seq<string>, m: map<string, Index>,
                  c0: Collections, i: nat, sql0: seq<string>, c: Collections)
    returns (sql: seq<string>, r: Collections)
    requires i < |keys| && (forall i :: 0 <= i < |keys| ==> keys[i] in m && ClearsResolve(from, m[keys[i]]))
    requires ValidCollections(c0)
    requires sql0 == PairSql(p, table, from, keys, m, c0, i) && c == Paired(keys, m, c0, i)
    ensures sql == PairSql(p, table, from, keys, m, c0, i + 1) && r == Paired(keys, m, c0, i + 1)
  {
    PairStep(p, table, from, keys, m, c0, i);
    sql, r := PairOne(p, table, from, sql0, c, keys[i], m[keys[i]]);
  }

  /** One visit of the pairing foreach. */
  method PairOne(p: Platform, table: string, from: Option<Table>, sql0: seq<string>, c: Collections,
                 remKey: string, remIndex: Index)
    returns (sql: seq<string>, r: Collections)
    requires ValidCollections(c) && ClearsResolve(from, remIndex)
    ensures sql == sql0 + VisitSql(p, table, from, c, remIndex)
    ensures r == PairWith(c, remKey, remIndex)
  {
    var clears := ClearBeforeDrop(p, table, from, remIndex);
    var hit := FindSameColumns(c.added, remIndex.columns);
    if hit.Some? {
      sql := sql0 + (clears + [Collapse(p, table, remIndex, c.added.m[hit.value])]);
      r := Collections(Remove(c.removed, remKey), Remove(c.added, hit.value));
    } else {
      sql := sql0 + (clears + []);
      r := c;
    }
  }

  /** The pairing, written back into the diff. */
  method PairRemovedIndexes(p: Platform, d: TableDiff) returns (sql: seq<string>)
    requires d.Valid() && AlterReady(d.Value())
    modifies d
    ensures d.Valid() && AlterReady(d.Value())
    ensures Altered(sql, d.Value()) == PairedDiff(p, old(d.Value()))
  {
    ghost var v := d.Value();
    var table := Quoted(p, d.GetName(p.quoteIdentifier, p.isKeyword));
    KeysResolve(v);
    var c;
    sql, c := PairLoop(p, table, d.fromTable, Collections(d.removedIndexes, d.addedIndexes));
    d.removedIndexes := c.removed;
    d.addedIndexes := c.added;
    PairedDiffParts(p, v);
    assert d.Value() == v.(removedIndexes := c.removed, addedIndexes := c.added);
  }

  /** The two halves of the pairing's result. */
  lemma PairedDiffParts(p: Platform, v: TableDiffValue)
    requires AlterReady(v)
    ensures var c0 := Collections(v.removedIndexes, v.addedIndexes);
      var keys := v.removedIndexes.keys;
      var c := Paired(keys, v.removedIndexes.m, c0, |keys|);
      PairedDiff(p, v) == Altered(PairSql(p, TableQuoted(p, v), v.fromTable, keys, v.removedIndexes.m, c0, |keys|),
                                  v.(removedIndexes := c.removed, addedIndexes := c.added))
  {
  }

  /** The removed indexes, visited by position, all resolve their columns. */
  lemma KeysResolve(v: TableDiffValue)
    requires AlterReady(v)
    ensures forall i :: 0 <= i < |v.removedIndexes.keys| ==>
      v.removedIndexes.keys[i] in v.removedIndexes.m &&
      ClearsResolve(v.fromTable, v.removedIndexes.m[v.removedIndexes.keys[i]])
  {
  }

  /** Suppressing foreign key propagation on other engines. */
  method GateForeignKeys(d: TableDiff)
    modifies d
    ensures d.Value() == EngineGate(old(d.Value()))
  {
    ghost var before := d.Value();
    var engine := "INNODB";
    if d.fromTable.Some? && "engine" in d.fromTable.value.options {
      engine := EngineOf(Some(d.fromTable.value.options["engine"]));
    }
    assert engine == TableEngine(before.fromTable);
    if engine != "INNODB" {
      d.addedForeignKeys, d.changedForeignKeys, d.removedForeignKeys := [], [], [];
      assert d.Value() == ClearForeignKeys(before);
    }
  }

  method PreAlterRestSQL(p: Platform, d: TableDiff) returns (sql: seq<string>)
    requires d.Valid() && AlterReady(d.Value())
    ensures sql == PreAlterRest(p, d.Value())
  {
    var table := Quoted(p, d.GetName(p.quoteIdentifier, p.isKeyword));
    var alterIndex := ClearChangedPrimaryKeys(p, table, d.fromTable, Values(d.changedIndexes));
    var renameIndex := RenameIndexForeignKeysPreSQL(p, d);
    sql := alterIndex + p.parentPreAlterSQL(d.Value()) + renameIndex;
  }

  /** getPreAlterTableIndexForeignKeySQL */
  method PreAlterTableIndexForeignKeySQL(p: Platform, d: TableDiff) returns (sql: seq<string>)
    requires d.Valid() && AlterReady(d.Value())
    modifies d
    ensures d.Valid()
    ensures Altered(sql, d.Value()) == PreAlter(p, old(d.Value()))
  {
    sql := PairRemovedIndexes(p, d);
    GateForeignKeys(d);
    var rest := PreAlterRestSQL(p, d);
    sql := sql + rest;
  }

  /** getPostAlterTableIndexForeignKeySQL */
  method PostAlterTableIndexForeignKeySQL(p: Platform, d: TableDiff) returns (sql: seq<string>)
    requires d.Valid()
    ensures sql == PostAlter(p, d.Value())
  {
    var renameIndex := RenameIndexForeignKeysPostSQL(p, d);
    sql := p.parentPostAlterSQL(d.Value()) + renameIndex;
  }

  /** `unset($diff->addedIndexes['primary'])` */
  method ConsumePrimary(d: TableDiff)
    requires d.Valid() && AlterReady(d.Value())
    modifies d
    ensures d.Valid() && AlterReady(d.Value())
    ensures d.Value() == Consumed(old(d.Value()))
  {
    d.addedIndexes := Remove(d.addedIndexes, "primary");
  }

  /** The ALTER statement, when there are parts. */
  method AlterStatement(p: Platform, d: TableDiff, queryParts: seq<string>) returns (sql: seq<string>)
    ensures sql == AlterStatements(p, d.Value(), queryParts)
  {
    sql := [];
    if |queryParts| > 0 {
      sql := ["ALTER TABLE " + Quoted(p, d.GetName(p.quoteIdentifier, p.isKeyword)) + " " + Join(queryParts, ", ")];
    }
  }

  /** getAlterTableSQL: renders the diff and leaves it as the pre-phase
      made it, the added primary key taken out. */
  method GetAlterTableSQL(p: Platform, d: TableDiff) returns (sql: seq<string>)
    requires d.Valid() && AlterReady(d.Value())
    modifies d
    ensures d.Valid()
    ensures Altered(sql, d.Value()) == AlterTable(p, old(d.Value()))
  {
    var queryParts := AlterQueryParts(p, d);
    ConsumePrimary(d);
    var alter := AlterStatement(p, d, queryParts);
    var pre := PreAlterTableIndexForeignKeySQL(p, d);
    var post := PostAlterTableIndexForeignKeySQL(p, d);
    sql := pre + alter + post;
  }

  // ---------------------------------------------------------------------
  // ALTER TABLE: what the rendering promises

  lemma {:induction false} RenderedEmpty<T>(s: seq<T>, n: nat, render: T -> seq<string>)
    requires n <= |s|
    ensures Rendered(s, n, render) == [] <==> forall i :: 0 <= i < n ==> render(s[i]) == []
  {
    if n > 0 {
      RenderedEmpty(s, n - 1, render);
    }
  }

  /** A change of a column is rendered unless it is a default-only change
      of a TEXT or BLOB column. */
  predicate RenderedChange(v: TableDiffValue) {
    exists k :: k in v.changedColumns.m && !DefaultOnlyOnTextOrBlob(v.changedColumns.m[k])
  }

  /** A foreach whose every entry renders something renders nothing only
      over an empty list. */
  lemma RenderedNothing<T>(s: seq<T>, render: T -> seq<string>)
    requires forall i :: 0 <= i < |s| ==> render(s[i]) != []
    ensures Rendered(s, |s|, render) == [] <==> |s| == 0
  {
    RenderedEmpty(s, |s|, render);
  }

  lemma AddedColumnsRendered(p: Platform, v: TableDiffValue)
    requires ValidValue(v)
    ensures Rendered(Values(v.addedColumns), |v.addedColumns.keys|, AddColumnPart(p)) == [] <==> v.addedColumns.keys == []
  {
    var s := Values(v.addedColumns);
    forall i | 0 <= i < |s| ensures AddColumnPart(p)(s[i]) != [] {
    }
    RenderedNothing(s, AddColumnPart(p));
  }

  lemma RemovedColumnsRendered(p: Platform, v: TableDiffValue)
    requires ValidValue(v)
    ensures Rendered(Values(v.removedColumns), |v.removedColumns.keys|, DropColumnPart(p)) == [] <==> v.removedColumns.keys == []
  {
    var s := Values(v.removedColumns);
    forall i | 0 <= i < |s| ensures DropColumnPart(p)(s[i]) != [] {
    }
    RenderedNothing(s, DropColumnPart(p));
  }

  lemma RenamedColumnsRendered(p: Platform, v: TableDiffValue)
    requires ValidValue(v)
    ensures Rendered(Entries(v.renamedColumns), |v.renamedColumns.keys|, RenameColumnPart(p)) == [] <==> v.renamedColumns.keys == []
  {
    var s := Entries(v.renamedColumns);
    forall i | 0 <= i < |s| ensures RenameColumnPart(p)(s[i]) != [] {
    }
    RenderedNothing(s, RenameColumnPart(p));
  }

  lemma ChangedColumnsRendered(p: Platform, v: TableDiffValue)
    requires ValidValue(v)
    ensures Rendered(Values(v.changedColumns), |v.changedColumns.keys|, ChangeColumnPart(p)) == [] <==> !RenderedChange(v)
  {
    var changed := Values(v.changedColumns);
    RenderedEmpty(changed, |changed|, ChangeColumnPart(p));
    if RenderedChange(v) {
      ChangeRendered(p, v);
    }
    if Rendered(changed, |changed|, ChangeColumnPart(p)) != [] {
      RenderedIsChange(p, v);
    }
  }

  lemma ChangeRendered(p: Platform, v: TableDiffValue)
    requires ValidValue(v) && RenderedChange(v)
    ensures exists i :: 0 <= i < |v.changedColumns.keys| && ChangeColumnPart(p)(Values(v.changedColumns)[i]) != []
  {
    var k :| k in v.changedColumns.m && !DefaultOnlyOnTextOrBlob(v.changedColumns.m[k]);
    var i :| 0 <= i < |v.changedColumns.keys| && v.changedColumns.keys[i] == k;
    assert ChangeColumnPart(p)(Values(v.changedColumns)[i]) != [];
  }

  lemma RenderedIsChange(p: Platform, v: TableDiffValue)
    requires ValidValue(v)
    requires exists i :: 0 <= i < |v.changedColumns.keys| && ChangeColumnPart(p)(Values(v.changedColumns)[i]) != []
    ensures RenderedChange(v)
  {
    var i :| 0 <= i < |v.changedColumns.keys| && ChangeColumnPart(p)(Values(v.changedColumns)[i]) != [];
    assert v.changedColumns.keys[i] in v.changedColumns.m;
  }

  /** There is an ALTER statement exactly when the diff renames the table,
      adds, drops or renames a column, changes a column other than by the
      default of a TEXT or BLOB column, or adds a primary key. */
  lemma AlterStatementPresent(p: Platform, v: TableDiffValue)
    requires AlterReady(v)
    ensures |AlterStatements(p, Consumed(v), QueryParts(p, v))| == 1 <==>
      v.newName.Some? || v.addedColumns.keys != [] || v.removedColumns.keys != [] ||
      RenderedChange(v) || v.renamedColumns.keys != [] || "primary" in v.addedIndexes.m
  {
    AddedColumnsRendered(p, v);
    RemovedColumnsRendered(p, v);
    ChangedColumnsRendered(p, v);
    RenamedColumnsRendered(p, v);
  }

  /** A diff without any change renders only what the parent platform's
      hooks add ... */
  lemma EmptyDiffRendersParentHooks(p: Platform, v: TableDiffValue)
    requires AlterReady(v) && v.newName.None?
    requires v.addedColumns.keys == [] && v.changedColumns.keys == [] && v.removedColumns.keys == []
    requires v.renamedColumns.keys == [] && v.addedIndexes.keys == [] && v.changedIndexes.keys == []
    requires v.removedIndexes.keys == [] && v.renamedIndexes.keys == []
    ensures AlterTable(p, v).sql == p.parentPreAlterSQL(EngineGate(v)) + p.parentPostAlterSQL(EngineGate(v))
  {
    NothingToAlter(p, v);
    QuietPreAlter(p, v);
    QuietPostAlter(p, v);
  }

  /** ... and the diff keeps everything but, on a table that is not
      InnoDB, its foreign key changes. */
  lemma EmptyDiffOnlyGated(p: Platform, v: TableDiffValue)
    requires AlterReady(v) && v.newName.None?
    requires v.addedColumns.keys == [] && v.changedColumns.keys == [] && v.removedColumns.keys == []
    requires v.renamedColumns.keys == [] && v.addedIndexes.keys == [] && v.changedIndexes.keys == []
    requires v.removedIndexes.keys == [] && v.renamedIndexes.keys == []
    ensures AlterTable(p, v).diff == EngineGate(v)
  {
    NothingToAlter(p, v);
    QuietPreAlter(p, v);
    QuietPostAlter(p, v);
  }

  /** With no column change, no new name and no added index the diff has
      no primary key to consume and no ALTER TABLE statement. */
  lemma NothingToAlter(p: Platform, v: TableDiffValue)
    requires AlterReady(v) && v.newName.None?
    requires v.addedColumns.keys == [] && v.changedColumns.keys == [] && v.removedColumns.keys == []
    requires v.renamedColumns.keys == [] && v.addedIndexes.keys == []
    ensures Consumed(v) == v && AlterStatements(p, v, QueryParts(p, v)) == []
  {
    AlterStatementPresent(p, v);
  }

  /** With no removed, changed or renamed index, the pre-phase renders
      only the parent's statements and only gates the foreign keys. */
  lemma QuietPreAlter(p: Platform, v: TableDiffValue)
    requires AlterReady(v)
    requires v.removedIndexes.keys == [] && v.changedIndexes.keys == [] && v.renamedIndexes.keys == []
    ensures PreAlter(p, v) == Altered(p.parentPreAlterSQL(EngineGate(v)), EngineGate(v))
  {
    UnpairedDiff(p, v);
    QuietPreAlterRest(p, EngineGate(v));
  }

  /** Without changed or renamed indexes, the pre-phase after the pairing
      renders only the parent's statements. */
  lemma QuietPreAlterRest(p: Platform, v: TableDiffValue)
    requires AlterReady(v)
    requires v.changedIndexes.keys == [] && v.renamedIndexes.keys == []
    ensures PreAlterRest(p, v) == p.parentPreAlterSQL(v)
  {
    assert AlterIndexClears(p, TableQuoted(p, v), v.fromTable, Values(v.changedIndexes), 0) == [];
    RenameIndexForeignKeysQuiet(p, v);
  }

  /** ... and the post-phase only the parent's. */
  lemma QuietPostAlter(p: Platform, v: TableDiffValue)
    requires AlterReady(v)
    requires v.removedIndexes.keys == [] && v.changedIndexes.keys == [] && v.renamedIndexes.keys == []
    ensures PostAlter(p, EngineGate(v)) == p.parentPostAlterSQL(EngineGate(v))
  {
    RenameIndexForeignKeysQuiet(p, EngineGate(v));
  }

  /** With no removed index the pairing renders nothing and changes
      nothing. */
  lemma UnpairedDiff(p: Platform, v: TableDiffValue)
    requires AlterReady(v) && v.removedIndexes.keys == []
    ensures PairedDiff(p, v) == Altered([], v)
  {
    var c0 := Collections(v.removedIndexes, v.addedIndexes);
    assert Paired([], v.removedIndexes.m, c0, 0) == c0;
  }

  /** The MODIFY for the j-th name is among the clears, when its column is
      autoincrement and not kept. */
  lemma ClearsInclude(p: Platform, table: string, t: Table, names: seq<string>, keep: seq<string>, j: nat, n: nat)
    requires j < n <= |names| && forall i :: 0 <= i < |names| ==> HasColumn(t, names[i])
    requires GetColumn(t, names[j]).autoincrement && names[j] !in keep
    ensures Modify(p, table, GetColumn(t, names[j])) in AutoIncrementClears(p, table, t, names, keep, n)
  {
    var x := Modify(p, table, GetColumn(t, names[j]));
    assert ClearPieces(p, table, t, names, keep)(j) == [x];
    ChainIncludes(x, ClearPieces(p, table, t, names, keep), j, n);
  }

  lemma PrimaryKeyColumnsResolve(t: Table)
    requires PrimaryKeyColumnsExist(t)
    ensures forall i :: 0 <= i < |PrimaryKeyColumns(t)| ==> HasColumn(t, PrimaryKeyColumns(t)[i])
  {
  }

  lemma InConcat<T>(x: T, a: seq<T>, b: seq<T>)
    requires x in a
    ensures x in a + b
  {
    var i :| 0 <= i < |a| && a[i] == x;
    assert (a + b)[i] == x;
  }

  /** A statement of the visit of the t-th removed index is among the
      statements of all the visits. */
  lemma PairPieceIncluded(x: string, p: Platform, table: string, from: Option<Table>, keys: seq<string>,
                          m: map<string, Index>, c0: Collections, t: nat)
    requires t < |keys| && (forall i :: 0 <= i < |keys| ==> keys[i] in m && ClearsResolve(from, m[keys[i]]))
    requires ValidCollections(c0) && x in VisitSql(p, table, from, Paired(keys, m, c0, t), m[keys[t]])
    ensures x in PairSql(p, table, from, keys, m, c0, |keys|)
  {
    ChainIncludes(x, Visits(p, table, from, keys, m, c0), t, |keys|);
  }

  /** Dropping a primary key first clears autoincrement on each of its
      columns of the old table that has it. */
  lemma RemovedPrimaryClearsAutoIncrement(p: Platform, v: TableDiffValue, k: string, j: nat)
    requires AlterReady(v) && v.fromTable.Some? && k in v.removedIndexes.m
    requires v.removedIndexes.m[k].isPrimary && j < |v.removedIndexes.m[k].columns|
    requires GetColumn(v.fromTable.value, v.removedIndexes.m[k].columns[j]).autoincrement
    ensures Modify(p, TableQuoted(p, v), GetColumn(v.fromTable.value, v.removedIndexes.m[k].columns[j])) in AlterTable(p, v).sql
  {
    var v1 := Consumed(v);
    var table := TableQuoted(p, v1);
    var keys := v1.removedIndexes.keys;
    var c0 := Collections(v1.removedIndexes, v1.addedIndexes);
    var t :| 0 <= t < |keys| && keys[t] == k;
    var x := Modify(p, table, GetColumn(v1.fromTable.value, v1.removedIndexes.m[k].columns[j]));
    RemovedPrimaryClearsInPairing(p, table, v1.fromTable.value, keys, v1.removedIndexes.m, c0, t, j);
    var paired := PairedDiff(p, v1);
    assert x in paired.sql;
    var pre := PreAlter(p, v1);
    assert x in pre.sql by {
      InConcat(x, paired.sql, PreAlterRest(p, EngineGate(paired.diff)));
    }
    assert x in AlterTable(p, v).sql by {
      InConcat(x, pre.sql, AlterStatements(p, v1, QueryParts(p, v)));
      InConcat(x, pre.sql + AlterStatements(p, v1, QueryParts(p, v)), PostAlter(p, pre.diff));
    }
  }

  /** The pairing's statements clear autoincrement on each autoincrement
      column of every removed primary index. */
  lemma RemovedPrimaryClearsInPairing(p: Platform, table: string, from: Table, keys: seq<string>, m: map<string, Index>,
                                      c0: Collections, t: nat, j: nat)
    requires (forall i :: 0 <= i < |keys| ==> keys[i] in m && ClearsResolve(Some(from), m[keys[i]]))
    requires ValidCollections(c0) && t < |keys| && m[keys[t]].isPrimary && j < |m[keys[t]].columns|
    requires HasColumn(from, m[keys[t]].columns[j]) && GetColumn(from, m[keys[t]].columns[j]).autoincrement
    ensures Modify(p, table, GetColumn(from, m[keys[t]].columns[j])) in PairSql(p, table, Some(from), keys, m, c0, |keys|)
  {
    var rem := m[keys[t]];
    var x := Modify(p, table, GetColumn(from, rem.columns[j]));
    var clears := PrimaryDropClears(p, table, Some(from), rem);
    ClearsInclude(p, table, from, rem.columns, [], j, |rem.columns|);
    InConcat(x, clears, CollapseFor(p, table, Paired(keys, m, c0, t), rem));
    PairPieceIncluded(x, p, table, Some(from), keys, m, c0, t);
  }

  /** The clears for the t-th changed index are among the clears of the
      first n. */
  lemma AlterIndexClearsInclude(p: Platform, table: string, from: Option<Table>, changed: seq<Index>, t: nat, n: nat, x: string)
    requires t < n <= |changed| && from.Some? && PrimaryKeyColumnsExist(from.value) && changed[t].isPrimary
    requires x in AutoIncrementClears(p, table, from.value, PrimaryKeyColumns(from.value), changed[t].columns,
                                      |PrimaryKeyColumns(from.value)|)
    ensures x in AlterIndexClears(p, table, from, changed, n)
  {
    ChainIncludes(x, ChangedPieces(p, table, from, changed), t, n);
  }

  /** A changed primary key that leaves out an autoincrement column of the
      old primary key first clears that column's autoincrement. */
  lemma ChangedPrimaryClearsAutoIncrement(p: Platform, v: TableDiffValue, k: string, j: nat)
    requires AlterReady(v) && v.fromTable.Some? && k in v.changedIndexes.m && v.changedIndexes.m[k].isPrimary
    requires j < |PrimaryKeyColumns(v.fromTable.value)|
    requires GetColumn(v.fromTable.value, PrimaryKeyColumns(v.fromTable.value)[j]).autoincrement
    requires PrimaryKeyColumns(v.fromTable.value)[j] !in v.changedIndexes.m[k].columns
    ensures Modify(p, TableQuoted(p, v), GetColumn(v.fromTable.value, PrimaryKeyColumns(v.fromTable.value)[j])) in AlterTable(p, v).sql
  {
    var pre := PreAlter(p, Consumed(v));
    var d := pre.diff;
    var from := v.fromTable.value;
    var names := PrimaryKeyColumns(from);
    var t :| 0 <= t < |d.changedIndexes.keys| && d.changedIndexes.keys[t] == k;
    var changed := Values(d.changedIndexes);
    ClearsInclude(p, TableQuoted(p, v), from, names, changed[t].columns, j, |names|);
    AlterIndexClearsInclude(p, TableQuoted(p, v), d.fromTable, changed, t, |changed|, Modify(p, TableQuoted(p, v), GetColumn(from, names[j])));
  }

  /** As many indexes have left the removed collection as the added one,
      and every removed index from the n-th on is still there. */
  ghost predicate CountsKept(r: Collections, c0: Collections, keys: seq<string>, n: nat)
    requires n <= |keys|
  {
    |c0.removed.keys| - |r.removed.keys| == |c0.added.keys| - |r.added.keys| &&
    forall j :: n <= j < |keys| ==> keys[j] in r.removed.m
  }

  /** The pairing takes as many indexes out of the removed collection as
      out of the added one, and leaves the indexes it has not visited. */
  lemma {:induction false} PairingCounts(keys: seq<string>, m: map<string, Index>, c0: Collections, n: nat)
    requires n <= |keys| && (forall i :: 0 <= i < |keys| ==> keys[i] in m)
    requires ValidCollections(c0) && c0.removed == Dict(keys, m)
    ensures CountsKept(Paired(keys, m, c0, n), c0, keys, n)
  {
    if n > 0 {
      PairingCounts(keys, m, c0, n - 1);
      CountsKeptStep(Paired(keys, m, c0, n - 1), c0, keys, m, n);
    }
  }

  /** One visit of a removed index that is still there keeps CountsKept. */
  lemma CountsKeptStep(st: Collections, c0: Collections, keys: seq<string>, m: map<string, Index>, n: nat)
    requires 0 < n <= |keys| && (forall i :: 0 <= i < |keys| ==> keys[i] in m) && Distinct(keys)
    requires ValidCollections(st) && CountsKept(st, c0, keys, n - 1)
    ensures CountsKept(PairWith(st, keys[n - 1], m[keys[n - 1]]), c0, keys, n)
  {
    var key := keys[n - 1];
    assert key in st.removed.m;
    PairWithCounts(st, key, m[key]);
    forall j | n <= j < |keys|
      ensures keys[j] in PairWith(st, key, m[key]).removed.m
    {
      PairWithKeeps(st, key, m[key], keys[j]);
    }
  }

  /** No removed index among the first n that is still there shares its
      columns with an added index that is still there. */
  ghost predicate NoPairLeft(r: Collections, keys: seq<string>, m: map<string, Index>, n: nat)
    requires n <= |keys| && forall i :: 0 <= i < |keys| ==> keys[i] in m
  {
    forall j :: 0 <= j < n && keys[j] in r.removed.m ==> NoSameColumns(r.added, m[keys[j]].columns)
  }

  /** After the pairing, no visited removed index that is still there has
      a partner left among the added indexes. */
  lemma {:induction false} PairingLeavesNoPair(keys: seq<string>, m: map<string, Index>, c0: Collections, n: nat)
    requires n <= |keys| && (forall i :: 0 <= i < |keys| ==> keys[i] in m) && ValidCollections(c0)
    ensures NoPairLeft(Paired(keys, m, c0, n), keys, m, n)
  {
    if n > 0 {
      PairingLeavesNoPair(keys, m, c0, n - 1);
      NoPairLeftStep(Paired(keys, m, c0, n - 1), keys, m, n);
    }
  }

  /** One visit keeps NoPairLeft and extends it to the visited index. */
  lemma NoPairLeftStep(st: Collections, keys: seq<string>, m: map<string, Index>, n: nat)
    requires 0 < n <= |keys| && (forall i :: 0 <= i < |keys| ==> keys[i] in m) && ValidCollections(st)
    requires NoPairLeft(st, keys, m, n - 1)
    ensures NoPairLeft(PairWith(st, keys[n - 1], m[keys[n - 1]]), keys, m, n)
  {
    var key := keys[n - 1];
    var r := PairWith(st, key, m[key]);
    forall j | 0 <= j < n && keys[j] in r.removed.m
      ensures NoSameColumns(r.added, m[keys[j]].columns)
    {
      if keys[j] == key {
        PairWithUnpaired(st, key, m[key]);
      } else {
        PairWithSubmap(st, key, m[key]);
        PairWithNoPairStays(st, key, m[key], m[keys[j]].columns);
      }
    }
  }

  /** A visit only takes added indexes out, so columns that no added index
      has stay so. */
  lemma PairWithNoPairStays(c: Collections, remKey: string, rem: Index, cols: seq<string>)
    requires ValidCollections(c) && NoSameColumns(c.added, cols)
    ensures NoSameColumns(PairWith(c, remKey, rem).added, cols)
  {
  }

  /** After the pairing: the diff keeps a sub-collection of its removed and
      of its added indexes, as many taken from each, and no removed index
      that is left has the columns of an added index that is left. */
  lemma IndexPairsCollapse(p: Platform, v: TableDiffValue)
    requires AlterReady(v)
    ensures var r := PairedDiff(p, v).diff;
      Submap(r.removedIndexes.m, v.removedIndexes.m) && Submap(r.addedIndexes.m, v.addedIndexes.m) &&
      |v.removedIndexes.keys| - |r.removedIndexes.keys| == |v.addedIndexes.keys| - |r.addedIndexes.keys| &&
      forall a, b :: a in r.removedIndexes.m && b in r.addedIndexes.m ==>
        r.removedIndexes.m[a].columns != r.addedIndexes.m[b].columns
  {
    var keys := v.removedIndexes.keys;
    var c0 := Collections(v.removedIndexes, v.addedIndexes);
    PairingCollapses(keys, v.removedIndexes.m, c0);
  }

  /** IndexPairsCollapse on the two collections alone. */
  lemma PairingCollapses(keys: seq<string>, m: map<string, Index>, c0: Collections)
    requires ValidCollections(c0) && keys == c0.removed.keys && m == c0.removed.m
    ensures var r := Paired(keys, m, c0, |keys|);
      |c0.removed.keys| - |r.removed.keys| == |c0.added.keys| - |r.added.keys| &&
      forall a, b :: a in r.removed.m && b in r.added.m ==> r.removed.m[a].columns != r.added.m[b].columns
  {
    PairingCounts(keys, m, c0, |keys|);
    PairingLeavesNoPair(keys, m, c0, |keys|);
    PairedSubmap(keys, m, c0, |keys|);
    var r := Paired(keys, m, c0, |keys|);
    forall a, b | a in r.removed.m && b in r.added.m
      ensures r.removed.m[a].columns != r.added.m[b].columns
    {
      var j :| 0 <= j < |keys| && keys[j] == a;
      assert NoSameColumns(r.added, m[keys[j]].columns);
    }
  }

  /** The first n foreign keys that are not among `changed`. */
  function Kept(fks: seq<ForeignKey>, changed: seq<ForeignKey>, n: nat): seq<ForeignKey>
    requires n <= |fks|
  {
    if n == 0 then [] else Kept(fks, changed, n - 1) + (if fks[n - 1] in changed then [] else [fks[n - 1]])
  }

  /** One statement per kept foreign key, in order. */
  lemma {:induction false} KeptStatements(fks: seq<ForeignKey>, changed: seq<ForeignKey>, render: ForeignKey -> string, n: nat)
    requires n <= |fks|
    ensures var kept := Kept(fks, changed, n);
      var sql := ForeignKeyStatements(fks, changed, render, n);
      |sql| == |kept| && forall i :: 0 <= i < |kept| ==> sql[i] == render(kept[i])
    ensures forall fk :: fk in Kept(fks, changed, n) <==> fk in fks[..n] && fk !in changed
  {
    if n > 0 {
      KeptStatements(fks, changed, render, n - 1);
      assert fks[..n] == fks[..n - 1] + [fks[n - 1]];
    }
  }

  lemma {:induction false} RequiringRenamedMembers(p: Platform, fks: seq<ForeignKey>, renamed: seq<Index>, n: nat)
    requires n <= |fks|
    ensures forall fk :: fk in RequiringRenamed(p, fks, renamed, n) <==> fk in fks[..n] && IntersectsRenamed(p, fk, renamed)
  {
    if n > 0 {
      RequiringRenamedMembers(p, fks, renamed, n - 1);
      assert fks[..n] == fks[..n - 1] + [fks[n - 1]];
    }
  }

  /** A foreign key is recreated around the index renames exactly when the
      diff renames indexes, the old table has it, the diff does not remove
      it, and it intersects a renamed index. */
  lemma RemainingForeignKeysMembers(p: Platform, v: TableDiffValue, fk: ForeignKey)
    requires ValidValue(v)
    ensures fk in RemainingForeignKeys(p, v) <==>
      v.renamedIndexes.keys != [] && v.fromTable.Some? && fk in PresentValues(v.fromTable.value.foreignKeys) &&
      fk !in v.removedForeignKeys && IntersectsRenamed(p, fk, Values(v.renamedIndexes))
  {
    if v.renamedIndexes.keys != [] && v.fromTable.Some? {
      var remaining := Filter(PresentValues(v.fromTable.value.foreignKeys), NotIn(v.removedForeignKeys));
      RequiringRenamedMembers(p, remaining, Values(v.renamedIndexes), |remaining|);
      assert remaining[..|remaining|] == remaining;
      if fk in PresentValues(v.fromTable.value.foreignKeys) && fk !in v.removedForeignKeys {
        var i :| 0 <= i < |PresentValues(v.fromTable.value.foreignKeys)| && PresentValues(v.fromTable.value.foreignKeys)[i] == fk;
        assert NotIn(v.removedForeignKeys)(fk);
      }
    }
  }

  /** On the base platform the foreign keys dropped before the index
      renames are recreated after them, one for one and in the same order,
      under the table's new name: those that need a renamed index and that
      the diff does not change anyway. */
  lemma RenameIndexForeignKeysPaired(p: Platform, v: TableDiffValue)
    requires ValidValue(v) && p.variant == MySqlBase
    ensures var fks := RemainingForeignKeys(p, v);
      var kept := Kept(fks, v.changedForeignKeys, |fks|);
      var pre := RenameIndexForeignKeysPre(p, v);
      var post := RenameIndexForeignKeysPost(p, v);
      |pre| == |kept| && |post| == |kept| &&
      (forall i :: 0 <= i < |kept| ==>
        pre[i] == p.dropForeignKeySQL(kept[i], TableNamed(TableQuoted(p, v))) &&
        post[i] == p.createForeignKeySQL(kept[i], TableNamed(NewTableQuoted(p, v)))) &&
      (forall fk :: fk in kept <==> fk in fks && fk !in v.changedForeignKeys)
  {
    var fks := RemainingForeignKeys(p, v);
    KeptStatements(fks, v.changedForeignKeys, DropForeignKeyOn(p, TableQuoted(p, v)), |fks|);
    KeptStatements(fks, v.changedForeignKeys, CreateForeignKeyOn(p, NewTableQuoted(p, v)), |fks|);
    assert fks[..|fks|] == fks;
  }

  /** The foreign key hooks around index renames add nothing on the 5.7
      platform, nor when no index is renamed or there is no old table. */
  lemma RenameIndexForeignKeysQuiet(p: Platform, v: TableDiffValue)
    requires ValidValue(v)
    requires p.variant == MySql57 || v.renamedIndexes.keys == [] || v.fromTable.None?
    ensures RenameIndexForeignKeysPre(p, v) == [] && RenameIndexForeignKeysPost(p, v) == []
  {
  }
}

/** A schema: its tables and sequences keyed by their lower-cased, fully
    qualified names, and the namespaces they live in. */
module Schema {
  import opened Base
  import opened Errors
  import opened Asset
  import opened Arrays
  import opened Objects
  import opened Sequence
  import opened Platform
  import opened Visitor
  import opened CreateCollector
  import opened DropCollector

  /** The name a schema takes from its configuration; a missing or falsy
      name means `public`. */
  function SchemaAssetName(configName: Option<string>): (r: AssetName)
    ensures !SomeTruthy(configName) ==> r == AssetName("public", None, false)
  {
    SetName(Unnamed, if SomeTruthy(configName) then configName.value else "public")
  }

  /** A schema's name, tables and sequences at one moment. */
  datatype SchemaValue = SchemaValue(name: string, tables: Dict<Table>, sequences: Dict<Sequence>)

  /** getFullQualifiedAssetName in a schema named `schemaName`: unquote a
      quoted name, qualify a name without a dot with the schema name, and
      lower-case the result. */
  function QualifiedAssetName(schemaName: string, n: string): (r: string)
    ensures Lower(r) == r
    ensures '.' in Unquote(n) ==> r == Lower(Unquote(n))
    ensures '.' !in Unquote(n) ==> r == Lower(schemaName + "." + Unquote(n))
  {
    var u := Unquote(n);
    LowerIdempotent(if '.' in u then u else schemaName + "." + u);
    Lower(if '.' in u then u else schemaName + "." + u)
  }

  /** Qualifying twice, as getSequence and dropTable do, changes nothing
      as long as the schema name does not itself start with a quote. */
  lemma QualifiedAssetNameIdempotent(schemaName: string, n: string)
    requires !IsIdentifierQuoted(schemaName)
    ensures QualifiedAssetName(schemaName, QualifiedAssetName(schemaName, n)) == QualifiedAssetName(schemaName, n)
  {
    var u := Unquote(n);
    var f := QualifiedAssetName(schemaName, n);
    var pre := if '.' in u then u else schemaName + "." + u;
    assert f == Lower(pre);
    assert '.' in pre by {
      if '.' !in u { assert pre[|schemaName|] == '.'; }
    }
    assert '.' in f by {
      var i :| 0 <= i < |pre| && pre[i] == '.';
      assert f[i] == LowerChar(pre[i]);
    }
    assert !IsIdentifierQuoted(f) by {
      if IsIdentifierQuoted(n) && '.' in u {
        assert u[0] in u;
        assert !IsQuoteChar(u[0]);
      }
      if |pre| > 0 {
        assert pre[0] == (if '.' in u then u[0] else if |schemaName| > 0 then schemaName[0] else '.');
        assert f[0] == LowerChar(pre[0]);
      }
    }
    assert Unquote(f) == f;
  }

  /** hasTable */
  predicate HasTableIn(s: SchemaValue, tableName: string) {
    QualifiedAssetName(s.name, tableName) in s.tables.m
  }

  /** hasSequence */
  predicate HasSequenceIn(s: SchemaValue, sequenceName: string) {
    QualifiedAssetName(s.name, sequenceName) in s.sequences.m
  }

  class Schema {
    const name: AssetName
    /** The default table options of the schema configuration. */
    const defaultTableOptions: map<string, string>
    /** Lower-cased unquoted namespace name to the name as given. */
    var namespaces: Dict<string>
    var tables: Dict<Table>
    var sequences: Dict<Sequence>

    /** The schema's own name: the default namespace of its assets. */
    function SchemaName(): string {
      GetName(name)
    }

    /** hasNamespace: compared unquoted and case-insensitively. */
    predicate HasNamespace(namespaceName: string)
      reads this
    {
      NamespaceKey(namespaceName) in namespaces.m
    }

    /** An asset outside the default namespace has its namespace registered. */
    predicate Registered(a: AssetName)
      reads this
    {
      RegisteredIn(a, SchemaName(), namespaces.m)
    }

    /** Every table and sequence is stored under its fully qualified name,
        and its namespace is registered. */
    ghost predicate Valid()
      reads this
    {
      ValidDict(namespaces) && ValidDict(tables) && ValidDict(sequences) &&
      (forall k :: k in tables.m ==>
        k == GetFullQualifiedName(tables.m[k].name, SchemaName()) &&
        RegisteredIn(tables.m[k].name, SchemaName(), namespaces.m)) &&
      (forall k :: k in sequences.m ==>
        k == GetFullQualifiedName(sequences.m[k].name, SchemaName()) &&
        RegisteredIn(sequences.m[k].name, SchemaName(), namespaces.m))
    }

    /** The constructor names the schema after its configuration; the
        namespaces and sequences it is given are ignored (the code that
        registered them is commented out), and its tables are added by
        AddTables. */
    constructor(configName: Option<string>, defaultTableOptions: map<string, string>)
      ensures Valid()
      ensures name == SchemaAssetName(configName) && this.defaultTableOptions == defaultTableOptions
      ensures namespaces == Empty() && tables == Empty() && sequences == Empty()
    {
      name := SchemaAssetName(configName);
      this.defaultTableOptions := defaultTableOptions;
      namespaces := Empty();
      tables := Empty();
      sequences := Empty();
    }

    /** getFullQualifiedAssetName */
    function FullQualifiedAssetName(n: string): string {
      QualifiedAssetName(SchemaName(), n)
    }

    /** The name, tables and sequences as they are now. */
    function Value(): SchemaValue
      reads this
    {
      SchemaValue(SchemaName(), tables, sequences)
    }

    /** An asset is found under its own name: the lookup key of getName is
        the key _addTable stores it under, when no part holds a dot and the
        name does not start with a quote. */
    lemma FoundUnderItsName(a: AssetName)
      requires '.' !in a.name
      requires SomeTruthy(a.namespace) ==> '.' !in a.namespace.value
      requires !IsIdentifierQuoted(GetName(a))
      ensures FullQualifiedAssetName(GetName(a)) == GetFullQualifiedName(a, SchemaName())
    {
      if SomeTruthy(a.namespace) {
        assert GetName(a)[|a.namespace.value|] == '.';
        LowerDotted(a.namespace.value, a.name);
      } else {
        LowerDotted(SchemaName(), a.name);
      }
    }

    /** createNamespace: raises when the namespace, unquoted and lower-cased,
        is already registered; otherwise registers the name as given. */
    method CreateNamespace(namespaceName: string) returns (err: Option<Error>)
      requires Valid()
      modifies this
      ensures Valid()
      ensures var key := Lower(Unquote(namespaceName));
        if key in old(namespaces.m) then err == Some(NamespaceAlreadyExists(key)) && namespaces == old(namespaces)
        else err.None? && namespaces == Put(old(namespaces), key, namespaceName)
      ensures tables == old(tables) && sequences == old(sequences)
    {
      var key := Lower(Unquote(namespaceName));
      if key in namespaces.m {
        return Some(NamespaceAlreadyExists(key));
      }
      namespaces := Put(namespaces, key, namespaceName);
      err := None;
    }

    /** The namespace check shared by _addTable and _addSequence: an asset
        outside the default namespace registers its namespace when it is
        missing. */
    method RegisterNamespaceOf(a: AssetName)
      requires Valid()
      modifies this
      ensures Valid() && Registered(a)
      ensures namespaces == (if old(Registered(a)) then old(namespaces)
                             else Put(old(namespaces), Lower(Unquote(a.namespace.value)), a.namespace.value))
      ensures forall k :: k in old(namespaces.m) ==> k in namespaces.m
      ensures tables == old(tables) && sequences == old(sequences)
    {
      if !Registered(a) {
        var _ := CreateNamespace(a.namespace.value);
      }
    }

    /** _addTable: raises when the fully qualified name is taken; registers
        a missing namespace, then stores the table under that name. */
    method AddTable(t: Table) returns (err: Option<Error>)
      requires Valid()
      modifies this
      ensures Valid()
      ensures var key := GetFullQualifiedName(t.name, SchemaName());
        if key in old(tables.m) then
          err == Some(TableAlreadyExists(key)) && tables == old(tables) && namespaces == old(namespaces)
        else
          err.None? && tables == Put(old(tables), key, t) &&
          namespaces == (if old(Registered(t.name)) then old(namespaces)
                         else Put(old(namespaces), Lower(Unquote(t.name.namespace.value)), t.name.namespace.value))
      ensures sequences == old(sequences)
      ensures forall k :: k in old(tables.m) ==> k in tables.m
      ensures GetFullQualifiedName(t.name, SchemaName()) in tables.m
      ensures err.Some? ==> err == Some(TableAlreadyExists(GetFullQualifiedName(t.name, SchemaName())))
    {
      var key := GetFullQualifiedName(t.name, SchemaName());
      if key in tables.m {
        return Some(TableAlreadyExists(key));
      }
      RegisterNamespaceOf(t.name);
      tables := Put(tables, key, t);
      err := None;
    }

    /** _addSequence: the same rules as _addTable. */
    method AddSequence(s: Sequence) returns (err: Option<Error>)
      requires Valid()
      modifies this
      ensures Valid()
      ensures var key := GetFullQualifiedName(s.name, SchemaName());
        if key in old(sequences.m) then
          err == Some(SequenceAlreadyExists(key)) && sequences == old(sequences) && namespaces == old(namespaces)
        else
          err.None? && sequences == Put(old(sequences), key, s) &&
          namespaces == (if old(Registered(s.name)) then old(namespaces)
                         else Put(old(namespaces), Lower(Unquote(s.name.namespace.value)), s.name.namespace.value))
      ensures tables == old(tables)
    {
      var key := GetFullQualifiedName(s.name, SchemaName());
      if key in sequences.m {
        return Some(SequenceAlreadyExists(key));
      }
      RegisterNamespaceOf(s.name);
      sequences := Put(sequences, key, s);
      err := None;
    }

    /** The tables loop of the constructor: adds the tables in order and
        stops at the first name that is already taken. */
    method AddTables(ts: seq<Table>) returns (err: Option<Error>)
      requires Valid()
      modifies this
      ensures Valid()
      ensures err.None? ==> forall i :: 0 <= i < |ts| ==> GetFullQualifiedName(ts[i].name, SchemaName()) in tables.m
      ensures err.Some? ==> exists i :: 0 <= i < |ts| && err == Some(TableAlreadyExists(GetFullQualifiedName(ts[i].name, SchemaName())))
      ensures sequences == old(sequences)
    {
      var i := 0;
      while i < |ts|
        invariant 0 <= i <= |ts| && Valid()
        invariant forall j :: 0 <= j < i ==> GetFullQualifiedName(ts[j].name, SchemaName()) in tables.m
        invariant sequences == old(sequences)
      {
        err := AddNextTable(ts, i);
        if err.Some? {
          return;
        }
        i := i + 1;
      }
      err := None;
    }

    /** One pass of the tables loop. */
    method AddNextTable(ts: seq<Table>, i: nat) returns (err: Option<Error>)
      requires Valid() && i < |ts|
      requires forall j :: 0 <= j < i ==> GetFullQualifiedName(ts[j].name, SchemaName()) in tables.m
      modifies this
      ensures Valid() && sequences == old(sequences)
      ensures err.None? ==> forall j :: 0 <= j <= i ==> GetFullQualifiedName(ts[j].name, SchemaName()) in tables.m
      ensures err.Some? ==> err == Some(TableAlreadyExists(GetFullQualifiedName(ts[i].name, SchemaName())))
    {
      err := AddTable(ts[i]);
    }

    predicate HasTable(tableName: string)
      reads this
    {
      HasTableIn(Value(), tableName)
    }

    /** getTable: does-not-exist for an absent name. */
    function GetTable(tableName: string): (r: Result<Table, Error>)
      reads this
      ensures r.Ok? <==> HasTable(tableName)
      ensures r.Ok? ==> r.value == tables.m[FullQualifiedAssetName(tableName)]
      ensures r.Err? ==> r.error == TableDoesNotExist(FullQualifiedAssetName(tableName))
    {
      var key := FullQualifiedAssetName(tableName);
      if key in tables.m then Ok(tables.m[key]) else Err(TableDoesNotExist(key))
    }

    predicate HasSequence(sequenceName: string)
      reads this
    {
      HasSequenceIn(Value(), sequenceName)
    }

    /** getSequence qualifies the name, then asks hasSequence, which
        qualifies it once more; the stored entry is read under the name
        qualified once, so a missing entry there is PHP's null, None. */
    function GetSequence(sequenceName: string): (r: Result<Option<Sequence>, Error>)
      reads this
      ensures var key := FullQualifiedAssetName(sequenceName);
        (r.Err? <==> !HasSequence(key)) &&
        (r.Err? ==> r.error == SequenceDoesNotExist(key)) &&
        (r.Ok? ==> r.value == (if key in sequences.m then Some(sequences.m[key]) else None))
    {
      var key := FullQualifiedAssetName(sequenceName);
      if !HasSequence(key) then Err(SequenceDoesNotExist(key))
      else if key in sequences.m then Ok(Some(sequences.m[key]))
      else Ok(None)
    }

    /** When the schema name does not start with a quote, getSequence finds
        exactly what hasSequence reports. */
    lemma GetSequenceFinds(sequenceName: string)
      requires !IsIdentifierQuoted(SchemaName())
      ensures GetSequence(sequenceName).Ok? <==> HasSequence(sequenceName)
      ensures HasSequence(sequenceName) ==>
        GetSequence(sequenceName) == Ok(Some(sequences.m[FullQualifiedAssetName(sequenceName)]))
    {
      QualifiedAssetNameIdempotent(SchemaName(), sequenceName);
    }

    /** dropTable: qualifies the name, checks it through getTable (which
        qualifies it again) and removes that one key. */
    method DropTable(tableName: string) returns (err: Option<Error>)
      requires Valid()
      modifies this
      ensures Valid()
      ensures var key := FullQualifiedAssetName(tableName);
        if FullQualifiedAssetName(key) !in old(tables.m) then
          err == Some(TableDoesNotExist(FullQualifiedAssetName(key))) && tables == old(tables)
        else err.None? && tables == Remove(old(tables), key)
      ensures namespaces == old(namespaces) && sequences == old(sequences)
    {
      var key := FullQualifiedAssetName(tableName);
      var checked := FullQualifiedAssetName(key);
      if checked !in tables.m {
        return Some(TableDoesNotExist(checked));
      }
      tables := Remove(tables, key);
      err := None;
    }

    /** createTable: a new table of that name is added and takes the
        default table options of the configuration. */
    method CreateTable(tableName: string) returns (t: Table, err: Option<Error>)
      requires Valid()
      modifies this
      ensures Valid()
      ensures t == NewTable(tableName, defaultTableOptions)
      ensures var key := GetFullQualifiedName(t.name, SchemaName());
        (err.Some? <==> key in old(tables.m)) &&
        (err.Some? ==> err == Some(TableAlreadyExists(key)) && tables == old(tables)) &&
        (err.None? ==> tables == Put(old(tables), key, t))
      ensures sequences == old(sequences)
    {
      t := NewTable(tableName, defaultTableOptions);
      err := AddTable(t);
    }

    /** createSequence */
    method CreateSequence(sequenceName: string, allocationSize: NumArg, initialValue: NumArg)
      returns (s: Sequence, err: Option<Error>)
      requires Valid()
      modifies this
      ensures Valid()
      ensures s == NewSequence(sequenceName, allocationSize, initialValue, None)
      ensures var key := GetFullQualifiedName(s.name, SchemaName());
        (err.Some? <==> key in old(sequences.m)) &&
        (err.Some? ==> err == Some(SequenceAlreadyExists(key)) && sequences == old(sequences)) &&
        (err.None? ==> sequences == Put(old(sequences), key, s))
      ensures tables == old(tables)
    {
      s := NewSequence(sequenceName, allocationSize, initialValue, None);
      err := AddSequence(s);
    }

    /** dropSequence: silent when the sequence is absent. */
    method DropSequence(sequenceName: string)
      requires Valid()
      modifies this
      ensures Valid()
      ensures sequences == Remove(old(sequences), FullQualifiedAssetName(sequenceName))
      ensures tables == old(tables) && namespaces == old(namespaces)
    {
      sequences := Remove(sequences, FullQualifiedAssetName(sequenceName));
    }

    /** renameTable: the table found under the old name is renamed, the old
        key is dropped and the renamed table is added under its new name.
        When the new name is taken the old entry is already gone. */
    method RenameTable(oldTableName: string, newTableName: string) returns (err: Option<Error>)
      requires Valid()
      modifies this
      ensures Valid()
      ensures old(GetTable(oldTableName)).Err? ==>
        err == Some(old(GetTable(oldTableName)).error) && tables == old(tables)
      ensures old(GetTable(oldTableName)).Ok? ==>
        var t := old(GetTable(oldTableName)).value;
        var renamed := t.(name := SetName(t.name, newTableName));
        var key := FullQualifiedAssetName(oldTableName);
        var newKey := GetFullQualifiedName(renamed.name, SchemaName());
        if FullQualifiedAssetName(key) !in old(tables.m) then
          err == Some(TableDoesNotExist(FullQualifiedAssetName(key))) && tables == old(tables)
        else if newKey in Remove(old(tables), key).m then
          err == Some(TableAlreadyExists(newKey)) && tables == Remove(old(tables), key)
        else
          err.None? && tables == Put(Remove(old(tables), key), newKey, renamed)
      ensures sequences == old(sequences)
    {
      var r := GetTable(oldTableName);
      if r.Err? {
        return Some(r.error);
      }
      var t := r.value;
      var renamed := t.(name := SetName(t.name, newTableName));
      err := DropTable(oldTableName);
      if err.Some? {
        return;
      }
      err := AddTable(renamed);
    }

    /** The visits of visit(): the schema, its namespaces, each table
        followed by its foreign keys, then the sequences. */
    function Events(): (es: seq<Event>)
      requires Valid()
      reads this
      ensures |es| >= 1 && es[0] == SchemaEvent
    {
      [SchemaEvent] + NamespaceEvents(Values(namespaces)) + TableEvents(Values(tables)) +
      SequenceEvents(Values(sequences))
    }

    /** toSql: what the create collector gathers from the visit. */
    method ToSql(p: Platform) returns (sql: seq<string>)
      requires Valid()
      ensures sql == CreateSql(p, Events())
    {
      var es := Events();
      var collector := new CreateSchemaSqlCollector(p);
      collector.AcceptAll(es);
      assert collector.namespaceQueries == Gather(es, NamespaceOf(p));
      assert collector.tableQueries == Gather(es, TableOf(p));
      assert collector.sequenceQueries == Gather(es, SequenceOf(p));
      assert collector.foreignKeyQueries == Gather(es, ForeignKeyOf(p));
      sql := collector.GetQueries();
    }

    /** toDropSql: what the drop collector gathers from the visit, or the
        error of the first unnamed foreign key. */
    method ToDropSql(p: Platform) returns (r: Result<seq<string>, Error>)
      requires Valid()
      ensures r == DropSql(p, Events())
    {
      var collector := new DropSchemaSqlCollector(p);
      var err := collector.AcceptAll(Events());
      if err.Some? {
        return Err(err.value);
      }
      var sql := collector.GetQueries();
      r := Ok(sql);
    }
  }

  /** The key hasNamespace and createNamespace look a namespace up by. */
  function NamespaceKey(n: string): string {
    Lower(Unquote(n))
  }

  /** An asset is in the default namespace, or its namespace is registered. */
  predicate RegisteredIn(a: AssetName, defaultNamespace: string, namespaces: map<string, string>) {
    IsInDefaultNamespace(a, defaultNamespace) || NamespaceKey(a.namespace.value) in namespaces
  }

  /** `new Table($tableName)` followed by the default options. */
  function NewTable(tableName: string, options: map<string, string>): (t: Table)
    ensures WellFormed(t) && t.name == NewIdentifier(tableName) && t.options == options
  {
    Table(NewIdentifier(tableName), Empty(), Empty(), None, Empty(), options)
  }

  function NamespaceEvents(ns: seq<string>): (es: seq<Event>)
    ensures |es| == |ns| && forall i :: 0 <= i < |ns| ==> es[i] == NamespaceEvent(ns[i])
  {
    seq(|ns|, i requires 0 <= i < |ns| => NamespaceEvent(ns[i]))
  }

  /** Table::visit as far as the collectors see it: the table, then each of
      its foreign keys. */
  function TableEvents(ts: seq<Table>): seq<Event> {
    if |ts| == 0 then []
    else
      var t := ts[0];
      var fks := PresentValues(t.foreignKeys);
      [TableEvent(t)] + seq(|fks|, i requires 0 <= i < |fks| => ForeignKeyEvent(t, fks[i])) + TableEvents(ts[1..])
  }

  function SequenceEvents(ss: seq<Sequence>): (es: seq<Event>)
    ensures |es| == |ss| && forall i :: 0 <= i < |ss| ==> es[i] == SequenceEvent(ss[i])
  {
    seq(|ss|, i requires 0 <= i < |ss| => SequenceEvent(ss[i]))
  }
}

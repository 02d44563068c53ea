/** The visitor that collects the statements creating a whole schema. */
module CreateCollector {
  import opened Base
  import opened Objects
  import opened Sequence
  import opened Platform
  import opened Visitor

  /** What one visit adds to each of the four lists. */
  function NamespaceStatements(p: Platform, e: Event): seq<string> {
    if e.NamespaceEvent? && p.supportsSchemas then [p.createSchemaSQL(e.namespace)] else []
  }

  function TableStatements(p: Platform, e: Event): seq<string> {
    if e.TableEvent? then p.createTableSQL(e.table) else []
  }

  function SequenceStatements(p: Platform, e: Event): seq<string> {
    if e.SequenceEvent? then [p.createSequenceSQL(e.sequence)] else []
  }

  function ForeignKeyStatements(p: Platform, e: Event): seq<string> {
    if e.ForeignKeyEvent? && p.supportsForeignKeyConstraints then
      [p.createForeignKeySQL(e.fk, TableObject(e.localTable))]
    else []
  }

  function NamespaceOf(p: Platform): Event -> seq<string> {
    e => NamespaceStatements(p, e)
  }

  function TableOf(p: Platform): Event -> seq<string> {
    e => TableStatements(p, e)
  }

  function SequenceOf(p: Platform): Event -> seq<string> {
    e => SequenceStatements(p, e)
  }

  function ForeignKeyOf(p: Platform): Event -> seq<string> {
    e => ForeignKeyStatements(p, e)
  }

  /** What getQueries returns after a fresh collector saw the visits es:
      namespaces, then tables, then sequences, then foreign keys, each in
      the order the visits came. */
  function CreateSql(p: Platform, es: seq<Event>): seq<string> {
    Gather(es, NamespaceOf(p)) + Gather(es, TableOf(p)) +
    Gather(es, SequenceOf(p)) + Gather(es, ForeignKeyOf(p))
  }

  class CreateSchemaSqlCollector {
    const platform: Platform
    var namespaceQueries: seq<string>
    var tableQueries: seq<string>
    var sequenceQueries: seq<string>
    var foreignKeyQueries: seq<string>

    constructor(platform: Platform)
      ensures this.platform == platform
      ensures namespaceQueries == [] && tableQueries == [] && sequenceQueries == [] && foreignKeyQueries == []
    {
      this.platform := platform;
      namespaceQueries := [];
      tableQueries := [];
      sequenceQueries := [];
      foreignKeyQueries := [];
    }

    /** The four lists in the order getQueries concatenates them. */
    function Queries(): seq<string>
      reads this
    {
      namespaceQueries + tableQueries + sequenceQueries + foreignKeyQueries
    }

    /** acceptNamespace: only when the platform supports schemas. */
    method AcceptNamespace(namespace: string)
      modifies this
      ensures namespaceQueries == old(namespaceQueries) + NamespaceStatements(platform, NamespaceEvent(namespace))
      ensures tableQueries == old(tableQueries) && sequenceQueries == old(sequenceQueries)
      ensures foreignKeyQueries == old(foreignKeyQueries)
    {
      if platform.supportsSchemas {
        namespaceQueries := namespaceQueries + [platform.createSchemaSQL(namespace)];
      }
    }

    /** acceptTable */
    method AcceptTable(table: Table)
      modifies this
      ensures tableQueries == old(tableQueries) + platform.createTableSQL(table)
      ensures namespaceQueries == old(namespaceQueries) && sequenceQueries == old(sequenceQueries)
      ensures foreignKeyQueries == old(foreignKeyQueries)
    {
      tableQueries := tableQueries + platform.createTableSQL(table);
    }

    /** acceptForeignKey: only when the platform supports foreign keys. */
    method AcceptForeignKey(localTable: Table, fk: ForeignKey)
      modifies this
      ensures foreignKeyQueries == old(foreignKeyQueries) + ForeignKeyStatements(platform, ForeignKeyEvent(localTable, fk))
      ensures namespaceQueries == old(namespaceQueries) && tableQueries == old(tableQueries)
      ensures sequenceQueries == old(sequenceQueries)
    {
      if platform.supportsForeignKeyConstraints {
        foreignKeyQueries := foreignKeyQueries + [platform.createForeignKeySQL(fk, TableObject(localTable))];
      }
    }

    /** acceptSequence */
    method AcceptSequence(sequence: Sequence)
      modifies this
      ensures sequenceQueries == old(sequenceQueries) + [platform.createSequenceSQL(sequence)]
      ensures namespaceQueries == old(namespaceQueries) && tableQueries == old(tableQueries)
      ensures foreignKeyQueries == old(foreignKeyQueries)
    {
      sequenceQueries := sequenceQueries + [platform.createSequenceSQL(sequence)];
    }

    /** One visit, dispatched to the accept method it calls. */
    method Accept(e: Event)
      modifies this
      ensures namespaceQueries == old(namespaceQueries) + NamespaceStatements(platform, e)
      ensures tableQueries == old(tableQueries) + TableStatements(platform, e)
      ensures sequenceQueries == old(sequenceQueries) + SequenceStatements(platform, e)
      ensures foreignKeyQueries == old(foreignKeyQueries) + ForeignKeyStatements(platform, e)
    {
      match e
      case SchemaEvent =>
      case NamespaceEvent(n) => AcceptNamespace(n);
      case TableEvent(t) => AcceptTable(t);
      case ForeignKeyEvent(t, fk) => AcceptForeignKey(t, fk);
      case SequenceEvent(s) => AcceptSequence(s);
    }

    /** Each visit only appends: after a run of visits every list has grown
        by what those visits contribute. */
    method AcceptAll(es: seq<Event>)
      modifies this
      ensures namespaceQueries == old(namespaceQueries) + Gather(es, NamespaceOf(platform))
      ensures tableQueries == old(tableQueries) + Gather(es, TableOf(platform))
      ensures sequenceQueries == old(sequenceQueries) + Gather(es, SequenceOf(platform))
      ensures foreignKeyQueries == old(foreignKeyQueries) + Gather(es, ForeignKeyOf(platform))
    {
      var i := 0;
      while i < |es|
        invariant 0 <= i <= |es|
        invariant namespaceQueries == old(namespaceQueries) + Gather(es[..i], NamespaceOf(platform))
        invariant tableQueries == old(tableQueries) + Gather(es[..i], TableOf(platform))
        invariant sequenceQueries == old(sequenceQueries) + Gather(es[..i], SequenceOf(platform))
        invariant foreignKeyQueries == old(foreignKeyQueries) + Gather(es[..i], ForeignKeyOf(platform))
      {
        ghost var n, t, s, k := namespaceQueries, tableQueries, sequenceQueries, foreignKeyQueries;
        Accept(es[i]);
        GatherExtends(old(namespaceQueries), n, es, i, NamespaceOf(platform));
        GatherExtends(old(tableQueries), t, es, i, TableOf(platform));
        GatherExtends(old(sequenceQueries), s, es, i, SequenceOf(platform));
        GatherExtends(old(foreignKeyQueries), k, es, i, ForeignKeyOf(platform));
        i := i + 1;
      }
      assert es[..|es|] == es;
    }

    /** resetQueries */
    method ResetQueries()
      modifies this
      ensures namespaceQueries == [] && tableQueries == [] && sequenceQueries == [] && foreignKeyQueries == []
      ensures Queries() == []
    {
      namespaceQueries := [];
      tableQueries := [];
      sequenceQueries := [];
      foreignKeyQueries := [];
    }

    /** getQueries: the four lists, one after the other. */
    method GetQueries() returns (sql: seq<string>)
      ensures sql == Queries()
    {
      sql := [];
      var lists := [namespaceQueries, tableQueries, sequenceQueries, foreignKeyQueries];
      var k := 0;
      while k < 4
        invariant 0 <= k <= 4
        invariant sql == Flatten(lists[..k])
      {
        var i := 0;
        var before := sql;
        while i < |lists[k]|
          invariant 0 <= i <= |lists[k]|
          invariant sql == before + lists[k][..i]
        {
          sql := sql + [lists[k][i]];
          i := i + 1;
        }
        assert lists[k][..|lists[k]|] == lists[k];
        FlattenAppend(lists[..k], lists[k]);
        assert lists[..k + 1] == lists[..k] + [lists[k]];
        k := k + 1;
      }
      assert lists[..4] == lists;
      assert lists[1..] == [tableQueries, sequenceQueries, foreignKeyQueries];
      assert lists[1..][1..] == [sequenceQueries, foreignKeyQueries];
      assert lists[1..][1..][1..] == [foreignKeyQueries];
      assert Flatten([foreignKeyQueries]) == foreignKeyQueries + Flatten<string>([]);
      assert Flatten(lists[1..][1..]) == sequenceQueries + foreignKeyQueries;
      assert Flatten(lists[1..]) == tableQueries + (sequenceQueries + foreignKeyQueries);
      assert Flatten(lists) == namespaceQueries + (tableQueries + (sequenceQueries + foreignKeyQueries));
    }
  }

  /** Without schema support no namespace is created, and without foreign
      key support no constraint is, whatever the visits. */
  lemma CapabilityGates(p: Platform, es: seq<Event>)
    ensures !p.supportsSchemas ==> Gather(es, NamespaceOf(p)) == []
    ensures !p.supportsForeignKeyConstraints ==> Gather(es, ForeignKeyOf(p)) == []
  {
    if !p.supportsSchemas {
      GatherNothing(es, NamespaceOf(p));
    }
    if !p.supportsForeignKeyConstraints {
      GatherNothing(es, ForeignKeyOf(p));
    }
  }

  /** Splitting the visits anywhere: the statements of the later visits of
      each kind follow those of the earlier ones, and every namespace
      statement precedes every table statement, whichever came first. */
  lemma CreateSqlSplit(p: Platform, a: seq<Event>, b: seq<Event>)
    ensures CreateSql(p, a + b) ==
      (Gather(a, NamespaceOf(p)) + Gather(b, NamespaceOf(p))) +
      (Gather(a, TableOf(p)) + Gather(b, TableOf(p))) +
      (Gather(a, SequenceOf(p)) + Gather(b, SequenceOf(p))) +
      (Gather(a, ForeignKeyOf(p)) + Gather(b, ForeignKeyOf(p)))
  {
    GatherAppend(a, b, NamespaceOf(p));
    GatherAppend(a, b, TableOf(p));
    GatherAppend(a, b, SequenceOf(p));
    GatherAppend(a, b, ForeignKeyOf(p));
  }
}

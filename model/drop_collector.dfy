/** The visitor that collects the statements dropping a whole schema. Its
    three stores are object sets: attaching the same object again keeps a
    single entry, in its first place. */
module DropCollector {
  import opened Base
  import opened Errors
  import opened Objects
  import opened Sequence
  import opened Platform
  import opened Visitor

  /** SplObjectStorage::attach without data. */
  function Attach<T(==)>(s: seq<T>, x: T): (r: seq<T>)
    ensures x in r
    ensures Distinct(s) ==> Distinct(r)
    ensures |s| <= |r| <= |s| + 1 && r[..|s|] == s
    ensures x in s ==> r == s
  {
    if x in s then s else s + [x]
  }

  /** SplObjectStorage::attach with data: a constraint already present keeps
      its place and takes the new local table. */
  function AttachFk(cs: seq<(ForeignKey, Table)>, fk: ForeignKey, t: Table): (r: seq<(ForeignKey, Table)>)
    ensures |r| == |cs| || r == cs + [(fk, t)]
    ensures Distinct(Keys(cs)) ==> Distinct(Keys(r))
    ensures exists i :: 0 <= i < |r| && r[i] == (fk, t)
    ensures forall i :: 0 <= i < |r| && r[i].0 != fk ==> i < |cs| && r[i] == cs[i]
  {
    if fk in Keys(cs) then
      var i := FirstFk(cs, fk);
      assert cs[i := (fk, t)][i] == (fk, t);
      cs[i := (fk, t)]
    else
      assert Keys(cs + [(fk, t)]) == Keys(cs) + [fk];
      assert (cs + [(fk, t)])[|cs|] == (fk, t);
      cs + [(fk, t)]
  }

  function Keys(cs: seq<(ForeignKey, Table)>): (r: seq<ForeignKey>)
    ensures |r| == |cs| && forall i :: 0 <= i < |cs| ==> r[i] == cs[i].0
  {
    seq(|cs|, i requires 0 <= i < |cs| => cs[i].0)
  }

  function FirstFk(cs: seq<(ForeignKey, Table)>, fk: ForeignKey): (i: nat)
    requires fk in Keys(cs)
    ensures i < |cs| && cs[i].0 == fk
  {
    if cs[0].0 == fk then 0 else
      assert Keys(cs[1..]) == Keys(cs)[1..];
      1 + FirstFk(cs[1..], fk)
  }

  /** Attaching the same object twice has the effect of attaching it once. */
  lemma AttachTwice<T>(s: seq<T>, x: T)
    ensures Attach(Attach(s, x), x) == Attach(s, x)
  {
  }

  class DropSchemaSqlCollector {
    const platform: Platform
    var constraints: seq<(ForeignKey, Table)>
    var sequences: seq<Sequence>
    var tables: seq<Table>

    ghost predicate Valid()
      reads this
    {
      Distinct(Keys(constraints)) && Distinct(sequences) && Distinct(tables)
    }

    /** The constructor starts from cleared stores. */
    constructor(platform: Platform)
      ensures this.platform == platform && Valid()
      ensures constraints == [] && sequences == [] && tables == []
    {
      this.platform := platform;
      constraints := [];
      sequences := [];
      tables := [];
    }

    /** acceptTable */
    method AcceptTable(table: Table)
      requires Valid()
      modifies this
      ensures Valid()
      ensures tables == Attach(old(tables), table)
      ensures constraints == old(constraints) && sequences == old(sequences)
    {
      tables := Attach(tables, table);
    }

    /** acceptForeignKey: an unnamed constraint cannot be dropped, so it
        raises and nothing is stored. */
    method AcceptForeignKey(localTable: Table, fk: ForeignKey) returns (err: Option<Error>)
      requires Valid()
      modifies this
      ensures Valid()
      ensures |fk.name| == 0 <==> err == Some(NamedForeignKeyRequired)
      ensures |fk.name| == 0 ==> constraints == old(constraints)
      ensures |fk.name| != 0 ==> err.None? && constraints == AttachFk(old(constraints), fk, localTable)
      ensures tables == old(tables) && sequences == old(sequences)
    {
      if |fk.name| == 0 {
        return Some(NamedForeignKeyRequired);
      }
      constraints := AttachFk(constraints, fk, localTable);
      err := None;
    }

    /** acceptSequence */
    method AcceptSequence(sequence: Sequence)
      requires Valid()
      modifies this
      ensures Valid()
      ensures sequences == Attach(old(sequences), sequence)
      ensures constraints == old(constraints) && tables == old(tables)
    {
      sequences := Attach(sequences, sequence);
    }

    /** One visit, dispatched to the accept method it calls. */
    method Accept(e: Event) returns (err: Option<Error>)
      requires Valid()
      modifies this
      ensures Valid()
      ensures (err, constraints, sequences, tables) == Step((old(constraints), old(sequences), old(tables)), e)
    {
      err := None;
      match e
      case SchemaEvent =>
      case NamespaceEvent(_) =>
      case TableEvent(t) => AcceptTable(t);
      case ForeignKeyEvent(t, fk) => err := AcceptForeignKey(t, fk);
      case SequenceEvent(s) => AcceptSequence(s);
    }

    /** A run of visits, stopped by the first one that raises: the stores
        end as the run leaves them, or the error is returned. */
    method AcceptAll(es: seq<Event>) returns (err: Option<Error>)
      requires Valid()
      modifies this
      ensures Valid()
      ensures var r := Run((old(constraints), old(sequences), old(tables)), es);
        (r.Ok? ==> err.None? && (constraints, sequences, tables) == r.value) &&
        (r.Err? ==> err == Some(r.error))
    {
      var i := 0;
      while i < |es|
        invariant 0 <= i <= |es| && Valid()
        invariant Run((old(constraints), old(sequences), old(tables)), es) ==
          Run((constraints, sequences, tables), es[i..])
      {
        assert es[i..][0] == es[i] && es[i..][1..] == es[i + 1..];
        err := Accept(es[i]);
        if err.Some? {
          return;
        }
        i := i + 1;
      }
      err := None;
    }

    /** clearQueries: fresh, empty stores. */
    method ClearQueries()
      modifies this
      ensures Valid()
      ensures constraints == [] && sequences == [] && tables == []
    {
      constraints := [];
      sequences := [];
      tables := [];
    }

    /** What getQueries returns: the constraint drops, each against the
        local table recorded when it was attached, then the sequence
        drops, then the table drops. */
    function Queries(): seq<string>
      reads this
    {
      DropStatements(platform, constraints, sequences, tables)
    }

    method GetQueries() returns (sql: seq<string>)
      ensures sql == Queries()
    {
      sql := [];
      var i := 0;
      while i < |constraints|
        invariant 0 <= i <= |constraints|
        invariant sql == ConstraintDrops(platform, constraints[..i])
      {
        assert constraints[..i + 1][..i] == constraints[..i];
        sql := sql + [platform.dropForeignKeySQL(constraints[i].0, TableObject(constraints[i].1))];
        i := i + 1;
      }
      assert constraints[..|constraints|] == constraints;
      var fkSql := sql;
      i := 0;
      while i < |sequences|
        invariant 0 <= i <= |sequences|
        invariant sql == fkSql + SequenceDrops(platform, sequences[..i])
      {
        assert sequences[..i + 1][..i] == sequences[..i];
        sql := sql + [platform.dropSequenceSQL(sequences[i])];
        i := i + 1;
      }
      assert sequences[..|sequences|] == sequences;
      var seqSql := sql;
      i := 0;
      while i < |tables|
        invariant 0 <= i <= |tables|
        invariant sql == seqSql + TableDrops(platform, tables[..i])
      {
        assert tables[..i + 1][..i] == tables[..i];
        sql := sql + [platform.dropTableSQL(tables[i])];
        i := i + 1;
      }
      assert tables[..|tables|] == tables;
    }
  }

  function ConstraintDrops(p: Platform, cs: seq<(ForeignKey, Table)>): seq<string> {
    if |cs| == 0 then []
    else ConstraintDrops(p, cs[..|cs| - 1]) + [p.dropForeignKeySQL(cs[|cs| - 1].0, TableObject(cs[|cs| - 1].1))]
  }

  function SequenceDrops(p: Platform, ss: seq<Sequence>): seq<string> {
    if |ss| == 0 then [] else SequenceDrops(p, ss[..|ss| - 1]) + [p.dropSequenceSQL(ss[|ss| - 1])]
  }

  function TableDrops(p: Platform, ts: seq<Table>): seq<string> {
    if |ts| == 0 then [] else TableDrops(p, ts[..|ts| - 1]) + [p.dropTableSQL(ts[|ts| - 1])]
  }

  function DropStatements(p: Platform, cs: seq<(ForeignKey, Table)>, ss: seq<Sequence>, ts: seq<Table>): seq<string> {
    ConstraintDrops(p, cs) + SequenceDrops(p, ss) + TableDrops(p, ts)
  }

  /** One store per kind of drop, one statement per stored object. */
  lemma {:induction false} DropCounts(p: Platform, cs: seq<(ForeignKey, Table)>, ss: seq<Sequence>, ts: seq<Table>)
    ensures |ConstraintDrops(p, cs)| == |cs| && |SequenceDrops(p, ss)| == |ss| && |TableDrops(p, ts)| == |ts|
    ensures forall i :: 0 <= i < |cs| ==>
      DropStatements(p, cs, ss, ts)[i] == p.dropForeignKeySQL(cs[i].0, TableObject(cs[i].1))
    ensures forall i :: 0 <= i < |ts| ==>
      DropStatements(p, cs, ss, ts)[|cs| + |ss| + i] == p.dropTableSQL(ts[i])
  {
    ConstraintDropsAt(p, cs);
    SequenceDropsLength(p, ss);
    TableDropsAt(p, ts);
  }

  lemma {:induction false} ConstraintDropsAt(p: Platform, cs: seq<(ForeignKey, Table)>)
    ensures |ConstraintDrops(p, cs)| == |cs|
    ensures forall i :: 0 <= i < |cs| ==> ConstraintDrops(p, cs)[i] == p.dropForeignKeySQL(cs[i].0, TableObject(cs[i].1))
    decreases |cs|
  {
    if |cs| > 0 {
      ConstraintDropsAt(p, cs[..|cs| - 1]);
    }
  }

  lemma {:induction false} SequenceDropsLength(p: Platform, ss: seq<Sequence>)
    ensures |SequenceDrops(p, ss)| == |ss|
    decreases |ss|
  {
    if |ss| > 0 {
      SequenceDropsLength(p, ss[..|ss| - 1]);
    }
  }

  lemma {:induction false} TableDropsAt(p: Platform, ts: seq<Table>)
    ensures |TableDrops(p, ts)| == |ts|
    ensures forall i :: 0 <= i < |ts| ==> TableDrops(p, ts)[i] == p.dropTableSQL(ts[i])
    decreases |ts|
  {
    if |ts| > 0 {
      TableDropsAt(p, ts[..|ts| - 1]);
    }
  }

  /** The stores as a visit leaves them, with the error it raises. */
  function Step(st: (seq<(ForeignKey, Table)>, seq<Sequence>, seq<Table>), e: Event)
    : (Option<Error>, seq<(ForeignKey, Table)>, seq<Sequence>, seq<Table>)
  {
    match e
    case TableEvent(t) => (None, st.0, st.1, Attach(st.2, t))
    case SequenceEvent(s) => (None, st.0, Attach(st.1, s), st.2)
    case ForeignKeyEvent(t, fk) =>
      if |fk.name| == 0 then (Some(NamedForeignKeyRequired), st.0, st.1, st.2)
      else (None, AttachFk(st.0, fk, t), st.1, st.2)
    case _ => (None, st.0, st.1, st.2)
  }

  /** The statements dropping everything a run of visits showed, or the
      error of the first unnamed foreign key, which stops the walk. */
  function DropSql(p: Platform, es: seq<Event>): Result<seq<string>, Error> {
    match Run(([], [], []), es)
    case Ok(st) => Ok(DropStatements(p, st.0, st.1, st.2))
    case Err(e) => Err(e)
  }

  function Run(st: (seq<(ForeignKey, Table)>, seq<Sequence>, seq<Table>), es: seq<Event>)
    : Result<(seq<(ForeignKey, Table)>, seq<Sequence>, seq<Table>), Error>
    decreases |es|
  {
    if |es| == 0 then Ok(st)
    else
      var r := Step(st, es[0]);
      if r.0.Some? then Err(r.0.value) else Run((r.1, r.2, r.3), es[1..])
  }

  /** A walk fails exactly when it meets a foreign key without a name. */
  lemma {:induction false} RunFailsIff(st: (seq<(ForeignKey, Table)>, seq<Sequence>, seq<Table>), es: seq<Event>)
    ensures Run(st, es).Err? <==>
      exists i :: 0 <= i < |es| && es[i].ForeignKeyEvent? && |es[i].fk.name| == 0
    ensures Run(st, es).Err? ==> Run(st, es).error == NamedForeignKeyRequired
    decreases |es|
  {
    if |es| > 0 {
      var r := Step(st, es[0]);
      if r.0.None? {
        RunFailsIff((r.1, r.2, r.3), es[1..]);
        if exists i :: 0 <= i < |es| && es[i].ForeignKeyEvent? && |es[i].fk.name| == 0 {
          var i :| 0 <= i < |es| && es[i].ForeignKeyEvent? && |es[i].fk.name| == 0;
          assert i > 0;
          assert es[1..][i - 1] == es[i];
        }
        if exists i :: 0 <= i < |es[1..]| && es[1..][i].ForeignKeyEvent? && |es[1..][i].fk.name| == 0 {
          var i :| 0 <= i < |es[1..]| && es[1..][i].ForeignKeyEvent? && |es[1..][i].fk.name| == 0;
          assert es[i + 1] == es[1..][i];
        }
      }
    }
  }
}

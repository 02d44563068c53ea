/** Schema introspection on MySQL: reading DESCRIBE rows back into columns,
    SHOW INDEX rows into indexes and information_schema rows into foreign
    keys, views, tables, databases, sequences and users. */
module MySqlSchemaManager {
  import opened Base
  import opened Arrays
  import opened Asset
  import opened Types
  import opened Index
  import opened Objects
  import opened Platform
  import opened SchemaManager
  import MySql

  // ---------------------------------------------------------------------
  // Reading a column type

  /** The delimiters the type is tokenised on. */
  const TypeDelims: set<char> := {'(', ')', ',', ' '}

  /** Length of the run of non-delimiters at the start of s. */
  function TokenRun(s: string): (n: nat)
    ensures n <= |s|
    ensures forall i :: 0 <= i < n ==> s[i] !in TypeDelims
    ensures n < |s| ==> s[n] in TypeDelims
  {
    if |s| > 0 && s[0] !in TypeDelims then 1 + TokenRun(s[1..]) else 0
  }

  /** strtok: the first token (empty when there is none, where PHP answers
      false) and the text after the delimiter that ends it. */
  function Strtok(s: string): (r: (string, string))
    ensures forall i :: 0 <= i < |r.0| ==> r.0[i] !in TypeDelims
    ensures |r.1| < |s| || r.1 == ""
  {
    var t := TrimLeft(s, TypeDelims);
    var n := TokenRun(t);
    (t[..n], if n < |t| then t[n + 1..] else "")
  }

  /** The base type: the first token of the lower-cased type. */
  function DbType(typ: string): string {
    Strtok(Lower(typ)).0
  }

  /** The token after the base type (the length of `varchar(255)`). */
  function SecondToken(typ: string): Option<string> {
    var t := Strtok(Strtok(Lower(typ)).1).0;
    if t == "" then None else Some(t)
  }

  /** The value list of an enum or set: what lies between the first `(`
      and the last `)` (at least one character), quotes removed, split on
      commas. Without such a span the regular expression captures nothing
      and the list is the single empty string. */
  function EnumValues(typ: string): (list: seq<string>)
    ensures |list| >= 1
  {
    if '(' in typ && ')' in typ && FirstIndex(typ, '(') + 1 < LastIndex(typ, ')') then
      Split(RemoveQuotes(typ[FirstIndex(typ, '(') + 1..LastIndex(typ, ')')]), ',')
    else [""]
  }

  /** str_replace("'", '', s) */
  function RemoveQuotes(s: string): (r: string)
    ensures '\'' !in r
  {
    if |s| == 0 then "" else (if s[0] == '\'' then "" else [s[0]]) + RemoveQuotes(s[1..])
  }

  // ---------------------------------------------------------------------
  // `decimal(p,s)`: the `[A-Za-z]+\(([0-9]+)\,([0-9]+)\)` pattern

  predicate IsLetter(c: char) {
    'a' <= c <= 'z' || 'A' <= c <= 'Z'
  }

  function LetterRun(s: string): (n: nat)
    ensures n <= |s|
    ensures forall i :: 0 <= i < n ==> IsLetter(s[i])
    ensures n < |s| ==> !IsLetter(s[n])
  {
    if |s| > 0 && IsLetter(s[0]) then 1 + LetterRun(s[1..]) else 0
  }

  /** The precision and scale, when s starts with letters, `(`, digits,
      `,`, digits and `)`. */
  function DecimalAt(s: string): Option<(nat, nat)> {
    var l := LetterRun(s);
    if l == 0 || l >= |s| || s[l] != '(' then None
    else
      var a := s[l + 1..];
      var p := DigitRun(a);
      if p == 0 || p >= |a| || a[p] != ',' then None
      else
        var b := a[p + 1..];
        var q := DigitRun(b);
        if q == 0 || q >= |b| || b[q] != ')' then None
        else Some((DigitsValue(a[..p]), DigitsValue(b[..q])))
  }

  /** The leftmost match in s. */
  function FirstDecimal(s: string): Option<(nat, nat)>
    decreases |s|
  {
    if |s| == 0 then None
    else if DecimalAt(s).Some? then DecimalAt(s)
    else FirstDecimal(s[1..])
  }

  // ---------------------------------------------------------------------
  // The column definition

  /** A DESCRIBE row, its keys lower-cased. Optional entries may be absent
      or null. */
  datatype ColumnRow = ColumnRow(
    field: string,
    typ: string,
    length: Option<string>,
    nullable: string,
    default: Option<string>,
    extra: string,
    comment: Option<string>,
    collation: Option<string>)

  /** The values the length variable goes through: a string read from the
      row or the type, an integer, or null/false. */
  datatype LengthValue = LengthText(s: string) | LengthCount(n: int) | NoLength

  /** The arms of the switch on the base type. */
  datatype TypeKind =
    | FixedKind              // char, binary
    | DecimalKind            // float, double, real, numeric, decimal
    | SizedKind(limit: int)  // the text and blob types below LONG
    | IntegerKind            // the integer types and year
    | OtherKind

  /** Which arm of the switch a base type takes. */
  function KindOf(dbType: string): TypeKind {
    if dbType == "char" || dbType == "binary" then FixedKind
    else if dbType == "float" || dbType == "double" || dbType == "real" || dbType == "numeric" || dbType == "decimal" then DecimalKind
    else if dbType == "tinytext" || dbType == "tinyblob" then SizedKind(MySql.LengthLimitTiny)
    else if dbType == "text" || dbType == "blob" then SizedKind(MySql.LengthLimitRegular)
    else if dbType == "mediumtext" || dbType == "mediumblob" then SizedKind(MySql.LengthLimitMedium)
    else if dbType == "tinyint" || dbType == "smallint" || dbType == "mediumint" || dbType == "int" ||
            dbType == "integer" || dbType == "bigint" || dbType == "year" then IntegerKind
    else OtherKind
  }

  predicate IsEnumOrSet(dbType: string) {
    dbType == "enum" || dbType == "set"
  }

  /** The length before the switch: the row's own, else the number of
      comma pieces of an enum/set type, else the second token. */
  function RawLength(row: ColumnRow): LengthValue {
    if row.length.Some? then LengthText(row.length.value)
    else if IsEnumOrSet(DbType(row.typ)) then LengthCount(|Split(row.typ, ',')|)
    else match SecondToken(row.typ)
      case Some(t) => LengthText(t)
      case None => NoLength
  }

  /** The length after the switch on the base type. */
  function SwitchedLength(row: ColumnRow): LengthValue {
    match KindOf(DbType(row.typ))
    case DecimalKind => if FirstDecimal(row.typ).Some? then NoLength else RawLength(row)
    case SizedKind(limit) => LengthCount(limit)
    case IntegerKind => NoLength
    case _ => RawLength(row)
  }

  lemma SwitchedLengthIs(row: ColumnRow, kind: TypeKind, raw: LengthValue)
    requires kind == KindOf(DbType(row.typ)) && raw == RawLength(row)
    ensures SwitchedLength(row) == match kind
      case DecimalKind => if FirstDecimal(row.typ).Some? then NoLength else raw
      case SizedKind(limit) => LengthCount(limit)
      case IntegerKind => NoLength
      case _ => raw
  {
  }

  /** `(int) $length == 0 ? null : (int) $length` */
  function CastLength(v: LengthValue): (r: Option<int>)
    ensures r != Some(0)
  {
    var n := match v
      case LengthText(s) => IntCast(s)
      case LengthCount(c) => c
      case NoLength => 0;
    if n == 0 then None else Some(n)
  }

  /** The precision and scale of a decimal-family type written `x(p,s)`. */
  function PrecisionScale(row: ColumnRow): Option<(nat, nat)> {
    if KindOf(DbType(row.typ)) == DecimalKind then FirstDecimal(row.typ) else None
  }

  /** The type name: the platform's mapping of the base type, unless the
      comment carries a type hint. */
  function TypeName(row: ColumnRow, mapping: string -> string): string {
    var mapped := mapping(DbType(row.typ));
    if row.comment.Some? then ExtractDoctrineTypeFromComment(row.comment.value, mapped) else mapped
  }

  /** The comment with the hint of the chosen type removed; an empty
      comment is null. */
  function CleanComment(row: ColumnRow, mapping: string -> string): Option<string> {
    if row.comment.Some? then
      var c := RemoveDoctrineTypeFromComment(row.comment.value, TypeName(row, mapping));
      if c != "" then Some(c) else None
    else None
  }

  function PlatformOptions(row: ColumnRow): Dict<string> {
    if row.collation.Some? then Put(Empty(), "collation", row.collation.value) else Empty()
  }

  /** The column a row describes. `mapping` is the platform's type
      mapping and `typeOf` the type registry. */
  function ColumnOf(row: ColumnRow, mapping: string -> string, typeOf: string -> TypeTag): Column {
    var dbType := DbType(row.typ);
    var ps := PrecisionScale(row);
    Column(
      NewIdentifier(row.field),
      typeOf(TypeName(row, mapping)),
      row.default,
      row.nullable != "YES",
      CastLength(SwitchedLength(row)),
      if ps.Some? then Some(ps.value.0 as int) else None,
      if ps.Some? then Some(ps.value.1 as int) else None,
      KindOf(dbType) == FixedKind,
      Contains(row.typ, "unsigned"),
      Contains(row.extra, "auto_increment"),
      CleanComment(row, mapping),
      if IsEnumOrSet(dbType) then EnumValues(row.typ) else [],
      Empty(),
      PlatformOptions(row))
  }

  /** `_getPortableTableColumnDefinition`. */
  method PortableTableColumnDefinition(row: ColumnRow, mapping: string -> string, typeOf: string -> TypeTag)
    returns (column: Column)
    ensures column == ColumnOf(row, mapping, typeOf)
  {
    var dbType := DbType(row.typ);
    var list: seq<string> := [];
    var length: LengthValue;
    if IsEnumOrSet(dbType) {
      list := EnumValues(row.typ);
      if row.length.Some? {
        length := LengthText(row.length.value);
      } else {
        length := LengthCount(|Split(row.typ, ',')|);
      }
    } else {
      if row.length.Some? {
        length := LengthText(row.length.value);
      } else {
        var t := SecondToken(row.typ);
        length := if t.Some? then LengthText(t.value) else NoLength;
      }
    }
    assert length == RawLength(row);
    var fixed := false;
    var scale: Option<int> := None;
    var precision: Option<int> := None;
    var typeName := mapping(dbType);
    var comment := row.comment;
    if comment.Some? {
      typeName := ExtractDoctrineTypeFromComment(comment.value, typeName);
      comment := Some(RemoveDoctrineTypeFromComment(comment.value, typeName));
    }
    assert typeName == TypeName(row, mapping);
    ghost var kind := KindOf(dbType);
    ghost var raw := length;
    match KindOf(dbType) {
      case FixedKind =>
        fixed := true;
      case DecimalKind =>
        var m := FirstDecimal(row.typ);
        if m.Some? {
          precision := Some(m.value.0);
          scale := Some(m.value.1);
          length := NoLength;
        }
      case SizedKind(limit) =>
        length := LengthCount(limit);
      case IntegerKind =>
        length := NoLength;
      case OtherKind =>
    }
    SwitchedLengthIs(row, kind, raw);
    assert fixed == (kind == FixedKind);
    ghost var ps := PrecisionScale(row);
    assert precision == (if ps.Some? then Some(ps.value.0 as int) else None);
    assert scale == (if ps.Some? then Some(ps.value.1 as int) else None);
    assert list == if IsEnumOrSet(dbType) then EnumValues(row.typ) else [];
    assert length == SwitchedLength(row);
    var len := CastLength(length);
    assert len == CastLength(SwitchedLength(row));
    var platformOptions: Dict<string> := Empty();
    if row.collation.Some? {
      platformOptions := Put(platformOptions, "collation", row.collation.value);
    }
    assert platformOptions == PlatformOptions(row);
    var cleaned := if comment.Some? && comment.value != "" then comment else None;
    assert cleaned == CleanComment(row, mapping);
    column := Column(NewIdentifier(row.field), typeOf(typeName), row.default, row.nullable != "YES",
                     len, precision, scale, fixed, Contains(row.typ, "unsigned"),
                     Contains(row.extra, "auto_increment"), cleaned, list, Empty(), platformOptions);
  }

  // ---------------------------------------------------------------------
  // What the column definition promises

  /** The base type of each text (`text` true) and blob tier. */
  function SizedName(t: MySql.Tier, text: bool): string {
    match t
    case Tiny => if text then "tinytext" else "tinyblob"
    case Regular => if text then "text" else "blob"
    case Medium => if text then "mediumtext" else "mediumblob"
    case Long => if text then "longtext" else "longblob"
  }

  /** The text and blob types below LONG take their tier's capacity. */
  lemma SizedKindOf(t: MySql.Tier, text: bool)
    ensures KindOf(SizedName(t, text)) == if t == MySql.Long then OtherKind else SizedKind(MySql.Capacity(t))
  {
  }

  /** A text or blob column reads back with a length in the tier of its
      type, so the platform declares it as the same type again; a LONG
      type reads back with no length, provided the row gives none. */
  lemma SizedTypesRoundTrip(row: ColumnRow, mapping: string -> string, typeOf: string -> TypeTag, t: MySql.Tier, text: bool)
    requires DbType(row.typ) == SizedName(t, text)
    requires t == MySql.Long ==> RawLength(row) == NoLength
    ensures MySql.TierOf(ColumnOf(row, mapping, typeOf).length) == t
    ensures text ==> MySql.ClobTypeDeclaration(ColumnOf(row, mapping, typeOf).length) == MySql.TierPrefix(t) + "TEXT"
    ensures !text ==> MySql.BlobTypeDeclaration(ColumnOf(row, mapping, typeOf).length) == MySql.TierPrefix(t) + "BLOB"
  {
    SizedKindOf(t, text);
    var len := ColumnOf(row, mapping, typeOf).length;
    assert len == CastLength(SwitchedLength(row));
    if t != MySql.Long {
      assert len == Some(MySql.Capacity(t));
      MySql.TierCapacityRoundTrip(t);
    }
  }

  /** Integer types and `year` have no length; a decimal-family type
      written `x(p,s)` has precision p, scale s and no length; only `char`
      and `binary` are fixed; only enum and set carry a value list; a
      length is never 0. */
  lemma ColumnShape(row: ColumnRow, mapping: string -> string, typeOf: string -> TypeTag)
    ensures var c := ColumnOf(row, mapping, typeOf); var kind := KindOf(DbType(row.typ));
      (kind == IntegerKind ==> c.length.None?) &&
      (kind == DecimalKind && FirstDecimal(row.typ).Some? ==>
         c.length.None? && c.precision == Some(FirstDecimal(row.typ).value.0 as int) &&
         c.scale == Some(FirstDecimal(row.typ).value.1 as int)) &&
      (c.precision.Some? <==> c.scale.Some?) &&
      (c.fixed <==> kind == FixedKind) &&
      (|c.list| > 0 <==> IsEnumOrSet(DbType(row.typ))) &&
      c.length != Some(0)
  {
    var c := ColumnOf(row, mapping, typeOf);
    var ps := PrecisionScale(row);
    assert c.length == CastLength(SwitchedLength(row));
    assert c.precision == (if ps.Some? then Some(ps.value.0 as int) else None);
    assert c.scale == (if ps.Some? then Some(ps.value.1 as int) else None);
  }

  /** The arms of the switch: which base types are fixed, decimal, sized
      (with their limits) and integer. */
  lemma KindTable(dbType: string)
    ensures KindOf(dbType) == FixedKind <==> dbType in {"char", "binary"}
    ensures KindOf(dbType) == DecimalKind <==> dbType in {"float", "double", "real", "numeric", "decimal"}
    ensures KindOf(dbType) == IntegerKind <==>
      dbType in {"tinyint", "smallint", "mediumint", "int", "integer", "bigint", "year"}
    ensures KindOf(dbType) == SizedKind(MySql.LengthLimitTiny) <==> dbType in {"tinytext", "tinyblob"}
    ensures KindOf(dbType) == SizedKind(MySql.LengthLimitRegular) <==> dbType in {"text", "blob"}
    ensures KindOf(dbType) == SizedKind(MySql.LengthLimitMedium) <==> dbType in {"mediumtext", "mediumblob"}
  {
  }

  /** `decimal(p,s)` reads back as precision p and scale s. */
  lemma {:induction false} DecimalRoundTrip(letters: string, p: nat, s: nat)
    requires |letters| > 0 && forall i :: 0 <= i < |letters| ==> IsLetter(letters[i])
    ensures FirstDecimal(letters + "(" + NatToString(p) + "," + NatToString(s) + ")") == Some((p, s))
  {
    var ps := NatToString(p);
    var ss := NatToString(s);
    assert letters + "(" + ps + "," + ss + ")" == letters + ("(" + (ps + ("," + (ss + ")"))));
    DecimalAtParts(letters, ps, ss);
    NatToStringValue(p);
    NatToStringValue(s);
  }

  /** Letters, `(`, digits, `,`, digits, `)` match, read as the two digit
      runs. */
  lemma DecimalAtParts(letters: string, ps: string, ss: string)
    requires |letters| > 0 && forall i :: 0 <= i < |letters| ==> IsLetter(letters[i])
    requires |ps| > 0 && forall i :: 0 <= i < |ps| ==> IsDigit(ps[i])
    requires |ss| > 0 && forall i :: 0 <= i < |ss| ==> IsDigit(ss[i])
    ensures DecimalAt(letters + ("(" + (ps + ("," + (ss + ")"))))) == Some((DigitsValue(ps), DigitsValue(ss)))
  {
    var tail3 := ss + ")";
    var tail2 := "," + tail3;
    var tail1 := ps + tail2;
    var s := letters + ("(" + tail1);
    LetterRunOf(s, |letters|);
    var a := s[|letters| + 1..];
    assert a == tail1;
    DigitRunOf(a, |ps|);
    var b := a[|ps| + 1..];
    assert b == tail3;
    DigitRunOf(b, |ss|);
    assert a[..|ps|] == ps;
    assert b[..|ss|] == ss;
  }

  lemma LetterRunOf(s: string, n: nat)
    requires n < |s| && !IsLetter(s[n])
    requires forall i :: 0 <= i < n ==> IsLetter(s[i])
    ensures LetterRun(s) == n
  {
  }

  lemma DigitRunOf(s: string, n: nat)
    requires n < |s| && !IsDigit(s[n])
    requires forall i :: 0 <= i < n ==> IsDigit(s[i])
    ensures DigitRun(s) == n
  {
  }

  /** A comment ending in the hint of a type (with no `(` before it)
      gives the column that type, and the comment without the hint. */
  lemma CommentHintRoundTrip(row: ColumnRow, mapping: string -> string, typeOf: string -> TypeTag, note: string, t: string)
    requires IsWord(t) && '(' !in note
    requires row.comment == Some(note + HintOpen + t + ")")
    ensures ColumnOf(row, mapping, typeOf).typ == typeOf(t)
    ensures ColumnOf(row, mapping, typeOf).comment == (if note == "" then None else Some(note))
  {
    HintRoundTrip(note, t, mapping(DbType(row.typ)));
  }

  // ---------------------------------------------------------------------
  // _getPortableTableIndexesList

  /** A SHOW INDEX row, its keys lower-cased. */
  datatype MySqlIndexRow = MySqlIndexRow(
    keyName: string,
    columnName: string,
    nonUnique: string,
    indexType: string,
    where: Option<string>)

  /** The preprocessing: the primary key is the index named `PRIMARY`,
      and full-text and spatial indexes carry their flag. */
  function Prepare(v: MySqlIndexRow): (r: IndexRow)
    ensures r.primary <==> v.keyName == "PRIMARY"
    ensures r.flags.Some? <==> Contains(v.indexType, "FULLTEXT") || Contains(v.indexType, "SPATIAL")
  {
    IndexRow(v.keyName, v.columnName, Truthy(v.nonUnique), v.keyName == "PRIMARY",
             if Contains(v.indexType, "FULLTEXT") then Some(["FULLTEXT"])
             else if Contains(v.indexType, "SPATIAL") then Some(["SPATIAL"])
             else None,
             v.where)
  }

  function Prepared(rows: seq<MySqlIndexRow>): (rs: seq<IndexRow>)
    ensures |rs| == |rows| && forall i :: 0 <= i < |rows| ==> rs[i] == Prepare(rows[i])
  {
    seq(|rows|, i requires 0 <= i < |rows| => Prepare(rows[i]))
  }

  /** The keys of the single record array the loop keeps. */
  const RecordFields: set<string> := {"name", "columns", "unique", "primary", "flags", "options"}

  /** `isset($result[$keyName])` on the single record: true only when the
      key happens to be one of the record's own field names. */
  predicate IsSetIn(record: IndexData, key: string) {
    key in RecordFields
  }

  /** The loop's state as written: one record (none before the first row)
      and what has been stored so far. */
  datatype FoldState<D, I> = FoldState(current: Option<D>, stored: Dict<I>)

  /** One pass of a loop that keeps a single record: the record is
      replaced, or extended when `isSet` holds of it and the row's key, and
      what `build` makes of it is stored under the row's key. */
  function ReplacingStep<R, D, I>(st: FoldState<D, I>, r: R, key: R -> string, isSet: (D, string) -> bool,
                                  first: R -> D, add: (D, R) -> D, build: D -> I): FoldState<D, I>
    requires ValidDict(st.stored)
  {
    var k := key(r);
    var current := if st.current.Some? && isSet(st.current.value, k) then add(st.current.value, r) else first(r);
    FoldState(Some(current), Put(st.stored, k, build(current)))
  }

  function ReplacingFold<R, D, I>(rows: seq<R>, key: R -> string, isSet: (D, string) -> bool,
                                  first: R -> D, add: (D, R) -> D, build: D -> I): (st: FoldState<D, I>)
    ensures ValidDict(st.stored)
  {
    if |rows| == 0 then FoldState(None, Empty())
    else ReplacingStep(ReplacingFold(rows[..|rows| - 1], key, isSet, first, add, build), rows[|rows| - 1],
                       key, isSet, first, add, build)
  }

  /** Under a key the record never answers to, what is stored comes from
      the last row with that key alone. */
  lemma {:induction false} ReplacingFoldUnset<R, D, I>(rows: seq<R>, key: R -> string, isSet: (D, string) -> bool,
                                                       first: R -> D, add: (D, R) -> D, build: D -> I, k: string)
    requires forall d :: !isSet(d, k)
    ensures var st := ReplacingFold(rows, key, isSet, first, add, build);
      var rs := RowsWithKey(rows, key, k);
      (k in st.stored.m <==> |rs| > 0) &&
      (k in st.stored.m ==> st.stored.m[k] == build(first(rs[|rs| - 1])))
  {
    if |rows| > 0 {
      var n := |rows| - 1;
      var r := rows[n];
      ReplacingFoldUnset(rows[..n], key, isSet, first, add, build, k);
      var st0 := ReplacingFold(rows[..n], key, isSet, first, add, build);
      var st := ReplacingStep(st0, r, key, isSet, first, add, build);
      assert ReplacingFold(rows, key, isSet, first, add, build) == st;
      var rs0 := RowsWithKey(rows[..n], key, k);
      if key(r) == k {
        assert RowsWithKey(rows, key, k) == rs0 + [r];
        assert st.current == Some(first(r));
      } else {
        assert RowsWithKey(rows, key, k) == rs0;
        assert st.stored.m == st0.stored.m[key(r) := st.stored.m[key(r)]];
      }
    }
  }

  /** The indexes as the loop as written leaves them. */
  function AsWrittenFold(rows: seq<IndexRow>): (st: FoldState<IndexData, Index>)
    ensures ValidDict(st.stored)
  {
    ReplacingFold(rows, IndexKey, IsSetIn, FirstIndexData, AddIndexColumn, BuildIndex)
  }

  /** `_getPortableTableIndexesList` as written: `$result = array(...)`
      replaces the whole accumulator instead of one entry of it. */
  method PortableTableIndexesListAsWritten(rows: seq<MySqlIndexRow>) returns (indexes: Dict<Index>)
    ensures indexes == AsWrittenFold(Prepared(rows)).stored
  {
    var prepared := Prepared(rows);
    var result: Option<IndexData> := None;
    indexes := Empty();
    for i := 0 to |rows|
      invariant FoldState(result, indexes) == AsWrittenFold(prepared[..i])
    {
      assert prepared[..i + 1][..i] == prepared[..i];
      result, indexes := AsWrittenPass(result, indexes, prepared[i]);
    }
    assert prepared[..|rows|] == prepared;
  }

  /** One pass of the loop as written. */
  method AsWrittenPass(result: Option<IndexData>, indexes: Dict<Index>, v: IndexRow)
    returns (result': Option<IndexData>, indexes': Dict<Index>)
    requires ValidDict(indexes)
    ensures FoldState(result', indexes') ==
      ReplacingStep(FoldState(result, indexes), v, IndexKey, IsSetIn, FirstIndexData, AddIndexColumn, BuildIndex)
  {
    var keyName := IndexKey(v);
    if result.None? || !IsSetIn(result.value, keyName) {
      result' := Some(FirstIndexData(v));
    } else {
      result' := Some(AddIndexColumn(result.value, v));
    }
    var data := result'.value;
    var args := seq(|data.columns|, j requires 0 <= j < |data.columns| => Str(data.columns[j]));
    assert Strings(args) == data.columns;
    var index := NewIndex(data.name, args, data.unique, data.primary, data.flags, data.options);
    assert index.Ok? && index.value == BuildIndex(data);
    indexes' := Put(indexes, keyName, index.value);
  }

  /** As written, an index stored under a key other than the record's own
      field names has exactly one column: that of the last row with the
      key. A composite index loses all its columns but the last. */
  lemma AsWrittenSingleColumn(rows: seq<IndexRow>, k: string)
    requires k !in RecordFields
    ensures k in AsWrittenFold(rows).stored.m <==> |RowsWithKey(rows, IndexKey, k)| > 0
    ensures k in AsWrittenFold(rows).stored.m ==>
      var rs := RowsWithKey(rows, IndexKey, k);
      |rs| > 0 && AsWrittenFold(rows).stored.m[k].columns == [rs[|rs| - 1].columnName]
  {
    ReplacingFoldUnset(rows, IndexKey, IsSetIn, FirstIndexData, AddIndexColumn, BuildIndex, k);
    var rs := RowsWithKey(rows, IndexKey, k);
    if |rs| > 0 {
      var c := rs[|rs| - 1].columnName;
      assert [c][..0] == [];
      assert Unique([c]) == [c];
    }
  }

  /** `_getPortableTableIndexesList` with one record per key, as the
      parent's fold keeps them. */
  method PortableTableIndexesList(rows: seq<MySqlIndexRow>) returns (indexes: Dict<Index>)
    ensures indexes == PortableIndexes(Prepared(rows))
  {
    indexes := SchemaManager.PortableTableIndexesList(Prepared(rows));
  }

  /** With the correction, the index stored under a group key lists every
      column of the group in row order, and the primary key is the index
      named `PRIMARY`. */
  lemma MySqlIndexesByGroup(rows: seq<MySqlIndexRow>, k: string)
    requires k in PortableIndexes(Prepared(rows)).m
    ensures var rs := RowsWithKey(Prepared(rows), IndexKey, k);
      |rs| > 0 &&
      PortableIndexes(Prepared(rows)).m[k].columns == Unique(ColumnNames(rs)) &&
      (PortableIndexes(Prepared(rows)).m[k].isPrimary <==> rs[0].keyName == "PRIMARY")
  {
    var ps := Prepared(rows);
    IndexOfGroup(ps, k);
    var rs := RowsWithKey(ps, IndexKey, k);
    RowsWithKeyMembers(ps, IndexKey, k);
    PreparedPrimary(rows, rs[0]);
  }

  /** A prepared row is primary exactly when its key name is `PRIMARY`. */
  lemma PreparedPrimary(rows: seq<MySqlIndexRow>, r: IndexRow)
    requires r in Prepared(rows)
    ensures r.primary <==> r.keyName == "PRIMARY"
  {
    var i :| 0 <= i < |rows| && Prepared(rows)[i] == r;
  }

  /** Two rows of one non-unique index (say `idx`), on columns a then b,
      as they come out of the preparation: as written the index keeps b
      only, corrected it keeps a then b. */
  lemma AsWrittenKeepsLastColumn(name: string, a: string, b: string)
    requires Lower(name) !in RecordFields && a != b
    ensures var rows := [IndexRow(name, a, true, false, None, None), IndexRow(name, b, true, false, None, None)];
      var k := Lower(name);
      k in AsWrittenFold(rows).stored.m && AsWrittenFold(rows).stored.m[k].columns == [b] &&
      k in PortableIndexes(rows).m && PortableIndexes(rows).m[k].columns == [a, b]
  {
    var rows := [IndexRow(name, a, true, false, None, None), IndexRow(name, b, true, false, None, None)];
    var k := Lower(name);
    assert rows[..1] == [rows[0]] && [rows[0]][..0] == [];
    assert RowsWithKey(rows[..1], IndexKey, k) == [rows[0]];
    assert RowsWithKey(rows, IndexKey, k) == rows;
    var cs := ColumnNames(rows);
    assert cs[0] == a && cs[1] == b;
    assert cs == [a, b];
    UniquePair(a, b);
    AsWrittenSingleColumn(rows, k);
    IndexesByGroup(rows);
  }

  lemma UniquePair<T>(a: T, b: T)
    requires a != b
    ensures Unique([a, b]) == [a, b]
  {
    assert [a, b][..1] == [a] && [a][..0] == [];
  }

  /** The record of the first row, extended by the second, ends up under
      `primary` when the second row is the primary key's. */
  lemma AsWrittenPrimaryRecord(rows: seq<IndexRow>)
    requires |rows| == 2 && rows[1].primary
    ensures var merged := AddIndexColumn(FirstIndexData(rows[0]), rows[1]);
      "primary" in AsWrittenFold(rows).stored.m &&
      AsWrittenFold(rows).stored.m["primary"] == BuildIndex(merged)
  {
    assert Lower("primary") == "primary";
    assert rows[..1][..0] == [];
    var st0 := AsWrittenFold(rows[..1][..0]);
    assert st0.current == None;
    var st1 := AsWrittenFold(rows[..1]);
    assert st1 == ReplacingStep(st0, rows[0], IndexKey, IsSetIn, FirstIndexData, AddIndexColumn, BuildIndex);
    assert st1.current == Some(FirstIndexData(rows[0]));
    assert IsSetIn(FirstIndexData(rows[0]), "primary");
    assert AsWrittenFold(rows) == ReplacingStep(st1, rows[1], IndexKey, IsSetIn, FirstIndexData, AddIndexColumn, BuildIndex);
  }

  /** A row of an index (say `idx`) on column a, then a primary key row
      on column c: the key `primary` is one of the record's own field
      names, so as written the primary key row extends the other index's
      record, and the index stored under `primary` keeps that index's
      name, is not primary and spans a and c. Corrected, it is the primary
      key on c alone. */
  lemma AsWrittenMergesPrimary(name: string, a: string, c: string)
    requires a != c && Lower(name) != "primary"
    ensures var rows := [IndexRow(name, a, true, false, None, None), IndexRow("PRIMARY", c, false, true, None, None)];
      "primary" in AsWrittenFold(rows).stored.m &&
      var ix := AsWrittenFold(rows).stored.m["primary"];
      ix.name == NewIdentifier(name) && !ix.isPrimary && ix.columns == [a, c] &&
      "primary" in PortableIndexes(rows).m &&
      PortableIndexes(rows).m["primary"].isPrimary &&
      PortableIndexes(rows).m["primary"].columns == [c]
  {
    var rows := [IndexRow(name, a, true, false, None, None), IndexRow("PRIMARY", c, false, true, None, None)];
    AsWrittenPrimaryMerged(rows, name, a, c);
    CorrectedPrimaryAlone(rows, name, a, c);
  }

  /** The as-written half of AsWrittenMergesPrimary. */
  lemma AsWrittenPrimaryMerged(rows: seq<IndexRow>, name: string, a: string, c: string)
    requires a != c
    requires rows == [IndexRow(name, a, true, false, None, None), IndexRow("PRIMARY", c, false, true, None, None)]
    ensures "primary" in AsWrittenFold(rows).stored.m
    ensures var ix := AsWrittenFold(rows).stored.m["primary"];
      ix.name == NewIdentifier(name) && !ix.isPrimary && ix.columns == [a, c]
  {
    AsWrittenPrimaryRecord(rows);
    UniquePair(a, c);
  }

  /** The corrected half of AsWrittenMergesPrimary. */
  lemma CorrectedPrimaryAlone(rows: seq<IndexRow>, name: string, a: string, c: string)
    requires Lower(name) != "primary"
    requires rows == [IndexRow(name, a, true, false, None, None), IndexRow("PRIMARY", c, false, true, None, None)]
    ensures "primary" in PortableIndexes(rows).m
    ensures PortableIndexes(rows).m["primary"].isPrimary
    ensures PortableIndexes(rows).m["primary"].columns == [c]
  {
    assert Lower("primary") == "primary";
    assert rows[..1] == [rows[0]] && rows[..1][..0] == [];
    var cs := ColumnNames([rows[1]]);
    assert cs[0] == c;
    assert cs == [c];
    assert RowsWithKey(rows[..1], IndexKey, "primary") == [];
    var rs := RowsWithKey(rows, IndexKey, "primary");
    assert rs == [rows[1]];
    IndexesByGroup(rows);
    assert Unique(cs) == [c];
  }

  // ---------------------------------------------------------------------
  // _getPortableTableForeignKeysList

  /** A row of the foreign key query, its keys lower-cased; a rule may be
      unset. */
  datatype ForeignKeyRow = ForeignKeyRow(
    constraintName: string,
    columnName: string,
    referencedTableName: string,
    referencedColumnName: string,
    deleteRule: Option<string>,
    updateRule: Option<string>)

  /** The array kept per constraint. */
  datatype ForeignKeyData = ForeignKeyData(
    name: string,
    local: seq<string>,
    foreign: seq<string>,
    foreignTable: string,
    onDelete: Option<string>,
    onUpdate: Option<string>)

  /** The arguments the foreign key constraint is built from. */
  datatype ForeignKeyDefinition = ForeignKeyDefinition(
    localColumns: seq<string>,
    foreignTableName: string,
    foreignColumns: seq<string>,
    name: string,
    onDelete: Option<string>,
    onUpdate: Option<string>)

  /** An unset rule and RESTRICT both become null. */
  function Rule(rule: Option<string>): (r: Option<string>)
    ensures r != Some("RESTRICT")
    ensures rule.Some? && rule.value != "RESTRICT" ==> r == rule
  {
    if rule.None? || rule.value == "RESTRICT" then None else rule
  }

  function ConstraintName(r: ForeignKeyRow): string {
    r.constraintName
  }

  function AddForeignKeyColumns(d: ForeignKeyData, r: ForeignKeyRow): ForeignKeyData {
    d.(local := d.local + [r.columnName], foreign := d.foreign + [r.referencedColumnName])
  }

  /** The first row of a constraint starts its record and adds its columns. */
  function FirstForeignKeyData(r: ForeignKeyRow): ForeignKeyData {
    AddForeignKeyColumns(ForeignKeyData(r.constraintName, [], [], r.referencedTableName,
                                        Rule(r.deleteRule), Rule(r.updateRule)), r)
  }

  function ToDefinition(d: ForeignKeyData): ForeignKeyDefinition {
    ForeignKeyDefinition(d.local, d.foreignTable, d.foreign, d.name, d.onDelete, d.onUpdate)
  }

  function ForeignKeyRecords(rows: seq<ForeignKeyRow>): (g: Dict<ForeignKeyData>)
    ensures ValidDict(g)
  {
    Grouped(rows, ConstraintName, FirstForeignKeyData, AddForeignKeyColumns)
  }

  /** The foreign keys the rows describe, in order of first appearance. */
  function ForeignKeyDefinitions(rows: seq<ForeignKeyRow>): (fks: seq<ForeignKeyDefinition>)
    ensures |fks| == |ForeignKeyRecords(rows).keys|
  {
    var g := ForeignKeyRecords(rows);
    seq(|g.keys|, i requires 0 <= i < |g.keys| => ToDefinition(g.m[g.keys[i]]))
  }

  /** `_getPortableTableForeignKeysList`. */
  method PortableTableForeignKeysList(rows: seq<ForeignKeyRow>) returns (result: seq<ForeignKeyDefinition>)
    ensures result == ForeignKeyDefinitions(rows)
  {
    var list := Group(rows, ConstraintName, FirstForeignKeyData, AddForeignKeyColumns);
    result := [];
    for i := 0 to |list.keys|
      invariant |result| == i
      invariant forall j :: 0 <= j < i ==> result[j] == ToDefinition(list.m[list.keys[j]])
    {
      result := result + [ToDefinition(list.m[list.keys[i]])];
    }
  }

  /** A group's record takes its name, table and rules from the first row
      and its local and foreign columns from all the rows in order. */
  lemma {:induction false} FoldForeignKeyGroup(rs: seq<ForeignKeyRow>)
    requires |rs| > 0
    ensures var d := FoldGroup(rs, FirstForeignKeyData, AddForeignKeyColumns);
      d.name == rs[0].constraintName && d.foreignTable == rs[0].referencedTableName &&
      d.onDelete == Rule(rs[0].deleteRule) && d.onUpdate == Rule(rs[0].updateRule) &&
      |d.local| == |rs| == |d.foreign| &&
      forall i :: 0 <= i < |rs| ==> d.local[i] == rs[i].columnName && d.foreign[i] == rs[i].referencedColumnName
  {
    if |rs| > 1 {
      FoldForeignKeyGroup(rs[..|rs| - 1]);
    }
  }

  /** One foreign key per constraint name, in order of first appearance;
      each pairs its rows' columns with their referenced columns in row
      order, and takes table and rules (RESTRICT read as none) from its
      first row. */
  lemma ForeignKeysByConstraint(rows: seq<ForeignKeyRow>, i: nat)
    requires i < |ForeignKeyDefinitions(rows)|
    ensures |ForeignKeyDefinitions(rows)| == |Unique(Mapped(rows, ConstraintName))|
    ensures var fk := ForeignKeyDefinitions(rows)[i];
      var rs := RowsWithKey(rows, ConstraintName, fk.name);
      fk.name == Unique(Mapped(rows, ConstraintName))[i] &&
      |rs| > 0 && fk.foreignTableName == rs[0].referencedTableName &&
      fk.onDelete == Rule(rs[0].deleteRule) && fk.onUpdate == Rule(rs[0].updateRule) &&
      |fk.localColumns| == |rs| == |fk.foreignColumns| &&
      forall j :: 0 <= j < |rs| ==> fk.localColumns[j] == rs[j].columnName && fk.foreignColumns[j] == rs[j].referencedColumnName
  {
    var g := ForeignKeyRecords(rows);
    GroupedSpec(rows, ConstraintName, FirstForeignKeyData, AddForeignKeyColumns);
    var k := g.keys[i];
    var rs := RowsWithKey(rows, ConstraintName, k);
    FoldForeignKeyGroup(rs);
  }

  // ---------------------------------------------------------------------
  // The other list definitions

  /** A view: its name and its SQL. */
  datatype View = View(name: AssetName, sql: string)

  datatype ViewRow = ViewRow(tableName: string, viewDefinition: string)

  /** `_getPortableViewDefinition`: every row is a view. */
  function ViewDefinition(row: ViewRow): Option<View> {
    Some(View(NewIdentifier(row.tableName), row.viewDefinition))
  }

  function ViewName(v: View): AssetName {
    v.name
  }

  /** The views list: every row's view, keyed by lower-cased quoted name. */
  method PortableViewsList(rows: seq<ViewRow>, p: Platform) returns (list: Dict<View>)
    ensures list == FromPairs(NamedPairs(Present(rows, ViewDefinition), ViewName, p))
  {
    list := SchemaManager.PortableViewsList(rows, ViewDefinition, ViewName, p);
  }

  /** `_getPortableTableDefinition`: array_shift, the row's first value. */
  function TableDefinition(row: seq<string>): Option<string> {
    if |row| == 0 then None else Some(row[0])
  }

  function TableEntry(row: seq<string>): Option<string> {
    KeepTruthy(TableDefinition(row))
  }

  /** The table names: the first value of every row whose first value is
      truthy, in order. */
  method PortableTablesList(rows: seq<seq<string>>) returns (names: seq<string>)
    ensures names == Present(rows, TableEntry)
  {
    names := PortableList(rows, TableEntry);
  }

  lemma TablesListed(rows: seq<seq<string>>, name: string)
    ensures name in Present(rows, TableEntry) <==>
      Truthy(name) && exists i :: 0 <= i < |rows| && |rows[i]| > 0 && rows[i][0] == name
  {
    PresentMembers(rows, TableEntry, name);
  }

  /** `_getPortableSequenceDefinition`: end(), the row's last value. */
  function SequenceEntry(row: seq<string>): Option<string> {
    KeepTruthy(if |row| == 0 then None else Some(row[|row| - 1]))
  }

  method PortableSequencesList(rows: seq<seq<string>>) returns (names: seq<string>)
    ensures names == Present(rows, SequenceEntry)
  {
    names := PortableList(rows, SequenceEntry);
  }

  lemma SequencesListed(rows: seq<seq<string>>, name: string)
    ensures name in Present(rows, SequenceEntry) <==>
      Truthy(name) && exists i :: 0 <= i < |rows| && |rows[i]| > 0 && rows[i][|rows[i]| - 1] == name
  {
    PresentMembers(rows, SequenceEntry, name);
  }

  /** `_getPortableDatabaseDefinition`: the row's `Database` value. */
  function DatabaseEntry(row: map<string, string>): Option<string> {
    KeepTruthy(if "Database" in row then Some(row["Database"]) else None)
  }

  method PortableDatabasesList(rows: seq<map<string, string>>) returns (names: seq<string>)
    ensures names == Present(rows, DatabaseEntry)
  {
    names := PortableList(rows, DatabaseEntry);
  }

  lemma DatabasesListed(rows: seq<map<string, string>>, name: string)
    ensures name in Present(rows, DatabaseEntry) <==>
      Truthy(name) && exists i :: 0 <= i < |rows| && "Database" in rows[i] && rows[i]["Database"] == name
  {
    PresentMembers(rows, DatabaseEntry, name);
  }

  /** `_getPortableUserDefinition`: the user and password of a row (either
      may be missing); the array is never empty, so every row is listed. */
  datatype User = User(user: Option<string>, password: Option<string>)

  function UserEntry(row: map<string, string>): Option<User> {
    Some(User(if "User" in row then Some(row["User"]) else None,
              if "Password" in row then Some(row["Password"]) else None))
  }

  method PortableUsersList(rows: seq<map<string, string>>) returns (users: seq<User>)
    ensures users == Present(rows, UserEntry)
  {
    users := PortableList(rows, UserEntry);
  }

  lemma UsersListed(rows: seq<map<string, string>>)
    ensures |Present(rows, UserEntry)| == |rows|
    ensures forall i :: 0 <= i < |rows| ==> Present(rows, UserEntry)[i] == UserEntry(rows[i]).value
  {
    PresentAll(rows, UserEntry);
  }
}

/** The naming primitive shared by every schema asset (tables, columns,
    indexes, sequences, identifiers, views): a name, an optional namespace
    and a flag recording whether the name was written quoted. */
module Asset {
  import opened Base

  datatype AssetName = AssetName(name: string, namespace: Option<string>, quoted: bool)

  /** The state of an asset before its name is first set. */
  const Unnamed: AssetName := AssetName("", None, false)

  predicate IsQuoteChar(c: char) {
    c == '`' || c == '"' || c == '[' || c == ']'
  }

  /** isIdentifierQuoted: the first character opens a quoted identifier. */
  predicate IsIdentifierQuoted(s: string) {
    |s| > 0 && (s[0] == '`' || s[0] == '"' || s[0] == '[')
  }

  predicate Unquoted(s: string) {
    forall i :: 0 <= i < |s| ==> !IsQuoteChar(s[i])
  }

  /** trimQuotes: every quote character is removed, wherever it stands. */
  function TrimQuotes(s: string): (r: string)
    ensures Unquoted(r)
    ensures forall c :: c in r <==> c in s && !IsQuoteChar(c)
    ensures |r| <= |s|
  {
    if |s| == 0 then ""
    else (if IsQuoteChar(s[0]) then "" else [s[0]]) + TrimQuotes(s[1..])
  }

  /** A string without quote characters is left as it is. */
  lemma {:induction false} TrimQuotesUnquoted(s: string)
    requires Unquoted(s)
    ensures TrimQuotes(s) == s
  {
    if |s| > 0 {
      TrimQuotesUnquoted(s[1..]);
    }
  }

  /** trimQuotes is idempotent. */
  lemma TrimQuotesIdempotent(s: string)
    ensures TrimQuotes(TrimQuotes(s)) == TrimQuotes(s)
  {
    TrimQuotesUnquoted(TrimQuotes(s));
  }

  /** Quote characters are not letters, so trimming and lower-casing commute. */
  lemma {:induction false} TrimQuotesLower(s: string)
    ensures TrimQuotes(Lower(s)) == Lower(TrimQuotes(s))
  {
    if |s| > 0 {
      var head := if IsQuoteChar(s[0]) then "" else [s[0]];
      var ls := Lower(s);
      assert ls[0] == LowerChar(s[0]) && ls[1..] == Lower(s[1..]);
      assert IsQuoteChar(ls[0]) == IsQuoteChar(s[0]);
      assert Lower(head) == (if IsQuoteChar(ls[0]) then "" else [ls[0]]);
      calc {
        TrimQuotes(ls);
        Lower(head) + TrimQuotes(Lower(s[1..]));
        { TrimQuotesLower(s[1..]); }
        Lower(head) + Lower(TrimQuotes(s[1..]));
        { LowerConcat(head, TrimQuotes(s[1..])); }
        Lower(head + TrimQuotes(s[1..]));
      }
    }
  }

  /** The text _setName works on: unquoted when the raw name is quoted. */
  function Unquote(raw: string): string {
    if IsIdentifierQuoted(raw) then TrimQuotes(raw) else raw
  }

  /** _setName. A quoted raw name sets the quoted flag (it is never reset)
      and loses its quote characters; a dotted name splits into a namespace
      (before the first dot) and a name (between the first and the second
      dot). Without a dot the namespace stays what it was. */
  function SetName(a: AssetName, raw: string): (r: AssetName)
    ensures r.quoted == (a.quoted || IsIdentifierQuoted(raw))
    ensures IsIdentifierQuoted(raw) ==> Unquoted(r.name)
    ensures '.' !in Unquote(raw) ==> r.namespace == a.namespace && r.name == Unquote(raw)
    ensures '.' in Unquote(raw) ==>
      var t := Unquote(raw);
      r.namespace.Some? && '.' !in r.namespace.value && '.' !in r.name &&
      IsPrefix(r.namespace.value + "." + r.name, t) &&
      (|t| == |r.namespace.value| + 1 + |r.name| || t[|r.namespace.value| + 1 + |r.name|] == '.')
  {
    var t := Unquote(raw);
    var quoted := a.quoted || IsIdentifierQuoted(raw);
    if '.' in t then
      var parts := Split(t, '.');
      SplitFirstTwo(t, '.');
      assert IsIdentifierQuoted(raw) ==> Unquoted(parts[1]) by {
        if IsIdentifierQuoted(raw) {
          SecondPieceUnquoted(t, '.');
        }
      }
      AssetName(parts[1], Some(parts[0]), quoted)
    else
      AssetName(t, a.namespace, quoted)
  }

  /** The first two pieces of explode, with the delimiter between them, are a
      prefix of the string, followed by its end or by another delimiter. */
  lemma SplitFirstTwo(s: string, c: char)
    requires c in s
    ensures var p := Split(s, c);
      |p| >= 2 && IsPrefix(p[0] + [c] + p[1], s) &&
      (|s| == |p[0]| + 1 + |p[1]| || s[|p[0]| + 1 + |p[1]|] == c)
  {
    var i := FirstIndex(s, c);
    SplitUnfold(s, c, i);
    CutAt(s, i);
    FirstPiecePrefix(s[i + 1..], c);
    FirstTwoPieces(s[..i], c, s[i + 1..], Split(s[i + 1..], c));
  }

  /** Splitting at the first separator. */
  lemma SplitUnfold(s: string, c: char, i: nat)
    requires c in s && i == FirstIndex(s, c)
    ensures Split(s, c) == [s[..i]] + Split(s[i + 1..], c)
  {
    CutAt(s, i);
  }

  /** A string is the part before a position, the character there and the
      part after it. */
  lemma CutAt(s: string, i: nat)
    requires i < |s|
    ensures s == s[..i] + [s[i]] + s[i + 1..]
  {
    assert s[i..] == [s[i]] + s[i + 1..];
  }

  /** The shape of a split string from the shape of its tail. */
  lemma FirstTwoPieces(a: string, c: char, rest: string, tail: seq<string>)
    requires |tail| >= 1 && IsPrefix(tail[0], rest)
    requires |rest| == |tail[0]| || rest[|tail[0]|] == c
    ensures var p := [a] + tail; var s := a + [c] + rest;
      IsPrefix(p[0] + [c] + p[1], s) &&
      (|s| == |p[0]| + 1 + |p[1]| || s[|p[0]| + 1 + |p[1]|] == c)
  {
    var b := tail[0];
    assert ([a] + tail)[1] == b;
    assert (a + [c] + rest)[..|a| + 1 + |b|] == a + [c] + rest[..|b|];
    if |rest| > |b| {
      assert (a + [c] + rest)[|a| + 1 + |b|] == rest[|b|];
    }
  }

  /** The first piece is a prefix of the string, followed by the separator
      unless it is the whole string. */
  lemma FirstPiecePrefix(s: string, c: char)
    ensures var b := Split(s, c)[0];
      IsPrefix(b, s) && (|s| == |b| || s[|b|] == c)
  {
    if c in s {
      assert Split(s, c)[0] == s[..FirstIndex(s, c)];
    }
  }

  /** The second piece of a string without quote characters has none. */
  lemma SecondPieceUnquoted(s: string, c: char)
    requires c in s && Unquoted(s)
    ensures |Split(s, c)| >= 2 && Unquoted(Split(s, c)[1])
  {
    var p := Split(s, c);
    SplitFirstTwo(s, c);
    var pre := p[0] + [c] + p[1];
    forall k | 0 <= k < |p[1]| ensures !IsQuoteChar(p[1][k]) {
      assert p[1][k] == pre[|p[0]| + 1 + k] == s[|p[0]| + 1 + k];
    }
  }

  /** The Identifier and View constructors only set the name. */
  function NewIdentifier(raw: string): (r: AssetName)
    ensures r.quoted == IsIdentifierQuoted(raw)
    ensures '.' !in Unquote(raw) ==> r == AssetName(Unquote(raw), None, IsIdentifierQuoted(raw))
  {
    SetName(Unnamed, raw)
  }

  /** A name written between backticks parses to the bare name, marked as
      quoted. */
  lemma BacktickQuoted(n: string)
    requires Unquoted(n) && '.' !in n
    ensures NewIdentifier("`" + n + "`") == AssetName(n, None, true)
  {
    var raw := "`" + n + "`";
    assert IsIdentifierQuoted(raw);
    assert raw[1..] == n + ['`'];
    TrimAppendQuote(n);
  }

  lemma {:induction false} TrimAppendQuote(n: string)
    requires Unquoted(n)
    ensures TrimQuotes(n + ['`']) == n
  {
    if |n| == 0 {
      assert n + ['`'] == ['`'];
      assert ['`'][1..] == [];
    } else {
      assert (n + ['`'])[1..] == n[1..] + ['`'];
      TrimAppendQuote(n[1..]);
    }
  }

  /** getName: `namespace.name` when the namespace is truthy, else the name. */
  function GetName(a: AssetName): string {
    if SomeTruthy(a.namespace) then a.namespace.value + "." + a.name else a.name
  }

  /** PHP `==` between two nullable strings: null equals null and the empty
      string, two strings compare as strings. */
  predicate NamespaceLooseEq(ns: Option<string>, d: Option<string>) {
    match (ns, d)
    case (None, None) => true
    case (None, Some(x)) => x == ""
    case (Some(x), None) => x == ""
    case (Some(x), Some(y)) => x == y
  }

  /** isInDefaultNamespace */
  predicate IsInDefaultNamespace(a: AssetName, d: string) {
    NamespaceLooseEq(a.namespace, Some(d)) || a.namespace.None?
  }

  lemma InDefaultNamespaceIff(a: AssetName, d: string)
    ensures IsInDefaultNamespace(a, d) <==> (a.namespace.None? || a.namespace.value == d)
  {
  }

  /** getShortestName: lower-cased, without the namespace exactly when the
      namespace equals the default (which may be null). */
  function GetShortestName(a: AssetName, d: Option<string>): (r: string)
    ensures Lower(r) == r
    ensures NamespaceLooseEq(a.namespace, d) ==> r == Lower(a.name)
    ensures !NamespaceLooseEq(a.namespace, d) && SomeTruthy(a.namespace) ==>
      r == Lower(a.namespace.value) + "." + Lower(a.name)
  {
    var n := if NamespaceLooseEq(a.namespace, d) then a.name else GetName(a);
    LowerIdempotent(n);
    if SomeTruthy(a.namespace) then LowerDotted(a.namespace.value, a.name); Lower(n)
    else Lower(n)
  }

  /** getFullQualifiedName: lower-cased, prefixed with the default namespace
      when the asset's namespace is falsy. */
  function GetFullQualifiedName(a: AssetName, d: string): (r: string)
    ensures Lower(r) == r
    ensures !SomeTruthy(a.namespace) ==> r == Lower(d) + "." + Lower(a.name)
    ensures SomeTruthy(a.namespace) ==> r == Lower(a.namespace.value) + "." + Lower(a.name)
  {
    var n := if SomeTruthy(a.namespace) then GetName(a) else d + "." + GetName(a);
    LowerIdempotent(n);
    if SomeTruthy(a.namespace) then LowerDotted(a.namespace.value, a.name); Lower(n)
    else LowerDotted(d, a.name); Lower(n)
  }

  lemma LowerDotted(ns: string, name: string)
    ensures Lower(ns + "." + name) == Lower(ns) + "." + Lower(name)
  {
    LowerConcat(ns, "." + name);
    LowerConcat(".", name);
  }

  /** One dot segment as getQuotedName renders it. */
  function QuoteSegment(a: AssetName, seg: string, quote: string -> string, isKeyword: string -> bool): string {
    if a.quoted || isKeyword(seg) then quote(seg) else seg
  }

  /** getQuotedName: each dot segment of getName is quoted when the asset was
      quoted or the segment is a reserved keyword. */
  function GetQuotedName(a: AssetName, quote: string -> string, isKeyword: string -> bool): string {
    var parts := Split(GetName(a), '.');
    Join(seq(|parts|, i requires 0 <= i < |parts| => QuoteSegment(a, parts[i], quote, isKeyword)), ".")
  }

  /** getQuotedName keeps the segments of getName: when quoting never
      produces a dot, the rendered name splits back into exactly as many
      segments, each one quoted iff the asset is quoted or the segment is a
      keyword. */
  lemma QuotedNameSegments(a: AssetName, quote: string -> string, isKeyword: string -> bool)
    requires forall s :: '.' !in quote(s)
    ensures var parts := Split(GetName(a), '.');
      var out := Split(GetQuotedName(a, quote, isKeyword), '.');
      |out| == |parts| &&
      forall i :: 0 <= i < |parts| ==>
        out[i] == (if a.quoted || isKeyword(parts[i]) then quote(parts[i]) else parts[i])
  {
    var parts := Split(GetName(a), '.');
    var q := seq(|parts|, i requires 0 <= i < |parts| => QuoteSegment(a, parts[i], quote, isKeyword));
    SplitJoin(q, '.');
  }

  /** Parsing the name getName prints gives back the asset's name and
      namespace (the quoted flag is kept from the asset that is renamed). */
  lemma NameRoundTrip(a: AssetName, into: AssetName)
    requires SomeTruthy(a.namespace)
    requires '.' !in a.namespace.value && '.' !in a.name
    requires !IsIdentifierQuoted(GetName(a))
    ensures SetName(into, GetName(a)) == AssetName(a.name, a.namespace, into.quoted)
  {
    var t := GetName(a);
    SplitJoin([a.namespace.value, a.name], '.');
    assert Join([a.namespace.value, a.name], ".") == t;
  }

  /** The same for an asset without a namespace: the name survives, and the
      namespace of the renamed asset is kept. */
  lemma PlainNameRoundTrip(a: AssetName, into: AssetName)
    requires !SomeTruthy(a.namespace)
    requires '.' !in a.name && !IsIdentifierQuoted(a.name)
    ensures SetName(into, GetName(a)) == AssetName(a.name, into.namespace, into.quoted)
  {
  }
}

/** The comparator: which columns, indexes, foreign keys, tables and
    sequences differ between two schemas. Every loop of the class is a
    method proved equal to a function that states what it computes; the
    lemmas below are about those functions. */
module Comparator {
  import opened Base
  import opened Asset
  import opened Arrays
  import opened Types
  import opened Index
  import opened Objects
  import opened Sequence
  import opened ColumnDiff
  import opened TableDiff

  // ---------------------------------------------------------------------
  // Columns (diffColumn)

  /** A nullable integer under `!=`: null is loosely equal to 0. */
  function LooseInt(v: Option<int>): int {
    if v.None? then 0 else v.value
  }

  /** A nullable string under `==`: null is loosely equal to the empty
      string. */
  predicate LooseEq(a: Option<string>, b: Option<string>) {
    if a.None? && b.None? then true
    else if a.None? then b.value == ""
    else if b.None? then a.value == ""
    else a.value == b.value
  }

  /** The test on `default`: loosely different, or exactly one side null. */
  predicate DefaultChanged(a: Option<string>, b: Option<string>) {
    !LooseEq(a, b) || (a.None? && b.Some?) || (b.None? && a.Some?)
  }

  /** The extra null tests make the default test plain inequality. */
  lemma DefaultChangedIff(a: Option<string>, b: Option<string>)
    ensures DefaultChanged(a, b) <==> a != b
  {
  }

  /** The test on `comment`: strictly different, except that null and the
      empty string are equal. */
  predicate CommentChanged(a: Option<string>, b: Option<string>) {
    a != b && !(a.None? && b == Some("")) && !(b.None? && a == Some(""))
  }

  function When(c: bool, property: string): seq<string> {
    if c then [property] else []
  }

  /** `instanceof StringType && !instanceof GuidType || instanceof BinaryType` */
  predicate HasLength(t: TypeTag) {
    (IsString(t) && !IsGuid(t)) || t == BinaryType
  }

  /** The size properties, chosen by the first column's type: length (with
      a fallback of 255) and fixed for strings and binaries, precision (with
      a fallback of 10) and scale for decimals. */
  function SizeChanges(c1: Column, c2: Column): seq<string> {
    if HasLength(c1.typ) then
      When(OrElse(c1.length, 255) != OrElse(c2.length, 255), "length") +
      When(c1.fixed != c2.fixed, "fixed")
    else if c1.typ == DecimalType then
      When(OrElse(c1.precision, 10) != OrElse(c2.precision, 10), "precision") +
      When(LooseInt(c1.scale) != LooseInt(c2.scale), "scale")
    else []
  }

  /** The flags compared for every pair of columns. */
  function FlagChanges(c1: Column, c2: Column): seq<string> {
    When(c1.typ != c2.typ, "type") +
    When(c1.notnull != c2.notnull, "notnull") +
    When(c1.unsigned != c2.unsigned, "unsigned") +
    When(c1.autoincrement != c2.autoincrement, "autoincrement")
  }

  /** The values compared for every pair of columns. */
  function ValueChanges(c1: Column, c2: Column): seq<string> {
    When(c1.name.name != c2.name.name, "name") +
    When(c1.list != c2.list, "list") +
    When(DefaultChanged(c1.default, c2.default), "default")
  }

  /** The built-in properties, in report order. */
  function FixedChanges(c1: Column, c2: Column): seq<string> {
    FlagChanges(c1, c2) + ValueChanges(c1, c2) + SizeChanges(c1, c2) +
    When(CommentChanged(c1.comment, c2.comment), "comment")
  }

  /** When a built-in property is reported. */
  predicate FixedReported(c1: Column, c2: Column, x: string) {
    (x == "type" && c1.typ != c2.typ) ||
    (x == "notnull" && c1.notnull != c2.notnull) ||
    (x == "unsigned" && c1.unsigned != c2.unsigned) ||
    (x == "autoincrement" && c1.autoincrement != c2.autoincrement) ||
    (x == "name" && c1.name.name != c2.name.name) ||
    (x == "list" && c1.list != c2.list) ||
    (x == "default" && c1.default != c2.default) ||
    (HasLength(c1.typ) && x == "length" && OrElse(c1.length, 255) != OrElse(c2.length, 255)) ||
    (HasLength(c1.typ) && x == "fixed" && c1.fixed != c2.fixed) ||
    (!HasLength(c1.typ) && c1.typ == DecimalType && x == "precision" &&
       OrElse(c1.precision, 10) != OrElse(c2.precision, 10)) ||
    (!HasLength(c1.typ) && c1.typ == DecimalType && x == "scale" &&
       LooseInt(c1.scale) != LooseInt(c2.scale)) ||
    (x == "comment" && CommentChanged(c1.comment, c2.comment))
  }

  lemma WhenMembers(c: bool, p: string, x: string)
    ensures x in When(c, p) <==> c && x == p
  {
  }

  lemma FlagChangesMembers(c1: Column, c2: Column, x: string)
    ensures x in FlagChanges(c1, c2) <==>
      (x == "type" && c1.typ != c2.typ) ||
      (x == "notnull" && c1.notnull != c2.notnull) ||
      (x == "unsigned" && c1.unsigned != c2.unsigned) ||
      (x == "autoincrement" && c1.autoincrement != c2.autoincrement)
  {
    WhenMembers(c1.typ != c2.typ, "type", x);
    WhenMembers(c1.notnull != c2.notnull, "notnull", x);
    WhenMembers(c1.unsigned != c2.unsigned, "unsigned", x);
    WhenMembers(c1.autoincrement != c2.autoincrement, "autoincrement", x);
  }

  lemma ValueChangesMembers(c1: Column, c2: Column, x: string)
    ensures x in ValueChanges(c1, c2) <==>
      (x == "name" && c1.name.name != c2.name.name) ||
      (x == "list" && c1.list != c2.list) ||
      (x == "default" && c1.default != c2.default)
  {
    DefaultChangedIff(c1.default, c2.default);
    WhenMembers(c1.name.name != c2.name.name, "name", x);
    WhenMembers(c1.list != c2.list, "list", x);
    WhenMembers(DefaultChanged(c1.default, c2.default), "default", x);
  }

  lemma SizeChangesMembers(c1: Column, c2: Column, x: string)
    ensures x in SizeChanges(c1, c2) <==>
      (HasLength(c1.typ) && x == "length" && OrElse(c1.length, 255) != OrElse(c2.length, 255)) ||
      (HasLength(c1.typ) && x == "fixed" && c1.fixed != c2.fixed) ||
      (!HasLength(c1.typ) && c1.typ == DecimalType && x == "precision" &&
         OrElse(c1.precision, 10) != OrElse(c2.precision, 10)) ||
      (!HasLength(c1.typ) && c1.typ == DecimalType && x == "scale" &&
         LooseInt(c1.scale) != LooseInt(c2.scale))
  {
    WhenMembers(OrElse(c1.length, 255) != OrElse(c2.length, 255), "length", x);
    WhenMembers(c1.fixed != c2.fixed, "fixed", x);
    WhenMembers(OrElse(c1.precision, 10) != OrElse(c2.precision, 10), "precision", x);
    WhenMembers(LooseInt(c1.scale) != LooseInt(c2.scale), "scale", x);
  }

  lemma FixedChangesMembers(c1: Column, c2: Column, x: string)
    ensures x in FixedChanges(c1, c2) <==> FixedReported(c1, c2, x)
  {
    FlagChangesMembers(c1, c2, x);
    ValueChangesMembers(c1, c2, x);
    SizeChangesMembers(c1, c2, x);
    WhenMembers(CommentChanged(c1.comment, c2.comment), "comment", x);
  }

  /** A custom option is reported when one side lacks it or the values
      differ. */
  predicate OptionDiffers(c1: Column, c2: Column, k: string) {
    !HasProperty(c1, k) || !HasProperty(c2, k) || Property(c1, k) != Property(c2, k)
  }

  /** The custom option keys of both columns, reported in turn. */
  function CustomChanges(c1: Column, c2: Column, keys: seq<string>): seq<string>
    decreases |keys|
  {
    if |keys| == 0 then []
    else
      var k := keys[|keys| - 1];
      CustomChanges(c1, c2, keys[..|keys| - 1]) + When(OptionDiffers(c1, c2, k), k)
  }

  /** A platform option both columns have is reported when its values
      differ. */
  predicate PlatformOptionDiffers(c1: Column, c2: Column, k: string) {
    k in c1.platformOptions.m && k in c2.platformOptions.m && Property(c1, k) != Property(c2, k)
  }

  /** The platform option keys of the first column, reported in turn. */
  function PlatformChanges(c1: Column, c2: Column, keys: seq<string>): seq<string>
    decreases |keys|
  {
    if |keys| == 0 then []
    else
      var k := keys[|keys| - 1];
      PlatformChanges(c1, c2, keys[..|keys| - 1]) + When(PlatformOptionDiffers(c1, c2, k), k)
  }

  /** What diffColumn reports: the changed property names, without
      duplicates. */
  function ColumnChanges(c1: Column, c2: Column): (r: seq<string>)
    ensures forall i, j :: 0 <= i < j < |r| ==> r[i] != r[j]
  {
    Unique(FixedChanges(c1, c2) +
           CustomChanges(c1, c2, c1.customOptions.keys + c2.customOptions.keys) +
           PlatformChanges(c1, c2, c1.platformOptions.keys))
  }

  /** diffColumn: the fixed comparisons, then the loop over the custom
      option keys of both columns and the one over the platform option keys
      they share, then array_unique. */
  method DiffColumn(c1: Column, c2: Column) returns (changed: seq<string>)
    ensures changed == ColumnChanges(c1, c2)
  {
    var fixed := FixedChanges(c1, c2);
    var custom := CustomOptionChanges(c1, c2);
    var platform := PlatformOptionChanges(c1, c2);
    changed := Unique(fixed + custom + platform);
  }

  /** The loop over the custom option keys. */
  method CustomOptionChanges(c1: Column, c2: Column) returns (props: seq<string>)
    ensures props == CustomChanges(c1, c2, c1.customOptions.keys + c2.customOptions.keys)
  {
    var keys := c1.customOptions.keys + c2.customOptions.keys;
    props := [];
    var i := 0;
    while i < |keys|
      invariant 0 <= i <= |keys|
      invariant props == CustomChanges(c1, c2, keys[..i])
    {
      assert keys[..i + 1][..i] == keys[..i];
      var k := keys[i];
      if !HasProperty(c1, k) || !HasProperty(c2, k) {
        props := props + [k];
      } else if Property(c1, k) != Property(c2, k) {
        props := props + [k];
      }
      i := i + 1;
    }
    assert keys[..i] == keys;
  }

  /** The loop over the platform option keys the columns share. */
  method PlatformOptionChanges(c1: Column, c2: Column) returns (props: seq<string>)
    ensures props == PlatformChanges(c1, c2, c1.platformOptions.keys)
  {
    var keys := c1.platformOptions.keys;
    props := [];
    var i := 0;
    while i < |keys|
      invariant 0 <= i <= |keys|
      invariant props == PlatformChanges(c1, c2, keys[..i])
    {
      assert keys[..i + 1][..i] == keys[..i];
      var k := keys[i];
      if k in c1.platformOptions.m && k in c2.platformOptions.m && Property(c1, k) != Property(c2, k) {
        props := props + [k];
      }
      i := i + 1;
    }
    assert keys[..i] == keys;
  }

  lemma {:induction false} CustomChangesMembers(c1: Column, c2: Column, keys: seq<string>, x: string)
    ensures x in CustomChanges(c1, c2, keys) <==> x in keys && OptionDiffers(c1, c2, x)
    decreases |keys|
  {
    if |keys| > 0 {
      var init := keys[..|keys| - 1];
      CustomChangesMembers(c1, c2, init, x);
      assert keys == init + [keys[|keys| - 1]];
    }
  }

  lemma {:induction false} PlatformChangesMembers(c1: Column, c2: Column, keys: seq<string>, x: string)
    ensures x in PlatformChanges(c1, c2, keys) <==> x in keys && PlatformOptionDiffers(c1, c2, x)
    decreases |keys|
  {
    if |keys| > 0 {
      var init := keys[..|keys| - 1];
      PlatformChangesMembers(c1, c2, init, x);
      assert keys == init + [keys[|keys| - 1]];
    }
  }

  /** A property is reported exactly when one of the three parts reports
      it. */
  lemma ColumnChangesMembers(c1: Column, c2: Column, x: string)
    ensures x in ColumnChanges(c1, c2) <==>
      FixedReported(c1, c2, x) ||
      (x in c1.customOptions.keys + c2.customOptions.keys && OptionDiffers(c1, c2, x)) ||
      (x in c1.platformOptions.keys && PlatformOptionDiffers(c1, c2, x))
  {
    var all := FixedChanges(c1, c2) +
           CustomChanges(c1, c2, c1.customOptions.keys + c2.customOptions.keys) +
           PlatformChanges(c1, c2, c1.platformOptions.keys);
    FixedChangesMembers(c1, c2, x);
    CustomChangesMembers(c1, c2, c1.customOptions.keys + c2.customOptions.keys, x);
    PlatformChangesMembers(c1, c2, c1.platformOptions.keys, x);
    if x in all {
      var i :| 0 <= i < |all| && all[i] == x;
      assert x in Unique(all);
    }
    if x in Unique(all) {
      var i :| 0 <= i < |Unique(all)| && Unique(all)[i] == x;
      assert x in all;
    }
  }

  lemma {:induction false} CustomChangesSelf(c: Column, keys: seq<string>)
    requires forall k :: k in keys ==> HasProperty(c, k)
    ensures CustomChanges(c, c, keys) == []
    decreases |keys|
  {
    if |keys| > 0 {
      CustomChangesSelf(c, keys[..|keys| - 1]);
      assert keys[|keys| - 1] in keys;
    }
  }

  lemma {:induction false} PlatformChangesSelf(c: Column, keys: seq<string>)
    ensures PlatformChanges(c, c, keys) == []
    decreases |keys|
  {
    if |keys| > 0 {
      PlatformChangesSelf(c, keys[..|keys| - 1]);
    }
  }

  /** A column compared with itself has no changes. */
  lemma ColumnChangesSelf(c: Column)
    requires ValidDict(c.customOptions)
    ensures ColumnChanges(c, c) == []
  {
    CustomChangesSelf(c, c.customOptions.keys + c.customOptions.keys);
    PlatformChangesSelf(c, c.platformOptions.keys);
    assert FixedChanges(c, c) == [];
  }

  /** The size properties, compared according to the first column's type. */
  const SizeProperties: set<string> := {"length", "fixed", "precision", "scale"}

  lemma FixedReportedSymmetric(c1: Column, c2: Column, x: string)
    requires c1.typ == c2.typ || x !in SizeProperties
    ensures FixedReported(c1, c2, x) <==> FixedReported(c2, c1, x)
  {
  }

  lemma OptionsSymmetric(c1: Column, c2: Column, x: string)
    requires ValidDict(c1.platformOptions) && ValidDict(c2.platformOptions)
    ensures (x in c1.customOptions.keys + c2.customOptions.keys && OptionDiffers(c1, c2, x)) <==>
            (x in c2.customOptions.keys + c1.customOptions.keys && OptionDiffers(c2, c1, x))
    ensures (x in c1.platformOptions.keys && PlatformOptionDiffers(c1, c2, x)) <==>
            (x in c2.platformOptions.keys && PlatformOptionDiffers(c2, c1, x))
  {
  }

  /** Every property except the size ones is reported whatever the order
      of the arguments; the size properties are chosen by the first
      column's type, so between columns of the same type all of them are. */
  lemma ColumnChangesSymmetric(c1: Column, c2: Column)
    requires ValidDict(c1.platformOptions) && ValidDict(c2.platformOptions)
    ensures forall x :: x !in SizeProperties ==> (x in ColumnChanges(c1, c2) <==> x in ColumnChanges(c2, c1))
    ensures c1.typ == c2.typ ==> forall x :: x in ColumnChanges(c1, c2) <==> x in ColumnChanges(c2, c1)
  {
    forall x | c1.typ == c2.typ || x !in SizeProperties
      ensures x in ColumnChanges(c1, c2) <==> x in ColumnChanges(c2, c1)
    {
      ColumnChangesMembers(c1, c2, x);
      ColumnChangesMembers(c2, c1, x);
      FixedReportedSymmetric(c1, c2, x);
      OptionsSymmetric(c1, c2, x);
    }
  }

  /** The names of the built-in properties. */
  const BuiltinProperties: set<string> :=
    {"type", "notnull", "unsigned", "autoincrement", "name", "list", "default",
     "length", "fixed", "precision", "scale", "comment"}

  /** No option of the column shadows a built-in property. */
  predicate OptionsApart(c: Column) {
    (forall k :: k in c.customOptions.keys ==> k !in BuiltinProperties) &&
    (forall k :: k in c.platformOptions.keys ==> k !in BuiltinProperties)
  }

  /** A built-in property is reported exactly when the built-in
      comparisons report it. */
  lemma BuiltinReported(c1: Column, c2: Column, x: string)
    requires OptionsApart(c1) && OptionsApart(c2) && x in BuiltinProperties
    ensures x in ColumnChanges(c1, c2) <==> FixedReported(c1, c2, x)
  {
    ColumnChangesMembers(c1, c2, x);
  }

  /** The four flags compared for every pair of columns are reported
      exactly when they differ. */
  lemma ColumnChangesFlags(c1: Column, c2: Column)
    requires OptionsApart(c1) && OptionsApart(c2)
    ensures var r := ColumnChanges(c1, c2);
      ("type" in r <==> c1.typ != c2.typ) &&
      ("notnull" in r <==> c1.notnull != c2.notnull) &&
      ("unsigned" in r <==> c1.unsigned != c2.unsigned) &&
      ("autoincrement" in r <==> c1.autoincrement != c2.autoincrement)
  {
    BuiltinReported(c1, c2, "type");
    BuiltinReported(c1, c2, "notnull");
    BuiltinReported(c1, c2, "unsigned");
    BuiltinReported(c1, c2, "autoincrement");
  }

  /** So are the name and the value list. */
  lemma ColumnChangesNameAndList(c1: Column, c2: Column)
    requires OptionsApart(c1) && OptionsApart(c2)
    ensures var r := ColumnChanges(c1, c2);
      ("name" in r <==> c1.name.name != c2.name.name) &&
      ("list" in r <==> c1.list != c2.list)
  {
    BuiltinReported(c1, c2, "name");
    BuiltinReported(c1, c2, "list");
  }

  /** The default is reported on any difference, a null default counting
      as different from every other value; the comment on any difference
      except between null and the empty string. */
  lemma ColumnChangesDefaultAndComment(c1: Column, c2: Column)
    requires OptionsApart(c1) && OptionsApart(c2)
    ensures var r := ColumnChanges(c1, c2);
      ("default" in r <==> c1.default != c2.default) &&
      ("comment" in r <==>
        (c1.comment != c2.comment &&
         !(c1.comment.None? && c2.comment == Some("")) &&
         !(c2.comment.None? && c1.comment == Some(""))))
  {
    BuiltinReported(c1, c2, "default");
    BuiltinReported(c1, c2, "comment");
  }

  /** Length and fixed are compared only for (non-Guid) strings and
      binaries, a null or zero length meaning 255. The first column's type
      decides. */
  lemma ColumnChangesLength(c1: Column, c2: Column)
    requires OptionsApart(c1) && OptionsApart(c2)
    ensures var r := ColumnChanges(c1, c2);
      ((c1.typ == StringType || c1.typ == BinaryType) ==>
         ("length" in r <==> OrElse(c1.length, 255) != OrElse(c2.length, 255)) &&
         ("fixed" in r <==> c1.fixed != c2.fixed)) &&
      (c1.typ != StringType && c1.typ != BinaryType ==> "length" !in r && "fixed" !in r)
  {
    BuiltinReported(c1, c2, "length");
    BuiltinReported(c1, c2, "fixed");
  }

  /** Precision and scale are compared only for decimals, a null or zero
      precision meaning 10 and a null scale meaning 0. */
  lemma ColumnChangesDecimal(c1: Column, c2: Column)
    requires OptionsApart(c1) && OptionsApart(c2)
    ensures var r := ColumnChanges(c1, c2);
      (c1.typ == DecimalType ==>
         ("precision" in r <==> OrElse(c1.precision, 10) != OrElse(c2.precision, 10)) &&
         ("scale" in r <==> LooseInt(c1.scale) != LooseInt(c2.scale))) &&
      (c1.typ != DecimalType ==> "precision" !in r && "scale" !in r)
  {
    BuiltinReported(c1, c2, "precision");
    BuiltinReported(c1, c2, "scale");
  }

  /** As written, two columns are rename candidates only when diffColumn
      reports nothing, and diffColumn compares names: a candidate pair has
      equal names, so no rename is ever found. */
  lemma RenameCandidatesShareName(c1: Column, c2: Column)
    requires ColumnChanges(c1, c2) == []
    ensures c1.name.name == c2.name.name && c1.typ == c2.typ
  {
    ColumnChangesMembers(c1, c2, "name");
    ColumnChangesMembers(c1, c2, "type");
  }

  /** What rename detection means to compare: diffColumn with the name
      left out, that is, the added column compared under the removed
      column's name. */
  function RenameChanges(added: Column, removed: Column): seq<string> {
    ColumnChanges(added.(name := removed.name), removed)
  }

  /** Renaming the first column changes only whether the name is
      reported. */
  lemma FixedRenamed(a: Column, r: Column, x: string)
    ensures FixedReported(a.(name := r.name), r, x) <==> FixedReported(a, r, x) && x != "name"
  {
  }

  /** Columns with the same options report the same option differences. */
  lemma SameOptions(c: Column, d: Column, r: Column, x: string)
    requires c.customOptions == d.customOptions && c.platformOptions == d.platformOptions
    ensures OptionDiffers(c, r, x) == OptionDiffers(d, r, x)
    ensures PlatformOptionDiffers(c, r, x) == PlatformOptionDiffers(d, r, x)
    ensures c.customOptions.keys + r.customOptions.keys == d.customOptions.keys + r.customOptions.keys
    ensures c.platformOptions.keys == d.platformOptions.keys
  {
  }

  /** RenameChangesIgnoresName for one reported property. */
  lemma RenameChangesMember(a: Column, r: Column, x: string)
    requires OptionsApart(a) && OptionsApart(r)
    ensures x in RenameChanges(a, r) <==> x in ColumnChanges(a, r) && x != "name"
  {
    var a1 := a.(name := r.name);
    var o := x in a.customOptions.keys + r.customOptions.keys && OptionDiffers(a, r, x);
    var p := x in a.platformOptions.keys && PlatformOptionDiffers(a, r, x);
    assert x == "name" ==> !o && !p by {
      if x == "name" {
        assert x in BuiltinProperties;
      }
    }
    assert RenameChanges(a, r) == ColumnChanges(a1, r);
    assert x in ColumnChanges(a1, r) <==> FixedReported(a1, r, x) || o || p by {
      ColumnChangesMembers(a1, r, x);
      SameOptions(a1, a, r, x);
    }
    assert x in ColumnChanges(a, r) <==> FixedReported(a, r, x) || o || p by {
      ColumnChangesMembers(a, r, x);
    }
    FixedRenamed(a, r, x);
  }

  /** The corrected comparison reports what diffColumn reports except the
      name, and accepts a column against a copy of itself under another
      name. */
  lemma RenameChangesIgnoresName(a: Column, r: Column)
    requires OptionsApart(a) && OptionsApart(r)
    requires ValidDict(r.customOptions)
    ensures forall x :: x in RenameChanges(a, r) <==> x in ColumnChanges(a, r) && x != "name"
    ensures a == r.(name := a.name) ==> RenameChanges(a, r) == []
  {
    var a1 := a.(name := r.name);
    forall x
      ensures x in RenameChanges(a, r) <==> x in ColumnChanges(a, r) && x != "name"
    {
      RenameChangesMember(a, r, x);
    }
    if a == r.(name := a.name) {
      assert a1 == r;
      ColumnChangesSelf(r);
    }
  }
  // ---------------------------------------------------------------------
  // Indexes, foreign keys and sequences

  /** diffIndex: two indexes differ unless each fulfils the other. */
  predicate DiffIndex(a: Index, b: Index) {
    !(FulfilledBy(a, b) && FulfilledBy(b, a))
  }

  /** diffIndex is symmetric and irreflexive, and indexes it finds equal
      have the same columns up to case and quotes and the same partial
      predicate. */
  lemma DiffIndexProperties(a: Index, b: Index)
    ensures DiffIndex(a, b) <==> DiffIndex(b, a)
    ensures !DiffIndex(a, a)
    ensures !DiffIndex(a, b) ==>
      (|a.columns| == |b.columns| && SamePartial(a, b) &&
       forall i :: 0 <= i < |a.columns| ==> Norm(a.columns[i]) == Norm(b.columns[i]))
  {
    FulfilledByReflexive(a);
    if !DiffIndex(a, b) {
      MutualFulfilment(a, b);
    }
  }

  /** diffForeignKey: the lower-cased unquoted local and foreign columns,
      the unqualified foreign table name and the two referential actions
      are compared; the constraint names are not. */
  predicate DiffForeignKey(k1: ForeignKey, k2: ForeignKey) {
    LowerAll(UnquotedAll(k1.localColumns)) != LowerAll(UnquotedAll(k2.localColumns)) ||
    LowerAll(UnquotedAll(k1.foreignColumns)) != LowerAll(UnquotedAll(k2.foreignColumns)) ||
    k1.unqualifiedForeignTableName != k2.unqualifiedForeignTableName ||
    !LooseEq(k1.onUpdate, k2.onUpdate) ||
    !LooseEq(k1.onDelete, k2.onDelete)
  }

  /** diffForeignKey is symmetric and irreflexive, ignores the constraint
      names and the local table, and tells two keys apart when their
      lower-cased local columns differ. */
  lemma DiffForeignKeyProperties(k1: ForeignKey, k2: ForeignKey, n: string)
    ensures DiffForeignKey(k1, k2) <==> DiffForeignKey(k2, k1)
    ensures !DiffForeignKey(k1, k1)
    ensures !DiffForeignKey(k1, k1.(name := n, localTableName := n))
    ensures LowerAll(UnquotedAll(k1.localColumns)) != LowerAll(UnquotedAll(k2.localColumns)) ==>
      DiffForeignKey(k1, k2)
  {
  }

  /** diffSequence */
  predicate DiffSequence(s1: Sequence, s2: Sequence) {
    s1.allocationSize != s2.allocationSize || s1.initialValue != s2.initialValue
  }

  /** diffSequence is symmetric and irreflexive and ignores the name and
      the cache: setting the cache never makes a difference, setting the
      allocation size or initial value makes one exactly when the value
      read back changes. */
  lemma DiffSequenceProperties(s1: Sequence, s2: Sequence, a: NumArg, c: Option<int>)
    ensures DiffSequence(s1, s2) <==> DiffSequence(s2, s1)
    ensures !DiffSequence(s1, s1)
    ensures s1.allocationSize == s2.allocationSize && s1.initialValue == s2.initialValue ==> !DiffSequence(s1, s2)
    ensures !DiffSequence(s1, SetCache(s1, c))
    ensures DiffSequence(s1, SetAllocationSize(s1, a)) <==> NumericOrOne(a) != s1.allocationSize
    ensures DiffSequence(s1, SetInitialValue(s1, a)) <==> NumericOrOne(a) != s1.initialValue
  {
  }

  // ---------------------------------------------------------------------
  // Pairing foreign keys (the nested loops of diffTable)

  /** The state of one pass of the inner loop: whether the from-key was
      matched, which to-keys are still unmatched, and the to-keys reported
      changed. */
  datatype Match = Match(matched: bool, alive: seq<bool>, changed: seq<ForeignKey>)

  /** The inner loop for the from-key `c1` over `to[..n]`: a to-key still
      unmatched is cancelled when it is structurally equal to `c1`, or
      reported changed and cancelled when only the lower-cased names agree.
      The pass goes on after a match. */
  function MatchKey(c1: ForeignKey, to: seq<ForeignKey>, alive: seq<bool>, n: nat): (r: Match)
    requires n <= |to| == |alive|
    ensures |r.alive| == |alive|
    decreases n
  {
    if n == 0 then Match(false, alive, [])
    else
      var r := MatchKey(c1, to, alive, n - 1);
      var j := n - 1;
      if !r.alive[j] then r
      else if !DiffForeignKey(c1, to[j]) then Match(true, r.alive[j := false], r.changed)
      else if Lower(c1.name) == Lower(to[j].name) then
        Match(true, r.alive[j := false], r.changed + [to[j]])
      else r
  }

  /** The state of the outer loop after `from[..m]`. */
  datatype Pairing = Pairing(fromAlive: seq<bool>, toAlive: seq<bool>, changed: seq<ForeignKey>)

  function PairKeys(from: seq<ForeignKey>, to: seq<ForeignKey>, m: nat): (p: Pairing)
    requires m <= |from|
    ensures |p.fromAlive| == m && |p.toAlive| == |to|
    decreases m
  {
    if m == 0 then Pairing([], seq(|to|, _ => true), [])
    else
      var p := PairKeys(from, to, m - 1);
      var r := MatchKey(from[m - 1], to, p.toAlive, |to|);
      Pairing(p.fromAlive + [!r.matched], r.alive, p.changed + r.changed)
  }

  /** The entries whose flag is set, in order. */
  function Kept<T>(s: seq<T>, alive: seq<bool>): (r: seq<T>)
    requires |s| == |alive|
    ensures |r| <= |s|
    decreases |s|
  {
    if |s| == 0 then []
    else Kept(s[..|s| - 1], alive[..|s| - 1]) + (if alive[|s| - 1] then [s[|s| - 1]] else [])
  }

  /** The foreign-key part of diffTable: the nested pairing loops, then the
      leftover from-keys as removed and the leftover to-keys as added. */
  method PairForeignKeys(from: seq<ForeignKey>, to: seq<ForeignKey>)
    returns (removed: seq<ForeignKey>, changed: seq<ForeignKey>, added: seq<ForeignKey>)
    ensures var p := PairKeys(from, to, |from|);
      removed == Kept(from, p.fromAlive) && changed == p.changed && added == Kept(to, p.toAlive)
  {
    var fromAlive: seq<bool> := [];
    var toAlive: seq<bool> := seq(|to|, _ => true);
    changed := [];
    var i := 0;
    while i < |from|
      invariant 0 <= i <= |from|
      invariant PairKeys(from, to, i) == Pairing(fromAlive, toAlive, changed)
    {
      var c1 := from[i];
      var start := toAlive;
      var matched := false;
      var found: seq<ForeignKey> := [];
      var j := 0;
      while j < |to|
        invariant 0 <= j <= |to|
        invariant MatchKey(c1, to, start, j) == Match(matched, toAlive, found)
      {
        if toAlive[j] {
          if !DiffForeignKey(c1, to[j]) {
            matched := true;
            toAlive := toAlive[j := false];
          } else if Lower(c1.name) == Lower(to[j].name) {
            found := found + [to[j]];
            matched := true;
            toAlive := toAlive[j := false];
          }
        }
        j := j + 1;
      }
      fromAlive := fromAlive + [!matched];
      changed := changed + found;
      i := i + 1;
    }
    removed := KeepAlive(from, fromAlive);
    added := KeepAlive(to, toAlive);
  }

  /** `foreach ($keys as $k) $list[] = $k;` over the entries still set. */
  method KeepAlive<T>(s: seq<T>, alive: seq<bool>) returns (r: seq<T>)
    requires |s| == |alive|
    ensures r == Kept(s, alive)
  {
    r := [];
    var i := 0;
    while i < |s|
      invariant 0 <= i <= |s|
      invariant r == Kept(s[..i], alive[..i])
    {
      assert s[..i + 1][..i] == s[..i] && alive[..i + 1][..i] == alive[..i];
      if alive[i] {
        r := r + [s[i]];
      }
      i := i + 1;
    }
    assert s[..i] == s && alive[..i] == alive;
  }

  /** Two keys that neither cancel nor pair by name. */
  predicate Apart(k1: ForeignKey, k2: ForeignKey) {
    DiffForeignKey(k1, k2) && Lower(k1.name) != Lower(k2.name)
  }

  /** No two of the table's foreign keys could pair with each other. */
  ghost predicate ForeignKeysApart(t: Table) {
    forall i, j ::
      (0 <= i < |t.foreignKeys.keys| && 0 <= j < |t.foreignKeys.keys| && i != j &&
       t.foreignKeys.keys[i] in t.foreignKeys.m && t.foreignKeys.keys[j] in t.foreignKeys.m) ==>
      Apart(t.foreignKeys.m[t.foreignKeys.keys[i]], t.foreignKeys.m[t.foreignKeys.keys[j]])
  }

  /** One pass leaves a to-key unmatched exactly when it was unmatched and,
      if the pass reached it, it is apart from the from-key. */
  lemma {:induction false} MatchKeyAlive(c1: ForeignKey, to: seq<ForeignKey>, alive: seq<bool>, n: nat)
    requires n <= |to| == |alive|
    ensures forall j :: 0 <= j < |to| ==>
      (MatchKey(c1, to, alive, n).alive[j] <==> alive[j] && (j >= n || Apart(c1, to[j])))
    decreases n
  {
    if n > 0 {
      MatchKeyAlive(c1, to, alive, n - 1);
    }
  }

  /** The from-key is matched exactly when the pass met an unmatched
      to-key that is not apart from it. */
  lemma {:induction false} MatchKeyMatched(c1: ForeignKey, to: seq<ForeignKey>, alive: seq<bool>, n: nat)
    requires n <= |to| == |alive|
    ensures MatchKey(c1, to, alive, n).matched <==>
      exists j :: 0 <= j < n && alive[j] && !Apart(c1, to[j])
    decreases n
  {
    if n > 0 {
      MatchKeyMatched(c1, to, alive, n - 1);
      MatchKeyAlive(c1, to, alive, n - 1);
    }
  }

  /** A pass reports only to-keys that share the from-key's lower-cased
      name but not its structure, and none when there is no such key. */
  lemma {:induction false} MatchKeyChanged(c1: ForeignKey, to: seq<ForeignKey>, alive: seq<bool>, n: nat)
    requires n <= |to| == |alive|
    ensures forall x :: x in MatchKey(c1, to, alive, n).changed ==>
      x in to && DiffForeignKey(c1, x) && Lower(c1.name) == Lower(x.name)
    ensures (forall j :: 0 <= j < n && alive[j] ==> !DiffForeignKey(c1, to[j]) || Apart(c1, to[j])) ==>
      MatchKey(c1, to, alive, n).changed == []
    decreases n
  {
    if n > 0 {
      MatchKeyChanged(c1, to, alive, n - 1);
      MatchKeyAlive(c1, to, alive, n - 1);
    }
  }

  /** Every to-key left over is apart from every from-key: it neither
      equals one in structure nor shares a lower-cased name with one. */
  lemma {:induction false} PairingLeftovers(from: seq<ForeignKey>, to: seq<ForeignKey>, m: nat)
    requires m <= |from|
    ensures var p := PairKeys(from, to, m);
      forall i, j :: 0 <= i < m && 0 <= j < |to| && p.toAlive[j] ==> Apart(from[i], to[j])
    decreases m
  {
    if m > 0 {
      PairingLeftovers(from, to, m - 1);
      var p := PairKeys(from, to, m - 1);
      MatchKeyAlive(from[m - 1], to, p.toAlive, |to|);
    }
  }

  /** A from-key is left over exactly when every to-key still unmatched
      when its pass began is apart from it. */
  lemma {:induction false} PairingUnmatched(from: seq<ForeignKey>, to: seq<ForeignKey>, m: nat)
    requires m <= |from|
    ensures forall i :: 0 <= i < m ==>
      (PairKeys(from, to, m).fromAlive[i] <==>
       forall j :: 0 <= j < |to| && PairKeys(from, to, i).toAlive[j] ==> Apart(from[i], to[j]))
  {
    forall i | 0 <= i < m
      ensures PairKeys(from, to, m).fromAlive[i] <==>
        forall j :: 0 <= j < |to| && PairKeys(from, to, i).toAlive[j] ==> Apart(from[i], to[j])
    {
      PairingUnmatchedAt(from, to, m, i);
    }
  }

  /** PairingUnmatched for the from-key at `i`. */
  lemma {:induction false} PairingUnmatchedAt(from: seq<ForeignKey>, to: seq<ForeignKey>, m: nat, i: nat)
    requires i < m <= |from|
    ensures PairKeys(from, to, m).fromAlive[i] <==>
      forall j :: 0 <= j < |to| && PairKeys(from, to, i).toAlive[j] ==> Apart(from[i], to[j])
    decreases m
  {
    var p := PairKeys(from, to, m - 1);
    var r := MatchKey(from[m - 1], to, p.toAlive, |to|);
    assert PairKeys(from, to, m).fromAlive == p.fromAlive + [!r.matched];
    if i < m - 1 {
      PairingUnmatchedAt(from, to, m - 1, i);
      assert PairKeys(from, to, m).fromAlive[i] == p.fromAlive[i];
    } else {
      MatchKeyMatched(from[m - 1], to, p.toAlive, |to|);
      assert PairKeys(from, to, m).fromAlive[i] == !r.matched;
    }
  }

  /** Every key reported changed is a to-key that shares its lower-cased
      name with some from-key and differs from it in structure. */
  lemma {:induction false} PairingChanged(from: seq<ForeignKey>, to: seq<ForeignKey>, m: nat)
    requires m <= |from|
    ensures forall x :: x in PairKeys(from, to, m).changed ==>
      (x in to && exists i :: 0 <= i < m && Lower(from[i].name) == Lower(x.name) && DiffForeignKey(from[i], x))
    decreases m
  {
    if m > 0 {
      PairingChanged(from, to, m - 1);
      var p := PairKeys(from, to, m - 1);
      MatchKeyChanged(from[m - 1], to, p.toAlive, |to|);
      var r := MatchKey(from[m - 1], to, p.toAlive, |to|);
      forall x | x in PairKeys(from, to, m).changed
        ensures x in to && exists i :: 0 <= i < m && Lower(from[i].name) == Lower(x.name) && DiffForeignKey(from[i], x)
      {
        if x in r.changed {
          assert Lower(from[m - 1].name) == Lower(x.name) && DiffForeignKey(from[m - 1], x);
        } else {
          assert x in p.changed;
        }
      }
    }
  }

  /** The pass of key `k` over a pairwise apart list in which exactly the
      keys from `k` on are unmatched matches `k` with itself alone. */
  lemma MatchSelf(ks: seq<ForeignKey>, alive: seq<bool>, k: nat)
    requires k < |ks| == |alive|
    requires forall i, j :: 0 <= i < |ks| && 0 <= j < |ks| && i != j ==> Apart(ks[i], ks[j])
    requires forall j :: 0 <= j < |ks| ==> (alive[j] <==> j >= k)
    ensures var r := MatchKey(ks[k], ks, alive, |ks|);
      r.matched && r.changed == [] && forall j :: 0 <= j < |ks| ==> (r.alive[j] <==> j > k)
  {
    var c := ks[k];
    assert !DiffForeignKey(c, c);
    MatchKeyAlive(c, ks, alive, |ks|);
    MatchKeyMatched(c, ks, alive, |ks|);
    assert alive[k] && !Apart(c, ks[k]);
    MatchKeyChanged(c, ks, alive, |ks|);
  }

  /** Pairing a list of pairwise apart keys with itself matches every key
      with itself: nothing is left over and nothing is reported changed. */
  lemma {:induction false} PairingSelf(ks: seq<ForeignKey>, m: nat)
    requires m <= |ks|
    requires forall i, j :: 0 <= i < |ks| && 0 <= j < |ks| && i != j ==> Apart(ks[i], ks[j])
    ensures var p := PairKeys(ks, ks, m);
      (forall i :: 0 <= i < m ==> !p.fromAlive[i]) &&
      (forall j :: 0 <= j < |ks| ==> (p.toAlive[j] <==> j >= m)) &&
      p.changed == []
    decreases m
  {
    if m > 0 {
      PairingSelf(ks, m - 1);
      MatchSelf(ks, PairKeys(ks, ks, m - 1).toAlive, m - 1);
    }
  }

  // ---------------------------------------------------------------------
  // Rename detection (detectColumnRenamings, detectIndexRenamings)

  /** The candidate pairs (removed, added) filed under one added name. */
  function Group<V>(d: Dict<seq<(V, V)>>, g: string): seq<(V, V)> {
    if g in d.m then d.m[g] else []
  }

  /** The inner candidate loop for the added entry `a` over `removed[..n]`:
      each removed entry that `same` accepts is filed under `nameOf(a)`. */
  function AddCandidates<V>(d: Dict<seq<(V, V)>>, a: V, removed: seq<V>,
                            same: (V, V) -> bool, nameOf: V -> string, n: nat): (r: Dict<seq<(V, V)>>)
    requires ValidDict(d) && n <= |removed|
    ensures ValidDict(r)
    decreases n
  {
    if n == 0 then d
    else
      var r := AddCandidates(d, a, removed, same, nameOf, n - 1);
      if same(a, removed[n - 1]) then Put(r, nameOf(a), Group(r, nameOf(a)) + [(removed[n - 1], a)])
      else r
  }

  /** The outer candidate loop over the added entries under `keys`. */
  function Candidates<V>(keys: seq<string>, added: map<string, V>, removed: seq<V>,
                         same: (V, V) -> bool, nameOf: V -> string): (d: Dict<seq<(V, V)>>)
    ensures ValidDict(d)
    decreases |keys|
  {
    if |keys| == 0 then Empty()
    else
      var d := Candidates(keys[..|keys| - 1], added, removed, same, nameOf);
      var k := keys[|keys| - 1];
      if k in added then AddCandidates(d, added[k], removed, same, nameOf, |removed|) else d
  }

  /** The three collections rename detection reads and updates. */
  datatype Renaming<V> = Renaming(renamed: Dict<V>, added: Dict<V>, removed: Dict<V>)

  ghost predicate ValidRenaming<V>(st: Renaming<V>) {
    ValidDict(st.renamed) && ValidDict(st.added) && ValidDict(st.removed)
  }

  /** The promotion loop over the first `n` candidate groups: a group with
      exactly one pair renames its removed entry (by lower-cased name) to
      its added entry, unless that name was already renamed, and drops
      both from the added and removed collections. */
  function Promote<V>(cands: Dict<seq<(V, V)>>, n: nat, st: Renaming<V>, nameOf: V -> string): (r: Renaming<V>)
    requires n <= |cands.keys| && ValidRenaming(st)
    ensures ValidRenaming(r)
    decreases n
  {
    if n == 0 then st
    else
      var r := Promote(cands, n - 1, st, nameOf);
      var g := cands.keys[n - 1];
      if g !in cands.m || |cands.m[g]| != 1 then r
      else
        var rem := cands.m[g][0].0;
        var add := cands.m[g][0].1;
        var rk := Lower(nameOf(rem));
        if rk in r.renamed.m then r
        else Renaming(Put(r.renamed, rk, add), Remove(r.added, Lower(nameOf(add))), Remove(r.removed, rk))
  }

  /** What rename detection computes from the collections it starts with. */
  function Renamings<V>(st: Renaming<V>, same: (V, V) -> bool, nameOf: V -> string): (r: Renaming<V>)
    requires ValidRenaming(st)
    ensures ValidRenaming(r)
  {
    var cands := Candidates(st.added.keys, st.added.m, Values(st.removed), same, nameOf);
    Promote(cands, |cands.keys|, st, nameOf)
  }

  /** Rename detection, for columns and indexes alike: the candidate loops
      and then the promotion loop. */
  method DetectRenamings<V>(st: Renaming<V>, same: (V, V) -> bool, nameOf: V -> string) returns (r: Renaming<V>)
    requires ValidRenaming(st)
    ensures r == Renamings(st, same, nameOf)
  {
    var cands := FindCandidates(st.added, Values(st.removed), same, nameOf);
    r := PromoteCandidates(cands, st, nameOf);
  }

  method FindCandidates<V>(added: Dict<V>, removed: seq<V>, same: (V, V) -> bool, nameOf: V -> string)
    returns (cands: Dict<seq<(V, V)>>)
    ensures cands == Candidates(added.keys, added.m, removed, same, nameOf)
  {
    var keys := added.keys;
    cands := Empty();
    var i := 0;
    while i < |keys|
      invariant 0 <= i <= |keys|
      invariant cands == Candidates(keys[..i], added.m, removed, same, nameOf)
    {
      assert keys[..i + 1][..i] == keys[..i];
      if keys[i] in added.m {
        var a := added.m[keys[i]];
        var start := cands;
        var j := 0;
        while j < |removed|
          invariant 0 <= j <= |removed|
          invariant cands == AddCandidates(start, a, removed, same, nameOf, j)
        {
          if same(a, removed[j]) {
            cands := Put(cands, nameOf(a), Group(cands, nameOf(a)) + [(removed[j], a)]);
          }
          j := j + 1;
        }
      }
      i := i + 1;
    }
    assert keys[..i] == keys;
  }

  method PromoteCandidates<V>(cands: Dict<seq<(V, V)>>, st: Renaming<V>, nameOf: V -> string) returns (r: Renaming<V>)
    requires ValidRenaming(st)
    ensures r == Promote(cands, |cands.keys|, st, nameOf)
  {
    r := st;
    var n := 0;
    while n < |cands.keys|
      invariant 0 <= n <= |cands.keys|
      invariant r == Promote(cands, n, st, nameOf)
    {
      var g := cands.keys[n];
      if g in cands.m && |cands.m[g]| == 1 {
        var rem := cands.m[g][0].0;
        var add := cands.m[g][0].1;
        var rk := Lower(nameOf(rem));
        if rk !in r.renamed.m {
          r := Renaming(Put(r.renamed, rk, add), Remove(r.added, Lower(nameOf(add))), Remove(r.removed, rk));
        }
      }
      n := n + 1;
    }
  }

  /** Every candidate pair is filed under its added entry's name, pairs an
      added entry with a removed one, and is accepted by `same`. */
  ghost predicate SoundCandidates<V>(d: Dict<seq<(V, V)>>, added: map<string, V>, removed: seq<V>,
                                     same: (V, V) -> bool, nameOf: V -> string) {
    forall g, i :: g in d.m && 0 <= i < |d.m[g]| ==>
      g == nameOf(d.m[g][i].1) && same(d.m[g][i].1, d.m[g][i].0) &&
      d.m[g][i].0 in removed && d.m[g][i].1 in added.Values
  }

  lemma {:induction false} AddCandidatesSound<V>(d: Dict<seq<(V, V)>>, added: map<string, V>, a: V, removed: seq<V>,
                                                 same: (V, V) -> bool, nameOf: V -> string, n: nat)
    requires ValidDict(d) && n <= |removed| && a in added.Values
    requires SoundCandidates(d, added, removed, same, nameOf)
    ensures SoundCandidates(AddCandidates(d, a, removed, same, nameOf, n), added, removed, same, nameOf)
    decreases n
  {
    if n > 0 {
      AddCandidatesSound(d, added, a, removed, same, nameOf, n - 1);
    }
  }

  lemma {:induction false} CandidatesSound<V>(keys: seq<string>, added: map<string, V>, removed: seq<V>,
                                              same: (V, V) -> bool, nameOf: V -> string)
    ensures SoundCandidates(Candidates(keys, added, removed, same, nameOf), added, removed, same, nameOf)
    decreases |keys|
  {
    if |keys| > 0 {
      var d := Candidates(keys[..|keys| - 1], added, removed, same, nameOf);
      CandidatesSound(keys[..|keys| - 1], added, removed, same, nameOf);
      var k := keys[|keys| - 1];
      if k in added {
        AddCandidatesSound(d, added, added[k], removed, same, nameOf, |removed|);
      }
    }
  }

  /** Promotion keeps earlier renames, only shrinks the added and removed
      collections, and each new rename comes from a group holding exactly
      that one pair; its removed name is no longer removed and its added
      name no longer added. */
  lemma {:induction false} PromoteSpec<V>(cands: Dict<seq<(V, V)>>, n: nat, st: Renaming<V>, nameOf: V -> string)
    requires n <= |cands.keys| && ValidRenaming(st)
    ensures var r := Promote(cands, n, st, nameOf);
      (forall k :: k in st.renamed.m ==> k in r.renamed.m && r.renamed.m[k] == st.renamed.m[k]) &&
      (forall k :: k in r.added.m ==> k in st.added.m && r.added.m[k] == st.added.m[k]) &&
      (forall k :: k in r.removed.m ==> k in st.removed.m && r.removed.m[k] == st.removed.m[k]) &&
      (forall k :: k in r.renamed.m && k !in st.renamed.m ==>
        k !in r.removed.m && Lower(nameOf(r.renamed.m[k])) !in r.added.m &&
        exists g, rem :: g in cands.m && cands.m[g] == [(rem, r.renamed.m[k])] && Lower(nameOf(rem)) == k)
    decreases n
  {
    if n > 0 {
      PromoteSpec(cands, n - 1, st, nameOf);
      var r := Promote(cands, n - 1, st, nameOf);
      var g := cands.keys[n - 1];
      if g in cands.m && |cands.m[g]| == 1 {
        var rem := cands.m[g][0].0;
        var add := cands.m[g][0].1;
        var rk := Lower(nameOf(rem));
        if rk !in r.renamed.m {
          assert cands.m[g] == [(rem, add)];
        }
      }
    }
  }

  /** Rename detection keeps earlier renames and only shrinks the added and
      removed collections. Each rename it makes maps the lower-cased name
      of a removed entry to an added entry that `same` accepts against it,
      was the only candidate filed under the added entry's name, and
      leaves neither name behind in the added or removed collections. */
  lemma RenamingsSpec<V>(st: Renaming<V>, same: (V, V) -> bool, nameOf: V -> string)
    requires ValidRenaming(st)
    ensures var r := Renamings(st, same, nameOf);
      (forall k :: k in st.renamed.m ==> k in r.renamed.m && r.renamed.m[k] == st.renamed.m[k]) &&
      (forall k :: k in r.added.m ==> k in st.added.m && r.added.m[k] == st.added.m[k]) &&
      (forall k :: k in r.removed.m ==> k in st.removed.m && r.removed.m[k] == st.removed.m[k]) &&
      (forall k :: k in r.renamed.m && k !in st.renamed.m ==>
        k !in r.removed.m && Lower(nameOf(r.renamed.m[k])) !in r.added.m &&
        r.renamed.m[k] in st.added.m.Values &&
        exists rem :: rem in Values(st.removed) && Lower(nameOf(rem)) == k && same(r.renamed.m[k], rem))
  {
    var removed := Values(st.removed);
    var cands := Candidates(st.added.keys, st.added.m, removed, same, nameOf);
    CandidatesSound(st.added.keys, st.added.m, removed, same, nameOf);
    PromoteSpec(cands, |cands.keys|, st, nameOf);
    var r := Renamings(st, same, nameOf);
    forall k | k in r.renamed.m && k !in st.renamed.m
      ensures r.renamed.m[k] in st.added.m.Values &&
        exists rem :: rem in removed && Lower(nameOf(rem)) == k && same(r.renamed.m[k], rem)
    {
      var g, rem :| g in cands.m && cands.m[g] == [(rem, r.renamed.m[k])] && Lower(nameOf(rem)) == k;
      assert cands.m[g][0] == (rem, r.renamed.m[k]);
      assert rem in removed && same(r.renamed.m[k], rem);
    }
  }

  /** The candidate loop for one added entry keeps every pair filed
      before and files each removed entry `same` accepts under the added
      entry's name. */
  lemma {:induction false} AddCandidatesComplete<V>(d: Dict<seq<(V, V)>>, a: V, removed: seq<V>,
                                                    same: (V, V) -> bool, nameOf: V -> string, n: nat)
    requires ValidDict(d) && n <= |removed|
    ensures forall g, x :: x in Group(d, g) ==> x in Group(AddCandidates(d, a, removed, same, nameOf, n), g)
    ensures forall j :: 0 <= j < n && same(a, removed[j]) ==>
      (removed[j], a) in Group(AddCandidates(d, a, removed, same, nameOf, n), nameOf(a))
    decreases n
  {
    if n > 0 {
      AddCandidatesComplete(d, a, removed, same, nameOf, n - 1);
    }
  }

  /** Every pair of an added entry and a removed entry that `same` accepts
      is a candidate filed under the added entry's name. */
  lemma {:induction false} CandidatesComplete<V>(keys: seq<string>, added: map<string, V>, removed: seq<V>,
                                                 same: (V, V) -> bool, nameOf: V -> string)
    ensures forall i, j :: 0 <= i < |keys| && keys[i] in added && 0 <= j < |removed| && same(added[keys[i]], removed[j]) ==>
      (removed[j], added[keys[i]]) in Group(Candidates(keys, added, removed, same, nameOf), nameOf(added[keys[i]]))
    decreases |keys|
  {
    if |keys| > 0 {
      var init := keys[..|keys| - 1];
      var d := Candidates(init, added, removed, same, nameOf);
      CandidatesComplete(init, added, removed, same, nameOf);
      var k := keys[|keys| - 1];
      if k in added {
        AddCandidatesComplete(d, added[k], removed, same, nameOf, |removed|);
      }
      forall i, j | 0 <= i < |keys| && keys[i] in added && 0 <= j < |removed| && same(added[keys[i]], removed[j])
        ensures (removed[j], added[keys[i]]) in Group(Candidates(keys, added, removed, same, nameOf), nameOf(added[keys[i]]))
      {
        if i < |keys| - 1 {
          assert init[i] == keys[i];
        }
      }
    }
  }

  /** A rename has no rival: the removed entry it was made from is the
      only removed entry `same` accepts against the added entry, and no
      other added entry of the same name has any candidate. */
  lemma RenamingsUnambiguous<V>(st: Renaming<V>, same: (V, V) -> bool, nameOf: V -> string, k: string)
    requires ValidRenaming(st)
    requires k in Renamings(st, same, nameOf).renamed.m && k !in st.renamed.m
    ensures var a := Renamings(st, same, nameOf).renamed.m[k];
      exists rem :: rem in Values(st.removed) && Lower(nameOf(rem)) == k && same(a, rem) &&
        forall a2, rem2 ::
          (a2 in st.added.m.Values && rem2 in Values(st.removed) && nameOf(a2) == nameOf(a) && same(a2, rem2)) ==>
          a2 == a && rem2 == rem
  {
    var removed := Values(st.removed);
    var cands := Candidates(st.added.keys, st.added.m, removed, same, nameOf);
    var a := Renamings(st, same, nameOf).renamed.m[k];
    var g, rem := PromotedGroup(st, same, nameOf, k);
    forall a2, rem2 | a2 in st.added.m.Values && rem2 in removed && nameOf(a2) == nameOf(a) && same(a2, rem2)
      ensures a2 == a && rem2 == rem
    {
      var k2 :| k2 in st.added.m && st.added.m[k2] == a2;
      var i :| 0 <= i < |st.added.keys| && st.added.keys[i] == k2;
      var j :| 0 <= j < |removed| && removed[j] == rem2;
      CandidateAt(st.added.keys, st.added.m, removed, same, nameOf, i, j);
    }
  }

  /** The single-pair group a new rename was promoted from. */
  lemma PromotedGroup<V>(st: Renaming<V>, same: (V, V) -> bool, nameOf: V -> string, k: string)
    returns (g: string, rem: V)
    requires ValidRenaming(st)
    requires k in Renamings(st, same, nameOf).renamed.m && k !in st.renamed.m
    ensures var cands := Candidates(st.added.keys, st.added.m, Values(st.removed), same, nameOf);
      var a := Renamings(st, same, nameOf).renamed.m[k];
      g == nameOf(a) && Group(cands, g) == [(rem, a)] && Lower(nameOf(rem)) == k &&
      rem in Values(st.removed) && same(a, rem)
  {
    var removed := Values(st.removed);
    var cands := Candidates(st.added.keys, st.added.m, removed, same, nameOf);
    CandidatesSound(st.added.keys, st.added.m, removed, same, nameOf);
    PromoteSpec(cands, |cands.keys|, st, nameOf);
    var a := Renamings(st, same, nameOf).renamed.m[k];
    g, rem :| g in cands.m && cands.m[g] == [(rem, a)] && Lower(nameOf(rem)) == k;
    assert cands.m[g][0] == (rem, a);
  }

  /** One accepted pair, as a candidate. */
  lemma CandidateAt<V>(keys: seq<string>, added: map<string, V>, removed: seq<V>,
                       same: (V, V) -> bool, nameOf: V -> string, i: nat, j: nat)
    requires i < |keys| && keys[i] in added && j < |removed| && same(added[keys[i]], removed[j])
    ensures (removed[j], added[keys[i]]) in Group(Candidates(keys, added, removed, same, nameOf), nameOf(added[keys[i]]))
  {
    CandidatesComplete(keys, added, removed, same, nameOf);
  }

  /** Promotion keeps every rename it starts from and renames the removed
      entry of every group holding a single pair. */
  lemma {:induction false} PromoteComplete<V>(cands: Dict<seq<(V, V)>>, n: nat, st: Renaming<V>, nameOf: V -> string)
    requires n <= |cands.keys| && ValidRenaming(st)
    ensures forall k :: k in st.renamed.m ==> k in Promote(cands, n, st, nameOf).renamed.m
    ensures forall i :: 0 <= i < n && cands.keys[i] in cands.m && |cands.m[cands.keys[i]]| == 1 ==>
      Lower(nameOf(cands.m[cands.keys[i]][0].0)) in Promote(cands, n, st, nameOf).renamed.m
    decreases n
  {
    if n > 0 {
      PromoteComplete(cands, n - 1, st, nameOf);
    }
  }

  /** Every candidate group holding a single pair leads to a rename of its
      removed entry's lower-cased name. */
  lemma RenamingsPromoteSingles<V>(st: Renaming<V>, same: (V, V) -> bool, nameOf: V -> string)
    requires ValidRenaming(st)
    ensures var cands := Candidates(st.added.keys, st.added.m, Values(st.removed), same, nameOf);
      forall g :: g in cands.m && |cands.m[g]| == 1 ==>
        Lower(nameOf(cands.m[g][0].0)) in Renamings(st, same, nameOf).renamed.m
  {
    var cands := Candidates(st.added.keys, st.added.m, Values(st.removed), same, nameOf);
    PromoteComplete(cands, |cands.keys|, st, nameOf);
    forall g | g in cands.m && |cands.m[g]| == 1
      ensures Lower(nameOf(cands.m[g][0].0)) in Renamings(st, same, nameOf).renamed.m
    {
      var i :| 0 <= i < |cands.keys| && cands.keys[i] == g;
    }
  }

  /** Without a single pair that `same` accepts nothing is renamed. */
  lemma RenamingsNone<V>(st: Renaming<V>, same: (V, V) -> bool, nameOf: V -> string)
    requires ValidRenaming(st)
    requires forall a, rem :: a in st.added.m.Values && rem in Values(st.removed) ==> !same(a, rem)
    ensures Renamings(st, same, nameOf) == st
  {
    var removed := Values(st.removed);
    CandidatesEmpty(st.added.keys, st.added.m, removed, same, nameOf);
  }

  lemma {:induction false} CandidatesEmpty<V>(keys: seq<string>, added: map<string, V>, removed: seq<V>,
                                              same: (V, V) -> bool, nameOf: V -> string)
    requires forall a, rem :: a in added.Values && rem in removed ==> !same(a, rem)
    ensures Candidates(keys, added, removed, same, nameOf) == Empty()
    decreases |keys|
  {
    if |keys| > 0 {
      CandidatesEmpty(keys[..|keys| - 1], added, removed, same, nameOf);
      var k := keys[|keys| - 1];
      if k in added {
        AddCandidatesNone(Empty(), added[k], removed, same, nameOf, |removed|);
      }
    }
  }

  lemma {:induction false} AddCandidatesNone<V>(d: Dict<seq<(V, V)>>, a: V, removed: seq<V>,
                                                same: (V, V) -> bool, nameOf: V -> string, n: nat)
    requires ValidDict(d) && n <= |removed|
    requires forall i :: 0 <= i < n ==> !same(a, removed[i])
    ensures AddCandidates(d, a, removed, same, nameOf, n) == d
    decreases n
  {
    if n > 0 {
      AddCandidatesNone(d, a, removed, same, nameOf, n - 1);
    }
  }

  // ---------------------------------------------------------------------
  // diffTable

  /** A keyed loop over `m` in the order of `keys` that files some entries
      into a new array: `f` says whether an entry is filed, under which key
      and as what. */
  function Collect<V, W>(keys: seq<string>, m: map<string, V>, f: (string, V) -> Option<(string, W)>): (d: Dict<W>)
    ensures ValidDict(d)
    decreases |keys|
  {
    if |keys| == 0 then Empty()
    else
      var d := Collect(keys[..|keys| - 1], m, f);
      var k := keys[|keys| - 1];
      if k in m && f(k, m[k]).Some? then Put(d, f(k, m[k]).value.0, f(k, m[k]).value.1) else d
  }

  /** How often that loop increments `$changes`. */
  function Count<V, W>(keys: seq<string>, m: map<string, V>, f: (string, V) -> Option<(string, W)>): nat
    decreases |keys|
  {
    if |keys| == 0 then 0
    else
      var k := keys[|keys| - 1];
      Count(keys[..|keys| - 1], m, f) + (if k in m && f(k, m[k]).Some? then 1 else 0)
  }

  /** The loop counts nothing exactly when it files nothing. */
  lemma {:induction false} CountZero<V, W>(keys: seq<string>, m: map<string, V>, f: (string, V) -> Option<(string, W)>)
    ensures Count(keys, m, f) == 0 <==> forall k :: k in keys && k in m ==> f(k, m[k]).None?
    decreases |keys|
  {
    if |keys| > 0 {
      var init := keys[..|keys| - 1];
      CountZero(init, m, f);
      assert forall k :: k in keys <==> k in init || k == keys[|keys| - 1];
    }
  }

  /** One more step of the keyed loop. */
  lemma CollectStep<V, W>(keys: seq<string>, m: map<string, V>, f: (string, V) -> Option<(string, W)>, i: nat)
    requires i < |keys| && keys[i] in m
    ensures var e := f(keys[i], m[keys[i]]);
      Collect(keys[..i + 1], m, f) ==
        (if e.Some? then Put(Collect(keys[..i], m, f), e.value.0, e.value.1) else Collect(keys[..i], m, f)) &&
      Count(keys[..i + 1], m, f) == Count(keys[..i], m, f) + (if e.Some? then 1 else 0)
  {
    assert keys[..i + 1][..i] == keys[..i];
  }

  /** The generic keyed loop. */
  method CollectEntries<V, W>(d: Dict<V>, f: (string, V) -> Option<(string, W)>) returns (out: Dict<W>, count: nat)
    ensures out == Collect(d.keys, d.m, f) && count == Count(d.keys, d.m, f)
  {
    out := Empty();
    count := 0;
    var i := 0;
    while i < |d.keys|
      invariant 0 <= i <= |d.keys|
      invariant out == Collect(d.keys[..i], d.m, f) && count == Count(d.keys[..i], d.m, f)
    {
      assert d.keys[..i + 1][..i] == d.keys[..i];
      var k := d.keys[i];
      if k in d.m {
        var e := f(k, d.m[k]);
        if e.Some? {
          out := Put(out, e.value.0, e.value.1);
          count := count + 1;
        }
      }
      i := i + 1;
    }
    assert d.keys[..i] == d.keys;
  }

  /** A column of the new table that the old table lacks is added. */
  function AddedColumnOf(t1: Table): (string, Column) -> Option<(string, Column)> {
    (k: string, c: Column) => if HasColumn(t1, k) then None else Some((k, c))
  }

  /** A column of the old table that the new table lacks is removed. */
  function RemovedColumnOf(t2: Table): (string, Column) -> Option<(string, Column)> {
    (k: string, c: Column) => if HasColumn(t2, k) then None else Some((k, c))
  }

  /** A column of both tables with changed properties is filed under the
      old column's name, with the new column and the old one. */
  function ChangedColumnOf(t2: Table): (string, Column) -> Option<(string, ColumnDiff)> {
    (k: string, c: Column) =>
      if !HasColumn(t2, k) || ColumnChanges(c, GetColumn(t2, k)) == [] then None
      else Some((GetName(c.name), ColumnDiff(GetName(c.name), GetColumn(t2, k), ColumnChanges(c, GetColumn(t2, k)), Some(c))))
  }

  /** An index of the new table is added unless it is primary and the old
      table has a primary key, or the old table has an index of its name. */
  function AddedIndexOf(t1: Table): (string, Index) -> Option<(string, Index)> {
    (k: string, ix: Index) => if (ix.isPrimary && HasPrimaryKey(t1)) || HasIndex(t1, k) then None else Some((k, ix))
  }

  /** The index of the new table an old index is compared with: the primary
      key for a primary index, the index of the same name otherwise. */
  function Counterpart(t2: Table, ix: Index, k: string): Option<Index> {
    if ix.isPrimary then (if HasPrimaryKey(t2) then Some(PrimaryKey(t2)) else None)
    else if HasIndex(t2, k) then Some(GetIndex(t2, k))
    else None
  }

  /** An index of the old table without a counterpart is removed. */
  function RemovedIndexOf(t2: Table): (string, Index) -> Option<(string, Index)> {
    (k: string, ix: Index) => if Counterpart(t2, ix, k).None? then Some((k, ix)) else None
  }

  /** An index of the old table whose counterpart differs is changed to
      that counterpart. */
  function ChangedIndexOf(t2: Table): (string, Index) -> Option<(string, Index)> {
    (k: string, ix: Index) =>
      var ix2 := Counterpart(t2, ix, k);
      if ix2.Some? && DiffIndex(ix, ix2.value) then Some((k, ix2.value)) else None
  }

  /** `count(diffColumn($added, $removed)) == 0`, as written: it compares
      the names too. */
  function SameColumnsAsWritten(): (Column, Column) -> bool {
    (a: Column, r: Column) => ColumnChanges(a, r) == []
  }

  /** The rename test as intended: nothing but the name differs. */
  function SameColumns(): (Column, Column) -> bool {
    (a: Column, r: Column) => RenameChanges(a, r) == []
  }

  /** `!diffIndex($added, $removed)` */
  function SameIndexes(): (Index, Index) -> bool {
    (a: Index, r: Index) => !DiffIndex(a, r)
  }

  function ColumnName(): Column -> string {
    (c: Column) => GetName(c.name)
  }

  function IndexName(): Index -> string {
    (ix: Index) => GetName(ix.name)
  }

  /** How often the column loops of diffTable count a change. */
  function ColumnChangeCount(t1: Table, t2: Table): nat {
    Count(t2.columns.keys, t2.columns.m, AddedColumnOf(t1)) +
    Count(t1.columns.keys, t1.columns.m, RemovedColumnOf(t2)) +
    Count(t1.columns.keys, t1.columns.m, ChangedColumnOf(t2))
  }

  /** How often the index loops of diffTable count a change. */
  function IndexChangeCount(t1: Table, t2: Table): nat {
    Count(t2.indexes.keys, t2.indexes.m, AddedIndexOf(t1)) +
    Count(t1.indexes.keys, t1.indexes.m, RemovedIndexOf(t2)) +
    Count(t1.indexes.keys, t1.indexes.m, ChangedIndexOf(t2))
  }

  /** The foreign keys of both tables paired up. */
  function ForeignKeyPairing(t1: Table, t2: Table): Pairing
    requires ValidDict(t1.foreignKeys) && ValidDict(t2.foreignKeys)
  {
    PairKeys(Values(t1.foreignKeys), Values(t2.foreignKeys), |t1.foreignKeys.keys|)
  }

  /** How often the foreign-key loops of diffTable count a change. */
  function ForeignKeyChangeCount(t1: Table, t2: Table): nat
    requires ValidDict(t1.foreignKeys) && ValidDict(t2.foreignKeys)
  {
    var p := ForeignKeyPairing(t1, t2);
    |p.changed| + |Kept(Values(t1.foreignKeys), p.fromAlive)| + |Kept(Values(t2.foreignKeys), p.toAlive)|
  }

  /** The value of `$changes` at the end of diffTable. */
  function TableChangeCount(t1: Table, t2: Table): nat
    requires ValidDict(t1.foreignKeys) && ValidDict(t2.foreignKeys)
  {
    ColumnChangeCount(t1, t2) + IndexChangeCount(t1, t2) + ForeignKeyChangeCount(t1, t2)
  }

  /** Column renames, taken out of the added and removed columns. */
  function ColumnRenamings(t1: Table, t2: Table): Renaming<Column> {
    Renamings(Renaming(Empty(),
      Collect(t2.columns.keys, t2.columns.m, AddedColumnOf(t1)),
      Collect(t1.columns.keys, t1.columns.m, RemovedColumnOf(t2))), SameColumns(), ColumnName())
  }

  /** Index renames, taken out of the added and removed indexes. */
  function IndexRenamings(t1: Table, t2: Table): Renaming<Index> {
    Renamings(Renaming(Empty(),
      Collect(t2.indexes.keys, t2.indexes.m, AddedIndexOf(t1)),
      Collect(t1.indexes.keys, t1.indexes.m, RemovedIndexOf(t2))), SameIndexes(), IndexName())
  }

  /** The diff diffTable fills in: named after the old table, with renamed
      columns and indexes taken out of the added and removed ones. */
  function TableDiffOf(t1: Table, t2: Table): TableDiffValue
    requires ValidDict(t1.foreignKeys) && ValidDict(t2.foreignKeys)
  {
    var cr := ColumnRenamings(t1, t2);
    var ir := IndexRenamings(t1, t2);
    var p := ForeignKeyPairing(t1, t2);
    TableDiffValue(TableName(t1), None,
      cr.added, Collect(t1.columns.keys, t1.columns.m, ChangedColumnOf(t2)), cr.removed, cr.renamed,
      ir.added, Collect(t1.indexes.keys, t1.indexes.m, ChangedIndexOf(t2)), ir.removed, ir.renamed,
      Kept(Values(t2.foreignKeys), p.toAlive), p.changed, Kept(Values(t1.foreignKeys), p.fromAlive), Some(t1))
  }

  /** What diffTable returns: nothing when no loop counted a change. */
  function DiffTableSpec(t1: Table, t2: Table): Option<TableDiffValue>
    requires ValidDict(t1.foreignKeys) && ValidDict(t2.foreignKeys)
  {
    if TableChangeCount(t1, t2) == 0 then None else Some(TableDiffOf(t1, t2))
  }

  /** The second column loop: removed columns, and changed ones by
      diffColumn. */
  method DiffColumns(t1: Table, t2: Table) returns (removed: Dict<Column>, changed: Dict<ColumnDiff>, count: nat)
    requires ValidDict(t1.columns)
    ensures removed == Collect(t1.columns.keys, t1.columns.m, RemovedColumnOf(t2))
    ensures changed == Collect(t1.columns.keys, t1.columns.m, ChangedColumnOf(t2))
    ensures count == Count(t1.columns.keys, t1.columns.m, RemovedColumnOf(t2)) +
                     Count(t1.columns.keys, t1.columns.m, ChangedColumnOf(t2))
  {
    var keys := t1.columns.keys;
    removed := Empty();
    changed := Empty();
    count := 0;
    var i := 0;
    while i < |keys|
      invariant 0 <= i <= |keys|
      invariant removed == Collect(keys[..i], t1.columns.m, RemovedColumnOf(t2))
      invariant changed == Collect(keys[..i], t1.columns.m, ChangedColumnOf(t2))
      invariant count == Count(keys[..i], t1.columns.m, RemovedColumnOf(t2)) +
                         Count(keys[..i], t1.columns.m, ChangedColumnOf(t2))
    {
      var k := keys[i];
      var c := t1.columns.m[k];
      CollectStep(keys, t1.columns.m, RemovedColumnOf(t2), i);
      CollectStep(keys, t1.columns.m, ChangedColumnOf(t2), i);
      if !HasColumn(t2, k) {
        removed := Put(removed, k, c);
        count := count + 1;
      } else {
        var props := DiffColumn(c, GetColumn(t2, k));
        if props != [] {
          changed := Put(changed, GetName(c.name), ColumnDiff(GetName(c.name), GetColumn(t2, k), props, Some(c)));
          count := count + 1;
        }
      }
      i := i + 1;
    }
    assert keys[..i] == keys;
  }

  /** The second index loop: removed indexes, and changed ones by
      diffIndex. */
  method DiffIndexes(t1: Table, t2: Table) returns (removed: Dict<Index>, changed: Dict<Index>, count: nat)
    requires ValidDict(t1.indexes)
    ensures removed == Collect(t1.indexes.keys, t1.indexes.m, RemovedIndexOf(t2))
    ensures changed == Collect(t1.indexes.keys, t1.indexes.m, ChangedIndexOf(t2))
    ensures count == Count(t1.indexes.keys, t1.indexes.m, RemovedIndexOf(t2)) +
                     Count(t1.indexes.keys, t1.indexes.m, ChangedIndexOf(t2))
  {
    var keys := t1.indexes.keys;
    removed := Empty();
    changed := Empty();
    count := 0;
    var i := 0;
    while i < |keys|
      invariant 0 <= i <= |keys|
      invariant removed == Collect(keys[..i], t1.indexes.m, RemovedIndexOf(t2))
      invariant changed == Collect(keys[..i], t1.indexes.m, ChangedIndexOf(t2))
      invariant count == Count(keys[..i], t1.indexes.m, RemovedIndexOf(t2)) +
                         Count(keys[..i], t1.indexes.m, ChangedIndexOf(t2))
    {
      removed, changed, count := DiffIndexNext(t1, t2, i, removed, changed, count);
      i := i + 1;
    }
    assert keys[..i] == keys;
  }

  /** One pass of the second index loop. */
  method DiffIndexNext(t1: Table, t2: Table, i: nat, removed0: Dict<Index>, changed0: Dict<Index>, count0: nat)
    returns (removed: Dict<Index>, changed: Dict<Index>, count: nat)
    requires ValidDict(t1.indexes) && i < |t1.indexes.keys|
    requires removed0 == Collect(t1.indexes.keys[..i], t1.indexes.m, RemovedIndexOf(t2))
    requires changed0 == Collect(t1.indexes.keys[..i], t1.indexes.m, ChangedIndexOf(t2))
    requires count0 == Count(t1.indexes.keys[..i], t1.indexes.m, RemovedIndexOf(t2)) +
                       Count(t1.indexes.keys[..i], t1.indexes.m, ChangedIndexOf(t2))
    ensures removed == Collect(t1.indexes.keys[..i + 1], t1.indexes.m, RemovedIndexOf(t2))
    ensures changed == Collect(t1.indexes.keys[..i + 1], t1.indexes.m, ChangedIndexOf(t2))
    ensures count == Count(t1.indexes.keys[..i + 1], t1.indexes.m, RemovedIndexOf(t2)) +
                     Count(t1.indexes.keys[..i + 1], t1.indexes.m, ChangedIndexOf(t2))
  {
    var keys := t1.indexes.keys;
    var k := keys[i];
    var ix := t1.indexes.m[k];
    CollectStep(keys, t1.indexes.m, RemovedIndexOf(t2), i);
    CollectStep(keys, t1.indexes.m, ChangedIndexOf(t2), i);
    removed, changed, count := removed0, changed0, count0;
    if (ix.isPrimary && !HasPrimaryKey(t2)) || (!ix.isPrimary && !HasIndex(t2, k)) {
      removed := Put(removed, k, ix);
      count := count + 1;
    } else {
      var ix2 := if ix.isPrimary then PrimaryKey(t2) else GetIndex(t2, k);
      if DiffIndex(ix, ix2) {
        changed := Put(changed, k, ix2);
        count := count + 1;
      }
    }
  }

  /** The arrays of a table are well formed; WellFormed implies it. */
  ghost predicate Keyed(t: Table) {
    ValidDict(t.columns) && ValidDict(t.indexes) && ValidDict(t.foreignKeys)
  }

  /** The column half of diffTable: both column loops, then rename
      detection. */
  method ColumnsPart(t1: Table, t2: Table) returns (cr: Renaming<Column>, changed: Dict<ColumnDiff>, count: nat)
    requires Keyed(t1) && Keyed(t2)
    ensures cr == ColumnRenamings(t1, t2)
    ensures changed == Collect(t1.columns.keys, t1.columns.m, ChangedColumnOf(t2))
    ensures count == ColumnChangeCount(t1, t2)
  {
    var added, n1 := CollectEntries(t2.columns, AddedColumnOf(t1));
    var removed, n2;
    removed, changed, n2 := DiffColumns(t1, t2);
    cr := DetectRenamings(Renaming(Empty(), added, removed), SameColumns(), ColumnName());
    count := n1 + n2;
  }

  /** The index half of diffTable: both index loops, then rename
      detection. */
  method IndexesPart(t1: Table, t2: Table) returns (ir: Renaming<Index>, changed: Dict<Index>, count: nat)
    requires Keyed(t1) && Keyed(t2)
    ensures ir == IndexRenamings(t1, t2)
    ensures changed == Collect(t1.indexes.keys, t1.indexes.m, ChangedIndexOf(t2))
    ensures count == IndexChangeCount(t1, t2)
  {
    var added, n1 := CollectEntries(t2.indexes, AddedIndexOf(t1));
    var removed, n2;
    removed, changed, n2 := DiffIndexes(t1, t2);
    ir := DetectRenamings(Renaming(Empty(), added, removed), SameIndexes(), IndexName());
    count := n1 + n2;
  }

  /** The foreign-key part of diffTable on the tables' arrays. */
  method ForeignKeysPart(t1: Table, t2: Table) returns (removed: seq<ForeignKey>, changed: seq<ForeignKey>, added: seq<ForeignKey>)
    requires Keyed(t1) && Keyed(t2)
    ensures var p := ForeignKeyPairing(t1, t2);
      removed == Kept(Values(t1.foreignKeys), p.fromAlive) && changed == p.changed &&
      added == Kept(Values(t2.foreignKeys), p.toAlive)
  {
    removed, changed, added := PairForeignKeys(Values(t1.foreignKeys), Values(t2.foreignKeys));
  }

  /** `new TableDiff($table1->getName())` followed by the assignments
      diffTable makes to its fields. */
  method NewTableDiff(v: TableDiffValue) returns (d: TableDiff)
    requires ValidDict(v.addedColumns) && ValidDict(v.changedColumns) && ValidDict(v.removedColumns)
    requires ValidDict(v.renamedColumns) && ValidDict(v.addedIndexes) && ValidDict(v.changedIndexes)
    requires ValidDict(v.removedIndexes) && ValidDict(v.renamedIndexes) && v.newName.None?
    ensures fresh(d) && d.Valid() && d.Value() == v
  {
    d := new TableDiff(v.name, v.addedColumns, v.changedColumns, v.removedColumns,
                       v.addedIndexes, v.changedIndexes, v.removedIndexes, v.fromTable);
    d.renamedColumns := v.renamedColumns;
    d.renamedIndexes := v.renamedIndexes;
    d.addedForeignKeys := v.addedForeignKeys;
    d.changedForeignKeys := v.changedForeignKeys;
    d.removedForeignKeys := v.removedForeignKeys;
  }

  /** diffTable: false (here None) when the tables do not differ, and
      otherwise a new TableDiff holding what differs. */
  method DiffTable(t1: Table, t2: Table) returns (r: Option<TableDiff>)
    requires Keyed(t1) && Keyed(t2)
    ensures r.None? <==> DiffTableSpec(t1, t2).None?
    ensures r.Some? ==> fresh(r.value) && r.value.Valid() && r.value.Value() == DiffTableSpec(t1, t2).value
  {
    var cr, changedC, n1 := ColumnsPart(t1, t2);
    var ir, changedI, n2 := IndexesPart(t1, t2);
    var removedF, changedF, addedF := ForeignKeysPart(t1, t2);
    var changes := n1 + n2 + |changedF| + |removedF| + |addedF|;
    if changes == 0 {
      return None;
    }
    var v := TableDiffValue(TableName(t1), None, cr.added, changedC, cr.removed, cr.renamed,
      ir.added, changedI, ir.removed, ir.renamed, addedF, changedF, removedF, Some(t1));
    var d := NewTableDiff(v);
    return Some(d);
  }

  /** The entries whose flag is set are none exactly when no flag is set. */
  lemma {:induction false} KeptEmpty<T>(s: seq<T>, alive: seq<bool>)
    requires |s| == |alive|
    ensures Kept(s, alive) == [] <==> forall i :: 0 <= i < |alive| ==> !alive[i]
    decreases |s|
  {
    if |s| > 0 {
      KeptEmpty(s[..|s| - 1], alive[..|s| - 1]);
      assert forall i :: 0 <= i < |s| - 1 ==> alive[..|s| - 1][i] == alive[i];
    }
  }

  /** Every foreign key is paired off: none reported changed, none left over
      on either side. */
  predicate ForeignKeysMatch(t1: Table, t2: Table)
    requires ValidDict(t1.foreignKeys) && ValidDict(t2.foreignKeys)
  {
    var p := ForeignKeyPairing(t1, t2);
    p.changed == [] &&
    (forall i :: 0 <= i < |p.fromAlive| ==> !p.fromAlive[i]) &&
    (forall j :: 0 <= j < |p.toAlive| ==> !p.toAlive[j])
  }

  /** CountZero on a well-formed array. */
  lemma CountZeroDict<V, W>(d: Dict<V>, f: (string, V) -> Option<(string, W)>)
    requires ValidDict(d)
    ensures Count(d.keys, d.m, f) == 0 <==> forall k :: k in d.m ==> f(k, d.m[k]).None?
  {
    CountZero(d.keys, d.m, f);
  }

  /** The column loops count nothing exactly when every column of each
      table is in the other and unchanged. */
  lemma ColumnChangeCountZero(t1: Table, t2: Table)
    requires Keyed(t1) && Keyed(t2)
    ensures ColumnChangeCount(t1, t2) == 0 <==>
      (forall k :: k in t2.columns.m ==> HasColumn(t1, k)) &&
      (forall k :: k in t1.columns.m ==>
        HasColumn(t2, k) && ColumnChanges(t1.columns.m[k], GetColumn(t2, k)) == [])
  {
    CountZeroDict(t2.columns, AddedColumnOf(t1));
    CountZeroDict(t1.columns, RemovedColumnOf(t2));
    CountZeroDict(t1.columns, ChangedColumnOf(t2));
  }

  /** The index loops count nothing exactly when every index of the new
      table is in the old one (a primary one counting as present when the
      old table has a primary key) and every index of the old table has an
      equal counterpart. */
  lemma IndexChangeCountZero(t1: Table, t2: Table)
    requires Keyed(t1) && Keyed(t2)
    ensures IndexChangeCount(t1, t2) == 0 <==>
      (forall k :: k in t2.indexes.m ==> (t2.indexes.m[k].isPrimary && HasPrimaryKey(t1)) || HasIndex(t1, k)) &&
      (forall k :: k in t1.indexes.m ==>
        Counterpart(t2, t1.indexes.m[k], k).Some? &&
        !DiffIndex(t1.indexes.m[k], Counterpart(t2, t1.indexes.m[k], k).value))
  {
    CountZeroDict(t2.indexes, AddedIndexOf(t1));
    CountZeroDict(t1.indexes, RemovedIndexOf(t2));
    CountZeroDict(t1.indexes, ChangedIndexOf(t2));
  }

  /** The foreign-key loops count nothing exactly when the keys pair off. */
  lemma ForeignKeyChangeCountZero(t1: Table, t2: Table)
    requires Keyed(t1) && Keyed(t2)
    ensures ForeignKeyChangeCount(t1, t2) == 0 <==> ForeignKeysMatch(t1, t2)
  {
    var p := ForeignKeyPairing(t1, t2);
    KeptEmpty(Values(t1.foreignKeys), p.fromAlive);
    KeptEmpty(Values(t2.foreignKeys), p.toAlive);
  }

  /** diffTable finds no difference exactly when every column of each table
      is in the other and unchanged, every index of the new table is in the
      old one, every index of the old table has an equal counterpart, and
      the foreign keys pair off. */
  lemma DiffTableNoneIff(t1: Table, t2: Table)
    requires Keyed(t1) && Keyed(t2)
    ensures DiffTableSpec(t1, t2).None? <==>
      (forall k :: k in t2.columns.m ==> HasColumn(t1, k)) &&
      (forall k :: k in t1.columns.m ==>
        HasColumn(t2, k) && ColumnChanges(t1.columns.m[k], GetColumn(t2, k)) == []) &&
      (forall k :: k in t2.indexes.m ==> (t2.indexes.m[k].isPrimary && HasPrimaryKey(t1)) || HasIndex(t1, k)) &&
      (forall k :: k in t1.indexes.m ==>
        Counterpart(t2, t1.indexes.m[k], k).Some? &&
        !DiffIndex(t1.indexes.m[k], Counterpart(t2, t1.indexes.m[k], k).value)) &&
      ForeignKeysMatch(t1, t2)
  {
    ColumnChangeCountZero(t1, t2);
    IndexChangeCountZero(t1, t2);
    ForeignKeyChangeCountZero(t1, t2);
  }

  /** A well-formed table's columns compared with themselves count no
      change. */
  lemma ColumnsSelf(t: Table)
    requires WellFormed(t)
    ensures ColumnChangeCount(t, t) == 0
  {
    forall k | k in t.columns.m
      ensures HasColumn(t, k) && ColumnChanges(t.columns.m[k], GetColumn(t, k)) == []
    {
      ColumnChangesSelf(t.columns.m[k]);
    }
    ColumnChangeCountZero(t, t);
  }

  /** A well-formed table's indexes compared with themselves count no
      change: each index is its own counterpart. */
  lemma IndexesSelf(t: Table)
    requires WellFormed(t)
    ensures IndexChangeCount(t, t) == 0
  {
    forall k | k in t.indexes.m
      ensures Counterpart(t, t.indexes.m[k], k) == Some(t.indexes.m[k]) && !DiffIndex(t.indexes.m[k], t.indexes.m[k])
    {
      DiffIndexProperties(t.indexes.m[k], t.indexes.m[k]);
    }
    IndexChangeCountZero(t, t);
  }

  /** A well-formed table compared with itself shows no difference,
      provided no two of its foreign keys could pair with each other. */
  lemma DiffTableReflexive(t: Table)
    requires WellFormed(t)
    requires ForeignKeysApart(t)
    ensures DiffTableSpec(t, t).None?
  {
    ColumnsSelf(t);
    IndexesSelf(t);
    ForeignKeysSelf(t);
  }

  /** Foreign keys that pairwise cannot pair all match themselves. */
  lemma ForeignKeysSelf(t: Table)
    requires Keyed(t)
    requires ForeignKeysApart(t)
    ensures ForeignKeyChangeCount(t, t) == 0
  {
    var ks := Values(t.foreignKeys);
    PairingSelf(ks, |ks|);
    ForeignKeyChangeCountZero(t, t);
  }

  /** Every value the keyed loop files came from some entry it visited. */
  lemma {:induction false} CollectedValue<V, W>(keys: seq<string>, m: map<string, V>,
                                                f: (string, V) -> Option<(string, W)>, w: W)
    requires w in Collect(keys, m, f).m.Values
    ensures exists k0 :: k0 in keys && k0 in m && f(k0, m[k0]).Some? && f(k0, m[k0]).value.1 == w
    decreases |keys|
  {
    var init := keys[..|keys| - 1];
    var k := keys[|keys| - 1];
    var d := Collect(init, m, f);
    if k in m && f(k, m[k]).Some? && f(k, m[k]).value.1 == w {
    } else {
      var j :| j in Collect(keys, m, f).m && Collect(keys, m, f).m[j] == w;
      assert j in d.m && d.m[j] == w;
      CollectedValue(init, m, f, w);
      var k0 :| k0 in init && k0 in m && f(k0, m[k0]).Some? && f(k0, m[k0]).value.1 == w;
      assert k0 in keys;
    }
  }

  /** One rename made from scratch, in terms of the collections rename
      detection started from. */
  lemma RenamedEntry<V>(st: Renaming<V>, same: (V, V) -> bool, nameOf: V -> string, k: string)
    requires ValidRenaming(st) && st.renamed.m == map[]
    requires k in Renamings(st, same, nameOf).renamed.m
    ensures var r := Renamings(st, same, nameOf);
      k !in r.removed.m && Lower(nameOf(r.renamed.m[k])) !in r.added.m &&
      r.renamed.m[k] in st.added.m.Values &&
      exists rem :: rem in st.removed.m.Values && Lower(nameOf(rem)) == k && same(r.renamed.m[k], rem)
  {
    RenamingsSpec(st, same, nameOf);
    var r := Renamings(st, same, nameOf);
    var rem :| rem in Values(st.removed) && Lower(nameOf(rem)) == k && same(r.renamed.m[k], rem);
    var i :| 0 <= i < |st.removed.keys| && Values(st.removed)[i] == rem;
    assert st.removed.m[st.removed.keys[i]] == rem;
  }

  /** A column rename pairs a column only the new table has with a column
      only the old table has, filed under the old column's lower-cased
      name; the two columns show no changed property; neither name is left
      among the added or removed columns. */
  lemma RenamedColumn(t1: Table, t2: Table, k: string)
    requires Keyed(t1) && Keyed(t2)
    requires k in ColumnRenamings(t1, t2).renamed.m
    ensures var cr := ColumnRenamings(t1, t2);
      var a := cr.renamed.m[k];
      k !in cr.removed.m && Lower(GetName(a.name)) !in cr.added.m &&
      (exists k2 :: k2 in t2.columns.m && !HasColumn(t1, k2) && t2.columns.m[k2] == a) &&
      (exists k1 :: k1 in t1.columns.m && !HasColumn(t2, k1) &&
         Lower(GetName(t1.columns.m[k1].name)) == k && RenameChanges(a, t1.columns.m[k1]) == [])
  {
    var added := Collect(t2.columns.keys, t2.columns.m, AddedColumnOf(t1));
    var removed := Collect(t1.columns.keys, t1.columns.m, RemovedColumnOf(t2));
    var st := Renaming(Empty(), added, removed);
    RenamedEntry(st, SameColumns(), ColumnName(), k);
    var a := ColumnRenamings(t1, t2).renamed.m[k];
    CollectedValue(t2.columns.keys, t2.columns.m, AddedColumnOf(t1), a);
    var k2 :| k2 in t2.columns.keys && k2 in t2.columns.m && AddedColumnOf(t1)(k2, t2.columns.m[k2]).Some? &&
      AddedColumnOf(t1)(k2, t2.columns.m[k2]).value.1 == a;
    assert !HasColumn(t1, k2) && t2.columns.m[k2] == a;
    var rem :| rem in removed.m.Values && Lower(GetName(rem.name)) == k && RenameChanges(a, rem) == [];
    CollectedValue(t1.columns.keys, t1.columns.m, RemovedColumnOf(t2), rem);
    var k1 :| k1 in t1.columns.keys && k1 in t1.columns.m && RemovedColumnOf(t2)(k1, t1.columns.m[k1]).Some? &&
      RemovedColumnOf(t2)(k1, t1.columns.m[k1]).value.1 == rem;
    assert !HasColumn(t2, k1) && t1.columns.m[k1] == rem;
  }

  /** An index filed as added is an index of the new table that the old
      table does not have. */
  lemma AddedIndexFrom(t1: Table, t2: Table, ix: Index)
    requires ix in Collect(t2.indexes.keys, t2.indexes.m, AddedIndexOf(t1)).m.Values
    ensures exists k2 :: (k2 in t2.indexes.m && t2.indexes.m[k2] == ix &&
                          !(ix.isPrimary && HasPrimaryKey(t1)) && !HasIndex(t1, k2))
  {
    CollectedValue(t2.indexes.keys, t2.indexes.m, AddedIndexOf(t1), ix);
  }

  /** An index filed as removed is an index of the old table without a
      counterpart in the new one. */
  lemma RemovedIndexFrom(t1: Table, t2: Table, ix: Index)
    requires ix in Collect(t1.indexes.keys, t1.indexes.m, RemovedIndexOf(t2)).m.Values
    ensures exists k1 :: k1 in t1.indexes.m && t1.indexes.m[k1] == ix && Counterpart(t2, ix, k1).None?
  {
    CollectedValue(t1.indexes.keys, t1.indexes.m, RemovedIndexOf(t2), ix);
  }

  /** An index rename pairs an index only the new table has with an index
      only the old table has, filed under the old index's lower-cased name;
      the two indexes fulfil each other; neither name is left among the
      added or removed indexes. */
  lemma RenamedIndex(t1: Table, t2: Table, k: string)
    requires Keyed(t1) && Keyed(t2)
    requires k in IndexRenamings(t1, t2).renamed.m
    ensures var ir := IndexRenamings(t1, t2);
      var a := ir.renamed.m[k];
      k !in ir.removed.m && Lower(GetName(a.name)) !in ir.added.m &&
      (exists k2 :: k2 in t2.indexes.m && t2.indexes.m[k2] == a &&
         !(a.isPrimary && HasPrimaryKey(t1)) && !HasIndex(t1, k2)) &&
      (exists k1 :: k1 in t1.indexes.m && Counterpart(t2, t1.indexes.m[k1], k1).None? &&
         Lower(GetName(t1.indexes.m[k1].name)) == k && !DiffIndex(a, t1.indexes.m[k1]))
  {
    var added := Collect(t2.indexes.keys, t2.indexes.m, AddedIndexOf(t1));
    var removed := Collect(t1.indexes.keys, t1.indexes.m, RemovedIndexOf(t2));
    var st := Renaming(Empty(), added, removed);
    RenamedEntry(st, SameIndexes(), IndexName(), k);
    var a := IndexRenamings(t1, t2).renamed.m[k];
    AddedIndexFrom(t1, t2, a);
    var rem :| rem in removed.m.Values && Lower(GetName(rem.name)) == k && SameIndexes()(a, rem);
    RemovedIndexFrom(t1, t2, rem);
    var k1 :| k1 in t1.indexes.m && t1.indexes.m[k1] == rem && Counterpart(t2, rem, k1).None?;
    assert !DiffIndex(a, rem);
  }

  // ---------------------------------------------------------------------
  // A column rename, as written and as intended

  /** The column rename the source cannot see: the old table has one
      column, the new table has the same column under another name. As
      written the two are only ever an added and a removed column; the
      corrected test renames the old column to the new one and leaves
      nothing added or removed. */
  lemma ColumnRenameMissedAsWritten(t1: Table, t2: Table, c: Column, n: string)
    requires n != c.name.name && ValidDict(c.customOptions)
    requires OptionsApart(c)
    requires var c2 := c.(name := c.name.(name := n));
      var ka := Lower(GetName(c.name)); var kb := Lower(GetName(c2.name));
      ka != kb && Norm(ka) == ka && Norm(kb) == kb &&
      t1.columns == Dict([ka], map[ka := c]) && t2.columns == Dict([kb], map[kb := c2])
    ensures var c2 := c.(name := c.name.(name := n));
      var st := Renaming(Empty(),
        Collect(t2.columns.keys, t2.columns.m, AddedColumnOf(t1)),
        Collect(t1.columns.keys, t1.columns.m, RemovedColumnOf(t2)));
      var asWritten := Renamings(st, SameColumnsAsWritten(), ColumnName());
      asWritten == st && st.added.m == map[Lower(GetName(c2.name)) := c2] &&
      st.removed.m == map[Lower(GetName(c.name)) := c]
    ensures var c2 := c.(name := c.name.(name := n));
      var cr := ColumnRenamings(t1, t2);
      cr.renamed.m == map[Lower(GetName(c.name)) := c2] && cr.added.m == map[] && cr.removed.m == map[]
  {
    var c2 := c.(name := c.name.(name := n));
    var ka := Lower(GetName(c.name));
    var kb := Lower(GetName(c2.name));
    SingleColumns(t1, t2, ka, kb, c, c2);
    ColumnChangesMembers(c2, c, "name");
    SingleCandidate(Collect(t2.columns.keys, t2.columns.m, AddedColumnOf(t1)),
      Collect(t1.columns.keys, t1.columns.m, RemovedColumnOf(t2)), kb, ka, c2, c, SameColumnsAsWritten(), ColumnName());
    RenameChangesIgnoresName(c2, c);
    SingleCandidate(Collect(t2.columns.keys, t2.columns.m, AddedColumnOf(t1)),
      Collect(t1.columns.keys, t1.columns.m, RemovedColumnOf(t2)), kb, ka, c2, c, SameColumns(), ColumnName());
  }

  /** Two one-column tables without a column in common: the column of the
      new one is added, that of the old one removed. */
  lemma SingleColumns(t1: Table, t2: Table, ka: string, kb: string, c: Column, c2: Column)
    requires ka != kb && Norm(ka) == ka && Norm(kb) == kb
    requires t1.columns == Dict([ka], map[ka := c]) && t2.columns == Dict([kb], map[kb := c2])
    ensures Collect(t2.columns.keys, t2.columns.m, AddedColumnOf(t1)) == Put(Empty(), kb, c2)
    ensures Collect(t1.columns.keys, t1.columns.m, RemovedColumnOf(t2)) == Put(Empty(), ka, c)
  {
    assert !HasColumn(t1, kb) && !HasColumn(t2, ka);
    assert AddedColumnOf(t1)(kb, c2) == Some((kb, c2));
    assert RemovedColumnOf(t2)(ka, c) == Some((ka, c));
    CollectStep(t2.columns.keys, t2.columns.m, AddedColumnOf(t1), 0);
    CollectStep(t1.columns.keys, t1.columns.m, RemovedColumnOf(t2), 0);
    assert t2.columns.keys[..1] == t2.columns.keys && t1.columns.keys[..1] == t1.columns.keys;
    assert t2.columns.keys[..0] == [] && t1.columns.keys[..0] == [];
  }

  /** Rename detection over one added and one removed entry: the pair is
      renamed when `same` accepts it, and nothing happens otherwise. */
  lemma SingleCandidate<V>(added: Dict<V>, removed: Dict<V>, kb: string, ka: string, a: V, r: V,
                           same: (V, V) -> bool, nameOf: V -> string)
    requires added == Put(Empty(), kb, a) && removed == Put(Empty(), ka, r)
    requires kb == Lower(nameOf(a)) && ka == Lower(nameOf(r))
    ensures var st := Renaming(Empty(), added, removed);
      var res := Renamings(st, same, nameOf);
      (!same(a, r) ==> res == st) &&
      (same(a, r) ==> res.renamed.m == map[ka := a] && res.added.m == map[] && res.removed.m == map[])
  {
    var st := Renaming(Empty(), added, removed);
    assert Values(removed) == [r];
    SingleCandidates(added, kb, a, r, same, nameOf);
    var cands := Candidates(added.keys, added.m, [r], same, nameOf);
    if same(a, r) {
      SinglePromote(cands, nameOf(a), a, r, st, nameOf);
    }
  }

  /** The candidate loops over one added and one removed entry. */
  lemma SingleCandidates<V>(added: Dict<V>, kb: string, a: V, r: V, same: (V, V) -> bool, nameOf: V -> string)
    requires added == Put(Empty(), kb, a)
    ensures Candidates(added.keys, added.m, [r], same, nameOf) ==
      if same(a, r) then Put(Empty(), nameOf(a), [(r, a)]) else Empty()
  {
    assert added.keys == [kb] && added.keys[..0] == [];
    assert Candidates(added.keys[..0], added.m, [r], same, nameOf) == Empty();
    assert kb in added.m && added.m[kb] == a;
    assert Candidates(added.keys, added.m, [r], same, nameOf) == AddCandidates(Empty(), a, [r], same, nameOf, 1);
    SingleAddCandidates(a, r, same, nameOf);
  }

  /** The inner candidate loop for one added entry over one removed entry. */
  lemma SingleAddCandidates<V>(a: V, r: V, same: (V, V) -> bool, nameOf: V -> string)
    ensures AddCandidates(Empty(), a, [r], same, nameOf, 1) ==
      if same(a, r) then Put(Empty(), nameOf(a), [(r, a)]) else Empty()
  {
    var e := Empty<seq<(V, V)>>();
    assert AddCandidates(e, a, [r], same, nameOf, 0) == e;
    assert Group(e, nameOf(a)) == [];
    assert [r][0] == r;
    if same(a, r) {
      assert Group(e, nameOf(a)) + [(r, a)] == [(r, a)];
    }
  }

  /** The promotion loop over a single group holding a single pair. */
  lemma SinglePromote<V>(cands: Dict<seq<(V, V)>>, g: string, a: V, r: V, st: Renaming<V>, nameOf: V -> string)
    requires cands == Put(Empty(), g, [(r, a)]) && ValidRenaming(st)
    requires Lower(nameOf(r)) !in st.renamed.m
    ensures Promote(cands, |cands.keys|, st, nameOf) ==
      Renaming(Put(st.renamed, Lower(nameOf(r)), a), Remove(st.added, Lower(nameOf(a))), Remove(st.removed, Lower(nameOf(r))))
  {
    assert cands.keys == [g];
    assert Promote(cands, 0, st, nameOf) == st;
  }

  /** A changed column is recorded by a ColumnDiff that holds the new
      column and the old one and reports as changed exactly the properties
      diffColumn reports, at least one. */
  lemma ChangedColumnRecorded(t1: Table, t2: Table, d: ColumnDiff, p: string)
    requires d in Collect(t1.columns.keys, t1.columns.m, ChangedColumnOf(t2)).m.Values
    ensures exists k :: (k in t1.columns.m && HasColumn(t2, k) &&
      var c := t1.columns.m[k];
      d.fromColumn == Some(c) && d.column == GetColumn(t2, k) && d.oldColumnName == GetName(c.name) &&
      d.changedProperties != [] &&
      (HasChanged(d, p) <==> p in ColumnChanges(c, GetColumn(t2, k))))
  {
    CollectedValue(t1.columns.keys, t1.columns.m, ChangedColumnOf(t2), d);
  }
}

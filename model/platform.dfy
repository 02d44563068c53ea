/** The parts of the platform that the core calls but whose code is not
    part of this model (the generic Platform class and the keyword lists):
    each unseen method is a function-valued field, so nothing is assumed
    about what it returns. The MySQL platform's own code is modelled in
    module MySql on top of these. */
module Platform {
  import opened Base
  import opened Arrays
  import opened Asset
  import opened Index
  import opened Objects
  import opened Sequence
  import opened TableDiff

  /** A table argument that may be given as a Table object or as a name. */
  datatype TableArg = TableObject(t: Table) | TableNamed(n: string)

  /** The two platform classes: the base MySQL platform and the 5.7 one,
      which overrides the rename-index foreign-key hooks. */
  datatype Variant = MySqlBase | MySql57

  datatype Platform = Platform(
    variant: Variant,
    supportsSchemas: bool,
    supportsSequences: bool,
    supportsForeignKeyConstraints: bool,
    supportsSavepoints: bool,
    supportsReleaseSavepoints: bool,
    quoteIdentifier: string -> string,
    isKeyword: string -> bool,
    quoteStringLiteral: string -> string,
    createSchemaSQL: string -> string,
    createTableSQL: Table -> seq<string>,
    createSequenceSQL: Sequence -> string,
    alterSequenceSQL: Sequence -> string,
    dropSequenceSQL: Sequence -> string,
    dropTableSQL: Table -> string,
    createForeignKeySQL: (ForeignKey, TableArg) -> string,
    dropForeignKeySQL: (ForeignKey, TableArg) -> string,
    columnDeclarationSQL: (string, Column) -> string,
    columnComment: Column -> Option<string>,
    indexFieldDeclarationListSQL: seq<string> -> string,
    columnDeclarationListSQL: Dict<Column> -> string,
    uniqueConstraintDeclarationSQL: (string, Index) -> string,
    indexDeclarationSQL: (string, Index) -> string,
    parentDefaultValueDeclarationSQL: Column -> string,
    parentPreAlterSQL: TableDiffValue -> seq<string>,
    parentPostAlterSQL: TableDiffValue -> seq<string>,
    parentRenameIndexSQL: (string, Index, string) -> seq<string>,
    /** ForeignKeyConstraint::intersectsIndexColumns, which is not part of
        this model either; it travels with the platform so that the
        rename-index hooks can consult it. */
    intersectsIndexColumns: (ForeignKey, Index) -> bool)

  /** getQuotedName of an asset on this platform. */
  function Quoted(p: Platform, a: AssetName): string {
    GetQuotedName(a, p.quoteIdentifier, p.isKeyword)
  }
}

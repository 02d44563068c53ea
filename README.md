# Schema diffing and MySQL DDL generation, modelled in Dafny

This project models the core of a PHP database abstraction layer. It covers:

- the schema value model: assets and their names, indexes, sequences, schemas, and column and table diff records;
- the comparator, which turns two schemas into a schema diff;
- the rendering of a schema diff into MySQL DDL statements, including the MySQL 5.7 variant and the two SQL-collecting schema visitors;
- the pure folds of the schema managers, which read `SHOW INDEX`, `DESCRIBE` and `information_schema` rows back into indexes, columns and foreign keys;
- the transaction-nesting state machine of the connection;
- platform selection by server version;
- the PDO MySQL DSN builder.

Each source file becomes one module in `model/`:

| module | source |
|---|---|
| `Asset` | `src/Abstracts/Asset.php` |
| `Index` | `src/Schema/Index.php` |
| `Sequence` | `src/Schema/Sequence.php` |
| `Schema` | `src/Schema/Schema.php` |
| `ColumnDiff` | `src/Schema/ColumnDiff.php` |
| `TableDiff` | `src/Schema/TableDiff.php` |
| `Comparator` | `diffColumn`, `diffIndex`, `diffForeignKey`, `diffSequence`, `diffTable` and the rename detectors of `src/Schema/Comparator.php` |
| `SchemaComparator` | `compare` and `isAutoIncrementSequenceInSchema` of `src/Schema/Comparator.php` |
| `SchemaDiff` | `src/Schema/SchemaDiff.php` |
| `MySql` | `src/Platforms/MySql.php` |
| `MySQL57` | `src/Platforms/MySQL57.php` |
| `CreateCollector` | `src/Schema/Visitor/CreateSchemaSqlCollector.php` |
| `DropCollector` | `src/Schema/Visitor/DropSchemaSqlCollector.php` |
| `SchemaManager` | `src/Abstracts/SchemaManager.php` |
| `MySqlSchemaManager` | `src/Schema/MySqlSchemaManager.php` |
| `Connection` | `src/Connection.php` |
| `MySQLDriver` | `src/Abstracts/MySQLDriver.php` |
| `PdoMysql` | `src/Driver/PdoMysql.php` |

Some modules hold shared definitions:

- `Base`: the PHP string and array primitives the source relies on.
- `Arrays`: ordered PHP arrays, stored as a key list and a map.
- `Types`: the type tags.
- `Errors`: the exceptions, as values.
- `Objects`: the Column, Table and ForeignKeyConstraint classes. They are not part of this model; `Objects` reduces them to the fields the core reads.
- `Platform`: the generic platform. It is not part of this model; `Platform` reduces it to function-typed fields, one per parent method the MySQL platform calls.
- `Visitor`: the visitor event stream.

Where the source updates an object in place, the model does too, with a class whose methods carry `modifies` clauses. This applies to:

- the schema's table and sequence maps;
- the table diff arrays that the comparator and the platform unset;
- the collectors' query lists;
- the connection's nesting level and flags.

Loops become methods with invariants. Each method is proved equal to a function that states what the loop computes, and the lemmas are about those functions.

## Model

| member | source | states |
|---|---|---|
| Asset.TrimQuotes | src/Abstracts/Asset.php:151-154 | the result holds no backtick, double quote or bracket, and holds every other character of the input |
| Asset.TrimQuotesIdempotent | src/Abstracts/Asset.php:151-154 | trimming quotes twice gives what trimming once gives |
| Asset.TrimQuotesLower | src/Abstracts/Asset.php:151-154 | trimming quotes and lower-casing commute |
| Asset.SetName | src/Abstracts/Asset.php:41-54 | a leading backtick, double quote or `[` sets the quoted flag, which is never reset, and strips all quote characters; a dotted name splits into the namespace before the first dot and the name up to the second dot; without a dot the namespace is kept |
| Asset.NewIdentifier | src/Schema/Identifier.php:24-27 | an Identifier is a fresh asset whose name was set once: quoted iff the raw name is, and without namespace for an undotted name |
| Asset.BacktickQuoted | src/Abstracts/Asset.php:41-54 | a name written between backticks parses to the bare name, marked quoted |
| Asset.InDefaultNamespaceIff | src/Abstracts/Asset.php:64-67 | isInDefaultNamespace holds iff the namespace is null or equals the default |
| Asset.GetShortestName | src/Abstracts/Asset.php:89-97 | the result is lower-case, and leaves the namespace out exactly when it equals the default |
| Asset.GetFullQualifiedName | src/Abstracts/Asset.php:112-120 | the result is lower-case and always qualified: by the asset's namespace, or by the default when it has none |
| Asset.QuotedNameSegments | src/Abstracts/Asset.php:179-190 | getQuotedName keeps the dot-segment count of getName, and a segment is quoted iff the asset is quoted or the segment is a keyword |
| Asset.NameRoundTrip | src/Abstracts/Asset.php:161-168 | setting the name getName prints gives back the asset's namespace and name |
| Asset.PlainNameRoundTrip | src/Abstracts/Asset.php:161-168 | the same for an asset without a namespace, whose renamed target keeps its own namespace |
| Index.NewIndex | src/Schema/Index.php:54-93 | a non-string column raises InvalidArgumentException; otherwise primary implies unique, columns are keyed by name (duplicates collapse, first insertion order kept), flags are stored lower-cased and options as given |
| Index.NormIsTrimQuotesLower | src/Schema/Index.php:164-177 | the column form spansColumns compares is the lower-cased name with quotes trimmed |
| Index.SpansColumns | src/Schema/Index.php:164-177 | true iff the given list is at least as long as the index's columns and agrees with them position by position, case-insensitively and with quotes trimmed |
| Index.SpansIff | src/Schema/Index.php:164-177 | the spansColumns predicate holds iff no position is missing and every position agrees |
| Index.SamePartialEquivalence | src/Schema/Index.php:330-341 | being the same partial index is reflexive, symmetric and transitive |
| Index.FulfilledBy | src/Schema/Index.php:186-218 | false when the column counts differ; when true, the columns agree position by position and the partial predicate is the same, and a non-simple index has the other's primary and unique flags; a simple index with the same columns and partial predicate is always fulfilled |
| Index.FulfilledByReflexive | src/Schema/Index.php:186-218 | every index fulfils itself |
| Index.MutualFulfilment | src/Schema/Index.php:186-218 | two indexes that fulfil each other have the same columns and partial predicate, are both simple or both not, and otherwise share their flags |
| Index.Overrules | src/Schema/Index.php:231-244 | false when the other index is primary, and false when this one is simple and the other unique; otherwise true iff this index is primary or unique, spans the other's columns and has the same partial predicate |
| Index.SimpleOverrulesNothing | src/Schema/Index.php:231-244 | a simple index overrules no index |
| Index.Search | src/Schema/Index.php:149-154 | array_search finds the first position holding the value, or none when it is absent |
| Index.SearchAt | src/Schema/Index.php:149-154 | array_search returns a position exactly when the value stands there and nowhere before |
| Index.HasColumnAtPosition | src/Schema/Index.php:149-154 | true iff the first column matching the name, case-insensitively and without quotes, stands at the position |
| Index.UnquotedLowerColumns | src/Schema/Index.php:112-117 | the columns lower-cased and without quotes, one for one |
| Arrays.RemoveFrom | src/Schema/Index.php:291-294 | unset of one key leaves exactly the other keys, and distinct keys stay distinct |
| Arrays.RemoveFromKeeps | src/Schema/Index.php:291-294 | unsetting an absent key changes nothing; unsetting a present key of a distinct list leaves one key fewer |
| Arrays.RemoveFromKeepsOrder | src/Schema/Index.php:291-294 | the other keys keep their order: unsetting k from a + [k] + b, with k in neither part, leaves a + b |
| Index.AddFlagSpec | src/Schema/Index.php:265-284 | after addFlag every spelling of the flag is present, every other flag is unaffected, the columns are kept and the index stays valid |
| Index.RemoveFlagSpec | src/Schema/Index.php:279-294 | after removeFlag no spelling of the flag is present, every other flag is unaffected and the index stays valid |
| Sequence.NumericOrOne | src/Schema/Sequence.php:40-41 | a size or initial value that `is_numeric` accepts is kept, anything else becomes 1 |
| Sequence.NewSequenceReadBack | src/Schema/Sequence.php:37-43 | the constructor stores the parsed name, the cache as given, and each numeric argument (1 otherwise); the defaults equal non-numeric arguments |
| Sequence.SettersReadBack | src/Schema/Sequence.php:74-103 | each setter changes exactly its own property (with the constructor's numeric rule) and leaves the name and the other two properties alone |
| Sequence.SettersCommute | src/Schema/Sequence.php:74-103 | setting a property to its current value changes nothing, and setters of different properties commute |
| Sequence.SettersMatchConstructor | src/Schema/Sequence.php:37-103 | setting size and initial value on a cache-less sequence gives the sequence the constructor builds from the same arguments |
| Sequence.AutoIncrementsForRequires | src/Schema/Sequence.php:115-137 | a sequence recognised for a table implies a one-column primary key whose column is autoincrement and the shortest name `<table>_<column>_seq` |
| Sequence.ImplicitSequenceRecognised | src/Schema/Sequence.php:115-137 | for a plain table with an autoincrement one-column key, the sequence named `<table>_<column>_seq` is recognised |
| Sequence.SequenceNameLower | src/Schema/Sequence.php:133-134 | the implicit sequence name of a lower-case column is already lower-case |
| ColumnDiff.HasChangedIff | src/Schema/ColumnDiff.php:39-55 | `hasChanged` holds exactly for the properties in the list given to the constructor; an empty list reports nothing; the other arguments read back |
| ColumnDiff.GetOldColumnName | src/Schema/ColumnDiff.php:60-63 | the old name is parsed as an identifier: quoted iff written between quotes, unqualified names read back unquoted |
| ColumnDiff.OldColumnNameQuoted | src/Schema/ColumnDiff.php:60-63 | a back-quoted plain old name comes back as that name, marked quoted |
| TableDiff.TableDiff.constructor | src/Schema/TableDiff.php:119-131 | the diff stores name, columns, indexes and old table as given, with no new name, no renamings and no foreign key changes |
| TableDiff.TableDiff.GetNewName | src/Schema/TableDiff.php:148-151 | a truthy new name comes back parsed as an identifier, a falsy one comes back as it was stored |
| TableDiff.NameOfFromTable | src/Schema/TableDiff.php:138-143 | without an old table the stored name is parsed; with one, its quoted name is parsed, so a plain name reads back unchanged and a quoted one stays quoted |
| MySQL57.RenameIndexStatement | src/Platforms/MySQL57.php:26-31 | on 5.7 an index rename is one `ALTER TABLE … RENAME INDEX old TO new` statement naming the index as the platform quotes it |
| MySQL57.PreAlterOrder | src/Platforms/MySQL57.php:16-19 | on 5.7 the pre-alter phase emits no foreign-key drops for renamed indexes: only the paired-column and index-clearing statements and the generic pre-alter statements, in that order |
| MySQL57.AlterTableOrder | src/Platforms/MySQL57.php:21-24 | on 5.7 an ALTER TABLE is the pre-alter statements, the table's own statements and the generic post-alter statements, with no foreign keys re-created for renamed indexes |
| PdoMysql.ConstructPdoDsn | src/Driver/PdoMysql.php:35-60 | the loop of conditional appends builds exactly the DSN `mysql:` followed by one `key=value;` per present parameter |
| PdoMysql.DsnPrefix | src/Driver/PdoMysql.php:37-59 | every DSN starts with `mysql:`, and with no usable parameter it is just `mysql:` |
| PdoMysql.PairsExact | src/Driver/PdoMysql.php:39-57 | the emitted pairs are exactly the present parameters (a host only when non-empty) with their values, in the fixed order host, port, dbname, unix_socket, charset |
| PdoMysql.DsnRendersPairs | src/Driver/PdoMysql.php:37-59 | the DSN is `mysql:` followed by the rendering of the emitted pairs |
| PdoMysql.ParseRender | src/Driver/PdoMysql.php:40-56 | splitting a rendered `key=value;` list gives back the pairs when no key holds `=` or `;` and no value holds `;` |
| PdoMysql.DsnRoundTrip | src/Driver/PdoMysql.php:35-60 | when no value holds `;`, the DSN after `mysql:` parses back to exactly the emitted pairs |
| CreateCollector.CreateSchemaSqlCollector.constructor | src/Schema/Visitor/CreateSchemaSqlCollector.php:41-44 | a new collector keeps the platform and holds no statements |
| CreateCollector.CreateSchemaSqlCollector.AcceptNamespace | src/Schema/Visitor/CreateSchemaSqlCollector.php:49-57 | a namespace adds its CREATE SCHEMA statement to the namespace list only when the platform supports schemas; the other lists stay |
| CreateCollector.CreateSchemaSqlCollector.AcceptTable | src/Schema/Visitor/CreateSchemaSqlCollector.php:62-65 | a table appends its CREATE TABLE statements to the table list; the other lists stay |
| CreateCollector.CreateSchemaSqlCollector.AcceptForeignKey | src/Schema/Visitor/CreateSchemaSqlCollector.php:70-80 | a foreign key appends its constraint statement only when the platform supports foreign keys; the other lists stay |
| CreateCollector.CreateSchemaSqlCollector.AcceptSequence | src/Schema/Visitor/CreateSchemaSqlCollector.php:85-91 | a sequence appends its CREATE SEQUENCE statement; the other lists stay |
| CreateCollector.CreateSchemaSqlCollector.Accept | src/Schema/Visitor/CreateSchemaSqlCollector.php:49-91 | one visit grows each list by exactly what that visit contributes to it |
| CreateCollector.CreateSchemaSqlCollector.AcceptAll | src/Schema/Visitor/CreateSchemaSqlCollector.php:49-91 | after a run of visits each list has grown by the statements of those visits of its kind, in visit order |
| CreateCollector.CreateSchemaSqlCollector.ResetQueries | src/Schema/Visitor/CreateSchemaSqlCollector.php:96-102 | resetting empties all four lists, so no statement is returned afterwards |
| CreateCollector.CreateSchemaSqlCollector.GetQueries | src/Schema/Visitor/CreateSchemaSqlCollector.php:109-130 | the loop returns namespaces, then tables, then sequences, then foreign keys, each list in its own order |
| CreateCollector.CapabilityGates | src/Schema/Visitor/CreateSchemaSqlCollector.php:49-80 | without schema support no namespace statement is produced, and without foreign key support no constraint statement, for any visits |
| CreateCollector.CreateSqlSplit | src/Schema/Visitor/CreateSchemaSqlCollector.php:109-130 | for visits split anywhere, each kind's statements of the later visits follow those of the earlier ones, and every kind comes before the next |
| DropCollector.Attach | src/Schema/Visitor/DropSchemaSqlCollector.php:51-74 | attaching to an object store adds the object at the end unless already present, keeps the store duplicate-free and keeps its earlier order |
| DropCollector.AttachFk | src/Schema/Visitor/DropSchemaSqlCollector.php:65 | attaching a constraint records it with its local table; a constraint already present keeps its position and only its table is replaced |
| DropCollector.AttachTwice | src/Schema/Visitor/DropSchemaSqlCollector.php:51-74 | attaching the same object twice is the same as attaching it once |
| DropCollector.DropSchemaSqlCollector.constructor | src/Schema/Visitor/DropSchemaSqlCollector.php:42-46 | a new collector keeps the platform and holds no constraints, sequences or tables |
| DropCollector.DropSchemaSqlCollector.AcceptTable | src/Schema/Visitor/DropSchemaSqlCollector.php:51-54 | the table is attached to the table store; the other stores stay |
| DropCollector.DropSchemaSqlCollector.AcceptForeignKey | src/Schema/Visitor/DropSchemaSqlCollector.php:59-66 | a constraint with an empty name raises the named-foreign-key error and changes nothing; any other is attached with its local table |
| DropCollector.DropSchemaSqlCollector.AcceptSequence | src/Schema/Visitor/DropSchemaSqlCollector.php:71-74 | the sequence is attached to the sequence store; the other stores stay |
| DropCollector.DropSchemaSqlCollector.Accept | src/Schema/Visitor/DropSchemaSqlCollector.php:51-74 | one visit changes the stores and raises an error exactly as the pure step function says |
| DropCollector.DropSchemaSqlCollector.AcceptAll | src/Schema/Visitor/DropSchemaSqlCollector.php:51-74 | a run of visits leaves the stores as the pure walk does, and stops at the first unnamed foreign key with its error |
| DropCollector.DropSchemaSqlCollector.ClearQueries | src/Schema/Visitor/DropSchemaSqlCollector.php:79-84 | clearing empties all three stores |
| DropCollector.DropSchemaSqlCollector.GetQueries | src/Schema/Visitor/DropSchemaSqlCollector.php:89-107 | the three loops return the constraint drops against their recorded tables, then the sequence drops, then the table drops |
| DropCollector.DropCounts | src/Schema/Visitor/DropSchemaSqlCollector.php:89-107 | one statement per stored object, constraint drops first and table drops last, each in store order |
| DropCollector.ConstraintDropsAt | src/Schema/Visitor/DropSchemaSqlCollector.php:93-96 | the i-th constraint drop drops the i-th stored constraint from its recorded local table |
| DropCollector.TableDropsAt | src/Schema/Visitor/DropSchemaSqlCollector.php:102-104 | the i-th table drop drops the i-th stored table |
| DropCollector.RunFailsIff | src/Schema/Visitor/DropSchemaSqlCollector.php:61-63 | a run of visits fails exactly when it meets a foreign key without a name, and then with the named-foreign-key error |
| MySQLDriver.LeadingDigits | src/Abstracts/MySQLDriver.php:49 | the `\d+` match at the start of a version: the longest run of leading digits |
| MySQLDriver.Components | src/Abstracts/MySQLDriver.php:49-64 | major, minor and patch are non-empty digit strings, a missing minor or patch reading as "0" |
| MySQLDriver.CompareParts | src/Abstracts/MySQLDriver.php:67 | part-by-part version comparison yields -1, 0 or 1 |
| MySQLDriver.CreateDatabasePlatformForVersion | src/Abstracts/MySQLDriver.php:47-73 | a version not starting with a digit is an invalid-version error; a MariaDB version always gets the base platform |
| MySQLDriver.CompareWith57 | src/Abstracts/MySQLDriver.php:65-67 | `major.minor.patch` compares at or above 5.7 exactly when major > 5, or major = 5 and minor >= 7 |
| MySQLDriver.PlatformFor57 | src/Abstracts/MySQLDriver.php:47-73 | the 5.7 platform is chosen exactly for a well-formed, non-MariaDB version whose major and minor reach 5.7 |
| MySQLDriver.MissingPartsReadZero | src/Abstracts/MySQLDriver.php:63-64 | when no `.digits` follows the major, minor and patch both read as "0"; when a minor part follows but no patch part, the minor part is its digits and the patch reads as "0" |
| MySQLDriver.GetDatabase | src/Abstracts/MySQLDriver.php:36-45 | the configured `dbname` wins; otherwise the server's answer to `SELECT DATABASE()` is returned |
| MySQLDriver.GetDatabaseIgnoresServer | src/Abstracts/MySQLDriver.php:40-42 | with a configured `dbname` the server's answer does not matter |
| Schema.SchemaAssetName | src/Schema/Schema.php:79 | a schema whose configuration gives no truthy name is called `public` |
| Schema.QualifiedAssetName | src/Schema/Schema.php:194-219 | an asset name is unquoted, prefixed with the schema name when it has no dot, and lower-cased |
| Schema.QualifiedAssetNameIdempotent | src/Schema/Schema.php:194-203 | qualifying an already qualified name changes nothing |
| Schema.Schema.constructor | src/Schema/Schema.php:72-93 | a new schema takes its configured name (or `public`) and the default table options, and holds no namespaces, tables or sequences |
| Schema.Schema.FoundUnderItsName | src/Schema/Schema.php:110-203 | a plain table is looked up under the same key it was stored under |
| Schema.Schema.CreateNamespace | src/Schema/Schema.php:304-315 | an already registered namespace (compared unquoted and lower-cased) raises namespaceAlreadyExists and changes nothing; otherwise it is registered under that key with the name as given |
| Schema.Schema.RegisterNamespaceOf | src/Schema/Schema.php:119-121 | an asset outside the default namespace gets its namespace registered when missing; registered namespaces stay |
| Schema.Schema.AddTable | src/Schema/Schema.php:110-125 | a table whose qualified name is taken raises tableAlreadyExists and changes nothing; otherwise it is stored under that name and its namespace registered; earlier tables stay |
| Schema.Schema.AddSequence | src/Schema/Schema.php:134-148 | a sequence whose qualified name is taken raises sequenceAlreadyExists and changes nothing; otherwise it is stored and its namespace registered |
| Schema.Schema.AddTables | src/Schema/Schema.php:90-92 | the constructor's loop stores every table, or stops with tableAlreadyExists for one of them |
| Schema.Schema.AddNextTable | src/Schema/Schema.php:90-92 | one step of the constructor's loop keeps the tables already added and adds the next one or fails on it |
| Schema.Schema.GetTable | src/Schema/Schema.php:177-187 | a table exists exactly when `hasTable` holds and is the one stored under the qualified name; otherwise tableDoesNotExist with that name |
| Schema.Schema.GetSequence | src/Schema/Schema.php:278-286 | the lookup fails with sequenceDoesNotExist exactly when the twice-qualified name is not known |
| Schema.Schema.GetSequenceFinds | src/Schema/Schema.php:264-286 | for an unquoted schema name, `getSequence` succeeds exactly when `hasSequence` holds and returns the stored sequence |
| Schema.Schema.DropTable | src/Schema/Schema.php:362-369 | a missing table raises tableDoesNotExist and changes nothing; otherwise exactly that table is removed |
| Schema.Schema.CreateTable | src/Schema/Schema.php:324-334 | a new table with the default options is added, or tableAlreadyExists is raised and the tables stay |
| Schema.Schema.CreateSequence | src/Schema/Schema.php:380-386 | a new sequence built like the constructor does is added, or sequenceAlreadyExists is raised and the sequences stay |
| Schema.Schema.DropSequence | src/Schema/Schema.php:393-399 | the sequence under the qualified name is removed, silently when absent; nothing else changes |
| Schema.Schema.RenameTable | src/Schema/Schema.php:344-353 | a missing table raises tableDoesNotExist and nothing changes; otherwise the table is removed and re-added under its new name, failing with tableAlreadyExists after the removal when the new name is taken |
| Schema.Schema.Events | src/Schema/Schema.php:464-481 | a visit starts with the schema itself, then its namespaces, each table with its foreign keys, then the sequences |
| Schema.Schema.ToSql | src/Schema/Schema.php:408-414 | the statements are what the create collector gathers from the schema's visit |
| Schema.Schema.ToDropSql | src/Schema/Schema.php:423-429 | the statements are what the drop collector gathers from the visit, or the error of the first unnamed foreign key |
| Schema.NewTable | src/Schema/Schema.php:326-331 | a new table has the parsed name and the default options and is well formed |
| Comparator.DefaultChangedIff | src/Schema/Comparator.php:440-447 | the loose `!=` on defaults plus the two null tests together report a default change exactly when the two defaults differ |
| Comparator.ColumnChanges | src/Schema/Comparator.php:425-500 | diffColumn never reports a property twice |
| Comparator.DiffColumn | src/Schema/Comparator.php:425-500 | diffColumn's loops compute the fixed comparisons, the custom option loop and the platform option loop, deduplicated |
| Comparator.CustomOptionChanges | src/Schema/Comparator.php:479-488 | the custom option loop visits the keys of both columns in turn |
| Comparator.PlatformOptionChanges | src/Schema/Comparator.php:490-497 | the platform option loop visits the keys of the first column |
| Comparator.CustomChangesMembers | src/Schema/Comparator.php:482-488 | a custom option key is reported exactly when one column lacks it or the two values differ |
| Comparator.PlatformChangesMembers | src/Schema/Comparator.php:493-497 | a platform option key is reported exactly when both columns have it and the values differ |
| Comparator.FixedChangesMembers | src/Schema/Comparator.php:434-477 | a built-in property is reported exactly under its own test: type and the flags, name, list, default, length and fixed for strings and binaries, precision and scale for decimals, comment with null equal to the empty string |
| Comparator.ColumnChangesMembers | src/Schema/Comparator.php:425-500 | a property is reported exactly when a built-in test, the custom option test or the platform option test reports it |
| Comparator.ColumnChangesSelf | src/Schema/Comparator.php:425-500 | a column compared with itself shows no change |
| Comparator.ColumnChangesSymmetric | src/Schema/Comparator.php:425-500 | swapping the columns reports the same properties, except the size properties that the first column's type selects |
| Comparator.BuiltinReported | src/Schema/Comparator.php:434-477 | with no option named like a built-in property, a built-in property is reported exactly under its own test |
| Comparator.ColumnChangesFlags | src/Schema/Comparator.php:434-438 | type, notnull, unsigned and autoincrement are each reported exactly when they differ |
| Comparator.ColumnChangesNameAndList | src/Schema/Comparator.php:434-438 | name and list are each reported exactly when they differ |
| Comparator.ColumnChangesDefaultAndComment | src/Schema/Comparator.php:440-477 | default is reported exactly when the defaults differ, comment exactly when the comments differ other than null against the empty string |
| Comparator.ColumnChangesLength | src/Schema/Comparator.php:449-461 | for strings and binaries length (255 when unset) and fixed are reported exactly when they differ; for other types never |
| Comparator.ColumnChangesDecimal | src/Schema/Comparator.php:462-469 | for decimals precision (10 when unset) and scale are reported exactly when they differ; for other types never |
| Comparator.RenameCandidatesShareName | src/Schema/Comparator.php:316-321 | an added and a removed column that diffColumn finds equal have the same name, so the rename test can never pair two columns of different names |
| Comparator.RenameChangesIgnoresName | src/Schema/Comparator.php:316-321 | the corrected rename test reports what diffColumn reports except the name, and accepts a column against a renamed copy of itself |
| Comparator.ColumnRenameMissedAsWritten | src/Schema/Comparator.php:310-340 | for a single column renamed, the rename detection as written changes nothing and leaves one added and one removed column; the corrected detection records the rename and leaves neither |
| Comparator.DiffIndexProperties | src/Schema/Comparator.php:513-520 | diffIndex is symmetric and irreflexive, and indexes it finds equal have the same columns up to case and quotes and the same partial predicate |
| Comparator.DiffForeignKeyProperties | src/Schema/Comparator.php:389-412 | diffForeignKey is symmetric and irreflexive, ignores the constraint names, and reports keys whose lower-cased local columns differ |
| Comparator.DiffSequenceProperties | src/Schema/Comparator.php:168-179 | diffSequence is symmetric and irreflexive, ignores the cache, and setting the allocation size or initial value makes a difference exactly when the value read back changes |
| Comparator.PairForeignKeys | src/Schema/Comparator.php:273-297 | the nested foreign key loops return the unmatched from-keys as removed, the keys reported changed, and the unmatched to-keys as added |
| Comparator.KeepAlive | src/Schema/Comparator.php:289-297 | the leftover loops keep exactly the keys not unset, in order |
| Comparator.MatchKeyAlive | src/Schema/Comparator.php:274-286 | one inner pass cancels exactly the live to-keys it reaches that are equal to the from-key or share its lower-cased name |
| Comparator.MatchKeyMatched | src/Schema/Comparator.php:274-286 | the from-key is unset exactly when some live to-key is equal to it or shares its lower-cased name |
| Comparator.MatchKeyChanged | src/Schema/Comparator.php:278-284 | a key reported changed is a to-key that differs from the from-key but shares its lower-cased name; with no such live key nothing is reported |
| Comparator.PairingLeftovers | src/Schema/Comparator.php:273-297 | every to-key left over is apart from every from-key: it neither equals one nor shares its name |
| Comparator.PairingUnmatched | src/Schema/Comparator.php:273-287 | a from-key is left over exactly when it is apart from every to-key still live when its turn came |
| Comparator.PairingChanged | src/Schema/Comparator.php:278-284 | every changed key is a to-key sharing the lower-cased name of a from-key it differs from |
| Comparator.PairingSelf | src/Schema/Comparator.php:273-297 | foreign keys paired with themselves all cancel, with nothing changed, when no two of them could pair |
| Comparator.DetectRenamings | src/Schema/Comparator.php:310-381 | the rename detection computes the candidates and then promotes the single ones |
| Comparator.FindCandidates | src/Schema/Comparator.php:314-323 | the candidate loops file every accepted pair under the added entry's name |
| Comparator.PromoteCandidates | src/Schema/Comparator.php:325-339 | the promotion loop renames the removed entry of each one-pair group unless its name is already renamed |
| Comparator.CandidatesSound | src/Schema/Comparator.php:314-323 | every candidate pair is a removed and an added entry that the test accepts, filed under the added entry's name |
| Comparator.CandidatesComplete | src/Schema/Comparator.php:314-323 | every added and removed pair the test accepts is among the candidates under the added entry's name |
| Comparator.RenamingsSpec | src/Schema/Comparator.php:325-339 | renaming keeps earlier renames, only removes added and removed entries, and each new rename takes a removed entry of its lower-cased name and an added entry the test accepts, both dropped from the added and removed collections |
| Comparator.RenamingsUnambiguous | src/Schema/Comparator.php:363-368 | a rename is only recorded when no other accepted pair shares the added entry's name |
| Comparator.RenamingsPromoteSingles | src/Schema/Comparator.php:325-339 | every candidate group with exactly one pair ends up renamed |
| Comparator.RenamingsNone | src/Schema/Comparator.php:310-340 | when the test accepts no pair, nothing changes |
| Comparator.CountZero | src/Schema/Comparator.php:193-299 | a change loop counts nothing exactly when no entry it visits is filed |
| Comparator.CollectEntries | src/Schema/Comparator.php:203-208 | a loop over an array files the entries it selects under their keys and counts each one |
| Comparator.DiffColumns | src/Schema/Comparator.php:212-231 | the second column loop files the removed columns and the columns diffColumn finds changed, counting each |
| Comparator.DiffIndexes | src/Schema/Comparator.php:249-266 | the second index loop files the removed indexes and the changed counterparts, counting each |
| Comparator.ColumnsPart | src/Schema/Comparator.php:198-233 | both column loops and the rename detection give the renaming, the changed columns and the count |
| Comparator.IndexesPart | src/Schema/Comparator.php:236-268 | both index loops and the rename detection give the renaming, the changed indexes and the count |
| Comparator.ForeignKeysPart | src/Schema/Comparator.php:270-297 | the foreign key loops give the removed, changed and added keys of the pairing |
| Comparator.DiffTable | src/Schema/Comparator.php:191-300 | diffTable returns false exactly when nothing was counted, and otherwise a fresh table diff holding exactly what its loops filed |
| Comparator.ColumnChangeCountZero | src/Schema/Comparator.php:203-231 | the column loops count nothing exactly when each table has every column of the other and diffColumn finds them equal |
| Comparator.IndexChangeCountZero | src/Schema/Comparator.php:240-266 | the index loops count nothing exactly when every new index is present in the old table and every old index has an equal counterpart |
| Comparator.ForeignKeyChangeCountZero | src/Schema/Comparator.php:273-297 | the foreign key loops count nothing exactly when the keys pair off with none changed |
| Comparator.DiffTableNoneIff | src/Schema/Comparator.php:191-300 | diffTable returns false exactly when the columns, the indexes and the foreign keys all match |
| Comparator.DiffTableReflexive | src/Schema/Comparator.php:191-300 | a well-formed table compared with itself shows no difference |
| Comparator.ForeignKeysSelf | src/Schema/Comparator.php:273-297 | a table's foreign keys compared with themselves count nothing |
| Comparator.RenamedColumn | src/Schema/Comparator.php:325-339 | a column rename pairs a column only the new table has with one only the old table has, under the old lower-cased name, and neither is left added or removed |
| Comparator.RenamedIndex | src/Schema/Comparator.php:363-380 | an index rename pairs an index only the new table has with one only the old table has that diffIndex finds equal, and neither is left added or removed |
| Comparator.ChangedColumnRecorded | src/Schema/Comparator.php:222-230 | a changed column diff is filed for a column both tables have, with the new column, the old one, and the properties diffColumn reports |
| SchemaComparator.Compare | src/Schema/Comparator.php:41-143 | compare returns a fresh schema diff from the old schema, with no namespaces, holding exactly the new, changed and removed tables, orphaned foreign keys and new, changed and removed sequences its loops find |
| SchemaComparator.CompareValues | src/Schema/Comparator.php:61-140 | the five loops, run in order, produce exactly what compare reports, each changed table's diff freshly made |
| SchemaComparator.CompareTables | src/Schema/Comparator.php:61-115 | the table loops give the new, changed and removed tables and the orphaned foreign keys compare reports |
| SchemaComparator.Assemble | src/Schema/Comparator.php:43-44 | the diff object holds exactly the parts found, with the origin schema |
| SchemaComparator.NewAndChangedTables | src/Schema/Comparator.php:61-78 | the loop over the new schema's tables files each as new or, when diffTable reports a change, as changed |
| SchemaComparator.VisitNewTable | src/Schema/Comparator.php:63-77 | one pass files its own table as new, changed or not at all |
| SchemaComparator.SeeTableKeys | src/Schema/Comparator.php:63-77 | a pass over a new-schema table files at most that table's own name: as new when the old schema lacks it, as changed when diffTable reports a change |
| SchemaComparator.SeenNames | src/Schema/Comparator.php:61-78 | after n passes a name is new exactly when a table seen so far has it and the old schema lacks it, and changed exactly when both schemas have it and diffTable reports a change |
| SchemaComparator.RemovedTables | src/Schema/Comparator.php:81-97 | the loop over the old schema's tables gives the removed tables and files every foreign key under its lower-cased target table |
| SchemaComparator.VisitOldTable | src/Schema/Comparator.php:82-96 | one pass removes at most its own table and files that table's foreign keys |
| SchemaComparator.FileKeys | src/Schema/Comparator.php:90-96 | each foreign key is appended under its lower-cased target table, in order |
| SchemaComparator.LeaveTableKeys | src/Schema/Comparator.php:82-87 | a pass over an old-schema table removes at most that table's name, and only when the new schema lacks it |
| SchemaComparator.LeftNames | src/Schema/Comparator.php:81-97 | after n passes a name is removed exactly when a table seen so far has it and the new schema lacks it |
| SchemaComparator.TablesPartition | src/Schema/Comparator.php:61-97 | a table only the new schema has is new, one only the old schema has is removed, one both have is changed exactly when diffTable reports a difference; no name is filed under two headings |
| SchemaComparator.ClearOrphans | src/Schema/Comparator.php:99-115 | the orphan loop collects the foreign keys pointing at removed tables and clears the local tables' removed foreign keys |
| SchemaComparator.ClearPointing | src/Schema/Comparator.php:105-113 | corrected: only the removed foreign keys that point at the removed table are dropped from each local table's diff |
| SchemaComparator.ClearDiff | src/Schema/Comparator.php:108-112 | corrected: one local table's diff loses the removed foreign keys pointing at the removed table |
| SchemaComparator.PointingElsewhere | src/Schema/Comparator.php:109-111 | exactly the foreign keys that do not point at the given table are kept |
| SchemaComparator.ClearLocalAsWritten | src/Schema/Comparator.php:105-113 | as written: a changed table some orphan comes from loses all its removed foreign keys; everything else about it stays |
| SchemaComparator.ClearLocalCorrected | src/Schema/Comparator.php:105-113 | corrected: a removed foreign key stays unless an orphan comes from its table and it points at the removed table; everything else stays |
| SchemaComparator.ClearingLosesForeignKeys | src/Schema/Comparator.php:108-112 | a removed foreign key pointing at a table that is not removed is lost as written and kept by the correction |
| SchemaComparator.IsAutoIncrementSequenceInSchema | src/Schema/Comparator.php:151-160 | true exactly when some table of the schema has the sequence as its implicit autoincrement sequence |
| SchemaComparator.NewAndChangedSequences | src/Schema/Comparator.php:117-128 | a new-schema sequence unknown to the old schema is new unless it is an autoincrement sequence there; a known one is changed when diffSequence says so |
| SchemaComparator.VisitNewSequence | src/Schema/Comparator.php:118-127 | one pass over a new-schema sequence, filed as the loop says |
| SchemaComparator.RemovedSequences | src/Schema/Comparator.php:130-140 | an old-schema sequence that is no autoincrement sequence of the new schema and that the new schema lacks is removed |
| SchemaComparator.VisitOldSequence | src/Schema/Comparator.php:131-139 | one pass over an old-schema sequence, filed as the loop says |
| SchemaComparator.NamedBeforeIff | src/Schema/Comparator.php:61-63 | a name is seen by the end of the loop exactly when some table of the schema carries it |
| SchemaComparator.NothingSeenInSelf | src/Schema/Comparator.php:61-78 | a schema compared with itself has no new and no changed tables |
| SchemaComparator.NothingLeftInSelf | src/Schema/Comparator.php:81-87 | a schema compared with itself has no removed tables |
| SchemaComparator.NoSequencesSeenInSelf | src/Schema/Comparator.php:117-128 | a schema compared with itself has no new and no changed sequences |
| SchemaComparator.NoSequencesLeftInSelf | src/Schema/Comparator.php:130-140 | a schema compared with itself has no removed sequences |
| SchemaComparator.CompareSelf | src/Schema/Comparator.php:41-143 | comparing a schema with itself reports nothing at all |
| SchemaDiff.SchemaDiff.constructor | src/Schema/SchemaDiff.php:86-92 | a new diff holds the given new, changed and removed tables and origin schema, and no namespaces, sequences or orphaned foreign keys |
| SchemaDiff.SchemaDiff.AlterChangedTables | src/Schema/SchemaDiff.php:181-183 | each changed table's ALTER statements are appended in order, and each table diff is left as the platform's alter step leaves it |
| SchemaDiff.SchemaDiff.ToSqlMode | src/Schema/SchemaDiff.php:128-186 | the statements are the create/drop part for the diff as it was, followed by the ALTER statements of the changed tables |
| SchemaDiff.SchemaDiff.CreateDropStatements | src/Schema/SchemaDiff.php:130-179 | namespaces, orphaned foreign key drops, sequences, new tables, their foreign keys and table drops, in that order and gated as the platform and the mode say |
| SchemaDiff.SchemaDiff.SequenceStatements | src/Schema/SchemaDiff.php:144-158 | with sequence support: alters, then drops unless in save mode, then creates; nothing otherwise |
| SchemaDiff.SchemaDiff.ToSql | src/Schema/SchemaDiff.php:117-120 | the full migration, dropping what was removed |
| SchemaDiff.SchemaDiff.ToSaveSql | src/Schema/SchemaDiff.php:107-110 | the migration without removals |
| SchemaDiff.AppendEach | src/Schema/SchemaDiff.php:133-135 | a foreach appending each element's statements leaves their concatenation in order |
| SchemaDiff.NewTableStatements | src/Schema/SchemaDiff.php:160-172 | one pass gives every new table's CREATE statements and, separately, the foreign keys of all new tables |
| SchemaDiff.Renderings | src/Schema/SchemaDiff.php:181-183 | one rendering per changed table |
| SchemaDiff.RenderingsRender | src/Schema/SchemaDiff.php:181-183 | each rendering is the platform's ALTER TABLE of that table's diff |
| SchemaDiff.AlteredReady | src/Schema/SchemaDiff.php:181-183 | the diffs the alter step leaves behind can be altered again |
| SchemaDiff.SaveModeOmitsDrops | src/Schema/SchemaDiff.php:95-110 | save mode is the full migration with the removed tables, removed sequences and orphaned foreign keys taken out, and the full migration has exactly the save mode statements plus those drops |
| SchemaDiff.CapabilityGates | src/Schema/SchemaDiff.php:132-171 | without schema support namespaces do not matter, without sequence support sequences do not, and without foreign key support neither orphans nor new foreign keys do |
| SchemaDiff.NoForeignKeysCreated | src/Schema/SchemaDiff.php:167-171 | without foreign key support no table contributes a foreign key statement |
| SchemaDiff.ForeignKeysAfterTables | src/Schema/SchemaDiff.php:160-174 | every statement creating a new table comes before every statement creating a new table's foreign key |
| SchemaDiff.TablesCreated | src/Schema/SchemaDiff.php:161-165 | every new table's CREATE statements are in the output |
| SchemaDiff.ForeignKeysCreated | src/Schema/SchemaDiff.php:167-171 | with foreign key support every foreign key of every new table is created |
| MySql.SentinelDigits | src/Platforms/MySql.php:77-78 | the offset-only sentinel is the decimal rendering of the largest unsigned BIGINT |
| MySql.LimitQueryExtends | src/Platforms/MySql.php:70-82 | the limit clause only appends to the query, appends nothing exactly when neither limit nor offset is given, and an offset alone behaves as the offset with the largest unsigned BIGINT as limit |
| MySql.SnippetLengths | src/Platforms/MySql.php:187-196 | both string snippets declare the given length when it is truthy and 255 otherwise, differing between fixed and variable width only in the keyword |
| MySql.TierIsSmallestFitting | src/Platforms/MySql.php:209-228 | a positive length up to the LONG capacity gets the smallest TEXT/BLOB tier that holds it |
| MySql.TierMonotonic | src/Platforms/MySql.php:209-228 | a longer length never gets a smaller tier |
| MySql.TierCapacityRoundTrip | src/Platforms/MySql.php:209-228 | the capacity of each tier maps back to that tier and its keyword |
| MySql.IntegerSuffixRoundTrip | src/Platforms/MySql.php:783-792 | the integer suffix records UNSIGNED and AUTO_INCREMENT in a fixed order, so both flags can be read back |
| MySql.DropIndexCases | src/Platforms/MySql.php:805-838 | an argument of the wrong kind is refused, a primary index is dropped as the table's primary key whatever its name, anything else by name on the table |
| MySql.CreateIndexFlagsCases | src/Platforms/MySql.php:754-766 | at most one keyword is rendered: UNIQUE exactly for unique indexes, FULLTEXT or SPATIAL only for a non-unique index with that flag |
| MySql.QuotedColumns | src/Platforms/MySql.php:598 | an index's quoted column list has one entry per column, the i-th being the i-th column parsed as an identifier and quoted for the platform |
| MySql.QuotedColumnCases | src/Platforms/MySql.php:598 | a backtick-quoted column is always quoted for the platform; a plain column without a dot is quoted exactly when it is a keyword |
| MySql.DefaultValueIgnoredForTextAndBlob | src/Platforms/MySql.php:376-384 | a TEXT or BLOB column's default never shows in its declaration; other columns use the generic rendering unchanged |
| MySql.TableOptionDefaults | src/Platforms/MySql.php:393-440 | table_options replaces every other option; otherwise utf8, utf8_unicode_ci and InnoDB are always rendered first and each further clause only for an option that is set |
| MySql.CreateForeignKeys | src/Platforms/MySql.php:367-371 | one foreign key statement per definition, in order, each rendered against the new table |
| MySql.AppendDeclarations | src/Platforms/MySql.php:330-341 | the unique constraint and index loops append one declaration per entry |
| MySql.AppendForeignKeys | src/Platforms/MySql.php:367-371 | the foreign key loop appends one statement per definition |
| MySql.QueryFields | src/Platforms/MySql.php:328-347 | the field list is the columns, then the unique constraints, the indexes and the primary key |
| MySql.GetCreateTableSQL | src/Platforms/MySql.php:326-374 | _getCreateTableSQL returns the CREATE statement and, only for InnoDB, the foreign key statements |
| MySql.CreateTableForeignKeys | src/Platforms/MySql.php:349-373 | the first statement starts with CREATE and is followed by exactly one statement per foreign key when the engine is InnoDB and none otherwise |
| MySql.AppendParts | src/Platforms/MySql.php:465-525 | each column loop of getAlterTableSQL appends what every entry renders, in order |
| MySql.AlterQueryParts | src/Platforms/MySql.php:458-532 | the ALTER parts are the rename, added, removed, changed and renamed columns and the added primary key, in that order |
| MySql.ChangedColumnsRendered | src/Platforms/MySql.php:489-511 | the changed columns render nothing exactly when every change is only a default change on a TEXT or BLOB column |
| MySql.AddedColumnsRendered | src/Platforms/MySql.php:465-475 | the added columns render nothing exactly when there are none |
| MySql.RemovedColumnsRendered | src/Platforms/MySql.php:478-486 | the removed columns render nothing exactly when there are none |
| MySql.RenamedColumnsRendered | src/Platforms/MySql.php:513-525 | the renamed columns render nothing exactly when there are none |
| MySql.AlterStatementPresent | src/Platforms/MySql.php:458-551 | the ALTER TABLE statement is emitted exactly when the table is renamed, a column is added, removed, renamed or changed in a way MySQL can express, or a primary key is added |
| MySql.ClearAutoIncrement | src/Platforms/MySql.php:570-582 | the loop over a primary key's columns emits one MODIFY per autoincrement column, declared without autoincrement |
| MySql.ClearChangedPrimaryKeys | src/Platforms/MySql.php:638-667 | for each changed primary key, every autoincrement column of the old primary key it no longer holds is modified without autoincrement |
| MySql.FirstSameColumns | src/Platforms/MySql.php:585-586 | the added index found has the removed index's columns; when none is found no added index from that point has them |
| MySql.FindSameColumns | src/Platforms/MySql.php:585-607 | the inner loop finds the first added index over the same columns |
| MySql.ClearBeforeDrop | src/Platforms/MySql.php:569-583 | before a primary key of the old table is dropped, its autoincrement columns are modified without autoincrement |
| MySql.PairWithSubmap | src/Platforms/MySql.php:602-603 | a visit only removes entries from the removed and added indexes |
| MySql.PairWithCounts | src/Platforms/MySql.php:602-603 | a visit removes as many removed indexes as added ones |
| MySql.PairWithUnpaired | src/Platforms/MySql.php:585-607 | a removed index that stays removed had no added index over the same columns, and the visit changed nothing |
| MySql.PairRemovedIndexes | src/Platforms/MySql.php:567-608 | the removed index loop emits the clears and collapsed statements and takes the collapsed pairs out of the diff's removed and added indexes |
| MySql.IndexPairsCollapse | src/Platforms/MySql.php:567-608 | after the loop no remaining removed index shares its columns with a remaining added index, and as many removed as added indexes were taken out |
| MySql.UnpairedDiff | src/Platforms/MySql.php:567-608 | with no removed index the loop emits nothing and changes nothing |
| MySql.RemovedPrimaryClearsAutoIncrement | src/Platforms/MySql.php:569-583 | every autoincrement column of a removed primary key is cleared in the ALTER output |
| MySql.ChangedPrimaryClearsAutoIncrement | src/Platforms/MySql.php:643-663 | every autoincrement column dropped from a changed primary key is cleared in the ALTER output |
| MySql.GateForeignKeys | src/Platforms/MySql.php:610-621 | on an engine other than InnoDB the diff's added, changed and removed foreign keys are emptied |
| MySql.PreAlterTableIndexForeignKeySQL | src/Platforms/MySql.php:562-631 | the pre-alter statements are the pairing, the primary key clears, the generic pre-alter statements and the rename drops, and the diff is left as the pairing and the engine gate leave it |
| MySql.PreAlter | src/Platforms/MySql.php:562-631 | the pre-phase changes nothing in the diff but the removed and added indexes, which only lose entries, and the foreign keys, which are emptied exactly when the engine is not InnoDB |
| MySql.PreAlterRestSQL | src/Platforms/MySql.php:623-628 | after the pairing the pre-phase appends the changed primary key clears, the generic statements and the rename drops |
| MySql.QuietPreAlter | src/Platforms/MySql.php:562-631 | with no removed, changed or renamed index the pre-phase is the generic statements on the gated diff |
| MySql.PostAlterTableIndexForeignKeySQL | src/Platforms/MySql.php:725-731 | the post-alter statements are the generic ones followed by the rename re-creations |
| MySql.QuietPostAlter | src/Platforms/MySql.php:725-752 | with no renamed index the post-phase is the generic statements alone |
| MySql.ConsumePrimary | src/Platforms/MySql.php:527-532 | an added primary index is rendered into the ALTER statement and removed from the diff |
| MySql.AlterTable | src/Platforms/MySql.php:456-560 | after getAlterTableSQL the diff holds no added primary index |
| MySql.AlterStatement | src/Platforms/MySql.php:549-551 | the ALTER TABLE statement joins the parts and is left out when there are none |
| MySql.GetAlterTableSQL | src/Platforms/MySql.php:456-560 | getAlterTableSQL returns the pre-alter statements, the ALTER statement and the post-alter statements, and leaves the diff as the rendering changed it |
| MySql.EmptyDiffRendersParentHooks | src/Platforms/MySql.php:456-560 | a diff with no column or index change renders only the generic pre- and post-alter statements |
| MySql.EmptyDiffOnlyGated | src/Platforms/MySql.php:456-560 | rendering a diff with no column or index change only applies the engine gate to it |
| MySql.NothingToAlter | src/Platforms/MySql.php:458-551 | with no rename, column change or added index there is no ALTER statement and nothing is consumed |
| MySql.RemovedForeignKeyRemainsAsWritten | src/Platforms/MySql.php:707-710 | a removed foreign key stored under its name survives array_diff_key against the list of removed keys, so it is dropped and re-created; the corrected set leaves it out |
| MySql.IntersectsSome | src/Platforms/MySql.php:713-719 | the inner loop finds whether the key intersects some renamed index |
| MySql.RemainingForeignKeyConstraints | src/Platforms/MySql.php:698-723 | the remaining foreign keys are those computed by the corrected set |
| MySql.RemainingForeignKeysMembers | src/Platforms/MySql.php:698-723 | a foreign key remains exactly when indexes were renamed, the old table is known and has it, it is not removed, and it intersects a renamed index |
| MySql.KeepRequiringRenamed | src/Platforms/MySql.php:712-720 | the loop keeps exactly the keys intersecting a renamed index, in order |
| MySql.RequiringRenamedMembers | src/Platforms/MySql.php:712-720 | a key is kept exactly when it is among the visited keys and intersects a renamed index |
| MySql.RenderForeignKeys | src/Platforms/MySql.php:679-683 | the loop renders one statement per remaining key that is not a changed key |
| MySql.KeptStatements | src/Platforms/MySql.php:679-683 | one statement per kept key, in order, and a key is kept exactly when it is not among the changed keys |
| MySql.RenameIndexForeignKeysPreSQL | src/Platforms/MySql.php:674-686 | the rename drops are those of the pre-rename specification |
| MySql.RenameIndexForeignKeysPostSQL | src/Platforms/MySql.php:738-752 | the rename re-creations are those of the post-rename specification |
| MySql.RenameIndexForeignKeysPaired | src/Platforms/MySql.php:674-752 | on the base platform every remaining unchanged foreign key is dropped on the old table name before the alteration and re-created on the new name after it, one for one |
| MySql.RenameIndexForeignKeysQuiet | src/Platforms/MySql.php:698-702 | on the 5.7 platform, or with no renamed index or old table, nothing is dropped or re-created |
| SchemaManager.Group | src/Abstracts/SchemaManager.php:179-203 | the grouping loop builds exactly the grouping the fold specifies |
| SchemaManager.GroupedSpec | src/Abstracts/SchemaManager.php:179-203 | the groups come in order of first appearance, one per key that occurs, each folded from all rows with its key in row order |
| SchemaManager.PortableTableIndexesList | src/Abstracts/SchemaManager.php:176-235 | the rows are grouped by lower-cased key name (`primary` for the primary key) and one index is built per group |
| SchemaManager.BuildUpToSpec | src/Abstracts/SchemaManager.php:208-232 | the indexes keep the groups' order and each is the index built from its group's record |
| SchemaManager.FoldIndexGroup | src/Abstracts/SchemaManager.php:189-202 | a group's record takes name, uniqueness, primary flag, flags and `where` option from its first row and the columns of all its rows in order |
| SchemaManager.IndexesByGroup | src/Abstracts/SchemaManager.php:176-235 | one index per key in first-appearance order; each has the first row's name, the group's distinct columns in order, the first row's primary and unique flags (primary implies unique), its lower-cased distinct flags and its `where` option |
| SchemaManager.IndexOfGroup | src/Abstracts/SchemaManager.php:176-235 | the index under a key is named after the first row of its group and spans the group's columns |
| SchemaManager.KeyByQuotedName | src/Abstracts/SchemaManager.php:414-415 | items are keyed by their lower-cased quoted name, a later item replacing an earlier one of the same name |
| SchemaManager.PortableTableColumnList | src/Abstracts/SchemaManager.php:380-419 | every row's column definition is listed under its lower-cased quoted name |
| SchemaManager.PortableViewsList | src/Abstracts/SchemaManager.php:488-499 | the present view definitions are listed under their lower-cased quoted names |
| SchemaManager.FromPairsLastWins | src/Abstracts/SchemaManager.php:414-415 | the last item written under a key is the one kept |
| SchemaManager.KeyedListSpec | src/Abstracts/SchemaManager.php:414-415 | every key is lower-case, and an item not overwritten later is found under its lower-cased quoted name |
| SchemaManager.PortableList | src/Abstracts/SchemaManager.php:275-286 | the filter loop keeps exactly the present definitions, in row order |
| SchemaManager.PresentAll | src/Abstracts/SchemaManager.php:275-286 | when every row has a definition, the list is all of them in order |
| SchemaManager.PresentMembers | src/Abstracts/SchemaManager.php:447-458 | a value is listed exactly when some row's definition is that value |
| SchemaManager.KeepTruthy | src/Abstracts/SchemaManager.php:280-282 | a definition is kept only when PHP reads it as true |
| SchemaManager.RowItself | src/Abstracts/SchemaManager.php:1015-1018 | a row handed back as its own definition is kept exactly when it is not empty |
| SchemaManager.TablesExistIff | src/Abstracts/SchemaManager.php:244-249 | every given name must be listed, compared case-insensitively |
| SchemaManager.ExtractFindsHint | src/Abstracts/SchemaManager.php:1107-1114 | the type found is a word whose `(DC2Type:…)` hint the comment holds; without a hint the current type stays |
| SchemaManager.HintRoundTrip | src/Abstracts/SchemaManager.php:1107-1125 | a hint appended to a plain comment is extracted again, and removing it gives the comment back |
| SchemaManager.RemoveWithoutHint | src/Abstracts/SchemaManager.php:1122-1125 | a comment without the hint is unchanged by its removal |
| MySqlSchemaManager.Strtok | src/Schema/MySqlSchemaManager.php:17 | the first token holds none of `(`, `)`, `,` and space, and the rest is shorter than the input |
| MySqlSchemaManager.EnumValues | src/Schema/MySqlSchemaManager.php:22-24 | an enum or set value list always has at least one entry |
| MySqlSchemaManager.RemoveQuotes | src/Schema/MySqlSchemaManager.php:23 | no single quote is left |
| MySqlSchemaManager.SwitchedLengthIs | src/Schema/MySqlSchemaManager.php:59-102 | decimal types with a `(p,s)` lose their length, the sized text and blob types take their tier's limit, integer types have none, any other keeps the length found before |
| MySqlSchemaManager.CastLength | src/Schema/MySqlSchemaManager.php:104 | a length that casts to 0 becomes null |
| MySqlSchemaManager.PortableTableColumnDefinition | src/Schema/MySqlSchemaManager.php:12-139 | the column a DESCRIBE row describes: name, type (hint first), default, not-null, length, precision and scale, fixed, unsigned, autoincrement, cleaned comment, value list and collation |
| MySqlSchemaManager.SizedKindOf | src/Schema/MySqlSchemaManager.php:75-92 | the tiny, regular and medium text and blob types take the capacity of their tier; long ones take none |
| MySqlSchemaManager.SizedTypesRoundTrip | src/Schema/MySqlSchemaManager.php:75-104 | a column read from a sized text or blob type is declared again with the same type |
| MySqlSchemaManager.ColumnShape | src/Schema/MySqlSchemaManager.php:59-128 | integer columns have no length; `decimal(p,s)` gives precision p and scale s and no length; precision and scale come together; fixed exactly for char and binary; a value list exactly for enum and set; never length 0 |
| MySqlSchemaManager.KindTable | src/Schema/MySqlSchemaManager.php:59-102 | exactly which base types the switch treats as fixed, decimal, integer or sized |
| MySqlSchemaManager.DecimalRoundTrip | src/Schema/MySqlSchemaManager.php:69-73 | `letters(p,s)` is parsed back to precision p and scale s |
| MySqlSchemaManager.CommentHintRoundTrip | src/Schema/MySqlSchemaManager.php:54-57 | a comment ending in a type hint gives the hinted type, and the comment without the hint (null when nothing is left) |
| MySqlSchemaManager.Prepare | src/Schema/MySqlSchemaManager.php:167-183 | a row is primary exactly when its key name is `PRIMARY`, and gets flags exactly when its index type mentions FULLTEXT or SPATIAL |
| MySqlSchemaManager.Prepared | src/Schema/MySqlSchemaManager.php:165-183 | every row is prepared, in order |
| MySqlSchemaManager.ReplacingFoldUnset | src/Schema/MySqlSchemaManager.php:195-214 | when the record never holds the key, each key's stored index is built from the last row with that key alone |
| MySqlSchemaManager.PortableTableIndexesListAsWritten | src/Schema/MySqlSchemaManager.php:160-220 | as written: the loop keeps one record, replaced on every row, and stores what is built from it under the row's key |
| MySqlSchemaManager.AsWrittenPass | src/Schema/MySqlSchemaManager.php:167-214 | one pass of the as-written loop is the replacing step |
| MySqlSchemaManager.AsWrittenSingleColumn | src/Schema/MySqlSchemaManager.php:195-214 | as written, an index is stored for every key that occurs, holding only its last row's column |
| MySqlSchemaManager.PortableTableIndexesList | src/Schema/MySqlSchemaManager.php:160-220 | corrected: the prepared rows are grouped by key as the parent list does |
| MySqlSchemaManager.MySqlIndexesByGroup | src/Schema/MySqlSchemaManager.php:160-220 | corrected: each index spans the distinct columns of its group in order and is primary exactly when its first row is `PRIMARY` |
| MySqlSchemaManager.AsWrittenKeepsLastColumn | src/Schema/MySqlSchemaManager.php:195-207 | a two-column index comes out as written with only its second column, where grouping gives both |
| MySqlSchemaManager.AsWrittenMergesPrimary | src/Schema/MySqlSchemaManager.php:195-207 | as written, a primary key row following another index's row is merged into that index's record and stored under `primary` as a non-primary index of both columns |
| MySqlSchemaManager.Rule | src/Schema/MySqlSchemaManager.php:238-243 | a missing or `RESTRICT` rule becomes null; any other is kept |
| MySqlSchemaManager.PortableTableForeignKeysList | src/Schema/MySqlSchemaManager.php:232-271 | the two loops give one definition per constraint name |
| MySqlSchemaManager.FoldForeignKeyGroup | src/Schema/MySqlSchemaManager.php:237-255 | a constraint's record takes name, referenced table and rules from its first row and the local and referenced columns of all its rows, pairwise in order |
| MySqlSchemaManager.ForeignKeysByConstraint | src/Schema/MySqlSchemaManager.php:232-271 | one foreign key per distinct constraint name, in first-appearance order, with the columns of all its rows |
| MySqlSchemaManager.PortableViewsList | src/Schema/MySqlSchemaManager.php:141-144 | every row gives a view keyed by its lower-cased quoted name |
| MySqlSchemaManager.PortableTablesList | src/Schema/MySqlSchemaManager.php:146-149 | the table names are each row's first value when that value is truthy |
| MySqlSchemaManager.TablesListed | src/Schema/MySqlSchemaManager.php:146-149 | a name is listed exactly when it is truthy and the first value of some row |
| MySqlSchemaManager.PortableSequencesList | src/Schema/MySqlSchemaManager.php:222-225 | the sequence names are each row's last value when truthy |
| MySqlSchemaManager.SequencesListed | src/Schema/MySqlSchemaManager.php:222-225 | a name is listed exactly when it is truthy and the last value of some row |
| MySqlSchemaManager.PortableDatabasesList | src/Schema/MySqlSchemaManager.php:227-230 | the database names are each row's `Database` value when truthy |
| MySqlSchemaManager.DatabasesListed | src/Schema/MySqlSchemaManager.php:227-230 | a name is listed exactly when it is truthy and some row's `Database` value |
| MySqlSchemaManager.PortableUsersList | src/Schema/MySqlSchemaManager.php:151-157 | every row gives a user with its `User` and `Password` values |
| MySqlSchemaManager.UsersListed | src/Schema/MySqlSchemaManager.php:151-157 | one user per row, in order |
| Connection.SavepointName | src/Connection.php:1006-1009 | the savepoint of a nesting level is `DOCTRINE2_SAVEPOINT_` followed by the level |
| Connection.SavepointNamesDistinct | src/Connection.php:1006-1009 | different nesting levels use different savepoint names |
| Connection.ReleasesNamed | src/Connection.php:1067-1080 | the nested commits of commitAll release one savepoint per level, from the top level down, when releases are made at all |
| Connection.ReleaseAt | src/Connection.php:1051-1054 | the i-th release of a run of nested commits names the savepoint of level top - i |
| Connection.ExtractTypeValues | src/Connection.php:638-649 | one binding type per data key, in key order: the given type when there is one, PDO's string type otherwise |
| Connection.Connection.constructor | src/Connection.php:151-173 | a new connection is in auto-commit mode at level 0, not rollback-only and not nesting with savepoints; it is connected exactly when a PDO handle was given |
| Connection.Connection.IsTransactionActive | src/Connection.php:490-493 | a transaction is active exactly when the nesting level is positive |
| Connection.Connection.Connect | src/Connection.php:276-303 | connecting twice does nothing and answers false; a first connect opens the driver and, outside auto-commit, begins a transaction |
| Connection.Connection.BeginTransaction | src/Connection.php:1016-1023 | the level rises by one (by two when a connect outside auto-commit begins one first) and the driver is asked to begin |
| Connection.Connection.ReleaseSavepointNamed | src/Connection.php:1152-1162 | the release is sent only when the platform supports releasing savepoints; no transaction state changes |
| Connection.Connection.RollbackSavepointNamed | src/Connection.php:1173-1181 | the savepoint rollback is sent; no transaction state changes |
| Connection.Connection.Commit | src/Connection.php:1033-1062 | outside a transaction noActiveTransaction, when rollback-only commitFailedRollbackOnly, both changing nothing; otherwise the outermost level commits (and begins again outside auto-commit), an inner one releases its savepoint when nesting with savepoints, and the level drops by one |
| Connection.Connection.CommitAll | src/Connection.php:1067-1080 | the loop commits every level down to 0 (to 1 outside auto-commit), releasing the savepoints from the top down, or stops at once on a rollback-only transaction |
| Connection.Connection.SetAutoCommit | src/Connection.php:399-415 | the mode is always set; switching it while connected inside a transaction commits everything (the savepoint releases from the top down, the driver commit, and a new begin when auto-commit is switched off), and on a rollback-only transaction fails with no driver call |
| Connection.Connection.SetNestTransactionsWithSavepoints | src/Connection.php:977-988 | refused inside a transaction and when the platform lacks savepoints; otherwise the flag is set; nothing else changes |
| Connection.Connection.RollBackAsWritten | src/Connection.php:1090-1122 | as written: the missing-transaction exception is not thrown, so a rollback at level 0 still runs and leaves the level at -1 |
| Connection.Connection.RollBack | src/Connection.php:1090-1122 | outside a transaction noActiveTransaction and nothing changes; the outermost level rolls back, clears rollback-only and begins again outside auto-commit; an inner level rolls back its savepoint or marks the transaction rollback-only |
| Connection.Connection.SetRollbackOnlyAsWritten | src/Connection.php:1219-1226 | as written: the flag is set even outside a transaction |
| Connection.Connection.SetRollbackOnly | src/Connection.php:1219-1226 | outside a transaction noActiveTransaction and nothing changes; inside one the transaction is marked rollback-only |
| Connection.Connection.IsRollbackOnlyAsWritten | src/Connection.php:1235-1243 | as written: the flag is answered even outside a transaction |
| Connection.Connection.IsRollbackOnly | src/Connection.php:1235-1243 | outside a transaction exactly noActiveTransaction; inside one the flag |
| Connection.RollBackOutsideTransaction | src/Connection.php:1092-1095 | a rollback with no transaction open leaves the level at -1 and reports no active transaction |
| Connection.RollbackOnlyOutsideTransaction | src/Connection.php:1221-1225 | marking rollback-only outside a transaction makes the next transaction's commit fail |
| Connection.RollbackOnlyReadOutsideTransaction | src/Connection.php:1237-1242 | outside a transaction the flag is answered as written, where the checked version refuses |
| Connection.RollbackOnlyRefusedOutsideTransaction | src/Connection.php:1219-1226 | with the guard in place, marking outside a transaction is refused and the next transaction commits |

## Left out

- Connection I/O is not modelled: queries, statements, fetching, quoting, parameter binding and type conversion. The driver appears only as the ordered list of begin, commit, rollback and savepoint calls the connection makes. `close` is not modelled.
- The schema managers' `list*`, `create*`, `drop*` and `alterTable` methods run SQL through the connection, so they are not modelled. Their result rows are inputs to the modelled folds.
- The Column, Table, ForeignKeyConstraint, generic Platform and Type classes and the keyword lists are not part of this model. They are reduced to the members the core calls. The generic platform's column declaration, foreign key, index field list, default value, string quoting and pre/post-alter methods are uninterpreted function fields: the model states what the MySQL code builds around them, not what they return.
- `Table::visit` is not part of this model. `Schema.Schema.Events` assumes it visits the table and then each of its foreign keys. Column and index visits are omitted, because neither collector reacts to them.
- Identifier hashing (`_generateIdentifierName`, based on crc32), exception message formatting, the introspection query templates and the driver's exception mapping are not modelled.
- Comparator.ColumnChanges: PHP's loose `!=` on `name`, `list` and `default` is modelled as strict string equality (apart from null, which is modelled explicitly). Numeric strings such as "1" and "01", which PHP finds equal, are reported as changed.
- Asset.InDefaultNamespaceIff, Asset.GetShortestName: the loose `==` between the namespace and the default namespace (src/Abstracts/Asset.php:66 and 92) is modelled by `Asset.NamespaceLooseEq` as exact string equality, apart from null, which equals null and the empty string. Numeric strings such as "1" and "01", which PHP finds equal, count as different namespaces here.
- Index.SamePartialEquivalence: the loose `==` on `where` options is modelled as strict equality.
- MySql.FindSameColumns: the loose `==` on index column arrays (src/Platforms/MySql.php:585) is modelled as strict equality.
- Index.HasColumnAtPosition: `array_search` and `in_array` compare loosely in PHP; here they compare exactly.
- MySql.ClearChangedPrimaryKeys: the loose `in_array` that tests whether a changed primary key still holds a column (src/Platforms/MySql.php:650) is modelled as exact membership in `MySql.ClearFor`. Numeric column names such as "1" and "01", which PHP finds equal, count as different here, so such a column would be cleared of its autoincrement flag where the source keeps it.
- ColumnDiff.HasChangedIff: the same holds for `in_array`.
- Sequence.NumericOrOne: `is_numeric` is abstracted to an argument that is either a number or not. Numeric strings and floats are not distinguished from integers, and a float is not truncated.
- Comparator.BuiltinReported, Comparator.ColumnChangesFlags, Comparator.ColumnChangesNameAndList, Comparator.ColumnChangesDefaultAndComment, Comparator.ColumnChangesLength, Comparator.ColumnChangesDecimal and Comparator.RenameChangesIgnoresName require that no custom or platform option shares a built-in property's name. Such an option shadows the built-in value through `array_merge` in `toArray`. Under this requirement the model and the source agree; without it they can differ, as the lines below say.
- Comparator.ColumnChanges: `diffColumn` reads every property from `$column->toArray()` (src/Schema/Comparator.php:428-429), where the platform options and then the custom options are merged over the built-in keys. The model does not build that merged array. Its built-in tests read the column's own fields, and its option loops see only the two option maps. An option named like a built-in property is therefore compared differently. Two inputs show this. (1) c1 has comment "x" and no options, and c2 is c1 plus the custom option `comment` = "x": the source reports nothing, the model reports `comment`. (2) Two columns carry the same custom option `notnull` = "x" but differ in their built-in `notnull`: the source reports nothing, the model reports `notnull`. Columns whose options avoid the built-in names (`Comparator.OptionsApart`) are compared as the source compares them.
- Comparator.DiffColumn: the same gap as `Comparator.ColumnChanges`, whose value the method is proved to return.
- Comparator.CustomOptionChanges: `array_key_exists($key, $properties)` at src/Schema/Comparator.php:483 is also true for the built-in keys of `toArray()`. The model tests only the option maps, so a custom option named like a built-in that only one column carries is reported, where the source compares it with the other column's built-in value.
- Comparator.CustomChangesMembers: states "one column lacks the key" over the option maps only, with the gap of `Comparator.CustomOptionChanges`.
- Comparator.FixedChangesMembers: characterises the built-in tests over the column's fields, not over `toArray()`'s values, which an option of the same name overrides (see `Comparator.ColumnChanges`).
- Comparator.ColumnChangesMembers: the membership statement carries the gap of `Comparator.ColumnChanges` for options named like built-in properties.
- Comparator.DiffForeignKeyProperties: `diffForeignKey` compares the lower-cased local and foreign column arrays with the loose `!=` (src/Schema/Comparator.php:391 and 395), and `onUpdate` and `onDelete` with the loose `!=` (403 and 407). The model compares the arrays strictly and the rules strictly apart from null, which equals the empty string. Column lists such as ["1"] and ["01"], or rules "1" and "01", which PHP finds equal, count as different here.
- Comparator.PairForeignKeys: the lower-cased names are compared with the loose `==` (src/Schema/Comparator.php:279), and strictly here. Two differing keys named "1" and "01" are therefore not paired as a changed key; they stay a removed and an added key. The pairing also inherits the strict comparisons of `Comparator.DiffForeignKeyProperties`.
- Comparator.MatchKeyAlive: the same strict name test as `Comparator.PairForeignKeys`.
- Comparator.MatchKeyMatched: the same strict name test as `Comparator.PairForeignKeys`.
- Comparator.MatchKeyChanged: the same strict name test as `Comparator.PairForeignKeys`.
- Comparator.PairingChanged: "shares its lower-cased name" is strict equality, where src/Schema/Comparator.php:279 uses the loose `==`.
- DropCollector.DropSchemaSqlCollector.AcceptTable, DropCollector.DropSchemaSqlCollector.AcceptForeignKey and DropCollector.DropSchemaSqlCollector.AcceptSequence: `SplObjectStorage` identity is approximated by value equality, so two equal but distinct objects are stored once.
- MySql.KeptStatements: the strict `in_array` on foreign keys (src/Platforms/MySql.php:680 and 746) compares object identity in PHP. Here it compares values, so a changed key equal to a remaining one is also skipped.
- MySql.GetAlterTableSQL requires `AlterReady`. This rules out the exceptions that `Table::getColumn` and `getPrimaryKeyColumns` raise for a primary key column missing from the old table.
- MySql.ClearBeforeDrop requires `ClearsResolve`, for the same reason.
- MySqlSchemaManager.PortableTableColumnDefinition: the mapping from a database type to a type name is a total function parameter. The unknown-type exceptions of `getDoctrineTypeMapping` and `Type::getType` are not modelled.
- Sequence.SettersReadBack: the Sequence setters are modelled as functions returning the updated value. Update in place and aliasing of a sequence object are not captured.
- Index.AddFlagSpec: `addFlag` is modelled as a function on the index value, so update in place and aliasing are not captured.
- Index.RemoveFlagSpec: the same holds for `removeFlag`.
- Asset.SetName is modelled as a function building the asset value, so update in place and aliasing are not captured.
- MySql.ClearAutoIncrement: the source switches the column's autoincrement flag off and back on. The model renders a copy without the flag, so the column object never changes; the end state is the same.
- MySql.AlterTable composes the corrected `RemainingForeignKeys` (see Findings). On the base MySQL platform, a diff that removes a foreign key intersecting a renamed index therefore renders different SQL from the source.
- Comparator.DiffTable detects column renames with the corrected test (see Findings), so a pure column rename yields a renamed column where the source yields an added and a removed one.
- SchemaComparator.Compare requires `ComparableSchema` of both schemas, and so do `SchemaComparator.CompareValues`, `SchemaComparator.CompareTables` and the loop methods beside them. Every table and sequence must be found again under its own shortest name, each table's arrays must be well formed, and each table's primary key columns must be columns of the table. This rules out the `tableDoesNotExist` exception that `Schema::getTable` raises at src/Schema/Comparator.php:67, 71 and 84 when a shortest name does not lead back to its table, the `sequenceDoesNotExist` exception of `getSequence` at src/Schema/Comparator.php:124-125, and the exception `Table::getColumn` raises inside `Sequence::isAutoIncrementsFor` (src/Schema/Sequence.php:127) for a primary key column the table lacks. None of these throw paths is modelled.
- SchemaComparator.Compare clears only the removed foreign keys that point at a removed table (see Findings), where the source clears the whole list.

## Findings

| source | as written | input that shows it | evidently intended | confidence | as-written member | corrected member |
|---|---|---|---|---|---|---|
| src/Connection.php:1092-1095 | `ConnectionException::noActiveTransaction()` builds the exception without `throw`, so `rollBack` goes on at level 0 | `rollBack()` with no transaction open: the level becomes -1, and `isTransactionActive` is then false while the level is non-zero | throw noActiveTransaction and leave the state unchanged | high, not executed | Connection.Connection.RollBackAsWritten, Connection.RollBackOutsideTransaction | Connection.Connection.RollBack |
| src/Connection.php:1219-1226 | the same missing `throw`: `setRollbackOnly` marks the flag with no transaction open | `setRollbackOnly()`, then `beginTransaction()` and `commit()`: the commit fails with commitFailedRollbackOnly | refuse outside a transaction | high, not executed | Connection.Connection.SetRollbackOnlyAsWritten, Connection.RollbackOnlyOutsideTransaction | Connection.Connection.SetRollbackOnly, Connection.RollbackOnlyRefusedOutsideTransaction |
| src/Connection.php:1235-1243 | the same missing `throw`: `isRollbackOnly` answers outside a transaction | `setRollbackOnly()` then `isRollbackOnly()` with no transaction open answers true | raise noActiveTransaction, as documented | high, not executed | Connection.Connection.IsRollbackOnlyAsWritten, Connection.RollbackOnlyReadOutsideTransaction | Connection.Connection.IsRollbackOnly |
| src/Schema/MySqlSchemaManager.php:197 | `$result = array(...)` replaces the whole running record instead of `$result[$keyName]` | two rows of a two-column index: only the second column survives; an index row followed by a PRIMARY row merges the primary key into the index's record | group the rows per key, as the parent fold does | high, not executed | MySqlSchemaManager.PortableTableIndexesListAsWritten, MySqlSchemaManager.AsWrittenKeepsLastColumn, MySqlSchemaManager.AsWrittenMergesPrimary | MySqlSchemaManager.PortableTableIndexesList, MySqlSchemaManager.MySqlIndexesByGroup |
| src/Platforms/MySql.php:707-710 | `array_diff_key` of the name-keyed foreign keys against the list of removed foreign keys (keys 0, 1, ...) removes nothing by name | a table whose foreign key `fk_a` is removed in the diff and intersects a renamed index: `fk_a` is dropped and re-created around the ALTER | leave removed foreign keys out of the remaining ones | medium, not executed | MySql.RemovedForeignKeyRemainsAsWritten | MySql.RemainingForeignKeyConstraints, MySql.RemainingForeignKeysMembers |
| src/Schema/Comparator.php:316-321 | the rename test is `count(diffColumn($added, $removed)) == 0`, and `diffColumn` compares `name` | a one-column table whose column is renamed: the column is reported added and removed, never renamed | compare everything but the name | high, not executed | Comparator.RenameCandidatesShareName, Comparator.ColumnRenameMissedAsWritten | Comparator.RenameChangesIgnoresName, Comparator.RenamedColumn |
| src/Schema/Comparator.php:108-112 | each changed table with an orphaned foreign key loses all its removed foreign keys | a changed table that removes a foreign key to a kept table and has one to a removed table: both removals are lost | unset only the removed foreign keys that point at the removed table | high, not executed | SchemaComparator.ClearLocalAsWritten, SchemaComparator.ClearingLosesForeignKeys | SchemaComparator.ClearLocalCorrected, SchemaComparator.ClearPointing |

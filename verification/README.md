# sqlserver-database-compare: the schema diff, in Dafny

This project models the core of sqlserver-database-compare, a tool that
compares the schemas of two SQL Server databases. The tool reads each
database's catalogue into a metadata snapshot: its tables, with their
columns, indexes and constraints, and its views, stored procedures and
functions. It then diffs the two snapshots object kind by object kind, and
summarises the result as *identical* or *different*.

The model follows the program's structure:

- **`Values`** (`values.dfy`): the equality rule every comparer uses, built
  on `Text` (`text.dfy`).
  - `normalizeString` trims and collapses whitespace.
  - `compareValues` treats null and undefined as equal, compares strings
    ignoring case and runs of whitespace, and compares everything else
    strictly.
- **`Keyed`** (`keyed.dfy`) and **`Assoc`** (`assoc.dfy`): the diff that
  every comparer runs.
  - Build a JavaScript `Map` from each side, keyed by a name. A later entry
    overwrites an earlier one, but the key keeps its first position.
  - Report the target's entries the source lacks as *added*.
  - Report the source's entries the target lacks as *removed*.
  - Report the matched pairs whose properties differ as *modified*.
  - `Keyed.Latest` is the independent definition of "the element the map
    keeps".
- **`TableCompare`**, **`IndexOrder`**, **`ViewCompare`** and
  **`RoutineCompare`**: the four comparers.
  - Tables, columns, indexes, constraints, views, parameters, procedures and
    functions.
  - Index columns are compared after a stable sort by key ordinal
    (`IndexOrder`).
- **`Extractors`** (`extractors.dfy`): the catalogue extractors.
  - Each query is a function of a `Catalog` value, which either returns rows
    or fails.
  - Objects whose details fail are skipped; the loop is best-effort.
  - Index rows are grouped by index name.
  - CHECK, DEFAULT and UNIQUE constraints are gathered, and a failing query
    contributes nothing.
- **`Comparison`** (`comparison.dfy`): the top-level flow of
  `DatabaseCompareApp`.
  - The simplified metadata extraction the application actually runs.
  - `performComparison`, `generateSummary` and `determineOverallStatus`.
  - `compareDatabase` itself, with the server address check in front.
- **`ServerAddress`** (`server_address.dfy`) and **`ConnectionString`**
  (`connection_string.dfy`): the two text formats the tool accepts.
  - A server address is `host`, `host:port` or `host,port`.
  - A command-line connection string is `server.database;auth=…;user=…;pass=…`.
- **Shared modules**: `Strings` models JavaScript's `split`, `join`,
  `parseInt` and integer-to-text conversion. `Seqs`, `Schema` and `Wrappers`
  hold the sequence helpers, the snapshot datatypes and `Option`/`Result`.

Databases, clocks and files are not modelled directly:

- every query result is a parameter (a `Catalog` or `SimpleCatalog`);
- the current time is the parameter `now`;
- the parsed configuration file is a parameter of `ParseConfigs`.

## Model

| member | source | states |
|---|---|---|
| Values.NormalizeString | src/comparers/base.ts:10-13 | The result has no leading or trailing whitespace and no run of two whitespace characters. It keeps exactly the words of the input, and an absent value gives the empty string. |
| Values.NormalizeStringAbsent | src/comparers/base.ts:10-11 | Null or undefined and the empty string all normalise to "". |
| Values.NormalizeStringIdempotent | src/comparers/base.ts:12 | Normalising a normalised value changes nothing. |
| Values.NormalizeStringSome | src/comparers/base.ts:12 | A present string normalises to the single-space join of its words. |
| Values.CompareValuesAbsent | src/comparers/base.ts:17-22 | An absent value equals exactly the absent values, on either side. |
| Values.CompareStrings | src/comparers/base.ts:25-28 | Two strings compare equal exactly when their word lists agree after lower-casing. |
| Values.CompareValues | src/comparers/base.ts:15-32 | Unless both values are strings, they compare equal exactly when they are identical. So absent matches only absent, and values of different kinds never match. |
| Values.CompareValuesEquivalence | src/comparers/base.ts:15-32 | The comparison is reflexive, symmetric and transitive. |
| Values.CompareValuesNoCoercion | src/comparers/base.ts:31 | The number 1 differs from the string "1", and true differs from 1. |
| Values.CompareValuesIgnoresCaseAndRuns | src/comparers/base.ts:25-28 | "SELECT  a" equals "select\na". |
| Values.CompareValuesKeepsWordBoundaries | src/comparers/base.ts:25-28 | "a,b" differs from "a, b", because whitespace that separates words is significant. |
| Values.PropertyDiff | src/comparers/table.ts:112-119 | A property produces a change record exactly when its two values compare unequal. The record carries the property name and both values. |
| Values.PropertyLoop | src/comparers/table.ts:111-119 | Walking a property list (each name with its source and target value) reports exactly the entries `compareValues` rejects, in list order, each carrying its name and both raw values. It reports nothing exactly when every entry is accepted. |
| Text.Normalize | src/comparers/base.ts:12 | The result is trimmed and has no run of whitespace. |
| Text.NormalizeIsJoinOfWords | src/comparers/base.ts:12 | Trim followed by collapsing whitespace is the single-space join of the input's words. |
| Text.NormalizeEqualIffSameWords | src/comparers/base.ts:12 | Two strings normalise alike exactly when they have the same words. |
| Text.NormalizeIdempotent | src/comparers/base.ts:12 | Normalisation is idempotent. |
| Text.LowerNormalizeEqualIff | src/comparers/base.ts:26-27 | Lower-cased normal forms agree exactly when the lower-cased word lists agree. |
| Assoc.Put | src/comparers/table.ts:22 | Setting a key keeps the key order, appending a new key at the end. The key then maps to the new value, and every other key is unchanged. |
| Assoc.FromList | src/comparers/table.ts:22 | Building a map from pairs keeps each key once, in order of first appearance, using only the given pairs. |
| Assoc.FromListGet | src/comparers/table.ts:22 | A key of the built map holds the last value given for it. |
| Assoc.Values | src/extractors/tables.ts:213 | The values of a map come out in key order, one per entry. |
| Keyed.Latest | src/comparers/table.ts:22-23 | The element kept under a key has that key and is one of the inputs. There is none exactly when no input has that key. |
| Keyed.Index | src/comparers/table.ts:22-23 | The map from a list has unique keys, in order of first appearance. Each key holds the last element with that key. |
| Keyed.DiffBy | src/comparers/table.ts:19-53 | Added: the kept target elements whose key is missing from the source. Removed: the reverse. Modified: the comparison results of the kept source elements paired with the kept target element of the same key. The order of each list is stated by `DiffByOrder` and `DiffByModifiedOrder`. |
| Keyed.DiffByModified | src/comparers/table.ts:37-47 | A change is reported exactly when some kept source element and its same-key kept target element compare to it. |
| Keyed.DiffByOrder | src/comparers/table.ts:30-41 | The keys of the added and removed lists follow first-appearance order on their side, restricted to the unmatched keys. |
| Keyed.DiffByModifiedOrder | src/comparers/table.ts:37-47 | The modified list walks the distinct source keys in first-appearance order, the source map's iteration order. For each key it holds at most one entry: the comparison of the source element kept under it with the target element kept under it, when both exist and the comparison reports a change. |
| Keyed.DiffByCounts | src/comparers/table.ts:37-48 | Each distinct source key yields at most one removal or modification, so modified plus removed never exceeds the number of distinct source keys. |
| Keyed.DiffBySelf | src/comparers/table.ts:19-53 | Diffing a list against itself reports nothing when each element compares equal to itself. |
| Keyed.DiffByNoAdded | src/comparers/table.ts:30-34 | When every target key occurs in the source, nothing is added. |
| Keyed.DiffByNoRemoved | src/comparers/table.ts:37-42 | When every source key occurs in the target, nothing is removed. |
| Keyed.DiffByNoModified | src/comparers/table.ts:42-47 | When no kept source element has a differing partner, nothing is modified. |
| Keyed.DiffByBalance | src/comparers/table.ts:19-53 | With distinct keys on both sides, the source minus removed equals the target minus added, which is the count of matched keys. Modified is at most that count. |
| IndexOrder.SortColumns | src/comparers/table.ts:174-175 | The sort returns a permutation ordered by key ordinal. |
| IndexOrder.SortColumnsStable | src/comparers/table.ts:174-175 | Columns with equal ordinals keep their relative order. |
| IndexOrder.SortColumnsEqualIff | src/comparers/table.ts:174-177 | Two column lists sort to the same list exactly when, for every ordinal, they hold the same columns in the same order. |
| IndexOrder.SortColumnsSorted | src/comparers/table.ts:174-175 | Sorting a list already ordered by ordinal changes nothing. |
| TableCompare.CompareColumnProperties | src/comparers/table.ts:104-122 | The changes are the entries of the eight-property list (dataType, maxLength, precision, scale, isNullable, defaultValue, characterSet, collation, each with both columns' raw values) that `compareValues` rejects, kept in list order. There are none exactly when the columns have the same shape, and at most eight. |
| TableCompare.CompareColumns | src/comparers/table.ts:69-102 | Columns are keyed by lower-cased name; added, removed and modified follow the generic diff. |
| TableCompare.CompareColumnsSelf | src/comparers/table.ts:69-102 | A column list compared with itself reports nothing. |
| TableCompare.ColumnsDiff | src/comparers/table.ts:173-179 | The columns change is reported exactly when the ordinal groups differ. |
| TableCompare.CompareIndexProperties | src/comparers/table.ts:159-182 | The changes are the entries of the list indexType, isUnique, isPrimaryKey (with both raw values) and then columns (with both column lists sorted by ordinal) that disagree, kept in that order. There are none exactly when the type, uniqueness and primary-key flag compare equal and the ordinal groups agree, and at most four. |
| TableCompare.CompareIndexes | src/comparers/table.ts:124-157 | Indexes are keyed by lower-cased name; added, removed and modified follow the generic diff. |
| TableCompare.IndexColumnOrderIgnored | src/comparers/table.ts:174-177 | Reordering index columns across different ordinals does not change anything reported. |
| TableCompare.IndexColumnNameCase | src/comparers/table.ts:174-178 | Index columns "ID" and "id" are reported as a change, because the serialised comparison is case-sensitive. |
| TableCompare.CaseOnlyColumnsDiff | src/comparers/table.ts:177-178 | That change is exactly one "columns" record holding both column lists. |
| TableCompare.SameKindNoScalarChanges | src/comparers/table.ts:163-171 | Indexes of the same kind produce no indexType, isUnique or isPrimaryKey record: the property loop over those three reports nothing. |
| TableCompare.CompareConstraintProperties | src/comparers/table.ts:219-233 | The changes are the entries of the list constraintType, definition, columnName (each with both raw values) that `compareValues` rejects, kept in list order. There are none exactly when type, definition and column compare equal, and at most three. |
| TableCompare.CompareConstraints | src/comparers/table.ts:184-217 | Constraints are keyed by lower-cased name; added, removed and modified follow the generic diff. |
| TableCompare.HasTableChanges | src/comparers/table.ts:235-245 | A table modification has changes exactly when its column, index and constraint diffs are not all empty. |
| TableCompare.CompareTableStructure | src/comparers/table.ts:55-67 | The record names the source table and schema. Tables with equal column, index and constraint lists have no changes. |
| TableCompare.CompareTables | src/comparers/table.ts:19-53 | Tables are keyed by `schema.table`. A matched pair is modified exactly when its column, index or constraint diff is non-empty. |
| TableCompare.CompareIndexesSelf | src/comparers/table.ts:124-157 | An index list compared with itself reports nothing. |
| TableCompare.CompareConstraintsSelf | src/comparers/table.ts:184-217 | A constraint list compared with itself reports nothing. |
| TableCompare.CompareTablesSelf | src/comparers/table.ts:19-53 | A snapshot's tables compared with themselves report nothing. |
| TableCompare.TableKeysIgnored | src/comparers/table.ts:55-67 | Primary and foreign keys never affect a table's structural diff. |
| TableCompare.TableKeyCollision | src/comparers/table.ts:22-23 | Table a.b/c and table a/b.c share the key "a.b.c", so they are matched and neither is added nor removed. |
| ViewCompare.DefinitionChanged | src/comparers/view.ts:43-46 | A definition changed exactly when the lower-cased word lists differ. |
| ViewCompare.DefinitionChangedRaw | src/comparers/view.ts:43-46 | This is the negation of the loose string comparison. |
| ViewCompare.CompareViewDefinitions | src/comparers/view.ts:42-55 | The record names the source view, carries both definitions and flags a change exactly as above. |
| ViewCompare.CompareViews | src/comparers/view.ts:6-40 | Views are keyed by `schema.view`; a matched pair is modified exactly when its definitions differ. |
| ViewCompare.CompareViewsSelf | src/comparers/view.ts:6-40 | Views compared with themselves report nothing. |
| ViewCompare.ViewMetadataIgnored | src/comparers/view.ts:42-55 | The check option, updatability and dependencies of a view never cause a change. |
| RoutineCompare.CompareParameterProperties | src/comparers/procedure.ts:103-121 | The changes are the entries of the seven-property list (dataType, maxLength, precision, scale, isOutput, hasDefault, defaultValue, each with both raw values) that `compareValues` rejects, kept in list order. There are none exactly when the parameters have the same shape, and at most seven. |
| RoutineCompare.CompareParameters | src/comparers/procedure.ts:68-101 | Parameters are keyed by lower-cased name; added, removed and modified follow the generic diff. |
| RoutineCompare.CompareParametersSelf | src/comparers/procedure.ts:68-101 | A parameter list compared with itself reports nothing. |
| RoutineCompare.CompareRoutineDetails | src/comparers/procedure.ts:49-66 | The definition is flagged exactly when the word lists differ, and the parameters exactly when their diff is non-empty. Both definitions are carried. |
| RoutineCompare.CompareProcedureDetails | src/comparers/procedure.ts:49-66 | The record names the source procedure and carries both raw definitions. The definition is flagged exactly when the lower-cased word lists differ. It holds the parameter diff, flagged exactly when non-empty, and equal parameter lists are never flagged. |
| RoutineCompare.CompareFunctionDetails | src/comparers/function.ts:49-66 | The same holds for functions. |
| RoutineCompare.CompareProcedures | src/comparers/procedure.ts:13-47 | Procedures are keyed by `schema.name`; a pair is modified exactly when its definition or parameters changed. |
| RoutineCompare.CompareFunctions | src/comparers/function.ts:13-47 | Functions are keyed the same way and follow the same rule. |
| RoutineCompare.RoutineSelf | src/comparers/procedure.ts:37-40 | A routine with unchanged definition and parameters is not reported. |
| RoutineCompare.CompareProceduresSelf | src/comparers/procedure.ts:13-47 | Procedures compared with themselves report nothing. |
| RoutineCompare.CompareFunctionsSelf | src/comparers/function.ts:13-47 | Functions compared with themselves report nothing. |
| RoutineCompare.ProcedureDatesIgnored | src/comparers/procedure.ts:49-66 | Creation and modification dates never cause a change. |
| RoutineCompare.FunctionTypeIgnored | src/comparers/function.ts:49-66 | A function's type and dates never cause a change. |
| RoutineCompare.ParameterIdIgnored | src/comparers/procedure.ts:106-109 | The parameter id is not among the compared properties. |
| Comparison.PerformComparison | src/app.ts:322-345 | Each kind's added objects come from the target snapshot and its removed objects from the source snapshot. |
| Comparison.PerformComparisonPerKind | src/app.ts:322-345 | Each kind's differences equal that kind's comparer applied to the two snapshots' lists of that kind. So changing another kind's lists leaves them unchanged. |
| Comparison.DetermineOverallStatus | src/app.ts:388-404 | The status is identical exactly when no kind has any added, removed or modified object. |
| Comparison.GenerateSummary | src/app.ts:347-386 | For each of the four kinds, the source and target counts are the snapshot sizes. The added, removed and modified counts are the lengths of that kind's diff lists. The status is identical exactly when the diff has no change at all. |
| Comparison.CompareSelfIdentical | src/app.ts:136-140 | A snapshot compared with itself is identical. |
| Comparison.SummaryBalance | src/app.ts:353-381 | With unique names per kind, source count minus removed equals target count minus added, for every kind. |
| Comparison.SimpleTable | src/app.ts:196-204 | The simplified extraction gives a table its names and nothing else. |
| Comparison.SimpleView | src/app.ts:219-225 | A view keeps its names and its definition, or "" when missing. It is not updatable and has no check option or dependencies. |
| Comparison.SimpleProcedure | src/app.ts:243-250 | A procedure keeps its names and its definition, or "". A missing date is the current time. It has no parameters. |
| Comparison.SimpleFunction | src/app.ts:268-276 | The same as a procedure, with the type USER_DEFINED. |
| Comparison.ExtractSimpleMetadata | src/app.ts:181-294 | It succeeds exactly when all four queries succeed, with one object per row in row order. Each table keeps its row's schema and name and nothing else. Each view, procedure and function keeps its row's schema and name. Its definition is the row's, or "" when missing. Routines get no parameters and functions the type USER_DEFINED. |
| Comparison.BareTablesUnmodified | src/app.ts:196-204 | Two such bare tables never differ. |
| Comparison.BareSnapshotsNoTableModifications | src/app.ts:127-140 | Comparing two simplified snapshots never reports a modified table. |
| Comparison.ParameterlessRoutines | src/app.ts:249 | For routines without parameters, a reported change is a definition change and never a parameter change. |
| Comparison.ParameterlessProcedures | src/app.ts:243-250 | Every modified procedure between simplified snapshots has a changed definition and unchanged parameters. |
| Comparison.ParameterlessFunctions | src/app.ts:268-276 | The same holds for functions. |
| Comparison.CompareDatabase | src/app.ts:31-178 | An empty source server is refused before any query. An empty target server is refused after the source connection is opened and before any catalogue query. On success the result names both servers and databases, its status is identical exactly when nothing changed, no table is modified, and every modified routine is a definition change. |
| Comparison.Connect | src/app.ts:43-57 | A connection attempt succeeds exactly when the server address parses, and then uses the parsed server. Otherwise it fails with the parser's error, and an empty server is the empty-address error. |
| Comparison.DriverPortSetting | src/app.ts:69-72 | The driver is given a port exactly when the parsed port is not the comma-form sentinel, and then it is the parsed port. |
| Comparison.DriverPortOfAddress | src/app.ts:51-72 | For every address the parser accepts, the driver gets no port exactly when the trimmed text is the comma form. Otherwise it gets 1433 or a port in 1..65535, never the sentinel -1. A bare host gets 1433, and the colon form gets the number read after the colon. |
| Extractors.CollectSuccesses | src/extractors/tables.ts:20-29 | The best-effort loop keeps, in order, the details of exactly the items whose fetch succeeded. |
| Extractors.SuccessesAppend | src/extractors/tables.ts:20-29 | The kept list of a concatenation is the concatenation of the kept lists. |
| Extractors.SuccessesSkipFailure | src/extractors/tables.ts:21-28 | A failing item contributes nothing. |
| Extractors.SuccessesMembers | src/extractors/tables.ts:20-29 | A value is kept exactly when some item's fetch produced it. |
| Extractors.SuccessesAllSucceed | src/extractors/tables.ts:20-29 | When every fetch succeeds, one value is kept per item. |
| Extractors.ColumnOf | src/extractors/tables.ts:104-116 | A column is nullable exactly when the catalogue says "YES". Every other field is the row's field of the same name. |
| Extractors.GroupIndexRows | src/extractors/tables.ts:189-211 | Each grouped index is stored under its own name. |
| Extractors.GroupKeys | src/extractors/tables.ts:189-202 | The index names are the rows' names, each once, in order of first appearance. |
| Extractors.GroupColumns | src/extractors/tables.ts:204-210 | An index's columns are, in row order, the columns of exactly the rows with its name. |
| Extractors.FirstRowGivesHeader | src/extractors/tables.ts:194-202 | An index's type and flags come from the first row with its name. |
| Extractors.GroupColumnCount | src/extractors/tables.ts:204-213 | Every row contributes exactly one column to exactly one index. |
| Extractors.IndexGrouping | src/extractors/tables.ts:189-213 | The extracted indexes have the distinct row names in order, and each holds its rows' columns. |
| Extractors.GetIndexes | src/extractors/tables.ts:189-213 | The indexes have the distinct row names in order of first appearance. Each holds the columns of exactly its own rows, in row order, and no row is lost or repeated. |
| Extractors.Contributed | src/extractors/tables.ts:263-275 | A failed query contributes nothing. A successful one contributes one constraint per row, in row order. Constraint i has row i's name, definition and column, and the query's kind. |
| Extractors.Constraints | src/extractors/tables.ts:216-277 | A table has one constraint per row of each constraint query that succeeded. Every constraint is of kind CHECK, DEFAULT or UNIQUE. |
| Extractors.ConstraintsReadChecks | src/extractors/tables.ts:217-275 | The list opens with the check rows. Entry i carries check row i's name, definition and column, with kind CHECK. |
| Extractors.ConstraintsReadDefaults | src/extractors/tables.ts:231-275 | The default rows come right after the check rows. Each carries its row's name, definition and column, with kind DEFAULT. |
| Extractors.ConstraintsReadUniques | src/extractors/tables.ts:245-275 | The unique rows come after the check and default rows. Each carries its row's name, definition and column, with kind UNIQUE. |
| Extractors.ConstraintsByKind | src/extractors/tables.ts:261-277 | The constraints of each kind are exactly what that kind's query contributed. |
| Extractors.ConstraintsKindOrder | src/extractors/tables.ts:217-259 | CHECK constraints come before DEFAULT, and DEFAULT before UNIQUE. |
| Extractors.ExtractTableInfo | src/extractors/tables.ts:63-81 | Table details succeed exactly when the column, key and index queries succeed. The columns are the column rows read one by one by `ColumnOf`, so every field is copied and a column is nullable exactly when the catalogue says "YES". The keys are the key rows, the indexes are the grouped index rows and the constraints are the three constraint queries' rows. |
| Extractors.Dependencies | src/extractors/views.ts:90-95 | A view's dependencies are the rows of its dependency query, or none when that query fails. |
| Extractors.ExtractAllTables | src/extractors/tables.ts:14-59 | It fails exactly when the table-count probe or the table list query fails, and a failed probe is reported first. Otherwise the result is the best-effort list of table details, each naming a listed table. |
| Extractors.ExtractViewInfo | src/extractors/views.ts:38-57 | View details succeed exactly when the detail query returns a row. An empty answer is "not found", and missing dependencies are an empty list. |
| Extractors.ExtractAllViews | src/extractors/views.ts:6-24 | It fails exactly when the view list cannot be read; otherwise it is the best-effort list of view details. |
| Extractors.ProcedureParameter | src/extractors/procedures.ts:98-108 | Every field is the row's own: name, id, type, length, precision, scale, the default flag and the default value. The output flag is the catalogue's. It differs from the function reading of the same row only in keeping an empty name and in that output flag. |
| Extractors.ExtractProcedureInfo | src/extractors/procedures.ts:39-58 | It succeeds exactly when details and parameters are read and a detail row exists. The dates and the definition are the detail row's, with a missing definition read as empty. The parameters are the rows read one by one, in order, by `ProcedureParameter`. |
| Extractors.ExtractAllProcedures | src/extractors/procedures.ts:6-24 | It fails exactly when the procedure list cannot be read; otherwise it is the best-effort list of procedure details. |
| Extractors.FunctionParameter | src/extractors/functions.ts:108-118 | An unnamed parameter is named RETURN_VALUE, and any other name is kept. A parameter is an output exactly when its id is 0. The id, type, length, precision, scale, default flag and default value are the row's. |
| Extractors.ExtractFunctionInfo | src/extractors/functions.ts:40-60 | It succeeds exactly when details and parameters are read and a detail row exists. The function type, both dates and the definition are the detail row's, with a missing definition read as empty. The parameters are the rows read one by one, in order, by `FunctionParameter`. |
| Extractors.ExtractAllFunctions | src/extractors/functions.ts:6-24 | It fails exactly when the function list cannot be read; otherwise it is the best-effort list of function details. |
| Extractors.ExtractDatabaseMetadata | src/app.ts:296-320 | Full extraction succeeds exactly when the table-count probe and all four object-list queries succeed. Each list is the best-effort list of that kind. |
| ServerAddress.ParseServerAddress | src/utils/server-parser.ts:16-69 | Only the empty input gives the empty-address error; any other failure is an invalid port. A bare host is the trimmed input on port 1433. An explicit port lies in 1..65535, or is the comma-form sentinel that keeps the whole text. |
| ServerAddress.ReadTrimmed | src/utils/server-parser.ts:25-68 | Text that a comma splits into exactly two non-empty pieces succeeds exactly when the trimmed second piece reads as a port in 1..65535. It then keeps the whole text with the sentinel port, and otherwise the error names that port text. Failing that, the same test on a colon gives the trimmed first piece and the port read. Any other text is a bare host on port 1433. |
| ServerAddress.ParseServerAddressBranches | src/utils/server-parser.ts:16-68 | A non-empty input is read by these three cases applied to its trimmed text. |
| ServerAddress.ParseIgnoresSurroundingSpace | src/utils/server-parser.ts:21 | Whitespace around a non-empty address does not change the result. |
| ServerAddress.ParseBlankInput | src/utils/server-parser.ts:17-21 | Input of spaces only passes the emptiness check and gives an empty server name. |
| ServerAddress.ParseBareHost | src/utils/server-parser.ts:63-68 | A host without separators keeps its name and gets port 1433. |
| ServerAddress.ParseCommaForm | src/utils/server-parser.ts:25-40 | "host,port" keeps the whole text when the port is in range, and is rejected otherwise. |
| ServerAddress.ParseColonForm | src/utils/server-parser.ts:44-60 | "host:port" separates host and port when the port is in range, and is rejected otherwise. |
| ServerAddress.ParseCommaBeforeColon | src/utils/server-parser.ts:25-45 | "a:1,2" is read in the comma form. |
| ServerAddress.ParseNotTwoParts | src/utils/server-parser.ts:25-68 | "h:" and "a,b,c" have no two non-empty pieces, so they are bare hosts as they stand. |
| ServerAddress.ColonSpelling | src/utils/server-parser.ts:44-60 | "host:text" keeps the host and succeeds exactly when the trimmed text reads as a port in range. |
| ServerAddress.ParseSpacedPort | src/utils/server-parser.ts:48-59 | "host: port" is read like "host:port", because the port text is trimmed. |
| ServerAddress.ParseTrailingPort | src/utils/server-parser.ts:48-59 | Text after the port's digits is ignored, so "h:80x" is port 80. |
| ServerAddress.FormatServerAddress | src/utils/server-parser.ts:78-89 | A bare address is displayed as the server text. An explicit port's decimal text follows the server after ',', or after ':' exactly when the port is 1433. |
| ServerAddress.FormattedPortReadsBack | src/utils/server-parser.ts:79-84 | The text after the separator reads back as the port. |
| ServerAddress.FormatBareAddress | src/utils/server-parser.ts:85-88 | Formatting an address without a port gives back the trimmed input. |
| ServerAddress.FormatCommaFormAsWritten | src/utils/server-parser.ts:78-81 | As written, formatting a parsed comma-form address appends ",-1" to the trimmed input. |
| ServerAddress.FormatCommaFormCorrected | src/utils/server-parser.ts:35-39 | The corrected formatting gives back the trimmed input. |
| ServerAddress.FormatCommaFormExample | src/utils/server-parser.ts:78-81 | "h,5" parses in the comma form and, as written, is displayed as "h,5,-1". |
| ServerAddress.ParseFormatted | src/utils/server-parser.ts:78-89 | Formatting and reparsing gives back port 1433 in colon form. Any other port comes back in comma form, and a bare host comes back unchanged. |
| Strings.Split | src/cli/commands/compare.ts:103 | Splitting gives at least one piece, and no piece contains the separator. |
| Strings.SplitJoin | src/cli/commands/compare.ts:103 | Joining the pieces gives back the input. |
| Strings.JoinSplit | src/cli/commands/compare.ts:103 | Splitting a join of separator-free pieces gives back the pieces. |
| Strings.SplitCount | src/utils/server-parser.ts:26 | The number of pieces is one more than the number of separators. |
| Strings.DigitPrefix | src/utils/server-parser.ts:29 | The digit prefix is the longest run of digits at the start of the text. |
| Strings.ParseInt | src/utils/server-parser.ts:29 | The result is not a number exactly when no digit follows the leading whitespace and one optional sign. Otherwise it is the negated value of the digits after a leading '-', and the value of the digits after an optional '+' in every other case. |
| Strings.ParseIntOfString | src/utils/server-parser.ts:29 | `parseInt` reads back the decimal text of any integer, whatever non-digit text follows. |
| Strings.ParseIntPrefix | src/utils/server-parser.ts:29 | "5abc" reads as 5. |
| Strings.ParseIntNoDigits | src/utils/server-parser.ts:29 | Text without leading digits is not a number. |
| ConnectionString.ValidateOptions | src/cli/commands/compare.ts:63-67 | Options are valid exactly when a config file, or both a source and a target, are given. |
| ConnectionString.ParseConfigs | src/cli/commands/compare.ts:69-81 | A config file wins. Otherwise the connection strings are read as written: the result succeeds exactly when both readings succeed, the first one that fails to parse gives its invalid-string error, and on success the two configurations are the two readings. |
| ConnectionString.ParseConfigsFixed | src/cli/commands/compare.ts:69-81 | The same flow with the corrected reader: it succeeds exactly when both strings parse, and the configurations are the corrected readings. |
| ConnectionString.ParseWith | src/cli/commands/compare.ts:100-136 | The only error is the invalid-string error, and a success names a non-empty server and database. |
| ConnectionString.ParseConnectionString | src/cli/commands/compare.ts:100-136 | As written, a success names a server and a database that contain neither '.' nor ';'. |
| ConnectionString.ParseConnectionStringFixed | src/cli/commands/compare.ts:103-104 | The corrected reading names a database without '.'. |
| ConnectionString.ApplySettingsAppend | src/cli/commands/compare.ts:119-133 | The settings are applied in order, one segment after another. |
| ConnectionString.LastSettingWins | src/cli/commands/compare.ts:119-133 | The last segment applies on top of all earlier ones. |
| ConnectionString.ParsePlain | src/cli/commands/compare.ts:100-136 | "server.database;settings" names the two databases and applies the settings over Windows authentication. |
| ConnectionString.ParseDefaults | src/cli/commands/compare.ts:110-116 | Without settings, the login is Windows authentication with no user and no password. |
| ConnectionString.ParseDropsFurtherDots | src/cli/commands/compare.ts:104 | Text after a second dot is dropped. |
| ConnectionString.ParseNeedsDot | src/cli/commands/compare.ts:106-108 | A string without a dot is invalid. |
| ConnectionString.DottedServerAsWritten | src/cli/commands/compare.ts:104 | As written, "192.168.1.1.db" names server "192" and database "168". |
| ConnectionString.ParseFixedRoundTrip | src/cli/commands/compare.ts:103-108 | The corrected reading gives back any server name, dotted or not, together with its database and settings. |
| ConnectionString.DottedServerFixed | src/cli/commands/compare.ts:104 | The corrected reading gives server "192.168.1.1" and database "db". |
| ConnectionString.ApplySettingKeyValue | src/cli/commands/compare.ts:120-131 | A "key=value" segment sets the field its key names to the value. |
| ConnectionString.ApplySettingNoValue | src/cli/commands/compare.ts:120 | A segment without '=' sets the named field to undefined. |
| ConnectionString.ValueCutAsWritten | src/cli/commands/compare.ts:120 | As written, "pass=a=b" sets the password to "a". |
| ConnectionString.ValueWholeFixed | src/cli/commands/compare.ts:120 | The corrected reading keeps everything after the first '=' as the value. |
| ConnectionString.SettingKeyCase | src/cli/commands/compare.ts:122-131 | Keys match in any ASCII case. |
| ConnectionString.SettingUnknownKey | src/cli/commands/compare.ts:122-133 | An unknown key changes nothing. |

## Left out

- **Database I/O.** Connecting, pooling, the `SELECT @@VERSION` probe and closing connections are not modelled. Every query result is a parameter: a `Catalog` or `SimpleCatalog` of functions.
- **Concurrency.** `Promise.all` is modelled as evaluation in a fixed order. When several queries fail, the error reported is that of the first query in source order.
- **Dates and the clock.** Dates are integers, and `new Date()` is the parameter `now`.
- **Lower-casing.** `toLowerCase` is modelled on ASCII letters only, and whitespace is the ASCII set plus the common Unicode spaces listed in `Text.IsSpace`.
- **Column order comparison.** `JSON.stringify` of the sorted index columns is modelled as structural equality of the sorted lists.
- **Dynamic typing.** `compareValues` sees typed values (`Values.Value`), so the `typeof` check is a constructor test.
- **Surrounding layers.** The Excel, HTML and JSON reporters, the web server, the web UI, the `config` command and the logger are not part of this model.
- **Config files.** `loadConfigFile` reads a file. Its outcome is a parameter of `ConnectionString.ParseConfigs`.
- **The table count.** The rows of the table-count probe (`getTableList`) are only logged, so the model keeps just its success or failure.
- **Parameter names.** A null parameter name is not representable, because the catalogue column is non-nullable. The function extractor's "RETURN_VALUE" fallback applies to the empty name.
- **Comparison.ServerLabel.** The 'Unknown' fallback for an empty server name is modelled, but `CompareDatabase` has already refused an empty server by then, so it is unreachable.
- **Error-path logging.** Logging and the per-object error messages of the best-effort loops are not modelled.
- **Compiled JavaScript.** The compiled `.js` copies of the sources are not modelled.
- **Connection strings and the corrected reader.** `ConnectionString.ParseConfigs` reads connection strings as written, with `ParseConnectionString`. `ConnectionString.ParseConfigsFixed` is the same flow with the corrected reader of the findings below.
- **Sorting index columns in place.** `compareIndexes` sorts the snapshots' own index column arrays in place (src/comparers/table.ts:174-175). The model compares sorted copies, so its snapshots keep catalogue order.

## Findings

| source | as written | input that shows it | evidently intended | confidence | as-written member | corrected member |
|---|---|---|---|---|---|---|
| src/utils/server-parser.ts:78-89 | `formatServerAddress` appends `,port` for any explicit port other than 1433. A parsed comma-form address carries port -1 and already holds its port in the text. | "h,5" parses to server "h,5", port -1, explicit; formatting gives "h,5,-1" | The display form of a parsed comma-form address is its text | medium; not executed | ServerAddress.FormatCommaFormAsWritten | ServerAddress.FormatCommaFormCorrected |
| src/cli/commands/compare.ts:103-104 | `parts[0].split('.')` keeps only the first two dot-separated pieces. | "192.168.1.1.db" gives server "192" and database "168" | Split at the last dot, so that IP addresses and dotted host names survive | medium; not executed | ConnectionString.DottedServerAsWritten | ConnectionString.ParseFixedRoundTrip |
| src/cli/commands/compare.ts:120 | `split('=')` keeps only the text between the first and second '='. | "pass=a=b" sets the password to "a" | The value is everything after the first '=' | medium; not executed | ConnectionString.ValueCutAsWritten | ConnectionString.ValueWholeFixed |

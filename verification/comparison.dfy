/** The comparison run end to end (`DatabaseCompareApp`): the snapshots the
    simple extraction builds, the four comparers applied kind by kind, the
    summary counts and the overall verdict. */
module Comparison {
  import opened Wrappers
  import opened Seqs
  import opened Schema
  import opened Keyed
  import opened TableCompare
  import opened ViewCompare
  import opened RoutineCompare
  import opened ServerAddress
  import opened Text
  import opened Strings

  datatype Differences = Differences(
    tables: Changes<Table, TableModification>,
    views: Changes<View, ViewModification>,
    procedures: Changes<Procedure, RoutineModification>,
    functions: Changes<Function, RoutineModification>)

  /** The counts of one kind of object. */
  datatype KindTotals = KindTotals(source: nat, target: nat, added: nat, removed: nat, modified: nat)

  datatype Status = Identical | Different

  datatype Summary = Summary(
    totalTables: KindTotals,
    totalViews: KindTotals,
    totalProcedures: KindTotals,
    totalFunctions: KindTotals,
    overallStatus: Status)

  datatype ComparisonResult = ComparisonResult(
    source: Metadata,
    target: Metadata,
    differences: Differences,
    summary: Summary,
    timestamp: int)

  /** Nothing was added, removed or modified, of any kind. */
  predicate NoChanges(d: Differences) {
    !d.tables.HasChanges() && !d.views.HasChanges() && !d.procedures.HasChanges() && !d.functions.HasChanges()
  }

  /** `performComparison`: each kind's lists go to that kind's comparer. */
  function PerformComparison(source: Metadata, target: Metadata): (r: Differences)
    ensures forall t :: t in r.tables.added ==> t in target.tables
    ensures forall t :: t in r.tables.removed ==> t in source.tables
    ensures forall v :: v in r.views.added ==> v in target.views
    ensures forall v :: v in r.views.removed ==> v in source.views
    ensures forall p :: p in r.procedures.added ==> p in target.procedures
    ensures forall p :: p in r.procedures.removed ==> p in source.procedures
    ensures forall f :: f in r.functions.added ==> f in target.functions
    ensures forall f :: f in r.functions.removed ==> f in source.functions
  {
    DiffByFrom(source.tables, target.tables, TableKey, CompareTable);
    DiffByFrom(source.views, target.views, ViewKey, CompareView);
    DiffByFrom(source.procedures, target.procedures, ProcedureKey, CompareProcedure);
    DiffByFrom(source.functions, target.functions, FunctionKey, CompareFunction);
    Differences(
      CompareTables(source.tables, target.tables),
      CompareViews(source.views, target.views),
      CompareProcedures(source.procedures, target.procedures),
      CompareFunctions(source.functions, target.functions))
  }

  function Totals<T, M>(source: seq<T>, target: seq<T>, changes: Changes<T, M>): KindTotals {
    KindTotals(|source|, |target|, |changes.added|, |changes.removed|, |changes.modified|)
  }

  /** `determineOverallStatus`: identical exactly when all twelve lists are
      empty. */
  function DetermineOverallStatus(d: Differences): (r: Status)
    ensures r == Identical <==> NoChanges(d)
  {
    var hasChanges :=
      |d.tables.added| > 0 || |d.tables.removed| > 0 || |d.tables.modified| > 0 ||
      |d.views.added| > 0 || |d.views.removed| > 0 || |d.views.modified| > 0 ||
      |d.procedures.added| > 0 || |d.procedures.removed| > 0 || |d.procedures.modified| > 0 ||
      |d.functions.added| > 0 || |d.functions.removed| > 0 || |d.functions.modified| > 0;
    if hasChanges then Different else Identical
  }

  /** A kind whose three change counts are all zero. */
  predicate Unchanged(k: KindTotals) {
    k.added == 0 && k.removed == 0 && k.modified == 0
  }

  /** `generateSummary`: each kind's sizes and change counts, and the
      verdict on the differences. */
  function GenerateSummary(source: Metadata, target: Metadata, d: Differences): (r: Summary)
    ensures r.overallStatus == Identical <==> NoChanges(d)
    ensures r.overallStatus == Identical <==>
      Unchanged(r.totalTables) && Unchanged(r.totalViews) && Unchanged(r.totalProcedures) && Unchanged(r.totalFunctions)
    ensures r.totalTables.added == |d.tables.added| && r.totalTables.removed == |d.tables.removed|
      && r.totalTables.modified == |d.tables.modified|
    ensures r.totalViews.added == |d.views.added| && r.totalViews.removed == |d.views.removed|
      && r.totalViews.modified == |d.views.modified|
    ensures r.totalProcedures.added == |d.procedures.added| && r.totalProcedures.removed == |d.procedures.removed|
      && r.totalProcedures.modified == |d.procedures.modified|
    ensures r.totalFunctions.added == |d.functions.added| && r.totalFunctions.removed == |d.functions.removed|
      && r.totalFunctions.modified == |d.functions.modified|
    ensures r.totalTables.source == |source.tables| && r.totalTables.target == |target.tables|
    ensures r.totalViews.source == |source.views| && r.totalViews.target == |target.views|
    ensures r.totalProcedures.source == |source.procedures| && r.totalProcedures.target == |target.procedures|
    ensures r.totalFunctions.source == |source.functions| && r.totalFunctions.target == |target.functions|
  {
    Summary(
      Totals(source.tables, target.tables, d.tables),
      Totals(source.views, target.views, d.views),
      Totals(source.procedures, target.procedures, d.procedures),
      Totals(source.functions, target.functions, d.functions),
      DetermineOverallStatus(d))
  }

  /** Each kind's differences are that kind's comparer applied to the two
      snapshots' lists, and so depend on those lists alone. */
  lemma {:induction false} PerformComparisonPerKind(s1: Metadata, t1: Metadata, s2: Metadata, t2: Metadata)
    ensures PerformComparison(s1, t1).tables == CompareTables(s1.tables, t1.tables)
    ensures PerformComparison(s1, t1).views == CompareViews(s1.views, t1.views)
    ensures PerformComparison(s1, t1).procedures == CompareProcedures(s1.procedures, t1.procedures)
    ensures PerformComparison(s1, t1).functions == CompareFunctions(s1.functions, t1.functions)
    ensures s1.tables == s2.tables && t1.tables == t2.tables ==>
      PerformComparison(s1, t1).tables == PerformComparison(s2, t2).tables
    ensures s1.views == s2.views && t1.views == t2.views ==>
      PerformComparison(s1, t1).views == PerformComparison(s2, t2).views
    ensures s1.procedures == s2.procedures && t1.procedures == t2.procedures ==>
      PerformComparison(s1, t1).procedures == PerformComparison(s2, t2).procedures
    ensures s1.functions == s2.functions && t1.functions == t2.functions ==>
      PerformComparison(s1, t1).functions == PerformComparison(s2, t2).functions
  {
  }

  /** A snapshot compared with itself is identical, with every change count
      zero. */
  lemma {:induction false} CompareSelfIdentical(m: Metadata)
    ensures NoChanges(PerformComparison(m, m))
    ensures GenerateSummary(m, m, PerformComparison(m, m)).overallStatus == Identical
  {
    CompareTablesSelf(m.tables);
    CompareViewsSelf(m.views);
    CompareProceduresSelf(m.procedures);
    CompareFunctionsSelf(m.functions);
  }

  /** Keys unique within each snapshot. */
  predicate UniqueKeysPerKind(m: Metadata) {
    && Distinct(Map(m.tables, TableKey))
    && Distinct(Map(m.views, ViewKey))
    && Distinct(Map(m.procedures, ProcedureKey))
    && Distinct(Map(m.functions, FunctionKey))
  }

  /** What balances in one kind's counts: the source objects that were not
      removed are as many as the target objects that were not added, and at
      most that many were modified. */
  predicate Balanced(k: KindTotals) {
    k.source - k.removed == k.target - k.added && k.modified <= k.source - k.removed
  }

  /** With unique keys on both sides, every kind's counts balance. */
  lemma {:induction false} SummaryBalance(source: Metadata, target: Metadata)
    requires UniqueKeysPerKind(source) && UniqueKeysPerKind(target)
    ensures var s := GenerateSummary(source, target, PerformComparison(source, target));
      Balanced(s.totalTables) && Balanced(s.totalViews) && Balanced(s.totalProcedures) && Balanced(s.totalFunctions)
  {
    KindBalance(source.tables, target.tables, TableKey, CompareTable);
    KindBalance(source.views, target.views, ViewKey, CompareView);
    KindBalance(source.procedures, target.procedures, ProcedureKey, CompareProcedure);
    KindBalance(source.functions, target.functions, FunctionKey, CompareFunction);
  }

  lemma {:induction false} KindBalance<T(!new), K(!new), M(!new)>(source: seq<T>, target: seq<T>, key: T -> K, cmp: (T, T) -> Option<M>)
    requires Distinct(Map(source, key)) && Distinct(Map(target, key))
    ensures Balanced(Totals(source, target, DiffBy(source, target, key, cmp)))
  {
    DiffByBalance(source, target, key, cmp);
  }

  // ---- the simple extraction that compareDatabase runs ----

  datatype TableRow = TableRow(schemaName: string, tableName: string)
  datatype ViewRow = ViewRow(schemaName: string, viewName: string, definition: Option<string>)
  datatype RoutineRow = RoutineRow(schemaName: string, name: string, createDate: Option<int>, modifyDate: Option<int>,
                                   definition: Option<string>)

  /** The outcomes of the four catalog queries, in the order they run: the
      rows, or the error the query raised. */
  datatype SimpleCatalog = SimpleCatalog(
    tables: Result<seq<TableRow>, string>,
    views: Result<seq<ViewRow>, string>,
    procedures: Result<seq<RoutineRow>, string>,
    functions: Result<seq<RoutineRow>, string>)

  datatype CompareError = BadAddress(addressError: AddressError) | QueryFailed(message: string)

  /** A table with nothing but its name. */
  predicate Bare(t: Table) {
    t.columns == [] && t.primaryKeys == [] && t.foreignKeys == [] && t.indexes == [] && t.constraints == []
  }

  function SimpleTable(row: TableRow): (t: Table)
    ensures Bare(t) && t.schemaName == row.schemaName && t.tableName == row.tableName
  {
    Table(row.schemaName, row.tableName, [], [], [], [], [])
  }

  /** `text` is the catalogue's definition, or empty text when it has none. */
  predicate DefinitionOf(text: string, definition: Option<string>) {
    (definition.Some? ==> text == definition.value) && (definition.None? ==> text == "")
  }

  /** `date` is the catalogue's date, or `now` when it has none. */
  predicate DateOf(date: int, catalogDate: Option<int>, now: int) {
    (catalogDate.Some? ==> date == catalogDate.value) && (catalogDate.None? ==> date == now)
  }

  /** A missing definition becomes empty text; the view is never updatable
      and has no check option or dependencies. */
  function SimpleView(row: ViewRow): (v: View)
    ensures v.schemaName == row.schemaName && v.viewName == row.viewName
    ensures DefinitionOf(v.definition, row.definition)
    ensures v.checkOption.None? && !v.isUpdatable && v.dependencies == []
  {
    View(row.schemaName, row.viewName, row.definition.GetOr(""), None, false, [])
  }

  /** Missing dates become the time of extraction `now`. */
  function SimpleProcedure(row: RoutineRow, now: int): (p: Procedure)
    ensures p.schemaName == row.schemaName && p.procedureName == row.name
    ensures DefinitionOf(p.definition, row.definition)
    ensures DateOf(p.createDate, row.createDate, now) && DateOf(p.modifyDate, row.modifyDate, now)
    ensures p.parameters == []
  {
    Procedure(row.schemaName, row.name, row.createDate.GetOr(now), row.modifyDate.GetOr(now), row.definition.GetOr(""), [])
  }

  function SimpleFunction(row: RoutineRow, now: int): (f: Function)
    ensures f.schemaName == row.schemaName && f.functionName == row.name && f.functionType == "USER_DEFINED"
    ensures DefinitionOf(f.definition, row.definition)
    ensures DateOf(f.createDate, row.createDate, now) && DateOf(f.modifyDate, row.modifyDate, now)
    ensures f.parameters == []
  {
    Function(row.schemaName, row.name, "USER_DEFINED", row.createDate.GetOr(now), row.modifyDate.GetOr(now),
      row.definition.GetOr(""), [])
  }

  function Rows<R>(query: Result<seq<R>, string>): Result<seq<R>, CompareError> {
    match query
    case Success(rows) => Success(rows)
    case Failure(message) => Failure(QueryFailed(message))
  }

  /** `extractSimpleMetadata`: one object per row of each query, names only
      for tables and without parameters for routines; the first failing
      query aborts the extraction. */
  function ExtractSimpleMetadata(catalog: SimpleCatalog, serverName: string, databaseName: string, now: int)
    : (r: Result<Metadata, CompareError>)
    ensures r.Success? <==>
      catalog.tables.Success? && catalog.views.Success? && catalog.procedures.Success? && catalog.functions.Success?
    ensures catalog.tables.Failure? ==> r == Failure(QueryFailed(catalog.tables.error))
    ensures r.Success? ==> r.value.server == serverName && r.value.databaseName == databaseName
    ensures r.Success? ==>
      && |r.value.tables| == |catalog.tables.value|
      && |r.value.views| == |catalog.views.value|
      && |r.value.procedures| == |catalog.procedures.value|
      && |r.value.functions| == |catalog.functions.value|
    ensures r.Success? ==> forall i :: 0 <= i < |r.value.tables| ==>
      Bare(r.value.tables[i]) && r.value.tables[i].schemaName == catalog.tables.value[i].schemaName
      && r.value.tables[i].tableName == catalog.tables.value[i].tableName
    ensures r.Success? ==> forall i :: 0 <= i < |r.value.views| ==>
      r.value.views[i].schemaName == catalog.views.value[i].schemaName
      && r.value.views[i].viewName == catalog.views.value[i].viewName
      && DefinitionOf(r.value.views[i].definition, catalog.views.value[i].definition)
    ensures r.Success? ==> forall i :: 0 <= i < |r.value.procedures| ==>
      r.value.procedures[i].schemaName == catalog.procedures.value[i].schemaName
      && r.value.procedures[i].procedureName == catalog.procedures.value[i].name
      && DefinitionOf(r.value.procedures[i].definition, catalog.procedures.value[i].definition)
      && r.value.procedures[i].parameters == []
    ensures r.Success? ==> forall i :: 0 <= i < |r.value.functions| ==>
      r.value.functions[i].schemaName == catalog.functions.value[i].schemaName
      && r.value.functions[i].functionName == catalog.functions.value[i].name
      && DefinitionOf(r.value.functions[i].definition, catalog.functions.value[i].definition)
      && r.value.functions[i].parameters == [] && r.value.functions[i].functionType == "USER_DEFINED"
  {
    var tableRows :- Rows(catalog.tables);
    var viewRows :- Rows(catalog.views);
    var procedureRows :- Rows(catalog.procedures);
    var functionRows :- Rows(catalog.functions);
    Success(Metadata(databaseName, serverName,
      Map(tableRows, SimpleTable),
      Map(viewRows, SimpleView),
      Map(procedureRows, (row: RoutineRow) => SimpleProcedure(row, now)),
      Map(functionRows, (row: RoutineRow) => SimpleFunction(row, now)),
      now))
  }

  /** Two tables with nothing but names are never reported as modified. */
  lemma {:induction false} BareTablesUnmodified(s: Table, t: Table)
    requires Bare(s) && Bare(t)
    ensures CompareTable(s, t).None?
  {
    CompareColumnsSelf([]);
    CompareIndexesSelf([]);
    CompareConstraintsSelf([]);
  }

  /** On snapshots of bare tables, tables are only ever added or removed. */
  lemma {:induction false} BareSnapshotsNoTableModifications(source: seq<Table>, target: seq<Table>)
    requires forall t :: t in source ==> Bare(t)
    requires forall t :: t in target ==> Bare(t)
    ensures CompareTables(source, target).modified == []
  {
    forall x | Latest(source, TableKey, TableKey(x)) == Some(x)
      ensures Partner(target, TableKey, CompareTable, x).None?
    {
      match Latest(target, TableKey, TableKey(x))
      case None =>
      case Some(t) => BareTablesUnmodified(x, t);
    }
    DiffByNoModified(source, target, TableKey, CompareTable);
  }

  /** Routines without parameters can only differ in their definitions. */
  lemma {:induction false} ParameterlessRoutines(name: string, schemaName: string, sdef: string, tdef: string)
    ensures !CompareRoutineDetails(name, schemaName, sdef, tdef, [], []).parametersChanged
  {
    CompareParametersSelf([]);
  }

  lemma {:induction false} ParameterlessProcedures(source: seq<Procedure>, target: seq<Procedure>)
    requires forall p :: p in source ==> p.parameters == []
    requires forall p :: p in target ==> p.parameters == []
    ensures forall m :: m in CompareProcedures(source, target).modified ==> m.definitionChanged && !m.parametersChanged
  {
    forall p, q | p in source && q in target
      ensures !CompareProcedureDetails(p, q).parametersChanged
    {
      ParameterlessRoutines(p.procedureName, p.schemaName, p.definition, q.definition);
    }
  }

  lemma {:induction false} ParameterlessFunctions(source: seq<Function>, target: seq<Function>)
    requires forall f :: f in source ==> f.parameters == []
    requires forall f :: f in target ==> f.parameters == []
    ensures forall m :: m in CompareFunctions(source, target).modified ==> m.definitionChanged && !m.parametersChanged
  {
    forall f, g | f in source && g in target
      ensures !CompareFunctionDetails(f, g).parametersChanged
    {
      ParameterlessRoutines(f.functionName, f.schemaName, f.definition, g.definition);
    }
  }

  /** The server name recorded in a snapshot: `server || 'Unknown'`. */
  function ServerLabel(server: string): string {
    if server == "" then "Unknown" else server
  }

  /** The address check made while connecting; the connection itself is not
      modelled. */
  function Connect(config: DatabaseConfig): (r: Result<ParsedServer, CompareError>)
    ensures config.server == "" ==> r == Failure(BadAddress(EmptyAddress))
    ensures r.Success? <==> ParseServerAddress(config.server).Success?
    ensures r.Success? ==> r.value == ParseServerAddress(config.server).value
    ensures r.Failure? ==> r.error == BadAddress(ParseServerAddress(config.server).error)
  {
    match ParseServerAddress(config.server)
    case Success(p) => Success(p)
    case Failure(e) => Failure(BadAddress(e))
  }

  /** The port handed to the driver: none for the comma spelling, whose
      text already carries it, otherwise the parsed port. */
  function DriverPortSetting(p: ParsedServer): (r: Option<int>)
    ensures r.None? <==> p.port == DriverPort
    ensures r.Some? ==> r.value == p.port && r.value != DriverPort
  {
    if p.port != DriverPort then Some(p.port) else None
  }

  /** What the driver is given for an address the parser accepts: nothing
      exactly when the trimmed text is the comma spelling, the default port
      for a bare host, and the port read from the text for the colon
      spelling. The sentinel itself is never handed on. */
  lemma {:induction false} DriverPortOfAddress(server: string)
    requires ParseServerAddress(server).Success?
    ensures var t := Trim(server);
      var q := DriverPortSetting(ParseServerAddress(server).value);
      && (q.None? <==> TwoParts(t, ','))
      && (q.Some? ==> q.value != DriverPort && (q.value == DefaultPort || 1 <= q.value <= 65535))
      && (!TwoParts(t, ',') && !TwoParts(t, ':') ==> q == Some(DefaultPort))
      && (!TwoParts(t, ',') && TwoParts(t, ':') ==> q == ParseInt(Trim(Split(t, ':')[1])))
  {
  }

  /** `compareDatabase`: connect to the source, then the target, extract
      both snapshots, compare and summarise. `now` stands for every reading
      of the clock. */
  function CompareDatabase(sourceConfig: DatabaseConfig, targetConfig: DatabaseConfig,
                           sourceCatalog: SimpleCatalog, targetCatalog: SimpleCatalog, now: int)
    : (r: Result<ComparisonResult, CompareError>)
    ensures sourceConfig.server == "" ==> r == Failure(BadAddress(EmptyAddress))
    ensures sourceConfig.server != "" && targetConfig.server == "" ==>
      r.Failure? && r.error.BadAddress?
    ensures r.Success? ==> r.value.source.server == sourceConfig.server && r.value.target.server == targetConfig.server
    ensures r.Success? ==> r.value.source.databaseName == sourceConfig.database && r.value.target.databaseName == targetConfig.database
    ensures r.Success? ==> (r.value.summary.overallStatus == Identical <==> NoChanges(r.value.differences))
    ensures r.Success? ==> r.value.differences.tables.modified == []
    ensures r.Success? ==> forall m :: m in r.value.differences.procedures.modified ==> m.definitionChanged && !m.parametersChanged
    ensures r.Success? ==> forall m :: m in r.value.differences.functions.modified ==> m.definitionChanged && !m.parametersChanged
  {
    var _ :- Connect(sourceConfig);
    var _ :- Connect(targetConfig);
    var sourceMetadata :- ExtractSimpleMetadata(sourceCatalog, ServerLabel(sourceConfig.server), sourceConfig.database, now);
    var targetMetadata :- ExtractSimpleMetadata(targetCatalog, ServerLabel(targetConfig.server), targetConfig.database, now);
    var differences := PerformComparison(sourceMetadata, targetMetadata);
    BareSnapshotsNoTableModifications(sourceMetadata.tables, targetMetadata.tables);
    ParameterlessProcedures(sourceMetadata.procedures, targetMetadata.procedures);
    ParameterlessFunctions(sourceMetadata.functions, targetMetadata.functions);
    Success(ComparisonResult(sourceMetadata, targetMetadata, differences,
      GenerateSummary(sourceMetadata, targetMetadata, differences), now))
  }
}

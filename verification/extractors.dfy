/** The full extractors: every object named by an enumeration query is
    fetched in detail, best effort, from a catalog whose queries are given
    as an oracle. The catalog rows are typed after the columns each query
    selects; the detail queries are functions of the object's schema and
    name. */
module Extractors {
  import opened Wrappers
  import opened Seqs
  import opened Assoc
  import opened Schema

  /** What a query yields: its rows, or the message of the error it raised. */
  type QueryResult<R> = Result<seq<R>, string>

  /** Why fetching one object failed. */
  datatype ExtractError = QueryFailed(message: string) | NotFound(schemaName: string, name: string)

  /** A row of an enumeration query. */
  datatype NameRow = NameRow(schemaName: string, name: string)

  datatype ColumnRow = ColumnRow(
    columnName: string,
    position: int,
    defaultValue: Option<string>,
    isNullable: string,
    dataType: string,
    maxLength: Option<int>,
    precision: Option<int>,
    scale: Option<int>,
    characterSet: Option<string>,
    collation: Option<string>)

  /** One row per (index, column) pair, ordered by index name and key
      ordinal. */
  datatype IndexRow = IndexRow(
    indexName: string,
    indexType: string,
    isUnique: bool,
    isPrimaryKey: bool,
    keyOrdinal: int,
    columnName: string,
    isDescending: bool,
    isIncluded: bool)

  /** The columns shared by the three constraint queries; the constraint's
      kind is fixed by the query that produced the row. */
  datatype ConstraintRow = ConstraintRow(constraintName: string, definition: Option<string>, columnName: Option<string>)

  datatype ViewDetailRow = ViewDetailRow(definition: Option<string>, checkOption: Option<string>, isUpdatable: string)

  datatype ProcedureDetailRow = ProcedureDetailRow(createDate: int, modifyDate: int, definition: Option<string>)

  datatype FunctionDetailRow = FunctionDetailRow(functionType: string, createDate: int, modifyDate: int,
                                                 definition: Option<string>)

  datatype ParameterRow = ParameterRow(
    parameterName: string,
    parameterId: int,
    dataType: string,
    maxLength: Option<int>,
    precision: Option<int>,
    scale: Option<int>,
    isOutput: bool,
    hasDefault: bool,
    defaultValue: Variant)

  /** The outcome of every query the extractors may run against one
      database. */
  datatype Catalog = Catalog(
    tableCount: QueryResult<int>,
    tableList: QueryResult<NameRow>,
    columns: (string, string) -> QueryResult<ColumnRow>,
    primaryKeys: (string, string) -> QueryResult<PrimaryKey>,
    foreignKeys: (string, string) -> QueryResult<ForeignKey>,
    indexes: (string, string) -> QueryResult<IndexRow>,
    checkConstraints: (string, string) -> QueryResult<ConstraintRow>,
    defaultConstraints: (string, string) -> QueryResult<ConstraintRow>,
    uniqueConstraints: (string, string) -> QueryResult<ConstraintRow>,
    viewList: QueryResult<NameRow>,
    viewDetails: (string, string) -> QueryResult<ViewDetailRow>,
    viewDependencies: (string, string) -> QueryResult<Dependency>,
    procedureList: QueryResult<NameRow>,
    procedureDetails: (string, string) -> QueryResult<ProcedureDetailRow>,
    procedureParameters: (string, string) -> QueryResult<ParameterRow>,
    functionList: QueryResult<NameRow>,
    functionDetails: (string, string) -> QueryResult<FunctionDetailRow>,
    functionParameters: (string, string) -> QueryResult<ParameterRow>)

  function Run<R>(query: QueryResult<R>): Result<seq<R>, ExtractError> {
    match query
    case Success(rows) => Success(rows)
    case Failure(message) => Failure(QueryFailed(message))
  }

  // ---- the best-effort loop shared by the four extractors ----

  /** The values of the fetches that succeeded, in the order of `items`. */
  function Successes<X, T>(items: seq<X>, fetch: X -> Result<T, ExtractError>): seq<T> {
    if |items| == 0 then []
    else
      var kept := Successes(items[..|items| - 1], fetch);
      match fetch(items[|items| - 1])
      case Success(t) => kept + [t]
      case Failure(_) => kept
  }

  /** The `for ... try { push } catch { log }` loop: every item is fetched
      in turn and the failures are passed over. */
  method CollectSuccesses<X, T>(items: seq<X>, fetch: X -> Result<T, ExtractError>) returns (kept: seq<T>)
    ensures kept == Successes(items, fetch)
  {
    kept := [];
    for i := 0 to |items|
      invariant kept == Successes(items[..i], fetch)
    {
      assert items[..i + 1][..i] == items[..i];
      match fetch(items[i]) {
        case Success(t) => kept := kept + [t];
        case Failure(_) =>
      }
    }
    assert items[..|items|] == items;
  }

  /** The objects fetched from a concatenation are those fetched from each
      part: what happens to one item never affects another. */
  lemma {:induction false} SuccessesAppend<X, T>(a: seq<X>, b: seq<X>, fetch: X -> Result<T, ExtractError>)
    ensures Successes(a + b, fetch) == Successes(a, fetch) + Successes(b, fetch)
    decreases |b|
  {
    if |b| > 0 {
      var front := b[..|b| - 1];
      assert (a + b)[..|a + b| - 1] == a + front;
      assert (a + b)[|a + b| - 1] == b[|b| - 1];
      SuccessesAppend(a, front, fetch);
    } else {
      assert a + b == a;
    }
  }

  /** An item whose fetch fails is skipped without a trace. */
  lemma {:induction false} SuccessesSkipFailure<X, T>(a: seq<X>, x: X, b: seq<X>, fetch: X -> Result<T, ExtractError>)
    requires fetch(x).Failure?
    ensures Successes(a + [x] + b, fetch) == Successes(a + b, fetch)
  {
    SuccessesAppend(a + [x], b, fetch);
    SuccessesAppend(a, [x], fetch);
    SuccessesAppend(a, b, fetch);
    assert [x][..0] == [];
  }

  /** Something is kept exactly when the fetch of some item produced it. */
  lemma {:induction false} SuccessesMembers<X, T>(items: seq<X>, fetch: X -> Result<T, ExtractError>, t: T)
    ensures t in Successes(items, fetch) <==> exists i :: 0 <= i < |items| && fetch(items[i]) == Success(t)
  {
    if |items| > 0 {
      var front := items[..|items| - 1];
      SuccessesMembers(front, fetch, t);
      if exists i :: 0 <= i < |items| && fetch(items[i]) == Success(t) {
        var i :| 0 <= i < |items| && fetch(items[i]) == Success(t);
        if i < |items| - 1 {
          assert front[i] == items[i];
        }
      }
      if exists i :: 0 <= i < |front| && fetch(front[i]) == Success(t) {
        var i :| 0 <= i < |front| && fetch(front[i]) == Success(t);
        assert items[i] == front[i];
      }
    }
  }

  /** When nothing fails, every item yields exactly one object, in order. */
  lemma {:induction false} SuccessesAllSucceed<X, T>(items: seq<X>, fetch: X -> Result<T, ExtractError>)
    requires forall i :: 0 <= i < |items| ==> fetch(items[i]).Success?
    ensures |Successes(items, fetch)| == |items|
    ensures forall i :: 0 <= i < |items| ==> Successes(items, fetch)[i] == fetch(items[i]).value
  {
    if |items| > 0 {
      var front := items[..|items| - 1];
      assert forall i :: 0 <= i < |front| ==> front[i] == items[i];
      SuccessesAllSucceed(front, fetch);
    }
  }

  // ---- tables ----

  /** `getColumns`: one column per row; nullable exactly when the catalog
      says "YES". */
  function ColumnOf(row: ColumnRow): (col: Column)
    ensures col.isNullable <==> row.isNullable == "YES"
    ensures col.columnName == row.columnName && col.position == row.position && col.dataType == row.dataType
    ensures col.maxLength == row.maxLength && col.precision == row.precision && col.scale == row.scale
    ensures col.defaultValue == row.defaultValue && col.characterSet == row.characterSet && col.collation == row.collation
  {
    Column(row.columnName, row.position, row.dataType, row.maxLength, row.precision, row.scale,
      row.isNullable == "YES", row.defaultValue, row.characterSet, row.collation)
  }

  function RowName(row: IndexRow): string {
    row.indexName
  }

  function IndexNameOf(index: Index): string {
    index.indexName
  }

  function HasName(name: string): IndexRow -> bool {
    (row: IndexRow) => row.indexName == name
  }

  function IndexColumnOf(row: IndexRow): IndexColumn {
    IndexColumn(row.columnName, row.keyOrdinal, row.isDescending, row.isIncluded)
  }

  /** The index a row opens: its type and flags, no columns yet. */
  function NewIndex(row: IndexRow): Index {
    Index(row.indexName, row.indexType, row.isUnique, row.isPrimaryKey, [])
  }

  /** The map `getIndexes` fills: the first row of a name creates the
      index, and every row appends its column to the index of its name. */
  function GroupIndexRows(rows: seq<IndexRow>): (m: Assoc<string, Index>)
    ensures forall e :: e in m ==> e.1.indexName == e.0
  {
    if |rows| == 0 then []
    else
      var m := GroupIndexRows(rows[..|rows| - 1]);
      var row := rows[|rows| - 1];
      var index := Get(m, row.indexName).GetOr(NewIndex(row));
      Put(m, row.indexName, index.(columns := index.columns + [IndexColumnOf(row)]))
  }

  /** `getIndexes`: the grouped indexes in the map's order. */
  function GetIndexes(rows: seq<IndexRow>): (r: seq<Index>)
    ensures Map(r, IndexNameOf) == Dedup(Map(rows, RowName))
    ensures forall i :: 0 <= i < |r| ==> r[i].columns == Map(Filter(rows, HasName(r[i].indexName)), IndexColumnOf)
    ensures ColumnCount(r) == |rows|
  {
    IndexGrouping(rows);
    Values(GroupIndexRows(rows))
  }

  /** The number of index columns over a list of indexes. */
  function ColumnCount(indexes: seq<Index>): nat {
    if |indexes| == 0 then 0 else |indexes[0].columns| + ColumnCount(indexes[1..])
  }

  /** The grouped map holds one entry per index name, in order of first
      appearance. */
  lemma {:induction false} GroupKeys(rows: seq<IndexRow>)
    ensures Keys(GroupIndexRows(rows)) == Dedup(Map(rows, RowName))
  {
    if |rows| > 0 {
      var front := rows[..|rows| - 1];
      GroupKeys(front);
      var names := Map(rows, RowName);
      assert names[..|names| - 1] == Map(front, RowName);
    }
  }

  lemma {:induction false} NoRowNamed(rows: seq<IndexRow>, name: string)
    requires name !in Map(rows, RowName)
    ensures Filter(rows, HasName(name)) == []
  {
    forall x | x in rows
      ensures !HasName(name)(x)
    {
      var i :| 0 <= i < |rows| && rows[i] == x;
      assert Map(rows, RowName)[i] == x.indexName;
    }
    FilterNone(rows, HasName(name));
  }

  lemma {:induction false} AbsentName(rows: seq<IndexRow>, name: string)
    requires Get(GroupIndexRows(rows), name).None?
    ensures name !in Map(rows, RowName)
  {
    GroupKeys(rows);
  }

  /** The map after one more row, in terms of the map before it. */
  lemma {:induction false} GroupSnoc(front: seq<IndexRow>, row: IndexRow)
    ensures var m := GroupIndexRows(front);
      var index := Get(m, row.indexName).GetOr(NewIndex(row));
      GroupIndexRows(front + [row]) == Put(m, row.indexName, index.(columns := index.columns + [IndexColumnOf(row)]))
  {
    assert (front + [row])[..|front|] == front;
  }

  lemma {:induction false} FilterSnoc(front: seq<IndexRow>, row: IndexRow, name: string)
    ensures Filter(front + [row], HasName(name)) ==
      Filter(front, HasName(name)) + (if row.indexName == name then [row] else [])
  {
    FilterAppend(front, [row], HasName(name));
    assert [row][1..] == [];
  }

  lemma {:induction false} ColumnsOfNamedRow(front: seq<IndexRow>, row: IndexRow)
    requires var m := GroupIndexRows(front);
      Get(m, row.indexName).Some? ==>
        Get(m, row.indexName).value.columns == Map(Filter(front, HasName(row.indexName)), IndexColumnOf)
    ensures Get(GroupIndexRows(front + [row]), row.indexName).value.columns ==
      Map(Filter(front + [row], HasName(row.indexName)), IndexColumnOf)
  {
    var name := row.indexName;
    var m := GroupIndexRows(front);
    var before := Filter(front, HasName(name));
    var index := Get(m, name).GetOr(NewIndex(row));
    assert index.columns == Map(before, IndexColumnOf) by {
      if Get(m, name).None? {
        AbsentName(front, name);
        NoRowNamed(front, name);
      }
    }
    assert Get(GroupIndexRows(front + [row]), name).value.columns == index.columns + [IndexColumnOf(row)] by {
      GroupSnoc(front, row);
    }
    assert Filter(front + [row], HasName(name)) == before + [row] by {
      FilterSnoc(front, row, name);
    }
    MapSnoc(before, row, IndexColumnOf);
  }

  lemma {:induction false} ColumnsOfOtherRow(front: seq<IndexRow>, row: IndexRow, name: string)
    requires row.indexName != name
    ensures Get(GroupIndexRows(front + [row]), name) == Get(GroupIndexRows(front), name)
    ensures Filter(front + [row], HasName(name)) == Filter(front, HasName(name))
  {
    GroupSnoc(front, row);
    FilterSnoc(front, row, name);
    assert Filter(front, HasName(name)) + [] == Filter(front, HasName(name));
  }

  /** The columns of the index named `name` are the columns of exactly the
      rows carrying that name, in row order. */
  lemma {:induction false} GroupColumns(rows: seq<IndexRow>, name: string)
    ensures Get(GroupIndexRows(rows), name).Some? ==>
      Get(GroupIndexRows(rows), name).value.columns == Map(Filter(rows, HasName(name)), IndexColumnOf)
  {
    if |rows| > 0 {
      var front := rows[..|rows| - 1];
      var row := rows[|rows| - 1];
      assert rows == front + [row];
      GroupColumns(front, name);
      if row.indexName == name {
        ColumnsOfNamedRow(front, row);
      } else {
        ColumnsOfOtherRow(front, row, name);
      }
    }
  }

  /** An index takes its type and flags from the first row with its name. */
  lemma {:induction false} FirstRowGivesHeader(rows: seq<IndexRow>, i: int)
    requires 0 <= i < |rows|
    requires forall j :: 0 <= j < i ==> rows[j].indexName != rows[i].indexName
    ensures Get(GroupIndexRows(rows), rows[i].indexName).Some?
    ensures Get(GroupIndexRows(rows), rows[i].indexName).value.(columns := []) == NewIndex(rows[i])
  {
    var front := rows[..|rows| - 1];
    var row := rows[|rows| - 1];
    var name := rows[i].indexName;
    assert rows == front + [row];
    if i == |rows| - 1 {
      assert Get(GroupIndexRows(front), name).None? by {
        assert name !in Map(front, RowName) by {
          assert forall j :: 0 <= j < |front| ==> Map(front, RowName)[j] == rows[j].indexName;
        }
        GroupKeys(front);
      }
      GroupSnoc(front, row);
    } else {
      assert front[i] == rows[i];
      FirstRowGivesHeader(front, i);
      GroupSnoc(front, row);
    }
  }

  /** `Put` changes the column count by the difference between the new and
      the replaced index. */
  lemma {:induction false} PutColumnCount(m: Assoc<string, Index>, name: string, index: Index)
    ensures ColumnCount(Values(Put(m, name, index))) ==
      ColumnCount(Values(m)) - (match Get(m, name) case Some(prior) => |prior.columns| case None => 0) + |index.columns|
  {
    if |m| > 0 && m[0].0 != name {
      PutColumnCount(m[1..], name, index);
      assert Values(Put(m, name, index)) == [m[0].1] + Values(Put(m[1..], name, index));
    } else if |m| > 0 {
      assert Values(Put(m, name, index)) == [index] + Values(m[1..]);
    }
  }

  /** Every row lands in exactly one index. */
  lemma {:induction false} GroupColumnCount(rows: seq<IndexRow>)
    ensures ColumnCount(Values(GroupIndexRows(rows))) == |rows|
  {
    if |rows| > 0 {
      var front := rows[..|rows| - 1];
      var row := rows[|rows| - 1];
      var m := GroupIndexRows(front);
      var index := Get(m, row.indexName).GetOr(NewIndex(row));
      GroupColumnCount(front);
      PutColumnCount(m, row.indexName, index.(columns := index.columns + [IndexColumnOf(row)]));
    }
  }

  /** `getIndexes` groups its rows: one index per distinct name in order of
      first appearance, each holding the columns of its own rows in row
      order, and no row lost or repeated. */
  lemma {:induction false} IndexGrouping(rows: seq<IndexRow>)
    ensures Map(Values(GroupIndexRows(rows)), IndexNameOf) == Dedup(Map(rows, RowName))
    ensures forall i :: 0 <= i < |Values(GroupIndexRows(rows))| ==>
      Values(GroupIndexRows(rows))[i].columns == Map(Filter(rows, HasName(Values(GroupIndexRows(rows))[i].indexName)), IndexColumnOf)
    ensures ColumnCount(Values(GroupIndexRows(rows))) == |rows|
  {
    var m := GroupIndexRows(rows);
    var indexes := Values(GroupIndexRows(rows));
    GroupKeys(rows);
    assert Map(indexes, IndexNameOf) == Keys(m) by {
      forall i | 0 <= i < |m|
        ensures Map(indexes, IndexNameOf)[i] == Keys(m)[i]
      {
        assert m[i] in m;
      }
    }
    assert UniqueKeys(m);
    forall i | 0 <= i < |indexes|
      ensures indexes[i].columns == Map(Filter(rows, HasName(indexes[i].indexName)), IndexColumnOf)
    {
      assert m[i] in m;
      GetUnique(m, m[i].0, m[i].1);
      GroupColumns(rows, m[i].0);
    }
    GroupColumnCount(rows);
  }

  /** `getConstraints` reads the three constraint queries in turn; a failing
      one contributes nothing. */
  function Contributed(query: QueryResult<ConstraintRow>, kind: string): (r: seq<Constraint>)
    ensures forall x :: x in r ==> x.constraintType == kind
    ensures |r| == RowCount(query)
    ensures query.Success? ==> forall i :: 0 <= i < |r| ==> ReadFrom(r[i], query.value[i], kind)
  {
    match query
    case Success(rows) => Map(rows, (row: ConstraintRow) => Constraint(row.constraintName, kind, row.definition, row.columnName))
    case Failure(_) => []
  }

  /** Constraint `x` is the reading of `row` by the query for `kind`: the
      name, definition and column are the row's. */
  predicate ReadFrom(x: Constraint, row: ConstraintRow, kind: string) {
    && x.constraintName == row.constraintName
    && x.constraintType == kind
    && x.definition == row.definition
    && x.columnName == row.columnName
  }

  /** The number of rows a query returned; a failed query returned none. */
  function RowCount<R>(query: QueryResult<R>): nat {
    if query.Success? then |query.value| else 0
  }

  /** One constraint per row of each query that succeeded, and only of the
      three kinds. */
  function Constraints(c: Catalog, schemaName: string, tableName: string): (r: seq<Constraint>)
    ensures |r| == RowCount(c.checkConstraints(schemaName, tableName)) + RowCount(c.defaultConstraints(schemaName, tableName))
      + RowCount(c.uniqueConstraints(schemaName, tableName))
    ensures forall x :: x in r ==> x.constraintType == "CHECK" || x.constraintType == "DEFAULT" || x.constraintType == "UNIQUE"
  {
    Contributed(c.checkConstraints(schemaName, tableName), "CHECK")
      + Contributed(c.defaultConstraints(schemaName, tableName), "DEFAULT")
      + Contributed(c.uniqueConstraints(schemaName, tableName), "UNIQUE")
  }

  /** The constraint list opens with the check rows, each read as CHECK. */
  lemma {:induction false} ConstraintsReadChecks(c: Catalog, schemaName: string, tableName: string)
    ensures c.checkConstraints(schemaName, tableName).Success? ==>
      var rows := c.checkConstraints(schemaName, tableName).value;
      forall i :: 0 <= i < |rows| ==> ReadFrom(Constraints(c, schemaName, tableName)[i], rows[i], "CHECK")
  {
    ConcatAt3(Contributed(c.checkConstraints(schemaName, tableName), "CHECK"),
      Contributed(c.defaultConstraints(schemaName, tableName), "DEFAULT"),
      Contributed(c.uniqueConstraints(schemaName, tableName), "UNIQUE"));
  }

  /** After the check rows come the default rows, each read as DEFAULT. */
  lemma {:induction false} ConstraintsReadDefaults(c: Catalog, schemaName: string, tableName: string)
    ensures c.defaultConstraints(schemaName, tableName).Success? ==>
      var rows := c.defaultConstraints(schemaName, tableName).value;
      var n := RowCount(c.checkConstraints(schemaName, tableName));
      forall i :: 0 <= i < |rows| ==> ReadFrom(Constraints(c, schemaName, tableName)[n + i], rows[i], "DEFAULT")
  {
    ConcatAt3(Contributed(c.checkConstraints(schemaName, tableName), "CHECK"),
      Contributed(c.defaultConstraints(schemaName, tableName), "DEFAULT"),
      Contributed(c.uniqueConstraints(schemaName, tableName), "UNIQUE"));
  }

  /** The list closes with the unique rows, each read as UNIQUE. */
  lemma {:induction false} ConstraintsReadUniques(c: Catalog, schemaName: string, tableName: string)
    ensures c.uniqueConstraints(schemaName, tableName).Success? ==>
      var rows := c.uniqueConstraints(schemaName, tableName).value;
      var n := RowCount(c.checkConstraints(schemaName, tableName)) + RowCount(c.defaultConstraints(schemaName, tableName));
      forall i :: 0 <= i < |rows| ==> ReadFrom(Constraints(c, schemaName, tableName)[n + i], rows[i], "UNIQUE")
  {
    ConcatAt3(Contributed(c.checkConstraints(schemaName, tableName), "CHECK"),
      Contributed(c.defaultConstraints(schemaName, tableName), "DEFAULT"),
      Contributed(c.uniqueConstraints(schemaName, tableName), "UNIQUE"));
  }

  function OfKind(kind: string): Constraint -> bool {
    (x: Constraint) => x.constraintType == kind
  }

  function KindRank(kind: string): int {
    if kind == "CHECK" then 0 else if kind == "DEFAULT" then 1 else 2
  }

  /** Picking one kind out of three single-kind lists. */
  lemma {:induction false} PickKind(a: seq<Constraint>, b: seq<Constraint>, u: seq<Constraint>,
                                    ka: string, kb: string, ku: string, kind: string)
    requires forall x :: x in a ==> x.constraintType == ka
    requires forall x :: x in b ==> x.constraintType == kb
    requires forall x :: x in u ==> x.constraintType == ku
    ensures Filter(a + b + u, OfKind(kind)) ==
      (if ka == kind then a else []) + (if kb == kind then b else []) + (if ku == kind then u else [])
  {
    FilterAppend(a + b, u, OfKind(kind));
    FilterAppend(a, b, OfKind(kind));
    if ka == kind { FilterAll(a, OfKind(kind)); } else { FilterNone(a, OfKind(kind)); }
    if kb == kind { FilterAll(b, OfKind(kind)); } else { FilterNone(b, OfKind(kind)); }
    if ku == kind { FilterAll(u, OfKind(kind)); } else { FilterNone(u, OfKind(kind)); }
  }

  /** Every constraint of a table comes from exactly the query of its kind,
      whatever the other two queries did. */
  lemma {:induction false} ConstraintsByKind(c: Catalog, s: string, t: string)
    ensures Filter(Constraints(c, s, t), OfKind("CHECK")) == Contributed(c.checkConstraints(s, t), "CHECK")
    ensures Filter(Constraints(c, s, t), OfKind("DEFAULT")) == Contributed(c.defaultConstraints(s, t), "DEFAULT")
    ensures Filter(Constraints(c, s, t), OfKind("UNIQUE")) == Contributed(c.uniqueConstraints(s, t), "UNIQUE")
  {
    var a := Contributed(c.checkConstraints(s, t), "CHECK");
    var b := Contributed(c.defaultConstraints(s, t), "DEFAULT");
    var u := Contributed(c.uniqueConstraints(s, t), "UNIQUE");
    assert "CHECK" != "DEFAULT" && "CHECK" != "UNIQUE" && "DEFAULT" != "UNIQUE" by {
      assert "CHECK"[0] == 'C' && "DEFAULT"[0] == 'D' && "UNIQUE"[0] == 'U';
    }
    PickKind(a, b, u, "CHECK", "DEFAULT", "UNIQUE", "CHECK");
    PickKind(a, b, u, "CHECK", "DEFAULT", "UNIQUE", "DEFAULT");
    PickKind(a, b, u, "CHECK", "DEFAULT", "UNIQUE", "UNIQUE");
    assert a + [] + [] == a;
    assert [] + b + [] == b;
    assert [] + [] + u == u;
  }

  /** The constraints come kind by kind: CHECK, then DEFAULT, then UNIQUE. */
  lemma {:induction false} ConstraintsKindOrder(c: Catalog, s: string, t: string)
    ensures forall i, j :: 0 <= i < j < |Constraints(c, s, t)| ==>
      KindRank(Constraints(c, s, t)[i].constraintType) <= KindRank(Constraints(c, s, t)[j].constraintType)
  {
    var a := Contributed(c.checkConstraints(s, t), "CHECK");
    var b := Contributed(c.defaultConstraints(s, t), "DEFAULT");
    var u := Contributed(c.uniqueConstraints(s, t), "UNIQUE");
    var r: seq<Constraint> := a + b + u;
    forall k | 0 <= k < |r|
      ensures KindRank(r[k].constraintType) == if k < |a| then 0 else if k < |a| + |b| then 1 else 2
    {
      if k < |a| {
        assert r[k] == a[k] && a[k] in a;
      } else if k < |a| + |b| {
        assert r[k] == b[k - |a|] && b[k - |a|] in b;
      } else {
        assert r[k] == u[k - |a| - |b|] && u[k - |a| - |b|] in u;
      }
    }
  }

  /** `extractTableInfo`: the column, primary-key, foreign-key and index
      queries must all succeed; the constraints never fail the table. */
  function ExtractTableInfo(c: Catalog, schemaName: string, tableName: string): (r: Result<Table, ExtractError>)
    ensures r.Success? <==>
      && c.columns(schemaName, tableName).Success?
      && c.primaryKeys(schemaName, tableName).Success?
      && c.foreignKeys(schemaName, tableName).Success?
      && c.indexes(schemaName, tableName).Success?
    ensures r.Success? ==>
      && r.value.schemaName == schemaName && r.value.tableName == tableName
      && r.value.columns == Map(c.columns(schemaName, tableName).value, ColumnOf)
      && r.value.primaryKeys == c.primaryKeys(schemaName, tableName).value
      && r.value.foreignKeys == c.foreignKeys(schemaName, tableName).value
      && r.value.indexes == GetIndexes(c.indexes(schemaName, tableName).value)
      && r.value.constraints == Constraints(c, schemaName, tableName)
  {
    var columnRows :- Run(c.columns(schemaName, tableName));
    var primaryKeys :- Run(c.primaryKeys(schemaName, tableName));
    var foreignKeys :- Run(c.foreignKeys(schemaName, tableName));
    var indexRows :- Run(c.indexes(schemaName, tableName));
    Success(Table(schemaName, tableName, Map(columnRows, ColumnOf), primaryKeys, foreignKeys,
      GetIndexes(indexRows), Constraints(c, schemaName, tableName)))
  }

  function FetchTable(c: Catalog): NameRow -> Result<Table, ExtractError> {
    (row: NameRow) => ExtractTableInfo(c, row.schemaName, row.name)
  }

  /** `extractAllTables`: the two enumeration queries must succeed; then
      each table is fetched and kept only if its fetch succeeds. */
  method ExtractAllTables(c: Catalog) returns (r: Result<seq<Table>, ExtractError>)
    ensures r.Failure? <==> c.tableCount.Failure? || c.tableList.Failure?
    ensures c.tableCount.Failure? ==> r == Failure(QueryFailed(c.tableCount.error))
    ensures r.Success? ==> r.value == Successes(c.tableList.value, FetchTable(c))
    ensures r.Success? ==> forall t :: t in r.value ==> NameRow(t.schemaName, t.tableName) in c.tableList.value
  {
    var _ :- Run(c.tableCount);
    var tables :- Run(c.tableList);
    var kept := CollectSuccesses(tables, FetchTable(c));
    forall t | t in kept
      ensures NameRow(t.schemaName, t.tableName) in tables
    {
      SuccessesMembers(tables, FetchTable(c), t);
    }
    return Success(kept);
  }

  // ---- views ----

  /** `getViewDependencies`: a failing query leaves the view without
      dependencies. */
  function Dependencies(c: Catalog, schemaName: string, viewName: string): (r: seq<Dependency>)
    ensures c.viewDependencies(schemaName, viewName).Success? ==> r == c.viewDependencies(schemaName, viewName).value
    ensures c.viewDependencies(schemaName, viewName).Failure? ==> r == []
  {
    match c.viewDependencies(schemaName, viewName)
    case Success(rows) => rows
    case Failure(_) => []
  }

  /** `extractViewInfo`: the first detail row describes the view; without
      one the view does not exist. */
  function ExtractViewInfo(c: Catalog, schemaName: string, viewName: string): (r: Result<View, ExtractError>)
    ensures r.Success? <==> c.viewDetails(schemaName, viewName).Success? && |c.viewDetails(schemaName, viewName).value| > 0
    ensures c.viewDetails(schemaName, viewName) == Success([]) ==> r == Failure(NotFound(schemaName, viewName))
    ensures r.Success? ==>
      var detail := c.viewDetails(schemaName, viewName).value[0];
      && r.value.schemaName == schemaName && r.value.viewName == viewName
      && (detail.definition.Some? ==> r.value.definition == detail.definition.value)
      && (detail.definition.None? ==> r.value.definition == "")
      && r.value.checkOption == detail.checkOption
      && (r.value.isUpdatable <==> detail.isUpdatable == "YES")
      && (c.viewDependencies(schemaName, viewName).Success? ==>
            r.value.dependencies == c.viewDependencies(schemaName, viewName).value)
      && (c.viewDependencies(schemaName, viewName).Failure? ==> r.value.dependencies == [])
  {
    var details :- Run(c.viewDetails(schemaName, viewName));
    if |details| == 0 then Failure(NotFound(schemaName, viewName))
    else
      var detail := details[0];
      Success(View(schemaName, viewName, detail.definition.GetOr(""), detail.checkOption,
        detail.isUpdatable == "YES", Dependencies(c, schemaName, viewName)))
  }

  function FetchView(c: Catalog): NameRow -> Result<View, ExtractError> {
    (row: NameRow) => ExtractViewInfo(c, row.schemaName, row.name)
  }

  /** `extractAllViews`. */
  method ExtractAllViews(c: Catalog) returns (r: Result<seq<View>, ExtractError>)
    ensures r.Failure? <==> c.viewList.Failure?
    ensures r.Success? ==> r.value == Successes(c.viewList.value, FetchView(c))
    ensures r.Success? ==> forall v :: v in r.value ==> NameRow(v.schemaName, v.viewName) in c.viewList.value
  {
    var views :- Run(c.viewList);
    var kept := CollectSuccesses(views, FetchView(c));
    forall v | v in kept
      ensures NameRow(v.schemaName, v.viewName) in views
    {
      SuccessesMembers(views, FetchView(c), v);
    }
    return Success(kept);
  }

  // ---- procedures ----

  /** `getProcedureParameters`: every field is copied from its row. It
      differs from the function reading of the same row only in keeping an
      empty name and in taking the output flag from the catalogue rather
      than from the parameter id. */
  function ProcedureParameter(row: ParameterRow): (p: Parameter)
    ensures p.parameterName == row.parameterName && p.parameterId == row.parameterId
    ensures p.dataType == row.dataType && p.maxLength == row.maxLength
    ensures p.precision == row.precision && p.scale == row.scale
    ensures p.isOutput == Some(row.isOutput) && p.hasDefault == Some(row.hasDefault)
    ensures p.defaultValue == row.defaultValue
    ensures p == FunctionParameter(row).(parameterName := row.parameterName, isOutput := Some(row.isOutput))
  {
    Parameter(row.parameterName, row.parameterId, row.dataType, row.maxLength, row.precision, row.scale,
      Some(row.isOutput), Some(row.hasDefault), row.defaultValue)
  }

  /** `extractProcedureInfo`: details and parameters must both be read, and
      a detail row must exist. */
  function ExtractProcedureInfo(c: Catalog, schemaName: string, procedureName: string)
    : (r: Result<Procedure, ExtractError>)
    ensures r.Success? <==>
      && c.procedureDetails(schemaName, procedureName).Success?
      && c.procedureParameters(schemaName, procedureName).Success?
      && |c.procedureDetails(schemaName, procedureName).value| > 0
    ensures r.Success? ==>
      var detail := c.procedureDetails(schemaName, procedureName).value[0];
      var rows := c.procedureParameters(schemaName, procedureName).value;
      && r.value.schemaName == schemaName && r.value.procedureName == procedureName
      && r.value.createDate == detail.createDate && r.value.modifyDate == detail.modifyDate
      && (detail.definition.None? ==> r.value.definition == "")
      && (detail.definition.Some? ==> r.value.definition == detail.definition.value)
      && r.value.parameters == Map(rows, ProcedureParameter)
  {
    var details :- Run(c.procedureDetails(schemaName, procedureName));
    var rows :- Run(c.procedureParameters(schemaName, procedureName));
    if |details| == 0 then Failure(NotFound(schemaName, procedureName))
    else
      var detail := details[0];
      Success(Procedure(schemaName, procedureName, detail.createDate, detail.modifyDate,
        detail.definition.GetOr(""), Map(rows, ProcedureParameter)))
  }

  function FetchProcedure(c: Catalog): NameRow -> Result<Procedure, ExtractError> {
    (row: NameRow) => ExtractProcedureInfo(c, row.schemaName, row.name)
  }

  /** `extractAllProcedures`. */
  method ExtractAllProcedures(c: Catalog) returns (r: Result<seq<Procedure>, ExtractError>)
    ensures r.Failure? <==> c.procedureList.Failure?
    ensures r.Success? ==> r.value == Successes(c.procedureList.value, FetchProcedure(c))
    ensures r.Success? ==> forall p :: p in r.value ==> NameRow(p.schemaName, p.procedureName) in c.procedureList.value
  {
    var procedures :- Run(c.procedureList);
    var kept := CollectSuccesses(procedures, FetchProcedure(c));
    forall p | p in kept
      ensures NameRow(p.schemaName, p.procedureName) in procedures
    {
      SuccessesMembers(procedures, FetchProcedure(c), p);
    }
    return Success(kept);
  }

  // ---- functions ----

  /** `getFunctionParameters`: the unnamed return value is called
      "RETURN_VALUE", and a parameter is an output exactly when it is the
      return value (parameter id 0), whatever the catalog's own flag says. */
  function FunctionParameter(row: ParameterRow): (p: Parameter)
    ensures p.parameterName != ""
    ensures row.parameterName == "" ==> p.parameterName == "RETURN_VALUE"
    ensures row.parameterName != "" ==> p.parameterName == row.parameterName
    ensures p.parameterId == row.parameterId
    ensures p.dataType == row.dataType && p.maxLength == row.maxLength
    ensures p.precision == row.precision && p.scale == row.scale
    ensures p.isOutput == Some(row.parameterId == 0) && p.hasDefault == Some(row.hasDefault)
    ensures p.defaultValue == row.defaultValue
  {
    Parameter(if row.parameterName == "" then "RETURN_VALUE" else row.parameterName, row.parameterId,
      row.dataType, row.maxLength, row.precision, row.scale, Some(row.parameterId == 0), Some(row.hasDefault),
      row.defaultValue)
  }

  /** `extractFunctionInfo`. */
  function ExtractFunctionInfo(c: Catalog, schemaName: string, functionName: string)
    : (r: Result<Function, ExtractError>)
    ensures r.Success? <==>
      && c.functionDetails(schemaName, functionName).Success?
      && c.functionParameters(schemaName, functionName).Success?
      && |c.functionDetails(schemaName, functionName).value| > 0
    ensures r.Success? ==>
      var detail := c.functionDetails(schemaName, functionName).value[0];
      var rows := c.functionParameters(schemaName, functionName).value;
      && r.value.schemaName == schemaName && r.value.functionName == functionName
      && r.value.functionType == detail.functionType
      && r.value.createDate == detail.createDate && r.value.modifyDate == detail.modifyDate
      && (detail.definition.None? ==> r.value.definition == "")
      && (detail.definition.Some? ==> r.value.definition == detail.definition.value)
      && r.value.parameters == Map(rows, FunctionParameter)
  {
    var details :- Run(c.functionDetails(schemaName, functionName));
    var rows :- Run(c.functionParameters(schemaName, functionName));
    if |details| == 0 then Failure(NotFound(schemaName, functionName))
    else
      var detail := details[0];
      Success(Function(schemaName, functionName, detail.functionType, detail.createDate, detail.modifyDate,
        detail.definition.GetOr(""), Map(rows, FunctionParameter)))
  }

  function FetchFunction(c: Catalog): NameRow -> Result<Function, ExtractError> {
    (row: NameRow) => ExtractFunctionInfo(c, row.schemaName, row.name)
  }

  /** `extractAllFunctions`. */
  method ExtractAllFunctions(c: Catalog) returns (r: Result<seq<Function>, ExtractError>)
    ensures r.Failure? <==> c.functionList.Failure?
    ensures r.Success? ==> r.value == Successes(c.functionList.value, FetchFunction(c))
    ensures r.Success? ==> forall f :: f in r.value ==> NameRow(f.schemaName, f.functionName) in c.functionList.value
  {
    var functions :- Run(c.functionList);
    var kept := CollectSuccesses(functions, FetchFunction(c));
    forall f | f in kept
      ensures NameRow(f.schemaName, f.functionName) in functions
    {
      SuccessesMembers(functions, FetchFunction(c), f);
    }
    return Success(kept);
  }

  // ---- the whole database ----

  /** `extractDatabaseMetadata`, with the four extractors run one after the
      other: a failing enumeration fails the whole snapshot. */
  method ExtractDatabaseMetadata(c: Catalog, serverName: string, databaseName: string, now: int)
    returns (r: Result<Metadata, ExtractError>)
    ensures r.Success? <==>
      c.tableCount.Success? && c.tableList.Success? && c.viewList.Success?
      && c.procedureList.Success? && c.functionList.Success?
    ensures r.Success? ==>
      && r.value.server == serverName && r.value.databaseName == databaseName && r.value.extractedAt == now
      && r.value.tables == Successes(c.tableList.value, FetchTable(c))
      && r.value.views == Successes(c.viewList.value, FetchView(c))
      && r.value.procedures == Successes(c.procedureList.value, FetchProcedure(c))
      && r.value.functions == Successes(c.functionList.value, FetchFunction(c))
  {
    var tables :- ExtractAllTables(c);
    var views :- ExtractAllViews(c);
    var procedures :- ExtractAllProcedures(c);
    var functions :- ExtractAllFunctions(c);
    return Success(Metadata(databaseName, serverName, tables, views, procedures, functions, now));
  }
}

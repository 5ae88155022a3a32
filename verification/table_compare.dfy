/** `TableComparer`: tables are matched by `schema.name`; within a matched
    pair, columns, indexes and constraints are matched by their lower-cased
    names and compared property by property. Primary and foreign keys are
    not compared. */
module TableCompare {
  import opened Wrappers
  import opened Text
  import opened Schema
  import opened Values
  import opened Seqs
  import opened Keyed
  import opened IndexOrder

  datatype ColumnModification = ColumnModification(columnName: string, changes: seq<PropertyChange>)
  datatype IndexModification = IndexModification(indexName: string, changes: seq<PropertyChange>)
  datatype ConstraintModification = ConstraintModification(constraintName: string, changes: seq<PropertyChange>)

  datatype TableModification = TableModification(
    tableName: string,
    schemaName: string,
    columnChanges: Changes<Column, ColumnModification>,
    indexChanges: Changes<Index, IndexModification>,
    constraintChanges: Changes<Constraint, ConstraintModification>)

  // ---- columns ----

  /** The properties that decide whether a column changed: type, default,
      character set and collation agree as text up to case and whitespace;
      sizes and nullability are equal. The ordinal position is not one of
      them. */
  predicate SameColumnShape(s: Column, t: Column) {
    CompareValues(VStr(s.dataType), VStr(t.dataType))
    && s.maxLength == t.maxLength && s.precision == t.precision && s.scale == t.scale
    && s.isNullable == t.isNullable
    && CompareValues(OptStr(s.defaultValue), OptStr(t.defaultValue))
    && CompareValues(OptStr(s.characterSet), OptStr(t.characterSet))
    && CompareValues(OptStr(s.collation), OptStr(t.collation))
  }

  /** The property list of `compareColumnProperties`, each name paired with
      the two columns' raw values. */
  function ColumnProperties(s: Column, t: Column): seq<PropertyChange> {
    [PropertyChange("dataType", VStr(s.dataType), VStr(t.dataType)),
     PropertyChange("maxLength", OptInt(s.maxLength), OptInt(t.maxLength)),
     PropertyChange("precision", OptInt(s.precision), OptInt(t.precision)),
     PropertyChange("scale", OptInt(s.scale), OptInt(t.scale)),
     PropertyChange("isNullable", VBool(s.isNullable), VBool(t.isNullable)),
     PropertyChange("defaultValue", OptStr(s.defaultValue), OptStr(t.defaultValue)),
     PropertyChange("characterSet", OptStr(s.characterSet), OptStr(t.characterSet)),
     PropertyChange("collation", OptStr(s.collation), OptStr(t.collation))]
  }

  /** `compareColumnProperties`: the eight properties in order, each reported
      with both raw values when `compareValues` rejects it. */
  function CompareColumnProperties(s: Column, t: Column): (r: seq<PropertyChange>)
    ensures r == Filter(ColumnProperties(s, t), Rejected)
    ensures r == [] <==> SameColumnShape(s, t)
    ensures |r| <= 8
  {
    ColumnPropertiesAccepted(s, t);
    PropertyLoop(ColumnProperties(s, t))
  }

  /** No entry of the column property list is rejected exactly when the
      columns have the same shape. */
  lemma {:induction false} ColumnPropertiesAccepted(s: Column, t: Column)
    ensures SameColumnShape(s, t) <==> forall i :: 0 <= i < |ColumnProperties(s, t)| ==>
      Accepted(ColumnProperties(s, t)[i])
  {
    var p := ColumnProperties(s, t);
    ColumnPropertyValues(s, t);
    IntAccepted(s.maxLength, t.maxLength);
    IntAccepted(s.precision, t.precision);
    IntAccepted(s.scale, t.scale);
    AllOf8(p, Accepted);
  }

  lemma {:induction false} ColumnPropertyValues(s: Column, t: Column)
    ensures ColumnProperties(s, t)[0] == PropertyChange("dataType", VStr(s.dataType), VStr(t.dataType))
    ensures ColumnProperties(s, t)[1] == PropertyChange("maxLength", OptInt(s.maxLength), OptInt(t.maxLength))
    ensures ColumnProperties(s, t)[2] == PropertyChange("precision", OptInt(s.precision), OptInt(t.precision))
    ensures ColumnProperties(s, t)[3] == PropertyChange("scale", OptInt(s.scale), OptInt(t.scale))
    ensures ColumnProperties(s, t)[4] == PropertyChange("isNullable", VBool(s.isNullable), VBool(t.isNullable))
    ensures ColumnProperties(s, t)[5] == PropertyChange("defaultValue", OptStr(s.defaultValue), OptStr(t.defaultValue))
    ensures ColumnProperties(s, t)[6] == PropertyChange("characterSet", OptStr(s.characterSet), OptStr(t.characterSet))
    ensures ColumnProperties(s, t)[7] == PropertyChange("collation", OptStr(s.collation), OptStr(t.collation))
  {
  }

  function ColumnKey(c: Column): string {
    Lower(c.columnName)
  }

  function CompareColumn(s: Column, t: Column): Option<ColumnModification> {
    var changes := CompareColumnProperties(s, t);
    if |changes| > 0 then Some(ColumnModification(s.columnName, changes)) else None
  }

  /** `compareColumns`. */
  function CompareColumns(source: seq<Column>, target: seq<Column>): (r: Changes<Column, ColumnModification>)
    ensures forall c :: c in r.added <==>
      Latest(target, ColumnKey, ColumnKey(c)) == Some(c) && Latest(source, ColumnKey, ColumnKey(c)).None?
    ensures forall c :: c in r.removed <==>
      Latest(source, ColumnKey, ColumnKey(c)) == Some(c) && Latest(target, ColumnKey, ColumnKey(c)).None?
    ensures forall m :: m in r.modified <==> exists c, d ::
      Latest(source, ColumnKey, ColumnKey(c)) == Some(c) && Latest(target, ColumnKey, ColumnKey(c)) == Some(d)
      && m == ColumnModification(c.columnName, CompareColumnProperties(c, d)) && m.changes != []
  {
    DiffByModified(source, target, ColumnKey, CompareColumn);
    DiffBy(source, target, ColumnKey, CompareColumn)
  }

  /** Comparing a column list with itself reports nothing. */
  lemma {:induction false} CompareColumnsSelf(cs: seq<Column>)
    ensures CompareColumns(cs, cs) == Changes([], [], [])
  {
    forall c | c in cs
      ensures CompareColumn(c, c).None?
    {
      ColumnShapeReflexive(c);
    }
    DiffBySelf(cs, ColumnKey, CompareColumn);
  }

  lemma {:induction false} ColumnShapeReflexive(c: Column)
    ensures SameColumnShape(c, c)
  {
    CompareValuesEquivalence(VStr(c.dataType), VStr(c.dataType), VStr(c.dataType));
    CompareValuesEquivalence(OptStr(c.defaultValue), OptStr(c.defaultValue), OptStr(c.defaultValue));
    CompareValuesEquivalence(OptStr(c.characterSet), OptStr(c.characterSet), OptStr(c.characterSet));
    CompareValuesEquivalence(OptStr(c.collation), OptStr(c.collation), OptStr(c.collation));
  }

  // ---- indexes ----

  /** The scalar properties of an index that decide whether it changed. */
  predicate SameIndexKind(s: Index, t: Index) {
    CompareValues(VStr(s.indexType), VStr(t.indexType))
    && s.isUnique == t.isUnique && s.isPrimaryKey == t.isPrimaryKey
  }

  /** The `columns` entry, when the column lists sorted by ordinal differ;
      it carries the sorted lists. */
  function ColumnsDiff(s: Index, t: Index): (r: seq<PropertyChange>)
    ensures r == [] <==> SameGroups(s.columns, t.columns)
  {
    SortColumnsEqualIff(s.columns, t.columns);
    var sa := SortColumns(s.columns);
    var sb := SortColumns(t.columns);
    if sa == sb then [] else [PropertyChange("columns", VCols(sa), VCols(sb))]
  }

  /** The property list of `compareIndexProperties`, each name paired with
      the two indexes' raw values. */
  function IndexScalarProperties(s: Index, t: Index): seq<PropertyChange> {
    [PropertyChange("indexType", VStr(s.indexType), VStr(t.indexType)),
     PropertyChange("isUnique", VBool(s.isUnique), VBool(t.isUnique)),
     PropertyChange("isPrimaryKey", VBool(s.isPrimaryKey), VBool(t.isPrimaryKey))]
  }

  /** Every entry an index comparison can report: the property list, then
      `columns` with both column lists sorted by ordinal. */
  function IndexProperties(s: Index, t: Index): seq<PropertyChange> {
    IndexScalarProperties(s, t)
    + [PropertyChange("columns", VCols(SortColumns(s.columns)), VCols(SortColumns(t.columns)))]
  }

  /** `compareIndexProperties`: the property loop, then the sorted column
      lists, each reported with both values when they disagree. */
  function CompareIndexProperties(s: Index, t: Index): (r: seq<PropertyChange>)
    ensures r == Filter(IndexProperties(s, t), Rejected)
    ensures r == [] <==> SameIndexKind(s, t) && SameGroups(s.columns, t.columns)
    ensures |r| <= 4
  {
    var columns := PropertyChange("columns", VCols(SortColumns(s.columns)), VCols(SortColumns(t.columns)));
    PropertyLoopStep(IndexScalarProperties(s, t), columns);
    IndexPropertiesAccepted(s, t);
    PropertyLoop(IndexScalarProperties(s, t)) + ColumnsDiff(s, t)
  }

  /** No entry of the index property list is rejected exactly when the
      indexes are of the same kind. */
  lemma {:induction false} IndexPropertiesAccepted(s: Index, t: Index)
    ensures SameIndexKind(s, t) <==> forall i :: 0 <= i < |IndexScalarProperties(s, t)| ==>
      Accepted(IndexScalarProperties(s, t)[i])
  {
    var p := IndexScalarProperties(s, t);
    assert p[0] == PropertyChange("indexType", VStr(s.indexType), VStr(t.indexType));
    AllOf3(p, Accepted);
  }

  function IndexKey(i: Index): string {
    Lower(i.indexName)
  }

  function CompareIndex(s: Index, t: Index): Option<IndexModification> {
    var changes := CompareIndexProperties(s, t);
    if |changes| > 0 then Some(IndexModification(s.indexName, changes)) else None
  }

  /** `compareIndexes`. */
  function CompareIndexes(source: seq<Index>, target: seq<Index>): (r: Changes<Index, IndexModification>)
    ensures forall i :: i in r.added <==>
      Latest(target, IndexKey, IndexKey(i)) == Some(i) && Latest(source, IndexKey, IndexKey(i)).None?
    ensures forall i :: i in r.removed <==>
      Latest(source, IndexKey, IndexKey(i)) == Some(i) && Latest(target, IndexKey, IndexKey(i)).None?
    ensures forall m :: m in r.modified <==> exists i, j ::
      Latest(source, IndexKey, IndexKey(i)) == Some(i) && Latest(target, IndexKey, IndexKey(i)) == Some(j)
      && m == IndexModification(i.indexName, CompareIndexProperties(i, j)) && m.changes != []
  {
    DiffByModified(source, target, IndexKey, CompareIndex);
    DiffBy(source, target, IndexKey, CompareIndex)
  }

  /** The catalog may list an index's columns in any order: the same columns
      under the same ordinals, with included columns in the same relative
      order, are no change. */
  lemma {:induction false} IndexColumnOrderIgnored(s: Index, t: Index)
    requires SameIndexKind(s, t)
    requires forall k :: AtOrdinal(s.columns, k) == AtOrdinal(t.columns, k)
    ensures CompareIndexProperties(s, t) == []
  {
  }

  /** Column names inside an index are compared exactly, unlike every other
      name: a column renamed only in letter case changes the index. */
  lemma {:induction false} IndexColumnNameCase(s: Index, t: Index)
    requires SameIndexKind(s, t)
    requires s.columns == [IndexColumn("ID", 1, false, false)]
    requires t.columns == [IndexColumn("id", 1, false, false)]
    ensures CompareIndexProperties(s, t)
      == [PropertyChange("columns", VCols(s.columns), VCols(t.columns))]
  {
    CaseOnlyColumnsDiff(s, t);
    SameKindNoScalarChanges(s, t);
  }

  lemma {:induction false} CaseOnlyColumnsDiff(s: Index, t: Index)
    requires s.columns == [IndexColumn("ID", 1, false, false)]
    requires t.columns == [IndexColumn("id", 1, false, false)]
    ensures ColumnsDiff(s, t) == [PropertyChange("columns", VCols(s.columns), VCols(t.columns))]
  {
    var a := s.columns;
    var b := t.columns;
    SingleColumnGroup(a[0]);
    SingleColumnGroup(b[0]);
    assert a[0].columnName[0] != b[0].columnName[0];
    assert AtOrdinal(a, 1) != AtOrdinal(b, 1);
    SortColumnsSorted(a);
    SortColumnsSorted(b);
  }

  lemma {:induction false} SameKindNoScalarChanges(s: Index, t: Index)
    requires SameIndexKind(s, t)
    ensures PropertyLoop(IndexScalarProperties(s, t)) == []
  {
    IndexPropertiesAccepted(s, t);
  }

  lemma {:induction false} SingleColumnGroup(c: IndexColumn)
    ensures AtOrdinal([c], c.keyOrdinal) == [c]
  {
    assert [c][1..] == [];
  }

  lemma {:induction false} IndexKindReflexive(i: Index)
    ensures SameIndexKind(i, i)
  {
    CompareValuesEquivalence(VStr(i.indexType), VStr(i.indexType), VStr(i.indexType));
  }

  // ---- constraints ----

  predicate SameConstraintShape(s: Constraint, t: Constraint) {
    CompareValues(VStr(s.constraintType), VStr(t.constraintType))
    && CompareValues(OptStr(s.definition), OptStr(t.definition))
    && CompareValues(OptStr(s.columnName), OptStr(t.columnName))
  }

  /** The property list of `compareConstraintProperties`, each name paired
      with the two constraints' raw values. */
  function ConstraintProperties(s: Constraint, t: Constraint): seq<PropertyChange> {
    [PropertyChange("constraintType", VStr(s.constraintType), VStr(t.constraintType)),
     PropertyChange("definition", OptStr(s.definition), OptStr(t.definition)),
     PropertyChange("columnName", OptStr(s.columnName), OptStr(t.columnName))]
  }

  /** `compareConstraintProperties`: the three properties in order, each
      reported with both raw values when `compareValues` rejects it. */
  function CompareConstraintProperties(s: Constraint, t: Constraint): (r: seq<PropertyChange>)
    ensures r == Filter(ConstraintProperties(s, t), Rejected)
    ensures r == [] <==> SameConstraintShape(s, t)
    ensures |r| <= 3
  {
    AllOf3(ConstraintProperties(s, t), Accepted);
    PropertyLoop(ConstraintProperties(s, t))
  }

  function ConstraintKey(c: Constraint): string {
    Lower(c.constraintName)
  }

  function CompareConstraint(s: Constraint, t: Constraint): Option<ConstraintModification> {
    var changes := CompareConstraintProperties(s, t);
    if |changes| > 0 then Some(ConstraintModification(s.constraintName, changes)) else None
  }

  /** `compareConstraints`. */
  function CompareConstraints(source: seq<Constraint>, target: seq<Constraint>): (r: Changes<Constraint, ConstraintModification>)
    ensures forall c :: c in r.added <==>
      Latest(target, ConstraintKey, ConstraintKey(c)) == Some(c) && Latest(source, ConstraintKey, ConstraintKey(c)).None?
    ensures forall c :: c in r.removed <==>
      Latest(source, ConstraintKey, ConstraintKey(c)) == Some(c) && Latest(target, ConstraintKey, ConstraintKey(c)).None?
    ensures forall m :: m in r.modified <==> exists c, d ::
      Latest(source, ConstraintKey, ConstraintKey(c)) == Some(c) && Latest(target, ConstraintKey, ConstraintKey(c)) == Some(d)
      && m == ConstraintModification(c.constraintName, CompareConstraintProperties(c, d)) && m.changes != []
  {
    DiffByModified(source, target, ConstraintKey, CompareConstraint);
    DiffBy(source, target, ConstraintKey, CompareConstraint)
  }

  lemma {:induction false} ConstraintShapeReflexive(c: Constraint)
    ensures SameConstraintShape(c, c)
  {
    CompareValuesEquivalence(VStr(c.constraintType), VStr(c.constraintType), VStr(c.constraintType));
    CompareValuesEquivalence(OptStr(c.definition), OptStr(c.definition), OptStr(c.definition));
    CompareValuesEquivalence(OptStr(c.columnName), OptStr(c.columnName), OptStr(c.columnName));
  }

  // ---- tables ----

  /** `hasTableChanges`: some list of some of the three parts is non-empty. */
  predicate HasTableChanges(m: TableModification): (r: bool)
    ensures !r <==> (m.columnChanges == Changes([], [], []) && m.indexChanges == Changes([], [], [])
                     && m.constraintChanges == Changes([], [], []))
  {
    m.columnChanges.HasChanges() || m.indexChanges.HasChanges() || m.constraintChanges.HasChanges()
  }

  /** `compareTableStructure`: the record names the source table. Primary
      and foreign keys are not consulted, so equal column, index and
      constraint lists leave nothing to report. */
  function CompareTableStructure(s: Table, t: Table): (r: TableModification)
    ensures r.tableName == s.tableName && r.schemaName == s.schemaName
    ensures s.columns == t.columns && s.indexes == t.indexes && s.constraints == t.constraints ==> !HasTableChanges(r)
  {
    CompareColumnsSelf(s.columns);
    CompareIndexesSelf(s.indexes);
    CompareConstraintsSelf(s.constraints);
    TableModification(s.tableName, s.schemaName,
      CompareColumns(s.columns, t.columns),
      CompareIndexes(s.indexes, t.indexes),
      CompareConstraints(s.constraints, t.constraints))
  }

  /** The key of the table maps: `schema.name`, case-sensitive. */
  function TableKey(t: Table): string {
    t.schemaName + "." + t.tableName
  }

  function CompareTable(s: Table, t: Table): Option<TableModification> {
    var m := CompareTableStructure(s, t);
    if HasTableChanges(m) then Some(m) else None
  }

  /** `compareTables`. */
  function CompareTables(source: seq<Table>, target: seq<Table>): (r: Changes<Table, TableModification>)
    ensures forall t :: t in r.added <==>
      Latest(target, TableKey, TableKey(t)) == Some(t) && Latest(source, TableKey, TableKey(t)).None?
    ensures forall t :: t in r.removed <==>
      Latest(source, TableKey, TableKey(t)) == Some(t) && Latest(target, TableKey, TableKey(t)).None?
    ensures forall m :: m in r.modified <==> exists s, t ::
      Latest(source, TableKey, TableKey(s)) == Some(s) && Latest(target, TableKey, TableKey(s)) == Some(t)
      && m == CompareTableStructure(s, t) && HasTableChanges(m)
  {
    DiffByModified(source, target, TableKey, CompareTable);
    DiffBy(source, target, TableKey, CompareTable)
  }

  lemma {:induction false} CompareIndexesSelf(xs: seq<Index>)
    ensures CompareIndexes(xs, xs) == Changes([], [], [])
  {
    forall i | i in xs
      ensures CompareIndex(i, i).None?
    {
      IndexKindReflexive(i);
    }
    DiffBySelf(xs, IndexKey, CompareIndex);
  }

  lemma {:induction false} CompareConstraintsSelf(xs: seq<Constraint>)
    ensures CompareConstraints(xs, xs) == Changes([], [], [])
  {
    forall c | c in xs
      ensures CompareConstraint(c, c).None?
    {
      ConstraintShapeReflexive(c);
    }
    DiffBySelf(xs, ConstraintKey, CompareConstraint);
  }

  /** Comparing a table list with itself reports nothing. */
  lemma {:induction false} CompareTablesSelf(xs: seq<Table>)
    ensures CompareTables(xs, xs) == Changes([], [], [])
  {
    forall t | t in xs
      ensures CompareTable(t, t).None?
    {
      CompareTableSelf(t);
    }
    DiffBySelf(xs, TableKey, CompareTable);
  }

  lemma {:induction false} CompareTableSelf(t: Table)
    ensures CompareTable(t, t).None?
  {
    CompareColumnsSelf(t.columns);
    CompareIndexesSelf(t.indexes);
    CompareConstraintsSelf(t.constraints);
  }

  /** Primary keys and foreign keys never make a table modified. */
  lemma {:induction false} TableKeysIgnored(s: Table, t: Table, pks: seq<PrimaryKey>, fks: seq<ForeignKey>)
    ensures CompareTableStructure(s.(primaryKeys := pks, foreignKeys := fks), t) == CompareTableStructure(s, t)
    ensures CompareTableStructure(s, t.(primaryKeys := pks, foreignKeys := fks)) == CompareTableStructure(s, t)
  {
  }

  /** The table key joins schema and name with a dot that either may
      contain, so table `c` of schema `a.b` and table `b.c` of schema `a`
      are taken for the same table. */
  lemma {:induction false} TableKeyCollision(s: Table, t: Table)
    requires s.schemaName == "a.b" && s.tableName == "c"
    requires t.schemaName == "a" && t.tableName == "b.c"
    ensures s != t
    ensures CompareTables([s], [t]).added == [] && CompareTables([s], [t]).removed == []
  {
    assert TableKey(s) == TableKey(t) == "a.b.c";
    assert |s.schemaName| != |t.schemaName|;
    assert Map([s], TableKey) == [TableKey(s)];
    assert Map([t], TableKey) == [TableKey(t)];
    DiffByNoAdded([s], [t], TableKey, CompareTable);
    DiffByNoRemoved([s], [t], TableKey, CompareTable);
  }
}

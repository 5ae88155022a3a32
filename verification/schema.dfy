/** The metadata snapshot of one database: tables with their columns, keys,
    indexes and constraints; views; stored procedures; user functions.
    Fields the catalog may leave null are `Option`s; dates are opaque
    timestamps. */
module Schema {
  import opened Wrappers

  datatype Column = Column(
    columnName: string,
    position: int,
    dataType: string,
    maxLength: Option<int>,
    precision: Option<int>,
    scale: Option<int>,
    isNullable: bool,
    defaultValue: Option<string>,
    characterSet: Option<string>,
    collation: Option<string>)

  datatype PrimaryKey = PrimaryKey(constraintName: string, columnName: string, keySequence: int)

  datatype ForeignKey = ForeignKey(
    constraintName: string,
    columnName: string,
    referencedSchema: string,
    referencedTable: string,
    referencedColumn: string,
    updateRule: string,
    deleteRule: string)

  datatype IndexColumn = IndexColumn(columnName: string, keyOrdinal: int, isDescending: bool, isIncluded: bool)

  datatype Index = Index(indexName: string, indexType: string, isUnique: bool, isPrimaryKey: bool, columns: seq<IndexColumn>)

  /** `constraintType` is one of "CHECK", "DEFAULT", "UNIQUE" in every
      snapshot the extractors build; it is kept as text because the
      comparison treats it as text. */
  datatype Constraint = Constraint(
    constraintName: string,
    constraintType: string,
    definition: Option<string>,
    columnName: Option<string>)

  datatype Table = Table(
    schemaName: string,
    tableName: string,
    columns: seq<Column>,
    primaryKeys: seq<PrimaryKey>,
    foreignKeys: seq<ForeignKey>,
    indexes: seq<Index>,
    constraints: seq<Constraint>)

  datatype Dependency = Dependency(referencedSchema: string, referencedObject: string, referencedType: string)

  datatype View = View(
    schemaName: string,
    viewName: string,
    definition: string,
    checkOption: Option<string>,
    isUpdatable: bool,
    dependencies: seq<Dependency>)

  /** A catalog value of SQL type `sql_variant` (a parameter's default). */
  datatype Variant = VarNull | VarText(text: string) | VarNumber(number: int)

  datatype Parameter = Parameter(
    parameterName: string,
    parameterId: int,
    dataType: string,
    maxLength: Option<int>,
    precision: Option<int>,
    scale: Option<int>,
    isOutput: Option<bool>,
    hasDefault: Option<bool>,
    defaultValue: Variant)

  datatype Procedure = Procedure(
    schemaName: string,
    procedureName: string,
    createDate: int,
    modifyDate: int,
    definition: string,
    parameters: seq<Parameter>)

  datatype Function = Function(
    schemaName: string,
    functionName: string,
    functionType: string,
    createDate: int,
    modifyDate: int,
    definition: string,
    parameters: seq<Parameter>)

  /** One side of a comparison. */
  datatype Metadata = Metadata(
    databaseName: string,
    server: string,
    tables: seq<Table>,
    views: seq<View>,
    procedures: seq<Procedure>,
    functions: seq<Function>,
    extractedAt: int)

  /** How to log in. The command line may leave `type` unset or set it to
      any text, so `authType` is optional free text. */
  datatype Authentication = Authentication(authType: Option<string>, username: Option<string>, password: Option<string>)

  /** Where one side of a comparison lives. */
  datatype DatabaseConfig = DatabaseConfig(server: string, database: string, authentication: Authentication)
}

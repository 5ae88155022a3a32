/** `ProcedureComparer` and `FunctionComparer`, which differ only in the
    entity they read: routines are matched by `schema.name` and compared on
    their definition text and their parameter lists. Parameters are matched
    by lower-cased name. */
module RoutineCompare {
  import opened Wrappers
  import opened Text
  import opened Schema
  import opened Values
  import opened Seqs
  import opened Keyed
  import opened ViewCompare

  datatype ParameterModification = ParameterModification(parameterName: string, changes: seq<PropertyChange>)

  /** The record both comparers build; `name` is `procedureName` or
      `functionName`. */
  datatype RoutineModification = RoutineModification(
    name: string,
    schemaName: string,
    definitionChanged: bool,
    parametersChanged: bool,
    sourceDefinition: string,
    targetDefinition: string,
    parameterChanges: Changes<Parameter, ParameterModification>)

  // ---- parameters ----

  /** The properties that decide whether a parameter changed. Its ordinal
      (`parameterId`) is not one of them. */
  predicate SameParameterShape(s: Parameter, t: Parameter) {
    CompareValues(VStr(s.dataType), VStr(t.dataType))
    && s.maxLength == t.maxLength && s.precision == t.precision && s.scale == t.scale
    && s.isOutput == t.isOutput && s.hasDefault == t.hasDefault
    && CompareValues(VariantValue(s.defaultValue), VariantValue(t.defaultValue))
  }

  /** The property list of `compareParameterProperties`, each name paired
      with the two parameters' raw values. */
  function ParameterProperties(s: Parameter, t: Parameter): seq<PropertyChange> {
    [PropertyChange("dataType", VStr(s.dataType), VStr(t.dataType)),
     PropertyChange("maxLength", OptInt(s.maxLength), OptInt(t.maxLength)),
     PropertyChange("precision", OptInt(s.precision), OptInt(t.precision)),
     PropertyChange("scale", OptInt(s.scale), OptInt(t.scale)),
     PropertyChange("isOutput", OptBool(s.isOutput), OptBool(t.isOutput)),
     PropertyChange("hasDefault", OptBool(s.hasDefault), OptBool(t.hasDefault)),
     PropertyChange("defaultValue", VariantValue(s.defaultValue), VariantValue(t.defaultValue))]
  }

  /** `compareParameterProperties`: the seven properties in order, each
      reported with both raw values when `compareValues` rejects it. */
  function CompareParameterProperties(s: Parameter, t: Parameter): (r: seq<PropertyChange>)
    ensures r == Filter(ParameterProperties(s, t), Rejected)
    ensures r == [] <==> SameParameterShape(s, t)
    ensures |r| <= 7
  {
    ParameterPropertiesAccepted(s, t);
    PropertyLoop(ParameterProperties(s, t))
  }

  /** No entry of the parameter property list is rejected exactly when the
      parameters have the same shape. */
  lemma {:induction false} ParameterPropertiesAccepted(s: Parameter, t: Parameter)
    ensures SameParameterShape(s, t) <==> forall i :: 0 <= i < |ParameterProperties(s, t)| ==>
      Accepted(ParameterProperties(s, t)[i])
  {
    var p := ParameterProperties(s, t);
    ParameterPropertyValues(s, t);
    IntAccepted(s.maxLength, t.maxLength);
    IntAccepted(s.precision, t.precision);
    IntAccepted(s.scale, t.scale);
    BoolAccepted(s.isOutput, t.isOutput);
    BoolAccepted(s.hasDefault, t.hasDefault);
    AllOf7(p, Accepted);
  }

  lemma {:induction false} ParameterPropertyValues(s: Parameter, t: Parameter)
    ensures ParameterProperties(s, t)[0] == PropertyChange("dataType", VStr(s.dataType), VStr(t.dataType))
    ensures ParameterProperties(s, t)[1] == PropertyChange("maxLength", OptInt(s.maxLength), OptInt(t.maxLength))
    ensures ParameterProperties(s, t)[2] == PropertyChange("precision", OptInt(s.precision), OptInt(t.precision))
    ensures ParameterProperties(s, t)[3] == PropertyChange("scale", OptInt(s.scale), OptInt(t.scale))
    ensures ParameterProperties(s, t)[4] == PropertyChange("isOutput", OptBool(s.isOutput), OptBool(t.isOutput))
    ensures ParameterProperties(s, t)[5] == PropertyChange("hasDefault", OptBool(s.hasDefault), OptBool(t.hasDefault))
    ensures ParameterProperties(s, t)[6] == PropertyChange("defaultValue", VariantValue(s.defaultValue), VariantValue(t.defaultValue))
  {
  }

  function ParameterKey(p: Parameter): string {
    Lower(p.parameterName)
  }

  function CompareParameter(s: Parameter, t: Parameter): Option<ParameterModification> {
    var changes := CompareParameterProperties(s, t);
    if |changes| > 0 then Some(ParameterModification(s.parameterName, changes)) else None
  }

  /** `compareParameters`. */
  function CompareParameters(source: seq<Parameter>, target: seq<Parameter>): (r: Changes<Parameter, ParameterModification>)
    ensures forall p :: p in r.added <==>
      Latest(target, ParameterKey, ParameterKey(p)) == Some(p) && Latest(source, ParameterKey, ParameterKey(p)).None?
    ensures forall p :: p in r.removed <==>
      Latest(source, ParameterKey, ParameterKey(p)) == Some(p) && Latest(target, ParameterKey, ParameterKey(p)).None?
    ensures forall m :: m in r.modified <==> exists p, q ::
      Latest(source, ParameterKey, ParameterKey(p)) == Some(p) && Latest(target, ParameterKey, ParameterKey(p)) == Some(q)
      && m == ParameterModification(p.parameterName, CompareParameterProperties(p, q)) && m.changes != []
  {
    DiffByModified(source, target, ParameterKey, CompareParameter);
    DiffBy(source, target, ParameterKey, CompareParameter)
  }

  lemma {:induction false} ParameterShapeReflexive(p: Parameter)
    ensures SameParameterShape(p, p)
  {
    CompareValuesEquivalence(VStr(p.dataType), VStr(p.dataType), VStr(p.dataType));
    CompareValuesEquivalence(VariantValue(p.defaultValue), VariantValue(p.defaultValue), VariantValue(p.defaultValue));
  }

  lemma {:induction false} CompareParametersSelf(xs: seq<Parameter>)
    ensures CompareParameters(xs, xs) == Changes([], [], [])
  {
    forall p | p in xs
      ensures CompareParameter(p, p).None?
    {
      ParameterShapeReflexive(p);
    }
    DiffBySelf(xs, ParameterKey, CompareParameter);
  }

  // ---- routines ----

  /** `compareProcedureDetails` / `compareFunctionDetails` on the parts they
      read. */
  function CompareRoutineDetails(name: string, schemaName: string, sourceDefinition: string, targetDefinition: string,
                                 sourceParameters: seq<Parameter>, targetParameters: seq<Parameter>): (r: RoutineModification)
    ensures r.definitionChanged <==> LowerWords(Words(sourceDefinition)) != LowerWords(Words(targetDefinition))
    ensures r.parametersChanged <==> r.parameterChanges.HasChanges()
    ensures r.sourceDefinition == sourceDefinition && r.targetDefinition == targetDefinition
  {
    var changes := CompareParameters(sourceParameters, targetParameters);
    RoutineModification(name, schemaName, DefinitionChanged(sourceDefinition, targetDefinition),
      changes.HasChanges(), sourceDefinition, targetDefinition, changes)
  }

  /** A routine modification is kept when its definition or its parameters
      changed. */
  function Reported(m: RoutineModification): Option<RoutineModification> {
    if m.definitionChanged || m.parametersChanged then Some(m) else None
  }

  /** `compareProcedureDetails`: the record names the source procedure and
      carries both raw definitions; equal parameter lists never count as a
      parameter change. */
  function CompareProcedureDetails(s: Procedure, t: Procedure): (r: RoutineModification)
    ensures r.name == s.procedureName && r.schemaName == s.schemaName
    ensures r.definitionChanged <==> LowerWords(Words(s.definition)) != LowerWords(Words(t.definition))
    ensures r.sourceDefinition == s.definition && r.targetDefinition == t.definition
    ensures r.parameterChanges == CompareParameters(s.parameters, t.parameters)
    ensures r.parametersChanged <==> r.parameterChanges.HasChanges()
    ensures s.parameters == t.parameters ==> !r.parametersChanged
  {
    CompareParametersSelf(s.parameters);
    CompareRoutineDetails(s.procedureName, s.schemaName, s.definition, t.definition, s.parameters, t.parameters)
  }

  function ProcedureKey(p: Procedure): string {
    p.schemaName + "." + p.procedureName
  }

  function CompareProcedure(s: Procedure, t: Procedure): Option<RoutineModification> {
    Reported(CompareProcedureDetails(s, t))
  }

  /** `compareProcedures`. */
  function CompareProcedures(source: seq<Procedure>, target: seq<Procedure>): (r: Changes<Procedure, RoutineModification>)
    ensures forall p :: p in r.added <==>
      Latest(target, ProcedureKey, ProcedureKey(p)) == Some(p) && Latest(source, ProcedureKey, ProcedureKey(p)).None?
    ensures forall p :: p in r.removed <==>
      Latest(source, ProcedureKey, ProcedureKey(p)) == Some(p) && Latest(target, ProcedureKey, ProcedureKey(p)).None?
    ensures forall m :: m in r.modified <==> exists p, q ::
      Latest(source, ProcedureKey, ProcedureKey(p)) == Some(p) && Latest(target, ProcedureKey, ProcedureKey(p)) == Some(q)
      && m == CompareProcedureDetails(p, q) && (m.definitionChanged || m.parametersChanged)
  {
    DiffByModified(source, target, ProcedureKey, CompareProcedure);
    DiffBy(source, target, ProcedureKey, CompareProcedure)
  }

  /** `compareFunctionDetails`, the same rule for functions. */
  function CompareFunctionDetails(s: Function, t: Function): (r: RoutineModification)
    ensures r.name == s.functionName && r.schemaName == s.schemaName
    ensures r.definitionChanged <==> LowerWords(Words(s.definition)) != LowerWords(Words(t.definition))
    ensures r.sourceDefinition == s.definition && r.targetDefinition == t.definition
    ensures r.parameterChanges == CompareParameters(s.parameters, t.parameters)
    ensures r.parametersChanged <==> r.parameterChanges.HasChanges()
    ensures s.parameters == t.parameters ==> !r.parametersChanged
  {
    CompareParametersSelf(s.parameters);
    CompareRoutineDetails(s.functionName, s.schemaName, s.definition, t.definition, s.parameters, t.parameters)
  }

  function FunctionKey(f: Function): string {
    f.schemaName + "." + f.functionName
  }

  function CompareFunction(s: Function, t: Function): Option<RoutineModification> {
    Reported(CompareFunctionDetails(s, t))
  }

  /** `compareFunctions`. */
  function CompareFunctions(source: seq<Function>, target: seq<Function>): (r: Changes<Function, RoutineModification>)
    ensures forall f :: f in r.added <==>
      Latest(target, FunctionKey, FunctionKey(f)) == Some(f) && Latest(source, FunctionKey, FunctionKey(f)).None?
    ensures forall f :: f in r.removed <==>
      Latest(source, FunctionKey, FunctionKey(f)) == Some(f) && Latest(target, FunctionKey, FunctionKey(f)).None?
    ensures forall m :: m in r.modified <==> exists f, g ::
      Latest(source, FunctionKey, FunctionKey(f)) == Some(f) && Latest(target, FunctionKey, FunctionKey(f)) == Some(g)
      && m == CompareFunctionDetails(f, g) && (m.definitionChanged || m.parametersChanged)
  {
    DiffByModified(source, target, FunctionKey, CompareFunction);
    DiffBy(source, target, FunctionKey, CompareFunction)
  }

  /** A routine compared with itself is not reported. */
  lemma {:induction false} RoutineSelf(name: string, schemaName: string, definition: string, parameters: seq<Parameter>)
    ensures Reported(CompareRoutineDetails(name, schemaName, definition, definition, parameters, parameters)).None?
  {
    CompareParametersSelf(parameters);
  }

  lemma {:induction false} CompareProceduresSelf(xs: seq<Procedure>)
    ensures CompareProcedures(xs, xs) == Changes([], [], [])
  {
    forall p | p in xs
      ensures CompareProcedure(p, p).None?
    {
      RoutineSelf(p.procedureName, p.schemaName, p.definition, p.parameters);
    }
    DiffBySelf(xs, ProcedureKey, CompareProcedure);
  }

  lemma {:induction false} CompareFunctionsSelf(xs: seq<Function>)
    ensures CompareFunctions(xs, xs) == Changes([], [], [])
  {
    forall f | f in xs
      ensures CompareFunction(f, f).None?
    {
      RoutineSelf(f.functionName, f.schemaName, f.definition, f.parameters);
    }
    DiffBySelf(xs, FunctionKey, CompareFunction);
  }

  /** Creation and modification dates are extracted but not compared: a
      procedure that was only re-created is not modified. */
  lemma {:induction false} ProcedureDatesIgnored(p: Procedure, createDate: int, modifyDate: int)
    ensures CompareProcedure(p, p.(createDate := createDate, modifyDate := modifyDate)).None?
  {
    RoutineSelf(p.procedureName, p.schemaName, p.definition, p.parameters);
  }

  /** A function's type and dates are not compared either. */
  lemma {:induction false} FunctionTypeIgnored(f: Function, functionType: string, createDate: int, modifyDate: int)
    ensures CompareFunction(f, f.(functionType := functionType, createDate := createDate, modifyDate := modifyDate)).None?
  {
    RoutineSelf(f.functionName, f.schemaName, f.definition, f.parameters);
  }

  /** Parameters are matched by name, not position: renumbering them is no
      change. */
  lemma {:induction false} ParameterIdIgnored(s: Parameter, t: Parameter, id: int)
    ensures CompareParameterProperties(s.(parameterId := id), t) == CompareParameterProperties(s, t)
  {
  }
}

/** The equality rule every comparer uses (`BaseComparer`): whitespace
    normalisation, the loose `compareValues` predicate, and property-change
    records. */
module Values {
  import opened Wrappers
  import opened Text
  import opened Schema
  import opened Seqs

  /** A property value as the comparers see it: JavaScript `null`/`undefined`,
      a string, a number, a boolean, or an index's column array. */
  datatype Value = VNull | VStr(s: string) | VInt(i: int) | VBool(b: bool) | VCols(cols: seq<IndexColumn>)

  function OptStr(o: Option<string>): Value {
    match o
    case None => VNull
    case Some(s) => VStr(s)
  }

  function OptInt(o: Option<int>): Value {
    match o
    case None => VNull
    case Some(n) => VInt(n)
  }

  function OptBool(o: Option<bool>): Value {
    match o
    case None => VNull
    case Some(b) => VBool(b)
  }

  function VariantValue(v: Variant): Value {
    match v
    case VarNull => VNull
    case VarText(t) => VStr(t)
    case VarNumber(n) => VInt(n)
  }

  /** `normalizeString`: absent or empty text becomes "", anything else is
      trimmed and its whitespace runs become single spaces. */
  function NormalizeString(value: Option<string>): (r: string)
    ensures Trimmed(r) && Collapsed(r)
    ensures value.None? ==> r == ""
    ensures value.Some? ==> Words(r) == Words(value.value)
  {
    match value
    case None => ""
    case Some(s) =>
      NormalizeIsJoinOfWords(s);
      WordsOfJoinSpace(Words(s));
      if s == "" then WordsNone(s); "" else Normalize(s)
  }

  /** `compareValues`: absent equals only absent; two strings are equal when
      they agree after normalisation and lower-casing; anything else is
      strict equality, so values of different kinds never match. */
  predicate CompareValues(source: Value, target: Value): (r: bool)
    ensures !source.VStr? || !target.VStr? ==> (r <==> source == target)
  {
    if source.VNull? then target.VNull?
    else if target.VNull? then false
    else if source.VStr? && target.VStr? then
      Lower(NormalizeString(Some(source.s))) == Lower(NormalizeString(Some(target.s)))
    else source == target
  }

  /** `createPropertyChange`. */
  datatype PropertyChange = PropertyChange(property: string, sourceValue: Value, targetValue: Value)

  /** One step of the property loop of every comparer: a change carrying the
      raw values when `compareValues` rejects them, nothing otherwise. */
  function PropertyDiff(property: string, source: Value, target: Value): (r: seq<PropertyChange>)
    ensures r == [] <==> CompareValues(source, target)
    ensures forall c :: c in r ==> c == PropertyChange(property, source, target)
  {
    if CompareValues(source, target) then [] else [PropertyChange(property, source, target)]
  }

  /** A property entry (its name with the source and the target value) whose
      values `compareValues` accepts as equal. */
  predicate Accepted(c: PropertyChange) {
    CompareValues(c.sourceValue, c.targetValue)
  }

  /** An entry the property loop reports. */
  predicate Rejected(c: PropertyChange) {
    !Accepted(c)
  }

  /** The property loop of every comparer (`for (const prop of properties)`):
      a change for each entry `compareValues` rejects, carrying the property
      name and both raw values, in list order. */
  function PropertyLoop(props: seq<PropertyChange>): (r: seq<PropertyChange>)
    ensures r == Filter(props, Rejected)
    ensures r == [] <==> forall i :: 0 <= i < |props| ==> Accepted(props[i])
  {
    FilterEmpty(props, Rejected);
    if |props| == 0 then []
    else PropertyDiff(props[0].property, props[0].sourceValue, props[0].targetValue) + PropertyLoop(props[1..])
  }

  /** One more entry at the end of a property list: its change, if any,
      comes after those for the entries before it. */
  lemma {:induction false} PropertyLoopStep(props: seq<PropertyChange>, c: PropertyChange)
    ensures Filter(props + [c], Rejected) == Filter(props, Rejected) + PropertyDiff(c.property, c.sourceValue, c.targetValue)
  {
    FilterAppend(props, [c], Rejected);
    assert [c][1..] == [];
  }

  lemma {:induction false} NormalizeStringAbsent()
    ensures NormalizeString(None) == ""
    ensures NormalizeString(Some("")) == ""
  {
  }

  lemma {:induction false} NormalizeStringIdempotent(value: Option<string>)
    ensures NormalizeString(Some(NormalizeString(value))) == NormalizeString(value)
  {
    if value.Some? && value.value != "" {
      NormalizeIdempotent(value.value);
    }
  }

  /** Absent matches absent and nothing else, in either argument order. */
  lemma {:induction false} CompareValuesAbsent(v: Value)
    ensures CompareValues(VNull, v) <==> v == VNull
    ensures CompareValues(v, VNull) <==> v == VNull
  {
  }

  lemma {:induction false} NormalizeStringSome(a: string)
    ensures NormalizeString(Some(a)) == Normalize(a)
  {
    if a == "" {
      assert Trim(a) == "";
    }
  }

  /** Two strings are equal exactly when their words agree up to ASCII case:
      only whitespace that is already there is collapsed. */
  lemma {:induction false} CompareStrings(a: string, b: string)
    ensures CompareValues(VStr(a), VStr(b)) <==> LowerWords(Words(a)) == LowerWords(Words(b))
  {
    NormalizeStringSome(a);
    NormalizeStringSome(b);
    LowerNormalizeEqualIff(a, b);
  }

  /** Two optional numbers are accepted exactly when they are equal. */
  lemma {:induction false} IntAccepted(a: Option<int>, b: Option<int>)
    ensures CompareValues(OptInt(a), OptInt(b)) <==> a == b
  {
  }

  /** Two optional flags are accepted exactly when they are equal. */
  lemma {:induction false} BoolAccepted(a: Option<bool>, b: Option<bool>)
    ensures CompareValues(OptBool(a), OptBool(b)) <==> a == b
  {
  }

  /** `compareValues` is an equivalence relation. */
  lemma {:induction false} CompareValuesEquivalence(a: Value, b: Value, c: Value)
    ensures CompareValues(a, a)
    ensures CompareValues(a, b) ==> CompareValues(b, a)
    ensures CompareValues(a, b) && CompareValues(b, c) ==> CompareValues(a, c)
  {
  }

  /** No coercion between kinds: the number 1 differs from the text "1". */
  lemma {:induction false} CompareValuesNoCoercion()
    ensures !CompareValues(VInt(1), VStr("1"))
    ensures !CompareValues(VBool(true), VInt(1))
  {
  }

  lemma {:induction false} LowerSelect()
    ensures LowerWords(["SELECT", "a"]) == LowerWords(["select", "a"])
  {
    assert Lower("SELECT") == "select";
    assert Lower("select") == "select";
  }

  lemma {:induction false} WordsOfSelectSpaces()
    ensures Words("SELECT  a") == ["SELECT", "a"]
  {
    assert "SELECT  a" == "SELECT" + "  " + "a";
    WordsOfTwoWords("SELECT", "  ", "a");
  }

  lemma {:induction false} WordsOfSelectNewline()
    ensures Words("select\na") == ["select", "a"]
  {
    assert "select\na" == "select" + "\n" + "a";
    WordsOfTwoWords("select", "\n", "a");
  }

  /** A run of whitespace and letter case are ignored. */
  lemma {:induction false} CompareValuesIgnoresCaseAndRuns()
    ensures CompareValues(VStr("SELECT  a"), VStr("select\na"))
  {
    WordsOfSelectSpaces();
    WordsOfSelectNewline();
    LowerSelect();
    CompareStrings("SELECT  a", "select\na");
  }

  lemma {:induction false} WordsOfCommaJoined()
    ensures Words("a,b") == ["a,b"]
  {
    assert NoSpace("a,b");
    WordsOfWord("a,b");
  }

  lemma {:induction false} WordsOfCommaSpaced()
    ensures Words("a, b") == ["a,", "b"]
  {
    assert "a, b" == "a," + " " + "b";
    assert NoSpace("a,") && NoSpace("b") && AllSpace(" ");
    WordsOfTwoWords("a,", " ", "b");
  }

  /** Whitespace is never inserted where there was none. */
  lemma {:induction false} CompareValuesKeepsWordBoundaries()
    ensures !CompareValues(VStr("a,b"), VStr("a, b"))
  {
    WordsOfCommaJoined();
    WordsOfCommaSpaced();
    assert |LowerWords(Words("a,b"))| == 1;
    CompareStrings("a,b", "a, b");
  }
}

/** `ViewComparer`: views are matched by `schema.name` and compared on their
    definition text alone. */
module ViewCompare {
  import opened Wrappers
  import opened Text
  import opened Schema
  import opened Values
  import opened Seqs
  import opened Keyed

  datatype ViewModification = ViewModification(
    viewName: string,
    schemaName: string,
    definitionChanged: bool,
    sourceDefinition: string,
    targetDefinition: string)

  /** Whether two definitions differ once normalised: both sides are passed
      through `normalizeString` before `compareValues` normalises them again. */
  function DefinitionChanged(source: string, target: string): (r: bool)
    ensures r <==> LowerWords(Words(source)) != LowerWords(Words(target))
  {
    var s := NormalizeString(Some(source));
    var t := NormalizeString(Some(target));
    CompareStrings(s, t);
    !CompareValues(VStr(s), VStr(t))
  }

  /** Normalising first changes nothing: the outcome is `compareValues` on the
      raw definitions. */
  lemma {:induction false} DefinitionChangedRaw(source: string, target: string)
    ensures DefinitionChanged(source, target) <==> !CompareValues(VStr(source), VStr(target))
  {
    CompareStrings(source, target);
  }

  /** `compareViewDefinitions`: the record keeps the raw definitions. */
  function CompareViewDefinitions(s: View, t: View): (r: ViewModification)
    ensures r.definitionChanged <==> LowerWords(Words(s.definition)) != LowerWords(Words(t.definition))
    ensures r.sourceDefinition == s.definition && r.targetDefinition == t.definition
    ensures r.viewName == s.viewName && r.schemaName == s.schemaName
  {
    ViewModification(s.viewName, s.schemaName, DefinitionChanged(s.definition, t.definition), s.definition, t.definition)
  }

  function ViewKey(v: View): string {
    v.schemaName + "." + v.viewName
  }

  function CompareView(s: View, t: View): Option<ViewModification> {
    var m := CompareViewDefinitions(s, t);
    if m.definitionChanged then Some(m) else None
  }

  /** `compareViews`. */
  function CompareViews(source: seq<View>, target: seq<View>): (r: Changes<View, ViewModification>)
    ensures forall v :: v in r.added <==>
      Latest(target, ViewKey, ViewKey(v)) == Some(v) && Latest(source, ViewKey, ViewKey(v)).None?
    ensures forall v :: v in r.removed <==>
      Latest(source, ViewKey, ViewKey(v)) == Some(v) && Latest(target, ViewKey, ViewKey(v)).None?
    ensures forall m :: m in r.modified <==> exists s, t ::
      Latest(source, ViewKey, ViewKey(s)) == Some(s) && Latest(target, ViewKey, ViewKey(s)) == Some(t)
      && m == CompareViewDefinitions(s, t) && m.definitionChanged
  {
    DiffByModified(source, target, ViewKey, CompareView);
    DiffBy(source, target, ViewKey, CompareView)
  }

  lemma {:induction false} CompareViewsSelf(xs: seq<View>)
    ensures CompareViews(xs, xs) == Changes([], [], [])
  {
    DiffBySelf(xs, ViewKey, CompareView);
  }

  /** Check option, updatability and dependencies are extracted but never
      compared: a view that differs only in them is not modified. */
  lemma {:induction false} ViewMetadataIgnored(v: View, checkOption: Option<string>, isUpdatable: bool, deps: seq<Dependency>)
    ensures CompareViews([v], [v.(checkOption := checkOption, isUpdatable := isUpdatable, dependencies := deps)])
      == Changes([], [], [])
  {
    var w := v.(checkOption := checkOption, isUpdatable := isUpdatable, dependencies := deps);
    assert Map([v], ViewKey) == [ViewKey(v)];
    assert Map([w], ViewKey) == [ViewKey(w)];
    DiffByNoAdded([v], [w], ViewKey, CompareView);
    DiffByNoRemoved([v], [w], ViewKey, CompareView);
    forall x | Latest([v], ViewKey, ViewKey(x)) == Some(x)
      ensures Partner([w], ViewKey, CompareView, x).None?
    {
      assert x == v;
    }
    DiffByNoModified([v], [w], ViewKey, CompareView);
  }
}

/** The matching scheme shared by every comparer: both sides are loaded into
    a `Map` keyed by a name; target entries whose key the source lacks are
    added, source entries whose key the target lacks are removed, and each
    source entry with a partner is compared and kept when the comparison
    reports a modification. */
module Keyed {
  import opened Wrappers
  import opened Seqs
  import opened Assoc

  datatype Changes<T, M> = Changes(added: seq<T>, removed: seq<T>, modified: seq<M>) {

    /** Some list is non-empty (`hasParameterChanges`, the table check). */
    predicate HasChanges() {
      |added| > 0 || |removed| > 0 || |modified| > 0
    }
  }

  /** The element a `Map` keyed by `key` keeps under `k`: the last element of
      `xs` with that key. */
  function Latest<T, K(==)>(xs: seq<T>, key: T -> K, k: K): (r: Option<T>)
    ensures r.Some? ==> r.value in xs && key(r.value) == k
    ensures r.None? <==> k !in Map(xs, key)
  {
    if |xs| == 0 then None
    else if key(xs[|xs| - 1]) == k then Some(xs[|xs| - 1])
    else
      var front := xs[..|xs| - 1];
      assert Map(xs, key) == Map(front, key) + [key(xs[|xs| - 1])];
      Latest(front, key, k)
  }

  function Entries<T, K>(xs: seq<T>, key: T -> K): (r: seq<(K, T)>)
    ensures |r| == |xs|
    ensures forall i :: 0 <= i < |xs| ==> r[i] == (key(xs[i]), xs[i])
  {
    Map(xs, x => (key(x), x))
  }

  lemma {:induction false} LastValueEntries<T, K(!new)>(xs: seq<T>, key: T -> K, k: K)
    ensures LastValue(Entries(xs, key), k) == Latest(xs, key, k)
    decreases |xs|
  {
    if |xs| > 0 {
      assert Entries(xs, key)[..|xs| - 1] == Entries(xs[..|xs| - 1], key);
      LastValueEntries(xs[..|xs| - 1], key, k);
    }
  }

  /** `new Map(xs.map(x => [key(x), x]))`. */
  function Index<T(!new), K(==,!new)>(xs: seq<T>, key: T -> K): (r: Assoc<K, T>)
    ensures UniqueKeys(r)
    ensures Keys(r) == Dedup(Map(xs, key))
    ensures forall e :: e in r ==> e.0 == key(e.1) && e.1 in xs
    ensures forall k :: Get(r, k) == Latest(xs, key, k)
  {
    var r := FromList(Entries(xs, key));
    assert Keys(Entries(xs, key)) == Map(xs, key);
    assert forall k :: Get(r, k) == Latest(xs, key, k) by {
      forall k
        ensures Get(r, k) == Latest(xs, key, k)
      {
        FromListGet(Entries(xs, key), k);
        LastValueEntries(xs, key, k);
      }
    }
    r
  }

  /** The values of `m` whose key `other` lacks, in the order of `m`. */
  function Unmatched<K(==), T>(m: Assoc<K, T>, other: Assoc<K, T>): seq<T> {
    if |m| == 0 then []
    else if Get(other, m[0].0).None? then [m[0].1] + Unmatched(m[1..], other)
    else Unmatched(m[1..], other)
  }

  lemma {:induction false} UnmatchedMembers<K(!new), T(!new)>(m: Assoc<K, T>, other: Assoc<K, T>)
    ensures forall x :: x in Unmatched(m, other) ==> exists k :: (k, x) in m && Get(other, k).None?
    ensures forall k, x :: (k, x) in m && Get(other, k).None? ==> x in Unmatched(m, other)
    ensures (forall e :: e in m ==> Get(other, e.0).Some?) ==> Unmatched(m, other) == []
  {
    if |m| > 0 {
      UnmatchedMembers(m[1..], other);
      assert forall e :: e in m <==> e == m[0] || e in m[1..];
    }
  }

  /** The keys of the unmatched values are the keys of `m` that `other` lacks. */
  lemma {:induction false} UnmatchedKeys<K(!new), T(!new)>(m: Assoc<K, T>, other: Assoc<K, T>, key: T -> K)
    requires forall e :: e in m ==> e.0 == key(e.1)
    ensures Map(Unmatched(m, other), key) == Filter(Keys(m), k => Get(other, k).None?)
  {
    if |m| > 0 {
      assert forall e :: e in m[1..] ==> e in m;
      UnmatchedKeys(m[1..], other, key);
      UnmatchedKeysStep(m, other, key);
    }
  }

  lemma {:induction false} UnmatchedKeysStep<K(!new), T(!new)>(m: Assoc<K, T>, other: Assoc<K, T>, key: T -> K)
    requires |m| > 0 && m[0].0 == key(m[0].1)
    requires Map(Unmatched(m[1..], other), key) == Filter(Keys(m[1..]), k => Get(other, k).None?)
    ensures Map(Unmatched(m, other), key) == Filter(Keys(m), k => Get(other, k).None?)
  {
    var rest := Unmatched(m[1..], other);
    assert Keys(m) == [m[0].0] + Keys(m[1..]);
    if Get(other, m[0].0).None? {
      assert Map([m[0].1] + rest, key) == [key(m[0].1)] + Map(rest, key);
    }
  }

  /** The comparison of entry `e` with its partner in `tm`, if it has one. */
  function PairWith<K(==), T, M>(tm: Assoc<K, T>, cmp: (T, T) -> Option<M>, e: (K, T)): Option<M> {
    match Get(tm, e.0)
    case None => None
    case Some(t) => cmp(e.1, t)
  }

  /** For each entry of `sm` whose key `tm` also holds, in the order of `sm`,
      the modification `cmp` reports, if any. */
  function Matched<K(==), T, M>(sm: Assoc<K, T>, tm: Assoc<K, T>, cmp: (T, T) -> Option<M>): seq<M> {
    if |sm| == 0 then []
    else
      match PairWith(tm, cmp, sm[0])
      case Some(d) => [d] + Matched(sm[1..], tm, cmp)
      case None => Matched(sm[1..], tm, cmp)
  }

  lemma {:induction false} MatchedMembers<K(!new), T(!new), M(!new)>(sm: Assoc<K, T>, tm: Assoc<K, T>, cmp: (T, T) -> Option<M>)
    ensures |Matched(sm, tm, cmp)| <= |Filter(Keys(sm), k => Get(tm, k).Some?)|
    ensures forall d :: d in Matched(sm, tm, cmp) ==> exists e :: e in sm && PairWith(tm, cmp, e) == Some(d)
    ensures forall e :: e in sm && PairWith(tm, cmp, e).Some? ==> PairWith(tm, cmp, e).value in Matched(sm, tm, cmp)
    ensures (forall e :: e in sm ==> PairWith(tm, cmp, e).None?) ==> Matched(sm, tm, cmp) == []
  {
    if |sm| > 0 {
      MatchedMembers(sm[1..], tm, cmp);
      assert forall e :: e in sm <==> e == sm[0] || e in sm[1..];
      assert Keys(sm) == [sm[0].0] + Keys(sm[1..]);
    }
  }

  /** The comparison of `s` with the element the target map keeps under its
      key, if there is one. */
  function Partner<T, K(==), M>(target: seq<T>, key: T -> K, cmp: (T, T) -> Option<M>, s: T): Option<M> {
    match Latest(target, key, key(s))
    case None => None
    case Some(t) => cmp(s, t)
  }

  /** `compareX(source, target)` for a comparer keyed by `key` whose pairwise
      comparison is `cmp`. */
  function DiffBy<T(!new), K(==,!new), M(!new)>(source: seq<T>, target: seq<T>, key: T -> K, cmp: (T, T) -> Option<M>): (r: Changes<T, M>)
    ensures forall x :: x in r.added <==>
      Latest(target, key, key(x)) == Some(x) && Latest(source, key, key(x)).None?
    ensures forall x :: x in r.removed <==>
      Latest(source, key, key(x)) == Some(x) && Latest(target, key, key(x)).None?
    ensures forall d :: d in r.modified <==>
      exists s :: Latest(source, key, key(s)) == Some(s) && Partner(target, key, cmp, s) == Some(d)
  {
    var sm := Index(source, key);
    var tm := Index(target, key);
    var added := Unmatched(tm, sm);
    var removed := Unmatched(sm, tm);
    var modified := Matched(sm, tm, cmp);
    AddedSpec(source, target, key, sm, tm, added);
    AddedSpec(target, source, key, tm, sm, removed);
    ModifiedSpec(source, target, key, cmp, sm, tm, modified);
    Changes(added, removed, modified)
  }

  /** The modifications, with the partner named: one per element `s` the
      source map keeps whose key the target map holds as `t`, when `cmp(s, t)`
      reports one. */
  lemma {:induction false} DiffByModified<T(!new), K(!new), M(!new)>(source: seq<T>, target: seq<T>, key: T -> K, cmp: (T, T) -> Option<M>)
    ensures forall d :: d in DiffBy(source, target, key, cmp).modified <==> exists s, t ::
      Latest(source, key, key(s)) == Some(s) && Latest(target, key, key(s)) == Some(t) && cmp(s, t) == Some(d)
  {
    forall d
      ensures d in DiffBy(source, target, key, cmp).modified <==> exists s, t ::
        Latest(source, key, key(s)) == Some(s) && Latest(target, key, key(s)) == Some(t) && cmp(s, t) == Some(d)
    {
      ModifiedHasPartner(source, target, key, cmp, d);
      PartnerIsModified(source, target, key, cmp, d);
    }
  }

  lemma {:induction false} ModifiedHasPartner<T(!new), K(!new), M(!new)>(source: seq<T>, target: seq<T>, key: T -> K, cmp: (T, T) -> Option<M>, d: M)
    ensures d in DiffBy(source, target, key, cmp).modified ==> exists s, t ::
      Latest(source, key, key(s)) == Some(s) && Latest(target, key, key(s)) == Some(t) && cmp(s, t) == Some(d)
  {
    if d in DiffBy(source, target, key, cmp).modified {
      var s :| Latest(source, key, key(s)) == Some(s) && Partner(target, key, cmp, s) == Some(d);
      var t := Latest(target, key, key(s)).value;
      assert cmp(s, t) == Some(d);
    }
  }

  lemma {:induction false} PartnerIsModified<T(!new), K(!new), M(!new)>(source: seq<T>, target: seq<T>, key: T -> K, cmp: (T, T) -> Option<M>, d: M)
    ensures (exists s, t :: Latest(source, key, key(s)) == Some(s) && Latest(target, key, key(s)) == Some(t) && cmp(s, t) == Some(d))
      ==> d in DiffBy(source, target, key, cmp).modified
  {
    if exists s, t :: Latest(source, key, key(s)) == Some(s) && Latest(target, key, key(s)) == Some(t) && cmp(s, t) == Some(d) {
      var s, t :| Latest(source, key, key(s)) == Some(s) && Latest(target, key, key(s)) == Some(t) && cmp(s, t) == Some(d);
      assert Partner(target, key, cmp, s) == Some(d);
    }
  }

  /** What is added comes from the target, what is removed from the source. */
  lemma {:induction false} DiffByFrom<T(!new), K(!new), M(!new)>(source: seq<T>, target: seq<T>, key: T -> K, cmp: (T, T) -> Option<M>)
    ensures forall x :: x in DiffBy(source, target, key, cmp).added ==> x in target
    ensures forall x :: x in DiffBy(source, target, key, cmp).removed ==> x in source
  {
  }

  /** `added` lists the keys the source lacks in first-appearance order of the
      target, and `removed` the keys the target lacks in first-appearance order
      of the source: the iteration order of the two maps. */
  lemma {:induction false} DiffByOrder<T(!new), K(!new), M(!new)>(source: seq<T>, target: seq<T>, key: T -> K, cmp: (T, T) -> Option<M>)
    ensures Map(DiffBy(source, target, key, cmp).added, key) == Filter(Dedup(Map(target, key)), k => k !in Map(source, key))
    ensures Map(DiffBy(source, target, key, cmp).removed, key) == Filter(Dedup(Map(source, key)), k => k !in Map(target, key))
  {
    var sm := Index(source, key);
    var tm := Index(target, key);
    UnmatchedKeys(tm, sm, key);
    UnmatchedKeys(sm, tm, key);
    FilterSamePredicate(Keys(tm), k => Get(sm, k).None?, k => k !in Map(source, key));
    FilterSamePredicate(Keys(sm), k => Get(tm, k).None?, k => k !in Map(target, key));
  }

  /** The modification reported under key `k`: the comparison of the element
      the source map keeps under `k` with its partner, when both exist and
      `cmp` reports one. */
  function ModificationAt<T, K(==), M>(source: seq<T>, target: seq<T>, key: T -> K, cmp: (T, T) -> Option<M>, k: K): Option<M> {
    match Latest(source, key, k)
    case None => None
    case Some(s) => Partner(target, key, cmp, s)
  }

  /** The present values of `xs`, in order. */
  function Somes<M>(xs: seq<Option<M>>): seq<M> {
    if |xs| == 0 then [] else (if xs[0].Some? then [xs[0].value] else []) + Somes(xs[1..])
  }

  /** `modified` walks the source map in its iteration order, the order in
      which source keys first appear, and reports at most one modification
      per key: the one `ModificationAt` gives. */
  lemma {:induction false} DiffByModifiedOrder<T(!new), K(!new), M(!new)>(source: seq<T>, target: seq<T>, key: T -> K, cmp: (T, T) -> Option<M>)
    ensures DiffBy(source, target, key, cmp).modified
      == Somes(Map(Dedup(Map(source, key)), k => ModificationAt(source, target, key, cmp, k)))
  {
    var sm := Index(source, key);
    var tm := Index(target, key);
    forall e | e in sm
      ensures ModificationAt(source, target, key, cmp, e.0) == PairWith(tm, cmp, e)
    {
      GetUnique(sm, e.0, e.1);
    }
    MatchedByKeys(sm, tm, cmp, k => ModificationAt(source, target, key, cmp, k));
  }

  lemma {:induction false} MatchedByKeys<K(!new), T(!new), M(!new)>(m: Assoc<K, T>, tm: Assoc<K, T>, cmp: (T, T) -> Option<M>, f: K -> Option<M>)
    requires forall e :: e in m ==> f(e.0) == PairWith(tm, cmp, e)
    ensures Matched(m, tm, cmp) == Somes(Map(Keys(m), f))
  {
    if |m| > 0 {
      assert forall e :: e in m[1..] ==> e in m;
      MatchedByKeys(m[1..], tm, cmp, f);
      assert Map(Keys(m), f)[1..] == Map(Keys(m[1..]), f);
      assert f(m[0].0) == PairWith(tm, cmp, m[0]);
    }
  }

  /** Every source key is either removed or matched, and a matched key yields
      at most one modification. */
  lemma {:induction false} DiffByCounts<T(!new), K(!new), M(!new)>(source: seq<T>, target: seq<T>, key: T -> K, cmp: (T, T) -> Option<M>)
    ensures |DiffBy(source, target, key, cmp).modified| + |DiffBy(source, target, key, cmp).removed|
      <= |Dedup(Map(source, key))|
  {
    var sm := Index(source, key);
    var tm := Index(target, key);
    var r := DiffBy(source, target, key, cmp);
    assert r.removed == Unmatched(sm, tm) && r.modified == Matched(sm, tm, cmp);
    var present := Filter(Keys(sm), k => Get(tm, k).Some?);
    var absent := Filter(Keys(sm), k => Get(tm, k).None?);
    UnmatchedKeys(sm, tm, key);
    assert |r.removed| == |absent| by {
      assert |Map(r.removed, key)| == |r.removed|;
    }
    MatchedMembers(sm, tm, cmp);
    assert |r.modified| <= |present|;
    FilterComplement(Keys(sm), k => Get(tm, k).Some?, k => Get(tm, k).None?);
    assert |present| + |absent| == |Keys(sm)|;
  }

  lemma {:induction false} FilterSamePredicate<T(!new)>(s: seq<T>, p: T -> bool, q: T -> bool)
    requires forall x :: x in s ==> p(x) == q(x)
    ensures Filter(s, p) == Filter(s, q)
  {
    if |s| > 0 {
      FilterSamePredicate(s[1..], p, q);
    }
  }

  lemma {:induction false} AddedSpec<T(!new), K(!new)>(source: seq<T>, target: seq<T>, key: T -> K, sm: Assoc<K, T>, tm: Assoc<K, T>, added: seq<T>)
    requires UniqueKeys(tm)
    requires forall e :: e in tm ==> e.0 == key(e.1)
    requires forall k :: Get(sm, k) == Latest(source, key, k)
    requires forall k :: Get(tm, k) == Latest(target, key, k)
    requires added == Unmatched(tm, sm)
    ensures forall x :: x in added <==>
      Latest(target, key, key(x)) == Some(x) && Latest(source, key, key(x)).None?
  {
    UnmatchedMembers(tm, sm);
    forall x
      ensures x in added <==> Latest(target, key, key(x)) == Some(x) && Latest(source, key, key(x)).None?
    {
      GetUnique(tm, key(x), x);
      if x in added {
        var k :| (k, x) in tm && Get(sm, k).None?;
      }
    }
  }

  lemma {:induction false} ModifiedSpec<T(!new), K(!new), M(!new)>(source: seq<T>, target: seq<T>, key: T -> K, cmp: (T, T) -> Option<M>,
                                               sm: Assoc<K, T>, tm: Assoc<K, T>, modified: seq<M>)
    requires UniqueKeys(sm)
    requires forall e :: e in sm ==> e.0 == key(e.1)
    requires forall k :: Get(sm, k) == Latest(source, key, k)
    requires forall k :: Get(tm, k) == Latest(target, key, k)
    requires modified == Matched(sm, tm, cmp)
    ensures forall d :: d in modified <==>
      exists s :: Latest(source, key, key(s)) == Some(s) && Partner(target, key, cmp, s) == Some(d)
  {
    MatchedMembers(sm, tm, cmp);
    forall d
      ensures d in modified <==>
        exists s :: Latest(source, key, key(s)) == Some(s) && Partner(target, key, cmp, s) == Some(d)
    {
      if d in modified {
        var e :| e in sm && PairWith(tm, cmp, e) == Some(d);
        GetUnique(sm, e.0, e.1);
        assert Partner(target, key, cmp, e.1) == PairWith(tm, cmp, e);
      }
      if s :| Latest(source, key, key(s)) == Some(s) && Partner(target, key, cmp, s) == Some(d) {
        GetUnique(sm, key(s), s);
        assert PairWith(tm, cmp, (key(s), s)) == Partner(target, key, cmp, s);
      }
    }
  }

  /** Nothing is added when every target key occurs in the source. */
  lemma {:induction false} DiffByNoAdded<T(!new), K(!new), M(!new)>(source: seq<T>, target: seq<T>, key: T -> K, cmp: (T, T) -> Option<M>)
    requires forall x :: x in target ==> key(x) in Map(source, key)
    ensures DiffBy(source, target, key, cmp).added == []
  {
    var sm := Index(source, key);
    var tm := Index(target, key);
    UnmatchedMembers(tm, sm);
    assert forall e :: e in tm ==> Get(sm, e.0).Some? by {
      forall e | e in tm ensures Get(sm, e.0).Some? {
        assert Get(sm, e.0) == Latest(source, key, key(e.1));
      }
    }
  }

  /** Nothing is removed when every source key occurs in the target. */
  lemma {:induction false} DiffByNoRemoved<T(!new), K(!new), M(!new)>(source: seq<T>, target: seq<T>, key: T -> K, cmp: (T, T) -> Option<M>)
    requires forall x :: x in source ==> key(x) in Map(target, key)
    ensures DiffBy(source, target, key, cmp).removed == []
  {
    DiffByNoAdded(target, source, key, cmp);
    assert DiffBy(source, target, key, cmp).removed == DiffBy(target, source, key, cmp).added;
  }

  /** Nothing is modified when every element the source map keeps compares
      equal to its partner or has none. */
  lemma {:induction false} DiffByNoModified<T(!new), K(!new), M(!new)>(source: seq<T>, target: seq<T>, key: T -> K, cmp: (T, T) -> Option<M>)
    requires forall x :: Latest(source, key, key(x)) == Some(x) ==> Partner(target, key, cmp, x).None?
    ensures DiffBy(source, target, key, cmp).modified == []
  {
    var sm := Index(source, key);
    var tm := Index(target, key);
    MatchedMembers(sm, tm, cmp);
    assert forall e :: e in sm ==> PairWith(tm, cmp, e).None? by {
      forall e | e in sm ensures PairWith(tm, cmp, e).None? {
        GetUnique(sm, e.0, e.1);
        assert PairWith(tm, cmp, e) == Partner(target, key, cmp, e.1);
      }
    }
  }

  /** Comparing a list with itself reports nothing when every element
      compares equal to itself. */
  lemma {:induction false} DiffBySelf<T(!new), K(!new), M(!new)>(xs: seq<T>, key: T -> K, cmp: (T, T) -> Option<M>)
    requires forall x :: x in xs ==> cmp(x, x).None?
    ensures DiffBy(xs, xs, key, cmp) == Changes([], [], [])
  {
    assert forall x :: x in xs ==> key(x) in Map(xs, key) by {
      forall x | x in xs ensures key(x) in Map(xs, key) {
        var i :| 0 <= i < |xs| && xs[i] == x;
        assert Map(xs, key)[i] == key(x);
      }
    }
    DiffByNoAdded(xs, xs, key, cmp);
    DiffByNoModified(xs, xs, key, cmp);
  }

  /** With unique keys on both sides, the source elements that are not
      removed and the target elements that are not added are the same
      number (the matched pairs), and modifications come only from those. */
  lemma {:induction false} DiffByBalance<T(!new), K(!new), M(!new)>(source: seq<T>, target: seq<T>, key: T -> K, cmp: (T, T) -> Option<M>)
    requires Distinct(Map(source, key)) && Distinct(Map(target, key))
    ensures |source| - |DiffBy(source, target, key, cmp).removed| == |target| - |DiffBy(source, target, key, cmp).added|
    ensures |DiffBy(source, target, key, cmp).modified| <= |source| - |DiffBy(source, target, key, cmp).removed|
  {
    var r := DiffBy(source, target, key, cmp);
    var ks := Map(source, key);
    var kt := Map(target, key);
    DedupDistinct(ks);
    DedupDistinct(kt);
    DiffByOrder(source, target, key, cmp);
    DiffByCounts(source, target, key, cmp);
    assert |r.removed| == |Filter(ks, k => k !in kt)| by {
      assert |Map(r.removed, key)| == |r.removed|;
    }
    assert |r.added| == |Filter(kt, k => k !in ks)| by {
      assert |Map(r.added, key)| == |r.added|;
    }
    FilterComplement(ks, k => k in kt, k => k !in kt);
    FilterComplement(kt, k => k in ks, k => k !in ks);
    CommonCount(ks, kt);
  }
}

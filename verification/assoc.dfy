/** The JavaScript `Map` built by `new Map(list)`: an association list whose
    keys keep the position of their first insertion while a later `set` of
    the same key replaces the value in place. */
module Assoc {
  import opened Wrappers
  import opened Seqs

  type Assoc<K, V> = seq<(K, V)>

  function Keys<K, V>(m: Assoc<K, V>): (r: seq<K>)
    ensures |r| == |m|
    ensures forall i :: 0 <= i < |m| ==> r[i] == m[i].0
  {
    seq(|m|, i requires 0 <= i < |m| => m[i].0)
  }

  /** `Array.from(m.values())`. */
  function Values<K, V>(m: Assoc<K, V>): (r: seq<V>)
    ensures |r| == |m|
    ensures forall i :: 0 <= i < |m| ==> r[i] == m[i].1
  {
    if |m| == 0 then [] else [m[0].1] + Values(m[1..])
  }

  predicate UniqueKeys<K(==), V>(m: Assoc<K, V>) {
    forall i, j :: 0 <= i < j < |m| ==> m[i].0 != m[j].0
  }

  /** `Map.prototype.get`: the value stored under `k`, if any. */
  function Get<K(==), V>(m: Assoc<K, V>, k: K): (r: Option<V>)
    ensures r.Some? <==> k in Keys(m)
    ensures r.Some? ==> (k, r.value) in m
  {
    if |m| == 0 then None
    else if m[0].0 == k then Some(m[0].1)
    else
      assert forall i :: 1 <= i < |m| ==> Keys(m)[i] == Keys(m[1..])[i - 1];
      Get(m[1..], k)
  }

  /** `Map.prototype.set`: replaces the value of an existing key where it
      stands, or appends a new entry. */
  function Put<K(==,!new), V(!new)>(m: Assoc<K, V>, k: K, v: V): (r: Assoc<K, V>)
    ensures k in Keys(m) ==> Keys(r) == Keys(m)
    ensures k !in Keys(m) ==> Keys(r) == Keys(m) + [k]
    ensures Get(r, k) == Some(v)
    ensures forall k' :: k' != k ==> Get(r, k') == Get(m, k')
    ensures forall e :: e in r ==> e in m || e == (k, v)
  {
    SetKeys(m, k, v);
    SetGet(m, k, v);
    SetEntries(m, k, v);
    Set(m, k, v)
  }

  /** The update itself, by walking to the key. */
  function Set<K(==), V>(m: Assoc<K, V>, k: K, v: V): Assoc<K, V> {
    if |m| == 0 then [(k, v)]
    else if m[0].0 == k then [(k, v)] + m[1..]
    else [m[0]] + Set(m[1..], k, v)
  }

  lemma {:induction false} SetKeys<K(!new), V(!new)>(m: Assoc<K, V>, k: K, v: V)
    ensures k in Keys(m) ==> Keys(Set(m, k, v)) == Keys(m)
    ensures k !in Keys(m) ==> Keys(Set(m, k, v)) == Keys(m) + [k]
  {
    if |m| > 0 {
      assert m == [m[0]] + m[1..];
      KeysCons(m[0], m[1..]);
      if m[0].0 == k {
        KeysCons((k, v), m[1..]);
      } else {
        SetKeys(m[1..], k, v);
        KeysCons(m[0], Set(m[1..], k, v));
      }
    }
  }

  lemma {:induction false} SetGet<K(!new), V(!new)>(m: Assoc<K, V>, k: K, v: V)
    ensures Get(Set(m, k, v), k) == Some(v)
    ensures forall k' :: k' != k ==> Get(Set(m, k, v), k') == Get(m, k')
  {
    if |m| > 0 {
      var r := Set(m, k, v);
      if m[0].0 == k {
        assert r[1..] == m[1..];
      } else {
        SetGet(m[1..], k, v);
        assert r[1..] == Set(m[1..], k, v);
      }
    }
  }

  lemma {:induction false} SetEntries<K(!new), V(!new)>(m: Assoc<K, V>, k: K, v: V)
    ensures forall e :: e in Set(m, k, v) ==> e in m || e == (k, v)
  {
    if |m| > 0 && m[0].0 != k {
      SetEntries(m[1..], k, v);
    }
  }

  lemma {:induction false} KeysCons<K, V>(x: (K, V), m: Assoc<K, V>)
    ensures Keys([x] + m) == [x.0] + Keys(m)
  {
  }

  lemma {:induction false} KeysPrefix<K, V>(xs: Assoc<K, V>)
    requires |xs| > 0
    ensures Keys(xs[..|xs| - 1]) == Keys(xs)[..|xs| - 1]
    ensures Keys(xs)[|xs| - 1] == xs[|xs| - 1].0
  {
  }

  /** `Put` keeps the keys unique. */
  lemma {:induction false} PutUnique<K(!new), V(!new)>(m: Assoc<K, V>, k: K, v: V)
    requires UniqueKeys(m)
    ensures UniqueKeys(Put(m, k, v))
  {
    var r := Put(m, k, v);
    assert Distinct(Keys(m));
    assert Distinct(Keys(r));
  }

  /** The value of the last pair with key `k`. */
  function LastValue<K(==), V>(xs: seq<(K, V)>, k: K): Option<V> {
    if |xs| == 0 then None
    else if xs[|xs| - 1].0 == k then Some(xs[|xs| - 1].1)
    else LastValue(xs[..|xs| - 1], k)
  }

  /** `new Map(xs)`: every pair is `set` in turn. */
  function FromList<K(==,!new), V(!new)>(xs: seq<(K, V)>): (r: Assoc<K, V>)
    ensures Keys(r) == Dedup(Keys(xs))
    ensures UniqueKeys(r)
    ensures forall e :: e in r ==> e in xs
  {
    BuildKeys(xs);
    BuildUnique(xs);
    BuildEntries(xs);
    Build(xs)
  }

  /** The pairs `set` one after another, from the first. */
  function Build<K(==,!new), V(!new)>(xs: seq<(K, V)>): Assoc<K, V> {
    if |xs| == 0 then [] else Put(Build(xs[..|xs| - 1]), xs[|xs| - 1].0, xs[|xs| - 1].1)
  }

  lemma {:induction false} BuildKeys<K(!new), V(!new)>(xs: seq<(K, V)>)
    ensures Keys(Build(xs)) == Dedup(Keys(xs))
  {
    if |xs| > 0 {
      var front := xs[..|xs| - 1];
      var last := xs[|xs| - 1];
      var ks := Keys(xs);
      KeysPrefix(xs);
      BuildKeys(front);
      var d := Dedup(Keys(front));
      assert Dedup(ks) == if last.0 in d then d else d + [last.0];
    }
  }

  lemma {:induction false} BuildUnique<K(!new), V(!new)>(xs: seq<(K, V)>)
    ensures UniqueKeys(Build(xs))
  {
    if |xs| > 0 {
      BuildUnique(xs[..|xs| - 1]);
      PutUnique(Build(xs[..|xs| - 1]), xs[|xs| - 1].0, xs[|xs| - 1].1);
    }
  }

  lemma {:induction false} BuildEntries<K(!new), V(!new)>(xs: seq<(K, V)>)
    ensures forall e :: e in Build(xs) ==> e in xs
  {
    if |xs| > 0 {
      var front := xs[..|xs| - 1];
      BuildEntries(front);
      assert forall e :: e in front ==> e in xs;
    }
  }

  /** The map holds, under every key, the value of the last pair with that
      key: later duplicates overwrite earlier ones. */
  lemma {:induction false} FromListGet<K(!new), V(!new)>(xs: seq<(K, V)>, k: K)
    ensures Get(FromList(xs), k) == LastValue(xs, k)
    decreases |xs|
  {
    if |xs| > 0 {
      FromListGet(xs[..|xs| - 1], k);
    }
  }

  /** Under unique keys, an entry is present exactly when `Get` finds it. */
  lemma {:induction false} GetUnique<K, V>(m: Assoc<K, V>, k: K, v: V)
    requires UniqueKeys(m)
    ensures (k, v) in m <==> Get(m, k) == Some(v)
  {
    if |m| > 0 && m[0].0 != k {
      assert UniqueKeys(m[1..]) by {
        assert forall i :: 0 <= i < |m| - 1 ==> m[1..][i] == m[i + 1];
      }
      GetUnique(m[1..], k, v);
      assert (k, v) in m <==> (k, v) in m[1..];
    } else if |m| > 0 {
      assert forall i :: 0 < i < |m| ==> m[i].0 != k;
    }
  }
}

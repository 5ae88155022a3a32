/** Generic sequence helpers shared by the comparers and the extractors. */
module Seqs {

  /** The elements of `s` that satisfy `p`, in order. */
  function Filter<T(==,!new)>(s: seq<T>, p: T -> bool): (r: seq<T>)
    ensures |r| <= |s|
    ensures forall x :: x in r <==> x in s && p(x)
  {
    if |s| == 0 then [] else (if p(s[0]) then [s[0]] else []) + Filter(s[1..], p)
  }

  lemma {:induction false} FilterAppend<T(!new)>(a: seq<T>, b: seq<T>, p: T -> bool)
    ensures Filter(a + b, p) == Filter(a, p) + Filter(b, p)
  {
    if |a| == 0 {
      assert a + b == b;
    } else {
      assert (a + b)[1..] == a[1..] + b;
      FilterAppend(a[1..], b, p);
    }
  }

  /** Filtering keeps everything when every element passes. */
  lemma {:induction false} FilterAll<T(!new)>(s: seq<T>, p: T -> bool)
    requires forall x :: x in s ==> p(x)
    ensures Filter(s, p) == s
  {
    if |s| > 0 {
      FilterAll(s[1..], p);
      assert [s[0]] + s[1..] == s;
    }
  }

  /** Filtering keeps nothing when no element passes. */
  lemma {:induction false} FilterNone<T(!new)>(s: seq<T>, p: T -> bool)
    requires forall x :: x in s ==> !p(x)
    ensures Filter(s, p) == []
  {
    if |s| > 0 {
      FilterNone(s[1..], p);
    }
  }

  /** Filtering keeps nothing exactly when no element passes. */
  lemma {:induction false} FilterEmpty<T(!new)>(s: seq<T>, p: T -> bool)
    ensures Filter(s, p) == [] <==> forall i :: 0 <= i < |s| ==> !p(s[i])
  {
    if Filter(s, p) != [] {
      assert Filter(s, p)[0] in Filter(s, p);
    }
  }

  /** A predicate holds on every element of a short sequence exactly when it
      holds on each one. */
  lemma {:induction false} AllOf3<T>(s: seq<T>, p: T -> bool)
    requires |s| == 3
    ensures (forall i :: 0 <= i < |s| ==> p(s[i])) <==> (p(s[0]) && p(s[1]) && p(s[2]))
  {
  }

  lemma {:induction false} AllOf7<T>(s: seq<T>, p: T -> bool)
    requires |s| == 7
    ensures (forall i :: 0 <= i < |s| ==> p(s[i]))
      <==> (p(s[0]) && p(s[1]) && p(s[2]) && p(s[3]) && p(s[4]) && p(s[5]) && p(s[6]))
  {
  }

  lemma {:induction false} AllOf8<T>(s: seq<T>, p: T -> bool)
    requires |s| == 8
    ensures (forall i :: 0 <= i < |s| ==> p(s[i]))
      <==> (p(s[0]) && p(s[1]) && p(s[2]) && p(s[3]) && p(s[4]) && p(s[5]) && p(s[6]) && p(s[7]))
  {
  }

  /** `f` applied to every element, in order. */
  function Map<T, U>(s: seq<T>, f: T -> U): (r: seq<U>)
    ensures |r| == |s|
    ensures forall i :: 0 <= i < |s| ==> r[i] == f(s[i])
  {
    seq(|s|, i requires 0 <= i < |s| => f(s[i]))
  }

  lemma {:induction false} MapSnoc<T, U>(s: seq<T>, x: T, f: T -> U)
    ensures Map(s + [x], f) == Map(s, f) + [f(x)]
  {
  }

  /** Where each part of a three-way concatenation sits. */
  lemma {:induction false} ConcatAt3<T>(a: seq<T>, b: seq<T>, d: seq<T>)
    ensures forall i :: 0 <= i < |a| ==> (a + b + d)[i] == a[i]
    ensures forall i :: 0 <= i < |b| ==> (a + b + d)[|a| + i] == b[i]
    ensures forall i :: 0 <= i < |d| ==> (a + b + d)[|a| + |b| + i] == d[i]
  {
  }

  /** The first occurrence of every element, in order of first occurrence. */
  function Dedup<T(==,!new)>(s: seq<T>): (r: seq<T>)
    ensures forall x :: x in r <==> x in s
    ensures forall i, j :: 0 <= i < j < |r| ==> r[i] != r[j]
  {
    if |s| == 0 then []
    else
      var d := Dedup(s[..|s| - 1]);
      assert forall x :: x in s <==> x in s[..|s| - 1] || x == s[|s| - 1] by {
        assert s == s[..|s| - 1] + [s[|s| - 1]];
      }
      if s[|s| - 1] in d then d else d + [s[|s| - 1]]
  }

  /** Every element satisfies exactly one of `p` and `q`. */
  lemma {:induction false} FilterComplement<T(!new)>(s: seq<T>, p: T -> bool, q: T -> bool)
    requires forall x :: x in s ==> q(x) == !p(x)
    ensures |Filter(s, p)| + |Filter(s, q)| == |s|
  {
    if |s| > 0 {
      FilterComplement(s[1..], p, q);
    }
  }

  predicate Distinct<T(==)>(s: seq<T>) {
    forall i, j :: 0 <= i < j < |s| ==> s[i] != s[j]
  }

  /** A sequence without repetitions has as many elements as its set. */
  lemma {:induction false} DistinctCard<T(!new)>(s: seq<T>)
    requires Distinct(s)
    ensures |set x | x in s| == |s|
  {
    if |s| > 0 {
      var t := s[..|s| - 1];
      assert Distinct(t);
      DistinctCard(t);
      assert (set x | x in s) == (set x | x in t) + {s[|s| - 1]} by {
        assert s == t + [s[|s| - 1]];
      }
      assert s[|s| - 1] !in t;
    }
  }

  lemma {:induction false} FilterDistinct<T(!new)>(s: seq<T>, p: T -> bool)
    requires Distinct(s)
    ensures Distinct(Filter(s, p))
  {
    if |s| > 0 {
      assert Distinct(s[1..]) by {
        assert forall i :: 0 <= i < |s| - 1 ==> s[1..][i] == s[i + 1];
      }
      FilterDistinct(s[1..], p);
      assert s[0] !in s[1..];
    }
  }

  /** Filtering a sequence without repetitions keeps one element per member of
      the filtered set. */
  lemma {:induction false} FilterDistinctCard<T(!new)>(s: seq<T>, p: T -> bool)
    requires Distinct(s)
    ensures |Filter(s, p)| == |set x | x in s && p(x)|
  {
    FilterDistinct(s, p);
    DistinctCard(Filter(s, p));
    assert (set x | x in Filter(s, p)) == (set x | x in s && p(x));
  }

  /** Removing repetitions from a sequence that has none changes nothing. */
  lemma {:induction false} DedupDistinct<T(!new)>(s: seq<T>)
    requires Distinct(s)
    ensures Dedup(s) == s
  {
    if |s| > 0 {
      var t := s[..|s| - 1];
      assert Distinct(t);
      DedupDistinct(t);
      assert s[|s| - 1] !in t;
      assert s == t + [s[|s| - 1]];
    }
  }

  lemma {:induction false} FilterInCard<T(!new)>(a: seq<T>, b: seq<T>)
    requires Distinct(a)
    ensures |Filter(a, x => x in b)| == |set x | x in a && x in b|
  {
    var f := Filter(a, x => x in b);
    FilterDistinct(a, x => x in b);
    DistinctCard(f);
    assert (set x | x in f) == (set x | x in a && x in b);
  }

  /** Two sequences without repetitions share as many elements counted from
      either side. */
  lemma {:induction false} CommonCount<T(!new)>(a: seq<T>, b: seq<T>)
    requires Distinct(a) && Distinct(b)
    ensures |Filter(a, x => x in b)| == |Filter(b, x => x in a)|
  {
    FilterInCard(a, b);
    FilterInCard(b, a);
    assert (set x | x in a && x in b) == (set x | x in b && x in a);
  }
}

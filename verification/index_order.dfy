/** The order in which an index's columns are compared: a stable sort by key
    ordinal (`Array.prototype.sort` with an ordinal comparator, stable since
    ECMAScript 2019). Included columns all carry ordinal 0, so their relative
    order is the one the catalog returned. */
module IndexOrder {
  import opened Schema

  predicate SortedByOrdinal(s: seq<IndexColumn>) {
    forall i, j :: 0 <= i < j < |s| ==> s[i].keyOrdinal <= s[j].keyOrdinal
  }

  /** The columns of `s` with ordinal `k`, in the order of `s`. */
  function AtOrdinal(s: seq<IndexColumn>, k: int): seq<IndexColumn> {
    if |s| == 0 then []
    else if s[0].keyOrdinal == k then [s[0]] + AtOrdinal(s[1..], k)
    else AtOrdinal(s[1..], k)
  }

  /** Places `c` after every column whose ordinal does not exceed its own. */
  function Insert(c: IndexColumn, s: seq<IndexColumn>): (r: seq<IndexColumn>)
    requires SortedByOrdinal(s)
    ensures SortedByOrdinal(r)
    ensures multiset(r) == multiset(s) + multiset{c}
    ensures forall x :: x in r ==> x == c || x in s
  {
    PlaceSorted(c, s);
    PlaceMultiset(c, s);
    PlaceMembers(c, s);
    Place(c, s)
  }

  /** The insertion itself: `c` goes before the first column with a larger
      ordinal. */
  function Place(c: IndexColumn, s: seq<IndexColumn>): seq<IndexColumn> {
    if |s| == 0 then [c]
    else if s[0].keyOrdinal <= c.keyOrdinal then [s[0]] + Place(c, s[1..])
    else [c] + s
  }

  lemma {:induction false} PlaceMultiset(c: IndexColumn, s: seq<IndexColumn>)
    ensures multiset(Place(c, s)) == multiset(s) + multiset{c}
  {
    if |s| > 0 && s[0].keyOrdinal <= c.keyOrdinal {
      PlaceMultiset(c, s[1..]);
      assert s == [s[0]] + s[1..];
    }
  }

  lemma {:induction false} PlaceMembers(c: IndexColumn, s: seq<IndexColumn>)
    ensures forall x :: x in Place(c, s) ==> x == c || x in s
  {
    if |s| > 0 && s[0].keyOrdinal <= c.keyOrdinal {
      PlaceMembers(c, s[1..]);
    }
  }

  lemma {:induction false} PlaceSorted(c: IndexColumn, s: seq<IndexColumn>)
    requires SortedByOrdinal(s)
    ensures SortedByOrdinal(Place(c, s))
  {
    if |s| > 0 {
      if s[0].keyOrdinal <= c.keyOrdinal {
        var rest := Place(c, s[1..]);
        PlaceSorted(c, s[1..]);
        PlaceMembers(c, s[1..]);
        assert forall x :: x in s[1..] ==> s[0].keyOrdinal <= x.keyOrdinal by {
          assert forall j :: 1 <= j < |s| ==> s[0].keyOrdinal <= s[j].keyOrdinal;
        }
        SortedCons(s[0], rest);
      } else {
        assert forall x :: x in s ==> c.keyOrdinal <= x.keyOrdinal by {
          assert forall j :: 0 <= j < |s| ==> s[0].keyOrdinal <= s[j].keyOrdinal;
        }
        SortedCons(c, s);
      }
    }
  }

  /** A column no later than any column of a sorted list can go in front. */
  lemma {:induction false} SortedCons(x: IndexColumn, r: seq<IndexColumn>)
    requires SortedByOrdinal(r)
    requires forall y :: y in r ==> x.keyOrdinal <= y.keyOrdinal
    ensures SortedByOrdinal([x] + r)
  {
    var t := [x] + r;
    forall i, j | 0 <= i < j < |t|
      ensures t[i].keyOrdinal <= t[j].keyOrdinal
    {
      assert t[j] == r[j - 1];
      if i > 0 {
        assert t[i] == r[i - 1];
      } else {
        assert r[j - 1] in r;
      }
    }
  }

  /** `columns.sort((a, b) => a.keyOrdinal - b.keyOrdinal)`. */
  function SortColumns(s: seq<IndexColumn>): (r: seq<IndexColumn>)
    ensures SortedByOrdinal(r)
    ensures multiset(r) == multiset(s)
  {
    if |s| == 0 then []
    else
      assert s == s[..|s| - 1] + [s[|s| - 1]];
      Insert(s[|s| - 1], SortColumns(s[..|s| - 1]))
  }

  lemma {:induction false} AtOrdinalAppend(a: seq<IndexColumn>, b: seq<IndexColumn>, k: int)
    ensures AtOrdinal(a + b, k) == AtOrdinal(a, k) + AtOrdinal(b, k)
  {
    if |a| > 0 {
      assert (a + b)[0] == a[0];
      assert (a + b)[1..] == a[1..] + b;
      AtOrdinalAppend(a[1..], b, k);
      if a[0].keyOrdinal == k {
        assert AtOrdinal(a + b, k) == [a[0]] + AtOrdinal(a[1..] + b, k);
        assert AtOrdinal(a, k) == [a[0]] + AtOrdinal(a[1..], k);
      } else {
        assert AtOrdinal(a + b, k) == AtOrdinal(a[1..] + b, k);
      }
    } else {
      assert a + b == b;
    }
  }

  lemma {:induction false} AtOrdinalMembers(s: seq<IndexColumn>, k: int)
    ensures forall x :: x in AtOrdinal(s, k) <==> x in s && x.keyOrdinal == k
  {
    if |s| > 0 {
      AtOrdinalMembers(s[1..], k);
      assert forall x :: x in s <==> x == s[0] || x in s[1..];
    }
  }

  lemma {:induction false} AtOrdinalAbove(s: seq<IndexColumn>, k: int)
    requires forall i :: 0 <= i < |s| ==> s[i].keyOrdinal > k
    ensures AtOrdinal(s, k) == []
  {
    if |s| > 0 {
      AtOrdinalAbove(s[1..], k);
    }
  }

  /** Inserting `c` appends it to its own ordinal group and leaves every
      other group as it was. */
  lemma {:induction false} InsertAtOrdinal(c: IndexColumn, s: seq<IndexColumn>, k: int)
    requires SortedByOrdinal(s)
    ensures AtOrdinal(Insert(c, s), k) == AtOrdinal(s, k) + (if c.keyOrdinal == k then [c] else [])
  {
    PlaceAtOrdinal(c, s, k);
  }

  lemma {:induction false} PlaceAtOrdinal(c: IndexColumn, s: seq<IndexColumn>, k: int)
    requires SortedByOrdinal(s)
    ensures AtOrdinal(Place(c, s), k) == AtOrdinal(s, k) + (if c.keyOrdinal == k then [c] else [])
  {
    if |s| > 0 {
      if s[0].keyOrdinal <= c.keyOrdinal {
        PlaceAtOrdinal(c, s[1..], k);
        assert Place(c, s)[1..] == Place(c, s[1..]);
      } else {
        if c.keyOrdinal == k {
          AtOrdinalAbove(s, k);
        }
        assert Place(c, s)[1..] == s;
      }
    }
  }

  lemma {:induction false} SplitLast(s: seq<IndexColumn>)
    requires |s| > 0
    ensures s == s[..|s| - 1] + [s[|s| - 1]]
  {
  }

  /** The sort is stable: within each ordinal the columns keep their order. */
  lemma {:induction false} SortColumnsStable(s: seq<IndexColumn>, k: int)
    ensures AtOrdinal(SortColumns(s), k) == AtOrdinal(s, k)
  {
    if |s| > 0 {
      var front := s[..|s| - 1];
      var last := s[|s| - 1];
      SortColumnsStable(front, k);
      assert SortColumns(s) == Insert(last, SortColumns(front));
      InsertAtOrdinal(last, SortColumns(front), k);
      SplitLast(s);
      AtOrdinalAppend(front, [last], k);
    }
  }

  lemma {:induction false} AtOrdinalHead(s: seq<IndexColumn>)
    requires |s| > 0
    ensures AtOrdinal(s, s[0].keyOrdinal) == [s[0]] + AtOrdinal(s[1..], s[0].keyOrdinal)
  {
  }

  /** A sorted column list is determined by its ordinal groups. */
  lemma {:induction false} SortedByGroups(a: seq<IndexColumn>, b: seq<IndexColumn>)
    requires SortedByOrdinal(a) && SortedByOrdinal(b)
    requires forall k :: AtOrdinal(a, k) == AtOrdinal(b, k)
    ensures a == b
    decreases |a|
  {
    GroupsNonEmpty(a, b);
    GroupsNonEmpty(b, a);
    if |a| > 0 {
      HeadsAgree(a, b);
      TailGroups(a, b);
      SortedByGroups(a[1..], b[1..]);
      assert a == [a[0]] + a[1..] && b == [b[0]] + b[1..];
    }
  }

  /** Equal groups leave both lists empty or both non-empty. */
  lemma {:induction false} GroupsNonEmpty(a: seq<IndexColumn>, b: seq<IndexColumn>)
    requires forall k :: AtOrdinal(a, k) == AtOrdinal(b, k)
    ensures |a| > 0 ==> |b| > 0
  {
    if |a| > 0 {
      AtOrdinalHead(a);
      assert AtOrdinal(b, a[0].keyOrdinal) == AtOrdinal(a, a[0].keyOrdinal);
    }
  }

  /** Sorted lists with equal groups start with the same column. */
  lemma {:induction false} HeadsAgree(a: seq<IndexColumn>, b: seq<IndexColumn>)
    requires SortedByOrdinal(a) && SortedByOrdinal(b) && |a| > 0 && |b| > 0
    requires forall k :: AtOrdinal(a, k) == AtOrdinal(b, k)
    ensures a[0] == b[0]
  {
    var k := a[0].keyOrdinal;
    var m := b[0].keyOrdinal;
    AtOrdinalMembers(a, m);
    AtOrdinalMembers(b, k);
    assert AtOrdinal(a, m) == AtOrdinal(b, m) && AtOrdinal(a, k) == AtOrdinal(b, k);
    assert b[0] in AtOrdinal(a, m);
    assert a[0] in AtOrdinal(b, k);
    assert k == m;
    AtOrdinalHead(a);
    AtOrdinalHead(b);
    assert AtOrdinal(a, k)[0] == a[0] && AtOrdinal(b, k)[0] == b[0];
  }

  /** Removing the same head column keeps the groups equal. */
  lemma {:induction false} TailGroups(a: seq<IndexColumn>, b: seq<IndexColumn>)
    requires |a| > 0 && |b| > 0 && a[0] == b[0]
    requires forall k :: AtOrdinal(a, k) == AtOrdinal(b, k)
    ensures forall j :: AtOrdinal(a[1..], j) == AtOrdinal(b[1..], j)
  {
    forall j
      ensures AtOrdinal(a[1..], j) == AtOrdinal(b[1..], j)
    {
      assert AtOrdinal(a, j) == AtOrdinal(b, j);
      if j == a[0].keyOrdinal {
        AtOrdinalHead(a);
        AtOrdinalHead(b);
        assert AtOrdinal(a[1..], j) == AtOrdinal(a, j)[1..];
        assert AtOrdinal(b[1..], j) == AtOrdinal(b, j)[1..];
      }
    }
  }

  /** Every ordinal holds the same columns in the same relative order. */
  ghost predicate SameGroups(a: seq<IndexColumn>, b: seq<IndexColumn>) {
    forall k :: AtOrdinal(a, k) == AtOrdinal(b, k)
  }

  lemma {:induction false} SameSortSameGroups(a: seq<IndexColumn>, b: seq<IndexColumn>)
    requires SortColumns(a) == SortColumns(b)
    ensures SameGroups(a, b)
  {
    forall k
      ensures AtOrdinal(a, k) == AtOrdinal(b, k)
    {
      SortColumnsStable(a, k);
      SortColumnsStable(b, k);
    }
  }

  lemma {:induction false} SameGroupsSameSort(a: seq<IndexColumn>, b: seq<IndexColumn>)
    requires SameGroups(a, b)
    ensures SortColumns(a) == SortColumns(b)
  {
    forall k
      ensures AtOrdinal(SortColumns(a), k) == AtOrdinal(SortColumns(b), k)
    {
      SortColumnsStable(a, k);
      SortColumnsStable(b, k);
    }
    SortedByGroups(SortColumns(a), SortColumns(b));
  }

  /** Two column lists sort to the same list exactly when every ordinal
      holds the same columns in the same relative order. */
  lemma {:induction false} SortColumnsEqualIff(a: seq<IndexColumn>, b: seq<IndexColumn>)
    ensures SortColumns(a) == SortColumns(b) <==> SameGroups(a, b)
  {
    if SortColumns(a) == SortColumns(b) {
      SameSortSameGroups(a, b);
    }
    if SameGroups(a, b) {
      SameGroupsSameSort(a, b);
    }
  }

  /** A list that is already in ordinal order is left as it is. */
  lemma {:induction false} SortColumnsSorted(s: seq<IndexColumn>)
    requires SortedByOrdinal(s)
    ensures SortColumns(s) == s
  {
    forall k
      ensures AtOrdinal(SortColumns(s), k) == AtOrdinal(s, k)
    {
      SortColumnsStable(s, k);
    }
    SortedByGroups(SortColumns(s), s);
  }
}

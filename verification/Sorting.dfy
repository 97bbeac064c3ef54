// Stable sorting by an integer key, as ORDER BY key, id on rows kept in id order.

module Sorting {
  function InsertByKey<T>(sorted: seq<T>, x: T, key: T -> int): seq<T> {
    if sorted == [] || key(sorted[|sorted| - 1]) <= key(x) then sorted + [x]
    else InsertByKey(sorted[..|sorted| - 1], x, key) + [sorted[|sorted| - 1]]
  }

  function SortBy<T>(s: seq<T>, key: T -> int): seq<T> {
    if s == [] then [] else InsertByKey(SortBy(s[..|s| - 1], key), s[|s| - 1], key)
  }

  ghost predicate SortedBy<T>(s: seq<T>, key: T -> int) {
    forall i, j :: 0 <= i < j < |s| ==> key(s[i]) <= key(s[j])
  }

  lemma {:induction false} InsertElements<T>(sorted: seq<T>, x: T, key: T -> int)
    ensures multiset(InsertByKey(sorted, x, key)) == multiset(sorted) + multiset{x}
  {
    if sorted != [] && key(sorted[|sorted| - 1]) > key(x) {
      var n := |sorted| - 1;
      assert sorted == sorted[..n] + [sorted[n]];
      InsertElements(sorted[..n], x, key);
    }
  }

  lemma {:induction false} InsertSorted<T>(sorted: seq<T>, x: T, key: T -> int)
    requires SortedBy(sorted, key)
    ensures SortedBy(InsertByKey(sorted, x, key), key)
    ensures forall y :: y in InsertByKey(sorted, x, key) ==> y in sorted || y == x
  {
    if sorted != [] && key(sorted[|sorted| - 1]) > key(x) {
      var n := |sorted| - 1;
      InsertSorted(sorted[..n], x, key);
      var inner := InsertByKey(sorted[..n], x, key);
      forall i | 0 <= i < |inner| ensures key(inner[i]) <= key(sorted[n]) {
        assert inner[i] in sorted[..n] || inner[i] == x;
      }
    }
  }

  lemma {:induction false} SortSorted<T>(s: seq<T>, key: T -> int)
    ensures SortedBy(SortBy(s, key), key)
  {
    if s != [] {
      SortSorted(s[..|s| - 1], key);
      InsertSorted(SortBy(s[..|s| - 1], key), s[|s| - 1], key);
    }
  }

  lemma {:induction false} SortElements<T>(s: seq<T>, key: T -> int)
    ensures multiset(SortBy(s, key)) == multiset(s)
    ensures |SortBy(s, key)| == |s|
  {
    if s != [] {
      var n := |s| - 1;
      assert s == s[..n] + [s[n]];
      SortElements(s[..n], key);
      InsertElements(SortBy(s[..n], key), s[n], key);
    }
    assert |multiset(SortBy(s, key))| == |multiset(s)|;
  }

  lemma SortMembers<T>(s: seq<T>, key: T -> int, x: T)
    ensures x in SortBy(s, key) <==> x in s
  {
    SortElements(s, key);
    assert x in SortBy(s, key) <==> x in multiset(SortBy(s, key));
  }
}

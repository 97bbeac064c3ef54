// Facts about the stable sort: it commutes with filtering, and its order is decided by pairwise
// comparisons of the keys.

module SortOrder {
  import opened Seqs
  import opened Sorting

  function Filter<T>(s: seq<T>, p: T -> bool): seq<T> {
    if s == [] then []
    else if p(s[|s| - 1]) then Filter(s[..|s| - 1], p) + [s[|s| - 1]]
    else Filter(s[..|s| - 1], p)
  }

  lemma {:induction false} FilterMembers<T>(s: seq<T>, p: T -> bool, x: T)
    ensures x in Filter(s, p) <==> x in s && p(x)
  {
    if s != [] {
      assert s == s[..|s| - 1] + [s[|s| - 1]];
      FilterMembers(s[..|s| - 1], p, x);
    }
  }

  lemma FilterAppend<T>(s: seq<T>, x: T, p: T -> bool)
    ensures Filter(s + [x], p) == if p(x) then Filter(s, p) + [x] else Filter(s, p)
  {
    assert (s + [x])[..|s|] == s;
  }

  lemma InsertAppend<T>(s: seq<T>, last: T, x: T, key: T -> int)
    ensures InsertByKey(s + [last], x, key)
         == if key(last) <= key(x) then s + [last] + [x] else InsertByKey(s, x, key) + [last]
  {
    assert (s + [last])[..|s|] == s;
  }

  lemma InsertAtEnd<T>(s: seq<T>, x: T, key: T -> int)
    requires forall y :: y in s ==> key(y) <= key(x)
    ensures InsertByKey(s, x, key) == s + [x]
  {
  }

  lemma {:induction false} InsertFilter<T>(s: seq<T>, x: T, key: T -> int, p: T -> bool)
    requires SortedBy(s, key)
    ensures Filter(InsertByKey(s, x, key), p)
         == if p(x) then InsertByKey(Filter(s, p), x, key) else Filter(s, p)
  {
    if s == [] || key(s[|s| - 1]) <= key(x) {
      FilterAppend(s, x, p);
      forall y | y in Filter(s, p) ensures key(y) <= key(x) {
        FilterMembers(s, p, y);
        var i :| 0 <= i < |s| && s[i] == y;
      }
      InsertAtEnd(Filter(s, p), x, key);
    } else {
      var n := |s| - 1;
      InsertFilter(s[..n], x, key, p);
      FilterAppend(InsertByKey(s[..n], x, key), s[n], p);
      InsertAppend(Filter(s[..n], p), s[n], x, key);
    }
  }

  lemma {:induction false} SortFilter<T>(s: seq<T>, key: T -> int, p: T -> bool)
    ensures Filter(SortBy(s, key), p) == SortBy(Filter(s, p), key)
  {
    if s != [] {
      var n := |s| - 1;
      SortFilter(s[..n], key, p);
      SortSorted(s[..n], key);
      InsertFilter(SortBy(s[..n], key), s[n], key, p);
      SortAppend(Filter(s[..n], p), s[n], key);
    }
  }

  lemma SortAppend<T>(s: seq<T>, x: T, key: T -> int)
    ensures SortBy(s + [x], key) == InsertByKey(SortBy(s, key), x, key)
  {
    assert (s + [x])[..|s|] == s;
  }

  // x stands before y.
  ghost predicate Before<T>(s: seq<T>, x: T, y: T) {
    exists a, b :: 0 <= a < b < |s| && s[a] == x && s[b] == y
  }

  lemma InsertedLast<T>(s: seq<T>, x: T, y: T)
    requires x !in s && NoDuplicates(s) && y in s
    ensures Before(s + [x], y, x)
  {
    var k :| 0 <= k < |s| && s[k] == y;
    assert (s + [x])[k] == y && (s + [x])[|s|] == x;
  }

  lemma {:induction false} InsertKeepsDistinct<T>(s: seq<T>, x: T, key: T -> int)
    requires x !in s && NoDuplicates(s)
    ensures NoDuplicates(InsertByKey(s, x, key))
    ensures forall w :: w in InsertByKey(s, x, key) <==> w in s || w == x
  {
    if s != [] && key(s[|s| - 1]) > key(x) {
      var n := |s| - 1;
      var inner := InsertByKey(s[..n], x, key);
      assert s == s[..n] + [s[n]] && InsertByKey(s, x, key) == inner + [s[n]];
      InsertKeepsDistinct(s[..n], x, key);
      assert s[n] !in s[..n];
    }
  }

  // Insertion leaves the order of the others alone.
  lemma {:induction false} InsertKeepsBefore<T>(s: seq<T>, x: T, key: T -> int, y: T, z: T)
    requires x !in s && NoDuplicates(s) && y in s && z in s
    ensures Before(InsertByKey(s, x, key), y, z) <==> Before(s, y, z)
  {
    if key(s[|s| - 1]) <= key(x) {
      BeforeAppend(s, x, y, z);
    } else {
      var n := |s| - 1;
      var inner := InsertByKey(s[..n], x, key);
      assert s == s[..n] + [s[n]];
      LastIsNew(s);
      InsertKeepsDistinct(s[..n], x, key);
      BeforeAppend(inner, s[n], y, z);
      BeforeAppend(s[..n], s[n], y, z);
      if y != s[n] && z != s[n] {
        InsertKeepsBefore(s[..n], x, key, y, z);
      } else if y == s[n] {
        NotBefore(inner, y, z);
        NotBefore(s[..n], y, z);
      } else {
        NotBefore(inner, z, z);
        NotBefore(s[..n], z, z);
      }
    }
  }

  lemma NotBefore<T>(s: seq<T>, x: T, z: T)
    requires x !in s
    ensures !Before(s, x, z) && !Before(s, z, x)
  {
  }

  lemma LastIsNew<T>(s: seq<T>)
    requires NoDuplicates(s) && s != []
    ensures NoDuplicates(s[..|s| - 1]) && s[|s| - 1] !in s[..|s| - 1]
  {
  }

  // The new element comes after those whose keys are not larger.
  lemma {:induction false} InsertedBefore<T>(s: seq<T>, x: T, key: T -> int, y: T)
    requires SortedBy(s, key) && x !in s && NoDuplicates(s) && y in s
    ensures Before(InsertByKey(s, x, key), y, x) <==> key(y) <= key(x)
  {
    var n := |s| - 1;
    if key(s[n]) <= key(x) {
      InsertedLast(s, x, y);
      var k :| 0 <= k < |s| && s[k] == y;
      assert key(s[k]) <= key(s[n]);
    } else {
      var inner := InsertByKey(s[..n], x, key);
      assert s == s[..n] + [s[n]];
      LastIsNew(s);
      InsertKeepsDistinct(s[..n], x, key);
      BeforeAppend(inner, s[n], y, x);
      if y == s[n] {
        NotBefore(inner, y, x);
      } else {
        InsertedBefore(s[..n], x, key, y);
      }
    }
  }

  lemma BeforeAppend<T>(s: seq<T>, last: T, y: T, z: T)
    requires NoDuplicates(s) && last !in s
    ensures Before(s + [last], y, z) <==> Before(s, y, z) || (y in s && z == last)
  {
    var r := s + [last];
    if Before(s, y, z) {
      var a, b :| 0 <= a < b < |s| && s[a] == y && s[b] == z;
      assert r[a] == y && r[b] == z;
    }
    if y in s && z == last {
      var a :| 0 <= a < |s| && s[a] == y;
      assert r[a] == y && r[|s|] == z;
    }
    if Before(r, y, z) {
      var a, b :| 0 <= a < b < |r| && r[a] == y && r[b] == z;
      if b < |s| {
        assert s[a] == y && s[b] == z;
      }
    }
  }

  // Stability: an earlier element stays before a later one exactly when its key is not larger.
  lemma {:induction false} SortStable<T>(s: seq<T>, key: T -> int, i: nat, j: nat)
    requires NoDuplicates(s) && i < j < |s|
    ensures Before(SortBy(s, key), s[i], s[j]) <==> key(s[i]) <= key(s[j])
  {
    var n := |s| - 1;
    var s' := s[..n];
    SortSorted(s', key);
    SortNoDuplicates(s', key);
    assert s'[i] == s[i];
    SortMembers(s', key, s[i]);
    SortMembers(s', key, s[n]);
    if j < n {
      SortStable(s', key, i, j);
      assert s'[j] == s[j];
      SortMembers(s', key, s[j]);
      InsertKeepsBefore(SortBy(s', key), s[n], key, s[i], s[j]);
    } else {
      InsertedBefore(SortBy(s', key), s[n], key, s[i]);
    }
  }

  lemma {:induction false} SortNoDuplicates<T>(s: seq<T>, key: T -> int)
    requires NoDuplicates(s)
    ensures NoDuplicates(SortBy(s, key))
  {
    if s != [] {
      var n := |s| - 1;
      SortNoDuplicates(s[..n], key);
      SortSorted(s[..n], key);
      SortMembers(s[..n], key, s[n]);
      InsertKeepsDistinct(SortBy(s[..n], key), s[n], key);
    }
  }

  ghost predicate SameComparisons<T>(s: seq<T>, k1: T -> int, k2: T -> int) {
    forall i, j :: 0 <= i < j < |s| ==> (k1(s[i]) <= k1(s[j]) <==> k2(s[i]) <= k2(s[j]))
  }

  lemma {:induction false} InsertSame<T>(s: seq<T>, x: T, k1: T -> int, k2: T -> int)
    requires forall y :: y in s ==> (k1(y) <= k1(x) <==> k2(y) <= k2(x))
    ensures InsertByKey(s, x, k1) == InsertByKey(s, x, k2)
  {
    if s != [] && k1(s[|s| - 1]) > k1(x) {
      InsertSame(s[..|s| - 1], x, k1, k2);
    }
  }

  lemma {:induction false} SortSame<T>(s: seq<T>, k1: T -> int, k2: T -> int)
    requires SameComparisons(s, k1, k2)
    ensures SortBy(s, k1) == SortBy(s, k2)
  {
    if s != [] {
      var n := |s| - 1;
      SortSame(s[..n], k1, k2);
      forall y | y in SortBy(s[..n], k1) ensures k1(y) <= k1(s[n]) <==> k2(y) <= k2(s[n]) {
        SortMembers(s[..n], k1, y);
        var i :| 0 <= i < n && s[i] == y;
      }
      InsertSame(SortBy(s[..n], k1), s[n], k1, k2);
    }
  }

  // Two keys sort a sequence alike exactly when they compare every pair alike.
  lemma SortsAlike<T>(s: seq<T>, k1: T -> int, k2: T -> int)
    requires NoDuplicates(s)
    ensures SortBy(s, k1) == SortBy(s, k2) <==> SameComparisons(s, k1, k2)
  {
    if SameComparisons(s, k1, k2) {
      SortSame(s, k1, k2);
    } else {
      var i, j :| 0 <= i < j < |s| && !(k1(s[i]) <= k1(s[j]) <==> k2(s[i]) <= k2(s[j]));
      SortStable(s, k1, i, j);
      SortStable(s, k2, i, j);
    }
  }

  function Map<A, B>(s: seq<A>, f: A -> B): seq<B> {
    if s == [] then [] else Map(s[..|s| - 1], f) + [f(s[|s| - 1])]
  }

  lemma {:induction false} MapAt<A, B>(s: seq<A>, f: A -> B)
    ensures |Map(s, f)| == |s|
    ensures forall i :: 0 <= i < |s| ==> Map(s, f)[i] == f(s[i])
  {
    if s != [] {
      MapAt(s[..|s| - 1], f);
    }
  }

  lemma {:induction false} InsertMap<A, B>(s: seq<A>, x: A, f: A -> B, key: B -> int, keyA: A -> int)
    requires forall y :: keyA(y) == key(f(y))
    ensures Map(InsertByKey(s, x, keyA), f) == InsertByKey(Map(s, f), f(x), key)
  {
    if s == [] || keyA(s[|s| - 1]) <= keyA(x) {
      assert (s + [x])[..|s|] == s;
    } else {
      var n := |s| - 1;
      InsertMap(s[..n], x, f, key, keyA);
      var inner := InsertByKey(s[..n], x, keyA);
      assert (inner + [s[n]])[..|inner|] == inner;
      InsertAppend(Map(s[..n], f), f(s[n]), f(x), key);
    }
  }

  lemma {:induction false} SortMap<A, B>(s: seq<A>, f: A -> B, key: B -> int, keyA: A -> int)
    requires forall y :: keyA(y) == key(f(y))
    ensures SortBy(Map(s, f), key) == Map(SortBy(s, keyA), f)
  {
    if s != [] {
      var n := |s| - 1;
      SortMap(s[..n], f, key, keyA);
      InsertMap(SortBy(s[..n], keyA), s[n], f, key, keyA);
      SortAppend(Map(s[..n], f), f(s[n]), key);
    }
  }
}

// Lists of bucket starts, for any way to cut time into buckets (app/db/crud/stats.py).

module BucketLists {
  ghost predicate Own(start: nat -> nat, next: nat -> nat, m: nat) {
    var b := start(m);
    start(b) == b && start(next(b)) == next(b) && b <= m < next(b)
  }

  ghost predicate Apart(start: nat -> nat, next: nat -> nat, b: nat, c: nat) {
    start(b) == b && start(c) == c && b < c ==> next(b) <= c
  }

  // Every moment lies in the bucket it is assigned to, and no bucket starts inside another.
  ghost predicate Lawful(start: nat -> nat, next: nat -> nat) {
    (forall m :: Own(start, next, m)) && (forall b, c :: Apart(start, next, b, c))
  }

  // A moment lies between a bucket's start and the next one exactly when the bucket is its own.
  lemma InBucketExactlyWhen(start: nat -> nat, next: nat -> nat, b: nat, m: nat)
    requires Lawful(start, next) && start(b) == b
    ensures b <= m < next(b) <==> start(m) == b
  {
    assert Own(start, next, m) && Own(start, next, b);
    assert Apart(start, next, b, start(m)) && Apart(start, next, start(m), b);
  }

  lemma StartMonotone(start: nat -> nat, next: nat -> nat, m: nat, n: nat)
    requires Lawful(start, next) && m <= n
    ensures start(m) <= start(n)
  {
    assert Own(start, next, m) && Own(start, next, n);
    assert Apart(start, next, start(n), start(m));
  }

  // The bucket starts from first up to (and with) last.
  ghost function Buckets(start: nat -> nat, next: nat -> nat, first: nat, last: nat): seq<nat>
    requires Lawful(start, next) && start(first) == first
    decreases last - first
  {
    assert Own(start, next, first);
    if first > last then [] else [first] + Buckets(start, next, next(first), last)
  }

  // Every bucket start of the span is listed, and nothing else.
  lemma {:induction false} ListedExactlyWhen(start: nat -> nat, next: nat -> nat, first: nat, last: nat, b: nat)
    requires Lawful(start, next) && start(first) == first
    ensures b in Buckets(start, next, first, last) <==> start(b) == b && first <= b <= last
    decreases last - first
  {
    assert Own(start, next, first);
    if first <= last {
      ListedExactlyWhen(start, next, next(first), last, b);
      assert Apart(start, next, first, b);
    }
  }

  ghost predicate Increasing(s: seq<nat>) {
    forall i, j :: 0 <= i < j < |s| ==> s[i] < s[j]
  }

  lemma {:induction false} ListIncreases(start: nat -> nat, next: nat -> nat, first: nat, last: nat)
    requires Lawful(start, next) && start(first) == first
    ensures Increasing(Buckets(start, next, first, last))
    decreases last - first
  {
    assert Own(start, next, first);
    if first <= last {
      var rest := Buckets(start, next, next(first), last);
      ListIncreases(start, next, next(first), last);
      forall k | 0 <= k < |rest| ensures first < rest[k] {
        ListedExactlyWhen(start, next, next(first), last, rest[k]);
      }
    }
  }

  method BucketList(start: nat -> nat, next: nat -> nat, first: nat, last: nat) returns (buckets: seq<nat>)
    requires Lawful(start, next) && start(first) == first
    ensures buckets == Buckets(start, next, first, last)
  {
    buckets := [];
    var bucket := first;
    while bucket <= last
      invariant start(bucket) == bucket
      invariant Buckets(start, next, first, last) == buckets + Buckets(start, next, bucket, last)
      decreases last - bucket
    {
      assert Own(start, next, bucket);
      buckets := buckets + [bucket];
      bucket := next(bucket);
    }
  }
}

// A defaultdict(int) as the list of its entries, in insertion order.

module Counters {
  import opened Seqs

  datatype Entry = Entry(key: nat, value: int)

  type Counter = seq<Entry>

  function Bump(c: Counter, key: nat, amount: int): Counter {
    if c == [] then [Entry(key, amount)]
    else
      var last := c[|c| - 1];
      if last.key == key then c[..|c| - 1] + [Entry(key, last.value + amount)]
      else Bump(c[..|c| - 1], key, amount) + [last]
  }

  function Amount(c: Counter, key: nat): int {
    if c == [] then 0
    else Amount(c[..|c| - 1], key) + if c[|c| - 1].key == key then c[|c| - 1].value else 0
  }

  function Keys(c: Counter): (keys: seq<nat>)
    ensures |keys| == |c| && forall i :: 0 <= i < |c| ==> keys[i] == c[i].key
  {
    seq(|c|, i requires 0 <= i < |c| => c[i].key)
  }

  lemma {:induction false} BumpAmount(c: Counter, key: nat, amount: int, k: nat)
    ensures Amount(Bump(c, key, amount), k) == Amount(c, k) + if k == key then amount else 0
  {
    if c != [] && c[|c| - 1].key != key {
      BumpAmount(c[..|c| - 1], key, amount, k);
    }
  }

  lemma {:induction false} BumpKeys(c: Counter, key: nat, amount: int)
    ensures forall k :: k in Keys(Bump(c, key, amount)) <==> k in Keys(c) || k == key
  {
    if c == [] {
      assert Keys(Bump(c, key, amount)) == [key];
    } else {
      var n := |c| - 1;
      assert Keys(c) == Keys(c[..n]) + [c[n].key];
      if c[n].key != key {
        BumpKeys(c[..n], key, amount);
        assert Keys(Bump(c, key, amount)) == Keys(Bump(c[..n], key, amount)) + [c[n].key];
      } else {
        assert Keys(Bump(c, key, amount)) == Keys(c[..n]) + [key];
      }
    }
  }

  lemma {:induction false} BumpDistinct(c: Counter, key: nat, amount: int)
    requires NoDuplicates(Keys(c))
    ensures NoDuplicates(Keys(Bump(c, key, amount)))
  {
    if c != [] && c[|c| - 1].key != key {
      var n := |c| - 1;
      assert Keys(c) == Keys(c[..n]) + [c[n].key];
      BumpDistinct(c[..n], key, amount);
      BumpKeys(c[..n], key, amount);
      assert Keys(Bump(c, key, amount)) == Keys(Bump(c[..n], key, amount)) + [c[n].key];
      assert c[n].key !in Keys(c[..n]);
    } else if c != [] {
      assert Keys(Bump(c, key, amount)) == Keys(c);
    }
  }

  lemma {:induction false} AbsentAmount(c: Counter, k: nat)
    requires k !in Keys(c)
    ensures Amount(c, k) == 0
  {
    if c != [] {
      var n := |c| - 1;
      assert Keys(c) == Keys(c[..n]) + [c[n].key];
      AbsentAmount(c[..n], k);
    }
  }

  // With distinct keys an entry holds all that its key counts.
  lemma {:induction false} EntryAmount(c: Counter, i: nat)
    requires NoDuplicates(Keys(c)) && i < |c|
    ensures Amount(c, c[i].key) == c[i].value
  {
    var n := |c| - 1;
    assert Keys(c) == Keys(c[..n]) + [c[n].key];
    if i < n {
      assert Keys(c)[i] != Keys(c)[n];
      EntryAmount(c[..n], i);
    } else {
      AbsentAmount(c[..n], c[n].key);
    }
  }
}

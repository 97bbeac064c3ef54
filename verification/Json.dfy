// JSON values, and the dictionary merge that the config generator forces its policies with
// (merge_dicts in app/xray/config.py).

module Json {
  datatype Json =
    | Null
    | Bool(truth: bool)
    | Number(value: real)
    | String(text: string)
    | List(items: seq<Json>)
    | Object(fields: Fields)

  type Fields = map<string, Json>

  // What Python takes for false.
  predicate Falsy(j: Json) {
    match j
    case Null => true
    case Bool(truth) => !truth
    case Number(value) => value == 0.0
    case String(text) => text == ""
    case List(items) => items == []
    case Object(fields) => fields == map[]
  }

  predicate Missing(fields: Fields, key: string) {
    key !in fields || Falsy(fields[key])
  }

  // The object under a key; nothing else counts.
  function SubObject(fields: Fields, key: string): Fields {
    if key in fields && fields[key].Object? then fields[key].fields else map[]
  }

  // merge_dicts(a, b): b overrides, and objects on both sides are merged in turn.
  function Merged(a: Fields, b: Fields): Fields
    decreases Object(b)
  {
    map k | k in a.Keys + b.Keys ::
      if k !in b then a[k]
      else if b[k].Object? && k in a && a[k].Object? then Object(Merged(a[k].fields, b[k].fields))
      else b[k]
  }

  method MergeDicts(a: Fields, b: Fields) returns (merged: Fields)
    ensures merged == Merged(a, b)
    decreases Object(b)
  {
    merged := a;
    var todo := b.Keys;
    while todo != {}
      invariant todo <= b.Keys && merged.Keys == a.Keys + (b.Keys - todo)
      invariant forall k :: k in merged ==> merged[k] == if k in todo then a[k] else Merged(a, b)[k]
      decreases todo
    {
      var k :| k in todo;
      if b[k].Object? && k in merged && merged[k].Object? {
        var inner := MergeDicts(merged[k].fields, b[k].fields);
        merged := merged[k := Object(inner)];
      } else {
        merged := merged[k := b[k]];
      }
      todo := todo - {k};
    }
  }

  lemma {:induction false} MergedInto(b: Fields)
    ensures Merged(map[], b) == b
  {
  }

  // The same outside what a merge with b overrides.
  ghost predicate AgreeOff(a: Fields, a': Fields, b: Fields)
    decreases Object(b)
  {
    && (forall k :: k !in b ==> (k in a <==> k in a') && (k in a ==> a[k] == a'[k]))
    && (forall k :: k in b && b[k].Object? ==> AgreeOff(SubObject(a, k), SubObject(a', k), b[k].fields))
  }

  lemma MergedAt(a: Fields, b: Fields, k: string)
    requires k in b
    ensures k in Merged(a, b)
    ensures Merged(a, b)[k] == if b[k].Object? then Object(Merged(SubObject(a, k), b[k].fields)) else b[k]
  {
    if b[k].Object? {
      MergedInto(b[k].fields);
    }
  }

  // Merging the same over two objects gives the same exactly when they differ only in what is overridden.
  lemma {:induction false} MergedSameExactlyWhen(a: Fields, a': Fields, b: Fields)
    ensures Merged(a, b) == Merged(a', b) <==> AgreeOff(a, a', b)
    decreases Object(b)
  {
    forall k | k in b
      ensures Merged(a, b)[k] == Merged(a', b)[k]
         <==> (b[k].Object? ==> AgreeOff(SubObject(a, k), SubObject(a', k), b[k].fields))
    {
      MergedAt(a, b, k);
      MergedAt(a', b, k);
      if b[k].Object? {
        MergedSameExactlyWhen(SubObject(a, k), SubObject(a', k), b[k].fields);
      }
    }
    if Merged(a, b) == Merged(a', b) {
      forall k | k !in b ensures (k in a <==> k in a') && (k in a ==> a[k] == a'[k]) {
        assert k in Merged(a, b) <==> k in a;
        assert k in Merged(a', b) <==> k in a';
        assert k in a ==> Merged(a, b)[k] == a[k] && Merged(a', b)[k] == a'[k];
      }
    }
    if AgreeOff(a, a', b) {
      forall k ensures k in Merged(a, b) <==> k in Merged(a', b) {
      }
      forall k | k in Merged(a, b) ensures Merged(a, b)[k] == Merged(a', b)[k] {
      }
    }
  }
}

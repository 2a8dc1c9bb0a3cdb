/** Python dictionaries with string keys: items in insertion order, no key twice. */
module Dicts {
  import opened Wrappers

  datatype Item<+T> = Item(key: string, value: T)

  predicate Distinct<T>(d: seq<Item<T>>) {
    forall i, j | 0 <= i < j < |d| :: d[i].key != d[j].key
  }

  function Keys<T>(d: seq<Item<T>>): set<string> {
    set i | 0 <= i < |d| :: d[i].key
  }

  function Get<T>(d: seq<Item<T>>, key: string): (r: Option<T>)
    ensures r.Some? <==> key in Keys(d)
    ensures r.Some? ==> Item(key, r.value) in d
  {
    if d == [] then None
    else if d[0].key == key then Some(d[0].value)
    else Get(d[1..], key)
  }

  /** `d[key] = value`: in place when the key is there, at the end otherwise. */
  function Put<T>(d: seq<Item<T>>, key: string, value: T): seq<Item<T>> {
    if d == [] then [Item(key, value)]
    else if d[0].key == key then [Item(key, value)] + d[1..]
    else [d[0]] + Put(d[1..], key, value)
  }

  lemma {:induction false} GetPut<T>(d: seq<Item<T>>, key: string, value: T, other: string)
    ensures Get(Put(d, key, value), other) == if other == key then Some(value) else Get(d, other)
  {
    if d != [] && d[0].key != key {
      GetPut(d[1..], key, value, other);
    }
  }

  lemma PutKeys<T>(d: seq<Item<T>>, key: string, value: T)
    ensures Keys(Put(d, key, value)) == Keys(d) + {key}
  {
    forall other ensures other in Keys(Put(d, key, value)) <==> other in Keys(d) + {key} {
      GetPut(d, key, value, other);
    }
  }

  lemma {:induction false} PutDistinct<T>(d: seq<Item<T>>, key: string, value: T)
    requires Distinct(d)
    ensures Distinct(Put(d, key, value))
  {
    if d != [] && d[0].key != key {
      var rest := Put(d[1..], key, value);
      PutDistinct(d[1..], key, value);
      PutKeys(d[1..], key, value);
      forall i | 0 <= i < |rest| ensures rest[i].key != d[0].key {
        assert rest[i].key in Keys(rest);
      }
    }
  }

  lemma {:induction false} GetMember<T>(d: seq<Item<T>>, i: nat)
    requires Distinct(d) && i < |d|
    ensures Get(d, d[i].key) == Some(d[i].value)
  {
    if i > 0 {
      GetMember(d[1..], i - 1);
    }
  }
}

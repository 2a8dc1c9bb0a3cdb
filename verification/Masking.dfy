/** Masking the sensitive keys of a log event. */
module Masking {
  import opened Dicts

  /** A tuple stands for every container that is neither a dictionary nor a list, a scalar for
      every other value. */
  datatype Value =
    | Scalar(text: string)
    | Tuple(items: seq<Value>)
    | List(items: seq<Value>)
    | Dict(entries: seq<Item<Value>>)

  /** A pattern is known by the keys it is found in. */
  datatype Masker = Masker(patterns: seq<string -> bool>, mask: string)

  predicate Sensitive(m: Masker, key: string) {
    exists i | 0 <= i < |m.patterns| :: m.patterns[i](key)
  }

  /** No dictionary has a key twice. */
  predicate WellFormed(v: Value) {
    match v
    case Scalar(_) => true
    case Tuple(items) => forall x | x in items :: WellFormed(x)
    case List(items) => forall x | x in items :: WellFormed(x)
    case Dict(entries) => Distinct(entries) && forall e | e in entries :: WellFormed(e.value)
  }

  /** What masking makes of a value that is not below a sensitive key. */
  function Masked(m: Masker, v: Value): (r: Value)
    decreases v
  {
    match v
    case Scalar(_) => v
    case Tuple(_) => v
    case List(items) =>
      List(seq(|items|, i requires 0 <= i < |items| => if items[i].Dict? then Masked(m, items[i]) else items[i]))
    case Dict(entries) =>
      Dict(seq(|entries|, i requires 0 <= i < |entries| => Item(entries[i].key,
        if Sensitive(m, entries[i].key) then Scalar(m.mask) else Masked(m, entries[i].value))))
  }

  // ----- the code -----

  method Search(m: Masker, key: string) returns (found: bool)
    ensures found == Sensitive(m, key)
  {
    for i := 0 to |m.patterns|
      invariant forall j | 0 <= j < i :: !m.patterns[j](key)
    {
      if m.patterns[i](key) {
        return true;
      }
    }
    return false;
  }

  lemma {:induction false} PutNew<T>(d: seq<Item<T>>, key: string, value: T)
    requires key !in Keys(d)
    ensures Put(d, key, value) == d + [Item(key, value)]
  {
    if d != [] {
      assert d[0].key in Keys(d);
      assert Keys(d[1..]) <= Keys(d) by {
        forall other | other in Keys(d[1..]) ensures other in Keys(d) {
          var i :| 0 <= i < |d[1..]| && d[1..][i].key == other;
          assert d[i + 1].key == other;
        }
      }
      PutNew(d[1..], key, value);
    }
  }

  method MaskList(m: Masker, items: seq<Value>) returns (result: seq<Value>)
    requires WellFormed(List(items))
    ensures List(result) == Masked(m, List(items))
    decreases items
  {
    result := [];
    for i := 0 to |items|
      invariant |result| == i
      invariant forall j | 0 <= j < i :: result[j] == Masked(m, List(items)).items[j]
    {
      var v := items[i];
      if v.Dict? {
        var masked := MaskDict(m, v.entries);
        v := Dict(masked);
      }
      result := result + [v];
    }
  }

  method MaskDict(m: Masker, d: seq<Item<Value>>) returns (result: seq<Item<Value>>)
    requires WellFormed(Dict(d))
    ensures Dict(result) == Masked(m, Dict(d))
    decreases d
  {
    result := [];
    ghost var all := Masked(m, Dict(d)).entries;
    for i := 0 to |d|
      invariant result == all[..i]
    {
      var key, value := d[i].key, d[i].value;
      assert d[i] in d && WellFormed(value);
      var found := Search(m, key);
      if found {
        value := Scalar(m.mask);
      } else if value.Dict? {
        var masked := MaskDict(m, value.entries);
        value := Dict(masked);
      } else if value.List? {
        var masked := MaskList(m, value.items);
        value := List(masked);
      }
      assert value == if found then Scalar(m.mask) else Masked(m, d[i].value);
      assert all[i] == Item(key, value);
      forall k | k in Keys(result) ensures k != key {
        var j :| 0 <= j < i && all[j].key == k;
        assert d[j].key == k;
      }
      PutNew(result, key, value);
      result := Put(result, key, value);
      assert all[..i + 1] == all[..i] + [all[i]];
    }
    assert all[..|d|] == all;
  }
}

/** What masking hides, what it keeps, and how maskers combine. */
module MaskingLaws {
  import opened Wrappers
  import opened Dicts
  import opened Masking

  // ----- non-interference -----

  /** The two values are the same outside what stands below a sensitive key. A tuple, and a
      list directly inside a list, is not looked into. */
  predicate LowEqual(m: Masker, v: Value, w: Value)
    decreases v
  {
    match (v, w)
    case (List(xs), List(ys)) =>
      && |xs| == |ys|
      && forall i | 0 <= i < |xs| :: if xs[i].Dict? then LowEqual(m, xs[i], ys[i]) else xs[i] == ys[i]
    case (Dict(d), Dict(e)) =>
      && |d| == |e|
      && forall i | 0 <= i < |d| ::
           d[i].key == e[i].key && (Sensitive(m, d[i].key) || LowEqual(m, d[i].value, e[i].value))
    case _ => v == w
  }

  /** Two values are masked alike exactly when they agree outside the sensitive keys. */
  lemma {:induction false} MaskedAlikeIffLowEqual(m: Masker, v: Value, w: Value)
    ensures Masked(m, v) == Masked(m, w) <==> LowEqual(m, v, w)
    decreases v
  {
    match (v, w)
    case (List(xs), List(ys)) =>
      forall i | 0 <= i < |xs| && i < |ys| && xs[i].Dict?
        ensures Masked(m, xs[i]) == Masked(m, ys[i]) <==> LowEqual(m, xs[i], ys[i])
      {
        MaskedAlikeIffLowEqual(m, xs[i], ys[i]);
      }
      ListsAlike(m, xs, ys);
    case (Dict(d), Dict(e)) =>
      forall i | 0 <= i < |d| && i < |e|
        ensures Masked(m, d[i].value) == Masked(m, e[i].value) <==> LowEqual(m, d[i].value, e[i].value)
      {
        MaskedAlikeIffLowEqual(m, d[i].value, e[i].value);
      }
      DictsAlike(m, d, e);
    case _ =>
  }

  lemma ListsAlike(m: Masker, xs: seq<Value>, ys: seq<Value>)
    requires forall i | 0 <= i < |xs| && i < |ys| && xs[i].Dict? ::
      Masked(m, xs[i]) == Masked(m, ys[i]) <==> LowEqual(m, xs[i], ys[i])
    ensures Masked(m, List(xs)) == Masked(m, List(ys)) <==> LowEqual(m, List(xs), List(ys))
  {
    var p, q := Masked(m, List(xs)).items, Masked(m, List(ys)).items;
    assert |p| == |xs| && |q| == |ys|;
    if |xs| == |ys| {
      forall i | 0 <= i < |xs|
        ensures p[i] == q[i] <==> if xs[i].Dict? then LowEqual(m, xs[i], ys[i]) else xs[i] == ys[i]
      {
        assert Masked(m, xs[i]).Dict? == xs[i].Dict? && Masked(m, ys[i]).Dict? == ys[i].Dict?;
        assert xs[i].Dict? && !ys[i].Dict? ==> !LowEqual(m, xs[i], ys[i]);
      }
    }
  }

  lemma DictsAlike(m: Masker, d: seq<Item<Value>>, e: seq<Item<Value>>)
    requires forall i | 0 <= i < |d| && i < |e| ::
      Masked(m, d[i].value) == Masked(m, e[i].value) <==> LowEqual(m, d[i].value, e[i].value)
    ensures Masked(m, Dict(d)) == Masked(m, Dict(e)) <==> LowEqual(m, Dict(d), Dict(e))
  {
    var p, q := Masked(m, Dict(d)).entries, Masked(m, Dict(e)).entries;
    assert |p| == |d| && |q| == |e|;
    if |d| == |e| {
      forall i | 0 <= i < |d|
        ensures p[i] == q[i] <==>
          d[i].key == e[i].key && (Sensitive(m, d[i].key) || LowEqual(m, d[i].value, e[i].value))
      {
      }
    }
  }

  // ----- combining maskers -----

  /** `both` looks for the keys that one or the other looks for. */
  ghost predicate Joins(both: Masker, p: Masker, q: Masker) {
    && both.mask == p.mask == q.mask
    && forall key :: Sensitive(both, key) <==> Sensitive(p, key) || Sensitive(q, key)
  }

  lemma PatternsJoin(p: Masker, q: Masker)
    requires p.mask == q.mask
    ensures Joins(Masker(p.patterns + q.patterns, p.mask), p, q)
  {
    var both := Masker(p.patterns + q.patterns, p.mask);
    forall key ensures Sensitive(both, key) <==> Sensitive(p, key) || Sensitive(q, key) {
      if Sensitive(p, key) {
        var i :| 0 <= i < |p.patterns| && p.patterns[i](key);
        assert both.patterns[i](key);
      }
      if Sensitive(q, key) {
        var i :| 0 <= i < |q.patterns| && q.patterns[i](key);
        assert both.patterns[|p.patterns| + i](key);
      }
    }
  }

  /** Masking with one list of patterns and then with another is masking with both. */
  lemma {:induction false} MaskingComposes(p: Masker, q: Masker, both: Masker, v: Value)
    requires Joins(both, p, q)
    ensures Masked(q, Masked(p, v)) == Masked(both, v)
    decreases v
  {
    match v
    case Scalar(_) =>
    case Tuple(_) =>
    case List(items) =>
      forall i | 0 <= i < |items| && items[i].Dict? ensures Masked(q, Masked(p, items[i])) == Masked(both, items[i]) {
        MaskingComposes(p, q, both, items[i]);
      }
    case Dict(entries) =>
      forall i | 0 <= i < |entries| ensures Masked(q, Masked(p, entries[i].value)) == Masked(both, entries[i].value) {
        MaskingComposes(p, q, both, entries[i].value);
      }
  }

  lemma {:induction false} MaskingIsIdempotent(m: Masker, v: Value)
    ensures Masked(m, Masked(m, v)) == Masked(m, v)
  {
    assert Joins(m, m, m);
    MaskingComposes(m, m, m, v);
  }

  lemma {:induction false} MaskersCommute(p: Masker, q: Masker, v: Value)
    requires p.mask == q.mask
    ensures Masked(q, Masked(p, v)) == Masked(p, Masked(q, v))
  {
    var both := Masker(p.patterns + q.patterns, p.mask);
    PatternsJoin(p, q);
    MaskingComposes(p, q, both, v);
    MaskingComposes(q, p, both, v);
  }

  /** Nothing but what stands below a sensitive key is changed. */
  lemma {:induction false} OnlySensitiveIsChanged(m: Masker, v: Value)
    ensures LowEqual(m, v, Masked(m, v))
  {
    MaskingIsIdempotent(m, v);
    MaskedAlikeIffLowEqual(m, v, Masked(m, v));
  }

  // ----- leaf by leaf -----

  /** Where a value stands: the positions of entries and items on the way to it. */
  type Path = seq<nat>

  function At(v: Value, path: Path): Option<Value>
    decreases path
  {
    if path == [] then Some(v)
    else
      match v
      case List(items) => if path[0] < |items| then At(items[path[0]], path[1..]) else None
      case Dict(entries) => if path[0] < |entries| then At(entries[path[0]].value, path[1..]) else None
      case _ => None
  }

  /** On the way a pattern finds a key, before the way enters a list item that is no dictionary. */
  predicate KeyIsFound(patterns: seq<string -> bool>, v: Value, path: Path)
    decreases path
  {
    && path != []
    && match v
       case List(items) => path[0] < |items| && items[path[0]].Dict? && KeyIsFound(patterns, items[path[0]], path[1..])
       case Dict(entries) =>
         && path[0] < |entries|
         && ((exists i | 0 <= i < |patterns| :: patterns[i](entries[path[0]].key))
             || KeyIsFound(patterns, entries[path[0]].value, path[1..]))
       case _ => false
  }

  /** Every leaf is either where it was, or hidden: it is hidden if and only if some pattern
      finds a key on the way to it, and then the mask, or nothing, is in its place. */
  lemma {:induction false} LeafByLeaf(patterns: seq<string -> bool>, mask: string, v: Value, path: Path, text: string)
    requires At(v, path) == Some(Scalar(text))
    ensures var after := At(Masked(Masker(patterns, mask), v), path);
      if KeyIsFound(patterns, v, path) then after == None || after == Some(Scalar(mask)) else after == Some(Scalar(text))
    decreases path
  {
    var m := Masker(patterns, mask);
    if path != [] {
      match v
      case List(items) =>
        var item := items[path[0]];
        assert Masked(m, v).items[path[0]] == if item.Dict? then Masked(m, item) else item;
        if item.Dict? {
          LeafByLeaf(patterns, mask, item, path[1..], text);
        }
      case Dict(entries) =>
        var e := entries[path[0]];
        assert Sensitive(m, e.key) <==> exists i | 0 <= i < |patterns| :: patterns[i](e.key);
        assert Masked(m, v).entries[path[0]].value == if Sensitive(m, e.key) then Scalar(mask) else Masked(m, e.value);
        if !Sensitive(m, e.key) {
          LeafByLeaf(patterns, mask, e.value, path[1..], text);
        }
      case _ =>
    }
  }

  // ----- what is hidden -----

  /** At any depth, a sensitive key has the mask for its value. */
  predicate Hidden(m: Masker, v: Value) {
    match v
    case Scalar(_) => true
    case Tuple(items) => forall i | 0 <= i < |items| :: Hidden(m, items[i])
    case List(items) => forall i | 0 <= i < |items| :: Hidden(m, items[i])
    case Dict(entries) =>
      forall i | 0 <= i < |entries| ::
        if Sensitive(m, entries[i].key) then entries[i].value == Scalar(m.mask) else Hidden(m, entries[i].value)
  }

  /** Whatever stands in a tuple or in a list inside a list, above the first sensitive key, is
      hidden already. */
  predicate NestedListsHidden(m: Masker, v: Value) {
    match v
    case Scalar(_) => true
    case Tuple(_) => Hidden(m, v)
    case List(items) =>
      forall i | 0 <= i < |items| :: if items[i].List? then Hidden(m, items[i]) else NestedListsHidden(m, items[i])
    case Dict(entries) =>
      forall i | 0 <= i < |entries| :: Sensitive(m, entries[i].key) || NestedListsHidden(m, entries[i].value)
  }

  /** Masking hides every sensitive value exactly when the lists inside lists and the
      tuples held none. */
  lemma {:induction false} HidesAllIffNestedListsDo(m: Masker, v: Value)
    ensures Hidden(m, Masked(m, v)) <==> NestedListsHidden(m, v)
    decreases v
  {
    match v
    case Scalar(_) =>
    case Tuple(_) =>
    case List(items) =>
      var masked := Masked(m, v).items;
      forall i | 0 <= i < |items|
        ensures Hidden(m, masked[i]) <==>
          if items[i].List? then Hidden(m, items[i]) else NestedListsHidden(m, items[i])
      {
        if items[i].Dict? {
          HidesAllIffNestedListsDo(m, items[i]);
        }
      }
    case Dict(entries) =>
      var masked := Masked(m, v).entries;
      forall i | 0 <= i < |entries|
        ensures (if Sensitive(m, entries[i].key) then masked[i].value == Scalar(m.mask) else Hidden(m, masked[i].value))
          <==> Sensitive(m, entries[i].key) || NestedListsHidden(m, entries[i].value)
      {
        HidesAllIffNestedListsDo(m, entries[i].value);
      }
  }

  /** A password in a list of lists stays. */
  lemma NestedListExample(m: Masker)
    requires Sensitive(m, "password") && !Sensitive(m, "rows") && m.mask != "hunter2"
    ensures var event := Dict([Item("rows", List([List([Dict([Item("password", Scalar("hunter2"))])])]))]);
      Masked(m, event) == event && !Hidden(m, event)
  {
    var secret := Item("password", Scalar("hunter2"));
    var inner := Dict([secret]);
    var row := List([inner]);
    var rows := List([row]);
    assert !Hidden(m, inner) by {
      assert [secret][0] == secret;
    }
    assert !Hidden(m, row) by {
      assert [inner][0] == inner;
    }
    assert !Hidden(m, rows) by {
      assert [row][0] == row;
    }
    assert Masked(m, rows) == rows;
    var event := Dict([Item("rows", rows)]);
    assert event.entries[0].value == rows;
    assert Masked(m, event) == event;
  }
}

/** The order on keys is strict and total, so sorting items by distinct keys depends on
    the set of items only. */
module JsonOrder {
  import opened Dicts
  import opened Json

  lemma {:induction false} BeforeTotal(a: string, b: string)
    ensures Before(a, b) || Before(b, a) || a == b
    ensures !(Before(a, b) && Before(b, a))
    ensures !Before(a, a)
  {
    if a != "" {
      BeforeTotal(a[1..], if b == "" then b else b[1..]);
      if b != "" && a[0] == b[0] && a[1..] == b[1..] {
        assert a == [a[0]] + a[1..] == [b[0]] + b[1..] == b;
      }
    }
  }

  lemma {:induction false} BeforeTransitive(a: string, b: string, c: string)
    requires Before(a, b) && Before(b, c)
    ensures Before(a, c)
  {
    if a != "" && b != "" && c != "" && a[0] == b[0] == c[0] {
      BeforeTransitive(a[1..], b[1..], c[1..]);
    }
  }

  predicate Sorted<T>(ms: seq<Item<T>>) {
    forall i, j | 0 <= i < j < |ms| :: Before(ms[i].key, ms[j].key)
  }

  lemma {:induction false} InsertElements<T(!new)>(m: Item<T>, s: seq<Item<T>>)
    ensures forall x :: x in Insert(m, s) <==> x == m || x in s
  {
    if s != [] && !Before(m.key, s[0].key) {
      InsertElements(m, s[1..]);
      assert s == [s[0]] + s[1..];
    }
  }

  lemma {:induction false} InsertSorted<T(!new)>(m: Item<T>, s: seq<Item<T>>)
    requires Sorted(s) && forall x | x in s :: x.key != m.key
    ensures Sorted(Insert(m, s))
  {
    var r := Insert(m, s);
    if s != [] {
      BeforeTotal(m.key, s[0].key);
      if Before(m.key, s[0].key) {
        forall j | 0 < j < |r| ensures Before(m.key, r[j].key) {
          if j > 1 {
            BeforeTransitive(m.key, s[0].key, s[j - 1].key);
          }
        }
      } else {
        InsertSorted(m, s[1..]);
        InsertElements(m, s[1..]);
        forall j | 0 < j < |r| ensures Before(r[0].key, r[j].key) {
          assert r[j] == Insert(m, s[1..])[j - 1];
          assert r[j] in Insert(m, s[1..]);
          assert r[j] == m || r[j] in s[1..];
          if r[j] != m {
            var k :| 0 <= k < |s[1..]| && s[1..][k] == r[j];
            assert s[k + 1] == r[j];
          }
        }
      }
    }
  }

  lemma {:induction false} SortElements<T(!new)>(ms: seq<Item<T>>)
    ensures forall x :: x in SortItems(ms) <==> x in ms
  {
    if ms != [] {
      SortElements(ms[1..]);
      InsertElements(ms[0], SortItems(ms[1..]));
      assert ms == [ms[0]] + ms[1..];
    }
  }

  lemma {:induction false} SortSorted<T(!new)>(ms: seq<Item<T>>)
    requires Distinct(ms)
    ensures Sorted(SortItems(ms))
  {
    if ms != [] {
      SortSorted(ms[1..]);
      SortElements(ms[1..]);
      forall x | x in SortItems(ms[1..]) ensures x.key != ms[0].key {
        assert x in ms[1..];
        var i :| 0 <= i < |ms[1..]| && ms[1..][i] == x;
        assert ms[i + 1] == x;
      }
      InsertSorted(ms[0], SortItems(ms[1..]));
    }
  }

  lemma {:induction false} SortedUnique<T(!new)>(p: seq<Item<T>>, q: seq<Item<T>>)
    requires Sorted(p) && Sorted(q)
    requires forall x :: x in p <==> x in q
    ensures p == q
  {
    assert p != [] ==> p[0] in q;
    assert q != [] ==> q[0] in p;
    if p != [] && q != [] {
      SameHead(p, q);
      TailElements(p);
      TailElements(q);
      SortedUnique(p[1..], q[1..]);
      assert p == [p[0]] + p[1..] && q == [q[0]] + q[1..];
    }
  }

  lemma SameHead<T(!new)>(p: seq<Item<T>>, q: seq<Item<T>>)
    requires Sorted(p) && Sorted(q) && p != [] && q != []
    requires forall x :: x in p <==> x in q
    ensures p[0] == q[0]
  {
    assert p[0] in q && q[0] in p;
    BeforeTotal(p[0].key, q[0].key);
  }

  lemma TailElements<T(!new)>(p: seq<Item<T>>)
    requires Sorted(p) && p != []
    ensures forall x :: x in p[1..] <==> x in p && x != p[0]
  {
    assert p == [p[0]] + p[1..];
    BeforeTotal(p[0].key, p[0].key);
    forall x | x in p[1..] ensures x != p[0] {
      var i :| 0 <= i < |p[1..]| && p[1..][i] == x;
      assert p[i + 1] == x;
    }
  }

  /** Items that form the same set are sorted into the same list. */
  lemma SortIgnoresOrder<T(!new)>(ms: seq<Item<T>>, ns: seq<Item<T>>)
    requires Distinct(ms) && Distinct(ns)
    requires forall x :: x in ms <==> x in ns
    ensures SortItems(ms) == SortItems(ns)
  {
    SortElements(ms);
    SortElements(ns);
    SortSorted(ms);
    SortSorted(ns);
    SortedUnique(SortItems(ms), SortItems(ns));
  }
}

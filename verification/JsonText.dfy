/** `json.dumps` tells values apart: two values have the same text exactly when they are
    equal up to the order of keys. */
module JsonText {
  import opened Dicts
  import opened Json
  import opened JsonOrder

  // ----- equal values have the same text -----

  lemma {:induction false} EqualSameText(v: Json, w: Json, level: nat)
    requires WellFormed(v) && WellFormed(w) && Equal(v, w)
    ensures Render(v, level) == Render(w, level)
    decreases v, 0
  {
    if v.Array? && w.Array? {
      ItemsSameText(v.items, w.items, level + 1);
    } else if v.Object? && w.Object? {
      EqualObjects(v.members, w.members);
      Included(v.members, w.members, level + 1);
      IncludedBack(v.members, w.members, level + 1);
      SameItemsSameText(v.members, w.members, level, level + 1);
    } else {
      assert v == w;
    }
  }

  lemma EqualObjects(ms: seq<Item<Json>>, ns: seq<Item<Json>>)
    requires Equal(Object(ms), Object(ns))
    ensures forall m | m in ms :: exists n | n in ns :: Partner(m, n)
    ensures forall n | n in ns :: exists m | m in ms :: Partner(m, n)
  {
  }

  lemma SameItemsSameText(ms: seq<Item<Json>>, ns: seq<Item<Json>>, level: nat, inner: nat)
    requires Distinct(ms) && Distinct(ns) && inner == level + 1
    requires forall x | x in RenderMembers(ms, inner) :: x in RenderMembers(ns, inner)
    requires forall x | x in RenderMembers(ns, inner) :: x in RenderMembers(ms, inner)
    ensures Render(Object(ms), level) == Render(Object(ns), level)
  {
    var p, q := RenderMembers(ms, inner), RenderMembers(ns, inner);
    RenderedDistinct(ms, inner);
    RenderedDistinct(ns, inner);
    SortIgnoresOrder(p, q);
    EmptyTogether(p, q);
  }

  lemma EmptyTogether(p: seq<Item<string>>, q: seq<Item<string>>)
    requires (forall x | x in p :: x in q) && forall x | x in q :: x in p
    ensures p == [] <==> q == []
  {
    assert p != [] ==> p[0] in q;
    assert q != [] ==> q[0] in p;
  }

  lemma {:induction false} ItemsSameText(xs: seq<Json>, ys: seq<Json>, level: nat)
    requires |xs| == |ys| && forall i | 0 <= i < |xs| :: Equal(xs[i], ys[i])
    requires (forall x | x in xs :: WellFormed(x)) && forall y | y in ys :: WellFormed(y)
    ensures RenderItems(xs, level) == RenderItems(ys, level)
    decreases xs, 1
  {
    if xs != [] {
      EqualSameText(xs[0], ys[0], level);
      ItemsSameText(xs[1..], ys[1..], level);
    }
  }

  lemma {:induction false} Included(ms: seq<Item<Json>>, ns: seq<Item<Json>>, level: nat)
    requires forall m | m in ms :: WellFormed(m.value)
    requires forall n | n in ns :: WellFormed(n.value)
    requires forall m | m in ms :: exists n | n in ns :: Partner(m, n)
    ensures forall x | x in RenderMembers(ms, level) :: x in RenderMembers(ns, level)
    decreases ms, 1
  {
    if ms != [] {
      assert ms[0] in ms && forall m | m in ms[1..] :: m in ms;
      var n :| n in ns && Partner(ms[0], n);
      EqualSameText(ms[0].value, n.value, level);
      Rendered(ns, n, level);
      Included(ms[1..], ns, level);
    }
  }

  lemma {:induction false} IncludedBack(ms: seq<Item<Json>>, ns: seq<Item<Json>>, level: nat)
    requires forall m | m in ms :: WellFormed(m.value)
    requires forall n | n in ns :: WellFormed(n.value)
    requires forall n | n in ns :: exists m | m in ms :: Partner(m, n)
    ensures forall x | x in RenderMembers(ns, level) :: x in RenderMembers(ms, level)
    decreases ms, 1, ns
  {
    if ns != [] {
      assert ns[0] in ns && forall n | n in ns[1..] :: n in ns;
      var m :| m in ms && Partner(m, ns[0]);
      EqualSameText(m.value, ns[0].value, level);
      Rendered(ms, m, level);
      IncludedBack(ms, ns[1..], level);
    }
  }

  lemma {:induction false} Rendered(ms: seq<Item<Json>>, m: Item<Json>, level: nat)
    requires m in ms
    ensures Item(m.key, Render(m.value, level)) in RenderMembers(ms, level)
  {
    if m != ms[0] {
      Rendered(ms[1..], m, level);
    }
  }

  lemma {:induction false} RenderedKeys(ms: seq<Item<Json>>, level: nat)
    ensures |RenderMembers(ms, level)| == |ms|
    ensures forall i | 0 <= i < |ms| :: RenderMembers(ms, level)[i].key == ms[i].key
  {
    if ms != [] {
      RenderedKeys(ms[1..], level);
    }
  }

  lemma RenderedDistinct(ms: seq<Item<Json>>, level: nat)
    requires Distinct(ms)
    ensures |RenderMembers(ms, level)| == |ms| && Distinct(RenderMembers(ms, level))
  {
    RenderedKeys(ms, level);
  }

  // ----- strings -----

  lemma HexDigitInjective(m: nat, n: nat)
    requires m < 16 && n < 16 && HexDigit(m) == HexDigit(n)
    ensures m == n
  {
  }

  function Nibbles(n: nat): (nat, nat, nat, nat) {
    (n / 4096, n / 256 % 16, n / 16 % 16, n % 16)
  }

  lemma NibblesInjective(m: nat, n: nat)
    requires Nibbles(m) == Nibbles(n)
    ensures m == n
  {
    FromNibbles(m);
    FromNibbles(n);
  }

  lemma FromNibbles(n: nat)
    ensures n == n / 4096 * 4096 + n / 256 % 16 * 256 + n / 16 % 16 * 16 + n % 16
  {
    assert n / 16 / 16 == n / 256 && n / 256 / 16 == n / 4096;
  }

  lemma UnicodeEscapeInjective(m: nat, n: nat)
    requires m < 0x10000 && n < 0x10000 && UnicodeEscape(m) == UnicodeEscape(n)
    ensures m == n
  {
    var p, q := UnicodeEscape(m), UnicodeEscape(n);
    var (a, b, c, d) := Nibbles(m);
    var (e, f, g, h) := Nibbles(n);
    assert p[2] == HexDigit(a) && p[3] == HexDigit(b) && p[4] == HexDigit(c) && p[5] == HexDigit(d);
    assert q[2] == HexDigit(e) && q[3] == HexDigit(f) && q[4] == HexDigit(g) && q[5] == HexDigit(h);
    HexDigitInjective(a, e);
    HexDigitInjective(b, f);
    HexDigitInjective(c, g);
    HexDigitInjective(d, h);
    NibblesInjective(m, n);
  }

  /** Two codes, one of which begins the other, are the same code. */
  lemma CodesArePrefixFree(c: char, d: char)
    requires CharCode(c) <= CharCode(d)
    ensures c == d
  {
    var p, q := CharCode(c), CharCode(d);
    assert p[0] == q[0];
    if |p| > 1 {
      assert p[1] == q[1];
      if |p| >= 6 {
        assert p[..6] == q[..6];
        LongCodes(c, d);
      }
    }
  }

  /** The code of a character can be told from what follows it. */
  lemma CharCodePrefix(c: char, d: char, x: string, y: string)
    requires CharCode(c) + x == CharCode(d) + y
    ensures c == d && x == y
  {
    var p, q := CharCode(c), CharCode(d);
    var s := p + x;
    assert s == q + y;
    assert p == s[..|p|] && q == s[..|q|];
    if |p| <= |q| {
      assert p == q[..|p|];
      CodesArePrefixFree(c, d);
    } else {
      assert q == p[..|q|];
      CodesArePrefixFree(d, c);
    }
    assert x == s[|p|..] && y == s[|q|..];
  }

  /** The first six characters of a code of six or more, as the number they escape. */
  function LeadingUnit(c: char): nat {
    var n := c as nat;
    if n < 0x10000 then n else 0xD800 + (n - 0x10000) / 0x400
  }

  function TrailingUnit(c: char): nat
    requires c as nat >= 0x10000
  {
    0xDC00 + (c as nat - 0x10000) % 0x400
  }

  lemma LongCode(c: char)
    requires |CharCode(c)| >= 6
    ensures LeadingUnit(c) < 0x10000 && CharCode(c)[..6] == UnicodeEscape(LeadingUnit(c))
    ensures c as nat >= 0x10000 ==> TrailingUnit(c) < 0x10000 && CharCode(c)[6..] == UnicodeEscape(TrailingUnit(c))
    ensures c as nat < 0x10000 ==> |CharCode(c)| == 6
  {
  }

  lemma SameUnits(c: char, d: char)
    requires LeadingUnit(c) == LeadingUnit(d)
    requires c as nat >= 0x10000 && d as nat >= 0x10000 ==> TrailingUnit(c) == TrailingUnit(d)
    ensures c == d
  {
  }

  lemma LongCodes(c: char, d: char)
    requires |CharCode(c)| >= 6 && |CharCode(d)| >= 6
    requires CharCode(c) <= CharCode(d)
    ensures c == d
  {
    LongCode(c);
    LongCode(d);
    assert CharCode(c)[..6] == CharCode(d)[..6];
    UnicodeEscapeInjective(LeadingUnit(c), LeadingUnit(d));
    if c as nat >= 0x10000 && d as nat >= 0x10000 {
      assert CharCode(c)[6..] == CharCode(d)[6..];
      UnicodeEscapeInjective(TrailingUnit(c), TrailingUnit(d));
    }
    SameUnits(c, d);
  }

  lemma EscapeHead(s: string, rest: string)
    requires s != ""
    ensures Escape(s) + rest == CharCode(s[0]) + (Escape(s[1..]) + rest)
    ensures (Escape(s) + rest)[0] != '\"'
  {
    CharCodeStart(s[0]);
  }

  lemma CharCodeStart(c: char)
    ensures CharCode(c) != "" && CharCode(c)[0] != '\"'
  {
  }

  lemma {:induction false} EscapePrefix(s: string, t: string, a: string, b: string)
    requires Escape(s) + ("\"" + a) == Escape(t) + ("\"" + b)
    ensures s == t && a == b
  {
    if s == "" || t == "" {
      EmptyPrefix(s, t, a, b);
    } else {
      EscapeHead(s, "\"" + a);
      EscapeHead(t, "\"" + b);
      CharCodePrefix(s[0], t[0], Escape(s[1..]) + ("\"" + a), Escape(t[1..]) + ("\"" + b));
      EscapePrefix(s[1..], t[1..], a, b);
      assert s == [s[0]] + s[1..] && t == [t[0]] + t[1..];
    }
  }

  lemma EmptyPrefix(s: string, t: string, a: string, b: string)
    requires s == "" || t == ""
    requires Escape(s) + ("\"" + a) == Escape(t) + ("\"" + b)
    ensures s == t && a == b
  {
    var all := Escape(s) + ("\"" + a);
    if s != "" { EscapeHead(s, "\"" + a); } else { assert all == "\"" + a; }
    if t != "" { EscapeHead(t, "\"" + b); } else { assert all == "\"" + b; }
    assert ("\"" + a)[1..] == a && ("\"" + b)[1..] == b;
  }

  lemma QuotePrefix(s: string, t: string, a: string, b: string)
    requires Quote(s) + a == Quote(t) + b
    ensures s == t && a == b
  {
    Shift("\"", Escape(s) + "\"", a);
    Shift(Escape(s), "\"", a);
    Shift("\"", Escape(t) + "\"", b);
    Shift(Escape(t), "\"", b);
    Cancel("\"", Escape(s) + ("\"" + a), Escape(t) + ("\"" + b));
    EscapePrefix(s, t, a, b);
  }

  // ----- numbers -----

  predicate NumberChars(s: string) {
    forall i | 0 <= i < |s| :: IsNumberChar(s[i])
  }

  /** What follows a value in a document never continues a number. */
  predicate Delimited(rest: string) {
    rest == "" || !IsNumberChar(rest[0])
  }

  lemma NumberPrefix(s: string, t: string, a: string, b: string)
    requires NumberChars(s) && NumberChars(t) && Delimited(a) && Delimited(b)
    requires s + a == t + b
    ensures s == t && a == b
  {
    var all := s + a;
    assert forall i | 0 <= i < |t| :: all[i] == t[i];
    assert |s| < |all| ==> all[|s|] == a[0];
    assert |t| < |all| ==> all[|t|] == b[0];
    assert s == all[..|s|] && t == all[..|t|] && a == all[|s|..] && b == all[|t|..];
  }

  lemma {:induction false} NatTextShape(n: nat)
    ensures NatText(n) != "" && forall i | 0 <= i < |NatText(n)| :: '0' <= NatText(n)[i] <= '9'
  {
    if n >= 10 {
      NatTextShape(n / 10);
    }
  }

  lemma {:induction false} NatTextInjective(m: nat, n: nat)
    requires NatText(m) == NatText(n)
    ensures m == n
  {
    var s := NatText(m);
    assert s[|s| - 1] == Digit(m % 10) && s[|s| - 1] == Digit(n % 10);
    NatTextShape(m / 10);
    NatTextShape(n / 10);
    if m >= 10 && n >= 10 {
      assert NatText(m / 10) == s[..|s| - 1] && NatText(n / 10) == s[..|s| - 1];
      NatTextInjective(m / 10, n / 10);
    }
  }

  lemma IntTextShape(n: int)
    ensures IntText(n) != "" && NumberChars(IntText(n)) && '.' !in IntText(n) && 'e' !in IntText(n)
    ensures IntText(n)[0] == '-' <==> n < 0
  {
    NatTextShape(if n < 0 then -n else n);
  }

  lemma IntTextInjective(m: int, n: int)
    requires IntText(m) == IntText(n)
    ensures m == n
  {
    IntTextShape(m);
    IntTextShape(n);
    if m < 0 {
      assert IntText(m)[1..] == NatText(-m) && IntText(n)[1..] == NatText(-n);
      NatTextInjective(-m, -n);
    } else {
      NatTextInjective(m, n);
    }
  }

  // ----- texts tell values apart -----

  /** The first character of a value's text, with '0' for every number. */
  function Opening(v: Json): char {
    match v
    case Null => 'n'
    case Bool(b) => if b then 't' else 'f'
    case String(_) => '\"'
    case Array(_) => '['
    case Object(_) => '{'
    case _ => '0'
  }

  lemma RenderStarts(v: Json, level: nat)
    requires WellFormed(v) && Finite(v)
    ensures var s := Render(v, level);
      s != "" && (if '0' <= s[0] <= '9' || s[0] == '-' then '0' else s[0]) == Opening(v)
  {
    if v.Int? {
      IntTextShape(v.n);
      NatTextShape(if v.n < 0 then -v.n else v.n);
    }
  }

  lemma SameKind(v: Json, w: Json, level: nat, a: string, b: string)
    requires WellFormed(v) && Finite(v) && WellFormed(w) && Finite(w)
    requires Render(v, level) + a == Render(w, level) + b
    ensures Opening(v) == Opening(w)
  {
    RenderStarts(v, level);
    RenderStarts(w, level);
    assert (Render(v, level) + a)[0] == Render(v, level)[0];
    assert (Render(w, level) + b)[0] == Render(w, level)[0];
  }

  lemma NumberUnique(v: Json, w: Json, level: nat, a: string, b: string)
    requires WellFormed(v) && WellFormed(w)
    requires (v.Int? || v.Float?) && (w.Int? || w.Float?)
    requires Delimited(a) && Delimited(b)
    requires Render(v, level) + a == Render(w, level) + b
    ensures v == w && a == b
  {
    if v.Int? { IntTextShape(v.n); }
    if w.Int? { IntTextShape(w.n); }
    NumberPrefix(Render(v, level), Render(w, level), a, b);
    if v.Int? && w.Int? {
      IntTextInjective(v.n, w.n);
    }
  }

  /** The same text stands before two rests that are equal. */
  lemma Cancel(p: string, a: string, b: string)
    requires p + a == p + b
    ensures a == b
  {
    assert a == (p + a)[|p|..] && b == (p + b)[|p|..];
  }

  /** After one element comes a comma if there is another, and a line end if not. */
  lemma RestStarts(texts: seq<string>, level: nat, close: char, a: string)
    requires texts != []
    ensures var x := Rest(texts, level, close) + a;
      && Delimited(x) && x[0] == (if |texts| == 1 then '\n' else ',')
      && Elements(texts, level, close) + a == texts[0] + x
      && (|texts| == 1 ==> x == NewLine(level) + ([close] + a))
      && (|texts| > 1 ==> x == "," + (NewLine(level + 1) + (Elements(texts[1..], level, close) + a)))
  {
    Shift(texts[0], Rest(texts, level, close), a);
    if |texts| == 1 {
      Shift(NewLine(level), [close], a);
    } else {
      var more := Elements(texts[1..], level, close);
      Shift(",", NewLine(level + 1) + more, a);
      Shift(NewLine(level + 1), more, a);
    }
  }

  lemma Shift(p: string, q: string, r: string)
    ensures p + q + r == p + (q + r)
  {
  }

  lemma PairHead(p: seq<Item<Json>>, level: nat, x: string)
    requires p != []
    ensures var s := Pairs(RenderMembers(p, level));
      s != [] && s[0] + x == Quote(p[0].key) + (": " + (Render(p[0].value, level) + x))
  {
    Shift(Quote(p[0].key), ": " + Render(p[0].value, level), x);
    Shift(": ", Render(p[0].value, level), x);
  }

  /** When what follows the first elements agrees, the texts agree from there on. */
  lemma SameRest(p: seq<string>, q: seq<string>, level: nat, close: char, a: string, b: string)
    requires p != [] && q != []
    requires Rest(p, level, close) + a == Rest(q, level, close) + b
    ensures |p| == 1 <==> |q| == 1
    ensures |p| == 1 ==> a == b
    ensures |p| > 1 ==> Elements(p[1..], level, close) + a == Elements(q[1..], level, close) + b
  {
    RestStarts(p, level, close, a);
    RestStarts(q, level, close, b);
    if |p| == 1 {
      Cancel(NewLine(level), [close] + a, [close] + b);
      Cancel([close], a, b);
    } else {
      var x, y := Elements(p[1..], level, close) + a, Elements(q[1..], level, close) + b;
      Cancel(",", NewLine(level + 1) + x, NewLine(level + 1) + y);
      Cancel(NewLine(level + 1), x, y);
    }
  }

  predicate Proper(v: Json) {
    WellFormed(v) && Finite(v)
  }

  lemma {:induction false} ItemsUnique(xs: seq<Json>, ys: seq<Json>, level: nat, a: string, b: string)
    requires xs != [] && ys != []
    requires (forall x | x in xs :: Proper(x)) && forall y | y in ys :: Proper(y)
    requires Elements(RenderItems(xs, level + 1), level, ']') + a == Elements(RenderItems(ys, level + 1), level, ']') + b
    ensures |xs| == |ys| && (forall i | 0 <= i < |xs| :: Equal(xs[i], ys[i])) && a == b
    decreases xs, 0
  {
    var p, q := RenderItems(xs, level + 1), RenderItems(ys, level + 1);
    var x, y := Rest(p, level, ']') + a, Rest(q, level, ']') + b;
    RestStarts(p, level, ']', a);
    RestStarts(q, level, ']', b);
    ValueUnique(xs[0], ys[0], level + 1, x, y);
    SameRest(p, q, level, ']', a, b);
    assert p[1..] == RenderItems(xs[1..], level + 1) && q[1..] == RenderItems(ys[1..], level + 1);
    RenderItemsLength(xs, level + 1);
    RenderItemsLength(ys, level + 1);
    if |xs| > 1 {
      ItemsUnique(xs[1..], ys[1..], level, a, b);
      assert forall i | 1 <= i < |xs| :: xs[i] == xs[1..][i - 1] && ys[i] == ys[1..][i - 1];
    }
  }

  lemma {:induction false} RenderItemsLength(xs: seq<Json>, level: nat)
    ensures |RenderItems(xs, level)| == |xs|
  {
    if xs != [] {
      RenderItemsLength(xs[1..], level);
    }
  }

  lemma FirstPairUnique(p: seq<Item<Json>>, q: seq<Item<Json>>, s: seq<string>, t: seq<string>, level: nat, a: string, b: string)
    requires p != [] && q != []
    requires s == Pairs(RenderMembers(p, level + 1)) && t == Pairs(RenderMembers(q, level + 1)) && s != [] && t != []
    requires Elements(s, level, '}') + a == Elements(t, level, '}') + b
    ensures p[0].key == q[0].key
    ensures Render(p[0].value, level + 1) + (Rest(s, level, '}') + a) == Render(q[0].value, level + 1) + (Rest(t, level, '}') + b)
  {
    var x, y := Rest(s, level, '}') + a, Rest(t, level, '}') + b;
    RestStarts(s, level, '}', a);
    RestStarts(t, level, '}', b);
    var v, w := Render(p[0].value, level + 1) + x, Render(q[0].value, level + 1) + y;
    PairHead(p, level + 1, x);
    PairHead(q, level + 1, y);
    QuotePrefix(p[0].key, q[0].key, ": " + v, ": " + w);
    Cancel(": ", v, w);
  }

  /** `p` and `q` are members of two objects, in the order they are printed. */
  lemma {:induction false} PairsUnique(ms: seq<Item<Json>>, p: seq<Item<Json>>, q: seq<Item<Json>>, level: nat,
                                       a: string, b: string)
    requires p != [] && q != [] && forall m | m in p :: m in ms
    requires (forall m | m in p :: Proper(m.value)) && forall n | n in q :: Proper(n.value)
    requires Elements(Pairs(RenderMembers(p, level + 1)), level, '}') + a
          == Elements(Pairs(RenderMembers(q, level + 1)), level, '}') + b
    ensures |p| == |q| && (forall i | 0 <= i < |p| :: Partner(p[i], q[i])) && a == b
    decreases ms, 0, p
  {
    var s, t := Pairs(RenderMembers(p, level + 1)), Pairs(RenderMembers(q, level + 1));
    PairsTail(p, level + 1);
    PairsTail(q, level + 1);
    FirstPairUnique(p, q, s, t, level, a, b);
    RestStarts(s, level, '}', a);
    RestStarts(t, level, '}', b);
    assert p[0] in ms;
    var i :| 0 <= i < |ms| && ms[i] == p[0];
    ValueUnique(ms[i].value, q[0].value, level + 1, Rest(s, level, '}') + a, Rest(t, level, '}') + b);
    SameRest(s, t, level, '}', a, b);
    MorePairs(ms, p, q, level, a, b);
  }

  lemma {:induction false} MorePairs(ms: seq<Item<Json>>, p: seq<Item<Json>>, q: seq<Item<Json>>, level: nat,
                                     a: string, b: string)
    requires p != [] && q != [] && forall m | m in p :: m in ms
    requires (forall m | m in p :: Proper(m.value)) && forall n | n in q :: Proper(n.value)
    requires Partner(p[0], q[0])
    requires |p| == 1 <==> |q| == 1
    requires |p| == 1 ==> a == b
    requires |p| > 1 ==>
      Elements(Pairs(RenderMembers(p[1..], level + 1)), level, '}') + a
      == Elements(Pairs(RenderMembers(q[1..], level + 1)), level, '}') + b
    ensures |p| == |q| && (forall i | 0 <= i < |p| :: Partner(p[i], q[i])) && a == b
    decreases ms, 0, p, 0
  {
    if |p| > 1 {
      PairsUnique(ms, p[1..], q[1..], level, a, b);
      forall i | 0 <= i < |p| ensures Partner(p[i], q[i]) {
        if i > 0 {
          assert p[i] == p[1..][i - 1] && q[i] == q[1..][i - 1];
        }
      }
    }
  }

  lemma {:induction false} PairsTail(p: seq<Item<Json>>, level: nat)
    requires p != []
    ensures |Pairs(RenderMembers(p, level))| == |p|
    ensures Pairs(RenderMembers(p, level))[1..] == Pairs(RenderMembers(p[1..], level))
  {
    assert RenderMembers(p, level)[1..] == RenderMembers(p[1..], level);
    if |p| > 1 {
      PairsTail(p[1..], level);
    }
  }

  lemma {:induction false} InsertRendered(m: Item<Json>, ms: seq<Item<Json>>, level: nat)
    ensures Insert(Item(m.key, Render(m.value, level)), RenderMembers(ms, level)) == RenderMembers(Insert(m, ms), level)
  {
    if ms != [] {
      InsertRendered(m, ms[1..], level);
      assert ([m] + ms)[1..] == ms;
    }
  }

  /** Sorting the rendered members is rendering the sorted members. */
  lemma {:induction false} SortRendered(ms: seq<Item<Json>>, level: nat)
    ensures SortItems(RenderMembers(ms, level)) == RenderMembers(SortItems(ms), level)
  {
    if ms != [] {
      SortRendered(ms[1..], level);
      InsertRendered(ms[0], SortItems(ms[1..]), level);
    }
  }

  lemma {:induction false} ValueUnique(v: Json, w: Json, level: nat, a: string, b: string)
    requires Proper(v) && Proper(w) && Delimited(a) && Delimited(b)
    requires Render(v, level) + a == Render(w, level) + b
    ensures Equal(v, w) && a == b
    decreases v, 1
  {
    SameKind(v, w, level, a, b);
    match v
    case Int(_) => NumberUnique(v, w, level, a, b);
    case Float(_) => NumberUnique(v, w, level, a, b);
    case String(s) => QuotePrefix(s, w.s, a, b);
    case Array(xs) =>
      if xs == [] || w.items == [] {
        EmptyUnique(v, w, level, a, b);
      } else {
        OpenBracket("[", NewLine(level + 1), Elements(RenderItems(xs, level + 1), level, ']'),
                    Elements(RenderItems(w.items, level + 1), level, ']'), a, b);
        ItemsUnique(xs, w.items, level, a, b);
      }
    case Object(ms) =>
      if ms == [] || w.members == [] {
        EmptyUnique(v, w, level, a, b);
      } else {
        OpenBracket("{", NewLine(level + 1), Elements(Pairs(SortItems(RenderMembers(ms, level + 1))), level, '}'),
                    Elements(Pairs(SortItems(RenderMembers(w.members, level + 1))), level, '}'), a, b);
        MembersUnique(ms, w.members, level, a, b);
      }
    case _ => Cancel(Render(v, level), a, b);
  }

  lemma OpenBracket(open: string, line: string, p: string, q: string, a: string, b: string)
    requires open + (line + p) + a == open + (line + q) + b
    ensures p + a == q + b
  {
    Shift(open, line + p, a);
    Shift(line, p, a);
    Shift(open, line + q, b);
    Shift(line, q, b);
    Cancel(open, line + (p + a), line + (q + b));
    Cancel(line, p + a, q + b);
  }

  /** An empty array or object shows at its second character. */
  lemma EmptyUnique(v: Json, w: Json, level: nat, a: string, b: string)
    requires (v.Array? && w.Array?) || (v.Object? && w.Object?)
    requires v.Array? ==> v.items == [] || w.items == []
    requires v.Object? ==> v.members == [] || w.members == []
    requires Render(v, level) + a == Render(w, level) + b
    ensures Equal(v, w) && a == b
  {
    SecondChar(v, level);
    SecondChar(w, level);
    assert (Render(v, level) + a)[1] == Render(v, level)[1];
    assert (Render(w, level) + b)[1] == Render(w, level)[1];
    assert Render(v, level) == Render(w, level);
    Cancel(Render(v, level), a, b);
  }

  lemma SecondChar(v: Json, level: nat)
    requires v.Array? || v.Object?
    ensures |Render(v, level)| > 1
    ensures Render(v, level)[1] == '\n' <==> (if v.Array? then v.items != [] else v.members != [])
  {
  }

  lemma SortedMembers(ms: seq<Item<Json>>, level: nat)
    ensures SortItems(RenderMembers(ms, level)) == RenderMembers(SortItems(ms), level)
    ensures forall m :: m in SortItems(ms) <==> m in ms
    ensures ms != [] ==> SortItems(ms) != []
  {
    SortRendered(ms, level);
    SortElements(ms);
    assert ms != [] ==> ms[0] in SortItems(ms);
  }

  lemma {:induction false} MembersUnique(ms: seq<Item<Json>>, ns: seq<Item<Json>>, level: nat, a: string, b: string)
    requires Proper(Object(ms)) && Proper(Object(ns)) && ms != [] && ns != []
    requires Elements(Pairs(SortItems(RenderMembers(ms, level + 1))), level, '}') + a
          == Elements(Pairs(SortItems(RenderMembers(ns, level + 1))), level, '}') + b
    ensures Equal(Object(ms), Object(ns)) && a == b
    decreases ms, 1
  {
    var p, q := SortItems(ms), SortItems(ns);
    SortedMembers(ms, level + 1);
    SortedMembers(ns, level + 1);
    PairsUnique(ms, p, q, level, a, b);
    Partners(ms, ns, p, q);
  }

  lemma Partners(ms: seq<Item<Json>>, ns: seq<Item<Json>>, p: seq<Item<Json>>, q: seq<Item<Json>>)
    requires |p| == |q| && forall i | 0 <= i < |p| :: Partner(p[i], q[i])
    requires (forall m | m in ms :: m in p) && (forall m | m in p :: m in ms)
    requires (forall n | n in ns :: n in q) && (forall n | n in q :: n in ns)
    ensures Equal(Object(ms), Object(ns))
  {
    forall m | m in ms ensures exists n | n in ns :: Partner(m, n) {
      var i :| 0 <= i < |p| && p[i] == m;
      assert q[i] in ns && Partner(m, q[i]);
    }
    forall n | n in ns ensures exists m | m in ms :: Partner(m, n) {
      var i :| 0 <= i < |q| && q[i] == n;
      assert p[i] in ms && Partner(p[i], n);
    }
  }

  /** Two values have the same text exactly when they are the same up to key order. */
  lemma SameTextIffEqual(v: Json, w: Json)
    requires WellFormed(v) && WellFormed(w)
    requires Dumps(v).Some? && Dumps(w).Some?
    ensures Dumps(v) == Dumps(w) <==> Equal(v, w)
  {
    if Equal(v, w) {
      EqualSameText(v, w, 0);
    } else if Render(v, 0) == Render(w, 0) {
      ValueUnique(v, w, 0, "", "");
    }
  }

  /** On the values that can be printed, equality up to key order is an equivalence. */
  lemma EqualIsAnEquivalence(u: Json, v: Json, w: Json)
    requires Proper(u) && Proper(v) && Proper(w)
    ensures Equal(u, u)
    ensures Equal(u, v) <==> Equal(v, u)
    ensures Equal(u, v) && Equal(v, w) ==> Equal(u, w)
  {
    SameTextIffEqual(u, u);
    SameTextIffEqual(u, v);
    SameTextIffEqual(v, u);
    SameTextIffEqual(v, w);
    SameTextIffEqual(u, w);
  }
}

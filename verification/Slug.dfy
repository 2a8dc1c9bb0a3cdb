/** The slug function of the Kong migrator and its algebra. */
module Slug {
  import opened Text

  predicate IsWordChar(c: char) {
    'a' <= c <= 'z' || '0' <= c <= '9'
  }

  function SkipOthers(s: string): (r: string)
    ensures |r| <= |s|
    ensures s != "" && !IsWordChar(s[0]) ==> |r| < |s|
    ensures r == "" || IsWordChar(r[0])
  {
    if s == "" || IsWordChar(s[0]) then s else SkipOthers(s[1..])
  }

  /** `re.sub(r"[^a-z0-9]+", "-", s)` */
  function Dashed(s: string): string
    decreases |s|
  {
    if s == "" then ""
    else if IsWordChar(s[0]) then [s[0]] + Dashed(s[1..])
    else "-" + Dashed(SkipOthers(s))
  }

  function StripLeft(s: string): string {
    if s != "" && s[0] == '-' then StripLeft(s[1..]) else s
  }

  function StripRight(s: string): string {
    if s != "" && s[|s| - 1] == '-' then StripRight(s[..|s| - 1]) else s
  }

  function Slugify(name: string): string {
    StripLeft(StripRight(Dashed(Lower(name))))
  }

  // ----- a slug is its words joined by hyphens -----

  function WordLength(s: string): (n: nat)
    ensures n <= |s|
    ensures forall i | 0 <= i < n :: IsWordChar(s[i])
    ensures n == |s| || !IsWordChar(s[n])
  {
    if s == "" || !IsWordChar(s[0]) then 0 else 1 + WordLength(s[1..])
  }

  /** The maximal runs of lower-case letters and digits. */
  function Words(s: string): (ws: seq<string>)
    ensures forall w | w in ws :: IsWord(w)
    decreases |s|
  {
    if s == "" then []
    else if IsWordChar(s[0]) then
      assert WordLength(s) > 0;
      [s[..WordLength(s)]] + Words(s[WordLength(s)..])
    else Words(s[1..])
  }

  predicate IsWord(w: string) {
    w != "" && forall i | 0 <= i < |w| :: IsWordChar(w[i])
  }

  function Hyphenate(ws: seq<string>): string {
    if ws == [] then "" else if |ws| == 1 then ws[0] else ws[0] + ("-" + Hyphenate(ws[1..]))
  }

  lemma {:induction false} DashedRun(w: string, s: string)
    requires forall i | 0 <= i < |w| :: IsWordChar(w[i])
    ensures Dashed(w + s) == w + Dashed(s)
  {
    if w == "" {
      assert w + s == s;
    } else {
      assert (w + s)[1..] == w[1..] + s;
      DashedRun(w[1..], s);
    }
  }

  lemma {:induction false} StripRightKeeps(a: string, b: string)
    requires a != "" && a[|a| - 1] != '-'
    ensures StripRight(a + b) == a + StripRight(b)
  {
    if b == "" {
      assert a + b == a;
    } else if b[|b| - 1] == '-' {
      assert (a + b)[..|a + b| - 1] == a + b[..|b| - 1];
      StripRightKeeps(a, b[..|b| - 1]);
    }
  }

  lemma {:induction false} SkipKeepsWords(s: string)
    ensures Words(SkipOthers(s)) == Words(s)
  {
    if s != "" && !IsWordChar(s[0]) {
      SkipKeepsWords(s[1..]);
    }
  }

  lemma HyphenatedStart(ws: seq<string>)
    requires ws != [] && forall w | w in ws :: IsWord(w)
    ensures Hyphenate(ws) != "" && IsWordChar(Hyphenate(ws)[0])
  {
    assert IsWord(ws[0]);
  }

  lemma {:induction false} StrippedDashes(s: string)
    ensures var joined := Hyphenate(Words(s));
      StripRight(Dashed(s)) == if s == "" || IsWordChar(s[0]) || Words(s) == [] then joined else "-" + joined
    decreases |s|
  {
    if s != "" && IsWordChar(s[0]) {
      var n := WordLength(s);
      var w, rest := s[..n], s[n..];
      assert s == w + rest;
      DashedRun(w, rest);
      StrippedDashes(rest);
      StripRightKeeps(w, Dashed(rest));
      assert Words(s) == [w] + Words(rest);
      assert ([w] + Words(rest))[1..] == Words(rest);
    } else if s != "" {
      var rest := SkipOthers(s);
      SkipKeepsWords(s);
      StrippedDashes(rest);
      if Words(s) == [] {
        assert rest == "";
      } else {
        HyphenatedStart(Words(s));
        DashThenText(Dashed(rest));
      }
    }
  }

  lemma {:induction false} DashThenText(t: string)
    requires StripRight(t) != ""
    ensures StripRight("-" + t) == "-" + StripRight(t)
  {
    var all := "-" + t;
    assert all[|all| - 1] == t[|t| - 1];
    if t[|t| - 1] == '-' {
      assert all[..|all| - 1] == "-" + t[..|t| - 1];
      DashThenText(t[..|t| - 1]);
    }
  }

  lemma SlugIsItsWords(name: string)
    ensures Slugify(name) == Hyphenate(Words(Lower(name)))
  {
    var ws := Words(Lower(name));
    StrippedDashes(Lower(name));
    if ws != [] {
      HyphenatedStart(ws);
      assert ("-" + Hyphenate(ws))[1..] == Hyphenate(ws);
      assert StripLeft("-" + Hyphenate(ws)) == StripLeft(Hyphenate(ws)) == Hyphenate(ws);
    }
  }

  // ----- shape and fixed points -----

  /** Lower-case letters, digits and single hyphens, none of them at an edge. */
  predicate IsSlug(s: string) {
    && (forall i | 0 <= i < |s| :: IsWordChar(s[i]) || s[i] == '-')
    && NoTwoHyphens(s)
    && (s != "" ==> s[0] != '-' && s[|s| - 1] != '-')
  }

  lemma {:induction false} HyphenatedIsSlug(ws: seq<string>)
    requires forall w | w in ws :: IsWord(w)
    ensures IsSlug(Hyphenate(ws))
  {
    if |ws| > 0 {
      assert IsWord(ws[0]);
    }
    if |ws| > 1 {
      HyphenatedIsSlug(ws[1..]);
      HyphenatedStart(ws[1..]);
      JoinedSlugs(ws[0], Hyphenate(ws[1..]));
    }
  }

  lemma JoinedSlugs(a: string, b: string)
    requires IsSlug(a) && IsSlug(b) && a != "" && b != ""
    ensures IsSlug(a + ("-" + b))
  {
    var s := a + ("-" + b);
    forall i | 0 <= i < |s| - 1 ensures s[i] != '-' || s[i + 1] != '-' {
      if i > |a| {
        assert s[i] == b[i - |a| - 1] && s[i + 1] == b[i - |a|];
      }
    }
  }

  predicate NoTwoHyphens(s: string) {
    forall i | 0 <= i < |s| - 1 :: s[i] != '-' || s[i + 1] != '-'
  }

  lemma TailHasNoTwoHyphens(s: string)
    requires s != "" && NoTwoHyphens(s)
    ensures NoTwoHyphens(s[1..]) && (s[0] == '-' && |s| > 1 ==> s[1] != '-')
  {
    var t := s[1..];
    forall i | 0 <= i < |t| - 1 ensures t[i] != '-' || t[i + 1] != '-' {
      assert t[i] == s[i + 1] && t[i + 1] == s[i + 2];
    }
  }

  lemma {:induction false} SlugsAreDashed(s: string)
    requires (forall i | 0 <= i < |s| :: IsWordChar(s[i]) || s[i] == '-') && NoTwoHyphens(s)
    ensures Dashed(s) == s
    decreases |s|
  {
    if s != "" {
      var t := s[1..];
      TailHasNoTwoHyphens(s);
      SlugsAreDashed(t);
      if !IsWordChar(s[0]) {
        assert t != "" ==> IsWordChar(t[0]);
        assert SkipOthers(s) == t;
      }
    }
  }

  /** The slugs are exactly the strings that `_slugify` leaves alone, and its result is
      always one of them, so it is idempotent. */
  lemma SlugsAreTheFixedPoints(name: string)
    ensures Slugify(name) == name <==> IsSlug(name)
    ensures IsSlug(Slugify(name))
    ensures Slugify(Slugify(name)) == Slugify(name)
  {
    SlugShape(name);
    if IsSlug(name) {
      SlugIsFixed(name);
    }
    SlugIsFixed(Slugify(name));
  }

  lemma SlugShape(name: string)
    ensures IsSlug(Slugify(name))
  {
    SlugIsItsWords(name);
    HyphenatedIsSlug(Words(Lower(name)));
  }

  lemma SlugIsFixed(s: string)
    requires IsSlug(s)
    ensures Slugify(s) == s
  {
    assert Lower(s) == s;
    SlugsAreDashed(s);
  }

  // ----- concatenation -----

  lemma {:induction false} WordsConcat(a: string, b: string)
    ensures Words(a + ("-" + b)) == Words(a) + Words(b)
    decreases |a|
  {
    var s := a + ("-" + b);
    if a == "" {
      assert s == "-" + b && s[1..] == b;
    } else if IsWordChar(a[0]) {
      var n := WordLength(a);
      WordLengthConcat(a, "-" + b);
      assert s[..n] == a[..n] && s[n..] == a[n..] + ("-" + b);
      WordsConcat(a[n..], b);
    } else {
      assert s[1..] == a[1..] + ("-" + b);
      WordsConcat(a[1..], b);
    }
  }

  lemma {:induction false} WordLengthConcat(a: string, b: string)
    requires b != "" && !IsWordChar(b[0])
    ensures WordLength(a + b) == WordLength(a)
  {
    if a == "" {
      assert a + b == b;
    } else if IsWordChar(a[0]) {
      assert (a + b)[1..] == a[1..] + b;
      WordLengthConcat(a[1..], b);
    }
  }

  lemma {:induction false} HyphenateConcat(p: seq<string>, q: seq<string>)
    requires p != [] && q != []
    ensures Hyphenate(p + q) == Hyphenate(p) + "-" + Hyphenate(q)
  {
    assert (p + q)[1..] == p[1..] + q;
    if |p| > 1 {
      HyphenateConcat(p[1..], q);
    } else {
      assert (p + q)[1..] == q;
    }
  }

  /** The slug of two names joined by a hyphen joins their slugs by a hyphen; an empty
      slug drops out with its hyphen. */
  lemma SlugOfJoinedNames(a: string, b: string)
    ensures Slugify(a + "-" + b) ==
      if Slugify(a) == "" then Slugify(b)
      else if Slugify(b) == "" then Slugify(a)
      else Slugify(a) + "-" + Slugify(b)
  {
    var p, q := Words(Lower(a)), Words(Lower(b));
    assert a + "-" + b == a + ("-" + b);
    assert Lower(a + ("-" + b)) == Lower(a) + ("-" + Lower(b));
    SlugIsItsWords(a);
    SlugIsItsWords(b);
    SlugIsItsWords(a + "-" + b);
    WordsConcat(Lower(a), Lower(b));
    if p == [] {
      assert p + q == q;
    } else if q == [] {
      assert p + q == p;
      HyphenatedStart(p);
    } else {
      HyphenatedStart(p);
      HyphenatedStart(q);
      HyphenateConcat(p, q);
    }
  }

  // ----- what a slug keeps of a name -----

  predicate IsPlain(c: char) {
    'a' <= c <= 'z' || '0' <= c <= '9'
  }

  /** The lower-case letters and the digits. */
  function PlainIn(s: string): string {
    if s == "" then "" else (if IsPlain(s[0]) then [s[0]] else "") + PlainIn(s[1..])
  }

  lemma {:induction false} PlainConcat(a: string, b: string)
    ensures PlainIn(a + b) == PlainIn(a) + PlainIn(b)
  {
    if a == "" {
      assert a + b == b;
    } else {
      var all, first := a + b, if IsPlain(a[0]) then [a[0]] else "";
      assert all[0] == a[0] && all[1..] == a[1..] + b;
      PlainConcat(a[1..], b);
      assert PlainIn(all) == first + (PlainIn(a[1..]) + PlainIn(b));
    }
  }

  lemma {:induction false} SkippedAreNotPlain(s: string)
    ensures PlainIn(SkipOthers(s)) == PlainIn(s)
  {
    if s != "" && !IsWordChar(s[0]) {
      SkippedAreNotPlain(s[1..]);
    }
  }

  lemma {:induction false} DashedKeepsPlain(s: string)
    ensures PlainIn(Dashed(s)) == PlainIn(s)
    decreases |s|
  {
    if s != "" && IsWordChar(s[0]) {
      DashedKeepsPlain(s[1..]);
      PlainConcat([s[0]], Dashed(s[1..]));
    } else if s != "" {
      SkippedAreNotPlain(s);
      DashedKeepsPlain(SkipOthers(s));
      PlainConcat("-", Dashed(SkipOthers(s)));
    }
  }

  lemma {:induction false} StripLeftKeepsPlain(s: string)
    ensures PlainIn(StripLeft(s)) == PlainIn(s)
  {
    if s != "" && s[0] == '-' {
      StripLeftKeepsPlain(s[1..]);
    }
  }

  lemma {:induction false} StripRightKeepsPlain(s: string)
    ensures PlainIn(StripRight(s)) == PlainIn(s)
  {
    if s != "" && s[|s| - 1] == '-' {
      var rest := s[..|s| - 1];
      StripRightKeepsPlain(rest);
      assert s == rest + "-";
      PlainConcat(rest, "-");
    }
  }

  lemma PlainOrHyphen(s: string)
    requires IsSlug(s)
    ensures forall c | c in s :: IsPlain(c) || c == '-'
  {
  }

  /** A slug keeps the letters, in lower case, and the digits of the name in their order, and has
      nothing else but hyphens. */
  lemma SlugKeepsThePlain(name: string)
    ensures PlainIn(Slugify(name)) == PlainIn(Lower(name))
    ensures forall c | c in Slugify(name) :: 'a' <= c <= 'z' || '0' <= c <= '9' || c == '-'
  {
    DashedKeepsPlain(Lower(name));
    StripRightKeepsPlain(Dashed(Lower(name)));
    StripLeftKeepsPlain(StripRight(Dashed(Lower(name))));
    SlugShape(name);
    PlainOrHyphen(Slugify(name));
  }
}

/** Which component's level applies to a logger. */
module LogLevels {
  import opened Wrappers
  import opened Dicts

  /** Component names with their levels, in the order of the configuration. */
  type Levels = seq<Item<int>>

  /** `name.startswith(component + ".")` */
  predicate Under(name: string, component: string) {
    component + "." <= name
  }

  /** The level that applies: the exact entry, else the first dotted ancestor in the order of
      the configuration, else the last entry that is a plain prefix, else the default. */
  function LevelOf(levels: Levels, default: int, name: string): int {
    if Get(levels, name).Some? then Get(levels, name).value
    else if FirstAncestor(levels, name).Some? then levels[FirstAncestor(levels, name).value].value
    else PrefixLevel(levels, default, name)
  }

  function FirstAncestor(levels: Levels, name: string): (r: Option<nat>)
    ensures r.Some? ==> r.value < |levels| && Under(name, levels[r.value].key)
    ensures r.Some? ==> forall i | 0 <= i < r.value :: !Under(name, levels[i].key)
    ensures r.None? ==> forall i | 0 <= i < |levels| :: !Under(name, levels[i].key)
  {
    if levels == [] then None
    else if Under(name, levels[0].key) then Some(0)
    else
      var rest := FirstAncestor(levels[1..], name);
      if rest.Some? then Some(rest.value + 1) else None
  }

  function LastPrefix(levels: Levels, name: string): (r: Option<nat>)
    ensures r.Some? ==> r.value < |levels| && levels[r.value].key <= name
    ensures r.Some? ==> forall i | r.value < i < |levels| :: !(levels[i].key <= name)
    ensures r.None? ==> forall i | 0 <= i < |levels| :: !(levels[i].key <= name)
  {
    if levels == [] then None
    else
      var last := |levels| - 1;
      if levels[last].key <= name then Some(last) else LastPrefix(levels[..last], name)
  }

  // ----- the loop -----

  lemma {:induction false} FirstAncestorAt(levels: Levels, name: string, k: nat)
    requires k < |levels| && Under(name, levels[k].key)
    requires forall i | 0 <= i < k :: !Under(name, levels[i].key)
    ensures FirstAncestor(levels, name) == Some(k)
  {
    if k > 0 {
      FirstAncestorAt(levels[1..], name, k - 1);
    }
  }

  /** What the loop has found when it has met no dotted ancestor. */
  function PrefixLevel(levels: Levels, default: int, name: string): int {
    if LastPrefix(levels, name).Some? then levels[LastPrefix(levels, name).value].value else default
  }

  /** `filter`: whether a record of this level passes. */
  method Filter(levels: Levels, default: int, name: string, recordLevel: int) returns (passes: bool)
    requires Distinct(levels)
    ensures passes <==> recordLevel >= LevelOf(levels, default, name)
  {
    var level := default;
    var exact := Get(levels, name);
    if exact.Some? {
      level := exact.value;
    } else {
      for k := 0 to |levels|
        invariant forall i | 0 <= i < k :: !Under(name, levels[i].key)
        invariant level == PrefixLevel(levels[..k], default, name)
      {
        var component := levels[k].key;
        assert levels[..k + 1][..k] == levels[..k];
        if Under(name, component) {
          level := levels[k].value;
          FirstAncestorAt(levels, name, k);
          return recordLevel >= level;
        } else if Under(component, name) {
          continue;
        } else if component <= name {
          level := levels[k].value;
        }
      }
      assert levels[..|levels|] == levels;
    }
    passes := recordLevel >= level;
  }

  /** The entry that decides: the one of that name, or else the first dotted ancestor, or
      else the last plain prefix. */
  lemma EntryDecides(levels: Levels, default: int, name: string, k: nat)
    requires Distinct(levels) && k < |levels|
    requires levels[k].key == name || forall i | 0 <= i < |levels| :: levels[i].key != name
    requires levels[k].key == name
      || (Under(name, levels[k].key) && forall i | 0 <= i < k :: !Under(name, levels[i].key))
      || ((forall i | 0 <= i < |levels| :: !Under(name, levels[i].key))
          && levels[k].key <= name && forall i | k < i < |levels| :: !(levels[i].key <= name))
    ensures LevelOf(levels, default, name) == levels[k].value
  {
    if levels[k].key == name {
      GetMember(levels, k);
    } else {
      assert name !in Keys(levels);
      assert FirstAncestor(levels, name).Some? ==> Under(name, levels[FirstAncestor(levels, name).value].key);
      if Under(name, levels[k].key) {
        FirstAncestorAt(levels, name, k);
      } else {
        assert LastPrefix(levels, name).Some? && LastPrefix(levels, name).value == k;
      }
    }
  }

  /** The default applies to a logger whose name starts with no component. */
  lemma DefaultDecides(levels: Levels, default: int, name: string)
    requires forall i | 0 <= i < |levels| :: !(levels[i].key <= name)
    ensures LevelOf(levels, default, name) == default
  {
    assert forall i | 0 <= i < |levels| && Under(name, levels[i].key) :: levels[i].key <= levels[i].key + "." <= name;
    assert name !in Keys(levels);
  }

  // ----- is it the most specific match? -----

  /** Of the matches of its kind, the entry that decides is the longest: of the dotted
      ancestors if there is one, or else of the plain prefixes. */
  predicate MostSpecific(levels: Levels, name: string) {
    var ancestor, prefix := FirstAncestor(levels, name), LastPrefix(levels, name);
    if ancestor.Some? then
      forall i | 0 <= i < |levels| && Under(name, levels[i].key) :: |levels[i].key| <= |levels[ancestor.value].key|
    else
      prefix.Some? ==>
        forall i | 0 <= i < |levels| && levels[i].key <= name :: |levels[i].key| <= |levels[prefix.value].key|
  }

  /** No component is listed after one of its ancestors. */
  predicate DescendantsFirst(levels: Levels) {
    forall i, j | 0 <= i < j < |levels| :: !Under(levels[j].key, levels[i].key)
  }

  /** A component of which nothing but dotted ancestors decides for the loggers below it:
      it has an ancestor itself, or an entry for each of its continuations. */
  ghost predicate Shielded(levels: Levels, component: string) {
    || (exists k | 0 <= k < |levels| :: Under(component, levels[k].key))
    || (forall c: char | c != '.' :: component + [c] in Keys(levels))
  }

  /** No component is listed before a plain prefix of it, unless it is shielded. */
  ghost predicate PrefixesFirst(levels: Levels) {
    forall i, j | 0 <= i < j < |levels| && levels[j].key < levels[i].key :: Shielded(levels, levels[i].key)
  }

  lemma AncestorsAreNested(name: string, a: string, b: string)
    requires Under(name, a) && Under(name, b) && |a| < |b|
    ensures Under(b, a)
  {
    assert forall i | 0 <= i < |a + "."| :: (a + ".")[i] == name[i];
    assert forall i | 0 <= i < |b| :: b[i] == (b + ".")[i] == name[i];
  }

  lemma AncestorsFirstAreSpecific(levels: Levels, name: string)
    requires DescendantsFirst(levels) && FirstAncestor(levels, name).Some?
    ensures MostSpecific(levels, name)
  {
    var first := FirstAncestor(levels, name).value;
    forall i | 0 <= i < |levels| && Under(name, levels[i].key) ensures |levels[i].key| <= |levels[first].key| {
      if |levels[first].key| < |levels[i].key| {
        AncestorsAreNested(name, levels[first].key, levels[i].key);
      }
    }
  }

  lemma NamesakeIsEntry(levels: Levels, name: string, i: nat)
    requires Get(levels, name).None? && i < |levels|
    ensures levels[i].key != name
  {
    assert levels[i].key in Keys(levels);
  }

  lemma PrefixesAreNested(name: string, a: string, b: string)
    requires a <= name && b <= name && |a| < |b|
    ensures a < b
  {
    assert a == name[..|a|] && b == name[..|b|];
  }

  lemma ContinuedByOne(name: string, key: string)
    requires key < name
    ensures key + [name[|key|]] <= name
    ensures name[|key|] == '.' ==> Under(name, key)
  {
    assert key == name[..|key|];
  }

  lemma UnderPrefix(name: string, key: string, component: string)
    requires key <= name && Under(key, component)
    ensures Under(name, component)
  {
    assert key == name[..|key|];
  }

  lemma UnderContinued(key: string, c: char, component: string)
    requires c != '.'
    ensures Under(key + [c], component) ==> Under(key, component)
  {
    var ancestor := component + ".";
    assert ancestor[|component|] == '.' && (key + [c])[|key|] == c;
    assert |ancestor| <= |key| ==> (key + [c])[..|ancestor|] == key[..|ancestor|];
  }

  lemma NoAncestor(levels: Levels, name: string, component: string)
    requires FirstAncestor(levels, name).None? && component in Keys(levels)
    ensures !Under(name, component)
  {
  }

  /** A longer prefix before the last one leads to ever longer ones. */
  lemma {:induction false} NoLongerPrefix(levels: Levels, name: string, i: nat, j: nat)
    requires PrefixesFirst(levels) && Get(levels, name).None? && FirstAncestor(levels, name).None?
    requires LastPrefix(levels, name) == Some(j)
    requires i < |levels| && levels[i].key <= name && |levels[i].key| > |levels[j].key|
    ensures false
    decreases |name| - |levels[i].key|
  {
    var key := levels[i].key;
    PrefixesAreNested(name, levels[j].key, key);
    NamesakeIsEntry(levels, name, i);
    ContinuedByOne(name, key);
    NoAncestor(levels, name, key);
    var longer := key + [name[|key|]];
    forall k | 0 <= k < |levels| ensures !Under(key, levels[k].key) {
      NoAncestor(levels, name, levels[k].key);
      if Under(key, levels[k].key) {
        UnderPrefix(name, key, levels[k].key);
      }
    }
    assert Shielded(levels, key);
    var next :| 0 <= next < |levels| && levels[next].key == longer;
    NoLongerPrefix(levels, name, next, j);
  }

  lemma OrderedListsAreSpecific(levels: Levels, name: string)
    requires DescendantsFirst(levels) && PrefixesFirst(levels) && Get(levels, name).None?
    ensures MostSpecific(levels, name)
  {
    if FirstAncestor(levels, name).Some? {
      AncestorsFirstAreSpecific(levels, name);
    } else if LastPrefix(levels, name).Some? {
      var j := LastPrefix(levels, name).value;
      forall i | 0 <= i < |levels| && levels[i].key <= name ensures |levels[i].key| <= |levels[j].key| {
        if |levels[i].key| > |levels[j].key| {
          NoLongerPrefix(levels, name, i, j);
        }
      }
    }
  }

  /** Below a component, a name longer than all components, without a further dot. */
  function Fresh(levels: Levels, component: string): string {
    component + "." + seq(LongestKey(levels), _ => 'x') + "x"
  }

  function LongestKey(levels: Levels): (n: nat)
    ensures forall item | item in levels :: |item.key| <= n
  {
    if levels == [] then 0
    else
      var rest := LongestKey(levels[1..]);
      assert levels == [levels[0]] + levels[1..];
      if |levels[0].key| > rest then |levels[0].key| else rest
  }

  lemma FreshIsBelow(levels: Levels, component: string, other: string)
    ensures Under(Fresh(levels, component), component)
    ensures Get(levels, Fresh(levels, component)).None?
    ensures Under(Fresh(levels, component), other) ==> |other| <= |component|
  {
    var name := Fresh(levels, component);
    assert Under(name, other) ==> (other + ".")[|other|] == name[|other|];
    assert forall item | item in levels :: |item.key| < |name|;
  }

  lemma UnderAncestor(name: string, component: string, ancestor: string)
    requires Under(name, component) && Under(component, ancestor)
    ensures Under(name, ancestor)
  {
    var n := |component|;
    assert name[..n] == (component + ".")[..n] == component;
    assert ancestor + "." <= name[..n];
  }

  lemma SameLengthSameAncestor(name: string, a: string, b: string)
    requires Under(name, a) && Under(name, b) && |a| == |b|
    ensures a == b
  {
    assert a == (a + ".")[..|a|] == name[..|a|];
    assert b == (b + ".")[..|b|] == name[..|b|];
  }

  /** A component listed after its ancestor is passed over for the loggers just below it. */
  lemma PassedOver(levels: Levels, i: nat, j: nat, name: string)
    requires Distinct(levels) && i < j < |levels| && Under(levels[j].key, levels[i].key)
    requires Under(name, levels[j].key)
    requires forall k | 0 <= k < |levels| && Under(name, levels[k].key) :: |levels[k].key| <= |levels[j].key|
    ensures !MostSpecific(levels, name)
  {
    UnderAncestor(name, levels[j].key, levels[i].key);
    var first := FirstAncestor(levels, name).value;
    assert first <= i;
    if |levels[first].key| == |levels[j].key| {
      SameLengthSameAncestor(name, levels[first].key, levels[j].key);
    }
  }

  lemma UnorderedListsAreNot(levels: Levels, i: nat, j: nat)
    requires Distinct(levels) && i < j < |levels| && Under(levels[j].key, levels[i].key)
    ensures var name := Fresh(levels, levels[j].key); Get(levels, name).None? && !MostSpecific(levels, name)
  {
    var component := levels[j].key;
    FreshIsBelow(levels, component, component);
    forall k | 0 <= k < |levels| && Under(Fresh(levels, component), levels[k].key)
      ensures |levels[k].key| <= |component|
    {
      FreshIsBelow(levels, component, levels[k].key);
    }
    PassedOver(levels, i, j, Fresh(levels, component));
  }

  /** A component listed before a plain prefix of it, and not shielded, is passed over for
      the logger that continues it by a character without an entry. */
  lemma ExposedPrefix(levels: Levels, i: nat, j: nat) returns (name: string)
    requires Distinct(levels) && i < j < |levels| && levels[j].key < levels[i].key && !Shielded(levels, levels[i].key)
    ensures Get(levels, name).None? && !MostSpecific(levels, name)
  {
    var key := levels[i].key;
    var c: char :| c != '.' && key + [c] !in Keys(levels);
    name := key + [c];
    forall k | 0 <= k < |levels| ensures !Under(name, levels[k].key) {
      UnderContinued(key, c, levels[k].key);
    }
    assert levels[j].key <= name && key <= name;
    var last := LastPrefix(levels, name).value;
    NamesakeIsEntry(levels, name, last);
    assert levels[last].key == name[..|levels[last].key|];
    assert last != i && levels[last].key != key;
  }

  /** The comment in the code promises the most specific match. The loop keeps the promise
      for every logger without an entry of its own exactly when the configuration lists
      every component before its ancestors and, unless it is shielded, before its prefixes. */
  lemma SpecificIffLongerFirst(levels: Levels)
    requires Distinct(levels)
    ensures (forall name | Get(levels, name).None? :: MostSpecific(levels, name)) <==>
      DescendantsFirst(levels) && PrefixesFirst(levels)
  {
    if DescendantsFirst(levels) && PrefixesFirst(levels) {
      forall name | Get(levels, name).None? ensures MostSpecific(levels, name) {
        OrderedListsAreSpecific(levels, name);
      }
    } else if !DescendantsFirst(levels) {
      var i, j :| 0 <= i < j < |levels| && Under(levels[j].key, levels[i].key);
      UnorderedListsAreNot(levels, i, j);
      assert !MostSpecific(levels, Fresh(levels, levels[j].key));
    } else {
      var i, j :| 0 <= i < j < |levels| && levels[j].key < levels[i].key && !Shielded(levels, levels[i].key);
      var name := ExposedPrefix(levels, i, j);
      assert !MostSpecific(levels, name);
    }
  }

  // ----- configurations of ordinary size -----

  /** The n-th character beyond the basic plane. */
  function Beyond(n: nat): char
    requires n < 0x10_0000
  {
    (0x1_0000 + n) as char
  }

  lemma {:induction false} SomeCharacterIsFree(used: set<char>, n: nat) returns (c: char)
    requires |used| <= n < 0x10_0000
    ensures c !in used && 0x1_0000 <= c as int <= 0x1_0000 + n
    decreases n
  {
    c := Beyond(n);
    if c in used {
      c := SomeCharacterIsFree(used - {c}, n - 1);
    }
  }

  /** The characters that continue a component to an entry. */
  function Continuations(levels: Levels, component: string): set<char> {
    if levels == [] then {}
    else
      (if component < levels[0].key then {levels[0].key[|component|]} else {}) + Continuations(levels[1..], component)
  }

  lemma {:induction false} FewContinuations(levels: Levels, component: string)
    ensures |Continuations(levels, component)| <= |levels|
    ensures forall c: char | component + [c] in Keys(levels) :: c in Continuations(levels, component)
  {
    if levels != [] {
      FewContinuations(levels[1..], component);
      forall c: char | component + [c] in Keys(levels) ensures c in Continuations(levels, component) {
        var i :| 0 <= i < |levels| && levels[i].key == component + [c];
        if i > 0 {
          assert levels[1..][i - 1].key == component + [c];
        }
      }
    }
  }

  lemma OnlyAncestorsShield(levels: Levels, component: string)
    requires |levels| < 0x10_0000
    ensures Shielded(levels, component) <==> exists k | 0 <= k < |levels| :: Under(component, levels[k].key)
  {
    FewContinuations(levels, component);
    var c := SomeCharacterIsFree(Continuations(levels, component), |levels|);
    assert component + [c] !in Keys(levels);
  }

  /** No component is listed before a plain prefix of it, unless it has an ancestor. */
  predicate OrphansFirst(levels: Levels) {
    forall i, j | 0 <= i < j < |levels| && levels[j].key < levels[i].key ::
      exists k | 0 <= k < |levels| :: Under(levels[i].key, levels[k].key)
  }

  /** With fewer entries than there are characters, only an ancestor shields. */
  lemma SpecificIffOrphansFirst(levels: Levels)
    requires Distinct(levels) && |levels| < 0x10_0000
    ensures (forall name | Get(levels, name).None? :: MostSpecific(levels, name)) <==>
      DescendantsFirst(levels) && OrphansFirst(levels)
  {
    SpecificIffLongerFirst(levels);
    forall i | 0 <= i < |levels| {
      OnlyAncestorsShield(levels, levels[i].key);
    }
  }

  /** With the ancestor first, its level hides the one that is set for the component. */
  lemma AncestorListedFirst()
    ensures var levels := [Item("src", 30), Item("src.auth", 10)];
      LevelOf(levels, 20, "src.auth.jwt") == 30
  {
    var levels := [Item("src", 30), Item("src.auth", 10)];
    assert Get(levels, "src.auth.jwt").None?;
    assert "src" + "." <= "src.auth.jwt";
    FirstAncestorAt(levels, "src.auth.jwt", 0);
  }

  /** With the prefix last, its level hides the one that is set for the longer match, though
      no component is listed after an ancestor. */
  lemma PrefixListedLast()
    ensures var levels := [Item("ab", 10), Item("a", 40)];
      DescendantsFirst(levels) && !MostSpecific(levels, "abc") && LevelOf(levels, 20, "abc") == 40
  {
    var levels := [Item("ab", 10), Item("a", 40)];
    assert levels[0].key <= "abc" && levels[1].key <= "abc";
    assert ("ab" + ".")[2] != "abc"[2] && ("a" + ".")[1] != "abc"[1];
    assert !Under("abc", "ab") && !Under("abc", "a");
    assert Get(levels, "abc").None?;
    assert LastPrefix(levels, "abc") == Some(1);
  }
}

/** The list of CORS origins, and what holds of every accepted production settings object. */
module ProductionLaws {
  import opened Text
  import opened Settings
  import opened SettingsLaws

  // ----- CORS origins -----

  /** The list of origins without those for development: the others stay, in order. */
  lemma {:induction false} OnlyAllowedKeepsTheRest(origins: seq<string>, o: string)
    ensures multiset(OnlyAllowed(origins))[o]
         == if Contains(o, "localhost") || Contains(o, ".stoa.local") then 0 else multiset(origins)[o]
  {
    if origins != [] {
      OnlyAllowedKeepsTheRest(origins[1..], o);
      assert origins == [origins[0]] + origins[1..];
    }
  }

  lemma Associative<T>(a: seq<T>, b: seq<T>, c: seq<T>)
    ensures a + (b + c) == (a + b) + c
  {
  }

  lemma {:induction false} OnlyAllowedKeepsOrder(a: seq<string>, b: seq<string>)
    ensures OnlyAllowed(a + b) == OnlyAllowed(a) + OnlyAllowed(b)
  {
    if a == [] {
      assert a + b == b;
    } else {
      var rest, head := a[1..] + b, OnlyAllowed([a[0]]);
      assert (a + b)[1..] == rest && OnlyAllowed([]) == [];
      OnlyAllowedKeepsOrder(a[1..], b);
      Associative(head, OnlyAllowed(a[1..]), OnlyAllowed(b));
    }
  }

  lemma {:induction false} AllAllowedStay(origins: seq<string>)
    requires forall o | o in origins :: Allowed(o)
    ensures OnlyAllowed(origins) == origins
  {
    if origins != [] {
      assert origins[0] in origins;
      AllAllowedStay(origins[1..]);
    }
  }

  /** An origin as an operator would write it. */
  predicate Plain(origin: string) {
    origin != "" && Trimmed(origin) && ',' !in origin
  }

  lemma {:induction false} SplitFirst(part: string, rest: string)
    requires ',' !in part
    ensures SplitCommas(part) == [part]
    ensures SplitCommas(part + ("," + rest)) == [part] + SplitCommas(rest)
  {
    var all := part + ("," + rest);
    if part == "" {
      assert all[1..] == rest && all[0] == ',';
    } else {
      assert all[1..] == part[1..] + ("," + rest) && all[0] == part[0];
      SplitFirst(part[1..], rest);
      assert [part[0]] + part[1..] == part;
    }
  }

  lemma PlainFirst(first: string, parts: seq<string>)
    requires Plain(first)
    ensures StripParts([first] + parts) == [first] + StripParts(parts)
  {
    StripTrimmed(first);
    assert ([first] + parts)[1..] == parts;
  }

  /** Writing plain origins with commas and reading them gives the same list. */
  lemma {:induction false} OriginsRoundTrip(origins: seq<string>)
    requires forall o | o in origins :: Plain(o)
    ensures StripParts(SplitCommas(Commas(origins))) == origins
  {
    if origins == [] {
      assert StripParts([""]) == [];
    } else {
      var first, rest := origins[0], origins[1..];
      assert Plain(first) && origins == [first] + rest;
      SplitFirst(first, Commas(rest));
      if rest == [] {
        PlainFirst(first, []);
      } else {
        OriginsRoundTrip(rest);
        PlainFirst(first, SplitCommas(Commas(rest)));
      }
    }
  }

  /** Every origin that is read is plain. */
  lemma {:induction false} PartsHaveNoComma(s: string)
    ensures forall part | part in SplitCommas(s) :: ',' !in part
  {
    if s != "" {
      PartsHaveNoComma(s[1..]);
      var rest := SplitCommas(s[1..]);
      assert rest[0] in rest;
      assert forall part | part in rest[1..] :: part in rest;
    }
  }

  lemma {:induction false} OriginsArePlain(parts: seq<string>)
    requires forall part | part in parts :: ',' !in part
    ensures forall o | o in StripParts(parts) :: Plain(o)
  {
    if parts != [] {
      assert parts[0] in parts;
      var i, j := StripRemovesTheEnds(parts[0]);
      assert forall part | part in parts[1..] :: part in parts;
      OriginsArePlain(parts[1..]);
    }
  }

  // ----- where the list comes from -----

  /** The text of the CORS field: the given one, or the one that follows from the base domain. */
  function CorsText(input: Input): string {
    if CORS_ORIGINS in input.text then input.text[CORS_ORIGINS] else Commas(Origins(BaseOf(input.text)))
  }

  lemma CorsTextIsLoaded(input: Input, validUrl: string -> bool)
    requires Load(input, validUrl).Ok?
    ensures Load(input, validUrl).value.fields.corsOrigins == CorsText(input)
  {
    var base := BaseOf(input.text);
    LoadedCorsText(input, validUrl);
    if CORS_ORIGINS in input.text {
      GivenValuesAreKept(input.text, Derived(base));
    } else {
      AbsentCorsText(input.text, base);
    }
  }

  lemma LoadedCorsText(input: Input, validUrl: string -> bool)
    requires Load(input, validUrl).Ok?
    ensures Load(input, validUrl).value.fields.corsOrigins
         == Field(input.(text := SetDefaults(input.text, Derived(BaseOf(input.text)))), CORS_ORIGINS, "")
  {
  }

  lemma AbsentCorsText(data: map<Name, string>, base: string)
    requires CORS_ORIGINS !in data
    ensures var all := SetDefaults(data, Derived(base)); CORS_ORIGINS in all && all[CORS_ORIGINS] == Commas(Origins(base))
  {
    assert DERIVED[9] == CORS_ORIGINS;
    AbsentValuesAreDerived(data, Derived(base), 9);
  }

  // ----- the derived list in production -----

  /** A base domain that makes origins of its own: one item of the list, and no host that is
      used for development. */
  predicate PublicBase(base: string) {
    && base != "" && ',' !in base && !IsSpace(base[|base| - 1])
    && !Contains(base, "localhost") && !Contains("." + base, ".stoa.local")
  }

  /** `https://`, a label whose only `h` is the first letter, and the dot before the base domain. */
  predicate IsLabel(front: string) {
    && |front| > 8 && front[0] == 'h' && front[|front| - 1] == '.' && ',' !in front
    && (forall i | 0 < i < |front| :: front[i] != 'h') && (forall i | 0 <= i < |front| - 1 :: front[i] != '.')
  }

  lemma ContainsAt(s: string, needle: string) returns (i: nat)
    requires Contains(s, needle)
    ensures i + |needle| <= |s| && s[i..i + |needle|] == needle
  {
    i :| 0 <= i <= |s| && needle <= s[i..];
    assert s[i..][..|needle|] == s[i..i + |needle|];
  }

  lemma ContainedAt(s: string, needle: string, i: nat)
    requires i + |needle| <= |s| && forall k | 0 <= k < |needle| :: s[i + k] == needle[k]
    ensures Contains(s, needle)
  {
    assert needle <= s[i..];
  }

  lemma NoLocalhost(front: string, base: string)
    requires IsLabel(front) && !Contains(base, "localhost")
    ensures !Contains(front + base, "localhost")
  {
    var all, needle := front + base, "localhost";
    if Contains(all, needle) {
      var i := ContainsAt(all, needle);
      assert needle[5] == 'h' && all[i + 5] == needle[5];
      assert i + 5 >= |front|;
      assert forall k | 0 <= k < 9 :: all[i + k] == needle[k];
      assert forall k | i <= k < i + 9 :: all[k] == needle[k - i] != '.';
      assert all[|front| - 1] == '.';
      ContainedAt(base, needle, i - |front|);
    }
  }

  lemma NoStoaLocal(front: string, base: string)
    requires IsLabel(front) && !Contains("." + base, ".stoa.local")
    ensures !Contains(front + base, ".stoa.local")
  {
    var all, needle := front + base, ".stoa.local";
    if Contains(all, needle) {
      var i := ContainsAt(all, needle);
      assert all[i] == needle[0] == '.';
      assert i >= |front| - 1;
      ContainedAt("." + base, needle, i - (|front| - 1));
    }
  }

  lemma SuffixContains(front: string, base: string, needle: string)
    requires Contains(base, needle)
    ensures Contains(front + base, needle)
  {
    var i := ContainsAt(base, needle);
    ContainedAt(front + base, needle, |front| + i);
  }

  /** An origin under a label is fit for the list exactly when the base domain is. */
  lemma LabelledOriginIff(front: string, base: string)
    requires IsLabel(front) && base != ""
    ensures Plain(front + base) && Allowed(front + base) <==> PublicBase(base)
  {
    var all := front + base;
    assert all[|all| - 1] == base[|base| - 1] && all[0] == 'h';
    if PublicBase(base) {
      NoLocalhost(front, base);
      NoStoaLocal(front, base);
    } else if Contains(base, "localhost") {
      SuffixContains(front, base, "localhost");
    } else if Contains("." + base, ".stoa.local") {
      assert all == front[..|front| - 1] + ("." + base);
      SuffixContains(front[..|front| - 1], "." + base, ".stoa.local");
    }
  }

  /** What stands before the base domain in the origins that follow from it. */
  const LABELS := ["https://console.", "https://portal.", "https://staging-console.", "https://staging-portal.",
                   "https://dev-console.", "https://dev-portal."]

  // ----- production -----

  lemma ProductionGates(input: Input, validUrl: string -> bool)
    requires Load(input, validUrl).Ok? && ForProduction(input)
    ensures var loaded := Load(input, validUrl).value;
      && FlagsOn(loaded.fields.flags, SENSITIVE_FLAGS) == [] && !IsOn(loaded.fields.flags, StoaDisableAuth)
      && Offenders(loaded.git, validUrl) == [] && loaded.git == Hydrated(loaded.fields.git)
      && loaded.fields.environment == Production
  {
    LoadedEnvironmentIff(input, validUrl);
  }

  /** What holds of every settings object that was accepted for production. */
  lemma ProductionInvariant(input: Input, validUrl: string -> bool)
    requires Load(input, validUrl).Ok? && ForProduction(input)
    ensures var loaded := Load(input, validUrl).value;
      && NoFlagIsOn(loaded.fields.flags)
      && Offenders(loaded.git, validUrl) == [] && |CatalogProjectId(loaded.git)| > 0
      && CorsOrigins(loaded.fields) == OnlyAllowed(StripParts(SplitCommas(CorsText(input))))
      && forall o | o in CorsOrigins(loaded.fields) :: Plain(o) && !Contains(o, "localhost") && !Contains(o, ".stoa.local")
  {
    var loaded := Load(input, validUrl).value;
    ProductionGates(input, validUrl);
    CorsTextIsLoaded(input, validUrl);
    NoneOnIff(loaded.fields.flags, SENSITIVE_FLAGS);
    AllFlags(loaded.fields.flags);
    ProductionOrigins(loaded.fields);
  }

  lemma ProductionOrigins(fields: Fields)
    requires fields.environment == Production
    ensures forall o | o in CorsOrigins(fields) :: Plain(o) && Allowed(o)
  {
    var all := StripParts(SplitCommas(fields.corsOrigins));
    PartsHaveNoComma(fields.corsOrigins);
    OriginsArePlain(SplitCommas(fields.corsOrigins));
    forall o | o in OnlyAllowed(all) ensures o in all && Allowed(o) {
      OnlyAllowedKeepsTheRest(all, o);
      assert o in multiset(OnlyAllowed(all));
    }
  }

  lemma {:induction false} NoneStays(origins: seq<string>)
    requires forall o | o in origins :: !Allowed(o)
    ensures OnlyAllowed(origins) == []
  {
    if origins != [] {
      assert origins[0] in origins;
      NoneStays(origins[1..]);
    }
  }

  lemma ForDevelopment(o: string, needle: string, i: nat)
    requires needle == "localhost" || needle == ".stoa.local"
    requires i + |needle| <= |o| && forall k | 0 <= k < |needle| :: o[i + k] == needle[k]
    requires o[0] == 'h' && !IsSpace(o[|o| - 1]) && forall k | 0 <= k < |o| :: o[k] != ','
    ensures !Allowed(o) && Plain(o)
  {
    ContainedAt(o, needle, i);
  }

  lemma LocalhostGoes(i: nat)
    requires i < 3
    ensures !Allowed(DEVELOPMENT_ORIGINS[i]) && Plain(DEVELOPMENT_ORIGINS[i])
  {
    ForDevelopment(DEVELOPMENT_ORIGINS[i], "localhost", 7);
  }

  lemma StoaLocalGoes(i: nat)
    requires 3 <= i < 6
    ensures !Allowed(DEVELOPMENT_ORIGINS[i]) && Plain(DEVELOPMENT_ORIGINS[i])
  {
    var o, needle := DEVELOPMENT_ORIGINS[i], ".stoa.local";
    if i == 3 {
      ForDevelopment(o, needle, 14);
    } else if i == 4 {
      ForDevelopment(o, needle, 13);
    } else {
      ForDevelopment(o, needle, 10);
    }
  }

  lemma DevelopmentOriginsGo()
    ensures OnlyAllowed(DEVELOPMENT_ORIGINS) == []
    ensures forall o | o in DEVELOPMENT_ORIGINS :: Plain(o)
  {
    var origins := DEVELOPMENT_ORIGINS;
    forall i | 0 <= i < |origins| ensures !Allowed(origins[i]) && Plain(origins[i]) {
      if i < 3 {
        LocalhostGoes(i);
      } else {
        StoaLocalGoes(i);
      }
    }
    NoneStays(origins);
  }

  lemma LabelsAreLabels(i: nat)
    requires i < |LABELS|
    ensures IsLabel(LABELS[i])
  {
  }

  lemma PublicOriginsIff(base: string)
    requires base != ""
    ensures (forall o | o in PublicOrigins(base) :: Plain(o) && Allowed(o)) <==> PublicBase(base)
  {
    var origins := PublicOrigins(base);
    assert forall i | 0 <= i < |LABELS| :: origins[i] == LABELS[i] + base;
    forall i | 0 <= i < |LABELS| ensures Plain(origins[i]) && Allowed(origins[i]) <==> PublicBase(base) {
      LabelsAreLabels(i);
      LabelledOriginIff(LABELS[i], base);
    }
    assert origins[0] in origins;
  }

  /** Outside production the origins are all that are listed. */
  lemma OtherOrigins(input: Input, validUrl: string -> bool)
    requires Load(input, validUrl).Ok? && !ForProduction(input)
    ensures CorsOrigins(Load(input, validUrl).value.fields) == StripParts(SplitCommas(CorsText(input)))
  {
    LoadedEnvironmentIff(input, validUrl);
    CorsTextIsLoaded(input, validUrl);
  }

  /** Outside production, an unconfigured list has the origins for development as well. */
  lemma DerivedOtherList(input: Input, validUrl: string -> bool)
    requires Load(input, validUrl).Ok? && !ForProduction(input)
    requires CORS_ORIGINS !in input.text && PublicBase(BaseOf(input.text))
    ensures CorsOrigins(Load(input, validUrl).value.fields) == PublicOrigins(BaseOf(input.text)) + [
      "http://localhost:3000", "http://localhost:3002", "http://localhost:5173",
      "http://console.stoa.local", "http://portal.stoa.local", "http://api.stoa.local"]
  {
    OtherOrigins(input, validUrl);
    PublicOriginsIff(BaseOf(input.text));
    DevelopmentOriginsGo();
    OriginsRoundTrip(Origins(BaseOf(input.text)));
  }

  /** In production a list that nobody configured is the six origins of the base domain, without
      those for development, exactly when the base domain makes public origins of its own. */
  lemma DerivedProductionList(input: Input, validUrl: string -> bool)
    requires Load(input, validUrl).Ok? && ForProduction(input)
    requires CORS_ORIGINS !in input.text
    ensures CorsOrigins(Load(input, validUrl).value.fields) == PublicOrigins(BaseOf(input.text)) <==> PublicBase(BaseOf(input.text))
  {
    var base := BaseOf(input.text);
    ProductionInvariant(input, validUrl);
    PublicOriginsIff(base);
    if PublicBase(base) {
      DevelopmentOriginsGo();
      OriginsRoundTrip(Origins(base));
      OnlyAllowedKeepsOrder(PublicOrigins(base), DEVELOPMENT_ORIGINS);
      AllAllowedStay(PublicOrigins(base));
    }
  }

  /** With GitHub both halves of the project id are there. */
  lemma GitHubProjectId(input: Input, validUrl: string -> bool)
    requires Load(input, validUrl).Ok? && ForProduction(input)
    requires Load(input, validUrl).value.git.provider == GitHub
    ensures var git := Load(input, validUrl).value.git;
      && Trimmed(git.github.org) && Trimmed(git.github.catalogRepo)
      && |git.github.org| > 0 && |git.github.catalogRepo| > 0
  {
    ProductionGates(input, validUrl);
    var raw := Load(input, validUrl).value.fields.git;
    var i, j := StripRemovesTheEnds(raw.github.org);
    var k, l := StripRemovesTheEnds(raw.github.catalogRepo);
  }

  /** With GitLab the project id is there and trimmed. */
  lemma GitLabProjectId(input: Input, validUrl: string -> bool)
    requires Load(input, validUrl).Ok? && ForProduction(input) && ForGitLab(input)
    ensures var id := CatalogProjectId(Load(input, validUrl).value.git);
      id == Strip(Field(input, GITLAB_PROJECT_ID, "")) && Trimmed(id) && id != ""
  {
    ProductionGates(input, validUrl);
    LoadedValues(input, validUrl);
    var i, j := StripRemovesTheEnds(Field(input, GITLAB_PROJECT_ID, ""));
  }

  /** As long as no organisation has a slash, a project id names one repository only. */
  lemma ProjectIdsDiffer(git: GitConfig, other: GitConfig)
    requires git.provider == GitHub && other.provider == GitHub
    requires '/' !in git.github.org && '/' !in other.github.org
    ensures CatalogProjectId(git) == CatalogProjectId(other)
       <==> git.github.org == other.github.org && git.github.catalogRepo == other.github.catalogRepo
  {
    if CatalogProjectId(git) == CatalogProjectId(other) {
      FirstSlash(git.github.org, git.github.catalogRepo, other.github.org, other.github.catalogRepo);
    }
  }

  lemma FirstSlash(a: string, b: string, c: string, d: string)
    requires '/' !in a && '/' !in c && a + ("/" + b) == c + ("/" + d)
    ensures a == c && b == d
  {
    var whole := a + ("/" + b);
    FirstSlashAt(a, b, |c|);
    FirstSlashAt(c, d, |a|);
    assert a == whole[..|a|] && c == whole[..|c|] && b == whole[|a| + 1..] && d == whole[|c| + 1..];
  }

  lemma FirstSlashAt(a: string, b: string, i: nat)
    requires '/' !in a && i < |a + ("/" + b)| && (a + ("/" + b))[i] == '/'
    ensures |a| <= i
  {
  }
}

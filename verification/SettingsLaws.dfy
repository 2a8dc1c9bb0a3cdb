/** When settings are accepted, and what holds of accepted production settings. */
module SettingsLaws {
  import opened Wrappers
  import opened Text
  import opened Settings

  // ----- trimming -----

  lemma {:induction false} TrimLeftIsSuffix(s: string) returns (n: nat)
    ensures n <= |s| && TrimLeft(s) == s[n..] && IsBlank(s[..n])
    ensures n < |s| ==> !IsSpace(s[n])
  {
    n := 0;
    if s != "" && IsSpace(s[0]) {
      var m := TrimLeftIsSuffix(s[1..]);
      n := m + 1;
      assert s[1..][m..] == s[n..];
      assert s[..n] == [s[0]] + s[1..][..m];
    }
  }

  lemma {:induction false} TrimRightIsPrefix(s: string) returns (n: nat)
    ensures n <= |s| && TrimRight(s) == s[..n] && IsBlank(s[n..])
    ensures TrimRight(s) != "" ==> !IsSpace(TrimRight(s)[|TrimRight(s)| - 1])
  {
    n := |s|;
    if s != "" && IsSpace(s[|s| - 1]) {
      var last := |s| - 1;
      n := TrimRightIsPrefix(s[..last]);
      assert s[n..] == s[..last][n..] + [s[last]];
      assert s[..last][..n] == s[..n];
    }
  }

  /** Stripping leaves no white space at the ends and removes nothing else. */
  lemma StripRemovesTheEnds(s: string) returns (i: nat, j: nat)
    ensures i <= j <= |s| && Strip(s) == s[i..j] && IsBlank(s[..i]) && IsBlank(s[j..])
    ensures Trimmed(Strip(s))
  {
    i := TrimLeftIsSuffix(s);
    var n := TrimRightIsPrefix(s[i..]);
    j := i + n;
    assert s[i..][..n] == s[i..j] && s[i..][n..] == s[j..];
    if Strip(s) != "" {
      assert Strip(s)[0] == s[i];
    }
  }

  lemma StripIsEmptyIffBlank(s: string)
    ensures Strip(s) == "" <==> IsBlank(s)
  {
    var i, j := StripRemovesTheEnds(s);
    if Strip(s) == "" {
      assert s == s[..i] + s[i..];
      assert s[i..] == s[j..];
    } else {
      assert Strip(s)[0] == s[i];
    }
  }

  lemma StripTrimmed(s: string)
    requires Trimmed(s)
    ensures Strip(s) == s
  {
  }

  // ----- environment -----

  lemma LowerKeeps(s: string)
    requires forall i | 0 <= i < |s| :: 'a' <= s[i] <= 'z'
    ensures Lower(s) == s && Trimmed(s)
  {
  }

  /** Normalising twice is normalising once. */
  lemma NormalisationIsIdempotent(value: string)
    requires NormalizeEnvironment(value).Ok?
    ensures NormalizeEnvironment(EnvironmentName(NormalizeEnvironment(value).value)) == NormalizeEnvironment(value)
  {
    var name := EnvironmentName(NormalizeEnvironment(value).value);
    LowerKeeps(name);
    StripTrimmed(name);
  }

  // ----- derived defaults -----

  function Names(defaults: seq<Default>): set<Name> { set d | d in defaults :: d.name }

  /** What was given is kept, even when it is empty, and only the derived fields are added. */
  lemma {:induction false} GivenValuesAreKept(data: map<Name, string>, defaults: seq<Default>)
    ensures forall name | name in data :: name in SetDefaults(data, defaults) && SetDefaults(data, defaults)[name] == data[name]
    ensures SetDefaults(data, defaults).Keys == data.Keys + Names(defaults)
    decreases defaults
  {
    if defaults != [] {
      var first := defaults[0];
      GivenValuesAreKept(if first.name in data then data else data[first.name := first.value], defaults[1..]);
      assert defaults == [first] + defaults[1..];
      assert Names(defaults) == {first.name} + Names(defaults[1..]);
    }
  }

  /** A field that was not given has the first default listed for it. */
  lemma {:induction false} AbsentValuesAreDerived(data: map<Name, string>, defaults: seq<Default>, k: nat)
    requires k < |defaults| && defaults[k].name !in data
    requires forall i | 0 <= i < k :: defaults[i].name != defaults[k].name
    ensures var all := SetDefaults(data, defaults); defaults[k].name in all && all[defaults[k].name] == defaults[k].value
    decreases defaults
  {
    var first := defaults[0];
    var next := if first.name in data then data else data[first.name := first.value];
    if k == 0 {
      GivenValuesAreKept(next, defaults[1..]);
    } else {
      AbsentValuesAreDerived(next, defaults[1..], k - 1);
    }
  }

  lemma {:induction false} NothingToDerive(data: map<Name, string>, defaults: seq<Default>)
    requires Names(defaults) <= data.Keys
    ensures SetDefaults(data, defaults) == data
    decreases defaults
  {
    if defaults != [] {
      assert defaults == [defaults[0]] + defaults[1..];
      assert defaults[0].name in Names(defaults);
      assert Names(defaults[1..]) <= Names(defaults);
      NothingToDerive(data, defaults[1..]);
    }
  }

  /** Deriving the defaults a second time, from whatever base domain, changes nothing. */
  lemma DerivingIsIdempotent(data: map<Name, string>, base: string, other: string)
    ensures var once := SetDefaults(data, Derived(base)); SetDefaults(once, Derived(other)) == once
  {
    GivenValuesAreKept(data, Derived(base));
    SameNames(base, other);
    NothingToDerive(SetDefaults(data, Derived(base)), Derived(other));
  }

  lemma SameNames(base: string, other: string)
    ensures Names(Derived(base)) == Names(Derived(other))
  {
    DerivedNames(base);
    DerivedNames(other);
  }

  lemma DerivedNames(base: string)
    ensures Names(Derived(base)) == set name | name in DERIVED
  {
    var d := Derived(base);
    forall name ensures name in Names(d) <==> name in DERIVED {
      if name in DERIVED {
        var i :| 0 <= i < |DERIVED| && DERIVED[i] == name;
        assert d[i] in d && d[i].name == name;
      }
    }
  }

  // ----- when settings are accepted -----

  /** The input names a Git provider and what that provider needs. */
  predicate HasGitIdentity(input: Input, provider: Provider, validUrl: string -> bool) {
    match provider
    case GitHub =>
      && !IsBlank(Field(input, GITHUB_TOKEN, "")) && !IsBlank(Field(input, GITHUB_ORG, "stoa-platform"))
      && !IsBlank(Field(input, GITHUB_CATALOG_REPO, "stoa-catalog"))
    case GitLab =>
      && !IsBlank(Field(input, GITLAB_TOKEN, "")) && !IsBlank(Field(input, GITLAB_PROJECT_ID, ""))
      && validUrl(Strip(Field(input, GITLAB_URL, "https://gitlab.com")))
  }

  predicate NoFlagIsOn(flags: map<Flag, bool>) {
    forall flag: Flag | flag in flags :: !flags[flag]
  }

  /** The trimmed, lower-case text of the field is one of these spellings. */
  predicate Spelled(input: Input, name: Name, spellings: set<string>) {
    name in input.text && Lower(Strip(input.text[name])) in spellings
  }

  predicate ForProduction(input: Input) {
    ENVIRONMENT !in input.text || Spelled(input, ENVIRONMENT, {"prod", "production"})
  }

  predicate ForOtherEnvironment(input: Input) {
    Spelled(input, ENVIRONMENT, {"dev", "development", "staging", "test"})
  }

  predicate ForGitHub(input: Input) {
    GIT_PROVIDER !in input.text || Spelled(input, GIT_PROVIDER, {"github"})
  }

  predicate ForGitLab(input: Input) {
    Spelled(input, GIT_PROVIDER, {"gitlab"})
  }

  predicate HasBaseDomain(input: Input) {
    BASE_DOMAIN in input.text ==> !IsBlank(input.text[BASE_DOMAIN])
  }

  /** The single fields are in order. */
  predicate WellFormed(input: Input) {
    (ForProduction(input) || ForOtherEnvironment(input)) && (ForGitHub(input) || ForGitLab(input)) && HasBaseDomain(input)
  }

  predicate FitForProduction(input: Input, validUrl: string -> bool) {
    && NoFlagIsOn(input.flags)
    && (ForGitHub(input) ==> HasGitIdentity(input, GitHub, validUrl))
    && (ForGitLab(input) ==> HasGitIdentity(input, GitLab, validUrl))
  }

  /** The environment is read from its spellings, and is production if none is given. */
  lemma EnvironmentIff(input: Input)
    ensures var r := NormalizeEnvironment(Field(input, ENVIRONMENT, "production"));
      && (r == Ok(Production) <==> ForProduction(input))
      && (r == Ok(Dev) <==> Spelled(input, ENVIRONMENT, {"dev", "development"}))
      && (r == Ok(Staging) <==> Spelled(input, ENVIRONMENT, {"staging"}))
      && (r == Ok(Test) <==> Spelled(input, ENVIRONMENT, {"test"}))
      && (r.Ok? <==> ForProduction(input) || ForOtherEnvironment(input))
  {
    LowerKeeps("production");
    StripTrimmed("production");
    SpellingsDiffer();
  }

  lemma SpellingsDiffer()
    ensures var names := ["prod", "production", "dev", "development", "staging", "test"];
      forall i, j | 0 <= i < j < 6 :: names[i] != names[j]
  {
    assert |"prod"| == 4 && |"production"| == 10 && |"dev"| == 3 && |"development"| == 11 && |"staging"| == 7;
    assert |"test"| == 4 && "test"[0] != "prod"[0];
  }

  lemma ProviderIff(input: Input)
    ensures var r := NormalizeProvider(Field(input, GIT_PROVIDER, "github"));
      && (r == Ok(GitHub) <==> ForGitHub(input)) && (r == Ok(GitLab) <==> ForGitLab(input))
  {
    LowerKeeps("github");
    StripTrimmed("github");
    assert "github"[3] != "gitlab"[3];
  }

  lemma {:induction false} NoneOnIff(flags: map<Flag, bool>, among: seq<Flag>)
    ensures FlagsOn(flags, among) == [] <==> forall flag | flag in among :: !IsOn(flags, flag)
  {
    if among != [] {
      NoneOnIff(flags, among[1..]);
      assert among == [among[0]] + among[1..];
    }
  }

  lemma NoOffendersIff(input: Input, provider: Provider, validUrl: string -> bool)
    ensures Offenders(Hydrated(RawGit(input, provider)), validUrl) == [] <==> HasGitIdentity(input, provider, validUrl)
  {
    StripIsEmptyIffBlank(Field(input, GITHUB_TOKEN, ""));
    StripIsEmptyIffBlank(Field(input, GITHUB_ORG, "stoa-platform"));
    StripIsEmptyIffBlank(Field(input, GITHUB_CATALOG_REPO, "stoa-catalog"));
    StripIsEmptyIffBlank(Field(input, GITLAB_TOKEN, ""));
    StripIsEmptyIffBlank(Field(input, GITLAB_PROJECT_ID, ""));
  }

  function WithDefaults(input: Input): Input {
    input.(text := SetDefaults(input.text, Derived(BaseOf(input.text))))
  }

  /** Deriving defaults touches none of the fields that are validated. */
  lemma DerivingKeepsField(input: Input, name: Name, default: string)
    requires name !in DERIVED
    ensures Field(WithDefaults(input), name, default) == Field(input, name, default)
  {
    GivenValuesAreKept(input.text, Derived(BaseOf(input.text)));
    DerivedNames(BaseOf(input.text));
  }

  lemma DerivingKeepsGitHub(input: Input)
    ensures RawGitHub(WithDefaults(input)) == RawGitHub(input)
  {
    DerivingKeepsField(input, GITHUB_TOKEN, "");
    DerivingKeepsField(input, GITHUB_ORG, "stoa-platform");
    DerivingKeepsField(input, GITHUB_CATALOG_REPO, "stoa-catalog");
    DerivingKeepsField(input, GITHUB_WEBHOOK_SECRET, "");
  }

  lemma DerivingKeepsGitLab(input: Input)
    ensures RawGitLab(WithDefaults(input)) == RawGitLab(input)
  {
    DerivingKeepsField(input, GITLAB_URL, "https://gitlab.com");
    DerivingKeepsField(input, GITLAB_TOKEN, "");
    DerivingKeepsField(input, GITLAB_PROJECT_ID, "");
    DerivingKeepsField(input, GITLAB_WEBHOOK_SECRET, "");
  }

  lemma DerivingKeepsGit(input: Input, provider: Provider)
    ensures RawGit(WithDefaults(input), provider) == RawGit(input, provider)
  {
    DerivingKeepsGitHub(input);
    DerivingKeepsGitLab(input);
    DerivingKeepsField(input, GIT_DEFAULT_BRANCH, "main");
  }

  lemma SingleFields(input: Input)
    ensures var environment := NormalizeEnvironment(Field(WithDefaults(input), ENVIRONMENT, "production"));
      var domain := CheckBaseDomain(Field(WithDefaults(input), BASE_DOMAIN, "gostoa.dev"));
      var provider := NormalizeProvider(Field(WithDefaults(input), GIT_PROVIDER, "github"));
      && (environment.Ok? <==> ForProduction(input) || ForOtherEnvironment(input)) && (domain.Ok? <==> HasBaseDomain(input))
      && (provider.Ok? <==> ForGitHub(input) || ForGitLab(input))
  {
    DerivingKeepsField(input, ENVIRONMENT, "production");
    DerivingKeepsField(input, GIT_PROVIDER, "github");
    DerivingKeepsField(input, BASE_DOMAIN, "gostoa.dev");
    StripIsEmptyIffBlank(Field(input, BASE_DOMAIN, "gostoa.dev"));
    EnvironmentIff(input);
    ProviderIff(input);
    assert !IsSpace("gostoa.dev"[0]);
  }

  lemma ReadFieldsIff(input: Input)
    ensures ReadFields(WithDefaults(input)).Ok? <==> WellFormed(input)
    ensures WellFormed(input) ==>
      var fields := ReadFields(WithDefaults(input)).value;
      && NormalizeEnvironment(Field(input, ENVIRONMENT, "production")) == Ok(fields.environment)
      && fields.git == RawGit(input, if ForGitHub(input) then GitHub else GitLab)
      && fields.flags == input.flags && fields.baseDomain == Field(input, BASE_DOMAIN, "gostoa.dev")
  {
    SingleFields(input);
    if WellFormed(input) {
      FieldsRead(input);
    }
  }

  lemma FieldsRead(input: Input)
    requires WellFormed(input) && ReadFields(WithDefaults(input)).Ok?
    ensures var fields := ReadFields(WithDefaults(input)).value;
      && NormalizeEnvironment(Field(input, ENVIRONMENT, "production")) == Ok(fields.environment)
      && fields.git == RawGit(input, if ForGitHub(input) then GitHub else GitLab)
      && fields.flags == input.flags && fields.baseDomain == Field(input, BASE_DOMAIN, "gostoa.dev")
  {
    DerivingKeepsField(input, ENVIRONMENT, "production");
    DerivingKeepsField(input, BASE_DOMAIN, "gostoa.dev");
    ProviderRead(input);
    DerivingKeepsGit(input, if ForGitHub(input) then GitHub else GitLab);
    FieldByField(WithDefaults(input));
  }

  lemma FieldByField(input: Input)
    requires ReadFields(input).Ok?
    ensures var fields := ReadFields(input).value;
      && NormalizeEnvironment(Field(input, ENVIRONMENT, "production")) == Ok(fields.environment)
      && NormalizeProvider(Field(input, GIT_PROVIDER, "github")) == Ok(fields.git.provider)
      && fields.git == RawGit(input, fields.git.provider)
      && fields.flags == input.flags && fields.baseDomain == Field(input, BASE_DOMAIN, "gostoa.dev")
  {
  }

  lemma ProviderRead(input: Input)
    requires ForGitHub(input) || ForGitLab(input)
    ensures NormalizeProvider(Field(WithDefaults(input), GIT_PROVIDER, "github"))
         == Ok(if ForGitHub(input) then GitHub else GitLab)
  {
    DerivingKeepsField(input, GIT_PROVIDER, "github");
    ProviderIff(input);
  }

  /** The Git configuration of the provider that the input names. */
  function GitOf(input: Input): GitConfig {
    Hydrated(RawGit(input, if ForGitHub(input) then GitHub else GitLab))
  }

  /** Loading, once the single fields are in order. */
  lemma LoadWellFormed(input: Input, validUrl: string -> bool) returns (fields: Fields)
    requires WellFormed(input)
    ensures ReadFields(WithDefaults(input)) == Ok(fields)
    ensures var r, git, on := Load(input, validUrl), GitOf(input), FlagsOn(input.flags, SENSITIVE_FLAGS);
      if ForProduction(input) && Offenders(git, validUrl) != [] then r == Err(GitIncoherent(Offenders(git, validUrl)))
      else if ForProduction(input) && on != [] then r == Err(DebugFlags(on))
      else if ForProduction(input) && IsOn(input.flags, StoaDisableAuth) then r == Err(AuthBypassed)
      else r == Ok(Loaded(fields, git))
  {
    ReadFieldsIff(input);
    EnvironmentIff(input);
    fields := ReadFields(WithDefaults(input)).value;
  }

  lemma LoadIllFormed(input: Input, validUrl: string -> bool)
    requires !WellFormed(input)
    ensures Load(input, validUrl).Err? && Load(input, validUrl).error.BadFields?
  {
    ReadFieldsIff(input);
  }

  /** Settings are accepted exactly when the single fields are in order and, in production,
      no sensitive flag and no bypass is on and the Git identity is complete. */
  lemma AcceptedIff(input: Input, validUrl: string -> bool)
    ensures Load(input, validUrl).Ok? <==>
      WellFormed(input) && (ForProduction(input) ==> FitForProduction(input, validUrl))
  {
    if WellFormed(input) {
      var fields := LoadWellFormed(input, validUrl);
      FitIff(input, validUrl);
    } else {
      LoadIllFormed(input, validUrl);
    }
  }

  lemma FitIff(input: Input, validUrl: string -> bool)
    requires WellFormed(input)
    ensures FitForProduction(input, validUrl) <==>
      && Offenders(GitOf(input), validUrl) == [] && FlagsOn(input.flags, SENSITIVE_FLAGS) == []
      && !IsOn(input.flags, StoaDisableAuth)
  {
    NeverBoth(input);
    NoOffendersIff(input, if ForGitHub(input) then GitHub else GitLab, validUrl);
    NoneOnIff(input.flags, SENSITIVE_FLAGS);
    AllFlags(input.flags);
  }

  lemma NeverBoth(input: Input)
    ensures !(ForGitHub(input) && ForGitLab(input))
  {
    ProviderIff(input);
  }

  /** What an accepted input loads as. */
  lemma LoadedEnvironmentIff(input: Input, validUrl: string -> bool)
    requires Load(input, validUrl).Ok?
    ensures var environment := Load(input, validUrl).value.fields.environment;
      && (environment == Production <==> ForProduction(input))
      && (environment == Dev <==> Spelled(input, ENVIRONMENT, {"dev", "development"}))
      && (environment == Staging <==> Spelled(input, ENVIRONMENT, {"staging"}))
      && (environment == Test <==> Spelled(input, ENVIRONMENT, {"test"}))
  {
    LoadsWellFormed(input, validUrl);
    ReadFieldsIff(input);
    EnvironmentIff(input);
  }

  lemma AllFlags(flags: map<Flag, bool>)
    ensures NoFlagIsOn(flags) <==>
      (forall flag | flag in SENSITIVE_FLAGS :: !IsOn(flags, flag)) && !IsOn(flags, StoaDisableAuth)
  {
    AllSensitive();
    if (forall flag | flag in SENSITIVE_FLAGS :: !IsOn(flags, flag)) && !IsOn(flags, StoaDisableAuth) {
      forall flag: Flag | flag in flags ensures !flags[flag] {
        assert !IsOn(flags, flag);
      }
    }
  }

  // ----- what is loaded -----

  /** The base domain and the flags are loaded as they came, and the fields of the Git
      configuration stripped, each from its own name. */
  lemma LoadedValues(input: Input, validUrl: string -> bool)
    requires Load(input, validUrl).Ok?
    ensures var loaded := Load(input, validUrl).value; var git := loaded.git;
      && loaded.fields.flags == input.flags && loaded.fields.baseDomain == Field(input, BASE_DOMAIN, "gostoa.dev")
      && (git.provider == GitHub <==> ForGitHub(input)) && (git.provider == GitLab <==> ForGitLab(input))
      && git.github.token == Strip(Field(input, GITHUB_TOKEN, ""))
      && git.github.org == Strip(Field(input, GITHUB_ORG, "stoa-platform"))
      && git.github.catalogRepo == Strip(Field(input, GITHUB_CATALOG_REPO, "stoa-catalog"))
      && git.github.webhookSecret == Strip(Field(input, GITHUB_WEBHOOK_SECRET, ""))
      && git.gitlab.url == Strip(Field(input, GITLAB_URL, "https://gitlab.com"))
      && git.gitlab.token == Strip(Field(input, GITLAB_TOKEN, ""))
      && git.gitlab.projectId == Strip(Field(input, GITLAB_PROJECT_ID, ""))
      && git.gitlab.webhookSecret == Strip(Field(input, GITLAB_WEBHOOK_SECRET, ""))
      && git.defaultBranch == Strip(Field(input, GIT_DEFAULT_BRANCH, "main"))
  {
    LoadsWellFormed(input, validUrl);
    ReadFieldsIff(input);
    NeverBoth(input);
    GitValues(input);
  }

  lemma LoadsWellFormed(input: Input, validUrl: string -> bool)
    requires Load(input, validUrl).Ok?
    ensures WellFormed(input) && ReadFields(WithDefaults(input)) == Ok(Load(input, validUrl).value.fields)
    ensures Load(input, validUrl).value.git == GitOf(input)
  {
    if WellFormed(input) {
      var fields := LoadWellFormed(input, validUrl);
    } else {
      LoadIllFormed(input, validUrl);
    }
  }

  lemma GitValues(input: Input)
    ensures var git := GitOf(input);
      && (git.provider == GitHub <==> ForGitHub(input))
      && git.github == GitHubConfig(Strip(Field(input, GITHUB_TOKEN, "")), Strip(Field(input, GITHUB_ORG, "stoa-platform")),
                                    Strip(Field(input, GITHUB_CATALOG_REPO, "stoa-catalog")),
                                    Strip(Field(input, GITHUB_WEBHOOK_SECRET, "")))
      && git.gitlab == GitLabConfig(Strip(Field(input, GITLAB_URL, "https://gitlab.com")), Strip(Field(input, GITLAB_TOKEN, "")),
                                    Strip(Field(input, GITLAB_PROJECT_ID, "")),
                                    Strip(Field(input, GITLAB_WEBHOOK_SECRET, "")))
      && git.defaultBranch == Strip(Field(input, GIT_DEFAULT_BRANCH, "main"))
  {
  }

  /** What stands before and after the base domain in the address of a service. */
  function AddressParts(name: Name): (string, string) {
    match name
    case KEYCLOAK_URL => ("https://auth.", "")
    case GATEWAY_URL => ("https://vps-wm.", "")
    case GATEWAY_ADMIN_PROXY_URL => ("https://apis.", "/gateway/Gateway-Admin-API/1.0")
    case ARGOCD_URL => ("https://argocd.", "")
    case ARGOCD_EXTERNAL_URL => ("https://argocd.", "")
    case GRAFANA_URL => ("https://grafana.", "")
    case PROMETHEUS_URL => ("https://prometheus.", "")
    case LOGS_URL => ("https://grafana.", "/explore")
    case VAULT_ADDR => ("https://hcvault.", "")
    case _ => ("", "")
  }

  /** Every service whose address is not given gets the one under the base domain. */
  lemma DefaultAddresses(data: map<Name, string>, name: Name)
    requires AddressParts(name).0 != ""
    ensures var base := if BASE_DOMAIN in data && data[BASE_DOMAIN] != "" then data[BASE_DOMAIN] else "gostoa.dev";
      Has(data, SetDefaults(data, Derived(BaseOf(data))), name, AddressParts(name).0 + (base + AddressParts(name).1))
  {
    DerivedParts(name, BaseOf(data));
    var k :| 0 <= k < |DERIVED| && DERIVED[k] == name;
    DefaultIsSet(data, name, k);
  }

  lemma DerivedParts(name: Name, base: string)
    requires AddressParts(name).0 != ""
    ensures DerivedValue(name, base) == AddressParts(name).0 + (base + AddressParts(name).1)
    ensures name in DERIVED
  {
    assert base + "" == base;
    IsDerived(name);
  }

  lemma IsDerived(name: Name)
    requires AddressParts(name).0 != ""
    ensures name in DERIVED
  {
    assert DERIVED[0] == KEYCLOAK_URL && DERIVED[1] == GATEWAY_URL && DERIVED[2] == GATEWAY_ADMIN_PROXY_URL
        && DERIVED[3] == ARGOCD_URL && DERIVED[4] == ARGOCD_EXTERNAL_URL && DERIVED[5] == GRAFANA_URL
        && DERIVED[6] == PROMETHEUS_URL && DERIVED[7] == LOGS_URL && DERIVED[8] == VAULT_ADDR;
  }

  /** The field has the given value, or else this one. */
  predicate Has(data: map<Name, string>, all: map<Name, string>, name: Name, value: string) {
    name in all && all[name] == if name in data then data[name] else value
  }

  lemma DefaultIsSet(data: map<Name, string>, name: Name, k: nat)
    requires k < |DERIVED| && DERIVED[k] == name
    ensures Has(data, SetDefaults(data, Derived(BaseOf(data))), name, DerivedValue(name, BaseOf(data)))
  {
    var defaults := Derived(BaseOf(data));
    GivenValuesAreKept(data, defaults);
    assert defaults[k].name == name && defaults[k].value == DerivedValue(name, BaseOf(data));
    if name !in data {
      DerivedOnce(k);
      AbsentValuesAreDerived(data, defaults, k);
    } else {
      assert name in SetDefaults(data, defaults);
    }
  }

  lemma DerivedOnce(k: nat)
    requires k < |DERIVED|
    ensures forall i | 0 <= i < k :: DERIVED[i] != DERIVED[k]
  {
  }

  // ----- what a refusal says -----

  /** The single fields that are not in order. */
  predicate ListsBadFields(input: Input, errors: seq<FieldError>) {
    && (UnknownEnvironment in errors <==> !ForProduction(input) && !ForOtherEnvironment(input))
    && (EmptyBaseDomain in errors <==> !HasBaseDomain(input))
    && (UnknownProvider in errors <==> !ForGitHub(input) && !ForGitLab(input))
  }

  /** What the chosen provider lacks, and nothing of the other. */
  predicate ListsMissing(input: Input, validUrl: string -> bool, missing: seq<Offender>) {
    && (TokenMissing in missing <==>
        if ForGitHub(input) then IsBlank(Field(input, GITHUB_TOKEN, "")) else IsBlank(Field(input, GITLAB_TOKEN, "")))
    && (OrgMissing in missing <==> ForGitHub(input) && IsBlank(Field(input, GITHUB_ORG, "stoa-platform")))
    && (RepoMissing in missing <==> ForGitHub(input) && IsBlank(Field(input, GITHUB_CATALOG_REPO, "stoa-catalog")))
    && (ProjectMissing in missing <==> !ForGitHub(input) && IsBlank(Field(input, GITLAB_PROJECT_ID, "")))
    && (BadUrl in missing <==> !ForGitHub(input) && !validUrl(Strip(Field(input, GITLAB_URL, "https://gitlab.com"))))
  }

  predicate ListsFlags(input: Input, flags: seq<Flag>) {
    && flags != [] && forall flag | flag != StoaDisableAuth :: flag in flags <==> flag in input.flags && input.flags[flag]
  }

  lemma ErrorsAreListed(environment: Result<Environment, FieldError>, domain: Result<string, FieldError>,
                        provider: Result<Provider, FieldError>)
    requires environment.Err? ==> environment.error == UnknownEnvironment
    requires domain.Err? ==> domain.error == EmptyBaseDomain
    requires provider.Err? ==> provider.error == UnknownProvider
    ensures var errors := Errors(environment, domain, provider);
      && (UnknownEnvironment in errors <==> environment.Err?) && (EmptyBaseDomain in errors <==> domain.Err?)
      && (UnknownProvider in errors <==> provider.Err?)
  {
  }

  lemma BadFieldsAreListed(input: Input, validUrl: string -> bool)
    requires !WellFormed(input)
    ensures Load(input, validUrl).Err? && Load(input, validUrl).error.BadFields?
    ensures ListsBadFields(input, Load(input, validUrl).error.errors)
  {
    var environment := NormalizeEnvironment(Field(WithDefaults(input), ENVIRONMENT, "production"));
    var domain := CheckBaseDomain(Field(WithDefaults(input), BASE_DOMAIN, "gostoa.dev"));
    var provider := NormalizeProvider(Field(WithDefaults(input), GIT_PROVIDER, "github"));
    SingleFields(input);
    ErrorsAreListed(environment, domain, provider);
    assert ReadFields(WithDefaults(input)) == Err(BadFields(Errors(environment, domain, provider)));
  }

  lemma GitHubLacks(git: GitConfig, validUrl: string -> bool)
    requires git.provider == GitHub
    ensures var missing := Offenders(git, validUrl);
      && (TokenMissing in missing <==> git.github.token == "") && (OrgMissing in missing <==> git.github.org == "")
      && (RepoMissing in missing <==> git.github.catalogRepo == "") && ProjectMissing !in missing && BadUrl !in missing
  {
  }

  lemma GitLabLacks(git: GitConfig, validUrl: string -> bool)
    requires git.provider == GitLab
    ensures var missing := Offenders(git, validUrl);
      && (TokenMissing in missing <==> git.gitlab.token == "") && (ProjectMissing in missing <==> git.gitlab.projectId == "")
      && (BadUrl in missing <==> !validUrl(git.gitlab.url)) && OrgMissing !in missing && RepoMissing !in missing
  {
  }

  lemma MissingAreListed(input: Input, validUrl: string -> bool)
    requires WellFormed(input)
    ensures ListsMissing(input, validUrl, Offenders(GitOf(input), validUrl))
  {
    StripIsEmptyIffBlank(Field(input, GITHUB_TOKEN, ""));
    StripIsEmptyIffBlank(Field(input, GITHUB_ORG, "stoa-platform"));
    StripIsEmptyIffBlank(Field(input, GITHUB_CATALOG_REPO, "stoa-catalog"));
    StripIsEmptyIffBlank(Field(input, GITLAB_TOKEN, ""));
    StripIsEmptyIffBlank(Field(input, GITLAB_PROJECT_ID, ""));
    if ForGitHub(input) {
      GitHubLacks(Hydrated(RawGit(input, GitHub)), validUrl);
    } else {
      GitLabLacks(Hydrated(RawGit(input, GitLab)), validUrl);
    }
  }

  lemma {:induction false} FlagsAreListed(flags: map<Flag, bool>, among: seq<Flag>)
    ensures forall flag :: flag in FlagsOn(flags, among) <==> flag in among && IsOn(flags, flag)
  {
    if among != [] {
      FlagsAreListed(flags, among[1..]);
      assert among == [among[0]] + among[1..];
    }
  }

  /** What a refusal says of the input. */
  predicate SaysWhy(input: Input, validUrl: string -> bool, error: Error) {
    match error
    case BadFields(errors) => !WellFormed(input) && ListsBadFields(input, errors)
    case GitIncoherent(missing) => ProductionFails(input) && missing != [] && ListsMissing(input, validUrl, missing)
    case DebugFlags(flags) => ProductionFails(input) && HasIdentity(input, validUrl) && ListsFlags(input, flags)
    case AuthBypassed =>
      && ProductionFails(input) && HasIdentity(input, validUrl) && OnlyBypassIsOn(input)
  }

  predicate ProductionFails(input: Input) {
    WellFormed(input) && ForProduction(input)
  }

  predicate HasIdentity(input: Input, validUrl: string -> bool) {
    HasGitIdentity(input, if ForGitHub(input) then GitHub else GitLab, validUrl)
  }

  predicate OnlyBypassIsOn(input: Input) {
    && StoaDisableAuth in input.flags && input.flags[StoaDisableAuth]
    && forall flag | flag != StoaDisableAuth && flag in input.flags :: !input.flags[flag]
  }

  /** A refusal names the first thing that is wrong, and all of it: the single fields, then in
      production the Git identity, the flags that log credentials, and the bypass. */
  lemma RefusalSaysWhy(input: Input, validUrl: string -> bool)
    requires Load(input, validUrl).Err?
    ensures SaysWhy(input, validUrl, Load(input, validUrl).error)
  {
    if WellFormed(input) {
      ProductionRefusal(input, validUrl);
    } else {
      BadFieldsAreListed(input, validUrl);
    }
  }

  lemma ProductionRefusal(input: Input, validUrl: string -> bool)
    requires WellFormed(input) && Load(input, validUrl).Err?
    ensures SaysWhy(input, validUrl, Load(input, validUrl).error)
  {
    var fields := LoadWellFormed(input, validUrl);
    MissingAreListed(input, validUrl);
    NoOffendersIff(input, if ForGitHub(input) then GitHub else GitLab, validUrl);
    SensitiveFlagsAreListed(input);
  }

  lemma SensitiveFlagsAreListed(input: Input)
    ensures FlagsOn(input.flags, SENSITIVE_FLAGS) != [] ==> ListsFlags(input, FlagsOn(input.flags, SENSITIVE_FLAGS))
    ensures FlagsOn(input.flags, SENSITIVE_FLAGS) == [] ==>
      forall flag | flag != StoaDisableAuth && flag in input.flags :: !input.flags[flag]
  {
    FlagsAreListed(input.flags, SENSITIVE_FLAGS);
    AllSensitive();
    forall flag | flag != StoaDisableAuth && flag in input.flags
      ensures input.flags[flag] <==> flag in FlagsOn(input.flags, SENSITIVE_FLAGS)
    {
      assert IsOn(input.flags, flag) <==> input.flags[flag];
    }
  }

  lemma AllSensitive()
    ensures forall flag :: flag in SENSITIVE_FLAGS <==> flag != StoaDisableAuth
  {
    assert SENSITIVE_FLAGS[0] == LogDebugAuthTokens && SENSITIVE_FLAGS[1] == LogDebugAuthHeaders
        && SENSITIVE_FLAGS[2] == LogDebugAuthPayload && SENSITIVE_FLAGS[3] == LogDebugHttpBody
        && SENSITIVE_FLAGS[4] == LogDebugHttpHeaders;
  }
}

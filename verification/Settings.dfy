/** Loading the settings: derived defaults, normalised fields, the Git configuration and the
    checks that production has to pass. */
module Settings {
  import opened Wrappers
  import opened Text

  // ----- trimming -----

  function TrimLeft(s: string): string {
    if s != "" && IsSpace(s[0]) then TrimLeft(s[1..]) else s
  }

  function TrimRight(s: string): string {
    if s != "" && IsSpace(s[|s| - 1]) then TrimRight(s[..|s| - 1]) else s
  }

  /** `s.strip()` */
  function Strip(s: string): string { TrimRight(TrimLeft(s)) }

  predicate Trimmed(s: string) {
    s != "" ==> !IsSpace(s[0]) && !IsSpace(s[|s| - 1])
  }

  // ----- the input -----

  /** The text fields that take part. */
  datatype Name =
    | ENVIRONMENT | BASE_DOMAIN | CORS_ORIGINS
    | GIT_PROVIDER | GIT_DEFAULT_BRANCH
    | GITHUB_TOKEN | GITHUB_ORG | GITHUB_CATALOG_REPO | GITHUB_WEBHOOK_SECRET
    | GITLAB_URL | GITLAB_TOKEN | GITLAB_PROJECT_ID | GITLAB_WEBHOOK_SECRET
    | KEYCLOAK_URL | GATEWAY_URL | GATEWAY_ADMIN_PROXY_URL | ARGOCD_URL | ARGOCD_EXTERNAL_URL
    | GRAFANA_URL | PROMETHEUS_URL | LOGS_URL | VAULT_ADDR

  /** The boolean fields: five that log credentials, and the one that disables authentication. */
  datatype Flag = LogDebugAuthTokens | LogDebugAuthHeaders | LogDebugAuthPayload | LogDebugHttpBody | LogDebugHttpHeaders
                | StoaDisableAuth

  /** What the sources of settings deliver, by field name. The flags have been read as booleans. */
  datatype Input = Input(text: map<Name, string>, flags: map<Flag, bool>)

  function Field(input: Input, name: Name, default: string): string {
    if name in input.text then input.text[name] else default
  }

  predicate IsOn(flags: map<Flag, bool>, flag: Flag) {
    flag in flags && flags[flag]
  }

  const SENSITIVE_FLAGS := [LogDebugAuthTokens, LogDebugAuthHeaders, LogDebugAuthPayload, LogDebugHttpBody, LogDebugHttpHeaders]

  // ----- derived defaults -----

  datatype Default = Default(name: Name, value: string)

  /** The fields that follow from the base domain. */
  const DERIVED := [KEYCLOAK_URL, GATEWAY_URL, GATEWAY_ADMIN_PROXY_URL, ARGOCD_URL, ARGOCD_EXTERNAL_URL,
                    GRAFANA_URL, PROMETHEUS_URL, LOGS_URL, VAULT_ADDR, CORS_ORIGINS]

  function DerivedValue(name: Name, base: string): string {
    match name
    case KEYCLOAK_URL => "https://auth." + base
    case GATEWAY_URL => "https://vps-wm." + base
    case GATEWAY_ADMIN_PROXY_URL => "https://apis." + (base + "/gateway/Gateway-Admin-API/1.0")
    case ARGOCD_URL => "https://argocd." + base
    case ARGOCD_EXTERNAL_URL => "https://argocd." + base
    case GRAFANA_URL => "https://grafana." + base
    case PROMETHEUS_URL => "https://prometheus." + base
    case LOGS_URL => "https://grafana." + (base + "/explore")
    case VAULT_ADDR => "https://hcvault." + base
    case CORS_ORIGINS => Commas(Origins(base))
    case _ => ""
  }

  function Derived(base: string): (r: seq<Default>)
    ensures |r| == |DERIVED|
    ensures forall i | 0 <= i < |r| :: r[i] == Default(DERIVED[i], DerivedValue(DERIVED[i], base))
  {
    seq(|DERIVED|, i requires 0 <= i < |DERIVED| => Default(DERIVED[i], DerivedValue(DERIVED[i], base)))
  }

  function PublicOrigins(base: string): seq<string> {
    [ "https://console." + base, "https://portal." + base,
      "https://staging-console." + base, "https://staging-portal." + base,
      "https://dev-console." + base, "https://dev-portal." + base ]
  }

  const DEVELOPMENT_ORIGINS := [
    "http://localhost:3000", "http://localhost:3002", "http://localhost:5173",
    "http://console.stoa.local", "http://portal.stoa.local", "http://api.stoa.local"]

  function Origins(base: string): seq<string> { PublicOrigins(base) + DEVELOPMENT_ORIGINS }

  /** `",".join(items)` */
  function Commas(items: seq<string>): string {
    if items == [] then ""
    else if |items| == 1 then items[0]
    else items[0] + ("," + Commas(items[1..]))
  }

  /** `data.get("BASE_DOMAIN") or "gostoa.dev"` */
  function BaseOf(data: map<Name, string>): string {
    if BASE_DOMAIN in data && |data[BASE_DOMAIN]| > 0 then data[BASE_DOMAIN] else "gostoa.dev"
  }

  function SetDefaults(data: map<Name, string>, defaults: seq<Default>): map<Name, string>
    decreases defaults
  {
    if defaults == [] then data
    else
      var first := defaults[0];
      SetDefaults(if first.name in data then data else data[first.name := first.value], defaults[1..])
  }

  method DeriveUrls(input: map<Name, string>) returns (data: map<Name, string>)
    ensures data == SetDefaults(input, Derived(BaseOf(input)))
  {
    var derived := Derived(BaseOf(input));
    data := input;
    for k := 0 to |derived|
      invariant SetDefaults(data, derived[k..]) == SetDefaults(input, derived)
    {
      assert derived[k..][1..] == derived[k + 1..];
      if derived[k].name !in data {
        data := data[derived[k].name := derived[k].value];
      }
    }
  }

  // ----- fields -----

  datatype Provider = GitHub | GitLab

  datatype GitHubConfig = GitHubConfig(token: string, org: string, catalogRepo: string, webhookSecret: string)

  datatype GitLabConfig = GitLabConfig(url: string, token: string, projectId: string, webhookSecret: string)

  datatype GitConfig = GitConfig(provider: Provider, github: GitHubConfig, gitlab: GitLabConfig, defaultBranch: string)

  datatype FieldError = UnknownEnvironment | EmptyBaseDomain | UnknownProvider

  datatype Offender = TokenMissing | OrgMissing | RepoMissing | ProjectMissing | BadUrl

  datatype Error =
    | BadFields(errors: seq<FieldError>)
    | GitIncoherent(offenders: seq<Offender>)
    | DebugFlags(flags: seq<Flag>)
    | AuthBypassed

  /** The Git fields are still as they came. */
  datatype Fields = Fields(environment: Environment, baseDomain: string, corsOrigins: string, git: GitConfig,
                           flags: map<Flag, bool>)

  datatype Environment = Dev | Staging | Test | Production

  function EnvironmentName(environment: Environment): string {
    match environment
    case Dev => "dev"
    case Staging => "staging"
    case Test => "test"
    case Production => "production"
  }

  /** The table of accepted spellings. */
  function Alias(key: string): Option<Environment> {
    if key == "dev" || key == "development" then Some(Dev)
    else if key == "staging" then Some(Staging)
    else if key == "test" then Some(Test)
    else if key == "prod" || key == "production" then Some(Production)
    else None
  }

  function NormalizeEnvironment(value: string): Result<Environment, FieldError> {
    var alias := Alias(Lower(Strip(value)));
    if alias.Some? then Ok(alias.value) else Err(UnknownEnvironment)
  }

  function NormalizeProvider(value: string): Result<Provider, FieldError> {
    var key := Lower(Strip(value));
    if key == "github" then Ok(GitHub)
    else if key == "gitlab" then Ok(GitLab)
    else Err(UnknownProvider)
  }

  function CheckBaseDomain(value: string): Result<string, FieldError> {
    if Strip(value) == "" then Err(EmptyBaseDomain) else Ok(value)
  }

  function Errors(environment: Result<Environment, FieldError>, domain: Result<string, FieldError>,
                  provider: Result<Provider, FieldError>): seq<FieldError> {
    (if environment.Err? then [environment.error] else [])
    + ((if domain.Err? then [domain.error] else []) + (if provider.Err? then [provider.error] else []))
  }

  /** The stage of the single fields, defaults included, over the input with derived defaults. */
  function ReadFields(input: Input): Result<Fields, Error> {
    var environment := NormalizeEnvironment(Field(input, ENVIRONMENT, "production"));
    var domain := CheckBaseDomain(Field(input, BASE_DOMAIN, "gostoa.dev"));
    var provider := NormalizeProvider(Field(input, GIT_PROVIDER, "github"));
    if environment.Err? || domain.Err? || provider.Err? then Err(BadFields(Errors(environment, domain, provider)))
    else Ok(Fields(environment.value, domain.value, Field(input, CORS_ORIGINS, ""), RawGit(input, provider.value), input.flags))
  }

  function RawGitHub(input: Input): GitHubConfig {
    GitHubConfig(Field(input, GITHUB_TOKEN, ""), Field(input, GITHUB_ORG, "stoa-platform"),
                 Field(input, GITHUB_CATALOG_REPO, "stoa-catalog"), Field(input, GITHUB_WEBHOOK_SECRET, ""))
  }

  function RawGitLab(input: Input): GitLabConfig {
    GitLabConfig(Field(input, GITLAB_URL, "https://gitlab.com"), Field(input, GITLAB_TOKEN, ""),
                 Field(input, GITLAB_PROJECT_ID, ""), Field(input, GITLAB_WEBHOOK_SECRET, ""))
  }

  function RawGit(input: Input, provider: Provider): GitConfig {
    GitConfig(provider, RawGitHub(input), RawGitLab(input), Field(input, GIT_DEFAULT_BRANCH, "main"))
  }

  // ----- the Git configuration -----

  function Hydrated(raw: GitConfig): GitConfig {
    GitConfig(
      raw.provider,
      GitHubConfig(Strip(raw.github.token), Strip(raw.github.org), Strip(raw.github.catalogRepo),
                   Strip(raw.github.webhookSecret)),
      GitLabConfig(Strip(raw.gitlab.url), Strip(raw.gitlab.token), Strip(raw.gitlab.projectId),
                   Strip(raw.gitlab.webhookSecret)),
      Strip(raw.defaultBranch))
  }

  function When(condition: bool, offender: Offender): seq<Offender> { if condition then [offender] else [] }

  /** What is missing for the selected provider, given which URLs are valid http URLs. */
  function Offenders(git: GitConfig, validUrl: string -> bool): seq<Offender> {
    match git.provider
    case GitHub =>
      When(|git.github.token| == 0, TokenMissing)
      + (When(|git.github.org| == 0, OrgMissing) + When(|git.github.catalogRepo| == 0, RepoMissing))
    case GitLab =>
      When(|git.gitlab.token| == 0, TokenMissing)
      + (When(|git.gitlab.projectId| == 0, ProjectMissing) + When(!validUrl(git.gitlab.url), BadUrl))
  }

  /** The project id of the selected provider. */
  function CatalogProjectId(git: GitConfig): string {
    match git.provider
    case GitHub => git.github.org + ("/" + git.github.catalogRepo)
    case GitLab => git.gitlab.projectId
  }

  // ----- loading -----

  function FlagsOn(flags: map<Flag, bool>, among: seq<Flag>): seq<Flag> {
    if among == [] then []
    else (if IsOn(flags, among[0]) then [among[0]] else []) + FlagsOn(flags, among[1..])
  }

  datatype Loaded = Loaded(fields: Fields, git: GitConfig)

  /** The settings, or the first error. */
  function Load(input: Input, validUrl: string -> bool): Result<Loaded, Error> {
    var data := input.(text := SetDefaults(input.text, Derived(BaseOf(input.text))));
    var fields :- ReadFields(data);
    var git, production := Hydrated(fields.git), fields.environment == Production;
    if production && Offenders(git, validUrl) != [] then Err(GitIncoherent(Offenders(git, validUrl)))
    else if production && FlagsOn(fields.flags, SENSITIVE_FLAGS) != [] then
      Err(DebugFlags(FlagsOn(fields.flags, SENSITIVE_FLAGS)))
    else if production && IsOn(fields.flags, StoaDisableAuth) then Err(AuthBypassed)
    else Ok(Loaded(fields, git))
  }

  method FindOffenders(git: GitConfig, validUrl: string -> bool) returns (offenders: seq<Offender>)
    ensures offenders == Offenders(git, validUrl)
  {
    offenders := [];
    if git.provider == GitHub {
      if |git.github.token| == 0 {
        offenders := offenders + [TokenMissing];
      }
      if |git.github.org| == 0 {
        offenders := offenders + [OrgMissing];
      }
      if |git.github.catalogRepo| == 0 {
        offenders := offenders + [RepoMissing];
      }
    } else {
      if |git.gitlab.token| == 0 {
        offenders := offenders + [TokenMissing];
      }
      if |git.gitlab.projectId| == 0 {
        offenders := offenders + [ProjectMissing];
      }
      if !validUrl(git.gitlab.url) {
        offenders := offenders + [BadUrl];
      }
    }
  }

  method FindFlags(flags: map<Flag, bool>, among: seq<Flag>) returns (on: seq<Flag>)
    ensures on == FlagsOn(flags, among)
  {
    on := [];
    for k := 0 to |among|
      invariant on + FlagsOn(flags, among[k..]) == FlagsOn(flags, among)
    {
      assert among[k..][1..] == among[k + 1..];
      if IsOn(flags, among[k]) {
        on := on + [among[k]];
      }
    }
  }

  /** The settings object, whose Git configuration the validators fill in. */
  class SettingsObject {
    const fields: Fields
    var git: GitConfig

    constructor (fields: Fields)
      ensures this.fields == fields
    {
      this.fields := fields;
      git := GitConfig(GitHub, GitHubConfig("", "stoa-platform", "stoa-catalog", ""),
                       GitLabConfig("https://gitlab.com", "", "", ""), "main");
    }

    method HydrateAndValidateGit(validUrl: string -> bool) returns (r: Result<(), Error>)
      modifies this`git
      ensures git == Hydrated(fields.git)
      ensures r == if fields.environment == Production && Offenders(git, validUrl) != []
                   then Err(GitIncoherent(Offenders(git, validUrl))) else Ok(())
    {
      git := Hydrated(fields.git);
      var offenders := FindOffenders(git, validUrl);
      if offenders == [] {
        return Ok(());
      }
      if fields.environment == Production {
        return Err(GitIncoherent(offenders));
      }
      return Ok(());
    }

    method GateSensitiveFlags() returns (r: Result<(), Error>)
      ensures r == if fields.environment == Production && FlagsOn(fields.flags, SENSITIVE_FLAGS) != []
                   then Err(DebugFlags(FlagsOn(fields.flags, SENSITIVE_FLAGS))) else Ok(())
    {
      var offenders := FindFlags(fields.flags, SENSITIVE_FLAGS);
      if offenders == [] {
        return Ok(());
      }
      if fields.environment == Production {
        return Err(DebugFlags(offenders));
      }
      return Ok(());
    }

    method GateAuthBypass() returns (r: Result<(), Error>)
      ensures r == if fields.environment == Production && IsOn(fields.flags, StoaDisableAuth) then Err(AuthBypassed) else Ok(())
    {
      if fields.environment == Production && IsOn(fields.flags, StoaDisableAuth) {
        return Err(AuthBypassed);
      }
      return Ok(());
    }
  }

  /** `Settings()` */
  method Create(input: Input, validUrl: string -> bool) returns (r: Result<SettingsObject, Error>)
    ensures r.Ok? <==> Load(input, validUrl).Ok?
    ensures r.Ok? ==> fresh(r.value) && Loaded(r.value.fields, r.value.git) == Load(input, validUrl).value
    ensures r.Err? ==> r.error == Load(input, validUrl).error
  {
    var text := DeriveUrls(input.text);
    var fields := ReadFields(input.(text := text));
    if fields.Err? {
      return Err(fields.error);
    }
    var settings := new SettingsObject(fields.value);
    var git := settings.HydrateAndValidateGit(validUrl);
    if git.Err? {
      return Err(git.error);
    }
    var flags := settings.GateSensitiveFlags();
    if flags.Err? {
      return Err(flags.error);
    }
    var bypass := settings.GateAuthBypass();
    if bypass.Err? {
      return Err(bypass.error);
    }
    return Ok(settings);
  }

  // ----- the list of CORS origins -----

  /** `s.split(",")` */
  function SplitCommas(s: string): (parts: seq<string>)
    ensures |parts| > 0
  {
    if s == "" then [""]
    else
      var rest := SplitCommas(s[1..]);
      if s[0] == ',' then [""] + rest else [[s[0]] + rest[0]] + rest[1..]
  }

  function StripParts(parts: seq<string>): seq<string> {
    if parts == [] then []
    else (if |Strip(parts[0])| > 0 then [Strip(parts[0])] else []) + StripParts(parts[1..])
  }

  predicate Allowed(origin: string) {
    !Contains(origin, "localhost") && !Contains(origin, ".stoa.local")
  }

  function OnlyAllowed(origins: seq<string>): seq<string> {
    if origins == [] then [] else (if Allowed(origins[0]) then [origins[0]] else []) + OnlyAllowed(origins[1..])
  }

  /** `cors_origins_list` */
  function CorsOrigins(fields: Fields): seq<string> {
    var all := StripParts(SplitCommas(fields.corsOrigins));
    if fields.environment == Production then OnlyAllowed(all) else all
  }
}

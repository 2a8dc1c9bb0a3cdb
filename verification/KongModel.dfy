/** Kong's declarative configuration, the STOA resources, the report, and how one object
    of the configuration is mapped. */
module KongModel {
  import opened Wrappers
  import opened Text
  import opened Dicts
  import opened Slug
  import Json

  // ----- configuration; an absent key is None -----

  datatype Plugin = Plugin(name: Option<string>, config: seq<Item<Json.Json>>)

  datatype Route = Route(name: Option<string>, paths: Option<seq<string>>, methods: Option<seq<string>>)

  datatype Target = Target(target: Option<string>, weight: Option<int>)

  datatype Health = Health(path: string, interval: Option<int>)

  datatype Upstream = Upstream(name: Option<string>, targets: Option<seq<Target>>, algorithm: Option<string>,
                               health: Option<Health>, hasOtherKeys: bool)

  datatype Service = Service(name: Option<string>, url: Option<string>, protocol: Option<string>, host: Option<string>,
                             port: Option<int>, path: Option<string>, routes: seq<Route>, plugins: seq<Plugin>, tags: seq<string>)

  datatype Consumer = Consumer(username: Option<string>, customId: Option<string>, tags: seq<string>,
                               plugins: seq<Plugin>, keys: nat)

  datatype Kong = Kong(services: seq<Service>, upstreams: seq<Upstream>, consumers: seq<Consumer>, plugins: seq<Plugin>)

  // ----- resources -----

  datatype Resource = Resource(path: string, methods: seq<string>, description: Option<string>)

  datatype Endpoint = Endpoint(url: string, weight: Option<int>)

  datatype Backend = Backend(algorithm: string, targets: seq<Endpoint>, healthCheck: Option<(string, int)>)

  datatype Api = Api(id: string, backendUrl: string, tags: seq<string>, resources: seq<Resource>,
                     policies: seq<string>, keyRequired: bool, backend: Option<Backend>)

  datatype Policy = Policy(name: string, kind: string, config: seq<Item<Json.Json>>)

  datatype Tenant = Tenant(id: string, tags: seq<string>, rateLimit: Option<seq<Item<Json.Json>>>)

  datatype Application = Application(id: string, tags: seq<string>)

  // ----- the report -----

  datatype Event =
    | ServiceMigrated(service: string, api: string)
    | RouteMigrated(route: string, api: string)
    | AuthPlugin(plugin: string, context: string)
    | PolicyPlugin(plugin: string, context: string, policy: string)
    | NoEquivalent(plugin: string, context: string, config: seq<Item<Json.Json>>)
    | ObservabilityPlugin(plugin: string)
    | LoggingPlugin(plugin: string)
    | UnknownPlugin(plugin: string, context: string)
    | UpstreamMigrated(upstream: string)
    | ApplicationMigrated(username: string, application: string)
    | ConsumerRateLimit(username: string)
    | TenantMigrated(username: string, tenant: string)
    | ReissueKeys(username: string)
    | GlobalObservability(plugin: string)
    | GlobalLogging(plugin: string)
    | GlobalReview(plugin: string)

  /** The lists of the report. */
  datatype Section = MIGRATED | WARNINGS | SKIPPED | MANUAL

  datatype Entry = Entry(section: Section, event: Event)

  function Migrated(e: Event): Entry { Entry(MIGRATED, e) }

  function Warning(e: Event): Entry { Entry(WARNINGS, e) }

  function Skipped(e: Event): Entry { Entry(SKIPPED, e) }

  function Manual(e: Event): Entry { Entry(MANUAL, e) }

  /** The entries of one list, in order. */
  function Pick(entries: seq<Entry>, section: Section): seq<Event> {
    if entries == [] then []
    else
      var last := entries[|entries| - 1];
      Pick(entries[..|entries| - 1], section) + if last.section == section then [last.event] else []
  }

  // ----- plugins -----

  const AUTH_PLUGINS := {"key-auth", "oauth2", "jwt", "basic-auth", "hmac-auth"}

  const UNSUPPORTED_PLUGINS := {
    "request-transformer", "response-transformer", "request-termination", "ip-restriction", "acl",
    "bot-detection", "ldap-auth", "session", "proxy-cache", "grpc-gateway", "grpc-web", "aws-lambda",
    "azure-functions", "opentelemetry", "zipkin"}

  const RATE_LIMITERS := {"rate-limiting", "rate-limiting-advanced"}

  const OBSERVABILITY := {"prometheus", "datadog", "statsd"}

  const LOGGING := {"file-log", "tcp-log", "http-log", "syslog", "udp-log"}

  /** `_map_rate_limit_plugin` */
  function RateLimit(config: seq<Item<Json.Json>>): seq<Item<Json.Json>> {
    [Item("by", Json.String("token"))]
    + if Get(config, "minute").Some? then Limited(Get(config, "minute").value, 60)
      else if Get(config, "hour").Some? then Limited(Get(config, "hour").value, 3600)
      else if Get(config, "second").Some? then Limited(Get(config, "second").value, 1)
      else []
  }

  function Limited(requests: Json.Json, seconds: int): seq<Item<Json.Json>> {
    [Item("requests", requests), Item("window", Json.Int(seconds))]
  }

  function Texts(ss: seq<string>): Json.Json {
    Json.Array(seq(|ss|, i requires 0 <= i < |ss| => Json.String(ss[i])))
  }

  /** `_map_cors_plugin` */
  function Cors(config: seq<Item<Json.Json>>): seq<Item<Json.Json>> {
    [Item("allowOrigins", Get(config, "origins").GetOr(Texts(["*"]))),
     Item("allowMethods", Get(config, "methods").GetOr(Texts(["GET", "POST", "PUT", "DELETE", "OPTIONS"]))),
     Item("allowHeaders", Get(config, "headers").GetOr(Texts(["Authorization", "Content-Type"]))),
     Item("maxAge", Get(config, "max_age").GetOr(Json.Int(3600)))]
  }

  /** The policy type of a plugin that maps cleanly. */
  function PolicyKind(name: string): Option<string> {
    if name in RATE_LIMITERS then Some("rate-limit") else if name == "cors" then Some("cors") else None
  }

  function PolicyOf(p: Plugin, context: string, kind: string): Policy {
    Policy(Slugify(context + "-" + kind), kind, if kind == "cors" then Cors(p.config) else RateLimit(p.config))
  }

  predicate IsAuth(p: Plugin) {
    p.name.GetOr("") in AUTH_PLUGINS
  }

  /** The policies that one plugin of a service becomes: none or one. */
  function PluginPolicies(p: Plugin, context: string): seq<Policy> {
    var kind := PolicyKind(p.name.GetOr(""));
    if IsAuth(p) || kind == None then [] else [PolicyOf(p, context, kind.value)]
  }

  /** What the report says of one plugin of a service. */
  function PluginEntry(p: Plugin, context: string): Entry {
    var name := p.name.GetOr("");
    if name in AUTH_PLUGINS then Migrated(AuthPlugin(name, context))
    else if PolicyKind(name).Some? then
      Migrated(PolicyPlugin(name, context, PolicyOf(p, context, PolicyKind(name).value).name))
    else if name in UNSUPPORTED_PLUGINS then Manual(NoEquivalent(name, context, p.config))
    else if name in OBSERVABILITY then Skipped(ObservabilityPlugin(name))
    else if name in LOGGING then Skipped(LoggingPlugin(name))
    else Warning(UnknownPlugin(name, context))
  }

  function AllPluginPolicies(ps: seq<Plugin>, context: string): seq<Policy> {
    if ps == [] then [] else PluginPolicies(ps[0], context) + AllPluginPolicies(ps[1..], context)
  }

  function PluginEntries(ps: seq<Plugin>, context: string): seq<Entry> {
    if ps == [] then [] else [PluginEntry(ps[0], context)] + PluginEntries(ps[1..], context)
  }

  // ----- upstreams -----

  /** A dictionary with no key is false in Python. */
  predicate Truthy(u: Upstream) {
    u.name.Some? || u.targets.Some? || u.algorithm.Some? || u.health.Some? || u.hasOtherKeys
  }

  type Index = seq<Item<Upstream>>

  /** The upstreams by name; a later one replaces an earlier one in place. */
  function Indexed(index: Index, upstreams: seq<Upstream>): Index
    decreases upstreams
  {
    if upstreams == [] then index
    else Indexed(Put(index, upstreams[0].name.GetOr(""), upstreams[0]), upstreams[1..])
  }

  function FirstRelated(index: Index, service: string): Option<Upstream> {
    if index == [] then None
    else if Contains(index[0].key, service) || Contains(service, index[0].key) then Some(index[0].value)
    else FirstRelated(index[1..], service)
  }

  /** The upstream of a service: by host, or else the first one whose name is related. */
  function Resolved(svc: Service, index: Index): Option<Upstream> {
    var byHost := Get(index, svc.host.GetOr(""));
    if byHost.Some? && Truthy(byHost.value) then byHost
    else
      var related := FirstRelated(index, svc.name.GetOr(""));
      if related.Some? && Truthy(related.value) then related else None
  }

  function Endpoints(targets: seq<Target>): (r: seq<Endpoint>)
    ensures |r| == |targets|
  {
    if targets == [] then []
    else [Endpoint(targets[0].target.GetOr(""), targets[0].weight)] + Endpoints(targets[1..])
  }

  function BackendOf(u: Upstream): Backend {
    Backend(u.algorithm.GetOr("round-robin"), Endpoints(u.targets.GetOr([])),
            if u.health.Some? && u.health.value.path != ""
            then Some((u.health.value.path, u.health.value.interval.GetOr(30))) else None)
  }

  // ----- services -----

  function ServiceName(svc: Service): string {
    svc.name.GetOr("unnamed-service")
  }

  function BackendUrl(svc: Service): string {
    if svc.url.GetOr("") != "" then svc.url.value
    else svc.protocol.GetOr("https") + "://" + svc.host.GetOr("localhost") + ":" + Json.IntText(svc.port.GetOr(443))
         + svc.path.GetOr("")
  }

  function RoutePaths(r: Route): seq<string> {
    r.paths.GetOr(["/"])
  }

  function RouteMethods(r: Route): seq<string> {
    if r.methods.GetOr([]) != [] then r.methods.value else ["GET", "POST", "PUT", "DELETE"]
  }

  function ResourceOf(r: Route, path: string): Resource {
    Resource(if EndsWith(path, "*") then path else path + "/*", RouteMethods(r),
             if r.name.GetOr("") != "" then r.name else None)
  }

  function ResourcesOf(r: Route, paths: seq<string>): seq<Resource> {
    if paths == [] then [] else [ResourceOf(r, paths[0])] + ResourcesOf(r, paths[1..])
  }

  function AllResources(rs: seq<Route>): seq<Resource> {
    if rs == [] then [] else ResourcesOf(rs[0], RoutePaths(rs[0])) + AllResources(rs[1..])
  }

  function PolicyNames(ps: seq<Policy>): (r: seq<string>)
    ensures |r| == |ps|
    ensures forall i | 0 <= i < |r| :: r[i] == ps[i].name
  {
    if ps == [] then [] else [ps[0].name] + PolicyNames(ps[1..])
  }

  function ServicePolicies(svc: Service): seq<Policy> {
    AllPluginPolicies(svc.plugins, ServiceName(svc))
  }

  predicate AnyAuth(ps: seq<Plugin>) {
    exists p | p in ps :: IsAuth(p)
  }

  function ApiOf(svc: Service, index: Index): Api {
    var upstream := Resolved(svc, index);
    Api(Slugify(ServiceName(svc)), BackendUrl(svc), svc.tags, AllResources(svc.routes), PolicyNames(ServicePolicies(svc)),
        AnyAuth(svc.plugins), if upstream.Some? then Some(BackendOf(upstream.value)) else None)
  }

  function UpstreamEntries(svc: Service, index: Index): seq<Entry> {
    var upstream := Resolved(svc, index);
    if upstream.Some? then [Migrated(UpstreamMigrated(upstream.value.name.GetOr("unnamed")))] else []
  }

  function RouteEntries(rs: seq<Route>, api: string): seq<Entry> {
    if rs == [] then []
    else [Migrated(RouteMigrated(rs[0].name.GetOr("unnamed-route"), api))] + RouteEntries(rs[1..], api)
  }

  /** One service leaves its upstream, its plugins, itself and its routes, in this order. */
  function ServiceEntries(svc: Service, index: Index): seq<Entry> {
    var name, api := ServiceName(svc), Slugify(ServiceName(svc));
    UpstreamEntries(svc, index)
    + (PluginEntries(svc.plugins, name) + ([Migrated(ServiceMigrated(name, api))] + RouteEntries(svc.routes, api)))
  }

  // ----- consumers -----

  function Username(c: Consumer): string {
    c.username.GetOr("unnamed")
  }

  predicate IsServiceAccount(c: Consumer) {
    "service-account" in c.tags || "svc-" <= c.customId.GetOr("")
  }

  predicate IsRateLimiter(p: Plugin) {
    p.name.Some? && p.name.value in RATE_LIMITERS
  }

  /** The settings of the last rate-limit plugin. */
  function TenantLimit(ps: seq<Plugin>): Option<seq<Item<Json.Json>>> {
    if ps == [] then None
    else
      var last := ps[|ps| - 1];
      if IsRateLimiter(last) then Some(RateLimit(last.config)) else TenantLimit(ps[..|ps| - 1])
  }

  function TenantId(c: Consumer): string {
    Slugify(if c.customId.GetOr("") != "" then c.customId.value else Username(c))
  }

  function ApplicationOf(c: Consumer): Application {
    Application(Slugify(Username(c)), c.tags)
  }

  function TenantOf(c: Consumer): Tenant {
    Tenant(TenantId(c), c.tags, TenantLimit(c.plugins))
  }

  function LimitEntries(ps: seq<Plugin>, username: string): seq<Entry> {
    if ps == [] then []
    else (if IsRateLimiter(ps[0]) then [Migrated(ConsumerRateLimit(username))] else []) + LimitEntries(ps[1..], username)
  }

  function ConsumerEntries(c: Consumer): seq<Entry> {
    var name := Username(c);
    if IsServiceAccount(c) then [Migrated(ApplicationMigrated(name, ApplicationOf(c).id))]
    else LimitEntries(c.plugins, name)
         + ([Migrated(TenantMigrated(name, TenantId(c)))] + if c.keys > 0 then [Manual(ReissueKeys(name))] else [])
  }

  function GlobalEntry(p: Plugin): Entry {
    var name := p.name.GetOr("");
    if name in OBSERVABILITY then Skipped(GlobalObservability(name))
    else if name in LOGGING then Skipped(GlobalLogging(name))
    else Warning(GlobalReview(name))
  }

  // ----- everything -----

  function IndexOf(kong: Kong): Index {
    Indexed([], kong.upstreams)
  }

  function ApisOf(svcs: seq<Service>, index: Index): (r: seq<Api>)
    ensures |r| == |svcs|
  {
    if svcs == [] then [] else [ApiOf(svcs[0], index)] + ApisOf(svcs[1..], index)
  }

  function PoliciesOf(svcs: seq<Service>): seq<Policy> {
    if svcs == [] then [] else ServicePolicies(svcs[0]) + PoliciesOf(svcs[1..])
  }

  function AllServiceEntries(svcs: seq<Service>, index: Index): seq<Entry> {
    if svcs == [] then [] else ServiceEntries(svcs[0], index) + AllServiceEntries(svcs[1..], index)
  }

  function TenantsOf(cs: seq<Consumer>): seq<Tenant> {
    if cs == [] then [] else (if IsServiceAccount(cs[0]) then [] else [TenantOf(cs[0])]) + TenantsOf(cs[1..])
  }

  function ApplicationsOf(cs: seq<Consumer>): seq<Application> {
    if cs == [] then [] else (if IsServiceAccount(cs[0]) then [ApplicationOf(cs[0])] else []) + ApplicationsOf(cs[1..])
  }

  function AllConsumerEntries(cs: seq<Consumer>): seq<Entry> {
    if cs == [] then [] else ConsumerEntries(cs[0]) + AllConsumerEntries(cs[1..])
  }

  function GlobalEntries(ps: seq<Plugin>): seq<Entry> {
    if ps == [] then [] else [GlobalEntry(ps[0])] + GlobalEntries(ps[1..])
  }
}

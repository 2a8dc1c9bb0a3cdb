/** What the migrated resources and the entries of the report contain. */
module KongContents {
  import opened Wrappers
  import opened Text
  import opened Dicts
  import opened Slug
  import opened KongModel
  import opened KongLimits
  import opened KongPolicies
  import opened KongConservation
  import Json

  // ----- policies -----

  /** The policy limits what the plugin limits, by token, as far as one limit can. */
  ghost predicate KeepsLimits(config: seq<Item<Json.Json>>, limit: seq<Item<Json.Json>>) {
    && Get(limit, "by") == Some(Json.String("token"))
    && Imposed(limit) <= Demanded(config)
    && (Imposed(limit) == Demanded(config) <==>
        |Demanded(config)| == 0
        || (|Demanded(config)| == 1 && exists period :: InSight(config, period) && IsSet(config, PeriodName(period))))
    && forall period | InSight(config, period) && IsSet(config, PeriodName(period)) ::
         Imposed(limit) == {PeriodLimit(config, period)}
  }

  /** The entry of the policy is the plugin's, or this default. */
  predicate Copied(config: seq<Item<Json.Json>>, key: string, policy: seq<Item<Json.Json>>, policyKey: string, default: Json.Json) {
    Get(policy, policyKey) == Some(if key in Keys(config) then Get(config, key).GetOr(Json.Null) else default)
  }

  /** The policy allows the origins, methods and headers that the plugin allows, for as long. */
  predicate KeepsCors(config: seq<Item<Json.Json>>, cors: seq<Item<Json.Json>>) {
    && |cors| == 4
    && Copied(config, "origins", cors, "allowOrigins", Json.Array([Json.String("*")]))
    && Copied(config, "methods", cors, "allowMethods",
              Json.Array([Json.String("GET"), Json.String("POST"), Json.String("PUT"), Json.String("DELETE"), Json.String("OPTIONS")]))
    && Copied(config, "headers", cors, "allowHeaders", Json.Array([Json.String("Authorization"), Json.String("Content-Type")]))
    && Copied(config, "max_age", cors, "maxAge", Json.Int(3600))
  }

  /** The plugins that become policies. */
  predicate IsMapped(p: Plugin) {
    p.name == Some("rate-limiting") || p.name == Some("rate-limiting-advanced") || p.name == Some("cors")
  }

  /** The policy is the translation of this plugin of this service. */
  ghost predicate Translates(policy: Policy, svc: Service, p: Plugin) {
    && policy.name == NameFor(Slugify(svc.name.GetOr("unnamed-service")), policy.kind)
    && if p.name == Some("cors") then policy.kind == "cors" && KeepsCors(p.config, policy.config)
       else policy.kind == "rate-limit" && KeepsLimits(p.config, policy.config)
  }

  lemma CorsKeys()
    ensures var keys := ["allowOrigins", "allowMethods", "allowHeaders", "maxAge"];
      forall i, j | 0 <= i < j < 4 :: keys[i] != keys[j]
  {
    assert "allowOrigins"[5] == 'O' && "allowMethods"[5] == 'M' && "allowHeaders"[5] == 'H' && "maxAge"[0] == 'm';
  }

  lemma DefaultTexts()
    ensures Texts(["*"]) == Json.Array([Json.String("*")])
    ensures Texts(["GET", "POST", "PUT", "DELETE", "OPTIONS"])
         == Json.Array([Json.String("GET"), Json.String("POST"), Json.String("PUT"), Json.String("DELETE"), Json.String("OPTIONS")])
    ensures Texts(["Authorization", "Content-Type"]) == Json.Array([Json.String("Authorization"), Json.String("Content-Type")])
  {
  }

  lemma CorsIsKept(config: seq<Item<Json.Json>>)
    ensures KeepsCors(config, Cors(config))
  {
    var cors := Cors(config);
    CorsKeys();
    DefaultTexts();
    assert Distinct(cors);
    GetMember(cors, 0);
    GetMember(cors, 1);
    GetMember(cors, 2);
    GetMember(cors, 3);
  }

  lemma LimitIsKept(config: seq<Item<Json.Json>>)
    ensures KeepsLimits(config, RateLimit(config))
  {
    LimitsAreKept(config);
    assert RateLimit(config)[0] == Item("by", Json.String("token"));
    forall period | InSight(config, period) && IsSet(config, PeriodName(period))
      ensures Imposed(RateLimit(config)) == {PeriodLimit(config, period)}
    {
      LimitInSight(config, period);
    }
  }

  lemma KindOf(p: Plugin)
    ensures !IsAuth(p) && PolicyKind(p.name.GetOr("")).Some? <==> IsMapped(p)
    ensures IsMapped(p) ==>
      PolicyKind(p.name.GetOr("")) == Some(MappedKind(p))
  {
    assert "cors"[0] != "rate-limiting"[0] && "cors"[0] != "rate-limiting-advanced"[0];
  }

  lemma PluginTranslates(svc: Service, p: Plugin)
    ensures |PluginPolicies(p, ServiceName(svc))| == if IsMapped(p) then 1 else 0
    ensures forall policy | policy in PluginPolicies(p, ServiceName(svc)) :: Translates(policy, svc, p)
  {
    PoliciesOfPlugin(p, ServiceName(svc));
    if IsMapped(p) {
      PolicyTranslates(svc, p, MappedKind(p));
    }
  }

  function MappedKind(p: Plugin): string { if p.name == Some("cors") then "cors" else "rate-limit" }

  lemma PoliciesOfPlugin(p: Plugin, context: string)
    ensures PluginPolicies(p, context) == if IsMapped(p) then [PolicyOf(p, context, MappedKind(p))] else []
  {
    KindOf(p);
  }

  lemma PolicyTranslates(svc: Service, p: Plugin, kind: string)
    requires kind == MappedKind(p)
    ensures Translates(PolicyOf(p, ServiceName(svc), kind), svc, p)
  {
    PolicyIsNamedAfterItsApi(p, ServiceName(svc), kind);
    CorsIsKept(p.config);
    LimitIsKept(p.config);
  }

  /** The plugins of all services that become policies, each with its service. */
  function MappedPlugins(svc: Service, ps: seq<Plugin>): seq<(Service, Plugin)> {
    if ps == [] then [] else (if IsMapped(ps[0]) then [(svc, ps[0])] else []) + MappedPlugins(svc, ps[1..])
  }

  function AllMapped(svcs: seq<Service>): seq<(Service, Plugin)> {
    if svcs == [] then [] else MappedPlugins(svcs[0], svcs[0].plugins) + AllMapped(svcs[1..])
  }

  ghost predicate AllTranslate(policies: seq<Policy>, mapped: seq<(Service, Plugin)>) {
    && |policies| == |mapped|
    && forall i | 0 <= i < |policies| :: Translates(policies[i], mapped[i].0, mapped[i].1)
  }

  lemma {:induction false} ServiceTranslates(svc: Service, ps: seq<Plugin>)
    ensures AllTranslate(AllPluginPolicies(ps, ServiceName(svc)), MappedPlugins(svc, ps))
  {
    if ps != [] {
      PluginTranslates(svc, ps[0]);
      ServiceTranslates(svc, ps[1..]);
    }
  }

  /** The policies are the translations of the plugins that map, one each and in order: limits
      to limits, and CORS settings to CORS settings with Kong's or the default values. */
  lemma {:induction false} PoliciesTranslate(svcs: seq<Service>)
    ensures AllTranslate(PoliciesOf(svcs), AllMapped(svcs))
  {
    if svcs != [] {
      ServiceTranslates(svcs[0], svcs[0].plugins);
      PoliciesTranslate(svcs[1..]);
    }
  }

  // ----- plugins in the report -----

  predicate Authenticates(name: string) {
    name == "key-auth" || name == "oauth2" || name == "jwt" || name == "basic-auth" || name == "hmac-auth"
  }

  predicate HasNoEquivalent(name: string) {
    || name == "request-transformer" || name == "response-transformer" || name == "request-termination"
    || name == "ip-restriction" || name == "acl" || name == "bot-detection" || name == "ldap-auth" || name == "session"
    || name == "proxy-cache" || name == "grpc-gateway" || name == "grpc-web" || name == "aws-lambda"
    || name == "azure-functions" || name == "opentelemetry" || name == "zipkin"
  }

  predicate Observes(name: string) {
    name == "prometheus" || name == "datadog" || name == "statsd"
  }

  predicate Logs(name: string) {
    name == "file-log" || name == "tcp-log" || name == "http-log" || name == "syslog" || name == "udp-log"
  }

  /** What the report says of a plugin of a service, by its name: that it authenticates, which
      policy it became, that it is left to the operator with its configuration, or why it was
      passed over. */
  lemma PluginInReport(svc: Service, p: Plugin)
    ensures var name, context, entry := p.name.GetOr(""), svc.name.GetOr("unnamed-service"), PluginEntry(p, ServiceName(svc));
      if Authenticates(name) then entry == Entry(MIGRATED, AuthPlugin(name, context))
      else if IsMapped(p) then
        exists policy | policy in PluginPolicies(p, ServiceName(svc)) :: entry == Entry(MIGRATED, PolicyPlugin(name, context, policy.name))
      else if HasNoEquivalent(name) then entry == Entry(MANUAL, NoEquivalent(name, context, p.config))
      else if Observes(name) then entry == Entry(SKIPPED, ObservabilityPlugin(name))
      else if Logs(name) then entry == Entry(SKIPPED, LoggingPlugin(name))
      else entry == Entry(WARNINGS, UnknownPlugin(name, context))
  {
    KindOf(p);
    ClassesOf(p.name.GetOr(""));
    if IsMapped(p) {
      MappedInReport(p, ServiceName(svc));
    }
  }

  lemma ClassesOf(name: string)
    ensures Authenticates(name) <==> name in AUTH_PLUGINS
    ensures HasNoEquivalent(name) <==> name in UNSUPPORTED_PLUGINS
    ensures (Observes(name) <==> name in OBSERVABILITY) && (Logs(name) <==> name in LOGGING)
  {
  }

  lemma MappedInReport(p: Plugin, context: string)
    requires IsMapped(p)
    ensures !Authenticates(p.name.value) && exists policy | policy in PluginPolicies(p, context) ::
      PluginEntry(p, context) == Entry(MIGRATED, PolicyPlugin(p.name.value, context, policy.name))
  {
    KindOf(p);
    PoliciesOfPlugin(p, context);
    var policies := PluginPolicies(p, context);
    assert policies[0] in policies;
  }

  lemma GlobalPluginInReport(p: Plugin)
    ensures var name, entry := p.name.GetOr(""), GlobalEntry(p);
      if Observes(name) then entry == Entry(SKIPPED, GlobalObservability(name))
      else if Logs(name) then entry == Entry(SKIPPED, GlobalLogging(name))
      else entry == Entry(WARNINGS, GlobalReview(name))
  {
  }

  /** A service requires a key if and only if one of its plugins authenticates. */
  lemma KeyRequiredIff(svc: Service, index: Index)
    ensures ApiOf(svc, index).keyRequired <==> exists p | p in svc.plugins :: Authenticates(p.name.GetOr(""))
  {
    assert forall p: Plugin :: IsAuth(p) <==> Authenticates(p.name.GetOr(""));
  }

  // ----- APIs -----

  /** The address of the backend: the given one, or one made of its parts. */
  predicate IsBackendUrl(url: string, svc: Service) {
    if svc.url.Some? && svc.url.value != "" then url == svc.url.value
    else url == svc.protocol.GetOr("https") + ("://" + (svc.host.GetOr("localhost")
                + (":" + (Json.IntText(svc.port.GetOr(443)) + svc.path.GetOr("")))))
  }

  lemma BackendUrlIs(svc: Service)
    ensures IsBackendUrl(BackendUrl(svc), svc)
  {
    if !(svc.url.Some? && svc.url.value != "") {
      Regroup(svc.protocol.GetOr("https"), "://", svc.host.GetOr("localhost"), ":", Json.IntText(svc.port.GetOr(443)),
              svc.path.GetOr(""));
    }
  }

  lemma Regroup(a: string, b: string, c: string, d: string, e: string, f: string)
    ensures a + b + c + d + e + f == a + (b + (c + (d + (e + f))))
  {
  }

  /** The backend of an API has the algorithm, the targets in order with their weights, and the
      health check of the upstream. */
  predicate IsBackend(backend: Backend, u: Upstream) {
    && backend.algorithm == (if u.algorithm.Some? then u.algorithm.value else "round-robin")
    && |backend.targets| == |u.targets.GetOr([])|
    && (forall i | 0 <= i < |backend.targets| ::
          && backend.targets[i].url == u.targets.GetOr([])[i].target.GetOr("")
          && backend.targets[i].weight == u.targets.GetOr([])[i].weight)
    && (backend.healthCheck.Some? <==> u.health.Some? && u.health.value.path != "")
    && (backend.healthCheck.Some? ==>
        backend.healthCheck.value == (u.health.value.path, if u.health.value.interval.Some? then u.health.value.interval.value else 30))
  }

  lemma {:induction false} TargetsAreKept(targets: seq<Target>, i: nat)
    requires i < |targets|
    ensures Endpoints(targets)[i] == Endpoint(targets[i].target.GetOr(""), targets[i].weight)
  {
    if i > 0 {
      TargetsAreKept(targets[1..], i - 1);
    }
  }

  lemma BackendIs(u: Upstream)
    ensures IsBackend(BackendOf(u), u)
  {
    var targets := u.targets.GetOr([]);
    forall i | 0 <= i < |targets| ensures Endpoints(targets)[i] == Endpoint(targets[i].target.GetOr(""), targets[i].weight) {
      TargetsAreKept(targets, i);
    }
  }

  predicate HasContent(u: Upstream) {
    u != Upstream(None, None, None, None, false)
  }

  predicate Related(u: Item<Upstream>, service: string) {
    Contains(u.key, service) || Contains(service, u.key)
  }

  /** The i-th upstream is the first of a related name. */
  predicate IsFirst(index: Index, service: string, i: int) {
    0 <= i < |index| && Related(index[i], service) && forall j | 0 <= j < i :: !Related(index[j], service)
  }

  /** The upstream of a service: the one that its host names, unless it is missing or empty, or
      else the first of a related name, unless that is empty. */
  lemma UpstreamIff(svc: Service, index: Index, u: Upstream)
    ensures Resolved(svc, index) == Some(u) <==>
      && HasContent(u)
      && if Get(index, svc.host.GetOr("")).Some? && HasContent(Get(index, svc.host.GetOr("")).value)
         then Get(index, svc.host.GetOr("")) == Some(u)
         else exists i | IsFirst(index, svc.name.GetOr(""), i) :: index[i].value == u
  {
    assert forall w: Upstream :: Truthy(w) <==> HasContent(w);
    FirstRelatedIff(index, svc.name.GetOr(""), u);
  }

  lemma {:induction false} FirstRelatedIff(index: Index, service: string, u: Upstream)
    ensures FirstRelated(index, service) == Some(u) <==> exists i | IsFirst(index, service, i) :: index[i].value == u
  {
    if index != [] {
      if Related(index[0], service) {
        assert IsFirst(index, service, 0);
      } else {
        FirstRelatedIff(index[1..], service, u);
        if i :| IsFirst(index, service, i) && index[i].value == u {
          assert IsFirst(index[1..], service, i - 1);
        }
        if i :| IsFirst(index[1..], service, i) && index[1..][i].value == u {
          assert IsFirst(index, service, i + 1);
        }
      }
    }
  }

  /** An API is known by the slug of its service, and has its address, its tags and the backend
      of its upstream. */
  lemma ApiIs(svc: Service, index: Index)
    ensures var api := ApiOf(svc, index);
      && api.id == Slugify(svc.name.GetOr("unnamed-service")) && api.tags == svc.tags && IsBackendUrl(api.backendUrl, svc)
      && (api.backend.Some? <==> Resolved(svc, index).Some?)
      && (api.backend.Some? ==> IsBackend(api.backend.value, Resolved(svc, index).value))
  {
    BackendUrlIs(svc);
    if Resolved(svc, index).Some? {
      BackendIs(Resolved(svc, index).value);
    }
  }

  /** A resource has the methods of its route, or the four usual ones, and says which route it
      comes from. */
  lemma ResourceIs(r: Route, path: string)
    ensures var resource := ResourceOf(r, path);
      && resource.methods == (if r.methods.GetOr([]) != [] then r.methods.value else ["GET", "POST", "PUT", "DELETE"])
      && (resource.description == None <==> r.name.GetOr("") == "") && (resource.description.Some? ==> resource.description == r.name)
  {
  }

  // ----- consumers -----

  /** A consumer is a service account by its tag or by how its custom id begins. */
  predicate IsAccount(c: Consumer) {
    "service-account" in c.tags || (c.customId.Some? && "svc-" <= c.customId.value)
  }

  predicate IsApplication(a: Application, c: Consumer) {
    a.id == Slugify(c.username.GetOr("unnamed")) && a.tags == c.tags
  }

  /** A tenant is known by the custom id of the consumer, or else by its user name. */
  predicate IsTenant(t: Tenant, c: Consumer) {
    && t.id == Slugify(if c.customId.Some? && c.customId.value != "" then c.customId.value else c.username.GetOr("unnamed"))
    && t.tags == c.tags
    && t.rateLimit == TenantLimit(c.plugins)
  }

  function Accounts(cs: seq<Consumer>): seq<Consumer> {
    if cs == [] then [] else (if IsAccount(cs[0]) then [cs[0]] else []) + Accounts(cs[1..])
  }

  function Users(cs: seq<Consumer>): seq<Consumer> {
    if cs == [] then [] else (if IsAccount(cs[0]) then [] else [cs[0]]) + Users(cs[1..])
  }

  lemma AccountIff(c: Consumer)
    ensures IsServiceAccount(c) <==> IsAccount(c)
  {
    assert c.customId.None? ==> !("svc-" <= "");
  }

  /** The applications are those of the service accounts and the tenants those of the other
      consumers, in order. */
  lemma {:induction false} ConsumersBecome(cs: seq<Consumer>)
    ensures var applications, tenants := ApplicationsOf(cs), TenantsOf(cs);
      && |applications| == |Accounts(cs)| && |tenants| == |Users(cs)|
      && (forall i | 0 <= i < |applications| :: IsApplication(applications[i], Accounts(cs)[i]))
      && (forall i | 0 <= i < |tenants| :: IsTenant(tenants[i], Users(cs)[i]))
  {
    if cs != [] {
      AccountIff(cs[0]);
      ConsumersBecome(cs[1..]);
    }
  }

  // ----- the report names what there is -----

  /** The names of the resources. */
  datatype Names = Names(apis: set<string>, policies: set<string>, tenants: set<string>, applications: set<string>)

  predicate Within(a: Names, b: Names) {
    a.apis <= b.apis && a.policies <= b.policies && a.tenants <= b.tenants && a.applications <= b.applications
  }

  /** What an entry of the report names is among the resources. */
  predicate NamesAResource(e: Event, names: Names) {
    match e
    case ServiceMigrated(_, api) => api in names.apis
    case RouteMigrated(_, api) => api in names.apis
    case PolicyPlugin(_, _, policy) => policy in names.policies
    case TenantMigrated(_, tenant) => tenant in names.tenants
    case ApplicationMigrated(_, application) => application in names.applications
    case _ => true
  }

  predicate AllNamed(entries: seq<Entry>, names: Names) {
    forall e | e in entries :: NamesAResource(e.event, names)
  }

  lemma MoreNames(entries: seq<Entry>, names: Names, more: Names)
    requires AllNamed(entries, names) && Within(names, more)
    ensures AllNamed(entries, more)
  {
    forall e | e in entries ensures NamesAResource(e.event, more) {
      assert NamesAResource(e.event, names);
    }
  }

  function PolicyNameSet(policies: seq<Policy>): set<string> { set p | p in policies :: p.name }

  function OnlyPolicies(policies: seq<Policy>): Names { Names({}, PolicyNameSet(policies), {}, {}) }

  lemma PluginNamed(p: Plugin, context: string)
    ensures AllNamed([PluginEntry(p, context)], OnlyPolicies(PluginPolicies(p, context)))
  {
    if PluginPolicies(p, context) != [] {
      assert PluginPolicies(p, context)[0] in PluginPolicies(p, context);
    }
  }

  lemma {:induction false} PluginsNamed(ps: seq<Plugin>, context: string)
    ensures AllNamed(PluginEntries(ps, context), OnlyPolicies(AllPluginPolicies(ps, context)))
  {
    if ps != [] {
      var names := OnlyPolicies(AllPluginPolicies(ps, context));
      PluginsNamed(ps[1..], context);
      PluginNamed(ps[0], context);
      MoreNames([PluginEntry(ps[0], context)], OnlyPolicies(PluginPolicies(ps[0], context)), names);
      MoreNames(PluginEntries(ps[1..], context), OnlyPolicies(AllPluginPolicies(ps[1..], context)), names);
    }
  }

  lemma {:induction false} RoutesNamed(rs: seq<Route>, api: string, names: Names)
    requires api in names.apis
    ensures AllNamed(RouteEntries(rs, api), names)
  {
    if rs != [] {
      RoutesNamed(rs[1..], api, names);
    }
  }

  lemma ServiceNamed(svc: Service, index: Index, names: Names)
    requires ApiOf(svc, index).id in names.apis && PolicyNameSet(ServicePolicies(svc)) <= names.policies
    ensures AllNamed(ServiceEntries(svc, index), names)
  {
    PluginsNamed(svc.plugins, ServiceName(svc));
    MoreNames(PluginEntries(svc.plugins, ServiceName(svc)), OnlyPolicies(ServicePolicies(svc)), names);
    RoutesNamed(svc.routes, ApiOf(svc, index).id, names);
  }

  lemma {:induction false} ServicesNamed(svcs: seq<Service>, index: Index, names: Names)
    requires forall api | api in ApisOf(svcs, index) :: api.id in names.apis
    requires PolicyNameSet(PoliciesOf(svcs)) <= names.policies
    ensures AllNamed(AllServiceEntries(svcs, index), names)
  {
    if svcs != [] {
      assert ApisOf(svcs, index)[0] == ApiOf(svcs[0], index) && ApisOf(svcs, index)[0] in ApisOf(svcs, index);
      PolicyParts(ServicePolicies(svcs[0]), PoliciesOf(svcs[1..]));
      ServiceNamed(svcs[0], index, names);
      ServicesNamed(svcs[1..], index, names);
    }
  }

  lemma PolicyParts(p: seq<Policy>, q: seq<Policy>)
    ensures PolicyNameSet(p) <= PolicyNameSet(p + q) && PolicyNameSet(q) <= PolicyNameSet(p + q)
  {
    assert forall x | x in p || x in q :: x in p + q;
  }

  lemma {:induction false} LimitsNamed(ps: seq<Plugin>, username: string)
    ensures forall e | e in LimitEntries(ps, username) :: e == Entry(MIGRATED, ConsumerRateLimit(username))
  {
    if ps != [] {
      LimitsNamed(ps[1..], username);
    }
  }

  lemma ConsumerNamed(c: Consumer, names: Names)
    requires if IsServiceAccount(c) then ApplicationOf(c).id in names.applications else TenantOf(c).id in names.tenants
    ensures AllNamed(ConsumerEntries(c), names)
  {
    if !IsServiceAccount(c) {
      TenantNamed(c, names);
    }
  }

  lemma TenantNamed(c: Consumer, names: Names)
    requires !IsServiceAccount(c) && TenantId(c) in names.tenants
    ensures AllNamed(ConsumerEntries(c), names)
  {
    var limits, name := LimitEntries(c.plugins, Username(c)), Username(c);
    var rest := [Migrated(TenantMigrated(name, TenantId(c)))] + if c.keys > 0 then [Manual(ReissueKeys(name))] else [];
    LimitsNamed(c.plugins, name);
    assert AllNamed(limits, names) && AllNamed(rest, names);
    assert ConsumerEntries(c) == limits + rest;
  }

  lemma {:induction false} ConsumersNamed(cs: seq<Consumer>, names: Names)
    requires forall t | t in TenantsOf(cs) :: t.id in names.tenants
    requires forall a | a in ApplicationsOf(cs) :: a.id in names.applications
    ensures AllNamed(AllConsumerEntries(cs), names)
  {
    if cs != [] {
      if IsServiceAccount(cs[0]) {
        assert ApplicationsOf(cs)[0] == ApplicationOf(cs[0]) && ApplicationsOf(cs)[0] in ApplicationsOf(cs);
      } else {
        assert TenantsOf(cs)[0] == TenantOf(cs[0]) && TenantsOf(cs)[0] in TenantsOf(cs);
      }
      ConsumerNamed(cs[0], names);
      ConsumersNamed(cs[1..], names);
    }
  }

  lemma {:induction false} GlobalsNameNothing(ps: seq<Plugin>, names: Names)
    ensures AllNamed(GlobalEntries(ps), names)
  {
    if ps != [] {
      GlobalsNameNothing(ps[1..], names);
    }
  }

  /** The resources that a migration makes. */
  function Resources(kong: Kong): Names {
    Names(set api | api in ApisOf(kong.services, IndexOf(kong)) :: api.id, PolicyNameSet(PoliciesOf(kong.services)),
          set t | t in TenantsOf(kong.consumers) :: t.id, set a | a in ApplicationsOf(kong.consumers) :: a.id)
  }

  /** Every API, policy, tenant and application that the report names is among the resources. */
  lemma ReportNamesResources(kong: Kong)
    ensures AllNamed(Trail(kong), Resources(kong))
  {
    ServicesNamed(kong.services, IndexOf(kong), Resources(kong));
    ConsumersNamed(kong.consumers, Resources(kong));
    GlobalsNameNothing(kong.plugins, Resources(kong));
  }
}

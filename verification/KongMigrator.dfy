/** The migrator and its report: objects whose lists grow as the configuration is walked. */
module KongMigrator {
  import opened Wrappers
  import opened Text
  import opened Dicts
  import opened Slug
  import opened KongModel
  import Json

  /** The four lists of the report, and in `trail` everything they received, in order. */
  class MigrationReport {
    var migrated: seq<Event>
    var warnings: seq<Event>
    var skipped: seq<Event>
    var manualActions: seq<Event>
    ghost var trail: seq<Entry>

    ghost predicate Valid()
      reads this
    {
      && migrated == Pick(trail, MIGRATED) && warnings == Pick(trail, WARNINGS)
      && skipped == Pick(trail, SKIPPED) && manualActions == Pick(trail, MANUAL)
    }

    constructor ()
      ensures Valid() && trail == []
    {
      migrated, warnings, skipped, manualActions, trail := [], [], [], [], [];
    }

    method AddMigrated(e: Event)
      requires Valid()
      modifies this
      ensures Valid() && trail == old(trail) + [Migrated(e)]
    {
      migrated := migrated + [e];
      trail := trail + [Migrated(e)];
      assert trail[..|trail| - 1] == old(trail);
    }

    method AddWarning(e: Event)
      requires Valid()
      modifies this
      ensures Valid() && trail == old(trail) + [Warning(e)]
    {
      warnings := warnings + [e];
      trail := trail + [Warning(e)];
      assert trail[..|trail| - 1] == old(trail);
    }

    method AddSkipped(e: Event)
      requires Valid()
      modifies this
      ensures Valid() && trail == old(trail) + [Skipped(e)]
    {
      skipped := skipped + [e];
      trail := trail + [Skipped(e)];
      assert trail[..|trail| - 1] == old(trail);
    }

    method AddManual(e: Event)
      requires Valid()
      modifies this
      ensures Valid() && trail == old(trail) + [Manual(e)]
    {
      manualActions := manualActions + [e];
      trail := trail + [Manual(e)];
      assert trail[..|trail| - 1] == old(trail);
    }
  }

  /** One more step of a walk: `whole` is what was collected and what is still to come. */
  lemma Advance<T>(whole: seq<T>, done: seq<T>, step: seq<T>, rest: seq<T>)
    requires whole == done + (step + rest)
    ensures whole == done + step + rest
  {
  }

  /** The collected APIs, policies and entries once these services, too, are migrated. */
  ghost function AfterServices(apis: seq<Api>, policies: seq<Policy>, trail: seq<Entry>, services: seq<Service>, index: Index)
    : (seq<Api>, seq<Policy>, seq<Entry>)
    decreases services
  {
    if services == [] then (apis, policies, trail)
    else
      var svc := services[0];
      AfterServices(apis + [ApiOf(svc, index)], policies + ServicePolicies(svc), trail + ServiceEntries(svc, index),
                    services[1..], index)
  }

  lemma {:induction false} AfterServicesAdds(apis: seq<Api>, policies: seq<Policy>, trail: seq<Entry>, services: seq<Service>,
                                             index: Index)
    ensures AfterServices(apis, policies, trail, services, index)
         == (apis + ApisOf(services, index), policies + PoliciesOf(services), trail + AllServiceEntries(services, index))
    decreases services
  {
    if services == [] {
      assert apis + [] == apis && policies + [] == policies && trail + [] == trail;
    } else {
      var svc, later := services[0], services[1..];
      AfterServicesAdds(apis + [ApiOf(svc, index)], policies + ServicePolicies(svc), trail + ServiceEntries(svc, index),
                        later, index);
      Advance(apis + ApisOf(services, index), apis, [ApiOf(svc, index)], ApisOf(later, index));
      Advance(policies + PoliciesOf(services), policies, ServicePolicies(svc), PoliciesOf(later));
      Advance(trail + AllServiceEntries(services, index), trail, ServiceEntries(svc, index), AllServiceEntries(later, index));
    }
  }

  class KongToStoaMigrator {
    const kong: Kong
    const report: MigrationReport
    var apis: seq<Api>
    var policies: seq<Policy>
    var tenants: seq<Tenant>
    var applications: seq<Application>
    var upstreams: Index

    constructor (kong: Kong)
      ensures this.kong == kong && fresh(report) && report.Valid() && report.trail == []
      ensures apis == [] && policies == [] && tenants == [] && applications == [] && upstreams == []
    {
      this.kong := kong;
      report := new MigrationReport();
      apis, policies, tenants, applications, upstreams := [], [], [], [], [];
    }

    /** `migrate` */
    method Migrate()
      requires report.Valid()
      modifies this, report
      ensures upstreams == Indexed(old(upstreams), kong.upstreams)
      ensures apis == old(apis) + ApisOf(kong.services, upstreams)
      ensures policies == old(policies) + PoliciesOf(kong.services)
      ensures tenants == old(tenants) + TenantsOf(kong.consumers)
      ensures applications == old(applications) + ApplicationsOf(kong.consumers)
      ensures report.Valid()
      ensures report.trail == old(report.trail) + AllServiceEntries(kong.services, upstreams)
                              + AllConsumerEntries(kong.consumers) + GlobalEntries(kong.plugins)
    {
      IndexUpstreams();
      MigrateServices();
      MigrateConsumers();
      MigrateGlobalPlugins();
    }

    method IndexUpstreams()
      modifies this`upstreams
      ensures upstreams == Indexed(old(upstreams), kong.upstreams)
    {
      for i := 0 to |kong.upstreams|
        invariant Indexed(old(upstreams), kong.upstreams) == Indexed(upstreams, kong.upstreams[i..])
      {
        assert kong.upstreams[i..][1..] == kong.upstreams[i + 1..];
        upstreams := Put(upstreams, kong.upstreams[i].name.GetOr(""), kong.upstreams[i]);
      }
    }

    method MigrateServices()
      requires report.Valid()
      modifies this`apis, this`policies, report
      ensures apis == old(apis) + ApisOf(kong.services, upstreams)
      ensures policies == old(policies) + PoliciesOf(kong.services)
      ensures report.Valid()
      ensures report.trail == old(report.trail) + AllServiceEntries(kong.services, upstreams)
    {
      AfterServicesAdds(apis, policies, report.trail, kong.services, upstreams);
      ghost var all := AfterServices(apis, policies, report.trail, kong.services, upstreams);
      for i := 0 to |kong.services|
        invariant report.Valid()
        invariant AfterServices(apis, policies, report.trail, kong.services[i..], upstreams) == all
      {
        assert kong.services[i..][1..] == kong.services[i + 1..];
        MigrateOneService(kong.services[i]);
      }
    }

    method MigrateOneService(svc: Service)
      requires report.Valid()
      modifies this`apis, this`policies, report
      ensures apis == old(apis) + [ApiOf(svc, upstreams)]
      ensures policies == old(policies) + ServicePolicies(svc)
      ensures report.Valid()
      ensures report.trail == old(report.trail) + ServiceEntries(svc, upstreams)
    {
      var name := ServiceName(svc);
      var slug := Slugify(name);
      ghost var last := [Migrated(ServiceMigrated(name, slug))] + RouteEntries(svc.routes, slug);
      ghost var all := report.trail + ServiceEntries(svc, upstreams);
      Advance(all, report.trail, UpstreamEntries(svc, upstreams), PluginEntries(svc.plugins, name) + last);
      var backend := ResolveUpstream(svc);
      var resources := MapRoutes(svc.routes);
      Advance(all, report.trail, PluginEntries(svc.plugins, name), last);
      var mapped, keyRequired := MapPlugins(svc.plugins, name);
      apis := apis + [Api(slug, BackendUrl(svc), svc.tags, resources, PolicyNames(mapped), keyRequired, backend)];
      policies := policies + mapped;
      Advance(all, report.trail, [Migrated(ServiceMigrated(name, slug))], RouteEntries(svc.routes, slug));
      report.AddMigrated(ServiceMigrated(name, slug));
      ReportRoutes(svc.routes, slug);
    }

    method ReportRoutes(routes: seq<Route>, slug: string)
      requires report.Valid()
      modifies report
      ensures report.Valid() && report.trail == old(report.trail) + RouteEntries(routes, slug)
    {
      ghost var all := report.trail + RouteEntries(routes, slug);
      for i := 0 to |routes|
        invariant report.Valid() && all == report.trail + RouteEntries(routes[i..], slug)
      {
        var event := RouteMigrated(routes[i].name.GetOr("unnamed-route"), slug);
        assert routes[i..][1..] == routes[i + 1..];
        Advance(all, report.trail, [Migrated(event)], RouteEntries(routes[i + 1..], slug));
        report.AddMigrated(event);
      }
    }

    method MapRoutes(routes: seq<Route>) returns (resources: seq<Resource>)
      ensures resources == AllResources(routes)
    {
      resources := [];
      ghost var all := AllResources(routes);
      for i := 0 to |routes|
        invariant all == resources + AllResources(routes[i..])
      {
        assert routes[i..][1..] == routes[i + 1..];
        Advance(all, resources, ResourcesOf(routes[i], RoutePaths(routes[i])), AllResources(routes[i + 1..]));
        resources := MapRoute(routes[i], resources);
      }
    }

    /** One turn of the outer loop of `_map_routes`. */
    method MapRoute(route: Route, mapped: seq<Resource>) returns (resources: seq<Resource>)
      ensures resources == mapped + ResourcesOf(route, RoutePaths(route))
    {
      resources := mapped;
      var paths := RoutePaths(route);
      ghost var all := mapped + ResourcesOf(route, paths);
      for j := 0 to |paths|
        invariant all == resources + ResourcesOf(route, paths[j..])
      {
        assert paths[j..][1..] == paths[j + 1..];
        Advance(all, resources, [ResourceOf(route, paths[j])], ResourcesOf(route, paths[j + 1..]));
        resources := resources + [ResourceOf(route, paths[j])];
      }
    }

    method MapPlugins(plugins: seq<Plugin>, context: string) returns (mapped: seq<Policy>, keyRequired: bool)
      requires report.Valid()
      modifies report
      ensures mapped == AllPluginPolicies(plugins, context)
      ensures keyRequired == AnyAuth(plugins)
      ensures report.Valid() && report.trail == old(report.trail) + PluginEntries(plugins, context)
    {
      mapped, keyRequired := [], false;
      ghost var all, allPolicies := report.trail + PluginEntries(plugins, context), AllPluginPolicies(plugins, context);
      for i := 0 to |plugins|
        invariant allPolicies == mapped + AllPluginPolicies(plugins[i..], context)
        invariant keyRequired <==> exists j | 0 <= j < i :: IsAuth(plugins[j])
        invariant report.Valid() && all == report.trail + PluginEntries(plugins[i..], context)
      {
        var p := plugins[i];
        assert plugins[i..][1..] == plugins[i + 1..];
        Advance(allPolicies, mapped, PluginPolicies(p, context), AllPluginPolicies(plugins[i + 1..], context));
        Advance(all, report.trail, [PluginEntry(p, context)], PluginEntries(plugins[i + 1..], context));
        var more, auth := MapPlugin(p, context);
        mapped := mapped + more;
        keyRequired := keyRequired || auth;
      }
    }

    /** One turn of the loop of `_map_plugins`. */
    method MapPlugin(p: Plugin, context: string) returns (mapped: seq<Policy>, auth: bool)
      requires report.Valid()
      modifies report
      ensures mapped == PluginPolicies(p, context) && auth == IsAuth(p)
      ensures report.Valid() && report.trail == old(report.trail) + [PluginEntry(p, context)]
    {
      var name := p.name.GetOr("");
      mapped, auth := [], false;
      if name in AUTH_PLUGINS {
        auth := true;
        report.AddMigrated(AuthPlugin(name, context));
        return;
      }
      var kind := PolicyKind(name);
      if kind.Some? {
        var policy := PolicyOf(p, context, kind.value);
        mapped := [policy];
        report.AddMigrated(PolicyPlugin(name, context, policy.name));
      } else if name in UNSUPPORTED_PLUGINS {
        report.AddManual(NoEquivalent(name, context, p.config));
      } else if name in OBSERVABILITY {
        report.AddSkipped(ObservabilityPlugin(name));
      } else if name in LOGGING {
        report.AddSkipped(LoggingPlugin(name));
      } else {
        report.AddWarning(UnknownPlugin(name, context));
      }
    }

    method ResolveUpstream(svc: Service) returns (backend: Option<Backend>)
      requires report.Valid()
      modifies report
      ensures backend == ApiOf(svc, upstreams).backend
      ensures report.Valid() && report.trail == old(report.trail) + UpstreamEntries(svc, upstreams)
    {
      var name := svc.name.GetOr("");
      var ups := Get(upstreams, svc.host.GetOr(""));
      if ups == None || !Truthy(ups.value) {
        var i := 0;
        while i < |upstreams| && !(Contains(upstreams[i].key, name) || Contains(name, upstreams[i].key))
          invariant i <= |upstreams|
          invariant FirstRelated(upstreams, name) == FirstRelated(upstreams[i..], name)
        {
          assert upstreams[i..][1..] == upstreams[i + 1..];
          i := i + 1;
        }
        if i < |upstreams| {
          ups := Some(upstreams[i].value);
        }
      }
      if ups == None || !Truthy(ups.value) {
        return None;
      }
      report.AddMigrated(UpstreamMigrated(ups.value.name.GetOr("unnamed")));
      return Some(BackendOf(ups.value));
    }

    method MigrateConsumers()
      requires report.Valid()
      modifies this`tenants, this`applications, report
      ensures tenants == old(tenants) + TenantsOf(kong.consumers)
      ensures applications == old(applications) + ApplicationsOf(kong.consumers)
      ensures report.Valid() && report.trail == old(report.trail) + AllConsumerEntries(kong.consumers)
    {
      ghost var allTenants := tenants + TenantsOf(kong.consumers);
      ghost var allApplications := applications + ApplicationsOf(kong.consumers);
      ghost var all := report.trail + AllConsumerEntries(kong.consumers);
      for i := 0 to |kong.consumers|
        invariant report.Valid()
        invariant allTenants == tenants + TenantsOf(kong.consumers[i..])
        invariant allApplications == applications + ApplicationsOf(kong.consumers[i..])
        invariant all == report.trail + AllConsumerEntries(kong.consumers[i..])
      {
        var c := kong.consumers[i];
        ghost var later := kong.consumers[i + 1..];
        assert kong.consumers[i..][1..] == later;
        Advance(allTenants, tenants, if IsServiceAccount(c) then [] else [TenantOf(c)], TenantsOf(later));
        Advance(allApplications, applications, if IsServiceAccount(c) then [ApplicationOf(c)] else [], ApplicationsOf(later));
        Advance(all, report.trail, ConsumerEntries(c), AllConsumerEntries(later));
        MigrateOneConsumer(c);
      }
    }

    method MigrateOneConsumer(c: Consumer)
      requires report.Valid()
      modifies this`tenants, this`applications, report
      ensures tenants == old(tenants) + (if IsServiceAccount(c) then [] else [TenantOf(c)])
      ensures applications == old(applications) + (if IsServiceAccount(c) then [ApplicationOf(c)] else [])
      ensures report.Valid() && report.trail == old(report.trail) + ConsumerEntries(c)
    {
      var name := Username(c);
      if IsServiceAccount(c) {
        applications := applications + [ApplicationOf(c)];
        report.AddMigrated(ApplicationMigrated(name, ApplicationOf(c).id));
      } else {
        ghost var last := if c.keys > 0 then [Manual(ReissueKeys(name))] else [];
        ghost var done := [Migrated(TenantMigrated(name, TenantId(c)))];
        ghost var all := report.trail + ConsumerEntries(c);
        Advance(all, report.trail, LimitEntries(c.plugins, name), done + last);
        var limit := LimitTenant(c.plugins, name);
        tenants := tenants + [Tenant(TenantId(c), c.tags, limit)];
        Advance(all, report.trail, done, last);
        report.AddMigrated(TenantMigrated(name, TenantId(c)));
        if c.keys > 0 {
          report.AddManual(ReissueKeys(name));
        }
      }
    }

    /** The loop over the plugins of a consumer; a later rate limit replaces an earlier one. */
    method LimitTenant(plugins: seq<Plugin>, name: string) returns (limit: Option<seq<Item<Json.Json>>>)
      requires report.Valid()
      modifies report
      ensures limit == TenantLimit(plugins)
      ensures report.Valid() && report.trail == old(report.trail) + LimitEntries(plugins, name)
    {
      limit := None;
      ghost var all := report.trail + LimitEntries(plugins, name);
      for i := 0 to |plugins|
        invariant limit == TenantLimit(plugins[..i])
        invariant report.Valid() && all == report.trail + LimitEntries(plugins[i..], name)
      {
        var p := plugins[i];
        assert plugins[i..][1..] == plugins[i + 1..];
        assert plugins[..i + 1][..i] == plugins[..i];
        Advance(all, report.trail, if IsRateLimiter(p) then [Migrated(ConsumerRateLimit(name))] else [],
                LimitEntries(plugins[i + 1..], name));
        if IsRateLimiter(p) {
          limit := Some(RateLimit(p.config));
          report.AddMigrated(ConsumerRateLimit(name));
        }
      }
      assert plugins[..|plugins|] == plugins;
    }

    method MigrateGlobalPlugins()
      requires report.Valid()
      modifies report
      ensures report.Valid() && report.trail == old(report.trail) + GlobalEntries(kong.plugins)
    {
      ghost var all := report.trail + GlobalEntries(kong.plugins);
      for i := 0 to |kong.plugins|
        invariant report.Valid() && all == report.trail + GlobalEntries(kong.plugins[i..])
      {
        var name := kong.plugins[i].name.GetOr("");
        assert kong.plugins[i..][1..] == kong.plugins[i + 1..];
        Advance(all, report.trail, [GlobalEntry(kong.plugins[i])], GlobalEntries(kong.plugins[i + 1..]));
        if name in OBSERVABILITY {
          report.AddSkipped(GlobalObservability(name));
        } else if name in LOGGING {
          report.AddSkipped(GlobalLogging(name));
        } else {
          report.AddWarning(GlobalReview(name));
        }
      }
    }
  }
}

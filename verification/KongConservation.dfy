/** A migration reports every object of the configuration, in the right list and as often as it
    should. */
module KongConservation {
  import opened Slug
  import opened KongModel

  // ----- what is reported -----

  /** The object of the configuration that an entry of the report is about. */
  datatype Subject =
    | AService(name: string) | ARoute(name: string) | APlugin(name: string) | AnUpstream(name: string)
    | AConsumer(name: string) | ALimit(consumer: string) | TheKeys(consumer: string) | AGlobalPlugin(name: string)

  function SubjectOf(e: Event): Subject {
    match e
    case ServiceMigrated(service, _) => AService(service)
    case RouteMigrated(route, _) => ARoute(route)
    case AuthPlugin(plugin, _) => APlugin(plugin)
    case PolicyPlugin(plugin, _, _) => APlugin(plugin)
    case NoEquivalent(plugin, _, _) => APlugin(plugin)
    case ObservabilityPlugin(plugin) => APlugin(plugin)
    case LoggingPlugin(plugin) => APlugin(plugin)
    case UnknownPlugin(plugin, _) => APlugin(plugin)
    case UpstreamMigrated(upstream) => AnUpstream(upstream)
    case ApplicationMigrated(username, _) => AConsumer(username)
    case TenantMigrated(username, _) => AConsumer(username)
    case ConsumerRateLimit(username) => ALimit(username)
    case ReissueKeys(username) => TheKeys(username)
    case GlobalObservability(plugin) => AGlobalPlugin(plugin)
    case GlobalLogging(plugin) => AGlobalPlugin(plugin)
    case GlobalReview(plugin) => AGlobalPlugin(plugin)
  }

  function EventSubjects(es: seq<Event>): multiset<Subject> {
    if es == [] then multiset{} else EventSubjects(es[..|es| - 1]) + multiset{SubjectOf(es[|es| - 1])}
  }

  /** The subjects of all four lists of a report together. */
  function Reported(migrated: seq<Event>, warnings: seq<Event>, skipped: seq<Event>, manual: seq<Event>): multiset<Subject> {
    EventSubjects(migrated) + EventSubjects(warnings) + EventSubjects(skipped) + EventSubjects(manual)
  }

  function Subjects(entries: seq<Entry>): multiset<Subject> {
    if entries == [] then multiset{} else multiset{SubjectOf(entries[0].event)} + Subjects(entries[1..])
  }

  lemma {:induction false} SubjectsConcat(p: seq<Entry>, q: seq<Entry>)
    ensures Subjects(p + q) == Subjects(p) + Subjects(q)
  {
    if p == [] {
      assert p + q == q;
    } else {
      assert (p + q)[1..] == p[1..] + q;
      SubjectsConcat(p[1..], q);
    }
  }

  lemma EventSubjectsSnoc(es: seq<Event>, e: Event)
    ensures EventSubjects(es + [e]) == EventSubjects(es) + multiset{SubjectOf(e)}
  {
    assert (es + [e])[..|es + [e]| - 1] == es;
  }

  /** The subjects of the four lists that a trail makes. */
  function ReportOf(trail: seq<Entry>): multiset<Subject> {
    Reported(Pick(trail, MIGRATED), Pick(trail, WARNINGS), Pick(trail, SKIPPED), Pick(trail, MANUAL))
  }

  lemma ReportGrows(before: seq<Entry>, last: Entry)
    ensures ReportOf(before + [last]) == ReportOf(before) + multiset{SubjectOf(last.event)}
  {
    OneListGrows(before, last, MIGRATED);
    OneListGrows(before, last, WARNINGS);
    OneListGrows(before, last, SKIPPED);
    OneListGrows(before, last, MANUAL);
    SumGrows(EventSubjects(Pick(before, MIGRATED)), EventSubjects(Pick(before, WARNINGS)),
             EventSubjects(Pick(before, SKIPPED)), EventSubjects(Pick(before, MANUAL)), SubjectOf(last.event), last.section);
  }

  lemma ReportStep(before: seq<Entry>, last: Entry)
    requires ReportOf(before) == Subjects(before)
    ensures ReportOf(before + [last]) == Subjects(before + [last])
  {
    ReportGrows(before, last);
    SubjectsSnoc(before, last);
  }

  lemma Snoc<T>(s: seq<T>)
    requires s != []
    ensures s[..|s| - 1] + [s[|s| - 1]] == s
  {
  }

  lemma {:induction false} ReportHoldsTheTrail(trail: seq<Entry>)
    ensures ReportOf(trail) == Subjects(trail)
  {
    if trail != [] {
      Snoc(trail);
      ReportHoldsTheTrail(trail[..|trail| - 1]);
      ReportStep(trail[..|trail| - 1], trail[|trail| - 1]);
    }
  }

  /** The four lists hold what the trail holds, nothing more and nothing less. */
  lemma ListsHoldTheTrail(trail: seq<Entry>)
    ensures Reported(Pick(trail, MIGRATED), Pick(trail, WARNINGS), Pick(trail, SKIPPED), Pick(trail, MANUAL)) == Subjects(trail)
  {
    ReportHoldsTheTrail(trail);
  }

  function IfIn(x: Subject, section: Section, list: Section): multiset<Subject> {
    if section == list then multiset{x} else multiset{}
  }

  lemma OneListGrows(before: seq<Entry>, last: Entry, list: Section)
    ensures EventSubjects(Pick(before + [last], list))
         == EventSubjects(Pick(before, list)) + IfIn(SubjectOf(last.event), last.section, list)
  {
    assert (before + [last])[..|before|] == before;
    PickOther(before + [last], list);
    EventSubjectsSnoc(Pick(before, list), last.event);
  }

  lemma SumGrows(a: multiset<Subject>, b: multiset<Subject>, c: multiset<Subject>, d: multiset<Subject>, x: Subject,
                 section: Section)
    ensures (a + IfIn(x, section, MIGRATED)) + (b + IfIn(x, section, WARNINGS))
            + (c + IfIn(x, section, SKIPPED)) + (d + IfIn(x, section, MANUAL))
         == a + b + c + d + multiset{x}
  {
  }

  lemma SubjectsSnoc(before: seq<Entry>, last: Entry)
    ensures Subjects(before + [last]) == Subjects(before) + multiset{SubjectOf(last.event)}
  {
    SubjectsConcat(before, [last]);
    One(last);
  }

  lemma {:induction false} ListsHaveTheLength(trail: seq<Entry>)
    ensures |Pick(trail, MIGRATED)| + |Pick(trail, WARNINGS)| + |Pick(trail, SKIPPED)| + |Pick(trail, MANUAL)| == |trail|
  {
    if trail != [] {
      ListsHaveTheLength(trail[..|trail| - 1]);
      forall section ensures |Pick(trail, section)|
        == |Pick(trail[..|trail| - 1], section)| + if trail[|trail| - 1].section == section then 1 else 0
      {
        PickOther(trail, section);
      }
    }
  }

  lemma PickOther(trail: seq<Entry>, section: Section)
    requires trail != []
    ensures var before, last := trail[..|trail| - 1], trail[|trail| - 1];
      Pick(trail, section) == if last.section == section then Pick(before, section) + [last.event] else Pick(before, section)
  {
  }

  // ----- what there is to report -----

  function RouteSubjects(rs: seq<Route>): multiset<Subject> {
    if rs == [] then multiset{} else multiset{ARoute(rs[0].name.GetOr("unnamed-route"))} + RouteSubjects(rs[1..])
  }

  function PluginSubjects(ps: seq<Plugin>): multiset<Subject> {
    if ps == [] then multiset{} else multiset{APlugin(ps[0].name.GetOr(""))} + PluginSubjects(ps[1..])
  }

  function ServiceSubject(svc: Service, index: Index): multiset<Subject> {
    var upstream := Resolved(svc, index);
    multiset{AService(ServiceName(svc))} + RouteSubjects(svc.routes) + PluginSubjects(svc.plugins)
    + if upstream.Some? then multiset{AnUpstream(upstream.value.name.GetOr("unnamed"))} else multiset{}
  }

  function ServiceSubjects(svcs: seq<Service>, index: Index): multiset<Subject> {
    if svcs == [] then multiset{} else ServiceSubject(svcs[0], index) + ServiceSubjects(svcs[1..], index)
  }

  function LimitSubjects(ps: seq<Plugin>, username: string): multiset<Subject> {
    if ps == [] then multiset{}
    else (if IsRateLimiter(ps[0]) then multiset{ALimit(username)} else multiset{}) + LimitSubjects(ps[1..], username)
  }

  /** A service account is only itself; another consumer has its rate limits and keys too. */
  function ConsumerSubject(c: Consumer): multiset<Subject> {
    multiset{AConsumer(Username(c))}
    + if IsServiceAccount(c) then multiset{}
      else LimitSubjects(c.plugins, Username(c)) + if c.keys > 0 then multiset{TheKeys(Username(c))} else multiset{}
  }

  function ConsumerSubjects(cs: seq<Consumer>): multiset<Subject> {
    if cs == [] then multiset{} else ConsumerSubject(cs[0]) + ConsumerSubjects(cs[1..])
  }

  function GlobalSubjects(ps: seq<Plugin>): multiset<Subject> {
    if ps == [] then multiset{} else multiset{AGlobalPlugin(ps[0].name.GetOr(""))} + GlobalSubjects(ps[1..])
  }

  function SourceSubjects(kong: Kong): multiset<Subject> {
    ServiceSubjects(kong.services, IndexOf(kong)) + ConsumerSubjects(kong.consumers) + GlobalSubjects(kong.plugins)
  }

  /** Everything a migration appends to the trail of its report. */
  function Trail(kong: Kong): seq<Entry> {
    AllServiceEntries(kong.services, IndexOf(kong)) + AllConsumerEntries(kong.consumers) + GlobalEntries(kong.plugins)
  }

  lemma {:induction false} RoutesReported(rs: seq<Route>, api: string)
    ensures Subjects(RouteEntries(rs, api)) == RouteSubjects(rs)
  {
    if rs != [] {
      RoutesReported(rs[1..], api);
      assert RouteEntries(rs, api)[1..] == RouteEntries(rs[1..], api);
    }
  }

  lemma {:induction false} PluginsReported(ps: seq<Plugin>, context: string)
    ensures Subjects(PluginEntries(ps, context)) == PluginSubjects(ps)
  {
    if ps != [] {
      PluginsReported(ps[1..], context);
      assert PluginEntries(ps, context)[1..] == PluginEntries(ps[1..], context);
      PluginReported(ps[0], context);
    }
  }

  lemma PluginReported(p: Plugin, context: string)
    ensures SubjectOf(PluginEntry(p, context).event) == APlugin(p.name.GetOr(""))
  {
  }

  lemma One(e: Entry)
    ensures Subjects([e]) == multiset{SubjectOf(e.event)}
  {
    assert [e][1..] == [];
  }

  lemma SubjectsOfFour(a: seq<Entry>, b: seq<Entry>, c: seq<Entry>, d: seq<Entry>)
    ensures Subjects(a + (b + (c + d))) == Subjects(a) + Subjects(b) + Subjects(c) + Subjects(d)
  {
    SubjectsConcat(a, b + (c + d));
    SubjectsConcat(b, c + d);
    SubjectsConcat(c, d);
  }

  lemma UpstreamReported(svc: Service, index: Index)
    ensures var upstream := Resolved(svc, index);
      Subjects(UpstreamEntries(svc, index))
        == if upstream.Some? then multiset{AnUpstream(upstream.value.name.GetOr("unnamed"))} else multiset{}
  {
    if UpstreamEntries(svc, index) != [] {
      One(UpstreamEntries(svc, index)[0]);
    }
  }

  lemma ServiceReported(svc: Service, index: Index)
    ensures Subjects(ServiceEntries(svc, index)) == ServiceSubject(svc, index)
  {
    var name, api := ServiceName(svc), Slugify(ServiceName(svc));
    var itself := Migrated(ServiceMigrated(name, api));
    SubjectsOfFour(UpstreamEntries(svc, index), PluginEntries(svc.plugins, name), [itself], RouteEntries(svc.routes, api));
    UpstreamReported(svc, index);
    PluginsReported(svc.plugins, name);
    RoutesReported(svc.routes, api);
    One(itself);
  }

  lemma {:induction false} ServicesReported(svcs: seq<Service>, index: Index)
    ensures Subjects(AllServiceEntries(svcs, index)) == ServiceSubjects(svcs, index)
  {
    if svcs != [] {
      ServiceReported(svcs[0], index);
      ServicesReported(svcs[1..], index);
      SubjectsConcat(ServiceEntries(svcs[0], index), AllServiceEntries(svcs[1..], index));
    }
  }

  lemma {:induction false} LimitsReported(ps: seq<Plugin>, username: string)
    ensures Subjects(LimitEntries(ps, username)) == LimitSubjects(ps, username)
  {
    if ps != [] {
      var first := if IsRateLimiter(ps[0]) then [Migrated(ConsumerRateLimit(username))] else [];
      LimitsReported(ps[1..], username);
      SubjectsConcat(first, LimitEntries(ps[1..], username));
      if first != [] { One(first[0]); }
    }
  }

  lemma KeysReported(c: Consumer)
    ensures var name := Username(c);
      Subjects(if c.keys > 0 then [Manual(ReissueKeys(name))] else [])
      == if c.keys > 0 then multiset{TheKeys(name)} else multiset{}
  {
    One(Manual(ReissueKeys(Username(c))));
  }

  lemma TenantReported(c: Consumer)
    requires !IsServiceAccount(c)
    ensures Subjects(ConsumerEntries(c)) == ConsumerSubject(c)
  {
    var name := Username(c);
    var limits, itself := LimitEntries(c.plugins, name), [Migrated(TenantMigrated(name, TenantId(c)))];
    var last := if c.keys > 0 then [Manual(ReissueKeys(name))] else [];
    SubjectsOfThree(limits, itself, last);
    LimitsReported(c.plugins, name);
    One(itself[0]);
    KeysReported(c);
    assert ConsumerEntries(c) == limits + (itself + last);
  }

  lemma SubjectsOfThree(a: seq<Entry>, b: seq<Entry>, c: seq<Entry>)
    ensures Subjects(a + (b + c)) == Subjects(b) + (Subjects(a) + Subjects(c))
  {
    SubjectsConcat(a, b + c);
    SubjectsConcat(b, c);
  }

  lemma ConsumerReported(c: Consumer)
    ensures Subjects(ConsumerEntries(c)) == ConsumerSubject(c)
  {
    if IsServiceAccount(c) {
      One(ConsumerEntries(c)[0]);
    } else {
      TenantReported(c);
    }
  }

  lemma {:induction false} ConsumersReported(cs: seq<Consumer>)
    ensures Subjects(AllConsumerEntries(cs)) == ConsumerSubjects(cs)
  {
    if cs != [] {
      ConsumerReported(cs[0]);
      ConsumersReported(cs[1..]);
      SubjectsConcat(ConsumerEntries(cs[0]), AllConsumerEntries(cs[1..]));
    }
  }

  lemma {:induction false} GlobalsReported(ps: seq<Plugin>)
    ensures Subjects(GlobalEntries(ps)) == GlobalSubjects(ps)
  {
    if ps != [] {
      GlobalsReported(ps[1..]);
      assert GlobalEntries(ps)[1..] == GlobalEntries(ps[1..]);
      assert SubjectOf(GlobalEntry(ps[0]).event) == AGlobalPlugin(ps[0].name.GetOr(""));
    }
  }

  /** Every service, route, service plugin, resolved upstream, consumer, consumer rate limit,
      set of keys and global plugin is reported exactly once, and nothing else is. */
  lemma NothingLostNothingInvented(kong: Kong)
    ensures Subjects(Trail(kong)) == SourceSubjects(kong)
  {
    var a, b := AllServiceEntries(kong.services, IndexOf(kong)), AllConsumerEntries(kong.consumers);
    var c := GlobalEntries(kong.plugins);
    ServicesReported(kong.services, IndexOf(kong));
    ConsumersReported(kong.consumers);
    GlobalsReported(kong.plugins);
    SubjectsConcat(a + b, c);
    SubjectsConcat(a, b);
  }

  // ----- the same, counted -----

  function TotalRoutes(svcs: seq<Service>): nat {
    if svcs == [] then 0 else |svcs[0].routes| + TotalRoutes(svcs[1..])
  }

  function TotalPlugins(svcs: seq<Service>): nat {
    if svcs == [] then 0 else |svcs[0].plugins| + TotalPlugins(svcs[1..])
  }

  function ResolvedCount(svcs: seq<Service>, index: Index): nat {
    if svcs == [] then 0 else (if Resolved(svcs[0], index).Some? then 1 else 0) + ResolvedCount(svcs[1..], index)
  }

  function RateLimiters(ps: seq<Plugin>): nat {
    if ps == [] then 0 else (if IsRateLimiter(ps[0]) then 1 else 0) + RateLimiters(ps[1..])
  }

  function TenantLimits(cs: seq<Consumer>): nat {
    if cs == [] then 0 else (if IsServiceAccount(cs[0]) then 0 else RateLimiters(cs[0].plugins)) + TenantLimits(cs[1..])
  }

  function TenantsWithKeys(cs: seq<Consumer>): nat {
    if cs == [] then 0 else (if !IsServiceAccount(cs[0]) && cs[0].keys > 0 then 1 else 0) + TenantsWithKeys(cs[1..])
  }

  function EntryCount(kong: Kong): nat {
    |kong.services| + TotalRoutes(kong.services) + TotalPlugins(kong.services) + ResolvedCount(kong.services, IndexOf(kong))
    + |kong.consumers| + TenantLimits(kong.consumers) + TenantsWithKeys(kong.consumers) + |kong.plugins|
  }

  lemma {:induction false} EntriesPerObject(ps: seq<Plugin>, rs: seq<Route>, text: string)
    ensures |PluginEntries(ps, text)| == |ps| && |RouteEntries(rs, text)| == |rs| && |GlobalEntries(ps)| == |ps|
    ensures |LimitEntries(ps, text)| == RateLimiters(ps)
    decreases |ps| + |rs|
  {
    if ps != [] {
      EntriesPerObject(ps[1..], rs, text);
    } else if rs != [] {
      EntriesPerObject(ps, rs[1..], text);
    }
  }

  lemma {:induction false} ServiceEntryCount(svcs: seq<Service>, index: Index)
    ensures |AllServiceEntries(svcs, index)| == |svcs| + TotalRoutes(svcs) + TotalPlugins(svcs) + ResolvedCount(svcs, index)
  {
    if svcs != [] {
      EntriesPerObject(svcs[0].plugins, [], ServiceName(svcs[0]));
      EntriesPerObject([], svcs[0].routes, Slugify(ServiceName(svcs[0])));
      ServiceEntryCount(svcs[1..], index);
    }
  }

  lemma {:induction false} ConsumerEntryCount(cs: seq<Consumer>)
    ensures |AllConsumerEntries(cs)| == |cs| + TenantLimits(cs) + TenantsWithKeys(cs)
  {
    if cs != [] {
      EntriesPerObject(cs[0].plugins, [], Username(cs[0]));
      ConsumerEntryCount(cs[1..]);
    }
  }

  /** The four lists together are as long as there are objects to report. */
  lemma ExactConservation(kong: Kong)
    ensures var t := Trail(kong);
      |Pick(t, MIGRATED)| + |Pick(t, WARNINGS)| + |Pick(t, SKIPPED)| + |Pick(t, MANUAL)| == EntryCount(kong)
  {
    ListsHaveTheLength(Trail(kong));
    ServiceEntryCount(kong.services, IndexOf(kong));
    ConsumerEntryCount(kong.consumers);
    EntriesPerObject(kong.plugins, [], "");
  }

  // ----- which list a plugin ends in -----

  lemma SupportedAreNot(name: string)
    requires name in AUTH_PLUGINS || PolicyKind(name).Some?
    ensures name !in UNSUPPORTED_PLUGINS && name !in OBSERVABILITY && name !in LOGGING
  {
  }

  lemma IgnoredAreNot(name: string)
    requires name in OBSERVABILITY || name in LOGGING
    ensures name !in UNSUPPORTED_PLUGINS
  {
  }

  /** The classes of plugins do not overlap, so each decides the list on its own: no plugin
      with an equivalent is left to the operator, and none without one is dropped silently. */
  lemma ListOfPlugin(p: Plugin, context: string)
    ensures var name, list := p.name.GetOr(""), PluginEntry(p, context).section;
      && (list == MIGRATED <==> name in AUTH_PLUGINS || PolicyKind(name).Some?)
      && (list == MANUAL <==> name in UNSUPPORTED_PLUGINS)
      && (list == SKIPPED <==> name in OBSERVABILITY || name in LOGGING)
  {
    var name := p.name.GetOr("");
    if name in AUTH_PLUGINS || PolicyKind(name).Some? {
      SupportedAreNot(name);
    } else if name in OBSERVABILITY || name in LOGGING {
      IgnoredAreNot(name);
    }
  }
}

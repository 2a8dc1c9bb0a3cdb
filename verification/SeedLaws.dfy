/** Seeding keeps every constraint, adds only demo rows, and does nothing the second time. */
module SeedLaws {
  import opened Wrappers
  import opened DemoStore
  import opened DemoSeeder

  // ----- integrity after every statement -----

  lemma {:induction false} ToolsKeepIntegrity(st: State, server: Id, tools: seq<string>)
    requires Integral(st.db) && ToolsSeeded(st, server, tools).Ok?
    ensures Integral(ToolsSeeded(st, server, tools).value.db)
    decreases tools
  {
    if tools != [] {
      InsertToolKeepsIntegrity(st.db, Tool(server, tools[0]));
      ToolsKeepIntegrity(ToolStep(st, server, tools[0]).value, server, tools[1..]);
    }
  }

  lemma ServerStepKeepsIntegrity(st: State, def: ServerDef)
    requires Integral(st.db) && ServerStep(st, def).Ok?
    ensures Integral(ServerStep(st, def).value.db)
  {
    if ServersNamed(st.db, def.name) == {} {
      InsertServerKeepsIntegrity(st.db, Server(def.name, Some(DEMO)));
      ToolsKeepIntegrity(NewServer(st, def.name).value, st.db.next, def.tools);
    }
  }

  lemma ConsumerStepKeepsIntegrity(st: State, externalId: string)
    requires Integral(st.db) && ConsumerStep(st, externalId).Ok?
    ensures Integral(ConsumerStep(st, externalId).value.db)
  {
    if ConsumersWith(st.db, externalId) == {} {
      InsertConsumerKeepsIntegrity(st.db, Consumer(DEMO, externalId));
    }
  }

  lemma SubscriptionStepKeepsIntegrity(st: State, def: SubscriptionDef)
    requires Integral(st.db) && Handed(st) && SubscriptionStep(st, def).Ok?
    ensures Integral(SubscriptionStep(st, def).value.db) && Handed(SubscriptionStep(st, def).value)
  {
    if !Passed(st, def) {
      var row := Subscription(st.serverIds[def.server], st.consumerIds[def.consumer], DEMO);
      assert row.subscriber in st.consumerIds;
      if InsertSubscription(st.db, row).Ok? {
        InsertSubscriptionKeepsIntegrity(st.db, row);
      }
    }
  }

  lemma ApiStepKeepsIntegrity(st: State, def: ApiDef)
    requires Integral(st.db) && ApiStep(st, def).Ok?
    ensures Integral(ApiStep(st, def).value.db)
  {
    if CatalogRows(st.db, def.apiId) == {} {
      InsertCatalogKeepsIntegrity(st.db, CatalogEntry(DEMO, def.apiId, def.name, def.version, false));
    }
  }

  // ----- phase 2: servers -----

  lemma ServerStepLinks(st: State, def: ServerDef)
    requires Integral(st.db) && Linked(st) && ServerStep(st, def).Ok?
    ensures Linked(ServerStep(st, def).value)
  {
    var next := ServerStep(st, def).value;
    ServerStepFinds(st, def);
    forall name | name in next.serverIds ensures ServersNamed(next.db, name) == {next.serverIds[name]} {
      if name != def.name {
        assert name in st.serverIds;
      }
    }
  }

  lemma {:induction false} ServersFound(st: State, defs: seq<ServerDef>)
    requires Integral(st.db) && Linked(st) && ServersSeeded(st, defs).Ok?
    ensures Integral(ServersSeeded(st, defs).value.db) && Linked(ServersSeeded(st, defs).value)
    decreases defs
  {
    if defs != [] {
      ServerStepLinks(st, defs[0]);
      ServerStepKeepsIntegrity(st, defs[0]);
      ServersFound(ServerStep(st, defs[0]).value, defs[1..]);
    }
  }

  lemma {:induction false} ServersFrame(st: State, defs: seq<ServerDef>)
    requires Integral(st.db) && ServersSeeded(st, defs).Ok?
    ensures var end := ServersSeeded(st, defs).value;
      && SameOutsideServers(st.db, end.db) && end.consumerIds == st.consumerIds
      && end.serverIds.Keys == st.serverIds.Keys + ServerNames(defs)
    decreases defs
  {
    if defs != [] {
      ServerStepFinds(st, defs[0]);
      ServerStepKeepsIntegrity(st, defs[0]);
      ServersFrame(ServerStep(st, defs[0]).value, defs[1..]);
      assert defs == [defs[0]] + defs[1..];
      assert ServerNames(defs) == {defs[0].name} + ServerNames(defs[1..]);
    }
  }

  /** When every name has its one server, the phase only collects their ids. */
  lemma {:induction false} ServersAlreadyThere(st: State, defs: seq<ServerDef>, ids: map<string, Id>)
    requires forall name | name in ids :: ServersNamed(st.db, name) == {ids[name]}
    requires ServerNames(defs) <= ids.Keys
    requires forall name | name in st.serverIds :: name in ids && st.serverIds[name] == ids[name]
    ensures ServersSeeded(st, defs).Ok?
    ensures var end := ServersSeeded(st, defs).value;
      && end == st.(serverIds := end.serverIds)
      && end.serverIds.Keys == st.serverIds.Keys + ServerNames(defs)
      && forall name | name in end.serverIds :: name in ids && end.serverIds[name] == ids[name]
    decreases defs
  {
    if defs != [] {
      assert defs[0].name in ServerNames(defs);
      assert defs == [defs[0]] + defs[1..];
      assert ServerNames(defs) == {defs[0].name} + ServerNames(defs[1..]);
      ServersAlreadyThere(ServerStep(st, defs[0]).value, defs[1..], ids);
    }
  }

  // ----- phase 3: consumers -----

  predicate SameOutsideConsumers(a: Store, b: Store) {
    && a.tenants == b.tenants && a.servers == b.servers && a.tools == b.tools
    && a.subscriptions == b.subscriptions && a.accesses == b.accesses && a.catalog == b.catalog
  }

  /** The collected ids are the ids of the demo consumers with these external ids. */
  predicate Matched(db: Store, ids: seq<Id>, externalIds: seq<string>) {
    |ids| == |externalIds| && forall i | 0 <= i < |ids| :: ConsumersWith(db, externalIds[i]) == {ids[i]}
  }

  lemma ConsumerStepFinds(st: State, done: seq<string>, externalId: string)
    requires Integral(st.db) && Matched(st.db, st.consumerIds, done) && ConsumerStep(st, externalId).Ok?
    ensures var next := ConsumerStep(st, externalId).value;
      && Integral(next.db) && SameOutsideConsumers(st.db, next.db) && next.serverIds == st.serverIds
      && Matched(next.db, next.consumerIds, done + [externalId])
  {
    ConsumerStepKeepsIntegrity(st, externalId);
    var next := ConsumerStep(st, externalId).value;
    if ConsumersWith(st.db, externalId) == {} {
      assert st.db.next !in st.db.consumers;
      assert ConsumersWith(next.db, externalId) == {st.db.next};
      forall i | 0 <= i < |done| ensures ConsumersWith(next.db, done[i]) == ConsumersWith(st.db, done[i]) {
        assert st.consumerIds[i] in ConsumersWith(st.db, done[i]);
      }
    }
  }

  lemma {:induction false} ConsumersFound(st: State, done: seq<string>, externalIds: seq<string>)
    requires Integral(st.db) && Matched(st.db, st.consumerIds, done) && ConsumersSeeded(st, externalIds).Ok?
    ensures var end := ConsumersSeeded(st, externalIds).value;
      && Integral(end.db) && SameOutsideConsumers(st.db, end.db) && end.serverIds == st.serverIds
      && Matched(end.db, end.consumerIds, done + externalIds)
    decreases externalIds
  {
    if externalIds == [] {
      assert done + externalIds == done;
    } else {
      var more := done + [externalIds[0]];
      assert more + externalIds[1..] == done + externalIds;
      ConsumerStepFinds(st, done, externalIds[0]);
      ConsumersFound(ConsumerStep(st, externalIds[0]).value, more, externalIds[1..]);
    }
  }

  lemma {:induction false} ConsumersAlreadyThere(st: State, externalIds: seq<string>, ids: seq<Id>)
    requires Matched(st.db, ids, externalIds)
    ensures ConsumersSeeded(st, externalIds) == Ok(st.(consumerIds := st.consumerIds + ids))
    decreases externalIds
  {
    if externalIds == [] {
      assert st.consumerIds + ids == st.consumerIds;
    } else {
      var next := st.(consumerIds := st.consumerIds + [ids[0]]);
      assert ConsumerStep(st, externalIds[0]) == Ok(next);
      ConsumersAlreadyThere(next, externalIds[1..], ids[1..]);
      assert st.consumerIds + [ids[0]] + ids[1..] == st.consumerIds + ids;
    }
  }

  // ----- phase 4: subscriptions -----

  predicate SameOutsideSubscriptions(a: Store, b: Store) {
    && a.tenants == b.tenants && a.servers == b.servers && a.tools == b.tools
    && a.consumers == b.consumers && a.accesses == b.accesses && a.catalog == b.catalog
  }

  /** The wanted subscription is there, once, or is one that is passed over. */
  predicate Subscribed(st: State, def: SubscriptionDef) {
    Passed(st, def) || |SubscriptionsOf(st.db, st.consumerIds[def.consumer], st.serverIds[def.server])| == 1
  }

  lemma SubscriptionStepFinds(st: State, def: SubscriptionDef, other: SubscriptionDef)
    requires Integral(st.db) && Handed(st) && SubscriptionStep(st, def).Ok?
    ensures var next := SubscriptionStep(st, def).value;
      && Integral(next.db) && Handed(next) && SameOutsideSubscriptions(st.db, next.db)
      && next.serverIds == st.serverIds && next.consumerIds == st.consumerIds
      && Subscribed(next, def) && (Subscribed(st, other) ==> Subscribed(next, other))
  {
    SubscriptionStepKeepsIntegrity(st, def);
    var next := SubscriptionStep(st, def).value;
    if !Passed(st, def) {
      var server, consumer := st.serverIds[def.server], st.consumerIds[def.consumer];
      if SubscriptionsOf(st.db, consumer, server) == {} {
        assert st.db.next !in st.db.subscriptions;
        assert SubscriptionsOf(next.db, consumer, server) == {st.db.next};
        if !Passed(st, other) && Subscribed(st, other) {
          var s, c := st.serverIds[other.server], st.consumerIds[other.consumer];
          var id :| id in SubscriptionsOf(st.db, c, s);
          assert SubscriptionsOf(next.db, c, s) == SubscriptionsOf(st.db, c, s);
        }
      }
    }
  }

  lemma {:induction false} SubscriptionsFound(st: State, done: seq<SubscriptionDef>, defs: seq<SubscriptionDef>)
    requires Integral(st.db) && Handed(st) && SubscriptionsSeeded(st, defs).Ok?
    requires forall def | def in done :: Subscribed(st, def)
    ensures var end := SubscriptionsSeeded(st, defs).value;
      && Integral(end.db) && SameOutsideSubscriptions(st.db, end.db)
      && end.serverIds == st.serverIds && end.consumerIds == st.consumerIds
      && forall def | def in done + defs :: Subscribed(end, def)
    decreases defs
  {
    if defs == [] {
      assert done + defs == done;
    } else {
      var next := SubscriptionStep(st, defs[0]).value;
      SubscriptionStepFinds(st, defs[0], defs[0]);
      forall def | def in done + [defs[0]] ensures Subscribed(next, def) {
        SubscriptionStepFinds(st, defs[0], def);
      }
      SubscriptionsFound(next, done + [defs[0]], defs[1..]);
      assert done + [defs[0]] + defs[1..] == done + defs;
    }
  }

  lemma {:induction false} SubscriptionsAlreadyThere(st: State, defs: seq<SubscriptionDef>)
    requires forall def | def in defs :: Subscribed(st, def)
    ensures SubscriptionsSeeded(st, defs) == Ok(st)
    decreases defs
  {
    if defs != [] {
      assert Subscribed(st, defs[0]);
      SubscriptionsAlreadyThere(st, defs[1..]);
    }
  }

  // ----- phase 5: catalog -----

  predicate SameOutsideCatalog(a: Store, b: Store) {
    && a.tenants == b.tenants && a.servers == b.servers && a.tools == b.tools
    && a.consumers == b.consumers && a.subscriptions == b.subscriptions && a.accesses == b.accesses
  }

  predicate Published(db: Store, def: ApiDef) {
    |CatalogRows(db, def.apiId)| == 1
  }

  lemma ApiStepFinds(st: State, def: ApiDef, other: ApiDef)
    requires Integral(st.db) && ApiStep(st, def).Ok?
    ensures var next := ApiStep(st, def).value;
      && Integral(next.db) && SameOutsideCatalog(st.db, next.db)
      && next.serverIds == st.serverIds && next.consumerIds == st.consumerIds
      && Published(next.db, def) && (Published(st.db, other) ==> Published(next.db, other))
  {
    ApiStepKeepsIntegrity(st, def);
    var next := ApiStep(st, def).value;
    if CatalogRows(st.db, def.apiId) == {} {
      assert st.db.next !in st.db.catalog;
      assert CatalogRows(next.db, def.apiId) == {st.db.next};
      if Published(st.db, other) {
        var id :| id in CatalogRows(st.db, other.apiId);
        assert CatalogRows(next.db, other.apiId) == CatalogRows(st.db, other.apiId);
      }
    }
  }

  lemma ApiStepPublishes(st: State, done: seq<ApiDef>, def: ApiDef)
    requires Integral(st.db) && ApiStep(st, def).Ok?
    requires forall d | d in done :: Published(st.db, d)
    ensures forall d | d in done + [def] :: Published(ApiStep(st, def).value.db, d)
  {
    ApiStepFinds(st, def, def);
    forall d | d in done + [def] ensures Published(ApiStep(st, def).value.db, d) {
      ApiStepFinds(st, def, d);
    }
  }

  lemma {:induction false} ApisFound(st: State, done: seq<ApiDef>, defs: seq<ApiDef>)
    requires Integral(st.db) && ApisSeeded(st, defs).Ok?
    requires forall def | def in done :: Published(st.db, def)
    ensures forall def | def in done + defs :: Published(ApisSeeded(st, defs).value.db, def)
    decreases defs
  {
    if defs == [] {
      assert done + defs == done;
    } else {
      ApiStepKeepsIntegrity(st, defs[0]);
      ApiStepPublishes(st, done, defs[0]);
      ApisFound(ApiStep(st, defs[0]).value, done + [defs[0]], defs[1..]);
      assert done + [defs[0]] + defs[1..] == done + defs;
    }
  }

  lemma {:induction false} ApisFrame(st: State, defs: seq<ApiDef>)
    requires Integral(st.db) && ApisSeeded(st, defs).Ok?
    ensures var end := ApisSeeded(st, defs).value;
      && Integral(end.db) && SameOutsideCatalog(st.db, end.db)
      && end.serverIds == st.serverIds && end.consumerIds == st.consumerIds
    decreases defs
  {
    if defs != [] {
      ApiStepFinds(st, defs[0], defs[0]);
      ApisFrame(ApiStep(st, defs[0]).value, defs[1..]);
    }
  }

  lemma {:induction false} ApisAlreadyThere(st: State, defs: seq<ApiDef>)
    requires forall def | def in defs :: Published(st.db, def)
    ensures ApisSeeded(st, defs) == Ok(st)
    decreases defs
  {
    if defs != [] {
      assert Published(st.db, defs[0]);
      ApisAlreadyThere(st, defs[1..]);
    }
  }

  // ----- the whole run -----

  /** The state after the first, second, third and fourth phase of a successful run. */
  function AfterServers(db: Store, defs: Definitions): State
    requires Seeded(db, defs).Ok?
  {
    ServersSeeded(TenantStep(db), defs.servers).value
  }

  function AfterConsumers(db: Store, defs: Definitions): State
    requires Seeded(db, defs).Ok?
  {
    ConsumersSeeded(AfterServers(db, defs), defs.consumers).value
  }

  function AfterSubscriptions(db: Store, defs: Definitions): State
    requires Seeded(db, defs).Ok?
  {
    SubscriptionsSeeded(AfterConsumers(db, defs), defs.subscriptions).value
  }

  /** What a successful run leaves to be found. */
  ghost predicate Complete(end: State, defs: Definitions) {
    && Integral(end.db) && DEMO in end.db.tenants
    && Linked(end) && end.serverIds.Keys == ServerNames(defs.servers)
    && Matched(end.db, end.consumerIds, defs.consumers)
    && (forall def | def in defs.subscriptions :: Subscribed(end, def))
    && (forall def | def in defs.apis :: Published(end.db, def))
  }

  lemma TenantPhase(db: Store)
    requires Integral(db)
    ensures Integral(TenantStep(db).db) && DEMO in TenantStep(db).db.tenants && Linked(TenantStep(db))
  {
    if DEMO !in db.tenants {
      InsertTenantKeepsIntegrity(db);
    }
  }

  lemma LinksStay(a: State, b: State)
    requires Linked(a) && a.db.servers == b.db.servers && a.serverIds == b.serverIds
    ensures Linked(b)
  {
    assert forall name :: ServersNamed(b.db, name) == ServersNamed(a.db, name);
  }

  lemma ServerPhase(db: Store, defs: Definitions)
    requires Integral(db) && Seeded(db, defs).Ok?
    ensures var st := AfterServers(db, defs);
      && Integral(st.db) && DEMO in st.db.tenants && Linked(st)
      && st.serverIds.Keys == ServerNames(defs.servers) && st.consumerIds == []
  {
    TenantPhase(db);
    ServersFound(TenantStep(db), defs.servers);
    ServersFrame(TenantStep(db), defs.servers);
  }

  lemma MatchedAreHanded(st: State, externalIds: seq<string>)
    requires IdsAllocated(st.db) && Matched(st.db, st.consumerIds, externalIds)
    ensures Handed(st)
  {
    forall i | 0 <= i < |st.consumerIds| ensures st.consumerIds[i] < st.db.next {
      assert st.consumerIds[i] in ConsumersWith(st.db, externalIds[i]);
    }
  }

  lemma FirstPhases(db: Store, defs: Definitions)
    requires Integral(db) && Seeded(db, defs).Ok?
    ensures var st := AfterConsumers(db, defs);
      && Integral(st.db) && DEMO in st.db.tenants && Linked(st)
      && st.serverIds.Keys == ServerNames(defs.servers) && Matched(st.db, st.consumerIds, defs.consumers)
  {
    ServerPhase(db, defs);
    assert [] + defs.consumers == defs.consumers;
    ConsumersFound(AfterServers(db, defs), [], defs.consumers);
    LinksStay(AfterServers(db, defs), AfterConsumers(db, defs));
  }

  /** A run that does not fail leaves an integral store in which everything is found. */
  lemma SeedCompletes(db: Store, defs: Definitions)
    requires Integral(db) && Seeded(db, defs).Ok?
    ensures Complete(Seeded(db, defs).value, defs)
  {
    FirstPhases(db, defs);
    MatchedAreHanded(AfterConsumers(db, defs), defs.consumers);
    var st, mid, end := AfterConsumers(db, defs), AfterSubscriptions(db, defs), Seeded(db, defs).value;
    SubscriptionsFound(st, [], defs.subscriptions);
    assert [] + defs.subscriptions == defs.subscriptions;
    ApisFound(mid, [], defs.apis);
    ApisFrame(mid, defs.apis);
    assert [] + defs.apis == defs.apis;
    SameRowsSameAnswers(st, mid, end, defs);
  }

  lemma SameRowsSameAnswers(st: State, mid: State, end: State, defs: Definitions)
    requires SameOutsideSubscriptions(st.db, mid.db) && SameOutsideCatalog(mid.db, end.db)
    requires mid.serverIds == st.serverIds && mid.consumerIds == st.consumerIds
    requires end.serverIds == st.serverIds && end.consumerIds == st.consumerIds
    requires Linked(st) && Matched(st.db, st.consumerIds, defs.consumers)
    requires forall def | def in defs.subscriptions :: Subscribed(mid, def)
    ensures Linked(end) && Matched(end.db, end.consumerIds, defs.consumers)
    ensures forall def | def in defs.subscriptions :: Subscribed(end, def)
  {
    assert forall name :: ServersNamed(end.db, name) == ServersNamed(st.db, name);
    assert forall x :: ConsumersWith(end.db, x) == ConsumersWith(st.db, x);
    assert forall c, s :: SubscriptionsOf(end.db, c, s) == SubscriptionsOf(mid.db, c, s);
  }

  lemma SameIds(db: Store, p: map<string, Id>, q: map<string, Id>)
    requires p.Keys == q.Keys
    requires forall name | name in p :: p[name] == q[name]
    ensures p == q
  {
  }

  /** A run over a store in which everything is found changes nothing. */
  lemma CompleteStoreIsLeftAlone(end: State, defs: Definitions)
    requires Complete(end, defs)
    ensures Seeded(end.db, defs) == Ok(end.(summary := ZERO))
  {
    var start := TenantStep(end.db);
    ServersAlreadyThere(start, defs.servers, end.serverIds);
    var servers := ServersSeeded(start, defs.servers).value;
    SameIds(end.db, servers.serverIds, end.serverIds);
    ConsumersAlreadyThere(servers, defs.consumers, end.consumerIds);
    assert [] + end.consumerIds == end.consumerIds;
    var all := end.(summary := ZERO);
    assert ConsumersSeeded(servers, defs.consumers) == Ok(all);
    forall def | def in defs.subscriptions ensures Subscribed(all, def) {
      assert Subscribed(end, def);
    }
    SubscriptionsAlreadyThere(all, defs.subscriptions);
    ApisAlreadyThere(all, defs.apis);
  }

  /** Seeding is idempotent: after a run that succeeded, a second one succeeds, reports
      zero for everything and leaves the store as it is. */
  lemma SeedingIsIdempotent(db: Store, defs: Definitions)
    requires Integral(db) && Seeded(db, defs).Ok?
    ensures var first := Seeded(db, defs).value;
      Integral(first.db) && Seeded(first.db, defs) == Ok(first.(summary := ZERO))
  {
    SeedCompletes(db, defs);
    CompleteStoreIsLeftAlone(Seeded(db, defs).value, defs);
  }
}

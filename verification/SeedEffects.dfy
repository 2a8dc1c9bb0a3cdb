/** What seeding adds to the store, and what its summary counts. */
module SeedEffects {
  import opened Wrappers
  import opened DemoStore
  import opened DemoSeeder
  import opened SeedLaws

  // ----- only demo rows are added -----

  /** Every row of `a` is a row of `b`. */
  ghost predicate Kept<T(!new)>(a: map<Id, T>, b: map<Id, T>) {
    forall id | id in a :: id in b && b[id] == a[id]
  }

  predicate OnlyDemoAdded(a: set<TenantId>, b: set<TenantId>) {
    a <= b && forall id | id in b && id !in a :: id == DEMO
  }

  /** The rows of `b` that are not in `a` are the demo tenant's. */
  predicate DemoRows(a: Store, b: Store) {
    && (forall id | id in b.servers && id !in a.servers :: b.servers[id].tenant == Some(DEMO))
    && (forall id | id in b.tools && id !in a.tools :: DemoServer(b, b.tools[id].server))
    && (forall id | id in b.consumers && id !in a.consumers :: b.consumers[id].tenant == DEMO)
    && (forall id | id in b.subscriptions && id !in a.subscriptions :: b.subscriptions[id].tenant == DEMO)
    && (forall id | id in b.catalog && id !in a.catalog :: b.catalog[id].tenant == DEMO)
  }

  /** No row of `a` is changed or gone in `b`, and every further row is the demo tenant's. */
  ghost predicate Extends(a: Store, b: Store) {
    && OnlyDemoAdded(a.tenants, b.tenants) && a.accesses == b.accesses && DemoRows(a, b)
    && Kept(a.servers, b.servers) && Kept(a.tools, b.tools) && Kept(a.consumers, b.consumers)
    && Kept(a.subscriptions, b.subscriptions) && Kept(a.catalog, b.catalog)
  }

  lemma ExtendsTransitive(a: Store, b: Store, c: Store)
    requires Extends(a, b) && Extends(b, c)
    ensures Extends(a, c)
  {
  }

  /** The sizes of the tables, the demo tenant being there or not. */
  function Sizes(db: Store): Summary {
    Summary(if DEMO in db.tenants then 1 else 0, |db.servers|, |db.tools|, |db.consumers|, |db.subscriptions|, |db.catalog|)
  }

  function Sum(a: Summary, b: Summary): Summary {
    Summary(a.tenant + b.tenant, a.servers + b.servers, a.tools + b.tools, a.consumers + b.consumers,
            a.subscriptions + b.subscriptions, a.catalog + b.catalog)
  }

  /** Since `base`, rows were only added, and the summary has counted them. */
  ghost predicate Accounted(base: Store, st: State) {
    Extends(base, st.db) && Sizes(st.db) == Sum(Sizes(base), st.summary)
  }

  /** One statement that only adds, and is counted, keeps the account. */
  lemma AccountStep(base: Store, st: State, next: State, one: Summary)
    requires Accounted(base, st) && Extends(st.db, next.db)
    requires Sizes(next.db) == Sum(Sizes(st.db), one) && next.summary == Sum(st.summary, one)
    ensures Accounted(base, next)
  {
    ExtendsTransitive(base, st.db, next.db);
  }

  lemma NothingAdded(db: Store, count: Summary)
    ensures Extends(db, db) && Sum(count, ZERO) == count
  {
  }

  lemma TenantAdds(db: Store)
    requires DEMO !in db.tenants
    ensures Extends(db, InsertTenant(db))
  {
    var after := InsertTenant(db);
    assert OnlyDemoAdded(db.tenants, after.tenants);
    assert DemoRows(db, after);
  }

  lemma TenantCounted(db: Store)
    requires DEMO !in db.tenants
    ensures Sizes(InsertTenant(db)) == Sum(Sizes(db), ZERO.(tenant := 1))
  {
    assert DEMO in InsertTenant(db).tenants;
  }

  lemma TenantAccounted(db: Store)
    ensures Accounted(db, TenantStep(db))
  {
    NothingAdded(db, Sizes(db));
    if DEMO !in db.tenants {
      TenantAdds(db);
      TenantCounted(db);
    }
  }

  /** One row with a new id: the others are kept, and the table is one row longer. */
  lemma RowAdded<T(!new)>(rows: map<Id, T>, id: Id, row: T)
    requires id !in rows
    ensures Kept(rows, rows[id := row]) && |rows[id := row]| == |rows| + 1
  {
    var after := rows[id := row];
    assert after.Keys == rows.Keys + {id} && |after.Keys| == |rows.Keys| + 1;
  }

  lemma ToolAdds(db: Store, row: Tool)
    requires IdsAllocated(db) && InsertTool(db, row).Ok? && db.servers[row.server].tenant == Some(DEMO)
    ensures Extends(db, InsertTool(db, row).value)
    ensures Sizes(InsertTool(db, row).value) == Sum(Sizes(db), ZERO.(tools := 1))
  {
    var after := InsertTool(db, row).value;
    RowAdded(db.tools, db.next, row);
    assert after == db.(tools := db.tools[db.next := row], next := db.next + 1);
    assert DemoRows(db, after);
  }

  lemma ToolAccounted(base: Store, st: State, server: Id, tool: string)
    requires IdsAllocated(st.db) && Accounted(base, st) && ToolStep(st, server, tool).Ok?
    requires server in st.db.servers && st.db.servers[server].tenant == Some(DEMO)
    ensures Accounted(base, ToolStep(st, server, tool).value)
  {
    ToolAdds(st.db, Tool(server, tool));
    NewTool(st, server, tool);
    AccountStep(base, st, ToolStep(st, server, tool).value, ZERO.(tools := 1));
  }

  lemma NewTool(st: State, server: Id, tool: string)
    requires ToolStep(st, server, tool).Ok?
    ensures var insert := InsertTool(st.db, Tool(server, tool));
      insert.Ok? && ToolStep(st, server, tool).value.db == insert.value
    ensures ToolStep(st, server, tool).value.summary == Sum(st.summary, ZERO.(tools := 1))
  {
  }

  lemma {:induction false} ToolsAccounted(base: Store, st: State, server: Id, tools: seq<string>)
    requires Integral(st.db) && Accounted(base, st) && ToolsSeeded(st, server, tools).Ok?
    requires server in st.db.servers && st.db.servers[server].tenant == Some(DEMO)
    ensures Accounted(base, ToolsSeeded(st, server, tools).value) && Integral(ToolsSeeded(st, server, tools).value.db)
    decreases tools
  {
    if tools != [] {
      ToolAccounted(base, st, server, tools[0]);
      InsertToolKeepsIntegrity(st.db, Tool(server, tools[0]));
      ToolsAccounted(base, ToolStep(st, server, tools[0]).value, server, tools[1..]);
    }
  }

  lemma ServerAdds(db: Store, row: Server)
    requires IdsAllocated(db) && InsertServer(db, row).Ok? && row.tenant == Some(DEMO)
    ensures Extends(db, InsertServer(db, row).value)
    ensures Sizes(InsertServer(db, row).value) == Sum(Sizes(db), ZERO.(servers := 1))
  {
    var rows := db.servers[db.next := row];
    RowAdded(db.servers, db.next, row);
    WithServers(db, rows);
    ServersCounted(db, rows);
  }

  lemma WithServers(db: Store, rows: map<Id, Server>)
    requires Kept(db.servers, rows) && forall id | id in rows && id !in db.servers :: rows[id].tenant == Some(DEMO)
    ensures Extends(db, db.(servers := rows, next := db.next + 1))
  {
  }

  lemma ServersCounted(db: Store, rows: map<Id, Server>)
    requires |rows| == |db.servers| + 1
    ensures Sizes(db.(servers := rows, next := db.next + 1)) == Sum(Sizes(db), ZERO.(servers := 1))
  {
  }

  lemma NewServerAccounted(base: Store, st: State, name: string)
    requires IdsAllocated(st.db) && Accounted(base, st) && NewServer(st, name).Ok?
    ensures Accounted(base, NewServer(st, name).value)
  {
    ServerAdds(st.db, Server(name, Some(DEMO)));
    AccountStep(base, st, NewServer(st, name).value, ZERO.(servers := 1));
  }

  lemma {:induction false} ServersAccounted(base: Store, st: State, defs: seq<ServerDef>)
    requires Integral(st.db) && Accounted(base, st) && ServersSeeded(st, defs).Ok?
    ensures Accounted(base, ServersSeeded(st, defs).value) && Integral(ServersSeeded(st, defs).value.db)
    decreases defs
  {
    if defs != [] {
      if ServersNamed(st.db, defs[0].name) == {} {
        NewServerAccounted(base, st, defs[0].name);
        InsertServerKeepsIntegrity(st.db, Server(defs[0].name, Some(DEMO)));
        ToolsAccounted(base, NewServer(st, defs[0].name).value, st.db.next, defs[0].tools);
      }
      ServerStepKeepsIntegrity(st, defs[0]);
      ServersAccounted(base, ServerStep(st, defs[0]).value, defs[1..]);
    }
  }

  lemma ConsumerAdds(db: Store, row: Consumer)
    requires IdsAllocated(db) && InsertConsumer(db, row).Ok? && row.tenant == DEMO
    ensures Extends(db, InsertConsumer(db, row).value)
    ensures Sizes(InsertConsumer(db, row).value) == Sum(Sizes(db), ZERO.(consumers := 1))
  {
    var rows := db.consumers[db.next := row];
    RowAdded(db.consumers, db.next, row);
    WithConsumers(db, rows);
    ConsumersCounted(db, rows);
  }

  lemma WithConsumers(db: Store, rows: map<Id, Consumer>)
    requires Kept(db.consumers, rows) && forall id | id in rows && id !in db.consumers :: rows[id].tenant == DEMO
    ensures Extends(db, db.(consumers := rows, next := db.next + 1))
  {
  }

  lemma ConsumersCounted(db: Store, rows: map<Id, Consumer>)
    requires |rows| == |db.consumers| + 1
    ensures Sizes(db.(consumers := rows, next := db.next + 1)) == Sum(Sizes(db), ZERO.(consumers := 1))
  {
  }

  lemma ConsumerAccounted(base: Store, st: State, externalId: string)
    requires IdsAllocated(st.db) && Accounted(base, st) && ConsumerStep(st, externalId).Ok?
    ensures Accounted(base, ConsumerStep(st, externalId).value)
  {
    if ConsumersWith(st.db, externalId) == {} {
      ConsumerAdds(st.db, Consumer(DEMO, externalId));
      AccountStep(base, st, ConsumerStep(st, externalId).value, ZERO.(consumers := 1));
    }
  }

  lemma {:induction false} ConsumersAccounted(base: Store, st: State, externalIds: seq<string>)
    requires Integral(st.db) && Accounted(base, st) && ConsumersSeeded(st, externalIds).Ok?
    ensures Accounted(base, ConsumersSeeded(st, externalIds).value) && Integral(ConsumersSeeded(st, externalIds).value.db)
    decreases externalIds
  {
    if externalIds != [] {
      ConsumerAccounted(base, st, externalIds[0]);
      ConsumerStepKeepsIntegrity(st, externalIds[0]);
      ConsumersAccounted(base, ConsumerStep(st, externalIds[0]).value, externalIds[1..]);
    }
  }

  lemma SubscriptionAdds(db: Store, row: Subscription)
    requires IdsAllocated(db) && InsertSubscription(db, row).Ok? && row.tenant == DEMO
    ensures Extends(db, InsertSubscription(db, row).value)
    ensures Sizes(InsertSubscription(db, row).value) == Sum(Sizes(db), ZERO.(subscriptions := 1))
  {
    var after := InsertSubscription(db, row).value;
    RowAdded(db.subscriptions, db.next, row);
    assert after == db.(subscriptions := db.subscriptions[db.next := row], next := db.next + 1);
    assert DemoRows(db, after);
  }

  lemma SubscriptionAccounted(base: Store, st: State, def: SubscriptionDef)
    requires IdsAllocated(st.db) && Accounted(base, st) && SubscriptionStep(st, def).Ok?
    ensures Accounted(base, SubscriptionStep(st, def).value)
  {
    if !Passed(st, def) && SubscriptionsOf(st.db, st.consumerIds[def.consumer], st.serverIds[def.server]) == {} {
      SubscriptionAdds(st.db, Subscription(st.serverIds[def.server], st.consumerIds[def.consumer], DEMO));
      NewSubscription(st, def);
      AccountStep(base, st, SubscriptionStep(st, def).value, ZERO.(subscriptions := 1));
    }
  }

  lemma NewSubscription(st: State, def: SubscriptionDef)
    requires !Passed(st, def) && SubscriptionsOf(st.db, st.consumerIds[def.consumer], st.serverIds[def.server]) == {}
    requires SubscriptionStep(st, def).Ok?
    ensures var insert := InsertSubscription(st.db, Subscription(st.serverIds[def.server], st.consumerIds[def.consumer], DEMO));
      insert.Ok? && SubscriptionStep(st, def).value.db == insert.value
    ensures SubscriptionStep(st, def).value.summary == Sum(st.summary, ZERO.(subscriptions := 1))
  {
  }

  lemma {:induction false} SubscriptionsAccounted(base: Store, st: State, defs: seq<SubscriptionDef>)
    requires Integral(st.db) && Handed(st) && Accounted(base, st) && SubscriptionsSeeded(st, defs).Ok?
    ensures Accounted(base, SubscriptionsSeeded(st, defs).value) && Integral(SubscriptionsSeeded(st, defs).value.db)
    decreases defs
  {
    if defs != [] {
      SubscriptionAccounted(base, st, defs[0]);
      SubscriptionStepKeepsIntegrity(st, defs[0]);
      SubscriptionsAccounted(base, SubscriptionStep(st, defs[0]).value, defs[1..]);
    }
  }

  lemma CatalogAdds(db: Store, row: CatalogEntry)
    requires IdsAllocated(db) && InsertCatalog(db, row).Ok? && row.tenant == DEMO
    ensures Extends(db, InsertCatalog(db, row).value)
    ensures Sizes(InsertCatalog(db, row).value) == Sum(Sizes(db), ZERO.(catalog := 1))
  {
    var rows := db.catalog[db.next := row];
    RowAdded(db.catalog, db.next, row);
    WithEntries(db, rows);
    EntriesCounted(db, rows);
  }

  lemma WithEntries(db: Store, rows: map<Id, CatalogEntry>)
    requires Kept(db.catalog, rows) && forall id | id in rows && id !in db.catalog :: rows[id].tenant == DEMO
    ensures Extends(db, db.(catalog := rows, next := db.next + 1))
  {
  }

  lemma EntriesCounted(db: Store, rows: map<Id, CatalogEntry>)
    requires |rows| == |db.catalog| + 1
    ensures Sizes(db.(catalog := rows, next := db.next + 1)) == Sum(Sizes(db), ZERO.(catalog := 1))
  {
  }

  lemma ApiAccounted(base: Store, st: State, def: ApiDef)
    requires IdsAllocated(st.db) && Accounted(base, st) && ApiStep(st, def).Ok?
    ensures Accounted(base, ApiStep(st, def).value)
  {
    if CatalogRows(st.db, def.apiId) == {} {
      CatalogAdds(st.db, CatalogEntry(DEMO, def.apiId, def.name, def.version, false));
      AccountStep(base, st, ApiStep(st, def).value, ZERO.(catalog := 1));
    }
  }

  lemma {:induction false} ApisAccounted(base: Store, st: State, defs: seq<ApiDef>)
    requires Integral(st.db) && Accounted(base, st) && ApisSeeded(st, defs).Ok?
    ensures Accounted(base, ApisSeeded(st, defs).value) && Integral(ApisSeeded(st, defs).value.db)
    decreases defs
  {
    if defs != [] {
      ApiAccounted(base, st, defs[0]);
      ApiStepKeepsIntegrity(st, defs[0]);
      ApisAccounted(base, ApiStep(st, defs[0]).value, defs[1..]);
    }
  }

  /** A successful run changes no row that was there, adds rows of the demo tenant only, and
      its summary says how many went into each table. */
  lemma SeedOnlyAddsDemoRows(db: Store, defs: Definitions)
    requires Integral(db) && Seeded(db, defs).Ok?
    ensures Accounted(db, Seeded(db, defs).value) && Integral(Seeded(db, defs).value.db)
  {
    TenantPhase(db);
    TenantAccounted(db);
    ServersAccounted(db, TenantStep(db), defs.servers);
    ConsumersAccounted(db, AfterServers(db, defs), defs.consumers);
    FirstPhases(db, defs);
    MatchedAreHanded(AfterConsumers(db, defs), defs.consumers);
    SubscriptionsAccounted(db, AfterConsumers(db, defs), defs.subscriptions);
    ApisAccounted(db, AfterSubscriptions(db, defs), defs.apis);
  }

  // ----- no run breaks a foreign key -----

  lemma {:induction false} ToolsFindTheirServer(st: State, server: Id, tools: seq<string>)
    requires server in st.db.servers
    ensures ToolsSeeded(st, server, tools) != Err(ForeignKeyViolation)
    decreases tools
  {
    if tools != [] && ToolStep(st, server, tools[0]).Ok? {
      ToolsFindTheirServer(ToolStep(st, server, tools[0]).value, server, tools[1..]);
    }
  }

  lemma {:induction false} ServersBreakNoKey(st: State, defs: seq<ServerDef>)
    ensures ServersSeeded(st, defs) != Err(ForeignKeyViolation)
    decreases defs
  {
    if defs != [] {
      var created := NewServer(st, defs[0].name);
      if created.Ok? {
        ToolsFindTheirServer(created.value, st.db.next, defs[0].tools);
      }
      if ServerStep(st, defs[0]).Ok? {
        ServersBreakNoKey(ServerStep(st, defs[0]).value, defs[1..]);
      }
    }
  }

  lemma {:induction false} ConsumersBreakNoKey(st: State, externalIds: seq<string>)
    ensures ConsumersSeeded(st, externalIds) != Err(ForeignKeyViolation)
    decreases externalIds
  {
    if externalIds != [] && ConsumerStep(st, externalIds[0]).Ok? {
      ConsumersBreakNoKey(ConsumerStep(st, externalIds[0]).value, externalIds[1..]);
    }
  }

  lemma {:induction false} SubscriptionsBreakNoKey(st: State, defs: seq<SubscriptionDef>)
    requires Linked(st)
    ensures SubscriptionsSeeded(st, defs) != Err(ForeignKeyViolation)
    decreases defs
  {
    if defs != [] {
      if !Passed(st, defs[0]) {
        assert st.serverIds[defs[0].server] in ServersNamed(st.db, defs[0].server);
      }
      if SubscriptionStep(st, defs[0]).Ok? {
        var next := SubscriptionStep(st, defs[0]).value;
        LinksStay(st, next);
        SubscriptionsBreakNoKey(next, defs[1..]);
      }
    }
  }

  lemma {:induction false} ApisBreakNoKey(st: State, defs: seq<ApiDef>)
    ensures ApisSeeded(st, defs) != Err(ForeignKeyViolation)
    decreases defs
  {
    if defs != [] && ApiStep(st, defs[0]).Ok? {
      ApisBreakNoKey(ApiStep(st, defs[0]).value, defs[1..]);
    }
  }

  /** Whatever stops a run, it is never a row that refers to a missing one. */
  lemma SeedingBreaksNoForeignKey(db: Store, defs: Definitions)
    requires Integral(db)
    ensures Seeded(db, defs) != Err(ForeignKeyViolation)
  {
    var start := TenantStep(db);
    TenantPhase(db);
    ServersBreakNoKey(start, defs.servers);
    if ServersSeeded(start, defs.servers).Ok? {
      var servers := ServersSeeded(start, defs.servers).value;
      ServersFound(start, defs.servers);
      ConsumersBreakNoKey(servers, defs.consumers);
      if ConsumersSeeded(servers, defs.consumers).Ok? {
        var consumers := ConsumersSeeded(servers, defs.consumers).value;
        ServersFrame(start, defs.servers);
        ConsumersFound(servers, [], defs.consumers);
        LinksStay(servers, consumers);
        SubscriptionsBreakNoKey(consumers, defs.subscriptions);
        if SubscriptionsSeeded(consumers, defs.subscriptions).Ok? {
          ApisBreakNoKey(SubscriptionsSeeded(consumers, defs.subscriptions).value, defs.apis);
        }
      }
    }
  }
}

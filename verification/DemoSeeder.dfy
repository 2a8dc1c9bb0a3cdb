/** The demo tenant seeder: five phases that look a row up and insert it when it is
    missing, over arbitrary definition lists. */
module DemoSeeder {
  import opened Wrappers
  import opened DemoStore

  datatype ServerDef = ServerDef(name: string, tools: seq<string>)
  datatype SubscriptionDef = SubscriptionDef(consumer: nat, server: string)
  datatype ApiDef = ApiDef(apiId: string, name: string, version: string)

  /** A consumer is known by its external id. */
  datatype Definitions = Definitions(servers: seq<ServerDef>, consumers: seq<string>,
                                     subscriptions: seq<SubscriptionDef>, apis: seq<ApiDef>)

  datatype Summary = Summary(tenant: nat, servers: nat, tools: nat, consumers: nat, subscriptions: nat, catalog: nat)

  const ZERO := Summary(0, 0, 0, 0, 0, 0)

  /** The database and the local variables of the seeder. */
  datatype State = State(db: Store, serverIds: map<string, Id>, consumerIds: seq<Id>, summary: Summary)

  type Step = Result<State, Failure>

  // ----- the phases -----

  function TenantStep(db: Store): State {
    if DEMO in db.tenants then State(db, map[], [], ZERO)
    else State(InsertTenant(db), map[], [], ZERO.(tenant := 1))
  }

  function ToolStep(st: State, server: Id, tool: string): Step {
    var db :- InsertTool(st.db, Tool(server, tool));
    Ok(st.(db := db, summary := st.summary.(tools := st.summary.tools + 1)))
  }

  function ToolsSeeded(st: State, server: Id, tools: seq<string>): Step
    decreases tools
  {
    if tools == [] then Ok(st)
    else
      var next :- ToolStep(st, server, tools[0]);
      ToolsSeeded(next, server, tools[1..])
  }

  /** A new server, before its tools. */
  function NewServer(st: State, name: string): Step {
    var db :- InsertServer(st.db, Server(name, Some(DEMO)));
    Ok(st.(db := db, serverIds := st.serverIds[name := st.db.next], summary := st.summary.(servers := st.summary.servers + 1)))
  }

  function ServerStep(st: State, def: ServerDef): Step {
    var existing :- ScalarOneOrNone(ServersNamed(st.db, def.name));
    if existing.Some? then Ok(st.(serverIds := st.serverIds[def.name := existing.value]))
    else
      var created :- NewServer(st, def.name);
      ToolsSeeded(created, st.db.next, def.tools)
  }

  function ServersSeeded(st: State, defs: seq<ServerDef>): Step
    decreases defs
  {
    if defs == [] then Ok(st)
    else
      var next :- ServerStep(st, defs[0]);
      ServersSeeded(next, defs[1..])
  }

  function ConsumerStep(st: State, externalId: string): Step {
    var existing :- ScalarOneOrNone(ConsumersWith(st.db, externalId));
    if existing.Some? then Ok(st.(consumerIds := st.consumerIds + [existing.value]))
    else
      var db :- InsertConsumer(st.db, Consumer(DEMO, externalId));
      Ok(st.(db := db, consumerIds := st.consumerIds + [st.db.next],
             summary := st.summary.(consumers := st.summary.consumers + 1)))
  }

  function ConsumersSeeded(st: State, externalIds: seq<string>): Step
    decreases externalIds
  {
    if externalIds == [] then Ok(st)
    else
      var next :- ConsumerStep(st, externalIds[0]);
      ConsumersSeeded(next, externalIds[1..])
  }

  /** A subscription to an unknown server or of an unknown consumer is passed over. */
  predicate Passed(st: State, def: SubscriptionDef) {
    def.server !in st.serverIds || def.consumer >= |st.consumerIds|
  }

  function SubscriptionStep(st: State, def: SubscriptionDef): Step {
    if Passed(st, def) then Ok(st)
    else
      var server, consumer := st.serverIds[def.server], st.consumerIds[def.consumer];
      var existing :- ScalarOneOrNone(SubscriptionsOf(st.db, consumer, server));
      if existing.Some? then Ok(st)
      else
        var db :- InsertSubscription(st.db, Subscription(server, consumer, DEMO));
        Ok(st.(db := db, summary := st.summary.(subscriptions := st.summary.subscriptions + 1)))
  }

  function SubscriptionsSeeded(st: State, defs: seq<SubscriptionDef>): Step
    decreases defs
  {
    if defs == [] then Ok(st)
    else
      var next :- SubscriptionStep(st, defs[0]);
      SubscriptionsSeeded(next, defs[1..])
  }

  function ApiStep(st: State, def: ApiDef): Step {
    var existing :- ScalarOneOrNone(CatalogRows(st.db, def.apiId));
    if existing.Some? then Ok(st)
    else
      var db :- InsertCatalog(st.db, CatalogEntry(DEMO, def.apiId, def.name, def.version, false));
      Ok(st.(db := db, summary := st.summary.(catalog := st.summary.catalog + 1)))
  }

  function ApisSeeded(st: State, defs: seq<ApiDef>): Step
    decreases defs
  {
    if defs == [] then Ok(st)
    else
      var next :- ApiStep(st, defs[0]);
      ApisSeeded(next, defs[1..])
  }

  /** `seed_demo_tenant`: the state it ends in, or the database error that stops it. */
  function Seeded(db: Store, defs: Definitions): Step {
    var servers :- ServersSeeded(TenantStep(db), defs.servers);
    var consumers :- ConsumersSeeded(servers, defs.consumers);
    var subscriptions :- SubscriptionsSeeded(consumers, defs.subscriptions);
    ApisSeeded(subscriptions, defs.apis)
  }

  // ----- what each step looks up stays found -----

  /** Every server id that was collected is the id of the one server of that name. */
  predicate Linked(st: State) {
    forall name | name in st.serverIds :: ServersNamed(st.db, name) == {st.serverIds[name]}
  }

  /** The collected consumer ids have been handed out. */
  predicate Handed(st: State) {
    forall id | id in st.consumerIds :: id < st.db.next
  }

  function ServerNames(defs: seq<ServerDef>): set<string> {
    set def | def in defs :: def.name
  }

  /** The tables that a phase does not touch. */
  predicate SameOutsideServers(a: Store, b: Store) {
    && a.tenants == b.tenants && a.consumers == b.consumers && a.subscriptions == b.subscriptions
    && a.accesses == b.accesses && a.catalog == b.catalog
  }

  lemma {:induction false} ToolsFrame(st: State, server: Id, tools: seq<string>)
    requires ToolsSeeded(st, server, tools).Ok?
    ensures var end := ToolsSeeded(st, server, tools).value;
      && SameOutsideServers(st.db, end.db) && end.db.servers == st.db.servers
      && end.serverIds == st.serverIds && end.consumerIds == st.consumerIds
    decreases tools
  {
    if tools != [] {
      ToolsFrame(ToolStep(st, server, tools[0]).value, server, tools[1..]);
    }
  }

  /** After one server definition its name has one server, and the others are as before. */
  lemma ServerStepFinds(st: State, def: ServerDef)
    requires Integral(st.db) && ServerStep(st, def).Ok?
    ensures var end := ServerStep(st, def).value;
      && SameOutsideServers(st.db, end.db) && end.consumerIds == st.consumerIds
      && end.serverIds.Keys == st.serverIds.Keys + {def.name}
      && ServersNamed(end.db, def.name) == {end.serverIds[def.name]}
      && (forall name | name != def.name :: ServersNamed(end.db, name) == ServersNamed(st.db, name))
      && (forall name | name in st.serverIds && name != def.name :: end.serverIds[name] == st.serverIds[name])
      && (|ServersNamed(st.db, def.name)| == 1 ==> ServersNamed(end.db, def.name) == ServersNamed(st.db, def.name))
  {
    if ServersNamed(st.db, def.name) == {} {
      var created := NewServer(st, def.name).value;
      ToolsFrame(created, st.db.next, def.tools);
      assert st.db.next !in st.db.servers;
    }
  }
}

/** The seeding script over one database session: seeding, deletion, the state check, and
    the run that commits or rolls back. */
module DemoSession {
  import opened Wrappers
  import opened DemoStore
  import opened DemoSeeder
  import opened DemoDelete

  datatype Outcome =
    | Checked(counts: Summary)
    | AlreadyThere(counts: Summary)
    | Created(summary: Summary)
    | Stopped(error: Failure)

  /** The seeding of a run that got that far, committed or rolled back. */
  function SeedOn(start: Store, defs: Definitions): (Outcome, Store) {
    match Seeded(start, defs)
    case Ok(end) => (Created(end.summary), end.db)
    case Err(error) => (Stopped(error), start)
  }

  /** What a run reports and what it leaves committed. */
  function RunOn(db: Store, reset: bool, checkOnly: bool, defs: Definitions): (Outcome, Store) {
    if checkOnly then (Checked(DemoCounts(db)), db)
    else if reset then SeedOn(Executed(db, DELETE_ORDER), defs)
    else if DEMO in db.tenants then (AlreadyThere(DemoCounts(db)), db)
    else SeedOn(db, defs)
  }

  /** The demo tenant's rows, table by table. */
  function CountsOf(db: Store): Summary {
    Summary(|db.tenants * {DEMO}|,
            |set id | id in db.servers && db.servers[id].tenant == Some(DEMO)|,
            |set id | id in db.tools && DemoServer(db, db.tools[id].server)|,
            |set id | id in db.consumers && db.consumers[id].tenant == DEMO|,
            |set id | id in db.subscriptions && db.subscriptions[id].tenant == DEMO|,
            |set id | id in db.catalog && db.catalog[id].tenant == DEMO|)
  }

  lemma CountsAreDemoCounts(db: Store)
    ensures DemoCounts(db) == CountsOf(db)
  {
    assert db.tenants * {DEMO} == if DEMO in db.tenants then {DEMO} else {};
    assert DemoServers(db) == set id | id in db.servers && db.servers[id].tenant == Some(DEMO);
    assert ToolsOf(db, DemoServers(db)) == set id | id in db.tools && DemoServer(db, db.tools[id].server);
    assert DemoConsumers(db) == set id | id in db.consumers && db.consumers[id].tenant == DEMO;
    assert DemoSubscriptions(db) == set id | id in db.subscriptions && db.subscriptions[id].tenant == DEMO;
    assert DemoCatalog(db) == set id | id in db.catalog && db.catalog[id].tenant == DEMO;
  }

  /** `db` is what the open transaction sees. */
  class Session {
    var db: Store
    var committed: Store

    constructor (store: Store)
      ensures db == store && committed == store
    {
      db, committed := store, store;
    }

    method Commit()
      modifies this`committed
      ensures committed == db
    {
      committed := db;
    }

    method Rollback()
      modifies this`db
      ensures db == committed
    {
      db := committed;
    }

    method CheckDemoState() returns (counts: Summary)
      ensures counts == DemoCounts(db) == CountsOf(db)
    {
      CountsAreDemoCounts(db);
      counts := Summary(RowCount(db, Tenants), RowCount(db, Servers), RowCount(db, Tools),
                        RowCount(db, Consumers), RowCount(db, Subscriptions), RowCount(db, Catalog));
    }

    method DeleteDemoData() returns (total: nat)
      modifies this`db
      ensures db == Executed(old(db), DELETE_ORDER)
      ensures total == Total(old(db), DELETE_ORDER)
    {
      var order := DELETE_ORDER;
      total := 0;
      for i := 0 to |order|
        invariant Executed(db, order[i..]) == Executed(old(db), order)
        invariant total + Total(db, order[i..]) == Total(old(db), order)
      {
        assert order[i..][1..] == order[i + 1..];
        var deleted := RowCount(db, order[i]);
        db := Execute(db, order[i]);
        if deleted > 0 {
          total := total + deleted;
        }
      }
    }

    // ----- the five phases -----

    method SeedTenant() returns (summary: Summary)
      modifies this`db
      ensures State(db, map[], [], summary) == TenantStep(old(db))
    {
      summary := ZERO;
      if DEMO !in db.tenants {
        db := InsertTenant(db);
        summary := summary.(tenant := 1);
      }
    }

    method SeedTools(server: Id, tools: seq<string>, serverIds: map<string, Id>, before: Summary)
      returns (r: Result<Summary, Failure>)
      modifies this`db
      ensures ToolsSeeded(State(old(db), serverIds, [], before), server, tools)
           == if r.Ok? then Ok(State(db, serverIds, [], r.value)) else Err(r.error)
    {
      ghost var start := State(db, serverIds, [], before);
      var summary := before;
      for i := 0 to |tools|
        invariant ToolsSeeded(start, server, tools)
               == ToolsSeeded(State(db, serverIds, [], summary), server, tools[i..])
      {
        assert tools[i..][1..] == tools[i + 1..];
        var inserted := InsertTool(db, Tool(server, tools[i]));
        if inserted.Err? {
          return Err(inserted.error);
        }
        db := inserted.value;
        summary := summary.(tools := summary.tools + 1);
      }
      return Ok(summary);
    }

    method SeedServers(defs: seq<ServerDef>, before: Summary) returns (r: Result<(map<string, Id>, Summary), Failure>)
      modifies this`db
      ensures ServersSeeded(State(old(db), map[], [], before), defs)
           == if r.Ok? then Ok(State(db, r.value.0, [], r.value.1)) else Err(r.error)
    {
      ghost var start := State(db, map[], [], before);
      var serverIds: map<string, Id>, summary := map[], before;
      for i := 0 to |defs|
        invariant ServersSeeded(start, defs) == ServersSeeded(State(db, serverIds, [], summary), defs[i..])
      {
        assert defs[i..][1..] == defs[i + 1..];
        var def, server := defs[i], db.next;
        var existing := ScalarOneOrNone(ServersNamed(db, def.name));
        if existing.Err? {
          return Err(existing.error);
        }
        ghost var ids := serverIds;
        serverIds := serverIds[def.name := server];
        if existing.value.Some? {
          serverIds := serverIds[def.name := existing.value.value];
          assert serverIds == ids[def.name := existing.value.value];
          continue;
        }
        var inserted := InsertServer(db, Server(def.name, Some(DEMO)));
        if inserted.Err? {
          return Err(inserted.error);
        }
        db := inserted.value;
        summary := summary.(servers := summary.servers + 1);
        var tools := SeedTools(server, def.tools, serverIds, summary);
        if tools.Err? {
          return Err(tools.error);
        }
        summary := tools.value;
      }
      return Ok((serverIds, summary));
    }

    method SeedConsumers(externalIds: seq<string>, serverIds: map<string, Id>, before: Summary)
      returns (r: Result<(seq<Id>, Summary), Failure>)
      modifies this`db
      ensures ConsumersSeeded(State(old(db), serverIds, [], before), externalIds)
           == if r.Ok? then Ok(State(db, serverIds, r.value.0, r.value.1)) else Err(r.error)
    {
      ghost var start := State(db, serverIds, [], before);
      var consumerIds: seq<Id>, summary := [], before;
      for i := 0 to |externalIds|
        invariant ConsumersSeeded(start, externalIds)
               == ConsumersSeeded(State(db, serverIds, consumerIds, summary), externalIds[i..])
      {
        assert externalIds[i..][1..] == externalIds[i + 1..];
        var existing := ScalarOneOrNone(ConsumersWith(db, externalIds[i]));
        if existing.Err? {
          return Err(existing.error);
        }
        if existing.value.Some? {
          consumerIds := consumerIds + [existing.value.value];
          continue;
        }
        consumerIds := consumerIds + [db.next];
        var inserted := InsertConsumer(db, Consumer(DEMO, externalIds[i]));
        if inserted.Err? {
          return Err(inserted.error);
        }
        db := inserted.value;
        summary := summary.(consumers := summary.consumers + 1);
      }
      return Ok((consumerIds, summary));
    }

    method SeedSubscriptions(defs: seq<SubscriptionDef>, serverIds: map<string, Id>, consumerIds: seq<Id>, before: Summary)
      returns (r: Result<Summary, Failure>)
      modifies this`db
      ensures SubscriptionsSeeded(State(old(db), serverIds, consumerIds, before), defs)
           == if r.Ok? then Ok(State(db, serverIds, consumerIds, r.value)) else Err(r.error)
    {
      ghost var start := State(db, serverIds, consumerIds, before);
      var summary := before;
      for i := 0 to |defs|
        invariant SubscriptionsSeeded(start, defs)
               == SubscriptionsSeeded(State(db, serverIds, consumerIds, summary), defs[i..])
      {
        assert defs[i..][1..] == defs[i + 1..];
        var def := defs[i];
        if def.server !in serverIds || def.consumer >= |consumerIds| {
          continue;
        }
        var server, consumer := serverIds[def.server], consumerIds[def.consumer];
        var existing := ScalarOneOrNone(SubscriptionsOf(db, consumer, server));
        if existing.Err? {
          return Err(existing.error);
        }
        if existing.value.Some? {
          continue;
        }
        var inserted := InsertSubscription(db, Subscription(server, consumer, DEMO));
        if inserted.Err? {
          return Err(inserted.error);
        }
        db := inserted.value;
        summary := summary.(subscriptions := summary.subscriptions + 1);
      }
      return Ok(summary);
    }

    method SeedCatalog(defs: seq<ApiDef>, serverIds: map<string, Id>, consumerIds: seq<Id>, before: Summary)
      returns (r: Result<Summary, Failure>)
      modifies this`db
      ensures ApisSeeded(State(old(db), serverIds, consumerIds, before), defs)
           == if r.Ok? then Ok(State(db, serverIds, consumerIds, r.value)) else Err(r.error)
    {
      ghost var start := State(db, serverIds, consumerIds, before);
      var summary := before;
      for i := 0 to |defs|
        invariant ApisSeeded(start, defs) == ApisSeeded(State(db, serverIds, consumerIds, summary), defs[i..])
      {
        assert defs[i..][1..] == defs[i + 1..];
        var def := defs[i];
        var existing := ScalarOneOrNone(CatalogRows(db, def.apiId));
        if existing.Err? {
          return Err(existing.error);
        }
        if existing.value.Some? {
          continue;
        }
        var inserted := InsertCatalog(db, CatalogEntry(DEMO, def.apiId, def.name, def.version, false));
        if inserted.Err? {
          return Err(inserted.error);
        }
        db := inserted.value;
        summary := summary.(catalog := summary.catalog + 1);
      }
      return Ok(summary);
    }

    method SeedDemoTenant(defs: Definitions) returns (r: Result<Summary, Failure>)
      modifies this`db
      ensures r.Ok? <==> Seeded(old(db), defs).Ok?
      ensures r.Ok? ==> db == Seeded(old(db), defs).value.db && r.value == Seeded(old(db), defs).value.summary
      ensures r.Err? ==> Seeded(old(db), defs) == Err(r.error)
    {
      var tenant := SeedTenant();
      var servers :- SeedServers(defs.servers, tenant);
      var consumers :- SeedConsumers(defs.consumers, servers.0, servers.1);
      var subscriptions :- SeedSubscriptions(defs.subscriptions, servers.0, consumers.0, consumers.1);
      r := SeedCatalog(defs.apis, servers.0, consumers.0, subscriptions);
    }

    // ----- one run of the script -----

    /** `run`, on a session in which nothing is pending: an error rolls back what the
        seeding did, but not a deletion, which has been committed by then. */
    method Run(reset: bool, checkOnly: bool, defs: Definitions) returns (outcome: Outcome)
      requires db == committed
      modifies this
      ensures db == committed && (outcome, committed) == RunOn(old(db), reset, checkOnly, defs)
      ensures checkOnly ==> committed == old(committed) && outcome == Checked(CountsOf(committed))
    {
      if checkOnly {
        var counts := CheckDemoState();
        return Checked(counts);
      }
      if reset {
        var deleted := DeleteDemoData();
        Commit();
      }
      var counts := CheckDemoState();
      if counts.tenant > 0 && !reset {
        return AlreadyThere(counts);
      }
      var summary := SeedDemoTenant(defs);
      match summary
      case Ok(created) =>
        Commit();
        return Created(created);
      case Err(error) =>
        Rollback();
        return Stopped(error);
    }
  }
}

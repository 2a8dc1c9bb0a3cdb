/** What holds of whole runs of the demo script, and of sequences of runs. */
module DemoRunLaws {
  import opened DemoStore
  import opened DemoSeeder
  import opened SeedLaws
  import opened SeedEffects
  import opened DemoDelete
  import opened DemoSession

  datatype Request = Request(reset: bool, checkOnly: bool, defs: Definitions)

  function RunAll(db: Store, requests: seq<Request>): Store
    decreases requests
  {
    if requests == [] then db
    else RunAll(RunOn(db, requests[0].reset, requests[0].checkOnly, requests[0].defs).1, requests[1..])
  }

  // ----- integrity over every sequence of runs -----

  lemma SeedOnKeepsIntegrity(start: Store, defs: Definitions)
    requires Integral(start)
    ensures Integral(SeedOn(start, defs).1)
  {
    if Seeded(start, defs).Ok? {
      SeedOnlyAddsDemoRows(start, defs);
    }
  }

  lemma RunKeepsIntegrity(db: Store, reset: bool, checkOnly: bool, defs: Definitions)
    requires Integral(db)
    ensures Integral(RunOn(db, reset, checkOnly, defs).1)
  {
    if reset {
      DeletesKeepIntegrity(db, DELETE_ORDER);
      SeedOnKeepsIntegrity(Executed(db, DELETE_ORDER), defs);
    } else {
      SeedOnKeepsIntegrity(db, defs);
    }
  }

  lemma {:induction false} RunsKeepIntegrity(db: Store, requests: seq<Request>)
    requires Integral(db)
    ensures Integral(RunAll(db, requests))
    decreases requests
  {
    if requests != [] {
      var first := requests[0];
      RunKeepsIntegrity(db, first.reset, first.checkOnly, first.defs);
      RunsKeepIntegrity(RunOn(db, first.reset, first.checkOnly, first.defs).1, requests[1..]);
    }
  }

  // ----- checks -----

  function WithoutChecks(requests: seq<Request>): seq<Request> {
    if requests == [] then []
    else (if requests[0].checkOnly then [] else [requests[0]]) + WithoutChecks(requests[1..])
  }

  /** A check reports the counts and changes nothing, even with a reset. */
  lemma CheckChangesNothing(db: Store, reset: bool, defs: Definitions)
    ensures RunOn(db, reset, true, defs) == (Checked(CountsOf(db)), db)
  {
    CountsAreDemoCounts(db);
  }

  /** Leaving out every check of a sequence of runs leaves the same store in the end. */
  lemma {:induction false} ChecksCanBeLeftOut(db: Store, requests: seq<Request>)
    ensures RunAll(db, requests) == RunAll(db, WithoutChecks(requests))
    decreases requests
  {
    if requests != [] {
      var first, later := requests[0], WithoutChecks(requests[1..]);
      var next := RunOn(db, first.reset, first.checkOnly, first.defs).1;
      ChecksCanBeLeftOut(next, requests[1..]);
      if first.checkOnly {
        CheckChangesNothing(db, first.reset, first.defs);
        assert WithoutChecks(requests) == later;
      } else {
        assert ([first] + later)[1..] == later;
      }
    }
  }

  // ----- running twice -----

  /** After a run that seeded, every run without a reset finds the tenant and changes nothing. */
  lemma LaterRunsFindTheTenant(db: Store, reset: bool, defs: Definitions, again: Definitions)
    requires Integral(db) && RunOn(db, reset, false, defs).0.Created?
    ensures var after := RunOn(db, reset, false, defs).1;
      RunOn(after, false, false, again) == (AlreadyThere(DemoCounts(after)), after)
  {
    if reset {
      DeletesKeepIntegrity(db, DELETE_ORDER);
      SeedCompletes(Executed(db, DELETE_ORDER), defs);
    } else {
      SeedCompletes(db, defs);
    }
  }

  // ----- what a reset reports -----

  lemma NewRows<T>(before: map<Id, T>, after: map<Id, T>, demo: set<Id>)
    requires before.Keys <= after.Keys && demo == after.Keys - before.Keys
    ensures |after| == |before| + |demo|
  {
    assert |after.Keys| == |after| && |before.Keys| == |before|;
    assert before.Keys + demo == after.Keys;
  }

  lemma NoDemoRows(db: Store)
    requires DemoCounts(db) == ZERO
    ensures DEMO !in db.tenants && DemoServers(db) == {} && DemoConsumers(db) == {}
    ensures DemoSubscriptions(db) == {} && DemoCatalog(db) == {}
  {
  }

  /** The store `b` grew out of `a`, which had no rows of the demo tenant. */
  ghost predicate GrewFrom(a: Store, b: Store) {
    ForeignKeys(a) && DemoCounts(a) == ZERO && Extends(a, b)
  }

  lemma NewServers(a: Store, b: Store)
    requires GrewFrom(a, b)
    ensures a.servers.Keys <= b.servers.Keys && DemoServers(b) == b.servers.Keys - a.servers.Keys
  {
    NoDemoRows(a);
    forall id | id in b.servers ensures id in DemoServers(b) <==> id !in a.servers {
      assert id !in DemoServers(a);
    }
  }

  lemma ServersGrow(a: Store, b: Store)
    requires a.servers.Keys <= b.servers.Keys && DemoServers(b) == b.servers.Keys - a.servers.Keys
    ensures Sizes(b).servers == Sizes(a).servers + DemoCounts(b).servers
  {
    NewRows(a.servers, b.servers, DemoServers(b));
  }

  lemma NewTools(a: Store, b: Store)
    requires GrewFrom(a, b)
    ensures a.tools.Keys <= b.tools.Keys && ToolsOf(b, DemoServers(b)) == b.tools.Keys - a.tools.Keys
  {
    NewServers(a, b);
    forall id | id in b.tools ensures id in ToolsOf(b, DemoServers(b)) <==> id !in a.tools {
      assert id in a.tools ==> a.tools[id].server in a.servers;
    }
  }

  lemma ToolsGrow(a: Store, b: Store)
    requires a.tools.Keys <= b.tools.Keys && ToolsOf(b, DemoServers(b)) == b.tools.Keys - a.tools.Keys
    ensures Sizes(b).tools == Sizes(a).tools + DemoCounts(b).tools
  {
    NewRows(a.tools, b.tools, ToolsOf(b, DemoServers(b)));
  }

  lemma NewConsumers(a: Store, b: Store)
    requires GrewFrom(a, b)
    ensures a.consumers.Keys <= b.consumers.Keys && DemoConsumers(b) == b.consumers.Keys - a.consumers.Keys
  {
    NoDemoRows(a);
    forall id | id in b.consumers ensures id in DemoConsumers(b) <==> id !in a.consumers {
      assert id !in DemoConsumers(a);
    }
  }

  lemma ConsumersGrow(a: Store, b: Store)
    requires a.consumers.Keys <= b.consumers.Keys && DemoConsumers(b) == b.consumers.Keys - a.consumers.Keys
    ensures Sizes(b).consumers == Sizes(a).consumers + DemoCounts(b).consumers
  {
    NewRows(a.consumers, b.consumers, DemoConsumers(b));
  }

  lemma NewSubscriptions(a: Store, b: Store)
    requires GrewFrom(a, b)
    ensures a.subscriptions.Keys <= b.subscriptions.Keys && DemoSubscriptions(b) == b.subscriptions.Keys - a.subscriptions.Keys
  {
    NoDemoRows(a);
    forall id | id in b.subscriptions ensures id in DemoSubscriptions(b) <==> id !in a.subscriptions {
      assert id !in DemoSubscriptions(a);
    }
  }

  lemma SubscriptionsGrow(a: Store, b: Store)
    requires a.subscriptions.Keys <= b.subscriptions.Keys && DemoSubscriptions(b) == b.subscriptions.Keys - a.subscriptions.Keys
    ensures Sizes(b).subscriptions == Sizes(a).subscriptions + DemoCounts(b).subscriptions
  {
    NewRows(a.subscriptions, b.subscriptions, DemoSubscriptions(b));
  }

  lemma NewCatalog(a: Store, b: Store)
    requires GrewFrom(a, b)
    ensures a.catalog.Keys <= b.catalog.Keys && DemoCatalog(b) == b.catalog.Keys - a.catalog.Keys
  {
    NoDemoRows(a);
    forall id | id in b.catalog ensures id in DemoCatalog(b) <==> id !in a.catalog {
      assert id !in DemoCatalog(a);
    }
  }

  lemma CatalogGrow(a: Store, b: Store)
    requires a.catalog.Keys <= b.catalog.Keys && DemoCatalog(b) == b.catalog.Keys - a.catalog.Keys
    ensures Sizes(b).catalog == Sizes(a).catalog + DemoCounts(b).catalog
  {
    NewRows(a.catalog, b.catalog, DemoCatalog(b));
  }

  lemma FieldWise(a: Summary, added: Summary, b: Summary, counted: Summary)
    requires b == Sum(a, added) && a.tenant == 0 && b.tenant == counted.tenant
    requires b.servers == a.servers + counted.servers && b.tools == a.tools + counted.tools
    requires b.consumers == a.consumers + counted.consumers
    requires b.subscriptions == a.subscriptions + counted.subscriptions && b.catalog == a.catalog + counted.catalog
    ensures counted == added
  {
  }

  lemma CountsAreSizes(a: Store, st: State)
    requires ForeignKeys(a) && DemoCounts(a) == ZERO && Accounted(a, st)
    ensures DemoCounts(st.db) == st.summary
  {
    assert GrewFrom(a, st.db);
    NewServers(a, st.db);
    ServersGrow(a, st.db);
    NewTools(a, st.db);
    ToolsGrow(a, st.db);
    NewConsumers(a, st.db);
    ConsumersGrow(a, st.db);
    NewSubscriptions(a, st.db);
    SubscriptionsGrow(a, st.db);
    NewCatalog(a, st.db);
    CatalogGrow(a, st.db);
    assert Sizes(a).tenant == DemoCounts(a).tenant && Sizes(st.db).tenant == DemoCounts(st.db).tenant;
    FieldWise(Sizes(a), st.summary, Sizes(st.db), DemoCounts(st.db));
  }

  lemma NothingLeftAfterDeletion(db: Store)
    requires ForeignKeys(db)
    ensures DemoCounts(Executed(db, DELETE_ORDER)) == ZERO
  {
    OrderRunsAll(Subscriptions);
    OrderRunsAll(Servers);
    OrderRunsAll(Consumers);
    OrderRunsAll(Catalog);
    OrderRunsAll(Tenants);
    NothingLeftToCount(db, DELETE_ORDER);
  }

  lemma SeedReportsWhatItLeaves(start: Store, defs: Definitions)
    requires Integral(start) && DemoCounts(start) == ZERO
    ensures var (outcome, after) := SeedOn(start, defs);
      (outcome.Created? && DemoCounts(after) == outcome.summary) || (outcome.Stopped? && DemoCounts(after) == ZERO)
  {
    if Seeded(start, defs).Ok? {
      SeedOnlyAddsDemoRows(start, defs);
      CountsAreSizes(start, Seeded(start, defs).value);
    }
  }

  /** The summary of a run with a reset is what the state check counts afterwards; if the
      seeding fails there is nothing left to count, so a reset is not atomic. */
  lemma ResetReportsWhatItLeaves(db: Store, defs: Definitions)
    requires Integral(db)
    ensures var (outcome, after) := RunOn(db, true, false, defs);
      (outcome.Created? && DemoCounts(after) == outcome.summary) || (outcome.Stopped? && DemoCounts(after) == ZERO)
  {
    DeletesKeepIntegrity(db, DELETE_ORDER);
    NothingLeftAfterDeletion(db);
    SeedReportsWhatItLeaves(Executed(db, DELETE_ORDER), defs);
  }

  // ----- other tenants -----

  lemma ExtensionKeepsOthers(a: Store, b: Store)
    requires ForeignKeys(a) && Extends(a, b)
    ensures OthersKept(a, b)
  {
    assert TablesKept(a, b);
    assert SubscriptionsKept(a, b);
    assert AccessesKept(a, b);
  }

  /** A run without a reset touches no row of another tenant. */
  lemma OtherTenantsAreLeftAlone(db: Store, checkOnly: bool, defs: Definitions)
    requires Integral(db)
    ensures OthersKept(db, RunOn(db, false, checkOnly, defs).1)
  {
    var after := RunOn(db, false, checkOnly, defs).1;
    if after == db {
      NothingAdded(db, ZERO);
      ExtensionKeepsOthers(db, db);
    } else {
      SeedOnlyAddsDemoRows(db, defs);
      ExtensionKeepsOthers(db, after);
    }
  }
}

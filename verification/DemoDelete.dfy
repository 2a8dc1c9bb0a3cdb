/** Deleting the demo tenant: seven statements, over foreign keys that delete in cascade. */
module DemoDelete {
  import opened Wrappers
  import opened DemoStore
  import opened DemoSeeder

  /** The tables a statement deletes the demo tenant's rows from. */
  datatype Statement = Accesses | Subscriptions | Tools | Servers | Consumers | Catalog | Tenants

  const DELETE_ORDER := [Accesses, Subscriptions, Tools, Servers, Consumers, Catalog, Tenants]

  // ----- the rows of the demo tenant -----

  function DemoServers(db: Store): set<Id> { set id | id in db.servers && DemoServer(db, id) }

  function ToolsOf(db: Store, servers: set<Id>): set<Id> { set id | id in db.tools && db.tools[id].server in servers }

  function DemoSubscriptions(db: Store): set<Id> {
    set id | id in db.subscriptions && db.subscriptions[id].tenant == DEMO
  }

  function SubscriptionsTo(db: Store, servers: set<Id>): set<Id> {
    set id | id in db.subscriptions && db.subscriptions[id].server in servers
  }

  function AccessesOf(db: Store, subscriptions: set<Id>): set<Id> {
    set id | id in db.accesses && db.accesses[id].subscription in subscriptions
  }

  function DemoConsumers(db: Store): set<Id> { set id | id in db.consumers && db.consumers[id].tenant == DEMO }

  function DemoCatalog(db: Store): set<Id> { set id | id in db.catalog && db.catalog[id].tenant == DEMO }

  /** `check_demo_state`: how many rows of each of six tables are the demo tenant's. */
  function DemoCounts(db: Store): Summary {
    Summary(if DEMO in db.tenants then 1 else 0, |DemoServers(db)|, |ToolsOf(db, DemoServers(db))|,
            |DemoConsumers(db)|, |DemoSubscriptions(db)|, |DemoCatalog(db)|)
  }

  // ----- one statement -----

  /** The row count that the statement reports: the rows its condition selects, without
      the rows that go with them. */
  function RowCount(db: Store, statement: Statement): nat {
    match statement
    case Accesses => |AccessesOf(db, DemoSubscriptions(db))|
    case Subscriptions => |DemoSubscriptions(db)|
    case Tools => |ToolsOf(db, DemoServers(db))|
    case Servers => |DemoServers(db)|
    case Consumers => |DemoConsumers(db)|
    case Catalog => |DemoCatalog(db)|
    case Tenants => if DEMO in db.tenants then 1 else 0
  }

  function WithoutSubscriptions(db: Store, gone: set<Id>): Store {
    db.(subscriptions := db.subscriptions - gone, accesses := db.accesses - AccessesOf(db, gone))
  }

  function WithoutServers(db: Store, gone: set<Id>): Store {
    var rest := WithoutSubscriptions(db, SubscriptionsTo(db, gone));
    rest.(servers := db.servers - gone, tools := db.tools - ToolsOf(db, gone))
  }

  function Execute(db: Store, statement: Statement): Store {
    match statement
    case Accesses => db.(accesses := db.accesses - AccessesOf(db, DemoSubscriptions(db)))
    case Subscriptions => WithoutSubscriptions(db, DemoSubscriptions(db))
    case Tools => db.(tools := db.tools - ToolsOf(db, DemoServers(db)))
    case Servers => WithoutServers(db, DemoServers(db))
    case Consumers => db.(consumers := db.consumers - DemoConsumers(db))
    case Catalog => db.(catalog := db.catalog - DemoCatalog(db))
    case Tenants => db.(tenants := db.tenants - {DEMO})
  }

  // ----- several statements -----

  function Executed(db: Store, order: seq<Statement>): Store
    decreases order
  {
    if order == [] then db else Executed(Execute(db, order[0]), order[1..])
  }

  /** The total that `delete_demo_data` adds up. */
  function Total(db: Store, order: seq<Statement>): nat
    decreases order
  {
    if order == [] then 0 else RowCount(db, order[0]) + Total(Execute(db, order[0]), order[1..])
  }

  // ----- integrity -----

  /** No statement leaves a row that refers to a missing one, or breaks another constraint,
      whichever statements went before. */
  lemma DeleteKeepsIntegrity(db: Store, statement: Statement)
    requires Integral(db)
    ensures Integral(Execute(db, statement))
  {
    var after := Execute(db, statement);
    assert IdsAllocated(after);
    assert UniqueIndexes(after);
    assert ForeignKeys(after);
  }

  lemma {:induction false} DeletesKeepIntegrity(db: Store, order: seq<Statement>)
    requires Integral(db)
    ensures Integral(Executed(db, order))
    decreases order
  {
    if order != [] {
      DeleteKeepsIntegrity(db, order[0]);
      DeletesKeepIntegrity(Execute(db, order[0]), order[1..]);
    }
  }

  // ----- what is left, whatever the order -----

  /** The subscriptions that are gone once these statements have run. */
  function GoneSubscriptions(db: Store, ran: set<Statement>): set<Id> {
    (if Subscriptions in ran then DemoSubscriptions(db) else {})
    + (if Servers in ran then SubscriptionsTo(db, DemoServers(db)) else {})
  }

  function GoneAccesses(db: Store, ran: set<Statement>): set<Id> {
    AccessesOf(db, GoneSubscriptions(db, ran)) + (if Accesses in ran then AccessesOf(db, DemoSubscriptions(db)) else {})
  }

  /** The rows that are left once these statements have run, in some order. */
  function Purged(db: Store, ran: set<Statement>): Store {
    Store(
      if Tenants in ran then db.tenants - {DEMO} else db.tenants,
      if Servers in ran then db.servers - DemoServers(db) else db.servers,
      if Tools in ran || Servers in ran then db.tools - ToolsOf(db, DemoServers(db)) else db.tools,
      if Consumers in ran then db.consumers - DemoConsumers(db) else db.consumers,
      db.subscriptions - GoneSubscriptions(db, ran),
      db.accesses - GoneAccesses(db, ran),
      if Catalog in ran then db.catalog - DemoCatalog(db) else db.catalog,
      db.next)
  }

  lemma PurgedServers(db: Store, ran: set<Statement>)
    requires ForeignKeys(db)
    ensures var part := Purged(db, ran);
      && (forall id | id in part.tools :: DemoServer(part, part.tools[id].server) <==> DemoServer(db, db.tools[id].server))
      && (Servers !in ran ==> DemoServers(part) == DemoServers(db))
      && (Servers in ran ==> DemoServers(part) == {})
  {
  }

  lemma DroppedTwice<T>(rows: map<Id, T>, a: set<Id>, b: set<Id>, c: set<Id>)
    requires forall id | id in rows :: id in c <==> id in a || (id in rows - a && id in b)
    ensures rows - a - b == rows - c
  {
  }

  /** A further statement adds the demo subscriptions, or those to demo servers, to the
      subscriptions that are gone. */
  lemma GoneGrows(db: Store, ran: set<Statement>, statement: Statement, more: set<Id>)
    requires (statement == Subscriptions && more == DemoSubscriptions(Purged(db, ran)))
      || (statement == Servers && Servers !in ran && more == SubscriptionsTo(Purged(db, ran), DemoServers(db)))
    ensures forall id | id in db.subscriptions ::
      id in GoneSubscriptions(db, ran + {statement}) <==>
        id in GoneSubscriptions(db, ran) || (id in Purged(db, ran).subscriptions && id in more)
  {
  }

  lemma GoneAccessesGrow(db: Store, ran: set<Statement>, statement: Statement, more: set<Id>)
    requires statement == Subscriptions || statement == Servers
    requires forall id | id in db.subscriptions ::
      id in GoneSubscriptions(db, ran + {statement}) <==>
        id in GoneSubscriptions(db, ran) || (id in Purged(db, ran).subscriptions && id in more)
    requires ForeignKeys(db)
    ensures forall id | id in db.accesses ::
      id in GoneAccesses(db, ran + {statement}) <==>
        id in GoneAccesses(db, ran) || (id in Purged(db, ran).accesses && id in AccessesOf(Purged(db, ran), more))
  {
    var part := Purged(db, ran);
    forall id | id in db.accesses
      ensures id in GoneAccesses(db, ran + {statement}) <==>
        id in GoneAccesses(db, ran) || (id in part.accesses && id in AccessesOf(part, more))
    {
      assert db.accesses[id].subscription in db.subscriptions;
    }
  }

  lemma PurgeSubscriptions(db: Store, ran: set<Statement>)
    requires ForeignKeys(db)
    ensures Execute(Purged(db, ran), Subscriptions) == Purged(db, ran + {Subscriptions})
  {
    var part := Purged(db, ran);
    var more, all := DemoSubscriptions(part), ran + {Subscriptions};
    GoneGrows(db, ran, Subscriptions, more);
    GoneAccessesGrow(db, ran, Subscriptions, more);
    DroppedTwice(db.subscriptions, GoneSubscriptions(db, ran), more, GoneSubscriptions(db, all));
    DroppedTwice(db.accesses, GoneAccesses(db, ran), AccessesOf(part, more), GoneAccesses(db, all));
  }

  lemma PurgeAccesses(db: Store, ran: set<Statement>)
    requires ForeignKeys(db)
    ensures Execute(Purged(db, ran), Accesses) == Purged(db, ran + {Accesses})
  {
    var part := Purged(db, ran);
    var more, all := AccessesOf(part, DemoSubscriptions(part)), ran + {Accesses};
    assert GoneSubscriptions(db, all) == GoneSubscriptions(db, ran);
    forall id | id in db.accesses
      ensures id in GoneAccesses(db, all) <==> id in GoneAccesses(db, ran) || (id in part.accesses && id in more)
    {
      assert db.accesses[id].subscription in db.subscriptions;
    }
    DroppedTwice(db.accesses, GoneAccesses(db, ran), more, GoneAccesses(db, all));
  }

  lemma PurgeTools(db: Store, ran: set<Statement>)
    requires ForeignKeys(db)
    ensures Execute(Purged(db, ran), Tools) == Purged(db, ran + {Tools})
  {
    PurgedServers(db, ran);
    var end, all := Execute(Purged(db, ran), Tools), Purged(db, ran + {Tools});
    assert GoneSubscriptions(db, ran + {Tools}) == GoneSubscriptions(db, ran);
    assert end.tools == all.tools;
  }

  lemma NoServersNothingGone(db: Store)
    requires DemoServers(db) == {}
    ensures Execute(db, Servers) == db
  {
    assert ToolsOf(db, {}) == {} && SubscriptionsTo(db, {}) == {} && AccessesOf(db, {}) == {};
  }

  lemma PurgeServersFirst(db: Store, ran: set<Statement>)
    requires ForeignKeys(db) && Servers !in ran
    ensures Execute(Purged(db, ran), Servers) == Purged(db, ran + {Servers})
  {
    var part, gone, all := Purged(db, ran), DemoServers(db), ran + {Servers};
    PurgedServers(db, ran);
    var more := SubscriptionsTo(part, gone);
    GoneGrows(db, ran, Servers, more);
    GoneAccessesGrow(db, ran, Servers, more);
    DroppedTwice(db.subscriptions, GoneSubscriptions(db, ran), more, GoneSubscriptions(db, all));
    DroppedTwice(db.accesses, GoneAccesses(db, ran), AccessesOf(part, more), GoneAccesses(db, all));
    ToolsGoWithServers(db, ran, gone);
  }

  lemma ToolsGoWithServers(db: Store, ran: set<Statement>, gone: set<Id>)
    requires gone == DemoServers(db)
    ensures Purged(db, ran).tools - ToolsOf(Purged(db, ran), gone) == db.tools - ToolsOf(db, gone)
  {
    var part := Purged(db, ran);
    assert forall id | id in part.tools :: id in ToolsOf(part, gone) <==> id in ToolsOf(db, gone);
  }

  lemma PurgeOthers(db: Store, ran: set<Statement>, statement: Statement)
    requires statement in {Consumers, Catalog, Tenants}
    ensures Execute(Purged(db, ran), statement) == Purged(db, ran + {statement})
  {
    assert GoneSubscriptions(db, ran + {statement}) == GoneSubscriptions(db, ran);
    assert GoneAccesses(db, ran + {statement}) == GoneAccesses(db, ran);
  }

  lemma PurgeOne(db: Store, ran: set<Statement>, statement: Statement)
    requires ForeignKeys(db)
    ensures Execute(Purged(db, ran), statement) == Purged(db, ran + {statement})
  {
    match statement
    case Accesses => PurgeAccesses(db, ran);
    case Subscriptions => PurgeSubscriptions(db, ran);
    case Tools => PurgeTools(db, ran);
    case Servers =>
      if Servers in ran {
        PurgedServers(db, ran);
        NoServersNothingGone(Purged(db, ran));
        assert ran + {Servers} == ran;
      } else {
        PurgeServersFirst(db, ran);
      }
    case Consumers => PurgeOthers(db, ran, statement);
    case Catalog => PurgeOthers(db, ran, statement);
    case Tenants => PurgeOthers(db, ran, statement);
  }

  function Ran(order: seq<Statement>): set<Statement> { set statement | statement in order }

  lemma {:induction false} PurgeAll(db: Store, ran: set<Statement>, order: seq<Statement>)
    requires ForeignKeys(db)
    ensures Executed(Purged(db, ran), order) == Purged(db, ran + Ran(order))
    decreases order
  {
    if order == [] {
      assert ran + Ran(order) == ran;
    } else {
      PurgeOne(db, ran, order[0]);
      PurgeAll(db, ran + {order[0]}, order[1..]);
      assert order == [order[0]] + order[1..];
      assert ran + {order[0]} + Ran(order[1..]) == ran + Ran(order);
    }
  }

  lemma NothingPurged(db: Store)
    ensures Purged(db, {}) == db
  {
  }

  /** What is left depends on which statements ran, not on their order or repetition. */
  lemma OrderDoesNotMatter(db: Store, order: seq<Statement>)
    requires ForeignKeys(db)
    ensures Executed(db, order) == Purged(db, Ran(order))
  {
    NothingPurged(db);
    PurgeAll(db, {}, order);
    assert {} + Ran(order) == Ran(order);
  }

  // ----- the whole deletion -----

  /** The statements of `delete_demo_data`. */
  lemma OrderRunsAll(statement: Statement)
    ensures statement in Ran(DELETE_ORDER)
  {
    assert DELETE_ORDER[0] == Accesses && DELETE_ORDER[1] == Subscriptions && DELETE_ORDER[2] == Tools
        && DELETE_ORDER[3] == Servers && DELETE_ORDER[4] == Consumers && DELETE_ORDER[5] == Catalog
        && DELETE_ORDER[6] == Tenants;
  }

  /** Once these five statements have run, in any order, `check_demo_state` counts nothing:
      the other two are implied by the cascades. */
  lemma NothingLeftToCount(db: Store, order: seq<Statement>)
    requires ForeignKeys(db) && {Subscriptions, Servers, Consumers, Catalog, Tenants} <= Ran(order)
    ensures DemoCounts(Executed(db, order)) == ZERO
  {
    OrderDoesNotMatter(db, order);
    var ran := Ran(order);
    var end := Purged(db, ran);
    assert Subscriptions in ran && Servers in ran && Consumers in ran && Catalog in ran && Tenants in ran;
    PurgedServers(db, ran);
    assert ToolsOf(end, {}) == {};
    assert DemoConsumers(end) == {};
    assert DemoSubscriptions(end) == {};
    assert DemoCatalog(end) == {};
  }

  /** Subscriptions of other tenants to servers of the demo tenant. */
  function ForeignSubscriptions(db: Store): set<Id> {
    SubscriptionsTo(db, DemoServers(db)) - DemoSubscriptions(db)
  }

  predicate TablesKept(a: Store, b: Store) {
    && (forall id | id in a.tenants && id != DEMO :: id in b.tenants)
    && (forall id | id in a.servers && !DemoServer(a, id) :: id in b.servers && b.servers[id] == a.servers[id])
    && (forall id | id in a.tools && !DemoServer(a, a.tools[id].server) :: id in b.tools && b.tools[id] == a.tools[id])
    && (forall id | id in a.consumers && a.consumers[id].tenant != DEMO ::
          id in b.consumers && b.consumers[id] == a.consumers[id])
    && (forall id | id in a.catalog && a.catalog[id].tenant != DEMO :: id in b.catalog && b.catalog[id] == a.catalog[id])
  }

  predicate SubscriptionsKept(a: Store, b: Store) {
    forall id | id in a.subscriptions && id !in DemoSubscriptions(a) ::
      id in b.subscriptions && b.subscriptions[id] == a.subscriptions[id]
  }

  predicate AccessesKept(a: Store, b: Store) {
    forall id | id in a.accesses && a.accesses[id].subscription !in DemoSubscriptions(a) ::
      id in b.accesses && b.accesses[id] == a.accesses[id]
  }

  /** Every row of another tenant in `a` is there, and the same, in `b`. */
  predicate OthersKept(a: Store, b: Store) {
    TablesKept(a, b) && SubscriptionsKept(a, b) && AccessesKept(a, b)
  }

  /** No statement, and no cascade, takes a tenant, server, tool, consumer or catalog row
      that is not the demo tenant's. */
  lemma TablesAreKept(db: Store, ran: set<Statement>)
    ensures TablesKept(db, Purged(db, ran))
  {
  }

  lemma SubscriptionsAreKept(db: Store, ran: set<Statement>)
    requires ForeignSubscriptions(db) == {}
    ensures SubscriptionsKept(db, Purged(db, ran)) && AccessesKept(db, Purged(db, ran))
  {
    forall id | id in db.subscriptions && id in GoneSubscriptions(db, ran) ensures id in DemoSubscriptions(db) {
      assert id in DemoSubscriptions(db) || id in ForeignSubscriptions(db);
    }
  }

  /** Deletion touches no row of another tenant exactly when none of them subscribes to a
      server of the demo tenant. */
  lemma OthersKeptIffNoneSubscribes(db: Store)
    requires ForeignKeys(db)
    ensures OthersKept(db, Executed(db, DELETE_ORDER)) <==> ForeignSubscriptions(db) == {}
  {
    OrderDoesNotMatter(db, DELETE_ORDER);
    OrderRunsAll(Servers);
    var ran := Ran(DELETE_ORDER);
    TablesAreKept(db, ran);
    if ForeignSubscriptions(db) == {} {
      SubscriptionsAreKept(db, ran);
    } else {
      var id :| id in ForeignSubscriptions(db);
      assert id in GoneSubscriptions(db, ran);
      assert id in db.subscriptions && id !in Purged(db, ran).subscriptions;
    }
  }

  // ----- the total -----

  function Rows(db: Store): nat {
    |db.tenants| + |db.servers| + |db.tools| + |db.consumers| + |db.subscriptions| + |db.accesses| + |db.catalog|
  }

  /** The rows that go with those that a statement selects. */
  function Cascaded(db: Store, statement: Statement): nat {
    match statement
    case Subscriptions => |AccessesOf(db, DemoSubscriptions(db))|
    case Servers =>
      var subscriptions := SubscriptionsTo(db, DemoServers(db));
      |ToolsOf(db, DemoServers(db))| + |subscriptions| + |AccessesOf(db, subscriptions)|
    case _ => 0
  }

  function CascadedTotal(db: Store, order: seq<Statement>): nat
    decreases order
  {
    if order == [] then 0 else Cascaded(db, order[0]) + CascadedTotal(Execute(db, order[0]), order[1..])
  }

  lemma Dropped<T>(rows: map<Id, T>, gone: set<Id>)
    requires gone <= rows.Keys
    ensures |rows| == |rows - gone| + |gone|
  {
    assert (rows - gone).Keys == rows.Keys - gone;
    assert |rows.Keys| == |rows|;
    assert |(rows - gone).Keys| == |rows - gone|;
  }

  lemma SubscriptionsConserve(db: Store, gone: set<Id>)
    requires gone <= db.subscriptions.Keys
    ensures Rows(db) == Rows(WithoutSubscriptions(db, gone)) + |gone| + |AccessesOf(db, gone)|
  {
    Dropped(db.subscriptions, gone);
    Dropped(db.accesses, AccessesOf(db, gone));
  }

  lemma ServersConserve(db: Store, gone: set<Id>)
    requires gone <= db.servers.Keys
    ensures Rows(db) == Rows(WithoutServers(db, gone)) + |gone| + |ToolsOf(db, gone)|
                        + |SubscriptionsTo(db, gone)| + |AccessesOf(db, SubscriptionsTo(db, gone))|
  {
    SubscriptionsConserve(db, SubscriptionsTo(db, gone));
    Dropped(db.servers, gone);
    Dropped(db.tools, ToolsOf(db, gone));
  }

  lemma TenantsConserve(db: Store)
    ensures Rows(db) == Rows(Execute(db, Tenants)) + RowCount(db, Tenants)
  {
    if DEMO !in db.tenants {
      assert db.tenants - {DEMO} == db.tenants;
    }
  }

  lemma StatementConserves(db: Store, statement: Statement)
    ensures Rows(db) == Rows(Execute(db, statement)) + RowCount(db, statement) + Cascaded(db, statement)
  {
    match statement
    case Accesses => Dropped(db.accesses, AccessesOf(db, DemoSubscriptions(db)));
    case Subscriptions => SubscriptionsConserve(db, DemoSubscriptions(db));
    case Tools => Dropped(db.tools, ToolsOf(db, DemoServers(db)));
    case Servers => ServersConserve(db, DemoServers(db));
    case Consumers => Dropped(db.consumers, DemoConsumers(db));
    case Catalog => Dropped(db.catalog, DemoCatalog(db));
    case Tenants => TenantsConserve(db);
  }

  /** Whatever the order, every row is left, counted, or gone by a cascade. */
  lemma {:induction false} RowsAreConserved(db: Store, order: seq<Statement>)
    ensures Rows(db) == Rows(Executed(db, order)) + Total(db, order) + CascadedTotal(db, order)
    decreases order
  {
    if order != [] {
      StatementConserves(db, order[0]);
      RowsAreConserved(Execute(db, order[0]), order[1..]);
    }
  }

  lemma CascadeOfSubscriptions(db: Store, ran: set<Statement>)
    requires Accesses in ran
    ensures Cascaded(Purged(db, ran), Subscriptions) == 0
  {
    var part := Purged(db, ran);
    assert AccessesOf(part, DemoSubscriptions(part)) == {};
  }

  lemma BeforeServers(db: Store, ran: set<Statement>)
    requires Subscriptions in ran && Servers !in ran
    ensures Purged(db, ran).subscriptions == db.subscriptions - DemoSubscriptions(db)
    ensures Purged(db, ran).accesses == db.accesses - AccessesOf(db, DemoSubscriptions(db))
  {
    assert GoneSubscriptions(db, ran) == DemoSubscriptions(db);
    assert GoneAccesses(db, ran) == AccessesOf(db, DemoSubscriptions(db));
  }

  lemma ForeignAreLeft(db: Store, part: Store)
    requires part.subscriptions == db.subscriptions - DemoSubscriptions(db)
    requires part.accesses == db.accesses - AccessesOf(db, DemoSubscriptions(db))
    ensures SubscriptionsTo(part, DemoServers(db)) == ForeignSubscriptions(db)
    ensures AccessesOf(part, ForeignSubscriptions(db)) == AccessesOf(db, ForeignSubscriptions(db))
  {
  }

  lemma ToolsAreGone(db: Store, part: Store, servers: set<Id>)
    requires part.tools == db.tools - ToolsOf(db, servers)
    ensures ToolsOf(part, servers) == {}
  {
  }

  lemma CascadeOn(part: Store, servers: set<Id>, foreign: set<Id>)
    requires DemoServers(part) == servers && ToolsOf(part, servers) == {} && SubscriptionsTo(part, servers) == foreign
    ensures Cascaded(part, Servers) == |foreign| + |AccessesOf(part, foreign)|
  {
  }

  lemma CascadeOfServers(db: Store, ran: set<Statement>)
    requires ForeignKeys(db) && Tools in ran && Subscriptions in ran && Servers !in ran
    ensures Cascaded(Purged(db, ran), Servers) == |ForeignSubscriptions(db)| + |AccessesOf(db, ForeignSubscriptions(db))|
  {
    var part := Purged(db, ran);
    BeforeServers(db, ran);
    ForeignAreLeft(db, part);
    PurgedServers(db, ran);
    ToolsAreGone(db, part, DemoServers(db));
    CascadeOn(part, DemoServers(db), ForeignSubscriptions(db));
  }

  lemma FirstStatements(db: Store)
    requires ForeignKeys(db)
    ensures Execute(db, Accesses) == Purged(db, {Accesses})
    ensures Execute(Purged(db, {Accesses}), Subscriptions) == Purged(db, {Accesses, Subscriptions})
    ensures Execute(Purged(db, {Accesses, Subscriptions}), Tools) == Purged(db, {Accesses, Subscriptions, Tools})
    ensures Execute(Purged(db, {Accesses, Subscriptions, Tools}), Servers)
         == Purged(db, {Accesses, Subscriptions, Tools, Servers})
  {
    NothingPurged(db);
    PurgeOne(db, {}, Accesses);
    assert {} + {Accesses} == {Accesses};
    PurgeOne(db, {Accesses}, Subscriptions);
    assert {Accesses} + {Subscriptions} == {Accesses, Subscriptions};
    PurgeOne(db, {Accesses, Subscriptions}, Tools);
    assert {Accesses, Subscriptions} + {Tools} == {Accesses, Subscriptions, Tools};
    PurgeOne(db, {Accesses, Subscriptions, Tools}, Servers);
    assert {Accesses, Subscriptions, Tools} + {Servers} == {Accesses, Subscriptions, Tools, Servers};
  }

  lemma {:induction false} NoCascade(db: Store, order: seq<Statement>)
    requires Servers !in order && Subscriptions !in order
    ensures CascadedTotal(db, order) == 0
    decreases order
  {
    if order != [] {
      assert order[0] in order;
      NoCascade(Execute(db, order[0]), order[1..]);
    }
  }

  lemma CascadesInSteps(db: Store, one: Store, two: Store, three: Store, four: Store)
    requires Execute(db, Accesses) == one && Execute(one, Subscriptions) == two
    requires Execute(two, Tools) == three && Execute(three, Servers) == four
    ensures CascadedTotal(db, DELETE_ORDER) == Cascaded(one, Subscriptions) + Cascaded(three, Servers)
  {
    var order := DELETE_ORDER;
    assert order[1..][1..] == order[2..] && order[2..][1..] == order[3..] && order[3..][1..] == order[4..];
    assert CascadedTotal(db, order) == CascadedTotal(one, order[1..]);
    assert CascadedTotal(one, order[1..]) == Cascaded(one, Subscriptions) + CascadedTotal(two, order[2..]);
    assert CascadedTotal(two, order[2..]) == CascadedTotal(three, order[3..]);
    assert CascadedTotal(three, order[3..]) == Cascaded(three, Servers) + CascadedTotal(four, order[4..]);
    NoCascade(four, order[4..]);
  }

  /** In the order of `delete_demo_data` only the subscriptions of other tenants, with their
      accesses, go by a cascade. */
  lemma CascadesOfTheOrder(db: Store)
    requires ForeignKeys(db)
    ensures CascadedTotal(db, DELETE_ORDER) == |ForeignSubscriptions(db)| + |AccessesOf(db, ForeignSubscriptions(db))|
  {
    var one, two := Purged(db, {Accesses}), Purged(db, {Accesses, Subscriptions});
    var three, four := Purged(db, {Accesses, Subscriptions, Tools}), Purged(db, {Accesses, Subscriptions, Tools, Servers});
    FirstStatements(db);
    CascadesInSteps(db, one, two, three, four);
    CascadeOfSubscriptions(db, {Accesses});
    CascadeOfServers(db, {Accesses, Subscriptions, Tools});
  }

  /** The total that is reported is the number of rows that are gone exactly when no other
      tenant subscribes to a server of the demo tenant; otherwise it is short by those
      subscriptions and their accesses. */
  lemma TotalIsRowsRemoved(db: Store)
    requires ForeignKeys(db)
    ensures Rows(db) - Rows(Executed(db, DELETE_ORDER))
         == Total(db, DELETE_ORDER) + |ForeignSubscriptions(db)| + |AccessesOf(db, ForeignSubscriptions(db))|
    ensures Total(db, DELETE_ORDER) == Rows(db) - Rows(Executed(db, DELETE_ORDER)) <==> ForeignSubscriptions(db) == {}
  {
    RowsAreConserved(db, DELETE_ORDER);
    CascadesOfTheOrder(db);
    if ForeignSubscriptions(db) == {} {
      assert AccessesOf(db, {}) == {};
    } else {
      assert |ForeignSubscriptions(db)| > 0;
    }
  }

  lemma ForeignSubscriptionsGo(db: Store)
    requires ForeignKeys(db) && ForeignSubscriptions(db) != {}
    ensures !OthersKept(db, Executed(db, DELETE_ORDER))
    ensures Total(db, DELETE_ORDER) < Rows(db) - Rows(Executed(db, DELETE_ORDER))
  {
    OthersKeptIffNoneSubscribes(db);
    TotalIsRowsRemoved(db);
    assert |ForeignSubscriptions(db)| > 0;
  }

  /** A demo server with a subscription of another tenant. */
  function SharedServer(other: TenantId, name: string): Store {
    Store({DEMO, other}, map[0 := Server(name, Some(DEMO))], map[], map[], map[1 := Subscription(0, 0, other)],
          map[], map[], 2)
  }

  lemma SharedServerIsForeign(other: TenantId, name: string)
    requires other != DEMO
    ensures Integral(SharedServer(other, name)) && ForeignSubscriptions(SharedServer(other, name)) == {1}
  {
    var db := SharedServer(other, name);
    assert DemoServer(db, 0) && 1 in SubscriptionsTo(db, DemoServers(db));
  }

  /** The subscription of the other tenant goes with the server, and is not counted. */
  lemma ForeignSubscriptionGoes(other: TenantId, name: string)
    requires other != DEMO
    ensures var db := SharedServer(other, name);
      && Integral(db) && !OthersKept(db, Executed(db, DELETE_ORDER))
      && Total(db, DELETE_ORDER) < Rows(db) - Rows(Executed(db, DELETE_ORDER))
  {
    var db := SharedServer(other, name);
    SharedServerIsForeign(other, name);
    assert 1 in ForeignSubscriptions(db);
    ForeignSubscriptionsGo(db);
  }
}

/** The tables that the demo seeder works on, with their keys, their unique indexes and
    their foreign keys, all of which delete in cascade. */
module DemoStore {
  import opened Wrappers

  type Id = nat

  /** The id of the demo tenant, or that of another tenant. */
  datatype TenantId = DEMO | Other(id: string)

  datatype Server = Server(name: string, tenant: Option<TenantId>)
  datatype Tool = Tool(server: Id, name: string)
  datatype Consumer = Consumer(tenant: TenantId, externalId: string)
  datatype Subscription = Subscription(server: Id, subscriber: Id, tenant: TenantId)
  datatype Access = Access(subscription: Id)
  datatype CatalogEntry = CatalogEntry(tenant: TenantId, apiId: string, name: string, version: string, deleted: bool)

  /** Row ids below `next` have been handed out, and only those occur anywhere; the next one
      is fresh. */
  datatype Store = Store(
    tenants: set<TenantId>, servers: map<Id, Server>, tools: map<Id, Tool>, consumers: map<Id, Consumer>,
    subscriptions: map<Id, Subscription>, accesses: map<Id, Access>, catalog: map<Id, CatalogEntry>, next: Id)

  datatype Failure = ManyRows | UniqueViolation | ForeignKeyViolation

  // ----- constraints -----

  predicate IdsAllocated(db: Store) {
    && (forall id | id in db.servers :: id < db.next) && (forall id | id in db.tools :: id < db.next)
    && (forall id | id in db.consumers :: id < db.next) && (forall id | id in db.subscriptions :: id < db.next)
    && (forall id | id in db.accesses :: id < db.next) && (forall id | id in db.catalog :: id < db.next)
    && (forall id | id in db.subscriptions :: db.subscriptions[id].subscriber < db.next)
  }

  predicate ForeignKeys(db: Store) {
    && (forall id | id in db.tools :: db.tools[id].server in db.servers)
    && (forall id | id in db.subscriptions :: db.subscriptions[id].server in db.servers)
    && (forall id | id in db.accesses :: db.accesses[id].subscription in db.subscriptions)
  }

  predicate UniqueServers(rows: map<Id, Server>) {
    forall i, j | i in rows && j in rows && i != j :: rows[i].name != rows[j].name
  }

  predicate UniqueRows<T(==)>(rows: map<Id, T>) {
    forall i, j | i in rows && j in rows && i != j :: rows[i] != rows[j]
  }

  /** Two live catalog rows of one tenant share their API id, or their name and version. */
  predicate Conflicting(a: CatalogEntry, b: CatalogEntry) {
    && !a.deleted && !b.deleted && a.tenant == b.tenant
    && (a.apiId == b.apiId || (a.name == b.name && a.version == b.version))
  }

  predicate UniqueCatalog(rows: map<Id, CatalogEntry>) {
    forall i, j | i in rows && j in rows && i != j :: !Conflicting(rows[i], rows[j])
  }

  predicate UniqueIndexes(db: Store) {
    UniqueServers(db.servers) && UniqueRows(db.tools) && UniqueRows(db.consumers) && UniqueCatalog(db.catalog)
  }

  predicate Integral(db: Store) {
    IdsAllocated(db) && ForeignKeys(db) && UniqueIndexes(db)
  }

  // ----- SELECT -----

  predicate DemoServer(db: Store, id: Id) {
    id in db.servers && db.servers[id].tenant == Some(DEMO)
  }

  function ServersNamed(db: Store, name: string): set<Id> {
    set id | id in db.servers && db.servers[id].name == name
  }

  function ConsumersWith(db: Store, externalId: string): set<Id> {
    set id | id in db.consumers && db.consumers[id] == Consumer(DEMO, externalId)
  }

  function SubscriptionsOf(db: Store, subscriber: Id, server: Id): set<Id> {
    set id | id in db.subscriptions && db.subscriptions[id] == Subscription(server, subscriber, DEMO)
  }

  function CatalogRows(db: Store, apiId: string): set<Id> {
    set id | id in db.catalog && db.catalog[id].tenant == DEMO && db.catalog[id].apiId == apiId
  }

  lemma SingletonHasOne(ids: set<Id>)
    requires |ids| == 1
    ensures forall a, b | a in ids && b in ids :: a == b
    ensures forall a | a in ids :: ids == {a}
  {
    forall a | a in ids ensures ids == {a} {
      assert |ids - {a}| == 0;
      assert ids - {a} == {};
    }
  }

  /** `scalar_one_or_none()`, which raises an error on more than one row. */
  function ScalarOneOrNone(ids: set<Id>): (r: Result<Option<Id>, Failure>)
    ensures r == Ok(None) <==> ids == {}
    ensures forall id :: r == Ok(Some(id)) <==> ids == {id}
    ensures r.Err? <==> |ids| > 1
  {
    if |ids| > 1 then Err(ManyRows)
    else if ids == {} then Ok(None)
    else
      assert |ids| == 1;
      SingletonHasOne(ids);
      var id :| id in ids;
      Ok(Some(id))
  }

  // ----- INSERT -----

  function InsertTenant(db: Store): Store {
    db.(tenants := db.tenants + {DEMO})
  }

  function InsertServer(db: Store, row: Server): Result<Store, Failure> {
    if exists id | id in db.servers :: db.servers[id].name == row.name then Err(UniqueViolation)
    else Ok(db.(servers := db.servers[db.next := row], next := db.next + 1))
  }

  function InsertTool(db: Store, row: Tool): Result<Store, Failure> {
    if row.server !in db.servers then Err(ForeignKeyViolation)
    else if exists id | id in db.tools :: db.tools[id] == row then Err(UniqueViolation)
    else Ok(db.(tools := db.tools[db.next := row], next := db.next + 1))
  }

  function InsertConsumer(db: Store, row: Consumer): Result<Store, Failure> {
    if exists id | id in db.consumers :: db.consumers[id] == row then Err(UniqueViolation)
    else Ok(db.(consumers := db.consumers[db.next := row], next := db.next + 1))
  }

  function InsertSubscription(db: Store, row: Subscription): Result<Store, Failure> {
    if row.server !in db.servers then Err(ForeignKeyViolation)
    else Ok(db.(subscriptions := db.subscriptions[db.next := row], next := db.next + 1))
  }

  function InsertCatalog(db: Store, row: CatalogEntry): Result<Store, Failure> {
    if exists id | id in db.catalog :: Conflicting(db.catalog[id], row) then Err(UniqueViolation)
    else Ok(db.(catalog := db.catalog[db.next := row], next := db.next + 1))
  }

  // ----- no INSERT statement breaks a constraint -----

  lemma InsertTenantKeepsIntegrity(db: Store)
    requires Integral(db)
    ensures Integral(InsertTenant(db))
  {
  }

  lemma InsertServerKeepsIntegrity(db: Store, row: Server)
    requires Integral(db) && InsertServer(db, row).Ok?
    ensures Integral(InsertServer(db, row).value)
  {
    var after := InsertServer(db, row).value;
    assert ForeignKeys(after);
    assert UniqueIndexes(after);
  }

  lemma InsertToolKeepsIntegrity(db: Store, row: Tool)
    requires Integral(db) && InsertTool(db, row).Ok?
    ensures Integral(InsertTool(db, row).value)
  {
    var after := InsertTool(db, row).value;
    assert ForeignKeys(after);
    assert UniqueIndexes(after);
  }

  lemma InsertConsumerKeepsIntegrity(db: Store, row: Consumer)
    requires Integral(db) && InsertConsumer(db, row).Ok?
    ensures Integral(InsertConsumer(db, row).value)
  {
    var after := InsertConsumer(db, row).value;
    assert ForeignKeys(after);
    assert UniqueIndexes(after);
  }

  lemma InsertSubscriptionKeepsIntegrity(db: Store, row: Subscription)
    requires Integral(db) && InsertSubscription(db, row).Ok? && row.subscriber < db.next
    ensures Integral(InsertSubscription(db, row).value)
  {
    var after := InsertSubscription(db, row).value;
    assert ForeignKeys(after);
    assert UniqueIndexes(after);
  }

  lemma InsertCatalogKeepsIntegrity(db: Store, row: CatalogEntry)
    requires Integral(db) && InsertCatalog(db, row).Ok?
    ensures Integral(InsertCatalog(db, row).value)
  {
    var after := InsertCatalog(db, row).value;
    assert ForeignKeys(after);
    assert UniqueIndexes(after);
  }
}

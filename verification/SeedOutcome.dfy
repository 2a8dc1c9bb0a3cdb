/** Exactly when seeding succeeds. */
module SeedOutcome {
  import opened Wrappers
  import opened DemoStore
  import opened DemoSeeder
  import opened SeedLaws
  import opened SeedEffects
  import opened DemoDelete
  import opened DemoSession
  import opened DemoRunLaws

  predicate NoRepeats(names: seq<string>) {
    forall i, j | 0 <= i < j < |names| :: names[i] != names[j]
  }

  // ----- servers and their tools -----

  function ToolNames(db: Store, server: Id): set<string> {
    set id | id in db.tools && db.tools[id].server == server :: db.tools[id].name
  }

  lemma ToolStepIff(st: State, server: Id, tool: string)
    requires server in st.db.servers
    ensures ToolStep(st, server, tool).Ok? <==> tool !in ToolNames(st.db, server)
  {
  }

  lemma ToolStepNames(st: State, server: Id, tool: string)
    requires IdsAllocated(st.db) && ToolStep(st, server, tool).Ok?
    ensures ToolNames(ToolStep(st, server, tool).value.db, server) == ToolNames(st.db, server) + {tool}
  {
    var next := ToolStep(st, server, tool).value.db;
    assert st.db.next !in st.db.tools;
    assert next.tools[st.db.next] == Tool(server, tool);
    forall name ensures name in ToolNames(next, server) <==> name in ToolNames(st.db, server) + {tool} {
      if name in ToolNames(st.db, server) {
        var id :| id in st.db.tools && st.db.tools[id].server == server && st.db.tools[id].name == name;
        assert id in next.tools && next.tools[id] == st.db.tools[id];
      }
    }
  }

  lemma {:induction false} ToolsIff(st: State, server: Id, tools: seq<string>)
    requires Integral(st.db) && server in st.db.servers
    ensures ToolsSeeded(st, server, tools).Ok? <==>
      NoRepeats(tools) && forall i | 0 <= i < |tools| :: tools[i] !in ToolNames(st.db, server)
    decreases tools
  {
    if tools != [] {
      ToolStepIff(st, server, tools[0]);
      if ToolStep(st, server, tools[0]).Ok? {
        var next := ToolStep(st, server, tools[0]).value;
        InsertToolKeepsIntegrity(st.db, Tool(server, tools[0]));
        ToolStepNames(st, server, tools[0]);
        ToolsIff(next, server, tools[1..]);
        FreshTail(tools, ToolNames(st.db, server));
      }
    }
  }

  lemma FreshTail(names: seq<string>, taken: set<string>)
    requires names != [] && names[0] !in taken
    ensures (NoRepeats(names[1..]) && forall i | 0 <= i < |names[1..]| :: names[1..][i] !in taken + {names[0]}) <==>
      (NoRepeats(names) && forall i | 0 <= i < |names| :: names[i] !in taken)
  {
    var rest := names[1..];
    if NoRepeats(rest) && forall i | 0 <= i < |rest| :: rest[i] !in taken + {names[0]} {
      forall i, j | 0 <= i < j < |names| ensures names[i] != names[j] {
        assert names[j] == rest[j - 1];
        assert i > 0 ==> names[i] == rest[i - 1];
      }
      forall i | 0 <= i < |names| ensures names[i] !in taken {
        assert i > 0 ==> names[i] == rest[i - 1];
      }
    }
    if NoRepeats(names) && forall i | 0 <= i < |names| :: names[i] !in taken {
      forall i | 0 <= i < |rest| ensures rest[i] !in taken + {names[0]} {
        assert rest[i] == names[i + 1];
      }
    }
  }

  /** The definition is the first of its name, and the store has no server of that name. */
  predicate IsNew(db: Store, defs: seq<ServerDef>, i: nat)
    requires i < |defs|
  {
    ServersNamed(db, defs[i].name) == {} && forall k | 0 <= k < i :: defs[k].name != defs[i].name
  }

  /** Every server that has to be created has tools of different names. */
  predicate ToolsDiffer(db: Store, defs: seq<ServerDef>) {
    forall i | 0 <= i < |defs| && IsNew(db, defs, i) :: NoRepeats(defs[i].tools)
  }

  lemma OneServerOfAName(db: Store, name: string)
    requires Integral(db)
    ensures |ServersNamed(db, name)| <= 1
  {
    if ServersNamed(db, name) != {} {
      var id :| id in ServersNamed(db, name);
      assert ServersNamed(db, name) == {id};
    }
  }

  lemma ServerStepIff(st: State, def: ServerDef)
    requires Integral(st.db)
    ensures ServerStep(st, def).Ok? <==> ServersNamed(st.db, def.name) != {} || NoRepeats(def.tools)
  {
    OneServerOfAName(st.db, def.name);
    if ServersNamed(st.db, def.name) == {} {
      assert forall id | id in st.db.servers :: id !in ServersNamed(st.db, def.name);
      InsertServerKeepsIntegrity(st.db, Server(def.name, Some(DEMO)));
      var created := NewServer(st, def.name).value;
      assert ToolNames(created.db, st.db.next) == {} by {
        assert st.db.next !in st.db.servers;
      }
      ToolsIff(created, st.db.next, def.tools);
    }
  }

  lemma {:induction false} ServersIff(st: State, defs: seq<ServerDef>)
    requires Integral(st.db)
    ensures ServersSeeded(st, defs).Ok? <==> ToolsDiffer(st.db, defs)
    decreases defs
  {
    if defs != [] {
      ServerStepIff(st, defs[0]);
      if ServerStep(st, defs[0]).Ok? {
        var next := ServerStep(st, defs[0]).value;
        ServerStepKeepsIntegrity(st, defs[0]);
        ServerStepFinds(st, defs[0]);
        ServersIff(next, defs[1..]);
        ToolsDifferTail(st.db, next.db, defs);
      } else {
        assert IsNew(st.db, defs, 0);
      }
    }
  }

  lemma ToolsDifferTail(db: Store, next: Store, defs: seq<ServerDef>)
    requires defs != [] && ServersNamed(next, defs[0].name) != {}
    requires forall name | name != defs[0].name :: ServersNamed(next, name) == ServersNamed(db, name)
    requires ServersNamed(db, defs[0].name) != {} || NoRepeats(defs[0].tools)
    ensures ToolsDiffer(next, defs[1..]) <==> ToolsDiffer(db, defs)
  {
    var rest := defs[1..];
    forall i | 0 < i < |defs| ensures IsNew(db, defs, i) <==> IsNew(next, rest, i - 1) {
      assert rest[i - 1] == defs[i];
      assert forall k | 0 <= k < i - 1 :: rest[k] == defs[k + 1];
      if IsNew(next, rest, i - 1) {
        assert defs[0].name != defs[i].name;
        forall k | 0 <= k < i ensures defs[k].name != defs[i].name {
          assert k > 0 ==> defs[k] == rest[k - 1];
        }
      }
    }
    if ToolsDiffer(next, rest) {
      forall i | 0 <= i < |defs| && IsNew(db, defs, i) ensures NoRepeats(defs[i].tools) {
        assert i > 0 ==> IsNew(next, rest, i - 1) && rest[i - 1] == defs[i];
      }
    }
    if ToolsDiffer(db, defs) {
      forall i | 0 <= i < |rest| && IsNew(next, rest, i) ensures NoRepeats(rest[i].tools) {
        assert IsNew(db, defs, i + 1) && rest[i] == defs[i + 1];
      }
    }
  }

  // ----- consumers never fail -----

  lemma {:induction false} ConsumersSucceed(st: State, externalIds: seq<string>)
    requires Integral(st.db)
    ensures ConsumersSeeded(st, externalIds).Ok?
    decreases externalIds
  {
    if externalIds != [] {
      var found := ConsumersWith(st.db, externalIds[0]);
      if found != {} {
        var id :| id in found;
        assert found == {id};
      } else {
        assert forall id | id in st.db.consumers :: id !in found;
      }
      ConsumerStepKeepsIntegrity(st, externalIds[0]);
      ConsumersSucceed(ConsumerStep(st, externalIds[0]).value, externalIds[1..]);
    }
  }

  // ----- subscriptions -----

  /** The lookup of a definition finds at most one subscription. */
  predicate FoundOnce(st: State, def: SubscriptionDef) {
    Passed(st, def) || |SubscriptionsOf(st.db, st.consumerIds[def.consumer], st.serverIds[def.server])| <= 1
  }

  lemma SubscriptionStepIff(st: State, def: SubscriptionDef)
    requires Linked(st)
    ensures SubscriptionStep(st, def).Ok? <==> FoundOnce(st, def)
  {
    if !Passed(st, def) {
      assert st.serverIds[def.server] in ServersNamed(st.db, def.server);
    }
  }

  /** A step changes nothing about how often another definition finds a row. */
  lemma FoundOnceStays(st: State, def: SubscriptionDef, other: SubscriptionDef)
    requires Integral(st.db) && SubscriptionStep(st, def).Ok?
    ensures FoundOnce(SubscriptionStep(st, def).value, other) <==> FoundOnce(st, other)
  {
    var next := SubscriptionStep(st, def).value;
    if !Passed(st, def) && !Passed(st, other) && next != st {
      var server, consumer := st.serverIds[def.server], st.consumerIds[def.consumer];
      var s, c := st.serverIds[other.server], st.consumerIds[other.consumer];
      assert SubscriptionsOf(st.db, consumer, server) == {};
      assert st.db.next !in st.db.subscriptions;
      if s == server && c == consumer {
        assert SubscriptionsOf(next.db, c, s) == {st.db.next};
      } else {
        assert SubscriptionsOf(next.db, c, s) == SubscriptionsOf(st.db, c, s);
      }
    }
  }

  lemma {:induction false} SubscriptionsIff(st: State, defs: seq<SubscriptionDef>)
    requires Integral(st.db) && Linked(st) && Handed(st)
    ensures SubscriptionsSeeded(st, defs).Ok? <==> forall i | 0 <= i < |defs| :: FoundOnce(st, defs[i])
    decreases defs
  {
    if defs != [] {
      SubscriptionStepIff(st, defs[0]);
      if SubscriptionStep(st, defs[0]).Ok? {
        var next, rest := SubscriptionStep(st, defs[0]).value, defs[1..];
        SubscriptionStepKeepsIntegrity(st, defs[0]);
        LinksStay(st, next);
        SubscriptionsIff(next, rest);
        forall i | 0 <= i < |rest| ensures FoundOnce(next, rest[i]) <==> FoundOnce(st, defs[i + 1]) {
          FoundOnceStays(st, defs[0], rest[i]);
        }
        assert (forall i | 0 <= i < |defs| :: FoundOnce(st, defs[i])) <==> forall i | 0 <= i < |rest| :: FoundOnce(next, rest[i]) by {
          assert forall i | 0 < i < |defs| :: FoundOnce(st, defs[i]) <==> FoundOnce(next, rest[i - 1]);
        }
      }
    }
  }

  // ----- catalog entries -----

  /** The catalog rows of the demo tenant that are not marked as deleted. */
  function LiveRows(db: Store): set<Id> {
    set id | id in DemoCatalog(db) && !db.catalog[id].deleted
  }

  /** The names and versions that the demo tenant has published. */
  function Versions(db: Store): set<(string, string)> {
    set id | id in LiveRows(db) :: (db.catalog[id].name, db.catalog[id].version)
  }

  predicate IsNewApi(db: Store, defs: seq<ApiDef>, i: nat)
    requires i < |defs|
  {
    CatalogRows(db, defs[i].apiId) == {} && forall k | 0 <= k < i :: defs[k].apiId != defs[i].apiId
  }

  /** The APIs that have to be published differ in name or version, from each other and from
      what is published. */
  predicate VersionsDiffer(db: Store, defs: seq<ApiDef>) {
    && (forall i | 0 <= i < |defs| && IsNewApi(db, defs, i) :: (defs[i].name, defs[i].version) !in Versions(db))
    && (forall i, j | 0 <= i < j < |defs| && IsNewApi(db, defs, i) && IsNewApi(db, defs, j) ::
          (defs[i].name, defs[i].version) != (defs[j].name, defs[j].version))
  }

  /** Every lookup in the catalog finds at most one row, and what has to be published fits. */
  predicate ApisFit(db: Store, defs: seq<ApiDef>) {
    (forall i | 0 <= i < |defs| :: |CatalogRows(db, defs[i].apiId)| <= 1) && VersionsDiffer(db, defs)
  }

  lemma ApiStepIff(st: State, def: ApiDef)
    ensures ApiStep(st, def).Ok? <==>
      && |CatalogRows(st.db, def.apiId)| <= 1
      && (CatalogRows(st.db, def.apiId) != {} || (def.name, def.version) !in Versions(st.db))
  {
    var row := CatalogEntry(DEMO, def.apiId, def.name, def.version, false);
    if CatalogRows(st.db, def.apiId) == {} {
      forall id | id in st.db.catalog
        ensures Conflicting(st.db.catalog[id], row) <==>
          id in LiveRows(st.db) && (st.db.catalog[id].name, st.db.catalog[id].version) == (def.name, def.version)
      {
        assert id !in CatalogRows(st.db, def.apiId);
      }
    }
  }

  lemma ApiStepIsFound(st: State, def: ApiDef)
    requires Integral(st.db) && ApiStep(st, def).Ok?
    ensures var next := ApiStep(st, def).value.db;
      && |CatalogRows(next, def.apiId)| == 1
      && forall apiId | apiId != def.apiId :: CatalogRows(next, apiId) == CatalogRows(st.db, apiId)
  {
    var next := ApiStep(st, def).value.db;
    if CatalogRows(st.db, def.apiId) == {} {
      assert st.db.next !in st.db.catalog;
      assert CatalogRows(next, def.apiId) == {st.db.next};
    }
  }

  lemma ApiStepPublishes(st: State, def: ApiDef)
    requires Integral(st.db) && ApiStep(st, def).Ok?
    ensures Versions(ApiStep(st, def).value.db)
         == Versions(st.db) + if CatalogRows(st.db, def.apiId) == {} then {(def.name, def.version)} else {}
  {
    var next := ApiStep(st, def).value.db;
    if CatalogRows(st.db, def.apiId) == {} {
      assert st.db.next !in st.db.catalog;
      assert LiveRows(next) == LiveRows(st.db) + {st.db.next};
      VersionsGrow(st.db, next, st.db.next);
    }
  }

  lemma VersionsGrow(db: Store, next: Store, added: Id)
    requires added in next.catalog && LiveRows(next) == LiveRows(db) + {added}
    requires forall id | id in LiveRows(db) :: id in next.catalog && next.catalog[id] == db.catalog[id]
    ensures Versions(next) == Versions(db) + {(next.catalog[added].name, next.catalog[added].version)}
  {
    forall v ensures v in Versions(next) <==> v in Versions(db) + {(next.catalog[added].name, next.catalog[added].version)} {
      if v in Versions(db) {
        var id :| id in LiveRows(db) && (db.catalog[id].name, db.catalog[id].version) == v;
        assert id in LiveRows(next);
      }
    }
  }

  lemma {:induction false} ApisIff(st: State, defs: seq<ApiDef>)
    requires Integral(st.db)
    ensures ApisSeeded(st, defs).Ok? <==> ApisFit(st.db, defs)
    decreases defs
  {
    if defs != [] {
      ApiStepIff(st, defs[0]);
      if ApiStep(st, defs[0]).Ok? {
        var next := ApiStep(st, defs[0]).value;
        ApiStepKeepsIntegrity(st, defs[0]);
        ApiStepIsFound(st, defs[0]);
        ApiStepPublishes(st, defs[0]);
        ApisIff(next, defs[1..]);
        VersionsDifferTail(st.db, next.db, defs);
        LookupsTail(st.db, next.db, defs);
      } else {
        assert IsNewApi(st.db, defs, 0) <==> CatalogRows(st.db, defs[0].apiId) == {};
      }
    }
  }

  lemma LookupsTail(db: Store, next: Store, defs: seq<ApiDef>)
    requires defs != [] && |CatalogRows(db, defs[0].apiId)| <= 1 && |CatalogRows(next, defs[0].apiId)| == 1
    requires forall apiId | apiId != defs[0].apiId :: CatalogRows(next, apiId) == CatalogRows(db, apiId)
    ensures (forall i | 0 <= i < |defs[1..]| :: |CatalogRows(next, defs[1..][i].apiId)| <= 1) <==>
      forall i | 0 <= i < |defs| :: |CatalogRows(db, defs[i].apiId)| <= 1
  {
    var rest := defs[1..];
    forall i | 0 < i < |defs|
      ensures |CatalogRows(next, rest[i - 1].apiId)| <= 1 <==> |CatalogRows(db, defs[i].apiId)| <= 1
    {
      assert rest[i - 1] == defs[i];
    }
    if forall i | 0 <= i < |defs| :: |CatalogRows(db, defs[i].apiId)| <= 1 {
      forall i | 0 <= i < |rest| ensures |CatalogRows(next, rest[i].apiId)| <= 1 {
        assert rest[i] == defs[i + 1];
      }
    }
  }

  lemma NewApiTail(db: Store, next: Store, defs: seq<ApiDef>, i: nat)
    requires 0 < i < |defs| && CatalogRows(next, defs[0].apiId) != {}
    requires forall apiId | apiId != defs[0].apiId :: CatalogRows(next, apiId) == CatalogRows(db, apiId)
    ensures IsNewApi(db, defs, i) <==> IsNewApi(next, defs[1..], i - 1)
  {
    var rest := defs[1..];
    assert rest[i - 1] == defs[i];
    assert forall k | 0 <= k < i - 1 :: rest[k] == defs[k + 1];
    if IsNewApi(next, rest, i - 1) {
      assert defs[0].apiId != defs[i].apiId;
      forall k | 0 <= k < i ensures defs[k].apiId != defs[i].apiId {
        assert k > 0 ==> defs[k] == rest[k - 1];
      }
    }
  }

  lemma VersionsDifferTail(db: Store, next: Store, defs: seq<ApiDef>)
    requires defs != [] && CatalogRows(next, defs[0].apiId) != {}
    requires forall apiId | apiId != defs[0].apiId :: CatalogRows(next, apiId) == CatalogRows(db, apiId)
    requires Versions(next) ==
      Versions(db) + if CatalogRows(db, defs[0].apiId) == {} then {(defs[0].name, defs[0].version)} else {}
    requires CatalogRows(db, defs[0].apiId) != {} || (defs[0].name, defs[0].version) !in Versions(db)
    ensures VersionsDiffer(next, defs[1..]) <==> VersionsDiffer(db, defs)
  {
    var rest := defs[1..];
    assert IsNewApi(db, defs, 0) <==> CatalogRows(db, defs[0].apiId) == {};
    forall i | 0 < i < |defs| ensures rest[i - 1] == defs[i] && (IsNewApi(db, defs, i) <==> IsNewApi(next, rest, i - 1)) {
      NewApiTail(db, next, defs, i);
    }
    if VersionsDiffer(next, rest) {
      VersionsDifferForward(db, next, defs);
    }
    if VersionsDiffer(db, defs) {
      forall i | 0 <= i < |rest| && IsNewApi(next, rest, i) ensures (rest[i].name, rest[i].version) !in Versions(next) {
        assert IsNewApi(db, defs, i + 1) && rest[i] == defs[i + 1];
      }
      forall i, j | 0 <= i < j < |rest| && IsNewApi(next, rest, i) && IsNewApi(next, rest, j)
        ensures (rest[i].name, rest[i].version) != (rest[j].name, rest[j].version)
      {
        assert IsNewApi(db, defs, i + 1) && IsNewApi(db, defs, j + 1);
        assert rest[i] == defs[i + 1] && rest[j] == defs[j + 1];
      }
    }
  }

  lemma VersionsDifferForward(db: Store, next: Store, defs: seq<ApiDef>)
    requires defs != [] && VersionsDiffer(next, defs[1..])
    requires Versions(next) ==
      Versions(db) + if CatalogRows(db, defs[0].apiId) == {} then {(defs[0].name, defs[0].version)} else {}
    requires CatalogRows(db, defs[0].apiId) != {} || (defs[0].name, defs[0].version) !in Versions(db)
    requires forall i | 0 < i < |defs| ::
      defs[1..][i - 1] == defs[i] && (IsNewApi(db, defs, i) <==> IsNewApi(next, defs[1..], i - 1))
    ensures VersionsDiffer(db, defs)
  {
    var rest := defs[1..];
    forall i | 0 <= i < |defs| && IsNewApi(db, defs, i) ensures (defs[i].name, defs[i].version) !in Versions(db) {
      if i > 0 {
        assert IsNewApi(next, rest, i - 1) && rest[i - 1] == defs[i];
      }
    }
    forall i, j | 0 <= i < j < |defs| && IsNewApi(db, defs, i) && IsNewApi(db, defs, j)
      ensures (defs[i].name, defs[i].version) != (defs[j].name, defs[j].version)
    {
      assert IsNewApi(next, rest, j - 1) && rest[j - 1] == defs[j];
      assert i > 0 ==> IsNewApi(next, rest, i - 1) && rest[i - 1] == defs[i];
    }
  }

  // ----- the whole run -----

  /** For every definition that is not passed over, the server and the consumer, if they are
      there already, have at most one demo subscription between them. */
  predicate SubscriptionsFit(db: Store, defs: Definitions) {
    forall i, c, s | 0 <= i < |defs.subscriptions| && Wanted(defs, defs.subscriptions[i])
      && c in ConsumersWith(db, defs.consumers[defs.subscriptions[i].consumer])
      && s in ServersNamed(db, defs.subscriptions[i].server) ::
        |SubscriptionsOf(db, c, s)| <= 1
  }

  predicate Wanted(defs: Definitions, def: SubscriptionDef) {
    def.server in ServerNames(defs.servers) && def.consumer < |defs.consumers|
  }

  lemma {:induction false} ToolsGrowNext(st: State, server: Id, tools: seq<string>)
    requires ToolsSeeded(st, server, tools).Ok?
    ensures st.db.next <= ToolsSeeded(st, server, tools).value.db.next
    decreases tools
  {
    if tools != [] {
      ToolsGrowNext(ToolStep(st, server, tools[0]).value, server, tools[1..]);
    }
  }

  lemma {:induction false} ServersGrowNext(st: State, defs: seq<ServerDef>)
    requires ServersSeeded(st, defs).Ok?
    ensures st.db.next <= ServersSeeded(st, defs).value.db.next
    decreases defs
  {
    if defs != [] {
      if ServersNamed(st.db, defs[0].name) == {} {
        ToolsGrowNext(NewServer(st, defs[0].name).value, st.db.next, defs[0].tools);
      }
      ServersGrowNext(ServerStep(st, defs[0]).value, defs[1..]);
    }
  }

  predicate NewAreFresh(a: Store, b: Store) {
    forall id | id in b.consumers && id !in a.consumers :: a.next <= id
  }

  /** Consumers are kept, and new ones get fresh ids. */
  lemma {:induction false} NewConsumersAreFresh(st: State, externalIds: seq<string>)
    requires Integral(st.db) && ConsumersSeeded(st, externalIds).Ok?
    ensures var end := ConsumersSeeded(st, externalIds).value.db;
      st.db.next <= end.next && Kept(st.db.consumers, end.consumers) && NewAreFresh(st.db, end)
    decreases externalIds
  {
    if externalIds != [] {
      ConsumerStepKeepsIntegrity(st, externalIds[0]);
      NewConsumersAreFresh(ConsumerStep(st, externalIds[0]).value, externalIds[1..]);
    }
  }

  /** What two phases leave of the servers and consumers that were there. */
  lemma ServersAreKept(db: Store, defs: seq<ServerDef>)
    requires Integral(db) && ServersSeeded(TenantStep(db), defs).Ok?
    ensures Kept(db.servers, ServersSeeded(TenantStep(db), defs).value.db.servers)
  {
    TenantPhase(db);
    TenantAccounted(db);
    ServersAccounted(db, TenantStep(db), defs);
  }

  lemma ServerIdIsKnown(db: Store, end: Store, name: string, s: Id)
    requires Integral(db) && Kept(db.servers, end.servers) && ServersNamed(end, name) == {s}
    ensures ServersNamed(db, name) == {s} || (ServersNamed(db, name) == {} && SubscriptionsTo(db, {s}) == {})
  {
    assert s in ServersNamed(end, name);
    forall other | other in ServersNamed(db, name) ensures other == s {
      assert other in ServersNamed(end, name);
    }
    if s in db.servers {
      assert s in ServersNamed(db, name);
    }
  }

  lemma ConsumerIdIsKnown(db: Store, end: Store, externalId: string, c: Id)
    requires Integral(db) && ConsumersWith(end, externalId) == {c} && Kept(db.consumers, end.consumers)
    requires NewAreFresh(db, end)
    ensures ConsumersWith(db, externalId) == {c}
      || (ConsumersWith(db, externalId) == {} && forall id | id in db.subscriptions :: db.subscriptions[id].subscriber != c)
  {
    assert c in ConsumersWith(end, externalId);
    forall other | other in ConsumersWith(db, externalId) ensures other == c {
      assert other in ConsumersWith(end, externalId);
    }
    if c in db.consumers {
      assert c in ConsumersWith(db, externalId);
    }
  }

  lemma PairFoundOnce(db: Store, servers: set<Id>, consumers: set<Id>, s: Id, c: Id)
    requires servers == {s} || (servers == {} && SubscriptionsTo(db, {s}) == {})
    requires consumers == {c} || (consumers == {} && forall id | id in db.subscriptions :: db.subscriptions[id].subscriber != c)
    ensures |SubscriptionsOf(db, c, s)| <= 1 <==>
      forall d, t | d in consumers && t in servers :: |SubscriptionsOf(db, d, t)| <= 1
  {
    if servers == {} {
      forall id | id in db.subscriptions ensures id !in SubscriptionsOf(db, c, s) {
        assert id !in SubscriptionsTo(db, {s});
      }
      assert SubscriptionsOf(db, c, s) == {};
    } else if consumers == {} {
      assert SubscriptionsOf(db, c, s) == {};
    } else {
      assert c in consumers && s in servers;
    }
  }

  /** What the first three phases leave for the other two. */
  ghost predicate Prepared(db: Store, st: State, defs: Definitions) {
    && Integral(st.db) && st.db.subscriptions == db.subscriptions && st.db.catalog == db.catalog
    && Linked(st) && st.serverIds.Keys == ServerNames(defs.servers) && Kept(db.servers, st.db.servers)
    && Matched(st.db, st.consumerIds, defs.consumers) && Kept(db.consumers, st.db.consumers)
    && NewAreFresh(db, st.db)
  }

  /** What the first two phases leave. */
  ghost predicate ServersReady(db: Store, st: State, defs: Definitions) {
    && Integral(st.db) && st.consumerIds == [] && db.next <= st.db.next
    && st.db.consumers == db.consumers && st.db.subscriptions == db.subscriptions && st.db.catalog == db.catalog
    && Linked(st) && st.serverIds.Keys == ServerNames(defs.servers) && Kept(db.servers, st.db.servers)
  }

  lemma TenantStepFrame(db: Store)
    ensures var st := TenantStep(db);
      && st.db.(tenants := db.tenants) == db && st.serverIds == map[] && st.consumerIds == []
  {
  }

  lemma ServersPrepare(db: Store, start: State, defs: Definitions)
    requires Integral(db) && start == TenantStep(db) && ServersSeeded(start, defs.servers).Ok?
    ensures ServersReady(db, ServersSeeded(start, defs.servers).value, defs)
  {
    TenantPhase(db);
    TenantStepFrame(db);
    ServersFound(start, defs.servers);
    ServersFrame(start, defs.servers);
    ServersAreKept(db, defs.servers);
    ServersGrowNext(start, defs.servers);
  }

  lemma ConsumersPrepare(db: Store, st: State, defs: Definitions)
    requires ServersReady(db, st, defs) && ConsumersSeeded(st, defs.consumers).Ok?
    ensures Prepared(db, ConsumersSeeded(st, defs.consumers).value, defs)
  {
    assert [] + defs.consumers == defs.consumers;
    ConsumersFound(st, [], defs.consumers);
    NewConsumersAreFresh(st, defs.consumers);
    LinksStay(st, ConsumersSeeded(st, defs.consumers).value);
  }

  /** After the first three phases, the lookups of the fourth find what they would have found
      before. */
  lemma FoundOnceBefore(db: Store, st: State, defs: Definitions, i: nat)
    requires Integral(db) && Prepared(db, st, defs) && i < |defs.subscriptions|
    ensures FoundOnce(st, defs.subscriptions[i]) <==>
      Wanted(defs, defs.subscriptions[i]) ==>
        forall c, s | c in ConsumersWith(db, defs.consumers[defs.subscriptions[i].consumer])
          && s in ServersNamed(db, defs.subscriptions[i].server) :: |SubscriptionsOf(db, c, s)| <= 1
  {
    var def := defs.subscriptions[i];
    if Wanted(defs, def) {
      var s, c := st.serverIds[def.server], st.consumerIds[def.consumer];
      ServerIdIsKnown(db, st.db, def.server, s);
      ConsumerIdIsKnown(db, st.db, defs.consumers[def.consumer], c);
      PairFoundOnce(db, ServersNamed(db, def.server), ConsumersWith(db, defs.consumers[def.consumer]), s, c);
      assert SubscriptionsOf(st.db, c, s) == SubscriptionsOf(db, c, s);
    }
  }

  lemma SubscriptionsFitIff(db: Store, st: State, defs: Definitions)
    requires Integral(db) && Prepared(db, st, defs)
    ensures SubscriptionsFit(db, defs) <==> forall i | 0 <= i < |defs.subscriptions| :: FoundOnce(st, defs.subscriptions[i])
  {
    forall i | 0 <= i < |defs.subscriptions| {
      FoundOnceBefore(db, st, defs, i);
    }
  }

  lemma SameServersSameAnswer(a: Store, b: Store, defs: seq<ServerDef>)
    requires a.servers == b.servers
    ensures ToolsDiffer(a, defs) == ToolsDiffer(b, defs)
  {
    forall name ensures ServersNamed(a, name) == ServersNamed(b, name) {
    }
    forall i | 0 <= i < |defs| ensures IsNew(a, defs, i) == IsNew(b, defs, i) {
    }
  }

  lemma SameCatalogSameAnswer(a: Store, b: Store, defs: seq<ApiDef>)
    requires a.catalog == b.catalog
    ensures ApisFit(a, defs) == ApisFit(b, defs)
  {
    assert LiveRows(a) == LiveRows(b) && Versions(a) == Versions(b);
    forall apiId ensures CatalogRows(a, apiId) == CatalogRows(b, apiId) {
    }
    forall i | 0 <= i < |defs| ensures IsNewApi(a, defs, i) == IsNewApi(b, defs, i) {
    }
  }

  lemma LastPhases(db: Store, st: State, defs: Definitions)
    requires Integral(st.db) && Linked(st) && Handed(st) && st.db.catalog == db.catalog
    ensures (var next := SubscriptionsSeeded(st, defs.subscriptions); next.Ok? && ApisSeeded(next.value, defs.apis).Ok?) <==>
      (forall i | 0 <= i < |defs.subscriptions| :: FoundOnce(st, defs.subscriptions[i])) && ApisFit(db, defs.apis)
  {
    SubscriptionsIff(st, defs.subscriptions);
    if SubscriptionsSeeded(st, defs.subscriptions).Ok? {
      var next := SubscriptionsSeeded(st, defs.subscriptions).value;
      SubscriptionsFound(st, [], defs.subscriptions);
      SameCatalogSameAnswer(next.db, db, defs.apis);
      ApisIff(next, defs.apis);
    }
  }

  /** What the lookups and the unique indexes ask of a store and the definitions. */
  predicate Seedable(db: Store, defs: Definitions) {
    ToolsDiffer(db, defs.servers) && SubscriptionsFit(db, defs) && ApisFit(db, defs.apis)
  }

  lemma AfterServersIff(db: Store, defs: Definitions)
    requires Integral(db) && ServersSeeded(TenantStep(db), defs.servers).Ok?
    ensures Seeded(db, defs).Ok? <==> SubscriptionsFit(db, defs) && ApisFit(db, defs.apis)
  {
    var servers := ServersSeeded(TenantStep(db), defs.servers).value;
    ServersPrepare(db, TenantStep(db), defs);
    ConsumersSucceed(servers, defs.consumers);
    ConsumersPrepare(db, servers, defs);
    var consumers := ConsumersSeeded(servers, defs.consumers).value;
    MatchedAreHanded(consumers, defs.consumers);
    SubscriptionsFitIff(db, consumers, defs);
    LastPhases(db, consumers, defs);
  }

  /** Seeding succeeds exactly when every server that has to be created has tools of
      different names, no lookup of a subscription or catalog entry finds more than one row,
      and the APIs that have to be published differ in name or version from each other and
      from what is published. */
  lemma SeedingSucceedsIff(db: Store, defs: Definitions)
    requires Integral(db)
    ensures Seeded(db, defs).Ok? <==> Seedable(db, defs)
  {
    TenantPhase(db);
    ServersIff(TenantStep(db), defs.servers);
    SameServersSameAnswer(db, TenantStep(db).db, defs.servers);
    if ServersSeeded(TenantStep(db), defs.servers).Ok? {
      AfterServersIff(db, defs);
    }
  }

  lemma NoRowsNothingFound(db: Store, defs: Definitions)
    requires DemoCounts(db) == ZERO
    ensures SubscriptionsFit(db, defs) && Versions(db) == {}
    ensures forall apiId :: CatalogRows(db, apiId) == {}
  {
    NoDemoRows(db);
    forall apiId ensures CatalogRows(db, apiId) == {} {
      assert CatalogRows(db, apiId) <= DemoCatalog(db);
    }
    forall c, s ensures SubscriptionsOf(db, c, s) == {} {
      assert SubscriptionsOf(db, c, s) <= DemoSubscriptions(db);
    }
  }

  /** The definition is the first of its name, and no other tenant has a server of that name. */
  predicate IsNewAfterReset(db: Store, defs: seq<ServerDef>, i: nat)
    requires i < |defs|
  {
    && (forall id | id in db.servers && db.servers[id].name == defs[i].name :: db.servers[id].tenant == Some(DEMO))
    && forall k | 0 <= k < i :: defs[k].name != defs[i].name
  }

  /** The definition is the first of its API id. */
  predicate IsFirstApi(defs: seq<ApiDef>, i: nat)
    requires i < |defs|
  {
    forall k | 0 <= k < i :: defs[k].apiId != defs[i].apiId
  }

  /** What a reset asks of the definitions: different names for the tools of each server that no
      other tenant has, and different names or versions for the APIs. */
  predicate Resettable(db: Store, defs: Definitions) {
    && (forall i | 0 <= i < |defs.servers| && IsNewAfterReset(db, defs.servers, i) :: NoRepeats(defs.servers[i].tools))
    && (forall i, j | 0 <= i < j < |defs.apis| && IsFirstApi(defs.apis, i) && IsFirstApi(defs.apis, j) ::
          (defs.apis[i].name, defs.apis[i].version) != (defs.apis[j].name, defs.apis[j].version))
  }

  lemma ServersAfterReset(db: Store, name: string)
    requires ForeignKeys(db)
    ensures ServersNamed(Executed(db, DELETE_ORDER), name) == {} <==>
      forall id | id in db.servers && db.servers[id].name == name :: db.servers[id].tenant == Some(DEMO)
  {
    OrderDoesNotMatter(db, DELETE_ORDER);
    OrderRunsAll(Servers);
    var servers := Executed(db, DELETE_ORDER).servers;
    assert servers == db.servers - DemoServers(db);
    forall id | id in db.servers ensures id in servers <==> db.servers[id].tenant != Some(DEMO) {
      assert id in DemoServers(db) <==> db.servers[id].tenant == Some(DEMO);
    }
    if id :| id in db.servers && db.servers[id].name == name && db.servers[id].tenant != Some(DEMO) {
      assert id in ServersNamed(Executed(db, DELETE_ORDER), name);
    }
  }

  lemma ToolsAfterReset(db: Store, defs: seq<ServerDef>)
    requires ForeignKeys(db)
    ensures ToolsDiffer(Executed(db, DELETE_ORDER), defs) <==>
      forall i | 0 <= i < |defs| && IsNewAfterReset(db, defs, i) :: NoRepeats(defs[i].tools)
  {
    forall i | 0 <= i < |defs| ensures IsNew(Executed(db, DELETE_ORDER), defs, i) <==> IsNewAfterReset(db, defs, i) {
      ServersAfterReset(db, defs[i].name);
    }
  }

  lemma VersionsOfEmptyCatalog(db: Store, defs: seq<ApiDef>)
    requires Versions(db) == {} && forall apiId :: CatalogRows(db, apiId) == {}
    ensures ApisFit(db, defs) <==>
      forall i, j | 0 <= i < j < |defs| && IsFirstApi(defs, i) && IsFirstApi(defs, j) ::
        (defs[i].name, defs[i].version) != (defs[j].name, defs[j].version)
  {
    assert forall i | 0 <= i < |defs| :: IsNewApi(db, defs, i) <==> IsFirstApi(defs, i);
  }

  /** A run with a reset creates the tenant exactly when the definitions fit the store as it is
      before the run; otherwise the demo data are gone and nothing takes their place. */
  lemma ResetCreatesIff(db: Store, defs: Definitions)
    requires Integral(db)
    ensures RunOn(db, true, false, defs).0.Created? <==> Resettable(db, defs)
  {
    var emptied := Executed(db, DELETE_ORDER);
    DeletesKeepIntegrity(db, DELETE_ORDER);
    NothingLeftAfterDeletion(db);
    NoRowsNothingFound(emptied, defs);
    SeedingSucceedsIff(emptied, defs);
    ToolsAfterReset(db, defs.servers);
    VersionsOfEmptyCatalog(emptied, defs.apis);
  }

  /** A run without a reset creates the tenant exactly when its row is not there and the
      store can be seeded, whatever other rows of the tenant there are. */
  lemma RunCreatesIff(db: Store, defs: Definitions)
    requires Integral(db)
    ensures RunOn(db, false, false, defs).0.Created? <==> DEMO !in db.tenants && Seedable(db, defs)
  {
    SeedingSucceedsIff(db, defs);
  }

  // ----- where it fails -----

  const EMPTY := Store({}, map[], map[], map[], map[], map[], map[], 0)

  /** An API that was deleted and published again, in a store without the tenant row. */
  function Republished(def: ApiDef): Store {
    var row := CatalogEntry(DEMO, def.apiId, def.name, def.version, true);
    EMPTY.(catalog := map[0 := row, 1 := row.(deleted := false)], next := 2)
  }

  /** The unique indexes pass over deleted rows and the lookup does not: it finds two. */
  lemma DeletedRowIsFound(def: ApiDef)
    ensures Integral(Republished(def)) && DEMO !in Republished(def).tenants
    ensures Seeded(Republished(def), Definitions([], [], [], [def])) == Err(ManyRows)
  {
    var db, defs := Republished(def), Definitions([], [], [], [def]);
    assert CatalogRows(db, def.apiId) == {0, 1};
    var start := TenantStep(db);
    assert CatalogRows(start.db, def.apiId) == {0, 1};
    assert ApiStep(start, def) == Err(ManyRows);
  }

  lemma RepeatedToolStops(db: Store, defs: Definitions)
    requires Integral(db) && db.servers == map[]
    requires |defs.servers| == 1 && !NoRepeats(defs.servers[0].tools)
    ensures RunOn(db, true, false, defs).0.Stopped? && DemoCounts(RunOn(db, true, false, defs).1) == ZERO
  {
    assert IsNewAfterReset(db, defs.servers, 0);
    ResetCreatesIff(db, defs);
    ResetReportsWhatItLeaves(db, defs);
  }

  const ALONE := EMPTY.(tenants := {DEMO})

  lemma AloneIsCounted()
    ensures Integral(ALONE) && DemoCounts(ALONE).tenant == 1
  {
  }

  /** A reset on definitions with a tool listed twice: the demo tenant was there, the run
      stops, and afterwards nothing of it is left. */
  lemma ResetLosesTheTenant(server: string, tool: string)
    ensures var defs := Definitions([ServerDef(server, [tool, tool])], [], [], []);
      && Integral(ALONE) && DemoCounts(ALONE) != ZERO
      && RunOn(ALONE, true, false, defs).0.Stopped? && DemoCounts(RunOn(ALONE, true, false, defs).1) == ZERO
  {
    var defs := Definitions([ServerDef(server, [tool, tool])], [], [], []);
    AloneIsCounted();
    assert defs.servers[0].tools[0] == defs.servers[0].tools[1];
    RepeatedToolStops(ALONE, defs);
  }
}

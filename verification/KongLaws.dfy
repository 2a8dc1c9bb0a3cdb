/** The resources of consumers, the choice of upstreams, and a whole migration. */
module KongLaws {
  import opened Wrappers
  import opened Text
  import opened Dicts
  import opened KongModel
  import opened KongMigrator
  import opened KongConservation

  // ----- one resource for each consumer -----

  /** The positions from `start` on of the consumers of one kind. */
  function Positions(cs: seq<Consumer>, start: nat, service: bool): seq<nat>
    decreases |cs| - start
  {
    if start >= |cs| then []
    else (if IsServiceAccount(cs[start]) == service then [start] else []) + Positions(cs, start + 1, service)
  }

  predicate Ascending(positions: seq<nat>, start: nat, end: nat) {
    && (forall k | 0 <= k < |positions| :: start <= positions[k] < end)
    && (forall i, j | 0 <= i < j < |positions| :: positions[i] < positions[j])
  }

  /** These are the consumers of the kind from `start` on, each once and in order. */
  ghost predicate Selects(positions: seq<nat>, cs: seq<Consumer>, start: nat, service: bool) {
    && Ascending(positions, start, |cs|)
    && forall i | start <= i < |cs| :: IsServiceAccount(cs[i]) == service <==> i in positions
  }

  lemma {:induction false} PositionsAscend(cs: seq<Consumer>, start: nat, service: bool)
    ensures Ascending(Positions(cs, start, service), start, |cs|)
    decreases |cs| - start
  {
    if start < |cs| {
      PositionsAscend(cs, start + 1, service);
    }
  }

  lemma {:induction false} PositionsOfTheKind(cs: seq<Consumer>, start: nat, service: bool, i: nat)
    requires start <= i < |cs|
    ensures IsServiceAccount(cs[i]) == service <==> i in Positions(cs, start, service)
    decreases |cs| - start
  {
    var all, later := Positions(cs, start, service), Positions(cs, start + 1, service);
    PositionsAscend(cs, start + 1, service);
    assert IsServiceAccount(cs[start]) == service ==> all == [start] + later;
    assert IsServiceAccount(cs[start]) != service ==> all == later;
    if start < i {
      PositionsOfTheKind(cs, start + 1, service, i);
    }
  }

  lemma PositionsSelect(cs: seq<Consumer>, start: nat, service: bool)
    ensures Selects(Positions(cs, start, service), cs, start, service)
  {
    PositionsAscend(cs, start, service);
    forall i | start <= i < |cs| ensures IsServiceAccount(cs[i]) == service <==> i in Positions(cs, start, service) {
      PositionsOfTheKind(cs, start, service, i);
    }
  }

  /** The i-th tenant comes from the i-th consumer that is a user, the i-th application from the
      i-th service account, and every consumer is one of the two. */
  lemma OneResourcePerConsumer(cs: seq<Consumer>)
    ensures var users, accounts := Positions(cs, 0, false), Positions(cs, 0, true);
      && Selects(users, cs, 0, false) && Selects(accounts, cs, 0, true) && |users| + |accounts| == |cs|
      && TenantsOf(cs) == seq(|users|, i requires 0 <= i < |users| => TenantOf(cs[users[i]]))
      && ApplicationsOf(cs) == seq(|accounts|, i requires 0 <= i < |accounts| => ApplicationOf(cs[accounts[i]]))
  {
    assert cs[0..] == cs;
    PositionsSelect(cs, 0, false);
    PositionsSelect(cs, 0, true);
    ResourcesFrom(cs, 0);
  }

  lemma {:induction false} ResourcesFrom(cs: seq<Consumer>, start: nat)
    requires start <= |cs|
    ensures var users, accounts := Positions(cs, start, false), Positions(cs, start, true);
      && |users| + |accounts| == |cs| - start
      && |TenantsOf(cs[start..])| == |users| && |ApplicationsOf(cs[start..])| == |accounts|
      && (forall i | 0 <= i < |users| :: users[i] < |cs| && TenantsOf(cs[start..])[i] == TenantOf(cs[users[i]]))
      && forall i | 0 <= i < |accounts| ::
           accounts[i] < |cs| && ApplicationsOf(cs[start..])[i] == ApplicationOf(cs[accounts[i]])
    decreases |cs| - start
  {
    if start < |cs| {
      ResourcesFrom(cs, start + 1);
      assert cs[start..][1..] == cs[start + 1..];
    }
  }

  // ----- upstreams -----

  /** The last upstream of a name. */
  function LastNamed(upstreams: seq<Upstream>, name: string): Option<Upstream> {
    if upstreams == [] then None
    else
      var last := upstreams[|upstreams| - 1];
      if last.name.GetOr("") == name then Some(last) else LastNamed(upstreams[..|upstreams| - 1], name)
  }

  lemma {:induction false} LastNamedConcat(p: seq<Upstream>, q: seq<Upstream>, name: string)
    ensures LastNamed(p + q, name) == if LastNamed(q, name).Some? then LastNamed(q, name) else LastNamed(p, name)
  {
    if q == [] {
      assert p + q == p;
    } else {
      assert (p + q)[..|p + q| - 1] == p + q[..|q| - 1];
      LastNamedConcat(p, q[..|q| - 1], name);
    }
  }

  lemma {:induction false} IndexHoldsTheLast(index: Index, upstreams: seq<Upstream>, name: string)
    ensures Get(Indexed(index, upstreams), name)
         == if LastNamed(upstreams, name).Some? then LastNamed(upstreams, name) else Get(index, name)
    decreases upstreams
  {
    if upstreams != [] {
      var u, rest := upstreams[0], upstreams[1..];
      IndexHoldsTheLast(Put(index, u.name.GetOr(""), u), rest, name);
      GetPut(index, u.name.GetOr(""), u, name);
      assert upstreams == [u] + rest;
      LastNamedConcat([u], rest, name);
      assert LastNamed([u], name) == if u.name.GetOr("") == name then Some(u) else None;
    }
  }

  lemma {:induction false} RelatedIsIndexed(index: Index, service: string)
    ensures FirstRelated(index, service).Some? ==> exists i | 0 <= i < |index| ::
      && index[i].value == FirstRelated(index, service).value
      && (Contains(index[i].key, service) || Contains(service, index[i].key))
      && forall j | 0 <= j < i :: !Contains(index[j].key, service) && !Contains(service, index[j].key)
    ensures FirstRelated(index, service).None? ==>
      forall j | 0 <= j < |index| :: !Contains(index[j].key, service) && !Contains(service, index[j].key)
  {
    if index != [] && !Contains(index[0].key, service) && !Contains(service, index[0].key) {
      RelatedIsIndexed(index[1..], service);
      if FirstRelated(index[1..], service).Some? {
        var i :| 0 <= i < |index[1..]| && index[1..][i].value == FirstRelated(index[1..], service).value
          && (Contains(index[1..][i].key, service) || Contains(service, index[1..][i].key))
          && forall j | 0 <= j < i :: !Contains(index[1..][j].key, service) && !Contains(service, index[1..][j].key);
        assert index[i + 1] == index[1..][i];
        forall j | 0 <= j < i + 1 ensures !Contains(index[j].key, service) && !Contains(service, index[j].key) {
          if j > 0 {
            assert index[j] == index[1..][j - 1];
          }
        }
      }
    }
  }

  // ----- a whole migration -----

  datatype Stats = Stats(apis: nat, policies: nat, tenants: nat, applications: nat,
                         migrated: nat, warnings: nat, skipped: nat, manual: nat)

  lemma StartingEmpty(kong: Kong, trail: seq<Entry>, policies: seq<Policy>, tenants: seq<Tenant>, applications: seq<Application>)
    requires trail == [] + AllServiceEntries(kong.services, IndexOf(kong)) + AllConsumerEntries(kong.consumers)
                      + GlobalEntries(kong.plugins)
    requires policies == [] + PoliciesOf(kong.services)
    requires tenants == [] + TenantsOf(kong.consumers) && applications == [] + ApplicationsOf(kong.consumers)
    ensures trail == Trail(kong) && |policies| == |PoliciesOf(kong.services)|
    ensures |tenants| == |TenantsOf(kong.consumers)| && |applications| == |ApplicationsOf(kong.consumers)|
  {
    assert [] + AllServiceEntries(kong.services, IndexOf(kong)) == AllServiceEntries(kong.services, IndexOf(kong));
  }

  /** A migration from the start: its `stats()` and the lists of its report. */
  method RunMigration(kong: Kong)
    returns (stats: Stats, migrated: seq<Event>, warnings: seq<Event>, skipped: seq<Event>, manual: seq<Event>)
    ensures stats.apis == |kong.services|
    ensures stats.tenants + stats.applications == |kong.consumers|
    ensures stats.policies == |PoliciesOf(kong.services)|
    ensures stats.migrated + stats.warnings + stats.skipped + stats.manual == EntryCount(kong)
    ensures stats.migrated == |migrated| && stats.warnings == |warnings|
    ensures stats.skipped == |skipped| && stats.manual == |manual|
    ensures Reported(migrated, warnings, skipped, manual) == SourceSubjects(kong)
  {
    var migrator := new KongToStoaMigrator(kong);
    migrator.Migrate();
    var report := migrator.report;
    StartingEmpty(kong, report.trail, migrator.policies, migrator.tenants, migrator.applications);
    ExactConservation(kong);
    NothingLostNothingInvented(kong);
    ListsHoldTheTrail(report.trail);
    OneResourcePerConsumer(kong.consumers);
    migrated, warnings, skipped, manual := report.migrated, report.warnings, report.skipped, report.manualActions;
    stats := Stats(|migrator.apis|, |migrator.policies|, |migrator.tenants|, |migrator.applications|,
                   |migrated|, |warnings|, |skipped|, |manual|);
  }
}

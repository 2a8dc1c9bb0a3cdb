/** How policies and APIs refer to each other. */
module KongPolicies {
  import opened Wrappers
  import opened Slug
  import opened KongModel

  lemma {:induction false} PolicyNamesConcat(p: seq<Policy>, q: seq<Policy>)
    ensures PolicyNames(p + q) == PolicyNames(p) + PolicyNames(q)
  {
    if p == [] {
      assert p + q == q;
    } else {
      assert (p + q)[1..] == p[1..] + q;
      PolicyNamesConcat(p[1..], q);
    }
  }

  function ListedPolicies(apis: seq<Api>): seq<string> {
    if apis == [] then [] else apis[0].policies + ListedPolicies(apis[1..])
  }

  /** The policies listed on the APIs, one API after the other, are the policy list. */
  lemma {:induction false} PoliciesMatchTheirApis(svcs: seq<Service>, index: Index)
    ensures ListedPolicies(ApisOf(svcs, index)) == PolicyNames(PoliciesOf(svcs))
  {
    if svcs != [] {
      PoliciesMatchTheirApis(svcs[1..], index);
      PolicyNamesConcat(ServicePolicies(svcs[0]), PoliciesOf(svcs[1..]));
      assert ApisOf(svcs, index)[1..] == ApisOf(svcs[1..], index);
    }
  }

  lemma {:induction false} ListedIn(apis: seq<Api>, api: Api, name: string)
    requires api in apis && name in api.policies
    ensures name in ListedPolicies(apis)
  {
    if api != apis[0] {
      ListedIn(apis[1..], api, name);
    }
  }

  /** Every policy that an API names is in the policy list, and every policy in the list is
      named by some API. */
  lemma PoliciesAreReferenced(kong: Kong, name: string)
    ensures var apis, policies := ApisOf(kong.services, IndexOf(kong)), PoliciesOf(kong.services);
      (exists api | api in apis :: name in api.policies) <==> exists p | p in policies :: p.name == name
  {
    var apis, policies := ApisOf(kong.services, IndexOf(kong)), PoliciesOf(kong.services);
    PoliciesMatchTheirApis(kong.services, IndexOf(kong));
    if api :| api in apis && name in api.policies {
      ListedIn(apis, api, name);
      var i :| 0 <= i < |policies| && PolicyNames(policies)[i] == name;
      assert policies[i] in policies;
    }
    if p :| p in policies && p.name == name {
      var i :| 0 <= i < |policies| && policies[i] == p;
      assert PolicyNames(policies)[i] == name;
      Lister(apis, name);
    }
  }

  lemma {:induction false} Lister(apis: seq<Api>, name: string)
    requires name in ListedPolicies(apis)
    ensures exists api | api in apis :: name in api.policies
  {
    if name in apis[0].policies {
      assert apis[0] in apis;
    } else {
      Lister(apis[1..], name);
    }
  }

  // ----- names -----

  lemma RateLimitIsASlug()
    ensures Slugify("rate-limit") == "rate-limit"
  {
    SlugIsFixed("rate-limit");
  }

  lemma CorsIsASlug()
    ensures Slugify("cors") == "cors"
  {
    SlugIsFixed("cors");
  }

  lemma KindIsASlug(kind: string)
    requires kind == "rate-limit" || kind == "cors"
    ensures Slugify(kind) == kind
  {
    if kind == "cors" { CorsIsASlug(); } else { RateLimitIsASlug(); }
  }

  /** The name after an API and a type of policy; an API without a name leaves the type. */
  function NameFor(api: string, kind: string): string {
    if api == "" then kind else api + ("-" + kind)
  }

  lemma NameWithHyphen(api: string, kind: string)
    ensures api != "" ==> NameFor(api, kind) == api + "-" + kind
  {
    assert api + "-" + kind == api + ("-" + kind);
  }

  /** A policy is named after its API and its type. */
  lemma PolicyIsNamedAfterItsApi(p: Plugin, context: string, kind: string)
    requires kind == "rate-limit" || kind == "cors"
    ensures PolicyOf(p, context, kind).name == NameFor(Slugify(context), kind)
  {
    KindIsASlug(kind);
    SlugOfJoinedNames(context, kind);
    NameWithHyphen(Slugify(context), kind);
  }

  lemma {:induction false} ServicePolicyNames(ps: seq<Plugin>, context: string)
    ensures forall policy | policy in AllPluginPolicies(ps, context) ::
      && (policy.kind == "rate-limit" || policy.kind == "cors")
      && policy.name == NameFor(Slugify(context), policy.kind)
  {
    if ps != [] {
      ServicePolicyNames(ps[1..], context);
      if PluginPolicies(ps[0], context) != [] {
        PolicyIsNamedAfterItsApi(ps[0], context, PolicyKind(ps[0].name.GetOr("")).value);
      }
    }
  }

  /** An API requires a key exactly when the report of its service has an authenticating plugin,
      and the order of the plugins does not matter. */
  lemma KeyRequiredInAnyOrder(svc: Service, shuffled: Service, index: Index)
    requires multiset(svc.plugins) == multiset(shuffled.plugins)
    ensures ApiOf(svc, index).keyRequired <==> exists e | e in ServiceEntries(svc, index) :: e.event.AuthPlugin?
    ensures ApiOf(svc, index).keyRequired == ApiOf(shuffled, index).keyRequired
  {
    AuthIsReported(svc.plugins, ServiceName(svc));
    RoutesDoNotAuthenticate(svc.routes, ApiOf(svc, index).id);
    forall p: Plugin ensures p in svc.plugins <==> p in shuffled.plugins {
      assert p in multiset(svc.plugins) <==> p in multiset(shuffled.plugins);
    }
  }

  lemma {:induction false} AuthIsReported(ps: seq<Plugin>, context: string)
    ensures AnyAuth(ps) <==> exists e | e in PluginEntries(ps, context) :: e.event.AuthPlugin?
  {
    if ps != [] {
      AuthIsReported(ps[1..], context);
      var first, rest := PluginEntry(ps[0], context), PluginEntries(ps[1..], context);
      assert forall e :: e in [first] + rest <==> e == first || e in rest;
      assert forall p :: p in ps <==> p == ps[0] || p in ps[1..];
      assert first.event.AuthPlugin? <==> IsAuth(ps[0]);
    }
  }

  lemma {:induction false} RoutesDoNotAuthenticate(rs: seq<Route>, api: string)
    ensures forall e | e in RouteEntries(rs, api) :: e.event.RouteMigrated?
  {
    if rs != [] {
      RoutesDoNotAuthenticate(rs[1..], api);
    }
  }

  /** What a policy of an API may be called. */
  predicate NamedAfter(name: string, api: string) {
    name == NameFor(api, "rate-limit") || name == NameFor(api, "cors")
  }

  lemma PoliciesAreNamedAfterTheirApi(svc: Service, index: Index)
    ensures forall name | name in ApiOf(svc, index).policies :: NamedAfter(name, ApiOf(svc, index).id)
  {
    var policies, id := ServicePolicies(svc), Slugify(ServiceName(svc));
    ServicePolicyNames(svc.plugins, ServiceName(svc));
    forall name | name in PolicyNames(policies) ensures NamedAfter(name, id) {
      var i :| 0 <= i < |policies| && PolicyNames(policies)[i] == name;
      assert policies[i] in policies;
    }
  }

  // ----- does a name identify a policy? -----

  predicate DifferentNames(names: seq<string>) {
    forall i, j | 0 <= i < j < |names| :: names[i] != names[j]
  }

  /** The type of policy that a plugin of a service becomes. */
  function Kind(p: Plugin): (r: Option<string>)
    ensures r.Some? ==> r.value == "rate-limit" || r.value == "cors"
  {
    if IsAuth(p) then None else PolicyKind(p.name.GetOr(""))
  }

  /** Names tell the APIs and the types apart. */
  lemma NamesDiffer(api: string, kind: string, other: string, otherKind: string)
    requires kind == "rate-limit" || kind == "cors"
    requires otherKind == "rate-limit" || otherKind == "cors"
    ensures NameFor(api, kind) == NameFor(other, otherKind) <==> api == other && kind == otherKind
  {
    var a, b := NameFor(api, kind), NameFor(other, otherKind);
    assert a[|a| - 1] == kind[|kind| - 1] && b[|b| - 1] == otherKind[|otherKind| - 1];
    assert "rate-limit"[9] == 't' && "cors"[3] == 's';
    if a == b {
      assert kind == otherKind;
      assert api != "" ==> a[..|a| - |kind| - 1] == api;
      assert other != "" ==> b[..|b| - |kind| - 1] == other;
    }
  }

  predicate KindIn(ps: seq<Plugin>, kind: string) {
    exists p | p in ps :: Kind(p) == Some(kind)
  }

  lemma PluginPolicyNames(p: Plugin, context: string)
    ensures PolicyNames(PluginPolicies(p, context))
         == if Kind(p).Some? then [NameFor(Slugify(context), Kind(p).value)] else []
  {
    if Kind(p).Some? {
      PolicyIsNamedAfterItsApi(p, context, Kind(p).value);
    }
  }

  lemma FirstPluginNames(ps: seq<Plugin>, context: string)
    requires ps != []
    ensures PolicyNames(AllPluginPolicies(ps, context))
         == (if Kind(ps[0]).Some? then [NameFor(Slugify(context), Kind(ps[0]).value)] else [])
            + PolicyNames(AllPluginPolicies(ps[1..], context))
  {
    PluginPolicyNames(ps[0], context);
    PolicyNamesConcat(PluginPolicies(ps[0], context), AllPluginPolicies(ps[1..], context));
  }

  /** The names of one service are those of the types of its plugins. */
  lemma {:induction false} NamesOfKinds(ps: seq<Plugin>, context: string, name: string)
    ensures name in PolicyNames(AllPluginPolicies(ps, context)) <==>
      exists p | p in ps && Kind(p).Some? :: name == NameFor(Slugify(context), Kind(p).value)
  {
    if ps != [] {
      NamesOfKinds(ps[1..], context, name);
      FirstPluginNames(ps, context);
      assert forall p :: p in ps <==> p == ps[0] || p in ps[1..];
    }
  }

  /** No two plugins become policies of the same type. */
  predicate KindsOnce(ps: seq<Plugin>) {
    forall i, j | 0 <= i < j < |ps| :: Kind(ps[i]).Some? ==> Kind(ps[i]) != Kind(ps[j])
  }

  lemma KindsOnceTail(ps: seq<Plugin>)
    requires ps != []
    ensures KindsOnce(ps) <==> KindsOnce(ps[1..]) && (Kind(ps[0]).Some? ==> !KindIn(ps[1..], Kind(ps[0]).value))
  {
    var first, rest := ps[0], ps[1..];
    if KindsOnce(ps) {
      assert forall j | 0 <= j < |rest| :: rest[j] == ps[j + 1];
    } else {
      var i, j :| 0 <= i < j < |ps| && Kind(ps[i]).Some? && Kind(ps[i]) == Kind(ps[j]);
      assert ps[j] == rest[j - 1];
      assert i > 0 ==> ps[i] == rest[i - 1];
      assert i == 0 ==> rest[j - 1] in rest;
    }
  }

  lemma DifferentConcat(a: seq<string>, b: seq<string>)
    ensures DifferentNames(a + b) <==>
      DifferentNames(a) && DifferentNames(b) && forall name | name in a :: name !in b
  {
    var all := a + b;
    if DifferentNames(all) {
      DifferentParts(a, b);
    } else {
      var i, j :| 0 <= i < j < |all| && all[i] == all[j];
      if j < |a| {
        assert a[i] == a[j];
      } else if i < |a| {
        assert all[j] == b[j - |a|] && a[i] in a && b[j - |a|] in b;
      } else {
        assert b[i - |a|] == b[j - |a|];
      }
    }
  }

  lemma DifferentParts(a: seq<string>, b: seq<string>)
    requires DifferentNames(a + b)
    ensures DifferentNames(a) && DifferentNames(b) && forall name | name in a :: name !in b
  {
    var all := a + b;
    forall i, j | 0 <= i < j < |a| ensures a[i] != a[j] {
      assert all[i] == a[i] && all[j] == a[j];
    }
    forall i, j | 0 <= i < j < |b| ensures b[i] != b[j] {
      assert all[|a| + i] == b[i] && all[|a| + j] == b[j];
    }
    forall i, j | 0 <= i < |a| && 0 <= j < |b| ensures a[i] != b[j] {
      assert all[i] == a[i] && all[|a| + j] == b[j];
    }
  }

  lemma {:induction false} NamesOfOneService(ps: seq<Plugin>, context: string)
    ensures DifferentNames(PolicyNames(AllPluginPolicies(ps, context))) <==> KindsOnce(ps)
  {
    if ps != [] {
      NamesOfOneService(ps[1..], context);
      KindsOnceTail(ps);
      FirstPluginNames(ps, context);
      var rest := PolicyNames(AllPluginPolicies(ps[1..], context));
      if Kind(ps[0]).Some? {
        var name := NameFor(Slugify(context), Kind(ps[0]).value);
        NameOfKind(ps[1..], context, Kind(ps[0]).value);
        OneMoreName(name, rest);
      } else {
        assert [] + rest == rest;
      }
    }
  }

  lemma OneMoreName(name: string, rest: seq<string>)
    ensures DifferentNames([name] + rest) <==> DifferentNames(rest) && name !in rest
  {
    DifferentConcat([name], rest);
  }

  lemma NameOfKind(ps: seq<Plugin>, context: string, kind: string)
    requires kind == "rate-limit" || kind == "cors"
    ensures NameFor(Slugify(context), kind) in PolicyNames(AllPluginPolicies(ps, context)) <==> KindIn(ps, kind)
  {
    NamesOfKinds(ps, context, NameFor(Slugify(context), kind));
    forall p | p in ps && Kind(p).Some?
      ensures NameFor(Slugify(context), kind) == NameFor(Slugify(context), Kind(p).value) <==> Kind(p).value == kind
    {
      NamesDiffer(Slugify(context), kind, Slugify(context), Kind(p).value);
    }
  }

  /** Two services make one name: their ids are the same, and plugins of both become policies
      of one type. */
  predicate Clash(svc: Service, other: Service) {
    && Slugify(ServiceName(svc)) == Slugify(ServiceName(other))
    && exists p | p in svc.plugins :: Kind(p).Some? && KindIn(other.plugins, Kind(p).value)
  }

  lemma NameOfClash(svc: Service, other: Service) returns (name: string)
    requires Clash(svc, other)
    ensures name in PolicyNames(ServicePolicies(svc)) && name in PolicyNames(ServicePolicies(other))
  {
    var p :| p in svc.plugins && Kind(p).Some? && KindIn(other.plugins, Kind(p).value);
    NameOfKind(svc.plugins, ServiceName(svc), Kind(p).value);
    NameOfKind(other.plugins, ServiceName(other), Kind(p).value);
    name := NameFor(Slugify(ServiceName(svc)), Kind(p).value);
  }

  lemma PluginOfName(svc: Service, name: string) returns (p: Plugin)
    requires name in PolicyNames(ServicePolicies(svc))
    ensures p in svc.plugins && Kind(p).Some? && name == NameFor(Slugify(ServiceName(svc)), Kind(p).value)
  {
    NamesOfKinds(svc.plugins, ServiceName(svc), name);
    p :| p in svc.plugins && Kind(p).Some? && name == NameFor(Slugify(ServiceName(svc)), Kind(p).value);
  }

  lemma SharedNamesClash(svc: Service, other: Service, name: string)
    requires name in PolicyNames(ServicePolicies(svc)) && name in PolicyNames(ServicePolicies(other))
    ensures Clash(svc, other)
  {
    var p := PluginOfName(svc, name);
    var q := PluginOfName(other, name);
    NamesDiffer(Slugify(ServiceName(svc)), Kind(p).value, Slugify(ServiceName(other)), Kind(q).value);
    assert KindIn(other.plugins, Kind(q).value);
  }

  lemma {:induction false} NameOfAService(svcs: seq<Service>, name: string)
    ensures name in PolicyNames(PoliciesOf(svcs)) <==> exists svc | svc in svcs :: name in PolicyNames(ServicePolicies(svc))
  {
    if svcs != [] {
      NameOfAService(svcs[1..], name);
      PolicyNamesConcat(ServicePolicies(svcs[0]), PoliciesOf(svcs[1..]));
      assert forall svc :: svc in svcs <==> svc == svcs[0] || svc in svcs[1..];
    }
  }

  /** Every service has at most one plugin for each type of policy, and no two services clash. */
  predicate NoClash(svcs: seq<Service>) {
    && (forall svc | svc in svcs :: KindsOnce(svc.plugins))
    && (forall i, j | 0 <= i < j < |svcs| :: !Clash(svcs[i], svcs[j]))
  }

  lemma NoClashTail(svcs: seq<Service>)
    requires svcs != []
    ensures NoClash(svcs) <==>
      KindsOnce(svcs[0].plugins) && NoClash(svcs[1..]) && forall svc | svc in svcs[1..] :: !Clash(svcs[0], svc)
  {
    var first, rest := svcs[0], svcs[1..];
    assert forall svc :: svc in svcs <==> svc == first || svc in rest;
    assert forall i | 0 <= i < |rest| :: rest[i] == svcs[i + 1];
    if KindsOnce(first.plugins) && NoClash(rest) && (forall svc | svc in rest :: !Clash(first, svc)) {
      forall i, j | 0 <= i < j < |svcs| ensures !Clash(svcs[i], svcs[j]) {
        assert svcs[j] == rest[j - 1] && (i > 0 ==> svcs[i] == rest[i - 1]);
      }
    }
  }

  /** A name identifies one policy of the policy list if and only if no service has two plugins
      of one type and no two services with the same id have plugins of the same type. */
  lemma {:induction false} NamesIdentifyIff(svcs: seq<Service>)
    ensures DifferentNames(PolicyNames(PoliciesOf(svcs))) <==> NoClash(svcs)
  {
    if svcs != [] {
      var first, rest := PolicyNames(ServicePolicies(svcs[0])), PolicyNames(PoliciesOf(svcs[1..]));
      NamesIdentifyIff(svcs[1..]);
      NoClashTail(svcs);
      PolicyNamesConcat(ServicePolicies(svcs[0]), PoliciesOf(svcs[1..]));
      DifferentConcat(first, rest);
      NamesOfOneService(svcs[0].plugins, ServiceName(svcs[0]));
      NoneSharedIff(svcs[0], svcs[1..]);
    }
  }

  lemma NoneSharedIff(svc: Service, others: seq<Service>)
    ensures (forall name | name in PolicyNames(ServicePolicies(svc)) :: name !in PolicyNames(PoliciesOf(others)))
       <==> forall other | other in others :: !Clash(svc, other)
  {
    if name :| name in PolicyNames(ServicePolicies(svc)) && name in PolicyNames(PoliciesOf(others)) {
      NameOfAService(others, name);
      var other :| other in others && name in PolicyNames(ServicePolicies(other));
      SharedNamesClash(svc, other, name);
    }
    if other :| other in others && Clash(svc, other) {
      var name := NameOfClash(svc, other);
      NameOfAService(others, name);
    }
  }

  /** Both rate limiters on one service make two policies of the same name. */
  lemma BothLimitersClash(svc: Service)
    requires svc.plugins == [Plugin(Some("rate-limiting"), []), Plugin(Some("rate-limiting-advanced"), [])]
    ensures !DifferentNames(PolicyNames(PoliciesOf([svc])))
  {
    assert Kind(svc.plugins[0]) == Kind(svc.plugins[1]) == Some("rate-limit");
    assert svc in [svc] && !KindsOnce(svc.plugins);
    NamesIdentifyIff([svc]);
  }
}

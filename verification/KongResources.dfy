/** Which requests the resources of an API cover, compared with the requests that the routes serve. */
module KongResources {
  import opened Wrappers
  import opened Text
  import opened KongModel

  // ----- how a request is matched -----

  /** A star at the end of a pattern stands for any text. */
  predicate Covers(pattern: string, request: string) {
    if EndsWith(pattern, "*") then pattern[..|pattern| - 1] <= request else request == pattern
  }

  /** `is_required_route` of the gateway, for one pattern: it cuts a slash off with the star. */
  predicate GateCovers(pattern: string, request: string) {
    if pattern == "/*" || pattern == "*" then true
    else if EndsWith(pattern, "/*") then pattern[..|pattern| - 2] <= request
    else request == pattern
  }

  predicate Starred(path: string) {
    EndsWith(path, "*")
  }

  // ----- one path -----

  /** With a star standing for any text, a request of the route is covered exactly when it goes
      on with a slash; a path that ends in a star is covered as it is. */
  lemma CoveredIff(r: Route, path: string, request: string)
    requires path <= request
    ensures Covers(ResourceOf(r, path).path, request) <==> Starred(path) || path + "/" <= request
  {
    var pattern := ResourceOf(r, path).path;
    assert !Starred(path) ==> pattern[|pattern| - 1..] == "*" && pattern[..|pattern| - 1] == path + "/";
  }

  lemma NothingElseIsCovered(r: Route, path: string, request: string)
    requires !Starred(path) && Covers(ResourceOf(r, path).path, request)
    ensures path <= request
  {
    var pattern := ResourceOf(r, path).path;
    assert pattern[|pattern| - 1..] == "*" && pattern[..|pattern| - 1] == path + "/";
    assert path == (path + "/")[..|path|];
  }

  /** Kong serves every request that starts with the path. The resource covers all of them if
      and only if the path ends in a star, and no others if and only if it does not. */
  lemma PathIsCoveredIff(r: Route, path: string)
    ensures (forall request | path <= request :: Covers(ResourceOf(r, path).path, request)) <==> Starred(path)
    ensures (forall request | Covers(ResourceOf(r, path).path, request) :: path <= request) <==> !Starred(path)
  {
    CoveredIff(r, path, path);
    forall request | path <= request ensures Starred(path) ==> Covers(ResourceOf(r, path).path, request) {
      CoveredIff(r, path, request);
    }
    if Starred(path) {
      var shorter := path[..|path| - 1];
      assert Covers(ResourceOf(r, path).path, shorter) && !(path <= shorter);
    } else {
      forall request | Covers(ResourceOf(r, path).path, request) ensures path <= request {
        NothingElseIsCovered(r, path, request);
      }
    }
  }

  lemma MissedAt(r: Route, path: string, request: string)
    requires !Starred(path) && path <= request && (|request| > |path| ==> request[|path|] != '/')
    ensures !Covers(ResourceOf(r, path).path, request) && GateCovers(ResourceOf(r, path).path, request)
  {
    CoveredIff(r, path, request);
    assert (path + "/")[|path|] == '/';
    GateServes(r, path, request);
  }

  /** The path itself is missed, and everything that does not go on with a slash. */
  lemma PathItselfIsMissed(r: Route)
    ensures !Covers(ResourceOf(r, "/payments").path, "/payments")
    ensures GateCovers(ResourceOf(r, "/payments").path, "/payments")
  {
    MissedAt(r, "/payments", "/payments");
  }

  /** A route without paths gets the path "/", and with it a resource that misses nearly all. */
  lemma DefaultPathIsMissed(r: Route)
    requires r.paths == None
    ensures RoutePaths(r) == ["/"]
    ensures !Covers(ResourceOf(r, "/").path, "/users") && GateCovers(ResourceOf(r, "/").path, "/users")
  {
    MissedAt(r, "/", "/users");
  }

  lemma GateServes(r: Route, path: string, request: string)
    requires !Starred(path)
    ensures GateCovers(ResourceOf(r, path).path, request) <==> path <= request
  {
    var pattern := ResourceOf(r, path).path;
    assert pattern[|pattern| - 2..] == "/*" && pattern[..|pattern| - 2] == path;
  }

  lemma GateMissesStarred(r: Route, path: string)
    requires Starred(path)
    ensures var pattern := ResourceOf(r, path).path;
      exists request :: !(GateCovers(pattern, request) <==> path <= request)
  {
    var pattern := ResourceOf(r, path).path;
    assert pattern == path;
    if pattern == "*" {
      assert GateCovers(pattern, "") && !(path <= "");
    } else if EndsWith(pattern, "/*") {
      var shorter := path[..|path| - 2];
      assert GateCovers(pattern, shorter) && !(path <= shorter);
    } else {
      var longer := path + "x";
      assert !GateCovers(pattern, longer) && path <= longer;
    }
  }

  /** By the gateway's rule the resource is for exactly the requests that Kong serves, if and
      only if the path does not end in a star. */
  lemma GateServesIff(r: Route, path: string)
    ensures (forall request :: GateCovers(ResourceOf(r, path).path, request) <==> path <= request) <==> !Starred(path)
  {
    if Starred(path) {
      GateMissesStarred(r, path);
    } else {
      forall request ensures GateCovers(ResourceOf(r, path).path, request) <==> path <= request {
        GateServes(r, path, request);
      }
    }
  }

  // ----- all paths -----

  function AllPaths(rs: seq<Route>): seq<string> {
    if rs == [] then [] else RoutePaths(rs[0]) + AllPaths(rs[1..])
  }

  /** The resource serves what the path does, by the gateway's rule, or is the path with its star. */
  ghost predicate Serves(resource: Resource, path: string) {
    && resource.methods != []
    && if Starred(path) then resource.path == path else forall request :: GateCovers(resource.path, request) <==> path <= request
  }

  lemma ResourceServes(r: Route, path: string)
    ensures Serves(ResourceOf(r, path), path)
  {
    GateServesIff(r, path);
  }

  /** The resources serve the paths of all routes, one each, in order. */
  lemma {:induction false} ResourcesServeThePaths(rs: seq<Route>)
    ensures |AllResources(rs)| == |AllPaths(rs)|
    ensures forall i | 0 <= i < |AllPaths(rs)| :: Serves(AllResources(rs)[i], AllPaths(rs)[i])
  {
    if rs != [] {
      ResourcesServeTheRoute(rs[0], RoutePaths(rs[0]));
      ResourcesServeThePaths(rs[1..]);
    }
  }

  lemma {:induction false} ResourcesServeTheRoute(r: Route, paths: seq<string>)
    ensures |ResourcesOf(r, paths)| == |paths|
    ensures forall i | 0 <= i < |paths| :: Serves(ResourcesOf(r, paths)[i], paths[i])
  {
    if paths != [] {
      var first, rest := ResourceOf(r, paths[0]), ResourcesOf(r, paths[1..]);
      ResourcesServeTheRoute(r, paths[1..]);
      ResourceServes(r, paths[0]);
      assert ResourcesOf(r, paths) == [first] + rest;
    }
  }

  lemma ResourcesArePaths(svc: Service, index: Index)
    ensures |ApiOf(svc, index).resources| == |AllPaths(svc.routes)|
  {
    ResourcesServeThePaths(svc.routes);
  }

  // ----- a whole API: methods and paths -----

  predicate HasPath(rs: seq<Route>, r: Route, path: string) {
    r in rs && path in RoutePaths(r)
  }

  /** A Kong route that names no methods accepts all. */
  predicate Accepts(r: Route, verb: string) {
    r.methods.GetOr([]) == [] || verb in r.methods.value
  }

  ghost predicate Served(rs: seq<Route>, verb: string, request: string) {
    exists r, path | HasPath(rs, r, path) :: Accepts(r, verb) && path <= request
  }

  predicate Covered(resources: seq<Resource>, verb: string, request: string) {
    exists x | x in resources :: verb in x.methods && Covers(x.path, request)
  }

  predicate GateCovered(resources: seq<Resource>, verb: string, request: string) {
    exists x | x in resources :: verb in x.methods && GateCovers(x.path, request)
  }

  lemma {:induction false} PathsHaveResources(r: Route, paths: seq<string>, path: string)
    requires path in paths
    ensures ResourceOf(r, path) in ResourcesOf(r, paths)
  {
    if path != paths[0] {
      PathsHaveResources(r, paths[1..], path);
    }
  }

  lemma {:induction false} RoutesHaveResources(rs: seq<Route>, r: Route, path: string)
    requires HasPath(rs, r, path)
    ensures ResourceOf(r, path) in AllResources(rs)
  {
    if r == rs[0] {
      PathsHaveResources(r, RoutePaths(r), path);
    } else {
      RoutesHaveResources(rs[1..], r, path);
    }
  }

  lemma {:induction false} ResourceHasPath(r: Route, paths: seq<string>, x: Resource) returns (path: string)
    requires x in ResourcesOf(r, paths)
    ensures path in paths && x == ResourceOf(r, path)
  {
    if x == ResourceOf(r, paths[0]) {
      path := paths[0];
    } else {
      path := ResourceHasPath(r, paths[1..], x);
    }
  }

  lemma {:induction false} ResourceHasRoute(rs: seq<Route>, x: Resource) returns (r: Route, path: string)
    requires x in AllResources(rs)
    ensures HasPath(rs, r, path) && x == ResourceOf(r, path)
  {
    if x in ResourcesOf(rs[0], RoutePaths(rs[0])) {
      r := rs[0];
      path := ResourceHasPath(r, RoutePaths(r), x);
    } else {
      r, path := ResourceHasRoute(rs[1..], x);
    }
  }

  /** A path with a star covers this path, for this method. */
  ghost predicate UnderStar(rs: seq<Route>, verb: string, path: string) {
    exists s, q | HasPath(rs, s, q) :: Starred(q) && q[..|q| - 1] <= path && verb in RouteMethods(s)
  }

  predicate NamesMethods(r: Route) {
    r.methods.GetOr([]) != []
  }

  ghost predicate AllCovered(rs: seq<Route>) {
    forall verb, request | Served(rs, verb, request) :: Covered(AllResources(rs), verb, request)
  }

  lemma CoverOf(rs: seq<Route>, r: Route, path: string, verb: string) returns (s: Route, q: string)
    requires AllCovered(rs) && HasPath(rs, r, path) && Accepts(r, verb)
    ensures HasPath(rs, s, q) && verb in RouteMethods(s)
    ensures if Starred(q) then q[..|q| - 1] <= path else q + "/" <= path
  {
    assert Served(rs, verb, path);
    var x :| x in AllResources(rs) && verb in x.methods && Covers(x.path, path);
    s, q := ResourceHasRoute(rs, x);
    if !Starred(q) {
      NothingElseIsCovered(s, q, path);
      CoveredIff(s, q, path);
    }
  }

  /** A path that is covered is covered by a longer and longer chain, up to one with a star. */
  lemma {:induction false} CoveredIsUnderStar(rs: seq<Route>, r: Route, path: string, verb: string)
    requires AllCovered(rs) && HasPath(rs, r, path) && Accepts(r, verb)
    ensures UnderStar(rs, verb, path)
    decreases |path|
  {
    var s, q := CoverOf(rs, r, path, verb);
    if !Starred(q) {
      CoveredIsUnderStar(rs, s, q, verb);
      var t, star :| HasPath(rs, t, star) && Starred(star) && star[..|star| - 1] <= q && verb in RouteMethods(t);
      assert star[..|star| - 1] <= q <= q + "/" <= path;
    }
  }

  function Longest(words: seq<string>): (n: nat)
    ensures forall word | word in words :: |word| <= n
  {
    if words == [] then 0
    else if |words[0]| > Longest(words[1..]) then |words[0]| else Longest(words[1..])
  }

  function LongestMethod(rs: seq<Route>): (n: nat)
    ensures forall r, verb | r in rs && verb in RouteMethods(r) :: |verb| <= n
  {
    if rs == [] then 0
    else
      var here, later := Longest(RouteMethods(rs[0])), LongestMethod(rs[1..]);
      if here > later then here else later
  }

  /** A method that no resource has. */
  function OtherMethod(rs: seq<Route>): (verb: string)
    ensures forall r, other | r in rs && other in RouteMethods(r) :: other != verb
  {
    seq(LongestMethod(rs) + 1, _ => 'X')
  }

  /** With a star standing for any text, the resources of an API cover all that its routes serve
      if and only if every route with a path names its methods, and every path is below a path
      with a star, for each of these methods. */
  lemma AllCoveredIff(rs: seq<Route>)
    ensures AllCovered(rs) <==>
      forall r, path | HasPath(rs, r, path) ::
        NamesMethods(r) && forall verb | verb in RouteMethods(r) :: UnderStar(rs, verb, path)
  {
    if AllCovered(rs) {
      forall r, path | HasPath(rs, r, path)
        ensures NamesMethods(r) && forall verb | verb in RouteMethods(r) :: UnderStar(rs, verb, path)
      {
        MethodsAreNamed(rs, r, path);
        forall verb | verb in RouteMethods(r) ensures UnderStar(rs, verb, path) {
          CoveredIsUnderStar(rs, r, path, verb);
        }
      }
    } else {
      var verb, request :| Served(rs, verb, request) && !Covered(AllResources(rs), verb, request);
      var r, path :| HasPath(rs, r, path) && Accepts(r, verb) && path <= request;
      if NamesMethods(r) && UnderStar(rs, verb, path) {
        StarCovers(rs, verb, path, request);
      }
    }
  }

  lemma MethodsAreNamed(rs: seq<Route>, r: Route, path: string)
    requires AllCovered(rs) && HasPath(rs, r, path)
    ensures NamesMethods(r)
  {
    if !NamesMethods(r) {
      var s, q := CoverOf(rs, r, path, OtherMethod(rs));
    }
  }

  lemma StarCovers(rs: seq<Route>, verb: string, path: string, request: string)
    requires UnderStar(rs, verb, path) && path <= request
    ensures Covered(AllResources(rs), verb, request)
  {
    var s, q :| HasPath(rs, s, q) && Starred(q) && q[..|q| - 1] <= path && verb in RouteMethods(s);
    RoutesHaveResources(rs, s, q);
    assert Covers(ResourceOf(s, q).path, request);
  }

  /** A star without a slash before it means nothing to the gateway. */
  predicate BareStar(path: string) {
    Starred(path) && path != "*" && !EndsWith(path, "/*")
  }

  /** What the gateway takes as a prefix. */
  function GatePrefix(path: string): string
    requires !BareStar(path)
  {
    if !Starred(path) then path else if path == "*" then "" else path[..|path| - 2]
  }

  lemma GateReach(r: Route, path: string, request: string)
    requires !BareStar(path)
    ensures GateCovers(ResourceOf(r, path).path, request) <==> GatePrefix(path) <= request
    ensures GatePrefix(path) <= path
  {
    if !Starred(path) {
      GateServes(r, path, request);
    } else if path == "/*" {
      assert GatePrefix(path) == "";
    }
  }

  /** The route names its methods, and what is left of its path without a slash and star is
      served for each of them. */
  ghost predicate FitsGate(rs: seq<Route>, r: Route, path: string)
    requires !BareStar(path)
  {
    NamesMethods(r) && forall verb | verb in RouteMethods(r) :: Served(rs, verb, GatePrefix(path))
  }

  /** By the gateway's rule, and without bare stars, the resources of an API are for exactly the
      requests that its routes serve if and only if every route with a path names its methods,
      and they serve what is left of its path without a slash and star. */
  lemma GateServesTheApiIff(rs: seq<Route>)
    requires forall r, path | HasPath(rs, r, path) :: !BareStar(path)
    ensures (forall verb, request :: Served(rs, verb, request) <==> GateCovered(AllResources(rs), verb, request)) <==>
      forall r, path | HasPath(rs, r, path) :: FitsGate(rs, r, path)
  {
    if forall r, path | HasPath(rs, r, path) :: FitsGate(rs, r, path) {
      forall verb, request ensures Served(rs, verb, request) <==> GateCovered(AllResources(rs), verb, request) {
        if Served(rs, verb, request) {
          var r, path :| HasPath(rs, r, path) && Accepts(r, verb) && path <= request;
          ServedIsGateCovered(rs, r, path, verb, request);
        }
        if GateCovered(AllResources(rs), verb, request) {
          var x :| x in AllResources(rs) && verb in x.methods && GateCovers(x.path, request);
          var s, q := ResourceHasRoute(rs, x);
          GateCoveredIsServed(rs, s, q, verb, request);
        }
      }
    } else {
      var r, path :| HasPath(rs, r, path) && !FitsGate(rs, r, path);
      Mismatch(rs, r, path);
    }
  }

  lemma ServedIsGateCovered(rs: seq<Route>, r: Route, path: string, verb: string, request: string)
    requires HasPath(rs, r, path) && !BareStar(path) && FitsGate(rs, r, path)
    requires Accepts(r, verb) && path <= request
    ensures GateCovered(AllResources(rs), verb, request)
  {
    RoutesHaveResources(rs, r, path);
    GateReach(r, path, request);
  }

  lemma GateCoveredIsServed(rs: seq<Route>, s: Route, q: string, verb: string, request: string)
    requires !BareStar(q) && FitsGate(rs, s, q)
    requires verb in RouteMethods(s) && GateCovers(ResourceOf(s, q).path, request)
    ensures Served(rs, verb, request)
  {
    GateReach(s, q, request);
    var r, path :| HasPath(rs, r, path) && Accepts(r, verb) && path <= GatePrefix(q);
    assert path <= request;
  }

  lemma Mismatch(rs: seq<Route>, r: Route, path: string)
    requires HasPath(rs, r, path) && !BareStar(path) && !FitsGate(rs, r, path)
    ensures exists verb, request :: !(Served(rs, verb, request) <==> GateCovered(AllResources(rs), verb, request))
  {
    if !NamesMethods(r) {
      NoResourceForOtherMethod(rs, path);
      assert Served(rs, OtherMethod(rs), path);
    } else {
      var verb :| verb in RouteMethods(r) && !Served(rs, verb, GatePrefix(path));
      RoutesHaveResources(rs, r, path);
      GateReach(r, path, GatePrefix(path));
      assert GateCovered(AllResources(rs), verb, GatePrefix(path));
    }
  }

  lemma NoResourceForOtherMethod(rs: seq<Route>, request: string)
    ensures !GateCovered(AllResources(rs), OtherMethod(rs), request)
  {
    if x :| x in AllResources(rs) && OtherMethod(rs) in x.methods {
      var s, q := ResourceHasRoute(rs, x);
    }
  }
}

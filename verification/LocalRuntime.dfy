/** Answering a request from the archived site (packages/archive-core/src/runtime.ts:49-175). Decoding a
    request path and checking a relative path are functions given by the caller. */
module LocalRuntime {
  import opened Options
  import opened Sorting
  import opened RouteMap

  datatype Paths = Paths(decode: string -> Option<string>, canonical: string -> Option<string>)

  datatype Resource = Resource(scope: Scope, localResource: string, state: RouteState)

  datatype Site = Site(
    scope: Scope, routes: seq<Entry>, collisions: Collisions, resources: seq<Resource>, dependencies: seq<Scope>,
    additional: seq<string>)

  datatype Answer =
    | Page(path: string, resource: string, route: Entry)
    | File(path: string, resource: string)
    | NotFound(path: string)
    | Conflict
    | Invalid

  // ----- The resources that may be served -----

  /** A route that may be served: it matches locally, and no collision names it. */
  predicate Clean(site: Site, route: Entry) {
    route.state == LocalMatch && !Marked(site.collisions, route.routeId)
  }

  predicate Blocked(p: Paths, site: Site, x: string) {
    exists i :: 0 <= i < |site.routes| && !Clean(site, site.routes[i])
      && p.canonical(site.routes[i].localResource) == Some(x)
  }

  predicate LeadsTo(p: Paths, route: Entry, x: string) {
    || p.canonical(route.localResource) == Some(x)
    || (route.fallback.Some? && p.canonical(route.fallback.value.entryResource) == Some(x))
  }

  /** A clean route leads to the resource. */
  predicate Routed(p: Paths, site: Site, x: string) {
    exists i :: 0 <= i < |site.routes| && Clean(site, site.routes[i]) && LeadsTo(p, site.routes[i], x)
  }

  predicate Listed(p: Paths, site: Site, x: string) {
    || (exists i ::
          && 0 <= i < |site.resources| && site.resources[i].state == LocalMatch
          && p.canonical(site.resources[i].localResource) == Some(x))
    || (exists i :: 0 <= i < |site.additional| && p.canonical(site.additional[i]) == Some(x))
  }

  /** `resourceSet`: a resource is served exactly when a clean route leads to it, or when it is listed and
      no other route blocks it. */
  method ResourceSet(p: Paths, site: Site) returns (resources: set<string>)
    ensures forall x :: x in resources <==> Routed(p, site, x) || (Listed(p, site, x) && !Blocked(p, site, x))
  {
    resources := {};
    var blocked: set<string> := {};
    var i := 0;
    while i < |site.routes|
      invariant i <= |site.routes|
      invariant forall x :: x in blocked <==>
        exists k :: 0 <= k < i && !Clean(site, site.routes[k]) && p.canonical(site.routes[k].localResource) == Some(x)
    {
      var path := p.canonical(site.routes[i].localResource);
      if !Clean(site, site.routes[i]) && path.Some? {
        blocked := blocked + {path.value};
      }
      i := i + 1;
    }
    i := 0;
    while i < |site.resources|
      invariant i <= |site.resources|
      invariant forall x :: x in resources <==>
        (x !in blocked && exists k ::
           && 0 <= k < i && site.resources[k].state == LocalMatch
           && p.canonical(site.resources[k].localResource) == Some(x))
    {
      var path := p.canonical(site.resources[i].localResource);
      if site.resources[i].state == LocalMatch && path.Some? && path.value !in blocked {
        resources := resources + {path.value};
      }
      i := i + 1;
    }
    ghost var original := resources;
    i := 0;
    while i < |site.additional|
      invariant i <= |site.additional|
      invariant forall x :: x in resources <==>
        x in original || (x !in blocked && exists k :: 0 <= k < i && p.canonical(site.additional[k]) == Some(x))
    {
      var path := p.canonical(site.additional[i]);
      if path.Some? && path.value !in blocked {
        resources := resources + {path.value};
      }
      i := i + 1;
    }
    assert forall x :: x in resources <==> Listed(p, site, x) && !Blocked(p, site, x);
    resources := AddRoutes(p, site, resources);
  }

  method AddRoutes(p: Paths, site: Site, before: set<string>) returns (resources: set<string>)
    ensures forall x :: x in resources <==> x in before || Routed(p, site, x)
  {
    resources := before;
    var i := 0;
    while i < |site.routes|
      invariant i <= |site.routes|
      invariant forall x :: x in resources <==>
        (x in before || exists k :: 0 <= k < i && Clean(site, site.routes[k]) && LeadsTo(p, site.routes[k], x))
    {
      var route := site.routes[i];
      if Clean(site, route) {
        var path := p.canonical(route.localResource);
        if path.Some? {
          resources := resources + {path.value};
        }
        if route.fallback.Some? {
          var entry := p.canonical(route.fallback.value.entryResource);
          if entry.Some? {
            resources := resources + {entry.value};
          }
        }
      }
      i := i + 1;
    }
  }

  /** `runtimeResourcePaths` lists the same set. */
  predicate Served(p: Paths, site: Site, x: string) {
    Routed(p, site, x) || (Listed(p, site, x) && !Blocked(p, site, x))
  }

  // ----- The answer -----

  predicate SharedScope(site: Site) {
    && (forall i :: 0 <= i < |site.resources| ==> site.resources[i].scope == site.scope)
    && (forall i :: 0 <= i < |site.routes| ==> site.routes[i].scope == site.scope)
    && (forall i :: 0 <= i < |site.dependencies| ==> site.dependencies[i] == site.scope)
  }

  predicate Matches(site: Site, i: nat, path: string)
    requires i < |site.routes|
  {
    site.routes[i].localRoute == path
  }

  /** The document of a route: the entry document of a single-page application. */
  function DocumentOf(route: Entry): string {
    if route.spa && route.fallback.Some? then route.fallback.value.entryResource else route.localResource
  }

  /** A path is answered by the one route that has it, if that is clean. */
  ghost predicate OnlyMatch(site: Site, i: nat, path: string)
    requires i < |site.routes|
  {
    && Matches(site, i, path) && (forall j :: 0 <= j < |site.routes| && Matches(site, j, path) ==> j == i)
    && Clean(site, site.routes[i])
  }

  /** A route with the path is not clean, or two routes have it. */
  ghost predicate Disputed(site: Site, path: string) {
    || (exists i :: 0 <= i < |site.routes| && Matches(site, i, path) && !Clean(site, site.routes[i]))
    || (exists i, j :: 0 <= i < j < |site.routes| && Matches(site, i, path) && Matches(site, j, path))
  }

  /** The route is answered with this document: the entry of its single-page application if it has one, or else its own
      resource, as a safe path. */
  predicate AnsweredWith(p: Paths, route: Entry, document: string) {
    && (route.spa && route.fallback.Some? ==> p.canonical(route.fallback.value.entryResource) == Some(document))
    && (!route.spa || route.fallback.None? ==> p.canonical(route.localResource) == Some(document))
  }

  /** Nothing is a safe path that the route could be answered with. */
  predicate Unanswerable(p: Paths, route: Entry) {
    && (route.spa && route.fallback.Some? ==> p.canonical(route.fallback.value.entryResource).None?)
    && (!route.spa || route.fallback.None? ==> p.canonical(route.localResource).None?)
  }

  /** What each answer says about the site. */
  ghost predicate Justified(p: Paths, site: Site, readable: bool, request: string, answer: Answer) {
    var path := p.decode(request);
    match answer
    case Invalid => !readable || (SharedScope(site) && path.None?)
    case Conflict =>
      readable && (!SharedScope(site) || (path.Some? && Disputed(site, path.value)))
    case Page(at, resource, route) =>
      && readable && SharedScope(site) && path == Some(at)
      && exists i :: 0 <= i < |site.routes| && site.routes[i] == route && OnlyMatch(site, i, at)
           && AnsweredWith(p, route, resource)
    case File(at, resource) =>
      && readable && SharedScope(site) && path == Some(at) && at != "/" && at != "" && resource == at[1..]
           && Served(p, site, resource) && !Disputed(site, at)
      && forall i :: 0 <= i < |site.routes| && Matches(site, i, at) ==> Unanswerable(p, site.routes[i])
    case NotFound(at) =>
      && readable && SharedScope(site) && path == Some(at) && (at != "/" && at != "" ==> !Served(p, site, at[1..]))
      && !Disputed(site, at)
      && forall i :: 0 <= i < |site.routes| && Matches(site, i, at) ==> Unanswerable(p, site.routes[i])
  }

  /** The routes with a path. */
  method RouteMatches(site: Site, path: string) returns (matches: seq<nat>)
    ensures forall k :: 0 <= k < |matches| ==> matches[k] < |site.routes| && Matches(site, matches[k], path)
    ensures forall i :: 0 <= i < |site.routes| && Matches(site, i, path) ==> i in matches
    ensures forall k, l :: 0 <= k < l < |matches| ==> matches[k] < matches[l]
  {
    matches := [];
    var i := 0;
    while i < |site.routes|
      invariant i <= |site.routes|
      invariant forall k :: 0 <= k < |matches| ==> matches[k] < i && Matches(site, matches[k], path)
      invariant forall k :: 0 <= k < i && Matches(site, k, path) ==> k in matches
      invariant forall k, l :: 0 <= k < l < |matches| ==> matches[k] < matches[l]
    {
      if site.routes[i].localRoute == path {
        matches := matches + [i];
      }
      i := i + 1;
    }
  }

  /** `resolveRuntimeRequest`; `readable` says that the method is GET or HEAD. */
  method ResolveRuntimeRequest(p: Paths, site: Site, readable: bool, request: string) returns (answer: Answer)
    ensures Justified(p, site, readable, request, answer)
  {
    hide Clean, Listed, Routed, Blocked;
    if !readable {
      return Invalid;
    }
    if !SharedScope(site) {
      return Conflict;
    }
    var decoded := p.decode(request);
    if decoded.None? {
      return Invalid;
    }
    var path := decoded.value;
    var matches := RouteMatches(site, path);
    if |matches| > 1 {
      assert Matches(site, matches[0], path) && Matches(site, matches[1], path) && matches[0] != matches[1];
      return Conflict;
    }
    if |matches| == 1 {
      var route := site.routes[matches[0]];
      if !Clean(site, route) {
        return Conflict;
      }
      var document := p.canonical(DocumentOf(route));
      if document.Some? {
        assert OnlyMatch(site, matches[0], path);
        return Page(path, document.value, route);
      }
    }
    if path != "/" && path != "" {
      var resources := ResourceSet(p, site);
      if path[1..] in resources {
        return File(path, path[1..]);
      }
    }
    return NotFound(path);
  }

  /** There is one answer to a request. */
  lemma AnswerIsDetermined(p: Paths, site: Site, readable: bool, request: string, a: Answer, b: Answer)
    requires Justified(p, site, readable, request, a) && Justified(p, site, readable, request, b)
    ensures a == b
  {
    hide Clean, Served;
    if a.Page? || b.Page? {
      OnePage(p, site, readable, request, a, b);
    }
  }

  lemma OnePage(p: Paths, site: Site, readable: bool, request: string, a: Answer, b: Answer)
    requires Justified(p, site, readable, request, a) && Justified(p, site, readable, request, b)
    requires a.Page? || b.Page?
    ensures a == b
  {
    hide Clean, Served;
    var page := if a.Page? then a else b;
    var i :| 0 <= i < |site.routes| && site.routes[i] == page.route && OnlyMatch(site, i, page.path)
      && AnsweredWith(p, page.route, page.resource);
    assert Matches(site, i, page.path);
  }

  // ----- On a generated map -----

  /** Every document and every file that is answered is in the list of resource paths. */
  lemma AnswersAreServed(p: Paths, site: Site, readable: bool, request: string, answer: Answer)
    requires Justified(p, site, readable, request, answer)
    ensures answer.Page? || answer.File? ==> Served(p, site, answer.resource)
  {
    if answer.Page? {
      var i :| 0 <= i < |site.routes| && site.routes[i] == answer.route && OnlyMatch(site, i, answer.path)
        && AnsweredWith(p, answer.route, answer.resource);
      assert Routed(p, site, answer.resource);
    }
  }

  /** The site serves a route map that was generated from entries. */
  ghost predicate Generates(f: Folding, entries: seq<Entry>, site: Site) {
    MapOf(f, entries, Generated(site.routes, site.collisions))
  }

  /** A page is never answered for a route whose folded key another entry shares: it is the only entry of
      the map with that key. */
  lemma PageHasItsKeyAlone(f: Folding, p: Paths, entries: seq<Entry>, site: Site, readable: bool, request: string,
                           answer: Answer, i: nat, j: nat)
    requires Generates(f, entries, site) && Justified(p, site, readable, request, answer) && answer.Page?
    requires i < |site.routes| && site.routes[i] == answer.route && Matches(site, i, answer.path)
    requires j < |site.routes| && f.route(site.routes[j].localRoute) == f.route(answer.route.localRoute)
    ensures j == i
  {
    var sorted := Sort(ByUrlThenId, entries);
    hide Sort, CollisionsOf, CollidesPairwise;
    assert Clean(site, answer.route);
    assert site.routes[j] == Resolved(site.collisions, sorted[j])
      && site.routes[i] == Resolved(site.collisions, sorted[i]);
    var w :| 0 <= w < |site.routes| && site.routes[w] == answer.route && OnlyMatch(site, w, answer.path);
    if site.routes[j].localRoute == answer.route.localRoute {
      assert Matches(site, j, answer.path);
    } else {
      assert CollidesPairwise(f, Route, sorted, i) by {
        SharedKeyCollides(f, sorted, i, j);
      }
      MarkedExactly(f, sorted, site.collisions, sorted[i].routeId);
    }
  }

  lemma SharedKeyCollides(f: Folding, entries: seq<Entry>, i: nat, j: nat)
    requires i < |entries| && j < |entries| && f.route(entries[i].localRoute) == f.route(entries[j].localRoute)
    requires entries[i].localRoute != entries[j].localRoute
    ensures CollidesPairwise(f, Route, entries, i)
  {
    assert SameKey(f, Route, entries, i, j);
  }

  // ----- The resources of colliding routes -----

  /** An entry collides with the entries of a list in one way. */
  ghost predicate Clashes(f: Folding, kind: Kind, entries: seq<Entry>, e: Entry) {
    exists i :: 0 <= i < |entries| && entries[i] == e && CollidesPairwise(f, kind, entries, i)
  }

  /** No entry with its route id collides in any way. */
  ghost predicate Harmless(f: Folding, entries: seq<Entry>, e: Entry) {
    forall g, kind :: g in entries && g.routeId == e.routeId ==> !Clashes(f, kind, entries, g)
  }

  ghost predicate SameMembers(s: seq<Entry>, t: seq<Entry>) {
    forall e :: e in s <==> e in t
  }

  lemma PairsMove(f: Folding, kind: Kind, s: seq<Entry>, i: nat, t: seq<Entry>, j: nat)
    requires i < |s| && j < |t| && s[i] == t[j] && (forall e :: e in s ==> e in t)
    ensures CollidesPairwise(f, kind, s, i) ==> CollidesPairwise(f, kind, t, j)
  {
    if k: nat :| k < |s| && SameKey(f, kind, s, i, k) && s[k].localRoute != s[i].localRoute {
      assert s[k] in t;
      var l :| 0 <= l < |t| && t[l] == s[k];
      assert SameKey(f, kind, t, j, l);
    }
    if k: nat :| k < |s| && SameKey(f, kind, s, i, k) && s[k].pageIdentity != s[i].pageIdentity {
      assert s[k] in t;
      var l :| 0 <= l < |t| && t[l] == s[k];
      assert SameKey(f, kind, t, j, l);
    }
    if k: nat :| k < |s| && SameKey(f, kind, s, i, k) && !s[k].spa && s[k].fallback.None? {
      assert s[k] in t;
      var l :| 0 <= l < |t| && t[l] == s[k];
      assert SameKey(f, kind, t, j, l);
    }
  }

  /** Whether an entry collides does not depend on the order of the entries. */
  lemma ClashesMove(f: Folding, kind: Kind, s: seq<Entry>, t: seq<Entry>, e: Entry)
    requires SameMembers(s, t)
    ensures Clashes(f, kind, s, e) <==> Clashes(f, kind, t, e)
  {
    hide CollidesPairwise;
    if Clashes(f, kind, s, e) {
      var i :| 0 <= i < |s| && s[i] == e && CollidesPairwise(f, kind, s, i);
      assert e in t;
      var j :| 0 <= j < |t| && t[j] == e;
      PairsMove(f, kind, s, i, t, j);
    }
    if Clashes(f, kind, t, e) {
      var i :| 0 <= i < |t| && t[i] == e && CollidesPairwise(f, kind, t, i);
      assert e in s;
      var j :| 0 <= j < |s| && s[j] == e;
      PairsMove(f, kind, t, i, s, j);
    }
  }

  lemma SortedMembers(entries: seq<Entry>)
    ensures SameMembers(Sort(ByUrlThenId, entries), entries) && |Sort(ByUrlThenId, entries)| == |entries|
  {
    var sorted := Sort(ByUrlThenId, entries);
    ByUrlThenIdOrder();
    SortIsSorted(ByUrlThenId, entries);
    hide Sort, TotalPreorder;
    forall e ensures e in sorted <==> e in entries {
      assert e in multiset(sorted) <==> e in multiset(entries);
    }
    SameLength(sorted, entries);
  }

  /** The route that an entry became in a generated map is clean exactly when the entry is harmless. */
  lemma CleanExactlyWhenHarmless(f: Folding, entries: seq<Entry>, site: Site, i: nat)
    requires Generates(f, entries, site) && i < |site.routes|
    requires forall k :: 0 <= k < |entries| ==> entries[k].state == LocalMatch
    ensures var sorted := Sort(ByUrlThenId, entries);
            && |sorted| == |site.routes| && sorted[i] in entries
            && site.routes[i] == Resolved(site.collisions, sorted[i])
            && (Clean(site, site.routes[i]) <==> Harmless(f, entries, sorted[i]))
  {
    var sorted := Sort(ByUrlThenId, entries);
    SortedMembers(entries);
    hide Sort, CollisionsOf, CollidesPairwise, Clashes;
    MarkedExactly(f, sorted, site.collisions, sorted[i].routeId);
    forall g, kind | g in entries ensures Clashes(f, kind, sorted, g) <==> Clashes(f, kind, entries, g) {
      ClashesMove(f, kind, sorted, entries, g);
    }
    MarkedByAClash(f, sorted, entries, sorted[i]);
  }

  lemma MarkedByAClash(f: Folding, sorted: seq<Entry>, entries: seq<Entry>, e: Entry)
    requires SameMembers(sorted, entries)
    requires forall g, kind :: g in entries ==> (Clashes(f, kind, sorted, g) <==> Clashes(f, kind, entries, g))
    ensures Harmless(f, entries, e) <==>
      !exists j, kind :: 0 <= j < |sorted| && sorted[j].routeId == e.routeId && CollidesPairwise(f, kind, sorted, j)
  {
    hide CollidesPairwise;
    forall j, kind | 0 <= j < |sorted| && sorted[j].routeId == e.routeId && CollidesPairwise(f, kind, sorted, j)
      ensures !Harmless(f, entries, e)
    {
      assert sorted[j] in entries && Clashes(f, kind, sorted, sorted[j]);
    }
  }

  /** On a generated map, the resource of an entry that is not harmless is served exactly when a harmless
      entry leads to it. */
  lemma BlockedResourceServedExactly(f: Folding, p: Paths, entries: seq<Entry>, site: Site, b: Entry, x: string)
    requires Generates(f, entries, site) && forall k :: 0 <= k < |entries| ==> entries[k].state == LocalMatch
    requires b in entries && !Harmless(f, entries, b) && p.canonical(b.localResource) == Some(x)
    ensures Blocked(p, site, x)
    ensures Served(p, site, x) <==> exists e :: e in entries && Harmless(f, entries, e) && LeadsTo(p, e, x)
  {
    var sorted := Sort(ByUrlThenId, entries);
    SortedMembers(entries);
    hide Sort, CollisionsOf, Harmless, Clean;
    forall e | e in entries
      ensures exists i :: BecomesRoute(f, entries, site, i, e)
    {
      var i :| 0 <= i < |sorted| && sorted[i] == e;
      CleanExactlyWhenHarmless(f, entries, site, i);
      assert BecomesRoute(f, entries, site, i, e);
    }
    assert Blocked(p, site, x) by {
      var i :| BecomesRoute(f, entries, site, i, b);
    }
    if Routed(p, site, x) {
      var i :| 0 <= i < |site.routes| && Clean(site, site.routes[i]) && LeadsTo(p, site.routes[i], x);
      CleanExactlyWhenHarmless(f, entries, site, i);
      assert LeadsTo(p, sorted[i], x);
    }
    forall e | e in entries && Harmless(f, entries, e) && LeadsTo(p, e, x) ensures Routed(p, site, x) {
      var i :| BecomesRoute(f, entries, site, i, e);
      assert LeadsTo(p, site.routes[i], x);
    }
  }

  /** The entry leads where the `i`-th route does, which is clean exactly when the entry is harmless. */
  ghost predicate BecomesRoute(f: Folding, entries: seq<Entry>, site: Site, i: int, e: Entry) {
    && 0 <= i < |site.routes|
    && site.routes[i].localResource == e.localResource && site.routes[i].fallback == e.fallback
    && (Clean(site, site.routes[i]) <==> Harmless(f, entries, e))
  }

  /** A harmless entry can share its resource only within one page, or among single-page entries and entries
      with a fallback. */
  lemma HarmlessSharing(f: Folding, entries: seq<Entry>, e: Entry, b: Entry)
    requires e in entries && Harmless(f, entries, e) && b in entries && b.localResource == e.localResource
    ensures e.pageIdentity == b.pageIdentity
         || forall g :: g in entries && g.localResource == e.localResource ==> g.spa || g.fallback.Some?
  {
    var i :| 0 <= i < |entries| && entries[i] == e;
    var j :| 0 <= j < |entries| && entries[j] == b;
    forall kind ensures !CollidesPairwise(f, kind, entries, i) {
      assert !Clashes(f, kind, entries, e);
    }
    assert !CollidesPairwise(f, Route, entries, i) && !CollidesPairwise(f, LocalResource, entries, i);
    assert SameKey(f, LocalResource, entries, i, j);
    if e.pageIdentity != b.pageIdentity {
      forall g | g in entries && g.localResource == e.localResource ensures g.spa || g.fallback.Some? {
        var k :| 0 <= k < |entries| && entries[k] == g;
        assert SameKey(f, LocalResource, entries, i, k);
      }
    }
  }

  // ----- A map on which it happens -----

  const CASELESS := Folding((route: string) => if route == "/A" then "/a" else route, (url: string) => url)
  const SCOPE := Scope("project", "run", "revision")
  const UPPER := Entry(SCOPE, "1", "u/A", "page-1", "/A", "r.html", false, None, LocalMatch)
  const LOWER := Entry(SCOPE, "2", "u/a", "page-2", "/a", "s.html", false, None, LocalMatch)
  const OTHER := Entry(SCOPE, "3", "u/b", "page-1", "/b", "r.html", false, None, LocalMatch)

  /** Routes that differ in case collide; the resource of the first is blocked, and served through a third route
      of the same page. */
  lemma BlockedButServed(p: Paths, site: Site)
    requires Generates(CASELESS, [UPPER, LOWER, OTHER], site) && p.canonical("r.html") == Some("r.html")
    ensures Blocked(p, site, "r.html") && Served(p, site, "r.html")
  {
    var entries := [UPPER, LOWER, OTHER];
    assert entries[0] == UPPER && entries[1] == LOWER && entries[2] == OTHER;
    hide Generates;
    assert !Harmless(CASELESS, entries, UPPER) by {
      SharedKeyCollides(CASELESS, entries, 0, 1);
      assert Clashes(CASELESS, Route, entries, entries[0]);
    }
    OtherIsHarmless(entries);
    BlockedResourceServedExactly(CASELESS, p, entries, site, UPPER, "r.html");
    assert LeadsTo(p, entries[2], "r.html");
  }

  lemma OtherIsHarmless(entries: seq<Entry>)
    requires entries == [UPPER, LOWER, OTHER]
    ensures Harmless(CASELESS, entries, OTHER)
  {
    forall g, kind | g in entries && g.routeId == OTHER.routeId ensures !Clashes(CASELESS, kind, entries, g) {
      assert g == OTHER;
    }
  }
}

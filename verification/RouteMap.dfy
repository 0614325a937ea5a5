/** The route map of an archived site and its collisions (packages/archive-core/src/rewrite.ts:584-628). The
    folding of a route and the normalization of a URL are functions given by the caller. The sorted lists
    of collisions and of their route ids are a map and sets here. */
module RouteMap {
  import opened Options
  import opened Sorting

  datatype RouteState = LocalMatch | Collision | Unresolved

  datatype Scope = Scope(project: string, run: string, revision: string)

  datatype Fallback = Fallback(entryResource: string)

  datatype Entry = Entry(
    scope: Scope, routeId: string, normalizedUrl: string, pageIdentity: string, localRoute: string,
    localResource: string,
    spa: bool, fallback: Option<Fallback>, state: RouteState)

  datatype Folding = Folding(route: string -> string, url: string -> string)

  datatype Kind = Route | OriginalUrl | LocalResource

  /** The key by which the entries of one kind are grouped. */
  function KeyOf(f: Folding, kind: Kind, e: Entry): string {
    match kind
    case Route => f.route(e.localRoute)
    case OriginalUrl => f.url(e.normalizedUrl)
    case LocalResource => e.localResource
  }

  /** The entries among the first `n` that have a key, in their order. */
  function Group(f: Folding, kind: Kind, entries: seq<Entry>, n: nat, key: string): seq<Entry>
    requires n <= |entries|
  {
    if n == 0 then []
    else Group(f, kind, entries, n - 1, key) + (if KeyOf(f, kind, entries[n - 1]) == key then [entries[n - 1]] else [])
  }

  function RoutesOf(group: seq<Entry>): set<string> {
    set e | e in group :: e.localRoute
  }

  function PagesOf(group: seq<Entry>): set<string> {
    set e | e in group :: e.pageIdentity
  }

  function IdsOf(group: seq<Entry>): set<string> {
    set e | e in group :: e.routeId
  }

  /** When a group collides (lines 609-623). */
  predicate Collides(kind: Kind, group: seq<Entry>) {
    match kind
    case Route => |group| > 1 && (|RoutesOf(group)| > 1 || |PagesOf(group)| > 1)
    case OriginalUrl => |PagesOf(group)| > 1
    case LocalResource =>
      !(forall e :: e in group ==> e.spa || e.fallback.Some?) && |RoutesOf(group)| > 1 && |PagesOf(group)| > 1
  }

  // ----- Grouping -----

  type Groups = map<string, seq<Entry>>

  /** The groups of the first `n` entries. */
  predicate GroupsOf(f: Folding, kind: Kind, entries: seq<Entry>, n: nat, groups: Groups)
    requires n <= |entries|
  {
    && (forall i :: 0 <= i < n ==> KeyOf(f, kind, entries[i]) in groups)
    && (forall key :: key in groups ==> groups[key] == Group(f, kind, entries, n, key) && groups[key] != [])
  }

  lemma {:induction false} GroupMembers(f: Folding, kind: Kind, entries: seq<Entry>, n: nat, key: string)
    requires n <= |entries|
    ensures forall e ::
      e in Group(f, kind, entries, n, key) <==> exists i :: 0 <= i < n && entries[i] == e && KeyOf(f, kind, e) == key
  {
    if n > 0 {
      GroupMembers(f, kind, entries, n - 1, key);
    }
  }

  method GroupBy(f: Folding, kind: Kind, entries: seq<Entry>) returns (groups: Groups)
    ensures GroupsOf(f, kind, entries, |entries|, groups)
  {
    groups := map[];
    var i := 0;
    while i < |entries|
      invariant i <= |entries| && GroupsOf(f, kind, entries, i, groups)
    {
      var entry := entries[i];
      var key := KeyOf(f, kind, entry);
      if key !in groups {
        NoMembers(f, kind, entries, i, key);
      }
      var group := if key in groups then groups[key] else [];
      groups := groups[key := group + [entry]];
      i := i + 1;
    }
  }

  lemma {:induction false} NoMembers(f: Folding, kind: Kind, entries: seq<Entry>, n: nat, key: string)
    requires n <= |entries| && forall i :: 0 <= i < n ==> KeyOf(f, kind, entries[i]) != key
    ensures Group(f, kind, entries, n, key) == []
  {
    if n > 0 {
      NoMembers(f, kind, entries, n - 1, key);
    }
  }

  // ----- Collisions -----

  type Collisions = map<(Kind, string), set<string>>

  /** The collisions are the groups that collide, with the ids of their routes. */
  ghost predicate CollisionsOf(f: Folding, entries: seq<Entry>, collisions: Collisions) {
    && (forall kind, key :: (kind, key) in collisions <==> Collides(kind, Group(f, kind, entries, |entries|, key)))
    && (forall kind, key :: (kind, key) in collisions ==>
          collisions[(kind, key)] == IdsOf(Group(f, kind, entries, |entries|, key)))
  }

  /** Marks the colliding groups of one kind. */
  method MarkKind(f: Folding, kind: Kind, entries: seq<Entry>, before: Collisions) returns (collisions: Collisions)
    requires forall key :: (kind, key) !in before
    ensures forall k, key :: k != kind ==> ((k, key) in collisions <==> (k, key) in before)
    ensures forall k, key :: k != kind && (k, key) in before ==> collisions[(k, key)] == before[(k, key)]
    ensures forall key :: (kind, key) in collisions <==> Collides(kind, Group(f, kind, entries, |entries|, key))
    ensures forall key :: (kind, key) in collisions ==>
      collisions[(kind, key)] == IdsOf(Group(f, kind, entries, |entries|, key))
  {
    hide Collides, IdsOf;
    var groups := GroupBy(f, kind, entries);
    collisions := before;
    var keys := groups.Keys;
    while keys != {}
      invariant keys <= groups.Keys
      invariant forall k, key :: k != kind ==> ((k, key) in collisions <==> (k, key) in before)
      invariant forall k, key :: k != kind && (k, key) in before ==> collisions[(k, key)] == before[(k, key)]
      invariant forall key ::
        (kind, key) in collisions <==> key in groups && key !in keys && Collides(kind, groups[key])
      invariant forall key :: (kind, key) in collisions ==> collisions[(kind, key)] == IdsOf(groups[key])
      decreases keys
    {
      var key :| key in keys;
      if Collides(kind, groups[key]) {
        collisions := collisions[(kind, key) := IdsOf(groups[key])];
      }
      keys := keys - {key};
    }
    forall key ensures (kind, key) in collisions <==> Collides(kind, Group(f, kind, entries, |entries|, key)) {
      if key !in groups {
        NoMembers(f, kind, entries, |entries|, key);
        NothingCollides(kind);
      }
    }
  }

  lemma NothingCollides(kind: Kind)
    ensures !Collides(kind, [])
  {
    assert RoutesOf([]) == {} && PagesOf([]) == {};
  }

  method FindCollisions(f: Folding, entries: seq<Entry>) returns (collisions: Collisions)
    ensures CollisionsOf(f, entries, collisions)
  {
    hide Collides, IdsOf;
    collisions := MarkKind(f, Route, entries, map[]);
    collisions := MarkKind(f, OriginalUrl, entries, collisions);
    collisions := MarkKind(f, LocalResource, entries, collisions);
    forall kind, key ensures (kind, key) in collisions <==> Collides(kind, Group(f, kind, entries, |entries|, key)) {
      assert kind == Route || kind == OriginalUrl || kind == LocalResource;
    }
  }

  // ----- The pairwise definition -----

  predicate SameKey(f: Folding, kind: Kind, entries: seq<Entry>, i: nat, j: nat)
    requires i < |entries| && j < |entries|
  {
    KeyOf(f, kind, entries[i]) == KeyOf(f, kind, entries[j])
  }

  ghost predicate OtherRoute(f: Folding, kind: Kind, entries: seq<Entry>, i: nat)
    requires i < |entries|
  {
    exists j :: 0 <= j < |entries| && SameKey(f, kind, entries, i, j) && entries[j].localRoute != entries[i].localRoute
  }

  ghost predicate OtherPage(f: Folding, kind: Kind, entries: seq<Entry>, i: nat)
    requires i < |entries|
  {
    exists j :: 0 <= j < |entries| && SameKey(f, kind, entries, i, j)
      && entries[j].pageIdentity != entries[i].pageIdentity
  }

  ghost predicate PlainMember(f: Folding, kind: Kind, entries: seq<Entry>, i: nat)
    requires i < |entries|
  {
    exists j :: 0 <= j < |entries| && SameKey(f, kind, entries, i, j) && !entries[j].spa && entries[j].fallback.None?
  }

  /** An entry collides, looking at it and the others one by one. */
  ghost predicate CollidesPairwise(f: Folding, kind: Kind, entries: seq<Entry>, i: nat)
    requires i < |entries|
  {
    match kind
    case Route => OtherRoute(f, kind, entries, i) || OtherPage(f, kind, entries, i)
    case OriginalUrl => OtherPage(f, kind, entries, i)
    case LocalResource =>
      OtherRoute(f, kind, entries, i) && OtherPage(f, kind, entries, i) && PlainMember(f, kind, entries, i)
  }

  lemma Several(s: set<string>, x: string)
    requires x in s
    ensures |s| > 1 <==> exists y :: y in s && y != x
  {
    assert s == {x} + (s - {x});
    if s - {x} != {} {
      var y :| y in s - {x};
      assert |s - {x}| > 0;
    }
  }

  /** The grouping pass marks an entry exactly when the pairwise definition does. */
  lemma GroupingRefinesPairs(f: Folding, kind: Kind, entries: seq<Entry>, i: nat)
    requires i < |entries|
    ensures Collides(kind, Group(f, kind, entries, |entries|, KeyOf(f, kind, entries[i])))
      <==> CollidesPairwise(f, kind, entries, i)
  {
    hide OtherRoute, OtherPage, PlainMember;
    var group := Group(f, kind, entries, |entries|, KeyOf(f, kind, entries[i]));
    GroupMembers(f, kind, entries, |entries|, KeyOf(f, kind, entries[i]));
    assert entries[i] in group;
    GroupValues(f, kind, entries, i, group);
    TwoMembers(group, entries[i]);
  }

  lemma GroupValues(f: Folding, kind: Kind, entries: seq<Entry>, i: nat, group: seq<Entry>)
    requires i < |entries| && entries[i] in group
    requires forall e :: e in group <==>
      exists j :: 0 <= j < |entries| && entries[j] == e && KeyOf(f, kind, e) == KeyOf(f, kind, entries[i])
    ensures |RoutesOf(group)| > 1 <==> OtherRoute(f, kind, entries, i)
    ensures |PagesOf(group)| > 1 <==> OtherPage(f, kind, entries, i)
    ensures !(forall e :: e in group ==> e.spa || e.fallback.Some?) <==> PlainMember(f, kind, entries, i)
  {
    forall j | 0 <= j < |entries| && SameKey(f, kind, entries, i, j) ensures entries[j] in group {
    }
    assert entries[i].localRoute in RoutesOf(group) && entries[i].pageIdentity in PagesOf(group);
    Several(RoutesOf(group), entries[i].localRoute);
    Several(PagesOf(group), entries[i].pageIdentity);
    forall j | 0 <= j < |entries| && SameKey(f, kind, entries, i, j)
      ensures entries[j].localRoute in RoutesOf(group) && entries[j].pageIdentity in PagesOf(group)
    {
      assert entries[j] in group;
    }
    if |RoutesOf(group)| > 1 {
      var e :| e in group && e.localRoute != entries[i].localRoute;
      var j :| 0 <= j < |entries| && entries[j] == e && KeyOf(f, kind, e) == KeyOf(f, kind, entries[i]);
      assert SameKey(f, kind, entries, i, j);
    }
    if |PagesOf(group)| > 1 {
      var e :| e in group && e.pageIdentity != entries[i].pageIdentity;
      var j :| 0 <= j < |entries| && entries[j] == e && KeyOf(f, kind, e) == KeyOf(f, kind, entries[i]);
      assert SameKey(f, kind, entries, i, j);
    }
  }

  lemma TwoMembers(group: seq<Entry>, e: Entry)
    requires e in group
    ensures |RoutesOf(group)| > 1 || |PagesOf(group)| > 1 ==> |group| > 1
  {
    if |group| == 1 {
      assert group == [e];
      assert RoutesOf(group) == {e.localRoute} && PagesOf(group) == {e.pageIdentity};
    }
  }

  // ----- The map -----

  datatype Generated = Generated(routes: seq<Entry>, collisions: Collisions)

  function ByUrlThenId(x: Entry, y: Entry): bool {
    if x.normalizedUrl == y.normalizedUrl then Leq(x.routeId, y.routeId) else Leq(x.normalizedUrl, y.normalizedUrl)
  }

  lemma ByUrlThenIdOrder()
    ensures TotalPreorder(ByUrlThenId)
  {
    forall x: Entry, y: Entry ensures ByUrlThenId(x, y) || ByUrlThenId(y, x) {
      LeqTotal(x.routeId, y.routeId);
      LeqTotal(x.normalizedUrl, y.normalizedUrl);
    }
    forall x: Entry, y: Entry, z: Entry | ByUrlThenId(x, y) && ByUrlThenId(y, z) ensures ByUrlThenId(x, z) {
      if x.normalizedUrl == y.normalizedUrl == z.normalizedUrl {
        LeqTransitive(x.routeId, y.routeId, z.routeId);
      } else if x.normalizedUrl != y.normalizedUrl && y.normalizedUrl != z.normalizedUrl {
        LeqTransitive(x.normalizedUrl, y.normalizedUrl, z.normalizedUrl);
        LeqTotal(x.normalizedUrl, y.normalizedUrl);
      }
    }
  }

  predicate Marked(collisions: Collisions, routeId: string) {
    exists c :: c in collisions && routeId in collisions[c]
  }

  function Resolved(collisions: Collisions, e: Entry): Entry {
    if Marked(collisions, e.routeId) then e.(state := Collision) else e
  }

  /** The routes are the entries, sorted, with the marked ones in the collision state. */
  ghost predicate MapOf(f: Folding, entries: seq<Entry>, m: Generated) {
    var sorted := Sort(ByUrlThenId, entries);
    && CollisionsOf(f, sorted, m.collisions)
    && |m.routes| == |sorted| && forall i :: 0 <= i < |sorted| ==> m.routes[i] == Resolved(m.collisions, sorted[i])
  }

  method GenerateRouteMap(f: Folding, entries: seq<Entry>) returns (m: Generated)
    ensures MapOf(f, entries, m)
  {
    hide CollisionsOf, Sort;
    var sorted := Sort(ByUrlThenId, entries);
    var collisions := FindCollisions(f, sorted);
    var routes: seq<Entry> := [];
    while |routes| < |sorted|
      invariant |routes| <= |sorted| && forall i :: 0 <= i < |routes| ==> routes[i] == Resolved(collisions, sorted[i])
    {
      routes := routes + [Resolved(collisions, sorted[|routes|])];
    }
    return Generated(routes, collisions);
  }

  /** A route is in the collision state exactly when some entry with its id collides pairwise in some way. */
  lemma CollisionStateExactly(f: Folding, entries: seq<Entry>, m: Generated, i: nat)
    requires MapOf(f, entries, m) && i < |m.routes| && forall k :: 0 <= k < |entries| ==> entries[k].state == LocalMatch
    ensures var sorted := Sort(ByUrlThenId, entries);
            multiset(sorted) == multiset(entries) && |sorted| == |m.routes|
            && (m.routes[i].state == Collision <==>
                exists j, kind :: 0 <= j < |sorted| && sorted[j].routeId == m.routes[i].routeId
                  && CollidesPairwise(f, kind, sorted, j))
  {
    var sorted := Sort(ByUrlThenId, entries);
    ByUrlThenIdOrder();
    SortIsSorted(ByUrlThenId, entries);
    hide Sort, CollidesPairwise, TotalPreorder;
    assert sorted[i] in multiset(entries);
    MarkedExactly(f, sorted, m.collisions, m.routes[i].routeId);
  }

  lemma {:induction false} SortedPairs(s: seq<Entry>, i: nat, j: nat)
    requires Sorted(ByUrlThenId, s) && i < j < |s|
    ensures ByUrlThenId(s[i], s[j])
  {
    if i > 0 {
      SortedPairs(s[1..], i - 1, j - 1);
    } else {
      assert s[j] == s[1..][j - 1];
    }
  }

  /** A generated map lists every entry once, changed in nothing but the collision state, by URL and then by route. */
  lemma MapListsEntries(f: Folding, entries: seq<Entry>, m: Generated) returns (sorted: seq<Entry>)
    requires MapOf(f, entries, m)
    ensures multiset(sorted) == multiset(entries) && |m.routes| == |sorted|
    ensures forall i :: 0 <= i < |sorted| ==>
      m.routes[i].(state := sorted[i].state) == sorted[i]
        && (m.routes[i].state == sorted[i].state || m.routes[i].state == Collision)
    ensures forall i, j :: 0 <= i < j < |sorted| ==>
      if m.routes[i].normalizedUrl == m.routes[j].normalizedUrl
      then m.routes[i].routeId == m.routes[j].routeId || Precedes(m.routes[i].routeId, m.routes[j].routeId)
      else Precedes(m.routes[i].normalizedUrl, m.routes[j].normalizedUrl)
  {
    sorted := Sort(ByUrlThenId, entries);
    ByUrlThenIdOrder();
    SortIsSorted(ByUrlThenId, entries);
    hide Sort, CollisionsOf, Leq, Precedes, TotalPreorder, Sorted, Marked;
    forall i, j | 0 <= i < j < |sorted|
      ensures if m.routes[i].normalizedUrl == m.routes[j].normalizedUrl
              then m.routes[i].routeId == m.routes[j].routeId || Precedes(m.routes[i].routeId, m.routes[j].routeId)
              else Precedes(m.routes[i].normalizedUrl, m.routes[j].normalizedUrl)
    {
      SortedPairs(sorted, i, j);
      LeqExactly(sorted[i].routeId, sorted[j].routeId);
      LeqExactly(sorted[i].normalizedUrl, sorted[j].normalizedUrl);
    }
  }

  lemma MarkedExactly(f: Folding, entries: seq<Entry>, collisions: Collisions, routeId: string)
    requires CollisionsOf(f, entries, collisions)
    ensures Marked(collisions, routeId) <==>
      exists j, kind :: 0 <= j < |entries| && entries[j].routeId == routeId && CollidesPairwise(f, kind, entries, j)
  {
    hide Collides, CollidesPairwise;
    if Marked(collisions, routeId) {
      var c :| c in collisions && routeId in collisions[c];
      var group := Group(f, c.0, entries, |entries|, c.1);
      assert (c.0, c.1) in collisions && routeId in IdsOf(group);
      GroupMembers(f, c.0, entries, |entries|, c.1);
      var e :| e in group && e.routeId == routeId;
      var j :| 0 <= j < |entries| && entries[j] == e && KeyOf(f, c.0, e) == c.1;
      GroupingRefinesPairs(f, c.0, entries, j);
      assert CollidesPairwise(f, c.0, entries, j);
    }
    forall j, kind | 0 <= j < |entries| && entries[j].routeId == routeId && CollidesPairwise(f, kind, entries, j)
      ensures Marked(collisions, routeId)
    {
      var key := KeyOf(f, kind, entries[j]);
      GroupingRefinesPairs(f, kind, entries, j);
      GroupMembers(f, kind, entries, |entries|, key);
      assert entries[j] in Group(f, kind, entries, |entries|, key);
      assert routeId in collisions[(kind, key)];
    }
  }
}

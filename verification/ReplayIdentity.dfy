/** The identity of a replayed request (packages/archive-core/src/network.ts:263-321): the normalized URL,
    the selected headers, and the key made of both. */
module ReplayIdentity {
  import opened Options
  import opened Sorting
  import opened ReplayKey

  /** A parsed URL: what is printed before the query (the fragment is dropped), and the decoded query. */
  datatype Url = Url(web: bool, credentials: bool, place: string, query: seq<(string, string)>)

  /** What the platform does with text: URL parsing and printing, letter case, trimming, and the pattern
      of sensitive query keys. */
  datatype Platform = Platform(
    parse: string -> Option<Url>,
    format: (string, seq<(string, string)>) -> string,
    lower: string -> string,
    trim: string -> string,
    sensitive: string -> bool)

  /** A place that some URL is parsed to; it holds no query. */
  ghost predicate IsPlace(p: Platform, place: string) {
    exists u: string :: p.parse(u).Some? && p.parse(u).value.place == place
  }

  /** The printed form of a URL with such a place determines its place and its query. */
  ghost predicate PrintsInjectively(p: Platform) {
    forall place, query, place', query' ::
      IsPlace(p, place) && IsPlace(p, place') && p.format(place, query) == p.format(place', query') ==>
        place == place' && query == query'
  }

  const TRACKING_KEYS: set<string> := {"fbclid", "gclid", "mc_cid", "mc_eid", "utm_campaign", "utm_content",
                                       "utm_medium", "utm_source", "utm_term"}

  // ----- The URL -----

  function Ignored(p: Platform, ignoredKeys: set<string>): set<string> {
    TRACKING_KEYS + set k | k in ignoredKeys :: p.lower(k)
  }

  function Kept(p: Platform, ignored: set<string>, query: seq<(string, string)>): seq<(string, string)> {
    if query == [] then []
    else
      var n := |query| - 1;
      Kept(p, ignored, query[..n]) + (if p.lower(query[n].0) in ignored then [] else [query[n]])
  }

  function HasSensitive(p: Platform, query: seq<(string, string)>): bool {
    exists i :: 0 <= i < |query| && p.sensitive(query[i].0)
  }

  predicate Replayable(p: Platform, url: Option<Url>) {
    url.Some? && url.value.web && !url.value.credentials && !HasSensitive(p, url.value.query)
  }

  /** `normalizeReplayUrlInternal`; None when it throws. */
  function Normalize(p: Platform, ignoredKeys: set<string>, value: string): Option<string> {
    var url := p.parse(value);
    if Replayable(p, url)
    then Some(p.format(url.value.place, Sort(ByKeyThenValue, Kept(p, Ignored(p, ignoredKeys), url.value.query))))
    else None
  }

  lemma {:induction false} KeptCount(p: Platform, ignored: set<string>, query: seq<(string, string)>,
                                     x: (string, string))
    ensures multiset(Kept(p, ignored, query))[x] == if p.lower(x.0) in ignored then 0 else multiset(query)[x]
  {
    if query != [] {
      var n := |query| - 1;
      KeptCount(p, ignored, query[..n], x);
      assert query == query[..n] + [query[n]];
    }
  }

  /** The parameters of a URL that one set of ignored keys leaves, counted with repetitions. */
  function KeptParameters(p: Platform, ignoredKeys: set<string>, query: seq<(string, string)>)
    : multiset<(string, string)>
  {
    multiset(Kept(p, Ignored(p, ignoredKeys), query))
  }

  /** Two URLs, each with its own ignored keys, are normalized alike exactly when their places agree and they keep the
      same parameters, counted with repetitions, in whatever order. */
  lemma NormalizedAlike(p: Platform, ignoredU: set<string>, u: string, ignoredV: set<string>, v: string)
    requires PrintsInjectively(p) && Replayable(p, p.parse(u)) && Replayable(p, p.parse(v))
    ensures var a, b := p.parse(u).value, p.parse(v).value;
            Normalize(p, ignoredU, u) == Normalize(p, ignoredV, v)
            <==> (a.place == b.place && KeptParameters(p, ignoredU, a.query) == KeptParameters(p, ignoredV, b.query))
  {
    var a, b := p.parse(u).value, p.parse(v).value;
    ByKeyThenValueOrder();
    SortForgetsOrderOnly(ByKeyThenValue, Kept(p, Ignored(p, ignoredU), a.query),
                         Kept(p, Ignored(p, ignoredV), b.query));
    assert IsPlace(p, a.place) && IsPlace(p, b.place);
  }

  /** A parameter that does not count: one of the nine tracking parameters, or one that the request ignores, in any
      letter case. */
  predicate DoesNotCount(p: Platform, ignoredKeys: set<string>, key: string) {
    var name := p.lower(key);
    || name == "fbclid" || name == "gclid" || name == "mc_cid" || name == "mc_eid"
    || name == "utm_source" || name == "utm_medium" || name == "utm_campaign" || name == "utm_term"
    || name == "utm_content"
    || exists k :: k in ignoredKeys && p.lower(k) == name
  }

  /** Each parameter is kept as often as it is there, or not at all if it does not count. */
  lemma KeptExactly(p: Platform, ignoredKeys: set<string>, query: seq<(string, string)>, x: (string, string))
    ensures KeptParameters(p, ignoredKeys, query)[x] == if DoesNotCount(p, ignoredKeys, x.0) then 0
                                                        else multiset(query)[x]
  {
    KeptCount(p, Ignored(p, ignoredKeys), query, x);
  }

  /** Reordering the query parameters changes nothing, a refusal included. */
  lemma ReorderingKeepsTheUrl(p: Platform, ignoredKeys: set<string>, u: string, v: string)
    requires p.parse(u).Some? && p.parse(v).Some?
    requires var a, b := p.parse(u).value, p.parse(v).value;
             b == a.(query := b.query) && multiset(a.query) == multiset(b.query)
    ensures Normalize(p, ignoredKeys, u) == Normalize(p, ignoredKeys, v)
  {
    var a, b := p.parse(u).value, p.parse(v).value;
    var ignored := Ignored(p, ignoredKeys);
    if HasSensitive(p, a.query) {
      SensitiveEverywhere(p, a.query, b.query);
    } else if HasSensitive(p, b.query) {
      SensitiveEverywhere(p, b.query, a.query);
    }
    var s, t := Kept(p, ignored, a.query), Kept(p, ignored, b.query);
    forall x ensures multiset(s)[x] == multiset(t)[x] {
      KeptCount(p, ignored, a.query, x);
      KeptCount(p, ignored, b.query, x);
    }
    ByKeyThenValueOrder();
    SortForgetsOrderOnly(ByKeyThenValue, s, t);
  }

  lemma SensitiveEverywhere(p: Platform, s: seq<(string, string)>, t: seq<(string, string)>)
    requires multiset(s) == multiset(t) && HasSensitive(p, s)
    ensures HasSensitive(p, t)
  {
    var i :| 0 <= i < |s| && p.sensitive(s[i].0);
    assert s[i] in multiset(t);
    var j :| 0 <= j < |t| && t[j] == s[i];
  }

  // ----- The headers -----

  const SELECTED_HEADERS: set<string> := {"accept", "accept-language", "content-type"}

  function Canonical(p: Platform, headers: seq<(string, string)>): seq<(string, string)> {
    if headers == [] then []
    else
      var n := |headers| - 1;
      var name, value := p.lower(headers[n].0), p.trim(headers[n].1);
      var cut := if |value| > 512 then value[..512] else value;
      Canonical(p, headers[..n]) + (if name in SELECTED_HEADERS && cut != [] then [(name, cut)] else [])
  }

  /** Setting a property of an object: it keeps its place, or comes last. */
  function Put(fields: seq<(string, string)>, name: string, value: string): seq<(string, string)> {
    if fields == [] then [(name, value)]
    else if fields[0].0 == name then [(name, value)] + fields[1..]
    else [fields[0]] + Put(fields[1..], name, value)
  }

  function FromEntries(entries: seq<(string, string)>): seq<(string, string)> {
    if entries == [] then []
    else
      var n := |entries| - 1;
      Put(FromEntries(entries[..n]), entries[n].0, entries[n].1)
  }

  function SelectHeaders(p: Platform, headers: seq<(string, string)>): seq<(string, string)> {
    FromEntries(Sort(ByKey, Canonical(p, headers)))
  }

  /** The last value that a list of entries gives a name. */
  function Last(entries: seq<(string, string)>, name: string): Option<string> {
    if entries == [] then None
    else
      var n := |entries| - 1;
      if entries[n].0 == name then Some(entries[n].1) else Last(entries[..n], name)
  }

  lemma {:induction false} LastCons(y: (string, string), s: seq<(string, string)>, name: string)
    ensures Last([y] + s, name) == if Last(s, name).Some? then Last(s, name) else if y.0 == name then Some(y.1)
      else None
  {
    var whole := [y] + s;
    if s == [] {
      assert whole[..0] == [];
    } else {
      var n := |s| - 1;
      assert whole[..n + 1] == [y] + s[..n];
      LastCons(y, s[..n], name);
    }
  }

  lemma {:induction false} LastInsert(x: (string, string), s: seq<(string, string)>, name: string)
    requires Sorted(ByKey, s)
    ensures Last(Insert(ByKey, x, s), name) == if x.0 == name then Some(x.1) else Last(s, name)
  {
    if s == [] {
      LastCons(x, s, name);
    } else if ByKey(s[0], x) {
      assert s == [s[0]] + s[1..];
      LastInsert(x, s[1..], name);
      LastCons(s[0], Insert(ByKey, x, s[1..]), name);
      LastCons(s[0], s[1..], name);
    } else {
      LastCons(x, s, name);
      NotThere(x, s);
    }
  }

  /** A key below all others is not among them. */
  lemma {:induction false} NotThere(x: (string, string), s: seq<(string, string)>)
    requires Sorted(ByKey, s) && s != [] && !ByKey(s[0], x)
    ensures Last(s, x.0).None?
  {
    ByKeyOrder<string>();
    assert s == [s[0]] + s[1..];
    LastCons(s[0], s[1..], x.0);
    if s[1..] != [] {
      assert s[1] in s[1..] && ByKey(s[0], s[1]);
      NotThere(x, s[1..]);
    }
  }

  /** A stable sort leaves the last value of each name the last. */
  lemma {:induction false} LastSort(s: seq<(string, string)>, name: string)
    ensures Last(Sort(ByKey, s), name) == Last(s, name)
  {
    if s != [] {
      var n := |s| - 1;
      LastSort(s[..n], name);
      ByKeyOrder<string>();
      SortIsSorted(ByKey, s[..n]);
      LastInsert(s[n], Sort(ByKey, s[..n]), name);
    }
  }

  lemma {:induction false} PutSets(fields: seq<(string, string)>, name: string, value: string, other: (string, string))
    requires DistinctKeys(fields)
    ensures DistinctKeys(Put(fields, name, value))
    ensures other in Put(fields, name, value) <==> if other.0 == name then other.1 == value else other in fields
  {
    if fields != [] && fields[0].0 != name {
      var rest := Put(fields[1..], name, value);
      PutSets(fields[1..], name, value, other);
      forall j | 0 <= j < |rest| ensures rest[j].0 != fields[0].0 {
        PutSets(fields[1..], name, value, rest[j]);
      }
    }
  }

  lemma {:induction false} FromEntriesHoldsLast(entries: seq<(string, string)>, field: (string, string))
    ensures DistinctKeys(FromEntries(entries))
    ensures field in FromEntries(entries) <==> Last(entries, field.0) == Some(field.1)
  {
    if entries != [] {
      var n := |entries| - 1;
      FromEntriesHoldsLast(entries[..n], field);
      PutSets(FromEntries(entries[..n]), entries[n].0, entries[n].1, field);
    }
  }

  /** The selected headers are the last nonempty value of each selected name, whatever its letter case. */
  lemma LastHeaderWins(p: Platform, headers: seq<(string, string)>, field: (string, string))
    ensures DistinctKeys(SelectHeaders(p, headers))
    ensures field in SelectHeaders(p, headers) <==> Last(Canonical(p, headers), field.0) == Some(field.1)
  {
    LastSort(Canonical(p, headers), field.0);
    FromEntriesHoldsLast(Sort(ByKey, Canonical(p, headers)), field);
  }

  /** The value of a header as it is selected: trimmed, and cut to 512 characters. */
  function CutValue(p: Platform, value: string): string {
    if |p.trim(value)| <= 512 then p.trim(value) else p.trim(value)[..512]
  }

  predicate CountsAs(p: Platform, header: (string, string), name: string) {
    p.lower(header.0) == name && p.trim(header.1) != []
  }

  /** The last header that counts as this one. */
  predicate CountsLast(p: Platform, headers: seq<(string, string)>, i: nat, name: string)
    requires i < |headers|
  {
    CountsAs(p, headers[i], name) && forall j :: i < j < |headers| ==> !CountsAs(p, headers[j], name)
  }

  lemma OneMoreHeader(p: Platform, headers: seq<(string, string)>, i: nat, name: string)
    requires i < |headers|
    ensures var n := |headers| - 1;
            CountsLast(p, headers, i, name) <==>
              if i == n then CountsAs(p, headers[n], name)
              else CountsLast(p, headers[..n], i, name) && !CountsAs(p, headers[n], name)
  {
    hide CountsAs;
    var n := |headers| - 1;
    forall j | i <= j < n ensures headers[..n][j] == headers[j] {}
  }

  /** A header is selected with a value exactly when it is one of three, and the value is that of the last header of
      this name, in any letter case, whose value is not blank. */
  lemma {:induction false} SelectedExactly(p: Platform, headers: seq<(string, string)>, name: string, value: string)
    ensures Last(Canonical(p, headers), name) == Some(value) <==>
      && (name == "accept" || name == "accept-language" || name == "content-type")
      && exists i :: 0 <= i < |headers| && CountsLast(p, headers, i, name) && CutValue(p, headers[i].1) == value
  {
    if headers != [] {
      var n := |headers| - 1;
      SelectedExactly(p, headers[..n], name, value);
      CanonicalLast(p, headers, name);
      hide Canonical, Last, CountsAs, CutValue, CountsLast;
      forall i | 0 <= i <= n
        ensures CountsLast(p, headers, i, name) <==>
          if i == n then CountsAs(p, headers[n], name)
          else CountsLast(p, headers[..n], i, name) && !CountsAs(p, headers[n], name)
      {
        OneMoreHeader(p, headers, i, name);
      }
    }
  }

  /** What one more header does to the last value of a name. */
  lemma CanonicalLast(p: Platform, headers: seq<(string, string)>, name: string)
    requires headers != []
    ensures var n := |headers| - 1;
            Last(Canonical(p, headers), name)
              == if name in SELECTED_HEADERS && CountsAs(p, headers[n], name) then Some(CutValue(p, headers[n].1))
                 else Last(Canonical(p, headers[..n]), name)
  {
    var n := |headers| - 1;
    var before := Canonical(p, headers[..n]);
    assert before + [] == before;
    if Canonical(p, headers) != before {
      assert Canonical(p, headers)[..|before|] == before;
    }
  }

  // ----- The key -----

  datatype Input = Input(project: string, run: string, revision: string, method_: string, url: string,
                         headers: seq<(string, string)>, ignoredKeys: set<string>)

  datatype Identity = Identity(project: string, run: string, revision: string, method_: string, url: string,
                               headers: seq<(string, string)>)

  predicate ValidScope(value: string) {
    1 <= |value| <= 256 && forall i :: 0 <= i < |value| ==> value[i] >= ' ' && value[i] != 127 as char
  }

  /** `canonicalReplayRequestIdentity`; None when it throws. */
  function Identify(p: Platform, input: Input): Option<Identity> {
    if input.method_ != "GET" && input.method_ != "HEAD" then None
    else if !ValidScope(input.project) || !ValidScope(input.run) || !ValidScope(input.revision) then None
    else
      var url := Normalize(p, input.ignoredKeys, input.url);
      if url.None? then None
      else Some(Identity(input.project, input.run, input.revision, input.method_, url.value,
                         SelectHeaders(p, input.headers)))
  }

  /** A request has an identity exactly when it reads, names its scope in order, and has a web URL without credentials
      and without a sensitive parameter. */
  lemma IdentifiedExactly(p: Platform, input: Input)
    ensures Identify(p, input).Some? <==>
      && (input.method_ == "GET" || input.method_ == "HEAD")
      && Printable(input.project) && Printable(input.run) && Printable(input.revision)
      && p.parse(input.url).Some?
      && var url := p.parse(input.url).value;
         url.web && !url.credentials && forall x :: x in url.query ==> !p.sensitive(x.0)
  {
    ScopeIsPrintable(input.project);
    ScopeIsPrintable(input.run);
    ScopeIsPrintable(input.revision);
  }

  /** One to 256 characters, and none of them a control character. */
  predicate Printable(value: string) {
    1 <= |value| <= 256 && forall c :: c in value ==> 32 <= c as int && c as int != 127
  }

  lemma ScopeIsPrintable(value: string)
    ensures ValidScope(value) <==> Printable(value)
  {
    if Printable(value) {
      forall i | 0 <= i < |value| ensures value[i] >= ' ' && value[i] != 127 as char {
        assert value[i] in value;
      }
    }
  }

  function HeaderTree(headers: seq<(string, string)>): Json {
    Obj(seq(|headers|, i requires 0 <= i < |headers| => (headers[i].0, Str(headers[i].1))))
  }

  function Basis(id: Identity): Json {
    Obj([("contractVersion", Num("1")), ("projectId", Str(id.project)), ("runId", Str(id.run)),
         ("projectRevisionId", Str(id.revision)),
         ("method", Str(id.method_)), ("normalizedUrl", Str(id.url)), ("selectedHeaders", HeaderTree(id.headers))])
  }

  function Key(id: Identity): string {
    StableJson(Basis(id))
  }

  ghost predicate SameHeaders(a: seq<(string, string)>, b: seq<(string, string)>) {
    forall field :: field in a <==> field in b
  }

  lemma HeaderTreesSame(a: seq<(string, string)>, b: seq<(string, string)>)
    ensures Same(HeaderTree(a), HeaderTree(b)) <==> SameHeaders(a, b)
  {
    var s, t := HeaderTree(a), HeaderTree(b);
    if Same(s, t) {
      forall field ensures field in a <==> field in b {
        if field in a {
          var i :| 0 <= i < |a| && a[i] == field;
          assert FieldIn(s, i, t);
          var j :| 0 <= j < |b| && s.fields[i].0 == t.fields[j].0 && Same(s.fields[i].1, t.fields[j].1);
          assert b[j] == field;
        }
        if field in b {
          var j :| 0 <= j < |b| && b[j] == field;
          assert FieldFrom(s, t, j);
          var i :| 0 <= i < |a| && s.fields[i].0 == t.fields[j].0 && Same(s.fields[i].1, t.fields[j].1);
          assert a[i] == field;
        }
      }
    }
    if SameHeaders(a, b) {
      forall i | 0 <= i < |s.fields| ensures FieldIn(s, i, t) {
        assert a[i] in b;
        var j :| 0 <= j < |b| && b[j] == a[i];
        assert s.fields[i].0 == t.fields[j].0 && Same(s.fields[i].1, t.fields[j].1);
      }
      forall j | 0 <= j < |t.fields| ensures FieldFrom(s, t, j) {
        assert b[j] in a;
        var i :| 0 <= i < |a| && a[i] == b[j];
        assert s.fields[i].0 == t.fields[j].0 && Same(s.fields[i].1, t.fields[j].1);
      }
    }
  }

  lemma BasisKeys(a: Identity, b: Identity, i: nat, j: nat)
    requires i < 7 && j < 7
    ensures |Basis(a).fields| == 7 && |Basis(b).fields| == 7
    ensures (Basis(a).fields[i].0 == Basis(b).fields[j].0 <==> i == j)
  {
  }

  /** Two bases are the same tree up to key order exactly when they agree field by field. */
  lemma BasesSame(a: Identity, b: Identity)
    ensures Same(Basis(a), Basis(b)) <==> forall i :: 0 <= i < 7 ==> Same(Basis(a).fields[i].1, Basis(b).fields[i].1)
  {
    var s, t := Basis(a), Basis(b);
    BasisKeys(a, b, 0, 0);
    if Same(s, t) {
      forall i | 0 <= i < 7 ensures Same(s.fields[i].1, t.fields[i].1) {
        assert FieldIn(s, i, t);
        var j :| 0 <= j < |t.fields| && s.fields[i].0 == t.fields[j].0 && Same(s.fields[i].1, t.fields[j].1);
        BasisKeys(a, b, i, j);
      }
    }
    if forall i :: 0 <= i < 7 ==> Same(s.fields[i].1, t.fields[i].1) {
      forall i | 0 <= i < |s.fields| ensures FieldIn(s, i, t) && FieldFrom(s, t, i) {
        BasisKeys(a, b, i, i);
        assert Same(s.fields[i].1, t.fields[i].1);
      }
    }
  }

  lemma BasisWellFormed(id: Identity)
    requires DistinctKeys(id.headers)
    ensures WellFormed(Basis(id))
  {
    var t := Basis(id);
    BasisKeys(id, id, 0, 0);
    forall i, j | 0 <= i < j < |t.fields| ensures t.fields[i].0 != t.fields[j].0 {
      BasisKeys(id, id, i, j);
    }
    assert WellFormed(HeaderTree(id.headers));
  }

  /** Two identities share a key exactly when project, run, revision, method, normalized URL and selected
      headers agree. */
  lemma KeyIsInjective(a: Identity, b: Identity)
    requires DistinctKeys(a.headers) && DistinctKeys(b.headers)
    ensures Key(a) == Key(b) <==>
      (a.project == b.project && a.run == b.run && a.revision == b.revision && a.method_ == b.method_ && a.url == b.url
       && SameHeaders(a.headers, b.headers))
  {
    hide Same, StableJson, Basis;
    BasisWellFormed(a);
    BasisWellFormed(b);
    StableJsonIsCanonical(Basis(a), Basis(b));
    BasesSame(a, b);
    ValuesSame(a, b);
  }

  lemma BasisValues(id: Identity)
    ensures Basis(id).Obj?
    ensures var f := Basis(id).fields;
            && |f| == 7 && f[0].1 == Num("1") && f[1].1 == Str(id.project) && f[2].1 == Str(id.run)
                 && f[3].1 == Str(id.revision)
            && f[4].1 == Str(id.method_) && f[5].1 == Str(id.url) && f[6].1 == HeaderTree(id.headers)
  {
  }

  lemma ValuesSame(a: Identity, b: Identity)
    ensures |Basis(a).fields| == |Basis(b).fields| == 7
    ensures (forall i :: 0 <= i < 7 ==> Same(Basis(a).fields[i].1, Basis(b).fields[i].1)) <==>
      (a.project == b.project && a.run == b.run && a.revision == b.revision && a.method_ == b.method_ && a.url == b.url
       && SameHeaders(a.headers, b.headers))
  {
    BasisValues(a);
    BasisValues(b);
    HeaderTreesSame(a.headers, b.headers);
    hide Basis, HeaderTree, SameHeaders;
    var f, g := Basis(a).fields, Basis(b).fields;
    if forall i :: 0 <= i < 7 ==> Same(f[i].1, g[i].1) {
      assert Same(f[1].1, g[1].1) && Same(f[2].1, g[2].1) && Same(f[3].1, g[3].1);
      assert Same(f[4].1, g[4].1) && Same(f[5].1, g[5].1) && Same(f[6].1, g[6].1);
    }
  }

  /** Two accepted requests share a key exactly when they agree on the scope, the method, the place of the URL, the
      query parameters that each of them keeps, counted with repetitions, and the last value of each selected header. */
  lemma SameKeyExactlyWhenSameRequest(p: Platform, a: Input, b: Input)
    requires PrintsInjectively(p) && Identify(p, a).Some? && Identify(p, b).Some?
    ensures var u, v := p.parse(a.url), p.parse(b.url);
            && u.Some? && v.Some?
            && (Key(Identify(p, a).value) == Key(Identify(p, b).value) <==>
                (&& a.project == b.project && a.run == b.run && a.revision == b.revision && a.method_ == b.method_
                 && u.value.place == v.value.place
                 && KeptParameters(p, a.ignoredKeys, u.value.query) == KeptParameters(p, b.ignoredKeys, v.value.query)
                 && forall name :: Last(Canonical(p, a.headers), name) == Last(Canonical(p, b.headers), name)))
  {
    var i, j := Identify(p, a).value, Identify(p, b).value;
    LastHeaderWins(p, a.headers, ("", ""));
    LastHeaderWins(p, b.headers, ("", ""));
    NormalizedAlike(p, a.ignoredKeys, a.url, b.ignoredKeys, b.url);
    KeyIsInjective(i, j);
    SelectedAlike(p, a.headers, b.headers);
  }

  lemma SelectedAlike(p: Platform, a: seq<(string, string)>, b: seq<(string, string)>)
    ensures SameHeaders(SelectHeaders(p, a), SelectHeaders(p, b))
      <==> forall name :: Last(Canonical(p, a), name) == Last(Canonical(p, b), name)
  {
    forall field: (string, string)
      ensures field in SelectHeaders(p, a) <==> Last(Canonical(p, a), field.0) == Some(field.1)
      ensures field in SelectHeaders(p, b) <==> Last(Canonical(p, b), field.0) == Some(field.1)
    {
      LastHeaderWins(p, a, field);
      LastHeaderWins(p, b, field);
    }
    if SameHeaders(SelectHeaders(p, a), SelectHeaders(p, b)) {
      forall name ensures Last(Canonical(p, a), name) == Last(Canonical(p, b), name) {
        var x, y := Last(Canonical(p, a), name), Last(Canonical(p, b), name);
        if x.Some? {
          assert (name, x.value) in SelectHeaders(p, a);
          assert (name, x.value) in SelectHeaders(p, b);
        }
        if y.Some? {
          assert (name, y.value) in SelectHeaders(p, b);
          assert (name, y.value) in SelectHeaders(p, a);
        }
      }
    } else {
      var field: (string, string) :| !(field in SelectHeaders(p, a) <==> field in SelectHeaders(p, b));
      assert Last(Canonical(p, a), field.0) != Last(Canonical(p, b), field.0);
    }
  }

  /** Reordering the query parameters never changes the key, nor whether there is one. */
  lemma ReorderingKeepsTheKey(p: Platform, a: Input, b: Input)
    requires b == a.(url := b.url) && p.parse(a.url).Some? && p.parse(b.url).Some?
    requires var u, v := p.parse(a.url).value, p.parse(b.url).value;
             v == u.(query := v.query) && multiset(u.query) == multiset(v.query)
    ensures Identify(p, a) == Identify(p, b)
  {
    ReorderingKeepsTheUrl(p, a.ignoredKeys, a.url, b.url);
  }
}

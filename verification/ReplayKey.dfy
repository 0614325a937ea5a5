/** The canonical key of a replayed request (packages/archive-core/src/network.ts:253-283 and 304-321).
    Strings are sequences of Unicode characters. URL parsing, URL rendering and letter case are functions
    given by the caller. */
module ReplayKey {
  import opened Sorting

  // ----- Trees and their text -----

  /** A JSON value; a number is known by its text. */
  datatype Json =
    | Null
    | Bool(value: bool)
    | Num(text: string)
    | Str(content: string)
    | Arr(items: seq<Json>)
    | Obj(fields: seq<(string, Json)>)

  predicate NumberChar(c: char) {
    c == '-' || c == '+' || c == '.' || c == 'e' || c == 'E' || '0' <= c <= '9'
  }

  predicate DistinctKeys<V>(fields: seq<(string, V)>) {
    forall i, j :: 0 <= i < j < |fields| ==> fields[i].0 != fields[j].0
  }

  predicate WellFormed(t: Json) {
    match t
    case Num(text) => text != [] && forall i :: 0 <= i < |text| ==> NumberChar(text[i])
    case Arr(items) => forall i :: 0 <= i < |items| ==> WellFormed(items[i])
    case Obj(fields) => DistinctKeys(fields) && forall i :: 0 <= i < |fields| ==> WellFormed(fields[i].1)
    case _ => true
  }

  function Hex(n: nat): char
    requires n < 16
  {
    "0123456789abcdef"[n]
  }

  /** How JSON.stringify writes one character of a string. */
  function Escape(c: char): string {
    if c == '"' then "\\\""
    else if c == '\\' then "\\\\"
    else if c == 8 as char then "\\b"
    else if c == 12 as char then "\\f"
    else if c == '\n' then "\\n"
    else if c == '\r' then "\\r"
    else if c == '\t' then "\\t"
    else if c < ' ' then "\\u00" + [Hex(c as nat / 16), Hex(c as nat % 16)]
    else [c]
  }

  function EscapeAll(s: string): string {
    if s == [] then [] else Escape(s[0]) + EscapeAll(s[1..])
  }

  function Quote(s: string): string {
    "\"" + EscapeAll(s) + "\""
  }

  function Join(texts: seq<string>): string {
    if texts == [] then []
    else if |texts| == 1 then texts[0]
    else texts[0] + "," + Join(texts[1..])
  }

  function Member(entry: (string, string)): string {
    Quote(entry.0) + ":" + entry.1
  }

  function Members(entries: seq<(string, string)>): seq<string> {
    seq(|entries|, i requires 0 <= i < |entries| => Member(entries[i]))
  }

  /** `replayStableJson`; the values of an object are printed before its entries are sorted by key. */
  function StableJson(t: Json): string {
    match t
    case Null => "null"
    case Bool(value) => if value then "true" else "false"
    case Num(text) => text
    case Str(content) => Quote(content)
    case Arr(items) => "[" + Join(Texts(t)) + "]"
    case Obj(fields) => "{" + Join(Members(Sort(ByKey, Entries(t)))) + "}"
  }

  function Texts(t: Json): (texts: seq<string>)
    requires t.Arr?
    decreases t, 0
  {
    seq(|t.items|, i requires 0 <= i < |t.items| => StableJson(t.items[i]))
  }

  function Entries(t: Json): seq<(string, string)>
    requires t.Obj?
    decreases t, 0
  {
    seq(|t.fields|, i requires 0 <= i < |t.fields| => (t.fields[i].0, StableJson(t.fields[i].1)))
  }

  /** Equal up to the order of object keys. */
  ghost predicate Same(a: Json, b: Json)
    decreases a, 1
  {
    match a
    case Arr(items) => b.Arr? && |items| == |b.items| && forall i :: 0 <= i < |items| ==> Same(items[i], b.items[i])
    case Obj(fields) =>
      b.Obj? && (forall i :: 0 <= i < |fields| ==> FieldIn(a, i, b))
        && (forall j :: 0 <= j < |b.fields| ==> FieldFrom(a, b, j))
    case _ => a == b
  }

  ghost predicate FieldIn(a: Json, i: int, b: Json)
    requires a.Obj? && b.Obj? && 0 <= i < |a.fields|
    decreases a, 0
  {
    exists j :: 0 <= j < |b.fields| && a.fields[i].0 == b.fields[j].0 && Same(a.fields[i].1, b.fields[j].1)
  }

  ghost predicate FieldFrom(a: Json, b: Json, j: int)
    requires a.Obj? && b.Obj? && 0 <= j < |b.fields|
    decreases a, 0
  {
    exists i :: 0 <= i < |a.fields| && a.fields[i].0 == b.fields[j].0 && Same(a.fields[i].1, b.fields[j].1)
  }

  // ----- Strings can be read back -----

  lemma DropPrefix(u: string, x: string, v: string, y: string)
    requires |u| == |v| && u + x == v + y
    ensures u == v && x == y
  {
    var text := u + x;
    assert text[..|u|] == u && text[..|u|] == v && text[|u|..] == x && text[|u|..] == y;
  }

  lemma EscapeStart(c: char)
    ensures |Escape(c)| > 0 && Escape(c)[0] != '"'
    ensures Escape(c)[0] == '\\' <==> |Escape(c)| > 1
  {
  }

  lemma EscapeUnique(c: char, d: char, x: string, y: string)
    requires Escape(c) + x == Escape(d) + y
    ensures c == d && x == y
  {
    EscapeStart(c);
    EscapeStart(d);
    var text := Escape(c) + x;
    assert text[0] == Escape(c)[0] == Escape(d)[0];
    if text[0] == '\\' {
      assert text[1] == Escape(c)[1] == Escape(d)[1];
      if text[1] == 'u' {
        assert text[4] == Escape(c)[4] == Escape(d)[4] && text[5] == Escape(c)[5] == Escape(d)[5];
        HexUnique(c as nat / 16, d as nat / 16);
        HexUnique(c as nat % 16, d as nat % 16);
        assert c as nat == d as nat;
      }
    }
    assert c == d;
    assert x == text[|Escape(c)|..] == y;
  }

  lemma HexUnique(m: nat, n: nat)
    requires m < 16 && n < 16
    ensures Hex(m) == Hex(n) <==> m == n
  {
  }

  lemma {:induction false} EscapedUnique(a: string, b: string, x: string, y: string)
    requires EscapeAll(a) + "\"" + x == EscapeAll(b) + "\"" + y
    ensures a == b && x == y
  {
    hide Escape;
    EscapedStart(a, x);
    EscapedStart(b, y);
    if a == [] || b == [] {
      assert EscapeAll(a) + "\"" + x == "\"" + x && EscapeAll(b) + "\"" + y == "\"" + y;
      DropPrefix("\"", x, "\"", y);
    } else {
      var p, q := EscapeAll(a[1..]) + "\"" + x, EscapeAll(b[1..]) + "\"" + y;
      EscapeUnique(a[0], b[0], p, q);
      EscapedUnique(a[1..], b[1..], x, y);
      assert a == [a[0]] + a[1..] && b == [b[0]] + b[1..];
    }
  }

  lemma EscapedStart(a: string, x: string)
    ensures var text := EscapeAll(a) + "\"" + x;
            text[0] == '"' <==> a == []
    ensures a != [] ==> EscapeAll(a) + "\"" + x == Escape(a[0]) + (EscapeAll(a[1..]) + "\"" + x)
  {
    hide Escape;
    if a != [] {
      EscapeStart(a[0]);
      assert EscapeAll(a)[0] == Escape(a[0])[0];
    }
  }

  /** A quoted string ends where its text says, and determines the string. */
  lemma QuoteUnique(a: string, b: string, x: string, y: string)
    requires Quote(a) + x == Quote(b) + y
    ensures a == b && x == y
  {
    var p, q := EscapeAll(a) + "\"" + x, EscapeAll(b) + "\"" + y;
    assert Quote(a) + x == "\"" + p && Quote(b) + y == "\"" + q;
    assert p == ("\"" + p)[1..] == ("\"" + q)[1..] == q;
    EscapedUnique(a, b, x, y);
  }

  // ----- Trees can be read back -----

  /** What may follow a value: nothing, or a delimiter. */
  predicate Ends(x: string) {
    x == [] || x[0] == ',' || x[0] == ']' || x[0] == '}'
  }

  /** The first character of a value's text tells its kind. */
  lemma FirstCharacter(t: Json)
    requires WellFormed(t)
    ensures StableJson(t) != []
    ensures var c := StableJson(t)[0];
            && (t.Null? <==> c == 'n') && (t.Str? <==> c == '"') && (t.Arr? <==> c == '[') && (t.Obj? <==> c == '{')
            && (t.Bool? <==> c == 't' || c == 'f') && (t.Num? <==> NumberChar(c))
  {
  }

  lemma NumberUnique(a: string, b: string, x: string, y: string)
    requires WellFormed(Num(a)) && WellFormed(Num(b)) && Ends(x) && Ends(y) && a + x == b + y
    ensures a == b && x == y
  {
    NumberEnd(a, b, x, y);
    NumberEnd(b, a, y, x);
    DropPrefix(a, x, b, y);
  }

  lemma NumberEnd(a: string, b: string, x: string, y: string)
    requires WellFormed(Num(b)) && Ends(x) && a + x == b + y
    ensures |b| <= |a|
  {
    var text := a + x;
    assert text == b + y;
    assert forall i :: 0 <= i < |b| ==> NumberChar(text[i]);
    assert |a| < |text| ==> !NumberChar(text[|a|]);
  }

  /** A value's text ends where it says, and determines the value up to key order. */
  lemma {:induction false} ValueUnique(a: Json, b: Json, x: string, y: string)
    requires WellFormed(a) && WellFormed(b) && Ends(x) && Ends(y) && StableJson(a) + x == StableJson(b) + y
    ensures Same(a, b) && x == y && StableJson(a) == StableJson(b)
    decreases a, 2
  {
    hide WellFormed, StableJson, Same;
    FirstCharacter(a);
    FirstCharacter(b);
    assert (StableJson(a) + x)[0] == StableJson(a)[0] && (StableJson(b) + y)[0] == StableJson(b)[0];
    if a.Arr? {
      ArrayUnique(a, b, x, y);
    } else if a.Obj? {
      ObjectUnique(a, b, x, y);
    } else {
      ScalarUnique(a, b, x, y);
    }
  }

  lemma ScalarUnique(a: Json, b: Json, x: string, y: string)
    requires !a.Arr? && !a.Obj? && (a.Null? <==> b.Null?) && (a.Bool? <==> b.Bool?) && (a.Num? <==> b.Num?)
    requires (a.Str? <==> b.Str?)
    requires WellFormed(a) && WellFormed(b) && Ends(x) && Ends(y) && StableJson(a) + x == StableJson(b) + y
    ensures Same(a, b) && x == y && StableJson(a) == StableJson(b)
  {
    hide Quote;
    match a
    case Null => DropPrefix("null", x, "null", y);
    case Bool(value) =>
      assert (StableJson(a) + x)[0] == StableJson(a)[0] && (StableJson(b) + y)[0] == StableJson(b)[0];
      DropPrefix(StableJson(a), x, StableJson(b), y);
    case Num(n) => NumberUnique(n, b.text, x, y);
    case Str(s) => QuoteUnique(s, b.content, x, y);
  }

  lemma {:induction false} ArrayUnique(a: Json, b: Json, x: string, y: string)
    requires a.Arr? && b.Arr? && WellFormed(a) && WellFormed(b) && StableJson(a) + x == StableJson(b) + y
    ensures Same(a, b) && x == y && StableJson(a) == StableJson(b)
    decreases a, 1
  {
    hide WellFormed;
    var p, q := Join(Texts(a)) + "]" + x, Join(Texts(b)) + "]" + y;
    assert StableJson(a) + x == "[" + p && StableJson(b) + y == "[" + q;
    DropPrefix("[", p, "[", q);
    assert Texts(a)[0..] == Texts(a) && Texts(b)[0..] == Texts(b);
    ItemsUnique(a, b, 0, x, y);
    assert Texts(a) == Texts(b);
  }

  lemma {:induction false} ObjectUnique(a: Json, b: Json, x: string, y: string)
    requires a.Obj? && b.Obj? && WellFormed(a) && WellFormed(b) && StableJson(a) + x == StableJson(b) + y
    ensures Same(a, b) && x == y && StableJson(a) == StableJson(b)
    decreases a, 1
  {
    hide WellFormed, Sort, Join, Members, Same;
    var s, t := Sort(ByKey, Entries(a)), Sort(ByKey, Entries(b));
    var p, q := Join(Members(s)) + "}" + x, Join(Members(t)) + "}" + y;
    assert StableJson(a) + x == "{" + p && StableJson(b) + y == "{" + q;
    DropPrefix("{", p, "{", q);
    assert Members(s)[0..] == Members(s) && Members(t)[0..] == Members(t);
    EntriesUnique(a, b, 0, x, y);
    assert s[0..] == s && t[0..] == t;
    SameFields(a, b);
  }

  /** What is left of a list of texts, from the `k`-th on, with its closing bracket and what follows. */
  lemma JoinFrom(texts: seq<string>, k: nat, close: string, x: string)
    requires k <= |texts| && |close| == 1
    ensures var rest := Join(texts[k..]) + close + x;
            if k == |texts| then rest == close + x else rest == texts[k] + Rest(texts, k, close, x)
  {
    if k < |texts| {
      assert texts[k..][1..] == texts[k + 1..];
    }
  }

  /** The two ways a list can go on after its `k`-th text, each starting with a delimiter. */
  function Rest(texts: seq<string>, k: nat, close: string, x: string): string
    requires k < |texts|
  {
    if k + 1 == |texts| then close + x else "," + (Join(texts[k + 1..]) + close + x)
  }

  lemma RestUnique(s: seq<string>, t: seq<string>, k: nat, close: string, x: string, y: string)
    requires k < |s| && k < |t| && (close == "]" || close == "}") && Rest(s, k, close, x) == Rest(t, k, close, y)
    ensures k + 1 == |s| <==> k + 1 == |t|
    ensures Join(s[k + 1..]) + close + x == Join(t[k + 1..]) + close + y
  {
    var p, q := Rest(s, k, close, x), Rest(t, k, close, y);
    assert p[0] == q[0];
    if k + 1 == |s| {
      DropPrefix(close, x, close, y);
    } else {
      DropPrefix(",", Join(s[k + 1..]) + close + x, ",", Join(t[k + 1..]) + close + y);
    }
  }

  lemma RestEnds(texts: seq<string>, k: nat, close: string, x: string)
    requires k < |texts| && (close == "]" || close == "}")
    ensures Ends(Rest(texts, k, close, x))
  {
  }

  lemma {:induction false} ItemsUnique(a: Json, b: Json, k: nat, x: string, y: string)
    requires a.Arr? && b.Arr? && WellFormed(a) && WellFormed(b) && k <= |a.items| && k <= |b.items|
    requires Join(Texts(a)[k..]) + "]" + x == Join(Texts(b)[k..]) + "]" + y
    ensures |a.items| == |b.items| && x == y
    ensures forall i :: k <= i < |a.items| ==>
      Same(a.items[i], b.items[i]) && StableJson(a.items[i]) == StableJson(b.items[i])
    decreases a, 0, |a.items| - k
  {
    hide Same, Rest, Ends, Join, StableJson;
    var s, t := Texts(a), Texts(b);
    JoinFrom(s, k, "]", x);
    JoinFrom(t, k, "]", y);
    if k < |s| {
      FirstCharacter(a.items[k]);
    }
    if k < |t| {
      FirstCharacter(b.items[k]);
    }
    if k < |s| && k < |t| {
      RestEnds(s, k, "]", x);
      RestEnds(t, k, "]", y);
      ValueUnique(a.items[k], b.items[k], Rest(s, k, "]", x), Rest(t, k, "]", y));
      RestUnique(s, t, k, "]", x, y);
      ItemsUnique(a, b, k + 1, x, y);
    } else {
      ListEnd(s, t, k, "]", x, y);
    }
  }

  /** A list that has ended is not one that goes on. */
  lemma ListEnd(s: seq<string>, t: seq<string>, k: nat, close: string, x: string, y: string)
    requires k <= |s| && k <= |t| && (k == |s| || k == |t|) && |close| == 1
    requires k < |s| ==> s[k] != [] && s[k][0] != close[0]
    requires k < |t| ==> t[k] != [] && t[k][0] != close[0]
    requires Join(s[k..]) + close + x == Join(t[k..]) + close + y
    ensures |s| == |t| && x == y
  {
    hide Join;
    ListStart(s, k, close, x);
    ListStart(t, k, close, y);
    JoinFrom(s, k, close, x);
    JoinFrom(t, k, close, y);
    DropPrefix(close, x, close, y);
  }

  lemma ListStart(texts: seq<string>, k: nat, close: string, x: string)
    requires k <= |texts| && |close| == 1 && (k < |texts| ==> texts[k] != [] && texts[k][0] != close[0])
    ensures var rest := Join(texts[k..]) + close + x; rest[0] == close[0] <==> k == |texts|
  {
    hide Join, Rest;
    JoinFrom(texts, k, close, x);
  }

  /** A sorted entry is the printed form of a field, and every field is there. */
  lemma SortedEntries(t: Json)
    requires t.Obj? && WellFormed(t)
    ensures var s := Sort(ByKey, Entries(t));
            && |s| == |t.fields|
            && (forall k :: 0 <= k < |s| ==>
                  exists i :: 0 <= i < |t.fields| && s[k] == (t.fields[i].0, StableJson(t.fields[i].1)))
            && (forall i :: 0 <= i < |t.fields| ==> (t.fields[i].0, StableJson(t.fields[i].1)) in s)
  {
    var e := Entries(t);
    ByKeyOrder<string>();
    SortIsSorted(ByKey, e);
    var s := Sort(ByKey, e);
    assert |multiset(s)| == |s| && |multiset(e)| == |e|;
    forall k | 0 <= k < |s|
      ensures exists i :: 0 <= i < |t.fields| && s[k] == (t.fields[i].0, StableJson(t.fields[i].1))
    {
      assert s[k] in multiset(e);
      var i :| 0 <= i < |e| && e[i] == s[k];
    }
    forall i | 0 <= i < |t.fields| ensures (t.fields[i].0, StableJson(t.fields[i].1)) in s {
      assert e[i] in multiset(s);
    }
  }

  lemma {:induction false} EntriesUnique(a: Json, b: Json, k: nat, x: string, y: string)
    requires a.Obj? && b.Obj? && WellFormed(a) && WellFormed(b)
    requires k <= |Sort(ByKey, Entries(a))| && k <= |Sort(ByKey, Entries(b))|
    requires Join(Members(Sort(ByKey, Entries(a)))[k..]) + "}" + x
      == Join(Members(Sort(ByKey, Entries(b)))[k..]) + "}" + y
    ensures x == y && Sort(ByKey, Entries(a))[k..] == Sort(ByKey, Entries(b))[k..]
    decreases a, 0, |Sort(ByKey, Entries(a))| - k
  {
    hide WellFormed, Sort, Join, Rest, Ends, Member, StableJson, Entries;
    var s, t := Sort(ByKey, Entries(a)), Sort(ByKey, Entries(b));
    JoinFrom(Members(s), k, "}", x);
    JoinFrom(Members(t), k, "}", y);
    if k < |s| && k < |t| {
      var p, q := Rest(Members(s), k, "}", x), Rest(Members(t), k, "}", y);
      RestEnds(Members(s), k, "}", x);
      RestEnds(Members(t), k, "}", y);
      var i := FieldOf(a, k);
      var j := FieldOf(b, k);
      EntryUnique(a, b, i, j, p, q);
      RestUnique(Members(s), Members(t), k, "}", x, y);
      EntriesUnique(a, b, k + 1, x, y);
      assert s[k..] == [s[k]] + s[k + 1..] && t[k..] == [t[k]] + t[k + 1..];
    } else {
      if k < |s| {
        MemberStart(s[k]);
      }
      if k < |t| {
        MemberStart(t[k]);
      }
      ListEnd(Members(s), Members(t), k, "}", x, y);
    }
  }

  lemma MemberStart(entry: (string, string))
    ensures Member(entry) != [] && Member(entry)[0] == '"'
  {
  }

  lemma FieldOf(t: Json, k: nat) returns (i: nat)
    requires t.Obj? && WellFormed(t) && k < |Sort(ByKey, Entries(t))|
    ensures i < |t.fields| && Sort(ByKey, Entries(t))[k] == (t.fields[i].0, StableJson(t.fields[i].1))
  {
    SortedEntries(t);
    hide Sort, StableJson, WellFormed;
    i :| 0 <= i < |t.fields| && Sort(ByKey, Entries(t))[k] == (t.fields[i].0, StableJson(t.fields[i].1));
  }

  lemma {:induction false} EntryUnique(a: Json, b: Json, i: nat, j: nat, p: string, q: string)
    requires a.Obj? && b.Obj? && WellFormed(a) && WellFormed(b) && Ends(p) && Ends(q) && i < |a.fields|
    requires j < |b.fields|
    requires Member((a.fields[i].0, StableJson(a.fields[i].1))) + p
      == Member((b.fields[j].0, StableJson(b.fields[j].1))) + q
    ensures a.fields[i].0 == b.fields[j].0 && StableJson(a.fields[i].1) == StableJson(b.fields[j].1) && p == q
    decreases a, 0, 0
  {
    hide Quote, StableJson, Ends, Same;
    var s, t := StableJson(a.fields[i].1), StableJson(b.fields[j].1);
    var u, v := ":" + (s + p), ":" + (t + q);
    assert Member((a.fields[i].0, s)) + p == Quote(a.fields[i].0) + u;
    assert Member((b.fields[j].0, t)) + q == Quote(b.fields[j].0) + v;
    QuoteUnique(a.fields[i].0, b.fields[j].0, u, v);
    DropPrefix(":", s + p, ":", t + q);
    ValueUnique(a.fields[i].1, b.fields[j].1, p, q);
  }

  lemma {:induction false} FieldOccurs(a: Json, i: nat, b: Json) returns (j: nat)
    requires a.Obj? && b.Obj? && WellFormed(a) && WellFormed(b) && i < |a.fields|
    requires (a.fields[i].0, StableJson(a.fields[i].1)) in Sort(ByKey, Entries(b))
    ensures j < |b.fields| && a.fields[i].0 == b.fields[j].0 && StableJson(a.fields[i].1) == StableJson(b.fields[j].1)
  {
    hide Sort, StableJson, WellFormed, Entries;
    var k :| 0 <= k < |Sort(ByKey, Entries(b))|
      && Sort(ByKey, Entries(b))[k] == (a.fields[i].0, StableJson(a.fields[i].1));
    j := FieldOf(b, k);
  }

  lemma {:induction false} SameFields(a: Json, b: Json)
    requires a.Obj? && b.Obj? && WellFormed(a) && WellFormed(b) && Sort(ByKey, Entries(a)) == Sort(ByKey, Entries(b))
    ensures Same(a, b)
    decreases a, 0, 1
  {
    SortedEntries(a);
    SortedEntries(b);
    hide Sort, StableJson, Entries, FieldIn, FieldFrom, WellFormed;
    forall i | 0 <= i < |a.fields| ensures FieldIn(a, i, b) {
      SameFieldThere(a, i, b);
    }
    forall j | 0 <= j < |b.fields| ensures FieldFrom(a, b, j) {
      SameFieldHere(a, j, b);
    }
  }

  lemma {:induction false} SameFieldThere(a: Json, i: nat, b: Json)
    requires a.Obj? && b.Obj? && WellFormed(a) && WellFormed(b) && i < |a.fields|
    requires (a.fields[i].0, StableJson(a.fields[i].1)) in Sort(ByKey, Entries(b))
    ensures FieldIn(a, i, b)
    decreases a, 0, 0
  {
    hide Sort, StableJson, Entries, Same;
    var j := FieldOccurs(a, i, b);
    SameValues(a.fields[i].1, b.fields[j].1);
  }

  lemma {:induction false} SameFieldHere(a: Json, j: nat, b: Json)
    requires a.Obj? && b.Obj? && WellFormed(a) && WellFormed(b) && j < |b.fields|
    requires (b.fields[j].0, StableJson(b.fields[j].1)) in Sort(ByKey, Entries(a))
    ensures FieldFrom(a, b, j)
    decreases a, 0, 0
  {
    hide Sort, StableJson, Entries, Same;
    var i := FieldOccurs(b, j, a);
    SameValues(a.fields[i].1, b.fields[j].1);
  }

  lemma {:induction false} SameValues(a: Json, b: Json)
    requires WellFormed(a) && WellFormed(b) && StableJson(a) == StableJson(b)
    ensures Same(a, b)
    decreases a, 3
  {
    hide StableJson, Same, WellFormed;
    ValueUnique(a, b, [], []);
  }

  // ----- Key order does not matter -----

  lemma {:induction false} SameGivesSameText(a: Json, b: Json)
    requires WellFormed(a) && WellFormed(b) && Same(a, b)
    ensures StableJson(a) == StableJson(b)
    decreases a, 1
  {
    match a
    case Arr(items) =>
      forall i | 0 <= i < |items| ensures StableJson(items[i]) == StableJson(b.items[i]) {
        SameGivesSameText(items[i], b.items[i]);
      }
      assert Texts(a) == Texts(b);
    case Obj(fields) =>
      hide StableJson;
      SameEntries(a, b);
      SameSort(Entries(a), Entries(b));
      assert StableJson(a) == StableJson(b) by { TextOfObject(a); TextOfObject(b); }
    case _ =>
  }

  lemma TextOfObject(t: Json)
    requires t.Obj?
    ensures StableJson(t) == "{" + Join(Members(Sort(ByKey, Entries(t)))) + "}"
  {
  }

  lemma {:induction false} SameEntries(a: Json, b: Json)
    requires a.Obj? && b.Obj? && WellFormed(a) && WellFormed(b) && Same(a, b)
    ensures multiset(Entries(a)) == multiset(Entries(b)) && DistinctKeys(Entries(a))
    decreases a, 0, 1
  {
    var e, f := Entries(a), Entries(b);
    assert forall i :: 0 <= i < |e| ==> FieldIn(a, i, b);
    assert forall j :: 0 <= j < |f| ==> FieldFrom(a, b, j);
    hide StableJson, Same, FieldIn, FieldFrom;
    forall i | 0 <= i < |e| ensures e[i] in f {
      EntryThere(a, i, b);
    }
    forall j | 0 <= j < |f| ensures f[j] in e {
      EntryHere(a, j, b);
    }
    SameElements(e, f);
  }

  lemma {:induction false} EntryThere(a: Json, i: nat, b: Json)
    requires a.Obj? && b.Obj? && WellFormed(a) && WellFormed(b) && i < |a.fields| && FieldIn(a, i, b)
    ensures Entries(a)[i] in Entries(b)
    decreases a, 0, 0
  {
    hide StableJson;
    var j :| 0 <= j < |b.fields| && a.fields[i].0 == b.fields[j].0 && Same(a.fields[i].1, b.fields[j].1);
    hide Same, WellFormed;
    SameGivesSameText(a.fields[i].1, b.fields[j].1) by { FieldsWellFormed(a, i); FieldsWellFormed(b, j); }
    assert Entries(b)[j] == Entries(a)[i];
  }

  lemma {:induction false} EntryHere(a: Json, j: nat, b: Json)
    requires a.Obj? && b.Obj? && WellFormed(a) && WellFormed(b) && j < |b.fields| && FieldFrom(a, b, j)
    ensures Entries(b)[j] in Entries(a)
    decreases a, 0, 0
  {
    hide StableJson;
    var i :| 0 <= i < |a.fields| && a.fields[i].0 == b.fields[j].0 && Same(a.fields[i].1, b.fields[j].1);
    hide Same, WellFormed;
    SameGivesSameText(a.fields[i].1, b.fields[j].1) by { FieldsWellFormed(a, i); FieldsWellFormed(b, j); }
    assert Entries(a)[i] == Entries(b)[j];
  }

  lemma FieldsWellFormed(t: Json, i: nat)
    requires t.Obj? && WellFormed(t) && i < |t.fields|
    ensures WellFormed(t.fields[i].1)
  {
  }

  lemma {:induction false} OnceEach(s: seq<(string, string)>, x: (string, string))
    requires DistinctKeys(s)
    ensures multiset(s)[x] == if x in s then 1 else 0
  {
    if s != [] {
      var n := |s| - 1;
      assert s == s[..n] + [s[n]];
      OnceEach(s[..n], x);
    }
  }

  lemma SameElements(s: seq<(string, string)>, t: seq<(string, string)>)
    requires DistinctKeys(s) && DistinctKeys(t)
    requires forall i :: 0 <= i < |s| ==> s[i] in t
    requires forall j :: 0 <= j < |t| ==> t[j] in s
    ensures multiset(s) == multiset(t)
  {
    forall x ensures multiset(s)[x] == multiset(t)[x] {
      OnceEach(s, x);
      OnceEach(t, x);
    }
  }

  lemma SameSort(s: seq<(string, string)>, t: seq<(string, string)>)
    requires DistinctKeys(s) && multiset(s) == multiset(t)
    ensures Sort(ByKey, s) == Sort(ByKey, t)
  {
    ByKeyOrder<string>();
    forall x, y | x in multiset(s) && y in multiset(s) && ByKey(x, y) && ByKey(y, x) ensures x == y {
      LeqTotal(x.0, y.0);
      var i :| 0 <= i < |s| && s[i] == x;
      var j :| 0 <= j < |s| && s[j] == y;
    }
    SortForgetsOrderOnly(ByKey, s, t);
  }

  /** The text of two trees is the same exactly when they are equal up to key order. */
  lemma StableJsonIsCanonical(a: Json, b: Json)
    requires WellFormed(a) && WellFormed(b)
    ensures StableJson(a) == StableJson(b) <==> Same(a, b)
  {
    if StableJson(a) == StableJson(b) {
      assert StableJson(a) + [] == StableJson(b) + [];
      ValueUnique(a, b, [], []);
    } else if Same(a, b) {
      SameGivesSameText(a, b);
    }
  }
}

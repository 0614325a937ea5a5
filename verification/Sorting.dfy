/** A stable sort by an order given as a function, and the order of strings that `<` compares. */
module Sorting {
  function Insert<T>(leq: (T, T) -> bool, x: T, s: seq<T>): seq<T> {
    if s == [] then [x]
    else if leq(s[0], x) then [s[0]] + Insert(leq, x, s[1..])
    else [x] + s
  }

  function Sort<T>(leq: (T, T) -> bool, s: seq<T>): seq<T> {
    if s == [] then [] else Insert(leq, s[|s| - 1], Sort(leq, s[..|s| - 1]))
  }

  ghost predicate TotalPreorder<T(!new)>(leq: (T, T) -> bool) {
    && (forall x, y :: leq(x, y) || leq(y, x))
    && (forall x, y, z :: leq(x, y) && leq(y, z) ==> leq(x, z))
  }

  ghost predicate Sorted<T>(leq: (T, T) -> bool, s: seq<T>) {
    s == [] || ((forall y :: y in s[1..] ==> leq(s[0], y)) && Sorted(leq, s[1..]))
  }

  lemma {:induction false} InsertKeeps<T(!new)>(leq: (T, T) -> bool, x: T, s: seq<T>)
    requires TotalPreorder(leq) && Sorted(leq, s)
    ensures Sorted(leq, Insert(leq, x, s)) && multiset(Insert(leq, x, s)) == multiset(s) + multiset{x}
  {
    var result := Insert(leq, x, s);
    if s != [] && leq(s[0], x) {
      InsertKeeps(leq, x, s[1..]);
      var rest := Insert(leq, x, s[1..]);
      assert s == [s[0]] + s[1..] && result[1..] == rest;
      forall y | y in rest ensures leq(s[0], y) {
        assert y in multiset(rest);
      }
    } else if s != [] {
      assert result[1..] == s;
      forall y | y in s ensures leq(x, y) {
        assert y == s[0] || y in s[1..];
      }
    }
  }

  lemma {:induction false} SortIsSorted<T(!new)>(leq: (T, T) -> bool, s: seq<T>)
    requires TotalPreorder(leq)
    ensures Sorted(leq, Sort(leq, s)) && multiset(Sort(leq, s)) == multiset(s)
  {
    if s != [] {
      SortIsSorted(leq, s[..|s| - 1]);
      InsertKeeps(leq, s[|s| - 1], Sort(leq, s[..|s| - 1]));
      assert s == s[..|s| - 1] + [s[|s| - 1]];
    }
  }

  /** No two different elements are equivalent in the order. */
  ghost predicate Separated<T(!new)>(leq: (T, T) -> bool, s: seq<T>) {
    forall x, y :: x in multiset(s) && y in multiset(s) && leq(x, y) && leq(y, x) ==> x == y
  }

  lemma {:induction false} SortedIsUnique<T(!new)>(leq: (T, T) -> bool, s: seq<T>, t: seq<T>)
    requires TotalPreorder(leq) && Sorted(leq, s) && Sorted(leq, t) && multiset(s) == multiset(t) && Separated(leq, s)
    ensures s == t
  {
    SameLength(s, t);
    if s != [] {
      assert s == [s[0]] + s[1..] && t == [t[0]] + t[1..];
      SameHead(leq, s, t);
      Tails(leq, s, t);
      hide TotalPreorder, Separated;
      SortedIsUnique(leq, s[1..], t[1..]);
    }
  }

  lemma Tails<T(!new)>(leq: (T, T) -> bool, s: seq<T>, t: seq<T>)
    requires s != [] && t != [] && s[0] == t[0] && multiset(s) == multiset(t) && Separated(leq, s)
    ensures multiset(s[1..]) == multiset(t[1..]) && Separated(leq, s[1..])
  {
    assert s == [s[0]] + s[1..] && t == [t[0]] + t[1..];
    assert multiset(s[1..]) == multiset(s) - multiset{s[0]} && multiset(t[1..]) == multiset(t) - multiset{t[0]};
  }

  lemma SameLength<T>(s: seq<T>, t: seq<T>)
    requires multiset(s) == multiset(t)
    ensures |s| == |t|
  {
    assert |multiset(s)| == |s| && |multiset(t)| == |t|;
  }

  lemma SameHead<T(!new)>(leq: (T, T) -> bool, s: seq<T>, t: seq<T>)
    requires TotalPreorder(leq) && Sorted(leq, s) && Sorted(leq, t) && multiset(s) == multiset(t) && Separated(leq, s)
    requires s != [] && t != []
    ensures s[0] == t[0]
  {
    assert s[0] in multiset(s) && t[0] in multiset(t);
    HeadLeast(leq, s, t[0]);
    HeadLeast(leq, t, s[0]);
  }

  lemma HeadLeast<T(!new)>(leq: (T, T) -> bool, s: seq<T>, y: T)
    requires TotalPreorder(leq) && Sorted(leq, s) && y in s
    ensures leq(s[0], y)
  {
    assert y == s[0] || y in s[1..];
  }

  /** Sorting forgets the order of what it is given, and nothing else. */
  lemma SortForgetsOrderOnly<T(!new)>(leq: (T, T) -> bool, s: seq<T>, t: seq<T>)
    requires TotalPreorder(leq) && Separated(leq, s)
    ensures Sort(leq, s) == Sort(leq, t) <==> multiset(s) == multiset(t)
  {
    SortIsSorted(leq, s);
    SortIsSorted(leq, t);
    if multiset(s) == multiset(t) {
      SortedIsUnique(leq, Sort(leq, s), Sort(leq, t));
    }
  }

  // ----- Strings -----

  function Leq(a: string, b: string): bool {
    a == [] || (b != [] && (a[0] < b[0] || (a[0] == b[0] && Leq(a[1..], b[1..]))))
  }

  /** The first difference decides, or one text is the start of the other. */
  predicate Precedes(a: string, b: string) {
    || (|a| < |b| && a == b[..|a|])
    || exists k :: 0 <= k < |a| && k < |b| && a[..k] == b[..k] && a[k] < b[k]
  }

  lemma {:induction false} LeqExactly(a: string, b: string)
    ensures Leq(a, b) <==> a == b || Precedes(a, b)
  {
    if a != [] && b != [] && a[0] == b[0] {
      var s, t := a[1..], b[1..];
      LeqExactly(s, t);
      assert a == [a[0]] + s && b == [b[0]] + t;
      if k: nat :| k < |s| && k < |t| && s[..k] == t[..k] && s[k] < t[k] {
        assert a[..k + 1] == [a[0]] + s[..k] && b[..k + 1] == [b[0]] + t[..k];
        assert a[k + 1] < b[k + 1];
      }
      if k: nat :| k < |a| && k < |b| && a[..k] == b[..k] && a[k] < b[k] {
        assert s[..k - 1] == a[..k][1..] && t[..k - 1] == b[..k][1..];
        assert s[k - 1] < t[k - 1];
      }
      if |s| < |t| && s == t[..|s|] {
        assert b[..|a|] == [b[0]] + t[..|s|];
      }
      if |a| < |b| && a == b[..|a|] {
        assert t[..|s|] == b[..|a|][1..];
      }
    } else if a != [] && b != [] && a[0] < b[0] {
      assert a[..0] == b[..0];
    }
  }

  lemma {:induction false} LeqTotal(a: string, b: string)
    ensures Leq(a, b) || Leq(b, a)
    ensures Leq(a, b) && Leq(b, a) ==> a == b
  {
    if a != [] && b != [] && a[0] == b[0] {
      LeqTotal(a[1..], b[1..]);
      assert a == [a[0]] + a[1..] && b == [b[0]] + b[1..];
    }
  }

  lemma {:induction false} LeqTransitive(a: string, b: string, c: string)
    requires Leq(a, b) && Leq(b, c)
    ensures Leq(a, c)
  {
    if a != [] && b != [] && a[0] == b[0] && c != [] && b[0] == c[0] {
      LeqTransitive(a[1..], b[1..], c[1..]);
    }
  }

  /** Pairs compared by their first component. */
  function ByKey<V>(x: (string, V), y: (string, V)): bool {
    Leq(x.0, y.0)
  }

  /** Pairs compared by their first and then by their second component. */
  function ByKeyThenValue(x: (string, string), y: (string, string)): bool {
    if x.0 == y.0 then Leq(x.1, y.1) else Leq(x.0, y.0)
  }

  lemma ByKeyOrder<V(!new)>()
    ensures TotalPreorder<(string, V)>(ByKey)
  {
    forall x: (string, V), y: (string, V) ensures ByKey(x, y) || ByKey(y, x) {
      LeqTotal(x.0, y.0);
    }
    forall x: (string, V), y: (string, V), z: (string, V) | ByKey(x, y) && ByKey(y, z) ensures ByKey(x, z) {
      LeqTransitive(x.0, y.0, z.0);
    }
  }

  lemma ByKeyThenValueOrder()
    ensures TotalPreorder<(string, string)>(ByKeyThenValue)
    ensures forall x, y :: ByKeyThenValue(x, y) && ByKeyThenValue(y, x) ==> x == y
  {
    forall x: (string, string), y: (string, string)
      ensures (ByKeyThenValue(x, y) || ByKeyThenValue(y, x))
      ensures (ByKeyThenValue(x, y) && ByKeyThenValue(y, x) ==> x == y)
    {
      LeqTotal(x.0, y.0);
      LeqTotal(x.1, y.1);
    }
    forall x: (string, string), y: (string, string), z: (string, string) | ByKeyThenValue(x, y) && ByKeyThenValue(y, z)
      ensures ByKeyThenValue(x, z)
    {
      if x.0 == y.0 == z.0 {
        LeqTransitive(x.1, y.1, z.1);
      } else if x.0 != y.0 && y.0 != z.0 {
        LeqTransitive(x.0, y.0, z.0);
        LeqTotal(x.0, y.0);
      }
    }
  }
}

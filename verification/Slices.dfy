/** A sequence that lies in another one. */
module Slices {
  predicate LiesAt<T(==)>(s: seq<T>, k: nat, part: seq<T>) {
    k + |part| <= |s| && s[k..k + |part|] == part
  }

  /** The parts of what lies somewhere lie there one after the other. */
  lemma PartsLie<T>(s: seq<T>, k: nat, a: seq<T>, b: seq<T>)
    requires LiesAt(s, k, a + b)
    ensures LiesAt(s, k, a) && LiesAt(s, k + |a|, b)
  {
    ElementsThere(s, k, a + b);
    assert s[k..k + |a|] == a;
    assert s[k + |a|..k + |a| + |b|] == b;
  }

  lemma ElementsThere<T>(s: seq<T>, k: nat, part: seq<T>)
    requires LiesAt(s, k, part)
    ensures forall i :: k <= i < k + |part| ==> s[i] == part[i - k]
  {
    forall i | k <= i < k + |part| ensures s[i] == part[i - k] {
      assert s[k..k + |part|][i - k] == s[i];
    }
  }
}

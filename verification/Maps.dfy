/** A number that is no key. */
module Maps {
  lemma {:induction false} UnusedKey<V>(m: map<nat, V>) returns (q: nat)
    ensures q !in m && forall k :: k in m ==> k < q
    decreases |m|
  {
    if m == map[] {
      q := 0;
    } else {
      var k :| k in m;
      var rest := m - {k};
      assert m.Keys == rest.Keys + {k};
      q := UnusedKey(rest);
      q := if q > k then q else k + 1;
    }
  }
}

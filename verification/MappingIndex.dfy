/** The index that finds the archived page or asset of a URL (packages/archive-core/src/rewrite.ts:510-554).
    Normalization is a function given by the caller; a mapping is known by its place in the list of pages
    followed by finalized assets. */
module MappingIndex {
  import opened Options

  datatype Mapping = Mapping(normalizedUrl: string, localReference: string)

  type Normalizer = string -> Option<string>

  /** The mapping at `i`, among the first `n`, has the key. */
  predicate Has(normalizer: Normalizer, mappings: seq<Mapping>, n: nat, i: int, key: string)
    requires n <= |mappings|
  {
    0 <= i < n && normalizer(mappings[i].normalizedUrl) == Some(key)
  }

  function Entries(normalizer: Normalizer, mappings: seq<Mapping>, n: nat, key: string): seq<Mapping>
    requires n <= |mappings|
  {
    if n == 0 then []
    else Entries(normalizer, mappings, n - 1, key) + (if Has(normalizer, mappings, n, n - 1, key) then [mappings[n - 1]]
                                                      else [])
  }

  /** The mapping at `i` has the key, and no other has. */
  ghost predicate OnlyOne(normalizer: Normalizer, mappings: seq<Mapping>, n: nat, i: int, key: string)
    requires n <= |mappings|
  {
    Has(normalizer, mappings, n, i, key) && forall j :: Has(normalizer, mappings, n, j, key) ==> j == i
  }

  /** Two mappings have the key. */
  ghost predicate Several(normalizer: Normalizer, mappings: seq<Mapping>, n: nat, key: string)
    requires n <= |mappings|
  {
    exists i, j :: i < j && Has(normalizer, mappings, n, i, key) && Has(normalizer, mappings, n, j, key)
  }

  lemma {:induction false} EntriesCount(normalizer: Normalizer, mappings: seq<Mapping>, n: nat,
                                        key: string) returns (i: int)
    requires n <= |mappings|
    ensures var e := Entries(normalizer, mappings, n, key);
            && (|e| == 0 <==> forall j :: !Has(normalizer, mappings, n, j, key))
            && (|e| == 1 ==> OnlyOne(normalizer, mappings, n, i, key) && e == [mappings[i]])
            && (|e| > 1 ==> Several(normalizer, mappings, n, key))
  {
    i := 0;
    if n > 0 {
      i := EntriesCount(normalizer, mappings, n - 1, key);
      var before := Entries(normalizer, mappings, n - 1, key);
      assert forall j ::
        Has(normalizer, mappings, n, j, key) <==>
          Has(normalizer, mappings, n - 1, j, key) || (j == n - 1 && Has(normalizer, mappings, n, n - 1, key));
      if |before| > 1 {
        var k, l :| k < l && Has(normalizer, mappings, n - 1, k, key) && Has(normalizer, mappings, n - 1, l, key);
        assert Has(normalizer, mappings, n, k, key) && Has(normalizer, mappings, n, l, key);
      } else if |before| == 1 {
        assert Has(normalizer, mappings, n - 1, i, key);
        assert Has(normalizer, mappings, n, i, key);
      } else if Has(normalizer, mappings, n, n - 1, key) {
        i := n - 1;
      }
    }
  }

  class RewriteMappingIndex {
    const normalizer: Normalizer
    const mappings: seq<Mapping>
    var byUrl: map<string, seq<Mapping>>
    var localReferences: set<string>

    predicate Grouped(n: nat)
      requires n <= |mappings|
      reads this
    {
      && (forall i :: 0 <= i < n ==>
             normalizer(mappings[i].normalizedUrl).Some? && normalizer(mappings[i].normalizedUrl).value in byUrl)
      && (forall key :: key in byUrl ==> byUrl[key] == Entries(normalizer, mappings, n, key))
    }

    constructor (normalizer: Normalizer, mappings: seq<Mapping>)
      ensures this.normalizer == normalizer && this.mappings == mappings && Grouped(0) && localReferences == {}
    {
      this.normalizer, this.mappings := normalizer, mappings;
      byUrl, localReferences := map[], {};
    }

    /** The loop of the source's constructor; it throws at a URL that cannot be normalized. */
    method Fill() returns (ok: bool)
      requires Grouped(0) && localReferences == {}
      modifies this
      ensures ok <==> forall i :: 0 <= i < |mappings| ==> normalizer(mappings[i].normalizedUrl).Some?
      ensures ok ==> Grouped(|mappings|)
      ensures ok ==> forall x ::
        x in localReferences <==> exists i :: 0 <= i < |mappings| && mappings[i].localReference == x
    {
      hide Entries;
      var i := 0;
      while i < |mappings|
        invariant i <= |mappings| && Grouped(i)
        invariant forall x :: x in localReferences <==> exists k :: 0 <= k < i && mappings[k].localReference == x
      {
        var key := normalizer(mappings[i].normalizedUrl);
        if key.None? {
          return false;
        }
        AddMapping(i, key.value);
        localReferences := localReferences + {mappings[i].localReference};
        i := i + 1;
      }
      return true;
    }

    /** Adds a mapping to the group of its key. */
    method AddMapping(i: nat, key: string)
      requires i < |mappings| && Grouped(i) && normalizer(mappings[i].normalizedUrl) == Some(key)
      modifies this`byUrl
      ensures Grouped(i + 1)
    {
      if key !in byUrl {
        ghost var w := EntriesCount(normalizer, mappings, i, key);
      }
      var current := if key in byUrl then byUrl[key] else [];
      byUrl := byUrl[key := current + [mappings[i]]];
    }

    /** The mappings of a key. */
    method EntriesOf(key: string) returns (entries: seq<Mapping>)
      requires Grouped(|mappings|)
      ensures entries == Entries(normalizer, mappings, |mappings|, key)
    {
      if key in byUrl {
        return byUrl[key];
      }
      ghost var w := EntriesCount(normalizer, mappings, |mappings|, key);
      return [];
    }

    /** A URL is found exactly when one mapping has its key, and no other. */
    method Lookup(url: string) returns (found: Option<Mapping>)
      requires Grouped(|mappings|)
      ensures found.Some? <==>
         normalizer(url).Some? && exists i :: OnlyOne(normalizer, mappings, |mappings|, i, normalizer(url).value)
      ensures forall i ::
        (normalizer(url).Some? && OnlyOne(normalizer, mappings, |mappings|, i, normalizer(url).value)) ==>
          found == Some(mappings[i])
    {
      var key := normalizer(url);
      if key.None? {
        return None;
      }
      var entries := EntriesOf(key.value);
      ghost var i := EntriesCount(normalizer, mappings, |mappings|, key.value);
      if |entries| != 1 {
        return None;
      }
      return Some(entries[0]);
    }

    /** A URL is ambiguous exactly when two mappings have its key. */
    method IsAmbiguous(url: string) returns (ambiguous: bool)
      requires Grouped(|mappings|)
      ensures ambiguous <==> (normalizer(url).Some? && Several(normalizer, mappings, |mappings|, normalizer(url).value))
    {
      var key := normalizer(url);
      if key.None? {
        return false;
      }
      var entries := EntriesOf(key.value);
      ghost var i := EntriesCount(normalizer, mappings, |mappings|, key.value);
      return |entries| > 1;
    }
  }
}

/** Scanning a text with a cursor, as the HTML and CSS readers do. */
module Scanner {
  import opened Options
  import opened Slices

  /** What `\s` matches. */
  predicate IsSpace(c: char) {
    || c == ' ' || ('\t' <= c <= '\r') || c == '\U{00A0}' || c == '\U{1680}' || ('\U{2000}' <= c <= '\U{200A}')
         || c == '\U{2028}' || c == '\U{2029}'
    || c == '\U{202F}' || c == '\U{205F}' || c == '\U{3000}' || c == '\U{FEFF}'
  }

  predicate IsQuote(c: char) {
    c == '\'' || c == '"'
  }

  /** The first index from `i` on, below `end`, whose character is not to be skipped; `end` when there is none. */
  function Skip(text: string, i: nat, end: nat, keep: char -> bool): (r: nat)
    requires i <= end <= |text|
    ensures i <= r <= end && (r < end ==> !keep(text[r])) && forall k :: i <= k < r ==> keep(text[k])
    decreases end - i
  {
    if i < end && keep(text[i]) then Skip(text, i + 1, end, keep) else i
  }

  lemma {:induction false} SkipIs(text: string, i: nat, end: nat, keep: char -> bool, r: nat)
    requires i <= r <= end <= |text| && (forall k :: i <= k < r ==> keep(text[k])) && (r < end ==> !keep(text[r]))
    ensures Skip(text, i, end, keep) == r
    decreases r - i
  {
    if i < r {
      SkipIs(text, i + 1, end, keep, r);
    }
  }

  method SkipWhile(text: string, i: nat, end: nat, keep: char -> bool) returns (r: nat)
    requires i <= end <= |text|
    ensures r == Skip(text, i, end, keep)
  {
    r := i;
    while r < end && keep(text[r])
      invariant i <= r <= end && Skip(text, r, end, keep) == Skip(text, i, end, keep)
    {
      r := r + 1;
    }
  }

  /** The first place from `from` on where the needle lies. */
  function IndexOf(text: string, needle: string, from: nat): (r: Option<nat>)
    ensures r.Some? ==> from <= r.value && LiesAt(text, r.value, needle)
    ensures forall k: nat :: from <= k && LiesAt(text, k, needle) ==> r.Some? && r.value <= k
    decreases |text| + 1 - from
  {
    if from + |needle| > |text| then None
    else if LiesAt(text, from, needle) then Some(from)
    else IndexOf(text, needle, from + 1)
  }

  /** Characters that do not begin the needle are passed over. */
  lemma {:induction false} IndexSkips(text: string, needle: string, from: nat, to: nat)
    requires from <= to <= |text| && needle != [] && forall k :: from <= k < to ==> text[k] != needle[0]
    ensures IndexOf(text, needle, from) == IndexOf(text, needle, to)
    decreases |text| - from
  {
    if from < to {
      assert !LiesAt(text, from, needle) by {
        if from + |needle| <= |text| {
          assert text[from..from + |needle|][0] == text[from];
        }
      }
      IndexSkips(text, needle, from + 1, to);
    }
  }

  /** A loop that collects items may run for ever. */
  datatype Parse<T> = Done(result: T) | Diverges

  function Add<T>(item: T, rest: Parse<seq<T>>): Parse<seq<T>> {
    if rest.Done? then Done([item] + rest.result) else Diverges
  }

  /** What the whole loop gives when this much has been read. */
  function Continued<T>(read: seq<T>, rest: Parse<seq<T>>): Parse<seq<T>> {
    if rest.Done? then Done(read + rest.result) else Diverges
  }

  lemma ContinuedNone<T>(rest: Parse<seq<T>>)
    ensures Continued([], rest) == rest
  {
    if rest.Done? {
      assert [] + rest.result == rest.result;
    }
  }

  lemma ContinuedAdd<T>(read: seq<T>, item: T, rest: Parse<seq<T>>)
    ensures Continued(read, Add(item, rest)) == Continued(read + [item], rest)
  {
    if rest.Done? {
      assert read + ([item] + rest.result) == read + [item] + rest.result;
    }
  }

  lemma ContinuedDone<T>(read: seq<T>)
    ensures Continued(read, Done([])) == Done(read)
  {
    assert read + [] == read;
  }
}

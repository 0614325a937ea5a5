/** A spliced text read along with the original (packages/archive-core/src/rewrite.ts:964-965 and 1038-1039). */
module SplicedText {
  import opened Options
  import opened Scanner
  import opened Slices
  import opened Splice

  // ----- Text that is moved -----

  /** The characters from `lo` to `hi` are found in another text, `d` places further on. */
  predicate Moves(text: string, lo: nat, hi: nat, other: string, d: int) {
    && lo <= hi <= |text| && 0 <= lo + d && hi + d <= |other|
    && forall k :: lo <= k < hi ==> other[k + d] == text[k]
  }

  lemma MovesPart(text: string, lo: nat, hi: nat, other: string, d: int, from: nat, to: nat)
    requires Moves(text, lo, hi, other, d) && lo <= from <= to <= hi
    ensures Moves(text, from, to, other, d) && 0 <= from + d <= to + d <= |other|
  {
  }

  lemma MovesHead(text: string, lo: nat, hi: nat, other: string, d: int)
    requires Moves(text, lo, hi, other, d) && lo < hi
    ensures other[lo + d] == text[lo]
  {
  }

  lemma SliceMoves(text: string, lo: nat, hi: nat, other: string, d: int)
    requires Moves(text, lo, hi, other, d)
    ensures other[lo + d..hi + d] == text[lo..hi]
  {
  }

  /** What is skipped is known: either all of it has moved, or the skipping stops before `hi`. */
  predicate Known(hi: nat, end: nat, d: int, end2: nat, last: nat) {
    (hi == end && end2 == end + d) || (last < hi <= end && hi + d <= end2)
  }

  lemma SkipMoves(text: string, other: string, i: nat, end: nat, keep: char -> bool, d: int, hi: nat, end2: nat)
    requires i <= hi <= end <= |text| && Moves(text, i, hi, other, d) && end2 <= |other|
    requires Known(hi, end, d, end2, Skip(text, i, end, keep))
    ensures Skip(other, i + d, end2, keep) == Skip(text, i, end, keep) + d
  {
    var r := Skip(text, i, end, keep);
    forall k | i + d <= k < r + d ensures keep(other[k]) {
      assert other[(k - d) + d] == text[k - d];
    }
    assert r < end ==> other[r + d] == text[r];
    SkipIs(other, i + d, end2, keep, r + d);
  }

  lemma LiesMoves(text: string, other: string, k: nat, needle: string, d: int)
    requires Moves(text, k, k + |needle|, other, d)
    ensures LiesAt(other, k + d, needle) <==> LiesAt(text, k, needle)
  {
    SliceMoves(text, k, k + |needle|, other, d);
  }

  lemma {:induction false} IndexMoves(text: string, other: string, needle: string, from: nat, hi: nat, d: int)
    requires from <= hi && Moves(text, from, hi, other, d)
    requires IndexOf(text, needle, from).Some? && IndexOf(text, needle, from).value + |needle| <= hi
    ensures IndexOf(other, needle, from + d) == Some(IndexOf(text, needle, from).value + d)
    decreases hi - from
  {
    MovesPart(text, from, hi, other, d, from, from + |needle|);
    LiesMoves(text, other, from, needle, d);
    if !LiesAt(text, from, needle) {
      MovesPart(text, from, hi, other, d, from + 1, hi);
      IndexMoves(text, other, needle, from + 1, hi, d);
    }
  }

  lemma {:induction false} NoIndexMoves(text: string, other: string, needle: string, from: nat, d: int)
    requires from <= |text| && Moves(text, from, |text|, other, d) && |other| == |text| + d
    requires IndexOf(text, needle, from).None? && needle != []
    ensures IndexOf(other, needle, from + d).None?
    decreases |text| - from
  {
    if from + |needle| <= |text| {
      MovesPart(text, from, |text|, other, d, from, from + |needle|);
      LiesMoves(text, other, from, needle, d);
      MovesPart(text, from, |text|, other, d, from + 1, |text|);
      NoIndexMoves(text, other, needle, from + 1, d);
    }
  }

  // ----- Where the rest of a spliced text lies -----

  /** From `at` on, the new text is what is left to be spliced of the original from `from` on. */
  predicate Rest(other: string, at: int, text: string, spans: seq<Replacement>, from: nat) {
    0 <= at <= |other| && Ordered(spans, from, |text|) && other[at..] == LeftToRight(text, spans, from)
  }

  /** Up to where nothing is replaced. */
  function Free(text: string, spans: seq<Replacement>): nat {
    if spans == [] then |text| else spans[0].start
  }

  lemma Advance(other: string, at: int, text: string, spans: seq<Replacement>, from: nat, to: nat)
    requires Rest(other, at, text, spans, from) && from <= to <= Free(text, spans)
    ensures Moves(text, from, to, other, at - from)
    ensures Rest(other, at + (to - from), text, spans, to)
  {
    SpliceFrom(text, spans, from, to);
    hide LeftToRight, Ordered, Moves;
    PrefixMoves(other, at, text, from, to, LeftToRight(text, spans, to));
  }

  lemma SpliceFrom(text: string, spans: seq<Replacement>, from: nat, to: nat)
    requires Ordered(spans, from, |text|) && from <= to <= Free(text, spans)
    ensures to <= |text| && Ordered(spans, to, |text|)
    ensures LeftToRight(text, spans, from) == text[from..to] + LeftToRight(text, spans, to)
  {
    if spans == [] {
      assert text[from..] == text[from..to] + text[to..];
    } else {
      SpliceStep(text, spans, from);
      OrderedFrom(spans, from, to, |text|);
      SpliceStep(text, spans, to);
      hide Ordered, LeftToRight;
      GapSplits(text, from, to, spans[0].start, spans[0].value + LeftToRight(text, spans[1..], spans[0].end));
      Regroup(text[from..spans[0].start], spans[0].value, LeftToRight(text, spans[1..], spans[0].end));
      Regroup(text[to..spans[0].start], spans[0].value, LeftToRight(text, spans[1..], spans[0].end));
    }
  }

  lemma Regroup(a: string, b: string, c: string)
    ensures a + b + c == a + (b + c)
  {
  }

  lemma GapSplits(text: string, from: nat, to: nat, start: nat, rest: string)
    requires from <= to <= start <= |text|
    ensures text[from..start] + rest == text[from..to] + (text[to..start] + rest)
  {
    assert text[from..start] == text[from..to] + text[to..start];
  }

  lemma OrderedFrom(spans: seq<Replacement>, lo: nat, to: nat, hi: nat)
    requires Ordered(spans, lo, hi) && spans != [] && to <= spans[0].start
    ensures Ordered(spans, to, hi)
  {
  }

  lemma PrefixMoves(other: string, at: nat, text: string, from: nat, to: nat, rest: string)
    requires at <= |other| && from <= to <= |text| && other[at..] == text[from..to] + rest
    ensures Moves(text, from, to, other, at - from)
    ensures at + (to - from) <= |other| && other[at + (to - from)..] == rest
  {
    assert other[at + (to - from)..] == other[at..][to - from..];
    forall k | from <= k < to ensures other[k + (at - from)] == text[k] {
      assert other[at..][k - from] == text[from..to][k - from];
    }
  }

  lemma Jump(other: string, at: int, text: string, spans: seq<Replacement>)
    requires spans != [] && Rest(other, at, text, spans, spans[0].start)
    ensures var put := spans[0].value;
            && spans[0].start <= spans[0].end <= |text|
            && at + |put| <= |other| && other[at..at + |put|] == put
            && Rest(other, at + |put|, text, spans[1..], spans[0].end)
  {
    var put := spans[0].value;
    OrderedParts(spans, spans[0].start, |text|);
    assert text[spans[0].start..spans[0].start] == [];
    assert other[at..] == put + LeftToRight(text, spans[1..], spans[0].end);
    assert other[at + |put|..] == other[at..][|put|..];
    assert other[at..at + |put|] == other[at..][..|put|];
  }

  lemma RestParts(other: string, at: int, text: string, spans: seq<Replacement>, from: nat)
    requires Rest(other, at, text, spans, from)
    ensures Ordered(spans, from, |text|) && 0 <= at <= |other| && from <= Free(text, spans) <= |text|
  {
  }

  lemma SameRest(other: string, at: int, bt: int, text: string, spans: seq<Replacement>, from: nat)
    requires Rest(other, at, text, spans, from) && Rest(other, bt, text, spans, from)
    ensures at == bt
  {
    assert |other[at..]| == |other[bt..]|;
  }

  lemma WholeRest(other: string, at: int, text: string)
    requires Rest(other, at, text, [], |text|)
    ensures at == |other|
  {
    assert |other[at..]| == 0;
  }
}

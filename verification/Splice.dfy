/** Replacing spans of a text (packages/archive-core/src/rewrite.ts:964-965 and 1038-1039): the spans are
    sorted by descending start, and applied one after another to the text as it is by then. */
module Splice {
  import opened Sorting

  datatype Replacement = Replacement(start: nat, end: nat, value: string)

  /** Spans within `lo..hi`, in order of their starts, none meeting another one's inside. */
  predicate Ordered(spans: seq<Replacement>, lo: nat, hi: nat) {
    && lo <= hi
    && (forall i :: 0 <= i < |spans| ==> lo <= spans[i].start <= spans[i].end <= hi)
    && (forall i, j :: 0 <= i < j < |spans| ==> spans[i].end <= spans[j].start && spans[i].start < spans[j].start)
  }

  /** From left to right: the gap before each span, its value, and so on, and the rest of the text. */
  function LeftToRight(text: string, spans: seq<Replacement>, from: nat): string
    requires Ordered(spans, from, |text|)
  {
    if spans == [] then text[from..]
    else text[from..spans[0].start] + spans[0].value + LeftToRight(text, spans[1..], spans[0].end)
  }

  function ByStartDescending(x: Replacement, y: Replacement): bool {
    x.start >= y.start
  }

  lemma {:induction false} InsertLeast(x: Replacement, s: seq<Replacement>)
    requires forall i :: 0 <= i < |s| ==> s[i].start < x.start
    ensures Insert(ByStartDescending, x, s) == [x] + s
  {
  }

  /** Sorting spans that are in order reverses them. */
  lemma {:induction false} SortReverses(spans: seq<Replacement>, lo: nat, hi: nat)
    requires Ordered(spans, lo, hi)
    ensures var sorted := Sort(ByStartDescending, spans);
            |sorted| == |spans| && forall k :: 0 <= k < |sorted| ==> sorted[k] == spans[|spans| - 1 - k]
  {
    hide Ordered, Insert;
    if spans != [] {
      var n := |spans| - 1;
      var rest := Sort(ByStartDescending, spans[..n]);
      LastStartsLast(spans, lo, hi);
      SortReverses(spans[..n], lo, hi);
      forall i | 0 <= i < |rest| ensures rest[i].start < spans[n].start {
        assert rest[i] == spans[n - 1 - i];
      }
      InsertLeast(spans[n], rest);
      var sorted := [spans[n]] + rest;
      forall k | 0 <= k < |sorted| ensures sorted[k] == spans[n - k] {
        assert k > 0 ==> sorted[k] == rest[k - 1] == spans[n - 1 - (k - 1)];
      }
    }
  }

  lemma LastStartsLast(spans: seq<Replacement>, lo: nat, hi: nat)
    requires Ordered(spans, lo, hi) && spans != []
    ensures Ordered(spans[..|spans| - 1], lo, hi)
    ensures forall i :: 0 <= i < |spans| - 1 ==> spans[i].start < spans[|spans| - 1].start
  {
  }

  function Applied(text: string, span: Replacement): string
    requires span.start <= span.end <= |text|
  {
    text[..span.start] + span.value + text[span.end..]
  }

  lemma AppliedPrefix(text: string, span: Replacement, from: nat, to: nat)
    requires span.start <= span.end <= |text| && from <= to <= span.start
    ensures Applied(text, span)[from..to] == text[from..to]
  {
  }

  lemma OrderedParts(spans: seq<Replacement>, lo: nat, hi: nat)
    requires Ordered(spans, lo, hi) && spans != []
    ensures Ordered(spans[1..], spans[0].end, hi) && Ordered(spans[..|spans| - 1], lo, spans[|spans| - 1].start)
    ensures lo <= spans[0].start <= spans[0].end <= hi
    ensures spans[0].start <= spans[|spans| - 1].start <= spans[|spans| - 1].end <= hi
  {
  }

  lemma OrderedWider(spans: seq<Replacement>, lo: nat, hi: nat, wider: nat)
    requires Ordered(spans, lo, hi) && hi <= wider
    ensures Ordered(spans, lo, wider)
  {
  }

  /** Applying the last span first: the text before it can still be spliced by the others. */
  lemma {:induction false} LastSpanFirst(text: string, spans: seq<Replacement>, from: nat)
    requires Ordered(spans, from, |text|) && spans != []
    ensures var last := spans[|spans| - 1];
            && last.start <= last.end <= |text|
            && Ordered(spans[..|spans| - 1], from, |Applied(text, last)|)
            && LeftToRight(text, spans, from) == LeftToRight(Applied(text, last), spans[..|spans| - 1], from)
  {
    hide Ordered;
    var n := |spans| - 1;
    var last := spans[n];
    OrderedParts(spans, from, |text|);
    var next := Applied(text, last);
    OrderedWider(spans[..n], from, last.start, |next|);
    if n == 0 {
      assert next[from..] == text[from..last.start] + last.value + text[last.end..];
      assert spans[..0] == [] && spans[1..] == [];
    } else {
      assert spans[1..][n - 1] == last;
      LastSpanFirst(text, spans[1..], spans[0].end);
      assert spans[1..][..n - 1] == spans[..n][1..];
      OrderedFirst(spans, from, |text|);
      AppliedPrefix(text, last, from, spans[0].start);
    }
  }

  lemma OrderedFirst(spans: seq<Replacement>, lo: nat, hi: nat)
    requires Ordered(spans, lo, hi) && |spans| > 1
    ensures spans[0].end <= spans[|spans| - 1].start
  {
  }

  /** The result of the descending loop is the left-to-right concatenation of untouched gaps and new values. */
  method Apply(text: string, spans: seq<Replacement>) returns (output: string)
    requires Ordered(spans, 0, |text|)
    ensures output == LeftToRight(text, spans, 0)
  {
    hide Ordered, LeftToRight, Sort;
    output := text;
    var sorted := Sort(ByStartDescending, spans);
    SortReverses(spans, 0, |text|);
    var k := 0;
    assert spans[..|spans|] == spans;
    while k < |sorted|
      invariant k <= |sorted| == |spans| && Ordered(spans[..|spans| - k], 0, |output|)
      invariant LeftToRight(output, spans[..|spans| - k], 0) == LeftToRight(text, spans, 0)
    {
      var left := |spans| - k;
      LastSpanFirst(output, spans[..left], 0);
      assert sorted[k] == spans[left - 1] && spans[..left][..left - 1] == spans[..left - 1];
      output := output[..sorted[k].start] + sorted[k].value + output[sorted[k].end..];
      k := k + 1;
    }
    NoSpans(output);
  }

  lemma NoSpans(text: string)
    ensures Ordered([], 0, |text|) && LeftToRight(text, [], 0) == text
  {
  }

  // ----- What the result looks like -----

  /** By how much the first `n` spans lengthen the text. */
  function Growth(spans: seq<Replacement>, n: nat): int
    requires n <= |spans|
  {
    if n == 0 then 0 else Growth(spans, n - 1) + |spans[n - 1].value| - (spans[n - 1].end - spans[n - 1].start)
  }

  lemma {:induction false} GrowthCons(spans: seq<Replacement>, n: nat)
    requires 0 < n <= |spans|
    ensures Growth(spans, n) == |spans[0].value| - (spans[0].end - spans[0].start) + Growth(spans[1..], n - 1)
  {
    if n > 1 {
      GrowthCons(spans, n - 1);
    }
  }

  /** Text outside the spans is copied verbatim, moved by what the spans before it added. */
  lemma {:induction false} GapsAreVerbatim(text: string, spans: seq<Replacement>, from: nat, n: nat, i: nat)
    requires Ordered(spans, from, |text|) && n <= |spans| && from <= i < |text|
    requires (n == 0 || spans[n - 1].end <= i) && (n == |spans| || i < spans[n].start)
    ensures var at := i - from + Growth(spans, n);
            0 <= at < |LeftToRight(text, spans, from)| && LeftToRight(text, spans, from)[at] == text[i]
  {
    hide Ordered, LeftToRight;
    if n == 0 {
      FirstGap(text, spans, from, i);
    } else {
      OrderedParts(spans, from, |text|);
      EndsIncrease(spans, from, |text|, n - 1);
      GapsAreVerbatim(text, spans[1..], spans[0].end, n - 1, i);
      GrowthCons(spans, n);
      var at := i - spans[0].end + Growth(spans[1..], n - 1);
      RestOfSplice(text, spans, from, at);
    }
  }

  lemma EndsIncrease(spans: seq<Replacement>, lo: nat, hi: nat, n: nat)
    requires Ordered(spans, lo, hi) && n < |spans|
    ensures spans[0].end <= spans[n].end
  {
  }

  lemma FirstGap(text: string, spans: seq<Replacement>, from: nat, i: nat)
    requires Ordered(spans, from, |text|) && from <= i < |text| && (spans == [] || i < spans[0].start)
    ensures i - from < |LeftToRight(text, spans, from)| && LeftToRight(text, spans, from)[i - from] == text[i]
  {
    if spans != [] {
      OrderedParts(spans, from, |text|);
      assert text[from..spans[0].start][i - from] == text[i];
    }
  }

  lemma SpliceStep(text: string, spans: seq<Replacement>, from: nat)
    requires Ordered(spans, from, |text|) && spans != []
    ensures Ordered(spans[1..], spans[0].end, |text|) && from <= spans[0].start <= spans[0].end <= |text|
    ensures LeftToRight(text, spans, from)
      == text[from..spans[0].start] + spans[0].value + LeftToRight(text, spans[1..], spans[0].end)
  {
    OrderedParts(spans, from, |text|);
    hide Ordered;
  }

  lemma ThirdPart(a: string, b: string, c: string, at: nat)
    ensures |a + b + c| == |a| + |b| + |c|
    ensures at < |c| ==> (a + b + c)[|a| + |b| + at] == c[at]
    ensures at < |b| ==> (a + b + c)[|a| + at] == b[at]
  {
  }

  lemma RestOfSplice(text: string, spans: seq<Replacement>, from: nat, at: nat)
    requires Ordered(spans, from, |text|) && spans != []
    ensures Ordered(spans[1..], spans[0].end, |text|) && from <= spans[0].start <= spans[0].end <= |text|
    ensures var rest := LeftToRight(text, spans[1..], spans[0].end);
            var shift := spans[0].start - from + |spans[0].value|;
            && |LeftToRight(text, spans, from)| == shift + |rest|
            && (at < |rest| ==> LeftToRight(text, spans, from)[shift + at] == rest[at])
            && (at < |spans[0].value| ==>
                   LeftToRight(text, spans, from)[spans[0].start - from + at] == spans[0].value[at])
  {
    SpliceStep(text, spans, from);
    hide Ordered, LeftToRight;
    ThirdPart(text[from..spans[0].start], spans[0].value, LeftToRight(text, spans[1..], spans[0].end), at);
  }

  /** Every new value appears whole where its span was. */
  lemma {:induction false} ValuesAppear(text: string, spans: seq<Replacement>, from: nat, n: nat, i: nat)
    requires Ordered(spans, from, |text|) && n < |spans| && i < |spans[n].value|
    ensures var at := spans[n].start - from + Growth(spans, n) + i;
            0 <= at < |LeftToRight(text, spans, from)| && LeftToRight(text, spans, from)[at] == spans[n].value[i]
  {
    hide Ordered, LeftToRight;
    if n == 0 {
      RestOfSplice(text, spans, from, i);
    } else {
      OrderedParts(spans, from, |text|);
      ValuesAppear(text, spans[1..], spans[0].end, n - 1, i);
      GrowthCons(spans, n);
      RestOfSplice(text, spans, from, spans[n].start - spans[0].end + Growth(spans[1..], n - 1) + i);
    }
  }

  lemma NothingToSplice(text: string, from: nat)
    requires Ordered([], from, |text|)
    ensures |LeftToRight(text, [], from)| == |text| - from
  {
  }

  lemma {:induction false} LengthGrows(text: string, spans: seq<Replacement>, from: nat)
    requires Ordered(spans, from, |text|)
    ensures |LeftToRight(text, spans, from)| == |text| - from + Growth(spans, |spans|)
  {
    hide Ordered, LeftToRight;
    if spans == [] {
      NothingToSplice(text, from);
    } else {
      RestOfSplice(text, spans, from, 0);
      LengthGrows(text, spans[1..], spans[0].end);
      GrowthCons(spans, |spans|);
    }
  }

  /** Spans that put back what they take leave the text as it is. */
  lemma {:induction false} SameValues(text: string, spans: seq<Replacement>, from: nat)
    requires Ordered(spans, from, |text|)
    requires forall i :: 0 <= i < |spans| ==> spans[i].value == text[spans[i].start..spans[i].end]
    ensures LeftToRight(text, spans, from) == text[from..]
  {
    if spans != [] {
      OrderedParts(spans, from, |text|);
      SameValues(text, spans[1..], spans[0].end);
      assert text[from..] == text[from..spans[0].start] + text[spans[0].start..spans[0].end] + text[spans[0].end..];
    }
  }
}

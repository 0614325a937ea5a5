/** What a rewritten document reads as (packages/archive-core/src/rewrite.ts:691-765 and 932-967): the same tags with
    the same attributes, except that a dropped tag is gone and replaced values are the new ones. */
module HtmlPreserved {
  import opened Options
  import opened Scanner
  import opened HtmlTokens
  import opened Splice
  import opened SplicedText
  import opened HtmlValues
  import opened HtmlSplice

  // ----- The end of a tag -----

  /** The values that replace others hold no `>` and leave the scan for the tag's end as the old ones did. */
  predicate KeepsQuotes(text: string, spans: seq<Replacement>, from: nat, quote: Option<char>) {
    spans == [] ||
      (&& from <= spans[0].start <= spans[0].end <= |text| && '>' !in spans[0].value
       && var inside := QuoteAfter(text[from..spans[0].start], quote);
          && QuoteAfter(spans[0].value, inside) == QuoteAfter(text[spans[0].start..spans[0].end], inside)
          && KeepsQuotes(text, spans[1..], spans[0].end, QuoteAfter(spans[0].value, inside)))
  }

  lemma ClosedSplit(text: string, i: nat, j: nat, quote: Option<char>, end: nat)
    requires i <= j < end <= |text|
    ensures ClosedAt(text, i, quote, end)
       <==> StaysOpen(text[i..j], quote) && ClosedAt(text, j, QuoteAfter(text[i..j], quote), end)
  {
    assert text[i..end - 1] == text[i..j] + text[j..end - 1];
    QuoteConcat(text[i..j], text[j..end - 1], quote);
  }

  lemma ClosedMoves(text: string, i: nat, quote: Option<char>, end: nat, other: string, d: int)
    requires ClosedAt(text, i, quote, end) && Moves(text, i, end, other, d)
    ensures ClosedAt(other, i + d, quote, end + d)
  {
    MovesPart(text, i, end, other, d, i, end - 1);
    SliceMoves(text, i, end - 1, other, d);
    assert other[(end - 1) + d] == text[end - 1];
  }

  lemma {:induction false} StillClosed(other: string, at: nat, text: string, spans: seq<Replacement>,
                                       later: seq<Replacement>,
                                       from: nat, end: nat, end2: nat, quote: Option<char>)
    requires Rest(other, at, text, spans + later, from) && Rest(other, end2, text, later, end) && Below(spans, end)
    requires KeepsQuotes(text, spans, from, quote) && ClosedAt(text, from, quote, end)
    ensures ClosedAt(other, at, quote, end2)
    decreases |spans|
  {
    hide Rest, ClosedAt, Moves, Ordered, LeftToRight, QuoteAfter, StaysOpen, Below, KeepsQuotes;
    ClosedInside(text, from, quote, end);
    if spans == [] {
      StaysBefore(other, at, text, spans, later, from, end, end2);
      RestParts(other, end2, text, later, end);
      assert spans + later == later;
      Advance(other, at, text, later, from, end);
      ClosedMoves(text, from, quote, end, other, at - from);
    } else {
      var s, e, put := spans[0].start, spans[0].end, spans[0].value;
      var p := at + (s - from);
      SpanStep(other, at, text, spans, later, from);
      FirstKept(text, spans, from, quote, end);
      ClosedPast(text, from, s, e, quote, end);
      var inside := QuoteAfter(put, QuoteAfter(text[from..s], quote));
      StillClosed(other, p + |put|, text, spans[1..], later, e, end, end2, inside);
      ClosedInside(other, p + |put|, inside, end2);
      ClosedBefore(other, at, p, p + |put|, quote, end2);
    }
  }

  lemma FirstKept(text: string, spans: seq<Replacement>, from: nat, quote: Option<char>, end: nat)
    requires spans != [] && KeepsQuotes(text, spans, from, quote) && Below(spans, end)
    ensures var span := spans[0];
            && from <= span.start <= span.end < end && span.end <= |text| && '>' !in span.value
                 && Below(spans[1..], end)
            && var inside := QuoteAfter(text[from..span.start], quote);
               && QuoteAfter(span.value, inside) == QuoteAfter(text[span.start..span.end], inside)
               && KeepsQuotes(text, spans[1..], span.end, QuoteAfter(span.value, inside))
  {
  }

  /** The text before a span, its new value, and the rest. */
  lemma SpanStep(other: string, at: nat, text: string, spans: seq<Replacement>, later: seq<Replacement>, from: nat)
    requires spans != [] && Rest(other, at, text, spans + later, from)
    ensures var p := at + (spans[0].start - from);
            && from <= spans[0].start <= spans[0].end <= |text| && at <= p <= p + |spans[0].value| <= |other|
            && other[at..p] == text[from..spans[0].start] && other[p..p + |spans[0].value|] == spans[0].value
            && Rest(other, p + |spans[0].value|, text, spans[1..] + later, spans[0].end)
  {
    hide Rest, Moves, Ordered, LeftToRight;
    var all := spans + later;
    assert all[0] == spans[0] && all[1..] == spans[1..] + later;
    RestParts(other, at, text, all, from);
    Advance(other, at, text, all, from, spans[0].start);
    Jump(other, at + (spans[0].start - from), text, all);
    SliceMoves(text, from, spans[0].start, other, at - from);
  }

  lemma ClosedPast(text: string, i: nat, s: nat, e: nat, quote: Option<char>, end: nat)
    requires i <= s <= e < end <= |text| && ClosedAt(text, i, quote, end)
    ensures StaysOpen(text[i..s], quote)
    ensures ClosedAt(text, e, QuoteAfter(text[s..e], QuoteAfter(text[i..s], quote)), end)
  {
    hide ClosedAt;
    ClosedSplit(text, i, s, quote, end);
    ClosedSplit(text, s, e, QuoteAfter(text[i..s], quote), end);
  }

  lemma ClosedBefore(text: string, i: nat, s: nat, e: nat, quote: Option<char>, end: nat)
    requires i <= s <= e < end <= |text| && StaysOpen(text[i..s], quote) && '>' !in text[s..e]
    requires ClosedAt(text, e, QuoteAfter(text[s..e], QuoteAfter(text[i..s], quote)), end)
    ensures ClosedAt(text, i, quote, end)
  {
    hide ClosedAt;
    NoCloseStaysOpen(text[s..e], QuoteAfter(text[i..s], quote));
    ClosedSplit(text, s, e, QuoteAfter(text[i..s], quote), end);
    ClosedSplit(text, i, s, quote, end);
  }

  lemma ClosedInside(text: string, i: nat, quote: Option<char>, end: nat)
    requires ClosedAt(text, i, quote, end)
    ensures i < end <= |text| && text[end - 1] == '>'
  {
  }

  /** A tag that the text ends in ends with the text, wherever it has moved to. */
  lemma {:induction false} LastTagMoves(text: string, i: nat, quote: Option<char>, other: string, d: int)
    requires Moves(text, i, |text|, other, d) && |other| == |text| + d
    ensures TagEnd(other, i + d, quote) == TagEnd(text, i, quote) + d
    decreases |text| - i
  {
    if i < |text| {
      assert other[i + d] == text[i];
      MovesPart(text, i, |text|, other, d, i + 1, |text|);
      LastTagMoves(text, i + 1, StepQuote(quote, text[i]), other, d);
    }
  }

  // ----- The head of a tag -----

  predicate KnownHead(head: Head, hi: nat, end: nat, d: int, end2: nat) {
    (hi == end && end2 == end + d) || (head.StartTag? && head.from < hi <= end && hi + d <= end2)
  }

  function MovedHead(head: Head, d: int): Head
    requires head.StartTag? ==> 0 <= head.from + d
  {
    if head.StartTag? then StartTag(head.name, head.from + d) else head
  }

  lemma HeadFromMoves(lower: string -> string, text: string, other: string, slash: nat, end: nat, d: int, hi: nat,
                      end2: nat)
    requires slash <= hi <= end <= |text| && Moves(text, slash, hi, other, d) && end2 <= |other|
    requires KnownHead(HeadFrom(lower, text, slash, end), hi, end, d, end2)
    ensures 0 <= slash + d <= end2
    ensures var head := HeadFrom(lower, text, slash, end);
            (head.StartTag? ==> 0 <= head.from + d) && HeadFrom(lower, other, slash + d, end2) == MovedHead(head, d)
  {
    hide Skip, IsSpace, TagNameChar, Moves;
    MovesPart(text, slash, hi, other, d, slash, hi);
    if slash < hi {
      MovesHead(text, slash, hi, other, d);
    }
    var nameStart := if slash < end && text[slash] == '/' then slash + 1 else slash;
    MovesPart(text, slash, hi, other, d, nameStart, hi);
    SkipMoves(text, other, nameStart, end, TagNameChar, d, hi, end2);
    var nameEnd := Skip(text, nameStart, end, TagNameChar);
    MovesPart(text, slash, hi, other, d, nameStart, nameEnd);
    SliceMoves(text, nameStart, nameEnd, other, d);
  }

  lemma HeadMoves(lower: string -> string, text: string, other: string, start: nat, end: nat, d: int, hi: nat,
                  end2: nat)
    requires start < end <= |text| && start <= hi <= end && Moves(text, start, hi, other, d) && end2 <= |other|
    requires KnownHead(HeadAt(lower, text, start, end), hi, end, d, end2)
    ensures 0 <= start + d < end2
    ensures var head := HeadAt(lower, text, start, end);
            (head.StartTag? ==> 0 <= head.from + d) && HeadAt(lower, other, start + d, end2) == MovedHead(head, d)
  {
    hide Skip, IsSpace, TagNameChar, Moves, HeadAt, HeadFrom, MarkAt;
    NameStarts(lower, text, start, end);
    MarkMoves(text, other, start, end, d, hi, end2);
    HeadParts(lower, text, start, end);
    HeadParts(lower, other, start + d, end2);
    if !MarkAt(text, start, end) {
      MovesPart(text, start, hi, other, d, start + 1, hi);
      HeadScanned(lower, text, other, start + 1, start + d + 1, end, d, hi, end2);
    }
  }

  lemma MarkMoves(text: string, other: string, start: nat, end: nat, d: int, hi: nat, end2: nat)
    requires start < hi <= end <= |text| && Moves(text, start, hi, other, d) && end2 <= |other|
    requires (hi == end && end2 == end + d) || (start + 1 < hi && hi + d <= end2)
    ensures 0 <= start + d < end2 && (MarkAt(other, start + d, end2) <==> MarkAt(text, start, end))
  {
    if start + 1 < end {
      assert other[(start + 1) + d] == text[start + 1];
    }
  }

  lemma HeadScanned(lower: string -> string, text: string, other: string, i: nat, i2: nat, end: nat, d: int, hi: nat,
                    end2: nat)
    requires i <= hi <= end <= |text| && Moves(text, i, hi, other, d) && i2 == i + d <= end2 <= |other|
    requires KnownHead(HeadFrom(lower, text, Skip(text, i, end, IsSpace), end), hi, end, d, end2)
    ensures var head := HeadFrom(lower, text, Skip(text, i, end, IsSpace), end);
            && (head.StartTag? ==> 0 <= head.from + d)
            && HeadFrom(lower, other, Skip(other, i2, end2, IsSpace), end2) == MovedHead(head, d)
  {
    hide Skip, IsSpace, Moves, HeadFrom;
    var slash := Skip(text, i, end, IsSpace);
    NameAfterSlash(lower, text, slash, end);
    SkipMoves(text, other, i, end, IsSpace, d, hi, end2);
    MovesPart(text, i, hi, other, d, slash, hi);
    HeadFromMoves(lower, text, other, slash, end, d, hi, end2);
  }

  lemma NameAfterSlash(lower: string -> string, text: string, slash: nat, end: nat)
    requires slash <= end <= |text|
    ensures var head := HeadFrom(lower, text, slash, end); head.StartTag? ==> slash < head.from <= end
  {
  }

  // ----- A tag -----

  /** What a reader sees of a token. */
  datatype TokenShape = TokenShape(tagName: Option<string>, isStartTag: bool, attributes: seq<Shape>)

  function ShapeOfToken(text: string, token: Token, puts: Puts): TokenShape
    requires |puts| == |token.attributes|
  {
    TokenShape(token.tagName, token.isStartTag, Shapes(text, token.attributes, puts))
  }

  /** The tag between `at` and `end2` reads as planned. */
  predicate TagAsPlanned(lower: string -> string, other: string, at: nat, end2: nat, planned: TokenShape) {
    && at < end2 <= |other|
    && var r := Tag(lower, other, at, end2);
       && r.Done? && r.result.start == at && r.result.end == end2
       && ShapeOfToken(other, r.result, KeepAll(|r.result.attributes|)) == planned
  }

  /** Up to the first span of a tag, or to its end. */
  lemma HeadPart(other: string, at: int, text: string, spans: seq<Replacement>, later: seq<Replacement>,
                 from: nat, end: nat, end2: int)
    requires Rest(other, at, text, spans + later, from) && Rest(other, end2, text, later, end)
    requires from <= end && Below(spans, end)
    ensures var hi := if spans == [] then end else spans[0].start;
            && from <= hi <= end <= |text| && Moves(text, from, hi, other, at - from)
                 && 0 <= hi + (at - from) <= end2 <= |other|
            && (spans == [] ==> end2 == end + (at - from))
  {
    hide Rest, Moves, Below, Ordered, LeftToRight;
    RestParts(other, end2, text, later, end);
    if spans == [] {
      assert spans + later == later;
      StaysBefore(other, at, text, spans, later, from, end, end2);
      Advance(other, at, text, later, from, end);
    } else {
      PartMoves(other, at, text, spans, later, from, end, end2);
      MovesPart(text, from, spans[0].start, other, at - from, spans[0].start, spans[0].start);
    }
  }

  lemma TagReplaced(lower: string -> string, text: string, other: string, start: nat, at: nat, end: nat, end2: nat,
                    token: Token, puts: Puts, later: seq<Replacement>)
    requires start < end && ClosedOrLast(text, end) && Tag(lower, text, start, end) == Done(token)
    requires AllFit(text, token.attributes, puts, end)
    requires Rest(other, at, text, SpansOf(token.attributes, puts) + later, start)
    requires Rest(other, end2, text, later, end)
    ensures TagAsPlanned(lower, other, at, end2, ShapeOfToken(text, token, puts))
  {
    TagByHead(lower, text, start, end);
    hide Tag, HeadAt, Rest, Moves, AllFit, Below, Attributes, Ordered, LeftToRight, ReadAsPlanned, ClosedOrLast, Shapes,
         TagAsPlanned, SpansOf, MovedHead;
    var head := HeadAt(lower, text, start, end);
    var spans := SpansOf(token.attributes, puts);
    var d := at - start;
    if head.StartTag? {
      StartTagReplaced(lower, text, other, start, at, end, end2, token, puts, later);
    } else {
      FitsNothing(text, token.attributes, puts, end);
      BelowNone(end);
      HeadPart(other, at, text, spans, later, start, end, end2);
      HeadMoves(lower, text, other, start, end, d, end, end2);
      PlannedOther(lower, text, other, at, end2, head, d, token, puts);
    }
  }

  lemma StartTagReplaced(lower: string -> string, text: string, other: string, start: nat, at: nat, end: nat, end2: nat,
                         token: Token, puts: Puts, later: seq<Replacement>)
    requires start < end <= |text| && ClosedOrLast(text, end) && HeadAt(lower, text, start, end).StartTag?
    requires token.tagName == Some(HeadAt(lower, text, start, end).name) && token.isStartTag
    requires start <= HeadAt(lower, text, start, end).from <= end
    requires Attributes(lower, text, HeadAt(lower, text, start, end).from, end) == Done(token.attributes)
    requires AllFit(text, token.attributes, puts, end) && |token.attributes| == |puts|
    requires Rest(other, at, text, SpansOf(token.attributes, puts) + later, start)
    requires Rest(other, end2, text, later, end)
    ensures TagAsPlanned(lower, other, at, end2, ShapeOfToken(text, token, puts))
  {
    hide Tag, HeadAt, Rest, Moves, AllFit, Below, Attributes, Ordered, LeftToRight, ReadAsPlanned, ClosedOrLast, Shapes,
         TagAsPlanned, SpansOf, MovedHead;
    var from, d := HeadAt(lower, text, start, end).from, at - start;
    var spans := SpansOf(token.attributes, puts);
    SpansPast(lower, text, from, end, token.attributes, puts);
    HeadPart(other, at, text, spans, later, start, end, end2);
    HeadMoves(lower, text, other, start, end, d, if spans == [] then end else spans[0].start, end2);
    FirstSpan(other, at, text, spans, later, start, from, end, end2);
    AttributesReplaced(lower, text, other, from, end, from + d, end2, token.attributes, puts, later);
    PlannedTag(lower, other, at, end2, HeadAt(lower, text, start, end), d, token, Shapes(text, token.attributes, puts));
  }

  lemma PlannedOther(lower: string -> string, text: string, other: string, at: nat, end2: nat, head: Head, d: int,
                     token: Token, puts: Puts)
    requires !head.StartTag? && at < end2 <= |other| && HeadAt(lower, other, at, end2) == MovedHead(head, d)
    requires token.attributes == [] && puts == [] && !token.isStartTag
    requires token.tagName == if head.EndTag? then Some(head.name) else None
    ensures TagAsPlanned(lower, other, at, end2, ShapeOfToken(text, token, puts))
  {
    TagByHead(lower, other, at, end2);
    hide Tag, HeadAt;
  }

  lemma FitsNothing(text: string, attributes: seq<Attribute>, puts: Puts, end: nat)
    requires attributes == [] && AllFit(text, attributes, puts, end)
    ensures puts == [] && SpansOf(attributes, puts) == []
  {
  }

  lemma FirstSpan(other: string, at: int, text: string, spans: seq<Replacement>, later: seq<Replacement>, from: nat,
                  to: nat, end: nat, end2: int)
    requires Rest(other, at, text, spans + later, from) && Rest(other, end2, text, later, end) && from <= to <= end
    requires forall i :: 0 <= i < |spans| ==> to < spans[i].start
    ensures Rest(other, at + (to - from), text, spans + later, to)
  {
    hide Rest;
    FreeAfter(other, text, spans, later, to, end, end2);
    Advance(other, at, text, spans + later, from, to);
  }

  lemma PlannedTag(lower: string -> string, other: string, at: nat, end2: nat, head: Head, d: int, token: Token,
                   planned: seq<Shape>)
    requires head.StartTag? && 0 <= head.from + d && at < end2 <= |other|
    requires HeadAt(lower, other, at, end2) == MovedHead(head, d)
    requires token.tagName == Some(head.name) && token.isStartTag
    requires ReadAsPlanned(lower, other, head.from + d, end2, planned)
    ensures TagAsPlanned(lower, other, at, end2, TokenShape(token.tagName, true, planned))
  {
    hide Tag, HeadAt, Attributes, Shapes, KeepAll;
    TagByHead(lower, other, at, end2);
  }
}

/** A rewritten document as a whole (packages/archive-core/src/rewrite.ts:741-765 and 918-967). */
module HtmlDocument {
  import opened Options
  import opened Scanner
  import opened Slices
  import opened HtmlTokens
  import opened Splice
  import opened SplicedText
  import opened HtmlValues
  import opened HtmlSplice
  import opened HtmlPreserved

  // ----- Letter case -----

  /** The letter case of a text is changed character by character, and no `<` or `/` comes or goes. */
  ghost predicate LowersCharwise(lower: string -> string, fold: char -> char, text: string) {
    && |lower(text)| == |text| && (forall i :: 0 <= i < |text| ==> lower(text)[i] == fold(text[i]))
    && forall c: char :: (fold(c) == '<' <==> c == '<') && (fold(c) == '/' <==> c == '/')
  }

  lemma LowerMoves(lower: string -> string, fold: char -> char, text: string, other: string, lo: nat, hi: nat, d: int)
    requires LowersCharwise(lower, fold, text) && LowersCharwise(lower, fold, other) && Moves(text, lo, hi, other, d)
    ensures Moves(lower(text), lo, hi, lower(other), d)
  {
    forall k | lo <= k < hi ensures lower(other)[k + d] == lower(text)[k] {
      assert other[k + d] == text[k];
    }
  }

  // ----- What is planned for a document -----

  /** A tag is dropped, or its attributes are given new values. */
  datatype Plan = Drop | Write(puts: Puts)

  predicate Sized(tokens: seq<Token>, plans: seq<Plan>) {
    |tokens| == |plans| && forall i :: 0 <= i < |plans| && plans[i].Write? ==> |plans[i].puts| == |tokens[i].attributes|
  }

  function TokenSpans(token: Token, plan: Plan): seq<Replacement>
    requires plan.Write? ==> |plan.puts| == |token.attributes|
  {
    if plan.Drop? then [Replacement(token.start, token.end, "")] else SpansOf(token.attributes, plan.puts)
  }

  function PlannedSpans(tokens: seq<Token>, plans: seq<Plan>): seq<Replacement>
    requires Sized(tokens, plans)
  {
    if tokens == [] then [] else TokenSpans(tokens[0], plans[0]) + PlannedSpans(tokens[1..], plans[1..])
  }

  function PlannedTokens(text: string, tokens: seq<Token>, plans: seq<Plan>): seq<TokenShape>
    requires Sized(tokens, plans)
  {
    if tokens == [] then []
    else
      (if plans[0].Drop? then [] else [ShapeOfToken(text, tokens[0], plans[0].puts)])
        + PlannedTokens(text, tokens[1..], plans[1..])
  }

  /** The tokens as they read. */
  function ShapesOfTokens(text: string, tokens: seq<Token>): seq<TokenShape> {
    if tokens == [] then []
    else [ShapeOfToken(text, tokens[0], KeepAll(|tokens[0].attributes|))] + ShapesOfTokens(text, tokens[1..])
  }

  predicate Raw(name: Option<string>) {
    name == Some("script") || name == Some("style")
  }

  /** A tag that is dropped is an ordinary start tag; new values can stand where they are put, in a tag that is closed
      and whose end they leave where it is. */
  predicate TokenFits(text: string, token: Token, plan: Plan) {
    match plan
    case Drop => token.isStartTag && !Raw(token.tagName)
    case Write(puts) =>
      && AllFit(text, token.attributes, puts, token.end)
      && (SpansOf(token.attributes, puts) != [] ==>
            && ClosedAt(text, token.start + 1, None, token.end)
            && KeepsQuotes(text, SpansOf(token.attributes, puts), token.start + 1, None))
  }

  predicate AllFitting(text: string, tokens: seq<Token>, plans: seq<Plan>) {
    Sized(tokens, plans) && forall i :: 0 <= i < |tokens| ==> TokenFits(text, tokens[i], plans[i])
  }

  predicate DocumentAsPlanned(lower: string -> string, other: string, at: nat, planned: seq<TokenShape>) {
    var r := Tokens(lower, other, at);
    r.Done? && ShapesOfTokens(other, r.result) == planned
  }

  // ----- Where the spans of the tokens lie -----

  lemma FittingTail(text: string, tokens: seq<Token>, plans: seq<Plan>)
    requires AllFitting(text, tokens, plans) && tokens != []
    ensures AllFitting(text, tokens[1..], plans[1..]) && TokenFits(text, tokens[0], plans[0])
  {
    forall i | 0 <= i < |tokens| - 1 ensures tokens[1..][i] == tokens[i + 1] && plans[1..][i] == plans[i + 1] {}
    forall i | 0 <= i < |tokens| - 1 ensures TokenFits(text, tokens[1..][i], plans[1..][i]) {
      assert TokenFits(text, tokens[i + 1], plans[i + 1]);
    }
  }

  lemma TokensTail(text: string, tokens: seq<Token>, from: nat)
    requires TokensOrdered(text, tokens, from) && tokens != []
    ensures TokensOrdered(text, tokens[1..], tokens[0].end)
  {
    forall i | 0 <= i < |tokens| - 1 ensures tokens[1..][i] == tokens[i + 1] {}
  }

  /** Only start tags have attributes, and no `/` follows their `<`. */
  predicate OpenTag(text: string, token: Token) {
    (token.isStartTag || token.attributes != []) ==>
      token.isStartTag && token.start + 1 < |text| && text[token.start + 1] != '/' && text[token.start + 1] != '!'
  }

  lemma TagIsOpen(lower: string -> string, text: string, start: nat, end: nat)
    requires start < end <= |text| && Tag(lower, text, start, end).Done?
    ensures OpenTag(text, Tag(lower, text, start, end).result)
  {
    TagByHead(lower, text, start, end);
    hide Tag, Attributes;
    var head := HeadAt(lower, text, start, end);
    if head.StartTag? {
      assert !IsSpace('/');
    }
  }

  lemma {:induction false} TagsAreOpen(lower: string -> string, text: string, cursor: nat)
    requires Tokens(lower, text, cursor).Done?
    ensures var tokens := Tokens(lower, text, cursor).result;
            forall i :: 0 <= i < |tokens| ==> OpenTag(text, tokens[i])
    decreases |text| - cursor
  {
    hide Tag, AfterToken, AfterComment, TagEnd, CommentAt, OpenTag;
    var start := if cursor < |text| then IndexOf(text, "<", cursor) else None;
    if start.Some? {
      if CommentAt(text, start.value) {
        TagsAreOpen(lower, text, AfterComment(text, start.value));
      } else {
        var end := TagEnd(text, start.value + 1, None);
        TagIsOpen(lower, text, start.value, end);
        TagKeepsPlace(lower, text, start.value, end);
        TagsAreOpen(lower, text, AfterToken(lower, text, Tag(lower, text, start.value, end).result));
      }
    }
  }

  /** The first span belongs to a start tag. */
  lemma {:induction false} FirstSpanToken(text: string, tokens: seq<Token>, plans: seq<Plan>,
                                          from: nat) returns (j: nat)
    requires AllFitting(text, tokens, plans) && TokensOrdered(text, tokens, from)
    requires forall i :: 0 <= i < |tokens| ==> OpenTag(text, tokens[i])
    requires PlannedSpans(tokens, plans) != []
    ensures j < |tokens| && tokens[j].isStartTag && from <= tokens[j].start <= PlannedSpans(tokens, plans)[0].start
  {
    FittingTail(text, tokens, plans);
    TokensTail(text, tokens, from);
    var spans := TokenSpans(tokens[0], plans[0]);
    if spans == [] {
      j := FirstSpanToken(text, tokens[1..], plans[1..], tokens[0].end);
      assert tokens[1..][j] == tokens[j + 1];
      assert PlannedSpans(tokens, plans) == PlannedSpans(tokens[1..], plans[1..]);
      j := j + 1;
    } else {
      j := 0;
      assert PlannedSpans(tokens, plans)[0] == spans[0];
      assert OpenTag(text, tokens[0]);
      if plans[0].Write? {
        SpansInside(text, tokens[0].attributes, plans[0].puts, tokens[0].start, tokens[0].end);
      }
    }
  }

  /** Nothing is replaced before the first token. */
  lemma FreeFrom(text: string, tokens: seq<Token>, plans: seq<Plan>, from: nat)
    requires AllFitting(text, tokens, plans) && TokensOrdered(text, tokens, from) && from <= |text|
    requires forall i :: 0 <= i < |tokens| ==> OpenTag(text, tokens[i])
    ensures from <= Free(text, PlannedSpans(tokens, plans))
  {
    if PlannedSpans(tokens, plans) != [] {
      var j := FirstSpanToken(text, tokens, plans, from);
    }
  }

  /** Nothing is replaced in the closing tag that ends a script or a style. */
  lemma FreeClose(lower: string -> string, fold: char -> char, text: string, tokens: seq<Token>, plans: seq<Plan>,
                  p: nat, name: string)
    requires LowersCharwise(lower, fold, text) && Raw(Some(name)) && LiesAt(lower(text), p, "</" + name)
    requires AllFitting(text, tokens, plans) && TokensOrdered(text, tokens, p)
    requires forall i :: 0 <= i < |tokens| ==> OpenTag(text, tokens[i])
    ensures p + |name| + 2 <= Free(text, PlannedSpans(tokens, plans))
  {
    if PlannedSpans(tokens, plans) != [] {
      var j := FirstSpanToken(text, tokens, plans, p);
      var t := tokens[j].start;
      var needle := "</" + name;
      assert text[t] == '<' && fold(text[t]) == '<' && lower(text)[t] == '<';
      ElementsThere(lower(text), p, needle);
      assert lower(text)[p + 1] == needle[1] == '/';
      assert fold(text[p + 1]) == '/' && text[p + 1] == '/';
      assert OpenTag(text, tokens[j]);
      if t < p + |needle| {
        assert lower(text)[t] == needle[t - p];
        NoOpeningInside(name, t - p);
      }
    }
  }

  lemma NoOpeningInside(name: string, i: nat)
    requires Raw(Some(name)) && 0 < i < |name| + 2
    ensures ("</" + name)[i] != '<'
  {
    assert forall k :: 0 <= k < |name| ==> name[k] != '<';
  }

  /** Where the text after the spans of a tag lies. */
  lemma {:induction false} PassSpans(other: string, at: nat, text: string, spans: seq<Replacement>,
                                     later: seq<Replacement>,
                                     from: nat, end: nat) returns (end2: nat)
    requires Rest(other, at, text, spans + later, from) && Below(spans, end) && from <= end <= Free(text, later)
    ensures Rest(other, end2, text, later, end)
    decreases |spans|
  {
    hide Rest;
    if spans == [] {
      assert spans + later == later;
      RestParts(other, at, text, later, from);
      Advance(other, at, text, later, from, end);
      end2 := at + (end - from);
    } else {
      SpanStep(other, at, text, spans, later, from);
      end2 := PassSpans(other, at + (spans[0].start - from) + |spans[0].value|, text, spans[1..], later, spans[0].end,
                        end);
    }
  }

  // ----- One token -----

  /** The tag ends where the text after its spans begins. */
  lemma EndReplaced(text: string, other: string, start: nat, at: nat, end: nat, end2: nat, spans: seq<Replacement>,
                    later: seq<Replacement>)
    requires start < |text| && end == TagEnd(text, start + 1, None)
    requires Rest(other, at, text, spans + later, start) && Rest(other, end2, text, later, end)
    requires Below(spans, end) && forall i :: 0 <= i < |spans| ==> start < spans[i].start
    requires spans != [] ==> ClosedAt(text, start + 1, None, end) && KeepsQuotes(text, spans, start + 1, None)
    requires end == |text| ==> later == []
    ensures at + 1 <= |other| && TagEnd(other, at + 1, None) == end2
  {
    hide Rest, Moves, ClosedAt, Ordered, LeftToRight, Below;
    FreeAfter(other, text, spans, later, start, end, end2);
    Advance(other, at, text, spans + later, start, start + 1);
    RestParts(other, at + 1, text, spans + later, start + 1);
    if spans != [] || end < |text| {
      if spans == [] {
        EndIsClosed(text, start + 1, None);
      }
      StillClosed(other, at + 1, text, spans, later, start + 1, end, end2, None);
      ClosedThere(other, at + 1, None, end2);
    } else {
      assert spans + later == [];
      Advance(other, at + 1, text, [], start + 1, |text|);
      StaysBefore(other, at + 1, text, [], [], start + 1, |text|, end2);
      WholeRest(other, end2, text);
      LastTagMoves(text, start + 1, None, other, at - start);
    }
  }

  lemma CommentChars(text: string, at: nat)
    ensures CommentAt(text, at) ==>
       at + 4 <= |text| && text[at + 1] == '!' && text[at + 2] == '-' && text[at + 3] == '-'
  {
    if CommentAt(text, at) {
      ElementsThere(text, at, "<!--");
    }
  }

  /** What is no comment does not become one. */
  lemma StillNoComment(text: string, other: string, start: nat, at: nat, end: nat, end2: nat, hi: nat, token: Token)
    requires start < |text| && text[start] == '<' && end == TagEnd(text, start + 1, None) && !CommentAt(text, start)
    requires start <= hi <= end && Moves(text, start, hi, other, at - start) && token.start == start
    requires OpenTag(text, token)
    requires if hi == end then end2 == end + (at - start) else token.isStartTag && start + 1 < hi
    requires end == |text| && hi == end ==> end2 == |other|
    ensures !CommentAt(other, at)
  {
    hide Moves, CommentAt, TagEnd;
    CommentChars(other, at);
    if hi < end {
      MovesPart(text, start, hi, other, at - start, start + 1, hi);
      MovesHead(text, start + 1, hi, other, at - start);
    } else if start + 4 <= end {
      MovesPart(text, start, hi, other, at - start, start, start + 4);
      CommentMoves(text, other, start, at);
    } else if end < |text| {
      TagIsClosedOrLast(text, start + 1, None);
      MovesPart(text, start, hi, other, at - start, end - 1, hi);
      MovesHead(text, end - 1, hi, other, at - start);
    } else {
      CommentLength(text, other, at);
    }
  }

  lemma CommentMoves(text: string, other: string, start: nat, at: nat)
    requires Moves(text, start, start + 4, other, at - start)
    ensures CommentAt(other, at) <==> CommentAt(text, start)
  {
    SliceMoves(text, start, start + 4, other, at - start);
  }

  lemma CommentLength(text: string, other: string, at: nat)
    ensures CommentAt(other, at) ==> at + 4 <= |other|
  {
  }

  /** Where reading goes on after a token: past a script or a style, to its closing tag. */
  lemma AfterReplaced(lower: string -> string, fold: char -> char, text: string, other: string, token: Token, t2: Token,
                      tokens: seq<Token>, plans: seq<Plan>) returns (next2: nat)
    requires LowersCharwise(lower, fold, text) && LowersCharwise(lower, fold, other)
    requires token.end <= |text| && t2.end <= |other| && t2.isStartTag == token.isStartTag
    requires t2.tagName == token.tagName
    requires Tokens(lower, text, AfterToken(lower, text, token)) == Done(tokens) && AllFitting(text, tokens, plans)
    requires forall i :: 0 <= i < |tokens| ==> OpenTag(text, tokens[i])
    requires Rest(other, t2.end, text, PlannedSpans(tokens, plans), token.end)
    ensures next2 == AfterToken(lower, other, t2) && AfterToken(lower, text, token) <= |text|
    ensures Rest(other, next2, text, PlannedSpans(tokens, plans), AfterToken(lower, text, token))
  {
    hide Rest, Moves, LowersCharwise, IndexOf, Tokens, Tag;
    if token.isStartTag && Raw(token.tagName) {
      var close := IndexOf(lower(text), "</" + token.tagName.value, token.end);
      if close.Some? {
        next2 := CloseReplaced(lower, fold, text, other, token.tagName.value, token.end, t2.end, close.value, tokens,
                               plans);
      } else {
        assert tokens == [] by { NothingLeft(lower, text); }
        next2 := NoCloseReplaced(lower, fold, text, other, token.tagName.value, token.end, t2.end);
      }
    } else {
      next2 := t2.end;
      RestParts(other, t2.end, text, PlannedSpans(tokens, plans), token.end);
    }
  }

  lemma NothingLeft(lower: string -> string, text: string)
    ensures Tokens(lower, text, |text|) == Done([])
  {
  }

  lemma CloseReplaced(lower: string -> string, fold: char -> char, text: string, other: string, name: string, end: nat,
                      end2: nat,
                      close: nat, tokens: seq<Token>, plans: seq<Plan>) returns (next2: nat)
    requires LowersCharwise(lower, fold, text) && LowersCharwise(lower, fold, other) && Raw(Some(name))
    requires IndexOf(lower(text), "</" + name, end) == Some(close)
    requires Tokens(lower, text, close) == Done(tokens) && AllFitting(text, tokens, plans)
    requires forall i :: 0 <= i < |tokens| ==> OpenTag(text, tokens[i])
    requires Rest(other, end2, text, PlannedSpans(tokens, plans), end)
    ensures IndexOf(lower(other), "</" + name, end2) == Some(next2) && close <= |text|
    ensures Rest(other, next2, text, PlannedSpans(tokens, plans), close)
  {
    hide Rest, Moves, LowersCharwise, Tokens, IndexOf, TokensOrdered, OpenTag, TokenFits, PlannedSpans, Ordered, LiesAt;
    var later := PlannedSpans(tokens, plans);
    var needle := "</" + name;
    TokensAreOrdered(lower, text, close);
    FreeClose(lower, fold, text, tokens, plans, close, name);
    RestParts(other, end2, text, later, end);
    Advance(other, end2, text, later, end, close + |needle|);
    LowerMoves(lower, fold, text, other, end, close + |needle|, end2 - end);
    IndexMoves(lower(text), lower(other), needle, end, close + |needle|, end2 - end);
    next2 := close + (end2 - end);
    Advance(other, end2, text, later, end, close);
  }

  lemma NoCloseReplaced(lower: string -> string, fold: char -> char, text: string, other: string, name: string,
                        end: nat, end2: nat)
      returns (next2: nat)
    requires LowersCharwise(lower, fold, text) && LowersCharwise(lower, fold, other)
    requires IndexOf(lower(text), "</" + name, end).None? && Rest(other, end2, text, [], end)
    ensures IndexOf(lower(other), "</" + name, end2).None? && next2 == |other|
    ensures Rest(other, next2, text, [], |text|)
  {
    hide Rest, Moves, LowersCharwise;
    RestParts(other, end2, text, [], end);
    LowerLengths(lower, fold, text);
    LowerLengths(lower, fold, other);
    Advance(other, end2, text, [], end, |text|);
    next2 := end2 + (|text| - end);
    WholeRest(other, next2, text);
    LowerMoves(lower, fold, text, other, end, |text|, end2 - end);
    NoIndexMoves(lower(text), lower(other), "</" + name, end, end2 - end);
  }

  lemma LowerLengths(lower: string -> string, fold: char -> char, text: string)
    requires LowersCharwise(lower, fold, text)
    ensures |lower(text)| == |text|
  {
  }

  // ----- The document -----

  /** Reading a token and going on. */
  lemma TokensStep(lower: string -> string, text: string, at: nat, start: nat, end: nat, token: Token)
    requires at < |text| && IndexOf(text, "<", at) == Some(start) && start < |text| && !CommentAt(text, start)
    requires TagEnd(text, start + 1, None) == end && Tag(lower, text, start, end) == Done(token) && token.end == end
    ensures Tokens(lower, text, at) == Add(token, Tokens(lower, text, AfterToken(lower, text, token)))
  {
    hide Tag, AfterToken, AfterComment, TagEnd, CommentAt, IndexOf;
  }

  lemma TokensStuck(lower: string -> string, text: string, at: nat, start: nat)
    requires at < |text| && IndexOf(text, "<", at) == Some(start) && start < |text| && !CommentAt(text, start)
    ensures var end := TagEnd(text, start + 1, None);
            Tokens(lower, text, at).Done? ==>
              && Tag(lower, text, start, end).Done?
              && Tag(lower, text, start, end).result.start == start && Tag(lower, text, start, end).result.end == end
  {
    TagKeepsPlace(lower, text, start, TagEnd(text, start + 1, None));
    hide Tag, AfterToken, AfterComment, TagEnd, CommentAt, IndexOf;
  }

  /** The first token of a list, and what follows it. */
  lemma HeadToken(lower: string -> string, text: string, c: nat, start: nat, tokens: seq<Token>)
    requires c < |text| && IndexOf(text, "<", c) == Some(start) && start < |text| && !CommentAt(text, start)
    requires Tokens(lower, text, c) == Done(tokens)
    ensures tokens != [] && c <= start && text[start] == '<'
    ensures var end := TagEnd(text, start + 1, None);
            && start < end <= |text| && ClosedOrLast(text, end) && Tag(lower, text, start, end) == Done(tokens[0])
            && tokens[0].start == start && tokens[0].end == end && OpenTag(text, tokens[0])
    ensures Tokens(lower, text, AfterToken(lower, text, tokens[0])) == Done(tokens[1..])
  {
    hide Tag, Tokens, AfterToken, TagEnd, CommentAt, IndexOf, OpenTag, ClosedOrLast;
    OpeningThere(text, c, start);
    TagEndCloses(text, start);
    TokensStuck(lower, text, c, start);
    var end := TagEnd(text, start + 1, None);
    TokensStep(lower, text, c, start, end, Tag(lower, text, start, end).result);
    TagIsOpen(lower, text, start, end);
  }

  lemma TagEndCloses(text: string, start: nat)
    requires start < |text|
    ensures start < TagEnd(text, start + 1, None) && ClosedOrLast(text, TagEnd(text, start + 1, None))
  {
    hide TagEnd;
    TagIsClosedOrLast(text, start + 1, None);
  }

  lemma OpeningThere(text: string, c: nat, start: nat)
    requires IndexOf(text, "<", c) == Some(start)
    ensures c <= start < |text| && text[start] == '<'
  {
    hide IndexOf;
    ElementsThere(text, start, "<");
  }

  lemma NothingAtEnd(text: string, tokens: seq<Token>, plans: seq<Plan>)
    requires TokensOrdered(text, tokens, |text|) && Sized(tokens, plans)
    ensures tokens == [] && PlannedSpans(tokens, plans) == []
  {
    if tokens != [] {
      FirstTokenInside(text, tokens, |text|);
    }
  }

  lemma FirstTokenInside(text: string, tokens: seq<Token>, from: nat)
    requires TokensOrdered(text, tokens, from) && tokens != []
    ensures from <= tokens[0].start < tokens[0].end <= |text|
  {
  }

  /** The values of a tag that are replaced lie past its first two characters. */
  lemma SpansWellInside(lower: string -> string, text: string, start: nat, end: nat, token: Token, puts: Puts)
    requires start < end && ClosedOrLast(text, end) && Tag(lower, text, start, end) == Done(token)
    requires AllFit(text, token.attributes, puts, end)
    ensures Below(SpansOf(token.attributes, puts), end)
    ensures forall i :: 0 <= i < |SpansOf(token.attributes, puts)| ==>
      start + 1 < SpansOf(token.attributes, puts)[i].start
    ensures SpansOf(token.attributes, puts) != [] ==> token.isStartTag
  {
    TagByHead(lower, text, start, end);
    hide Tag, HeadAt, AllFit;
    var head := HeadAt(lower, text, start, end);
    if head.StartTag? {
      SpansPast(lower, text, head.from, end, token.attributes, puts);
    } else {
      FitsNothing(text, token.attributes, puts, end);
      BelowNone(end);
    }
  }

  /** A tag is found where it has moved to, and reads as planned. */
  lemma TagFound(lower: string -> string, text: string, other: string, c: nat, at: nat, start: nat, end: nat, end2: nat,
                 token: Token,
                 puts: Puts, later: seq<Replacement>) returns (t2: Token)
    requires c < |text| && IndexOf(text, "<", c) == Some(start) && start < |text| && text[start] == '<'
    requires !CommentAt(text, start)
    requires end == TagEnd(text, start + 1, None) && Tag(lower, text, start, end) == Done(token) && c <= start < end
    requires token.end == end
    requires ClosedOrLast(text, end) && OpenTag(text, token) && TokenFits(text, token, Write(puts))
    requires token.start == start
    requires Rest(other, at, text, SpansOf(token.attributes, puts) + later, c)
    requires Rest(other, end2, text, later, end) && (end == |text| ==> later == [])
    ensures t2.end == end2 && t2.tagName == token.tagName && t2.isStartTag == token.isStartTag
    ensures ShapeOfToken(other, t2, KeepAll(|t2.attributes|)) == ShapeOfToken(text, token, puts)
    ensures Tokens(lower, other, at) == Add(t2, Tokens(lower, other, AfterToken(lower, other, t2)))
  {
    hide Rest, Moves, IndexOf, Tokens, Tag, TagEnd, CommentAt, OpenTag, Ordered, LeftToRight, AfterToken, ClosedOrLast,
         Below,
         AllFit, ClosedAt, KeepsQuotes, ShapeOfToken, TagAsPlanned;
    FitsParts(text, token, puts);
    hide TokenFits, SpansOf;
    var spans := SpansOf(token.attributes, puts);
    SpansWellInside(lower, text, start, end, token, puts);
    var at2 := at + (start - c);
    OpeningFound(text, other, c, at, start, end, end2, spans, later);
    EndReplaced(text, other, start, at2, end, end2, spans, later);
    NoCommentFound(text, other, start, at2, end, end2, spans, later, token);
    TagReplaced(lower, text, other, start, at2, end, end2, token, puts, later);
    t2 := TagRead(lower, other, at, at2, end2, ShapeOfToken(text, token, puts));
    ShapeParts(text, other, token, t2, puts);
  }

  lemma FitsParts(text: string, token: Token, puts: Puts)
    requires TokenFits(text, token, Write(puts))
    ensures AllFit(text, token.attributes, puts, token.end) && |token.attributes| == |puts|
    ensures SpansOf(token.attributes, puts) != [] ==>
      && ClosedAt(text, token.start + 1, None, token.end)
      && KeepsQuotes(text, SpansOf(token.attributes, puts), token.start + 1, None)
  {
  }

  lemma TagRead(lower: string -> string, other: string, at: nat, at2: nat, end2: nat,
                planned: TokenShape) returns (t2: Token)
    requires at < |other| && IndexOf(other, "<", at) == Some(at2) && at2 < |other| && !CommentAt(other, at2)
    requires TagEnd(other, at2 + 1, None) == end2 && TagAsPlanned(lower, other, at2, end2, planned)
    ensures t2.end == end2 && ShapeOfToken(other, t2, KeepAll(|t2.attributes|)) == planned
    ensures Tokens(lower, other, at) == Add(t2, Tokens(lower, other, AfterToken(lower, other, t2)))
  {
    hide IndexOf, Tokens, Tag, TagEnd, CommentAt, AfterToken, ShapeOfToken;
    t2 := Tag(lower, other, at2, end2).result;
    TokensStep(lower, other, at, at2, end2, t2);
  }

  lemma OpeningFound(text: string, other: string, c: nat, at: nat, start: nat, end: nat, end2: nat,
                     spans: seq<Replacement>, later: seq<Replacement>)
    requires IndexOf(text, "<", c) == Some(start) && c <= start < end
    requires Rest(other, at, text, spans + later, c) && Rest(other, end2, text, later, end)
    requires forall i :: 0 <= i < |spans| ==> start < spans[i].start
    ensures at < |other| && IndexOf(other, "<", at) == Some(at + (start - c))
    ensures at + (start - c) < |other| && Rest(other, at + (start - c), text, spans + later, start)
  {
    hide Rest, Moves, IndexOf;
    FreeAfter(other, text, spans, later, start, end, end2);
    RestParts(other, at, text, spans + later, c);
    Advance(other, at, text, spans + later, c, start + 1);
    RestParts(other, at + (start + 1 - c), text, spans + later, start + 1);
    Advance(other, at, text, spans + later, c, start);
    IndexMoves(text, other, "<", c, start + 1, at - c);
  }

  lemma ShapeParts(text: string, other: string, token: Token, t2: Token, puts: Puts)
    requires |puts| == |token.attributes|
    requires ShapeOfToken(other, t2, KeepAll(|t2.attributes|)) == ShapeOfToken(text, token, puts)
    ensures t2.tagName == token.tagName && t2.isStartTag == token.isStartTag
  {
  }

  lemma NoCommentFound(text: string, other: string, start: nat, at: nat, end: nat, end2: nat,
                       spans: seq<Replacement>, later: seq<Replacement>, token: Token)
    requires start < |text| && text[start] == '<' && end == TagEnd(text, start + 1, None) && !CommentAt(text, start)
    requires start < end
    requires token.start == start && OpenTag(text, token) && (spans != [] ==> token.isStartTag)
    requires Rest(other, at, text, spans + later, start) && Rest(other, end2, text, later, end)
    requires (end == |text| ==> later == [])
    requires Below(spans, end) && forall i :: 0 <= i < |spans| ==> start + 1 < spans[i].start
    ensures !CommentAt(other, at)
  {
    hide Rest, Moves, TagEnd, CommentAt, OpenTag, Below;
    HeadPart(other, at, text, spans, later, start, end, end2);
    if end == |text| {
      WholeRest(other, end2, text);
    }
    var hi := if spans == [] then end else spans[0].start;
    assert hi < end || spans == [] by { BelowFirst(spans, end); }
    StillNoComment(text, other, start, at, end, end2, hi, token);
  }

  lemma BelowFirst(spans: seq<Replacement>, end: nat)
    requires Below(spans, end)
    ensures spans != [] ==> spans[0].start < end
  {
  }

  /** A token that is kept reads as planned in the new text, and reading goes on at the same place. */
  lemma TokenReplaced(lower: string -> string, fold: char -> char, text: string, other: string, c: nat, at: nat,
                      start: nat,
                      tokens: seq<Token>, plans: seq<Plan>) returns (t2: Token, next2: nat)
    requires LowersCharwise(lower, fold, text) && LowersCharwise(lower, fold, other)
    requires c < |text| && IndexOf(text, "<", c) == Some(start) && start < |text| && !CommentAt(text, start)
    requires Tokens(lower, text, c) == Done(tokens) && AllFitting(text, tokens, plans)
    requires tokens != [] && plans[0].Write? && Sized(tokens[1..], plans[1..])
    requires Rest(other, at, text, PlannedSpans(tokens, plans), c)
    ensures AfterToken(lower, text, tokens[0]) <= |text|
    ensures Rest(other, next2, text, PlannedSpans(tokens[1..], plans[1..]), AfterToken(lower, text, tokens[0]))
    ensures Tokens(lower, other, at) == Add(t2, Tokens(lower, other, next2))
    ensures ShapeOfToken(other, t2, KeepAll(|t2.attributes|)) == ShapeOfToken(text, tokens[0], plans[0].puts)
  {
    HeadToken(lower, text, c, start, tokens);
    TagsAreOpen(lower, text, c);
    FittingTail(text, tokens, plans);
    TokensAreOrdered(lower, text, c);
    hide Rest, LowersCharwise, IndexOf, Tokens, Tag, TagEnd, CommentAt, OpenTag, LeftToRight, AfterToken, ClosedOrLast,
         TokensOrdered, Below, AllFit, ShapeOfToken;
    var token, puts, later := tokens[0], plans[0].puts, PlannedSpans(tokens[1..], plans[1..]);
    var spans := SpansOf(token.attributes, puts);
    SpansWellInside(lower, text, start, token.end, token, puts);
    TokensTail(text, tokens, c);
    FreeFrom(text, tokens[1..], plans[1..], token.end);
    var end2;
    end2 := PassSpans(other, at, text, spans, later, c, token.end);
    if token.end == |text| {
      NothingAtEnd(text, tokens[1..], plans[1..]);
    }
    t2 := TagFound(lower, text, other, c, at, start, token.end, end2, token, puts, later);
    RestParts(other, end2, text, later, token.end);
    next2 := AfterReplaced(lower, fold, text, other, token, t2, tokens[1..], plans[1..]);
  }

  /** Text without a `<` is passed over. */
  lemma TextSkipped(lower: string -> string, other: string, at: nat, to: nat)
    requires at <= to <= |other| && forall k :: at <= k < to ==> other[k] != '<'
    ensures Tokens(lower, other, at) == Tokens(lower, other, to)
  {
    hide Tag, AfterToken, AfterComment, TagEnd, CommentAt;
    IndexSkips(other, "<", at, to);
  }

  lemma CommentStep(lower: string -> string, text: string, at: nat, start: nat)
    requires at < |text| && IndexOf(text, "<", at) == Some(start) && start < |text| && CommentAt(text, start)
    ensures Tokens(lower, text, at) == Tokens(lower, text, AfterComment(text, start))
  {
    hide Tag, AfterToken, AfterComment, TagEnd, CommentAt, IndexOf;
  }

  /** A comment is passed over in both texts. */
  lemma CommentReplaced(lower: string -> string, text: string, other: string, c: nat, at: nat, start: nat,
                        tokens: seq<Token>, plans: seq<Plan>) returns (next2: nat)
    requires c < |text| && IndexOf(text, "<", c) == Some(start) && start < |text| && CommentAt(text, start)
    requires Tokens(lower, text, AfterComment(text, start)) == Done(tokens) && AllFitting(text, tokens, plans)
    requires Rest(other, at, text, PlannedSpans(tokens, plans), c)
    ensures Rest(other, next2, text, PlannedSpans(tokens, plans), AfterComment(text, start))
    ensures Tokens(lower, other, at) == Tokens(lower, other, next2)
  {
    hide Rest, Moves, IndexOf, Tokens, CommentAt, TokensOrdered, OpenTag, AfterComment, TokenFits, PlannedSpans;
    var next, later := AfterComment(text, start), PlannedSpans(tokens, plans);
    CommentInside(text, start);
    TokensAreOrdered(lower, text, next);
    TagsAreOpen(lower, text, next);
    FreeFrom(text, tokens, plans, next);
    if next == |text| {
      NothingAtEnd(text, tokens, plans);
    }
    next2 := CommentPassed(lower, text, other, c, at, start, later);
  }

  lemma CommentPassed(lower: string -> string, text: string, other: string, c: nat, at: nat, start: nat,
                      later: seq<Replacement>)
      returns (next2: nat)
    requires c < |text| && IndexOf(text, "<", c) == Some(start) && c <= start < |text| && CommentAt(text, start)
    requires start + 4 <= AfterComment(text, start) <= Free(text, later) && Rest(other, at, text, later, c)
    requires AfterComment(text, start) == |text| ==> later == []
    ensures Rest(other, next2, text, later, AfterComment(text, start))
    ensures Tokens(lower, other, at) == Tokens(lower, other, next2)
  {
    hide Rest, Moves, IndexOf, Tokens, CommentAt, AfterComment;
    var next := AfterComment(text, start);
    RestParts(other, at, text, later, c);
    Advance(other, at, text, later, c, next);
    next2 := at + (next - c);
    if next == |text| {
      WholeRest(other, next2, text);
    }
    CommentFound(text, other, c, start, at - c, next);
    MovesPart(text, c, next, other, at - c, start + 4, next);
    CommentEnds(text, other, start, at + (start - c), next);
    CommentStep(lower, other, at, at + (start - c));
  }

  lemma CommentFound(text: string, other: string, c: nat, start: nat, d: int, next: nat)
    requires IndexOf(text, "<", c) == Some(start) && c <= start && start + 4 <= next && Moves(text, c, next, other, d)
    requires CommentAt(text, start)
    ensures 0 <= start + d && c + d < |other| && IndexOf(other, "<", c + d) == Some(start + d) && start + d < |other|
    ensures CommentAt(other, start + d)
  {
    hide Moves, IndexOf, CommentAt;
    MovesPart(text, c, next, other, d, c, start + 4);
    IndexMoves(text, other, "<", c, start + 4, d);
    MovesPart(text, c, next, other, d, start, start + 4);
    CommentMoves(text, other, start, start + d);
  }

  lemma CommentEnds(text: string, other: string, start: nat, at: nat, next: nat)
    requires start < |text| && at < |other| && next == AfterComment(text, start) && start + 4 <= next
    requires Moves(text, start + 4, next, other, at - start) && (next == |text| ==> |other| == next + (at - start))
    ensures AfterComment(other, at) == next + (at - start)
  {
    hide Moves, IndexOf;
    var close := IndexOf(text, "-->", start + 4);
    if close.Some? {
      IndexMoves(text, other, "-->", start + 4, next, at - start);
    } else {
      NoIndexMoves(text, other, "-->", start + 4, at - start);
    }
  }

  lemma CommentInside(text: string, start: nat)
    requires start < |text| && CommentAt(text, start)
    ensures start + 4 <= AfterComment(text, start) <= |text|
    ensures IndexOf(text, "-->", start + 4).Some? ==>
      IndexOf(text, "-->", start + 4).value + 3 == AfterComment(text, start)
    ensures IndexOf(text, "-->", start + 4).None? ==> AfterComment(text, start) == |text|
  {
  }

  /** A tag that is dropped leaves no trace. */
  lemma TokenDropped(lower: string -> string, text: string, other: string, c: nat, at: nat, start: nat,
                     tokens: seq<Token>, plans: seq<Plan>) returns (next2: nat)
    requires c < |text| && IndexOf(text, "<", c) == Some(start) && start < |text| && !CommentAt(text, start)
    requires Tokens(lower, text, c) == Done(tokens) && AllFitting(text, tokens, plans)
    requires tokens != [] && plans[0].Drop? && Sized(tokens[1..], plans[1..])
    requires Rest(other, at, text, PlannedSpans(tokens, plans), c)
    ensures AfterToken(lower, text, tokens[0]) <= |text|
    ensures Rest(other, next2, text, PlannedSpans(tokens[1..], plans[1..]), AfterToken(lower, text, tokens[0]))
    ensures Tokens(lower, other, at) == Tokens(lower, other, next2)
  {
    HeadToken(lower, text, c, start, tokens);
    FittingTail(text, tokens, plans);
    hide Rest, Moves, Tokens, Tag, TagEnd, CommentAt, OpenTag, LeftToRight, ClosedOrLast, Ordered, IndexOf;
    var later := PlannedSpans(tokens[1..], plans[1..]);
    var all := PlannedSpans(tokens, plans);
    assert all == [Replacement(start, tokens[0].end, "")] + later;
    assert all[0] == Replacement(start, tokens[0].end, "") && all[1..] == later;
    RestParts(other, at, text, all, c);
    Advance(other, at, text, all, c, start);
    next2 := at + (start - c);
    Jump(other, next2, text, all);
    RestParts(other, next2, text, all, start);
    NoOpeningBefore(text, other, c, at, start);
    TextSkipped(lower, other, at, next2);
  }

  lemma NoOpeningBefore(text: string, other: string, c: nat, at: nat, start: nat)
    requires IndexOf(text, "<", c) == Some(start) && c <= start && Moves(text, c, start, other, at - c)
    ensures forall k :: at <= k < at + (start - c) ==> other[k] != '<'
  {
    hide IndexOf;
    forall k | at <= k < at + (start - c) ensures other[k] != '<' {
      var i := k - (at - c);
      assert other[i + (at - c)] == text[i];
      OpeningLies(text, i);
    }
  }

  lemma OpeningLies(text: string, i: nat)
    requires i < |text|
    ensures LiesAt(text, i, "<") <==> text[i] == '<'
  {
    assert text[i..i + 1] == [text[i]];
  }

  lemma OneToken(lower: string -> string, other: string, at: nat, t2: Token, next2: nat, planned: seq<TokenShape>)
    requires Tokens(lower, other, at) == Add(t2, Tokens(lower, other, next2))
    requires DocumentAsPlanned(lower, other, next2, planned)
    ensures DocumentAsPlanned(lower, other, at, [ShapeOfToken(other, t2, KeepAll(|t2.attributes|))] + planned)
  {
    hide Tokens, ShapeOfToken;
    var rest := Tokens(lower, other, next2).result;
    assert ([t2] + rest)[1..] == rest;
  }

  lemma NoTokens(lower: string -> string, text: string, other: string, c: nat, at: nat)
    requires c <= |text| && IndexOf(text, "<", c).None? && Rest(other, at, text, [], c)
    ensures DocumentAsPlanned(lower, other, at, [])
  {
    hide Rest, Moves;
    RestParts(other, at, text, [], c);
    Advance(other, at, text, [], c, |text|);
    WholeRest(other, at + (|text| - c), text);
    NoIndexMoves(text, other, "<", c, at - c);
  }

  /** From any place on, the new text reads as planned. */
  lemma {:induction false} TokensReplaced(lower: string -> string, fold: char -> char, text: string, other: string,
                                          c: nat, at: nat,
                                          tokens: seq<Token>, plans: seq<Plan>)
    requires LowersCharwise(lower, fold, text) && LowersCharwise(lower, fold, other) && c <= |text|
    requires Tokens(lower, text, c) == Done(tokens) && AllFitting(text, tokens, plans)
    requires Rest(other, at, text, PlannedSpans(tokens, plans), c)
    ensures DocumentAsPlanned(lower, other, at, PlannedTokens(text, tokens, plans))
    decreases |text| - c
  {
    hide Rest, LowersCharwise, Tokens, Tag, TagEnd, CommentAt, AfterToken, AfterComment, IndexOf, DocumentAsPlanned,
         TokenFits,
         ShapeOfToken, PlannedSpans, ClosedOrLast, OpenTag;
    var start := if c < |text| then IndexOf(text, "<", c) else None;
    if start.None? {
      NoneRead(lower, text, c);
      NonePlanned(text, tokens, plans);
      NoTokens(lower, text, other, c, at);
    } else {
      OpeningThere(text, c, start.value);
      if CommentAt(text, start.value) {
        CommentStep(lower, text, c, start.value);
        CommentInside(text, start.value);
        var next2 := CommentReplaced(lower, text, other, c, at, start.value, tokens, plans);
        TokensReplaced(lower, fold, text, other, AfterComment(text, start.value), next2, tokens, plans);
        SameTokens(lower, other, at, next2, PlannedTokens(text, tokens, plans));
      } else {
        HeadToken(lower, text, c, start.value, tokens);
        FittingTail(text, tokens, plans);
        var next := AfterToken(lower, text, tokens[0]);
        if plans[0].Drop? {
          var next2 := TokenDropped(lower, text, other, c, at, start.value, tokens, plans);
          TokensReplaced(lower, fold, text, other, next, next2, tokens[1..], plans[1..]);
          SameTokens(lower, other, at, next2, PlannedTokens(text, tokens[1..], plans[1..]));
          assert PlannedTokens(text, tokens, plans) == PlannedTokens(text, tokens[1..], plans[1..]);
        } else {
          var t2, next2 := TokenReplaced(lower, fold, text, other, c, at, start.value, tokens, plans);
          TokensReplaced(lower, fold, text, other, next, next2, tokens[1..], plans[1..]);
          OneToken(lower, other, at, t2, next2, PlannedTokens(text, tokens[1..], plans[1..]));
        }
      }
    }
  }

  lemma NoneRead(lower: string -> string, text: string, c: nat)
    requires c < |text| ==> IndexOf(text, "<", c).None?
    ensures Tokens(lower, text, c) == Done([])
    ensures c <= |text| ==> IndexOf(text, "<", c).None?
  {
  }

  lemma NonePlanned(text: string, tokens: seq<Token>, plans: seq<Plan>)
    requires tokens == [] && Sized(tokens, plans)
    ensures PlannedSpans(tokens, plans) == [] && PlannedTokens(text, tokens, plans) == []
  {
  }

  lemma SameTokens(lower: string -> string, other: string, at: nat, next2: nat, planned: seq<TokenShape>)
    requires Tokens(lower, other, at) == Tokens(lower, other, next2) && DocumentAsPlanned(lower, other, next2, planned)
    ensures DocumentAsPlanned(lower, other, at, planned)
  {
  }
}

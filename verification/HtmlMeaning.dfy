/** What `rewriteHtml` makes of a page (packages/archive-core/src/rewrite.ts:918-967): tokenized again, its output has
    the tags of the page without the first base element, with the same attributes and the new references. */
module HtmlMeaning {
  import opened Options
  import opened Scanner
  import opened HtmlTokens
  import opened Splice
  import opened SplicedText
  import opened HtmlRewrite
  import opened HtmlValues
  import opened HtmlSplice
  import opened HtmlPreserved
  import opened HtmlDocument

  // ----- What the rewriter plans -----

  function PutsOf(ctx: Context, base: string, text: string, token: Token): (puts: Puts)
    requires token.tagName.Some? && AllInside(text, token)
    ensures |puts| == |token.attributes|
  {
    seq(|token.attributes|, k requires 0 <= k < |token.attributes| =>
      var change := ChangeOf(ctx, base, text, token, token.attributes[k]);
      if change.Put? then Some(change.value) else None)
  }

  function PlanOf(ctx: Context, text: string, tokens: seq<Token>, i: nat): (plan: Plan)
    requires Readable(text, tokens) && i < |tokens|
    ensures plan.Write? ==> |plan.puts| == |tokens[i].attributes|
  {
    if tokens[i].tagName.None? || !tokens[i].isStartTag then Write(KeepAll(|tokens[i].attributes|))
    else if i == BaseIndex(tokens, 0) then Drop
    else Write(PutsOf(ctx, BaseUrl(ctx, text, tokens), text, tokens[i]))
  }

  function PlansOf(ctx: Context, text: string, tokens: seq<Token>): (plans: seq<Plan>)
    requires Readable(text, tokens)
    ensures |plans| == |tokens| && Sized(tokens, plans)
  {
    seq(|tokens|, i requires 0 <= i < |tokens| => PlanOf(ctx, text, tokens, i))
  }

  // ----- The collected spans are the planned ones -----

  lemma {:induction false} SpansOfLast(attributes: seq<Attribute>, puts: Puts)
    requires |attributes| == |puts| && attributes != []
    ensures var n := |attributes| - 1;
            SpansOf(attributes, puts) == SpansOf(attributes[..n], puts[..n]) + PutOf(attributes[n], puts[n])
  {
    var n := |attributes| - 1;
    if n > 0 {
      SpansOfLast(attributes[1..], puts[1..]);
      assert attributes[1..][..n - 1] == attributes[..n][1..] && puts[1..][..n - 1] == puts[..n][1..];
    }
  }

  lemma SizedParts(tokens: seq<Token>, plans: seq<Plan>, n: nat)
    requires Sized(tokens, plans) && n <= |tokens|
    ensures Sized(tokens[..n], plans[..n]) && (tokens != [] ==> Sized(tokens[1..], plans[1..]))
    ensures n < |tokens| && plans[n].Write? ==> |plans[n].puts| == |tokens[n].attributes|
  {
    if tokens != [] {
      forall i | 0 <= i < |plans| - 1 ensures tokens[1..][i] == tokens[i + 1] && plans[1..][i] == plans[i + 1] {}
    }
  }

  lemma {:induction false} PlannedSpansLast(tokens: seq<Token>, plans: seq<Plan>, n: nat)
    requires Sized(tokens, plans) && tokens != [] && n == |tokens| - 1 == |plans| - 1 && Sized(tokens[..n], plans[..n])
    requires plans[n].Write? ==> |plans[n].puts| == |tokens[n].attributes|
    ensures PlannedSpans(tokens, plans) == PlannedSpans(tokens[..n], plans[..n]) + TokenSpans(tokens[n], plans[n])
    decreases n
  {
    hide Sized, TokenSpans;
    if n > 0 {
      SizedParts(tokens, plans, n);
      SizedParts(tokens[1..], plans[1..], n - 1);
      assert tokens[1..][..n - 1] == tokens[..n][1..] && plans[1..][..n - 1] == plans[..n][1..];
      PlannedSpansLast(tokens[1..], plans[1..], n - 1);
    }
  }

  lemma {:induction false} NothingPut(attributes: seq<Attribute>)
    ensures SpansOf(attributes, KeepAll(|attributes|)) == []
  {
    if attributes != [] {
      assert KeepAll(|attributes|)[1..] == KeepAll(|attributes| - 1);
      NothingPut(attributes[1..]);
    }
  }

  lemma {:induction false} TagSpansPlanned(ctx: Context, base: string, text: string, token: Token, n: nat)
    requires token.tagName.Some? && AllInside(text, token) && n <= |token.attributes|
    ensures var spans := TagSpans(ctx, base, text, token, n);
            spans.Some? ==> spans.value == SpansOf(token.attributes[..n], PutsOf(ctx, base, text, token)[..n])
  {
    hide ChangeOf;
    if n > 0 {
      var attributes, puts := token.attributes[..n], PutsOf(ctx, base, text, token)[..n];
      TagSpansPlanned(ctx, base, text, token, n - 1);
      assert attributes[..n - 1] == token.attributes[..n - 1];
      assert puts[..n - 1] == PutsOf(ctx, base, text, token)[..n - 1];
      SpansOfLast(attributes, puts);
      ChangeNeedsValue(ctx, base, text, token, token.attributes[n - 1]);
    }
  }

  /** The spans that one token adds. */
  function SpansAt(ctx: Context, text: string, tokens: seq<Token>, i: nat): Option<seq<Replacement>>
    requires Readable(text, tokens) && i < |tokens|
  {
    var token := tokens[i];
    if token.tagName.None? || !token.isStartTag then Some([])
    else if i == BaseIndex(tokens, 0) then Some([Replacement(token.start, token.end, "")])
    else TagSpans(ctx, BaseUrl(ctx, text, tokens), text, token, |token.attributes|)
  }

  lemma SpansSplit(ctx: Context, text: string, tokens: seq<Token>, n: nat)
    requires Readable(text, tokens) && 0 < n <= |tokens|
    ensures var before := Spans(ctx, text, tokens, n - 1);
            var last := SpansAt(ctx, text, tokens, n - 1);
            Spans(ctx, text, tokens, n) == if before.Some? && last.Some? then Some(before.value + last.value) else None
  {
    hide TagSpans, Readable;
    var before := Spans(ctx, text, tokens, n - 1);
    assert before.Some? ==> before.value + [] == before.value;
  }

  lemma SpansAtPlanned(ctx: Context, text: string, tokens: seq<Token>, i: nat)
    requires Readable(text, tokens) && i < |tokens|
    ensures var spans := SpansAt(ctx, text, tokens, i);
            spans.Some? ==> spans.value == TokenSpans(tokens[i], PlanOf(ctx, text, tokens, i))
  {
    hide TagSpans, PutsOf, SpansOf;
    var token := tokens[i];
    if token.tagName.None? || !token.isStartTag {
      NothingPut(token.attributes);
    } else if i != BaseIndex(tokens, 0) {
      var base := BaseUrl(ctx, text, tokens);
      TagSpansPlanned(ctx, base, text, token, |token.attributes|);
      assert token.attributes[..|token.attributes|] == token.attributes;
      assert PutsOf(ctx, base, text, token)[..|token.attributes|] == PutsOf(ctx, base, text, token);
    }
  }

  lemma {:induction false} SpansPlanned(ctx: Context, text: string, tokens: seq<Token>, n: nat)
    requires Readable(text, tokens) && n <= |tokens|
    ensures Sized(tokens[..n], PlansOf(ctx, text, tokens)[..n])
    ensures var spans := Spans(ctx, text, tokens, n);
            spans.Some? ==> spans.value == PlannedSpans(tokens[..n], PlansOf(ctx, text, tokens)[..n])
  {
    var plans := PlansOf(ctx, text, tokens);
    SizedParts(tokens, plans, n);
    hide SpansAt, Sized, PlanOf, TokenSpans, Readable;
    if n == 0 {
      assert Spans(ctx, text, tokens, n) == Some([]) && PlannedSpans(tokens[..n], plans[..n]) == [];
    } else {
      SpansPlanned(ctx, text, tokens, n - 1);
      SpansSplit(ctx, text, tokens, n);
      SpansAtPlanned(ctx, text, tokens, n - 1);
      assert tokens[..n][..n - 1] == tokens[..n - 1] && plans[..n][..n - 1] == plans[..n - 1];
      SizedParts(tokens, plans, n - 1);
      hide Spans, PlannedSpans;
      PlannedSpansLast(tokens[..n], plans[..n], n - 1);
    }
  }

  // ----- The meaning of a rewritten page -----

  /** The tokens of a page that is rewritten. */
  function PageTokens(ctx: Context, text: string): (tokens: seq<Token>)
    requires Rewritten(ctx, text).Html?
    ensures Tokens(ctx.lower, text, 0) == Done(tokens) && Readable(text, tokens)
  {
    TokensAreOrdered(ctx.lower, text, 0);
    TokensReadable(text, Tokens(ctx.lower, text, 0).result);
    Tokens(ctx.lower, text, 0).result
  }

  /** Where the new references can stand: tokenizing the output gives the tags of the page, the first base element
      dropped and the new values in place. */
  lemma RewrittenReadsAsPlanned(ctx: Context, fold: char -> char, text: string)
    requires Rewritten(ctx, text).Html?
    requires LowersCharwise(ctx.lower, fold, text) && LowersCharwise(ctx.lower, fold, Rewritten(ctx, text).html)
    requires AllFitting(text, PageTokens(ctx, text), PlansOf(ctx, text, PageTokens(ctx, text)))
    ensures var tokens := PageTokens(ctx, text);
            var output := Rewritten(ctx, text).html;
            var again := Tokens(ctx.lower, output, 0);
            again.Done? && ShapesOfTokens(output, again.result)
              == PlannedTokens(text, tokens, PlansOf(ctx, text, tokens))
  {
    var tokens := PageTokens(ctx, text);
    PlannedOutput(ctx, text);
    hide LowersCharwise, Rewritten, Rest, TokenFits, PlansOf, PlannedSpans, PlannedTokens, Readable, ShapesOfTokens;
    TokensReplaced(ctx.lower, fold, text, Rewritten(ctx, text).html, 0, 0, tokens, PlansOf(ctx, text, tokens));
  }

  /** The output is the page with the planned spans replaced. */
  lemma PlannedOutput(ctx: Context, text: string)
    requires Rewritten(ctx, text).Html?
    ensures var tokens := PageTokens(ctx, text);
            Rest(Rewritten(ctx, text).html, 0, text, PlannedSpans(tokens, PlansOf(ctx, text, tokens)), 0)
  {
    var tokens := PageTokens(ctx, text);
    TokensAreOrdered(ctx.lower, text, 0);
    SpansOrdered(ctx, text, tokens, |tokens|);
    hide Tokens, Spans, TokensOrdered, Readable, LeftToRight, PlansOf, PlannedSpans;
    SpansPlanned(ctx, text, tokens, |tokens|);
    assert tokens[..|tokens|] == tokens && PlansOf(ctx, text, tokens)[..|tokens|] == PlansOf(ctx, text, tokens);
    var spans := Spans(ctx, text, tokens, |tokens|).value;
    OrderedWider(spans, 0, EndOf(tokens, |tokens|), |text|);
    assert Rewritten(ctx, text).html[0..] == Rewritten(ctx, text).html;
  }

  // ----- Pages with double-quoted references -----

  /** A quoted value does not hold its quote. */
  predicate QuoteOutside(text: string, a: Attribute) {
    a.value.Some? && a.value.value.quote.Some? ==>
      forall k :: a.value.value.start <= k < a.value.value.end && k < |text| ==> text[k] != a.value.value.quote.value
  }

  lemma TurnQuotes(lower: string -> string, text: string, cursor: nat, end: nat)
    requires cursor <= end <= |text|
    ensures var turn := TurnAt(lower, text, cursor, end); turn.Read? ==> QuoteOutside(text, turn.attribute)
  {
    hide IsSpace, SpaceOrSlash, NameChar;
  }

  lemma {:induction false} AttributeQuotes(lower: string -> string, text: string, cursor: nat, end: nat)
    requires cursor <= end <= |text| && Attributes(lower, text, cursor, end).Done?
    ensures var attributes := Attributes(lower, text, cursor, end).result;
            forall i :: 0 <= i < |attributes| ==> QuoteOutside(text, attributes[i])
    decreases end - cursor
  {
    hide TurnAt, QuoteOutside;
    TurnQuotes(lower, text, cursor, end);
    match TurnAt(lower, text, cursor, end)
    case Pass(next) => AttributeQuotes(lower, text, next, end);
    case Read(_, next) => AttributeQuotes(lower, text, next, end);
    case _ =>
  }

  predicate QuotesOutside(text: string, token: Token) {
    forall i :: 0 <= i < |token.attributes| ==> QuoteOutside(text, token.attributes[i])
  }

  lemma TagQuotes(lower: string -> string, text: string, start: nat, end: nat)
    requires start < end <= |text| && Tag(lower, text, start, end).Done?
    ensures QuotesOutside(text, Tag(lower, text, start, end).result)
  {
    TagByHead(lower, text, start, end);
    hide Tag, HeadAt, QuoteOutside;
    var head := HeadAt(lower, text, start, end);
    if head.StartTag? {
      AttributeQuotes(lower, text, head.from, end);
    }
  }

  lemma {:induction false} TokenQuotes(lower: string -> string, text: string, cursor: nat)
    requires Tokens(lower, text, cursor).Done?
    ensures var tokens := Tokens(lower, text, cursor).result;
            forall i :: 0 <= i < |tokens| ==> QuotesOutside(text, tokens[i])
    decreases |text| - cursor
  {
    hide Tag, AfterToken, AfterComment, TagEnd, CommentAt, QuotesOutside;
    var start := if cursor < |text| then IndexOf(text, "<", cursor) else None;
    if start.Some? {
      if CommentAt(text, start.value) {
        TokenQuotes(lower, text, AfterComment(text, start.value));
      } else {
        var end := TagEnd(text, start.value + 1, None);
        TagQuotes(lower, text, start.value, end);
        TagKeepsPlace(lower, text, start.value, end);
        TokenQuotes(lower, text, AfterToken(lower, text, Tag(lower, text, start.value, end).result));
      }
    }
  }

  /** The value stands between double quotes for the scan of attributes and for that of the tag's end. */
  predicate DoubleQuoted(text: string, token: Token, a: Attribute) {
    && a.value.Some? && a.value.value.quote == Some('"') && Terminated(text, a.value.value, token.end)
    && token.start + 1 <= a.value.value.start
    && QuoteAfter(text[token.start + 1..a.value.value.start], None) == Some('"')
  }

  /** Whatever is put in place of another value is escaped. */
  lemma ChangeIsEscaped(ctx: Context, base: string, text: string, token: Token, a: Attribute)
    requires token.tagName.Some? && AllInside(text, token) && Inside(text, a)
    ensures var change := ChangeOf(ctx, base, text, token, a);
            change.Put? ==> '"' !in change.value && '>' !in change.value
  {
    forall value: string ensures '"' !in Escape(value) && '>' !in Escape(value) {
      EscapedStaysInside(value);
    }
    hide Escape, ValidReference, FirstValue, ValueText;
  }

  predicate Unquoted(puts: Puts) {
    forall k :: 0 <= k < |puts| && puts[k].Some? ==> '"' !in puts[k].value && '>' !in puts[k].value
  }

  predicate AllDoubleQuoted(text: string, token: Token, attributes: seq<Attribute>, puts: Puts)
    requires |attributes| == |puts|
  {
    forall k :: 0 <= k < |puts| && puts[k].Some? ==>
      DoubleQuoted(text, token, attributes[k]) && QuoteOutside(text, attributes[k])
  }

  lemma DoubleQuotesFit(text: string, token: Token, puts: Puts)
    requires |puts| == |token.attributes| && AllDoubleQuoted(text, token, token.attributes, puts) && Unquoted(puts)
    ensures AllFit(text, token.attributes, puts, token.end)
  {
  }

  /** From a place before all values that are replaced. */
  predicate Ahead(attributes: seq<Attribute>, puts: Puts, from: nat)
    requires |attributes| == |puts|
  {
    forall k :: 0 <= k < |puts| && puts[k].Some? && attributes[k].value.Some? ==>
      from <= attributes[k].value.value.start
  }

  lemma {:induction false} DoubleQuotesKeep(text: string, token: Token, attributes: seq<Attribute>, puts: Puts, lo: nat,
                                            from: nat)
    requires |attributes| == |puts| && AllDoubleQuoted(text, token, attributes, puts) && Unquoted(puts)
    requires ValuesOrdered(text, attributes, lo, token.end) && Ahead(attributes, puts, from)
    requires token.start + 1 <= from <= |text|
    ensures KeepsQuotes(text, SpansOf(attributes, puts), from, QuoteAfter(text[token.start + 1..from], None))
    decreases |attributes|
  {
    if attributes != [] {
      OrderedTail(text, attributes, lo, token.end);
      QuotedTail(text, token, attributes, puts, lo, from);
      hide ValuesOrdered, AllDoubleQuoted, Ahead, Unquoted;
      if puts[0].None? {
        DoubleQuotesKeep(text, token, attributes[1..], puts[1..], lo, from);
        assert SpansOf(attributes, puts) == SpansOf(attributes[1..], puts[1..]);
      } else {
        var v, put := attributes[0].value.value, puts[0].value;
        QuotedStep(text, token.start + 1, from, v, put);
        DoubleQuotesKeep(text, token, attributes[1..], puts[1..], lo, v.end);
        assert SpansOf(attributes, puts) == [Replacement(v.start, v.end, put)] + SpansOf(attributes[1..], puts[1..]);
        assert SpansOf(attributes, puts)[1..] == SpansOf(attributes[1..], puts[1..]);
      }
    }
  }

  /** What holds of the other attributes, and of the first. */
  lemma QuotedTail(text: string, token: Token, attributes: seq<Attribute>, puts: Puts, lo: nat, from: nat)
    requires |attributes| == |puts| && attributes != [] && AllDoubleQuoted(text, token, attributes, puts)
    requires Unquoted(puts)
    requires ValuesOrdered(text, attributes, lo, token.end) && Ahead(attributes, puts, from)
    ensures AllDoubleQuoted(text, token, attributes[1..], puts[1..]) && Unquoted(puts[1..])
    ensures Ahead(attributes[1..], puts[1..], from)
    ensures puts[0].Some? ==>
      && attributes[0].value.Some?
      && var v := attributes[0].value.value;
         && from <= v.start <= v.end <= |text| && Ahead(attributes[1..], puts[1..], v.end)
         && QuoteAfter(text[token.start + 1..v.start], None) == Some('"') && '"' !in text[v.start..v.end]
         && '"' !in puts[0].value && '>' !in puts[0].value
  {
    forall k | 0 <= k < |puts| - 1 ensures puts[1..][k] == puts[k + 1] && attributes[1..][k] == attributes[k + 1] {}
    if puts[0].Some? {
      assert DoubleQuoted(text, token, attributes[0]) && QuoteOutside(text, attributes[0]);
    }
  }

  lemma QuotedStep(text: string, start: nat, from: nat, v: Value, put: string)
    requires start <= from <= v.start <= v.end <= |text| && QuoteAfter(text[start..v.start], None) == Some('"')
    requires '"' !in text[v.start..v.end] && '"' !in put
    ensures QuoteAfter(text[from..v.start], QuoteAfter(text[start..from], None)) == Some('"')
    ensures QuoteAfter(put, Some('"')) == Some('"') == QuoteAfter(text[v.start..v.end], Some('"'))
    ensures QuoteAfter(text[start..v.end], None) == Some('"')
  {
    assert text[start..v.start] == text[start..from] + text[from..v.start];
    QuoteConcat(text[start..from], text[from..v.start], None);
    InsideDoubleQuotes(put);
    InsideDoubleQuotes(text[v.start..v.end]);
    assert text[start..v.end] == text[start..v.start] + text[v.start..v.end];
    QuoteConcat(text[start..v.start], text[v.start..v.end], None);
  }

  /** A tag whose references are double-quoted, and that is closed if any is replaced. */
  predicate QuotedTag(text: string, token: Token, puts: Puts)
    requires |puts| == |token.attributes|
  {
    && (forall k :: 0 <= k < |puts| && puts[k].Some? ==> DoubleQuoted(text, token, token.attributes[k]))
    && ((exists k :: 0 <= k < |puts| && puts[k].Some?) ==> ClosedAt(text, token.start + 1, None, token.end))
  }

  /** All references that are replaced are double-quoted. */
  predicate QuotedPage(ctx: Context, text: string, tokens: seq<Token>)
    requires Readable(text, tokens)
  {
    forall i :: 0 <= i < |tokens| && PlanOf(ctx, text, tokens, i).Write? ==>
      QuotedTag(text, tokens[i], PlanOf(ctx, text, tokens, i).puts)
  }

  lemma {:induction false} SpansNeedPuts(attributes: seq<Attribute>, puts: Puts)
    requires |attributes| == |puts| && SpansOf(attributes, puts) != []
    ensures exists k :: 0 <= k < |puts| && puts[k].Some?
  {
    if puts[0].None? {
      SpansNeedPuts(attributes[1..], puts[1..]);
      var k :| 0 <= k < |puts| - 1 && puts[1..][k].Some?;
      assert puts[k + 1].Some?;
    }
  }

  lemma QuotedTagFits(text: string, token: Token, puts: Puts)
    requires |puts| == |token.attributes| && QuotedTag(text, token, puts) && Unquoted(puts)
    requires QuotesOutside(text, token)
    requires token.start + 1 <= |text| && ValuesOrdered(text, token.attributes, token.start, token.end)
    ensures TokenFits(text, token, Write(puts))
  {
    hide KeepsQuotes, ClosedAt, DoubleQuoted, QuoteOutside, Unquoted, AllFit;
    assert AllDoubleQuoted(text, token, token.attributes, puts);
    DoubleQuotesFit(text, token, puts);
    if SpansOf(token.attributes, puts) != [] {
      SpansNeedPuts(token.attributes, puts);
      assert Ahead(token.attributes, puts, token.start + 1);
      DoubleQuotesKeep(text, token, token.attributes, puts, token.start, token.start + 1);
      assert text[token.start + 1..token.start + 1] == [];
    }
  }

  lemma PlansAreUnquoted(ctx: Context, text: string, tokens: seq<Token>, i: nat)
    requires Readable(text, tokens) && i < |tokens| && PlanOf(ctx, text, tokens, i).Write?
    ensures Unquoted(PlanOf(ctx, text, tokens, i).puts)
  {
    var token := tokens[i];
    if token.tagName.Some? && token.isStartTag {
      var base := BaseUrl(ctx, text, tokens);
      forall k | 0 <= k < |token.attributes| ensures
        var change := ChangeOf(ctx, base, text, token, token.attributes[k]);
        change.Put? ==> '"' !in change.value && '>' !in change.value
      {
        ChangeIsEscaped(ctx, base, text, token, token.attributes[k]);
      }
    }
  }

  lemma QuotedPageFits(ctx: Context, text: string, tokens: seq<Token>)
    requires Tokens(ctx.lower, text, 0) == Done(tokens) && Readable(text, tokens) && QuotedPage(ctx, text, tokens)
    ensures AllFitting(text, tokens, PlansOf(ctx, text, tokens))
  {
    TokensAreOrdered(ctx.lower, text, 0);
    TokenQuotes(ctx.lower, text, 0);
    hide Tokens, TokenFits, QuotedTag, Unquoted, QuotesOutside, ValuesOrdered, PutsOf;
    var plans := PlansOf(ctx, text, tokens);
    forall i | 0 <= i < |tokens| ensures TokenFits(text, tokens[i], plans[i]) {
      if plans[i].Drop? {
        BaseIsBase(tokens, 0);
        BaseFits(text, tokens[i]);
      } else {
        PlansAreUnquoted(ctx, text, tokens, i);
        QuotedTagFits(text, tokens[i], plans[i].puts);
      }
    }
  }

  lemma BaseFits(text: string, token: Token)
    requires token.isStartTag && token.tagName == Some("base")
    ensures TokenFits(text, token, Drop)
  {
  }

  /** A page whose replaced references are all double-quoted, with its letter case changed character by character:
      whatever the new references are, tokenizing the output gives the tags of the page, each with the attributes it
      had, the first base element dropped and the new references in place, escaped. */
  lemma QuotedPageKeepsItsTags(ctx: Context, fold: char -> char, text: string)
    requires Rewritten(ctx, text).Html? && QuotedPage(ctx, text, PageTokens(ctx, text))
    requires LowersCharwise(ctx.lower, fold, text) && LowersCharwise(ctx.lower, fold, Rewritten(ctx, text).html)
    ensures var tokens := PageTokens(ctx, text);
            var output := Rewritten(ctx, text).html;
            var again := Tokens(ctx.lower, output, 0);
            again.Done? && ShapesOfTokens(output, again.result)
              == PlannedTokens(text, tokens, PlansOf(ctx, text, tokens))
  {
    hide Rewritten, LowersCharwise, Tokens, Readable, QuotedPage, PlansOf, PlannedTokens, ShapesOfTokens;
    QuotedPageFits(ctx, text, PageTokens(ctx, text));
    RewrittenReadsAsPlanned(ctx, fold, text);
  }
}

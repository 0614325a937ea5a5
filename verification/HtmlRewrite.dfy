/** Rewriting the references of an HTML document (packages/archive-core/src/rewrite.ts:900-967). Which
    attributes hold references, how a reference is resolved and mapped, and what base URL a base element
    gives, are functions given by the caller. */
module HtmlRewrite {
  import opened Options
  import opened Scanner
  import opened HtmlTokens
  import opened Splice

  datatype Context = Context(
    lower: string -> string,
    base: Option<string> -> string,                              // the base URL for the first base element's href
    isCanonical: string -> bool,                                 // whether a rel value names a canonical link
    isReference: (string, string) -> bool,                       // whether a tag's attribute holds a reference
    canonical: (string, string) -> Option<string>,               // a canonical reference, when it is made absolute
    reference: (string, string, string, string) -> Option<string>, // a reference, when it is rewritten
    srcset: (string, string, string, string) -> Option<string>,  // a source set; None when it throws
    maximumReferenceLength: nat)

  datatype Result = Html(html: string) | Throws | NeverEnds

  /** `assertText` (lines 322-325): a reference is not empty, not too long and has no control characters. */
  predicate ValidReference(ctx: Context, value: string) {
    1 <= |value| <= ctx.maximumReferenceLength && forall i :: 0 <= i < |value| ==>
      value[i] >= ' ' && value[i] != 127 as char
  }

  function EscapeChar(c: char): string {
    if c == '&' then "&amp;" else if c == '"' then "&quot;" else if c == '<' then "&lt;" else if c == '>' then "&gt;"
    else [c]
  }

  /** `escapeAttributeValue`; the ampersands are replaced first, so one pass does the same. */
  function Escape(value: string): string {
    if value == [] then [] else EscapeChar(value[0]) + Escape(value[1..])
  }

  /** A new value never ends a double-quoted attribute or its tag; it ends a single-quoted one exactly
      when it holds an apostrophe, which is not escaped. */
  lemma {:induction false} EscapedStaysInside(value: string)
    ensures '"' !in Escape(value) && '<' !in Escape(value) && '>' !in Escape(value)
    ensures '\'' in Escape(value) <==> '\'' in value
  {
    if value != [] {
      EscapedStaysInside(value[1..]);
      assert value == [value[0]] + value[1..];
      assert '\'' in EscapeChar(value[0]) <==> value[0] == '\'';
    }
  }

  // ----- What is replaced -----

  function FindAttribute(attributes: seq<Attribute>, name: string): Option<Attribute> {
    if attributes == [] then None
    else if attributes[0].name == name then Some(attributes[0])
    else FindAttribute(attributes[1..], name)
  }

  predicate Inside(text: string, a: Attribute) {
    a.value.Some? ==> a.value.value.start <= a.value.value.end <= |text|
  }

  function ValueText(text: string, a: Attribute): string
    requires a.value.Some? && Inside(text, a)
  {
    text[a.value.value.start..a.value.value.end]
  }

  predicate AllInside(text: string, token: Token) {
    forall i :: 0 <= i < |token.attributes| ==> Inside(text, token.attributes[i])
  }

  lemma {:induction false} FoundInside(text: string, attributes: seq<Attribute>, name: string)
    requires forall i :: 0 <= i < |attributes| ==> Inside(text, attributes[i])
    ensures var a := FindAttribute(attributes, name); a.Some? ==> Inside(text, a.value)
  {
    if attributes != [] {
      FoundInside(text, attributes[1..], name);
    }
  }

  /** The value of the first attribute with a name, when it has one. */
  function FirstValue(text: string, token: Token, name: string): Option<string>
    requires AllInside(text, token)
  {
    FoundInside(text, token.attributes, name);
    var a := FindAttribute(token.attributes, name);
    if a.Some? && a.value.value.Some? then Some(ValueText(text, a.value)) else None
  }

  datatype Change = Keep | Throw | Put(value: string)

  /** Lines 942-961, for one attribute of a start tag. */
  function ChangeOf(ctx: Context, base: string, text: string, token: Token, a: Attribute): Change
    requires token.tagName.Some? && AllInside(text, token) && Inside(text, a)
  {
    var tag := token.tagName.value;
    if a.value.None? then Keep
    else
      var value := ValueText(text, a);
      var rel := FirstValue(text, token, "rel");
      if tag == "link" && rel.Some? && ctx.isCanonical(rel.value) && a.name == "href" then
        if !ValidReference(ctx, value) then Throw
        else if ctx.canonical(base, value).Some? then Put(Escape(ctx.canonical(base, value).value)) else Keep
      else if !ctx.isReference(tag, a.name) then Keep
      else if a.name == "srcset" then
        var output := ctx.srcset(base, tag, a.name, value);
        if output.None? then Throw else Put(Escape(output.value))
      else if !ValidReference(ctx, value) then Throw
      else if ctx.reference(base, tag, a.name, value).Some? then
        Put(Escape(ctx.reference(base, tag, a.name, value).value)) else Keep
  }

  /** The spans of the first `n` attributes of a tag; None when one of them throws. */
  function TagSpans(ctx: Context, base: string, text: string, token: Token, n: nat): Option<seq<Replacement>>
    requires token.tagName.Some? && AllInside(text, token) && n <= |token.attributes|
  {
    if n == 0 then Some([])
    else
      var before := TagSpans(ctx, base, text, token, n - 1);
      if before.None? then None
      else
        var a := token.attributes[n - 1];
        match ChangeOf(ctx, base, text, token, a)
        case Keep => before
        case Throw => None
        case Put(value) => Some(before.value + [Replacement(a.value.value.start, a.value.value.end, value)])
  }

  /** The first base element. */
  function BaseIndex(tokens: seq<Token>, i: nat): nat
    requires i <= |tokens|
    ensures i <= BaseIndex(tokens, i) <= |tokens|
    decreases |tokens| - i
  {
    if i == |tokens| || (tokens[i].isStartTag && tokens[i].tagName == Some("base")) then i else BaseIndex(tokens, i + 1)
  }

  predicate Readable(text: string, tokens: seq<Token>) {
    forall i :: 0 <= i < |tokens| ==> AllInside(text, tokens[i])
  }

  function BaseUrl(ctx: Context, text: string, tokens: seq<Token>): string
    requires Readable(text, tokens)
  {
    var i := BaseIndex(tokens, 0);
    ctx.base(if i < |tokens| then FirstValue(text, tokens[i], "href") else None)
  }

  /** The spans of the first `n` tokens: the first base element is removed whole. */
  function Spans(ctx: Context, text: string, tokens: seq<Token>, n: nat): Option<seq<Replacement>>
    requires Readable(text, tokens) && n <= |tokens|
  {
    if n == 0 then Some([])
    else
      var before := Spans(ctx, text, tokens, n - 1);
      var token := tokens[n - 1];
      if before.None? then None
      else if token.tagName.None? || !token.isStartTag then before
      else if n - 1 == BaseIndex(tokens, 0) then Some(before.value + [Replacement(token.start, token.end, "")])
      else
        var spans := TagSpans(ctx, BaseUrl(ctx, text, tokens), text, token, |token.attributes|);
        if spans.None? then None else Some(before.value + spans.value)
  }

  // ----- The spans are in order -----

  lemma TokensReadable(text: string, tokens: seq<Token>)
    requires TokensOrdered(text, tokens, 0)
    ensures Readable(text, tokens)
  {
  }

  /** Each span is the value of one of the first `n` attributes. */
  ghost predicate ValueSpan(token: Token, n: nat, span: Replacement)
    requires n <= |token.attributes|
  {
    exists k :: 0 <= k < n && token.attributes[k].value.Some?
      && token.attributes[k].value.value.start == span.start && token.attributes[k].value.value.end == span.end
  }

  lemma {:induction false} TagSpansOrdered(ctx: Context, base: string, text: string, token: Token, n: nat)
    requires token.tagName.Some? && AllInside(text, token) && n <= |token.attributes|
    requires token.start < token.end && ValuesOrdered(text, token.attributes, token.start, token.end)
    ensures var spans := TagSpans(ctx, base, text, token, n);
            spans.Some? ==>
              && Ordered(spans.value, token.start, token.end)
              && (forall i :: 0 <= i < |spans.value| ==> ValueSpan(token, n, spans.value[i]))
  {
    hide ChangeOf, ValueSpan, ValuesOrdered, Ordered;
    if n == 0 {
      OrderedEmpty(text, token.start, token.end);
    } else {
      TagSpansOrdered(ctx, base, text, token, n - 1);
      var before := TagSpans(ctx, base, text, token, n - 1);
      if before.Some? {
        ChangeNeedsValue(ctx, base, text, token, token.attributes[n - 1]);
        OneMoreSpan(text, token, n - 1, before.value);
      }
    }
  }

  /** Adding the span of the next attribute, or none. */
  lemma OneMoreSpan(text: string, token: Token, n: nat, spans: seq<Replacement>)
    requires n < |token.attributes| && ValuesOrdered(text, token.attributes, token.start, token.end)
    requires Ordered(spans, token.start, token.end) && forall i :: 0 <= i < |spans| ==> ValueSpan(token, n, spans[i])
    ensures forall i :: 0 <= i < |spans| ==> ValueSpan(token, n + 1, spans[i])
    ensures token.attributes[n].value.Some? ==>
      var v := token.attributes[n].value.value;
      forall value :: var span := Replacement(v.start, v.end, value);
        Ordered(spans + [span], token.start, token.end) && ValueSpan(token, n + 1, span)
  {
    SpansBefore(text, token, n, spans);
    forall i | 0 <= i < |spans| ensures ValueSpan(token, n + 1, spans[i]) {
      assert ValueSpan(token, n, spans[i]);
    }
  }

  lemma ChangeNeedsValue(ctx: Context, base: string, text: string, token: Token, a: Attribute)
    requires token.tagName.Some? && AllInside(text, token) && Inside(text, a)
    ensures ChangeOf(ctx, base, text, token, a).Put? ==> a.value.Some?
  {
  }

  lemma SpansBefore(text: string, token: Token, n: nat, spans: seq<Replacement>)
    requires n < |token.attributes| && ValuesOrdered(text, token.attributes, token.start, token.end)
    requires forall i :: 0 <= i < |spans| ==> spans[i].start <= spans[i].end && ValueSpan(token, n, spans[i])
    ensures token.attributes[n].value.Some? ==>
      forall i :: 0 <= i < |spans| ==> spans[i].end < token.attributes[n].value.value.start
  {
  }

  /** Spans that end before others begin, all of them with room for one more start. */
  lemma OrderedConcat(a: seq<Replacement>, b: seq<Replacement>, lo: nat, mid: nat, hi: nat)
    requires Ordered(a, lo, mid) && Ordered(b, mid, hi) && (b != [] ==> forall i :: 0 <= i < |a| ==> a[i].start < mid)
    ensures Ordered(a + b, lo, hi)
  {
  }

  predicate Roomy(text: string, spans: seq<Replacement>, end: nat) {
    end < |text| ==> forall i :: 0 <= i < |spans| ==> spans[i].start < end
  }

  function EndOf(tokens: seq<Token>, n: nat): nat
    requires n <= |tokens|
  {
    if n == 0 then 0 else tokens[n - 1].end
  }

  lemma TokenSpansRoomy(ctx: Context, base: string, text: string, token: Token)
    requires token.tagName.Some? && AllInside(text, token)
    requires token.start < token.end && ValuesOrdered(text, token.attributes, token.start, token.end)
    ensures var spans := TagSpans(ctx, base, text, token, |token.attributes|);
            spans.Some? ==> Ordered(spans.value, token.start, token.end) && Roomy(text, spans.value, token.end)
  {
    hide TagSpans;
    TagSpansOrdered(ctx, base, text, token, |token.attributes|);
    var spans := TagSpans(ctx, base, text, token, |token.attributes|);
    if spans.Some? && token.end < |text| {
      forall i | 0 <= i < |spans.value| ensures spans.value[i].start < token.end {
        assert ValueSpan(token, |token.attributes|, spans.value[i]);
      }
    }
  }

  /** The recorded spans are in bounds and pairwise disjoint, in the order of the text. */
  lemma {:induction false} SpansOrdered(ctx: Context, text: string, tokens: seq<Token>, n: nat)
    requires TokensOrdered(text, tokens, 0) && Readable(text, tokens) && n <= |tokens|
    ensures var spans := Spans(ctx, text, tokens, n);
            EndOf(tokens, n) <= |text|
            && (spans.Some? ==> Ordered(spans.value, 0, EndOf(tokens, n)) && Roomy(text, spans.value, EndOf(tokens, n)))
  {
    hide TagSpans, ValuesOrdered, Ordered, Roomy;
    if n == 0 {
      OrderedEmpty(text, 0, 0);
    } else {
      SpansOrdered(ctx, text, tokens, n - 1);
      var token := tokens[n - 1];
      var before := Spans(ctx, text, tokens, n - 1);
      assert EndOf(tokens, n - 1) <= token.start;
      if before.Some? {
        if token.tagName.None? || !token.isStartTag {
          SpansAppend(text, before.value, [], EndOf(tokens, n - 1), token);
          assert before.value + [] == before.value;
        } else if n - 1 == BaseIndex(tokens, 0) {
          SpansAppend(text, before.value, [Replacement(token.start, token.end, "")], EndOf(tokens, n - 1), token);
        } else {
          var base := BaseUrl(ctx, text, tokens);
          TokenSpansRoomy(ctx, base, text, token);
          var spans := TagSpans(ctx, base, text, token, |token.attributes|);
          if spans.Some? {
            SpansAppend(text, before.value, spans.value, EndOf(tokens, n - 1), token);
          }
        }
      }
    }
  }

  lemma OrderedEmpty(text: string, lo: nat, hi: nat)
    requires lo <= hi
    ensures Ordered([], lo, hi) && Roomy(text, [], hi)
  {
  }

  lemma SpansAppend(text: string, before: seq<Replacement>, spans: seq<Replacement>, mid: nat, token: Token)
    requires Ordered(before, 0, mid) && Roomy(text, before, mid) && mid <= token.start < token.end <= |text|
    requires spans == [] || spans == [Replacement(token.start, token.end, "")]
      || (Ordered(spans, token.start, token.end) && Roomy(text, spans, token.end))
    ensures Ordered(before + spans, 0, token.end) && Roomy(text, before + spans, token.end)
  {
    assert Ordered(spans, mid, token.end);
    OrderedConcat(before, spans, 0, mid, token.end);
  }

  /** A span is the first base element, or the value of an attribute of a start tag. */
  ghost predicate FromToken(tokens: seq<Token>, span: Replacement) {
    exists i :: 0 <= i < |tokens| && tokens[i].isStartTag
      && ((i == BaseIndex(tokens, 0) && span == Replacement(tokens[i].start, tokens[i].end, ""))
          || ValueSpan(tokens[i], |tokens[i].attributes|, span))
  }

  /** Nothing but attribute values and the first base element is ever replaced. */
  lemma {:induction false} OnlyValuesAreReplaced(ctx: Context, text: string, tokens: seq<Token>, n: nat)
    requires TokensOrdered(text, tokens, 0) && Readable(text, tokens) && n <= |tokens|
    ensures var spans := Spans(ctx, text, tokens, n);
            spans.Some? ==> forall i :: 0 <= i < |spans.value| ==> FromToken(tokens, spans.value[i])
  {
    hide TagSpans, ValuesOrdered, ValueSpan;
    if n > 0 {
      OnlyValuesAreReplaced(ctx, text, tokens, n - 1);
      var token := tokens[n - 1];
      if token.tagName.Some? {
        TagSpansOrdered(ctx, BaseUrl(ctx, text, tokens), text, token, |token.attributes|);
      }
    }
  }

  // ----- The rewriter -----

  /** What `rewriteHtml` returns: the splice of the collected spans. */
  function Rewritten(ctx: Context, text: string): Result {
    var tokens := Tokens(ctx.lower, text, 0);
    if tokens.Diverges? then NeverEnds
    else
      TokensAreOrdered(ctx.lower, text, 0);
      TokensReadable(text, tokens.result);
      SpansOrdered(ctx, text, tokens.result, |tokens.result|);
      var spans := Spans(ctx, text, tokens.result, |tokens.result|);
      if spans.None? then Throws
      else
        OrderedWider(spans.value, 0, EndOf(tokens.result, |tokens.result|), |text|);
        Html(LeftToRight(text, spans.value, 0))
  }

  method CollectTag(ctx: Context, base: string, text: string, token: Token) returns (spans: Option<seq<Replacement>>)
    requires token.tagName.Some? && AllInside(text, token)
    ensures spans == TagSpans(ctx, base, text, token, |token.attributes|)
  {
    hide ChangeOf;
    var replacements: seq<Replacement> := [];
    var k := 0;
    while k < |token.attributes|
      invariant k <= |token.attributes| && TagSpans(ctx, base, text, token, k) == Some(replacements)
      invariant TagSpans(ctx, base, text, token, |token.attributes|).Some? ==> k <= |token.attributes|
    {
      var change := ChangeOf(ctx, base, text, token, token.attributes[k]);
      ChangeNeedsValue(ctx, base, text, token, token.attributes[k]);
      if change.Throw? {
        ThrowsForGood(ctx, base, text, token, k + 1, |token.attributes|);
        return None;
      }
      if change.Put? {
        var v := token.attributes[k].value.value;
        replacements := replacements + [Replacement(v.start, v.end, change.value)];
      }
      k := k + 1;
    }
    return Some(replacements);
  }

  lemma {:induction false} ThrowsForGood(ctx: Context, base: string, text: string, token: Token, k: nat, n: nat)
    requires token.tagName.Some? && AllInside(text, token) && k <= n <= |token.attributes|
    requires TagSpans(ctx, base, text, token, k).None?
    ensures TagSpans(ctx, base, text, token, n).None?
  {
    if k < n {
      ThrowsForGood(ctx, base, text, token, k, n - 1);
    }
  }

  lemma {:induction false} SpansThrowForGood(ctx: Context, text: string, tokens: seq<Token>, k: nat, n: nat)
    requires Readable(text, tokens) && k <= n <= |tokens| && Spans(ctx, text, tokens, k).None?
    ensures Spans(ctx, text, tokens, n).None?
  {
    hide TagSpans;
    if k < n {
      SpansThrowForGood(ctx, text, tokens, k, n - 1);
    }
  }

  method Collect(ctx: Context, text: string, tokens: seq<Token>) returns (spans: Option<seq<Replacement>>)
    requires Readable(text, tokens)
    ensures spans == Spans(ctx, text, tokens, |tokens|)
  {
    hide TagSpans, AllInside;
    var base := BaseUrl(ctx, text, tokens);
    var replacements: seq<Replacement> := [];
    var i := 0;
    while i < |tokens|
      invariant i <= |tokens| && Spans(ctx, text, tokens, i) == Some(replacements)
    {
      var token := tokens[i];
      if token.tagName.Some? && token.isStartTag {
        if token.tagName == Some("base") && i == BaseIndex(tokens, 0) {
          replacements := replacements + [Replacement(token.start, token.end, "")];
        } else {
          BaseIsBase(tokens, 0);
          var found := CollectTag(ctx, base, text, token);
          if found.None? {
            SpansThrowForGood(ctx, text, tokens, i + 1, |tokens|);
            return None;
          }
          replacements := replacements + found.value;
        }
      }
      i := i + 1;
    }
    return Some(replacements);
  }

  lemma {:induction false} BaseIsBase(tokens: seq<Token>, i: nat)
    requires i <= |tokens|
    ensures var b := BaseIndex(tokens, i); b < |tokens| ==> tokens[b].isStartTag && tokens[b].tagName == Some("base")
    decreases |tokens| - i
  {
    if i < |tokens| {
      BaseIsBase(tokens, i + 1);
    }
  }

  method RewriteHtml(ctx: Context, text: string) returns (result: Result)
    ensures result == Rewritten(ctx, text)
  {
    hide Tokens, Spans, TokensOrdered, Readable, LeftToRight;
    var tokens := TokenizeHtml(ctx.lower, text);
    if tokens.Diverges? {
      return NeverEnds;
    }
    TokensAreOrdered(ctx.lower, text, 0);
    TokensReadable(text, tokens.result);
    var spans := Collect(ctx, text, tokens.result);
    if spans.None? {
      return Throws;
    }
    SpansOrdered(ctx, text, tokens.result, |tokens.result|);
    OrderedWider(spans.value, 0, EndOf(tokens.result, |tokens.result|), |text|);
    var output := Apply(text, spans.value);
    return Html(output);
  }
}

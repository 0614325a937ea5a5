/** Which references of a page get which new values, and when the page is refused
    (packages/archive-core/src/rewrite.ts:366-368, 681-689 and 905-967). */
module HtmlReferences {
  import opened Options
  import opened Scanner
  import opened Slices
  import opened HtmlTokens
  import opened HtmlRewrite
  import opened HtmlSplice
  import opened HtmlDocument
  import opened HtmlMeaning

  // ----- Escaped values -----

  /** A character reference of the four that are escaped lies at the start of the text. */
  function Named(text: string): Option<(char, nat)> {
    if LiesAt(text, 0, "&amp;") then Some(('&', 5))
    else if LiesAt(text, 0, "&quot;") then Some(('"', 6))
    else if LiesAt(text, 0, "&lt;") then Some(('<', 4))
    else if LiesAt(text, 0, "&gt;") then Some(('>', 4))
    else None
  }

  /** What a reader of an attribute value makes of these character references, in one pass. */
  function Decoded(text: string): string
    decreases |text|
  {
    if text == [] then []
    else if Named(text).Some? then [Named(text).value.0] + Decoded(text[Named(text).value.1..])
    else [text[0]] + Decoded(text[1..])
  }

  lemma LiesInFront(word: string, rest: string)
    ensures LiesAt(word + rest, 0, word) && (word + rest)[|word|..] == rest
  {
  }

  lemma FirstLetter(text: string, word: string)
    requires word != []
    ensures LiesAt(text, 0, word) ==> text != [] && text[0] == word[0]
  {
    if LiesAt(text, 0, word) {
      ElementsThere(text, 0, word);
    }
  }

  lemma FirstDecoded(c: char, rest: string)
    ensures Decoded(EscapeChar(c) + rest) == [c] + Decoded(rest)
  {
    var text := EscapeChar(c) + rest;
    LiesInFront(EscapeChar(c), rest);
    if EscapeChar(c) == [c] {
      FirstLetter(text, "&amp;");
      FirstLetter(text, "&quot;");
      FirstLetter(text, "&lt;");
      FirstLetter(text, "&gt;");
      assert text[1..] == rest;
    } else {
      OtherNames(text, c);
    }
  }

  /** The four names exclude one another. */
  lemma OtherNames(text: string, c: char)
    requires LiesAt(text, 0, EscapeChar(c)) && EscapeChar(c) != [c]
    ensures Named(text) == Some((c, |EscapeChar(c)|)) && text != []
  {
    ElementsThere(text, 0, EscapeChar(c));
    SecondLetter(text, "&amp;");
    SecondLetter(text, "&quot;");
    SecondLetter(text, "&lt;");
    SecondLetter(text, "&gt;");
  }

  lemma SecondLetter(text: string, word: string)
    requires |word| >= 2
    ensures LiesAt(text, 0, word) ==> |text| >= 2 && text[1] == word[1]
  {
    if LiesAt(text, 0, word) {
      ElementsThere(text, 0, word);
    }
  }

  /** A reader of the new page sees the new value as it was before it was escaped. */
  lemma {:induction false} EscapedReadsAsItself(value: string)
    ensures Decoded(Escape(value)) == value
  {
    hide EscapeChar, Decoded;
    if value == [] {
      NothingDecoded();
    } else {
      EscapedReadsAsItself(value[1..]);
      FirstDecoded(value[0], Escape(value[1..]));
      assert value == [value[0]] + value[1..];
    }
  }

  lemma NothingDecoded()
    ensures Decoded("") == ""
  {
  }

  // ----- The plan for each attribute -----

  function TextAt(text: string, a: Attribute): string
    requires a.value.Some?
  {
    if a.value.value.start <= a.value.value.end <= |text| then text[a.value.value.start..a.value.value.end] else []
  }

  /** The first attribute of a tag with a name has this value. */
  predicate FirstHas(text: string, attributes: seq<Attribute>, name: string, value: string) {
    exists k :: 0 <= k < |attributes| && attributes[k].name == name && attributes[k].value.Some?
      && TextAt(text, attributes[k]) == value && forall j :: 0 <= j < k ==> attributes[j].name != name
  }

  lemma {:induction false} FirstHasExactly(text: string, attributes: seq<Attribute>, name: string, value: string)
    ensures FirstHas(text, attributes, name, value) <==>
      var a := FindAttribute(attributes, name); a.Some? && a.value.value.Some? && TextAt(text, a.value) == value
  {
    if attributes != [] {
      var rest := attributes[1..];
      FirstHasExactly(text, rest, name, value);
      if attributes[0].name != name {
        if FirstHas(text, rest, name, value) {
          var k :| 0 <= k < |rest| && rest[k].name == name && rest[k].value.Some?
            && TextAt(text, rest[k]) == value && forall j :: 0 <= j < k ==> rest[j].name != name;
          assert attributes[k + 1] == rest[k];
        }
        if FirstHas(text, attributes, name, value) {
          var k :| 0 <= k < |attributes| && attributes[k].name == name && attributes[k].value.Some?
            && TextAt(text, attributes[k]) == value && forall j :: 0 <= j < k ==> attributes[j].name != name;
          assert rest[k - 1] == attributes[k];
          assert forall j :: 0 <= j < k - 1 ==> rest[j] == attributes[j + 1];
        }
      }
    }
  }

  /** A link that names the page's canonical address. */
  ghost predicate CanonicalLink(ctx: Context, text: string, token: Token) {
    token.tagName == Some("link")
      && exists rel :: FirstHas(text, token.attributes, "rel", rel) && ctx.isCanonical(rel)
  }

  predicate IsFirstBase(tokens: seq<Token>, i: nat)
    requires i < |tokens|
  {
    && tokens[i].isStartTag && tokens[i].tagName == Some("base")
    && forall j :: 0 <= j < i ==> !(tokens[j].isStartTag && tokens[j].tagName == Some("base"))
  }

  /** The base address of the page: that of the first base element's first `href`, if it has one. */
  ghost predicate IsBaseOf(ctx: Context, text: string, tokens: seq<Token>, base: string) {
    || (exists i, href ::
          0 <= i < |tokens| && IsFirstBase(tokens, i) && FirstHas(text, tokens[i].attributes, "href", href)
          && base == ctx.base(Some(href)))
    || (base == ctx.base(None)
        && forall i, href ::
             0 <= i < |tokens| && IsFirstBase(tokens, i) ==> !FirstHas(text, tokens[i].attributes, "href", href))
  }

  /** The new value of an attribute: its reference in the place of a value that holds one, made absolute in a canonical
      link, and mapped elsewhere; escaped in either case. */
  ghost predicate Wanted(ctx: Context, base: string, text: string, token: Token, a: Attribute, put: Option<string>)
    requires token.tagName.Some?
  {
    if a.value.None? then put.None?
    else
      var value, tag := TextAt(text, a), token.tagName.value;
      var output :=
        if CanonicalLink(ctx, text, token) && a.name == "href" then ctx.canonical(base, value)
        else if !ctx.isReference(tag, a.name) then None
        else if a.name == "srcset" then ctx.srcset(base, tag, a.name, value)
        else ctx.reference(base, tag, a.name, value);
      if output.None? then put.None? else put == Some(Escape(output.value))
  }

  /** The value of an attribute makes the rewriter throw: a reference that is not valid, or a source set that is not. */
  ghost predicate Offends(ctx: Context, base: string, text: string, token: Token, a: Attribute)
    requires token.tagName.Some?
  {
    && a.value.Some?
    && var value, tag := TextAt(text, a), token.tagName.value;
       if CanonicalLink(ctx, text, token) && a.name == "href" then !Acceptable(ctx, value)
       else
         ctx.isReference(tag, a.name)
         && if a.name == "srcset" then ctx.srcset(base, tag, a.name, value).None? else !Acceptable(ctx, value)
  }

  /** A reference has between one and the maximum of characters, none of them a control character. */
  predicate Acceptable(ctx: Context, value: string) {
    1 <= |value| <= ctx.maximumReferenceLength && forall c :: c in value ==> 32 <= c as int && c as int != 127
  }

  lemma AcceptableExactly(ctx: Context, value: string)
    ensures Acceptable(ctx, value) <==> ValidReference(ctx, value)
  {
    if Acceptable(ctx, value) {
      forall i | 0 <= i < |value| ensures value[i] >= ' ' && value[i] != 127 as char {
        assert value[i] in value;
      }
    }
  }

  lemma CanonicalExactly(ctx: Context, text: string, token: Token)
    requires token.tagName.Some? && AllInside(text, token)
    ensures var rel := FirstValue(text, token, "rel");
            CanonicalLink(ctx, text, token) <==>
              token.tagName.value == "link" && rel.Some? && ctx.isCanonical(rel.value)
  {
    FoundInside(text, token.attributes, "rel");
    forall value ensures FirstHas(text, token.attributes, "rel", value) <==>
      FirstValue(text, token, "rel") == Some(value)
    {
      FirstHasExactly(text, token.attributes, "rel", value);
    }
  }

  /** One attribute is changed as wanted, and throws exactly when it offends. */
  lemma ChangeIsWanted(ctx: Context, base: string, text: string, token: Token, a: Attribute)
    requires token.tagName.Some? && AllInside(text, token) && Inside(text, a)
    ensures var change := ChangeOf(ctx, base, text, token, a);
            && (change.Throw? <==> Offends(ctx, base, text, token, a))
            && (!change.Throw? ==>
                  Wanted(ctx, base, text, token, a, if change.Put? then Some(change.value) else None))
  {
    CanonicalExactly(ctx, text, token);
    if a.value.Some? {
      AcceptableExactly(ctx, TextAt(text, a));
    }
    hide CanonicalLink, Acceptable, ValidReference, FirstValue, Escape;
  }

  // ----- The page -----

  lemma {:induction false} BaseIsFirst(tokens: seq<Token>, from: nat)
    requires from <= |tokens| && forall j :: 0 <= j < from ==> !IsFirstBase(tokens, j)
    ensures forall i :: 0 <= i < |tokens| ==> (IsFirstBase(tokens, i) <==> i == BaseIndex(tokens, from))
    decreases |tokens| - from
  {
    if from < |tokens| && !(tokens[from].isStartTag && tokens[from].tagName == Some("base")) {
      BaseIsFirst(tokens, from + 1);
    } else if from < |tokens| {
      NoneBefore(tokens, from);
    }
  }

  /** Without a first one there is none. */
  lemma {:induction false} NoneBefore(tokens: seq<Token>, n: nat)
    requires n <= |tokens| && forall j :: 0 <= j < n ==> !IsFirstBase(tokens, j)
    ensures forall j :: 0 <= j < n ==> !(tokens[j].isStartTag && tokens[j].tagName == Some("base"))
  {
    if n > 0 {
      NoneBefore(tokens, n - 1);
      assert !IsFirstBase(tokens, n - 1);
    }
  }

  lemma BaseUrlIsBase(ctx: Context, text: string, tokens: seq<Token>)
    requires Readable(text, tokens)
    ensures IsBaseOf(ctx, text, tokens, BaseUrl(ctx, text, tokens))
  {
    BaseIsFirst(tokens, 0);
    var i := BaseIndex(tokens, 0);
    if i < |tokens| {
      FoundInside(text, tokens[i].attributes, "href");
      forall href ensures FirstHas(text, tokens[i].attributes, "href", href) <==>
        FirstValue(text, tokens[i], "href") == Some(href)
      {
        FirstHasExactly(text, tokens[i].attributes, "href", href);
      }
    }
    hide FirstHas, FirstValue;
  }

  /** There is one base address. */
  lemma OneBase(ctx: Context, text: string, tokens: seq<Token>, base: string)
    requires Readable(text, tokens)
    ensures IsBaseOf(ctx, text, tokens, base) <==> base == BaseUrl(ctx, text, tokens)
  {
    BaseUrlIsBase(ctx, text, tokens);
    if IsBaseOf(ctx, text, tokens, base) {
      BaseIsFirst(tokens, 0);
      var i := BaseIndex(tokens, 0);
      if i < |tokens| {
        FoundInside(text, tokens[i].attributes, "href");
        forall href ensures FirstHas(text, tokens[i].attributes, "href", href) <==>
          FirstValue(text, tokens[i], "href") == Some(href)
        {
          FirstHasExactly(text, tokens[i].attributes, "href", href);
        }
      }
      hide FirstHas, FirstValue, IsFirstBase;
    }
  }

  /** The tags whose attributes are looked at. */
  predicate Looked(tokens: seq<Token>, i: nat)
    requires i < |tokens|
  {
    tokens[i].tagName.Some? && tokens[i].isStartTag && !IsFirstBase(tokens, i)
  }

  /** Some attribute that is looked at offends. */
  ghost predicate SomeOffends(ctx: Context, base: string, text: string, tokens: seq<Token>, n: nat)
    requires n <= |tokens|
  {
    exists i :: 0 <= i < n && Looked(tokens, i) && TagOffends(ctx, base, text, tokens[i], |tokens[i].attributes|)
  }

  ghost predicate TagOffends(ctx: Context, base: string, text: string, token: Token, n: nat)
    requires token.tagName.Some? && n <= |token.attributes|
  {
    exists k :: 0 <= k < n && Offends(ctx, base, text, token, token.attributes[k])
  }

  lemma {:induction false} TagThrowsExactly(ctx: Context, base: string, text: string, token: Token, n: nat)
    requires token.tagName.Some? && AllInside(text, token) && n <= |token.attributes|
    ensures TagSpans(ctx, base, text, token, n).None? <==> TagOffends(ctx, base, text, token, n)
  {
    hide ChangeOf, Offends;
    if n > 0 {
      TagThrowsExactly(ctx, base, text, token, n - 1);
      ChangeIsWanted(ctx, base, text, token, token.attributes[n - 1]);
      if TagOffends(ctx, base, text, token, n - 1) {
        var k :| 0 <= k < n - 1 && Offends(ctx, base, text, token, token.attributes[k]);
        assert Offends(ctx, base, text, token, token.attributes[k]);
      }
    }
  }

  lemma {:induction false} SpansThrowExactly(ctx: Context, text: string, tokens: seq<Token>, n: nat)
    requires Readable(text, tokens) && n <= |tokens|
    ensures Spans(ctx, text, tokens, n).None? <==>
      SomeOffends(ctx, BaseUrl(ctx, text, tokens), text, tokens, n)
  {
    hide TagSpans, TagOffends, IsFirstBase, AllInside;
    if n > 0 {
      var base, token := BaseUrl(ctx, text, tokens), tokens[n - 1];
      SpansThrowExactly(ctx, text, tokens, n - 1);
      BaseIsFirst(tokens, 0);
      if token.tagName.Some? {
        TagThrowsExactly(ctx, base, text, token, |token.attributes|);
      }
      OneMoreTag(ctx, base, text, tokens, n);
    }
  }

  lemma OneMoreTag(ctx: Context, base: string, text: string, tokens: seq<Token>, n: nat)
    requires 0 < n <= |tokens|
    ensures SomeOffends(ctx, base, text, tokens, n) <==>
      || SomeOffends(ctx, base, text, tokens, n - 1)
      || (Looked(tokens, n - 1) && TagOffends(ctx, base, text, tokens[n - 1], |tokens[n - 1].attributes|))
  {
    hide TagOffends, IsFirstBase;
    if SomeOffends(ctx, base, text, tokens, n - 1) {
      var i :| 0 <= i < n - 1 && Looked(tokens, i) && TagOffends(ctx, base, text, tokens[i], |tokens[i].attributes|);
      assert TagOffends(ctx, base, text, tokens[i], |tokens[i].attributes|);
    }
  }

  /** A page is refused exactly when an attribute of one of its start tags, the first base element aside, offends. */
  lemma RefusedExactly(ctx: Context, text: string, tokens: seq<Token>, base: string)
    requires Tokens(ctx.lower, text, 0) == Done(tokens) && IsBaseOf(ctx, text, tokens, base)
    ensures Rewritten(ctx, text).Throws? <==> SomeOffends(ctx, base, text, tokens, |tokens|)
  {
    TokensAreOrdered(ctx.lower, text, 0);
    TokensReadable(text, tokens);
    OneBase(ctx, text, tokens, base);
    SpansThrowExactly(ctx, text, tokens, |tokens|);
    hide Spans, SomeOffends, Tokens;
  }

  /** What is planned for each tag of a page that is rewritten: the first base element is dropped, and every attribute
      of another start tag is given the value that is wanted, with the base address of the page. */
  lemma PlannedAsWanted(ctx: Context, text: string, i: nat)
    requires Rewritten(ctx, text).Html? && i < |PageTokens(ctx, text)|
    ensures var tokens := PageTokens(ctx, text);
            var base, plan, token := BaseUrl(ctx, text, tokens), PlansOf(ctx, text, tokens)[i], tokens[i];
            && IsBaseOf(ctx, text, tokens, base)
            && (plan.Drop? <==> IsFirstBase(tokens, i) && token.tagName.Some?)
            && (plan.Write? ==> |plan.puts| == |token.attributes|)
            && (plan.Write? && !Looked(tokens, i) ==> forall k :: 0 <= k < |plan.puts| ==> plan.puts[k].None?)
            && (plan.Write? && Looked(tokens, i) ==>
                  forall k :: 0 <= k < |plan.puts| ==>
                    Wanted(ctx, base, text, token, token.attributes[k], plan.puts[k]))
  {
    var tokens := PageTokens(ctx, text);
    var base, token := BaseUrl(ctx, text, tokens), tokens[i];
    BaseUrlIsBase(ctx, text, tokens);
    BaseIsFirst(tokens, 0);
    NothingThrows(ctx, text);
    if Looked(tokens, i) {
      forall k | 0 <= k < |token.attributes|
        ensures Wanted(ctx, base, text, token, token.attributes[k], PutsOf(ctx, base, text, token)[k])
      {
        ChangeIsWanted(ctx, base, text, token, token.attributes[k]);
        assert !TagOffends(ctx, base, text, token, |token.attributes|);
      }
    }
    hide ChangeOf, Rewritten, IsBaseOf, IsFirstBase, Wanted;
  }

  lemma NothingThrows(ctx: Context, text: string)
    requires Rewritten(ctx, text).Html?
    ensures var tokens := PageTokens(ctx, text);
            !SomeOffends(ctx, BaseUrl(ctx, text, tokens), text, tokens, |tokens|)
  {
    var tokens := PageTokens(ctx, text);
    BaseUrlIsBase(ctx, text, tokens);
    RefusedExactly(ctx, text, tokens, BaseUrl(ctx, text, tokens));
  }
}

/** The HTML tokenizer (packages/archive-core/src/rewrite.ts:691-765). Letter case is a function given by the
    caller; it may change the length of a text. */
module HtmlTokens {
  import opened Options
  import opened Scanner

  /** The value of an attribute is the text between `start` and `end`. */
  datatype Value = Value(start: nat, end: nat, quote: Option<char>)
  datatype Attribute = Attribute(name: string, value: Option<Value>)
  datatype Token = Token(start: nat, end: nat, tagName: Option<string>, attributes: seq<Attribute>, isStartTag: bool)

  // ----- The end of a tag -----

  /** The index after the first `>` outside quotes, or the end of the text. */
  function TagEnd(text: string, i: nat, quote: Option<char>): (end: nat)
    requires i <= |text|
    ensures i <= end <= |text| && (i < |text| ==> i < end)
    decreases |text| - i
  {
    if i == |text| then i
    else if quote.Some? then TagEnd(text, i + 1, if text[i] == quote.value then None else quote)
    else if IsQuote(text[i]) then TagEnd(text, i + 1, Some(text[i]))
    else if text[i] == '>' then i + 1
    else TagEnd(text, i + 1, None)
  }

  lemma {:induction false} TagIsClosedOrLast(text: string, i: nat, quote: Option<char>)
    requires i <= |text|
    ensures var end := TagEnd(text, i, quote); end < |text| ==> i < end && text[end - 1] == '>'
    decreases |text| - i
  {
    if i < |text| {
      TagIsClosedOrLast(text, i + 1, None);
      TagIsClosedOrLast(text, i + 1, Some(text[i]));
      TagIsClosedOrLast(text, i + 1, quote);
    }
  }

  method FindTagEnd(text: string, start: nat) returns (end: nat)
    requires start < |text|
    ensures end == TagEnd(text, start + 1, None)
  {
    var quote: Option<char> := None;
    var index := start + 1;
    while index < |text|
      invariant start < index <= |text| && TagEnd(text, index, quote) == TagEnd(text, start + 1, None)
    {
      var character := text[index];
      if quote.Some? {
        if character == quote.value {
          quote := None;
        }
      } else if IsQuote(character) {
        quote := Some(character);
      } else if character == '>' {
        return index + 1;
      }
      index := index + 1;
    }
    return |text|;
  }

  // ----- The attributes of a tag -----

  predicate SpaceOrSlash(c: char) { IsSpace(c) || c == '/' }

  predicate NameChar(c: char) { !(IsSpace(c) || c == '=' || c == '>' || c == '/') }

  predicate BareChar(c: char) { !(IsSpace(c) || c == '>') }

  predicate TagNameChar(c: char) {
    'A' <= c <= 'Z' || 'a' <= c <= 'z' || '0' <= c <= '9' || c == ':' || c == '-'
  }

  /** The value that begins at `d`, up to the last character of the tag at most. */
  function ValueAt(text: string, d: nat, end: nat): (v: Value)
    requires d <= end <= |text|
    ensures d <= v.start <= v.end <= end
  {
    var quote := if d < end && IsQuote(text[d]) then Some(text[d]) else None;
    var start := if quote.Some? then d + 1 else d;
    if start + 1 > end then Value(start, start, quote)
    else Value(start, Skip(text, start, end - 1, if quote.Some? then c => c != quote.value else BareChar), quote)
  }

  /** Where reading goes on after a value: past its closing quote. */
  function AfterValue(text: string, v: Value, end: nat): (next: nat)
    requires v.start <= v.end <= end <= |text|
    ensures v.end <= next <= end
  {
    if v.quote.Some? && v.end < end && text[v.end] == v.quote.value then v.end + 1 else v.end
  }

  /** One turn of the loop of lines 718-736. The scan of an attribute name that meets the end of the text
      never ends (line 722). */
  datatype Turn = Stop | Stuck | Pass(next: nat) | Read(attribute: Attribute, next: nat)

  function TurnAt(lower: string -> string, text: string, cursor: nat, end: nat): (turn: Turn)
    requires cursor <= end <= |text|
    ensures turn.Pass? || turn.Read? ==> cursor < turn.next <= end
  {
    var a := Skip(text, cursor, end, SpaceOrSlash);
    if cursor + 1 >= end || a + 1 >= end then Stop
    else
      var b := Skip(text, a, end, NameChar);
      if b == end then Stuck
      else if b == a then Pass(a + 1)
      else
        var c := Skip(text, b, end, IsSpace);
        if c == end || text[c] != '=' then Read(Attribute(lower(text[a..b]), None), c)
        else
          var v := ValueAt(text, Skip(text, c + 1, end, IsSpace), end);
          Read(Attribute(lower(text[a..b]), Some(v)), AfterValue(text, v, end))
  }

  /** The attributes of the tag that ends at `end`, from the cursor on. */
  function Attributes(lower: string -> string, text: string, cursor: nat, end: nat): Parse<seq<Attribute>>
    requires cursor <= end <= |text|
    decreases end - cursor
  {
    match TurnAt(lower, text, cursor, end)
    case Stop => Done([])
    case Stuck => Diverges
    case Pass(next) => Attributes(lower, text, next, end)
    case Read(attribute, next) => Add(attribute, Attributes(lower, text, next, end))
  }

  method ReadValue(text: string, d: nat, end: nat) returns (v: Value)
    requires d <= end <= |text|
    ensures v == ValueAt(text, d, end)
  {
    var quote: Option<char> := None;
    var start := d;
    if d < end && IsQuote(text[d]) {
      quote := Some(text[d]);
      start := d + 1;
    }
    if start + 1 > end {
      return Value(start, start, quote);
    }
    var stop := SkipWhile(text, start, end - 1, if quote.Some? then c => c != quote.value else BareChar);
    return Value(start, stop, quote);
  }

  method ReadAttribute(lower: string -> string, text: string, cursor: nat, end: nat) returns (turn: Turn)
    requires cursor + 1 < end <= |text|
    ensures turn == TurnAt(lower, text, cursor, end)
  {
    hide ValueAt, AfterValue, IsSpace, NameChar, SpaceOrSlash, Skip;
    var nameStart := SkipWhile(text, cursor, end, SpaceOrSlash);
    if nameStart + 1 >= end {
      return Stop;
    }
    var nameEnd := SkipWhile(text, nameStart, end, NameChar);
    if nameEnd == end {
      return Stuck;
    }
    if nameEnd == nameStart {
      return Pass(nameStart + 1);
    }
    var name := lower(text[nameStart..nameEnd]);
    var next := SkipWhile(text, nameEnd, end, IsSpace);
    if next == end || text[next] != '=' {
      return Read(Attribute(name, None), next);
    }
    var from := SkipWhile(text, next + 1, end, IsSpace);
    var v := ReadValue(text, from, end);
    return Read(Attribute(name, Some(v)), AfterValue(text, v, end));
  }

  method ReadAttributes(lower: string -> string, text: string, start: nat, end: nat) returns (r: Parse<seq<Attribute>>)
    requires start <= end <= |text|
    ensures r == Attributes(lower, text, start, end)
  {
    hide TurnAt, Continued;
    var attributes: seq<Attribute> := [];
    var cursor := start;
    ContinuedNone(Attributes(lower, text, start, end));
    while cursor + 1 < end
      invariant start <= cursor <= end
      invariant Continued(attributes, Attributes(lower, text, cursor, end)) == Attributes(lower, text, start, end)
      decreases end - cursor
    {
      var turn := ReadAttribute(lower, text, cursor, end);
      match turn {
        case Stop =>
          ContinuedDone(attributes);
          return Done(attributes);
        case Stuck =>
          StuckDiverges(attributes);
          return Diverges;
        case Pass(next) =>
          cursor := next;
        case Read(attribute, next) =>
          ContinuedAdd(attributes, attribute, Attributes(lower, text, next, end));
          attributes, cursor := attributes + [attribute], next;
      }
    }
    ContinuedDone(attributes);
    LastTurn(lower, text, cursor, end);
    return Done(attributes);
  }

  lemma StuckDiverges<T>(read: seq<T>)
    ensures Continued(read, Diverges).Diverges?
  {
  }

  lemma LastTurn(lower: string -> string, text: string, cursor: nat, end: nat)
    requires cursor <= end <= |text| && cursor + 1 >= end
    ensures TurnAt(lower, text, cursor, end).Stop?
  {
  }

  // ----- Tags and tokens -----

  /** The tag that starts with the `<` at `start` and ends at `end`. */
  function Tag(lower: string -> string, text: string, start: nat, end: nat): Parse<Token>
    requires start < end <= |text|
  {
    if start + 1 < end && (text[start + 1] == '!' || text[start + 1] == '?') then
      Done(Token(start, end, None, [], false))
    else
      var slash := Skip(text, start + 1, end, IsSpace);
      var closing := slash < end && text[slash] == '/';
      var nameStart := if closing then slash + 1 else slash;
      var nameEnd := Skip(text, nameStart, end, TagNameChar);
      if nameEnd == nameStart then Done(Token(start, end, None, [], false))
      else
        var name := lower(text[nameStart..nameEnd]);
        if name == [] then Done(Token(start, end, None, [], false))
        else if closing then Done(Token(start, end, Some(name), [], false))
        else
          var attributes := Attributes(lower, text, nameEnd, end);
          if attributes.Diverges? then Diverges else Done(Token(start, end, Some(name), attributes.result, true))
  }

  method ParseTag(lower: string -> string, text: string, start: nat, end: nat) returns (r: Parse<Token>)
    requires start < end <= |text|
    ensures r == Tag(lower, text, start, end)
  {
    hide IsSpace, TagNameChar, Skip, Attributes;
    if start + 1 < end && (text[start + 1] == '!' || text[start + 1] == '?') {
      return Done(Token(start, end, None, [], false));
    }
    var cursor := SkipWhile(text, start + 1, end, IsSpace);
    var isEndTag := cursor < end && text[cursor] == '/';
    if isEndTag {
      cursor := cursor + 1;
    }
    var tagStart := cursor;
    cursor := SkipWhile(text, tagStart, end, TagNameChar);
    var tagName := lower(text[tagStart..cursor]);
    if cursor == tagStart || tagName == [] {
      return Done(Token(start, end, None, [], false));
    }
    if isEndTag {
      return Done(Token(start, end, Some(tagName), [], false));
    }
    var attributes := ReadAttributes(lower, text, cursor, end);
    if attributes.Diverges? {
      return Diverges;
    }
    return Done(Token(start, end, Some(tagName), attributes.result, true));
  }

  datatype Head = NoTag | EndTag(name: string) | StartTag(name: string, from: nat)

  /** A declaration, a doctype or a processing instruction. */
  predicate MarkAt(text: string, start: nat, end: nat)
    requires end <= |text|
  {
    start + 1 < end && (text[start + 1] == '!' || text[start + 1] == '?')
  }

  /** What a tag is, and where its attributes begin. */
  function HeadAt(lower: string -> string, text: string, start: nat, end: nat): Head
    requires start < end <= |text|
  {
    if MarkAt(text, start, end) then NoTag else HeadFrom(lower, text, Skip(text, start + 1, end, IsSpace), end)
  }

  function HeadFrom(lower: string -> string, text: string, slash: nat, end: nat): Head
    requires slash <= end <= |text|
  {
    var closing := slash < end && text[slash] == '/';
    var nameStart := if closing then slash + 1 else slash;
    var nameEnd := Skip(text, nameStart, end, TagNameChar);
    if nameEnd == nameStart || lower(text[nameStart..nameEnd]) == [] then NoTag
    else if closing then EndTag(lower(text[nameStart..nameEnd]))
    else StartTag(lower(text[nameStart..nameEnd]), nameEnd)
  }

  function HeadedTag(head: Head, attributes: Parse<seq<Attribute>>, start: nat, end: nat): Parse<Token> {
    match head
    case NoTag => Done(Token(start, end, None, [], false))
    case EndTag(name) => Done(Token(start, end, Some(name), [], false))
    case StartTag(name, _) =>
      if attributes.Diverges? then Diverges else Done(Token(start, end, Some(name), attributes.result, true))
  }

  lemma TagByHead(lower: string -> string, text: string, start: nat, end: nat)
    requires start < end <= |text|
    ensures var head := HeadAt(lower, text, start, end);
            && (head.StartTag? ==> start + 1 < head.from <= end)
            && Tag(lower, text, start, end)
               == HeadedTag(head, if head.StartTag? then Attributes(lower, text, head.from, end)
                            else Done([]), start, end)
  {
    hide Attributes, IsSpace, TagNameChar;
  }

  lemma NameStarts(lower: string -> string, text: string, start: nat, end: nat)
    requires start < end <= |text|
    ensures var head := HeadAt(lower, text, start, end); head.StartTag? ==> start + 1 < head.from <= end
  {
    hide Skip, IsSpace, TagNameChar;
  }

  lemma HeadParts(lower: string -> string, text: string, start: nat, end: nat)
    requires start < end <= |text|
    ensures HeadAt(lower, text, start, end)
         == if MarkAt(text, start, end) then NoTag else HeadFrom(lower, text, Skip(text, start + 1, end, IsSpace), end)
  {
  }

  /** Where reading goes on after a token: the content of a script or style element is passed over. */
  function AfterToken(lower: string -> string, text: string, token: Token): (next: nat)
    requires token.end <= |text|
    ensures token.end <= next
  {
    if token.isStartTag && (token.tagName == Some("script") || token.tagName == Some("style")) then
      var close := IndexOf(lower(text), "</" + token.tagName.value, token.end);
      if close.Some? then close.value else |text|
    else token.end
  }

  function AfterComment(text: string, start: nat): (next: nat)
    requires start < |text|
    ensures start < next <= |text|
  {
    var commentEnd := IndexOf(text, "-->", start + 4);
    if commentEnd.None? then |text| else commentEnd.value + 3
  }

  predicate CommentAt(text: string, start: nat) {
    start + 4 <= |text| && text[start..start + 4] == "<!--"
  }

  function Tokens(lower: string -> string, text: string, cursor: nat): Parse<seq<Token>>
    decreases |text| - cursor
  {
    var start := if cursor < |text| then IndexOf(text, "<", cursor) else None;
    if start.None? then Done([])
    else if CommentAt(text, start.value) then Tokens(lower, text, AfterComment(text, start.value))
    else
      var end := TagEnd(text, start.value + 1, None);
      var token := Tag(lower, text, start.value, end);
      if token.Diverges? then Diverges
      else
        TagKeepsPlace(lower, text, start.value, end);
        Add(token.result, Tokens(lower, text, AfterToken(lower, text, token.result)))
  }

  lemma TagKeepsPlace(lower: string -> string, text: string, start: nat, end: nat)
    requires start < end <= |text|
    ensures var t := Tag(lower, text, start, end); t.Done? ==> t.result.start == start && t.result.end == end
  {
  }

  method TokenizeHtml(lower: string -> string, text: string) returns (r: Parse<seq<Token>>)
    ensures r == Tokens(lower, text, 0)
  {
    hide Tag, AfterToken, AfterComment, TagEnd, CommentAt, Continued, Add;
    var tokens: seq<Token> := [];
    var cursor := 0;
    ContinuedNone(Tokens(lower, text, 0));
    while cursor < |text|
      invariant Continued(tokens, Tokens(lower, text, cursor)) == Tokens(lower, text, 0)
      decreases |text| - cursor
    {
      var start := IndexOf(text, "<", cursor);
      if start.None? {
        ContinuedDone(tokens);
        return Done(tokens);
      }
      if CommentAt(text, start.value) {
        cursor := AfterComment(text, start.value);
        continue;
      }
      var end := FindTagEnd(text, start.value);
      var token := ParseTag(lower, text, start.value, end);
      if token.Diverges? {
        StuckDiverges(tokens);
        return Diverges;
      }
      TagKeepsPlace(lower, text, start.value, end);
      cursor := AfterToken(lower, text, token.result);
      ContinuedAdd(tokens, token.result, Tokens(lower, text, cursor));
      tokens := tokens + [token.result];
    }
    ContinuedDone(tokens);
    return Done(tokens);
  }

  // ----- Where the spans lie -----

  /** The values of the attributes lie in order within `lo..hi`, each with a name between it and the one
      before, and the closing `>` after them all if there is one. */
  predicate ValuesOrdered(text: string, attributes: seq<Attribute>, lo: nat, hi: nat) {
    && (forall i :: 0 <= i < |attributes| && attributes[i].value.Some? ==>
          && lo < attributes[i].value.value.start <= attributes[i].value.value.end <= hi
          && (hi < |text| ==> attributes[i].value.value.start < hi))
    && (forall i, j :: 0 <= i < j < |attributes| && attributes[i].value.Some? && attributes[j].value.Some? ==>
          attributes[i].value.value.end < attributes[j].value.value.start)
  }

  predicate ClosedOrLast(text: string, end: nat) {
    0 < end <= |text| && (end < |text| ==> text[end - 1] == '>')
  }

  lemma {:induction false} AttributesOrdered(lower: string -> string, text: string, cursor: nat, end: nat)
    requires cursor <= end && ClosedOrLast(text, end)
    ensures var r := Attributes(lower, text, cursor, end); r.Done? ==> ValuesOrdered(text, r.result, cursor, end)
    decreases end - cursor
  {
    TurnInside(lower, text, cursor, end);
    hide TurnAt;
    match TurnAt(lower, text, cursor, end)
    case Pass(next) => AttributesOrdered(lower, text, next, end);
    case Read(_, next) => AttributesOrdered(lower, text, next, end);
    case _ =>
  }

  lemma TurnInside(lower: string -> string, text: string, cursor: nat, end: nat)
    requires cursor <= end && ClosedOrLast(text, end)
    ensures var turn := TurnAt(lower, text, cursor, end);
            turn.Read? && turn.attribute.value.Some? ==>
              && cursor < turn.attribute.value.value.start <= turn.attribute.value.value.end <= turn.next
              && (end < |text| ==> turn.attribute.value.value.start < end)
  {
    hide ValueAt, AfterValue, IsSpace, Skip;
    var turn := TurnAt(lower, text, cursor, end);
    if turn.Read? && turn.attribute.value.Some? {
      var a := Skip(text, cursor, end, SpaceOrSlash);
      var b := Skip(text, a, end, NameChar);
      var c := Skip(text, b, end, IsSpace);
      ValueBeforeClose(text, c + 1, end);
    }
  }

  lemma ValueBeforeClose(text: string, i: nat, end: nat)
    requires 0 < i <= end <= |text| && !IsQuote(text[i - 1]) && text[i - 1] != '>'
    ensures text[end - 1] == '>' ==> ValueAt(text, Skip(text, i, end, IsSpace), end).start < end
  {
  }

  /** Tokens are tags, in order and apart; their attribute values lie inside them. */
  predicate TokensOrdered(text: string, tokens: seq<Token>, from: nat) {
    && (forall i :: 0 <= i < |tokens| ==>
          && from <= tokens[i].start < tokens[i].end <= |text| && text[tokens[i].start] == '<'
          && ValuesOrdered(text, tokens[i].attributes, tokens[i].start, tokens[i].end))
    && (forall i, j :: 0 <= i < j < |tokens| ==> tokens[i].end <= tokens[j].start)
  }

  lemma TagOrdered(lower: string -> string, text: string, start: nat, end: nat)
    requires start < end && ClosedOrLast(text, end)
    ensures var t := Tag(lower, text, start, end); t.Done? ==> ValuesOrdered(text, t.result.attributes, start, end)
  {
    var slash := Skip(text, start + 1, end, IsSpace);
    var nameStart := if slash < end && text[slash] == '/' then slash + 1 else slash;
    var nameEnd := Skip(text, nameStart, end, TagNameChar);
    AttributesOrdered(lower, text, nameEnd, end);
  }

  lemma {:induction false} TokensAreOrdered(lower: string -> string, text: string, cursor: nat)
    ensures var r := Tokens(lower, text, cursor); r.Done? ==> TokensOrdered(text, r.result, cursor)
    decreases |text| - cursor
  {
    hide Tag, AfterToken, AfterComment, TagEnd, ValuesOrdered, CommentAt;
    var start := if cursor < |text| then IndexOf(text, "<", cursor) else None;
    if start.Some? {
      if CommentAt(text, start.value) {
        TokensAreOrdered(lower, text, AfterComment(text, start.value));
      } else {
        var end := TagEnd(text, start.value + 1, None);
        var token := Tag(lower, text, start.value, end);
        if token.Done? {
          TagKeepsPlace(lower, text, start.value, end);
          TagIsClosedOrLast(text, start.value + 1, None);
          TagOrdered(lower, text, start.value, end);
          assert text[start.value..start.value + 1] == "<";
          TokensAreOrdered(lower, text, AfterToken(lower, text, token.result));
        }
      }
    }
  }
}

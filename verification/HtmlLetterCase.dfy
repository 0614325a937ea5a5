/** The end of a script or style element (packages/archive-core/src/rewrite.ts:756-761), where a change of letter case
    can lengthen the text: the source looks for the closing tag in the lower-cased text, and goes on at the same
    position of the text itself. */
module HtmlLetterCase {
  import opened Options
  import opened Scanner
  import opened Slices
  import opened SplicedText
  import opened HtmlTokens

  /** The text in lower case, each character giving one or more. */
  function Folded(fold: char -> string, text: string): string {
    if text == [] then [] else fold(text[0]) + Folded(fold, text[1..])
  }

  ghost predicate Folds(lower: string -> string, fold: char -> string, text: string) {
    lower(text) == Folded(fold, text) && forall c: char :: |fold(c)| >= 1
  }

  /** No character from `from` to `to` gets longer. */
  predicate NoneGrows(fold: char -> string, text: string, from: nat, to: nat) {
    forall i :: from <= i < to && i < |text| ==> |fold(text[i])| == 1
  }

  lemma {:induction false} FoldedConcat(fold: char -> string, a: string, b: string)
    ensures Folded(fold, a + b) == Folded(fold, a) + Folded(fold, b)
  {
    if a == [] {
      assert a + b == b;
    } else {
      assert (a + b)[1..] == a[1..] + b;
      FoldedConcat(fold, a[1..], b);
    }
  }

  /** A text keeps its length exactly when no character of it gets longer. */
  lemma {:induction false} LengthKeptExactly(fold: char -> string, text: string)
    requires forall c: char :: |fold(c)| >= 1
    ensures |Folded(fold, text)| >= |text|
    ensures |Folded(fold, text)| == |text| <==> NoneGrows(fold, text, 0, |text|)
  {
    if text != [] {
      var rest := text[1..];
      LengthKeptExactly(fold, rest);
      if NoneGrows(fold, text, 0, |text|) {
        forall i | 0 <= i < |rest| ensures |fold(rest[i])| == 1 {
          assert rest[i] == text[i + 1];
        }
      }
      if |fold(text[0])| == 1 && NoneGrows(fold, rest, 0, |rest|) {
        forall i | 0 <= i < |text| ensures |fold(text[i])| == 1 {
          assert i > 0 ==> text[i] == rest[i - 1];
        }
      }
    }
  }

  /** The lower case of what follows a token has its first closing tag where the character at `close` stands. */
  predicate ClosesAt(fold: char -> string, text: string, token: Token, close: nat) {
    && token.end <= close <= |text| && token.tagName.Some?
    && IndexOf(Folded(fold, text[token.end..]), "</" + token.tagName.value, 0)
         == Some(|Folded(fold, text[token.end..close])|)
  }

  predicate RawToken(token: Token) {
    token.isStartTag && (token.tagName == Some("script") || token.tagName == Some("style"))
  }

  lemma FoundInTail(head: string, tail: string, needle: string)
    requires IndexOf(tail, needle, 0).Some?
    ensures IndexOf(head + tail, needle, |head|) == Some(IndexOf(tail, needle, 0).value + |head|)
  {
    hide IndexOf, Moves, LiesAt;
    TailMoves(head, tail);
    FoundInside(tail, needle);
    IndexMoves(tail, head + tail, needle, 0, |tail|, |head|);
  }

  lemma TailMoves(head: string, tail: string)
    ensures Moves(tail, 0, |tail|, head + tail, |head|)
  {
  }

  lemma FoundInside(text: string, needle: string)
    requires IndexOf(text, needle, 0).Some?
    ensures IndexOf(text, needle, 0).value + |needle| <= |text|
  {
  }

  /** Where no character up to the end of the token gets longer: reading goes on past the closing tag's place by as much
      as the content of the element gets longer. */
  lemma GoesOnPastTheClose(lower: string -> string, fold: char -> string, text: string, token: Token, close: nat)
    requires Folds(lower, fold, text) && RawToken(token) && token.end <= |text|
    requires NoneGrows(fold, text, 0, token.end) && ClosesAt(fold, text, token, close)
    ensures AfterToken(lower, text, token) == token.end + |Folded(fold, text[token.end..close])|
  {
    var head, tail := text[..token.end], text[token.end..];
    assert text == head + tail;
    FoldedConcat(fold, head, tail);
    LengthKeptExactly(fold, head);
    assert NoneGrows(fold, head, 0, |head|);
    FoundInTail(Folded(fold, head), Folded(fold, tail), "</" + token.tagName.value);
  }

  /** Then the closing tag is found where it is exactly when no character of the content gets longer. */
  lemma CloseFoundExactly(lower: string -> string, fold: char -> string, text: string, token: Token, close: nat)
    requires Folds(lower, fold, text) && RawToken(token) && token.end <= |text|
    requires NoneGrows(fold, text, 0, token.end) && ClosesAt(fold, text, token, close)
    ensures close <= AfterToken(lower, text, token)
    ensures AfterToken(lower, text, token) == close <==> NoneGrows(fold, text, token.end, close)
  {
    var content := text[token.end..close];
    GoesOnPastTheClose(lower, fold, text, token, close);
    LengthKeptExactly(fold, content);
    if NoneGrows(fold, content, 0, |content|) {
      forall i | token.end <= i < close ensures |fold(text[i])| == 1 {
        assert content[i - token.end] == text[i];
      }
    }
    if NoneGrows(fold, text, token.end, close) {
      forall i | 0 <= i < |content| ensures |fold(content[i])| == 1 {
        assert content[i] == text[token.end + i];
      }
    }
  }

  // ----- A page that loses a tag -----

  /** A capital I with a dot becomes a small i and a combining dot. */
  function Dotted(c: char): string {
    if c == '\U{0130}' then "i\U{0307}" else [c]
  }

  function DottedLower(text: string): string {
    Folded(Dotted, text)
  }

  /** A script element with ten such letters, and a link after it. */
  function Page(): (page: string)
    ensures |page| == 30 && page[..8] == "<script>" && page[18..27] == "</script>" && page[27..] == "<a>"
    ensures forall k :: 8 <= k < 18 ==> page[k] == '\U{0130}'
  {
    "<script>" + seq(10, _ => '\U{0130}') + "</script>" + "<a>"
  }

  lemma {:induction false} PlainStays(text: string)
    requires forall k :: 0 <= k < |text| ==> text[k] != '\U{0130}'
    ensures DottedLower(text) == text
  {
    if text != [] {
      PlainStays(text[1..]);
      assert text == [text[0]] + text[1..];
    }
  }

  lemma {:induction false} DottedGrows(text: string)
    requires forall k :: 0 <= k < |text| ==> text[k] == '\U{0130}'
    ensures |DottedLower(text)| == 2 * |text| && '<' !in DottedLower(text)
  {
    if text != [] {
      DottedGrows(text[1..]);
    }
  }

  lemma ScriptChars()
    ensures var page := Page();
            && page[0] == '<' && page[1..7] == "script" && page[7] == '>'
            && (forall k :: 1 <= k < 7 ==> TagNameChar(page[k]) && !IsSpace(page[k]) && !IsQuote(page[k]))
            && page[1] != '!' && page[1] != '?' && page[1] != '/' && (forall k :: 1 <= k < 7 ==> page[k] != '>')
  {
    var page, open := Page(), "<script>";
    forall k | 0 <= k < 8 ensures page[k] == open[k] {
      assert page[..8][k] == page[k];
    }
    assert page[1..7] == page[..8][1..7] == "script";
  }

  lemma ScriptHead()
    ensures HeadAt(DottedLower, Page(), 0, 8) == StartTag("script", 7)
    ensures Attributes(DottedLower, Page(), 7, 8) == Done([])
  {
    hide Page, TagNameChar, SpaceOrSlash, Folded, IsSpace, Skip, TurnAt, HeadAt;
    ScriptChars();
    PlainStays("script");
    SkipIs(Page(), 1, 8, IsSpace, 1);
    LastNameChar();
    SkipIs(Page(), 1, 8, TagNameChar, 7);
    HeadParts(DottedLower, Page(), 0, 8);
    NoAttribute(Page(), 7, 8);
  }

  lemma NoAttribute(text: string, cursor: nat, end: nat)
    requires end == cursor + 1 <= |text|
    ensures Attributes(DottedLower, text, cursor, end) == Done([])
  {
  }

  lemma LastNameChar()
    ensures !TagNameChar('>')
  {
  }

  lemma ScriptTag()
    ensures Tag(DottedLower, Page(), 0, 8) == Done(Token(0, 8, Some("script"), [], true))
  {
    hide Page, Tag, HeadAt, Attributes;
    ScriptHead();
    TagByHead(DottedLower, Page(), 0, 8);
  }

  lemma {:induction false} PlainTagEnd(text: string, i: nat, end: nat)
    requires i < end <= |text| && text[end - 1] == '>'
    requires forall k :: i <= k < end - 1 ==> !IsQuote(text[k]) && text[k] != '>'
    ensures TagEnd(text, i, None) == end
    decreases end - i
  {
    if i < end - 1 {
      PlainTagEnd(text, i + 1, end);
    }
  }

  const SCRIPT := Token(0, 8, Some("script"), [], true)

  lemma IndexAt(text: string, needle: string, from: nat, at: nat)
    requires from <= at <= |text| && LiesAt(text, at, needle) && needle != []
    requires forall k :: from <= k < at ==> text[k] != needle[0]
    ensures IndexOf(text, needle, from) == Some(at)
  {
    IndexSkips(text, needle, from, at);
  }

  /** What follows the content of the script. */
  function AfterContent(): (rest: string)
    ensures rest == "</script><a>"
  {
    "</script><a>"
  }

  lemma CloseAfter(lowered: string)
    requires |lowered| == 20 && '<' !in lowered
    ensures IndexOf(lowered + AfterContent(), "</script", 0) == Some(20)
  {
    var text, needle := lowered + AfterContent(), "</script";
    assert text[20..28] == AfterContent()[..8] == needle;
    hide IndexOf;
    IndexAt(text, needle, 0, 20);
  }

  lemma PageParts()
    ensures Page()[8..] == Page()[8..18] + AfterContent()
  {
    var page := Page();
    assert AfterContent() == "</script>" + "<a>";
    assert page[18..] == page[18..27] + page[27..];
    assert page[8..] == page[8..18] + page[18..];
  }

  lemma AfterContentStays()
    ensures Folded(Dotted, AfterContent()) == AfterContent()
  {
    hide Folded;
    PlainStays(AfterContent());
  }

  lemma ClosesInTail(fold: char -> string, text: string, token: Token, close: nat, rest: string)
    requires token.end <= close <= |text| && token.tagName.Some?
    requires text[token.end..] == text[token.end..close] + rest && Folded(fold, rest) == rest
    requires var lowered := Folded(fold, text[token.end..close]);
             IndexOf(lowered + rest, "</" + token.tagName.value, 0) == Some(|lowered|)
    ensures ClosesAt(fold, text, token, close)
  {
    FoldedConcat(fold, text[token.end..close], rest);
  }

  /** The closing tag is at position 18. */
  lemma ScriptCloses()
    ensures ClosesAt(Dotted, Page(), SCRIPT, 18) && |Folded(Dotted, Page()[8..18])| == 20
  {
    DottedGrows(Page()[8..18]);
    hide Page, Folded, IndexOf, ClosesAt, LiesAt, AfterContent;
    PageParts();
    AfterContentStays();
    CloseAfter(Folded(Dotted, Page()[8..18]));
    NeedleIs();
    ClosesInTail(Dotted, Page(), SCRIPT, 18, AfterContent());
  }

  lemma NeedleIs()
    ensures "</" + "script" == "</script"
  {
  }

  lemma GoesOnAt28()
    ensures AfterToken(DottedLower, Page(), SCRIPT) == 28
  {
    ScriptCloses();
    assert NoneGrows(Dotted, Page(), 0, 8) by { ScriptChars(); }
    hide Page, Folded, IndexOf, NoneGrows, AfterToken, ClosesAt;
    GoesOnPastTheClose(DottedLower, Dotted, Page(), SCRIPT, 18);
  }

  /** Reading goes on inside the link, at position 28, and only the script is seen. */
  lemma LinkIsLost()
    ensures AfterToken(DottedLower, Page(), SCRIPT) == 28 && Page()[27..] == "<a>"
    ensures Tokens(DottedLower, Page(), 0) == Done([SCRIPT])
  {
    hide Page, Tag, AfterToken, TagEnd, Folded, IndexOf;
    ScriptChars();
    GoesOnAt28();
    PlainTagEnd(Page(), 1, 8);
    ScriptTag();
    PageOpens();
    assert Tokens(DottedLower, Page(), 28) == Done([]);
    assert [SCRIPT] + [] == [SCRIPT];
  }

  lemma PageOpens()
    ensures IndexOf(Page(), "<", 0) == Some(0) && IndexOf(Page(), "<", 28) == None && !CommentAt(Page(), 0)
  {
    var page := Page();
    assert page[28] == page[27..][1] && page[29] == page[27..][2];
    assert page[0..4][1] == page[..8][1];
    assert page[0] == page[..8][0];
    assert page[0..1] == "<";
    IndexAt(page, "<", 0, 0);
    NothingFrom(page, 28);
  }

  lemma {:induction false} NothingFrom(text: string, from: nat)
    requires from <= |text| && forall k :: from <= k < |text| ==> text[k] != '<'
    ensures IndexOf(text, "<", from).None?
  {
    IndexSkips(text, "<", from, |text|);
  }
}

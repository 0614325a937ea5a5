/** Printed pages, and what the tokenizer reads of them (packages/archive-core/src/rewrite.ts:691-765). */
module HtmlPages {
  import opened Options
  import opened Scanner
  import opened Slices
  import opened SplicedText
  import opened HtmlTokens
  import opened HtmlRoundTrip
  import opened HtmlDocument

  /** An end tag. */
  datatype Closing = Closing(lead: string, name: string, rest: string)

  /** A part of a page: text, a comment, a declaration or processing instruction, a start tag, an end tag, or a script
      or style element with its content. */
  datatype Part =
    | Text(text: string)
    | Comment(text: string)
    | Declaration(mark: char, text: string)
    | Open(tag: Opening)
    | Close(closing: Closing)
    | Element(tag: Opening, content: string, closing: Closing)

  /** How a page ends: with all of its parts closed, in a comment, or in a script or style element. */
  datatype Ending = Closed | InComment(text: string) | InElement(tag: Opening, content: string)

  function PrintClose(c: Closing): string {
    "<" + (c.lead + ("/" + (c.name + (c.rest + ">"))))
  }

  function PrintPart(part: Part): string {
    match part
    case Text(text) => text
    case Comment(text) => "<!--" + (text + "-->")
    case Declaration(mark, text) => "<" + ([mark] + (text + ">"))
    case Open(tag) => PrintTag(tag)
    case Close(closing) => PrintClose(closing)
    case Element(tag, content, closing) => PrintTag(tag) + (content + PrintClose(closing))
  }

  function PrintEnding(ending: Ending): string {
    match ending
    case Closed => []
    case InComment(text) => "<!--" + text
    case InElement(tag, content) => PrintTag(tag) + content
  }

  function Print(parts: seq<Part>, ending: Ending): string {
    if parts == [] then PrintEnding(ending) else PrintPart(parts[0]) + Print(parts[1..], ending)
  }

  predicate RawName(lower: string -> string, name: string) {
    lower(name) == "script" || lower(name) == "style"
  }

  function Folded(fold: char -> char, text: string): (r: string)
    ensures |r| == |text| && forall i :: 0 <= i < |text| ==> r[i] == fold(text[i])
  {
    seq(|text|, i requires 0 <= i < |text| => fold(text[i]))
  }

  /** Text that cannot end a tag. */
  predicate Inside(text: string) {
    forall i :: 0 <= i < |text| ==> !IsQuote(text[i]) && text[i] != '>'
  }

  predicate PrintableClose(lower: string -> string, c: Closing) {
    && Spaces(c.lead) && AnyTagName(lower, c.name) && Inside(c.rest)
    && (c.rest != [] ==> !TagNameChar(c.rest[0]))
  }

  /** A part that can be written so: text without a tag, a comment that ends where it should, a declaration that is no
      comment, and content that does not close its element. */
  predicate Writable(lower: string -> string, fold: char -> char, part: Part) {
    match part
    case Text(text) => '<' !in text
    case Comment(text) => IndexOf(text + "-->", "-->", 0) == Some(|text|)
    case Declaration(mark, text) => (mark == '!' || mark == '?') && Inside(text) && !("--" <= text)
    case Open(tag) => PrintableTag(lower, tag) && !RawName(lower, tag.name)
    case Close(closing) => PrintableClose(lower, closing)
    case Element(tag, content, closing) =>
      && PrintableTag(lower, tag) && RawName(lower, tag.name) && PrintableClose(lower, closing)
      && IndexOf(Folded(fold, content + PrintClose(closing)), "</" + lower(tag.name), 0) == Some(|content|)
  }

  predicate WritableEnding(lower: string -> string, fold: char -> char, ending: Ending) {
    match ending
    case Closed => true
    case InComment(text) => IndexOf(text, "-->", 0).None?
    case InElement(tag, content) =>
      && PrintableTag(lower, tag) && RawName(lower, tag.name)
      && IndexOf(Folded(fold, content), "</" + lower(tag.name), 0).None?
  }

  function CloseToken(lower: string -> string, c: Closing, at: nat): Token {
    Token(at, at + |PrintClose(c)|, Some(lower(c.name)), [], false)
  }

  /** The tags of a part that is printed at `at`. */
  function TagsOf(lower: string -> string, part: Part, at: nat): seq<Token> {
    match part
    case Declaration(_, _) => [Token(at, at + |PrintPart(part)|, None, [], false)]
    case Open(tag) => [OpenToken(lower, tag, at)]
    case Close(closing) => [CloseToken(lower, closing, at)]
    case Element(tag, content, closing) =>
      [OpenToken(lower, tag, at), CloseToken(lower, closing, at + |PrintTag(tag)| + |content|)]
    case _ => []
  }

  function AllTags(lower: string -> string, parts: seq<Part>, ending: Ending, at: nat): seq<Token> {
    if parts == [] then
      if ending.InElement? then [OpenToken(lower, ending.tag, at)] else []
    else TagsOf(lower, parts[0], at) + AllTags(lower, parts[1..], ending, at + |PrintPart(parts[0])|)
  }

  // ----- One tag in a page -----

  lemma OpenRead(lower: string -> string, page: string, at: nat, tag: Opening)
    requires LiesAt(page, at, PrintTag(tag)) && PrintableTag(lower, tag)
    ensures var token := OpenToken(lower, tag, at);
            && token.end == at + |PrintTag(tag)| <= |page|
            && Tokens(lower, page, at) == Add(token, Tokens(lower, page, AfterToken(lower, page, token)))
  {
    hide AttributesOf, PrintTag, LiesAt, Tag, TagEnd, AfterToken, Tokens, CommentAt, IndexOf, PrintableTag;
    TagReadThere(lower, page, at, tag);
    OpeningAt(page, at);
    TokensStep(lower, page, at, at, at + |PrintTag(tag)|, OpenToken(lower, tag, at));
  }

  lemma OpeningAt(page: string, at: nat)
    requires at < |page| && page[at] == '<'
    ensures IndexOf(page, "<", at) == Some(at)
    ensures at + 1 < |page| && page[at + 1] != '!' ==> !CommentAt(page, at)
  {
    assert page[at..at + 1] == "<";
    if at + 4 <= |page| {
      assert page[at..at + 4][1] == page[at + 1];
    }
  }

  lemma CloseStands(page: string, at: nat, c: Closing)
    requires LiesAt(page, at, PrintClose(c))
    ensures var slash := at + 1 + |c.lead|;
            var stop := slash + 1 + |c.name|;
            && Stands(page, at, "<") && Stands(page, at + 1, c.lead) && Stands(page, slash, "/")
            && Stands(page, slash + 1, c.name) && page[slash + 1..stop] == c.name
            && Stands(page, stop, c.rest) && Stands(page, stop + |c.rest|, ">")
            && stop + |c.rest| + 1 == at + |PrintClose(c)|
  {
    hide LiesAt, Stands;
    var after := "/" + (c.name + (c.rest + ">"));
    PartsLie(page, at, "<", c.lead + after);
    PartsLie(page, at + 1, c.lead, after);
    LiesStands(page, at, "<");
    LiesStands(page, at + 1, c.lead);
    AfterSlash(page, at + 1 + |c.lead|, c);
  }

  lemma AfterSlash(page: string, slash: nat, c: Closing)
    requires LiesAt(page, slash, "/" + (c.name + (c.rest + ">")))
    ensures var stop := slash + 1 + |c.name|;
            && Stands(page, slash, "/") && Stands(page, slash + 1, c.name) && page[slash + 1..stop] == c.name
            && Stands(page, stop, c.rest) && Stands(page, stop + |c.rest|, ">")
  {
    hide LiesAt, Stands;
    var stop := slash + 1 + |c.name|;
    PartsLie(page, slash, "/", c.name + (c.rest + ">"));
    PartsLie(page, slash + 1, c.name, c.rest + ">");
    PartsLie(page, stop, c.rest, ">");
    LiesStands(page, slash, "/");
    LiesStands(page, slash + 1, c.name);
    LiesStands(page, stop, c.rest);
    LiesStands(page, stop + |c.rest|, ">");
  }

  lemma CloseReadThere(lower: string -> string, page: string, at: nat, c: Closing)
    requires LiesAt(page, at, PrintClose(c)) && PrintableClose(lower, c)
    ensures var end := at + |PrintClose(c)|;
            && end <= |page| && TagEnd(page, at + 1, None) == end
            && Tag(lower, page, at, end) == Done(CloseToken(lower, c, at))
            && page[at] == '<' && at + 1 < end && page[at + 1] != '!'
  {
    hide LiesAt, Tag, Skip, TagEnd, PrintClose, IsSpace, TagNameChar, IsQuote;
    CloseStands(page, at, c);
    var slash, end := at + 1 + |c.lead|, at + |PrintClose(c)|;
    var stop := slash + 1 + |c.name|;
    CloseEnds(lower, page, at, c);
    CharacterKinds(page[at + 1]);
    CharacterKinds('/');
    Skips(page, at + 1, end, c.lead, IsSpace);
    Skips(page, slash + 1, end, c.name, TagNameChar);
    HeadParts(lower, page, at, end);
    TagByHead(lower, page, at, end);
  }

  lemma CloseEnds(lower: string -> string, page: string, at: nat, c: Closing)
    requires LiesAt(page, at, PrintClose(c)) && PrintableClose(lower, c)
    ensures TagEnd(page, at + 1, None) == at + |PrintClose(c)|
  {
    hide LiesAt, TagEnd, PrintClose, IsSpace, TagNameChar, IsQuote;
    CloseStands(page, at, c);
    var slash := at + 1 + |c.lead|;
    KindsPlain(c.lead);
    PartPlain(page, at + 1, c.lead);
    SlashIsPlain(page, slash);
    forall i | 0 <= i < |c.name| ensures !IsQuote(c.name[i]) && c.name[i] != '>' {
      CharacterKinds(c.name[i]);
    }
    PartPlain(page, slash + 1, c.name);
    PartPlain(page, slash + 1 + |c.name|, c.rest);
    BracketEnds(page, slash + 1 + |c.name| + |c.rest|);
  }

  lemma SlashIsPlain(page: string, slash: nat)
    requires Stands(page, slash, "/")
    ensures TagEnd(page, slash, None) == TagEnd(page, slash + 1, None)
  {
  }

  lemma BracketEnds(page: string, k: nat)
    requires Stands(page, k, ">")
    ensures TagEnd(page, k, None) == k + 1
  {
  }

  lemma CloseRead(lower: string -> string, page: string, at: nat, c: Closing)
    requires LiesAt(page, at, PrintClose(c)) && PrintableClose(lower, c)
    ensures var next := at + |PrintClose(c)|;
            && next <= |page| && Tokens(lower, page, at) == Add(CloseToken(lower, c, at), Tokens(lower, page, next))
  {
    hide LiesAt, Tag, TagEnd, Tokens, CommentAt, IndexOf, PrintClose, PrintableClose;
    CloseReadThere(lower, page, at, c);
    OpeningAt(page, at);
    TokensStep(lower, page, at, at, at + |PrintClose(c)|, CloseToken(lower, c, at));
  }

  // ----- A declaration, a comment, text -----

  lemma DeclarationRead(lower: string -> string, page: string, at: nat, mark: char, text: string)
    requires LiesAt(page, at, PrintPart(Declaration(mark, text)))
    requires (mark == '!' || mark == '?') && Inside(text) && !("--" <= text)
    ensures var next := at + |text| + 3;
            && next <= |page|
            && Tokens(lower, page, at) == Add(Token(at, next, None, [], false), Tokens(lower, page, next))
  {
    hide LiesAt, Tag, TagEnd, Tokens, CommentAt, IndexOf, Stands;
    var next := at + |text| + 3;
    DeclarationStands(page, at, mark, text);
    DeclarationEnds(page, at, mark, text);
    OpeningAt(page, at);
    NoComment(page, at, mark, text);
    DeclarationIsNoTag(lower, page, at, next);
    TokensStep(lower, page, at, at, next, Token(at, next, None, [], false));
  }

  lemma DeclarationStands(page: string, at: nat, mark: char, text: string)
    requires LiesAt(page, at, PrintPart(Declaration(mark, text)))
    ensures Stands(page, at, "<") && Stands(page, at + 1, [mark]) && Stands(page, at + 2, text)
    ensures Stands(page, at + 2 + |text|, ">")
    ensures at + 3 + |text| <= |page| && page[at] == '<' && page[at + 1] == mark
  {
    hide LiesAt;
    PartsLie(page, at, "<", [mark] + (text + ">"));
    PartsLie(page, at + 1, [mark], text + ">");
    PartsLie(page, at + 2, text, ">");
    LiesStands(page, at, "<");
    LiesStands(page, at + 1, [mark]);
    LiesStands(page, at + 2, text);
    LiesStands(page, at + 2 + |text|, ">");
  }

  lemma DeclarationEnds(page: string, at: nat, mark: char, text: string)
    requires Stands(page, at + 1, [mark]) && Stands(page, at + 2, text) && Stands(page, at + 2 + |text|, ">")
    requires (mark == '!' || mark == '?') && Inside(text)
    ensures TagEnd(page, at + 1, None) == at + 3 + |text|
  {
    hide TagEnd;
    PartPlain(page, at + 1, [mark]);
    PartPlain(page, at + 2, text);
    BracketEnds(page, at + 2 + |text|);
  }

  lemma NoComment(page: string, at: nat, mark: char, text: string)
    requires Stands(page, at + 1, [mark]) && Stands(page, at + 2, text) && Stands(page, at + 2 + |text|, ">")
    requires !("--" <= text)
    ensures !CommentAt(page, at)
  {
    if at + 4 <= |page| {
      var four := page[at..at + 4];
      assert four[2] == page[at + 2] && four[3] == page[at + 3];
      if |text| >= 2 {
        assert text[..2] == [text[0], text[1]];
      }
    }
  }

  lemma DeclarationIsNoTag(lower: string -> string, page: string, at: nat, next: nat)
    requires at + 1 < next <= |page| && (page[at + 1] == '!' || page[at + 1] == '?')
    ensures Tag(lower, page, at, next) == Done(Token(at, next, None, [], false))
  {
  }

  lemma CommentRead(lower: string -> string, page: string, at: nat, text: string)
    requires LiesAt(page, at, "<!--" + (text + "-->")) && IndexOf(text + "-->", "-->", 0) == Some(|text|)
    ensures var next := at + |text| + 7;
            next <= |page| && Tokens(lower, page, at) == Tokens(lower, page, next)
  {
    hide LiesAt, Tokens, IndexOf, CommentAt, Moves;
    var inside := text + "-->";
    PartsLie(page, at, "<!--", inside);
    CommentIsThere(page, at);
    OpeningAt(page, at);
    InsideMoves(page, at + 4, inside);
    IndexMoves(inside, page, "-->", 0, |inside|, at + 4);
    CommentStep(lower, page, at, at);
  }

  lemma CommentIsThere(page: string, at: nat)
    requires LiesAt(page, at, "<!--")
    ensures at + 4 <= |page| && CommentAt(page, at) && page[at] == '<'
  {
    ElementsThere(page, at, "<!--");
  }

  lemma InsideMoves(page: string, at: nat, part: string)
    requires LiesAt(page, at, part)
    ensures Moves(part, 0, |part|, page, at) && at + |part| <= |page|
  {
    ElementsThere(page, at, part);
  }

  /** A comment that is not closed is the end of the page. */
  lemma OpenCommentRead(lower: string -> string, page: string, at: nat, text: string)
    requires LiesAt(page, at, "<!--" + text) && at + 4 + |text| == |page| && IndexOf(text, "-->", 0).None?
    ensures Tokens(lower, page, at) == Done([])
  {
    hide LiesAt, Tokens, IndexOf, CommentAt, Moves;
    PartsLie(page, at, "<!--", text);
    CommentIsThere(page, at);
    OpeningAt(page, at);
    InsideMoves(page, at + 4, text);
    NoIndexMoves(text, page, "-->", 0, at + 4);
    CommentStep(lower, page, at, at);
    NothingRead(lower, page, |page|);
  }

  lemma TextRead(lower: string -> string, page: string, at: nat, text: string)
    requires LiesAt(page, at, text) && '<' !in text
    ensures at + |text| <= |page| && Tokens(lower, page, at) == Tokens(lower, page, at + |text|)
  {
    hide Tokens;
    LiesStands(page, at, text);
    forall k | at <= k < at + |text| ensures page[k] != '<' {
      assert page[k] == text[k - at];
    }
    TextSkipped(lower, page, at, at + |text|);
  }

  // ----- A script or style element -----

  lemma TailFolds(lower: string -> string, fold: char -> char, page: string, from: nat, tail: string)
    requires LiesAt(page, from, tail) && LowersCharwise(lower, fold, page)
    ensures Moves(Folded(fold, tail), 0, |tail|, lower(page), from) && |lower(page)| == |page|
  {
    ElementsThere(page, from, tail);
    forall k | 0 <= k < |tail| ensures lower(page)[k + from] == Folded(fold, tail)[k] {
      assert page[from + k] == tail[k];
    }
  }

  /** The content of the element is passed over, up to its closing tag. */
  lemma ContentPassed(lower: string -> string, fold: char -> char, page: string, at: nat, tag: Opening, content: string,
                      closing: Closing)
    requires LiesAt(page, at, PrintPart(Element(tag, content, closing)))
    requires Writable(lower, fold, Element(tag, content, closing)) && LowersCharwise(lower, fold, page)
    ensures AfterToken(lower, page, OpenToken(lower, tag, at)) == at + |PrintTag(tag)| + |content|
  {
    var tail := content + PrintClose(closing);
    var from := at + |PrintTag(tag)|;
    hide LiesAt, PrintTag, PrintClose, IndexOf, LowersCharwise, AttributesOf, Moves, PrintableTag, PrintableClose;
    PartsLie(page, at, PrintTag(tag), tail);
    TailFolds(lower, fold, page, from, tail);
    IndexInside(Folded(fold, tail), "</" + lower(tag.name));
    IndexMoves(Folded(fold, tail), lower(page), "</" + lower(tag.name), 0, |tail|, from);
  }

  lemma IndexInside(text: string, needle: string)
    requires IndexOf(text, needle, 0).Some?
    ensures IndexOf(text, needle, 0).value + |needle| <= |text|
  {
  }

  lemma ElementRead(lower: string -> string, fold: char -> char, page: string, at: nat, tag: Opening, content: string,
                    closing: Closing)
    requires LiesAt(page, at, PrintPart(Element(tag, content, closing)))
    requires Writable(lower, fold, Element(tag, content, closing)) && LowersCharwise(lower, fold, page)
    ensures var end := at + |PrintTag(tag)| + |content|;
            var next := end + |PrintClose(closing)|;
            && next <= |page|
            && Tokens(lower, page, at)
               == Add(OpenToken(lower, tag, at), Add(CloseToken(lower, closing, end), Tokens(lower, page, next)))
  {
    hide LiesAt, Tokens, AfterToken, PrintTag, PrintClose, OpenToken, CloseToken, LowersCharwise, PrintableTag,
         PrintableClose, IndexOf;
    ContentPassed(lower, fold, page, at, tag, content, closing);
    PartsLie(page, at, PrintTag(tag), content + PrintClose(closing));
    PartsLie(page, at + |PrintTag(tag)|, content, PrintClose(closing));
    OpenRead(lower, page, at, tag);
    CloseRead(lower, page, at + |PrintTag(tag)| + |content|, closing);
  }

  /** An element that is not closed is the end of the page. */
  lemma OpenElementRead(lower: string -> string, fold: char -> char, page: string, at: nat, tag: Opening,
                        content: string)
    requires LiesAt(page, at, PrintTag(tag) + content) && at + |PrintTag(tag)| + |content| == |page|
    requires WritableEnding(lower, fold, InElement(tag, content)) && LowersCharwise(lower, fold, page)
    ensures Tokens(lower, page, at) == Done([OpenToken(lower, tag, at)])
  {
    hide LiesAt, PrintTag, Tokens, IndexOf, LowersCharwise, AttributesOf, Moves, PrintableTag;
    var from := at + |PrintTag(tag)|;
    PartsLie(page, at, PrintTag(tag), content);
    OpenRead(lower, page, at, tag);
    TailFolds(lower, fold, page, from, content);
    NoIndexMoves(Folded(fold, content), lower(page), "</" + lower(tag.name), 0, from);
    NothingRead(lower, page, |page|);
    assert [OpenToken(lower, tag, at)] + [] == [OpenToken(lower, tag, at)];
  }

  // ----- Pages -----

  /** The tags of a part, and then what is read after it. */
  function Followed(tags: seq<Token>, rest: Parse<seq<Token>>): Parse<seq<Token>> {
    if rest.Done? then Done(tags + rest.result) else Diverges
  }

  predicate AllWritable(lower: string -> string, fold: char -> char, parts: seq<Part>) {
    forall i :: 0 <= i < |parts| ==> Writable(lower, fold, parts[i])
  }

  lemma PartRead(lower: string -> string, fold: char -> char, page: string, at: nat, part: Part)
    requires LiesAt(page, at, PrintPart(part)) && Writable(lower, fold, part)
    requires part.Element? ==> LowersCharwise(lower, fold, page)
    ensures var next := at + |PrintPart(part)|;
            && next <= |page|
            && Tokens(lower, page, at) == Followed(TagsOf(lower, part, at), Tokens(lower, page, next))
  {
    hide LiesAt, Tokens, AfterToken, OpenToken, CloseToken, PrintTag, PrintClose, LowersCharwise, IndexOf, PrintableTag,
         PrintableClose;
    var next := at + |PrintPart(part)|;
    var rest := Tokens(lower, page, next);
    if rest.Done? {
      assert [] + rest.result == rest.result;
    }
    match part
    case Text(text) => TextRead(lower, page, at, text);
    case Comment(text) => CommentRead(lower, page, at, text);
    case Declaration(mark, text) => DeclarationRead(lower, page, at, mark, text);
    case Open(tag) =>
      OpenRead(lower, page, at, tag);
      OpenGoesOn(lower, page, at, tag);
    case Close(closing) => CloseRead(lower, page, at, closing);
    case Element(tag, content, closing) =>
      ElementRead(lower, fold, page, at, tag, content, closing);
      TwoAdded(OpenToken(lower, tag, at), CloseToken(lower, closing, at + |PrintTag(tag)| + |content|), rest);
  }

  lemma TwoAdded(a: Token, b: Token, rest: Parse<seq<Token>>)
    ensures Add(a, Add(b, rest)) == Followed([a, b], rest)
  {
    if rest.Done? {
      assert [a] + ([b] + rest.result) == [a, b] + rest.result;
    }
  }

  lemma OpenGoesOn(lower: string -> string, page: string, at: nat, tag: Opening)
    requires !RawName(lower, tag.name) && OpenToken(lower, tag, at).end <= |page|
    ensures AfterToken(lower, page, OpenToken(lower, tag, at)) == at + |PrintTag(tag)|
  {
  }

  /** The page has a script or style element, closed or not. */
  predicate HasElement(parts: seq<Part>, ending: Ending) {
    ending.InElement? || exists i :: 0 <= i < |parts| && parts[i].Element?
  }

  lemma FirstLies(page: string, at: nat, printed: string, rest: string)
    requires at <= |page| && page[at..] == printed + rest
    ensures at + |printed| <= |page| && LiesAt(page, at, printed) && page[at + |printed|..] == rest
  {
    assert page[at..at + |printed|] == page[at..][..|printed|];
    assert page[at + |printed|..] == page[at..][|printed|..];
  }

  lemma {:induction false} PartsRead(lower: string -> string, fold: char -> char, page: string, at: nat,
                                     parts: seq<Part>, ending: Ending)
    requires AllWritable(lower, fold, parts) && WritableEnding(lower, fold, ending)
    requires at <= |page| && page[at..] == Print(parts, ending)
    requires HasElement(parts, ending) ==> LowersCharwise(lower, fold, page)
    ensures Tokens(lower, page, at) == Done(AllTags(lower, parts, ending, at))
    decreases |parts|
  {
    hide Tokens, PrintPart, TagsOf, Writable, LiesAt, LowersCharwise, PrintEnding, WritableEnding, OpenToken;
    if parts == [] {
      EndingRead(lower, fold, page, at, ending);
    } else {
      FirstLies(page, at, PrintPart(parts[0]), Print(parts[1..], ending));
      assert Writable(lower, fold, parts[0]);
      PartRead(lower, fold, page, at, parts[0]);
      ElementsLater(parts, ending);
      PartsRead(lower, fold, page, at + |PrintPart(parts[0])|, parts[1..], ending);
    }
  }

  lemma EndingRead(lower: string -> string, fold: char -> char, page: string, at: nat, ending: Ending)
    requires WritableEnding(lower, fold, ending) && at <= |page| && page[at..] == PrintEnding(ending)
    requires ending.InElement? ==> LowersCharwise(lower, fold, page)
    ensures Tokens(lower, page, at) == Done(AllTags(lower, [], ending, at))
  {
    hide Tokens, LiesAt, LowersCharwise, PrintTag, IndexOf, OpenToken;
    var printed := PrintEnding(ending);
    assert printed + [] == printed;
    FirstLies(page, at, printed, []);
    assert |page| == at + |printed|;
    match ending
    case Closed => NothingRead(lower, page, at);
    case InComment(text) => OpenCommentRead(lower, page, at, text);
    case InElement(tag, content) => OpenElementRead(lower, fold, page, at, tag, content);
  }

  lemma ElementsLater(parts: seq<Part>, ending: Ending)
    requires parts != []
    ensures HasElement(parts[1..], ending) ==> HasElement(parts, ending)
    ensures parts[0].Element? ==> HasElement(parts, ending)
  {
    if HasElement(parts[1..], ending) && !ending.InElement? {
      var i :| 0 <= i < |parts[1..]| && parts[1..][i].Element?;
      assert parts[i + 1].Element?;
    }
  }

  lemma NothingRead(lower: string -> string, page: string, at: nat)
    requires at <= |page| && page[at..] == []
    ensures Tokens(lower, page, at) == Done([])
  {
  }

  /** A printed page is read as exactly the tags that were printed, each at its place and with its attributes; text,
      comments and the content of scripts and styles hold none, and neither does what follows one of these that is not
      closed. */
  lemma TokenizerInvertsPages(lower: string -> string, fold: char -> char, parts: seq<Part>, ending: Ending)
    requires AllWritable(lower, fold, parts) && WritableEnding(lower, fold, ending)
    requires HasElement(parts, ending) ==> LowersCharwise(lower, fold, Print(parts, ending))
    ensures Tokens(lower, Print(parts, ending), 0) == Done(AllTags(lower, parts, ending, 0))
  {
    assert Print(parts, ending)[0..] == Print(parts, ending);
    hide LowersCharwise, Tokens;
    PartsRead(lower, fold, Print(parts, ending), 0, parts, ending);
  }
}

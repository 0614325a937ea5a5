/** Printed style sheets, and what the scanner finds in them (packages/archive-core/src/rewrite.ts:969-1037). */
module CssRoundTrip {
  import opened Options
  import opened Scanner
  import opened Slices
  import opened SplicedText
  import opened CssRewrite
  import opened CssMeaning

  /** A part of a sheet: other text, a comment, a string, or a reference between quotes or bare. */
  datatype Part =
    | Other(text: string)
    | Comment(text: string)
    | Text(mark: char, text: string)
    | Url(quote: Option<char>, value: string)
    | Import(quote: Option<char>, value: string)

  function Between(quote: Option<char>, value: string): string {
    if quote.Some? then [quote.value] + value + [quote.value] else value
  }

  function PrintPart(part: Part): string {
    match part
    case Other(text) => text
    case Comment(text) => "/*" + text + "*/"
    case Text(mark, text) => [mark] + text + [mark]
    case Url(quote, value) => "url(" + Between(quote, value) + ")"
    case Import(quote, value) => "@import " + Between(quote, value) + " "
  }

  function Print(parts: seq<Part>): string {
    if parts == [] then [] else PrintPart(parts[0]) + Print(parts[1..])
  }

  /** A value that can be written so: between quotes without the quote, or bare. */
  predicate WritableValue(quote: Option<char>, value: string) {
    if quote.Some? then IsQuote(quote.value) && quote.value !in value
    else value != [] && !IsQuote(value[0]) && forall i :: 0 <= i < |value| ==> NotEnd(value[i])
  }

  /** Other text holds no quote, no slash and no reference, and ends in no letter of a word. */
  predicate WritableOther(text: string) {
    && (forall k :: 0 <= k < |text| ==>
          && !IsQuote(text[k]) && text[k] != '/'
          && !WordStarts(text, k, "url") && !WordStarts(text, k, "@import"))
    && (text != [] ==> !WordChar(text[|text| - 1]) && text[|text| - 1] != '@')
  }

  predicate Writable(part: Part) {
    match part
    case Other(text) => WritableOther(text)
    case Comment(text) => IndexOf(text + "*/", "*/", 0) == Some(|text|)
    case Text(mark, text) =>
      IsQuote(mark) && forall k :: 0 <= k < |text| ==>
        text[k] != mark && text[k] != '\\' && !LiesAt(text, k, "/*")
    case Url(quote, value) => WritableValue(quote, value)
    case Import(quote, value) => WritableValue(quote, value) && (quote.None? ==> LowerChar(value[0]) != 'u')
  }

  function QuoteLength(quote: Option<char>): nat {
    if quote.Some? then 1 else 0
  }

  /** The reference of a part that is printed at `at`. */
  function FoundIn(part: Part, at: nat): seq<Reference> {
    match part
    case Url(quote, value) =>
      var start := at + 4 + QuoteLength(quote);
      [Reference(start, start + |value|, false)]
    case Import(quote, value) =>
      var start := at + 8 + QuoteLength(quote);
      [Reference(start, start + |value|, true)]
    case _ => []
  }

  function AllFound(parts: seq<Part>, at: nat): seq<Reference> {
    if parts == [] then [] else FoundIn(parts[0], at) + AllFound(parts[1..], at + |PrintPart(parts[0])|)
  }

  /** A part lies at a place where nothing before it makes it part of a word. */
  predicate PartAt(css: string, at: nat, printed: string) {
    LiesAt(css, at, printed) && (at > 0 ==> !WordChar(css[at - 1]))
  }

  // ----- Other text -----

  /** Words that are read: no letter but the last can end other text. */
  predicate Word(word: string) {
    word == "url" || word == "@import"
  }

  lemma InnerLetter(word: string, c: char, k: nat)
    requires Word(word) && k + 1 < |word| && LowerChar(c) == word[k]
    ensures WordChar(c) || c == '@'
  {
  }

  lemma WordOfText(css: string, at: nat, text: string, k: nat, word: string)
    requires PartAt(css, at, text) && k + |word| <= |text| && word != []
    ensures WordStarts(css, at + k, word) ==> WordStarts(text, k, word)
  {
    ElementsThere(css, at, text);
    if WordStarts(css, at + k, word) {
      forall j | 0 <= j < |word| ensures LowerChar(text[k + j]) == word[j] {
        LetterThere(css, at + k, word, j);
      }
      assert k > 0 ==> css[at + k - 1] == text[k - 1];
    }
  }

  lemma WordPastText(css: string, at: nat, text: string, k: nat, word: string)
    requires LiesAt(css, at, text) && k < |text| < k + |word| && Word(word)
    ensures WordStarts(css, at + k, word) ==> WordChar(text[|text| - 1]) || text[|text| - 1] == '@'
  {
    var j: nat := |text| - 1 - k;
    LetterThere(css, at + k, word, j);
    ElementsAt(css, at, text, |text| - 1);
    hide WordAt, LiesAt, WordChar;
    if WordStarts(css, at + k, word) {
      InnerLetter(word, text[|text| - 1], j);
    }
  }

  lemma NoWordInside(css: string, at: nat, text: string, k: nat, word: string)
    requires PartAt(css, at, text) && k < |text| && Word(word)
    requires !WordChar(text[|text| - 1]) && text[|text| - 1] != '@' && !WordStarts(text, k, word)
    ensures !WordStarts(css, at + k, word)
  {
    hide WordStarts, WordChar, LiesAt;
    if k + |word| <= |text| {
      WordOfText(css, at, text, k, word);
    } else {
      WordPastText(css, at, text, k, word);
    }
  }

  lemma {:induction false} OtherPassed(css: string, at: nat, text: string, k: nat)
    requires PartAt(css, at, text) && WritableOther(text) && k <= |text|
    ensures References(css, at + k, None) == References(css, at + |text|, None)
    decreases |text| - k
  {
    hide WordStarts, TurnAt, LiesAt, References;
    if k < |text| {
      NoWordInside(css, at, text, k, "url");
      NoWordInside(css, at, text, k, "@import");
      ElementsAt(css, at, text, k);
      QuietTurn(css, at + k);
      ReferencesStep(css, at + k, None);
      assert [] + References(css, at + k + 1, None) == References(css, at + k + 1, None);
      OtherPassed(css, at, text, k + 1);
    }
  }

  lemma ElementsAt(css: string, at: nat, text: string, k: nat)
    requires LiesAt(css, at, text) && k < |text|
    ensures at + k < |css| && css[at + k] == text[k]
  {
    ElementsThere(css, at, text);
  }

  lemma QuietTurn(css: string, c: nat)
    requires c < |css| && !IsQuote(css[c]) && css[c] != '/'
    requires !WordStarts(css, c, "url") && !WordStarts(css, c, "@import")
    ensures TurnAt(css, c, None) == Turn(c + 1, None, None)
  {
    NoComment(css, c);
    hide WordStarts, UrlTurn, ImportTurn, AfterComment;
  }

  // ----- Comments and strings -----

  lemma CommentPassed(css: string, at: nat, text: string)
    requires LiesAt(css, at, "/*" + text + "*/") && IndexOf(text + "*/", "*/", 0) == Some(|text|)
    ensures References(css, at, None) == References(css, at + |text| + 4, None)
  {
    hide IndexOf, LiesAt, References, Moves;
    var inside := text + "*/";
    CommentGrouped(text);
    PartsLie(css, at, "/*", inside);
    LiesThere(css, at + 2, inside);
    IndexMoves(inside, css, "*/", 0, |inside|, at + 2);
    CommentTurn(css, at, at + |text| + 4);
  }

  lemma CommentGrouped(text: string)
    ensures "/*" + text + "*/" == "/*" + (text + "*/")
  {
  }

  lemma LiesThere(css: string, at: nat, part: string)
    requires LiesAt(css, at, part)
    ensures Moves(part, 0, |part|, css, at) && at + |part| <= |css|
  {
    ElementsThere(css, at, part);
  }

  lemma CommentTurn(css: string, at: nat, next: nat)
    requires at < |css| && LiesAt(css, at, "/*") && AfterComment(css, at) == next
    ensures References(css, at, None) == References(css, next, None)
  {
    hide AfterComment;
    assert [] + References(css, next, None) == References(css, next, None);
  }

  lemma TextChars(css: string, at: nat, mark: char, text: string)
    requires LiesAt(css, at, [mark] + text + [mark])
    ensures at + 1 + |text| < |css| && css[at] == mark && css[at + 1 + |text|] == mark
    ensures forall k :: 0 <= k < |text| ==> css[at + 1 + k] == text[k]
  {
    var whole := [mark] + text + [mark];
    ElementsThere(css, at, whole);
    assert css[at] == whole[0] && css[at + 1 + |text|] == whole[1 + |text|];
    forall k | 0 <= k < |text| ensures css[at + 1 + k] == text[k] {
      assert css[at + (1 + k)] == whole[1 + k] == text[k];
    }
  }

  lemma TextPassed(css: string, at: nat, mark: char, text: string)
    requires LiesAt(css, at, [mark] + text + [mark]) && Writable(Text(mark, text))
    ensures References(css, at, None) == References(css, at + |text| + 2, None)
  {
    hide References, LiesAt, Writable;
    TextChars(css, at, mark, text);
    MarkIsQuote(mark, text);
    QuoteOpens(css, at);
    TextRead(css, at + 1, mark, text, 0);
    assert at + 1 + |text| + 1 == at + |text| + 2;
  }

  lemma MarkIsQuote(mark: char, text: string)
    requires Writable(Text(mark, text))
    ensures IsQuote(mark)
  {
  }

  lemma {:induction false} TextRead(css: string, from: nat, mark: char, text: string, k: nat)
    requires k <= |text| && from + |text| < |css| && css[from + |text|] == mark && Writable(Text(mark, text))
    requires forall j :: 0 <= j < |text| ==> css[from + j] == text[j]
    ensures References(css, from + k, Some(mark)) == References(css, from + |text| + 1, None)
    decreases |text| - k
  {
    hide References, LiesAt;
    if k == |text| {
      NoComment(css, from + k);
      TextTurn(css, from + k, mark);
    } else {
      assert css[from + k] == text[k] && text[k] != mark && text[k] != '\\';
      NoCommentInside(css, from, mark, text, k);
      TextTurn(css, from + k, mark);
      hide Writable;
      TextRead(css, from, mark, text, k + 1);
    }
  }

  lemma TextTurn(css: string, c: nat, mark: char)
    requires c < |css| && css[c] != '\\' && IsQuote(mark) && !LiesAt(css, c, "/*")
    ensures References(css, c, Some(mark)) == References(css, c + 1, if css[c] == mark then None else Some(mark))
  {
    var after: Option<char> := if css[c] == mark then None else Some(mark);
    assert [] + References(css, c + 1, after) == References(css, c + 1, after);
  }

  lemma CommentChars(css: string, c: nat)
    ensures LiesAt(css, c, "/*") <==> c + 1 < |css| && css[c] == '/' && css[c + 1] == '*'
  {
    if LiesAt(css, c, "/*") {
      ElementsThere(css, c, "/*");
    }
    if c + 1 < |css| && css[c] == '/' && css[c + 1] == '*' {
      assert css[c..c + 2] == "/*";
    }
  }

  lemma NoCommentInside(css: string, from: nat, mark: char, text: string, k: nat)
    requires k < |text| && from + |text| < |css| && css[from + |text|] == mark && Writable(Text(mark, text))
    requires forall j :: 0 <= j < |text| ==> css[from + j] == text[j]
    ensures !LiesAt(css, from + k, "/*")
  {
    CommentChars(css, from + k);
    CommentChars(text, k);
    hide LiesAt;
    assert css[from + k] == text[k];
    if k + 1 < |text| {
      assert css[from + (k + 1)] == text[k + 1];
    }
  }

  // ----- References -----

  /** The characters of a written value, and the one after it. */
  lemma ValueStands(css: string, at: nat, quote: Option<char>, value: string, ending: char)
    requires LiesAt(css, at, Between(quote, value) + [ending])
    ensures var from, end := at + QuoteLength(quote), at + |Between(quote, value)|;
            && from + |value| <= end < |css| && css[end] == ending
            && (quote.Some? ==> css[at] == quote.value && css[from + |value|] == quote.value)
            && (quote.Some? ==> end == from + |value| + 1) && (quote.None? ==> end == from + |value|)
            && forall k :: 0 <= k < |value| ==> css[from + k] == value[k]
  {
    var between := Between(quote, value);
    PartsLie(css, at, between, [ending]);
    ElementsThere(css, at + |between|, [ending]);
    ElementsThere(css, at, between);
    hide LiesAt;
    forall k | 0 <= k < |value| ensures css[at + QuoteLength(quote) + k] == value[k] {
      assert between[QuoteLength(quote) + k] == value[k];
    }
    if quote.Some? {
      assert css[at] == between[0] && css[at + 1 + |value|] == between[1 + |value|];
    }
  }

  /** A written value is scanned whole. */
  lemma ValueScanned(css: string, at: nat, quote: Option<char>, value: string, ending: char)
    requires LiesAt(css, at, Between(quote, value) + [ending]) && WritableValue(quote, value) && !NotEnd(ending)
    ensures var start := at + QuoteLength(quote);
            ScanFrom(css, at) == Some(Scan(start, start + |value|, start + |value| + QuoteLength(quote)))
    ensures at < |css| && css[at] == (if quote.Some? then quote.value else value[0])
    ensures var end := at + |Between(quote, value)|; end < |css| && css[end] == ending
  {
    hide LiesAt, ScanFrom, Between;
    ValueStands(css, at, quote, value, ending);
    if quote.Some? {
      assert forall k :: at < k < at + 1 + |value| ==> css[k] == value[k - at - 1];
      QuotedScan(css, at, at + 1 + |value|);
    } else {
      assert forall k :: at <= k < at + |value| ==> css[k] == value[k - at];
      BareScan(css, at, at + |value|);
    }
  }

  lemma WordThere(css: string, at: nat, word: string, rest: string)
    requires PartAt(css, at, word + rest) && Word(word)
    ensures WordStarts(css, at, word) && at + |word| <= |css|
  {
    PartsLie(css, at, word, rest);
    ElementsThere(css, at, word);
  }

  /** The characters of a printed `url(...)`, and what is scanned in it. */
  lemma UrlStands(css: string, at: nat, quote: Option<char>, value: string)
    requires PartAt(css, at, PrintPart(Url(quote, value))) && WritableValue(quote, value)
    ensures WordStarts(css, at, "url") && at + 4 < |css| && css[at + 3] == '('
    ensures LiesAt(css, at + 4, Between(quote, value) + [')'])
  {
    var value_ := Between(quote, value) + ")";
    UrlGrouped(quote, value);
    hide Between;
    PartsLie(css, at, "url(", value_);
    ElementsThere(css, at, "url(");
    WordThere(css, at, "url", "(" + value_);
  }

  lemma UrlGrouped(quote: Option<char>, value: string)
    ensures PrintPart(Url(quote, value)) == "url" + ("(" + (Between(quote, value) + ")"))
    ensures PrintPart(Url(quote, value)) == "url(" + (Between(quote, value) + ")")
    ensures |Between(quote, value)| == |value| + 2 * QuoteLength(quote)
  {
  }

  lemma UrlFound(css: string, at: nat, quote: Option<char>, value: string)
    requires PartAt(css, at, PrintPart(Url(quote, value))) && WritableValue(quote, value)
    ensures References(css, at, None)
         == FoundIn(Url(quote, value), at) + References(css, at + |PrintPart(Url(quote, value))|, None)
  {
    hide ScanFrom, IsSpace, WordAt, LiesAt, References, UrlTurn, TurnAt, WritableValue, NotEnd, Skip, Between;
    UrlStands(css, at, quote, value);
    UrlGrouped(quote, value);
    ParenthesisEnds();
    ValueScanned(css, at + 4, quote, value, ')');
    WordTurn(css, at);
    SkipIs(css, at + 3, |css|, IsSpace, at + 3);
    UrlReads(css, at);
    var end := at + 4 + |Between(quote, value)|;
    ReferencesStep(css, at, None);
    PlainSkips(css, end, end + 1);
  }

  lemma ParenthesisEnds()
    ensures !NotEnd(')') && !NotEnd(' ') && !IsSpace('(') && IsSpace(' ')
  {
  }

  lemma ImportStands(css: string, at: nat, quote: Option<char>, value: string)
    requires PartAt(css, at, PrintPart(Import(quote, value))) && Writable(Import(quote, value))
    ensures WordStarts(css, at, "@import") && at + 8 < |css| && css[at + 7] == ' '
    ensures LiesAt(css, at + 8, Between(quote, value) + [' '])
  {
    var value_ := Between(quote, value) + " ";
    ImportGrouped(quote, value);
    hide Between;
    PartsLie(css, at, "@import ", value_);
    ElementsThere(css, at, "@import ");
    WordThere(css, at, "@import", " " + value_);
  }

  lemma ImportGrouped(quote: Option<char>, value: string)
    ensures PrintPart(Import(quote, value)) == "@import" + (" " + (Between(quote, value) + " "))
    ensures PrintPart(Import(quote, value)) == "@import " + (Between(quote, value) + " ")
    ensures |Between(quote, value)| == |value| + 2 * QuoteLength(quote)
  {
  }

  lemma ImportStart(quote: Option<char>, value: string)
    requires Writable(Import(quote, value))
    ensures var c := if quote.Some? then quote.value else value[0]; !IsSpace(c) && LowerChar(c) != 'u'
  {
  }

  lemma ImportFound(css: string, at: nat, quote: Option<char>, value: string)
    requires PartAt(css, at, PrintPart(Import(quote, value))) && Writable(Import(quote, value))
    ensures References(css, at, None)
         == FoundIn(Import(quote, value), at) + References(css, at + |PrintPart(Import(quote, value))|, None)
  {
    hide ScanFrom, IsSpace, WordAt, LiesAt, References, ImportTurn, TurnAt, WritableValue, NotEnd, Skip, Between;
    ImportStands(css, at, quote, value);
    ImportGrouped(quote, value);
    ParenthesisEnds();
    ValueScanned(css, at + 8, quote, value, ' ');
    ImportStart(quote, value);
    WordTurn(css, at);
    SkipIs(css, at + 7, |css|, IsSpace, at + 8);
    ImportReads(css, at);
    var end := at + 8 + |Between(quote, value)|;
    ReferencesStep(css, at, None);
    PlainSkips(css, end, end + 1);
  }

  // ----- Sheets -----

  /** What a part is read as, and that nothing after it is part of a word of it. */
  lemma PartRead(css: string, at: nat, part: Part)
    requires PartAt(css, at, PrintPart(part)) && Writable(part)
    ensures var next := at + |PrintPart(part)|;
            References(css, at, None) == FoundIn(part, at) + References(css, next, None)
  {
    hide References, LiesAt, WritableOther, IndexOf, Between, WritableValue;
    var next := at + |PrintPart(part)|;
    assert [] + References(css, next, None) == References(css, next, None);
    match part
    case Other(text) => OtherPassed(css, at, text, 0);
    case Comment(text) => CommentPassed(css, at, text);
    case Text(mark, text) => TextPassed(css, at, mark, text);
    case Url(quote, value) => UrlFound(css, at, quote, value);
    case Import(quote, value) => ImportFound(css, at, quote, value);
  }

  lemma PartEnds(css: string, at: nat, part: Part)
    requires PartAt(css, at, PrintPart(part)) && Writable(part)
    ensures var next := at + |PrintPart(part)|; next > 0 ==> next <= |css| && !WordChar(css[next - 1])
  {
    var printed := PrintPart(part);
    if printed != [] {
      ElementsThere(css, at, printed);
      assert css[at + |printed| - 1] == printed[|printed| - 1];
    }
  }

  predicate AllWritable(parts: seq<Part>) {
    forall i :: 0 <= i < |parts| ==> Writable(parts[i])
  }

  lemma FirstLies(css: string, at: nat, printed: string, rest: string)
    requires at <= |css| && css[at..] == printed + rest
    ensures at + |printed| <= |css| && LiesAt(css, at, printed) && css[at + |printed|..] == rest
  {
    assert css[at..at + |printed|] == css[at..][..|printed|];
    assert css[at + |printed|..] == css[at..][|printed|..];
  }

  lemma NothingRead(css: string, at: nat)
    requires at <= |css| && css[at..] == []
    ensures References(css, at, None) == []
  {
  }

  lemma {:induction false} PartsRead(css: string, at: nat, parts: seq<Part>)
    requires AllWritable(parts) && at <= |css| && css[at..] == Print(parts) && (at > 0 ==> !WordChar(css[at - 1]))
    ensures References(css, at, None) == AllFound(parts, at)
    decreases |parts|
  {
    hide References, PrintPart, FoundIn, Writable, LiesAt, WordChar;
    if parts == [] {
      NothingRead(css, at);
    } else {
      var printed, rest := PrintPart(parts[0]), Print(parts[1..]);
      FirstLies(css, at, printed, rest);
      assert Writable(parts[0]);
      PartRead(css, at, parts[0]);
      PartEnds(css, at, parts[0]);
      PartsRead(css, at + |printed|, parts[1..]);
    }
  }

  /** A printed sheet, whatever comments, strings and other text it has, is scanned as exactly the references that were
      printed, each at its place. */
  lemma ScannerInvertsPrinter(parts: seq<Part>)
    requires AllWritable(parts)
    ensures References(Print(parts), 0, None) == AllFound(parts, 0)
  {
    assert Print(parts)[0..] == Print(parts);
    PartsRead(Print(parts), 0, parts);
  }

  function Values(parts: seq<Part>): seq<string> {
    if parts == [] then []
    else (if parts[0].Url? || parts[0].Import? then [parts[0].value] else []) + Values(parts[1..])
  }

  /** And what is found is what was written. */
  lemma {:induction false} FoundHoldValues(css: string, at: nat, parts: seq<Part>)
    requires at <= |css| && css[at..] == Print(parts)
    ensures Holds(css, AllFound(parts, at), Values(parts))
    decreases |parts|
  {
    if parts != [] {
      hide PrintPart, FoundIn, LiesAt;
      var printed := PrintPart(parts[0]);
      FirstLies(css, at, printed, Print(parts[1..]));
      FoundHoldValues(css, at + |printed|, parts[1..]);
      ValueLies(css, at, parts[0]);
    }
  }

  lemma ValueLies(css: string, at: nat, part: Part)
    requires LiesAt(css, at, PrintPart(part))
    ensures Holds(css, FoundIn(part, at), if part.Url? || part.Import? then [part.value] else [])
  {
    match part
    case Url(quote, value) =>
      UrlGrouped(quote, value);
      PartsLie(css, at, "url(", Between(quote, value) + ")");
      ValueBetween(css, at + 4, quote, value, ")");
    case Import(quote, value) =>
      ImportGrouped(quote, value);
      PartsLie(css, at, "@import ", Between(quote, value) + " ");
      ValueBetween(css, at + 8, quote, value, " ");
    case _ =>
  }

  lemma ValueBetween(css: string, at: nat, quote: Option<char>, value: string, ending: string)
    requires LiesAt(css, at, Between(quote, value) + ending)
    ensures LiesAt(css, at + QuoteLength(quote), value)
  {
    PartsLie(css, at, Between(quote, value), ending);
    if quote.Some? {
      assert Between(quote, value) == [quote.value] + (value + [quote.value]);
      PartsLie(css, at, [quote.value], value + [quote.value]);
      PartsLie(css, at + 1, value, [quote.value]);
    }
  }
}

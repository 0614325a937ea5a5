/** The tokenizer reads back a printed tag (packages/archive-core/src/rewrite.ts:691-765): attributes come back as they
    are, with their values between double or single quotes, bare, or without one. */
module HtmlRoundTrip {
  import opened Options
  import opened Scanner
  import opened Slices
  import opened HtmlTokens
  import HtmlRewrite

  /** How the value of an attribute is written. */
  datatype Writing = Double | Single | Bare | Alone

  /** An attribute, with what stands before its name, and on both sides of its equals sign. */
  datatype Pair = Pair(before: string, name: string, left: string, right: string, writing: Writing, value: string)

  /** A start tag. */
  datatype Opening = Opening(lead: string, name: string, pairs: seq<Pair>, tail: string)

  predicate Spaces(s: string) {
    forall i :: 0 <= i < |s| ==> IsSpace(s[i])
  }

  predicate SpacesAndSlashes(s: string) {
    forall i :: 0 <= i < |s| ==> SpaceOrSlash(s[i])
  }

  predicate Unquoted(s: string) {
    forall i :: 0 <= i < |s| ==> !IsQuote(s[i])
  }

  predicate AttributeName(name: string) {
    name != [] && Unquoted(name) && forall i :: 0 <= i < |name| ==> NameChar(name[i])
  }

  predicate Holds(writing: Writing, value: string) {
    match writing
    case Double => '"' !in value
    case Single => '\'' !in value
    case Bare => value != [] && Unquoted(value) && forall i :: 0 <= i < |value| ==> BareChar(value[i])
    case Alone => value == []
  }

  predicate Printable(p: Pair) {
    && p.before != [] && IsSpace(p.before[0]) && SpacesAndSlashes(p.before)
    && AttributeName(p.name) && Spaces(p.left) && Spaces(p.right) && Holds(p.writing, p.value)
  }

  /** A tag whose closing slash is not part of a bare value. */
  predicate PrintableTag(lower: string -> string, t: Opening) {
    && Spaces(t.lead) && AnyTagName(lower, t.name) && AllPrintable(t.pairs) && TailFits(t.pairs, t.tail)
  }

  predicate AnyTagName(lower: string -> string, name: string) {
    name != [] && lower(name) != [] && forall i :: 0 <= i < |name| ==> TagNameChar(name[i])
  }

  predicate AllPrintable(pairs: seq<Pair>) {
    forall i :: 0 <= i < |pairs| ==> Printable(pairs[i])
  }

  predicate TailFits(pairs: seq<Pair>, tail: string) {
    && SpacesAndSlashes(tail)
    && (pairs != [] && pairs[|pairs| - 1].writing == Bare && tail != [] ==> IsSpace(tail[0]))
  }

  function Mark(writing: Writing): Option<char> {
    match writing
    case Double => Some('"')
    case Single => Some('\'')
    case _ => None
  }

  function PrintText(p: Pair): string {
    var mark := Mark(p.writing);
    if mark.Some? then [mark.value] + (p.value + [mark.value]) else p.value
  }

  function PrintValue(p: Pair): string {
    if p.writing == Alone then [] else p.left + ("=" + (p.right + PrintText(p)))
  }

  function PrintPair(p: Pair): string {
    p.before + (p.name + PrintValue(p))
  }

  function PrintPairs(pairs: seq<Pair>, tail: string): string {
    if pairs == [] then tail + ">" else PrintPair(pairs[0]) + PrintPairs(pairs[1..], tail)
  }

  function PrintTag(t: Opening): string {
    "<" + (t.lead + (t.name + PrintPairs(t.pairs, t.tail)))
  }

  /** Where the value of a pair that is printed at `at` begins. */
  function ValueStart(p: Pair, at: nat): nat {
    at + |p.before| + |p.name| + |p.left| + 1 + |p.right| + (if Mark(p.writing).Some? then 1 else 0)
  }

  /** The attribute of a pair that is printed at `at`. */
  function AttributeOf(lower: string -> string, p: Pair, at: nat): Attribute {
    var start := ValueStart(p, at);
    Attribute(lower(p.name), if p.writing == Alone then None
                             else Some(Value(start, start + |p.value|, Mark(p.writing))))
  }

  function AttributesOf(lower: string -> string, pairs: seq<Pair>, at: nat): (attributes: seq<Attribute>)
    ensures |attributes| == |pairs|
    ensures forall i :: 0 <= i < |pairs| ==> (attributes[i].value.Some? <==> pairs[i].writing != Alone)
  {
    if pairs == [] then []
    else [AttributeOf(lower, pairs[0], at)] + AttributesOf(lower, pairs[1..], at + |PrintPair(pairs[0])|)
  }

  /** The token of a tag that is printed at `at`. */
  function OpenToken(lower: string -> string, t: Opening, at: nat): Token {
    Token(at, at + |PrintTag(t)|, Some(lower(t.name)),
          AttributesOf(lower, t.pairs, at + 1 + |t.lead| + |t.name|), true)
  }

  // ----- The characters of an attribute -----

  /** Characters that stand somewhere are those of the part that lies there. */
  predicate Stands(text: string, at: nat, part: string) {
    at + |part| <= |text| && forall k :: at <= k < at + |part| ==> text[k] == part[k - at]
  }

  lemma LiesStands(text: string, at: nat, part: string)
    requires LiesAt(text, at, part)
    ensures Stands(text, at, part) && text[at..at + |part|] == part
  {
    ElementsThere(text, at, part);
  }

  lemma PairAt(text: string, at: nat, p: Pair)
    requires LiesAt(text, at, PrintPair(p))
    ensures var n := at + |p.before|;
            && Stands(text, at, p.before) && Stands(text, n, p.name) && text[n..n + |p.name|] == p.name
            && LiesAt(text, n + |p.name|, PrintValue(p))
            && at + |PrintPair(p)| == n + |p.name| + |PrintValue(p)|
  {
    hide LiesAt, PrintValue, Stands;
    PartsLie(text, at, p.before, p.name + PrintValue(p));
    PartsLie(text, at + |p.before|, p.name, PrintValue(p));
    LiesStands(text, at, p.before);
    LiesStands(text, at + |p.before|, p.name);
  }

  lemma ValueIsAt(text: string, b: nat, p: Pair)
    requires p.writing != Alone && LiesAt(text, b, PrintValue(p))
    ensures var c := b + |p.left|;
            && Stands(text, b, p.left) && Stands(text, c, "=") && Stands(text, c + 1, p.right)
            && LiesAt(text, c + 1 + |p.right|, PrintText(p))
            && b + |PrintValue(p)| == c + 1 + |p.right| + |PrintText(p)|
  {
    hide LiesAt, PrintText, Stands;
    var c := b + |p.left|;
    PartsLie(text, b, p.left, "=" + (p.right + PrintText(p)));
    PartsLie(text, c, "=", p.right + PrintText(p));
    PartsLie(text, c + 1, p.right, PrintText(p));
    LiesStands(text, b, p.left);
    LiesStands(text, c, "=");
    LiesStands(text, c + 1, p.right);
  }

  lemma TextIsAt(text: string, d: nat, p: Pair)
    requires p.writing != Alone && LiesAt(text, d, PrintText(p))
    ensures var mark := Mark(p.writing);
            var start := if mark.Some? then d + 1 else d;
            && Stands(text, start, p.value) && text[start..start + |p.value|] == p.value
            && (mark.Some? ==> Stands(text, d, [mark.value]) && Stands(text, start + |p.value|, [mark.value]))
            && d + |PrintText(p)| == start + |p.value| + (if mark.Some? then 1 else 0)
  {
    hide LiesAt, Stands;
    var mark := Mark(p.writing);
    if mark.Some? {
      PartsLie(text, d, [mark.value], p.value + [mark.value]);
      PartsLie(text, d + 1, p.value, [mark.value]);
      LiesStands(text, d, [mark.value]);
      LiesStands(text, d + 1, p.value);
      LiesStands(text, d + 1 + |p.value|, [mark.value]);
    } else {
      LiesStands(text, d, p.value);
    }
  }

  // ----- Scans over it -----

  lemma CharacterKinds(c: char)
    ensures NameChar(c) ==> !SpaceOrSlash(c) && c != '=' && c != '>'
    ensures IsSpace(c) ==> SpaceOrSlash(c) && !BareChar(c) && !TagNameChar(c) && c != '=' && c != '!' && c != '?'
    ensures SpaceOrSlash(c) ==> !NameChar(c) && !IsQuote(c) && c != '>' && c != '='
    ensures BareChar(c) ==> !IsSpace(c) && c != '>'
    ensures IsQuote(c) ==> !IsSpace(c)
    ensures TagNameChar(c) ==> !IsSpace(c) && !IsQuote(c) && c != '>' && c != '/' && c != '!' && c != '?'
    ensures !SpaceOrSlash('>') && !NameChar('>') && !BareChar('>') && !NameChar('=') && !IsSpace('=') && !IsSpace('/')
    ensures !TagNameChar('>') && !TagNameChar('/')
  {
  }

  /** What stands there is skipped. */
  lemma Skips(text: string, at: nat, end: nat, part: string, keep: char -> bool)
    requires Stands(text, at, part) && at + |part| < end <= |text| && forall i :: 0 <= i < |part| ==> keep(part[i])
    requires !keep(text[at + |part|])
    ensures Skip(text, at, end, keep) == at + |part|
  {
    SkipIs(text, at, end, keep, at + |part|);
  }

  /** What comes after a pair ends it, and does not begin with an equals sign. */
  predicate Follows(text: string, next: nat, end: nat, writing: Writing)
    requires next < end <= |text|
  {
    && (var e := Skip(text, next, end, SpaceOrSlash); e < end && text[e] != '=')
    && (writing == Alone ==> !NameChar(text[next]))
    && (writing == Bare ==> !BareChar(text[next]))
  }

  /** Where the attribute loop goes on among spaces and slashes does not matter. */
  lemma SpacesPassed(lower: string -> string, text: string, i: nat, j: nat, end: nat)
    requires i <= j <= end <= |text| && forall k :: i <= k < j ==> SpaceOrSlash(text[k])
    ensures Attributes(lower, text, i, end) == Attributes(lower, text, j, end)
  {
    hide SpaceOrSlash, NameChar, IsSpace, ValueAt, AfterValue;
    SkipTwice(text, i, j, end);
    TurnAtSame(lower, text, i, j, end);
    hide TurnAt, Skip;
  }

  lemma {:induction false} SkipTwice(text: string, i: nat, j: nat, end: nat)
    requires i <= j <= end <= |text| && forall k :: i <= k < j ==> SpaceOrSlash(text[k])
    ensures Skip(text, i, end, SpaceOrSlash) == Skip(text, j, end, SpaceOrSlash)
    decreases j - i
  {
    if i < j {
      SkipTwice(text, i + 1, j, end);
    }
  }

  lemma TurnAtSame(lower: string -> string, text: string, i: nat, j: nat, end: nat)
    requires i <= j <= end <= |text|
    requires Skip(text, i, end, SpaceOrSlash) == Skip(text, j, end, SpaceOrSlash)
    ensures TurnAt(lower, text, i, end) == TurnAt(lower, text, j, end)
  {
    hide SpaceOrSlash, NameChar, IsSpace, ValueAt, AfterValue;
    assert Skip(text, j, end, SpaceOrSlash) >= j;
  }

  /** One turn of the attribute loop over a pair that is printed without a value. */
  lemma AloneRead(lower: string -> string, text: string, at: nat, end: nat, p: Pair)
    requires Printable(p) && p.writing == Alone && LiesAt(text, at, PrintPair(p))
    requires at + |PrintPair(p)| < end <= |text| && Follows(text, at + |PrintPair(p)|, end, Alone)
    ensures Attributes(lower, text, at, end)
         == Add(AttributeOf(lower, p, at), Attributes(lower, text, at + |PrintPair(p)|, end))
  {
    hide LiesAt, Skip, SpaceOrSlash, NameChar, IsSpace, ValueAt, AfterValue, PrintPair, Attributes;
    PairAt(text, at, p);
    var a := at + |p.before|;
    var b := a + |p.name|;
    CharacterKinds(text[a]);
    Skips(text, at, end, p.before, SpaceOrSlash);
    Skips(text, a, end, p.name, NameChar);
    var c := Skip(text, b, end, IsSpace);
    SpacesThenSlash(text, b, end);
    assert TurnAt(lower, text, at, end) == Read(Attribute(lower(text[a..b]), None), c);
    AttributesStep(lower, text, at, end);
    SpacesPassed(lower, text, b, c, end);
  }

  lemma AttributesStep(lower: string -> string, text: string, at: nat, end: nat)
    requires at <= end <= |text|
    ensures var turn := TurnAt(lower, text, at, end);
            turn.Read? ==> Attributes(lower, text, at, end)
                             == Add(turn.attribute, Attributes(lower, text, turn.next, end))
  {
    hide TurnAt;
  }

  /** Spaces end before spaces and slashes do, and no equals sign comes then if none comes after these. */
  lemma SpacesThenSlash(text: string, b: nat, end: nat)
    requires b < end <= |text|
    requires var e := Skip(text, b, end, SpaceOrSlash); e < end && text[e] != '='
    ensures var c := Skip(text, b, end, IsSpace);
            && c < end && text[c] != '=' && forall k :: b <= k < c ==> SpaceOrSlash(text[k])
  {
    var c, e := Skip(text, b, end, IsSpace), Skip(text, b, end, SpaceOrSlash);
    assert forall k :: b <= k < c ==> SpaceOrSlash(text[k]);
    if c < e {
      assert SpaceOrSlash(text[c]);
    }
  }

  /** One turn over a pair with a value. */
  lemma ValuedRead(lower: string -> string, text: string, at: nat, end: nat, p: Pair)
    requires Printable(p) && p.writing != Alone && LiesAt(text, at, PrintPair(p))
    requires at + |PrintPair(p)| < end <= |text| && Follows(text, at + |PrintPair(p)|, end, p.writing)
    ensures Attributes(lower, text, at, end)
         == Add(AttributeOf(lower, p, at), Attributes(lower, text, at + |PrintPair(p)|, end))
  {
    hide LiesAt, Skip, TurnAt, Printable, ValueAt, AfterValue, PrintPair, PrintValue, PrintText, Attributes, Follows,
         Holds;
    PairAt(text, at, p);
    var a := at + |p.before|;
    var b := a + |p.name|;
    var c := b + |p.left|;
    var d := c + 1 + |p.right|;
    ValueIsAt(text, b, p);
    TextIsAt(text, d, p);
    ValuedScans(text, at, end, p);
    TextHolds(p);
    ValueIsRead(text, d, end, p);
    TurnFrom(lower, text, at, a, b, c, d, end);
    AttributesStep(lower, text, at, end);
  }

  lemma TextHolds(p: Pair)
    requires Printable(p)
    ensures Holds(p.writing, p.value)
  {
  }

  /** Where the scans of a turn stop. */
  lemma ValuedScans(text: string, at: nat, end: nat, p: Pair)
    requires Printable(p) && p.writing != Alone && LiesAt(text, at, PrintPair(p))
    requires at + |PrintPair(p)| < end <= |text|
    ensures var a := at + |p.before|;
            var b := a + |p.name|;
            var c := b + |p.left|;
            && Skip(text, at, end, SpaceOrSlash) == a < b && Skip(text, a, end, NameChar) == b
            && Skip(text, b, end, IsSpace) == c && c + 1 + |p.right| < end && text[c] == '='
            && Skip(text, c + 1, end, IsSpace) == c + 1 + |p.right|
  {
    hide LiesAt, Skip, SpaceOrSlash, NameChar, IsSpace, PrintPair, PrintValue, PrintText, Holds;
    PairAt(text, at, p);
    var a := at + |p.before|;
    var b := a + |p.name|;
    var c := b + |p.left|;
    ValueIsAt(text, b, p);
    ValueBegins(text, c + 1 + |p.right|, p);
    CharacterKinds(text[a]);
    CharacterKinds(text[b]);
    CharacterKinds('=');
    Skips(text, at, end, p.before, SpaceOrSlash);
    Skips(text, a, end, p.name, NameChar);
    Skips(text, b, end, p.left, IsSpace);
    Skips(text, c + 1, end, p.right, IsSpace);
  }

  /** What a turn reads, from where its parts begin. */
  lemma TurnFrom(lower: string -> string, text: string, cursor: nat, a: nat, b: nat, c: nat, d: nat, end: nat)
    requires cursor <= a < b <= c < d < end <= |text| && text[c] == '='
    requires Skip(text, cursor, end, SpaceOrSlash) == a && Skip(text, a, end, NameChar) == b
    requires Skip(text, b, end, IsSpace) == c && Skip(text, c + 1, end, IsSpace) == d
    ensures var v := ValueAt(text, d, end);
            TurnAt(lower, text, cursor, end) == Read(Attribute(lower(text[a..b]), Some(v)), AfterValue(text, v, end))
  {
    hide SpaceOrSlash, NameChar, IsSpace, Skip, ValueAt, AfterValue;
  }

  /** A value does not begin with a space. */
  lemma ValueBegins(text: string, d: nat, p: Pair)
    requires p.writing != Alone && Holds(p.writing, p.value) && LiesAt(text, d, PrintText(p))
    ensures d < d + |PrintText(p)| <= |text| && !IsSpace(text[d])
  {
    TextIsAt(text, d, p);
    CharacterKinds(text[d]);
  }

  lemma ValueIsRead(text: string, d: nat, end: nat, p: Pair)
    requires p.writing != Alone && Holds(p.writing, p.value) && LiesAt(text, d, PrintText(p))
    requires d + |PrintText(p)| < end <= |text| && Follows(text, d + |PrintText(p)|, end, p.writing)
    ensures var start := if Mark(p.writing).Some? then d + 1 else d;
            var v := Value(start, start + |p.value|, Mark(p.writing));
            ValueAt(text, d, end) == v && AfterValue(text, v, end) == d + |PrintText(p)|
  {
    hide LiesAt, Skip, PrintText;
    TextIsAt(text, d, p);
    if p.writing == Bare {
      BareRead(text, d, end, p.value);
    } else {
      QuotedRead(text, d, end, p.value, text[d]);
    }
  }

  lemma BareRead(text: string, d: nat, end: nat, value: string)
    requires Holds(Bare, value) && Stands(text, d, value) && d + |value| < end <= |text|
    requires !BareChar(text[d + |value|])
    ensures ValueAt(text, d, end) == Value(d, d + |value|, None)
  {
    SkipIs(text, d, end - 1, BareChar, d + |value|);
  }

  /** A quoted value ends at the first character that is its quote. */
  lemma QuotedRead(text: string, d: nat, end: nat, value: string, mark: char)
    requires d + |value| + 2 < end <= |text| && IsQuote(mark) && text[d] == mark && text[d + 1 + |value|] == mark
    requires Stands(text, d + 1, value) && mark !in value
    ensures ValueAt(text, d, end) == Value(d + 1, d + 1 + |value|, Some(mark))
  {
    SkipIs(text, d + 1, end - 1, c => c != mark, d + 1 + |value|);
    var v := ValueAt(text, d, end);
    assert v.start == d + 1 && v.quote == Some(mark);
    assert forall k :: v.start <= k < v.end ==> text[k] != mark;
    assert v.end < end - 1 ==> text[v.end] == mark;
  }

  // ----- All attributes of a tag -----

  lemma PairsSplit(text: string, at: nat, pairs: seq<Pair>, tail: string)
    requires pairs != [] && LiesAt(text, at, PrintPairs(pairs, tail))
    ensures LiesAt(text, at, PrintPair(pairs[0]))
    ensures LiesAt(text, at + |PrintPair(pairs[0])|, PrintPairs(pairs[1..], tail))
  {
    hide PrintPair;
    PartsLie(text, at, PrintPair(pairs[0]), PrintPairs(pairs[1..], tail));
  }

  lemma TailStands(text: string, at: nat, tail: string)
    requires LiesAt(text, at, PrintPairs([], tail))
    ensures Stands(text, at, tail) && Stands(text, at + |tail|, ">") && at + |tail| + 1 == at + |PrintPairs([], tail)|
  {
    PartsLie(text, at, tail, ">");
    LiesStands(text, at, tail);
    LiesStands(text, at + |tail|, ">");
  }

  /** What is printed after a pair follows it. */
  lemma RestFollows(text: string, next: nat, end: nat, p: Pair, rest: seq<Pair>, tail: string)
    requires LiesAt(text, next, PrintPairs(rest, tail)) && next + |PrintPairs(rest, tail)| == end
    requires AllPrintable(rest) && TailFits([p] + rest, tail)
    ensures next < end <= |text| && Follows(text, next, end, p.writing)
  {
    hide LiesAt, SpaceOrSlash, NameChar, IsSpace, BareChar;
    LiesStands(text, next, PrintPairs(rest, tail));
    if rest == [] {
      TailStands(text, next, tail);
      CharacterKinds('>');
      CharacterKinds(text[next]);
      Skips(text, next, end, tail, SpaceOrSlash);
    } else {
      PairsSplit(text, next, rest, tail);
      PairAt(text, next, rest[0]);
      assert Printable(rest[0]);
      var e := next + |rest[0].before|;
      CharacterKinds(text[e]);
      CharacterKinds(text[next]);
      CharacterKinds(' ');
      PairsAreThere(rest, tail);
      Skips(text, next, end, rest[0].before, SpaceOrSlash);
    }
  }

  lemma PairsAreThere(rest: seq<Pair>, tail: string)
    requires rest != []
    ensures |PrintPairs(rest, tail)| > |PrintPair(rest[0])| >= |rest[0].before| + |rest[0].name|
  {
    PrintedSome(rest[1..], tail);
  }

  lemma {:induction false} PrintedSome(rest: seq<Pair>, tail: string)
    ensures |PrintPairs(rest, tail)| > 0
  {
    if rest != [] {
      PrintedSome(rest[1..], tail);
    }
  }

  /** The attribute loop reads back the printed pairs, up to the closing `>`. */
  lemma {:induction false} PairsRead(lower: string -> string, text: string, at: nat, end: nat, pairs: seq<Pair>,
                                     tail: string)
    requires AllPrintable(pairs) && TailFits(pairs, tail) && LiesAt(text, at, PrintPairs(pairs, tail))
    requires at + |PrintPairs(pairs, tail)| == end <= |text|
    ensures Attributes(lower, text, at, end) == Done(AttributesOf(lower, pairs, at))
    decreases |pairs|
  {
    hide TurnAt, Printable, PrintPair, AttributeOf, LiesAt, Attributes, Follows;
    if pairs == [] {
      TailRead(lower, text, at, end, tail);
    } else {
      PairsSplit(text, at, pairs, tail);
      var p, next := pairs[0], at + |PrintPair(pairs[0])|;
      assert [p] + pairs[1..] == pairs;
      RestFollows(text, next, end, p, pairs[1..], tail);
      if p.writing == Alone {
        AloneRead(lower, text, at, end, p);
      } else {
        ValuedRead(lower, text, at, end, p);
      }
      PairsRead(lower, text, next, end, pairs[1..], tail);
    }
  }

  lemma TailRead(lower: string -> string, text: string, at: nat, end: nat, tail: string)
    requires SpacesAndSlashes(tail) && LiesAt(text, at, PrintPairs([], tail))
    requires at + |PrintPairs([], tail)| == end <= |text|
    ensures Attributes(lower, text, at, end) == Done([])
  {
    TailStands(text, at, tail);
    CharacterKinds('>');
    Skips(text, at, end, tail, SpaceOrSlash);
  }

  // ----- The end of the tag -----

  lemma {:induction false} PlainEnd(text: string, i: nat, j: nat)
    requires i <= j <= |text| && forall k :: i <= k < j ==> !IsQuote(text[k]) && text[k] != '>'
    ensures TagEnd(text, i, None) == TagEnd(text, j, None)
    decreases j - i
  {
    if i < j {
      PlainEnd(text, i + 1, j);
    }
  }

  lemma {:induction false} QuotedEnd(text: string, i: nat, j: nat, mark: char)
    requires i <= j < |text| && text[j] == mark && forall k :: i <= k < j ==> text[k] != mark
    ensures TagEnd(text, i, Some(mark)) == TagEnd(text, j + 1, None)
    decreases j - i
  {
    if i < j {
      QuotedEnd(text, i + 1, j, mark);
    }
  }

  /** A part without quotes and without a closing bracket does not end its tag. */
  lemma PartPlain(text: string, at: nat, part: string)
    requires Stands(text, at, part) && forall i :: 0 <= i < |part| ==> !IsQuote(part[i]) && part[i] != '>'
    ensures TagEnd(text, at, None) == TagEnd(text, at + |part|, None)
  {
    PlainEnd(text, at, at + |part|);
  }

  lemma KindsPlain(s: string)
    ensures SpacesAndSlashes(s) || Spaces(s) || AttributeName(s) ==>
      forall i :: 0 <= i < |s| ==> !IsQuote(s[i]) && s[i] != '>'
  {
    forall i | 0 <= i < |s|
      ensures SpaceOrSlash(s[i]) || IsSpace(s[i]) ==> !IsQuote(s[i]) && s[i] != '>'
      ensures NameChar(s[i]) ==> s[i] != '>'
    {
      CharacterKinds(s[i]);
    }
  }

  /** A printed pair does not end its tag. */
  lemma PairEnd(text: string, at: nat, p: Pair)
    requires Printable(p) && LiesAt(text, at, PrintPair(p))
    ensures at + |PrintPair(p)| <= |text| && TagEnd(text, at, None) == TagEnd(text, at + |PrintPair(p)|, None)
  {
    hide LiesAt, TagEnd, SpaceOrSlash, NameChar, IsSpace, PrintValue, PrintPair, IsQuote;
    PairAt(text, at, p);
    var b := at + |p.before| + |p.name|;
    KindsPlain(p.before);
    KindsPlain(p.name);
    PartPlain(text, at, p.before);
    PartPlain(text, at + |p.before|, p.name);
    if p.writing == Alone {
      NoValue(p);
    } else {
      ValueIsAt(text, b, p);
      KindsPlain(p.left);
      KindsPlain(p.right);
      PartPlain(text, b, p.left);
      EqualsIsPlain(text, b + |p.left|);
      PartPlain(text, b + |p.left| + 1, p.right);
      TextEnd(text, b + |p.left| + 1 + |p.right|, p);
    }
  }

  lemma NoValue(p: Pair)
    requires p.writing == Alone
    ensures PrintValue(p) == []
  {
  }

  lemma EqualsIsPlain(text: string, c: nat)
    requires Stands(text, c, "=")
    ensures TagEnd(text, c, None) == TagEnd(text, c + 1, None)
  {
  }

  lemma TextEnd(text: string, d: nat, p: Pair)
    requires p.writing != Alone && Holds(p.writing, p.value) && LiesAt(text, d, PrintText(p))
    ensures d + |PrintText(p)| <= |text| && TagEnd(text, d, None) == TagEnd(text, d + |PrintText(p)|, None)
  {
    hide LiesAt, PrintText;
    TextIsAt(text, d, p);
    if p.writing == Bare {
      PartPlain(text, d, p.value);
    } else {
      QuotedEnd(text, d + 1, d + 1 + |p.value|, text[d]);
    }
  }

  lemma {:induction false} PairsEnd(text: string, at: nat, pairs: seq<Pair>, tail: string)
    requires AllPrintable(pairs) && SpacesAndSlashes(tail) && LiesAt(text, at, PrintPairs(pairs, tail))
    ensures at + |PrintPairs(pairs, tail)| <= |text| && TagEnd(text, at, None) == at + |PrintPairs(pairs, tail)|
    decreases |pairs|
  {
    hide Printable, PrintPair, TagEnd, LiesAt;
    if pairs == [] {
      TailEnd(text, at, tail);
    } else {
      PairsSplit(text, at, pairs, tail);
      PairEnd(text, at, pairs[0]);
      PairsEnd(text, at + |PrintPair(pairs[0])|, pairs[1..], tail);
    }
  }

  lemma TailEnd(text: string, at: nat, tail: string)
    requires SpacesAndSlashes(tail) && LiesAt(text, at, PrintPairs([], tail))
    ensures at + |tail| + 1 == at + |PrintPairs([], tail)| <= |text| && TagEnd(text, at, None) == at + |tail| + 1
  {
    TailStands(text, at, tail);
    KindsPlain(tail);
    PartPlain(text, at, tail);
  }

  // ----- The tag -----

  /** The characters of a printed tag. */
  lemma TagStands(page: string, at: nat, t: Opening)
    requires LiesAt(page, at, PrintTag(t))
    ensures var m := at + 1 + |t.lead|;
            var n, end := m + |t.name|, at + |PrintTag(t)|;
            && Stands(page, at, "<") && Stands(page, at + 1, t.lead) && Stands(page, m, t.name)
            && page[m..n] == t.name
            && LiesAt(page, n, PrintPairs(t.pairs, t.tail)) && n + |PrintPairs(t.pairs, t.tail)| == end <= |page|
  {
    hide LiesAt, PrintPairs, Stands;
    var rest := PrintPairs(t.pairs, t.tail);
    PartsLie(page, at, "<", t.lead + (t.name + rest));
    PartsLie(page, at + 1, t.lead, t.name + rest);
    PartsLie(page, at + 1 + |t.lead|, t.name, rest);
    LiesStands(page, at, "<");
    LiesStands(page, at + 1, t.lead);
    LiesStands(page, at + 1 + |t.lead|, t.name);
    LiesStands(page, at + 1 + |t.lead| + |t.name|, rest);
    FitsThere(page, at + 1 + |t.lead| + |t.name|, rest);
  }

  lemma FitsThere(page: string, at: nat, part: string)
    requires Stands(page, at, part)
    ensures at + |part| <= |page|
  {
  }

  /** A tag name ends where the attributes, or the closing of the tag, begin. */
  lemma NameStops(page: string, n: nat, pairs: seq<Pair>, tail: string)
    requires AllPrintable(pairs) && SpacesAndSlashes(tail) && LiesAt(page, n, PrintPairs(pairs, tail))
    ensures n < |page| && !TagNameChar(page[n])
  {
    hide LiesAt, IsSpace, SpaceOrSlash;
    if pairs == [] {
      TailStands(page, n, tail);
      CharacterKinds(page[n]);
      if tail != [] {
        SlashesAreNoNames(tail[0]);
      }
    } else {
      PairsSplit(page, n, pairs, tail);
      PairAt(page, n, pairs[0]);
      CharacterKinds(page[n]);
    }
  }

  lemma SlashesAreNoNames(c: char)
    ensures SpaceOrSlash(c) ==> !TagNameChar(c)
  {
  }

  /** A printed tag ends where its printed text does, and is read as it was printed. */
  lemma TagReadThere(lower: string -> string, page: string, at: nat, t: Opening)
    requires PrintableTag(lower, t) && LiesAt(page, at, PrintTag(t))
    ensures var end := at + |PrintTag(t)|;
            && end <= |page| && TagEnd(page, at + 1, None) == end
            && Tag(lower, page, at, end) == Done(OpenToken(lower, t, at))
            && page[at] == '<' && at + 1 < end && page[at + 1] != '!'
  {
    hide Attributes, AttributesOf, PrintPairs, Printable, PrintTag, LiesAt, Tag, Skip, TagEnd, IsSpace, TagNameChar;
    TagStands(page, at, t);
    var m := at + 1 + |t.lead|;
    var n, end := m + |t.name|, at + |PrintTag(t)|;
    TagEndsThere(lower, page, at, t);
    NameStops(page, n, t.pairs, t.tail);
    CharacterKinds(page[m]);
    CharacterKinds(page[at + 1]);
    Skips(page, at + 1, end, t.lead, IsSpace);
    Skips(page, m, end, t.name, TagNameChar);
    PairsRead(lower, page, n, end, t.pairs, t.tail);
    HeadParts(lower, page, at, end);
    TagByHead(lower, page, at, end);
  }

  lemma TagEndsThere(lower: string -> string, page: string, at: nat, t: Opening)
    requires PrintableTag(lower, t) && LiesAt(page, at, PrintTag(t))
    ensures TagEnd(page, at + 1, None) == at + |PrintTag(t)|
    ensures at + 1 + |t.lead| + |t.name| < at + |PrintTag(t)|
  {
    hide PrintPairs, Printable, PrintTag, LiesAt, TagEnd, IsSpace, TagNameChar;
    TagStands(page, at, t);
    var m := at + 1 + |t.lead|;
    KindsPlain(t.lead);
    PartPlain(page, at + 1, t.lead);
    forall i | 0 <= i < |t.name| ensures !IsQuote(t.name[i]) && t.name[i] != '>' {
      CharacterKinds(t.name[i]);
    }
    PartPlain(page, m, t.name);
    PairsEnd(page, m + |t.name|, t.pairs, t.tail);
    PrintedSome(t.pairs, t.tail);
  }

  /** Tokenizing a printed tag gives one start tag with the printed attributes. */
  lemma TokenizerInvertsPrinter(lower: string -> string, t: Opening)
    requires PrintableTag(lower, t) && lower(t.name) != "script" && lower(t.name) != "style"
    ensures Tokens(lower, PrintTag(t), 0) == Done([OpenToken(lower, t, 0)])
  {
    hide PrintTag, Tag, TagEnd, AttributesOf, Tokens, LiesAt, PrintableTag;
    var text := PrintTag(t);
    WholeLies(text);
    TagReadThere(lower, text, 0, t);
    OneToken(lower, text, OpenToken(lower, t, 0));
  }

  lemma WholeLies(text: string)
    ensures LiesAt(text, 0, text)
  {
    assert text[0..0 + |text|] == text;
  }

  /** A text that is one tag, and no comment, script or style, is one token. */
  lemma OneToken(lower: string -> string, text: string, token: Token)
    requires |text| > 1 && text[0] == '<' && text[1] != '!' && TagEnd(text, 1, None) == |text|
    requires Tag(lower, text, 0, |text|) == Done(token) && token.end == |text|
    requires token.tagName != Some("script") && token.tagName != Some("style")
    ensures Tokens(lower, text, 0) == Done([token])
  {
    hide Tag, TagEnd;
    assert LiesAt(text, 0, "<");
    assert |text| >= 4 ==> text[0..4][1] == text[1];
    assert IndexOf(text, "<", 0) == Some(0);
    assert Tokens(lower, text, |text|) == Done([]);
    assert [token] + [] == [token];
  }

  /** The value of the `i`-th attribute that is read is the printed one. */
  lemma {:induction false} ValuesComeBack(lower: string -> string, text: string, at: nat, pairs: seq<Pair>,
                                          tail: string, i: nat)
    requires LiesAt(text, at, PrintPairs(pairs, tail)) && i < |pairs| && pairs[i].writing != Alone
    ensures var v := AttributesOf(lower, pairs, at)[i].value.value;
            v.start <= v.end <= |text| && text[v.start..v.end] == pairs[i].value
    decreases |pairs|
  {
    hide PrintPair, PrintValue, PrintText, LiesAt;
    PairsSplit(text, at, pairs, tail);
    var p := pairs[0];
    if i == 0 {
      PairAt(text, at, p);
      ValueIsAt(text, at + |p.before| + |p.name|, p);
      TextIsAt(text, at + |p.before| + |p.name| + |p.left| + 1 + |p.right|, p);
    } else {
      ValuesComeBack(lower, text, at + |PrintPair(p)|, pairs[1..], tail, i - 1);
    }
  }

  /** A rewritten value, escaped and put between double quotes, is printable: the tokenizer reads it back. */
  lemma EscapedIsPrintable(p: Pair, value: string)
    requires Printable(p) && p.writing == Double
    ensures Printable(p.(value := HtmlRewrite.Escape(value)))
  {
    HtmlRewrite.EscapedStaysInside(value);
  }
}

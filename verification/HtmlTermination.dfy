/** When the HTML tokenizer terminates (packages/archive-core/src/rewrite.ts:718-736). The scan of an
    attribute name has no guard for the end of the text; a reader that takes one character at a time tells
    exactly which texts it never gets past. */
module HtmlTermination {
  import opened Options
  import opened Scanner
  import opened Slices
  import opened HtmlTokens

  /** What a character of a tag belongs to, reading it once from left to right. */
  datatype Mode = Gap | Name(from: nat) | AfterName | BeforeValue | Quoted(quote: char) | Bare

  function Step(mode: Mode, i: nat, c: char): Mode {
    match mode
    case Gap => if NameChar(c) then Name(i) else Gap
    case Name(from) => if NameChar(c) then mode else if IsSpace(c) then AfterName else if c == '=' then BeforeValue
      else Gap
    case AfterName => if IsSpace(c) then AfterName else if c == '=' then BeforeValue else if NameChar(c) then Name(i)
      else Gap
    case BeforeValue => if IsSpace(c) then BeforeValue else if IsQuote(c) then Quoted(c) else if c == '>' then Gap
      else Bare
    case Quoted(quote) => if c == quote then Gap else mode
    case Bare => if BareChar(c) then Bare else Gap
  }

  function ModeAfter(text: string, i: nat, end: nat, mode: Mode): Mode
    requires i <= end <= |text|
    decreases end - i
  {
    if i == end then mode else ModeAfter(text, i + 1, end, Step(mode, i, text[i]))
  }

  /** The text ends inside an attribute name that began before its last character. */
  predicate NameOpen(text: string, i: nat, end: nat, mode: Mode)
    requires i <= end <= |text|
  {
    var last := ModeAfter(text, i, end, mode);
    last.Name? && last.from + 1 < end
  }

  lemma {:induction false} Stays(text: string, i: nat, j: nat, end: nat, mode: Mode)
    requires i <= j <= end <= |text| && forall k :: i <= k < j ==> Step(mode, k, text[k]) == mode
    ensures ModeAfter(text, i, end, mode) == ModeAfter(text, j, end, mode)
    decreases j - i
  {
    if i < j {
      Stays(text, i + 1, j, end, mode);
    }
  }

  lemma OneStep(text: string, i: nat, end: nat, mode: Mode)
    requires i < end <= |text| && i + 1 == end
    ensures ModeAfter(text, i, end, mode) == Step(mode, i, text[i])
  {
    assert ModeAfter(text, end, end, Step(mode, i, text[i])) == Step(mode, i, text[i]);
  }

  lemma OneLeft(text: string, i: nat, end: nat)
    requires i <= end <= |text| && i + 1 >= end
    ensures !NameOpen(text, i, end, Gap)
  {
    if i < end {
      OneStep(text, i, end, Gap);
    }
  }

  /** A name from `a` to `b`: it stays open exactly when it reaches the end. */
  lemma NameMode(text: string, cursor: nat, a: nat, b: nat, end: nat)
    requires cursor <= a < b <= end <= |text| && a == Skip(text, cursor, end, SpaceOrSlash)
    requires b == Skip(text, a, end, NameChar)
    ensures ModeAfter(text, cursor, end, Gap) == ModeAfter(text, b, end, Name(a))
  {
    Stays(text, cursor, a, end, Gap);
    assert Step(Gap, a, text[a]) == Name(a);
    Stays(text, a + 1, b, end, Name(a));
  }

  /** After a name without a value, the scan goes on as in a gap. */
  lemma PlainNameMode(text: string, a: nat, b: nat, end: nat)
    requires a < b <= end <= |text| && b < end && !NameChar(text[b])
    requires var c := Skip(text, b, end, IsSpace); c == end || text[c] != '='
    ensures NameOpen(text, b, end, Name(a)) <==> NameOpen(text, Skip(text, b, end, IsSpace), end, Gap)
  {
    var c := Skip(text, b, end, IsSpace);
    if b < c {
      assert Step(Name(a), b, text[b]) == AfterName;
      Stays(text, b + 1, c, end, AfterName);
    }
    if c < end && b < c {
      assert Step(AfterName, c, text[c]) == Step(Gap, c, text[c]);
    }
  }

  /** After a name and its equals sign comes what precedes a value. */
  lemma EqualsMode(text: string, a: nat, b: nat, c: nat, end: nat)
    requires a < b <= c < end <= |text| && !NameChar(text[b]) && c == Skip(text, b, end, IsSpace) && text[c] == '='
    ensures ModeAfter(text, b, end, Name(a)) == ModeAfter(text, Skip(text, c + 1, end, IsSpace), end, BeforeValue)
  {
    if b < c {
      assert Step(Name(a), b, text[b]) == AfterName;
      Stays(text, b + 1, c, end, AfterName);
    }
    Stays(text, c + 1, Skip(text, c + 1, end, IsSpace), end, BeforeValue);
  }

  lemma QuotedMode(text: string, d: nat, end: nat)
    requires d < end <= |text| && IsQuote(text[d])
    ensures var v := ValueAt(text, d, end);
            NameOpen(text, d, end, BeforeValue) <==> NameOpen(text, AfterValue(text, v, end), end, Gap)
  {
    var v := ValueAt(text, d, end);
    assert !IsSpace('\'') && !IsSpace('"');
    assert Step(BeforeValue, d, text[d]) == Quoted(text[d]);
    if d + 1 == end {
      OneStep(text, d, end, BeforeValue);
      OneLeft(text, end, end);
    } else {
      Stays(text, d + 1, v.end, end, Quoted(text[d]));
      if v.end + 1 == end {
        OneStep(text, v.end, end, Quoted(text[d]));
        OneLeft(text, AfterValue(text, v, end), end);
      }
    }
  }

  lemma BareMode(text: string, d: nat, end: nat)
    requires d <= end <= |text| && (d < end ==> !IsQuote(text[d]) && !IsSpace(text[d]))
    ensures var v := ValueAt(text, d, end);
            NameOpen(text, d, end, BeforeValue) <==> NameOpen(text, AfterValue(text, v, end), end, Gap)
  {
    var v := ValueAt(text, d, end);
    if d + 1 >= end {
      OneLeft(text, d, end);
      if d < end {
        OneStep(text, d, end, BeforeValue);
      }
    } else if text[d] != '>' {
      assert Step(BeforeValue, d, text[d]) == Bare;
      Stays(text, d + 1, v.end, end, Bare);
      if v.end + 1 == end {
        OneStep(text, v.end, end, Bare);
        OneLeft(text, v.end, end);
      }
    }
  }

  /** One turn of the attribute loop agrees with the reader on whether a name is open at the end. */
  lemma TurnMode(lower: string -> string, text: string, cursor: nat, end: nat)
    requires cursor <= end <= |text|
    ensures match TurnAt(lower, text, cursor, end)
            case Stop => !NameOpen(text, cursor, end, Gap)
            case Stuck => NameOpen(text, cursor, end, Gap)
            case Pass(next) => NameOpen(text, cursor, end, Gap) == NameOpen(text, next, end, Gap)
            case Read(_, next) => NameOpen(text, cursor, end, Gap) == NameOpen(text, next, end, Gap)
  {
    hide IsSpace, ValueAt, AfterValue, NameOpen;
    if cursor + 1 >= end {
      OneLeft(text, cursor, end);
    } else {
      var a := Skip(text, cursor, end, SpaceOrSlash);
      if a + 1 >= end {
        StaysGap(text, cursor, a, end);
        OneLeft(text, a, end);
      } else {
        var b := Skip(text, a, end, NameChar);
        if b == a {
          StaysGap(text, cursor, a + 1, end);
        } else {
          NameTurn(lower, text, cursor, a, b, end);
        }
      }
    }
  }

  lemma StaysGap(text: string, i: nat, j: nat, end: nat)
    requires i <= j <= end <= |text| && forall k :: i <= k < j ==> !NameChar(text[k])
    ensures NameOpen(text, i, end, Gap) == NameOpen(text, j, end, Gap)
  {
    hide NameChar;
    Stays(text, i, j, end, Gap);
  }

  lemma NameTurn(lower: string -> string, text: string, cursor: nat, a: nat, b: nat, end: nat)
    requires cursor <= a < b <= end <= |text| && a + 1 < end && a == Skip(text, cursor, end, SpaceOrSlash)
    requires b == Skip(text, a, end, NameChar)
    ensures match TurnAt(lower, text, cursor, end)
            case Stop => false
            case Stuck => NameOpen(text, cursor, end, Gap)
            case Pass(next) => false
            case Read(_, next) => NameOpen(text, cursor, end, Gap) == NameOpen(text, next, end, Gap)
  {
    hide IsSpace, ValueAt, AfterValue, NameChar, SpaceOrSlash, Skip, Step;
    NameMode(text, cursor, a, b, end);
    if b < end {
      var c := Skip(text, b, end, IsSpace);
      if c == end || text[c] != '=' {
        PlainNameMode(text, a, b, end);
      } else {
        EqualsMode(text, a, b, c, end);
        var d := Skip(text, c + 1, end, IsSpace);
        if d < end && IsQuote(text[d]) {
          QuotedMode(text, d, end);
        } else {
          BareMode(text, d, end);
        }
      }
    }
  }

  /** The attribute loop never ends exactly when the tag ends inside an attribute name that began before
      its last character: neither in a gap, nor in a value. */
  lemma {:induction false} DivergesExactlyInAnOpenName(lower: string -> string, text: string, cursor: nat, end: nat)
    requires cursor <= end <= |text|
    ensures Attributes(lower, text, cursor, end).Diverges? <==> NameOpen(text, cursor, end, Gap)
    decreases end - cursor
  {
    hide TurnAt, NameOpen;
    TurnMode(lower, text, cursor, end);
    match TurnAt(lower, text, cursor, end)
    case Pass(next) => DivergesExactlyInAnOpenName(lower, text, next, end);
    case Read(_, next) => DivergesExactlyInAnOpenName(lower, text, next, end);
    case _ =>
  }

  lemma {:induction false} LastCharacter(text: string, i: nat, end: nat, mode: Mode)
    requires i < end <= |text| && !NameChar(text[end - 1])
    ensures !ModeAfter(text, i, end, mode).Name?
    decreases end - i
  {
    if i + 1 < end {
      LastCharacter(text, i + 1, end, Step(mode, i, text[i]));
    } else {
      assert ModeAfter(text, end, end, Step(mode, i, text[i])) == Step(mode, i, text[i]);
    }
  }

  lemma ClosedTagTerminates(lower: string -> string, text: string, start: nat, end: nat)
    requires start < end <= |text| && !NameChar(text[end - 1])
    ensures Tag(lower, text, start, end).Done?
  {
    var slash := Skip(text, start + 1, end, IsSpace);
    var nameStart := if slash < end && text[slash] == '/' then slash + 1 else slash;
    var nameEnd := Skip(text, nameStart, end, TagNameChar);
    DivergesExactlyInAnOpenName(lower, text, nameEnd, end);
    if nameEnd < end {
      LastCharacter(text, nameEnd, end, Gap);
    }
  }

  /** Only the last tag of a text can be unclosed: a text whose last character could not be part of an
      attribute name is always tokenized. */
  lemma {:induction false} TokenizerTerminates(lower: string -> string, text: string, cursor: nat)
    requires text == [] || !NameChar(text[|text| - 1])
    ensures Tokens(lower, text, cursor).Done?
    decreases |text| - cursor
  {
    hide Tag, AfterToken, AfterComment, TagEnd, CommentAt, NameChar;
    var start := if cursor < |text| then IndexOf(text, "<", cursor) else None;
    if start.Some? {
      if CommentAt(text, start.value) {
        TokenizerTerminates(lower, text, AfterComment(text, start.value));
      } else {
        var end := TagEnd(text, start.value + 1, None);
        TagIsClosedOrLast(text, start.value + 1, None);
        assert !NameChar('>') by { GreaterThanIsNoName(); }
        ClosedTagTerminates(lower, text, start.value, end);
        TagKeepsPlace(lower, text, start.value, end);
        TokenizerTerminates(lower, text, AfterToken(lower, text, Tag(lower, text, start.value, end).result));
      }
    }
  }

  lemma GreaterThanIsNoName()
    ensures !NameChar('>')
  {
  }

  /** The tag that runs to the end of the text, if the tokenizer comes to one. */
  function UnclosedTag(lower: string -> string, text: string, cursor: nat): (start: Option<nat>)
    ensures start.Some? ==> cursor <= start.value < |text|
    decreases |text| - cursor
  {
    var start := if cursor < |text| then IndexOf(text, "<", cursor) else None;
    if start.None? then None
    else if CommentAt(text, start.value) then UnclosedTag(lower, text, AfterComment(text, start.value))
    else
      var end := TagEnd(text, start.value + 1, None);
      if end == |text| then Some(start.value)
      else
        ClosedTagIsRead(lower, text, start.value);
        UnclosedTag(lower, text, AfterToken(lower, text, Tag(lower, text, start.value, end).result))
  }

  lemma ClosedTagIsRead(lower: string -> string, text: string, start: nat)
    requires start < |text| && TagEnd(text, start + 1, None) < |text|
    ensures var end := TagEnd(text, start + 1, None);
            var tag := Tag(lower, text, start, end);
            tag.Done? && tag.result.start == start && tag.result.end == end
  {
    var end := TagEnd(text, start + 1, None);
    TagIsClosedOrLast(text, start + 1, None);
    ClosedTagTerminates(lower, text, start, end);
    TagKeepsPlace(lower, text, start, end);
  }

  /** A start tag whose attributes end inside a name that began before the last character. */
  predicate EndsInAName(lower: string -> string, text: string, start: nat, end: nat)
    requires start < end <= |text|
  {
    HeadEnds(lower, text, start, end);
    var head := HeadAt(lower, text, start, end);
    head.StartTag? && NameOpen(text, head.from, end, Gap)
  }

  lemma HeadEnds(lower: string -> string, text: string, start: nat, end: nat)
    requires start < end <= |text|
    ensures var head := HeadAt(lower, text, start, end); head.StartTag? ==> head.from <= end
  {
  }

  lemma TagDivergesExactly(lower: string -> string, text: string, start: nat, end: nat)
    requires start < end <= |text|
    ensures Tag(lower, text, start, end).Diverges? <==> EndsInAName(lower, text, start, end)
  {
    TagByHead(lower, text, start, end);
    hide Tag, HeadAt, Attributes, NameOpen;
    var head := HeadAt(lower, text, start, end);
    if head.StartTag? {
      DivergesExactlyInAnOpenName(lower, text, head.from, end);
    }
  }

  /** Tokenizing a text never ends exactly when the tokenizer comes to a start tag that runs to the end of the text
      and ends there inside an attribute name. */
  lemma {:induction false} TokenizerDivergesExactly(lower: string -> string, text: string, cursor: nat)
    ensures var start := UnclosedTag(lower, text, cursor);
            Tokens(lower, text, cursor).Diverges? <==> start.Some? && EndsInAName(lower, text, start.value, |text|)
    decreases |text| - cursor
  {
    hide Tag, AfterToken, AfterComment, TagEnd, CommentAt, EndsInAName;
    var start := if cursor < |text| then IndexOf(text, "<", cursor) else None;
    if start.Some? {
      if CommentAt(text, start.value) {
        TokenizerDivergesExactly(lower, text, AfterComment(text, start.value));
      } else {
        var end := TagEnd(text, start.value + 1, None);
        if end == |text| {
          TagDivergesExactly(lower, text, start.value, end);
          if Tag(lower, text, start.value, end).Done? {
            TagKeepsPlace(lower, text, start.value, end);
            NothingFollows(lower, text, AfterToken(lower, text, Tag(lower, text, start.value, end).result));
          }
        } else {
          ClosedTagIsRead(lower, text, start.value);
          TokenizerDivergesExactly(lower, text, AfterToken(lower, text, Tag(lower, text, start.value, end).result));
        }
      }
    }
  }

  lemma NothingFollows(lower: string -> string, text: string, cursor: nat)
    requires cursor >= |text|
    ensures Tokens(lower, text, cursor) == Done([])
  {
  }

  /** The shortest kind of text the tokenizer never gets past. */
  lemma UnclosedNameDiverges(lower: string -> string)
    requires lower("a") != []
    ensures Tokens(lower, "<a bc", 0).Diverges?
  {
    var text := "<a bc";
    assert text[0..4][1] == 'a';
    assert LiesAt(text, 0, "<");
    assert TagEnd(text, 1, None) == 5 by {
      assert TagEnd(text, 4, None) == TagEnd(text, 5, None) == 5;
      assert TagEnd(text, 2, None) == TagEnd(text, 3, None) == TagEnd(text, 4, None);
    }
    assert Skip(text, 1, 5, IsSpace) == 1;
    assert Skip(text, 2, 5, TagNameChar) == 2 && Skip(text, 1, 5, TagNameChar) == 2;
    assert text[1..2] == "a";
    assert Step(Gap, 2, ' ') == Gap && Step(Gap, 3, 'b') == Name(3) && Step(Name(3), 4, 'c') == Name(3);
    assert ModeAfter(text, 4, 5, Name(3)) == ModeAfter(text, 5, 5, Name(3));
    assert ModeAfter(text, 2, 5, Gap) == ModeAfter(text, 3, 5, Gap) == ModeAfter(text, 4, 5, Name(3));
    DivergesExactlyInAnOpenName(lower, text, 2, 5);
  }
}

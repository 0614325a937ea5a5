/** What becomes of an attribute value that is replaced in an HTML tag (packages/archive-core/src/rewrite.ts:366-368,
    691-739 and 900-907): exactly when the tokenizer reads the new value back, and the tag ends where it did. */
module HtmlValues {
  import opened Options
  import opened Scanner
  import opened HtmlTokens
  import opened HtmlRewrite
  import opened SplicedText

  // ----- A tag that is moved -----

  /** A tag is known up to `hi`: it has moved whole, or what is read of it stops before `hi`. */
  predicate KnownTag(hi: nat, end: nat, d: int, end2: nat, last: nat) {
    (hi == end && end2 == end + d) || (last < hi < end && hi + d < end2)
  }

  function MovedValue(v: Value, d: int): Value
    requires 0 <= v.start + d && v.start <= v.end
  {
    Value(v.start + d, v.end + d, v.quote)
  }

  function Keeping(quote: Option<char>): char -> bool {
    if quote.Some? then c => c != quote.value else BareChar
  }

  /** The parts of a value. */
  lemma ValueParts(text: string, x: nat, end: nat)
    requires x <= end <= |text|
    ensures var v := ValueAt(text, x, end);
            && v.quote == (if x < end && IsQuote(text[x]) then Some(text[x]) else None)
            && v.start == (if v.quote.Some? then x + 1 else x)
            && v.end == (if v.start < end then Skip(text, v.start, end - 1, Keeping(v.quote)) else v.start)
  {
  }

  lemma ValueMoves(text: string, other: string, x: nat, end: nat, d: int, hi: nat, end2: nat)
    requires x <= hi <= end <= |text| && Moves(text, x, hi, other, d) && end2 <= |other|
    requires KnownTag(hi, end, d, end2, AfterValue(text, ValueAt(text, x, end), end))
    ensures var v := ValueAt(text, x, end);
            && ValueAt(other, x + d, end2) == MovedValue(v, d)
            && AfterValue(other, ValueAt(other, x + d, end2), end2) == AfterValue(text, v, end) + d
  {
    hide ValueAt, Keeping, IsQuote, Skip;
    var v := ValueAt(text, x, end);
    ValueParts(text, x, end);
    ValueParts(other, x + d, end2);
    assert x < hi ==> other[x + d] == text[x];
    if v.start < end {
      var to := if hi == end then end - 1 else hi;
      MovesPart(text, x, hi, other, d, v.start, to);
      SkipMoves(text, other, v.start, end - 1, Keeping(v.quote), d, to, end2 - 1);
      assert v.end < hi ==> other[v.end + d] == text[v.end];
    }
  }

  function MovedAttribute(a: Attribute, d: int): Attribute
    requires a.value.Some? ==> 0 <= a.value.value.start + d && a.value.value.start <= a.value.value.end
  {
    if a.value.Some? then Attribute(a.name, Some(MovedValue(a.value.value, d))) else a
  }

  predicate Movable(turn: Turn, d: int) {
    && (turn.Pass? || turn.Read? ==> 0 <= turn.next + d)
    && (turn.Read? && turn.attribute.value.Some? ==>
          0 <= turn.attribute.value.value.start + d
            && turn.attribute.value.value.start <= turn.attribute.value.value.end)
  }

  function MovedTurn(turn: Turn, d: int): Turn
    requires Movable(turn, d)
  {
    match turn
    case Pass(next) => Pass(next + d)
    case Read(a, next) => Read(MovedAttribute(a, d), next + d)
    case _ => turn
  }

  /** Where a turn begins to read a value. */
  lemma TurnBounds(lower: string -> string, text: string, cursor: nat, end: nat)
    requires cursor <= end <= |text|
    ensures var turn := TurnAt(lower, text, cursor, end);
            turn.Read? && turn.attribute.value.Some? ==>
              var v := turn.attribute.value.value;
              cursor <= v.start <= v.end <= turn.next <= end
  {
    hide IsSpace, Skip;
  }

  /** What a turn reads once it has found a name, from `a` to `b`, and what follows it, at `c`. */
  function NamedTurn(name: string, text: string, c: nat, end: nat): Turn
    requires c <= end <= |text|
  {
    if c == end || text[c] != '=' then Read(Attribute(name, None), c)
    else
      var v := ValueAt(text, Skip(text, c + 1, end, IsSpace), end);
      Read(Attribute(name, Some(v)), AfterValue(text, v, end))
  }

  lemma TurnNamed(lower: string -> string, text: string, cursor: nat, a: nat, b: nat, end: nat)
    requires cursor <= a < b < end <= |text| && a + 1 < end
    requires a == Skip(text, cursor, end, SpaceOrSlash) && b == Skip(text, a, end, NameChar)
    ensures TurnAt(lower, text, cursor, end) == NamedTurn(lower(text[a..b]), text, Skip(text, b, end, IsSpace), end)
  {
    hide Skip, ValueAt, AfterValue, SpaceOrSlash, NameChar, IsSpace;
  }

  lemma NamedMoves(name: string, text: string, other: string, c: nat, end: nat, d: int, hi: nat, end2: nat)
    requires c <= hi <= end <= |text| && Moves(text, c, hi, other, d) && end2 <= |other|
    requires KnownTag(hi, end, d, end2, NamedTurn(name, text, c, end).next)
    ensures 0 <= c + d <= end2
    ensures var turn := NamedTurn(name, text, c, end);
            Movable(turn, d) && NamedTurn(name, other, c + d, end2) == MovedTurn(turn, d)
  {
    hide Skip, ValueAt, AfterValue, IsSpace, Moves;
    MovesPart(text, c, hi, other, d, c, hi);
    if c < end {
      MovesHead(text, c, hi, other, d);
      if text[c] == '=' {
        var x := Skip(text, c + 1, end, IsSpace);
        MovesPart(text, c, hi, other, d, c + 1, hi);
        SkipMoves(text, other, c + 1, end, IsSpace, d, hi, end2);
        MovesPart(text, c, hi, other, d, x, hi);
        ValueMoves(text, other, x, end, d, hi, end2);
      }
    }
  }

  lemma NameMoves(lower: string -> string, text: string, other: string, cursor: nat, a: nat, b: nat, end: nat, d: int,
                  hi: nat, end2: nat)
    requires cursor <= a < b < end <= |text| && a + 1 < end && b <= hi <= end && Moves(text, cursor, hi, other, d)
    requires end2 <= |other|
    requires a == Skip(text, cursor, end, SpaceOrSlash) && b == Skip(text, a, end, NameChar)
    requires 0 <= cursor + d && b + d < end2 && a + 1 + d < end2
    requires a + d == Skip(other, cursor + d, end2, SpaceOrSlash) && b + d == Skip(other, a + d, end2, NameChar)
    requires KnownTag(hi, end, d, end2, TurnAt(lower, text, cursor, end).next)
    ensures var turn := TurnAt(lower, text, cursor, end);
            Movable(turn, d) && TurnAt(lower, other, cursor + d, end2) == MovedTurn(turn, d)
  {
    hide TurnAt, NamedTurn, MovedTurn, Movable, Skip, SpaceOrSlash, NameChar, IsSpace, Moves;
    TurnNamed(lower, text, cursor, a, b, end);
    TurnNamed(lower, other, cursor + d, a + d, b + d, end2);
    MovesPart(text, cursor, hi, other, d, a, b);
    SliceMoves(text, a, b, other, d);
    var c := Skip(text, b, end, IsSpace);
    NamedAfter(lower(text[a..b]), text, c, end);
    MovesPart(text, cursor, hi, other, d, b, hi);
    SkipMoves(text, other, b, end, IsSpace, d, hi, end2);
    MovesPart(text, cursor, hi, other, d, c, hi);
    NamedMoves(lower(text[a..b]), text, other, c, end, d, hi, end2);
  }

  lemma NamedAfter(name: string, text: string, c: nat, end: nat)
    requires c <= end <= |text|
    ensures c <= NamedTurn(name, text, c, end).next <= end
  {
  }

  /** What a turn reads, it reads wherever it has moved to. */
  lemma TurnMoves(lower: string -> string, text: string, other: string, cursor: nat, end: nat, d: int, hi: nat,
                  end2: nat)
    requires cursor <= hi <= end <= |text| && Moves(text, cursor, hi, other, d) && end2 <= |other|
    requires var turn := TurnAt(lower, text, cursor, end);
             (hi == end && end2 == end + d) || ((turn.Pass? || turn.Read?) && turn.next < hi < end && hi + d < end2)
    ensures var turn := TurnAt(lower, text, cursor, end);
            Movable(turn, d) && TurnAt(lower, other, cursor + d, end2) == MovedTurn(turn, d)
  {
    hide Skip, ValueAt, AfterValue, SpaceOrSlash, NameChar, IsSpace, Moves;
    TurnBounds(lower, text, cursor, end);
    MovesPart(text, cursor, hi, other, d, cursor, hi);
    var a := Skip(text, cursor, end, SpaceOrSlash);
    if cursor + 1 < end {
      SkipMoves(text, other, cursor, end, SpaceOrSlash, d, hi, end2);
      if a + 1 < end {
        var b := Skip(text, a, end, NameChar);
        MovesPart(text, cursor, hi, other, d, a, hi);
        SkipMoves(text, other, a, end, NameChar, d, hi, end2);
        if a < b < end {
          NameMoves(lower, text, other, cursor, a, b, end, d, hi, end2);
        }
      }
    }
  }

  // ----- A value that is replaced -----

  /** The value of an attribute that ends where it should: before its quote, or before a space or a `>`. */
  predicate Terminated(text: string, v: Value, end: nat) {
    v.start <= v.end < end <= |text| && (if v.quote.Some? then text[v.end] == v.quote.value else !BareChar(text[v.end]))
  }

  /** What can stand between these quotes, or bare, before the character that follows. */
  predicate ReadsBack(quote: Option<char>, put: string, following: char) {
    if quote.Some? then quote.value !in put
    else if put == [] then following == '>'
    else !IsQuote(put[0]) && forall i :: 0 <= i < |put| ==> BareChar(put[i])
  }

  /** A text with `put` at `at`, and the character that follows. */
  predicate PutAt(other: string, at: int, put: string, following: char, end2: nat) {
    && 0 <= at && at + |put| < end2 <= |other|
    && (forall i :: 0 <= i < |put| ==> other[at + i] == put[i]) && other[at + |put|] == following
  }

  /** A quoted value is read back exactly when it does not hold its quote. */
  lemma QuotedReplaced(other: string, x: nat, put: string, quote: char, end2: nat)
    requires IsQuote(quote) && PutAt(other, x + 1, put, quote, end2) && other[x] == quote
    ensures ValueAt(other, x, end2) == Value(x + 1, x + 1 + |put|, Some(quote)) <==> quote !in put
  {
    hide ValueAt, IsQuote, Skip;
    var keep := Keeping(Some(quote));
    var r := x + 1 + |put|;
    ValueParts(other, x, end2);
    if quote in put {
      var i :| 0 <= i < |put| && put[i] == quote;
      assert other[x + 1 + i] == quote;
    } else {
      forall k | x + 1 <= k < r ensures keep(other[k]) {
        assert other[x + 1 + (k - x - 1)] == put[k - x - 1];
      }
      SkipIs(other, x + 1, end2 - 1, keep, r);
    }
  }

  /** A bare value that does not begin with a space is read back exactly when it does not begin with a quote
      and holds neither a space nor a `>`. */
  lemma BareReplaced(other: string, x: nat, put: string, following: char, end2: nat)
    requires PutAt(other, x, put, following, end2) && !BareChar(following)
    ensures ValueAt(other, x, end2) == Value(x, x + |put|, None)
       <==> put == [] || (!IsQuote(put[0]) && forall i :: 0 <= i < |put| ==> BareChar(put[i]))
  {
    assert !IsQuote(following);
    hide ValueAt, IsQuote, Skip, BareChar;
    ValueParts(other, x, end2);
    assert other[x] == if put == [] then following else put[0];
    if forall i :: 0 <= i < |put| ==> BareChar(put[i]) {
      forall k | x <= k < x + |put| ensures BareChar(other[k]) {
        assert other[x + (k - x)] == put[k - x];
      }
      SkipIs(other, x, end2 - 1, BareChar, x + |put|);
    } else {
      var i :| 0 <= i < |put| && !BareChar(put[i]);
      assert other[x + i] == put[i];
    }
  }

  /** The value with this text in its place. */
  function NewValue(v: Value, d: int, put: string): Value
    requires 0 <= v.start + d
  {
    Value(v.start + d, v.start + d + |put|, v.quote)
  }

  lemma SpacesBefore(text: string, other: string, c: nat, x: nat, end: nat, d: int, hi: nat, end2: nat)
    requires c <= x < hi <= end <= |text| && x == Skip(text, c, end, IsSpace) && Moves(text, c, hi, other, d)
    requires hi + d <= end2 <= |other|
    ensures 0 <= c + d && Skip(other, c + d, end2, IsSpace) == x + d
  {
    hide IsSpace;
    MovesPart(text, c, hi, other, d, c, hi);
    SkipMoves(text, other, c, end, IsSpace, d, hi, end2);
  }

  /** Where the spaces end before a bare value that was replaced. */
  lemma SpacesBeforeBare(text: string, other: string, c: nat, x: nat, end: nat, d: int, put: string, following: char,
                         end2: nat)
    requires c <= x <= end <= |text| && x == Skip(text, c, end, IsSpace) && Moves(text, c, x, other, d)
    requires PutAt(other, x + d, put, following, end2)
    ensures 0 <= c + d
    ensures Skip(other, c + d, end2, IsSpace) == x + d <==> !IsSpace(if put == [] then following else put[0])
  {
    hide IsSpace;
    assert other[x + d] == if put == [] then following else put[0];
    if !IsSpace(other[x + d]) {
      forall k | c + d <= k < x + d ensures IsSpace(other[k]) {
        assert other[(k - d) + d] == text[k - d];
      }
      SkipIs(other, c + d, end2, IsSpace, x + d);
    }
  }

  /** The value that is read after the equals sign at `c - 1`, when the one that was read there is replaced. */
  lemma ValueReplaced(text: string, other: string, c: nat, end: nat, d: int, end2: nat, put: string)
    requires c <= end <= |text|
    requires var v := ValueAt(text, Skip(text, c, end, IsSpace), end);
             Terminated(text, v, end) && Moves(text, c, v.start, other, d)
               && PutAt(other, v.start + d, put, text[v.end], end2)
    ensures 0 <= c + d <= end2
    ensures var v := ValueAt(text, Skip(text, c, end, IsSpace), end);
            ValueAt(other, Skip(other, c + d, end2, IsSpace), end2) == NewValue(v, d, put)
            <==> ReadsBack(v.quote, put, text[v.end])
  {
    hide ValueAt, Skip, IsSpace, IsQuote, Moves;
    var x := Skip(text, c, end, IsSpace);
    var v := ValueAt(text, x, end);
    ValueParts(text, x, end);
    MovesPart(text, c, v.start, other, d, c, v.start);
    if v.quote.Some? {
      MovesPart(text, c, v.start, other, d, x, v.start);
      MovesHead(text, x, v.start, other, d);
      SpacesBefore(text, other, c, x, end, d, v.start, end2);
      QuotedReplaced(other, x + d, put, text[x], end2);
    } else {
      assert !IsSpace('>') by { GreaterIsNoSpace(); }
      SpacesBeforeBare(text, other, c, x, end, d, put, text[v.end], end2);
      BareReplaced(other, x + d, put, text[v.end], end2);
      ValueParts(other, Skip(other, c + d, end2, IsSpace), end2);
    }
  }

  lemma GreaterIsNoSpace()
    ensures !IsSpace('>')
  {
  }

  /** A turn that reads an attribute, with another value in its place. */
  function NewTurn(name: string, v: Value, next: nat, d: int, put: string): Turn
    requires 0 <= v.start + d && v.end <= next
  {
    Read(Attribute(name, Some(NewValue(v, d, put))), v.start + d + |put| + (next - v.end))
  }

  lemma NamedReplaced(name: string, text: string, other: string, c: nat, end: nat, v: Value, d: int, end2: nat,
                      put: string)
    requires c < end <= |text| && text[c] == '=' && v == ValueAt(text, Skip(text, c + 1, end, IsSpace), end)
    requires Terminated(text, v, end) && Moves(text, c, v.start, other, d)
    requires PutAt(other, v.start + d, put, text[v.end], end2)
    ensures 0 <= c + d <= end2
    ensures NamedTurn(name, other, c + d, end2) == NewTurn(name, v, AfterValue(text, v, end), d, put)
       <==> ReadsBack(v.quote, put, text[v.end])
  {
    hide ValueAt, Skip, IsSpace, IsQuote, Moves, ReadsBack;
    MovesPart(text, c, v.start, other, d, c, v.start);
    MovesHead(text, c, v.start, other, d);
    MovesPart(text, c, v.start, other, d, c + 1, v.start);
    ValueReplaced(text, other, c + 1, end, d, end2, put);
    assert (c + 1) + d == (c + d) + 1;
  }

  lemma NamedValue(name: string, text: string, c: nat, end: nat, v: Value, next: nat)
    requires c < end <= |text| && text[c] == '='
    requires NamedTurn(name, text, c, end) == Read(Attribute(name, Some(v)), next)
    ensures v == ValueAt(text, Skip(text, c + 1, end, IsSpace), end) && next == AfterValue(text, v, end)
  {
  }

  /** Where the parts of an attribute with a value lie. */
  lemma TurnParts(lower: string -> string, text: string, cursor: nat, end: nat)
    requires cursor <= end <= |text|
    ensures var turn := TurnAt(lower, text, cursor, end);
            turn.Read? && turn.attribute.value.Some? ==>
              var a := Skip(text, cursor, end, SpaceOrSlash);
              var b := Skip(text, a, end, NameChar);
              var c := Skip(text, b, end, IsSpace);
              && a < b <= c < end && a + 1 < end && b < end && text[c] == '='
              && turn == NamedTurn(lower(text[a..b]), text, c, end)
              && c < turn.attribute.value.value.start && turn.attribute.name == lower(text[a..b])
  {
    hide Skip, ValueAt, AfterValue, SpaceOrSlash, NameChar, IsSpace;
  }

  /** The attribute of a turn whose value is replaced is read back, and reading goes on where it did, exactly when
      the new value can stand there. */
  lemma TurnReplaced(lower: string -> string, text: string, other: string, cursor: nat, end: nat, name: string,
                     v: Value, next: nat,
                     d: int, end2: nat, put: string)
    requires cursor <= v.start && Terminated(text, v, end)
    requires TurnAt(lower, text, cursor, end) == Read(Attribute(name, Some(v)), next)
    requires Moves(text, cursor, v.start, other, d) && PutAt(other, v.start + d, put, text[v.end], end2)
    ensures 0 <= cursor + d <= end2 <= |other| && v.end <= next
    ensures TurnAt(lower, other, cursor + d, end2) == NewTurn(name, v, next, d, put)
      <==> ReadsBack(v.quote, put, text[v.end])
  {
    hide TurnAt, NamedTurn, NewTurn, Skip, ValueAt, AfterValue, SpaceOrSlash, NameChar, IsSpace, IsQuote, Moves,
         ReadsBack, PutAt, BareChar;
    TurnParts(lower, text, cursor, end);
    PutInside(other, v.start + d, put, text[v.end], end2);
    var a := Skip(text, cursor, end, SpaceOrSlash);
    var b := Skip(text, a, end, NameChar);
    var c := Skip(text, b, end, IsSpace);
    NameFound(lower, text, other, cursor, end, d, v.start, end2);
    MovesPart(text, cursor, v.start, other, d, cursor, v.start);
    MovesPart(text, cursor, v.start, other, d, c, v.start);
    NamedValue(name, text, c, end, v, next);
    NamedReplaced(name, text, other, c, end, v, d, end2, put);
  }

  /** A name that has moved is found. */
  lemma NameFound(lower: string -> string, text: string, other: string, cursor: nat, end: nat, d: int, hi: nat,
                  end2: nat)
    requires cursor <= hi <= end <= |text| && Moves(text, cursor, hi, other, d) && hi + d <= end2 <= |other|
    requires var a := Skip(text, cursor, end, SpaceOrSlash);
             var b := Skip(text, a, end, NameChar);
             a < b && Skip(text, b, end, IsSpace) < hi
    ensures var a := Skip(text, cursor, end, SpaceOrSlash);
            var b := Skip(text, a, end, NameChar);
            var c := Skip(text, b, end, IsSpace);
            && 0 <= cursor + d && c + d <= end2
            && TurnAt(lower, other, cursor + d, end2) == NamedTurn(lower(text[a..b]), other, c + d, end2)
  {
    hide Skip, SpaceOrSlash, NameChar, IsSpace, Moves, TurnAt, NamedTurn;
    var a := Skip(text, cursor, end, SpaceOrSlash);
    var b := Skip(text, a, end, NameChar);
    var c := Skip(text, b, end, IsSpace);
    MovesPart(text, cursor, hi, other, d, cursor, hi);
    SkipMoves(text, other, cursor, end, SpaceOrSlash, d, hi, end2);
    MovesPart(text, cursor, hi, other, d, a, hi);
    SkipMoves(text, other, a, end, NameChar, d, hi, end2);
    MovesPart(text, cursor, hi, other, d, b, hi);
    SkipMoves(text, other, b, end, IsSpace, d, hi, end2);
    MovesPart(text, cursor, hi, other, d, a, b);
    SliceMoves(text, a, b, other, d);
    TurnNamed(lower, other, cursor + d, a + d, b + d, end2);
  }

  lemma PutInside(other: string, at: int, put: string, following: char, end2: nat)
    requires PutAt(other, at, put, following, end2)
    ensures 0 <= at < end2 <= |other| && at + |put| < end2
  {
  }

  // ----- The end of the tag -----

  /** What the scan for the end of a tag makes of a character: the quote it is inside of, if any. */
  function StepQuote(quote: Option<char>, c: char): Option<char> {
    if quote.Some? then (if c == quote.value then None else quote) else if IsQuote(c) then Some(c) else None
  }

  function QuoteAfter(s: string, quote: Option<char>): Option<char> {
    if s == [] then quote else QuoteAfter(s[1..], StepQuote(quote, s[0]))
  }

  /** No `>` outside quotes. */
  predicate StaysOpen(s: string, quote: Option<char>) {
    s == [] || (!(quote.None? && s[0] == '>') && StaysOpen(s[1..], StepQuote(quote, s[0])))
  }

  lemma {:induction false} QuoteConcat(a: string, b: string, quote: Option<char>)
    ensures QuoteAfter(a + b, quote) == QuoteAfter(b, QuoteAfter(a, quote))
    ensures StaysOpen(a + b, quote) <==> StaysOpen(a, quote) && StaysOpen(b, QuoteAfter(a, quote))
  {
    if a == [] {
      assert a + b == b;
    } else {
      assert (a + b)[1..] == a[1..] + b;
      QuoteConcat(a[1..], b, StepQuote(quote, a[0]));
    }
  }

  /** The tag that is read from `i` on is closed by the `>` before `end`. */
  predicate ClosedAt(text: string, i: nat, quote: Option<char>, end: nat) {
    && i < end <= |text| && text[end - 1] == '>'
    && StaysOpen(text[i..end - 1], quote) && QuoteAfter(text[i..end - 1], quote).None?
  }

  lemma {:induction false} ClosedThere(text: string, i: nat, quote: Option<char>, end: nat)
    requires ClosedAt(text, i, quote, end)
    ensures TagEnd(text, i, quote) == end
    decreases end - i
  {
    if i < end - 1 {
      assert text[i..end - 1][1..] == text[i + 1..end - 1];
      ClosedThere(text, i + 1, StepQuote(quote, text[i]), end);
    } else {
      assert text[i..end - 1] == [];
    }
  }

  /** A tag that ends before the text does is closed. */
  lemma {:induction false} EndIsClosed(text: string, i: nat, quote: Option<char>)
    requires i <= |text| && TagEnd(text, i, quote) < |text|
    ensures ClosedAt(text, i, quote, TagEnd(text, i, quote))
    decreases |text| - i
  {
    var end := TagEnd(text, i, quote);
    if quote.None? && text[i] == '>' {
      assert text[i..end - 1] == [];
    } else {
      EndIsClosed(text, i + 1, StepQuote(quote, text[i]));
      assert text[i..end - 1][1..] == text[i + 1..end - 1];
    }
  }

  predicate IsState(quote: Option<char>) {
    quote.Some? ==> IsQuote(quote.value)
  }

  lemma {:induction false} StateAfter(s: string, quote: Option<char>)
    requires IsState(quote)
    ensures IsState(QuoteAfter(s, quote))
  {
    if s != [] {
      StateAfter(s[1..], StepQuote(quote, s[0]));
    }
  }

  /** Scans that differ never meet again. */
  lemma {:induction false} QuotesStayApart(s: string, a: Option<char>, b: Option<char>)
    requires IsState(a) && IsState(b) && QuoteAfter(s, a) == QuoteAfter(s, b)
    ensures a == b
  {
    if s != [] {
      QuotesStayApart(s[1..], StepQuote(a, s[0]), StepQuote(b, s[0]));
    }
  }

  lemma {:induction false} NoCloseStaysOpen(s: string, quote: Option<char>)
    requires '>' !in s
    ensures StaysOpen(s, quote)
  {
    if s != [] {
      NoCloseStaysOpen(s[1..], StepQuote(quote, s[0]));
    }
  }

  /** When what lies between two parts of a closed tag is replaced by something without a `>`, the tag is closed
      where it was exactly when the scan leaves the new part in the state in which it left the old one. */
  lemma TagEndKept(before: string, was: string, put: string, rest: string)
    requires StaysOpen(before + was + rest, None) && QuoteAfter(before + was + rest, None).None? && '>' !in put
    ensures var quote := QuoteAfter(before, None);
            StaysOpen(before + put + rest, None) && QuoteAfter(before + put + rest, None).None?
            <==> QuoteAfter(put, quote) == QuoteAfter(was, quote)
  {
    var quote := QuoteAfter(before, None);
    QuoteConcat(before + was, rest, None);
    QuoteConcat(before, was, None);
    QuoteConcat(before + put, rest, None);
    QuoteConcat(before, put, None);
    NoCloseStaysOpen(put, quote);
    StateAfter(before, None);
    StateAfter(put, quote);
    StateAfter(was, quote);
    if QuoteAfter(rest, QuoteAfter(put, quote)).None? {
      QuotesStayApart(rest, QuoteAfter(put, quote), QuoteAfter(was, quote));
    }
  }

  // ----- Escaped values -----

  /** Where a new value can stand once it is escaped. */
  predicate CanStand(quote: Option<char>, value: string, following: char) {
    match quote
    case Some(q) => q == '"' || q !in value
    case None => if value == [] then following == '>' else value[0] != '\'' && !HasSpace(value)
  }

  predicate HasSpace(s: string) {
    exists i :: 0 <= i < |s| && IsSpace(s[i])
  }

  lemma {:induction false} EscapedSpaces(value: string)
    ensures HasSpace(Escape(value)) <==> HasSpace(value)
  {
    if value != [] {
      EscapedSpaces(value[1..]);
      EntityHasNoSpace(value[0]);
      hide HasSpace, IsSpace;
      SpacesSplit(EscapeChar(value[0]), Escape(value[1..]));
      SpacesSplit([value[0]], value[1..]);
      assert value == [value[0]] + value[1..];
    }
  }

  lemma SpacesSplit(a: string, b: string)
    ensures HasSpace(a + b) <==> HasSpace(a) || HasSpace(b)
  {
    hide IsSpace;
    forall i | 0 <= i < |a| ensures (a + b)[i] == a[i] {}
    forall i | 0 <= i < |b| ensures (a + b)[|a| + i] == b[i] {}
  }

  lemma EntityHasNoSpace(c: char)
    ensures HasSpace(EscapeChar(c)) <==> HasSpace([c])
  {
    if c != '&' && c != '"' && c != '<' && c != '>' {
      assert EscapeChar(c) == [c];
    } else {
      assert [c][0] == c && !IsSpace(c);
    }
  }

  lemma EscapedFirst(value: string)
    requires value != []
    ensures Escape(value) != [] && (IsQuote(Escape(value)[0]) <==> value[0] == '\'')
  {
  }

  lemma EscapedReadsBack(quote: Option<char>, value: string, following: char)
    requires IsState(quote)
    ensures ReadsBack(quote, Escape(value), following) <==> CanStand(quote, value, following)
  {
    EscapedStaysInside(value);
    if quote.None? && value != [] {
      EscapedFirst(value);
      EscapedSpaces(value);
      hide IsSpace;
    }
  }

  /** Put in the place of an attribute's value, a new value is read back, and reading goes on where it did: between
      double quotes always; between single quotes exactly when it holds no apostrophe; bare exactly when it holds no
      space and does not begin with an apostrophe, and is not empty unless a `>` follows. */
  lemma NewValueReadBack(lower: string -> string, text: string, other: string, cursor: nat, end: nat, name: string,
                         v: Value, next: nat,
                         d: int, end2: nat, value: string)
    requires cursor <= v.start && Terminated(text, v, end) && IsState(v.quote)
    requires TurnAt(lower, text, cursor, end) == Read(Attribute(name, Some(v)), next)
    requires Moves(text, cursor, v.start, other, d) && PutAt(other, v.start + d, Escape(value), text[v.end], end2)
    ensures 0 <= cursor + d <= end2 <= |other| && v.end <= next
    ensures TurnAt(lower, other, cursor + d, end2) == NewTurn(name, v, next, d, Escape(value))
       <==> CanStand(v.quote, value, text[v.end])
  {
    TurnReplaced(lower, text, other, cursor, end, name, v, next, d, end2, Escape(value));
    hide TurnAt, NewTurn, ReadsBack, CanStand, Escape, Moves, PutAt, Terminated;
    EscapedReadsBack(v.quote, value, text[v.end]);
  }

  function Apostrophes(value: string): nat {
    if value == [] then 0 else (if value[0] == '\'' then 1 else 0) + Apostrophes(value[1..])
  }

  lemma {:induction false} EscapedQuotes(value: string, quote: Option<char>)
    requires quote.None? || quote == Some('\'')
    ensures QuoteAfter(Escape(value), quote)
         == if Apostrophes(value) % 2 == 0 then quote else if quote.None? then Some('\'') else None
  {
    if value != [] {
      QuoteConcat(EscapeChar(value[0]), Escape(value[1..]), quote);
      EntityQuotes(value[0], quote);
      EscapedQuotes(value[1..], if value[0] != '\'' then quote else if quote.None? then Some('\'') else None);
    }
  }

  lemma {:induction false} NoQuotes(s: string, quote: Option<char>)
    requires '"' !in s && '\'' !in s && IsState(quote)
    ensures QuoteAfter(s, quote) == quote
  {
    if s != [] {
      NoQuotes(s[1..], quote);
    }
  }

  lemma EntityQuotes(c: char, quote: Option<char>)
    requires quote.None? || quote == Some('\'')
    ensures QuoteAfter(EscapeChar(c), quote) == if c != '\'' then quote else if quote.None? then Some('\'') else None
  {
    if c != '\'' {
      NoQuotes(EscapeChar(c), quote);
    } else {
      assert QuoteAfter(['\''], quote) == QuoteAfter([], StepQuote(quote, '\''));
    }
  }

  lemma {:induction false} InsideDoubleQuotes(s: string)
    requires '"' !in s
    ensures QuoteAfter(s, Some('"')) == Some('"')
  {
    if s != [] {
      InsideDoubleQuotes(s[1..]);
    }
  }

  /** A new value in the place of one that leaves the scan for the tag's end as it was: the tag still ends where it
      did exactly when the value is between double quotes or holds an even number of apostrophes. */
  lemma EscapedKeepsTagEnd(before: string, was: string, rest: string, value: string)
    requires StaysOpen(before + was + rest, None) && QuoteAfter(before + was + rest, None).None?
    requires QuoteAfter(was, QuoteAfter(before, None)) == QuoteAfter(before, None)
    ensures StaysOpen(before + Escape(value) + rest, None) && QuoteAfter(before + Escape(value) + rest, None).None?
       <==> QuoteAfter(before, None) == Some('"') || Apostrophes(value) % 2 == 0
  {
    var quote := QuoteAfter(before, None);
    EscapedStaysInside(value);
    StateAfter(before, None);
    TagEndKept(before, was, Escape(value), rest);
    if quote == Some('"') {
      InsideDoubleQuotes(Escape(value));
    } else {
      EscapedQuotes(value, quote);
    }
  }
}

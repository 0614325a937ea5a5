/** What `rewriteCss` makes of a style sheet (packages/archive-core/src/rewrite.ts:969-1041): scanned again, its output
    has the references of the sheet in their places with the new values, exactly when each new value can stand
    where it is put. */
module CssMeaning {
  import opened Options
  import opened Scanner
  import opened Slices
  import opened Splice
  import opened SplicedText
  import opened CssRewrite

  // ----- One scan -----

  /** The new value ends where it should: a quoted one does not hold its quote, and a bare one holds nothing that ends
      it and does not begin with a quote; an empty one is not followed by a space. */
  predicate ReadsBack(quote: Option<char>, put: string, following: Option<char>) {
    if quote.Some? then quote.value !in put
    else if put == [] then following.None? || !IsSpace(following.value)
    else !IsQuote(put[0]) && forall i :: 0 <= i < |put| ==> NotEnd(put[i])
  }

  function CharAt(css: string, i: nat): Option<char> {
    if i < |css| then Some(css[i]) else None
  }

  /** The new value lies in the new text, and what follows it is what followed the old one. */
  predicate Stands(other: string, at: int, put: string, css: string, end: nat) {
    && 0 <= at && at + |put| <= |other| && other[at..at + |put|] == put
    && CharAt(other, at + |put|) == CharAt(css, end)
  }

  /** The quote that a scanned value stands between. */
  function QuoteOf(css: string, scan: Scan): Option<char> {
    if scan.end > scan.valueEnd && 0 < scan.valueStart <= |css| then Some(css[scan.valueStart - 1]) else None
  }

  predicate Spaces(css: string, from: nat, to: nat) {
    from <= to <= |css| && forall k :: from <= k < to ==> IsSpace(css[k])
  }

  lemma SkippedSpaces(css: string, start: nat)
    requires start <= |css|
    ensures Spaces(css, start, Skip(css, start, |css|, IsSpace))
  {
  }

  lemma SpacesMove(css: string, start: nat, c: nat, other: string, d: int)
    requires Spaces(css, start, c) && Moves(css, start, c, other, d)
    ensures 0 <= start + d && Spaces(other, start + d, c + d)
  {
    forall k | start + d <= k < c + d ensures IsSpace(other[k]) {
      assert other[(k - d) + d] == css[k - d];
    }
  }

  lemma ScanSkips(css: string, start: nat, c: nat)
    requires Spaces(css, start, c)
    ensures ScanFrom(css, start) == ScanFrom(css, c)
    ensures Skip(css, start, |css|, IsSpace) == Skip(css, c, |css|, IsSpace)
  {
    var r := Skip(css, c, |css|, IsSpace);
    SkipIs(css, start, |css|, IsSpace, r);
  }

  lemma BareScan(css: string, c: nat, end: nat)
    requires c <= end <= |css| && (c < |css| ==> !IsSpace(css[c]) && !IsQuote(css[c]))
    requires (forall k :: c <= k < end ==> NotEnd(css[k])) && (end < |css| ==> !NotEnd(css[end]))
    ensures ScanFrom(css, c) == Some(Scan(c, end, end))
  {
    SkipIs(css, c, |css|, IsSpace, c);
    SkipIs(css, c, |css|, NotEnd, end);
  }

  /** The parts of a scan. */
  lemma ScanParts(css: string, start: nat)
    requires start <= |css| && ScanFrom(css, start).Some?
    ensures var scan := ScanFrom(css, start).value;
            var c := Skip(css, start, |css|, IsSpace);
            if c < |css| && IsQuote(css[c])
            then
              && scan.valueStart == c + 1 && scan.end == scan.valueEnd + 1 && scan.valueEnd < |css|
              && css[scan.valueEnd] == css[c] && forall k :: c < k < scan.valueEnd ==> css[k] != css[c]
            else
              && scan.valueStart == c && scan.end == scan.valueEnd
              && (forall k :: c <= k < scan.valueEnd ==> NotEnd(css[k]))
              && (scan.valueEnd < |css| ==> !NotEnd(css[scan.valueEnd]))
  {
    hide IsSpace, NotEnd;
  }

  /** Nothing is scanned exactly before a quote that is not closed. */
  lemma NoScan(css: string, start: nat)
    requires start <= |css|
    ensures var c := Skip(css, start, |css|, IsSpace);
            ScanFrom(css, start).None? <==>
              c < |css| && IsQuote(css[c]) && forall k :: c < k < |css| ==> css[k] != css[c]
  {
    hide IsSpace, NotEnd;
    var c := Skip(css, start, |css|, IsSpace);
    if c < |css| && IsQuote(css[c]) && forall k :: c < k < |css| ==> css[k] != css[c] {
      var quote := css[c];
      var keep := (x: char) => x != quote;
      SkipIs(css, c + 1, |css|, keep, |css|);
    }
  }

  /** The first place of a character in a text that holds it. */
  lemma {:induction false} FirstPlace(put: string, c: char) returns (i: nat)
    requires c in put
    ensures i < |put| && put[i] == c && forall k :: 0 <= k < i ==> put[k] != c
  {
    if put[0] == c {
      i := 0;
    } else {
      var n := FirstPlace(put[1..], c);
      i := n + 1;
      assert forall k :: 0 < k < i ==> put[k] == put[1..][k - 1];
    }
  }

  /** The new value is scanned exactly when it reads back; otherwise another text is, or nothing. */
  lemma QuotedReadBack(css: string, c: nat, end: nat, other: string, d: int, put: string)
    requires c < end < |css| && IsQuote(css[c]) && css[end] == css[c]
    requires Moves(css, c, c + 1, other, d) && Stands(other, c + 1 + d, put, css, end)
    ensures var at := c + 1 + d;
            if css[c] !in put then ScanFrom(other, c + d) == Some(Scan(at, at + |put|, at + |put| + 1))
            else
              var again := ScanFrom(other, c + d);
              again.Some? && again.value.valueEnd < at + |put|
  {
    var at := c + 1 + d;
    MovesHead(css, c, c + 1, other, d);
    assert forall k :: at <= k < at + |put| ==> other[k] == other[at..at + |put|][k - at];
    assert other[c + d] == css[c] && !IsSpace(css[c]);
    hide IsSpace, Moves, Skip, ScanFrom;
    if css[c] !in put {
      assert other[at + |put|] == css[c];
      QuotedScan(other, c + d, at + |put|);
    } else {
      var i := FirstPlace(put, css[c]);
      QuotedScan(other, c + d, at + i);
    }
  }

  lemma BareReadBack(css: string, end: nat, other: string, at: nat, put: string)
    requires end <= |css| && (end < |css| ==> !NotEnd(css[end])) && Stands(other, at, put, css, end)
    ensures var again := ScanFrom(other, at);
            if ReadsBack(None, put, CharAt(css, end)) then again == Some(Scan(at, at + |put|, at + |put|))
            else again.None? || again.value.valueStart != at || again.value.valueEnd < at + |put|
  {
    assert forall k :: at <= k < at + |put| ==> other[k] == other[at..at + |put|][k - at];
    if ReadsBack(None, put, CharAt(css, end)) {
      BareScan(other, at, at + |put|);
    } else if ScanFrom(other, at).Some? {
      ScanParts(other, at);
      hide ScanFrom;
      if put == [] {
        assert IsSpace(other[at]);
      } else if IsQuote(put[0]) {
        assert other[at] == put[0] && !IsSpace(other[at]);
      } else {
        var i :| 0 <= i < |put| && !NotEnd(put[i]);
        assert !NotEnd(other[at + i]) && !IsQuote(other[at]);
      }
    }
  }

  lemma ScanReadBack(css: string, start: nat, other: string, d: int, put: string)
    requires start <= |css| && ScanFrom(css, start).Some?
    requires var scan := ScanFrom(css, start).value;
             Moves(css, start, scan.valueStart, other, d) && Stands(other, scan.valueStart + d, put, css, scan.valueEnd)
    ensures 0 <= start + d <= |other|
    ensures var scan, again := ScanFrom(css, start).value, ScanFrom(other, start + d);
            var at := scan.valueStart + d;
            if ReadsBack(QuoteOf(css, scan), put, CharAt(css, scan.valueEnd))
            then again == Some(Scan(at, at + |put|, at + |put| + (scan.end - scan.valueEnd)))
            else again.None? || again.value.valueStart != at || again.value.valueEnd != at + |put|
  {
    hide IsSpace, IsQuote, NotEnd, ScanFrom, Moves, Stands, Skip;
    var scan := ScanFrom(css, start).value;
    var c := ScanLead(css, start, other, d);
    if scan.end > scan.valueEnd {
      QuotedReadBack(css, c, scan.valueEnd, other, d, put);
    } else {
      BareReadBack(css, scan.valueEnd, other, c + d, put);
    }
  }

  /** The spaces before a value, and the parts of the value. */
  lemma ScanLead(css: string, start: nat, other: string, d: int) returns (c: nat)
    requires start <= |css| && ScanFrom(css, start).Some?
    requires Moves(css, start, ScanFrom(css, start).value.valueStart, other, d)
    ensures 0 <= start + d <= |other| && start <= c <= |css| && 0 <= c + d <= |other|
    ensures ScanFrom(other, start + d) == ScanFrom(other, c + d)
    ensures var scan := ScanFrom(css, start).value;
            if scan.end > scan.valueEnd
            then
              && scan.valueStart == c + 1 && scan.end == scan.valueEnd + 1 && c < scan.valueEnd < |css|
              && IsQuote(css[c]) && css[scan.valueEnd] == css[c] && Moves(css, c, c + 1, other, d)
            else
              && scan.valueStart == c && scan.end == scan.valueEnd
              && (scan.valueEnd < |css| ==> !NotEnd(css[scan.valueEnd]))
  {
    hide IsSpace, IsQuote, NotEnd, ScanFrom, Moves, Skip, Spaces;
    var scan := ScanFrom(css, start).value;
    c := Skip(css, start, |css|, IsSpace);
    SkippedSpaces(css, start);
    ScanParts(css, start);
    MovesPart(css, start, scan.valueStart, other, d, start, c);
    SpacesMove(css, start, c, other, d);
    MovesPart(css, start, scan.valueStart, other, d, c, scan.valueStart);
    ScanSkips(other, start + d, c + d);
  }

  // ----- Words -----

  /** A character that can stand right before a reference. */
  predicate Opens(c: char) {
    c == '(' || IsQuote(c) || IsSpace(c) || LowerChar(c) == 't'
  }

  /** The new text is known up to `hi`: to the end of both texts, or to the next reference. */
  predicate Bounded(css: string, hi: nat, other: string, d: int) {
    (hi == |css| && |other| == |css| + d) || (0 < hi <= |css| && hi + d <= |other| && Opens(css[hi - 1]))
  }

  /** A word whose letters but the last do not open a reference. */
  predicate Closed(word: string) {
    forall k :: 0 <= k < |word| - 1 ==> word[k] != '(' && !IsQuote(word[k]) && !IsSpace(word[k]) && word[k] != 't'
  }

  lemma WordsAreClosed()
    ensures Closed("url") && Closed("@import")
  {
  }

  /** What opens a reference is no letter of a word but its last. */
  lemma LetterOpens(c: char)
    requires Opens(c)
    ensures LowerChar(c) == '(' || IsQuote(LowerChar(c)) || IsSpace(LowerChar(c)) || LowerChar(c) == 't'
  {
  }

  lemma LetterThere(css: string, c: nat, word: string, k: nat)
    requires k < |word|
    ensures WordAt(css, c, word) ==> c + k < |css| && LowerChar(css[c + k]) == word[k]
  {
  }

  lemma WordInSlice(css: string, c: nat, word: string)
    requires c + |word| <= |css|
    ensures WordAt(css, c, word) <==> WordAt(css[c..c + |word|], 0, word)
  {
    var part := css[c..c + |word|];
    assert forall k :: 0 <= k < |word| ==> part[k] == css[c + k];
  }

  lemma WordMoves(css: string, c: nat, hi: nat, other: string, d: int, word: string)
    requires Moves(css, c, hi, other, d) && c < hi && Bounded(css, hi, other, d) && Closed(word)
    ensures WordAt(other, c + d, word) <==> WordAt(css, c, word)
    ensures WordAt(css, c, word) ==> c + |word| <= hi
  {
    if c + |word| <= hi {
      MovesPart(css, c, hi, other, d, c, c + |word|);
      SliceMoves(css, c, c + |word|, other, d);
      WordInSlice(css, c, word);
      WordInSlice(other, c + d, word);
    } else if 0 < hi && Opens(css[hi - 1]) {
      LetterOpens(css[hi - 1]);
      assert other[(hi - 1) + d] == css[hi - 1];
      LetterThere(css, c, word, hi - 1 - c);
      LetterThere(other, c + d, word, hi - 1 - c);
    }
  }

  /** What precedes both places decides alike whether a word starts there. */
  predicate SameBefore(css: string, c: nat, other: string, at: nat) {
    || (c == 0 && at == 0)
    || (0 < c <= |css| && 0 < at <= |other| && css[c - 1] == other[at - 1])
    || c >= |css| || !NotEnd(css[c])
  }

  lemma StartMoves(css: string, c: nat, hi: nat, other: string, at: nat, word: string)
    requires Moves(css, c, hi, other, at - c) && c < hi && Bounded(css, hi, other, at - c)
    requires Closed(word) && word != [] && NotEnd(word[0]) && SameBefore(css, c, other, at)
    ensures WordStarts(other, at, word) <==> WordStarts(css, c, word)
  {
    WordMoves(css, c, hi, other, at - c, word);
    MovesHead(css, c, hi, other, at - c);
    hide Moves, Bounded, Closed;
    if !NotEnd(css[c]) {
      assert LowerChar(css[c]) == css[c];
      LetterThere(css, c, word, 0);
    }
  }

  // ----- Turns -----

  /** A character that a scanner outside of quotes goes past. */
  predicate Plain(c: char) {
    !IsQuote(c) && c != '/' && LowerChar(c) != 'u' && c != '@'
  }

  lemma SpacesArePlain(css: string, s: nat, to: nat)
    requires Spaces(css, s, to)
    ensures forall k :: s <= k < to ==> Plain(css[k])
  {
  }

  lemma PlainTurn(css: string, c: nat)
    requires c < |css| && Plain(css[c])
    ensures TurnAt(css, c, None) == Turn(c + 1, None, None)
  {
    var word, other := "url", "@import";
    LetterThere(css, c, word, 0);
    LetterThere(css, c, other, 0);
    NoComment(css, c);
    hide UrlTurn, ImportTurn, AfterComment;
  }

  lemma NoComment(css: string, c: nat)
    requires c < |css|
    ensures LiesAt(css, c, "/*") ==> css[c] == '/'
  {
    if LiesAt(css, c, "/*") {
      ElementsThere(css, c, "/*");
    }
  }

  lemma {:induction false} PlainSkips(css: string, c: nat, to: nat)
    requires c <= to <= |css| && forall k :: c <= k < to ==> Plain(css[k])
    ensures References(css, c, None) == References(css, to, None)
    decreases |css| - c
  {
    hide TurnAt;
    if c < to {
      PlainTurn(css, c);
      PlainSkips(css, c + 1, to);
      assert [] + References(css, to, None) == References(css, to, None);
    }
  }

  /** Within quotes that are not closed there is no reference. */
  lemma {:induction false} UnclosedQuote(css: string, c: nat, quote: char)
    requires IsQuote(quote) && forall k :: c <= k < |css| ==> css[k] != quote
    ensures References(css, c, Some(quote)) == []
    decreases |css| - c
  {
    if c < |css| {
      var turn := TurnAt(css, c, Some(quote));
      assert turn.found.None? && turn.quote == Some(quote);
      UnclosedQuote(css, turn.next, quote);
    }
  }

  /** After a place where nothing is scanned there is no reference. */
  lemma NoScanNoReferences(css: string, start: nat)
    requires start <= |css| && ScanFrom(css, start).None?
    ensures References(css, start, None) == []
  {
    hide ScanFrom, Skip, IsSpace, Plain, Spaces, References;
    var c := Skip(css, start, |css|, IsSpace);
    NoScan(css, start);
    SkippedSpaces(css, start);
    SpacesArePlain(css, start, c);
    PlainSkips(css, start, c);
    QuoteOpens(css, c);
    UnclosedQuote(css, c + 1, css[c]);
  }

  lemma QuoteOpens(css: string, c: nat)
    requires c < |css| && IsQuote(css[c])
    ensures References(css, c, None) == References(css, c + 1, Some(css[c]))
  {
    NoComment(css, c);
    assert [] + References(css, c + 1, Some(css[c])) == References(css, c + 1, Some(css[c]));
  }

  /** The first reference of the rest is found by a turn of its own. */
  lemma {:induction false} Origin(css: string, c: nat, quote: Option<char>) returns (p: nat)
    requires References(css, c, quote) != []
    ensures c <= p < |css| && TurnAt(css, p, None).found == Some(References(css, c, quote)[0])
    decreases |css| - c
  {
    var turn := TurnAt(css, c, quote);
    if turn.found.Some? {
      p := c;
      QuoteFindsNothing(css, c, quote);
    } else {
      hide TurnAt;
      assert [] + References(css, turn.next, turn.quote) == References(css, turn.next, turn.quote);
      p := Origin(css, turn.next, turn.quote);
    }
  }

  lemma QuoteFindsNothing(css: string, c: nat, quote: Option<char>)
    requires c < |css| && TurnAt(css, c, quote).found.Some?
    ensures quote.None?
  {
    hide UrlTurn, ImportTurn, AfterComment;
  }

  /** What a turn that finds a reference looks like. */
  lemma FoundTurn(css: string, c: nat)
    requires c < |css| && TurnAt(css, c, None).found.Some?
    ensures var turn := TurnAt(css, c, None);
            if turn.found.value.atImport
            then css[c] == '@' && WordStarts(css, c, "@import") && turn == ImportTurn(css, c)
            else LowerChar(css[c]) == 'u' && WordStarts(css, c, "url") && turn == UrlTurn(css, c)
  {
    var word, other := "url", "@import";
    LetterThere(css, c, word, 0);
    LetterThere(css, c, other, 0);
    if WordStarts(css, c, "url") {
      UrlFinds(css, c);
    } else if WordStarts(css, c, "@import") {
      ImportFinds(css, c);
    }
    hide UrlTurn, ImportTurn, AfterComment, WordAt;
  }

  /** Where a word starts, it is read. */
  lemma WordTurn(css: string, c: nat)
    ensures c < |css| && WordStarts(css, c, "url") ==> TurnAt(css, c, None) == UrlTurn(css, c)
    ensures c < |css| && WordStarts(css, c, "@import") ==> TurnAt(css, c, None) == ImportTurn(css, c)
  {
    var word, other := "url", "@import";
    LetterThere(css, c, word, 0);
    LetterThere(css, c, other, 0);
    if c < |css| {
      NoComment(css, c);
    }
    hide UrlTurn, ImportTurn, AfterComment, WordAt;
  }

  lemma UrlFinds(css: string, c: nat)
    requires WordAt(css, c, "url") && UrlTurn(css, c).found.Some?
    ensures var turn := UrlTurn(css, c);
            var r := turn.found.value;
            var open := Skip(css, c + 3, |css|, IsSpace);
            && open < |css| && css[open] == '(' && ScanFrom(css, open + 1).Some?
            && var scan := ScanFrom(css, open + 1).value;
               r == Reference(scan.valueStart, scan.valueEnd, false) && turn == Turn(scan.end, None, Some(r))
  {
    hide ScanFrom;
  }

  lemma ImportLetters(css: string, c: nat)
    requires WordAt(css, c, "@import")
    ensures forall k :: c < k < c + 7 ==> Plain(css[k])
    ensures c + 7 <= |css| && LowerChar(css[c + 6]) == 't'
  {
    var word := "@import";
    LetterThere(css, c, word, 6);
    forall k | c < k < c + 7 ensures Plain(css[k]) {
      LetterThere(css, c, word, k - c);
    }
  }

  lemma ImportFinds(css: string, c: nat)
    requires WordAt(css, c, "@import") && ImportTurn(css, c).found.Some?
    ensures var turn := ImportTurn(css, c);
            var r := turn.found.value;
            var from := Skip(css, c + 7, |css|, IsSpace);
            && ScanFrom(css, from).Some? && (from < |css| ==> LowerChar(css[from]) != 'u')
            && var scan := ScanFrom(css, from).value;
               r == Reference(scan.valueStart, scan.valueEnd, true) && turn == Turn(scan.end, None, Some(r))
    ensures var from := Skip(css, c + 7, |css|, IsSpace); Opens(css[from - 1]) && !IsQuote(css[from - 1])
  {
    ImportLetters(css, c);
    hide ScanFrom;
  }

  // ----- Turns that find nothing -----

  /** The new text is known up to the next reference, or to the end when there is none. */
  predicate Ahead(css: string, refs: seq<Reference>, hi: nat, other: string, d: int) {
    if refs == [] then hi == |css| && |other| == |css| + d else hi == refs[0].start
  }

  /** The next reference lies past the spaces after a word. */
  lemma PastSpaces(css: string, n: nat, s: nat)
    requires n <= s <= |css| && (forall k :: n <= k < s ==> Plain(css[k])) && References(css, n, None) != []
    ensures Skip(css, s, |css|, IsSpace) < References(css, n, None)[0].start
  {
    hide Skip, References, TurnAt, WordAt, UrlTurn, ImportTurn;
    var p := Origin(css, n, None);
    FoundTurn(css, p);
    FoundAfter(css, p);
    assert !Plain(css[p]) && !IsSpace(css[p]);
  }

  lemma FoundAfter(css: string, p: nat)
    requires p < |css| && TurnAt(css, p, None).found.Some?
    ensures p < TurnAt(css, p, None).found.value.start
  {
  }

  lemma AheadParts(css: string, n: nat, s: nat, hi: nat, other: string, d: int)
    requires n <= s <= hi <= |css| && hi + d <= |other| && forall k :: n <= k < s ==> Plain(css[k])
    requires Ahead(css, References(css, n, None), hi, other, d)
    ensures Known(hi, |css|, d, |other|, Skip(css, s, |css|, IsSpace))
  {
    hide Skip, IsSpace, References, Plain;
    if References(css, n, None) != [] {
      PastSpaces(css, n, s);
    }
  }

  /** The spaces after a word end before the next reference. */
  lemma SpacesEnd(css: string, n: nat, s: nat, hi: nat, other: string, d: int)
    requires n <= s <= hi <= |css| && Moves(css, s, hi, other, d) && forall k :: n <= k < s ==> Plain(css[k])
    requires Ahead(css, References(css, n, None), hi, other, d)
    ensures var x := Skip(css, s, |css|, IsSpace);
            && Skip(other, s + d, |other|, IsSpace) == x + d && x <= hi
            && (if x < hi then 0 <= x + d < |other| && other[x + d] == css[x] else x == |css| && x + d == |other|)
  {
    hide Skip, IsSpace, References, Moves, Plain, Ahead;
    var x := Skip(css, s, |css|, IsSpace);
    MovesPart(css, s, hi, other, d, s, hi);
    AheadParts(css, n, s, hi, other, d);
    SkipMoves(css, other, s, |css|, IsSpace, d, hi, |other|);
    if x < hi {
      MovesPart(css, s, hi, other, d, x, hi);
      MovesHead(css, x, hi, other, d);
    }
  }

  lemma NoScanMoves(css: string, start: nat, other: string, d: int)
    requires start <= |css| && Moves(css, start, |css|, other, d) && |other| == |css| + d && ScanFrom(css, start).None?
    ensures ScanFrom(other, start + d).None?
  {
    NoScan(css, start);
    NoScan(other, start + d);
    hide ScanFrom, IsSpace;
    SkipMoves(css, other, start, |css|, IsSpace, d, |css|, |other|);
    var c := Skip(css, start, |css|, IsSpace);
    assert other[c + d] == css[c];
    forall k | c + d < k < |other| ensures other[k] != other[c + d] {
      assert other[(k - d) + d] == css[k - d];
    }
  }

  lemma UrlNothing(css: string, c: nat, hi: nat, other: string, at: nat)
    requires WordAt(css, c, "url") && WordAt(other, at, "url") && UrlTurn(css, c).found.None?
    requires c + 3 <= hi && Moves(css, c, hi, other, at - c)
    requires Ahead(css, References(css, UrlTurn(css, c).next, None), hi, other, at - c)
    ensures UrlTurn(other, at) == Turn(UrlTurn(css, c).next + (at - c), None, None)
  {
    hide ScanFrom, IsSpace, References, Skip, Moves, Ahead, WordAt;
    var d := at - c;
    var open := Skip(css, c + 3, |css|, IsSpace);
    UrlOpens(css, c);
    MovesPart(css, c, hi, other, d, c + 3, hi);
    if open == |css| || css[open] != '(' {
      SpacesEnd(css, c + 3, c + 3, hi, other, d);
    } else {
      NoScanNoReferences(css, open + 1);
      NoneAhead(css, hi, other, d);
      MovesPart(css, c, hi, other, d, open, hi);
      MovesPart(css, c, hi, other, d, open + 1, hi);
      SkipMoves(css, other, c + 3, |css|, IsSpace, d, |css|, |other|);
      MovesHead(css, open, hi, other, d);
      NoScanMoves(css, open + 1, other, d);
    }
  }

  lemma NoneAhead(css: string, hi: nat, other: string, d: int)
    requires Ahead(css, [], hi, other, d)
    ensures hi == |css| && |other| == |css| + d
  {
  }

  lemma UrlOpens(css: string, c: nat)
    requires WordAt(css, c, "url") && UrlTurn(css, c).found.None?
    ensures var open := Skip(css, c + 3, |css|, IsSpace);
            if open == |css| || css[open] != '(' then UrlTurn(css, c) == Turn(c + 3, None, None)
            else UrlTurn(css, c) == Turn(open + 1, None, None) && ScanFrom(css, open + 1).None?
  {
    hide ScanFrom, IsSpace;
  }

  lemma ImportNothing(css: string, c: nat, hi: nat, other: string, at: nat)
    requires WordAt(css, c, "@import") && WordAt(other, at, "@import") && ImportTurn(css, c).found.None?
    requires c + 7 <= hi && Moves(css, c, hi, other, at - c)
    requires Ahead(css, References(css, c + 1, None), hi, other, at - c)
    ensures ImportTurn(other, at) == Turn(at + 1, None, None)
  {
    hide ScanFrom, References, Skip, IsSpace, Moves, Plain, Ahead, WordAt;
    var d := at - c;
    var from := Skip(css, c + 7, |css|, IsSpace);
    ImportLetters(css, c);
    ImportNext(css, c);
    MovesPart(css, c, hi, other, d, c + 7, hi);
    if ScanFrom(css, from).None? {
      NoScanNoReferences(css, from);
      SkippedSpaces(css, c + 7);
      SpacesArePlain(css, c + 7, from);
      PlainSkips(css, c + 1, from);
      NoneAhead(css, hi, other, d);
      MovesPart(css, c, hi, other, d, from, hi);
      SkipMoves(css, other, c + 7, |css|, IsSpace, d, |css|, |other|);
      NoScanMoves(css, from, other, d);
    } else {
      SpacesEnd(css, c + 1, c + 7, hi, other, d);
    }
  }

  lemma ImportNext(css: string, c: nat)
    requires WordAt(css, c, "@import") && ImportTurn(css, c).found.None?
    ensures ImportTurn(css, c) == Turn(c + 1, None, None)
    ensures var from := Skip(css, c + 7, |css|, IsSpace);
            ScanFrom(css, from).None? || (from < |css| && LowerChar(css[from]) == 'u')
  {
    hide ScanFrom, IsSpace;
  }

  lemma CommentMoves(css: string, c: nat, hi: nat, other: string, at: nat)
    requires c < |css| && LiesAt(css, c, "/*") && c + 2 <= hi && Moves(css, c, hi, other, at - c)
    requires || (AfterComment(css, c) <= hi && AfterComment(css, c) < |css|)
             || (hi == |css| && |other| == |css| + (at - c))
    ensures at < |other| && AfterComment(other, at) == AfterComment(css, c) + (at - c)
  {
    var d := at - c;
    hide IndexOf;
    MovesPart(css, c, hi, other, d, c + 2, hi);
    if IndexOf(css, "*/", c + 2).Some? {
      IndexMoves(css, other, "*/", c + 2, hi, d);
    } else {
      NoIndexMoves(css, other, "*/", c + 2, d);
    }
  }

  /** A turn that finds nothing does the same in the new text. */
  lemma NothingFound(css: string, c: nat, quote: Option<char>, hi: nat, other: string, at: nat)
    requires c < |css| && TurnAt(css, c, quote).found.None? && SameBefore(css, c, other, at)
    requires Moves(css, c, hi, other, at - c) && Bounded(css, hi, other, at - c)
    requires var turn := TurnAt(css, c, quote);
             Ahead(css, References(css, turn.next, turn.quote), hi, other, at - c)
    ensures at < |other|
    ensures var turn := TurnAt(css, c, quote);
            TurnAt(other, at, quote) == Turn(turn.next + (at - c), turn.quote, None)
  {
    hide LiesAt, AfterComment, WordAt, UrlTurn, ImportTurn, References, Moves, Bounded, Closed, SameBefore, Ahead;
    AheadOrEnd(css, c, TurnAt(css, c, quote), hi, other, at - c);
    MovesPart(css, c, hi, other, at - c, c, hi);
    MovesHead(css, c, hi, other, at - c);
    CommentThere(css, c, hi, other, at);
    assert c + (at - c) == at;
    if LiesAt(css, c, "/*") {
      CommentInside(css, c);
      CommentMoves(css, c, hi, other, at);
    } else if quote.None? && !IsQuote(css[c]) {
      OutsideQuotes(css, c);
      WordNothing(css, c, hi, other, at);
    }
  }

  lemma CommentInside(css: string, c: nat)
    requires c < |css| && LiesAt(css, c, "/*")
    ensures c + 2 <= AfterComment(css, c)
  {
  }

  lemma OutsideQuotes(css: string, c: nat)
    requires c < |css| && !LiesAt(css, c, "/*") && !IsQuote(css[c])
    ensures TurnAt(css, c, None).quote.None?
  {
  }

  lemma AheadOrEnd(css: string, c: nat, turn: Turn, hi: nat, other: string, d: int)
    requires c < turn.next && Ahead(css, References(css, turn.next, turn.quote), hi, other, d)
    ensures turn.next < hi || (hi == |css| && |other| == |css| + d)
  {
    ReferencesAreOrdered(css, turn.next, turn.quote);
  }

  lemma WordNothing(css: string, c: nat, hi: nat, other: string, at: nat)
    requires c < |css| && TurnAt(css, c, None).found.None? && SameBefore(css, c, other, at)
    requires !LiesAt(css, c, "/*") && !IsQuote(css[c]) && c < hi && at < |other| && other[at] == css[c]
    requires !LiesAt(other, at, "/*")
    requires Moves(css, c, hi, other, at - c) && Bounded(css, hi, other, at - c)
    requires var turn := TurnAt(css, c, None); Ahead(css, References(css, turn.next, None), hi, other, at - c)
    ensures var turn := TurnAt(css, c, None); TurnAt(other, at, None) == Turn(turn.next + (at - c), None, None)
  {
    hide LiesAt, AfterComment, WordAt, UrlTurn, ImportTurn, References, Moves, Bounded, Closed, SameBefore, Ahead;
    WordsAreClosed();
    StartMoves(css, c, hi, other, at, "url");
    StartMoves(css, c, hi, other, at, "@import");
    WordMoves(css, c, hi, other, at - c, "url");
    WordMoves(css, c, hi, other, at - c, "@import");
    if WordStarts(css, c, "url") {
      UrlNothing(css, c, hi, other, at);
    } else if WordStarts(css, c, "@import") {
      ImportNext(css, c);
      ImportNothing(css, c, hi, other, at);
    }
  }

  lemma CommentThere(css: string, c: nat, hi: nat, other: string, at: nat)
    requires c < hi && Moves(css, c, hi, other, at - c)
    requires c + 1 < hi || (hi == |css| && |other| == |css| + (at - c))
    ensures LiesAt(other, at, "/*") <==> LiesAt(css, c, "/*")
  {
    if c + 2 <= hi {
      MovesPart(css, c, hi, other, at - c, c, c + 2);
      LiesMoves(css, other, c, "/*", at - c);
    }
  }

  // ----- Turns that find a reference -----

  function QuoteBefore(css: string, i: nat): Option<char> {
    if 0 < i <= |css| && IsQuote(css[i - 1]) then Some(css[i - 1]) else None
  }

  /** When a new value can stand in the place of a reference. A bare one of `@import` does not begin with the letter
      of `url`. */
  predicate Fits(css: string, r: Reference, put: string) {
    var quote := QuoteBefore(css, r.start);
    && ReadsBack(quote, put, CharAt(css, r.end))
    && (r.atImport && quote.None? && put != [] ==> LowerChar(put[0]) != 'u')
  }

  /** What stands around a scanned value. */
  lemma ScanSurroundings(css: string, start: nat)
    requires 0 < start <= |css| && ScanFrom(css, start).Some? && !IsQuote(css[start - 1])
    ensures var scan := ScanFrom(css, start).value;
            && QuoteOf(css, scan) == QuoteBefore(css, scan.valueStart) && start <= scan.valueStart
            && (scan.valueStart > start ==> Opens(css[scan.valueStart - 1]))
            && (if scan.end == scan.valueEnd
                then scan.end < |css| ==> !NotEnd(css[scan.end])
                else
                  && scan.end == scan.valueEnd + 1 <= |css|
                  && QuoteBefore(css, scan.valueStart) == Some(css[scan.valueEnd]))
  {
    ScanParts(css, start);
    hide ScanFrom;
  }

  /** The scan from `start` on finds the reference of a turn. */
  predicate ScanOf(css: string, start: nat, turn: Turn, atImport: bool) {
    && 0 < start <= |css| && ScanFrom(css, start).Some? && Opens(css[start - 1]) && !IsQuote(css[start - 1])
    && var scan := ScanFrom(css, start).value;
       turn == Turn(scan.end, None, Some(Reference(scan.valueStart, scan.valueEnd, atImport)))
  }

  lemma UrlScan(css: string, c: nat) returns (start: nat)
    requires WordAt(css, c, "url") && UrlTurn(css, c).found.Some?
    ensures c < start && ScanOf(css, start, UrlTurn(css, c), false)
  {
    hide ScanFrom, IsSpace, UrlTurn, Skip;
    UrlFinds(css, c);
    start := Skip(css, c + 3, |css|, IsSpace) + 1;
  }

  lemma ImportScan(css: string, c: nat) returns (start: nat)
    requires WordAt(css, c, "@import") && ImportTurn(css, c).found.Some?
    ensures c < start && ScanOf(css, start, ImportTurn(css, c), true)
  {
    hide ScanFrom, IsSpace, ImportTurn, Skip;
    ImportFinds(css, c);
    start := Skip(css, c + 7, |css|, IsSpace);
  }

  lemma FoundScan(css: string, c: nat) returns (start: nat)
    requires c < |css| && TurnAt(css, c, None).found.Some?
    ensures c < start && ScanOf(css, start, TurnAt(css, c, None), TurnAt(css, c, None).found.value.atImport)
  {
    FoundTurn(css, c);
    hide TurnAt, ScanOf, UrlTurn, ImportTurn, WordAt;
    if TurnAt(css, c, None).found.value.atImport {
      start := ImportScan(css, c);
    } else {
      start := UrlScan(css, c);
    }
  }

  /** The surroundings of a reference, and where the turn that finds it ends. */
  lemma FoundSurroundings(css: string, c: nat)
    requires c < |css| && TurnAt(css, c, None).found.Some?
    ensures var turn := TurnAt(css, c, None);
            var r := turn.found.value;
            && c < r.start <= r.end <= |css| && Opens(css[r.start - 1]) && turn.quote == None
            && (if turn.next == r.end then r.end < |css| ==> !NotEnd(css[r.end])
                else turn.next == r.end + 1 <= |css| && QuoteBefore(css, r.start) == Some(css[r.end]))
  {
    var start := FoundScan(css, c);
    hide TurnAt, ScanFrom;
    ScanSurroundings(css, start);
  }

  function Placed(r: Reference, d: int, put: string): Reference
    requires 0 <= r.start + d
  {
    Reference(r.start + d, r.start + d + |put|, r.atImport)
  }

  /** The references do not begin with this one. */
  predicate HeadDiffers(refs: seq<Reference>, r: Reference) {
    refs == [] || refs[0] != r
  }

  lemma UrlReplaced(css: string, c: nat, other: string, at: nat, put: string)
    requires WordAt(css, c, "url") && UrlTurn(css, c).found.Some? && WordAt(other, at, "url")
    requires var r := UrlTurn(css, c).found.value;
             Moves(css, c, r.start, other, at - c) && Stands(other, r.start + (at - c), put, css, r.end)
    ensures var turn, again := UrlTurn(css, c), UrlTurn(other, at);
            var placed := Placed(turn.found.value, at - c, put);
            if Fits(css, turn.found.value, put)
            then again == Turn(placed.end + (turn.next - turn.found.value.end), None, Some(placed))
            else
              && again.found != Some(placed) && again.quote == None
              && (again.found.None? ==> References(other, again.next, None) == [])
  {
    hide ScanFrom, IsSpace, References, Skip, Moves, ReadsBack, UrlTurn;
    var d := at - c;
    var open := Skip(css, c + 3, |css|, IsSpace);
    UrlFinds(css, c);
    ScanSurroundings(css, open + 1);
    var r := UrlTurn(css, c).found.value;
    MovesPart(css, c, r.start, other, d, c + 3, open + 1);
    SkipMoves(css, other, c + 3, |css|, IsSpace, d, open + 1, |other|);
    MovesPart(css, c, r.start, other, d, open, open + 1);
    MovesHead(css, open, open + 1, other, d);
    MovesPart(css, c, r.start, other, d, open + 1, r.start);
    ScanReadBack(css, open + 1, other, d, put);
    UrlReads(other, at);
    if ScanFrom(other, open + 1 + d).None? {
      NoScanNoReferences(other, open + 1 + d);
    }
  }

  lemma UrlReads(css: string, c: nat)
    requires WordAt(css, c, "url")
    ensures var open := Skip(css, c + 3, |css|, IsSpace);
            open < |css| && css[open] == '(' ==>
              var scan := ScanFrom(css, open + 1);
              UrlTurn(css, c) == if scan.None? then Turn(open + 1, None, None)
                                 else Turn(scan.value.end, None,
                                           Some(Reference(scan.value.valueStart, scan.value.valueEnd, false)))
  {
    hide ScanFrom;
  }

  /** The spaces after the word, and the scan from there on, in the new text. */
  lemma ImportSpaces(css: string, c: nat, other: string, at: nat)
    requires WordAt(css, c, "@import") && WordAt(other, at, "@import")
    requires Moves(css, c, Skip(css, c + 7, |css|, IsSpace), other, at - c)
    ensures var from := Skip(css, c + 7, |css|, IsSpace) + (at - c);
            var again := Skip(other, at + 7, |other|, IsSpace);
            && at + 7 <= from <= again && again == Skip(other, from, |other|, IsSpace)
            && ScanFrom(other, again) == ScanFrom(other, from)
  {
    hide ScanFrom, IsSpace, Moves, Skip, Spaces;
    var from := Skip(css, c + 7, |css|, IsSpace);
    var d := at - c;
    SkippedSpaces(css, c + 7);
    MovesPart(css, c, from, other, d, c + 7, from);
    SpacesMove(css, c + 7, from, other, d);
    ScanSkips(other, at + 7, from + d);
    SkippedSpaces(other, from + d);
    ScanSkips(other, from + d, Skip(other, from + d, |other|, IsSpace));
  }

  /** An `@import` that is not read is followed by none at the same place. */
  lemma LaterImport(css: string, c: nat, r: Reference)
    requires WordAt(css, c, "@import") && r.atImport && r.start <= Skip(css, c + 7, |css|, IsSpace)
    ensures HeadDiffers(References(css, c + 1, None), r)
  {
    hide References, TurnAt, UrlTurn, ImportTurn, Skip, IsSpace;
    var from := Skip(css, c + 7, |css|, IsSpace);
    ImportLetters(css, c);
    SkippedSpaces(css, c + 7);
    SpacesArePlain(css, c + 7, from);
    if References(css, c + 1, None) != [] {
      var p := Origin(css, c + 1, None);
      FoundTurn(css, p);
      FoundAfter(css, p);
    }
  }

  lemma ImportReads(css: string, c: nat)
    requires WordAt(css, c, "@import")
    ensures var from := Skip(css, c + 7, |css|, IsSpace);
            var scan := ScanFrom(css, from);
            ImportTurn(css, c) == if scan.None? || (from < |css| && LowerChar(css[from]) == 'u')
                                  then Turn(c + 1, None, None)
                                  else Turn(scan.value.end, None,
                                            Some(Reference(scan.value.valueStart, scan.value.valueEnd, true)))
  {
    hide ScanFrom, IsSpace;
  }

  /** Whether the new text looks like `url(...)` after the word. */
  lemma ImportHead(css: string, from: nat, other: string, d: int, put: string)
    requires 0 < from <= |css| && ScanFrom(css, from).Some? && !IsQuote(css[from - 1]) && 0 <= from + d <= |other|
    requires from == Skip(css, from, |css|, IsSpace) && (from < |css| ==> LowerChar(css[from]) != 'u')
    requires var scan := ScanFrom(css, from).value;
             Moves(css, from, scan.valueStart, other, d) && Stands(other, scan.valueStart + d, put, css, scan.valueEnd)
    ensures var scan := ScanFrom(css, from).value;
            var quote := QuoteBefore(css, scan.valueStart);
            var again := Skip(other, from + d, |other|, IsSpace);
            var other_ := again < |other| && LowerChar(other[again]) == 'u';
            && (quote.Some? ==> !other_)
            && (quote.None? ==>
                  && scan.valueStart == from
                  && (ReadsBack(None, put, CharAt(css, scan.valueEnd)) ==>
                        (other_ <==> put != [] && LowerChar(put[0]) == 'u')))
  {
    var scan := ScanFrom(css, from).value;
    ScanParts(css, from);
    ScanSurroundings(css, from);
    hide ScanFrom;
    if scan.end > scan.valueEnd {
      MovesHead(css, from, scan.valueStart, other, d);
    } else if put != [] {
      assert other[from + d..from + d + |put|][0] == other[from + d];
    }
  }

  lemma ImportReplaced(css: string, c: nat, other: string, at: nat, put: string)
    requires WordAt(css, c, "@import") && ImportTurn(css, c).found.Some? && WordAt(other, at, "@import")
    requires var r := ImportTurn(css, c).found.value;
             Moves(css, c, r.start, other, at - c) && Stands(other, r.start + (at - c), put, css, r.end)
    ensures var turn, again := ImportTurn(css, c), ImportTurn(other, at);
            var placed := Placed(turn.found.value, at - c, put);
            if Fits(css, turn.found.value, put)
            then again == Turn(placed.end + (turn.next - turn.found.value.end), None, Some(placed))
            else
              && again.found != Some(placed) && again.quote == None
              && (again.found.None? ==> HeadDiffers(References(other, again.next, None), placed))
  {
    hide ScanFrom, IsSpace, References, Skip, Moves, ReadsBack, ImportTurn, WordAt, Stands;
    ImportLetters(css, c);
    var d := at - c;
    var from := Skip(css, c + 7, |css|, IsSpace);
    ImportFinds(css, c);
    var r := ImportTurn(css, c).found.value;
    ScanSurroundings(css, from);
    MovesPart(css, c, r.start, other, d, c, from);
    ImportSpaces(css, c, other, at);
    MovesPart(css, c, r.start, other, d, from, r.start);
    ScanReadBack(css, from, other, d, put);
    SkipStays(css, c + 7);
    ImportHead(css, from, other, d, put);
    ImportReads(other, at);
    if ImportTurn(other, at).found.None? && !Fits(css, r, put) {
      NotRead(other, at, Placed(r, d, put));
    }
  }

  lemma SkipStays(css: string, start: nat)
    requires start <= |css|
    ensures var x := Skip(css, start, |css|, IsSpace); Skip(css, x, |css|, IsSpace) == x
  {
  }

  lemma NotRead(css: string, c: nat, r: Reference)
    requires WordAt(css, c, "@import") && ImportTurn(css, c).found.None? && r.atImport
    requires var from := Skip(css, c + 7, |css|, IsSpace); ScanFrom(css, from).Some? ==> r.start <= from
    ensures HeadDiffers(References(css, ImportTurn(css, c).next, None), r)
  {
    hide ScanFrom, References, Skip, ImportTurn, IsSpace, Plain;
    var from := Skip(css, c + 7, |css|, IsSpace);
    ImportReads(css, c);
    if ScanFrom(css, from).None? {
      ImportLetters(css, c);
      SkippedSpaces(css, c + 7);
      SpacesArePlain(css, c + 7, from);
      NoScanNoReferences(css, from);
      PlainSkips(css, c + 1, from);
    } else {
      LaterImport(css, c, r);
    }
  }

  // ----- The references of the new sheet -----

  /** A turn that finds a reference finds the new one in its place exactly when it fits. */
  lemma FoundReplaced(css: string, c: nat, other: string, at: nat, put: string)
    requires c < |css| && TurnAt(css, c, None).found.Some? && SameBefore(css, c, other, at)
    requires var r := TurnAt(css, c, None).found.value;
             && c < r.start <= r.end <= |css| && Opens(css[r.start - 1])
             && Moves(css, c, r.start, other, at - c) && Stands(other, r.start + (at - c), put, css, r.end)
    ensures at < |other|
    ensures var turn, again := TurnAt(css, c, None), TurnAt(other, at, None);
            var r := turn.found.value;
            var placed := Placed(r, at - c, put);
            if Fits(css, r, put) then again == Turn(placed.end + (turn.next - r.end), None, Some(placed))
            else HeadDiffers(References(other, at, None), placed)
  {
    hide WordAt, UrlTurn, ImportTurn, References, Moves, Stands, SameBefore, Closed, Fits, Bounded, Opens, TurnAt;
    var r := TurnAt(css, c, None).found.value;
    FoundTurn(css, c);
    MovesPart(css, c, r.start, other, at - c, c, r.start);
    UpToReference(css, r.start, other, at - c);
    WordsAreClosed();
    WordTurn(other, at);
    ReferencesStep(other, at, None);
    if r.atImport {
      StartMoves(css, c, r.start, other, at, "@import");
      ImportReplaced(css, c, other, at, put);
    } else {
      StartMoves(css, c, r.start, other, at, "url");
      UrlReplaced(css, c, other, at, put);
    }
  }

  lemma UpToReference(css: string, hi: nat, other: string, d: int)
    requires 0 < hi <= |css| && hi + d <= |other| && Opens(css[hi - 1])
    ensures Bounded(css, hi, other, d)
  {
  }

  /** References from a place on, one after another. */
  predicate InOrder(refs: seq<Reference>, from: nat) {
    && (forall i :: 0 <= i < |refs| ==> from <= refs[i].start <= refs[i].end)
    && (forall i, j :: 0 <= i < j < |refs| ==> refs[i].end <= refs[j].start)
  }

  /** The references with the new values in their places, `from` in the sheet being `at` in the new one. */
  function Planned(refs: seq<Reference>, puts: seq<string>, at: nat, from: nat): seq<Reference>
    requires |refs| == |puts| && InOrder(refs, from)
  {
    if refs == [] then []
    else
      var placed := Placed(refs[0], at - from, puts[0]);
      [placed] + Planned(refs[1..], puts[1..], placed.end, refs[0].end)
  }

  lemma PlannedAdvance(refs: seq<Reference>, puts: seq<string>, at: nat, from: nat, to: nat)
    requires |refs| == |puts| && InOrder(refs, from) && from <= to && InOrder(refs, to)
    ensures Planned(refs, puts, at + (to - from), to) == Planned(refs, puts, at, from)
  {
  }

  function PutSpans(refs: seq<Reference>, puts: seq<string>): seq<Replacement>
    requires |refs| == |puts|
  {
    if refs == [] then []
    else [Replacement(refs[0].start, refs[0].end, puts[0])] + PutSpans(refs[1..], puts[1..])
  }

  predicate AllFit(css: string, refs: seq<Reference>, puts: seq<string>) {
    |refs| == |puts| && forall k :: 0 <= k < |refs| ==> Fits(css, refs[k], puts[k])
  }

  lemma AllFitCons(css: string, refs: seq<Reference>, puts: seq<string>)
    requires |refs| == |puts| && refs != []
    ensures AllFit(css, refs, puts) <==> Fits(css, refs[0], puts[0]) && AllFit(css, refs[1..], puts[1..])
  {
    hide Fits;
    if AllFit(css, refs[1..], puts[1..]) && Fits(css, refs[0], puts[0]) {
      forall k | 0 <= k < |refs| ensures Fits(css, refs[k], puts[k]) {
        assert k > 0 ==> Fits(css, refs[1..][k - 1], puts[1..][k - 1]);
      }
    }
  }

  lemma ReferencesInOrder(css: string, c: nat, quote: Option<char>)
    ensures InOrder(References(css, c, quote), c)
    ensures var refs := References(css, c, quote); refs != [] ==> c < refs[0].start && InOrder(refs[1..], refs[0].end)
  {
    ReferencesAreOrdered(css, c, quote);
    hide References;
  }

  /** Where nothing is replaced, the new text goes on like the sheet. */
  lemma GoesOn(css: string, other: string, at: int, spans: seq<Replacement>, from: nat)
    requires Rest(other, at, css, spans, from) && (spans != [] ==> from < spans[0].start)
    ensures 0 <= at && from <= |css| && CharAt(other, at) == CharAt(css, from)
  {
    RestParts(other, at, css, spans, from);
    hide Rest, Ordered, Moves;
    if from < |css| {
      Advance(other, at, css, spans, from, from + 1);
      MovesPart(css, from, from + 1, other, at - from, from, from + 1);
      MovesHead(css, from, from + 1, other, at - from);
    } else {
      assert spans == [];
      WholeRest(other, at, css);
    }
  }

  /** The new value lies where the reference was, and after it comes what came after the reference. */
  lemma PutStands(css: string, other: string, at: int, r: Reference, put: string, spans: seq<Replacement>)
    requires Rest(other, at, css, [Replacement(r.start, r.end, put)] + spans, r.start)
    requires spans != [] ==> r.end < spans[0].start
    ensures r.end <= |css| && Stands(other, at, put, css, r.end) && Rest(other, at + |put|, css, spans, r.end)
  {
    var all := [Replacement(r.start, r.end, put)] + spans;
    assert all[0] == Replacement(r.start, r.end, put) && all[1..] == spans;
    RestParts(other, at, css, all, r.start);
    hide Rest, Ordered;
    Jump(other, at, css, all);
    GoesOn(css, other, at + |put|, spans, r.end);
  }

  lemma FirstFound(css: string, c: nat)
    requires c < |css| && TurnAt(css, c, None).found.Some?
    ensures var turn := TurnAt(css, c, None);
            var refs, later := References(css, c, None), References(css, turn.next, None);
            && turn.quote == None && refs == [turn.found.value] + later && refs[1..] == later
            && (later != [] ==> turn.next < later[0].start)
  {
    FoundSurroundings(css, c);
    hide TurnAt;
    var turn := TurnAt(css, c, None);
    ReferencesInOrder(css, turn.next, None);
    assert ([turn.found.value] + References(css, turn.next, None))[1..] == References(css, turn.next, None);
  }

  /** A turn that finds a reference, in both sheets. */
  lemma RereadFound(css: string, other: string, c: nat, at: nat, puts: seq<string>) returns (next: nat)
    requires c < |css| && TurnAt(css, c, None).found.Some? && |puts| == |References(css, c, None)|
    requires Rest(other, at, css, PutSpans(References(css, c, None), puts), c) && SameBefore(css, c, other, at)
    ensures var turn, refs := TurnAt(css, c, None), References(css, c, None);
            && refs != [] && 0 <= refs[0].start + (at - c) && refs[0].end <= turn.next
            && refs[1..] == References(css, turn.next, None)
            && var placed := Placed(refs[0], at - c, puts[0]);
               if Fits(css, refs[0], puts[0])
               then
                 && turn.next <= |css| && next == placed.end + (turn.next - refs[0].end)
                 && References(other, at, None) == [placed] + References(other, next, None)
                 && Rest(other, next, css, PutSpans(refs[1..], puts[1..]), turn.next)
                 && SameBefore(css, turn.next, other, next)
               else HeadDiffers(References(other, at, None), placed)
  {
    hide Rest, TurnAt, References, SameBefore, Moves, Stands, Fits, Opens;
    FoundSurroundings(css, c);
    FirstFound(css, c);
    var turn, refs := TurnAt(css, c, None), References(css, c, None);
    var r, put, later := refs[0], puts[0], PutSpans(refs[1..], puts[1..]);
    var start := r.start + (at - c);
    LaterSpans(refs[1..], puts[1..]);
    UpToPut(css, other, c, at, r, put, later);
    FoundReplaced(css, c, other, at, put);
    if Fits(css, r, put) {
      next := start + |put| + (turn.next - r.end);
      ReferencesStep(other, at, None);
      AfterPut(css, other, start + |put|, r, turn.next, later);
    } else {
      next := 0;
    }
  }

  lemma LaterSpans(refs: seq<Reference>, puts: seq<string>)
    requires |refs| == |puts|
    ensures var spans := PutSpans(refs, puts);
            if refs == [] then spans == [] else spans != [] && spans[0].start == refs[0].start
  {
  }

  lemma UpToPut(css: string, other: string, c: nat, at: nat, r: Reference, put: string, later: seq<Replacement>)
    requires Rest(other, at, css, [Replacement(r.start, r.end, put)] + later, c) && c < r.start
    requires later != [] ==> r.end < later[0].start
    ensures r.start <= |css| && Moves(css, c, r.start, other, at - c) && r.end <= |css|
    ensures Stands(other, r.start + (at - c), put, css, r.end)
    ensures Rest(other, r.start + (at - c) + |put|, css, later, r.end)
  {
    var all := [Replacement(r.start, r.end, put)] + later;
    assert all[0] == Replacement(r.start, r.end, put);
    RestParts(other, at, css, all, c);
    hide Rest, Ordered, Moves;
    Advance(other, at, css, all, c, r.start);
    PutStands(css, other, at + (r.start - c), r, put, later);
  }

  /** After a reference that was read. */
  lemma AfterPut(css: string, other: string, at: nat, r: Reference, next: nat, later: seq<Replacement>)
    requires Rest(other, at, css, later, r.end) && (later != [] ==> next < later[0].start) && 0 < r.start <= r.end
    requires if next == r.end then r.end < |css| ==> !NotEnd(css[r.end]) else next == r.end + 1 <= |css|
    ensures next <= |css| && Rest(other, at + (next - r.end), css, later, next)
    ensures SameBefore(css, next, other, at + (next - r.end))
  {
    RestParts(other, at, css, later, r.end);
    hide Rest, Ordered, Moves;
    Advance(other, at, css, later, r.end, next);
    if next > r.end {
      MovesPart(css, r.end, next, other, at - r.end, r.end, next);
      MovesHead(css, r.end, next, other, at - r.end);
    }
  }

  /** A turn that finds nothing, in both sheets. */
  lemma RereadNothing(css: string, other: string, c: nat, at: nat, quote: Option<char>, refs: seq<Reference>,
                      spans: seq<Replacement>)
    requires c < |css| && TurnAt(css, c, quote).found.None? && refs == References(css, c, quote)
    requires if refs == [] then spans == [] else spans != [] && spans[0].start == refs[0].start
    requires Rest(other, at, css, spans, c) && SameBefore(css, c, other, at)
    ensures var turn := TurnAt(css, c, quote);
            && refs == References(css, turn.next, turn.quote)
            && References(other, at, quote) == References(other, at + (turn.next - c), turn.quote)
            && if turn.next <= |css|
               then
                 && Rest(other, at + (turn.next - c), css, spans, turn.next)
                 && SameBefore(css, turn.next, other, at + (turn.next - c))
               else refs == [] && References(other, at, quote) == []
  {
    hide Rest, Ordered, Moves, SameBefore, TurnAt, References, Opens, Ahead, Bounded;
    var turn := TurnAt(css, c, quote);
    ReferencesStep(css, c, quote);
    ReferencesStep(other, at, quote);
    assert refs == [] + References(css, turn.next, turn.quote) == References(css, turn.next, turn.quote);
    NextOpens(css, turn.next, turn.quote);
    var hi := FreeAhead(css, other, c, at, refs, spans);
    NothingFound(css, c, quote, hi, other, at);
    var again := References(other, at + (turn.next - c), turn.quote);
    assert [] + again == again;
    NothingAfter(css, other, c, at, turn.next, turn.quote, spans);
  }

  lemma FreeAhead(css: string, other: string, c: nat, at: nat, refs: seq<Reference>, spans: seq<Replacement>)
    returns (hi: nat)
    requires if refs == [] then spans == [] else spans != [] && spans[0].start == refs[0].start
    requires Rest(other, at, css, spans, c)
    requires refs != [] ==> 0 < refs[0].start <= |css| && Opens(css[refs[0].start - 1])
    ensures Moves(css, c, hi, other, at - c) && Ahead(css, refs, hi, other, at - c) && Bounded(css, hi, other, at - c)
    ensures spans == [] ==> at + (|css| - c) == |other|
  {
    hide Rest, Ordered, Moves, Opens;
    hi := Free(css, spans);
    RestParts(other, at, css, spans, c);
    Advance(other, at, css, spans, c, hi);
    MovesPart(css, c, hi, other, at - c, c, hi);
    if spans == [] {
      WholeRest(other, at + (|css| - c), css);
    }
  }

  lemma NextOpens(css: string, c: nat, quote: Option<char>)
    ensures var refs := References(css, c, quote);
            refs != [] ==> c < refs[0].start <= |css| && Opens(css[refs[0].start - 1])
  {
    if References(css, c, quote) != [] {
      var p := Origin(css, c, quote);
      FoundSurroundings(css, p);
      ReferencesInOrder(css, c, quote);
    }
  }

  lemma NothingAfter(css: string, other: string, c: nat, at: nat, next: nat, quote: Option<char>,
                     spans: seq<Replacement>)
    requires c < |css| && c < next && Rest(other, at, css, spans, c)
    requires if spans == [] then at + (|css| - c) == |other| else next < spans[0].start
    ensures if next <= |css|
            then
              && Rest(other, at + (next - c), css, spans, next) && SameBefore(css, next, other, at + (next - c))
            else spans == [] && References(other, at + (next - c), quote) == []
  {
    RestParts(other, at, css, spans, c);
    hide Rest, Ordered, Moves;
    if next <= |css| {
      Advance(other, at, css, spans, c, next);
      MovesPart(css, c, next, other, at - c, next - 1, next);
      MovesHead(css, next - 1, next, other, at - c);
    }
  }

  /** The references read are the planned ones exactly when all new values fit. */
  predicate PlannedExactly(css: string, refs: seq<Reference>, puts: seq<string>, again: seq<Reference>, at: nat,
                           from: nat) {
    |refs| == |puts| && InOrder(refs, from) && (again == Planned(refs, puts, at, from) <==> AllFit(css, refs, puts))
  }

  lemma NonePlanned(css: string, at: nat, from: nat)
    ensures PlannedExactly(css, [], [], [], at, from)
  {
  }

  lemma PlannedFrom(css: string, refs: seq<Reference>, puts: seq<string>, again: seq<Reference>, at: nat, from: nat,
                    to: nat)
    requires from <= to && InOrder(refs, from) && PlannedExactly(css, refs, puts, again, at + (to - from), to)
    ensures PlannedExactly(css, refs, puts, again, at, from)
  {
    PlannedAdvance(refs, puts, at, from, to);
    hide InOrder, Planned, AllFit;
  }

  /** A first reference that is read as planned leaves the others to be compared. */
  lemma PlannedFirst(css: string, refs: seq<Reference>, puts: seq<string>, again: seq<Reference>, at: nat, from: nat,
                     rest: seq<Reference>, next: nat, to: nat)
    requires |refs| == |puts| && refs != [] && InOrder(refs, from) && refs[0].end <= to
    requires var placed := Placed(refs[0], at - from, puts[0]);
             if Fits(css, refs[0], puts[0])
             then
               && again == [placed] + rest && next == placed.end + (to - refs[0].end)
               && PlannedExactly(css, refs[1..], puts[1..], rest, next, to)
             else HeadDiffers(again, placed)
    ensures PlannedExactly(css, refs, puts, again, at, from)
  {
    var placed := Placed(refs[0], at - from, puts[0]);
    AllFitCons(css, refs, puts);
    PlannedCons(refs, puts, at, from);
    hide Fits, AllFit, InOrder, Planned;
    if Fits(css, refs[0], puts[0]) {
      PlannedFrom(css, refs[1..], puts[1..], rest, placed.end, refs[0].end, to);
      SameTail(placed, rest, Planned(refs[1..], puts[1..], placed.end, refs[0].end));
    }
  }

  lemma PlannedCons(refs: seq<Reference>, puts: seq<string>, at: nat, from: nat)
    requires |refs| == |puts| && refs != [] && InOrder(refs, from)
    ensures InOrder(refs[1..], refs[0].end)
    ensures var placed := Placed(refs[0], at - from, puts[0]);
            Planned(refs, puts, at, from) == [placed] + Planned(refs[1..], puts[1..], placed.end, refs[0].end)
  {
  }

  /** From any place on, the new sheet has the planned references exactly when all new values fit. */
  lemma {:induction false} Reread(css: string, other: string, c: nat, at: nat, quote: Option<char>, puts: seq<string>)
    requires c <= |css| && |puts| == |References(css, c, quote)|
    requires Rest(other, at, css, PutSpans(References(css, c, quote), puts), c) && SameBefore(css, c, other, at)
    ensures PlannedExactly(css, References(css, c, quote), puts, References(other, at, quote), at, c)
    decreases |css| - c
  {
    hide Rest, TurnAt, SameBefore, Fits, InOrder, References, PlannedExactly, PutSpans, HeadDiffers;
    if c == |css| {
      RereadEnd(css, other, at, quote, puts);
    } else {
      var refs, turn := References(css, c, quote), TurnAt(css, c, quote);
      ReferencesInOrder(css, c, quote);
      if turn.found.Some? {
        QuoteFindsNothing(css, c, quote);
        var next := RereadFound(css, other, c, at, puts);
        if Fits(css, refs[0], puts[0]) {
          Reread(css, other, turn.next, next, None, puts[1..]);
        }
        PlannedFirst(css, refs, puts, References(other, at, None), at, c, References(other, next, None), next,
                     turn.next);
      } else {
        LaterSpans(refs, puts);
        RereadNothing(css, other, c, at, quote, refs, PutSpans(refs, puts));
        if turn.next <= |css| {
          Reread(css, other, turn.next, at + (turn.next - c), turn.quote, puts);
          PlannedFrom(css, refs, puts, References(other, at, quote), at, c, turn.next);
        } else {
          NonePlanned(css, at, c);
        }
      }
    }
  }

  lemma RereadEnd(css: string, other: string, at: nat, quote: Option<char>, puts: seq<string>)
    requires |puts| == |References(css, |css|, quote)|
    requires Rest(other, at, css, PutSpans(References(css, |css|, quote), puts), |css|)
    ensures PlannedExactly(css, References(css, |css|, quote), puts, References(other, at, quote), at, |css|)
  {
    hide Rest, TurnAt;
    assert References(css, |css|, quote) == [];
    assert PutSpans([], puts) == [];
    WholeRest(other, at, css);
  }

  /** Each reference holds its value. */
  predicate Holds(css: string, refs: seq<Reference>, values: seq<string>) {
    && |refs| == |values|
    && forall i :: 0 <= i < |refs| ==>
         refs[i].start <= refs[i].end <= |css| && css[refs[i].start..refs[i].end] == values[i]
  }

  lemma {:induction false} PlannedHold(css: string, other: string, refs: seq<Reference>, puts: seq<string>, at: nat,
                                       from: nat)
    requires |refs| == |puts| && InOrder(refs, from) && Rest(other, at, css, PutSpans(refs, puts), from)
    ensures Holds(other, Planned(refs, puts, at, from), puts)
  {
    if refs != [] {
      var spans := PutSpans(refs, puts);
      var start := at + (refs[0].start - from);
      assert spans[1..] == PutSpans(refs[1..], puts[1..]);
      PlannedCons(refs, puts, at, from);
      RestParts(other, at, css, spans, from);
      hide Rest, Ordered, Moves, InOrder, Planned;
      Advance(other, at, css, spans, from, refs[0].start);
      Jump(other, start, css, spans);
      PlannedHold(css, other, refs[1..], puts[1..], start + |puts[0]|, refs[0].end);
    }
  }

  // ----- A rewritten sheet -----

  lemma {:induction false} EscapeKeeps(value: string, c: char)
    requires c != '\\'
    ensures c in Escape(value) <==> c in value
    ensures Escape(value) == [] <==> value == []
    ensures value != [] && value[0] != ')' ==> Escape(value)[0] == value[0]
  {
    if value != [] {
      EscapeKeeps(value[1..], c);
      assert value == [value[0]] + value[1..];
    }
  }

  /** Escaping does not change whether a value fits. */
  lemma EscapedFits(css: string, r: Reference, value: string)
    ensures Fits(css, r, Escape(value)) <==> Fits(css, r, value)
  {
    var put := Escape(value);
    EscapeKeeps(value, '"');
    EscapeKeeps(value, '\'');
    EscapeKeeps(value, ')');
    hide Escape;
    if (forall i :: 0 <= i < |put| ==> NotEnd(put[i])) || (forall i :: 0 <= i < |value| ==> NotEnd(value[i])) {
      NotEndKept(value);
    }
  }

  lemma NotEndKept(value: string)
    ensures (forall i :: 0 <= i < |Escape(value)| ==> NotEnd(Escape(value)[i]))
      <==> (forall i :: 0 <= i < |value| ==> NotEnd(value[i]))
  {
    hide Escape, IsSpace;
    var put := Escape(value);
    if !forall i :: 0 <= i < |value| ==> NotEnd(value[i]) {
      var i :| 0 <= i < |value| && !NotEnd(value[i]);
      assert value[i] != '\\' by { BackslashIsNoEnd(); }
      EscapeKeeps(value, value[i]);
      var j :| 0 <= j < |put| && put[j] == value[i];
    }
    if !forall i :: 0 <= i < |put| ==> NotEnd(put[i]) {
      var i :| 0 <= i < |put| && !NotEnd(put[i]);
      assert put[i] != '\\' by { BackslashIsNoEnd(); }
      EscapeKeeps(value, put[i]);
      var j :| 0 <= j < |value| && value[j] == put[i];
    }
  }

  lemma BackslashIsNoEnd()
    ensures NotEnd('\\')
  {
  }

  /** The new value of each reference of the sheet, escaped. */
  function NewValues(ctx: Context, css: string): (puts: seq<string>)
    ensures |puts| == |References(css, 0, None)|
  {
    SpansOrdered(ctx, css);
    var refs := References(css, 0, None);
    seq(|refs|, i requires 0 <= i < |refs| => Escape(ctx.reference(refs[i].atImport, RawOf(css, refs[i]))))
  }

  lemma {:induction false} PutSpansAt(refs: seq<Reference>, puts: seq<string>)
    requires |refs| == |puts|
    ensures |PutSpans(refs, puts)| == |refs|
    ensures forall i :: 0 <= i < |refs| ==>
      PutSpans(refs, puts)[i] == Replacement(refs[i].start, refs[i].end, puts[i])
  {
    if refs != [] {
      PutSpansAt(refs[1..], puts[1..]);
    }
  }

  /** The output is the sheet with the new values put in. */
  lemma OutputIsPut(ctx: Context, css: string)
    requires Rewritten(ctx, css).Css?
    ensures Rest(Rewritten(ctx, css).css, 0, css, PutSpans(References(css, 0, None), NewValues(ctx, css)), 0)
  {
    hide LeftToRight, References;
    SpansOrdered(ctx, css);
    var refs, puts := References(css, 0, None), NewValues(ctx, css);
    PutSpansAt(refs, puts);
    assert SpansOf(ctx, css, refs) == PutSpans(refs, puts);
    assert Rewritten(ctx, css).css[0..] == Rewritten(ctx, css).css;
  }

  /** The value of each reference can stand in its place. */
  predicate ValuesFit(ctx: Context, css: string) {
    var refs := References(css, 0, None);
    SpansOrdered(ctx, css);
    forall i :: 0 <= i < |refs| ==> Fits(css, refs[i], ctx.reference(refs[i].atImport, RawOf(css, refs[i])))
  }

  lemma ValuesFitEscaped(ctx: Context, css: string)
    ensures ValuesFit(ctx, css) <==> AllFit(css, References(css, 0, None), NewValues(ctx, css))
  {
    var refs := References(css, 0, None);
    SpansOrdered(ctx, css);
    hide References, Fits, Escape, RawOf;
    forall i | 0 <= i < |refs|
      ensures Fits(css, refs[i], NewValues(ctx, css)[i])
         <==> Fits(css, refs[i], ctx.reference(refs[i].atImport, RawOf(css, refs[i])))
    {
      EscapedFits(css, refs[i], ctx.reference(refs[i].atImport, RawOf(css, refs[i])));
    }
  }

  /** The references of the sheet, moved to where the new values are put. */
  function PlannedSheet(ctx: Context, css: string): seq<Reference> {
    ReferencesInOrder(css, 0, None);
    Planned(References(css, 0, None), NewValues(ctx, css), 0, 0)
  }

  /** Scanned again, a rewritten sheet has the references of the sheet, with the new values in their places, if and
      only if each new value can stand where it is put. */
  lemma RewrittenReadsExactly(ctx: Context, css: string)
    requires Rewritten(ctx, css).Css?
    ensures References(Rewritten(ctx, css).css, 0, None) == PlannedSheet(ctx, css) <==> ValuesFit(ctx, css)
    ensures Holds(Rewritten(ctx, css).css, PlannedSheet(ctx, css), NewValues(ctx, css))
  {
    OutputIsPut(ctx, css);
    ValuesFitEscaped(ctx, css);
    assert SameBefore(css, 0, Rewritten(ctx, css).css, 0);
    hide References, Rewritten, Rest, SameBefore, NewValues, ValuesFit, AllFit, Planned, Holds, InOrder;
    Reread(css, Rewritten(ctx, css).css, 0, 0, None, NewValues(ctx, css));
    PlannedHold(css, Rewritten(ctx, css).css, References(css, 0, None), NewValues(ctx, css), 0, 0);
  }

  /** A new value that holds its quote is not read back. */
  lemma QuoteIsLost(ctx: Context)
    requires ctx.maximumReferenceLength > 0 && '"' in ctx.reference(false, "a")
    ensures var css := "url(\"a\")";
            && Rewritten(ctx, css).Css?
            && References(Rewritten(ctx, css).css, 0, None) != PlannedSheet(ctx, css)
  {
    var css := "url(\"a\")";
    assert css == "url(\"" + "a" + "\")";
    PrintedUrlIsFound("a");
    assert References(css, 0, None) == [Reference(5, 6, false)] && RawOf(css, Reference(5, 6, false)) == "a";
    SpansOrdered(ctx, css);
    hide References, LeftToRight, Planned, NewValues;
    assert AllValid(ctx, css, References(css, 0, None));
    assert !Fits(css, Reference(5, 6, false), ctx.reference(false, "a"));
    RewrittenReadsExactly(ctx, css);
  }
}

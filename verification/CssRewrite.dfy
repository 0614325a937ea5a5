/** Rewriting the references of a style sheet (packages/archive-core/src/rewrite.ts:884-886 and 969-1041).
    How a reference is resolved and mapped is a function given by the caller. */
module CssRewrite {
  import opened Options
  import opened Scanner
  import opened Slices
  import opened Splice

  datatype Context = Context(reference: (bool, string) -> string, maximumReferenceLength: nat)

  datatype Result = Css(css: string) | Throws

  /** The text between `start` and `end` is a reference, of `@import` or of `url(...)`. */
  datatype Reference = Reference(start: nat, end: nat, atImport: bool)

  predicate WordChar(c: char) {
    'A' <= c <= 'Z' || 'a' <= c <= 'z' || '0' <= c <= '9' || c == '_' || c == '-'
  }

  function LowerChar(c: char): char {
    if 'A' <= c <= 'Z' then (c as int + 32) as char else c
  }

  /** The word lies at `i`, in any letter case. */
  predicate WordAt(css: string, i: nat, word: string) {
    i + |word| <= |css| && forall k :: 0 <= k < |word| ==> LowerChar(css[i + k]) == word[k]
  }

  /** The word lies at `i`, and nothing before it makes it part of a longer one. */
  predicate WordStarts(css: string, i: nat, word: string) {
    WordAt(css, i, word) && (i == 0 || i > |css| || !WordChar(css[i - 1]))
  }

  // ----- One reference -----

  datatype Scan = Scan(valueStart: nat, valueEnd: nat, end: nat)

  predicate NotEnd(c: char) { c != ')' && !IsSpace(c) }

  /** `scanCssReplacement`: a quoted reference up to its quote, or one up to a space or parenthesis. */
  function ScanFrom(css: string, start: nat): (r: Option<Scan>)
    requires start <= |css|
    ensures r.Some? ==> start <= r.value.valueStart <= r.value.valueEnd <= r.value.end <= |css|
  {
    var cursor := Skip(css, start, |css|, IsSpace);
    if cursor < |css| && IsQuote(css[cursor]) then
      var quote := css[cursor];
      var end := Skip(css, cursor + 1, |css|, c => c != quote);
      if end == |css| then None else Some(Scan(cursor + 1, end, end + 1))
    else
      var end := Skip(css, cursor, |css|, NotEnd);
      Some(Scan(cursor, end, end))
  }

  method ScanReplacement(css: string, start: nat) returns (r: Option<Scan>)
    requires start <= |css|
    ensures r == ScanFrom(css, start)
  {
    hide IsSpace, NotEnd;
    var cursor := SkipWhile(css, start, |css|, IsSpace);
    if cursor < |css| && IsQuote(css[cursor]) {
      var quote := css[cursor];
      var end := SkipWhile(css, cursor + 1, |css|, c => c != quote);
      if end == |css| {
        return None;
      }
      return Some(Scan(cursor + 1, end, end + 1));
    }
    var end := SkipWhile(css, cursor, |css|, NotEnd);
    return Some(Scan(cursor, end, end));
  }

  // ----- The references of a sheet -----

  /** One turn of the loop: the cursor moves, in or out of a quoted string, perhaps past a reference. */
  datatype Turn = Turn(next: nat, quote: Option<char>, found: Option<Reference>)

  function AfterComment(css: string, cursor: nat): (next: nat)
    requires cursor < |css|
    ensures cursor < next <= |css|
  {
    var end := IndexOf(css, "*/", cursor + 2);
    if end.None? then |css| else end.value + 2
  }

  function UrlTurn(css: string, cursor: nat): (turn: Turn)
    requires WordAt(css, cursor, "url")
    ensures cursor < turn.next
    ensures turn.found.Some? ==>
       cursor < turn.found.value.start <= turn.found.value.end <= turn.next && turn.found.value.end <= |css|
  {
    var open := Skip(css, cursor + 3, |css|, IsSpace);
    if open == |css| || css[open] != '(' then Turn(cursor + 3, None, None)
    else
      var scan := ScanFrom(css, open + 1);
      if scan.None? then Turn(open + 1, None, None)
      else
        var s := scan.value;
        Turn(if s.end > open + 1 then s.end else open + 1, None, Some(Reference(s.valueStart, s.valueEnd, false)))
  }

  function ImportTurn(css: string, cursor: nat): (turn: Turn)
    requires WordAt(css, cursor, "@import")
    ensures cursor < turn.next
    ensures turn.found.Some? ==>
       cursor < turn.found.value.start <= turn.found.value.end <= turn.next && turn.found.value.end <= |css|
  {
    var from := Skip(css, cursor + 7, |css|, IsSpace);
    var scan := ScanFrom(css, from);
    if scan.None? || (from < |css| && LowerChar(css[from]) == 'u') then Turn(cursor + 1, None, None)
    else Turn(scan.value.end, None, Some(Reference(scan.value.valueStart, scan.value.valueEnd, true)))
  }

  function TurnAt(css: string, cursor: nat, quote: Option<char>): (turn: Turn)
    requires cursor < |css|
    ensures cursor < turn.next
    ensures turn.found.Some? ==>
       cursor < turn.found.value.start <= turn.found.value.end <= turn.next && turn.found.value.end <= |css|
  {
    var c := css[cursor];
    if LiesAt(css, cursor, "/*") then Turn(AfterComment(css, cursor), quote, None)
    else if quote.Some? then
      if c == '\\' then Turn(cursor + 2, quote, None)
      else Turn(cursor + 1, if c == quote.value then None else quote, None)
    else if IsQuote(c) then Turn(cursor + 1, Some(c), None)
    else if WordStarts(css, cursor, "url") then UrlTurn(css, cursor)
    else if WordStarts(css, cursor, "@import") then ImportTurn(css, cursor)
    else Turn(cursor + 1, None, None)
  }

  function Found(turn: Turn): seq<Reference> {
    if turn.found.Some? then [turn.found.value] else []
  }

  function References(css: string, cursor: nat, quote: Option<char>): seq<Reference>
    decreases |css| - cursor
  {
    if cursor >= |css| then []
    else
      var turn := TurnAt(css, cursor, quote);
      Found(turn) + References(css, turn.next, turn.quote)
  }

  method ReadTurn(css: string, cursor: nat, quote: Option<char>) returns (turn: Turn)
    requires cursor < |css|
    ensures turn == TurnAt(css, cursor, quote)
  {
    hide IsSpace, ScanFrom;
    if LiesAt(css, cursor, "/*") {
      return Turn(AfterComment(css, cursor), quote, None);
    }
    if quote.Some? {
      if css[cursor] == '\\' {
        return Turn(cursor + 2, quote, None);
      }
      return Turn(cursor + 1, if css[cursor] == quote.value then None else quote, None);
    }
    if IsQuote(css[cursor]) {
      return Turn(cursor + 1, Some(css[cursor]), None);
    }
    if WordStarts(css, cursor, "url") {
      var open := SkipWhile(css, cursor + 3, |css|, IsSpace);
      if open == |css| || css[open] != '(' {
        return Turn(cursor + 3, None, None);
      }
      var scan := ScanReplacement(css, open + 1);
      if scan.None? {
        return Turn(open + 1, None, None);
      }
      var s := scan.value;
      return Turn(if s.end > open + 1 then s.end else open + 1, None, Some(Reference(s.valueStart, s.valueEnd, false)));
    }
    if WordStarts(css, cursor, "@import") {
      var from := SkipWhile(css, cursor + 7, |css|, IsSpace);
      var scan := ScanReplacement(css, from);
      if scan.Some? && !(from < |css| && LowerChar(css[from]) == 'u') {
        return Turn(scan.value.end, None, Some(Reference(scan.value.valueStart, scan.value.valueEnd, true)));
      }
    }
    return Turn(cursor + 1, None, None);
  }

  // ----- The references are in order -----

  predicate ReferencesOrdered(refs: seq<Reference>, lo: nat, hi: nat) {
    && (forall i :: 0 <= i < |refs| ==> lo < refs[i].start <= refs[i].end <= hi)
    && (forall i, j :: 0 <= i < j < |refs| ==> refs[i].end < refs[j].start)
  }

  lemma {:induction false} ReferencesAreOrdered(css: string, cursor: nat, quote: Option<char>)
    ensures ReferencesOrdered(References(css, cursor, quote), cursor, |css|)
    decreases |css| - cursor
  {
    hide TurnAt;
    if cursor < |css| {
      var turn := TurnAt(css, cursor, quote);
      ReferencesAreOrdered(css, turn.next, turn.quote);
    }
  }

  // ----- The rewriter -----

  predicate ValidReference(ctx: Context, value: string) {
    1 <= |value| <= ctx.maximumReferenceLength && forall i :: 0 <= i < |value| ==>
      value[i] >= ' ' && value[i] != 127 as char
  }

  function EscapeChar(c: char): string {
    if c == '\\' then "\\\\" else if c == ')' then "\\)" else [c]
  }

  /** `escapeCssUrl`; the backslashes are replaced first, so one pass does the same. */
  function Escape(value: string): string {
    if value == [] then [] else EscapeChar(value[0]) + Escape(value[1..])
  }

  lemma {:induction false} EscapeKeepsPlain(value: string)
    ensures Escape(value) == value <==> '\\' !in value && ')' !in value
    ensures |value| <= |Escape(value)|
  {
    if value != [] {
      var c, rest := value[0], value[1..];
      EscapeKeepsPlain(rest);
      assert value == [c] + rest;
      if c == '\\' || c == ')' {
        assert |Escape(value)| == 2 + |Escape(rest)|;
      } else {
        assert EscapeChar(c) == [c];
        hide Escape;
        SameTail(c, Escape(rest), rest);
      }
    }
  }

  lemma SameTail<T>(x: T, s: seq<T>, t: seq<T>)
    ensures [x] + s == [x] + t <==> s == t
  {
    assert ([x] + s)[1..] == s && ([x] + t)[1..] == t;
  }

  function RawOf(css: string, r: Reference): string
    requires r.start <= r.end <= |css|
  {
    css[r.start..r.end]
  }

  function SpanOf(ctx: Context, css: string, r: Reference): Replacement
    requires r.start <= r.end <= |css|
  {
    Replacement(r.start, r.end, Escape(ctx.reference(r.atImport, RawOf(css, r))))
  }

  predicate InText(css: string, refs: seq<Reference>) {
    forall i :: 0 <= i < |refs| ==> refs[i].start <= refs[i].end <= |css|
  }

  function SpansOf(ctx: Context, css: string, refs: seq<Reference>): (spans: seq<Replacement>)
    requires InText(css, refs)
    ensures |spans| == |refs| && forall i :: 0 <= i < |refs| ==> spans[i] == SpanOf(ctx, css, refs[i])
  {
    seq(|refs|, i requires 0 <= i < |refs| => SpanOf(ctx, css, refs[i]))
  }

  lemma SpansOrdered(ctx: Context, css: string)
    ensures InText(css, References(css, 0, None))
    ensures Ordered(SpansOf(ctx, css, References(css, 0, None)), 0, |css|)
  {
    ReferencesAreOrdered(css, 0, None);
  }

  predicate AllValid(ctx: Context, css: string, refs: seq<Reference>)
    requires InText(css, refs)
  {
    forall i :: 0 <= i < |refs| ==> ValidReference(ctx, RawOf(css, refs[i]))
  }

  /** What `rewriteCss` returns: the splice of all references, or an exception when one of them is not valid. */
  function Rewritten(ctx: Context, css: string): Result {
    SpansOrdered(ctx, css);
    var refs := References(css, 0, None);
    if AllValid(ctx, css, refs) then Css(LeftToRight(css, SpansOf(ctx, css, refs), 0)) else Throws
  }

  lemma ReferencesStep(css: string, cursor: nat, quote: Option<char>)
    ensures References(css, cursor, quote)
      == if cursor >= |css| then [] else var turn := TurnAt(css, cursor, quote);
        Found(turn) + References(css, turn.next, turn.quote)
  {
    hide TurnAt;
  }

  lemma SpansAppend(ctx: Context, css: string, refs: seq<Reference>, r: Reference)
    requires InText(css, refs) && AllValid(ctx, css, refs) && r.start <= r.end <= |css|
    requires ValidReference(ctx, RawOf(css, r))
    ensures InText(css, refs + [r]) && AllValid(ctx, css, refs + [r])
    ensures SpansOf(ctx, css, refs + [r]) == SpansOf(ctx, css, refs) + [SpanOf(ctx, css, r)]
  {
    hide ValidReference, RawOf, SpanOf;
  }

  method RewriteCss(ctx: Context, css: string) returns (result: Result)
    ensures result == Rewritten(ctx, css)
  {
    hide TurnAt, ValidReference, LeftToRight, References, SpansOf, SpanOf, Ordered;
    SpansOrdered(ctx, css);
    ghost var all := References(css, 0, None);
    ghost var refs: seq<Reference> := [];
    var replacements: seq<Replacement> := [];
    var cursor: nat, quote: Option<char> := 0, None;
    while cursor < |css|
      invariant refs + References(css, cursor, quote) == all
      invariant InText(css, refs) && AllValid(ctx, css, refs) && replacements == SpansOf(ctx, css, refs)
      decreases |css| - cursor
    {
      var turn := ReadTurn(css, cursor, quote);
      ReferencesStep(css, cursor, quote);
      ghost var rest := References(css, turn.next, turn.quote);
      assert refs + (Found(turn) + rest) == refs + Found(turn) + rest;
      if turn.found.Some? {
        var r := turn.found.value;
        assert all[|refs|] == r;
        if !ValidReference(ctx, RawOf(css, r)) {
          return Throws;
        }
        SpansAppend(ctx, css, refs, r);
        replacements := replacements + [SpanOf(ctx, css, r)];
        refs := refs + [r];
      }
      cursor, quote := turn.next, turn.quote;
    }
    ReferencesStep(css, cursor, quote);
    assert refs == all;
    var output := Apply(css, replacements);
    return Css(output);
  }

  /** The reference stays what it is, and has nothing to escape. */
  predicate Untouched(ctx: Context, css: string, r: Reference)
    requires r.start <= r.end <= |css|
  {
    var raw := RawOf(css, r);
    ValidReference(ctx, raw) && ctx.reference(r.atImport, raw) == raw && '\\' !in raw && ')' !in raw
  }

  /** A sheet whose references are all untouched is returned as it is. */
  lemma UntouchedSheetIsKept(ctx: Context, css: string)
    requires InText(css, References(css, 0, None))
    requires forall i :: 0 <= i < |References(css, 0, None)| ==> Untouched(ctx, css, References(css, 0, None)[i])
    ensures Rewritten(ctx, css) == Css(css)
  {
    hide References, ValidReference, LeftToRight, Escape;
    SpansOrdered(ctx, css);
    var refs := References(css, 0, None);
    var spans := SpansOf(ctx, css, refs);
    forall i | 0 <= i < |spans| ensures spans[i].value == css[spans[i].start..spans[i].end] {
      assert Untouched(ctx, css, refs[i]) && spans[i] == SpanOf(ctx, css, refs[i]);
      EscapeKeepsPlain(RawOf(css, refs[i]));
    }
    SameValues(css, spans, 0);
    assert css[0..] == css;
  }

  /** A printed reference is found, and nothing else: whatever it holds except a double quote. */
  lemma PrintedUrlIsFound(r: string)
    requires '"' !in r
    ensures var css := "url(\"" + r + "\")";
            References(css, 0, None) == [Reference(5, 5 + |r|, false)] && RawOf(css, Reference(5, 5 + |r|, false)) == r
  {
    var css := "url(\"" + r + "\")";
    var n := |r|;
    assert css[0] == 'u' && css[1] == 'r' && css[2] == 'l' && css[3] == '(' && css[4] == '"' && css[5 + n] == '"'
      && css[6 + n] == ')';
    assert css[5..5 + n] == r;
    forall k | 5 <= k < 5 + n ensures css[k] != '"' {
      assert css[k] == r[k - 5];
    }
    UrlTurnAt(css, n);
    hide TurnAt;
    ReferencesStep(css, 7 + n, None);
    ReferencesStep(css, 6 + n, None);
    ReferencesStep(css, 0, None);
    assert [Reference(5, 5 + n, false)] + ([] + []) == [Reference(5, 5 + n, false)];
  }

  lemma UrlTurnAt(css: string, n: nat)
    requires |css| == 7 + n && css[0] == 'u' && css[1] == 'r' && css[2] == 'l' && css[3] == '(' && css[4] == '"'
    requires css[5 + n] == '"' && css[6 + n] == ')' && forall k :: 5 <= k < 5 + n ==> css[k] != '"'
    ensures TurnAt(css, 0, None) == Turn(6 + n, None, Some(Reference(5, 5 + n, false)))
    ensures TurnAt(css, 6 + n, None) == Turn(7 + n, None, None)
  {
    SkipIs(css, 3, |css|, IsSpace, 3);
    SkipIs(css, 4, |css|, IsSpace, 4);
    QuotedScan(css, 4, 5 + n);
    var word := "url";
    assert WordAt(css, 0, word);
    var other := "@import";
    assert !WordAt(css, 6 + n, other);
  }

  /** A quoted reference ends at the first character that is its quote. */
  lemma QuotedScan(css: string, start: nat, end: nat)
    requires start < end < |css| && IsQuote(css[start]) && !IsSpace(css[start]) && css[end] == css[start]
    requires forall k :: start < k < end ==> css[k] != css[start]
    ensures ScanFrom(css, start) == Some(Scan(start + 1, end, end + 1))
  {
    SkipIs(css, start, |css|, IsSpace, start);
    hide IsSpace, NotEnd;
    var scan := ScanFrom(css, start);
    assert scan.Some? ==> scan.value.valueStart == start + 1;
    var quote := css[start];
    var keep := (c: char) => c != quote;
    SkipIs(css, start + 1, |css|, keep, end);
  }
}

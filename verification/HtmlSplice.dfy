/** A text with some of its attribute values replaced, read along with the original
    (packages/archive-core/src/rewrite.ts:718-736 and 932-965). */
module HtmlSplice {
  import opened Options
  import opened Scanner
  import opened HtmlTokens
  import opened Splice
  import opened SplicedText
  import opened HtmlValues

  // ----- The spans before the end of a tag -----

  /** Spans that lie below `end`, the last character before it not being replaced. */
  predicate Below(spans: seq<Replacement>, end: nat) {
    forall i :: 0 <= i < |spans| ==> spans[i].start <= spans[i].end < end
  }

  /** What precedes `end` in the original precedes it in the new text. */
  lemma {:induction false} StaysBefore(other: string, at: int, text: string, spans: seq<Replacement>,
                                       later: seq<Replacement>,
                                       from: nat, end: nat, end2: int)
    requires Rest(other, at, text, spans + later, from) && Rest(other, end2, text, later, end)
    requires from <= end && Below(spans, end)
    ensures spans == [] ==> end2 == at + (end - from)
    ensures at + (if from < end then 1 else 0) <= end2
    decreases |spans|
  {
    hide Rest;
    if spans == [] {
      assert spans + later == later;
      RestParts(other, end2, text, later, end);
      Advance(other, at, text, later, from, end);
      SameRest(other, at + (end - from), end2, text, later, end);
    } else {
      var all := spans + later;
      assert all[0] == spans[0] && all[1..] == spans[1..] + later;
      RestParts(other, at, text, all, from);
      Advance(other, at, text, all, from, spans[0].start);
      Jump(other, at + (spans[0].start - from), text, all);
      StaysBefore(other, at + (spans[0].start - from) + |spans[0].value|, text, spans[1..], later, spans[0].end, end,
                  end2);
    }
  }

  // ----- The attributes of a tag -----

  /** For each attribute of a tag, the value that replaces its own, if any. */
  type Puts = seq<Option<string>>

  function PutOf(a: Attribute, put: Option<string>): seq<Replacement> {
    if put.Some? && a.value.Some? then [Replacement(a.value.value.start, a.value.value.end, put.value)] else []
  }

  function SpansOf(attributes: seq<Attribute>, puts: Puts): seq<Replacement>
    requires |attributes| == |puts|
  {
    if attributes == [] then [] else PutOf(attributes[0], puts[0]) + SpansOf(attributes[1..], puts[1..])
  }

  /** The value that is replaced ends where it should, and the new one can stand in its place. */
  predicate Fits(text: string, a: Attribute, put: Option<string>, end: nat) {
    put.Some? ==>
      && a.value.Some? && Terminated(text, a.value.value, end) && IsState(a.value.value.quote)
      && ReadsBack(a.value.value.quote, put.value, text[a.value.value.end])
  }

  predicate AllFit(text: string, attributes: seq<Attribute>, puts: Puts, end: nat) {
    |attributes| == |puts| && forall k :: 0 <= k < |attributes| ==> Fits(text, attributes[k], puts[k], end)
  }

  /** What a reader sees of an attribute: its name, and the text and the quotes of its value. */
  datatype Shape = Shape(name: string, value: Option<(string, Option<char>)>)

  function TextOf(text: string, v: Value): string {
    if v.start <= v.end <= |text| then text[v.start..v.end] else []
  }

  function ShapeOf(text: string, a: Attribute, put: Option<string>): Shape {
    if a.value.None? then Shape(a.name, None)
    else Shape(a.name, Some((if put.Some? then put.value else TextOf(text, a.value.value), a.value.value.quote)))
  }

  /** The attributes as they read, with the new values in the place of their own. */
  function Shapes(text: string, attributes: seq<Attribute>, puts: Puts): (shapes: seq<Shape>)
    requires |attributes| == |puts|
  {
    if attributes == [] then [] else [ShapeOf(text, attributes[0], puts[0])] + Shapes(text, attributes[1..], puts[1..])
  }

  function KeepAll(n: nat): (puts: Puts)
    ensures |puts| == n && forall k :: 0 <= k < n ==> puts[k] == None
  {
    seq(n, _ => None)
  }

  /** The values of attributes that lie past `lo` are replaced past `lo`, and before the end of the tag. */
  lemma {:induction false} SpansInside(text: string, attributes: seq<Attribute>, puts: Puts, lo: nat, end: nat)
    requires AllFit(text, attributes, puts, end) && ValuesOrdered(text, attributes, lo, end)
    ensures Below(SpansOf(attributes, puts), end)
    ensures forall i :: 0 <= i < |SpansOf(attributes, puts)| ==> lo < SpansOf(attributes, puts)[i].start
  {
    if attributes != [] {
      OrderedTail(text, attributes, lo, end);
      assert Fits(text, attributes[0], puts[0], end);
      SpansInside(text, attributes[1..], puts[1..], lo, end);
    }
  }

  lemma OrderedTail(text: string, attributes: seq<Attribute>, lo: nat, end: nat)
    requires ValuesOrdered(text, attributes, lo, end) && attributes != []
    ensures ValuesOrdered(text, attributes[1..], lo, end)
  {
    hide ClosedOrLast;
    forall i | 0 <= i < |attributes| - 1 ensures attributes[1..][i] == attributes[i + 1] {}
  }

  lemma FitTail(text: string, attributes: seq<Attribute>, puts: Puts, end: nat)
    requires AllFit(text, attributes, puts, end) && attributes != []
    ensures AllFit(text, attributes[1..], puts[1..], end) && Fits(text, attributes[0], puts[0], end)
  {
    forall k | 0 <= k < |attributes| - 1 ensures Fits(text, attributes[1..][k], puts[1..][k], end) {
      assert Fits(text, attributes[k + 1], puts[k + 1], end);
    }
  }

  /** A turn that reads nothing that is replaced. */
  lemma PlainTurn(lower: string -> string, text: string, other: string, cursor: nat, end: nat, at: nat, end2: nat,
                  spans: seq<Replacement>, later: seq<Replacement>)
    requires cursor <= end <= |text| && Rest(other, at, text, spans + later, cursor)
    requires Rest(other, end2, text, later, end)
    requires Below(spans, end)
    requires var turn := TurnAt(lower, text, cursor, end);
             spans == [] || ((turn.Pass? || turn.Read?) && forall i :: 0 <= i < |spans| ==> turn.next < spans[i].start)
    ensures var turn := TurnAt(lower, text, cursor, end);
            && at <= end2 <= |other| && Movable(turn, at - cursor)
                 && TurnAt(lower, other, at, end2) == MovedTurn(turn, at - cursor)
            && (turn.Pass? || turn.Read? ==>
                  && Moves(text, cursor, turn.next, other, at - cursor)
                  && Rest(other, at + (turn.next - cursor), text, spans + later, turn.next))
  {
    hide TurnAt, MovedTurn, Movable, Rest, Moves, Ordered, Below, LeftToRight;
    var turn := TurnAt(lower, text, cursor, end);
    if spans == [] {
      assert spans + later == later;
      StaysBefore(other, at, text, spans, later, cursor, end, end2);
      RestParts(other, end2, text, later, end);
      Advance(other, at, text, later, cursor, end);
      TurnMoves(lower, text, other, cursor, end, at - cursor, end, end2);
    } else {
      PartMoves(other, at, text, spans, later, cursor, end, end2);
      TurnMoves(lower, text, other, cursor, end, at - cursor, spans[0].start, end2);
    }
    RestParts(other, end2, text, later, end);
    if turn.Pass? || turn.Read? {
      RestParts(other, at, text, spans + later, cursor);
      assert spans != [] ==> (spans + later)[0] == spans[0];
      assert spans == [] ==> spans + later == later;
      Advance(other, at, text, spans + later, cursor, turn.next);
    }
  }

  /** Up to the first span of a tag. */
  lemma PartMoves(other: string, at: int, text: string, spans: seq<Replacement>, later: seq<Replacement>,
                  from: nat, end: nat, end2: int)
    requires Rest(other, at, text, spans + later, from) && Rest(other, end2, text, later, end)
    requires from <= end && Below(spans, end) && spans != []
    ensures from <= spans[0].start < end && Moves(text, from, spans[0].start, other, at - from)
    ensures spans[0].start + (at - from) < end2 <= |other|
  {
    hide Rest, Moves;
    var all := spans + later;
    assert all[0] == spans[0];
    RestParts(other, at, text, all, from);
    RestParts(other, end2, text, later, end);
    Advance(other, at, text, all, from, spans[0].start);
    StaysBefore(other, at + (spans[0].start - from), text, spans, later, spans[0].start, end, end2);
  }

  /** How far what follows a place in a tag is free. */
  lemma FreeAfter(other: string, text: string, spans: seq<Replacement>, later: seq<Replacement>, x: nat, end: nat,
                  end2: int)
    requires Rest(other, end2, text, later, end) && x <= end
    requires forall i :: 0 <= i < |spans| ==> x < spans[i].start
    ensures x < end || spans == [] ==> (if x < end then x + 1 else x) <= Free(text, spans + later)
    ensures x <= Free(text, spans + later)
  {
    if spans == [] {
      assert spans + later == later;
    } else {
      assert (spans + later)[0] == spans[0];
    }
  }

  /** A turn that reads a value that is replaced. */
  lemma PutTurn(lower: string -> string, text: string, other: string, cursor: nat, end: nat, at: nat, end2: nat,
                name: string, v: Value, next: nat, put: string, spans: seq<Replacement>, later: seq<Replacement>)
    requires cursor <= end <= |text| && TurnAt(lower, text, cursor, end) == Read(Attribute(name, Some(v)), next)
    requires Terminated(text, v, end) && ReadsBack(v.quote, put, text[v.end])
    requires Rest(other, at, text, [Replacement(v.start, v.end, put)] + (spans + later), cursor)
    requires Rest(other, end2, text, later, end)
    requires Below(spans, end) && forall i :: 0 <= i < |spans| ==> next < spans[i].start
    ensures cursor <= v.start && v.end <= next <= end && at <= end2 <= |other| && 0 <= v.start + (at - cursor)
    ensures v.start + (at - cursor) + |put| <= |other|
    ensures other[v.start + (at - cursor)..v.start + (at - cursor) + |put|] == put
    ensures TurnAt(lower, other, at, end2) == NewTurn(name, v, next, at - cursor, put)
    ensures Rest(other, v.start + (at - cursor) + |put| + (next - v.end), text, spans + later, next)
  {
    hide TurnAt, Rest, Moves, Ordered, Below, LeftToRight, ReadsBack, Terminated;
    assert v.start <= v.end < end by { TerminatedInside(text, v, end); }
    TurnBounds(lower, text, cursor, end);
    var span := Replacement(v.start, v.end, put);
    var all := [span] + (spans + later);
    var d := at - cursor;
    var p := v.start + d + |put|;
    assert all[0] == span && all[1..] == spans + later;
    Advance(other, at, text, all, cursor, v.start);
    Jump(other, v.start + d, text, all);
    FreeAfter(other, text, spans, later, v.end, end, end2);
    FreeAfter(other, text, spans, later, next, end, end2);
    Advance(other, p, text, spans + later, v.end, v.end + 1);
    Advance(other, p, text, spans + later, v.end, next);
    StaysBefore(other, p, text, spans, later, v.end, end, end2);
    RestParts(other, end2, text, later, end);
    RestParts(other, at, text, all, cursor);
    MovesHead(text, v.end, v.end + 1, other, p - v.end);
    PutIsThere(other, v.start + d, put, text[v.end], end2);
    TurnReplaced(lower, text, other, cursor, end, name, v, next, d, end2, put);
  }

  lemma TerminatedInside(text: string, v: Value, end: nat)
    requires Terminated(text, v, end)
    ensures v.start <= v.end < end <= |text|
  {
  }

  lemma PutIsThere(other: string, at: int, put: string, following: char, end2: nat)
    requires 0 <= at && at + |put| < end2 <= |other| && other[at..at + |put|] == put && other[at + |put|] == following
    ensures PutAt(other, at, put, following, end2)
  {
    forall i | 0 <= i < |put| ensures other[at + i] == put[i] {
      assert other[at..at + |put|][i] == put[i];
    }
  }

  // ----- All attributes of a tag -----

  /** The attributes read between `at` and `end2` look as planned. */
  predicate ReadAsPlanned(lower: string -> string, other: string, at: nat, end2: nat, planned: seq<Shape>) {
    && at <= end2 <= |other|
    && var r := Attributes(lower, other, at, end2);
       r.Done? && Shapes(other, r.result, KeepAll(|r.result|)) == planned
  }

  lemma NothingRead(lower: string -> string, other: string, at: nat, end2: nat)
    requires at <= end2 <= |other| && TurnAt(lower, other, at, end2).Stop?
    ensures ReadAsPlanned(lower, other, at, end2, [])
  {
    hide TurnAt;
  }

  lemma OneRead(lower: string -> string, other: string, at: nat, end2: nat, a: Attribute, next: nat,
                planned: seq<Shape>)
    requires at <= end2 <= |other| && TurnAt(lower, other, at, end2) == Read(a, next)
    requires ReadAsPlanned(lower, other, next, end2, planned)
    ensures ReadAsPlanned(lower, other, at, end2, [ShapeOf(other, a, None)] + planned)
  {
    hide TurnAt, ShapeOf;
    var rest := Attributes(lower, other, next, end2).result;
    assert KeepAll(1 + |rest|)[1..] == KeepAll(|rest|);
    assert ([a] + rest)[1..] == rest;
  }

  lemma {:induction false} AttributesReplaced(lower: string -> string, text: string, other: string, cursor: nat,
                                              end: nat, at: nat, end2: nat,
                                              attributes: seq<Attribute>, puts: Puts, later: seq<Replacement>)
    requires cursor <= end && ClosedOrLast(text, end) && Attributes(lower, text, cursor, end) == Done(attributes)
    requires AllFit(text, attributes, puts, end)
    requires Rest(other, at, text, SpansOf(attributes, puts) + later, cursor) && Rest(other, end2, text, later, end)
    ensures ReadAsPlanned(lower, other, at, end2, Shapes(text, attributes, puts))
    decreases end - cursor
  {
    hide TurnAt, Rest, Moves, Ordered, LeftToRight, Movable, MovedTurn, NewTurn, Below, Terminated, ReadsBack,
         ReadAsPlanned, ShapeOf, MovedAttribute;
    var turn := TurnAt(lower, text, cursor, end);
    var spans := SpansOf(attributes, puts);
    if turn.Stop? {
      assert spans == [];
      BelowNone(end);
      PlainTurn(lower, text, other, cursor, end, at, end2, [], later);
      assert MovedTurn(turn, at - cursor) == Stop by { MovedStop(at - cursor); }
      NothingRead(lower, other, at, end2);
    } else if turn.Pass? {
      SpansPast(lower, text, turn.next, end, attributes, puts);
      PlainTurn(lower, text, other, cursor, end, at, end2, spans, later);
      AttributesReplaced(lower, text, other, turn.next, end, at + (turn.next - cursor), end2, attributes, puts, later);
      PassOn(lower, other, at, end2, turn.next, at - cursor, Shapes(text, attributes, puts));
    } else {
      FitTail(text, attributes, puts, end);
      var others, planned := SpansOf(attributes[1..], puts[1..]), Shapes(text, attributes[1..], puts[1..]);
      SpansPast(lower, text, turn.next, end, attributes[1..], puts[1..]);
      var b, next2 := AttributeReplaced(lower, text, other, cursor, end, at, end2, attributes[0], turn.next, puts[0],
                                        others, later);
      AttributesReplaced(lower, text, other, turn.next, end, next2, end2, attributes[1..], puts[1..], later);
      OneRead(lower, other, at, end2, b, next2, planned);
    }
  }

  /** One attribute reads as planned, and reading goes on at the same place. */
  lemma AttributeReplaced(lower: string -> string, text: string, other: string, cursor: nat, end: nat, at: nat,
                          end2: nat,
                          a: Attribute, next: nat, put: Option<string>, spans: seq<Replacement>,
                          later: seq<Replacement>)
      returns (b: Attribute, next2: nat)
    requires cursor <= end <= |text| && TurnAt(lower, text, cursor, end) == Read(a, next) && Fits(text, a, put, end)
    requires Rest(other, at, text, PutOf(a, put) + spans + later, cursor) && Rest(other, end2, text, later, end)
    requires Below(spans, end) && forall i :: 0 <= i < |spans| ==> next < spans[i].start
    ensures at <= end2 <= |other| && TurnAt(lower, other, at, end2) == Read(b, next2)
    ensures ShapeOf(other, b, None) == ShapeOf(text, a, put) && Rest(other, next2, text, spans + later, next)
  {
    hide TurnAt, Rest, Moves, Ordered, LeftToRight, Movable, MovedTurn, NewTurn, Below, Terminated, ReadsBack, ShapeOf,
         MovedAttribute;
    var d := at - cursor;
    if put.None? {
      assert PutOf(a, put) + spans == spans;
      PlainTurn(lower, text, other, cursor, end, at, end2, spans, later);
      TurnBounds(lower, text, cursor, end);
      MovedRead(text, other, cursor, a, next, d);
      b, next2 := MovedAttribute(a, d), next + d;
    } else {
      var v := a.value.value;
      assert PutOf(a, put) + spans + later == [Replacement(v.start, v.end, put.value)] + (spans + later);
      PutTurn(lower, text, other, cursor, end, at, end2, a.name, v, next, put.value, spans, later);
      PutRead(text, other, a, next, d, put.value);
      b, next2 := Attribute(a.name, Some(NewValue(v, d, put.value))), v.start + d + |put.value| + (next - v.end);
    }
  }

  lemma MovedRead(text: string, other: string, cursor: nat, a: Attribute, next: nat, d: int)
    requires Moves(text, cursor, next, other, d)
    requires a.value.Some? ==> cursor <= a.value.value.start <= a.value.value.end <= next
    ensures Movable(Read(a, next), d) && MovedTurn(Read(a, next), d) == Read(MovedAttribute(a, d), next + d)
    ensures ShapeOf(other, MovedAttribute(a, d), None) == ShapeOf(text, a, None)
  {
    if a.value.Some? {
      MovesPart(text, cursor, next, other, d, a.value.value.start, a.value.value.end);
      SliceMoves(text, a.value.value.start, a.value.value.end, other, d);
    }
  }

  lemma PutRead(text: string, other: string, a: Attribute, next: nat, d: int, put: string)
    requires a.value.Some? && a.value.value.end <= next
    requires 0 <= a.value.value.start + d && a.value.value.start + d + |put| <= |other|
    requires other[a.value.value.start + d..a.value.value.start + d + |put|] == put
    ensures NewTurn(a.name, a.value.value, next, d, put)
         == Read(Attribute(a.name, Some(NewValue(a.value.value, d, put))),
                 a.value.value.start + d + |put| + (next - a.value.value.end))
    ensures ShapeOf(other, Attribute(a.name, Some(NewValue(a.value.value, d, put))), None)
      == ShapeOf(text, a, Some(put))
  {
  }

  lemma BelowNone(end: nat)
    ensures Below([], end)
  {
  }

  lemma MovedStop(d: int)
    ensures Movable(Stop, d) && MovedTurn(Stop, d) == Stop
  {
  }

  lemma PassOn(lower: string -> string, other: string, at: nat, end2: nat, next: nat, d: int, planned: seq<Shape>)
    requires at <= end2 <= |other| && Movable(Pass(next), d)
    requires TurnAt(lower, other, at, end2) == MovedTurn(Pass(next), d)
    requires ReadAsPlanned(lower, other, next + d, end2, planned)
    ensures ReadAsPlanned(lower, other, at, end2, planned)
  {
    hide TurnAt;
  }

  /** The values that are replaced after a turn lie past where it stopped. */
  lemma SpansPast(lower: string -> string, text: string, next: nat, end: nat, attributes: seq<Attribute>, puts: Puts)
    requires next <= end && ClosedOrLast(text, end) && Attributes(lower, text, next, end) == Done(attributes)
    requires AllFit(text, attributes, puts, end)
    ensures Below(SpansOf(attributes, puts), end)
    ensures forall i :: 0 <= i < |SpansOf(attributes, puts)| ==> next < SpansOf(attributes, puts)[i].start
  {
    hide Attributes;
    AttributesOrdered(lower, text, next, end);
    SpansInside(text, attributes, puts, next, end);
  }
}

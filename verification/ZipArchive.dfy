/** The reader of the ZIP central directory (packages/persistence-sqlite/src/archive.ts:49-172; PKWARE APPNOTE
    sections 4.3.12 and 4.3.16). UTF-8 decoding, path normalization and the collision key of a path are
    functions given by the caller. */
module ZipArchive {
  import opened Octets
  import opened Options


  datatype Platform = Platform(
    utf8: Bytes -> Option<string>,
    normalize: string -> Option<string>,
    collisionKey: string -> string)

  datatype Limits = Limits(
    maximumArchiveBytes: nat, maximumEntries: nat, maximumExpandedBytes: nat, maximumSingleEntryBytes: nat,
    maximumCompressionRatio: nat)

  datatype Error = Unsafe | LimitExceeded
  datatype Result<T> = Ok(value: T) | Err(error: Error)

  datatype Entry = Entry(name: string, compressedSize: nat, expandedSize: nat, crc32: nat)
  datatype Archive = Archive(entries: seq<Entry>, expandedBytes: nat)

  // ----- Little-endian numbers -----

  const WORD := 0x1_0000
  const DWORD := 0x1_0000_0000

  function Read16(data: Bytes, offset: nat): (n: nat)
    requires offset + 2 <= |data|
    ensures n < WORD
  {
    data[offset] as int + 256 * data[offset + 1] as int
  }

  function Read32(data: Bytes, offset: nat): (n: nat)
    requires offset + 4 <= |data|
    ensures n < DWORD
  {
    Read16(data, offset) + WORD * Read16(data, offset + 2)
  }

  function Low(n: nat): Byte { n % 256 }

  function LE16(n: nat): (b: Bytes)
    requires n < WORD
    ensures |b| == 2 && Read16(b, 0) == n
  {
    [Low(n), Low(n / 256)]
  }

  function LE32(n: nat): (b: Bytes)
    requires n < DWORD
    ensures |b| == 4 && Read32(b, 0) == n
  {
    var low, high := LE16(n % WORD), LE16(n / WORD);
    assert [low[0], low[1], high[0], high[1]][2..] == high;
    [low[0], low[1], high[0], high[1]]
  }

  // ----- Headers -----

  const ENTRY_SIGNATURE := 0x02014b50
  const END_SIGNATURE := 0x06054b50

  /** A central directory file header. */
  datatype Header = Header(
    madeBy: nat, needed: nat, flags: nat, compression: nat, time: nat, date: nat, crc32: nat, compressedSize: nat,
    expandedSize: nat,
    disk: nat, internal: nat, external: nat, localOffset: nat, name: Bytes, extra: Bytes, comment: Bytes)

  function Size(h: Header): nat {
    46 + |h.name| + |h.extra| + |h.comment|
  }

  /** A whole header lies at `c`. */
  predicate Present(data: Bytes, c: nat) {
    && c + 46 <= |data| && Read32(data, c) == ENTRY_SIGNATURE
    && c + 46 + Read16(data, c + 28) + Read16(data, c + 30) + Read16(data, c + 32) <= |data|
  }

  /** The header at `c`. */
  function HeaderAt(data: Bytes, c: nat): (h: Header)
    requires Present(data, c)
    ensures c + Size(h) <= |data|
  {
    var n := c + 46 + Read16(data, c + 28);
    var e := n + Read16(data, c + 30);
    Header(Read16(data, c + 4), Read16(data, c + 6), Read16(data, c + 8), Read16(data, c + 10), Read16(data, c + 12),
           Read16(data, c + 14),
           Read32(data, c + 16), Read32(data, c + 20), Read32(data, c + 24), Read16(data, c + 34), Read16(data, c + 36),
           Read32(data, c + 38), Read32(data, c + 42), data[c + 46..n], data[n..e], data[e..e + Read16(data, c + 32)])
  }

  function DecodeName(p: Platform, h: Header): Option<string> {
    if h.flags / 0x800 % 2 == 0 && exists i :: 0 <= i < |h.name| && h.name[i] > 0x7f then None else p.utf8(h.name)
  }

  /** The safe name of an entry, None when decoding or normalizing it throws. */
  function NameOf(p: Platform, h: Header): Option<string> {
    var decoded := DecodeName(p, h);
    if decoded.None? then None else p.normalize(decoded.value)
  }

  function ViewOf(p: Platform, h: Header): Entry {
    Entry(if NameOf(p, h).Some? then NameOf(p, h).value else "", h.compressedSize, h.expandedSize, h.crc32)
  }

  /** A symbolic link or another special file of a Unix host. */
  predicate Special(h: Header) {
    h.madeBy / 256 == 3 && h.external / 0x1000_0000 != 0 && h.external / 0x1000_0000 != 8
  }

  predicate Collides(p: Platform, entries: seq<Entry>, name: string) {
    exists i :: 0 <= i < |entries| && (entries[i].name == name
                                       || p.collisionKey(entries[i].name) == p.collisionKey(name))
  }

  /** Why an entry is refused (lines 133-162), after the entries before it. */
  function Objection(p: Platform, limits: Limits, h: Header, entries: seq<Entry>, expandedBytes: nat): Option<Error> {
    if h.name == [] then Some(Unsafe)
    else if h.flags % 2 != 0 || (h.compression != 0 && h.compression != 8) || h.disk != 0 || NameOf(p, h).None? then
      Some(Unsafe)
    else
      var name := NameOf(p, h).value;
      if (name != [] && name[|name| - 1] == '/') || Special(h) || Collides(p, entries, name) then Some(Unsafe)
      else if h.expandedSize > limits.maximumSingleEntryBytes then Some(LimitExceeded)
      else if h.expandedSize > limits.maximumCompressionRatio * (if h.compressedSize == 0 then 1
                                                                 else h.compressedSize) then Some(LimitExceeded)
      else if expandedBytes + h.expandedSize > limits.maximumExpandedBytes then Some(LimitExceeded)
      else None
  }

  // ----- Reading -----

  /** Scans back from `index` for the end record. */
  function FindFrom(data: Bytes, index: int, minimum: nat): (r: Option<nat>)
    requires index + 22 <= |data|
    decreases index
  {
    if index < minimum then None
    else if Read32(data, index) == END_SIGNATURE then Some(index)
    else FindFrom(data, index - 1, minimum)
  }

  function FindEnd(data: Bytes): Option<nat> {
    FindFrom(data, |data| - 22, if |data| > 65557 then |data| - 65557 else 0)
  }

  /** Reads `count` entries from `cursor` on, after `entries`, up to `stop`. */
  function Walk(p: Platform, limits: Limits, data: Bytes, count: nat, cursor: nat, stop: nat, entries: seq<Entry>,
                expandedBytes: nat): Result<Archive> {
    if count == 0 then if cursor == stop then Ok(Archive(entries, expandedBytes)) else Err(Unsafe)
    else if !Present(data, cursor) then Err(Unsafe)
    else
      var h := HeaderAt(data, cursor);
      var objection := Objection(p, limits, h, entries, expandedBytes);
      if objection.Some? then Err(objection.value)
      else Walk(p, limits, data, count - 1, cursor + Size(h), stop, entries + [ViewOf(p, h)],
                expandedBytes + h.expandedSize)
  }

  lemma WalkStep(p: Platform, limits: Limits, data: Bytes, count: nat, cursor: nat, stop: nat, entries: seq<Entry>,
                 expandedBytes: nat)
    requires 0 < count
    ensures !Present(data, cursor) ==> Walk(p, limits, data, count, cursor, stop, entries, expandedBytes) == Err(Unsafe)
    ensures Present(data, cursor) ==>
      var h := HeaderAt(data, cursor);
      var objection := Objection(p, limits, h, entries, expandedBytes);
      Walk(p, limits, data, count, cursor, stop, entries, expandedBytes)
        == if objection.Some? then Err(objection.value)
           else Walk(p, limits, data, count - 1, cursor + Size(h), stop, entries + [ViewOf(p, h)],
                     expandedBytes + h.expandedSize)
  {
    hide Present, HeaderAt, Objection, Size, ViewOf;
  }

  function Inspect(p: Platform, limits: Limits, data: Bytes): Result<Archive> {
    if |data| > limits.maximumArchiveBytes then Err(LimitExceeded)
    else if FindEnd(data).None? then Err(Unsafe)
    else
      EndInReach(data);
      var end := FindEnd(data).value;
      var error := EndError(limits, data, end);
      if error.Some? then Err(error.value)
      else
        var start := Read32(data, end + 16);
        Walk(p, limits, data, Read16(data, end + 10), start, start + Read32(data, end + 12), [], 0)
  }

  /** Why an end record is refused (lines 100-111). */
  function EndError(limits: Limits, data: Bytes, end: nat): Option<Error>
    requires end + 22 <= |data|
  {
    var count, size, offset := Read16(data, end + 10), Read32(data, end + 12), Read32(data, end + 16);
    if Read16(data, end + 4) != 0 || Read16(data, end + 6) != 0 then Some(Unsafe)
    else if count == 0xffff || size == 0xffffffff || offset == 0xffffffff then Some(LimitExceeded)
    else if count == 0 || count > limits.maximumEntries then Some(LimitExceeded)
    else if offset + size > end then Some(Unsafe)
    else None
  }

  method CheckEnd(limits: Limits, data: Bytes, end: nat) returns (error: Option<Error>)
    requires end + 22 <= |data|
    ensures error == EndError(limits, data, end)
  {
    hide Read16, Read32;
    var entryCount, centralSize, centralOffset := Read16(data, end + 10), Read32(data, end + 12),
    Read32(data, end + 16);
    if Read16(data, end + 4) != 0 || Read16(data, end + 6) != 0 {
      return Some(Unsafe);
    }
    if entryCount == 0xffff || centralSize == 0xffffffff || centralOffset == 0xffffffff {
      return Some(LimitExceeded);
    }
    if entryCount == 0 || entryCount > limits.maximumEntries {
      return Some(LimitExceeded);
    }
    if centralOffset + centralSize > end {
      return Some(Unsafe);
    }
    return None;
  }

  /** The end record found is the last one in reach. */
  lemma {:induction false} FindIsEnd(data: Bytes, index: int, minimum: nat)
    requires index + 22 <= |data|
    ensures var r := FindFrom(data, index, minimum);
            && (r.Some? ==> minimum <= r.value <= index && Read32(data, r.value) == END_SIGNATURE)
            && (forall i: int :: (if r.Some? then r.value + 1 else minimum) <= i <= index ==>
                  Read32(data, i) != END_SIGNATURE)
    decreases index
  {
    if minimum <= index && Read32(data, index) != END_SIGNATURE {
      FindIsEnd(data, index - 1, minimum);
    }
  }

  lemma EndInReach(data: Bytes)
    requires FindEnd(data).Some?
    ensures var end := FindEnd(data).value; end + 22 <= |data| && Read32(data, end) == END_SIGNATURE
  {
    FindIsEnd(data, |data| - 22, if |data| > 65557 then |data| - 65557 else 0);
  }

  lemma InspectRefuses(p: Platform, limits: Limits, data: Bytes)
    ensures |data| > limits.maximumArchiveBytes ==> Inspect(p, limits, data) == Err(LimitExceeded)
    ensures |data| <= limits.maximumArchiveBytes && FindEnd(data).None? ==> Inspect(p, limits, data) == Err(Unsafe)
  {
    hide Walk, FindEnd, EndError, Read16, Read32;
  }

  lemma InspectReads(p: Platform, limits: Limits, data: Bytes, end: nat)
    requires |data| <= limits.maximumArchiveBytes && FindEnd(data) == Some(end) && end + 22 <= |data|
    ensures EndError(limits, data, end).Some? ==> Inspect(p, limits, data) == Err(EndError(limits, data, end).value)
    ensures EndError(limits, data, end).None? ==>
      var start := Read32(data, end + 16);
      Inspect(p, limits, data) == Walk(p, limits, data, Read16(data, end + 10), start, start + Read32(data, end + 12),
                                       [], 0)
  {
    hide Walk, FindEnd, EndError, Read16, Read32;
  }

  method FindEndOfCentralDirectory(data: Bytes) returns (found: Option<nat>)
    ensures found == FindEnd(data)
  {
    var minimum: nat := if |data| > 65557 then |data| - 65557 else 0;
    var index := |data| - 22;
    while index >= minimum
      invariant minimum - 1 <= index <= |data| - 22 || index == |data| - 22 < minimum
      invariant FindFrom(data, index, minimum) == FindEnd(data)
    {
      if Read32(data, index) == END_SIGNATURE {
        return Some(index);
      }
      index := index - 1;
    }
    return None;
  }

  /** Every read lies in the buffer. */
  method InspectZipArchive(p: Platform, limits: Limits, data: Bytes) returns (result: Result<Archive>)
    ensures result == Inspect(p, limits, data)
  {
    hide Inspect, Walk, FindEnd, FindFrom, Read16, Read32, EndError;
    InspectRefuses(p, limits, data);
    if |data| > limits.maximumArchiveBytes {
      return Err(LimitExceeded);
    }
    var found := FindEndOfCentralDirectory(data);
    if found.None? {
      return Err(Unsafe);
    }
    var end := found.value;
    EndInReach(data);
    InspectReads(p, limits, data, end);
    var error := CheckEnd(limits, data, end);
    if error.Some? {
      return Err(error.value);
    }
    var start := Read32(data, end + 16);
    result := ReadEntries(p, limits, data, Read16(data, end + 10), start, start + Read32(data, end + 12));
  }

  /** The loop of lines 117-170. */
  method ReadEntries(p: Platform, limits: Limits, data: Bytes, count: nat, start: nat,
                     stop: nat) returns (result: Result<Archive>)
    ensures result == Walk(p, limits, data, count, start, stop, [], 0)
  {
    hide Objection, NameOf, Walk, Read16, Read32;
    var entries: seq<Entry> := [];
    var names: set<string>, collisionKeys: set<string> := {}, {};
    var cursor: nat, expandedBytes: nat, index: nat := start, 0, 0;
    while index < count
      invariant index <= count
      invariant names == Names(entries) && collisionKeys == Keys(p, entries)
      invariant Walk(p, limits, data, count - index, cursor, stop, entries, expandedBytes)
        == Walk(p, limits, data, count, start, stop, [], 0)
    {
      WalkStep(p, limits, data, count - index, cursor, stop, entries, expandedBytes);
      if cursor + 46 > |data| || Read32(data, cursor) != ENTRY_SIGNATURE {
        return Err(Unsafe);
      }
      var endOfEntry := cursor + 46 + Read16(data, cursor + 28) + Read16(data, cursor + 30) + Read16(data, cursor + 32);
      if endOfEntry > |data| {
        return Err(Unsafe);
      }
      var h := HeaderAt(data, cursor);
      var error, entry := CheckEntry(p, limits, h, entries, names, collisionKeys, expandedBytes);
      if error.Some? {
        return Err(error.value);
      }
      NamesAppend(p, entries, entry);
      names, collisionKeys := names + {entry.name}, collisionKeys + {p.collisionKey(entry.name)};
      entries, expandedBytes := entries + [entry], expandedBytes + h.expandedSize;
      cursor, index := endOfEntry, index + 1;
    }
    WalkEnd(p, limits, data, cursor, stop, entries, expandedBytes);
    if cursor != stop {
      return Err(Unsafe);
    }
    return Ok(Archive(entries, expandedBytes));
  }

  lemma WalkEnd(p: Platform, limits: Limits, data: Bytes, cursor: nat, stop: nat, entries: seq<Entry>,
                expandedBytes: nat)
    ensures Walk(p, limits, data, 0, cursor, stop, entries, expandedBytes)
      == if cursor == stop then Ok(Archive(entries, expandedBytes)) else Err(Unsafe)
  {
  }

  function Names(entries: seq<Entry>): set<string> {
    set e | e in entries :: e.name
  }

  function Keys(p: Platform, entries: seq<Entry>): set<string> {
    set e | e in entries :: p.collisionKey(e.name)
  }

  lemma NamesAppend(p: Platform, entries: seq<Entry>, entry: Entry)
    ensures Names(entries + [entry]) == Names(entries) + {entry.name}
    ensures Keys(p, entries + [entry]) == Keys(p, entries) + {p.collisionKey(entry.name)}
  {
  }

  method CheckEntry(p: Platform, limits: Limits, h: Header, entries: seq<Entry>, names: set<string>,
                    collisionKeys: set<string>, expandedBytes: nat)
    returns (error: Option<Error>, entry: Entry)
    requires names == Names(entries) && collisionKeys == Keys(p, entries)
    ensures error == Objection(p, limits, h, entries, expandedBytes)
    ensures error.None? ==> NameOf(p, h).Some? && entry == ViewOf(p, h)
  {
    entry := Entry("", 0, 0, 0);
    if h.name == [] || h.flags % 2 != 0 || (h.compression != 0 && h.compression != 8) || h.disk != 0 {
      return Some(Unsafe), entry;
    }
    var safe := NameOf(p, h);
    if safe.None? {
      return Some(Unsafe), entry;
    }
    var name := safe.value;
    if name != [] && name[|name| - 1] == '/' {
      return Some(Unsafe), entry;
    }
    if Special(h) {
      return Some(Unsafe), entry;
    }
    if name in names || p.collisionKey(name) in collisionKeys {
      var e :| e in entries && (e.name == name || p.collisionKey(e.name) == p.collisionKey(name));
      return Some(Unsafe), entry;
    }
    if h.expandedSize > limits.maximumSingleEntryBytes {
      return Some(LimitExceeded), entry;
    }
    if h.expandedSize > limits.maximumCompressionRatio * (if h.compressedSize == 0 then 1 else h.compressedSize) {
      return Some(LimitExceeded), entry;
    }
    if expandedBytes + h.expandedSize > limits.maximumExpandedBytes {
      return Some(LimitExceeded), entry;
    }
    return None, Entry(name, h.compressedSize, h.expandedSize, h.crc32);
  }

  // ----- What is accepted -----

  function Place(start: nat, headers: seq<Header>, n: nat): nat
    requires n <= |headers|
  {
    if n == 0 then start else Place(start, headers, n - 1) + Size(headers[n - 1])
  }

  /** The headers lie one after another from `start`, without gap or overlap, and end at `stop`. */
  predicate Tile(data: Bytes, headers: seq<Header>, start: nat, stop: nat) {
    && Place(start, headers, |headers|) == stop
    && forall i :: 0 <= i < |headers| ==>
          Present(data, Place(start, headers, i)) && HeaderAt(data, Place(start, headers, i)) == headers[i]
  }

  function Expanded(headers: seq<Header>, n: nat): nat
    requires n <= |headers|
  {
    if n == 0 then 0 else Expanded(headers, n - 1) + headers[n - 1].expandedSize
  }

  /** One entry is admissible by itself. */
  predicate Sound(p: Platform, limits: Limits, h: Header) {
    && h.name != [] && h.flags % 2 == 0 && (h.compression == 0 || h.compression == 8) && h.disk == 0 && !Special(h)
    && NameOf(p, h).Some? && (NameOf(p, h).value != [] ==> NameOf(p, h).value[|NameOf(p, h).value| - 1] != '/')
    && h.expandedSize <= limits.maximumSingleEntryBytes
    && h.expandedSize <= limits.maximumCompressionRatio * (if h.compressedSize == 0 then 1 else h.compressedSize)
  }

  /** A list the reader may accept: sound entries with distinct collision keys, whose sizes sum within the limit. */
  predicate Legal(p: Platform, limits: Limits, headers: seq<Header>) {
    && (forall i :: 0 <= i < |headers| ==> Sound(p, limits, headers[i]))
    && (forall i, j :: 0 <= i < j < |headers| ==> KeyOf(p, headers[i]) != KeyOf(p, headers[j]))
    && Expanded(headers, |headers|) <= limits.maximumExpandedBytes
  }

  function KeyOf(p: Platform, h: Header): Option<string> {
    if NameOf(p, h).Some? then Some(p.collisionKey(NameOf(p, h).value)) else None
  }

  function Views(p: Platform, headers: seq<Header>, n: nat): (entries: seq<Entry>)
    requires n <= |headers|
    ensures |entries| == n && forall i :: 0 <= i < n ==> entries[i] == ViewOf(p, headers[i])
  {
    if n == 0 then [] else Views(p, headers, n - 1) + [ViewOf(p, headers[n - 1])]
  }

  lemma {:induction false} ExpandedGrows(headers: seq<Header>, k: nat, n: nat)
    requires k <= n <= |headers|
    ensures Expanded(headers, k) <= Expanded(headers, n)
  {
    if k < n {
      ExpandedGrows(headers, k, n - 1);
    }
  }

  /** Reading on after `k` entries of a legal list that tiles the directory gives the list. */
  lemma {:induction false} WalkReadsLegal(p: Platform, limits: Limits, data: Bytes, headers: seq<Header>, k: nat,
                                          start: nat, stop: nat)
    requires Legal(p, limits, headers) && Tile(data, headers, start, stop) && k <= |headers|
    ensures Walk(p, limits, data, |headers| - k, Place(start, headers, k), stop, Views(p, headers, k),
                 Expanded(headers, k))
      == Ok(Archive(Views(p, headers, |headers|), Expanded(headers, |headers|)))
    decreases |headers| - k
  {
    hide Objection, HeaderAt, Present, Tile, ViewOf, Legal, Walk, Size, Views, Expanded, Place;
    OneMore(p, data, headers, k, start, stop);
    if k < |headers| {
      WalkReadsLegal(p, limits, data, headers, k + 1, start, stop);
      NoObjection(p, limits, headers, k);
      WalkStep(p, limits, data, |headers| - k, Place(start, headers, k), stop, Views(p, headers, k),
               Expanded(headers, k));
    } else {
      WalkEnd(p, limits, data, Place(start, headers, k), stop, Views(p, headers, k), Expanded(headers, k));
    }
  }

  lemma OneMore(p: Platform, data: Bytes, headers: seq<Header>, k: nat, start: nat, stop: nat)
    requires k <= |headers| && Tile(data, headers, start, stop)
    ensures k == |headers| ==> Place(start, headers, k) == stop
    ensures k < |headers| ==>
      && Present(data, Place(start, headers, k)) && HeaderAt(data, Place(start, headers, k)) == headers[k]
      && Place(start, headers, k + 1) == Place(start, headers, k) + Size(headers[k])
      && Views(p, headers, k + 1) == Views(p, headers, k) + [ViewOf(p, headers[k])]
      && Expanded(headers, k + 1) == Expanded(headers, k) + headers[k].expandedSize
  {
    hide HeaderAt, Present, ViewOf, Size;
  }

  lemma NoObjection(p: Platform, limits: Limits, headers: seq<Header>, k: nat)
    requires Legal(p, limits, headers) && k < |headers|
    ensures Objection(p, limits, headers[k], Views(p, headers, k), Expanded(headers, k)).None?
  {
    ExpandedGrows(headers, k + 1, |headers|);
    assert Sound(p, limits, headers[k]);
    NoCollision(p, limits, headers, k);
    hide Legal, Collides, NameOf, Special, Views;
  }

  lemma NoCollision(p: Platform, limits: Limits, headers: seq<Header>, k: nat)
    requires Legal(p, limits, headers) && k < |headers|
    ensures NameOf(p, headers[k]).Some? ==> !Collides(p, Views(p, headers, k), NameOf(p, headers[k]).value)
  {
    hide NameOf;
    var views := Views(p, headers, k);
    forall i | 0 <= i < k ensures KeyOf(p, headers[i]) != KeyOf(p, headers[k]) && NameOf(p, headers[i]).Some? {
      assert Sound(p, limits, headers[i]);
    }
  }

  /** What was read is a legal list that tiles the directory. */
  lemma {:induction false} WalkAcceptsLegal(p: Platform, limits: Limits, data: Bytes, headers: seq<Header>, count: nat,
                                            start: nat, stop: nat)
    returns (all: seq<Header>)
    requires Legal(p, limits, headers)
    requires Tile(data, headers, start, Place(start, headers, |headers|))
    requires Walk(p, limits, data, count, Place(start, headers, |headers|), stop, Views(p, headers, |headers|),
                  Expanded(headers, |headers|)).Ok?
    ensures |all| == |headers| + count && Legal(p, limits, all) && Tile(data, all, start, stop)
    decreases count
  {
    hide Objection, HeaderAt, Present, Legal, Tile, ViewOf;
    all := headers;
    if count > 0 {
      var cursor := Place(start, headers, |headers|);
      var h := HeaderAt(data, cursor);
      TileAppend(data, headers, h, start);
      LegalAppend(p, limits, headers, h);
      ViewsAppend(p, headers, h, |headers|);
      all := WalkAcceptsLegal(p, limits, data, headers + [h], count - 1, start, stop);
    }
  }

  lemma {:induction false} ViewsAppend(p: Platform, headers: seq<Header>, h: Header, n: nat)
    requires n <= |headers|
    ensures Views(p, headers + [h], n) == Views(p, headers, n) && Expanded(headers + [h], n) == Expanded(headers, n)
    ensures n == |headers| ==> Views(p, headers + [h], n + 1) == Views(p, headers, n) + [ViewOf(p, h)]
    ensures n == |headers| ==> Expanded(headers + [h], n + 1) == Expanded(headers, n) + h.expandedSize
  {
    hide ViewOf;
    if n > 0 {
      ViewsAppend(p, headers, h, n - 1);
    }
  }

  lemma {:induction false} PlaceAppend(start: nat, headers: seq<Header>, h: Header, n: nat)
    requires n <= |headers|
    ensures Place(start, headers + [h], n) == Place(start, headers, n)
    ensures n == |headers| ==> Place(start, headers + [h], n + 1) == Place(start, headers, n) + Size(h)
  {
    if n > 0 {
      PlaceAppend(start, headers, h, n - 1);
    }
  }

  lemma TileAppend(data: Bytes, headers: seq<Header>, h: Header, start: nat)
    requires Tile(data, headers, start, Place(start, headers, |headers|))
    requires Present(data, Place(start, headers, |headers|)) && HeaderAt(data, Place(start, headers, |headers|)) == h
    ensures Tile(data, headers + [h], start, Place(start, headers, |headers|) + Size(h))
    ensures Place(start, headers + [h], |headers| + 1) == Place(start, headers, |headers|) + Size(h)
  {
    hide HeaderAt, Present, Place, Size;
    var more := headers + [h];
    PlaceAppend(start, headers, h, |headers|);
    forall i | 0 <= i < |more| ensures Present(data, Place(start, more, i))
      && HeaderAt(data, Place(start, more, i)) == more[i] {
      PlaceAppend(start, headers, h, i);
    }
  }

  lemma LegalAppend(p: Platform, limits: Limits, headers: seq<Header>, h: Header)
    requires Legal(p, limits, headers)
    requires Objection(p, limits, h, Views(p, headers, |headers|), Expanded(headers, |headers|)).None?
    ensures Legal(p, limits, headers + [h])
  {
    var more := headers + [h];
    var views := Views(p, headers, |headers|);
    ViewsAppend(p, headers, h, |headers|);
    assert Sound(p, limits, h);
    forall i | 0 <= i < |headers| ensures KeyOf(p, headers[i]) != KeyOf(p, h) {
      assert Sound(p, limits, headers[i]);
      assert views[i].name == NameOf(p, headers[i]).value;
    }
    forall i | 0 <= i < |more| ensures Sound(p, limits, more[i]) {
      assert i < |headers| ==> Sound(p, limits, headers[i]);
    }
  }

  /** The name of an entry as it is written: in ASCII unless the UTF-8 flag, bit 11, is set, and then decoded and
      normalized. */
  predicate Named(p: Platform, h: Header, name: string) {
    && (|h.name| > 0 && h.flags / 2048 % 2 != 1 ==> forall b :: b in h.name ==> b as int < 128)
    && p.utf8(h.name).Some? && p.normalize(p.utf8(h.name).value) == Some(name)
  }

  lemma NameExactly(p: Platform, h: Header, name: string)
    ensures NameOf(p, h) == Some(name) <==> Named(p, h, name)
  {
    if i: nat :| i < |h.name| && h.name[i] > 0x7f {
      assert h.name[i] in h.name;
    }
  }

  /** A file by the attributes of its host: on Unix, a regular one or one of no stated type. */
  predicate PlainFile(h: Header) {
    h.madeBy / 256 == 3 ==> h.external / 0x1000_0000 == 0 || h.external / 0x1000_0000 == 8
  }

  /** What makes an entry unsafe, whatever its size. */
  ghost predicate WellFormed(p: Platform, h: Header, entries: seq<Entry>) {
    && |h.name| > 0 && h.flags % 2 == 0 && (h.compression == 0 || h.compression == 8) && h.disk == 0 && PlainFile(h)
    && exists name :: Named(p, h, name) && !EndsInASlash(name)
         && forall e :: e in entries ==> e.name != name && p.collisionKey(e.name) != p.collisionKey(name)
  }

  predicate EndsInASlash(name: string) {
    name != [] && name[|name| - 1] == '/'
  }

  /** An entry is refused as unsafe exactly when it is not well formed or its name is taken, and as too large exactly
      when it is, by itself, by its compression or with the entries before it. */
  lemma RefusedExactly(p: Platform, limits: Limits, h: Header, entries: seq<Entry>, expandedBytes: nat)
    ensures var objection := Objection(p, limits, h, entries, expandedBytes);
            var ratio := if h.compressedSize == 0 then h.expandedSize as real
                         else h.expandedSize as real / h.compressedSize as real;
            && (objection == Some(Unsafe) <==> !WellFormed(p, h, entries))
            && (objection == None <==>
                  && WellFormed(p, h, entries) && h.expandedSize <= limits.maximumSingleEntryBytes
                  && ratio <= limits.maximumCompressionRatio as real
                  && expandedBytes + h.expandedSize <= limits.maximumExpandedBytes)
  {
    forall name ensures NameOf(p, h) == Some(name) <==> Named(p, h, name) {
      NameExactly(p, h, name);
    }
    RatioExactly(h.expandedSize, h.compressedSize, limits.maximumCompressionRatio);
    hide NameOf, Named;
    if NameOf(p, h).Some? {
      assert Named(p, h, NameOf(p, h).value);
    }
  }

  lemma RatioExactly(size: nat, compressed: nat, maximum: nat)
    ensures size > maximum * (if compressed == 0 then 1 else compressed)
       <==> (if compressed == 0 then size as real else size as real / compressed as real) > maximum as real
  {
    if compressed > 0 {
      var c, m := compressed as real, maximum as real;
      var ratio := size as real / c;
      assert ratio * c == size as real;
      assert (maximum * compressed) as real == m * c;
      SameSign(ratio - m, c);
      assert (ratio - m) * c == ratio * c - m * c;
    }
  }

  lemma SameSign(x: real, c: real)
    requires c > 0.0
    ensures x * c > 0.0 <==> x > 0.0
  {
  }

  /** The end record at `end` announces `count` entries from `start` to `stop`, on one disk, within the limits. */
  predicate Announces(limits: Limits, data: Bytes, end: nat, count: nat, start: nat, stop: nat)
    requires end + 22 <= |data|
  {
    && Read16(data, end + 4) == 0 && Read16(data, end + 6) == 0
    && Read16(data, end + 10) == count && Read32(data, end + 16) == start && start + Read32(data, end + 12) == stop
    && 0 < count < 0xffff && count <= limits.maximumEntries && stop - start != 0xffffffff && start != 0xffffffff
         && stop <= end
  }

  /** The reader accepts an input exactly when its last end record in reach announces a legal list of
      entries that tiles the central directory. */
  ghost predicate Acceptable(p: Platform, limits: Limits, data: Bytes, headers: seq<Header>, end: nat, start: nat,
                             stop: nat) {
    && |data| <= limits.maximumArchiveBytes && end + 22 <= |data| && FindEnd(data) == Some(end)
    && Announces(limits, data, end, |headers|, start, stop) && Legal(p, limits, headers)
         && Tile(data, headers, start, stop)
  }

  lemma AcceptableIsAccepted(p: Platform, limits: Limits, data: Bytes, headers: seq<Header>, end: nat, start: nat,
                             stop: nat)
    requires Acceptable(p, limits, data, headers, end, start, stop)
    ensures Inspect(p, limits, data) == Ok(Archive(Views(p, headers, |headers|), Expanded(headers, |headers|)))
  {
    hide Inspect, Walk, FindEnd, Legal, Tile, Read16, Read32;
    WalkReadsLegal(p, limits, data, headers, 0, start, stop);
    InspectReads(p, limits, data, end);
  }

  lemma InspectWalks(p: Platform, limits: Limits, data: Bytes)
    requires Inspect(p, limits, data).Ok?
    ensures |data| <= limits.maximumArchiveBytes && FindEnd(data).Some? && FindEnd(data).value + 22 <= |data|
    ensures var end := FindEnd(data).value;
            var count, start, stop := Read16(data, end + 10), Read32(data, end + 16),
            Read32(data, end + 16) + Read32(data, end + 12);
            && Announces(limits, data, end, count, start, stop)
            && Inspect(p, limits, data) == Walk(p, limits, data, count, start, stop, [], 0)
  {
    hide Walk, FindEnd, Read16, Read32;
    EndInReach(data);
  }

  lemma AcceptedIsAcceptable(p: Platform, limits: Limits, data: Bytes) returns (headers: seq<Header>, end: nat,
      start: nat, stop: nat)
    requires Inspect(p, limits, data).Ok?
    ensures Acceptable(p, limits, data, headers, end, start, stop)
    ensures Inspect(p, limits, data) == Ok(Archive(Views(p, headers, |headers|), Expanded(headers, |headers|)))
  {
    hide Inspect, Walk, FindEnd, Announces, Read16, Read32;
    InspectWalks(p, limits, data);
    end := FindEnd(data).value;
    start := Read32(data, end + 16);
    stop := start + Read32(data, end + 12);
    headers := WalkAcceptsLegal(p, limits, data, [], Read16(data, end + 10), start, stop);
    AcceptableIsAccepted(p, limits, data, headers, end, start, stop);
  }
}

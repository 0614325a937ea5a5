/** The byte encoding of a ZIP central directory (PKWARE APPNOTE sections 4.3.12 and 4.3.16), and the reader
    that inverts it (packages/persistence-sqlite/src/archive.ts:49-172). */
module ZipRoundTrip {
  import opened Octets
  import opened Options
  import opened Slices
  import opened ZipArchive

  predicate Encodable(h: Header) {
    && h.madeBy < WORD && h.needed < WORD && h.flags < WORD && h.compression < WORD && h.time < WORD && h.date < WORD
    && h.crc32 < DWORD && h.compressedSize < DWORD && h.expandedSize < DWORD && h.disk < WORD && h.internal < WORD
    && h.external < DWORD && h.localOffset < DWORD && |h.name| < WORD && |h.extra| < WORD && |h.comment| < WORD
  }

  /** Bytes 0 to 15: signature, versions, flags, compression, time and date. */
  function Head(h: Header): (b: Bytes)
    requires Encodable(h)
    ensures |b| == 16
  {
    LE32(ENTRY_SIGNATURE) + LE16(h.madeBy) + LE16(h.needed) + LE16(h.flags) + LE16(h.compression)
      + LE16(h.time) + LE16(h.date)
  }

  /** Bytes 16 to 33: checksum, sizes, and the lengths of name, extra field and comment. */
  function Middle(h: Header): (b: Bytes)
    requires Encodable(h)
    ensures |b| == 18
  {
    LE32(h.crc32) + LE32(h.compressedSize) + LE32(h.expandedSize) + LE16(|h.name|) + LE16(|h.extra|) + LE16(|h.comment|)
  }

  /** Bytes 34 to 45: disk, attributes and the offset of the local header. */
  function Tail(h: Header): (b: Bytes)
    requires Encodable(h)
    ensures |b| == 12
  {
    LE16(h.disk) + LE16(h.internal) + LE32(h.external) + LE32(h.localOffset)
  }

  function Encode(h: Header): (b: Bytes)
    requires Encodable(h)
    ensures |b| == Size(h)
  {
    Head(h) + Middle(h) + Tail(h) + h.name + h.extra + h.comment
  }

  function Directory(headers: seq<Header>, n: nat): Bytes
    requires n <= |headers| && forall i :: 0 <= i < |headers| ==> Encodable(headers[i])
  {
    if n == 0 then [] else Directory(headers, n - 1) + Encode(headers[n - 1])
  }

  function EndRecord(count: nat, size: nat, offset: nat, commentLength: nat): (b: Bytes)
    requires count < WORD && size < DWORD && offset < DWORD && commentLength < WORD
    ensures |b| == 22
  {
    LE32(END_SIGNATURE) + LE16(0) + LE16(0) + LE16(count) + LE16(count)
      + LE32(size) + LE32(offset) + LE16(commentLength)
  }

  /** Local headers and data come first, as any bytes; then the directory and its end record. */
  function Write(prefix: Bytes, headers: seq<Header>, comment: Bytes): Bytes
    requires forall i :: 0 <= i < |headers| ==> Encodable(headers[i])
    requires |headers| < WORD && |Directory(headers, |headers|)| < DWORD && |prefix| < DWORD && |comment| < WORD
  {
    prefix + Directory(headers, |headers|) + EndRecord(|headers|, |Directory(headers, |headers|)|, |prefix|,
                                                       |comment|) + comment
  }

  // ----- Reading what was written -----

  lemma ReadThere(data: Bytes, c: nat, b: Bytes, o: nat)
    requires LiesAt(data, c, b)
    ensures o + 2 <= |b| ==> Read16(data, c + o) == Read16(b, o)
    ensures o + 4 <= |b| ==> Read32(data, c + o) == Read32(b, o)
  {
    ElementsThere(data, c, b);
  }

  lemma HeadReads(data: Bytes, c: nat, h: Header)
    requires Encodable(h) && LiesAt(data, c, Head(h))
    ensures Read32(data, c) == ENTRY_SIGNATURE && Read16(data, c + 4) == h.madeBy && Read16(data, c + 6) == h.needed
    ensures Read16(data, c + 8) == h.flags && Read16(data, c + 10) == h.compression && Read16(data, c + 12) == h.time
    ensures Read16(data, c + 14) == h.date
  {
    hide LE16, LE32, Read16, Read32;
    var s, a, b, d, e := LE32(ENTRY_SIGNATURE), LE16(h.madeBy), LE16(h.needed), LE16(h.flags), LE16(h.compression);
    var f, g := LE16(h.time), LE16(h.date);
    PartsLie(data, c, s + a + b + d + e + f, g);
    PartsLie(data, c, s + a + b + d + e, f);
    PartsLie(data, c, s + a + b + d, e);
    PartsLie(data, c, s + a + b, d);
    PartsLie(data, c, s + a, b);
    PartsLie(data, c, s, a);
    ReadThere(data, c, s, 0);
    ReadThere(data, c + 4, a, 0);
    ReadThere(data, c + 6, b, 0);
    ReadThere(data, c + 8, d, 0);
    ReadThere(data, c + 10, e, 0);
    ReadThere(data, c + 12, f, 0);
    ReadThere(data, c + 14, g, 0);
  }

  lemma MiddleReads(data: Bytes, c: nat, h: Header)
    requires Encodable(h) && LiesAt(data, c, Middle(h))
    ensures Read32(data, c) == h.crc32 && Read32(data, c + 4) == h.compressedSize
    ensures Read32(data, c + 8) == h.expandedSize
    ensures Read16(data, c + 12) == |h.name| && Read16(data, c + 14) == |h.extra| && Read16(data, c + 16) == |h.comment|
  {
    hide LE16, LE32, Read16, Read32;
    var a, b, d, e, f, g := LE32(h.crc32), LE32(h.compressedSize), LE32(h.expandedSize), LE16(|h.name|),
    LE16(|h.extra|), LE16(|h.comment|);
    PartsLie(data, c, a + b + d + e + f, g);
    PartsLie(data, c, a + b + d + e, f);
    PartsLie(data, c, a + b + d, e);
    PartsLie(data, c, a + b, d);
    PartsLie(data, c, a, b);
    ReadThere(data, c, a, 0);
    ReadThere(data, c + 4, b, 0);
    ReadThere(data, c + 8, d, 0);
    ReadThere(data, c + 12, e, 0);
    ReadThere(data, c + 14, f, 0);
    ReadThere(data, c + 16, g, 0);
  }

  lemma TailReads(data: Bytes, c: nat, h: Header)
    requires Encodable(h) && LiesAt(data, c, Tail(h))
    ensures Read16(data, c) == h.disk && Read16(data, c + 2) == h.internal && Read32(data, c + 4) == h.external
    ensures Read32(data, c + 8) == h.localOffset
  {
    hide LE16, LE32, Read16, Read32;
    var a, b, d, e := LE16(h.disk), LE16(h.internal), LE32(h.external), LE32(h.localOffset);
    PartsLie(data, c, a + b + d, e);
    PartsLie(data, c, a + b, d);
    PartsLie(data, c, a, b);
    ReadThere(data, c, a, 0);
    ReadThere(data, c + 2, b, 0);
    ReadThere(data, c + 4, d, 0);
    ReadThere(data, c + 8, e, 0);
  }

  /** A header is read back where it was written. */
  lemma HeaderReads(data: Bytes, c: nat, h: Header)
    requires Encodable(h) && LiesAt(data, c, Encode(h))
    ensures Present(data, c) && HeaderAt(data, c) == h
  {
    hide Head, Middle, Tail, Read16, Read32;
    var head, middle, tail := Head(h), Middle(h), Tail(h);
    PartsLie(data, c, head + middle + tail + h.name + h.extra, h.comment);
    PartsLie(data, c, head + middle + tail + h.name, h.extra);
    PartsLie(data, c, head + middle + tail, h.name);
    PartsLie(data, c, head + middle, tail);
    PartsLie(data, c, head, middle);
    HeadReads(data, c, h);
    MiddleReads(data, c + 16, h);
    TailReads(data, c + 34, h);
  }

  lemma {:induction false} DirectoryTiles(data: Bytes, headers: seq<Header>, n: nat, start: nat)
    requires n <= |headers| && forall i :: 0 <= i < |headers| ==> Encodable(headers[i])
    requires LiesAt(data, start, Directory(headers, n))
    ensures Place(start, headers, n) == start + |Directory(headers, n)|
    ensures forall i :: 0 <= i < n ==>
       Present(data, Place(start, headers, i)) && HeaderAt(data, Place(start, headers, i)) == headers[i]
  {
    hide Encode, Present, HeaderAt, Size;
    if n > 0 {
      PartsLie(data, start, Directory(headers, n - 1), Encode(headers[n - 1]));
      DirectoryTiles(data, headers, n - 1, start);
      HeaderReads(data, Place(start, headers, n - 1), headers[n - 1]);
    }
  }

  lemma EndReads(data: Bytes, c: nat, count: nat, size: nat, offset: nat, commentLength: nat)
    requires count < WORD && size < DWORD && offset < DWORD && commentLength < WORD
    requires LiesAt(data, c, EndRecord(count, size, offset, commentLength))
    ensures Read32(data, c) == END_SIGNATURE && Read16(data, c + 4) == 0 && Read16(data, c + 6) == 0
    ensures Read16(data, c + 10) == count && Read32(data, c + 12) == size && Read32(data, c + 16) == offset
  {
    hide LE16, LE32, Read16, Read32;
    var s, z, a, b, d, e := LE32(END_SIGNATURE), LE16(0), LE16(count), LE32(size), LE32(offset), LE16(commentLength);
    PartsLie(data, c, s + z + z + a + a + b + d, e);
    PartsLie(data, c, s + z + z + a + a + b, d);
    PartsLie(data, c, s + z + z + a + a, b);
    PartsLie(data, c, s + z + z + a, a);
    PartsLie(data, c, s + z + z, a);
    PartsLie(data, c, s + z, z);
    PartsLie(data, c, s, z);
    ReadThere(data, c, s, 0);
    ReadThere(data, c + 4, z, 0);
    ReadThere(data, c + 6, z, 0);
    ReadThere(data, c + 10, a, 0);
    ReadThere(data, c + 12, b, 0);
    ReadThere(data, c + 16, d, 0);
  }

  /** The end record is found when nothing in the comment reads as another. */
  lemma EndFound(data: Bytes, end: nat)
    requires end + 22 <= |data| <= end + 65557 && Read32(data, end) == END_SIGNATURE
    requires forall i :: end < i && i + 22 <= |data| ==> Read32(data, i) != END_SIGNATURE
    ensures FindEnd(data) == Some(end)
  {
    hide Read32;
    FindIsEnd(data, |data| - 22, if |data| > 65557 then |data| - 65557 else 0);
  }

  /** What a writer may be given: headers that fit their fields, and an archive the limits admit. */
  predicate Writable(limits: Limits, prefix: Bytes, headers: seq<Header>, comment: Bytes) {
    && (forall i :: 0 <= i < |headers| ==> Encodable(headers[i]))
    && 0 < |headers| < 0xffff && |headers| <= limits.maximumEntries
    && |Directory(headers, |headers|)| < 0xffffffff && |prefix| < 0xffffffff && |comment| < WORD
    && |Write(prefix, headers, comment)| <= limits.maximumArchiveBytes
  }

  /** Where the directory of a written archive ends. */
  function DirectoryEnd(prefix: Bytes, headers: seq<Header>): nat
    requires forall i :: 0 <= i < |headers| ==> Encodable(headers[i])
  {
    |prefix| + |Directory(headers, |headers|)|
  }

  lemma WrittenParts(limits: Limits, prefix: Bytes, headers: seq<Header>, comment: Bytes)
    requires Writable(limits, prefix, headers, comment)
    ensures var data, end := Write(prefix, headers, comment), DirectoryEnd(prefix, headers);
            && LiesAt(data, |prefix|, Directory(headers, |headers|))
            && LiesAt(data, end, EndRecord(|headers|, |Directory(headers, |headers|)|, |prefix|, |comment|))
            && |data| == end + 22 + |comment|
  {
    hide Directory, LiesAt;
    var directory := Directory(headers, |headers|);
    var record := EndRecord(|headers|, |directory|, |prefix|, |comment|);
    WholeLies(prefix + directory + record + comment);
    PartsLie(Write(prefix, headers, comment), 0, prefix + directory + record, comment);
    PartsLie(Write(prefix, headers, comment), 0, prefix + directory, record);
    PartsLie(Write(prefix, headers, comment), 0, prefix, directory);
  }

  lemma WholeLies(data: Bytes)
    ensures LiesAt(data, 0, data)
  {
  }

  /** A written archive is one whose last end record announces the list that tiles its directory. */
  lemma WrittenIsAcceptable(p: Platform, limits: Limits, prefix: Bytes, headers: seq<Header>, comment: Bytes)
    requires Writable(limits, prefix, headers, comment) && Legal(p, limits, headers)
    requires var data := Write(prefix, headers, comment);
             forall i: nat :: |data| - 22 - |comment| < i && i + 22 <= |data| ==> Read32(data, i) != END_SIGNATURE
    ensures var end := DirectoryEnd(prefix, headers);
            Acceptable(p, limits, Write(prefix, headers, comment), headers, end, |prefix|, end)
  {
    hide Legal, Read16, Read32, EndRecord, FindEnd, Present, HeaderAt, Directory, LiesAt, Write;
    var data, end := Write(prefix, headers, comment), DirectoryEnd(prefix, headers);
    WrittenParts(limits, prefix, headers, comment);
    DirectoryTiles(data, headers, |headers|, |prefix|);
    EndReads(data, end, |headers|, |Directory(headers, |headers|)|, |prefix|, |comment|);
    EndFound(data, end);
  }

  /** The reader returns the list that was written: for every legal list of entries, any bytes before the
      directory, and any archive comment in which no end record can be read (the empty one, in particular). */
  lemma ReaderInvertsWriter(p: Platform, limits: Limits, prefix: Bytes, headers: seq<Header>, comment: Bytes)
    requires Writable(limits, prefix, headers, comment) && Legal(p, limits, headers)
    requires var data := Write(prefix, headers, comment);
             forall i: nat :: |data| - 22 - |comment| < i && i + 22 <= |data| ==> Read32(data, i) != END_SIGNATURE
    ensures Inspect(p, limits, Write(prefix, headers, comment))
      == Ok(Archive(Views(p, headers, |headers|), Expanded(headers, |headers|)))
  {
    hide Acceptable, Legal, Read32, Write, Directory, Inspect;
    WrittenIsAcceptable(p, limits, prefix, headers, comment);
    var end := DirectoryEnd(prefix, headers);
    AcceptableIsAccepted(p, limits, Write(prefix, headers, comment), headers, end, |prefix|, end);
  }
}

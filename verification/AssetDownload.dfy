/** Resumable asset download (packages/application-service/src/asset-downloader.ts:135-352,
    packages/archive-core/src/assets.ts:199-236, packages/persistence-sqlite/src/asset-files.ts:106-141): the
    downloader as a machine over its durable row and its partial files, step by step, with a crash possible between
    any two steps, and as the code that makes these steps. Nothing is assumed of the server or of the claims. */
module AssetDownload {
  import opened Octets
  import opened Options

  type Validator = string

  // ----- Responses -----

  /** A Content-Range field value (section 14.4 of RFC 9110). */
  datatype ContentRange = ContentRange(start: nat, end: nat, total: Option<nat>)

  datatype Response = Response(
    status: int,
    validator: Option<Validator>,
    contentRange: Option<ContentRange>,
    contentLength: Option<nat>,
    body: seq<Bytes>,
    broken: bool)                       // whether the stream fails after the last chunk

  function Flatten(chunks: seq<Bytes>, n: nat): Bytes
    requires n <= |chunks|
  {
    if n == 0 then [] else Flatten(chunks, n - 1) + chunks[n - 1]
  }

  predicate Redirects(r: Response) {
    r.status == 301 || r.status == 302 || r.status == 303 || r.status == 307 || r.status == 308
  }

  datatype Failure =
    | NetworkFailed | RangeInvalid | ValidatorChanged | MaximumSizeExceeded | SizeMismatch
    | RedirectLimit | RedirectBlocked | StorageRefused | NotFound

  /** What the response headers make the loop do: fail, truncate and ask again, or write from an offset. */
  datatype Plan =
    | Fail(failure: Failure)
    | Again
    | Write(offset: nat, expected: Option<nat>, validator: Option<Validator>, restarted: bool)

  function OrElse<T>(a: Option<T>, b: Option<T>): Option<T> {
    if a.Some? then a else b
  }

  /** Lines 264-315. */
  function Decide(offset: nat, validator: Option<Validator>, expected: Option<nat>, restarted: bool, maximumBytes: nat,
                  r: Response): Plan {
    if r.status == 416 then
      if offset == 0 || restarted then Fail(RangeInvalid) else Again
    else if r.status < 200 || r.status >= 300 then Fail(NetworkFailed)
    else if offset > 0 && r.status == 206 then
      if r.contentRange.None? || r.contentRange.value.start != offset then Fail(RangeInvalid)
      else if validator.Some? && r.validator.Some? && validator != r.validator then
        if restarted then Fail(ValidatorChanged) else Again
      else Bounded(offset, OrElse(r.contentRange.value.total, expected), validator, restarted, maximumBytes, r)
    else if offset > 0 && r.status == 200 then
      if restarted then Fail(RangeInvalid) else Bounded(0, None, validator, true, maximumBytes, r)
    else if r.status == 206 then
      if r.contentRange.None? || r.contentRange.value.start != 0 then Fail(RangeInvalid)
      else Bounded(offset, r.contentRange.value.total, validator, restarted, maximumBytes, r)
    else Bounded(offset, expected, validator, restarted, maximumBytes, r)
  }

  /** Lines 309-315. */
  function Bounded(offset: nat, expected: Option<nat>, validator: Option<Validator>, restarted: bool, maximumBytes: nat,
                   r: Response): Plan {
    var total := if r.contentLength.Some? && (r.status != 206 || expected.None?)
                 then Some(offset + r.contentLength.value) else expected;
    if total.Some? && total.value > maximumBytes then Fail(MaximumSizeExceeded)
    else Write(offset, total, OrElse(r.validator, validator), restarted)
  }

  /** A full response to a range request empties the partial file before anything else is checked. */
  predicate StartsOver(offset: nat, restarted: bool, r: Response) {
    offset > 0 && r.status == 200 && !restarted
  }

  // ----- The decision to resume -----

  datatype Resume = Resume(offset: nat) | Restart | Discard | Complete | InputInvalid

  /** `decideAssetResume`. */
  function DecideResume(localBytes: nat, durableBytes: nat, expected: Option<nat>, rangeSupported: bool,
                        stored: Option<Validator>, remote: Option<Validator>,
                        storedSha: Option<string>, actualSha: Option<string>): Resume {
    if durableBytes > localBytes then InputInvalid
    else if expected.Some? && localBytes > expected.value then Discard
    else if expected == Some(durableBytes) && storedSha.Some? && actualSha == storedSha then Complete
    else if durableBytes == 0 then Restart
    else if !rangeSupported then Restart
    else if stored.None? || remote.None? || stored != remote then Restart
    else Resume(durableBytes)
  }

  /** The offset the downloader starts at (lines 195-212). */
  function InitialOffset(localBytes: nat, row: Row): nat {
    var durable := if localBytes < row.resumeOffset then 0 else row.resumeOffset;
    var local := if localBytes < row.resumeOffset then 0 else localBytes;
    match DecideResume(local, durable, row.expected, true, row.validator, row.validator, row.sha256, None)
    case Resume(offset) => offset
    case _ => 0
  }

  // ----- The three stores -----

  /** A partial file is named by the fencing generation in its path. */
  type Path = nat

  /** The durable row of the source. */
  datatype Row = Row(
    path: Option<Path>,
    resumeOffset: nat,
    validator: Option<Validator>,
    expected: Option<nat>,
    sha256: Option<string>)

  datatype Disk = Disk(files: map<Path, Bytes>, row: Row)

  // ----- The machine -----

  datatype Limits = Limits(maximumBytes: nat, checkpointInterval: nat)

  const MAX_REDIRECTS := 20

  /** How far the downloader has come. A body is written from `offset`; `k` of its chunks are written, and `done`
      bytes of the next one. */
  datatype Work =
    | Idle
    | Claimed(previous: Row)
    | Prepared
    | Asking(offset: nat, expected: Option<nat>, validator: Option<Validator>, restarted: bool, redirects: nat,
             checkpointAt: nat)
    | Writing(body: seq<Bytes>, broken: bool, offset: nat, k: nat, done: nat, expected: Option<nat>,
              validator: Option<Validator>, checkpointAt: nat)
    | Finished(bytes: Bytes)

  /** `current` is the version the server answered from last; the machine does not look at it. */
  datatype State = State(disk: Disk, current: nat, work: Work)

  const START := State(Disk(map[], Row(None, 0, None, None, None)), 0, Idle)

  datatype Act =
    | Claim(path: Path)
    | Cut(copied: nat)
    | Copy
    | Ready
    | Answer(version: nat, response: Response)
    | Piece(length: nat)
    | EndChunk
    | Finish
    | Leave

  predicate HasFile(disk: Disk) {
    disk.row.path.Some? && disk.row.path.value in disk.files
  }

  function FileOf(disk: Disk): Bytes
    requires HasFile(disk)
  {
    disk.files[disk.row.path.value]
  }

  function WithFile(disk: Disk, file: Bytes): Disk
    requires disk.row.path.Some?
  {
    disk.(files := disk.files[disk.row.path.value := file])
  }

  /** Whether a missing partial file is copied from the path the row had before. */
  predicate Copies(files: map<Path, Bytes>, previous: Row, p: Path) {
    p !in files && previous.path.Some? && previous.resumeOffset > 0 && previous.path.value in files
  }

  /** `preparePartial`: a missing file is copied or created empty. */
  function Prepare(disk: Disk, previous: Row): Disk
    requires disk.row.path.Some?
  {
    var p := disk.row.path.value;
    if p in disk.files then disk
    else WithFile(disk, if Copies(disk.files, previous, p) then disk.files[previous.path.value] else [])
  }

  function Saved(row: Row, written: nat, expected: Option<nat>, validator: Option<Validator>): Row {
    row.(resumeOffset := written, expected := expected, validator := validator)
  }

  /** The check before a chunk is written. */
  predicate Admits(limits: Limits, written: nat, chunk: Bytes, expected: Option<nat>) {
    written + |chunk| <= limits.maximumBytes && (expected.Some? ==> written + |chunk| <= expected.value)
  }

  predicate Due(limits: Limits, written: nat, checkpointAt: nat) {
    written >= checkpointAt + limits.checkpointInterval
  }

  /** What an answer makes of the file and of the work (lines 250-317). */
  function Answered(limits: Limits, s: State, r: Response): State
    requires s.work.Asking? && HasFile(s.disk)
  {
    var w := s.work;
    var file := FileOf(s.disk);
    if Redirects(r) then
      if w.redirects >= MAX_REDIRECTS then s.(work := Idle) else s.(work := w.(redirects := w.redirects + 1))
    else
      match Decide(w.offset, w.validator, w.expected, w.restarted, limits.maximumBytes, r)
      case Fail(_) =>
        s.(disk := if StartsOver(w.offset, w.restarted, r) then WithFile(s.disk, []) else s.disk, work := Idle)
      case Again => s.(disk := WithFile(s.disk, []), work := w.(offset := 0, restarted := true))
      case Write(from, expected, validator, _) =>
        s.(disk := WithFile(s.disk, if from <= |file| then file[..from] else file),
           work := Writing(r.body, r.broken, from, 0, 0, expected, validator, w.checkpointAt))
  }

  /** The bytes `done..done + n` of the current chunk reach the file. */
  predicate CanWrite(limits: Limits, s: State, n: nat) {
    && s.work.Writing? && HasFile(s.disk) && s.work.k < |s.work.body| && s.work.done + n <= |s.work.body[s.work.k]|
    && (s.work.done == 0 ==> Admits(limits, |FileOf(s.disk)|, s.work.body[s.work.k], s.work.expected))
  }

  function Checkpointed(limits: Limits, s: State): State
    requires s.work.Writing? && HasFile(s.disk)
  {
    var w := s.work;
    var written := |FileOf(s.disk)|;
    if Due(limits, written, w.checkpointAt)
    then
      s.(disk := s.disk.(row := Saved(s.disk.row, written, w.expected, w.validator)),
         work := w.(checkpointAt := written))
    else s
  }

  /** One step; a step that does not apply changes nothing. A claim ends whatever was going on; `Cut` is a crash
      in the middle of a copy, and `Leave` a crash, or an error, anywhere. */
  function Next(limits: Limits, s: State, a: Act): State {
    var w := s.work;
    match a
    case Claim(p) => s.(disk := s.disk.(row := s.disk.row.(path := Some(p))), work := Claimed(s.disk.row))
    case Cut(n) =>
      if w.Claimed? && s.disk.row.path.Some? && Copies(s.disk.files, w.previous, s.disk.row.path.value)
         && n <= |s.disk.files[w.previous.path.value]|
      then s.(disk := WithFile(s.disk, s.disk.files[w.previous.path.value][..n]), work := Idle)
      else s
    case Copy =>
      if w.Claimed? && s.disk.row.path.Some? then s.(disk := Prepare(s.disk, w.previous), work := Prepared) else s
    case Ready =>
      if w.Prepared? && HasFile(s.disk) then
        var file, row := FileOf(s.disk), s.disk.row;
        var offset := InitialOffset(|file|, row);
        s.(disk := if offset == 0 && |file| >= row.resumeOffset then WithFile(s.disk, []) else s.disk,
           work := Asking(offset, row.expected, row.validator, false, 0, offset))
      else s
    case Answer(version, r) =>
      if w.Asking? && HasFile(s.disk) then Answered(limits, s.(current := version), r) else s
    case Piece(n) =>
      if CanWrite(limits, s, n)
      then
        s.(disk := WithFile(s.disk, FileOf(s.disk) + w.body[w.k][w.done..w.done + n]),
           work := w.(done := w.done + n))
      else s
    case EndChunk =>
      if CanWrite(limits, s, 0) && w.done == |w.body[w.k]|
      then
        var saved := Checkpointed(limits, s);
        saved.(work := saved.work.(k := w.k + 1, done := 0))
      else s
    case Finish =>
      if w.Writing? && HasFile(s.disk) && w.k == |w.body| && !w.broken
         && (w.expected.Some? ==> w.expected.value == |FileOf(s.disk)|)
      then
        var file := FileOf(s.disk);
        s.(disk := s.disk.(row := Saved(s.disk.row, |file|, w.expected, w.validator)),
           work := if |file| <= limits.maximumBytes then Finished(file) else Idle)
      else s
    case Leave => s.(work := Idle)
  }

  /** The state after a run. */
  function After(limits: Limits, s: State, acts: seq<Act>): State {
    if acts == [] then s else Next(limits, After(limits, s, acts[..|acts| - 1]), acts[|acts| - 1])
  }

  lemma AfterAppend(limits: Limits, s: State, acts: seq<Act>, a: Act)
    ensures After(limits, s, acts + [a]) == Next(limits, After(limits, s, acts), a)
  {
    assert (acts + [a])[..|acts|] == acts;
  }

  /** The claims of a run, and the answers in it. */
  function Claims(acts: seq<Act>): seq<Path> {
    if acts == [] then []
    else
      var a := acts[|acts| - 1];
      Claims(acts[..|acts| - 1]) + (if a.Claim? then [a.path] else [])
  }

  /** The server's answers, each with the version it answers from. */
  datatype Exchange = Exchange(version: nat, response: Response)

  function Answers(acts: seq<Act>): seq<Exchange> {
    if acts == [] then []
    else
      var a := acts[|acts| - 1];
      Answers(acts[..|acts| - 1]) + (if a.Answer? then [Exchange(a.version, a.response)] else [])
  }

  lemma TracksAppend(acts: seq<Act>, a: Act)
    ensures Claims(acts + [a]) == Claims(acts) + (if a.Claim? then [a.path] else [])
    ensures Answers(acts + [a]) == Answers(acts) + (if a.Answer? then [Exchange(a.version, a.response)] else [])
  {
    assert (acts + [a])[..|acts|] == acts;
  }

  /** Somewhere in the run, a partial file with these bytes is ready to be hashed. */
  ghost predicate Hashes(limits: Limits, acts: seq<Act>, bytes: Bytes) {
    exists k :: 0 <= k <= |acts| && After(limits, START, acts[..k]).work == Finished(bytes)
  }

  lemma HashesLater(limits: Limits, acts: seq<Act>, more: seq<Act>, bytes: Bytes)
    requires Hashes(limits, acts, bytes) && acts <= more
    ensures Hashes(limits, more, bytes)
  {
    hide After;
    var k :| 0 <= k <= |acts| && After(limits, START, acts[..k]).work == Finished(bytes);
    assert more[..k] == acts[..k];
  }

  predicate SeenParts(scripts: seq<seq<Exchange>>, seen: seq<nat>) {
    |seen| <= |scripts| && forall i :: 0 <= i < |seen| ==> seen[i] <= |scripts[i]|
  }

  /** What is heard of scripts, a part of each. */
  function Heard(scripts: seq<seq<Exchange>>, seen: seq<nat>): seq<Exchange>
    requires SeenParts(scripts, seen)
  {
    if seen == [] then []
    else
      var n := |seen| - 1;
      Heard(scripts, seen[..n]) + scripts[n][..seen[n]]
  }

  lemma HeardAppend(scripts: seq<seq<Exchange>>, seen: seq<nat>, n: nat)
    requires SeenParts(scripts, seen) && |seen| < |scripts| && n <= |scripts[|seen|]|
    ensures SeenParts(scripts, seen + [n])
    ensures Heard(scripts, seen + [n]) == Heard(scripts, seen) + scripts[|seen|][..n]
  {
    assert (seen + [n])[..|seen|] == seen;
  }

  // ----- The downloader -----

  datatype End = Crashed | Stopped(failure: Failure) | Hashed(bytes: Bytes)

  function Overwrite(file: Bytes, position: nat, bytes: Bytes): Bytes
    requires position <= |file|
  {
    file[..position] + bytes + (if position + |bytes| <= |file| then file[position + |bytes|..] else [])
  }

  /** What goes wrong as a body is written with `written` bytes in the file, from chunk `k` on, if nothing else does. */
  function BodyFailure(limits: Limits, written: nat, body: seq<Bytes>, k: nat, expected: Option<nat>,
                       broken: bool): Option<Failure>
    requires k <= |body|
    decreases |body| - k
  {
    if k == |body| then
      if broken then Some(NetworkFailed)
      else if expected.Some? && written != expected.value then Some(SizeMismatch) else None
    else if written + |body[k]| > limits.maximumBytes || (expected.Some? && written + |body[k]| > expected.value) then
      Some(SizeMismatch)
    else BodyFailure(limits, written + |body[k]|, body, k + 1, expected, broken)
  }

  /** How an answer ends the attempt, if it does and nothing else goes wrong. */
  function Verdict(limits: Limits, s: State, r: Response): Option<End>
    requires s.work.Asking? && HasFile(s.disk)
  {
    var w, file := s.work, FileOf(s.disk);
    match Decide(w.offset, w.validator, w.expected, w.restarted, limits.maximumBytes, r)
    case Fail(failure) => Some(Stopped(failure))
    case Again => None
    case Write(from, expected, _, _) =>
      var failure := BodyFailure(limits, from, r.body, 0, expected, r.broken);
      if failure.Some? then Some(Stopped(failure.value))
      else
        var bytes := (if from <= |file| then file[..from] else file) + Flatten(r.body, |r.body|);
        Some(if |bytes| > limits.maximumBytes then Stopped(MaximumSizeExceeded) else Hashed(bytes))
  }

  /** How an attempt ends, by the answers that the server has for it. */
  function Outcome(limits: Limits, s: State, script: seq<Exchange>): End
    requires s.work.Asking? && HasFile(s.disk)
    decreases |script|
  {
    if script == [] then Stopped(NetworkFailed)
    else
      var r := script[0].response;
      var t := Next(limits, s, Answer(script[0].version, r));
      if Redirects(r) then
        if s.work.redirects >= MAX_REDIRECTS then Stopped(RedirectLimit) else Outcome(limits, t, script[1..])
      else
        var verdict := Verdict(limits, s, r);
        if verdict.Some? then verdict.value else Outcome(limits, t, script[1..])
  }

  /** The state in which an attempt makes its first request. */
  function Opened(limits: Limits, s: State, p: Path): State {
    Next(limits, Next(limits, Next(limits, s, Claim(p)), Copy), Ready)
  }

  class Download {
    const limits: Limits
    /** Whether nothing interrupts the process, and files, rows and requests do what they are asked. */
    const calm: bool
    var files: map<Path, Bytes>
    var row: Row
    /** The machine that the code follows, and the steps it has made. */
    ghost var current: nat
    ghost var work: Work
    ghost var acts: seq<Act>

    constructor (limits: Limits, calm: bool)
      ensures this.limits == limits && this.calm == calm && Valid() && acts == [] && Value() == START.disk
    {
      this.limits, this.calm := limits, calm;
      files, row := map[], Row(None, 0, None, None, None);
      current, work, acts := 0, Idle, [];
    }

    function Value(): Disk
      reads this
    {
      Disk(files, row)
    }

    ghost function Now(): State
      reads this
    {
      State(Value(), current, work)
    }

    /** The state is the one that the steps lead to. */
    ghost predicate Valid()
      reads this
    {
      Now() == After(limits, START, acts)
    }

    /** The code has made a step of the machine. */
    ghost method Did(before: State, a: Act)
      requires before == After(limits, START, acts) && Value() == Next(limits, before, a).disk
      modifies this`current, this`work, this`acts
      ensures Valid() && Now() == Next(limits, before, a) && acts == old(acts) + [a]
      ensures Claims(acts) == Claims(old(acts)) + (if a.Claim? then [a.path] else [])
      ensures Answers(acts) == Answers(old(acts)) + (if a.Answer? then [Exchange(a.version, a.response)] else [])
    {
      var after := Next(limits, before, a);
      AfterAppend(limits, START, acts, a);
      TracksAppend(acts, a);
      current, work, acts := after.current, after.work, acts + [a];
    }

    /** A crash, or an error that ends the attempt. */
    ghost method Quit()
      requires Valid()
      modifies this`current, this`work, this`acts
      ensures Valid() && Value() == old(Value()) && work == Idle && current == old(current)
      ensures Claims(acts) == Claims(old(acts)) && Answers(acts) == Answers(old(acts)) && old(acts) <= acts
    {
      Did(Now(), Leave);
    }

    /** Further steps since then, which make no claim and see no answer. */
    ghost predicate Continues(before: seq<Act>)
      reads this
    {
      Valid() && before <= acts && Claims(acts) == Claims(before) && Answers(acts) == Answers(before)
    }

    /** `writeChunk`: the file system takes the chunk in pieces, or stops taking it; the process may end
        between two pieces. Only a start of the chunk reaches the file, and all of it on success. */
    method WriteChunk(p: Path, chunk: Bytes, position: nat) returns (end: Option<End>, n: nat)
      requires Valid() && row.path == Some(p) && p in files && position == |files[p]|
      requires CanWrite(limits, Now(), 0) && work.done == 0 && work.body[work.k] == chunk
      modifies this`files, this`current, this`work, this`acts
      ensures Continues(old(acts)) && n <= |chunk| && files == old(files)[p := old(files)[p] + chunk[..n]]
      ensures end.None? ==> n == |chunk| && work == old(work).(done := n) && current == old(current)
      ensures end.Some? ==> !calm && !end.value.Hashed? && work == Idle
    {
      hide Next, After, Overwrite;
      n := 0;
      assert files[p] + chunk[..0] == files[p];
      while n < |chunk|
        invariant n <= |chunk| && Continues(old(acts)) && row == old(row) && current == old(current)
        invariant files == old(files)[p := old(files)[p] + chunk[..n]] && work == old(work).(done := n)
      {
        var crash: bool := *;
        if crash && !calm {
          Quit();
          return Some(Crashed), n;
        }
        var written: int := *;
        if calm && !(0 < written <= |chunk| - n) {
          written := |chunk| - n;
        }
        if written <= 0 || written > |chunk| - n {
          Quit();
          return Some(Stopped(NetworkFailed)), n;
        }
        ghost var before := Now();
        OverwriteAppends(files[p], chunk[n..n + written]);
        assert chunk[..n] + chunk[n..n + written] == chunk[..n + written];
        assert files[p] + chunk[n..n + written] == old(files)[p] + chunk[..n + written];
        files := files[p := Overwrite(files[p], position + n, chunk[n..n + written])];
        PieceStep(limits, before, written);
        Did(before, Piece(written));
        n := n + written;
      }
      return None, n;
    }

    /** `beginAssetDownload` and `preparePartial` (lines 192-195): the claim moves the row to the path of
        its generation, and a missing file is copied from the previous path or created empty. */
    method ClaimAndPrepare(generation: Path) returns (end: Option<End>)
      requires Valid()
      modifies this`files, this`row, this`current, this`work, this`acts
      ensures Valid() && old(acts) <= acts && Claims(acts) == Claims(old(acts)) + [generation]
      ensures Answers(acts) == Answers(old(acts))
      ensures end.None? ==> work == Prepared && row == old(row).(path := Some(generation)) && HasFile(Value())
      ensures end.None? ==> Now() == Next(limits, Next(limits, old(Now()), Claim(generation)), Copy)
      ensures end.Some? ==> !calm && !end.value.Hashed? && work == Idle
    {
      hide After, Prepare, Copies;
      var previous := row;
      ghost var before := Now();
      row := row.(path := Some(generation));
      Did(before, Claim(generation));
      var crash: bool := *;
      if crash && !calm {
        Quit();
        return Some(Crashed);
      }
      end := PreparePartial(generation, previous);
    }

    method PreparePartial(p: Path, previous: Row) returns (end: Option<End>)
      requires Valid() && work == Claimed(previous) && row.path == Some(p) && row == previous.(path := Some(p))
      modifies this`files, this`current, this`work, this`acts
      ensures Continues(old(acts))
      ensures end.None? ==> work == Prepared && HasFile(Value()) && Now() == Next(limits, old(Now()), Copy)
      ensures end.Some? ==> !calm && !end.value.Hashed? && work == Idle
    {
      hide After, Next;
      ghost var before := Now();
      if p !in files && previous.path.Some? && previous.resumeOffset > 0 && previous.path != Some(p) {
        if previous.path.value in files {
          var copied: int := *;
          var crash: bool := *;
          var source := files[previous.path.value];
          if crash && !calm && 0 <= copied <= |source| {
            files := files[p := source[..copied]];
            CutStep(limits, before, copied);
            Did(before, Cut(copied));
            return Some(Crashed);
          }
          files := files[p := source];
        }
      }
      if p !in files {
        files := files[p := []];
      }
      CopyStep(limits, before);
      Did(before, Copy);
      return None;
    }

    method Truncate(p: Path, length: nat)
      requires p in files && length <= |files[p]|
      modifies this`files
      ensures files == old(files)[p := old(files)[p][..length]]
    {
      files := files[p := files[p][..length]];
    }

    /** Lines 192-213: the claim, the partial file, and the offset the requests start from. */
    method Begin(generation: Path) returns (end: Option<End>, offset: nat)
      requires Valid()
      modifies this`files, this`row, this`current, this`work, this`acts
      ensures Valid() && old(acts) <= acts && Claims(acts) == Claims(old(acts)) + [generation]
      ensures Answers(acts) == Answers(old(acts))
      ensures end.None? ==> row.path == Some(generation) && generation in files && offset <= |files[generation]|
      ensures end.None? ==> work == Asking(offset, row.expected, row.validator, false, 0, offset)
      ensures end.None? ==> Now() == Opened(limits, old(Now()), generation)
      ensures end.Some? ==> !calm && !end.value.Hashed? && work == Idle
    {
      hide After, Prepare;
      offset := 0;
      end := ClaimAndPrepare(generation);
      if end.Some? {
        return;
      }
      ghost var before := Now();
      var localBytes := if |files[generation]| < row.resumeOffset then 0 else |files[generation]|;
      offset := InitialOffset(|files[generation]|, row);
      if offset == 0 && localBytes != 0 {
        Truncate(generation, 0);
      }
      assert |before.disk.files[generation]| == 0 ==> before.disk.files[generation] == [];
      Did(before, Ready);
    }

    /** `saveAssetProgress` (lines 327 and 338); the repository may refuse it. */
    method SaveProgress(written: nat, expected: Option<nat>, validator: Option<Validator>) returns (ok: bool)
      modifies this`row
      ensures row == if ok then Saved(old(row), written, expected, validator) else old(row)
      ensures calm ==> ok
    {
      var refused: bool := *;
      ok := calm || !refused;
      if ok {
        row := row.(resumeOffset := written, expected := expected, validator := validator);
      }
    }

    /** After a chunk, the progress is saved if it is due (lines 325-331). */
    method Checkpoint(p: Path, written: nat, expected: Option<nat>, validator: Option<Validator>, checkpointAt: nat)
      returns (end: Option<End>, next: nat)
      requires Valid() && row.path == Some(p) && p in files && written == |files[p]|
      requires CanWrite(limits, Now(), 0) && work.done == |work.body[work.k]|
      requires work.expected == expected && work.validator == validator && work.checkpointAt == checkpointAt
      modifies this`row, this`current, this`work, this`acts
      ensures Continues(old(acts)) && row.path == Some(p)
      ensures end.None? ==> work == old(work).(k := old(work).k + 1, done := 0, checkpointAt := next)
      ensures end.Some? ==> !calm && !end.value.Hashed? && work == Idle
    {
      hide After;
      next := checkpointAt;
      ghost var before := Now();
      if written >= checkpointAt + limits.checkpointInterval {
        var crash: bool := *;
        if crash && !calm {
          Quit();
          return Some(Crashed), next;
        }
        var saved := SaveProgress(written, expected, validator);
        if !saved {
          Quit();
          return Some(Stopped(StorageRefused)), next;
        }
        next := written;
      }
      Did(before, EndChunk);
      return None, next;
    }

    /** The write loop (lines 316-342), from the point where the file is cut to the offset. */
    method WriteBody(p: Path, offset: nat, r: Response, expected: Option<nat>, validator: Option<Validator>,
                     checkpointStart: nat) returns (end: Option<End>)
      requires Valid() && row.path == Some(p) && p in files && |files[p]| == offset
      requires work == Writing(r.body, r.broken, offset, 0, 0, expected, validator, checkpointStart)
      modifies this`files, this`row, this`current, this`work, this`acts
      ensures Continues(old(acts)) && row.path == Some(p) && p in files
      ensures end.None? ==> work == if |files[p]| <= limits.maximumBytes then Finished(files[p]) else Idle
      ensures end.None? ==> files[p] == old(files)[p] + Flatten(r.body, |r.body|)
      ensures end.Some? ==> !end.value.Hashed? && work == Idle
      ensures calm ==> end == Stopping(BodyFailure(limits, offset, r.body, 0, expected, r.broken))
    {
      hide After, Next;
      var written: nat := offset;
      var checkpointAt := checkpointStart;
      var k := 0;
      while k < |r.body|
        invariant k <= |r.body| && Continues(old(acts)) && row.path == Some(p) && p in files && written == |files[p]|
        invariant files[p] == old(files)[p] + Flatten(r.body, k)
        invariant BodyFailure(limits, written, r.body, k, expected, r.broken)
               == BodyFailure(limits, offset, r.body, 0, expected, r.broken)
        invariant work == Writing(r.body, r.broken, offset, k, 0, expected, validator, checkpointAt)
      {
        var chunk := r.body[k];
        if written + |chunk| > limits.maximumBytes || (expected.Some? && written + |chunk| > expected.value) {
          Quit();
          return Some(Stopped(SizeMismatch));
        }
        var n;
        end, n := WriteChunk(p, chunk, written);
        if end.Some? {
          return;
        }
        written := written + n;
        end, checkpointAt := Checkpoint(p, written, expected, validator, checkpointAt);
        if end.Some? {
          return;
        }
        k := k + 1;
      }
      end := EndBody(p, written, r.broken, expected, validator);
    }

    /** After the last chunk (lines 332-341). */
    method EndBody(p: Path, written: nat, broken: bool, expected: Option<nat>, validator: Option<Validator>)
      returns (end: Option<End>)
      requires Valid() && row.path == Some(p) && p in files && written == |files[p]|
      requires work.Writing? && work.k == |work.body| && work.broken == broken
      requires work.expected == expected && work.validator == validator
      modifies this`row, this`current, this`work, this`acts
      ensures Continues(old(acts)) && row.path == Some(p)
      ensures end.None? ==> work == if written <= limits.maximumBytes then Finished(files[p]) else Idle
      ensures end.Some? ==> !end.value.Hashed? && work == Idle
      ensures calm ==> end == Stopping(BodyFailure(limits, written, [], 0, expected, broken))
    {
      hide After, Next;
      if broken {
        Quit();
        return Some(Stopped(NetworkFailed));
      }
      if expected.Some? && written != expected.value {
        Quit();
        return Some(Stopped(SizeMismatch));
      }
      ghost var before := Now();
      var saved := SaveProgress(written, expected, validator);
      if !saved {
        Quit();
        return Some(Stopped(StorageRefused));
      }
      FinishStep(limits, before);
      Did(before, Finish);
      return None;
    }

    /** What an answer makes of the partial file: it is emptied, or cut to where the body is written from. */
    method CutFile(p: Path, offset: nat, restarted: bool, r: Response, plan: Plan)
      requires p in files && (plan.Write? ==> plan.offset <= |files[p]|)
      requires plan.Write? && StartsOver(offset, restarted, r) ==> plan.offset == 0
      modifies this`files
      ensures files == match plan
                       case Fail(_) => if StartsOver(offset, restarted, r) then old(files)[p := []] else old(files)
                       case Again => old(files)[p := []]
                       case Write(from, _, _, _) => old(files)[p := old(files)[p][..from]]
    {
      if StartsOver(offset, restarted, r) {
        Truncate(p, 0);
      }
      match plan {
        case Fail(_) =>
        case Again => Truncate(p, 0);
        case Write(from, _, _, _) => Truncate(p, from);
      }
    }

    /** What an answer that is no redirect leads to: the end of the attempt, or the same request from the start. */
    method Receive(p: Path, offset: nat, expected: Option<nat>, validator: Option<Validator>, restarted: bool,
                   ghost redirects: nat, checkpointAt: nat, ghost version: nat, r: Response) returns (end: Option<End>)
      requires Valid() && row.path == Some(p) && p in files && offset <= |files[p]| && !Redirects(r)
      requires work == Asking(offset, expected, validator, restarted, redirects, checkpointAt)
      modifies this`files, this`row, this`current, this`work, this`acts
      ensures Valid() && old(acts) <= acts && Claims(acts) == Claims(old(acts))
      ensures Answers(acts) == Answers(old(acts)) + [Exchange(version, r)]
      ensures end.None? ==> row.path == Some(p) && p in files
      ensures end.None? ==> work == Asking(0, expected, validator, true, redirects, checkpointAt)
      ensures var plan := Decide(offset, validator, expected, restarted, limits.maximumBytes, r);
              && (plan.Again? <==> end.None?)
              && (plan.Fail? ==> end == Some(Stopped(plan.failure)))
      ensures end.None? ==> Now() == Next(limits, old(Now()), Answer(version, r))
      ensures calm ==> end == Verdict(limits, old(Now()), r)
      ensures end.Some? ==> (if end.value.Hashed? then work == Finished(end.value.bytes) else work == Idle)
    {
      hide After, Next, Decide;
      ghost var before := Now();
      var plan := Decide(offset, validator, expected, restarted, limits.maximumBytes, r);
      PlanOffsets(offset, validator, expected, restarted, limits.maximumBytes, r);
      CutFile(p, offset, restarted, r, plan);
      AnswerStep(limits, before, version, r);
      Did(before, Answer(version, r));
      match plan {
        case Fail(failure) =>
          return Some(Stopped(failure));
        case Again =>
          return None;
        case Write(from, total, now, _) =>
          end := WriteBody(p, from, r, total, now, checkpointAt);
          if end.None? {
            end := Some(if |files[p]| > limits.maximumBytes then Stopped(MaximumSizeExceeded) else Hashed(files[p]));
          }
      }
    }

    /** `downloadAssetInternal` up to the hash (lines 192-352), as one attempt under a claim. The process
        may end between any two steps; authorization, budget, storage and file errors stop the attempt. */
    method Attempt(generation: Path, script: seq<Exchange>) returns (end: End, ghost seen: nat)
      requires Valid()
      modifies this`files, this`row, this`current, this`work, this`acts
      ensures Valid() && old(acts) <= acts && Claims(acts) == Claims(old(acts)) + [generation]
      ensures seen <= |script| && Answers(acts) == Answers(old(acts)) + script[..seen]
      ensures if end.Hashed? then work == Finished(end.bytes) else work == Idle
      ensures calm ==>
        && Opened(limits, old(Now()), generation).work.Asking? && HasFile(Opened(limits, old(Now()), generation).disk)
        && end == Outcome(limits, Opened(limits, old(Now()), generation), script)
    {
      hide After, Next, Answered, Opened;
      seen := 0;
      var beginEnd: Option<End>, offset: nat := Begin(generation);
      if beginEnd.Some? {
        return beginEnd.value, seen;
      }
      ghost var asking := Now();
      assert script[0..] == script;
      var expected, validator, restarted := row.expected, row.validator, false;
      var redirects: nat, next: nat, checkpointAt: nat := 0, 0, offset;
      while true
        invariant next == seen <= |script| && Valid() && old(acts) <= acts
        invariant Claims(acts) == Claims(old(acts)) + [generation]
        invariant Answers(acts) == Answers(old(acts)) + script[..seen]
        invariant row.path == Some(generation) && generation in files && offset <= |files[generation]|
        invariant work == Asking(offset, expected, validator, restarted, redirects, checkpointAt)
        invariant Outcome(limits, Now(), script[next..]) == Outcome(limits, asking, script)
        decreases |script| - next
      {
        var leaves: bool := *;
        if (leaves && !calm) || next == |script| {
          Quit();
          return Stopped(NetworkFailed), seen;
        }
        var r := script[next].response;
        ghost var version := script[next].version;
        assert script[..next + 1] == script[..next] + [Exchange(version, r)];
        assert script[next..][1..] == script[next + 1..];
        next, seen := next + 1, seen + 1;
        if Redirects(r) {
          ghost var before := Now();
          RedirectStep(limits, before, version, r);
          Did(before, Answer(version, r));
          if redirects >= MAX_REDIRECTS {
            return Stopped(RedirectLimit), seen;
          }
          redirects := redirects + 1;
        } else {
          var received := Receive(generation, offset, expected, validator, restarted, redirects, checkpointAt, version,
                                  r);
          if received.Some? {
            return received.value, seen;
          }
          restarted, offset := true, 0;
        }
      }
    }

    /** Attempts one after another, each under a claim of its own. */
    method Attempts(generations: seq<Path>, scripts: seq<seq<Exchange>>) returns (ends: seq<End>, ghost seen: seq<nat>)
      requires Valid() && |generations| == |scripts|
      modifies this`files, this`row, this`current, this`work, this`acts
      ensures Valid() && |ends| == |seen| == |generations| && old(acts) <= acts
      ensures Claims(acts) == Claims(old(acts)) + generations
      ensures SeenParts(scripts, seen) && Answers(acts) == Answers(old(acts)) + Heard(scripts, seen)
      ensures EndsHashed(limits, acts, ends)
    {
      ends, seen := [], [];
      assert generations[..0] == [] && Heard(scripts, seen) == [] && EndsHashed(limits, acts, ends);
      hide After, Next, Hashes, Heard, Claims, Answers, SeenParts, EndsHashed;
      while |ends| < |generations|
        invariant |ends| == |seen| <= |generations| && Valid() && old(acts) <= acts
        invariant Claims(acts) == Claims(old(acts)) + generations[..|ends|]
        invariant SeenParts(scripts, seen) && Answers(acts) == Answers(old(acts)) + Heard(scripts, seen)
        invariant EndsHashed(limits, acts, ends)
      {
        var n := |ends|;
        ghost var before := acts;
        var end;
        ghost var heard;
        end, heard := Attempt(generations[n], scripts[n]);
        assert generations[..n + 1] == generations[..n] + [generations[n]];
        HeardAppend(scripts, seen, heard);
        ConcatAssociates(Claims(old(acts)), generations[..n], [generations[n]]);
        ConcatAssociates(Answers(old(acts)), Heard(scripts, seen), scripts[n][..heard]);
        OneMoreEnd(limits, before, acts, ends, end);
        ends, seen := ends + [end], seen + [heard];
      }
      assert generations[..|generations|] == generations;
    }
  }

  /** A failure ends the attempt. */
  function Stopping(failure: Option<Failure>): Option<End> {
    if failure.Some? then Some(Stopped(failure.value)) else None
  }

  lemma ConcatAssociates<T>(a: seq<T>, b: seq<T>, c: seq<T>)
    ensures a + b + c == a + (b + c)
  {
  }

  /** Every hashed end is of bytes that the run has hashed. */
  ghost predicate EndsHashed(limits: Limits, acts: seq<Act>, ends: seq<End>) {
    forall i :: 0 <= i < |ends| && ends[i].Hashed? ==> Hashes(limits, acts, ends[i].bytes)
  }

  lemma OneMoreEnd(limits: Limits, acts: seq<Act>, more: seq<Act>, ends: seq<End>, end: End)
    requires EndsHashed(limits, acts, ends) && acts <= more
    requires end.Hashed? ==> After(limits, START, more).work == Finished(end.bytes)
    ensures EndsHashed(limits, more, ends + [end])
  {
    hide After, Hashes;
    forall i | 0 <= i < |ends| && ends[i].Hashed? ensures Hashes(limits, more, ends[i].bytes) {
      HashesLater(limits, acts, more, ends[i].bytes);
    }
    HashesNow(limits, more);
  }

  lemma HashesNow(limits: Limits, acts: seq<Act>)
    ensures var w := After(limits, START, acts).work; w.Finished? ==> Hashes(limits, acts, w.bytes)
  {
    hide After;
    assert acts[..|acts|] == acts;
  }

  lemma CutStep(limits: Limits, s: State, copied: nat)
    requires s.work.Claimed? && s.disk.row.path.Some?
    requires Copies(s.disk.files, s.work.previous, s.disk.row.path.value)
    requires copied <= |s.disk.files[s.work.previous.path.value]|
    ensures Next(limits, s, Cut(copied)) ==
      State(WithFile(s.disk, s.disk.files[s.work.previous.path.value][..copied]), s.current, Idle)
  {
  }

  lemma CopyStep(limits: Limits, s: State)
    requires s.work.Claimed? && s.disk.row.path.Some?
    ensures Next(limits, s, Copy) == State(Prepare(s.disk, s.work.previous), s.current, Prepared)
  {
  }

  lemma AnswerStep(limits: Limits, s: State, version: nat, r: Response)
    requires s.work.Asking? && HasFile(s.disk)
    ensures Next(limits, s, Answer(version, r)) == Answered(limits, s.(current := version), r)
  {
  }

  lemma RedirectStep(limits: Limits, s: State, version: nat, r: Response)
    requires s.work.Asking? && HasFile(s.disk) && Redirects(r)
    ensures Next(limits, s, Answer(version, r)) ==
      State(s.disk, version,
            if s.work.redirects >= MAX_REDIRECTS then Idle else s.work.(redirects := s.work.redirects + 1))
  {
  }

  lemma PlanOffsets(offset: nat, validator: Option<Validator>, expected: Option<nat>, restarted: bool,
                    maximumBytes: nat, r: Response)
    ensures var plan := Decide(offset, validator, expected, restarted, maximumBytes, r);
            && (plan.Write? ==> plan.offset <= offset)
            && (StartsOver(offset, restarted, r) ==> !plan.Again? && (plan.Write? ==> plan.offset == 0))
  {
  }

  lemma FinishStep(limits: Limits, s: State)
    requires s.work.Writing? && HasFile(s.disk) && s.work.k == |s.work.body| && !s.work.broken
    requires s.work.expected.Some? ==> s.work.expected.value == |FileOf(s.disk)|
    ensures var file := FileOf(s.disk);
            Next(limits, s, Finish) ==
              State(s.disk.(row := Saved(s.disk.row, |file|, s.work.expected, s.work.validator)), s.current,
                    if |file| <= limits.maximumBytes then Finished(file) else Idle)
  {
  }

  lemma OverwriteAppends(file: Bytes, bytes: Bytes)
    ensures Overwrite(file, |file|, bytes) == file + bytes
  {
  }

  lemma PieceStep(limits: Limits, s: State, n: nat)
    requires s.work.Writing? && HasFile(s.disk) && s.work.k < |s.work.body|
    requires s.work.done + n <= |s.work.body[s.work.k]|
    requires s.work.done == 0 ==> Admits(limits, |FileOf(s.disk)|, s.work.body[s.work.k], s.work.expected)
    ensures var w := s.work;
            Next(limits, s, Piece(n)) ==
              State(WithFile(s.disk, FileOf(s.disk) + w.body[w.k][w.done..w.done + n]), s.current,
                    w.(done := w.done + n))
  {
  }
}

/** When a resumed download is one version of the asset (packages/application-service/src/asset-downloader.ts:192-352,
    packages/persistence-sqlite/src/asset-files.ts:106-141). The server moves through versions; a validator belongs to
    one version and is never used for another. */
module DownloadSafety {
  import opened Maps
  import opened Octets
  import opened Options
  import opened AssetDownload

  /** What the server serves: the content of each version, and the version a validator belongs to. */
  datatype Site = Site(content: nat -> Bytes, versionOf: Validator -> nat)

  predicate PrefixOf(a: Bytes, b: Bytes) {
    |a| <= |b| && a == b[..|a|]
  }

  /** The server answers from version `v`: a success is 200 with the whole content, or 206 (section 15.3.7
      of RFC 9110) with the content from the start of its range and its validator; either declares the
      full length. The stream may stop anywhere. */
  ghost predicate Honest(site: Site, v: nat, r: Response) {
    var content := site.content(v);
    && (r.validator.Some? ==> site.versionOf(r.validator.value) == v)
    && (200 <= r.status < 300 ==> r.status == 200 || r.status == 206)
    && (r.status == 200 ==>
          r.contentLength == Some(|content|) && PrefixOf(Flatten(r.body, |r.body|), content))
    && (r.status == 206 ==>
          && r.validator.Some? && r.contentRange.Some? && r.contentRange.value.start <= |content|
          && (r.contentRange.value.total.Some? ==> r.contentRange.value.total.value == |content|)
          && (r.contentRange.value.total.None? ==> r.contentLength == Some(|content| - r.contentRange.value.start))
          && PrefixOf(Flatten(r.body, |r.body|), content[r.contentRange.value.start..]))
  }

  /** The answers are honest, and the server never goes back to an older version. */
  ghost predicate HonestAnswers(site: Site, from: nat, answers: seq<Exchange>) {
    && (forall i :: 0 <= i < |answers| ==>
          from <= answers[i].version && Honest(site, answers[i].version, answers[i].response))
    && (forall i, j :: 0 <= i < j < |answers| ==> answers[i].version <= answers[j].version)
  }

  // ----- What survives a crash -----

  /** A version that may be stored at all. */
  predicate Storable(site: Site, limits: Limits, v: nat) {
    |site.content(v)| <= limits.maximumBytes
  }

  predicate LastSeen(site: Site, v: nat, validator: Option<Validator>) {
    validator.Some? && site.versionOf(validator.value) == v
  }

  /** The first `n` bytes of the file are those of the version. */
  predicate StartsWith(site: Site, v: nat, file: Bytes, n: nat) {
    n <= |file| && n <= |site.content(v)| && file[..n] == site.content(v)[..n]
  }

  /** The row's numbers fit the version. */
  predicate Fits(site: Site, v: nat, row: Row) {
    row.resumeOffset <= |site.content(v)| && (row.expected.Some? ==> row.expected.value == |site.content(v)|)
  }

  /** What survives a crash at any point, the server having answered from version `current` last: the row's
      validator is not ahead of the server, and if it still is the server's, then the row fits that version, and
      the file, when it is long enough to be resumed and the version may be stored, starts with it. */
  predicate Recoverable(site: Site, limits: Limits, current: nat, disk: Disk) {
    var row := disk.row;
    && (row.validator.Some? ==> site.versionOf(row.validator.value) <= current)
    && (LastSeen(site, current, row.validator) ==>
          && Fits(site, current, row)
          && (HasFile(disk) && row.resumeOffset <= |FileOf(disk)| && Storable(site, limits, current) ==>
                StartsWith(site, current, FileOf(disk), row.resumeOffset)))
  }

  lemma RecoverableLater(site: Site, limits: Limits, current: nat, later: nat, disk: Disk)
    requires Recoverable(site, limits, current, disk) && current <= later
    ensures Recoverable(site, limits, later, disk)
  {
  }

  /** What the downloader may rely on when it asks for the bytes from `offset`. */
  predicate Resumable(site: Site, limits: Limits, current: nat, file: Bytes, offset: nat, expected: Option<nat>,
                      validator: Option<Validator>) {
    && offset <= |file|
    && (validator.Some? ==> site.versionOf(validator.value) <= current)
    && (offset > 0 ==>
          && validator.Some?
          && (site.versionOf(validator.value) == current ==>
                && offset <= |site.content(current)|
                && (expected.Some? ==> expected.value == |site.content(current)|)
                && (Storable(site, limits, current) ==> StartsWith(site, current, file, offset))))
  }

  lemma ResumableLater(site: Site, limits: Limits, current: nat, later: nat, file: Bytes, offset: nat,
                       expected: Option<nat>, validator: Option<Validator>)
    requires Resumable(site, limits, current, file, offset, expected, validator) && current <= later
    ensures Resumable(site, limits, later, file, offset, expected, validator)
  {
  }

  lemma InitialOffsetResumable(site: Site, limits: Limits, current: nat, disk: Disk)
    requires Recoverable(site, limits, current, disk) && HasFile(disk)
    ensures var offset := InitialOffset(|FileOf(disk)|, disk.row);
            Resumable(site, limits, current, FileOf(disk), offset, disk.row.expected, disk.row.validator)
  {
  }

  /** An honest answer that is written extends the start of its own version, and declares its length. */
  lemma PlanIsSound(site: Site, limits: Limits, current: nat, v: nat, file: Bytes, offset: nat,
                    validator: Option<Validator>, expected: Option<nat>, restarted: bool, r: Response)
    requires Resumable(site, limits, current, file, offset, expected, validator) && current <= v && Honest(site, v, r)
    requires Decide(offset, validator, expected, restarted, limits.maximumBytes, r).Write?
    ensures var plan := Decide(offset, validator, expected, restarted, limits.maximumBytes, r);
            && plan.offset <= offset && StartsWith(site, v, file, plan.offset)
            && plan.expected == Some(|site.content(v)|) && Storable(site, limits, v)
            && (plan.validator.Some? ==> site.versionOf(plan.validator.value) <= v)
            && PrefixOf(Flatten(r.body, |r.body|), site.content(v)[plan.offset..])
  {
    assert site.content(v)[0..] == site.content(v);
  }

  // ----- The invariant -----

  /** While version `current` is written, the file is a start of it. */
  predicate WritingSound(site: Site, limits: Limits, s: State)
    requires s.work.Writing?
  {
    var w := s.work;
    var content := site.content(s.current);
    && HasFile(s.disk) && Storable(site, limits, s.current)
    && w.offset <= |content| && PrefixOf(Flatten(w.body, |w.body|), content[w.offset..])
    && w.k <= |w.body| && (if w.k < |w.body| then w.done <= |w.body[w.k]| else w.done == 0)
    && |FileOf(s.disk)| == w.offset + |Flatten(w.body, w.k)| + w.done && PrefixOf(FileOf(s.disk), content)
    && w.expected == Some(|content|) && (w.validator.Some? ==> site.versionOf(w.validator.value) <= s.current)
  }

  predicate WorkSound(site: Site, limits: Limits, s: State) {
    match s.work
    case Idle => true
    case Claimed(previous) =>
      && s.disk.row.path.Some? && s.disk.row == previous.(path := s.disk.row.path)
      && Recoverable(site, limits, s.current, s.disk.(row := previous))
    case Prepared => HasFile(s.disk)
    case Asking(offset, expected, validator, _, _, _) =>
      HasFile(s.disk) && Resumable(site, limits, s.current, FileOf(s.disk), offset, expected, validator)
    case Writing(_, _, _, _, _, _, _, _) => WritingSound(site, limits, s)
    case Finished(bytes) => bytes == site.content(s.current)
  }

  predicate Sound(site: Site, limits: Limits, s: State) {
    Recoverable(site, limits, s.current, s.disk) && WorkSound(site, limits, s)
  }

  /** A claim that leaves the row on its path, or moves it to an unused one, or to a file that cannot be mistaken for
      a start of the version the row describes: it is too short to be resumed, or starts with it, or that version
      is not the server's any more, or is too long to be stored. */
  predicate SafeClaim(site: Site, limits: Limits, current: nat, disk: Disk, p: Path) {
    var row := disk.row;
    || row.path == Some(p)
    || p !in disk.files
    || !LastSeen(site, current, row.validator)
    || !Storable(site, limits, current)
    || |disk.files[p]| < row.resumeOffset
    || StartsWith(site, current, disk.files[p], row.resumeOffset)
  }

  lemma SafeClaimKeeps(site: Site, limits: Limits, s: State, p: Path)
    requires Recoverable(site, limits, s.current, s.disk) && SafeClaim(site, limits, s.current, s.disk, p)
    ensures Sound(site, limits, Next(limits, s, Claim(p)))
  {
    assert s.disk == s.disk.(row := s.disk.row);
  }

  lemma PrepareKeeps(site: Site, limits: Limits, s: State)
    requires Sound(site, limits, s) && s.work.Claimed?
    ensures Sound(site, limits, Next(limits, s, Copy))
    ensures forall n :: Sound(site, limits, Next(limits, s, Cut(n)))
  {
  }

  lemma ReadyKeeps(site: Site, limits: Limits, s: State)
    requires Sound(site, limits, s) && s.work.Prepared?
    ensures Sound(site, limits, Next(limits, s, Ready))
  {
    InitialOffsetResumable(site, limits, s.current, s.disk);
  }

  lemma AnswerKeeps(site: Site, limits: Limits, s: State, v: nat, r: Response)
    requires Sound(site, limits, s) && s.work.Asking? && s.current <= v && Honest(site, v, r)
    ensures Sound(site, limits, Next(limits, s, Answer(v, r)))
  {
    var w := s.work;
    var file := FileOf(s.disk);
    RecoverableLater(site, limits, s.current, v, s.disk);
    ResumableLater(site, limits, s.current, v, file, w.offset, w.expected, w.validator);
    hide Honest, Recoverable, Decide, Resumable;
    AnswerStep(limits, s, v, r);
    if !Redirects(r) {
      var plan := Decide(w.offset, w.validator, w.expected, w.restarted, limits.maximumBytes, r);
      CutRecoverable(site, limits, v, s.disk, 0);
      RestartResumable(site, limits, v, file, w.offset, w.expected, w.validator);
      assert file[..0] == [];
      if plan.Write? {
        PlanIsSound(site, limits, s.current, v, file, w.offset, w.validator, w.expected, w.restarted, r);
        CutRecoverable(site, limits, v, s.disk, plan.offset);
        assert file[..plan.offset] == site.content(v)[..plan.offset];
      }
    }
  }

  /** Cutting the file to a start of the version, or emptying it, leaves nothing that misleads. */
  lemma CutRecoverable(site: Site, limits: Limits, v: nat, disk: Disk, n: nat)
    requires Recoverable(site, limits, v, disk) && HasFile(disk) && n <= |FileOf(disk)|
    ensures Recoverable(site, limits, v, WithFile(disk, FileOf(disk)[..n]))
  {
  }

  lemma RestartResumable(site: Site, limits: Limits, v: nat, file: Bytes, offset: nat, expected: Option<nat>,
                         validator: Option<Validator>)
    requires Resumable(site, limits, v, file, offset, expected, validator)
    ensures Resumable(site, limits, v, [], 0, expected, validator)
  {
  }

  /** A file that is a start of the version is one a resume can go on from, whatever the row says of it. */
  lemma PrefixRecoverable(site: Site, limits: Limits, v: nat, disk: Disk, file: Bytes)
    requires Recoverable(site, limits, v, disk) && disk.row.path.Some? && PrefixOf(file, site.content(v))
    ensures Recoverable(site, limits, v, WithFile(disk, file))
  {
    if disk.row.resumeOffset <= |file| {
      assert site.content(v)[..|file|][..disk.row.resumeOffset] == site.content(v)[..disk.row.resumeOffset];
    }
  }

  /** The bytes up to chunk `k`, and `n` bytes of it, continue the version where the offset left it. */
  lemma NextChunk(site: Site, v: nat, offset: nat, body: seq<Bytes>, k: nat, n: nat)
    requires k < |body| && n <= |body[k]| && offset <= |site.content(v)|
    requires PrefixOf(Flatten(body, |body|), site.content(v)[offset..])
    ensures var written := offset + |Flatten(body, k)|;
            && written + n <= |site.content(v)|
            && site.content(v)[..written] + body[k][..n] == site.content(v)[..written + n]
            && (n == |body[k]| ==> written + n == offset + |Flatten(body, k + 1)|)
  {
    FlattenPrefix(body, k + 1, |body|);
    var content := site.content(v);
    var flat := Flatten(body, k);
    var written := offset + |flat|;
    assert Flatten(body, k + 1) == flat + body[k];
    var whole := Flatten(body, |body|);
    var next := flat + body[k];
    assert content[offset..][..|whole|][..|next|] == content[offset..][..|next|];
    assert body[k] == next[|flat|..] == content[written..written + |body[k]|];
  }

  lemma {:induction false} FlattenPrefix(body: seq<Bytes>, k: nat, n: nat)
    requires k <= n <= |body|
    ensures PrefixOf(Flatten(body, k), Flatten(body, n))
  {
    if k < n {
      FlattenPrefix(body, k, n - 1);
      assert Flatten(body, n)[..|Flatten(body, n - 1)|] == Flatten(body, n - 1);
    }
  }

  lemma PieceKeeps(site: Site, limits: Limits, s: State, n: nat)
    requires Sound(site, limits, s) && CanWrite(limits, s, n)
    ensures Sound(site, limits, Next(limits, s, Piece(n)))
  {
    var w := s.work;
    var content := site.content(s.current);
    var piece := w.body[w.k][w.done..w.done + n];
    var file := FileOf(s.disk);
    PieceStep(limits, s, n);
    NextChunk(site, s.current, w.offset, w.body, w.k, w.done);
    NextChunk(site, s.current, w.offset, w.body, w.k, w.done + n);
    hide Next, Recoverable, Flatten;
    assert w.body[w.k][..w.done + n] == w.body[w.k][..w.done] + piece;
    assert file + piece == content[..|file| + n];
    PrefixRecoverable(site, limits, s.current, s.disk, file + piece);
  }

  lemma SavedRecoverable(site: Site, limits: Limits, v: nat, disk: Disk, validator: Option<Validator>)
    requires HasFile(disk) && PrefixOf(FileOf(disk), site.content(v))
    requires validator.Some? ==> site.versionOf(validator.value) <= v
    ensures var row := Saved(disk.row, |FileOf(disk)|, Some(|site.content(v)|), validator);
            Recoverable(site, limits, v, disk.(row := row))
  {
  }

  lemma EndChunkKeeps(site: Site, limits: Limits, s: State)
    requires Sound(site, limits, s)
    ensures Sound(site, limits, Next(limits, s, EndChunk))
  {
    var w := s.work;
    if CanWrite(limits, s, 0) && w.done == |w.body[w.k]| {
      NextChunk(site, s.current, w.offset, w.body, w.k, w.done);
      SavedRecoverable(site, limits, s.current, s.disk, w.validator);
      hide Recoverable;
    }
  }

  lemma FinishKeeps(site: Site, limits: Limits, s: State)
    requires Sound(site, limits, s)
    ensures Sound(site, limits, Next(limits, s, Finish))
  {
    if s.work.Writing? {
      SavedRecoverable(site, limits, s.current, s.disk, s.work.validator);
      hide Recoverable;
    }
  }

  predicate Careful(site: Site, limits: Limits, s: State, a: Act) {
    a.Claim? ==> SafeClaim(site, limits, s.current, s.disk, a.path)
  }

  /** Every step under a safe claim, with an honest server, keeps the invariant. */
  lemma NextKeepsSound(site: Site, limits: Limits, s: State, a: Act)
    requires Sound(site, limits, s) && Careful(site, limits, s, a)
    requires a.Answer? ==> s.current <= a.version && Honest(site, a.version, a.response)
    ensures Sound(site, limits, Next(limits, s, a))
  {
    match a
    case Claim(p) => SafeClaimKeeps(site, limits, s, p);
    case Cut(n) => if s.work.Claimed? { PrepareKeeps(site, limits, s); }
    case Copy => if s.work.Claimed? { PrepareKeeps(site, limits, s); }
    case Ready => if s.work.Prepared? { ReadyKeeps(site, limits, s); }
    case Answer(v, r) => if s.work.Asking? { AnswerKeeps(site, limits, s, v, r); }
    case Piece(n) => if CanWrite(limits, s, n) { PieceKeeps(site, limits, s, n); }
    case EndChunk => EndChunkKeeps(site, limits, s);
    case Finish => FinishKeeps(site, limits, s);
    case Leave =>
  }

  // ----- Runs -----

  ghost predicate CarefulRun(site: Site, limits: Limits, s: State, acts: seq<Act>) {
    forall i :: 0 <= i < |acts| ==> Careful(site, limits, After(limits, s, acts[..i]), acts[i])
  }

  lemma CarefulPart(site: Site, limits: Limits, s: State, acts: seq<Act>)
    requires CarefulRun(site, limits, s, acts) && acts != []
    ensures CarefulRun(site, limits, s, acts[..|acts| - 1])
    ensures Careful(site, limits, After(limits, s, acts[..|acts| - 1]), acts[|acts| - 1])
  {
    var n := |acts| - 1;
    hide After, Careful;
    forall i | 0 <= i < n ensures Careful(site, limits, After(limits, s, acts[..n][..i]), acts[..n][i]) {
      assert acts[..n][..i] == acts[..i];
    }
  }

  /** A version the server has answered from. */
  predicate Served(answers: seq<Exchange>, v: nat) {
    exists i :: 0 <= i < |answers| && answers[i].version == v
  }

  /** The version of the state is the one it started with, or one that was served; a body is of one that was. */
  predicate VersionKnown(s: State, from: nat, answers: seq<Exchange>) {
    && (s.current == from || Served(answers, s.current))
    && (s.work.Writing? || s.work.Finished? ==> Served(answers, s.current))
  }

  function WithAnswer(answers: seq<Exchange>, a: Act): seq<Exchange> {
    answers + (if a.Answer? then [Exchange(a.version, a.response)] else [])
  }

  lemma ServedStays(answers: seq<Exchange>, a: Act, v: nat)
    ensures Served(answers, v) ==> Served(WithAnswer(answers, a), v)
    ensures a.Answer? ==> Served(WithAnswer(answers, a), a.version)
  {
    var now := WithAnswer(answers, a);
    if Served(answers, v) {
      var i :| 0 <= i < |answers| && answers[i].version == v;
      assert now[i].version == v;
    }
    if a.Answer? {
      assert now[|answers|].version == a.version;
    }
  }

  lemma VersionStays(limits: Limits, s: State, from: nat, answers: seq<Exchange>, a: Act)
    requires VersionKnown(s, from, answers)
    ensures VersionKnown(Next(limits, s, a), from, WithAnswer(answers, a))
  {
    ServedStays(answers, a, s.current);
    hide Served, Decide, WithAnswer;
  }

  lemma HonestPart(site: Site, from: nat, answers: seq<Exchange>, x: Exchange, v: nat)
    requires HonestAnswers(site, from, answers + [x]) && (v == from || Served(answers, v))
    ensures HonestAnswers(site, from, answers) && v <= x.version && Honest(site, x.version, x.response)
  {
    hide Honest;
    var all := answers + [x];
    assert all[|answers|] == x;
    forall i | 0 <= i < |answers| ensures all[i] == answers[i] {}
    if Served(answers, v) {
      var i :| 0 <= i < |answers| && answers[i].version == v;
      assert all[i].version <= all[|answers|].version;
    }
  }

  /** Over every run with an honest server in which every claim is safe, the invariant holds. */
  lemma {:induction false} CarefulRunsAreSound(site: Site, limits: Limits, s: State, acts: seq<Act>)
    requires Sound(site, limits, s) && !s.work.Writing? && !s.work.Finished?
    requires HonestAnswers(site, s.current, Answers(acts)) && CarefulRun(site, limits, s, acts)
    ensures Sound(site, limits, After(limits, s, acts))
    ensures VersionKnown(After(limits, s, acts), s.current, Answers(acts))
  {
    hide Sound, Honest, Next, Careful, CarefulRun, VersionKnown, HonestAnswers;
    if acts == [] {
      NothingServed(s);
    } else {
      var n := |acts| - 1;
      var a, before := acts[n], After(limits, s, acts[..n]);
      CarefulPart(site, limits, s, acts);
      assert Answers(acts[..n]) + [] == Answers(acts[..n]);
      if a.Answer? {
        HonestBefore(site, s.current, Answers(acts[..n]), Exchange(a.version, a.response));
      }
      assert Answers(acts) == Answers(acts[..n]) + (if a.Answer? then [Exchange(a.version, a.response)] else []);
      CarefulRunsAreSound(site, limits, s, acts[..n]);
      if a.Answer? {
        KnownVersion(before, s.current, Answers(acts[..n]));
        HonestPart(site, s.current, Answers(acts[..n]), Exchange(a.version, a.response), before.current);
      }
      VersionStays(limits, before, s.current, Answers(acts[..n]), a);
      NextKeepsSound(site, limits, before, a);
    }
  }

  lemma NothingServed(s: State)
    requires !s.work.Writing? && !s.work.Finished?
    ensures VersionKnown(s, s.current, [])
  {
  }

  lemma KnownVersion(s: State, from: nat, answers: seq<Exchange>)
    requires VersionKnown(s, from, answers)
    ensures s.current == from || Served(answers, s.current)
  {
  }

  lemma HonestBefore(site: Site, from: nat, answers: seq<Exchange>, x: Exchange)
    requires HonestAnswers(site, from, answers + [x])
    ensures HonestAnswers(site, from, answers)
  {
    HonestPart(site, from, answers, x, from);
  }

  // ----- Claims that never return to a path -----

  /** A claim stays on the path of the one before it, or takes one that was never used. */
  predicate NeverReturns(paths: seq<Path>) {
    forall i :: 0 <= i < |paths| ==> StaysOrIsNew(paths, i)
  }

  predicate StaysOrIsNew(paths: seq<Path>, i: nat)
    requires i < |paths|
  {
    (i > 0 && paths[i - 1] == paths[i]) || paths[i] !in paths[..i]
  }

  /** A claim of the row's own path, or of an unused one. */
  predicate FreshAct(s: State, a: Act) {
    a.Claim? ==> s.disk.row.path == Some(a.path) || a.path !in s.disk.files
  }

  /** The row's path is the one claimed last, and only claimed paths have files. */
  predicate PathsClaimed(s: State, claims: seq<Path>) {
    && s.disk.row.path == (if claims == [] then None else Some(claims[|claims| - 1]))
    && forall p :: p in s.disk.files ==> p in claims
  }

  lemma PathsStay(limits: Limits, s: State, claims: seq<Path>, a: Act)
    requires PathsClaimed(s, claims)
    ensures PathsClaimed(Next(limits, s, a), claims + (if a.Claim? then [a.path] else []))
  {
    hide Decide;
  }

  lemma {:induction false} RunPaths(limits: Limits, acts: seq<Act>)
    ensures PathsClaimed(After(limits, START, acts), Claims(acts))
  {
    hide Next, PathsClaimed;
    if acts == [] {
      assert PathsClaimed(START, []) by { NothingClaimed(); }
    } else {
      RunPaths(limits, acts[..|acts| - 1]);
      PathsStay(limits, After(limits, START, acts[..|acts| - 1]), Claims(acts[..|acts| - 1]), acts[|acts| - 1]);
    }
  }

  lemma NothingClaimed()
    ensures PathsClaimed(START, [])
  {
  }

  lemma {:induction false} ClaimsGrow(acts: seq<Act>, i: nat)
    requires i <= |acts|
    ensures Claims(acts[..i]) <= Claims(acts)
    decreases |acts|
  {
    if i == |acts| {
      assert acts[..i] == acts;
    } else {
      ClaimsGrow(acts[..|acts| - 1], i);
      assert acts[..|acts| - 1][..i] == acts[..i];
    }
  }

  /** Such claims are safe. */
  lemma NeverReturningIsCareful(site: Site, limits: Limits, acts: seq<Act>)
    requires NeverReturns(Claims(acts))
    ensures CarefulRun(site, limits, START, acts)
  {
    hide After, Next, Careful, PathsClaimed, NeverReturns;
    forall i | 0 <= i < |acts| ensures Careful(site, limits, After(limits, START, acts[..i]), acts[i]) {
      var s := After(limits, START, acts[..i]);
      if acts[i].Claim? {
        RunPaths(limits, acts[..i]);
        assert acts[..i + 1] == acts[..i] + [acts[i]];
        TracksAppend(acts[..i], acts[i]);
        ClaimsGrow(acts, i + 1);
        FreshClaimIsCareful(site, limits, s, Claims(acts), Claims(acts[..i]), acts[i].path);
      }
      OnlyClaimsNeedCare(site, limits, s, acts[i]);
    }
  }

  lemma FreshClaimIsCareful(site: Site, limits: Limits, s: State, all: seq<Path>, claims: seq<Path>, p: Path)
    requires PathsClaimed(s, claims) && NeverReturns(all) && claims + [p] <= all
    ensures Careful(site, limits, s, Claim(p))
  {
    var n := |claims|;
    assert all[n] == (claims + [p])[n] == p && all[..n] == claims;
    assert StaysOrIsNew(all, n);
  }

  lemma OnlyClaimsNeedCare(site: Site, limits: Limits, s: State, a: Act)
    ensures !a.Claim? ==> Careful(site, limits, s, a)
  {
  }

  /** Over every run of crashes, failures, restarts and claims that never return to a path they have left, with an
      honest server: whatever is hashed is the content of one version, which the server has served. */
  lemma HashedIsOneVersion(site: Site, limits: Limits, acts: seq<Act>, bytes: Bytes) returns (v: nat)
    requires HonestAnswers(site, 0, Answers(acts)) && NeverReturns(Claims(acts)) && Hashes(limits, acts, bytes)
    ensures bytes == site.content(v) && Served(Answers(acts), v)
  {
    hide After, Next, Served, HonestAnswers, NeverReturns, CarefulRun, Sound, VersionKnown;
    var k :| 0 <= k <= |acts| && After(limits, START, acts[..k]).work == Finished(bytes);
    NeverReturningIsCareful(site, limits, acts);
    CarefulUpTo(site, limits, START, acts, k);
    AnswersUpTo(site, 0, acts, k);
    assert Sound(site, limits, START) by { NothingToRecover(site, limits); }
    CarefulRunsAreSound(site, limits, START, acts[..k]);
    v := After(limits, START, acts[..k]).current;
    FinishedIsServed(site, limits, After(limits, START, acts[..k]), 0, Answers(acts[..k]));
  }

  lemma NothingToRecover(site: Site, limits: Limits)
    ensures Sound(site, limits, START)
  {
  }

  lemma FinishedIsServed(site: Site, limits: Limits, s: State, from: nat, answers: seq<Exchange>)
    requires Sound(site, limits, s) && VersionKnown(s, from, answers) && s.work.Finished?
    ensures s.work.bytes == site.content(s.current) && Served(answers, s.current)
  {
  }

  lemma CarefulUpTo(site: Site, limits: Limits, s: State, acts: seq<Act>, k: nat)
    requires CarefulRun(site, limits, s, acts) && k <= |acts|
    ensures CarefulRun(site, limits, s, acts[..k])
  {
    hide After, Careful;
    forall i | 0 <= i < k ensures Careful(site, limits, After(limits, s, acts[..k][..i]), acts[..k][i]) {
      assert acts[..k][..i] == acts[..i];
    }
  }

  /** The answers of a part of a run are a part of its answers. */
  lemma {:induction false} AnswersUpTo(site: Site, from: nat, acts: seq<Act>, k: nat)
    requires HonestAnswers(site, from, Answers(acts)) && k <= |acts|
    ensures HonestAnswers(site, from, Answers(acts[..k]))
    ensures forall v: nat :: Served(Answers(acts[..k]), v) ==> Served(Answers(acts), v)
    decreases |acts|
  {
    hide HonestAnswers, Honest;
    if k == |acts| {
      assert acts[..k] == acts;
    } else {
      var n := |acts| - 1;
      var a := acts[n];
      assert Answers(acts[..n]) + [] == Answers(acts[..n]);
      if a.Answer? {
        HonestBefore(site, from, Answers(acts[..n]), Exchange(a.version, a.response));
      }
      assert Answers(acts) == Answers(acts[..n]) + (if a.Answer? then [Exchange(a.version, a.response)] else []);
      AnswersUpTo(site, from, acts[..n], k);
      assert acts[..n][..k] == acts[..k];
      forall v: nat | Served(Answers(acts[..n]), v) ensures Served(Answers(acts), v) {
        var i :| 0 <= i < |Answers(acts[..n])| && Answers(acts[..n])[i].version == v;
        assert Answers(acts)[i].version == v;
      }
    }
  }

  // ----- Exactly which claims are safe -----

  /** After the first act, every claim is of the row's own path or of an unused one. */
  predicate Tame(limits: Limits, s: State, acts: seq<Act>) {
    forall i :: 0 < i < |acts| ==> FreshAct(After(limits, s, acts[..i]), acts[i])
  }

  /** A continuation of the claim after which bytes are hashed that are not the version they were served as. */
  ghost predicate Mixes(site: Site, limits: Limits, s: State, p: Path, acts: seq<Act>) {
    && acts != [] && acts[0] == Claim(p) && Tame(limits, s, acts)
    && HonestAnswers(site, s.current, Answers(acts))
    && var end := After(limits, s, acts);
       end.work.Finished? && end.work.bytes != site.content(end.current)
  }

  ghost predicate CanMix(site: Site, limits: Limits, s: State, p: Path) {
    exists acts :: Mixes(site, limits, s, p, acts)
  }

  /** The claim, and what comes after it until the next one. */
  ghost predicate CanMixAtOnce(site: Site, limits: Limits, s: State, p: Path) {
    exists acts :: Mixes(site, limits, s, p, acts) && Claims(acts) == [p]
  }

  lemma TameIsCareful(site: Site, limits: Limits, s: State, p: Path, acts: seq<Act>)
    requires acts != [] && acts[0] == Claim(p) && Tame(limits, s, acts)
    requires SafeClaim(site, limits, s.current, s.disk, p)
    ensures CarefulRun(site, limits, s, acts)
  {
    hide Next;
    forall i | 0 <= i < |acts| ensures Careful(site, limits, After(limits, s, acts[..i]), acts[i]) {
      if i > 0 {
        assert FreshAct(After(limits, s, acts[..i]), acts[i]);
      }
    }
  }

  /** A claim forgets what was going on. */
  lemma {:induction false} ClaimForgets(limits: Limits, s: State, acts: seq<Act>)
    requires acts != [] && acts[0].Claim?
    ensures After(limits, s, acts) == After(limits, s.(work := Idle), acts)
  {
    var n := |acts| - 1;
    if n == 0 {
      assert After(limits, s, acts[..n]) == s && After(limits, s.(work := Idle), acts[..n]) == s.(work := Idle);
    } else {
      hide Next;
      ClaimForgets(limits, s, acts[..n]);
    }
  }

  lemma MixesFromIdle(site: Site, limits: Limits, s: State, p: Path, acts: seq<Act>)
    requires Mixes(site, limits, s, p, acts)
    ensures Mixes(site, limits, s.(work := Idle), p, acts)
  {
    hide After, HonestAnswers, FreshAct;
    ClaimForgets(limits, s, acts);
    forall i | 0 < i < |acts| ensures FreshAct(After(limits, s.(work := Idle), acts[..i]), acts[i]) {
      ClaimForgets(limits, s, acts[..i]);
    }
  }

  lemma SafeClaimNeverMixes(site: Site, limits: Limits, s: State, p: Path, acts: seq<Act>)
    requires Sound(site, limits, s) && SafeClaim(site, limits, s.current, s.disk, p)
    ensures !Mixes(site, limits, s, p, acts)
  {
    var idle := s.(work := Idle);
    assert Sound(site, limits, idle);
    hide After, Next, Tame, CarefulRun, HonestAnswers, VersionKnown, SafeClaim, Recoverable;
    if Mixes(site, limits, s, p, acts) {
      MixesFromIdle(site, limits, s, p, acts);
      TameIsCareful(site, limits, idle, p, acts);
      CarefulRunsAreSound(site, limits, idle, acts);
    }
  }

  // ----- How another claim is turned into a mix -----

  /** One more step of a continuation. */
  lemma Extend(limits: Limits, s: State, acts: seq<Act>, a: Act)
    requires acts != [] && Tame(limits, s, acts) && FreshAct(After(limits, s, acts), a)
    ensures Tame(limits, s, acts + [a]) && After(limits, s, acts + [a]) == Next(limits, After(limits, s, acts), a)
    ensures (acts + [a])[0] == acts[0]
    ensures Claims(acts + [a]) == Claims(acts) + (if a.Claim? then [a.path] else [])
    ensures Answers(acts + [a]) == Answers(acts) + (if a.Answer? then [Exchange(a.version, a.response)] else [])
  {
    hide Next;
    AfterAppend(limits, s, acts, a);
    TracksAppend(acts, a);
    forall i | 0 < i < |acts| + 1 ensures FreshAct(After(limits, s, (acts + [a])[..i]), (acts + [a])[i]) {
      if i < |acts| {
        assert (acts + [a])[..i] == acts[..i];
      } else {
        assert (acts + [a])[..i] == acts;
      }
    }
  }

  lemma FirstAct(limits: Limits, s: State, a: Act)
    ensures Tame(limits, s, [a]) && After(limits, s, [a]) == Next(limits, s, a)
    ensures Claims([a]) == (if a.Claim? then [a.path] else [])
    ensures Answers([a]) == (if a.Answer? then [Exchange(a.version, a.response)] else [])
  {
    AfterAppend(limits, s, [], a);
    TracksAppend([], a);
    assert [] + [a] == [a];
  }

  /** The rest of a version, answered to a request for the bytes from `n` on. */
  function Rest(site: Site, v: nat, validator: Option<Validator>, n: nat): Response
    requires n <= |site.content(v)|
  {
    var content := site.content(v);
    Response(206, validator, Some(ContentRange(n, |content|, Some(|content|))), None,
             if n == |content| then [] else [content[n..]], false)
  }

  lemma RestIsHonest(site: Site, v: nat, validator: Option<Validator>, n: nat)
    requires n <= |site.content(v)| && LastSeen(site, v, validator)
    ensures Honest(site, v, Rest(site, v, validator, n))
  {
    var body := Rest(site, v, validator, n).body;
    if body != [] {
      assert Flatten(body, 1) == Flatten(body, 0) + body[0] == body[0];
    }
  }

  /** A request for the bytes from `n` on of the version the server is at, after a file that does not start with it. */
  predicate Misled(site: Site, limits: Limits, t: State) {
    && t.work.Asking? && !t.work.restarted && HasFile(t.disk) && 0 < t.work.offset <= |FileOf(t.disk)|
    && LastSeen(site, t.current, t.work.validator) && Storable(site, limits, t.current)
    && t.work.offset <= |site.content(t.current)| && !StartsWith(site, t.current, FileOf(t.disk), t.work.offset)
  }

  lemma MisledAnswer(site: Site, limits: Limits, t: State)
    requires Misled(site, limits, t)
    ensures var w := t.work;
            var content := site.content(t.current);
            var r := Rest(site, t.current, w.validator, w.offset);
            Next(limits, t, Answer(t.current, r)) ==
              State(WithFile(t.disk, FileOf(t.disk)[..w.offset]), t.current,
                    Writing(r.body, false, w.offset, 0, 0, Some(|content|), w.validator, w.checkpointAt))
  {
  }

  /** The body of the honest answer is written to its end. */
  lemma WriteRest(site: Site, limits: Limits, s: State, acts: seq<Act>, t: State) returns (more: seq<Act>)
    requires acts != [] && Tame(limits, s, acts) && Misled(site, limits, t)
    requires var w := t.work;
             After(limits, s, acts) ==
               State(WithFile(t.disk, FileOf(t.disk)[..w.offset]), t.current,
                     Writing(Rest(site, t.current, w.validator, w.offset).body, false, w.offset, 0, 0,
                             Some(|site.content(t.current)|), w.validator, w.checkpointAt))
    ensures more != [] && more[0] == acts[0] && Tame(limits, s, more)
    ensures Claims(more) == Claims(acts) && Answers(more) == Answers(acts)
    ensures var u := After(limits, s, more);
            && u.work.Writing? && !u.work.broken && u.work.k == |u.work.body| && u.current == t.current
            && u.work.expected == Some(|site.content(t.current)|) && HasFile(u.disk)
            && FileOf(u.disk) == FileOf(t.disk)[..t.work.offset] + site.content(t.current)[t.work.offset..]
  {
    hide After, Next, Tame, Claims, Answers, LastSeen, StartsWith;
    var n, content := t.work.offset, site.content(t.current);
    more := acts;
    if n < |content| {
      PieceStep(limits, After(limits, s, acts), |content| - n);
      Extend(limits, s, more, Piece(|content| - n));
      more := more + [Piece(|content| - n)];
      ChunkEnds(limits, After(limits, s, more));
      Extend(limits, s, more, EndChunk);
      more := more + [EndChunk];
    } else {
      assert content[n..] == [];
    }
  }

  /** The honest answer completes it to a mix. */
  lemma Complete(site: Site, limits: Limits, s: State, p: Path, acts: seq<Act>) returns (more: seq<Act>)
    requires acts != [] && acts[0] == Claim(p) && Tame(limits, s, acts) && Answers(acts) == []
    requires Misled(site, limits, After(limits, s, acts)) && After(limits, s, acts).current == s.current
    ensures Mixes(site, limits, s, p, more) && Claims(more) == Claims(acts)
  {
    hide After, Next, Tame, Claims, Answers;
    var t := After(limits, s, acts);
    var n, content := t.work.offset, site.content(t.current);
    var r := Rest(site, t.current, t.work.validator, n);
    MisledAnswer(site, limits, t);
    RestIsHonest(site, t.current, t.work.validator, n);
    Extend(limits, s, acts, Answer(t.current, r));
    more := WriteRest(site, limits, s, acts + [Answer(t.current, r)], t);
    var file := FileOf(t.disk)[..n] + content[n..];
    assert file[..n] == FileOf(t.disk)[..n];
    FinishStep(limits, After(limits, s, more));
    Extend(limits, s, more, Finish);
    more := more + [Finish];
  }

  lemma ChunkEnds(limits: Limits, u: State)
    requires CanWrite(limits, u, 0) && u.work.done == |u.work.body[u.work.k]|
    ensures var v := Next(limits, u, EndChunk);
            && v.work.Writing? && v.work == u.work.(k := u.work.k + 1, done := 0, checkpointAt := v.work.checkpointAt)
            && HasFile(v.disk) && v.disk.files == u.disk.files && v.disk.row.path == u.disk.row.path
            && v.current == u.current
  {
  }

  /** A prepared file that is not longer than expected is resumed where the row says. */
  lemma ReadyToMislead(site: Site, limits: Limits, t: State)
    requires t.work.Prepared? && HasFile(t.disk) && LastSeen(site, t.current, t.disk.row.validator)
    requires Fits(site, t.current, t.disk.row) && Storable(site, limits, t.current)
    requires t.disk.row.resumeOffset <= |FileOf(t.disk)|
    requires !StartsWith(site, t.current, FileOf(t.disk), t.disk.row.resumeOffset)
    requires t.disk.row.expected.Some? ==> |FileOf(t.disk)| <= t.disk.row.expected.value
    ensures Misled(site, limits, Next(limits, t, Ready)) && Next(limits, t, Ready).current == t.current
  {
    NothingDiffers(site, t.current, FileOf(t.disk));
  }

  /** A claim that is not safe, of a file that is not longer than expected: an honest answer completes a mix. */
  lemma MixAtOnce(site: Site, limits: Limits, s: State, p: Path) returns (acts: seq<Act>)
    requires Sound(site, limits, s) && !SafeClaim(site, limits, s.current, s.disk, p)
    requires s.disk.row.expected.Some? ==> |s.disk.files[p]| <= s.disk.row.expected.value
    ensures Mixes(site, limits, s, p, acts) && Claims(acts) == [p]
  {
    FirstAct(limits, s, Claim(p));
    acts := [Claim(p)];
    Extend(limits, s, acts, Copy);
    acts := acts + [Copy];
    ReadyToMislead(site, limits, After(limits, s, acts));
    Extend(limits, s, acts, Ready);
    acts := acts + [Ready];
    acts := Complete(site, limits, s, p, acts);
  }

  /** The state after the claim, a crash, and the claim of an unused path whose copy is cut short. */
  function CopyCut(s: State, p: Path, q: Path): State
    requires p in s.disk.files && s.disk.row.resumeOffset <= |s.disk.files[p]|
  {
    var row := s.disk.row;
    State(Disk(s.disk.files[q := s.disk.files[p][..row.resumeOffset]], row.(path := Some(q))), s.current, Idle)
  }

  lemma CutShort(limits: Limits, s: State, p: Path, q: Path) returns (acts: seq<Act>)
    requires p in s.disk.files && 0 < s.disk.row.resumeOffset <= |s.disk.files[p]| && q !in s.disk.files
    ensures acts != [] && acts[0] == Claim(p) && Tame(limits, s, acts) && Answers(acts) == []
    ensures After(limits, s, acts) == CopyCut(s, p, q)
  {
    var n := s.disk.row.resumeOffset;
    hide After, Tame;
    FirstAct(limits, s, Claim(p));
    acts := [Claim(p)];
    Extend(limits, s, acts, Leave);
    acts := acts + [Leave];
    Extend(limits, s, acts, Claim(q));
    acts := acts + [Claim(q)];
    CutStep(limits, After(limits, s, acts), n);
    Extend(limits, s, acts, Cut(n));
    acts := acts + [Cut(n)];
  }

  /** Any claim that is not safe: a crash after it, and one that cuts a copy to an unused path short, leave a file that
      the honest answer completes to a mix. */
  lemma MixThroughACopy(site: Site, limits: Limits, s: State, p: Path) returns (acts: seq<Act>)
    requires Sound(site, limits, s) && !SafeClaim(site, limits, s.current, s.disk, p)
    ensures Mixes(site, limits, s, p, acts)
  {
    var n, file := s.disk.row.resumeOffset, s.disk.files[p];
    var q := UnusedKey(s.disk.files);
    assert n > 0 by { NothingDiffers(site, s.current, file); }
    acts := CutShort(limits, s, p, q);
    hide After, Tame, Mixes, Answers;
    var t := CopyCut(s, p, q);
    assert file[..n][..n] == file[..n];
    Extend(limits, s, acts, Claim(q));
    acts := acts + [Claim(q)];
    CopyStep(limits, After(limits, s, acts));
    Extend(limits, s, acts, Copy);
    acts := acts + [Copy];
    ReadyToMislead(site, limits, After(limits, s, acts));
    Extend(limits, s, acts, Ready);
    acts := acts + [Ready];
    acts := Complete(site, limits, s, p, acts);
  }

  lemma NothingDiffers(site: Site, v: nat, file: Bytes)
    ensures StartsWith(site, v, file, 0)
  {
    assert file[..0] == site.content(v)[..0];
  }

  /** From a sound state a claim is safe exactly when no continuation of it, with an honest server and in which every
      later claim is of the row's own path or of an unused one, hashes anything but the version served. */
  lemma ClaimIsSafeExactly(site: Site, limits: Limits, s: State, p: Path)
    requires Sound(site, limits, s)
    ensures SafeClaim(site, limits, s.current, s.disk, p) <==> !CanMix(site, limits, s, p)
  {
    hide Sound, SafeClaim, Mixes;
    if SafeClaim(site, limits, s.current, s.disk, p) {
      forall acts ensures !Mixes(site, limits, s, p, acts) {
        SafeClaimNeverMixes(site, limits, s, p, acts);
      }
    } else {
      var acts := MixThroughACopy(site, limits, s, p);
    }
  }

  // ----- One attempt -----

  /** A file that is longer than the row expects is emptied before anything is asked for. */
  predicate Discarded(disk: Disk, p: Path) {
    p in disk.files && disk.row.expected.Some? && |disk.files[p]| > disk.row.expected.value
  }

  /** Until then, the row describes the file of another path. */
  predicate Discarding(site: Site, limits: Limits, s: State, p: Path) {
    && (s.work.Claimed? || s.work.Prepared?) && s.disk.row.path == Some(p) && Discarded(s.disk, p)
    && Recoverable(site, limits, s.current, WithFile(s.disk, []))
    && s.disk.row.resumeOffset <= |s.disk.files[p]|
  }

  lemma DiscardingStays(site: Site, limits: Limits, s: State, p: Path, a: Act)
    requires Discarding(site, limits, s, p) && !a.Claim?
    ensures var t := Next(limits, s, a); Discarding(site, limits, t, p) || t.work.Idle? || Sound(site, limits, t)
    ensures Next(limits, s, a).current == s.current
  {
    hide Recoverable;
    if a.Ready? && s.work.Prepared? {
      EmptyResumable(site, limits, s.current, WithFile(s.disk, []));
    }
  }

  lemma EmptyResumable(site: Site, limits: Limits, v: nat, disk: Disk)
    requires Recoverable(site, limits, v, disk) && HasFile(disk) && FileOf(disk) == []
    ensures Resumable(site, limits, v, [], 0, disk.row.expected, disk.row.validator)
  {
  }

  lemma IdleStays(limits: Limits, s: State, a: Act)
    requires s.work.Idle? && !a.Claim?
    ensures Next(limits, s, a) == s
  {
  }

  /** In a run without another claim. */
  lemma {:induction false} DiscardingRun(site: Site, limits: Limits, s: State, p: Path, acts: seq<Act>)
    requires Sound(site, limits, s) && Discarded(s.disk, p) && s.disk.row.resumeOffset <= |s.disk.files[p]|
    requires acts != [] && acts[0] == Claim(p) && Claims(acts) == [p] && HonestAnswers(site, s.current, Answers(acts))
    ensures var t := After(limits, s, acts);
            && (Discarding(site, limits, t, p) || t.work.Idle? || Sound(site, limits, t))
            && (t.current == s.current || Served(Answers(acts), t.current))
  {
    hide Sound, HonestAnswers, Next, Discarding, Honest, Served;
    var n := |acts| - 1;
    var a, before := acts[n], After(limits, s, acts[..n]);
    if n == 0 {
      assert acts[..n] == [];
      assert before == s;
      ClaimDiscards(site, limits, s, p);
    } else {
      ClaimsGrow(acts, 1);
      assert acts[..1] == [Claim(p)];
      FirstAct(limits, s, Claim(p));
      ClaimsGrow(acts[..n], 1);
      assert acts[..n][..1] == acts[..1];
      assert |Claims(acts[..n])| >= 1;
      assert !a.Claim? && Claims(acts[..n]) == [p];
      assert Answers(acts[..n]) + [] == Answers(acts[..n]);
      if a.Answer? {
        HonestBefore(site, s.current, Answers(acts[..n]), Exchange(a.version, a.response));
      }
      DiscardingRun(site, limits, s, p, acts[..n]);
      ServedStays(Answers(acts[..n]), a, before.current);
      CurrentMoves(limits, before, a);
      if Discarding(site, limits, before, p) {
        DiscardingStays(site, limits, before, p, a);
      } else if before.work.Idle? {
        IdleStays(limits, before, a);
      } else {
        if a.Answer? {
          HonestPart(site, s.current, Answers(acts[..n]), Exchange(a.version, a.response), before.current);
        }
        NextKeepsSound(site, limits, before, a);
      }
    }
  }

  lemma CurrentMoves(limits: Limits, s: State, a: Act)
    ensures Next(limits, s, a).current == s.current || (a.Answer? && Next(limits, s, a).current == a.version)
  {
    hide Decide;
  }

  lemma ClaimDiscards(site: Site, limits: Limits, s: State, p: Path)
    requires Sound(site, limits, s) && Discarded(s.disk, p) && s.disk.row.resumeOffset <= |s.disk.files[p]|
    ensures Discarding(site, limits, Next(limits, s, Claim(p)), p) && Next(limits, s, Claim(p)).current == s.current
  {
  }

  /** Until the next claim, exactly a file that is not safe and not longer than the row expects leads to a mix. */
  lemma OneAttemptIsSafeExactly(site: Site, limits: Limits, s: State, p: Path)
    requires Sound(site, limits, s)
    ensures SafeClaim(site, limits, s.current, s.disk, p) || Discarded(s.disk, p) <==> !CanMixAtOnce(site, limits, s, p)
  {
    hide Sound, SafeClaim, Mixes;
    if SafeClaim(site, limits, s.current, s.disk, p) {
      forall acts ensures !Mixes(site, limits, s, p, acts) {
        SafeClaimNeverMixes(site, limits, s, p, acts);
      }
    } else if Discarded(s.disk, p) {
      forall acts | Claims(acts) == [p] ensures !Mixes(site, limits, s, p, acts) {
        DiscardedNeverMixes(site, limits, s, p, acts);
      }
    } else {
      assert p in s.disk.files by { NotSafe(site, limits, s, p); }
      var acts := MixAtOnce(site, limits, s, p);
    }
  }

  lemma NotSafe(site: Site, limits: Limits, s: State, p: Path)
    requires !SafeClaim(site, limits, s.current, s.disk, p)
    ensures p in s.disk.files && s.disk.row.resumeOffset <= |s.disk.files[p]|
  {
  }

  lemma DiscardedNeverMixes(site: Site, limits: Limits, s: State, p: Path, acts: seq<Act>)
    requires Sound(site, limits, s) && !SafeClaim(site, limits, s.current, s.disk, p) && Discarded(s.disk, p)
    requires Claims(acts) == [p]
    ensures !Mixes(site, limits, s, p, acts)
  {
    NotSafe(site, limits, s, p);
    hide After, Tame, HonestAnswers, Recoverable, SafeClaim;
    if Mixes(site, limits, s, p, acts) {
      DiscardingRun(site, limits, s, p, acts);
    }
  }

  // ----- Scripts -----

  /** Each script is honest, and no script answers from an older version than a script before it. */
  ghost predicate HonestScripts(site: Site, scripts: seq<seq<Exchange>>) {
    && (forall i :: 0 <= i < |scripts| ==> HonestAnswers(site, 0, scripts[i]))
    && (forall i, j, k, l :: 0 <= i < j < |scripts| && 0 <= k < |scripts[i]| && 0 <= l < |scripts[j]| ==>
          scripts[i][k].version <= scripts[j][l].version)
  }

  lemma {:induction false} HeardIsInScripts(scripts: seq<seq<Exchange>>, seen: seq<nat>, k: nat)
    returns (i: nat, l: nat)
    requires SeenParts(scripts, seen) && k < |Heard(scripts, seen)|
    ensures i < |seen| && l < |scripts[i]| && scripts[i][l] == Heard(scripts, seen)[k]
  {
    var n := |seen| - 1;
    if k < |Heard(scripts, seen[..n])| {
      i, l := HeardIsInScripts(scripts, seen[..n], k);
    } else {
      i, l := n, k - |Heard(scripts, seen[..n])|;
    }
  }

  lemma {:induction false} HeardIsHonest(site: Site, scripts: seq<seq<Exchange>>, seen: seq<nat>)
    requires SeenParts(scripts, seen) && HonestScripts(site, scripts)
    ensures HonestAnswers(site, 0, Heard(scripts, seen))
  {
    hide Honest;
    if seen != [] {
      var n := |seen| - 1;
      var before, last := Heard(scripts, seen[..n]), scripts[n][..seen[n]];
      HeardIsHonest(site, scripts, seen[..n]);
      assert HonestAnswers(site, 0, scripts[n]);
      forall k, l | 0 <= k < |before| && 0 <= l < |last| ensures before[k].version <= last[l].version {
        var i, m := HeardIsInScripts(scripts, seen[..n], k);
        assert scripts[i][m].version <= scripts[n][l].version;
      }
    }
  }

  /** What `Download.Attempts` hashes of honest scripts, from nothing and under claims that never return to a path they
      have left, is the content of versions it was served. */
  lemma AttemptsHashVersions(site: Site, limits: Limits, acts: seq<Act>, scripts: seq<seq<Exchange>>, seen: seq<nat>,
                             ends: seq<End>, i: nat) returns (v: nat)
    requires NeverReturns(Claims(acts)) && HonestScripts(site, scripts)
    requires SeenParts(scripts, seen) && Answers(acts) == Heard(scripts, seen) && EndsHashed(limits, acts, ends)
    requires i < |ends| && ends[i].Hashed?
    ensures ends[i].bytes == site.content(v) && Served(Answers(acts), v)
  {
    hide Hashes, HonestAnswers, HonestScripts, NeverReturns, Served, Heard;
    HeardIsHonest(site, scripts, seen);
    v := HashedIsOneVersion(site, limits, acts, ends[i].bytes);
  }

  // ----- A run that returns to a path -----

  /** Two versions of six bytes each; a validator is spelled with as many letters as its version's number. */
  function Example(): Site {
    Site((v: nat) => if v == 0 then [1, 1, 1, 1, 1, 1] else [2, 2, 2, 2, 2, 2], (x: Validator) => |x|)
  }

  const EXAMPLE_LIMITS := Limits(100, 1)

  const FIRST := Response(200, Some(""), None, Some(6), [[1], [1, 1, 1, 1, 1]], false)
  const SECOND := Response(200, Some("b"), None, Some(6), [[2, 2, 2]], true)
  const THIRD := Response(206, Some("b"), Some(ContentRange(3, 5, Some(6))), None, [[2, 2, 2]], false)

  /** Under path 1, version 0 is written to its end, and the process dies after it saved one byte; under path 2, the
      copy is started over with version 1, and the stream breaks after three bytes. */
  const TO_PATH_1: seq<Act> := [Claim(1), Copy, Ready, Answer(0, FIRST), Piece(1), EndChunk, Piece(5)]
  const TO_PATH_2: seq<Act> := [Claim(2), Copy, Ready, Answer(1, SECOND), Piece(3), EndChunk]
  /** Back to path 1, the old file is resumed. */
  const BACK: seq<Act> := [Claim(1), Copy, Ready, Answer(1, THIRD), Piece(3), EndChunk, Finish]

  lemma {:induction false} AfterConcat(limits: Limits, s: State, a: seq<Act>, b: seq<Act>)
    ensures After(limits, s, a + b) == After(limits, After(limits, s, a), b)
    ensures Claims(a + b) == Claims(a) + Claims(b) && Answers(a + b) == Answers(a) + Answers(b)
    decreases |b|
  {
    if b == [] {
      assert a + b == a;
    } else {
      var n := |b| - 1;
      hide Next;
      AfterConcat(limits, s, a, b[..n]);
      assert (a + b)[..|a + b| - 1] == a + b[..n];
    }
  }

  /** A run, state by state. */
  lemma {:induction false} RunIs(limits: Limits, states: seq<State>, acts: seq<Act>)
    requires |states| == |acts| + 1
    requires forall k :: 0 <= k < |acts| ==> Next(limits, states[k], acts[k]) == states[k + 1]
    ensures After(limits, states[0], acts) == states[|acts|]
    decreases |acts|
  {
    hide Next;
    if acts != [] {
      var n := |acts| - 1;
      RunIs(limits, states[..n + 1], acts[..n]);
    }
  }

  /** The steps up to the first request. */
  function Opening(p: Path): seq<Act> {
    [Claim(p), Copy, Ready]
  }

  lemma OpeningIs(limits: Limits, s: State, p: Path)
    ensures After(limits, s, Opening(p)) ==
            Next(limits, Next(limits, Next(limits, s, Claim(p)), Copy), Ready)
  {
    hide Next;
    var claimed := Next(limits, s, Claim(p));
    var prepared := Next(limits, claimed, Copy);
    RunIs(limits, [s, claimed, prepared, Next(limits, prepared, Ready)], Opening(p));
  }

  function DiskWith(one: Bytes, row: Row): Disk {
    Disk(map[1 := one], row)
  }

  const OLD: Bytes := [1, 1, 1, 1, 1, 1]
  const MIXED: Bytes := [1, 1, 1, 2, 2, 2]

  const ASKING_1 := State(DiskWith([], Row(Some(1), 0, None, None, None)), 0, Asking(0, None, None, false, 0, 0))
  const ON_PATH_1 := State(DiskWith(OLD, Row(Some(1), 1, Some(""), Some(6), None)), 0,
                           Writing(FIRST.body, false, 0, 1, 5, Some(6), Some(""), 1))

  lemma Ask1()
    ensures After(EXAMPLE_LIMITS, START, Opening(1)) == ASKING_1
  {
    OpeningIs(EXAMPLE_LIMITS, START, 1);
  }

  lemma Write1()
    ensures After(EXAMPLE_LIMITS, ASKING_1, [Answer(0, FIRST), Piece(1), EndChunk, Piece(5)]) == ON_PATH_1
  {
    var none: Bytes, one: Bytes := [], [1];
    var row, saved := ASKING_1.disk.row, ON_PATH_1.disk.row;
    var work := Writing(FIRST.body, false, 0, 0, 0, Some(6), Some(""), 0);
    var states := [
      ASKING_1,
      State(DiskWith([], row), 0, work),
      State(DiskWith([1], row), 0, work.(done := 1)),
      State(DiskWith([1], saved), 0, work.(k := 1, checkpointAt := 1)),
      ON_PATH_1];
    var acts := [Answer(0, FIRST), Piece(1), EndChunk, Piece(5)];
    assert none + [1] == [1] && FIRST.body[0][0..1] == [1] && FIRST.body[1][0..5] == [1, 1, 1, 1, 1];
    assert one + [1, 1, 1, 1, 1] == OLD;
    RunIs(EXAMPLE_LIMITS, states, acts);
  }

  lemma ToPath1()
    ensures After(EXAMPLE_LIMITS, START, TO_PATH_1) == ON_PATH_1
  {
    hide Next;
    Ask1();
    Write1();
    AfterConcat(EXAMPLE_LIMITS, START, Opening(1), [Answer(0, FIRST), Piece(1), EndChunk, Piece(5)]);
    assert TO_PATH_1 == Opening(1) + [Answer(0, FIRST), Piece(1), EndChunk, Piece(5)];
  }

  function TwoFiles(one: Bytes, two: Bytes, row: Row): Disk {
    Disk(map[1 := one, 2 := two], row)
  }

  const ASKING_2 := State(TwoFiles(OLD, OLD, Row(Some(2), 1, Some(""), Some(6), None)), 0,
                          Asking(1, Some(6), Some(""), false, 0, 1))
  const ON_PATH_2 := State(TwoFiles(OLD, [2, 2, 2], Row(Some(2), 3, Some("b"), Some(6), None)), 1,
                           Writing(SECOND.body, true, 0, 1, 0, Some(6), Some("b"), 3))

  lemma Ask2()
    ensures After(EXAMPLE_LIMITS, ON_PATH_1, Opening(2)) == ASKING_2
  {
    OpeningIs(EXAMPLE_LIMITS, ON_PATH_1, 2);
    var row := Row(Some(2), 1, Some(""), Some(6), None);
    assert Next(EXAMPLE_LIMITS, ON_PATH_1, Claim(2)) == State(DiskWith(OLD, row), 0, Claimed(ON_PATH_1.disk.row));
  }

  lemma Write2()
    ensures After(EXAMPLE_LIMITS, ASKING_2, [Answer(1, SECOND), Piece(3), EndChunk]) == ON_PATH_2
  {
    var none: Bytes := [];
    var row := ASKING_2.disk.row;
    var work := Writing(SECOND.body, true, 0, 0, 0, Some(6), Some("b"), 1);
    var states := [
      ASKING_2,
      State(TwoFiles(OLD, [], row), 1, work),
      State(TwoFiles(OLD, [2, 2, 2], row), 1, work.(done := 3)),
      ON_PATH_2];
    var acts := [Answer(1, SECOND), Piece(3), EndChunk];
    assert OLD[..0] == [] && none + [2, 2, 2] == [2, 2, 2] && SECOND.body[0][0..3] == [2, 2, 2];
    RunIs(EXAMPLE_LIMITS, states, acts);
  }

  lemma ToPath2()
    ensures After(EXAMPLE_LIMITS, ON_PATH_1, TO_PATH_2) == ON_PATH_2
  {
    hide Next;
    Ask2();
    Write2();
    AfterConcat(EXAMPLE_LIMITS, ON_PATH_1, Opening(2), [Answer(1, SECOND), Piece(3), EndChunk]);
    assert TO_PATH_2 == Opening(2) + [Answer(1, SECOND), Piece(3), EndChunk];
  }

  const ASKING_3 := State(TwoFiles(OLD, [2, 2, 2], Row(Some(1), 3, Some("b"), Some(6), None)), 1,
                          Asking(3, Some(6), Some("b"), false, 0, 3))
  const BACK_ON_1 := State(TwoFiles(MIXED, [2, 2, 2], Row(Some(1), 6, Some("b"), Some(6), None)), 1, Finished(MIXED))

  lemma Ask3()
    ensures After(EXAMPLE_LIMITS, ON_PATH_2, Opening(1)) == ASKING_3
  {
    OpeningIs(EXAMPLE_LIMITS, ON_PATH_2, 1);
  }

  lemma Write3()
    ensures After(EXAMPLE_LIMITS, ASKING_3, [Answer(1, THIRD), Piece(3), EndChunk, Finish]) == BACK_ON_1
  {
    var two: Bytes, start: Bytes := [2, 2, 2], [1, 1, 1];
    var row, saved := ASKING_3.disk.row, BACK_ON_1.disk.row;
    var work := Writing(THIRD.body, false, 3, 0, 0, Some(6), Some("b"), 3);
    var states := [
      ASKING_3,
      State(TwoFiles(start, two, row), 1, work),
      State(TwoFiles(MIXED, two, row), 1, work.(done := 3)),
      State(TwoFiles(MIXED, two, saved), 1, work.(k := 1, checkpointAt := 6)),
      BACK_ON_1];
    var acts := [Answer(1, THIRD), Piece(3), EndChunk, Finish];
    assert OLD[..3] == start && start + two == MIXED && THIRD.body[0][0..3] == two;
    RunIs(EXAMPLE_LIMITS, states, acts);
  }

  lemma BackToPath1()
    ensures After(EXAMPLE_LIMITS, ON_PATH_2, BACK).work == Finished(MIXED)
  {
    hide Next;
    Ask3();
    Write3();
    AfterConcat(EXAMPLE_LIMITS, ON_PATH_2, Opening(1), [Answer(1, THIRD), Piece(3), EndChunk, Finish]);
    assert BACK == Opening(1) + [Answer(1, THIRD), Piece(3), EndChunk, Finish];
  }

  lemma ExampleIsHonest()
    ensures Honest(Example(), 0, FIRST) && Honest(Example(), 1, SECOND) && Honest(Example(), 1, THIRD)
  {
    var site := Example();
    FlattenOne([2, 2, 2]);
    assert Flatten(FIRST.body, 1) == Flatten(FIRST.body, 0) + [1] == [1];
    assert Flatten(FIRST.body, 2) == Flatten(FIRST.body, 1) + [1, 1, 1, 1, 1] == site.content(0);
    assert site.content(1)[..3] == [2, 2, 2] && site.content(1)[3..] == [2, 2, 2];
    assert site.content(0)[..6] == site.content(0) && site.content(1)[3..][..3] == [2, 2, 2];
  }

  lemma FlattenOne(chunk: Bytes)
    ensures Flatten([chunk], 1) == chunk
  {
    assert Flatten([chunk], 1) == Flatten([chunk], 0) + chunk == chunk;
  }

  /** A run that returns to a path, from nothing and with an honest server, hashes bytes of no version. */
  lemma ReusedPathMixesVersions()
    ensures var acts := TO_PATH_1 + TO_PATH_2 + BACK;
            && Claims(acts) == [1, 2, 1] && HonestAnswers(Example(), 0, Answers(acts))
            && Hashes(EXAMPLE_LIMITS, acts, MIXED) && forall v :: Example().content(v) != MIXED
  {
    var acts := TO_PATH_1 + TO_PATH_2 + BACK;
    hide After, Claims, Answers, Hashes, Honest;
    ToPath1();
    ToPath2();
    BackToPath1();
    AfterConcat(EXAMPLE_LIMITS, START, TO_PATH_1, TO_PATH_2);
    AfterConcat(EXAMPLE_LIMITS, START, TO_PATH_1 + TO_PATH_2, BACK);
    HashesNow(EXAMPLE_LIMITS, acts);
    Tracks();
    ExampleIsHonest();
    assert MIXED[0] == 1 && MIXED[3] == 2;
  }

  lemma Tracks()
    ensures Claims(TO_PATH_1) == [1] && Claims(TO_PATH_2) == [2] && Claims(BACK) == [1]
    ensures Answers(TO_PATH_1) == [Exchange(0, FIRST)] && Answers(TO_PATH_2) == [Exchange(1, SECOND)]
    ensures Answers(BACK) == [Exchange(1, THIRD)]
  {
    TracksOf(TO_PATH_1);
    TracksOf(TO_PATH_2);
    TracksOf(BACK);
  }

  /** A claim first, an answer fourth, and neither anywhere else. */
  lemma {:induction false} TracksOf(acts: seq<Act>)
    requires |acts| >= 4 && acts[0].Claim? && acts[3].Answer?
    requires forall k :: 0 <= k < |acts| && k != 0 ==> !acts[k].Claim?
    requires forall k :: 0 <= k < |acts| && k != 3 ==> !acts[k].Answer?
    ensures Claims(acts) == [acts[0].path] && Answers(acts) == [Exchange(acts[3].version, acts[3].response)]
    decreases |acts|
  {
    var n := |acts| - 1;
    if n > 3 {
      TracksOf(acts[..n]);
    } else {
      var a, b, c := acts[..3], acts[..2], acts[..1];
      assert acts[..3][..2] == acts[..2] && acts[..2][..1] == acts[..1] && acts[..1][..0] == [];
      assert Claims(c) == [acts[0].path] && Answers(c) == [];
      assert Claims(b) == [acts[0].path] && Answers(b) == [];
      assert Claims(a) == [acts[0].path] && Answers(a) == [];
    }
  }

  /** A 206 without a validator, and a success other than 200 and 206, are written at the resumed offset
      whatever version they come from. */
  lemma UnmarkedAnswersAreAppended(offset: nat, validator: Validator, expected: Option<nat>, maximumBytes: nat,
                                   r: Response)
    requires offset > 0 && Decide(offset, Some(validator), expected, false, maximumBytes, r).Write?
    ensures var plan := Decide(offset, Some(validator), expected, false, maximumBytes, r);
            plan.offset > 0 <==>
              (r.status == 206 && (r.validator.None? || r.validator == Some(validator)))
                || (r.status != 206 && r.status != 200)
  {
  }
}

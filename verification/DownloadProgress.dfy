/** That a download gets on (packages/application-service/src/asset-downloader.ts:192-352): it starts over where it has
    to, and ends with the whole content once the server answers and nothing interrupts it. */
module DownloadProgress {
  import opened Octets
  import opened Options
  import opened AssetDownload
  import opened DownloadSafety

  /** The body is all of the version from some byte on. */
  predicate Whole(site: Site, v: nat, r: Response, from: nat) {
    from <= |site.content(v)| && !r.broken && Flatten(r.body, |r.body|) == site.content(v)[from..]
  }

  /** A proper answer to a request for the bytes of version `v` from `offset` on: all of it, or the bytes asked for, or
      that there are none, whatever the chunks. */
  ghost predicate Proper(site: Site, v: nat, offset: nat, r: Response) {
    && Honest(site, v, r)
    && ((r.status == 200 && Whole(site, v, r, 0))
        || (offset > 0 && r.status == 416)
        || (offset > 0 && r.status == 206 && r.contentRange.Some? && r.contentRange.value.start == offset
            && Whole(site, v, r, offset)))
  }

  /** The answer does not fit the bytes that are there. */
  predicate Misfits(offset: nat, validator: Option<Validator>, r: Response) {
    && offset > 0
    && (r.status == 416
        || (r.status == 206 && r.contentRange.Some? && r.contentRange.value.start == offset
            && validator.Some? && r.validator.Some? && validator != r.validator))
  }

  /** Once, such an answer empties the file, and the same request is made from its beginning. */
  lemma StartsOverOnce(limits: Limits, s: State, v: nat, r: Response)
    requires s.work.Asking? && HasFile(s.disk) && !s.work.restarted && Misfits(s.work.offset, s.work.validator, r)
    ensures var t := Next(limits, s, Answer(v, r));
            && FileOf(t.disk) == [] && t.disk.row == s.disk.row && t.current == v
            && t.work == Asking(0, s.work.expected, s.work.validator, true, s.work.redirects, s.work.checkpointAt)
            && forall p :: p in s.disk.files && s.disk.row.path != Some(p) ==>
                 p in t.disk.files && t.disk.files[p] == s.disk.files[p]
  {
  }

  /** The second time it ends the attempt, and leaves the row as it is. */
  lemma StopsTheSecondTime(limits: Limits, s: State, v: nat, r: Response)
    requires s.work.Asking? && HasFile(s.disk) && s.work.restarted && Misfits(s.work.offset, s.work.validator, r)
    ensures Next(limits, s, Answer(v, r)) == State(s.disk, v, Idle)
  {
  }

  // ----- Writing a whole body -----

  /** The first `k` chunks of a body, each written at once. */
  function Chunks(body: seq<Bytes>, k: nat): seq<Act>
    requires k <= |body|
  {
    if k == 0 then [] else Chunks(body, k - 1) + [Piece(|body[k - 1]|), EndChunk]
  }

  /** Version `v` is written from its start up to chunk `k`. */
  predicate Written(site: Site, v: nat, s: State, body: seq<Bytes>, offset: nat, k: nat) {
    && k <= |body| && HasFile(s.disk) && s.current == v && s.work.Writing?
    && s.work.body == body && !s.work.broken && s.work.offset == offset && s.work.k == k && s.work.done == 0
    && s.work.expected == Some(|site.content(v)|) && offset <= |site.content(v)|
    && Flatten(body, |body|) == site.content(v)[offset..]
    && FileOf(s.disk) == site.content(v)[..offset] + Flatten(body, k)
  }

  lemma TwoActs(limits: Limits, s: State, acts: seq<Act>, a: Act, b: Act)
    ensures After(limits, s, acts + [a, b]) == Next(limits, Next(limits, After(limits, s, acts), a), b)
  {
    hide Next, After;
    AfterAppend(limits, s, acts, a);
    AfterAppend(limits, s, acts + [a], b);
    assert acts + [a, b] == acts + [a] + [b];
  }

  lemma ChunkFits(site: Site, limits: Limits, v: nat, s: State, body: seq<Bytes>, offset: nat, k: nat)
    requires Written(site, v, s, body, offset, k) && k < |body| && Storable(site, limits, v)
    ensures Admits(limits, |FileOf(s.disk)|, body[k], s.work.expected)
  {
    FlattenPrefix(body, k + 1, |body|);
  }

  lemma ChunkWritten(site: Site, limits: Limits, v: nat, s: State, body: seq<Bytes>, offset: nat, k: nat)
    requires Written(site, v, s, body, offset, k) && k < |body| && Storable(site, limits, v)
    ensures Written(site, v, Next(limits, Next(limits, s, Piece(|body[k]|)), EndChunk), body, offset, k + 1)
  {
    ChunkFits(site, limits, v, s, body, offset, k);
    hide Next, Admits;
    PieceStep(limits, s, |body[k]|);
    var t := Next(limits, s, Piece(|body[k]|));
    assert body[k][0..|body[k]|] == body[k];
    ChunkEnds(limits, t);
    assert Flatten(body, k + 1) == Flatten(body, k) + body[k];
    assert FileOf(t.disk) == site.content(v)[..offset] + (Flatten(body, k) + body[k]);
  }

  lemma {:induction false} ChunksWritten(site: Site, limits: Limits, v: nat, s: State, body: seq<Bytes>, offset: nat,
                                         k: nat)
    requires Written(site, v, s, body, offset, 0) && k <= |body| && Storable(site, limits, v)
    ensures Written(site, v, After(limits, s, Chunks(body, k)), body, offset, k)
  {
    hide Next, Written, Flatten;
    if k > 0 {
      ChunksWritten(site, limits, v, s, body, offset, k - 1);
      TwoActs(limits, s, Chunks(body, k - 1), Piece(|body[k - 1]|), EndChunk);
      ChunkWritten(site, limits, v, After(limits, s, Chunks(body, k - 1)), body, offset, k - 1);
    }
  }

  lemma BodyFinishes(site: Site, limits: Limits, v: nat, s: State, body: seq<Bytes>, offset: nat)
    requires Written(site, v, s, body, offset, 0) && Storable(site, limits, v)
    ensures var t := After(limits, s, Chunks(body, |body|) + [Finish]);
            t.work == Finished(site.content(v)) && t.current == v
  {
    ChunksWritten(site, limits, v, s, body, offset, |body|);
    AfterAppend(limits, s, Chunks(body, |body|), Finish);
    var u := After(limits, s, Chunks(body, |body|));
    hide After, Next;
    assert FileOf(u.disk) == site.content(v);
    FinishStep(limits, u);
  }

  // ----- One answer -----

  /** A proper answer that fits is written. */
  lemma FittingIsWritten(site: Site, limits: Limits, s: State, v: nat, r: Response)
    requires Sound(site, limits, s) && s.work.Asking? && (s.work.restarted ==> s.work.offset == 0) && s.current <= v
    requires Storable(site, limits, v) && Proper(site, v, s.work.offset, r)
    requires !Misfits(s.work.offset, s.work.validator, r)
    ensures var from := if r.status == 206 then s.work.offset else 0;
            Written(site, v, Next(limits, s, Answer(v, r)), r.body, from, 0)
  {
    var w, file := s.work, FileOf(s.disk);
    var plan := Decide(w.offset, w.validator, w.expected, w.restarted, limits.maximumBytes, r);
    PlanForFitting(site, limits, s, v, r);
    PlanIsSound(site, limits, s.current, v, file, w.offset, w.validator, w.expected, w.restarted, r);
    hide Honest, Decide, Recoverable, Resumable;
    AnswerStep(limits, s, v, r);
    var from := if r.status == 206 then w.offset else 0;
    assert site.content(v)[0..] == site.content(v);
    assert file[..from] == site.content(v)[..from] + Flatten(r.body, 0);
  }

  lemma PlanForFitting(site: Site, limits: Limits, s: State, v: nat, r: Response)
    requires Sound(site, limits, s) && s.work.Asking? && (s.work.restarted ==> s.work.offset == 0) && s.current <= v
    requires Storable(site, limits, v) && Proper(site, v, s.work.offset, r)
    requires !Misfits(s.work.offset, s.work.validator, r)
    ensures var w := s.work;
            var plan := Decide(w.offset, w.validator, w.expected, w.restarted, limits.maximumBytes, r);
            plan.Write? && plan.offset == if r.status == 206 then w.offset else 0
  {
    hide Flatten, Recoverable, PrefixOf;
  }

  /** The steps from an answer to the end of its body. */
  function Through(v: nat, r: Response): seq<Act> {
    [Answer(v, r)] + (Chunks(r.body, |r.body|) + [Finish])
  }

  lemma FittingFinishes(site: Site, limits: Limits, s: State, v: nat, r: Response)
    requires Sound(site, limits, s) && s.work.Asking? && (s.work.restarted ==> s.work.offset == 0) && s.current <= v
    requires Storable(site, limits, v) && Proper(site, v, s.work.offset, r)
    requires !Misfits(s.work.offset, s.work.validator, r)
    ensures var t := After(limits, s, Through(v, r)); t.work == Finished(site.content(v)) && t.current == v
  {
    var t := Next(limits, s, Answer(v, r));
    FittingIsWritten(site, limits, s, v, r);
    hide Next, Written, Sound, Proper, Misfits;
    BodyFinishes(site, limits, v, t, r.body, if r.status == 206 then s.work.offset else 0);
    AfterConcat(limits, s, [Answer(v, r)], Chunks(r.body, |r.body|) + [Finish]);
    FirstAct(limits, s, Answer(v, r));
  }

  /** From any sound state of an attempt, the proper answer to its request, and once more if it has to start over, end
      with the whole content of the version served, whatever that is, as long as it may be stored. */
  lemma AskingFinishes(site: Site, limits: Limits, s: State, v: nat, r: Response, again: Response)
    requires Sound(site, limits, s) && s.work.Asking? && (s.work.restarted ==> s.work.offset == 0) && s.current <= v
    requires Storable(site, limits, v) && Proper(site, v, s.work.offset, r) && Proper(site, v, 0, again)
    ensures var acts := if Misfits(s.work.offset, s.work.validator, r) then [Answer(v, r)] + Through(v, again)
                        else Through(v, r);
            var t := After(limits, s, acts);
            t.work == Finished(site.content(v)) && t.current == v
  {
    if Misfits(s.work.offset, s.work.validator, r) {
      var t := Next(limits, s, Answer(v, r));
      StartsOverOnce(limits, s, v, r);
      ProperIsHonest(site, v, s.work.offset, r);
      AnswerKeeps(site, limits, s, v, r);
      hide Next, Sound, Proper;
      FittingFinishes(site, limits, t, v, again);
      AfterConcat(limits, s, [Answer(v, r)], Through(v, again));
      FirstAct(limits, s, Answer(v, r));
    } else {
      FittingFinishes(site, limits, s, v, r);
    }
  }

  lemma ProperIsHonest(site: Site, v: nat, offset: nat, r: Response)
    requires Proper(site, v, offset, r)
    ensures Honest(site, v, r)
  {
  }

  // ----- One attempt -----

  /** What a claim asks for, once the partial file is prepared. */
  function Asked(limits: Limits, s: State, p: Path): State {
    After(limits, s, Opening(p))
  }

  lemma OpeningAsks(site: Site, limits: Limits, s: State, p: Path)
    requires Sound(site, limits, s) && SafeClaim(site, limits, s.current, s.disk, p)
    ensures var t := Asked(limits, s, p);
            && Sound(site, limits, t) && t.current == s.current
            && t.work.Asking? && !t.work.restarted && t.work.redirects == 0
  {
    OpeningIs(limits, s, p);
    SafeClaimKeeps(site, limits, s, p);
    var claimed := Next(limits, s, Claim(p));
    PrepareKeeps(site, limits, claimed);
    var prepared := Next(limits, claimed, Copy);
    ReadyKeeps(site, limits, prepared);
    ClaimAsks(limits, s, p);
  }

  lemma ClaimAsks(limits: Limits, s: State, p: Path)
    ensures var t := Next(limits, Next(limits, Next(limits, s, Claim(p)), Copy), Ready);
            t.work.Asking? && !t.work.restarted && t.work.redirects == 0 && t.current == s.current
  {
    hide InitialOffset;
  }

  /** Whatever crashes and failures came before: an attempt under a safe claim that is not interrupted and is answered
      properly, at most twice, ends with the whole content of the version served. */
  lemma AttemptFinishes(site: Site, limits: Limits, s: State, p: Path, v: nat, r: Response, again: Response)
    returns (acts: seq<Act>)
    requires Sound(site, limits, s) && SafeClaim(site, limits, s.current, s.disk, p) && s.current <= v
    requires Storable(site, limits, v) && Proper(site, v, 0, again)
    requires Asked(limits, s, p).work.Asking? ==> Proper(site, v, Asked(limits, s, p).work.offset, r)
    ensures var asked := Asked(limits, s, p);
            && asked.work.Asking?
            && acts == Opening(p) + if Misfits(asked.work.offset, asked.work.validator, r)
                                    then [Answer(v, r)] + Through(v, again) else Through(v, r)
    ensures After(limits, s, acts).work == Finished(site.content(v))
  {
    var asked := Asked(limits, s, p);
    OpeningAsks(site, limits, s, p);
    hide Next, Sound, Proper, SafeClaim, Through, Misfits;
    AskingFinishes(site, limits, asked, v, r, again);
    var rest := if Misfits(asked.work.offset, asked.work.validator, r) then [Answer(v, r)] + Through(v, again)
                else Through(v, r);
    acts := Opening(p) + rest;
    AfterConcat(limits, s, Opening(p), rest);
  }

  // ----- What the code answers -----

  /** Nothing goes wrong as a body is written that is all of the rest. */
  lemma {:induction false} NothingWrong(limits: Limits, body: seq<Bytes>, k: nat, offset: nat, total: nat)
    requires k <= |body| && offset + |Flatten(body, |body|)| == total <= limits.maximumBytes
    ensures BodyFailure(limits, offset + |Flatten(body, k)|, body, k, Some(total), false) == None
    decreases |body| - k
  {
    if k < |body| {
      FlattenPrefix(body, k + 1, |body|);
      NothingWrong(limits, body, k + 1, offset, total);
    }
  }

  lemma FittingIsHashed(site: Site, limits: Limits, s: State, v: nat, r: Response)
    requires Sound(site, limits, s) && s.work.Asking? && (s.work.restarted ==> s.work.offset == 0) && s.current <= v
    requires Storable(site, limits, v) && Proper(site, v, s.work.offset, r)
    requires !Misfits(s.work.offset, s.work.validator, r)
    ensures HasFile(s.disk) && !Redirects(r) && Verdict(limits, s, r) == Some(Hashed(site.content(v)))
  {
    PlanForFitting(site, limits, s, v, r);
    FittingIsWritten(site, limits, s, v, r);
    AnswerStep(limits, s, v, r);
    var from := if r.status == 206 then s.work.offset else 0;
    assert Flatten(r.body, 0) == [];
    NothingWrong(limits, r.body, 0, from, |site.content(v)|);
    hide Honest, Decide, Recoverable, Resumable, Flatten, BodyFailure, Sound, WorkSound;
    var w, file, t := s.work, FileOf(s.disk), Next(limits, s, Answer(v, r));
    var plan := Decide(w.offset, w.validator, w.expected, w.restarted, limits.maximumBytes, r);
    assert t.work.expected == plan.expected;
    assert FileOf(t.disk) == if from <= |file| then file[..from] else file;
    assert site.content(v)[..from] + site.content(v)[from..] == site.content(v);
  }

  /** However a download came to where it asks: with the proper answer first, and another if it has to start over, what
      the code hashes is the content of the version served. */
  lemma OutcomeIsTheContent(site: Site, limits: Limits, s: State, v: nat, r: Response, again: Response,
                            rest: seq<Exchange>)
    requires Sound(site, limits, s) && s.work.Asking? && (s.work.restarted ==> s.work.offset == 0) && s.current <= v
    requires Storable(site, limits, v) && Proper(site, v, s.work.offset, r) && Proper(site, v, 0, again)
    ensures var script := if Misfits(s.work.offset, s.work.validator, r) then [Exchange(v, r), Exchange(v, again)]
                          else [Exchange(v, r)];
            HasFile(s.disk) && Outcome(limits, s, script + rest) == Hashed(site.content(v))
  {
    if Misfits(s.work.offset, s.work.validator, r) {
      var t := Next(limits, s, Answer(v, r));
      StartsOverOnce(limits, s, v, r);
      ProperIsHonest(site, v, s.work.offset, r);
      AnswerKeeps(site, limits, s, v, r);
      assert !Misfits(0, t.work.validator, again);
      FittingIsHashed(site, limits, t, v, again);
      var script := [Exchange(v, r), Exchange(v, again)] + rest;
      assert script[0] == Exchange(v, r) && script[1..] == [Exchange(v, again)] + rest;
      assert script[1..][0] == Exchange(v, again);
      OutcomeOfFirst(limits, t, script[1..]);
      hide Next, Sound, Proper, Verdict;
      OutcomeOfMisfit(limits, s, script);
    } else {
      FittingIsHashed(site, limits, s, v, r);
      var script := [Exchange(v, r)] + rest;
      assert script[0] == Exchange(v, r);
      OutcomeOfFirst(limits, s, script);
    }
  }

  lemma OutcomeOfFirst(limits: Limits, s: State, script: seq<Exchange>)
    requires s.work.Asking? && HasFile(s.disk) && script != [] && !Redirects(script[0].response)
    requires Verdict(limits, s, script[0].response).Some?
    ensures Outcome(limits, s, script) == Verdict(limits, s, script[0].response).value
  {
  }

  lemma OutcomeOfMisfit(limits: Limits, s: State, script: seq<Exchange>)
    requires s.work.Asking? && HasFile(s.disk) && !s.work.restarted && script != []
    requires Misfits(s.work.offset, s.work.validator, script[0].response)
    ensures var t := Next(limits, s, Answer(script[0].version, script[0].response));
            t.work.Asking? && HasFile(t.disk) && Outcome(limits, s, script) == Outcome(limits, t, script[1..])
  {
    StartsOverOnce(limits, s, script[0].version, script[0].response);
    hide Next;
  }

  /** Whatever crashes and failures came before: an attempt under a safe claim hashes the content of the version served,
      if its request is answered properly, and once more if it has to start over. */
  lemma AttemptHashesTheContent(site: Site, limits: Limits, s: State, p: Path, v: nat, r: Response, again: Response,
                                rest: seq<Exchange>)
    requires Sound(site, limits, s) && SafeClaim(site, limits, s.current, s.disk, p) && s.current <= v
    requires Storable(site, limits, v) && Proper(site, v, 0, again)
    requires Opened(limits, s, p).work.Asking? ==> Proper(site, v, Opened(limits, s, p).work.offset, r)
    ensures var asked := Opened(limits, s, p);
            && asked.work.Asking? && HasFile(asked.disk)
            && var script := if Misfits(asked.work.offset, asked.work.validator, r)
                             then [Exchange(v, r), Exchange(v, again)] else [Exchange(v, r)];
               Outcome(limits, asked, script + rest) == Hashed(site.content(v))
  {
    OpeningAsks(site, limits, s, p);
    OpeningIs(limits, s, p);
    hide Next, Sound, Proper, SafeClaim, Misfits;
    OutcomeIsTheContent(site, limits, Opened(limits, s, p), v, r, again, rest);
  }

  /** A claim that stays on its path, or takes an unused one, goes on with the file there is: the same bytes under
      the new path, and the offset that the row allows for them. */
  lemma ResumesAcrossClaims(limits: Limits, s: State, p: Path)
    requires HasFile(s.disk) && s.disk.row.resumeOffset > 0
    requires s.disk.row.path == Some(p) || p !in s.disk.files
    ensures var t := Asked(limits, s, p);
            var file := FileOf(s.disk);
            && t.work.Asking? && t.disk.row == s.disk.row.(path := Some(p)) && HasFile(t.disk)
            && t.work.offset == InitialOffset(|file|, s.disk.row)
            && t.work.expected == s.disk.row.expected && t.work.validator == s.disk.row.validator
            && (t.work.offset > 0 ==> FileOf(t.disk) == file)
  {
    OpeningIs(limits, s, p);
    var file := FileOf(s.disk);
    var claimed := Next(limits, s, Claim(p));
    var prepared := Next(limits, claimed, Copy);
    assert prepared.work.Prepared? && HasFile(prepared.disk) && FileOf(prepared.disk) == file;
    hide DecideResume, InitialOffset;
  }

  // ----- Redirects and sizes -----

  /** Up to twenty redirects are followed, whatever is asked for; the next one ends the attempt. */
  lemma {:induction false} RedirectsAreFollowed(limits: Limits, s: State, acts: seq<Act>)
    requires s.work.Asking? && HasFile(s.disk) && s.work.redirects == 0
    requires forall k :: 0 <= k < |acts| ==> acts[k].Answer? && Redirects(acts[k].response)
    ensures var t := After(limits, s, acts);
            && t.disk == s.disk
            && t.work == if |acts| <= 20 then s.work.(redirects := |acts|) else Idle
  {
    hide Decide;
    if acts != [] {
      var n := |acts| - 1;
      RedirectsAreFollowed(limits, s, acts[..n]);
      var a, before := acts[n], After(limits, s, acts[..n]);
      if before.work.Asking? {
        RedirectStep(limits, before, a.version, a.response);
      }
    }
  }

  /** What declares more bytes than may be stored is refused before a byte is written. */
  lemma TooLargeIsRefused(limits: Limits, s: State, v: nat, r: Response)
    requires s.work.Asking? && HasFile(s.disk) && s.work.offset == 0 && r.status == 200
    requires r.contentLength.Some? && r.contentLength.value > limits.maximumBytes
    ensures Next(limits, s, Answer(v, r)) == State(s.disk, v, Idle)
  {
  }

  /** How long an answer says that the whole content is. */
  function Declared(offset: nat, expected: Option<nat>, r: Response): Option<nat> {
    var total := if r.status == 206 && r.contentRange.Some? then r.contentRange.value.total else None;
    var from := if r.status == 200 then 0 else offset;
    if total.Some? then total
    else if r.status == 206 && offset > 0 && expected.Some? then expected
    else if r.contentLength.Some? then Some(from + r.contentLength.value)
    else if r.status == 206 || (r.status == 200 && offset > 0) then None
    else expected
  }

  /** What is wrong with an answer, by its fields. */
  lemma FailsExactly(offset: nat, validator: Option<Validator>, expected: Option<nat>, restarted: bool,
                     maximumBytes: nat, r: Response)
    ensures var plan := Decide(offset, validator, expected, restarted, maximumBytes, r);
            var success := 200 <= r.status < 300;
            var fits := r.contentRange.Some? && r.contentRange.value.start == offset;
            var changed := offset > 0 && r.status == 206 && fits
                           && validator.Some? && r.validator.Some? && validator.value != r.validator.value;
            && (plan == Fail(NetworkFailed) <==> !success && r.status != 416)
            && (plan == Fail(RangeInvalid) <==>
                  || (r.status == 416 && (offset == 0 || restarted))
                  || (r.status == 206 && !fits)
                  || (r.status == 200 && offset > 0 && restarted))
            && (plan == Fail(ValidatorChanged) <==> changed && restarted)
            && (plan == Again <==> !restarted && (changed || (r.status == 416 && offset > 0)))
            && (plan == Fail(MaximumSizeExceeded) <==>
                  && success && !changed && (r.status == 206 ==> fits) && !(r.status == 200 && offset > 0 && restarted)
                  && Declared(offset, expected, r).Some? && Declared(offset, expected, r).value > maximumBytes)
            && (plan.Write? ==> plan.expected == Declared(offset, expected, r))
  {
  }

  // ----- What a crash can cost -----

  /** A download goes on from the saved offset exactly when the file still has the bytes, is not longer than expected,
      and has a validator; otherwise it begins at zero. */
  lemma ResumesExactly(localBytes: nat, row: Row)
    requires row.resumeOffset > 0
    ensures InitialOffset(localBytes, row) ==
      if row.resumeOffset <= localBytes && row.validator.Some?
         && (row.expected.Some? ==> localBytes <= row.expected.value)
      then row.resumeOffset else 0
  {
  }

  /** What is written is saved, but for less than a checkpoint interval and the chunk that is being written. */
  predicate SavedUpTo(limits: Limits, s: State) {
    var w, row := s.work, s.disk.row;
    match w
    case Asking(offset, _, _, _, _, checkpointAt) => offset <= row.resumeOffset && checkpointAt <= row.resumeOffset
    case Writing(body, _, _, k, done, _, _, checkpointAt) =>
      && HasFile(s.disk) && checkpointAt <= row.resumeOffset && k <= |body|
      && (if k < |body| then done <= |body[k]| else done == 0)
      && |FileOf(s.disk)| < row.resumeOffset + limits.checkpointInterval + done
    case Finished(bytes) => row.resumeOffset == |bytes| <= limits.maximumBytes
    case _ => true
  }

  lemma NextKeepsSaved(limits: Limits, s: State, a: Act)
    requires limits.checkpointInterval >= 1 && SavedUpTo(limits, s)
    ensures SavedUpTo(limits, Next(limits, s, a))
  {
    if a.Answer? && s.work.Asking? && HasFile(s.disk) {
      var w := s.work;
      PlanOffsets(w.offset, w.validator, w.expected, w.restarted, limits.maximumBytes, a.response);
    }
    hide Decide, DecideResume;
  }

  /** Over every run, whatever the server and the claims: the bytes written since the last checkpoint, which a crash
      may cost, are fewer than the checkpoint interval and the chunk that is being written. */
  lemma {:induction false} LossIsBounded(limits: Limits, acts: seq<Act>)
    requires limits.checkpointInterval >= 1
    ensures SavedUpTo(limits, After(limits, START, acts))
  {
    hide Next, SavedUpTo;
    if acts == [] {
      NothingToSave(limits);
    } else {
      LossIsBounded(limits, acts[..|acts| - 1]);
      NextKeepsSaved(limits, After(limits, START, acts[..|acts| - 1]), acts[|acts| - 1]);
    }
  }

  lemma NothingToSave(limits: Limits)
    ensures SavedUpTo(limits, START)
  {
  }
}

/** Asset sources, claims and content rows of the project database
    (packages/persistence-sqlite/src/assets.ts:176-375; tables at packages/persistence-sqlite/src/migrations.ts:282-306
    and 664-711). Every operation is one transaction: a refused one leaves the database as it was. The unique
    indexes make the active lease of a job and the content of a digest keys of maps. */
module AssetClaims {
  import opened Options

  type Id = string
  type Digest = string

  datatype Lease = Lease(run: Id, owner: Id, tokenHash: Digest, generation: nat, expiresAt: int)
  datatype Job = Job(run: Id, generation: nat)

  /** What a worker presents with every request. */
  datatype Holder = Holder(run: Id, job: Id, owner: Id, tokenHash: Digest, generation: nat)

  datatype SourceState = Pending | Downloading | Interrupted | Completed | Failed

  /** `temp/assets/<source>.<generation>.part` and `assets/objects/sha256/../<digest>`. */
  datatype Path = PartialPath(source: Id, fencing: nat) | ContentPath(digest: Digest)

  datatype Source = Source(
    run: Id, url: string, identityHash: Digest, assetType: string,
    state: SourceState, claimJob: Option<Id>, claimedBy: Option<Id>, generation: nat,
    partialPath: Option<Path>, resumeOffset: int, expected: Option<int>, validator: Option<string>,
    contentId: Option<Id>, sha256: Option<Digest>, byteLength: Option<int>, storagePath: Option<Path>)

  datatype Content = Content(contentId: Id, byteLength: int, storagePath: Path)

  datatype Database = Database(
    runs: set<Id>,
    jobs: map<Id, Job>,
    leases: map<Id, Lease>,            // the active lease of each job
    sources: map<Id, Source>,
    contents: map<Digest, Content>)

  datatype Failure =
    | NotFound
    | LeaseInvalid
    | StaleGeneration
    | AlreadyInProgress
    | InputInvalid
    | ContentConflict
    | PersistenceFailed
  datatype Outcome = Accepted | Refused(failure: Failure)

  // ----- Who may write -----

  predicate Owns(db: Database, holder: Holder) {
    && holder.run in db.runs
    && holder.job in db.leases && db.leases[holder.job].run == holder.run
    && db.leases[holder.job].tokenHash == holder.tokenHash && db.leases[holder.job].owner == holder.owner
    && db.leases[holder.job].generation == holder.generation
    && holder.job in db.jobs && db.jobs[holder.job].run == holder.run
         && db.jobs[holder.job].generation == holder.generation
  }

  /** The job has an active lease that has not expired. */
  predicate Live(db: Database, job: Id, now: int) {
    job in db.leases && now < db.leases[job].expiresAt
  }

  /** The source row carries the holder's claim. */
  predicate ClaimedBy(row: Source, holder: Holder) {
    row.claimJob == Some(holder.job) && row.claimedBy == Some(holder.owner) && row.generation == holder.generation
  }

  predicate Found(db: Database, run: Id, source: Id) {
    source in db.sources && db.sources[source].run == run
  }

  /** What allows a write: the current claim, under the active unexpired lease of the job's current generation. */
  predicate Held(db: Database, holder: Holder, source: Id, now: int) {
    Owns(db, holder) && Live(db, holder.job, now) && Found(db, holder.run, source)
      && ClaimedBy(db.sources[source], holder)
  }

  function LeaseFailure(db: Database, holder: Holder, now: int): Option<Failure> {
    if holder.run !in db.runs then Some(NotFound)
    else if holder.job !in db.leases || db.leases[holder.job].run != holder.run then Some(LeaseInvalid)
    else
      var lease := db.leases[holder.job];
      if holder.tokenHash != lease.tokenHash || holder.owner != lease.owner then Some(LeaseInvalid)
      else if holder.generation != lease.generation then Some(StaleGeneration)
      else if holder.job !in db.jobs || db.jobs[holder.job].run != holder.run then Some(NotFound)
      else if db.jobs[holder.job].generation != holder.generation then Some(StaleGeneration)
      else if lease.expiresAt <= now then Some(LeaseInvalid)
      else None
  }

  lemma NoLeaseFailure(db: Database, holder: Holder, now: int)
    ensures LeaseFailure(db, holder, now).None? <==> Owns(db, holder) && Live(db, holder.job, now)
  {
  }

  function ClaimFailure(db: Database, holder: Holder, source: Id, now: int): Option<Failure> {
    var lease := LeaseFailure(db, holder, now);
    if lease.Some? then lease
    else if !Found(db, holder.run, source) then Some(NotFound)
    else if !ClaimedBy(db.sources[source], holder) then Some(StaleGeneration)
    else None
  }

  // ----- The requests -----

  datatype Progress = Progress(path: Path, bytesWritten: int, resumeOffset: int, expected: Option<int>,
                               validator: Option<string>)

  predicate ValidProgress(p: Progress, holder: Holder, source: Id) {
    && p.path == PartialPath(source, holder.generation)
    && 0 <= p.resumeOffset <= p.bytesWritten
    && (p.expected.Some? ==> p.bytesWritten <= p.expected.value)
  }

  /** A request, with the clock readings its transaction takes. The last five belong to the job queue. */
  datatype Request =
    | Ensure(run: Id, job: Id, url: string, identityHash: Digest, assetType: string, freshId: Id)
    | Begin(holder: Holder, source: Id, now: int, later: int)
    | Save(holder: Holder, source: Id, progress: Progress, now: int)
    | Finalize(holder: Holder, source: Id, sha256: Digest, byteLength: int, wellFormed: bool, freshId: Id, now: int)
    | Interrupt(holder: Holder, source: Id, wellFormed: bool, now: int)
    | AddRun(run: Id)
    | AddJob(run: Id, job: Id)
    | AcquireLease(job: Id, owner: Id, tokenHash: Digest, expiresAt: int)
    | RenewLease(job: Id, expiresAt: int)
    | EndLease(job: Id)

  predicate Registered(db: Database, run: Id, url: string) {
    exists s :: s in db.sources && db.sources[s].run == run && db.sources[s].url == url
  }

  predicate Agreeing(db: Database, run: Id, url: string, identityHash: Digest, assetType: string) {
    forall s :: s in db.sources && db.sources[s].run == run && db.sources[s].url == url ==>
      db.sources[s].identityHash == identityHash && db.sources[s].assetType == assetType
  }

  /** The path of a source's description is unique in the project, and names only its type and identity. */
  predicate PathTaken(db: Database, identityHash: Digest, assetType: string) {
    exists s :: s in db.sources && db.sources[s].identityHash == identityHash && db.sources[s].assetType == assetType
  }

  predicate IdTaken(db: Database, contentId: Id) {
    exists d :: d in db.contents && db.contents[d].contentId == contentId
  }

  function NewSource(run: Id, url: string, identityHash: Digest, assetType: string): Source {
    Source(run, url, identityHash, assetType, Pending, None, None, 0, None, 0, None, None, None, None, None, None)
  }

  function EnsureStep(db: Database, run: Id, job: Id, url: string, identityHash: Digest, assetType: string,
                      freshId: Id): (Outcome, Database) {
    if run !in db.runs || job !in db.jobs || db.jobs[job].run != run then (Refused(NotFound), db)
    else if Registered(db, run, url) then
      (if Agreeing(db, run, url, identityHash, assetType) then Accepted else Refused(ContentConflict), db)
    else if freshId in db.sources || PathTaken(db, identityHash, assetType) then (Refused(PersistenceFailed), db)
    else (Accepted, db.(sources := db.sources[freshId := NewSource(run, url, identityHash, assetType)]))
  }

  function BeginStep(db: Database, holder: Holder, source: Id, now: int, later: int): (Outcome, Database) {
    if !Found(db, holder.run, source) then (Refused(NotFound), db)
    else
      var row := db.sources[source];
      if row.state == Completed || (row.state == Downloading && ClaimedBy(row, holder)) then (Accepted, db)
      else if LeaseFailure(db, holder, now).Some? then (Refused(LeaseFailure(db, holder, now).value), db)
      else if row.state == Downloading && row.claimJob.Some? && Live(db, row.claimJob.value, later) then
        (Refused(AlreadyInProgress), db)
      else
        (Accepted, db.(sources := db.sources[source := row.(
          state := Downloading, claimJob := Some(holder.job), claimedBy := Some(holder.owner),
          generation := holder.generation,
          partialPath := Some(PartialPath(source, holder.generation)))]))
  }

  function SaveStep(db: Database, holder: Holder, source: Id, p: Progress, now: int): (Outcome, Database) {
    var failure := ClaimFailure(db, holder, source, now);
    if failure.Some? then (Refused(failure.value), db)
    else if !ValidProgress(p, holder, source) then (Refused(InputInvalid), db)
    else
      (Accepted, db.(sources := db.sources[source := db.sources[source].(
        resumeOffset := p.resumeOffset, expected := p.expected, validator := p.validator)]))
  }

  function FinalizeStep(db: Database, holder: Holder, source: Id, sha256: Digest, byteLength: int, wellFormed: bool,
                        freshId: Id, now: int):
    (Outcome, Database)
  {
    var failure := ClaimFailure(db, holder, source, now);
    var path := ContentPath(sha256);
    if failure.Some? then (Refused(failure.value), db)
    else if !wellFormed || byteLength < 0 then (Refused(InputInvalid), db)
    else if sha256 !in db.contents && IdTaken(db, freshId) then (Refused(ContentConflict), db)
    else if sha256 in db.contents && (db.contents[sha256].byteLength != byteLength
                                      || db.contents[sha256].storagePath != path) then
      (Refused(ContentConflict), db)
    else
      var contents := if sha256 in db.contents then db.contents
        else db.contents[sha256 := Content(freshId, byteLength, path)];
      var row := db.sources[source].(
        state := Completed, byteLength := Some(byteLength), sha256 := Some(sha256),
        contentId := Some(contents[sha256].contentId),
        storagePath := Some(path), resumeOffset := byteLength, partialPath := None, claimJob := None,
        claimedBy := None);
      (Accepted, db.(sources := db.sources[source := row], contents := contents))
  }

  function InterruptStep(db: Database, holder: Holder, source: Id, wellFormed: bool, now: int): (Outcome, Database) {
    var failure := ClaimFailure(db, holder, source, now);
    if failure.Some? then (Refused(failure.value), db)
    else if !wellFormed then (Refused(InputInvalid), db)
    else
      (Accepted, db.(sources := db.sources[source := db.sources[source].(
        state := Interrupted, claimJob := None, claimedBy := None)]))
  }

  /** Taking a lease advances the generation of its job (packages/persistence-sqlite/src/recovery.ts:350-368). */
  function QueueStep(db: Database, r: Request): (Outcome, Database)
    requires r.AddRun? || r.AddJob? || r.AcquireLease? || r.RenewLease? || r.EndLease?
  {
    match r
    case AddRun(run) => (Accepted, db.(runs := db.runs + {run}))
    case AddJob(run, job) =>
      if run !in db.runs || job in db.jobs then (Refused(NotFound), db)
      else (Accepted, db.(jobs := db.jobs[job := Job(run, 0)]))
    case AcquireLease(job, owner, tokenHash, expiresAt) =>
      if job !in db.jobs || job in db.leases then (Refused(LeaseInvalid), db)
      else
        var next := db.jobs[job].(generation := db.jobs[job].generation + 1);
        (Accepted, db.(jobs := db.jobs[job := next],
                       leases := db.leases[job := Lease(next.run, owner, tokenHash, next.generation, expiresAt)]))
    case RenewLease(job, expiresAt) =>
      if job !in db.leases then (Refused(LeaseInvalid), db)
      else (Accepted, db.(leases := db.leases[job := db.leases[job].(expiresAt := expiresAt)]))
    case EndLease(job) => (Accepted, db.(leases := db.leases - {job}))
  }

  function Next(db: Database, r: Request): (Outcome, Database) {
    match r
    case Ensure(run, job, url, identityHash, assetType, freshId) =>
      EnsureStep(db, run, job, url, identityHash, assetType, freshId)
    case Begin(holder, source, now, later) => BeginStep(db, holder, source, now, later)
    case Save(holder, source, progress, now) => SaveStep(db, holder, source, progress, now)
    case Finalize(holder, source, sha256, byteLength, wellFormed, freshId, now) =>
      FinalizeStep(db, holder, source, sha256, byteLength, wellFormed, freshId, now)
    case Interrupt(holder, source, wellFormed, now) => InterruptStep(db, holder, source, wellFormed, now)
    case _ => QueueStep(db, r)
  }

  /** The database after the first `n` requests. */
  function After(db: Database, rs: seq<Request>, n: nat): Database
    requires n <= |rs|
  {
    if n == 0 then db else Next(After(db, rs, n - 1), rs[n - 1]).1
  }

  predicate AcceptedAt(db: Database, rs: seq<Request>, k: nat)
    requires k < |rs|
  {
    Next(After(db, rs, k), rs[k]).0.Accepted?
  }

  // ----- What every request keeps -----

  /** A source is being downloaded exactly when it has a claim, whose partial file is its own; a completed
      source agrees with its content row on digest, length and path. */
  predicate ConsistentRow(db: Database, s: Id)
    requires s in db.sources
  {
    var row := db.sources[s];
    && (row.state == Downloading <==> row.claimJob.Some?) && (row.claimJob.Some? <==> row.claimedBy.Some?)
    && (row.state == Downloading ==> row.partialPath == Some(PartialPath(s, row.generation)) && 0 < row.generation)
    && (row.state == Completed <==> row.sha256.Some?)
    && (row.state == Completed ==> row.sha256.value in db.contents && Describes(db.contents[row.sha256.value], row))
  }

  predicate Describes(content: Content, row: Source) {
    && row.contentId == Some(content.contentId) && row.byteLength == Some(content.byteLength)
    && row.storagePath == Some(content.storagePath)
  }

  predicate Consistent(db: Database) {
    && (forall s :: s in db.sources ==> ConsistentRow(db, s))
    && (forall d :: d in db.contents ==> db.contents[d].storagePath == ContentPath(d) && 0 <= db.contents[d].byteLength)
    && (forall d, e :: d in db.contents && e in db.contents && db.contents[d].contentId == db.contents[e].contentId ==>
          d == e)
    && (forall s, t ::
          (s in db.sources && t in db.sources
           && db.sources[s].run == db.sources[t].run && db.sources[s].url == db.sources[t].url) ==>
            s == t)
    && (forall j :: j in db.leases ==> j in db.jobs && 0 < db.leases[j].generation <= db.jobs[j].generation)
  }

  const EMPTY := Database({}, map[], map[], map[], map[])

  /** A row may be rewritten, with content rows added, as long as it stays consistent and keeps its place. */
  lemma UpdatedRowConsistent(db: Database, s: Id, row: Source, contents: map<Digest, Content>)
    requires Consistent(db) && s in db.sources && row.run == db.sources[s].run && row.url == db.sources[s].url
    requires var after := db.(sources := db.sources[s := row], contents := contents); ConsistentRow(after, s)
    requires forall d :: d in db.contents ==> d in contents && contents[d] == db.contents[d]
    requires forall d :: d in contents ==> contents[d].storagePath == ContentPath(d) && 0 <= contents[d].byteLength
    requires forall d, e :: d in contents && e in contents && contents[d].contentId == contents[e].contentId ==> d == e
    ensures Consistent(db.(sources := db.sources[s := row], contents := contents))
  {
    var after := db.(sources := db.sources[s := row], contents := contents);
    forall t | t in after.sources ensures ConsistentRow(after, t) {
      assert t in db.sources && ConsistentRow(db, t);
    }
  }

  lemma EnsureKeepsConsistent(db: Database, run: Id, job: Id, url: string, identityHash: Digest, assetType: string,
                              freshId: Id)
    requires Consistent(db)
    ensures Consistent(EnsureStep(db, run, job, url, identityHash, assetType, freshId).1)
  {
    var after := EnsureStep(db, run, job, url, identityHash, assetType, freshId).1;
    forall s | s in after.sources ensures ConsistentRow(after, s) {
      if s in db.sources {
        assert ConsistentRow(db, s);
      }
    }
  }

  lemma QueueKeepsConsistent(db: Database, r: Request)
    requires Consistent(db) && (r.AddRun? || r.AddJob? || r.AcquireLease? || r.RenewLease? || r.EndLease?)
    ensures Consistent(QueueStep(db, r).1)
  {
    var after := QueueStep(db, r).1;
    forall s | s in after.sources ensures ConsistentRow(after, s) {
      assert ConsistentRow(db, s);
    }
  }

  lemma BeginKeepsConsistent(db: Database, holder: Holder, source: Id, now: int, later: int)
    requires Consistent(db)
    ensures Consistent(BeginStep(db, holder, source, now, later).1)
  {
    var after := BeginStep(db, holder, source, now, later).1;
    if after != db {
      assert ConsistentRow(db, source);
      UpdatedRowConsistent(db, source, after.sources[source], after.contents);
    }
  }

  lemma WriteKeepsConsistent(db: Database, r: Request)
    requires Consistent(db) && (r.Save? || r.Finalize? || r.Interrupt?)
    ensures Consistent(Next(db, r).1)
  {
    hide Consistent, ConsistentRow, LeaseFailure;
    var after := Next(db, r).1;
    if Next(db, r).0.Accepted? {
      assert after == db.(sources := db.sources[r.source := after.sources[r.source]], contents := after.contents);
      WrittenRow(db, r);
      WrittenContents(db, r);
      UpdatedRowConsistent(db, r.source, after.sources[r.source], after.contents);
    }
  }

  lemma WrittenRow(db: Database, r: Request)
    requires Consistent(db) && (r.Save? || r.Finalize? || r.Interrupt?) && Next(db, r).0.Accepted?
    ensures r.source in db.sources && r.source in Next(db, r).1.sources && ConsistentRow(Next(db, r).1, r.source)
  {
    hide LeaseFailure;
    assert Found(db, r.holder.run, r.source);
    assert ConsistentRow(db, r.source);
  }

  lemma WrittenContents(db: Database, r: Request)
    requires Consistent(db) && (r.Save? || r.Finalize? || r.Interrupt?) && Next(db, r).0.Accepted?
    ensures var contents := Next(db, r).1.contents;
            && (forall d :: d in db.contents ==> d in contents && contents[d] == db.contents[d])
            && (forall d :: d in contents ==> contents[d].storagePath == ContentPath(d) && 0 <= contents[d].byteLength)
            && (forall d, e :: d in contents && e in contents && contents[d].contentId == contents[e].contentId ==>
                  d == e)
  {
    hide LeaseFailure, ConsistentRow;
  }

  lemma NextKeepsConsistent(db: Database, r: Request)
    requires Consistent(db)
    ensures Consistent(Next(db, r).1)
  {
    hide Consistent, EnsureStep, BeginStep, SaveStep, FinalizeStep, InterruptStep, QueueStep;
    match r
    case Ensure(run, job, url, identityHash, assetType, freshId) =>
      EnsureKeepsConsistent(db, run, job, url, identityHash, assetType, freshId);
    case Begin(holder, source, now, later) => BeginKeepsConsistent(db, holder, source, now, later);
    case Save(_, _, _, _) => WriteKeepsConsistent(db, r);
    case Finalize(_, _, _, _, _, _, _) => WriteKeepsConsistent(db, r);
    case Interrupt(_, _, _, _) => WriteKeepsConsistent(db, r);
    case _ => QueueKeepsConsistent(db, r);
  }

  /** No request removes a row, changes a content row, or takes a job back to an earlier generation. */
  lemma NextOnlyAdds(db: Database, r: Request)
    ensures var after := Next(db, r).1;
            && (forall s :: s in db.sources ==> s in after.sources)
            && (forall d :: d in db.contents ==> d in after.contents && after.contents[d] == db.contents[d])
            && (forall j :: j in db.jobs ==> j in after.jobs && db.jobs[j].generation <= after.jobs[j].generation)
  {
    hide LeaseFailure, Live, Registered, Agreeing, PathTaken, IdTaken, ValidProgress;
  }

  lemma {:induction false} RunKeepsConsistent(db: Database, rs: seq<Request>, n: nat)
    requires Consistent(db) && n <= |rs|
    ensures Consistent(After(db, rs, n))
  {
    hide Next, Consistent;
    if n > 0 {
      RunKeepsConsistent(db, rs, n - 1);
      NextKeepsConsistent(After(db, rs, n - 1), rs[n - 1]);
    }
  }

  lemma RowIsConsistent(db: Database, s: Id)
    requires Consistent(db) && s in db.sources
    ensures ConsistentRow(db, s)
    ensures db.sources[s].state == Completed ==>
      db.sources[s].storagePath == Some(ContentPath(db.sources[s].sha256.value))
  {
  }

  // ----- Claim exclusivity -----

  /** A checkpoint, a finalization or an interruption is accepted exactly when it comes from the current
      claim, under an active unexpired lease of the job's current generation, and what it says is valid. */
  lemma WritesNeedTheClaim(db: Database, r: Request)
    requires r.Save? || r.Finalize? || r.Interrupt?
    ensures r.Save? ==> (Next(db, r).0.Accepted?
                         <==> Held(db, r.holder, r.source, r.now) && ValidProgress(r.progress, r.holder, r.source))
    ensures r.Interrupt? ==> (Next(db, r).0.Accepted? <==> Held(db, r.holder, r.source, r.now) && r.wellFormed)
    ensures r.Finalize? ==> (Next(db, r).0.Accepted? <==>
      && Held(db, r.holder, r.source, r.now) && r.wellFormed && 0 <= r.byteLength
      && (if r.sha256 in db.contents then
            db.contents[r.sha256].byteLength == r.byteLength
              && db.contents[r.sha256].storagePath == ContentPath(r.sha256)
          else !IdTaken(db, r.freshId)))
    ensures Next(db, r).0.Refused? ==> Next(db, r).1 == db
  {
  }

  predicate SameRow(db: Database, after: Database, s: Id)
    requires s in db.sources
  {
    s in after.sources && after.sources[s] == db.sources[s]
  }

  /** Only the holder of a claim changes a claimed row, except that a claim whose job has no active
      unexpired lease may pass to the holder of a live one. */
  lemma ClaimedRowChangesOnlyByItsHolder(db: Database, r: Request, s: Id)
    requires Consistent(db) && s in db.sources && db.sources[s].state == Downloading
    requires !SameRow(db, Next(db, r).1, s)
    ensures (r.Save? || r.Finalize? || r.Interrupt? || r.Begin?) && r.source == s && Owns(db, r.holder)
    ensures Live(db, r.holder.job, r.now)
    ensures ClaimedBy(db.sources[s], r.holder) <==> !r.Begin?
    ensures Next(db, r).0.Accepted?
    ensures (r.Save? ==> s in Next(db, r).1.sources && ClaimOf(Next(db, r).1.sources[s]) == ClaimOf(db.sources[s]))
    ensures r.Begin? ==>
      && TakesOver(db, r, s, db.sources[s].claimJob)
      && s in Next(db, r).1.sources && ClaimedBy(Next(db, r).1.sources[s], r.holder)
  {
    hide LeaseFailure, Owns, Registered, Agreeing, PathTaken, IdTaken, ValidProgress;
    if r.Save? || r.Finalize? || r.Interrupt? || r.Begin? {
      NoLeaseFailure(db, r.holder, r.now);
    }
    assert ConsistentRow(db, s);
  }

  /** A row that nobody holds changes only by a claim under a live lease, and never once it is completed. */
  lemma FreeRowChangesOnlyByAClaim(db: Database, r: Request, s: Id)
    requires Consistent(db) && s in db.sources && db.sources[s].state != Downloading
    requires !SameRow(db, Next(db, r).1, s)
    ensures db.sources[s].state != Completed && r.Begin? && r.source == s
    ensures Owns(db, r.holder) && Live(db, r.holder.job, r.now) && ClaimedBy(Next(db, r).1.sources[s], r.holder)
  {
    hide LeaseFailure, Owns, Registered, Agreeing, PathTaken, IdTaken, ValidProgress;
    if r.Begin? {
      NoLeaseFailure(db, r.holder, r.now);
    }
    assert ConsistentRow(db, s);
  }

  /** The claim of a row, when there is one. */
  function ClaimOf(row: Source): Option<(Id, Id, nat)> {
    if row.claimJob.Some? && row.claimedBy.Some? then Some((row.claimJob.value, row.claimedBy.value, row.generation))
    else None
  }

  predicate Releases(r: Request, row: Source) {
    (r.Finalize? || r.Interrupt?) && ClaimedBy(row, r.holder)
  }

  predicate TakesOver(db: Database, r: Request, s: Id, job: Option<Id>) {
    r.Begin? && r.source == s && job.Some? && !Live(db, job.value, r.later)
  }

  lemma {:induction false} SourcesRemain(db: Database, rs: seq<Request>, n: nat, m: nat, s: Id)
    requires n <= m <= |rs| && s in After(db, rs, n).sources
    ensures s in After(db, rs, m).sources
  {
    hide Next, Consistent;
    if n < m {
      SourcesRemain(db, rs, n, m - 1, s);
      NextOnlyAdds(After(db, rs, m - 1), rs[m - 1]);
    }
  }

  /** Over every run: a claim ends only with a request that its own holder made to release it, or with
      another worker's claim at a moment when the claim's job had no active unexpired lease. */
  lemma {:induction false} ClaimPassesOnlyWhenReleasedOrDead(db: Database, rs: seq<Request>, n: nat, m: nat,
                                                             s: Id) returns (k: nat)
    requires Consistent(db) && n <= m <= |rs| && s in After(db, rs, n).sources
    requires After(db, rs, n).sources[s].state == Downloading
    requires s in After(db, rs, m).sources
    requires ClaimOf(After(db, rs, m).sources[s]) != ClaimOf(After(db, rs, n).sources[s])
    ensures n <= k < m && AcceptedAt(db, rs, k) && s in After(db, rs, k).sources
    ensures ClaimOf(After(db, rs, k).sources[s]) == ClaimOf(After(db, rs, n).sources[s])
    ensures Releases(rs[k], After(db, rs, k).sources[s])
      || TakesOver(After(db, rs, k), rs[k], s, After(db, rs, n).sources[s].claimJob)
  {
    hide Next, Consistent;
    RunKeepsConsistent(db, rs, n);
    RowIsConsistent(After(db, rs, n), s);
    SourcesRemain(db, rs, n, m - 1, s);
    var before := After(db, rs, m - 1);
    if ClaimOf(before.sources[s]) != ClaimOf(After(db, rs, n).sources[s]) {
      k := ClaimPassesOnlyWhenReleasedOrDead(db, rs, n, m - 1, s);
    } else {
      k := m - 1;
      RunKeepsConsistent(db, rs, m - 1);
      RowIsConsistent(before, s);
      ClaimedRowChangesOnlyByItsHolder(before, rs[k], s);
    }
  }

  // ----- Fencing -----

  lemma {:induction false} GenerationsNeverDecrease(db: Database, rs: seq<Request>, n: nat, m: nat, job: Id)
    requires n <= m <= |rs| && job in After(db, rs, n).jobs
    ensures job in After(db, rs, m).jobs
    ensures After(db, rs, n).jobs[job].generation <= After(db, rs, m).jobs[job].generation
  {
    hide Next, Consistent;
    if n < m {
      GenerationsNeverDecrease(db, rs, n, m - 1, job);
      NextOnlyAdds(After(db, rs, m - 1), rs[m - 1]);
    }
  }

  /** Once a job has moved to a later generation, no worker of an earlier one ever writes again. */
  lemma StaleWorkerNeverWritesAgain(db: Database, rs: seq<Request>, n: nat, k: nat, holder: Holder)
    requires n <= k < |rs| && holder.job in After(db, rs, n).jobs
    requires holder.generation < After(db, rs, n).jobs[holder.job].generation
    requires (rs[k].Save? || rs[k].Finalize? || rs[k].Interrupt?) && rs[k].holder == holder
    ensures !AcceptedAt(db, rs, k)
  {
    GenerationsNeverDecrease(db, rs, n, k, holder.job);
    WritesNeedTheClaim(After(db, rs, k), rs[k]);
  }

  // ----- Completion -----

  /** Content rows are never changed. */
  lemma {:induction false} ContentsRemain(db: Database, rs: seq<Request>, n: nat, m: nat, d: Digest)
    requires n <= m <= |rs| && d in After(db, rs, n).contents
    ensures d in After(db, rs, m).contents && After(db, rs, m).contents[d] == After(db, rs, n).contents[d]
  {
    hide Next, Consistent;
    if n < m {
      ContentsRemain(db, rs, n, m - 1, d);
      NextOnlyAdds(After(db, rs, m - 1), rs[m - 1]);
    }
  }

  /** Over every run: a completed source stays as it is, and so does the content row that describes it. */
  lemma {:induction false} CompletedIsAbsorbing(db: Database, rs: seq<Request>, n: nat, m: nat, s: Id)
    requires Consistent(db) && n <= m <= |rs| && s in After(db, rs, n).sources
    requires After(db, rs, n).sources[s].state == Completed
    ensures SameRow(After(db, rs, n), After(db, rs, m), s)
    ensures var row := After(db, rs, n).sources[s];
            && row.sha256.Some? && row.sha256.value in After(db, rs, m).contents
                 && Describes(After(db, rs, m).contents[row.sha256.value], row)
            && row.storagePath == Some(ContentPath(row.sha256.value))
  {
    hide Next, Consistent;
    RunKeepsConsistent(db, rs, m);
    if n < m {
      CompletedIsAbsorbing(db, rs, n, m - 1, s);
      RunKeepsConsistent(db, rs, m - 1);
      if !SameRow(After(db, rs, m - 1), After(db, rs, m), s) {
        FreeRowChangesOnlyByAClaim(After(db, rs, m - 1), rs[m - 1], s);
      }
    }
    RowIsConsistent(After(db, rs, m), s);
  }

  // ----- Where the code stops short -----

  /** A job that crashed holding a claim cannot take its own source back under its new lease: the lease
      that lets it ask is the one that makes the old claim look alive (lines 267-270). It succeeds exactly
      when the lease runs out between the two clock readings of the request. */
  lemma OwnOldClaimBlocksTheJob(db: Database, holder: Holder, source: Id, now: int, later: int)
    requires Found(db, holder.run, source) && db.sources[source].state == Downloading
    requires db.sources[source].claimJob == Some(holder.job) && !ClaimedBy(db.sources[source], holder)
    ensures BeginStep(db, holder, source, now, later).0.Accepted? <==>
      Owns(db, holder) && now < db.leases[holder.job].expiresAt <= later
  {
  }

  /** A claim is confirmed to its holder without looking at the lease (line 264): of a source that is not
      completed, and without a live lease, exactly the current claim is accepted. */
  lemma BeginWithoutLease(db: Database, holder: Holder, source: Id, now: int, later: int)
    requires Consistent(db) && Found(db, holder.run, source) && db.sources[source].state != Completed
    requires !(Owns(db, holder) && Live(db, holder.job, now))
    ensures BeginStep(db, holder, source, now, later).0.Accepted? <==> ClaimedBy(db.sources[source], holder)
    ensures BeginStep(db, holder, source, now, later).1 == db
  {
    assert ConsistentRow(db, source);
  }

  /** An asset can be registered in one run of a project only: in another run, the same asset is refused
      exactly when it is not registered there already (packages/persistence-sqlite/src/migrations.ts:710). */
  lemma OneRunRegistersAnAsset(db: Database, s: Id, run: Id, job: Id, freshId: Id)
    requires s in db.sources && run in db.runs && job in db.jobs && db.jobs[job].run == run
    requires var row := db.sources[s]; Agreeing(db, run, row.url, row.identityHash, row.assetType)
    ensures var row := db.sources[s];
            EnsureStep(db, run, job, row.url, row.identityHash, row.assetType, freshId).0.Accepted? <==>
                 Registered(db, run, row.url)
  {
  }

  /** A worker of a job claims a source and loses its lease; the job leases again under generation 2. */
  const FIRST := Holder("run", "job", "owner", "token-1", 1)
  const SECOND := Holder("run", "job", "owner", "token-2", 2)

  const RECOVERY: seq<Request> := [
    AddRun("run"), AddJob("run", "job"), Ensure("run", "job", "url", "identity", "image", "source"),
    AcquireLease("job", "owner", "token-1", 10), Begin(FIRST, "source", 0, 0), EndLease("job"),
    Begin(FIRST, "source", 1, 1), AcquireLease("job", "owner", "token-2", 20), Begin(SECOND, "source", 2, 2)]

  function Recovering(n: nat): Database
    requires n <= 9
  {
    After(EMPTY, RECOVERY, n)
  }

  const QUEUED := Database({"run"}, map["job" := Job("run", 0)], map[], map[], map[])
  const PENDING := NewSource("run", "url", "identity", "image")
  const CLAIMED := PENDING.(
    state := Downloading, claimJob := Some("job"), claimedBy := Some("owner"), generation := 1,
    partialPath := Some(PartialPath("source", 1)))

  lemma Queued()
    ensures Recovering(2) == QUEUED
  {
    assert Recovering(0) == EMPTY;
    assert Recovering(1) == Next(Recovering(0), RECOVERY[0]).1;
    assert Recovering(2) == Next(Recovering(1), RECOVERY[1]).1;
    assert EMPTY.runs + {"run"} == {"run"};
  }

  lemma Leased()
    ensures Recovering(4) == QUEUED.(
      jobs := map["job" := Job("run", 1)], leases := map["job" := Lease("run", "owner", "token-1", 1, 10)],
      sources := map["source" := PENDING])
  {
    Queued();
    assert Recovering(3) == Next(Recovering(2), RECOVERY[2]).1;
    assert Recovering(4) == Next(Recovering(3), RECOVERY[3]).1;
  }

  lemma Claimed()
    ensures Recovering(6) == QUEUED.(jobs := map["job" := Job("run", 1)], sources := map["source" := CLAIMED])
  {
    Leased();
    assert Recovering(5) == Next(Recovering(4), RECOVERY[4]).1;
    assert Recovering(6) == Next(Recovering(5), RECOVERY[5]).1;
  }

  /** The claim is confirmed after its lease has ended; then the job's new worker, whose lease is live, is refused
      its own source. */
  lemma RecoveryIsRefused()
    ensures !Owns(Recovering(6), FIRST) && AcceptedAt(EMPTY, RECOVERY, 6)
    ensures Owns(Recovering(8), SECOND) && Live(Recovering(8), "job", 2)
    ensures Next(Recovering(8), RECOVERY[8]).0 == Refused(AlreadyInProgress)
  {
    Claimed();
    assert Recovering(7) == Recovering(6);
    assert Recovering(8) == Next(Recovering(7), RECOVERY[7]).1;
  }

  /** Two runs of a project that refer to the same asset. */
  const TWO_RUNS: seq<Request> := [
    AddRun("run-1"), AddJob("run-1", "job-1"), Ensure("run-1", "job-1", "url", "identity", "image", "source-1"),
    AddRun("run-2"), AddJob("run-2", "job-2"), Ensure("run-2", "job-2", "url", "identity", "image", "source-2")]

  lemma SecondRunIsRefused()
    ensures AcceptedAt(EMPTY, TWO_RUNS, 2)
    ensures Next(After(EMPTY, TWO_RUNS, 5), TWO_RUNS[5]).0 == Refused(PersistenceFailed)
  {
    var rows := map["source-1" := NewSource("run-1", "url", "identity", "image")];
    assert After(EMPTY, TWO_RUNS, 2) == Database({"run-1"}, map["job-1" := Job("run-1", 0)], map[], map[], map[]);
    assert After(EMPTY, TWO_RUNS, 3) == Database({"run-1"}, map["job-1" := Job("run-1", 0)], map[], rows, map[]);
    assert After(EMPTY, TWO_RUNS, 5) == Database(
      {"run-1", "run-2"}, map["job-1" := Job("run-1", 0), "job-2" := Job("run-2", 0)], map[], rows, map[]);
    assert "source-1" in rows;
  }

  // ----- The repository -----

  class AssetRepository {
    var runs: set<Id>
    var jobs: map<Id, Job>
    var leases: map<Id, Lease>
    var sources: map<Id, Source>
    var contents: map<Digest, Content>

    constructor ()
      ensures Value() == EMPTY && Consistent(Value())
    {
      runs, jobs, leases, sources, contents := {}, map[], map[], map[], map[];
    }

    function Value(): Database
      reads this
    {
      Database(runs, jobs, leases, sources, contents)
    }

    method AssertLease(holder: Holder, now: int) returns (failure: Option<Failure>)
      ensures failure.None? <==> Owns(Value(), holder) && Live(Value(), holder.job, now)
      ensures failure == LeaseFailure(Value(), holder, now)
    {
      if holder.run !in runs {
        return Some(NotFound);
      }
      if holder.job !in leases || leases[holder.job].run != holder.run {
        return Some(LeaseInvalid);
      }
      var lease := leases[holder.job];
      if holder.tokenHash != lease.tokenHash || holder.owner != lease.owner {
        return Some(LeaseInvalid);
      }
      if holder.generation != lease.generation {
        return Some(StaleGeneration);
      }
      if holder.job !in jobs || jobs[holder.job].run != holder.run {
        return Some(NotFound);
      }
      if jobs[holder.job].generation != holder.generation {
        return Some(StaleGeneration);
      }
      if lease.expiresAt <= now {
        return Some(LeaseInvalid);
      }
      return None;
    }

    method AssertClaim(holder: Holder, source: Id, now: int) returns (failure: Option<Failure>)
      ensures failure.None? <==> Held(Value(), holder, source, now)
      ensures failure == ClaimFailure(Value(), holder, source, now)
    {
      failure := AssertLease(holder, now);
      if failure.Some? {
        return;
      }
      if source !in sources || sources[source].run != holder.run {
        return Some(NotFound);
      }
      var row := sources[source];
      if row.claimJob != Some(holder.job) || row.claimedBy != Some(holder.owner)
        || row.generation != holder.generation {
        return Some(StaleGeneration);
      }
      return None;
    }

    method EnsureAssetSource(run: Id, job: Id, url: string, identityHash: Digest, assetType: string,
                             freshId: Id) returns (outcome: Outcome, id: Id)
      requires Consistent(Value())
      modifies this`sources
      ensures (outcome, Value()) == EnsureStep(old(Value()), run, job, url, identityHash, assetType, freshId)
      ensures Consistent(Value())
      ensures outcome.Accepted? ==> id in sources && sources[id].run == run && sources[id].url == url
    {
      EnsureKeepsConsistent(Value(), run, job, url, identityHash, assetType, freshId);
      hide Consistent;
      id := freshId;
      if run !in runs || job !in jobs || jobs[job].run != run {
        return Refused(NotFound), id;
      }
      if s :| s in sources && sources[s].run == run && sources[s].url == url {
        id := s;
        if sources[id].identityHash != identityHash || sources[id].assetType != assetType {
          return Refused(ContentConflict), id;
        }
        return Accepted, id;
      }
      if freshId in sources || (exists s ::
        s in sources && sources[s].identityHash == identityHash && sources[s].assetType == assetType) {
        return Refused(PersistenceFailed), id;
      }
      sources := sources[freshId := NewSource(run, url, identityHash, assetType)];
      return Accepted, id;
    }

    method BeginAssetDownload(holder: Holder, source: Id, now: int, later: int) returns (outcome: Outcome)
      requires Consistent(Value())
      modifies this`sources
      ensures (outcome, Value()) == BeginStep(old(Value()), holder, source, now, later) && Consistent(Value())
    {
      BeginKeepsConsistent(Value(), holder, source, now, later);
      hide Consistent, LeaseFailure, Owns;
      if source !in sources || sources[source].run != holder.run {
        return Refused(NotFound);
      }
      var row := sources[source];
      if row.state == Completed {
        return Accepted;
      }
      if row.state == Downloading && row.claimJob == Some(holder.job) && row.claimedBy == Some(holder.owner)
        && row.generation == holder.generation {
        return Accepted;
      }
      var failure := AssertLease(holder, now);
      if failure.Some? {
        return Refused(failure.value);
      }
      if row.state == Downloading && row.claimJob.Some? {
        if row.claimJob.value in leases && leases[row.claimJob.value].expiresAt > later {
          return Refused(AlreadyInProgress);
        }
      }
      sources := sources[source := row.(
        state := Downloading, claimJob := Some(holder.job), claimedBy := Some(holder.owner),
        generation := holder.generation,
        partialPath := Some(PartialPath(source, holder.generation)))];
      return Accepted;
    }

    method SaveAssetProgress(holder: Holder, source: Id, p: Progress, now: int) returns (outcome: Outcome)
      requires Consistent(Value())
      modifies this`sources
      ensures (outcome, Value()) == SaveStep(old(Value()), holder, source, p, now) && Consistent(Value())
    {
      WriteKeepsConsistent(Value(), Save(holder, source, p, now));
      hide Consistent, LeaseFailure, ClaimFailure, Held, Owns, Live;
      var failure := AssertClaim(holder, source, now);
      if failure.Some? {
        return Refused(failure.value);
      }
      if p.path != PartialPath(source, holder.generation) || p.bytesWritten < 0 || p.resumeOffset < 0
        || p.resumeOffset > p.bytesWritten
        || (p.expected.Some? && p.bytesWritten > p.expected.value) {
        return Refused(InputInvalid);
      }
      sources := sources[source := sources[source].(resumeOffset := p.resumeOffset, expected := p.expected,
                                                    validator := p.validator)];
      return Accepted;
    }

    method FinalizeAssetDownload(holder: Holder, source: Id, sha256: Digest, byteLength: int, wellFormed: bool,
                                 freshId: Id, now: int)
      returns (outcome: Outcome, deduplicated: bool)
      requires Consistent(Value())
      modifies this`sources, this`contents
      ensures (outcome, Value()) == FinalizeStep(old(Value()), holder, source, sha256, byteLength, wellFormed, freshId,
                                                 now)
      ensures Consistent(Value())
      ensures outcome.Accepted? ==> sources[source].state == Completed && (deduplicated <==> contents == old(contents))
    {
      WriteKeepsConsistent(Value(), Finalize(holder, source, sha256, byteLength, wellFormed, freshId, now));
      hide Consistent, LeaseFailure, ClaimFailure, Held, Owns, Live;
      deduplicated := sha256 in contents;
      var failure := AssertClaim(holder, source, now);
      if failure.Some? {
        return Refused(failure.value), deduplicated;
      }
      if !wellFormed || byteLength < 0 {
        return Refused(InputInvalid), deduplicated;
      }
      var path := ContentPath(sha256);
      if sha256 !in contents {
        if exists d :: d in contents && contents[d].contentId == freshId {
          return Refused(ContentConflict), deduplicated;
        }
        contents := contents[sha256 := Content(freshId, byteLength, path)];
      } else if contents[sha256].byteLength != byteLength || contents[sha256].storagePath != path {
        return Refused(ContentConflict), deduplicated;
      }
      sources := sources[source := sources[source].(
        state := Completed, byteLength := Some(byteLength), sha256 := Some(sha256),
        contentId := Some(contents[sha256].contentId),
        storagePath := Some(path), resumeOffset := byteLength, partialPath := None, claimJob := None,
        claimedBy := None)];
      return Accepted, deduplicated;
    }

    method MarkAssetInterrupted(holder: Holder, source: Id, wellFormed: bool, now: int) returns (outcome: Outcome)
      requires Consistent(Value())
      modifies this`sources
      ensures (outcome, Value()) == InterruptStep(old(Value()), holder, source, wellFormed, now) && Consistent(Value())
    {
      WriteKeepsConsistent(Value(), Interrupt(holder, source, wellFormed, now));
      hide Consistent, LeaseFailure, ClaimFailure, Held, Owns, Live;
      var failure := AssertClaim(holder, source, now);
      if failure.Some? {
        return Refused(failure.value);
      }
      if !wellFormed {
        return Refused(InputInvalid);
      }
      sources := sources[source := sources[source].(state := Interrupted, claimJob := None, claimedBy := None)];
      return Accepted;
    }
  }
}

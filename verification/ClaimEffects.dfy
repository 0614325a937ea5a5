/** What an accepted request writes, column by column, and how long it stays written
    (packages/persistence-sqlite/src/assets.ts:205-375). */
module ClaimEffects {
  import opened Options
  import opened AssetClaims

  // ----- The columns of a source -----

  datatype Description = Description(run: Id, url: string, identityHash: Digest, assetType: string)
  datatype Claim = Claim(state: SourceState, job: Option<Id>, owner: Option<Id>, generation: nat, path: Option<Path>)
  datatype Saved = Saved(resumeOffset: int, expected: Option<int>, validator: Option<string>)
  datatype Stored = Stored(contentId: Option<Id>, sha256: Option<Digest>, byteLength: Option<int>, path: Option<Path>)

  function DescriptionOf(row: Source): Description {
    Description(row.run, row.url, row.identityHash, row.assetType)
  }

  function ClaimColumns(row: Source): Claim {
    Claim(row.state, row.claimJob, row.claimedBy, row.generation, row.partialPath)
  }

  function SavedOf(row: Source): Saved {
    Saved(row.resumeOffset, row.expected, row.validator)
  }

  function StoredOf(row: Source): Stored {
    Stored(row.contentId, row.sha256, row.byteLength, row.storagePath)
  }

  /** No other source is written, and neither are runs, jobs and leases. */
  predicate OnlySource(db: Database, after: Database, s: Id) {
    && s in after.sources && after.sources.Keys == db.sources.Keys + {s}
    && (forall t :: t in db.sources && t != s ==> after.sources[t] == db.sources[t])
    && after.runs == db.runs && after.jobs == db.jobs && after.leases == db.leases
  }

  // ----- One request -----

  /** A checkpoint saves what it says, and nothing else. */
  lemma SaveWrites(db: Database, r: Request)
    requires r.Save? && Next(db, r).0.Accepted?
    ensures var after := Next(db, r).1;
            && r.source in db.sources && OnlySource(db, after, r.source) && after.contents == db.contents
            && SavedOf(after.sources[r.source])
                 == Saved(r.progress.resumeOffset, r.progress.expected, r.progress.validator)
            && DescriptionOf(after.sources[r.source]) == DescriptionOf(db.sources[r.source])
            && ClaimColumns(after.sources[r.source]) == ClaimColumns(db.sources[r.source])
            && StoredOf(after.sources[r.source]) == StoredOf(db.sources[r.source])
  {
    hide LeaseFailure, ValidProgress;
  }

  /** A claim writes its holder and the path of its generation, and leaves what was saved; a completed source, or one
      that the holder has claimed already, stays as it is. */
  lemma BeginWrites(db: Database, r: Request)
    requires r.Begin? && Next(db, r).0.Accepted?
    ensures var after := Next(db, r).1;
            && r.source in db.sources
            && var row := db.sources[r.source];
               if row.state == Completed || (row.state == Downloading && ClaimedBy(row, r.holder)) then after == db
               else
                 && OnlySource(db, after, r.source) && after.contents == db.contents
                 && ClaimColumns(after.sources[r.source])
                      == Claim(Downloading, Some(r.holder.job), Some(r.holder.owner), r.holder.generation,
                               Some(PartialPath(r.source, r.holder.generation)))
                 && SavedOf(after.sources[r.source]) == SavedOf(row)
                 && DescriptionOf(after.sources[r.source]) == DescriptionOf(row)
                 && StoredOf(after.sources[r.source]) == StoredOf(row)
  {
    hide LeaseFailure, Live;
  }

  /** A finalization writes the digest, the length and the path of the object, releases the claim, and has one content
      row for the digest: the one that is there, or a new one under the fresh identifier. */
  lemma FinalizeWrites(db: Database, r: Request)
    requires r.Finalize? && Next(db, r).0.Accepted?
    ensures var after := Next(db, r).1;
            && r.source in db.sources && OnlySource(db, after, r.source)
            && r.sha256 in after.contents && after.contents.Keys == db.contents.Keys + {r.sha256}
            && (forall d :: d in db.contents ==> after.contents[d] == db.contents[d])
            && after.contents[r.sha256].byteLength == r.byteLength
            && after.contents[r.sha256].storagePath == ContentPath(r.sha256)
            && (r.sha256 !in db.contents ==> after.contents[r.sha256].contentId == r.freshId)
            && StoredOf(after.sources[r.source])
                 == Stored(Some(after.contents[r.sha256].contentId), Some(r.sha256), Some(r.byteLength),
                           Some(ContentPath(r.sha256)))
            && ClaimColumns(after.sources[r.source])
                 == Claim(Completed, None, None, db.sources[r.source].generation, None)
            && after.sources[r.source].resumeOffset == r.byteLength
            && DescriptionOf(after.sources[r.source]) == DescriptionOf(db.sources[r.source])
  {
    hide LeaseFailure, IdTaken;
  }

  /** An interruption gives the claim back, and leaves what was saved. */
  lemma InterruptWrites(db: Database, r: Request)
    requires r.Interrupt? && Next(db, r).0.Accepted?
    ensures var after := Next(db, r).1;
            && r.source in db.sources && OnlySource(db, after, r.source) && after.contents == db.contents
            && ClaimColumns(after.sources[r.source])
                 == Claim(Interrupted, None, None, db.sources[r.source].generation, db.sources[r.source].partialPath)
            && SavedOf(after.sources[r.source]) == SavedOf(db.sources[r.source])
            && DescriptionOf(after.sources[r.source]) == DescriptionOf(db.sources[r.source])
            && StoredOf(after.sources[r.source]) == StoredOf(db.sources[r.source])
  {
    hide LeaseFailure;
  }

  /** A source is registered once, as it is described, with nothing claimed, saved or stored. */
  lemma EnsureWrites(db: Database, r: Request)
    requires r.Ensure? && Next(db, r).0.Accepted?
    ensures var after := Next(db, r).1;
            if exists s :: s in db.sources && db.sources[s].run == r.run && db.sources[s].url == r.url then after == db
            else
              && r.freshId !in db.sources && OnlySource(db, after, r.freshId) && after.contents == db.contents
              && DescriptionOf(after.sources[r.freshId]) == Description(r.run, r.url, r.identityHash, r.assetType)
              && ClaimColumns(after.sources[r.freshId]) == Claim(Pending, None, None, 0, None)
              && SavedOf(after.sources[r.freshId]) == Saved(0, None, None)
              && StoredOf(after.sources[r.freshId]) == Stored(None, None, None, None)
  {
    hide Agreeing, PathTaken;
  }

  predicate OfTheQueue(r: Request) {
    r.AddRun? || r.AddJob? || r.AcquireLease? || r.RenewLease? || r.EndLease?
  }

  /** The job queue writes no source and no content. */
  lemma QueueWrites(db: Database, r: Request)
    requires OfTheQueue(r)
    ensures Next(db, r).1.sources == db.sources && Next(db, r).1.contents == db.contents
  {
  }

  /** A refused request of a worker writes nothing. */
  lemma RefusedWritesNothing(db: Database, r: Request)
    requires !OfTheQueue(r) && Next(db, r).0.Refused?
    ensures Next(db, r).1 == db
  {
    hide LeaseFailure, Live, Agreeing, PathTaken, Registered, ValidProgress, IdTaken;
  }

  // ----- When a request is accepted, and why it is refused -----

  /** A claim is accepted for a completed source, for the one who has it, and for the holder of a live lease unless the
      claim that is there belongs to a job with a live lease. */
  lemma BeginAcceptedExactly(db: Database, r: Request)
    requires r.Begin?
    ensures Next(db, r).0.Accepted? <==>
      && r.source in db.sources && db.sources[r.source].run == r.holder.run
      && var row := db.sources[r.source];
         || row.state == Completed
         || (row.state == Downloading && row.claimJob == Some(r.holder.job) && row.claimedBy == Some(r.holder.owner)
             && row.generation == r.holder.generation)
         || (Owns(db, r.holder) && r.now < db.leases[r.holder.job].expiresAt
             && !(row.state == Downloading && row.claimJob.Some? && row.claimJob.value in db.leases
                  && r.later < db.leases[row.claimJob.value].expiresAt))
  {
    NoLeaseFailure(db, r.holder, r.now);
    hide LeaseFailure, Owns;
  }

  /** Whom a request is refused as: unknown; not the one with the lease, or too late; or of another generation. */
  lemma LeaseRefusals(db: Database, holder: Holder, now: int)
    requires holder.run in db.runs && holder.job in db.leases && db.leases[holder.job].run == holder.run
    requires holder.job in db.jobs && db.jobs[holder.job].run == holder.run
    ensures var lease, job := db.leases[holder.job], db.jobs[holder.job];
            var failure := LeaseFailure(db, holder, now);
            var known := lease.tokenHash == holder.tokenHash && lease.owner == holder.owner;
            var current := lease.generation == holder.generation == job.generation;
            && (failure == Some(StaleGeneration) <==> known && !current)
            && (failure == Some(LeaseInvalid) <==> !known || (current && lease.expiresAt <= now))
            && (failure == None <==> known && current && now < lease.expiresAt)
  {
  }

  /** Taking a lease makes its job's generation one more, and gives it to whoever takes it; ending one ends it alone. */
  lemma LeaseWrites(db: Database, r: Request, job: Id)
    requires (r.AcquireLease? || r.RenewLease? || r.EndLease?) && Next(db, r).0.Accepted?
    ensures var after := Next(db, r).1;
            if job != r.job then
              && (job in after.leases <==> job in db.leases) && (job in after.jobs <==> job in db.jobs)
              && (job in db.leases ==> after.leases[job] == db.leases[job])
              && (job in db.jobs ==> after.jobs[job] == db.jobs[job])
            else if r.AcquireLease? then
              && job !in db.leases && job in db.jobs && job in after.jobs && job in after.leases
              && after.jobs[job] == Job(db.jobs[job].run, db.jobs[job].generation + 1)
              && after.leases[job]
                   == Lease(db.jobs[job].run, r.owner, r.tokenHash, after.jobs[job].generation, r.expiresAt)
            else
              && after.jobs == db.jobs
              && (r.EndLease? ==> job !in after.leases)
              && (r.RenewLease? ==>
                    job in db.leases && job in after.leases
                    && after.leases[job] == db.leases[job].(expiresAt := r.expiresAt))
  {
  }

  // ----- What was saved stays saved -----

  /** The request saves the progress of a source anew. */
  predicate Resaves(r: Request, s: Id) {
    (r.Save? || r.Finalize?) && r.source == s
  }

  lemma NextKeepsSaved(db: Database, r: Request, s: Id)
    requires s in db.sources && !(Resaves(r, s) && Next(db, r).0.Accepted?)
    ensures s in Next(db, r).1.sources && SavedOf(Next(db, r).1.sources[s]) == SavedOf(db.sources[s])
  {
    hide Next, OnlySource;
    NextOnlyAdds(db, r);
    if OfTheQueue(r) {
      QueueWrites(db, r);
    } else if Next(db, r).0.Refused? {
      RefusedWritesNothing(db, r);
    } else {
      AcceptedKeepsSaved(db, r, s);
    }
  }

  lemma AcceptedKeepsSaved(db: Database, r: Request, s: Id)
    requires s in db.sources && !OfTheQueue(r) && Next(db, r).0.Accepted? && !Resaves(r, s)
    ensures s in Next(db, r).1.sources && SavedOf(Next(db, r).1.sources[s]) == SavedOf(db.sources[s])
  {
    hide Next, ClaimedBy;
    match r
    case Ensure(_, _, _, _, _, _) => EnsureWrites(db, r);
    case Begin(_, _, _, _) => BeginWrites(db, r);
    case Save(_, _, _, _) => SaveWrites(db, r);
    case Finalize(_, _, _, _, _, _, _) => FinalizeWrites(db, r);
    case Interrupt(_, _, _, _) => InterruptWrites(db, r);
    case _ =>
  }

  /** No accepted request from `n` up to `m` saves the progress of the source. */
  predicate NotResaved(db: Database, rs: seq<Request>, n: nat, m: nat, s: Id)
    requires n <= m <= |rs|
  {
    forall k :: n <= k < m ==> !(Resaves(rs[k], s) && AcceptedAt(db, rs, k))
  }

  lemma {:induction false} SavedStays(db: Database, rs: seq<Request>, n: nat, m: nat, s: Id)
    requires n <= m <= |rs| && s in After(db, rs, n).sources && NotResaved(db, rs, n, m, s)
    ensures s in After(db, rs, m).sources
    ensures SavedOf(After(db, rs, m).sources[s]) == SavedOf(After(db, rs, n).sources[s])
  {
    hide Next, Resaves;
    if n < m {
      SavedStays(db, rs, n, m - 1, s);
      NextKeepsSaved(After(db, rs, m - 1), rs[m - 1], s);
    }
  }

  /** Over every run: whatever claims, interruptions and crashes come after an accepted checkpoint, the row says what it
      saved until another checkpoint or a finalization of the source is accepted. */
  lemma CheckpointIsDurable(db: Database, rs: seq<Request>, n: nat, m: nat, s: Id)
    requires n < m <= |rs| && rs[n].Save? && rs[n].source == s && AcceptedAt(db, rs, n)
    requires NotResaved(db, rs, n + 1, m, s)
    ensures s in After(db, rs, m).sources
    ensures SavedOf(After(db, rs, m).sources[s])
         == Saved(rs[n].progress.resumeOffset, rs[n].progress.expected, rs[n].progress.validator)
  {
    hide Next, Resaves, NotResaved;
    SaveWrites(After(db, rs, n), rs[n]);
    SavedStays(db, rs, n + 1, m, s);
  }
}

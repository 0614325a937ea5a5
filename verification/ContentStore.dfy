/** The content-addressed store (packages/application-service/src/asset-downloader.ts:126-133 and 352-385,
    packages/persistence-sqlite/src/asset-files.ts:68-102 and 133-163,
    packages/persistence-sqlite/src/atomic.ts:163-189).
    Workers finalize partial files concurrently, each with a partial file of its own; every file operation
    and every transaction is one step, and a worker may fail or crash between any two of its steps. A crash
    leaves the files, with the lock file it held. Nothing is assumed about the hash. */
module ContentStore {
  import opened Octets
  import opened Options

  type Digest = string
  type Worker = nat

  datatype File = Partial(owner: Worker) | Object(digest: Digest) | LockFile(digest: Digest)

  datatype Row = Row(byteLength: nat, path: File)

  /** How far a worker has come; from `Locked` to `Failing` it holds the lock of its digest. */
  datatype Phase =
    | Gone
    | Writing
    | Hashed(digest: Digest, length: nat)
    | Locked(digest: Digest, length: nat)
    | Absent(digest: Digest, length: nat)
    | Matched(digest: Digest, length: nat)
    | Stored(digest: Digest, length: nat)
    | Recorded(digest: Digest, length: nat)
    | Failing(digest: Digest, length: nat)

  datatype State = State(files: map<File, Bytes>, rows: map<Digest, Row>, workers: map<Worker, Phase>)

  datatype Step =
    | Start(worker: Worker)
    | WriteFile(worker: Worker, bytes: Bytes)
    | HashFile(worker: Worker)
    | Lock(worker: Worker)
    | LeaveLock(worker: Worker)
    | Look(worker: Worker)
    | Rename(worker: Worker)
    | Remove(worker: Worker)
    | Record(worker: Worker, owned: bool)
    | Release(worker: Worker, unlinked: bool)
    | Fail(worker: Worker)
    | Crash(worker: Worker)

  function PhaseOf(s: State, w: Worker): Phase {
    if w in s.workers then s.workers[w] else Gone
  }

  predicate HoldsLock(phase: Phase) {
    phase.Locked? || phase.Absent? || phase.Matched? || phase.Stored? || phase.Recorded? || phase.Failing?
  }

  function Moved(s: State, w: Worker, phase: Phase): State {
    s.(workers := s.workers[w := phase])
  }

  /** What the content row of a digest says once a worker recorded it. */
  function Recording(s: State, phase: Phase): map<Digest, Row>
    requires phase.Stored?
  {
    if phase.digest in s.rows then s.rows else s.rows[phase.digest := Row(phase.length, Object(phase.digest))]
  }

  predicate RowAgrees(s: State, phase: Phase)
    requires phase.Stored?
  {
    phase.digest in s.rows ==> s.rows[phase.digest] == Row(phase.length, Object(phase.digest))
  }

  /** One step; a step that does not apply changes nothing. `Rename` replaces its destination, as rename does;
      `LeaveLock` creates the lock file and fails to write or sync it, and a release may fail to unlink it. */
  function Next(hash: Bytes -> Digest, s: State, step: Step): State {
    var w := step.worker;
    var phase := PhaseOf(s, w);
    match step
    case Start(_) => if phase.Gone? then Moved(s, w, Writing) else s
    case WriteFile(_, bytes) => if phase.Writing? then s.(files := s.files[Partial(w) := bytes]) else s
    case HashFile(_) =>
      if phase.Writing? && Partial(w) in s.files then
        Moved(s, w, Hashed(hash(s.files[Partial(w)]), |s.files[Partial(w)]|)) else s
    case Lock(_) =>
      if phase.Hashed? && LockFile(phase.digest) !in s.files
      then Moved(s, w, Locked(phase.digest, phase.length)).(files := s.files[LockFile(phase.digest) := []]) else s
    case LeaveLock(_) =>
      if phase.Hashed? && LockFile(phase.digest) !in s.files
      then Moved(s, w, Gone).(files := s.files[LockFile(phase.digest) := []]) else s
    case Look(_) => if phase.Locked? then Moved(s, w, Seen(hash, s, phase)) else s
    case Rename(_) =>
      if phase.Absent? && Partial(w) in s.files
      then
        Moved(s, w, Stored(phase.digest, phase.length)).(
          files := (s.files - {Partial(w)})[Object(phase.digest) := s.files[Partial(w)]])
      else s
    case Remove(_) =>
      if phase.Matched? then Moved(s, w, Stored(phase.digest, phase.length)).(files := s.files - {Partial(w)}) else s
    case Record(_, owned) =>
      if phase.Stored? then
        if owned && RowAgrees(s, phase) then Moved(s, w,
                                                   Recorded(phase.digest, phase.length)).(rows := Recording(s, phase))
        else Moved(s, w, Failing(phase.digest, phase.length))
      else s
    case Release(_, unlinked) =>
      if phase.Recorded? || phase.Failing?
      then Moved(s, w, Gone).(files := if unlinked then s.files - {LockFile(phase.digest)} else s.files) else s
    case Fail(_) => Moved(s, w, if HoldsLock(phase) then Failing(phase.digest, phase.length) else Gone)
    case Crash(_) => Moved(s, w, Gone)
  }

  /** What the holder of a lock finds at the content path (lines 356-364). */
  function Seen(hash: Bytes -> Digest, s: State, phase: Phase): Phase
    requires phase.Locked?
  {
    var path := Object(phase.digest);
    if phase.digest in s.rows && s.rows[phase.digest].path != path then Failing(phase.digest, phase.length)
    else if path !in s.files then Absent(phase.digest, phase.length)
    else if hash(s.files[path]) == phase.digest && |s.files[path]| == phase.length then
      Matched(phase.digest, phase.length)
    else Failing(phase.digest, phase.length)
  }

  function After(hash: Bytes -> Digest, s: State, steps: seq<Step>, n: nat): State
    requires n <= |steps|
  {
    if n == 0 then s else Next(hash, After(hash, s, steps, n - 1), steps[n - 1])
  }

  // ----- Soundness -----

  ghost predicate ObjectsHash(hash: Bytes -> Digest, s: State) {
    forall d :: Object(d) in s.files ==> hash(s.files[Object(d)]) == d
  }

  /** Every content row has its object, of the recorded length. */
  predicate RowsHaveObjects(s: State) {
    forall d :: d in s.rows ==> Object(d) in s.files && s.rows[d] == Row(|s.files[Object(d)]|, Object(d))
  }

  predicate SameLock(p: Phase, q: Phase) {
    HoldsLock(p) && HoldsLock(q) && p.digest == q.digest
  }

  /** At most one worker holds the lock of a digest, and its lock file is there. */
  predicate LocksExclude(s: State) {
    && (forall w :: w in s.workers && HoldsLock(s.workers[w]) ==> LockFile(s.workers[w].digest) in s.files)
    && (forall v, w :: v in s.workers && w in s.workers && SameLock(s.workers[v], s.workers[w]) ==> v == w)
  }

  /** What a worker knows at each phase. */
  predicate PhaseSound(hash: Bytes -> Digest, s: State, w: Worker)
    requires w in s.workers
  {
    var phase := s.workers[w];
    && (phase.Hashed? || phase.Locked? || phase.Absent? ==>
          Partial(w) in s.files && hash(s.files[Partial(w)]) == phase.digest && |s.files[Partial(w)]| == phase.length)
    && (phase.Absent? ==> Object(phase.digest) !in s.files)
    && (phase.Matched? || phase.Stored? || phase.Recorded? ==>
          Object(phase.digest) in s.files && |s.files[Object(phase.digest)]| == phase.length)
    && (phase.Recorded? ==> phase.digest in s.rows)
  }

  ghost predicate Sound(hash: Bytes -> Digest, s: State) {
    && ObjectsHash(hash, s) && RowsHaveObjects(s) && LocksExclude(s)
    && (forall w :: w in s.workers ==> PhaseSound(hash, s, w))
  }

  const EMPTY := State(map[], map[], map[])

  /** Objects and rows only appear, and what is there stays as it is. */
  ghost predicate Grows(before: State, after: State) {
    && (forall d :: Object(d) in before.files ==>
          Object(d) in after.files && after.files[Object(d)] == before.files[Object(d)])
    && (forall d :: d in before.rows ==> d in after.rows && after.rows[d] == before.rows[d])
  }

  lemma StoreKept(hash: Bytes -> Digest, s: State, step: Step)
    requires Sound(hash, s)
    ensures ObjectsHash(hash, Next(hash, s, step)) && RowsHaveObjects(Next(hash, s, step))
    ensures Grows(s, Next(hash, s, step))
  {
    StoreGrows(hash, s, step);
    ObjectsStillHash(hash, s, step);
    RowsStillHaveObjects(hash, s, step);
  }

  lemma StoreGrows(hash: Bytes -> Digest, s: State, step: Step)
    requires Sound(hash, s)
    ensures Grows(s, Next(hash, s, step))
  {
    if step.worker in s.workers {
      assert PhaseSound(hash, s, step.worker);
    }
    hide Sound;
  }

  lemma ObjectsStillHash(hash: Bytes -> Digest, s: State, step: Step)
    requires Sound(hash, s)
    ensures ObjectsHash(hash, Next(hash, s, step))
  {
    if step.worker in s.workers {
      assert PhaseSound(hash, s, step.worker);
    }
    hide Sound, RowsHaveObjects, LocksExclude;
  }

  lemma RowsStillHaveObjects(hash: Bytes -> Digest, s: State, step: Step)
    requires Sound(hash, s)
    ensures RowsHaveObjects(Next(hash, s, step))
  {
    if step.worker in s.workers {
      assert PhaseSound(hash, s, step.worker);
    }
    hide Sound, ObjectsHash, LocksExclude;
  }

  /** A worker that keeps its lock, or holds none any more, keeps the locks exclusive. */
  lemma MoveKeepsLocks(s: State, w: Worker, phase: Phase, files: map<File, Bytes>, rows: map<Digest, Row>)
    requires LocksExclude(s)
    requires HoldsLock(phase) ==> SameLock(phase, PhaseOf(s, w))
    requires forall d ::
      (LockFile(d) in s.files && (HoldsLock(PhaseOf(s, w)) && !HoldsLock(phase) ==> d != PhaseOf(s, w).digest)) ==>
        LockFile(d) in files
    ensures LocksExclude(Moved(s, w, phase).(files := files, rows := rows))
  {
  }

  lemma LocksKept(hash: Bytes -> Digest, s: State, step: Step)
    requires LocksExclude(s)
    ensures LocksExclude(Next(hash, s, step))
  {
    var w := step.worker;
    var after := Next(hash, s, step);
    if step.Lock? {
    } else if w in after.workers {
      hide LocksExclude;
      assert after == Moved(s, w, after.workers[w]).(files := after.files, rows := after.rows);
      MoveKeepsLocks(s, w, after.workers[w], after.files, after.rows);
    }
  }

  /** A step of another worker takes nothing away from what a worker knows: only the holder of the lock of
      a digest adds its object. */
  lemma OtherPhaseKept(hash: Bytes -> Digest, s: State, step: Step, w: Worker)
    requires Sound(hash, s) && w in s.workers && w != step.worker
    ensures w in Next(hash, s, step).workers && PhaseSound(hash, Next(hash, s, step), w)
    ensures Next(hash, s, step).workers[w] == s.workers[w]
  {
    StoreKept(hash, s, step);
    assert PhaseSound(hash, s, w);
    if step.worker in s.workers {
      assert PhaseSound(hash, s, step.worker);
    }
  }

  lemma OwnPhaseKept(hash: Bytes -> Digest, s: State, step: Step)
    requires Sound(hash, s) && step.worker in Next(hash, s, step).workers
    ensures PhaseSound(hash, Next(hash, s, step), step.worker)
  {
    if step.worker in s.workers {
      assert PhaseSound(hash, s, step.worker);
    }
  }

  lemma NextKeepsSound(hash: Bytes -> Digest, s: State, step: Step)
    requires Sound(hash, s)
    ensures Sound(hash, Next(hash, s, step)) && Grows(s, Next(hash, s, step))
  {
    StoreKept(hash, s, step);
    LocksKept(hash, s, step);
    var after := Next(hash, s, step);
    forall w | w in after.workers ensures PhaseSound(hash, after, w) {
      if w == step.worker {
        OwnPhaseKept(hash, s, step);
      } else {
        WorkersKept(hash, s, step, w);
        OtherPhaseKept(hash, s, step, w);
      }
    }
  }

  lemma WorkersKept(hash: Bytes -> Digest, s: State, step: Step, w: Worker)
    requires w in Next(hash, s, step).workers && w != step.worker
    ensures w in s.workers
  {
  }

  /** For any interleaving of any number of workers, with crashes and failures anywhere: every object hashes
      to the digest in its path, every content row has its object with the recorded length, and neither is
      ever changed or lost. */
  lemma {:induction false} StoreStaysSound(hash: Bytes -> Digest, s: State, steps: seq<Step>, n: nat, m: nat)
    requires Sound(hash, s) && n <= m <= |steps|
    ensures Sound(hash, After(hash, s, steps, m)) && Grows(After(hash, s, steps, n), After(hash, s, steps, m))
  {
    hide Sound, Next;
    if m > 0 {
      StoreStaysSound(hash, s, steps, if n < m then n else m - 1, m - 1);
      NextKeepsSound(hash, After(hash, s, steps, m - 1), steps[m - 1]);
    }
  }

  /** A completed asset can always be reused: the check of lines 186-190 finds the object of a recorded
      digest, with that hash and the recorded length. */
  lemma RecordedContentIsReadable(hash: Bytes -> Digest, s: State, steps: seq<Step>, n: nat, m: nat, d: Digest)
    requires Sound(hash, s) && n <= m <= |steps| && d in After(hash, s, steps, n).rows
    ensures var end := After(hash, s, steps, m);
            && Object(d) in end.files && hash(end.files[Object(d)]) == d
            && After(hash, s, steps, n).rows[d] == Row(|end.files[Object(d)]|, Object(d))
  {
    StoreStaysSound(hash, s, steps, n, m);
  }

  // ----- A lock that outlives its holder -----

  /** The lock file of a digest is there, and nobody holds it. */
  predicate Orphaned(s: State, d: Digest) {
    LockFile(d) in s.files && forall w :: w in s.workers && HoldsLock(s.workers[w]) ==> s.workers[w].digest != d
  }

  /** The three ways to lose a lock file: a crash while holding the lock, a lock file that is created but not
      written or synced, and a release that does not unlink it. */
  predicate LosesLock(s: State, step: Step, d: Digest) {
    var phase := PhaseOf(s, step.worker);
    || (step.Crash? && HoldsLock(phase) && phase.digest == d)
    || (step.LeaveLock? && phase.Hashed? && phase.digest == d && LockFile(d) !in s.files)
    || (step.Release? && !step.unlinked && (phase.Recorded? || phase.Failing?) && phase.digest == d)
  }

  /** Exactly these orphan the lock of a digest. */
  lemma OrphanedExactlyByALoss(hash: Bytes -> Digest, s: State, step: Step, d: Digest)
    requires LocksExclude(s) && !Orphaned(s, d)
    ensures Orphaned(Next(hash, s, step), d) <==> LosesLock(s, step, d)
  {
    if LockFile(d) !in s.files {
      UnlockedOrphanedByALoss(hash, s, step, d);
    } else {
      var v :| v in s.workers && HoldsLock(s.workers[v]) && s.workers[v].digest == d;
      if v == step.worker {
        HolderOrphansByALoss(hash, s, step, d);
      } else {
        OtherStays(hash, s, step, v);
        hide Next;
        assert !Orphaned(Next(hash, s, step), d);
      }
    }
  }

  lemma UnlockedOrphanedByALoss(hash: Bytes -> Digest, s: State, step: Step, d: Digest)
    requires LocksExclude(s) && LockFile(d) !in s.files
    ensures Orphaned(Next(hash, s, step), d) <==> LosesLock(s, step, d)
  {
    var phase := PhaseOf(s, step.worker);
    if step.Lock? && phase.Hashed? && phase.digest == d {
      assert HoldsLock(Next(hash, s, step).workers[step.worker]);
    } else if step.LeaveLock? && phase.Hashed? && phase.digest == d {
      assert Next(hash, s, step).workers == s.workers[step.worker := Gone];
    } else {
      assert LockFile(d) !in Next(hash, s, step).files;
    }
  }

  lemma HolderOrphansByALoss(hash: Bytes -> Digest, s: State, step: Step, d: Digest)
    requires LocksExclude(s) && step.worker in s.workers
    requires HoldsLock(s.workers[step.worker]) && s.workers[step.worker].digest == d
    ensures Orphaned(Next(hash, s, step), d) <==> LosesLock(s, step, d)
  {
    var after := Next(hash, s, step);
    if LosesLock(s, step, d) {
      assert after == Moved(s, step.worker, Gone);
    } else if step.Release? && (s.workers[step.worker].Recorded? || s.workers[step.worker].Failing?) {
      assert LockFile(d) !in after.files;
    } else {
      assert HoldsLock(after.workers[step.worker]) && after.workers[step.worker].digest == d;
    }
  }

  lemma OtherStays(hash: Bytes -> Digest, s: State, step: Step, v: Worker)
    requires v in s.workers && v != step.worker
    ensures v in Next(hash, s, step).workers && Next(hash, s, step).workers[v] == s.workers[v]
  {
  }

  /** Over a run: the lock of a digest is orphaned exactly when some step lost it. */
  lemma {:induction false} OrphanedExactlyWhenLost(hash: Bytes -> Digest, s: State, steps: seq<Step>, n: nat, d: Digest)
    requires LocksExclude(s) && !Orphaned(s, d) && n <= |steps|
    ensures LocksExclude(After(hash, s, steps, n))
    ensures Orphaned(After(hash, s, steps, n), d)
       <==> exists k :: 0 <= k < n && LosesLock(After(hash, s, steps, k), steps[k], d)
  {
    hide Next, Orphaned, LosesLock, LocksExclude;
    if n > 0 {
      var before := After(hash, s, steps, n - 1);
      OrphanedExactlyWhenLost(hash, s, steps, n - 1, d);
      LocksKept(hash, before, steps[n - 1]);
      if Orphaned(before, d) {
        OrphanKept(hash, before, steps[n - 1], d);
      } else {
        OrphanedExactlyByALoss(hash, before, steps[n - 1], d);
      }
    }
  }

  lemma OrphanKept(hash: Bytes -> Digest, s: State, step: Step, d: Digest)
    requires Orphaned(s, d)
    ensures var after := Next(hash, s, step);
            && Orphaned(after, d) && (d in after.rows <==> d in s.rows)
                 && (Object(d) in after.files <==> Object(d) in s.files)
  {
  }

  /** Nothing removes an orphaned lock file: whatever happens later, no worker enters the
      critical section of that digest again, and no object or row is ever added for it. */
  lemma {:induction false} OrphanedLockBlocksForever(hash: Bytes -> Digest, s: State, steps: seq<Step>, n: nat, m: nat,
                                                     d: Digest)
    requires n <= m <= |steps| && Orphaned(After(hash, s, steps, n), d)
    ensures Orphaned(After(hash, s, steps, m), d)
    ensures d in After(hash, s, steps, m).rows <==> d in After(hash, s, steps, n).rows
    ensures Object(d) in After(hash, s, steps, m).files <==> Object(d) in After(hash, s, steps, n).files
  {
    hide Next, Orphaned;
    if n < m {
      OrphanedLockBlocksForever(hash, s, steps, n, m - 1, d);
      OrphanKept(hash, After(hash, s, steps, m - 1), steps[m - 1], d);
    }
  }

  /** Some continuation records the digest. */
  ghost predicate Recordable(hash: Bytes -> Digest, s: State, d: Digest) {
    exists steps: seq<Step> :: d in After(hash, s, steps, |steps|).rows
  }

  /** A digest of some bytes can still be recorded exactly when it is recorded already or its lock is not
      orphaned; whoever holds the lock can fail and give it up. */
  lemma RecordableExactlyWhenNotOrphaned(hash: Bytes -> Digest, s: State, d: Digest, bytes: Bytes)
    requires Sound(hash, s) && hash(bytes) == d
    ensures Recordable(hash, s, d) <==> d in s.rows || !Orphaned(s, d)
  {
    if d in s.rows {
      assert d in After(hash, s, [], 0).rows;
    } else if Orphaned(s, d) {
      forall steps: seq<Step> ensures d !in After(hash, s, steps, |steps|).rows {
        OrphanedLockBlocksForever(hash, s, steps, 0, |steps|, d);
      }
    } else {
      var steps := Recorder(hash, s, d, bytes);
    }
  }

  lemma Recorder(hash: Bytes -> Digest, s: State, d: Digest, bytes: Bytes) returns (steps: seq<Step>)
    requires Sound(hash, s) && hash(bytes) == d && d !in s.rows && !Orphaned(s, d)
    ensures d in After(hash, s, steps, |steps|).rows
  {
    var w := Unlocker(hash, s, d);
    var there := Object(d) in s.files;
    var content := if there then s.files[Object(d)] else bytes;
    steps := [Fail(w), Release(w, true), Start(w), WriteFile(w, content), HashFile(w), Lock(w), Look(w),
              if there then Remove(w) else Rename(w), Record(w, true)];
    NineSteps(hash, s, steps);
    UnlockedBy(hash, s, d, w);
    hide Next, After, Sound, Orphaned, LosesLock, LocksExclude, ObjectsHash, HoldsLock;
    var unlocked := Next(hash, Next(hash, s, steps[0]), steps[1]);
    WrittenBy(hash, unlocked, d, w, content);
    var written := Next(hash, Next(hash, Next(hash, unlocked, steps[2]), steps[3]), steps[4]);
    PlacedBy(hash, written, d, w, content);
  }

  lemma NineSteps(hash: Bytes -> Digest, s: State, steps: seq<Step>)
    requires |steps| == 9
    ensures var unlocked := Next(hash, Next(hash, s, steps[0]), steps[1]);
            var written := Next(hash, Next(hash, Next(hash, unlocked, steps[2]), steps[3]), steps[4]);
            var looked := Next(hash, Next(hash, written, steps[5]), steps[6]);
            After(hash, s, steps, 9) == Next(hash, Next(hash, looked, steps[7]), steps[8])
  {
    hide Next;
    forall k | 0 <= k < 9 ensures After(hash, s, steps, k + 1) == Next(hash, After(hash, s, steps, k), steps[k]) {}
  }

  /** A worker that is the one to hold the lock of the digest, if any does. */
  lemma Unlocker(hash: Bytes -> Digest, s: State, d: Digest) returns (w: Worker)
    requires LocksExclude(s) && !Orphaned(s, d)
    ensures LockFile(d) in s.files ==> HoldsLock(PhaseOf(s, w)) && PhaseOf(s, w).digest == d
  {
    if LockFile(d) in s.files {
      w :| w in s.workers && HoldsLock(s.workers[w]) && s.workers[w].digest == d;
    } else {
      w := 0;
    }
  }

  lemma UnlockedBy(hash: Bytes -> Digest, s: State, d: Digest, w: Worker)
    requires ObjectsHash(hash, s) && d !in s.rows
    requires LockFile(d) in s.files ==> HoldsLock(PhaseOf(s, w)) && PhaseOf(s, w).digest == d
    ensures var after := Next(hash, Next(hash, s, Fail(w)), Release(w, true));
            && PhaseOf(after, w) == Gone && LockFile(d) !in after.files && d !in after.rows
            && (Object(d) in after.files <==> Object(d) in s.files)
            && (Object(d) in s.files ==> after.files[Object(d)] == s.files[Object(d)])
  {
  }

  lemma WrittenBy(hash: Bytes -> Digest, s: State, d: Digest, w: Worker, content: Bytes)
    requires PhaseOf(s, w) == Gone && LockFile(d) !in s.files && d !in s.rows && hash(content) == d
    ensures var after := Next(hash, Next(hash, Next(hash, s, Start(w)), WriteFile(w, content)), HashFile(w));
            && PhaseOf(after, w) == Hashed(d, |content|) && after.rows == s.rows
            && after.files == s.files[Partial(w) := content]
  {
  }

  lemma PlacedBy(hash: Bytes -> Digest, s: State, d: Digest, w: Worker, content: Bytes)
    requires PhaseOf(s, w) == Hashed(d, |content|) && LockFile(d) !in s.files && d !in s.rows && hash(content) == d
    requires Partial(w) in s.files && (Object(d) in s.files ==> s.files[Object(d)] == content)
    ensures var locked := Next(hash, Next(hash, s, Lock(w)), Look(w));
            var placed := Next(hash, locked, if Object(d) in s.files then Remove(w) else Rename(w));
            d in Next(hash, placed, Record(w, true)).rows
  {
  }

  // ----- One finalizer among the others -----

  const MAX_LOCK_ATTEMPTS := 100

  datatype Acquisition = Taken | NotTaken | LeftBehind

  datatype Ending = Done | Refused | CrashedHere

  /** Something of another length is at the content path. */
  predicate Conflicts(files: map<File, Bytes>, digest: Digest, length: nat) {
    Object(digest) in files && |files[Object(digest)]| != length
  }

  class Store {
    const hash: Bytes -> Digest
    /** Whether nothing interrupts this worker, and files and rows do what it asks of them. */
    const calm: bool
    var files: map<File, Bytes>
    var rows: map<Digest, Row>
    /** How far each worker has come: the program counters, not anything stored. */
    var workers: map<Worker, Phase>

    constructor (hash: Bytes -> Digest, calm: bool)
      ensures this.hash == hash && this.calm == calm && Value() == EMPTY && Sound(hash, Value())
    {
      this.hash, this.calm := hash, calm;
      files, rows, workers := map[], map[], map[];
    }

    function Value(): State
      reads this
    {
      State(files, rows, workers)
    }

    /** Any steps of any other workers. */
    method Others(me: Worker)
      requires Sound(hash, Value()) && me in workers
      modifies this
      ensures Sound(hash, Value()) && me in workers && workers[me] == old(workers)[me] && Grows(old(Value()), Value())
    {
      hide Sound, Next;
      var steps: int := *;
      while 0 < steps
        invariant Sound(hash, Value()) && me in workers && workers[me] == old(workers)[me]
        invariant Grows(old(Value()), Value())
      {
        var step: Step := *;
        if step.worker != me {
          NextKeepsSound(hash, Value(), step);
          OtherPhaseKept(hash, Value(), step, me);
          var next := Next(hash, Value(), step);
          files, rows, workers := next.files, next.rows, next.workers;
        }
        steps := steps - 1;
      }
    }

    method Become(me: Worker, phase: Phase)
      modifies this`workers
      ensures workers == old(workers)[me := phase]
    {
      workers := workers[me := phase];
    }

    /** `acquireContentLock`: the lock file is created if it is not there, at most a hundred times; when it
        cannot be written or synced, it stays behind and the worker fails. */
    method AcquireContentLock(me: Worker) returns (result: Acquisition)
      requires Sound(hash, Value()) && me in workers && workers[me].Hashed?
      modifies this
      ensures Sound(hash, Value()) && me in workers
      ensures var was := old(workers)[me];
              match result
              case Taken => workers[me] == Locked(was.digest, was.length)
              case NotTaken => workers[me] == was
              case LeftBehind => workers[me] == Gone && Orphaned(Value(), was.digest)
      ensures calm ==> result == Taken || (result == NotTaken && LockFile(old(workers)[me].digest) in files)
    {
      hide Sound, Grows, Orphaned;
      var digest, length := workers[me].digest, workers[me].length;
      var attempt := 0;
      while attempt < MAX_LOCK_ATTEMPTS
        invariant Sound(hash, Value()) && me in workers && workers[me] == old(workers)[me]
        invariant attempt > 0 ==> LockFile(digest) in files
      {
        Others(me);
        var aborted: bool := *;
        if aborted && !calm {
          return NotTaken;
        }
        if LockFile(digest) !in files {
          var failed: bool := *;
          var written := calm || !failed;
          LockStep(hash, Value(), me);
          files := files[LockFile(digest) := []];
          Become(me, if written then Locked(digest, length) else Gone);
          return if written then Taken else LeftBehind;
        }
        attempt := attempt + 1;
      }
      return NotTaken;
    }

    /** The object and the row of the worker's digest are there. */
    predicate Kept(phase: Phase)
      requires phase.Recorded?
      reads this
    {
      phase.digest in rows && rows[phase.digest] == Row(phase.length, Object(phase.digest))
        && Object(phase.digest) in files
    }

    /** The lock is given up whether the operation succeeded or failed; if its file cannot be unlinked, it stays
        behind and the worker fails. */
    method ReleaseLock(me: Worker) returns (unlinked: bool)
      requires Sound(hash, Value()) && me in workers && (workers[me].Recorded? || workers[me].Failing?)
      modifies this
      ensures Sound(hash, Value()) && me in workers && workers[me] == Gone
      ensures var was := old(workers)[me];
              && (was.Recorded? ==> Kept(was))
              && (if unlinked then LockFile(was.digest) !in files else Orphaned(Value(), was.digest))
      ensures Grows(old(Value()), Value()) && (calm ==> unlinked)
    {
      hide Sound, Grows, Orphaned;
      Others(me);
      ghost var before := Value();
      if workers[me].Recorded? {
        RecordedRow(hash, Value(), me);
      }
      var failed: bool := *;
      unlinked := calm || !failed;
      ReleaseStep(hash, Value(), me);
      if unlinked {
        files := files - {LockFile(workers[me].digest)};
      }
      Become(me, Gone);
      KeptObjects(before, Value());
      GrowsOn(old(Value()), before, Value());
    }

    /** Fails with the lock held, and gives it up. */
    method GiveUp(me: Worker) returns (ending: Ending)
      requires Sound(hash, Value()) && me in workers && HoldsLock(workers[me])
      modifies this
      ensures Sound(hash, Value()) && ending == Refused && Grows(old(Value()), Value())
    {
      hide Sound, Grows;
      FailStep(hash, Value(), me);
      Become(me, Failing(workers[me].digest, workers[me].length));
      ghost var before := Value();
      KeptObjects(old(Value()), before);
      var unlinked := ReleaseLock(me);
      GrowsOn(old(Value()), before, Value());
      return Refused;
    }

    method CrashNow(me: Worker) returns (ending: Ending)
      requires Sound(hash, Value()) && me in workers
      modifies this`workers
      ensures Sound(hash, Value()) && ending == CrashedHere
      ensures HoldsLock(old(workers)[me]) ==> Orphaned(Value(), old(workers)[me].digest)
    {
      hide Sound, Grows, Orphaned;
      CrashStep(hash, Value(), me);
      Become(me, Gone);
      return CrashedHere;
    }

    /** `promote`: the destination is looked for, and then the partial file is renamed to it. */
    method Promote(me: Worker) returns (ok: bool)
      requires Sound(hash, Value()) && me in workers && workers[me].Absent?
      modifies this
      ensures Sound(hash, Value()) && me in workers
      ensures var was := old(workers)[me]; ok && workers[me] == Stored(was.digest, was.length)
    {
      hide Sound, Grows, PhaseSound;
      var digest, length := workers[me].digest, workers[me].length;
      Others(me);
      AbsentStep(hash, Value(), me);
      if Partial(me) !in files || Object(digest) in files {
        return false;
      }
      Others(me);
      AbsentStep(hash, Value(), me);
      files := (files - {Partial(me)})[Object(digest) := files[Partial(me)]];
      Become(me, Stored(digest, length));
      return true;
    }

    /** `finalizeAssetDownload` inserts the content row, or finds one that agrees; it may refuse. */
    method RecordContent(me: Worker) returns (ok: bool)
      requires Sound(hash, Value()) && me in workers && workers[me].Stored?
      modifies this
      ensures Sound(hash, Value()) && me in workers
      ensures var was := old(workers)[me]; workers[me] == if ok then Recorded(was.digest, was.length)
        else Failing(was.digest, was.length)
      ensures calm ==> ok
    {
      hide Sound, Grows;
      Others(me);
      var phase := workers[me];
      var lost: bool := *;
      var owned := calm || !lost;
      RecordStep(hash, Value(), me);
      StoredAgrees(hash, Value(), me);
      if !owned || (phase.digest in rows && rows[phase.digest] != Row(phase.length, Object(phase.digest))) {
        Become(me, Failing(phase.digest, phase.length));
        return false;
      }
      if phase.digest !in rows {
        rows := rows[phase.digest := Row(phase.length, Object(phase.digest))];
      }
      Become(me, Recorded(phase.digest, phase.length));
      return true;
    }

    /** Lines 356-369: what is already there is looked at, and the bytes are promoted unless they are there. */
    method Place(me: Worker) returns (ending: Option<Ending>)
      requires Sound(hash, Value()) && me in workers && workers[me].Locked?
      modifies this
      ensures Sound(hash, Value())
      ensures ending.None? ==> me in workers && workers[me] == Stored(old(workers)[me].digest, old(workers)[me].length)
      ensures ending.Some? ==> ending.value != Done
      ensures calm && ending.Some? ==>
        ending.value == Refused && Conflicts(files, old(workers)[me].digest, old(workers)[me].length)
    {
      hide Sound, Grows;
      var digest, length := workers[me].digest, workers[me].length;
      Others(me);
      LookStep(hash, Value(), me);
      SeenConflict(hash, Value(), me);
      Become(me, Seen(hash, Value(), workers[me]));
      ghost var seen := Value();
      Others(me);
      var crash: bool := *;
      var end: Ending;
      if crash && !calm {
        end := CrashNow(me);
        return Some(end);
      }
      if workers[me].Failing? {
        ghost var looked := Value();
        end := GiveUp(me);
        GrowsOn(seen, looked, Value());
        ConflictStays(seen, Value(), digest, length);
        return Some(end);
      }
      if workers[me].Absent? {
        var promoted := Promote(me);
      } else {
        RemoveStep(hash, Value(), me);
        files := files - {Partial(me)};
        Become(me, Stored(digest, length));
      }
      return None;
    }

    /** Lines 355-385, for a worker that hashed its partial file: whatever the others do meanwhile, the
        object and the row of the digest are there when it succeeds, and the store is sound however it ends. */
    method Finalize(me: Worker) returns (ending: Ending)
      requires Sound(hash, Value()) && me in workers && workers[me].Hashed?
      modifies this
      ensures Sound(hash, Value())
      ensures ending == Done ==> var was := old(workers)[me];
        was.digest in rows && rows[was.digest] == Row(was.length, Object(was.digest)) && Object(was.digest) in files
        && LockFile(was.digest) !in files
      ensures calm && ending != Done ==> var was := old(workers)[me];
        ending == Refused && (LockFile(was.digest) in files || Conflicts(files, was.digest, was.length))
    {
      hide Sound, Grows, Conflicts;
      var digest, length := workers[me].digest, workers[me].length;
      var acquisition := AcquireContentLock(me);
      if acquisition != Taken {
        return Refused;
      }
      var crash: bool := *;
      if crash && !calm {
        ending := CrashNow(me);
        return;
      }
      var placed := Place(me);
      if placed.Some? {
        return placed.value;
      }
      crash := *;
      if crash && !calm {
        ending := CrashNow(me);
        return;
      }
      var recorded := RecordContent(me);
      if !recorded {
        ending := GiveUp(me);
        return;
      }
      crash := *;
      if crash && !calm {
        ending := CrashNow(me);
        return;
      }
      var unlinked := ReleaseLock(me);
      return if unlinked then Done else Refused;
    }
  }

  // ----- The worker's own steps -----

  lemma LockStep(hash: Bytes -> Digest, s: State, me: Worker)
    requires Sound(hash, s) && me in s.workers && s.workers[me].Hashed? && LockFile(s.workers[me].digest) !in s.files
    ensures var phase := s.workers[me];
            var files := s.files[LockFile(phase.digest) := []];
            && Sound(hash, Moved(s, me, Locked(phase.digest, phase.length)).(files := files))
            && Sound(hash, Moved(s, me, Gone).(files := files))
            && Orphaned(Moved(s, me, Gone).(files := files), phase.digest)
  {
    SoundLocks(hash, s);
    OrphanedExactlyByALoss(hash, s, LeaveLock(me), s.workers[me].digest);
    hide Sound, Orphaned;
    NextKeepsSound(hash, s, Lock(me));
    NextKeepsSound(hash, s, LeaveLock(me));
  }

  lemma SoundLocks(hash: Bytes -> Digest, s: State)
    requires Sound(hash, s)
    ensures LocksExclude(s)
  {
  }

  lemma HeldIsNotOrphaned(hash: Bytes -> Digest, s: State, me: Worker)
    requires Sound(hash, s) && me in s.workers && HoldsLock(s.workers[me])
    ensures LocksExclude(s) && !Orphaned(s, s.workers[me].digest)
  {
  }

  lemma ReleaseStep(hash: Bytes -> Digest, s: State, me: Worker)
    requires Sound(hash, s) && me in s.workers && (s.workers[me].Recorded? || s.workers[me].Failing?)
    ensures Sound(hash, Moved(s, me, Gone).(files := s.files - {LockFile(s.workers[me].digest)}))
    ensures Sound(hash, Moved(s, me, Gone)) && Orphaned(Moved(s, me, Gone), s.workers[me].digest)
  {
    hide Sound, Orphaned;
    NextKeepsSound(hash, s, Release(me, true));
    NextKeepsSound(hash, s, Release(me, false));
    LeftBehind(hash, s, me);
  }

  lemma LeftBehind(hash: Bytes -> Digest, s: State, me: Worker)
    requires Sound(hash, s) && me in s.workers && HoldsLock(s.workers[me])
    ensures Orphaned(Moved(s, me, Gone), s.workers[me].digest)
  {
    HeldIsNotOrphaned(hash, s, me);
    hide Sound, Orphaned, LocksExclude;
    OrphanedExactlyByALoss(hash, s, Crash(me), s.workers[me].digest);
  }

  lemma FailStep(hash: Bytes -> Digest, s: State, me: Worker)
    requires Sound(hash, s) && me in s.workers && HoldsLock(s.workers[me])
    ensures Sound(hash, Moved(s, me, Failing(s.workers[me].digest, s.workers[me].length)))
  {
    hide Sound;
    NextKeepsSound(hash, s, Fail(me));
  }

  lemma CrashStep(hash: Bytes -> Digest, s: State, me: Worker)
    requires Sound(hash, s) && me in s.workers
    ensures Sound(hash, Moved(s, me, Gone))
    ensures HoldsLock(s.workers[me]) ==> Orphaned(Moved(s, me, Gone), s.workers[me].digest)
  {
    if HoldsLock(s.workers[me]) {
      LeftBehind(hash, s, me);
    }
    hide Sound, Orphaned;
    NextKeepsSound(hash, s, Crash(me));
  }

  lemma AbsentStep(hash: Bytes -> Digest, s: State, me: Worker)
    requires Sound(hash, s) && me in s.workers && s.workers[me].Absent?
    ensures var phase := s.workers[me];
            && Partial(me) in s.files && Object(phase.digest) !in s.files
            && Sound(hash, Moved(s, me, Stored(phase.digest, phase.length)).(
                 files := (s.files - {Partial(me)})[Object(phase.digest) := s.files[Partial(me)]]))
  {
    assert PhaseSound(hash, s, me);
    hide Sound;
    NextKeepsSound(hash, s, Rename(me));
  }

  lemma RecordStep(hash: Bytes -> Digest, s: State, me: Worker)
    requires Sound(hash, s) && me in s.workers && s.workers[me].Stored?
    ensures var phase := s.workers[me];
            && Sound(hash, Moved(s, me, Failing(phase.digest, phase.length)))
            && (RowAgrees(s, phase) ==> Sound(hash,
                                              Moved(s, me, Recorded(phase.digest, phase.length)).(rows := Recording(s,
                                                  phase))))
  {
    hide Sound;
    NextKeepsSound(hash, s, Record(me, true));
    NextKeepsSound(hash, s, Record(me, false));
  }

  lemma GrowsOn(a: State, b: State, c: State)
    requires Grows(a, b) && Grows(b, c)
    ensures Grows(a, c)
  {
  }

  lemma KeptObjects(before: State, after: State)
    requires after.rows == before.rows
    requires forall d :: Object(d) in before.files ==>
               Object(d) in after.files && after.files[Object(d)] == before.files[Object(d)]
    ensures Grows(before, after)
  {
  }

  lemma ConflictStays(before: State, after: State, digest: Digest, length: nat)
    requires Grows(before, after) && Conflicts(before.files, digest, length)
    ensures Conflicts(after.files, digest, length)
  {
  }

  /** What a lock holder has stored agrees with the row of its digest, if there is one. */
  lemma StoredAgrees(hash: Bytes -> Digest, s: State, me: Worker)
    requires Sound(hash, s) && me in s.workers && s.workers[me].Stored?
    ensures RowAgrees(s, s.workers[me])
  {
    assert PhaseSound(hash, s, me);
  }

  /** A lock holder fails at the content path only over something of another length. */
  lemma SeenConflict(hash: Bytes -> Digest, s: State, me: Worker)
    requires Sound(hash, s) && me in s.workers && s.workers[me].Locked?
    ensures var phase := s.workers[me];
            Seen(hash, s, phase).Failing? <==> Conflicts(s.files, phase.digest, phase.length)
  {
  }

  lemma LookStep(hash: Bytes -> Digest, s: State, me: Worker)
    requires Sound(hash, s) && me in s.workers && s.workers[me].Locked?
    ensures var seen := Seen(hash, s, s.workers[me]);
            && Sound(hash, Moved(s, me, seen)) && (seen.Failing? || seen.Absent? || seen.Matched?)
            && seen.digest == s.workers[me].digest && seen.length == s.workers[me].length
  {
    NextKeepsSound(hash, s, Look(me));
  }

  lemma RemoveStep(hash: Bytes -> Digest, s: State, me: Worker)
    requires Sound(hash, s) && me in s.workers && s.workers[me].Matched?
    ensures var after := Moved(s, me, Stored(s.workers[me].digest,
                                             s.workers[me].length)).(files := s.files - {Partial(me)});
            Sound(hash, after) && Grows(s, after)
  {
    NextKeepsSound(hash, s, Remove(me));
  }

  lemma RecordedRow(hash: Bytes -> Digest, s: State, me: Worker)
    requires Sound(hash, s) && me in s.workers && s.workers[me].Recorded?
    ensures var was := s.workers[me];
            was.digest in s.rows && s.rows[was.digest] == Row(was.length, Object(was.digest))
              && Object(was.digest) in s.files
  {
    assert PhaseSound(hash, s, me);
  }
}

/** A finalization that nothing interrupts (packages/application-service/src/asset-downloader.ts:352-385): what it
    leaves, file by file. */
module ContentProgress {
  import opened Octets
  import opened ContentStore

  /** The lock, the look at the content path, the rename or the removal of the partial file, the record, the release. */
  function Finalizing(s: State, w: Worker, digest: Digest): seq<Step> {
    [Lock(w), Look(w), if Object(digest) in s.files then Remove(w) else Rename(w), Record(w, true), Release(w, true)]
  }

  /** What is at the content path is of the length of the partial file, or there is nothing. */
  predicate SameLength(s: State, digest: Digest, length: nat) {
    Object(digest) in s.files ==> |s.files[Object(digest)]| == length
  }

  /** The object afterwards: the one that was there, or the partial file. */
  function ObjectAfter(s: State, w: Worker, digest: Digest): Bytes
    requires Partial(w) in s.files
  {
    if Object(digest) in s.files then s.files[Object(digest)] else s.files[Partial(w)]
  }

  lemma Locking(hash: Bytes -> Digest, s: State, w: Worker, digest: Digest, length: nat)
    requires Sound(hash, s) && w in s.workers && s.workers[w] == Hashed(digest, length)
    requires LockFile(digest) !in s.files
    ensures Partial(w) in s.files && hash(s.files[Partial(w)]) == digest && |s.files[Partial(w)]| == length
    ensures digest in s.rows ==>
      Object(digest) in s.files && s.rows[digest] == Row(|s.files[Object(digest)]|, Object(digest))
    ensures Object(digest) in s.files ==> hash(s.files[Object(digest)]) == digest
    ensures Next(hash, s, Lock(w))
         == State(s.files[LockFile(digest) := []], s.rows, s.workers[w := Locked(digest, length)])
  {
    assert PhaseSound(hash, s, w);
  }

  lemma Looking(hash: Bytes -> Digest, s: State, w: Worker, digest: Digest, length: nat)
    requires w in s.workers && s.workers[w] == Locked(digest, length)
    requires digest in s.rows ==> s.rows[digest].path == Object(digest)
    requires Object(digest) in s.files ==> hash(s.files[Object(digest)]) == digest
    ensures Next(hash, s, Look(w))
         == State(s.files, s.rows,
                  s.workers[w := if Object(digest) !in s.files then Absent(digest, length)
                                 else if SameLength(s, digest, length) then Matched(digest, length)
                                 else Failing(digest, length)])
  {
  }

  lemma Storing(hash: Bytes -> Digest, s: State, w: Worker, digest: Digest, length: nat, step: Step)
    requires w in s.workers && Partial(w) in s.files
    requires if Object(digest) in s.files then s.workers[w] == Matched(digest, length) && step == Remove(w)
             else s.workers[w] == Absent(digest, length) && step == Rename(w)
    ensures Next(hash, s, step)
         == State((s.files - {Partial(w)})[Object(digest) := ObjectAfter(s, w, digest)], s.rows,
                  s.workers[w := ContentStore.Stored(digest, length)])
  {
    if Object(digest) in s.files {
      var left := s.files - {Partial(w)};
      assert left[Object(digest)] == s.files[Object(digest)];
      assert left[Object(digest) := s.files[Object(digest)]] == left;
    }
  }

  lemma RecordsRow(hash: Bytes -> Digest, s: State, w: Worker, digest: Digest, length: nat)
    requires w in s.workers && s.workers[w] == ContentStore.Stored(digest, length)
    requires digest in s.rows ==> s.rows[digest] == Row(length, Object(digest))
    ensures Next(hash, s, Record(w, true))
         == State(s.files, s.rows[digest := Row(length, Object(digest))],
                  s.workers[w := Recorded(digest, length)])
  {
    if digest in s.rows {
      assert s.rows[digest := s.rows[digest]] == s.rows;
    }
  }

  lemma Releasing(hash: Bytes -> Digest, s: State, w: Worker, digest: Digest, length: nat)
    requires w in s.workers
    requires s.workers[w] == Recorded(digest, length) || s.workers[w] == Failing(digest, length)
    ensures Next(hash, s, Release(w, true)) == State(s.files - {LockFile(digest)}, s.rows, s.workers[w := Gone])
  {
  }

  lemma {:induction false} FiveSteps(hash: Bytes -> Digest, s: State, steps: seq<Step>)
    requires |steps| == 5
    ensures After(hash, s, steps, 5)
         == Next(hash, Next(hash, Next(hash, Next(hash, Next(hash, s, steps[0]), steps[1]), steps[2]), steps[3]),
                 steps[4])
  {
    hide Next;
    assert After(hash, s, steps, 1) == Next(hash, s, steps[0]);
    assert After(hash, s, steps, 2) == Next(hash, After(hash, s, steps, 1), steps[1]);
    assert After(hash, s, steps, 3) == Next(hash, After(hash, s, steps, 2), steps[2]);
    assert After(hash, s, steps, 4) == Next(hash, After(hash, s, steps, 3), steps[3]);
  }

  /** From any sound state with the lock to be had: the row and the object are there, the object that was there is kept,
      the partial file and the lock are gone, and nothing else has changed; unless an object of another length has the
      same digest, when nothing changes. So a second worker with the same bytes ends like the first. */
  lemma FinalizesExactly(hash: Bytes -> Digest, s: State, w: Worker, digest: Digest, length: nat)
    requires Sound(hash, s) && w in s.workers && s.workers[w] == Hashed(digest, length)
    requires LockFile(digest) !in s.files
    ensures Partial(w) in s.files
    ensures var t := After(hash, s, Finalizing(s, w, digest), 5);
            if SameLength(s, digest, length)
            then t == State((s.files - {Partial(w)})[Object(digest) := ObjectAfter(s, w, digest)],
                            s.rows[digest := Row(length, Object(digest))], s.workers[w := Gone])
            else t == State(s.files, s.rows, s.workers[w := Gone])
  {
    hide Next, Sound;
    var steps := Finalizing(s, w, digest);
    FiveSteps(hash, s, steps);
    Locking(hash, s, w, digest, length);
    var a := Next(hash, s, Lock(w));
    Looking(hash, a, w, digest, length);
    var b := Next(hash, a, Look(w));
    if SameLength(s, digest, length) {
      Storing(hash, b, w, digest, length, steps[2]);
      var c := Next(hash, b, steps[2]);
      RecordsRow(hash, c, w, digest, length);
      var d := Next(hash, c, Record(w, true));
      Releasing(hash, d, w, digest, length);
      LockGoes(s, w, digest);
    } else {
      FailingStays(hash, b, w, digest, length);
      Releasing(hash, b, w, digest, length);
      LockUndone(s, digest);
    }
  }

  lemma LockGoes(s: State, w: Worker, digest: Digest)
    requires LockFile(digest) !in s.files && Partial(w) in s.files
    ensures var files := s.files[LockFile(digest) := []];
            (files - {Partial(w)})[Object(digest) := ObjectAfter(s, w, digest)] - {LockFile(digest)}
              == (s.files - {Partial(w)})[Object(digest) := ObjectAfter(s, w, digest)]
  {
  }

  lemma LockUndone(s: State, digest: Digest)
    requires LockFile(digest) !in s.files
    ensures s.files[LockFile(digest) := []] - {LockFile(digest)} == s.files
  {
  }

  lemma FailingStays(hash: Bytes -> Digest, s: State, w: Worker, digest: Digest, length: nat)
    requires w in s.workers && s.workers[w] == Failing(digest, length)
    ensures Next(hash, s, Remove(w)) == s && Next(hash, s, Rename(w)) == s
    ensures Next(hash, s, Record(w, true)) == s
  {
  }
}

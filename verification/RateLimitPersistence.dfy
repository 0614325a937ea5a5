/** Saving and restoring origin cooldowns (packages/archive-core/src/scheduler.ts:562-593 and
    packages/persistence-sqlite/src/scheduler.ts:52-74). Saves run one after another; any of them may
    fail, and a failure is remembered. */
module RateLimitPersistence {
  import opened Options
  import opened PoolConfiguration
  import opened OriginBudget

  datatype Row = Row(cooldownUntilMs: Option<int>, lastStatus: Option<int>)

  /** One queued save, in the order in which the saves run. */
  datatype Save = Save(origin: string, row: Row)

  datatype System = System(budget: Budget, queue: seq<Save>, failed: bool, rows: map<string, Row>)

  datatype Event =
    | Operate(atMs: int, op: Operation)
    | RunSave(atMs: int, succeeds: bool)

  predicate Queues(op: Operation) {
    op.Respond? && ValidStatus(op.status) && Limits(op.status)
  }

  function RowOf(b: Bucket): Row {
    Row(b.cooldownUntilMs, b.lastStatus)
  }

  function Next(cfg: Configuration, s: System, e: Event): System {
    match e
    case Operate(atMs, op) =>
      var budget := Step(cfg, s.budget, op, atMs);
      if Queues(op) then s.(budget := budget, queue := s.queue + [Save(op.origin, RowOf(budget.buckets[op.origin]))])
      else s.(budget := budget)
    case RunSave(_, succeeds) =>
      if s.queue == [] then s
      else if succeeds then s.(queue := s.queue[1..], rows := s.rows[s.queue[0].origin := s.queue[0].row])
      else s.(queue := s.queue[1..], failed := true)
  }

  class RateLimitJournal {
    const cfg: Configuration
    const budget: InMemoryOriginNetworkBudget
    var queue: seq<Save>
    var persistenceError: bool
    var rows: map<string, Row>

    constructor (cfg: Configuration, budget: InMemoryOriginNetworkBudget, rows: map<string, Row>)
      requires budget.cfg == cfg
      ensures this.cfg == cfg && this.budget == budget
      ensures queue == [] && !persistenceError && this.rows == rows
    {
      this.cfg, this.budget, this.rows := cfg, budget, rows;
      queue, persistenceError := [], false;
    }

    function Value(): System
      reads this, budget
    {
      System(budget.Value(), queue, persistenceError, rows)
    }

    method RecordOriginResponse(origin: string, status: int, retryAfter: RetryAfter, nowMs: int) returns (ok: bool)
      requires budget.cfg == cfg
      modifies this, budget
      ensures Value() == Next(cfg, old(Value()), Operate(nowMs, Respond(origin, status, retryAfter)))
      ensures ok == ValidStatus(status)
    {
      var seen := budget.RecordResponse(origin, status, retryAfter, nowMs);
      if seen.None? {
        return false;
      }
      if status == 429 || status == 503 {
        queue := queue + [Save(origin, RowOf(seen.value))];
      }
      return true;
    }

    /** The next queued save; whether it succeeds is the database's choice. */
    method RunNextSave(succeeds: bool)
      modifies this
      ensures Value() == Next(cfg, old(Value()), RunSave(0, succeeds))
    {
      if queue != [] {
        if succeeds {
          rows := rows[queue[0].origin := queue[0].row];
        } else {
          persistenceError := true;
        }
        queue := queue[1..];
      }
    }

    /** Others record responses, and queue saves, while a flush is waiting. */
    method RecordOthers() returns (ghost added: seq<Save>)
      requires budget.cfg == cfg
      modifies this, budget
      ensures queue == old(queue) + added && rows == old(rows) && persistenceError == old(persistenceError)
    {
      added := [];
      var count: nat := *;
      while count > 0
        invariant queue == old(queue) + added && rows == old(rows) && persistenceError == old(persistenceError)
      {
        var origin: string := *;
        var status: int := *;
        var retryAfter: RetryAfter := *;
        var nowMs: int := *;
        ghost var before := queue;
        var ok := RecordOriginResponse(origin, status, retryAfter, nowMs);
        added := added + queue[|before|..];
        count := count - 1;
      }
    }

    /** Waits for the saves that are queued when it is called; those that are queued meanwhile are left. */
    method FlushStatePersistence(works: seq<bool>) returns (ok: bool, ghost added: seq<Save>)
      requires budget.cfg == cfg && |works| == |queue|
      modifies this, budget
      ensures queue == added && rows == Replay(old(rows), Working(old(queue), works, |works|))
      ensures ok <==> !old(persistenceError) && false !in works
      ensures ok ==> !persistenceError && rows == Replay(old(rows), old(queue))
      ensures ok <==> !persistenceError
    {
      hide Replay, Working;
      added := [];
      NothingSaved(rows, queue, works);
      var i := 0;
      ghost var mine := old(queue);
      while i < |works|
        invariant i <= |works| && queue == mine[i..] + added
        invariant persistenceError <==> old(persistenceError) || false in works[..i]
        invariant rows == Replay(old(rows), Working(mine, works, i))
      {
        ghost var more := RecordOthers();
        added := added + more;
        assert queue[0] == mine[i] && queue[1..] == mine[i + 1..] + added;
        assert works[..i + 1] == works[..i] + [works[i]];
        OneMoreSave(old(rows), mine, works, i);
        RunNextSave(works[i]);
        i := i + 1;
      }
      assert works[..|works|] == works;
      ok := !persistenceError;
      if ok {
        AllWork(mine, works, |works|);
      }
    }

    /** Puts every saved cooldown into the budget. */
    method RestorePersistedOriginRateLimits(listing: seq<string>, nowMs: int) returns (ok: bool)
      requires budget.cfg == cfg && Lists(listing, rows)
      modifies budget
      ensures ok ==> budget.Value() == RestoredBudget(cfg, old(budget.Value()), rows, listing, |listing|, nowMs)
      ensures ok <==> ValidRows(rows)
    {
      var i := 0;
      while i < |listing|
        invariant i <= |listing|
        invariant budget.Value() == RestoredBudget(cfg, old(budget.Value()), rows, listing, i, nowMs)
        invariant forall k :: 0 <= k < i ==> rows[listing[k]].cooldownUntilMs.Some? ==>
          rows[listing[k]].cooldownUntilMs.value >= 0
      {
        var row := rows[listing[i]];
        if row.cooldownUntilMs.Some? {
          if row.cooldownUntilMs.value < 0 {
            return false;
          }
          var restored := budget.RestoreCooldown(listing[i], row.cooldownUntilMs.value, row.lastStatus, nowMs);
        }
        i := i + 1;
      }
      return true;
    }
  }

  /** The saves among the first `n` that the database accepts. */
  function Working(queue: seq<Save>, works: seq<bool>, n: nat): seq<Save>
    requires n <= |works| == |queue|
  {
    if n == 0 then [] else Working(queue, works, n - 1) + (if works[n - 1] then [queue[n - 1]] else [])
  }

  lemma NothingSaved(rows: map<string, Row>, queue: seq<Save>, works: seq<bool>)
    requires |works| == |queue|
    ensures Replay(rows, Working(queue, works, 0)) == rows
  {
  }

  lemma OneMoreSave(rows: map<string, Row>, queue: seq<Save>, works: seq<bool>, n: nat)
    requires n < |works| == |queue|
    ensures var before := Replay(rows, Working(queue, works, n));
            Replay(rows, Working(queue, works, n + 1))
              == if works[n] then before[queue[n].origin := queue[n].row] else before
  {
    ReplayAppend(rows, Working(queue, works, n), queue[n]);
    assert Working(queue, works, n) + [] == Working(queue, works, n);
  }

  lemma {:induction false} AllWork(queue: seq<Save>, works: seq<bool>, n: nat)
    requires n <= |works| == |queue| && false !in works
    ensures Working(queue, works, n) == queue[..n]
    ensures n == |queue| ==> Working(queue, works, n) == queue
  {
    if n > 0 {
      AllWork(queue, works, n - 1);
      assert works[n - 1];
    }
  }

  /** A listing names every saved origin, once. */
  predicate Lists(listing: seq<string>, rows: map<string, Row>) {
    && (forall i :: 0 <= i < |listing| ==> listing[i] in rows)
    && (forall o :: o in rows ==> o in listing)
    && (forall i, j :: 0 <= i < j < |listing| ==> listing[i] != listing[j])
  }

  predicate ValidRows(rows: map<string, Row>) {
    forall o :: o in rows && rows[o].cooldownUntilMs.Some? ==> rows[o].cooldownUntilMs.value >= 0
  }

  function RestoredBudget(cfg: Configuration, w: Budget, rows: map<string, Row>, listing: seq<string>, n: nat,
                          nowMs: int): Budget
    requires n <= |listing| && forall i :: 0 <= i < n ==> listing[i] in rows
  {
    if n == 0 then w
    else
      var before := RestoredBudget(cfg, w, rows, listing, n - 1, nowMs);
      var row := rows[listing[n - 1]];
      if row.cooldownUntilMs.None? then before
      else Step(cfg, before, Restore(listing[n - 1], row.cooldownUntilMs.value, row.lastStatus), nowMs)
  }

  // ----- What is saved agrees with what is remembered -----

  /** The rows after every queued save has succeeded. */
  function Replay(rows: map<string, Row>, queue: seq<Save>): map<string, Row>
    decreases |queue|
  {
    if queue == [] then rows else Replay(rows[queue[0].origin := queue[0].row], queue[1..])
  }

  lemma {:induction false} ReplayAppend(rows: map<string, Row>, queue: seq<Save>, save: Save)
    ensures Replay(rows, queue + [save]) == Replay(rows, queue)[save.origin := save.row]
    decreases |queue|
  {
    if queue == [] {
      assert (queue + [save])[1..] == [];
    } else {
      ReplayAppend(rows[queue[0].origin := queue[0].row], queue[1..], save);
      assert (queue + [save])[1..] == queue[1..] + [save];
    }
  }

  /** The part of a cooldown that still matters at `nowMs`. */
  function Live(cooldownUntilMs: Option<int>, nowMs: int): Option<int> {
    if InCooldown(cooldownUntilMs, nowMs) then cooldownUntilMs else None
  }

  function Remembered(w: Budget, origin: string): Option<int> {
    if origin in w.buckets then w.buckets[origin].cooldownUntilMs else None
  }

  function Recorded(rows: map<string, Row>, origin: string): Option<int> {
    if origin in rows then rows[origin].cooldownUntilMs else None
  }

  ghost predicate Agrees(s: System, nowMs: int) {
    && (!s.failed ==> forall o: string ::
          Live(Recorded(Replay(s.rows, s.queue), o), nowMs) == Live(Remembered(s.budget, o), nowMs))
    && ValidRows(s.rows)
    && (forall i :: 0 <= i < |s.queue| ==> s.queue[i].row.cooldownUntilMs.Some? ==>
          s.queue[i].row.cooldownUntilMs.value >= 0)
  }

  lemma AgreesLater(s: System, t1: int, t2: int)
    requires Agrees(s, t1) && t1 <= t2
    ensures Agrees(s, t2)
  {
    forall o: string | !s.failed
      ensures Live(Recorded(Replay(s.rows, s.queue), o), t2) == Live(Remembered(s.budget, o), t2)
    {
      assert Live(Recorded(Replay(s.rows, s.queue), o), t1) == Live(Remembered(s.budget, o), t1);
    }
  }

  lemma OperationKeepsLiveCooldown(cfg: Configuration, w: Budget, op: Operation, nowMs: int, o: string)
    requires !Queues(op) && !op.Restore?
    ensures Live(Remembered(Step(cfg, w, op, nowMs), o), nowMs) == Live(Remembered(w, o), nowMs)
  {
  }

  lemma NextAgrees(cfg: Configuration, s: System, e: Event)
    requires Agrees(s, e.atMs) && e.atMs >= 0
    requires e.Operate? ==> !e.op.Restore?
    ensures Agrees(Next(cfg, s, e), e.atMs)
  {
    var s' := Next(cfg, s, e);
    if e.Operate? && Queues(e.op) {
      var b := s'.budget.buckets[e.op.origin];
      ReplayAppend(s.rows, s.queue, Save(e.op.origin, RowOf(b)));
      forall o: string | !s'.failed
        ensures Live(Recorded(Replay(s'.rows, s'.queue), o), e.atMs) == Live(Remembered(s'.budget, o), e.atMs)
      {
        assert Live(Recorded(Replay(s.rows, s.queue), o), e.atMs) == Live(Remembered(s.budget, o), e.atMs);
      }
    } else if e.Operate? {
      forall o: string | !s'.failed
        ensures Live(Recorded(Replay(s'.rows, s'.queue), o), e.atMs) == Live(Remembered(s'.budget, o), e.atMs)
      {
        OperationKeepsLiveCooldown(cfg, s.budget, e.op, e.atMs, o);
        assert Live(Recorded(Replay(s.rows, s.queue), o), e.atMs) == Live(Remembered(s.budget, o), e.atMs);
      }
    }
  }

  /** A response queues a save exactly when it limits its origin: of its status, and of the cooldown it leaves. */
  lemma SavesWhatLimits(cfg: Configuration, s: System, origin: string, status: int, retryAfter: RetryAfter, nowMs: int)
    ensures var t := Next(cfg, s, Operate(nowMs, Respond(origin, status, retryAfter)));
            && t.rows == s.rows && t.failed == s.failed
            && if status == 429 || status == 503
               then
                 && |t.queue| == |s.queue| + 1 && t.queue[..|s.queue|] == s.queue
                 && t.queue[|s.queue|]
                      == Save(origin, Row(Remembered(t.budget, origin), Some(status)))
               else t.queue == s.queue
  {
  }

  lemma {:induction false} RestoredAt(cfg: Configuration, rows: map<string, Row>, listing: seq<string>, n: nat,
                                      nowMs: int, o: string)
    requires n <= |listing| && Lists(listing, rows) && ValidRows(rows)
    ensures Remembered(RestoredBudget(cfg, EMPTY, rows, listing, n, nowMs), o)
         == (if o in listing[..n] then Recorded(rows, o) else None)
    ensures o in listing[..n] && rows[o].cooldownUntilMs.Some? ==>
      var w := RestoredBudget(cfg, EMPTY, rows, listing, n, nowMs);
      o in w.buckets && w.buckets[o].lastStatus == rows[o].lastStatus
  {
    if n > 0 {
      RestoredAt(cfg, rows, listing, n - 1, nowMs, o);
      assert listing[..n] == listing[..n - 1] + [listing[n - 1]];
    }
  }

  lemma RestoredRemembersRows(cfg: Configuration, rows: map<string, Row>, listing: seq<string>, nowMs: int, o: string)
    requires Lists(listing, rows) && ValidRows(rows)
    ensures Remembered(RestoredBudget(cfg, EMPTY, rows, listing, |listing|, nowMs), o) == Recorded(rows, o)
    ensures o in rows && rows[o].cooldownUntilMs.Some? ==>
      var w := RestoredBudget(cfg, EMPTY, rows, listing, |listing|, nowMs);
      o in w.buckets && w.buckets[o].lastStatus == rows[o].lastStatus
  {
    RestoredAt(cfg, rows, listing, |listing|, nowMs, o);
    assert listing[..|listing|] == listing;
  }

  /** The system that starts again at `nowMs` from the saved rows. */
  function Restart(cfg: Configuration, s: System, listing: seq<string>, nowMs: int): System
    requires Lists(listing, s.rows)
  {
    System(RestoredBudget(cfg, EMPTY, s.rows, listing, |listing|, nowMs), [], false, s.rows)
  }

  /** A history of sessions: operations and saves, and restarts after a flush that succeeded. */
  datatype Move = Do(event: Event) | Again(atMs: int, listing: seq<string>)

  function At(m: Move): int {
    if m.Do? then m.event.atMs else m.atMs
  }

  predicate Allowed(s: System, m: Move) {
    match m
    case Do(e) => e.Operate? ==> !e.op.Restore?
    case Again(_, listing) => s.queue == [] && !s.failed && Lists(listing, s.rows)
  }

  function Apply(cfg: Configuration, s: System, m: Move): System
    requires Allowed(s, m)
  {
    match m
    case Do(e) => Next(cfg, s, e)
    case Again(atMs, listing) => Restart(cfg, s, listing, atMs)
  }

  ghost predicate History(cfg: Configuration, states: seq<System>, moves: seq<Move>) {
    && |states| == |moves| + 1
    && states[0] == System(EMPTY, [], false, map[])
    && (forall i :: 0 <= i < |moves| ==> At(moves[i]) >= 0)
    && (forall i, j :: 0 <= i <= j < |moves| ==> At(moves[i]) <= At(moves[j]))
    && (forall i :: 0 <= i < |moves| ==>
           Allowed(states[i], moves[i]) && states[i + 1] == Apply(cfg, states[i], moves[i]))
  }

  lemma RestartAgrees(cfg: Configuration, s: System, listing: seq<string>, nowMs: int)
    requires s.queue == [] && !s.failed && Lists(listing, s.rows) && Agrees(s, nowMs)
    ensures Agrees(Restart(cfg, s, listing, nowMs), nowMs)
    ensures forall o: string ::
      Live(Remembered(Restart(cfg, s, listing, nowMs).budget, o), nowMs) == Live(Remembered(s.budget, o), nowMs)
  {
    forall o: string
      ensures Remembered(Restart(cfg, s, listing, nowMs).budget, o) == Recorded(s.rows, o)
      ensures Live(Recorded(s.rows, o), nowMs) == Live(Remembered(s.budget, o), nowMs)
    {
      RestoredRemembersRows(cfg, s.rows, listing, nowMs, o);
      assert Replay(s.rows, s.queue) == s.rows;
    }
  }

  lemma {:induction false} HistoryAgrees(cfg: Configuration, states: seq<System>, moves: seq<Move>, n: nat, nowMs: int)
    requires History(cfg, states, moves) && n <= |moves| && nowMs >= 0
    requires n > 0 ==> At(moves[n - 1]) <= nowMs
    ensures Agrees(states[n], nowMs)
  {
    if n > 0 {
      var m := moves[n - 1];
      if n > 1 {
        assert At(moves[n - 2]) <= At(moves[n - 1]);
      }
      HistoryAgrees(cfg, states, moves, n - 1, At(m));
      if m.Do? {
        NextAgrees(cfg, states[n - 1], m.event);
      } else {
        RestartAgrees(cfg, states[n - 1], m.listing, m.atMs);
      }
      AgreesLater(states[n], At(m), nowMs);
    }
  }

  /** Restart preserves rate limits: after any history of sessions, once a flush has succeeded, a fresh
      budget restored from the rows pauses every origin at every later time exactly when the budget of
      the ended session would. */
  lemma RestartPreservesPauses(cfg: Configuration, states: seq<System>, moves: seq<Move>, n: nat,
                               listing: seq<string>, restartMs: int, origin: string, laterMs: int)
    requires History(cfg, states, moves) && n <= |moves|
    requires states[n].queue == [] && !states[n].failed && Lists(listing, states[n].rows)
    requires 0 <= restartMs <= laterMs && (n > 0 ==> At(moves[n - 1]) <= restartMs)
    ensures ValidRows(states[n].rows)
    ensures Paused(cfg, Restart(cfg, states[n], listing, restartMs).budget, origin, laterMs)
        <==> Paused(cfg, states[n].budget, origin, laterMs)
  {
    HistoryAgrees(cfg, states, moves, n, restartMs);
    RestartAgrees(cfg, states[n], listing, restartMs);
    assert Live(Remembered(Restart(cfg, states[n], listing, restartMs).budget, origin), restartMs)
        == Live(Remembered(states[n].budget, origin), restartMs);
  }
}

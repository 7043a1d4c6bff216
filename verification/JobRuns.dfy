/**
  The job queue with any number of workers, as a state machine: one step per
  SQL statement, in any order and at any times.

  Without any assumption: lock fields are set exactly on rows in progress, and
  a job's attempts never exceed its allowance plus its reaps and releases.

  If every claim settles before its lock is old enough to be reaped: no two
  workers own a job, finished jobs stay finished, and `completed_at` is set
  exactly on finished rows. `OwnedExactlyInTimelyRuns` shows that ownership
  needs just this, `FinalExactlyIfNeverSentBack` what finality needs, and
  `LateSettlementReopens` is a run in which a completed job is reopened.
 */
module JobRuns {
  import opened Wrappers
  import opened JobQueue

  /**
    `held` are the claims workers have not settled yet. The two last fields
    record the past: how often a job was reaped or let go of at a shutdown, and
    after which of its attempts it was sent back to be retried.
   */
  datatype System = System(
    table: Table,
    nextId: JobId,
    held: set<Claim>,
    extra: map<JobId, nat>,
    retried: map<JobId, set<int>>)

  /** Claims are abandoned when a worker crashes, or when the statement that should settle them fails. */
  datatype Event =
    | Enqueue(payload: Payload, runAt: int)
    | ClaimBatch(worker: Worker, at: int, batchSize: nat)
    | Settle(claim: Claim, outcome: Outcome, at: int, jitter: nat, error: string)
    | Reap(at: int, maxLock: int)
    | Gc(at: int)
    | Abandon(claims: set<Claim>)

  const EMPTY := System(map[], 0, {}, map[], map[])

  /** A worker settles only what it holds. */
  predicate Possible(s: System, e: Event) {
    match e
    case Settle(c, _, _, jitter, _) => c in s.held && jitter < 1000
    case _ => true
  }

  function ExtraOf(s: System, id: JobId): nat {
    if id in s.extra then s.extra[id] else 0
  }

  function RetriedOf(s: System, id: JobId): set<int> {
    if id in s.retried then s.retried[id] else {}
  }

  function Step(s: System, e: Event): System
    requires Possible(s, e)
  {
    match e
    case Enqueue(payload, runAt) =>
      s.(table := s.table[s.nextId := NewJob(payload, runAt)], nextId := s.nextId + 1)
    case ClaimBatch(worker, at, n) =>
      s.(table := AfterClaim(s.table, worker, at, n), held := s.held + Claims(s.table, worker, at, n))
    case Settle(c, outcome, at, jitter, error) =>
      var after := s.(table := AfterSettle(s.table, c, outcome, at, jitter, error), held := s.held - {c});
      if outcome.ShuttingDown? then after.(extra := s.extra[c.id := ExtraOf(s, c.id) + 1])
      else if outcome.RetryableError? && c.attempts < c.maxAttempts then
        after.(retried := s.retried[c.id := RetriedOf(s, c.id) + {c.attempts}])
      else after
    case Reap(at, maxLock) =>
      s.(table := AfterReap(s.table, at, maxLock),
         extra := map id | id in s.table.Keys + s.extra.Keys ::
           ExtraOf(s, id) + if id in s.table && Stuck(s.table[id], at, maxLock) then 1 else 0)
    case Gc(at) => s.(table := AfterGc(s.table, at))
    case Abandon(claims) => s.(held := s.held - claims)
  }

  ghost predicate PossibleRun(s: System, events: seq<Event>)
    decreases |events|
  {
    events == [] || (Possible(s, events[0]) && PossibleRun(Step(s, events[0]), events[1..]))
  }

  ghost function Run(s: System, events: seq<Event>): System
    requires PossibleRun(s, events)
    decreases |events|
  {
    if events == [] then s else Run(Step(s, events[0]), events[1..])
  }

  // --- with no assumption: row shape ----------------------------------------------------

  predicate Shaped(j: Job) {
    (j.lockedBy.Some? <==> j.status.InProgress?) && (j.lockedAt.Some? <==> j.status.InProgress?)
  }

  predicate RowsShaped(s: System) {
    forall id <- s.table :: Shaped(s.table[id])
  }

  lemma StepKeepsShape(s: System, e: Event)
    requires RowsShaped(s) && Possible(s, e)
    ensures RowsShaped(Step(s, e))
  {
    hide ClaimedIds, BackoffDelay;
  }

  /** Lock fields are set exactly on the rows in progress, in every run. */
  lemma {:induction false} LocksMarkRowsInProgress(s: System, events: seq<Event>)
    requires RowsShaped(s) && PossibleRun(s, events)
    ensures RowsShaped(Run(s, events))
    decreases |events|
  {
    if events != [] {
      StepKeepsShape(s, events[0]);
      LocksMarkRowsInProgress(Step(s, events[0]), events[1..]);
    }
  }

  // --- with no assumption: attempts -----------------------------------------------------

  /** The claims made on one job are told apart by their attempt numbers. */
  ghost predicate ClaimsCounted(s: System, id: JobId) {
    && (forall c <- s.held :: c.id == id && id in s.table ==>
          && 1 <= c.attempts <= s.table[id].attempts
          && c.maxAttempts == s.table[id].maxAttempts
          && c.attempts !in RetriedOf(s, id))
    && (forall c, d :: c in s.held && d in s.held && c.id == d.id == id && c.attempts == d.attempts ==> c == d)
  }

  /** Each return to 'pending' is paid for by a retry, a reap or a release. */
  ghost predicate AttemptsCounted(s: System, id: JobId) {
    id in s.table ==>
      var j := s.table[id];
      && j.maxAttempts >= 1
      && j.attempts >= 0
      && (forall a <- RetriedOf(s, id) :: 1 <= a < j.maxAttempts && a <= j.attempts)
      && j.attempts + (if j.status.Pending? then 1 else 0) <= 1 + |RetriedOf(s, id)| + ExtraOf(s, id)
  }

  ghost predicate Counted(s: System) {
    && IdsAreOld(s)
    && (forall c <- s.held :: c.id < s.nextId)
    && (forall id <- s.retried :: id < s.nextId)
    && (forall id <- s.extra :: id < s.nextId)
    && forall id :: ClaimsCounted(s, id) && AttemptsCounted(s, id)
  }

  lemma ClaimStepCounts(s: System, e: Event, id: JobId)
    requires Counted(s) && e.ClaimBatch?
    ensures ClaimsCounted(Step(s, e), id) && AttemptsCounted(Step(s, e), id)
  {
    hide ClaimedIds;
    assert ClaimsCounted(s, id) && AttemptsCounted(s, id);
    var after := Step(s, e);
    assert RetriedOf(after, id) == RetriedOf(s, id) && ExtraOf(after, id) == ExtraOf(s, id);
    forall c | c in after.held && c.id == id && c !in s.held
      ensures id in s.table && s.table[id].status.Pending? && c == ClaimOf(s.table, id, e.worker)
              && id in ClaimedIds(s.table, e.at, e.batchSize)
    {
      ClaimedAreRunnable(s.table, e.at, e.batchSize, c.id);
    }
    if id in ClaimedIds(s.table, e.at, e.batchSize) {
      ClaimedAreRunnable(s.table, e.at, e.batchSize, id);
    }
  }

  lemma ClaimedAreRunnable(t: Table, now: int, n: nat, id: JobId)
    ensures id in ClaimedIds(t, now, n) ==> id in t && t[id].status.Pending? && t[id].nextRunAt <= now
  {
    hide Rank;
  }

  /** A settlement sends its job back only as a paid-for retry or as a release. */
  lemma SettledAttempts(t: Table, c: Claim, outcome: Outcome, at: int, jitter: nat, error: string)
    requires jitter < 1000
    ensures var after := AfterSettle(t, c, outcome, at, jitter, error);
            && after.Keys == t.Keys
            && (forall id <- t :: after[id].attempts == t[id].attempts && after[id].maxAttempts == t[id].maxAttempts)
            && (forall id <- t :: id != c.id ==> after[id] == t[id])
            && (c.id in t && after[c.id].status.Pending? ==>
                  outcome.ShuttingDown? || (outcome.RetryableError? && c.attempts < c.maxAttempts))
  {
    hide BackoffDelay;
  }

  lemma SettleCountsOthers(s: System, e: Event, id: JobId)
    requires Counted(s) && e.Settle? && Possible(s, e) && id != e.claim.id
    ensures ClaimsCounted(Step(s, e), id) && AttemptsCounted(Step(s, e), id)
  {
    hide AfterSettle;
    assert ClaimsCounted(s, id) && AttemptsCounted(s, id);
    SettledAttempts(s.table, e.claim, e.outcome, e.at, e.jitter, e.error);
    var after := Step(s, e);
    assert after.held <= s.held;
    assert RetriedOf(after, id) == RetriedOf(s, id) && ExtraOf(after, id) == ExtraOf(s, id);
  }

  lemma SettleCountsClaims(s: System, e: Event)
    requires Counted(s) && e.Settle? && Possible(s, e)
    ensures ClaimsCounted(Step(s, e), e.claim.id)
  {
    hide AfterSettle, AttemptsCounted;
    assert ClaimsCounted(s, e.claim.id);
    SettledAttempts(s.table, e.claim, e.outcome, e.at, e.jitter, e.error);
    assert Step(s, e).held <= s.held;
  }

  /** What a settlement adds to the record of its job. */
  lemma SettleRecords(s: System, e: Event)
    requires e.Settle? && Possible(s, e)
    ensures var id, after := e.claim.id, Step(s, e);
            && ExtraOf(after, id) == ExtraOf(s, id) + (if e.outcome.ShuttingDown? then 1 else 0)
            && RetriedOf(after, id)
               == RetriedOf(s, id) + (if e.outcome.RetryableError? && e.claim.attempts < e.claim.maxAttempts
                                      then {e.claim.attempts} else {})
            && after.table == AfterSettle(s.table, e.claim, e.outcome, e.at, e.jitter, e.error)
  {
    hide AfterSettle;
  }

  lemma SettleCountsAttempts(s: System, e: Event)
    requires Counted(s) && e.Settle? && Possible(s, e)
    ensures AttemptsCounted(Step(s, e), e.claim.id)
  {
    var id, after := e.claim.id, Step(s, e);
    assert ClaimsCounted(s, id) && AttemptsCounted(s, id);
    hide AfterSettle, Step, ExtraOf, RetriedOf, Counted;
    SettleRecords(s, e);
    SettledAttempts(s.table, e.claim, e.outcome, e.at, e.jitter, e.error);
  }

  lemma SettleStepCounts(s: System, e: Event, id: JobId)
    requires Counted(s) && e.Settle? && Possible(s, e)
    ensures ClaimsCounted(Step(s, e), id) && AttemptsCounted(Step(s, e), id)
  {
    hide Step, Counted, ClaimsCounted, AttemptsCounted;
    if id == e.claim.id {
      SettleCountsClaims(s, e);
      SettleCountsAttempts(s, e);
    } else {
      SettleCountsOthers(s, e, id);
    }
  }

  lemma OtherStepCounts(s: System, e: Event, id: JobId)
    requires Counted(s) && !e.ClaimBatch? && !e.Settle?
    ensures ClaimsCounted(Step(s, e), id) && AttemptsCounted(Step(s, e), id)
  {
    assert ClaimsCounted(s, id) && AttemptsCounted(s, id);
  }

  lemma StepKeepsCounted(s: System, e: Event)
    requires Counted(s) && Possible(s, e)
    ensures Counted(Step(s, e))
  {
    hide ClaimsCounted, AttemptsCounted, BackoffDelay;
    forall id: JobId
      ensures ClaimsCounted(Step(s, e), id) && AttemptsCounted(Step(s, e), id)
    {
      if e.ClaimBatch? {
        ClaimStepCounts(s, e, id);
      } else if e.Settle? {
        SettleStepCounts(s, e, id);
      } else {
        OtherStepCounts(s, e, id);
      }
    }
  }

  lemma {:induction false} RunKeepsCounted(s: System, events: seq<Event>)
    requires Counted(s) && PossibleRun(s, events)
    ensures Counted(Run(s, events))
    decreases |events|
  {
    hide Counted, Step;
    if events != [] {
      StepKeepsCounted(s, events[0]);
      RunKeepsCounted(Step(s, events[0]), events[1..]);
    }
  }

  function NumbersBelow(n: nat): (r: set<int>)
    ensures |r| == n && forall a :: a in r <==> 1 <= a <= n
  {
    if n == 0 then {} else NumbersBelow(n - 1) + {n}
  }

  lemma SubsetIsNoLarger(a: set<int>, b: set<int>)
    requires a <= b
    ensures |a| <= |b|
  {
    assert b == a + (b - a);
  }

  /**
    In every run from an empty queue, late settlements and abandoned claims included, a
    job is claimed at most `max_attempts` times more than it is reaped or
    released.
   */
  lemma AttemptsAreBounded(events: seq<Event>, id: JobId)
    requires PossibleRun(EMPTY, events) && id in Run(EMPTY, events).table
    ensures var s := Run(EMPTY, events);
            s.table[id].attempts <= s.table[id].maxAttempts + ExtraOf(s, id)
  {
    RunKeepsCounted(EMPTY, events);
    var s := Run(EMPTY, events);
    var max := s.table[id].maxAttempts;
    assert AttemptsCounted(s, id);
    SubsetIsNoLarger(RetriedOf(s, id), NumbersBelow(max - 1));
  }

  // --- timely settlement ----------------------------------------------------------------

  /** A reap finds no row that a live worker still holds. */
  predicate Timely(s: System, e: Event) {
    e.Reap? ==> forall c <- s.held :: c.id in s.table ==> !Stuck(s.table[c.id], e.at, e.maxLock)
  }

  ghost predicate TimelyRun(s: System, events: seq<Event>)
    decreases |events|
  {
    events == [] || (Possible(s, events[0]) && Timely(s, events[0]) && TimelyRun(Step(s, events[0]), events[1..]))
  }

  predicate IdsAreOld(s: System) {
    forall id <- s.table :: id < s.nextId
  }

  /** The row of a claim is in progress, and locked by the claiming worker. */
  predicate Owns(s: System, c: Claim) {
    && c.id in s.table
    && s.table[c.id].status.InProgress?
    && s.table[c.id].lockedBy == Some(c.worker)
    && s.table[c.id].attempts == c.attempts
    && s.table[c.id].payload == c.payload
  }

  ghost predicate Owned(s: System) {
    && RowsShaped(s)
    && IdsAreOld(s)
    && (forall c <- s.held :: Owns(s, c))
    && (forall c, d :: c in s.held && d in s.held && c.id == d.id ==> c == d)
    && (forall id <- s.table :: s.table[id].completedAt.Some? <==> Terminal(s.table[id].status))
  }

  lemma ClaimKeepsOwned(s: System, e: Event)
    requires Owned(s) && e.ClaimBatch?
    ensures Owned(Step(s, e))
  {
    hide ClaimedIds;
    forall id
      ensures id in ClaimedIds(s.table, e.at, e.batchSize) ==> id in s.table && s.table[id].status.Pending?
    {
      ClaimedAreRunnable(s.table, e.at, e.batchSize, id);
    }
    StepKeepsShape(s, e);
  }

  /** Settling changes one row, and no row in progress is left behind by it. */
  lemma SettledRow(t: Table, c: Claim, outcome: Outcome, at: int, jitter: nat, error: string)
    requires jitter < 1000 && c.id in t
    requires t[c.id].completedAt.Some? <==> Terminal(t[c.id].status)
    requires t[c.id].status.InProgress?
    ensures var after := AfterSettle(t, c, outcome, at, jitter, error);
            && after.Keys == t.Keys
            && (forall id <- t :: id != c.id ==> after[id] == t[id])
            && (after[c.id].completedAt.Some? <==> Terminal(after[c.id].status))
            && !after[c.id].status.InProgress?
  {
    hide BackoffDelay;
  }

  lemma SettleKeepsOwned(s: System, e: Event)
    requires Owned(s) && e.Settle? && Possible(s, e)
    ensures Owned(Step(s, e))
  {
    hide AfterSettle;
    StepKeepsShape(s, e);
    assert Owns(s, e.claim);
    SettledRow(s.table, e.claim, e.outcome, e.at, e.jitter, e.error);
    forall c | c in s.held && c != e.claim
      ensures Owns(Step(s, e), c)
    {
      assert Owns(s, c);
    }
  }

  lemma TimelyStepKeepsOwned(s: System, e: Event)
    requires Owned(s) && Possible(s, e) && Timely(s, e)
    ensures Owned(Step(s, e))
  {
    if e.ClaimBatch? {
      ClaimKeepsOwned(s, e);
    } else if e.Settle? {
      SettleKeepsOwned(s, e);
    } else {
      StepKeepsShape(s, e);
    }
  }

  /**
    In a timely run nobody shares a job: each claim held is the only one on its
    row, which is in progress and locked by the claimant; and `completed_at` is
    set exactly on finished rows.
   */
  lemma {:induction false} NoTwoWorkersOwnAJob(s: System, events: seq<Event>)
    requires Owned(s) && TimelyRun(s, events)
    ensures PossibleRun(s, events)
    ensures Owned(Run(s, events))
    decreases |events|
  {
    hide Owned, Step;
    if events != [] {
      TimelyStepKeepsOwned(s, events[0]);
      NoTwoWorkersOwnAJob(Step(s, events[0]), events[1..]);
    }
  }

  /** A reap that takes a row from a live worker ends ownership, and nothing else does. */
  lemma OwnershipNeedsTimeliness(s: System, e: Event)
    requires Owned(s) && Possible(s, e)
    ensures Owned(Step(s, e)) <==> Timely(s, e)
  {
    if Timely(s, e) {
      TimelyStepKeepsOwned(s, e);
    } else {
      var c :| c in s.held && c.id in s.table && Stuck(s.table[c.id], e.at, e.maxLock);
      assert !Owns(Step(s, e), c);
    }
  }

  /** Ownership holds at the start, after every step, and at the end. */
  ghost predicate OwnedThroughout(s: System, events: seq<Event>)
    requires PossibleRun(s, events)
    decreases |events|
  {
    Owned(s) && (events == [] || OwnedThroughout(Step(s, events[0]), events[1..]))
  }

  /** Timeliness is exactly what ownership needs. */
  lemma {:induction false} OwnedExactlyInTimelyRuns(s: System, events: seq<Event>)
    requires Owned(s) && PossibleRun(s, events)
    ensures OwnedThroughout(s, events) <==> TimelyRun(s, events)
    decreases |events|
  {
    hide Owned, Step, Timely;
    if events != [] {
      var next := Step(s, events[0]);
      OwnershipNeedsTimeliness(s, events[0]);
      if Owned(next) {
        OwnedExactlyInTimelyRuns(next, events[1..]);
      } else {
        assert !OwnedThroughout(next, events[1..]);
      }
    }
  }

  // --- the thirty minutes -----------------------------------------------------------------

  /** When each claim was made; a worker notes the time of its batch. */
  function TimesAfter(s: System, e: Event, madeAt: map<Claim, int>): map<Claim, int> {
    match e
    case ClaimBatch(worker, at, n) =>
      map c | c in madeAt.Keys + Claims(s.table, worker, at, n) ::
        if c in Claims(s.table, worker, at, n) then at else madeAt[c]
    case _ => madeAt
  }

  /** Reaps use a lock time of thirty minutes, and none comes later than that after a claim still held. */
  predicate InThirtyMinutes(s: System, e: Event, madeAt: map<Claim, int>) {
    match e
    case Reap(at, maxLock) =>
      maxLock == 1_800_000 && forall c <- s.held :: c in madeAt && at <= madeAt[c] + 1_800_000
    case _ => true
  }

  ghost predicate PunctualRun(s: System, events: seq<Event>, madeAt: map<Claim, int>)
    decreases |events|
  {
    events == []
    || (&& Possible(s, events[0])
        && InThirtyMinutes(s, events[0], madeAt)
        && PunctualRun(Step(s, events[0]), events[1..], TimesAfter(s, events[0], madeAt)))
  }

  /** A row is locked at the time its claim was made. */
  predicate LockedWhenClaimed(s: System, madeAt: map<Claim, int>) {
    forall c <- s.held :: c in madeAt && c.id in s.table && s.table[c.id].lockedAt == Some(madeAt[c])
  }

  lemma PunctualStepIsTimely(s: System, e: Event, madeAt: map<Claim, int>)
    requires Owned(s) && LockedWhenClaimed(s, madeAt) && Possible(s, e) && InThirtyMinutes(s, e, madeAt)
    ensures Timely(s, e)
  {
    if e.Reap? {
      forall c | c in s.held && c.id in s.table
        ensures !Stuck(s.table[c.id], e.at, e.maxLock)
      {
        assert s.table[c.id].lockedAt == Some(madeAt[c]);
      }
    }
  }

  lemma ClaimLocksRows(s: System, e: Event, madeAt: map<Claim, int>)
    requires Owned(s) && LockedWhenClaimed(s, madeAt) && e.ClaimBatch?
    ensures LockedWhenClaimed(Step(s, e), TimesAfter(s, e, madeAt))
  {
    hide ClaimedIds;
    forall c | c in s.held
      ensures c.id !in ClaimedIds(s.table, e.at, e.batchSize) && c !in Claims(s.table, e.worker, e.at, e.batchSize)
    {
      assert Owns(s, c);
      ClaimedAreRunnable(s.table, e.at, e.batchSize, c.id);
    }
  }

  lemma OtherStepsKeepLocks(s: System, e: Event, madeAt: map<Claim, int>)
    requires Owned(s) && LockedWhenClaimed(s, madeAt) && Possible(s, e) && Timely(s, e) && !e.ClaimBatch?
    ensures LockedWhenClaimed(Step(s, e), TimesAfter(s, e, madeAt))
  {
    hide AfterSettle;
    if e.Settle? {
      SettledAttempts(s.table, e.claim, e.outcome, e.at, e.jitter, e.error);
    }
    forall c | c in Step(s, e).held
      ensures c in madeAt && c.id in Step(s, e).table && Step(s, e).table[c.id].lockedAt == Some(madeAt[c])
    {
      assert Owns(s, c);
      assert e.Settle? ==> Owns(s, e.claim) && c != e.claim;
    }
  }

  lemma {:induction false} PunctualRunsAreTimely(s: System, events: seq<Event>, madeAt: map<Claim, int>)
    requires Owned(s) && LockedWhenClaimed(s, madeAt) && PunctualRun(s, events, madeAt)
    ensures TimelyRun(s, events)
    decreases |events|
  {
    hide Owned, Step, Timely, InThirtyMinutes, LockedWhenClaimed, TimesAfter;
    if events != [] {
      var e := events[0];
      PunctualStepIsTimely(s, e, madeAt);
      TimelyStepKeepsOwned(s, e);
      if e.ClaimBatch? {
        ClaimLocksRows(s, e, madeAt);
      } else {
        OtherStepsKeepLocks(s, e, madeAt);
      }
      PunctualRunsAreTimely(Step(s, e), events[1..], TimesAfter(s, e, madeAt));
    }
  }

  /**
    If no reap finds a claim that is more than thirty minutes old and still held,
    no two workers own a job, in every run from an empty queue.
   */
  lemma ThirtyMinutesSuffice(events: seq<Event>)
    requires PunctualRun(EMPTY, events, map[])
    ensures TimelyRun(EMPTY, events) && PossibleRun(EMPTY, events) && OwnedThroughout(EMPTY, events)
  {
    PunctualRunsAreTimely(EMPTY, events, map[]);
    NoTwoWorkersOwnAJob(EMPTY, events);
    OwnedExactlyInTimelyRuns(EMPTY, events);
  }

  // --- finality ---------------------------------------------------------------------------

  /** Settling this claim puts its row back to 'pending', whatever has become of the row. */
  predicate SendsBack(e: Event, id: JobId) {
    && e.Settle?
    && e.claim.id == id
    && (e.outcome.ShuttingDown? || (e.outcome.RetryableError? && e.claim.attempts < e.claim.maxAttempts))
  }

  /** With no assumption on time: a finished row is reopened by such a settlement and by nothing else. */
  lemma OnlySendingBackReopens(s: System, e: Event, id: JobId)
    requires IdsAreOld(s) && Possible(s, e)
    requires id in s.table && Terminal(s.table[id].status)
    ensures id in Step(s, e).table && !Terminal(Step(s, e).table[id].status) <==> SendsBack(e, id)
    ensures id !in Step(s, e).table ==> e.Gc?
  {
    hide ClaimedIds, BackoffDelay;
    if e.ClaimBatch? {
      ClaimedAreRunnable(s.table, e.at, e.batchSize, id);
    }
  }

  /** The row, for as long as it exists, is finished. */
  ghost predicate FinishedThroughout(s: System, events: seq<Event>, id: JobId)
    requires PossibleRun(s, events)
    decreases |events|
  {
    && (id in s.table ==> Terminal(s.table[id].status))
    && (events == [] || FinishedThroughout(Step(s, events[0]), events[1..], id))
  }

  /** While the row exists nobody settles an old claim of it so as to send it back. */
  ghost predicate NeverSentBack(s: System, events: seq<Event>, id: JobId)
    requires PossibleRun(s, events)
    decreases |events|
  {
    events == []
    || ((id in s.table ==> !SendsBack(events[0], id)) && NeverSentBack(Step(s, events[0]), events[1..], id))
  }

  /** In every run, timely or not, a finished job stays finished exactly if it is never sent back. */
  lemma {:induction false} FinalExactlyIfNeverSentBack(s: System, events: seq<Event>, id: JobId)
    requires IdsAreOld(s) && PossibleRun(s, events) && id < s.nextId
    requires id in s.table ==> Terminal(s.table[id].status)
    ensures FinishedThroughout(s, events, id) <==> NeverSentBack(s, events, id)
    decreases |events|
  {
    hide Step, SendsBack;
    if events != [] {
      var e, next := events[0], Step(s, events[0]);
      if id in s.table {
        OnlySendingBackReopens(s, e, id);
      } else {
        RemovedRowStays(s, e, id);
      }
      StepKeepsIdsOld(s, e);
      IdsGrow(s, e);
      if id in next.table ==> Terminal(next.table[id].status) {
        FinalExactlyIfNeverSentBack(next, events[1..], id);
      } else {
        assert !FinishedThroughout(next, events[1..], id);
      }
    }
  }

  lemma StepKeepsIdsOld(s: System, e: Event)
    requires IdsAreOld(s) && Possible(s, e)
    ensures IdsAreOld(Step(s, e))
  {
    hide ClaimedIds, BackoffDelay;
  }

  lemma IdsGrow(s: System, e: Event)
    requires Possible(s, e)
    ensures s.nextId <= Step(s, e).nextId
  {
    hide ClaimedIds, AfterSettle;
  }

  lemma FinishedRowStays(s: System, e: Event, id: JobId)
    requires Owned(s) && Possible(s, e) && Timely(s, e)
    requires id in s.table && Terminal(s.table[id].status)
    ensures id in Step(s, e).table ==> Step(s, e).table[id] == s.table[id]
    ensures id !in Step(s, e).table ==> e.Gc?
  {
    hide ClaimedIds, BackoffDelay;
    if e.ClaimBatch? {
      ClaimedAreRunnable(s.table, e.at, e.batchSize, id);
    }
  }

  /** In every run an id that has been removed does not come back. */
  lemma {:induction false} RemovedRowStaysAway(s: System, events: seq<Event>, id: JobId)
    requires PossibleRun(s, events)
    requires id !in s.table && id < s.nextId
    ensures id !in Run(s, events).table
    decreases |events|
  {
    hide Step;
    if events != [] {
      RemovedRowStays(s, events[0], id);
      RemovedRowStaysAway(Step(s, events[0]), events[1..], id);
    }
  }

  lemma RemovedRowStays(s: System, e: Event, id: JobId)
    requires Possible(s, e) && id !in s.table && id < s.nextId
    ensures id !in Step(s, e).table && id < Step(s, e).nextId
  {
    hide ClaimedIds, BackoffDelay;
  }

  /** In a timely run 'completed' and 'dead' are final: the row stays as it is until it is collected. */
  lemma {:induction false} FinishedJobsStayFinished(s: System, events: seq<Event>, id: JobId)
    requires Owned(s) && TimelyRun(s, events) && PossibleRun(s, events)
    requires id in s.table && Terminal(s.table[id].status)
    ensures id in Run(s, events).table ==> Run(s, events).table[id] == s.table[id]
    decreases |events|
  {
    assert id < s.nextId;
    hide Step, Owned;
    if events != [] {
      var next := Step(s, events[0]);
      TimelyStepKeepsOwned(s, events[0]);
      FinishedRowStays(s, events[0], id);
      if id in next.table {
        FinishedJobsStayFinished(next, events[1..], id);
      } else {
        IdsGrow(s, events[0]);
        RemovedRowStaysAway(next, events[1..], id);
      }
    }
  }

  /** No worker looks for work at `due` or later. */
  predicate ClaimsBefore(events: seq<Event>, due: int) {
    forall e <- events :: e.ClaimBatch? ==> e.at < due
  }

  lemma WaitingRowStays(s: System, e: Event, id: JobId)
    requires Owned(s) && Possible(s, e)
    requires id in s.table && s.table[id].status.Pending?
    requires e.ClaimBatch? ==> e.at < s.table[id].nextRunAt
    ensures id in Step(s, e).table && Step(s, e).table[id] == s.table[id]
  {
    hide ClaimedIds, AfterSettle;
    if e.ClaimBatch? {
      ClaimedAreRunnable(s.table, e.at, e.batchSize, id);
    } else if e.Settle? {
      assert Owns(s, e.claim);
      SettledAttempts(s.table, e.claim, e.outcome, e.at, e.jitter, e.error);
    }
  }

  /** A job that is not due is left alone, whatever else happens in the meantime. */
  lemma {:induction false} JobsWaitUntilDue(s: System, events: seq<Event>, id: JobId)
    requires Owned(s) && TimelyRun(s, events) && PossibleRun(s, events)
    requires id in s.table && s.table[id].status.Pending? && ClaimsBefore(events, s.table[id].nextRunAt)
    ensures id in Run(s, events).table && Run(s, events).table[id] == s.table[id]
    decreases |events|
  {
    hide Step, Owned, Possible, Timely;
    if events != [] {
      TimelyStepKeepsOwned(s, events[0]);
      WaitingRowStays(s, events[0], id);
      assert forall e <- events[1..] :: e in events;
      JobsWaitUntilDue(Step(s, events[0]), events[1..], id);
    }
  }

  /**
    A job sent back, to be retried or at a shutdown, is not dispatched again
    before 2, 4, 8, ... or 256 seconds are over, depending on its attempts.
   */
  lemma RetriedJobWaits(s: System, e: Event, events: seq<Event>)
    requires Owned(s) && e.Settle? && Possible(s, e) && SendsBack(e, e.claim.id)
    requires TimelyRun(Step(s, e), events)
    requires var capped := if e.claim.attempts < 1 then 1 else if e.claim.attempts > 8 then 8 else e.claim.attempts;
             ClaimsBefore(events, e.at + [2, 4, 8, 16, 32, 64, 128, 256][capped - 1] * 1000 + e.jitter)
    ensures var c, next := e.claim, Step(s, e);
            && PossibleRun(next, events)
            && c.id in Run(next, events).table
            && Run(next, events).table[c.id].status.Pending?
            && Run(next, events).table[c.id].attempts == c.attempts
  {
    BackoffSeconds(e.claim.attempts, e.jitter);
    hide Owned, BackoffDelay, TimelyRun, PossibleRun;
    var c, next := e.claim, Step(s, e);
    assert Owns(s, c) by { HeldIsOwned(s, c); }
    TimelyStepKeepsOwned(s, e);
    NoTwoWorkersOwnAJob(next, events);
    JobsWaitUntilDue(next, events, c.id);
  }

  lemma HeldIsOwned(s: System, c: Claim)
    requires Owned(s) && c in s.held
    ensures Owns(s, c)
  {
  }

  // --- why settlement must be timely ------------------------------------------------------

  /**
    A worker that outlives its lock: reaped, the job is claimed and completed by
    another worker, and then the first one's retry makes it pending again.
   */
  lemma LateSettlementReopens() returns (s: System, c: Claim)
    ensures Reachable(s) && c in s.held && c.id in s.table && s.table[c.id].status.Completed?
    ensures var e := Settle(c, RetryableError, 2_000_000, 0, "");
            && Possible(s, e)
            && Step(s, e).table[c.id].status.Pending?
            && Step(s, e).table[c.id].completedAt.Some?
  {
    hide ClaimedIds, Reachable;
    var s3;
    s3, c := ReapedWhileHeld();
    OnlyJobIsClaimed(s3.table, 1_900_000);
    var s4 := TakeStep(s3, ClaimBatch("b", 1_900_000, 8));
    var second := ClaimOf(s3.table, 0, "b");
    assert second in s4.held;
    s := TakeStep(s4, Settle(second, Success, 1_900_001, 0, ""));
  }

  lemma ReapedWhileHeld() returns (s: System, c: Claim)
    ensures Reachable(s) && c in s.held && c == Claim(0, "a", Unreadable, 1, 8)
    ensures s.table.Keys == {0} && s.table[0].status.Pending? && s.table[0].nextRunAt == 1_900_000
    ensures s.table[0].payload == Unreadable && s.table[0].attempts == 1
  {
    hide ClaimedIds;
    c := Claim(0, "a", Unreadable, 1, 8);
    assert PossibleRun(EMPTY, []) && Run(EMPTY, []) == EMPTY;
    var s1 := TakeStep(EMPTY, Enqueue(Unreadable, 0));
    OnlyJobIsClaimed(s1.table, 0);
    var s2 := TakeStep(s1, ClaimBatch("a", 0, 8));
    assert ClaimOf(s1.table, 0, "a") == c;
    s := TakeStep(s2, Reap(1_900_000, 1_800_000));
  }

  ghost predicate Reachable(s: System) {
    exists events :: PossibleRun(EMPTY, events) && Run(EMPTY, events) == s
  }

  lemma TakeStep(s: System, e: Event) returns (after: System)
    requires Reachable(s) && Possible(s, e)
    ensures after == Step(s, e) && Reachable(after)
  {
    after := Step(s, e);
    var events :| PossibleRun(EMPTY, events) && Run(EMPTY, events) == s;
    RunAppend(EMPTY, events, e);
  }

  lemma {:induction false} RunAppend(s: System, events: seq<Event>, e: Event)
    requires PossibleRun(s, events) && Possible(Run(s, events), e)
    ensures PossibleRun(s, events + [e]) && Run(s, events + [e]) == Step(Run(s, events), e)
    decreases |events|
  {
    hide Step;
    if events == [] {
      assert PossibleRun(Step(s, e), []);
      assert ([] + [e])[1..] == [];
    } else {
      assert (events + [e])[1..] == events[1..] + [e];
      RunAppend(Step(s, events[0]), events[1..], e);
    }
  }

  lemma OnlyJobIsClaimed(t: Table, now: int)
    requires t.Keys == {0} && t[0].status.Pending? && t[0].nextRunAt <= now
    ensures ClaimedIds(t, now, 8) == {0}
  {
    assert RunnableIds(t, now) == {0};
    RankOfLeast({0}, 0);
  }

  lemma RankOfLeast(s: set<JobId>, id: JobId)
    requires forall x <- s :: id <= x
    ensures Rank(s, id) == 0
  {
    var below := set x | x in s && x < id;
    assert below == {};
  }
}

/**
  src/services/jobs.rs: the durable job queue. Each function below is one SQL
  statement on the `jobs` table as a value; the methods of `JobTable` execute
  them. Times are milliseconds, and `now()` is an argument.
 */
module JobQueue {
  import opened Wrappers

  type JobId = nat
  type Worker = string

  datatype Payload = PlayerSync(user: string) | ConfigSync(guild: string, role: string) | Unreadable

  datatype Status = Pending | InProgress | Completed | Dead

  datatype Job = Job(
    payload: Payload,
    status: Status,
    attempts: int,
    maxAttempts: int,
    nextRunAt: int,
    lockedBy: Option<Worker>,
    lockedAt: Option<int>,
    completedAt: Option<int>,
    lastError: Option<string>)

  type Table = map<JobId, Job>

  /** What a worker keeps of a row it has claimed. */
  datatype Claim = Claim(id: JobId, worker: Worker, payload: Payload, attempts: int, maxAttempts: int)

  const DEFAULT_MAX_ATTEMPTS := 8
  const HOURS := 3_600_000

  predicate Terminal(s: Status) {
    s.Completed? || s.Dead?
  }

  function NewJob(payload: Payload, runAt: int): Job {
    Job(payload, Pending, 0, DEFAULT_MAX_ATTEMPTS, runAt, None, None, None, None)
  }

  // --- statements ---------------------------------------------------------------------

  function RunnableIds(t: Table, now: int): set<JobId> {
    set id | id in t && t[id].status.Pending? && t[id].nextRunAt <= now
  }

  /** How many members of `s` come before `id`. */
  function Rank(s: set<JobId>, id: JobId): nat {
    |set x | x in s && x < id|
  }

  /** `ORDER BY id LIMIT n`. */
  function Lowest(s: set<JobId>, n: nat): set<JobId> {
    set id | id in s && Rank(s, id) < n
  }

  function ClaimedIds(t: Table, now: int, batchSize: nat): set<JobId> {
    Lowest(RunnableIds(t, now), batchSize)
  }

  function ClaimedRow(j: Job, worker: Worker, now: int): Job {
    j.(status := InProgress, lockedBy := Some(worker), lockedAt := Some(now), attempts := j.attempts + 1)
  }

  /** `claim_batch`. */
  function AfterClaim(t: Table, worker: Worker, now: int, batchSize: nat): Table {
    map id | id in t :: if id in ClaimedIds(t, now, batchSize) then ClaimedRow(t[id], worker, now) else t[id]
  }

  function ClaimOf(t: Table, id: JobId, worker: Worker): Claim
    requires id in t
  {
    Claim(id, worker, t[id].payload, t[id].attempts + 1, t[id].maxAttempts)
  }

  /** The rows `claim_batch` returns. */
  function Claims(t: Table, worker: Worker, now: int, batchSize: nat): set<Claim> {
    set id | id in t && id in ClaimedIds(t, now, batchSize) :: ClaimOf(t, id, worker)
  }

  /** `complete`, `fail_dead` and `fail_retry` find their row by id alone. */
  function Finish(t: Table, id: JobId, status: Status, now: int, error: Option<string>): Table {
    if id !in t then t
    else t[id := t[id].(status := status, completedAt := Some(now), lastError := error, lockedBy := None, lockedAt := None)]
  }

  function AfterComplete(t: Table, id: JobId, now: int): Table {
    if id !in t then t else Finish(t, id, Completed, now, t[id].lastError)
  }

  function AfterFailDead(t: Table, id: JobId, now: int, error: string): Table {
    Finish(t, id, Dead, now, Some(error))
  }

  function AfterFailRetry(t: Table, id: JobId, runAt: int, error: string): Table {
    if id !in t then t
    else t[id := t[id].(status := Pending, nextRunAt := runAt, lastError := Some(error), lockedBy := None, lockedAt := None)]
  }

  predicate Stuck(j: Job, now: int, maxLock: int) {
    j.status.InProgress? && j.lockedAt.Some? && j.lockedAt.value < now - maxLock
  }

  /** `reap_stuck`. */
  function AfterReap(t: Table, now: int, maxLock: int): Table {
    map id | id in t ::
      if Stuck(t[id], now, maxLock)
      then t[id].(status := Pending, nextRunAt := now, lockedBy := None, lockedAt := None)
      else t[id]
  }

  predicate Expired(j: Job, now: int) {
    j.completedAt.Some?
    && (|| (j.status.Completed? && j.completedAt.value < now - 6 * HOURS)
        || (j.status.Dead? && j.completedAt.value < now - 7 * 24 * HOURS))
  }

  /** `gc_old`. */
  function AfterGc(t: Table, now: int): Table {
    map id | id in t && !Expired(t[id], now) :: t[id]
  }

  // --- the statements, row by row -----------------------------------------------------

  /** The due pending jobs that come before `id`. */
  function DueBefore(t: Table, id: JobId, now: int): set<JobId> {
    set x | x in t && x < id && t[x].status.Pending? && t[x].nextRunAt <= now
  }

  /** A claim takes the due pending jobs that fewer than `batchSize` others come before. */
  lemma ClaimsOldestDue(t: Table, worker: Worker, now: int, batchSize: nat, id: JobId)
    requires id in t
    ensures var after := AfterClaim(t, worker, now, batchSize);
            && after.Keys == t.Keys
            && after[id]
               == if t[id].status.Pending? && t[id].nextRunAt <= now && |DueBefore(t, id, now)| < batchSize
                  then t[id].(status := InProgress, lockedBy := Some(worker), lockedAt := Some(now), attempts := t[id].attempts + 1)
                  else t[id]
  {
    assert DueBefore(t, id, now) == set x | x in RunnableIds(t, now) && x < id;
  }

  /** A reap sends back the rows whose lock is more than `maxLock` old, and touches no other. */
  lemma ReapsOldLocks(t: Table, now: int, maxLock: int, id: JobId)
    requires id in t
    ensures var after := AfterReap(t, now, maxLock);
            && after.Keys == t.Keys
            && after[id]
               == if t[id].status.InProgress? && t[id].lockedAt.Some? && t[id].lockedAt.value + maxLock < now
                  then t[id].(status := Pending, nextRunAt := now, lockedBy := None, lockedAt := None)
                  else t[id]
  {
  }

  /** A collection keeps completed rows for six hours, dead ones for seven days, and all others. */
  lemma CollectsOldFinishedRows(t: Table, now: int, id: JobId)
    requires id in t
    ensures id in AfterGc(t, now)
       <==> && !(t[id].status.Completed? && t[id].completedAt.Some? && t[id].completedAt.value + 21_600_000 < now)
            && !(t[id].status.Dead? && t[id].completedAt.Some? && t[id].completedAt.value + 604_800_000 < now)
    ensures AfterGc(t, now).Keys <= t.Keys
    ensures id in AfterGc(t, now) ==> AfterGc(t, now)[id] == t[id]
  {
  }

  // --- backoff ------------------------------------------------------------------------

  function PowerOfTwo(n: nat): nat {
    if n == 0 then 1 else 2 * PowerOfTwo(n - 1)
  }

  /** `backoff_delay` in milliseconds, the jitter being any value below 1000. */
  function BackoffDelay(attempt: int, jitter: nat): nat
    requires jitter < 1000
  {
    var capped := if attempt < 1 then 1 else if attempt > 8 then 8 else attempt;
    PowerOfTwo(capped) * 1000 + jitter
  }

  lemma {:induction false} PowersRise(m: nat, n: nat)
    requires m < n
    ensures 2 * PowerOfTwo(m) <= PowerOfTwo(n) && PowerOfTwo(m) >= 1
    decreases n
  {
    if m + 1 < n {
      PowersRise(m, n - 1);
    } else if m > 0 {
      PowersRise(m - 1, m);
    }
  }

  /** The delays in seconds, less than a second of jitter aside; before the first attempt and after the eighth as there. */
  lemma BackoffSeconds(attempt: int, jitter: nat)
    requires jitter < 1000
    ensures var capped := if attempt < 1 then 1 else if attempt > 8 then 8 else attempt;
            BackoffDelay(attempt, jitter) == [2, 4, 8, 16, 32, 64, 128, 256][capped - 1] * 1000 + jitter
  {
    assert PowerOfTwo(3) == 8;
    assert PowerOfTwo(5) == 32;
    assert PowerOfTwo(6) == 64;
    assert PowerOfTwo(8) == 256;
  }

  /** Up to the eighth attempt a later delay is longer, whatever the jitter. */
  lemma BackoffRises(a: int, b: int, j: nat, k: nat)
    requires 1 <= a < b <= 8 && j < 1000 && k < 1000
    ensures BackoffDelay(a, j) < BackoffDelay(b, k)
  {
    PowersRise(a, b);
  }

  /** The waits after attempts 1 to n. */
  function TotalWait(n: nat, jitter: nat -> nat): nat
    requires forall a :: jitter(a) < 1000
  {
    if n == 0 then 0 else TotalWait(n - 1, jitter) + BackoffDelay(n, jitter(n))
  }

  lemma {:induction false} WaitsAddUp(n: nat, jitter: nat -> nat)
    requires n <= 8 && forall a :: jitter(a) < 1000
    ensures (PowerOfTwo(n + 1) - 2) * 1000 <= TotalWait(n, jitter) <= (PowerOfTwo(n + 1) - 2) * 1000 + 999 * n
  {
    if n > 0 {
      WaitsAddUp(n - 1, jitter);
    }
  }

  /** The seven waits between eight attempts take from 254 to under 261 seconds. */
  lemma DefaultRetriesTakeFourMinutes(jitter: nat -> nat)
    requires forall a :: jitter(a) < 1000
    ensures 254_000 <= TotalWait(DEFAULT_MAX_ATTEMPTS - 1, jitter) < 261_000
  {
    WaitsAddUp(7, jitter);
    assert PowerOfTwo(4) == 16;
    assert PowerOfTwo(8) == 256;
  }

  // --- dispatching --------------------------------------------------------------------

  /**
    How a claimed job ends: its sync returned, its error is terminal or may be
    retried, or the worker is shutting down and lets go of it.
   */
  datatype Outcome = Success | TerminalError | RetryableError | ShuttingDown

  /** The statement src/tasks/job_worker.rs issues for a claimed job. */
  function AfterSettle(t: Table, c: Claim, outcome: Outcome, now: int, jitter: nat, error: string): Table
    requires jitter < 1000
  {
    match outcome
    case Success => AfterComplete(t, c.id, now)
    case TerminalError => AfterFailDead(t, c.id, now, error)
    case ShuttingDown => AfterFailRetry(t, c.id, now + BackoffDelay(c.attempts, jitter), error)
    case RetryableError =>
      if c.attempts >= c.maxAttempts then AfterFailDead(t, c.id, now, error)
      else AfterFailRetry(t, c.id, now + BackoffDelay(c.attempts, jitter), error)
  }

  // --- the table ----------------------------------------------------------------------

  class JobTable {
    var jobs: Table
    var nextId: JobId

    ghost predicate Valid()
      reads this
    {
      forall id <- jobs :: id < nextId
    }

    constructor ()
      ensures Valid() && jobs == map[]
    {
      jobs, nextId := map[], 0;
    }

    method Enqueue(payload: Payload, now: int, delay: nat) returns (id: JobId)
      requires Valid()
      modifies this
      ensures Valid() && id == old(nextId) && nextId == id + 1
      ensures id !in old(jobs) && jobs == old(jobs)[id := NewJob(payload, now + delay)]
      ensures var j := jobs[id];
              && j.payload == payload && j.status.Pending? && j.attempts == 0 && j.maxAttempts == 8
              && j.nextRunAt == now + delay
              && j.lockedBy.None? && j.lockedAt.None? && j.completedAt.None? && j.lastError.None?
    {
      id := nextId;
      jobs := jobs[id := NewJob(payload, now + delay)];
      nextId := nextId + 1;
    }

    /** Inserts a config sync unless one for the same link is already pending. */
    method EnqueueConfigSyncUnique(guild: string, role: string, now: int)
      requires Valid()
      modifies this
      ensures Valid()
      ensures exists id :: id in jobs && PendingConfigSync(jobs[id], guild, role)
      ensures if exists id :: id in old(jobs) && PendingConfigSync(old(jobs)[id], guild, role)
              then jobs == old(jobs) && nextId == old(nextId)
              else jobs == old(jobs)[old(nextId) := NewJob(ConfigSync(guild, role), now)] && nextId == old(nextId) + 1
    {
      if exists id | id in jobs :: PendingConfigSync(jobs[id], guild, role) {
        return;
      }
      var id := Enqueue(ConfigSync(guild, role), now, 0);
      assert PendingConfigSync(jobs[id], guild, role);
    }

    method ClaimBatch(worker: Worker, now: int, batchSize: nat) returns (claims: set<Claim>)
      requires Valid()
      modifies this`jobs
      ensures Valid()
      ensures jobs == AfterClaim(old(jobs), worker, now, batchSize)
      ensures claims == Claims(old(jobs), worker, now, batchSize)
      ensures forall id <- old(jobs) ::
                (exists c <- claims :: c.id == id)
                <==> && old(jobs)[id].status.Pending? && old(jobs)[id].nextRunAt <= now
                     && |DueBefore(old(jobs), id, now)| < batchSize
      ensures forall c <- claims :: c.id in jobs && jobs[c.id].lockedBy == Some(worker) && jobs[c.id].attempts == c.attempts
    {
      forall id | id in jobs
        ensures id in ClaimedIds(jobs, now, batchSize)
           <==> jobs[id].status.Pending? && jobs[id].nextRunAt <= now && |DueBefore(jobs, id, now)| < batchSize
      {
        ClaimsOldestDue(jobs, worker, now, batchSize, id);
      }
      claims := Claims(jobs, worker, now, batchSize);
      assert forall id <- jobs :: id in ClaimedIds(jobs, now, batchSize) ==> ClaimOf(jobs, id, worker) in claims;
      jobs := AfterClaim(jobs, worker, now, batchSize);
    }

    method Complete(id: JobId, now: int)
      requires Valid()
      modifies this`jobs
      ensures Valid() && jobs == AfterComplete(old(jobs), id, now)
    {
      if id in jobs {
        jobs := jobs[id := jobs[id].(status := Completed, completedAt := Some(now), lockedBy := None, lockedAt := None)];
      }
    }

    method FailRetry(c: Claim, now: int, jitter: nat, error: string)
      requires Valid() && jitter < 1000
      modifies this`jobs
      ensures Valid() && jobs == AfterFailRetry(old(jobs), c.id, now + BackoffDelay(c.attempts, jitter), error)
    {
      var delay := BackoffDelay(c.attempts, jitter);
      if c.id in jobs {
        jobs := jobs[c.id := jobs[c.id].(status := Pending, nextRunAt := now + delay, lastError := Some(error),
                                          lockedBy := None, lockedAt := None)];
      }
    }

    method FailDead(id: JobId, now: int, error: string)
      requires Valid()
      modifies this`jobs
      ensures Valid() && jobs == AfterFailDead(old(jobs), id, now, error)
    {
      if id in jobs {
        jobs := jobs[id := jobs[id].(status := Dead, completedAt := Some(now), lastError := Some(error),
                                      lockedBy := None, lockedAt := None)];
      }
    }

    method ReapStuck(now: int, maxLock: int) returns (n: nat)
      requires Valid()
      modifies this`jobs
      ensures Valid() && jobs == AfterReap(old(jobs), now, maxLock)
      ensures jobs.Keys == old(jobs).Keys
      ensures forall id <- jobs ::
                jobs[id] == if old(jobs)[id].status.InProgress? && old(jobs)[id].lockedAt.Some?
                               && old(jobs)[id].lockedAt.value + maxLock < now
                            then old(jobs)[id].(status := Pending, nextRunAt := now, lockedBy := None, lockedAt := None)
                            else old(jobs)[id]
      ensures n == |set id | id in old(jobs) && jobs[id] != old(jobs)[id]|
    {
      assert (set id | id in jobs && Stuck(jobs[id], now, maxLock))
          == (set id | id in jobs && AfterReap(jobs, now, maxLock)[id] != jobs[id]);
      n := |set id | id in jobs && Stuck(jobs[id], now, maxLock)|;
      jobs := AfterReap(jobs, now, maxLock);
    }

    method GcOld(now: int)
      requires Valid()
      modifies this`jobs
      ensures Valid() && jobs == AfterGc(old(jobs), now)
      ensures forall id <- old(jobs) ::
                id in jobs
                <==> var j := old(jobs)[id];
                     && !(j.status.Completed? && j.completedAt.Some? && j.completedAt.value + 21_600_000 < now)
                     && !(j.status.Dead? && j.completedAt.Some? && j.completedAt.value + 604_800_000 < now)
      ensures forall id <- jobs :: id in old(jobs) && jobs[id] == old(jobs)[id]
    {
      jobs := AfterGc(jobs, now);
    }
  }

  predicate PendingConfigSync(j: Job, guild: string, role: string) {
    j.status.Pending? && j.payload == ConfigSync(guild, role)
  }
}

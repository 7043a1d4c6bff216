/**
  src/tasks/job_worker.rs: the worker's loop, and what becomes of a claimed job.

  `Worker` is one worker on its own, and the contract of `RunPass` says that its
  statements are a run of JobRuns. `BatchAmongOthers` shows that they still are
  when the steps of other workers come in between.
 */
module JobWorker {
  import opened Wrappers
  import opened JobQueue
  import opened JobRuns
  import opened JobFairness
  import BT = BirthdayTable
  import opened RoleLogic
  import SE = SyncEngine

  const STUCK_LOCK_MS := 1_800_000
  const REAP_EVERY_MS := 120_000

  // --- outcomes -------------------------------------------------------------------------

  /** `dispatch`, and `From<AppError> for JobError` applied to what the sync reports. */
  function Dispatched(payload: Payload, r: Result<(), RemoteError>): Outcome {
    if payload.Unreadable? then TerminalError
    else
      match r
      case Ok(_) => Success
      case Err(LinkNotFound) => TerminalError
      case Err(LimitReached) => TerminalError
      case Err(_) => RetryableError
  }

  /** Only a call that adds one user can meet the user limit, not the user-info call nor a list upload. */
  ghost predicate RoleLogicAnswers(a: SE.BulkAnswers) {
    && a.userLimit != Err(LimitReached)
    && a.faults.put != Some(LimitReached) && a.faults.start != Some(LimitReached)
    && a.faults.commit != Some(LimitReached) && forall k :: a.faults.chunk(k) != Some(LimitReached)
  }

  lemma UploadMeetsNoLimit(ids: seq<string>, a: SE.BulkAnswers)
    requires RoleLogicAnswers(a)
    ensures UploadFault(ids, a.faults) != Some(LimitReached)
  {
    NoBadChunk(|Chunks(ids, CHUNK_SIZE)|, a.faults.chunk);
  }

  /**
    A config sync is never given up at its first error: whatever the other
    systems answer, its job becomes dead only when its attempts have run out.
   */
  lemma ConfigSyncDiesOnlyWhenAttemptsRunOut(
    w: SE.World, id: SE.LinkId, a: SE.BulkAnswers, s: SE.Setting, t: Table, c: Claim, now: int, jitter: nat, error: string)
    requires BT.AllSound(w.birthdays) && SE.Sane(s) && RoleLogicAnswers(a)
    requires jitter < 1000 && c.id in t && !t[c.id].status.Dead? && c.payload == ConfigSync(id.guild, id.role)
    ensures var outcome := Dispatched(c.payload, SE.BulkResult(w, id, a, s));
            AfterSettle(t, c, outcome, now, jitter, error)[c.id].status.Dead?
            <==> SE.BulkResult(w, id, a, s).Err? && c.attempts >= c.maxAttempts
  {
    hide SE.BulkResult, AfterSettle, BT.Sound;
    var r := SE.BulkResult(w, id, a, s);
    BulkErrorsCanPass(w, id, a, s);
    DeadAfterSettle(t, c, Dispatched(c.payload, r), now, jitter, error);
  }

  /** Whatever error a bulk sync reports may pass. */
  lemma BulkErrorsCanPass(w: SE.World, id: SE.LinkId, a: SE.BulkAnswers, s: SE.Setting)
    requires BT.AllSound(w.birthdays) && SE.Sane(s) && RoleLogicAnswers(a)
    ensures SE.BulkResult(w, id, a, s).Err? ==> SE.BulkResult(w, id, a, s).error !in {LinkNotFound, LimitReached}
  {
    if SE.Uploaded(w, id, a, s).Some? {
      UploadMeetsNoLimit(SE.Uploaded(w, id, a, s).value, a);
    }
    hide SE.Uploaded, SE.QueryFails, UploadFault, RoleLogicAnswers, BT.Sound;
    assert a.userLimit != Err(LimitReached) by { LimitCallMeetsNoLimit(a); }
  }

  lemma LimitCallMeetsNoLimit(a: SE.BulkAnswers)
    requires RoleLogicAnswers(a)
    ensures a.userLimit != Err(LimitReached)
  {
  }

  lemma DeadAfterSettle(t: Table, c: Claim, outcome: Outcome, now: int, jitter: nat, error: string)
    requires jitter < 1000 && c.id in t && !t[c.id].status.Dead?
    ensures var after := AfterSettle(t, c, outcome, now, jitter, error);
            c.id in after
            && (after[c.id].status.Dead?
                <==> outcome.TerminalError? || (outcome.RetryableError? && c.attempts >= c.maxAttempts))
  {
    hide BackoffDelay;
  }

  /** `dispatch`: the sync a job asks for, and what its end means for the job. */
  method Dispatch(
    engine: SE.Engine, payload: Payload, guilds: Option<seq<string>>, outcome: SE.LinkId -> Option<RemoteError>,
    a: SE.BulkAnswers, s: SE.Setting)
    returns (r: Outcome)
    requires SE.Sane(s) && SE.Consistent(engine.State(), s.regex)
    modifies engine`links
    ensures engine.State() == match payload
                              case PlayerSync(user) => SE.PlayerStep(old(engine.State()), user, guilds, outcome, s)
                              case ConfigSync(guild, role) => SE.BulkStep(old(engine.State()), SE.LinkId(guild, role), a, s)
                              case Unreadable => old(engine.State())
    ensures payload.Unreadable? ==> r == TerminalError
    ensures payload.PlayerSync? ==> r == if guilds.None? then RetryableError else Success
    ensures payload.ConfigSync? ==>
              var report := SE.BulkResult(old(engine.State()), SE.LinkId(payload.guild, payload.role), a, s);
              && (r.Success? <==> report.Ok?)
              && (r.TerminalError? <==> report in {Err(LinkNotFound), Err(LimitReached)})
              && !r.ShuttingDown?
  {
    match payload
    case Unreadable => return TerminalError;
    case PlayerSync(user) =>
      var report := engine.SyncForPlayer(user, guilds, outcome, s);
      return Dispatched(payload, report);
    case ConfigSync(guild, role) =>
      var report := engine.SyncForRoleLink(SE.LinkId(guild, role), a, s);
      return Dispatched(payload, report);
  }

  // --- batches --------------------------------------------------------------------------

  /**
    How and when a claim ends: it is let go of at a shutdown, or else dispatched,
    and its sync reports; `lost` if the statement that settles it then fails.
   */
  datatype End = End(shutdown: bool, report: Result<(), RemoteError>, now: int, jitter: nat, error: string, lost: bool)

  function OutcomeOf(c: Claim, end: End): Outcome {
    if end.shutdown then ShuttingDown else Dispatched(c.payload, end.report)
  }

  /** The status a job has when its claim has been settled. */
  predicate EndsIn(status: Status, c: Claim, end: End) {
    var dead :=
      && !end.shutdown
      && (|| c.payload.Unreadable?
          || end.report in {Err(LinkNotFound), Err(LimitReached)}
          || (end.report.Err? && c.attempts >= c.maxAttempts));
    var completed := !end.shutdown && !c.payload.Unreadable? && end.report.Ok?;
    && (status.Completed? <==> completed)
    && (status.Dead? <==> dead)
    && (status.Pending? <==> !completed && !dead)
  }

  /**
    What becomes of a claimed job, of either kind: completed exactly if its sync
    succeeded; dead exactly if it cannot be read, its link is gone, the user limit
    was met, or an error was its last allowed; pending again otherwise.
   */
  lemma SettledJobEnds(t: Table, c: Claim, end: End)
    requires end.jitter < 1000
    ensures var after := AfterSettle(t, c, OutcomeOf(c, end), end.now, end.jitter, end.error);
            && after.Keys == t.Keys
            && (c.id in t ==>
                  EndsIn(after[c.id].status, c, end) && after[c.id].lockedBy.None? && after[c.id].lockedAt.None?)
            && (forall id <- t :: id != c.id ==> after[id] == t[id])
  {
    hide BackoffDelay;
  }

  function EventOf(c: Claim, end: End): Event {
    if end.lost then Abandon({c}) else Event.Settle(c, OutcomeOf(c, end), end.now, end.jitter, end.error)
  }

  function EventsOf(claims: seq<Claim>, ends: Claim -> End): seq<Event> {
    if claims == [] then []
    else
      var c := claims[|claims| - 1];
      EventsOf(claims[..|claims| - 1], ends) + [EventOf(c, ends(c))]
  }

  /** No two claims are of one job. */
  predicate Distinct(claims: seq<Claim>) {
    forall i, j :: 0 <= i < j < |claims| ==> claims[i].id != claims[j].id
  }

  ghost function ClaimSet(claims: seq<Claim>): set<Claim> {
    set c | c in claims
  }

  lemma NoEvents(s: System)
    ensures PossibleRun(s, []) && JobRuns.Run(s, []) == s
  {
  }

  lemma DistinctFront(claims: seq<Claim>)
    requires claims != [] && Distinct(claims)
    ensures Distinct(claims[..|claims| - 1]) && claims[|claims| - 1] !in claims[..|claims| - 1]
  {
  }

  /** Settling a batch of held claims one by one is a run, after which none of them is held. */
  lemma {:induction false} BatchIsRun(s: System, claims: seq<Claim>, ends: Claim -> End)
    requires Distinct(claims) && forall c <- claims :: c in s.held && ends(c).jitter < 1000
    ensures PossibleRun(s, EventsOf(claims, ends))
    ensures JobRuns.Run(s, EventsOf(claims, ends)).held == s.held - ClaimSet(claims)
    ensures JobRuns.Run(s, EventsOf(claims, ends)).nextId == s.nextId
    decreases |claims|
  {
    hide AfterSettle, PossibleRun, JobRuns.Run, Distinct;
    NoEvents(s);
    if claims != [] {
      var rest, c := claims[..|claims| - 1], claims[|claims| - 1];
      assert c in claims && forall x <- rest :: x in claims;
      assert Distinct(rest) && c !in rest by { DistinctFront(claims); }
      BatchIsRun(s, rest, ends);
      RunAppend(s, EventsOf(rest, ends), EventOf(c, ends(c)));
      assert ClaimSet(claims) == ClaimSet(rest) + {c};
    }
  }

  lemma {:induction false} RunConcat(s: System, first: seq<Event>, second: seq<Event>)
    requires PossibleRun(s, first) && PossibleRun(JobRuns.Run(s, first), second)
    ensures PossibleRun(s, first + second) && JobRuns.Run(s, first + second) == JobRuns.Run(JobRuns.Run(s, first), second)
    decreases |first|
  {
    hide Step, Possible;
    if first == [] {
      assert first + second == second;
    } else {
      assert (first + second)[1..] == first[1..] + second;
      RunConcat(Step(s, first[0]), first[1..], second);
    }
  }

  lemma {:induction false} DistinctPrefix(claims: seq<Claim>, k: nat)
    requires Distinct(claims) && k < |claims|
    ensures Distinct(claims[..k]) && claims[k] !in claims[..k]
  {
  }

  lemma NextSettlement(s: System, claims: seq<Claim>, k: nat, ends: Claim -> End)
    requires Distinct(claims) && k < |claims|
    requires forall c <- claims :: c in s.held && ends(c).jitter < 1000
    ensures var c, end := claims[k], ends(claims[k]);
            var before, after := EventsOf(claims[..k], ends), EventsOf(claims[..k + 1], ends);
            && PossibleRun(s, before) && PossibleRun(s, after)
            && JobRuns.Run(s, after).table
               == if end.lost then JobRuns.Run(s, before).table
                  else AfterSettle(JobRuns.Run(s, before).table, c, OutcomeOf(c, end), end.now, end.jitter, end.error)
  {
    hide AfterSettle, JobRuns.Run, PossibleRun, Distinct;
    assert claims[..k + 1][..k] == claims[..k] && claims[..k + 1][k] == claims[k];
    DistinctPrefix(claims, k);
    assert forall c <- claims[..k] :: c in claims;
    BatchIsRun(s, claims[..k], ends);
    RunAppend(s, EventsOf(claims[..k], ends), EventOf(claims[k], ends(claims[k])));
  }

  // --- batches among other workers --------------------------------------------------------

  /** The event neither settles nor abandons the claim; only the claimant does either. */
  predicate Spares(e: Event, c: Claim) {
    && (e.Settle? ==> e.claim != c)
    && (e.Abandon? ==> c !in e.claims)
  }

  predicate AllSpare(events: seq<Event>, claims: seq<Claim>) {
    forall e <- events, c <- claims :: Spares(e, c)
  }

  /** The batch's settlements, with whatever `others` do before, between and after them. */
  function Woven(claims: seq<Claim>, ends: Claim -> End, others: nat -> seq<Event>): seq<Event> {
    if claims == [] then others(0)
    else
      var c := claims[|claims| - 1];
      Woven(claims[..|claims| - 1], ends, others) + [EventOf(c, ends(c))] + others(|claims|)
  }

  /** The others take steps of their own, and leave the claims of `all` alone. */
  ghost predicate OthersGoOn(
    s: System, claims: seq<Claim>, ends: Claim -> End, others: nat -> seq<Event>, all: seq<Claim>)
  {
    && AllSpare(others(|claims|), all)
    && if claims == [] then PossibleRun(s, others(0))
       else
         var c := claims[|claims| - 1];
         var before := Woven(claims[..|claims| - 1], ends, others) + [EventOf(c, ends(c))];
         && OthersGoOn(s, claims[..|claims| - 1], ends, others, all)
         && (PossibleRun(s, before) ==> PossibleRun(JobRuns.Run(s, before), others(|claims|)))
  }

  lemma {:induction false} SparedClaimsStayHeld(s: System, events: seq<Event>, claims: seq<Claim>)
    requires PossibleRun(s, events) && AllSpare(events, claims)
    ensures forall c <- claims :: c in s.held ==> c in JobRuns.Run(s, events).held
    decreases |events|
  {
    if events != [] {
      var next := Step(s, events[0]);
      StepKeepsSpared(s, events[0], claims);
      assert forall e <- events[1..] :: e in events;
      SparedClaimsStayHeld(next, events[1..], claims);
    }
  }

  lemma StepKeepsSpared(s: System, e: Event, claims: seq<Claim>)
    requires Possible(s, e) && forall c <- claims :: Spares(e, c)
    ensures forall c <- claims :: c in s.held ==> c in Step(s, e).held
  {
    hide AfterSettle, AfterClaim, Claims;
  }

  /**
    Among any steps of other workers, every settlement of the batch finds its
    claim still held, so the whole is a run of JobRuns.
   */
  lemma {:induction false} BatchAmongOthers(
    s: System, claims: seq<Claim>, ends: Claim -> End, others: nat -> seq<Event>, all: seq<Claim>)
    requires Distinct(all) && claims <= all && forall c <- all :: c in s.held && ends(c).jitter < 1000
    requires OthersGoOn(s, claims, ends, others, all)
    ensures PossibleRun(s, Woven(claims, ends, others))
    ensures forall c <- all[|claims|..] :: c in JobRuns.Run(s, Woven(claims, ends, others)).held
    decreases |claims|
  {
    hide Step, Spares;
    if claims == [] {
      SparedClaimsStayHeld(s, others(0), all);
    } else {
      var n := |claims| - 1;
      var rest, c := claims[..n], claims[n];
      var woven := Woven(rest, ends, others);
      BatchAmongOthers(s, rest, ends, others, all);
      assert c == all[n] && all[n] in all[n..] && all[n + 1..] <= all[n + 1..];
      var e := EventOf(c, ends(c));
      RunAppend(s, woven, e);
      var before := woven + [e];
      assert forall d <- all[n + 1..] :: d in all[n..] && d != c;
      SettledAlone(JobRuns.Run(s, woven), c, ends(c), all[n + 1..]);
      assert forall d <- all[n + 1..] :: d in all;
      assert AllSpare(others(|claims|), all[n + 1..]);
      SparedClaimsStayHeld(JobRuns.Run(s, before), others(|claims|), all[n + 1..]);
      RunConcat(s, before, others(|claims|));
    }
  }

  lemma SettledAlone(s: System, c: Claim, end: End, rest: seq<Claim>)
    requires Possible(s, EventOf(c, end)) && forall d <- rest :: d in s.held && d != c
    ensures forall d <- rest :: d in Step(s, EventOf(c, end)).held
  {
    hide AfterSettle;
  }

  // --- one pass -------------------------------------------------------------------------

  /** What one pass of the loop meets: the clock, failing statements, how each dispatch ends. */
  datatype Pass = Pass(now: int, reapFails: bool, claimFails: bool, ends: Claim -> End)

  predicate ReapDue(lastReap: int, p: Pass) {
    p.now - lastReap >= REAP_EVERY_MS
  }

  function Opening(worker: string, lastReap: int, p: Pass): seq<Event> {
    (if ReapDue(lastReap, p) && !p.reapFails then [Reap(p.now, STUCK_LOCK_MS)] else [])
    + (if p.claimFails then [] else [ClaimBatch(worker, p.now, BATCH_SIZE)])
  }

  function PassEvents(worker: string, lastReap: int, p: Pass, claims: seq<Claim>): seq<Event> {
    Opening(worker, lastReap, p) + EventsOf(claims, p.ends)
  }

  function Reaped(t: Table, lastReap: int, p: Pass): Table {
    if ReapDue(lastReap, p) && !p.reapFails then AfterReap(t, p.now, STUCK_LOCK_MS) else t
  }

  /** A batch is claimed for the first time: nobody holds any of its claims yet. */
  lemma OpeningIsRun(s: System, worker: string, lastReap: int, p: Pass)
    requires Counted(s)
    ensures PossibleRun(s, Opening(worker, lastReap, p))
    ensures var next := JobRuns.Run(s, Opening(worker, lastReap, p));
            var reaped := Reaped(s.table, lastReap, p);
            var claimed := if p.claimFails then {} else Claims(reaped, worker, p.now, BATCH_SIZE);
            && next.table == (if p.claimFails then reaped else AfterClaim(reaped, worker, p.now, BATCH_SIZE))
            && next.held == s.held + claimed
            && claimed !! s.held
  {
    hide Step, Counted, AfterClaim, AfterReap, Claims;
    var reap := Reap(p.now, STUCK_LOCK_MS);
    var claims := if p.claimFails then [] else [ClaimBatch(worker, p.now, BATCH_SIZE)];
    var after := if ReapDue(lastReap, p) && !p.reapFails then Step(s, reap) else s;
    ReapIsRun(s, p.now, claims);
    if !p.claimFails {
      ClaimIsRun(after, worker, p.now);
    }
    assert Opening(worker, lastReap, p) == (if ReapDue(lastReap, p) && !p.reapFails then [reap] else []) + claims;
    assert [] + claims == claims;
  }

  lemma ReapIsRun(s: System, now: int, more: seq<Event>)
    requires Counted(s)
    ensures var after := Step(s, Reap(now, STUCK_LOCK_MS));
            && Counted(after)
            && after.table == AfterReap(s.table, now, STUCK_LOCK_MS) && after.held == s.held
            && (PossibleRun(after, more) ==>
                  var events := [Reap(now, STUCK_LOCK_MS)] + more;
                  PossibleRun(s, events) && JobRuns.Run(s, events) == JobRuns.Run(after, more))
  {
    hide Counted;
    StepKeepsCounted(s, Reap(now, STUCK_LOCK_MS));
    assert ([Reap(now, STUCK_LOCK_MS)] + more)[1..] == more;
  }

  lemma ClaimIsRun(s: System, worker: string, now: int)
    requires Counted(s)
    ensures var e := ClaimBatch(worker, now, BATCH_SIZE);
            && PossibleRun(s, [e])
            && JobRuns.Run(s, [e]).table == AfterClaim(s.table, worker, now, BATCH_SIZE)
            && JobRuns.Run(s, [e]).held == s.held + Claims(s.table, worker, now, BATCH_SIZE)
            && Claims(s.table, worker, now, BATCH_SIZE) !! s.held
  {
    hide ClaimedIds;
    var e := ClaimBatch(worker, now, BATCH_SIZE);
    assert PossibleRun(Step(s, e), []) && [e][1..] == [];
    forall c | c in Claims(s.table, worker, now, BATCH_SIZE)
      ensures c !in s.held
    {
      assert ClaimsCounted(s, c.id);
    }
  }

  /** The rows of an UPDATE ... RETURNING come back in any order. */
  method InAnyOrder(claimed: set<Claim>) returns (claims: seq<Claim>)
    requires forall c, d :: c in claimed && d in claimed && c.id == d.id ==> c == d
    ensures Distinct(claims) && ClaimSet(claims) == claimed
  {
    claims := [];
    var left := claimed;
    while left != {}
      invariant left <= claimed && Distinct(claims) && ClaimSet(claims) == claimed - left
      decreases left
    {
      var c :| c in left;
      assert c !in ClaimSet(claims);
      assert forall i :: 0 <= i < |claims| ==> claims[i] in ClaimSet(claims) && claims[i] != c && claims[i].id != c.id;
      assert ClaimSet(claims + [c]) == ClaimSet(claims) + {c};
      claims := claims + [c];
      left := left - {c};
    }
  }

  class Worker {
    const workerId: string
    const queue: JobTable
    var lastReap: int

    constructor (workerId: string, queue: JobTable, now: int)
      ensures this.workerId == workerId && this.queue == queue && lastReap == now
    {
      this.workerId, this.queue, lastReap := workerId, queue, now;
    }

    /** One claimed job, from the end of its dispatch to its statement. */
    method Settle(c: Claim, end: End)
      requires queue.Valid() && end.jitter < 1000
      modifies queue`jobs
      ensures queue.Valid()
      ensures queue.jobs == if end.lost then old(queue.jobs)
                            else AfterSettle(old(queue.jobs), c, OutcomeOf(c, end), end.now, end.jitter, end.error)
    {
      if end.lost {
        return;
      }
      match OutcomeOf(c, end)
      case ShuttingDown => queue.FailRetry(c, end.now, end.jitter, end.error);
      case Success => queue.Complete(c.id, end.now);
      case TerminalError => queue.FailDead(c.id, end.now, end.error);
      case RetryableError =>
        if c.attempts >= c.maxAttempts {
          queue.FailDead(c.id, end.now, end.error);
        } else {
          queue.FailRetry(c, end.now, end.jitter, end.error);
        }
    }

    /** The loop over a claimed batch; `s` is the queue with the record of the past. */
    method SettleBatch(claims: seq<Claim>, ends: Claim -> End, ghost s: System)
      requires queue.Valid() && queue.jobs == s.table
      requires Distinct(claims) && forall c <- claims :: c in s.held && ends(c).jitter < 1000
      modifies queue`jobs
      ensures queue.Valid()
      ensures PossibleRun(s, EventsOf(claims, ends))
      ensures queue.jobs == JobRuns.Run(s, EventsOf(claims, ends)).table
      ensures forall c <- claims :: !ends(c).lost && c.id in queue.jobs ==> EndsIn(queue.jobs[c.id].status, c, ends(c))
    {
      hide AfterSettle, JobRuns.Run, PossibleRun, EndsIn, OutcomeOf;
      var k := 0;
      BatchIsRun(s, [], ends);
      assert claims[..0] == [];
      NoEvents(s);
      while k < |claims|
        invariant 0 <= k <= |claims| && queue.Valid()
        invariant PossibleRun(s, EventsOf(claims[..k], ends))
        invariant queue.jobs == JobRuns.Run(s, EventsOf(claims[..k], ends)).table
        invariant forall c <- claims[..k] :: !ends(c).lost && c.id in queue.jobs ==> EndsIn(queue.jobs[c.id].status, c, ends(c))
      {
        var c := claims[k];
        ghost var before := queue.jobs;
        NextSettlement(s, claims, k, ends);
        Settle(c, ends(c));
        SettledJobEnds(before, c, ends(c));
        k := k + 1;
      }
      assert claims[..k] == claims;
    }

    /**
      One pass: reap when that is due, claim a batch, settle each claim. Run
      alone it is a run of JobRuns in which every claim the pass makes is let go
      of again, so that the worker holds nothing when the next pass begins.
     */
    method RunPass(p: Pass, ghost s: System) returns (claims: seq<Claim>)
      requires queue.Valid() && queue.jobs == s.table && Counted(s)
      requires forall c :: p.ends(c).jitter < 1000
      modifies queue`jobs, this`lastReap
      ensures queue.Valid()
      ensures lastReap == if p.now - old(lastReap) >= 120_000 then p.now else old(lastReap)
      ensures p.claimFails ==> claims == []
      ensures var events := PassEvents(workerId, old(lastReap), p, claims);
              PossibleRun(s, events) && JobRuns.Run(s, events).table == queue.jobs && JobRuns.Run(s, events).held == s.held
      ensures Distinct(claims)
      ensures !p.claimFails ==>
                var reaped := if p.now - old(lastReap) >= 120_000 && !p.reapFails
                              then AfterReap(old(queue.jobs), p.now, 1_800_000) else old(queue.jobs);
                ClaimSet(claims) == Claims(reaped, workerId, p.now, 8)
      ensures forall c <- claims :: !p.ends(c).lost && c.id in queue.jobs
                ==> EndsIn(queue.jobs[c.id].status, c, p.ends(c))
    {
      ghost var opening := Opening(workerId, lastReap, p);
      OpeningIsRun(s, workerId, lastReap, p);
      if p.now - lastReap >= REAP_EVERY_MS {
        if !p.reapFails {
          var _ := queue.ReapStuck(p.now, STUCK_LOCK_MS);
        }
        lastReap := p.now;
      }
      if p.claimFails {
        claims := [];
        return;
      }
      var claimed := queue.ClaimBatch(workerId, p.now, BATCH_SIZE);
      claims := InAnyOrder(claimed);
      SettleBatch(claims, p.ends, JobRuns.Run(s, opening));
      BatchIsRun(JobRuns.Run(s, opening), claims, p.ends);
      RunConcat(s, opening, EventsOf(claims, p.ends));
    }
  }
}

/**
  No saved rule is lost between queueing and de-duplication.

  Once a config sync has been queued for a link whose rule was at version v, or
  found pending by the tick, version v is promised: from there on a job is to
  read v or later, or has read it, or has died over it. `PromiseLostExactly`
  says which single move breaks a promise. No move does in a run in which
  workers settle only claims they still own, and so in every timely run.
 */
module ConfigPromises {
  import opened JobQueue
  import opened JobRuns
  import opened SyncEngine
  import opened ConfigQueue

  // --- the promise ----------------------------------------------------------------------

  /** Job `j` is waiting to read the link's rule, or is being run and has not read an older version than `v`. */
  ghost predicate WillRead(s: State, id: LinkId, v: int, j: JobId) {
    && j in s.q.table
    && s.q.table[j].payload == JobFor(id)
    && (|| s.q.table[j].status.Pending?
        || (s.q.table[j].status.InProgress?
            && forall c <- s.q.held :: c.id == j && c.attempts == s.q.table[j].attempts && c in s.seen ==> s.seen[c] >= v))
  }

  /** Version `v` or a newer one is going to be read, has been read, or is reported dead. */
  ghost predicate Kept(s: State, id: LinkId, v: int) {
    || (exists j :: WillRead(s, id, v, j))
    || Lookup(s.completed, id) >= v
    || Lookup(s.failed, id) >= v
  }

  /** Claims know their row: its payload, and an attempt that has been made. */
  predicate ClaimsAreKnown(q: System) {
    && IdsAreOld(q)
    && forall c <- q.held ::
         && c.id < q.nextId
         && (c.id in q.table ==> c.attempts <= q.table[c.id].attempts && c.payload == q.table[c.id].payload)
  }

  /** No claim yet to be made has been recorded as a reader. */
  predicate ReadersAreKnown(s: State) {
    forall c <- s.seen :: c.id < s.q.nextId && (c.id in s.q.table ==> c.attempts <= s.q.table[c.id].attempts)
  }

  /** Versions start at one, and no promise exceeds the version of its row. */
  predicate Bounded(s: State, id: LinkId) {
    && (id in s.versions ==> 1 <= s.versions[id])
    && (id in s.promised ==> id in s.versions && 1 <= s.promised[id] <= s.versions[id])
  }

  ghost predicate Known(s: State) {
    ClaimsAreKnown(s.q) && ReadersAreKnown(s) && forall id :: Bounded(s, id)
  }

  // --- what every run keeps ---------------------------------------------------------------

  lemma QueueMoveShape(s: State, e: JobRuns.Event)
    requires CanHappen(s, Queue(e))
    ensures var after := Next(s, Queue(e));
            && after.q == Step(s.q, e)
            && after.seen == s.seen && after.versions == s.versions && after.promised == s.promised
            && (!e.Settle? ==> after.completed == s.completed && after.failed == s.failed)
            && (forall id :: Lookup(after.completed, id) >= Lookup(s.completed, id))
            && (forall id :: Lookup(after.failed, id) >= Lookup(s.failed, id))
  {
    assert Possible(s.q, e);
    hide Step, Possible, Timely, Covered;
    assert Next(s, Queue(e)) == QueueNext(s, e);
    if e.Settle? {
      RecordedShape(s, e.claim, Step(s.q, e));
    }
    hide Next, Recorded, Lookup;
  }

  lemma RecordedShape(s: State, c: Claim, q: System)
    ensures var after := Recorded(s, c, q);
            && after.q == q
            && after.seen == s.seen && after.versions == s.versions && after.promised == s.promised
            && (forall id :: Lookup(after.completed, id) >= Lookup(s.completed, id))
            && (forall id :: Lookup(after.failed, id) >= Lookup(s.failed, id))
  {
    hide Covered, Lookup, Max;
    var after := Recorded(s, c, q);
    if c.payload.ConfigSync? {
      var id, v := LinkOf(c.payload), Covered(s, c);
      RaisedOrSame(s.completed, after.completed, id, v);
      RaisedOrSame(s.failed, after.failed, id, v);
    }
  }

  lemma RaisedOrSame(m: map<LinkId, int>, n: map<LinkId, int>, id: LinkId, v: int)
    requires n == m || n == m[id := Max(Lookup(m, id), v)]
    ensures forall other :: Lookup(n, other) >= Lookup(m, other)
  {
  }

  lemma RaisedLookup(m: map<LinkId, int>, id: LinkId, v: int)
    ensures Lookup(m[id := Max(Lookup(m, id), v)], id) == Max(Lookup(m, id), v)
  {
  }

  /** Rows keep their payloads, count their attempts upwards, and get fresh ids. */
  lemma RowsGoOn(q: System, e: JobRuns.Event)
    requires IdsAreOld(q) && Possible(q, e)
    ensures var after := Step(q, e);
            && IdsAreOld(after) && q.nextId <= after.nextId
            && (forall id <- after.table :: id in q.table || id >= q.nextId)
            && (forall id <- after.table :: id in q.table ==>
                  after.table[id].attempts >= q.table[id].attempts && after.table[id].payload == q.table[id].payload)
  {
    hide ClaimedIds, AfterSettle;
    if e.Settle? {
      SettledAttempts(q.table, e.claim, e.outcome, e.at, e.jitter, e.error);
      SettledStatus(q.table, e, e.claim.id);
    }
  }

  lemma SettledStatus(t: Table, e: JobRuns.Event, id: JobId)
    requires e.Settle? && e.jitter < 1000
    ensures var after := AfterSettle(t, e.claim, e.outcome, e.at, e.jitter, e.error);
            && (e.claim.id in t ==>
                  var status := after[e.claim.id].status;
                  && !status.InProgress?
                  && (status.Pending? <==> SendsBack(e, e.claim.id))
                  && (status.Completed? <==> e.outcome.Success?))
            && (forall j <- t :: after[j].payload == t[j].payload)
  {
    hide BackoffDelay;
  }

  lemma QueueStepKeepsClaimsKnown(q: System, e: JobRuns.Event)
    requires ClaimsAreKnown(q) && Possible(q, e)
    ensures ClaimsAreKnown(Step(q, e))
  {
    hide ClaimedIds, AfterSettle;
    RowsGoOn(q, e);
  }

  lemma QueueStepKeepsReaders(s: State, e: JobRuns.Event)
    requires IdsAreOld(s.q) && ReadersAreKnown(s) && Possible(s.q, e)
    ensures ReadersAreKnown(s.(q := Step(s.q, e)))
  {
    hide Step, Possible, IdsAreOld;
    RowsGoOn(s.q, e);
  }

  lemma EnqueueKeepsKnown(s: State, payload: Payload, runAt: int)
    requires ClaimsAreKnown(s.q) && ReadersAreKnown(s)
    ensures var after := s.(q := Step(s.q, Enqueue(payload, runAt))); ClaimsAreKnown(after.q) && ReadersAreKnown(after)
  {
    QueueStepKeepsClaimsKnown(s.q, Enqueue(payload, runAt));
    QueueStepKeepsReaders(s, Enqueue(payload, runAt));
  }

  lemma CanHappenMeansPossible(s: State, e: JobRuns.Event)
    requires CanHappen(s, Queue(e))
    ensures Possible(s.q, e)
  {
  }

  lemma QueueMoveKeepsKnown(s: State, e: JobRuns.Event)
    requires ClaimsAreKnown(s.q) && ReadersAreKnown(s) && CanHappen(s, Queue(e))
    ensures ClaimsAreKnown(Next(s, Queue(e)).q) && ReadersAreKnown(Next(s, Queue(e)))
  {
    hide Step, Next, Possible, CanHappen;
    assert Possible(s.q, e) by { CanHappenMeansPossible(s, e); }
    QueueMoveShape(s, e);
    QueueStepKeepsClaimsKnown(s.q, e);
    QueueStepKeepsReaders(s, e);
  }

  lemma ReadKeepsReaders(s: State, c: Claim)
    requires ClaimsAreKnown(s.q) && ReadersAreKnown(s) && CanHappen(s, ReadRule(c))
    ensures ReadersAreKnown(Next(s, ReadRule(c)))
  {
  }

  lemma MoveKeepsClaimsKnown(s: State, m: Move)
    requires ClaimsAreKnown(s.q) && ReadersAreKnown(s) && CanHappen(s, m)
    ensures ClaimsAreKnown(Next(s, m).q) && ReadersAreKnown(Next(s, m))
  {
    hide ClaimsAreKnown, Step, HasPending, Possible;
    match m
    case Queue(e) => QueueMoveKeepsKnown(s, e);
    case EnqueueAfterSave(id, at) => EnqueueKeepsKnown(s, JobFor(id), at + 5000);
    case Tick(id, at) => EnqueueKeepsKnown(s, JobFor(id), at);
    case ReadRule(c) => ReadKeepsReaders(s, c);
    case _ =>
  }

  lemma MoveKeepsBounds(s: State, m: Move, id: LinkId)
    requires Bounded(s, id) && CanHappen(s, m)
    ensures Bounded(Next(s, m), id)
  {
    hide Step, Possible, QueueNext, HasPending, LinkOf, Fanned, Removed;
    RemovedBounds(s);
    if m.Queue? {
      QueueMoveShape(s, m.e);
    }
  }

  lemma RemovedBounds(s: State)
    ensures forall other ::
              Removed(s, other).versions == s.versions - {other} && Removed(s, other).promised == s.promised - {other}
    ensures forall other, at ::
              Fanned(s, other, at).versions == s.versions && Fanned(s, other, at).promised == s.promised
  {
    hide Step, HasPending;
  }

  lemma MoveKeepsKnown(s: State, m: Move)
    requires Known(s) && CanHappen(s, m)
    ensures Known(Next(s, m))
  {
    hide ClaimsAreKnown, ReadersAreKnown, Bounded, Next, CanHappen;
    MoveKeepsClaimsKnown(s, m);
    forall id
      ensures Bounded(Next(s, m), id)
    {
      MoveKeepsBounds(s, m, id);
    }
  }

  // --- what becomes of the job that a promise rests on ------------------------------------

  /** A pending job that is claimed gets a reader that has read nothing yet. */
  lemma ClaimKeepsReader(s: State, e: JobRuns.Event, id: LinkId, v: int, j: JobId)
    requires ReadersAreKnown(s) && CanHappen(s, Queue(e)) && e.ClaimBatch?
    requires WillRead(s, id, v, j)
    ensures WillRead(Next(s, Queue(e)), id, v, j)
  {
    hide ClaimedIds;
    var after := Next(s, Queue(e));
    ClaimedAreRunnable(s.q.table, e.at, e.batchSize, j);
    if j in ClaimedIds(s.q.table, e.at, e.batchSize) {
      assert forall c <- after.seen :: c.id == j ==> c.attempts < after.q.table[j].attempts;
    } else {
      assert forall c <- after.q.held :: c.id == j ==> c in s.q.held;
    }
  }

  lemma OtherEventKeepsReader(s: State, e: JobRuns.Event, id: LinkId, v: int, j: JobId)
    requires IdsAreOld(s.q) && CanHappen(s, Queue(e)) && !e.ClaimBatch? && !e.Settle?
    requires WillRead(s, id, v, j)
    ensures WillRead(Next(s, Queue(e)), id, v, j)
  {
    assert j < s.q.nextId;
  }

  /** A settlement leaves every row but its own as it is. */
  lemma SettleSparesOthers(s: State, e: JobRuns.Event, id: LinkId, v: int, j: JobId)
    requires CanHappen(s, Queue(e)) && e.Settle? && j != e.claim.id
    ensures WillRead(Next(s, Queue(e)), id, v, j) <== WillRead(s, id, v, j)
    ensures WillRead(Next(s, Queue(e)), id, v, j) ==> WillRead(s, id, v, j)
  {
    hide AfterSettle;
    QueueMoveShape(s, e);
    SettledAttempts(s.q.table, e.claim, e.outcome, e.at, e.jitter, e.error);
    hide Next;
    SettleHolds(s.q, e);
  }

  lemma SettleHolds(q: System, e: JobRuns.Event)
    requires e.Settle? && Possible(q, e)
    ensures Step(q, e).held == q.held - {e.claim}
    ensures Step(q, e).table == AfterSettle(q.table, e.claim, e.outcome, e.at, e.jitter, e.error)
  {
    hide AfterSettle;
  }

  /** A finished config sync is recorded with the version it covers, and no other version is. */
  lemma SettleMove(s: State, e: JobRuns.Event)
    requires CanHappen(s, Queue(e)) && e.Settle? && e.claim.payload.ConfigSync? && e.claim.id in s.q.table
    ensures var after := Next(s, Queue(e));
            var id, v := LinkOf(e.claim.payload), Covered(s, e.claim);
            && e.claim.id in after.q.table
            && (SendsBack(e, e.claim.id) <==> after.q.table[e.claim.id].status.Pending?)
            && !after.q.table[e.claim.id].status.InProgress?
            && after.q.table[e.claim.id].payload == s.q.table[e.claim.id].payload
            && Lookup(after.completed, id) == RaisedIf(e.outcome.Success?, Lookup(s.completed, id), v)
            && Lookup(after.failed, id)
               == RaisedIf(!e.outcome.Success? && !SendsBack(e, e.claim.id), Lookup(s.failed, id), v)
  {
    CanHappenMeansPossible(s, e);
    SettledStatus(s.q.table, e, e.claim.id);
    SettledAttempts(s.q.table, e.claim, e.outcome, e.at, e.jitter, e.error);
    hide AfterSettle, Covered, CanHappen, Possible, Step, Recorded, SendsBack, Lookup, RaisedIf;
    SettleHolds(s.q, e);
    RecordedVersion(s, e.claim, Step(s.q, e));
    assert Next(s, Queue(e)) == Recorded(s, e.claim, Step(s.q, e));
  }

  lemma RecordedVersion(s: State, c: Claim, q: System)
    requires c.payload.ConfigSync? && c.id in q.table
    ensures var r := Recorded(s, c, q);
            var id, v := LinkOf(c.payload), Covered(s, c);
            && r.q == q
            && Lookup(r.completed, id) == RaisedIf(q.table[c.id].status.Completed?, Lookup(s.completed, id), v)
            && Lookup(r.failed, id) == RaisedIf(q.table[c.id].status.Dead?, Lookup(s.failed, id), v)
  {
    hide Covered, Max, Lookup;
    var id, v := LinkOf(c.payload), Covered(s, c);
    RaisedLookup(s.completed, id, v);
    RaisedLookup(s.failed, id, v);
  }

  function RaisedIf(raised: bool, n: int, v: int): int {
    if raised then Max(n, v) else n
  }

  // --- exactly which move breaks a promise --------------------------------------------------

  /**
    The move settles a claim that has read an older version than `v`, and so
    finishes the only job that the promise of `v` still rests on.
   */
  ghost predicate Breaks(s: State, m: Move, id: LinkId, v: int) {
    && m.Queue? && m.e.Settle?
    && m.e.claim.payload == JobFor(id)
    && !SendsBack(m.e, m.e.claim.id)
    && m.e.claim in s.seen && s.seen[m.e.claim] < v
    && Lookup(s.completed, id) < v && Lookup(s.failed, id) < v
    && forall j :: WillRead(s, id, v, j) ==> j == m.e.claim.id
  }

  lemma SettleBreaksExactly(s: State, e: JobRuns.Event, id: LinkId, v: int)
    requires ClaimsAreKnown(s.q) && CanHappen(s, Queue(e)) && e.Settle?
    requires Kept(s, id, v) && id in s.versions && v <= s.versions[id]
    ensures Kept(Next(s, Queue(e)), id, v) <==> !Breaks(s, Queue(e), id, v)
  {
    CanHappenMeansPossible(s, e);
    hide AfterSettle, Next, SendsBack, Step;
    var c, after := e.claim, Next(s, Queue(e));
    QueueMoveShape(s, e);
    forall j | j != c.id
      ensures WillRead(after, id, v, j) <==> WillRead(s, id, v, j)
    {
      SettleSparesOthers(s, e, id, v, j);
    }
    SettleHolds(s.q, e);
    SettledAttempts(s.q.table, c, e.outcome, e.at, e.jitter, e.error);
    if c.payload == JobFor(id) && c.id in s.q.table {
      SettleMove(s, e);
      assert LinkOf(c.payload) == id;
      if SendsBack(e, c.id) {
        assert WillRead(after, id, v, c.id);
      } else {
        assert !WillRead(after, id, v, c.id);
        if Breaks(s, Queue(e), id, v) {
          assert forall j :: !WillRead(after, id, v, j);
        } else if c !in s.seen || s.seen[c] >= v {
          assert Covered(s, c) >= v;
        } else if j :| WillRead(s, id, v, j) && j != c.id {
          assert WillRead(after, id, v, j);
        }
      }
    }
  }

  lemma QueueMoveBreaksExactly(s: State, e: JobRuns.Event, id: LinkId, v: int)
    requires ClaimsAreKnown(s.q) && ReadersAreKnown(s) && CanHappen(s, Queue(e))
    requires Kept(s, id, v) && id in s.versions && v <= s.versions[id]
    ensures Kept(Next(s, Queue(e)), id, v) <==> !Breaks(s, Queue(e), id, v)
  {
    hide ClaimsAreKnown, ReadersAreKnown, ClaimedIds, AfterSettle, Next, CanHappen, WillRead, SendsBack;
    QueueMoveShape(s, e);
    assert IdsAreOld(s.q) by { ClaimsKnowIds(s.q); }
    if e.Settle? {
      SettleBreaksExactly(s, e, id, v);
    } else if j :| WillRead(s, id, v, j) {
      if e.ClaimBatch? {
        ClaimKeepsReader(s, e, id, v, j);
      } else {
        OtherEventKeepsReader(s, e, id, v, j);
      }
    }
  }

  lemma ClaimsKnowIds(q: System)
    requires ClaimsAreKnown(q)
    ensures IdsAreOld(q)
  {
  }

  lemma EnqueueKeepsPromise(s: State, payload: Payload, runAt: int, id: LinkId, v: int)
    requires IdsAreOld(s.q) && Kept(s, id, v)
    ensures Kept(s.(q := Step(s.q, Enqueue(payload, runAt))), id, v)
  {
    var after := s.(q := Step(s.q, Enqueue(payload, runAt)));
    if j :| WillRead(s, id, v, j) {
      assert WillRead(after, id, v, j);
    }
  }

  /** A pending job keeps the promise of any version. */
  lemma PendingKeeps(s: State, id: LinkId, v: int, j: JobId)
    requires j in s.q.table && PendingConfigSync(s.q.table[j], id.guild, id.role)
    ensures Kept(s, id, v)
  {
    assert WillRead(s, id, v, j);
  }

  lemma SameQueueKeepsPromise(s: State, after: State, id: LinkId, v: int)
    requires after.q == s.q && after.seen == s.seen && after.completed == s.completed && after.failed == s.failed
    requires Kept(s, id, v)
    ensures Kept(after, id, v)
  {
    if j :| WillRead(s, id, v, j) {
      assert WillRead(after, id, v, j);
    }
  }

  lemma EnqueuedIsPending(q: System, id: LinkId, runAt: int)
    ensures var after := Step(q, Enqueue(JobFor(id), runAt));
            q.nextId in after.table && PendingConfigSync(after.table[q.nextId], id.guild, id.role)
  {
  }

  lemma SaveEnqueueKeepsPromise(s: State, target: LinkId, at: int, after: State, id: LinkId)
    requires IdsAreOld(s.q) && after == Next(s, EnqueueAfterSave(target, at))
    requires id in s.promised ==> Kept(s, id, s.promised[id])
    requires id in after.promised
    ensures Kept(after, id, after.promised[id])
  {
    hide Step, Kept, Lookup, IdsAreOld;
    var mid := s.(q := Step(s.q, Enqueue(JobFor(target), at + 5000)));
    EnqueuedIsPending(s.q, target, at + 5000);
    if id == target && id in s.versions {
      PendingKeeps(after, id, after.promised[id], s.q.nextId);
    } else {
      EnqueueKeepsPromise(s, JobFor(target), at + 5000, id, s.promised[id]);
      SameQueueKeepsPromise(mid, after, id, s.promised[id]);
    }
  }

  /** Whether it enqueues a job or finds one pending, the fan-out leaves one pending. */
  lemma FannedIsPending(s: State, target: LinkId, at: int, v: int)
    ensures Kept(Fanned(s, target, at), target, v)
  {
    hide Step, Kept, PendingConfigSync;
    if HasPending(s.q.table, target) {
      var j :| j in s.q.table && PendingConfigSync(s.q.table[j], target.guild, target.role);
      PendingKeeps(s, target, v, j);
    } else {
      EnqueuedIsPending(s.q, target, at);
      PendingKeeps(Fanned(s, target, at), target, v, s.q.nextId);
    }
  }

  lemma FannedKeepsPromise(s: State, target: LinkId, at: int, id: LinkId, v: int)
    requires IdsAreOld(s.q) && Kept(s, id, v)
    ensures Kept(Fanned(s, target, at), id, v)
  {
    hide Step, Kept, HasPending;
    EnqueueKeepsPromise(s, JobFor(target), at, id, v);
  }

  /** De-duplication is safe: the job relied on is pending, so it has yet to read the rule. */
  lemma TickKeepsPromise(s: State, target: LinkId, at: int, after: State, id: LinkId)
    requires IdsAreOld(s.q) && after == Next(s, Tick(target, at))
    requires id in s.promised ==> Kept(s, id, s.promised[id])
    requires id in after.promised
    ensures Kept(after, id, after.promised[id])
  {
    RemovedBounds(s);
    hide Step, Kept, QueueNext, Removed, Lookup, CanHappen, Recorded, IdsAreOld, Fanned;
    var fanned := Fanned(s, target, at);
    if target !in s.versions {
      SameQueueKeepsPromise(s, after, id, s.promised[id]);
    } else if id == target {
      FannedIsPending(s, target, at, after.promised[id]);
      SameQueueKeepsPromise(fanned, after, id, after.promised[id]);
    } else {
      FannedKeepsPromise(s, target, at, id, s.promised[id]);
      SameQueueKeepsPromise(fanned, after, id, s.promised[id]);
    }
  }

  lemma ReadKeepsPromise(s: State, c: Claim, id: LinkId, v: int)
    requires ClaimsAreKnown(s.q) && CanHappen(s, ReadRule(c))
    requires Kept(s, id, v) && id in s.versions && v <= s.versions[id]
    ensures Kept(Next(s, ReadRule(c)), id, v)
  {
    var after := Next(s, ReadRule(c));
    if j :| WillRead(s, id, v, j) {
      assert c.id == j ==> LinkOf(c.payload) == id;
      assert WillRead(after, id, v, j);
    }
  }

  lemma DeregisterKeepsPromise(s: State, target: LinkId, id: LinkId, v: int)
    requires ClaimsAreKnown(s.q) && Kept(s, id, v) && id != target
    ensures Kept(Next(s, Deregister(target)), id, v)
  {
    var after := Next(s, Deregister(target));
    if j :| WillRead(s, id, v, j) {
      assert WillRead(after, id, v, j);
    }
  }

  /**
    Which move breaks a promise, with no assumption on time: a settlement that
    finishes the last job the promise rests on, for a claim that has read too
    old a version. No other move does, and every new promise is kept when it is
    made.
   */
  lemma PromiseLostExactly(s: State, m: Move, id: LinkId)
    requires Known(s) && CanHappen(s, m) && id in Next(s, m).promised
    requires id in s.promised ==> Kept(s, id, s.promised[id])
    ensures Kept(Next(s, m), id, Next(s, m).promised[id]) <==> !(id in s.promised && Breaks(s, m, id, s.promised[id]))
  {
    hide ClaimsAreKnown, ReadersAreKnown, Step, Possible, WillRead, HasPending, Kept, QueueNext;
    var after := Next(s, m);
    ClaimsKnowIds(s.q);
    assert Bounded(s, id);
    match m
    case Queue(e) =>
      QueueMoveShape(s, e);
      QueueMoveBreaksExactly(s, e, id, s.promised[id]);
    case EnqueueAfterSave(target, at) => SaveEnqueueKeepsPromise(s, target, at, after, id);
    case Tick(target, at) => TickKeepsPromise(s, target, at, after, id);
    case ReadRule(c) => ReadKeepsPromise(s, c, id, s.promised[id]);
    case Deregister(target) => DeregisterKeepsPromise(s, target, id, s.promised[id]);
    case Register(target) => SameQueueKeepsPromise(s, after, id, s.promised[id]);
    case Save(target, expected) => SameQueueKeepsPromise(s, after, id, s.promised[id]);
  }

  // --- whole runs ---------------------------------------------------------------------------

  ghost predicate PromisesKept(s: State) {
    forall id <- s.promised :: Kept(s, id, s.promised[id])
  }

  ghost predicate BreaksNone(s: State, m: Move) {
    forall id <- s.promised :: !Breaks(s, m, id, s.promised[id])
  }

  lemma PromisesAfterMove(s: State, m: Move)
    requires Known(s) && PromisesKept(s) && CanHappen(s, m)
    ensures PromisesKept(Next(s, m)) <==> BreaksNone(s, m)
  {
    hide Kept, Breaks, Next, CanHappen, Known;
    forall id | id in Next(s, m).promised
      ensures Kept(Next(s, m), id, Next(s, m).promised[id]) <==> !(id in s.promised && Breaks(s, m, id, s.promised[id]))
    {
      PromiseLostExactly(s, m, id);
    }
    forall id | id in s.promised && id !in Next(s, m).promised
      ensures !Breaks(s, m, id, s.promised[id])
    {
      ForgottenIsNotBroken(s, m, id);
    }
  }

  lemma ForgottenIsNotBroken(s: State, m: Move, id: LinkId)
    requires CanHappen(s, m) && id in s.promised && id !in Next(s, m).promised
    ensures !Breaks(s, m, id, s.promised[id])
  {
    if m.Queue? {
      QueueMoveShape(s, m.e);
    }
  }

  ghost predicate KeptThroughout(s: State, moves: seq<Move>)
    requires CanRun(s, moves)
    decreases |moves|
  {
    PromisesKept(s) && (moves == [] || KeptThroughout(Next(s, moves[0]), moves[1..]))
  }

  ghost predicate NeverBroken(s: State, moves: seq<Move>)
    requires CanRun(s, moves)
    decreases |moves|
  {
    moves == [] || (BreaksNone(s, moves[0]) && NeverBroken(Next(s, moves[0]), moves[1..]))
  }

  /** In every run all promises are kept throughout exactly if no move is of the kind that breaks one. */
  lemma {:induction false} KeptExactlyIfNeverBroken(s: State, moves: seq<Move>)
    requires Known(s) && PromisesKept(s) && CanRun(s, moves)
    ensures KeptThroughout(s, moves) <==> NeverBroken(s, moves)
    decreases |moves|
  {
    hide Known, PromisesKept, BreaksNone, Next, CanHappen;
    if moves != [] {
      var next := Next(s, moves[0]);
      MoveKeepsKnown(s, moves[0]);
      PromisesAfterMove(s, moves[0]);
      if PromisesKept(next) {
        KeptExactlyIfNeverBroken(next, moves[1..]);
      } else {
        assert !KeptThroughout(next, moves[1..]);
      }
    }
  }

  /** A worker settles a claim only while it still owns the row. */
  predicate InTime(s: State, m: Move) {
    m.Queue? && m.e.Settle? ==> Owns(s.q, m.e.claim)
  }

  lemma InTimeBreaksNone(s: State, m: Move)
    requires PromisesKept(s) && CanHappen(s, m) && InTime(s, m)
    ensures BreaksNone(s, m)
  {
    forall id | id in s.promised
      ensures !Breaks(s, m, id, s.promised[id])
    {
      assert Kept(s, id, s.promised[id]);
    }
  }

  ghost predicate InTimeRun(s: State, moves: seq<Move>)
    requires CanRun(s, moves)
    decreases |moves|
  {
    moves == [] || (InTime(s, moves[0]) && InTimeRun(Next(s, moves[0]), moves[1..]))
  }

  lemma {:induction false} InTimeRunKeepsPromises(s: State, moves: seq<Move>)
    requires Known(s) && PromisesKept(s) && CanRun(s, moves) && InTimeRun(s, moves)
    ensures KeptThroughout(s, moves)
    decreases |moves|
  {
    hide Known, PromisesKept, BreaksNone, Next, CanHappen, InTime;
    if moves != [] {
      MoveKeepsKnown(s, moves[0]);
      InTimeBreaksNone(s, moves[0]);
      PromisesAfterMove(s, moves[0]);
      InTimeRunKeepsPromises(Next(s, moves[0]), moves[1..]);
    }
  }

  /**
    No saved rule is lost: in every run from an empty plugin in which claims are
    settled by those who own them, with jobs of all kinds in the queue, every
    promise is kept at every moment from the moment it is made.
   */
  lemma NoSavedRuleIsLost(moves: seq<Move>)
    requires CanRun(START, moves) && InTimeRun(START, moves)
    ensures KeptThroughout(START, moves)
  {
    InTimeRunKeepsPromises(START, moves);
  }

  ghost predicate TimelyMoves(s: State, moves: seq<Move>)
    requires CanRun(s, moves)
    decreases |moves|
  {
    moves == []
    || ((moves[0].Queue? ==> Timely(s.q, moves[0].e)) && TimelyMoves(Next(s, moves[0]), moves[1..]))
  }

  lemma TimelyMoveKeepsOwned(s: State, m: Move)
    requires Owned(s.q) && CanHappen(s, m) && (m.Queue? ==> Timely(s.q, m.e))
    ensures Owned(Next(s, m).q) && InTime(s, m)
  {
    hide Owned, Step, HasPending, Owns, Possible;
    match m
    case Queue(e) =>
      CanHappenMeansPossible(s, e);
      QueueMoveShape(s, e);
      TimelyStepKeepsOwned(s.q, e);
      if e.Settle? {
        assert e.claim in s.q.held by { SettledIsHeld(s.q, e); }
        HeldIsOwned(s.q, e.claim);
      }
    case EnqueueAfterSave(id, at) => TimelyStepKeepsOwned(s.q, Enqueue(JobFor(id), at + 5000));
    case Tick(id, at) => TimelyStepKeepsOwned(s.q, Enqueue(JobFor(id), at));
    case _ =>
  }

  lemma SettledIsHeld(q: System, e: JobRuns.Event)
    requires e.Settle? && Possible(q, e)
    ensures e.claim in q.held
  {
  }

  /** If no reap takes a row from a live worker, claims are settled by those who own them. */
  lemma {:induction false} TimelyRunsAreInTime(s: State, moves: seq<Move>)
    requires Owned(s.q) && CanRun(s, moves) && TimelyMoves(s, moves)
    ensures InTimeRun(s, moves)
    decreases |moves|
  {
    hide Owned, Next, CanHappen, InTime, Timely;
    if moves != [] {
      TimelyMoveKeepsOwned(s, moves[0]);
      TimelyRunsAreInTime(Next(s, moves[0]), moves[1..]);
    }
  }

  // --- what goes wrong otherwise --------------------------------------------------------------

  ghost predicate Reachable(s: State) {
    exists moves :: CanRun(START, moves) && After(START, moves) == s
  }

  lemma {:induction false} RunOneMore(s: State, moves: seq<Move>, m: Move)
    requires CanRun(s, moves) && CanHappen(After(s, moves), m)
    ensures CanRun(s, moves + [m]) && After(s, moves + [m]) == Next(After(s, moves), m)
    decreases |moves|
  {
    hide Next, CanHappen;
    if moves == [] {
      assert CanRun(Next(s, m), []);
      assert ([] + [m])[1..] == [];
    } else {
      assert (moves + [m])[1..] == moves[1..] + [m];
      RunOneMore(Next(s, moves[0]), moves[1..], m);
    }
  }

  lemma Make(s: State, m: Move) returns (after: State)
    requires Reachable(s) && CanHappen(s, m)
    ensures after == Next(s, m) && Reachable(after)
  {
    hide Next, CanHappen;
    after := Next(s, m);
    var moves :| CanRun(START, moves) && After(START, moves) == s;
    RunOneMore(START, moves, m);
  }

  const SOME_LINK := LinkId("guild", "role")
  const FIRST_CLAIM := Claim(0, "w", JobFor(SOME_LINK), 1, 8)

  /** A worker has claimed the only job of a link and has read version 1 of its rule. */
  lemma RuleHasBeenRead() returns (s: State)
    ensures Reachable(s)
    ensures s.q.held == {FIRST_CLAIM} && s.q.table.Keys == {0}
    ensures s.q.table[0] == ClaimedRow(NewJob(JobFor(SOME_LINK), 0), "w", 0)
    ensures s.versions == map[SOME_LINK := 1] && s.promised == map[SOME_LINK := 1]
    ensures s.seen == map[FIRST_CLAIM := 1] && s.completed == map[] && s.failed == map[]
  {
    hide ClaimedIds, Reachable;
    assert Reachable(START) by { StartIsReachable(); }
    var s1 := Make(START, Register(SOME_LINK));
    var s2 := Make(s1, Tick(SOME_LINK, 0));
    OnlyJobIsClaimed(s2.q.table, 0);
    var s3 := Make(s2, Queue(ClaimBatch("w", 0, 8)));
    assert s3.q.held == {ClaimOf(s2.q.table, 0, "w")};
    s := Make(s3, ReadRule(FIRST_CLAIM));
  }

  lemma StartIsReachable()
    ensures Reachable(START)
  {
    assert CanRun(START, []) && After(START, []) == START;
  }

  /**
    Why the tick counts only pending jobs: a job of the link is in progress, none
    is pending, and nobody is going to read the rule just saved.
   */
  lemma RunningJobMayHaveReadTheOldRule() returns (s: State)
    ensures Reachable(s)
    ensures 0 in s.q.table && s.q.table[0].payload == JobFor(SOME_LINK) && s.q.table[0].status.InProgress?
    ensures SOME_LINK in s.versions && s.versions[SOME_LINK] == 2 && !HasPending(s.q.table, SOME_LINK)
    ensures !Kept(s, SOME_LINK, 2)
  {
    hide Reachable;
    var s4 := RuleHasBeenRead();
    s := Make(s4, Save(SOME_LINK, 1));
    assert FIRST_CLAIM in s.q.held && s.seen[FIRST_CLAIM] == 1;
  }

  /**
    Why settlement must be in time: a worker outlives its lock, the tick relies
    on the job that was reaped from it, and then the worker completes that job,
    having read the rule before it was saved.
   */
  lemma LateCompletionLosesARule() returns (s: State)
    ensures Reachable(s)
    ensures SOME_LINK in s.promised && s.promised[SOME_LINK] == 2 && !Kept(s, SOME_LINK, 2)
  {
    hide Reachable;
    var before := ReapedJobIsReliedOn();
    s := Make(before, Queue(Settle(FIRST_CLAIM, Success, 1_900_001, 0, "")));
    assert s.q.table[0].status.Completed?;
  }

  lemma ReapedJobIsReliedOn() returns (s: State)
    ensures Reachable(s)
    ensures s.q.held == {FIRST_CLAIM} && s.q.table.Keys == {0}
    ensures s.q.table[0].payload == JobFor(SOME_LINK) && s.q.table[0].status.Pending?
    ensures s.promised == map[SOME_LINK := 2]
    ensures s.seen == map[FIRST_CLAIM := 1] && s.completed == map[] && s.failed == map[]
  {
    hide Reachable;
    var read := RuleHasBeenRead();
    var reaped := Make(read, Queue(Reap(1_900_000, 1_800_000)));
    var saved := Make(reaped, Save(SOME_LINK, 1));
    assert PendingConfigSync(saved.q.table[0], "guild", "role");
    s := Make(saved, Tick(SOME_LINK, 1_900_000));
  }
}

/**
  A runnable job is not starved. `claim_batch` takes the lowest ids first, so a
  job can be passed over; but each time it is, a full batch of older jobs uses
  up one attempt each, and they only have so many.
 */
module JobFairness {
  import opened JobQueue
  import opened JobRuns

  const BATCH_SIZE := 8

  // --- a full batch -------------------------------------------------------------------

  lemma HasGreatest(s: set<JobId>) returns (m: JobId)
    requires s != {}
    ensures m in s && forall x <- s :: x <= m
  {
    var x :| x in s;
    m := x;
    assert s == {x} + (s - {x});
    if s - {x} != {} {
      var n := HasGreatest(s - {x});
      m := if n > x then n else x;
      assert forall y <- s :: y == x || y in s - {x};
    }
  }

  lemma RankWithoutGreatest(s: set<JobId>, m: JobId, id: JobId)
    requires m in s && (forall x <- s :: x <= m) && id in s && id != m
    ensures Rank(s, id) == Rank(s - {m}, id)
  {
    assert (set x | x in s && x < id) == (set x | x in s - {m} && x < id);
  }

  lemma RankOfGreatest(s: set<JobId>, m: JobId)
    requires m in s && forall x <- s :: x <= m
    ensures Rank(s, m) == |s| - 1
  {
    assert (set x | x in s && x < m) == s - {m};
  }

  /** LIMIT n yields n rows when there are that many. */
  lemma {:induction false} BatchIsFull(s: set<JobId>, n: nat)
    requires n <= |s|
    ensures |Lowest(s, n)| == n
    decreases |s|
  {
    if s == {} {
      assert Lowest(s, n) == {};
    } else {
      var m := HasGreatest(s);
      RankOfGreatest(s, m);
      forall id | id in s && id != m
        ensures Rank(s, id) == Rank(s - {m}, id)
      {
        RankWithoutGreatest(s, m, id);
      }
      if n == |s| {
        WholeSet(s, n);
      } else {
        BatchIsFull(s - {m}, n);
        assert Lowest(s, n) == Lowest(s - {m}, n);
      }
    }
  }

  lemma WholeSet(s: set<JobId>, n: nat)
    requires n == |s|
    ensures Lowest(s, n) == s
  {
    forall id | id in s
      ensures Rank(s, id) < n
    {
      RankIsLessThanSize(s, id);
    }
  }

  lemma RankIsLessThanSize(s: set<JobId>, id: JobId)
    requires id in s
    ensures Rank(s, id) < |s|
  {
    var below := set x | x in s && x < id;
    var others := s - {id};
    assert below <= others;
    assert others == below + (others - below);
    assert |others| == |s| - 1;
  }

  /** What is left out of a batch comes after everything in it. */
  lemma PassedOverComesLater(s: set<JobId>, n: nat, id: JobId, claimed: JobId)
    requires id in s && id !in Lowest(s, n) && claimed in Lowest(s, n)
    ensures claimed < id
  {
    if id <= claimed {
      RankIsMonotone(s, id, claimed);
    }
  }

  lemma RankIsMonotone(s: set<JobId>, a: JobId, b: JobId)
    requires a <= b
    ensures Rank(s, a) <= Rank(s, b)
  {
    var belowA, belowB := set x | x in s && x < a, set x | x in s && x < b;
    assert belowA <= belowB;
    assert belowB == belowA + (belowB - belowA);
  }

  lemma RankIsBelowSize(s: set<JobId>, id: JobId)
    ensures Rank(s, id) <= |s|
  {
    var below := set x | x in s && x < id;
    assert s == below + (s - below);
  }

  // --- remaining attempts -------------------------------------------------------------

  /** The attempts a row may still use. */
  function Remaining(t: Table, id: JobId): int {
    if id !in t || Terminal(t[id].status) then 0 else t[id].maxAttempts - t[id].attempts
  }

  /** The attempts left to the jobs older than `id`. */
  function OlderAttempts(t: Table, id: JobId): int {
    if id == 0 then 0 else OlderAttempts(t, id - 1) + Remaining(t, id - 1)
  }

  /** In runs without reaps and releases no attempt is ever given back. */
  predicate GivesNothingBack(s: System, e: Event) {
    match e
    case Settle(_, outcome, _, _, _) => !outcome.ShuttingDown?
    case Reap(at, maxLock) => forall id <- s.table :: !Stuck(s.table[id], at, maxLock)
    case _ => true
  }

  ghost predicate Strict(s: System) {
    Counted(s) && Owned(s) && forall id :: ExtraOf(s, id) == 0
  }

  lemma NothingGivenBack(s: System, e: Event)
    requires Possible(s, e) && GivesNothingBack(s, e)
    ensures forall id :: ExtraOf(Step(s, e), id) == ExtraOf(s, id)
  {
    hide AfterSettle, ClaimedIds;
  }

  lemma ReapOfNothing(s: System, e: Event)
    requires e.Reap? && GivesNothingBack(s, e)
    ensures Step(s, e).table == s.table
    ensures Timely(s, e) <== (forall c <- s.held :: c.id in s.table)
  {
  }

  lemma StepKeepsStrict(s: System, e: Event)
    requires Strict(s) && Possible(s, e) && GivesNothingBack(s, e)
    ensures Strict(Step(s, e))
  {
    hide Counted, Owned, Step, ExtraOf;
    StepKeepsCounted(s, e);
    NothingGivenBack(s, e);
    if e.Reap? {
      ReapOfNothing(s, e);
      HeldRowsExist(s);
    }
    TimelyStepKeepsOwned(s, e);
  }

  lemma HeldRowsExist(s: System)
    requires Owned(s)
    ensures forall c <- s.held :: c.id in s.table
  {
    forall c | c in s.held
      ensures c.id in s.table
    {
      assert Owns(s, c);
    }
  }

  /** A job has used no more attempts than it is allowed, and a pending one has some left. */
  lemma AttemptsAreLeft(s: System, id: JobId)
    requires Strict(s) && id in s.table
    ensures s.table[id].attempts + (if s.table[id].status.Pending? then 1 else 0) <= s.table[id].maxAttempts
  {
    assert AttemptsCounted(s, id) && ExtraOf(s, id) == 0;
    SubsetIsNoLarger(RetriedOf(s, id), NumbersBelow(s.table[id].maxAttempts - 1));
  }

  lemma RemainingNeverRises(s: System, e: Event, id: JobId)
    requires Strict(s) && Possible(s, e) && GivesNothingBack(s, e)
    requires id < s.nextId
    ensures Remaining(Step(s, e).table, id) <= Remaining(s.table, id)
    ensures e.ClaimBatch? && id in ClaimedIds(s.table, e.at, e.batchSize)
        ==> Remaining(Step(s, e).table, id) == Remaining(s.table, id) - 1
  {
    hide ClaimedIds, AfterSettle, Counted;
    if e.ClaimBatch? {
      ClaimedAreRunnable(s.table, e.at, e.batchSize, id);
    }
    if id in s.table {
      AttemptsAreLeft(s, id);
      if e.Settle? {
        SettledAttempts(s.table, e.claim, e.outcome, e.at, e.jitter, e.error);
        assert Owns(s, e.claim);
      }
    } else {
      RemovedRowStays(s, e, id);
    }
  }

  lemma {:induction false} OlderAttemptsNeverRise(s: System, e: Event, id: JobId)
    requires Strict(s) && Possible(s, e) && GivesNothingBack(s, e)
    requires id <= s.nextId
    ensures OlderAttempts(Step(s, e).table, id) <= OlderAttempts(s.table, id)
    decreases id
  {
    hide Step, Strict, GivesNothingBack, Remaining;
    if id > 0 {
      OlderAttemptsNeverRise(s, e, id - 1);
      RemainingNeverRises(s, e, id - 1);
    }
  }

  lemma {:induction false} ClaimedUseAttempts(s: System, e: Event, id: JobId)
    requires Strict(s) && e.ClaimBatch? && id <= s.nextId
    ensures OlderAttempts(Step(s, e).table, id)
         <= OlderAttempts(s.table, id) - |set x | x in ClaimedIds(s.table, e.at, e.batchSize) && x < id|
    decreases id
  {
    hide Strict, Remaining, Step, ClaimedIds;
    var claimed := ClaimedIds(s.table, e.at, e.batchSize);
    var below := set x | x in claimed && x < id;
    if id == 0 {
      assert below == {};
    } else {
      var rest := set x | x in claimed && x < id - 1;
      ClaimedUseAttempts(s, e, id - 1);
      RemainingNeverRises(s, e, id - 1);
      assert below == if id - 1 in claimed then rest + {id - 1} else rest;
    }
  }

  lemma {:induction false} OlderAttemptsAreNotNegative(s: System, id: JobId)
    requires Strict(s)
    ensures OlderAttempts(s.table, id) >= 0
    decreases id
  {
    hide Strict;
    if id > 0 {
      OlderAttemptsAreNotNegative(s, id - 1);
      if id - 1 in s.table {
        AttemptsAreLeft(s, id - 1);
      }
    }
  }

  // --- no starvation --------------------------------------------------------------------

  /** A worker's claim that could have taken `id` and does not. */
  predicate PassesOver(s: System, e: Event, id: JobId) {
    && e.ClaimBatch?
    && e.batchSize == 8
    && id in RunnableIds(s.table, e.at)
    && id !in ClaimedIds(s.table, e.at, e.batchSize)
  }

  lemma PassingOverCostsEight(s: System, e: Event, id: JobId)
    requires Strict(s) && PassesOver(s, e, id)
    ensures OlderAttempts(Step(s, e).table, id) <= OlderAttempts(s.table, id) - 8
  {
    hide Step, OlderAttempts, Rank;
    var runnable := RunnableIds(s.table, e.at);
    var claimed := ClaimedIds(s.table, e.at, e.batchSize);
    RankIsBelowSize(runnable, id);
    BatchIsFull(runnable, BATCH_SIZE);
    assert (set x | x in claimed && x < id) == claimed by {
      forall x | x in claimed
        ensures x < id
      {
        PassedOverComesLater(runnable, BATCH_SIZE, id, x);
      }
    }
    assert id < s.nextId by {
      assert Counted(s);
    }
    ClaimedUseAttempts(s, e, id);
  }

  ghost predicate UngivingRun(s: System, events: seq<Event>)
    decreases |events|
  {
    events == []
    || (Possible(s, events[0]) && GivesNothingBack(s, events[0]) && UngivingRun(Step(s, events[0]), events[1..]))
  }

  /** How often the run passes the job over. */
  ghost function Passes(s: System, events: seq<Event>, id: JobId): nat
    requires UngivingRun(s, events)
    decreases |events|
  {
    if events == [] then 0
    else (if PassesOver(s, events[0], id) then 1 else 0) + Passes(Step(s, events[0]), events[1..], id)
  }

  /**
    In a run without reaps and releases a job is passed over at most an eighth
    as often as the jobs older than it had attempts left.
   */
  lemma {:induction false} NoStarvation(s: System, events: seq<Event>, id: JobId)
    requires Strict(s) && UngivingRun(s, events) && id < s.nextId
    ensures 8 * Passes(s, events, id) <= OlderAttempts(s.table, id)
    decreases |events|
  {
    hide Step, Strict, GivesNothingBack, OlderAttempts, PassesOver;
    if events == [] {
      OlderAttemptsAreNotNegative(s, id);
    } else {
      var e, next := events[0], Step(s, events[0]);
      StepKeepsStrict(s, e);
      IdsGrow(s, e);
      NoStarvation(next, events[1..], id);
      if PassesOver(s, e, id) {
        PassingOverCostsEight(s, e, id);
      } else {
        OlderAttemptsNeverRise(s, e, id);
      }
    }
  }

  /** Queues start out meeting the hypothesis above. */
  lemma EmptyQueueIsStrict()
    ensures Strict(EMPTY)
  {
  }
}

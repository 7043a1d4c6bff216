/**
  How saved rules reach the sync engine: `role_config_save` of
  src/routes/admin.rs, the tick's fan-out with its de-duplication, and the
  config syncs that read the rule. ConfigPromises shows what becomes of a saved
  rule in the runs defined here.
 */
module ConfigQueue {
  import opened Wrappers
  import opened JobQueue
  import opened JobRuns
  import opened SyncEngine
  import opened RuleValidator
  import opened RuleValidatorLaws
  import C = Condition

  // --- saving ---------------------------------------------------------------------------

  datatype StoredLink = StoredLink(tree: C.RuleTree, version: int)

  datatype SaveError = BadRequest(why: TreeError) | NoSuchLink | StaleVersion

  class RoleLinks {
    var rows: map<LinkId, StoredLink>
    var queue: JobTable

    ghost predicate Valid(regex: C.RegexEngine)
      reads this, queue
    {
      queue.Valid() && forall id <- rows :: StoredRule(rows[id].tree, regex)
    }

    constructor (queue: JobTable)
      ensures this.queue == queue && rows == map[]
    {
      this.queue := queue;
      rows := map[];
    }

    /**
      Stores the rule if it validates and nobody saved since the editor loaded
      `expected`, then queues a config sync five seconds later. A failing
      enqueue is only logged.
     */
    method RoleConfigSave(
      id: LinkId, expected: int, body: TreeBody, regex: C.RegexEngine, now: int, enqueueFails: bool)
      returns (r: Result<(), SaveError>)
      requires Valid(regex)
      modifies this`rows, queue
      ensures Valid(regex) && queue == old(queue)
      ensures r.Ok? <==> ParsedTree(body, regex).Ok? && id in old(rows) && old(rows)[id].version == expected
      ensures r.Ok? ==> rows == old(rows)[id := StoredLink(ParsedTree(body, regex).value, expected + 1)]
      ensures r.Err? ==> rows == old(rows)
      ensures r.Err? && r.error.BadRequest? <==> ParsedTree(body, regex).Err?
      ensures r.Err? && r.error.BadRequest? ==> r.error.why == ParsedTree(body, regex).error
      ensures r == Err(NoSuchLink) <==> ParsedTree(body, regex).Ok? && id !in old(rows)
      ensures r == Err(StaleVersion)
         <==> ParsedTree(body, regex).Ok? && id in old(rows) && old(rows)[id].version != expected
      ensures queue.jobs == if r.Ok? && !enqueueFails
                            then old(queue.jobs)[old(queue.nextId) := NewJob(ConfigSync(id.guild, id.role), now + 5000)]
                            else old(queue.jobs)
    {
      hide ParsedTree, WellFormed;
      var parsed := ParseRuleTree(body, regex);
      if parsed.Err? {
        return Err(BadRequest(parsed.error));
      }
      AcceptedTreeIsWellFormed(body, regex);
      if id !in rows {
        return Err(NoSuchLink);
      }
      if rows[id].version != expected {
        return Err(StaleVersion);
      }
      rows := rows[id := StoredLink(parsed.value, rows[id].version + 1)];
      if !enqueueFails {
        var _ := queue.Enqueue(ConfigSync(id.guild, id.role), now, 5000);
      }
      return Ok(());
    }

    /**
      `enqueue_resync_all_role_links`: the tick's fan-out; a failing enqueue is
      only logged.
     */
    method EnqueueResyncAll(now: int, enqueueFails: LinkId -> bool)
      requires queue.Valid()
      modifies queue
      ensures queue.Valid() && rows == old(rows)
      ensures forall id <- rows :: !enqueueFails(id) ==> HasPending(queue.jobs, id)
      ensures FanOut(old(queue.jobs), queue.jobs, (set id | id in rows.Keys && !enqueueFails(id)), now)
    {
      hide FanOut;
      var left := rows.Keys;
      NothingFannedOut(queue.jobs, now);
      ghost var done: set<LinkId> := {};
      while left != {}
        invariant left <= rows.Keys && queue.Valid()
        invariant done == set id | id in rows.Keys && id !in left && !enqueueFails(id)
        invariant forall id <- done :: HasPending(queue.jobs, id)
        invariant FanOut(old(queue.jobs), queue.jobs, done, now)
        decreases left
      {
        var id :| id in left;
        if !enqueueFails(id) {
          ghost var before := queue.jobs;
          queue.EnqueueConfigSyncUnique(id.guild, id.role, now);
          OneMoreFannedOut(old(queue.jobs), before, queue.jobs, done, id, now);
          done := done + {id};
        }
        left := left - {id};
      }
      assert done == set id | id in rows.Keys && !enqueueFails(id);
    }
  }

  /** A config sync for the link is pending. */
  predicate HasPending(t: Table, id: LinkId) {
    exists j <- t :: PendingConfigSync(t[j], id.guild, id.role)
  }

  predicate IsNewSync(j: Job, now: int) {
    j.payload.ConfigSync? && j == NewJob(j.payload, now)
  }

  /** `after` is `before` and at most one new job for each of these links, none for one that had a job pending. */
  ghost predicate FanOut(before: Table, after: Table, links: set<LinkId>, now: int) {
    && (forall j <- before :: j in after && after[j] == before[j])
    && (forall j <- after :: j !in before ==>
          && IsNewSync(after[j], now)
          && LinkOf(after[j].payload) in links
          && !HasPending(before, LinkOf(after[j].payload)))
    && (forall i, j :: i in after && j in after && i !in before && j !in before && i != j
          ==> after[i].payload != after[j].payload)
  }

  lemma NothingFannedOut(t: Table, now: int)
    ensures FanOut(t, t, {}, now)
  {
  }

  lemma OneMoreFannedOut(before: Table, t: Table, after: Table, links: set<LinkId>, id: LinkId, now: int)
    requires FanOut(before, t, links, now) && id !in links
    requires after == t || (!HasPending(t, id) && exists n: JobId :: n !in t && after == t[n := NewJob(ConfigSync(id.guild, id.role), now)])
    requires HasPending(after, id) && forall l <- links :: HasPending(t, l)
    ensures FanOut(before, after, links + {id}, now)
    ensures forall l <- links + {id} :: HasPending(after, l)
  {
    PendingStays(before, t, id);
    forall l | l in links
      ensures HasPending(after, l)
    {
      PendingStays(t, after, l);
    }
  }

  lemma PendingStays(t: Table, after: Table, id: LinkId)
    requires forall j <- t :: j in after && after[j] == t[j]
    ensures HasPending(t, id) ==> HasPending(after, id)
  {
    if HasPending(t, id) {
      var j :| j in t && PendingConfigSync(t[j], id.guild, id.role);
      assert PendingConfigSync(after[j], id.guild, id.role);
    }
  }

  // --- runs -----------------------------------------------------------------------------

  /**
    The queue, the versions of the live rows, and a record: the version each
    link's syncs have been promised to read, the version each claim has read,
    and the highest version that a completed sync has read or that a dead job
    was to read. What a claim read before its link was removed counts for
    nothing if the link is registered again.
   */
  datatype State = State(
    q: System,
    versions: map<LinkId, int>,
    promised: map<LinkId, int>,
    seen: map<Claim, int>,
    completed: map<LinkId, int>,
    failed: map<LinkId, int>)

  datatype Move =
    | Register(id: LinkId)
    | Deregister(id: LinkId)
    | Save(id: LinkId, expected: int)
    | EnqueueAfterSave(id: LinkId, at: int)
    | Tick(id: LinkId, at: int)
    | ReadRule(claim: Claim)
    | Queue(e: JobRuns.Event)

  function JobFor(id: LinkId): Payload {
    ConfigSync(id.guild, id.role)
  }

  function LinkOf(p: Payload): LinkId
    requires p.ConfigSync?
  {
    LinkId(p.guild, p.role)
  }

  function Lookup(m: map<LinkId, int>, id: LinkId): int {
    if id in m then m[id] else 0
  }

  function Max(a: int, b: int): int {
    if a >= b then a else b
  }

  /** A sync that succeeds has read its rule. Jobs of any kind enter the same queue at any time. */
  predicate CanHappen(s: State, m: Move) {
    match m
    case ReadRule(c) => c in s.q.held && c.payload.ConfigSync?
    case Queue(e) =>
      && Possible(s.q, e)
      && (e.Settle? && e.outcome.Success? && e.claim.payload.ConfigSync? ==> e.claim in s.seen)
    case _ => true
  }

  /** The newest version a job covers when it dies: what it read, or was about to read. */
  function Covered(s: State, c: Claim): int
    requires c.payload.ConfigSync?
  {
    if c in s.seen then s.seen[c] else Lookup(s.versions, LinkOf(c.payload))
  }

  function Promise(s: State, id: LinkId): State {
    if id in s.versions then s.(promised := s.promised[id := s.versions[id]]) else s
  }

  function Recorded(s: State, c: Claim, after: System): State {
    if !c.payload.ConfigSync? then s.(q := after)
    else
      var id := LinkOf(c.payload);
      if c.id !in after.table then s.(q := after)
      else
        match after.table[c.id].status
        case Completed => s.(q := after, completed := s.completed[id := Max(Lookup(s.completed, id), Covered(s, c))])
        case Dead => s.(q := after, failed := s.failed[id := Max(Lookup(s.failed, id), Covered(s, c))])
        case _ => s.(q := after)
  }

  function Removed(s: State, id: LinkId): State {
    s.(versions := s.versions - {id}, promised := s.promised - {id},
       completed := s.completed - {id}, failed := s.failed - {id},
       seen := map c | c in s.seen :: if c.payload == JobFor(id) then 0 else s.seen[c])
  }

  /** The tick's enqueue, which a pending config sync of the link makes unnecessary. */
  function Fanned(s: State, id: LinkId, at: int): State {
    if HasPending(s.q.table, id) then s else s.(q := Step(s.q, Enqueue(JobFor(id), at)))
  }

  function QueueNext(s: State, e: JobRuns.Event): State
    requires Possible(s.q, e)
  {
    if e.Settle? then Recorded(s, e.claim, Step(s.q, e)) else s.(q := Step(s.q, e))
  }

  function Next(s: State, m: Move): State
    requires CanHappen(s, m)
  {
    match m
    case Register(id) => if id in s.versions then s else s.(versions := s.versions[id := 1])
    case Deregister(id) => Removed(s, id)
    case Save(id, expected) =>
      if id in s.versions && s.versions[id] == expected then s.(versions := s.versions[id := expected + 1]) else s
    case EnqueueAfterSave(id, at) =>
      Promise(s.(q := Step(s.q, Enqueue(JobFor(id), at + 5000))), id)
    case Tick(id, at) =>
      if id in s.versions then Promise(Fanned(s, id, at), id) else s
    case ReadRule(c) => s.(seen := s.seen[c := Lookup(s.versions, LinkOf(c.payload))])
    case Queue(e) => QueueNext(s, e)
  }

  const START := State(EMPTY, map[], map[], map[], map[], map[])

  ghost predicate CanRun(s: State, moves: seq<Move>)
    decreases |moves|
  {
    moves == [] || (CanHappen(s, moves[0]) && CanRun(Next(s, moves[0]), moves[1..]))
  }

  ghost function After(s: State, moves: seq<Move>): State
    requires CanRun(s, moves)
    decreases |moves|
  {
    if moves == [] then s else After(Next(s, moves[0]), moves[1..])
  }
}

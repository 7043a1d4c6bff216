/**
  src/services/sync.rs lines 137-198 run the planned actions of a player sync
  concurrently. Each action is two steps, the call to RoleLogic and the local
  write, and the steps of different links may alternate in any way. The result
  is that of `PlayerStep` all the same.
 */
module SyncInterleaving {
  import opened Wrappers
  import opened BirthdayTable
  import opened RoleLogic
  import opened SyncEngine
  import opened SyncLaws

  datatype Progress = Waiting | CallDone | Settled

  /** Role links in the middle of a player sync, and how far each planned action is. */
  datatype Flight = Flight(links: map<LinkId, Link>, progress: map<LinkId, Progress>)

  /** What does not change during the flight. */
  datatype Plan = Plan(user: UserId, actions: map<LinkId, Action>, outcome: LinkId -> Option<RemoteError>)

  ghost function PlanOf(
    w: World, user: UserId, guilds: seq<string>, outcome: LinkId -> Option<RemoteError>, s: Setting): Plan
    requires AllSound(w.birthdays) && Sane(s)
  {
    Plan(user, map id | id in w.links && IsPlanned(w, id, user, guilds, s) :: Planned(w, id, user, guilds, s).value, outcome)
  }

  function Start(w: World, plan: Plan): Flight {
    Flight(w.links, map id | id in plan.actions :: Waiting)
  }

  function CallMade(link: Link, user: UserId, action: Action): Link {
    match action
    case Add => link.(remote := link.remote + {user})
    case Remove => link.(remote := link.remote - {user})
  }

  function RowWritten(link: Link, user: UserId, action: Action): Link {
    match action
    case Add => link.(mirror := link.mirror + {user})
    case Remove => link.(mirror := link.mirror - {user})
  }

  /** The next step of the action for `id`; nothing when it is done. */
  function Tick(f: Flight, id: LinkId, plan: Plan): Flight {
    if id !in f.progress || id !in plan.actions || id !in f.links then f
    else
      var link, action := f.links[id], plan.actions[id];
      match f.progress[id]
      case Settled => f
      case CallDone => Flight(f.links[id := RowWritten(link, plan.user, action)], f.progress[id := Settled])
      case Waiting =>
        match plan.outcome(id)
        case None => Flight(f.links[id := CallMade(link, plan.user, action)], f.progress[id := CallDone])
        case Some(LinkNotFound) => Flight(f.links - {id}, f.progress[id := Settled])
        case Some(_) => Flight(f.links, f.progress[id := Settled])
  }

  function Ticks(f: Flight, schedule: seq<LinkId>, plan: Plan): Flight
    decreases |schedule|
  {
    if schedule == [] then f else Ticks(Tick(f, schedule[0], plan), schedule[1..], plan)
  }

  /** Where a link stands, given how far its own action is. */
  predicate LinkOnTrack(w: World, f: Flight, plan: Plan, id: LinkId)
    requires id in w.links && f.progress.Keys == plan.actions.Keys
  {
    if id !in plan.actions || f.progress[id] == Waiting then
      id in f.links && f.links[id] == w.links[id]
    else if f.progress[id] == CallDone then
      && plan.outcome(id) == None
      && id in f.links && f.links[id] == CallMade(w.links[id], plan.user, plan.actions[id])
    else
      && (id in f.links <==> plan.outcome(id) != Some(LinkNotFound))
      && (id in f.links ==>
            f.links[id] == if plan.outcome(id) == None then Perform(w.links[id], plan.user, plan.actions[id])
                           else w.links[id])
  }

  predicate OnTrack(w: World, f: Flight, plan: Plan) {
    && f.progress.Keys == plan.actions.Keys
    && f.links.Keys <= w.links.Keys
    && forall id <- w.links :: LinkOnTrack(w, f, plan, id)
  }

  lemma TickStaysOnTrack(w: World, f: Flight, id: LinkId, plan: Plan)
    requires OnTrack(w, f, plan)
    ensures OnTrack(w, Tick(f, id, plan), plan)
  {
    var after := Tick(f, id, plan);
    TickTouchesOneLink(f, id, plan);
    forall l | l in w.links
      ensures LinkOnTrack(w, after, plan, l)
    {
      assert LinkOnTrack(w, f, plan, l);
      if l == id {
        OwnTick(w, f, id, plan);
      }
    }
  }

  lemma TickTouchesOneLink(f: Flight, id: LinkId, plan: Plan)
    ensures var after := Tick(f, id, plan);
            && after.links - {id} == f.links - {id}
            && after.links.Keys <= f.links.Keys
            && after.progress.Keys == f.progress.Keys
            && (forall l <- f.progress :: l != id ==> after.progress[l] == f.progress[l])
            && forall l :: l != id ==> (l in after.links <==> l in f.links) && (l in f.links ==> after.links[l] == f.links[l])
  {
  }

  lemma OwnTick(w: World, f: Flight, id: LinkId, plan: Plan)
    requires f.progress.Keys == plan.actions.Keys && id in w.links && LinkOnTrack(w, f, plan, id)
    ensures Tick(f, id, plan).progress.Keys == plan.actions.Keys
    ensures LinkOnTrack(w, Tick(f, id, plan), plan, id)
  {
  }

  lemma {:induction false} TicksStayOnTrack(w: World, f: Flight, schedule: seq<LinkId>, plan: Plan)
    requires OnTrack(w, f, plan)
    ensures OnTrack(w, Ticks(f, schedule, plan), plan)
    decreases |schedule|
  {
    hide OnTrack, Tick;
    if schedule != [] {
      TickStaysOnTrack(w, f, schedule[0], plan);
      TicksStayOnTrack(w, Tick(f, schedule[0], plan), schedule[1..], plan);
    }
  }

  /**
    Whatever the schedule: once every action has settled, the outcome is that of
    the player sync, and until then mirror and remote set differ only on links
    whose call is done, and only in the player being synced.
   */
  lemma AnyScheduleIsPlayerStep(
    w: World, user: UserId, guilds: seq<string>, outcome: LinkId -> Option<RemoteError>, s: Setting,
    schedule: seq<LinkId>)
    requires AllSound(w.birthdays) && Sane(s) && Mirrored(w)
    ensures var plan := PlanOf(w, user, guilds, outcome, s);
            var f := Ticks(Start(w, plan), schedule, plan);
            && f.progress.Keys == plan.actions.Keys
            && (forall id <- f.links ::
                  && f.links[id].mirror - {user} == f.links[id].remote - {user}
                  && (f.links[id].mirror != f.links[id].remote ==> id in f.progress && f.progress[id] == CallDone))
            && ((forall id <- f.progress :: f.progress[id] == Settled)
                ==> World(f.links, w.birthdays) == PlayerStep(w, user, Some(guilds), outcome, s))
  {
    hide Planned, Ticks, LinkOnTrack, PlayerStep;
    var plan := PlanOf(w, user, guilds, outcome, s);
    StartIsOnTrack(w, plan);
    TicksStayOnTrack(w, Start(w, plan), schedule, plan);
    var f := Ticks(Start(w, plan), schedule, plan);
    InFlight(w, f, plan);
    if forall id <- f.progress :: f.progress[id] == Settled {
      Landed(w, f, user, guilds, outcome, s);
    }
  }

  lemma StartIsOnTrack(w: World, plan: Plan)
    requires plan.actions.Keys <= w.links.Keys
    ensures OnTrack(w, Start(w, plan), plan)
  {
  }

  lemma InFlight(w: World, f: Flight, plan: Plan)
    requires OnTrack(w, f, plan) && Mirrored(w)
    ensures forall id <- f.links ::
              && f.links[id].mirror - {plan.user} == f.links[id].remote - {plan.user}
              && (f.links[id].mirror != f.links[id].remote ==> id in f.progress && f.progress[id] == CallDone)
  {
    forall id | id in f.links
      ensures f.links[id].mirror - {plan.user} == f.links[id].remote - {plan.user}
      ensures f.links[id].mirror != f.links[id].remote ==> id in f.progress && f.progress[id] == CallDone
    {
      assert id in w.links && LinkOnTrack(w, f, plan, id);
    }
  }

  lemma Landed(
    w: World, f: Flight, user: UserId, guilds: seq<string>, outcome: LinkId -> Option<RemoteError>, s: Setting)
    requires AllSound(w.birthdays) && Sane(s)
    requires OnTrack(w, f, PlanOf(w, user, guilds, outcome, s))
    requires forall id <- f.progress :: f.progress[id] == Settled
    ensures World(f.links, w.birthdays) == PlayerStep(w, user, Some(guilds), outcome, s)
  {
    var after := PlayerStep(w, user, Some(guilds), outcome, s).links;
    forall id | id in w.links
      ensures id in f.links <==> id in after
      ensures id in f.links ==> f.links[id] == after[id]
    {
      LinkLanded(w, f, user, guilds, outcome, s, id);
    }
    hide LinkOnTrack, Planned, PlanOf;
    assert f.links == after;
  }

  lemma LinkLanded(
    w: World, f: Flight, user: UserId, guilds: seq<string>, outcome: LinkId -> Option<RemoteError>, s: Setting, id: LinkId)
    requires AllSound(w.birthdays) && Sane(s)
    requires OnTrack(w, f, PlanOf(w, user, guilds, outcome, s)) && id in w.links
    requires forall id <- f.progress :: f.progress[id] == Settled
    ensures var after := PlayerStep(w, user, Some(guilds), outcome, s).links;
            (id in f.links <==> id in after) && (id in f.links ==> f.links[id] == after[id])
  {
    hide Planned, Perform, CallMade;
    assert LinkOnTrack(w, f, PlanOf(w, user, guilds, outcome, s), id);
  }
}

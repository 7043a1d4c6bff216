/**
  src/services/sync.rs: the two procedures that keep each role link's remote
  user set in step with its rule, and the local mirror of that set.

  `BulkStep` and `PlayerStep` say what one sync does to the world; the methods
  of `Engine` are the procedures themselves, query text included, and are
  proved to do just that. What other systems answer is an argument.

  Assumed: nobody else writes the remote sets, a failing remote call has not
  been applied, syncs of one link do not overlap, and a local write that
  follows a remote success succeeds.
 */
module SyncEngine {
  import opened Wrappers
  import opened Calendar
  import opened Birthday
  import opened BirthdayTable
  import opened ConditionEval
  import opened RuleValidatorLaws
  import opened SqlExpr
  import opened SqlSemantics
  import opened RuleSql
  import opened RuleBinds
  import opened RoleLogic
  import opened RuleAgreement
  import opened SortedIds
  import C = Condition

  datatype LinkId = LinkId(guild: string, role: string)

  /** A role link with its rows of `role_assignments`, and its user set on RoleLogic. */
  datatype Link = Link(tree: C.RuleTree, mirror: set<UserId>, remote: set<UserId>)

  datatype World = World(links: map<LinkId, Link>, birthdays: map<UserId, Row>)

  /** The local date in every time zone at the time of a sync, and the regex engine. */
  datatype Setting = Setting(localOf: string -> Date, regex: C.RegexEngine)

  ghost predicate Sane(s: Setting) {
    forall tz :: UsableToday(s.localOf(tz))
  }

  /** Rules reach a link through the validator; until then it is unconfigured. */
  predicate StoredRule(tree: C.RuleTree, regex: C.RegexEngine) {
    tree == C.UNCONFIGURED || WellFormed(tree, regex)
  }

  predicate Consistent(w: World, regex: C.RegexEngine) {
    AllSound(w.birthdays) && forall l <- w.links :: StoredRule(w.links[l].tree, regex)
  }

  predicate Configured(tree: C.RuleTree) {
    tree.grantOnAnyBirthday || tree.groups != []
  }

  // --- who should hold a role ---------------------------------------------------------

  function FactsOfRow(row: Row, s: Setting): Facts
    requires ChronoYear(row.birthYear) && UsableToday(s.localOf(row.tz))
  {
    ComputeFacts(row.Input(), s.localOf(row.tz))
  }

  /** The evaluator's verdict on one member; without a birthday there is none to grant. */
  predicate Qualifies(tree: C.RuleTree, user: UserId, birthdays: map<UserId, Row>, s: Setting)
    requires AllSound(birthdays) && Sane(s)
  {
    && user in birthdays
    && Configured(tree)
    && (tree.grantOnAnyBirthday || Evaluate(tree, FactsOfRow(birthdays[user], s), s.regex))
  }

  ghost function Matching(tree: C.RuleTree, members: seq<UserId>, birthdays: map<UserId, Row>, s: Setting): set<UserId>
    requires AllSound(birthdays) && Sane(s)
  {
    set u | u in members && u in birthdays && Qualifies(tree, u, birthdays, s)
  }

  /** The first `limit` matching members in order. */
  ghost function Wanted(
    tree: C.RuleTree, members: seq<UserId>, birthdays: map<UserId, Row>, limit: nat, s: Setting): (ids: seq<UserId>)
    requires AllSound(birthdays) && Sane(s)
    ensures FirstInOrder(ids, Matching(tree, members, birthdays, s), limit)
  {
    TakeIsFirst(Matching(tree, members, birthdays, s), limit);
    Take(Listing(Matching(tree, members, birthdays, s)), limit)
  }

  // --- bulk sync of one link ----------------------------------------------------------

  /**
    What other systems answer during a bulk sync: the gateway's member list, or
    nothing when it fails; the user limit; whether the database refuses the
    query; and how each call of a full-list upload fares.
   */
  datatype BulkAnswers = BulkAnswers(
    members: Option<seq<UserId>>,
    userLimit: Result<nat, RemoteError>,
    queryRefused: bool,
    faults: Faults)

  function DropLink(w: World, id: LinkId): World {
    w.(links := w.links - {id})
  }

  function Replace(w: World, id: LinkId, users: set<UserId>): World
    requires id in w.links
  {
    w.(links := w.links[id := w.links[id].(mirror := users, remote := users)])
  }

  /** A full-list upload and what follows it. */
  function Upload(w: World, id: LinkId, users: set<UserId>, outcome: Option<RemoteError>): World
    requires id in w.links
  {
    match outcome
    case None => Replace(w, id, users)
    case Some(LinkNotFound) => DropLink(w, id)
    case Some(_) => w
  }

  function UploadResult(outcome: Option<RemoteError>): Result<(), RemoteError> {
    match outcome
    case None => Ok(())
    case Some(LinkNotFound) => Ok(())
    case Some(Disabled) => Ok(())
    case Some(RemovalHeld) => Ok(())
    case Some(e) => Err(e)
  }

  /** The list a bulk sync uploads, if it gets as far as uploading one. */
  ghost function Uploaded(w: World, id: LinkId, a: BulkAnswers, s: Setting): Option<seq<UserId>>
    requires AllSound(w.birthdays) && Sane(s)
  {
    if id !in w.links then None
    else
      var link := w.links[id];
      if !Configured(link.tree) || a.members == Some([]) then
        if link.mirror == {} then None else Some([])
      else if a.members.None? || a.userLimit.Err? || a.queryRefused || QueryFails(link.tree, w.birthdays) then None
      else
        var wanted := Wanted(link.tree, a.members.value, w.birthdays, a.userLimit.value, s);
        if Listing(link.mirror) == wanted then None else Some(wanted)
  }

  /** The query of a rule whose integer lists do not fit its casts fails on every row. */
  predicate QueryFails(tree: C.RuleTree, birthdays: map<UserId, Row>) {
    !CastsFit(tree) && birthdays != map[]
  }

  /** The error that upload ends in, if it fails. */
  ghost function UploadError(w: World, id: LinkId, a: BulkAnswers, s: Setting): Option<RemoteError>
    requires AllSound(w.birthdays) && Sane(s)
  {
    match Uploaded(w, id, a, s)
    case None => None
    case Some(users) => UploadFault(users, a.faults)
  }

  ghost function BulkStep(w: World, id: LinkId, a: BulkAnswers, s: Setting): World
    requires AllSound(w.birthdays) && Sane(s)
  {
    match Uploaded(w, id, a, s)
    case Some(users) => Upload(w, id, Members(users), UploadError(w, id, a, s))
    case None => if LimitSaysGone(w, id, a) then DropLink(w, id) else w
  }

  /** What a bulk sync reports to the job worker. */
  ghost function BulkResult(w: World, id: LinkId, a: BulkAnswers, s: Setting): Result<(), RemoteError>
    requires AllSound(w.birthdays) && Sane(s)
  {
    if Uploaded(w, id, a, s).Some? then UploadResult(UploadError(w, id, a, s))
    else if id !in w.links || !Configured(w.links[id].tree) || a.members == Some([]) then Ok(())
    else if a.members.None? then Err(Unavailable)
    else if a.userLimit.Err? then
      if a.userLimit.error in {LinkNotFound, Disabled} then Ok(()) else Err(a.userLimit.error)
    else if a.queryRefused || QueryFails(w.links[id].tree, w.birthdays) then Err(Unavailable)
    else Ok(())
  }

  /** The limit is asked for, and the answer is that the link no longer exists. */
  predicate LimitSaysGone(w: World, id: LinkId, a: BulkAnswers) {
    && id in w.links
    && Configured(w.links[id].tree)
    && a.members.Some?
    && a.members.value != []
    && a.userLimit == Err(LinkNotFound)
  }

  // --- sync of one player -------------------------------------------------------------

  datatype Action = Add | Remove

  /** What a player sync plans for one link; `guilds` are those the gateway lists. */
  ghost function Planned(w: World, id: LinkId, user: UserId, guilds: seq<string>, s: Setting): Option<Action>
    requires AllSound(w.birthdays) && Sane(s)
    requires id in w.links
  {
    if id.guild !in guilds then None
    else
      var qualifies := Qualifies(w.links[id].tree, user, w.birthdays, s);
      var mirror := user in w.links[id].mirror;
      if qualifies && !mirror then Some(Add)
      else if !qualifies && mirror then Some(Remove)
      else None
  }

  function Perform(link: Link, user: UserId, action: Action): Link {
    match action
    case Add => link.(mirror := link.mirror + {user}, remote := link.remote + {user})
    case Remove => link.(mirror := link.mirror - {user}, remote := link.remote - {user})
  }

  /** `outcome` says how the call for each link fares. */
  ghost function PlayerStep(
    w: World, user: UserId, guilds: Option<seq<string>>, outcome: LinkId -> Option<RemoteError>, s: Setting): World
    requires AllSound(w.birthdays) && Sane(s)
  {
    match guilds
    case None => w
    case Some(gs) =>
      w.(links := map id | id in w.links && !(Planned(w, id, user, gs, s).Some? && outcome(id) == Some(LinkNotFound)) ::
           var plan := Planned(w, id, user, gs, s);
           if plan.Some? && outcome(id) == None then Perform(w.links[id], user, plan.value) else w.links[id])
  }

  ghost predicate IsPlanned(w: World, id: LinkId, user: UserId, guilds: seq<string>, s: Setting)
    requires AllSound(w.birthdays) && Sane(s)
  {
    id in w.links && Planned(w, id, user, guilds, s).Some?
  }

  /** The world once the planned actions for the links in `done` have been performed. */
  ghost function AfterActions(
    w: World, done: set<LinkId>, user: UserId, guilds: seq<string>, outcome: LinkId -> Option<RemoteError>, s: Setting)
    : World
    requires AllSound(w.birthdays) && Sane(s)
    requires forall id <- done :: IsPlanned(w, id, user, guilds, s)
  {
    w.(links := map id | id in w.links && !(id in done && outcome(id) == Some(LinkNotFound)) ::
         if id in done && outcome(id) == None && IsPlanned(w, id, user, guilds, s)
         then Perform(w.links[id], user, Planned(w, id, user, guilds, s).value)
         else w.links[id])
  }

  lemma NoActionsYet(w: World, user: UserId, guilds: seq<string>, outcome: LinkId -> Option<RemoteError>, s: Setting)
    requires AllSound(w.birthdays) && Sane(s)
    ensures AfterActions(w, {}, user, guilds, outcome, s) == w
  {
  }

  lemma OneMoreAction(
    w: World, done: set<LinkId>, id: LinkId, action: Action,
    user: UserId, guilds: seq<string>, outcome: LinkId -> Option<RemoteError>, s: Setting)
    requires AllSound(w.birthdays) && Sane(s)
    requires forall d <- done :: IsPlanned(w, d, user, guilds, s)
    requires id !in done && id in w.links && Planned(w, id, user, guilds, s) == Some(action)
    ensures var now := AfterActions(w, done, user, guilds, outcome, s).links;
            var after := AfterActions(w, done + {id}, user, guilds, outcome, s).links;
            && id in now
            && after == match outcome(id)
                        case None => now[id := Perform(now[id], user, action)]
                        case Some(LinkNotFound) => now - {id}
                        case Some(_) => now
    ensures AfterActions(w, done + {id}, user, guilds, outcome, s).birthdays == w.birthdays
  {
    hide Planned, Perform;
    assert IsPlanned(w, id, user, guilds, s);
  }

  lemma AllActionsDone(
    w: World, done: set<LinkId>, user: UserId, guilds: seq<string>, outcome: LinkId -> Option<RemoteError>, s: Setting)
    requires AllSound(w.birthdays) && Sane(s)
    requires forall id :: id in done <==> IsPlanned(w, id, user, guilds, s)
    ensures AfterActions(w, done, user, guilds, outcome, s) == PlayerStep(w, user, Some(guilds), outcome, s)
  {
    hide Planned, Perform;
  }

  // --- the query ----------------------------------------------------------------------

  /** On a sound row the query selects what the evaluator accepts among the members. */
  lemma QueryOnRow(tree: C.RuleTree, members: seq<UserId>, limit: nat, user: UserId, row: Row, s: Setting)
    requires Sane(s) && BirthdayTable.Sound(row) && WellFormed(tree, s.regex)
    ensures var env := Env(user, row, s.localOf(row.tz), QueryParams(members, tree, limit), s.regex);
            var v := Eval(QueryExpr(tree), env);
            && (v.None? <==> !CastsFit(tree))
            && (v.Some? ==> (IsTrue(v) <==> user in members && Evaluate(tree, FactsOfRow(row, s), s.regex)))
  {
    hide TreeExpr, TreeBinds, Evaluate, CastsFit, WellFormed, ComputeFacts, BirthdayTable.Sound, Eval;
    var env := Env(user, row, s.localOf(row.tz), QueryParams(members, tree, limit), s.regex);
    assert UsableToday(s.localOf(row.tz));
    assert env.params[1..1 + |TreeBinds(tree)|] == TreeBinds(tree);
    TreeCorresponds(tree, 2, env);
    MemberTestValue(members, env);
    ParenSame(TreeExpr(tree, 2), env);
    AndOfTwo(MEMBER_TEST_EXPR, Paren(TreeExpr(tree, 2)), env);
  }

  lemma MemberTestValue(members: seq<UserId>, env: Env)
    requires RealDate(env.local) && env.params != [] && env.params[0] == BindTextArray(members)
    ensures Eval(MEMBER_TEST_EXPR, env) == Some(VBool(env.user in members))
  {
    assert Eval(Param(1), env) == Some(VTextArray(members));
    assert Eval(Cast(Param(1), TextArrayType), env) == Some(VTextArray(members));
    assert Eval(Col(DiscordId), env) == Some(VText(env.user));
  }

  // --- the procedures -----------------------------------------------------------------

  class Engine {
    var links: map<LinkId, Link>
    var birthdays: map<UserId, Row>

    function State(): World
      reads this
    {
      World(links, birthdays)
    }

    constructor (w: World)
      ensures State() == w
    {
      links, birthdays := w.links, w.birthdays;
    }

    /** Runs a WHERE text on every row; `None` when it does not parse or fails on some row. */
    method RunQuery(text: SqlText, params: seq<Bind>, limit: nat, s: Setting)
      returns (r: Option<seq<UserId>>, ghost selected: set<UserId>)
      requires Sane(s)
      ensures Parse(text).None? ==> r == None
      ensures forall e :: Parse(text) == Some(e) ==>
                (r.None? <==> exists u :: u in birthdays && RowValue(e, u, params, s).None?)
      ensures r.Some? ==> r.value == Take(Listing(selected), limit) && FirstInOrder(r.value, selected, limit)
      ensures forall e, u :: Parse(text) == Some(e) && r.Some? ==>
                (u in selected <==> u in birthdays && IsTrue(RowValue(e, u, params, s)))
    {
      r, selected := None, {};
      var parsed := Parse(text);
      if parsed.None? {
        return;
      }
      var left := birthdays.Keys;
      var kept: set<UserId> := {};
      while left != {}
        invariant left <= birthdays.Keys
        invariant forall u :: u in birthdays && u !in left ==> RowValue(parsed.value, u, params, s).Some?
        invariant forall u :: u in kept
                    <==> u in birthdays && u !in left && IsTrue(RowValue(parsed.value, u, params, s))
        decreases left
      {
        var u :| u in left;
        assert UsableToday(s.localOf(birthdays[u].tz));
        var v := RowValue(parsed.value, u, params, s);
        if v.None? {
          return;
        }
        if IsTrue(v) {
          kept := kept + {u};
        }
        left := left - {u};
      }
      selected := kept;
      var ids := ListInOrder(kept);
      ListingIsUnique(ids, Listing(kept));
      TakeIsFirst(kept, limit);
      r := Some(Take(ids, limit));
    }

    function RowValue(e: Expr, u: UserId, params: seq<Bind>, s: Setting): Option<Value>
      requires u in birthdays && UsableToday(s.localOf(birthdays[u].tz))
      reads this
    {
      Eval(e, Env(u, birthdays[u], s.localOf(birthdays[u].tz), params, s.regex))
    }

    // --- bulk sync ------------------------------------------------------------------

    /** The link's users on RoleLogic are replaced through `upload_users`, in one call or in many. */
    method RemoteReplace(id: LinkId, users: seq<UserId>, f: Faults) returns (r: Result<(), RemoteError>)
      requires id in links
      modifies this`links
      ensures r == match UploadFault(users, f) case None => Ok(()) case Some(e) => Err(e)
      ensures links == if UploadFault(users, f).None? then old(links)[id := old(links)[id].(remote := Members(users))]
                       else old(links)
    {
      var server := new RemoteLink(links[id].remote);
      var sent := UploadUsers(server, users, f);
      links := links[id := links[id].(remote := server.users)];
      return if sent.Ok? then Ok(()) else Err(sent.error);
    }

    /** `upload_applied`: whether to mirror the upload; an orphaned link is deleted. */
    method UploadApplied(result: Result<(), RemoteError>, id: LinkId) returns (r: Result<bool, RemoteError>)
      modifies this`links
      ensures links == if result == Err(LinkNotFound) then old(links) - {id} else old(links)
      ensures r == match result
                   case Ok(_) => Ok(true)
                   case Err(LinkNotFound) => Ok(false)
                   case Err(Disabled) => Ok(false)
                   case Err(RemovalHeld) => Ok(false)
                   case Err(e) => Err(e)
    {
      match result
      case Ok(_) => return Ok(true);
      case Err(LinkNotFound) =>
        links := links - {id};
        return Ok(false);
      case Err(Disabled) => return Ok(false);
      case Err(RemovalHeld) => return Ok(false);
      case Err(e) => return Err(e);
    }

    method UploadAndMirror(id: LinkId, users: seq<UserId>, f: Faults) returns (r: Result<(), RemoteError>)
      requires id in links
      modifies this`links
      ensures State() == Upload(old(State()), id, Members(users), UploadFault(users, f))
      ensures r == UploadResult(UploadFault(users, f))
    {
      hide UploadFault;
      var result := RemoteReplace(id, users, f);
      var applied := UploadApplied(result, id);
      match applied
      case Err(e) => return Err(e);
      case Ok(yes) =>
        if yes {
          links := links[id := links[id].(mirror := Members(users))];
        }
        return Ok(());
    }

    method DrainToEmpty(id: LinkId, f: Faults) returns (r: Result<(), RemoteError>)
      requires id in links
      modifies this`links
      ensures State() == if old(links[id].mirror) == {} then old(State()) else Upload(old(State()), id, {}, UploadFault([], f))
      ensures r == if old(links[id].mirror) == {} then Ok(()) else UploadResult(UploadFault([], f))
    {
      if links[id].mirror == {} {
        return Ok(());
      }
      assert Members([]) == {};
      r := UploadAndMirror(id, [], f);
    }

    method SyncForRoleLink(id: LinkId, a: BulkAnswers, s: Setting) returns (r: Result<(), RemoteError>)
      requires Sane(s) && Consistent(State(), s.regex)
      modifies this`links
      ensures State() == BulkStep(old(State()), id, a, s)
      ensures r == BulkResult(old(State()), id, a, s)
    {
      hide Qualifies, StoredRule, QueryFails, BirthdayTable.Sound, UploadFault;
      NothingListed();
      if id !in links {
        return Ok(());
      }
      var tree := links[id].tree;
      if !tree.grantOnAnyBirthday && tree.groups == [] {
        r := DrainToEmpty(id, a.faults);
        return;
      }
      if a.members.None? {
        return Err(Unavailable);
      }
      var members := a.members.value;
      if members == [] {
        r := DrainToEmpty(id, a.faults);
        return;
      }
      match a.userLimit {
        case Err(LinkNotFound) =>
          links := links - {id};
          return Ok(());
        case Err(Disabled) => return Ok(());
        case Err(e) => return Err(e);
        case Ok(limit) =>
          var qualifying := QualifyingIds(tree, members, limit, a.queryRefused, s);
          if qualifying.None? {
            return Err(Unavailable);
          }
          var current := ListInOrder(links[id].mirror);
          ListingIsUnique(current, Listing(links[id].mirror));
          if current == qualifying.value {
            return Ok(());
          }
          r := UploadAndMirror(id, qualifying.value, a.faults);
      }
    }

    /** The ids to hold the role; `None` when the database refuses or fails the query. */
    method QualifyingIds(tree: C.RuleTree, members: seq<UserId>, limit: nat, refused: bool, s: Setting)
      returns (r: Option<seq<UserId>>)
      requires Sane(s) && AllSound(birthdays) && StoredRule(tree, s.regex) && Configured(tree)
      ensures r == if refused || QueryFails(tree, birthdays) then None
                   else Some(Wanted(tree, members, birthdays, limit, s))
    {
      hide QueryFails, Wanted, Matching, BirthdayTable.Sound;
      if refused {
        return None;
      }
      if tree.grantOnAnyBirthday {
        r := MembersWithBirthday(tree, members, limit, s);
      } else {
        r := MatchingIds(tree, members, limit, s);
      }
    }

    method MembersWithBirthday(tree: C.RuleTree, members: seq<UserId>, limit: nat, s: Setting)
      returns (r: Option<seq<UserId>>)
      requires Sane(s) && AllSound(birthdays) && StoredRule(tree, s.regex) && tree.grantOnAnyBirthday
      ensures !QueryFails(tree, birthdays)
      ensures r == Some(Wanted(tree, members, birthdays, limit, s))
    {
      hide CastsFit, BirthdayTable.Sound;
      GrantMatchesAll(tree, members, birthdays, s);
      var ids := ListInOrder(set u | u in birthdays.Keys && u in members);
      ListingIsUnique(ids, Listing(Matching(tree, members, birthdays, s)));
      r := Some(Take(ids, limit));
    }

    method MatchingIds(tree: C.RuleTree, members: seq<UserId>, limit: nat, s: Setting)
      returns (r: Option<seq<UserId>>)
      requires Sane(s) && AllSound(birthdays) && WellFormed(tree, s.regex) && !tree.grantOnAnyBirthday
      ensures r == if QueryFails(tree, birthdays) then None else Some(Wanted(tree, members, birthdays, limit, s))
    {
      hide QueryFails, Wanted, WellFormed, TreeBinds, TreeExpr, Print, Parse, QueryExpr, QueryWhere, BirthdayTable.Sound,
           Eval, Listing, Take;
      var clause, binds := BuildRuleWhere(tree, 1);
      var params := [BindTextArray(members)] + binds + [BindInt(limit)];
      QueryReadsAsIntended(tree);
      ghost var selected;
      r, selected := RunQuery(QueryWhere(clause), params, limit, s);
      assert params == QueryParams(members, tree, limit);
      QuerySelectsMatching(tree, members, limit, r, selected, s);
    }

    lemma QuerySelectsMatching(
      tree: C.RuleTree, members: seq<UserId>, limit: nat, r: Option<seq<UserId>>, selected: set<UserId>, s: Setting)
      requires Sane(s) && AllSound(birthdays) && WellFormed(tree, s.regex) && !tree.grantOnAnyBirthday
      requires var e, params := QueryExpr(tree), QueryParams(members, tree, limit);
               && (r.None? <==> exists u :: u in birthdays && RowValue(e, u, params, s).None?)
               && (r.Some? ==> r.value == Take(Listing(selected), limit))
               && (r.Some? ==> forall u :: u in selected <==> u in birthdays && IsTrue(RowValue(e, u, params, s)))
      ensures r == if QueryFails(tree, birthdays) then None else Some(Wanted(tree, members, birthdays, limit, s))
    {
      hide CastsFit, Evaluate, WellFormedGroup, BirthdayTable.Sound, FactsOfRow, Eval, QueryExpr, QueryParams;
      var e, params := QueryExpr(tree), QueryParams(members, tree, limit);
      forall u | u in birthdays
        ensures RowValue(e, u, params, s).None? <==> !CastsFit(tree)
        ensures CastsFit(tree) ==> (IsTrue(RowValue(e, u, params, s)) <==> u in Matching(tree, members, birthdays, s))
      {
        assert UsableToday(s.localOf(birthdays[u].tz));
        QueryOnRow(tree, members, limit, u, birthdays[u], s);
      }
      if !CastsFit(tree) && birthdays != map[] {
        var u :| u in birthdays;
        assert RowValue(e, u, params, s).None?;
      }
      if r.Some? {
        assert selected == Matching(tree, members, birthdays, s);
      }
    }

    // --- player sync ----------------------------------------------------------------

    method SyncForPlayer(
      user: UserId, guilds: Option<seq<string>>, outcome: LinkId -> Option<RemoteError>, s: Setting)
      returns (r: Result<(), RemoteError>)
      requires Sane(s) && Consistent(State(), s.regex)
      modifies this`links
      ensures State() == PlayerStep(old(State()), user, guilds, outcome, s)
      ensures r == if guilds.None? then Err(Unavailable) else Ok(())
    {
      hide Qualifies, Planned, AfterActions, BirthdayTable.Sound, Perform;
      if guilds.None? {
        return Err(Unavailable);
      }
      var gs := guilds.value;
      ghost var before := State();
      var actions := PlanActions(user, gs, s);
      NoActionsYet(before, user, gs, outcome, s);
      ghost var done: set<LinkId> := {};
      var k := 0;
      while k < |actions|
        invariant 0 <= k <= |actions|
        invariant forall id :: id in done <==> exists i :: 0 <= i < k && actions[i].0 == id
        invariant forall id <- done :: IsPlanned(before, id, user, gs, s)
        invariant birthdays == before.birthdays
        invariant State() == AfterActions(before, done, user, gs, outcome, s)
      {
        var (id, action) := actions[k];
        OneMoreAction(before, done, id, action, user, gs, outcome, s);
        PerformAction(id, user, action, outcome(id));
        done := done + {id};
        k := k + 1;
      }
      AllActionsDone(before, done, user, gs, outcome, s);
      return Ok(());
    }

    method PlanActions(user: UserId, guilds: seq<string>, s: Setting) returns (actions: seq<(LinkId, Action)>)
      requires Sane(s) && AllSound(birthdays)
      ensures forall i, j :: 0 <= i < j < |actions| ==> actions[i].0 != actions[j].0
      ensures forall i :: 0 <= i < |actions| ==>
                actions[i].0 in links && Planned(State(), actions[i].0, user, guilds, s) == Some(actions[i].1)
      ensures forall id :: id in links && Planned(State(), id, user, guilds, s).Some?
                ==> exists i :: 0 <= i < |actions| && actions[i].0 == id
    {
      hide Qualifies, BirthdayTable.Sound;
      actions := [];
      var left := links.Keys;
      while left != {}
        invariant left <= links.Keys
        invariant forall i, j :: 0 <= i < j < |actions| ==> actions[i].0 != actions[j].0
        invariant forall i :: 0 <= i < |actions| ==>
                    && actions[i].0 in links
                    && actions[i].0 !in left
                    && Planned(State(), actions[i].0, user, guilds, s) == Some(actions[i].1)
        invariant forall id :: id in links && id !in left && Planned(State(), id, user, guilds, s).Some?
                    ==> exists i :: 0 <= i < |actions| && actions[i].0 == id
        decreases left
      {
        var id :| id in left;
        left := left - {id};
        if id.guild in guilds {
          var qualifies := Qualifies(links[id].tree, user, birthdays, s);
          var held := user in links[id].mirror;
          ghost var before := actions;
          if qualifies && !held {
            actions := actions + [(id, Add)];
          } else if !qualifies && held {
            actions := actions + [(id, Remove)];
          }
          assert forall i :: 0 <= i < |before| ==> actions[i] == before[i];
          assert Planned(State(), id, user, guilds, s).Some? ==> actions[|actions| - 1].0 == id;
        }
      }
    }

    /** One call to RoleLogic, then the local row. */
    method PerformAction(id: LinkId, user: UserId, action: Action, outcome: Option<RemoteError>)
      requires id in links
      modifies this`links
      ensures links == match outcome
                       case None => old(links)[id := Perform(old(links)[id], user, action)]
                       case Some(LinkNotFound) => old(links) - {id}
                       case Some(_) => old(links)
    {
      match outcome
      case Some(LinkNotFound) => links := links - {id};
      case Some(_) =>
      case None =>
        var link := links[id];
        match action {
          case Add =>
            links := links[id := link.(remote := link.remote + {user})];
            links := links[id := links[id].(mirror := links[id].mirror + {user})];
          case Remove =>
            links := links[id := link.(remote := link.remote - {user})];
            links := links[id := links[id].(mirror := links[id].mirror - {user})];
        }
    }
  }

  lemma NothingListed()
    ensures Members([]) == {}
    ensures Listing({}) == []
  {
  }

  lemma GrantMatchesAll(tree: C.RuleTree, members: seq<UserId>, birthdays: map<UserId, Row>, s: Setting)
    requires AllSound(birthdays) && Sane(s) && tree.grantOnAnyBirthday && StoredRule(tree, s.regex)
    ensures Matching(tree, members, birthdays, s) == set u | u in birthdays.Keys && u in members
    ensures !QueryFails(tree, birthdays)
  {
  }
}

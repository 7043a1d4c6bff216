/**
  What the sync engine keeps over whole runs, and how its two procedures fit
  together. The hypotheses shared by all of these are stated in SyncEngine.
 */
module SyncLaws {
  import opened Wrappers
  import opened BirthdayTable
  import opened RoleLogic
  import opened RuleAgreement
  import opened RuleValidator
  import opened RuleValidatorLaws
  import opened SortedIds
  import opened SyncEngine
  import C = Condition

  // --- runs ---------------------------------------------------------------------------

  /** One thing that happens to the plugin's data; syncs carry everything they are told. */
  datatype Event =
    | BulkSync(id: LinkId, a: BulkAnswers, s: Setting)
    | PlayerSync(user: UserId, guilds: Option<seq<string>>, outcome: LinkId -> Option<RemoteError>, s: Setting)
    | ChangeBirthday(change: Change)
    | SaveRule(id: LinkId, body: TreeBody)
    | Register(id: LinkId)
    | Deregister(id: LinkId)

  ghost predicate Possible(e: Event, regex: C.RegexEngine) {
    e.BulkSync? || e.PlayerSync? ==> Sane(e.s) && e.s.regex == regex
  }

  /** A newly registered link has no users and no rule yet. */
  ghost function Step(w: World, e: Event, regex: C.RegexEngine): World
    requires AllSound(w.birthdays) && Possible(e, regex)
  {
    match e
    case BulkSync(id, a, s) => BulkStep(w, id, a, s)
    case PlayerSync(user, guilds, outcome, s) => PlayerStep(w, user, guilds, outcome, s)
    case ChangeBirthday(change) => w.(birthdays := Apply(w.birthdays, change))
    case SaveRule(id, body) =>
      var parsed := ParsedTree(body, regex);
      if id in w.links && parsed.Ok? then w.(links := w.links[id := w.links[id].(tree := parsed.value)]) else w
    case Register(id) =>
      if id in w.links then w else w.(links := w.links[id := Link(C.UNCONFIGURED, {}, {})])
    case Deregister(id) => DropLink(w, id)
  }

  /** The mirror of every live link is exact. */
  predicate Mirrored(w: World) {
    forall id <- w.links :: w.links[id].mirror == w.links[id].remote
  }

  ghost predicate Good(w: World, regex: C.RegexEngine) {
    Consistent(w, regex) && Mirrored(w)
  }

  lemma StepKeepsGood(w: World, e: Event, regex: C.RegexEngine)
    requires Good(w, regex) && Possible(e, regex)
    ensures Good(Step(w, e, regex), regex)
  {
    hide ParsedTree, WellFormed, Qualifies, Wanted, Listing, BirthdayTable.Sound, Apply;
    match e
    case ChangeBirthday(change) => ChangeKeepsRowsSound(w.birthdays, change);
    case SaveRule(id, body) =>
      if ParsedTree(body, regex).Ok? {
        AcceptedTreeIsWellFormed(body, regex);
      }
    case _ =>
  }

  /** The worlds of a run: before the first event, between events, after the last. */
  ghost function Worlds(w: World, events: seq<Event>, regex: C.RegexEngine): (ws: seq<World>)
    requires Good(w, regex) && forall e <- events :: Possible(e, regex)
    ensures |ws| == |events| + 1 && ws[0] == w
    ensures forall k :: 0 <= k < |ws| ==> Good(ws[k], regex)
    decreases |events|
  {
    if events == [] then [w]
    else
      StepKeepsGood(w, events[0], regex);
      [w] + Worlds(Step(w, events[0], regex), events[1..], regex)
  }

  /** At every moment of every run the mirror of each live link equals its remote set. */
  lemma MirrorIsExactThroughout(w: World, events: seq<Event>, regex: C.RegexEngine, k: nat, id: LinkId)
    requires Good(w, regex) && (forall e <- events :: Possible(e, regex)) && k <= |events|
    requires id in Worlds(w, events, regex)[k].links
    ensures Worlds(w, events, regex)[k].links[id].mirror == Worlds(w, events, regex)[k].links[id].remote
  {
    hide Worlds, Consistent;
  }

  // --- every change has a reason ------------------------------------------------------

  /** `u` may enter the set of `id` during `e`: it is answered for as a member, and qualifies. */
  ghost predicate MayEnter(w: World, e: Event, id: LinkId, u: UserId)
    requires AllSound(w.birthdays) && id in w.links
  {
    match e
    case BulkSync(target, a, s) =>
      && target == id
      && a.members.Some? && u in a.members.value
      && Sane(s) && UploadError(w, id, a, s) == None
      && Qualifies(w.links[id].tree, u, w.birthdays, s)
    case PlayerSync(user, guilds, outcome, s) =>
      && user == u
      && guilds.Some? && id.guild in guilds.value
      && outcome(id) == None
      && Sane(s) && Qualifies(w.links[id].tree, u, w.birthdays, s)
    case _ => false
  }

  /**
    `u` may leave the set of `id` during `e`: RoleLogic took the change, and the
    rule is unconfigured, or a membership answer and the rule exclude `u`, or
    the user limit cuts it off.
   */
  ghost predicate MayLeave(w: World, e: Event, id: LinkId, u: UserId)
    requires AllSound(w.birthdays) && id in w.links
  {
    match e
    case BulkSync(target, a, s) =>
      && target == id
      && Sane(s) && UploadError(w, id, a, s) == None
      && (|| !Configured(w.links[id].tree)
          || (&& a.members.Some?
              && (|| u !in a.members.value
                  || !Qualifies(w.links[id].tree, u, w.birthdays, s)
                  || CutByLimit(w, id, a, s, u))))
    case PlayerSync(user, guilds, outcome, s) =>
      && user == u
      && guilds.Some? && id.guild in guilds.value
      && outcome(id) == None
      && Sane(s) && !Qualifies(w.links[id].tree, u, w.birthdays, s)
    case _ => false
  }

  ghost predicate CutByLimit(w: World, id: LinkId, a: BulkAnswers, s: Setting, u: UserId)
    requires AllSound(w.birthdays) && id in w.links
  {
    && Sane(s)
    && a.members.Some? && a.userLimit.Ok?
    && var matching := Listing(Matching(w.links[id].tree, a.members.value, w.birthdays, s));
       && u in matching
       && |matching| > a.userLimit.value
       && u !in matching[..a.userLimit.value]
  }

  /** A link goes only when it is deregistered, or when RoleLogic says that it no longer exists. */
  ghost predicate MayVanish(w: World, e: Event, id: LinkId)
    requires AllSound(w.birthdays)
  {
    match e
    case Deregister(target) => target == id
    case BulkSync(target, a, s) =>
      target == id && Sane(s) && (UploadError(w, id, a, s) == Some(LinkNotFound) || a.userLimit == Err(LinkNotFound))
    case PlayerSync(_, guilds, outcome, _) => guilds.Some? && id.guild in guilds.value && outcome(id) == Some(LinkNotFound)
    case _ => false
  }

  ghost predicate Justified(w: World, e: Event, after: World)
    requires AllSound(w.birthdays)
  {
    && (forall id :: id in w.links && id !in after.links ==> MayVanish(w, e, id))
    && (forall id :: id in w.links && id in after.links && after.links[id].tree != w.links[id].tree
          ==> e.SaveRule? && e.id == id)
    && (after.birthdays != w.birthdays ==> e.ChangeBirthday?)
    && (forall id, u :: id in after.links && u in after.links[id].remote && !(id in w.links && u in w.links[id].remote)
          ==> id in w.links && MayEnter(w, e, id, u))
    && (forall id, u :: id in after.links && id in w.links && u in w.links[id].remote && u !in after.links[id].remote
          ==> MayLeave(w, e, id, u))
  }

  lemma UploadedUsersQualify(w: World, id: LinkId, a: BulkAnswers, s: Setting, u: UserId)
    requires AllSound(w.birthdays) && Sane(s)
    requires Uploaded(w, id, a, s).Some? && u in Uploaded(w, id, a, s).value
    ensures a.members.Some? && u in a.members.value && Qualifies(w.links[id].tree, u, w.birthdays, s)
  {
    hide Qualifies, BirthdayTable.Sound, QueryFails;
    var matching := Matching(w.links[id].tree, a.members.value, w.birthdays, s);
    TakeOfListing(Listing(matching), a.userLimit.value);
    assert u in Members(Listing(matching));
  }

  lemma LeftOutUsersAreExcluded(w: World, id: LinkId, a: BulkAnswers, s: Setting, u: UserId)
    requires AllSound(w.birthdays) && Sane(s) && id in w.links
    requires Uploaded(w, id, a, s).Some? && u !in Uploaded(w, id, a, s).value
    requires UploadError(w, id, a, s) == None
    ensures MayLeave(w, BulkSync(id, a, s), id, u)
  {
    hide Qualifies, BirthdayTable.Sound, QueryFails;
    if Configured(w.links[id].tree) && a.members != Some([])
       && u in a.members.value && Qualifies(w.links[id].tree, u, w.birthdays, s) {
      QualifyingHasBirthday(w.links[id].tree, u, w.birthdays, s);
      var matching := Matching(w.links[id].tree, a.members.value, w.birthdays, s);
      assert u in Members(Listing(matching));
    }
  }

  lemma QualifyingHasBirthday(tree: C.RuleTree, u: UserId, birthdays: map<UserId, Row>, s: Setting)
    requires AllSound(birthdays) && Sane(s) && Qualifies(tree, u, birthdays, s)
    ensures u in birthdays
  {
  }

  lemma BulkIsJustified(w: World, id: LinkId, a: BulkAnswers, s: Setting)
    requires AllSound(w.birthdays) && Sane(s)
    ensures Justified(w, BulkSync(id, a, s), BulkStep(w, id, a, s))
  {
    hide Qualifies, Uploaded, BirthdayTable.Sound, CutByLimit, Listing;
    var e, after := BulkSync(id, a, s), BulkStep(w, id, a, s);
    forall l, u | l in after.links && u in after.links[l].remote && !(l in w.links && u in w.links[l].remote)
      ensures l in w.links && MayEnter(w, e, l, u)
    {
      UploadNeedsLink(w, id, a, s);
      UploadedUsersQualify(w, id, a, s, u);
    }
    forall l, u | l in after.links && l in w.links && u in w.links[l].remote && u !in after.links[l].remote
      ensures MayLeave(w, e, l, u)
    {
      UploadNeedsLink(w, id, a, s);
      LeftOutUsersAreExcluded(w, id, a, s, u);
    }
  }

  lemma UploadNeedsLink(w: World, id: LinkId, a: BulkAnswers, s: Setting)
    requires AllSound(w.birthdays) && Sane(s)
    ensures Uploaded(w, id, a, s).Some? ==> id in w.links
  {
  }

  lemma PlayerIsJustified(
    w: World, user: UserId, guilds: Option<seq<string>>, outcome: LinkId -> Option<RemoteError>, s: Setting)
    requires AllSound(w.birthdays) && Mirrored(w) && Sane(s)
    ensures Justified(w, PlayerSync(user, guilds, outcome, s), PlayerStep(w, user, guilds, outcome, s))
  {
    hide Qualifies, BirthdayTable.Sound;
  }

  lemma OtherEventsAreJustified(w: World, e: Event, regex: C.RegexEngine)
    requires AllSound(w.birthdays) && Possible(e, regex) && !e.BulkSync? && !e.PlayerSync?
    ensures Justified(w, e, Step(w, e, regex))
  {
    hide ParsedTree, BirthdayTable.Sound, Apply;
  }

  /**
    When a bulk sync changes anything at all: exactly when an upload succeeds, or
    RoleLogic says that the link is gone. Gateway errors, missing limits, refused
    and failing queries, disabled links and held removals are none of that.
   */
  lemma BulkChangesExactly(w: World, id: LinkId, a: BulkAnswers, s: Setting)
    requires AllSound(w.birthdays) && Sane(s)
    ensures BulkStep(w, id, a, s) != w
       <==> || (Uploaded(w, id, a, s).Some? && UploadError(w, id, a, s) in {None, Some(LinkNotFound)})
            || LimitSaysGone(w, id, a)
    ensures id in w.links && Configured(w.links[id].tree) && a.members != Some([])
            && (a.members.None? || a.userLimit.Err? || a.queryRefused || QueryFails(w.links[id].tree, w.birthdays))
        ==> Uploaded(w, id, a, s) == None
  {
    hide Qualifies, QueryFails, BirthdayTable.Sound, UploadFault;
    NothingListed();
    if Uploaded(w, id, a, s).Some? && Configured(w.links[id].tree) && a.members != Some([]) {
      var matching := Listing(Matching(w.links[id].tree, a.members.value, w.birthdays, s));
      TakeOfListing(matching, a.userLimit.value);
      var users := Uploaded(w, id, a, s).value;
      if Members(users) == w.links[id].mirror {
        ListingIsUnique(users, Listing(w.links[id].mirror));
      }
    }
  }

  /**
    What a bulk sync reports: a failure exactly if the gateway, the limit call,
    the query or the upload it needed failed, and not because the link is gone,
    disabled or paused, or the removal was held; then just that failure.
   */
  lemma BulkReportsExactly(w: World, id: LinkId, a: BulkAnswers, s: Setting)
    requires AllSound(w.birthdays) && Sane(s)
    ensures BulkResult(w, id, a, s) == Err(Unavailable)
       <==> && id in w.links
            && (|| UploadError(w, id, a, s) == Some(Unavailable)
                || (Configured(w.links[id].tree) && a.members.None?)
                || (&& Configured(w.links[id].tree) && a.members.Some? && a.members.value != []
                    && (|| a.userLimit == Err(Unavailable)
                        || (a.userLimit.Ok? && (a.queryRefused || (!CastsFit(w.links[id].tree) && w.birthdays != map[]))))))
    ensures BulkResult(w, id, a, s) == Err(LimitReached)
       <==> && id in w.links
            && (|| UploadError(w, id, a, s) == Some(LimitReached)
                || (&& Configured(w.links[id].tree) && a.members.Some? && a.members.value != []
                    && a.userLimit == Err(LimitReached)))
    ensures BulkResult(w, id, a, s) == Err(RemovalHeld)
       <==> && id in w.links && Configured(w.links[id].tree) && a.members.Some? && a.members.value != []
            && a.userLimit == Err(RemovalHeld)
    ensures BulkResult(w, id, a, s) !in {Err(LinkNotFound), Err(Disabled)}
  {
    hide Wanted, Listing, CastsFit, UploadFault, BirthdayTable.Sound, Configured;
  }

  /** When a player sync changes anything: exactly when a planned call succeeds or finds its link gone. */
  lemma PlayerChangesExactly(
    w: World, user: UserId, guilds: Option<seq<string>>, outcome: LinkId -> Option<RemoteError>, s: Setting)
    requires AllSound(w.birthdays) && Sane(s)
    ensures PlayerStep(w, user, guilds, outcome, s) != w
       <==> guilds.Some? && exists id :: IsPlanned(w, id, user, guilds.value, s) && outcome(id) in {None, Some(LinkNotFound)}
  {
    hide Qualifies, BirthdayTable.Sound;
    var after := PlayerStep(w, user, guilds, outcome, s);
    if guilds.Some? {
      forall id | IsPlanned(w, id, user, guilds.value, s) && outcome(id) in {None, Some(LinkNotFound)}
        ensures id in after.links ==> after.links[id] != w.links[id]
      {
        var plan := Planned(w, id, user, guilds.value, s).value;
        assert user in Perform(w.links[id], user, plan).mirror <==> plan.Add?;
      }
      if after != w {
        assert after.links != w.links;
        var id :| id in w.links && (id !in after.links || after.links[id] != w.links[id]);
        assert IsPlanned(w, id, user, guilds.value, s);
      }
    }
  }

  /**
    What goes wrong changes nothing: no answer from the gateway, no user limit, a
    refused or failing query, a failed upload (the link disabled or paused, the
    removal held for confirmation), failed calls for single members.
   */
  lemma FailedSyncsChangeNothing(
    w: World, id: LinkId, a: BulkAnswers, user: UserId, guilds: Option<seq<string>>, outcome: LinkId -> Option<RemoteError>,
    s: Setting)
    requires AllSound(w.birthdays) && Sane(s) && id in w.links
    ensures Configured(w.links[id].tree) && a.members.None? ==> BulkStep(w, id, a, s) == w
    ensures Configured(w.links[id].tree) && a.members != Some([]) && a.userLimit != Err(LinkNotFound)
            && (a.userLimit.Err? || a.queryRefused || QueryFails(w.links[id].tree, w.birthdays))
        ==> BulkStep(w, id, a, s) == w
    ensures UploadError(w, id, a, s) !in {None, Some(LinkNotFound)} && a.userLimit != Err(LinkNotFound)
        ==> BulkStep(w, id, a, s) == w
    ensures guilds.None? || (forall l :: outcome(l) !in {None, Some(LinkNotFound)})
        ==> PlayerStep(w, user, guilds, outcome, s) == w
  {
    hide BulkStep, PlayerStep, Uploaded, QueryFails, BirthdayTable.Sound, UploadFault;
    BulkChangesExactly(w, id, a, s);
    PlayerChangesExactly(w, user, guilds, outcome, s);
  }

  /** In every run each entry into, and each departure from, a remote set has its reason. */
  lemma {:induction false} EveryChangeIsJustified(w: World, events: seq<Event>, regex: C.RegexEngine, k: nat)
    requires Good(w, regex) && (forall e <- events :: Possible(e, regex)) && k < |events|
    ensures var ws := Worlds(w, events, regex); Justified(ws[k], events[k], ws[k + 1])
    decreases k
  {
    hide Justified, Step, WellFormed, BirthdayTable.Sound;
    var e := events[0];
    assert Possible(e, regex);
    StepKeepsGood(w, e, regex);
    if k == 0 {
      StepIsJustified(w, e, regex);
    } else {
      EveryChangeIsJustified(Step(w, e, regex), events[1..], regex, k - 1);
    }
  }

  lemma StepIsJustified(w: World, e: Event, regex: C.RegexEngine)
    requires Good(w, regex) && Possible(e, regex)
    ensures Justified(w, e, Step(w, e, regex))
  {
    hide Justified, BulkStep, PlayerStep, WellFormed, BirthdayTable.Sound;
    match e
    case BulkSync(id, a, s) => BulkIsJustified(w, id, a, s);
    case PlayerSync(user, guilds, outcome, s) => PlayerIsJustified(w, user, guilds, outcome, s);
    case _ => OtherEventsAreJustified(w, e, regex);
  }

  // --- what a bulk sync leaves behind -------------------------------------------------

  /** The bulk sync got every answer it needed, and its upload, if any, was applied. */
  ghost predicate RunsThrough(w: World, id: LinkId, a: BulkAnswers, s: Setting)
    requires AllSound(w.birthdays) && Sane(s)
  {
    && id in w.links
    && (Configured(w.links[id].tree) ==> a.members.Some?)
    && (Configured(w.links[id].tree) && a.members != Some([]) ==>
          a.userLimit.Ok? && !a.queryRefused && !QueryFails(w.links[id].tree, w.birthdays))
    && UploadError(w, id, a, s) == None
  }

  /** The users a bulk sync is there to leave in the set. */
  ghost function Intended(w: World, id: LinkId, a: BulkAnswers, s: Setting): seq<UserId>
    requires AllSound(w.birthdays) && Sane(s) && RunsThrough(w, id, a, s)
  {
    if !Configured(w.links[id].tree) || a.members == Some([]) then []
    else Wanted(w.links[id].tree, a.members.value, w.birthdays, a.userLimit.value, s)
  }

  /** A bulk sync that runs through leaves the list it is there for, on both sides, and touches nothing else. */
  lemma BulkLeavesList(w: World, id: LinkId, a: BulkAnswers, s: Setting)
    requires AllSound(w.birthdays) && Mirrored(w) && Sane(s) && RunsThrough(w, id, a, s)
    ensures var after := BulkStep(w, id, a, s);
            && id in after.links
            && Listing(after.links[id].mirror) == Intended(w, id, a, s)
            && Listing(after.links[id].remote) == Intended(w, id, a, s)
            && after == w.(links := w.links[id := w.links[id].(mirror := after.links[id].mirror, remote := after.links[id].remote)])
  {
    hide Qualifies, BirthdayTable.Sound, QueryFails;
    NothingListed();
    var users := Intended(w, id, a, s);
    if Configured(w.links[id].tree) && a.members != Some([]) {
      TakeOfListing(Listing(Matching(w.links[id].tree, a.members.value, w.birthdays, s)), a.userLimit.value);
    }
    ListingIsUnique(users, Listing(Members(users)));
    if Uploaded(w, id, a, s).None? {
      assert Listing(w.links[id].mirror) == users;
    }
  }

  lemma ListedSet(users: set<UserId>, ids: seq<UserId>)
    requires Listing(users) == ids
    ensures users == Members(ids) && |users| == |ids| && forall u :: u in users <==> u in ids
  {
    hide Listing;
    SortedHasItsLength(ids);
  }

  /**
    A bulk sync that runs through leaves exactly the first `user_limit` matching
    members, in order, both remotely and in the mirror; nobody when the rule is
    unconfigured or the guild is empty. Nothing else changes.
   */
  lemma BulkLeavesIntended(w: World, id: LinkId, a: BulkAnswers, s: Setting)
    requires AllSound(w.birthdays) && Mirrored(w) && Sane(s) && RunsThrough(w, id, a, s)
    ensures var after := BulkStep(w, id, a, s);
            && id in after.links
            && Listing(after.links[id].mirror) == Intended(w, id, a, s)
            && Listing(after.links[id].remote) == Intended(w, id, a, s)
            && after.links[id].remote == after.links[id].mirror
            && (!Configured(w.links[id].tree) || a.members == Some([]) ==> after.links[id].remote == {})
            && (Configured(w.links[id].tree) && a.members != Some([]) ==>
                  var matching := Matching(w.links[id].tree, a.members.value, w.birthdays, s);
                  && |after.links[id].remote| <= a.userLimit.value
                  && (forall u :: u in after.links[id].remote
                        <==> u in matching && |Earlier(matching, u)| < a.userLimit.value))
            && after == w.(links := w.links[id := w.links[id].(mirror := after.links[id].mirror, remote := after.links[id].remote)])
  {
    BulkLeavesList(w, id, a, s);
    hide BulkStep, Listing, Earlier, Sorted, Matching, BirthdayTable.Sound, QueryFails;
    var after := BulkStep(w, id, a, s);
    ListedSet(after.links[id].mirror, Intended(w, id, a, s));
    ListedSet(after.links[id].remote, Intended(w, id, a, s));
  }

  /** An immediate second bulk sync, told the same, uploads nothing and changes nothing. */
  lemma SecondBulkSyncWritesNothing(w: World, id: LinkId, a: BulkAnswers, b: BulkAnswers, s: Setting)
    requires AllSound(w.birthdays) && Mirrored(w) && Sane(s) && RunsThrough(w, id, a, s)
    requires b.members == a.members && b.userLimit == a.userLimit
    ensures var after := BulkStep(w, id, a, s);
            Uploaded(after, id, b, s) == None && BulkStep(after, id, b, s) == after
  {
    hide Qualifies, BirthdayTable.Sound, QueryFails, Wanted;
    NothingListed();
    BulkLeavesIntended(w, id, a, s);
    var after := BulkStep(w, id, a, s);
    var mirror := after.links[id].mirror;
    if Intended(w, id, a, s) == [] {
      assert Members(Listing(mirror)) == mirror == {};
    }
  }

  // --- the two procedures agree -------------------------------------------------------

  /** The user limit does not bind. */
  ghost predicate FitsLimit(w: World, id: LinkId, a: BulkAnswers, s: Setting)
    requires AllSound(w.birthdays) && Sane(s)
  {
    id in w.links && a.members.Some? && a.userLimit.Ok?
    ==> |Listing(Matching(w.links[id].tree, a.members.value, w.birthdays, s))| <= a.userLimit.value
  }

  /** After a bulk sync that ran through, no member's own sync has anything to do on the link. */
  lemma PlayersRestAfterBulk(w: World, id: LinkId, a: BulkAnswers, s: Setting, user: UserId, guilds: seq<string>)
    requires AllSound(w.birthdays) && Mirrored(w) && Sane(s) && RunsThrough(w, id, a, s)
    requires FitsLimit(w, id, a, s)
    requires a.members.Some? && id.guild in guilds ==> user in a.members.value
    ensures Planned(BulkStep(w, id, a, s), id, user, guilds, s) == None
  {
    hide BirthdayTable.Sound, QueryFails, BulkStep, Uploaded;
    BulkLeavesIntended(w, id, a, s);
    var after := BulkStep(w, id, a, s);
    var users := Intended(w, id, a, s);
    assert Members(Listing(after.links[id].mirror)) == after.links[id].mirror;
    MatchingMeansQualifying(w, id, a, s, user);
    if Configured(w.links[id].tree) && a.members != Some([]) {
      var matching := Matching(w.links[id].tree, a.members.value, w.birthdays, s);
      TakeOfListing(Listing(matching), a.userLimit.value);
      assert user in users <==> user in Members(Listing(matching));
    }
  }

  lemma MatchingMeansQualifying(w: World, id: LinkId, a: BulkAnswers, s: Setting, user: UserId)
    requires AllSound(w.birthdays) && Sane(s) && id in w.links
    ensures a.members.Some? && user in a.members.value ==>
              (user in Matching(w.links[id].tree, a.members.value, w.birthdays, s)
               <==> Qualifies(w.links[id].tree, user, w.birthdays, s))
    ensures !Configured(w.links[id].tree) ==> !Qualifies(w.links[id].tree, user, w.birthdays, s)
  {
  }

  /** One player sync after another; the answers may differ from one to the next. */
  ghost function PlayerSyncs(
    w: World, users: seq<UserId>, guildsOf: UserId -> seq<string>,
    outcome: (UserId, LinkId) -> Option<RemoteError>, s: Setting): (after: World)
    requires AllSound(w.birthdays) && Sane(s)
    ensures after.birthdays == w.birthdays
    decreases |users|
  {
    if users == [] then w
    else
      var before := PlayerSyncs(w, users[..|users| - 1], guildsOf, outcome, s);
      var u := users[|users| - 1];
      PlayerStep(before, u, Some(guildsOf(u)), (l: LinkId) => outcome(u, l), s)
  }

  /** A successful sync settles its player on the link and leaves every other player alone. */
  lemma PlayerSettles(
    w: World, id: LinkId, user: UserId, guilds: seq<string>, outcome: LinkId -> Option<RemoteError>, s: Setting)
    requires AllSound(w.birthdays) && Sane(s) && id in w.links && outcome(id) == None
    ensures var after := PlayerStep(w, user, Some(guilds), outcome, s);
            && after.birthdays == w.birthdays
            && id in after.links
            && after.links[id].tree == w.links[id].tree
            && Planned(after, id, user, guilds, s) == None
            && (forall u, gs :: u != user ==> Planned(after, id, u, gs, s) == Planned(w, id, u, gs, s))
            && after.links[id].mirror <= w.links[id].mirror + {user}
  {
    hide Qualifies, BirthdayTable.Sound;
  }

  /**
    After a successful player sync of each of these users, none of them has
    anything left to do on the link, and nobody else has come to hold the role.
   */
  lemma {:induction false} PlayersSettle(
    w: World, id: LinkId, users: seq<UserId>, guildsOf: UserId -> seq<string>,
    outcome: (UserId, LinkId) -> Option<RemoteError>, s: Setting)
    requires AllSound(w.birthdays) && Sane(s) && id in w.links
    requires forall u <- users :: outcome(u, id) == None
    ensures var after := PlayerSyncs(w, users, guildsOf, outcome, s);
            && id in after.links
            && after.links[id].tree == w.links[id].tree
            && (forall u <- users :: Planned(after, id, u, guildsOf(u), s) == None)
            && after.links[id].mirror <= w.links[id].mirror + Members(users)
    decreases |users|
  {
    hide Qualifies, Planned, PlayerStep, BirthdayTable.Sound;
    if users != [] {
      var rest, u := users[..|users| - 1], users[|users| - 1];
      assert u in users && forall x <- rest :: x in users;
      PlayersSettle(w, id, rest, guildsOf, outcome, s);
      var before := PlayerSyncs(w, rest, guildsOf, outcome, s);
      PlayerSettles(before, id, u, guildsOf(u), (l: LinkId) => outcome(u, l), s);
      assert forall x <- users :: x == u || x in rest;
    }
  }

  /**
    Once every member has been synced successfully, and nobody outside the guild
    holds the role, the bulk sync finds nothing to upload.
   */
  lemma BulkRestsAfterPlayers(
    w: World, id: LinkId, members: seq<UserId>, guildsOf: UserId -> seq<string>,
    outcome: (UserId, LinkId) -> Option<RemoteError>, a: BulkAnswers, s: Setting)
    requires AllSound(w.birthdays) && Sane(s) && id in w.links
    requires forall u <- members :: outcome(u, id) == None && id.guild in guildsOf(u)
    requires w.links[id].mirror <= Members(members)
    requires a.members == Some(members)
    requires FitsLimit(w, id, a, s)
    ensures var after := PlayerSyncs(w, members, guildsOf, outcome, s);
            after.birthdays == w.birthdays && Uploaded(after, id, a, s) == None
  {
    hide Qualifies, BirthdayTable.Sound, PlayerSyncs, QueryFails;
    PlayersSettle(w, id, members, guildsOf, outcome, s);
    NothingListed();
    var after := PlayerSyncs(w, members, guildsOf, outcome, s);
    var link := after.links[id];
    forall u
      ensures u in link.mirror <==> u in Matching(link.tree, members, w.birthdays, s)
    {
      MatchingMeansQualifying(after, id, a, s, u);
      if u in members {
        assert Planned(after, id, u, guildsOf(u), s) == None;
      }
    }
    assert link.mirror == Matching(link.tree, members, w.birthdays, s);
    if !Configured(link.tree) {
      forall u <- members
        ensures u !in link.mirror
      {
        MatchingMeansQualifying(after, id, a, s, u);
      }
    }
    assert a.userLimit.Ok? ==>
      Wanted(link.tree, members, w.birthdays, a.userLimit.value, s) == Listing(link.mirror);
  }
}

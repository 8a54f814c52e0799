/**
 * Role synchronisation: the per-player sync, the bulk sync and the preview of one role link, the
 * local mirror of the remote user set, and how the three agree. Jobs run one at a time.
 */
module RoleSync {
  import opened Wrappers
  import opened Conditions
  import opened Facts
  import opened ConditionEval
  import opened Ascending
  import opened SqlClause
  import opened RuleAgreement
  import opened JobQueue
  import opened RoleLogic
  import Text

  /** Linked accounts by Discord id, and relation rows by (channel, Kick user id). */
  datatype Database = Database(users: map<int, KickUser>, relations: map<(int, int), Relation>)

  /** A stored role link's rule: its bound channel, if any, and its tree. */
  datatype Rule = Rule(channel: Option<int>, tree: RuleTree)

  /** What a sync evaluates against. */
  datatype Moment = Moment(db: Database, now: Time, regex: RegexEngine)

  /** The LEFT JOIN row of a linked member on a channel. */
  function ViewerAt(db: Database, channel: int, d: int): Viewer
    requires d in db.users
  {
    var user := db.users[d];
    var key := (channel, user.kickUserId);
    Viewer(user, if key in db.relations then Some(db.relations[key]) else None)
  }

  // --------------------------------------------------------------------- who qualifies

  /** The per-player decision. */
  predicate Qualifies(m: Moment, rule: Rule, d: int) {
    if rule.tree.grantOnAnyRelation then d in m.db.users
    else
      && rule.channel.Some? && d in m.db.users
      && Evaluate(rule.tree, FactsOf(ViewerAt(m.db, rule.channel.value, d)), m.now, m.regex)
  }

  /** No channel to read, or nothing to match: the rule grants to nobody. */
  predicate GrantsNobody(rule: Rule) {
    !rule.tree.grantOnAnyRelation && (rule.channel.None? || rule.tree.groups == [])
  }

  function Listing(ids: seq<int>): seq<string> {
    if ids == [] then [] else [Text.IntText(ids[0])] + Listing(ids[1..])
  }

  /** The caller's own parameters around the rule's binds: channel and members before, the limit after. */
  function Before(channel: int, members: set<int>): seq<SqlValue> {
    [VInt(channel), VTextArray(Listing(Sorted(members)))]
  }

  predicate PassesClause(m: Moment, rule: Rule, members: set<int>, limit: nat, d: int)
    requires rule.channel.Some? && d in m.db.users
  {
    Selected(rule.tree, ViewerAt(m.db, rule.channel.value, d), m.now, m.regex,
             Before(rule.channel.value, members), [VInt(limit)])
  }

  /** The rows of the bulk query before its ORDER BY and LIMIT. */
  function BulkSelected(m: Moment, rule: Rule, members: set<int>, limit: nat): set<int>
    requires rule.tree.grantOnAnyRelation || rule.channel.Some?
  {
    if rule.tree.grantOnAnyRelation then members * m.db.users.Keys
    else set d | d in members && d in m.db.users && PassesClause(m, rule, members, limit, d)
  }

  function Qualifying(m: Moment, rule: Rule, members: set<int>): set<int> {
    set d | d in members && Qualifies(m, rule, d)
  }

  /** The hypotheses of the compiler's correctness, for every member. */
  predicate Settled(m: Moment, rule: Rule, members: set<int>) {
    && SoundTree(rule.tree, m.regex)
    && forall d | d in members && d in m.db.users && rule.channel.Some? ::
         AgesSettled(ViewerAt(m.db, rule.channel.value, d), m.now)
  }

  /** The bulk query selects exactly the members the per-player sync would let qualify. */
  lemma BulkSelectsTheQualifying(m: Moment, rule: Rule, members: set<int>, limit: nat)
    requires Settled(m, rule, members) && (rule.tree.grantOnAnyRelation || rule.channel.Some?)
    ensures BulkSelected(m, rule, members, limit) == Qualifying(m, rule, members)
  {
    if !rule.tree.grantOnAnyRelation {
      forall d | d in members && d in m.db.users
        ensures PassesClause(m, rule, members, limit, d) <==> Qualifies(m, rule, d)
      {
        CompiledRuleAgreesWithEvaluator(rule.tree, ViewerAt(m.db, rule.channel.value, d), m.now, m.regex,
                                        Before(rule.channel.value, members), [VInt(limit)]);
      }
    }
  }

  lemma NobodyQualifies(m: Moment, rule: Rule, members: set<int>)
    requires GrantsNobody(rule)
    ensures Qualifying(m, rule, members) == {}
  {
  }

  // ---------------------------------------------------------------- one link's two copies

  /** The stored link (None once dropped), its local mirror, and the remote user set. */
  datatype LinkState = LinkState(rule: Option<Rule>, mirror: set<int>, remote: set<int>)

  predicate InSync(s: LinkState) {
    s.mirror == s.remote
  }

  /** The service no longer knows the link: the local row and, by cascade, its mirror go. */
  const DROPPED: LinkState := LinkState(None, {}, {})

  /** One member's sync on one link. */
  function AfterPlayer(s: LinkState, qualifies: bool, d: int, reply: Reply, limit: nat): LinkState {
    if s.rule.None? || qualifies == (d in s.mirror) then s
    else
      var r := ResultOf(if qualifies then AddUser else RemoveUser, reply, limit);
      if r == Err(RoleLinkNotFound) then DROPPED
      else
        var remote := if !CarriedOut(reply) then s.remote else if qualifies then s.remote + {d} else s.remote - {d};
        var mirror := if r.Err? then s.mirror else if qualifies then s.mirror + {d} else s.mirror - {d};
        s.(mirror := mirror, remote := remote)
  }

  /** Everything the bulk sync learns from outside. */
  datatype BulkInput = BulkInput(members: Option<set<int>>, info: Reply, limit: nat, upload: UploadReplies)

  datatype BulkOutcome = BulkOutcome(state: LinkState, result: Result<(), AppError>, uploads: nat, recheck: bool)

  /** What a bulk sync decides: leave everything, drop the link, or upload a list. */
  datatype Plan = Leave(result: Result<(), AppError>) | Drop | Write(ids: seq<int>)

  /** Upload a list and, once accepted, mirror it. */
  function AfterWrite(s: LinkState, ids: seq<int>, replies: UploadReplies): BulkOutcome {
    var up := Uploaded(|ids|, replies);
    var remote := if up.swapped then Members(ids) else s.remote;
    match up.result
    case Ok(_) => BulkOutcome(s.(mirror := Members(ids), remote := remote), Ok(()), 1, false)
    case Err(RoleLinkNotFound) => BulkOutcome(DROPPED, Ok(()), 1, false)
    case Err(RoleLinkDisabled) => BulkOutcome(s.(remote := remote), Ok(()), 1, false)
    case Err(RemovalHeld) => BulkOutcome(s.(remote := remote), Ok(()), 1, true)
    case Err(e) => BulkOutcome(s.(remote := remote), Err(e), 1, false)
  }

  function Carried(s: LinkState, plan: Plan, replies: UploadReplies): BulkOutcome {
    match plan
    case Leave(result) => BulkOutcome(s, result, 0, false)
    case Drop => BulkOutcome(DROPPED, Ok(()), 0, false)
    case Write(ids) => AfterWrite(s, ids, replies)
  }

  function DrainPlan(s: LinkState): Plan {
    if s.mirror == {} then Leave(Ok(())) else Write([])
  }

  function BulkList(m: Moment, rule: Rule, members: set<int>, limit: nat): (ids: seq<int>)
    requires rule.tree.grantOnAnyRelation || rule.channel.Some?
    ensures Increasing(ids)
  {
    Lowest(BulkSelected(m, rule, members, limit), limit)
  }

  /** The user-info call failed: drop a link that is gone, skip an inactive one, else report. */
  function FailedInfoPlan(error: AppError): Plan {
    if error == RoleLinkNotFound then Drop
    else if error == RoleLinkDisabled then Leave(Ok(()))
    else Leave(Err(error))
  }

  /** Skip the upload when nothing would change. */
  function ListingPlan(s: LinkState, ids: seq<int>): Plan {
    if Sorted(s.mirror) == ids then Leave(Ok(())) else Write(ids)
  }

  /** From a non-empty member list on: the user info, then the query. */
  function MembersPlan(
    m: Moment, s: LinkState, rule: Rule, members: set<int>, info: Result<(), AppError>, limit: nat
  ): Plan
    requires rule.tree.grantOnAnyRelation || rule.channel.Some?
  {
    if info.Err? then FailedInfoPlan(info.error) else ListingPlan(s, BulkList(m, rule, members, limit))
  }

  function PlanOf(m: Moment, s: LinkState, input: BulkInput): Plan {
    if s.rule.None? then Leave(Ok(()))
    else if GrantsNobody(s.rule.value) then DrainPlan(s)
    else if input.members.None? then Leave(Err(OtherError))
    else if input.members.value == {} then DrainPlan(s)
    else
      var info := ResultOf(GetUserInfo, input.info, input.limit);
      MembersPlan(m, s, s.rule.value, input.members.value, info, input.limit)
  }

  /** `sync_for_role_link`. */
  function AfterBulk(m: Moment, s: LinkState, input: BulkInput): BulkOutcome {
    Carried(s, PlanOf(m, s, input), input.upload)
  }

  // ------------------------------------------------------------- the mirror tracks the remote

  /** The reply confirms what was done: a change carried out is not reported as an error. */
  predicate PlayerConfirmed(s: LinkState, qualifies: bool, d: int, reply: Reply) {
    s.rule.Some? && qualifies != (d in s.mirror) ==> !reply.Unread?
  }

  /** From a mirror in step, a per-player sync ends in step under every outcome but a lost confirmation. */
  lemma PlayerSyncKeepsMirror(s: LinkState, qualifies: bool, d: int, reply: Reply, limit: nat)
    requires InSync(s)
    ensures InSync(AfterPlayer(s, qualifies, d, reply, limit)) <==> PlayerConfirmed(s, qualifies, d, reply)
  {
    SpecialOutcomesComeFromTheirEndpoints(if qualifies then AddUser else RemoveUser, reply, limit);
    if s.rule.Some? && qualifies != (d in s.mirror) && reply.Unread? {
      var after := AfterPlayer(s, qualifies, d, reply, limit);
      assert d in after.remote <==> qualifies;
      assert d in after.mirror <==> !qualifies;
    }
  }

  /** A planned list is sorted and differs from the mirror. */
  lemma PlansOnlyNewSets(m: Moment, s: LinkState, input: BulkInput)
    requires PlanOf(m, s, input).Write?
    ensures Increasing(PlanOf(m, s, input).ids) && Members(PlanOf(m, s, input).ids) != s.mirror
  {
    var ids := PlanOf(m, s, input).ids;
    if Members(ids) == s.mirror {
      IncreasingIsUnique(Sorted(s.mirror), ids);
    }
  }

  lemma CarriedKeepsMirror(s: LinkState, plan: Plan, replies: UploadReplies)
    requires InSync(s) && (plan.Write? ==> Members(plan.ids) != s.mirror)
    ensures InSync(Carried(s, plan, replies).state)
       <==> !(plan.Write? && ConfirmationLost(|plan.ids|, replies))
  {
    if plan.Write? {
      UploadIsAtomic(|plan.ids|, replies);
    }
  }

  /**
   * The mirror equals the remote set after every bulk sync, whatever the outcome, unless the
   * service swapped the set in and the confirmation of it was lost.
   */
  lemma BulkSyncKeepsMirror(m: Moment, s: LinkState, input: BulkInput)
    requires InSync(s)
    ensures var plan := PlanOf(m, s, input);
            InSync(AfterBulk(m, s, input).state)
            <==> !(plan.Write? && ConfirmationLost(|plan.ids|, input.upload))
  {
    if PlanOf(m, s, input).Write? {
      PlansOnlyNewSets(m, s, input);
    }
    CarriedKeepsMirror(s, PlanOf(m, s, input), input.upload);
  }

  // ------------------------------------------------------------------ the second bulk sync

  /** The list the bulk sync is after. */
  function Target(m: Moment, rule: Rule, input: BulkInput): (ids: seq<int>)
    requires input.members.Some?
    ensures Increasing(ids)
  {
    if GrantsNobody(rule) || input.members.value == {} then []
    else BulkList(m, rule, input.members.value, input.limit)
  }

  lemma SameListIsNotWritten(s: LinkState, ids: seq<int>)
    requires Increasing(ids) && s.mirror == Members(ids)
    ensures !ListingPlan(s, ids).Write?
    ensures ids == [] ==> !DrainPlan(s).Write?
  {
    NoMembers(ids);
    IncreasingIsUnique(Sorted(s.mirror), ids);
  }

  lemma NothingToPlan(m: Moment, s: LinkState, input: BulkInput)
    requires s.rule.Some? && input.members.Some? && s.mirror == Members(Target(m, s.rule.value, input))
    ensures !PlanOf(m, s, input).Write?
  {
    SameListIsNotWritten(s, Target(m, s.rule.value, input));
  }

  lemma AcceptedPlansReach(s: LinkState, ids: seq<int>, replies: UploadReplies)
    requires Increasing(ids) && Uploaded(|ids|, replies).result.Ok?
    ensures var end := Carried(s, ListingPlan(s, ids), replies);
            end.state.rule == s.rule && end.state.mirror == Members(ids) && end.result.Ok?
    ensures ids == [] ==>
              (var end := Carried(s, DrainPlan(s), replies);
               end.state.rule == s.rule && end.state.mirror == Members(ids) && end.result.Ok?)
  {
    NoMembers(ids);
  }

  /** With the info call and the upload accepted, a bulk sync brings the mirror to its target. */
  lemma AcceptedBulkSyncReachesItsTarget(m: Moment, s: LinkState, input: BulkInput)
    requires s.rule.Some? && input.members.Some? && input.info.Accepted?
    requires Uploaded(|Target(m, s.rule.value, input)|, input.upload).result.Ok?
    ensures AfterBulk(m, s, input).state.rule == s.rule
    ensures AfterBulk(m, s, input).state.mirror == Members(Target(m, s.rule.value, input))
    ensures AfterBulk(m, s, input).result.Ok?
  {
    AcceptedPlansReach(s, Target(m, s.rule.value, input), input.upload);
  }

  /** After an accepted bulk sync, one at which the same people qualify uploads nothing, whatever the replies. */
  lemma SecondBulkSyncUploadsNothing(m: Moment, later: Moment, s: LinkState, input: BulkInput, again: BulkInput)
    requires s.rule.Some? && input.members.Some? && input.info.Accepted? && again.members.Some?
    requires Uploaded(|Target(m, s.rule.value, input)|, input.upload).result.Ok?
    requires Target(later, s.rule.value, again) == Target(m, s.rule.value, input)
    ensures AfterBulk(later, AfterBulk(m, s, input).state, again).uploads == 0
  {
    AcceptedBulkSyncReachesItsTarget(m, s, input);
    NothingToPlan(later, AfterBulk(m, s, input).state, again);
  }

  // ------------------------------------------------------------ recovery, and runs of both syncs

  /**
   * With the info call and the upload accepted, a bulk sync leaves the two copies equal from any
   * state, except exactly when they differed and the stale mirror already is the target: the upload
   * is skipped and the remote set stays wrong.
   */
  lemma RecoveryIsExact(m: Moment, s: LinkState, input: BulkInput)
    requires s.rule.Some? && input.members.Some? && input.info.Accepted?
    requires Uploaded(|Target(m, s.rule.value, input)|, input.upload).result.Ok?
    ensures InSync(AfterBulk(m, s, input).state)
       <==> InSync(s) || s.mirror != Members(Target(m, s.rule.value, input))
  {
    var ids := Target(m, s.rule.value, input);
    UploadIsAtomic(|ids|, input.upload);
    if s.mirror == Members(ids) {
      NothingToPlan(m, s, input);
      SkippedLeavesState(m, s, input);
    } else {
      NewTargetIsWritten(m, s, input);
    }
  }

  lemma SkippedLeavesState(m: Moment, s: LinkState, input: BulkInput)
    requires s.rule.Some? && input.members.Some? && input.info.Accepted? && !PlanOf(m, s, input).Write?
    ensures AfterBulk(m, s, input).state == s
  {
  }

  lemma NewTargetIsWritten(m: Moment, s: LinkState, input: BulkInput)
    requires s.rule.Some? && input.members.Some? && input.info.Accepted?
    requires s.mirror != Members(Target(m, s.rule.value, input))
    ensures PlanOf(m, s, input) == Write(Target(m, s.rule.value, input))
  {
    NoMembers(Target(m, s.rule.value, input));
  }

  /** One job on the link: a member's sync, or a bulk sync. */
  datatype SyncJob =
    | PlayerJob(d: int, reply: Reply, limitSeen: nat)
    | BulkJob(input: BulkInput)

  datatype TimedJob = TimedJob(m: Moment, job: SyncJob)

  function AfterJob(s: LinkState, t: TimedJob): LinkState {
    match t.job
    case PlayerJob(d, reply, limitSeen) =>
      AfterPlayer(s, s.rule.Some? && Qualifies(t.m, s.rule.value, d), d, reply, limitSeen)
    case BulkJob(input) => AfterBulk(t.m, s, input).state
  }

  /** No change the job makes loses its confirmation. */
  predicate JobConfirmed(s: LinkState, t: TimedJob) {
    match t.job
    case PlayerJob(d, reply, _) => PlayerConfirmed(s, s.rule.Some? && Qualifies(t.m, s.rule.value, d), d, reply)
    case BulkJob(input) =>
      var plan := PlanOf(t.m, s, input);
      !(plan.Write? && ConfirmationLost(|plan.ids|, input.upload))
  }

  lemma JobKeepsMirror(s: LinkState, t: TimedJob)
    requires InSync(s)
    ensures InSync(AfterJob(s, t)) <==> JobConfirmed(s, t)
  {
    match t.job {
      case PlayerJob(d, reply, limitSeen) =>
        PlayerSyncKeepsMirror(s, s.rule.Some? && Qualifies(t.m, s.rule.value, d), d, reply, limitSeen);
      case BulkJob(input) => BulkSyncKeepsMirror(t.m, s, input);
    }
  }

  predicate Moves(states: seq<LinkState>, jobs: seq<TimedJob>, i: nat)
    requires i < |jobs| < |states|
  {
    states[i + 1] == AfterJob(states[i], jobs[i])
  }

  /** Jobs on one link, one at a time, in any mix. */
  predicate IsRun(states: seq<LinkState>, jobs: seq<TimedJob>) {
    && |states| == |jobs| + 1
    && forall i | 0 <= i < |jobs| :: Moves(states, jobs, i)
  }

  predicate Confirmed(states: seq<LinkState>, jobs: seq<TimedJob>, i: nat)
    requires i < |jobs| < |states|
  {
    JobConfirmed(states[i], jobs[i])
  }

  /** In any mix of both syncs the mirror tracks the remote set as long as no confirmation is lost, and no longer. */
  lemma {:induction false} MirrorTracksUntilALoss(states: seq<LinkState>, jobs: seq<TimedJob>, k: nat)
    requires IsRun(states, jobs) && InSync(states[0]) && k <= |jobs|
    ensures (forall i | 0 <= i <= k :: InSync(states[i])) <==> (forall i | 0 <= i < k :: Confirmed(states, jobs, i))
  {
    if k > 0 {
      MirrorTracksUntilALoss(states, jobs, k - 1);
      assert Moves(states, jobs, k - 1);
      if InSync(states[k - 1]) {
        JobKeepsMirror(states[k - 1], jobs[k - 1]);
        assert Confirmed(states, jobs, k - 1) <==> InSync(states[k]);
      }
    }
  }
}

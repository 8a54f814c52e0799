/**
 * The sync engine as it runs: role links, the local assignments and the remote sets as tables, the
 * per-player sync with its list of actions, and the bulk sync with its query, skip and upload.
 * Each method is proved to move one link by the state functions of `RoleSync`.
 */
module SyncEngine {
  import opened Wrappers
  import opened Conditions
  import opened Ascending
  import opened SqlClause
  import opened SqlBinds
  import opened RuleSql
  import opened RuleAgreement
  import opened JobQueue
  import opened RoleLogic
  import opened RoleSync
  import opened RoleSyncAgreement
  import Text

  datatype Link = Link(guild: int, rule: Rule)

  function ReplyFor(replies: map<int, Reply>, id: int): Reply {
    if id in replies then replies[id] else Unreachable
  }

  // ----------------------------------------------------------------------- the two queries

  /**
   * `WHERE ku.discord_id = ANY($2) AND (rule)` over the row joined on channel `$1`: everything the
   * query needs to know comes from its parameters.
   */
  predicate KeepsRow(m: Moment, text: seq<Token>, params: seq<SqlValue>, d: int)
    requires d in m.db.users && |params| >= 2
  {
    && params[0].VInt? && params[1].VTextArray?
    && Text.IntText(d) in params[1].items
    && RowPasses(text, Env(ViewerAt(m.db, params[0].n, d), m.now, params, m.regex))
  }

  function KeptRows(m: Moment, text: seq<Token>, params: seq<SqlValue>): set<int>
    requires |params| >= 2
  {
    set d | d in m.db.users && KeepsRow(m, text, params, d)
  }

  function LimitValue(v: SqlValue): nat {
    if v.VInt? && v.n >= 0 then v.n else 0
  }

  /** `ORDER BY discord_id LIMIT $limitIndex`: the limit is whatever is bound at that number. */
  function OrderedAndLimited(rows: set<int>, params: seq<SqlValue>, limitIndex: nat): seq<int>
    requires 1 <= limitIndex <= |params|
  {
    Lowest(rows, LimitValue(params[limitIndex - 1]))
  }

  lemma {:induction false} ListingHolds(ids: seq<int>, d: int)
    ensures Text.IntText(d) in Listing(ids) <==> d in ids
  {
    if ids != [] {
      ListingHolds(ids[1..], d);
      if Text.IntText(d) == Text.IntText(ids[0]) {
        Text.IntTextInjective(d, ids[0]);
      }
    }
  }

  /** With the compiler's own text and binds after channel and members, the query keeps the members the rule selects. */
  lemma KeepsExactlyTheSelected(
    m: Moment, channel: int, tree: RuleTree, members: set<int>, text: seq<Token>, binds: seq<Bind>,
    after: seq<SqlValue>, d: int
  )
    requires d in m.db.users
    requires text == ClauseText(WhereClause(tree), 3) && binds == Binds(WhereClause(tree))
    ensures KeepsRow(m, text, Before(channel, members) + BindValues(binds) + after, d)
       <==> d in members && Selected(tree, ViewerAt(m.db, channel, d), m.now, m.regex, Before(channel, members), after)
  {
    ListingHolds(Sorted(members), d);
    assert d in Members(Sorted(members)) <==> d in members;
  }

  /**
   * The index the caller computes for the limit is free: the rule's placeholders are exactly the
   * numbers after the caller's own two and before it.
   */
  lemma LimitIndexIsFree(tree: RuleTree)
    ensures var text, limitIndex := ClauseText(WhereClause(tree), 3), 2 + |Binds(WhereClause(tree))| + 1;
            && limitIndex !in Placeholders(text)
            && forall i: nat :: i in Placeholders(text) <==> 2 < i < limitIndex
  {
    PlaceholdersAreConsecutive(tree, 2);
    var n := |Binds(WhereClause(tree))|;
    forall i: nat | 2 < i < 2 + n + 1 ensures i in Range(3, n) {
      assert Range(3, n)[i - 3] == i;
    }
  }

  function BulkParams(channel: int, members: set<int>, binds: seq<Bind>, limit: nat): (params: seq<SqlValue>)
    ensures |params| == 2 + |binds| + 1
  {
    Before(channel, members) + BindValues(binds) + [VInt(limit)]
  }

  lemma KeptAreBulkSelected(m: Moment, rule: Rule, members: set<int>, text: seq<Token>, binds: seq<Bind>, limit: nat)
    requires rule.channel.Some? && !rule.tree.grantOnAnyRelation
    requires text == ClauseText(WhereClause(rule.tree), 3) && binds == Binds(WhereClause(rule.tree))
    ensures KeptRows(m, text, BulkParams(rule.channel.value, members, binds, limit))
         == BulkSelected(m, rule, members, limit)
  {
    forall d | d in m.db.users
      ensures KeepsRow(m, text, BulkParams(rule.channel.value, members, binds, limit), d)
         <==> d in members && PassesClause(m, rule, members, limit, d)
    {
      KeepsExactlyTheSelected(m, rule.channel.value, rule.tree, members, text, binds, [VInt(limit)], d);
    }
  }

  lemma LimitIsReadBack(channel: int, members: set<int>, binds: seq<Bind>, limit: nat)
    ensures LimitValue(BulkParams(channel, members, binds, limit)[2 + |binds|]) == limit
  {
  }

  /**
   * The bulk query as the caller puts it together: its two parameters, the compiler's binds, and the
   * limit at the number after them.
   */
  method SelectQualifying(m: Moment, rule: Rule, members: set<int>, limit: nat) returns (ids: seq<int>)
    requires rule.tree.grantOnAnyRelation || rule.channel.Some?
    ensures ids == BulkList(m, rule, members, limit)
  {
    if rule.tree.grantOnAnyRelation {
      return Lowest(members * m.db.users.Keys, limit);
    }
    var text, binds := BuildRuleWhere(rule.tree, 2);
    var limitIndex := 2 + |binds| + 1;
    var params := BulkParams(rule.channel.value, members, binds, limit);
    KeptAreBulkSelected(m, rule, members, text, binds, limit);
    LimitIsReadBack(rule.channel.value, members, binds, limit);
    return OrderedAndLimited(KeptRows(m, text, params), params, limitIndex);
  }

  function CountParams(channel: int, members: set<int>, binds: seq<Bind>): (params: seq<SqlValue>)
    ensures |params| == 2 + |binds|
  {
    Before(channel, members) + BindValues(binds) + []
  }

  lemma KeptAreMatching(m: Moment, rule: Rule, members: set<int>, text: seq<Token>, binds: seq<Bind>)
    requires rule.channel.Some?
    requires text == ClauseText(WhereClause(rule.tree), 3) && binds == Binds(WhereClause(rule.tree))
    ensures KeptRows(m, text, CountParams(rule.channel.value, members, binds)) == Matching(m, rule, members)
  {
    forall d | d in m.db.users
      ensures KeepsRow(m, text, CountParams(rule.channel.value, members, binds), d)
         <==> d in members && PassesCount(m, rule, members, d)
    {
      KeepsExactlyTheSelected(m, rule.channel.value, rule.tree, members, text, binds, [], d);
    }
  }

  /** The rows the preview counts. */
  method SelectMatching(m: Moment, rule: Rule, members: set<int>) returns (rows: set<int>)
    requires rule.channel.Some?
    ensures rows == Matching(m, rule, members)
  {
    var text, binds := BuildRuleWhere(rule.tree, 2);
    rows := KeptRows(m, text, CountParams(rule.channel.value, members, binds));
    KeptAreMatching(m, rule, members, text, binds);
  }

  /** `preview_count_for`: the same guards, and the same compiled clause under a COUNT. */
  method PreviewCount(m: Moment, rule: Rule, members: Option<set<int>>) returns (p: Preview)
    ensures p == PreviewOf(m, rule, members)
  {
    if !rule.tree.grantOnAnyRelation && rule.tree.groups == [] {
      return Count(0, 0);
    }
    if !rule.tree.grantOnAnyRelation && rule.channel.None? {
      return NoChannel;
    }
    if members.None? {
      return MembersUnavailable;
    }
    if members.value == {} {
      return Count(0, 0);
    }
    var linked := |members.value * m.db.users.Keys|;
    if rule.tree.grantOnAnyRelation {
      return Count(linked, linked);
    }
    var rows := SelectMatching(m, rule, members.value);
    return Count(|rows|, linked);
  }

  // ----------------------------------------------------------------- the per-player actions

  /** The list holds an action for the link exactly when one is needed, and the right one. */
  predicate PlannedRight(m: Moment, d: int, id: int, s: LinkState, actions: map<int, bool>) {
    && s.rule.Some?
    && (id in actions <==> Qualifies(m, s.rule.value, d) != (d in s.mirror))
    && (id in actions ==> actions[id] == Qualifies(m, s.rule.value, d))
  }

  lemma PlanOfOtherLinks(m: Moment, d: int, id: int, s: LinkState, before: map<int, bool>, after: map<int, bool>)
    requires PlannedRight(m, d, id, s, before)
    requires (id in after <==> id in before) && (id in before ==> after[id] == before[id])
    ensures PlannedRight(m, d, id, s, after)
  {
  }

  /** Where one member's sync takes a link. */
  ghost predicate MovedBy(m: Moment, d: int, before: LinkState, reply: Reply, limit: nat, after: LinkState) {
    before.rule.Some? && after == AfterPlayer(before, Qualifies(m, before.rule.value, d), d, reply, limit)
  }

  lemma PlannedActionMoves(
    m: Moment, d: int, id: int, before: LinkState, actions: map<int, bool>, reply: Reply, limit: nat, after: LinkState
  )
    requires PlannedRight(m, d, id, before, actions)
    requires after == if id in actions then AfterPlayer(before, actions[id], d, reply, limit) else before
    ensures MovedBy(m, d, before, reply, limit, after)
  {
  }

  class Engine {
    var links: map<int, Link>
    var assignments: map<int, set<int>>
    var remote: map<int, set<int>>
    var rechecks: set<int>

    constructor (links: map<int, Link>, remote: map<int, set<int>>)
      ensures this.links == links && this.remote == remote && assignments == map[] && rechecks == {}
    {
      this.links, this.remote, assignments, rechecks := links, remote, map[], {};
    }

    function StateOf(id: int): LinkState
      reads this`links, this`assignments, this`remote
    {
      LinkState(
        if id in links then Some(links[id].rule) else None,
        if id in assignments then assignments[id] else {},
        if id in remote then remote[id] else {})
    }

    /** `delete_orphan_role_link`, the remote side being gone. */
    method DropLink(id: int)
      modifies this`links, this`assignments, this`remote
      ensures StateOf(id) == DROPPED
      ensures forall other | other != id :: StateOf(other) == old(StateOf(other))
    {
      links, assignments, remote := links - {id}, assignments - {id}, remote - {id};
    }

    /** The remote call and the mirror write of one action. */
    method Perform(id: int, add: bool, d: int, reply: Reply, limit: nat)
      requires id in links && add != (d in StateOf(id).mirror)
      modifies this`links, this`assignments, this`remote
      ensures StateOf(id) == AfterPlayer(old(StateOf(id)), add, d, reply, limit)
      ensures forall other | other != id :: StateOf(other) == old(StateOf(other))
    {
      var before := StateOf(id);
      var there := new RemoteLink(before.remote);
      var r;
      if add {
        r := there.Add(d, reply, limit);
      } else {
        r := there.Remove(d, reply);
      }
      if r == Err(RoleLinkNotFound) {
        DropLink(id);
        return;
      }
      remote := remote[id := there.users];
      if r.Err? {
        return;
      }
      assignments := assignments[id := if add then before.mirror + {d} else before.mirror - {d}];
    }

    /** The links of these guilds. */
    function LinksIn(guilds: set<int>): set<int>
      reads this`links
    {
      set id | id in links && links[id].guild in guilds
    }

    /** The decision loop of `sync_for_player`: every link is decided on the assignments as they are. */
    method PlanActions(m: Moment, d: int, guilds: set<int>) returns (actions: map<int, bool>)
      ensures actions.Keys <= LinksIn(guilds)
      ensures forall id | id in LinksIn(guilds) :: PlannedRight(m, d, id, StateOf(id), actions)
    {
      actions := map[];
      var todo := LinksIn(guilds);
      while todo != {}
        invariant todo <= LinksIn(guilds) && actions.Keys <= LinksIn(guilds) - todo
        invariant forall id | id in LinksIn(guilds) - todo :: PlannedRight(m, d, id, StateOf(id), actions)
        decreases |todo|
      {
        var id := Least(todo);
        var qualifies, isAssigned := Qualifies(m, links[id].rule, d), d in StateOf(id).mirror;
        ghost var before := actions;
        if qualifies != isAssigned {
          actions := actions[id := qualifies];
        }
        forall other | other in LinksIn(guilds) - todo ensures PlannedRight(m, d, other, StateOf(other), actions) {
          PlanOfOtherLinks(m, d, other, StateOf(other), before, actions);
        }
        todo := todo - {id};
      }
    }

    /** The action loop; the actions are on distinct links, so their order does not matter. */
    method PerformAll(actions: map<int, bool>, d: int, replies: map<int, Reply>, limit: nat)
      requires forall id | id in actions :: id in links && actions[id] != (d in StateOf(id).mirror)
      modifies this`links, this`assignments, this`remote
      ensures forall id | id in actions ::
                StateOf(id) == AfterPlayer(old(StateOf(id)), actions[id], d, ReplyFor(replies, id), limit)
      ensures forall id | id !in actions :: StateOf(id) == old(StateOf(id))
    {
      var todo := actions.Keys;
      while todo != {}
        invariant todo <= actions.Keys
        invariant forall id | id in actions.Keys - todo ::
                    StateOf(id) == AfterPlayer(old(StateOf(id)), actions[id], d, ReplyFor(replies, id), limit)
        invariant forall id | id in todo || id !in actions :: StateOf(id) == old(StateOf(id))
        decreases |todo|
      {
        var id := Least(todo);
        assert StateOf(id) == old(StateOf(id)) && StateOf(id).rule.Some?;
        Perform(id, actions[id], d, ReplyFor(replies, id), limit);
        todo := todo - {id};
      }
    }

    /**
     * `sync_for_player`: list the actions, then perform them. Every link of the member's guilds moves
     * by that member's sync, no other link moves.
     */
    method SyncForPlayer(m: Moment, d: int, guilds: set<int>, replies: map<int, Reply>, limit: nat)
      modifies this`links, this`assignments, this`remote
      ensures forall id | id in old(LinksIn(guilds)) ::
                MovedBy(m, d, old(StateOf(id)), ReplyFor(replies, id), limit, StateOf(id))
      ensures forall id | id !in old(LinksIn(guilds)) :: StateOf(id) == old(StateOf(id))
    {
      var actions := PlanActions(m, d, guilds);
      forall id | id in actions ensures id in links && actions[id] != (d in StateOf(id).mirror) {
        assert PlannedRight(m, d, id, StateOf(id), actions);
      }
      PerformAll(actions, d, replies, limit);
      forall id | id in old(LinksIn(guilds))
        ensures MovedBy(m, d, old(StateOf(id)), ReplyFor(replies, id), limit, StateOf(id))
      {
        PlannedActionMoves(m, d, id, old(StateOf(id)), actions, ReplyFor(replies, id), limit, StateOf(id));
      }
    }

    /** Re-check a held write later, unless a check is waiting already. */
    method RecheckHeld(id: int)
      modifies this`rechecks
      ensures rechecks == old(rechecks) + {id}
    {
      if id !in rechecks {
        rechecks := rechecks + {id};
      }
    }

    /** The upload and what follows it, shared by the bulk sync and the drain to empty. */
    method Upload(id: int, ids: seq<int>, replies: UploadReplies) returns (r: Result<(), AppError>)
      requires id in links
      modifies this`links, this`assignments, this`remote, this`rechecks
      ensures var out := AfterWrite(old(StateOf(id)), ids, replies);
              && StateOf(id) == out.state && r == out.result
              && rechecks == old(rechecks) + if out.recheck then {id} else {}
      ensures forall other | other != id :: StateOf(other) == old(StateOf(other))
    {
      var there := new RemoteLink(StateOf(id).remote);
      r := UploadUsers(there, ids, replies);
      UploadIsAtomic(|ids|, replies);
      if r == Err(RoleLinkNotFound) {
        DropLink(id);
        return Ok(());
      }
      remote := remote[id := there.users];
      if r == Err(RoleLinkDisabled) {
        return Ok(());
      }
      if r == Err(RemovalHeld) {
        RecheckHeld(id);
        return Ok(());
      }
      if r.Err? {
        return;
      }
      assignments := assignments[id := Members(ids)];
    }

    /** `drain_to_empty`. */
    method DrainToEmpty(id: int, replies: UploadReplies) returns (r: Result<(), AppError>)
      requires id in links
      modifies this`links, this`assignments, this`remote, this`rechecks
      ensures var out := Carried(old(StateOf(id)), DrainPlan(old(StateOf(id))), replies);
              && StateOf(id) == out.state && r == out.result
              && rechecks == old(rechecks) + if out.recheck then {id} else {}
      ensures forall other | other != id :: StateOf(other) == old(StateOf(other))
    {
      if StateOf(id).mirror == {} {
        return Ok(());
      }
      r := Upload(id, [], replies);
    }

    /** The skip and the upload: `==` on two sorted lists is a set comparison. */
    method UploadIfNew(id: int, ids: seq<int>, replies: UploadReplies) returns (r: Result<(), AppError>)
      requires id in links
      modifies this`links, this`assignments, this`remote, this`rechecks
      ensures var out := Carried(old(StateOf(id)), ListingPlan(old(StateOf(id)), ids), replies);
              && StateOf(id) == out.state && r == out.result
              && rechecks == old(rechecks) + if out.recheck then {id} else {}
      ensures forall other | other != id :: StateOf(other) == old(StateOf(other))
    {
      if Sorted(StateOf(id).mirror) == ids {
        return Ok(());
      }
      r := Upload(id, ids, replies);
    }

    method InfoFailed(id: int, error: AppError, ghost replies: UploadReplies) returns (r: Result<(), AppError>)
      modifies this`links, this`assignments, this`remote
      ensures var out := Carried(old(StateOf(id)), FailedInfoPlan(error), replies);
              StateOf(id) == out.state && r == out.result && !out.recheck
      ensures forall other | other != id :: StateOf(other) == old(StateOf(other))
    {
      if error == RoleLinkNotFound {
        DropLink(id);
        return Ok(());
      }
      return if error == RoleLinkDisabled then Ok(()) else Err(error);
    }

    /** The bulk sync from a non-empty member list on. */
    method SyncMembers(m: Moment, rule: Rule, id: int, members: set<int>, input: BulkInput)
      returns (r: Result<(), AppError>)
      requires id in links && (rule.tree.grantOnAnyRelation || rule.channel.Some?)
      modifies this`links, this`assignments, this`remote, this`rechecks
      ensures var info := ResultOf(GetUserInfo, input.info, input.limit);
              var plan := MembersPlan(m, old(StateOf(id)), rule, members, info, input.limit);
              var out := Carried(old(StateOf(id)), plan, input.upload);
              && StateOf(id) == out.state && r == out.result
              && rechecks == old(rechecks) + if out.recheck then {id} else {}
      ensures forall other | other != id :: StateOf(other) == old(StateOf(other))
    {
      var info := ResultOf(GetUserInfo, input.info, input.limit);
      if info.Err? {
        r := InfoFailed(id, info.error, input.upload);
        return;
      }
      var ids := SelectQualifying(m, rule, members, input.limit);
      r := UploadIfNew(id, ids, input.upload);
    }

    /** `sync_for_role_link`. */
    method SyncForRoleLink(m: Moment, id: int, input: BulkInput) returns (r: Result<(), AppError>)
      modifies this`links, this`assignments, this`remote, this`rechecks
      ensures var out := AfterBulk(m, old(StateOf(id)), input);
              && StateOf(id) == out.state && r == out.result
              && rechecks == old(rechecks) + if out.recheck then {id} else {}
      ensures forall other | other != id :: StateOf(other) == old(StateOf(other))
    {
      if id !in links {
        return Ok(());
      }
      var rule := links[id].rule;
      if !rule.tree.grantOnAnyRelation && (rule.channel.None? || rule.tree.groups == []) {
        r := DrainToEmpty(id, input.upload);
        return;
      }
      if input.members.None? {
        return Err(OtherError);
      }
      if input.members.value == {} {
        r := DrainToEmpty(id, input.upload);
        return;
      }
      r := SyncMembers(m, rule, id, input.members.value, input);
    }
  }
}

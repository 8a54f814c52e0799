/** Per-player sync, bulk sync and preview agree on who holds a role. */
module RoleSyncAgreement {
  import opened Wrappers
  import opened Ascending
  import opened RuleAgreement
  import opened RoleLogic
  import opened RoleSync

  // -------------------------------------------------------------- one sync per member

  /** The link after per-player syncs of the first `k` of these members, every call accepted. */
  function Swept(m: Moment, rule: Rule, s: LinkState, order: seq<int>, k: nat): LinkState
    requires k <= |order|
  {
    if k == 0 then s
    else
      var d := order[k - 1];
      AfterPlayer(Swept(m, rule, s, order, k - 1), Qualifies(m, rule, d), d, Accepted, 0)
  }

  /** A sweep touches only the members it visits, and leaves each where the rule puts them. */
  lemma {:induction false} SweepSettlesEachVisited(m: Moment, rule: Rule, s: LinkState, order: seq<int>, k: nat, d: int)
    requires s.rule.Some? && k <= |order|
    ensures Swept(m, rule, s, order, k).rule == s.rule
    ensures d in Swept(m, rule, s, order, k).mirror
       <==> if d in order[..k] then Qualifies(m, rule, d) else d in s.mirror
  {
    if k > 0 {
      SweepSettlesEachVisited(m, rule, s, order, k - 1, d);
      assert order[..k] == order[..k - 1] + [order[k - 1]];
    }
  }

  /** The set a bulk sync is after, when the limit does not bind: everyone who qualifies. */
  lemma TargetIsTheQualifying(m: Moment, rule: Rule, input: BulkInput)
    requires input.members.Some? && Settled(m, rule, input.members.value)
    requires |Qualifying(m, rule, input.members.value)| <= input.limit
    ensures Members(Target(m, rule, input)) == Qualifying(m, rule, input.members.value)
  {
    var members := input.members.value;
    if GrantsNobody(rule) {
      NobodyQualifies(m, rule, members);
    } else if members != {} {
      BulkSelectsTheQualifying(m, rule, members, input.limit);
      var all := Sorted(Qualifying(m, rule, members));
      assert all[..|all|] == all;
    }
  }

  /**
   * With settled ages and a limit that does not bind, one per-player sync of every member in any
   * order leaves exactly the members a bulk sync would, if and only if the mirror held no one who
   * has left the server (only the bulk sync visits those).
   */
  lemma SweepEqualsBulkWithoutStrays(m: Moment, rule: Rule, s: LinkState, order: seq<int>, input: BulkInput)
    requires s.rule == Some(rule) && input.members == Some(Members(order))
    requires Settled(m, rule, Members(order)) && |Qualifying(m, rule, Members(order))| <= input.limit
    ensures Swept(m, rule, s, order, |order|).mirror == Members(Target(m, rule, input))
       <==> s.mirror <= Members(order)
  {
    var members := Members(order);
    TargetIsTheQualifying(m, rule, input);
    forall d: int
      ensures d in Swept(m, rule, s, order, |order|).mirror
         <==> if d in members then d in Qualifying(m, rule, members) else d in s.mirror
    {
      SweepSettlesEachVisited(m, rule, s, order, |order|, d);
      assert order[..|order|] == order;
    }
    OnlyStraysDiffer(s.mirror, Swept(m, rule, s, order, |order|).mirror, members, Qualifying(m, rule, members));
  }

  lemma OnlyStraysDiffer(before: set<int>, after: set<int>, members: set<int>, qualifying: set<int>)
    requires qualifying <= members
    requires forall d: int :: d in after <==> if d in members then d in qualifying else d in before
    ensures after == qualifying <==> before <= members
  {
    if after == qualifying {
      forall d | d in before ensures d in members {
        assert d in members || d in after;
      }
    }
    if before <= members {
      assert forall d: int :: d in after <==> d in qualifying;
    }
  }

  // ------------------------------------------------------------------------------ preview

  datatype Preview = NoChannel | MembersUnavailable | Count(matching: nat, linked: nat)

  /** `preview_count_for`. */
  function PreviewOf(m: Moment, rule: Rule, members: Option<set<int>>): Preview {
    if !rule.tree.grantOnAnyRelation && rule.tree.groups == [] then Count(0, 0)
    else if !rule.tree.grantOnAnyRelation && rule.channel.None? then NoChannel
    else if members.None? then MembersUnavailable
    else if members.value == {} then Count(0, 0)
    else
      var linked := |members.value * m.db.users.Keys|;
      if rule.tree.grantOnAnyRelation then Count(linked, linked)
      else Count(|Matching(m, rule, members.value)|, linked)
  }

  predicate PassesCount(m: Moment, rule: Rule, members: set<int>, d: int)
    requires rule.channel.Some? && d in m.db.users
  {
    Selected(rule.tree, ViewerAt(m.db, rule.channel.value, d), m.now, m.regex, Before(rule.channel.value, members), [])
  }

  /** The rows the preview counts: the bulk query without ORDER BY, LIMIT and the limit's parameter. */
  function Matching(m: Moment, rule: Rule, members: set<int>): set<int>
    requires rule.channel.Some?
  {
    set d | d in members && d in m.db.users && PassesCount(m, rule, members, d)
  }

  lemma MatchingAreTheQualifying(m: Moment, rule: Rule, members: set<int>)
    requires rule.channel.Some? && !rule.tree.grantOnAnyRelation && Settled(m, rule, members)
    ensures Matching(m, rule, members) == Qualifying(m, rule, members)
  {
    forall d | d in members && d in m.db.users ensures PassesCount(m, rule, members, d) <==> Qualifies(m, rule, d) {
      CompiledRuleAgreesWithEvaluator(rule.tree, ViewerAt(m.db, rule.channel.value, d), m.now, m.regex,
                                      Before(rule.channel.value, members), []);
    }
  }

  /**
   * A preview that reports a count reports how many members qualify, and that is the size of the
   * bulk sync's list exactly when the limit does not bind.
   */
  lemma PreviewCountsTheBulkSet(m: Moment, rule: Rule, input: BulkInput)
    requires input.members.Some? && Settled(m, rule, input.members.value)
    requires PreviewOf(m, rule, input.members).Count?
    ensures var n := PreviewOf(m, rule, input.members).matching;
            && n == |Qualifying(m, rule, input.members.value)|
            && (n == |Target(m, rule, input)| <==> n <= input.limit)
            && n <= |input.members.value|
  {
    var members := input.members.value;
    CountsAreQualifying(m, rule, members);
    if GrantsNobody(rule) {
      NobodyQualifies(m, rule, members);
    } else if members == {} {
      assert Qualifying(m, rule, members) == {};
    } else {
      BulkSelectsTheQualifying(m, rule, members, input.limit);
    }
    SubsetSize(Qualifying(m, rule, members), members);
  }
  /** Which previews carry no count, and what a count counts. */
  lemma PreviewIsExact(m: Moment, rule: Rule, members: Option<set<int>>)
    requires members.Some? ==> Settled(m, rule, members.value)
    ensures var p, anyone, groups := PreviewOf(m, rule, members), rule.tree.grantOnAnyRelation, |rule.tree.groups|;
            && (p == NoChannel <==> !anyone && groups > 0 && rule.channel.None?)
            && (p == MembersUnavailable <==> members.None? && (anyone || (groups > 0 && rule.channel.Some?)))
            && (p.Count? ==>
                  p.matching == if members.None? then 0 else |Qualifying(m, rule, members.value)|)
            && (p.Count? ==>
                  p.linked == if members.None? || (!anyone && groups == 0) then 0
                              else |set d | d in members.value && d in m.db.users|)
  {
    if members.Some? {
      assert members.value * m.db.users.Keys == set d | d in members.value && d in m.db.users;
      if PreviewOf(m, rule, members).Count? {
        CountsAreQualifying(m, rule, members.value);
      }
    }
  }

  lemma CountsAreQualifying(m: Moment, rule: Rule, members: set<int>)
    requires Settled(m, rule, members) && PreviewOf(m, rule, Some(members)).Count?
    ensures PreviewOf(m, rule, Some(members)).matching == |Qualifying(m, rule, members)|
  {
    if GrantsNobody(rule) {
      NobodyQualifies(m, rule, members);
    } else if members == {} {
      assert Qualifying(m, rule, members) == {};
    } else if rule.tree.grantOnAnyRelation {
      assert members * m.db.users.Keys == Qualifying(m, rule, members);
    } else {
      MatchingAreTheQualifying(m, rule, members);
    }
  }
}

/**
 * What a bulk sync may do to one link's members, told from what it was given: who is taken out and
 * why, who is put in, and when nothing happens at all.
 */
module BulkLaws {
  import opened Wrappers
  import opened Ascending
  import opened JobQueue
  import opened RoleLogic
  import opened RoleSync
  import Text

  /** The rule can grant to somebody: anyone linked, or the viewers of a bound channel that some group matches. */
  predicate CanGrant(rule: Rule) {
    rule.tree.grantOnAnyRelation || (rule.channel.Some? && |rule.tree.groups| > 0)
  }

  /** The service answers that it no longer knows the link. */
  predicate SaysGone(reply: Reply) {
    reply.Rejected? && reply.status == 403 && Text.Contains(reply.body, "Invalid or revoked token")
  }

  /** The service answers that the link is disabled or paused. */
  predicate SaysInactive(reply: Reply) {
    && reply.Rejected? && reply.status == 403 && !SaysGone(reply)
    && (|| Text.Contains(reply.body, "This role link is disabled")
        || Text.Contains(reply.body, "This role link is paused"))
  }

  /** Among the members who qualify fewer than `limit` come before `d`. */
  predicate IsWithinLimit(m: Moment, rule: Rule, members: set<int>, limit: nat, d: int) {
    d in members && Qualifies(m, rule, d) && |Below(Qualifying(m, rule, members), d)| < limit
  }

  predicate SettledInput(m: Moment, s: LinkState, input: BulkInput) {
    s.rule.Some? && input.members.Some? ==> Settled(m, s.rule.value, input.members.value)
  }

  // ------------------------------------------------------------------- when nothing happens

  /** Without a member list nothing is written: the roles stay, and the error asks for a retry. */
  lemma UnknownMembersChangeNothing(m: Moment, s: LinkState, input: BulkInput)
    requires s.rule.Some? && CanGrant(s.rule.value) && input.members.None?
    ensures var out := AfterBulk(m, s, input);
            out.state == s && out.uploads == 0 && out.result.Err? && !out.recheck
  {
  }

  /** A failed user-info call drops a link that is gone, passes over an inactive one, and else asks for a retry. */
  lemma FailedInfoChangesNothing(m: Moment, s: LinkState, input: BulkInput)
    requires s.rule.Some? && CanGrant(s.rule.value) && input.members.Some? && input.members.value != {}
    requires !input.info.Accepted?
    ensures var out := AfterBulk(m, s, input);
            && out.uploads == 0 && !out.recheck
            && out.state == (if SaysGone(input.info) then LinkState(None, {}, {}) else s)
            && (out.result.Ok? <==> SaysGone(input.info) || SaysInactive(input.info))
  {
  }

  /** A link that is not stored is left alone. */
  lemma UnknownLinkIsLeft(m: Moment, s: LinkState, input: BulkInput)
    requires s.rule.None?
    ensures var out := AfterBulk(m, s, input);
            out.state == s && out.uploads == 0 && out.result == Ok(()) && !out.recheck
  {
  }

  // ------------------------------------------------------------------------ the whole mirror

  lemma LowestAreWithinLimit(m: Moment, rule: Rule, members: set<int>, limit: nat, d: int)
    requires Settled(m, rule, members) && (rule.tree.grantOnAnyRelation || rule.channel.Some?)
    ensures d in Members(BulkList(m, rule, members, limit)) <==> IsWithinLimit(m, rule, members, limit, d)
  {
    BulkSelectsTheQualifying(m, rule, members, limit);
    LowestByRank(Qualifying(m, rule, members), limit, d);
  }

  /** Who should have the role after this sync, as far as the sync can tell. */
  predicate ShouldHave(m: Moment, rule: Rule, input: BulkInput, d: int) {
    && CanGrant(rule) && input.members.Some?
    && IsWithinLimit(m, rule, input.members.value, input.limit, d)
  }

  lemma TargetsShouldHave(m: Moment, rule: Rule, input: BulkInput, d: int)
    requires input.members.Some? && Settled(m, rule, input.members.value)
    ensures d in Members(Target(m, rule, input)) <==> ShouldHave(m, rule, input, d)
  {
    if CanGrant(rule) && input.members.value != {} {
      LowestAreWithinLimit(m, rule, input.members.value, input.limit, d);
    }
  }

  /** The sync learned enough to act: who is a member and that the link lives, or that nobody can qualify. */
  predicate IsInformed(rule: Rule, input: BulkInput) {
    || !CanGrant(rule)
    || (input.members.Some? && (input.members.value == {} || input.info.Accepted?))
  }

  lemma UploadOutcomes(s: LinkState, ids: seq<int>, replies: UploadReplies)
    ensures var out := AfterWrite(s, ids, replies);
            || (out.state == LinkState(None, {}, {}) && (SaysGone(replies.put) || SaysGone(replies.start)))
            || (out.state.rule == s.rule && out.state.mirror == s.mirror)
            || (out.state == LinkState(s.rule, Members(ids), Members(ids)) && out.result == Ok(()) && !out.recheck)
    ensures AfterWrite(s, ids, replies).uploads == 1
  {
    UploadIsAtomic(|ids|, replies);
  }

  lemma PlannedWrites(m: Moment, s: LinkState, input: BulkInput)
    requires PlanOf(m, s, input).Write?
    ensures s.rule.Some? && IsInformed(s.rule.value, input)
    ensures PlanOf(m, s, input).ids
         == if !CanGrant(s.rule.value) then [] else Target(m, s.rule.value, input)
  {
  }

  /**
   * Every bulk sync ends in one of three ways: the link is dropped because the service said it is
   * gone; its mirror is as before; or an accepted upload put into mirror and remote set exactly the
   * members who should have the role.
   */
  lemma BulkSyncHasThreeEnds(m: Moment, s: LinkState, input: BulkInput)
    requires SettledInput(m, s, input)
    ensures var out := AfterBulk(m, s, input);
            || (out.state == LinkState(None, {}, {}) && s.rule.Some?
                && (SaysGone(input.info) || SaysGone(input.upload.put) || SaysGone(input.upload.start)))
            || (out.state.rule == s.rule && out.state.mirror == s.mirror)
            || (&& s.rule.Some? && out.state.rule == s.rule && IsInformed(s.rule.value, input)
                && out.uploads == 1 && out.result == Ok(()) && out.state.remote == out.state.mirror
                && forall d :: d in out.state.mirror <==> ShouldHave(m, s.rule.value, input, d))
  {
    var plan := PlanOf(m, s, input);
    if plan.Write? {
      PlannedWrites(m, s, input);
      UploadOutcomes(s, plan.ids, input.upload);
      forall d ensures d in Members(plan.ids) <==> ShouldHave(m, s.rule.value, input, d) {
        if CanGrant(s.rule.value) {
          TargetsShouldHave(m, s.rule.value, input, d);
        }
      }
    }
  }

  /**
   * Nobody loses the role without a reason: the service said the link is gone, or an upload was
   * accepted and the rule can grant to nobody, or the member list was reported and the member is not
   * among those who should have it.
   */
  lemma LossesHaveReasons(m: Moment, s: LinkState, input: BulkInput, d: int)
    requires SettledInput(m, s, input)
    requires d in s.mirror && d !in AfterBulk(m, s, input).state.mirror
    ensures s.rule.Some?
    ensures || SaysGone(input.info) || SaysGone(input.upload.put) || SaysGone(input.upload.start)
            || (&& AfterBulk(m, s, input).uploads == 1 && AfterBulk(m, s, input).result == Ok(())
                && (!CanGrant(s.rule.value)
                    || (input.members.Some?
                        && !IsWithinLimit(m, s.rule.value, input.members.value, input.limit, d))))
  {
    BulkSyncHasThreeEnds(m, s, input);
  }

  /** With everything accepted the sync does act: the mirror holds exactly those who should have the role. */
  lemma AcceptedBulkSyncGrantsToAll(m: Moment, s: LinkState, input: BulkInput, d: int)
    requires s.rule.Some? && SettledInput(m, s, input) && IsInformed(s.rule.value, input)
    requires input.upload.put.Accepted? && input.upload.start.Accepted? && input.upload.commit.Accepted?
    requires forall i | 0 <= i < |input.upload.chunks| :: input.upload.chunks[i].Accepted?
    ensures AfterBulk(m, s, input).result == Ok(())
    ensures d in AfterBulk(m, s, input).state.mirror <==> ShouldHave(m, s.rule.value, input, d)
  {
    var rule, plan := s.rule.value, PlanOf(m, s, input);
    if CanGrant(rule) {
      TargetsShouldHave(m, rule, input, d);
    }
    if plan.Write? {
      PlannedWrites(m, s, input);
    }
  }
  /** The service holds a write back until somebody confirms the removals. */
  predicate SaysHeld(reply: Reply) {
    reply.Rejected? && reply.status == 409 && Text.Contains(reply.body, "confirm_required")
  }

  /** A held write, and nothing else, is booked to be tried again; mirror and remote set stay as they were. */
  lemma HeldWritesAreRechecked(s: LinkState, ids: seq<int>, replies: UploadReplies)
    ensures var out := AfterWrite(s, ids, replies);
            && (|ids| <= 100_000 ==> (out.recheck <==> SaysHeld(replies.put)))
            && (|ids| > 100_000 ==>
                  (out.recheck <==> replies.start.Accepted? && ChunksGoThrough(replies, ChunkCount(|ids|))
                                    && SaysHeld(replies.commit)))
            && (out.recheck ==> out.state == s && out.result == Ok(()))
  {
  }

  /** A sync books a re-check only for a write it sent. */
  lemma OnlyWritesAreRechecked(m: Moment, s: LinkState, input: BulkInput)
    ensures AfterBulk(m, s, input).recheck ==>
              AfterBulk(m, s, input).uploads == 1 && (SaysHeld(input.upload.put) || SaysHeld(input.upload.commit))
  {
    var plan := PlanOf(m, s, input);
    if plan.Write? {
      HeldWritesAreRechecked(s, plan.ids, input.upload);
    }
  }
  // ------------------------------------------------------------------ what the replies mean

  /** A reply that says the request was carried out, read or not. */
  predicate WasCarriedOut(reply: Reply) {
    reply == Reply.Accepted || reply == Unread
  }

  /** What each rejection means, by its status and body; chunks and commits never drop or pause a link. */
  lemma RejectionsMean(endpoint: Endpoint, reply: Reply, limit: nat)
    requires reply.Rejected?
    ensures var r, status, body := ResultOf(endpoint, reply, limit), reply.status, reply.body;
            var plain := endpoint != UploadChunk && endpoint != CommitUpload;
            && r.Err?
            && (r.error == RoleLinkNotFound <==> plain && SaysGone(reply))
            && (r.error == RoleLinkDisabled <==> plain && SaysInactive(reply))
            && (r.error.UserLimitReached? ==> r.error == UserLimitReached(limit))
            && (r.error.UserLimitReached?
                <==> endpoint == AddUser && (status == 400 || status == 403) && Text.Contains(body, "limit")
                     && !SaysGone(reply) && !SaysInactive(reply))
            && (r.error == RemovalHeld <==> (endpoint == ReplaceUsers || endpoint == CommitUpload) && SaysHeld(reply))
  {
  }

  /** An accepted request succeeds; an unread one only as a chunk; one that did not arrive fails. */
  lemma OtherRepliesMean(endpoint: Endpoint, reply: Reply, limit: nat)
    requires !reply.Rejected?
    ensures ResultOf(endpoint, reply, limit).Ok?
       <==> reply == Reply.Accepted || (reply == Unread && endpoint == UploadChunk)
    ensures ResultOf(endpoint, reply, limit).Err? ==> ResultOf(endpoint, reply, limit).error == OtherError
  {
  }

  /** A session sends as many chunks of a hundred thousand as the list needs. */
  lemma ChunkCountIsTheCeiling(n: nat)
    ensures ChunkCount(n) * 100_000 >= n
    ensures n > 0 ==> (ChunkCount(n) - 1) * 100_000 < n
    ensures n == 0 ==> ChunkCount(n) == 0
  {
  }

  lemma ChunksMeanReplies(replies: UploadReplies, k: nat)
    ensures ChunksGoThrough(replies, k)
       <==> forall i | 0 <= i < k && i < |replies.chunks| :: WasCarriedOut(replies.chunks[i])
  {
    forall i | 0 <= i < k
      ensures ResultOf(UploadChunk, ChunkReply(replies, i), 0).Ok?
         <==> (i < |replies.chunks| ==> WasCarriedOut(replies.chunks[i]))
    {
    }
  }

  /** The service swaps the set in exactly when its last request went through, and for a session every one before it. */
  lemma SwapsExactlyWhenCarriedOut(n: nat, replies: UploadReplies)
    ensures n <= 100_000 ==> (Uploaded(n, replies).swapped <==> WasCarriedOut(replies.put))
    ensures n > 100_000 ==>
              (Uploaded(n, replies).swapped
               <==> && replies.start.Accepted? && WasCarriedOut(replies.commit)
                    && forall i | 0 <= i < ChunkCount(n) && i < |replies.chunks| :: WasCarriedOut(replies.chunks[i]))
  {
    ChunksMeanReplies(replies, ChunkCount(n));
  }

  /** A link that turns out to be gone when the list is sent is dropped as well, and an inactive one left. */
  lemma WritesToGoneLinks(s: LinkState, ids: seq<int>, replies: UploadReplies)
    ensures var out, first := AfterWrite(s, ids, replies), if |ids| <= 100_000 then replies.put else replies.start;
            && (SaysGone(first) ==> out.state == LinkState(None, {}, {}) && out.result == Ok(()))
            && (SaysInactive(first) ==> out.state == s && out.result == Ok(()))
  {
  }

  // -------------------------------------------------------------------------- one member's sync

  /** One member's sync on one link: nobody else moves, and the member only as decided and confirmed. */
  lemma PlayerSyncMovesOneMember(s: LinkState, qualifies: bool, d: int, reply: Reply, limit: nat)
    ensures var after := AfterPlayer(s, qualifies, d, reply, limit);
            var needed := s.rule.Some? && qualifies != (d in s.mirror);
            && (!needed ==> after == s)
            && (needed && SaysGone(reply) ==> after == LinkState(None, {}, {}))
            && (needed && reply == Reply.Accepted ==>
                  after.mirror == (if qualifies then s.mirror + {d} else s.mirror - {d})
                  && after.remote == (if qualifies then s.remote + {d} else s.remote - {d}) && after.rule == s.rule)
            && (needed && reply != Reply.Accepted && !SaysGone(reply) ==>
                  after.mirror == s.mirror && after.rule == s.rule
                  && (reply != Unread ==> after.remote == s.remote))
  {
  }
}

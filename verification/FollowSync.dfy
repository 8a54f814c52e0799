/**
 * What one follow-probe answer may do to a stored relation: a positive answer grants at once, a
 * negative one only counts toward removal, no answer changes nothing.
 */
module FollowSync {
  import opened Wrappers
  import opened Conditions
  import opened Facts
  import ConditionEval

  const MISS_SPACING: Time := 6 * HOUR
  const PROBED_SUB_FLOOR: Time := 3 * DAY
  const I16_MAX: int := 32767
  const I32_MAX: int := 0x7fff_ffff

  /** Facts read off a channel user card. */
  datatype Card = Card(
    isFollowing: bool,
    followingSince: Option<Time>,
    subscribedForMonths: int,
    isSubscriber: bool,
    isVip: bool,
    isModerator: bool,
    isOg: bool
  )

  datatype ProbeOutcome = Usable(card: Card) | Unavailable

  /** A follow probe waiting in the queue. */
  datatype QueuedProbe = QueuedProbe(discordId: int, runAt: Time)

  datatype Decision = Decision(
    isFollower: bool,
    misses: int,
    countedMiss: bool,
    removesFollow: bool,
    changedFacts: bool
  )

  predicate GainedExtras(row: Relation, card: Card) {
    || (card.isSubscriber && !row.isSubscriber)
    || (card.isVip && !row.isVip)
    || (card.isModerator && !row.isModerator)
    || (card.isOg && !row.isOg)
    || card.subscribedForMonths > row.subMonthsCumulative
  }

  predicate MissCounts(row: Relation, now: Time) {
    row.followMissedAt.None? || now - row.followMissedAt.value >= MISS_SPACING
  }

  /** `decide`. */
  function Decide(row: Relation, card: Card, confirmations: int, now: Time): Decision {
    var gained := GainedExtras(row, card);
    if card.isFollowing then Decision(true, 0, false, false, !row.isFollower || gained)
    else if !row.isFollower then Decision(false, 0, false, false, gained)
    else if !MissCounts(row, now) then Decision(true, row.followProbeMisses, false, false, gained)
    else
      var misses := if row.followProbeMisses >= I16_MAX then I16_MAX else row.followProbeMisses + 1;
      if misses >= confirmations then Decision(false, 0, true, true, true)
      else Decision(true, misses, true, false, gained)
  }

  function Max(a: int, b: int): int {
    if a >= b then a else b
  }

  function ClampMonths(months: int): int {
    if months < 0 then 0 else if months > I32_MAX then I32_MAX else months
  }

  /** The UPDATE `apply` runs. */
  function ApplyCard(row: Relation, card: Card, d: Decision, now: Time): Relation {
    row.(
      isFollower := d.isFollower,
      followedAt :=
        if d.isFollower then
          Some(row.followedAt.GetOr(card.followingSince.GetOr(now)))
        else None,
      followConfirmedAt := if d.isFollower then Some(now) else row.followConfirmedAt,
      followProbedAt := Some(now),
      followProbeAttemptedAt := Some(now),
      followMissedAt := if d.countedMiss then Some(now) else row.followMissedAt,
      followProbeMisses := d.misses,
      isSubscriber := row.isSubscriber || card.isSubscriber,
      subExpiresAt :=
        if card.isSubscriber then Some(Max(row.subExpiresAt.GetOr(now), now + PROBED_SUB_FLOOR))
        else row.subExpiresAt,
      subMonthsCumulative := Max(row.subMonthsCumulative, ClampMonths(card.subscribedForMonths)),
      isVip := row.isVip || card.isVip,
      isModerator := row.isModerator || card.isModerator,
      isOg := row.isOg || card.isOg)
  }

  /** Read, decide, apply for one channel; no answer stamps the attempt and nothing else. */
  function Probed(row: Relation, outcome: ProbeOutcome, confirmations: int, now: Time): Relation {
    match outcome
    case Usable(card) => ApplyCard(row, card, Decide(row, card, confirmations, now), now)
    case Unavailable => row.(followProbeAttemptedAt := Some(now))
  }

  /** A follow date is stored exactly for followers, and months are never negative. */
  predicate FollowConsistent(row: Relation) {
    && (row.isFollower <==> row.followedAt.Some?)
    && 0 <= row.subMonthsCumulative
  }

  lemma ProbedStaysConsistent(row: Relation, outcome: ProbeOutcome, confirmations: int, now: Time)
    requires FollowConsistent(row)
    ensures FollowConsistent(Probed(row, outcome, confirmations, now))
  {
  }

  /**
   * The `changed_facts` flag is exactly right: a usable probe that raises it changes some rule
   * input, one that does not raise it leaves every rule input as it was. (The month counter's
   * column is an i32, so a row already at its top cannot rise.)
   */
  lemma ResyncExactlyWhenFactsChange(user: KickUser, row: Relation, card: Card, confirmations: int, now: Time)
    requires FollowConsistent(row)
    requires row.subMonthsCumulative < I32_MAX || card.subscribedForMonths <= I32_MAX
    ensures var before := FactsOf(Viewer(user, Some(row)));
            var after := FactsOf(Viewer(user, Some(Probed(row, Usable(card), confirmations, now))));
            Decide(row, card, confirmations, now).changedFacts <==> before != after
  {
    var after := Probed(row, Usable(card), confirmations, now);
    var d := Decide(row, card, confirmations, now);
    if GainedExtras(row, card) {
      assert after.isSubscriber != row.isSubscriber || after.isVip != row.isVip
          || after.isModerator != row.isModerator || after.isOg != row.isOg
          || after.subMonthsCumulative != row.subMonthsCumulative;
    } else {
      assert after.isSubscriber == row.isSubscriber && after.isVip == row.isVip
          && after.isModerator == row.isModerator && after.isOg == row.isOg
          && after.subMonthsCumulative == row.subMonthsCumulative;
      assert after.isFollower == row.isFollower ==> after.followedAt == row.followedAt;
    }
  }

  lemma FlaglessProbeKeepsFacts(user: KickUser, row: Relation, card: Card, confirmations: int, now: Time)
    requires FollowConsistent(row)
    requires !Decide(row, card, confirmations, now).changedFacts
    ensures FactsOf(Viewer(user, Some(Probed(row, Usable(card), confirmations, now))))
         == FactsOf(Viewer(user, Some(row)))
  {
    assert Probed(row, Usable(card), confirmations, now).followedAt == row.followedAt;
  }

  /** Skipping the re-sync is sound: without `changed_facts` no rule can change its verdict. */
  lemma SkippedResyncKeepsEveryVerdict(
    user: KickUser, row: Relation, card: Card, confirmations: int, now: Time,
    tree: RuleTree, later: Time, regex: RegexEngine
  )
    requires FollowConsistent(row)
    requires !Decide(row, card, confirmations, now).changedFacts
    ensures var after := Probed(row, Usable(card), confirmations, now);
            ConditionEval.Evaluate(tree, FactsOf(Viewer(user, Some(after))), later, regex)
            <==> ConditionEval.Evaluate(tree, FactsOf(Viewer(user, Some(row))), later, regex)
  {
    FlaglessProbeKeepsFacts(user, row, card, confirmations, now);
  }

  // ---------------------------------------------------- spaced denials do remove a follow

  predicate Spaced(times: seq<Time>) {
    forall i | 0 < i < |times| :: times[i] - times[i - 1] >= 6 * HOUR
  }

  /** The row after negative answers at these times, whatever else the cards say. */
  function Denied(row: Relation, cards: seq<Card>, times: seq<Time>, confirmations: int, k: nat): Relation
    requires k <= |times| == |cards|
  {
    if k == 0 then row
    else Probed(Denied(row, cards, times, confirmations, k - 1), Usable(cards[k - 1]), confirmations, times[k - 1])
  }

  /**
   * From `misses` counted so far, exactly `confirmations - misses` further negative answers, each
   * spaced from the one before, take the follow away: the last one does, none before it.
   */
  lemma {:induction false} SpacedDenialsRemoveTheFollow(
    row: Relation, cards: seq<Card>, times: seq<Time>, confirmations: int, k: nat
  )
    requires row.isFollower && 0 <= row.followProbeMisses < confirmations <= I16_MAX
    requires |times| == |cards| == confirmations - row.followProbeMisses
    requires forall i | 0 <= i < |cards| :: !cards[i].isFollowing
    requires Spaced(times) && MissCounts(row, times[0])
    requires k <= |times|
    ensures var after := Denied(row, cards, times, confirmations, k);
            && (after.isFollower <==> k < |times|)
            && (k < |times| ==> after.followProbeMisses == row.followProbeMisses + k)
            && (0 < k ==> after.followMissedAt == Some(times[k - 1]))
  {
    if k > 0 {
      SpacedDenialsRemoveTheFollow(row, cards, times, confirmations, k - 1);
      if k > 1 {
        assert times[k - 1] - times[k - 2] >= 6 * HOUR;
      }
    }
  }
}

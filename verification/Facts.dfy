/**
 * The stored rows behind the rules: a `channel_relations` row, a `kick_users` row, and the
 * plain facts the evaluator sees. Times are microseconds.
 */
module Facts {
  import opened Wrappers

  type Time = int

  const SECOND: Time := 1_000_000
  const MINUTE: Time := 60 * SECOND
  const HOUR: Time := 60 * MINUTE
  const DAY: Time := 24 * HOUR

  /** `channel_relations`. The default value is the row an INSERT of the bare keys creates. */
  datatype Relation = Relation(
    isFollower: bool := false,
    followedAt: Option<Time> := None,
    isSubscriber: bool := false,
    subscribedAt: Option<Time> := None,
    subMonthsCumulative: int := 0,
    subStreakMonths: int := 0,
    subIsGift: bool := false,
    giftedSubsGiven: int := 0,
    isVip: bool := false,
    isModerator: bool := false,
    isOg: bool := false,
    kicksDonated: int := 0,
    chatMessages30d: int := 0,
    subExpiresAt: Option<Time> := None,
    followProbedAt: Option<Time> := None,
    followConfirmedAt: Option<Time> := None,
    followMissedAt: Option<Time> := None,
    followProbeAttemptedAt: Option<Time> := None,
    followProbeMisses: int := 0
  )

  const BASELINE: Relation := Relation()

  /** `kick_users`, keyed by Discord id elsewhere. */
  datatype KickUser = KickUser(
    kickUserId: int,
    kickUsername: string,
    kickCreatedAt: Time,
    countryCode: Option<string>
  )

  /** One row of `kick_users LEFT JOIN channel_relations`. */
  datatype Viewer = Viewer(user: KickUser, relation: Option<Relation>)

  datatype RuleFacts = RuleFacts(
    isFollower: bool,
    followedAt: Option<Time>,
    isSubscriber: bool,
    subMonthsCumulative: int,
    subStreakMonths: int,
    subIsGift: bool,
    giftedSubsGiven: int,
    isVip: bool,
    isModerator: bool,
    kicksDonated: int,
    chatMessages30d: int,
    isOg: bool,
    kickCreatedAt: Option<Time>,
    countryCode: Option<string>,
    username: string
  )

  /** `FACTS_SELECT`: a missing relation row reads as all-default. */
  function FactsOf(v: Viewer): RuleFacts {
    var r := v.relation.GetOr(BASELINE);
    RuleFacts(
      r.isFollower, r.followedAt, r.isSubscriber, r.subMonthsCumulative, r.subStreakMonths,
      r.subIsGift, r.giftedSubsGiven, r.isVip, r.isModerator, r.kicksDonated,
      r.chatMessages30d, r.isOg, Some(v.user.kickCreatedAt), v.user.countryCode,
      v.user.kickUsername)
  }
}

/** The reference semantics of a rule tree: one viewer's facts in, a verdict out. */
module ConditionEval {
  import opened Wrappers
  import opened Conditions
  import opened Facts

  predicate Evaluate(tree: RuleTree, facts: RuleFacts, now: Time, regex: RegexEngine) {
    if tree.grantOnAnyRelation then true
    else exists i | 0 <= i < |tree.groups| :: GroupMatches(tree.groups[i], facts, now, regex)
  }

  predicate GroupMatches(g: Group, facts: RuleFacts, now: Time, regex: RegexEngine) {
    && g.conditions != []
    && forall j | 0 <= j < |g.conditions| :: EvaluateSingle(g.conditions[j], facts, now, regex)
  }

  predicate EvaluateSingle(c: Condition, f: RuleFacts, now: Time, regex: RegexEngine) {
    match c.target
    case IsFollower => BoolMatch(c, f.isFollower)
    case IsSubscriber => BoolMatch(c, f.isSubscriber)
    case IsGiftRecipient => BoolMatch(c, f.subIsGift)
    case IsVip => BoolMatch(c, f.isVip)
    case IsModerator => BoolMatch(c, f.isModerator)
    case IsOg => BoolMatch(c, f.isOg)
    case FollowAgeDays => IntMatch(c, DaysSince(f.followedAt, now))
    case SubMonthsCumulative => IntMatch(c, Some(f.subMonthsCumulative))
    case SubStreakMonths => IntMatch(c, Some(f.subStreakMonths))
    case GiftedSubsGiven => IntMatch(c, Some(f.giftedSubsGiven))
    case KicksDonatedToChannel => IntMatch(c, Some(f.kicksDonated))
    case ChatMessages30d => IntMatch(c, Some(f.chatMessages30d))
    case AccountAgeDays => IntMatch(c, DaysSince(f.kickCreatedAt, now))
    case CountryCode => StringMatch(c, f.countryCode, regex)
    case Username => StringMatch(c, Some(f.username), regex)
  }

  predicate BoolMatch(c: Condition, actual: bool) {
    c.operator.Eq? && c.value.AsBool() == Some(actual)
  }

  predicate IntMatch(c: Condition, actual: Option<int>) {
    if actual.None? then false
    else
      var a := actual.value;
      var v := c.value.AsI64();
      match c.operator
      case Eq => v.Some? && a == v.value
      case Neq => v.Some? && a != v.value
      case Gt => v.Some? && a > v.value
      case Gte => v.Some? && a >= v.value
      case Lt => v.Some? && a < v.value
      case Lte => v.Some? && a <= v.value
      case Between =>
        var hi := if c.valueEnd.Some? then c.valueEnd.value.AsI64() else None;
        v.Some? && hi.Some? && v.value <= a <= hi.value
      case _ => false
  }

  predicate StringMatch(c: Condition, actual: Option<string>, regex: RegexEngine) {
    if actual.None? then c.operator.Neq?
    else
      var a := actual.value;
      var v := c.value.AsStr();
      match c.operator
      case Eq => v.Some? && a == v.value
      case Neq => v.Some? && a != v.value
      case Contains => v.Some? && Text.Contains(a, v.value)
      case Regex => v.Some? && regex.compiles(v.value) && regex.matches(v.value, a)
      case In => ListContains(c.value, a)
      case NotIn => !ListContains(c.value, a)
      case _ => false
  }

  predicate ListContains(value: Value, needle: string) {
    value.Array? && Str(needle) in value.items
  }

  /** `Duration::num_days`: whole days, rounded toward zero. */
  function TruncatedDays(d: Time): int {
    if d >= 0 then d / DAY else -((-d) / DAY)
  }

  function DaysSince(ts: Option<Time>, now: Time): Option<int> {
    if ts.Some? then Some(TruncatedDays(now - ts.value)) else None
  }
}

/** Rule trees: JSON literals, condition targets and operators, conditions, groups. */
module Conditions {
  import opened Wrappers
  import opened Text

  /** The printed form serde_json gives a float is never blank. */
  type FloatText = s: string | Trim(s) != "" witness "0"

  type AboveI64 = u: int | I64_MAX < u <= 0xffff_ffff_ffff_ffff witness I64_MAX + 1

  /** A JSON number as serde_json stores it: an i64, a u64 above that, or a float. */
  datatype Number =
    | Integer(n: I64)
    | Large(u: AboveI64)
    | Float(r: real, text: FloatText)

  datatype Value =
    | Null
    | Boolean(b: bool)
    | Num(num: Number)
    | Str(s: string)
    | Array(items: seq<Value>)
    | Object(entries: map<string, Value>)
  {
    function AsBool(): Option<bool> {
      if Boolean? then Some(b) else None
    }

    function AsI64(): Option<int> {
      if Num? && num.Integer? then Some(num.n) else None
    }

    function AsStr(): Option<string> {
      if Str? then Some(s) else None
    }
  }

  datatype TargetKind = BoolKind | IntKind | StringKind

  datatype ConditionTarget =
    | IsFollower | FollowAgeDays | IsSubscriber | SubMonthsCumulative | SubStreakMonths
    | IsGiftRecipient | GiftedSubsGiven | IsVip | IsModerator | KicksDonatedToChannel
    | ChatMessages30d | IsOg | AccountAgeDays | CountryCode | Username
  {
    function Kind(): TargetKind {
      match this
      case IsFollower | IsSubscriber | IsGiftRecipient | IsVip | IsModerator | IsOg => BoolKind
      case FollowAgeDays | SubMonthsCumulative | SubStreakMonths | GiftedSubsGiven
        | KicksDonatedToChannel | ChatMessages30d | AccountAgeDays => IntKind
      case CountryCode | Username => StringKind
    }

    function Key(): string {
      match this
      case IsFollower => "is_follower"
      case FollowAgeDays => "follow_age_days"
      case IsSubscriber => "is_subscriber"
      case SubMonthsCumulative => "sub_months_cumulative"
      case SubStreakMonths => "sub_streak_months"
      case IsGiftRecipient => "is_gift_recipient"
      case GiftedSubsGiven => "gifted_subs_given"
      case IsVip => "is_vip"
      case IsModerator => "is_moderator"
      case KicksDonatedToChannel => "kicks_donated_to_channel"
      case ChatMessages30d => "chat_messages_30d"
      case IsOg => "is_og"
      case AccountAgeDays => "account_age_days"
      case CountryCode => "country_code"
      case Username => "username"
    }

    /**
     * The name the derived serializer stores and serves: an underscore before every capital of
     * `ChatMessages30d` but the first, so none before a digit.
     */
    function StoredKey(): string {
      if ChatMessages30d? then "chat_messages30d" else Key()
    }

    static function FromKey(s: string): Option<ConditionTarget> {
      if s == "is_follower" then Some(IsFollower)
      else if s == "follow_age_days" then Some(FollowAgeDays)
      else if s == "is_subscriber" then Some(IsSubscriber)
      else if s == "sub_months_cumulative" then Some(SubMonthsCumulative)
      else if s == "sub_streak_months" then Some(SubStreakMonths)
      else if s == "is_gift_recipient" then Some(IsGiftRecipient)
      else if s == "gifted_subs_given" then Some(GiftedSubsGiven)
      else if s == "is_vip" then Some(IsVip)
      else if s == "is_moderator" then Some(IsModerator)
      else if s == "kicks_donated_to_channel" then Some(KicksDonatedToChannel)
      else if s == "chat_messages_30d" then Some(ChatMessages30d)
      else if s == "is_og" then Some(IsOg)
      else if s == "account_age_days" then Some(AccountAgeDays)
      else if s == "country_code" then Some(CountryCode)
      else if s == "username" then Some(Username)
      else None
    }
  }

  datatype ConditionOperator =
    | Eq | Neq | Gt | Gte | Lt | Lte | Between | Contains | Regex | In | NotIn
  {
    function Key(): string {
      match this
      case Eq => "eq"
      case Neq => "neq"
      case Gt => "gt"
      case Gte => "gte"
      case Lt => "lt"
      case Lte => "lte"
      case Between => "between"
      case Contains => "contains"
      case Regex => "regex"
      case In => "in"
      case NotIn => "not_in"
    }

    static function FromKey(s: string): Option<ConditionOperator> {
      if s == "eq" then Some(Eq)
      else if s == "neq" then Some(Neq)
      else if s == "gt" then Some(Gt)
      else if s == "gte" then Some(Gte)
      else if s == "lt" then Some(Lt)
      else if s == "lte" then Some(Lte)
      else if s == "between" then Some(Between)
      else if s == "contains" then Some(Contains)
      else if s == "regex" then Some(Regex)
      else if s == "in" then Some(In)
      else if s == "not_in" then Some(NotIn)
      else None
    }

    predicate ValidFor(kind: TargetKind) {
      match kind
      case BoolKind => Eq?
      case IntKind => Eq? || Neq? || Gt? || Gte? || Lt? || Lte? || Between?
      case StringKind => Eq? || Neq? || Contains? || Regex? || In? || NotIn?
    }
  }

  datatype Condition = Condition(
    target: ConditionTarget,
    operator: ConditionOperator,
    value: Value,
    valueEnd: Option<Value>
  )

  datatype Group = Group(conditions: seq<Condition>)

  datatype RuleTree = RuleTree(grantOnAnyRelation: bool, groups: seq<Group>)

  const MAX_GROUPS: nat := 8
  const MAX_CONDITIONS_PER_GROUP: nat := 12

  /** Regular expressions as one shared oracle: which patterns compile, and what they match. */
  datatype RegexEngine = RegexEngine(compiles: string -> bool, matches: (string, string) -> bool)

  lemma KeysHaveSolidEnds(t: ConditionTarget, op: ConditionOperator)
    ensures SolidEnds(t.Key()) && SolidEnds(op.Key())
  {
  }

  lemma TargetKeyReadsBack(t: ConditionTarget)
    ensures ConditionTarget.FromKey(t.Key()) == Some(t)
  {
  }

  /** A printed key reads back as its target, also after trimming. */
  lemma TargetKeyRoundTrip(t: ConditionTarget)
    ensures ConditionTarget.FromKey(Trim(t.Key())) == Some(t)
  {
    KeysHaveSolidEnds(t, Eq);
    TrimChangesOnlyLooseEnds(t.Key());
    TargetKeyReadsBack(t);
  }

  /** Of the stored names the parser knows every one but `chat_messages30d`. */
  lemma StoredKeyReadsBack(t: ConditionTarget)
    ensures ConditionTarget.FromKey(Trim(t.StoredKey())) == if t == ChatMessages30d then None else Some(t)
  {
    if t == ChatMessages30d {
      TrimChangesOnlyLooseEnds(t.StoredKey());
    } else {
      TargetKeyRoundTrip(t);
    }
  }

  lemma OperatorKeyRoundTrip(op: ConditionOperator)
    ensures ConditionOperator.FromKey(Trim(op.Key())) == Some(op)
  {
    KeysHaveSolidEnds(IsOg, op);
    TrimChangesOnlyLooseEnds(op.Key());
  }
}

/**
 * The two back ends of the rule engine pick the same people: the compiled clause, read back as SQL
 * and evaluated in three-valued logic over the joined row, is TRUE exactly when the evaluator
 * accepts the row's facts. Where they can differ is stated exactly.
 */
module RuleAgreement {
  import opened Wrappers
  import opened Text
  import opened Conditions
  import opened Facts
  import opened ConditionEval
  import opened RuleValidator
  import opened SqlClause
  import opened SqlBinds
  import opened RuleSql
  import LikePattern

  // ------------------------------------------------------------- when they agree

  /** Whole days since a moment mean the same rounded toward zero and rounded down. */
  predicate AgeSettled(ts: Option<Time>, now: Time) {
    ts.None? || now >= ts.value || (now - ts.value) % DAY == 0
  }

  /** In particular, no timestamp of the row lies in the future. */
  predicate AgesSettled(v: Viewer, now: Time) {
    AgeSettled(v.relation.GetOr(BASELINE).followedAt, now) && AgeSettled(Some(v.user.kickCreatedAt), now)
  }

  /** A `not_in` over the nullable column names at least one string. */
  predicate NullSafe(c: Condition) {
    c.target == CountryCode && c.operator == NotIn ==> StrArray(c) != []
  }

  predicate SoundCondition(c: Condition, regex: RegexEngine) {
    WellFormedCondition(c, regex) && NullSafe(c)
  }

  /** Every condition is sound; empty groups and an empty tree are allowed. */
  predicate SoundTree(tree: RuleTree, regex: RegexEngine) {
    forall g | 0 <= g < |tree.groups| ::
      forall i | 0 <= i < |tree.groups[g].conditions| ::
        SoundCondition(tree.groups[g].conditions[i], regex)
  }

  lemma RoundingAgrees(d: Time)
    ensures TruncatedDays(d) == d / DAY <==> d >= 0 || d % DAY == 0
  {
  }

  // ------------------------------------------------------- one target, both readings

  function FlagFact(t: ConditionTarget, f: RuleFacts): bool
    requires t.Kind() == BoolKind
  {
    match t
    case IsFollower => f.isFollower
    case IsSubscriber => f.isSubscriber
    case IsGiftRecipient => f.subIsGift
    case IsVip => f.isVip
    case IsModerator => f.isModerator
    case IsOg => f.isOg
  }

  function IntFact(t: ConditionTarget, f: RuleFacts, now: Time): Option<int>
    requires t.Kind() == IntKind
  {
    match t
    case FollowAgeDays => DaysSince(f.followedAt, now)
    case SubMonthsCumulative => Some(f.subMonthsCumulative)
    case SubStreakMonths => Some(f.subStreakMonths)
    case GiftedSubsGiven => Some(f.giftedSubsGiven)
    case KicksDonatedToChannel => Some(f.kicksDonated)
    case ChatMessages30d => Some(f.chatMessages30d)
    case AccountAgeDays => DaysSince(f.kickCreatedAt, now)
  }

  function TextFact(t: ConditionTarget, f: RuleFacts): Option<string>
    requires t.Kind() == StringKind
  {
    if t == CountryCode then f.countryCode else Some(f.username)
  }

  lemma FlagExpression(t: ConditionTarget, env: Env)
    requires t.Kind() == BoolKind
    ensures Eval(TargetExpr(t), env) == VBool(FlagFact(t, FactsOf(env.viewer)))
  {
  }

  lemma AgeExpression(ts: Option<Time>, e: Sql, env: Env)
    requires AgeSettled(ts, env.now) && Eval(e, env) == OptTime(ts)
    ensures Eval(FloorDaysSince(e), env)
         == if ts.Some? then VInt(DaysSince(ts, env.now).value) else VNull
  {
    if ts.Some? {
      RoundingAgrees(env.now - ts.value);
    }
  }

  lemma IntExpression(t: ConditionTarget, env: Env)
    requires t.Kind() == IntKind && AgesSettled(env.viewer, env.now)
    ensures var fact := IntFact(t, FactsOf(env.viewer), env.now);
            Eval(TargetExpr(t), env) == if fact.Some? then VInt(fact.value) else VNull
  {
    if t == FollowAgeDays {
      AgeExpression(env.viewer.relation.GetOr(BASELINE).followedAt, Col(CrFollowedAt), env);
    } else if t == AccountAgeDays {
      AgeExpression(Some(env.viewer.user.kickCreatedAt), Col(KuKickCreatedAt), env);
    }
  }

  lemma TextExpression(t: ConditionTarget, env: Env)
    requires t.Kind() == StringKind
    ensures var fact := TextFact(t, FactsOf(env.viewer));
            Eval(TargetExpr(t), env) == if fact.Some? then VText(fact.value) else VNull
  {
  }

  // ------------------------------------------------------------- one condition

  lemma FlagConditionAgrees(c: Condition, env: Env, first: nat)
    requires c.target.Kind() == BoolKind && WellFormedCondition(c, env.regex)
    requires Bound(ConditionBinds(c), first, env.params)
    ensures Eval(ConditionSql(c, first), env) == TRUE
       <==> EvaluateSingle(c, FactsOf(env.viewer), env.now, env.regex)
  {
    FlagExpression(c.target, env);
    assert ConditionBinds(c)[0] == BindBool(c.value.b);
  }

  lemma IntConditionAgrees(c: Condition, env: Env, first: nat)
    requires c.target.Kind() == IntKind && WellFormedCondition(c, env.regex)
    requires AgesSettled(env.viewer, env.now)
    requires Bound(ConditionBinds(c), first, env.params)
    ensures Eval(ConditionSql(c, first), env) == TRUE
       <==> IntMatch(c, IntFact(c.target, FactsOf(env.viewer), env.now))
  {
    IntExpression(c.target, env);
    assert env.params[first - 1] == BindValue(ConditionBinds(c)[0]) == VInt(c.value.num.n);
    if c.operator.Between? {
      assert env.params[first] == BindValue(ConditionBinds(c)[1]) == VInt(c.valueEnd.value.num.n);
      RangeMeans(TargetExpr(c.target), first, IntFact(c.target, FactsOf(env.viewer), env.now),
                 c.value.num.n, c.valueEnd.value.num.n, env);
    }
  }

  lemma ListContainsExactly(value: Value, needle: string)
    requires value.Array?
    ensures ListContains(value, needle) <==> needle in StringsOf(value.items)
  {
  }

  lemma ListConditionAgrees(c: Condition, env: Env, first: nat)
    requires c.target.Kind() == StringKind && c.value.Array? && NullSafe(c)
    requires c.operator.In? || c.operator.NotIn?
    requires Bound(ConditionBinds(c), first, env.params)
    ensures Eval(ConditionSql(c, first), env) == TRUE
       <==> StringMatch(c, TextFact(c.target, FactsOf(env.viewer)), env.regex)
  {
    var e, fact := TargetExpr(c.target), TextFact(c.target, FactsOf(env.viewer));
    TextExpression(c.target, env);
    if fact.Some? {
      ListContainsExactly(c.value, fact.value);
    }
    if StrArray(c) != [] {
      assert env.params[first - 1] == BindValue(ConditionBinds(c)[0]) == VTextArray(StrArray(c));
      ListOperatorsMean(e, first, fact, StrArray(c), env);
    }
  }

  lemma ContainsConditionAgrees(c: Condition, env: Env, first: nat)
    requires c.target.Kind() == StringKind && c.operator == Contains && c.value.Str?
    requires Bound(ConditionBinds(c), first, env.params)
    ensures Eval(ConditionSql(c, first), env) == TRUE
       <==> StringMatch(c, TextFact(c.target, FactsOf(env.viewer)), env.regex)
  {
    var fact := TextFact(c.target, FactsOf(env.viewer));
    TextExpression(c.target, env);
    assert env.params[first - 1] == BindValue(ConditionBinds(c)[0]);
    if fact.Some? {
      LikePattern.LikeOfEscapedIsContains(fact.value, c.value.s);
    }
  }

  lemma TextConditionAgrees(c: Condition, env: Env, first: nat)
    requires c.target.Kind() == StringKind && SoundCondition(c, env.regex)
    requires Bound(ConditionBinds(c), first, env.params)
    ensures Eval(ConditionSql(c, first), env) == TRUE
       <==> StringMatch(c, TextFact(c.target, FactsOf(env.viewer)), env.regex)
  {
    if c.operator.In? || c.operator.NotIn? {
      ListConditionAgrees(c, env, first);
    } else if c.operator.Contains? {
      ContainsConditionAgrees(c, env, first);
    } else {
      TextExpression(c.target, env);
      assert env.params[first - 1] == BindValue(ConditionBinds(c)[0]) == VText(c.value.s);
    }
  }

  lemma ConditionAgrees(c: Condition, env: Env, first: nat)
    requires SoundCondition(c, env.regex) && AgesSettled(env.viewer, env.now)
    requires Bound(ConditionBinds(c), first, env.params)
    ensures Eval(ConditionSql(c, first), env) == TRUE
       <==> EvaluateSingle(c, FactsOf(env.viewer), env.now, env.regex)
  {
    match c.target.Kind() {
      case BoolKind => FlagConditionAgrees(c, env, first);
      case IntKind => IntConditionAgrees(c, env, first);
      case StringKind => TextConditionAgrees(c, env, first);
    }
  }

  // ------------------------------------------------------------------ whole rules

  predicate SoundClause(p: Clause, regex: RegexEngine) {
    match p
    case Single(c) => SoundCondition(c, regex)
    case Fixed(_) => true
    case Joined(parts, _) => parts != [] && forall k | 0 <= k < |parts| :: SoundClause(parts[k], regex)
  }

  /** What a clause means to the evaluator. */
  predicate Holds(p: Clause, v: Viewer, now: Time, regex: RegexEngine) {
    match p
    case Single(c) => EvaluateSingle(c, FactsOf(v), now, regex)
    case Fixed(truth) => truth
    case Joined(parts, conjunctive) =>
      if conjunctive then forall k | 0 <= k < |parts| :: Holds(parts[k], v, now, regex)
      else exists k | 0 <= k < |parts| :: Holds(parts[k], v, now, regex)
  }

  lemma {:induction false} ClauseAgrees(p: Clause, env: Env, first: nat)
    requires SoundClause(p, env.regex) && AgesSettled(env.viewer, env.now)
    requires Bound(Binds(p), first, env.params)
    ensures Eval(ClauseSql(p, first), env) == TRUE <==> Holds(p, env.viewer, env.now, env.regex)
    decreases p, 0
  {
    match p {
      case Single(c) => ConditionAgrees(c, env, first);
      case Fixed(_) =>
      case Joined(parts, conjunctive) =>
        var es := ClauseSqls(parts, first, |parts|);
        PartsAgree(parts, env, first, |parts|);
        if conjunctive {
          MkAndIsTrue(es, env);
        } else {
          MkOrIsTrue(es, env);
        }
    }
  }

  lemma {:induction false} PartsAgree(parts: seq<Clause>, env: Env, first: nat, k: nat)
    requires k <= |parts| && forall i | 0 <= i < |parts| :: SoundClause(parts[i], env.regex)
    requires AgesSettled(env.viewer, env.now)
    requires Bound(BindsUpTo(parts, k), first, env.params)
    ensures forall i | 0 <= i < k ::
              Eval(ClauseSqls(parts, first, k)[i], env) == TRUE
              <==> Holds(parts[i], env.viewer, env.now, env.regex)
    decreases parts, k
  {
    if k > 0 {
      BoundSplit(BindsUpTo(parts, k - 1), Binds(parts[k - 1]), first, env.params);
      PartsAgree(parts, env, first, k - 1);
      ClauseAgrees(parts[k - 1], env, Start(parts, first, k - 1));
    }
  }

  lemma GroupHolds(g: Group, v: Viewer, now: Time, regex: RegexEngine)
    ensures Holds(GroupClause(g), v, now, regex) <==> GroupMatches(g, FactsOf(v), now, regex)
  {
    if g.conditions != [] {
      var parts := GroupClause(g).parts;
      forall k | 0 <= k < |parts|
        ensures Holds(parts[k], v, now, regex) <==> EvaluateSingle(g.conditions[k], FactsOf(v), now, regex)
      {
        assert parts[k] == Single(g.conditions[k]);
      }
    }
  }

  lemma WhereHolds(tree: RuleTree, v: Viewer, now: Time, regex: RegexEngine)
    ensures Holds(WhereClause(tree), v, now, regex) <==> Evaluate(tree, FactsOf(v), now, regex)
  {
    if !tree.grantOnAnyRelation && tree.groups != [] {
      var parts := WhereClause(tree).parts;
      forall k | 0 <= k < |parts|
        ensures Holds(parts[k], v, now, regex) <==> GroupMatches(tree.groups[k], FactsOf(v), now, regex)
      {
        GroupHolds(tree.groups[k], v, now, regex);
      }
    }
  }

  lemma SoundTreeGivesSoundClause(tree: RuleTree, regex: RegexEngine)
    requires SoundTree(tree, regex)
    ensures SoundClause(WhereClause(tree), regex)
  {
    if !tree.grantOnAnyRelation {
      forall k | 0 <= k < |tree.groups| ensures SoundClause(GroupClause(tree.groups[k]), regex) {
      }
    }
  }

  function BindValues(binds: seq<Bind>): (vs: seq<SqlValue>)
    ensures |vs| == |binds| && forall k | 0 <= k < |binds| :: vs[k] == BindValue(binds[k])
  {
    seq(|binds|, k requires 0 <= k < |binds| => BindValue(binds[k]))
  }

  /** A row passes `WHERE text` when the text is SQL and evaluates to TRUE (not NULL, not FALSE). */
  predicate RowPasses(text: seq<Token>, env: Env) {
    ParseClause(text).Some? && Eval(ParseClause(text).value, env) == TRUE
  }

  /** The compiled rule over one joined row, between the caller's own parameters. */
  predicate Selected(
    tree: RuleTree, v: Viewer, now: Time, regex: RegexEngine, before: seq<SqlValue>, after: seq<SqlValue>
  ) {
    var rule := WhereClause(tree);
    RowPasses(ClauseText(rule, |before| + 1), Env(v, now, before + BindValues(Binds(rule)) + after, regex))
  }

  /**
   * For every sound tree, every row (also one without a relation, or without a country) and every
   * surrounding parameter list, the compiled rule selects the row exactly when the evaluator
   * accepts its facts.
   */
  lemma CompiledRuleAgreesWithEvaluator(
    tree: RuleTree, v: Viewer, now: Time, regex: RegexEngine, before: seq<SqlValue>, after: seq<SqlValue>
  )
    requires SoundTree(tree, regex) && AgesSettled(v, now)
    ensures Selected(tree, v, now, regex, before, after) <==> Evaluate(tree, FactsOf(v), now, regex)
  {
    var rule := WhereClause(tree);
    var env := Env(v, now, before + BindValues(Binds(rule)) + after, regex);
    var first := |before| + 1;
    WhereTextParses(tree, first);
    SoundTreeGivesSoundClause(tree, regex);
    forall k | 0 <= k < |Binds(rule)| ensures env.params[first - 1 + k] == BindValue(Binds(rule)[k]) {
      assert (before + BindValues(Binds(rule)))[|before| + k] == BindValues(Binds(rule))[k];
    }
    ClauseAgrees(rule, env, first);
    WhereHolds(tree, v, now, regex);
  }

  /** Every tree the validator accepts is sound once its country lists name a string. */
  lemma AcceptedTreesAreSound(body: RuleTreeBody, regex: RegexEngine)
    requires Parsed(body, regex).Ok?
    requires var tree := Parsed(body, regex).value.ruleTree;
             forall g | 0 <= g < |tree.groups| ::
               forall i | 0 <= i < |tree.groups[g].conditions| :: NullSafe(tree.groups[g].conditions[i])
    ensures SoundTree(Parsed(body, regex).value.ruleTree, regex)
  {
    AcceptedTreeIsWellFormed(body, regex);
    var tree := Parsed(body, regex).value.ruleTree;
    forall g | 0 <= g < |tree.groups| ensures WellFormedGroup(tree.groups[g], regex) {
    }
  }

  // ---------------------------------------------------- the two hypotheses are exact

  /** The two readings of one condition, compiled alone as `$1`. */
  predicate Agrees(c: Condition, v: Viewer, now: Time, regex: RegexEngine) {
    Eval(ConditionSql(c, 1), Env(v, now, BindValues(ConditionBinds(c)), regex)) == TRUE
    <==> EvaluateSingle(c, FactsOf(v), now, regex)
  }

  /** Over all settled rows, an accepted condition agrees exactly when it is null-safe. */
  lemma NullSafetyIsExact(c: Condition, regex: RegexEngine)
    requires WellFormedCondition(c, regex)
    ensures NullSafe(c) <==> forall v: Viewer, now: Time :: AgesSettled(v, now) ==> Agrees(c, v, now, regex)
  {
    if NullSafe(c) {
      forall v: Viewer, now: Time | AgesSettled(v, now) ensures Agrees(c, v, now, regex) {
        ConditionAgrees(c, Env(v, now, BindValues(ConditionBinds(c)), regex), 1);
      }
    } else {
      var stateless := Viewer(KickUser(1, "u", 0, None), None);
      assert AgesSettled(stateless, 0) && !Agrees(c, stateless, 0, regex);
    }
  }

  /** An accepted list of numbers only: the clause selects a viewer without a country, the evaluator does not. */
  lemma NumbersOnlyListDisagrees(v: Viewer, now: Time, regex: RegexEngine)
    requires v.user.countryCode == None
    ensures var c := Condition(CountryCode, NotIn, Array([Num(Integer(1))]), None);
            WellFormedCondition(c, regex) && !Agrees(c, v, now, regex)
  {
    var c := Condition(CountryCode, NotIn, Array([Num(Integer(1))]), None);
    assert StringsOf([Num(Integer(1))]) == [];
  }

  predicate RepresentableAge(ts: Option<Time>, now: Time) {
    ts.Some? ==> I64_MIN <= TruncatedDays(now - ts.value) <= I64_MAX
  }

  /** Over all sound conditions, a row agrees exactly when its ages are settled. */
  lemma SettledAgesAreExact(v: Viewer, now: Time, regex: RegexEngine)
    requires RepresentableAge(v.relation.GetOr(BASELINE).followedAt, now)
    requires RepresentableAge(Some(v.user.kickCreatedAt), now)
    ensures AgesSettled(v, now) <==> forall c: Condition :: SoundCondition(c, regex) ==> Agrees(c, v, now, regex)
  {
    if AgesSettled(v, now) {
      forall c: Condition | SoundCondition(c, regex) ensures Agrees(c, v, now, regex) {
        ConditionAgrees(c, Env(v, now, BindValues(ConditionBinds(c)), regex), 1);
      }
    } else if !AgeSettled(v.relation.GetOr(BASELINE).followedAt, now) {
      UnsettledAgeDisagrees(FollowAgeDays, v.relation.GetOr(BASELINE).followedAt.value, v, now, regex);
    } else {
      UnsettledAgeDisagrees(AccountAgeDays, v.user.kickCreatedAt, v, now, regex);
    }
  }

  function AgeIs(t: ConditionTarget, days: int): Condition
    requires I64_MIN <= days <= I64_MAX
  {
    Condition(t, Eq, Num(Integer(days)), None)
  }

  predicate AgeStored(t: ConditionTarget, ts: Time, v: Viewer) {
    && (t == FollowAgeDays || t == AccountAgeDays)
    && (t == FollowAgeDays ==> v.relation.GetOr(BASELINE).followedAt == Some(ts))
    && (t == AccountAgeDays ==> v.user.kickCreatedAt == ts)
  }

  lemma ClauseComparesFloors(t: ConditionTarget, ts: Time, days: int, v: Viewer, now: Time, regex: RegexEngine)
    requires AgeStored(t, ts, v) && I64_MIN <= days <= I64_MAX
    ensures var c := AgeIs(t, days);
            Eval(ConditionSql(c, 1), Env(v, now, BindValues(ConditionBinds(c)), regex)) == TRUE
            <==> (now - ts) / DAY == days
  {
    var c := AgeIs(t, days);
    var env := Env(v, now, BindValues(ConditionBinds(c)), regex);
    assert Eval(TargetExpr(t), env) == VInt((now - ts) / DAY);
    assert env.params[0] == BindValue(ConditionBinds(c)[0]) == VInt(days);
    assert Eval(Param(1), env) == env.params[0];
    assert ConditionSql(c, 1) == Compare(CmpEq, TargetExpr(t), Param(1));
  }

  /** An age in the future of a broken number of days: `eq` its truncated value tells them apart. */
  lemma UnsettledAgeDisagrees(t: ConditionTarget, ts: Time, v: Viewer, now: Time, regex: RegexEngine)
    requires t == FollowAgeDays ==> v.relation.GetOr(BASELINE).followedAt == Some(ts)
    requires t == AccountAgeDays ==> v.user.kickCreatedAt == ts
    requires t == FollowAgeDays || t == AccountAgeDays
    requires !AgeSettled(Some(ts), now) && RepresentableAge(Some(ts), now)
    ensures var c := Condition(t, Eq, Num(Integer(TruncatedDays(now - ts))), None);
            SoundCondition(c, regex) && !Agrees(c, v, now, regex)
  {
    var c := AgeIs(t, TruncatedDays(now - ts));
    RoundingAgrees(now - ts);
    ClauseComparesFloors(t, ts, TruncatedDays(now - ts), v, now, regex);
    assert EvaluateSingle(c, FactsOf(v), now, regex);
  }
  // ------------------------------------------------------------------ which operators fit

  /** Somebody could meet a condition with this target and operator, for some literal. */
  ghost predicate CanHold(t: ConditionTarget, op: ConditionOperator) {
    exists value: Value, end: Option<Value>, facts: RuleFacts, now: Time, regex: RegexEngine ::
      EvaluateSingle(Condition(t, op, value, end), facts, now, regex)
  }

  const SOME_FACTS: RuleFacts :=
    RuleFacts(false, Some(0), false, 0, 0, false, 0, false, false, 0, 0, false, Some(0), Some("a"), "a")

  const ANY_REGEX: RegexEngine := RegexEngine(s => true, (p, s) => true)

  /** A literal that the facts above meet. */
  function MetBy(op: ConditionOperator, kind: TargetKind): Value {
    match kind
    case BoolKind => Boolean(false)
    case IntKind => Num(Integer(if op.Neq? || op.Lt? then 1 else if op.Gt? then -1 else 0))
    case StringKind =>
      if op.In? then Array([Str("a")]) else if op.NotIn? then Array([Str("b")]) else Str(if op.Neq? then "b" else "a")
  }

  lemma FittingOperatorCanHold(t: ConditionTarget, op: ConditionOperator)
    requires op.ValidFor(t.Kind())
    ensures EvaluateSingle(Condition(t, op, MetBy(op, t.Kind()), Some(Num(Integer(0)))), SOME_FACTS, 0, ANY_REGEX)
  {
    assert Text.OccursAt("a", "a", 0);
  }

  lemma HeldOperatorFits(
    t: ConditionTarget, op: ConditionOperator, value: Value, end: Option<Value>, facts: RuleFacts, now: Time,
    regex: RegexEngine
  )
    requires EvaluateSingle(Condition(t, op, value, end), facts, now, regex)
    ensures op.ValidFor(t.Kind())
  {
  }

  /** The validator allows an operator on a target exactly when a condition with it could ever hold. */
  lemma OperatorsFitExactlyWhenTheyCanHold(t: ConditionTarget, op: ConditionOperator)
    ensures op.ValidFor(t.Kind()) <==> CanHold(t, op)
  {
    if op.ValidFor(t.Kind()) {
      FittingOperatorCanHold(t, op);
    }
    if CanHold(t, op) {
      var value: Value, end: Option<Value>, facts: RuleFacts, now: Time, regex: RegexEngine :|
        EvaluateSingle(Condition(t, op, value, end), facts, now, regex);
      HeldOperatorFits(t, op, value, end, facts, now, regex);
    }
  }
}

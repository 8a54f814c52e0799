/**
 * The fragment of SQL the rule compiler emits: tokens, a parser in which AND binds tighter than
 * OR, and evaluation in three-valued logic (PostgreSQL 16 manual, sections 4.1.6, 9.1 and 9.2).
 */
module SqlClause {
  import opened Wrappers
  import opened Conditions
  import opened Facts
  import LikePattern

  // -------------------------------------------------------------------- syntax

  datatype Comparison = CmpEq | CmpNe | CmpGt | CmpGe | CmpLt | CmpLe

  /** A target token stands for the whole expression text of that target. */
  datatype Token =
    | LParen | RParen | AndWord | OrWord | TrueWord | FalseWord
    | TargetText(target: ConditionTarget)
    | Placeholder(index: nat)
    | CompareSign(op: Comparison)
    | IsDistinctFromWords | IsNotNullWords | LikeWord | TildeSign
    | AnyWord | AllWord | TextArrayCast

  datatype Column =
    | CrIsFollower | CrFollowedAt | CrIsSubscriber | CrSubMonthsCumulative | CrSubStreakMonths
    | CrSubIsGift | CrGiftedSubsGiven | CrIsVip | CrIsModerator | CrKicksDonated
    | CrChatMessages30d | CrIsOg | KuKickCreatedAt | KuCountryCode | KuKickUsername

  datatype SqlValue =
    | VNull
    | VBool(b: bool)
    | VInt(n: int)
    | VTime(t: Time)
    | VText(s: string)
    | VTextArray(items: seq<string>)

  datatype Sql =
    | Literal(v: SqlValue)
    | Col(c: Column)
    | Coalesce(e: Sql, default: SqlValue)
    | FloorDaysSince(e: Sql)
    | Param(index: nat)
    | Compare(op: Comparison, l: Sql, r: Sql)
    | IsDistinctFrom(l: Sql, r: Sql)
    | IsNotNull(e: Sql)
    | LikeOp(l: Sql, r: Sql)
    | RegexOp(l: Sql, r: Sql)
    | EqualsAny(l: Sql, r: Sql)
    | DiffersFromAll(l: Sql, r: Sql)
    | AndOf(es: seq<Sql>)
    | OrOf(es: seq<Sql>)

  /** `target_expr`: flags and counts COALESCE to false and 0, ages and strings stay nullable. */
  function TargetExpr(target: ConditionTarget): Sql {
    match target
    case IsFollower => Coalesce(Col(CrIsFollower), VBool(false))
    case FollowAgeDays => FloorDaysSince(Col(CrFollowedAt))
    case IsSubscriber => Coalesce(Col(CrIsSubscriber), VBool(false))
    case SubMonthsCumulative => Coalesce(Col(CrSubMonthsCumulative), VInt(0))
    case SubStreakMonths => Coalesce(Col(CrSubStreakMonths), VInt(0))
    case IsGiftRecipient => Coalesce(Col(CrSubIsGift), VBool(false))
    case GiftedSubsGiven => Coalesce(Col(CrGiftedSubsGiven), VInt(0))
    case IsVip => Coalesce(Col(CrIsVip), VBool(false))
    case IsModerator => Coalesce(Col(CrIsModerator), VBool(false))
    case KicksDonatedToChannel => Coalesce(Col(CrKicksDonated), VInt(0))
    case ChatMessages30d => Coalesce(Col(CrChatMessages30d), VInt(0))
    case IsOg => Coalesce(Col(CrIsOg), VBool(false))
    case AccountAgeDays => FloorDaysSince(Col(KuKickCreatedAt))
    case CountryCode => Col(KuCountryCode)
    case Username => Col(KuKickUsername)
  }

  // -------------------------------------------------------------------- parsing

  datatype Reading = Reading(e: Sql, rest: seq<Token>)

  function MkAnd(es: seq<Sql>): Sql {
    if |es| == 1 then es[0] else AndOf(es)
  }

  function MkOr(es: seq<Sql>): Sql {
    if |es| == 1 then es[0] else OrOf(es)
  }

  /** disjunction ::= conjunction { OR conjunction } */
  function ParseOr(ts: seq<Token>): (r: Option<Reading>)
    ensures r.Some? ==> |r.value.rest| < |ts|
    decreases |ts|, 4
  {
    match ParseAnd(ts)
    case None => None
    case Some(Reading(e, rest)) => ParseOrTail([e], rest)
  }

  function ParseOrTail(acc: seq<Sql>, ts: seq<Token>): (r: Option<Reading>)
    ensures r.Some? ==> |r.value.rest| <= |ts|
    decreases |ts|, 5
  {
    if ts == [] || ts[0] != OrWord then Some(Reading(MkOr(acc), ts))
    else
      match ParseAnd(ts[1..])
      case None => None
      case Some(Reading(e, rest)) => ParseOrTail(acc + [e], rest)
  }

  /** conjunction ::= predicate { AND predicate } */
  function ParseAnd(ts: seq<Token>): (r: Option<Reading>)
    ensures r.Some? ==> |r.value.rest| < |ts|
    decreases |ts|, 3
  {
    match ParsePredicate(ts)
    case None => None
    case Some(Reading(e, rest)) => ParseAndTail([e], rest)
  }

  function ParseAndTail(acc: seq<Sql>, ts: seq<Token>): (r: Option<Reading>)
    ensures r.Some? ==> |r.value.rest| <= |ts|
    decreases |ts|, 4
  {
    if ts == [] || ts[0] != AndWord then Some(Reading(MkAnd(acc), ts))
    else
      match ParsePredicate(ts[1..])
      case None => None
      case Some(Reading(e, rest)) => ParseAndTail(acc + [e], rest)
  }

  /** predicate ::= primary [ operator primary | IS NOT NULL | sign ANY/ALL (array) ] */
  function ParsePredicate(ts: seq<Token>): (r: Option<Reading>)
    ensures r.Some? ==> |r.value.rest| < |ts|
    decreases |ts|, 2
  {
    match ParsePrimary(ts)
    case None => None
    case Some(Reading(l, rest)) =>
      if rest == [] then Some(Reading(l, rest))
      else
        match rest[0]
        case IsNotNullWords => Some(Reading(IsNotNull(l), rest[1..]))
        case CompareSign(op) =>
          if |rest| > 1 && (rest[1] == AnyWord || rest[1] == AllWord) then
            ParseArrayOperand(l, op, rest[1], rest[2..])
          else
            (match ParsePrimary(rest[1..])
             case None => None
             case Some(Reading(r, rest')) => Some(Reading(Compare(op, l, r), rest')))
        case IsDistinctFromWords =>
          (match ParsePrimary(rest[1..])
           case None => None
           case Some(Reading(r, rest')) => Some(Reading(IsDistinctFrom(l, r), rest')))
        case LikeWord =>
          (match ParsePrimary(rest[1..])
           case None => None
           case Some(Reading(r, rest')) => Some(Reading(LikeOp(l, r), rest')))
        case TildeSign =>
          (match ParsePrimary(rest[1..])
           case None => None
           case Some(Reading(r, rest')) => Some(Reading(RegexOp(l, r), rest')))
        case _ => Some(Reading(l, rest))
  }

  /** `= ANY(param::text[])` or `<> ALL(param::text[])`, after the quantifier word. */
  function ParseArrayOperand(l: Sql, op: Comparison, quantifier: Token, ts: seq<Token>): (r: Option<Reading>)
    ensures r.Some? ==> |r.value.rest| < |ts|
  {
    if |ts| < 4 || ts[0] != LParen || !ts[1].Placeholder? || ts[2] != TextArrayCast || ts[3] != RParen then None
    else if op == CmpEq && quantifier == AnyWord then Some(Reading(EqualsAny(l, Param(ts[1].index)), ts[4..]))
    else if op == CmpNe && quantifier == AllWord then Some(Reading(DiffersFromAll(l, Param(ts[1].index)), ts[4..]))
    else None
  }

  /** primary ::= ( disjunction ) | TRUE | FALSE | target | $n */
  function ParsePrimary(ts: seq<Token>): (r: Option<Reading>)
    ensures r.Some? ==> |r.value.rest| < |ts|
    decreases |ts|, 1
  {
    if ts == [] then None
    else
      match ts[0]
      case TrueWord => Some(Reading(Literal(VBool(true)), ts[1..]))
      case FalseWord => Some(Reading(Literal(VBool(false)), ts[1..]))
      case TargetText(t) => Some(Reading(TargetExpr(t), ts[1..]))
      case Placeholder(i) => Some(Reading(Param(i), ts[1..]))
      case LParen =>
        (match ParseOr(ts[1..])
         case None => None
         case Some(Reading(e, rest)) =>
           if rest != [] && rest[0] == RParen then Some(Reading(e, rest[1..])) else None)
      case _ => None
  }

  /** The whole text is one expression. */
  function ParseClause(ts: seq<Token>): Option<Sql> {
    match ParseOr(ts)
    case None => None
    case Some(Reading(e, rest)) => if rest == [] then Some(e) else None
  }

  // ----------------------------------------------------------------- evaluation

  /** One joined row, the transaction's `now()`, and the bound parameters ($1 first). */
  datatype Env = Env(viewer: Viewer, now: Time, params: seq<SqlValue>, regex: RegexEngine)

  function OptTime(t: Option<Time>): SqlValue {
    if t.Some? then VTime(t.value) else VNull
  }

  /** LEFT JOIN: every `cr` column of an unmatched row is NULL. */
  function ColumnValue(c: Column, v: Viewer): SqlValue {
    match c
    case KuKickCreatedAt => VTime(v.user.kickCreatedAt)
    case KuCountryCode => if v.user.countryCode.Some? then VText(v.user.countryCode.value) else VNull
    case KuKickUsername => VText(v.user.kickUsername)
    case _ =>
      if v.relation.None? then VNull
      else
        var r := v.relation.value;
        match c
        case CrIsFollower => VBool(r.isFollower)
        case CrFollowedAt => OptTime(r.followedAt)
        case CrIsSubscriber => VBool(r.isSubscriber)
        case CrSubMonthsCumulative => VInt(r.subMonthsCumulative)
        case CrSubStreakMonths => VInt(r.subStreakMonths)
        case CrSubIsGift => VBool(r.subIsGift)
        case CrGiftedSubsGiven => VInt(r.giftedSubsGiven)
        case CrIsVip => VBool(r.isVip)
        case CrIsModerator => VBool(r.isModerator)
        case CrKicksDonated => VInt(r.kicksDonated)
        case CrChatMessages30d => VInt(r.chatMessages30d)
        case _ => VBool(r.isOg)
  }

  function CompareValues(op: Comparison, l: SqlValue, r: SqlValue): SqlValue {
    match (l, r)
    case (VInt(a), VInt(b)) =>
      VBool(match op
            case CmpEq => a == b
            case CmpNe => a != b
            case CmpGt => a > b
            case CmpGe => a >= b
            case CmpLt => a < b
            case CmpLe => a <= b)
    case (VBool(a), VBool(b)) => if op == CmpEq then VBool(a == b) else if op == CmpNe then VBool(a != b) else VNull
    case (VText(a), VText(b)) => if op == CmpEq then VBool(a == b) else if op == CmpNe then VBool(a != b) else VNull
    case _ => VNull
  }

  const TRUE: SqlValue := VBool(true)
  const FALSE: SqlValue := VBool(false)

  function Eval(e: Sql, env: Env): SqlValue {
    match e
    case Literal(v) => v
    case Col(c) => ColumnValue(c, env.viewer)
    case Coalesce(e, default) => var v := Eval(e, env); if v == VNull then default else v
    case FloorDaysSince(e) =>
      var v := Eval(e, env);
      if v.VTime? then VInt((env.now - v.t) / DAY) else VNull
    case Param(i) => if 1 <= i <= |env.params| then env.params[i - 1] else VNull
    case Compare(op, l, r) => CompareValues(op, Eval(l, env), Eval(r, env))
    case IsDistinctFrom(l, r) => VBool(Eval(l, env) != Eval(r, env))
    case IsNotNull(e) => VBool(Eval(e, env) != VNull)
    case LikeOp(l, r) =>
      var a, p := Eval(l, env), Eval(r, env);
      if a.VText? && p.VText? then VBool(LikePattern.Like(a.s, p.s)) else VNull
    case RegexOp(l, r) =>
      var a, p := Eval(l, env), Eval(r, env);
      if a.VText? && p.VText? then VBool(env.regex.matches(p.s, a.s)) else VNull
    case EqualsAny(l, r) =>
      var a, xs := Eval(l, env), Eval(r, env);
      if a.VText? && xs.VTextArray? then VBool(a.s in xs.items) else VNull
    case DiffersFromAll(l, r) =>
      var a, xs := Eval(l, env), Eval(r, env);
      if a.VText? && xs.VTextArray? then VBool(a.s !in xs.items) else VNull
    case AndOf(es) =>
      if exists i | 0 <= i < |es| :: Eval(es[i], env) == FALSE then FALSE
      else if forall i | 0 <= i < |es| :: Eval(es[i], env) == TRUE then TRUE
      else VNull
    case OrOf(es) =>
      if exists i | 0 <= i < |es| :: Eval(es[i], env) == TRUE then TRUE
      else if forall i | 0 <= i < |es| :: Eval(es[i], env) == FALSE then FALSE
      else VNull
  }

  lemma MkAndIsTrue(es: seq<Sql>, env: Env)
    requires es != []
    ensures Eval(MkAnd(es), env) == TRUE <==> forall i | 0 <= i < |es| :: Eval(es[i], env) == TRUE
  {
  }

  lemma AndOfTwoIsTrue(a: Sql, b: Sql, env: Env)
    ensures Eval(AndOf([a, b]), env) == TRUE <==> Eval(a, env) == TRUE && Eval(b, env) == TRUE
  {
    assert [a, b][0] == a && [a, b][1] == b;
  }

  /** `= ANY` and `IS NOT NULL AND <> ALL` over a bound list. */
  lemma ListOperatorsMean(e: Sql, k: nat, text: Option<string>, items: seq<string>, env: Env)
    requires 1 <= k <= |env.params| && env.params[k - 1] == VTextArray(items)
    requires Eval(e, env) == if text.Some? then VText(text.value) else VNull
    ensures Eval(EqualsAny(e, Param(k)), env) == TRUE <==> text.Some? && text.value in items
    ensures Eval(AndOf([IsNotNull(e), DiffersFromAll(e, Param(k))]), env) == TRUE
       <==> text.Some? && text.value !in items
  {
    AndOfTwoIsTrue(IsNotNull(e), DiffersFromAll(e, Param(k)), env);
  }

  /** A range over two bound integers. */
  lemma RangeMeans(e: Sql, k: nat, n: Option<int>, lo: int, hi: int, env: Env)
    requires 1 <= k < |env.params| && env.params[k - 1] == VInt(lo) && env.params[k] == VInt(hi)
    requires Eval(e, env) == if n.Some? then VInt(n.value) else VNull
    ensures Eval(AndOf([Compare(CmpGe, e, Param(k)), Compare(CmpLe, e, Param(k + 1))]), env) == TRUE
       <==> n.Some? && lo <= n.value <= hi
  {
    var low, high := Compare(CmpGe, e, Param(k)), Compare(CmpLe, e, Param(k + 1));
    AndOfTwoIsTrue(low, high, env);
    assert Eval(Param(k), env) == VInt(lo) && Eval(Param(k + 1), env) == VInt(hi);
    assert Eval(low, env) == TRUE <==> n.Some? && lo <= n.value;
    assert Eval(high, env) == TRUE <==> n.Some? && n.value <= hi;
  }

  lemma MkOrIsTrue(es: seq<Sql>, env: Env)
    requires es != []
    ensures Eval(MkOr(es), env) == TRUE <==> exists i | 0 <= i < |es| :: Eval(es[i], env) == TRUE
  {
    if |es| == 1 {
      assert MkOr(es) == es[0];
    }
  }

  // ------------------------------------------------------- what printed text parses to

  /** The text after a predicate: nothing, or a token no predicate can absorb. */
  predicate Stops(r: seq<Token>) {
    r == [] || r[0] == RParen || r[0] == AndWord || r[0] == OrWord
  }

  /** As a predicate, `ts` reads as `e` whatever stops it. */
  ghost predicate Reads(ts: seq<Token>, e: Sql) {
    forall r | Stops(r) :: ParsePredicate(ts + r) == Some(Reading(e, r))
  }

  function Prefixed(clauses: seq<seq<Token>>, sep: Token): seq<Token> {
    if clauses == [] then [] else [sep] + clauses[0] + Prefixed(clauses[1..], sep)
  }

  /** `clauses.join(sep)`. */
  function Join(clauses: seq<seq<Token>>, sep: Token): seq<Token> {
    if clauses == [] then [] else clauses[0] + Prefixed(clauses[1..], sep)
  }

  /** After a joined clause comes the next separator, or what follows the whole list. */
  lemma TailStarts(clauses: seq<seq<Token>>, sep: Token, r: seq<Token>)
    ensures var rest := Prefixed(clauses, sep) + r; rest == r || rest[0] == sep
  {
    if clauses == [] {
      assert Prefixed(clauses, sep) + r == r;
    }
  }

  lemma PrefixedFirst(clauses: seq<seq<Token>>, sep: Token, r: seq<Token>)
    requires clauses != []
    ensures Prefixed(clauses, sep) + r == [sep] + clauses[0] + (Prefixed(clauses[1..], sep) + r)
  {
  }

  lemma JoinFirst(clauses: seq<seq<Token>>, sep: Token, r: seq<Token>)
    requires clauses != []
    ensures Join(clauses, sep) + r == clauses[0] + (Prefixed(clauses[1..], sep) + r)
  {
  }

  /** Every clause reads as its expression. */
  ghost predicate AllRead(clauses: seq<seq<Token>>, es: seq<Sql>) {
    |clauses| == |es| && forall k | 0 <= k < |es| :: Reads(clauses[k], es[k])
  }

  predicate EndsAnd(r: seq<Token>) {
    Stops(r) && (r == [] || r[0] != AndWord)
  }

  predicate EndsOr(r: seq<Token>) {
    r == [] || r[0] == RParen
  }

  lemma AndTailStep(acc: seq<Sql>, clause: seq<Token>, e: Sql, rest: seq<Token>)
    requires Reads(clause, e) && Stops(rest)
    ensures ParseAndTail(acc, [AndWord] + clause + rest) == ParseAndTail(acc + [e], rest)
  {
    assert ([AndWord] + clause + rest)[1..] == clause + rest;
  }

  lemma AndTailNext(acc: seq<Sql>, clauses: seq<seq<Token>>, es: seq<Sql>, r: seq<Token>)
    requires AllRead(clauses, es) && es != [] && EndsAnd(r)
    ensures ParseAndTail(acc, Prefixed(clauses, AndWord) + r)
         == ParseAndTail(acc + [es[0]], Prefixed(clauses[1..], AndWord) + r)
  {
    PrefixedFirst(clauses, AndWord, r);
    TailStarts(clauses[1..], AndWord, r);
    AndTailStep(acc, clauses[0], es[0], Prefixed(clauses[1..], AndWord) + r);
  }

  lemma {:induction false} AndTailReads(acc: seq<Sql>, clauses: seq<seq<Token>>, es: seq<Sql>, r: seq<Token>)
    requires AllRead(clauses, es) && EndsAnd(r)
    ensures ParseAndTail(acc, Prefixed(clauses, AndWord) + r) == Some(Reading(MkAnd(acc + es), r))
    decreases |es|
  {
    if es == [] {
      assert acc + es == acc && Prefixed(clauses, AndWord) + r == r;
    } else {
      AndTailNext(acc, clauses, es, r);
      AndTailReads(acc + [es[0]], clauses[1..], es[1..], r);
      assert acc + [es[0]] + es[1..] == acc + es;
    }
  }

  lemma AndHead(clause: seq<Token>, e: Sql, rest: seq<Token>)
    requires Reads(clause, e) && Stops(rest)
    ensures ParseAnd(clause + rest) == ParseAndTail([e], rest)
  {
  }

  lemma JoinedByAndReads(clauses: seq<seq<Token>>, es: seq<Sql>, r: seq<Token>)
    requires AllRead(clauses, es) && es != [] && EndsAnd(r)
    ensures ParseAnd(Join(clauses, AndWord) + r) == Some(Reading(MkAnd(es), r))
  {
    JoinFirst(clauses, AndWord, r);
    TailStarts(clauses[1..], AndWord, r);
    AndHead(clauses[0], es[0], Prefixed(clauses[1..], AndWord) + r);
    AndTailReads([es[0]], clauses[1..], es[1..], r);
    assert [es[0]] + es[1..] == es;
  }

  lemma AloneInConjunction(ts: seq<Token>, e: Sql, r: seq<Token>)
    requires Reads(ts, e) && EndsAnd(r)
    ensures ParseAnd(ts + r) == Some(Reading(e, r))
  {
  }

  lemma OrTailStep(acc: seq<Sql>, clause: seq<Token>, e: Sql, rest: seq<Token>)
    requires Reads(clause, e) && EndsAnd(rest)
    ensures ParseOrTail(acc, [OrWord] + clause + rest) == ParseOrTail(acc + [e], rest)
  {
    assert ([OrWord] + clause + rest)[1..] == clause + rest;
    AloneInConjunction(clause, e, rest);
  }

  lemma OrTailNext(acc: seq<Sql>, clauses: seq<seq<Token>>, es: seq<Sql>, r: seq<Token>)
    requires AllRead(clauses, es) && es != [] && EndsOr(r)
    ensures ParseOrTail(acc, Prefixed(clauses, OrWord) + r)
         == ParseOrTail(acc + [es[0]], Prefixed(clauses[1..], OrWord) + r)
  {
    PrefixedFirst(clauses, OrWord, r);
    OrRestEndsAnd(clauses[1..], r);
    OrTailStep(acc, clauses[0], es[0], Prefixed(clauses[1..], OrWord) + r);
  }

  lemma {:induction false} OrTailReads(acc: seq<Sql>, clauses: seq<seq<Token>>, es: seq<Sql>, r: seq<Token>)
    requires AllRead(clauses, es) && EndsOr(r)
    ensures ParseOrTail(acc, Prefixed(clauses, OrWord) + r) == Some(Reading(MkOr(acc + es), r))
    decreases |es|
  {
    if es == [] {
      assert acc + es == acc && Prefixed(clauses, OrWord) + r == r;
    } else {
      OrTailNext(acc, clauses, es, r);
      OrTailReads(acc + [es[0]], clauses[1..], es[1..], r);
      assert acc + [es[0]] + es[1..] == acc + es;
    }
  }

  lemma OrHead(clause: seq<Token>, e: Sql, rest: seq<Token>)
    requires Reads(clause, e) && EndsAnd(rest)
    ensures ParseOr(clause + rest) == ParseOrTail([e], rest)
  {
    AloneInConjunction(clause, e, rest);
  }

  /** What follows an alternative ends its conjunction. */
  lemma OrRestEndsAnd(clauses: seq<seq<Token>>, r: seq<Token>)
    requires EndsOr(r)
    ensures EndsAnd(Prefixed(clauses, OrWord) + r)
  {
    TailStarts(clauses, OrWord, r);
  }

  lemma JoinedByOrStarts(clauses: seq<seq<Token>>, es: seq<Sql>, r: seq<Token>)
    requires AllRead(clauses, es) && es != [] && EndsOr(r)
    ensures ParseOr(Join(clauses, OrWord) + r) == ParseOrTail([es[0]], Prefixed(clauses[1..], OrWord) + r)
  {
    JoinFirst(clauses, OrWord, r);
    OrRestEndsAnd(clauses[1..], r);
    OrHead(clauses[0], es[0], Prefixed(clauses[1..], OrWord) + r);
  }

  lemma JoinedByOrReads(clauses: seq<seq<Token>>, es: seq<Sql>, r: seq<Token>)
    requires AllRead(clauses, es) && es != [] && EndsOr(r)
    ensures ParseOr(Join(clauses, OrWord) + r) == Some(Reading(MkOr(es), r))
  {
    JoinedByOrStarts(clauses, es, r);
    OrTailReads([es[0]], clauses[1..], es[1..], r);
    assert [es[0]] + es[1..] == es;
  }

  /** A predicate alone is also a whole disjunction. */
  lemma AloneInDisjunction(ts: seq<Token>, e: Sql, r: seq<Token>)
    requires ParsePredicate(ts + r) == Some(Reading(e, r))
    requires r == [] || r[0] == RParen
    ensures ParseOr(ts + r) == Some(Reading(e, r))
  {
    assert ParseAnd(ts + r) == Some(Reading(e, r));
  }

  lemma JoinOfTwo(a: seq<Token>, b: seq<Token>, sep: Token)
    ensures Join([a, b], sep) == a + [sep] + b
  {
    assert [a, b][1..] == [b];
    assert Prefixed([b], sep) == [sep] + b;
  }

  /** Parentheses turn anything that reads as a disjunction into a primary. */
  lemma ParenthesizedPrimary(body: seq<Token>, e: Sql, r: seq<Token>)
    requires ParseOr(body + [RParen] + r) == Some(Reading(e, [RParen] + r))
    ensures ParsePrimary([LParen] + body + [RParen] + r) == Some(Reading(e, r))
  {
    assert ([LParen] + body + [RParen] + r)[1..] == body + [RParen] + r;
    assert ([RParen] + r)[1..] == r;
  }

  lemma ParenthesizedReads(body: seq<Token>, e: Sql)
    requires forall r :: ParseOr(body + [RParen] + r) == Some(Reading(e, [RParen] + r))
    ensures Reads([LParen] + body + [RParen], e)
  {
    forall r | Stops(r)
      ensures ParsePredicate([LParen] + body + [RParen] + r) == Some(Reading(e, r))
    {
      ParenthesizedPrimary(body, e, r);
    }
  }

  /** Predicates joined by AND inside parentheses. */
  lemma GroupReads(clauses: seq<seq<Token>>, es: seq<Sql>)
    requires AllRead(clauses, es) && es != []
    ensures Reads([LParen] + Join(clauses, AndWord) + [RParen], MkAnd(es))
  {
    var body := Join(clauses, AndWord);
    forall r ensures ParseOr(body + [RParen] + r) == Some(Reading(MkAnd(es), [RParen] + r)) {
      assert body + [RParen] + r == body + ([RParen] + r);
      JoinedByAndReads(clauses, es, [RParen] + r);
    }
    ParenthesizedReads(body, MkAnd(es));
  }

  /** Predicates joined by OR inside parentheses. */
  lemma AlternativesRead(clauses: seq<seq<Token>>, es: seq<Sql>)
    requires AllRead(clauses, es) && es != []
    ensures Reads([LParen] + Join(clauses, OrWord) + [RParen], MkOr(es))
  {
    var body := Join(clauses, OrWord);
    forall r ensures ParseOr(body + [RParen] + r) == Some(Reading(MkOr(es), [RParen] + r)) {
      assert body + [RParen] + r == body + ([RParen] + r);
      JoinedByOrReads(clauses, es, [RParen] + r);
    }
    ParenthesizedReads(body, MkOr(es));
  }
  // ------------------------------------------------------- three-valued logic, spelled out

  /** Comparing with NULL gives NULL; two texts or two booleans compare by equality only. */
  lemma ComparisonsFollowSql(op: Comparison, a: int, b: int, s: string, t: string, x: bool, y: bool, v: SqlValue)
    ensures CompareValues(op, VNull, v) == VNull && CompareValues(op, v, VNull) == VNull
    ensures CompareValues(CmpEq, VInt(a), VInt(b)) == VBool(a == b)
    ensures CompareValues(CmpNe, VInt(a), VInt(b)) == VBool(a != b)
    ensures CompareValues(CmpGt, VInt(a), VInt(b)) == VBool(a > b)
    ensures CompareValues(CmpGe, VInt(a), VInt(b)) == VBool(a >= b)
    ensures CompareValues(CmpLt, VInt(a), VInt(b)) == VBool(a < b)
    ensures CompareValues(CmpLe, VInt(a), VInt(b)) == VBool(a <= b)
    ensures CompareValues(CmpEq, VText(s), VText(t)) == VBool(s == t)
    ensures CompareValues(CmpNe, VText(s), VText(t)) == VBool(s != t)
    ensures CompareValues(CmpEq, VBool(x), VBool(y)) == VBool(x == y)
    ensures CompareValues(CmpNe, VBool(x), VBool(y)) == VBool(x != y)
  {
  }

  predicate IsOneOf(es: seq<Sql>, env: Env, v: SqlValue) {
    exists e | e in es :: Eval(e, env) == v
  }

  /** One TRUE part decides a disjunction and one FALSE part a conjunction; without one, a NULL part makes it NULL. */
  lemma ConnectivesFollowSql(es: seq<Sql>, env: Env)
    requires forall e | e in es :: Eval(e, env) == TRUE || Eval(e, env) == FALSE || Eval(e, env) == VNull
    ensures Eval(OrOf(es), env)
         == if IsOneOf(es, env, TRUE) then TRUE else if IsOneOf(es, env, VNull) then VNull else FALSE
    ensures Eval(AndOf(es), env)
         == if IsOneOf(es, env, FALSE) then FALSE else if IsOneOf(es, env, VNull) then VNull else TRUE
  {
  }
}

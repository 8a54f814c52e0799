/**
 * The rule compiler: a rule tree becomes a WHERE clause with numbered placeholders and the list of
 * values bound to them. `BuildRuleWhere` is the compiler as written, loops and a shared bind
 * buffer; the functions say what it emits; the lemmas say what the emitted text means.
 */
module RuleSql {
  import opened Wrappers
  import opened Conditions
  import opened SqlClause
  import opened SqlBinds
  import LikePattern

  /** The bind vector every condition of a tree pushes onto. */
  class BindBuffer {
    var items: seq<Bind>

    constructor ()
      ensures items == []
    {
      items := [];
    }

    method Push(b: Bind)
      modifies this
      ensures items == old(items) + [b]
    {
      items := items + [b];
    }
  }

  // ------------------------------------------------------------- one condition

  function StringsOf(items: seq<Value>): (r: seq<string>)
    ensures forall s :: s in r <==> Str(s) in items
  {
    if items == [] then []
    else (if items[0].Str? then [items[0].s] else []) + StringsOf(items[1..])
  }

  /** `str_array`: the strings of a list literal, in order. */
  function StrArray(c: Condition): seq<string> {
    if c.value.Array? then StringsOf(c.value.items) else []
  }

  function IntOr0(v: Value): int {
    v.AsI64().GetOr(0)
  }

  function TextOf(v: Value): string {
    v.AsStr().GetOr("")
  }

  function UpperBound(c: Condition): int {
    (if c.valueEnd.Some? then c.valueEnd.value.AsI64() else None).GetOr(IntOr0(c.value))
  }

  /** The binds one condition pushes. */
  function ConditionBinds(c: Condition): seq<Bind> {
    match c.operator
    case Eq =>
      if c.value.Boolean? then [BindBool(c.value.b)]
      else if c.value.AsI64().Some? then [BindInt(IntOr0(c.value))]
      else [BindText(TextOf(c.value))]
    case Neq =>
      if c.value.AsI64().Some? then [BindInt(IntOr0(c.value))] else [BindText(TextOf(c.value))]
    case Gt | Gte | Lt | Lte => [BindInt(IntOr0(c.value))]
    case Between => [BindInt(IntOr0(c.value)), BindInt(UpperBound(c))]
    case Contains => [BindText("%" + LikePattern.EscapeLike(TextOf(c.value)) + "%")]
    case Regex => [BindText(TextOf(c.value))]
    case In | NotIn => if StrArray(c) == [] then [] else [BindTextArray(StrArray(c))]
  }

  function OrderSign(op: ConditionOperator): Comparison {
    match op
    case Gt => CmpGt
    case Gte => CmpGe
    case Lt => CmpLt
    case _ => CmpLe
  }

  /** The text one condition emits when its first placeholder is `$first`. */
  function ConditionText(c: Condition, first: nat): seq<Token> {
    var t := TargetText(c.target);
    match c.operator
    case Eq => [t, CompareSign(CmpEq), Placeholder(first)]
    case Neq =>
      if c.value.AsI64().Some? then [t, CompareSign(CmpNe), Placeholder(first)]
      else [t, IsDistinctFromWords, Placeholder(first)]
    case Gt | Gte | Lt | Lte =>
      [LParen, t, RParen, CompareSign(OrderSign(c.operator)), Placeholder(first)]
    case Between =>
      [LParen]
      + Join([[LParen, t, RParen, CompareSign(CmpGe), Placeholder(first)],
              [LParen, t, RParen, CompareSign(CmpLe), Placeholder(first + 1)]], AndWord)
      + [RParen]
    case Contains => [t, LikeWord, Placeholder(first)]
    case Regex => [t, TildeSign, Placeholder(first)]
    case In =>
      if StrArray(c) == [] then [FalseWord]
      else [t, CompareSign(CmpEq), AnyWord, LParen, Placeholder(first), TextArrayCast, RParen]
    case NotIn =>
      if StrArray(c) == [] then [TrueWord]
      else
        [LParen]
        + Join([[t, IsNotNullWords],
                [t, CompareSign(CmpNe), AllWord, LParen, Placeholder(first), TextArrayCast, RParen]], AndWord)
        + [RParen]
  }

  /** What that text is meant to say. */
  function ConditionSql(c: Condition, first: nat): Sql {
    var e := TargetExpr(c.target);
    var p := Param(first);
    match c.operator
    case Eq => Compare(CmpEq, e, p)
    case Neq => if c.value.AsI64().Some? then Compare(CmpNe, e, p) else IsDistinctFrom(e, p)
    case Gt | Gte | Lt | Lte => Compare(OrderSign(c.operator), e, p)
    case Between => AndOf([Compare(CmpGe, e, p), Compare(CmpLe, e, Param(first + 1))])
    case Contains => LikeOp(e, p)
    case Regex => RegexOp(e, p)
    case In => if StrArray(c) == [] then Literal(FALSE) else EqualsAny(e, p)
    case NotIn =>
      if StrArray(c) == [] then Literal(TRUE) else AndOf([IsNotNull(e), DiffersFromAll(e, p)])
  }

  /** `build_condition`. */
  method BuildCondition(c: Condition, offset: nat, binds: BindBuffer) returns (text: seq<Token>)
    modifies binds
    ensures text == ConditionText(c, offset + |old(binds.items)| + 1)
    ensures binds.items == old(binds.items) + ConditionBinds(c)
  {
    var t := TargetText(c.target);
    var i := offset + |binds.items| + 1;
    match c.operator {
      case Eq =>
        if c.value.AsBool().Some? {
          binds.Push(BindBool(c.value.AsBool().value));
        } else if c.value.AsI64().Some? {
          binds.Push(BindInt(c.value.AsI64().value));
        } else {
          binds.Push(BindText(c.value.AsStr().GetOr("")));
        }
        return [t, CompareSign(CmpEq), Placeholder(i)];
      case Neq =>
        if c.value.AsI64().Some? {
          binds.Push(BindInt(c.value.AsI64().value));
          return [t, CompareSign(CmpNe), Placeholder(i)];
        }
        binds.Push(BindText(c.value.AsStr().GetOr("")));
        return [t, IsDistinctFromWords, Placeholder(i)];
      case Gt | Gte | Lt | Lte =>
        binds.Push(BindInt(c.value.AsI64().GetOr(0)));
        return [LParen, t, RParen, CompareSign(OrderSign(c.operator)), Placeholder(i)];
      case Between =>
        var lo := c.value.AsI64().GetOr(0);
        var end := if c.valueEnd.Some? then c.valueEnd.value.AsI64() else None;
        binds.Push(BindInt(lo));
        var j := offset + |binds.items| + 1;
        binds.Push(BindInt(end.GetOr(lo)));
        text := [LParen, LParen, t, RParen, CompareSign(CmpGe), Placeholder(i), AndWord,
                 LParen, t, RParen, CompareSign(CmpLe), Placeholder(j), RParen];
        JoinOfTwo([LParen, t, RParen, CompareSign(CmpGe), Placeholder(i)],
                  [LParen, t, RParen, CompareSign(CmpLe), Placeholder(j)], AndWord);
      case Contains =>
        binds.Push(BindText("%" + LikePattern.EscapeLike(c.value.AsStr().GetOr("")) + "%"));
        return [t, LikeWord, Placeholder(i)];
      case Regex =>
        binds.Push(BindText(c.value.AsStr().GetOr("")));
        return [t, TildeSign, Placeholder(i)];
      case In =>
        var items := StrArray(c);
        if items == [] {
          return [FalseWord];
        }
        binds.Push(BindTextArray(items));
        return [t, CompareSign(CmpEq), AnyWord, LParen, Placeholder(i), TextArrayCast, RParen];
      case NotIn =>
        var items := StrArray(c);
        if items == [] {
          return [TrueWord];
        }
        binds.Push(BindTextArray(items));
        text := [LParen, t, IsNotNullWords, AndWord,
                 t, CompareSign(CmpNe), AllWord, LParen, Placeholder(i), TextArrayCast, RParen, RParen];
        JoinOfTwo([t, IsNotNullWords],
                  [t, CompareSign(CmpNe), AllWord, LParen, Placeholder(i), TextArrayCast, RParen], AndWord);
    }
  }

  // ------------------------------------------------------------- groups and trees

  /** The shape of a clause: conditions, fixed words, and parenthesised lists joined by a connective. */
  datatype Clause =
    | Single(c: Condition)
    | Fixed(truth: bool)
    | Joined(parts: seq<Clause>, conjunctive: bool)

  function Singles(conditions: seq<Condition>): (parts: seq<Clause>)
    ensures |parts| == |conditions| && forall i | 0 <= i < |parts| :: parts[i] == Single(conditions[i])
  {
    seq(|conditions|, i requires 0 <= i < |conditions| => Single(conditions[i]))
  }

  function GroupClause(g: Group): Clause {
    if g.conditions == [] then Fixed(false)
    else Joined(Singles(g.conditions), true)
  }

  /** The whole rule: an OR of ANDs. */
  function WhereClause(tree: RuleTree): Clause {
    if tree.grantOnAnyRelation then Fixed(true)
    else if tree.groups == [] then Fixed(false)
    else Joined(seq(|tree.groups|, i requires 0 <= i < |tree.groups| => GroupClause(tree.groups[i])), false)
  }

  function Binds(p: Clause): seq<Bind>
    decreases p, 0
  {
    match p
    case Single(c) => ConditionBinds(c)
    case Fixed(_) => []
    case Joined(parts, _) => BindsUpTo(parts, |parts|)
  }

  /** The binds of the first `k` parts. */
  function BindsUpTo(parts: seq<Clause>, k: nat): seq<Bind>
    requires k <= |parts|
    decreases parts, k
  {
    if k == 0 then [] else BindsUpTo(parts, k - 1) + Binds(parts[k - 1])
  }

  /** Part `k` numbers its placeholders after the binds of the parts before it. */
  function Start(parts: seq<Clause>, first: nat, k: nat): nat
    requires k <= |parts|
  {
    first + |BindsUpTo(parts, k)|
  }

  function Connective(conjunctive: bool): Token {
    if conjunctive then AndWord else OrWord
  }

  /** The text of a clause whose first placeholder is `$first`. */
  function ClauseText(p: Clause, first: nat): seq<Token>
    decreases p, 1
  {
    match p
    case Single(c) => ConditionText(c, first)
    case Fixed(truth) => [if truth then TrueWord else FalseWord]
    case Joined(parts, conjunctive) =>
      [LParen] + Join(ClauseTexts(parts, first, |parts|), Connective(conjunctive)) + [RParen]
  }

  /** The texts of the first `k` parts. */
  function ClauseTexts(parts: seq<Clause>, first: nat, k: nat): (texts: seq<seq<Token>>)
    requires k <= |parts|
    ensures |texts| == k
    decreases parts, 0, k
  {
    if k == 0 then []
    else ClauseTexts(parts, first, k - 1) + [ClauseText(parts[k - 1], Start(parts, first, k - 1))]
  }

  /** What that text is meant to say. */
  function ClauseSql(p: Clause, first: nat): Sql
    decreases p, 1
  {
    match p
    case Single(c) => ConditionSql(c, first)
    case Fixed(truth) => Literal(VBool(truth))
    case Joined(parts, conjunctive) =>
      var es := ClauseSqls(parts, first, |parts|);
      if conjunctive then MkAnd(es) else MkOr(es)
  }

  /** The expressions of the first `k` parts. */
  function ClauseSqls(parts: seq<Clause>, first: nat, k: nat): (es: seq<Sql>)
    requires k <= |parts|
    ensures |es| == k
    decreases parts, 0, k
  {
    if k == 0 then []
    else ClauseSqls(parts, first, k - 1) + [ClauseSql(parts[k - 1], Start(parts, first, k - 1))]
  }

  /** `build_rule_where`. */
  method BuildRuleWhere(tree: RuleTree, offset: nat) returns (text: seq<Token>, binds: seq<Bind>)
    ensures text == ClauseText(WhereClause(tree), offset + 1)
    ensures binds == Binds(WhereClause(tree))
  {
    if tree.grantOnAnyRelation {
      return [TrueWord], [];
    }
    if tree.groups == [] {
      return [FalseWord], [];
    }
    var buffer := new BindBuffer();
    var groupClauses: seq<seq<Token>> := [];
    ghost var parts := WhereClause(tree).parts;
    for gi := 0 to |tree.groups|
      invariant fresh(buffer)
      invariant groupClauses == ClauseTexts(parts, offset + 1, gi)
      invariant buffer.items == BindsUpTo(parts, gi)
    {
      assert Start(parts, offset + 1, gi) == offset + |buffer.items| + 1;
      var clause := BuildGroup(tree.groups[gi], offset, buffer);
      groupClauses := groupClauses + [clause];
    }
    return [LParen] + Join(groupClauses, OrWord) + [RParen], buffer.items;
  }

  /** One more part: its text and its binds come after those of the parts before it. */
  lemma PartsStep(parts: seq<Clause>, first: nat, k: nat, start: seq<Bind>)
    requires k < |parts|
    ensures ClauseTexts(parts, first, k + 1)
         == ClauseTexts(parts, first, k) + [ClauseText(parts[k], first + |BindsUpTo(parts, k)|)]
    ensures start + BindsUpTo(parts, k + 1) == start + BindsUpTo(parts, k) + Binds(parts[k])
  {
  }

  /** One more condition, built at the next free placeholder. */
  lemma ConditionStep(conditions: seq<Condition>, offset: nat, k: nat, start: seq<Bind>, before: seq<Bind>)
    requires k < |conditions| && before == start + BindsUpTo(Singles(conditions), k)
    ensures ClauseTexts(Singles(conditions), offset + |start| + 1, k + 1)
         == ClauseTexts(Singles(conditions), offset + |start| + 1, k)
            + [ConditionText(conditions[k], offset + |before| + 1)]
    ensures start + BindsUpTo(Singles(conditions), k + 1) == before + ConditionBinds(conditions[k])
  {
    PartsStep(Singles(conditions), offset + |start| + 1, k, start);
  }

  /** The inner loop: the conditions of one group, pushing onto the shared binds. */
  method BuildConditions(conditions: seq<Condition>, offset: nat, buffer: BindBuffer) returns (clauses: seq<seq<Token>>)
    modifies buffer
    ensures clauses == ClauseTexts(Singles(conditions), offset + |old(buffer.items)| + 1, |conditions|)
    ensures buffer.items == old(buffer.items) + BindsUpTo(Singles(conditions), |conditions|)
  {
    clauses := [];
    for ci := 0 to |conditions|
      invariant clauses == ClauseTexts(Singles(conditions), offset + |old(buffer.items)| + 1, ci)
      invariant buffer.items == old(buffer.items) + BindsUpTo(Singles(conditions), ci)
    {
      ConditionStep(conditions, offset, ci, old(buffer.items), buffer.items);
      var c := BuildCondition(conditions[ci], offset, buffer);
      clauses := clauses + [c];
    }
  }

  /** The body of the outer loop. */
  method BuildGroup(g: Group, offset: nat, buffer: BindBuffer) returns (clause: seq<Token>)
    modifies buffer
    ensures clause == ClauseText(GroupClause(g), offset + |old(buffer.items)| + 1)
    ensures buffer.items == old(buffer.items) + Binds(GroupClause(g))
  {
    if g.conditions == [] {
      return [FalseWord];
    }
    var conditionClauses := BuildConditions(g.conditions, offset, buffer);
    return [LParen] + Join(conditionClauses, AndWord) + [RParen];
  }

  // --------------------------------------------------- the text parses back to the tree

  /** `target op $n` with any of the plain operators. */
  lemma PlainComparisonReads(t: ConditionTarget, sign: Token, i: nat, e: Sql)
    requires match sign
             case CompareSign(op) => e == Compare(op, TargetExpr(t), Param(i))
             case IsDistinctFromWords => e == IsDistinctFrom(TargetExpr(t), Param(i))
             case LikeWord => e == LikeOp(TargetExpr(t), Param(i))
             case TildeSign => e == RegexOp(TargetExpr(t), Param(i))
             case _ => false
    ensures Reads([TargetText(t), sign, Placeholder(i)], e)
  {
    var ts := [TargetText(t), sign, Placeholder(i)];
    forall r | Stops(r) ensures ParsePredicate(ts + r) == Some(Reading(e, r)) {
      assert (ts + r)[1..] == [sign, Placeholder(i)] + r;
      assert ([sign, Placeholder(i)] + r)[1..] == [Placeholder(i)] + r;
      assert ([Placeholder(i)] + r)[1..] == r;
    }
  }

  lemma WordReads(word: Token)
    requires word == TrueWord || word == FalseWord
    ensures Reads([word], Literal(VBool(word == TrueWord)))
  {
    forall r | Stops(r)
      ensures ParsePredicate([word] + r) == Some(Reading(Literal(VBool(word == TrueWord)), r))
    {
      assert ([word] + r)[1..] == r;
    }
  }

  lemma TargetAlone(t: ConditionTarget, r: seq<Token>)
    ensures ParsePrimary([TargetText(t)] + r) == Some(Reading(TargetExpr(t), r))
    ensures Stops(r) ==> ParsePredicate([TargetText(t)] + r) == Some(Reading(TargetExpr(t), r))
  {
    assert ([TargetText(t)] + r)[1..] == r;
  }

  /** `(target) op $n`. */
  lemma TargetInParentheses(t: ConditionTarget, tail: seq<Token>)
    ensures ParsePrimary([LParen, TargetText(t), RParen] + tail) == Some(Reading(TargetExpr(t), tail))
  {
    TargetAlone(t, [RParen] + tail);
    AloneInDisjunction([TargetText(t)], TargetExpr(t), [RParen] + tail);
    assert [TargetText(t)] + [RParen] + tail == [TargetText(t)] + ([RParen] + tail);
    ParenthesizedPrimary([TargetText(t)], TargetExpr(t), tail);
    assert [LParen, TargetText(t), RParen] + tail == [LParen] + [TargetText(t)] + [RParen] + tail;
  }

  lemma OrderComparisonBefore(t: ConditionTarget, op: Comparison, i: nat, r: seq<Token>)
    requires Stops(r)
    ensures ParsePredicate([LParen, TargetText(t), RParen, CompareSign(op), Placeholder(i)] + r)
         == Some(Reading(Compare(op, TargetExpr(t), Param(i)), r))
  {
    var tail := [CompareSign(op), Placeholder(i)] + r;
    TargetInParentheses(t, tail);
    assert [LParen, TargetText(t), RParen, CompareSign(op), Placeholder(i)] + r
        == [LParen, TargetText(t), RParen] + tail;
    assert tail[1..] == [Placeholder(i)] + r;
    assert ([Placeholder(i)] + r)[1..] == r;
  }

  lemma OrderComparisonReads(t: ConditionTarget, op: Comparison, i: nat)
    ensures Reads([LParen, TargetText(t), RParen, CompareSign(op), Placeholder(i)],
                  Compare(op, TargetExpr(t), Param(i)))
  {
    var ts := [LParen, TargetText(t), RParen, CompareSign(op), Placeholder(i)];
    forall r | Stops(r)
      ensures ParsePredicate(ts + r) == Some(Reading(Compare(op, TargetExpr(t), Param(i)), r))
    {
      OrderComparisonBefore(t, op, i, r);
    }
  }

  lemma NotNullReads(t: ConditionTarget)
    ensures Reads([TargetText(t), IsNotNullWords], IsNotNull(TargetExpr(t)))
  {
    var ts := [TargetText(t), IsNotNullWords];
    forall r | Stops(r) ensures ParsePredicate(ts + r) == Some(Reading(IsNotNull(TargetExpr(t)), r)) {
      assert (ts + r)[1..] == [IsNotNullWords] + r;
      assert ([IsNotNullWords] + r)[1..] == r;
    }
  }

  /** `target = ANY($n::text[])` and `target <> ALL($n::text[])`. */
  lemma ArrayComparisonReads(t: ConditionTarget, op: Comparison, quantifier: Token, i: nat)
    requires (op == CmpEq && quantifier == AnyWord) || (op == CmpNe && quantifier == AllWord)
    ensures Reads([TargetText(t), CompareSign(op), quantifier, LParen, Placeholder(i), TextArrayCast, RParen],
                  if op == CmpEq then EqualsAny(TargetExpr(t), Param(i)) else DiffersFromAll(TargetExpr(t), Param(i)))
  {
    var e := if op == CmpEq then EqualsAny(TargetExpr(t), Param(i)) else DiffersFromAll(TargetExpr(t), Param(i));
    var operand := [LParen, Placeholder(i), TextArrayCast, RParen];
    var ts := [TargetText(t), CompareSign(op), quantifier, LParen, Placeholder(i), TextArrayCast, RParen];
    forall r | Stops(r) ensures ParsePredicate(ts + r) == Some(Reading(e, r)) {
      var rest := [CompareSign(op), quantifier] + (operand + r);
      assert ts + r == [TargetText(t)] + rest;
      TargetAlone(t, rest);
      assert rest[2..] == operand + r;
      assert (operand + r)[4..] == r;
    }
  }

  /** Two predicates joined by AND inside parentheses read as their conjunction. */
  lemma ParenthesizedPairReads(a: seq<Token>, ea: Sql, b: seq<Token>, eb: Sql)
    requires Reads(a, ea) && Reads(b, eb)
    ensures Reads([LParen] + Join([a, b], AndWord) + [RParen], AndOf([ea, eb]))
  {
    GroupReads([a, b], [ea, eb]);
  }

  lemma BetweenReads(t: ConditionTarget, first: nat)
    ensures Reads(
              [LParen]
              + Join([[LParen, TargetText(t), RParen, CompareSign(CmpGe), Placeholder(first)],
                      [LParen, TargetText(t), RParen, CompareSign(CmpLe), Placeholder(first + 1)]], AndWord)
              + [RParen],
              AndOf([Compare(CmpGe, TargetExpr(t), Param(first)), Compare(CmpLe, TargetExpr(t), Param(first + 1))]))
  {
    OrderComparisonReads(t, CmpGe, first);
    OrderComparisonReads(t, CmpLe, first + 1);
    ParenthesizedPairReads(
      [LParen, TargetText(t), RParen, CompareSign(CmpGe), Placeholder(first)],
      Compare(CmpGe, TargetExpr(t), Param(first)),
      [LParen, TargetText(t), RParen, CompareSign(CmpLe), Placeholder(first + 1)],
      Compare(CmpLe, TargetExpr(t), Param(first + 1)));
  }

  lemma NotInReads(t: ConditionTarget, first: nat)
    ensures Reads(
              [LParen]
              + Join([[TargetText(t), IsNotNullWords],
                      [TargetText(t), CompareSign(CmpNe), AllWord, LParen, Placeholder(first), TextArrayCast, RParen]],
                     AndWord)
              + [RParen],
              AndOf([IsNotNull(TargetExpr(t)), DiffersFromAll(TargetExpr(t), Param(first))]))
  {
    NotNullReads(t);
    ArrayComparisonReads(t, CmpNe, AllWord, first);
    ParenthesizedPairReads(
      [TargetText(t), IsNotNullWords], IsNotNull(TargetExpr(t)),
      [TargetText(t), CompareSign(CmpNe), AllWord, LParen, Placeholder(first), TextArrayCast, RParen],
      DiffersFromAll(TargetExpr(t), Param(first)));
  }

  lemma ConditionReads(c: Condition, first: nat)
    ensures Reads(ConditionText(c, first), ConditionSql(c, first))
  {
    match c.operator {
      case Eq => PlainComparisonReads(c.target, CompareSign(CmpEq), first, ConditionSql(c, first));
      case Neq =>
        PlainComparisonReads(c.target, if c.value.AsI64().Some? then CompareSign(CmpNe) else IsDistinctFromWords,
                             first, ConditionSql(c, first));
      case Gt | Gte | Lt | Lte => OrderComparisonReads(c.target, OrderSign(c.operator), first);
      case Between => BetweenReads(c.target, first);
      case Contains => PlainComparisonReads(c.target, LikeWord, first, ConditionSql(c, first));
      case Regex => PlainComparisonReads(c.target, TildeSign, first, ConditionSql(c, first));
      case In =>
        WordReads(FalseWord);
        ArrayComparisonReads(c.target, CmpEq, AnyWord, first);
      case NotIn =>
        WordReads(TrueWord);
        NotInReads(c.target, first);
    }
  }

  /** No empty parenthesised list anywhere: what the compiler builds. */
  predicate Solid(p: Clause) {
    p.Joined? ==> p.parts != [] && forall k | 0 <= k < |p.parts| :: Solid(p.parts[k])
  }

  lemma WhereClauseIsSolid(tree: RuleTree)
    ensures Solid(WhereClause(tree))
  {
    forall g: Group ensures Solid(GroupClause(g)) {
    }
  }

  lemma {:induction false} ClauseReads(p: Clause, first: nat)
    requires Solid(p)
    ensures Reads(ClauseText(p, first), ClauseSql(p, first))
    decreases p, 0
  {
    match p {
      case Single(c) => ConditionReads(c, first);
      case Fixed(truth) => WordReads(if truth then TrueWord else FalseWord);
      case Joined(parts, conjunctive) =>
        var texts, es := ClauseTexts(parts, first, |parts|), ClauseSqls(parts, first, |parts|);
        PartsRead(parts, first, |parts|);
        if conjunctive {
          GroupReads(texts, es);
        } else {
          AlternativesRead(texts, es);
        }
    }
  }

  lemma {:induction false} PartsRead(parts: seq<Clause>, first: nat, k: nat)
    requires k <= |parts| && forall i | 0 <= i < |parts| :: Solid(parts[i])
    ensures forall i | 0 <= i < k :: Reads(ClauseTexts(parts, first, k)[i], ClauseSqls(parts, first, k)[i])
    decreases parts, k
  {
    if k > 0 {
      PartsRead(parts, first, k - 1);
      ClauseReads(parts[k - 1], Start(parts, first, k - 1));
    }
  }

  /** Parsed with AND binding tighter than OR, the emitted text is the tree's OR of ANDs. */
  lemma WhereTextParses(tree: RuleTree, first: nat)
    ensures ParseClause(ClauseText(WhereClause(tree), first)) == Some(ClauseSql(WhereClause(tree), first))
  {
    var text, e := ClauseText(WhereClause(tree), first), ClauseSql(WhereClause(tree), first);
    WhereClauseIsSolid(tree);
    ClauseReads(WhereClause(tree), first);
    assert ParsePredicate(text + []) == Some(Reading(e, []));
    AloneInDisjunction(text, e, []);
    assert text + [] == text;
  }

  // ------------------------------------------------------- the placeholders are consecutive

  lemma PlainTextPlaceholder(t: ConditionTarget, sign: Token, i: nat)
    requires !sign.Placeholder?
    ensures Placeholders([TargetText(t), sign, Placeholder(i)]) == [i]
  {
    OnePlaceholder([TargetText(t), sign, Placeholder(i)], 2);
  }

  lemma OrderTextPlaceholder(t: ConditionTarget, op: Comparison, i: nat)
    ensures Placeholders([LParen, TargetText(t), RParen, CompareSign(op), Placeholder(i)]) == [i]
  {
    OnePlaceholder([LParen, TargetText(t), RParen, CompareSign(op), Placeholder(i)], 4);
  }

  lemma ArrayTextPlaceholder(t: ConditionTarget, op: Comparison, quantifier: Token, i: nat)
    requires !quantifier.Placeholder?
    ensures Placeholders([TargetText(t), CompareSign(op), quantifier, LParen, Placeholder(i), TextArrayCast, RParen])
         == [i]
  {
    OnePlaceholder([TargetText(t), CompareSign(op), quantifier, LParen, Placeholder(i), TextArrayCast, RParen], 4);
  }

  lemma BetweenPlaceholders(t: ConditionTarget, i: nat)
    ensures Placeholders(
              [LParen]
              + Join([[LParen, TargetText(t), RParen, CompareSign(CmpGe), Placeholder(i)],
                      [LParen, TargetText(t), RParen, CompareSign(CmpLe), Placeholder(i + 1)]], AndWord)
              + [RParen]) == [i, i + 1]
  {
    OrderTextPlaceholder(t, CmpGe, i);
    OrderTextPlaceholder(t, CmpLe, i + 1);
    PairPlaceholders([LParen, TargetText(t), RParen, CompareSign(CmpGe), Placeholder(i)],
                     [LParen, TargetText(t), RParen, CompareSign(CmpLe), Placeholder(i + 1)]);
  }

  lemma NotInPlaceholders(t: ConditionTarget, i: nat)
    ensures Placeholders(
              [LParen]
              + Join([[TargetText(t), IsNotNullWords],
                      [TargetText(t), CompareSign(CmpNe), AllWord, LParen, Placeholder(i), TextArrayCast, RParen]],
                     AndWord)
              + [RParen]) == [i]
  {
    PlaceholderFree([TargetText(t), IsNotNullWords]);
    ArrayTextPlaceholder(t, CmpNe, AllWord, i);
    PairPlaceholders([TargetText(t), IsNotNullWords],
                     [TargetText(t), CompareSign(CmpNe), AllWord, LParen, Placeholder(i), TextArrayCast, RParen]);
  }

  lemma ConditionPlaceholders(c: Condition, first: nat)
    ensures Placeholders(ConditionText(c, first)) == Range(first, |ConditionBinds(c)|)
  {
    var text := ConditionText(c, first);
    if |text| == 1 {
      PlaceholderFree(text);
    } else {
      assert Range(first, 1) == [first] && Range(first, 2) == [first, first + 1];
      match c.operator {
        case Eq => PlainTextPlaceholder(c.target, CompareSign(CmpEq), first);
        case Neq =>
          PlainTextPlaceholder(c.target, CompareSign(CmpNe), first);
          PlainTextPlaceholder(c.target, IsDistinctFromWords, first);
        case Gt | Gte | Lt | Lte => OrderTextPlaceholder(c.target, OrderSign(c.operator), first);
        case Between => BetweenPlaceholders(c.target, first);
        case Contains => PlainTextPlaceholder(c.target, LikeWord, first);
        case Regex => PlainTextPlaceholder(c.target, TildeSign, first);
        case In => ArrayTextPlaceholder(c.target, CmpEq, AnyWord, first);
        case NotIn => NotInPlaceholders(c.target, first);
      }
    }
  }

  lemma {:induction false} ClausePlaceholders(p: Clause, first: nat)
    requires Solid(p)
    ensures Placeholders(ClauseText(p, first)) == Range(first, |Binds(p)|)
    decreases p, 0
  {
    match p {
      case Single(c) => ConditionPlaceholders(c, first);
      case Fixed(_) => PlaceholderFree(ClauseText(p, first));
      case Joined(parts, conjunctive) =>
        PlaceholdersOfParenthesizedJoin(ClauseTexts(parts, first, |parts|), Connective(conjunctive));
        PartsPlaceholders(parts, first, |parts|);
    }
  }

  lemma {:induction false} PartsPlaceholders(parts: seq<Clause>, first: nat, k: nat)
    requires k <= |parts| && forall i | 0 <= i < |parts| :: Solid(parts[i])
    ensures PlaceholdersUpTo(ClauseTexts(parts, first, k), k) == Range(first, |BindsUpTo(parts, k)|)
    decreases parts, k
  {
    if k > 0 {
      PartsPlaceholders(parts, first, k - 1);
      ClausePlaceholders(parts[k - 1], Start(parts, first, k - 1));
      OneMorePart(parts, first, k - 1);
    }
  }

  lemma OneMorePart(parts: seq<Clause>, first: nat, k: nat)
    requires k < |parts|
    requires PlaceholdersUpTo(ClauseTexts(parts, first, k), k) == Range(first, |BindsUpTo(parts, k)|)
    requires Placeholders(ClauseText(parts[k], Start(parts, first, k)))
          == Range(Start(parts, first, k), |Binds(parts[k])|)
    ensures PlaceholdersUpTo(ClauseTexts(parts, first, k + 1), k + 1) == Range(first, |BindsUpTo(parts, k + 1)|)
  {
    var m, n := |BindsUpTo(parts, k)|, |Binds(parts[k])|;
    PlaceholdersStep(ClauseTexts(parts, first, k), ClauseText(parts[k], Start(parts, first, k)), first, m, n);
    assert |BindsUpTo(parts, k + 1)| == m + n;
  }

  /**
   * Left to right the placeholders are exactly offset + 1, ..., offset + number of binds, so the
   * caller's own next parameter (the LIMIT) is the next free number.
   */
  lemma PlaceholdersAreConsecutive(tree: RuleTree, offset: nat)
    ensures Placeholders(ClauseText(WhereClause(tree), offset + 1))
         == Range(offset + 1, |Binds(WhereClause(tree))|)
  {
    WhereClauseIsSolid(tree);
    ClausePlaceholders(WhereClause(tree), offset + 1);
  }
}

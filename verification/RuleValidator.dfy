/** Save-time parsing of a rule tree: accepts and normalises it, or says what is wrong. */
module RuleValidator {
  import opened Wrappers
  import opened Text
  import opened Conditions

  datatype ConditionInput = ConditionInput(
    target: string,
    operator: string,
    value: Value,
    valueEnd: Option<Value>
  )

  datatype GroupInput = GroupInput(conditions: seq<ConditionInput>)

  datatype RuleTreeBody = RuleTreeBody(
    kickChannelId: Option<int>,
    grantOnAnyRelation: bool,
    groups: seq<GroupInput>
  )

  datatype ParsedRule = ParsedRule(kickChannelId: Option<int>, ruleTree: RuleTree)

  datatype ConditionError =
    | UnknownTarget | UnknownOperator | OperatorNotValid | BooleanRequired | EnterANumber
    | IntegerRequired | EmptyList | ValueRequired | NeedsMinAndMax | BadRegex

  datatype BadRequest =
    | NoGroups
    | TooManyGroups
    | EmptyGroup(group: nat)
    | TooManyConditions(group: nat)
    | InCondition(group: nat, condition: nat, error: ConditionError)

  // ------------------------------------------------------------------ literals

  /** The cast `f as i64`: toward zero, clamped at both ends. */
  function SaturatingCast(r: real): I64 {
    var t := if r >= 0.0 then r.Floor else -((-r).Floor);
    if t < I64_MIN then I64_MIN else if t > I64_MAX then I64_MAX else t
  }

  function NumberAsI64(num: Number): I64 {
    match num
    case Integer(n) => n
    case Large(u) => I64_MAX
    case Float(r, _) => SaturatingCast(r)
  }

  function NumberText(num: Number): (s: string)
    ensures Trim(s) != ""
  {
    match num
    case Integer(n) => TrimChangesOnlyLooseEnds(IntText(n)); IntText(n)
    case Large(u) => TrimChangesOnlyLooseEnds(IntText(u)); IntText(u)
    case Float(_, text) => text
  }

  function NonEmptyPieces(pieces: seq<string>): (vs: seq<Value>)
    ensures forall i | 0 <= i < |vs| :: vs[i].Str? && vs[i].s != ""
  {
    if pieces == [] then []
    else
      var head := Trim(pieces[0]);
      (if head == "" then [] else [Str(head)]) + NonEmptyPieces(pieces[1..])
  }

  predicate Kept(v: Value) {
    v != Null && v != Str("")
  }

  function KeptItems(items: seq<Value>): (vs: seq<Value>)
    ensures forall i | 0 <= i < |vs| :: Kept(vs[i])
    ensures (forall i | 0 <= i < |items| :: Kept(items[i])) ==> vs == items
  {
    if items == [] then []
    else (if Kept(items[0]) then [items[0]] else []) + KeptItems(items[1..])
  }

  function ListItems(raw: Value): seq<Value> {
    match raw
    case Array(items) => KeptItems(items)
    case Str(s) => NonEmptyPieces(Split(s, ','))
    case Null => []
    case _ => [raw]
  }

  function NormalizeBool(raw: Value): Result<Value, ConditionError> {
    match raw
    case Boolean(_) => Ok(raw)
    case Str(s) =>
      var word := AsciiLower(Trim(s));
      if word == "true" || word == "1" || word == "yes" then Ok(Boolean(true))
      else if word == "false" || word == "0" || word == "no" then Ok(Boolean(false))
      else Err(BooleanRequired)
    case _ => Err(BooleanRequired)
  }

  function NormalizeInt(raw: Value): Result<Value, ConditionError> {
    match raw
    case Null => Err(EnterANumber)
    case Num(num) => Ok(Num(Integer(NumberAsI64(num))))
    case Str(s) =>
      if Trim(s) == "" then Err(EnterANumber)
      else
        var n := ParseI64(Trim(s));
        if n.Some? then Ok(Num(Integer(n.value))) else Err(IntegerRequired)
    case _ => Err(IntegerRequired)
  }

  function NormalizeList(raw: Value): Result<Value, ConditionError> {
    var items := ListItems(raw);
    if items == [] then Err(EmptyList) else Ok(Array(items))
  }

  function NormalizeText(raw: Value): Result<Value, ConditionError> {
    match raw
    case Str(s) => if Trim(s) == "" then Err(ValueRequired) else Ok(Str(s))
    case Num(num) => Ok(Str(NumberText(num)))
    case Boolean(b) => Ok(Str(if b then "true" else "false"))
    case _ => Err(ValueRequired)
  }

  function NormalizeValue(kind: TargetKind, op: ConditionOperator, raw: Value): Result<Value, ConditionError> {
    match kind
    case BoolKind => NormalizeBool(raw)
    case IntKind => NormalizeInt(raw)
    case StringKind => if op.In? || op.NotIn? then NormalizeList(raw) else NormalizeText(raw)
  }

  // ---------------------------------------------------------------- conditions

  function ValidateCondition(raw: ConditionInput, regex: RegexEngine): Result<Condition, ConditionError> {
    var target := ConditionTarget.FromKey(Trim(raw.target));
    if target.None? then Err(UnknownTarget)
    else
      var operator := ConditionOperator.FromKey(Trim(raw.operator));
      if operator.None? then Err(UnknownOperator)
      else if !operator.value.ValidFor(target.value.Kind()) then Err(OperatorNotValid)
      else ValidateLiterals(target.value, operator.value, raw, regex)
  }

  function ValidateLiterals(
    target: ConditionTarget, op: ConditionOperator, raw: ConditionInput, regex: RegexEngine
  ): Result<Condition, ConditionError> {
    var value :- NormalizeValue(target.Kind(), op, raw.value);
    var valueEnd :- ValidateEnd(target, op, raw.valueEnd);
    if op.Regex? && !regex.compiles(value.AsStr().GetOr("")) then Err(BadRegex)
    else Ok(Condition(target, op, value, valueEnd))
  }

  function ValidateEnd(
    target: ConditionTarget, op: ConditionOperator, raw: Option<Value>
  ): Result<Option<Value>, ConditionError> {
    if !op.Between? then Ok(None)
    else if raw.None? then Err(NeedsMinAndMax)
    else
      var end :- NormalizeValue(target.Kind(), op, raw.value);
      Ok(Some(end))
  }

  // ---------------------------------------------------------------- whole trees

  /** The `?` operator over the first `k` results: all the values, or the first error. */
  function CollectUpTo<T, E>(rs: seq<Result<T, E>>, k: nat): (r: Result<seq<T>, E>)
    requires k <= |rs|
    ensures r.Ok? ==> |r.value| == k && forall i | 0 <= i < k :: rs[i] == Ok(r.value[i])
  {
    if k == 0 then Ok([])
    else
      var before :- CollectUpTo(rs, k - 1);
      var last :- rs[k - 1];
      Ok(before + [last])
  }

  function Collect<T, E>(rs: seq<Result<T, E>>): (r: Result<seq<T>, E>) {
    CollectUpTo(rs, |rs|)
  }

  /** The first error decides the outcome, whatever follows it. */
  lemma {:induction false} FirstErrorDecides<T, E>(rs: seq<Result<T, E>>, k: nat, n: nat)
    requires k < n <= |rs| && rs[k].Err?
    requires CollectUpTo(rs, k).Ok?
    ensures CollectUpTo(rs, n) == Err(rs[k].error)
  {
    if k < n - 1 {
      FirstErrorDecides(rs, k, n - 1);
    }
  }

  lemma OneMoreCollected<T, E>(rs: seq<Result<T, E>>, values: seq<T>, k: nat)
    requires k < |rs| && CollectUpTo(rs, k) == Ok(values) && rs[k].Ok?
    ensures CollectUpTo(rs, k + 1) == Ok(values + [rs[k].value])
  {
  }

  lemma {:induction false} CollectAllOk<T, E>(rs: seq<Result<T, E>>, values: seq<T>, k: nat)
    requires |rs| == |values| && forall i | 0 <= i < |rs| :: rs[i] == Ok(values[i])
    requires k <= |rs|
    ensures CollectUpTo(rs, k) == Ok(values[..k])
  {
    if k > 0 {
      CollectAllOk(rs, values, k - 1);
      assert values[..k] == values[..k - 1] + [values[k - 1]];
    }
  }

  function Numbered(
    group: nat, condition: nat, r: Result<Condition, ConditionError>
  ): Result<Condition, BadRequest> {
    match r
    case Ok(c) => Ok(c)
    case Err(e) => Err(InCondition(group, condition, e))
  }

  type Checker = ConditionInput -> Result<Condition, ConditionError>

  function Validator(regex: RegexEngine): Checker {
    raw => ValidateCondition(raw, regex)
  }

  function CheckedConditions(
    group: nat, inputs: seq<ConditionInput>, check: Checker
  ): (rs: seq<Result<Condition, BadRequest>>)
    ensures |rs| == |inputs|
    ensures forall i | 0 <= i < |inputs| ::
              rs[i] == Numbered(group, i + 1, check(inputs[i]))
  {
    seq(|inputs|, i requires 0 <= i < |inputs| =>
      Numbered(group, i + 1, check(inputs[i])))
  }

  function ParsedGroup(group: nat, input: GroupInput, check: Checker): Result<Group, BadRequest> {
    if input.conditions == [] then Err(EmptyGroup(group))
    else if |input.conditions| > MAX_CONDITIONS_PER_GROUP then Err(TooManyConditions(group))
    else
      var conditions :- Collect(CheckedConditions(group, input.conditions, check));
      Ok(Group(conditions))
  }

  function ParsedGroups(inputs: seq<GroupInput>, check: Checker): (rs: seq<Result<Group, BadRequest>>)
    ensures |rs| == |inputs|
    ensures forall g | 0 <= g < |inputs| :: rs[g] == ParsedGroup(g + 1, inputs[g], check)
  {
    seq(|inputs|, g requires 0 <= g < |inputs| => ParsedGroup(g + 1, inputs[g], check))
  }

  function Parsed(body: RuleTreeBody, regex: RegexEngine): Result<ParsedRule, BadRequest> {
    if body.grantOnAnyRelation then Ok(ParsedRule(body.kickChannelId, RuleTree(true, [])))
    else if body.groups == [] then Err(NoGroups)
    else if |body.groups| > MAX_GROUPS then Err(TooManyGroups)
    else
      var groups :- Collect(ParsedGroups(body.groups, Validator(regex)));
      Ok(ParsedRule(body.kickChannelId, RuleTree(false, groups)))
  }

  /** `parse_rule_tree`: nested loops that stop at the first bad condition. */
  method ParseRuleTree(body: RuleTreeBody, regex: RegexEngine) returns (r: Result<ParsedRule, BadRequest>)
    ensures r == Parsed(body, regex)
  {
    if body.grantOnAnyRelation {
      return Ok(ParsedRule(body.kickChannelId, RuleTree(true, [])));
    }
    if body.groups == [] {
      return Err(NoGroups);
    }
    if |body.groups| > MAX_GROUPS {
      return Err(TooManyGroups);
    }
    var groups :- ParseGroups(body.groups, Validator(regex));
    return Ok(ParsedRule(body.kickChannelId, RuleTree(false, groups)));
  }

  /** The outer loop: the groups in order, numbered from one. */
  method ParseGroups(inputs: seq<GroupInput>, check: Checker) returns (r: Result<seq<Group>, BadRequest>)
    ensures r == Collect(ParsedGroups(inputs, check))
  {
    ghost var results := ParsedGroups(inputs, check);
    var groups: seq<Group> := [];
    for gi := 0 to |inputs|
      invariant CollectUpTo(results, gi) == Ok(groups)
    {
      var group := ParseGroup(gi + 1, inputs[gi], check);
      if group.Err? {
        FirstErrorDecides(results, gi, |results|);
        return Err(group.error);
      }
      OneMoreCollected(results, groups, gi);
      groups := groups + [group.value];
    }
    return Ok(groups);
  }

  /** The body of the outer loop: one group, its conditions checked in order. */
  method ParseGroup(group: nat, input: GroupInput, check: Checker) returns (r: Result<Group, BadRequest>)
    ensures r == ParsedGroup(group, input, check)
  {
    if input.conditions == [] {
      return Err(EmptyGroup(group));
    }
    if |input.conditions| > MAX_CONDITIONS_PER_GROUP {
      return Err(TooManyConditions(group));
    }
    ghost var results := CheckedConditions(group, input.conditions, check);
    var conditions: seq<Condition> := [];
    for ci := 0 to |input.conditions|
      invariant CollectUpTo(results, ci) == Ok(conditions)
    {
      var checked := Numbered(group, ci + 1, check(input.conditions[ci]));
      if checked.Err? {
        FirstErrorDecides(results, ci, |results|);
        return Err(checked.error);
      }
      OneMoreCollected(results, conditions, ci);
      conditions := conditions + [checked.value];
    }
    return Ok(Group(conditions));
  }

  // ----------------------------------------------------- text forms stand for their literals

  lemma TypedBooleanMeansTheLiteral(b: bool)
    ensures NormalizeBool(Str(if b then "true" else "false")) == Ok(Boolean(b))
  {
    var word := if b then "true" else "false";
    TrimChangesOnlyLooseEnds(word);
    assert AsciiLower(word) == word;
  }

  /** An integer typed as text becomes the literal. */
  lemma TypedIntegerMeansTheLiteral(n: I64)
    ensures NormalizeInt(Str(IntText(n))) == Ok(Num(Integer(n)))
  {
    TrimChangesOnlyLooseEnds(IntText(n));
    ParseReadsPrintedInteger(n);
  }

  function Csv(words: seq<string>): string
    requires words != []
  {
    if |words| == 1 then words[0] else words[0] + "," + Csv(words[1..])
  }

  predicate CommaFree(w: string) {
    forall i | 0 <= i < |w| :: w[i] != ','
  }

  lemma {:induction false} SplitAtComma(w: string, rest: string)
    requires CommaFree(w)
    ensures Split(w, ',') == [w]
    ensures Split(w + "," + rest, ',') == [w] + Split(rest, ',')
  {
    if w == "" {
      assert w + "," + rest == "," + rest && ("," + rest)[1..] == rest;
    } else {
      SplitAtComma(w[1..], rest);
      assert (w + "," + rest)[1..] == w[1..] + "," + rest;
      assert w == [w[0]] + w[1..];
    }
  }

  lemma {:induction false} SplitOfCsv(words: seq<string>)
    requires words != [] && forall i | 0 <= i < |words| :: CommaFree(words[i])
    ensures Split(Csv(words), ',') == words
  {
    if |words| == 1 {
      SplitAtComma(words[0], "");
    } else {
      SplitOfCsv(words[1..]);
      SplitAtComma(words[0], Csv(words[1..]));
    }
  }

  lemma {:induction false} CleanPiecesAreKept(words: seq<string>)
    requires forall i | 0 <= i < |words| :: words[i] != "" && SolidEnds(words[i])
    ensures NonEmptyPieces(words) == seq(|words|, i requires 0 <= i < |words| => Str(words[i]))
  {
    if words != [] {
      CleanPiecesAreKept(words[1..]);
      TrimChangesOnlyLooseEnds(words[0]);
    }
  }

  /** A comma-separated text of clean words becomes the list of those words. */
  lemma CsvRoundTrip(words: seq<string>)
    requires words != []
    requires forall i | 0 <= i < |words| :: words[i] != "" && SolidEnds(words[i]) && CommaFree(words[i])
    ensures NormalizeList(Str(Csv(words))) == Ok(Array(seq(|words|, i requires 0 <= i < |words| => Str(words[i]))))
  {
    SplitOfCsv(words);
    CleanPiecesAreKept(words);
  }

  // ---------------------------------------------------- what an accepted tree guarantees

  predicate IsInteger(v: Value) {
    v.Num? && v.num.Integer?
  }

  /** The literal has the kind's type; a list names something, a text is not blank. */
  predicate ValueFits(kind: TargetKind, op: ConditionOperator, v: Value) {
    match kind
    case BoolKind => v.Boolean?
    case IntKind => IsInteger(v)
    case StringKind =>
      if op.In? || op.NotIn? then
        v.Array? && v.items != [] && forall i | 0 <= i < |v.items| :: Kept(v.items[i])
      else v.Str? && Trim(v.s) != ""
  }

  lemma NormalizedValueFits(kind: TargetKind, op: ConditionOperator, raw: Value)
    requires NormalizeValue(kind, op, raw).Ok?
    ensures ValueFits(kind, op, NormalizeValue(kind, op, raw).value)
  {
    TrimChangesOnlyLooseEnds("true");
    TrimChangesOnlyLooseEnds("false");
  }

  /** An operator its target allows, literals of the target's type, and a max for every between. */
  predicate WellFormedCondition(c: Condition, regex: RegexEngine) {
    && c.operator.ValidFor(c.target.Kind())
    && ValueFits(c.target.Kind(), c.operator, c.value)
    && (c.operator.Between? <==> c.valueEnd.Some?)
    && (c.valueEnd.Some? ==> IsInteger(c.valueEnd.value))
    && (c.operator.Regex? ==> regex.compiles(c.value.s))
  }

  predicate WellFormedGroup(g: Group, regex: RegexEngine) {
    && 1 <= |g.conditions| <= MAX_CONDITIONS_PER_GROUP
    && forall i | 0 <= i < |g.conditions| :: WellFormedCondition(g.conditions[i], regex)
  }

  predicate WellFormed(tree: RuleTree, regex: RegexEngine) {
    && (if tree.grantOnAnyRelation then tree.groups == [] else 1 <= |tree.groups| <= MAX_GROUPS)
    && forall g | 0 <= g < |tree.groups| :: WellFormedGroup(tree.groups[g], regex)
  }

  lemma ValidatedConditionIsWellFormed(raw: ConditionInput, regex: RegexEngine)
    requires ValidateCondition(raw, regex).Ok?
    ensures WellFormedCondition(ValidateCondition(raw, regex).value, regex)
  {
    var c := ValidateCondition(raw, regex).value;
    NormalizedValueFits(c.target.Kind(), c.operator, raw.value);
  }

  lemma ParsedGroupIsWellFormed(group: nat, input: GroupInput, regex: RegexEngine)
    requires ParsedGroup(group, input, Validator(regex)).Ok?
    ensures WellFormedGroup(ParsedGroup(group, input, Validator(regex)).value, regex)
  {
    var conditions := Collect(CheckedConditions(group, input.conditions, Validator(regex))).value;
    forall i | 0 <= i < |conditions| ensures WellFormedCondition(conditions[i], regex) {
      ValidatedConditionIsWellFormed(input.conditions[i], regex);
    }
  }

  lemma CollectedGroupsAreWellFormed(inputs: seq<GroupInput>, groups: seq<Group>, regex: RegexEngine)
    requires Collect(ParsedGroups(inputs, Validator(regex))) == Ok(groups)
    ensures |groups| == |inputs| && forall g | 0 <= g < |groups| :: WellFormedGroup(groups[g], regex)
  {
    forall g | 0 <= g < |groups| ensures WellFormedGroup(groups[g], regex) {
      ParsedGroupIsWellFormed(g + 1, inputs[g], regex);
    }
  }

  /** Whatever is accepted obeys the caps and holds only well-typed conditions. */
  lemma AcceptedTreeIsWellFormed(body: RuleTreeBody, regex: RegexEngine)
    requires Parsed(body, regex).Ok?
    ensures WellFormed(Parsed(body, regex).value.ruleTree, regex)
    ensures Parsed(body, regex).value.kickChannelId == body.kickChannelId
  {
    if !body.grantOnAnyRelation {
      CollectedGroupsAreWellFormed(body.groups, Parsed(body, regex).value.ruleTree.groups, regex);
    }
  }

  // ------------------------------------------------------- printing and re-parsing

  /** How a target is written: with the catalogue's key, or as a stored tree is serialized. */
  datatype Spelling = Catalogue | Serialized

  function Spelled(form: Spelling, t: ConditionTarget): string {
    if form.Catalogue? then t.Key() else t.StoredKey()
  }

  /** The parser reads the spelling back. */
  predicate Legible(form: Spelling, t: ConditionTarget) {
    ConditionTarget.FromKey(Trim(Spelled(form, t))) == Some(t)
  }

  function PrintedCondition(form: Spelling, c: Condition): ConditionInput {
    ConditionInput(Spelled(form, c.target), c.operator.Key(), c.value, c.valueEnd)
  }

  function PrintedGroup(form: Spelling, g: Group): (printed: GroupInput)
    ensures |printed.conditions| == |g.conditions|
    ensures forall i | 0 <= i < |g.conditions| :: printed.conditions[i] == PrintedCondition(form, g.conditions[i])
  {
    GroupInput(seq(|g.conditions|, i requires 0 <= i < |g.conditions| => PrintedCondition(form, g.conditions[i])))
  }

  function PrintedGroups(form: Spelling, groups: seq<Group>): (printed: seq<GroupInput>)
    ensures |printed| == |groups|
    ensures forall g | 0 <= g < |groups| :: printed[g] == PrintedGroup(form, groups[g])
  {
    seq(|groups|, g requires 0 <= g < |groups| => PrintedGroup(form, groups[g]))
  }

  function PrintedTree(form: Spelling, channel: Option<int>, tree: RuleTree): RuleTreeBody {
    RuleTreeBody(channel, tree.grantOnAnyRelation, PrintedGroups(form, tree.groups))
  }

  predicate LegibleGroup(form: Spelling, g: Group) {
    forall i | 0 <= i < |g.conditions| :: Legible(form, g.conditions[i].target)
  }

  predicate LegibleTree(form: Spelling, tree: RuleTree) {
    forall g | 0 <= g < |tree.groups| :: LegibleGroup(form, tree.groups[g])
  }

  lemma FittingValueStays(kind: TargetKind, op: ConditionOperator, v: Value)
    requires ValueFits(kind, op, v)
    ensures NormalizeValue(kind, op, v) == Ok(v)
  {
  }

  lemma PrintedConditionReparses(form: Spelling, c: Condition, regex: RegexEngine)
    requires WellFormedCondition(c, regex)
    ensures Legible(form, c.target) <==> ValidateCondition(PrintedCondition(form, c), regex) == Ok(c)
  {
    OperatorKeyRoundTrip(c.operator);
    FittingValueStays(c.target.Kind(), c.operator, c.value);
  }

  /** The check gives every condition of the group back. */
  predicate Reads(form: Spelling, g: Group, check: Checker) {
    forall i | 0 <= i < |g.conditions| :: check(PrintedCondition(form, g.conditions[i])) == Ok(g.conditions[i])
  }

  predicate Fits(g: Group) {
    1 <= |g.conditions| <= MAX_CONDITIONS_PER_GROUP
  }

  /** Lifting from conditions to groups and lists of groups, for any per-condition check. */
  lemma GroupReparses(form: Spelling, group: nat, g: Group, check: Checker)
    requires Fits(g)
    ensures ParsedGroup(group, PrintedGroup(form, g), check) == Ok(g) <==> Reads(form, g, check)
  {
    var results := CheckedConditions(group, PrintedGroup(form, g).conditions, check);
    if Reads(form, g, check) {
      CollectAllOk(results, g.conditions, |g.conditions|);
      assert g.conditions[..|g.conditions|] == g.conditions;
    }
  }

  lemma GroupsReparse(form: Spelling, groups: seq<Group>, check: Checker)
    requires forall g | 0 <= g < |groups| :: Fits(groups[g])
    ensures Collect(ParsedGroups(PrintedGroups(form, groups), check)) == Ok(groups)
       <==> forall g | 0 <= g < |groups| :: Reads(form, groups[g], check)
  {
    var results := ParsedGroups(PrintedGroups(form, groups), check);
    forall g | 0 <= g < |groups| ensures results[g] == Ok(groups[g]) <==> Reads(form, groups[g], check) {
      GroupReparses(form, g + 1, groups[g], check);
    }
    if forall g | 0 <= g < |groups| :: Reads(form, groups[g], check) {
      CollectAllOk(results, groups, |groups|);
      assert groups[..|groups|] == groups;
    }
  }

  lemma ReadsExactlyTheLegible(form: Spelling, g: Group, regex: RegexEngine)
    requires WellFormedGroup(g, regex)
    ensures Reads(form, g, Validator(regex)) <==> LegibleGroup(form, g)
  {
    forall i | 0 <= i < |g.conditions|
      ensures Validator(regex)(PrintedCondition(form, g.conditions[i])) == Ok(g.conditions[i])
         <==> Legible(form, g.conditions[i].target)
    {
      PrintedConditionReparses(form, g.conditions[i], regex);
    }
  }

  lemma ReparsesExactlyWhenLegible(form: Spelling, channel: Option<int>, tree: RuleTree, regex: RegexEngine)
    ensures WellFormed(tree, regex) && LegibleTree(form, tree)
       <==> Parsed(PrintedTree(form, channel, tree), regex) == Ok(ParsedRule(channel, tree))
  {
    if WellFormed(tree, regex) {
      forall g | 0 <= g < |tree.groups|
        ensures Fits(tree.groups[g])
        ensures Reads(form, tree.groups[g], Validator(regex)) <==> LegibleGroup(form, tree.groups[g])
      {
        ReadsExactlyTheLegible(form, tree.groups[g], regex);
      }
      GroupsReparse(form, tree.groups, Validator(regex));
    } else if Parsed(PrintedTree(form, channel, tree), regex) == Ok(ParsedRule(channel, tree)) {
      AcceptedTreeIsWellFormed(PrintedTree(form, channel, tree), regex);
      assert false;
    }
  }

  /**
   * The accepted trees are exactly the well-formed ones: a tree is in normal form if and only if
   * writing it with the catalogue's keys and parsing it again gives it back.
   */
  lemma NormalFormsAreFixedPoints(channel: Option<int>, tree: RuleTree, regex: RegexEngine)
    ensures WellFormed(tree, regex)
       <==> Parsed(PrintedTree(Catalogue, channel, tree), regex) == Ok(ParsedRule(channel, tree))
  {
    forall t: ConditionTarget ensures Legible(Catalogue, t) {
      TargetKeyRoundTrip(t);
    }
    ReparsesExactlyWhenLegible(Catalogue, channel, tree, regex);
  }

  predicate CountsChat(g: Group) {
    exists i | 0 <= i < |g.conditions| :: g.conditions[i].target.ChatMessages30d?
  }

  lemma ServedIsLegible(g: Group)
    ensures LegibleGroup(Serialized, g) <==> !CountsChat(g)
  {
    forall i | 0 <= i < |g.conditions|
      ensures Legible(Serialized, g.conditions[i].target) <==> !g.conditions[i].target.ChatMessages30d?
    {
      StoredKeyReadsBack(g.conditions[i].target);
    }
  }

  /**
   * Load and save: the serialized form of a tree, posted back as it was served, is accepted as that
   * tree exactly when the tree is well formed and no condition is about chat messages.
   */
  lemma ServedTreeSavesBack(channel: Option<int>, tree: RuleTree, regex: RegexEngine)
    ensures Parsed(PrintedTree(Serialized, channel, tree), regex) == Ok(ParsedRule(channel, tree))
       <==> WellFormed(tree, regex) && forall g | 0 <= g < |tree.groups| :: !CountsChat(tree.groups[g])
  {
    ReparsesExactlyWhenLegible(Serialized, channel, tree, regex);
    forall g | 0 <= g < |tree.groups|
      ensures LegibleGroup(Serialized, tree.groups[g]) <==> !CountsChat(tree.groups[g])
    {
      ServedIsLegible(tree.groups[g]);
    }
  }

  lemma ServedConditionIsChecked(c: Condition, regex: RegexEngine)
    requires WellFormedCondition(c, regex)
    ensures Validator(regex)(PrintedCondition(Serialized, c))
         == if c.target.ChatMessages30d? then Err(UnknownTarget) else Ok(c)
  {
    StoredKeyReadsBack(c.target);
    PrintedConditionReparses(Serialized, c, regex);
  }

  /** An accepted list of groups passed every condition's check. */
  lemma AcceptedWereChecked(form: Spelling, groups: seq<Group>, g: nat, i: nat, check: Checker)
    requires Collect(ParsedGroups(PrintedGroups(form, groups), check)).Ok?
    requires g < |groups| && i < |groups[g].conditions|
    ensures check(PrintedCondition(form, groups[g].conditions[i])).Ok?
  {
    assert ParsedGroups(PrintedGroups(form, groups), check)[g].Ok?;
    var results := CheckedConditions(g + 1, PrintedGroup(form, groups[g]).conditions, check);
    assert results[i].Ok?;
  }

  /** One condition about chat messages is enough to have the served tree refused. */
  lemma ServedChatTreeIsRefused(channel: Option<int>, tree: RuleTree, g: nat, i: nat, regex: RegexEngine)
    requires WellFormed(tree, regex) && g < |tree.groups| && i < |tree.groups[g].conditions|
    requires tree.groups[g].conditions[i].target.ChatMessages30d?
    ensures Parsed(PrintedTree(Serialized, channel, tree), regex).Err?
  {
    if Parsed(PrintedTree(Serialized, channel, tree), regex).Ok? {
      AcceptedWereChecked(Serialized, tree.groups, g, i, Validator(regex));
      ServedConditionIsChecked(tree.groups[g].conditions[i], regex);
      assert false;
    }
  }
  // ------------------------------------------------------------------- what is refused, and why

  /** Every refusal of a tree by its shape. */
  lemma ShapeErrorsAreExact(body: RuleTreeBody, regex: RegexEngine)
    ensures Parsed(body, regex) == Err(NoGroups) <==> !body.grantOnAnyRelation && |body.groups| == 0
    ensures Parsed(body, regex) == Err(TooManyGroups) <==> !body.grantOnAnyRelation && |body.groups| > 8
    ensures body.grantOnAnyRelation ==> Parsed(body, regex) == Ok(ParsedRule(body.kickChannelId, RuleTree(true, [])))
    ensures Parsed(body, regex).Ok? && !body.grantOnAnyRelation ==>
              !Parsed(body, regex).value.ruleTree.grantOnAnyRelation
  {
    if !body.grantOnAnyRelation && 1 <= |body.groups| <= 8 {
      GroupErrorsAreNumbered(body.groups, |body.groups|, Validator(regex));
    }
  }

  lemma {:induction false} GroupErrorsAreNumbered(inputs: seq<GroupInput>, k: nat, check: Checker)
    requires k <= |inputs|
    ensures var r := CollectUpTo(ParsedGroups(inputs, check), k);
            r.Err? ==> r.error.EmptyGroup? || r.error.TooManyConditions? || r.error.InCondition?
  {
    if k > 0 {
      GroupErrorsAreNumbered(inputs, k - 1, check);
      GroupErrorsAreExact(k, inputs[k - 1], check);
    }
  }

  /** Every refusal of a group by its shape. */
  lemma GroupErrorsAreExact(group: nat, input: GroupInput, check: Checker)
    ensures ParsedGroup(group, input, check) == Err(EmptyGroup(group)) <==> |input.conditions| == 0
    ensures ParsedGroup(group, input, check) == Err(TooManyConditions(group)) <==> |input.conditions| > 12
    ensures ParsedGroup(group, input, check).Err? && 1 <= |input.conditions| <= 12 ==>
              ParsedGroup(group, input, check).error.InCondition?
  {
    ConditionErrorsAreNumbered(group, input.conditions, |input.conditions|, check);
  }

  lemma {:induction false} ConditionErrorsAreNumbered(
    group: nat, inputs: seq<ConditionInput>, k: nat, check: Checker
  )
    requires k <= |inputs|
    ensures var r := CollectUpTo(CheckedConditions(group, inputs, check), k); r.Err? ==> r.error.InCondition?
  {
    if k > 0 {
      ConditionErrorsAreNumbered(group, inputs, k - 1, check);
    }
  }

  /** Every refusal of a condition by its keys, before its literals are looked at. */
  lemma KeyErrorsAreExact(
    raw: ConditionInput, regex: RegexEngine, target: Option<ConditionTarget>, operator: Option<ConditionOperator>
  )
    requires target == ConditionTarget.FromKey(Trim(raw.target))
    requires operator == ConditionOperator.FromKey(Trim(raw.operator))
    ensures var r := ValidateCondition(raw, regex);
            && (r == Err(UnknownTarget) <==> target.None?)
            && (r == Err(UnknownOperator) <==> target.Some? && operator.None?)
            && (r == Err(OperatorNotValid)
                <==> target.Some? && operator.Some? && !operator.value.ValidFor(target.value.Kind()))
  {
    if target.Some? && operator.Some? && operator.value.ValidFor(target.value.Kind()) {
      KnownKeysGoOn(raw, regex, target.value, operator.value);
    }
  }

  lemma KnownKeysGoOn(raw: ConditionInput, regex: RegexEngine, t: ConditionTarget, op: ConditionOperator)
    requires op.ValidFor(t.Kind())
    ensures var r := ValidateLiterals(t, op, raw, regex);
            r.Err? ==> r.error != UnknownTarget && r.error != UnknownOperator && r.error != OperatorNotValid
  {
  }

  /** What is wrong with the literals of a known target and a fitting operator. */
  lemma LiteralErrorsAreExact(t: ConditionTarget, op: ConditionOperator, raw: ConditionInput, regex: RegexEngine)
    requires op.ValidFor(t.Kind())
    ensures var r, v := ValidateLiterals(t, op, raw, regex), NormalizeValue(t.Kind(), op, raw.value);
            && (v.Err? ==> r == Err(v.error))
            && (v.Ok? ==> (r == Err(NeedsMinAndMax) <==> op == Between && raw.valueEnd.None?))
            && (v.Ok? ==> (r == Err(BadRegex) <==> op == Regex && !regex.compiles(v.value.s)))
            && (r.Ok? ==> r.value.target == t && r.value.operator == op && v == Ok(r.value.value))
            && (op != Between && r.Ok? ==> r.value.valueEnd.None?)
            && (op == Between && raw.valueEnd.Some? && v.Ok? ==>
                  r == (match NormalizeValue(IntKind, op, raw.valueEnd.value)
                        case Ok(end) => Ok(Condition(t, op, v.value, Some(end)))
                        case Err(e) => Err(e)))
  {
    if op == Regex && NormalizeValue(t.Kind(), op, raw.value).Ok? {
      NormalizedValueFits(t.Kind(), op, raw.value);
    }
  }

  // ---------------------------------------------------------------- what each literal becomes

  /** The six words, however cased and padded, and nothing else. */
  lemma BooleanWordsAreSix(s: string)
    ensures var word, r := AsciiLower(Trim(s)), NormalizeBool(Str(s));
            && (r == Ok(Boolean(true)) <==> word == "true" || word == "1" || word == "yes")
            && (r == Ok(Boolean(false)) <==> word == "false" || word == "0" || word == "no")
            && (r.Err? ==> r.error == BooleanRequired)
  {
  }

  /** A float loses its fraction toward zero, and what no i64 holds becomes the nearest one. */
  lemma FloatsTruncate(r: real)
    ensures r >= 0.0 && r.Floor <= 0x7fff_ffff_ffff_ffff ==>
              var n := SaturatingCast(r); 0 <= n && n as real <= r < n as real + 1.0
    ensures r < 0.0 && (-r).Floor <= 0x8000_0000_0000_0000 ==>
              var n := SaturatingCast(r); n <= 0 && n as real - 1.0 < r <= n as real
    ensures r >= 0.0 && r.Floor > 0x7fff_ffff_ffff_ffff ==> SaturatingCast(r) == 0x7fff_ffff_ffff_ffff
    ensures r < 0.0 && (-r).Floor > 0x8000_0000_0000_0000 ==> SaturatingCast(r) == -0x8000_0000_0000_0000
  {
  }

  /** A number for an integer target keeps its value if an i64 holds it, and is clamped or cut if not. */
  lemma NumbersBecomeIntegers(num: Number)
    ensures NormalizeInt(Num(num)).Ok? && NormalizeInt(Num(num)).value.Num?
    ensures num.Integer? ==> NormalizeInt(Num(num)) == Ok(Num(num))
    ensures num.Large? ==> NormalizeInt(Num(num)) == Ok(Num(Integer(0x7fff_ffff_ffff_ffff)))
    ensures num.Float? ==> NormalizeInt(Num(num)) == Ok(Num(Integer(SaturatingCast(num.r))))
  {
  }

  /** Text targets take a number or a boolean as the word it prints as. */
  lemma OtherLiteralsBecomeText(b: bool, n: I64, s: string)
    ensures NormalizeText(Boolean(true)) == Ok(Str("true")) && NormalizeText(Boolean(false)) == Ok(Str("false"))
    ensures NormalizeText(Num(Integer(n))) == Ok(Str(IntText(n)))
    ensures NormalizeText(Str(s)) == if Trim(s) == "" then Err(ValueRequired) else Ok(Str(s))
    ensures NormalizeText(Null) == Err(ValueRequired)
  {
  }

  /** A list loses exactly its nulls and empty texts; a bare literal is a list of itself. */
  lemma ListsLoseBlanks(items: seq<Value>, raw: Value, v: Value)
    ensures v in KeptItems(items) <==> v in items && v != Null && v != Str("")
    ensures NormalizeList(Array(items))
         == if KeptItems(items) == [] then Err(EmptyList) else Ok(Array(KeptItems(items)))
    ensures raw.Boolean? || raw.Num? || raw.Object? ==> NormalizeList(raw) == Ok(Array([raw]))
    ensures NormalizeList(Null) == Err(EmptyList)
  {
    KeptItemsAreKept(items, v);
  }

  lemma {:induction false} KeptItemsAreKept(items: seq<Value>, v: Value)
    ensures v in KeptItems(items) <==> v in items && v != Null && v != Str("")
  {
    if items != [] {
      KeptItemsAreKept(items[1..], v);
    }
  }
}

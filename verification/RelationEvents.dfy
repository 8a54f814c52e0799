/**
 * The `channel_relations` row as a state machine. A cell is one (channel, viewer) pair: its row,
 * if there is one yet, and its per-day chat buckets. Its steps are the webhook events, follow
 * probes, the expiry sweep and the ageing of the chat counter.
 */
module RelationEvents {
  import opened Wrappers
  import opened Facts
  import opened FollowSync
  import opened Ascending

  datatype Badge = Badge(kind: string, count: Option<int>)

  predicate HasBadge(badges: seq<Badge>, kind: string) {
    exists i | 0 <= i < |badges| :: badges[i].kind == kind
  }

  /** The count of the first badge of a kind. */
  function CountOf(badges: seq<Badge>, kind: string): Option<int> {
    if badges == [] then None
    else if badges[0].kind == kind then badges[0].count
    else CountOf(badges[1..], kind)
  }

  datatype AgeOutcome = Aged | RecountFailed | CleanupFailed

  datatype RowEvent =
    | Followed
    | Subscribed(createdAt: Option<Time>, expiresAt: Option<Time>, duration: Option<int>)
    | Renewed(expiresAt: Option<Time>, duration: Option<int>)
    | GaveSubs(count: nat)
    | ReceivedSub(expiresAt: Option<Time>)
    | Chatted(badges: seq<Badge>)
    | GaveKicks(amount: nat)
    | ProbeAnswered(outcome: ProbeOutcome, confirmations: int)
    | ExpirySwept
    | ChatAged(ageing: AgeOutcome)

  // ---------------------------------------------------------------- webhook updates

  function OrElse<T>(a: Option<T>, b: Option<T>): Option<T> {
    if a.Some? then a else b
  }

  function FollowedRow(r: Relation, now: Time): Relation {
    r.(isFollower := true, followedAt := Some(r.followedAt.GetOr(now)))
  }

  function SubscribedRow(
    r: Relation, now: Time, createdAt: Option<Time>, expiresAt: Option<Time>, duration: Option<int>
  ): Relation {
    r.(
      isSubscriber := true,
      subscribedAt := Some(r.subscribedAt.GetOr(createdAt.GetOr(now))),
      subExpiresAt := OrElse(expiresAt, r.subExpiresAt),
      subMonthsCumulative := Max(r.subMonthsCumulative, duration.GetOr(1)),
      subStreakMonths := Max(r.subStreakMonths, 1))
  }

  function RenewedRow(r: Relation, expiresAt: Option<Time>, duration: Option<int>): Relation {
    r.(
      isSubscriber := true,
      subExpiresAt := OrElse(expiresAt, r.subExpiresAt),
      subMonthsCumulative := Max(r.subMonthsCumulative + 1, duration.GetOr(0)),
      subStreakMonths := r.subStreakMonths + 1)
  }

  function ReceivedSubRow(r: Relation, now: Time, expiresAt: Option<Time>): Relation {
    r.(
      isSubscriber := true,
      subIsGift := true,
      subscribedAt := Some(r.subscribedAt.GetOr(now)),
      subExpiresAt := OrElse(expiresAt, r.subExpiresAt),
      subMonthsCumulative := Max(r.subMonthsCumulative, 1),
      subStreakMonths := Max(r.subStreakMonths, 1))
  }

  function BadgeMonths(badges: seq<Badge>): int {
    Max(CountOf(badges, "subscriber").GetOr(1), 1)
  }

  /** The subscriber badge raises the subscription facts, never lowers them. */
  predicate BadgeRaises(r: Relation, badges: seq<Badge>) {
    HasBadge(badges, "subscriber") && (!r.isSubscriber || r.subMonthsCumulative < BadgeMonths(badges))
  }

  /** With the badge in view, an expiry that is unset or under a day away moves to three days from now. */
  predicate ExpiryFloored(r: Relation, now: Time, badges: seq<Badge>) {
    HasBadge(badges, "subscriber") && (r.subExpiresAt.None? || r.subExpiresAt.value < now + DAY)
  }

  /** The three channel badges are an authoritative snapshot: set and clear. */
  predicate BadgesDiffer(r: Relation, badges: seq<Badge>) {
    || r.isModerator != HasBadge(badges, "moderator")
    || r.isVip != HasBadge(badges, "vip")
    || r.isOg != HasBadge(badges, "og")
  }

  predicate GifterRaises(r: Relation, badges: seq<Badge>) {
    var gifted := CountOf(badges, "sub_gifter");
    gifted.Some? && r.giftedSubsGiven < gifted.value
  }

  /** All that one chat message does to the row. */
  function ChattedRow(r: Relation, now: Time, badges: seq<Badge>): Relation {
    var raised := BadgeRaises(r, badges);
    r.(
      chatMessages30d := r.chatMessages30d + 1,
      isModerator := HasBadge(badges, "moderator"),
      isVip := HasBadge(badges, "vip"),
      isOg := HasBadge(badges, "og"),
      isSubscriber := r.isSubscriber || raised,
      subscribedAt := if raised then Some(r.subscribedAt.GetOr(now)) else r.subscribedAt,
      subMonthsCumulative :=
        if raised then Max(r.subMonthsCumulative, BadgeMonths(badges)) else r.subMonthsCumulative,
      subStreakMonths := if raised then Max(r.subStreakMonths, 1) else r.subStreakMonths,
      subExpiresAt := if ExpiryFloored(r, now, badges) then Some(now + 3 * DAY) else r.subExpiresAt,
      giftedSubsGiven :=
        if GifterRaises(r, badges) then CountOf(badges, "sub_gifter").value else r.giftedSubsGiven)
  }

  /** The `changed` flag of the chat arm: whether a badge-derived fact was written. */
  predicate ChatChanges(r: Relation, badges: seq<Badge>) {
    BadgesDiffer(r, badges) || BadgeRaises(r, badges) || GifterRaises(r, badges)
  }

  // -------------------------------------------------------------- sweep and ageing

  const EXPIRY_GRACE: Time := 2 * DAY
  const CHAT_WINDOW_DAYS: int := 30

  predicate ExpiryLapsed(r: Relation, now: Time) {
    r.isSubscriber && r.subExpiresAt.Some? && r.subExpiresAt.value < now - EXPIRY_GRACE
  }

  function SweptRow(r: Relation, now: Time): Relation {
    if ExpiryLapsed(r, now) then r.(isSubscriber := false, subStreakMonths := 0) else r
  }

  /** The UTC date of a moment, as a day number. */
  function DayOf(now: Time): int {
    now / DAY
  }

  type Buckets = map<int, nat>

  function SumOver(b: Buckets, days: set<int>): nat
    requires days <= b.Keys
  {
    if days == {} then 0
    else
      var d := Least(days);
      b[d] + SumOver(b, days - {d})
  }

  function DaysAfter(b: Buckets, cutoff: int): set<int> {
    set d | d in b && d > cutoff
  }

  /** `sum(messages) WHERE day > cutoff`. */
  function SumAfter(b: Buckets, cutoff: int): nat {
    SumOver(b, DaysAfter(b, cutoff))
  }

  function CutoffOf(now: Time): int {
    DayOf(now) - CHAT_WINDOW_DAYS
  }

  function CountedBucket(b: Buckets, day: int): Buckets {
    b[day := (if day in b then b[day] else 0) + 1]
  }

  // ------------------------------------------------------------------------- cells

  datatype Cell = Cell(row: Option<Relation>, days: Buckets)

  /** Events make the row first (`ensure_relation`); probes, sweeps and ageing only touch a stored one. */
  function StepRow(c: Cell, now: Time, e: RowEvent): Option<Relation> {
    var ensured := c.row.GetOr(BASELINE);
    match e
    case Followed => Some(FollowedRow(ensured, now))
    case Subscribed(createdAt, expiresAt, duration) =>
      Some(SubscribedRow(ensured, now, createdAt, expiresAt, duration))
    case Renewed(expiresAt, duration) => Some(RenewedRow(ensured, expiresAt, duration))
    case GaveSubs(count) => Some(ensured.(giftedSubsGiven := ensured.giftedSubsGiven + count))
    case ReceivedSub(expiresAt) => Some(ReceivedSubRow(ensured, now, expiresAt))
    case Chatted(badges) => Some(ChattedRow(ensured, now, badges))
    case GaveKicks(amount) => Some(ensured.(kicksDonated := ensured.kicksDonated + amount))
    case ProbeAnswered(outcome, confirmations) =>
      if c.row.None? then None else Some(Probed(c.row.value, outcome, confirmations, now))
    case ExpirySwept => if c.row.None? then None else Some(SweptRow(c.row.value, now))
    case ChatAged(ageing) =>
      if c.row.None? then None
      else Some(RecountedRow(c.row.value, c.days, CutoffOf(now), ageing))
  }

  /** The recount touches only rows that have a count. */
  function RecountedRow(r: Relation, days: Buckets, cutoff: int, ageing: AgeOutcome): Relation {
    if ageing == RecountFailed || r.chatMessages30d <= 0 then r
    else r.(chatMessages30d := SumAfter(days, cutoff))
  }

  function RecentDays(days: Buckets, cutoff: int): Buckets {
    map d | d in days && d > cutoff :: days[d]
  }

  function StepDays(c: Cell, now: Time, e: RowEvent): Buckets {
    match e
    case Chatted(_) => CountedBucket(c.days, DayOf(now))
    case ChatAged(ageing) => if ageing == Aged then RecentDays(c.days, CutoffOf(now)) else c.days
    case _ => c.days
  }

  function Step(c: Cell, now: Time, e: RowEvent): Cell {
    Cell(StepRow(c, now, e), StepDays(c, now, e))
  }

  // -------------------------------------------------------------------------- runs

  datatype Timed = Timed(at: Time, e: RowEvent)

  predicate Moves(cells: seq<Cell>, steps: seq<Timed>, i: nat)
    requires i < |steps| < |cells|
  {
    cells[i + 1] == Step(cells[i], steps[i].at, steps[i].e)
  }

  /** The cells a run goes through, `cells[i]` before step `i`. */
  predicate IsRun(cells: seq<Cell>, steps: seq<Timed>) {
    && |cells| == |steps| + 1
    && forall i | 0 <= i < |steps| :: Moves(cells, steps, i)
  }

  predicate InOrder(steps: seq<Timed>) {
    forall i, j | 0 <= i < j < |steps| :: steps[i].at <= steps[j].at
  }

  /** What every reachable row satisfies. */
  predicate RowOk(r: Relation) {
    && FollowConsistent(r)
    && 0 <= r.followProbeMisses
    && (!r.isFollower ==> r.followProbeMisses == 0)
    && 0 <= r.giftedSubsGiven && 0 <= r.kicksDonated && 0 <= r.chatMessages30d
  }

  predicate CellOk(c: Cell) {
    c.row.Some? ==> RowOk(c.row.value)
  }

  lemma StepKeepsCellOk(c: Cell, now: Time, e: RowEvent)
    requires CellOk(c)
    ensures CellOk(Step(c, now, e))
  {
  }

  /** Every row reachable from any consistent cell is consistent: a follow date exactly for followers. */
  lemma {:induction false} ReachableRowsAreConsistent(cells: seq<Cell>, steps: seq<Timed>, k: nat)
    requires IsRun(cells, steps) && CellOk(cells[0]) && k <= |steps|
    ensures CellOk(cells[k])
  {
    if k > 0 {
      ReachableRowsAreConsistent(cells, steps, k - 1);
      assert Moves(cells, steps, k - 1);
      StepKeepsCellOk(cells[k - 1], steps[k - 1].at, steps[k - 1].e);
    }
  }

  // --------------------------------------------------------------- totals never shrink

  function Row(c: Cell): Relation {
    c.row.GetOr(BASELINE)
  }

  predicate TotalsAtMost(early: Cell, late: Cell) {
    && Row(early).subMonthsCumulative <= Row(late).subMonthsCumulative
    && Row(early).giftedSubsGiven <= Row(late).giftedSubsGiven
    && Row(early).kicksDonated <= Row(late).kicksDonated
  }

  lemma StepKeepsTotals(c: Cell, now: Time, e: RowEvent)
    requires CellOk(c)
    ensures TotalsAtMost(c, Step(c, now, e))
  {
  }

  /** Months, gifted subs and kicks never decrease, whatever happens between two points of a run. */
  lemma {:induction false} TotalsNeverDecrease(cells: seq<Cell>, steps: seq<Timed>, i: nat, j: nat)
    requires IsRun(cells, steps) && CellOk(cells[0]) && i <= j <= |steps|
    ensures TotalsAtMost(cells[i], cells[j])
    decreases j - i
  {
    if i < j {
      TotalsNeverDecrease(cells, steps, i, j - 1);
      ReachableRowsAreConsistent(cells, steps, j - 1);
      assert Moves(cells, steps, j - 1);
      StepKeepsTotals(cells[j - 1], steps[j - 1].at, steps[j - 1].e);
    }
  }

  // --------------------------------------------------- what may grant and what may revoke

  function Answer(e: RowEvent): Option<Card> {
    if e.ProbeAnswered? && e.outcome.Usable? then Some(e.outcome.card) else None
  }

  predicate GrantsFollow(e: RowEvent) {
    e.Followed? || (Answer(e).Some? && Answer(e).value.isFollowing)
  }

  /** The last denial needed: usable, negative, spaced from the one counted before, the count reached. */
  predicate RevokesFollow(r: Relation, now: Time, e: RowEvent) {
    && Answer(e).Some? && !Answer(e).value.isFollowing && MissCounts(r, now)
    && r.followProbeMisses + 1 >= e.confirmations
  }

  predicate GrantsSub(e: RowEvent) {
    || e.Subscribed? || e.Renewed? || e.ReceivedSub?
    || (e.Chatted? && HasBadge(e.badges, "subscriber"))
    || (Answer(e).Some? && Answer(e).value.isSubscriber)
  }

  /** A badge seen in chat is the truth; a card can only add one. */
  predicate BadgeAfter(before: bool, e: RowEvent, kind: string, onCard: bool) {
    if e.Chatted? then HasBadge(e.badges, kind) else before || onCard
  }

  /** A follow is granted by a follow event or a positive answer, and revoked only by the last spaced denial. */
  lemma FollowChangesOnlyOnEvidence(r: Relation, days: Buckets, now: Time, e: RowEvent)
    requires RowOk(r) && (e.ProbeAnswered? ==> e.confirmations <= I16_MAX)
    ensures Row(Step(Cell(Some(r), days), now, e)).isFollower
       <==> GrantsFollow(e) || (r.isFollower && !RevokesFollow(r, now, e))
  {
  }

  /** A subscription is granted by any evidence of one, and revoked only by the sweep of a lapsed expiry. */
  lemma SubscriptionChangesOnlyOnEvidence(r: Relation, days: Buckets, now: Time, e: RowEvent)
    ensures Row(Step(Cell(Some(r), days), now, e)).isSubscriber
       <==> GrantsSub(e) || (r.isSubscriber && !(e.ExpirySwept? && ExpiryLapsed(r, now)))
  {
  }

  /** Channel badges are set and cleared by chat, added by cards, and touched by nothing else. */
  lemma BadgesChangeOnlyOnEvidence(r: Relation, days: Buckets, now: Time, e: RowEvent)
    ensures var after, card := Row(Step(Cell(Some(r), days), now, e)), Answer(e);
            && (after.isVip <==> BadgeAfter(r.isVip, e, "vip", card.Some? && card.value.isVip))
            && (after.isModerator <==> BadgeAfter(r.isModerator, e, "moderator", card.Some? && card.value.isModerator))
            && (after.isOg <==> BadgeAfter(r.isOg, e, "og", card.Some? && card.value.isOg))
  {
    if e.Chatted? {
      assert Step(Cell(Some(r), days), now, e).row == Some(ChattedRow(r, now, e.badges));
    } else if e.ProbeAnswered? {
      assert Step(Cell(Some(r), days), now, e).row == Some(Probed(r, e.outcome, e.confirmations, now));
    }
  }

  predicate DatesKept(early: Relation, late: Relation) {
    && (early.subscribedAt.Some? ==> late.subscribedAt == early.subscribedAt)
    && (early.isFollower && late.isFollower ==> late.followedAt == early.followedAt)
  }

  lemma StepKeepsDates(c: Cell, now: Time, e: RowEvent)
    requires CellOk(c) && c.row.Some?
    ensures Step(c, now, e).row.Some? && DatesKept(c.row.value, Row(Step(c, now, e)))
  {
  }

  /** The first subscription date stays for good, the follow date for as long as the follow lasts. */
  lemma {:induction false} DatesAreWrittenOnce(cells: seq<Cell>, steps: seq<Timed>, i: nat, j: nat)
    requires IsRun(cells, steps) && CellOk(cells[0]) && i <= j <= |steps| && cells[i].row.Some?
    requires forall k | i <= k <= j :: Row(cells[i]).isFollower ==> Row(cells[k]).isFollower
    ensures cells[j].row.Some? && DatesKept(Row(cells[i]), Row(cells[j]))
    decreases j - i
  {
    if i < j {
      DatesAreWrittenOnce(cells, steps, i, j - 1);
      ReachableRowsAreConsistent(cells, steps, j - 1);
      assert Moves(cells, steps, j - 1);
      StepKeepsDates(cells[j - 1], steps[j - 1].at, steps[j - 1].e);
    }
  }

  /** The months a step reports, 0 if it reports none. */
  function ReportedMonths(e: RowEvent): int {
    match e
    case Subscribed(_, _, duration) => duration.GetOr(1)
    case Renewed(_, duration) => duration.GetOr(0)
    case ReceivedSub(_) => 1
    case Chatted(badges) => if HasBadge(badges, "subscriber") then BadgeMonths(badges) else 0
    case ProbeAnswered(Usable(card), _) => ClampMonths(card.subscribedForMonths)
    case _ => 0
  }

  /** The months counter is a running maximum of the reports; a renewal without one adds a month. */
  lemma MonthsAreTheHighestReport(r: Relation, days: Buckets, now: Time, e: RowEvent)
    requires 0 <= r.subMonthsCumulative
    ensures Row(Step(Cell(Some(r), days), now, e)).subMonthsCumulative
         == Max(r.subMonthsCumulative + (if e.Renewed? then 1 else 0), ReportedMonths(e))
  {
    match e {
      case Subscribed(_, _, _) =>
      case Renewed(_, _) =>
      case ReceivedSub(_) =>
      case Chatted(badges) => ChatReportsMonths(r, now, badges);
      case ProbeAnswered(_, _) =>
      case _ =>
    }
  }

  lemma ChatReportsMonths(r: Relation, now: Time, badges: seq<Badge>)
    requires 0 <= r.subMonthsCumulative
    ensures ChattedRow(r, now, badges).subMonthsCumulative
         == Max(r.subMonthsCumulative, ReportedMonths(Chatted(badges)))
  {
  }

  /** No report is ever forgotten: at the end of any run the months cover every report made to a stored row. */
  lemma MonthsCoverEveryReport(cells: seq<Cell>, steps: seq<Timed>, i: nat, k: nat)
    requires IsRun(cells, steps) && CellOk(cells[0]) && i < k <= |steps| && cells[i].row.Some?
    ensures Row(cells[k]).subMonthsCumulative >= ReportedMonths(steps[i].e)
  {
    ReachableRowsAreConsistent(cells, steps, i);
    assert Moves(cells, steps, i);
    MonthsAreTheHighestReport(cells[i].row.value, cells[i].days, steps[i].at, steps[i].e);
    TotalsNeverDecrease(cells, steps, i + 1, k);
  }

  /** Kicks given so far. */
  function KicksGiven(steps: seq<Timed>, k: nat): nat
    requires k <= |steps|
  {
    if k == 0 then 0
    else KicksGiven(steps, k - 1) + if steps[k - 1].e.GaveKicks? then steps[k - 1].e.amount else 0
  }

  /** Subs gifted so far. */
  function SubsGiven(steps: seq<Timed>, k: nat): nat
    requires k <= |steps|
  {
    if k == 0 then 0
    else SubsGiven(steps, k - 1) + if steps[k - 1].e.GaveSubs? then steps[k - 1].e.count else 0
  }

  lemma StepAddsGifts(c: Cell, now: Time, e: RowEvent)
    ensures Row(Step(c, now, e)).kicksDonated == Row(c).kicksDonated + if e.GaveKicks? then e.amount else 0
    ensures Row(Step(c, now, e)).giftedSubsGiven
         >= Row(c).giftedSubsGiven + if e.GaveSubs? then e.count else 0
    ensures (e.Chatted? ==> !HasBadge(e.badges, "sub_gifter")) ==>
              Row(Step(c, now, e)).giftedSubsGiven == Row(c).giftedSubsGiven + if e.GaveSubs? then e.count else 0
  {
    if e.Chatted? && CountOf(e.badges, "sub_gifter").Some? {
      CountedBadgeIsThere(e.badges, "sub_gifter");
    }
  }

  lemma {:induction false} CountedBadgeIsThere(badges: seq<Badge>, kind: string)
    requires CountOf(badges, kind).Some?
    ensures HasBadge(badges, kind)
  {
    if badges[0].kind != kind {
      CountedBadgeIsThere(badges[1..], kind);
      var i :| 0 <= i < |badges| - 1 && badges[1..][i].kind == kind;
      assert badges[i + 1].kind == kind;
    }
  }

  /**
   * Conservation: the kicks total is exactly the sum of the kicks events; the gifted total is at
   * least the sum of the gift events, and exactly that when no gifter badge is seen in chat.
   */
  lemma {:induction false} TotalsAreSums(cells: seq<Cell>, steps: seq<Timed>, k: nat)
    requires IsRun(cells, steps) && k <= |steps|
    ensures Row(cells[k]).kicksDonated == Row(cells[0]).kicksDonated + KicksGiven(steps, k)
    ensures Row(cells[k]).giftedSubsGiven >= Row(cells[0]).giftedSubsGiven + SubsGiven(steps, k)
    ensures (forall i | 0 <= i < k && steps[i].e.Chatted? :: !HasBadge(steps[i].e.badges, "sub_gifter")) ==>
              Row(cells[k]).giftedSubsGiven == Row(cells[0]).giftedSubsGiven + SubsGiven(steps, k)
  {
    if k > 0 {
      TotalsAreSums(cells, steps, k - 1);
      assert Moves(cells, steps, k - 1);
      StepAddsGifts(cells[k - 1], steps[k - 1].at, steps[k - 1].e);
    }
  }

  // ---------------------------------------------------------- the chat arm's changed flag

  /** `changed` is exactly right: it is set when a chat message alters a rule input besides the counter. */
  lemma ChatChangesExactlyTheFacts(user: KickUser, r: Relation, now: Time, badges: seq<Badge>)
    ensures ChatChanges(r, badges)
       <==> FactsOf(Viewer(user, Some(ChattedRow(r, now, badges))))
            != FactsOf(Viewer(user, Some(r))).(chatMessages30d := r.chatMessages30d + 1)
  {
    if BadgeRaises(r, badges) {
      assert !r.isSubscriber || r.subMonthsCumulative < BadgeMonths(badges);
    }
  }

  // -------------------------------------------------------- evidence keeps a subscription

  /** The step shows an active subscription: a subscriber badge in chat, or a probed card. */
  predicate ShowsActiveSub(e: RowEvent) {
    || (e.Chatted? && HasBadge(e.badges, "subscriber"))
    || (e.ProbeAnswered? && e.outcome.Usable? && e.outcome.card.isSubscriber)
  }

  /** How far past the evidence the stored expiry is sure to lie. */
  function EvidenceFloor(e: RowEvent): Time {
    if e.Chatted? then DAY else PROBED_SUB_FLOOR
  }

  function SuppliedExpiry(e: RowEvent): Option<Time> {
    match e
    case Subscribed(_, expiresAt, _) => expiresAt
    case Renewed(expiresAt, _) => expiresAt
    case ReceivedSub(expiresAt) => expiresAt
    case _ => None
  }

  predicate ActiveUntil(c: Cell, t: Time) {
    c.row.Some? && c.row.value.isSubscriber && c.row.value.subExpiresAt.Some? && c.row.value.subExpiresAt.value >= t
  }

  lemma EvidenceSetsTheFloor(c: Cell, now: Time, e: RowEvent)
    requires ShowsActiveSub(e) && (e.ProbeAnswered? ==> c.row.Some?)
    ensures ActiveUntil(Step(c, now, e), now + EvidenceFloor(e))
  {
  }

  lemma StepKeepsTheFloor(c: Cell, now: Time, e: RowEvent, floor: Time)
    requires ActiveUntil(c, floor) && now <= floor + EXPIRY_GRACE
    requires SuppliedExpiry(e).Some? ==> SuppliedExpiry(e).value >= floor
    ensures ActiveUntil(Step(c, now, e), floor)
  {
  }

  /**
   * After a subscriber badge in chat at time t nothing clears the subscription up to t + 3 days,
   * after a probed active sub up to t + 5 days, as long as no later subscription event supplies an
   * expiry before the floor.
   */
  lemma {:induction false} ShownSubscriptionSurvivesSweeps(cells: seq<Cell>, steps: seq<Timed>, i: nat, k: nat)
    requires IsRun(cells, steps) && i < k <= |steps| && ShowsActiveSub(steps[i].e)
    requires steps[i].e.ProbeAnswered? ==> cells[i].row.Some?
    requires forall j | i < j < k :: steps[j].at <= steps[i].at + EvidenceFloor(steps[i].e) + EXPIRY_GRACE
    requires forall j | i < j < k && SuppliedExpiry(steps[j].e).Some? ::
               SuppliedExpiry(steps[j].e).value >= steps[i].at + EvidenceFloor(steps[i].e)
    ensures ActiveUntil(cells[k], steps[i].at + EvidenceFloor(steps[i].e))
    decreases k
  {
    assert Moves(cells, steps, k - 1);
    if k == i + 1 {
      EvidenceSetsTheFloor(cells[i], steps[i].at, steps[i].e);
    } else {
      ShownSubscriptionSurvivesSweeps(cells, steps, i, k - 1);
      StepKeepsTheFloor(cells[k - 1], steps[k - 1].at, steps[k - 1].e, steps[i].at + EvidenceFloor(steps[i].e));
    }
  }
}

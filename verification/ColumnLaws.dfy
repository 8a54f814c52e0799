/**
 * What each column of a relation row holds, told from the events alone: the expiry last supplied,
 * the date a follow or a subscription began, the streak, the gift mark and the months.
 */
module ColumnLaws {
  import opened Wrappers
  import opened Facts
  import opened FollowSync
  import opened RelationEvents
  import opened FollowRuns

  function After(c: Cell, s: Timed): Relation {
    Row(Step(c, s.at, s.e))
  }

  /** A new sub, a renewal or a gift sub. */
  predicate IsSubscription(e: RowEvent) {
    e.Subscribed? || e.Renewed? || e.ReceivedSub?
  }

  /** A chat message with the subscriber badge. */
  predicate ShowsBadge(e: RowEvent) {
    e.Chatted? && HasBadge(e.badges, "subscriber")
  }

  /** A usable answer whose card shows an active subscription. */
  predicate ShowsCard(e: RowEvent) {
    e.ProbeAnswered? && e.outcome.Usable? && e.outcome.card.isSubscriber
  }

  // ------------------------------------------------------------------------------ the expiry

  /**
   * A subscription event's expiry is stored as supplied, and one without an expiry keeps the stored
   * one. The badge moves an expiry that is unset or less than a day away to three days from now; a
   * card lifts it to three days from now. Nothing else touches it.
   */
  lemma ExpiryAfterStep(c: Cell, s: Timed)
    requires s.e.ProbeAnswered? ==> c.row.Some?
    ensures var stored, after := Row(c).subExpiresAt, After(c, s).subExpiresAt;
            && (IsSubscription(s.e) ==> after == if s.e.expiresAt.Some? then s.e.expiresAt else stored)
            && (ShowsBadge(s.e) ==>
                  after == if stored.None? || stored.value - s.at < 24 * HOUR then Some(s.at + 72 * HOUR) else stored)
            && (ShowsCard(s.e) ==>
                  after == if stored.Some? && stored.value > s.at + 72 * HOUR then stored else Some(s.at + 72 * HOUR))
            && (!IsSubscription(s.e) && !ShowsBadge(s.e) && !ShowsCard(s.e) ==> after == stored)
  {
    match s.e {
      case Followed =>
      case Subscribed(_, _, _) =>
      case Renewed(_, _) =>
      case GaveSubs(_) =>
      case ReceivedSub(_) =>
      case Chatted(_) =>
      case GaveKicks(_) =>
      case ProbeAnswered(_, _) =>
      case ExpirySwept =>
      case ChatAged(_) =>
    }
  }

  /** No step in this range shows or starts a subscription. */
  predicate NoEvidence(steps: seq<Timed>, i: nat, k: nat)
    requires k <= |steps|
  {
    forall j | i <= j < k :: !IsSubscription(steps[j].e) && !ShowsBadge(steps[j].e) && !ShowsCard(steps[j].e)
  }

  /** A sweep in this range later than `t`. */
  predicate SweptAfter(steps: seq<Timed>, i: nat, k: nat, t: Time)
    requires k <= |steps|
  {
    exists j | i <= j < k :: steps[j].e.ExpirySwept? && steps[j].at > t
  }

  lemma SubscriptionStep(c: Cell, s: Timed)
    ensures IsSubscription(s.e) ==> Step(c, s.at, s.e).row.Some? && After(c, s).isSubscriber
    ensures c.row.Some? && !IsSubscription(s.e) && !ShowsBadge(s.e) && !ShowsCard(s.e) ==>
              var expiry := c.row.value.subExpiresAt;
              Step(c, s.at, s.e).row.Some?
              && (After(c, s).isSubscriber
                  <==> c.row.value.isSubscriber
                       && !(s.e.ExpirySwept? && expiry.Some? && s.at - expiry.value > 48 * HOUR))
  {
    match s.e {
      case Followed =>
      case Subscribed(_, _, _) =>
      case Renewed(_, _) =>
      case GaveSubs(_) =>
      case ReceivedSub(_) =>
      case Chatted(_) =>
      case GaveKicks(_) =>
      case ProbeAnswered(_, _) =>
      case ExpirySwept =>
      case ChatAged(_) =>
    }
  }

  /**
   * From a supplied expiry x on, without later evidence, the stored expiry is x and the subscription
   * lasts exactly until the first sweep later than x + 2 days.
   */
  lemma {:induction false} SuppliedExpiryRules(cells: seq<Cell>, steps: seq<Timed>, i: nat, k: nat)
    requires IsRun(cells, steps) && i < k <= |steps|
    requires IsSubscription(steps[i].e) && steps[i].e.expiresAt.Some? && NoEvidence(steps, i + 1, k)
    ensures var x := steps[i].e.expiresAt.value;
            && cells[k].row.Some? && cells[k].row.value.subExpiresAt == Some(x)
            && (cells[k].row.value.isSubscriber <==> !SweptAfter(steps, i + 1, k, x + 48 * HOUR))
    decreases k
  {
    assert Moves(cells, steps, k - 1);
    SubscriptionStep(cells[k - 1], steps[k - 1]);
    if k == i + 1 {
      ExpiryAfterStep(cells[k - 1], steps[k - 1]);
    } else {
      SuppliedExpiryRules(cells, steps, i, k - 1);
      ExpiryAfterStep(cells[k - 1], steps[k - 1]);
      var x := steps[i].e.expiresAt.value;
      assert SweptAfter(steps, i + 1, k, x + 48 * HOUR)
          <==> SweptAfter(steps, i + 1, k - 1, x + 48 * HOUR)
               || (steps[k - 1].e.ExpirySwept? && steps[k - 1].at > x + 48 * HOUR);
    }
  }

  // ------------------------------------------------------------------------- the follow date

  /** The date a step gives to the follow it begins: its own time, or the date on the card. */
  function FollowDateOf(s: Timed): Time {
    if s.e.ProbeAnswered? && s.e.outcome.Usable? && s.e.outcome.card.followingSince.Some?
    then s.e.outcome.card.followingSince.value
    else s.at
  }

  lemma FollowBeginsAt(c: Cell, s: Timed)
    requires CellOk(c) && !Follows(c) && Follows(Step(c, s.at, s.e))
    ensures s.e.Followed? || (s.e.ProbeAnswered? && s.e.outcome.Usable? && s.e.outcome.card.isFollowing)
    ensures After(c, s).followedAt == Some(FollowDateOf(s))
  {
    if s.e.ProbeAnswered? {
      assert Step(c, s.at, s.e).row == Some(Probed(c.row.value, s.e.outcome, s.e.confirmations, s.at));
    }
  }

  lemma FollowGoesOn(c: Cell, s: Timed)
    requires CellOk(c) && Follows(c) && Follows(Step(c, s.at, s.e))
    ensures After(c, s).followedAt == Row(c).followedAt
  {
    StepKeepsDates(c, s.at, s.e);
  }

  /** Step `i` began the follow that still lasts at `k`. */
  predicate BeganAt(cells: seq<Cell>, steps: seq<Timed>, i: nat, k: nat)
    requires k <= |steps| < |cells|
  {
    i < k && !Follows(cells[i]) && forall j | i < j <= k :: Follows(cells[j])
  }

  /**
   * In every run that starts without a follow, a stored follow was begun by one step and its date is
   * the one that step named, whatever other events and answers came since.
   */
  lemma {:induction false} FollowDateIsNamedAtItsStart(cells: seq<Cell>, steps: seq<Timed>, k: nat)
    requires IsRun(cells, steps) && CellOk(cells[0]) && !Follows(cells[0]) && k <= |steps| && Follows(cells[k])
    ensures exists i: nat :: BeganAt(cells, steps, i, k) && Row(cells[k]).followedAt == Some(FollowDateOf(steps[i]))
  {
    ReachableRowsAreConsistent(cells, steps, k - 1);
    assert Moves(cells, steps, k - 1);
    if Follows(cells[k - 1]) {
      FollowDateIsNamedAtItsStart(cells, steps, k - 1);
      var i: nat :| BeganAt(cells, steps, i, k - 1) && Row(cells[k - 1]).followedAt == Some(FollowDateOf(steps[i]));
      FollowGoesOn(cells[k - 1], steps[k - 1]);
      assert BeganAt(cells, steps, i, k);
    } else {
      FollowBeginsAt(cells[k - 1], steps[k - 1]);
      assert BeganAt(cells, steps, k - 1, k);
    }
  }

  // ----------------------------------------------------------- the first subscription date

  /** The date a step gives a subscription that has none: a supplied creation date, or its own time. */
  function SubscriptionDateOf(s: Timed): Time {
    if s.e.Subscribed? && s.e.createdAt.Some? then s.e.createdAt.value else s.at
  }

  /** What can name the first date: a new sub, a gift sub, or a badge that raises; a renewal or a card does not. */
  predicate NamesDate(c: Cell, e: RowEvent) {
    e.Subscribed? || e.ReceivedSub? || (ShowsBadge(e) && RaisedByBadge(Row(c), e.badges))
  }

  /** The badge shows a subscription, or more months, than stored. */
  predicate RaisedByBadge(r: Relation, badges: seq<Badge>) {
    !r.isSubscriber || exists i | 0 <= i < |badges| ::
      && IsFirst(badges, "subscriber", i)
      && r.subMonthsCumulative
         < (if badges[i].count.Some? && badges[i].count.value > 1 then badges[i].count.value else 1)
  }

  predicate IsFirst(badges: seq<Badge>, kind: string, i: int) {
    0 <= i < |badges| && badges[i].kind == kind && forall j | 0 <= j < i :: badges[j].kind != kind
  }

  /** The count that matters is that of the first badge of its kind. */
  lemma {:induction false} FirstBadgeCounts(badges: seq<Badge>, kind: string)
    ensures HasBadge(badges, kind) ==> exists i :: IsFirst(badges, kind, i)
    ensures forall i | IsFirst(badges, kind, i) :: HasBadge(badges, kind) && CountOf(badges, kind) == badges[i].count
    ensures !HasBadge(badges, kind) ==> CountOf(badges, kind).None?
  {
    if badges != [] {
      if badges[0].kind == kind {
        assert IsFirst(badges, kind, 0);
      } else {
        FirstBadgeCounts(badges[1..], kind);
        forall i | IsFirst(badges, kind, i) ensures CountOf(badges, kind) == badges[i].count {
          assert IsFirst(badges[1..], kind, i - 1);
        }
        if HasBadge(badges, kind) {
          var i :| 0 <= i < |badges| && badges[i].kind == kind;
          assert badges[1..][i - 1].kind == kind;
          var j :| IsFirst(badges[1..], kind, j);
          assert IsFirst(badges, kind, j + 1);
        }
        if HasBadge(badges[1..], kind) {
          var i :| 0 <= i < |badges| - 1 && badges[1..][i].kind == kind;
          assert badges[i + 1].kind == kind;
        }
      }
    }
  }

  lemma BadgeRaisesExactlyWhenHigher(r: Relation, badges: seq<Badge>)
    ensures BadgeRaises(r, badges) <==> HasBadge(badges, "subscriber") && RaisedByBadge(r, badges)
  {
    FirstBadgeCounts(badges, "subscriber");
  }

  lemma SubscriptionDateStep(c: Cell, s: Timed)
    ensures Row(c).subscribedAt.None? ==>
              After(c, s).subscribedAt == if NamesDate(c, s.e) then Some(SubscriptionDateOf(s)) else None
    ensures Row(c).subscribedAt.Some? ==> After(c, s).subscribedAt == Row(c).subscribedAt
  {
    match s.e {
      case Followed =>
      case Subscribed(_, _, _) =>
      case Renewed(_, _) =>
      case GaveSubs(_) =>
      case ReceivedSub(_) =>
      case Chatted(_) => BadgeRaisesExactlyWhenHigher(Row(c), s.e.badges);
      case GaveKicks(_) =>
      case ProbeAnswered(_, _) =>
      case ExpirySwept =>
      case ChatAged(_) =>
    }
  }

  /** The first step that names a date decides it for good. */
  lemma {:induction false} FirstDateIsNamedOnce(cells: seq<Cell>, steps: seq<Timed>, i: nat, k: nat)
    requires IsRun(cells, steps) && i < k <= |steps| && Row(cells[0]).subscribedAt.None?
    requires NamesDate(cells[i], steps[i].e) && forall j | 0 <= j < i :: !NamesDate(cells[j], steps[j].e)
    ensures Row(cells[k]).subscribedAt == Some(SubscriptionDateOf(steps[i]))
    decreases k
  {
    assert Moves(cells, steps, k - 1);
    SubscriptionDateStep(cells[k - 1], steps[k - 1]);
    if k == i + 1 {
      NoDateYet(cells, steps, i);
    } else {
      FirstDateIsNamedOnce(cells, steps, i, k - 1);
    }
  }

  lemma {:induction false} NoDateYet(cells: seq<Cell>, steps: seq<Timed>, k: nat)
    requires IsRun(cells, steps) && k <= |steps| && Row(cells[0]).subscribedAt.None?
    requires forall j | 0 <= j < k :: !NamesDate(cells[j], steps[j].e)
    ensures Row(cells[k]).subscribedAt.None?
  {
    if k > 0 {
      NoDateYet(cells, steps, k - 1);
      assert Moves(cells, steps, k - 1);
      SubscriptionDateStep(cells[k - 1], steps[k - 1]);
    }
  }

  // ------------------------------------------------------------------ streak, gift mark, gifts

  /** The subscription lapses at this sweep. */
  predicate Lapses(c: Cell, s: Timed) {
    && s.e.ExpirySwept? && Row(c).isSubscriber
    && Row(c).subExpiresAt.Some? && s.at - Row(c).subExpiresAt.value > 48 * HOUR
  }

  /** A streak starts at one, grows by one per renewal, and ends with a lapse. */
  lemma StreakStep(c: Cell, s: Timed)
    ensures var before, after := Row(c).subStreakMonths, After(c, s).subStreakMonths;
            && (Lapses(c, s) ==> after == 0)
            && (s.e.Renewed? ==> after == before + 1)
            && (NamesDate(c, s.e) ==> after == if before < 1 then 1 else before)
            && (!Lapses(c, s) && !s.e.Renewed? && !NamesDate(c, s.e) ==> after == before)
  {
    match s.e {
      case Followed =>
      case Subscribed(_, _, _) =>
      case Renewed(_, _) =>
      case GaveSubs(_) =>
      case ReceivedSub(_) =>
      case Chatted(_) => BadgeRaisesExactlyWhenHigher(Row(c), s.e.badges);
      case GaveKicks(_) =>
      case ProbeAnswered(_, _) =>
      case ExpirySwept =>
      case ChatAged(_) =>
    }
  }

  function Renewals(steps: seq<Timed>, i: nat, k: nat): nat
    requires i <= k <= |steps|
    decreases k
  {
    if k == i then 0 else Renewals(steps, i, k - 1) + if steps[k - 1].e.Renewed? then 1 else 0
  }

  /** Between lapses a running streak counts the renewals, and nothing else moves it. */
  lemma {:induction false} StreakCountsRenewals(cells: seq<Cell>, steps: seq<Timed>, i: nat, k: nat)
    requires IsRun(cells, steps) && i <= k <= |steps| && Row(cells[i]).subStreakMonths >= 1
    requires forall j | i <= j < k :: !Lapses(cells[j], steps[j])
    ensures Row(cells[k]).subStreakMonths == Row(cells[i]).subStreakMonths + Renewals(steps, i, k)
    decreases k
  {
    if i < k {
      StreakCountsRenewals(cells, steps, i, k - 1);
      assert Moves(cells, steps, k - 1);
      StreakStep(cells[k - 1], steps[k - 1]);
    }
  }

  /** The gift mark is set by the first gift sub received, and stays. */
  lemma {:induction false} GiftMarkMeansAGift(cells: seq<Cell>, steps: seq<Timed>, k: nat)
    requires IsRun(cells, steps) && k <= |steps|
    ensures Row(cells[k]).subIsGift <==> Row(cells[0]).subIsGift || exists j | 0 <= j < k :: steps[j].e.ReceivedSub?
  {
    if k > 0 {
      GiftMarkMeansAGift(cells, steps, k - 1);
      assert Moves(cells, steps, k - 1);
      GiftMarkStep(cells[k - 1], steps[k - 1]);
    }
  }

  lemma GiftMarkStep(c: Cell, s: Timed)
    ensures After(c, s).subIsGift <==> Row(c).subIsGift || s.e.ReceivedSub?
  {
    match s.e {
      case Followed =>
      case Subscribed(_, _, _) =>
      case Renewed(_, _) =>
      case GaveSubs(_) =>
      case ReceivedSub(_) =>
      case Chatted(_) =>
      case GaveKicks(_) =>
      case ProbeAnswered(_, _) =>
      case ExpirySwept =>
      case ChatAged(_) =>
    }
  }

  /** A gifter badge with a count lifts the gifted total to that count; gifts are added to it. */
  lemma GiftedStep(c: Cell, s: Timed)
    ensures var before, after := Row(c).giftedSubsGiven, After(c, s).giftedSubsGiven;
            && (s.e.GaveSubs? ==> after == before + s.e.count)
            && (s.e.Chatted? ==>
                  forall i | IsFirst(s.e.badges, "sub_gifter", i) && s.e.badges[i].count.Some? ::
                    after == if s.e.badges[i].count.value > before then s.e.badges[i].count.value else before)
            && (s.e.Chatted? && !HasBadge(s.e.badges, "sub_gifter") ==> after == before)
            && (!s.e.GaveSubs? && !s.e.Chatted? ==> after == before)
  {
    match s.e {
      case Followed =>
      case Subscribed(_, _, _) =>
      case Renewed(_, _) =>
      case GaveSubs(_) =>
      case ReceivedSub(_) =>
      case Chatted(_) => FirstBadgeCounts(s.e.badges, "sub_gifter");
      case GaveKicks(_) =>
      case ProbeAnswered(_, _) =>
      case ExpirySwept =>
      case ChatAged(_) =>
    }
  }

  // --------------------------------------------------------------------------- the months

  /** What a new sub, a renewal, a gift sub, a badge or a card says about the months. */
  lemma MonthsStep(c: Cell, s: Timed)
    requires CellOk(c) && (s.e.ProbeAnswered? ==> c.row.Some?)
    ensures var before, after := Row(c).subMonthsCumulative, After(c, s).subMonthsCumulative;
            && (s.e.Subscribed? ==>
                  after == Higher(before, if s.e.duration.Some? then s.e.duration.value else 1))
            && (s.e.Renewed? ==>
                  after == Higher(before + 1, if s.e.duration.Some? then s.e.duration.value else 0))
            && (s.e.ReceivedSub? ==> after == Higher(before, 1))
            && (s.e.Chatted? ==>
                  forall i | IsFirst(s.e.badges, "subscriber", i) ::
                    after == Higher(before, if s.e.badges[i].count.Some? && s.e.badges[i].count.value > 1
                                            then s.e.badges[i].count.value else 1))
            && (s.e.Chatted? && !HasBadge(s.e.badges, "subscriber") ==> after == before)
            && (s.e.ProbeAnswered? && s.e.outcome.Usable? && s.e.outcome.card.subscribedForMonths <= 0x7fff_ffff ==>
                  after == Higher(before, s.e.outcome.card.subscribedForMonths))
            && (s.e.ProbeAnswered? && s.e.outcome.Usable? && s.e.outcome.card.subscribedForMonths > 0x7fff_ffff ==>
                  after == Higher(before, 0x7fff_ffff))
  {
    match s.e {
      case Followed =>
      case Subscribed(_, _, _) =>
      case Renewed(_, _) =>
      case GaveSubs(_) =>
      case ReceivedSub(_) =>
      case Chatted(_) => FirstBadgeCounts(s.e.badges, "subscriber");
      case GaveKicks(_) =>
      case ProbeAnswered(_, _) =>
      case ExpirySwept =>
      case ChatAged(_) =>
    }
  }

  function Higher(a: int, b: int): int {
    if a < b then b else a
  }

  // ------------------------------------------------------------------------ the follow stamps

  /** The denial comes at least six hours after the one counted before, if any. */
  predicate CountsAsMiss(c: Cell, s: Timed) {
    && Follows(c) && Denies(s.e)
    && (Row(c).followMissedAt.Some? ==> s.at - Row(c).followMissedAt.value >= 6 * HOUR)
  }

  /** A usable answer that leaves the follow standing confirms it; a counted denial stamps the miss. */
  lemma FollowStampsStep(c: Cell, s: Timed)
    requires s.e.ProbeAnswered? ==> c.row.Some?
    ensures After(c, s).followConfirmedAt
         == if Answer(s.e).Some? && Follows(Step(c, s.at, s.e)) then Some(s.at) else Row(c).followConfirmedAt
    ensures After(c, s).followMissedAt == if CountsAsMiss(c, s) then Some(s.at) else Row(c).followMissedAt
  {
    match s.e {
      case Followed =>
      case Subscribed(_, _, _) =>
      case Renewed(_, _) =>
      case GaveSubs(_) =>
      case ReceivedSub(_) =>
      case Chatted(_) =>
      case GaveKicks(_) =>
      case ProbeAnswered(_, _) =>
      case ExpirySwept =>
      case ChatAged(_) =>
    }
  }
  /** A counted denial adds a miss, up to 32767; it takes the follow away exactly when the misses reach the setting. */
  lemma CountedDenialStep(c: Cell, s: Timed)
    requires CountsAsMiss(c, s)
    ensures var misses := if Row(c).followProbeMisses >= 32767 then 32767 else Row(c).followProbeMisses + 1;
            && (Follows(Step(c, s.at, s.e)) <==> misses < s.e.confirmations)
            && After(c, s).followProbeMisses == if misses < s.e.confirmations then misses else 0
  {
    assert Step(c, s.at, s.e).row == Some(Probed(c.row.value, s.e.outcome, s.e.confirmations, s.at));
  }

  // ---------------------------------------------------------------------- the chat counter

  /** The last thirty days of a bucket list, today included. */
  function LastThirtyDays(days: Buckets, now: Time): set<int> {
    set d | d in days && d > now / DAY - 30
  }

  /** A message adds one to the counter and to today's bucket; only ageing otherwise touches either. */
  lemma ChatCounterStep(c: Cell, s: Timed)
    ensures s.e.Chatted? ==>
              && After(c, s).chatMessages30d == Row(c).chatMessages30d + 1
              && Step(c, s.at, s.e).days
                 == c.days[s.at / DAY := (if s.at / DAY in c.days then c.days[s.at / DAY] else 0) + 1]
    ensures !s.e.Chatted? && !s.e.ChatAged? ==>
              After(c, s).chatMessages30d == Row(c).chatMessages30d && Step(c, s.at, s.e).days == c.days
  {
    match s.e {
      case Followed =>
      case Subscribed(_, _, _) =>
      case Renewed(_, _) =>
      case GaveSubs(_) =>
      case ReceivedSub(_) =>
      case Chatted(_) =>
      case GaveKicks(_) =>
      case ProbeAnswered(_, _) =>
      case ExpirySwept =>
      case ChatAged(_) =>
    }
  }

  /**
   * Ageing brings a counted row down to the messages of the last thirty days, unless the recount
   * failed, and then drops exactly the older buckets, unless the clean-up failed.
   */
  lemma AgeingStep(c: Cell, now: Time, ageing: AgeOutcome)
    requires c.row.Some?
    ensures var s := Timed(now, ChatAged(ageing));
            && After(c, s).chatMessages30d
               == (if ageing == RecountFailed || Row(c).chatMessages30d <= 0 then Row(c).chatMessages30d
                   else SumOver(c.days, LastThirtyDays(c.days, now)))
            && (ageing == Aged ==>
                  forall d :: d in Step(c, now, s.e).days <==> d in LastThirtyDays(c.days, now))
            && (forall d | d in Step(c, now, s.e).days :: d in c.days && Step(c, now, s.e).days[d] == c.days[d])
            && (ageing != Aged ==> Step(c, now, s.e).days == c.days)
  {
    assert DaysAfter(c.days, CutoffOf(now)) == LastThirtyDays(c.days, now);
  }
}

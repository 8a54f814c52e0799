/**
 * The theorems about one cell, stated for runs of the tables: in terms of the operations that were
 * carried out and of what the tables held before and after each of them.
 */
module RelationRuns {
  import opened Wrappers
  import opened Facts
  import opened FollowSync
  import opened RelationEvents
  import opened FollowRuns
  import opened ChatWindow
  import opened RelationStore
  import opened JoinedRuns
  import opened RelationHistory

  /** No row of the tables ever becomes inconsistent, and no total ever decreases. */
  lemma TablesKeepEveryRow(tables: seq<Tables>, ops: seq<TimedOperation>, key: Key, k: nat)
    requires IsTableRun(tables, ops) && k <= |ops| && CellOk(CellOf(tables[0], key))
    ensures CellOk(CellOf(tables[k], key))
    ensures TotalsAtMost(CellOf(tables[0], key), CellOf(tables[k], key))
  {
    var cells := CellHistory(tables, ops, key, k);
    assert Matches(tables, ops, key, cells, 0) && Matches(tables, ops, key, cells, k);
    ReachableRowsAreConsistent(cells, History(ops, key, k), |History(ops, key, k)|);
    TotalsNeverDecrease(cells, History(ops, key, k), 0, |History(ops, key, k)|);
  }

  // ------------------------------------------------------- which operations make which events

  predicate IsGift(e: RowEvent) {
    e.GaveSubs? || e.ReceivedSub?
  }

  lemma {:induction false} GiftsOnly(gifter: Option<int>, giftees: seq<int>, expiresAt: Option<Time>, uid: int, k: nat)
    requires k <= |giftees|
    ensures forall e | e in GiftEvents(gifter, giftees, expiresAt, uid, k) ::
              IsGift(e) && (e.ReceivedSub? ==> uid in giftees && e.expiresAt == expiresAt)
  {
    if k > 0 {
      GiftsOnly(gifter, giftees, expiresAt, uid, k - 1);
    }
  }

  predicate IsGifts(op: Operation) {
    op.Delivered? && op.payload.SubscriptionGifts?
  }

  /** Only a delivery of gifts can mean more than one event to a viewer. */
  lemma OneEventOrGifts(op: Operation, key: Key)
    ensures if IsGifts(op) then forall e | e in RowEvents(op, key) :: IsGift(e) else |RowEvents(op, key)| <= 1
  {
    if IsGifts(op) {
      GiftsOnly(op.payload.gifter, op.payload.giftees, op.payload.expiresAt, key.1, |op.payload.giftees|);
    }
  }

  predicate Probes(op: Operation, key: Key) {
    op.ChannelProbed? && key == (op.channel, op.user)
  }

  lemma OnlyProbesAnswer(op: Operation, key: Key, e: RowEvent)
    requires e in RowEvents(op, key) && e.ProbeAnswered?
    ensures Probes(op, key) && RowEvents(op, key) == [ProbeAnswered(op.outcome, op.confirmations)]
  {
    if IsGifts(op) {
      OneEventOrGifts(op, key);
    }
  }

  // ------------------------------------------------------------------- a follow that ends

  predicate Refuses(op: Operation, key: Key) {
    Probes(op, key) && op.outcome.Usable? && !op.outcome.card.isFollowing
  }

  predicate Confirms(op: Operation, key: Key) {
    Probes(op, key) && op.outcome.Usable? && op.outcome.card.isFollowing
  }

  predicate FollowStored(t: Tables, key: Key) {
    Follows(CellOf(t, key))
  }

  /** These operations are negative answers, in order, consecutive ones at least six hours apart. */
  predicate SpacedRefusals(ops: seq<TimedOperation>, key: Key, at: seq<nat>) {
    && (forall j | 0 <= j < |at| :: at[j] < |ops| && Refuses(ops[at[j]].op, key))
    && (forall j | 0 < j < |at| :: at[j - 1] < at[j])
    && (forall j | 0 < j < |at| :: ops[at[j]].at - ops[at[j - 1]].at >= 6 * HOUR)
  }

  /** From operation `i` up to `k` the follow was stored and no answer affirmed it. */
  predicate UnconfirmedSince(tables: seq<Tables>, ops: seq<TimedOperation>, key: Key, i: nat, k: nat)
    requires k <= |ops| < |tables|
  {
    forall j | i <= j < k :: FollowStored(tables[j], key) && !Confirms(ops[j].op, key)
  }

  /** Every probe of the run uses the same configured number of confirmations. */
  predicate ConfirmationsAre(ops: seq<TimedOperation>, n: int) {
    forall i | 0 <= i < |ops| && ops[i].op.ChannelProbed? :: ops[i].op.confirmations == n
  }

  lemma PartIsTidy(o: TimedOperation, key: Key)
    ensures IsTidy(EventsOf(o, key))
    ensures forall s | s in EventsOf(o, key) && s.e.ProbeAnswered? ::
              o.op.ChannelProbed? && s.e.confirmations == o.op.confirmations
  {
    forall s | s in EventsOf(o, key) && s.e.ProbeAnswered?
      ensures |EventsOf(o, key)| == 1 && o.op.ChannelProbed? && s.e.confirmations == o.op.confirmations
    {
      assert s.e in RowEvents(o.op, key);
      OnlyProbesAnswer(o.op, key, s.e);
    }
  }

  lemma PartsAreTidy(ops: seq<TimedOperation>, key: Key, n: int)
    requires ConfirmationsAre(ops, n)
    ensures AreTidy(Parts(ops, key), n)
  {
    var parts: seq<seq<Timed>> := Parts(ops, key);
    forall i | 0 <= i < |parts|
      ensures IsTidy(parts[i]) && forall s | s in parts[i] && s.e.ProbeAnswered? :: s.e.confirmations == n
    {
      PartIsTidy(ops[i], key);
    }
  }

  lemma AnswersOfParts(o: TimedOperation, key: Key)
    ensures DeniesIn(EventsOf(o, key)) <==> Refuses(o.op, key)
    ensures AffirmsIn(EventsOf(o, key)) <==> Confirms(o.op, key)
    ensures |EventsOf(o, key)| == 1 ==> EventsOf(o, key)[0].at == o.at
    ensures Probes(o.op, key) ==> |EventsOf(o, key)| == 1
  {
    var part := EventsOf(o, key);
    if |part| == 1 && part[0].e.ProbeAnswered? {
      assert part[0].e in RowEvents(o.op, key);
      OnlyProbesAnswer(o.op, key, part[0].e);
    }
  }

  lemma {:induction false} QuietKeepsFollow(c: Cell, es: seq<RowEvent>, now: Time, n: nat)
    requires Follows(c) && n <= |es| && forall e | e in es :: Answer(e).None?
    ensures Follows(After(c, es, now, n))
  {
    if n > 0 {
      QuietKeepsFollow(c, es, now, n - 1);
      StepWithoutDenialKeepsCounter(After(c, es, now, n - 1), now, es[n - 1]);
    }
  }

  lemma UnfollowedByProbe(before: Tables, op: Operation, now: Time, after: Tables, key: Key)
    requires Advances(before, op, now, after)
    requires FollowStored(before, key) && !FollowStored(after, key)
    ensures Probes(op, key)
  {
    var es := RowEvents(op, key);
    assert CellOf(after, key) == AfterAll(CellOf(before, key), es, now);
    if !Probes(op, key) {
      forall e | e in es ensures Answer(e).None? {
        if e.ProbeAnswered? {
          OnlyProbesAnswer(op, key, e);
        }
      }
      QuietKeepsFollow(CellOf(before, key), es, now, |es|);
    }
  }

  lemma RefusalsOfParts(ops: seq<TimedOperation>, key: Key, at: seq<nat>)
    requires SpacedParts(Parts(ops, key), at)
    ensures SpacedRefusals(ops, key, at)
  {
    var parts: seq<seq<Timed>> := Parts(ops, key);
    forall j | 0 <= j < |at|
      ensures at[j] < |ops| && Refuses(ops[at[j]].op, key) && parts[at[j]][0].at == ops[at[j]].at
    {
      assert DeniesIn(parts[at[j]]);
      AnswersOfParts(ops[at[j]], key);
    }
  }

  lemma UnconfirmedParts(tables: seq<Tables>, ops: seq<TimedOperation>, key: Key, i: nat, k: nat)
    requires k <= |ops| < |tables| && UnaffirmedParts(StatesOf(tables, key), Parts(ops, key), i, k)
    ensures UnconfirmedSince(tables, ops, key, i, k)
  {
    var states, parts := StatesOf(tables, key), Parts(ops, key);
    forall j | i <= j < k ensures FollowStored(tables[j], key) && !Confirms(ops[j].op, key) {
      assert Follows(states[j]) && !AffirmsIn(parts[j]);
      AnswersOfParts(ops[j], key);
    }
  }

  /**
   * In every run of the tables, an operation that turns a stored follow off is the last of at least
   * `n` probes of that channel and viewer that were answered in the negative, consecutive ones at
   * least six hours apart, with the follow stored and no positive answer from the first of them on.
   */
  lemma StoredFollowNeedsSpacedRefusals(tables: seq<Tables>, ops: seq<TimedOperation>, key: Key, i: nat, n: int)
    requires IsTableRun(tables, ops) && i < |ops| && ConfirmationsAre(ops, n) && 1 <= n <= I16_MAX
    requires Unblemished(CellOf(tables[0], key))
    requires FollowStored(tables[i], key) && !FollowStored(tables[i + 1], key)
    ensures exists at: seq<nat> ::
              && SpacedRefusals(ops, key, at) && |at| >= n && at[|at| - 1] == i
              && UnconfirmedSince(tables, ops, key, at[0], i + 1)
              && ops[i].at - ops[at[0]].at >= (n - 1) * (6 * HOUR)
  {
    assert TablesMove(tables, ops, i);
    UnfollowedByProbe(tables[i], ops[i].op, ops[i].at, tables[i + 1], key);
    AnswersOfParts(ops[i], key);
    TablesAreJoined(tables, ops, key);
    PartsAreTidy(ops, key, n);
    var at := PartsUnfollow(StatesOf(tables, key), Parts(ops, key), i, n);
    RefusalsOfParts(ops, key, at);
    AnswersOfParts(ops[at[0]], key);
    UnconfirmedParts(tables, ops, key, at[0], i + 1);
  }

  // -------------------------------------------------------------- the chat counter and kicks

  predicate Chats(op: Operation, key: Key) {
    op.Delivered? && op.channel == key.0 && op.payload.ChatMessage? && op.payload.sender == Some(key.1)
  }

  /** Messages known at the start plus those delivered since, dated after the cutoff. */
  function MessagesSince(initial: Buckets, ops: seq<TimedOperation>, key: Key, k: nat, cutoff: Cutoff): nat
    requires k <= |ops|
  {
    if k == 0 then SumSince(initial, cutoff)
    else
      MessagesSince(initial, ops, key, k - 1, cutoff)
      + if Chats(ops[k - 1].op, key) && IsAfter(DayOf(ops[k - 1].at), cutoff) then 1 else 0
  }

  /** The cutoff of the last ageing cycle whose recount ran. */
  function LastAgeing(ops: seq<TimedOperation>, k: nat): Cutoff
    requires k <= |ops|
  {
    if k == 0 then None
    else if ops[k - 1].op.ActivityAged? && ops[k - 1].op.ageing != RecountFailed then Some(CutoffOf(ops[k - 1].at))
    else LastAgeing(ops, k - 1)
  }

  function KicksOf(op: Operation, key: Key): nat {
    if op.Delivered? && op.channel == key.0 && op.payload.KicksGifted? && op.payload.amount > 0
       && OrElse(op.payload.sender, op.payload.gifter) == Some(key.1)
    then op.payload.amount
    else 0
  }

  /** The kicks of a viewer's deliveries in one channel. */
  function KicksSum(ops: seq<TimedOperation>, key: Key, k: nat): nat
    requires k <= |ops|
  {
    if k == 0 then 0 else KicksSum(ops, key, k - 1) + KicksOf(ops[k - 1].op, key)
  }

  lemma {:induction false} GiftsCountNothing(part: seq<Timed>, n: nat, cutoff: Cutoff)
    requires n <= |part| && forall s | s in part :: IsGift(s.e)
    ensures Logged(map[], part, n, cutoff) == 0 && LastRecount(part, n) == None && KicksGiven(part, n) == 0
  {
    if n > 0 {
      GiftsCountNothing(part, n - 1, cutoff);
    } else {
      NothingSummed(cutoff);
    }
  }

  lemma NothingSummed(cutoff: Cutoff)
    ensures SumSince(map[], cutoff) == 0
  {
    var none: Buckets := map[];
    assert none.Keys == {} && (cutoff.Some? ==> DaysAfter(none, cutoff.value) == {});
  }

  lemma OneStepCounts(s: Timed, cutoff: Cutoff)
    ensures Logged(map[], [s], 1, cutoff) == if s.e.Chatted? && IsAfter(DayOf(s.at), cutoff) then 1 else 0
    ensures LastRecount([s], 1) == if Recounts(s.e) then Some(CutoffOf(s.at)) else None
    ensures KicksGiven([s], 1) == if s.e.GaveKicks? then s.e.amount else 0
  {
    NothingSummed(cutoff);
    assert Logged(map[], [s], 0, cutoff) == 0 && LastRecount([s], 0) == None && KicksGiven([s], 0) == 0;
  }

  /** What one operation adds to one cell's counts. */
  lemma PartCounts(o: TimedOperation, key: Key, cutoff: Cutoff)
    ensures var part := EventsOf(o, key);
            && Logged(map[], part, |part|, cutoff)
               == (if Chats(o.op, key) && IsAfter(DayOf(o.at), cutoff) then 1 else 0)
            && LastRecount(part, |part|)
               == (if o.op.ActivityAged? && o.op.ageing != RecountFailed then Some(CutoffOf(o.at)) else None)
            && KicksGiven(part, |part|) == KicksOf(o.op, key)
  {
    var es, part := RowEvents(o.op, key), EventsOf(o, key);
    OneEventOrGifts(o.op, key);
    if IsGifts(o.op) {
      assert forall s | s in part :: s.e in es;
      GiftsCountNothing(part, |part|, cutoff);
    } else if es == [] {
      GiftsCountNothing(part, 0, cutoff);
    } else {
      assert part == [Timed(o.at, es[0])];
      OneStepCounts(part[0], cutoff);
    }
  }

  /** These steps hold the messages, recounts and kicks of the first `k` operations. */
  predicate Counts(initial: Buckets, ops: seq<TimedOperation>, key: Key, k: nat, cutoff: Cutoff, steps: seq<Timed>)
    requires k <= |ops|
  {
    && Logged(initial, steps, |steps|, cutoff) == MessagesSince(initial, ops, key, k, cutoff)
    && LastRecount(steps, |steps|) == LastAgeing(ops, k)
    && KicksGiven(steps, |steps|) == KicksSum(ops, key, k)
  }

  lemma OneMoreCounts(
    initial: Buckets, ops: seq<TimedOperation>, key: Key, k: nat, cutoff: Cutoff, steps: seq<Timed>
  )
    requires k < |ops| && Counts(initial, ops, key, k, cutoff, steps)
    ensures Counts(initial, ops, key, k + 1, cutoff, steps + EventsOf(ops[k], key))
  {
    var part := EventsOf(ops[k], key);
    CountsAddUp(initial, steps, part, |part|, cutoff);
    PartCounts(ops[k], key, cutoff);
  }

  lemma {:induction false} HistoryCounts(
    initial: Buckets, ops: seq<TimedOperation>, key: Key, k: nat, cutoff: Cutoff
  )
    requires k <= |ops|
    ensures Counts(initial, ops, key, k, cutoff, History(ops, key, k))
  {
    if k > 0 {
      HistoryCounts(initial, ops, key, k - 1, cutoff);
      OneMoreCounts(initial, ops, key, k - 1, cutoff, History(ops, key, k - 1));
    }
  }

  /**
   * In every run of the tables in time order, the stored counter is the number of the viewer's
   * messages in the channel dated after the cutoff of the last recount, and never below the number
   * dated within the last 30 days.
   */
  lemma StoredCounterIsTheLog(tables: seq<Tables>, ops: seq<TimedOperation>, key: Key, k: nat, now: Time)
    requires IsTableRun(tables, ops) && OperationsInOrder(ops) && k <= |ops| && Seeded(CellOf(tables[0], key))
    requires k > 0 ==> ops[k - 1].at <= now
    ensures var initial, stored := CellOf(tables[0], key).days, Row(CellOf(tables[k], key)).chatMessages30d;
            && stored == MessagesSince(initial, ops, key, k, LastAgeing(ops, k))
            && stored >= MessagesSince(initial, ops, key, k, Some(CutoffOf(now)))
  {
    var cells := CellHistory(tables, ops, key, k);
    var steps, initial := History(ops, key, k), CellOf(tables[0], key).days;
    assert Matches(tables, ops, key, cells, 0) && Matches(tables, ops, key, cells, k);
    HistoryIsInOrder(ops, key, k);
    HistoryIsPast(ops, key, k, now);
    CounterIsTheLog(cells, steps, |steps|);
    CounterNeverUndercounts(cells, steps, |steps|, now);
    HistoryCounts(initial, ops, key, k, LastAgeing(ops, k));
    HistoryCounts(initial, ops, key, k, Some(CutoffOf(now)));
  }

  lemma HistoryIsPast(ops: seq<TimedOperation>, key: Key, k: nat, now: Time)
    requires OperationsInOrder(ops) && k <= |ops| && (k > 0 ==> ops[k - 1].at <= now)
    ensures UpTo(History(ops, key, k), now)
  {
    forall p | 0 <= p < |History(ops, key, k)| ensures History(ops, key, k)[p].at <= now {
      ElementAt(Parts(ops, key), k, p);
    }
  }

  /** Conservation: the stored kicks are the initial ones plus those of the viewer's deliveries. */
  lemma StoredKicksAreTheSum(tables: seq<Tables>, ops: seq<TimedOperation>, key: Key, k: nat)
    requires IsTableRun(tables, ops) && k <= |ops|
    ensures Row(CellOf(tables[k], key)).kicksDonated
         == Row(CellOf(tables[0], key)).kicksDonated + KicksSum(ops, key, k)
  {
    var cells := CellHistory(tables, ops, key, k);
    assert Matches(tables, ops, key, cells, 0) && Matches(tables, ops, key, cells, k);
    TotalsAreSums(cells, History(ops, key, k), |History(ops, key, k)|);
    HistoryCounts(map[], ops, key, k, None);
  }

  // -------------------------------------------------------------- a subscription that was seen

  /** A message with the subscriber badge, or a card that shows the subscription. */
  predicate ShowsSub(op: Operation, key: Key) {
    || (Chats(op, key) && HasBadge(op.payload.badges, "subscriber"))
    || (Probes(op, key) && op.outcome.Usable? && op.outcome.card.isSubscriber)
  }

  function FloorAfter(o: TimedOperation): Time {
    o.at + if o.op.ChannelProbed? then PROBED_SUB_FLOOR else DAY
  }

  /** The expiry a subscription event brings for the viewer. */
  function Supplied(op: Operation, key: Key): Option<Time> {
    if op.Delivered? && op.channel == key.0 then
      match op.payload
      case SubscriptionNew(subscriber, _, expiresAt, _) => if subscriber == Some(key.1) then expiresAt else None
      case SubscriptionRenewal(subscriber, expiresAt, _) => if subscriber == Some(key.1) then expiresAt else None
      case SubscriptionGifts(_, giftees, expiresAt) => if key.1 in giftees then expiresAt else None
      case _ => None
    else None
  }

  lemma PartSparesFloor(o: TimedOperation, key: Key, floor: Time)
    requires o.at <= floor + EXPIRY_GRACE && (Supplied(o.op, key).Some? ==> Supplied(o.op, key).value >= floor)
    ensures SparesFloor(EventsOf(o, key), floor)
  {
    forall s | s in EventsOf(o, key)
      ensures s.at <= floor + EXPIRY_GRACE && (SuppliedExpiry(s.e).Some? ==> SuppliedExpiry(s.e).value >= floor)
    {
      assert s.e in RowEvents(o.op, key);
      if IsGifts(o.op) {
        GiftsOnly(o.op.payload.gifter, o.op.payload.giftees, o.op.payload.expiresAt, key.1, |o.op.payload.giftees|);
      }
    }
  }

  lemma PartShowsSub(o: TimedOperation, key: Key)
    requires ShowsSub(o.op, key)
    ensures var part := EventsOf(o, key);
            && |part| == 1 && ShowsActiveSub(part[0].e) && (part[0].e.ProbeAnswered? <==> o.op.ChannelProbed?)
            && part[0].at + EvidenceFloor(part[0].e) == FloorAfter(o)
  {
  }

  /**
   * In every run of the tables, after a subscriber badge seen at t (or a card with an active
   * subscription of a stored row) the row stays subscribed up to t + 3 days (t + 5 days), unless a
   * later subscription event for the viewer supplies an expiry before the floor.
   */
  lemma StoredSubscriptionSurvives(tables: seq<Tables>, ops: seq<TimedOperation>, key: Key, i: nat, k: nat)
    requires IsTableRun(tables, ops) && i < k <= |ops| && ShowsSub(ops[i].op, key)
    requires ops[i].op.ChannelProbed? ==> key in tables[i].relations
    requires forall j | i < j < k :: ops[j].at <= FloorAfter(ops[i]) + EXPIRY_GRACE
    requires forall j | i < j < k && Supplied(ops[j].op, key).Some? ::
               Supplied(ops[j].op, key).value >= FloorAfter(ops[i])
    ensures key in tables[k].relations && tables[k].relations[key].isSubscriber
    ensures ActiveUntil(CellOf(tables[k], key), FloorAfter(ops[i]))
  {
    TablesAreJoined(tables, ops, key);
    PartShowsSub(ops[i], key);
    var parts: seq<seq<Timed>> := Parts(ops, key);
    forall j | i < j < k ensures SparesFloor(parts[j], FloorAfter(ops[i])) {
      PartSparesFloor(ops[j], key, FloorAfter(ops[i]));
    }
    PartsKeepSubscription(StatesOf(tables, key), parts, i, k);
  }

  // -------------------------------------------------------------- what each delivery means

  /** A payload that names one viewer means one event for that viewer and none for anybody else. */
  lemma PayloadsNameTheirViewer(p: Payload, uid: int)
    ensures p.ChannelFollowed? ==> PayloadEvents(p, uid) == if p.follower == Some(uid) then [Followed] else []
    ensures p.SubscriptionNew? ==>
              PayloadEvents(p, uid)
              == if p.subscriber == Some(uid) then [Subscribed(p.createdAt, p.expiresAt, p.duration)] else []
    ensures p.SubscriptionRenewal? ==>
              PayloadEvents(p, uid) == if p.subscriber == Some(uid) then [Renewed(p.expiresAt, p.duration)] else []
    ensures p.ChatMessage? ==> PayloadEvents(p, uid) == if p.sender == Some(uid) then [Chatted(p.badges)] else []
    ensures p.KicksGifted? ==>
              PayloadEvents(p, uid)
              == if p.amount > 0 && (p.sender == Some(uid) || (p.sender.None? && p.gifter == Some(uid)))
                 then [GaveKicks(p.amount)] else []
    ensures p.OtherEvent? ==> PayloadEvents(p, uid) == []
  {
  }

  /** One sub is credited for a gift without named giftees, else as many as there are. */
  function GiftCredit(gifter: Option<int>, giftees: seq<int>, uid: int): nat {
    if gifter == Some(uid) && uid > 0 then (if |giftees| > 1 then |giftees| else 1) else 0
  }

  /** The viewer was given one of the first `k` subs. */
  predicate IsGiven(giftees: seq<int>, uid: int, k: nat)
    requires k <= |giftees|
  {
    exists i | 0 <= i < k :: giftees[i] == uid
  }

  lemma GiftArrives(c: Cell, now: Time, expiresAt: Option<Time>)
    ensures var row := Row(Step(c, now, ReceivedSub(expiresAt)));
            && row.giftedSubsGiven == Row(c).giftedSubsGiven && row.isSubscriber && row.subIsGift
            && (expiresAt.Some? ==> row.subExpiresAt == expiresAt)
  {
  }

  lemma {:induction false} GiftsMove(
    c: Cell, gifter: Option<int>, giftees: seq<int>, expiresAt: Option<Time>, uid: int, now: Time, k: nat
  )
    requires k <= |giftees|
    ensures var after := AfterAll(c, GiftEvents(gifter, giftees, expiresAt, uid, k), now);
            && Row(after).giftedSubsGiven == Row(c).giftedSubsGiven + GiftCredit(gifter, giftees, uid)
            && (IsGiven(giftees, uid, k) ==>
                  && Row(after).isSubscriber && Row(after).subIsGift
                  && (expiresAt.Some? ==> Row(after).subExpiresAt == expiresAt))
            && (!IsGiven(giftees, uid, k) ==>
                  Row(after) == Row(c).(giftedSubsGiven := Row(after).giftedSubsGiven))
  {
    var es := GiftEvents(gifter, giftees, expiresAt, uid, k);
    if k == 0 {
      if GiftCredit(gifter, giftees, uid) > 0 {
        OneEvent(c, es[0], now);
      }
    } else {
      GiftsMove(c, gifter, giftees, expiresAt, uid, now, k - 1);
      var before := GiftEvents(gifter, giftees, expiresAt, uid, k - 1);
      if giftees[k - 1] == uid {
        assert es == before + [ReceivedSub(expiresAt)];
        AfterOneMore(c, before, ReceivedSub(expiresAt), now);
        GiftArrives(AfterAll(c, before, now), now, expiresAt);
      } else {
        assert es == before;
        assert IsGiven(giftees, uid, k) <==> IsGiven(giftees, uid, k - 1);
      }
    }
  }

  /** A delivery of gifts credits the gifter with the subs given, and makes every giftee a subscriber by gift. */
  lemma GiftsAreCredited(
    before: Tables, channel: int, gifter: Option<int>, giftees: seq<int>, expiresAt: Option<Time>, now: Time,
    after: Tables, uid: int
  )
    requires Advances(before, Delivered(channel, SubscriptionGifts(gifter, giftees, expiresAt)), now, after)
    ensures var was, row := Row(CellOf(before, (channel, uid))), Row(CellOf(after, (channel, uid)));
            && row.giftedSubsGiven == was.giftedSubsGiven + GiftCredit(gifter, giftees, uid)
            && (uid in giftees ==>
                  row.isSubscriber && row.subIsGift && (expiresAt.Some? ==> row.subExpiresAt == expiresAt))
            && (uid !in giftees ==> row == was.(giftedSubsGiven := row.giftedSubsGiven))
  {
    var key := (channel, uid);
    GiftsMove(CellOf(before, key), gifter, giftees, expiresAt, uid, now, |giftees|);
    var op := Delivered(channel, SubscriptionGifts(gifter, giftees, expiresAt));
    assert CellOf(after, key) == AfterAll(CellOf(before, key), RowEvents(op, key), now);
  }
}

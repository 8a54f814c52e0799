/**
 * The `channel_relations` and `chat_activity_days` tables and the operations that write them:
 * webhook events, the per-player probe loop, the expiry sweep and the ageing of the chat counter.
 * Each operation is proved to move every (channel, viewer) cell by that cell's own row events.
 */
module RelationStore {
  import opened Wrappers
  import opened Facts
  import opened FollowSync
  import opened RelationEvents
  import opened Ascending

  /** (kick_channel_id, kick_user_id). */
  type Key = (int, int)

  datatype Tables = Tables(relations: map<Key, Relation>, activity: map<Key, Buckets>)

  function CellOf(t: Tables, key: Key): Cell {
    Cell(if key in t.relations then Some(t.relations[key]) else None,
         if key in t.activity then t.activity[key] else map[])
  }

  /** A webhook payload, as far as the row updates read it. */
  datatype Payload =
    | ChannelFollowed(follower: Option<int>)
    | SubscriptionNew(subscriber: Option<int>, createdAt: Option<Time>, expiresAt: Option<Time>, duration: Option<int>)
    | SubscriptionRenewal(subscriber: Option<int>, expiresAt: Option<Time>, duration: Option<int>)
    | SubscriptionGifts(gifter: Option<int>, giftees: seq<int>, expiresAt: Option<Time>)
    | ChatMessage(sender: Option<int>, badges: seq<Badge>)
    | KicksGifted(sender: Option<int>, gifter: Option<int>, amount: int)
    | OtherEvent

  datatype Operation =
    | Delivered(channel: int, payload: Payload)
    | ChannelProbed(channel: int, user: int, outcome: ProbeOutcome, confirmations: int)
    | ChannelSwept(channel: int)
    | ActivityAged(ageing: AgeOutcome)

  // ------------------------------------------------------- what one operation means for one cell

  function Once(who: Option<int>, uid: int, e: RowEvent): seq<RowEvent> {
    if who == Some(uid) then [e] else []
  }

  /** The gifter's total first (anonymous gifters have no positive id), then one sub per giftee. */
  function GiftEvents(gifter: Option<int>, giftees: seq<int>, expiresAt: Option<Time>, uid: int, k: nat): seq<RowEvent>
    requires k <= |giftees|
  {
    if k == 0 then
      if gifter == Some(uid) && uid > 0 then [GaveSubs(if giftees == [] then 1 else |giftees|)] else []
    else
      GiftEvents(gifter, giftees, expiresAt, uid, k - 1)
      + if giftees[k - 1] == uid then [ReceivedSub(expiresAt)] else []
  }

  function PayloadEvents(p: Payload, uid: int): seq<RowEvent> {
    match p
    case ChannelFollowed(follower) => Once(follower, uid, Followed)
    case SubscriptionNew(subscriber, createdAt, expiresAt, duration) =>
      Once(subscriber, uid, Subscribed(createdAt, expiresAt, duration))
    case SubscriptionRenewal(subscriber, expiresAt, duration) => Once(subscriber, uid, Renewed(expiresAt, duration))
    case SubscriptionGifts(gifter, giftees, expiresAt) => GiftEvents(gifter, giftees, expiresAt, uid, |giftees|)
    case ChatMessage(sender, badges) => Once(sender, uid, Chatted(badges))
    case KicksGifted(sender, gifter, amount) =>
      if amount > 0 then Once(OrElse(sender, gifter), uid, GaveKicks(amount)) else []
    case OtherEvent => []
  }

  function RowEvents(op: Operation, key: Key): seq<RowEvent> {
    match op
    case Delivered(channel, payload) => if key.0 == channel then PayloadEvents(payload, key.1) else []
    case ChannelProbed(channel, user, outcome, confirmations) =>
      if key == (channel, user) then [ProbeAnswered(outcome, confirmations)] else []
    case ChannelSwept(channel) => if key.0 == channel then [ExpirySwept] else []
    case ActivityAged(ageing) => [ChatAged(ageing)]
  }

  /** The cell after the first `k` of these events, all at one moment. */
  function After(c: Cell, es: seq<RowEvent>, now: Time, k: nat): Cell
    requires k <= |es|
  {
    if k == 0 then c else Step(After(c, es, now, k - 1), now, es[k - 1])
  }

  function AfterAll(c: Cell, es: seq<RowEvent>, now: Time): Cell {
    After(c, es, now, |es|)
  }

  lemma {:induction false} AfterPrefix(c: Cell, es: seq<RowEvent>, more: seq<RowEvent>, now: Time, k: nat)
    requires k <= |es| && es <= more
    ensures After(c, es, now, k) == After(c, more, now, k)
  {
    if k > 0 {
      AfterPrefix(c, es, more, now, k - 1);
    }
  }

  /** The operation moved every cell by its own row events, and no other way. */
  ghost predicate Advances(before: Tables, op: Operation, now: Time, after: Tables) {
    forall key: Key ::
      CellOf(after, key) == AfterAll(CellOf(before, key), RowEvents(op, key), now)
  }

  /** One cell took one step; the others are as they were. */
  ghost predicate Stepped(before: Tables, key: Key, now: Time, e: RowEvent, after: Tables) {
    forall k: Key :: CellOf(after, k) == if k == key then Step(CellOf(before, k), now, e) else CellOf(before, k)
  }

  lemma SteppedAdvances(before: Tables, channel: int, uid: int, payload: Payload, now: Time, e: RowEvent, after: Tables)
    requires Stepped(before, (channel, uid), now, e, after)
    requires PayloadEvents(payload, uid) == [e]
    requires forall other | other != uid :: PayloadEvents(payload, other) == []
    ensures Advances(before, Delivered(channel, payload), now, after)
  {
    forall key: Key
      ensures CellOf(after, key)
           == AfterAll(CellOf(before, key), RowEvents(Delivered(channel, payload), key), now)
    {
      if key == (channel, uid) {
        OneEvent(CellOf(before, key), e, now);
      }
    }
  }

  lemma OneEvent(c: Cell, e: RowEvent, now: Time)
    ensures AfterAll(c, [e], now) == Step(c, now, e)
    ensures AfterAll(c, [], now) == c
  {
    assert After(c, [e], now, 0) == c;
  }

  lemma NothingAdvances(t: Tables, channel: int, payload: Payload, now: Time)
    requires forall uid :: PayloadEvents(payload, uid) == []
    ensures Advances(t, Delivered(channel, payload), now, t)
  {
  }

  // ----------------------------------------------------------------- which players re-sync

  /** Whose roles are re-evaluated after a delivery, in order. `before` is the tables it met. */
  function Resynced(before: Tables, channel: int, p: Payload): seq<int> {
    match p
    case ChannelFollowed(follower) => Listed(follower)
    case SubscriptionNew(subscriber, _, _, _) => Listed(subscriber)
    case SubscriptionRenewal(subscriber, _, _) => Listed(subscriber)
    case SubscriptionGifts(gifter, giftees, _) => Credited(gifter) + giftees
    case ChatMessage(sender, badges) =>
      if sender.Some? && ChatChanges(Row(CellOf(before, (channel, sender.value))), badges) then [sender.value] else []
    case KicksGifted(sender, gifter, amount) => if amount > 0 then Listed(OrElse(sender, gifter)) else []
    case OtherEvent => []
  }

  function Listed(who: Option<int>): seq<int> {
    if who.Some? then [who.value] else []
  }

  /** The linked ones, as Discord ids. */
  function Linked(users: map<int, int>, ids: seq<int>): seq<int> {
    if ids == [] then []
    else Linked(users, ids[..|ids| - 1])
         + if ids[|ids| - 1] in users then [users[ids[|ids| - 1]]] else []
  }

  lemma LinkedOneMore(users: map<int, int>, ids: seq<int>, id: int)
    ensures Linked(users, ids + [id]) == Linked(users, ids) + if id in users then [users[id]] else []
  {
    assert (ids + [id])[..|ids|] == ids;
  }

  lemma LinkedNext(users: map<int, int>, start: seq<int>, first: seq<int>, ids: seq<int>, k: nat)
    requires k < |ids|
    ensures start + Linked(users, first + ids[..k + 1])
         == start + Linked(users, first + ids[..k]) + Linked(users, [ids[k]])
  {
    assert first + ids[..k + 1] == first + ids[..k] + [ids[k]];
    assert [] + [ids[k]] == [ids[k]];
    LinkedOneMore(users, first + ids[..k], ids[k]);
    LinkedOneMore(users, [], ids[k]);
  }

  /** The delivery writes some row. */
  predicate Touches(p: Payload) {
    match p
    case ChannelFollowed(follower) => follower.Some?
    case SubscriptionNew(subscriber, _, _, _) => subscriber.Some?
    case SubscriptionRenewal(subscriber, _, _) => subscriber.Some?
    case SubscriptionGifts(gifter, giftees, _) => Credited(gifter) + giftees != []
    case ChatMessage(sender, _) => sender.Some?
    case KicksGifted(sender, gifter, amount) => amount > 0 && OrElse(sender, gifter).Some?
    case OtherEvent => false
  }

  datatype ProbeReport = ProbeReport(attempted: nat, usable: nat, following: nat, removed: nat, changed: bool)

  const CONFIRM_DELAY: Time := MISS_SPACING + 300 * SECOND

  // ------------------------------------------------------- the chat arm, statement by statement

  function WithBadges(r: Relation, badges: seq<Badge>): Relation {
    r.(isModerator := HasBadge(badges, "moderator"), isVip := HasBadge(badges, "vip"), isOg := HasBadge(badges, "og"))
  }

  function WithSubscription(r: Relation, now: Time, badges: seq<Badge>): Relation {
    var raised := BadgeRaises(r, badges);
    r.(
      isSubscriber := r.isSubscriber || raised,
      subscribedAt := if raised then Some(r.subscribedAt.GetOr(now)) else r.subscribedAt,
      subMonthsCumulative :=
        if raised then Max(r.subMonthsCumulative, BadgeMonths(badges)) else r.subMonthsCumulative,
      subStreakMonths := if raised then Max(r.subStreakMonths, 1) else r.subStreakMonths,
      subExpiresAt := if ExpiryFloored(r, now, badges) then Some(now + 3 * DAY) else r.subExpiresAt)
  }

  function WithGifted(r: Relation, badges: seq<Badge>): Relation {
    if GifterRaises(r, badges) then r.(giftedSubsGiven := CountOf(badges, "sub_gifter").value) else r
  }

  /** One after the other the statements do what one message does, and set `changed` exactly when it changes a fact. */
  lemma ChatInOneGo(
    r: Relation, now: Time, badges: seq<Badge>, counted: Relation, badged: Relation, subscribed: Relation
  )
    requires counted == r.(chatMessages30d := r.chatMessages30d + 1)
    requires badged == WithBadges(counted, badges)
    requires subscribed == WithSubscription(badged, now, badges)
    ensures WithGifted(subscribed, badges) == ChattedRow(r, now, badges)
    ensures BadgesDiffer(counted, badges) <==> BadgesDiffer(r, badges)
    ensures BadgeRaises(badged, badges) <==> BadgeRaises(r, badges)
    ensures GifterRaises(subscribed, badges) <==> GifterRaises(r, badges)
  {
  }

  lemma ChatWritten(before: Tables, key: Key, now: Time, badges: seq<Badge>, after: Tables)
    requires after.relations == before.relations[key := ChattedRow(Row(CellOf(before, key)), now, badges)]
    requires after.activity == before.activity[key := CountedBucket(CellOf(before, key).days, DayOf(now))]
    ensures Stepped(before, key, now, Chatted(badges), after)
  {
  }

  datatype GiftOrder = GiftOrder(channel: int, gifter: Option<int>, giftees: seq<int>, expiresAt: Option<Time>)

  /** The gifter to credit: an anonymous one has no positive id. */
  function Credited(gifter: Option<int>): seq<int> {
    if gifter.Some? && gifter.value > 0 then [gifter.value] else []
  }

  function GiftEventsOf(g: GiftOrder, key: Key, k: nat): seq<RowEvent>
    requires k <= |g.giftees|
  {
    if key.0 == g.channel then GiftEvents(g.gifter, g.giftees, g.expiresAt, key.1, k) else []
  }

  predicate GiftedCell(before: Tables, g: GiftOrder, now: Time, k: nat, after: Tables, key: Key)
    requires k <= |g.giftees|
  {
    CellOf(after, key) == AfterAll(CellOf(before, key), GiftEventsOf(g, key, k), now)
  }

  /** The gifts arm after its gifter and the first `k` giftees. */
  ghost predicate GiftedUpTo(before: Tables, g: GiftOrder, now: Time, k: nat, after: Tables)
    requires k <= |g.giftees|
  {
    forall key: Key :: GiftedCell(before, g, now, k, after, key)
  }

  lemma AfterOneMore(c: Cell, es: seq<RowEvent>, e: RowEvent, now: Time)
    ensures AfterAll(c, es + [e], now) == Step(AfterAll(c, es, now), now, e)
  {
    AfterPrefix(c, es, es + [e], now, |es|);
  }

  lemma GifterFirst(before: Tables, g: GiftOrder, now: Time, after: Tables)
    requires Credited(g.gifter) == [] ==> after == before
    requires Credited(g.gifter) != [] ==>
               Stepped(before, (g.channel, g.gifter.value), now,
                       GaveSubs(if g.giftees == [] then 1 else |g.giftees|), after)
    ensures GiftedUpTo(before, g, now, 0, after)
  {
    forall key: Key ensures GiftedCell(before, g, now, 0, after, key) {
      if Credited(g.gifter) != [] && key == (g.channel, g.gifter.value) {
        var e := GaveSubs(if g.giftees == [] then 1 else |g.giftees|);
        assert GiftEventsOf(g, key, 0) == [] + [e];
        AfterOneMore(CellOf(before, key), [], e, now);
      } else {
        assert GiftEventsOf(g, key, 0) == [];
      }
    }
  }

  lemma OneMoreGiftee(before: Tables, g: GiftOrder, now: Time, k: nat, middle: Tables, after: Tables)
    requires k < |g.giftees| && GiftedUpTo(before, g, now, k, middle)
    requires Stepped(middle, (g.channel, g.giftees[k]), now, ReceivedSub(g.expiresAt), after)
    ensures GiftedUpTo(before, g, now, k + 1, after)
  {
    var next := k + 1;
    forall key: Key ensures GiftedCell(before, g, now, next, after, key) {
      assert GiftedCell(before, g, now, k, middle, key);
      var es := GiftEventsOf(g, key, k);
      if key == (g.channel, g.giftees[k]) {
        assert GiftEventsOf(g, key, next) == es + [ReceivedSub(g.expiresAt)];
        AfterOneMore(CellOf(before, key), es, ReceivedSub(g.expiresAt), now);
      } else {
        assert GiftEventsOf(g, key, next) == es;
      }
    }
  }

  lemma AllGifted(before: Tables, g: GiftOrder, now: Time, after: Tables)
    requires GiftedUpTo(before, g, now, |g.giftees|, after)
    ensures Advances(before, Delivered(g.channel, SubscriptionGifts(g.gifter, g.giftees, g.expiresAt)), now, after)
  {
    var op := Delivered(g.channel, SubscriptionGifts(g.gifter, g.giftees, g.expiresAt));
    forall key: Key ensures CellOf(after, key) == AfterAll(CellOf(before, key), RowEvents(op, key), now) {
      assert GiftedCell(before, g, now, |g.giftees|, after, key);
      assert RowEvents(op, key) == GiftEventsOf(g, key, |g.giftees|);
    }
  }

  // ---------------------------------------------------------------------- the probe loop

  /** What a channel answered, and when. */
  datatype ProbeAnswer = ProbeAnswer(outcome: ProbeOutcome, at: Time)

  /** A linked player, the answers the probe will get, and the moment the follow-ups are booked. */
  datatype ProbeJob = ProbeJob(user: int, answers: map<int, ProbeAnswer>, confirmations: int, now: Time)

  function AnswerFor(j: ProbeJob, channel: int): ProbeAnswer {
    if channel in j.answers then j.answers[channel] else ProbeAnswer(Unavailable, j.now)
  }

  function ProbeOf(j: ProbeJob, channel: int): Operation {
    ChannelProbed(channel, j.user, AnswerFor(j, channel).outcome, j.confirmations)
  }

  function ProbedRow(row: Relation, j: ProbeJob, channel: int): Relation {
    Probed(row, AnswerFor(j, channel).outcome, j.confirmations, AnswerFor(j, channel).at)
  }

  function Channels(t: Tables, uid: int): set<int> {
    set key | key in t.relations && key.1 == uid :: key.0
  }

  /** What the probe did to one channel, told from its answer and the row before and after. */
  datatype Footprint = Footprint(answered: bool, follows: bool, lost: bool, changed: bool, awaits: bool)

  function FootprintOf(row: Relation, outcome: ProbeOutcome, confirmations: int, now: Time): Footprint {
    var after := Probed(row, outcome, confirmations, now);
    Footprint(
      outcome.Usable?,
      outcome.Usable? && outcome.card.isFollowing,
      row.isFollower && !after.isFollower,
      outcome.Usable? && Decide(row, outcome.card, confirmations, now).changedFacts,
      outcome.Usable? && after.isFollower && after.followProbeMisses > 0)
  }

  /** The decision names exactly what the write will do. */
  lemma DecisionForetells(row: Relation, card: Card, confirmations: int, now: Time)
    ensures var d := Decide(row, card, confirmations, now);
            FootprintOf(row, Usable(card), confirmations, now)
            == Footprint(true, card.isFollowing, d.removesFollow, d.changedFacts, d.isFollower && d.misses > 0)
  {
  }

  const NO_REPORT: ProbeReport := ProbeReport(0, 0, 0, 0, false)

  function Noted(report: ProbeReport, f: Footprint): ProbeReport {
    ProbeReport(
      report.attempted + 1,
      report.usable + (if f.answered then 1 else 0),
      report.following + (if f.follows then 1 else 0),
      report.removed + (if f.lost then 1 else 0),
      report.changed || f.changed)
  }

  function PrintAt(t: Tables, j: ProbeJob, channel: int): Footprint {
    var answer := AnswerFor(j, channel);
    FootprintOf(Row(CellOf(t, (channel, j.user))), answer.outcome, j.confirmations, answer.at)
  }

  predicate IsPrint(prints: seq<Footprint>, t: Tables, j: ProbeJob, rows: seq<int>, i: nat)
    requires i < |prints| <= |rows|
  {
    prints[i] == PrintAt(t, j, rows[i])
  }

  /** These are the footprints on the first rows of the list. */
  predicate ArePrints(prints: seq<Footprint>, t: Tables, j: ProbeJob, rows: seq<int>) {
    && |prints| <= |rows|
    && forall i | 0 <= i < |prints| :: IsPrint(prints, t, j, rows, i)
  }

  lemma OneMorePrint(prints: seq<Footprint>, f: Footprint, t: Tables, j: ProbeJob, rows: seq<int>)
    requires ArePrints(prints, t, j, rows) && |prints| < |rows| && f == PrintAt(t, j, rows[|prints|])
    ensures ArePrints(prints + [f], t, j, rows)
  {
    var more := prints + [f];
    forall i | 0 <= i < |more| ensures IsPrint(more, t, j, rows, i) {
      if i < |prints| {
        assert IsPrint(prints, t, j, rows, i);
      }
    }
  }

  lemma {:induction false} TotalOneMore(prints: seq<Footprint>, f: Footprint, k: nat)
    requires k <= |prints|
    ensures Total(prints + [f], k) == Total(prints, k) && (Awaiting(prints + [f], k) <==> Awaiting(prints, k))
    ensures k == |prints| ==> Total(prints + [f], k + 1) == Noted(Total(prints, k), f)
    ensures k == |prints| ==> (Awaiting(prints + [f], k + 1) <==> Awaiting(prints, k) || f.awaits)
  {
    if k > 0 {
      TotalOneMore(prints, f, k - 1);
    }
  }

  /** The report after the first `k` rows. */
  function Total(prints: seq<Footprint>, k: nat): ProbeReport
    requires k <= |prints|
  {
    if k == 0 then NO_REPORT else Noted(Total(prints, k - 1), prints[k - 1])
  }

  predicate Awaiting(prints: seq<Footprint>, k: nat)
    requires k <= |prints|
  {
    k > 0 && (Awaiting(prints, k - 1) || prints[k - 1].awaits)
  }

  /** The first `k` rows whose channel answered, follows, or lost its follow. */
  function AnsweredRows(prints: seq<Footprint>, k: nat): set<int>
    requires k <= |prints|
  {
    set i | 0 <= i < k && prints[i].answered
  }

  function FollowedRows(prints: seq<Footprint>, k: nat): set<int>
    requires k <= |prints|
  {
    set i | 0 <= i < k && prints[i].follows
  }

  function LostRows(prints: seq<Footprint>, k: nat): set<int>
    requires k <= |prints|
  {
    set i | 0 <= i < k && prints[i].lost
  }

  /** The report counts the rows that answered, follow and lost their follow. */
  lemma {:induction false} ReportCounts(prints: seq<Footprint>, k: nat)
    requires k <= |prints|
    ensures Total(prints, k).usable == |AnsweredRows(prints, k)|
    ensures Total(prints, k).following == |FollowedRows(prints, k)|
    ensures Total(prints, k).removed == |LostRows(prints, k)|
  {
    if k > 0 {
      ReportCounts(prints, k - 1);
      OneMoreAnswered(prints, k - 1);
      OneMoreFollowed(prints, k - 1);
      OneMoreLost(prints, k - 1);
    }
  }

  lemma OneMoreAnswered(prints: seq<Footprint>, k: nat)
    requires k < |prints|
    ensures |AnsweredRows(prints, k + 1)| == |AnsweredRows(prints, k)| + if prints[k].answered then 1 else 0
  {
    assert AnsweredRows(prints, k + 1) == AnsweredRows(prints, k) + if prints[k].answered then {k} else {};
  }

  lemma OneMoreFollowed(prints: seq<Footprint>, k: nat)
    requires k < |prints|
    ensures |FollowedRows(prints, k + 1)| == |FollowedRows(prints, k)| + if prints[k].follows then 1 else 0
  {
    assert FollowedRows(prints, k + 1) == FollowedRows(prints, k) + if prints[k].follows then {k} else {};
  }

  lemma OneMoreLost(prints: seq<Footprint>, k: nat)
    requires k < |prints|
    ensures |LostRows(prints, k + 1)| == |LostRows(prints, k)| + if prints[k].lost then 1 else 0
  {
    assert LostRows(prints, k + 1) == LostRows(prints, k) + if prints[k].lost then {k} else {};
  }

  /** Every row is tried, and the flags say whether any fact changed or any denial awaits another. */
  lemma {:induction false} ReportMeans(prints: seq<Footprint>, k: nat)
    requires k <= |prints|
    ensures Total(prints, k).attempted == k
    ensures Total(prints, k).changed <==> exists i | 0 <= i < k :: prints[i].changed
    ensures Awaiting(prints, k) <==> exists i | 0 <= i < k :: prints[i].awaits
  {
    if k > 0 {
      ReportMeans(prints, k - 1);
    }
  }

  predicate ProbedCell(before: Tables, j: ProbeJob, done: set<int>, after: Tables, key: Key) {
    var c := CellOf(before, key);
    CellOf(after, key)
    == if key.1 == j.user && key.0 in done && c.row.Some? then c.(row := Some(ProbedRow(c.row.value, j, key.0))) else c
  }

  /** The rows of these channels have been probed, nothing else was written. */
  ghost predicate ProbedSoFar(before: Tables, j: ProbeJob, done: set<int>, after: Tables) {
    forall key: Key :: ProbedCell(before, j, done, after, key)
  }

  lemma NothingProbedYet(t: Tables, j: ProbeJob)
    ensures ProbedSoFar(t, j, {}, t)
  {
  }

  lemma Unprobed(before: Tables, j: ProbeJob, done: set<int>, c: int, middle: Tables)
    requires ProbedSoFar(before, j, done, middle) && c !in done && c in Channels(before, j.user)
    ensures (c, j.user) in before.relations && (c, j.user) in middle.relations
    ensures middle.relations[(c, j.user)] == before.relations[(c, j.user)]
  {
    assert ProbedCell(before, j, done, middle, (c, j.user));
  }

  lemma OneMoreProbed(before: Tables, j: ProbeJob, done: set<int>, c: int, middle: Tables, after: Tables)
    requires ProbedSoFar(before, j, done, middle) && c !in done && (c, j.user) in middle.relations
    requires after.activity == middle.activity
    requires after.relations
          == middle.relations[(c, j.user) := ProbedRow(middle.relations[(c, j.user)], j, c)]
    ensures ProbedSoFar(before, j, done + {c}, after)
    ensures Advances(middle, ProbeOf(j, c), AnswerFor(j, c).at, after)
  {
    forall key: Key
      ensures ProbedCell(before, j, done + {c}, after, key)
      ensures CellOf(after, key) == AfterAll(CellOf(middle, key), RowEvents(ProbeOf(j, c), key), AnswerFor(j, c).at)
    {
      assert ProbedCell(before, j, done, middle, key);
      OneEvent(CellOf(middle, key), ProbeAnswered(AnswerFor(j, c).outcome, j.confirmations), AnswerFor(j, c).at);
      if key != (c, j.user) {
        assert CellOf(after, key) == CellOf(middle, key);
      }
    }
  }

  ghost predicate ProbeMoves(tables: seq<Tables>, j: ProbeJob, rows: seq<int>, k: nat)
    requires k < |rows| && k + 1 < |tables|
  {
    Advances(tables[k], ProbeOf(j, rows[k]), AnswerFor(j, rows[k]).at, tables[k + 1])
  }

  /** One probe after the other, each at its own moment: the tables between them. */
  ghost predicate AreProbeSteps(tables: seq<Tables>, j: ProbeJob, rows: seq<int>) {
    && 0 < |tables| <= |rows| + 1
    && forall k | 0 <= k < |tables| - 1 :: ProbeMoves(tables, j, rows, k)
  }

  lemma OneMoreProbeStep(tables: seq<Tables>, j: ProbeJob, rows: seq<int>, after: Tables)
    requires AreProbeSteps(tables, j, rows) && |tables| <= |rows|
    requires Advances(tables[|tables| - 1], ProbeOf(j, rows[|tables| - 1]), AnswerFor(j, rows[|tables| - 1]).at, after)
    ensures AreProbeSteps(tables + [after], j, rows)
  {
    var more := tables + [after];
    forall k | 0 <= k < |more| - 1 ensures ProbeMoves(more, j, rows, k) {
      if k < |tables| - 1 {
        assert ProbeMoves(tables, j, rows, k);
      }
    }
  }

  /** What is known after the probe loop's first `k` rows. */
  ghost predicate ProbedRows(
    tables: seq<Tables>, j: ProbeJob, rows: seq<int>, k: nat, prints: seq<Footprint>, report: ProbeReport,
    awaiting: bool
  )
    requires k <= |rows|
  {
    && |tables| == k + 1 && AreProbeSteps(tables, j, rows)
    && ProbedSoFar(tables[0], j, Members(rows[..k]), tables[k])
    && |prints| == k && ArePrints(prints, tables[0], j, rows)
    && report == Total(prints, k) && awaiting == Awaiting(prints, k)
  }

  lemma NoRowsYet(t: Tables, j: ProbeJob, rows: seq<int>)
    ensures ProbedRows([t], j, rows, 0, [], NO_REPORT, false)
  {
    assert Members(rows[..0]) == {};
    NothingProbedYet(t, j);
  }

  lemma OneMoreRow(
    tables: seq<Tables>, j: ProbeJob, rows: seq<int>, k: nat, prints: seq<Footprint>, report: ProbeReport,
    awaiting: bool, f: Footprint, after: Tables
  )
    requires k < |rows| && ProbedRows(tables, j, rows, k, prints, report, awaiting)
    requires ProbedSoFar(tables[0], j, Members(rows[..k + 1]), after)
    requires Advances(tables[k], ProbeOf(j, rows[k]), AnswerFor(j, rows[k]).at, after)
    requires f == PrintAt(tables[0], j, rows[k])
    ensures ProbedRows(tables + [after], j, rows, k + 1, prints + [f], Noted(report, f), awaiting || f.awaits)
  {
    OneMorePrint(prints, f, tables[0], j, rows);
    TotalOneMore(prints, f, k);
    OneMoreProbeStep(tables, j, rows, after);
  }

  class Store {
    var relations: map<Key, Relation>
    var activity: map<Key, Buckets>
    var syncs: seq<int>
    var probes: seq<QueuedProbe>
    const broadcasters: set<int>
    const users: map<int, int>

    constructor (broadcasters: set<int>, users: map<int, int>)
      ensures relations == map[] && activity == map[] && syncs == [] && probes == []
      ensures this.broadcasters == broadcasters && this.users == users
    {
      relations, activity, syncs, probes := map[], map[], [], [];
      this.broadcasters, this.users := broadcasters, users;
    }

    function Snapshot(): Tables
      reads this`relations, this`activity
    {
      Tables(relations, activity)
    }

    /** `INSERT … ON CONFLICT DO NOTHING`; false when the channel is not stored (foreign key). */
    method EnsureRelation(channel: int, uid: int) returns (ok: bool)
      modifies this`relations
      ensures ok <==> channel in broadcasters
      ensures ok ==> relations == old(relations)[(channel, uid) := Row(CellOf(old(Snapshot()), (channel, uid)))]
      ensures !ok ==> relations == old(relations)
    {
      if channel !in broadcasters {
        return false;
      }
      if (channel, uid) !in relations {
        relations := relations[(channel, uid) := BASELINE];
      }
      return true;
    }

    method EnqueueForKickUser(uid: int)
      modifies this`syncs
      ensures syncs == old(syncs) + Linked(users, [uid])
    {
      assert Linked(users, []) == [];
      LinkedOneMore(users, [], uid);
      if uid in users {
        syncs := syncs + [users[uid]];
      }
    }

    /** The badge snapshot UPDATE; whether it wrote. */
    method WriteBadges(key: Key, badges: seq<Badge>) returns (wrote: bool)
      requires key in relations
      modifies this`relations
      ensures wrote == BadgesDiffer(old(relations[key]), badges)
      ensures relations == old(relations)[key := WithBadges(old(relations[key]), badges)]
    {
      var r := relations[key];
      var isMod, isVip, isOg := HasBadge(badges, "moderator"), HasBadge(badges, "vip"), HasBadge(badges, "og");
      wrote := r.isModerator != isMod || r.isVip != isVip || r.isOg != isOg;
      if wrote {
        relations := relations[key := r.(isModerator := isMod, isVip := isVip, isOg := isOg)];
      }
    }

    /** The two UPDATEs under the subscriber badge; whether the first one wrote. */
    method WriteSubscription(key: Key, badges: seq<Badge>, now: Time) returns (wrote: bool)
      requires key in relations
      modifies this`relations
      ensures wrote == BadgeRaises(old(relations[key]), badges)
      ensures relations == old(relations)[key := WithSubscription(old(relations[key]), now, badges)]
    {
      if !HasBadge(badges, "subscriber") {
        return false;
      }
      var months := Max(CountOf(badges, "subscriber").GetOr(1), 1);
      var r := relations[key];
      wrote := !r.isSubscriber || r.subMonthsCumulative < months;
      if wrote {
        relations := relations[key := r.(
          isSubscriber := true,
          subscribedAt := Some(r.subscribedAt.GetOr(now)),
          subMonthsCumulative := Max(r.subMonthsCumulative, months),
          subStreakMonths := Max(r.subStreakMonths, 1))];
      }
      r := relations[key];
      if r.isSubscriber && (r.subExpiresAt.None? || r.subExpiresAt.value < now + DAY) {
        relations := relations[key := r.(subExpiresAt := Some(now + 3 * DAY))];
      }
    }

    /** The gifted-subs floor UPDATE; whether it wrote. */
    method WriteGifted(key: Key, badges: seq<Badge>) returns (wrote: bool)
      requires key in relations
      modifies this`relations
      ensures wrote == GifterRaises(old(relations[key]), badges)
      ensures relations == old(relations)[key := WithGifted(old(relations[key]), badges)]
    {
      var gifted := CountOf(badges, "sub_gifter");
      var r := relations[key];
      wrote := gifted.Some? && r.giftedSubsGiven < gifted.value;
      if wrote {
        relations := relations[key := r.(giftedSubsGiven := gifted.value)];
      }
    }

    /** Counter, snapshot, subscription, gifted floor: one UPDATE after another, with a running `changed` flag. */
    method WriteChat(key: Key, badges: seq<Badge>, now: Time) returns (changed: bool)
      requires key in relations
      modifies this`relations
      ensures relations == old(relations)[key := ChattedRow(old(relations[key]), now, badges)]
      ensures changed == ChatChanges(old(relations[key]), badges)
    {
      ghost var before, start := relations, relations[key];
      relations := relations[key := relations[key].(chatMessages30d := relations[key].chatMessages30d + 1)];
      ghost var counted := relations[key];
      changed := WriteBadges(key, badges);
      ghost var badged := relations[key];
      assert relations == before[key := badged];
      var raised := WriteSubscription(key, badges, now);
      changed := changed || raised;
      ghost var subscribed := relations[key];
      assert relations == before[key := subscribed];
      var wrote := WriteGifted(key, badges);
      changed := changed || wrote;
      ChatInOneGo(start, now, badges, counted, badged, subscribed);
      assert relations == before[key := relations[key]];
    }

    /** The chat arm. */
    method ApplyChat(channel: int, uid: int, badges: seq<Badge>, now: Time) returns (ok: bool)
      modifies this`relations, this`activity, this`syncs
      ensures ok <==> channel in broadcasters
      ensures ok ==> Stepped(old(Snapshot()), (channel, uid), now, Chatted(badges), Snapshot())
      ensures ok ==>
                (syncs == old(syncs)
                 + if ChatChanges(Row(CellOf(old(Snapshot()), (channel, uid))), badges) then Linked(users, [uid])
                   else [])
      ensures !ok ==> Snapshot() == old(Snapshot()) && syncs == old(syncs)
    {
      ok := EnsureRelation(channel, uid);
      if !ok {
        return;
      }
      var key := (channel, uid);
      activity := activity[key := CountedBucket(if key in activity then activity[key] else map[], DayOf(now))];
      var changed := WriteChat(key, badges, now);
      ChatWritten(old(Snapshot()), key, now, badges, Snapshot());
      if changed {
        EnqueueForKickUser(uid);
      }
    }

    /** The other arms write one row with one UPDATE and re-sync its player. */
    method UpdateRow(channel: int, uid: int, e: RowEvent, now: Time) returns (ok: bool)
      requires e.Followed? || e.Subscribed? || e.Renewed? || e.GaveSubs? || e.ReceivedSub? || e.GaveKicks?
      modifies this`relations, this`syncs
      ensures ok <==> channel in broadcasters
      ensures ok ==> Stepped(old(Snapshot()), (channel, uid), now, e, Snapshot())
      ensures ok ==> syncs == old(syncs) + Linked(users, [uid])
      ensures !ok ==> Snapshot() == old(Snapshot()) && syncs == old(syncs)
    {
      ok := EnsureRelation(channel, uid);
      if !ok {
        return;
      }
      var r := relations[(channel, uid)];
      match e {
        case Followed => r := FollowedRow(r, now);
        case Subscribed(createdAt, expiresAt, duration) => r := SubscribedRow(r, now, createdAt, expiresAt, duration);
        case Renewed(expiresAt, duration) => r := RenewedRow(r, expiresAt, duration);
        case GaveSubs(count) => r := r.(giftedSubsGiven := r.giftedSubsGiven + count);
        case ReceivedSub(expiresAt) => r := ReceivedSubRow(r, now, expiresAt);
        case GaveKicks(amount) => r := r.(kicksDonated := r.kicksDonated + amount);
      }
      relations := relations[(channel, uid) := r];
      EnqueueForKickUser(uid);
    }

    /** The gifter's total, unless anonymous. */
    method CreditGifter(g: GiftOrder, now: Time) returns (ok: bool)
      modifies this`relations, this`syncs
      ensures ok <==> (Credited(g.gifter) != [] ==> g.channel in broadcasters)
      ensures ok ==> GiftedUpTo(old(Snapshot()), g, now, 0, Snapshot())
      ensures ok ==> syncs == old(syncs) + Linked(users, Credited(g.gifter))
      ensures !ok || Credited(g.gifter) == [] ==> Snapshot() == old(Snapshot()) && syncs == old(syncs)
    {
      ok := true;
      if g.gifter.Some? && g.gifter.value > 0 {
        ok := UpdateRow(g.channel, g.gifter.value, GaveSubs(if |g.giftees| >= 1 then |g.giftees| else 1), now);
      }
      if ok {
        GifterFirst(old(Snapshot()), g, now, Snapshot());
      }
    }

    /** The gifts arm: the gifter's total, then every giftee in turn. */
    method ApplyGifts(g: GiftOrder, now: Time) returns (ok: bool)
      modifies this`relations, this`syncs
      ensures ok <==> (Credited(g.gifter) + g.giftees != [] ==> g.channel in broadcasters)
      ensures ok ==> GiftedUpTo(old(Snapshot()), g, now, |g.giftees|, Snapshot())
      ensures ok ==> syncs == old(syncs) + Linked(users, Credited(g.gifter) + g.giftees)
      ensures !ok ==> Snapshot() == old(Snapshot()) && syncs == old(syncs)
    {
      ok := CreditGifter(g, now);
      if !ok {
        return;
      }
      ghost var before, credited := old(Snapshot()), Credited(g.gifter);
      assert credited + g.giftees[..0] == credited;
      for k := 0 to |g.giftees|
        invariant GiftedUpTo(before, g, now, k, Snapshot())
        invariant syncs == old(syncs) + Linked(users, credited + g.giftees[..k])
        invariant k > 0 || credited != [] ==> g.channel in broadcasters
        invariant k == 0 && credited == [] ==> Snapshot() == before && syncs == old(syncs)
      {
        ghost var middle := Snapshot();
        ok := UpdateRow(g.channel, g.giftees[k], ReceivedSub(g.expiresAt), now);
        if !ok {
          return;
        }
        OneMoreGiftee(before, g, now, k, middle, Snapshot());
        LinkedNext(users, old(syncs), credited, g.giftees, k);
      }
      assert g.giftees[..|g.giftees|] == g.giftees;
      ok := true;
    }

    /** One row for one person, if the payload names one. */
    method UpdateNamed(channel: int, who: Option<int>, e: RowEvent, payload: Payload, now: Time) returns (ok: bool)
      requires e.Followed? || e.Subscribed? || e.Renewed? || e.GaveSubs? || e.ReceivedSub? || e.GaveKicks?
      requires forall uid :: PayloadEvents(payload, uid) == Once(who, uid, e)
      modifies this`relations, this`syncs
      ensures ok <==> (who.Some? ==> channel in broadcasters)
      ensures ok ==> Advances(old(Snapshot()), Delivered(channel, payload), now, Snapshot())
      ensures ok ==> syncs == old(syncs) + Linked(users, Listed(who))
      ensures !ok ==> Snapshot() == old(Snapshot()) && syncs == old(syncs)
    {
      if who.None? {
        NothingAdvances(old(Snapshot()), channel, payload, now);
        return true;
      }
      ok := UpdateRow(channel, who.value, e, now);
      if ok {
        SteppedAdvances(old(Snapshot()), channel, who.value, payload, now, e, Snapshot());
      }
    }

    /**
     * `apply_event`: every cell moves by its own row events, the players to re-sync are queued in
     * order, and a failure (an unknown channel) has written nothing.
     */
    method ApplyEvent(channel: Option<int>, payload: Payload, now: Time) returns (ok: bool)
      modifies this`relations, this`activity, this`syncs
      ensures ok <==> (channel.Some? && Touches(payload) ==> channel.value in broadcasters)
      ensures channel.None? || !ok ==> Snapshot() == old(Snapshot()) && syncs == old(syncs)
      ensures channel.Some? && ok ==> Advances(old(Snapshot()), Delivered(channel.value, payload), now, Snapshot())
      ensures channel.Some? && ok ==>
                syncs == old(syncs) + Linked(users, Resynced(old(Snapshot()), channel.value, payload))
    {
      if channel.None? {
        return true;
      }
      var cid := channel.value;
      match payload {
        case ChannelFollowed(follower) => ok := UpdateNamed(cid, follower, Followed, payload, now);
        case SubscriptionNew(subscriber, createdAt, expiresAt, duration) =>
          ok := UpdateNamed(cid, subscriber, Subscribed(createdAt, expiresAt, duration), payload, now);
        case SubscriptionRenewal(subscriber, expiresAt, duration) =>
          ok := UpdateNamed(cid, subscriber, Renewed(expiresAt, duration), payload, now);
        case SubscriptionGifts(gifter, giftees, expiresAt) =>
          ok := ApplyGifts(GiftOrder(cid, gifter, giftees, expiresAt), now);
          if ok {
            AllGifted(old(Snapshot()), GiftOrder(cid, gifter, giftees, expiresAt), now, Snapshot());
          }
        case ChatMessage(sender, badges) =>
          if sender.None? {
            NothingAdvances(Snapshot(), cid, payload, now);
            return true;
          }
          ok := ApplyChat(cid, sender.value, badges, now);
          if ok {
            SteppedAdvances(old(Snapshot()), cid, sender.value, payload, now, Chatted(badges), Snapshot());
          }
        case KicksGifted(sender, gifter, amount) =>
          if amount <= 0 {
            NothingAdvances(Snapshot(), cid, payload, now);
            return true;
          }
          ok := UpdateNamed(cid, OrElse(sender, gifter), GaveKicks(amount), payload, now);
        case OtherEvent =>
          NothingAdvances(Snapshot(), cid, payload, now);
          return true;
      }
    }

    /** The expiry step of `reconcile_channel`, one UPDATE over a channel's rows. */
    method ExpireLapsed(channel: int, now: Time)
      modifies this`relations
      ensures Advances(old(Snapshot()), ChannelSwept(channel), now, Snapshot())
    {
      relations := map k | k in relations ::
        if k.0 == channel && ExpiryLapsed(relations[k], now)
        then relations[k].(isSubscriber := false, subStreakMonths := 0)
        else relations[k];
      forall key: Key
        ensures CellOf(Snapshot(), key)
             == AfterAll(CellOf(old(Snapshot()), key), RowEvents(ChannelSwept(channel), key), now)
      {
        OneEvent(CellOf(old(Snapshot()), key), ExpirySwept, now);
      }
    }

    /** `age_chat_activity`: the recount, then the clean-up unless the recount failed. */
    method AgeChatActivity(ageing: AgeOutcome, now: Time)
      modifies this`relations, this`activity
      ensures Advances(old(Snapshot()), ActivityAged(ageing), now, Snapshot())
    {
      if ageing != RecountFailed {
        relations := map k | k in relations ::
          if relations[k].chatMessages30d > 0
          then relations[k].(chatMessages30d := SumAfter(if k in activity then activity[k] else map[], CutoffOf(now)))
          else relations[k];
        if ageing != CleanupFailed {
          activity := map k | k in activity :: RecentDays(activity[k], CutoffOf(now));
        }
      }
      forall key: Key
        ensures CellOf(Snapshot(), key)
             == AfterAll(CellOf(old(Snapshot()), key), RowEvents(ActivityAged(ageing), key), now)
      {
        OneEvent(CellOf(old(Snapshot()), key), ChatAged(ageing), now);
      }
    }

    /** The report's share of one usable answer. */
    static method NoteAnswer(soFar: ProbeReport, card: Card, decision: Decision) returns (report: ProbeReport)
      ensures report == ProbeReport(
                soFar.attempted,
                soFar.usable + 1,
                soFar.following + (if card.isFollowing then 1 else 0),
                soFar.removed + (if decision.removesFollow then 1 else 0),
                soFar.changed || decision.changedFacts)
    {
      report := soFar.(usable := soFar.usable + 1);
      if card.isFollowing {
        report := report.(following := report.following + 1);
      }
      if decision.removesFollow {
        report := report.(removed := report.removed + 1);
      }
      if decision.changedFacts {
        report := report.(changed := true);
      }
    }

    /** One row of the probe loop, decided on the row as listed: no answer stamps the attempt only. */
    method ProbeRow(
      key: Key, row: Relation, outcome: ProbeOutcome, confirmations: int, now: Time, soFar: ProbeReport,
      wasAwaiting: bool
    ) returns (report: ProbeReport, awaiting: bool)
      requires key in relations && relations[key] == row
      modifies this`relations
      ensures relations == old(relations)[key := Probed(old(relations[key]), outcome, confirmations, now)]
      ensures var f := FootprintOf(old(relations[key]), outcome, confirmations, now);
              report == Noted(soFar, f) && awaiting == (wasAwaiting || f.awaits)
    {
      report, awaiting := soFar.(attempted := soFar.attempted + 1), wasAwaiting;
      match outcome {
        case Unavailable =>
          relations := relations[key := relations[key].(followProbeAttemptedAt := Some(now))];
          assert Probed(row, outcome, confirmations, now).isFollower == row.isFollower;
        case Usable(card) =>
          var decision := Decide(row, card, confirmations, now);
          DecisionForetells(row, card, confirmations, now);
          report := NoteAnswer(report, card, decision);
          if decision.isFollower && decision.misses > 0 {
            awaiting := true;
          }
          relations := relations[key := ApplyCard(relations[key], card, decision, now)];
      }
    }

    /** The loop's body on row `k` of those the query listed, with their values then. */
    method ProbeNext(
      listed: Tables, j: ProbeJob, rows: seq<int>, k: nat, soFar: ProbeReport, wasAwaiting: bool
    ) returns (report: ProbeReport, awaiting: bool, ghost f: Footprint)
      requires Increasing(rows) && Members(rows) == Channels(listed, j.user) && k < |rows|
      requires ProbedSoFar(listed, j, Members(rows[..k]), Snapshot())
      modifies this`relations
      ensures ProbedSoFar(listed, j, Members(rows[..k + 1]), Snapshot())
      ensures Advances(old(Snapshot()), ProbeOf(j, rows[k]), AnswerFor(j, rows[k]).at, Snapshot())
      ensures f == PrintAt(listed, j, rows[k])
      ensures report == Noted(soFar, f) && awaiting == (wasAwaiting || f.awaits)
    {
      var c := rows[k];
      ghost var done, middle := Members(rows[..k]), Snapshot();
      PrefixGrows(rows, k);
      assert c in Members(rows);
      Unprobed(listed, j, done, c, middle);
      f := PrintAt(listed, j, c);
      var answer := AnswerFor(j, c);
      report, awaiting :=
        ProbeRow((c, j.user), listed.relations[(c, j.user)], answer.outcome, j.confirmations, answer.at, soFar,
                 wasAwaiting);
      OneMoreProbed(listed, j, done, c, middle, Snapshot());
    }

    /** The probe loop over a player's rows, listed once (the query fixes no order). */
    method ProbeRows(j: ProbeJob)
      returns (report: ProbeReport, awaiting: bool, ghost prints: seq<Footprint>, ghost tables: seq<Tables>)
      modifies this`relations
      ensures var rows := Sorted(Channels(old(Snapshot()), j.user));
              ProbedRows(tables, j, rows, |rows|, prints, report, awaiting)
      ensures tables[0] == old(Snapshot()) && tables[|tables| - 1] == Snapshot()
    {
      var listed := Snapshot();
      var rows := Sorted(Channels(listed, j.user));
      report, awaiting, prints, tables := NO_REPORT, false, [], [listed];
      NoRowsYet(listed, j, rows);
      for k := 0 to |rows|
        invariant ProbedRows(tables, j, rows, k, prints, report, awaiting)
        invariant tables[0] == listed && tables[k] == Snapshot()
      {
        ghost var f;
        ghost var soFar, wasAwaiting := report, awaiting;
        report, awaiting, f := ProbeNext(listed, j, rows, k, report, awaiting);
        OneMoreRow(tables, j, rows, k, prints, soFar, wasAwaiting, f, Snapshot());
        prints, tables := prints + [f], tables + [Snapshot()];
      }
    }

    /** A changed fact queues a re-sync, an unconfirmed denial one more probe unless one is waiting. */
    method QueueFollowUps(discordId: int, changed: bool, awaiting: bool, now: Time)
      modifies this`syncs, this`probes
      ensures syncs == old(syncs) + if changed then [discordId] else []
      ensures probes == old(probes)
                + if awaiting && forall q | q in old(probes) :: q.discordId != discordId
                  then [QueuedProbe(discordId, now + 6 * HOUR + 300 * SECOND)] else []
    {
      if awaiting && forall q | q in probes :: q.discordId != discordId {
        probes := probes + [QueuedProbe(discordId, now + CONFIRM_DELAY)];
      }
      if changed {
        syncs := syncs + [discordId];
      }
    }

    /**
     * `probe_and_apply_for_player`: nothing without a probe or a linked account; else every row is
     * probed in turn, a changed fact queues a re-sync, and an unconfirmed denial queues one more
     * probe just past the spacing, unless one is waiting already.
     */
    method ProbePlayer(
      configured: bool, discordId: int, account: Option<int>, answers: map<int, ProbeAnswer>, confirmations: int,
      now: Time
    ) returns (report: ProbeReport, awaiting: bool, ghost prints: seq<Footprint>, ghost tables: seq<Tables>)
      modifies this`relations, this`syncs, this`probes
      ensures tables != [] && tables[0] == old(Snapshot()) && tables[|tables| - 1] == Snapshot()
      ensures !configured || account.None? ==> report == NO_REPORT && !awaiting && |tables| == 1
      ensures configured && account.Some? ==>
                (var j := ProbeJob(account.value, answers, confirmations, now);
                 var rows := Sorted(Channels(old(Snapshot()), j.user));
                 ProbedRows(tables, j, rows, |rows|, prints, report, awaiting))
      ensures syncs == old(syncs) + if report.changed then [discordId] else []
      ensures probes == old(probes)
                + if awaiting && forall q | q in old(probes) :: q.discordId != discordId
                  then [QueuedProbe(discordId, now + 6 * HOUR + 300 * SECOND)] else []
    {
      if !configured || account.None? {
        return NO_REPORT, false, [], [Snapshot()];
      }
      report, awaiting, prints, tables := ProbeRows(ProbeJob(account.value, answers, confirmations, now));
      QueueFollowUps(discordId, report.changed, awaiting, now);
    }
  }
}

/** Which deliveries and probes re-evaluate a player's roles: every one that changes a rule input. */
module Resyncs {
  import opened Wrappers
  import opened Facts
  import opened FollowSync
  import opened RelationEvents
  import opened Ascending
  import opened RelationStore

  /** The rule inputs of a user in one channel. */
  function FactsAt(t: Tables, channel: int, user: KickUser): RuleFacts {
    FactsOf(Viewer(user, CellOf(t, (channel, user.kickUserId)).row))
  }

  /** A rule input besides the chat counter is no longer what it was. */
  predicate FactsMoved(before: Tables, after: Tables, channel: int, user: KickUser) {
    FactsAt(after, channel, user)
    != FactsAt(before, channel, user).(chatMessages30d := FactsAt(after, channel, user).chatMessages30d)
  }

  lemma {:induction false} LinkedHolds(users: map<int, int>, ids: seq<int>, id: int)
    requires id in ids && id in users
    ensures users[id] in Linked(users, ids)
  {
    if ids[|ids| - 1] != id {
      LinkedHolds(users, ids[..|ids| - 1], id);
    }
  }

  lemma {:induction false} GiftsReachTheNamed(
    gifter: Option<int>, giftees: seq<int>, expiresAt: Option<Time>, uid: int, k: nat
  )
    requires k <= |giftees| && GiftEvents(gifter, giftees, expiresAt, uid, k) != []
    ensures uid in Credited(gifter) || uid in giftees
  {
    if k > 0 && giftees[k - 1] != uid {
      GiftsReachTheNamed(gifter, giftees, expiresAt, uid, k - 1);
    }
  }

  /** A message queues its sender exactly when it moves a rule input besides the counter. */
  lemma ChatResyncsExactlyOnChange(
    before: Tables, channel: int, badges: seq<Badge>, now: Time, after: Tables, user: KickUser
  )
    requires Advances(before, Delivered(channel, ChatMessage(Some(user.kickUserId), badges)), now, after)
    ensures user.kickUserId in Resynced(before, channel, ChatMessage(Some(user.kickUserId), badges))
       <==> FactsMoved(before, after, channel, user)
  {
    var key := (channel, user.kickUserId);
    var op := Delivered(channel, ChatMessage(Some(user.kickUserId), badges));
    var c := CellOf(before, key);
    assert CellOf(after, key) == AfterAll(c, RowEvents(op, key), now);
    OneEvent(c, Chatted(badges), now);
    assert FactsAt(after, channel, user) == FactsOf(Viewer(user, Some(ChattedRow(Row(c), now, badges))));
    ChatChangesExactlyTheFacts(user, Row(c), now, badges);
  }

  lemma UnnamedAreUntouched(before: Tables, channel: int, p: Payload, now: Time, after: Tables, key: Key)
    requires Advances(before, Delivered(channel, p), now, after)
    requires RowEvents(Delivered(channel, p), key) == []
    ensures CellOf(after, key) == CellOf(before, key)
  {
    assert CellOf(after, key) == AfterAll(CellOf(before, key), [], now);
  }

  lemma NamedAreQueued(before: Tables, channel: int, p: Payload, uid: int)
    requires PayloadEvents(p, uid) != [] && !p.ChatMessage?
    ensures uid in Resynced(before, channel, p)
  {
    if p.SubscriptionGifts? {
      GiftsReachTheNamed(p.gifter, p.giftees, p.expiresAt, uid, |p.giftees|);
    }
  }

  /**
   * Whatever a delivery carries: if it moves a rule input (other than the counter) of a linked
   * viewer in any channel, that player's re-sync is queued.
   */
  lemma MovedFactsAreResynced(
    before: Tables, channel: int, p: Payload, now: Time, after: Tables, users: map<int, int>, user: KickUser, c: int
  )
    requires Advances(before, Delivered(channel, p), now, after)
    requires user.kickUserId in users && FactsMoved(before, after, c, user)
    ensures c == channel && users[user.kickUserId] in Linked(users, Resynced(before, channel, p))
  {
    var uid := user.kickUserId;
    if RowEvents(Delivered(channel, p), (c, uid)) == [] {
      UnnamedAreUntouched(before, channel, p, now, after, (c, uid));
    } else {
      if p.ChatMessage? {
        ChatResyncsExactlyOnChange(before, channel, p.badges, now, after, user);
      } else {
        NamedAreQueued(before, channel, p, uid);
      }
      LinkedHolds(users, Resynced(before, channel, p), uid);
    }
  }

  /** The rows a probe met: consistent, and with months a card can still raise. */
  predicate Probeable(t: Tables, j: ProbeJob) {
    forall c | c in Channels(t, j.user) ::
      var row, answer := t.relations[(c, j.user)], AnswerFor(j, c).outcome;
      && FollowConsistent(row)
      && (answer.Usable? ==> row.subMonthsCumulative < I32_MAX || answer.card.subscribedForMonths <= I32_MAX)
  }

  lemma PrintTellsChange(before: Tables, j: ProbeJob, after: Tables, user: KickUser, c: int)
    requires Probeable(before, j) && c in Channels(before, j.user) && user.kickUserId == j.user
    requires ProbedSoFar(before, j, Channels(before, j.user), after)
    ensures PrintAt(before, j, c).changed <==> FactsAt(after, c, user) != FactsAt(before, c, user)
  {
    var row, answer := before.relations[(c, j.user)], AnswerFor(j, c);
    assert ProbedCell(before, j, Channels(before, j.user), after, (c, j.user));
    assert FactsAt(after, c, user) == FactsOf(Viewer(user, Some(ProbedRow(row, j, c))));
    if answer.outcome.Usable? {
      ResyncExactlyWhenFactsChange(user, row, answer.outcome.card, j.confirmations, answer.at);
    }
  }

  lemma PrintTellsMove(before: Tables, j: ProbeJob, after: Tables, user: KickUser, c: int)
    requires c in Channels(before, j.user) && user.kickUserId == j.user
    requires FollowConsistent(before.relations[(c, j.user)]) && FactsMoved(before, after, c, user)
    requires ProbedSoFar(before, j, Channels(before, j.user), after)
    ensures PrintAt(before, j, c).changed
  {
    var row, answer := before.relations[(c, j.user)], AnswerFor(j, c);
    assert ProbedCell(before, j, Channels(before, j.user), after, (c, j.user));
    assert FactsAt(after, c, user) == FactsOf(Viewer(user, Some(ProbedRow(row, j, c))));
    if answer.outcome.Usable? && !PrintAt(before, j, c).changed {
      FlaglessProbeKeepsFacts(user, row, answer.outcome.card, j.confirmations, answer.at);
    }
  }

  lemma OnlyListedMove(before: Tables, j: ProbeJob, after: Tables, c: int, user: KickUser)
    requires ProbedSoFar(before, j, Channels(before, j.user), after) && FactsMoved(before, after, c, user)
    ensures user.kickUserId == j.user && c in Channels(before, j.user)
  {
    assert ProbedCell(before, j, Channels(before, j.user), after, (c, user.kickUserId));
  }

  /** Whatever rule input of a consistent row a probe moves, its report says so. */
  lemma ProbeReportsEveryChange(
    tables: seq<Tables>, j: ProbeJob, prints: seq<Footprint>, report: ProbeReport, awaiting: bool, c: int,
    user: KickUser
  )
    requires tables != [] && FactsMoved(tables[0], tables[|tables| - 1], c, user)
    requires forall key: Key :: CellOk(CellOf(tables[0], key))
    requires var rows := Sorted(Channels(tables[0], j.user));
             ProbedRows(tables, j, rows, |rows|, prints, report, awaiting)
    ensures user.kickUserId == j.user && report.changed
  {
    var before, after := tables[0], tables[|tables| - 1];
    var rows := Sorted(Channels(before, j.user));
    assert rows[..|rows|] == rows;
    ReportMeans(prints, |prints|);
    OnlyListedMove(before, j, after, c, user);
    assert c in Members(rows);
    assert CellOk(CellOf(before, (c, user.kickUserId)));
    var i :| 0 <= i < |rows| && rows[i] == c;
    assert IsPrint(prints, before, j, rows, i);
    PrintTellsMove(before, j, after, user, c);
  }

  /** A probe of all of a player's rows reports a change, and so queues a re-sync, exactly when a rule input moved. */
  lemma ProbeResyncsExactlyOnChange(
    tables: seq<Tables>, j: ProbeJob, prints: seq<Footprint>, report: ProbeReport, awaiting: bool, user: KickUser
  )
    requires tables != [] && Probeable(tables[0], j) && user.kickUserId == j.user
    requires var rows := Sorted(Channels(tables[0], j.user));
             ProbedRows(tables, j, rows, |rows|, prints, report, awaiting)
    ensures report.changed
       <==> exists c :: FactsAt(tables[|tables| - 1], c, user) != FactsAt(tables[0], c, user)
  {
    var before, after := tables[0], tables[|tables| - 1];
    var rows := Sorted(Channels(before, j.user));
    assert rows[..|rows|] == rows;
    ReportMeans(prints, |prints|);
    if report.changed {
      var i :| 0 <= i < |prints| && prints[i].changed;
      assert IsPrint(prints, before, j, rows, i) && rows[i] in Members(rows);
      PrintTellsChange(before, j, after, user, rows[i]);
    }
    forall c | FactsAt(after, c, user) != FactsAt(before, c, user) ensures report.changed {
      assert ProbedCell(before, j, Channels(before, j.user), after, (c, j.user));
      assert c in Members(rows);
      var i :| 0 <= i < |rows| && rows[i] == c;
      assert IsPrint(prints, before, j, rows, i);
      PrintTellsChange(before, j, after, user, c);
    }
  }
  // ------------------------------------------------------------------ who is named, and nobody else

  lemma {:induction false} NamedGetGifts(
    gifter: Option<int>, giftees: seq<int>, expiresAt: Option<Time>, uid: int, k: nat
  )
    requires k <= |giftees| && (uid in Credited(gifter) || uid in giftees[..k])
    ensures GiftEvents(gifter, giftees, expiresAt, uid, k) != []
  {
    if k > 0 && giftees[k - 1] != uid {
      NamedGetGifts(gifter, giftees, expiresAt, uid, k - 1);
    }
  }

  /** Only viewers with a row event are re-evaluated. */
  lemma QueuedAreNamed(before: Tables, channel: int, p: Payload, uid: int)
    requires uid in Resynced(before, channel, p)
    ensures PayloadEvents(p, uid) != []
  {
    if p.SubscriptionGifts? {
      assert p.giftees[..|p.giftees|] == p.giftees;
      NamedGetGifts(p.gifter, p.giftees, p.expiresAt, uid, |p.giftees|);
    }
  }

  /** A delivery needs its channel to be known exactly when it has an event for somebody. */
  lemma TouchesExactlyWithEvents(p: Payload)
    ensures Touches(p) <==> exists uid :: PayloadEvents(p, uid) != []
  {
    match p {
      case ChannelFollowed(who) => if who.Some? { assert PayloadEvents(p, who.value) != []; }
      case SubscriptionNew(who, _, _, _) => if who.Some? { assert PayloadEvents(p, who.value) != []; }
      case SubscriptionRenewal(who, _, _) => if who.Some? { assert PayloadEvents(p, who.value) != []; }
      case SubscriptionGifts(gifter, giftees, expiresAt) =>
        GiftsTouch(gifter, giftees, expiresAt);
        assert forall uid :: PayloadEvents(p, uid) == GiftEvents(gifter, giftees, expiresAt, uid, |giftees|);
      case ChatMessage(who, _) => if who.Some? { assert PayloadEvents(p, who.value) != []; }
      case KicksGifted(sender, gifter, amount) =>
        var who := if sender.Some? then sender else gifter;
        if who.Some? && amount > 0 {
          assert PayloadEvents(p, who.value) != [];
        }
      case OtherEvent =>
    }
  }

  lemma GiftsTouch(gifter: Option<int>, giftees: seq<int>, expiresAt: Option<Time>)
    ensures Touches(SubscriptionGifts(gifter, giftees, expiresAt))
       <==> exists uid :: GiftEvents(gifter, giftees, expiresAt, uid, |giftees|) != []
  {
    assert giftees[..|giftees|] == giftees;
    if Credited(gifter) != [] {
      NamedGetGifts(gifter, giftees, expiresAt, gifter.value, |giftees|);
    } else if giftees != [] {
      NamedGetGifts(gifter, giftees, expiresAt, giftees[0], |giftees|);
    }
    forall uid | GiftEvents(gifter, giftees, expiresAt, uid, |giftees|) != [] ensures Credited(gifter) + giftees != [] {
      GiftsReachTheNamed(gifter, giftees, expiresAt, uid, |giftees|);
    }
  }
}

/**
 * Runs of the tables together with what is queued for re-evaluation. Whenever the stored rule inputs
 * of a linked viewer (other than the chat counter) are not those the viewer was last evaluated on, a
 * sync of the player or of the channel is pending.
 */
module PendingSyncs {
  import opened Wrappers
  import opened Facts
  import opened RelationEvents
  import opened RelationStore
  import opened Resyncs
  import Ascending

  /** The tables, the players with a pending player sync and the channels with a pending channel sync. */
  datatype World = World(tables: Tables, players: set<int>, channels: set<int>)

  datatype Action =
    | Deliver(at: Time, channel: int, payload: Payload)
    | ProbePlayer(j: ProbeJob)
    | Sweep(at: Time, channel: int)
    | Age(at: Time, ageing: AgeOutcome)
    | PlayerSynced(discordId: int)
    | ChannelSynced(channel: int)

  function Queued(ids: seq<int>): set<int> {
    set d | d in ids
  }

  /** The probe of all of a player's rows, and the re-sync its report asks for. */
  ghost predicate Probes(users: map<int, int>, w: World, j: ProbeJob, next: World) {
    exists tables: seq<Tables>, prints: seq<Footprint>, report: ProbeReport, awaiting: bool ::
      IsProbe(users, w, j, next, tables, prints, report, awaiting)
  }

  ghost predicate IsProbe(
    users: map<int, int>, w: World, j: ProbeJob, next: World,
    tables: seq<Tables>, prints: seq<Footprint>, report: ProbeReport, awaiting: bool
  ) {
    var rows := Ascending.Sorted(Channels(w.tables, j.user));
    && |tables| == |rows| + 1 && tables[0] == w.tables && tables[|rows|] == next.tables
    && ProbedRows(tables, j, rows, |rows|, prints, report, awaiting)
    && next.players == w.players + (if report.changed && j.user in users then {users[j.user]} else {})
    && next.channels == w.channels
  }

  /** What each action writes and queues. A sync takes its own entry off the queue and writes no facts. */
  ghost predicate Acts(users: map<int, int>, w: World, a: Action, next: World) {
    match a
    case Deliver(at, channel, payload) =>
      && Advances(w.tables, Delivered(channel, payload), at, next.tables)
      && next.players == w.players + Queued(Linked(users, Resynced(w.tables, channel, payload)))
      && next.channels == w.channels
    case ProbePlayer(j) => Probes(users, w, j, next)
    case Sweep(at, channel) =>
      && Advances(w.tables, ChannelSwept(channel), at, next.tables)
      && next.players == w.players && next.channels == w.channels + {channel}
    case Age(at, ageing) =>
      && Advances(w.tables, ActivityAged(ageing), at, next.tables)
      && next.players == w.players && next.channels == w.channels
    case PlayerSynced(d) => next == w.(players := w.players - {d})
    case ChannelSynced(c) => next == w.(channels := w.channels - {c})
  }

  ghost predicate Moves(users: map<int, int>, worlds: seq<World>, actions: seq<Action>, i: nat)
    requires i < |actions| < |worlds|
  {
    Acts(users, worlds[i], actions[i], worlds[i + 1])
  }

  ghost predicate IsRun(users: map<int, int>, worlds: seq<World>, actions: seq<Action>) {
    && |worlds| == |actions| + 1
    && forall i | 0 <= i < |actions| :: Moves(users, worlds, actions, i)
  }

  /** The action evaluates this player in this channel. */
  predicate Evaluates(a: Action, d: int, channel: int) {
    a == PlayerSynced(d) || a == ChannelSynced(channel)
  }

  predicate IsPending(w: World, d: int, channel: int) {
    d in w.players || channel in w.channels
  }

  // ----------------------------------------------------------------- rows stay consistent

  ghost predicate AllOk(t: Tables) {
    forall key: Key :: CellOk(CellOf(t, key))
  }

  lemma {:induction false} EventsKeepCellOk(c: Cell, es: seq<RowEvent>, now: Time, k: nat)
    requires CellOk(c) && k <= |es|
    ensures CellOk(After(c, es, now, k))
  {
    if k > 0 {
      EventsKeepCellOk(c, es, now, k - 1);
      StepKeepsCellOk(After(c, es, now, k - 1), now, es[k - 1]);
    }
  }

  lemma OperationKeepsOk(before: Tables, op: Operation, now: Time, after: Tables)
    requires AllOk(before) && Advances(before, op, now, after)
    ensures AllOk(after)
  {
    forall key: Key ensures CellOk(CellOf(after, key)) {
      assert CellOk(CellOf(before, key));
      EventsKeepCellOk(CellOf(before, key), RowEvents(op, key), now, |RowEvents(op, key)|);
      assert CellOf(after, key) == AfterAll(CellOf(before, key), RowEvents(op, key), now);
    }
  }

  lemma ProbeKeepsCellOk(before: Tables, j: ProbeJob, done: set<int>, after: Tables, key: Key)
    requires CellOk(CellOf(before, key)) && ProbedCell(before, j, done, after, key)
    ensures CellOk(CellOf(after, key))
  {
    var c, answer := CellOf(before, key), AnswerFor(j, key.0);
    StepKeepsCellOk(c, answer.at, ProbeAnswered(answer.outcome, j.confirmations));
  }

  lemma ProbeKeepsOk(before: Tables, j: ProbeJob, done: set<int>, after: Tables)
    requires AllOk(before) && ProbedSoFar(before, j, done, after)
    ensures AllOk(after)
  {
    forall key: Key ensures CellOk(CellOf(after, key)) {
      assert CellOk(CellOf(before, key)) && ProbedCell(before, j, done, after, key);
      ProbeKeepsCellOk(before, j, done, after, key);
    }
  }

  // --------------------------------------------------------- every moved fact is queued

  lemma SweepMovesItsChannel(before: Tables, channel: int, now: Time, after: Tables, c: int, user: KickUser)
    requires Advances(before, ChannelSwept(channel), now, after) && FactsMoved(before, after, c, user)
    ensures c == channel
  {
    var key := (c, user.kickUserId);
    assert CellOf(after, key) == AfterAll(CellOf(before, key), RowEvents(ChannelSwept(channel), key), now);
    OneEvent(CellOf(before, key), ExpirySwept, now);
  }

  lemma CounterIsOneFact(user: KickUser, r: Relation, n: int)
    ensures FactsOf(Viewer(user, Some(r.(chatMessages30d := n))))
         == FactsOf(Viewer(user, Some(r))).(chatMessages30d := n)
  {
  }

  lemma AgedRow(c: Cell, now: Time, ageing: AgeOutcome)
    ensures c.row.None? ==> Step(c, now, ChatAged(ageing)).row == c.row
    ensures c.row.Some? ==>
              var after := Step(c, now, ChatAged(ageing)).row;
              after.Some? && after.value == c.row.value.(chatMessages30d := after.value.chatMessages30d)
  {
  }

  lemma AgedRowKeepsFacts(user: KickUser, c: Cell, now: Time, ageing: AgeOutcome)
    ensures var before, after := Viewer(user, c.row), Viewer(user, Step(c, now, ChatAged(ageing)).row);
            FactsOf(after) == FactsOf(before).(chatMessages30d := FactsOf(after).chatMessages30d)
  {
    AgedRow(c, now, ageing);
    if c.row.Some? {
      CounterIsOneFact(user, c.row.value, Row(Step(c, now, ChatAged(ageing))).chatMessages30d);
    }
  }

  lemma AgeingMovesTheCounterOnly(before: Tables, ageing: AgeOutcome, now: Time, after: Tables, c: int, user: KickUser)
    requires Advances(before, ActivityAged(ageing), now, after)
    ensures !FactsMoved(before, after, c, user)
  {
    var key := (c, user.kickUserId);
    assert CellOf(after, key) == AfterAll(CellOf(before, key), RowEvents(ActivityAged(ageing), key), now);
    OneEvent(CellOf(before, key), ChatAged(ageing), now);
    AgedRowKeepsFacts(user, CellOf(before, key), now, ageing);
  }

  lemma ProbeQueuesItsPlayer(users: map<int, int>, w: World, j: ProbeJob, next: World, c: int, user: KickUser)
    requires AllOk(w.tables) && Probes(users, w, j, next)
    requires user.kickUserId in users && FactsMoved(w.tables, next.tables, c, user)
    ensures users[user.kickUserId] in next.players
  {
    var tables: seq<Tables>, prints: seq<Footprint>, report: ProbeReport, awaiting: bool :|
      IsProbe(users, w, j, next, tables, prints, report, awaiting);
    ProbeReportsEveryChange(tables, j, prints, report, awaiting, c, user);
  }

  /** Any other action keeps what is pending, and queues every viewer whose facts it moves. */
  lemma ActionQueuesTheMoved(users: map<int, int>, w: World, a: Action, next: World, c: int, user: KickUser)
    requires AllOk(w.tables) && Acts(users, w, a, next)
    requires user.kickUserId in users && !Evaluates(a, users[user.kickUserId], c)
    ensures var d := users[user.kickUserId];
            IsPending(w, d, c) || FactsMoved(w.tables, next.tables, c, user) ==> IsPending(next, d, c)
  {
    if FactsMoved(w.tables, next.tables, c, user) {
      match a {
        case Deliver(at, channel, payload) =>
          MovedFactsAreResynced(w.tables, channel, payload, at, next.tables, users, user, c);
        case ProbePlayer(j) => ProbeQueuesItsPlayer(users, w, j, next, c, user);
        case Sweep(at, channel) => SweepMovesItsChannel(w.tables, channel, at, next.tables, c, user);
        case Age(at, ageing) => AgeingMovesTheCounterOnly(w.tables, ageing, at, next.tables, c, user);
        case _ =>
      }
    }
  }

  lemma ActionKeepsOk(users: map<int, int>, w: World, a: Action, next: World)
    requires AllOk(w.tables) && Acts(users, w, a, next)
    ensures AllOk(next.tables)
  {
    match a {
      case Deliver(at, channel, payload) =>
        OperationKeepsOk(w.tables, Delivered(channel, payload), at, next.tables);
      case ProbePlayer(j) =>
        var tables: seq<Tables>, prints: seq<Footprint>, report: ProbeReport, awaiting: bool :|
          IsProbe(users, w, j, next, tables, prints, report, awaiting);
        var rows := Ascending.Sorted(Channels(w.tables, j.user));
        ProbeKeepsOk(w.tables, j, Ascending.Members(rows[..|rows|]), next.tables);
      case Sweep(at, channel) => OperationKeepsOk(w.tables, ChannelSwept(channel), at, next.tables);
      case Age(at, ageing) => OperationKeepsOk(w.tables, ActivityAged(ageing), at, next.tables);
      case _ =>
    }
  }

  lemma {:induction false} RunKeepsOk(users: map<int, int>, worlds: seq<World>, actions: seq<Action>, k: nat)
    requires IsRun(users, worlds, actions) && AllOk(worlds[0].tables) && k <= |actions|
    ensures AllOk(worlds[k].tables)
  {
    if k > 0 {
      RunKeepsOk(users, worlds, actions, k - 1);
      assert Moves(users, worlds, actions, k - 1);
      ActionKeepsOk(users, worlds[k - 1], actions[k - 1], worlds[k]);
    }
  }

  /**
   * In every run of deliveries, probes, sweeps, ageing and syncs: as long as a linked viewer has not
   * been evaluated in a channel since point `i`, either the rule inputs are still those of `i`, but
   * for the counter, or an evaluation is pending.
   */
  lemma {:induction false} MovedFactsStayPending(
    users: map<int, int>, worlds: seq<World>, actions: seq<Action>, i: nat, k: nat, c: int, user: KickUser
  )
    requires IsRun(users, worlds, actions) && AllOk(worlds[0].tables) && i <= k <= |actions|
    requires user.kickUserId in users
    requires forall m | i <= m < k :: !Evaluates(actions[m], users[user.kickUserId], c)
    ensures FactsMoved(worlds[i].tables, worlds[k].tables, c, user) ==>
              IsPending(worlds[k], users[user.kickUserId], c)
    decreases k
  {
    if i < k {
      MovedFactsStayPending(users, worlds, actions, i, k - 1, c, user);
      RunKeepsOk(users, worlds, actions, k - 1);
      assert Moves(users, worlds, actions, k - 1);
      ActionQueuesTheMoved(users, worlds[k - 1], actions[k - 1], worlds[k], c, user);
    }
  }
}

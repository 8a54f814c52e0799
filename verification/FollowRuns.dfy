/**
 * What follow probes can do over whole runs of a cell: a follow is only ever taken away on enough
 * spaced negative answers, and an answer that did not come leaves no trace in any fact.
 */
module FollowRuns {
  import opened Wrappers
  import opened Facts
  import opened FollowSync
  import opened RelationEvents

  predicate Follows(c: Cell) {
    c.row.Some? && c.row.value.isFollower
  }

  predicate Affirms(e: RowEvent) {
    Answer(e).Some? && Answer(e).value.isFollowing
  }

  predicate Denies(e: RowEvent) {
    Answer(e).Some? && !Answer(e).value.isFollowing
  }

  /** Every probe of the run uses the same configured number of confirmations. */
  predicate Confirmed(steps: seq<Timed>, n: int) {
    forall i | 0 <= i < |steps| && steps[i].e.ProbeAnswered? :: steps[i].e.confirmations == n
  }

  /** `n` negative answers at these steps, in order, consecutive ones at least six hours apart. */
  predicate SpacedDenials(steps: seq<Timed>, at: seq<nat>) {
    && (forall j | 0 <= j < |at| :: at[j] < |steps| && Denies(steps[at[j]].e))
    && (forall j | 0 < j < |at| :: at[j - 1] < at[j])
    && (forall j | 0 < j < |at| :: steps[at[j]].at - steps[at[j - 1]].at >= 6 * HOUR)
  }

  /** From step `i` on, up to `k`, the follow was stored and no answer affirmed it. */
  predicate UnaffirmedSince(cells: seq<Cell>, steps: seq<Timed>, i: nat, k: nat)
    requires k <= |steps| < |cells|
  {
    forall j | i <= j < k :: Follows(cells[j]) && !Affirms(steps[j].e)
  }

  /** The denials that counted since the follow was gained or last affirmed. */
  function Counted(cells: seq<Cell>, steps: seq<Timed>, k: nat): (at: seq<nat>)
    requires k <= |steps| < |cells|
    ensures forall j | 0 <= j < |at| :: at[j] < k
  {
    if k == 0 then []
    else
      var before, s := cells[k - 1], steps[k - 1];
      if !Follows(before) || Affirms(s.e) then []
      else if Denies(s.e) && MissCounts(before.row.value, s.at) then Counted(cells, steps, k - 1) + [k - 1]
      else Counted(cells, steps, k - 1)
  }

  /** A row that has no denial counted against it. */
  predicate Unblemished(c: Cell) {
    CellOk(c) && (c.row.Some? ==> c.row.value.followProbeMisses == 0)
  }

  /** The setting of the theorems: a run from an unblemished cell under one setting of confirmations. */
  predicate ProbedRun(cells: seq<Cell>, steps: seq<Timed>, n: int) {
    IsRun(cells, steps) && Unblemished(cells[0]) && Confirmed(steps, n) && 1 <= n <= I16_MAX
  }

  /** The stored counter and its stamp are exactly the counted denials. */
  predicate CounterTells(cells: seq<Cell>, steps: seq<Timed>, k: nat, n: int)
    requires k <= |steps| < |cells|
  {
    var c, at := cells[k], Counted(cells, steps, k);
    Follows(c) ==>
      && c.row.value.followProbeMisses == |at| < n
      && (at != [] ==> c.row.value.followMissedAt == Some(steps[at[|at| - 1]].at))
  }

  lemma StepWithoutDenialKeepsCounter(c: Cell, now: Time, e: RowEvent)
    requires Follows(c) && Answer(e).None?
    ensures Follows(Step(c, now, e))
    ensures Row(Step(c, now, e)).followProbeMisses == Row(c).followProbeMisses
    ensures Row(Step(c, now, e)).followMissedAt == Row(c).followMissedAt
  {
  }

  lemma GainedFollowIsUnblemished(c: Cell, now: Time, e: RowEvent)
    requires CellOk(c) && !Follows(c)
    ensures Row(Step(c, now, e)).followProbeMisses == 0
  {
  }

  lemma {:induction false} CounterIsTruthful(cells: seq<Cell>, steps: seq<Timed>, k: nat, n: int)
    requires ProbedRun(cells, steps, n) && k <= |steps|
    ensures CounterTells(cells, steps, k, n)
  {
    if k > 0 {
      CounterIsTruthful(cells, steps, k - 1, n);
      ReachableRowsAreConsistent(cells, steps, k - 1);
      assert Moves(cells, steps, k - 1);
      var before, s := cells[k - 1], steps[k - 1];
      if !Follows(before) {
        GainedFollowIsUnblemished(before, s.at, s.e);
      } else if Answer(s.e).None? {
        StepWithoutDenialKeepsCounter(before, s.at, s.e);
      } else {
        assert cells[k].row == Some(Probed(before.row.value, s.e.outcome, n, s.at));
      }
    }
  }

  lemma OneMoreDenial(steps: seq<Timed>, at: seq<nat>, i: nat, r: Relation)
    requires SpacedDenials(steps, at) && i < |steps| && Denies(steps[i].e)
    requires MissCounts(r, steps[i].at)
    requires at != [] ==> at[|at| - 1] < i && r.followMissedAt == Some(steps[at[|at| - 1]].at)
    ensures SpacedDenials(steps, at + [i])
  {
  }

  lemma CountedDenialIsSpaced(cells: seq<Cell>, steps: seq<Timed>, k: nat, n: int)
    requires ProbedRun(cells, steps, n) && k < |steps| && SpacedDenials(steps, Counted(cells, steps, k))
    requires Follows(cells[k]) && Denies(steps[k].e) && MissCounts(cells[k].row.value, steps[k].at)
    ensures SpacedDenials(steps, Counted(cells, steps, k) + [k])
  {
    CounterIsTruthful(cells, steps, k, n);
    OneMoreDenial(steps, Counted(cells, steps, k), k, cells[k].row.value);
  }

  lemma {:induction false} CountedAreSpaced(cells: seq<Cell>, steps: seq<Timed>, k: nat, n: int)
    requires ProbedRun(cells, steps, n) && k <= |steps|
    ensures SpacedDenials(steps, Counted(cells, steps, k))
  {
    if k > 0 {
      var before, s := cells[k - 1], steps[k - 1];
      CountedAreSpaced(cells, steps, k - 1, n);
      if Follows(before) && Denies(s.e) && MissCounts(before.row.value, s.at) {
        CountedDenialIsSpaced(cells, steps, k - 1, n);
      }
    }
  }

  lemma {:induction false} CountedAreUnaffirmed(cells: seq<Cell>, steps: seq<Timed>, k: nat)
    requires k <= |steps| < |cells|
    ensures Counted(cells, steps, k) != [] ==> UnaffirmedSince(cells, steps, Counted(cells, steps, k)[0], k)
  {
    if k > 0 {
      CountedAreUnaffirmed(cells, steps, k - 1);
    }
  }

  lemma {:induction false} SpacingAddsUp(steps: seq<Timed>, at: seq<nat>, j: nat)
    requires SpacedDenials(steps, at) && j < |at|
    ensures steps[at[j]].at - steps[at[0]].at >= j * (6 * HOUR)
  {
    if j > 0 {
      SpacingAddsUp(steps, at, j - 1);
    }
  }

  lemma OnlyDenialsRemove(c: Cell, now: Time, e: RowEvent)
    requires Follows(c) && !Follows(Step(c, now, e))
    ensures Denies(e) && MissCounts(c.row.value, now)
    ensures c.row.value.followProbeMisses < I16_MAX ==> e.confirmations <= c.row.value.followProbeMisses + 1
  {
  }

  lemma RemovalIsTheLastDenial(cells: seq<Cell>, steps: seq<Timed>, k: nat, n: int)
    requires ProbedRun(cells, steps, n) && k < |steps|
    requires Follows(cells[k]) && !Follows(cells[k + 1])
    ensures Denies(steps[k].e) && MissCounts(cells[k].row.value, steps[k].at)
    ensures |Counted(cells, steps, k)| + 1 == n
  {
    assert Moves(cells, steps, k);
    CounterIsTruthful(cells, steps, k, n);
    OnlyDenialsRemove(cells[k], steps[k].at, steps[k].e);
  }

  lemma CountedDenials(cells: seq<Cell>, steps: seq<Timed>, k: nat, n: int) returns (at: seq<nat>)
    requires ProbedRun(cells, steps, n) && k < |steps| && Follows(cells[k])
    requires Denies(steps[k].e) && MissCounts(cells[k].row.value, steps[k].at)
    ensures SpacedDenials(steps, at) && |at| == |Counted(cells, steps, k)| + 1 && at[|at| - 1] == k
    ensures UnaffirmedSince(cells, steps, at[0], k + 1)
    ensures steps[k].at - steps[at[0]].at >= (|at| - 1) * (6 * HOUR)
  {
    at := Counted(cells, steps, k + 1);
    assert at == Counted(cells, steps, k) + [k];
    CountedAreSpaced(cells, steps, k + 1, n);
    CountedAreUnaffirmed(cells, steps, k + 1);
    SpacingAddsUp(steps, at, |at| - 1);
  }

  /**
   * In every run of events, probes, sweeps and ageing, a step that turns a follow off is the last
   * of at least `n` negative answers, consecutive ones at least six hours apart, with the follow
   * stored and never affirmed from the first of them on; so at least (n - 1) * 6 h passed.
   */
  lemma UnfollowNeedsSpacedDenials(cells: seq<Cell>, steps: seq<Timed>, k: nat, n: int)
    requires ProbedRun(cells, steps, n) && k < |steps|
    requires Follows(cells[k]) && !Follows(cells[k + 1])
    ensures exists at: seq<nat> ::
              && SpacedDenials(steps, at) && |at| >= n && at[|at| - 1] == k
              && UnaffirmedSince(cells, steps, at[0], k + 1)
              && steps[k].at - steps[at[0]].at >= (n - 1) * (6 * HOUR)
  {
    RemovalIsTheLastDenial(cells, steps, k, n);
    var at := CountedDenials(cells, steps, k, n);
    assert SpacedDenials(steps, at) && |at| == n;
  }

  /** Between these points the follow stays stored and nothing affirms it. */
  lemma {:induction false} CountedGrows(cells: seq<Cell>, steps: seq<Timed>, i: nat, k: nat)
    requires i <= k <= |steps| < |cells| && UnaffirmedSince(cells, steps, i, k)
    ensures Counted(cells, steps, i) <= Counted(cells, steps, k)
    decreases k - i
  {
    if i < k {
      CountedGrows(cells, steps, i, k - 1);
    }
  }

  lemma StampedDenialCounts(cells: seq<Cell>, steps: seq<Timed>, i: nat, k: nat, n: int)
    requires ProbedRun(cells, steps, n) && InOrder(steps) && i < k < |steps| && UnaffirmedSince(cells, steps, i, k + 1)
    requires Denies(steps[k].e) && steps[k].at - steps[i].at >= 6 * HOUR
    requires Counted(cells, steps, i + 1) != [] && Counted(cells, steps, k) == Counted(cells, steps, i + 1)
    ensures Counted(cells, steps, k + 1) == Counted(cells, steps, k) + [k]
  {
    CounterIsTruthful(cells, steps, k, n);
    var at := Counted(cells, steps, i + 1);
    assert at[|at| - 1] <= i && steps[at[|at| - 1]].at <= steps[i].at;
  }

  /** Of spaced denials, whatever else is answered in between, at least as many have counted. */
  lemma {:induction false} SpacedDenialsCount(cells: seq<Cell>, steps: seq<Timed>, at: seq<nat>, j: nat, n: int)
    requires ProbedRun(cells, steps, n) && InOrder(steps) && SpacedDenials(steps, at) && j < |at|
    requires UnaffirmedSince(cells, steps, at[0], at[j] + 1) && MissCounts(Row(cells[at[0]]), steps[at[0]].at)
    ensures |Counted(cells, steps, at[j] + 1)| > j
  {
    AtRises(steps, at, j);
    assert Follows(cells[at[j]]) && !Affirms(steps[at[j]].e) && Denies(steps[at[j]].e);
    if j > 0 {
      var i, k := at[j - 1], at[j];
      AtRises(steps, at, j - 1);
      SpacedDenialsCount(cells, steps, at, j - 1, n);
      CountedGrows(cells, steps, i + 1, k);
      CountedGrows(cells, steps, k, k + 1);
      if |Counted(cells, steps, k)| == j {
        StampedDenialCounts(cells, steps, i, k, n);
      }
    }
  }

  lemma {:induction false} AtRises(steps: seq<Timed>, at: seq<nat>, j: nat)
    requires SpacedDenials(steps, at) && j < |at|
    ensures at[0] <= at[j]
  {
    if j > 0 {
      AtRises(steps, at, j - 1);
    }
  }

  /**
   * The converse: in every run in time order, `n` spaced denials, the first of which counts, take the
   * follow away no later than the last of them, unless an answer affirmed it in between; whatever
   * else the viewer does, a new follow event included.
   */
  lemma SpacedDenialsEndTheFollow(cells: seq<Cell>, steps: seq<Timed>, at: seq<nat>, n: int)
    requires ProbedRun(cells, steps, n) && InOrder(steps) && SpacedDenials(steps, at) && |at| >= n
    requires MissCounts(Row(cells[at[0]]), steps[at[0]].at)
    ensures || (exists k | at[0] <= k <= at[n - 1] :: Affirms(steps[k].e))
            || (exists k | at[0] <= k <= at[n - 1] + 1 :: !Follows(cells[k]))
  {
    AtRises(steps, at, n - 1);
    if UnaffirmedSince(cells, steps, at[0], at[n - 1] + 1) && Follows(cells[at[n - 1] + 1]) {
      SpacedDenialsCount(cells, steps, at, n - 1, n);
      CounterIsTruthful(cells, steps, at[n - 1] + 1, n);
      assert false;
    }
  }

  /**
   * What clears the denials counted against a stored follow: a positive answer, or the last denial
   * together with the follow. In particular a new follow event keeps them.
   */
  lemma OnlyAnswersClearMisses(c: Cell, now: Time, e: RowEvent)
    requires CellOk(c) && Follows(c) && Row(c).followProbeMisses > 0
    requires e.ProbeAnswered? ==> e.confirmations <= I16_MAX
    ensures Row(Step(c, now, e)).followProbeMisses == 0 <==> Affirms(e) || !Follows(Step(c, now, e))
    ensures e.Followed? ==> Row(Step(c, now, e)).followProbeMisses == Row(c).followProbeMisses
  {
    if Answer(e).None? {
      StepWithoutDenialKeepsCounter(c, now, e);
    } else {
      assert Step(c, now, e).row == Some(Probed(c.row.value, e.outcome, e.confirmations, now));
    }
  }

  function DenialAt(at: Time): Timed {
    Timed(at, ProbeAnswered(Usable(Card(false, None, 0, false, false, false, false)), 3))
  }

  /** Three denials with a new follow event just before the last of them. */
  function FollowedMeanwhile(): seq<Timed> {
    [DenialAt(0), DenialAt(6 * HOUR), Timed(12 * HOUR - 1, Followed), DenialAt(12 * HOUR)]
  }

  /** So a viewer who follows again between two denials still loses the follow to the old ones. */
  lemma NewFollowIsTakenAway()
    ensures exists cells: seq<Cell> ::
              && ProbedRun(cells, FollowedMeanwhile(), 3) && Follows(cells[0])
              && Follows(cells[3]) && !Follows(cells[4])
  {
    var steps := FollowedMeanwhile();
    var c0 := Cell(Some(BASELINE.(isFollower := true, followedAt := Some(-1))), map[]);
    var c1 := Step(c0, 0, steps[0].e);
    var c2 := Step(c1, 6 * HOUR, steps[1].e);
    var c3 := Step(c2, 12 * HOUR - 1, Followed);
    var c4 := Step(c3, 12 * HOUR, steps[3].e);
    var cells := [c0, c1, c2, c3, c4];
    assert c2.row.value.followProbeMisses == 2 && c2.row.value.followMissedAt == Some(6 * HOUR);
    assert c3.row.value.followProbeMisses == 2 && c3.row.value.followMissedAt == Some(6 * HOUR);
    forall i | 0 <= i < |steps| ensures Moves(cells, steps, i) {
    }
    assert ProbedRun(cells, steps, 3) && Follows(cells[3]) && !Follows(cells[4]);
  }

  // -------------------------------------------------------------- answers that never came

  predicate Unanswered(e: RowEvent) {
    e.ProbeAnswered? && e.outcome.Unavailable?
  }

  /** The same run without its unavailable probes. */
  function Answered(steps: seq<Timed>, k: nat): seq<Timed>
    requires k <= |steps|
  {
    if k == 0 then []
    else if Unanswered(steps[k - 1].e) then Answered(steps, k - 1)
    else Answered(steps, k - 1) + [steps[k - 1]]
  }

  function Untried(r: Relation): Relation {
    r.(followProbeAttemptedAt := None)
  }

  function WithoutAttempt(c: Cell): Cell {
    if c.row.None? then c else c.(row := Some(Untried(c.row.value)))
  }

  lemma ChattedIgnoresAttempt(r: Relation, now: Time, badges: seq<Badge>)
    ensures ChattedRow(Untried(r), now, badges) == Untried(ChattedRow(r, now, badges))
  {
  }

  lemma ProbedIgnoresAttempt(r: Relation, outcome: ProbeOutcome, n: int, now: Time)
    ensures Probed(Untried(r), outcome, n, now) == Probed(r, outcome, n, now)
  {
  }

  lemma SubscriptionRowsIgnoreAttempt(
    r: Relation, now: Time, createdAt: Option<Time>, expiresAt: Option<Time>, duration: Option<int>
  )
    ensures SubscribedRow(Untried(r), now, createdAt, expiresAt, duration)
         == Untried(SubscribedRow(r, now, createdAt, expiresAt, duration))
    ensures RenewedRow(Untried(r), expiresAt, duration) == Untried(RenewedRow(r, expiresAt, duration))
    ensures ReceivedSubRow(Untried(r), now, expiresAt) == Untried(ReceivedSubRow(r, now, expiresAt))
  {
  }

  lemma StoredSubscriptionStep(r: Relation, days: Buckets, now: Time, e: RowEvent)
    requires e.Subscribed? || e.Renewed? || e.ReceivedSub?
    ensures WithoutAttempt(Step(Cell(Some(Untried(r)), days), now, e))
         == WithoutAttempt(Step(Cell(Some(r), days), now, e))
  {
    match e {
      case Subscribed(createdAt, expiresAt, duration) =>
        SubscriptionRowsIgnoreAttempt(r, now, createdAt, expiresAt, duration);
      case Renewed(expiresAt, duration) => SubscriptionRowsIgnoreAttempt(r, now, None, expiresAt, duration);
      case ReceivedSub(expiresAt) => SubscriptionRowsIgnoreAttempt(r, now, None, expiresAt, None);
    }
  }

  lemma StoredUpkeepStep(r: Relation, days: Buckets, now: Time, e: RowEvent)
    requires e.ExpirySwept? || e.ChatAged?
    ensures WithoutAttempt(Step(Cell(Some(Untried(r)), days), now, e))
         == WithoutAttempt(Step(Cell(Some(r), days), now, e))
  {
    if e.ExpirySwept? {
      assert SweptRow(Untried(r), now) == Untried(SweptRow(r, now));
    } else {
      assert RecountedRow(Untried(r), days, CutoffOf(now), e.ageing)
          == Untried(RecountedRow(r, days, CutoffOf(now), e.ageing));
    }
  }

  lemma StoredStep(r: Relation, days: Buckets, now: Time, e: RowEvent)
    requires e.Followed? || e.GaveSubs? || e.GaveKicks? || e.Chatted? || e.ProbeAnswered?
    ensures WithoutAttempt(Step(Cell(Some(Untried(r)), days), now, e))
         == WithoutAttempt(Step(Cell(Some(r), days), now, e))
  {
    match e {
      case Chatted(badges) => ChattedIgnoresAttempt(r, now, badges);
      case ProbeAnswered(outcome, n) => ProbedIgnoresAttempt(r, outcome, n, now);
      case _ =>
    }
  }

  lemma StepOfWithoutAttempt(c: Cell, now: Time, e: RowEvent)
    ensures WithoutAttempt(Step(WithoutAttempt(c), now, e)) == WithoutAttempt(Step(c, now, e))
  {
    if c.row.Some? {
      if e.Subscribed? || e.Renewed? || e.ReceivedSub? {
        StoredSubscriptionStep(c.row.value, c.days, now, e);
      } else if e.ExpirySwept? || e.ChatAged? {
        StoredUpkeepStep(c.row.value, c.days, now, e);
      } else {
        StoredStep(c.row.value, c.days, now, e);
      }
    }
  }

  lemma StepIgnoresAttempts(c: Cell, d: Cell, now: Time, e: RowEvent)
    requires WithoutAttempt(c) == WithoutAttempt(d)
    ensures WithoutAttempt(Step(c, now, e)) == WithoutAttempt(Step(d, now, e))
  {
    StepOfWithoutAttempt(c, now, e);
    StepOfWithoutAttempt(d, now, e);
  }

  lemma {:induction false} AnsweredSoFar(steps: seq<Timed>, k: nat, m: nat)
    requires k <= m <= |steps|
    ensures Answered(steps, k) <= Answered(steps, m)
    decreases m - k
  {
    if k < m {
      AnsweredSoFar(steps, k, m - 1);
    }
  }

  /**
   * Unavailable probes can be deleted from any run: every column but the attempt stamp ends up the
   * same, relationship facts and the miss counter included.
   */
  lemma {:induction false} UnavailableProbesLeaveNoTrace(
    cells: seq<Cell>, steps: seq<Timed>, kept: seq<Cell>, k: nat
  )
    requires IsRun(cells, steps) && IsRun(kept, Answered(steps, |steps|)) && kept[0] == cells[0]
    requires k <= |steps|
    ensures |Answered(steps, k)| <= |Answered(steps, |steps|)|
    ensures WithoutAttempt(cells[k]) == WithoutAttempt(kept[|Answered(steps, k)|])
  {
    AnsweredSoFar(steps, k, |steps|);
    if k > 0 {
      UnavailableProbesLeaveNoTrace(cells, steps, kept, k - 1);
      var i, s := |Answered(steps, k - 1)|, steps[k - 1];
      assert Moves(cells, steps, k - 1);
      if !Unanswered(s.e) {
        assert Answered(steps, k)[i] == s;
        assert Moves(kept, Answered(steps, |steps|), i);
        StepIgnoresAttempts(cells[k - 1], kept[i], s.at, s.e);
      }
    }
  }

  // ------------------------------------------------------------------------------ the stamps

  /** When the last usable answer came. */
  function LastAnswered(initial: Option<Time>, steps: seq<Timed>, k: nat): Option<Time>
    requires k <= |steps|
  {
    if k == 0 then initial
    else if Answer(steps[k - 1].e).Some? then Some(steps[k - 1].at)
    else LastAnswered(initial, steps, k - 1)
  }

  /** When a probe was last tried, answered or not. */
  function LastTried(initial: Option<Time>, steps: seq<Timed>, k: nat): Option<Time>
    requires k <= |steps|
  {
    if k == 0 then initial
    else if steps[k - 1].e.ProbeAnswered? then Some(steps[k - 1].at)
    else LastTried(initial, steps, k - 1)
  }

  lemma StepStamps(r: Relation, days: Buckets, now: Time, e: RowEvent)
    ensures var after := Step(Cell(Some(r), days), now, e);
            && after.row.Some?
            && after.row.value.followProbedAt == (if Answer(e).Some? then Some(now) else r.followProbedAt)
            && after.row.value.followProbeAttemptedAt
               == (if e.ProbeAnswered? then Some(now) else r.followProbeAttemptedAt)
  {
  }

  /** Sweep and backfill order by true stamps: the last usable answer, and the last attempt. */
  lemma {:induction false} StampsAreTheLastTimes(cells: seq<Cell>, steps: seq<Timed>, k: nat)
    requires IsRun(cells, steps) && cells[0].row.Some? && k <= |steps|
    ensures cells[k].row.Some?
    ensures cells[k].row.value.followProbedAt == LastAnswered(cells[0].row.value.followProbedAt, steps, k)
    ensures cells[k].row.value.followProbeAttemptedAt == LastTried(cells[0].row.value.followProbeAttemptedAt, steps, k)
  {
    if k > 0 {
      StampsAreTheLastTimes(cells, steps, k - 1);
      assert Moves(cells, steps, k - 1);
      StepStamps(cells[k - 1].row.value, cells[k - 1].days, steps[k - 1].at, steps[k - 1].e);
    }
  }
}

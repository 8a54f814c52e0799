/**
 * The follow-up probes: a denial that leaves a follow standing books another probe just past the
 * spacing, so the booked probes are spaced, each of their denials counts, and enough of them take
 * the follow away.
 */
module FollowUps {
  import opened Facts
  import opened FollowSync
  import opened RelationEvents
  import opened FollowRuns
  import opened RelationStore

  /** Denials in order, each later one of a probe that ran no earlier than the one before had it booked. */
  predicate AreBooked(steps: seq<Timed>, at: seq<nat>, bookings: seq<Time>) {
    && |bookings| == |at|
    && (forall j | 0 <= j < |at| :: at[j] < |steps| && Denies(steps[at[j]].e) && steps[at[j]].at <= bookings[j])
    && (forall j | 0 < j < |at| :: at[j - 1] < at[j] && steps[at[j]].at >= bookings[j - 1] + CONFIRM_DELAY)
  }

  lemma BookedAreSpaced(steps: seq<Timed>, at: seq<nat>, bookings: seq<Time>)
    requires AreBooked(steps, at, bookings)
    ensures SpacedDenials(steps, at)
  {
    forall j | 0 < j < |at| ensures steps[at[j]].at - steps[at[j - 1]].at >= 6 * HOUR {
      assert steps[at[j - 1]].at <= bookings[j - 1];
    }
  }

  /** What the probe loop notes about this step's channel. */
  function PrintOf(cells: seq<Cell>, steps: seq<Timed>, k: nat): Footprint
    requires k < |steps| < |cells| && steps[k].e.ProbeAnswered?
  {
    FootprintOf(Row(cells[k]), steps[k].e.outcome, steps[k].e.confirmations, steps[k].at)
  }

  lemma StandingDenialAwaits(cells: seq<Cell>, steps: seq<Timed>, k: nat, n: int)
    requires ProbedRun(cells, steps, n) && k < |steps| && Denies(steps[k].e)
    requires Follows(cells[k]) && Follows(cells[k + 1]) && Counted(cells, steps, k + 1) != []
    ensures PrintOf(cells, steps, k).awaits
  {
    CounterIsTruthful(cells, steps, k + 1, n);
    assert Moves(cells, steps, k);
  }

  /** While the follow stands and nothing affirms it, each of the booked probes books the next one. */
  lemma EachBooksTheNext(cells: seq<Cell>, steps: seq<Timed>, at: seq<nat>, bookings: seq<Time>, j: nat, n: int)
    requires ProbedRun(cells, steps, n) && InOrder(steps) && AreBooked(steps, at, bookings) && j < |at|
    requires MissCounts(Row(cells[at[0]]), steps[at[0]].at)
    requires UnaffirmedSince(cells, steps, at[0], at[j] + 1) && Follows(cells[at[j] + 1])
    ensures PrintOf(cells, steps, at[j]).awaits
  {
    BookedAreSpaced(steps, at, bookings);
    SpacedDenialsCount(cells, steps, at, j, n);
    AtRises(steps, at, j);
    StandingDenialAwaits(cells, steps, at[j], n);
  }

  /**
   * `n` denials, the first of which counts and each later one from a probe booked at the one before,
   * take the follow away no later than the last, unless an answer affirmed it in between.
   */
  lemma BookedProbesEndTheFollow(cells: seq<Cell>, steps: seq<Timed>, at: seq<nat>, bookings: seq<Time>, n: int)
    requires ProbedRun(cells, steps, n) && InOrder(steps) && AreBooked(steps, at, bookings) && |at| >= n
    requires MissCounts(Row(cells[at[0]]), steps[at[0]].at)
    ensures || (exists k | at[0] <= k <= at[n - 1] :: Affirms(steps[k].e))
            || (exists k | at[0] <= k <= at[n - 1] + 1 :: !Follows(cells[k]))
  {
    BookedAreSpaced(steps, at, bookings);
    SpacedDenialsEndTheFollow(cells, steps, at, n);
  }
}

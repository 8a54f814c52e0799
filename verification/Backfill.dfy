/**
 * The backfill of never-read relations: each cycle probes the viewers least recently attempted, and
 * an attempt stamps all of a viewer's rows. No eligible viewer starves.
 */
module Backfill {
  import opened Wrappers
  import opened Facts
  import opened Ascending
  import opened FollowSync

  const RETRY_AFTER: Time := 24 * HOUR

  /** The probe columns of a relation row. */
  datatype ProbeRow = ProbeRow(probedAt: Option<Time>, attemptedAt: Option<Time>)

  /** Rows by (channel, viewer). */
  type Backlog = map<(int, int), ProbeRow>

  predicate RowEligible(r: ProbeRow, now: Time) {
    r.probedAt.None? && (r.attemptedAt.None? || r.attemptedAt.value < now - RETRY_AFTER)
  }

  function Viewers(b: Backlog): set<int> {
    set key | key in b :: key.1
  }

  /** Viewers with an eligible row and no probe queued. */
  function Candidates(b: Backlog, now: Time, queued: set<int>): set<int> {
    set key | key in b && RowEligible(b[key], now) && key.1 !in queued :: key.1
  }

  /** The attempt times among a viewer's eligible rows. */
  function AttemptTimes(b: Backlog, viewer: int, now: Time): set<Time> {
    set key | key in b && key.1 == viewer && RowEligible(b[key], now) && b[key].attemptedAt.Some? ::
      b[key].attemptedAt.value
  }

  /** `min(follow_probe_attempted_at)` of the group: NULL only when every eligible row is untried. */
  function OrderKey(b: Backlog, viewer: int, now: Time): Option<Time> {
    var times := AttemptTimes(b, viewer, now);
    if times == {} then None else Some(Least(times))
  }

  /** `NULLS FIRST`. */
  predicate NotAfter(a: Option<Time>, b: Option<Time>) {
    a.None? || (b.Some? && a.value <= b.value)
  }

  /** A result the query may return: the least recently attempted candidates, ties in any order. */
  ghost predicate IsSelection(b: Backlog, now: Time, queued: set<int>, limit: nat, chosen: set<int>) {
    var candidates := Candidates(b, now, queued);
    && chosen <= candidates
    && |chosen| == AtMost(limit, |candidates|)
    && forall x, y | x in chosen && y in candidates && y !in chosen ::
         NotAfter(OrderKey(b, x, now), OrderKey(b, y, now))
  }

  /** A row is due: never answered, and not tried within the last day. */
  predicate IsUnread(r: ProbeRow, now: Time) {
    r.probedAt.None? && (r.attemptedAt.Some? ==> now - r.attemptedAt.value > 24 * HOUR)
  }

  /** Whom the backfill considers: viewers with a row due and no probe on its way. */
  lemma CandidatesHaveUnreadRows(b: Backlog, now: Time, queued: set<int>, viewer: int)
    ensures viewer in Candidates(b, now, queued)
       <==> viewer !in queued && exists key | key in b :: key.1 == viewer && IsUnread(b[key], now)
  {
    forall key | key in b ensures RowEligible(b[key], now) <==> IsUnread(b[key], now) {
    }
  }

  /** Untried viewers come before tried ones, and among the tried the earlier attempt comes first. */
  lemma OrderIsByAttempt(a: Option<Time>, b: Option<Time>)
    ensures a.None? ==> NotAfter(a, b)
    ensures a.Some? && b.None? ==> !NotAfter(a, b)
    ensures a.Some? && b.Some? ==> (NotAfter(a, b) <==> !(b.value < a.value))
  {
  }

  method PickFirst(b: Backlog, now: Time, candidates: set<int>) returns (first: int)
    requires candidates != {}
    ensures first in candidates
    ensures forall y | y in candidates :: NotAfter(OrderKey(b, first, now), OrderKey(b, y, now))
  {
    first := Least(candidates);
    var seen := {first};
    while seen != candidates
      invariant first in seen && seen <= candidates
      invariant forall y | y in seen :: NotAfter(OrderKey(b, first, now), OrderKey(b, y, now))
      decreases |candidates - seen|
    {
      assert candidates - seen != {};
      var next := Least(candidates - seen);
      if !NotAfter(OrderKey(b, first, now), OrderKey(b, next, now)) {
        first := next;
      }
      assert candidates - (seen + {next}) == candidates - seen - {next};
      seen := seen + {next};
    }
  }

  /** The selection query. */
  method SelectViewers(b: Backlog, now: Time, queued: set<int>, limit: nat) returns (listed: seq<int>)
    ensures IsSelection(b, now, queued, limit, Members(listed)) && |listed| == |Members(listed)|
  {
    var candidates := Candidates(b, now, queued);
    var left := candidates;
    listed := [];
    while left != {} && |listed| < limit
      invariant left <= candidates && Members(listed) == candidates - left
      invariant |listed| == |Members(listed)| <= limit
      invariant forall x, y | x in Members(listed) && y in left :: NotAfter(OrderKey(b, x, now), OrderKey(b, y, now))
      decreases |left|
    {
      var next := PickFirst(b, now, left);
      assert Members(listed + [next]) == Members(listed) + {next};
      assert candidates - (left - {next}) == Members(listed) + {next};
      listed, left := listed + [next], left - {next};
    }
    assert candidates == Members(listed) + left;
  }

  // ------------------------------------------------------------------------ the enqueue loop

  /** `batch_spacing_secs`. */
  function BatchSpacing(rpm: nat): (secs: nat)
    ensures 1 <= secs <= 60
  {
    var perProbe := 60 / (if rpm >= 1 then rpm else 1);
    if perProbe >= 1 then perProbe else 1
  }

  /**
   * The spacing is whole seconds, rounded down but never below one: the batch becomes runnable no
   * slower than a budget of up to 60 a minute, and at no more than the budget exactly when the
   * budget divides the minute or is at least one a second.
   */
  lemma SpacingFollowsTheBudget(rpm: nat)
    requires rpm >= 1
    ensures rpm <= 60 ==> BatchSpacing(rpm) * rpm <= 60 < (BatchSpacing(rpm) + 1) * rpm
    ensures rpm > 60 ==> BatchSpacing(rpm) == 1
    ensures 60 <= BatchSpacing(rpm) * rpm <==> 60 % rpm == 0 || rpm >= 60
  {
    assert 60 == 60 / rpm * rpm + 60 % rpm;
  }

  /** The batch is spread out: each probe becomes runnable one spacing after the one before it. */
  method EnqueueBatch(listed: seq<int>, rpm: nat, now: Time) returns (probes: seq<QueuedProbe>)
    ensures |probes| == |listed|
    ensures forall i | 0 <= i < |listed| :: probes[i] == QueuedProbe(listed[i], now + i * BatchSpacing(rpm) * SECOND)
  {
    var spacing := BatchSpacing(rpm);
    probes := [];
    for i := 0 to |listed|
      invariant |probes| == i
      invariant forall j | 0 <= j < i :: probes[j] == QueuedProbe(listed[j], now + j * spacing * SECOND)
    {
      probes := probes + [QueuedProbe(listed[i], now + i * spacing * SECOND)];
    }
  }

  // ------------------------------------------------------------------------------- cycles

  /** One cycle: when it selected, whom, and when each of them was attempted (no probe answered). */
  datatype Cycle = Cycle(now: Time, chosen: set<int>, attempts: map<int, Time>)

  function Attempted(b: Backlog, c: Cycle): Backlog
    requires c.chosen <= c.attempts.Keys
  {
    map key | key in b :: if key.1 in c.chosen then b[key].(attemptedAt := Some(c.attempts[key.1])) else b[key]
  }

  ghost predicate CycleRuns(backlogs: seq<Backlog>, cycles: seq<Cycle>, limit: nat, i: nat)
    requires i < |cycles| < |backlogs|
  {
    var c := cycles[i];
    && IsSelection(backlogs[i], c.now, {}, limit, c.chosen)
    && c.chosen <= c.attempts.Keys && (forall v | v in c.chosen :: c.now <= c.attempts[v])
    && backlogs[i + 1] == Attempted(backlogs[i], c)
  }

  /** A fixed backlog in which every selected viewer is attempted, unanswered, before the next cycle. */
  ghost predicate IsBackfill(backlogs: seq<Backlog>, cycles: seq<Cycle>, limit: nat) {
    && |backlogs| == |cycles| + 1
    && (forall i | 0 <= i < |cycles| :: CycleRuns(backlogs, cycles, limit, i))
    && (forall i, j | 0 <= i < j < |cycles| :: cycles[i].now <= cycles[j].now)
  }

  function Reached(cycles: seq<Cycle>, k: nat): set<int>
    requires k <= |cycles|
  {
    if k == 0 then {} else Reached(cycles, k - 1) + cycles[k - 1].chosen
  }

  /** Rows of viewers reached so far carry stamps from the run, the others are as at the start. */
  ghost predicate StampsTell(backlogs: seq<Backlog>, cycles: seq<Cycle>, k: nat)
    requires 0 < |cycles| < |backlogs| && k <= |cycles|
  {
    && backlogs[k].Keys == backlogs[0].Keys
    && forall key | key in backlogs[0] ::
         if key.1 in Reached(cycles, k)
         then backlogs[k][key].attemptedAt.Some? && backlogs[k][key].attemptedAt.value >= cycles[0].now
         else backlogs[k][key] == backlogs[0][key]
  }

  lemma {:induction false} RunStamps(backlogs: seq<Backlog>, cycles: seq<Cycle>, limit: nat, k: nat)
    requires IsBackfill(backlogs, cycles, limit) && 0 < |cycles| && k <= |cycles|
    ensures StampsTell(backlogs, cycles, k)
  {
    if k > 0 {
      RunStamps(backlogs, cycles, limit, k - 1);
      assert CycleRuns(backlogs, cycles, limit, k - 1);
      var c := cycles[k - 1];
      assert forall v | v in c.chosen :: c.now <= c.attempts[v];
      assert cycles[0].now <= c.now;
      forall key | key in backlogs[0]
        ensures if key.1 in Reached(cycles, k)
                then backlogs[k][key].attemptedAt.Some? && backlogs[k][key].attemptedAt.value >= cycles[0].now
                else backlogs[k][key] == backlogs[0][key]
      {
        assert key in backlogs[k - 1];
        assert key.1 in c.chosen ==> c.now <= c.attempts[key.1];
      }
    }
  }

  /** The start: every stamp lies before the first cycle. */
  predicate StampsArePast(b: Backlog, now: Time) {
    forall key | key in b && b[key].attemptedAt.Some? :: b[key].attemptedAt.value < now
  }

  lemma UnreachedGoFirst(backlogs: seq<Backlog>, cycles: seq<Cycle>, limit: nat, k: nat, x: int, v: int)
    requires IsBackfill(backlogs, cycles, limit) && k < |cycles| && StampsArePast(backlogs[0], cycles[0].now)
    requires v !in Reached(cycles, k) && x in Reached(cycles, k)
    requires x in Candidates(backlogs[k], cycles[k].now, {})
    ensures !NotAfter(OrderKey(backlogs[k], x, cycles[k].now), OrderKey(backlogs[k], v, cycles[k].now))
  {
    RunStamps(backlogs, cycles, limit, k);
    var b, now := backlogs[k], cycles[k].now;
    var key :| key in b && RowEligible(b[key], now) && key.1 == x;
    assert b[key].attemptedAt.value in AttemptTimes(b, x, now);
    assert forall t | t in AttemptTimes(b, x, now) :: t >= cycles[0].now;
    assert forall t | t in AttemptTimes(b, v, now) :: t < cycles[0].now;
  }

  lemma StaysCandidate(backlogs: seq<Backlog>, cycles: seq<Cycle>, limit: nat, k: nat, v: int)
    requires IsBackfill(backlogs, cycles, limit) && k < |cycles|
    requires v in Candidates(backlogs[0], cycles[0].now, {}) && v !in Reached(cycles, k)
    ensures v in Candidates(backlogs[k], cycles[k].now, {})
  {
    RunStamps(backlogs, cycles, limit, k);
    var key :| key in backlogs[0] && RowEligible(backlogs[0][key], cycles[0].now) && key.1 == v;
    assert k > 0 ==> cycles[0].now <= cycles[k].now;
    assert RowEligible(backlogs[k][key], cycles[k].now);
  }

  /** A cycle that passes over an unreached candidate selects a full batch of others, all unreached before. */
  lemma PassedOverByNewcomers(backlogs: seq<Backlog>, cycles: seq<Cycle>, limit: nat, k: nat, v: int)
    requires IsBackfill(backlogs, cycles, limit) && k < |cycles| && StampsArePast(backlogs[0], cycles[0].now)
    requires v in Candidates(backlogs[0], cycles[0].now, {}) && v !in Reached(cycles, k + 1)
    ensures |cycles[k].chosen| == limit && cycles[k].chosen !! Reached(cycles, k)
    ensures cycles[k].chosen <= Viewers(backlogs[0])
  {
    StaysCandidate(backlogs, cycles, limit, k, v);
    RunStamps(backlogs, cycles, limit, k);
    assert CycleRuns(backlogs, cycles, limit, k);
    SubsetSize(cycles[k].chosen, Candidates(backlogs[k], cycles[k].now, {}));
    forall x | x in cycles[k].chosen ensures x !in Reached(cycles, k) {
      if x in Reached(cycles, k) {
        UnreachedGoFirst(backlogs, cycles, limit, k, x, v);
        assert false;
      }
    }
  }

  lemma {:induction false} UnreachedAreFew(backlogs: seq<Backlog>, cycles: seq<Cycle>, limit: nat, k: nat, v: int)
    requires IsBackfill(backlogs, cycles, limit) && 0 < |cycles| && k <= |cycles|
    requires StampsArePast(backlogs[0], cycles[0].now)
    requires v in Candidates(backlogs[0], cycles[0].now, {}) && v !in Reached(cycles, k)
    ensures |Reached(cycles, k)| == k * limit && Reached(cycles, k) <= Viewers(backlogs[0])
  {
    if k > 0 {
      UnreachedAreFew(backlogs, cycles, limit, k - 1, v);
      PassedOverByNewcomers(backlogs, cycles, limit, k - 1, v);
      assert k * limit == (k - 1) * limit + limit;
    }
  }

  /**
   * With N viewers in the backlog and a batch of B, every viewer eligible at the start is selected
   * within ceil(N / B) cycles.
   */
  lemma NobodyStarves(backlogs: seq<Backlog>, cycles: seq<Cycle>, limit: nat, v: int)
    requires IsBackfill(backlogs, cycles, limit) && 0 < |cycles|
    requires StampsArePast(backlogs[0], cycles[0].now)
    requires v in Candidates(backlogs[0], cycles[0].now, {})
    requires |cycles| * limit >= |Viewers(backlogs[0])|
    ensures v in Reached(cycles, |cycles|)
  {
    assert v in Viewers(backlogs[0]);
    if v !in Reached(cycles, |cycles|) {
      UnreachedAreFew(backlogs, cycles, limit, |cycles|, v);
      SubsetSize(Reached(cycles, |cycles|), Viewers(backlogs[0]) - {v});
    }
  }
}

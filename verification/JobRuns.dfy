/**
 * Runs of the job queue: any number of workers claim, settle and reap in any order. A worker may
 * settle a job only while it holds it; reaping a job takes it from its holder.
 */
module JobRuns {
  import opened Wrappers
  import opened Facts
  import opened Ascending
  import opened JobQueue

  /** The table, and which worker still works on which job. */
  datatype Queue = Queue(jobs: Jobs, held: set<(nat, int)>)

  datatype QueueEvent =
    | Enqueued(id: int, kind: string, runAt: Time)
    | Claimed(worker: nat, limit: nat)
    | Settled(worker: nat, id: int, verdict: Verdict, jitter: Jitter)
    | Reaped

  datatype Timed = Timed(at: Time, e: QueueEvent)

  predicate Enabled(q: Queue, e: QueueEvent) {
    match e
    case Enqueued(id, _, _) => id !in q.jobs
    case Claimed(_, _) => true
    case Settled(worker, id, _, _) => (worker, id) in q.held && id in q.jobs
    case Reaped => true
  }

  function Next(q: Queue, now: Time, e: QueueEvent): Queue
    requires Enabled(q, e)
  {
    match e
    case Enqueued(id, kind, runAt) => q.(jobs := q.jobs[id := JobRow(kind, Pending, 0, 8, runAt, None, None, None)])
    case Claimed(worker, limit) =>
      Queue(AfterClaim(q.jobs, worker, limit, now), q.held + set id | id in Chosen(q.jobs, limit, now) :: (worker, id))
    case Settled(worker, id, verdict, jitter) =>
      Queue(q.jobs[id := SettledRow(q.jobs[id], verdict, now, jitter)], q.held - {(worker, id)})
    case Reaped =>
      Queue(AfterReap(q.jobs, now), set h | h in q.held && h.1 in q.jobs && !Stuck(q.jobs[h.1], now))
  }

  // ------------------------------------------------------------------------ one job's view

  function RowOf(q: Queue, id: int): Option<JobRow> {
    if id in q.jobs then Some(q.jobs[id]) else None
  }

  predicate Claims(q: Queue, now: Time, e: QueueEvent, id: int) {
    e.Claimed? && id in Chosen(q.jobs, e.limit, now)
  }

  /** A reap, or a release at shutdown: the claim did not use up an attempt of its own. */
  predicate Returns(q: Queue, now: Time, e: QueueEvent, id: int) {
    || (e.Reaped? && id in q.jobs && Stuck(q.jobs[id], now))
    || (e.Settled? && e.id == id && e.verdict == ShuttingDown)
  }

  /** In progress exactly with both lock fields set and exactly one holder, the one the row names. */
  ghost predicate LockTells(q: Queue, id: int) {
    var row := RowOf(q, id);
    if row.Some? && row.value.status == InProgress then
      && row.value.lockedBy.Some? && row.value.lockedAt.Some?
      && forall w: nat :: (w, id) in q.held <==> row.value.lockedBy == Some(w)
    else
      && (row.Some? ==> row.value.lockedBy.None? && row.value.lockedAt.None?)
      && forall w: nat :: (w, id) !in q.held
  }

  lemma ChosenAreDue(jobs: Jobs, limit: nat, now: Time, id: int)
    requires id in Chosen(jobs, limit, now)
    ensures id in jobs && IsDue(jobs[id], now)
  {
    ClaimTakesTheOldest(jobs, limit, now);
  }

  lemma StepKeepsLock(q: Queue, now: Time, e: QueueEvent, id: int)
    requires Enabled(q, e) && LockTells(q, id)
    ensures LockTells(Next(q, now, e), id)
  {
    if Claims(q, now, e, id) {
      ChosenAreDue(q.jobs, e.limit, now, id);
    }
  }

  /** What one step does to one row. */
  lemma StepOnRow(q: Queue, now: Time, e: QueueEvent, id: int)
    requires Enabled(q, e) && id in q.jobs
    ensures var after := RowOf(Next(q, now, e), id);
            after == Some(if Claims(q, now, e, id) then ClaimedRow(q.jobs[id], e.worker, now)
                          else if e.Settled? && e.id == id then SettledRow(q.jobs[id], e.verdict, now, e.jitter)
                          else if e.Reaped? then ReapedRow(q.jobs[id], now)
                          else q.jobs[id])
  {
  }

  // ------------------------------------------------------------------------------------ runs

  predicate Moves(queues: seq<Queue>, events: seq<Timed>, i: nat)
    requires i < |events| < |queues|
  {
    Enabled(queues[i], events[i].e) && queues[i + 1] == Next(queues[i], events[i].at, events[i].e)
  }

  /** A run from the empty table. */
  predicate IsRun(queues: seq<Queue>, events: seq<Timed>) {
    && |queues| == |events| + 1
    && queues[0] == Queue(map[], {})
    && forall i | 0 <= i < |events| :: Moves(queues, events, i)
  }

  /** In progress if and only if locked, by one live worker, at every point of every run. */
  lemma {:induction false} LockAlwaysTells(queues: seq<Queue>, events: seq<Timed>, k: nat, id: int)
    requires IsRun(queues, events) && k <= |events|
    ensures LockTells(queues[k], id)
  {
    if k > 0 {
      LockAlwaysTells(queues, events, k - 1, id);
      assert Moves(queues, events, k - 1);
      StepKeepsLock(queues[k - 1], events[k - 1].at, events[k - 1].e, id);
    }
  }

  lemma AtMostOneHolder(queues: seq<Queue>, events: seq<Timed>, k: nat, id: int, v: nat, w: nat)
    requires IsRun(queues, events) && k <= |events|
    requires (v, id) in queues[k].held && (w, id) in queues[k].held
    ensures v == w
  {
    LockAlwaysTells(queues, events, k, id);
  }

  predicate Closed(row: Option<JobRow>) {
    row.Some? && (row.value.status == Completed || row.value.status == Dead)
  }

  /** Completed and dead jobs are final: no later step changes the row, none claims it. */
  lemma {:induction false} ClosedIsFinal(queues: seq<Queue>, events: seq<Timed>, i: nat, j: nat, id: int)
    requires IsRun(queues, events) && i <= j <= |events| && Closed(RowOf(queues[i], id))
    ensures RowOf(queues[j], id) == RowOf(queues[i], id)
    ensures j < |events| ==> !Claims(queues[j], events[j].at, events[j].e, id)
    decreases j - i
  {
    if i < j {
      ClosedIsFinal(queues, events, i, j - 1, id);
      var q, t := queues[j - 1], events[j - 1];
      assert Moves(queues, events, j - 1);
      LockAlwaysTells(queues, events, j - 1, id);
      StepOnRow(q, t.at, t.e, id);
    }
    if j < |events| && Claims(queues[j], events[j].at, events[j].e, id) {
      ChosenAreDue(queues[j].jobs, events[j].e.limit, events[j].at, id);
    }
  }

  // -------------------------------------------------------------------- how often a job is claimed

  function ClaimCount(queues: seq<Queue>, events: seq<Timed>, k: nat, id: int): nat
    requires k <= |events| < |queues|
  {
    if k == 0 then 0
    else ClaimCount(queues, events, k - 1, id)
         + if Claims(queues[k - 1], events[k - 1].at, events[k - 1].e, id) then 1 else 0
  }

  /** Reaps and shutdown releases of the job. */
  function ReturnCount(queues: seq<Queue>, events: seq<Timed>, k: nat, id: int): nat
    requires k <= |events| < |queues|
  {
    if k == 0 then 0
    else ReturnCount(queues, events, k - 1, id)
         + if Returns(queues[k - 1], events[k - 1].at, events[k - 1].e, id) then 1 else 0
  }

  /** Ordinary settlements of the job: completed, dead, or a retry after an error. */
  predicate Settles(e: QueueEvent, id: int) {
    e.Settled? && e.id == id && e.verdict != ShuttingDown
  }

  function SettleCount(events: seq<Timed>, k: nat, id: int): nat
    requires k <= |events|
  {
    if k == 0 then 0 else SettleCount(events, k - 1, id) + if Settles(events[k - 1].e, id) then 1 else 0
  }

  predicate AttemptsTell(row: Option<JobRow>, claims: nat, given: nat, settles: nat) {
    match row
    case None => claims == 0 && given == 0 && settles == 0
    case Some(r) =>
      && r.attempts == claims
      && r.maxAttempts == 8
      && (r.status == Pending ==> claims < 8 + given)
      && claims <= 8 + given
      && claims == given + settles + if r.status == InProgress then 1 else 0
  }

  lemma {:induction false} AttemptsAreClaims(queues: seq<Queue>, events: seq<Timed>, k: nat, id: int)
    requires IsRun(queues, events) && k <= |events|
    ensures AttemptsTell(RowOf(queues[k], id), ClaimCount(queues, events, k, id), ReturnCount(queues, events, k, id),
                         SettleCount(events, k, id))
  {
    if k > 0 {
      AttemptsAreClaims(queues, events, k - 1, id);
      LockAlwaysTells(queues, events, k - 1, id);
      var q, t := queues[k - 1], events[k - 1];
      assert Moves(queues, events, k - 1);
      if id in q.jobs {
        StepOnRow(q, t.at, t.e, id);
        if Claims(q, t.at, t.e, id) {
          ChosenAreDue(q.jobs, t.e.limit, t.at, id);
        }
      } else if Claims(q, t.at, t.e, id) {
        ChosenAreDue(q.jobs, t.e.limit, t.at, id);
        assert false;
      }
    }
  }

  /** A job is claimed at most max_attempts (8) times plus once per reap or shutdown release of it. */
  lemma ClaimsAreBounded(queues: seq<Queue>, events: seq<Timed>, k: nat, id: int)
    requires IsRun(queues, events) && k <= |events|
    ensures ClaimCount(queues, events, k, id) <= 8 + ReturnCount(queues, events, k, id)
  {
    AttemptsAreClaims(queues, events, k, id);
  }

  /**
   * The termination measure of ordinary work: without reaps and releases every claim and every
   * settlement of a job lowers it, so at most 8 claims and 8 settlements ever happen to the job.
   */
  function Rank(row: Option<JobRow>): nat {
    match row
    case None => 17
    case Some(r) =>
      if Closed(row) then 0
      else (if r.attempts <= 8 then 2 * (8 - r.attempts) else 0) + if r.status == InProgress then 1 else 0
  }

  lemma ClaimLowersRank(r: JobRow, worker: nat, now: Time)
    requires r.status == Pending && r.attempts < 8
    ensures Rank(Some(ClaimedRow(r, worker, now))) < Rank(Some(r))
  {
  }

  lemma SettlementLowersRank(r: JobRow, verdict: Verdict, now: Time, jitter: Jitter)
    requires r.status == InProgress && r.attempts <= 8 && verdict != ShuttingDown
    ensures Rank(Some(SettledRow(r, verdict, now, jitter))) < Rank(Some(r))
  {
  }

  lemma OrdinaryStepLowersRank(queues: seq<Queue>, events: seq<Timed>, k: nat, id: int)
    requires IsRun(queues, events) && k < |events| && ReturnCount(queues, events, k, id) == 0
    requires Claims(queues[k], events[k].at, events[k].e, id) || Settles(events[k].e, id)
    ensures Rank(RowOf(queues[k + 1], id)) < Rank(RowOf(queues[k], id))
  {
    AttemptsAreClaims(queues, events, k, id);
    LockAlwaysTells(queues, events, k, id);
    assert Moves(queues, events, k);
    if Claims(queues[k], events[k].at, events[k].e, id) {
      ChosenAreDue(queues[k].jobs, events[k].e.limit, events[k].at, id);
    }
    StepOnRow(queues[k], events[k].at, events[k].e, id);
    var r := queues[k].jobs[id];
    match events[k].e {
      case Claimed(worker, _) => ClaimLowersRank(r, worker, events[k].at);
      case Settled(_, _, verdict, jitter) => SettlementLowersRank(r, verdict, events[k].at, jitter);
    }
  }

  // --------------------------------------------------------------------------------- backoff

  /** A retried job rests: it is not claimed again before its backoff is over. */
  lemma {:induction false} RetryWaitsOutItsBackoff(queues: seq<Queue>, events: seq<Timed>, i: nat, j: nat, id: int)
    requires IsRun(queues, events) && i < j <= |events|
    requires events[i].e.Settled? && events[i].e.id == id && id in queues[i + 1].jobs
    requires queues[i + 1].jobs[id].status == Pending
    requires forall k | i < k < j :: !Claims(queues[k], events[k].at, events[k].e, id)
    ensures id in queues[j].jobs && queues[j].jobs[id] == queues[i + 1].jobs[id]
    ensures queues[j].jobs[id].nextRunAt >= events[i].at + BaseDelay(queues[j].jobs[id].attempts)
    ensures j < |events| && Claims(queues[j], events[j].at, events[j].e, id) ==>
              events[j].at >= events[i].at + BaseDelay(queues[j].jobs[id].attempts)
    decreases j
  {
    assert Moves(queues, events, i);
    if j > i + 1 {
      RetryWaitsOutItsBackoff(queues, events, i, j - 1, id);
      assert Moves(queues, events, j - 1);
      LockAlwaysTells(queues, events, j - 1, id);
      StepOnRow(queues[j - 1], events[j - 1].at, events[j - 1].e, id);
    }
    if j < |events| && Claims(queues[j], events[j].at, events[j].e, id) {
      ChosenAreDue(queues[j].jobs, events[j].e.limit, events[j].at, id);
    }
  }
  // --------------------------------------------------------------- a worker keeps its job

  /** At step `i` the worker takes the pending job. */
  predicate TakesAt(queues: seq<Queue>, events: seq<Timed>, i: nat, worker: nat, id: int)
    requires i < |events| < |queues|
  {
    && events[i].e.Claimed? && events[i].e.worker == worker
    && id in queues[i].jobs && queues[i].jobs[id].status == Pending
    && id in queues[i + 1].jobs && queues[i + 1].jobs[id].status == InProgress
  }

  /** Nobody settles the job at these steps. */
  predicate Unsettled(events: seq<Timed>, id: int, i: nat, k: nat)
    requires k <= |events|
  {
    forall m | i <= m < k && events[m].e.Settled? :: events[m].e.id != id
  }

  lemma TakenIsStamped(queues: seq<Queue>, events: seq<Timed>, i: nat, worker: nat, id: int)
    requires IsRun(queues, events) && i < |events| && TakesAt(queues, events, i, worker, id)
    ensures queues[i + 1].jobs[id] == queues[i].jobs[id].(
              status := InProgress, lockedBy := Some(worker), lockedAt := Some(events[i].at),
              attempts := queues[i].jobs[id].attempts + 1)
    ensures (worker, id) in queues[i + 1].held
  {
    assert Moves(queues, events, i);
    StepOnRow(queues[i], events[i].at, events[i].e, id);
  }

  /**
   * In every run, a job somebody took at time t and did not settle stays in progress, unchanged and
   * in that worker's hands, as long as nobody reaps later than t + 45 minutes.
   */
  lemma {:induction false} WorkerKeepsItsJob(
    queues: seq<Queue>, events: seq<Timed>, i: nat, k: nat, worker: nat, id: int
  )
    requires IsRun(queues, events) && i < k <= |events| && TakesAt(queues, events, i, worker, id)
    requires Unsettled(events, id, i + 1, k)
    requires forall m | i < m < k && events[m].e.Reaped? :: events[m].at <= events[i].at + 45 * 60 * SECOND
    ensures id in queues[k].jobs && queues[k].jobs[id] == queues[i + 1].jobs[id]
    ensures queues[k].jobs[id].status == InProgress && (worker, id) in queues[k].held
    decreases k
  {
    TakenIsStamped(queues, events, i, worker, id);
    if k > i + 1 {
      WorkerKeepsItsJob(queues, events, i, k - 1, worker, id);
      var q, t := queues[k - 1], events[k - 1];
      assert Moves(queues, events, k - 1);
      StepOnRow(q, t.at, t.e, id);
      if Claims(q, t.at, t.e, id) {
        ChosenAreDue(q.jobs, t.e.limit, t.at, id);
      }
    }
  }

  /**
   * And the first reap later than that returns it: pending and due at once, with its attempts as
   * they were, in nobody's hands.
   */
  lemma LateReapReturnsTheJob(queues: seq<Queue>, events: seq<Timed>, i: nat, k: nat, worker: nat, id: int)
    requires IsRun(queues, events) && i < k < |events| && TakesAt(queues, events, i, worker, id)
    requires Unsettled(events, id, i + 1, k) && events[k].e.Reaped?
    requires events[k].at > events[i].at + 45 * 60 * SECOND
    requires forall m | i < m < k && events[m].e.Reaped? :: events[m].at <= events[i].at + 45 * 60 * SECOND
    ensures id in queues[k + 1].jobs
    ensures queues[k + 1].jobs[id] == queues[i + 1].jobs[id].(
              status := Pending, nextRunAt := events[k].at, lockedBy := None, lockedAt := None)
    ensures forall w: nat :: (w, id) !in queues[k + 1].held
  {
    TakenIsStamped(queues, events, i, worker, id);
    WorkerKeepsItsJob(queues, events, i, k, worker, id);
    assert Moves(queues, events, k);
    StepOnRow(queues[k], events[k].at, events[k].e, id);
    LockAlwaysTells(queues, events, k + 1, id);
  }
  // --------------------------------------------------------------- who takes what, and when

  function Waiting(jobs: Jobs, now: Time): set<int> {
    set id | id in jobs && jobs[id].status == Pending && jobs[id].nextRunAt <= now
  }

  lemma WaitingAreDue(jobs: Jobs, now: Time)
    ensures Waiting(jobs, now) == Due(jobs, now)
  {
    forall id ensures id in Waiting(jobs, now) <==> id in Due(jobs, now) {
    }
  }

  /**
   * A claim takes a job exactly when it is pending, its time has come, and fewer than the claim's
   * limit of such jobs come before it.
   */
  lemma ClaimTakesTheWaiting(queues: seq<Queue>, events: seq<Timed>, i: nat, worker: nat, id: int)
    requires IsRun(queues, events) && i < |events| && events[i].e.Claimed? && events[i].e.worker == worker
    ensures TakesAt(queues, events, i, worker, id)
       <==> var waiting := Waiting(queues[i].jobs, events[i].at);
            id in waiting && |Below(waiting, id)| < events[i].e.limit
  {
    var q, t := queues[i], events[i];
    assert Moves(queues, events, i);
    WaitingAreDue(q.jobs, t.at);
    LowestByRank(Due(q.jobs, t.at), t.e.limit, id);
    if id in q.jobs {
      StepOnRow(q, t.at, t.e, id);
    }
  }

  /** A job nobody settled has no completion time; a closed one carries that of the settlement that closed it. */
  predicate StampTells(events: seq<Timed>, k: nat, id: int, row: JobRow)
    requires k <= |events|
  {
    && (!Closed(Some(row)) ==> row.completedAt.None?)
    && (Closed(Some(row)) ==>
          exists j | 0 <= j < k :: Settles(events[j].e, id) && row.completedAt == Some(events[j].at))
  }

  lemma SettlementStamps(events: seq<Timed>, k: nat, r: JobRow, id: int)
    requires k < |events| && events[k].e.Settled? && events[k].e.id == id && r.completedAt.None?
    ensures StampTells(events, k + 1, id, SettledRow(r, events[k].e.verdict, events[k].at, events[k].e.jitter))
  {
    var after := SettledRow(r, events[k].e.verdict, events[k].at, events[k].e.jitter);
    if Closed(Some(after)) {
      assert Settles(events[k].e, id) && after.completedAt == Some(events[k].at);
    }
  }

  lemma {:induction false} CompletionIsStamped(queues: seq<Queue>, events: seq<Timed>, k: nat, id: int)
    requires IsRun(queues, events) && k <= |events| && id in queues[k].jobs
    ensures StampTells(events, k, id, queues[k].jobs[id])
  {
    if k > 0 {
      var q, t := queues[k - 1], events[k - 1];
      assert Moves(queues, events, k - 1);
      if id in q.jobs {
        CompletionIsStamped(queues, events, k - 1, id);
        LockAlwaysTells(queues, events, k - 1, id);
        StepOnRow(q, t.at, t.e, id);
        if Claims(q, t.at, t.e, id) {
          ChosenAreDue(q.jobs, t.e.limit, t.at, id);
        } else if t.e.Settled? && t.e.id == id {
          SettlementStamps(events, k - 1, q.jobs[id], id);
        }
      }
    }
  }

  /** The worker that took the job at zero stalls; after 45 minutes and a moment another one takes it over. */
  function TakenOver(): seq<Timed> {
    var late := 45 * MINUTE + 1;
    [Timed(0, Enqueued(7, "player_sync", 0)), Timed(0, Claimed(1, 8)), Timed(late, Reaped), Timed(late, Claimed(2, 8)),
     Timed(late, Settled(2, 7, Succeeded, 0))]
  }

  function Played(events: seq<Timed>, k: nat): Option<Queue>
    requires k <= |events|
  {
    if k == 0 then Some(Queue(map[], {}))
    else
      var q := Played(events, k - 1);
      if q.Some? && Enabled(q.value, events[k - 1].e)
      then Some(Next(q.value, events[k - 1].at, events[k - 1].e)) else None
  }

  lemma RunGoesOn(queues: seq<Queue>, events: seq<Timed>, t: Timed)
    requires IsRun(queues, events) && Enabled(queues[|events|], t.e)
    ensures IsRun(queues + [Next(queues[|events|], t.at, t.e)], events + [t])
  {
    var qs, es := queues + [Next(queues[|events|], t.at, t.e)], events + [t];
    forall i | 0 <= i < |es| ensures Moves(qs, es, i) {
      if i < |events| {
        assert Moves(queues, events, i);
      }
    }
  }

  lemma {:induction false} PlayedIsRun(events: seq<Timed>, k: nat) returns (queues: seq<Queue>)
    requires k <= |events| && Played(events, k).Some?
    ensures IsRun(queues, events[..k]) && queues[k] == Played(events, k).value
  {
    if k == 0 {
      queues := [Queue(map[], {})];
    } else {
      var before := PlayedIsRun(events, k - 1);
      RunGoesOn(before, events[..k - 1], events[k - 1]);
      assert events[..k] == events[..k - 1] + [events[k - 1]];
      queues := before + [Played(events, k).value];
    }
  }

  lemma OnlyJob(jobs: Jobs, limit: nat, now: Time, id: int)
    requires jobs.Keys == {id} && IsDue(jobs[id], now) && limit >= 1
    ensures Chosen(jobs, limit, now) == {id}
  {
    assert Due(jobs, now) == {id};
    forall x ensures x in Chosen(jobs, limit, now) <==> x == id {
      LowestByRank({id}, limit, x);
      assert Below({id}, id) == {};
    }
  }

  lemma TakenOverPlays()
    ensures var q := Played(TakenOver(), 3);
            && q.Some? && q.value.held == {} && q.value.jobs.Keys == {7}
            && q.value.jobs[7] == JobRow("player_sync", Pending, 1, 8, 45 * MINUTE + 1, None, None, None)
  {
    var es := TakenOver();
    var q1 := Next(Queue(map[], {}), es[0].at, es[0].e);
    assert Played(es, 1) == Some(q1);
    OnlyJob(q1.jobs, 8, 0, 7);
    var q2 := Next(q1, es[1].at, es[1].e);
    assert Played(es, 2) == Some(q2);
    var q3 := Next(q2, es[2].at, es[2].e);
    assert Played(es, 3) == Some(q3);
  }

  lemma TakenOverEnds()
    ensures var q := Played(TakenOver(), 5);
            q.Some? && 7 in q.value.jobs && q.value.jobs[7].status == Completed && q.value.jobs[7].attempts == 2
  {
    var es := TakenOver();
    TakenOverPlays();
    var q3 := Played(es, 3).value;
    OnlyJob(q3.jobs, 8, es[3].at, 7);
    var q4 := Next(q3, es[3].at, es[3].e);
    assert Played(es, 4) == Some(q4);
    assert (2, 7) in q4.held;
    var q5 := Next(q4, es[4].at, es[4].e);
    assert Played(es, 5) == Some(q5);
  }

  /** Such a run exists: the job is done in the end, by the second worker, on its second attempt. */
  lemma StalledJobIsTakenOver()
    ensures exists queues: seq<Queue> ::
              && IsRun(queues, TakenOver()) && 7 in queues[5].jobs
              && queues[5].jobs[7].status == Completed && queues[5].jobs[7].attempts == 2
  {
    TakenOverEnds();
    var queues := PlayedIsRun(TakenOver(), 5);
    assert TakenOver()[..5] == TakenOver();
  }
}

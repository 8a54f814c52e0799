/**
 * The durable job queue: the `jobs` table, the worker's handling of a claimed batch, and runs in
 * which any number of workers claim, settle and reap, provided a reaped worker never writes again.
 */
module JobQueue {
  import opened Wrappers
  import opened Facts
  import opened Ascending

  const STUCK_LOCK: Time := 45 * MINUTE
  const MILLISECOND: Time := 1000

  datatype JobKind = PlayerSync | ConfigSync | ChannelSync | ChannelRefresh | FollowProbe {
    static function FromDb(s: string): Option<JobKind> {
      if s == "player_sync" then Some(PlayerSync)
      else if s == "config_sync" then Some(ConfigSync)
      else if s == "channel_sync" then Some(ChannelSync)
      else if s == "channel_refresh" then Some(ChannelRefresh)
      else if s == "follow_probe" then Some(FollowProbe)
      else None
    }
  }

  datatype Status = Pending | InProgress | Completed | Dead

  datatype JobRow = JobRow(
    kind: string,
    status: Status,
    attempts: nat,
    maxAttempts: nat,
    nextRunAt: Time,
    lockedBy: Option<nat>,
    lockedAt: Option<Time>,
    completedAt: Option<Time>
  )

  type Jobs = map<int, JobRow>

  // ---------------------------------------------------------------------- errors and verdicts

  datatype AppError = RoleLinkNotFound | RoleLinkDisabled | RemovalHeld | UserLimitReached(limit: nat) | OtherError

  datatype JobError = Terminal | Retry

  /** `JobError::from`. */
  function JobErrorOf(e: AppError): JobError {
    if e.RoleLinkNotFound? || e.UserLimitReached? then Terminal else Retry
  }

  datatype Verdict = Succeeded | Failed(error: JobError) | ShuttingDown

  /** `dispatch`: an unknown kind or a payload without its key is terminal, else the work decides. */
  function Dispatched(kind: string, payloadComplete: bool, work: Result<(), AppError>): Verdict {
    if JobKind.FromDb(kind).None? || !payloadComplete then Failed(Terminal)
    else if work.Ok? then Succeeded
    else Failed(JobErrorOf(work.error))
  }

  function Pow2(n: nat): (p: nat)
    ensures p >= 1
  {
    if n == 0 then 1 else 2 * Pow2(n - 1)
  }

  function Clamp(attempt: int): nat {
    if attempt < 1 then 1 else if attempt > 8 then 8 else attempt
  }

  /** The whole seconds of the delay. */
  function BaseDelay(attempt: int): Time {
    Pow2(Clamp(attempt)) * SECOND
  }

  type Jitter = j: int | 0 <= j < 1000

  function Backoff(attempt: int, jitter: Jitter): Time {
    BaseDelay(attempt) + jitter * MILLISECOND
  }

  /** Each further attempt waits longer, whatever the jitters, up to the cap at the eighth. */
  lemma BackoffGrows(attempt: int, a: Jitter, b: Jitter)
    requires 1 <= attempt < 8
    ensures Backoff(attempt, a) < Backoff(attempt + 1, b)
    ensures 2 * SECOND <= Backoff(attempt, a) <= Backoff(8, b) < 257 * SECOND
  {
    assert Pow2(1) == 2 && Pow2(2) == 4 && Pow2(3) == 8 && Pow2(4) == 16;
    assert Pow2(5) == 32 && Pow2(6) == 64 && Pow2(7) == 128 && Pow2(8) == 256;
  }

  /** Attempts 1 to 8 wait 2 s, 4 s and so on up to 256 s, later ones 256 s, each with less than a second of jitter. */
  lemma BackoffDoubles(attempt: int, jitter: Jitter)
    ensures BaseDelay(1) == 2_000_000 && BaseDelay(8) == 256_000_000
    ensures attempt < 1 ==> BaseDelay(attempt) == BaseDelay(1)
    ensures 1 <= attempt < 8 ==> BaseDelay(attempt + 1) == 2 * BaseDelay(attempt)
    ensures attempt > 8 ==> BaseDelay(attempt) == BaseDelay(8)
    ensures Backoff(attempt, jitter) == BaseDelay(attempt) + 1000 * jitter < BaseDelay(attempt) + SECOND
  {
    assert Pow2(1) == 2 && Pow2(2) == 4 && Pow2(3) == 8 && Pow2(4) == 16;
    assert Pow2(5) == 32 && Pow2(6) == 64 && Pow2(7) == 128 && Pow2(8) == 256;
  }

  // ------------------------------------------------------------------------- one row's moves

  function Unlocked(r: JobRow): JobRow {
    r.(lockedBy := None, lockedAt := None)
  }

  function ClaimedRow(r: JobRow, worker: nat, now: Time): JobRow {
    r.(status := InProgress, lockedBy := Some(worker), lockedAt := Some(now), attempts := r.attempts + 1)
  }

  function ClosedRow(r: JobRow, status: Status, now: Time): JobRow {
    Unlocked(r).(status := status, completedAt := Some(now))
  }

  function RetriedRow(r: JobRow, attempts: int, now: Time, jitter: Jitter): JobRow {
    Unlocked(r).(status := Pending, nextRunAt := now + Backoff(attempts, jitter))
  }

  /** What becomes of a claimed job. */
  function SettledRow(r: JobRow, verdict: Verdict, now: Time, jitter: Jitter): JobRow {
    match verdict
    case ShuttingDown => RetriedRow(r, r.attempts, now, jitter)
    case Succeeded => ClosedRow(r, Completed, now)
    case Failed(error) =>
      if error == Terminal || r.attempts >= r.maxAttempts then ClosedRow(r, Dead, now)
      else RetriedRow(r, r.attempts, now, jitter)
  }

  /** The worker knows five kinds of job. */
  lemma OnlyFiveKindsAreKnown(s: string)
    ensures JobKind.FromDb("player_sync") == Some(PlayerSync) && JobKind.FromDb("config_sync") == Some(ConfigSync)
    ensures JobKind.FromDb("channel_sync") == Some(ChannelSync)
    ensures JobKind.FromDb("channel_refresh") == Some(ChannelRefresh)
    ensures JobKind.FromDb("follow_probe") == Some(FollowProbe)
    ensures JobKind.FromDb(s).Some? ==>
              || s == "player_sync" || s == "config_sync" || s == "channel_sync"
              || s == "channel_refresh" || s == "follow_probe"
  {
  }

  /** A job met by the shutdown is released, however often it was tried: pending, unlocked, due after a backoff. */
  lemma ShutdownReleasesTheJob(r: JobRow, now: Time, jitter: Jitter)
    ensures var after := SettledRow(r, ShuttingDown, now, jitter);
            && after == r.(status := Pending, lockedBy := None, lockedAt := None, nextRunAt := after.nextRunAt)
            && now + 2 * SECOND <= after.nextRunAt < now + 257 * SECOND
  {
    BackoffDoubles(r.attempts, jitter);
    assert Pow2(1) == 2 && Pow2(2) == 4 && Pow2(3) == 8 && Pow2(4) == 16;
    assert Pow2(5) == 32 && Pow2(6) == 64 && Pow2(7) == 128 && Pow2(8) == 256;
  }

  /**
   * A dispatched job is retried exactly for a transient error with attempts left, completed exactly
   * when its work succeeded, and dead otherwise.
   */
  lemma OnlyTransientErrorsAreRetried(
    r: JobRow, payloadComplete: bool, work: Result<(), AppError>, now: Time, jitter: Jitter
  )
    ensures var known := JobKind.FromDb(r.kind).Some? && payloadComplete;
            var after := SettledRow(r, Dispatched(r.kind, payloadComplete, work), now, jitter);
            && (after.status == Completed <==> known && work.Ok?)
            && (after.status == Pending
                <==> known && work.Err? && !work.error.RoleLinkNotFound? && !work.error.UserLimitReached?
                     && r.attempts < r.maxAttempts)
            && after.status != InProgress && after.lockedBy.None? && after.lockedAt.None?
  {
  }

  predicate Stuck(r: JobRow, now: Time) {
    r.status == InProgress && r.lockedAt.Some? && r.lockedAt.value < now - STUCK_LOCK
  }

  function ReapedRow(r: JobRow, now: Time): JobRow {
    if Stuck(r, now) then Unlocked(r).(status := Pending, nextRunAt := now) else r
  }

  // ------------------------------------------------------------------------ the whole table

  predicate IsDue(r: JobRow, now: Time) {
    r.status == Pending && r.nextRunAt <= now
  }

  function Due(jobs: Jobs, now: Time): set<int> {
    set id | id in jobs && IsDue(jobs[id], now)
  }

  function Chosen(jobs: Jobs, limit: nat, now: Time): set<int> {
    Members(Lowest(Due(jobs, now), limit))
  }

  function AfterClaim(jobs: Jobs, worker: nat, limit: nat, now: Time): Jobs {
    map id | id in jobs :: if id in Chosen(jobs, limit, now) then ClaimedRow(jobs[id], worker, now) else jobs[id]
  }

  function AfterReap(jobs: Jobs, now: Time): Jobs {
    map id | id in jobs :: ReapedRow(jobs[id], now)
  }

  /** A claim takes due jobs only, as many as there are up to the limit, smallest ids first. */
  lemma ClaimTakesTheOldest(jobs: Jobs, limit: nat, now: Time)
    ensures Chosen(jobs, limit, now) <= Due(jobs, now)
    ensures |Lowest(Due(jobs, now), limit)| == AtMost(limit, |Due(jobs, now)|)
    ensures forall x, y | x in Due(jobs, now) && y in Chosen(jobs, limit, now) && x <= y ::
              x in Chosen(jobs, limit, now)
  {
    LowestTakesTheSmallest(Due(jobs, now), limit);
  }

  lemma ClaimedAreStored(jobs: Jobs, limit: nat, now: Time, i: nat)
    requires i < |Lowest(Due(jobs, now), limit)|
    ensures Lowest(Due(jobs, now), limit)[i] in jobs && Lowest(Due(jobs, now), limit)[i] in Chosen(jobs, limit, now)
  {
    ClaimTakesTheOldest(jobs, limit, now);
    assert Lowest(Due(jobs, now), limit)[i] in Lowest(Due(jobs, now), limit);
  }

  /** A claimed job as handed to the worker. */
  datatype Job = Job(id: int, kind: string, attempts: nat, maxAttempts: nat)

  function JobOf(jobs: Jobs, id: int): Job
    requires id in jobs
  {
    Job(id, jobs[id].kind, jobs[id].attempts, jobs[id].maxAttempts)
  }

  /** The updated rows as jobs, in the order of the ids. */
  function Returned(jobs: Jobs, ids: seq<int>): seq<Job> {
    if ids == [] then []
    else (if ids[0] in jobs then [JobOf(jobs, ids[0])] else []) + Returned(jobs, ids[1..])
  }

  lemma {:induction false} ReturnedListsAll(jobs: Jobs, ids: seq<int>)
    requires forall i | 0 <= i < |ids| :: ids[i] in jobs
    ensures |Returned(jobs, ids)| == |ids|
    ensures forall i | 0 <= i < |ids| :: Returned(jobs, ids)[i] == JobOf(jobs, ids[i])
  {
    if ids != [] {
      ReturnedListsAll(jobs, ids[1..]);
    }
  }

  predicate IsHanded(claimed: seq<Job>, id: int) {
    exists i | 0 <= i < |claimed| :: claimed[i].id == id
  }

  /** As many due jobs as there are up to the limit, smallest ids first and in order. */
  ghost predicate AreTheOldest(before: Jobs, claimed: seq<Job>, limit: nat, now: Time) {
    && |claimed| == AtMost(limit, |Due(before, now)|)
    && (forall i | 0 <= i < |claimed| :: claimed[i].id in Due(before, now))
    && (forall i, j | 0 <= i < j < |claimed| :: claimed[i].id < claimed[j].id)
    && (forall id, i | id in Due(before, now) && 0 <= i < |claimed| && id <= claimed[i].id :: IsHanded(claimed, id))
  }

  /** The job is handed out as stored: locked by the worker and counted once more. */
  predicate IsLocked(before: Jobs, after: Jobs, job: Job, worker: nat, now: Time) {
    && job.id in before && job.id in after && job == JobOf(after, job.id)
    && after[job.id] == before[job.id].(
         status := InProgress, lockedBy := Some(worker), lockedAt := Some(now),
         attempts := before[job.id].attempts + 1)
  }

  /** Every job handed out is locked; every other row is as it was. */
  ghost predicate AreLocked(before: Jobs, after: Jobs, claimed: seq<Job>, worker: nat, now: Time) {
    && (forall i | 0 <= i < |claimed| :: IsLocked(before, after, claimed[i], worker, now))
    && after.Keys == before.Keys && forall id | id in before && !IsHanded(claimed, id) :: after[id] == before[id]
  }

  lemma ClaimedJobs(jobs: Jobs, worker: nat, limit: nat, now: Time)
    ensures var after, ids := AfterClaim(jobs, worker, limit, now), Lowest(Due(jobs, now), limit);
            var claimed := Returned(after, ids);
            && |claimed| == |ids|
            && forall i | 0 <= i < |ids| ::
                 && ids[i] in Chosen(jobs, limit, now) && ids[i] in jobs && ids[i] in after
                 && claimed[i] == JobOf(after, ids[i])
  {
    var after, ids := AfterClaim(jobs, worker, limit, now), Lowest(Due(jobs, now), limit);
    forall i | 0 <= i < |ids| ensures ids[i] in jobs && ids[i] in Chosen(jobs, limit, now) {
      ClaimedAreStored(jobs, limit, now, i);
    }
    ReturnedListsAll(after, ids);
  }

  lemma ChosenAreHanded(jobs: Jobs, worker: nat, limit: nat, now: Time, id: int)
    ensures IsHanded(Returned(AfterClaim(jobs, worker, limit, now), Lowest(Due(jobs, now), limit)), id)
       <==> id in Chosen(jobs, limit, now)
  {
    var ids := Lowest(Due(jobs, now), limit);
    var claimed := Returned(AfterClaim(jobs, worker, limit, now), ids);
    ClaimedJobs(jobs, worker, limit, now);
    if id in Chosen(jobs, limit, now) {
      var i :| 0 <= i < |ids| && ids[i] == id;
      assert claimed[i].id == id;
    }
  }

  lemma HandedAreTheOldest(jobs: Jobs, worker: nat, limit: nat, now: Time)
    ensures AreTheOldest(
              jobs, Returned(AfterClaim(jobs, worker, limit, now), Lowest(Due(jobs, now), limit)), limit, now)
  {
    var ids := Lowest(Due(jobs, now), limit);
    var claimed := Returned(AfterClaim(jobs, worker, limit, now), ids);
    ClaimedJobs(jobs, worker, limit, now);
    ClaimTakesTheOldest(jobs, limit, now);
    forall id, i | id in Due(jobs, now) && 0 <= i < |claimed| && id <= claimed[i].id ensures IsHanded(claimed, id) {
      ChosenAreHanded(jobs, worker, limit, now, id);
    }
  }

  lemma OthersStay(jobs: Jobs, worker: nat, limit: nat, now: Time, id: int)
    requires id in jobs && id !in Chosen(jobs, limit, now)
    ensures AfterClaim(jobs, worker, limit, now)[id] == jobs[id]
  {
  }

  lemma HandedIsLocked(jobs: Jobs, worker: nat, limit: nat, now: Time, i: nat)
    requires i < |Lowest(Due(jobs, now), limit)|
    ensures var after := AfterClaim(jobs, worker, limit, now);
            var claimed := Returned(after, Lowest(Due(jobs, now), limit));
            i < |claimed| && IsLocked(jobs, after, claimed[i], worker, now)
  {
    ClaimedJobs(jobs, worker, limit, now);
  }

  lemma HandedAreLocked(jobs: Jobs, worker: nat, limit: nat, now: Time)
    ensures var after := AfterClaim(jobs, worker, limit, now);
            AreLocked(jobs, after, Returned(after, Lowest(Due(jobs, now), limit)), worker, now)
  {
    var after, ids := AfterClaim(jobs, worker, limit, now), Lowest(Due(jobs, now), limit);
    var claimed := Returned(after, ids);
    ClaimedJobs(jobs, worker, limit, now);
    forall i | 0 <= i < |claimed| ensures IsLocked(jobs, after, claimed[i], worker, now) {
      HandedIsLocked(jobs, worker, limit, now, i);
    }
    forall id | id in jobs && !IsHanded(claimed, id) ensures after[id] == jobs[id] {
      ChosenAreHanded(jobs, worker, limit, now, id);
      OthersStay(jobs, worker, limit, now, id);
    }
  }

  /** What one claim statement does and returns. */
  lemma ClaimHandsOutTheOldest(jobs: Jobs, worker: nat, limit: nat, now: Time)
    ensures var after := AfterClaim(jobs, worker, limit, now);
            var claimed := Returned(after, Lowest(Due(jobs, now), limit));
            AreTheOldest(jobs, claimed, limit, now) && AreLocked(jobs, after, claimed, worker, now)
  {
    HandedAreTheOldest(jobs, worker, limit, now);
    HandedAreLocked(jobs, worker, limit, now);
  }

  /** What one job of a batch met: its dispatch's verdict, the time, the jitter, whether the settling UPDATE worked. */
  datatype Handling = Handling(dispatched: Verdict, at: Time, jitter: Jitter, stored: bool)

  /** From the `stop`-th job on the shutdown signal is up and nothing is dispatched. */
  function VerdictOf(handled: seq<Handling>, stop: nat, k: nat): Verdict
    requires k < |handled|
  {
    if k >= stop then ShuttingDown else handled[k].dispatched
  }

  /** A settlement that could not be stored leaves the row locked, for a reap to return. */
  function Worked(r: JobRow, handled: seq<Handling>, stop: nat, k: nat): JobRow
    requires k < |handled|
  {
    if !handled[k].stored then r
    else SettledRow(r, VerdictOf(handled, stop, k), handled[k].at, handled[k].jitter)
  }

  /** What becomes of each job of a batch: from the signal on a release only; what was not stored stays locked. */
  lemma WorkedTells(r: JobRow, handled: seq<Handling>, stop: nat, k: nat)
    requires k < |handled| && r.status == InProgress
    ensures var after, h := Worked(r, handled, stop, k), handled[k];
            && (!h.stored ==> after == r)
            && (h.stored && k >= stop ==> after.status == Pending && after.attempts == r.attempts)
            && (h.stored && k < stop && h.dispatched == Succeeded ==> after.status == Completed)
            && (h.stored && k < stop && h.dispatched == Failed(Terminal) ==> after.status == Dead)
            && (h.stored && k < stop && h.dispatched == Failed(Retry) ==>
                  after.status == if r.attempts < r.maxAttempts then Pending else Dead)
            && (h.stored ==> after.lockedBy.None? && after.lockedAt.None?)
  {
  }

  class JobTable {
    var jobs: Jobs

    constructor ()
      ensures jobs == map[]
    {
      jobs := map[];
    }

    /** `enqueue`: a new pending row, and whether the workers are notified at once. */
    method Enqueue(id: int, kind: string, now: Time, delaySecs: nat) returns (notified: bool)
      requires id !in jobs
      modifies this
      ensures jobs == old(jobs)[id := JobRow(kind, Pending, 0, 8, now + delaySecs * SECOND, None, None, None)]
      ensures notified <==> id in Due(jobs, now)
    {
      var row := JobRow(kind, Pending, 0, 8, now + delaySecs * SECOND, None, None, None);
      jobs := jobs[id := row];
      notified := row.nextRunAt <= now;
    }

    /**
     * `claim_batch`, one UPDATE … RETURNING: the worker is handed the smallest due ids up to the
     * limit, each locked by it and counted once more; no other row changes.
     */
    method ClaimBatch(worker: nat, limit: nat, now: Time) returns (claimed: seq<Job>)
      modifies this
      ensures jobs == AfterClaim(old(jobs), worker, limit, now)
      ensures AreTheOldest(old(jobs), claimed, limit, now)
      ensures AreLocked(old(jobs), jobs, claimed, worker, now)
    {
      var ids := Lowest(Due(jobs, now), limit);
      ClaimHandsOutTheOldest(jobs, worker, limit, now);
      jobs := AfterClaim(jobs, worker, limit, now);
      claimed := Returned(jobs, ids);
    }

    method Complete(id: int, now: Time)
      modifies this
      ensures jobs == if id in old(jobs) then old(jobs)[id := ClosedRow(old(jobs)[id], Completed, now)] else old(jobs)
    {
      if id in jobs {
        var r := jobs[id];
        jobs := jobs[id := r.(status := Completed, completedAt := Some(now), lockedBy := None, lockedAt := None)];
      }
    }

    method FailDead(id: int, now: Time)
      modifies this
      ensures jobs == if id in old(jobs) then old(jobs)[id := ClosedRow(old(jobs)[id], Dead, now)] else old(jobs)
    {
      if id in jobs {
        var r := jobs[id];
        jobs := jobs[id := r.(status := Dead, completedAt := Some(now), lockedBy := None, lockedAt := None)];
      }
    }

    method FailRetry(job: Job, now: Time, jitter: Jitter)
      modifies this
      ensures jobs == if job.id in old(jobs)
                      then old(jobs)[job.id := RetriedRow(old(jobs)[job.id], job.attempts, now, jitter)]
                      else old(jobs)
    {
      var delay := Backoff(job.attempts, jitter);
      if job.id in jobs {
        var r := jobs[job.id];
        jobs := jobs[job.id := r.(status := Pending, nextRunAt := now + delay, lockedBy := None, lockedAt := None)];
      }
    }

    /** `reap_stuck`; how many it reaped. */
    method ReapStuck(now: Time) returns (n: nat)
      modifies this
      ensures jobs == AfterReap(old(jobs), now)
      ensures n == |set id | id in old(jobs) && Stuck(old(jobs)[id], now)|
    {
      n := |set id | id in jobs && Stuck(jobs[id], now)|;
      jobs := map id | id in jobs ::
        if Stuck(jobs[id], now)
        then jobs[id].(status := Pending, nextRunAt := now, lockedBy := None, lockedAt := None)
        else jobs[id];
      assert forall id | id in jobs :: jobs[id] == ReapedRow(old(jobs)[id], now);
      assert jobs == AfterReap(old(jobs), now);
    }

    /**
     * The dispatch loop over one claimed batch: each job is settled by what it met, from the first
     * shutdown signal on all the rest are released, and no other row is written.
     */
    method WorkBatch(claimed: seq<Job>, handled: seq<Handling>, stop: nat)
      requires |handled| == |claimed|
      requires forall i, k | 0 <= i < k < |claimed| :: claimed[i].id != claimed[k].id
      requires forall i | 0 <= i < |claimed| :: claimed[i].id in jobs && claimed[i] == JobOf(jobs, claimed[i].id)
      modifies this
      ensures jobs.Keys == old(jobs).Keys
      ensures forall i | 0 <= i < |claimed| ::
                jobs[claimed[i].id] == Worked(old(jobs)[claimed[i].id], handled, stop, i)
      ensures forall id | id in old(jobs) && forall i | 0 <= i < |claimed| :: claimed[i].id != id ::
                jobs[id] == old(jobs)[id]
    {
      for k := 0 to |claimed|
        invariant jobs.Keys == old(jobs).Keys
        invariant forall i | 0 <= i < k ::
                    jobs[claimed[i].id] == Worked(old(jobs)[claimed[i].id], handled, stop, i)
        invariant forall id | id in old(jobs) && forall i | 0 <= i < k :: claimed[i].id != id ::
                    jobs[id] == old(jobs)[id]
      {
        var job, h := claimed[k], handled[k];
        if !h.stored {
          continue;
        }
        if k >= stop {
          FailRetry(job, h.at, h.jitter);
        } else {
          match h.dispatched {
            case Succeeded => Complete(job.id, h.at);
            case ShuttingDown => FailRetry(job, h.at, h.jitter);
            case Failed(error) =>
              if error == Terminal {
                FailDead(job.id, h.at);
              } else if job.attempts >= job.maxAttempts {
                FailDead(job.id, h.at);
              } else {
                FailRetry(job, h.at, h.jitter);
              }
          }
        }
      }
    }
  }
}

/**
 * Webhook idempotency: a delivery is verified inside a freshness window, claims its message id by
 * inserting a row, and is applied; rows are collected after a day. Deliveries of the same message
 * interleave step by step with each other and with collections.
 */
module WebhookDedupe {
  import opened Wrappers
  import opened Facts

  const WINDOW_MINUTES: int := 10
  const KEEP_ROWS: Time := 24 * HOUR

  /** `Duration::num_minutes`: rounded toward zero. */
  function TruncatedMinutes(d: Time): int {
    if d >= 0 then d / MINUTE else -((-d) / MINUTE)
  }

  /** The freshness test of `verify_webhook_signature`. */
  predicate IsFresh(stamp: Time, now: Time) {
    var age := TruncatedMinutes(now - stamp);
    -WINDOW_MINUTES <= age <= WINDOW_MINUTES
  }

  /** Truncation makes the ten-minute window eleven minutes wide, ends excluded. */
  lemma FreshMeansElevenMinutes(stamp: Time, now: Time)
    ensures IsFresh(stamp, now) <==> stamp - 11 * MINUTE < now < stamp + 11 * MINUTE
  {
  }

  // --------------------------------------------------------------------------- one handler

  datatype Response =
    | Accepted | DuplicateIgnored
    | MissingHeaders | NoSigningKey | BadSignature | DbError | BadJson | ApplyFailed

  function StatusOf(r: Response): int {
    match r
    case Accepted | DuplicateIgnored => 200
    case MissingHeaders | BadJson => 400
    case BadSignature => 401
    case NoSigningKey | DbError | ApplyFailed => 500
  }

  /** What a request carries: header presence, its stamp, and whether each key's signature check passes. */
  datatype Request = Request(
    id: int, hasHeaders: bool, stamp: Option<Time>, signedByCached: Option<bool>, signedByFresh: Option<bool>,
    json: bool
  )

  predicate Verifies(r: Request, now: Time) {
    && r.stamp.Some? && IsFresh(r.stamp.value, now)
    && (r.signedByCached == Some(true) || r.signedByFresh == Some(true))
  }

  /** The request is complete, there is a key to check it with, and it passes. */
  predicate IsAuthentic(r: Request, now: Time) {
    r.hasHeaders && r.signedByCached.Some? && Verifies(r, now)
  }

  /** The first delivery of its id: it gets to insert its row. */
  predicate IsFirst(r: Request, now: Time, insertWorks: bool, rows: map<int, Time>) {
    IsAuthentic(r, now) && insertWorks && r.id !in rows
  }

  class Deliveries {
    var rows: map<int, Time>
    ghost var applied: multiset<int>

    constructor ()
      ensures rows == map[] && applied == multiset{}
    {
      rows, applied := map[], multiset{};
    }

    /** `kick_webhook`, with the outcomes of its database insert and of `apply_event` as parameters. */
    method KickWebhook(r: Request, now: Time, insertWorks: bool, applyWorks: bool) returns (response: Response)
      modifies this
      ensures response == MissingHeaders <==> !r.hasHeaders
      ensures response == NoSigningKey <==> r.hasHeaders && r.signedByCached.None?
      ensures response == BadSignature <==> r.hasHeaders && r.signedByCached.Some? && !Verifies(r, now)
      ensures response == DbError <==> IsAuthentic(r, now) && !insertWorks
      ensures response == DuplicateIgnored <==> IsAuthentic(r, now) && insertWorks && r.id in old(rows)
      ensures response == BadJson <==> IsFirst(r, now, insertWorks, old(rows)) && !r.json
      ensures response == ApplyFailed <==> IsFirst(r, now, insertWorks, old(rows)) && r.json && !applyWorks
      ensures response == Accepted <==> IsFirst(r, now, insertWorks, old(rows)) && r.json && applyWorks
      ensures applied == old(applied)
                + if IsFirst(r, now, insertWorks, old(rows)) && r.json && applyWorks then multiset{r.id} else multiset{}
      ensures rows == if IsFirst(r, now, insertWorks, old(rows)) && (r.json ==> applyWorks)
                      then old(rows)[r.id := now] else old(rows)
    {
      if !r.hasHeaders {
        return MissingHeaders;
      }
      if r.signedByCached.None? {
        return NoSigningKey;
      }
      var verified := r.stamp.Some? && IsFresh(r.stamp.value, now) && r.signedByCached.value;
      if !verified && r.signedByFresh.Some? {
        verified := r.stamp.Some? && IsFresh(r.stamp.value, now) && r.signedByFresh.value;
      }
      if !verified {
        return BadSignature;
      }
      if !insertWorks {
        return DbError;
      }
      if r.id in rows {
        return DuplicateIgnored;
      }
      rows := rows[r.id := now];
      if !r.json {
        return BadJson;
      }
      if !applyWorks {
        rows := rows - {r.id};
        assert rows == old(rows);
        return ApplyFailed;
      }
      applied := applied + multiset{r.id};
      return Accepted;
    }

    /** The delivery part of `gc`: rows older than a day go. */
    method Collect(now: Time)
      modifies this`rows
      ensures rows == Kept(old(rows), now)
    {
      rows := map id | id in rows && !(rows[id] < now - KEEP_ROWS) :: rows[id];
    }
  }

  /** Kick sends again on a 500, which is answered exactly when the server failed, and gives up on a 4xx. */
  lemma StatusesTellWhoFailed(r: Response)
    ensures StatusOf(r) == 500 <==> r == NoSigningKey || r == DbError || r == ApplyFailed
    ensures StatusOf(r) == 200 <==> r == Accepted || r == DuplicateIgnored
    ensures StatusOf(r) == 401 <==> r == BadSignature
    ensures StatusOf(r) == 400 <==> r == MissingHeaders || r == BadJson
  {
  }

  /**
   * A failed apply loses nothing: sent again while its stamp still verifies, the same request is
   * applied if the apply now works. A body that is not JSON is only ever a duplicate then.
   */
  method SendTwice(d: Deliveries, r: Request, now: Time, later: Time, worksFirst: bool, worksLater: bool)
    returns (first: Response, second: Response)
    requires IsFirst(r, now, true, d.rows) && IsAuthentic(r, later)
    modifies d
    ensures r.json && !worksFirst ==> StatusOf(first) == 500
    ensures r.json && !worksFirst && worksLater ==>
              StatusOf(second) == 200 && d.applied == old(d.applied) + multiset{r.id} && r.id in d.rows
    ensures !r.json || worksFirst ==> second == DuplicateIgnored
    ensures !r.json ==> d.applied == old(d.applied)
    ensures r.json && (worksFirst || worksLater) ==> d.applied == old(d.applied) + multiset{r.id}
  {
    first := d.KickWebhook(r, now, true, worksFirst);
    second := d.KickWebhook(r, later, true, worksLater);
  }

  function Kept(rows: map<int, Time>, now: Time): map<int, Time> {
    map id | id in rows && rows[id] >= now - KEEP_ROWS :: rows[id]
  }

  // ----------------------------------------------------------------------- interleaved handlers

  datatype Pc =
    | Outside
    | Verified(id: int, at: Time)
    | Applying(id: int)

  datatype System = System(rows: map<int, Time>, handlers: map<int, Pc>, applied: multiset<int>)

  datatype Event =
    | Arrive(h: int, id: int)
    | Insert(h: int)
    | Reject(h: int)
    | Apply(h: int, works: bool)
    | Gc

  datatype Timed = Timed(at: Time, e: Event)

  function PcOf(s: System, h: int): Pc {
    if h in s.handlers then s.handlers[h] else Outside
  }

  /**
   * A message's stamp is fixed (it is signed); a handler verifies on arrival and inserts at most
   * `stall` later. `Reject` is a body that is not JSON: the row stays, nothing is applied.
   */
  predicate Enabled(s: System, t: Timed, stamps: map<int, Time>, stall: Time) {
    match t.e
    case Arrive(h, id) => PcOf(s, h).Outside? && id in stamps && IsFresh(stamps[id], t.at)
    case Insert(h) => PcOf(s, h).Verified? && t.at - PcOf(s, h).at <= stall
    case Reject(h) => PcOf(s, h).Applying?
    case Apply(h, _) => PcOf(s, h).Applying?
    case Gc => true
  }

  function Next(s: System, t: Timed, stamps: map<int, Time>, stall: Time): System
    requires Enabled(s, t, stamps, stall)
  {
    match t.e
    case Arrive(h, id) => s.(handlers := s.handlers[h := Verified(id, t.at)])
    case Insert(h) =>
      var id := PcOf(s, h).id;
      if id in s.rows then s.(handlers := s.handlers[h := Outside])
      else s.(rows := s.rows[id := t.at], handlers := s.handlers[h := Applying(id)])
    case Reject(h) => s.(handlers := s.handlers[h := Outside])
    case Apply(h, works) =>
      var id := PcOf(s, h).id;
      var left := s.(handlers := s.handlers[h := Outside]);
      if works then left.(applied := s.applied + multiset{id}) else left.(rows := s.rows - {id})
    case Gc => s.(rows := Kept(s.rows, t.at))
  }

  /** The longest stall that is safe: a day less the window's width, to the microsecond. */
  const SAFE_STALL: Time := 24 * HOUR - 22 * MINUTE + 2

  // ------------------------------------------------------------------------------- invariant

  predicate IsApplying(s: System, h: int, id: int) {
    PcOf(s, h) == Applying(id)
  }

  /** Everyone verified is inside the message's window and not from the future. */
  predicate VerifiedInWindow(s: System, h: int, now: Time, stamps: map<int, Time>) {
    var pc := PcOf(s, h);
    pc.Verified? ==>
      pc.id in stamps && stamps[pc.id] - 11 * MINUTE < pc.at < stamps[pc.id] + 11 * MINUTE && pc.at <= now
  }

  /** No verified delivery can still insert: the first row outlived the window. */
  predicate WindowPassed(id: int, now: Time, stamps: map<int, Time>) {
    id in stamps && now >= stamps[id] - 11 * MINUTE + KEEP_ROWS + 2
  }

  predicate RowInTime(s: System, id: int, stamps: map<int, Time>) {
    id in s.rows ==> id in stamps && s.rows[id] > stamps[id] - 11 * MINUTE
  }

  /** At most one of: a success, a handler applying. And while there is one, the row or the clock bars the door. */
  ghost predicate OneAtMost(s: System, id: int, now: Time, stamps: map<int, Time>) {
    && s.applied[id] <= 1
    && (forall g: int, h: int | IsApplying(s, g, id) && IsApplying(s, h, id) :: g == h)
    && (forall h: int | IsApplying(s, h, id) ::
          s.applied[id] == 0 && (id in s.rows || WindowPassed(id, now, stamps)))
    && (s.applied[id] == 1 ==> id in s.rows || WindowPassed(id, now, stamps))
  }

  ghost predicate Safe(s: System, now: Time, stamps: map<int, Time>) {
    && (forall h: int :: VerifiedInWindow(s, h, now, stamps))
    && (forall id: int :: RowInTime(s, id, stamps))
    && (forall id: int :: OneAtMost(s, id, now, stamps))
  }

  lemma StepKeepsVerified(s: System, now: Time, t: Timed, stamps: map<int, Time>, stall: Time, h: int)
    requires VerifiedInWindow(s, h, now, stamps) && now <= t.at && Enabled(s, t, stamps, stall)
    ensures VerifiedInWindow(Next(s, t, stamps, stall), h, t.at, stamps)
  {
    if t.e.Arrive? {
      FreshMeansElevenMinutes(stamps[t.e.id], t.at);
    }
  }

  lemma StepKeepsRow(s: System, now: Time, t: Timed, stamps: map<int, Time>, stall: Time, id: int)
    requires Safe(s, now, stamps) && now <= t.at && Enabled(s, t, stamps, stall)
    ensures RowInTime(Next(s, t, stamps, stall), id, stamps)
  {
    assert RowInTime(s, id, stamps);
    if t.e.Insert? {
      assert VerifiedInWindow(s, t.e.h, now, stamps);
    }
  }

  /** The crux: whoever inserts again after a collection must have stalled too long. */
  lemma InsertFindsNobody(s: System, now: Time, t: Timed, stamps: map<int, Time>, stall: Time)
    requires Safe(s, now, stamps) && now <= t.at && stall <= SAFE_STALL && Enabled(s, t, stamps, stall)
    requires t.e.Insert? && PcOf(s, t.e.h).id !in s.rows
    ensures s.applied[PcOf(s, t.e.h).id] == 0
    ensures forall h: int :: !IsApplying(s, h, PcOf(s, t.e.h).id)
  {
    var id := PcOf(s, t.e.h).id;
    assert VerifiedInWindow(s, t.e.h, now, stamps) && OneAtMost(s, id, now, stamps);
    assert !WindowPassed(id, t.at, stamps);
  }

  lemma CollectedRowsPassed(s: System, now: Time, t: Timed, stamps: map<int, Time>, id: int)
    requires RowInTime(s, id, stamps) && t.e.Gc?
    requires id in s.rows && id !in Kept(s.rows, t.at)
    ensures WindowPassed(id, t.at, stamps)
  {
  }

  lemma StepKeepsOne(s: System, now: Time, t: Timed, stamps: map<int, Time>, stall: Time, id: int)
    requires Safe(s, now, stamps) && now <= t.at && stall <= SAFE_STALL && Enabled(s, t, stamps, stall)
    ensures OneAtMost(Next(s, t, stamps, stall), id, t.at, stamps)
  {
    var n := Next(s, t, stamps, stall);
    assert OneAtMost(s, id, now, stamps) && RowInTime(s, id, stamps);
    match t.e {
      case Insert(h) =>
        if PcOf(s, h).id !in s.rows {
          InsertFindsNobody(s, now, t, stamps, stall);
        }
        assert forall g: int | g != h :: PcOf(n, g) == PcOf(s, g);
        assert forall g: int | IsApplying(n, g, id) :: g == h || IsApplying(s, g, id);
      case Gc =>
        if id in s.rows && id !in n.rows {
          CollectedRowsPassed(s, now, t, stamps, id);
        }
        assert forall g: int | IsApplying(n, g, id) :: IsApplying(s, g, id);
      case Arrive(h, _) =>
        assert forall g: int | IsApplying(n, g, id) :: IsApplying(s, g, id);
      case Reject(h) =>
        assert forall g: int | IsApplying(n, g, id) :: g != h && IsApplying(s, g, id);
      case Apply(h, _) =>
        assert IsApplying(s, h, PcOf(s, h).id);
        assert forall g: int | IsApplying(n, g, id) :: g != h && IsApplying(s, g, id);
    }
  }

  lemma StepIsSafe(s: System, now: Time, t: Timed, stamps: map<int, Time>, stall: Time)
    requires Safe(s, now, stamps) && now <= t.at && stall <= SAFE_STALL && Enabled(s, t, stamps, stall)
    ensures Safe(Next(s, t, stamps, stall), t.at, stamps)
  {
    forall h: int ensures VerifiedInWindow(Next(s, t, stamps, stall), h, t.at, stamps) {
      StepKeepsVerified(s, now, t, stamps, stall, h);
    }
    forall id: int ensures RowInTime(Next(s, t, stamps, stall), id, stamps) {
      StepKeepsRow(s, now, t, stamps, stall, id);
    }
    forall id: int ensures OneAtMost(Next(s, t, stamps, stall), id, t.at, stamps) {
      StepKeepsOne(s, now, t, stamps, stall, id);
    }
  }

  // ------------------------------------------------------------------------------------ runs

  const EMPTY: System := System(map[], map[], multiset{})

  predicate Moves(states: seq<System>, events: seq<Timed>, stamps: map<int, Time>, stall: Time, i: nat)
    requires i < |events| < |states|
  {
    Enabled(states[i], events[i], stamps, stall) && states[i + 1] == Next(states[i], events[i], stamps, stall)
  }

  predicate ClockOrdered(events: seq<Timed>) {
    forall i | 0 < i < |events| :: events[i - 1].at <= events[i].at
  }

  /** A run from the empty table, clocks never going back. */
  predicate IsRun(states: seq<System>, events: seq<Timed>, stamps: map<int, Time>, stall: Time) {
    && |states| == |events| + 1
    && states[0] == EMPTY
    && (forall i | 0 <= i < |events| :: Moves(states, events, stamps, stall, i))
    && ClockOrdered(events)
  }

  lemma {:induction false} RunIsSafe(
    states: seq<System>, events: seq<Timed>, stamps: map<int, Time>, stall: Time, k: nat
  )
    requires IsRun(states, events, stamps, stall) && stall <= SAFE_STALL && 0 < k <= |events|
    ensures Safe(states[k], events[k - 1].at, stamps)
  {
    assert Moves(states, events, stamps, stall, k - 1);
    if k == 1 {
      assert Safe(EMPTY, events[0].at, stamps);
      StepIsSafe(EMPTY, events[0].at, events[0], stamps, stall);
    } else {
      RunIsSafe(states, events, stamps, stall, k - 1);
      StepIsSafe(states[k - 1], events[k - 2].at, events[k - 1], stamps, stall);
    }
  }

  /** A message has at most one successful apply in every run whose stalls are safe. */
  lemma AppliedAtMostOnce(states: seq<System>, events: seq<Timed>, stamps: map<int, Time>, stall: Time, k: nat, id: int)
    requires IsRun(states, events, stamps, stall) && stall <= SAFE_STALL && k <= |events|
    ensures states[k].applied[id] <= 1
  {
    if k > 0 {
      RunIsSafe(states, events, stamps, stall, k);
      assert OneAtMost(states[k], id, events[k - 1].at, stamps);
    }
  }

  // ----------------------------------------------------------------- the bound is exact

  /** Two copies verified at the two ends of the window; the second inserts once the first row is collected. */
  function DoubleApply(): seq<Timed> {
    var first, last := -11 * MINUTE + 1, 11 * MINUTE - 1;
    var collected := first + KEEP_ROWS + 1;
    [Timed(first, Arrive(1, 7)), Timed(first, Insert(1)), Timed(first, Apply(1, true)),
     Timed(last, Arrive(2, 7)), Timed(collected, Gc), Timed(collected, Insert(2)), Timed(collected, Apply(2, true))]
  }

  function PlayFrom(s: System, events: seq<Timed>, stamps: map<int, Time>, stall: Time, k: nat): Option<System>
    requires k <= |events|
  {
    if k == 0 then Some(s)
    else
      var before := PlayFrom(s, events, stamps, stall, k - 1);
      if before.Some? && Enabled(before.value, events[k - 1], stamps, stall)
      then Some(Next(before.value, events[k - 1], stamps, stall)) else None
  }

  lemma {:induction false} PlayedIsRun(events: seq<Timed>, stamps: map<int, Time>, stall: Time, k: nat)
    returns (states: seq<System>)
    requires k <= |events| && ClockOrdered(events) && PlayFrom(EMPTY, events, stamps, stall, k).Some?
    ensures IsRun(states, events[..k], stamps, stall) && states[k] == PlayFrom(EMPTY, events, stamps, stall, k).value
  {
    if k == 0 {
      states := [EMPTY];
    } else {
      var before := PlayedIsRun(events, stamps, stall, k - 1);
      states := before + [PlayFrom(EMPTY, events, stamps, stall, k).value];
      forall i | 0 <= i < k ensures Moves(states, events[..k], stamps, stall, i) {
        if i < k - 1 {
          assert Moves(before, events[..k - 1], stamps, stall, i);
        }
      }
    }
  }

  lemma DoubleApplyPlays(stall: Time)
    requires stall > SAFE_STALL
    ensures PlayFrom(EMPTY, DoubleApply(), map[7 := 0], stall, 7).Some?
    ensures PlayFrom(EMPTY, DoubleApply(), map[7 := 0], stall, 7).value.applied[7] == 2
  {
    var es, stamps := DoubleApply(), map[7 := 0];
    FreshMeansElevenMinutes(0, es[0].at);
    FreshMeansElevenMinutes(0, es[3].at);
    var s1 := Next(EMPTY, es[0], stamps, stall);
    var s2 := Next(s1, es[1], stamps, stall);
    var s3 := Next(s2, es[2], stamps, stall);
    var s4 := Next(s3, es[3], stamps, stall);
    assert PlayFrom(EMPTY, es, stamps, stall, 1) == Some(s1);
    assert PlayFrom(EMPTY, es, stamps, stall, 2) == Some(s2);
    assert PlayFrom(EMPTY, es, stamps, stall, 3) == Some(s3);
    assert PlayFrom(EMPTY, es, stamps, stall, 4) == Some(s4);
    assert s4.rows == map[7 := es[1].at];
    var s5 := Next(s4, es[4], stamps, stall);
    assert PlayFrom(EMPTY, es, stamps, stall, 5) == Some(s5);
    assert 7 !in s5.rows;
    var s6 := Next(s5, es[5], stamps, stall);
    assert PlayFrom(EMPTY, es, stamps, stall, 6) == Some(s6);
  }
  /** One microsecond past the safe stall there is a run that applies a message twice. */
  lemma LongerStallAppliesTwice(stall: Time)
    requires stall > SAFE_STALL
    ensures exists states: seq<System> ::
              IsRun(states, DoubleApply(), map[7 := 0], stall) && states[7].applied[7] == 2
  {
    DoubleApplyPlays(stall);
    var states := PlayedIsRun(DoubleApply(), map[7 := 0], stall, 7);
    assert DoubleApply()[..7] == DoubleApply();
  }
  // ----------------------------------------------------------------- nothing is lost either

  /** Nobody inserted the message's row at any of these steps. */
  predicate NotInserted(states: seq<System>, events: seq<Timed>, id: int, i: nat, k: nat)
    requires k <= |events| < |states|
  {
    forall m | i <= m < k && events[m].e.Insert? ::
      var pc := PcOf(states[m], events[m].e.h); !(pc.Verified? && pc.id == id)
  }

  lemma {:induction false} RowStaysOut(
    states: seq<System>, events: seq<Timed>, stamps: map<int, Time>, stall: Time, id: int, i: nat, k: nat
  )
    requires IsRun(states, events, stamps, stall) && i <= k <= |events| && id !in states[i].rows
    requires NotInserted(states, events, id, i, k)
    ensures id !in states[k].rows
    decreases k - i
  {
    if i < k {
      RowStaysOut(states, events, stamps, stall, id, i, k - 1);
      assert Moves(states, events, stamps, stall, k - 1);
    }
  }

  /**
   * In every run, after a failed apply of a message the next handler that comes to insert it gets
   * to apply it, whatever other messages and collections do in between.
   */
  lemma FailedApplyLetsTheNextIn(
    states: seq<System>, events: seq<Timed>, stamps: map<int, Time>, stall: Time, id: int, i: nat, k: nat
  )
    requires IsRun(states, events, stamps, stall) && i < k < |events|
    requires events[i].e.Apply? && !events[i].e.works && IsApplying(states[i], events[i].e.h, id)
    requires events[k].e.Insert? && PcOf(states[k], events[k].e.h).Verified? && PcOf(states[k], events[k].e.h).id == id
    requires NotInserted(states, events, id, i + 1, k)
    ensures states[i + 1].applied == states[i].applied
    ensures IsApplying(states[k + 1], events[k].e.h, id) && id in states[k + 1].rows
  {
    assert Moves(states, events, stamps, stall, i) && Moves(states, events, stamps, stall, k);
    RowStaysOut(states, events, stamps, stall, id, i + 1, k);
  }
  // ---------------------------------------------- the handler is a lone delivery of the protocol

  /** Complete, with a key to check it, signed under the cached or a fresh one, and less than eleven minutes off. */
  lemma AuthenticMeansSigned(r: Request, now: Time)
    ensures IsAuthentic(r, now)
       <==> && r.hasHeaders && r.signedByCached.Some? && r.stamp.Some?
            && (r.signedByCached.value || (r.signedByFresh.Some? && r.signedByFresh.value))
            && now - r.stamp.value < 11 * MINUTE && r.stamp.value - now < 11 * MINUTE
  {
  }

  /** A day's rows are kept. */
  lemma RowsAreKeptADay(rows: map<int, Time>, now: Time, id: int)
    ensures id in Kept(rows, now) <==> id in rows && now - rows[id] <= 24 * HOUR
    ensures id in Kept(rows, now) ==> Kept(rows, now)[id] == rows[id]
  {
  }

  /** The steps of one delivery with nobody else around. */
  function LoneDelivery(s: System, h: int, r: Request, now: Time, applyWorks: bool): seq<Timed> {
    [Timed(now, Arrive(h, r.id)), Timed(now, Insert(h))]
    + if r.id in s.rows then []
      else [Timed(now, if r.json then Apply(h, applyWorks) else Reject(h))]
  }

  /** What `KickWebhook` promises of rows and applies is what the protocol's steps do, and the handler is free again. */
  lemma LoneDeliveryFollowsTheMethod(
    s: System, h: int, r: Request, now: Time, applyWorks: bool, stamps: map<int, Time>, stall: Time
  )
    requires PcOf(s, h).Outside? && IsAuthentic(r, now) && stall >= 0
    requires r.id in stamps && r.stamp == Some(stamps[r.id])
    ensures var events := LoneDelivery(s, h, r, now, applyWorks);
            var end := PlayFrom(s, events, stamps, stall, |events|);
            && end.Some? && PcOf(end.value, h).Outside?
            && end.value.rows == (if IsFirst(r, now, true, s.rows) && (r.json ==> applyWorks)
                                  then s.rows[r.id := now] else s.rows)
            && end.value.applied == s.applied + (if IsFirst(r, now, true, s.rows) && r.json && applyWorks
                                                 then multiset{r.id} else multiset{})
  {
    var events := LoneDelivery(s, h, r, now, applyWorks);
    var s1 := Next(s, events[0], stamps, stall);
    assert PlayFrom(s, events, stamps, stall, 1) == Some(s1);
    var s2 := Next(s1, events[1], stamps, stall);
    assert PlayFrom(s, events, stamps, stall, 2) == Some(s2);
    if r.id !in s.rows {
      var s3 := Next(s2, events[2], stamps, stall);
      assert PlayFrom(s, events, stamps, stall, 3) == Some(s3);
      assert s.rows[r.id := now] - {r.id} == s.rows;
    }
  }
}

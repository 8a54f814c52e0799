/**
 * `chat_messages_30d` over whole runs of a cell: after any mix of events and ageing cycles the
 * stored counter is the number of messages dated after the last recount's cutoff.
 */
module ChatWindow {
  import opened Wrappers
  import opened Facts
  import opened Ascending
  import opened RelationEvents

  // ---------------------------------------------------------------- sums over buckets

  lemma {:induction false} SumPicks(b: Buckets, days: set<int>, d: int)
    requires days <= b.Keys && d in days
    ensures SumOver(b, days) == b[d] + SumOver(b, days - {d})
    decreases |days|
  {
    var first := Least(days);
    if d != first {
      SumPicks(b, days - {first}, d);
      assert first in days - {d} && Least(days - {d}) in days;
      assert Least(days - {d}) == first;
      assert days - {d} - {first} == days - {first} - {d};
    }
  }

  lemma {:induction false} SumAgrees(a: Buckets, b: Buckets, days: set<int>)
    requires days <= a.Keys && days <= b.Keys
    requires forall d | d in days :: a[d] == b[d]
    ensures SumOver(a, days) == SumOver(b, days)
    decreases |days|
  {
    if days != {} {
      SumAgrees(a, b, days - {Least(days)});
    }
  }

  lemma {:induction false} SumGrows(b: Buckets, small: set<int>, big: set<int>)
    requires small <= big <= b.Keys
    ensures SumOver(b, small) <= SumOver(b, big)
    decreases |small|
  {
    if small != {} {
      var d := Least(small);
      SumPicks(b, big, d);
      SumGrows(b, small - {d}, big - {d});
    }
  }

  /** One more message in today's bucket counts toward exactly the cutoffs before today. */
  lemma CountedBucketSum(b: Buckets, day: int, cutoff: int)
    ensures SumAfter(CountedBucket(b, day), cutoff) == SumAfter(b, cutoff) + if day > cutoff then 1 else 0
  {
    var more := CountedBucket(b, day);
    var days, others := DaysAfter(more, cutoff), DaysAfter(b, cutoff) - {day};
    SumAgrees(b, more, others);
    if day > cutoff {
      assert days - {day} == others;
      SumPicks(more, days, day);
      if day in b {
        SumPicks(b, DaysAfter(b, cutoff), day);
      } else {
        assert DaysAfter(b, cutoff) == others;
      }
    } else {
      assert days == others && DaysAfter(b, cutoff) == others;
    }
  }

  /** Dropping buckets up to a cutoff changes no later window. */
  lemma RecentDaysSum(b: Buckets, dropped: int, cutoff: int)
    requires dropped <= cutoff
    ensures SumAfter(RecentDays(b, dropped), cutoff) == SumAfter(b, cutoff)
  {
    var kept := RecentDays(b, dropped);
    assert DaysAfter(kept, cutoff) == DaysAfter(b, cutoff);
    SumAgrees(kept, b, DaysAfter(b, cutoff));
  }

  lemma SumAfterShrinks(b: Buckets, early: int, late: int)
    requires early <= late
    ensures SumAfter(b, late) <= SumAfter(b, early)
  {
    SumGrows(b, DaysAfter(b, late), DaysAfter(b, early));
  }

  // ------------------------------------------------------------------- the message log

  /** No cutoff yet, or this one. */
  type Cutoff = Option<int>

  predicate IsAfter(day: int, cutoff: Cutoff) {
    cutoff.None? || day > cutoff.value
  }

  predicate NoEarlier(a: Cutoff, b: Cutoff) {
    a.None? || (b.Some? && a.value <= b.value)
  }

  function SumSince(b: Buckets, cutoff: Cutoff): nat {
    if cutoff.None? then SumOver(b, b.Keys) else SumAfter(b, cutoff.value)
  }

  /** Messages known at the start plus those the first `k` steps logged, dated after the cutoff. */
  function Logged(initial: Buckets, steps: seq<Timed>, k: nat, cutoff: Cutoff): nat
    requires k <= |steps|
  {
    if k == 0 then SumSince(initial, cutoff)
    else
      Logged(initial, steps, k - 1, cutoff)
      + if steps[k - 1].e.Chatted? && IsAfter(DayOf(steps[k - 1].at), cutoff) then 1 else 0
  }

  /** The cutoff of the last recount that ran. */
  function LastRecount(steps: seq<Timed>, k: nat): Cutoff
    requires k <= |steps|
  {
    if k == 0 then None
    else if steps[k - 1].e.ChatAged? && steps[k - 1].e.ageing != RecountFailed then Some(CutoffOf(steps[k - 1].at))
    else LastRecount(steps, k - 1)
  }

  lemma SumSinceShrinks(b: Buckets, early: Cutoff, late: Cutoff)
    requires NoEarlier(early, late)
    ensures SumSince(b, late) <= SumSince(b, early)
  {
    if early.Some? {
      SumAfterShrinks(b, early.value, late.value);
    } else if late.Some? {
      SumGrows(b, DaysAfter(b, late.value), b.Keys);
    }
  }

  lemma {:induction false} LoggedShrinks(initial: Buckets, steps: seq<Timed>, k: nat, early: Cutoff, late: Cutoff)
    requires k <= |steps| && NoEarlier(early, late)
    ensures Logged(initial, steps, k, late) <= Logged(initial, steps, k, early)
  {
    if k == 0 {
      SumSinceShrinks(initial, early, late);
    } else {
      LoggedShrinks(initial, steps, k - 1, early, late);
    }
  }

  lemma CutoffsFollowTime(a: Time, b: Time)
    requires a <= b
    ensures CutoffOf(a) <= CutoffOf(b)
  {
  }

  lemma {:induction false} RecountsAreInOrder(steps: seq<Timed>, k: nat, i: nat)
    requires InOrder(steps) && k <= i < |steps|
    ensures NoEarlier(LastRecount(steps, k), Some(CutoffOf(steps[i].at)))
  {
    if k > 0 {
      RecountsAreInOrder(steps, k - 1, i);
      CutoffsFollowTime(steps[k - 1].at, steps[i].at);
    }
  }

  // --------------------------------------------------------------------- the invariant

  /** A fresh cell, or one whose counter was seeded into its buckets when they were introduced. */
  predicate Seeded(c: Cell) {
    && (c.row.None? ==> c.days == map[])
    && Row(c).chatMessages30d == SumOver(c.days, c.days.Keys)
  }

  /** The surviving buckets answer for every window from the last recount on. */
  ghost predicate BucketsTell(initial: Buckets, cells: seq<Cell>, steps: seq<Timed>, k: nat)
    requires k <= |steps| < |cells|
  {
    forall c: int | NoEarlier(LastRecount(steps, k), Some(c)) ::
      SumAfter(cells[k].days, c) == Logged(initial, steps, k, Some(c))
  }

  predicate CounterTells(initial: Buckets, cells: seq<Cell>, steps: seq<Timed>, k: nat)
    requires k <= |steps| < |cells|
  {
    && Row(cells[k]).chatMessages30d == Logged(initial, steps, k, LastRecount(steps, k))
    && (cells[k].row.None? ==> Logged(initial, steps, k, None) == 0)
  }

  lemma {:induction false} BucketsStayTruthful(cells: seq<Cell>, steps: seq<Timed>, k: nat)
    requires IsRun(cells, steps) && InOrder(steps) && k <= |steps|
    ensures BucketsTell(cells[0].days, cells, steps, k)
  {
    if k > 0 {
      BucketsStayTruthful(cells, steps, k - 1);
      assert Moves(cells, steps, k - 1);
      var before, s := cells[k - 1], steps[k - 1];
      RecountsAreInOrder(steps, k - 1, k - 1);
      forall c: int | NoEarlier(LastRecount(steps, k), Some(c))
        ensures SumAfter(cells[k].days, c) == Logged(cells[0].days, steps, k, Some(c))
      {
        BucketStep(before, s.at, s.e, c);
        assert NoEarlier(LastRecount(steps, k - 1), Some(c));
      }
    }
  }

  lemma BucketStep(before: Cell, now: Time, e: RowEvent, cutoff: int)
    requires e.ChatAged? && e.ageing == Aged ==> CutoffOf(now) <= cutoff
    ensures SumAfter(StepDays(before, now, e), cutoff)
         == SumAfter(before.days, cutoff) + if e.Chatted? && DayOf(now) > cutoff then 1 else 0
  {
    match e {
      case Chatted(_) => CountedBucketSum(before.days, DayOf(now), cutoff);
      case ChatAged(ageing) =>
        if ageing == Aged {
          RecentDaysSum(before.days, CutoffOf(now), cutoff);
        }
      case _ =>
    }
  }

  lemma CounterStep(before: Cell, now: Time, e: RowEvent)
    ensures e.Chatted? ==>
              Row(Step(before, now, e)).chatMessages30d == Row(before).chatMessages30d + 1
    ensures !e.Chatted? && !e.ChatAged? ==>
              Row(Step(before, now, e)).chatMessages30d == Row(before).chatMessages30d
    ensures before.row.None? && (e.ProbeAnswered? || e.ExpirySwept? || e.ChatAged?) ==>
              Step(before, now, e).row.None?
    ensures before.row.Some? || e.Chatted? ==> Step(before, now, e).row.Some?
  {
  }

  /**
   * In every run in time order the counter is the number of messages logged after the last
   * recount's cutoff (all of them, before any recount).
   */
  lemma {:induction false} CounterIsTheLog(cells: seq<Cell>, steps: seq<Timed>, k: nat)
    requires IsRun(cells, steps) && InOrder(steps) && Seeded(cells[0]) && k <= |steps|
    ensures CounterTells(cells[0].days, cells, steps, k)
  {
    if k > 0 {
      CounterIsTheLog(cells, steps, k - 1);
      assert Moves(cells, steps, k - 1);
      var before, s := cells[k - 1], steps[k - 1];
      if s.e.ChatAged? {
        AgeingKeepsCounter(cells, steps, k);
      } else {
        CounterStep(before, s.at, s.e);
        if s.e.Chatted? {
          RecountsAreInOrder(steps, k - 1, k - 1);
          assert DayOf(s.at) > CutoffOf(s.at);
        }
      }
    }
  }

  lemma AgeingKeepsCounter(cells: seq<Cell>, steps: seq<Timed>, k: nat)
    requires IsRun(cells, steps) && InOrder(steps) && 0 < k <= |steps| && steps[k - 1].e.ChatAged?
    requires CounterTells(cells[0].days, cells, steps, k - 1)
    ensures CounterTells(cells[0].days, cells, steps, k)
  {
    var before, s := cells[k - 1], steps[k - 1];
    var cutoff := CutoffOf(s.at);
    assert Moves(cells, steps, k - 1);
    assert cells[k].row == if before.row.None? then None
                           else Some(RecountedRow(before.row.value, before.days, cutoff, s.e.ageing));
    if s.e.ageing != RecountFailed {
      BucketsStayTruthful(cells, steps, k - 1);
      RecountsAreInOrder(steps, k - 1, k - 1);
      assert SumAfter(before.days, cutoff) == Logged(cells[0].days, steps, k - 1, Some(cutoff));
      LoggedShrinks(cells[0].days, steps, k - 1, LastRecount(steps, k - 1), Some(cutoff));
      LoggedShrinks(cells[0].days, steps, k - 1, None, Some(cutoff));
    }
  }

  // ---------------------------------------------------------------------- what follows

  /** The messages of the 30 days up to a moment. */
  function TrueCount(initial: Buckets, steps: seq<Timed>, k: nat, now: Time): nat
    requires k <= |steps|
  {
    Logged(initial, steps, k, Some(CutoffOf(now)))
  }

  /** Never below the true 30-day count, and equal to it right after a recount. */
  lemma CounterNeverUndercounts(cells: seq<Cell>, steps: seq<Timed>, k: nat, now: Time)
    requires IsRun(cells, steps) && InOrder(steps) && Seeded(cells[0]) && k <= |steps|
    requires k > 0 ==> steps[k - 1].at <= now
    ensures Row(cells[k]).chatMessages30d >= TrueCount(cells[0].days, steps, k, now)
    ensures LastRecount(steps, k) == Some(CutoffOf(now)) ==>
              Row(cells[k]).chatMessages30d == TrueCount(cells[0].days, steps, k, now)
  {
    CounterIsTheLog(cells, steps, k);
    if k > 0 {
      RecountsAreInOrder(steps, k - 1, k - 1);
      CutoffsFollowTime(steps[k - 1].at, now);
    }
    LoggedShrinks(cells[0].days, steps, k, LastRecount(steps, k), Some(CutoffOf(now)));
  }

  /** The `> 0` filter skips no row a recount would change. */
  lemma FilterSkipsNothing(cells: seq<Cell>, steps: seq<Timed>, k: nat)
    requires IsRun(cells, steps) && InOrder(steps) && Seeded(cells[0]) && k < |steps|
    requires Row(cells[k]).chatMessages30d <= 0
    ensures SumAfter(cells[k].days, CutoffOf(steps[k].at)) == Row(cells[k]).chatMessages30d
  {
    CounterIsTheLog(cells, steps, k);
    BucketsStayTruthful(cells, steps, k);
    RecountsAreInOrder(steps, k, k);
    LoggedShrinks(cells[0].days, steps, k, LastRecount(steps, k), Some(CutoffOf(steps[k].at)));
  }

  /** The same steps, with different ageing cycles losing their clean-up. */
  predicate SameButCleanups(a: seq<Timed>, b: seq<Timed>) {
    && |a| == |b|
    && forall i | 0 <= i < |a| ::
         a[i] == b[i] || (a[i].at == b[i].at && Recounts(a[i].e) && Recounts(b[i].e))
  }

  predicate Recounts(e: RowEvent) {
    e.ChatAged? && e.ageing != RecountFailed
  }

  lemma {:induction false} LogIgnoresCleanups(initial: Buckets, a: seq<Timed>, b: seq<Timed>, k: nat, cutoff: Cutoff)
    requires SameButCleanups(a, b) && k <= |a|
    ensures Logged(initial, a, k, cutoff) == Logged(initial, b, k, cutoff)
    ensures LastRecount(a, k) == LastRecount(b, k)
  {
    if k > 0 {
      LogIgnoresCleanups(initial, a, b, k - 1, cutoff);
    }
  }

  /** Deleting old buckets changes no present or future value of the counter. */
  lemma BucketDeletionNeverShows(cells: seq<Cell>, a: seq<Timed>, others: seq<Cell>, b: seq<Timed>, k: nat)
    requires IsRun(cells, a) && IsRun(others, b) && cells[0] == others[0] && Seeded(cells[0])
    requires InOrder(a) && SameButCleanups(a, b) && k <= |a|
    ensures Row(cells[k]).chatMessages30d == Row(others[k]).chatMessages30d
  {
    CounterIsTheLog(cells, a, k);
    assert InOrder(b);
    CounterIsTheLog(others, b, k);
    LogIgnoresCleanups(cells[0].days, a, b, k, LastRecount(a, k));
  }
}

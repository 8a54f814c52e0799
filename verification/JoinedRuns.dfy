/**
 * Runs of a cell put end to end: each part is a list of steps, and the states between the parts are
 * all that is known of the cell. What holds of the one long run is told here in terms of the parts.
 */
module JoinedRuns {
  import opened Facts
  import opened FollowSync
  import opened RelationEvents
  import opened FollowRuns
  import opened ChatWindow

  /** The first `k` lists one after the other. */
  function Flat(parts: seq<seq<Timed>>, k: nat): seq<Timed>
    requires k <= |parts|
  {
    if k == 0 then [] else Flat(parts, k - 1) + parts[k - 1]
  }

  lemma {:induction false} FlatGrows(parts: seq<seq<Timed>>, i: nat, k: nat)
    requires i <= k <= |parts|
    ensures Flat(parts, i) <= Flat(parts, k)
    decreases k - i
  {
    if i < k {
      FlatGrows(parts, i, k - 1);
    }
  }

  /** Which list an element came from. */
  function Origin(parts: seq<seq<Timed>>, k: nat, p: nat): (i: nat)
    requires k <= |parts| && p < |Flat(parts, k)|
    ensures i < k && |Flat(parts, i)| <= p < |Flat(parts, i + 1)|
  {
    if p < |Flat(parts, k - 1)| then Origin(parts, k - 1, p) else k - 1
  }

  lemma ElementAt(parts: seq<seq<Timed>>, k: nat, p: nat)
    requires k <= |parts| && p < |Flat(parts, k)|
    ensures var i := Origin(parts, k, p);
            Flat(parts, k)[p] == parts[i][p - |Flat(parts, i)|]
  {
    FlatGrows(parts, Origin(parts, k, p) + 1, k);
  }

  lemma ElementIn(parts: seq<seq<Timed>>, k: nat, p: nat)
    requires k <= |parts| && p < |Flat(parts, k)|
    ensures Flat(parts, k)[p] in parts[Origin(parts, k, p)]
  {
    ElementAt(parts, k, p);
  }

  lemma LengthGrows(parts: seq<seq<Timed>>, i: nat, k: nat)
    requires i <= k <= |parts|
    ensures |Flat(parts, i)| <= |Flat(parts, k)|
  {
    FlatGrows(parts, i, k);
  }

  lemma SingleElement(parts: seq<seq<Timed>>, k: nat, i: nat)
    requires i < k <= |parts| && |parts[i]| == 1
    ensures var p := |Flat(parts, i)|;
            p + 1 == |Flat(parts, i + 1)| <= |Flat(parts, k)| && Flat(parts, k)[p] == parts[i][0]
  {
    FlatGrows(parts, i + 1, k);
  }

  predicate UpTo(steps: seq<Timed>, t: Time) {
    forall i | 0 <= i < |steps| :: steps[i].at <= t
  }

  lemma {:induction false} FlatIsInOrder(parts: seq<seq<Timed>>, times: seq<Time>, k: nat)
    requires |parts| == |times| && k <= |parts|
    requires forall i, n | 0 <= i < |parts| && 0 <= n < |parts[i]| :: parts[i][n].at == times[i]
    requires forall i, j | 0 <= i < j < |times| :: times[i] <= times[j]
    ensures InOrder(Flat(parts, k))
    ensures forall i | k <= i < |times| :: UpTo(Flat(parts, k), times[i])
  {
    if k > 0 {
      FlatIsInOrder(parts, times, k - 1);
      assert UpTo(Flat(parts, k - 1), times[k - 1]);
    }
  }

  function AfterSteps(c: Cell, steps: seq<Timed>, n: nat): Cell
    requires n <= |steps|
  {
    if n == 0 then c else Step(AfterSteps(c, steps, n - 1), steps[n - 1].at, steps[n - 1].e)
  }

  lemma StepAdded(cells: seq<Cell>, steps: seq<Timed>, s: Timed)
    requires IsRun(cells, steps)
    ensures IsRun(cells + [Step(cells[|steps|], s.at, s.e)], steps + [s])
  {
    var cs, ss := cells + [Step(cells[|steps|], s.at, s.e)], steps + [s];
    forall i | 0 <= i < |ss| ensures Moves(cs, ss, i) {
      if i < |steps| {
        assert Moves(cells, steps, i);
      }
    }
  }

  lemma {:induction false} StepsAdded(cells: seq<Cell>, steps: seq<Timed>, more: seq<Timed>, n: nat)
    returns (cs: seq<Cell>)
    requires IsRun(cells, steps) && n <= |more|
    ensures IsRun(cs, steps + more[..n]) && cells <= cs
    ensures cs[|cs| - 1] == AfterSteps(cells[|steps|], more, n)
  {
    if n == 0 {
      cs := cells;
      assert steps + more[..0] == steps;
    } else {
      cs := StepsAdded(cells, steps, more, n - 1);
      var ss := steps + more[..n - 1];
      StepAdded(cs, ss, more[n - 1]);
      assert ss + [more[n - 1]] == steps + more[..n];
      cs := cs + [Step(cs[|ss|], more[n - 1].at, more[n - 1].e)];
    }
  }

  /** These steps bring the cell from one state to the next. */
  predicate Leads(states: seq<Cell>, parts: seq<seq<Timed>>, i: nat)
    requires i < |parts| < |states|
  {
    states[i + 1] == AfterSteps(states[i], parts[i], |parts[i]|)
  }

  /** The cells of the joined run stand where the states stand, between any two parts. */
  predicate Meets(states: seq<Cell>, parts: seq<seq<Timed>>, cells: seq<Cell>, i: nat)
    requires i <= |parts| < |states|
  {
    |Flat(parts, i)| < |cells| && cells[|Flat(parts, i)|] == states[i]
  }

  predicate AreJoined(states: seq<Cell>, parts: seq<seq<Timed>>) {
    && |states| == |parts| + 1
    && forall i | 0 <= i < |parts| :: Leads(states, parts, i)
  }

  /** Runs that meet end to end are one run. */
  lemma {:induction false} Joined(states: seq<Cell>, parts: seq<seq<Timed>>, k: nat) returns (cells: seq<Cell>)
    requires AreJoined(states, parts) && k <= |parts|
    ensures IsRun(cells, Flat(parts, k)) && forall i | 0 <= i <= k :: Meets(states, parts, cells, i)
  {
    if k == 0 {
      cells := [states[0]];
    } else {
      var before := Joined(states, parts, k - 1);
      assert Leads(states, parts, k - 1) && Meets(states, parts, before, k - 1);
      cells := StepsAdded(before, Flat(parts, k - 1), parts[k - 1], |parts[k - 1]|);
      assert parts[k - 1][..|parts[k - 1]|] == parts[k - 1];
      forall i | 0 <= i <= k ensures Meets(states, parts, cells, i) {
        if i < k {
          assert Meets(states, parts, before, i);
        }
      }
    }
  }


  // ------------------------------------------------------------------- a follow that ends

  /** A probe is a part of its own. */
  predicate IsTidy(part: seq<Timed>) {
    |part| == 1 || forall s | s in part :: !s.e.ProbeAnswered?
  }

  predicate AreTidy(parts: seq<seq<Timed>>, n: int) {
    forall i | 0 <= i < |parts| ::
      IsTidy(parts[i]) && forall s | s in parts[i] && s.e.ProbeAnswered? :: s.e.confirmations == n
  }

  predicate DeniesIn(part: seq<Timed>) {
    |part| == 1 && Denies(part[0].e)
  }

  predicate AffirmsIn(part: seq<Timed>) {
    |part| == 1 && Affirms(part[0].e)
  }

  /** Negative answers in these parts, in order, consecutive ones at least six hours apart. */
  predicate SpacedParts(parts: seq<seq<Timed>>, at: seq<nat>) {
    && (forall j | 0 <= j < |at| :: at[j] < |parts| && DeniesIn(parts[at[j]]))
    && (forall j | 0 < j < |at| :: at[j - 1] < at[j])
    && (forall j | 0 < j < |at| :: parts[at[j]][0].at - parts[at[j - 1]][0].at >= 6 * HOUR)
  }

  predicate UnaffirmedParts(states: seq<Cell>, parts: seq<seq<Timed>>, i: nat, k: nat)
    requires k <= |parts| < |states|
  {
    forall j | i <= j < k :: Follows(states[j]) && !AffirmsIn(parts[j])
  }

  lemma ProbeIsItsPart(parts: seq<seq<Timed>>, n: int, k: nat, p: nat) returns (i: nat)
    requires AreTidy(parts, n) && k <= |parts| && p < |Flat(parts, k)| && Flat(parts, k)[p].e.ProbeAnswered?
    ensures i < k && |parts[i]| == 1 && p == |Flat(parts, i)| && Flat(parts, k)[p] == parts[i][0]
    ensures Flat(parts, k)[p].e.confirmations == n
  {
    i := Origin(parts, k, p);
    ElementAt(parts, k, p);
    assert IsTidy(parts[i]) && Flat(parts, k)[p] in parts[i];
  }

  /** Step `p` of the joined run is the one step of part `i`. */
  predicate IsPart(parts: seq<seq<Timed>>, k: nat, p: nat, i: nat)
    requires k <= |parts|
  {
    i < k && |parts[i]| == 1 && p == |Flat(parts, i)| < |Flat(parts, k)| && Flat(parts, k)[p] == parts[i][0]
  }

  lemma {:induction false} PartsBehind(parts: seq<seq<Timed>>, n: int, k: nat, at: seq<nat>, m: nat)
    returns (from: seq<nat>)
    requires AreTidy(parts, n) && k <= |parts| && SpacedDenials(Flat(parts, k), at) && m <= |at|
    ensures |from| == m && SpacedParts(parts, from)
    ensures forall j | 0 <= j < m :: IsPart(parts, k, at[j], from[j])
  {
    if m == 0 {
      from := [];
    } else {
      from := PartsBehind(parts, n, k, at, m - 1);
      assert Denies(Flat(parts, k)[at[m - 1]].e);
      var i := ProbeIsItsPart(parts, n, k, at[m - 1]);
      if m > 1 {
        assert IsPart(parts, k, at[m - 2], from[m - 2]);
        LaterPart(parts, k, at[m - 2], at[m - 1], from[m - 2], i);
      }
      OneMorePart(parts, from, i);
      from := from + [i];
    }
  }

  lemma LaterPart(parts: seq<seq<Timed>>, k: nat, p: nat, q: nat, i: nat, j: nat)
    requires k <= |parts| && IsPart(parts, k, p, i) && IsPart(parts, k, q, j) && p < q
    ensures i < j
  {
    if j <= i {
      FlatGrows(parts, j, i);
    }
  }

  lemma OneMorePart(parts: seq<seq<Timed>>, from: seq<nat>, i: nat)
    requires SpacedParts(parts, from) && i < |parts| && DeniesIn(parts[i])
    requires from != [] ==>
               from[|from| - 1] < i && parts[i][0].at - parts[from[|from| - 1]][0].at >= 6 * HOUR
    ensures SpacedParts(parts, from + [i])
  {
  }

  lemma UnaffirmedBehind(states: seq<Cell>, parts: seq<seq<Timed>>, cells: seq<Cell>, first: nat, i: nat)
    requires first <= i < |parts| < |states| && |parts[i]| == 1
    requires IsRun(cells, Flat(parts, i + 1)) && forall j | 0 <= j <= i + 1 :: Meets(states, parts, cells, j)
    requires UnaffirmedSince(cells, Flat(parts, i + 1), |Flat(parts, first)|, |Flat(parts, i + 1)|)
    ensures UnaffirmedParts(states, parts, first, i + 1)
  {
    forall j | first <= j < i + 1 ensures Follows(states[j]) && !AffirmsIn(parts[j]) {
      FlatGrows(parts, first, j);
      FlatGrows(parts, j, i);
      SingleElement(parts, i + 1, i);
      assert Meets(states, parts, cells, j);
      assert Follows(cells[|Flat(parts, j)|]) && !Affirms(Flat(parts, i + 1)[|Flat(parts, j)|].e);
      if |parts[j]| == 1 {
        SingleElement(parts, i + 1, j);
      }
    }
  }

  lemma DenialsOfTheRun(states: seq<Cell>, parts: seq<seq<Timed>>, cells: seq<Cell>, i: nat, n: int)
    returns (at: seq<nat>)
    requires i < |parts| < |states| && AreTidy(parts, n) && |parts[i]| == 1
    requires IsRun(cells, Flat(parts, i + 1)) && forall j | 0 <= j <= i + 1 :: Meets(states, parts, cells, j)
    requires Unblemished(states[0]) && 1 <= n <= I16_MAX && Follows(states[i]) && !Follows(states[i + 1])
    ensures var steps := Flat(parts, i + 1);
            && SpacedDenials(steps, at) && |at| >= n && IsPart(parts, i + 1, at[|at| - 1], i)
            && UnaffirmedSince(cells, steps, at[0], |steps|)
            && parts[i][0].at - steps[at[0]].at >= (n - 1) * (6 * HOUR)
  {
    var steps, p := Flat(parts, i + 1), |Flat(parts, i)|;
    SingleElement(parts, i + 1, i);
    assert Meets(states, parts, cells, 0) && Meets(states, parts, cells, i) && Meets(states, parts, cells, i + 1);
    TidyIsConfirmed(parts, n, i + 1);
    UnfollowNeedsSpacedDenials(cells, steps, p, n);
    at :|
      && SpacedDenials(steps, at) && |at| >= n && at[|at| - 1] == p
      && UnaffirmedSince(cells, steps, at[0], p + 1)
      && steps[p].at - steps[at[0]].at >= (n - 1) * (6 * HOUR);
  }

  /** `UnfollowNeedsSpacedDenials`, part by part. */
  lemma PartsUnfollow(states: seq<Cell>, parts: seq<seq<Timed>>, i: nat, n: int) returns (from: seq<nat>)
    requires AreJoined(states, parts) && AreTidy(parts, n) && i < |parts| && |parts[i]| == 1
    requires Unblemished(states[0]) && 1 <= n <= I16_MAX && Follows(states[i]) && !Follows(states[i + 1])
    ensures SpacedParts(parts, from) && |from| >= n && from[|from| - 1] == i
    ensures UnaffirmedParts(states, parts, from[0], i + 1)
    ensures parts[i][0].at - parts[from[0]][0].at >= (n - 1) * (6 * HOUR)
  {
    var cells := Joined(states, parts, i + 1);
    var at := DenialsOfTheRun(states, parts, cells, i, n);
    from := PartsBehind(parts, n, i + 1, at, |at|);
    var last := |at| - 1;
    assert IsPart(parts, i + 1, at[0], from[0]) && IsPart(parts, i + 1, at[last], from[last]);
    SamePart(parts, i + 1, at[last], from[last], i);
    UnaffirmedBehind(states, parts, cells, from[0], i);
  }

  lemma SamePart(parts: seq<seq<Timed>>, k: nat, p: nat, i: nat, j: nat)
    requires k <= |parts| && IsPart(parts, k, p, i) && IsPart(parts, k, p, j)
    ensures i == j
  {
    if i < j {
      FlatGrows(parts, i + 1, j);
    } else if j < i {
      FlatGrows(parts, j + 1, i);
    }
  }

  lemma TidyIsConfirmed(parts: seq<seq<Timed>>, n: int, k: nat)
    requires AreTidy(parts, n) && k <= |parts|
    ensures Confirmed(Flat(parts, k), n)
  {
    var steps := Flat(parts, k);
    forall p | 0 <= p < |steps| && steps[p].e.ProbeAnswered? ensures steps[p].e.confirmations == n {
      var i := ProbeIsItsPart(parts, n, k, p);
    }
  }

  // ------------------------------------------------------------------------ counts add up

  lemma {:induction false} LoggedSoFar(initial: Buckets, steps: seq<Timed>, more: seq<Timed>, k: nat, cutoff: Cutoff)
    requires k <= |steps| && steps <= more
    ensures Logged(initial, more, k, cutoff) == Logged(initial, steps, k, cutoff)
    ensures LastRecount(more, k) == LastRecount(steps, k) && KicksGiven(more, k) == KicksGiven(steps, k)
  {
    if k > 0 {
      LoggedSoFar(initial, steps, more, k - 1, cutoff);
    }
  }

  function Later(a: Cutoff, b: Cutoff): Cutoff {
    if b.Some? then b else a
  }

  /** The log, the recounts and the kicks of two lists of steps. */
  lemma {:induction false} CountsAddUp(initial: Buckets, steps: seq<Timed>, part: seq<Timed>, n: nat, cutoff: Cutoff)
    requires n <= |part|
    ensures var k := |steps| + n;
            && Logged(initial, steps + part, k, cutoff)
               == Logged(initial, steps, |steps|, cutoff) + Logged(map[], part, n, cutoff)
            && LastRecount(steps + part, k) == Later(LastRecount(steps, |steps|), LastRecount(part, n))
            && KicksGiven(steps + part, k) == KicksGiven(steps, |steps|) + KicksGiven(part, n)
  {
    if n == 0 {
      LoggedSoFar(initial, steps, steps + part, |steps|, cutoff);
    } else {
      CountsAddUp(initial, steps, part, n - 1, cutoff);
    }
  }

  // -------------------------------------------------------------- a subscription that was seen

  /** The step comes within the floor's grace and supplies no expiry before the floor. */
  predicate StepSpares(s: Timed, floor: Time) {
    s.at <= floor + EXPIRY_GRACE && (SuppliedExpiry(s.e).Some? ==> SuppliedExpiry(s.e).value >= floor)
  }

  predicate SparesFloor(part: seq<Timed>, floor: Time) {
    forall s | s in part :: StepSpares(s, floor)
  }

  lemma OriginIsLater(parts: seq<seq<Timed>>, i: nat, k: nat, q: nat)
    requires i < k <= |parts| && |Flat(parts, i + 1)| <= q < |Flat(parts, k)|
    ensures Origin(parts, k, q) > i
  {
    var j := Origin(parts, k, q);
    if j <= i {
      LengthGrows(parts, j + 1, i + 1);
    }
  }

  lemma LaterStep(parts: seq<seq<Timed>>, i: nat, k: nat, q: nat) returns (j: nat)
    requires i < k <= |parts| && |Flat(parts, i + 1)| <= q < |Flat(parts, k)|
    ensures i < j < k && Flat(parts, k)[q] in parts[j]
  {
    j := Origin(parts, k, q);
    ElementIn(parts, k, q);
    OriginIsLater(parts, i, k, q);
  }

  lemma LaterStepsSpareFloor(parts: seq<seq<Timed>>, i: nat, k: nat, floor: Time)
    requires i < k <= |parts| && forall j | i < j < k :: SparesFloor(parts[j], floor)
    ensures forall q | |Flat(parts, i + 1)| <= q < |Flat(parts, k)| :: StepSpares(Flat(parts, k)[q], floor)
  {
    forall q | |Flat(parts, i + 1)| <= q < |Flat(parts, k)| ensures StepSpares(Flat(parts, k)[q], floor) {
      var j := LaterStep(parts, i, k, q);
      assert SparesFloor(parts[j], floor);
    }
  }

  /** `ShownSubscriptionSurvivesSweeps`, part by part. */
  lemma PartsKeepSubscription(states: seq<Cell>, parts: seq<seq<Timed>>, i: nat, k: nat)
    requires AreJoined(states, parts) && i < k <= |parts|
    requires |parts[i]| == 1 && ShowsActiveSub(parts[i][0].e)
    requires parts[i][0].e.ProbeAnswered? ==> states[i].row.Some?
    requires forall j | i < j < k :: SparesFloor(parts[j], parts[i][0].at + EvidenceFloor(parts[i][0].e))
    ensures ActiveUntil(states[k], parts[i][0].at + EvidenceFloor(parts[i][0].e))
  {
    var cells := Joined(states, parts, k);
    var steps, p := Flat(parts, k), |Flat(parts, i)|;
    assert Meets(states, parts, cells, i) && Meets(states, parts, cells, k);
    SingleElement(parts, k, i);
    var floor := steps[p].at + EvidenceFloor(steps[p].e);
    LaterStepsSpareFloor(parts, i, k, floor);
    forall q | p < q < |steps|
      ensures steps[q].at <= floor + EXPIRY_GRACE
      ensures SuppliedExpiry(steps[q].e).Some? ==> SuppliedExpiry(steps[q].e).value >= floor
    {
      assert StepSpares(steps[q], floor);
    }
    ShownSubscriptionSurvivesSweeps(cells, steps, p, |steps|);
  }
}

/**
 * The per-channel token refresh: a fast read without a lock, then a re-read, a request and a write
 * under an advisory lock, with a reconnect that takes no lock free to happen at any point. Callers
 * interleave step by step.
 */
module TokenRefresh {
  import opened Wrappers
  import opened Facts

  type Token = nat

  const REFRESH_SKEW: Time := 5 * MINUTE

  /** The token columns of a `broadcasters` row. */
  datatype TokenRow = TokenRow(access: Token, refresh: Token, expiresAt: Time, invalidAt: Option<Time>)

  /** What the token endpoint answers; a success may or may not replace the refresh token. */
  datatype Answer =
    | Refreshed(access: Token, replacement: Option<Token>, expiresIn: int)
    | GrantRevoked
    | Transient

  datatype Outcome = Usable(access: Token) | SignInRevoked | Failed | NotFound

  predicate NeedsRefresh(expiresAt: Time, now: Time) {
    expiresAt <= now + REFRESH_SKEW
  }

  /** What a read of the row settles; None when a refresh is due. */
  function Judge(row: Option<TokenRow>, now: Time): Option<Outcome> {
    match row
    case None => Some(NotFound)
    case Some(r) =>
      if r.invalidAt.Some? then Some(SignInRevoked)
      else if !NeedsRefresh(r.expiresAt, now) then Some(Usable(r.access))
      else None
  }

  function ExpiryAfter(now: Time, expiresIn: int): Time {
    now + (if expiresIn > 60 then expiresIn else 60) * SECOND
  }

  // ------------------------------------------------------------------------ one caller alone

  /** The row and the result when nobody interferes. */
  function Solo(row: Option<TokenRow>, now: Time, answer: Answer, later: Time): (Option<TokenRow>, Outcome) {
    var judged := Judge(row, now);
    if judged.Some? then (row, judged.value)
    else
      match answer
      case Refreshed(access, replacement, expiresIn) =>
        (Some(TokenRow(access, replacement.GetOr(row.value.refresh), ExpiryAfter(later, expiresIn), None)),
         Usable(access))
      case GrantRevoked => (Some(row.value.(invalidAt := Some(later))), SignInRevoked)
      case Transient => (row, Failed)
  }

  /**
   * After a refresh answered at `later`, a read at `t` returns the new token without another request
   * exactly while more than five minutes of its life remain; the life counts as at least a minute.
   */
  lemma RefreshedTokenIsReused(
    row: Option<TokenRow>, now: Time, access: Token, replacement: Option<Token>, expiresIn: int, later: Time, t: Time
  )
    requires Judge(row, now).None?
    ensures var after := Solo(row, now, Refreshed(access, replacement, expiresIn), later).0;
            && (Judge(after, t) == Some(Usable(access))
                <==> t + 300 * SECOND < later + 60 * SECOND || t + 300 * SECOND < later + expiresIn * SECOND)
            && (Judge(after, t).None? ==> after.value.refresh == replacement.GetOr(row.value.refresh))
  {
  }

  /** Good for more than five minutes, and not revoked. */
  predicate IsGood(r: TokenRow, now: Time) {
    r.invalidAt.None? && r.expiresAt - now > 300 * SECOND
  }

  /** What a lone call leaves and returns, case by case. */
  lemma LoneCallTells(row: Option<TokenRow>, now: Time, answer: Answer, later: Time)
    ensures var after, outcome := Solo(row, now, answer, later).0, Solo(row, now, answer, later).1;
            && (row.None? ==> after.None? && outcome == NotFound)
            && (row.Some? && row.value.invalidAt.Some? ==> after == row && outcome == SignInRevoked)
            && (row.Some? && IsGood(row.value, now) ==> after == row && outcome == Usable(row.value.access))
            && (row.Some? && row.value.invalidAt.None? && !IsGood(row.value, now) ==>
                  && (answer == GrantRevoked ==>
                        after == Some(row.value.(invalidAt := Some(later))) && outcome == SignInRevoked)
                  && (answer == Transient ==> after == row && outcome == Failed)
                  && (answer.Refreshed? ==>
                        && outcome == Usable(answer.access)
                        && after.Some? && after.value.access == answer.access && after.value.invalidAt.None?
                        && after.value.refresh
                           == (if answer.replacement.Some? then answer.replacement.value else row.value.refresh)
                        && after.value.expiresAt
                           == later + (if answer.expiresIn < 60 then 60 else answer.expiresIn) * SECOND))
  {
  }

  class Channel {
    var row: Option<TokenRow>

    constructor (row: Option<TokenRow>)
      ensures this.row == row
    {
      this.row := row;
    }

    /** `valid_access_token` with its two reads at `now` and the answer arriving at `later`. */
    method ValidAccessToken(now: Time, answer: Answer, later: Time) returns (outcome: Outcome)
      modifies this
      ensures (row, outcome) == Solo(old(row), now, answer, later)
    {
      if row.None? {
        return NotFound;
      }
      if row.value.invalidAt.Some? {
        return SignInRevoked;
      }
      if !NeedsRefresh(row.value.expiresAt, now) {
        return Usable(row.value.access);
      }
      var refresh := row.value.refresh;
      match answer {
        case GrantRevoked =>
          if row.value.invalidAt.None? {
            row := Some(row.value.(invalidAt := Some(later)));
          }
          return SignInRevoked;
        case Transient =>
          return Failed;
        case Refreshed(access, replacement, expiresIn) =>
          var newRefresh := if replacement.Some? then replacement.value else refresh;
          row := Some(row.value.(access := access, refresh := newRefresh, expiresAt := ExpiryAfter(later, expiresIn)));
          return Usable(access);
      }
    }
  }

  // ------------------------------------------------------------------------ interleaved callers

  datatype Pc =
    | Idle
    | Waiting
    | Locked
    | Ready(refresh: Token)
    | InFlight(refresh: Token)
    | Granted(access: Token, refresh: Token, expiresAt: Time)
    | Refused
    | Done(outcome: Outcome)

  /** The row, the advisory lock, where each caller is, and the provider's books. */
  datatype System = System(
    row: Option<TokenRow>,
    holder: Option<int>,
    callers: map<int, Pc>,
    issued: set<Token>,
    retired: set<Token>
  )

  datatype Event =
    | FastRead(c: int, now: Time)
    | Acquire(c: int)
    | Reread(c: int, now: Time)
    | Send(c: int)
    | Respond(c: int, answer: Answer, now: Time)
    | Commit(c: int, now: Time)
    | Reconnect(newAccess: Token, newRefresh: Token, expiry: Time)

  function PcOf(s: System, c: int): Pc {
    if c in s.callers then s.callers[c] else Idle
  }

  predicate Holds(pc: Pc) {
    pc.Locked? || pc.Ready? || pc.InFlight? || pc.Granted? || pc.Refused?
  }

  /** New refresh tokens, replacement or reconnect, were never issued before. */
  predicate Enabled(s: System, e: Event) {
    match e
    case FastRead(c, _) => PcOf(s, c).Idle? || PcOf(s, c).Done?
    case Acquire(c) => PcOf(s, c).Waiting? && s.holder.None?
    case Reread(c, _) => PcOf(s, c).Locked?
    case Send(c) => PcOf(s, c).Ready?
    case Respond(c, answer, _) =>
      && PcOf(s, c).InFlight?
      && (answer.Refreshed? && answer.replacement.Some? ==> answer.replacement.value !in s.issued)
    case Commit(c, _) => PcOf(s, c).Granted? || PcOf(s, c).Refused?
    case Reconnect(_, refresh, _) => refresh !in s.issued
  }

  function At(s: System, c: int, pc: Pc): System {
    s.(callers := s.callers[c := pc])
  }

  function Released(s: System, c: int, outcome: Outcome): System {
    At(s, c, Done(outcome)).(holder := None)
  }

  function AfterAnswer(s: System, c: int, sent: Token, answer: Answer, now: Time): System {
    match answer
    case Transient => Released(s, c, Failed)
    case GrantRevoked => At(s, c, Refused)
    case Refreshed(access, replacement, expiresIn) =>
      var granted := At(s, c, Granted(access, replacement.GetOr(sent), ExpiryAfter(now, expiresIn)));
      if replacement.None? then granted
      else granted.(issued := s.issued + {replacement.value}, retired := s.retired + {sent})
  }

  function AfterCommit(s: System, c: int, pc: Pc, now: Time): System
    requires pc.Granted? || pc.Refused?
  {
    if pc.Granted? then
      var row := if s.row.None? then None
                 else Some(s.row.value.(access := pc.access, refresh := pc.refresh, expiresAt := pc.expiresAt));
      Released(s.(row := row), c, Usable(pc.access))
    else
      var row := if s.row.None? || s.row.value.invalidAt.Some? then s.row
                 else Some(s.row.value.(invalidAt := Some(now)));
      Released(s.(row := row), c, SignInRevoked)
  }

  function Next(s: System, e: Event): System
    requires Enabled(s, e)
  {
    match e
    case FastRead(c, now) =>
      var judged := Judge(s.row, now);
      At(s, c, if judged.Some? then Done(judged.value) else Waiting)
    case Acquire(c) => At(s, c, Locked).(holder := Some(c))
    case Reread(c, now) =>
      var judged := Judge(s.row, now);
      if judged.Some? then Released(s, c, judged.value) else At(s, c, Ready(s.row.value.refresh))
    case Send(c) => At(s, c, InFlight(PcOf(s, c).refresh))
    case Respond(c, answer, now) => AfterAnswer(s, c, PcOf(s, c).refresh, answer, now)
    case Commit(c, now) => AfterCommit(s, c, PcOf(s, c), now)
    case Reconnect(access, refresh, expiry) =>
      s.(row := Some(TokenRow(access, refresh, expiry, None)), issued := s.issued + {refresh})
  }

  /** The system after the first `k` events, if each was possible. */
  function LoneRun(s: System, events: seq<Event>, k: nat): Option<System>
    requires k <= |events|
  {
    if k == 0 then Some(s)
    else
      var before := LoneRun(s, events, k - 1);
      if before.Some? && Enabled(before.value, events[k - 1]) then Some(Next(before.value, events[k - 1])) else None
  }

  // ------------------------------------------------------------------------------- invariant

  predicate LockedRight(s: System, c: int) {
    Holds(PcOf(s, c)) <==> s.holder == Some(c)
  }

  /** The tokens a caller may still send or store are live. */
  predicate TokensLive(s: System, c: int) {
    var pc := PcOf(s, c);
    pc.Ready? || pc.InFlight? || pc.Granted? ==> pc.refresh in s.issued && pc.refresh !in s.retired
  }

  /** Past the re-read, with the lock. */
  predicate Refreshing(s: System, c: int) {
    Holds(PcOf(s, c)) && !PcOf(s, c).Locked?
  }

  predicate Stamped(s: System) {
    s.row.Some? && s.row.value.invalidAt.Some?
  }

  /** Without a row, or with a stamped one, nobody gets past the re-read. */
  predicate Barred(s: System) {
    s.row.None? || Stamped(s)
  }

  /** A replacement has been granted but not stored yet. */
  predicate Committing(s: System) {
    s.holder.Some? && PcOf(s, s.holder.value).Granted?
  }

  ghost predicate Safe(s: System) {
    && (forall c: int :: LockedRight(s, c))
    && (forall c: int :: TokensLive(s, c))
    && (Barred(s) ==> forall c: int :: !Refreshing(s, c))
    && s.retired <= s.issued
    && (s.row.Some? ==> s.row.value.refresh in s.issued)
    && (s.row.Some? && !Committing(s) ==> s.row.value.refresh !in s.retired)
  }

  predicate Fresh(s: System) {
    && s.holder.None? && s.callers == map[] && s.retired == {}
    && (s.row.Some? ==> s.row.value.refresh in s.issued)
  }

  lemma StepKeepsCaller(s: System, e: Event, d: int)
    requires Safe(s) && Enabled(s, e)
    ensures LockedRight(Next(s, e), d) && TokensLive(Next(s, e), d)
    ensures Barred(Next(s, e)) ==> !Refreshing(Next(s, e), d)
  {
    assert LockedRight(s, d) && TokensLive(s, d) && (Barred(s) ==> !Refreshing(s, d));
    if !e.Reconnect? {
      assert LockedRight(s, e.c) && TokensLive(s, e.c) && (Barred(s) ==> !Refreshing(s, e.c));
    }
  }

  lemma StepKeepsBooks(s: System, e: Event)
    requires Safe(s) && Enabled(s, e)
    ensures var t := Next(s, e);
            && t.retired <= t.issued
            && (t.row.Some? ==> t.row.value.refresh in t.issued)
            && (t.row.Some? && !Committing(t) ==> t.row.value.refresh !in t.retired)
  {
    if !e.Reconnect? {
      assert LockedRight(s, e.c) && TokensLive(s, e.c);
    }
  }

  lemma StepIsSafe(s: System, e: Event)
    requires Safe(s) && Enabled(s, e)
    ensures Safe(Next(s, e))
  {
    StepKeepsBooks(s, e);
    forall d: int
      ensures LockedRight(Next(s, e), d) && TokensLive(Next(s, e), d)
      ensures Barred(Next(s, e)) ==> !Refreshing(Next(s, e), d)
    {
      StepKeepsCaller(s, e, d);
    }
  }

  // ------------------------------------------------------------------------------------ runs

  predicate Moves(states: seq<System>, events: seq<Event>, i: nat)
    requires i < |events| < |states|
  {
    Enabled(states[i], events[i]) && states[i + 1] == Next(states[i], events[i])
  }

  predicate IsRun(states: seq<System>, events: seq<Event>) {
    && |states| == |events| + 1
    && Fresh(states[0])
    && forall i | 0 <= i < |events| :: Moves(states, events, i)
  }

  lemma {:induction false} RunIsSafe(states: seq<System>, events: seq<Event>, k: nat)
    requires IsRun(states, events) && k <= |events|
    ensures Safe(states[k])
  {
    if k == 0 {
      assert forall c: int :: PcOf(states[0], c) == Idle;
      assert forall c: int :: LockedRight(states[0], c) && TokensLive(states[0], c) && !Refreshing(states[0], c);
    } else {
      RunIsSafe(states, events, k - 1);
      assert Moves(states, events, k - 1);
      StepIsSafe(states[k - 1], events[k - 1]);
    }
  }

  /** At most one refresh is in flight, at every point of every interleaving. */
  lemma AtMostOneInFlight(states: seq<System>, events: seq<Event>, k: nat, c: int, d: int)
    requires IsRun(states, events) && k <= |events|
    requires PcOf(states[k], c).InFlight? && PcOf(states[k], d).InFlight?
    ensures c == d
  {
    RunIsSafe(states, events, k);
    assert LockedRight(states[k], c) && LockedRight(states[k], d);
  }

  lemma {:induction false} RetiredStaysRetired(states: seq<System>, events: seq<Event>, i: nat, j: nat, t: Token)
    requires IsRun(states, events) && i <= j <= |events| && t in states[i].retired
    ensures t in states[j].retired
    decreases j - i
  {
    if i < j {
      RetiredStaysRetired(states, events, i, j - 1, t);
      assert Moves(states, events, j - 1);
    }
  }

  /** A refresh token that bought a replacement is never sent again, by anyone. */
  lemma SpentTokenIsNeverSentAgain(states: seq<System>, events: seq<Event>, i: nat, j: nat)
    requires IsRun(states, events) && i < j < |events|
    requires events[i].Respond? && events[i].answer.Refreshed? && events[i].answer.replacement.Some?
    requires events[j].Send? && PcOf(states[i], events[i].c).InFlight? && PcOf(states[j], events[j].c).Ready?
    ensures PcOf(states[j], events[j].c).refresh != PcOf(states[i], events[i].c).refresh
  {
    assert Moves(states, events, i);
    RetiredStaysRetired(states, events, i + 1, j, PcOf(states[i], events[i].c).refresh);
    RunIsSafe(states, events, j);
    assert TokensLive(states[j], events[j].c);
  }

  lemma {:induction false} StampStays(states: seq<System>, events: seq<Event>, i: nat, j: nat)
    requires IsRun(states, events) && i <= j <= |events| && Stamped(states[i])
    requires forall k | i <= k < j :: !events[k].Reconnect?
    ensures Stamped(states[j])
    decreases j - i
  {
    if i < j {
      StampStays(states, events, i, j - 1);
      assert Moves(states, events, j - 1);
    }
  }

  /** Once a refusal is stamped nothing is sent for the channel until a reconnect. */
  lemma NothingIsSentWhileRevoked(states: seq<System>, events: seq<Event>, i: nat, j: nat)
    requires IsRun(states, events) && i < j < |events|
    requires events[i].Commit? && PcOf(states[i], events[i].c).Refused? && states[i].row.Some?
    requires forall k | i < k <= j :: !events[k].Reconnect?
    ensures !events[j].Send?
    ensures events[j].FastRead? ==> PcOf(states[j + 1], events[j].c) == Done(SignInRevoked)
  {
    assert Moves(states, events, i);
    assert Moves(states, events, j);
    StampStays(states, events, i + 1, j);
    RunIsSafe(states, events, j);
    var d := if events[j].Send? then events[j].c else 0;
    assert !Refreshing(states[j], d);
  }

  lemma {:induction false} OnlyCommitsAndReconnectsWrite(states: seq<System>, events: seq<Event>, i: nat, j: nat)
    requires IsRun(states, events) && i <= j <= |events|
    requires forall k | i <= k < j :: !events[k].Commit? && !events[k].Reconnect?
    ensures states[j].row == states[i].row
    decreases j - i
  {
    if i < j {
      OnlyCommitsAndReconnectsWrite(states, events, i, j - 1);
      assert Moves(states, events, j - 1);
    }
  }

  /**
   * A caller whose re-read is the next to see what another one committed returns that token and
   * sends nothing, exactly while more than five minutes of it remain; else it refreshes the new
   * refresh token, not the one it waited for.
   */
  lemma WaiterUsesTheCommittedToken(states: seq<System>, events: seq<Event>, i: nat, j: nat)
    requires IsRun(states, events) && i < j < |events|
    requires events[i].Commit? && PcOf(states[i], events[i].c).Granted? && events[j].Reread?
    requires forall k | i < k < j :: !events[k].Commit? && !events[k].Reconnect?
    ensures var granted := PcOf(states[i], events[i].c);
            PcOf(states[j + 1], events[j].c)
            == if events[j].now + REFRESH_SKEW < granted.expiresAt then Done(Usable(granted.access))
               else Ready(granted.refresh)
  {
    RunIsSafe(states, events, i);
    assert Moves(states, events, i);
    assert Refreshing(states[i], events[i].c);
    OnlyCommitsAndReconnectsWrite(states, events, i + 1, j);
    assert Moves(states, events, j);
  }

  // --------------------------------------------- whose sign-in a refresh ends up writing

  predicate Reconnected(events: seq<Event>, i: nat, j: nat)
    requires j <= |events|
  {
    exists k | i <= k < j :: events[k].Reconnect?
  }

  /** The refresh token a caller is about to send, has in flight, or is about to store. */
  function Carried(pc: Pc): Option<Token> {
    if pc.Ready? || pc.InFlight? || pc.Granted? then Some(pc.refresh) else None
  }

  predicate Sends(states: seq<System>, events: seq<Event>, t: Token, m: nat)
    requires m < |events| < |states|
  {
    events[m].Send? && Carried(PcOf(states[m], events[m].c)) == Some(t)
  }

  /** None of the first `k` steps sends the token. */
  predicate NeverSent(states: seq<System>, events: seq<Event>, t: Token, k: nat)
    requires k <= |events| < |states|
  {
    forall m | 0 <= m < k :: !Sends(states, events, t, m)
  }

  lemma {:induction false} IssuedStaysIssued(states: seq<System>, events: seq<Event>, i: nat, j: nat, t: Token)
    requires IsRun(states, events) && i <= j <= |events| && t in states[i].issued
    ensures t in states[j].issued
    decreases j - i
  {
    if i < j {
      IssuedStaysIssued(states, events, i, j - 1, t);
      assert Moves(states, events, j - 1);
    }
  }

  /** A token not issued yet has not been sent yet. */
  lemma UnissuedWasNeverSent(states: seq<System>, events: seq<Event>, k: nat, t: Token)
    requires IsRun(states, events) && k <= |events| && t !in states[k].issued
    ensures NeverSent(states, events, t, k)
  {
    forall m | 0 <= m < k ensures !Sends(states, events, t, m) {
      RunIsSafe(states, events, m);
      if Sends(states, events, t, m) {
        assert TokensLive(states[m], events[m].c);
        IssuedStaysIssued(states, events, m, k, t);
        assert false;
      }
    }
  }

  /** Nobody but the lock's holder carries a token. */
  lemma OnlyHolderCarries(s: System, c: int, d: int)
    requires Safe(s) && Refreshing(s, c) && d != c
    ensures !Holds(PcOf(s, d))
  {
    assert LockedRight(s, c) && LockedRight(s, d);
  }

  /**
   * While a caller refreshes, the stored row is the one it met, untouched, exactly until someone
   * reconnects; from then on it holds a sign-in whose token nobody has sent and the caller does not
   * carry.
   */
  lemma {:induction false} RowChangesExactlyOnReconnect(states: seq<System>, events: seq<Event>, c: int, i: nat, j: nat)
    requires IsRun(states, events) && i <= j <= |events|
    requires forall k | i <= k <= j :: Refreshing(states[k], c)
    ensures states[i].row.Some? && states[j].row.Some?
    ensures states[j].row.value.refresh == states[i].row.value.refresh <==> !Reconnected(events, i, j)
    ensures !Reconnected(events, i, j) ==> states[j].row == states[i].row
    ensures Reconnected(events, i, j) ==>
              && NeverSent(states, events, states[j].row.value.refresh, j)
              && Carried(PcOf(states[j], c)) != Some(states[j].row.value.refresh)
    decreases j - i
  {
    RunIsSafe(states, events, i);
    if i < j {
      RowChangesExactlyOnReconnect(states, events, c, i, j - 1);
      RunIsSafe(states, events, j - 1);
      assert Moves(states, events, j - 1);
      assert LockedRight(states[j - 1], c) && TokensLive(states[j - 1], c);
      var e := events[j - 1];
      if e.Reconnect? {
        assert Reconnected(events, i, j);
        IssuedStaysIssued(states, events, i, j - 1, states[i].row.value.refresh);
        UnissuedWasNeverSent(states, events, j - 1, e.newRefresh);
      } else {
        assert Reconnected(events, i, j) <==> Reconnected(events, i, j - 1);
        if e.c != c {
          OnlyHolderCarries(states[j - 1], c, e.c);
        }
      }
    }
  }

  /** From its re-read on a caller carries and sends the token it read, until the answer. */
  lemma {:induction false} CallerSendsWhatItRead(states: seq<System>, events: seq<Event>, c: int, i: nat, k: nat)
    requires IsRun(states, events) && i < k <= |events| && events[i].Reread? && events[i].c == c
    requires forall m | i < m <= k :: Refreshing(states[m], c)
    ensures states[i].row.Some?
    ensures PcOf(states[k], c).Ready? || PcOf(states[k], c).InFlight? ==>
              PcOf(states[k], c).refresh == states[i].row.value.refresh
    ensures !PcOf(states[k], c).Ready? ==>
              exists m | i < m < k :: Sends(states, events, states[i].row.value.refresh, m)
    decreases k
  {
    assert Moves(states, events, k - 1);
    if k > i + 1 {
      CallerSendsWhatItRead(states, events, c, i, k - 1);
      RunIsSafe(states, events, k - 1);
      var e := events[k - 1];
      if !e.Reconnect? && e.c != c {
        OnlyHolderCarries(states[k - 1], c, e.c);
      }
      if e == Send(c) {
        assert Sends(states, events, states[i].row.value.refresh, k - 1);
      }
    }
  }

  /** A caller's whole refresh: from its re-read at step `i` to its commit at step `j`. */
  predicate IsRefresh(states: seq<System>, events: seq<Event>, c: int, i: nat, j: nat)
    requires |events| < |states|
  {
    && i < j < |events|
    && events[i].Reread? && events[i].c == c && events[j].Commit? && events[j].c == c
    && forall k | i < k <= j :: Refreshing(states[k], c)
  }

  /**
   * A refusal stamps the sign-in it was about exactly when nobody reconnected in between; otherwise
   * it stamps a sign-in whose token was never sent.
   */
  lemma RefusalStampsItsOwnSignIn(states: seq<System>, events: seq<Event>, c: int, i: nat, j: nat)
    requires IsRun(states, events) && IsRefresh(states, events, c, i, j) && PcOf(states[j], c).Refused?
    ensures states[i].row.Some? && Stamped(states[j + 1])
    ensures states[j + 1].row.value.refresh == states[i].row.value.refresh <==> !Reconnected(events, i, j)
    ensures NeverSent(states, events, states[j + 1].row.value.refresh, j + 1) <==> Reconnected(events, i, j)
  {
    RowOverARefresh(states, events, c, i, j);
    CallerSendsWhatItRead(states, events, c, i, j);
    RunIsSafe(states, events, j);
    assert Moves(states, events, j);
    if !Reconnected(events, i, j) {
      var m :| i < m < j && Sends(states, events, states[i].row.value.refresh, m);
    }
  }

  lemma RowOverARefresh(states: seq<System>, events: seq<Event>, c: int, i: nat, j: nat)
    requires IsRun(states, events) && IsRefresh(states, events, c, i, j)
    ensures states[i].row.Some? && states[j].row.Some?
    ensures states[j].row.value.refresh == states[i].row.value.refresh <==> !Reconnected(events, i, j)
    ensures !Reconnected(events, i, j) ==> states[j].row == states[i].row
    ensures Reconnected(events, i, j) ==>
              && NeverSent(states, events, states[j].row.value.refresh, j)
              && Carried(PcOf(states[j], c)) != Some(states[j].row.value.refresh)
  {
    assert Moves(states, events, i);
    RowChangesExactlyOnReconnect(states, events, c, i + 1, j);
    assert Reconnected(events, i, j) <==> Reconnected(events, i + 1, j);
  }

  /** The token is known to the provider, but stored nowhere and carried by nobody. */
  ghost predicate Lost(s: System, t: Token) {
    && t in s.issued
    && (s.row.Some? ==> s.row.value.refresh != t)
    && forall c: int :: Carried(PcOf(s, c)) != Some(t)
  }

  lemma {:induction false} LostStaysLost(states: seq<System>, events: seq<Event>, i: nat, j: nat, t: Token)
    requires IsRun(states, events) && i <= j <= |events| && Lost(states[i], t) && NeverSent(states, events, t, i)
    ensures Lost(states[j], t) && NeverSent(states, events, t, j)
    decreases j - i
  {
    if i < j {
      LostStaysLost(states, events, i, j - 1, t);
      assert Moves(states, events, j - 1);
      forall c: int ensures Carried(PcOf(states[j], c)) != Some(t) {
        assert Carried(PcOf(states[j - 1], c)) != Some(t);
      }
    }
  }

  /**
   * A granted refresh replaces the sign-in it was made for exactly when nobody reconnected in
   * between; otherwise it overwrites the new sign-in, whose token is lost: never sent, before or
   * after, and never stored again.
   */
  lemma GrantReplacesItsOwnSignIn(states: seq<System>, events: seq<Event>, c: int, i: nat, j: nat, later: nat)
    requires IsRun(states, events) && IsRefresh(states, events, c, i, j) && PcOf(states[j], c).Granted?
    requires j < later <= |events|
    ensures states[i].row.Some? && states[j].row.Some? && states[j + 1].row.Some?
    ensures states[j + 1].row.value.access == PcOf(states[j], c).access
    ensures states[j + 1].row.value.refresh == PcOf(states[j], c).refresh
    ensures states[j].row.value.refresh == states[i].row.value.refresh <==> !Reconnected(events, i, j)
    ensures Reconnected(events, i, j) ==>
              && Lost(states[later], states[j].row.value.refresh)
              && NeverSent(states, events, states[j].row.value.refresh, later)
  {
    RowOverARefresh(states, events, c, i, j);
    RunIsSafe(states, events, j);
    assert Moves(states, events, j);
    var t := states[j].row.value.refresh;
    if Reconnected(events, i, j) {
      var after := states[j + 1];
      forall d: int ensures Carried(PcOf(after, d)) != Some(t) {
        if d != c {
          OnlyHolderCarries(states[j], c, d);
        }
      }
      assert Lost(after, t) && NeverSent(states, events, t, j + 1);
      LostStaysLost(states, events, j + 1, later, t);
    }
  }

  lemma {:induction false} PlayedIsRun(s: System, events: seq<Event>, k: nat) returns (states: seq<System>)
    requires Fresh(s) && k <= |events| && LoneRun(s, events, k).Some?
    ensures IsRun(states, events[..k]) && states[0] == s && states[k] == LoneRun(s, events, k).value
  {
    if k == 0 {
      states := [s];
    } else {
      var before := PlayedIsRun(s, events, k - 1);
      states := before + [LoneRun(s, events, k).value];
      forall i | 0 <= i < k ensures Moves(states, events[..k], i) {
        if i < k - 1 {
          assert Moves(before, events[..k - 1], i);
        }
      }
    }
  }

  const EXPIRED: System := System(Some(TokenRow(10, 1, 0, None)), None, map[], {1}, {})

  /** One caller refreshes an expired row; the streamer reconnects before the answer. */
  function ReconnectInFlight(answer: Answer): seq<Event> {
    [FastRead(1, 0), Acquire(1), Reread(1, 0), Send(1), Reconnect(20, 2, HOUR), Respond(1, answer, 0), Commit(1, 0)]
  }

  lemma ReconnectInFlightEnds(answer: Answer)
    requires answer == GrantRevoked || answer == Refreshed(30, Some(3), 60)
    ensures LoneRun(EXPIRED, ReconnectInFlight(answer), 7).Some?
    ensures LoneRun(EXPIRED, ReconnectInFlight(answer), 7).value.row
         == Some(if answer.GrantRevoked? then TokenRow(20, 2, HOUR, Some(0))
                 else TokenRow(30, 3, ExpiryAfter(0, 60), None))
  {
    var events := ReconnectInFlight(answer);
    var s1 := Next(EXPIRED, events[0]);
    var s2 := Next(s1, events[1]);
    var s3 := Next(s2, events[2]);
    var s4 := Next(s3, events[3]);
    assert LoneRun(EXPIRED, events, 1) == Some(s1);
    assert LoneRun(EXPIRED, events, 2) == Some(s2);
    assert LoneRun(EXPIRED, events, 3) == Some(s3);
    assert LoneRun(EXPIRED, events, 4) == Some(s4);
    var s5 := Next(s4, events[4]);
    assert LoneRun(EXPIRED, events, 5) == Some(s5);
    var s6 := Next(s5, events[5]);
    assert LoneRun(EXPIRED, events, 6) == Some(s6);
  }

  /** Both happen: a run from an idle system that stamps a new sign-in, and one that overwrites it. */
  lemma LateAnswersHitTheNewSignIn()
    ensures exists states: seq<System> ::
              IsRun(states, ReconnectInFlight(GrantRevoked)) && states[0] == EXPIRED
              && states[7].row == Some(TokenRow(20, 2, HOUR, Some(0)))
    ensures exists states: seq<System> ::
              IsRun(states, ReconnectInFlight(Refreshed(30, Some(3), 60))) && states[0] == EXPIRED
              && states[7].row == Some(TokenRow(30, 3, ExpiryAfter(0, 60), None))
  {
    var refused, granted := ReconnectInFlight(GrantRevoked), ReconnectInFlight(Refreshed(30, Some(3), 60));
    ReconnectInFlightEnds(GrantRevoked);
    ReconnectInFlightEnds(Refreshed(30, Some(3), 60));
    var a := PlayedIsRun(EXPIRED, refused, 7);
    var b := PlayedIsRun(EXPIRED, granted, 7);
    assert refused[..7] == refused && granted[..7] == granted;
  }

  // ------------------------------------------------------- the method is the lone caller's run

  /** The steps one caller takes with nobody else around. */
  function LoneEvents(row: Option<TokenRow>, c: int, now: Time, answer: Answer, later: Time): seq<Event> {
    if Judge(row, now).Some? then [FastRead(c, now)]
    else
      [FastRead(c, now), Acquire(c), Reread(c, now), Send(c), Respond(c, answer, later)]
      + if answer.Transient? then [] else [Commit(c, later)]
  }

  lemma LoneCallerFollowsTheMethod(s: System, c: int, now: Time, answer: Answer, later: Time)
    requires s.holder.None? && PcOf(s, c).Idle?
    requires answer.Refreshed? && answer.replacement.Some? ==> answer.replacement.value !in s.issued
    ensures var events := LoneEvents(s.row, c, now, answer, later);
            var end := LoneRun(s, events, |events|);
            var solo := Solo(s.row, now, answer, later);
            end.Some? && end.value.row == solo.0 && PcOf(end.value, c) == Done(solo.1)
  {
    var events := LoneEvents(s.row, c, now, answer, later);
    assert LoneRun(s, events, 1) == Some(Next(s, FastRead(c, now)));
    if Judge(s.row, now).None? {
      var s1 := Next(s, FastRead(c, now));
      var s2 := Next(s1, Acquire(c));
      var s3 := Next(s2, Reread(c, now));
      var s4 := Next(s3, Send(c));
      assert LoneRun(s, events, 2) == Some(s2);
      assert LoneRun(s, events, 3) == Some(s3);
      assert LoneRun(s, events, 4) == Some(s4);
      var s5 := Next(s4, Respond(c, answer, later));
      assert LoneRun(s, events, 5) == Some(s5);
    }
  }
  // ------------------------------------------------------------------ what each caller is told

  /** In every run a read returns a good token, reports a revoked or missing sign-in, and else goes on to refresh. */
  lemma ReadsTellTheRow(states: seq<System>, events: seq<Event>, j: nat)
    requires IsRun(states, events) && j < |events| && (events[j].FastRead? || events[j].Reread?)
    ensures var row, now, pc := states[j].row, events[j].now, PcOf(states[j + 1], events[j].c);
            && states[j + 1].row == row
            && (row.None? ==> pc == Done(NotFound))
            && (row.Some? && row.value.invalidAt.Some? ==> pc == Done(SignInRevoked))
            && (row.Some? && IsGood(row.value, now) ==> pc == Done(Usable(row.value.access)))
            && (row.Some? && row.value.invalidAt.None? && !IsGood(row.value, now) ==>
                  pc == if events[j].FastRead? then Waiting else Ready(row.value.refresh))
  {
    assert Moves(states, events, j);
  }

  /** In every run an answer that settles nothing fails its caller, leaves the row and frees the lock. */
  lemma TransientAnswersChangeNothing(states: seq<System>, events: seq<Event>, j: nat)
    requires IsRun(states, events) && j < |events| && events[j].Respond? && events[j].answer == Transient
    ensures states[j + 1].row == states[j].row && states[j + 1].holder.None?
    ensures PcOf(states[j + 1], events[j].c) == Done(Failed)
    ensures states[j + 1].issued == states[j].issued && states[j + 1].retired == states[j].retired
  {
    assert Moves(states, events, j);
  }
}

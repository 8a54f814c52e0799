/**
 * Cursor pagination of the users API: pages over a table that may change between requests, each
 * ordered by Discord id, one row over-fetched to tell whether there is more.
 */
module Paging {
  import opened Wrappers
  import opened Facts
  import opened Ascending

  const DEFAULT_LIMIT: int := 100
  const MAX_LIMIT: int := 500

  datatype RelationFilter = Follower | Subscriber | Vip | Og | Moderator {
    function AsStr(): string {
      match this
      case Follower => "follower"
      case Subscriber => "subscriber"
      case Vip => "vip"
      case Og => "og"
      case Moderator => "moderator"
    }
  }

  /** `parse_relation`. */
  function ParseRelation(raw: Option<string>): Result<Option<RelationFilter>, ()> {
    match raw
    case None => Ok(None)
    case Some(s) =>
      if s == "follower" then Ok(Some(Follower))
      else if s == "subscriber" then Ok(Some(Subscriber))
      else if s == "vip" then Ok(Some(Vip))
      else if s == "og" then Ok(Some(Og))
      else if s == "moderator" then Ok(Some(Moderator))
      else Err(())
  }

  lemma RelationWordsRoundTrip(raw: Option<string>, f: RelationFilter)
    ensures ParseRelation(raw) == Ok(Some(f)) <==> raw == Some(f.AsStr())
    ensures ParseRelation(raw) == Ok(None) <==> raw == None
  {
  }

  /** A linked account and when it was last refreshed; a relation row and when it was last synced. */
  datatype Account = Account(kickUserId: int, refreshedAt: Time)

  datatype SyncedRelation = SyncedRelation(row: Relation, lastSyncedAt: Time)

  /** What one request reads: the guild's members and channels, the linked accounts, their relations. */
  datatype Snapshot = Snapshot(
    members: set<int>,
    channels: set<int>,
    accounts: map<int, Account>,
    relations: map<(int, int), SyncedRelation>
  )

  datatype Filter = Filter(updatedSince: Option<Time>, relation: Option<RelationFilter>)

  predicate HasFlag(r: Relation, f: RelationFilter) {
    match f
    case Follower => r.isFollower
    case Subscriber => r.isSubscriber
    case Vip => r.isVip
    case Og => r.isOg
    case Moderator => r.isModerator
  }

  /** The HAVING clause: relations are collapsed over every channel of the guild. */
  predicate Matches(t: Snapshot, f: Filter, d: int) {
    && d in t.members && d in t.accounts
    && (f.updatedSince.Some? ==>
          || t.accounts[d].refreshedAt >= f.updatedSince.value
          || exists c | c in t.channels && (c, t.accounts[d].kickUserId) in t.relations ::
               t.relations[(c, t.accounts[d].kickUserId)].lastSyncedAt >= f.updatedSince.value)
    && (f.relation.Some? ==>
          exists c | c in t.channels && (c, t.accounts[d].kickUserId) in t.relations ::
            HasFlag(t.relations[(c, t.accounts[d].kickUserId)].row, f.relation.value))
  }

  function Matching(t: Snapshot, f: Filter): set<int> {
    set d | d in t.members && Matches(t, f, d)
  }

  predicate IsPast(d: int, cursor: Option<int>) {
    cursor.Some? ==> d > cursor.value
  }

  function Remaining(all: set<int>, cursor: Option<int>): set<int> {
    set d | d in all && IsPast(d, cursor)
  }

  datatype Page = Page(users: seq<int>, nextCursor: Option<int>)

  function PageSize(limit: Option<int>): (n: nat)
    ensures 1 <= n <= MAX_LIMIT
  {
    var asked := limit.GetOr(DEFAULT_LIMIT);
    if asked < 1 then 1 else if asked > MAX_LIMIT then MAX_LIMIT else asked
  }

  /** One page: the lowest ids past the cursor; a cursor to go on from exactly when some are left over. */
  function PageOf(all: set<int>, cursor: Option<int>, size: nat): (p: Page)
    requires size >= 1
  {
    var left := Remaining(all, cursor);
    var users := Lowest(left, size);
    Page(users, if |left| > size then Some(users[size - 1]) else None)
  }

  /** `list_users`: over-fetch by one, truncate, take the last id as the cursor. */
  method ListUsers(
    t: Snapshot, limit: Option<int>, cursor: Option<int>, updatedSince: Option<Time>, relation: Option<string>
  ) returns (r: Result<Page, ()>)
    ensures r.Err? <==> ParseRelation(relation).Err?
    ensures r.Ok? ==>
              (var matching := Matching(t, Filter(updatedSince, ParseRelation(relation).value));
               r.value == PageOf(matching, cursor, PageSize(limit)))
  {
    var size := PageSize(limit);
    var parsed := ParseRelation(relation);
    if parsed.Err? {
      return Err(());
    }
    var matching := Matching(t, Filter(updatedSince, parsed.value));
    var rows := Lowest(Remaining(matching, cursor), size + 1);
    var hasMore := |rows| > size;
    if hasMore {
      rows := rows[..size];
    }
    LowestOfFewer(Remaining(matching, cursor), size);
    return Ok(Page(rows, if hasMore then Some(rows[|rows| - 1]) else None));
  }

  lemma LowestOfFewer(s: set<int>, n: nat)
    ensures Lowest(s, n) == if |Lowest(s, n + 1)| > n then Lowest(s, n + 1)[..n] else Lowest(s, n + 1)
  {
  }

  /** What a page says about the set it was cut from. */
  ghost predicate IsPage(all: set<int>, cursor: Option<int>, size: nat, p: Page) {
    && Increasing(p.users)
    && (forall d | d in p.users :: d in all && IsPast(d, cursor))
    && (p.nextCursor.Some? ==> |p.users| == size && p.users != [] && p.users[size - 1] == p.nextCursor.value)
    && (forall d | d in all && IsPast(d, cursor) && d !in p.users :: p.nextCursor.Some? && d > p.nextCursor.value)
  }

  /** The rows of the whole remainder, when they fit. */
  lemma ShortPageHoldsAll(left: set<int>, size: nat)
    requires |left| <= size
    ensures forall d | d in left :: d in Lowest(left, size)
  {
    assert Sorted(left)[..|left|] == Sorted(left);
    assert forall d | d in left :: d in Members(Sorted(left));
  }

  lemma PageOfIsPage(all: set<int>, cursor: Option<int>, size: nat)
    requires size >= 1
    ensures IsPage(all, cursor, size, PageOf(all, cursor, size))
  {
    var left := Remaining(all, cursor);
    LowestTakesTheSmallest(left, size);
    var users := Lowest(left, size);
    if |left| <= size {
      ShortPageHoldsAll(left, size);
    } else {
      assert users[size - 1] in users;
    }
  }

  // ------------------------------------------------------------------------------ walks

  function CursorBefore(pages: seq<Page>, k: nat): Option<int>
    requires k <= |pages|
  {
    if k == 0 then None else pages[k - 1].nextCursor
  }

  predicate Fetched(answers: seq<set<int>>, pages: seq<Page>, size: nat, k: nat)
    requires k < |pages| <= |answers| && size >= 1
  {
    pages[k] == PageOf(answers[k], CursorBefore(pages, k), size)
  }

  /**
   * A walk along `next_cursor`: request `k` meets whatever the filter selects from the table then,
   * and there is a next request only while there is a cursor.
   */
  predicate IsWalk(answers: seq<set<int>>, pages: seq<Page>, size: nat) {
    && size >= 1 && |pages| == |answers|
    && (forall k | 0 <= k < |pages| :: Fetched(answers, pages, size, k))
    && (forall k | 0 <= k < |pages| - 1 :: pages[k].nextCursor.Some?)
  }

  predicate IsFinished(pages: seq<Page>) {
    pages != [] && pages[|pages| - 1].nextCursor.None?
  }

  /** Everything the first `k` pages returned. */
  function Collected(pages: seq<Page>, k: nat): seq<int>
    requires k <= |pages|
  {
    if k == 0 then [] else Collected(pages, k - 1) + pages[k - 1].users
  }

  predicate EndsAt(xs: seq<int>, cursor: Option<int>) {
    xs != [] ==> cursor.Some? && xs[|xs| - 1] == cursor.value
  }

  lemma AddPage(before: seq<int>, cursor: Option<int>, all: set<int>, size: nat, p: Page)
    requires Increasing(before) && EndsAt(before, cursor) && IsPage(all, cursor, size, p)
    ensures Increasing(before + p.users)
    ensures p.nextCursor.Some? ==> EndsAt(before + p.users, p.nextCursor) && |before + p.users| == |before| + size
  {
    var both := before + p.users;
    forall i, j | 0 <= i < j < |both| ensures both[i] < both[j] {
      if i < |before| <= j {
        assert p.users[j - |before|] in p.users;
        assert before[i] <= before[|before| - 1];
      }
    }
  }

  lemma FetchedIsPage(answers: seq<set<int>>, pages: seq<Page>, size: nat, k: nat)
    requires IsWalk(answers, pages, size) && k < |pages|
    ensures IsPage(answers[k], CursorBefore(pages, k), size, pages[k])
  {
    assert Fetched(answers, pages, size, k);
    PageOfIsPage(answers[k], CursorBefore(pages, k), size);
  }

  /** No walk returns a user twice, whatever happens to the table: the ids only ever go up. */
  lemma {:induction false} WalkNeverRepeats(answers: seq<set<int>>, pages: seq<Page>, size: nat, k: nat)
    requires IsWalk(answers, pages, size) && k <= |pages|
    ensures Increasing(Collected(pages, k))
    ensures CursorBefore(pages, k).Some? ==>
              EndsAt(Collected(pages, k), CursorBefore(pages, k)) && |Collected(pages, k)| == k * size
  {
    if k > 0 {
      WalkNeverRepeats(answers, pages, size, k - 1);
      FetchedIsPage(answers, pages, size, k - 1);
      AddPage(Collected(pages, k - 1), CursorBefore(pages, k - 1), answers[k - 1], size, pages[k - 1]);
      assert k - 1 > 0 ==> pages[k - 2].nextCursor.Some?;
      assert k * size == (k - 1) * size + size;
    }
  }

  lemma {:induction false} CollectedFrom(
    answers: seq<set<int>>, pages: seq<Page>, size: nat, k: nat, universe: set<int>
  )
    requires IsWalk(answers, pages, size) && k <= |pages|
    requires forall i | 0 <= i < |answers| :: answers[i] <= universe
    ensures forall d | d in Collected(pages, k) :: d in universe
  {
    if k > 0 {
      CollectedFrom(answers, pages, size, k - 1, universe);
      FetchedIsPage(answers, pages, size, k - 1);
    }
  }

  lemma {:induction false} IncreasingCounts(xs: seq<int>, universe: set<int>)
    requires Increasing(xs) && forall x | x in xs :: x in universe
    ensures |xs| <= |universe|
    decreases |xs|
  {
    if xs != [] {
      FirstIsLeast(xs);
      assert forall x | x in xs[1..] :: x in Members(xs[1..]);
      assert xs[0] in xs;
      IncreasingCounts(xs[1..], universe - {xs[0]});
    }
  }

  /**
   * Walking terminates: of the users there ever were, every page but the last returned `size` new
   * ones, so a walk has at most |universe| / size + 1 pages.
   */
  lemma WalkTerminates(answers: seq<set<int>>, pages: seq<Page>, size: nat, universe: set<int>)
    requires IsWalk(answers, pages, size)
    requires forall i | 0 <= i < |answers| :: answers[i] <= universe
    ensures pages != [] ==> (|pages| - 1) * size <= |universe|
  {
    if |pages| > 1 {
      var k := |pages| - 1;
      assert pages[k - 1].nextCursor.Some?;
      WalkNeverRepeats(answers, pages, size, k);
      CollectedFrom(answers, pages, size, k, universe);
      IncreasingCounts(Collected(pages, k), universe);
    }
  }

  /** A user who matches at every request is still ahead of the cursor, or has been returned. */
  lemma {:induction false} MatchingUserIsAheadOrReturned(
    answers: seq<set<int>>, pages: seq<Page>, size: nat, k: nat, d: int
  )
    requires IsWalk(answers, pages, size) && k <= |pages| && forall i | 0 <= i < |answers| :: d in answers[i]
    ensures d in Collected(pages, k) || (k == 0 || (CursorBefore(pages, k).Some? && d > CursorBefore(pages, k).value))
  {
    if k > 0 {
      MatchingUserIsAheadOrReturned(answers, pages, size, k - 1, d);
      FetchedIsPage(answers, pages, size, k - 1);
    }
  }

  predicate IsOnlyAt(xs: seq<int>, x: int, i: nat) {
    i < |xs| && xs[i] == x && forall j | 0 <= j < |xs| && xs[j] == x :: j == i
  }

  /** A finished walk returns every user who matched at every request, exactly once. */
  lemma FinishedWalkReturnsEveryMatch(answers: seq<set<int>>, pages: seq<Page>, size: nat, d: int)
    requires IsWalk(answers, pages, size) && IsFinished(pages)
    requires forall i | 0 <= i < |answers| :: d in answers[i]
    ensures exists i :: IsOnlyAt(Collected(pages, |pages|), d, i)
  {
    MatchingUserIsAheadOrReturned(answers, pages, size, |pages|, d);
    WalkNeverRepeats(answers, pages, size, |pages|);
    var i := IndexOf(Collected(pages, |pages|), d);
    assert IsOnlyAt(Collected(pages, |pages|), d, i);
  }

  /** On an unchanged table the pages concatenate to the whole sorted, filtered list. */
  lemma UnchangedTableIsListedWhole(answers: seq<set<int>>, pages: seq<Page>, size: nat, all: set<int>)
    requires IsWalk(answers, pages, size) && IsFinished(pages)
    requires forall i | 0 <= i < |answers| :: answers[i] == all
    ensures Collected(pages, |pages|) == Sorted(all)
  {
    var got := Collected(pages, |pages|);
    WalkNeverRepeats(answers, pages, size, |pages|);
    CollectedFrom(answers, pages, size, |pages|, all);
    forall d | d in all ensures d in got {
      MatchingUserIsAheadOrReturned(answers, pages, size, |pages|, d);
    }
    assert forall d :: d in Members(got) <==> d in all;
    IncreasingIsUnique(got, Sorted(all));
  }
  // ------------------------------------------------------------------- what the filters mean

  /** A stored relation of the account in some channel of the guild. */
  predicate IsRelationOf(t: Snapshot, d: int, c: int) {
    d in t.accounts && c in t.channels && (c, t.accounts[d].kickUserId) in t.relations
  }

  function RelationIn(t: Snapshot, d: int, c: int): SyncedRelation
    requires IsRelationOf(t, d, c)
  {
    t.relations[(c, t.accounts[d].kickUserId)]
  }

  /** Without filters every linked member is listed. */
  lemma UnfilteredListIsTheLinked(t: Snapshot, d: int)
    ensures d in Matching(t, Filter(None, None)) <==> d in t.members && d in t.accounts
  {
  }

  predicate WordFits(word: string, r: Relation) {
    || (word == "follower" && r.isFollower)
    || (word == "subscriber" && r.isSubscriber)
    || (word == "vip" && r.isVip)
    || (word == "og" && r.isOg)
    || (word == "moderator" && r.isModerator)
  }

  /** Each relation word lists exactly the linked members with that relation in some channel of the guild. */
  lemma RelationWordsMeanTheirFlags(t: Snapshot, word: string, d: int)
    requires ParseRelation(Some(word)).Ok?
    ensures d in Matching(t, Filter(None, ParseRelation(Some(word)).value))
       <==> d in t.members && exists c :: IsRelationOf(t, d, c) && WordFits(word, RelationIn(t, d, c).row)
  {
    var f := Filter(None, ParseRelation(Some(word)).value);
    if d in Matching(t, f) {
      var c :| c in t.channels && (c, t.accounts[d].kickUserId) in t.relations
               && HasFlag(t.relations[(c, t.accounts[d].kickUserId)].row, f.relation.value);
      assert IsRelationOf(t, d, c);
    }
  }

  /** Updated since a moment: the account was refreshed, or some relation of it synced, at or after it. */
  lemma UpdatedSinceMeansTouched(t: Snapshot, since: Time, d: int)
    ensures d in Matching(t, Filter(Some(since), None))
       <==> d in t.members && d in t.accounts
            && (t.accounts[d].refreshedAt >= since
                || (exists c :: IsRelationOf(t, d, c) && RelationIn(t, d, c).lastSyncedAt >= since))
  {
    if d in Matching(t, Filter(Some(since), None)) && t.accounts[d].refreshedAt < since {
      var c :| c in t.channels && (c, t.accounts[d].kickUserId) in t.relations
               && t.relations[(c, t.accounts[d].kickUserId)].lastSyncedAt >= since;
      assert IsRelationOf(t, d, c);
    }
  }

  /** Both filters together are both filters. */
  lemma FiltersIntersect(t: Snapshot, since: Time, f: RelationFilter)
    ensures Matching(t, Filter(Some(since), Some(f)))
         == Matching(t, Filter(Some(since), None)) * Matching(t, Filter(None, Some(f)))
  {
  }

  /** A hundred to a page unless asked otherwise, never fewer than one or more than five hundred. */
  lemma PageSizesAreCapped(limit: Option<int>)
    ensures PageSize(None) == 100
    ensures limit.Some? && 1 <= limit.value <= 500 ==> PageSize(limit) == limit.value
    ensures limit.Some? && limit.value < 1 ==> PageSize(limit) == 1
    ensures limit.Some? && limit.value > 500 ==> PageSize(limit) == 500
  {
  }
  /** A page carries a cursor exactly when it leaves somebody out, and then it is full. */
  lemma CursorMeansMore(all: set<int>, cursor: Option<int>, size: nat)
    requires size >= 1
    ensures var p := PageOf(all, cursor, size);
            && (p.nextCursor.Some? <==> exists d | d in all :: IsPast(d, cursor) && d !in p.users)
            && (p.nextCursor.Some? ==> |p.users| == size)
  {
    PageOfIsPage(all, cursor, size);
    var left, users := Remaining(all, cursor), PageOf(all, cursor, size).users;
    if |left| > size {
      var d := LeftOut(left, users);
      assert d in all && IsPast(d, cursor);
    }
  }

  lemma LeftOut(s: set<int>, xs: seq<int>) returns (d: int)
    requires Increasing(xs) && |xs| < |s|
    ensures d in s && d !in xs
  {
    assert xs[..|xs|] == xs;
    IncreasingCount(xs, |xs|);
    if s - Members(xs) == {} {
      assert forall x | x in s :: x in s - Members(xs) || x in Members(xs);
      SubsetSize(s, Members(xs));
      assert false;
    }
    HasMember(s - Members(xs));
    d :| d in s - Members(xs);
  }
}

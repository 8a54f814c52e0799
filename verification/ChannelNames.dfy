/**
 * Channel slugs under renames: slugs are unique ignoring case, and a channel whose slug another
 * channel has just announced is parked on a placeholder of its own.
 */
module ChannelNames {
  import opened Wrappers
  import opened Text

  /** The name columns of a `broadcasters` row. */
  datatype Channel = Channel(slug: string, display: Option<string>)

  type Channels = map<int, Channel>

  predicate IsIdentifierChar(c: char) {
    'a' <= c <= 'z' || 'A' <= c <= 'Z' || '0' <= c <= '9' || c == '_' || c == '-' || c == '.'
  }

  /** `is_kick_identifier`. */
  predicate IsKickIdentifier(s: string) {
    s != "" && |s| <= 64 && forall i | 0 <= i < |s| :: IsIdentifierChar(s[i])
  }

  /** The codes of `a`-`z`, `A`-`Z`, `0`-`9`, underscore, dash and dot. */
  predicate IsListed(code: int) {
    97 <= code <= 122 || 65 <= code <= 90 || 48 <= code <= 57 || code == 95 || code == 45 || code == 46
  }

  /** One to sixty-four letters, digits, underscores, dashes and dots. */
  lemma IdentifiersAreListed(s: string)
    ensures IsKickIdentifier(s) <==> 1 <= |s| < 65 && forall i | 0 <= i < |s| :: IsListed(s[i] as int)
  {
    forall i | 0 <= i < |s| ensures IsIdentifierChar(s[i]) <==> IsListed(s[i] as int) {
    }
  }

  predicate SameIgnoringCase(a: string, b: string) {
    AsciiLower(a) == AsciiLower(b)
  }

  function Placeholder(id: int): string {
    "~renamed-" + IntText(id)
  }

  predicate IsTilde(slug: string) {
    slug != "" && slug[0] == '~'
  }

  predicate Apart(cs: Channels, a: int, b: int) {
    a in cs && b in cs && SameIgnoringCase(cs[a].slug, cs[b].slug) ==> a == b
  }

  predicate TildeIsOwn(cs: Channels, id: int) {
    id in cs && IsTilde(cs[id].slug) ==> cs[id].slug == Placeholder(id)
  }

  /** The unique index on `lower(kick_slug)`. */
  ghost predicate UniqueSlugs(cs: Channels) {
    forall a: int, b: int :: Apart(cs, a, b)
  }

  /** A tilde slug is only ever a row's own placeholder. */
  ghost predicate OwnPlaceholders(cs: Channels) {
    forall id: int :: TildeIsOwn(cs, id)
  }

  lemma LowerKeepsPlaceholder(id: int)
    ensures AsciiLower(Placeholder(id)) == Placeholder(id)
  {
    var p := Placeholder(id);
    forall i | 0 <= i < |p| ensures LowerChar(p[i]) == p[i] {
      if i >= 9 {
        assert p[i] == IntText(id)[i - 9];
        if id < 0 && i > 9 {
          assert IntText(id)[i - 9] == NatText(-id)[i - 10];
        }
      }
    }
    assert AsciiLower(p) == p;
  }

  lemma TildeSurvivesLower(a: string, b: string)
    requires SameIgnoringCase(a, b)
    ensures |a| == |b| && (IsTilde(a) <==> IsTilde(b))
  {
    assert |AsciiLower(a)| == |AsciiLower(b)|;
    if a != "" {
      assert AsciiLower(a)[0] == LowerChar(a[0]) && AsciiLower(b)[0] == LowerChar(b[0]);
    }
  }

  lemma PlaceholdersDiffer(a: int, b: int)
    requires SameIgnoringCase(Placeholder(a), Placeholder(b))
    ensures a == b
  {
    LowerKeepsPlaceholder(a);
    LowerKeepsPlaceholder(b);
    assert IntText(a) == Placeholder(a)[9..] && IntText(b) == Placeholder(b)[9..];
    IntTextInjective(a, b);
  }

  lemma IdentifiersAreNotTilde(s: string)
    requires IsKickIdentifier(s)
    ensures !IsTilde(s)
  {
    assert IsIdentifierChar(s[0]);
  }

  // ---------------------------------------------------------------------- the statements

  /** The UPDATE's WHERE: it writes only when a name changes. */
  predicate WouldWrite(cs: Channels, id: int, slug: string, display: Option<string>) {
    id in cs && (cs[id].slug != slug || (display.Some? && cs[id].display != display))
  }

  /** The unique index rejects the write. */
  predicate Collides(cs: Channels, id: int, slug: string, display: Option<string>) {
    && WouldWrite(cs, id, slug, display)
    && exists other | other in cs && other != id :: SameIgnoringCase(cs[other].slug, slug)
  }

  function Written(cs: Channels, id: int, slug: string, display: Option<string>): Channels {
    if WouldWrite(cs, id, slug, display)
    then cs[id := Channel(slug, if display.Some? then display else cs[id].display)] else cs
  }

  /** Every other channel on this slug moves to its placeholder. */
  function Parked(cs: Channels, id: int, slug: string): Channels {
    map other | other in cs ::
      if other != id && SameIgnoringCase(cs[other].slug, slug) then cs[other].(slug := Placeholder(other))
      else cs[other]
  }

  /** What a rename leaves behind. */
  function Renamed(cs: Channels, id: int, slug: string, display: Option<string>): Channels {
    if Collides(cs, id, slug, display) then Written(Parked(cs, id, slug), id, slug, display)
    else Written(cs, id, slug, display)
  }

  class ChannelTable {
    var channels: Channels

    constructor (channels: Channels)
      ensures this.channels == channels
    {
      this.channels := channels;
    }

    /** One UPDATE; false on a unique violation, nothing written. */
    method Write(id: int, slug: string, display: Option<string>) returns (ok: bool)
      modifies this
      ensures ok <==> !Collides(old(channels), id, slug, display)
      ensures channels == if ok then Written(old(channels), id, slug, display) else old(channels)
    {
      if !WouldWrite(channels, id, slug, display) {
        return true;
      }
      if exists other | other in channels && other != id :: SameIgnoringCase(channels[other].slug, slug) {
        return false;
      }
      channels := channels[id := Channel(slug, if display.Some? then display else channels[id].display)];
      return true;
    }

    method Park(id: int, slug: string)
      modifies this
      ensures channels == Parked(old(channels), id, slug)
    {
      channels := map other | other in channels ::
        if other != id && SameIgnoringCase(channels[other].slug, slug)
        then channels[other].(slug := Placeholder(other)) else channels[other];
    }

    /** `store_channel_name`: it never fails, because the second write cannot collide. */
    method StoreChannelName(id: int, slug: string, display: Option<string>) returns (ok: bool)
      requires UniqueSlugs(channels) && OwnPlaceholders(channels) && IsKickIdentifier(slug)
      modifies this
      ensures ok
      ensures channels == Renamed(old(channels), id, slug, display)
      ensures UniqueSlugs(channels) && OwnPlaceholders(channels)
    {
      RenameKeepsInvariants(channels, id, slug, display);
      ok := Write(id, slug, display);
      if !ok {
        SecondWriteIsFree(channels, id, slug, display);
        Park(id, slug);
        ok := Write(id, slug, display);
      }
    }
  }

  // ------------------------------------------------------------------------ what they keep

  lemma SecondWriteIsFree(cs: Channels, id: int, slug: string, display: Option<string>)
    requires IsKickIdentifier(slug)
    ensures !Collides(Parked(cs, id, slug), id, slug, display)
  {
    IdentifiersAreNotTilde(slug);
    var parked := Parked(cs, id, slug);
    forall other | other in parked && other != id ensures !SameIgnoringCase(parked[other].slug, slug) {
      if SameIgnoringCase(cs[other].slug, slug) {
        assert IsTilde(Placeholder(other));
        if SameIgnoringCase(Placeholder(other), slug) {
          TildeSurvivesLower(Placeholder(other), slug);
        }
      }
    }
  }

  /** Parking cannot make two slugs meet. */
  lemma ParkingKeepsInvariants(cs: Channels, id: int, slug: string)
    requires UniqueSlugs(cs) && OwnPlaceholders(cs)
    ensures UniqueSlugs(Parked(cs, id, slug)) && OwnPlaceholders(Parked(cs, id, slug))
  {
    var parked := Parked(cs, id, slug);
    forall a: int, b: int ensures Apart(parked, a, b) {
      if a in parked && b in parked && SameIgnoringCase(parked[a].slug, parked[b].slug) {
        assert Apart(cs, a, b) && TildeIsOwn(cs, a) && TildeIsOwn(cs, b);
        TildeSurvivesLower(parked[a].slug, parked[b].slug);
        if IsTilde(parked[a].slug) {
          assert parked[a].slug == Placeholder(a) && parked[b].slug == Placeholder(b);
          PlaceholdersDiffer(a, b);
        } else {
          assert parked[a] == cs[a] && parked[b] == cs[b];
        }
      }
    }
    forall other: int ensures TildeIsOwn(parked, other) {
      assert TildeIsOwn(cs, other);
    }
  }

  lemma FreeWriteKeepsInvariants(cs: Channels, id: int, slug: string, display: Option<string>)
    requires UniqueSlugs(cs) && OwnPlaceholders(cs) && IsKickIdentifier(slug) && !Collides(cs, id, slug, display)
    ensures UniqueSlugs(Written(cs, id, slug, display)) && OwnPlaceholders(Written(cs, id, slug, display))
  {
    IdentifiersAreNotTilde(slug);
    var written := Written(cs, id, slug, display);
    forall a: int, b: int ensures Apart(written, a, b) {
      assert Apart(cs, a, b);
    }
    forall other: int ensures TildeIsOwn(written, other) {
      assert TildeIsOwn(cs, other);
    }
  }

  /** From unique slugs and own placeholders every rename leads to unique slugs and own placeholders. */
  lemma RenameKeepsInvariants(cs: Channels, id: int, slug: string, display: Option<string>)
    requires UniqueSlugs(cs) && OwnPlaceholders(cs) && IsKickIdentifier(slug)
    ensures UniqueSlugs(Renamed(cs, id, slug, display)) && OwnPlaceholders(Renamed(cs, id, slug, display))
  {
    if Collides(cs, id, slug, display) {
      ParkingKeepsInvariants(cs, id, slug);
      SecondWriteIsFree(cs, id, slug, display);
      FreeWriteKeepsInvariants(Parked(cs, id, slug), id, slug, display);
    } else {
      FreeWriteKeepsInvariants(cs, id, slug, display);
    }
  }

  /**
   * A stored channel ends up holding the announced slug and display name; a channel that held it
   * (ignoring case) is parked; everyone else keeps both names.
   */
  lemma RenameHandsOverTheSlug(cs: Channels, id: int, slug: string, display: Option<string>, other: int)
    requires UniqueSlugs(cs) && id in cs && other in cs
    ensures Renamed(cs, id, slug, display)[id] == Channel(slug, if display.Some? then display else cs[id].display)
    ensures other != id ==>
              (var before := cs[other];
               Renamed(cs, id, slug, display)[other]
               == before.(slug := if SameIgnoringCase(before.slug, slug) then Placeholder(other) else before.slug))
  {
    assert Apart(cs, id, other);
  }

  /** Renames of channels that are not stored change nothing. */
  lemma UnknownChannelIsIgnored(cs: Channels, id: int, slug: string, display: Option<string>)
    requires id !in cs
    ensures Renamed(cs, id, slug, display) == cs
  {
  }

  // ------------------------------------------------------------------------------------ runs

  datatype Claim = Claim(id: int, slug: string, display: Option<string>)

  predicate Moves(states: seq<Channels>, claims: seq<Claim>, i: nat)
    requires i < |claims| < |states|
  {
    states[i + 1] == Renamed(states[i], claims[i].id, claims[i].slug, claims[i].display)
  }

  /** A run of renames with valid identifiers, `states[i]` before claim `i`. */
  predicate IsRenaming(states: seq<Channels>, claims: seq<Claim>) {
    && |states| == |claims| + 1
    && (forall i | 0 <= i < |claims| :: Moves(states, claims, i))
    && (forall i | 0 <= i < |claims| :: IsKickIdentifier(claims[i].slug))
  }

  function SlugAfter(cs: Channels, slug: string, c: Claim, id: int): string {
    if c.id == id then c.slug
    else if c.id in cs && SameIgnoringCase(slug, c.slug) then Placeholder(id)
    else slug
  }

  /** The slug one channel is left with: its own last claim, unless a later claim of another stored channel takes it. */
  function Standing(cs: Channels, claims: seq<Claim>, k: nat, id: int): string
    requires k <= |claims| && id in cs
  {
    if k == 0 then cs[id].slug else SlugAfter(cs, Standing(cs, claims, k - 1, id), claims[k - 1], id)
  }

  lemma RenameKeepsChannels(cs: Channels, id: int, slug: string, display: Option<string>)
    ensures Renamed(cs, id, slug, display).Keys == cs.Keys
  {
    assert Parked(cs, id, slug).Keys == cs.Keys;
  }

  /** Over every run of renames no channel appears or vanishes and both invariants hold. */
  lemma {:induction false} RunsKeepNamesApart(states: seq<Channels>, claims: seq<Claim>, k: nat)
    requires IsRenaming(states, claims) && UniqueSlugs(states[0]) && OwnPlaceholders(states[0]) && k <= |claims|
    ensures states[k].Keys == states[0].Keys
    ensures UniqueSlugs(states[k]) && OwnPlaceholders(states[k])
  {
    if k > 0 {
      RunsKeepNamesApart(states, claims, k - 1);
      var before, c := states[k - 1], claims[k - 1];
      RenameKeepsInvariants(before, c.id, c.slug, c.display);
      RenameKeepsChannels(before, c.id, c.slug, c.display);
      assert Moves(states, claims, k - 1);
    }
  }

  lemma OneMoreClaim(before: Channels, c: Claim, id: int)
    requires UniqueSlugs(before) && id in before
    ensures var after := Renamed(before, c.id, c.slug, c.display);
            id in after && after[id].slug == SlugAfter(before, before[id].slug, c, id)
  {
    RenameKeepsChannels(before, c.id, c.slug, c.display);
    if c.id in before {
      RenameHandsOverTheSlug(before, c.id, c.slug, c.display, id);
    } else {
      UnknownChannelIsIgnored(before, c.id, c.slug, c.display);
    }
  }

  /** And every channel stands where its last undisputed claim left it. */
  lemma {:induction false} LastClaimStands(states: seq<Channels>, claims: seq<Claim>, k: nat, id: int)
    requires IsRenaming(states, claims) && UniqueSlugs(states[0]) && OwnPlaceholders(states[0]) && k <= |claims|
    requires id in states[0]
    ensures id in states[k] && states[k][id].slug == Standing(states[0], claims, k, id)
  {
    if k > 0 {
      LastClaimStands(states, claims, k - 1, id);
      RunsKeepNamesApart(states, claims, k - 1);
      OneMoreClaim(states[k - 1], claims[k - 1], id);
      assert Moves(states, claims, k - 1);
    }
  }
}

/**
 * The client of the remote role service: what each endpoint's reply means, and the upload of a
 * whole user set by one PUT or, over the cap, by a chunked session that swaps the set in at its
 * commit.
 */
module RoleLogic {
  import opened Wrappers
  import opened Ascending
  import opened JobQueue
  import Text

  const PUT_MAX_USERS: nat := 100_000
  const CHUNK_SIZE: nat := 100_000
  const FORBIDDEN: int := 403
  const BAD_REQUEST: int := 400
  const CONFLICT: int := 409
  const LINK_GONE: string := "Invalid or revoked token"
  const LINK_DISABLED: string := "This role link is disabled"
  const LINK_PAUSED: string := "This role link is paused"
  const CONFIRM_REQUIRED: string := "confirm_required"

  datatype Endpoint = GetUserInfo | AddUser | RemoveUser | ReplaceUsers | StartUpload | UploadChunk | CommitUpload

  /**
   * What comes back. An accepted request was carried out; `Unread` is one whose confirmation was
   * lost or unreadable; a rejected or unreachable one left the service as it was.
   */
  datatype Reply = Accepted | Unread | Rejected(status: int, body: string) | Unreachable

  predicate CarriedOut(reply: Reply) {
    reply.Accepted? || reply.Unread?
  }

  predicate LinkInactive(status: int, body: string) {
    status == FORBIDDEN && (Text.Contains(body, LINK_DISABLED) || Text.Contains(body, LINK_PAUSED))
  }

  predicate IsRemovalHeld(status: int, body: string) {
    status == CONFLICT && Text.Contains(body, CONFIRM_REQUIRED)
  }

  /** The error branches of each endpoint; `limit` is the user limit a refusal reports. */
  function ErrorOf(endpoint: Endpoint, status: int, body: string, limit: nat): AppError {
    match endpoint
    case UploadChunk => OtherError
    case CommitUpload => if IsRemovalHeld(status, body) then RemovalHeld else OtherError
    case _ =>
      if status == FORBIDDEN && Text.Contains(body, LINK_GONE) then RoleLinkNotFound
      else if LinkInactive(status, body) then RoleLinkDisabled
      else if endpoint == AddUser && (status == BAD_REQUEST || status == FORBIDDEN) && Text.Contains(body, "limit") then
        UserLimitReached(limit)
      else if endpoint == ReplaceUsers && IsRemovalHeld(status, body) then RemovalHeld
      else OtherError
  }

  function ResultOf(endpoint: Endpoint, reply: Reply, limit: nat): Result<(), AppError> {
    match reply
    case Accepted => Ok(())
    case Unread => if endpoint == UploadChunk then Ok(()) else Err(OtherError)
    case Rejected(status, body) => Err(ErrorOf(endpoint, status, body, limit))
    case Unreachable => Err(OtherError)
  }

  /** Each special outcome comes only from the endpoints that can mean it, so no chunk or commit drops a link. */
  lemma SpecialOutcomesComeFromTheirEndpoints(endpoint: Endpoint, reply: Reply, limit: nat)
    ensures ResultOf(endpoint, reply, limit) == Err(RoleLinkNotFound) ==>
              endpoint != UploadChunk && endpoint != CommitUpload && !CarriedOut(reply)
    ensures ResultOf(endpoint, reply, limit) == Err(RemovalHeld) ==>
              (endpoint == ReplaceUsers || endpoint == CommitUpload) && !CarriedOut(reply)
    ensures ResultOf(endpoint, reply, limit).Err? && ResultOf(endpoint, reply, limit).error.UserLimitReached? ==>
              endpoint == AddUser && !CarriedOut(reply)
    ensures ResultOf(endpoint, reply, limit).Ok? ==> CarriedOut(reply)
  {
  }

  /** The replies one upload meets. */
  datatype UploadReplies = UploadReplies(put: Reply, start: Reply, chunks: seq<Reply>, commit: Reply)

  function ChunkReply(replies: UploadReplies, i: nat): Reply {
    if i < |replies.chunks| then replies.chunks[i] else Accepted
  }

  function ChunkCount(n: nat): nat {
    (n + CHUNK_SIZE - 1) / CHUNK_SIZE
  }

  /** Every chunk up to the `k`-th went through. */
  predicate ChunksGoThrough(replies: UploadReplies, k: nat) {
    forall i | 0 <= i < k :: ResultOf(UploadChunk, ChunkReply(replies, i), 0).Ok?
  }

  datatype UploadOutcome = UploadOutcome(result: Result<(), AppError>, swapped: bool)

  /** The upload as one atomic write: its result, and whether the remote set was swapped. */
  function Uploaded(n: nat, replies: UploadReplies): UploadOutcome {
    if n <= PUT_MAX_USERS then UploadOutcome(ResultOf(ReplaceUsers, replies.put, 0), CarriedOut(replies.put))
    else if ResultOf(StartUpload, replies.start, 0).Err? then
      UploadOutcome(ResultOf(StartUpload, replies.start, 0), false)
    else if !ChunksGoThrough(replies, ChunkCount(n)) then UploadOutcome(Err(OtherError), false)
    else UploadOutcome(ResultOf(CommitUpload, replies.commit, 0), CarriedOut(replies.commit))
  }

  /**
   * The last request of the upload was carried out and its reply never read: the PUT, or the commit
   * of a session that was opened and received every chunk.
   */
  predicate ConfirmationLost(n: nat, replies: UploadReplies) {
    if n <= PUT_MAX_USERS then replies.put.Unread?
    else replies.start.Accepted? && ChunksGoThrough(replies, ChunkCount(n)) && replies.commit.Unread?
  }

  /** An upload reports success exactly when it swapped the set, except exactly when that reply was lost. */
  lemma UploadIsAtomic(n: nat, replies: UploadReplies)
    ensures Uploaded(n, replies).result.Ok? <==> Uploaded(n, replies).swapped && !ConfirmationLost(n, replies)
    ensures ConfirmationLost(n, replies) <==> Uploaded(n, replies).swapped && Uploaded(n, replies).result.Err?
    ensures ConfirmationLost(n, replies) ==> Uploaded(n, replies).result == Err(OtherError)
  {
  }

  /** One role link on the remote side: its user set and an open upload session. */
  class RemoteLink {
    var users: set<int>
    var session: seq<int>
    var writes: nat

    constructor (users: set<int>)
      ensures this.users == users && writes == 0
    {
      this.users, session, writes := users, [], 0;
    }

    method Add(d: int, reply: Reply, limit: nat) returns (r: Result<(), AppError>)
      modifies this
      ensures users == if CarriedOut(reply) then old(users) + {d} else old(users)
      ensures r == ResultOf(AddUser, reply, limit)
    {
      if CarriedOut(reply) {
        users := users + {d};
      }
      writes := writes + 1;
      r := ResultOf(AddUser, reply, limit);
    }

    method Remove(d: int, reply: Reply) returns (r: Result<(), AppError>)
      modifies this
      ensures users == if CarriedOut(reply) then old(users) - {d} else old(users)
      ensures r == ResultOf(RemoveUser, reply, 0)
    {
      if CarriedOut(reply) {
        users := users - {d};
      }
      writes := writes + 1;
      r := ResultOf(RemoveUser, reply, 0);
    }

    /** The service rejects anything over the PUT cap. */
    method Replace(ids: seq<int>, reply: Reply) returns (r: Result<(), AppError>)
      requires |ids| <= PUT_MAX_USERS
      modifies this
      ensures users == if CarriedOut(reply) then Members(ids) else old(users)
      ensures r == ResultOf(ReplaceUsers, reply, 0)
      ensures writes == old(writes) + 1
    {
      if CarriedOut(reply) {
        users := Members(ids);
      }
      writes := writes + 1;
      r := ResultOf(ReplaceUsers, reply, 0);
    }

    method Start(reply: Reply) returns (r: Result<(), AppError>)
      modifies this
      ensures users == old(users) && session == []
      ensures r == ResultOf(StartUpload, reply, 0)
      ensures writes == old(writes) + 1
    {
      session := [];
      writes := writes + 1;
      r := ResultOf(StartUpload, reply, 0);
    }

    /** Appends to the session; the service rejects a chunk over the cap. */
    method Append(chunk: seq<int>, reply: Reply) returns (r: Result<(), AppError>)
      requires 0 < |chunk| <= CHUNK_SIZE
      modifies this`session
      ensures r == ResultOf(UploadChunk, reply, 0)
      ensures r.Ok? ==> session == old(session) + chunk
    {
      if CarriedOut(reply) {
        session := session + chunk;
      }
      r := ResultOf(UploadChunk, reply, 0);
    }

    /** Swaps in the session's set, dropping duplicates across chunks. */
    method Commit(reply: Reply) returns (r: Result<(), AppError>)
      modifies this
      ensures users == if CarriedOut(reply) then Members(old(session)) else old(users)
      ensures r == ResultOf(CommitUpload, reply, 0) && writes == old(writes)
    {
      if CarriedOut(reply) {
        users := Members(session);
      }
      session := [];
      r := ResultOf(CommitUpload, reply, 0);
    }

    method Cancel()
      modifies this`session
    {
      session := [];
    }
  }

  /** `upload_users`: one write or a session, the remote set is swapped whole or stays as it was. */
  method UploadUsers(link: RemoteLink, ids: seq<int>, replies: UploadReplies) returns (r: Result<(), AppError>)
    modifies link
    ensures r == Uploaded(|ids|, replies).result
    ensures link.users == if Uploaded(|ids|, replies).swapped then Members(ids) else old(link.users)
    ensures link.writes == old(link.writes) + 1
  {
    if |ids| <= PUT_MAX_USERS {
      r := link.Replace(ids, replies.put);
      return;
    }
    r := link.Start(replies.start);
    if r.Err? {
      return;
    }
    var i, from := 0, 0;
    while from < |ids|
      invariant from <= |ids| && i <= ChunkCount(|ids|)
      invariant from == if i * CHUNK_SIZE <= |ids| then i * CHUNK_SIZE else |ids|
      invariant link.session == ids[..from] && link.users == old(link.users)
      invariant link.writes == old(link.writes) + 1
      invariant ChunksGoThrough(replies, i)
      decreases |ids| - from
    {
      var to := if from + CHUNK_SIZE <= |ids| then from + CHUNK_SIZE else |ids|;
      r := link.Append(ids[from..to], ChunkReply(replies, i));
      if r.Err? {
        link.Cancel();
        assert !ChunksGoThrough(replies, ChunkCount(|ids|));
        return;
      }
      assert ids[..from] + ids[from..to] == ids[..to];
      i, from := i + 1, to;
    }
    assert ids[..|ids|] == ids;
    r := link.Commit(replies.commit);
  }
}

/**
  src/services/rolelogic.rs: writing a full user list to RoleLogic, in one
  request or, for long lists, through an upload session.

  A call either succeeds or fails without having been applied; which of the
  two is an argument. (A success whose response is lost is left out.) SyncEngine
  writes its lists through `UploadUsers`.
 */
module RoleLogic {
  import opened Wrappers
  import opened SortedIds

  type UploadId = nat

  const PUT_MAX_USERS := 100_000
  const CHUNK_SIZE := 100_000

  /** Why a RoleLogic call fails. */
  datatype RemoteError = LinkNotFound | Disabled | RemovalHeld | LimitReached | Unavailable

  /**
    How each call of one upload fares; chunks are counted from zero. A reply to
    the start that lacks the session's id counts as `idMissing`.
   */
  datatype Faults = Faults(
    put: Option<RemoteError>,
    start: Option<RemoteError>,
    idMissing: bool,
    chunk: nat -> Option<RemoteError>,
    commit: Option<RemoteError>,
    cancel: Option<RemoteError>)

  // --- chunks -------------------------------------------------------------------------

  /** `user_ids.chunks(n)`. */
  function Chunks<T>(items: seq<T>, n: nat): (chunks: seq<seq<T>>)
    requires n > 0
    ensures forall c <- chunks :: 1 <= |c| <= n
  {
    if items == [] then []
    else if |items| <= n then [items]
    else [items[..n]] + Chunks(items[n..], n)
  }

  function Concat<T>(chunks: seq<seq<T>>): seq<T> {
    if chunks == [] then [] else Concat(chunks[..|chunks| - 1]) + chunks[|chunks| - 1]
  }

  lemma {:induction false} ConcatOfCons<T>(head: seq<T>, tail: seq<seq<T>>)
    ensures Concat([head] + tail) == head + Concat(tail)
  {
    if tail == [] {
      assert ([head] + tail)[..0] == [];
      assert [head] + tail == [head];
    } else {
      var all := [head] + tail;
      assert all[..|all| - 1] == [head] + tail[..|tail| - 1];
      ConcatOfCons(head, tail[..|tail| - 1]);
    }
  }

  /** The chunks make up the list again: nothing is lost, repeated or moved. */
  lemma {:induction false} ChunksConcatenateToInput<T>(items: seq<T>, n: nat)
    requires n > 0
    ensures Concat(Chunks(items, n)) == items
  {
    if items == [] {
    } else if |items| <= n {
      assert [items][..0] == [];
    } else {
      ChunksConcatenateToInput(items[n..], n);
      ConcatOfCons(items[..n], Chunks(items[n..], n));
      assert items[..n] + items[n..] == items;
    }
  }

  // --- the server ---------------------------------------------------------------------

  /** One role link on RoleLogic: its user set, and the sessions that are open. */
  class RemoteLink {
    var users: set<string>
    var sessions: map<UploadId, seq<string>>

    constructor (users: set<string>)
      ensures this.users == users && sessions == map[]
    {
      this.users, sessions := users, map[];
    }

    method ReplaceUsers(ids: seq<string>, fault: Option<RemoteError>) returns (r: Result<nat, RemoteError>)
      requires |ids| <= PUT_MAX_USERS
      modifies this`users
      ensures r == if fault.None? then Ok(|Members(ids)|) else Err(fault.value)
      ensures users == if fault.None? then Members(ids) else old(users)
    {
      if fault.Some? {
        return Err(fault.value);
      }
      users := Members(ids);
      return Ok(|users|);
    }

    /** Opens a session, which stays open unnoticed when the reply lacks its id. */
    method StartUpload(fault: Option<RemoteError>, idMissing: bool) returns (r: Result<UploadId, RemoteError>)
      modifies this`sessions
      ensures r.Ok? <==> fault.None? && !idMissing
      ensures r.Ok? ==> r.value !in old(sessions) && sessions == old(sessions)[r.value := []]
      ensures r.Err? ==> r.error == if fault.Some? then fault.value else Unavailable
      ensures fault.Some? ==> sessions == old(sessions)
      ensures fault.None? ==> exists id: UploadId :: id !in old(sessions) && sessions == old(sessions)[id := []]
    {
      if fault.Some? {
        return Err(fault.value);
      }
      var id := FreshId(sessions.Keys);
      sessions := sessions[id := []];
      return if idMissing then Err(Unavailable) else Ok(id);
    }

    method UploadChunk(id: UploadId, chunk: seq<string>, fault: Option<RemoteError>) returns (r: Result<(), RemoteError>)
      requires id in sessions && 1 <= |chunk| <= CHUNK_SIZE
      modifies this`sessions
      ensures r == if fault.None? then Ok(()) else Err(fault.value)
      ensures sessions == if fault.None? then old(sessions)[id := old(sessions)[id] + chunk] else old(sessions)
    {
      if fault.Some? {
        return Err(fault.value);
      }
      sessions := sessions[id := sessions[id] + chunk];
      return Ok(());
    }

    /** Replaces the user set by the staged users, all at once, and closes the session. */
    method CommitUpload(id: UploadId, fault: Option<RemoteError>) returns (r: Result<nat, RemoteError>)
      requires id in sessions
      modifies this`users, this`sessions
      ensures r == if fault.None? then Ok(|Members(old(sessions)[id])|) else Err(fault.value)
      ensures users == if fault.None? then Members(old(sessions)[id]) else old(users)
      ensures sessions == if fault.None? then old(sessions) - {id} else old(sessions)
    {
      if fault.Some? {
        return Err(fault.value);
      }
      users := Members(sessions[id]);
      sessions := sessions - {id};
      return Ok(|users|);
    }

    method CancelUpload(id: UploadId, fault: Option<RemoteError>) returns (r: Result<(), RemoteError>)
      modifies this`sessions
      ensures r == if fault.None? then Ok(()) else Err(fault.value)
      ensures sessions == if fault.None? then old(sessions) - {id} else old(sessions)
    {
      if fault.Some? {
        return Err(fault.value);
      }
      sessions := sessions - {id};
      return Ok(());
    }
  }

  method FreshId(used: set<UploadId>) returns (id: UploadId)
    ensures id !in used
  {
    id := 0;
    var left := used;
    while left != {}
      invariant left <= used
      invariant forall x :: x in used && x !in left ==> x < id
      decreases left
    {
      var x :| x in left;
      if x >= id {
        id := x + 1;
      }
      left := left - {x};
    }
  }

  // --- the client ---------------------------------------------------------------------

  function FirstBadChunk(n: nat, chunk: nat -> Option<RemoteError>): Option<RemoteError> {
    if n == 0 then None
    else
      match FirstBadChunk(n - 1, chunk)
      case Some(e) => Some(e)
      case None => chunk(n - 1)
  }

  /** The error an upload ends in: that of the first call that fails. */
  function UploadFault(ids: seq<string>, f: Faults): Option<RemoteError> {
    if |ids| <= PUT_MAX_USERS then f.put
    else if f.start.Some? then f.start
    else if f.idMissing then Some(Unavailable)
    else
      match FirstBadChunk(|Chunks(ids, CHUNK_SIZE)|, f.chunk)
      case Some(e) => Some(e)
      case None => f.commit
  }

  /** No call of the upload fails. */
  ghost predicate AllSucceed(ids: seq<string>, f: Faults) {
    if |ids| <= PUT_MAX_USERS then f.put.None?
    else
      && f.start.None?
      && !f.idMissing
      && (forall i :: 0 <= i < |Chunks(ids, CHUNK_SIZE)| ==> f.chunk(i).None?)
      && f.commit.None?
  }

  lemma {:induction false} NoBadChunk(n: nat, chunk: nat -> Option<RemoteError>)
    ensures FirstBadChunk(n, chunk).None? <==> forall i :: 0 <= i < n ==> chunk(i).None?
    ensures FirstBadChunk(n, chunk).Some? ==>
              exists i :: 0 <= i < n && chunk(i) == FirstBadChunk(n, chunk) && forall k :: 0 <= k < i ==> chunk(k).None?
  {
    if n > 0 {
      NoBadChunk(n - 1, chunk);
    }
  }

  lemma FaultlessExactlyIfAllSucceed(ids: seq<string>, f: Faults)
    ensures UploadFault(ids, f).None? <==> AllSucceed(ids, f)
  {
    NoBadChunk(|Chunks(ids, CHUNK_SIZE)|, f.chunk);
  }

  /** The calls of an upload in the order they are made, and the error of each, as far as it fails. */
  function CallErrors(ids: seq<string>, f: Faults): seq<Option<RemoteError>> {
    if |ids| <= 100_000 then [f.put] else SessionErrors(f, |Chunks(ids, CHUNK_SIZE)|)
  }

  function SessionErrors(f: Faults, chunks: nat): (errors: seq<Option<RemoteError>>)
    ensures |errors| == chunks + 3
    ensures errors[0] == f.start && errors[1] == (if f.idMissing then Some(Unavailable) else None)
    ensures forall i :: 2 <= i < chunks + 2 ==> errors[i] == f.chunk(i - 2)
    ensures errors[chunks + 2] == f.commit
  {
    [f.start, if f.idMissing then Some(Unavailable) else None]
    + seq(chunks, i requires 0 <= i => f.chunk(i))
    + [f.commit]
  }

  /** `r` is the first error of the list, if it holds one. */
  ghost predicate IsFirstError(r: Option<RemoteError>, errors: seq<Option<RemoteError>>) {
    if r.None? then forall i :: 0 <= i < |errors| ==> errors[i].None?
    else exists i :: 0 <= i < |errors| && errors[i] == r && forall k :: 0 <= k < i ==> errors[k].None?
  }

  /** The error an upload reports is that of the first call that fails; with no such call there is none. */
  lemma FirstErrorIsReported(ids: seq<string>, f: Faults)
    ensures IsFirstError(UploadFault(ids, f), CallErrors(ids, f))
  {
    hide Chunks, SessionErrors, FirstBadChunk;
    if |ids| <= 100_000 {
      assert CallErrors(ids, f)[0] == f.put;
    } else {
      FirstSessionError(f, |Chunks(ids, CHUNK_SIZE)|);
    }
  }

  lemma FirstSessionError(f: Faults, chunks: nat)
    ensures IsFirstError(
              if f.start.Some? then f.start
              else if f.idMissing then Some(Unavailable)
              else if FirstBadChunk(chunks, f.chunk).Some? then FirstBadChunk(chunks, f.chunk)
              else f.commit,
              SessionErrors(f, chunks))
  {
    hide SessionErrors, FirstBadChunk;
    var errors, bad := SessionErrors(f, chunks), FirstBadChunk(chunks, f.chunk);
    NoBadChunk(chunks, f.chunk);
    if bad.Some? {
      var i :| 0 <= i < chunks && f.chunk(i) == bad && forall k :: 0 <= k < i ==> f.chunk(k).None?;
      assert errors[i + 2] == bad;
      assert forall k :: 2 <= k < i + 2 ==> errors[k] == f.chunk(k - 2);
    }
  }

  /** Chunks are as few as can be: all but the last are full. */
  lemma {:induction false} ChunksAreFull<T>(items: seq<T>, n: nat)
    requires n > 0
    ensures forall i :: 0 <= i < |Chunks(items, n)| - 1 ==> |Chunks(items, n)[i]| == n
  {
    if |items| > n {
      ChunksAreFull(items[n..], n);
    }
  }

  /** A list of 100,000 ids takes one request, a longer one chunks of at most 100,000. */
  lemma UploadSizes(ids: seq<string>, f: Faults)
    ensures |ids| <= 100_000 ==> UploadFault(ids, f) == f.put
    ensures forall c <- Chunks(ids, CHUNK_SIZE) :: 1 <= |c| <= 100_000
    ensures forall i :: 0 <= i < |Chunks(ids, CHUNK_SIZE)| - 1 ==> |Chunks(ids, CHUNK_SIZE)[i]| == 100_000
    ensures |ids| > 100_000 && f.start.None? && !f.idMissing && f.commit.None? && (forall i :: f.chunk(i).None?)
        ==> UploadFault(ids, f).None?
  {
    NoBadChunk(|Chunks(ids, CHUNK_SIZE)|, f.chunk);
    ChunksAreFull(ids, CHUNK_SIZE);
  }

  /** A session is left open when its id never arrives, or when cancelling it fails as well. */
  predicate LeavesSession(ids: seq<string>, f: Faults) {
    |ids| > PUT_MAX_USERS && f.start.None? && (f.idMissing || (UploadFault(ids, f).Some? && f.cancel.Some?))
  }

  /**
    All or nothing, for any list and any failing calls: on success the remote set
    is the list's set, otherwise it is untouched, and the first error is
    reported.
   */
  method UploadUsers(remote: RemoteLink, ids: seq<string>, f: Faults) returns (r: Result<nat, RemoteError>)
    modifies remote
    ensures r == match UploadFault(ids, f) case None => Ok(|Members(ids)|) case Some(e) => Err(e)
    ensures remote.users == if UploadFault(ids, f).None? then Members(ids) else old(remote.users)
    ensures remote.sessions != old(remote.sessions) <==> LeavesSession(ids, f)
    ensures LeavesSession(ids, f) ==>
              exists id: UploadId :: id !in old(remote.sessions) && id in remote.sessions
                           && remote.sessions - {id} == old(remote.sessions)
  {
    hide Concat, Chunks, FirstBadChunk, Members;
    ghost var before := remote.sessions;
    if |ids| <= PUT_MAX_USERS {
      r := remote.ReplaceUsers(ids, f.put);
      return;
    }
    var started := remote.StartUpload(f.start, f.idMissing);
    if started.Err? {
      if f.start.None? {
        ghost var lost: UploadId :| lost !in before && remote.sessions == before[lost := []];
        RemovingSession(before, remote.sessions, lost);
      }
      return Err(started.error);
    }
    var id := started.value;
    var sent := SendChunks(remote, id, Chunks(ids, CHUNK_SIZE), f.chunk);
    ChunksConcatenateToInput(ids, CHUNK_SIZE);
    if sent.Err? {
      r := Err(sent.error);
    } else {
      r := remote.CommitUpload(id, f.commit);
    }
    RemovingSession(before, remote.sessions, id);
    if r.Err? {
      var _ := remote.CancelUpload(id, f.cancel);
      RemovingSession(before, remote.sessions, id);
    }
  }

  lemma RemovingSession(before: map<UploadId, seq<string>>, after: map<UploadId, seq<string>>, id: UploadId)
    requires id !in before && (after == before || (id in after && after == before[id := after[id]]))
    ensures after - {id} == before
  {
  }

  /** Stages the chunks in order, up to the first that fails. */
  method SendChunks(remote: RemoteLink, id: UploadId, chunks: seq<seq<string>>, fault: nat -> Option<RemoteError>)
    returns (r: Result<(), RemoteError>)
    requires id in remote.sessions && remote.sessions[id] == []
    requires forall c <- chunks :: 1 <= |c| <= CHUNK_SIZE
    modifies remote`sessions
    ensures r == match FirstBadChunk(|chunks|, fault) case None => Ok(()) case Some(e) => Err(e)
    ensures id in remote.sessions && remote.sessions == old(remote.sessions)[id := remote.sessions[id]]
    ensures r.Ok? ==> remote.sessions[id] == Concat(chunks)
  {
    var k := 0;
    while k < |chunks|
      invariant 0 <= k <= |chunks|
      invariant id in remote.sessions
      invariant remote.sessions == old(remote.sessions)[id := Concat(chunks[..k])]
      invariant FirstBadChunk(k, fault) == None
    {
      assert chunks[..k + 1][..k] == chunks[..k];
      var sent := remote.UploadChunk(id, chunks[k], fault(k));
      if sent.Err? {
        BadChunkStays(k + 1, |chunks|, fault);
        return Err(sent.error);
      }
      k := k + 1;
    }
    assert chunks[..k] == chunks;
    return Ok(());
  }

  lemma {:induction false} BadChunkStays(k: nat, n: nat, chunk: nat -> Option<RemoteError>)
    requires k <= n && FirstBadChunk(k, chunk).Some?
    ensures FirstBadChunk(n, chunk) == FirstBadChunk(k, chunk)
  {
    if k < n {
      BadChunkStays(k, n - 1, chunk);
    }
  }
}

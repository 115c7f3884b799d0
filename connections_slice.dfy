/** The client-side store of the signed-in user's network
    (`Frontend/src/features/connections/connectionsSlice.js`): four user lists, a loading flag,
    the last error and the time of the last successful fetch. */
module ConnectionsSlice {
  import opened Common
  import opened Domain
  import opened JsText

  datatype State = State(
    connections: seq<User>,
    pendingConnections: seq<User>,
    followers: seq<User>,
    following: seq<User>,
    loading: bool,
    error: Option<string>,
    lastFetched: Option<int>)

  /** The initial state: four empty lists, not loading, no error, never fetched. */
  const Initial: State := State([], [], [], [], false, None, None)

  /** The body of a successful reply; each list may be missing. */
  datatype Reply = Reply(
    success: bool,
    connections: Option<seq<User>>,
    pendingConnections: Option<seq<User>>,
    followers: Option<seq<User>>,
    following: Option<seq<User>>)

  /** What the thunk returns on a reply: the body when the server reports success, `null`
      otherwise. */
  function ReplyPayload(reply: Reply): (r: Option<Reply>)
    ensures r.Some? <==> reply.success
    ensures r.Some? ==> r.value == reply
  {
    if reply.success then Some(reply) else None
  }

  /** `clearConnections`: the four lists emptied; loading, error and fetch time kept. */
  function Cleared(s: State): (r: State)
    ensures r.connections == [] && r.pendingConnections == [] && r.followers == [] && r.following == []
    ensures r.loading == s.loading && r.error == s.error && r.lastFetched == s.lastFetched
  {
    s.(connections := [], pendingConnections := [], followers := [], following := [])
  }

  /** Clearing twice is clearing once, and clearing the initial state leaves it initial. */
  lemma ClearedIdempotent(s: State)
    ensures Cleared(Cleared(s)) == Cleared(s)
    ensures Cleared(Initial) == Initial
  {
  }

  /** `fetchConnections.pending`: loading, and no error; lists and fetch time kept. */
  function Pending(s: State): (r: State)
    ensures r.loading && r.error.None?
    ensures r.(loading := s.loading, error := s.error) == s
  {
    s.(loading := true, error := None)
  }

  /** `fetchConnections.fulfilled`: loading ends; a non-null payload replaces all four lists
      (missing ones by `[]`) and stamps the fetch time, a null one changes nothing else. The
      error is never touched. */
  function Fulfilled(s: State, payload: Option<Reply>, now: int): (r: State)
    ensures !r.loading && r.error == s.error
    ensures payload.None? ==> r == s.(loading := false)
    ensures payload.Some? ==>
              && r.connections == OrEmpty(payload.value.connections)
              && r.pendingConnections == OrEmpty(payload.value.pendingConnections)
              && r.followers == OrEmpty(payload.value.followers)
              && r.following == OrEmpty(payload.value.following)
              && r.lastFetched == Some(now)
  {
    match payload
    case None => s.(loading := false)
    case Some(p) =>
      State(OrEmpty(p.connections), OrEmpty(p.pendingConnections), OrEmpty(p.followers),
            OrEmpty(p.following), false, s.error, Some(now))
  }

  /** `fetchConnections.rejected`: loading ends and the payload becomes the error; lists and
      fetch time kept. */
  function Rejected(s: State, payload: string): (r: State)
    ensures !r.loading && r.error == Some(payload)
    ensures r.(loading := s.loading, error := s.error) == s
  {
    s.(loading := false, error := Some(payload))
  }

  /** A request the server answers with `success: false` leaves the lists and fetch time as
      they were and ends with no error. */
  lemma UnsuccessfulFetchKeepsLists(s: State, reply: Reply, now: int)
    requires !reply.success
    ensures var r := Fulfilled(Pending(s), ReplyPayload(reply), now);
            r == s.(loading := false, error := None)
  {
  }

  /** A successful fetch whose body omits every list empties all four. */
  lemma EmptyReplyClears(s: State, now: int)
    ensures var r := Fulfilled(Pending(s), ReplyPayload(Reply(true, None, None, None, None)), now);
            r == Cleared(s).(loading := false, error := None, lastFetched := Some(now))
  {
  }

  const FetchFallback: string := "Failed to fetch connections"

  /** A failed request ends not loading, with the error response's body (or the fallback
      message when there is none) as error, and keeps the lists and the fetch time. */
  lemma FetchFailureKeepsLists(s: State, responseData: Option<string>)
    ensures var r := Rejected(Pending(s), OrElse(responseData, FetchFallback));
            && r.connections == s.connections && r.pendingConnections == s.pendingConnections
            && r.followers == s.followers && r.following == s.following
            && r.lastFetched == s.lastFetched && !r.loading
            && r.error == Some(if responseData.Some? && responseData.value != "" then responseData.value
                               else FetchFallback)
  {
  }

  /** The slice as the store holds it; every reducer rewrites its fields in place. */
  class Slice {
    var connections: seq<User>
    var pendingConnections: seq<User>
    var followers: seq<User>
    var following: seq<User>
    var loading: bool
    var error: Option<string>
    var lastFetched: Option<int>

    function Snapshot(): State
      reads this
    {
      State(connections, pendingConnections, followers, following, loading, error, lastFetched)
    }

    constructor ()
      ensures Snapshot() == Initial
    {
      connections := [];
      pendingConnections := [];
      followers := [];
      following := [];
      loading := false;
      error := None;
      lastFetched := None;
    }

    method ClearConnections()
      modifies this
      ensures Snapshot() == Cleared(old(Snapshot()))
    {
      connections := [];
      pendingConnections := [];
      followers := [];
      following := [];
    }

    method FetchPending()
      modifies this
      ensures Snapshot() == Pending(old(Snapshot()))
    {
      loading := true;
      error := None;
    }

    /** `now` stands for `Date.now()` at the moment the reducer runs. */
    method FetchFulfilled(payload: Option<Reply>, now: int)
      modifies this
      ensures Snapshot() == Fulfilled(old(Snapshot()), payload, now)
    {
      loading := false;
      if payload.Some? {
        var p := payload.value;
        connections := OrEmpty(p.connections);
        pendingConnections := OrEmpty(p.pendingConnections);
        followers := OrEmpty(p.followers);
        following := OrEmpty(p.following);
        lastFetched := Some(now);
      }
    }

    method FetchRejected(payload: string)
      modifies this
      ensures Snapshot() == Rejected(old(Snapshot()), payload)
    {
      loading := false;
      error := Some(payload);
    }
  }
}

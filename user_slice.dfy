/** The client-side store of the signed-in user (`Frontend/src/features/user/userSlice.js`):
    the hand-written reducers that edit the follower, following and connection lists at once,
    and the loading/error/value transitions of the two request thunks. */
module UserSlice {
  import opened Common
  import opened Domain
  import opened JsText

  /** The slice's state: the user document (`null` before a fetch), a loading flag and the
      last error payload. */
  datatype State = State(value: Option<User>, loading: bool, error: Option<string>)

  /** The initial state: no user, not loading, no error. */
  const Initial: State := State(None, false, None)

  /** The three id lists a manual reducer edits. */
  datatype ListField = Followers | Following | Connections

  function FieldOf(u: User, f: ListField): seq<UserId> {
    match f
    case Followers => u.followers
    case Following => u.following
    case Connections => u.connections
  }

  /** `u` with list `f` replaced by `l`; every other field is left as it was. */
  function WithField(u: User, f: ListField, l: seq<UserId>): (r: User)
    ensures FieldOf(r, f) == l
    ensures forall g :: g != f ==> FieldOf(r, g) == FieldOf(u, g)
    ensures r.(followers := u.followers, following := u.following, connections := u.connections) == u
  {
    match f
    case Followers => u.(followers := l)
    case Following => u.(following := l)
    case Connections => u.(connections := l)
  }

  /** `addFollower`, `addFollowing`, `addConnection`: the id is pushed onto list `f` when the
      list does not hold it yet. Nothing happens without a user; nothing but list `f` changes. */
  function AddTo(s: State, f: ListField, id: UserId): (r: State)
    ensures s.value.None? ==> r == s
    ensures s.value.Some? ==> r.value.Some? && id in FieldOf(r.value.value, f)
    ensures s.value.Some? && id in FieldOf(s.value.value, f) ==> r == s
    ensures s.value.Some? && id !in FieldOf(s.value.value, f) ==>
              FieldOf(r.value.value, f) == FieldOf(s.value.value, f) + [id]
    ensures s.value.Some? ==> r.value.value == WithField(s.value.value, f, FieldOf(r.value.value, f))
    ensures r.loading == s.loading && r.error == s.error
  {
    match s.value
    case None => s
    case Some(u) => s.(value := Some(WithField(u, f, AppendAbsent(FieldOf(u, f), id))))
  }

  /** Adding the same id twice is the same as adding it once. */
  lemma AddToIdempotent(s: State, f: ListField, id: UserId)
    ensures AddTo(AddTo(s, f, id), f, id) == AddTo(s, f, id)
  {
    if s.value.Some? {
      var u := s.value.value;
      var u' := WithField(u, f, AppendAbsent(FieldOf(u, f), id));
      assert WithField(u', f, FieldOf(u', f)) == u';
    }
  }

  /** An add never creates a duplicate in a list that had none. */
  lemma AddToKeepsNoDup(s: State, f: ListField, id: UserId)
    requires s.value.Some? && NoDup(FieldOf(s.value.value, f))
    ensures NoDup(FieldOf(AddTo(s, f, id).value.value, f))
  {
    AppendAbsentKeepsNoDup(FieldOf(s.value.value, f), id);
  }

  /** `removeFollower`, `removeFollowing`: every entry equal to the id is filtered out of list
      `f`. Nothing happens without a user; nothing but list `f` changes. */
  function RemoveFrom(s: State, f: ListField, id: UserId): (r: State)
    ensures s.value.None? ==> r == s
    ensures s.value.Some? ==> r.value.Some? && id !in FieldOf(r.value.value, f)
    ensures s.value.Some? ==>
              forall y :: y != id ==> (y in FieldOf(r.value.value, f) <==> y in FieldOf(s.value.value, f))
    ensures s.value.Some? ==> r.value.value == WithField(s.value.value, f, FieldOf(r.value.value, f))
    ensures r.loading == s.loading && r.error == s.error
  {
    match s.value
    case None => s
    case Some(u) => s.(value := Some(WithField(u, f, RemoveAll(FieldOf(u, f), id))))
  }

  /** The removal drops exactly the entries equal to the id, keeps every other entry as often
      as before, and keeps them in order: removing from a list cut anywhere in two is removing
      from each part. */
  lemma RemoveFromKeepsOthers(s: State, f: ListField, id: UserId)
    requires s.value.Some?
    ensures multiset(FieldOf(RemoveFrom(s, f, id).value.value, f)) == multiset(FieldOf(s.value.value, f))[id := 0]
    ensures forall a, b :: FieldOf(s.value.value, f) == a + b ==>
              FieldOf(RemoveFrom(s, f, id).value.value, f) == RemoveAll(a, id) + RemoveAll(b, id)
  {
    var l := FieldOf(s.value.value, f);
    RemoveAllMultiset(l, id);
    forall a, b | l == a + b
      ensures FieldOf(RemoveFrom(s, f, id).value.value, f) == RemoveAll(a, id) + RemoveAll(b, id)
    {
      RemoveAllAppend(a, b, id);
    }
  }

  /** Removing an id that was added to a list without it gives the list back. */
  lemma AddThenRemoveRestores(s: State, f: ListField, id: UserId)
    requires s.value.Some? && id !in FieldOf(s.value.value, f)
    ensures RemoveFrom(AddTo(s, f, id), f, id) == s
  {
    var l := FieldOf(s.value.value, f);
    RemoveAllAppend(l, [id], id);
    RemoveAllAbsent(l, id);
    assert RemoveAll([id], id) == [];
    var u := s.value.value;
    var added := AddTo(s, f, id).value.value;
    assert added == WithField(u, f, l + [id]);
    assert RemoveFrom(AddTo(s, f, id), f, id).value.value == WithField(added, f, l);
    match f
    case Followers =>
    case Following =>
    case Connections =>
  }

  /** `updateUserFollowers`: each of the two lists is replaced when the payload carries it
      (an empty list counts), and kept otherwise. Nothing happens without a user. */
  function UpdateFollowers(s: State, followers: Option<seq<UserId>>, following: Option<seq<UserId>>): (r: State)
    ensures s.value.None? ==> r == s
    ensures s.value.Some? ==> r.value.Some?
    ensures s.value.Some? ==>
              r.value.value.followers == (if followers.Some? then followers.value else s.value.value.followers)
    ensures s.value.Some? ==>
              r.value.value.following == (if following.Some? then following.value else s.value.value.following)
    ensures s.value.Some? ==>
              r.value.value.(followers := s.value.value.followers, following := s.value.value.following) == s.value.value
    ensures r.loading == s.loading && r.error == s.error
  {
    match s.value
    case None => s
    case Some(u) =>
      var u1 := if followers.Some? then u.(followers := followers.value) else u;
      var u2 := if following.Some? then u1.(following := following.value) else u1;
      s.(value := Some(u2))
  }

  /** A payload with neither list changes nothing. */
  lemma UpdateFollowersEmptyPayload(s: State)
    ensures UpdateFollowers(s, None, None) == s
  {
    if s.value.Some? {
      assert UpdateFollowers(s, None, None).value.value == s.value.value;
    }
  }

  /** A server reply to a user request. */
  datatype UserReply = UserReply(success: bool, user: User)

  /** What both thunks return on a reply: the user when the server reports success, `null`
      otherwise. */
  function ReplyPayload(reply: UserReply): (r: Option<User>)
    ensures r.Some? <==> reply.success
    ensures r.Some? ==> r.value == reply.user
  {
    if reply.success then Some(reply.user) else None
  }

  const FetchFallback: string := "Failed to fetch user"

  /** The value a failed request is rejected with: the error response's body when there is a
      non-empty one, otherwise the thunk's fallback message. */
  function RejectionValue(responseData: Option<string>, fallback: string): (r: string)
    ensures responseData.Some? && responseData.value != "" ==> r == responseData.value
    ensures responseData.None? || responseData.value == "" ==> r == fallback
  {
    OrElse(responseData, fallback)
  }

  /** `fetchUser.pending`: loading, and no error; the user stays. */
  function Pending(s: State): (r: State)
    ensures r.loading && r.error.None? && r.value == s.value
  {
    s.(loading := true, error := None)
  }

  /** `fetchUser.fulfilled`: the payload, `null` included, becomes the user; the error stays. */
  function Fulfilled(s: State, payload: Option<User>): (r: State)
    ensures !r.loading && r.value == payload && r.error == s.error
  {
    s.(loading := false, value := payload)
  }

  /** `fetchUser.rejected`: the payload becomes the error; the user stays. */
  function Rejected(s: State, payload: string): (r: State)
    ensures !r.loading && r.error == Some(payload) && r.value == s.value
  {
    s.(loading := false, error := Some(payload))
  }

  /** `updateUser.fulfilled`: the payload, `null` included, becomes the user; nothing else changes. */
  function UpdateFulfilled(s: State, payload: Option<User>): (r: State)
    ensures r.value == payload && r.loading == s.loading && r.error == s.error
  {
    s.(value := payload)
  }

  /** A fetch that the server answers with `success: false` ends with no user, not loading and no
      error, whatever the state before. */
  lemma FetchUnsuccessfulClearsUser(s: State, u: User)
    ensures Fulfilled(Pending(s), ReplyPayload(UserReply(false, u))) == State(None, false, None)
  {
  }

  /** A failed fetch ends not loading, with the rejection value as error, and keeps the user
      that was there before. */
  lemma FetchFailureKeepsUser(s: State, responseData: Option<string>)
    ensures var r := Rejected(Pending(s), RejectionValue(responseData, FetchFallback));
            && r.value == s.value && !r.loading
            && r.error == Some(if responseData.Some? && responseData.value != "" then responseData.value
                               else FetchFallback)
  {
  }

  /** The slice as the store holds it; every reducer rewrites its fields in place. */
  class Slice {
    var value: Option<User>
    var loading: bool
    var error: Option<string>

    function Snapshot(): State
      reads this
    {
      State(value, loading, error)
    }

    constructor ()
      ensures Snapshot() == Initial
    {
      value := None;
      loading := false;
      error := None;
    }

    method UpdateUserFollowers(followers: Option<seq<UserId>>, following: Option<seq<UserId>>)
      modifies this
      ensures Snapshot() == UpdateFollowers(old(Snapshot()), followers, following)
    {
      if value.Some? {
        var u := value.value;
        if followers.Some? {
          u := u.(followers := followers.value);
        }
        if following.Some? {
          u := u.(following := following.value);
        }
        value := Some(u);
      }
    }

    /** The shared body of the three add reducers. */
    method Add(f: ListField, id: UserId)
      modifies this
      ensures Snapshot() == AddTo(old(Snapshot()), f, id)
    {
      if value.Some? && id !in FieldOf(value.value, f) {
        var u := value.value;
        value := Some(WithField(u, f, FieldOf(u, f) + [id]));
      }
    }

    /** The shared body of the two remove reducers. */
    method Remove(f: ListField, id: UserId)
      modifies this
      ensures Snapshot() == RemoveFrom(old(Snapshot()), f, id)
    {
      if value.Some? {
        var u := value.value;
        value := Some(WithField(u, f, RemoveAll(FieldOf(u, f), id)));
      }
    }

    method AddFollower(id: UserId)
      modifies this
      ensures Snapshot() == AddTo(old(Snapshot()), Followers, id)
    {
      Add(Followers, id);
    }

    method RemoveFollower(id: UserId)
      modifies this
      ensures Snapshot() == RemoveFrom(old(Snapshot()), Followers, id)
    {
      Remove(Followers, id);
    }

    method AddFollowing(id: UserId)
      modifies this
      ensures Snapshot() == AddTo(old(Snapshot()), Following, id)
    {
      Add(Following, id);
    }

    method RemoveFollowing(id: UserId)
      modifies this
      ensures Snapshot() == RemoveFrom(old(Snapshot()), Following, id)
    {
      Remove(Following, id);
    }

    method AddConnection(id: UserId)
      modifies this
      ensures Snapshot() == AddTo(old(Snapshot()), Connections, id)
    {
      Add(Connections, id);
    }

    method FetchUserPending()
      modifies this
      ensures Snapshot() == Pending(old(Snapshot()))
    {
      loading := true;
      error := None;
    }

    method FetchUserFulfilled(payload: Option<User>)
      modifies this
      ensures Snapshot() == Fulfilled(old(Snapshot()), payload)
    {
      loading := false;
      value := payload;
    }

    method FetchUserRejected(payload: string)
      modifies this
      ensures Snapshot() == Rejected(old(Snapshot()), payload)
    {
      loading := false;
      error := Some(payload);
    }

    method UpdateUserFulfilled(payload: Option<User>)
      modifies this
      ensures Snapshot() == UpdateFulfilled(old(Snapshot()), payload)
    {
      value := payload;
    }
  }
}

/** The post back end (`Backend/controllers/postController.js`): the like toggle and the
    feed query. */
module PostController {
  import opened Common
  import opened Domain
  import opened Ordering

  /** The like list after `userId` toggles: every occurrence removed when present,
      otherwise the id appended once. */
  function LikeToggled(likes: seq<UserId>, userId: UserId): (r: seq<UserId>)
    ensures userId in likes ==> userId !in r && multiset(r) == multiset(likes)[userId := 0]
    ensures userId !in likes ==> r == likes + [userId]
    ensures userId in r <==> userId !in likes
  {
    if userId in likes then RemoveAllMultiset(likes, userId); RemoveAll(likes, userId) else likes + [userId]
  }

  /** Liking: the id is appended once, so the list grows by exactly one entry. */
  lemma ToggleLikes(likes: seq<UserId>, userId: UserId)
    requires userId !in likes
    ensures LikeToggled(likes, userId)[..|likes|] == likes
    ensures |LikeToggled(likes, userId)| == |likes| + 1
    ensures multiset(LikeToggled(likes, userId))[userId] == 1
  {
    assert multiset(likes)[userId] == 0;
  }

  /** Unliking: every occurrence of the id goes, the other entries stay in order. */
  lemma ToggleUnlikes(likes: seq<UserId>, userId: UserId)
    requires userId in likes
    ensures userId !in LikeToggled(likes, userId)
    ensures multiset(LikeToggled(likes, userId)) == multiset(likes)[userId := 0]
    ensures forall a, b :: likes == a + b ==>
              LikeToggled(likes, userId) == RemoveAll(a, userId) + RemoveAll(b, userId)
  {
    RemoveAllMultiset(likes, userId);
    forall a, b | likes == a + b
      ensures LikeToggled(likes, userId) == RemoveAll(a, userId) + RemoveAll(b, userId)
    {
      RemoveAllAppend(a, b, userId);
    }
  }

  /** Liking and then unliking restores the original list exactly. */
  lemma ToggleTwiceRestores(likes: seq<UserId>, userId: UserId)
    requires userId !in likes
    ensures LikeToggled(LikeToggled(likes, userId), userId) == likes
  {
    RemoveAllAppend(likes, [userId], userId);
    RemoveAllAbsent(likes, userId);
    assert RemoveAll([userId], userId) == [];
  }

  /** A toggle flips the acting user's membership and leaves every other user's
      number of entries as it was. */
  lemma ToggleFlipsOnlyActor(likes: seq<UserId>, userId: UserId)
    ensures (userId in LikeToggled(likes, userId)) == (userId !in likes)
    ensures forall v :: v != userId ==> multiset(LikeToggled(likes, userId))[v] == multiset(likes)[v]
  {
    if userId in likes {
      RemoveAllMultiset(likes, userId);
    }
  }

  /** The reply of a like request. */
  datatype LikeReply = Liked | Unliked | LikeFailed

  /** Position of the post with id `postId`, if any (`Post.findById`). */
  function FindPost(posts: seq<Post>, postId: PostId): (r: Option<nat>)
    ensures r.Some? ==> r.value < |posts| && posts[r.value].id == postId
    ensures r.None? ==> forall i :: 0 <= i < |posts| ==> posts[i].id != postId
    decreases |posts|
  {
    if posts == [] then None
    else if posts[0].id == postId then Some(0)
    else match FindPost(posts[1..], postId)
      case None => None
      case Some(i) => Some(i + 1)
  }

  /** The author ids the feed query asks for: the reader, their connections, and the
      users they follow (`[userId, ...user.connections, ...user.following]`). */
  function FeedAuthors(me: UserId, user: User): (r: seq<UserId>)
    ensures forall a :: a in r <==> a == me || a in user.connections || a in user.following
  {
    [me] + user.connections + user.following
  }

  /** The posts of the feed: exactly those by an author in `authors`, newest first. */
  function FeedSelection(posts: seq<Post>, authors: seq<UserId>): (r: seq<Post>)
    ensures NewestFirst(r, PostCreatedAt)
    ensures forall p :: p in r ==> p in posts && p.author in authors
    ensures forall i :: 0 <= i < |posts| && posts[i].author in authors ==> posts[i] in r
    ensures forall p :: multiset(r)[p] == if p.author in authors then multiset(posts)[p] else 0
  {
    SelectNewest(posts, (p: Post) => p.author in authors, PostCreatedAt)
  }

  /** What a like request leaves behind: the reply and the post collection. */
  datatype LikeOutcome = LikeOutcome(reply: LikeReply, posts: seq<Post>)

  /** `likePost` as intended: a missing post is a failed request that changes nothing;
      otherwise the acting user's like is toggled on that post and on no other. */
  function LikeIntended(posts: seq<Post>, userId: UserId, postId: PostId): (r: LikeOutcome)
    ensures |r.posts| == |posts|
    ensures FindPost(posts, postId).None? <==> r.reply == LikeFailed
    ensures FindPost(posts, postId).None? ==> r.posts == posts
    ensures FindPost(posts, postId).Some? ==>
              var i := FindPost(posts, postId).value;
              && r.posts[i].likes == LikeToggled(posts[i].likes, userId)
              && r.posts[i].(likes := posts[i].likes) == posts[i]
              && (forall j :: 0 <= j < |posts| && j != i ==> r.posts[j] == posts[j])
              && (r.reply == Unliked <==> userId in posts[i].likes)
  {
    match FindPost(posts, postId)
    case None => LikeOutcome(LikeFailed, posts)
    case Some(i) =>
      var post := posts[i];
      LikeOutcome(if userId in post.likes then Unliked else Liked,
                  posts[i := post.(likes := LikeToggled(post.likes, userId))])
  }

  /** `likePost` as written: it reads the post id with `req.body()`, calling the parsed body
      object as if it were a function. That throws before any lookup, so the handler's catch
      replies with failure and no post changes, whatever the request. */
  function LikeAsWritten(posts: seq<Post>, userId: UserId, postId: PostId): (r: LikeOutcome)
    ensures r.reply == LikeFailed && r.posts == posts
  {
    LikeOutcome(LikeFailed, posts)
  }

  /** For an existing post the intended request toggles the like and replies with success,
      while the request as written fails and leaves the like list alone. */
  lemma LikeAsWrittenNeverToggles(posts: seq<Post>, userId: UserId, postId: PostId)
    requires FindPost(posts, postId).Some?
    ensures LikeAsWritten(posts, userId, postId).reply == LikeFailed
    ensures LikeIntended(posts, userId, postId).reply != LikeFailed
    ensures LikeAsWritten(posts, userId, postId).posts != LikeIntended(posts, userId, postId).posts
  {
    var i := FindPost(posts, postId).value;
    var likes := posts[i].likes;
    var toggled := LikeIntended(posts, userId, postId).posts[i].likes;
    ToggleFlipsOnlyActor(likes, userId);
    assert (userId in toggled) != (userId in likes);
  }

  /** The reply of the feed request. */
  datatype FeedReply = FeedReply(success: bool, posts: Option<seq<Post>>)

  /** `getFeedPosts` as intended: a missing reader document makes the request fail (reading
      its lists throws); otherwise the reply carries the feed, newest first. */
  function FeedIntended(posts: seq<Post>, me: UserId, user: Option<User>): (r: FeedReply)
    ensures r.success <==> user.Some?
    ensures user.None? ==> r.posts.None?
    ensures user.Some? ==> r.posts == Some(FeedSelection(posts, FeedAuthors(me, user.value)))
  {
    if user.None? then FeedReply(false, None)
    else FeedReply(true, Some(FeedSelection(posts, FeedAuthors(me, user.value))))
  }

  /** `getFeedPosts` as written: it selects the posts but replies with `{success: true}`
      alone. */
  function FeedAsWritten(posts: seq<Post>, me: UserId, user: Option<User>): (r: FeedReply)
    ensures r.success <==> user.Some?
    ensures r.posts.None?
  {
    if user.None? then FeedReply(false, None) else FeedReply(true, None)
  }

  /** A reader with a post of their own gets a non-empty feed from the intended handler, but
      the reply as written carries no posts at all. */
  lemma FeedAsWrittenDropsPosts(posts: seq<Post>, me: UserId, user: User, k: nat)
    requires k < |posts| && posts[k].author == me
    ensures FeedAsWritten(posts, me, Some(user)).success
    ensures FeedAsWritten(posts, me, Some(user)).posts.None?
    ensures FeedIntended(posts, me, Some(user)).posts.Some?
    ensures posts[k] in FeedIntended(posts, me, Some(user)).posts.value
  {
    assert me in FeedAuthors(me, user);
  }

  /** The post collection behind the controller. */
  class PostStore {
    var posts: seq<Post>

    constructor (posts: seq<Post>)
      ensures this.posts == posts
    {
      this.posts := posts;
    }

    /** `likePost` with the post id read from the request body: a missing post is a failed
        request that changes nothing; otherwise the acting user's like is toggled and saved. */
    method LikePost(userId: UserId, postId: PostId) returns (reply: LikeReply)
      modifies this
      ensures LikeOutcome(reply, posts) == LikeIntended(old(posts), userId, postId)
    {
      var found := FindPost(posts, postId);
      if found.None? {
        return LikeFailed;
      }
      var i := found.value;
      var post := posts[i];
      var likes := post.likes;
      if userId in likes {
        likes := RemoveAll(likes, userId);
        reply := Unliked;
      } else {
        likes := likes + [userId];
        reply := Liked;
      }
      posts := posts[i := post.(likes := likes)];
    }

    /** `getFeedPosts` with the posts in its reply: fails when the reader's user document
        is missing, otherwise replies with the feed posts newest first. */
    method FeedPosts(me: UserId, user: Option<User>) returns (reply: FeedReply)
      ensures reply == FeedIntended(posts, me, user)
    {
      if user.None? {
        return FeedReply(false, None);
      }
      var authors := FeedAuthors(me, user.value);
      reply := FeedReply(true, Some(FeedSelection(posts, authors)));
    }
  }
}

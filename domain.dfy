/** The stored records every part of the system shares: users, posts and chat messages. */
module Domain {
  import opened Common

  type UserId = string
  type PostId = string
  type MessageId = string

  /** Defaults the user schema fills in for fields a creation does not give. */
  const DefaultBio: string := "Hey there! I am using Social Media App."

  /** A user document (`Backend/Models/User.js`); the three graph lists hold user ids.
      `lastLogin` is the field the login handler writes. */
  datatype User = User(
    id: UserId,
    email: string,
    username: string,
    fullName: string,
    bio: string,
    profilePicture: string,
    coverPhoto: string,
    location: string,
    followers: seq<UserId>,
    following: seq<UserId>,
    connections: seq<UserId>,
    lastLogin: Option<int>)

  /** A user created with only the given fields; the schema's defaults fill in the rest. */
  function NewUser(id: UserId, email: string, username: string, fullName: string,
                   profilePicture: string, lastLogin: Option<int>): (u: User)
    ensures u.id == id && u.email == email && u.username == username
    ensures u.fullName == fullName && u.profilePicture == profilePicture && u.lastLogin == lastLogin
    ensures u.bio == DefaultBio && u.coverPhoto == "" && u.location == ""
    ensures u.followers == [] && u.following == [] && u.connections == []
  {
    User(id, email, username, fullName, DefaultBio, profilePicture, "", "", [], [], [], lastLogin)
  }

  datatype MessageKind = Text | Image

  /** A chat message as stored; `seen` starts false and only a thread fetch sets it. */
  datatype Message = Message(
    id: MessageId,
    from: UserId,
    to: UserId,
    text: Option<string>,
    kind: MessageKind,
    mediaUrl: string,
    seen: bool,
    createdAt: int)

  function MessageCreatedAt(m: Message): int { m.createdAt }

  /** A post; `likes` is the `likes_count` list of user ids, `imageUrls` may be missing. */
  datatype Post = Post(
    id: PostId,
    author: UserId,
    content: Option<string>,
    imageUrls: Option<seq<JsValue>>,
    likes: seq<UserId>,
    createdAt: int)

  function PostCreatedAt(p: Post): int { p.createdAt }
}

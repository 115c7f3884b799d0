# Social network core: chat relay, likes, webhooks and client stores

This project models the core of a small social network and proves properties of that model.
The back end, the webhooks and the client stores are JavaScript in the original.

- **Chat back end.** It keeps a registry of open server-sent event streams, one per user.
- **Sending a message.**
  - A send is classified as text or image and persisted.
  - It is acknowledged, then pushed as a `data:` frame to the recipient's stream, if one is open.
- **Reading messages.**
  - A thread fetch returns both directions of a conversation, newest first.
  - It then marks the other party's messages as seen.
  - The recent-messages query returns everything addressed to a user.
- **Post handlers.** A like toggle and the feed selection.
- **Identity-provider webhooks.** Four handlers keep the user collection in step with the identity provider:
  - creation, with its fallback email and username collision suffix;
  - update;
  - deletion;
  - first login.
- **Client stores.** Two of them:
  - the signed-in user's store, with its hand-written follower and connection reducers;
  - the network store, with its fetch life cycle.
- **Messages page merge.** It de-duplicates the connections and followed users into one list of people to message.
- **Post card.**
  - image URL validation;
  - the optimistic like with its revert;
  - the whitespace split used to highlight hashtags;
  - the avatar initial.

Stateful parts are Dafny classes whose methods change their fields:
- the stream registry and message store (`MessageController.MessageHub`);
- the post collection (`PostController.PostStore`);
- the user collection (`UserSync.UserStore`);
- the two client stores (`UserSlice.Slice`, `ConnectionsSlice.Slice`);
- the two `forEach` passes over a `Map` (methods with loops in `MessageableUsers`).

Each method's contract ties the new state to a function of the old one. The properties are lemmas about those functions.

One more part is modelled so that frames can be read back. `EventStream` is a reader of the `text/event-stream` format (section 9.2.6 of the WHATWG HTML Living Standard). Lemmas prove that a subscriber dispatches exactly the payloads pushed to it, in order.

Two handlers in `Backend/controllers/postController.js` do not do what their surrounding code evidently intends (see "## Findings"):
- The like handler fails every request.
- The feed handler replies without the posts it selected.

Both are modelled as written and as intended. `PostCard.LikeAsWrittenNeverSticks` shows the effect on the client: against the handler as written, the card always reverts its optimistic update.

Modules:
- `Common`: the Option type, JavaScript values, and list helpers.
- `JsText`: `trim`, `String(n)`, `split(c)[0]`, `||` and `toUpperCase` on `seq<char>`.
- `Domain`: the user, post and message records.
- `Ordering`: the store's newest-first sort.
- `EventStream`, `MessageController`, `PostController`, `UserSync`, `UserSlice`, `ConnectionsSlice`, `MessageableUsers`, `PostCard`: one per core file.

## Model

| member | source | states |
|---|---|---|
| Domain.NewUser | Backend/Models/User.js:3-52 | a created user has exactly the given id, email, username, name, picture and login time;<br>the schema defaults fill the rest: the fixed bio, empty cover photo and location, empty graph lists |
| Ordering.NewestFirstPairwise | Backend/controllers/messageController.js:94 | in a newest-first list every earlier record is at least as new as every later one, not only its neighbour |
| Ordering.InsertNewest | Backend/controllers/messageController.js:94 | inserting into a newest-first list keeps it newest first and adds exactly the one record |
| Ordering.SortNewestFirst | Backend/controllers/messageController.js:94 | the sort's result is newest first and a permutation of its input |
| Ordering.SelectNewest | Backend/controllers/postController.js:65-67 | a filtered, sorted query returns exactly the matching records, each as often as stored, newest first |
| EventStream.ProcessLine | Backend/controllers/messageController.js:70 | processing one line only ever extends the data buffer;<br>a comment line leaves it unchanged |
| EventStream.Parse | Backend/controllers/messageController.js:70 | text with no line feed dispatches nothing yet;<br>a stream dispatches at most as many events as it has characters |
| EventStream.DataFramesAppend | Backend/controllers/messageController.js:70 | the frames of one more payload are the old frames plus that payload's frame |
| EventStream.ParseLine | Backend/controllers/messageController.js:70 | a reader folds a complete non-empty line into its data buffer before reading on |
| EventStream.ParseBlank | Backend/controllers/messageController.js:70 | a blank line dispatches the buffered data, without its final line feed and only when there is any, then empties the buffer |
| EventStream.ConnectedLineIgnored | Backend/controllers/messageController.js:23 | the subscription line names the field `log`, which a reader ignores, so the buffer stays empty |
| EventStream.ConnectedFrameIsSilent | Backend/controllers/messageController.js:23 | the subscription frame makes a client dispatch no event |
| EventStream.DataLineBuffers | Backend/controllers/messageController.js:70 | a `data: ` line of a one-line payload buffers exactly that payload and a line feed |
| EventStream.DataFrameDispatches | Backend/controllers/messageController.js:70 | one pushed frame makes a client dispatch exactly its payload, whatever follows |
| EventStream.DataFramesDispatch | Backend/controllers/messageController.js:70 | a run of pushed frames dispatches exactly their payloads, in order |
| EventStream.ClientReceives | Backend/controllers/messageController.js:20-23 | a subscriber's stream (subscription frame, then pushes) dispatches exactly the pushed payloads, in order |
| MessageController.KindOf | Backend/controllers/messageController.js:40 | a message is an image exactly when a file came with it and text exactly when none did |
| MessageController.MediaUrl | Backend/controllers/messageController.js:39-57 | the media URL is empty without a file and is the hosted URL after a successful upload |
| MessageController.InThread | Backend/controllers/messageController.js:89-93 | a thread message is sent and received between the two users only;<br>for a self-chat it is exactly a message from the user to themselves |
| MessageController.Thread | Backend/controllers/messageController.js:89-94 | the thread query returns exactly the messages of the two-way conversation, as often as stored, newest first |
| MessageController.Inbox | Backend/controllers/messageController.js:110 | the recent-messages query returns exactly the messages addressed to the user, as often as stored, newest first |
| MessageController.MarkSeen | Backend/controllers/messageController.js:96-98 | every message from the other party to the reader is marked seen;<br>every other message is unchanged |
| MessageController.MarkSeenIdempotent | Backend/controllers/messageController.js:96-98 | fetching a thread a second time marks nothing more |
| MessageController.MarkSeenKeepsThread | Backend/controllers/messageController.js:96-98 | marking seen changes no message's parties, text, kind, media or time, so thread membership is unchanged |
| MessageController.MessageHub.constructor | Backend/controllers/messageController.js:6 | the registry starts empty, with no stream written and no message stored |
| MessageController.MessageHub.Connect | Backend/controllers/messageController.js:9-23 | a new stream is registered for the user, replacing any earlier one;<br>it holds exactly the subscription frame and nothing else changes |
| MessageController.MessageHub.ConnectKeepsValid | Backend/controllers/messageController.js:20-23 | registering a fresh stream keeps every stream equal to the subscription frame followed by its pushed frames |
| MessageController.MessageHub.Close | Backend/controllers/messageController.js:26-30 | closing removes the user's registry entry and no other;<br>nothing already written changes |
| MessageController.MessageHub.SendMessage | Backend/controllers/messageController.js:33-82 | a send whose upload and insert succeed stores exactly one message and acknowledges it;<br>it writes one data frame to the recipient's stream only when one is registered;<br>a failed upload or insert stores and writes nothing |
| MessageController.MessageHub.Deliver | Backend/controllers/messageController.js:68-76 | a push reaches the recipient's registered stream and no other, and only when one is registered |
| MessageController.MessageHub.PushKeepsValid | Backend/controllers/messageController.js:70 | appending one single-line payload's frame keeps every stream well formed |
| MessageController.MessageHub.GetChatMessages | Backend/controllers/messageController.js:84-106 | the reply is the conversation as it was before the update, newest first;<br>afterwards the other party's messages to the reader are seen |
| MessageController.MessageHub.GetUserRecentMessages | Backend/controllers/messageController.js:107-118 | the reply holds exactly the user's incoming messages, each as often as stored, newest first |
| MessageController.MessageHub.ClientSeesPushed | Backend/controllers/messageController.js:68-72 | whatever was written to a stream, its client dispatches exactly the messages pushed to it, in order |
| PostController.LikeToggled | Backend/controllers/postController.js:83-94 | a present user is removed entirely, every other entry keeping its count;<br>an absent user is appended once;<br>the user's membership flips |
| PostController.ToggleLikes | Backend/controllers/postController.js:89-93 | liking appends the user once, keeping every earlier entry in place |
| PostController.ToggleUnlikes | Backend/controllers/postController.js:83-88 | unliking removes every occurrence of the user and keeps all other entries in order |
| PostController.ToggleTwiceRestores | Backend/controllers/postController.js:83-94 | a like followed by an unlike gives back the original list |
| PostController.ToggleFlipsOnlyActor | Backend/controllers/postController.js:83-94 | a toggle flips the acting user's membership and no other user's count |
| PostController.FindPost | Backend/controllers/postController.js:81 | the lookup finds a post with the id, or reports that none has it |
| PostController.FeedAuthors | Backend/controllers/postController.js:64 | the feed's authors are exactly the reader, their connections and the users they follow |
| PostController.FeedSelection | Backend/controllers/postController.js:65-67 | the feed holds exactly the posts by those authors, newest first |
| PostController.LikeIntended | Backend/controllers/postController.js:77-101 | a missing post is a failed request that changes nothing;<br>otherwise only that post's like list changes, it is toggled, and the reply says which way |
| PostController.LikeAsWritten | Backend/controllers/postController.js:77-101 | the handler as written always replies with failure and leaves every post unchanged |
| PostController.LikeAsWrittenNeverToggles | Backend/controllers/postController.js:80 | for an existing post the handler as written fails and changes nothing, where the intended one toggles |
| PostController.FeedIntended | Backend/controllers/postController.js:58-75 | the feed request fails exactly when the reader's document is missing, and otherwise replies with the selected posts |
| PostController.FeedAsWritten | Backend/controllers/postController.js:58-75 | the feed as written succeeds exactly when the reader's document exists, and never carries posts |
| PostController.FeedAsWrittenDropsPosts | Backend/controllers/postController.js:68 | a reader with a post of their own has it in the intended feed, while the reply as written carries no posts |
| PostController.PostStore.constructor | Backend/controllers/postController.js:81 | the store holds the given posts |
| PostController.PostStore.LikePost | Backend/controllers/postController.js:77-101 | the like request leaves the reply and the posts the intended handler describes |
| PostController.PostStore.FeedPosts | Backend/controllers/postController.js:58-75 | the feed request replies as the intended handler describes |
| UserSync.WithDefault | Backend/inngest/index.js:18 | a destructuring default replaces a missing value only, never `null` |
| UserSync.FirstEmail | Backend/inngest/index.js:21 | the first address of the list, or nothing when the list is missing or empty |
| UserSync.CreationEmail | Backend/inngest/index.js:21 | a new user's email is the first address when it is non-empty, else `user<now>@example.com`;<br>it is never empty |
| UserSync.BaseUsername | Backend/inngest/index.js:22 | the username starts as the longest prefix of the email without `@`, ending at the first `@` |
| UserSync.PlaceholderUsername | Backend/inngest/index.js:21-22 | a user created without an address gets `user<now>` as base username |
| UserSync.Suffix | Backend/inngest/index.js:27 | the collision suffix is the floor of 10000 times the random number, so it lies in 0..9999 |
| UserSync.ChosenUsername | Backend/inngest/index.js:25-28 | a free base name is kept;<br>a taken one gets the suffix appended |
| UserSync.SuffixNotRechecked | Backend/inngest/index.js:25-36 | a suffixed name that is taken as well is not tried again, and the creation stores nothing |
| UserSync.CreationFullName | Backend/inngest/index.js:33 | the creation full name is the rendered first name, one space, then the rendered last name, with the destructuring defaults `New` and `User` of line 18 |
| UserSync.CreationFullNameDefaults | Backend/inngest/index.js:18 | missing names default to `New` and `User`;<br>a `null` name is rendered as the text `null` |
| UserSync.UpdateFullName | Backend/inngest/index.js:53-58 | the updated full name is the two rendered names joined by one space (missing names defaulting to empty), with only the outer whitespace removed;<br>it is empty or starts and ends with a non-whitespace character |
| UserSync.UpdateFullNameBothMissing | Backend/inngest/index.js:53-58 | an update with neither name stores an empty full name, since the lone separator is trimmed |
| UserSync.UpdateFullNameBothGiven | Backend/inngest/index.js:53-58 | an update with two names that have no outer whitespace stores them joined by one space |
| UserSync.UpdateFullNameOnlyFirst | Backend/inngest/index.js:53-58 | an update with only an unpadded first name stores that name alone, since the trailing separator is trimmed |
| UserSync.UpdateFullNameOnlyLast | Backend/inngest/index.js:53-58 | an update with only an unpadded last name stores that name alone, since the leading separator is trimmed |
| UserSync.LoginUser | Backend/inngest/index.js:98-110 | a first login creates the user with the login time and an empty picture;<br>each of email, username and full name is the metadata's value when that is a non-empty string, else `user<now>@example.com`, `user<now>` and `New User`;<br>email and username are never empty |
| UserSync.UserStore.constructor | Backend/inngest/index.js:13 | the collection holds the given users |
| UserSync.CanInsert | Backend/Models/User.js:3-16 | an accepted document has a non-empty id that is not stored yet, and no stored user has its username |
| UserSync.CreatedUser | Backend/inngest/index.js:30-36 | the created document has the event's id, the chosen email and username, the creation full name and the image URL (empty when missing);<br>it has the default bio, no login time and empty follower, following and connection lists |
| UserSync.UserStore.Create | Backend/Models/User.js:3-16 | an insert happens exactly when the id is non-empty and unused, the username is unused, and the required email and username are non-empty;<br>otherwise nothing changes |
| UserSync.UserStore.SyncUserCreation | Backend/inngest/index.js:13-43 | the creation event stores the user with the chosen email and username when the insert is accepted, and otherwise nothing |
| UserSync.UserStore.SyncUserUpdation | Backend/inngest/index.js:48-67 | an existing user gets exactly its email, name and picture overwritten;<br>an unknown id changes nothing |
| UserSync.UserStore.SyncUserDeletion | Backend/inngest/index.js:77 | exactly the event's user is removed |
| UserSync.UserStore.SyncUserLogin | Backend/inngest/index.js:93-118 | a known user only gets a new login time;<br>an unknown one is created from the session's metadata or the defaults |
| UserSlice.AddTo | Frontend/src/features/user/userSlice.js:60-64 | with a user loaded, the id ends up in the list, which is unchanged when it already held the id;<br>no other field changes, and without a user nothing changes |
| UserSlice.AddToIdempotent | Frontend/src/features/user/userSlice.js:72-77 | adding the same id twice is adding it once |
| UserSlice.AddToKeepsNoDup | Frontend/src/features/user/userSlice.js:86-91 | an add never creates a duplicate in a list without one |
| UserSlice.RemoveFrom | Frontend/src/features/user/userSlice.js:65-71 | with a user loaded the id is gone from the list and no other field changes;<br>without a user nothing changes |
| UserSlice.RemoveFromKeepsOthers | Frontend/src/features/user/userSlice.js:78-85 | removal drops exactly the entries equal to the id and keeps the rest in order |
| UserSlice.AddThenRemoveRestores | Frontend/src/features/user/userSlice.js:60-71 | removing an id just added to a list without it restores the state |
| UserSlice.UpdateFollowers | Frontend/src/features/user/userSlice.js:53-59 | each list given in the payload replaces the stored one;<br>a missing one is kept, as is every other field |
| UserSlice.UpdateFollowersEmptyPayload | Frontend/src/features/user/userSlice.js:53-59 | a payload with neither list changes nothing |
| UserSlice.ReplyPayload | Frontend/src/features/user/userSlice.js:18 | the thunk yields the user exactly when the server reports success |
| UserSlice.RejectionValue | Frontend/src/features/user/userSlice.js:21 | a failure carries the response body when there is a non-empty one, else the fallback text |
| UserSlice.Pending | Frontend/src/features/user/userSlice.js:95-98 | a fetch starts loading with no error and keeps the user |
| UserSlice.Fulfilled | Frontend/src/features/user/userSlice.js:99-102 | a completed fetch stops loading, installs the payload (even `null`) and keeps the error |
| UserSlice.Rejected | Frontend/src/features/user/userSlice.js:103-106 | a rejected fetch stops loading, records the error and keeps the user |
| UserSlice.UpdateFulfilled | Frontend/src/features/user/userSlice.js:107-109 | a completed update installs its payload and touches nothing else |
| UserSlice.FetchUnsuccessfulClearsUser | Frontend/src/features/user/userSlice.js:18 | a fetch answered with `success: false` leaves no user, not loading, no error |
| UserSlice.FetchFailureKeepsUser | Frontend/src/features/user/userSlice.js:21 | a failed fetch keeps the user and records the response body or the fallback |
| UserSlice.Slice.constructor | Frontend/src/features/user/userSlice.js:5-9 | the slice starts with no user, not loading, no error |
| UserSlice.Slice.UpdateUserFollowers | Frontend/src/features/user/userSlice.js:53-59 | the reducer leaves the state that `UpdateFollowers` describes |
| UserSlice.Slice.AddFollower | Frontend/src/features/user/userSlice.js:60-64 | the reducer adds the id to the followers as `AddTo` describes |
| UserSlice.Slice.RemoveFollower | Frontend/src/features/user/userSlice.js:65-71 | the reducer removes the id from the followers as `RemoveFrom` describes |
| UserSlice.Slice.AddFollowing | Frontend/src/features/user/userSlice.js:72-77 | the reducer adds the id to the followed users |
| UserSlice.Slice.RemoveFollowing | Frontend/src/features/user/userSlice.js:78-85 | the reducer removes the id from the followed users |
| UserSlice.Slice.AddConnection | Frontend/src/features/user/userSlice.js:86-91 | the reducer adds the id to the connections |
| UserSlice.Slice.FetchUserPending | Frontend/src/features/user/userSlice.js:95-98 | the reducer leaves the state `Pending` describes |
| UserSlice.Slice.FetchUserFulfilled | Frontend/src/features/user/userSlice.js:99-102 | the reducer leaves the state `Fulfilled` describes |
| UserSlice.Slice.FetchUserRejected | Frontend/src/features/user/userSlice.js:103-106 | the reducer leaves the state `Rejected` describes |
| UserSlice.Slice.UpdateUserFulfilled | Frontend/src/features/user/userSlice.js:107-109 | the reducer leaves the state `UpdateFulfilled` describes |
| ConnectionsSlice.ReplyPayload | Frontend/src/features/connections/connectionsSlice.js:29 | the thunk yields the reply body exactly when the server reports success |
| ConnectionsSlice.Cleared | Frontend/src/features/connections/connectionsSlice.js:41-47 | clearing empties the four lists and keeps loading, error and fetch time |
| ConnectionsSlice.ClearedIdempotent | Frontend/src/features/connections/connectionsSlice.js:41-47 | clearing twice is clearing once, and the initial state is already clear |
| ConnectionsSlice.Pending | Frontend/src/features/connections/connectionsSlice.js:51-55 | a fetch starts loading with no error and keeps the lists and fetch time |
| ConnectionsSlice.Fulfilled | Frontend/src/features/connections/connectionsSlice.js:56-71 | a non-null payload replaces all four lists (missing ones by empty lists) and stamps the fetch time;<br>a null one only stops loading |
| ConnectionsSlice.Rejected | Frontend/src/features/connections/connectionsSlice.js:72-76 | a rejection stops loading, records the error and keeps the lists |
| ConnectionsSlice.UnsuccessfulFetchKeepsLists | Frontend/src/features/connections/connectionsSlice.js:29 | a fetch answered with `success: false` keeps the lists and fetch time and ends with no error |
| ConnectionsSlice.EmptyReplyClears | Frontend/src/features/connections/connectionsSlice.js:59-63 | a successful reply without any list empties all four and stamps the fetch time |
| ConnectionsSlice.FetchFailureKeepsLists | Frontend/src/features/connections/connectionsSlice.js:32 | a failed fetch keeps the lists and records the response body or the fallback |
| ConnectionsSlice.Slice.constructor | Frontend/src/features/connections/connectionsSlice.js:4-12 | the slice starts with four empty lists, not loading, no error, never fetched |
| ConnectionsSlice.Slice.ClearConnections | Frontend/src/features/connections/connectionsSlice.js:41-47 | the reducer leaves the state `Cleared` describes |
| ConnectionsSlice.Slice.FetchPending | Frontend/src/features/connections/connectionsSlice.js:51-55 | the reducer leaves the state `Pending` describes |
| ConnectionsSlice.Slice.FetchFulfilled | Frontend/src/features/connections/connectionsSlice.js:56-71 | the reducer leaves the state `Fulfilled` describes, with `now` as the fetch time |
| ConnectionsSlice.Slice.FetchRejected | Frontend/src/features/connections/connectionsSlice.js:72-76 | the reducer leaves the state `Rejected` describes |
| MessageableUsers.Dedup | Frontend/src/pages/Messages.jsx:19 | the distinct ids, each once, and no others |
| MessageableUsers.DedupAppend | Frontend/src/pages/Messages.jsx:15-18 | deduplicating two lists in a row gives the distinct ids of the first, then those of the second not in the first |
| MessageableUsers.SetPassState | Frontend/src/pages/Messages.jsx:15 | after setting every connection, the map's keys are the distinct connection ids in first-insertion order, each mapped to its last connection |
| MessageableUsers.AddPassState | Frontend/src/pages/Messages.jsx:16-18 | after the guarded pass over the followed users, the map holds the merged record for every id of either list |
| MessageableUsers.SetConnections | Frontend/src/pages/Messages.jsx:15 | the connections loop leaves each distinct id mapped to its last connection, the keys in first-insertion order |
| MessageableUsers.AddFollowing | Frontend/src/pages/Messages.jsx:16-18 | the following loop adds each followed user whose id is not yet in the map and replaces none |
| MessageableUsers.ValuesInOrder | Frontend/src/pages/Messages.jsx:19 | `Array.from(map.values())` lists the records in key order |
| MessageableUsers.Merge | Backend/src/pages/Messages.jsx:15-29 | the computed list is the declarative merge of the connections and followed users, missing lists read as empty |
| MessageableUsers.Merged | Frontend/src/pages/Messages.jsx:13-20 | the merge is no longer than both lists together, and every record in it comes from one of them |
| MessageableUsers.MergedIds | Frontend/src/pages/Messages.jsx:13-20 | the merge's ids are the distinct ids of both lists, with no repetition |
| MessageableUsers.MergedMembership | Frontend/src/pages/Messages.jsx:13-20 | an id appears in the merge exactly when a connection or a followed user has it |
| MessageableUsers.MergedOrder | Frontend/src/pages/Messages.jsx:13-20 | connection ids come first in first-seen order, then followed users who are not connections |
| MessageableUsers.MergedKeepsConnectionRecord | Frontend/src/pages/Messages.jsx:15-17 | a connection's record always wins over a followed user's, and every record comes from one of the lists |
| MessageableUsers.MergedLength | Frontend/src/pages/Messages.jsx:13-20 | the merge is never longer than the two lists together |
| MessageableUsers.MergedDisjoint | Frontend/src/pages/Messages.jsx:13-20 | without repeated or shared ids the merge is the connections followed by the followed users |
| PostCard.IsValidImageUrl | Frontend/src/components/PostCard.jsx:28-30 | a usable URL is a non-empty string whose trim is non-empty and starts with a non-whitespace character |
| PostCard.IsValidImageUrlIff | Frontend/src/components/PostCard.jsx:28-30 | a value is a usable URL exactly when it is a string with a non-whitespace character that is not the text `undefined` or `null` |
| PostCard.ValidImages | Frontend/src/components/PostCard.jsx:78 | exactly the valid URLs of the post are shown, none when the field is missing |
| PostCard.ValidImagesOrder | Frontend/src/components/PostCard.jsx:78 | the selection keeps the order of the URLs and keeps an all-valid list whole |
| PostCard.OptimisticLikes | Frontend/src/components/PostCard.jsx:39-44 | an unlike drops every occurrence of the user;<br>a like appends the user once |
| PostCard.RevertLikes | Frontend/src/components/PostCard.jsx:53-68 | a failed unlike appends the user back;<br>a failed like drops every occurrence of the user |
| PostCard.OptimisticMatchesServer | Frontend/src/components/PostCard.jsx:39-44 | the optimistic list is the list the server stores after its own toggle |
| PostCard.RevertAfterLikeRestores | Frontend/src/components/PostCard.jsx:53-61 | a failed like is undone exactly |
| PostCard.RevertAfterUnlike | Frontend/src/components/PostCard.jsx:53-61 | a failed unlike restores the user once, at the end, with every other entry as before |
| PostCard.RevertAfterUnlikeRestores | Frontend/src/components/PostCard.jsx:62-68 | the revert restores the original list when the user liked once, as its last entry |
| PostCard.RevertAfterUnlikeRestoresIff | Frontend/src/components/PostCard.jsx:53-68 | a failed unlike gives the original list back exactly when the user liked once, as its last entry |
| PostCard.HandleLike | Frontend/src/components/PostCard.jsx:32-72 | nothing happens without a signed-in user;<br>an accepted request leaves the server's toggle;<br>a rejected like is undone exactly;<br>a rejected unlike brings the user back once, every other entry kept |
| PostCard.LikeAsWrittenNeverSticks | Frontend/src/components/PostCard.jsx:53-68 | against the like handler as written, which fails every request, a like is always taken back and an unlike puts the user back |
| PostCard.SplitWordsShape | Frontend/src/components/PostCard.jsx:17 | the split loses no text;<br>words and non-empty whitespace runs alternate, starting and ending with a word;<br>only the first and last word may be empty |
| PostCard.SplitWords | Frontend/src/components/PostCard.jsx:17 | splitting text always gives at least one piece |
| PostCard.Words | Frontend/src/components/PostCard.jsx:17 | no content gives no pieces;<br>content gives a non-empty list of pieces that concatenate back to it |
| PostCard.HashtagsAreWords | Frontend/src/components/PostCard.jsx:125-130 | rendering the pieces gives the content back, and every highlighted piece is a whole word |
| PostCard.AvatarInitial | Frontend/src/components/PostCard.jsx:108 | one character: the upper-cased first letter of the name, else of the username, else `?`;<br>never a lower-case ASCII letter |
| JsText.Trim | Backend/inngest/index.js:58 | a trim is its input with only outer whitespace removed: a slice with whitespace alone before and after it;<br>it is empty or starts and ends with a non-whitespace character |
| JsText.TrimEmptyIff | Frontend/src/components/PostCard.jsx:29 | a string trims to nothing exactly when it is whitespace only |
| JsText.TrimUnpadded | Backend/inngest/index.js:58 | a string that starts and ends with a non-whitespace character is its own trim |
| JsText.NatToDecimal | Backend/inngest/index.js:27 | the rendering of a number is a decimal numeral |
| JsText.NatToDecimalRoundTrip | Backend/inngest/index.js:27 | the decimal rendering of a number reads back as that number |
| JsText.NatToDecimalInjective | Backend/inngest/index.js:27 | distinct numbers render differently, so distinct suffixes give distinct names |
| JsText.BeforeFirst | Backend/inngest/index.js:22 | the text before the first separator is a prefix without the separator, followed in the input by the separator when shorter than it |
| JsText.BeforeFirstUpTo | Backend/inngest/index.js:22 | the text before the first `@` of `name@rest`, when `name` has no `@`, is `name` |
| JsText.OrElse | Backend/inngest/index.js:100-102 | JavaScript's logical or on an optional string: a missing or empty string falls back to the default, any other is kept |
| JsText.UpperAscii | Frontend/src/components/PostCard.jsx:108 | lower-case ASCII letters are mapped to upper case and every other character is kept |

## Left out

- The stream headers, the console logging and the toasts have no effect on the modelled state.
- The close listener's wiring is not modelled. `Close` is an operation anyone may call, not a callback bound to one request.
- Writing to a stream that has already closed is not modelled. The registry here has no way to notice a dead stream.
- The image upload and its URL transformation are I/O. Their outcome is a parameter of `SendMessage`: a hosted URL or a failure.
- The store's insert outcome and the Message ids and times are parameters. So are `now` and `Date.now()`.
- The login handler reads the clock three times (`inngest/index.js:100`, `:101` and `:109`). The model merges these reads into the single `now` of `LoginUser`, so it does not capture a placeholder email, username and login time drawn from different instants.
- The model leaves out several failure paths where the source replies or returns differently:
  - A rejected `post.save()` in the like handler (`postController.js:86` and `:91`) replies with failure and persists nothing; `LikeIntended` always saves.
  - A rejected `Message.find` or `updateMany` in the thread and recent-messages handlers replies with failure; the model's queries always succeed.
  - A rejected `Message.findById(...).populate` after the acknowledgement in `sendMessage` pushes nothing; `serialize` is total, so the model always pushes to a connected recipient.
  - An event whose `email_addresses` is `null` (`inngest/index.js:18` and `:54`) keeps the `null`, because a destructuring default replaces only a missing value. `null[0]` then throws and no user is created or updated. The model's `Option` list treats `null` like a missing list and uses the placeholder or empty email.
- `populate` and `JSON.stringify` are left out. The `serialize` parameter of `SendMessage` stands for them; the model only requires its text to fit on one line.
- `Backend/Models/Message.js` is not part of this model. The message record follows the fields the controller writes.
- `Backend/Models/Post.js` is not part of this model. The post record follows the fields the controller and the card read.
- `Backend/Models/User.js` has no `lastLogin` field, so a strict schema would drop what the login handler writes. The model keeps the field, as the handler intends.
- The collision suffix takes the random number as a parameter in [0, 1). Floating-point rounding of `Math.random() * 10000` is not modelled.
- `UserSync.SuffixNotRechecked` is concrete on purpose: it shows one collision of the suffixed name.
- The event-stream reader handles LF line endings only. This rests on an assumption: `SingleLine` requires the `serialize` text to contain neither CR nor LF, as `JSON.stringify` without indentation produces. The `data: ` prefix and the blank line the server adds contain no CR either.
- `UpperAscii` maps only ASCII letters. `toUpperCase` on other characters is not modelled.
- `AvatarInitial` reads a name as a sequence of Unicode scalar values, while JavaScript's `charAt(0)` reads UTF-16 code units. For a name whose first character lies outside the Basic Multilingual Plane (an emoji, say), the source shows a lone high surrogate; the model shows the whole character.
- Concurrency is not modelled. Interleaved requests, a second like click before the first reply, and the `setLikes` updaters running against newer state are all out of scope.
- `Connect` requires a handle not used before, since each request has its own response object.
- Ids are compared as strings. The `toString()` calls before comparing ids in the remove reducers do not change that.
- Network error bodies are modelled as an optional string. A body that is a JSON object is not distinguished.
- `updateUser` has no rejected reducer, so a failed update changes nothing in the slice. The thunk's toast is not modelled.
- An `image_url` of `null` is treated like a missing one, giving an empty picture.
- The connection-request records in `Backend/Models/Connections.js` are not used by the core handlers.
- Three behaviours of the code worth noting:
  - the close listener deletes the entry for the user unconditionally, even if a newer stream replaced it;
  - a message with neither text nor file is stored like any other, with no validation;
  - no connection-request reminder workflow exists among the webhooks.

## Findings

| source | as written | input that shows it | evidently intended | confidence | as-written member | corrected member |
|---|---|---|---|---|---|---|
| Backend/controllers/postController.js:80 | `req.body()` calls the parsed body object, which throws before the lookup. The catch replies with failure, so no like is ever saved. | a like by `u1` on an existing post `p1` | read `postId` from `req.body` and toggle the like | not executed | PostController.LikeAsWrittenNeverToggles | PostController.LikeIntended |
| Backend/controllers/postController.js:68 | the reply is `{success: true}` without the posts selected at lines 65-67 | a reader who has a post of their own | reply with the selected posts | not executed | PostController.FeedAsWrittenDropsPosts | PostController.FeedIntended |

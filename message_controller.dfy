/** The chat back end (`Backend/controllers/messageController.js`): the registry of open
    event-stream responses, sending a message, and the two message queries. */
module MessageController {
  import opened Common
  import opened Domain
  import opened Ordering
  import opened EventStream

  /** Identity of one open event-stream response object. */
  type HandleId = nat

  /** The uploaded file of a send request: none, or one whose upload to the image service
      produced a hosted URL (`None` when the upload threw). */
  datatype Attachment = NoFile | File(hostedUrl: Option<string>)

  /** The JSON reply to the sender. */
  datatype SendReply = Sent(message: Message) | SendFailed

  /** `message_type`: an uploaded file makes an image message, anything else a text one. */
  function KindOf(file: Attachment): (k: MessageKind)
    ensures k == Image <==> file.File?
    ensures k == Text <==> file.NoFile?
  {
    if file.File? then Image else Text
  }

  /** `media_url`: the hosted URL of a successful upload, otherwise the empty string. */
  function MediaUrl(file: Attachment): (url: string)
    ensures file.NoFile? ==> url == ""
    ensures file.File? && file.hostedUrl.Some? ==> url == file.hostedUrl.value
  {
    if file.File? && file.hostedUrl.Some? then file.hostedUrl.value else ""
  }

  /** The upload step either succeeded or was not needed. */
  predicate UploadOk(file: Attachment) {
    file.NoFile? || file.hostedUrl.Some?
  }

  /** A message of the two-way conversation between `me` and `other`. */
  predicate InThread(m: Message, me: UserId, other: UserId)
    ensures InThread(m, me, other) ==> (m.from == me || m.from == other) && (m.to == me || m.to == other)
    ensures me == other ==> (InThread(m, me, other) <==> m.from == me && m.to == me)
  {
    (m.from == me && m.to == other) || (m.from == other && m.to == me)
  }

  /** The thread query: both directions of the conversation, newest first. */
  function Thread(msgs: seq<Message>, me: UserId, other: UserId): (r: seq<Message>)
    ensures NewestFirst(r, MessageCreatedAt)
    ensures forall m :: m in r ==> m in msgs && InThread(m, me, other)
    ensures forall i :: 0 <= i < |msgs| && InThread(msgs[i], me, other) ==> msgs[i] in r
    ensures forall m :: multiset(r)[m] == if InThread(m, me, other) then multiset(msgs)[m] else 0
  {
    SelectNewest(msgs, (m: Message) => InThread(m, me, other), MessageCreatedAt)
  }

  /** The recent-messages query: everything addressed to `me`, newest first. */
  function Inbox(msgs: seq<Message>, me: UserId): (r: seq<Message>)
    ensures NewestFirst(r, MessageCreatedAt)
    ensures forall m :: m in r ==> m in msgs && m.to == me
    ensures forall i :: 0 <= i < |msgs| && msgs[i].to == me ==> msgs[i] in r
    ensures forall m :: multiset(r)[m] == if m.to == me then multiset(msgs)[m] else 0
  {
    SelectNewest(msgs, (m: Message) => m.to == me, MessageCreatedAt)
  }

  /** The read-receipt update: every message from `sender` to `reader` is marked seen. */
  function MarkSeen(msgs: seq<Message>, sender: UserId, reader: UserId): (r: seq<Message>)
    ensures |r| == |msgs|
    ensures forall i :: 0 <= i < |msgs| && msgs[i].from == sender && msgs[i].to == reader
                        ==> r[i] == msgs[i].(seen := true)
    ensures forall i :: 0 <= i < |msgs| && !(msgs[i].from == sender && msgs[i].to == reader)
                        ==> r[i] == msgs[i]
    decreases |msgs|
  {
    if msgs == [] then []
    else
      var m := msgs[0];
      var m' := if m.from == sender && m.to == reader then m.(seen := true) else m;
      [m'] + MarkSeen(msgs[1..], sender, reader)
  }

  /** Fetching a thread twice marks nothing more the second time. */
  lemma MarkSeenIdempotent(msgs: seq<Message>, sender: UserId, reader: UserId)
    ensures MarkSeen(MarkSeen(msgs, sender, reader), sender, reader) == MarkSeen(msgs, sender, reader)
  {
  }

  /** Marking messages seen changes no message's parties, text, kind, media or time,
      so the conversation a later fetch selects is the same one, flags aside. */
  lemma MarkSeenKeepsThread(msgs: seq<Message>, sender: UserId, reader: UserId, me: UserId, other: UserId)
    ensures forall i :: 0 <= i < |msgs| ==>
      (InThread(MarkSeen(msgs, sender, reader)[i], me, other) <==> InThread(msgs[i], me, other))
    ensures forall i :: 0 <= i < |msgs| ==>
      MarkSeen(msgs, sender, reader)[i].(seen := msgs[i].seen) == msgs[i]
  {
  }

  /** The live registry and the message store behind the controller. `connections` maps each
      subscribed user to the response that subscribed last; `written` is everything written to
      each response, frame by frame; `pushed` is the payloads pushed to each response. */
  class MessageHub {
    var connections: map<UserId, HandleId>
    var written: map<HandleId, seq<string>>
    var messages: seq<Message>
    ghost var pushed: map<HandleId, seq<string>>

    /** Every registered response is open, and every response's text is the subscription
        frame followed by one data frame per pushed payload. */
    ghost predicate Valid()
      reads this
    {
      && (forall u :: u in connections ==> connections[u] in written)
      && written.Keys == pushed.Keys
      && (forall h :: h in written ==> written[h] == [ConnectedFrame] + DataFrames(pushed[h]))
      && (forall h, k :: h in pushed && 0 <= k < |pushed[h]| ==> SingleLine(pushed[h][k]))
    }

    constructor ()
      ensures Valid()
      ensures connections == map[] && written == map[] && messages == []
    {
      connections := map[];
      written := map[];
      messages := [];
      pushed := map[];
    }

    /** `sseController`: a new response subscribes for `userId`, replacing any earlier one,
        and gets the subscription frame. */
    method Connect(userId: UserId, handle: HandleId)
      requires Valid()
      requires handle !in written
      modifies this
      ensures Valid()
      ensures connections == old(connections)[userId := handle]
      ensures written == old(written)[handle := [ConnectedFrame]]
      ensures messages == old(messages)
    {
      ConnectKeepsValid(userId, handle);
      connections := connections[userId := handle];
      written := written[handle := [ConnectedFrame]];
      pushed := pushed[handle := []];
    }

    /** Registering a fresh response with nothing pushed to it keeps the streams well formed. */
    lemma ConnectKeepsValid(userId: UserId, handle: HandleId)
      requires Valid() && handle !in written
      ensures var c := connections[userId := handle];
              var w := written[handle := [ConnectedFrame]];
              var p := pushed[handle := []];
              && (forall u :: u in c ==> c[u] in w)
              && w.Keys == p.Keys
              && (forall g :: g in w ==> w[g] == [ConnectedFrame] + DataFrames(p[g]))
              && (forall g, k :: g in p && 0 <= k < |p[g]| ==> SingleLine(p[g][k]))
    {
      assert DataFrames([]) == [];
    }

    /** The `close` listener registered by `sseController`: it deletes the entry for
        `userId` whichever response the entry holds by now. */
    method Close(userId: UserId)
      requires Valid()
      modifies this
      ensures Valid()
      ensures connections == old(connections) - {userId}
      ensures written == old(written) && messages == old(messages)
    {
      connections := connections - {userId};
    }

    /** `sendMessage`: classify, persist, acknowledge, then push to the recipient's response
        if one is registered. `serialize` stands for the populated message's JSON text;
        `persisted` says whether the store accepted the new document. */
    method SendMessage(me: UserId, to: UserId, text: Option<string>, file: Attachment,
                       persisted: bool, id: MessageId, createdAt: int,
                       serialize: Message -> string) returns (reply: SendReply)
      requires Valid()
      requires forall m :: SingleLine(serialize(m))
      modifies this
      ensures Valid()
      ensures connections == old(connections)
      ensures var m := Message(id, me, to, text, KindOf(file), MediaUrl(file), false, createdAt);
              var ok := UploadOk(file) && persisted;
              && reply == (if ok then Sent(m) else SendFailed)
              && messages == (if ok then old(messages) + [m] else old(messages))
              && written == (if ok && to in old(connections)
                             then old(written)[old(connections)[to] :=
                                    old(written)[old(connections)[to]] + [DataFrame(serialize(m))]]
                             else old(written))
    {
      var mediaUrl := "";
      var kind := if file.File? then Image else Text;
      if kind == Image {
        if file.hostedUrl.None? {
          return SendFailed;
        }
        mediaUrl := file.hostedUrl.value;
      }
      if !persisted {
        return SendFailed;
      }
      var message := Message(id, me, to, text, kind, mediaUrl, false, createdAt);
      messages := messages + [message];
      reply := Sent(message);
      Deliver(to, serialize(message));
    }

    /** The push step of `sendMessage`: one data frame to the recipient's registered response,
        if there is one, and nothing to any other response. */
    method Deliver(to: UserId, payload: string)
      requires Valid() && SingleLine(payload)
      modifies this
      ensures Valid()
      ensures connections == old(connections) && messages == old(messages)
      ensures written == (if to in old(connections)
                          then old(written)[old(connections)[to] :=
                                 old(written)[old(connections)[to]] + [DataFrame(payload)]]
                          else old(written))
    {
      if to in connections {
        var h := connections[to];
        PushKeepsValid(h, payload);
        written := written[h := written[h] + [DataFrame(payload)]];
        pushed := pushed[h := pushed[h] + [payload]];
      }
    }

    /** Appending one single-line payload's frame to an open response keeps the stream well formed. */
    lemma PushKeepsValid(h: HandleId, payload: string)
      requires Valid() && h in written && SingleLine(payload)
      ensures var w := written[h := written[h] + [DataFrame(payload)]];
              var p := pushed[h := pushed[h] + [payload]];
              && (forall u :: u in connections ==> connections[u] in w)
              && w.Keys == p.Keys
              && (forall g :: g in w ==> w[g] == [ConnectedFrame] + DataFrames(p[g]))
              && (forall g, k :: g in p && 0 <= k < |p[g]| ==> SingleLine(p[g][k]))
    {
      DataFramesAppend(pushed[h], payload);
    }

    /** `getChatMessages`: returns the conversation as it was, newest first, then marks
        every message from `other` to `me` seen. */
    method GetChatMessages(me: UserId, other: UserId) returns (r: seq<Message>)
      requires Valid()
      modifies this
      ensures Valid()
      ensures r == Thread(old(messages), me, other)
      ensures messages == MarkSeen(old(messages), other, me)
      ensures connections == old(connections) && written == old(written)
    {
      r := Thread(messages, me, other);
      messages := MarkSeen(messages, other, me);
    }

    /** `getUserRecentMessages`: everything addressed to `me`, newest first. */
    method GetUserRecentMessages(me: UserId) returns (r: seq<Message>)
      ensures r == Inbox(messages, me)
      ensures NewestFirst(r, MessageCreatedAt)
      ensures forall m :: m in r ==> m in messages && m.to == me
      ensures forall i :: 0 <= i < |messages| && messages[i].to == me ==> messages[i] in r
    {
      r := Inbox(messages, me);
    }

    /** What the client holding `handle` dispatches from everything written to it: exactly the
        payloads pushed to it, in order; the subscription frame contributes no event. */
    lemma ClientSeesPushed(handle: HandleId)
      requires Valid()
      requires handle in written
      ensures Events(Concat(written[handle])) == pushed[handle]
    {
      ClientReceives(pushed[handle]);
    }
  }
}

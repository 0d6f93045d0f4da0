/**
 * The top-level chat component (App.tsx:18-257): its state, the handlers
 * that change it and the effects that react to it. Each React updater is
 * one atomic step; an effect is a method run after the state it watches
 * has changed; the 100 ms timer of `handleDeleteChat` is a queue drained
 * by its own step. Clock readings, the model provider's chunks and inbound
 * channel events are parameters.
 */
module ChatApp {
  import opened Wrappers
  import opened Types
  import opened Strings
  import opened Channels
  import opened Timeline
  import opened RoomList
  import opened GeminiStream
  import Storage

  /** The phone number that marks the assistant room, which never uses a channel. */
  const ASSISTANT := "assistant"

  const INITIAL_ROOMS: seq<ChatRoom> := [
    ChatRoom("1", "Gop Sop Assistant", None, "https://api.dicebear.com/7.x/avataaars/svg?seed=Felix",
             "Assistant", None, Some(true), false, Some(ASSISTANT), false, false)
  ]

  datatype ActiveCall = ActiveCall(roomId: string, callType: CallType)

  /** A language-model chat session, created with the room's persona as system instruction. */
  datatype Session = Session(systemInstruction: string)

  /** A channel subscription: the channel and the room and user its callback closed over. */
  datatype Subscription = Subscription(channelId: string, room: ChatRoom, self: UserProfile)

  /**
   * A callback registered by `listenForCalls`: the user, room list and call
   * it closed over when the effect ran. The effect returns no cleanup, so an
   * older callback stays registered beside the newer ones.
   */
  datatype CallListener = CallListener(self: UserProfile, rooms: seq<ChatRoom>, activeCall: Option<ActiveCall>)

  /** What the component hands to the realtime gateway; delivery is fire-and-forget. */
  datatype Outbound =
    | SentMessage(channelId: string, sender: string, content: string, kind: MessageType, metadata: Option<Metadata>)
    | Unsent(channelId: string, messageId: string)
    | Reacted(channelId: string, sender: string, messageId: string, emoji: Option<string>)

  /** The active room id as the source's truthiness tests see it: the empty id counts as none. */
  function Selected(id: Option<string>): (r: Option<string>)
    ensures r.Some? <==> id.Some? && id.value != ""
    ensures r.Some? ==> r == id
  {
    if id.Some? && id.value != "" then id else None
  }

  predicate IsAssistant(room: ChatRoom) {
    room.phoneNumber == Some(ASSISTANT)
  }

  /**
   * `room.isGroup ? getGroupChannelId(room.id) : getDirectChannelId(self, room.phoneNumber!)`;
   * a missing phone number sorts after `self` and joins as the empty string.
   */
  function ChannelOf(self: string, room: ChatRoom): (r: string)
    ensures room.isGroup ==> r == GroupChannelId(room.id)
    ensures !room.isGroup && room.phoneNumber.Some? ==>
      r == DirectChannelId(self, room.phoneNumber.value) && r == DirectChannelId(room.phoneNumber.value, self)
  {
    if room.isGroup then GroupChannelId(room.id)
    else if room.phoneNumber.Some? then
      DirectChannelIdSymmetric(self, room.phoneNumber.value);
      DirectChannelId(self, room.phoneNumber.value)
    else self + "_"
  }

  /** The check of a subscription callback: a direct room whose peer the captured user had blocked. */
  predicate Blocks(s: Subscription)
    ensures s.room.isGroup ==> !Blocks(s)
  {
    !s.room.isGroup && s.room.phoneNumber.Some? && s.room.phoneNumber.value in s.self.blockedNumbers
  }

  predicate SubscriptionFits(roomId: string, s: Subscription) {
    s.room.id == roomId && !IsAssistant(s.room) && s.channelId == ChannelOf(s.self.phoneNumber, s.room)
  }

  /** The room synthesised for a call from an unknown number. */
  function TempRoom(caller: string): (r: ChatRoom)
    ensures r.id == "temp_" + caller && Matches(r, PhoneIs(caller)) && !r.isGroup
  {
    ChatRoom("temp_" + caller, "Friend (" + caller + ")", None,
             "https://api.dicebear.com/7.x/avataaars/svg?seed=" + caller,
             "Real Friend", None, Some(true), false, Some(caller), false, false)
  }

  /** The local echo, with id and timestamp from the clock reading `sentAt`. */
  function UserMessage(content: string, kind: MessageType, metadata: Option<Metadata>, sentAt: nat): (m: Message)
    ensures m.id == NatToString(sentAt) && IsDigits(m.id) && m.timestamp == sentAt
    ensures m.role == Role.User && m.content == content && m.kind == kind && m.metadata == metadata && !m.isRead
    ensures !m.isStreaming && m.reactions == map[]
  {
    Message(NatToString(sentAt), Role.User, kind, content, sentAt, false, false, map[], metadata)
  }

  /** The assistant's placeholder: id `Date.now() + 1` for the clock reading `replyAt`. */
  function Placeholder(replyAt: nat): (m: Message)
    ensures m.id == NatToString(replyAt + 1) && IsDigits(m.id) && m.timestamp == replyAt
    ensures m.role == Model && m.kind == Text && m.content == "" && m.isStreaming && m.reactions == map[]
  {
    Message(NatToString(replyAt + 1), Model, Text, "", replyAt, true, false, map[], None)
  }

  /** When the clock does not run backwards the placeholder's id differs from the echo's. */
  lemma PlaceholderIdDiffers(content: string, kind: MessageType, metadata: Option<Metadata>, sentAt: nat, replyAt: nat)
    requires sentAt <= replyAt
    ensures UserMessage(content, kind, metadata, sentAt).id != Placeholder(replyAt).id
  {
    NatToStringInjective(sentAt, replyAt + 1);
  }

  /** The timelines after the stream loop has applied `fragments` to the placeholder `id`. */
  function StreamInto(base: Timelines, roomId: string, id: string, fragments: seq<string>): Timelines {
    if fragments == [] then base else UpdatePlaceholder(base, roomId, id, SetContent(Concat(fragments)))
  }

  /** The timelines after a complete text exchange with the assistant room. */
  function AssistantExchange(prev: Timelines, roomId: string, u: Message, replyAt: nat, fragments: seq<string>): Timelines {
    var p := Placeholder(replyAt);
    UpdatePlaceholder(StreamInto(Append(Append(prev, roomId, u), roomId, p), roomId, p.id, fragments), roomId, p.id, StopStreaming)
  }

  /**
   * With fresh ids, an exchange appends the echo and then the placeholder,
   * which ends holding the concatenated fragments and no longer streaming;
   * other rooms are untouched.
   */
  lemma AssistantExchangeAppends(prev: Timelines, roomId: string, u: Message, replyAt: nat, fragments: seq<string>)
    requires !HasId(Current(prev, roomId), Placeholder(replyAt).id) && u.id != Placeholder(replyAt).id
    ensures var r := AssistantExchange(prev, roomId, u, replyAt, fragments);
      && Current(r, roomId) == Current(prev, roomId) + [u, Placeholder(replyAt).(content := Concat(fragments), isStreaming := false)]
      && r.Keys == prev.Keys + {roomId}
      && forall k :: k in prev && k != roomId ==> r[k] == prev[k]
  {
    ExchangeIsOneUpdate(prev, roomId, u, replyAt, fragments);
  }

  /** The whole exchange replaces the room's timeline by the old one, the echo and the finished reply. */
  lemma ExchangeIsOneUpdate(prev: Timelines, roomId: string, u: Message, replyAt: nat, fragments: seq<string>)
    requires !HasId(Current(prev, roomId), Placeholder(replyAt).id) && u.id != Placeholder(replyAt).id
    ensures AssistantExchange(prev, roomId, u, replyAt, fragments) ==
      prev[roomId := Current(prev, roomId) + [u, Placeholder(replyAt).(content := Concat(fragments), isStreaming := false)]]
  {
    var p := Placeholder(replyAt);
    var cur := Current(prev, roomId);
    var c := Concat(fragments);
    assert Append(Append(prev, roomId, u), roomId, p) == prev[roomId := cur + [u, p]] by {
      assert (cur + [u]) + [p] == cur + [u, p];
    }
    var filled := p.(content := c);
    if fragments == [] {
      assert filled == p;
    } else {
      TailEdit(prev, roomId, cur, u, p, SetContent(c));
    }
    TailEdit(prev, roomId, cur, u, filled, StopStreaming);
  }

  /** An update of the placeholder `m`, last after the echo `u`, edits just that last message. */
  lemma TailEdit(prev: Timelines, roomId: string, cur: seq<Message>, u: Message, m: Message, e: PlaceholderEdit)
    requires !HasId(cur, m.id) && u.id != m.id
    ensures UpdatePlaceholder(prev[roomId := cur + [u, m]], roomId, m.id, e) == prev[roomId := cur + [u, EditedMessage(m, e)]]
  {
    PlaceholderFoundAtTail(cur, u, m);
    var tl := cur + [u, m];
    assert tl[|cur| + 1 := EditedMessage(m, e)] == cur + [u, EditedMessage(m, e)];
  }

  lemma PlaceholderFoundAtTail(cur: seq<Message>, u: Message, p: Message)
    requires !HasId(cur, p.id) && u.id != p.id
    ensures FindIndex(cur + [u, p], p.id) == Some(|cur| + 1)
  {
    var withUser := cur + [u];
    assert forall i :: 0 <= i < |cur| ==> withUser[i] == cur[i];
    assert withUser + [p] == cur + [u, p];
    FindIndexAtTail(withUser, p);
  }

  /** One more fragment: the placeholder's content becomes the longer concatenation. */
  lemma StreamIntoStep(base: Timelines, roomId: string, id: string, fragments: seq<string>, i: nat)
    requires i < |fragments|
    ensures Concat(fragments[..i + 1]) == Concat(fragments[..i]) + fragments[i]
    ensures UpdatePlaceholder(StreamInto(base, roomId, id, fragments[..i]), roomId, id,
                              SetContent(Concat(fragments[..i]) + fragments[i]))
            == StreamInto(base, roomId, id, fragments[..i + 1])
  {
    assert fragments[..i + 1][..i] == fragments[..i];
    if i > 0 {
      SetContentOverwrites(base, roomId, id, Concat(fragments[..i]), Concat(fragments[..i]) + fragments[i]);
    }
  }

  /** An exchange with fresh ids leaves no streaming message behind in a room that had none. */
  lemma ExchangeLeavesNothingStreaming(prev: Timelines, roomId: string, u: Message, replyAt: nat, fragments: seq<string>)
    requires !HasId(Current(prev, roomId), Placeholder(replyAt).id) && u.id != Placeholder(replyAt).id
    requires NoneStreaming(Current(prev, roomId)) && !u.isStreaming
    ensures NoneStreaming(Current(AssistantExchange(prev, roomId, u, replyAt, fragments), roomId))
  {
    AssistantExchangeAppends(prev, roomId, u, replyAt, fragments);
    var cur := Current(prev, roomId);
    var r := Current(AssistantExchange(prev, roomId, u, replyAt, fragments), roomId);
    assert forall i :: 0 <= i < |cur| ==> r[i] == cur[i];
  }

  /** What a call callback that closed over `captured` appends to the room list for `caller`. */
  function CallAdded(captured: seq<ChatRoom>, caller: string): (r: seq<ChatRoom>)
    ensures r == [] <==> Find(captured, PhoneIs(caller)).Some?
    ensures r != [] ==> r == [TempRoom(caller)]
  {
    if Find(captured, PhoneIs(caller)).None? then [TempRoom(caller)] else []
  }

  /** The room list after a call from `caller`, taken by a callback that saw the current list. */
  function RoomsAfterCall(rooms: seq<ChatRoom>, caller: string): (r: seq<ChatRoom>)
    ensures rooms <= r && |r| <= |rooms| + 1
    ensures |r| == |rooms| + 1 ==> r[|rooms|] == TempRoom(caller)
  {
    rooms + CallAdded(rooms, caller)
  }

  /** The room a call from `caller` is surfaced in. */
  function CallRoom(rooms: seq<ChatRoom>, caller: string): (r: ChatRoom)
    ensures Matches(r, PhoneIs(caller))
    ensures r in rooms || r == TempRoom(caller)
  {
    var found := Find(rooms, PhoneIs(caller));
    if found.Some? then found.value else TempRoom(caller)
  }

  /**
   * A call adds at most one room, the temporary `'temp_' + caller` room when
   * no listed room has the caller's number; a second call from the same
   * number finds that room and adds nothing.
   */
  lemma CallAddsAtMostOneRoom(rooms: seq<ChatRoom>, caller: string)
    ensures rooms <= RoomsAfterCall(rooms, caller)
    ensures Find(rooms, PhoneIs(caller)).None? ==>
      RoomsAfterCall(rooms, caller) == rooms + [TempRoom(caller)] && CallRoom(rooms, caller).id == "temp_" + caller
    ensures Find(RoomsAfterCall(rooms, caller), PhoneIs(caller)) == Some(CallRoom(rooms, caller))
    ensures RoomsAfterCall(RoomsAfterCall(rooms, caller), caller) == RoomsAfterCall(rooms, caller)
  {
    var after := RoomsAfterCall(rooms, caller);
    if Find(rooms, PhoneIs(caller)).None? {
      assert after[|rooms|] == TempRoom(caller);
      assert forall i :: 0 <= i < |rooms| ==> after[i] == rooms[i];
      FindAfterMisses(rooms, TempRoom(caller), PhoneIs(caller));
    } else {
      assert after == rooms;
    }
  }

  lemma {:induction false} FindAfterMisses(rooms: seq<ChatRoom>, r: ChatRoom, key: RoomKey)
    requires Find(rooms, key).None? && Matches(r, key)
    ensures Find(rooms + [r], key) == Some(r)
  {
    if rooms != [] {
      assert (rooms + [r])[1..] == rooms[1..] + [r];
      FindAfterMisses(rooms[1..], r, key);
    }
  }

  /**
   * Two callbacks that closed over the same list without the caller's number
   * each add a `temp_` room, so after one call the list holds two rooms with
   * the same id; a single callback that saw the current list adds one.
   */
  lemma StaleListenersDuplicateTempRoom(rooms: seq<ChatRoom>, caller: string)
    requires Find(rooms, PhoneIs(caller)).None?
    ensures var after := rooms + CallAdded(rooms, caller) + CallAdded(rooms, caller);
      |after| == |rooms| + 2 && after[|rooms|].id == after[|rooms| + 1].id == "temp_" + caller
    ensures !UniqueRoomIds(rooms + CallAdded(rooms, caller) + CallAdded(rooms, caller))
  {
    var after := rooms + CallAdded(rooms, caller) + CallAdded(rooms, caller);
    assert after == rooms + [TempRoom(caller), TempRoom(caller)];
    assert after[|rooms|] == after[|rooms| + 1];
  }

  /** The room `handleSendMessage` sends to, or none when it returns early. */
  function SendTarget(content: string, kind: MessageType, activeRoomId: Option<string>, user: Option<UserProfile>,
                      rooms: seq<ChatRoom>): (r: Option<ChatRoom>)
    ensures r.Some? ==> !(IsBlank(content) && kind == Text) && user.Some?
    ensures r.Some? ==> Selected(activeRoomId) == Some(r.value.id) && r.value in rooms
    ensures r.None? && !(IsBlank(content) && kind == Text) && Selected(activeRoomId).Some? && user.Some? ==>
      forall i :: 0 <= i < |rooms| ==> rooms[i].id != activeRoomId.value
  {
    if IsBlank(content) && kind == Text then None
    else if Selected(activeRoomId).None? || user.None? then None
    else Find(rooms, IdIs(activeRoomId.value))
  }

  /** `chatSessions` after `if (!chatSessions.current[id]) chatSessions.current[id] = createChatSession(persona)`. */
  function WithSession(sessions: map<string, Session>, roomId: string, persona: string): (r: map<string, Session>)
    ensures r.Keys == sessions.Keys + {roomId}
    ensures forall k :: k in sessions ==> r[k] == sessions[k]
    ensures roomId !in sessions ==> r[roomId] == Session(persona)
  {
    if roomId in sessions then sessions else sessions[roomId := Session(persona)]
  }

  /** The chat component's state. */
  class App {
    var user: Option<UserProfile>
    var rooms: seq<ChatRoom>
    var activeRoomId: Option<string>
    var activeCall: Option<ActiveCall>
    var messages: Timelines
    var isTyping: bool
    /** `chatSessions.current`: one model session per room, created on the first text send. */
    var chatSessions: map<string, Session>
    /** `realtimeUnsubscribes.current`, with what each registered callback closed over. */
    var subscriptions: map<string, Subscription>
    /** Everything sent on the realtime gateway, in order. */
    var outbox: seq<Outbound>
    /** Rooms whose 100 ms timeline-clearing timer is pending, in firing order. */
    var pendingClears: seq<string>
    /** Every callback handed to `listenForCalls`, oldest first. */
    var callListeners: seq<CallListener>

    /** Between steps nobody is typing, and every subscription is a non-assistant room's, on that room's channel. */
    ghost predicate Valid()
      reads this`isTyping, this`subscriptions
    {
      && !isTyping
      && forall k :: k in subscriptions ==> SubscriptionFits(k, subscriptions[k])
    }

    /** The first render: user and rooms read from storage, everything else empty. */
    constructor (store: Storage.LocalStore)
      ensures Valid()
      ensures user == Storage.UserIn(store.items) && rooms == Storage.RoomsIn(store.items, INITIAL_ROOMS)
      ensures activeRoomId == None && activeCall == None && messages == map[]
      ensures chatSessions == map[] && subscriptions == map[] && outbox == [] && pendingClears == []
      ensures callListeners == []
    {
      user := Storage.UserIn(store.items);
      rooms := Storage.RoomsIn(store.items, INITIAL_ROOMS);
      activeRoomId := None;
      activeCall := None;
      messages := map[];
      isTyping := false;
      chatSessions := map[];
      subscriptions := map[];
      outbox := [];
      pendingClears := [];
      callListeners := [];
    }

    /**
     * `onUpdateUser={setUser}` (App.tsx:293); sign-in (`onAuthSuccess`) and
     * sign-out (`onLogout`) are the same step with a profile and with none.
     */
    method SetUser(u: Option<UserProfile>)
      requires Valid()
      modifies this`user
      ensures Valid()
      ensures user == u
    {
      user := u;
    }

    /**
     * `onDeleteAccount` (App.tsx:295-298): the stored account of the
     * signed-in user is deleted and the user signed out. The sidebar that
     * offers it is only rendered with a user signed in.
     */
    method DeleteAccount(store: Storage.LocalStore)
      requires Valid() && user.Some?
      modifies this`user, store
      ensures Valid()
      ensures store.items == Storage.AccountDeleted(old(store.items), old(user).value.email, old(user).value.phoneNumber)
      ensures user == None
    {
      store.DeleteAccount(user.value.email, user.value.phoneNumber);
      user := None;
    }

    /**
     * `handleSendMessage` (App.tsx:127-176): a local echo, forwarded to the
     * peer's channel, or, in the assistant room, followed for text by a
     * placeholder that the model's fragments fill in.
     */
    method SendMessage(content: string, kind: MessageType, metadata: Option<Metadata>, sentAt: nat, replyAt: nat,
                       received: seq<Chunk>, failure: Option<string>)
      requires Valid()
      modifies this`messages, this`isTyping, this`chatSessions, this`outbox
      ensures Valid()
      ensures var target := SendTarget(content, kind, activeRoomId, user, rooms);
        if target.None? then
          messages == old(messages) && outbox == old(outbox) && chatSessions == old(chatSessions)
        else if !IsAssistant(target.value) then
          && messages == Append(old(messages), activeRoomId.value, UserMessage(content, kind, metadata, sentAt))
          && outbox == old(outbox) + [SentMessage(ChannelOf(user.value.phoneNumber, target.value),
                                                  user.value.phoneNumber, content, kind, metadata)]
          && chatSessions == old(chatSessions)
        else if kind != Text then
          && messages == Append(old(messages), activeRoomId.value, UserMessage(content, kind, metadata, sentAt))
          && outbox == old(outbox) && chatSessions == old(chatSessions)
        else
          && messages == AssistantExchange(old(messages), activeRoomId.value, UserMessage(content, kind, metadata, sentAt),
                                           replyAt, Fragments(received, failure))
          && outbox == old(outbox)
          && chatSessions == WithSession(old(chatSessions), activeRoomId.value, target.value.persona)
    {
      ghost var target := SendTarget(content, kind, activeRoomId, user, rooms);
      // `!content.trim()`, which is `IsBlank(content)` by TrimEmptyIffBlank
      if IsBlank(content) && kind == Text {
        return;
      }
      if Selected(activeRoomId).None? || user.None? {
        return;
      }
      var roomId := activeRoomId.value;
      var room := Find(rooms, IdIs(roomId));
      if room.None? {
        return;
      }
      assert room == target;
      var userMsg := UserMessage(content, kind, metadata, sentAt);
      if !IsAssistant(room.value) {
        var channelId := ChannelOf(user.value.phoneNumber, room.value);
        outbox := outbox + [SentMessage(channelId, user.value.phoneNumber, content, kind, metadata)];
        messages := Append(messages, roomId, userMsg);
      } else {
        messages := Append(messages, roomId, userMsg);
        if kind == Text {
          StreamReply(roomId, room.value.persona, replyAt, received, failure);
        }
      }
    }

    /**
     * The assistant branch of `handleSendMessage` after the echo (App.tsx:143-173):
     * the placeholder, the session created at most once per room, the loop
     * over the fragments and its `finally` block.
     */
    method StreamReply(roomId: string, persona: string, replyAt: nat,
                       received: seq<Chunk>, failure: Option<string>)
      requires Valid()
      modifies this`messages, this`isTyping, this`chatSessions
      ensures Valid()
      ensures messages == UpdatePlaceholder(StreamInto(Append(old(messages), roomId, Placeholder(replyAt)), roomId,
                            Placeholder(replyAt).id, Fragments(received, failure)), roomId, Placeholder(replyAt).id, StopStreaming)
      ensures chatSessions == WithSession(old(chatSessions), roomId, persona)
    {
      isTyping := true;
      var modelMsg := Placeholder(replyAt);
      messages := Append(messages, roomId, modelMsg);
      ghost var appended := messages;
      if roomId !in chatSessions {
        chatSessions := chatSessions[roomId := Session(persona)];
      }
      assert chatSessions == WithSession(old(chatSessions), roomId, persona);
      var fragments := SendMessageStream(received, failure);
      FillPlaceholder(roomId, modelMsg.id, fragments);
      assert messages == StreamInto(appended, roomId, modelMsg.id, fragments);
      // the `finally` block
      isTyping := false;
      messages := UpdatePlaceholder(messages, roomId, modelMsg.id, StopStreaming);
    }

    /**
     * The `for await` loop of `handleSendMessage` (App.tsx:148-162): each
     * fragment extends `fullContent`, which then replaces the placeholder's content.
     */
    method FillPlaceholder(roomId: string, id: string, fragments: seq<string>)
      modifies this`messages
      ensures messages == StreamInto(old(messages), roomId, id, fragments)
    {
      var fullContent := "";
      var i := 0;
      while i < |fragments|
        invariant 0 <= i <= |fragments|
        invariant fullContent == Concat(fragments[..i])
        invariant messages == StreamInto(old(messages), roomId, id, fragments[..i])
      {
        StreamIntoStep(old(messages), roomId, id, fragments, i);
        fullContent := fullContent + fragments[i];
        messages := UpdatePlaceholder(messages, roomId, id, SetContent(fullContent));
        i := i + 1;
      }
      assert fragments[..i] == fragments;
    }

    /** The callback of the channel subscribed for `roomId` (App.tsx:105-114), receiving `ev`. */
    method DeliverChannelEvent(roomId: string, ev: ChannelEvent)
      requires Valid()
      modifies this`messages
      ensures Valid()
      ensures roomId !in subscriptions || Blocks(subscriptions[roomId]) ==> messages == old(messages)
      ensures roomId in subscriptions && !Blocks(subscriptions[roomId]) ==>
        messages == ApplyChannelEvent(old(messages), roomId, ev)
    {
      if roomId !in subscriptions {
        return;
      }
      if Blocks(subscriptions[roomId]) {
        return;
      }
      messages := ApplyChannelEvent(messages, roomId, ev);
    }

    /** `handleUnsendMessage` (App.tsx:178-192): broadcast for peer rooms, always removed locally. */
    method UnsendMessage(msgId: string)
      requires Valid()
      modifies this`messages, this`outbox
      ensures Valid()
      ensures Selected(activeRoomId).None? || user.None? ==> messages == old(messages) && outbox == old(outbox)
      ensures Selected(activeRoomId).Some? && user.Some? ==>
        && messages == Unsend(old(messages), activeRoomId.value, msgId)
        && outbox == old(outbox) +
             match Find(rooms, IdIs(activeRoomId.value))
             case Some(room) => if IsAssistant(room) then [] else [Unsent(ChannelOf(user.value.phoneNumber, room), msgId)]
             case None => []
    {
      if Selected(activeRoomId).None? || user.None? {
        return;
      }
      var roomId := activeRoomId.value;
      var room := Find(rooms, IdIs(roomId));
      if room.Some? && !IsAssistant(room.value) {
        outbox := outbox + [Unsent(ChannelOf(user.value.phoneNumber, room.value), msgId)];
      }
      messages := Unsend(messages, roomId, msgId);
    }

    /** `handleReactToMessage` (App.tsx:194-216): broadcast for peer rooms, always applied locally. */
    method ReactToMessage(msgId: string, emoji: Option<string>)
      requires Valid()
      modifies this`messages, this`outbox
      ensures Valid()
      ensures Selected(activeRoomId).None? || user.None? ==> messages == old(messages) && outbox == old(outbox)
      ensures Selected(activeRoomId).Some? && user.Some? ==>
        && messages == React(old(messages), activeRoomId.value, msgId, user.value.phoneNumber, emoji)
        && outbox == old(outbox) +
             match Find(rooms, IdIs(activeRoomId.value))
             case Some(room) =>
               if IsAssistant(room) then []
               else [Reacted(ChannelOf(user.value.phoneNumber, room), user.value.phoneNumber, msgId, emoji)]
             case None => []
    {
      if Selected(activeRoomId).None? || user.None? {
        return;
      }
      var roomId := activeRoomId.value;
      var room := Find(rooms, IdIs(roomId));
      if room.Some? && !IsAssistant(room.value) {
        outbox := outbox + [Reacted(ChannelOf(user.value.phoneNumber, room.value), user.value.phoneNumber, msgId, emoji)];
      }
      messages := React(messages, roomId, msgId, user.value.phoneNumber, emoji);
    }

    /** `toggleMute` (App.tsx:218-220). */
    method ToggleMute(roomId: string)
      requires Valid()
      modifies this`rooms
      ensures Valid()
      ensures rooms == EditRooms(old(rooms), roomId, RoomEdit.ToggleMute)
    {
      rooms := EditRooms(rooms, roomId, RoomEdit.ToggleMute);
    }

    /** `handleUpdateNickname` (App.tsx:222-224). */
    method UpdateNickname(roomId: string, nickname: string)
      requires Valid()
      modifies this`rooms
      ensures Valid()
      ensures rooms == EditRooms(old(rooms), roomId, SetNickname(nickname))
    {
      rooms := EditRooms(rooms, roomId, SetNickname(nickname));
    }

    /** `handleBlockUser` (App.tsx:226-238): the number joins the block list and the open chat closes. */
    method BlockUser(phoneNumber: string)
      requires Valid()
      modifies this`user, this`activeRoomId
      ensures Valid()
      ensures old(user).None? ==> user == old(user) && activeRoomId == old(activeRoomId)
      ensures old(user).Some? ==>
        && user == Some(old(user).value.(blockedNumbers := old(user).value.blockedNumbers + [phoneNumber]))
        && activeRoomId == None
    {
      if user.None? {
        return;
      }
      user := Some(user.value.(blockedNumbers := user.value.blockedNumbers + [phoneNumber]));
      activeRoomId := None;
    }

    /** `handleDeleteChat` (App.tsx:240-257), first step: close the view and start the timer. */
    method DeleteChat()
      requires Valid()
      modifies this`activeRoomId, this`pendingClears
      ensures Valid()
      ensures Selected(old(activeRoomId)).None? ==> activeRoomId == old(activeRoomId) && pendingClears == old(pendingClears)
      ensures Selected(old(activeRoomId)).Some? ==>
        activeRoomId == None && pendingClears == old(pendingClears) + [old(activeRoomId).value]
    {
      if Selected(activeRoomId).None? {
        return;
      }
      var roomIdToDelete := activeRoomId.value;
      activeRoomId := None;
      pendingClears := pendingClears + [roomIdToDelete];
    }

    /** The timer of `handleDeleteChat` fires: that room's timeline is dropped, its room entry stays. */
    method RunDeleteTimer()
      requires Valid()
      modifies this`messages, this`pendingClears
      ensures Valid()
      ensures old(pendingClears) == [] ==> messages == old(messages) && pendingClears == []
      ensures old(pendingClears) != [] ==>
        && pendingClears == old(pendingClears)[1..]
        && messages == old(messages) - {old(pendingClears)[0]}
    {
      if pendingClears == [] {
        return;
      }
      var roomIdToDelete := pendingClears[0];
      pendingClears := pendingClears[1..];
      messages := messages - {roomIdToDelete};
    }

    /** `onSelectRoom` (App.tsx:282-290): add the room unless listed, and open it. */
    method SelectRoom(r: ChatRoom)
      requires Valid()
      modifies this`rooms, this`activeRoomId
      ensures Valid()
      ensures rooms == Upsert(old(rooms), r) && activeRoomId == Some(r.id)
    {
      rooms := Upsert(rooms, r);
      activeRoomId := Some(r.id);
    }

    /** `onUpdateRoom` (App.tsx:291): replace the listed room with the same id. */
    method UpdateRoom(r: ChatRoom)
      requires Valid()
      modifies this`rooms
      ensures Valid()
      ensures rooms == EditRooms(old(rooms), r.id, Replace(r))
    {
      rooms := EditRooms(rooms, r.id, Replace(r));
    }

    /** `onBack` of the chat window (App.tsx:317-320). */
    method CloseRoom()
      requires Valid()
      modifies this`activeRoomId
      ensures Valid()
      ensures activeRoomId == None
    {
      activeRoomId := None;
    }

    /** `onEnd` of the call screen (App.tsx:276). */
    method EndCall()
      requires Valid()
      modifies this`activeCall
      ensures Valid()
      ensures activeCall == None
    {
      activeCall := None;
    }

    /** `onSetGlobalCallState={setActiveCall}` of the chat window (App.tsx:322). */
    method SetCallState(c: Option<ActiveCall>)
      requires Valid()
      modifies this`activeCall
      ensures Valid()
      ensures activeCall == c
    {
      activeCall := c;
    }

    /**
     * The call effect (App.tsx:73-85), run after `user`, `rooms` or
     * `activeCall` changed: with a user signed in, one more callback is
     * registered, closed over the current values; none is removed.
     */
    method ListenForCalls()
      requires Valid()
      modifies this`callListeners
      ensures Valid()
      ensures callListeners == if user.Some? then old(callListeners) + [CallListener(user.value, rooms, activeCall)]
                               else old(callListeners)
    {
      if user.Some? {
        callListeners := callListeners + [CallListener(user.value, rooms, activeCall)];
      }
    }

    /**
     * The registered callback `listener` (App.tsx:75-83), called for
     * `callerPhone`: the block list, the room search and the test for an
     * ongoing call use what it closed over, while the temporary room is
     * appended to the current list by the functional updater.
     */
    method ReceiveCall(listener: nat, callerPhone: string, callType: CallType)
      requires Valid() && listener < |callListeners|
      modifies this`rooms, this`activeCall
      ensures Valid()
      ensures var l := callListeners[listener];
        callerPhone in l.self.blockedNumbers ==> rooms == old(rooms) && activeCall == old(activeCall)
      ensures var l := callListeners[listener];
        callerPhone !in l.self.blockedNumbers ==>
        && rooms == old(rooms) + CallAdded(l.rooms, callerPhone)
        && activeCall == if l.activeCall.Some? then old(activeCall)
                         else Some(ActiveCall(CallRoom(l.rooms, callerPhone).id, callType))
      ensures var l := callListeners[listener];
        callerPhone !in l.self.blockedNumbers && l.rooms == old(rooms) ==> rooms == RoomsAfterCall(old(rooms), callerPhone)
    {
      var l := callListeners[listener];
      if callerPhone in l.self.blockedNumbers {
        return;
      }
      var room := Find(l.rooms, PhoneIs(callerPhone));
      var callRoom: ChatRoom;
      if room.None? {
        callRoom := TempRoom(callerPhone);
        rooms := rooms + [callRoom];
      } else {
        callRoom := room.value;
      }
      if l.activeCall.None? {
        activeCall := Some(ActiveCall(callRoom.id, callType));
      }
    }

    /** The stale-active-room guard (App.tsx:43-52): an open room that is no longer listed is closed. */
    method GuardActiveRoom()
      requires Valid()
      modifies this`activeRoomId
      ensures Valid()
      ensures Selected(old(activeRoomId)).Some? && !HasRoom(rooms, old(activeRoomId).value) ==> activeRoomId == None
      ensures Selected(old(activeRoomId)).None? || HasRoom(rooms, old(activeRoomId).value) ==> activeRoomId == old(activeRoomId)
      ensures Selected(activeRoomId).Some? ==> HasRoom(rooms, activeRoomId.value)
    {
      if Selected(activeRoomId).Some? {
        var found := Find(rooms, IdIs(activeRoomId.value));
        if found.None? {
          activeRoomId := None;
        }
      }
    }

    /**
     * The subscription effect (App.tsx:99-120): the open room, unless it is
     * the assistant's, is subscribed to its channel once and never again.
     */
    method SubscribeActiveRoom()
      requires Valid()
      modifies this`subscriptions
      ensures Valid()
      ensures forall k :: k in old(subscriptions) ==> k in subscriptions && subscriptions[k] == old(subscriptions)[k]
      ensures subscriptions ==
        if Selected(activeRoomId).Some? && user.Some? && Find(rooms, IdIs(activeRoomId.value)).Some?
           && !IsAssistant(Find(rooms, IdIs(activeRoomId.value)).value) && activeRoomId.value !in old(subscriptions)
        then old(subscriptions)[activeRoomId.value := Subscription(
               ChannelOf(user.value.phoneNumber, Find(rooms, IdIs(activeRoomId.value)).value),
               Find(rooms, IdIs(activeRoomId.value)).value, user.value)]
        else old(subscriptions)
    {
      if Selected(activeRoomId).None? || user.None? {
        return;
      }
      var roomId := activeRoomId.value;
      var room := Find(rooms, IdIs(roomId));
      if room.Some? && !IsAssistant(room.value) && roomId !in subscriptions {
        var channelId := ChannelOf(user.value.phoneNumber, room.value);
        subscriptions := subscriptions[roomId := Subscription(channelId, room.value, user.value)];
      }
    }
  }
}

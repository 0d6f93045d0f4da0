# Gop Sop chat: the session state machine

Gop Sop is a browser chat client. The signed-in user talks either to a
language-model assistant (the room whose phone number is `assistant`) or to
peers through a realtime gateway. This project models two parts of it:

- The top-level component `App` (App.tsx:18-257). It holds the rooms, the
  open room, the message timelines keyed by room, the ongoing call, the
  per-room model sessions, the channel subscriptions and the registered
  call callbacks. The message, room, call and account handlers, and the
  effects that guard the open room, subscribe to its channel and listen
  for calls, are methods on the class `ChatApp.App`. The other effects
  are listed under "Left out". The pure updaters passed to `setMessages`/`setRooms` are functions in the
  modules `Timeline` and `RoomList`.
- The service helpers bundled in install.js:
  - the channel ids of the realtime gateway (module `Channels`);
  - the local-storage service (module `Storage`, class `LocalStore`);
  - the wrapper that turns a failing model stream into a final
    `"Error: …"` fragment (module `GeminiStream`).

Modules:

- `Types`: the records of types.ts.
- `Strings`: JavaScript `trim` and number-to-string.

What the proofs establish:

- A direct channel id does not depend on argument order. For phone
  numbers made of digits, no direct id is a group id.
- A registered account verifies with its own password. A deleted account
  verifies with no password.
- A stream that fails still delivers every fragment received before the
  failure, and then the error text.
- On the timelines:
  - applying the same channel event twice changes nothing more;
  - replayed messages are ignored;
  - channel events, unsends, reactions and placeholder updates keep a
    room's message ids unique (the local echo and the placeholder are
    appended without an id check);
  - a reaction or a placeholder update touches only its target message;
  - with fresh ids, one text exchange with the assistant ends with the
    echo and then the filled-in placeholder, which is no longer streaming.
- A call callback that saw the current room list adds at most one
  temporary room. Two older callbacks that both saw a list without the
  caller add two rooms with the same `temp_` id.
- After the stale-room guard, the open room is a listed room.

Modelling choices:

- Each React updater is one atomic step.
- The 100 ms timer of `handleDeleteChat` is a queue, `pendingClears`, that
  `RunDeleteTimer` drains.
- Messages sent to the gateway are recorded in the order they were sent,
  in `outbox`.
- What a subscription callback closed over (room and user) is kept with
  the subscription, so a block added later is not seen by an older
  callback, as in the source.
- Each run of the call effect registers a callback closed over the
  current user, rooms and call, and none is ever removed. `ReceiveCall`
  is given the callback that fires. The gateway is assumed to keep every
  callback it is handed.
- `Date.now()` readings are the parameters `sentAt` and `replyAt`.
- The model provider's chunks and its failure are parameters of
  `SendMessage`.

## Model

| member | source | states |
|---|---|---|
| Strings.TrimEmptyIffBlank | App.tsx:128 | `!content.trim()` holds exactly when every character is ECMAScript white space |
| Strings.Trim | App.tsx:128 | `trim()`: the result is a contiguous part of the input that starts and ends with a non-space, and is empty for a blank input |
| Strings.NatToString | App.tsx:135 | `Date.now().toString()` of a clock reading is a non-empty string of decimal digits |
| Strings.NatToStringInjective | App.tsx:135-145 | decimal rendering of a clock reading is injective, so `Date.now()` and `Date.now() + 1` give different ids |
| Channels.DirectChannelId | install.js:165 | the two numbers joined by `_` with the smaller first, whichever order they are given in |
| Channels.GroupChannelId | install.js:166 | `'group_' + id`: the prefix `group_` followed by the room id |
| Channels.Less | install.js:165 | the string order `sort()` uses: character by character, a proper prefix first; a string is never below itself |
| Channels.DirectChannelIdSymmetric | install.js:165 | `[p1, p2].sort().join('_')` is the same for both argument orders |
| Channels.GroupChannelIdInjective | install.js:166 | distinct group ids give distinct `group_` channels |
| Channels.DirectChannelNeverGroup | install.js:165-166 | for phone numbers of digits, no direct channel id equals a group channel id |
| Channels.SplitAtSeparator | install.js:165 | joining two digit strings with `_` can be undone |
| Channels.DirectChannelDeterminesPair | install.js:165 | a direct channel id determines its unordered pair of phone numbers |
| Storage.UserIn | install.js:151 | `getUser`: a profile only when the user key holds it, null when the key is missing |
| Storage.Registered | install.js:152 | the accounts map gains the profile under its email and nothing else changes key |
| Storage.AccountsIn | install.js:153 | `getAllAccounts`: `{}` when the key is missing; a non-empty map only when the key holds it |
| Storage.Verify | install.js:154 | `verifyAccount`: a profile only when it is the stored account of that email and its password matches |
| Storage.RoomsIn | install.js:156 | `getRooms(def)`: the stored list, or `def` when the key is missing |
| Storage.AccountDeleted | install.js:161 | the user key and that phone's messages key are gone, the email has no account, no other key changes |
| Storage.MessagesKeyIsDistinct | install.js:148-158 | a per-user messages key never collides with the user, accounts or rooms key |
| Storage.RegisterThenVerify | install.js:152-154 | after a registration of a new email, `verifyAccount` with that account's password returns it |
| Storage.RegisterKeepsOthers | install.js:152-153 | registration changes only the new email's entry and the accounts key |
| Storage.VerifyIff | install.js:153-154 | `verifyAccount` returns a profile exactly when the email is registered with that password, and then the stored one |
| Storage.DeleteAccountEffect | install.js:161 | `deleteAccount` removes the session user, that phone's messages and only that email's account; every other key is kept |
| Storage.VerifyAfterDelete | install.js:154-161 | a deleted account no longer verifies with any password |
| Storage.UserRoundTrip | install.js:150-151 | `getUser` after `saveUser(u)` is `u`; after `saveUser(null)` it is null |
| Storage.RoomsFallback | install.js:155-156 | `getRooms(def)` is `def` for a missing, unparsable or null entry and the saved list otherwise |
| Storage.LocalStore.SaveUser | install.js:150 | the user key is written for a profile and removed for null |
| Storage.LocalStore.SaveRooms | install.js:155 | the rooms key holds the saved list |
| Storage.LocalStore.RegisterAccount | install.js:152-153 | succeeds exactly when the email is unregistered; then the account map gains it, otherwise the store is unchanged |
| Storage.LocalStore.DeleteAccount | install.js:161 | the store after removing the user key, that phone's messages key and the email's account |
| GeminiStream.Texts | install.js:145 | one fragment per chunk, the chunk's text or `""` |
| GeminiStream.Concat | App.tsx:148-153 | `fullContent` after `fullContent += chunk` over the fragments in order, starting from `''` ; its properties are the lemmas `ConcatAppend` and `ConcatPrefixes` |
| GeminiStream.ConcatPrefixes | App.tsx:148-153 | `fullContent` only grows: every value it takes during the loop is a prefix of the final one |
| GeminiStream.Fragments | install.js:142-147 | the received chunks' texts in order, then `"Error: " + message` when the stream failed |
| GeminiStream.ConcatAppend | App.tsx:152-153 | accumulating `fullContent` over two runs of fragments is the concatenation of both |
| GeminiStream.FailureKeepsPartialText | install.js:142-147 | after a failure the accumulated text is everything received, followed by the error text |
| GeminiStream.SendMessageStream | install.js:142-147 | the generator's yields are exactly `Fragments(received, failure)` |
| Timeline.Append | App.tsx:140-147 | `[...(prev[id] \|\| []), m]`: the room's timeline gains the message at the end, other rooms are untouched |
| Timeline.Unsend | App.tsx:185-191 | the room keeps exactly its messages with another id; keys and other rooms are untouched |
| Timeline.LocalEdit | App.tsx:201-215 | the user's edit: a non-empty emoji is put, an empty or missing one clears the user's entry |
| Timeline.React | App.tsx:201-215 | a local reaction keeps the keys, the other rooms and the length of the room's timeline |
| Timeline.UpdatePlaceholder | App.tsx:154-172 | a placeholder update keeps the set of rooms with a timeline |
| Timeline.Without | App.tsx:189 | `filter(m => m.id !== id)`: keeps exactly the other messages |
| Timeline.WithoutAbsent | App.tsx:189 | filtering an id that is absent changes nothing |
| Timeline.WithoutRemovesAll | App.tsx:189 | no message with the removed id is left |
| Timeline.WithoutIdempotent | App.tsx:189 | removing twice is removing once |
| Timeline.WithoutConcat | App.tsx:189 | filtering distributes over concatenation |
| Timeline.WithoutKeepsUnique | App.tsx:189 | filtering keeps ids unique |
| Timeline.EditReactions | App.tsx:205-213 | the `map` edits the reactions of every message with the id and no other message |
| Timeline.EditReactionsKeepsIds | App.tsx:205-213 | a reaction edit keeps the set of ids and their uniqueness |
| Timeline.EditReactionsIdempotent | App.tsx:205-213 | applying a reaction edit twice is applying it once |
| Timeline.PutThenClear | App.tsx:207-209 | setting then deleting a participant's reaction is deleting it; other participants' reactions stay |
| Timeline.ApplyChannelEvent | App.tsx:107-114 | a channel event alters only the subscribed room's timeline and adds at most one message |
| Timeline.RemoteReactionPuts | App.tsx:110 | a remote reaction sets `reactions[sender]` to the emoji on every message with the event's id and leaves the rest of the room as it was |
| Timeline.NewMessageEvent | App.tsx:111-113 | a message with a known id is ignored; a new one is appended with the event's id |
| Timeline.UnknownEventIgnored | App.tsx:111 | an event that is not a deletion, reaction or message leaves the state as it was |
| Timeline.ChannelEventIdempotent | App.tsx:107-114 | delivering the same event again changes nothing more |
| Timeline.ChannelEventKeepsUnique | App.tsx:107-114 | events keep a room's message ids unique |
| Timeline.ReplayedMessagesIgnored | App.tsx:112 | a run of message events whose ids are already present leaves the state unchanged |
| Timeline.ArriveThenDelete | App.tsx:109-113 | a message followed by its deletion leaves no message with that id |
| Timeline.UnsendEffect | App.tsx:185-191 | local unsend leaves a room without a timeline alone, is idempotent, matches a remote deletion otherwise and removes only that id |
| Timeline.DeletionCreatesTimeline | App.tsx:108-109 | a remote deletion in a room with no timeline creates an empty timeline |
| Timeline.ReactThenClear | App.tsx:201-215 | reacting and then clearing one's reaction equals clearing it |
| Timeline.ReactTouchesOnlyTarget | App.tsx:201-215 | a local reaction changes only the target messages' reactions, and only the user's entry |
| Timeline.FindIndex | App.tsx:158 | `findIndex`: the first index with the id, or none exactly when the id is absent |
| Timeline.FindIndexAtTail | App.tsx:147-158 | a fresh message appended at the end is found at the last index |
| Timeline.PlaceholderTouchesOnlyTarget | App.tsx:154-172 | a placeholder update keeps the room keys and the other rooms; in the room only the first message with the id is edited, and every other message, a later one with the same id included, is kept |
| Timeline.SetContentOverwrites | App.tsx:153-161 | a later content update supersedes an earlier one |
| RoomList.Find | App.tsx:130 | `rooms.find`: the first matching room, or none exactly when no room matches |
| RoomList.Upsert | App.tsx:284-287 | the list is kept as a prefix and grows by at most the selected room, at the end |
| RoomList.UpsertEffect | App.tsx:282-290 | selecting a room appends it unless its id is listed; the room is then listed and ids stay unique |
| RoomList.EditRooms | App.tsx:218-224 | the `map` changes every room with the id and no other room |
| RoomList.EditRoomsKeepsIds | App.tsx:218-224 | a room edit keeps every room's id and the set of ids |
| RoomList.ToggleMuteTwice | App.tsx:218-220 | toggling mute twice restores the list |
| RoomList.EditRoomsOnlyField | App.tsx:218-224 | a mute toggle or nickname changes only that field; nickname and replace are idempotent |
| ChatApp.ChannelOf | App.tsx:138 | a group room's `group_` channel, or the direct channel of the two numbers in either order |
| ChatApp.Selected | App.tsx:129 | the truthiness test of `activeRoomId`: an open room only for a present, non-empty id, which is then that id |
| ChatApp.Blocks | App.tsx:106 | a subscription callback drops events of a direct room whose peer number the captured user has blocked; group rooms are never blocked |
| ChatApp.UserMessage | App.tsx:135 | the echo: id the decimal clock reading, the user's role, the given content, kind and metadata, not read, not streaming, no reactions |
| ChatApp.Placeholder | App.tsx:145-146 | the placeholder: id the decimal of the reading plus one, the model's role, empty and streaming |
| ChatApp.TempRoom | App.tsx:79 | the room for an unknown caller has id `temp_` + number, that phone number and is not a group |
| ChatApp.WithSession | App.tsx:149 | an existing session is kept; a missing one is created with the persona; no other entry changes |
| ChatApp.SendTarget | App.tsx:128-133 | a target only for a non-blank or non-text message, a signed-in user and a listed open room; none when the open id is not listed |
| ChatApp.CallAdded | App.tsx:78-81 | a callback adds the `temp_` room exactly when the list it closed over has no room for the number |
| ChatApp.RoomsAfterCall | App.tsx:77-82 | the list is kept as a prefix and grows by at most the temporary room |
| ChatApp.CallRoom | App.tsx:77-82 | the call's room has the caller's number and is a listed room or the temporary one |
| ChatApp.StaleListenersDuplicateTempRoom | App.tsx:73-85 | two callbacks closed over the same list without the caller add two rooms with one `temp_` id |
| ChatApp.PlaceholderIdDiffers | App.tsx:135-145 | when the clock does not run backwards, the placeholder id differs from the echo's |
| ChatApp.AssistantExchangeAppends | App.tsx:142-173 | with fresh ids the assistant room ends with the echo and the placeholder holding all fragments, not streaming; other rooms keep their timelines |
| ChatApp.ExchangeIsOneUpdate | App.tsx:142-173 | with fresh ids the whole exchange replaces the room's timeline by the old one, the echo and the finished reply, and touches nothing else |
| ChatApp.ExchangeLeavesNothingStreaming | App.tsx:163-172 | with fresh ids, in a room where nothing was streaming and for an echo that is not streaming, no message of the room is streaming after the `finally` block |
| ChatApp.CallAddsAtMostOneRoom | App.tsx:77-82 | with a callback that saw the current list, a call from an unknown number adds one `temp_` room; a second call from it adds nothing and finds that room |
| ChatApp.App.constructor | App.tsx:19-32 | the initial state: user and rooms from storage, no open room, no call, empty timelines and sessions |
| ChatApp.App.SendMessage | App.tsx:127-176 | no effect on early return; a peer room gets an echo and one gateway send; the assistant room gets the echo and, for text, the streamed placeholder and at most one new session |
| ChatApp.App.SetUser | App.tsx:293 | the signed-in user becomes the given profile, or none |
| ChatApp.App.DeleteAccount | App.tsx:295-298 | the store after `deleteAccount` of the user's email and phone, and no user signed in |
| ChatApp.App.StreamReply | App.tsx:143-173 | the placeholder is appended, filled with the accumulated fragments and its streaming flag cleared; the room's session is created only if missing |
| ChatApp.App.FillPlaceholder | App.tsx:148-162 | after the loop the placeholder holds the concatenation of all fragments, or is untouched when there were none |
| ChatApp.App.DeliverChannelEvent | App.tsx:105-114 | the subscribed room's callback drops events when the captured user blocked the peer and otherwise applies the event |
| ChatApp.App.UnsendMessage | App.tsx:178-192 | the deletion is broadcast for a peer room only and always applied locally |
| ChatApp.App.ReactToMessage | App.tsx:194-216 | the reaction is broadcast for a peer room only and always applied locally |
| ChatApp.App.ToggleMute | App.tsx:218-220 | the room list after toggling mute on the id |
| ChatApp.App.UpdateNickname | App.tsx:222-224 | the room list after setting the nickname on the id |
| ChatApp.App.BlockUser | App.tsx:226-238 | the number is appended to the block list and the open room is closed; nothing happens when signed out |
| ChatApp.App.DeleteChat | App.tsx:240-247 | the open room is closed and its timeline is queued for clearing |
| ChatApp.App.RunDeleteTimer | App.tsx:249-256 | the oldest queued room's timeline is dropped; the room list is kept |
| ChatApp.App.SelectRoom | App.tsx:282-290 | the room is added unless listed and opened |
| ChatApp.App.UpdateRoom | App.tsx:291 | the listed room with the same id is replaced |
| ChatApp.App.CloseRoom | App.tsx:317-320 | no room is open |
| ChatApp.App.EndCall | App.tsx:276 | no call is active |
| ChatApp.App.ReceiveCall | App.tsx:75-83 | a caller the captured user blocked is dropped; otherwise the temporary room is appended when the captured list lacks the caller, and the call is set unless the captured call was active |
| ChatApp.App.SetCallState | App.tsx:322 | the call becomes the one the chat window set |
| ChatApp.App.ListenForCalls | App.tsx:73-85 | with a user signed in, one more callback closed over the current user, rooms and call; none removed |
| ChatApp.App.GuardActiveRoom | App.tsx:43-52 | an open room that is not listed is closed, otherwise nothing changes; afterwards an open room is always listed |
| ChatApp.App.SubscribeActiveRoom | App.tsx:99-120 | the open non-assistant room is subscribed once, to its direct or group channel; existing subscriptions are kept |

## Left out

- The UI: rendering, the sidebar flag `showSidebarOnMobile`, the upgrade screen `isUpgrading` with its `onTriggerUpgrade` and `onBack` handlers (App.tsx:264,324), the security blur and its keyboard and focus listeners (App.tsx:22,27,29,54-71). These are presentation only.
- The profile heartbeat (App.tsx:34-40). It is a timer that calls a gateway stub with no effect on the state.
- Loading and saving of timelines and call history (App.tsx:24,87-97,124-125; install.js:157-160). These are asynchronous local-storage I/O with date revival. `isDecrypting` goes with them, and so the rule that timelines are not saved while loading is not modelled either.
- The persistence effects (App.tsx:122-123) are not run as steps of `App`. Their storage halves are `LocalStore.SaveUser` and `LocalStore.SaveRooms`.
- `JSON.stringify`/`JSON.parse` are not modelled. A stored value is its parsed form, and a value of the wrong shape reads as unparsable.
- Object keys that clash with `Object.prototype` names are not modelled, because the model uses plain maps and the source uses plain objects.
- `createChatSession`, the model provider and its SDK are not modelled. A session records only its system instruction, and the chunks and the failure arrive as parameters.
- The realtime gateway stubs (install.js:167-176) are not modelled. Outgoing sends are recorded in `outbox`, and incoming events are passed to `DeliverChannelEvent`.
- Interleaving of asynchronous steps (a channel event arriving mid-stream, the session being recreated) is not modelled. Each handler runs to completion.
- `Date.now()` and `new Date()` are natural-number parameters. Timestamps are integers, not `Date` objects.
- `startTime` in the metadata is an integer, not a floating-point number.
- An exception thrown by `createChatSession` or rejected outside the wrapper's `try` is not modelled. So is the bare `try … finally` without `catch` in `handleSendMessage`.
- String order in `Channels.Less` compares characters, whereas JavaScript `sort` compares UTF-16 code units. They agree for the digit phone numbers the app issues.
- `onAuthSuccess` (App.tsx:262-265) and `onLogout` (App.tsx:294) are `SetUser` with a profile and with none; their `isUpgrading` half is left out with the UI.
- Which registered call callback fires, and whether the gateway replaces an older one, is not modelled. `ReceiveCall` takes the callback as a parameter.
- ChatApp.App.DeliverChannelEvent: a remote reaction's emoji is always a string, so the `null` emoji that `reactToMessageInChannel` may broadcast to clear a reaction is not modelled. The remote handler (App.tsx:110) would store that `null` under the sender, whereas a local clear (App.tsx:209) deletes the key.
- The rest of install.js (the file-writing loop and the embedded copies of the other project files, including an older App.tsx) is not part of this model.

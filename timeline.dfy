/**
 * The updaters the chat component hands to `setMessages` (App.tsx): pure
 * functions from the old room-to-timeline map to the new one, built from
 * filter, map, append and find-by-id.
 */
module Timeline {
  import opened Wrappers
  import opened Types

  /** The component's `messages` state: room id to that room's ordered timeline. */
  type Timelines = map<string, seq<Message>>

  /** `prev[roomId] || []`: a room without a timeline reads as an empty one. */
  function Current(prev: Timelines, roomId: string): seq<Message> {
    if roomId in prev then prev[roomId] else []
  }

  predicate HasId(msgs: seq<Message>, id: string) {
    exists i :: 0 <= i < |msgs| && msgs[i].id == id
  }

  /** At most one message per id. */
  predicate UniqueIds(msgs: seq<Message>) {
    forall i, j :: 0 <= i < j < |msgs| ==> msgs[i].id != msgs[j].id
  }

  predicate NoneStreaming(msgs: seq<Message>) {
    forall i :: 0 <= i < |msgs| ==> !msgs[i].isStreaming
  }

  /** The timeline with `m` added at the tail. */
  function Append(prev: Timelines, roomId: string, m: Message): (r: Timelines)
    ensures Current(r, roomId) == Current(prev, roomId) + [m]
    ensures r.Keys == prev.Keys + {roomId}
    ensures forall k :: k in prev && k != roomId ==> r[k] == prev[k]
  {
    prev[roomId := Current(prev, roomId) + [m]]
  }

  // ---------------------------------------------------------------- removal

  /** `msgs.filter(m => m.id !== id)`: the messages with another id, in order. */
  function Without(msgs: seq<Message>, id: string): (r: seq<Message>)
    ensures forall m :: m in r <==> m in msgs && m.id != id
    ensures |r| <= |msgs|
  {
    if msgs == [] then []
    else if msgs[0].id == id then Without(msgs[1..], id)
    else [msgs[0]] + Without(msgs[1..], id)
  }

  lemma {:induction false} WithoutAbsent(msgs: seq<Message>, id: string)
    requires !HasId(msgs, id)
    ensures Without(msgs, id) == msgs
  {
    if msgs != [] {
      assert msgs[0].id != id;
      assert !HasId(msgs[1..], id) by {
        forall i | 0 <= i < |msgs| - 1 ensures msgs[1..][i].id != id {
          assert msgs[1..][i] == msgs[i + 1];
        }
      }
      WithoutAbsent(msgs[1..], id);
      assert msgs == [msgs[0]] + msgs[1..];
    }
  }

  lemma WithoutRemovesAll(msgs: seq<Message>, id: string)
    ensures !HasId(Without(msgs, id), id)
  {
    var r := Without(msgs, id);
    forall i | 0 <= i < |r| ensures r[i].id != id {
      assert r[i] in r;
    }
  }

  /** Removing an id a second time changes nothing. */
  lemma WithoutIdempotent(msgs: seq<Message>, id: string)
    ensures Without(Without(msgs, id), id) == Without(msgs, id)
  {
    WithoutRemovesAll(msgs, id);
    WithoutAbsent(Without(msgs, id), id);
  }

  /** Removal works element by element, so the survivors keep their order. */
  lemma {:induction false} WithoutConcat(a: seq<Message>, b: seq<Message>, id: string)
    ensures Without(a + b, id) == Without(a, id) + Without(b, id)
  {
    if a == [] {
      assert a + b == b;
    } else {
      assert (a + b)[0] == a[0] && (a + b)[1..] == a[1..] + b;
      WithoutConcat(a[1..], b, id);
    }
  }

  lemma {:induction false} WithoutKeepsUnique(msgs: seq<Message>, id: string)
    requires UniqueIds(msgs)
    ensures UniqueIds(Without(msgs, id))
  {
    if msgs != [] {
      var tail := msgs[1..];
      UniqueTail(msgs);
      WithoutKeepsUnique(tail, id);
      if msgs[0].id != id {
        var rest := Without(tail, id);
        forall j | 0 <= j < |rest| ensures rest[j].id != msgs[0].id {
          HeadIdNotInTail(msgs, rest[j]);
        }
        UniqueCons(msgs[0], rest);
      }
    }
  }

  lemma UniqueTail(msgs: seq<Message>)
    requires msgs != [] && UniqueIds(msgs)
    ensures UniqueIds(msgs[1..])
  {
    var tail := msgs[1..];
    forall i, j | 0 <= i < j < |tail| ensures tail[i].id != tail[j].id {
      assert tail[i] == msgs[i + 1] && tail[j] == msgs[j + 1];
    }
  }

  lemma HeadIdNotInTail(msgs: seq<Message>, m: Message)
    requires msgs != [] && UniqueIds(msgs) && m in msgs[1..]
    ensures m.id != msgs[0].id
  {
    var k :| 0 <= k < |msgs[1..]| && msgs[1..][k] == m;
    assert msgs[k + 1] == m;
  }

  lemma UniqueCons(m: Message, rest: seq<Message>)
    requires UniqueIds(rest) && forall j :: 0 <= j < |rest| ==> rest[j].id != m.id
    ensures UniqueIds([m] + rest)
  {
    var r := [m] + rest;
    forall i, j | 0 <= i < j < |r| ensures r[i].id != r[j].id {
      if i == 0 {
        assert r[j] == rest[j - 1];
      } else {
        assert r[i] == rest[i - 1] && r[j] == rest[j - 1];
      }
    }
  }

  // -------------------------------------------------------------- reactions

  /** What one reaction does to a message's reaction map: set a participant's emoji, or clear it. */
  datatype ReactionEdit = Put(participant: string, emoji: string) | Clear(participant: string)

  function Edited(reactions: map<string, string>, e: ReactionEdit): map<string, string> {
    match e
    case Put(p, emoji) => reactions[p := emoji]
    case Clear(p) => reactions - {p}
  }

  /** `msgs.map(m => m.id === id ? { ...m, reactions: edited } : m)`: only messages with the id change. */
  function EditReactions(msgs: seq<Message>, id: string, e: ReactionEdit): (r: seq<Message>)
    ensures |r| == |msgs|
    ensures forall i :: 0 <= i < |msgs| ==>
      r[i] == if msgs[i].id == id then msgs[i].(reactions := Edited(msgs[i].reactions, e)) else msgs[i]
  {
    if msgs == [] then []
    else
      var m := msgs[0];
      [if m.id == id then m.(reactions := Edited(m.reactions, e)) else m] + EditReactions(msgs[1..], id, e)
  }

  lemma EditReactionsKeepsIds(msgs: seq<Message>, id: string, e: ReactionEdit)
    ensures forall k :: HasId(EditReactions(msgs, id, e), k) <==> HasId(msgs, k)
    ensures UniqueIds(msgs) ==> UniqueIds(EditReactions(msgs, id, e))
  {
    var r := EditReactions(msgs, id, e);
    assert forall i :: 0 <= i < |msgs| ==> r[i].id == msgs[i].id;
  }

  /** Applying the same reaction twice is applying it once. */
  lemma EditReactionsIdempotent(msgs: seq<Message>, id: string, e: ReactionEdit)
    ensures EditReactions(EditReactions(msgs, id, e), id, e) == EditReactions(msgs, id, e)
  {
    var once := EditReactions(msgs, id, e);
    var twice := EditReactions(once, id, e);
    forall i | 0 <= i < |msgs| ensures twice[i] == once[i] {
      if msgs[i].id == id {
        var m := msgs[i].reactions;
        assert Edited(Edited(m, e), e) == Edited(m, e);
      }
    }
  }

  /** Setting a participant's reaction and then clearing it is the same as only clearing it. */
  lemma PutThenClear(msgs: seq<Message>, id: string, p: string, emoji: string)
    ensures EditReactions(EditReactions(msgs, id, Put(p, emoji)), id, Clear(p)) == EditReactions(msgs, id, Clear(p))
    ensures forall i :: 0 <= i < |msgs| && msgs[i].id == id ==>
      p !in EditReactions(EditReactions(msgs, id, Put(p, emoji)), id, Clear(p))[i].reactions
  {
    var put := EditReactions(msgs, id, Put(p, emoji));
    var both := EditReactions(put, id, Clear(p));
    var clear := EditReactions(msgs, id, Clear(p));
    forall i | 0 <= i < |msgs| ensures both[i] == clear[i] {
      if msgs[i].id == id {
        var m := msgs[i].reactions;
        assert m[p := emoji] - {p} == m - {p};
      }
    }
  }

  // ---------------------------------------------------------- remote events

  datatype Reaction = Reaction(sender: string, emoji: string)

  /**
   * An inbound event on a room's channel. Each field stands for a property
   * the event object may carry: `deleted`, `reaction`, and the message
   * fields, present exactly when the object has a `role`.
   */
  datatype ChannelEvent = ChannelEvent(id: string, deleted: bool, reaction: Option<Reaction>, message: Option<Message>)

  /** The event object itself read as a message: its id is the event's id. */
  function Arrived(ev: ChannelEvent): Message
    requires ev.message.Some?
  {
    ev.message.value.(id := ev.id)
  }

  /** The updater of the channel subscription (App.tsx:107-114); the first matching shape wins. */
  function ApplyChannelEvent(prev: Timelines, roomId: string, ev: ChannelEvent): (r: Timelines)
    ensures forall k :: k != roomId ==> (k in r <==> k in prev)
    ensures forall k :: k != roomId && k in prev ==> r[k] == prev[k]
    ensures |Current(r, roomId)| <= |Current(prev, roomId)| + 1
  {
    var cur := Current(prev, roomId);
    if ev.deleted then prev[roomId := Without(cur, ev.id)]
    else if ev.reaction.Some? then
      prev[roomId := EditReactions(cur, ev.id, Put(ev.reaction.value.sender, ev.reaction.value.emoji))]
    else if ev.message.None? then prev
    else if HasId(cur, ev.id) then prev
    else prev[roomId := cur + [Arrived(ev)]]
  }

  /**
   * A remote reaction (App.tsx:110) sets `reactions[sender]` to the emoji on
   * every message with the event's id and changes nothing else in the room.
   */
  lemma RemoteReactionPuts(prev: Timelines, roomId: string, ev: ChannelEvent)
    requires !ev.deleted && ev.reaction.Some?
    ensures var r := Current(ApplyChannelEvent(prev, roomId, ev), roomId);
      var cur := Current(prev, roomId);
      && |r| == |cur|
      && forall i :: 0 <= i < |cur| ==>
           if cur[i].id == ev.id
           then r[i] == cur[i].(reactions := cur[i].reactions[ev.reaction.value.sender := ev.reaction.value.emoji])
           else r[i] == cur[i]
  {
  }

  /** A new-message event: ignored when its id is already in the timeline, otherwise appended at the tail. */
  lemma NewMessageEvent(prev: Timelines, roomId: string, ev: ChannelEvent)
    requires !ev.deleted && ev.reaction.None? && ev.message.Some?
    ensures HasId(Current(prev, roomId), ev.id) ==> ApplyChannelEvent(prev, roomId, ev) == prev
    ensures !HasId(Current(prev, roomId), ev.id) ==>
      ApplyChannelEvent(prev, roomId, ev) == Append(prev, roomId, Arrived(ev))
  {
  }

  /** An event that is neither a deletion, nor a reaction, nor a message leaves everything as it was. */
  lemma UnknownEventIgnored(prev: Timelines, roomId: string, ev: ChannelEvent)
    requires !ev.deleted && ev.reaction.None? && ev.message.None?
    ensures ApplyChannelEvent(prev, roomId, ev) == prev
  {
  }

  /** Every event, delivered twice, has the effect of being delivered once. */
  lemma ChannelEventIdempotent(prev: Timelines, roomId: string, ev: ChannelEvent)
    ensures ApplyChannelEvent(ApplyChannelEvent(prev, roomId, ev), roomId, ev) == ApplyChannelEvent(prev, roomId, ev)
  {
    var cur := Current(prev, roomId);
    if ev.deleted {
      WithoutIdempotent(cur, ev.id);
    } else if ev.reaction.Some? {
      EditReactionsIdempotent(cur, ev.id, Put(ev.reaction.value.sender, ev.reaction.value.emoji));
    } else if ev.message.Some? && !HasId(cur, ev.id) {
      var next := cur + [Arrived(ev)];
      assert next[|cur|].id == ev.id;
    }
  }

  /** Remote events never put a second copy of an id into a timeline. */
  lemma ChannelEventKeepsUnique(prev: Timelines, roomId: string, ev: ChannelEvent)
    requires UniqueIds(Current(prev, roomId))
    ensures UniqueIds(Current(ApplyChannelEvent(prev, roomId, ev), roomId))
  {
    var cur := Current(prev, roomId);
    if ev.deleted {
      WithoutKeepsUnique(cur, ev.id);
    } else if ev.reaction.Some? {
      EditReactionsKeepsIds(cur, ev.id, Put(ev.reaction.value.sender, ev.reaction.value.emoji));
    } else if ev.message.Some? && !HasId(cur, ev.id) {
      var next := cur + [Arrived(ev)];
      forall i, j | 0 <= i < j < |next| ensures next[i].id != next[j].id {
        if j == |cur| {
          assert next[i] == cur[i];
        } else {
          assert next[i] == cur[i] && next[j] == cur[j];
        }
      }
    }
  }

  /** Delivering a sequence of events in arrival order. */
  function ApplyAll(prev: Timelines, roomId: string, evs: seq<ChannelEvent>): Timelines
    decreases |evs|
  {
    if evs == [] then prev else ApplyAll(ApplyChannelEvent(prev, roomId, evs[0]), roomId, evs[1..])
  }

  /** Replaying new-message events whose ids are already in the timeline changes nothing. */
  lemma {:induction false} ReplayedMessagesIgnored(prev: Timelines, roomId: string, evs: seq<ChannelEvent>)
    requires forall i :: 0 <= i < |evs| ==>
      !evs[i].deleted && evs[i].reaction.None? && evs[i].message.Some? && HasId(Current(prev, roomId), evs[i].id)
    ensures ApplyAll(prev, roomId, evs) == prev
  {
    if evs != [] {
      NewMessageEvent(prev, roomId, evs[0]);
      ReplayedMessagesIgnored(prev, roomId, evs[1..]);
    }
  }

  /** A new message followed by its deletion leaves no message with that id. */
  lemma ArriveThenDelete(prev: Timelines, roomId: string, m: Message)
    ensures !HasId(Current(ApplyAll(prev, roomId, [ChannelEvent(m.id, false, None, Some(m)), ChannelEvent(m.id, true, None, None)]), roomId), m.id)
  {
    var evs := [ChannelEvent(m.id, false, None, Some(m)), ChannelEvent(m.id, true, None, None)];
    var first := ApplyChannelEvent(prev, roomId, evs[0]);
    var second := ApplyChannelEvent(first, roomId, evs[1]);
    assert evs[1..][0] == evs[1] && evs[1..][1..] == [];
    assert ApplyAll(first, roomId, evs[1..]) == ApplyAll(second, roomId, []);
    assert ApplyAll(prev, roomId, evs) == second;
    WithoutRemovesAll(Current(first, roomId), m.id);
  }

  // ------------------------------------------------------------ local edits

  /** The updater of `handleUnsendMessage` (App.tsx:185-191). */
  function Unsend(prev: Timelines, roomId: string, id: string): (r: Timelines)
    ensures r.Keys == prev.Keys
    ensures forall k :: k in prev && k != roomId ==> r[k] == prev[k]
    ensures forall m :: m in Current(r, roomId) <==> m in Current(prev, roomId) && m.id != id
  {
    if roomId !in prev then prev else prev[roomId := Without(prev[roomId], id)]
  }

  /** Unsend removes exactly the messages with the id from that room, is idempotent, and agrees with a remote deletion. */
  lemma UnsendEffect(prev: Timelines, roomId: string, id: string)
    ensures roomId !in prev ==> Unsend(prev, roomId, id) == prev
    ensures Unsend(Unsend(prev, roomId, id), roomId, id) == Unsend(prev, roomId, id)
    ensures roomId in prev ==> Unsend(prev, roomId, id) == ApplyChannelEvent(prev, roomId, ChannelEvent(id, true, None, None))
    ensures !HasId(Current(Unsend(prev, roomId, id), roomId), id)
    ensures forall m :: m in Current(Unsend(prev, roomId, id), roomId) <==> m in Current(prev, roomId) && m.id != id
    ensures forall k :: k != roomId ==> (k in Unsend(prev, roomId, id) <==> k in prev)
    ensures forall k :: k != roomId && k in prev ==> Unsend(prev, roomId, id)[k] == prev[k]
  {
    if roomId in prev {
      WithoutIdempotent(prev[roomId], id);
      WithoutRemovesAll(prev[roomId], id);
    }
  }

  /** A remote deletion, unlike an unsend, leaves an empty timeline behind for a room that had none. */
  lemma DeletionCreatesTimeline(prev: Timelines, roomId: string, id: string)
    requires roomId !in prev
    ensures ApplyChannelEvent(prev, roomId, ChannelEvent(id, true, None, None)) == prev[roomId := []]
  {
  }

  /** `if (emoji) reactions[self] = emoji; else delete reactions[self]`: null and '' both clear. */
  function LocalEdit(self: string, emoji: Option<string>): (r: ReactionEdit)
    ensures r.participant == self
    ensures r.Put? ==> emoji == Some(r.emoji) && r.emoji != ""
    ensures r.Clear? ==> emoji == None || emoji == Some("")
  {
    if emoji.Some? && emoji.value != "" then Put(self, emoji.value) else Clear(self)
  }

  /** The updater of `handleReactToMessage` (App.tsx:201-215). */
  function React(prev: Timelines, roomId: string, id: string, self: string, emoji: Option<string>): (r: Timelines)
    ensures r.Keys == prev.Keys
    ensures forall k :: k in prev && k != roomId ==> r[k] == prev[k]
    ensures |Current(r, roomId)| == |Current(prev, roomId)|
  {
    if roomId !in prev then prev else prev[roomId := EditReactions(prev[roomId], id, LocalEdit(self, emoji))]
  }

  /** Reacting and then clearing leaves the user no entry on the message, as if only cleared. */
  lemma ReactThenClear(prev: Timelines, roomId: string, id: string, self: string, emoji: string)
    requires emoji != ""
    ensures React(React(prev, roomId, id, self, Some(emoji)), roomId, id, self, None) == React(prev, roomId, id, self, None)
    ensures forall i :: 0 <= i < |Current(prev, roomId)| && Current(prev, roomId)[i].id == id ==>
      self !in Current(React(React(prev, roomId, id, self, Some(emoji)), roomId, id, self, None), roomId)[i].reactions
  {
    if roomId in prev {
      PutThenClear(prev[roomId], id, self, emoji);
    }
  }

  /** A local reaction changes only the reactions of messages with the id, and only the user's entry. */
  lemma ReactTouchesOnlyTarget(prev: Timelines, roomId: string, id: string, self: string, emoji: Option<string>)
    requires roomId in prev
    ensures var r := React(prev, roomId, id, self, emoji)[roomId];
      |r| == |prev[roomId]| &&
      forall i :: 0 <= i < |r| ==>
        (prev[roomId][i].id != id ==> r[i] == prev[roomId][i]) &&
        (prev[roomId][i].id == id ==>
          r[i].(reactions := prev[roomId][i].reactions) == prev[roomId][i] &&
          (forall q :: q != self ==> (q in r[i].reactions <==> q in prev[roomId][i].reactions)) &&
          (forall q :: q != self && q in prev[roomId][i].reactions ==> r[i].reactions[q] == prev[roomId][i].reactions[q]) &&
          (if emoji.Some? && emoji.value != "" then self in r[i].reactions && r[i].reactions[self] == emoji.value
           else self !in r[i].reactions))
  {
  }

  // ------------------------------------------------------------ placeholder

  /** `msgs.findIndex(m => m.id === id)`: the first position holding the id. */
  function FindIndex(msgs: seq<Message>, id: string): (r: Option<nat>)
    ensures r.Some? ==> r.value < |msgs| && msgs[r.value].id == id
    ensures r.Some? ==> forall j :: 0 <= j < r.value ==> msgs[j].id != id
    ensures r.None? <==> !HasId(msgs, id)
  {
    if msgs == [] then None
    else if msgs[0].id == id then Some(0)
    else match FindIndex(msgs[1..], id)
      case None => None
      case Some(k) => Some(k + 1)
  }

  /** Two timelines with the same ids at the same positions have the same first position for every id. */
  lemma {:induction false} FindIndexSameIds(a: seq<Message>, b: seq<Message>, id: string)
    requires |a| == |b| && forall i :: 0 <= i < |a| ==> a[i].id == b[i].id
    ensures FindIndex(a, id) == FindIndex(b, id)
  {
    if a != [] {
      FindIndexSameIds(a[1..], b[1..], id);
    }
  }

  lemma FindIndexAtTail(msgs: seq<Message>, m: Message)
    requires !HasId(msgs, m.id)
    ensures FindIndex(msgs + [m], m.id) == Some(|msgs|)
  {
    var r := msgs + [m];
    assert r[|msgs|].id == m.id;
    assert forall j :: 0 <= j < |msgs| ==> r[j] == msgs[j];
  }

  /** The two updates the assistant stream makes to its placeholder. */
  datatype PlaceholderEdit = SetContent(content: string) | StopStreaming

  function EditedMessage(m: Message, e: PlaceholderEdit): Message {
    match e
    case SetContent(c) => m.(content := c)
    case StopStreaming => m.(isStreaming := false)
  }

  /** The updaters of the stream loop and of its `finally` (App.tsx:154-161, 165-172). */
  function UpdatePlaceholder(prev: Timelines, roomId: string, id: string, e: PlaceholderEdit): (r: Timelines)
    ensures r.Keys == prev.Keys
  {
    if roomId !in prev then prev
    else
      var msgs := prev[roomId];
      match FindIndex(msgs, id)
      case None => prev
      case Some(i) => prev[roomId := msgs[i := EditedMessage(msgs[i], e)]]
  }

  /**
   * A placeholder update is a no-op when the room's timeline is gone, keeps
   * every room's ids in place and edits only the first message with the id;
   * a later message with the same id is kept as it was.
   */
  lemma PlaceholderTouchesOnlyTarget(prev: Timelines, roomId: string, id: string, e: PlaceholderEdit)
    ensures roomId !in prev ==> UpdatePlaceholder(prev, roomId, id, e) == prev
    ensures UpdatePlaceholder(prev, roomId, id, e).Keys == prev.Keys
    ensures forall k :: k in prev && k != roomId ==> UpdatePlaceholder(prev, roomId, id, e)[k] == prev[k]
    ensures roomId in prev ==>
      var r := UpdatePlaceholder(prev, roomId, id, e)[roomId];
      |r| == |prev[roomId]| &&
      forall i :: 0 <= i < |r| ==> r[i].id == prev[roomId][i].id && (r[i].id != id ==> r[i] == prev[roomId][i])
    ensures roomId in prev ==>
      var r := UpdatePlaceholder(prev, roomId, id, e)[roomId];
      var f := FindIndex(prev[roomId], id);
      && (forall i :: 0 <= i < |r| && f != Some(i) ==> r[i] == prev[roomId][i])
      && (f.Some? ==> r[f.value] == EditedMessage(prev[roomId][f.value], e))
  {
  }

  /** A later content update overwrites an earlier one. */
  lemma SetContentOverwrites(prev: Timelines, roomId: string, id: string, a: string, b: string)
    ensures UpdatePlaceholder(UpdatePlaceholder(prev, roomId, id, SetContent(a)), roomId, id, SetContent(b))
         == UpdatePlaceholder(prev, roomId, id, SetContent(b))
  {
    if roomId in prev {
      var msgs := prev[roomId];
      match FindIndex(msgs, id)
      case None =>
      case Some(i) =>
        var once := msgs[i := msgs[i].(content := a)];
        assert forall j :: 0 <= j < |msgs| ==> once[j].id == msgs[j].id;
        FindIndexSameIds(msgs, once, id);
        var mid := prev[roomId := once];
        assert UpdatePlaceholder(prev, roomId, id, SetContent(a)) == mid;
        var twice := once[i := once[i].(content := b)];
        assert twice == msgs[i := msgs[i].(content := b)];
        assert UpdatePlaceholder(mid, roomId, id, SetContent(b)) == mid[roomId := twice];
        assert mid[roomId := twice] == prev[roomId := twice];
    }
  }

}

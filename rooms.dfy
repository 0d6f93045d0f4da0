/** The updaters the chat component hands to `setRooms`, and its lookups in the room list (App.tsx). */
module RoomList {
  import opened Wrappers
  import opened Types

  /** What a lookup matches on: `r.id === id` or `r.phoneNumber === phone`. */
  datatype RoomKey = IdIs(id: string) | PhoneIs(phone: string)

  predicate Matches(r: ChatRoom, key: RoomKey) {
    match key
    case IdIs(id) => r.id == id
    case PhoneIs(phone) => r.phoneNumber == Some(phone)
  }

  predicate HasRoom(rooms: seq<ChatRoom>, id: string) {
    exists i :: 0 <= i < |rooms| && rooms[i].id == id
  }

  /** At most one room per id. */
  predicate UniqueRoomIds(rooms: seq<ChatRoom>) {
    forall i, j :: 0 <= i < j < |rooms| ==> rooms[i].id != rooms[j].id
  }

  /** `rooms.find(...)`: the first room that matches, if any. */
  function Find(rooms: seq<ChatRoom>, key: RoomKey): (r: Option<ChatRoom>)
    ensures r.None? <==> forall i :: 0 <= i < |rooms| ==> !Matches(rooms[i], key)
    ensures r.Some? ==>
      exists i :: (0 <= i < |rooms| && rooms[i] == r.value && forall j :: 0 <= j < i ==> !Matches(rooms[j], key))
    ensures r.Some? ==> Matches(r.value, key)
  {
    if rooms == [] then None
    else if Matches(rooms[0], key) then Some(rooms[0])
    else
      var rest := Find(rooms[1..], key);
      assert rest.Some? ==>
        exists i :: (0 <= i < |rooms| && rooms[i] == rest.value && forall j :: 0 <= j < i ==> !Matches(rooms[j], key)) by {
        if rest.Some? {
          var k :| 0 <= k < |rooms| - 1 && rooms[1..][k] == rest.value && (forall j :: 0 <= j < k ==> !Matches(rooms[1..][j], key));
          assert rooms[k + 1] == rest.value;
          assert forall j :: 0 < j < k + 1 ==> rooms[j] == rooms[1..][j - 1];
        }
      }
      rest
  }

  /** The `onSelectRoom` updater (App.tsx:284-287): add the room unless its id is already listed. */
  function Upsert(rooms: seq<ChatRoom>, r: ChatRoom): (u: seq<ChatRoom>)
    ensures rooms <= u && |u| <= |rooms| + 1
    ensures |u| == |rooms| + 1 ==> u[|rooms|] == r
  {
    if Find(rooms, IdIs(r.id)).Some? then rooms else rooms + [r]
  }

  /**
   * Selecting a room keeps the list as a prefix, adds at most this room,
   * leaves its id listed, never duplicates an id, and a second selection changes nothing.
   */
  lemma UpsertEffect(rooms: seq<ChatRoom>, r: ChatRoom)
    ensures rooms <= Upsert(rooms, r) && |Upsert(rooms, r)| <= |rooms| + 1
    ensures |Upsert(rooms, r)| == |rooms| + 1 ==> Upsert(rooms, r)[|rooms|] == r
    ensures HasRoom(Upsert(rooms, r), r.id)
    ensures HasRoom(rooms, r.id) ==> Upsert(rooms, r) == rooms
    ensures UniqueRoomIds(rooms) ==> UniqueRoomIds(Upsert(rooms, r))
    ensures Upsert(Upsert(rooms, r), r) == Upsert(rooms, r)
  {
    var u := Upsert(rooms, r);
    if !HasRoom(rooms, r.id) {
      assert u[|rooms|] == r;
      assert forall i :: 0 <= i < |rooms| ==> u[i] == rooms[i];
    }
    assert u[|u| - 1].id == r.id || HasRoom(rooms, r.id);
  }

  /** A change `setRooms(prev => prev.map(...))` makes to the rooms whose id matches. */
  datatype RoomEdit = Replace(room: ChatRoom) | ToggleMute | SetNickname(nickname: string)

  function EditedRoom(r: ChatRoom, e: RoomEdit): ChatRoom {
    match e
    case Replace(x) => x
    case ToggleMute => r.(isMuted := !r.isMuted)
    case SetNickname(n) => r.(nickname := Some(n))
  }

  /** `rooms.map(r => r.id === id ? edited : r)`: only the rooms with the id change. */
  function EditRooms(rooms: seq<ChatRoom>, id: string, e: RoomEdit): (r: seq<ChatRoom>)
    ensures |r| == |rooms|
    ensures forall i :: 0 <= i < |rooms| ==> r[i] == if rooms[i].id == id then EditedRoom(rooms[i], e) else rooms[i]
  {
    if rooms == [] then []
    else [if rooms[0].id == id then EditedRoom(rooms[0], e) else rooms[0]] + EditRooms(rooms[1..], id, e)
  }

  /**
   * An edit keeps every room's id in place (a replacement carries the id it
   * replaces), so the set of listed ids and their uniqueness are unchanged.
   */
  lemma EditRoomsKeepsIds(rooms: seq<ChatRoom>, id: string, e: RoomEdit)
    requires e.Replace? ==> e.room.id == id
    ensures forall i :: 0 <= i < |rooms| ==> EditRooms(rooms, id, e)[i].id == rooms[i].id
    ensures forall k :: HasRoom(EditRooms(rooms, id, e), k) <==> HasRoom(rooms, k)
    ensures UniqueRoomIds(rooms) ==> UniqueRoomIds(EditRooms(rooms, id, e))
  {
    var r := EditRooms(rooms, id, e);
    assert forall i :: 0 <= i < |rooms| ==> r[i].id == rooms[i].id;
  }

  /** Toggling mute twice restores the list. */
  lemma ToggleMuteTwice(rooms: seq<ChatRoom>, id: string)
    ensures EditRooms(EditRooms(rooms, id, ToggleMute), id, ToggleMute) == rooms
  {
    var twice := EditRooms(EditRooms(rooms, id, ToggleMute), id, ToggleMute);
    assert forall i :: 0 <= i < |rooms| ==> twice[i] == rooms[i];
  }

  /** An edit changes only the edited field of the matching rooms, and repeating a nickname or replacement changes nothing. */
  lemma EditRoomsOnlyField(rooms: seq<ChatRoom>, id: string, e: RoomEdit)
    ensures forall i :: 0 <= i < |rooms| && rooms[i].id == id ==>
      match e
      case ToggleMute => EditRooms(rooms, id, e)[i] == rooms[i].(isMuted := !rooms[i].isMuted)
      case SetNickname(n) => EditRooms(rooms, id, e)[i] == rooms[i].(nickname := Some(n))
      case Replace(x) => EditRooms(rooms, id, e)[i] == x
    ensures !e.ToggleMute? ==> EditRooms(EditRooms(rooms, id, e), id, e) == EditRooms(rooms, id, e)
  {
    if !e.ToggleMute? {
      var once := EditRooms(rooms, id, e);
      var twice := EditRooms(once, id, e);
      forall i | 0 <= i < |rooms| ensures twice[i] == once[i] {
        if rooms[i].id == id && e.Replace? && e.room.id != id {
          assert once[i].id != id;
        }
      }
    }
  }
}

/**
 * The entities of the chat client (types.ts). Optional boolean and
 * collection fields whose absence the source reads as false or empty
 * (`isMuted`, `isGroup`, `isStreaming`, `isRead`, `reactions`,
 * `blockedNumbers`, `customStickers`) are plain values here, absent
 * meaning false or empty; the other optional fields are `Option`s.
 */
module Types {
  import opened Wrappers

  datatype Role = User | Model

  datatype MessageType = Text | Video | Image | Sticker | Gif

  datatype Metadata = Metadata(
    isCustomSticker: Option<bool>,
    thumbnail: Option<string>,
    startTime: Option<int>,
    isOnceView: Option<bool>,
    isOpened: Option<bool>)

  /** One timeline entry. `timestamp` is in milliseconds; `reactions` maps a participant to an emoji. */
  datatype Message = Message(
    id: string,
    role: Role,
    kind: MessageType,
    content: string,
    timestamp: int,
    isStreaming: bool,
    isRead: bool,
    reactions: map<string, string>,
    metadata: Option<Metadata>)

  datatype Gender = Male | Female

  datatype ChatRoom = ChatRoom(
    id: string,
    name: string,
    nickname: Option<string>,
    avatar: string,
    persona: string,
    gender: Option<Gender>,
    online: Option<bool>,
    isMuted: bool,
    phoneNumber: Option<string>,
    isGroup: bool,
    isRandom: bool)

  datatype CallType = AudioCall | VideoCall

  datatype CallRecord = CallRecord(id: string, roomId: string, callType: CallType, timestamp: int)

  datatype Theme = Light | Dark

  datatype Language = Bn | En

  datatype Preferences = Preferences(theme: Option<Theme>, language: Option<Language>, chatWallpaper: Option<string>)

  datatype UserProfile = UserProfile(
    name: string,
    email: string,
    password: Option<string>,
    gender: Gender,
    phoneNumber: string,
    avatar: string,
    isGuest: bool,
    customStickers: seq<string>,
    blockedNumbers: seq<string>,
    preferences: Option<Preferences>)
}

/**
 * The persistent store (install.js:148-162): browser local storage seen as
 * a map from key to what `JSON.parse` makes of the text stored there.
 * `registerAccount` and `deleteAccount` read the account dictionary, change
 * it in place and write it back.
 */
module Storage {
  import opened Wrappers
  import opened Types

  const USER_KEY := "gop_sop_user"
  const ACCOUNTS_KEY := "gop_sop_accounts"
  const ROOMS_KEY := "gop_sop_rooms"
  const MESSAGES_KEY := "gop_sop_msgs"
  const CALLS_KEY := "gop_sop_calls"

  /** The parsed value stored under one key; `Unparsable` is text on which `JSON.parse` throws. */
  datatype Stored =
    | UserJson(user: UserProfile)
    | AccountsJson(accounts: map<string, UserProfile>)
    | RoomsJson(rooms: seq<ChatRoom>)
    | MessagesJson(timelines: map<string, seq<Message>>)
    | CallsJson(calls: seq<CallRecord>)
    | NullJson
    | Unparsable

  type Items = map<string, Stored>

  /** The key under which one user's message map is kept. */
  function MessagesKey(phone: string): string {
    MESSAGES_KEY + "_" + phone
  }

  /** `getUser`: the stored profile, or null when the key is missing or does not parse. */
  function UserIn(items: Items): (r: Option<UserProfile>)
    ensures r.Some? ==> USER_KEY in items && items[USER_KEY] == UserJson(r.value)
    ensures USER_KEY !in items ==> r == None
  {
    if USER_KEY in items && items[USER_KEY].UserJson? then Some(items[USER_KEY].user) else None
  }

  /** `getAllAccounts`: the account dictionary keyed by email, or `{}`. */
  function AccountsIn(items: Items): (r: map<string, UserProfile>)
    ensures ACCOUNTS_KEY !in items ==> r == map[]
    ensures r != map[] ==> ACCOUNTS_KEY in items && items[ACCOUNTS_KEY] == AccountsJson(r)
  {
    if ACCOUNTS_KEY in items && items[ACCOUNTS_KEY].AccountsJson? then items[ACCOUNTS_KEY].accounts else map[]
  }

  /** `getRooms(def)`: the stored room list, or `def`. */
  function RoomsIn(items: Items, def: seq<ChatRoom>): (r: seq<ChatRoom>)
    ensures r == def || (ROOMS_KEY in items && items[ROOMS_KEY] == RoomsJson(r))
    ensures ROOMS_KEY !in items ==> r == def
  {
    if ROOMS_KEY in items && items[ROOMS_KEY].RoomsJson? then items[ROOMS_KEY].rooms else def
  }

  /** `verifyAccount(e, p)`: the account stored under `e` when its password is `p`, else null. */
  function Verify(items: Items, email: string, password: string): (r: Option<UserProfile>)
    ensures r.Some? ==> email in AccountsIn(items) && r.value == AccountsIn(items)[email]
    ensures r.Some? ==> r.value.password == Some(password)
  {
    var acc := AccountsIn(items);
    if email in acc && acc[email].password == Some(password) then Some(acc[email]) else None
  }

  /** The store after `registerAccount(u)` has added `u`. */
  function Registered(items: Items, u: UserProfile): (r: Items)
    ensures AccountsIn(r) == AccountsIn(items)[u.email := u]
    ensures r.Keys == items.Keys + {ACCOUNTS_KEY}
  {
    items[ACCOUNTS_KEY := AccountsJson(AccountsIn(items)[u.email := u])]
  }

  /** The store after `deleteAccount(email, phone)`. */
  function AccountDeleted(items: Items, email: string, phone: string): (r: Items)
    ensures USER_KEY !in r && MessagesKey(phone) !in r
    ensures email !in AccountsIn(r)
    ensures r.Keys == items.Keys - {USER_KEY, MessagesKey(phone)} + {ACCOUNTS_KEY}
  {
    MessagesKeyIsDistinct(phone);
    var rest := items - {USER_KEY, MessagesKey(phone)};
    rest[ACCOUNTS_KEY := AccountsJson(AccountsIn(rest) - {email})]
  }

  /** A message key is never one of the fixed keys. */
  lemma MessagesKeyIsDistinct(phone: string)
    ensures MessagesKey(phone) != USER_KEY && MessagesKey(phone) != ACCOUNTS_KEY
    ensures MessagesKey(phone) != ROOMS_KEY
  {
    assert MessagesKey(phone)[8] == 'm';
    assert ACCOUNTS_KEY[8] == 'a' && ROOMS_KEY[8] == 'r';
    assert |MessagesKey(phone)| > 12 && |USER_KEY| == 12;
  }

  /** After a registration that took place, the new account verifies with its own password. */
  lemma RegisterThenVerify(items: Items, u: UserProfile, password: string)
    requires u.email !in AccountsIn(items) && u.password == Some(password)
    ensures Verify(Registered(items, u), u.email, password) == Some(u)
  {
  }

  /** Registering touches only the new email's entry and the account key. */
  lemma RegisterKeepsOthers(items: Items, u: UserProfile)
    ensures forall e :: e != u.email ==>
      (e in AccountsIn(Registered(items, u)) <==> e in AccountsIn(items))
      && (e in AccountsIn(items) ==> AccountsIn(Registered(items, u))[e] == AccountsIn(items)[e])
    ensures forall k :: k != ACCOUNTS_KEY ==> (k in Registered(items, u) <==> k in items)
    ensures forall k :: k != ACCOUNTS_KEY && k in items ==> Registered(items, u)[k] == items[k]
  {
  }

  /** `verifyAccount` answers with a profile exactly for a registered email and its password. */
  lemma VerifyIff(items: Items, email: string, password: string)
    ensures Verify(items, email, password).Some? <==>
      email in AccountsIn(items) && AccountsIn(items)[email].password == Some(password)
    ensures Verify(items, email, password).Some? ==> Verify(items, email, password).value == AccountsIn(items)[email]
  {
  }

  /** Deleting an account removes the session user, that phone's messages and that email only. */
  lemma DeleteAccountEffect(items: Items, email: string, phone: string)
    ensures USER_KEY !in AccountDeleted(items, email, phone)
    ensures MessagesKey(phone) !in AccountDeleted(items, email, phone)
    ensures AccountsIn(AccountDeleted(items, email, phone)) == AccountsIn(items) - {email}
    ensures forall k :: k in items && k != USER_KEY && k != MessagesKey(phone) && k != ACCOUNTS_KEY ==>
      k in AccountDeleted(items, email, phone) && AccountDeleted(items, email, phone)[k] == items[k]
  {
    MessagesKeyIsDistinct(phone);
  }

  /** A deleted account no longer verifies, whatever the password. */
  lemma VerifyAfterDelete(items: Items, email: string, phone: string, password: string)
    ensures Verify(AccountDeleted(items, email, phone), email, password) == None
  {
    DeleteAccountEffect(items, email, phone);
  }

  /** `saveUser` then `getUser` gives back what was saved; saving null clears it. */
  lemma UserRoundTrip(items: Items, u: UserProfile)
    ensures UserIn(items[USER_KEY := UserJson(u)]) == Some(u)
    ensures UserIn(items - {USER_KEY}) == None
  {
  }

  /** `getRooms` falls back to its default exactly when no room list is stored, and reads back a saved one. */
  lemma RoomsFallback(items: Items, def: seq<ChatRoom>, rooms: seq<ChatRoom>)
    ensures ROOMS_KEY !in items ==> RoomsIn(items, def) == def
    ensures RoomsIn(items[ROOMS_KEY := Unparsable], def) == def
    ensures RoomsIn(items[ROOMS_KEY := NullJson], def) == def
    ensures RoomsIn(items[ROOMS_KEY := RoomsJson(rooms)], def) == rooms
  {
  }

  /** The browser's local storage for this origin. */
  class LocalStore {
    var items: Items

    constructor (initial: Items)
      ensures items == initial
    {
      items := initial;
    }

    /** `saveUser(u)`: a profile is written, null removes the key. */
    method SaveUser(u: Option<UserProfile>)
      modifies this
      ensures items == if u.Some? then old(items)[USER_KEY := UserJson(u.value)] else old(items) - {USER_KEY}
    {
      if u.Some? {
        items := items[USER_KEY := UserJson(u.value)];
      } else {
        items := items - {USER_KEY};
      }
    }

    /** `saveRooms(r)`. */
    method SaveRooms(rooms: seq<ChatRoom>)
      modifies this
      ensures items == old(items)[ROOMS_KEY := RoomsJson(rooms)]
    {
      items := items[ROOMS_KEY := RoomsJson(rooms)];
    }

    /** `registerAccount(u)`: refuses a registered email, otherwise stores `u` under its email. */
    method RegisterAccount(u: UserProfile) returns (ok: bool)
      modifies this
      ensures ok == (u.email !in AccountsIn(old(items)))
      ensures items == if ok then Registered(old(items), u) else old(items)
    {
      var acc := AccountsIn(items);
      if u.email in acc {
        return false;
      }
      acc := acc[u.email := u];
      items := items[ACCOUNTS_KEY := AccountsJson(acc)];
      return true;
    }

    /** `deleteAccount(email, phone)`. */
    method DeleteAccount(email: string, phone: string)
      modifies this
      ensures items == AccountDeleted(old(items), email, phone)
    {
      items := items - {USER_KEY};
      items := items - {MessagesKey(phone)};
      var acc := AccountsIn(items);
      acc := acc - {email};
      items := items[ACCOUNTS_KEY := AccountsJson(acc)];
    }
  }
}

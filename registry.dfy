/** The worker's durable object (worker/durableObject.ts): login identity
    derivation, the room directory and the per-room message history, kept in
    a key-value storage. Random ids and timestamps are parameters: `random` is
    the text of `Math.random().toString(36)` and `createdAt` the text of
    `new Date().toISOString()`. */
module Registry {
  import opened Types
  import Js
  import Base64

  /** What the storage holds under a key. */
  datatype Value =
    | UserRecord(user: User)
    | RoomList(rooms: seq<Room>)
    | MessageList(messages: seq<Message>)

  /** A message as posted: every field but `id` and `createdAt`. */
  datatype MessageDraft = MessageDraft(
    roomId: string,
    senderId: string,
    senderName: string,
    content: string,
    kind: MessageKind)

  const RoomsKey: string := "global_rooms"
  const HistoryLimit: nat := 100
  const AvatarBase: string := "https://api.dicebear.com/7.x/avataaars/svg?seed="

  /** The room every fresh directory starts with. */
  const DefaultRoom: Room :=
    Room("general", "General Lounge", Public, 0, Some("Welcome to Velocity!"))

  function UserKey(id: string): string { "user:" + id }
  function MessagesKey(roomId: string): string { "msgs:" + roomId }

  /** The three key families never meet, so a write to one family leaves the
      others as they were. */
  lemma KeysDisjoint(id: string, roomId: string)
    ensures UserKey(id) != RoomsKey
    ensures MessagesKey(roomId) != RoomsKey
    ensures UserKey(id) != MessagesKey(roomId)
  {
    assert UserKey(id)[0] == 'u';
    assert MessagesKey(roomId)[0] == 'm';
    assert RoomsKey[0] == 'g';
  }

  lemma MessagesKeyInjective(a: string, b: string)
    ensures MessagesKey(a) == MessagesKey(b) <==> a == b
  {
    if MessagesKey(a) == MessagesKey(b) {
      assert a == MessagesKey(a)[5..] && b == MessagesKey(b)[5..];
    }
  }

  /** The storage as this object leaves it: the directory is a room list,
      each user key holds the user with that id, and each history holds at
      most `HistoryLimit` messages. */
  ghost predicate Consistent(s: map<string, Value>) {
    && (RoomsKey in s ==> s[RoomsKey].RoomList?)
    && (forall id :: UserKey(id) in s ==> s[UserKey(id)].UserRecord? && s[UserKey(id)].user.id == id)
    && (forall roomId :: MessagesKey(roomId) in s ==>
          s[MessagesKey(roomId)].MessageList? && |s[MessagesKey(roomId)].messages| <= HistoryLimit)
  }

  // ---------------------------------------------------------------- identity

  /** `email.split('@')[0]`: the part of the email before its first `@`. */
  function NameOf(email: string): (name: string)
    ensures |name| <= |email| && name == email[..|name|]
    ensures '@' !in name
    ensures |name| < |email| ==> email[|name|] == '@'
  {
    if email == [] || email[0] == '@' then []
    else [email[0]] + NameOf(email[1..])
  }

  function Min(a: nat, b: nat): nat { if a <= b then a else b }

  /** The characters of the email that the id can see. */
  function FirstSix(email: string): string {
    email[..Min(|email|, 6)]
  }

  /** `u_` followed by the first eight characters of `btoa(email)`; `btoa`
      throws on a character above 255. */
  function UserId(email: string): (r: Result<string>)
    ensures r.Success? <==> Base64.IsByteString(email)
    ensures r.Success? ==> StartsWith(r.value, "u_") && |r.value| <= 10
    ensures r.Failure? ==> r.error == "InvalidCharacterError"
  {
    match Base64.Btoa(email)
    case Success(encoded) => Success("u_" + Js.Slice(encoded, 0, 8))
    case Failure(e) => Failure(e)
  }

  /** Eight symbols carry six bytes: the id is the prefix `u_` and the
      encoding of the first six characters of the email. */
  lemma {:induction false} UserIdFromFirstSix(email: string)
    requires Base64.IsByteString(email)
    ensures UserId(email) == Success("u_" + Base64.Encode(FirstSix(email)))
  {
    var encoded := Base64.Encode(email);
    if |email| >= 6 {
      Base64.EncodeFirstSix(email);
      assert Js.Slice(encoded, 0, 8) == encoded[..8];
    } else {
      assert FirstSix(email) == email;
      assert Js.Slice(encoded, 0, 8) == encoded;
    }
  }

  /** Two byte-string emails get the same id exactly when their first six
      characters agree. */
  lemma SameIdIffSameFirstSix(a: string, b: string)
    requires Base64.IsByteString(a) && Base64.IsByteString(b)
    ensures UserId(a) == UserId(b) <==> FirstSix(a) == FirstSix(b)
  {
    UserIdFromFirstSix(a);
    UserIdFromFirstSix(b);
    var ea, eb := Base64.Encode(FirstSix(a)), Base64.Encode(FirstSix(b));
    if UserId(a) == UserId(b) {
      assert ("u_" + ea)[2..] == ea && ("u_" + eb)[2..] == eb;
      Base64.DecodeEncode(FirstSix(a));
      Base64.DecodeEncode(FirstSix(b));
    }
  }

  /** The user record `handleAuth` builds and returns. */
  function AuthUser(email: string): (r: Result<User>)
    ensures r.Success? <==> Base64.IsByteString(email)
    ensures r.Success? ==> UserId(email) == Success(r.value.id)
    ensures r.Success? ==>
      && r.value.email == email
      && r.value.name == NameOf(email)
      && r.value.status == Online
      && r.value.avatar == Some(AvatarBase + r.value.id)
  {
    match UserId(email)
    case Success(id) => Success(User(id, NameOf(email), email, Some(AvatarBase + id), Online))
    case Failure(e) => Failure(e)
  }

  // ---------------------------------------------------------------- rooms

  /** What `getRooms` answers for a storage: the stored directory, or the
      default one when none is stored. */
  function Directory(s: map<string, Value>): (rooms: seq<Room>)
    requires Consistent(s)
    ensures RoomsKey !in s ==> rooms == [DefaultRoom]
    ensures RoomsKey in s ==> s[RoomsKey] == RoomList(rooms)
  {
    if RoomsKey in s then s[RoomsKey].rooms else [DefaultRoom]
  }

  /** What `getMessages` answers for a storage: the room's stored history,
      or none. */
  function History(s: map<string, Value>, roomId: string): (messages: seq<Message>)
    requires Consistent(s)
    ensures |messages| <= HistoryLimit
    ensures MessagesKey(roomId) in s ==> s[MessagesKey(roomId)] == MessageList(messages)
    ensures MessagesKey(roomId) !in s ==> messages == []
  {
    var key := MessagesKey(roomId);
    if key in s then s[key].messages else []
  }

  /** The room `createRoom` makes: id `r_` and up to seven random base-36
      digits, never unread, no preview yet. */
  function NewRoom(name: string, kind: RoomKind, random: string): (room: Room)
    ensures StartsWith(room.id, "r_") && |room.id| <= 9
    ensures room.name == name && room.kind == kind
    ensures room.unreadCount == 0 && room.lastMessage == None
  {
    Room("r_" + Js.Substring(random, 2, 9), name, kind, 0, None)
  }

  /** `rooms.map(r => r.id === roomId ? { ...r, lastMessage: content } : r)` */
  function WithPreview(rooms: seq<Room>, roomId: string, content: string): (r: seq<Room>)
    ensures |r| == |rooms|
    ensures forall i :: 0 <= i < |rooms| && rooms[i].id != roomId ==> r[i] == rooms[i]
    ensures forall i :: 0 <= i < |rooms| && rooms[i].id == roomId ==>
      r[i] == rooms[i].(lastMessage := Some(content))
  {
    if rooms == [] then []
    else
      var head := if rooms[0].id == roomId then rooms[0].(lastMessage := Some(content)) else rooms[0];
      [head] + WithPreview(rooms[1..], roomId, content)
  }

  /** Rewriting the preview keeps every room's id, name, kind and unread count
      in place, and rewriting it again with the same content changes nothing. */
  lemma PreviewKeepsDirectory(rooms: seq<Room>, roomId: string, content: string)
    ensures var r := WithPreview(rooms, roomId, content);
      && (forall i :: 0 <= i < |r| ==>
            r[i].id == rooms[i].id && r[i].name == rooms[i].name &&
            r[i].kind == rooms[i].kind && r[i].unreadCount == rooms[i].unreadCount)
      && WithPreview(r, roomId, content) == r
  {
  }

  /** A room id no room has leaves the directory as it is. */
  lemma PreviewOfUnknownRoom(rooms: seq<Room>, roomId: string, content: string)
    requires forall i :: 0 <= i < |rooms| ==> rooms[i].id != roomId
    ensures WithPreview(rooms, roomId, content) == rooms
  {
  }

  // ---------------------------------------------------------------- messages

  /** `[...messages, m].slice(-100)`: the newest `HistoryLimit` entries. */
  function AppendBounded(messages: seq<Message>, m: Message): (r: seq<Message>)
    ensures |r| == Min(|messages| + 1, HistoryLimit)
    ensures r[|r| - 1] == m
  {
    var all := messages + [m];
    var from := Js.RelativeIndex(-(HistoryLimit as int), |all|);
    assert from == |all| - Min(|all|, HistoryLimit);
    assert Js.SliceFrom(all, -(HistoryLimit as int)) == all[from..];
    Js.SliceFrom(all, -(HistoryLimit as int))
  }

  /** Below the limit nothing is dropped; at or above it, the oldest entries
      go so that exactly `HistoryLimit` remain. */
  lemma AppendBoundedCases(messages: seq<Message>, m: Message)
    ensures |messages| < HistoryLimit ==> AppendBounded(messages, m) == messages + [m]
    ensures |messages| >= HistoryLimit ==>
      AppendBounded(messages, m) == messages[|messages| - HistoryLimit + 1..] + [m]
  {
    var all := messages + [m];
    var from := Js.RelativeIndex(-(HistoryLimit as int), |all|);
    assert from == |all| - Min(|all|, HistoryLimit);
    assert AppendBounded(messages, m) == all[from..];
    if |messages| >= HistoryLimit {
      assert all[from..] == messages[|messages| - HistoryLimit + 1..] + [m];
    } else {
      assert all[0..] == all;
    }
  }

  predicate DistinctIds(messages: seq<Message>) {
    forall i, j :: 0 <= i < j < |messages| ==> messages[i].id != messages[j].id
  }

  /** A full history loses its oldest message: if ids are distinct (which the
      random ids do not guarantee), that id is no longer present. */
  lemma FullHistoryDropsOldest(messages: seq<Message>, m: Message)
    requires |messages| == HistoryLimit
    requires DistinctIds(messages + [m])
    ensures |AppendBounded(messages, m)| == HistoryLimit
    ensures forall k :: 0 <= k < HistoryLimit ==> AppendBounded(messages, m)[k].id != messages[0].id
  {
    AppendBoundedCases(messages, m);
    var all := messages + [m];
    var r := AppendBounded(messages, m);
    forall k | 0 <= k < HistoryLimit
      ensures r[k].id != messages[0].id
    {
      assert r[k] == all[k + 1];
      assert all[0] == messages[0];
    }
  }

  /** The message `postMessage` stores: id `m_` and up to nine random base-36
      digits, the given timestamp, the rest from the draft. */
  function NewMessage(draft: MessageDraft, random: string, createdAt: string): (m: Message)
    ensures StartsWith(m.id, "m_") && |m.id| <= 11
    ensures m.createdAt == createdAt
    ensures m.roomId == draft.roomId && m.senderId == draft.senderId
    ensures m.senderName == draft.senderName && m.content == draft.content && m.kind == draft.kind
  {
    Message("m_" + Js.Substring(random, 2, 11), draft.roomId, draft.senderId,
            draft.senderName, draft.content, createdAt, draft.kind)
  }

  // ---------------------------------------------------------------- the object

  class GlobalDurableObject {
    var storage: map<string, Value>

    ghost predicate Valid()
      reads this
    {
      Consistent(storage)
    }

    /** Attaches to the storage this object left behind. */
    constructor (persisted: map<string, Value>)
      requires Consistent(persisted)
      ensures Valid() && storage == persisted
    {
      storage := persisted;
    }

    /** `handleAuth`: derives the user and upserts it under `user:<id>`. */
    method HandleAuth(email: string) returns (r: Result<User>)
      requires Valid()
      modifies this
      ensures Valid()
      ensures r == AuthUser(email)
      ensures r.Success? ==> storage == old(storage)[UserKey(r.value.id) := UserRecord(r.value)]
      ensures r.Failure? ==> storage == old(storage)
    {
      r := AuthUser(email);
      if r.Success? {
        storage := storage[UserKey(r.value.id) := UserRecord(r.value)];
        forall id | UserKey(id) in storage
          ensures storage[UserKey(id)].UserRecord? && storage[UserKey(id)].user.id == id
        {
          if UserKey(id) == UserKey(r.value.id) {
            assert id == UserKey(id)[5..] && r.value.id == UserKey(r.value.id)[5..];
          }
        }
        forall roomId | MessagesKey(roomId) in storage
          ensures MessagesKey(roomId) in old(storage)
        {
          KeysDisjoint(r.value.id, roomId);
        }
        KeysDisjoint(r.value.id, "");
      }
    }

    /** `getRooms`: returns the directory, storing the default one first
        when none exists. */
    method GetRooms() returns (rooms: seq<Room>)
      requires Valid()
      modifies this
      ensures Valid()
      ensures rooms == Directory(old(storage))
      ensures RoomsKey in old(storage) ==> storage == old(storage)
      ensures RoomsKey !in old(storage) ==> storage == old(storage)[RoomsKey := RoomList([DefaultRoom])]
    {
      if RoomsKey in storage {
        rooms := storage[RoomsKey].rooms;
      } else {
        rooms := [DefaultRoom];
        storage := storage[RoomsKey := RoomList(rooms)];
        StoreDirectoryKeepsConsistent(old(storage), rooms);
      }
    }

    /** `createRoom`: appends a new room to the directory (initialised first
        if missing) and returns it. */
    method CreateRoom(name: string, kind: RoomKind, random: string) returns (room: Room)
      requires Valid()
      modifies this
      ensures Valid()
      ensures room == NewRoom(name, kind, random)
      ensures storage == old(storage)[RoomsKey := RoomList(Directory(old(storage)) + [room])]
    {
      var rooms := GetRooms();
      room := NewRoom(name, kind, random);
      var updated := rooms + [room];
      storage := storage[RoomsKey := RoomList(updated)];
      StoreDirectoryKeepsConsistent(old(storage), updated);
    }

    /** `getMessages`: the stored history of a room, empty when none. The read
        itself is `History`, stated on a storage map so that the specification
        of `postMessage` can apply it to the storage before the call; this is
        the object's operation over its own storage. */
    function GetMessages(roomId: string): (messages: seq<Message>)
      reads this
      requires Valid()
      ensures messages == History(storage, roomId)
    {
      History(storage, roomId)
    }

    /** `postMessage`: appends to the bounded history under `msgs:<roomId>`,
        then rewrites the preview of the room with that id. */
    method PostMessage(roomId: string, draft: MessageDraft, random: string, createdAt: string)
      returns (m: Message)
      requires Valid()
      modifies this
      ensures Valid()
      ensures m == NewMessage(draft, random, createdAt)
      ensures storage == Posted(old(storage), roomId, m)
    {
      m := NewMessage(draft, random, createdAt);
      var updated := AppendBounded(GetMessages(roomId), m);
      HistoryWriteKeepsDirectory(storage, roomId, updated);
      storage := storage[MessagesKey(roomId) := MessageList(updated)];
      ghost var mid := storage;
      var rooms := GetRooms();
      var previewed := WithPreview(rooms, roomId, m.content);
      assert Posted(old(storage), roomId, m) == mid[RoomsKey := RoomList(previewed)];
      OverwriteTwice(mid, RoomsKey, RoomList([DefaultRoom]), RoomList(previewed));
      storage := storage[RoomsKey := RoomList(previewed)];
    }
  }

  /** The storage `postMessage` leaves: the bounded history with `m`
      appended, then the directory with the room's preview rewritten. */
  function Posted(s: map<string, Value>, roomId: string, m: Message): (t: map<string, Value>)
    requires Consistent(s)
    ensures Consistent(t)
  {
    var updated := AppendBounded(History(s, roomId), m);
    var previewed := WithPreview(Directory(s), roomId, m.content);
    HistoryWriteKeepsDirectory(s, roomId, updated);
    StoreDirectoryKeepsConsistent(s[MessagesKey(roomId) := MessageList(updated)], previewed);
    s[MessagesKey(roomId) := MessageList(updated)][RoomsKey := RoomList(previewed)]
  }

  /** After a post the room's history is the bounded append, the directory
      carries the new preview, and every other key (users, other rooms'
      histories) is as it was. */
  lemma PostedContents(s: map<string, Value>, roomId: string, m: Message)
    requires Consistent(s)
    ensures var t := Posted(s, roomId, m);
      && t.Keys == s.Keys + {MessagesKey(roomId), RoomsKey}
      && t[MessagesKey(roomId)] == MessageList(AppendBounded(History(s, roomId), m))
      && t[RoomsKey] == RoomList(WithPreview(Directory(s), roomId, m.content))
      && (forall k :: k in s && k != MessagesKey(roomId) && k != RoomsKey ==> t[k] == s[k])
  {
    KeysDisjoint("", roomId);
    WriteTwo(s, MessagesKey(roomId), MessageList(AppendBounded(History(s, roomId), m)),
             RoomsKey, RoomList(WithPreview(Directory(s), roomId, m.content)));
  }

  /** Two writes to different keys: both land, and nothing else moves. */
  lemma WriteTwo(s: map<string, Value>, k1: string, v1: Value, k2: string, v2: Value)
    requires k1 != k2
    ensures var t := s[k1 := v1][k2 := v2];
      && t.Keys == s.Keys + {k1, k2}
      && t[k1] == v1 && t[k2] == v2
      && (forall k :: k in s && k != k1 && k != k2 ==> t[k] == s[k])
  {
  }

  /** Reading back after a post: the room's history ends with the new
      message, another room's history and the other rooms' previews are
      unchanged. */
  lemma PostThenRead(s: map<string, Value>, roomId: string, other: string, m: Message)
    requires Consistent(s)
    ensures var t := Posted(s, roomId, m);
      && History(t, roomId) == AppendBounded(History(s, roomId), m)
      && History(t, roomId)[|History(t, roomId)| - 1] == m
      && (other != roomId ==> History(t, other) == History(s, other))
      && Directory(t) == WithPreview(Directory(s), roomId, m.content)
  {
    PostedContents(s, roomId, m);
    MessagesKeyInjective(roomId, other);
    KeysDisjoint("", other);
  }

  /** A second write to a key hides the first. */
  lemma OverwriteTwice(s: map<string, Value>, key: string, first: Value, second: Value)
    ensures s[key := first][key := second] == s[key := second]
  {
  }

  lemma HistoryWriteKeepsDirectory(s: map<string, Value>, roomId: string, messages: seq<Message>)
    requires Consistent(s) && |messages| <= HistoryLimit
    ensures Consistent(s[MessagesKey(roomId) := MessageList(messages)])
    ensures Directory(s[MessagesKey(roomId) := MessageList(messages)]) == Directory(s)
  {
    StoreHistoryKeepsConsistent(s, roomId, messages);
    KeysDisjoint("", roomId);
  }

  lemma StoreDirectoryKeepsConsistent(s: map<string, Value>, rooms: seq<Room>)
    requires Consistent(s)
    ensures Consistent(s[RoomsKey := RoomList(rooms)])
  {
    forall id | UserKey(id) in s[RoomsKey := RoomList(rooms)]
      ensures UserKey(id) in s
    {
      KeysDisjoint(id, "");
    }
    forall roomId | MessagesKey(roomId) in s[RoomsKey := RoomList(rooms)]
      ensures MessagesKey(roomId) in s
    {
      KeysDisjoint("", roomId);
    }
  }

  lemma StoreHistoryKeepsConsistent(s: map<string, Value>, roomId: string, messages: seq<Message>)
    requires Consistent(s) && |messages| <= HistoryLimit
    ensures Consistent(s[MessagesKey(roomId) := MessageList(messages)])
  {
    var t := s[MessagesKey(roomId) := MessageList(messages)];
    KeysDisjoint("", roomId);
    forall id | UserKey(id) in t
      ensures UserKey(id) in s
    {
      KeysDisjoint(id, roomId);
    }
    forall other | MessagesKey(other) in t
      ensures t[MessagesKey(other)].MessageList? && |t[MessagesKey(other)].messages| <= HistoryLimit
    {
      MessagesKeyInjective(other, roomId);
    }
  }

  /** Logging in twice with the same email returns the same user and leaves
      the storage as the first login left it. */
  method RepeatedLogin(registry: GlobalDurableObject, email: string)
    returns (first: Result<User>, second: Result<User>)
    requires registry.Valid()
    modifies registry
    ensures registry.Valid()
    ensures first == second
    ensures first.Success? ==>
      registry.storage == old(registry.storage)[UserKey(first.value.id) := UserRecord(first.value)]
    ensures first.Failure? ==> registry.storage == old(registry.storage)
  {
    first := registry.HandleAuth(email);
    second := registry.HandleAuth(email);
  }

  /** Reading the directory twice gives the same rooms; only the first read
      may write, and only when no directory was stored. */
  method RepeatedGetRooms(registry: GlobalDurableObject)
    returns (first: seq<Room>, second: seq<Room>)
    requires registry.Valid()
    modifies registry
    ensures registry.Valid()
    ensures first == second == Directory(old(registry.storage))
    ensures RoomsKey in registry.storage && registry.storage[RoomsKey] == RoomList(first)
    ensures registry.storage == old(registry.storage)[RoomsKey := RoomList(first)]
  {
    first := registry.GetRooms();
    second := registry.GetRooms();
  }

  /** A room just created is the last entry of the next directory read, after
      every room that was there before. */
  method CreateThenList(registry: GlobalDurableObject, name: string, kind: RoomKind, random: string)
    returns (room: Room, rooms: seq<Room>)
    requires registry.Valid()
    modifies registry
    ensures registry.Valid()
    ensures room == NewRoom(name, kind, random)
    ensures rooms == Directory(old(registry.storage)) + [room]
  {
    room := registry.CreateRoom(name, kind, random);
    rooms := registry.GetRooms();
  }
}

/** The browser's chat state (src/lib/store.ts): one mutable record changed by
    named actions. Each network call is a `Reply` parameter that `Api.Request`
    turns into data or a thrown error; `Date.now()` and `new Date()` are
    parameters too. */
module Client {
  import opened Types
  import Api
  import Js
  import Registry

  /** How an action that returns nothing settles: it resolves, or it throws. */
  datatype Outcome = Resolved | Rejected(error: string)

  /** What `sendMessage` holds across its network call: the room, the list
      before the optimistic append, and the optimistic message. */
  datatype PendingSend = PendingSend(roomId: string, snapshot: seq<Message>, optimistic: Message)

  const TempPrefix: string := "temp-"

  /** `messages[roomId] || []` */
  function RoomMessages(messages: map<string, seq<Message>>, roomId: string): (list: seq<Message>)
    ensures roomId !in messages ==> list == []
    ensures roomId in messages ==> list == messages[roomId]
  {
    if roomId in messages then messages[roomId] else []
  }

  /** The provisional message: id `temp-<Date.now()>`, sent by the current
      user, plain text. */
  function OptimisticMessage(user: User, roomId: string, content: string, now: nat, createdAt: string)
    : (m: Message)
    ensures StartsWith(m.id, TempPrefix) && |m.id| > |TempPrefix|
    ensures m.roomId == roomId && m.content == content && m.kind == Text
    ensures m.senderId == user.id && m.senderName == user.name
    ensures m.createdAt == createdAt
  {
    Message(TempPrefix + Js.Decimal(now), roomId, user.id, user.name, content, createdAt, Text)
  }

  /** A provisional id never collides with an id the worker assigns. */
  lemma TempIdIsNotServerId(user: User, roomId: string, content: string, now: nat, createdAt: string,
                            draft: Registry.MessageDraft, random: string, stamped: string)
    ensures OptimisticMessage(user, roomId, content, now, createdAt).id
         != Registry.NewMessage(draft, random, stamped).id
  {
    var temp := OptimisticMessage(user, roomId, content, now, createdAt).id;
    var server := Registry.NewMessage(draft, random, stamped).id;
    assert temp[0] == 't' && server[0] == 'm';
  }

  /** Undoing the optimistic append with the snapshot gives back the map the
      send started from, except that a room that had no entry now has `[]`. */
  lemma RollbackRestoresSnapshot(messages: map<string, seq<Message>>, roomId: string, m: Message)
    ensures var snapshot := RoomMessages(messages, roomId);
      messages[roomId := snapshot + [m]][roomId := snapshot]
        == if roomId in messages then messages else messages[roomId := []]
  {
    var snapshot := RoomMessages(messages, roomId);
    var restored := messages[roomId := snapshot + [m]][roomId := snapshot];
    if roomId in messages {
      assert restored.Keys == messages.Keys;
      assert forall k :: k in messages ==> restored[k] == messages[k];
    }
  }

  class ChatStore {
    var currentUser: Option<User>
    var activeRoomId: Option<string>
    var rooms: seq<Room>
    var messages: map<string, seq<Message>>
    var isSidebarOpen: bool
    var isLoading: bool
    var error: Option<string>

    /** The initial state; `savedUser` is what local storage held. */
    constructor (savedUser: Option<User>)
      ensures currentUser == savedUser && activeRoomId == None
      ensures rooms == [] && messages == map[]
      ensures isSidebarOpen && !isLoading && error == None
    {
      currentUser := savedUser;
      activeRoomId := None;
      rooms := [];
      messages := map[];
      isSidebarOpen := true;
      isLoading := false;
      error := None;
    }

    /** `login`: clears the error and shows loading, then takes the user on
        success, or records the error and rethrows it. */
    method Login(reply: Api.Reply<User>) returns (outcome: Outcome)
      modifies this
      ensures !isLoading
      ensures Api.Request(reply).Success? ==>
        outcome == Resolved && currentUser == Some(Api.Request(reply).value) && error == None
      ensures Api.Request(reply).Failure? ==>
        outcome == Rejected(Api.Request(reply).error) && currentUser == old(currentUser)
        && error == Some(Api.Request(reply).error)
      ensures activeRoomId == old(activeRoomId) && rooms == old(rooms) && messages == old(messages)
      ensures isSidebarOpen == old(isSidebarOpen)
    {
      isLoading := true;
      error := None;
      var result := Api.Request(reply);
      if result.Success? {
        currentUser := Some(result.value);
        isLoading := false;
        outcome := Resolved;
      } else {
        error := Some(result.error);
        isLoading := false;
        outcome := Rejected(result.error);
      }
    }

    /** `logout`: forgets the user and the active room only. */
    method Logout()
      modifies this
      ensures currentUser == None && activeRoomId == None
      ensures rooms == old(rooms) && messages == old(messages)
      ensures isSidebarOpen == old(isSidebarOpen) && isLoading == old(isLoading) && error == old(error)
    {
      currentUser := None;
      activeRoomId := None;
    }

    method SetActiveRoom(roomId: string)
      modifies this`activeRoomId
      ensures activeRoomId == Some(roomId)
    {
      activeRoomId := Some(roomId);
    }

    method SetSidebarOpen(open: bool)
      modifies this`isSidebarOpen
      ensures isSidebarOpen == open
    {
      isSidebarOpen := open;
    }

    /** `syncRooms`: replaces the room list; a failure is logged and
        swallowed. */
    method SyncRooms(reply: Api.Reply<seq<Room>>)
      modifies this`rooms
      ensures rooms == Api.Request(reply).GetOr(old(rooms))
    {
      var result := Api.Request(reply);
      if result.Success? {
        rooms := result.value;
      }
    }

    /** `syncMessages`: replaces the one room's list; a failure is logged and
        swallowed. */
    method SyncMessages(roomId: string, reply: Api.Reply<seq<Message>>)
      modifies this`messages
      ensures Api.Request(reply).Success? ==> messages == old(messages)[roomId := Api.Request(reply).value]
      ensures Api.Request(reply).Failure? ==> messages == old(messages)
    {
      var result := Api.Request(reply);
      if result.Success? {
        messages := messages[roomId := result.value];
      }
    }

    /** The part of `sendMessage` before the network call: with no user it
        does nothing; otherwise it appends the provisional message to the
        room's list and keeps the list it had before. */
    method BeginSend(roomId: string, content: string, now: nat, createdAt: string)
      returns (pending: Option<PendingSend>)
      modifies this`messages
      ensures old(currentUser).None? ==> pending == None && messages == old(messages)
      ensures old(currentUser).Some? ==>
        && pending == Some(PendingSend(roomId, RoomMessages(old(messages), roomId),
                                       OptimisticMessage(currentUser.value, roomId, content, now, createdAt)))
        && messages == old(messages)[roomId := pending.value.snapshot + [pending.value.optimistic]]
    {
      if currentUser.None? {
        return None;
      }
      var user := currentUser.value;
      var optimistic := OptimisticMessage(user, roomId, content, now, createdAt);
      var snapshot := RoomMessages(messages, roomId);
      messages := messages[roomId := snapshot + [optimistic]];
      pending := Some(PendingSend(roomId, snapshot, optimistic));
    }

    /** The part after the network call: success leaves the provisional
        message for a later sync to replace; failure puts the snapshot back
        over whatever the room's list is by then, and rethrows. */
    method SettleSend(pending: PendingSend, reply: Api.Reply<Message>) returns (outcome: Outcome)
      modifies this`messages
      ensures Api.Request(reply).Success? ==> outcome == Resolved && messages == old(messages)
      ensures Api.Request(reply).Failure? ==>
        && outcome == Rejected(Api.Request(reply).error)
        && messages == old(messages)[pending.roomId := pending.snapshot]
    {
      var result := Api.Request(reply);
      if result.Success? {
        outcome := Resolved;
      } else {
        messages := messages[pending.roomId := pending.snapshot];
        outcome := Rejected(result.error);
      }
    }

    /** `sendMessage` with nothing else running during its network call. */
    method SendMessage(roomId: string, content: string, now: nat, createdAt: string,
                       reply: Api.Reply<Message>)
      returns (outcome: Outcome)
      modifies this`messages
      ensures old(currentUser).None? ==> outcome == Resolved && messages == old(messages)
      ensures old(currentUser).Some? && Api.Request(reply).Success? ==>
        && outcome == Resolved
        && messages == old(messages)[roomId := RoomMessages(old(messages), roomId)
             + [OptimisticMessage(currentUser.value, roomId, content, now, createdAt)]]
      ensures old(currentUser).Some? && Api.Request(reply).Failure? ==>
        && outcome == Rejected(Api.Request(reply).error)
        && messages == if roomId in old(messages) then old(messages) else old(messages)[roomId := []]
    {
      var pending := BeginSend(roomId, content, now, createdAt);
      if pending.None? {
        return Resolved;
      }
      outcome := SettleSend(pending.value, reply);
      if outcome.Rejected? {
        RollbackRestoresSnapshot(old(messages), roomId, pending.value.optimistic);
      }
    }

    /** `createRoom`: asks the worker for the room, then refreshes the room
        list; a failed create throws before anything changes. */
    method CreateRoom(created: Api.Reply<Room>, listed: Api.Reply<seq<Room>>) returns (r: Result<Room>)
      modifies this`rooms
      ensures r == Api.Request(created)
      ensures r.Failure? ==> rooms == old(rooms)
      ensures r.Success? ==> rooms == Api.Request(listed).GetOr(old(rooms))
    {
      r := Api.Request(created);
      if r.Success? {
        SyncRooms(listed);
      }
    }
  }
}

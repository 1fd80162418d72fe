/** The records shared by the worker and the browser client (shared/types.ts),
    and the Option/Result wrappers the model uses for optional fields and for
    operations that can throw. */
module Types {

  datatype Option<+T> = None | Some(value: T) {
    function GetOr(default: T): T {
      match this
      case Some(v) => v
      case None => default
    }
  }

  /** A thrown JavaScript error is modelled as `Failure(message)`. */
  datatype Result<+T> = Success(value: T) | Failure(error: string) {
    function GetOr(default: T): T {
      match this
      case Success(v) => v
      case Failure(_) => default
    }
  }

  datatype UserStatus = Online | Offline | Away

  datatype User = User(
    id: string,
    name: string,
    email: string,
    avatar: Option<string>,
    status: UserStatus)

  datatype MessageKind = Text | Image | System

  datatype Message = Message(
    id: string,
    roomId: string,
    senderId: string,
    senderName: string,
    content: string,
    createdAt: string,
    kind: MessageKind)

  datatype RoomKind = Public | Private

  datatype Room = Room(
    id: string,
    name: string,
    kind: RoomKind,
    unreadCount: int,
    lastMessage: Option<string>)

  /** The response envelope: `data` absent is `None` (JavaScript `undefined`),
      `error` absent is `None`. */
  datatype ApiResponse<T> = ApiResponse(success: bool, data: Option<T>, error: Option<string>)

  predicate StartsWith(s: string, prefix: string) {
    |prefix| <= |s| && s[..|prefix|] == prefix
  }
}

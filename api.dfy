/** The browser's API client (src/lib/api.ts): the options and headers that
    `request` hands to `fetch`, the envelope check on the decoded response,
    and the endpoints the client calls. `fetch` and `response.json()` are not
    modelled; what they produce is a `Reply`. */
module Api {
  import opened Types

  /** What a `fetch` round trip yields: a decoded envelope, or an error thrown
      on the way (network failure, a body that is not JSON). */
  datatype Reply<T> = Envelope(response: ApiResponse<T>) | Thrown(message: string)

  /** The fields of `RequestInit` the client sets (`verb` is its `method`);
      absent is `None`. */
  datatype RequestInit = RequestInit(
    verb: Option<string>,
    body: Option<string>,
    headers: Option<map<string, string>>)

  /** One call of `request`: the path and the options. */
  datatype Call = Call(path: string, options: Option<RequestInit>)

  const ContentType: string := "Content-Type"
  const Json: string := "application/json"
  const RequestFailed: string := "Request failed"

  // ---------------------------------------------------------------- headers

  /** `{ 'Content-Type': 'application/json', ...options?.headers }` */
  function MergeHeaders(headers: Option<map<string, string>>): (h: map<string, string>)
    ensures ContentType in h
    ensures headers.Some? && ContentType in headers.value ==> h[ContentType] == headers.value[ContentType]
    ensures (headers.None? || ContentType !in headers.value) ==> h[ContentType] == Json
    ensures headers.Some? ==> forall k :: k in headers.value ==> k in h && h[k] == headers.value[k]
    ensures forall k :: k in h && k != ContentType ==> headers.Some? && k in headers.value
  {
    map[ContentType := Json] + headers.GetOr(map[])
  }

  /** `{ ...options, headers: MergeHeaders(options?.headers) }`: the options
      `fetch` receives. */
  function FetchOptions(options: Option<RequestInit>): (init: RequestInit)
    ensures options.Some? ==> init.verb == options.value.verb && init.body == options.value.body
    ensures options.None? ==> init.verb == None && init.body == None
    ensures init.headers.Some? && ContentType in init.headers.value
    ensures init.headers == Some(MergeHeaders(if options.Some? then options.value.headers else None))
  {
    match options
    case None => RequestInit(None, None, Some(MergeHeaders(None)))
    case Some(o) => o.(headers := Some(MergeHeaders(o.headers)))
  }

  /** A caller that sets no `Content-Type` sends JSON; one that does wins. */
  lemma ContentTypeDefaultAndOverride(options: Option<RequestInit>)
    ensures var h := FetchOptions(options).headers.value;
      && (options.Some? && options.value.headers.Some? && ContentType in options.value.headers.value ==>
            h[ContentType] == options.value.headers.value[ContentType])
      && (options.None? || options.value.headers.None? || ContentType !in options.value.headers.value ==>
            h[ContentType] == Json)
  {
  }

  // ---------------------------------------------------------------- envelope

  /** `result.error || 'Request failed'`: an absent or empty error text falls
      back to the generic one. */
  function ErrorMessage(error: Option<string>): (message: string)
    ensures message != ""
    ensures error.Some? && error.value != "" ==> message == error.value
    ensures error.None? || error.value == "" ==> message == RequestFailed
  {
    if error.Some? && error.value != "" then error.value else RequestFailed
  }

  /** The check in `request`: the data comes back only when `success` holds
      and `data` is present; otherwise `request` throws. */
  function Unwrap<T>(response: ApiResponse<T>): (r: Result<T>)
    ensures r.Success? <==> response.success && response.data.Some?
    ensures r.Success? ==> r.value == response.data.value
    ensures r.Failure? ==> r.error == ErrorMessage(response.error)
  {
    if !response.success || response.data.None? then Failure(ErrorMessage(response.error))
    else Success(response.data.value)
  }

  /** `request` as a whole: a thrown error passes through unchanged. */
  function Request<T>(reply: Reply<T>): (r: Result<T>)
    ensures reply.Envelope? ==> r == Unwrap(reply.response)
    ensures r.Success? ==> reply.Envelope? && Unwrap(reply.response) == r
    ensures reply.Thrown? ==> r == Failure(reply.message)
    ensures r.Failure? ==> r.error != "" || reply.Thrown?
  {
    match reply
    case Envelope(response) => Unwrap(response)
    case Thrown(message) => Failure(message)
  }

  /** The envelope the worker's routes send, `{ success: true, data }`,
      unwraps to its data; a failure envelope never yields data, whatever
      `data` holds. */
  lemma EnvelopeRoundTrip<T>(x: T, data: Option<T>, error: Option<string>)
    ensures Unwrap(ApiResponse(true, Some(x), error)) == Success(x)
    ensures Unwrap(ApiResponse(false, data, error)) == Failure(ErrorMessage(error))
    ensures Unwrap<T>(ApiResponse(true, None, error)) == Failure(ErrorMessage(error))
  {
  }

  // ---------------------------------------------------------------- endpoints

  const LoginPath: string := "/api/auth/login"
  const RoomsPath: string := "/api/rooms"

  /** `/api/rooms/${roomId}/messages` */
  function MessagesPath(roomId: string): (path: string)
    ensures StartsWith(path, "/api/rooms/")
    ensures |path| == |roomId| + 20
    ensures path[11..11 + |roomId|] == roomId && path[11 + |roomId|..] == "/messages"
  {
    "/api/rooms/" + roomId + "/messages"
  }

  /** The room id can be read back from a messages path. */
  lemma MessagesPathInjective(a: string, b: string)
    ensures MessagesPath(a) == MessagesPath(b) <==> a == b
  {
    if MessagesPath(a) == MessagesPath(b) {
      assert a == MessagesPath(a)[11..11 + |a|];
      assert b == MessagesPath(b)[11..11 + |b|];
    }
  }

  /** The HTTP method `fetch` uses: GET unless the options say otherwise. */
  function HttpMethod(call: Call): string {
    if call.options.Some? && call.options.value.verb.Some? then call.options.value.verb.value
    else "GET"
  }

  function Post(body: string): Option<RequestInit> {
    Some(RequestInit(Some("POST"), Some(body), None))
  }

  /** `api.auth.login`, with `body` the JSON text of `{ email }`. */
  function Login(body: string): Call { Call(LoginPath, Post(body)) }

  /** `api.rooms.list` */
  function ListRooms(): Call { Call(RoomsPath, None) }

  /** `api.rooms.create`, with `body` the JSON text of `{ name, type }`. */
  function CreateRoom(body: string): Call { Call(RoomsPath, Post(body)) }

  /** `api.messages.list` */
  function ListMessages(roomId: string): Call { Call(MessagesPath(roomId), None) }

  /** `api.messages.send`, with `body` the JSON text of the message fields. */
  function SendMessage(roomId: string, body: string): Call { Call(MessagesPath(roomId), Post(body)) }

  /** Listing and sending a room's messages use the same path and differ only
      in the method; so do listing and creating rooms. */
  lemma SharedPaths(roomId: string, body: string)
    ensures ListMessages(roomId).path == SendMessage(roomId, body).path == MessagesPath(roomId)
    ensures HttpMethod(ListMessages(roomId)) == "GET" && HttpMethod(SendMessage(roomId, body)) == "POST"
    ensures ListRooms().path == CreateRoom(body).path == RoomsPath
    ensures HttpMethod(ListRooms()) == "GET" && HttpMethod(CreateRoom(body)) == "POST"
    ensures HttpMethod(Login(body)) == "POST"
  {
  }
}

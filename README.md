# Chat app core, modelled in Dafny

This project models the logic at the centre of a small chat application. It
covers three pieces:

- **The worker's durable object** (`Registry`, worker/durableObject.ts). It
  derives a user's identity from an email, keeps the room directory, and
  keeps a bounded history of 100 messages per room. All of it lives in a
  key-value storage. The model is a class over a `map<string, Value>`.
  `user:<id>` holds a user, `global_rooms` holds the directory and
  `msgs:<roomId>` holds a history. The id is `u_` plus the first eight
  symbols of `btoa(email)`. `btoa` is the base 64 encoding of section 4 of
  RFC 4648 (`Base64`).
- **The browser's chat state** (`Client`, src/lib/store.ts). This is one
  mutable record changed by named actions. The important one is the
  optimistic send. It appends a provisional `temp-` message, and on failure
  it puts back the exact list it had before and rethrows.
- **The API client** (`Api`, src/lib/api.ts). It covers the envelope check
  in `request`, the header merge, and the endpoint paths.

Shared records come from shared/types.ts (`Types`). The JavaScript built-ins
that the code relies on are written out in `Js`: `slice` with negative
positions, `substring` with clamped and swapped bounds, and decimal printing
of `Date.now()`.

Some inputs are parameters in the model:

- Each random id is a parameter `random`, the text of
  `Math.random().toString(36)`.
- Each timestamp is a parameter: `now` for `Date.now()` and `createdAt` for
  `new Date().toISOString()`.
- Each network call on the client is a parameter `Api.Reply<T>`. It is
  either a decoded envelope or an error thrown by `fetch` or
  `response.json()`. `Api.Request` turns it into data or a thrown error, as
  `request` does.

Behaviour of the code that a reader may not expect:

- `createRoom` does not check that the name is non-empty.
- Login also succeeds for an empty email. The id is then `u_` and the name
  is empty.
- The default room is `General Lounge` and has the preview
  `Welcome to Velocity!`.
- `getRooms` creates the default directory only when the key is absent. A
  stored empty list is returned as it is, because `[]` is truthy in
  JavaScript.
- `createRoom` and `postMessage` read the directory through `getRooms`, so
  either one can create the default directory first.
- Two emails whose first six characters agree get the same id
  (`Registry.SameIdIffSameFirstSix`). The second login then overwrites the
  first user's record.

## Model

| member | source | states |
|---|---|---|
| `Registry.NameOf` | worker/durableObject.ts:9 | The display name is a prefix of the email and contains no `@`. It ends at the first `@`, or is the whole email when there is none. |
| `Registry.UserId` | worker/durableObject.ts:6 | The id exists exactly when every character is below 256 (otherwise `btoa` throws `InvalidCharacterError`). It starts with `u_` and has at most 10 characters. |
| `Registry.UserIdFromFirstSix` | worker/durableObject.ts:6 | The id is `u_` plus the base 64 encoding of the first six characters of the email, so nothing after the sixth character matters. |
| `Registry.SameIdIffSameFirstSix` | worker/durableObject.ts:6 | Two byte-string emails get the same id exactly when their first six characters agree, in both directions. The proof decodes the encoding. |
| `Base64.Btoa` | worker/durableObject.ts:6 | `btoa` succeeds exactly on byte strings. The output length is 4 × ⌈n/3⌉. |
| `Base64.Encode` | worker/durableObject.ts:6 | Each group of up to three bytes becomes four symbols, padded with `=` (section 4 of RFC 4648). The output length is 4 × ⌈n/3⌉. |
| `Base64.DecodeEncode` | worker/durableObject.ts:6 | Decoding inverts encoding on every byte string, so `btoa` loses nothing. |
| `Base64.EncodeFirstSix` | worker/durableObject.ts:6 | The first eight symbols of the encoding are the encoding of the first six bytes. |
| `Base64.RfcShortVectors` | worker/durableObject.ts:6 | The encoder gives the outputs of the one-group test vectors in section 10 of RFC 4648 (`f`, `fo`, `foo`). |
| `Base64.RfcLongVectors` | worker/durableObject.ts:6 | The encoder gives the outputs of the two-group test vectors in section 10 of RFC 4648 (`foob`, `fooba`, `foobar`). |
| `Base64.AlphabetRanges` | worker/durableObject.ts:6 | The symbols run `A`-`Z`, `a`-`z`, `0`-`9`, `+`, `/`, as in the alphabet of RFC 4648. |
| `Base64.SymbolValue` | worker/durableObject.ts:6 | Each of the 64 symbols maps back to its own value. |
| `Base64.DecodeGroup` | worker/durableObject.ts:6 | One group of one to three bytes decodes back to itself, with or without padding. |
| `Registry.AuthUser` | worker/durableObject.ts:7-13 | The returned user has the derived id, the input email, the name before the first `@`, status online, and the avatar URL seeded with the id. |
| `Registry.GlobalDurableObject.HandleAuth` | worker/durableObject.ts:5-16 | Login writes exactly one key, `user:<id>`, and returns the same user. A failed `btoa` writes nothing. The storage invariant is kept. |
| `Registry.RepeatedLogin` | worker/durableObject.ts:5-16 | Two logins with the same email return the same user. The storage ends as after the first login, so no second identity is created. |
| `Registry.Directory` | worker/durableObject.ts:18-28 | The directory is the stored room list, or the single default `general` room when none is stored. |
| `Registry.GlobalDurableObject.GetRooms` | worker/durableObject.ts:18-28 | The read returns `Directory` of the old storage. It writes only when no directory exists, and then it writes exactly the default one. |
| `Registry.RepeatedGetRooms` | worker/durableObject.ts:18-28 | Two reads return the same rooms. Afterwards the directory is stored, and nothing else has changed. |
| `Registry.NewRoom` | worker/durableObject.ts:31-36 | A new room has an id `r_` plus at most seven characters, the given name and type, 0 unread, and no preview. |
| `Registry.GlobalDurableObject.CreateRoom` | worker/durableObject.ts:29-40 | The stored directory becomes the old directory followed by the new room. Only that key changes. |
| `Registry.CreateThenList` | worker/durableObject.ts:29-40 | After a create, the next read lists every earlier room in order, followed by the new room. |
| `Registry.History` | worker/durableObject.ts:42-45 | The read returns the stored history of the room, or `[]` when none is stored. It never returns more than 100 messages. |
| `Registry.GlobalDurableObject.GetMessages` | worker/durableObject.ts:42-45 | The object's read of its own storage is `History` of that storage: the room's stored history, or `[]`, never more than 100 messages. |
| `Registry.NewMessage` | worker/durableObject.ts:49-53 | A posted message has an id `m_` plus at most nine characters and the given timestamp. Its other fields come from the draft. |
| `Registry.AppendBounded` | worker/durableObject.ts:54 | The result has length min(n+1, 100) and ends with the new message. |
| `Registry.AppendBoundedCases` | worker/durableObject.ts:54 | Below 100 entries, the old list is kept whole and the new message is appended. At 100 or more, the oldest entries are dropped so that exactly 100 remain. |
| `Registry.FullHistoryDropsOldest` | worker/durableObject.ts:54 | On a full history whose ids are distinct, the oldest message's id is gone after the append. |
| `Registry.WithPreview` | worker/durableObject.ts:58-60 | The count and order of rooms are kept. A room whose id differs is unchanged. A room whose id matches differs only in its preview, which becomes the content. |
| `Registry.PreviewKeepsDirectory` | worker/durableObject.ts:58-60 | Every room keeps its id, name, type and unread count. Rewriting the preview again with the same content changes nothing. |
| `Registry.PreviewOfUnknownRoom` | worker/durableObject.ts:58-60 | A room id that no room has leaves the directory unchanged. |
| `Registry.GlobalDurableObject.PostMessage` | worker/durableObject.ts:46-63 | The message returned is the one built from the draft, and the storage becomes `Posted` of the old storage. The storage invariant is kept. |
| `Registry.Posted` | worker/durableObject.ts:54-61 | The two writes of a post keep the storage invariant: every history stays at 100 or fewer and the directory stays a room list. |
| `Registry.PostedContents` | worker/durableObject.ts:54-61 | `msgs:<roomId>` becomes the bounded append and `global_rooms` the directory with that room's preview rewritten. Both keys exist afterwards, and every other key keeps its value. |
| `Registry.PostThenRead` | worker/durableObject.ts:42-63 | Reading back after a post gives the bounded append ending with the new message. Another room's history is unchanged, and the directory read is the old one with the preview rewritten. |
| `Registry.KeysDisjoint` | worker/durableObject.ts:43 | `msgs:<roomId>`, `user:<id>` and `global_rooms` never coincide, so each write leaves the other families alone. |
| `Registry.GlobalDurableObject.constructor` | worker/durableObject.ts:3 | The object attaches to a storage that satisfies the invariant and keeps it as it is. |
| `Api.MergeHeaders` | src/lib/api.ts:5-8 | `Content-Type` is always present. It is `application/json` unless the caller sets it, in which case the caller's value wins. Every caller header is kept, and no other header is added. |
| `Api.FetchOptions` | src/lib/api.ts:3-9 | The caller's method and body pass through unchanged. The headers `fetch` receives are `MergeHeaders` of the caller's headers, so every caller header arrives and a `Content-Type` is always present. |
| `Api.ContentTypeDefaultAndOverride` | src/lib/api.ts:5-8 | The default `Content-Type` applies when the caller sets none, and the caller's `Content-Type` overrides it. |
| `Api.ErrorMessage` | src/lib/api.ts:12 | The message is the envelope's `error` when that is non-empty. Otherwise, including for an empty string, it is `Request failed`. It is never empty. |
| `Api.Unwrap` | src/lib/api.ts:11-14 | The data is returned exactly when `success` holds and `data` is present. Any other envelope fails with `ErrorMessage(error)`. |
| `Api.EnvelopeRoundTrip` | src/lib/api.ts:11-14 | `{success: true, data: x}` unwraps to `x`. `success: false` fails even when data is present. Absent data fails even when `success` holds. |
| `Api.Request` | src/lib/api.ts:2-15 | An envelope reply gives exactly what `Unwrap` gives for it: its data when `success` holds and data is present, otherwise the failure with `ErrorMessage(error)`. Data comes back only from such an envelope. An error thrown by the transport passes through unchanged. |
| `Api.MessagesPath` | src/lib/api.ts:31 | The path starts with `/api/rooms/`, holds the room id right after that prefix, and ends with `/messages`; it is 20 characters longer than the room id. |
| `Api.MessagesPathInjective` | src/lib/api.ts:31-33 | Two rooms share a messages path only when they are the same room. |
| `Api.SharedPaths` | src/lib/api.ts:16-37 | For the endpoint builders `Api.Login`, `Api.ListRooms`, `Api.CreateRoom`, `Api.ListMessages` and `Api.SendMessage`: listing and sending a room's messages use the same path, `MessagesPath(roomId)`, with GET and POST. Listing and creating rooms both use `/api/rooms`, with GET and POST. Login is a POST. |
| `Client.ChatStore.constructor` | src/lib/store.ts:22-29 | The store starts with the saved user, no active room, no rooms, no messages, the sidebar open, not loading, and no error. |
| `Client.ChatStore.Login` | src/lib/store.ts:30-40 | Success sets the user and clears the error. Failure keeps the old user, records the error and rethrows it. In both cases loading ends false, and rooms and messages are untouched. |
| `Client.ChatStore.Logout` | src/lib/store.ts:41-44 | Logout clears the user and the active room. Rooms, messages and every other field are unchanged. |
| `Client.ChatStore.SetActiveRoom` | src/lib/store.ts:45 | Only the active room id changes, and it becomes the given room. |
| `Client.ChatStore.SetSidebarOpen` | src/lib/store.ts:102 | Only the sidebar flag changes. |
| `Client.ChatStore.SyncRooms` | src/lib/store.ts:46-53 | The room list becomes the fetched list on success and stays unchanged on failure. |
| `Client.ChatStore.SyncMessages` | src/lib/store.ts:54-63 | Only `messages[roomId]` is replaced, and only on success. On failure the map is unchanged. |
| `Client.RoomMessages` | src/lib/store.ts:77 | A missing room reads as `[]`. Otherwise the stored list is returned. |
| `Client.OptimisticMessage` | src/lib/store.ts:68-76 | The provisional message has an id starting `temp-`, the user's id and name, the given content and room, type text, and the given timestamp. |
| `Client.TempIdIsNotServerId` | src/lib/store.ts:69 | A `temp-` id never equals an `m_` id that the worker assigns. |
| `Client.ChatStore.BeginSend` | src/lib/store.ts:64-80 | With no user, nothing changes. Otherwise exactly one message is appended to the end of `messages[roomId]` (missing counts as empty). The pre-send list is kept as the snapshot, and other rooms are unchanged. |
| `Client.ChatStore.SettleSend` | src/lib/store.ts:81-95 | On success nothing is merged. On failure `messages[roomId]` becomes exactly the snapshot, whatever it held by then, other rooms are untouched, and the error is rethrown. |
| `Client.ChatStore.SendMessage` | src/lib/store.ts:64-96 | With no user, the send resolves and changes nothing. On success the provisional message stays at the end. On failure the map is exactly the pre-send one, except that a room with no entry now has `[]`. |
| `Client.RollbackRestoresSnapshot` | src/lib/store.ts:89-95 | Restoring the snapshot after the optimistic append gives back the original map, except that an absent room becomes `[]`. |
| `Client.ChatStore.CreateRoom` | src/lib/store.ts:97-101 | The result is that of the create call. A failed create changes nothing. A successful one refreshes the room list as `SyncRooms` does. |

## Left out

- `fetch`, `response.json()` and `JSON.stringify` are network I/O and serialisation. Their results are the `Api.Reply` parameter, and request bodies are opaque strings.
- The `console.error` logging in `syncRooms` and `syncMessages` (src/lib/store.ts:51, 61) is console output. The model swallows the failure and records nothing.
- `localStorage` (src/lib/store.ts:23, 35, 43) is browser storage. The saved user is a constructor parameter, and the writes are not modelled.
- `Math.random` and the clock are parameters. Ids are not claimed to be unique, because the code does not guarantee it.
- `Registry.FullHistoryDropsOldest`: takes distinct ids as a hypothesis, because the random ids do not guarantee them.
- `Registry.UserId`: the text of the error `btoa` throws depends on the runtime. It is modelled as the name `InvalidCharacterError`.
- `Client.ChatStore.SendMessage`: assumes that nothing else changes the store during its network call. `BeginSend` and `SettleSend` model the two halves when other actions run in between.
- `Client.ChatStore.Login`: the intermediate state, loading with the error cleared, can be seen only during the network call and is not exposed.
- `Api.MergeHeaders`: caller headers are a plain record. A `Headers` object or a list of pairs spreads differently, and header names are compared by exact case, as the object spread does.
- `Api.Unwrap`: `data: null` counts as present in JavaScript. The model has no null; absent data is `None`.
- The storage holds values of the right kind: the directory, user records and histories under their own keys. Values written by anyone else are not modelled.
- `unreadCount` is an unbounded integer, not a floating-point JavaScript number.
- Durable object isolation and concurrency: each object is one sequential storage, with no interleaving. The registry and each room are separate objects (worker/userRoutes.ts:5-6). The model runs every operation on one object's storage, as the class is written.
- Route wiring (worker/userRoutes.ts) and the websocket forward are HTTP glue. No handler for the forwarded request, no presence or typing tracker, no broadcast and no reconnect manager exist in the modelled code, so none is modelled.
- React pages and components, the room-name form validation and the input trim guard are UI code.

# Voice chat: signaling relay, client handlers, chat grouping and TURN config rewrite

This project models, in Dafny, the logic of a small peer-to-peer voice-chat
system and proves properties of that model. It covers four parts of the code:

- **The signaling relay** (`backend/server.py`). `ConnectionManager` keeps a
  two-way index: each room maps to an ordered list of websockets, and each
  websocket maps to its room. The module `SignalingServer` models this table
  as a class whose two `map` fields `Connect` and `Disconnect` update in
  place. It also models the fan-out loop of `broadcast_to_room`, the
  receive-and-route loop of `websocket_endpoint`, the disconnect path, and the
  live user counts that `get_room` and `get_rooms` report. Every operation is
  proved against pure functions on a `Tables` value (`Connected`,
  `Disconnected`, `Broadcast`, `Route`, `SessionTables`). The table invariant
  is proved about those functions: no room is empty, no member is listed
  twice, and the two indexes agree.
- **The client's signaling handlers** (`frontend/src/App.js`). The module
  `VoiceClient` models the `App` component as a class. Its fields are the
  React state (one `View` record, whose entries the setters replace) and the
  refs to the stream, the peer connection, the websocket and the audio
  context. Its methods are the handlers: `ws.onopen`, `onmessage`, `onclose`
  and `onerror`, `onicecandidate`, `onconnectionstatechange`,
  `connectToRoom`, `disconnectFromRoom` and `toggleMute`. Each method is
  proved equal to a transition function on a `Client` value. The properties
  of the client as a state machine are proved about those functions. Frames
  handed to a websocket go to a `sent` log, and closed resources go to a
  `released` log.
- **The chat panel** (`frontend/src/components/Chat.js`). The module `Chat`
  models `groupMessagesByDate` as a loop over the messages, proved equal to a
  reference grouping. The calendar day of a message is an abstract key
  function. The module also models the today/yesterday label of
  `formatDate` over abstract day numbers, and the send and upload guards of
  the composer, with JavaScript's `trim`.
- **The TURN configuration rewrite** (`turn/simple_turn_server.py`). The
  module `TurnConfig` models the text transformation of `update_config` as a
  function of the configuration text and the two environment values. That
  transformation is placeholder replacement, or else the removal of the
  `external-ip=` lines. The module also models `check_environment`. Python's
  `replace`, `split`, `startswith` and `join` are written out, and their
  round trips are proved.

The client does not decide which side offers, keeps no buffer for early
connectivity candidates and does nothing when two offers cross. It sends an
offer on every `user_joined` while it has a peer connection. It answers every
offer. It applies every candidate as soon as it arrives. `OfferOnEveryJoin`,
`OfferIsAnswered` and `AppliedWithoutReply` state this. The server likewise
has no reset operation and no per-user voice flags: a room is a list of
sockets and nothing more.

`common.dfy` holds the `Text` type, the `Option` type and the `Distinct`
predicate that all modules share.

## Model

| member | source | states |
|---|---|---|
| `SignalingServer.ConnectedSpec` | backend/server.py:35-42 | `connect` keeps the table invariant. The room's list becomes its earlier members, in their order, followed by the new socket, and the list is created when the room is absent. The room's count grows by exactly one and the reverse index maps the socket to the room. Every other room keeps its members, and no other socket enters or leaves the reverse index. |
| `SignalingServer.DisconnectedSpec` | backend/server.py:51-60 | `disconnect` keeps the invariant and removes the socket from both indexes. The room's count drops by one. The room is deleted exactly when the socket was its last member. Other rooms and members are unchanged. A socket with no recorded room changes nothing. |
| `SignalingServer.ConnectThenDisconnect` | backend/server.py:35-60 | Round trip: `connect` of a fresh socket followed by its `disconnect` gives back the exact tables from before. |
| `SignalingServer.RemoveFirstSpec` | backend/server.py:54 | `list.remove` on a repetition-free list that holds the socket drops exactly that socket, keeps every other member, keeps the list free of repetition and shortens it by one. |
| `SignalingServer.RemoveFirstCutsFirst` | backend/server.py:54 | `list.remove` cuts out the first occurrence: the members before it and after it stay, in their order. |
| `SignalingServer.ActiveUsersCountsMembers` | backend/server.py:30-33 | Under the invariant, a room's live count equals the number of sockets that the reverse index places in that room. |
| `SignalingServer.WithoutSpec` | backend/server.py:68-75 | The broadcast targets are exactly the members other than `exclude`, with no repetition when the list has none, one fewer than the members when `exclude` is a member. With no exclusion they are the whole list, and an absent exclusion removes nothing. |
| `SignalingServer.WithoutAppend` | backend/server.py:68-75 | The targets keep list order: the targets of a concatenation are the targets of the first part followed by those of the second. |
| `SignalingServer.FanoutSnoc` | backend/server.py:68-75 | One more member at the end of the list adds at most one send, at the end: an attempt to that member carrying the message, unless it is the excluded socket. |
| `SignalingServer.FanoutSpec` | backend/server.py:68-75 | One broadcast attempts a send to every member other than `exclude`, carrying the message unchanged. A send arrives exactly when the message can be encoded and the socket works; a failed send does not stop the sends after it. The number of sends is the room size minus one when the excluded socket is a member. |
| `SignalingServer.GetRoom` | backend/server.py:95-109 | `get_room` returns the error record exactly when the store has no such room. Otherwise it returns the stored record with `active_users` set to the live list length, which is 0 when the room has no list. |
| `SignalingServer.ReportedCountFollowsConnections` | backend/server.py:95-109 | The count `get_room` reports rises by one when a socket connects. It returns to the earlier record when that socket disconnects. |
| `SignalingServer.RouteSpec` | backend/server.py:126-139 | An `offer`, `answer` or `ice-candidate` frame goes unchanged to every other room member and never to the sender. `join` yields exactly one `room_info` reply with `get_room`'s record, sent to the sender only, and it arrives exactly when the room is not in the store and the socket works. Every other type, or a frame with no type, sends nothing. |
| `SignalingServer.StoredRoomReplyLost` | backend/server.py:62-66 | As written: socket 7, alone in stored room `ABC123`, sends `join`; the one reply, the room record with one user, is attempted to socket 7 and does not arrive although the socket works. |
| `SignalingServer.EncodedRouteDelivers` | backend/server.py:95-109 | Corrected: with `created_at` encoded, every send that routing causes arrives exactly when its socket works, and `join` is answered with `get_room`'s record for a known and an unknown room alike. |
| `SignalingServer.JoinAnnouncementSpec` | backend/server.py:44-49 | `connect` sends one `user_joined` to each member already in the room, in list order, and never to the new socket. Each one carries `total_users` equal to the new list length. |
| `SignalingServer.SessionLoopStep` | backend/server.py:126-139 | One turn of the receive loop: the loop's outcome and the frames it routes extend by those of the next received event. |
| `SignalingServer.BadFrameLeavesStaleMember` | backend/server.py:124-142 | As written: a frame that is not JSON ends the session without `disconnect`. The dead socket stays in its room and is still counted. |
| `SignalingServer.CleanupRestoresTables` | backend/server.py:141-142 | Corrected: when every exit from the loop runs the disconnect path, a session leaves the tables as it found them. |
| `SignalingServer.ConnectionManager.constructor` | backend/server.py:31-33 | Both indexes start empty, and the invariant holds. |
| `SignalingServer.ConnectionManager.Connect` | backend/server.py:35-49 | The tables become `Connected(old, ws, room)` and the invariant is kept. The sends are the `user_joined` broadcast, computed on the new tables with the sender excluded. |
| `SignalingServer.ConnectionManager.Disconnect` | backend/server.py:51-60 | The tables become `Disconnected(old, ws)`, the invariant is kept, and nothing is sent. |
| `SignalingServer.ConnectionManager.SendPersonalMessage` | backend/server.py:62-66 | Exactly one send is attempted, to the given socket. It arrives only when `json.dumps` can encode the message and the socket works; either failure is swallowed, and the tables do not change. |
| `SignalingServer.ConnectionManager.BroadcastToRoom` | backend/server.py:68-75 | The loop's sends equal `Broadcast(old tables, room, message, exclude)`. That is nothing for an absent room, and otherwise one attempt per other member in list order, with failures swallowed. The tables do not change. |
| `SignalingServer.ConnectionManager.GetRooms` | backend/server.py:111-119 | At most the first 100 stored rooms are returned, in store order. Each one has `active_users` set to its live list length, or 0. |
| `SignalingServer.ConnectionManager.HandleFrame` | backend/server.py:130-139 | One routed frame: its sends are `Route(tables, ...)`, and the tables do not change. |
| `SignalingServer.ConnectionManager.ReceiveOne` | backend/server.py:126-139 | One loop turn. An object frame is routed and the loop goes on. A client disconnect, or a frame that fails to parse, ends the loop. |
| `SignalingServer.ConnectionManager.ReceiveLoop` | backend/server.py:125-141 | The `while True` loop routes every object frame before the first ending event, in order. The tables do not change while it runs. |
| `SignalingServer.ConnectionManager.CloseSession` | backend/server.py:141-149 | The disconnect path removes the socket. It broadcasts `user_left` with the remaining count to everyone left, and only if the room still exists. |
| `SignalingServer.ConnectionManager.RunSession` | backend/server.py:122-149 | A whole endpoint session: connect, the receive loop, and the disconnect path when the client goes away. The final tables and the full send log match `SessionTables` and `SessionSends`. |
| `VoiceClient.InitialValid` | frontend/src/App.js:10-27 | The initial state satisfies the client invariant, and both logs start empty. |
| `VoiceClient.StepKeepsValid` | frontend/src/App.js:143-276 | Every handler keeps the invariant and only appends to the logs. The invariant: a peer connection exists exactly when a local stream does, a websocket only with a peer connection, a local stream only with an audio context, and `isConnected` is never true beside a `disconnected` or `failed` status. |
| `VoiceClient.ConnectKeepsValid` | frontend/src/App.js:143-161 | `connectToRoom` keeps the invariant, sends nothing and closes nothing. |
| `VoiceClient.RunKeepsValid` | frontend/src/App.js:143-276 | The invariant holds after any sequence of handler runs, and the logs only grow. |
| `VoiceClient.MessageReplies` | frontend/src/App.js:163-212 | An inbound frame triggers at most one outbound frame. `user_joined` sends one `offer` carrying the created description if and only if a peer connection exists and both its calls resolve. `offer` sends one `answer` if and only if a peer connection exists and all three calls resolve. Every other case, and a case cut short by a rejection, sends nothing. No message changes the refs or the connection flags. |
| `VoiceClient.MessageCounts` | frontend/src/App.js:167-187 | `room_info` sets `currentRoom` to the data and `activeUsers` to its `active_users` (undefined for the error record), and sends nothing. `user_joined` sets `activeUsers` to `total_users`. `user_left` changes only `activeUsers`. |
| `VoiceClient.OfferOnEveryJoin` | frontend/src/App.js:172-183 | With a peer connection whose calls resolve, every `user_joined` sends a fresh offer, with no check of the count or of the negotiation state. Two joins send two offers, and the second becomes the local description. |
| `VoiceClient.OfferIsAnswered` | frontend/src/App.js:189-199 | When its three calls resolve, any `offer` becomes the remote description. The created answer becomes the local description and is sent as exactly one `answer` frame. |
| `VoiceClient.AppliedWithoutReply` | frontend/src/App.js:201-212 | `answer` becomes the remote description at once, and `ice-candidate` is added at once, with no buffering. Neither sends anything. With no peer connection, with an unrecognised type, or when the call rejects, the handler changes nothing. |
| `VoiceClient.RejectionCutsHandler` | frontend/src/App.js:174-211 | A rejected peer-connection call ends the case: nothing is sent and the local description and candidates stay. An offer whose `setRemoteDescription` resolved stays applied with no answer; in every other case the peer connection is unchanged. |
| `VoiceClient.ConnectionFlag` | frontend/src/App.js:124-132 | The status becomes the new connection state. `isConnected` becomes true on `connected` and false on `disconnected` or `failed`, and keeps its value on every other state. Nothing else changes. The websocket `onclose` handler (lines 215-219) always sets it false, with status `disconnected`. |
| `VoiceClient.CandidateGuard` | frontend/src/App.js:114-121 | An `ice-candidate` frame goes out, carrying the candidate, exactly when the event has a candidate and the websocket ref is set. Nothing else changes. |
| `VoiceClient.BlankRoomOpensNothing` | frontend/src/App.js:143-147 | With a room id of whitespace only, `connectToRoom` only sets the generated id. It opens nothing. |
| `VoiceClient.RefusedMediaOpensNothing` | frontend/src/App.js:149-152 | When microphone access fails, nothing changes and no websocket is opened. |
| `VoiceClient.JoinIsFirstFrame` | frontend/src/App.js:149-161 | Otherwise the stream, the audio context and a fresh peer connection are taken, and nothing is sent yet. When the URL is accepted, a websocket for the room is opened and the first frame, sent on open, is `join` with the room id. A room id with `#` makes the constructor throw: no websocket is opened, and the stream and peer connection stay in use. |
| `VoiceClient.TeardownIdempotent` | frontend/src/App.js:233-265 | `disconnectFromRoom` leaves every ref empty, `isConnected` false, `currentRoom` null, the status `disconnected`, and the count and levels 0. It closes exactly the resources that were present, each once. A second call changes nothing more. |
| `VoiceClient.MuteToggles` | frontend/src/App.js:268-276 | `toggleMute` flips the first audio track and sets `isMuted` to the negation of its `enabled`. The other tracks are kept. Two toggles restore the stream. Without a stream or a track it changes nothing. |
| `VoiceClient.App.constructor` | frontend/src/App.js:10-27 | The component starts in the initial state. |
| `VoiceClient.App.EnterRoomId` | frontend/src/App.js:310 | The room id input replaces `roomId`. The client invariant holds before and after. |
| `VoiceClient.App.HandleMessage` | frontend/src/App.js:163-212 | The `onmessage` switch, with its awaited calls resolving up to the given count, performs exactly the `OnMessage` transition. The client invariant holds before and after. |
| `VoiceClient.App.HandleConnectionStateChange` | frontend/src/App.js:124-132 | `onconnectionstatechange` performs exactly the `OnConnectionStateChange` transition. The client invariant holds before and after. |
| `VoiceClient.App.HandleIceCandidate` | frontend/src/App.js:114-121 | `onicecandidate` performs exactly the `OnIceCandidate` transition. The client invariant holds before and after. |
| `VoiceClient.App.HandleOpen` | frontend/src/App.js:158-161 | `onopen` sends the `join` frame for the socket's room. The client invariant holds before and after. |
| `VoiceClient.App.HandleClose` | frontend/src/App.js:215-219 | `onclose` clears `isConnected` and sets the status to `disconnected`. The client invariant holds before and after. |
| `VoiceClient.App.HandleError` | frontend/src/App.js:221-224 | `onerror` sets the status to `error`. The client invariant holds before and after. |
| `VoiceClient.App.ConnectToRoom` | frontend/src/App.js:143-229 | `connectToRoom`, with its two early returns and the `catch` around the websocket constructor, performs exactly the `AfterConnect` transition. The client invariant holds before and after. |
| `VoiceClient.App.DisconnectFromRoom` | frontend/src/App.js:233-265 | Nulling the refs in sequence and resetting the state performs exactly the `TornDown` transition. The client invariant holds before and after. |
| `VoiceClient.App.ToggleMute` | frontend/src/App.js:268-276 | `toggleMute` performs exactly the `MuteToggled` transition. The client invariant holds before and after. |
| `Chat.TrimStart` | frontend/src/components/Chat.js:21 | The leading-whitespace cut returns a suffix of the text; what it drops is all whitespace, and a non-empty result starts with a non-whitespace character. |
| `Chat.TrimEnd` | frontend/src/components/Chat.js:21 | The trailing-whitespace cut returns a prefix of the text; what it drops is all whitespace, and a non-empty result ends with a non-whitespace character. |
| `Chat.Trim` | frontend/src/components/Chat.js:21-22 | `trim` never lengthens the text, and a non-empty result neither starts nor ends with whitespace. |
| `Chat.TrimIsSlice` | frontend/src/components/Chat.js:21-22 | `trim` returns the slice between the whitespace margins of the text: the characters cut on either side are all whitespace. |
| `Chat.TrimEmptyIffBlank` | frontend/src/components/Chat.js:21 | The trimmed text is empty exactly when every character is JavaScript whitespace. |
| `Chat.TrimIdempotent` | frontend/src/components/Chat.js:21-22 | Trimming twice is the same as trimming once. |
| `Chat.FirstDaysSpec` | frontend/src/components/Chat.js:66-72 | The listed group keys are exactly the day keys that occur, each listed once. |
| `Chat.FirstDaysOrder` | frontend/src/components/Chat.js:66-72 | The keys are in order of first appearance: the keys of any prefix of the messages are a prefix of the keys of all of them. |
| `Chat.SelectSpec` | frontend/src/components/Chat.js:67-72 | A day's group holds exactly the messages of that day. A day that occurs has a non-empty group. |
| `Chat.SelectAppend` | frontend/src/components/Chat.js:67-72 | A group keeps input order: the group of a concatenation is the concatenation of the groups. |
| `Chat.SelectionsPartition` | frontend/src/components/Chat.js:66-74 | Over distinct keys that cover all messages, the group sizes add up to the input length, so nothing is lost or duplicated. |
| `Chat.GroupingPartitions` | frontend/src/components/Chat.js:65-75 | Every group is non-empty, so `msgs[0]` exists, and holds only messages of its day. Every message is in its day's group. The group sizes, in listing order, sum to the number of messages. |
| `Chat.GroupsHoldTheirDay` | frontend/src/components/Chat.js:65-75 | Every group is non-empty, its first element comes from the input, and all its messages have its day key. |
| `Chat.GroupsCoverInput` | frontend/src/components/Chat.js:65-75 | Every message is found in the group of its own day. |
| `Chat.GroupedSnoc` | frontend/src/components/Chat.js:67-73 | Adding one message pushes it onto its day's group. The group is created, and listed last, when the day is new. |
| `Chat.GroupMessagesByDate` | frontend/src/components/Chat.js:65-75 | The `forEach`/`push` loop builds exactly the reference grouping. Its key order, the insertion order that `Object.entries` reports, is the order of first appearance. |
| `Chat.FormatDate` | frontend/src/components/Chat.js:47-62 | The label is 'Сегодня' exactly when the day is today and 'Вчера' exactly when it is the day before. Otherwise it is the calendar date of that day. |
| `Chat.GroupLabel` | frontend/src/components/Chat.js:89-95 | Labelling a group by its first message gives the label of each of its messages. |
| `Chat.Composer.constructor` | frontend/src/components/Chat.js:4-9 | The message is empty, the typing flag is off, and nothing has been sent or uploaded. The handlers and the file input are as given. |
| `Chat.Composer.HandleSendMessage` | frontend/src/components/Chat.js:19-26 | When the trimmed text is non-empty and the callback exists, the trimmed text is sent once and the input and typing flag are cleared. Otherwise nothing changes. |
| `Chat.Composer.HandleFileUpload` | frontend/src/components/Chat.js:28-37 | The first file goes to the handler only when both exist. The file input is reset whenever it is attached. |
| `Chat.SentTextIsClean` | frontend/src/components/Chat.js:19-26 | Text is sent exactly when it is not blank. The sent text has no surrounding whitespace and is already trimmed. |
| `TurnConfig.CheckEnvironment` | turn/simple_turn_server.py:19-30 | The check fails exactly when `TURN_PASSWORD` is unset or empty. |
| `TurnConfig.ReplaceAll` | turn/simple_turn_server.py:43-49 | `str.replace`: the length changes by the difference between the replacement and the pattern once per occurrence that `split` finds. |
| `TurnConfig.SplitOn` | turn/simple_turn_server.py:53 | `str.split` never returns an empty list, and its pieces plus one separator between each two account for every character of the text. |
| `TurnConfig.Join` | turn/simple_turn_server.py:55 | `str.join` of a non-empty list is as long as the pieces plus one separator between each two. |
| `TurnConfig.KeepLines` | turn/simple_turn_server.py:54 | The filter never adds lines, no kept line begins with `external-ip=`, and it drops nothing exactly when no line begins with it. |
| `TurnConfig.UpdateConfig` | turn/simple_turn_server.py:43-55 | Without a usable external address, no line of the rewritten configuration begins with `external-ip=`. |
| `TurnConfig.FilterLeavesNoKeyLine` | turn/simple_turn_server.py:53-55 | Splitting, filtering and joining leaves no line, once the result is split again, that begins with `external-ip=`. |
| `TurnConfig.PiecesAvoidSep` | turn/simple_turn_server.py:43-53 | `split` cuts at every occurrence: no piece of the split contains the separator. |
| `TurnConfig.FirstPieceIsPrefix` | turn/simple_turn_server.py:43-53 | The first piece of a split is a prefix of the text. |
| `TurnConfig.ReplaceIsSplitJoin` | turn/simple_turn_server.py:43 | `s.replace(p, r)` equals `r.join(s.split(p))`: every occurrence becomes the replacement, and the text between occurrences stays in order. |
| `TurnConfig.ReplaceBySelf` | turn/simple_turn_server.py:43 | Replacing a pattern by itself gives the text back. |
| `TurnConfig.ReplaceAbsent` | turn/simple_turn_server.py:43 | A text without the pattern comes back unchanged from `replace`. |
| `TurnConfig.SplitJoinRoundTrip` | turn/simple_turn_server.py:53-55 | Joining the lines of a split with the same separator gives the text back. |
| `TurnConfig.JoinSplitRoundTrip` | turn/simple_turn_server.py:53-55 | Splitting the join of a non-empty list of newline-free lines gives the lines back. |
| `TurnConfig.LinesHaveNoNewline` | turn/simple_turn_server.py:53 | No piece of a split on `\n` contains a newline. |
| `TurnConfig.LineCount` | turn/simple_turn_server.py:53 | A split on `\n` yields one more line than there are newlines. |
| `TurnConfig.ReplaceKeepsNewlines` | turn/simple_turn_server.py:46-49 | A replacement in which neither text holds a newline keeps the number of newlines. |
| `TurnConfig.KeepLinesMembers` | turn/simple_turn_server.py:54 | A line survives the filter exactly when it does not begin with `external-ip=`. |
| `TurnConfig.KeepLinesAppend` | turn/simple_turn_server.py:54 | The filter preserves order: filtering a concatenation gives the concatenation of the filtered parts. |
| `TurnConfig.KeepLinesIdentity` | turn/simple_turn_server.py:54 | Lines none of which begins with `external-ip=` pass unchanged. |
| `TurnConfig.IndentedKeyKept` | turn/simple_turn_server.py:54 | Every line with a space or tab, then any text, before `external-ip=` and any value is kept, because the test is a prefix match. |
| `TurnConfig.PasswordSubstituted` | turn/simple_turn_server.py:43 | Every `${TURN_PASSWORD}` becomes the environment value: the configuration is placeholder-free pieces joined by the placeholder, and the result is the same pieces, in order, joined by the value. An unset variable gives `turn123456`, while one set to the empty string does not. |
| `TurnConfig.CheckedPasswordIsUsed` | turn/simple_turn_server.py:23-43 | Once `check_environment` has passed, the substituted value is the environment's, never the default. |
| `TurnConfig.ExternalIpSubstituted` | turn/simple_turn_server.py:46-49 | With a non-empty address other than `0.0.0.0`, every `$EXTERNAL_IP` becomes the address: the text is placeholder-free pieces joined by the placeholder, and the result joins the same pieces by the address. When the address holds no newline, no line is removed. |
| `TurnConfig.ExternalIpLinesDropped` | turn/simple_turn_server.py:50-55 | Otherwise, when at least one line is kept, the output lines are exactly the input lines not beginning with `external-ip=`, in order. |
| `TurnConfig.PlainConfigUnchanged` | turn/simple_turn_server.py:43-55 | A configuration with no placeholder and no `external-ip=` line comes out unchanged in either branch. |

## Findings

| source | as written | input that shows it | evidently intended | confidence | as-written member | corrected member |
|---|---|---|---|---|---|---|
| backend/server.py:62-66 | `create_room` stores `created_at` as a `datetime` (line 89). The `join` reply puts that record into `json.dumps`, which raises `TypeError`, and the bare `except` drops it. | Socket 7 is alone in room `ABC123`, which the store holds, and sends `{"type": "join"}`. No `room_info` reaches socket 7. | The record is encoded (for instance `created_at` as ISO text), so the reply arrives whenever the socket works. | high, not executed | `SignalingServer.StoredRoomReplyLost` | `SignalingServer.EncodedRouteDelivers` |
| backend/server.py:124-142 | The endpoint catches only `WebSocketDisconnect`. An exception from `json.loads` on a non-JSON frame, or from `.get` on a JSON value that is not an object, leaves the loop without calling `manager.disconnect`. | Socket 7 joins room `ABC123` and sends the text `x`. The socket stays in `active_connections["ABC123"]`, and `get_room` keeps reporting 1 user. | Every way out of the session removes the socket from both indexes (a `finally` around the loop). | medium, not executed | `SignalingServer.BadFrameLeavesStaleMember` | `SignalingServer.CleanupRestoresTables` |

`RunSession` models the endpoint as written. `SessionTablesWithCleanup` is the
corrected session outcome, and `CleanupRestoresTables` is proved about it.
`Route` and `RunSession` likewise model the `join` reply as written;
`RouteEncoded` is the corrected routing, and `EncodedRouteDelivers` is proved
about it.

## Left out

- Network I/O, JSON text and the websocket handshake (`websocket.accept`, `send_text`, `receive_text`). A received frame is one of three parse outcomes, and a send is an entry in a log. A send fails when its socket is in a given set of broken sockets, or when `json.dumps` cannot encode the message: of the messages sent, only a `room_info` carrying a stored record (with its `datetime`) is not encodable.
- Async interleaving: each FastAPI coroutine and each JavaScript handler runs to completion before the next one starts. The `await` points inside `connect`, the broadcast loop and the `onmessage` cases are not interleaved with other handlers.
- MongoDB, `uuid`, `datetime`, `create_room`, the root route, CORS, logging and shutdown in `backend/server.py`. The room store is an abstract map (`get_room`) or a list (`get_rooms`), and the `_id` removal is not modelled.
- SignalingServer.ConnectionManager.Connect: requires a socket with no recorded room and a non-empty room id. Each endpoint call receives a new socket, and the route `/ws/{room_id}` matches only non-empty ids.
- SignalingServer.ConnectionManager.Disconnect: `list.remove` raising `ValueError` is not modelled. Under the table invariant a socket with a recorded room is always in that room's list.
- The WebRTC internals: SDP and ICE contents, `createOffer`/`createAnswer` (their results are parameters), `ontrack` and the remote stream, and the `connectionState` the browser reaches (given as the new state of the event).
- Audio metering and volume: Web Audio, `requestAnimationFrame`, and the floating-point level average. The levels appear only as values that teardown resets to 0.
- Which peer-connection calls reject: each `onmessage` case is told how many of its awaited calls resolve before the first rejection. The rejection itself escapes as an unhandled promise rejection and is not logged in the model.
- VoiceClient.AfterConnect: `initWebRTC` stores the stream before it builds the audio meter and `new RTCPeerConnection`; a throw from either constructor, which would leave a stream with no peer connection, is not modelled.
- VoiceClient.AfterConnect: a `?` or `/` in the room id changes the path or query the server sees; the model treats every id without `#` as reaching the route for that id.
- `generateRoomId` (`Math.random`) and `getUserMedia`: the generated id and the stream, or its refusal, are parameters. `initWebRTC`'s `alert` and `console` calls are not modelled.
- The `volume` state and `updateVolume`, the 🎲 button (a `RoomIdEntered` with a generated id), the input's `maxLength`, and the unmount cleanup (a `Disconnect` event) in `App.js`.
- The rendering in `App.js` and `Chat.js`, `formatTime`, the `typingUsers` list and the message-length counter. `Sidebar.js` is pure rendering and is not part of this model.
- `Date`, `toDateString` and locale formatting: calendar days are an abstract key function, or abstract day numbers in `FormatDate`. The localized date text is a `CalendarDate(day)` value.
- The process control in `turn/simple_turn_server.py` (`start_*`, `cleanup`, signal handling, `main`) and the reading and writing of the configuration file. `turn/health_check.py` and `turn/test_turn_connection.py` are only I/O and are not part of this model.
- `backend_test.py` is not part of this model. It checks against a live server and expects messages (`join_voice`, `typing`, `new_message`, a `user` field on `user_joined`) that the shown server does not produce.
- TurnConfig.ExternalIpLinesDropped: re-splitting the output gives the filtered list only when at least one line is kept, because Python splits the empty text into one empty line. The no-`external-ip=`-line conclusion holds in every case and is stated by `UpdateConfig`.
- TurnConfig.ExternalIpSubstituted: "no line is removed" is proved only for an address without a newline. An address containing `\n` would add lines.

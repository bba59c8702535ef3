/** The signaling client of the voice-chat front end (frontend/src/App.js):
    the websocket handlers installed by `connectToRoom`, the peer connection's
    `onicecandidate` and `onconnectionstatechange` handlers, the teardown in
    `disconnectFromRoom`, and `toggleMute`.

    The browser objects are opaque. A peer connection is known by the
    descriptions and candidates applied to it; the descriptions that
    `createOffer`/`createAnswer` produce and the stream `getUserMedia` yields
    are supplied by the caller, and so is how far each handler's chain of
    peer-connection calls gets before one of them rejects. Every frame handed
    to a websocket is recorded in `sent`, every resource closed in
    `released`. Each handler runs to completion before the next one starts. */
module VoiceClient {
  import opened Common
  import Chat

  /** An SDP blob, opaque to the client. */
  datatype Description = Description(sdp: nat)

  /** An ICE candidate, opaque to the client. */
  datatype Candidate = Candidate(id: nat)

  /** A microphone track of the local stream. */
  datatype Track = Track(id: nat, enabled: bool)

  datatype LocalStream = LocalStream(audioTracks: seq<Track>)

  /** What the client has applied to its `RTCPeerConnection`. */
  datatype PeerConnection = PeerConnection(
    localDescription: Option<Description>,
    remoteDescription: Option<Description>,
    candidates: seq<Candidate>)

  /** A websocket, opened on the room path it carries. */
  datatype Socket = Socket(room: Text)

  /** The `data` of a `room_info` frame: the room record, or the error record
      the server sends for an unknown room (which has no `active_users`). */
  datatype RoomData = RoomRecord(id: Text, name: Text, activeUsers: int) | RoomError(error: Text)

  /** A parsed frame from the server, by its `type` field; `Unrecognised`
      stands for every other type. */
  datatype Inbound =
    | RoomInfo(data: RoomData)
    | UserJoined(totalUsers: int)
    | UserLeft(totalUsers: int)
    | Offer(offer: Description)
    | Answer(answer: Description)
    | IceCandidate(candidate: Candidate)
    | Unrecognised(kind: Text)

  /** The frames the client sends. */
  datatype Outbound =
    | Join(roomId: Text)
    | SendOffer(offer: Description)
    | SendAnswer(answer: Description)
    | SendCandidate(candidate: Candidate)

  /** The resources `disconnectFromRoom` closes. */
  datatype Release = CloseSocket | ClosePeer | StopTracks | CloseAudioContext

  /** The component's `useState` variables. `activeUsers` is `None` when it
      was set from a record without `active_users` (JavaScript `undefined`).
      The audio levels are only ever reset here; metering is not modelled. */
  datatype View = View(
    roomId: Text,
    currentRoom: Option<RoomData>,
    isConnected: bool,
    isMuted: bool,
    audioLevel: real,
    remoteAudioLevel: real,
    connectionStatus: Status,
    activeUsers: Option<int>)

  /** The component's state, its refs, and what it has done to the outside:
      the frames handed to a websocket and the resources closed, in order. */
  datatype Client = Client(
    view: View,
    localStream: Option<LocalStream>,
    peer: Option<PeerConnection>,
    websocket: Option<Socket>,
    hasAudioContext: bool,
    sent: seq<Outbound>,
    released: seq<Release>)

  /** What `connectionStatus` can hold: one of the peer connection's
      `connectionState` values, or `'error'`, which only `ws.onerror` sets. */
  datatype Status = New | Connecting | Connected | Disconnected | Failed | Closed | Error

  /** The `useState`/`useRef` initial values. */
  function Initial(): Client {
    Client(View("", None, false, false, 0.0, 0.0, Disconnected, Some(0)), None, None, None, false, [], [])
  }

  /** `message.data.active_users` */
  function ReportedUsers(data: RoomData): Option<int> {
    if data.RoomRecord? then Some(data.activeUsers) else None
  }

  // ---------------------------------------------------------------------------
  // ws.onmessage (frontend/src/App.js:163-212)
  // ---------------------------------------------------------------------------

  /** The number of awaited peer-connection calls a case of `onmessage`
      makes: `createOffer` and `setLocalDescription` on `user_joined`;
      `setRemoteDescription`, `createAnswer` and `setLocalDescription` on
      `offer`; one call on `answer` and on `ice-candidate`. */
  function CallsMade(m: Inbound): nat {
    match m
    case UserJoined(_) => 2
    case Offer(_) => 3
    case Answer(_) => 1
    case IceCandidate(_) => 1
    case _ => 0
  }

  /** The `onmessage` switch. `created` is the description the peer
      connection's `createOffer` (on `user_joined`) or `createAnswer` (on
      `offer`) resolves to. `resolved` is how many of the case's awaited
      peer-connection calls resolve before one rejects (for instance
      `addIceCandidate` before any remote description, or an `answer` in the
      stable state); a rejection ends the async handler, so the rest of the
      case does not run. */
  function OnMessage(c: Client, m: Inbound, created: Description, resolved: nat): Client {
    match m
    case RoomInfo(data) =>
      c.(view := c.view.(currentRoom := Some(data), activeUsers := ReportedUsers(data)))
    case UserJoined(total) =>
      var counted := c.(view := c.view.(activeUsers := Some(total)));
      if c.peer.None? || resolved < 2 then counted
      else counted.(peer := Some(c.peer.value.(localDescription := Some(created))),
                    sent := c.sent + [SendOffer(created)])
    case UserLeft(total) =>
      c.(view := c.view.(activeUsers := Some(total)))
    case Offer(offer) =>
      if c.peer.None? || resolved == 0 then c
      else if resolved < 3 then c.(peer := Some(c.peer.value.(remoteDescription := Some(offer))))
      else c.(peer := Some(c.peer.value.(remoteDescription := Some(offer), localDescription := Some(created))),
              sent := c.sent + [SendAnswer(created)])
    case Answer(answer) =>
      if c.peer.None? || resolved == 0 then c
      else c.(peer := Some(c.peer.value.(remoteDescription := Some(answer))))
    case IceCandidate(candidate) =>
      if c.peer.None? || resolved == 0 then c
      else c.(peer := Some(c.peer.value.(candidates := c.peer.value.candidates + [candidate])))
    case Unrecognised(_) =>
      c
  }

  // ---------------------------------------------------------------------------
  // Peer connection and websocket callbacks (frontend/src/App.js:114-132, 158-161, 215-224)
  // ---------------------------------------------------------------------------

  /** `onconnectionstatechange`, with the peer connection's new
      `connectionState`. */
  function OnConnectionStateChange(c: Client, state: Status): Client {
    c.(view := c.view.(
         connectionStatus := state,
         isConnected := if state == Connected then true
                        else if state == Disconnected || state == Failed then false
                        else c.view.isConnected))
  }

  /** `onicecandidate`: `candidate` is `None` for the end-of-candidates
      event. */
  function OnIceCandidate(c: Client, candidate: Option<Candidate>): Client {
    if candidate.Some? && c.websocket.Some? then c.(sent := c.sent + [SendCandidate(candidate.value)]) else c
  }

  /** `ws.onopen` of the socket `ws`, which announces the room id the socket
      was opened for. */
  function OnOpen(c: Client, ws: Socket): Client {
    c.(sent := c.sent + [Join(ws.room)])
  }

  /** `ws.onclose` */
  function OnClose(c: Client): Client {
    c.(view := c.view.(isConnected := false, connectionStatus := Disconnected))
  }

  /** `ws.onerror` */
  function OnError(c: Client): Client {
    c.(view := c.view.(connectionStatus := Error))
  }

  // ---------------------------------------------------------------------------
  // connectToRoom, disconnectFromRoom, toggleMute (frontend/src/App.js:73-161, 233-276)
  // ---------------------------------------------------------------------------

  /** Whether `new WebSocket(`${WS_URL}/api/ws/${roomId}`)` accepts the URL:
      a `#` in the room id starts a fragment, and the constructor throws
      `SyntaxError` for a URL with a fragment. */
  predicate UrlAccepted(roomId: Text) {
    '#' !in roomId
  }

  /** `connectToRoom`: a blank room id is replaced by `generated` and nothing
      is opened; otherwise `initWebRTC` runs (`media` is the stream
      `getUserMedia` yields, `None` when it is refused) and, when it succeeds,
      the websocket for the room is opened. When the constructor throws, the
      `catch` only reports it: the stream, the audio context and the peer
      connection stay set and the websocket ref keeps its old value. */
  function AfterConnect(c: Client, media: Option<LocalStream>, generated: Text): Client {
    if Chat.Trim(c.view.roomId) == [] then c.(view := c.view.(roomId := generated))
    else if media.None? then c
    else
      var prepared := c.(localStream := media, hasAudioContext := true,
                         peer := Some(PeerConnection(None, None, [])));
      if UrlAccepted(c.view.roomId) then prepared.(websocket := Some(Socket(c.view.roomId)))
      else prepared
  }

  /** `log`, with `x` appended when `cond` holds. */
  function AppendIf<T>(log: seq<T>, cond: bool, x: T): seq<T> {
    if cond then log + [x] else log
  }

  /** The resources `disconnectFromRoom` closes, in the order it closes them:
      each one whose ref is set. */
  function Closing(c: Client): seq<Release> {
    var ws := AppendIf([], c.websocket.Some?, CloseSocket);
    var pc := AppendIf(ws, c.peer.Some?, ClosePeer);
    var st := AppendIf(pc, c.localStream.Some?, StopTracks);
    AppendIf(st, c.hasAudioContext, CloseAudioContext)
  }

  /** The state `disconnectFromRoom` resets; the room id input and the mute
      flag keep their values. */
  function ResetView(v: View): View {
    v.(isConnected := false, currentRoom := None, connectionStatus := Disconnected,
       activeUsers := Some(0), audioLevel := 0.0, remoteAudioLevel := 0.0)
  }

  /** `disconnectFromRoom` */
  function TornDown(c: Client): Client {
    Client(ResetView(c.view), None, None, None, false, c.sent, c.released + Closing(c))
  }

  /** `toggleMute`: flips the first audio track of the local stream. */
  function MuteToggled(c: Client): Client {
    if c.localStream.Some? && |c.localStream.value.audioTracks| > 0 then
      var tracks := c.localStream.value.audioTracks;
      var flipped := tracks[0].(enabled := !tracks[0].enabled);
      c.(localStream := Some(LocalStream(tracks[0 := flipped])), view := c.view.(isMuted := !flipped.enabled))
    else c
  }

  // ---------------------------------------------------------------------------
  // The client as a state machine
  // ---------------------------------------------------------------------------

  /** Everything that can happen to the client. `RoomIdEntered` is the room
      id input (already upper-cased). */
  datatype Event =
    | RoomIdEntered(id: Text)
    | Connect(media: Option<LocalStream>, generated: Text)
    | Opened(ws: Socket)
    | Received(m: Inbound, created: Description, resolved: nat)
    | StateChanged(state: Status)
    | CandidateGathered(candidate: Option<Candidate>)
    | SocketClosed
    | SocketErrored
    | Disconnect
    | Mute

  function Step(c: Client, e: Event): Client {
    match e
    case RoomIdEntered(id) => c.(view := c.view.(roomId := id))
    case Connect(media, generated) => AfterConnect(c, media, generated)
    case Opened(ws) => OnOpen(c, ws)
    case Received(m, created, resolved) => OnMessage(c, m, created, resolved)
    case StateChanged(state) => OnConnectionStateChange(c, state)
    case CandidateGathered(candidate) => OnIceCandidate(c, candidate)
    case SocketClosed => OnClose(c)
    case SocketErrored => OnError(c)
    case Disconnect => TornDown(c)
    case Mute => MuteToggled(c)
  }

  function Run(c: Client, events: seq<Event>): Client
    decreases |events|
  {
    if |events| == 0 then c else Step(Run(c, events[..|events| - 1]), events[|events| - 1])
  }

  /** The refs are set together: a peer connection exists exactly when a
      local stream does, a websocket only with a peer connection, and a local
      stream only with an audio context. */
  predicate Wired(c: Client) {
    && (c.peer.Some? <==> c.localStream.Some?)
    && (c.websocket.Some? ==> c.peer.Some?)
    && (c.localStream.Some? ==> c.hasAudioContext)
  }

  /** `isConnected` is never left true beside a status that says otherwise. */
  predicate StatusAgrees(v: View) {
    v.isConnected ==> v.connectionStatus != Disconnected && v.connectionStatus != Failed
  }

  predicate Valid(c: Client) {
    Wired(c) && StatusAgrees(c.view)
  }

  /** Every handler keeps the invariant, and the logs of sent frames and
      released resources only grow. */
  lemma StepKeepsValid(c: Client, e: Event)
    requires Valid(c)
    ensures var c' := Step(c, e);
            && Valid(c')
            && c.sent <= c'.sent && c.released <= c'.released
  {
    match e {
      case Connect(media, generated) => ConnectKeepsValid(c, media, generated);
      case Received(m, created, resolved) => MessageReplies(c, m, created, resolved);
      case Disconnect => TeardownIdempotent(c);
      case _ =>
    }
  }

  lemma ConnectKeepsValid(c: Client, media: Option<LocalStream>, generated: Text)
    requires Valid(c)
    ensures var c' := AfterConnect(c, media, generated);
            && Valid(c') && c'.sent == c.sent && c'.released == c.released
  {
    var blank := Chat.Trim(c.view.roomId) == [];
    if !blank && media.Some? {
      assert AfterConnect(c, media, generated).view == c.view;
      assert AfterConnect(c, media, generated).peer.Some?;
    }
  }

  /** The invariant holds after any run from a valid state, and the logs are
      only ever appended to. */
  lemma {:induction false} RunKeepsValid(c: Client, events: seq<Event>)
    requires Valid(c)
    ensures var c' := Run(c, events);
            && Valid(c')
            && c.sent <= c'.sent && c.released <= c'.released
    decreases |events|
  {
    if |events| > 0 {
      RunKeepsValid(c, events[..|events| - 1]);
      StepKeepsValid(Run(c, events[..|events| - 1]), events[|events| - 1]);
    }
  }

  lemma InitialValid()
    ensures Valid(Initial()) && Initial().sent == [] && Initial().released == []
  {
  }

  // ---------------------------------------------------------------------------
  // What the handlers promise
  // ---------------------------------------------------------------------------

  /** A frame from the server sends at most one frame back: an `offer` on
      `user_joined` and an `answer` on `offer`, each exactly when a peer
      connection exists and all of the case's calls resolve, carrying the
      description just created. No message opens or drops a ref or touches
      the connection flags. */
  lemma MessageReplies(c: Client, m: Inbound, created: Description, resolved: nat)
    ensures var c' := OnMessage(c, m, created, resolved);
            && c.sent <= c'.sent
            && (c'.sent == c.sent + [SendOffer(created)] <==> m.UserJoined? && c.peer.Some? && resolved >= CallsMade(m))
            && (c'.sent == c.sent + [SendAnswer(created)] <==> m.Offer? && c.peer.Some? && resolved >= CallsMade(m))
            && (!(m.UserJoined? || m.Offer?) || c.peer.None? || resolved < CallsMade(m) ==> c'.sent == c.sent)
            && c'.peer.Some? == c.peer.Some? && c'.websocket == c.websocket && c'.localStream == c.localStream
            && c'.view.isConnected == c.view.isConnected && c'.view.connectionStatus == c.view.connectionStatus
  {
    var c' := OnMessage(c, m, created, resolved);
    if c'.sent != c.sent {
      assert |c'.sent| == |c.sent| + 1;
      assert c'.sent[|c.sent|] == if m.UserJoined? then SendOffer(created) else SendAnswer(created);
    }
  }

  /** `room_info` stores the record and its count, `user_joined` and
      `user_left` the new total; nothing else changes the room or the count. */
  lemma MessageCounts(c: Client, m: Inbound, created: Description, resolved: nat)
    ensures var c' := OnMessage(c, m, created, resolved);
            && (m.RoomInfo? ==> c'.view.currentRoom == Some(m.data) && c'.view.activeUsers == ReportedUsers(m.data)
                                && c'.sent == c.sent)
            && (m.UserJoined? ==> c'.view.activeUsers == Some(m.totalUsers))
            && (m.UserLeft? ==> c' == c.(view := c.view.(activeUsers := Some(m.totalUsers))))
            && (!m.RoomInfo? ==> c'.view.currentRoom == c.view.currentRoom)
            && (!(m.RoomInfo? || m.UserJoined? || m.UserLeft?) ==> c'.view.activeUsers == c.view.activeUsers)
  {
  }

  /** Every `user_joined` is answered with a new offer whenever a peer
      connection exists and the browser completes the calls, whatever the
      count or the negotiation state: two arrivals in a row send two offers,
      and the second replaces the first as the local description. */
  lemma OfferOnEveryJoin(c: Client, n1: int, d1: Description, n2: int, d2: Description)
    requires c.peer.Some?
    ensures var c' := OnMessage(OnMessage(c, UserJoined(n1), d1, 2), UserJoined(n2), d2, 2);
            && c'.sent == c.sent + [SendOffer(d1), SendOffer(d2)]
            && c'.peer.value.localDescription == Some(d2)
            && c'.peer.value.remoteDescription == c.peer.value.remoteDescription
            && c'.view.activeUsers == Some(n2)
  {
  }

  /** Any `offer` is applied and answered, in that order on the peer
      connection, when the browser completes the three calls: the offer
      becomes the remote description and the created answer the local one. */
  lemma OfferIsAnswered(c: Client, offer: Description, created: Description)
    requires c.peer.Some?
    ensures var c' := OnMessage(c, Offer(offer), created, 3);
            && c'.peer.value.remoteDescription == Some(offer)
            && c'.peer.value.localDescription == Some(created)
            && c'.peer.value.candidates == c.peer.value.candidates
            && c'.sent == c.sent + [SendAnswer(created)]
  {
  }

  /** `answer` and `ice-candidate` are applied at once (no buffering) and send
      nothing; without a peer connection, for an unrecognised type, or when
      the call rejects, the handler changes nothing at all. */
  lemma AppliedWithoutReply(c: Client, m: Inbound, created: Description, resolved: nat)
    requires m.Answer? || m.IceCandidate? || m.Unrecognised?
    ensures var c' := OnMessage(c, m, created, resolved);
            && c'.sent == c.sent
            && (c.peer.None? || m.Unrecognised? || resolved == 0 ==> c' == c)
            && (c.peer.Some? && m.Answer? && resolved > 0 ==> c'.peer.value.remoteDescription == Some(m.answer))
            && (c.peer.Some? && m.IceCandidate? && resolved > 0 ==>
                  c'.peer.value.candidates == c.peer.value.candidates + [m.candidate])
  {
  }

  /** A rejected call cuts the case short: a join whose offer is not set
      sends nothing and leaves the peer connection as it was, and an offer
      applied as the remote description whose answer fails is left
      unanswered, with no local description set. */
  lemma RejectionCutsHandler(c: Client, m: Inbound, created: Description, resolved: nat)
    requires c.peer.Some? && resolved < CallsMade(m)
    ensures var c' := OnMessage(c, m, created, resolved);
            && c'.sent == c.sent
            && c'.peer.value.localDescription == c.peer.value.localDescription
            && c'.peer.value.candidates == c.peer.value.candidates
            && (m.Offer? && resolved > 0 ==> c'.peer.value.remoteDescription == Some(m.offer))
            && (!(m.Offer? && resolved > 0) ==> c'.peer == c.peer)
  {
  }

  /** The status always shows the latest connection state; `isConnected`
      becomes true on `connected`, false on `disconnected` and `failed`, and
      keeps its value on every other state. A closed websocket always leaves
      the client disconnected. */
  lemma ConnectionFlag(c: Client, state: Status)
    ensures var c' := OnConnectionStateChange(c, state);
            && c'.view.connectionStatus == state
            && (c'.view.isConnected <==> state == Connected || (c.view.isConnected && state != Disconnected && state != Failed))
            && c'.(view := c'.view.(isConnected := c.view.isConnected, connectionStatus := c.view.connectionStatus)) == c
    ensures !OnClose(c).view.isConnected && OnClose(c).view.connectionStatus == Disconnected
  {
  }

  /** An `ice-candidate` frame goes out exactly when the event has a
      candidate and the websocket ref is set, and it carries that candidate. */
  lemma CandidateGuard(c: Client, candidate: Option<Candidate>)
    ensures var c' := OnIceCandidate(c, candidate);
            && (c'.sent != c.sent <==> candidate.Some? && c.websocket.Some?)
            && (c'.sent != c.sent ==> c'.sent == c.sent + [SendCandidate(candidate.value)])
            && c'.(sent := c.sent) == c
  {
  }

  /** A room id of whitespace only (as JavaScript's `trim` sees it) is
      replaced by the generated id and nothing is opened or sent. */
  lemma BlankRoomOpensNothing(c: Client, media: Option<LocalStream>, generated: Text)
    requires Chat.AllWhitespace(c.view.roomId)
    ensures AfterConnect(c, media, generated) == c.(view := c.view.(roomId := generated))
  {
    Chat.TrimEmptyIffBlank(c.view.roomId);
  }

  /** When the microphone is refused, no websocket is opened. */
  lemma RefusedMediaOpensNothing(c: Client, generated: Text)
    requires !Chat.AllWhitespace(c.view.roomId)
    ensures AfterConnect(c, None, generated) == c
  {
    Chat.TrimEmptyIffBlank(c.view.roomId);
  }

  /** With a room id and a microphone, the client takes the stream and a
      fresh peer connection. When the URL is accepted it opens a socket for
      the room, and the first frame it sends when the socket opens is `join`
      for the room; a room id with `#` opens no socket and leaves the
      microphone and the peer connection in use. */
  lemma JoinIsFirstFrame(c: Client, stream: LocalStream, generated: Text)
    requires !Chat.AllWhitespace(c.view.roomId)
    ensures var c' := AfterConnect(c, Some(stream), generated);
            && c'.peer == Some(PeerConnection(None, None, []))
            && c'.localStream == Some(stream) && c'.hasAudioContext
            && c'.sent == c.sent
            && (UrlAccepted(c.view.roomId) ==>
                  && c'.websocket == Some(Socket(c.view.roomId))
                  && OnOpen(c', c'.websocket.value).sent == c.sent + [Join(c.view.roomId)])
            && (!UrlAccepted(c.view.roomId) ==> c'.websocket == c.websocket)
  {
    Chat.TrimEmptyIffBlank(c.view.roomId);
  }

  /** After `disconnectFromRoom` every ref is empty and the status fields are
      reset; exactly the resources that were present are closed, once each,
      and a second call changes nothing. */
  lemma TeardownIdempotent(c: Client)
    ensures var c' := TornDown(c);
            && c'.websocket.None? && c'.peer.None? && c'.localStream.None? && !c'.hasAudioContext
            && !c'.view.isConnected && c'.view.currentRoom.None? && c'.view.connectionStatus == Disconnected
            && c'.view.activeUsers == Some(0) && c'.view.audioLevel == 0.0 && c'.view.remoteAudioLevel == 0.0
            && c'.view.roomId == c.view.roomId && c'.view.isMuted == c.view.isMuted
            && c'.released == c.released + Closing(c)
            && (CloseSocket in Closing(c) <==> c.websocket.Some?)
            && (ClosePeer in Closing(c) <==> c.peer.Some?)
            && (StopTracks in Closing(c) <==> c.localStream.Some?)
            && (CloseAudioContext in Closing(c) <==> c.hasAudioContext)
            && Distinct(Closing(c))
            && c'.sent == c.sent
            && TornDown(c') == c'
  {
    var ws := AppendIf([], c.websocket.Some?, CloseSocket);
    var pc := AppendIf(ws, c.peer.Some?, ClosePeer);
    var st := AppendIf(pc, c.localStream.Some?, StopTracks);
    AppendIfDistinct([], c.websocket.Some?, CloseSocket);
    AppendIfDistinct(ws, c.peer.Some?, ClosePeer);
    AppendIfDistinct(pc, c.localStream.Some?, StopTracks);
    AppendIfDistinct(st, c.hasAudioContext, CloseAudioContext);
    var c' := TornDown(c);
    assert Closing(c') == [];
    assert c'.released + [] == c'.released;
  }

  /** Appending an element not yet in a repetition-free log keeps it
      repetition-free, and the element is then in the log exactly when the
      condition held or it was there before. */
  lemma AppendIfDistinct<T>(log: seq<T>, cond: bool, x: T)
    requires Distinct(log) && x !in log
    ensures Distinct(AppendIf(log, cond, x))
    ensures forall y :: y in AppendIf(log, cond, x) <==> y in log || (cond && y == x)
  {
  }

  /** After `toggleMute`, `isMuted` is the negation of the first track's
      `enabled`; toggling twice restores the stream; without a stream or an
      audio track nothing changes. */
  lemma MuteToggles(c: Client)
    ensures var c' := MuteToggled(c);
            && (c.localStream.Some? && |c.localStream.value.audioTracks| > 0 ==>
                  && c'.view.isMuted == !c'.localStream.value.audioTracks[0].enabled
                  && c'.localStream.value.audioTracks[0].enabled == !c.localStream.value.audioTracks[0].enabled
                  && |c'.localStream.value.audioTracks| == |c.localStream.value.audioTracks|
                  && c'.localStream.value.audioTracks[1..] == c.localStream.value.audioTracks[1..])
            && (c.localStream.None? || |c.localStream.value.audioTracks| == 0 ==> c' == c)
            && MuteToggled(c').localStream == c.localStream
  {
    if c.localStream.Some? && |c.localStream.value.audioTracks| > 0 {
      var tracks := c.localStream.value.audioTracks;
      var once := MuteToggled(c).localStream.value.audioTracks;
      assert MuteToggled(MuteToggled(c)).localStream.value.audioTracks == once[0 := once[0].(enabled := !once[0].enabled)];
      assert once[0 := once[0].(enabled := !once[0].enabled)] == tracks;
    }
  }

  // ---------------------------------------------------------------------------
  // The component (frontend/src/App.js:9-276)
  // ---------------------------------------------------------------------------

  /** The `App` component: its state variables (`view`, which each setter
      replaces one entry of) and its refs, each a field. Each handler changes
      them as the source does and is proved to be the transition above. */
  class App {
    var view: View
    var localStreamRef: Option<LocalStream>
    var peerConnectionRef: Option<PeerConnection>
    var websocketRef: Option<Socket>
    var audioContextRef: bool
    /** Every frame handed to a websocket, in order. */
    var sent: seq<Outbound>
    /** Every resource closed, in order. */
    var released: seq<Release>

    function State(): Client
      reads this
    {
      Client(view, localStreamRef, peerConnectionRef, websocketRef, audioContextRef, sent, released)
    }

    constructor ()
      ensures State() == Initial() && Valid(State())
    {
      view := Initial().view;
      localStreamRef, peerConnectionRef, websocketRef, audioContextRef := None, None, None, false;
      sent, released := [], [];
    }

    /** The room id input's `onChange`, with the upper-cased text. */
    method EnterRoomId(id: Text)
      requires Valid(State())
      modifies this
      ensures State() == Step(old(State()), RoomIdEntered(id))
      ensures Valid(State())
    {
      StepKeepsValid(State(), RoomIdEntered(id));
      view := view.(roomId := id);
    }

    method HandleMessage(m: Inbound, created: Description, resolved: nat)
      requires Valid(State())
      modifies this
      ensures State() == OnMessage(old(State()), m, created, resolved)
      ensures Valid(State())
    {
      StepKeepsValid(State(), Received(m, created, resolved));
      match m {
        case RoomInfo(data) =>
          view := view.(currentRoom := Some(data));
          view := view.(activeUsers := ReportedUsers(data));
        case UserJoined(total) =>
          view := view.(activeUsers := Some(total));
          if peerConnectionRef.Some? && resolved >= 2 {
            peerConnectionRef := Some(peerConnectionRef.value.(localDescription := Some(created)));
            sent := sent + [SendOffer(created)];
          }
        case UserLeft(total) =>
          view := view.(activeUsers := Some(total));
        case Offer(offer) =>
          if peerConnectionRef.Some? && resolved >= 1 {
            peerConnectionRef := Some(peerConnectionRef.value.(remoteDescription := Some(offer)));
            if resolved >= 3 {
              peerConnectionRef := Some(peerConnectionRef.value.(localDescription := Some(created)));
              sent := sent + [SendAnswer(created)];
            }
          }
        case Answer(answer) =>
          if peerConnectionRef.Some? && resolved >= 1 {
            peerConnectionRef := Some(peerConnectionRef.value.(remoteDescription := Some(answer)));
          }
        case IceCandidate(candidate) =>
          if peerConnectionRef.Some? && resolved >= 1 {
            peerConnectionRef := Some(peerConnectionRef.value.(candidates := peerConnectionRef.value.candidates + [candidate]));
          }
        case Unrecognised(_) =>
      }
    }

    method HandleConnectionStateChange(state: Status)
      requires Valid(State())
      modifies this
      ensures State() == OnConnectionStateChange(old(State()), state)
      ensures Valid(State())
    {
      StepKeepsValid(State(), StateChanged(state));
      view := view.(connectionStatus := state);
      if state == Connected {
        view := view.(isConnected := true);
      } else if state == Disconnected || state == Failed {
        view := view.(isConnected := false);
      }
    }

    method HandleIceCandidate(candidate: Option<Candidate>)
      requires Valid(State())
      modifies this
      ensures State() == OnIceCandidate(old(State()), candidate)
      ensures Valid(State())
    {
      StepKeepsValid(State(), CandidateGathered(candidate));
      if candidate.Some? && websocketRef.Some? {
        sent := sent + [SendCandidate(candidate.value)];
      }
    }

    method HandleOpen(ws: Socket)
      requires Valid(State())
      modifies this
      ensures State() == OnOpen(old(State()), ws)
      ensures Valid(State())
    {
      StepKeepsValid(State(), Opened(ws));
      sent := sent + [Join(ws.room)];
    }

    method HandleClose()
      requires Valid(State())
      modifies this
      ensures State() == OnClose(old(State()))
      ensures Valid(State())
    {
      StepKeepsValid(State(), SocketClosed);
      view := view.(isConnected := false);
      view := view.(connectionStatus := Disconnected);
    }

    method HandleError()
      requires Valid(State())
      modifies this
      ensures State() == OnError(old(State()))
      ensures Valid(State())
    {
      StepKeepsValid(State(), SocketErrored);
      view := view.(connectionStatus := Error);
    }

    method ConnectToRoom(media: Option<LocalStream>, generated: Text)
      requires Valid(State())
      modifies this
      ensures State() == AfterConnect(old(State()), media, generated)
      ensures Valid(State())
    {
      StepKeepsValid(State(), Connect(media, generated));
      var blank := Chat.Trim(view.roomId) == [];
      if blank {
        view := view.(roomId := generated);
        return;
      }
      // initWebRTC: getUserMedia, then the peer connection
      if media.None? {
        return;
      }
      localStreamRef := media;
      audioContextRef := true;
      peerConnectionRef := Some(PeerConnection(None, None, []));
      // new WebSocket throws on a URL with a fragment; the catch only reports it
      if UrlAccepted(view.roomId) {
        websocketRef := Some(Socket(view.roomId));
      }
    }

    method DisconnectFromRoom()
      requires Valid(State())
      modifies this
      ensures State() == TornDown(old(State()))
      ensures Valid(State())
    {
      StepKeepsValid(State(), Disconnect);
      var closing: seq<Release> := [];
      if websocketRef.Some? {
        closing := closing + [CloseSocket];
        websocketRef := None;
      }
      if peerConnectionRef.Some? {
        closing := closing + [ClosePeer];
        peerConnectionRef := None;
      }
      if localStreamRef.Some? {
        closing := closing + [StopTracks];
        localStreamRef := None;
      }
      if audioContextRef {
        closing := closing + [CloseAudioContext];
        audioContextRef := false;
      }
      released := released + closing;
      view := ResetView(view);
    }

    method ToggleMute()
      requires Valid(State())
      modifies this
      ensures State() == MuteToggled(old(State()))
      ensures Valid(State())
    {
      StepKeepsValid(State(), Mute);
      if localStreamRef.Some? {
        var tracks := localStreamRef.value.audioTracks;
        if |tracks| > 0 {
          var audioTrack := tracks[0];
          audioTrack := audioTrack.(enabled := !audioTrack.enabled);
          localStreamRef := Some(LocalStream(tracks[0 := audioTrack]));
          view := view.(isMuted := !audioTrack.enabled);
        }
      }
    }
  }
}

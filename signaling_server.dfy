/** The signaling relay of the voice-chat backend (backend/server.py): the
    connection table kept by `ConnectionManager`, the fan-out of a message to
    the other members of a room, the receive-and-route loop of the websocket
    endpoint, and the live user counts reported by the room lookups.

    Websockets are opaque, distinct identities. A send to a websocket either
    reaches it or raises; the set `broken` names the sockets whose send raises,
    and every attempt is recorded in the manager's `outbox` together with
    whether it was delivered. The room store behind `get_room` is an abstract
    map; JSON parsing is abstracted to the three outcomes the endpoint can see.
    A send also raises when `json.dumps` rejects the message, which happens
    to a room record read back from the store (see `Encodable`). */
module SignalingServer {
  import opened Common

  type RoomId = Text

  /** A websocket, known only by its identity. */
  type Conn = nat

  /** A parsed JSON object received from a client: its `type` field, if any,
      and the rest of the object, which the relay never inspects. */
  datatype Frame = Frame(kind: Option<Text>, body: Text)

  /** The outcome of `json.loads` on a received text frame. */
  datatype Parsed = JsonObject(frame: Frame) | NotAnObject | NotJson

  /** What `receive_text` yields: a text frame, or the client going away
      (`WebSocketDisconnect`). */
  datatype Received = TextFrame(parsed: Parsed) | ClientGone

  /** A room record of the room store. `createdAt` stands for the `datetime`
      that `create_room` stores in `created_at` (backend/server.py:89). */
  datatype RoomDoc = RoomDoc(id: RoomId, name: Text, createdAt: int, activeUsers: int)

  /** The reply of `get_room`: the stored record with the live user count, or
      the error record for an unknown room. */
  datatype RoomReply = RoomFound(room: RoomDoc) | RoomNotFound

  /** The messages the relay sends. A relayed frame is the client's object,
      unchanged. */
  datatype Outgoing =
    | UserJoined(roomId: RoomId, totalUsers: nat)
    | UserLeft(roomId: RoomId, totalUsers: nat)
    | RoomInfo(data: RoomReply)
    | EncodedRoomInfo(data: RoomReply)
    | Relayed(frame: Frame)

  /** One attempted send and whether it reached the socket. */
  datatype Delivery = Delivery(to: Conn, message: Outgoing, delivered: bool)

  /** Whether `json.dumps` accepts the message. A `room_info` carrying a
      stored record still holds its `created_at` as a `datetime`, on which
      `json.dumps` raises `TypeError`; the error record, the announcements and
      the relayed client objects are plain JSON, and so is the record once
      `created_at` is encoded as text (`EncodedRoomInfo`). */
  predicate Encodable(message: Outgoing) {
    !(message.RoomInfo? && message.data.RoomFound?)
  }

  /** `send_text(json.dumps(message))` inside the source's bare `try`/`except`:
      the attempt reaches `to` only when the message encodes and the socket is
      not broken; either failure is swallowed. */
  function Attempt(to: Conn, message: Outgoing, broken: set<Conn>): Delivery {
    Delivery(to, message, Encodable(message) && to !in broken)
  }

  /** The two indexes of `ConnectionManager`: room to ordered member list
      (`active_connections`) and member to room (`connection_rooms`). */
  datatype Tables = Tables(rooms: map<RoomId, seq<Conn>>, roomOf: map<Conn, RoomId>)

  const RelayedKinds: set<Text> := {"offer", "answer", "ice-candidate"}
  const JoinKind: Text := "join"
  const RoomLimit: nat := 100

  /** The invariant the manager keeps: no room is listed without members, no
      member is listed twice, and the two indexes agree. Room ids are never
      empty (the route `/ws/{room_id}` matches only non-empty ids). */
  predicate Consistent(t: Tables) {
    && (forall r | r in t.rooms :: r != [] && |t.rooms[r]| > 0 && Distinct(t.rooms[r]))
    && (forall r, i | r in t.rooms && 0 <= i < |t.rooms[r]| ::
          t.rooms[r][i] in t.roomOf && t.roomOf[t.rooms[r][i]] == r)
    && (forall c | c in t.roomOf :: t.roomOf[c] in t.rooms && c in t.rooms[t.roomOf[c]])
  }

  // ---------------------------------------------------------------------------
  // connect and disconnect (backend/server.py:35-60)
  // ---------------------------------------------------------------------------

  /** The member list of `r`, empty when the room is not listed. */
  function Members(t: Tables, r: RoomId): seq<Conn> {
    if r in t.rooms then t.rooms[r] else []
  }

  /** The live user count of a room: `len(active_connections.get(r, []))`. */
  function ActiveUsers(t: Tables, r: RoomId): nat {
    |Members(t, r)|
  }

  /** The tables after `connect(ws, r)`: the list is created when absent and
      `ws` is appended to it. */
  function Connected(t: Tables, ws: Conn, r: RoomId): Tables {
    Tables(t.rooms[r := Members(t, r) + [ws]], t.roomOf[ws := r])
  }

  /** `list.remove(x)`: drops the first occurrence of `x`. */
  function RemoveFirst(s: seq<Conn>, x: Conn): seq<Conn>
    decreases |s|
  {
    if |s| == 0 then [] else if s[0] == x then s[1..] else [s[0]] + RemoveFirst(s[1..], x)
  }

  /** The tables after `disconnect(ws)`: when `ws` has a (non-empty) recorded
      room that is listed, it leaves the room's list and the reverse index,
      and a room left empty is deleted; otherwise nothing changes. */
  function Disconnected(t: Tables, ws: Conn): Tables {
    if ws in t.roomOf && t.roomOf[ws] != [] && t.roomOf[ws] in t.rooms then
      var r := t.roomOf[ws];
      var rest := RemoveFirst(t.rooms[r], ws);
      var roomOf := t.roomOf - {ws};
      if rest == [] then Tables(t.rooms - {r}, roomOf) else Tables(t.rooms[r := rest], roomOf)
    else t
  }

  lemma {:induction false} RemoveFirstSpec(s: seq<Conn>, x: Conn)
    requires Distinct(s) && x in s
    ensures |RemoveFirst(s, x)| == |s| - 1
    ensures Distinct(RemoveFirst(s, x))
    ensures forall c :: c in RemoveFirst(s, x) <==> c in s && c != x
    decreases |s|
  {
    if s[0] != x {
      assert x in s[1..];
      RemoveFirstSpec(s[1..], x);
      var r := RemoveFirst(s[1..], x);
      forall i, j | 0 <= i < j < |[s[0]] + r| ensures ([s[0]] + r)[i] != ([s[0]] + r)[j] {
        if i == 0 {
          assert ([s[0]] + r)[j] in r;
          assert s[0] !in s[1..] by {
            forall k | 0 <= k < |s| - 1 ensures s[1..][k] != s[0] { assert s[1..][k] == s[k + 1]; }
          }
        }
      }
    } else {
      forall k | 0 <= k < |s| - 1 ensures s[1..][k] != x { assert s[1..][k] == s[k + 1]; }
    }
  }

  /** `list.remove` cuts out the first occurrence and keeps every other
      member in its place. */
  lemma {:induction false} RemoveFirstCutsFirst(s: seq<Conn>, k: nat)
    requires k < |s| && s[k] !in s[..k]
    ensures RemoveFirst(s, s[k]) == s[..k] + s[k + 1..]
    decreases k
  {
    if k > 0 {
      assert s[0] in s[..k];
      assert s[1..][k - 1] == s[k];
      assert s[1..][..k - 1] == s[1..k];
      RemoveFirstCutsFirst(s[1..], k - 1);
      assert s[1..][k..] == s[k + 1..];
      assert [s[0]] + s[1..k] == s[..k];
    }
  }

  lemma {:induction false} RemoveFirstAppended(s: seq<Conn>, x: Conn)
    requires x !in s
    ensures RemoveFirst(s + [x], x) == s
    decreases |s|
  {
    if |s| == 0 {
    } else {
      assert (s + [x])[1..] == s[1..] + [x];
      RemoveFirstAppended(s[1..], x);
      assert [s[0]] + s[1..] == s;
    }
  }

  /** `connect` keeps the invariant; `ws` is appended to `r`, whose earlier
      members keep their order and which grows by exactly one, and every
      other room and member is untouched. */
  lemma ConnectedSpec(t: Tables, ws: Conn, r: RoomId)
    requires Consistent(t) && ws !in t.roomOf && r != []
    ensures var t' := Connected(t, ws, r);
            && Consistent(t')
            && r in t'.rooms && t'.rooms[r] == Members(t, r) + [ws] && t'.roomOf[ws] == r
            && ActiveUsers(t', r) == ActiveUsers(t, r) + 1
            && (forall r' | r' != r :: Members(t', r') == Members(t, r') && (r' in t'.rooms <==> r' in t.rooms))
            && (forall c | c != ws :: c in t'.roomOf <==> c in t.roomOf)
  {
    var t' := Connected(t, ws, r);
    assert ws !in Members(t, r);
    forall r', i | r' in t'.rooms && 0 <= i < |t'.rooms[r']|
      ensures t'.rooms[r'][i] in t'.roomOf && t'.roomOf[t'.rooms[r'][i]] == r'
    {
      if r' == r && i < |Members(t, r)| {
        assert t'.rooms[r'][i] == Members(t, r)[i];
      }
    }
  }

  /** `disconnect` keeps the invariant and removes `ws` from both indexes; the
      room's count drops by one and the room is deleted exactly when `ws` was
      its last member; other rooms and other members are untouched. A socket
      with no recorded room changes nothing. */
  lemma DisconnectedSpec(t: Tables, ws: Conn)
    requires Consistent(t)
    ensures var t' := Disconnected(t, ws);
            && Consistent(t')
            && ws !in t'.roomOf
            && (forall r | r in t'.rooms :: ws !in t'.rooms[r])
            && (forall c | c != ws :: (c in t'.roomOf <==> c in t.roomOf)
                                      && (c in t.roomOf ==> t'.roomOf[c] == t.roomOf[c]))
            && (ws !in t.roomOf ==> t' == t)
            && (ws in t.roomOf ==>
                  var r := t.roomOf[ws];
                  && ActiveUsers(t', r) == ActiveUsers(t, r) - 1
                  && (r in t'.rooms <==> ActiveUsers(t, r) > 1)
                  && (forall r' | r' != r :: Members(t', r') == Members(t, r') && (r' in t'.rooms <==> r' in t.rooms)))
  {
    if ws in t.roomOf {
      var r := t.roomOf[ws];
      RemoveFirstSpec(t.rooms[r], ws);
      var t' := Disconnected(t, ws);
      forall r', i | r' in t'.rooms && 0 <= i < |t'.rooms[r']|
        ensures t'.rooms[r'][i] in t'.roomOf && t'.roomOf[t'.rooms[r'][i]] == r'
      {
        var c := t'.rooms[r'][i];
        if r' == r {
          assert c in RemoveFirst(t.rooms[r], ws);
          var k :| 0 <= k < |t.rooms[r]| && t.rooms[r][k] == c;
        } else {
          assert c in t.rooms[r'];
          assert c != ws;
        }
      }
      forall c | c in t'.roomOf ensures t'.roomOf[c] in t'.rooms && c in t'.rooms[t'.roomOf[c]] {
        assert c != ws;
        if t.roomOf[c] == r {
          assert c in RemoveFirst(t.rooms[r], ws);
        }
      }
      forall r' | r' in t'.rooms && r' != r ensures ws !in t'.rooms[r'] {
        forall k | 0 <= k < |t.rooms[r']| ensures t.rooms[r'][k] != ws {
          assert t.roomOf[t.rooms[r'][k]] == r';
        }
      }
    } else {
      forall r' | r' in t.rooms ensures ws !in t.rooms[r'] {
        forall k | 0 <= k < |t.rooms[r']| ensures t.rooms[r'][k] != ws {
          assert t.rooms[r'][k] in t.roomOf;
        }
      }
    }
  }

  /** Round trip: a socket that connects and then disconnects leaves the
      tables exactly as they were. */
  lemma ConnectThenDisconnect(t: Tables, ws: Conn, r: RoomId)
    requires Consistent(t) && ws !in t.roomOf && r != []
    ensures Disconnected(Connected(t, ws, r), ws) == t
  {
    var t1 := Connected(t, ws, r);
    NewcomerNotListed(t, ws, r);
    RemoveFirstAppended(Members(t, r), ws);
    var t2 := Disconnected(t1, ws);
    assert t2.roomOf == t.roomOf;
    if r in t.rooms {
      assert t2.rooms == t.rooms[r := t.rooms[r]];
    } else {
      assert t2.rooms == t.rooms;
    }
  }

  /** A socket with no recorded room is in no member list. */
  lemma NewcomerNotListed(t: Tables, ws: Conn, r: RoomId)
    requires Consistent(t) && ws !in t.roomOf
    ensures ws !in Members(t, r)
  {
    var s := Members(t, r);
    forall k | 0 <= k < |s| ensures s[k] != ws {
      assert s[k] in t.roomOf;
    }
  }

  /** The members of a list, as a set. */
  function Elements(s: seq<Conn>): set<Conn> {
    set c | c in s
  }

  lemma {:induction false} DistinctCard(s: seq<Conn>)
    requires Distinct(s)
    ensures |Elements(s)| == |s|
    decreases |s|
  {
    if |s| > 0 {
      var init, x := s[..|s| - 1], s[|s| - 1];
      assert Distinct(init) by {
        forall i, j | 0 <= i < j < |init| ensures init[i] != init[j] {
          assert init[i] == s[i] && init[j] == s[j];
        }
      }
      DistinctCard(init);
      assert x !in Elements(init) by {
        forall k | 0 <= k < |init| ensures init[k] != x {
          assert init[k] == s[k];
        }
      }
      assert Elements(s) == Elements(init) + {x} by {
        assert s == init + [x];
      }
    }
  }

  /** The live count of a room is the number of connections whose recorded
      room it is. */
  lemma ActiveUsersCountsMembers(t: Tables, r: RoomId)
    requires Consistent(t)
    ensures ActiveUsers(t, r) == |set c | c in t.roomOf && t.roomOf[c] == r|
  {
    var s := Members(t, r);
    assert (set c | c in t.roomOf && t.roomOf[c] == r) == Elements(s) by {
      forall c | c in s ensures c in t.roomOf && t.roomOf[c] == r {
        var k :| 0 <= k < |s| && s[k] == c;
      }
    }
    DistinctCard(s);
  }

  // ---------------------------------------------------------------------------
  // Fan-out (backend/server.py:62-75)
  // ---------------------------------------------------------------------------

  /** The members other than `exclude`, in list order. */
  function Without(members: seq<Conn>, exclude: Option<Conn>): seq<Conn>
    decreases |members|
  {
    if |members| == 0 then []
    else
      var earlier := Without(members[..|members| - 1], exclude);
      var c := members[|members| - 1];
      if Some(c) == exclude then earlier else earlier + [c]
  }

  /** The sends one broadcast attempts, in order: one per member other than
      `exclude`; a send to a broken socket is attempted and fails. */
  function Fanout(members: seq<Conn>, message: Outgoing, exclude: Option<Conn>, broken: set<Conn>): seq<Delivery> {
    var targets := Without(members, exclude);
    seq(|targets|, i requires 0 <= i < |targets| => Attempt(targets[i], message, broken))
  }

  /** `broadcast_to_room(r, message, exclude)` on the tables `t`. */
  function Broadcast(t: Tables, r: RoomId, message: Outgoing, exclude: Option<Conn>, broken: set<Conn>): seq<Delivery> {
    if r in t.rooms then Fanout(t.rooms[r], message, exclude, broken) else []
  }

  lemma FanoutSnoc(members: seq<Conn>, c: Conn, message: Outgoing, exclude: Option<Conn>, broken: set<Conn>)
    ensures Fanout(members + [c], message, exclude, broken)
         == Fanout(members, message, exclude, broken)
            + (if Some(c) == exclude then [] else [Attempt(c, message, broken)])
  {
    assert (members + [c])[..|members + [c]| - 1] == members;
  }

  /** Who a broadcast reaches: exactly the members other than `exclude`, each
      once when the list has no repetition, in list order; every attempt
      carries the message unchanged, and a failed send does not stop the
      ones after it. */
  lemma {:induction false} WithoutSpec(members: seq<Conn>, exclude: Option<Conn>)
    ensures forall c :: c in Without(members, exclude) <==> c in members && Some(c) != exclude
    ensures exclude == None ==> Without(members, exclude) == members
    ensures Distinct(members) ==> Distinct(Without(members, exclude))
    ensures Distinct(members) && exclude.Some? && exclude.value in members ==>
              |Without(members, exclude)| == |members| - 1
    ensures exclude.Some? && exclude.value !in members ==> Without(members, exclude) == members
    decreases |members|
  {
    if |members| > 0 {
      var init := members[..|members| - 1];
      var c := members[|members| - 1];
      assert members == init + [c];
      WithoutSpec(init, exclude);
      if Distinct(members) {
        assert c !in init;
        if exclude.Some? && exclude.value in members && exclude.value != c {
          assert exclude.value in init;
        }
      }
    }
  }

  /** The targets keep list order: the targets of a concatenation are the
      targets of the first part followed by those of the second. */
  lemma {:induction false} WithoutAppend(a: seq<Conn>, b: seq<Conn>, exclude: Option<Conn>)
    ensures Without(a + b, exclude) == Without(a, exclude) + Without(b, exclude)
    decreases |b|
  {
    if |b| == 0 {
      assert a + b == a;
    } else {
      var init, c := b[..|b| - 1], b[|b| - 1];
      assert (a + b)[..|a + b| - 1] == a + init;
      WithoutAppend(a, init, exclude);
    }
  }

  lemma FanoutSpec(members: seq<Conn>, message: Outgoing, exclude: Option<Conn>, broken: set<Conn>)
    ensures var sends := Fanout(members, message, exclude, broken);
            && (forall d | d in sends :: d.message == message && d.delivered == (Encodable(message) && d.to !in broken)
                                       && d.to in members && Some(d.to) != exclude)
            && (forall c | c in members && Some(c) != exclude :: exists d | d in sends :: d.to == c)
            && (Distinct(members) && exclude.Some? && exclude.value in members ==> |sends| == |members| - 1)
  {
    WithoutSpec(members, exclude);
    var sends := Fanout(members, message, exclude, broken);
    var targets := Without(members, exclude);
    forall c | c in members && Some(c) != exclude ensures exists d | d in sends :: d.to == c {
      var k :| 0 <= k < |targets| && targets[k] == c;
      assert sends[k].to == c;
    }
  }

  // ---------------------------------------------------------------------------
  // Room lookups (backend/server.py:95-119)
  // ---------------------------------------------------------------------------

  /** `get_room`: the stored record with `active_users` replaced by the live
      count, or the error record when the store has no such room. */
  function GetRoom(t: Tables, store: map<RoomId, RoomDoc>, r: RoomId): (reply: RoomReply)
    ensures reply.RoomNotFound? <==> r !in store
    ensures reply.RoomFound? ==> reply.room == store[r].(activeUsers := ActiveUsers(t, r))
  {
    if r !in store then RoomNotFound else RoomFound(store[r].(activeUsers := ActiveUsers(t, r)))
  }

  /** The count a room reports grows by one when a socket connects to it and
      falls back when that socket disconnects. */
  lemma ReportedCountFollowsConnections(t: Tables, store: map<RoomId, RoomDoc>, ws: Conn, r: RoomId)
    requires Consistent(t) && ws !in t.roomOf && r != [] && r in store
    ensures GetRoom(Connected(t, ws, r), store, r).room.activeUsers
         == GetRoom(t, store, r).room.activeUsers + 1
    ensures GetRoom(Disconnected(Connected(t, ws, r), ws), store, r) == GetRoom(t, store, r)
  {
    ConnectedSpec(t, ws, r);
    ConnectThenDisconnect(t, ws, r);
  }

  // ---------------------------------------------------------------------------
  // Routing in the endpoint (backend/server.py:126-139)
  // ---------------------------------------------------------------------------

  /** The sends triggered by one object frame from `ws` in room `r`:
      negotiation frames go unchanged to the other members, `join` gets the
      room record back, anything else is ignored. The tables do not change. */
  function Route(t: Tables, ws: Conn, r: RoomId, frame: Frame, store: map<RoomId, RoomDoc>, broken: set<Conn>): seq<Delivery> {
    if frame.kind.Some? && frame.kind.value in RelayedKinds then
      Broadcast(t, r, Relayed(frame), Some(ws), broken)
    else if frame.kind == Some(JoinKind) then
      [Attempt(ws, RoomInfo(GetRoom(t, store, r)), broken)]
    else []
  }

  /** What routing promises: a negotiation frame reaches every other member
      of the room exactly once, unchanged, and never the sender; `join` is
      answered to the sender alone with the room record, a reply that arrives
      only for an unknown room; every other frame causes no send. */
  lemma RouteSpec(t: Tables, ws: Conn, r: RoomId, frame: Frame, store: map<RoomId, RoomDoc>, broken: set<Conn>)
    requires Consistent(t) && ws in t.roomOf && t.roomOf[ws] == r
    ensures var sends := Route(t, ws, r, frame, store, broken);
            && (frame.kind.Some? && frame.kind.value in RelayedKinds ==>
                  && |sends| == ActiveUsers(t, r) - 1
                  && (forall d | d in sends :: d.message == Relayed(frame) && d.to != ws && d.to in Members(t, r))
                  && (forall c | c in Members(t, r) && c != ws :: exists d | d in sends :: d.to == c))
            && (frame.kind == Some(JoinKind) ==>
                  && sends == [Attempt(ws, RoomInfo(GetRoom(t, store, r)), broken)]
                  && (sends[0].delivered <==> r !in store && ws !in broken))
            && (frame.kind.None? || (frame.kind.value !in RelayedKinds && frame.kind.value != JoinKind) ==>
                  sends == [])
  {
    FanoutSpec(t.rooms[r], Relayed(frame), Some(ws), broken);
  }

  /** As written: a socket in a room the store holds asks for the room with
      `join`, and the one reply it is owed never arrives, although its socket
      works. */
  lemma StoredRoomReplyLost()
    ensures var t := Connected(Tables(map[], map[]), 7, "ABC123");
            var store := map["ABC123" := RoomDoc("ABC123", "Friends", 1700000000, 0)];
            var sends := Route(t, 7, "ABC123", Frame(Some(JoinKind), ""), store, {});
            && |sends| == 1 && sends[0].to == 7
            && sends[0].message == RoomInfo(RoomFound(RoomDoc("ABC123", "Friends", 1700000000, 1)))
            && !sends[0].delivered
  {
  }

  /** Corrected routing: the `join` reply carries the record with
      `created_at` encoded as text, so `json.dumps` accepts it; every other
      frame is routed as before. */
  function RouteEncoded(t: Tables, ws: Conn, r: RoomId, frame: Frame, store: map<RoomId, RoomDoc>, broken: set<Conn>): seq<Delivery> {
    if frame.kind == Some(JoinKind) then [Attempt(ws, EncodedRoomInfo(GetRoom(t, store, r)), broken)]
    else Route(t, ws, r, frame, store, broken)
  }

  /** With the record encoded, every send routing causes reaches its target
      exactly when that socket works, and a `join` is answered with the room
      record and its live count, known room or not. */
  lemma EncodedRouteDelivers(t: Tables, ws: Conn, r: RoomId, frame: Frame, store: map<RoomId, RoomDoc>, broken: set<Conn>)
    ensures forall d | d in RouteEncoded(t, ws, r, frame, store, broken) :: d.delivered <==> d.to !in broken
    ensures frame.kind == Some(JoinKind) ==>
              RouteEncoded(t, ws, r, frame, store, broken)
              == [Delivery(ws, EncodedRoomInfo(GetRoom(t, store, r)), ws !in broken)]
  {
    if frame.kind.Some? && frame.kind.value in RelayedKinds {
      FanoutSpec(Members(t, r), Relayed(frame), Some(ws), broken);
    }
  }

  // ---------------------------------------------------------------------------
  // The session of one socket (backend/server.py:122-149)
  // ---------------------------------------------------------------------------

  /** How the receive loop ends. */
  datatype Exit = StillOpen | ClientClosed | HandlerFailed

  /** The loop runs until the client goes away or a frame fails to parse as a
      JSON object (`json.loads` or `.get` raises, which the endpoint does not
      catch). */
  function SessionExit(events: seq<Received>): Exit
    decreases |events|
  {
    if |events| == 0 then StillOpen
    else match events[0]
      case ClientGone => ClientClosed
      case TextFrame(JsonObject(_)) => SessionExit(events[1..])
      case TextFrame(_) => HandlerFailed
  }

  /** The frames the loop routes before it ends. */
  function Processed(events: seq<Received>): seq<Frame>
    decreases |events|
  {
    if |events| == 0 then []
    else match events[0]
      case TextFrame(JsonObject(frame)) => [frame] + Processed(events[1..])
      case _ => []
  }

  /** The sends of routing `frames` in order on unchanging tables. */
  function RouteAll(t: Tables, ws: Conn, r: RoomId, frames: seq<Frame>, store: map<RoomId, RoomDoc>, broken: set<Conn>): seq<Delivery>
    decreases |frames|
  {
    if |frames| == 0 then []
    else Route(t, ws, r, frames[0], store, broken) + RouteAll(t, ws, r, frames[1..], store, broken)
  }

  lemma {:induction false} RouteAllAppend(t: Tables, ws: Conn, r: RoomId, frames: seq<Frame>, more: seq<Frame>,
                                          store: map<RoomId, RoomDoc>, broken: set<Conn>)
    ensures RouteAll(t, ws, r, frames + more, store, broken)
         == RouteAll(t, ws, r, frames, store, broken) + RouteAll(t, ws, r, more, store, broken)
    decreases |frames|
  {
    if |frames| == 0 {
      assert frames + more == more;
    } else {
      assert (frames + more)[1..] == frames[1..] + more;
      RouteAllAppend(t, ws, r, frames[1..], more, store, broken);
    }
  }

  /** One turn of the receive loop, at position `i` of the events: the
      loop's exit and routed frames so far extend by those of `events[i]`. */
  lemma SessionLoopStep(t: Tables, ws: Conn, r: RoomId, events: seq<Received>, i: nat, routed: seq<Frame>,
                        store: map<RoomId, RoomDoc>, broken: set<Conn>)
    requires i < |events|
    ensures SessionExit([events[i]]) == StillOpen ==> SessionExit(events[i..]) == SessionExit(events[i + 1..])
    ensures SessionExit([events[i]]) != StillOpen ==> SessionExit(events[i..]) == SessionExit([events[i]])
    ensures Processed(events[i..])
         == Processed([events[i]]) + (if SessionExit([events[i]]) == StillOpen then Processed(events[i + 1..]) else [])
    ensures RouteAll(t, ws, r, routed + Processed([events[i]]), store, broken)
         == RouteAll(t, ws, r, routed, store, broken) + RouteAll(t, ws, r, Processed([events[i]]), store, broken)
  {
    assert events[i..][0] == events[i];
    assert events[i..][1..] == events[i + 1..];
    assert [events[i]][1..] == [];
    RouteAllAppend(t, ws, r, routed, Processed([events[i]]), store, broken);
  }

  /** The `user_joined` announcement `connect` sends. */
  function JoinAnnouncement(t: Tables, ws: Conn, r: RoomId, broken: set<Conn>): seq<Delivery> {
    Announce(Connected(t, ws, r), ws, r, broken)
  }

  /** The `user_joined` broadcast on the tables just after `ws` joined `r`. */
  function Announce(joined: Tables, ws: Conn, r: RoomId, broken: set<Conn>): seq<Delivery> {
    Broadcast(joined, r, UserJoined(r, ActiveUsers(joined, r)), Some(ws), broken)
  }

  /** The `user_left` announcement after a disconnect: sent to everyone still
      in the room, and only if the room still exists. */
  function LeaveAnnouncement(t: Tables, r: RoomId, broken: set<Conn>): seq<Delivery> {
    Broadcast(t, r, UserLeft(r, ActiveUsers(t, r)), None, broken)
  }

  /** The tables after a whole session, as written: only a client disconnect
      runs `disconnect`. */
  function SessionTables(t: Tables, ws: Conn, r: RoomId, events: seq<Received>): Tables {
    var joined := Connected(t, ws, r);
    if SessionExit(events) == ClientClosed then Disconnected(joined, ws) else joined
  }

  /** Every send of a whole session, in order. */
  function SessionSends(t: Tables, ws: Conn, r: RoomId, events: seq<Received>, store: map<RoomId, RoomDoc>, broken: set<Conn>): seq<Delivery> {
    var joined := Connected(t, ws, r);
    JoinAnnouncement(t, ws, r, broken)
    + RouteAll(joined, ws, r, Processed(events), store, broken)
    + (if SessionExit(events) == ClientClosed then LeaveAnnouncement(Disconnected(joined, ws), r, broken) else [])
  }

  /** The tables after a session if every way out of the loop ran the
      disconnect path (a `finally` in place of `except WebSocketDisconnect`). */
  function SessionTablesWithCleanup(t: Tables, ws: Conn, r: RoomId, events: seq<Received>): Tables {
    var joined := Connected(t, ws, r);
    if SessionExit(events) != StillOpen then Disconnected(joined, ws) else joined
  }

  /** `connect` announces the newcomer, with the new count, to exactly the
      members that were already in the room, in their order, and never to the
      newcomer itself. */
  lemma JoinAnnouncementSpec(t: Tables, ws: Conn, r: RoomId, broken: set<Conn>)
    requires Consistent(t) && ws !in t.roomOf && r != []
    ensures var sends := JoinAnnouncement(t, ws, r, broken);
            && |sends| == |Members(t, r)|
            && forall i | 0 <= i < |sends| ::
                 sends[i] == Delivery(Members(t, r)[i], UserJoined(r, ActiveUsers(t, r) + 1), Members(t, r)[i] !in broken)
  {
    ConnectedSpec(t, ws, r);
    var old_ := Members(t, r);
    NewcomerNotListed(t, ws, r);
    assert Connected(t, ws, r).rooms[r] == old_ + [ws];
    assert (old_ + [ws])[..|old_ + [ws]| - 1] == old_;
    WithoutSpec(old_, Some(ws));
  }

  /** The disconnect path leaves the tables as they were before the session
      whichever way the session ended. */
  lemma CleanupRestoresTables(t: Tables, ws: Conn, r: RoomId, events: seq<Received>)
    requires Consistent(t) && ws !in t.roomOf && r != []
    requires SessionExit(events) != StillOpen
    ensures SessionTablesWithCleanup(t, ws, r, events) == t
  {
    ConnectThenDisconnect(t, ws, r);
  }

  /** As written, a frame that is not JSON ends the session without
      `disconnect`: the dead socket stays a member of its room and keeps being
      counted. */
  lemma BadFrameLeavesStaleMember()
    ensures var t := SessionTables(Tables(map[], map[]), 7, "ABC123", [TextFrame(NotJson)]);
            && 7 in t.roomOf && t.roomOf[7] == "ABC123"
            && ActiveUsers(t, "ABC123") == 1
  {
  }

  /** Regrouping a concatenation; stated once so the loop proofs below need
      not unfold the sequences. */
  lemma ConcatAssoc<T>(a: seq<T>, b: seq<T>, c: seq<T>)
    ensures a + b + c == a + (b + c)
  {
  }

  // ---------------------------------------------------------------------------
  // The manager (backend/server.py:30-75) and the endpoint loop
  // ---------------------------------------------------------------------------

  class ConnectionManager {
    var activeConnections: map<RoomId, seq<Conn>>
    var connectionRooms: map<Conn, RoomId>
    /** Every send attempted, in order. */
    var outbox: seq<Delivery>

    function CurrentTables(): Tables
      reads this
    {
      Tables(activeConnections, connectionRooms)
    }

    predicate Valid()
      reads this
    {
      Consistent(CurrentTables())
    }

    constructor ()
      ensures Valid() && activeConnections == map[] && connectionRooms == map[] && outbox == []
    {
      activeConnections, connectionRooms, outbox := map[], map[], [];
    }

    /** `connect`: appends `ws` to its room, records its room, and announces
      the new count to the room's other members. */
    method Connect(ws: Conn, roomId: RoomId, broken: set<Conn>)
      requires Valid() && ws !in connectionRooms && roomId != []
      modifies this
      ensures Valid()
      ensures CurrentTables() == Connected(old(CurrentTables()), ws, roomId)
      ensures outbox == old(outbox) + Announce(CurrentTables(), ws, roomId, broken)
    {
      ghost var t := CurrentTables();
      ConnectedSpec(t, ws, roomId);
      var members := if roomId in activeConnections then activeConnections[roomId] else [];
      activeConnections := activeConnections[roomId := members + [ws]];
      connectionRooms := connectionRooms[ws := roomId];
      assert CurrentTables() == Connected(t, ws, roomId);
      BroadcastToRoom(roomId, UserJoined(roomId, |members + [ws]|), Some(ws), broken);
    }

    /** `disconnect`: removes `ws` from its room and from the reverse index,
      deleting the room if it is left empty. */
    method Disconnect(ws: Conn)
      requires Valid()
      modifies this
      ensures Valid()
      ensures CurrentTables() == Disconnected(old(CurrentTables()), ws)
      ensures outbox == old(outbox)
    {
      DisconnectedSpec(CurrentTables(), ws);
      var roomId := if ws in connectionRooms then Some(connectionRooms[ws]) else None;
      if roomId.Some? && roomId.value != [] && roomId.value in activeConnections {
        var r := roomId.value;
        activeConnections := activeConnections[r := RemoveFirst(activeConnections[r], ws)];
        if ws in connectionRooms {
          connectionRooms := connectionRooms - {ws};
        }
        if activeConnections[r] == [] {
          activeConnections := activeConnections - {r};
        }
      }
    }

    /** `send_personal_message`: one attempt; a failure to encode or to send
      is swallowed. */
    method SendPersonalMessage(message: Outgoing, ws: Conn, broken: set<Conn>)
      modifies this
      ensures CurrentTables() == old(CurrentTables())
      ensures outbox == old(outbox) + [Attempt(ws, message, broken)]
    {
      outbox := outbox + [Attempt(ws, message, broken)];
    }

    /** `broadcast_to_room`: one attempt per member other than `exclude`, in
      list order; failures are swallowed and the loop goes on. */
    method BroadcastToRoom(roomId: RoomId, message: Outgoing, exclude: Option<Conn>, broken: set<Conn>)
      modifies this
      ensures CurrentTables() == old(CurrentTables())
      ensures outbox == old(outbox) + Broadcast(old(CurrentTables()), roomId, message, exclude, broken)
    {
      if roomId in activeConnections {
        var members := activeConnections[roomId];
        var i := 0;
        while i < |members|
          invariant 0 <= i <= |members|
          invariant CurrentTables() == old(CurrentTables())
          invariant outbox == old(outbox) + Fanout(members[..i], message, exclude, broken)
        {
          var connection := members[i];
          FanoutSnoc(members[..i], connection, message, exclude, broken);
          assert members[..i + 1] == members[..i] + [connection];
          if Some(connection) != exclude {
            outbox := outbox + [Attempt(connection, message, broken)];
          }
          i := i + 1;
        }
        assert members[..i] == members;
      }
    }

    /** `get_rooms`: the first hundred stored records, each with its live
      count. */
    method GetRooms(stored: seq<RoomDoc>) returns (rooms: seq<RoomDoc>)
      ensures |rooms| == if |stored| < RoomLimit then |stored| else RoomLimit
      ensures forall i | 0 <= i < |rooms| ::
                rooms[i] == stored[i].(activeUsers := ActiveUsers(CurrentTables(), stored[i].id))
    {
      var fetched := if |stored| < RoomLimit then stored else stored[..RoomLimit];
      rooms := [];
      var i := 0;
      while i < |fetched|
        invariant 0 <= i <= |fetched|
        invariant |rooms| == i
        invariant forall k | 0 <= k < i ::
                    rooms[k] == fetched[k].(activeUsers := |if fetched[k].id in activeConnections then activeConnections[fetched[k].id] else []|)
      {
        var room := fetched[i];
        var count := |if room.id in activeConnections then activeConnections[room.id] else []|;
        rooms := rooms + [room.(activeUsers := count)];
        i := i + 1;
      }
    }

    /** One pass of the endpoint loop on a parsed object frame from `ws`. */
    method HandleFrame(ws: Conn, roomId: RoomId, frame: Frame, store: map<RoomId, RoomDoc>, broken: set<Conn>)
      modifies this
      ensures CurrentTables() == old(CurrentTables())
      ensures outbox == old(outbox) + Route(old(CurrentTables()), ws, roomId, frame, store, broken)
    {
      if frame.kind.Some? && frame.kind.value in RelayedKinds {
        BroadcastToRoom(roomId, Relayed(frame), Some(ws), broken);
      } else if frame.kind == Some(JoinKind) {
        var roomInfo := GetRoom(CurrentTables(), store, roomId);
        SendPersonalMessage(RoomInfo(roomInfo), ws, broken);
      }
    }

    /** One turn of the receive loop: an object frame is routed and the loop
      goes on; a client disconnect or a frame that does not parse ends it. */
    method ReceiveOne(ws: Conn, roomId: RoomId, event: Received, store: map<RoomId, RoomDoc>, broken: set<Conn>)
      returns (exit: Exit)
      modifies this
      ensures exit == SessionExit([event])
      ensures CurrentTables() == old(CurrentTables())
      ensures outbox == old(outbox) + RouteAll(old(CurrentTables()), ws, roomId, Processed([event]), store, broken)
    {
      match event {
        case ClientGone =>
          exit := ClientClosed;
        case TextFrame(JsonObject(frame)) =>
          HandleFrame(ws, roomId, frame, store, broken);
          exit := StillOpen;
          assert Processed([event]) == [frame];
        case TextFrame(_) =>
          exit := HandlerFailed;
      }
    }

    /** The receive loop of `websocket_endpoint`: route each object frame
      until the client goes away or a frame fails to parse. The tables do not
      change while the loop runs. */
    method ReceiveLoop(ws: Conn, roomId: RoomId, events: seq<Received>, store: map<RoomId, RoomDoc>, broken: set<Conn>)
      returns (exit: Exit)
      modifies this
      ensures exit == SessionExit(events)
      ensures CurrentTables() == old(CurrentTables())
      ensures outbox == old(outbox) + RouteAll(old(CurrentTables()), ws, roomId, Processed(events), store, broken)
    {
      ghost var t, sent := CurrentTables(), outbox;
      ghost var routed: seq<Frame> := [];
      exit := StillOpen;
      var i := 0;
      while i < |events| && exit == StillOpen
        invariant 0 <= i <= |events|
        invariant CurrentTables() == t
        invariant exit == StillOpen ==>
                    SessionExit(events) == SessionExit(events[i..]) && Processed(events) == routed + Processed(events[i..])
        invariant exit != StillOpen ==> SessionExit(events) == exit && Processed(events) == routed
        invariant outbox == sent + RouteAll(t, ws, roomId, routed, store, broken)
      {
        var event := events[i];
        SessionLoopStep(t, ws, roomId, events, i, routed, store, broken);
        ghost var step := Processed([event]);
        ConcatAssoc(sent, RouteAll(t, ws, roomId, routed, store, broken), RouteAll(t, ws, roomId, step, store, broken));
        ConcatAssoc(routed, step, Processed(events[i + 1..]));
        exit := ReceiveOne(ws, roomId, event, store, broken);
        routed := routed + Processed([event]);
        i := i + 1;
      }
      if exit == StillOpen {
        assert events[i..] == [];
        assert Processed(events) == routed + [];
      }
      assert Processed(events) == routed;
    }

    /** The `WebSocketDisconnect` handler: remove the socket and, if its room
      still has members, tell them the new count. */
    method CloseSession(ws: Conn, roomId: RoomId, broken: set<Conn>)
      requires Valid()
      modifies this
      ensures Valid()
      ensures CurrentTables() == Disconnected(old(CurrentTables()), ws)
      ensures outbox == old(outbox) + LeaveAnnouncement(Disconnected(old(CurrentTables()), ws), roomId, broken)
    {
      Disconnect(ws);
      if roomId in activeConnections {
        BroadcastToRoom(roomId, UserLeft(roomId, |activeConnections[roomId]|), None, broken);
      }
    }

    /** `websocket_endpoint` for one socket, over the events it receives, run
      without interleaving with other sockets: connect, run the receive loop,
      and on a client disconnect remove the socket and tell the rest of the
      room. */
    method RunSession(ws: Conn, roomId: RoomId, events: seq<Received>, store: map<RoomId, RoomDoc>, broken: set<Conn>)
      returns (exit: Exit)
      requires Valid() && ws !in connectionRooms && roomId != []
      modifies this
      ensures Valid()
      ensures exit == SessionExit(events)
      ensures CurrentTables() == SessionTables(old(CurrentTables()), ws, roomId, events)
      ensures outbox == old(outbox) + SessionSends(old(CurrentTables()), ws, roomId, events, store, broken)
    {
      ghost var start, sent := CurrentTables(), outbox;
      Connect(ws, roomId, broken);
      ghost var joined := CurrentTables();
      ghost var join := JoinAnnouncement(start, ws, roomId, broken);
      exit := ReceiveLoop(ws, roomId, events, store, broken);
      ghost var route := RouteAll(joined, ws, roomId, Processed(events), store, broken);
      ghost var routed := outbox;
      ghost var leave: seq<Delivery> := [];
      if exit == ClientClosed {
        CloseSession(ws, roomId, broken);
        leave := LeaveAnnouncement(Disconnected(joined, ws), roomId, broken);
      }
      ConcatAssoc(sent, join, route);
      ConcatAssoc(sent, join + route, leave);
    }
  }
}

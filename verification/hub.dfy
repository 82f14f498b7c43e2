/** The in-memory coordinator of the signalling server: three cross-referencing
    registries and the seven event handlers that read and mutate them. Every
    handler runs to completion before the next event is looked at, so each one
    is a pure step from a state to a new state and the emissions it requests.

    A payload field that JavaScript treats as falsy (missing, `null`, `""`)
    is represented by the empty string. */
module Hub {
  import opened OrderedSet
  import opened Messages

  /** A room: the identity recorded as host at creation, and the identities
      currently joined, in the order they joined. */
  datatype Room = Room(host: string, participants: seq<string>)

  /** `users`: identity -> its open connections, in registration order;
      `sockets`: connection -> identity it registered as;
      `rooms`: room id -> room. */
  datatype State = State(
    users: map<string, seq<string>>,
    sockets: map<string, string>,
    rooms: map<string, Room>)

  /** The registries when the process starts. */
  const Initial := State(map[], map[], map[])

  /** The outcome of one handler: the new state and what it emits, in order. */
  datatype Reaction = Reaction(state: State, out: seq<Emission>)

  /** The connections owned by `u`; none when `u` is unknown. */
  function SocketsOf(users: map<string, seq<string>>, u: string): seq<string> {
    if u in users then users[u] else []
  }

  // ---------------------------------------------------------------- register

  /** `register`: records the caller's connection under `username` and
      broadcasts the identities that are online. */
  function Register(s: State, caller: string, username: string): (r: Reaction)
    ensures username == "" ==> r == Reaction(s, [])
    ensures username != "" ==>
      && r.state.users.Keys == s.users.Keys + {username}
      && (forall sid :: sid in r.state.users[username] <==>
            sid in SocketsOf(s.users, username) || sid == caller)
      && |SocketsOf(s.users, username)| <= |r.state.users[username]|
      && r.state.users[username][..|SocketsOf(s.users, username)|] == SocketsOf(s.users, username)
      && (forall u :: u in s.users && u != username ==> r.state.users[u] == s.users[u])
      && r.state.sockets.Keys == s.sockets.Keys + {caller}
      && r.state.sockets[caller] == username
      && (forall sid :: sid in s.sockets && sid != caller ==> r.state.sockets[sid] == s.sockets[sid])
      && r.state.rooms == s.rooms
      && r.out == [Broadcast(OnlineUsers(r.state.users.Keys))]
  {
    if username == "" then Reaction(s, [])
    else
      var users := s.users[username := Add(SocketsOf(s.users, username), caller)];
      Reaction(State(users, s.sockets[caller := username], s.rooms),
               [Broadcast(OnlineUsers(users.Keys))])
  }

  // ------------------------------------------------------------- create-room

  /** The room id `create-room` uses: the supplied one, or else the freshly
      generated one. */
  function ChosenId(roomId: string, generated: string): (r: string)
    ensures roomId != "" ==> r == roomId
    ensures roomId == "" ==> r == generated
  {
    if roomId != "" then roomId else generated
  }

  /** `create-room`: makes sure the room exists (never replacing an existing
      host), adds `host` as a participant and answers the caller with the id.
      `generated` is the value the id generator returned for this event. */
  function CreateRoom(s: State, caller: string, host: string, roomId: string, generated: string): (r: Reaction)
    ensures var id := ChosenId(roomId, generated);
      && r.state.rooms.Keys == s.rooms.Keys + {id}
      && (id in s.rooms ==> r.state.rooms[id].host == s.rooms[id].host)
      && (id !in s.rooms ==> r.state.rooms[id] == Room(host, [host]))
      && host in r.state.rooms[id].participants
      && (forall y :: y in r.state.rooms[id].participants <==>
            y == host || (id in s.rooms && y in s.rooms[id].participants))
      && (forall k :: k in s.rooms && k != id ==> r.state.rooms[k] == s.rooms[k])
      && r.state.users == s.users && r.state.sockets == s.sockets
      && r.out == [ToSocket(caller, RoomCreated(id))]
  {
    var id := ChosenId(roomId, generated);
    var room := if id in s.rooms then s.rooms[id] else Room(host, []);
    var room' := room.(participants := Add(room.participants, host));
    Reaction(s.(rooms := s.rooms[id := room']), [ToSocket(caller, RoomCreated(id))])
  }

  // ------------------------------------------------------------ invite-users

  /** One `ToSocket` emission of `m` per connection in `sids`, in order. */
  function Fanout(sids: seq<string>, m: Msg): (r: seq<Emission>)
    ensures |r| == |sids|
    ensures forall e :: e in r <==> e.ToSocket? && e.msg == m && e.target in sids
  {
    if sids == [] then [] else [ToSocket(sids[0], m)] + Fanout(sids[1..], m)
  }

  /** What inviting one identity emits: the invitation on every connection of
      the invitee, or, when it has none, a not-available notice on the
      inviter's first connection only (nothing when the inviter has none). */
  function InviteOne(users: map<string, seq<string>>, roomId: string, from: string, username: string): (r: seq<Emission>)
    ensures |SocketsOf(users, username)| > 0 ==>
      && |r| == |SocketsOf(users, username)|
      && forall e :: e in r <==>
           e.ToSocket? && e.msg == Invitation(roomId, from) && e.target in SocketsOf(users, username)
    ensures |SocketsOf(users, username)| == 0 && |SocketsOf(users, from)| > 0 ==>
      r == [ToSocket(SocketsOf(users, from)[0], UserNotAvailable(username))]
    ensures |SocketsOf(users, username)| == 0 && |SocketsOf(users, from)| == 0 ==> r == []
  {
    var targets := SocketsOf(users, username);
    if |targets| > 0 then Fanout(targets, Invitation(roomId, from))
    else
      var callerSockets := SocketsOf(users, from);
      if |callerSockets| > 0 then [ToSocket(callerSockets[0], UserNotAvailable(username))] else []
  }

  /** The emissions of `invite-users`, invitee by invitee. Every emission is an
      invitation to a connection of an invitee that is online, or a
      not-available notice naming an offline invitee, on the inviter's first
      connection; and each of those that can be sent is sent. */
  function Invitations(users: map<string, seq<string>>, roomId: string, invited: seq<string>, from: string): (r: seq<Emission>)
    ensures forall e :: e in r ==>
      && e.ToSocket?
      && (|| (e.msg == Invitation(roomId, from) &&
              exists u :: u in invited && e.target in SocketsOf(users, u))
          || (&& e.msg.UserNotAvailable?
              && e.msg.username in invited
              && |SocketsOf(users, e.msg.username)| == 0
              && |SocketsOf(users, from)| > 0
              && e.target == SocketsOf(users, from)[0]))
    ensures forall u, sid :: u in invited && sid in SocketsOf(users, u) ==>
      ToSocket(sid, Invitation(roomId, from)) in r
    ensures forall u :: u in invited && |SocketsOf(users, u)| == 0 && |SocketsOf(users, from)| > 0 ==>
      ToSocket(SocketsOf(users, from)[0], UserNotAvailable(u)) in r
  {
    if invited == [] then []
    else InviteOne(users, roomId, from, invited[0]) + Invitations(users, roomId, invited[1..], from)
  }

  /** `invite-users`: routes invitations and changes no registry. */
  function InviteUsers(s: State, roomId: string, invited: seq<string>, from: string): (r: Reaction)
    ensures r.state == s
    ensures forall e :: e in r.out ==> e.ToSocket? && (e.msg.Invitation? || e.msg.UserNotAvailable?)
  {
    Reaction(s, Invitations(s.users, roomId, invited, from))
  }

  // --------------------------------------------------------------- join-room

  /** The connections of the identities in `participants`, participant by
      participant (the `flatMap` of `join-room`). */
  function ConnectionsOf(users: map<string, seq<string>>, participants: seq<string>): (r: seq<string>)
    ensures forall sid :: sid in r <==> exists u :: u in participants && sid in SocketsOf(users, u)
  {
    if participants == [] then []
    else
      var rest := ConnectionsOf(users, participants[1..]);
      assert forall u :: u in participants[1..] ==> u in participants;
      SocketsOf(users, participants[0]) + rest
  }

  /** Keeps the connection ids that are non-empty and differ from `caller`,
      in order. */
  function Exclude(sids: seq<string>, caller: string): (r: seq<string>)
    ensures forall sid :: sid in r <==> sid in sids && sid != "" && sid != caller
    ensures |r| <= |sids|
  {
    if sids == [] then []
    else if sids[0] != "" && sids[0] != caller then [sids[0]] + Exclude(sids[1..], caller)
    else Exclude(sids[1..], caller)
  }

  /** The `all-users` payload: every connection of every participant except
      the caller's own. */
  function OtherSockets(users: map<string, seq<string>>, participants: seq<string>, caller: string): (r: seq<string>)
    ensures forall sid :: sid in r <==>
      && sid != "" && sid != caller
      && exists u :: u in participants && sid in SocketsOf(users, u)
  {
    Exclude(ConnectionsOf(users, participants), caller)
  }

  /** A join of `username` to `roomId` that adds a participant: the room is
      unknown or `username` is not yet in it. */
  predicate FirstJoin(s: State, roomId: string, username: string) {
    roomId !in s.rooms || username !in s.rooms[roomId].participants
  }

  /** `join-room`: creates an unknown room with the joiner as host, adds the
      joiner if new, sends the caller the other participants' connections, and
      announces the joiner to the room only on a first join. */
  function JoinRoom(s: State, caller: string, roomId: string, username: string): (r: Reaction)
    ensures roomId == "" || username == "" ==> r == Reaction(s, [])
    ensures roomId != "" && username != "" ==>
      && r.state.users == s.users && r.state.sockets == s.sockets
      && r.state.rooms.Keys == s.rooms.Keys + {roomId}
      && (forall k :: k in s.rooms && k != roomId ==> r.state.rooms[k] == s.rooms[k])
      && r.state.rooms[roomId].host == (if roomId in s.rooms then s.rooms[roomId].host else username)
      && username in r.state.rooms[roomId].participants
      && 1 <= |r.out|
      && r.out[0].ToSocket? && r.out[0].target == caller && r.out[0].msg.AllUsers?
      && (forall sid :: sid in r.out[0].msg.socketIds <==>
            && sid != "" && sid != caller
            && exists u :: u in r.state.rooms[roomId].participants && sid in SocketsOf(s.users, u))
    ensures roomId != "" && username != "" && FirstJoin(s, roomId, username) ==>
      && r.state.rooms[roomId].participants ==
           (if roomId in s.rooms then s.rooms[roomId].participants else []) + [username]
      && |r.out| == 2
      && r.out[1] == ToRoomExcept(roomId, caller, UserJoined(caller, username))
    ensures roomId != "" && username != "" && !FirstJoin(s, roomId, username) ==>
      r.state == s && |r.out| == 1
  {
    if roomId == "" || username == "" then Reaction(s, [])
    else
      var room := if roomId in s.rooms then s.rooms[roomId] else Room(username, []);
      if username !in room.participants then
        var room' := room.(participants := Add(room.participants, username));
        var others := OtherSockets(s.users, room'.participants, caller);
        Reaction(s.(rooms := s.rooms[roomId := room']),
                 [ToSocket(caller, AllUsers(others)),
                  ToRoomExcept(roomId, caller, UserJoined(caller, username))])
      else
        Reaction(s, [ToSocket(caller, AllUsers(OtherSockets(s.users, room.participants, caller)))])
  }

  // ------------------------------------------------------------------ signal

  /** `signal`: relays `data` unchanged to one connection, naming the caller
      as its sender; changes no registry. */
  function Signal(s: State, caller: string, toSocketId: string, data: string): (r: Reaction)
    ensures r.state == s
    ensures toSocketId == "" || data == "" ==> r.out == []
    ensures toSocketId != "" && data != "" ==>
      && |r.out| == 1
      && r.out[0].ToSocket? && r.out[0].target == toSocketId
      && r.out[0].msg.SignalRelay? && r.out[0].msg.sender == caller && r.out[0].msg.data == data
  {
    if toSocketId == "" || data == "" then Reaction(s, [])
    else Reaction(s, [ToSocket(toSocketId, SignalRelay(caller, data))])
  }

  // -------------------------------------------------------------- leave-room

  /** `leave-room`: removes `username` from an existing room, tells the room,
      and deletes the room once nobody is left in it. */
  function LeaveRoom(s: State, caller: string, roomId: string, username: string): (r: Reaction)
    ensures roomId == "" || username == "" || roomId !in s.rooms ==> r == Reaction(s, [])
    ensures roomId != "" && username != "" && roomId in s.rooms ==>
      && r.state.users == s.users && r.state.sockets == s.sockets
      && r.out == [ToRoomExcept(roomId, caller, UserLeft(caller, username))]
      && r.state.rooms.Keys <= s.rooms.Keys
      && (forall k :: k in s.rooms && k != roomId ==> k in r.state.rooms && r.state.rooms[k] == s.rooms[k])
      && (roomId in r.state.rooms <==> exists y :: y in s.rooms[roomId].participants && y != username)
      && (roomId in r.state.rooms ==>
            && r.state.rooms[roomId].host == s.rooms[roomId].host
            && forall y :: y in r.state.rooms[roomId].participants <==>
                 y in s.rooms[roomId].participants && y != username)
  {
    if roomId == "" || username == "" || roomId !in s.rooms then Reaction(s, [])
    else
      var room := s.rooms[roomId];
      var room' := room.(participants := Delete(room.participants, username));
      var rooms := if |room'.participants| == 0 then s.rooms - {roomId} else s.rooms[roomId := room'];
      assert |room'.participants| == 0 ==> forall y :: y in room.participants ==> y == username;
      assert |room'.participants| != 0 ==> room'.participants[0] in room.participants;
      Reaction(s.(rooms := rooms), [ToRoomExcept(roomId, caller, UserLeft(caller, username))])
  }

  // -------------------------------------------------------------- disconnect

  /** The connection list of `u` after `sid` closed: `u` is dropped from the
      registry when it has no connection left. */
  function DropSocket(users: map<string, seq<string>>, u: string, sid: string): (r: map<string, seq<string>>)
    ensures u !in users ==> r == users
    ensures u in users ==>
      && (u in r <==> exists x :: x in users[u] && x != sid)
      && (u in r ==> forall x :: x in r[u] <==> x in users[u] && x != sid)
    ensures r.Keys <= users.Keys
    ensures forall v :: v in users && v != u ==> v in r && r[v] == users[v]
  {
    if u !in users then users
    else
      var rest := Delete(users[u], sid);
      assert |rest| == 0 ==> forall x :: x in users[u] ==> x == sid;
      assert |rest| != 0 ==> rest[0] in users[u];
      if |rest| == 0 then users - {u} else users[u := rest]
  }

  /** The rooms and the emissions after one room visit of the disconnect
      cleanup. */
  datatype Eviction = Eviction(rooms: map<string, Room>, out: seq<Emission>)

  /** One visit of the disconnect cleanup: when `u` is a participant of room
      `k`, it is removed, the room is told, and an emptied room is deleted. */
  function EvictOne(rooms: map<string, Room>, k: string, u: string, caller: string): (r: Eviction)
    ensures k !in rooms || u !in rooms[k].participants ==> r == Eviction(rooms, [])
    ensures k in rooms && u in rooms[k].participants ==>
      && r.out == [ToRoomExcept(k, caller, UserLeft(caller, u))]
      && r.rooms.Keys <= rooms.Keys
      && (forall j :: j in rooms && j != k ==> j in r.rooms && r.rooms[j] == rooms[j])
      && (k in r.rooms <==> exists y :: y in rooms[k].participants && y != u)
      && (k in r.rooms ==>
            && r.rooms[k].host == rooms[k].host
            && forall y :: y in r.rooms[k].participants <==> y in rooms[k].participants && y != u)
  {
    if k in rooms && u in rooms[k].participants then
      var room' := rooms[k].(participants := Delete(rooms[k].participants, u));
      assert |room'.participants| == 0 ==> forall y :: y in rooms[k].participants ==> y == u;
      assert |room'.participants| != 0 ==> room'.participants[0] in rooms[k].participants;
      Eviction(if |room'.participants| == 0 then rooms - {k} else rooms[k := room'],
               [ToRoomExcept(k, caller, UserLeft(caller, u))])
    else Eviction(rooms, [])
  }

  /** The disconnect cleanup visiting the rooms in the order `keys`: it never
      creates a room or a participant, leaves the rooms it does not visit
      alone, leaves `u` in none of the rooms it visits, and only ever tells a
      visited room that `u` left. */
  function Evict(rooms: map<string, Room>, keys: seq<string>, u: string, caller: string): (r: Eviction)
    ensures r.rooms.Keys <= rooms.Keys
    ensures forall k, y :: k in r.rooms && y in r.rooms[k].participants ==> y in rooms[k].participants
    ensures forall k :: k in rooms && k !in keys ==> k in r.rooms && r.rooms[k] == rooms[k]
    ensures forall k :: k in keys && k in r.rooms ==> u !in r.rooms[k].participants
    ensures forall e :: e in r.out ==>
      e.ToRoomExcept? && e.roomId in keys && e.except == caller && e.msg == UserLeft(caller, u)
    decreases |keys|
  {
    if keys == [] then Eviction(rooms, [])
    else
      var first := EvictOne(rooms, keys[0], u, caller);
      var rest := Evict(first.rooms, keys[1..], u, caller);
      Eviction(rest.rooms, first.out + rest.out)
  }

  /** Connection close: forgets the connection, drops the identity when this
      was its last connection and only then removes the identity from its
      rooms; broadcasts who is online. `roomKeys` is the order in which the
      runtime enumerates the room ids (`Object.keys(rooms)`). */
  function Disconnect(s: State, caller: string, roomKeys: seq<string>): (r: Reaction)
    ensures caller !in s.sockets || s.sockets[caller] == "" ==> r == Reaction(s, [])
    ensures caller in s.sockets && s.sockets[caller] != "" ==>
      && r.state.sockets == s.sockets - {caller}
      && r.state.users == DropSocket(s.users, s.sockets[caller], caller)
      && |r.out| >= 1 && r.out[|r.out| - 1] == Broadcast(OnlineUsers(r.state.users.Keys))
      && (s.sockets[caller] in r.state.users ==>
            r.state.rooms == s.rooms && |r.out| == 1)
  {
    if caller !in s.sockets || s.sockets[caller] == "" then Reaction(s, [])
    else
      var u := s.sockets[caller];
      var users := DropSocket(s.users, u, caller);
      var ev := if u in users then Eviction(s.rooms, []) else Evict(s.rooms, roomKeys, u, caller);
      Reaction(State(users, s.sockets - {caller}, ev.rooms),
               ev.out + [Broadcast(OnlineUsers(users.Keys))])
  }

  /** `keys` names every room of `s`, as `Object.keys(rooms)` does when a
      connection closes. */
  predicate ListsAllRooms(s: State, keys: seq<string>) {
    forall k :: k in s.rooms ==> k in keys
  }

  // -------------------------------------------------------------- dispatch

  /** The inbound events with their payloads. `generated` is the id the
      generator returned for a `create-room` without an id; `roomKeys` is the
      runtime's enumeration order of the room ids when a connection closes. */
  datatype Event =
    | OnRegister(username: string)
    | OnCreateRoom(host: string, roomId: string, generated: string)
    | OnInviteUsers(roomId: string, invited: seq<string>, from: string)
    | OnJoinRoom(roomId: string, username: string)
    | OnSignal(toSocketId: string, data: string)
    | OnLeaveRoom(roomId: string, username: string)
    | OnDisconnect(roomKeys: seq<string>)

  /** An event together with the connection it arrived on. */
  datatype Input = Input(caller: string, event: Event)

  /** The handler for one event. Only `register` and `disconnect` touch the
      identity and connection registries; `invite-users` and `signal` touch
      no registry at all; `disconnect` never adds a connection or a room. */
  function Step(s: State, i: Input): (r: Reaction)
    ensures i.event.OnInviteUsers? || i.event.OnSignal? ==> r.state == s
    ensures i.event.OnCreateRoom? || i.event.OnJoinRoom? || i.event.OnLeaveRoom? ==>
      r.state.users == s.users && r.state.sockets == s.sockets
    ensures i.event.OnRegister? ==> r.state.rooms == s.rooms && s.sockets.Keys <= r.state.sockets.Keys
    ensures i.event.OnDisconnect? ==>
      r.state.sockets.Keys <= s.sockets.Keys && r.state.users.Keys <= s.users.Keys
      && r.state.rooms.Keys <= s.rooms.Keys
  {
    match i.event
    case OnRegister(u) => Register(s, i.caller, u)
    case OnCreateRoom(h, id, g) => CreateRoom(s, i.caller, h, id, g)
    case OnInviteUsers(id, inv, f) => InviteUsers(s, id, inv, f)
    case OnJoinRoom(id, u) => JoinRoom(s, i.caller, id, u)
    case OnSignal(t, d) => Signal(s, i.caller, t, d)
    case OnLeaveRoom(id, u) => LeaveRoom(s, i.caller, id, u)
    case OnDisconnect(keys) => Disconnect(s, i.caller, keys)
  }

  /** The state after handling `inputs` one after another. */
  function Run(s: State, inputs: seq<Input>): State
    decreases |inputs|
  {
    if inputs == [] then s else Run(Step(s, inputs[0]).state, inputs[1..])
  }
}

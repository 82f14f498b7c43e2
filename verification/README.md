# Signalling hub: a Dafny model

This project models the in-memory coordinator of a WebRTC signalling server.
The coordinator keeps three cross-referencing registries:

- `users`: identity → its open connections;
- `sockets`: connection → the identity it registered as;
- `rooms`: room id → host and participant identities.

Seven event handlers read and mutate these registries and decide what to emit:
`register`, `create-room`, `invite-users`, `join-room`, `signal`, `leave-room` and connection close.
The runtime handles one event to completion before the next.
So each handler is a pure function `State × caller × payload → Reaction`.
A `Reaction` holds the new state and the emissions in order.

Files:

- `ordered_set.dfy`, module `OrderedSet`: JavaScript `Set` semantics. An insertion-ordered sequence without duplicates, with `Add` and `Delete`. Order is kept so that "the inviter's first connection" and the order of `all-users` are exact.
- `messages.dfy`, module `Messages`: outbound events. Each is addressed `ToSocket(sid, msg)`, `ToRoomExcept(roomId, sid, msg)` (`socket.to(room)`) or `Broadcast(msg)` (`io.emit`).
- `hub.dfy`, module `Hub`: the state, the seven handlers, a dispatcher `Step` and `Run` over a sequence of inputs.
- `invariants.dfy`, module `Invariants`: the invariants every handler keeps. It also holds the coherence of `users` and `sockets`, and the re-registration quirk that breaks it.
- `properties.dfy`, module `Properties`: the disconnect cleanup against an order-free reference description, idempotent disconnect, two round trips and silent re-join.
- `scenarios.dfy`, module `Scenarios`: concrete walkthroughs with literal states.

Modelling conventions:

- A payload field that JavaScript treats as falsy (missing, `null`, `""`) is the empty string.
- The id returned by `uuidv4()` is an input of `create-room` (`generated`). It is used only when no id is supplied.
- The order in which `Object.keys(rooms)` enumerates room ids during a disconnect is an input of that event (`roomKeys`). Properties that need every room visited require `ListsAllRooms(s, roomKeys)`: every room id of the state appears in `roomKeys`. The invariants and `Run` are stated for every `roomKeys`, so they also cover runs whose disconnects list only some rooms.

Two behaviours of the code are worth noting:

- `signal` also drops the event when `data` is falsy, not only when the target is missing.
- `leave-room` is a no-op for a falsy `roomId` or `username`, as well as for an unknown room. It emits `user-left` even when `username` was not a participant.

Re-registering a connection under a second name overwrites `sockets[sid]`.
It does not remove `sid` from the first identity's list (server.js:24-28).
The model keeps this behaviour, and two invariants reflect it:

- `Inv` holds in every state: `sockets[sid] == u ⇒ sid ∈ users[u]`.
- The converse (`Coherent`) is proved only for runs in which no connection changes its name (`SingleNameRun`).
- `RenameLeavesStaleSocket` shows what happens otherwise. After such a rename the connection closes, yet the first identity stays online and owns the closed connection.

## Model

| member | source | states |
|---|---|---|
| OrderedSet.Add | server.js:26-27 | Adding to a JS Set: afterwards the elements are the old ones plus `x`. Existing elements keep their positions, so the first stays first. No duplicate is introduced. |
| OrderedSet.Delete | server.js:125-128 | Deleting from a JS Set: afterwards the elements are the old ones minus `x`. Deleting an absent element changes nothing. The size drops by exactly one when `x` was present, and no duplicate is introduced. |
| OrderedSet.DeleteAppend | server.js:125-128 | Deleting from a concatenation deletes from each part and keeps the parts in order. |
| OrderedSet.DeleteKeepsOrder | server.js:125-128 | Deleting the single occurrence of `x` from `a + [x] + b` gives `a + b`: the other elements keep their relative order. |
| OrderedSet.DeleteAdd | server.js:24-28 | Adding a new connection and deleting it again restores the original list, in its original order. |
| Hub.Register | server.js:24-32 | An empty name changes nothing and emits nothing. Otherwise the caller's connection is appended to `users[username]`, which is created if absent; earlier connections keep their order. `sockets[caller] == username`, and no other user, socket or room changes. One broadcast `onlineUsers` carries exactly the identities in `users`. |
| Hub.ChosenId | server.js:35 | The room id is the supplied id when it is non-empty, and the generated id otherwise. |
| Hub.CreateRoom | server.js:34-44 | The room id is the supplied id when non-empty, else the generated one. An existing room keeps its host; a new room gets host `host` and participants `[host]`. Afterwards `host` is a participant and the participant set is the old one plus `host`. Other rooms and both identity registries are unchanged. Only the caller gets `room-created` with that id. |
| Hub.Fanout | server.js:51-53 | One emission per connection given. Each goes to one of those connections and carries the same message. |
| Hub.InviteOne | server.js:47-62 | An invitee with connections gets `invitation{roomId, from}` on each of them and nothing else is emitted. An invitee without connections causes one `userNotAvailable` on the inviter's first connection, or nothing when the inviter has none. |
| Hub.Invitations | server.js:46-64 | Soundness: every emission is either an `invitation{roomId, from}` to a connection of an invitee, or a `userNotAvailable` naming an invitee with no connection, sent to the inviter's first connection. Completeness: every connection of every online invitee gets the invitation. Every offline invitee causes a notice on the inviter's first connection when the inviter has one, and none otherwise. |
| Hub.InviteUsers | server.js:46-64 | `invite-users` never changes the registries. It emits only invitations and not-available notices, each to a single connection. |
| Hub.ConnectionsOf | server.js:79-80 | The `flatMap` result holds exactly the connections owned by some listed participant. |
| Hub.Exclude | server.js:81 | The filter keeps exactly the connection ids that are non-empty and differ from the caller. |
| Hub.OtherSockets | server.js:79-81 | The `all-users` list holds exactly the non-empty connections of participants other than the caller's own connection. |
| Hub.JoinRoom | server.js:66-98 | A missing room id or username changes nothing and emits nothing. An unknown room is created with the joiner as host; an existing host is kept. Afterwards the joiner is a participant. The caller first receives `all-users`: every connection of every participant, including the joiner's other connections, except the caller's own. On a first join the joiner is appended and `user-joined{caller, username}` goes to the room. On a re-join the state is unchanged and only `all-users` is sent. |
| Hub.Signal | server.js:100-103 | `signal` never changes state. A missing target or payload emits nothing. Otherwise exactly one emission goes to the target, naming the caller as sender and carrying `data` unchanged. |
| Hub.LeaveRoom | server.js:105-117 | Missing fields or an unknown room: no change, no emission. Otherwise: `user-left{caller, username}` goes to the room; `username` is no longer a participant; the host and other participants are kept; the room survives iff someone else was in it; no other room changes. |
| Hub.DropSocket | server.js:124-130 | After a close, the owner's connection list loses exactly the closed connection. The owner is deleted iff no other connection remains. No other identity changes. |
| Hub.Disconnect | server.js:119-149 | An unknown connection changes nothing and emits nothing. Otherwise the connection leaves `sockets` and its owner's list. When the owner keeps another connection, rooms are untouched and the only emission is the `onlineUsers` broadcast of the remaining identities. That broadcast always comes last. |
| Hub.EvictOne | server.js:134-143 | One room visit of the cleanup. When `u` is not in room `k`, nothing changes and nothing is emitted. Otherwise `u` is removed and the host and the other participants are kept. The room survives iff someone else was in it, no other room changes, and the room gets one `user-left{caller, u}`. |
| Hub.Evict | server.js:133-145 | The cleanup over the visiting order `keys` creates no room and no participant. It leaves unvisited rooms alone, and no visited room keeps `u`. Its only emissions are `user-left{caller, u}` to visited rooms. `Properties.EvictClosedForm` and `Properties.EvictEmissions` characterise it exactly. |
| Hub.Step | server.js:21-150 | Dispatch by event. `invite-users` and `signal` change no registry. The room events leave `users` and `sockets` alone. `register` leaves `rooms` alone and forgets no connection. A close adds no identity, connection or room. |
| Invariants.RegisterPreservesInv | server.js:24-32 | `register` keeps the invariant. No identity has an empty connection list or the empty name. No connection or participant is listed twice. No room is empty. Every registered connection is listed under its identity. |
| Invariants.CreateRoomPreservesInv | server.js:34-44 | `create-room` keeps the invariant. |
| Invariants.JoinRoomPreservesInv | server.js:66-98 | `join-room` keeps the invariant; a room it creates gets its joiner at once. |
| Invariants.LeaveRoomPreservesInv | server.js:105-117 | `leave-room` keeps the invariant: a room that becomes empty is deleted. |
| Invariants.EvictOnePreservesRooms | server.js:134-143 | One room visit of the disconnect cleanup leaves no empty room and no duplicate participant. |
| Invariants.EvictPreservesRooms | server.js:133-145 | Nor does the whole cleanup, in any visiting order. |
| Invariants.DisconnectPreservesInv | server.js:119-149 | Connection close keeps the invariant. An identity whose last connection closed is deleted, and every remaining connection stays listed under its owner. |
| Invariants.StepPreservesInv | server.js:21-150 | Every handler keeps the invariant. |
| Invariants.RunPreservesInv | server.js:17-19 | Every state reached from a state satisfying the invariant satisfies it. The initial empty registries do. |
| Invariants.InitialInv | server.js:17-19 | The empty registries satisfy the invariant. |
| Invariants.CoherentMeansSameOwner | server.js:14-15 | In a coherent state, `sockets[sid] == u` iff `sid` is listed under `u`. |
| Invariants.RegisterPreservesCoherent | server.js:24-28 | A `register` that reuses the connection's existing name, or is its first, keeps the registries coherent. |
| Invariants.DisconnectPreservesCoherent | server.js:119-130 | Closing a connection keeps the registries coherent. |
| Invariants.StepPreservesCoherent | server.js:21-150 | Every handler keeps coherence as long as no connection registers under a second name. |
| Invariants.RunPreservesCoherent | server.js:17-19 | Coherence holds throughout any run in which no connection changes its name. |
| Invariants.RenameLeavesStaleSocket | server.js:24-28 | A connection that registers as `a` and then as `b` stays listed under `a`, so coherence fails. After it closes, `a` is still online and owns the closed connection. |
| Properties.EvictOneIsEvictFrom | server.js:134-143 | One room visit equals the order-free description restricted to that room. |
| Properties.EvictFromCompose | server.js:133-145 | Visiting one room, then a set of rooms, equals visiting all of them at once. A second visit of the same room changes nothing. |
| Properties.EvictClosedForm | server.js:133-145 | The cleanup loop gives the same rooms whatever order it visits them in: the order-free description over the visited ids. |
| Properties.EvictEmissions | server.js:133-145 | The cleanup emits `user-left{caller, u}` to exactly the visited rooms that had `u` as a participant. Nothing else is emitted. |
| Properties.DisconnectCleanup | server.js:119-149 | When every room is visited and the identity keeps another connection, rooms are unchanged and only presence is broadcast. When its last connection closed, it leaves every room. A room is deleted iff `u` was its only participant, and exactly the rooms `u` was in are told. |
| Properties.DisconnectEvictsOnlyOffline | server.js:132-145 | After a close, an identity is still a participant of a room it was in iff it still has an open connection. |
| Properties.DisconnectTwice | server.js:119-122 | Handling the close of the same connection again changes nothing and emits nothing. |
| Properties.RegisterThenDisconnect | server.js:24-28 | A fresh connection that registers and then closes restores `users` and `sockets` exactly. Rooms are also restored when the identity was already online. |
| Properties.JoinThenLeave | server.js:66-117 | A first join followed by a leave of the same identity restores the room registry. A room the join created is deleted again. |
| Properties.RejoinIsSilent | server.js:89-97 | A second join of the same identity changes nothing. It emits only `all-users` to the caller, with no `user-joined`. |
| Scenarios.RegisterAliceAndBob | server.js:24-32 | Two registrations produce the expected registries. The broadcast lists both identities. |
| Scenarios.AliceCreatesRoom | server.js:34-44 | `create-room` without an id uses the generated id and answers only the caller. |
| Scenarios.BobJoinsAlice | server.js:66-88 | The joiner receives the host's connection, and the room is told of the joiner. |
| Scenarios.InviteUnknown | server.js:55-61 | Inviting a never-registered identity notifies the inviter's connection. |
| Scenarios.EmptiedRoomIsRecreated | server.js:105-117 | Leaves are announced, and the last leave deletes the room. A later join recreates it with a new host. |
| Scenarios.InviteReachesBothTabs | server.js:49-53 | An identity with two connections gets the invitation on both. |
| Scenarios.ClosingTabs | server.js:119-149 | Closing one of two connections keeps the identity in its room. Closing the other removes it, deletes the emptied room and announces the departure. |

## Left out

- HTTP server, CORS and `server.listen` (server.js:1-12, 152-153): process plumbing outside the coordinator.
- `console.log` calls: logging only.
- `uuidv4()` (server.js:35): a foreign call. Its result is an input of `create-room`. Uniqueness of generated ids is not assumed; an already existing generated id is treated like a supplied one.
- Transport group membership (`socket.join`, `socket.leave`, `io.to`, `socket.to`). Emissions are recorded symbolically. Which connections belong to a room's group is not modelled, so "the room minus the caller" is only an address.
- Concurrency: the event loop serialises handlers, so the model handles one event at a time.
- The order of `Object.keys(users)` in `onlineUsers` (server.js:31, 147): it is a set.
- The order of `Object.keys(rooms)` in the disconnect cleanup: it is an input of the event (`roomKeys`).
- JavaScript value details: all falsy payload values are collapsed into `""`. Non-string keys, which JavaScript converts to strings, are not modelled. Inherited object keys such as `constructor` are not modelled either. So are payloads whose destructuring or `forEach` would throw, which the runtime would report rather than handle. A `create-room` without `host` adds the participant `""` where the code adds `undefined`.
- Hub.Invitations: states which emissions occur, not their order or how often each occurs (an identity invited twice is invited twice).
- Hub.OtherSockets: states which connection ids the `all-users` list contains, not their order or multiplicity. The order follows participant order, then each participant's connection order.
- Hub.JoinRoom: states the contents of `all-users` as a set, for the same reason.
- Properties.EvictEmissions: states which rooms are told, not the order of the `user-left` emissions, which follows `roomKeys`.
- Properties.DisconnectCleanup: states the `user-left` emissions as a set, for the same reason.

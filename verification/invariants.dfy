/** The invariants every handler of the signalling hub keeps. */
module Invariants {
  import opened OrderedSet
  import opened Hub

  /** No identity is the empty name, and every identity in the registry owns
      at least one connection, listed once. */
  ghost predicate UsersWellFormed(users: map<string, seq<string>>) {
    && "" !in users
    && forall u :: u in users ==> |users[u]| > 0 && NoDup(users[u])
  }

  /** No room exists without participants, and nobody is listed twice. */
  ghost predicate RoomsWellFormed(rooms: map<string, Room>) {
    forall id :: id in rooms ==> |rooms[id].participants| > 0 && NoDup(rooms[id].participants)
  }

  /** Every registered connection is listed under the identity it registered
      as. (The converse needs `SingleName`, below.) */
  ghost predicate SocketsBacked(s: State) {
    forall sid :: sid in s.sockets ==> s.sockets[sid] in s.users && sid in s.users[s.sockets[sid]]
  }

  /** The invariant of every reachable state. */
  ghost predicate Inv(s: State) {
    UsersWellFormed(s.users) && RoomsWellFormed(s.rooms) && SocketsBacked(s)
  }

  lemma InitialInv()
    ensures Inv(Initial)
  {
  }

  lemma RegisterPreservesInv(s: State, caller: string, username: string)
    requires Inv(s)
    ensures Inv(Register(s, caller, username).state)
  {
  }

  lemma CreateRoomPreservesInv(s: State, caller: string, host: string, roomId: string, generated: string)
    requires Inv(s)
    ensures Inv(CreateRoom(s, caller, host, roomId, generated).state)
  {
  }

  lemma JoinRoomPreservesInv(s: State, caller: string, roomId: string, username: string)
    requires Inv(s)
    ensures Inv(JoinRoom(s, caller, roomId, username).state)
  {
    if roomId != "" && username != "" && FirstJoin(s, roomId, username) {
      var t := JoinRoom(s, caller, roomId, username).state;
      var p := if roomId in s.rooms then s.rooms[roomId].participants else [];
      assert NoDup(p);
      assert t.rooms[roomId].participants == Add(p, username);
      assert RoomsWellFormed(t.rooms);
    }
  }

  lemma LeaveRoomPreservesInv(s: State, caller: string, roomId: string, username: string)
    requires Inv(s)
    ensures Inv(LeaveRoom(s, caller, roomId, username).state)
  {
  }

  /** One visit of the disconnect cleanup never leaves an empty room behind. */
  lemma EvictOnePreservesRooms(rooms: map<string, Room>, k: string, u: string, caller: string)
    requires RoomsWellFormed(rooms)
    ensures RoomsWellFormed(EvictOne(rooms, k, u, caller).rooms)
  {
  }

  /** Nor does the whole cleanup, whatever the visiting order. */
  lemma {:induction false} EvictPreservesRooms(rooms: map<string, Room>, keys: seq<string>, u: string, caller: string)
    requires RoomsWellFormed(rooms)
    ensures RoomsWellFormed(Evict(rooms, keys, u, caller).rooms)
    decreases |keys|
  {
    if keys != [] {
      EvictOnePreservesRooms(rooms, keys[0], u, caller);
      EvictPreservesRooms(EvictOne(rooms, keys[0], u, caller).rooms, keys[1..], u, caller);
    }
  }

  lemma DisconnectPreservesInv(s: State, caller: string, roomKeys: seq<string>)
    requires Inv(s)
    ensures Inv(Disconnect(s, caller, roomKeys).state)
  {
    if caller in s.sockets && s.sockets[caller] != "" {
      var u := s.sockets[caller];
      var users := DropSocket(s.users, u, caller);
      if u !in users {
        EvictPreservesRooms(s.rooms, roomKeys, u, caller);
      }
      var r := Disconnect(s, caller, roomKeys);
      forall v | v in users
        ensures |users[v]| > 0 && NoDup(users[v])
      {
        if v == u {
          assert users[v] == Delete(s.users[u], caller);
        }
      }
      forall sid | sid in r.state.sockets
        ensures r.state.sockets[sid] in r.state.users && sid in r.state.users[r.state.sockets[sid]]
      {
        var v := s.sockets[sid];
        assert sid != caller && sid in s.users[v];
      }
    }
  }

  /** Every handler keeps the invariant. */
  lemma StepPreservesInv(s: State, i: Input)
    requires Inv(s)
    ensures Inv(Step(s, i).state)
  {
    match i.event
    case OnRegister(u) => RegisterPreservesInv(s, i.caller, u);
    case OnCreateRoom(h, id, g) => CreateRoomPreservesInv(s, i.caller, h, id, g);
    case OnInviteUsers(id, inv, f) =>
    case OnJoinRoom(id, u) => JoinRoomPreservesInv(s, i.caller, id, u);
    case OnSignal(t, d) =>
    case OnLeaveRoom(id, u) => LeaveRoomPreservesInv(s, i.caller, id, u);
    case OnDisconnect(keys) => DisconnectPreservesInv(s, i.caller, keys);
  }

  /** Every state reachable from the initial one satisfies the invariant: no
      identity without a connection, no room without a participant. */
  lemma {:induction false} RunPreservesInv(s: State, inputs: seq<Input>)
    requires Inv(s)
    ensures Inv(Run(s, inputs))
    decreases |inputs|
  {
    if inputs != [] {
      StepPreservesInv(s, inputs[0]);
      RunPreservesInv(Step(s, inputs[0]).state, inputs[1..]);
    }
  }

  // ------------------------------------------------------------- coherence

  /** Both registries describe the same ownership: `sockets[sid] == u` exactly
      when `sid` is listed under `u`. */
  ghost predicate Coherent(s: State) {
    && Inv(s)
    && forall u, sid :: u in s.users && sid in s.users[u] ==> sid in s.sockets && s.sockets[sid] == u
  }

  /** A `register` on a connection that is already registered uses the same
      name again. */
  predicate SingleName(s: State, i: Input) {
    i.event.OnRegister? && i.event.username != "" && i.caller in s.sockets ==>
      s.sockets[i.caller] == i.event.username
  }

  /** Each input of the run respects `SingleName` in the state it arrives in. */
  ghost predicate SingleNameRun(s: State, inputs: seq<Input>)
    decreases |inputs|
  {
    inputs == [] || (SingleName(s, inputs[0]) && SingleNameRun(Step(s, inputs[0]).state, inputs[1..]))
  }

  lemma CoherentMeansSameOwner(s: State, sid: string, u: string)
    requires Coherent(s)
    ensures (sid in s.sockets && s.sockets[sid] == u) <==> (u in s.users && sid in s.users[u])
  {
  }

  /** A `register` that reuses the connection's name keeps the registries
      coherent. */
  lemma RegisterPreservesCoherent(s: State, caller: string, name: string)
    requires Coherent(s)
    requires name != "" && caller in s.sockets ==> s.sockets[caller] == name
    ensures Coherent(Register(s, caller, name).state)
  {
  }

  /** Closing a connection keeps the registries coherent: the connection was
      listed under its owner only, and that listing goes. */
  lemma DisconnectPreservesCoherent(s: State, caller: string, roomKeys: seq<string>)
    requires Coherent(s)
    ensures Coherent(Disconnect(s, caller, roomKeys).state)
  {
    DisconnectPreservesInv(s, caller, roomKeys);
    var t := Disconnect(s, caller, roomKeys).state;
    if caller in s.sockets && s.sockets[caller] != "" {
      forall u, sid | u in t.users && sid in t.users[u]
        ensures sid in t.sockets && t.sockets[sid] == u
      {
        assert sid in s.users[u];
      }
    }
  }

  /** As long as no connection changes its name, every handler keeps the
      registries coherent. */
  lemma StepPreservesCoherent(s: State, i: Input)
    requires Coherent(s) && SingleName(s, i)
    ensures Coherent(Step(s, i).state)
  {
    StepPreservesInv(s, i);
    match i.event
    case OnRegister(name) => RegisterPreservesCoherent(s, i.caller, name);
    case OnDisconnect(keys) => DisconnectPreservesCoherent(s, i.caller, keys);
    case OnCreateRoom(h, id, g) =>
    case OnInviteUsers(id, inv, f) =>
    case OnJoinRoom(id, name) =>
    case OnSignal(to, d) =>
    case OnLeaveRoom(id, name) =>
  }

  lemma {:induction false} RunPreservesCoherent(s: State, inputs: seq<Input>)
    requires Coherent(s) && SingleNameRun(s, inputs)
    ensures Coherent(Run(s, inputs))
    decreases |inputs|
  {
    if inputs != [] {
      StepPreservesCoherent(s, inputs[0]);
      RunPreservesCoherent(Step(s, inputs[0]).state, inputs[1..]);
    }
  }

  /** Without `SingleName` coherence is lost: a connection that registers as
      `a` and then as `b` stays listed under `a`, and after it closes `a` still
      appears online, owning a connection that no longer exists. */
  lemma RenameLeavesStaleSocket(s: State, c: string, a: string, b: string, roomKeys: seq<string>)
    requires a != "" && b != "" && a != b
    ensures var s2 := Register(Register(s, c, a).state, c, b).state;
      && c in s2.users[a] && s2.sockets[c] == b && !Coherent(s2)
      && var s3 := Disconnect(s2, c, roomKeys).state;
         a in s3.users && c in s3.users[a] && c !in s3.sockets
  {
  }
}

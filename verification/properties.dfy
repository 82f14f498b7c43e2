/** Properties of the signalling hub that relate several handler calls or
    compare a handler with an independent description of its effect. */
module Properties {
  import opened OrderedSet
  import opened Messages
  import opened Hub
  import opened Invariants

  // ------------------------------------------------ disconnect room cleanup

  /** Whether room `room` is kept when `u` leaves it during the cleanup: it is
      kept unless `u` was its last participant. */
  ghost predicate Survives(room: Room, u: string) {
    u !in room.participants || |Delete(room.participants, u)| > 0
  }

  /** The rooms after removing `u` from every room whose id is in `ids`,
      described room by room without any visiting order. */
  ghost function EvictFrom(rooms: map<string, Room>, ids: set<string>, u: string): map<string, Room> {
    map k | k in rooms && (k !in ids || Survives(rooms[k], u)) ::
      if k in ids then rooms[k].(participants := Delete(rooms[k].participants, u)) else rooms[k]
  }

  lemma EvictOneIsEvictFrom(rooms: map<string, Room>, k: string, u: string, caller: string)
    ensures EvictOne(rooms, k, u, caller).rooms == EvictFrom(rooms, {k}, u)
  {
  }

  /** Evicting from room `k` first and then from the rooms `ids` is evicting
      from `ids` and `k` at once: a room is never evicted from twice. */
  lemma EvictFromCompose(rooms: map<string, Room>, k: string, ids: set<string>, u: string)
    ensures EvictFrom(EvictFrom(rooms, {k}, u), ids, u) == EvictFrom(rooms, ids + {k}, u)
  {
  }

  /** The cleanup loop, whatever order it visits the rooms in, removes `u`
      from exactly the rooms it visits. */
  lemma {:induction false} EvictClosedForm(rooms: map<string, Room>, keys: seq<string>, u: string, caller: string)
    ensures Evict(rooms, keys, u, caller).rooms == EvictFrom(rooms, (set k | k in keys), u)
    decreases |keys|
  {
    if keys == [] {
      var none := set k | k in keys;
      assert none == {};
      assert EvictFrom(rooms, none, u) == rooms;
    } else {
      var first := EvictOne(rooms, keys[0], u, caller);
      EvictOneIsEvictFrom(rooms, keys[0], u, caller);
      EvictClosedForm(first.rooms, keys[1..], u, caller);
      EvictFromCompose(rooms, keys[0], (set k | k in keys[1..]), u);
      assert (set k | k in keys) == (set k | k in keys[1..]) + {keys[0]};
    }
  }

  /** The cleanup tells exactly the visited rooms that `u` was in, each one
      once per visit that found `u` there. */
  lemma {:induction false} EvictEmissions(rooms: map<string, Room>, keys: seq<string>, u: string, caller: string)
    ensures forall e :: e in Evict(rooms, keys, u, caller).out <==>
      && e.ToRoomExcept? && e.except == caller && e.msg == UserLeft(caller, u)
      && e.roomId in keys && e.roomId in rooms && u in rooms[e.roomId].participants
    decreases |keys|
  {
    if keys != [] {
      var first := EvictOne(rooms, keys[0], u, caller);
      EvictEmissions(first.rooms, keys[1..], u, caller);
      forall k | k in first.rooms && k in rooms
        ensures u in first.rooms[k].participants <==> k != keys[0] && u in rooms[k].participants
      {
        if k == keys[0] && u in rooms[k].participants {
          assert first.rooms[k].participants == Delete(rooms[k].participants, u);
        }
      }
    }
  }

  /** The connection closing is the last one of its identity. */
  predicate LastConnection(s: State, caller: string) {
    && caller in s.sockets && s.sockets[caller] != ""
    && s.sockets[caller] !in DropSocket(s.users, s.sockets[caller], caller)
  }

  /** When a connection closes and every room is visited: an identity that
      keeps another connection stays in all its rooms and nothing but the
      presence list is sent; an identity that closed its last connection
      leaves every room, each of those rooms is told once, and the rooms it
      was the last participant of are deleted. */
  lemma DisconnectCleanup(s: State, caller: string, roomKeys: seq<string>)
    requires caller in s.sockets && s.sockets[caller] != ""
    requires ListsAllRooms(s, roomKeys)
    ensures var u := s.sockets[caller];
            var r := Disconnect(s, caller, roomKeys);
      && (!LastConnection(s, caller) ==>
            r.state.rooms == s.rooms && r.out == [Broadcast(OnlineUsers(r.state.users.Keys))])
      && (LastConnection(s, caller) ==>
            && r.state.rooms == EvictFrom(s.rooms, s.rooms.Keys, u)
            && (forall k :: k in r.state.rooms ==> u !in r.state.rooms[k].participants)
            && (forall k :: k in s.rooms ==>
                  (k !in r.state.rooms <==>
                     u in s.rooms[k].participants && forall y :: y in s.rooms[k].participants ==> y == u))
            && (forall e :: e in r.out[..|r.out| - 1] <==>
                  && e.ToRoomExcept? && e.except == caller && e.msg == UserLeft(caller, u)
                  && e.roomId in s.rooms && u in s.rooms[e.roomId].participants))
  {
    var u := s.sockets[caller];
    var r := Disconnect(s, caller, roomKeys);
    if LastConnection(s, caller) {
      var ev := Evict(s.rooms, roomKeys, u, caller);
      EvictClosedForm(s.rooms, roomKeys, u, caller);
      EvictEmissions(s.rooms, roomKeys, u, caller);
      var all := set k | k in roomKeys;
      assert s.rooms.Keys <= all;
      assert EvictFrom(s.rooms, all, u) == EvictFrom(s.rooms, s.rooms.Keys, u);
      assert r.out[..|r.out| - 1] == ev.out;
      forall k | k in s.rooms
        ensures k !in r.state.rooms <==>
                  u in s.rooms[k].participants && forall y :: y in s.rooms[k].participants ==> y == u
      {
        var p := s.rooms[k].participants;
        if u in p && |Delete(p, u)| > 0 {
          assert Delete(p, u)[0] in p && Delete(p, u)[0] != u;
        }
      }
    }
  }

  /** The user-facing form of the cleanup rule: after its connection closes,
      an identity is still a participant of a room it was in exactly when it
      still has an open connection. */
  lemma DisconnectEvictsOnlyOffline(s: State, caller: string, roomKeys: seq<string>, k: string)
    requires caller in s.sockets && s.sockets[caller] != ""
    requires ListsAllRooms(s, roomKeys)
    requires k in s.rooms && s.sockets[caller] in s.rooms[k].participants
    ensures var r := Disconnect(s, caller, roomKeys);
      (k in r.state.rooms && s.sockets[caller] in r.state.rooms[k].participants)
        <==> s.sockets[caller] in r.state.users
  {
    DisconnectCleanup(s, caller, roomKeys);
  }

  /** Handling the close of a connection a second time changes nothing and
      emits nothing. */
  lemma DisconnectTwice(s: State, caller: string, keys1: seq<string>, keys2: seq<string>)
    ensures var r1 := Disconnect(s, caller, keys1);
      Disconnect(r1.state, caller, keys2) == Reaction(r1.state, [])
  {
  }

  // ------------------------------------------------------------ round trips

  /** A connection that registers and then closes leaves the identity registry
      as it found it; the identity's rooms are untouched when it was already
      online through another connection. */
  lemma RegisterThenDisconnect(s: State, c: string, u: string, roomKeys: seq<string>)
    requires Inv(s) && u != ""
    requires c !in s.sockets && forall v :: v in s.users ==> c !in s.users[v]
    ensures var s1 := Register(s, c, u).state;
            var s2 := Disconnect(s1, c, roomKeys).state;
      && s2.users == s.users && s2.sockets == s.sockets
      && (u in s.users ==> s2.rooms == s.rooms)
  {
    var s1 := Register(s, c, u).state;
    var xs := SocketsOf(s.users, u);
    assert s1.users[u] == Add(xs, c);
    DeleteAdd(xs, c);
    var s2 := Disconnect(s1, c, roomKeys).state;
    assert s1.sockets - {c} == s.sockets;
    if u in s.users {
      assert s2.users.Keys == s.users.Keys;
    } else {
      assert s2.users.Keys == s.users.Keys;
    }
  }

  /** A first join followed by a leave of the same identity restores the room
      registry: a room the join created is deleted again. */
  lemma JoinThenLeave(s: State, c1: string, c2: string, roomId: string, u: string)
    requires RoomsWellFormed(s.rooms)
    requires roomId != "" && u != "" && FirstJoin(s, roomId, u)
    ensures LeaveRoom(JoinRoom(s, c1, roomId, u).state, c2, roomId, u).state == s
  {
    var s1 := JoinRoom(s, c1, roomId, u).state;
    var p := if roomId in s.rooms then s.rooms[roomId].participants else [];
    assert s1.rooms[roomId].participants == Add(p, u);
    DeleteAdd(p, u);
    var s2 := LeaveRoom(s1, c2, roomId, u).state;
    if roomId in s.rooms {
      assert s.rooms[roomId].(participants := p) == s.rooms[roomId];
      assert s2.rooms.Keys == s.rooms.Keys;
    } else {
      assert s2.rooms.Keys == s.rooms.Keys;
    }
  }

  /** Joining a second time changes nothing, and the room is not told again:
      the caller gets only the current connection list. */
  lemma RejoinIsSilent(s: State, c1: string, c2: string, roomId: string, u: string)
    requires roomId != "" && u != ""
    ensures var r1 := JoinRoom(s, c1, roomId, u);
            var r2 := JoinRoom(r1.state, c2, roomId, u);
      && r2.state == r1.state
      && |r2.out| == 1 && r2.out[0].target == c2 && r2.out[0].msg.AllUsers?
  {
  }
}

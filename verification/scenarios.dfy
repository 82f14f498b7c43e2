/** Concrete walkthroughs of the signalling hub: two users meeting in a
    generated room, an invitation to an identity that never registered, a room
    emptied and then recreated by a new host, and an identity with two open
    connections. */
module Scenarios {
  import opened OrderedSet
  import opened Messages
  import opened Hub

  /** `alice` on `c1` and `bob` on `c2`. */
  const Online := State(map["alice" := ["c1"], "bob" := ["c2"]], map["c1" := "alice", "c2" := "bob"], map[])

  /** ... and `alice` alone in room `R`. */
  const Hosted := Online.(rooms := map["R" := Room("alice", ["alice"])])

  /** ... and `bob` joined as well. */
  const Met := Online.(rooms := map["R" := Room("alice", ["alice", "bob"])])

  lemma RegisterAliceAndBob()
    ensures var r1 := Register(Initial, "c1", "alice");
            var r2 := Register(r1.state, "c2", "bob");
      && r2.state == Online
      && r2.out == [Broadcast(OnlineUsers({"alice", "bob"}))]
  {
    var s1 := Register(Initial, "c1", "alice").state;
    assert s1.users == map["alice" := ["c1"]];
    assert s1.sockets == map["c1" := "alice"];
    var s2 := Register(s1, "c2", "bob").state;
    assert s2.users == Online.users;
    assert s2.sockets == Online.sockets;
    assert s2.users.Keys == {"alice", "bob"};
  }

  /** `alice` creates a room without an id; the generator supplies `R`. */
  lemma AliceCreatesRoom()
    ensures CreateRoom(Online, "c1", "alice", "", "R") == Reaction(Hosted, [ToSocket("c1", RoomCreated("R"))])
  {
  }

  /** `bob` joining receives `alice`'s connection and the room learns of
      `bob`'s connection. */
  lemma BobJoinsAlice()
    ensures JoinRoom(Hosted, "c2", "R", "bob")
         == Reaction(Met, [ToSocket("c2", AllUsers(["c1"])), ToRoomExcept("R", "c2", UserJoined("c2", "bob"))])
  {
    var users := Online.users;
    assert Add(["alice"], "bob") == ["alice", "bob"];
    assert Hosted.rooms["R" := Room("alice", ["alice", "bob"])] == Met.rooms;
    assert ["alice", "bob"][1..] == ["bob"];
    assert ConnectionsOf(users, ["bob"]) == ["c2"] + ConnectionsOf(users, []);
    assert ConnectionsOf(users, ["alice", "bob"]) == ["c1", "c2"];
    assert ["c1", "c2"][1..] == ["c2"];
    assert Exclude(["c1", "c2"], "c2") == ["c1"];
  }

  /** Inviting `carol`, who never registered, notifies `alice`'s connection. */
  lemma InviteUnknown()
    ensures InviteUsers(Met, "R", ["carol"], "alice") == Reaction(Met, [ToSocket("c1", UserNotAvailable("carol"))])
  {
    assert Invitations(Met.users, "R", ["carol"], "alice")
        == InviteOne(Met.users, "R", "alice", "carol") + Invitations(Met.users, "R", [], "alice");
  }

  /** `bob` leaves and `alice` is told; `alice` leaves and the room is gone, so
      the next join recreates it with a new host. */
  lemma EmptiedRoomIsRecreated()
    ensures LeaveRoom(Met, "c2", "R", "bob") == Reaction(Hosted, [ToRoomExcept("R", "c2", UserLeft("c2", "bob"))])
    ensures LeaveRoom(Hosted, "c1", "R", "alice").state == Online
    ensures JoinRoom(Online, "c3", "R", "dave").state.rooms["R"] == Room("dave", ["dave"])
  {
    assert ["alice", "bob"][1..] == ["bob"];
    assert Delete(["bob"], "bob") == [];
    assert Delete(["alice", "bob"], "bob") == ["alice"];
    assert Delete(["alice"], "alice") == [];
    assert (map["R" := Room("alice", ["alice"])] - {"R"}) == map[];
  }

  /** `u` has connections `a1` and `a2` and is alone in room `R`; `v` is on
      `b1`. */
  const TwoTabs := State(
    map["u" := ["a1", "a2"], "v" := ["b1"]],
    map["a1" := "u", "a2" := "u", "b1" := "v"],
    map["R" := Room("u", ["u"])])

  /** Both of `u`'s connections receive the invitation. */
  lemma InviteReachesBothTabs()
    ensures InviteUsers(TwoTabs, "R", ["u"], "v").out
         == [ToSocket("a1", Invitation("R", "v")), ToSocket("a2", Invitation("R", "v"))]
  {
    var users := TwoTabs.users;
    assert Invitations(users, "R", ["u"], "v")
        == InviteOne(users, "R", "v", "u") + Invitations(users, "R", [], "v");
    assert ["a1", "a2"][1..] == ["a2"];
    assert Fanout(["a1", "a2"], Invitation("R", "v"))
        == [ToSocket("a1", Invitation("R", "v"))] + Fanout(["a2"], Invitation("R", "v"));
  }

  /** Closing one of `u`'s connections keeps `u` in the room and sends only the
      presence list; closing the other removes `u` and deletes the room. */
  lemma ClosingTabs()
    ensures var r := Disconnect(TwoTabs, "a1", ["R"]);
      && r.state.rooms == TwoTabs.rooms
      && r.state.users["u"] == ["a2"]
      && r.out == [Broadcast(OnlineUsers({"u", "v"}))]
    ensures var s := Disconnect(TwoTabs, "a1", ["R"]).state;
            var r := Disconnect(s, "a2", ["R"]);
      && r.state.rooms == map[]
      && r.out == [ToRoomExcept("R", "a2", UserLeft("a2", "u")), Broadcast(OnlineUsers({"v"}))]
  {
    assert ["a1", "a2"][1..] == ["a2"];
    assert Delete(["a1", "a2"], "a1") == ["a2"];
    var r := Disconnect(TwoTabs, "a1", ["R"]);
    assert r.state.users.Keys == {"u", "v"};
    var s := r.state;
    assert Delete(["a2"], "a2") == [];
    var users := DropSocket(s.users, "u", "a2");
    assert users.Keys == {"v"};
    assert Delete(["u"], "u") == [];
    assert (map["R" := Room("u", ["u"])] - {"R"}) == map[];
  }
}

/** The outbound events of the signalling server and the three ways it
    addresses them. */
module Messages {

  /** Outbound event names with their payloads. `data` of a relayed signal is
      opaque and never inspected. */
  datatype Msg =
    | OnlineUsers(usernames: set<string>)          // "onlineUsers"
    | RoomCreated(roomId: string)                  // "room-created"
    | Invitation(roomId: string, from: string)     // "invitation"
    | UserNotAvailable(username: string)           // "userNotAvailable"
    | AllUsers(socketIds: seq<string>)             // "all-users"
    | UserJoined(socketId: string, username: string) // "user-joined"
    | UserLeft(socketId: string, username: string) // "user-left"
    | SignalRelay(sender: string, data: string)    // "signal"

  /** Where an emission goes:
      - `ToSocket`: `socket.emit` on the caller or `io.to(sid).emit`;
      - `ToRoomExcept`: `socket.to(roomId).emit`, every connection in the
        transport group of `roomId` except `except`;
      - `Broadcast`: `io.emit`, every open connection. */
  datatype Emission =
    | ToSocket(target: string, msg: Msg)
    | ToRoomExcept(roomId: string, except: string, msg: Msg)
    | Broadcast(msg: Msg)
}

/** What the server sends: socket.io events to one socket or to everyone, forced
    disconnects, refused connections and snapshots written to the ban file. */
module Events {
  import opened Wrappers
  import opened Sessions

  /** A `chat message` payload: `{ user, text }` from the text box, `{ user, image }`
      from the image picker, or whatever a client chooses to send. */
  datatype ChatMsg = ChatMsg(user: Option<string>, text: Option<string>, image: Option<string>)

  /** The payloads of the events the server emits. */
  datatype Payload =
    | System(text: string)                 // 'system' { text }
    | Banned(bannedBy: string, ip: string) // 'banned' { by, ip }
    | UserList(entries: seq<RosterEntry>)  // 'user list'
    | Chat(msg: ChatMsg)                   // 'chat message'

  datatype Event =
    | Emit(to: SocketId, payload: Payload)          // socket.emit
    | Broadcast(payload: Payload)                   // io.emit
    | Close(sid: SocketId)                          // socket.disconnect(true)
    | Refuse(sid: SocketId, message: string, code: string)  // next(err) from the gate
    | Saved(bans: set<string>)                      // saveBanlist(banlist)

  /** The `chat message` the server itself broadcasts, sent as user `System`. */
  function SystemChat(text: string): Payload {
    Chat(ChatMsg(Some("System"), Some(text), None))
  }
}

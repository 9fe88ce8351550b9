/** The server's mutable state as one value, the consistency it keeps, and the text of
    the notices it sends. */
module ServerState {
  import opened Wrappers
  import opened JsString
  import opened Sessions
  import opened Events

  /** Live sockets with the address their connection handler computed, the `users`
      object with its key order, and the ban set. */
  datatype Registry = Registry(
    conns: map<SocketId, string>,
    users: map<SocketId, User>,
    order: seq<SocketId>,
    banlist: set<string>)

  /** One handler run: the state it leaves and the events it emits, in order. */
  datatype Step = Step(next: Registry, out: seq<Event>)

  /** Every registered socket is live and is registered under its connection's
      address, and `order` lists the registered sockets once each. */
  predicate Consistent(r: Registry) {
    && KeyOrder(r.order, r.users)
    && forall sid :: sid in r.users ==> sid in r.conns && r.users[sid].ip == r.conns[sid]
  }

  /** The state at startup: `loadBanlist()` yields the stored set, or the empty set when
      the file is missing or unreadable. */
  function Initial(loaded: Option<set<string>>): (r: Registry)
    ensures Consistent(r) && r.users == map[] && r.conns == map[]
    ensures r.banlist == (if loaded.Some? then loaded.value else {})
  {
    Registry(map[], map[], [], loaded.GetOr({}))
  }

  /** The `user list` event `broadcastUserList` sends for state `r`. */
  function RosterEvent(r: Registry): Event
    requires KeyOrder(r.order, r.users)
  {
    Broadcast(UserList(Roster(r.order, r.users)))
  }

  const Welcome: string := "Connected to server."
  const BanUsageText: string := "Usage: /ban <username>"

  function NotFoundText(name: string): string {
    "User \"" + name + "\" not found."
  }

  function BannedByText(name: string, issuer: string): string {
    "User \"" + name + "\" was IP-banned by " + issuer + "."
  }

  function BannedIpsText(ips: seq<string>): string {
    "Banned IPs: " + Join(ips, ", ")
  }
}

/** The running server: the module-level `users` object and `banlist` set, plus the
    table of live sockets that socket.io keeps, as fields of one object that the
    handlers update in place. Each handler is proved to do what the step of the same
    name in `Handlers` says. */
module ChatServer {
  import opened Wrappers
  import opened NetAddress
  import opened Sessions
  import opened Events
  import opened ServerState
  import opened Gate
  import opened Dispatch
  import opened Ban
  import opened Handlers

  class Server {
    /** Live sockets and the `clientIp` each connection handler computed. */
    var conns: map<SocketId, string>
    /** `users`, with the insertion order of its keys. */
    var users: map<SocketId, User>
    var order: seq<SocketId>
    /** `banlist`. */
    var banlist: set<string>

    function State(): Registry
      reads this
    {
      Registry(conns, users, order, banlist)
    }

    ghost predicate Valid()
      reads this
    {
      Consistent(State())
    }

    /** Startup: `const banlist = loadBanlist()` with `loaded` what the file yielded,
        and no users. */
    constructor(loaded: Option<set<string>>)
      ensures Valid() && State() == Initial(loaded)
    {
      conns := map[];
      users := map[];
      order := [];
      banlist := if loaded.Some? then loaded.value else {};
    }

    /** `broadcastUserList`: the public list, built entry by entry in key order. */
    method BroadcastUserList() returns (e: Event)
      requires KeyOrder(order, users)
      ensures e == RosterEvent(State())
      ensures e.Broadcast? && e.payload.UserList? && |e.payload.entries| == |users|
    {
      var publicList: seq<RosterEntry> := [];
      var i := 0;
      while i < |order|
        invariant 0 <= i <= |order|
        invariant |publicList| == i
        invariant forall k :: 0 <= k < i ==> publicList[k] == Entry(users[order[k]])
      {
        var u := users[order[i]];
        publicList := publicList + [RosterEntry(u.name, MaskIp(u.ip))];
        i := i + 1;
      }
      assert publicList == Roster(order, users);
      RosterOnePerSession(order, users);
      e := Broadcast(UserList(publicList));
    }

    /** The `io.use` gate followed, for an admitted socket, by the connection handler. */
    method Connect(sid: SocketId, hs: Handshake) returns (out: seq<Event>)
      requires Valid() && sid !in conns
      modifies this
      ensures Valid()
      ensures State() == OnConnect(old(State()), sid, hs).next && out == OnConnect(old(State()), sid, hs).out
    {
      var rawIp := RawAddress(hs);
      var clientIp := NormalizeIp(rawIp);
      if clientIp in banlist {
        out := [Refuse(sid, "ip_banned", "IP_BANNED")];
        return;
      }
      var ip := if clientIp != "" then clientIp else NormalizeIp(hs.address);
      conns := conns[sid := ip];
      out := [Emit(sid, System(Welcome))];
    }

    /** `socket.on("join")`. */
    method Join(sid: SocketId, name: string) returns (out: seq<Event>)
      requires Valid() && sid in conns
      modifies this
      ensures Valid()
      ensures State() == OnJoin(old(State()), sid, name).next && out == OnJoin(old(State()), sid, name).out
    {
      JoinRegisters(State(), sid, name);
      var u := User(if name == "" then "Unnamed" else name, conns[sid]);
      if sid !in users {
        order := order + [sid];
      }
      users := users[sid := u];
      var e := BroadcastUserList();
      out := [e];
    }

    /** `socket.on("disconnect")`, with socket.io forgetting the socket. */
    method Disconnect(sid: SocketId) returns (out: seq<Event>)
      requires Valid()
      modifies this
      ensures Valid()
      ensures State() == OnDisconnect(old(State()), sid).next && out == OnDisconnect(old(State()), sid).out
    {
      DisconnectForgets(State(), sid);
      conns := conns - {sid};
      if sid in users {
        DeleteEntry(sid);
        var e := BroadcastUserList();
        out := [e];
      } else {
        out := [];
      }
    }

    /** `socket.on("chat message")`. */
    method ChatMessage(sid: SocketId, msg: ChatMsg) returns (out: seq<Event>)
      requires Valid()
      modifies this
      ensures Valid()
      ensures State() == OnChatMessage(old(State()), sid, msg).next && out == OnChatMessage(old(State()), sid, msg).out
    {
      if sid !in users {
        out := [];
        return;
      }
      var sender := users[sid];
      var action := Route(sender.name, msg);
      match action
      case Relay =>
        out := [Broadcast(Chat(msg))];
      case BanUsage =>
        out := [Emit(sid, System(BanUsageText))];
      case BanName(target) =>
        out := BanCommand(sid, sender.name, target);
    }

    /** The body of the `/ban` branch once the target name is known: the matching
        entries, the loop over them, then the save, the notices and the roster. */
    method BanCommand(sid: SocketId, issuer: string, name: string) returns (out: seq<Event>)
      requires Valid()
      modifies this
      ensures Valid()
      ensures State() == OnBan(old(State()), sid, issuer, name).next && out == OnBan(old(State()), sid, issuer, name).out
    {
      BanKeepsConsistent(State(), sid, issuer, name);
      var t := Targets(order, users, name);
      if t == [] {
        out := [Emit(sid, System(NotFoundText(name)))];
        return;
      }
      var bannedIps, notices := BanEach(t, issuer);
      var e := BroadcastUserList();
      out := notices + [Saved(banlist)]
        + [Broadcast(SystemChat(BannedByText(name, issuer))), Emit(sid, System(BannedIpsText(bannedIps))), e];
    }

    /** `targets.forEach(...)`: for each target in turn, ban its non-empty normalised
        address, send `banned` and disconnect it when it is live, and delete its entry. */
    method BanEach(t: seq<SocketId>, issuer: string) returns (bannedIps: seq<string>, notices: seq<Event>)
      requires Valid() && Distinct(t) && forall j :: 0 <= j < |t| ==> t[j] in users
      modifies this
      ensures State() == Visited(old(State()), t)
      ensures bannedIps == BannedIps(old(users), t)
      ensures notices == Notices(old(State()), issuer, t)
    {
      ghost var r0 := State();
      var snap := users;
      bannedIps, notices := [], [];
      var i := 0;
      VisitedNothing(r0);
      while i < |t|
        invariant 0 <= i <= |t|
        invariant State() == Visited(r0, t[..i])
        invariant bannedIps == BannedIps(r0.users, t[..i])
        invariant notices == Notices(r0, issuer, t[..i])
      {
        bannedIps, notices := BanTarget(t[i], snap[t[i]], issuer, bannedIps, notices, r0, t, i);
        i := i + 1;
      }
      assert t[..i] == t;
    }

    /** The `forEach` callback for the entry `[s, u]`, the `i`-th of the targets `t`
        taken from the state `r0`, with `seen` the Set built and `sent` the events
        emitted so far: it bans the key of `u`, then notifies, disconnects and deletes
        `s`, which advances the loop by one target. */
    method BanTarget(s: SocketId, u: User, issuer: string, seen: seq<string>, sent: seq<Event>,
                     ghost r0: Registry, ghost t: seq<SocketId>, ghost i: nat)
      returns (ips: seq<string>, notices: seq<Event>)
      requires Consistent(r0) && Distinct(t) && i < |t| && forall j :: 0 <= j < |t| ==> t[j] in r0.users
      requires s == t[i] && u == r0.users[s] && State() == Visited(r0, t[..i])
      requires seen == BannedIps(r0.users, t[..i]) && sent == Notices(r0, issuer, t[..i])
      modifies this
      ensures State() == Visited(r0, t[..i + 1])
      ensures ips == BannedIps(r0.users, t[..i + 1])
      ensures notices == Notices(r0, issuer, t[..i + 1])
    {
      VisitedStep(r0, issuer, t, i);
      VisitedConsistent(r0, t[..i]);
      ips := BanAddress(u.ip, seen);
      var evicted := Evict(s, u, issuer);
      notices := sent + evicted;
    }

    /** `const ipToBan = normalizeIp(u.ip)` and, when it is not empty, its addition to
        `bannedIps` (listed in insertion order as `seen`) and to `banlist`. */
    method BanAddress(ip: string, seen: seq<string>) returns (ips: seq<string>)
      requires Valid()
      modifies this
      ensures Valid()
      ensures banlist == old(banlist) + BanKey(ip) && ips == AddUnique(seen, NormalizeIp(ip))
      ensures conns == old(conns) && users == old(users) && order == old(order)
    {
      var ipToBan := NormalizeIp(ip);
      ips := seen;
      if ipToBan != "" {
        if ipToBan !in ips {
          ips := ips + [ipToBan];
        }
        banlist := banlist + {ipToBan};
      }
    }

    /** The rest of the callback for the registered socket `s` with entry `u`: when `s`
        is live it is sent `banned` and disconnected, which runs its `disconnect`
        handler before returning; then `delete users[sid]`, which finds nothing left to
        delete when that handler has run. */
    method Evict(s: SocketId, u: User, issuer: string) returns (out: seq<Event>)
      requires Valid() && s in users
      modifies this
      ensures KeyOrder(order, users)
      ensures conns == old(conns) - {s} && users == old(users) - {s} && order == Drop(old(order), {s})
      ensures banlist == old(banlist)
      ensures out == if s in old(conns) then [Emit(s, Banned(issuer, MaskIp(u.ip))), Close(s), RosterEvent(State())] else []
    {
      ghost var users0, order0 := users, order;
      out := [];
      if s in conns {
        out := [Emit(s, Banned(issuer, MaskIp(u.ip))), Close(s)];
        var roster := Disconnect(s);
        out := out + roster;
      }
      DeleteEntry(s);
      MinusStep(users0, {s}, s);
      DropDrop(order0, {s}, {s});
      assert {s} + {s} == {s};
    }

    /** `delete users[sid]`: the key leaves `users` and the key order, when it is there. */
    method DeleteEntry(s: SocketId)
      requires KeyOrder(order, users)
      modifies this
      ensures KeyOrder(order, users)
      ensures users == old(users) - {s} && order == Drop(old(order), {s})
      ensures conns == old(conns) && banlist == old(banlist)
    {
      DropKeepsOrder(order, users, {s});
      users := users - {s};
      order := Drop(order, {s});
    }
  }
}

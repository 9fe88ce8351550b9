/** The socket.io handlers of the server, each as one step on the server state: the
    connection gate with the connection handler's welcome, `join`, `chat message` and
    `disconnect`. */
module Handlers {
  import opened Wrappers
  import opened JsString
  import opened Sessions
  import opened Events
  import opened ServerState
  import opened Gate
  import opened Dispatch
  import opened Ban

  /** A new socket `sid` (socket.io never reuses an id) arrives with handshake `hs`: the
      gate refuses it when its key is banned; otherwise it is connected under the
      address the connection handler computes and is welcomed. */
  function OnConnect(r: Registry, sid: SocketId, hs: Handshake): Step
    requires sid !in r.conns
  {
    if Refused(r.banlist, hs) then Step(r, [Refuse(sid, "ip_banned", "IP_BANNED")])
    else Step(r.(conns := r.conns[sid := SessionIp(hs)]), [Emit(sid, System(Welcome))])
  }

  /** `name || "Unnamed"`. */
  function DisplayName(name: string): string {
    if name == "" then "Unnamed" else name
  }

  /** `join` from the live socket `sid`: store the user, then send the roster. */
  function OnJoin(r: Registry, sid: SocketId, name: string): (st: Step)
    requires sid in r.conns && KeyOrder(r.order, r.users)
    ensures KeyOrder(st.next.order, st.next.users)
  {
    var next := r.(users := r.users[sid := User(DisplayName(name), r.conns[sid])],
                   order := PutOrder(r.order, r.users, sid));
    PutKeepsOrder(r.order, r.users, sid, User(DisplayName(name), r.conns[sid]));
    Step(next, [RosterEvent(next)])
  }

  /** `disconnect` of `sid`: a registered socket is removed and the roster sent; an
      unknown one changes nothing. The transport connection is gone either way. */
  function OnDisconnect(r: Registry, sid: SocketId): (st: Step)
    requires KeyOrder(r.order, r.users)
    ensures KeyOrder(st.next.order, st.next.users)
  {
    if sid in r.users then
      var next := Registry(r.conns - {sid}, r.users - {sid}, Drop(r.order, {sid}), r.banlist);
      DropKeepsOrder(r.order, r.users, {sid});
      Step(next, [RosterEvent(next)])
    else Step(r.(conns := r.conns - {sid}), [])
  }

  /** `chat message` from `sid`: ignored from an unregistered socket, otherwise relayed,
      answered with the usage notice, or executed as a ban. */
  function OnChatMessage(r: Registry, sid: SocketId, msg: ChatMsg): Step
    requires KeyOrder(r.order, r.users)
  {
    if sid !in r.users then Step(r, [])
    else
      var sender := r.users[sid];
      match Route(sender.name, msg)
      case Relay => Step(r, [Broadcast(Chat(msg))])
      case BanUsage => Step(r, [Emit(sid, System(BanUsageText))])
      case BanName(target) => OnBan(r, sid, sender.name, target)
  }

  /** The gate admits a socket exactly when its key is not banned; an admitted socket
      is stored under the session address and welcomed, a refused one leaves no trace;
      nobody registers or is banned on connection. */
  lemma ConnectAdmits(r: Registry, sid: SocketId, hs: Handshake)
    requires Consistent(r) && sid !in r.conns
    ensures var st := OnConnect(r, sid, hs);
      && (sid in st.next.conns <==> !Refused(r.banlist, hs))
      && (sid in st.next.conns ==> st.next.conns[sid] == SessionIp(hs) && st.out == [Emit(sid, System(Welcome))])
      && (Refused(r.banlist, hs) ==> st.next == r && st.out == [Refuse(sid, "ip_banned", "IP_BANNED")])
      && st.next.users == r.users && st.next.banlist == r.banlist
      && Consistent(st.next)
  {
  }

  /** A join registers the socket under its display name and its connection's
      address, leaves every other session alone, keeps a re-joining socket at its place
      in the key order and puts a new one last. */
  lemma JoinRegisters(r: Registry, sid: SocketId, name: string)
    requires Consistent(r) && sid in r.conns
    ensures var n := OnJoin(r, sid, name).next;
      && n.users[sid] == User(if name == "" then "Unnamed" else name, r.conns[sid])
      && (forall s :: s != sid ==> (s in n.users <==> s in r.users))
      && (forall s :: s in r.users && s != sid ==> n.users[s] == r.users[s])
      && n.order == (if sid in r.users then r.order else r.order + [sid])
      && n.conns == r.conns && n.banlist == r.banlist
      && Consistent(n)
  {
  }

  /** A join sends one roster, with one entry per registered socket, the joining one
      included. */
  lemma JoinSendsRoster(r: Registry, sid: SocketId, name: string)
    requires Consistent(r) && sid in r.conns
    ensures var st := OnJoin(r, sid, name);
      && |st.out| == 1 && st.out[0].Broadcast? && st.out[0].payload.UserList?
      && |st.out[0].payload.entries| == |st.next.users|
      && Entry(st.next.users[sid]) in st.out[0].payload.entries
  {
    var st := OnJoin(r, sid, name);
    RosterOnePerSession(st.next.order, st.next.users);
  }

  /** A disconnect forgets the socket, keeps every other session, and sends a roster
      exactly when the socket was registered. */
  lemma DisconnectForgets(r: Registry, sid: SocketId)
    requires Consistent(r)
    ensures var st := OnDisconnect(r, sid);
      && sid !in st.next.conns && sid !in st.next.users
      && st.next.users == r.users - {sid} && st.next.conns == r.conns - {sid}
      && st.next.banlist == r.banlist
      && Consistent(st.next)
      && (sid in r.users <==> st.out != [])
      && (sid in r.users ==> st.out == [RosterEvent(st.next)])
  {
    if sid in r.users {
      DropKeepsOrder(r.order, r.users, {sid});
    }
  }

  /** Disconnecting a socket that is already gone changes nothing and emits nothing. */
  lemma DisconnectTwice(r: Registry, sid: SocketId)
    requires Consistent(r)
    ensures var first := OnDisconnect(r, sid).next;
      OnDisconnect(first, sid) == Step(first, [])
  {
    DisconnectForgets(r, sid);
    var first := OnDisconnect(r, sid).next;
    assert first.conns - {sid} == first.conns;
  }

  /** A message from a socket that has not joined is dropped without effect. */
  lemma UnregisteredIgnored(r: Registry, sid: SocketId, msg: ChatMsg)
    requires Consistent(r) && sid !in r.users
    ensures OnChatMessage(r, sid, msg) == Step(r, [])
  {
  }

  /** Whatever anyone but the admin sends, including `/ban`, is relayed to everyone
      unchanged and changes nothing. */
  lemma OnlyAdminCommands(r: Registry, sid: SocketId, msg: ChatMsg)
    requires Consistent(r) && sid in r.users && r.users[sid].name != Admin
    ensures OnChatMessage(r, sid, msg) == Step(r, [Broadcast(Chat(msg))])
  {
  }

  /** A message without text (an image) or whose trimmed text does not start with `/`
      is relayed to everyone unchanged, whoever sends it. */
  lemma PlainMessageRelayed(r: Registry, sid: SocketId, msg: ChatMsg)
    requires Consistent(r) && sid in r.users
    requires msg.text.None? || !IsCommand(msg.text.value)
    ensures OnChatMessage(r, sid, msg) == Step(r, [Broadcast(Chat(msg))])
  {
  }

  /** Only a ban changes the state: every other message leaves it exactly as it was. */
  lemma OnlyBanChangesState(r: Registry, sid: SocketId, msg: ChatMsg)
    requires Consistent(r)
    ensures OnChatMessage(r, sid, msg).next != r ==>
      sid in r.users && r.users[sid].name == Admin && Route(Admin, msg).BanName?
  {
  }

  /** The admin's `/ban` without a name, or with a name nobody is registered under,
      only earns the admin a notice and changes nothing. */
  lemma BanWithoutTargetOnlyNotifies(r: Registry, sid: SocketId, msg: ChatMsg)
    requires Consistent(r) && sid in r.users && r.users[sid].name == Admin
    ensures Route(Admin, msg) == BanUsage ==>
      OnChatMessage(r, sid, msg) == Step(r, [Emit(sid, System(BanUsageText))])
    ensures Route(Admin, msg).BanName? && Named(r.users, Route(Admin, msg).target) == {} ==>
      OnChatMessage(r, sid, msg) == Step(r, [Emit(sid, System(NotFoundText(Route(Admin, msg).target)))])
  {
    if Route(Admin, msg).BanName? && Named(r.users, Route(Admin, msg).target) == {} {
      BanUnknownName(r, sid, Admin, Route(Admin, msg).target);
    }
  }

  /** The admin's `/ban <name>` typed with any spacing and in any case, the name being
      the words `names`, removes every session registered under those words joined by
      single spaces and bans their addresses. */
  lemma AdminBanRemovesTargets(r: Registry, sid: SocketId, user: Option<string>, image: Option<string>,
                               pre: string, w: string, gap: string, names: seq<string>, gaps: seq<string>,
                               post: string)
    requires Consistent(r) && sid in r.users && r.users[sid].name == Admin
    requires AllSpace(pre) && AllSpace(post) && gap != [] && AllSpace(gap)
    requires ToLowerAscii(w) == "/ban"
    requires |gaps| + 1 == |names| && AreWords(names) && AreGaps(gaps)
    ensures var st := OnChatMessage(r, sid, ChatMsg(user, Some(pre + w + gap + Spaced(names, gaps) + post), image));
      && st.next.users == r.users - Named(r.users, JsString.Join(names, " "))
      && st.next.banlist == r.banlist + NamedKeys(r.users, JsString.Join(names, " "))
  {
    BanCommandParses(user, image, pre, w, gap, names, gaps, post);
    BanRemovesNamed(r, sid, Admin, JsString.Join(names, " "));
    BanAddsAddresses(r, sid, Admin, JsString.Join(names, " "));
  }

  /** The events that drive the server. */
  datatype Input =
    | Connect(sid: SocketId, hs: Handshake)
    | Join(sid: SocketId, name: string)
    | Message(sid: SocketId, msg: ChatMsg)
    | Disconnect(sid: SocketId)

  /** What socket.io guarantees before it runs a handler: a connecting socket has a
      fresh id, and `join` comes from a live socket. */
  predicate Admissible(r: Registry, i: Input) {
    match i
    case Connect(sid, _) => sid !in r.conns
    case Join(sid, _) => sid in r.conns
    case Message(_, _) => true
    case Disconnect(_) => true
  }

  /** One handler run on input `i`. */
  function Apply(r: Registry, i: Input): Step
    requires Consistent(r) && Admissible(r, i)
  {
    match i
    case Connect(sid, hs) => OnConnect(r, sid, hs)
    case Join(sid, name) => OnJoin(r, sid, name)
    case Message(sid, msg) => OnChatMessage(r, sid, msg)
    case Disconnect(sid) => OnDisconnect(r, sid)
  }

  /** Every handler keeps the state consistent, and the ban set never shrinks. */
  lemma ApplyKeepsConsistent(r: Registry, i: Input)
    requires Consistent(r) && Admissible(r, i)
    ensures Consistent(Apply(r, i).next)
    ensures r.banlist <= Apply(r, i).next.banlist
  {
    match i
    case Connect(sid, hs) => ConnectAdmits(r, sid, hs);
    case Join(sid, name) => JoinRegisters(r, sid, name);
    case Disconnect(sid) => DisconnectForgets(r, sid);
    case Message(sid, msg) =>
      if sid in r.users {
        match Route(r.users[sid].name, msg)
        case Relay =>
        case BanUsage =>
        case BanName(target) =>
          BanRemovesNamed(r, sid, r.users[sid].name, target);
      }
  }

  /** The server state after a sequence of admissible inputs from the start state,
      or `None` when some input was not admissible where it arrived. */
  function Run(r: Registry, ins: seq<Input>): Option<Registry>
    requires Consistent(r)
    decreases |ins|
  {
    if ins == [] then Some(r)
    else if !Admissible(r, ins[0]) then None
    else
      ApplyKeepsConsistent(r, ins[0]);
      Run(Apply(r, ins[0]).next, ins[1..])
  }

  /** Along any run the state stays consistent and no ban is ever lifted. */
  lemma {:induction false} RunKeepsBans(r: Registry, ins: seq<Input>)
    requires Consistent(r)
    ensures Run(r, ins).Some? ==> Consistent(Run(r, ins).value) && r.banlist <= Run(r, ins).value.banlist
    decreases |ins|
  {
    if ins != [] && Admissible(r, ins[0]) {
      ApplyKeepsConsistent(r, ins[0]);
      RunKeepsBans(Apply(r, ins[0]).next, ins[1..]);
    }
  }
}

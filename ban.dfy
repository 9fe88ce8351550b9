/** The admin's `/ban <name>` as one step on the server state: every socket registered
    under the name has its normalised address added to the ban set, is sent `banned`
    and is disconnected, which runs its `disconnect` handler at once (the entry goes and
    the roster is sent); then the ban set is saved, everyone is told, the admin gets the
    list of banned addresses and the roster is sent again. */
module Ban {
  import opened NetAddress
  import opened Sessions
  import opened Events
  import opened ServerState
  import opened Gate

  /** `bannedIps.add(ip)` on a JavaScript Set, for a non-empty `ip`; an empty key is
      skipped by the `if (ipToBan)` guard. */
  function AddUnique(acc: seq<string>, ip: string): seq<string> {
    if ip == "" || ip in acc then acc else acc + [ip]
  }

  /** The Set built by adding `keys` in turn, listed in insertion order. */
  function Dedup(keys: seq<string>): seq<string> {
    if keys == [] then [] else AddUnique(Dedup(keys[..|keys| - 1]), keys[|keys| - 1])
  }

  /** Each non-empty key appears once, and nothing else does. */
  lemma {:induction false} DedupExact(keys: seq<string>)
    ensures Distinct(Dedup(keys))
    ensures forall x :: x in Dedup(keys) <==> x != "" && x in keys
  {
    if keys != [] {
      var p := keys[..|keys| - 1];
      DedupExact(p);
      assert keys == p + [keys[|keys| - 1]];
    }
  }

  /** The `ipToBan` of each visited socket, in visiting order. */
  function BanKeys(snap: map<SocketId, User>, done: seq<SocketId>): (keys: seq<string>)
    requires forall i :: 0 <= i < |done| ==> done[i] in snap
  {
    seq(|done|, i requires 0 <= i < |done| => NormalizeIp(snap[done[i]].ip))
  }

  /** `Array.from(bannedIps)` once the loop has visited the sockets `done`. */
  function BannedIps(snap: map<SocketId, User>, done: seq<SocketId>): seq<string>
    requires forall i :: 0 <= i < |done| ==> done[i] in snap
  {
    Dedup(BanKeys(snap, done))
  }

  /** The `user list` event of the state `r` once the entries of `gone` are deleted. */
  function RosterWithout(r: Registry, gone: set<SocketId>): Event
    requires KeyOrder(r.order, r.users)
  {
    DropKeepsOrder(r.order, r.users, gone);
    Broadcast(UserList(Roster(Drop(r.order, gone), r.users - gone)))
  }

  /** What visiting the last socket of `done` emits when it is still connected (`if
      (targetSocket)`): `banned`, the forced disconnect, and the roster that the socket's
      own `disconnect` handler broadcasts inside `disconnect(true)`, once its entry is
      gone. */
  function Notice(r: Registry, issuer: string, done: seq<SocketId>): seq<Event>
    requires KeyOrder(r.order, r.users)
    requires done != [] && forall i :: 0 <= i < |done| ==> done[i] in r.users
  {
    var s := done[|done| - 1];
    if s in r.conns then [Emit(s, Banned(issuer, MaskIp(r.users[s].ip))), Close(s), RosterWithout(r, Elems(done))]
    else []
  }

  /** The events the loop has emitted once it has visited `done`. */
  function Notices(r: Registry, issuer: string, done: seq<SocketId>): seq<Event>
    requires KeyOrder(r.order, r.users) && forall i :: 0 <= i < |done| ==> done[i] in r.users
  {
    if done == [] then []
    else Notices(r, issuer, done[..|done| - 1]) + Notice(r, issuer, done)
  }

  /** Each connected target is sent `banned`, is disconnected, and then the roster
      without it goes out, in the order the targets are visited; nothing else is
      emitted in the loop. */
  lemma {:induction false} NoticesInOrder(r: Registry, issuer: string, done: seq<SocketId>)
    requires KeyOrder(r.order, r.users)
    requires forall i :: 0 <= i < |done| ==> done[i] in r.users && done[i] in r.conns
    ensures |Notices(r, issuer, done)| == 3 * |done|
    ensures forall i :: 0 <= i < |done| ==>
      && Notices(r, issuer, done)[3 * i] == Emit(done[i], Banned(issuer, MaskIp(r.users[done[i]].ip)))
      && Notices(r, issuer, done)[3 * i + 1] == Close(done[i])
      && Notices(r, issuer, done)[3 * i + 2] == RosterWithout(r, Elems(done[..i + 1]))
  {
    if done != [] {
      var p := done[..|done| - 1];
      var last := done[|done| - 1];
      NoticesInOrder(r, issuer, p);
      var ns := Notices(r, issuer, p);
      var all := Notices(r, issuer, done);
      assert all == ns + [Emit(last, Banned(issuer, MaskIp(r.users[last].ip))), Close(last), RosterWithout(r, Elems(done))];
      forall i | 0 <= i < |done|
        ensures && all[3 * i] == Emit(done[i], Banned(issuer, MaskIp(r.users[done[i]].ip)))
                && all[3 * i + 1] == Close(done[i])
                && all[3 * i + 2] == RosterWithout(r, Elems(done[..i + 1]))
      {
        if i < |p| {
          assert done[i] == p[i];
          assert done[..i + 1] == p[..i + 1];
          assert all[3 * i] == ns[3 * i] && all[3 * i + 1] == ns[3 * i + 1] && all[3 * i + 2] == ns[3 * i + 2];
        } else {
          assert done[..i + 1] == done;
        }
      }
    }
  }

  /** One iteration of the loop: visiting target `t[i]` adds its key to the Set. */
  lemma BanLoopStep(snap: map<SocketId, User>, t: seq<SocketId>, i: nat)
    requires Distinct(t) && i < |t|
    requires forall j :: 0 <= j < |t| ==> t[j] in snap
    ensures t[..i + 1][..i] == t[..i]
    ensures t[i] !in Elems(t[..i]) && Elems(t[..i + 1]) == Elems(t[..i]) + {t[i]}
    ensures BannedIps(snap, t[..i + 1]) == AddUnique(BannedIps(snap, t[..i]), NormalizeIp(snap[t[i]].ip))
  {
    var p := t[..i + 1];
    assert p[..i] == t[..i];
    assert p == t[..i] + [t[i]];
    assert BanKeys(snap, p)[..i] == BanKeys(snap, t[..i]);
  }

  /** The ban set entry the callback adds for a session with address `ip`: none when
      the normalised address is empty. */
  function BanKey(ip: string): set<string> {
    if NormalizeIp(ip) == "" then {} else {NormalizeIp(ip)}
  }

  /** The callback's effect on the state for the entry `[s, u]`: its key is banned, the
      socket is disconnected when live, and the entry is deleted. */
  function Visit(r: Registry, s: SocketId, u: User): Registry {
    Registry(r.conns - {s}, r.users - {s}, Drop(r.order, {s}), r.banlist + BanKey(u.ip))
  }

  /** The state once the loop has visited `done`, the entries being taken from `r`. */
  function Visited(r: Registry, done: seq<SocketId>): Registry
    requires forall i :: 0 <= i < |done| ==> done[i] in r.users
  {
    var gone := Elems(done);
    Registry(r.conns - gone, r.users - gone, Drop(r.order, gone), r.banlist + Elems(BannedIps(r.users, done)))
  }

  /** Before the loop nothing is visited. */
  lemma VisitedNothing(r: Registry)
    ensures Visited(r, []) == r
  {
    DropNothing(r.order);
    assert Elems<SocketId>([]) == {};
    MinusNothing(r.conns);
    MinusNothing(r.users);
  }

  /** The Set gains exactly the key the callback bans. */
  lemma ElemsAddUnique(acc: seq<string>, ip: string)
    ensures Elems(AddUnique(acc, NormalizeIp(ip))) == Elems(acc) + BanKey(ip)
  {
  }

  /** The state in the middle of the loop is consistent. */
  lemma VisitedConsistent(r: Registry, done: seq<SocketId>)
    requires Consistent(r) && forall i :: 0 <= i < |done| ==> done[i] in r.users
    ensures Consistent(Visited(r, done))
  {
    DropKeepsOrder(r.order, r.users, Elems(done));
  }

  /** Visiting one more target is one more run of the callback: the state, the Set
      and the emitted events all advance by that target, which is still registered
      when it is visited. */
  lemma VisitedStep(r: Registry, issuer: string, t: seq<SocketId>, i: nat)
    requires KeyOrder(r.order, r.users) && Distinct(t) && i < |t|
    requires forall j :: 0 <= j < |t| ==> t[j] in r.users
    ensures Visited(r, t[..i + 1]) == Visit(Visited(r, t[..i]), t[i], r.users[t[i]])
    ensures t[i] in Visited(r, t[..i]).users
    ensures t[i] in Visited(r, t[..i]).conns <==> t[i] in r.conns
    ensures BannedIps(r.users, t[..i + 1]) == AddUnique(BannedIps(r.users, t[..i]), NormalizeIp(r.users[t[i]].ip))
    ensures Notices(r, issuer, t[..i + 1]) == Notices(r, issuer, t[..i])
      + (if t[i] in r.conns
         then [Emit(t[i], Banned(issuer, MaskIp(r.users[t[i]].ip))), Close(t[i]), RosterWithout(r, Elems(t[..i + 1]))]
         else [])
  {
    var gone := Elems(t[..i]);
    BanLoopStep(r.users, t, i);
    MinusStep(r.conns, gone, t[i]);
    MinusStep(r.users, gone, t[i]);
    DropDrop(r.order, gone, {t[i]});
    ElemsAddUnique(BannedIps(r.users, t[..i]), r.users[t[i]].ip);
  }

  /** `/ban <name>` from socket `sid`, whose name is `issuer`, as one step. */
  function OnBan(r: Registry, sid: SocketId, issuer: string, name: string): (st: Step)
    requires KeyOrder(r.order, r.users)
    ensures KeyOrder(st.next.order, st.next.users)
  {
    var t := Targets(r.order, r.users, name);
    if t == [] then Step(r, [Emit(sid, System(NotFoundText(name)))])
    else
      var ips := BannedIps(r.users, t);
      var next := Visited(r, t);
      DropKeepsOrder(r.order, r.users, Elems(t));
      Step(next, Notices(r, issuer, t) + [Saved(next.banlist)]
        + [Broadcast(SystemChat(BannedByText(name, issuer))), Emit(sid, System(BannedIpsText(ips))), RosterEvent(next)])
  }

  /** A name nobody is registered under earns the sender a single notice and changes
      nothing. */
  lemma BanUnknownName(r: Registry, sid: SocketId, issuer: string, name: string)
    requires Consistent(r) && Named(r.users, name) == {}
    ensures OnBan(r, sid, issuer, name) == Step(r, [Emit(sid, System(NotFoundText(name)))])
  {
    TargetsAreNamed(r.order, r.users, name);
  }

  /** A ban removes exactly the sessions registered under the name, disconnects them,
      leaves every other session as it was, and keeps the state consistent. */
  lemma BanRemovesNamed(r: Registry, sid: SocketId, issuer: string, name: string)
    requires Consistent(r)
    ensures var n := OnBan(r, sid, issuer, name).next;
      && n.users == r.users - Named(r.users, name)
      && n.conns == r.conns - Named(r.users, name)
      && (forall s :: s in r.users && r.users[s].name != name ==> s in n.users && n.users[s] == r.users[s])
      && Consistent(n)
  {
    TargetsAreNamed(r.order, r.users, name);
    DropKeepsOrder(r.order, r.users, Named(r.users, name));
  }

  /** A ban keeps the state consistent. */
  lemma BanKeepsConsistent(r: Registry, sid: SocketId, issuer: string, name: string)
    requires Consistent(r)
    ensures Consistent(OnBan(r, sid, issuer, name).next)
  {
    BanRemovesNamed(r, sid, issuer, name);
  }

  /** The non-empty normalised addresses of the sessions registered under `name`. */
  function NamedKeys(users: map<SocketId, User>, name: string): set<string> {
    set s | s in Named(users, name) && NormalizeIp(users[s].ip) != "" :: NormalizeIp(users[s].ip)
  }

  /** The loop bans exactly the non-empty normalised addresses of the sessions
      registered under `name`. */
  lemma BannedIpsAreNamedKeys(order: seq<SocketId>, users: map<SocketId, User>, name: string)
    requires KeyOrder(order, users)
    ensures Elems(BannedIps(users, Targets(order, users, name))) == NamedKeys(users, name)
  {
    var t := Targets(order, users, name);
    TargetsAreNamed(order, users, name);
    var keys := BanKeys(users, t);
    DedupExact(keys);
    forall x | x in NamedKeys(users, name) ensures x in Elems(Dedup(keys)) {
      var s :| s in Named(users, name) && NormalizeIp(users[s].ip) != "" && NormalizeIp(users[s].ip) == x;
      assert s in Elems(t);
      var i :| 0 <= i < |t| && t[i] == s;
      assert keys[i] == x;
    }
    forall x | x in Elems(Dedup(keys)) ensures x in NamedKeys(users, name) {
      var i :| 0 <= i < |keys| && keys[i] == x;
      assert t[i] in Named(users, name);
    }
  }

  /** After a ban the ban set holds what it held before plus the non-empty normalised
      address of every session registered under the name, and nothing else. */
  lemma BanAddsAddresses(r: Registry, sid: SocketId, issuer: string, name: string)
    requires Consistent(r)
    ensures OnBan(r, sid, issuer, name).next.banlist == r.banlist + NamedKeys(r.users, name)
  {
    TargetsAreNamed(r.order, r.users, name);
    BannedIpsAreNamedKeys(r.order, r.users, name);
  }

  /** The loop itself never saves the ban set. */
  lemma {:induction false} NoticesNeverSave(r: Registry, issuer: string, done: seq<SocketId>)
    requires KeyOrder(r.order, r.users) && forall i :: 0 <= i < |done| ==> done[i] in r.users
    ensures forall j :: 0 <= j < |Notices(r, issuer, done)| ==> !Notices(r, issuer, done)[j].Saved?
  {
    if done != [] {
      NoticesNeverSave(r, issuer, done[..|done| - 1]);
    }
  }

  /** The events that close a ban, after the save. */
  function BanClosing(r: Registry, sid: SocketId, issuer: string, name: string, next: Registry): seq<Event>
    requires KeyOrder(r.order, r.users) && KeyOrder(next.order, next.users)
  {
    [Broadcast(SystemChat(BannedByText(name, issuer))),
     Emit(sid, System(BannedIpsText(BannedIps(r.users, Targets(r.order, r.users, name))))),
     RosterEvent(next)]
  }

  /** None of the closing events is a save. */
  lemma ClosingNeverSaves(r: Registry, sid: SocketId, issuer: string, name: string, next: Registry)
    requires KeyOrder(r.order, r.users) && KeyOrder(next.order, next.users)
    ensures forall j :: 0 <= j < |BanClosing(r, sid, issuer, name, next)| ==> !BanClosing(r, sid, issuer, name, next)[j].Saved?
  {
  }

  /** What a ban with at least one target emits: the loop's notices, the save, and the
      closing events. */
  lemma BanOut(r: Registry, sid: SocketId, issuer: string, name: string)
    requires KeyOrder(r.order, r.users) && Targets(r.order, r.users, name) != []
    ensures var st := OnBan(r, sid, issuer, name);
      st.out == Notices(r, issuer, Targets(r.order, r.users, name)) + [Saved(st.next.banlist)]
        + BanClosing(r, sid, issuer, name, st.next)
  {
  }

  /** Notices for connected targets, one save, then events that are not saves. */
  lemma NoticesThenSave(r: Registry, issuer: string, t: seq<SocketId>,
                        bans: set<string>, rest: seq<Event>, out: seq<Event>)
    requires KeyOrder(r.order, r.users)
    requires forall i :: 0 <= i < |t| ==> t[i] in r.users && t[i] in r.conns
    requires forall j :: 0 <= j < |rest| ==> !rest[j].Saved?
    requires out == Notices(r, issuer, t) + [Saved(bans)] + rest
    ensures |out| == 3 * |t| + 1 + |rest|
    ensures forall i :: 0 <= i < |t| ==>
      && out[3 * i] == Emit(t[i], Banned(issuer, MaskIp(r.users[t[i]].ip)))
      && out[3 * i + 1] == Close(t[i])
      && out[3 * i + 2] == RosterWithout(r, Elems(t[..i + 1]))
    ensures out[3 * |t|] == Saved(bans)
    ensures forall j :: 0 <= j < |out| && out[j].Saved? ==> j == 3 * |t|
  {
    NoticesInOrder(r, issuer, t);
    NoticesNeverSave(r, issuer, t);
    var ns := Notices(r, issuer, t);
    assert forall j :: 0 <= j < |ns| ==> out[j] == ns[j];
    assert forall j :: 0 <= j < |rest| ==> out[|ns| + 1 + j] == rest[j];
  }

  /** A successful ban first emits, for each target in key order, `banned`, its
      disconnect and the roster its `disconnect` handler sends without it, and then four
      more events: the save and three notices. */
  lemma BanNoticesFirst(r: Registry, sid: SocketId, issuer: string, name: string)
    requires Consistent(r) && Named(r.users, name) != {}
    ensures var t := Targets(r.order, r.users, name);
      var out := OnBan(r, sid, issuer, name).out;
      && |out| == 3 * |t| + 4
      && forall i :: 0 <= i < |t| ==>
           && out[3 * i] == Emit(t[i], Banned(issuer, MaskIp(r.users[t[i]].ip)))
           && out[3 * i + 1] == Close(t[i])
           && out[3 * i + 2] == RosterWithout(r, Elems(t[..i + 1]))
  {
    TargetsAreNamed(r.order, r.users, name);
    var st := OnBan(r, sid, issuer, name);
    BanOut(r, sid, issuer, name);
    ClosingNeverSaves(r, sid, issuer, name, st.next);
    NoticesThenSave(r, issuer, Targets(r.order, r.users, name), st.next.banlist,
      BanClosing(r, sid, issuer, name, st.next), st.out);
  }

  /** A successful ban saves the new ban set exactly once, right after the last
      target's roster. */
  lemma BanSavesOnce(r: Registry, sid: SocketId, issuer: string, name: string)
    requires Consistent(r) && Named(r.users, name) != {}
    ensures var t := Targets(r.order, r.users, name);
      var st := OnBan(r, sid, issuer, name);
      && 3 * |t| < |st.out| && st.out[3 * |t|] == Saved(st.next.banlist)
      && forall j :: 0 <= j < |st.out| && st.out[j].Saved? ==> j == 3 * |t|
  {
    TargetsAreNamed(r.order, r.users, name);
    var st := OnBan(r, sid, issuer, name);
    BanOut(r, sid, issuer, name);
    ClosingNeverSaves(r, sid, issuer, name, st.next);
    NoticesThenSave(r, issuer, Targets(r.order, r.users, name), st.next.banlist,
      BanClosing(r, sid, issuer, name, st.next), st.out);
  }

  /** A ban sticks: when the banned session's stored address came from a non-empty gate
      key that `normalizeIp` leaves as it is, a new connection with the same handshake
      is refused. */
  lemma BanRefusesReconnect(r: Registry, sid: SocketId, issuer: string, name: string, target: SocketId, hs: Handshake)
    requires Consistent(r)
    requires target in r.users && r.users[target].name == name
    requires r.conns[target] == SessionIp(hs)
    requires GateIp(hs) != "" && !(MappedPrefix <= GateIp(hs))
    ensures Refused(OnBan(r, sid, issuer, name).next.banlist, hs)
  {
    BanAddsAddresses(r, sid, issuer, name);
    NormalizeStable(RawAddress(hs));
    assert target in Named(r.users, name);
  }

  /** Re-normalising at ban time can ban a different key from the one the gate checks:
      a session admitted through a doubly mapped forwarded-for header is banned under
      the plain address, and the same handshake is admitted again. */
  lemma DoublyMappedEscapesBan()
    ensures var hs := Handshake(Wrappers.Some("::ffff:::ffff:10.0.0.5"), Wrappers.None, "127.0.0.1");
      && SessionIp(hs) == "::ffff:10.0.0.5"
      && NormalizeIp(SessionIp(hs)) == "10.0.0.5"
      && !Refused({"10.0.0.5"}, hs)
  {
    NormalizeNotIdempotent();
  }
}

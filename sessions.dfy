/** The session registry's data: the `users` object (socket id to name and address),
    kept as a map together with the insertion order of its keys, which is the order in
    which `Object.values` and `Object.entries` list them. */
module Sessions {
  import opened NetAddress

  type SocketId = string

  /** One value of `users`: `{ name, ip }`. */
  datatype User = User(name: string, ip: string)

  /** One element of the roster sent as `user list`: `{ name, ipMasked }`. */
  datatype RosterEntry = RosterEntry(name: string, ipMasked: string)

  predicate Distinct<T(==)>(s: seq<T>) {
    forall i, j :: 0 <= i < j < |s| ==> s[i] != s[j]
  }

  function Elems<T>(s: seq<T>): set<T> {
    set x | x in s
  }

  /** `order` lists every key of `users` exactly once. */
  predicate KeyOrder(order: seq<SocketId>, users: map<SocketId, User>) {
    && Distinct(order)
    && (forall i :: 0 <= i < |order| ==> order[i] in users)
    && (forall sid :: sid in users ==> sid in order)
  }

  /** `order` without the ids in `gone`, the others keeping their relative order. */
  function Drop(order: seq<SocketId>, gone: set<SocketId>): seq<SocketId>
  {
    if order == [] then []
    else (if order[0] in gone then [] else [order[0]]) + Drop(order[1..], gone)
  }

  /** `Drop` keeps exactly the ids outside `gone`. */
  lemma {:induction false} DropMembers(order: seq<SocketId>, gone: set<SocketId>)
    ensures forall x :: x in Drop(order, gone) <==> x in order && x !in gone
  {
    if order != [] {
      DropMembers(order[1..], gone);
      assert forall x :: x in order <==> x == order[0] || x in order[1..];
    }
  }

  /** Dropping ids keeps a duplicate-free order duplicate-free. */
  lemma {:induction false} DropDistinct(order: seq<SocketId>, gone: set<SocketId>)
    requires Distinct(order)
    ensures Distinct(Drop(order, gone))
  {
    if order != [] {
      DropDistinct(order[1..], gone);
      DropMembers(order[1..], gone);
      assert order[0] !in order[1..];
    }
  }

  /** Dropping nothing keeps the order as it is. */
  lemma {:induction false} DropNothing(order: seq<SocketId>)
    ensures Drop(order, {}) == order
  {
    if order != [] {
      DropNothing(order[1..]);
    }
  }

  /** Dropping two sets one after the other is dropping their union. */
  lemma {:induction false} DropDrop(order: seq<SocketId>, a: set<SocketId>, b: set<SocketId>)
    ensures Drop(Drop(order, a), b) == Drop(order, a + b)
  {
    if order != [] {
      DropDrop(order[1..], a, b);
      var head := if order[0] in a then [] else [order[0]];
      DropAppend(head, Drop(order[1..], a), b);
    }
  }

  lemma {:induction false} DropAppend(x: seq<SocketId>, y: seq<SocketId>, gone: set<SocketId>)
    ensures Drop(x + y, gone) == Drop(x, gone) + Drop(y, gone)
  {
    if x == [] {
      assert x + y == y;
    } else {
      var xy := x + y;
      assert xy != [] && xy[0] == x[0];
      assert xy[1..] == x[1..] + y;
      var head := if x[0] in gone then [] else [x[0]];
      var a := Drop(x[1..], gone);
      var b := Drop(y, gone);
      DropAppend(x[1..], y, gone);
      assert Drop(xy, gone) == head + (a + b);
      assert Drop(x, gone) == head + a;
      assert head + (a + b) == (head + a) + b;
    }
  }

  /** Removing keys from the map and the same ids from the order keeps them in step. */
  lemma DropKeepsOrder(order: seq<SocketId>, users: map<SocketId, User>, gone: set<SocketId>)
    requires KeyOrder(order, users)
    ensures KeyOrder(Drop(order, gone), users - gone)
  {
    var r := Drop(order, gone);
    DropDistinct(order, gone);
    DropMembers(order, gone);
    forall i | 0 <= i < |r| ensures r[i] in users - gone {
      assert r[i] in r;
    }
  }

  /** Removing keys one more at a time. */
  lemma MinusStep<K, V>(m: map<K, V>, gone: set<K>, k: K)
    ensures (m - gone) - {k} == m - (gone + {k})
  {
  }

  /** Removing no keys changes nothing. */
  lemma MinusNothing<K, V>(m: map<K, V>)
    ensures m - {} == m
  {
  }

  /** Where `users[sid] = ...` leaves the key: a new key goes last, an existing key
      keeps its place. */
  function PutOrder(order: seq<SocketId>, users: map<SocketId, User>, sid: SocketId): seq<SocketId> {
    if sid in users then order else order + [sid]
  }

  lemma PutKeepsOrder(order: seq<SocketId>, users: map<SocketId, User>, sid: SocketId, u: User)
    requires KeyOrder(order, users)
    ensures KeyOrder(PutOrder(order, users, sid), users[sid := u])
  {
  }

  /** The roster element shown for one session. */
  function Entry(u: User): RosterEntry {
    RosterEntry(u.name, MaskIp(u.ip))
  }

  /** `Object.values(users).map(u => ({ name: u.name, ipMasked: maskIp(u.ip) }))`. */
  function Roster(order: seq<SocketId>, users: map<SocketId, User>): seq<RosterEntry>
    requires forall i :: 0 <= i < |order| ==> order[i] in users
  {
    seq(|order|, i requires 0 <= i < |order| => Entry(users[order[i]]))
  }

  /** A duplicate-free sequence has as many distinct elements as it has positions. */
  lemma {:induction false} DistinctCard<T>(s: seq<T>)
    requires Distinct(s)
    ensures |Elems(s)| == |s|
  {
    if s != [] {
      DistinctCard(s[1..]);
      assert Elems(s) == {s[0]} + Elems(s[1..]);
      assert s[0] !in Elems(s[1..]);
    }
  }

  /** The roster has one element per registered socket, in key order, and every
      registered socket appears in it with its name and masked address. */
  lemma RosterOnePerSession(order: seq<SocketId>, users: map<SocketId, User>)
    requires KeyOrder(order, users)
    ensures |Roster(order, users)| == |users|
    ensures forall sid :: sid in users ==>
      exists i :: 0 <= i < |order| && order[i] == sid && Roster(order, users)[i] == Entry(users[sid])
  {
    DistinctCard(order);
    assert Elems(order) == users.Keys;
  }

  /** `Object.entries(users).filter(([sid, u]) => u.name === name)`, as socket ids in
      key order. */
  function Targets(order: seq<SocketId>, users: map<SocketId, User>, name: string): (t: seq<SocketId>)
    requires forall i :: 0 <= i < |order| ==> order[i] in users
    ensures forall x :: x in t <==> x in order && x in users && users[x].name == name
    ensures Distinct(order) ==> Distinct(t)
  {
    if order == [] then []
    else (if users[order[0]].name == name then [order[0]] else []) + Targets(order[1..], users, name)
  }

  /** The sockets registered under `name`. */
  function Named(users: map<SocketId, User>, name: string): set<SocketId> {
    set sid | sid in users && users[sid].name == name
  }

  /** The ban loop visits exactly the sockets registered under the target name. */
  lemma TargetsAreNamed(order: seq<SocketId>, users: map<SocketId, User>, name: string)
    requires KeyOrder(order, users)
    ensures Elems(Targets(order, users, name)) == Named(users, name)
    ensures Targets(order, users, name) == [] <==> Named(users, name) == {}
  {
    var t := Targets(order, users, name);
    if t != [] {
      assert t[0] in Named(users, name);
    }
  }
}

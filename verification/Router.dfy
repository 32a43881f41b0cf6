/** The local router of local.go: four indexes kept as nested maps. What they mean is flat:
    who is registered for which pair of an address and an identifier. */
module Router {
  import opened Names

  /** The identity of a session object. */
  datatype Target = Target(sessionID: Name, userID: Name, deviceID: Name)

  type Index = map<Name, map<Name, Target>>

  type Relation = map<(Name, Name), Target>

  /** The meaning of the router: fan-out by user and device, one session per device, and the
      members of rooms and topics by session. */
  datatype Tables = Tables(users: Relation, devices: map<Name, Target>, rooms: Relation, topics: Relation)

  ghost function Pairs(ix: Index): set<(Name, Name)> {
    set a, b | a in ix && b in ix[a] :: (a, b)
  }

  /** A nested map without its nesting; empty inner maps cannot be seen. */
  ghost function Flat(ix: Index): (rel: Relation)
    ensures rel.Keys == Pairs(ix)
    ensures forall p :: p in rel ==> rel[p] == ix[p.0][p.1]
  {
    FlatOn(ix, Pairs(ix))
  }

  ghost function FlatOn(ix: Index, pairs: set<(Name, Name)>): (rel: Relation)
    requires pairs <= Pairs(ix)
    ensures rel.Keys == pairs
    ensures forall p :: p in pairs ==> rel[p] == ix[p.0][p.1]
  {
    if pairs == {} then map[]
    else
      var p :| p in pairs;
      FlatOn(ix, pairs - {p})[p := ix[p.0][p.1]]
  }

  ghost function Without(rel: Relation, id: Name): Relation {
    rel - set p | p in rel && p.1 == id
  }

  ghost function Members(rel: Relation, to: Name): set<Target> {
    set p | p in rel && p.0 == to :: rel[p]
  }

  ghost function Join(t: Tables, room: Name, sess: Target): Tables {
    t.(rooms := t.rooms[(room, sess.sessionID) := sess])
  }

  ghost function Leave(t: Tables, room: Name, sess: Target): Tables {
    t.(rooms := t.rooms - {(room, sess.sessionID)})
  }

  ghost function Subscribe(t: Tables, topic: Name, sess: Target): Tables {
    t.(topics := t.topics[(topic, sess.sessionID) := sess])
  }

  ghost function Unsubscribe(t: Tables, topic: Name, sess: Target): Tables {
    t.(topics := t.topics - {(topic, sess.sessionID)})
  }

  ghost function Purge(t: Tables, sess: Target): Tables {
    t.(rooms := Without(t.rooms, sess.sessionID), topics := Without(t.topics, sess.sessionID))
  }

  ghost function Register(t: Tables, user: Name, sess: Target): Tables {
    t.(users := t.users[(user, sess.deviceID) := sess], devices := t.devices[sess.deviceID := sess])
  }

  ghost function Unregister(t: Tables, user: Name, device: Name): Tables {
    t.(users := t.users - {(user, device)}, devices := t.devices - {device})
  }

  // ---- Nested and flat --------------------------------------------------------------

  lemma FlatAt(ix: Index, a: Name, b: Name)
    ensures (a, b) in Flat(ix) <==> a in ix && b in ix[a]
    ensures (a, b) in Flat(ix) ==> Flat(ix)[(a, b)] == ix[a][b]
  {
  }

  /** Two nested maps that agree entry by entry mean the same. */
  lemma FlatExtensional(ix: Index, rel: Relation)
    requires forall a, b :: (a, b) in rel <==> a in ix && b in ix[a]
    requires forall a, b :: a in ix && b in ix[a] ==> (a, b) in rel && rel[(a, b)] == ix[a][b]
    ensures Flat(ix) == rel
  {
    forall p: (Name, Name) ensures p in Flat(ix) <==> p in rel {
      FlatAt(ix, p.0, p.1);
      assert p == (p.0, p.1);
    }
  }

  method PutEntry(ix: Index, a: Name, b: Name, t: Target) returns (r: Index)
    ensures Flat(r) == Flat(ix)[(a, b) := t]
  {
    r := ix;
    if a !in r {
      r := r[a := map[]];
    }
    r := r[a := r[a][b := t]];
    forall c, d ensures (c, d) in Flat(ix) <==> c in ix && d in ix[c] {
      FlatAt(ix, c, d);
    }
    hide Flat;
    FlatExtensional(r, Flat(ix)[(a, b) := t]);
  }

  /** Pruning an inner map that has become empty cannot be observed. */
  method DropEntry(ix: Index, a: Name, b: Name) returns (r: Index)
    ensures Flat(r) == Flat(ix) - {(a, b)}
  {
    r := ix;
    if a in r {
      r := r[a := r[a] - {b}];
      assert forall d :: d in ix[a] && d != b ==> d in r[a];
      if r[a] == map[] {
        r := r - {a};
      }
    }
    forall c, d ensures (c, d) in Flat(ix) <==> c in ix && d in ix[c] {
      FlatAt(ix, c, d);
    }
    hide Flat;
    FlatExtensional(r, Flat(ix) - {(a, b)});
  }

  class LocalRouter {
    var userConns: Index
    var deviceConn: map<Name, Target>
    var rooms: Index
    var topics: Index

    ghost function View(): Tables
      reads this
    {
      Tables(Flat(userConns), deviceConn, Flat(rooms), Flat(topics))
    }

    /** Entries are filed under their own identifiers, and every session of the device index
        is in the fan-out of some user. */
    ghost predicate Valid()
      reads this
    {
      Filed(View())
    }

    constructor ()
      ensures Valid() && View() == Tables(map[], map[], map[], map[])
    {
      userConns, deviceConn, rooms, topics := map[], map[], map[], map[];
    }

    method RegisterSession(user: Name, device: Name, sess: Target) returns (kicked: Option<Target>)
      requires Valid()
      modifies this
      ensures Valid() && View() == Register(old(View()), user, sess)
      ensures var devices := old(deviceConn);
        kicked == if sess.deviceID in devices && devices[sess.deviceID].sessionID == sess.sessionID
                  then Some(devices[sess.deviceID]) else None
    {
      hide Flat, Filed;
      RegisterKeepsFiled(View(), user, sess);
      kicked := None;
      if sess.deviceID in deviceConn && deviceConn[sess.deviceID].sessionID == sess.sessionID {
        kicked := Some(deviceConn[sess.deviceID]);
      }
      deviceConn := deviceConn[sess.deviceID := sess];
      userConns := PutEntry(userConns, user, sess.deviceID, sess);
    }

    method UnregisterSession(user: Name, device: Name)
      requires Valid()
      modifies this
      ensures Valid() && View() == Unregister(old(View()), user, device)
    {
      hide Flat, Filed;
      UnregisterKeepsFiled(View(), user, device);
      deviceConn := deviceConn - {device};
      userConns := DropEntry(userConns, user, device);
    }

    method JoinRoom(room: Name, sess: Target)
      requires Valid()
      modifies this`rooms
      ensures Valid() && View() == Join(old(View()), room, sess)
    {
      hide Flat, Pairs;
      rooms := PutEntry(rooms, room, sess.sessionID, sess);
    }

    method LeaveRoom(room: Name, sess: Target)
      requires Valid()
      modifies this`rooms
      ensures Valid() && View() == Leave(old(View()), room, sess)
    {
      hide Flat, Pairs;
      rooms := DropEntry(rooms, room, sess.sessionID);
    }

    method SubscribeTopic(topic: Name, sess: Target)
      requires Valid()
      modifies this`topics
      ensures Valid() && View() == Subscribe(old(View()), topic, sess)
    {
      hide Flat, Pairs;
      topics := PutEntry(topics, topic, sess.sessionID, sess);
    }

    method UnsubscribeTopic(topic: Name, sess: Target)
      requires Valid()
      modifies this`topics
      ensures Valid() && View() == Unsubscribe(old(View()), topic, sess)
    {
      hide Flat, Pairs;
      topics := DropEntry(topics, topic, sess.sessionID);
    }

    method UnregisterAll(sess: Target)
      requires Valid()
      modifies this`rooms, this`topics
      ensures Valid() && View() == Purge(old(View()), sess)
    {
      hide Flat, Pairs;
      rooms := Sweep(rooms, sess.sessionID);
      topics := Sweep(topics, sess.sessionID);
    }

    /** The sessions a downlink address stands for on this node: as a user, as a room and as a
        topic at once, with repetitions. */
    method Resolve(to: Name) returns (conns: seq<Target>, ok: bool)
      requires Valid()
      ensures multiset(conns) == multiset(Members(View().users, to)) + multiset(Members(View().rooms, to))
        + multiset(Members(View().topics, to))
      ensures ok <==> Members(View().users, to) + Members(View().rooms, to) + Members(View().topics, to) != {}
      ensures forall x :: x in conns <==>
        || (to in userConns && x in userConns[to].Values)
        || (to in rooms && x in rooms[to].Values)
        || (to in topics && x in topics[to].Values)
    {
      hide Flat, Members, Filed, Distinct;
      FiledIsDistinct(View());
      conns := AppendMembers([], userConns, to);
      conns := AppendMembers(conns, rooms, to);
      conns := AppendMembers(conns, topics, to);
      ok := |conns| != 0;
      assert |multiset(conns)| == |conns|;
      ResolvedAre(conns, to);
    }

    lemma ResolvedAre(conns: seq<Target>, to: Name)
      requires multiset(conns) == multiset(Members(View().users, to)) + multiset(Members(View().rooms, to))
        + multiset(Members(View().topics, to))
      ensures forall x :: x in conns <==>
        || (to in userConns && x in userConns[to].Values)
        || (to in rooms && x in rooms[to].Values)
        || (to in topics && x in topics[to].Values)
    {
      hide Flat, Members;
      MembersOfInner(userConns, to);
      MembersOfInner(rooms, to);
      MembersOfInner(topics, to);
      forall x ensures x in conns <==>
        x in Members(View().users, to) || x in Members(View().rooms, to) || x in Members(View().topics, to)
      {
        assert x in conns <==> x in multiset(conns);
      }
    }
  }

  /** Every entry of an inner map is a different session. */
  ghost predicate Distinct(rel: Relation) {
    forall p, q :: p in rel && q in rel && p.0 == q.0 && rel[p] == rel[q] ==> p == q
  }

  lemma FiledIsDistinct(t: Tables)
    requires Filed(t)
    ensures Distinct(t.users) && Distinct(t.rooms) && Distinct(t.topics)
  {
  }

  lemma MembersOfInner(ix: Index, to: Name)
    ensures Members(Flat(ix), to) == if to in ix then set k | k in ix[to] :: ix[to][k] else {}
  {
    if to in ix {
      forall t | t in (set k | k in ix[to] :: ix[to][k]) ensures t in Members(Flat(ix), to) {
        var k :| k in ix[to] && ix[to][k] == t;
        assert (to, k) in Flat(ix);
      }
    }
  }

  method AppendMembers(conns: seq<Target>, ix: Index, to: Name) returns (r: seq<Target>)
    requires Distinct(Flat(ix))
    ensures multiset(r) == multiset(conns) + multiset(Members(Flat(ix), to))
  {
    MembersOfInner(ix, to);
    r := conns;
    if to in ix {
      forall j, k | j in ix[to] && k in ix[to] && ix[to][j] == ix[to][k] ensures j == k {
        FlatAt(ix, to, j);
        FlatAt(ix, to, k);
        assert (to, j) == (to, k);
      }
      r := AppendAll(conns, ix[to]);
    }
  }

  method SweepInner(m: map<Name, Target>, id: Name) returns (v: map<Name, Target>)
    ensures v == m - {id}
  {
    v := m;
    var ids := m.Keys;
    while ids != {}
      invariant ids <= m.Keys
      invariant v == if id in ids then m else m - {id}
      decreases |ids|
    {
      var b :| b in ids;
      if b == id {
        v := v - {b};
      }
      ids := ids - {b};
    }
  }

  /** Deletes one session from every inner map, entry by entry; empty inner maps stay. */
  method Sweep(ix: Index, id: Name) returns (r: Index)
    ensures Flat(r) == Without(Flat(ix), id)
  {
    r := ix;
    var todo := ix.Keys;
    while todo != {}
      invariant todo <= ix.Keys && r.Keys == ix.Keys
      invariant forall a :: a in ix ==> r[a] == if a in todo then ix[a] else ix[a] - {id}
      decreases |todo|
    {
      var a :| a in todo;
      var v := SweepInner(ix[a], id);
      r := r[a := v];
      todo := todo - {a};
    }
    forall c, d ensures (c, d) in Flat(ix) <==> c in ix && d in ix[c] {
      FlatAt(ix, c, d);
    }
    hide Flat;
    FlatExtensional(r, Without(Flat(ix), id));
  }

  method AppendAll(conns: seq<Target>, m: map<Name, Target>) returns (r: seq<Target>)
    requires forall j, k :: j in m && k in m && m[j] == m[k] ==> j == k
    ensures multiset(r) == multiset(conns) + multiset(set k | k in m :: m[k])
  {
    r := conns;
    var todo := m.Keys;
    ghost var done: set<Target> := {};
    while todo != {}
      invariant todo <= m.Keys
      invariant done == set k | k in m && k !in todo :: m[k]
      invariant multiset(r) == multiset(conns) + multiset(done)
      decreases |todo|
    {
      var k :| k in todo;
      assert m[k] !in done;
      r := r + [m[k]];
      todo := todo - {k};
      done := done + {m[k]};
    }
  }

  // ---- What every operation keeps ---------------------------------------------------

  ghost predicate Filed(t: Tables) {
    && (forall p :: p in t.users ==> t.users[p].deviceID == p.1)
    && (forall p :: p in t.rooms ==> t.rooms[p].sessionID == p.1)
    && (forall p :: p in t.topics ==> t.topics[p].sessionID == p.1)
    && (forall d :: d in t.devices ==> exists u :: (u, d) in t.users && t.users[(u, d)] == t.devices[d])
  }

  lemma RegisterKeepsFiled(t: Tables, user: Name, sess: Target)
    requires Filed(t)
    ensures Filed(Register(t, user, sess))
  {
    var r := Register(t, user, sess);
    forall d | d in r.devices ensures exists u :: (u, d) in r.users && r.users[(u, d)] == r.devices[d] {
      if d == sess.deviceID {
        assert r.users[(user, d)] == r.devices[d];
      } else {
        var u :| (u, d) in t.users && t.users[(u, d)] == t.devices[d];
        assert r.users[(u, d)] == r.devices[d];
      }
    }
  }

  lemma UnregisterKeepsFiled(t: Tables, user: Name, device: Name)
    requires Filed(t)
    ensures Filed(Unregister(t, user, device))
  {
    var r := Unregister(t, user, device);
    forall d | d in r.devices ensures exists u :: (u, d) in r.users && r.users[(u, d)] == r.devices[d] {
      var u :| (u, d) in t.users && t.users[(u, d)] == t.devices[d];
      assert (u, d) in r.users && r.users[(u, d)] == r.devices[d];
    }
  }

  // ---- What every operation does to the answers of Resolve ----------------------------

  lemma MembersMeans(rel: Relation)
    ensures forall a, x :: x in Members(rel, a) <==> exists b :: (a, b) in rel && rel[(a, b)] == x
  {
    forall a, x ensures x in Members(rel, a) <==> exists b :: (a, b) in rel && rel[(a, b)] == x {
      if x in Members(rel, a) {
        var p :| p in rel && p.0 == a && rel[p] == x;
        assert p == (a, p.1);
      }
    }
  }

  /** Entering a session under an address adds it there in place of what had its slot, and
      changes no other address. */
  lemma PutOnMembers(rel: Relation, to: Name, slot: Name, sess: Target)
    ensures var r := rel[(to, slot) := sess];
      forall a, x :: x in Members(r, a) <==>
        (a == to && x == sess) || exists b :: (a, b) in rel && rel[(a, b)] == x && (a, b) != (to, slot)
  {
    hide Members;
    var r := rel[(to, slot) := sess];
    MembersMeans(r);
    forall a, x ensures x in Members(r, a) <==>
      (a == to && x == sess) || exists b :: (a, b) in rel && rel[(a, b)] == x && (a, b) != (to, slot)
    {
      assert a == to && x == sess ==> r[(a, slot)] == x;
      if b :| (a, b) in rel && rel[(a, b)] == x && (a, b) != (to, slot) {
        assert r[(a, b)] == x;
      }
    }
  }

  lemma DropOnMembers(rel: Relation, to: Name, slot: Name)
    ensures var r := rel - {(to, slot)};
      forall a, x :: x in Members(r, a) <==> exists b :: (a, b) in rel && rel[(a, b)] == x && (a, b) != (to, slot)
  {
    hide Members;
    var r := rel - {(to, slot)};
    MembersMeans(r);
    forall a, x ensures x in Members(r, a) <==> exists b :: (a, b) in rel && rel[(a, b)] == x && (a, b) != (to, slot) {
      if b :| (a, b) in rel && rel[(a, b)] == x && (a, b) != (to, slot) {
        assert r[(a, b)] == x;
      }
    }
  }

  /** A registered session is reached by its user's address in place of any session of the same
      device, and nothing else changes for any address. */
  lemma RegisterOnMembers(t: Tables, user: Name, sess: Target)
    requires Filed(t)
    ensures var r := Register(t, user, sess);
      && (forall a, x :: x in Members(r.users, a) <==>
            (a == user && x == sess) || (x in Members(t.users, a) && !(a == user && x.deviceID == sess.deviceID)))
      && r.rooms == t.rooms && r.topics == t.topics
      && r.devices == t.devices[sess.deviceID := sess]
  {
    hide Members;
    PutOnMembers(t.users, user, sess.deviceID, sess);
    MembersMeans(t.users);
  }

  lemma UnregisterOnMembers(t: Tables, user: Name, device: Name)
    requires Filed(t)
    ensures var r := Unregister(t, user, device);
      && (forall a, x :: x in Members(r.users, a) <==> x in Members(t.users, a) && !(a == user && x.deviceID == device))
      && r.rooms == t.rooms && r.topics == t.topics
      && r.devices == t.devices - {device}
  {
    hide Members;
    DropOnMembers(t.users, user, device);
    MembersMeans(t.users);
  }

  lemma JoinOnMembers(t: Tables, room: Name, sess: Target)
    requires Filed(t)
    ensures var r := Join(t, room, sess);
      && (forall a, x :: x in Members(r.rooms, a) <==>
            (a == room && x == sess) || (x in Members(t.rooms, a) && !(a == room && x.sessionID == sess.sessionID)))
      && r == t.(rooms := r.rooms)
  {
    hide Members;
    PutOnMembers(t.rooms, room, sess.sessionID, sess);
    MembersMeans(t.rooms);
  }

  lemma LeaveOnMembers(t: Tables, room: Name, sess: Target)
    requires Filed(t)
    ensures var r := Leave(t, room, sess);
      && (forall a, x :: x in Members(r.rooms, a) <==> x in Members(t.rooms, a) && !(a == room && x.sessionID == sess.sessionID))
      && r == t.(rooms := r.rooms)
  {
    hide Members;
    DropOnMembers(t.rooms, room, sess.sessionID);
    MembersMeans(t.rooms);
  }

  lemma SubscribeOnMembers(t: Tables, topic: Name, sess: Target)
    requires Filed(t)
    ensures var r := Subscribe(t, topic, sess);
      && (forall a, x :: x in Members(r.topics, a) <==>
            (a == topic && x == sess) || (x in Members(t.topics, a) && !(a == topic && x.sessionID == sess.sessionID)))
      && r == t.(topics := r.topics)
  {
    hide Members;
    PutOnMembers(t.topics, topic, sess.sessionID, sess);
    MembersMeans(t.topics);
  }

  lemma UnsubscribeOnMembers(t: Tables, topic: Name, sess: Target)
    requires Filed(t)
    ensures var r := Unsubscribe(t, topic, sess);
      && (forall a, x :: x in Members(r.topics, a) <==> x in Members(t.topics, a) && !(a == topic && x.sessionID == sess.sessionID))
      && r == t.(topics := r.topics)
  {
    hide Members;
    DropOnMembers(t.topics, topic, sess.sessionID);
    MembersMeans(t.topics);
  }

  /** A purged session is reached by no room and no topic; everyone else is reached as before. */
  lemma PurgeOnMembers(t: Tables, sess: Target)
    requires Filed(t)
    ensures var r := Purge(t, sess);
      && (forall a, x :: x in Members(r.rooms, a) <==> x in Members(t.rooms, a) && x.sessionID != sess.sessionID)
      && (forall a, x :: x in Members(r.topics, a) <==> x in Members(t.topics, a) && x.sessionID != sess.sessionID)
      && r == t.(rooms := r.rooms, topics := r.topics)
  {
    hide Members;
    var r := Purge(t, sess);
    MembersMeans(t.rooms);
    MembersMeans(t.topics);
    MembersMeans(r.rooms);
    MembersMeans(r.topics);
  }
}

/** The session registry: one session per user and device, found again under two indexes; and
    what it does when an acknowledgement is overdue. */
module Registry {
  import opened Messages
  import opened Names
  import opened Connection
  import opened Session
  import opened SessionSpec
  import R = Router

  datatype Pair = Pair(user: Name, device: Name)

  /** The registry without its nesting: sessions by identifier, and by user and device. */
  datatype Book<S> = Book(sessions: map<Name, S>, users: map<Pair, S>)

  /** A session for the pair is created unless there is one. */
  function Call<S>(b: Book<S>, idOf: Pair -> Name, pair: Pair, created: S): Book<S> {
    if pair in b.users then b
    else Book(b.sessions[idOf(pair) := created], b.users[pair := created])
  }

  // ---- Over whole runs: a session is known by the number of the call that created it ---

  function Calls(idOf: Pair -> Name, calls: seq<Pair>): Book<nat> {
    if calls == [] then Book(map[], map[])
    else
      var n := |calls| - 1;
      Call(Calls(idOf, calls[..n]), idOf, calls[n], n)
  }

  /** The first call for the same pair. */
  function First(calls: seq<Pair>, pair: Pair): (i: nat)
    requires pair in calls
    ensures i < |calls| && calls[i] == pair && pair !in calls[..i]
  {
    if calls[0] == pair then 0
    else
      assert calls == [calls[0]] + calls[1..];
      var i := First(calls[1..], pair) + 1;
      assert calls[..i] == [calls[0]] + calls[1..][..i - 1];
      i
  }

  lemma FirstOfPrefix(calls: seq<Pair>, n: nat, pair: Pair)
    requires n <= |calls| && pair in calls[..n]
    ensures First(calls, pair) == First(calls[..n], pair)
  {
    var i, j := First(calls, pair), First(calls[..n], pair);
    assert calls[..n][..j] == calls[..j];
    assert forall k :: 0 <= k < i ==> calls[..i][k] == calls[k];
    assert forall k :: 0 <= k < j ==> calls[..j][k] == calls[k];
  }

  /** Every call for a pair is answered with the session its first call created; exactly the
      first call creates one. */
  lemma {:induction false} RegistryIsStable(idOf: Pair -> Name, calls: seq<Pair>)
    ensures forall p :: p in Calls(idOf, calls).users <==> p in calls
    ensures forall p :: p in calls ==> Calls(idOf, calls).users[p] == First(calls, p)
  {
    if calls != [] {
      var n := |calls| - 1;
      var before := calls[..n];
      RegistryIsStable(idOf, before);
      assert calls == before + [calls[n]];
      forall p | p in calls ensures Calls(idOf, calls).users[p] == First(calls, p) {
        if p in before {
          FirstOfPrefix(calls, n, p);
        } else {
          assert forall k :: 0 <= k < n ==> calls[k] == before[k];
        }
      }
    }
  }

  predicate DistinctIds(idOf: Pair -> Name, pairs: set<Pair>) {
    forall p, q :: p in pairs && q in pairs && idOf(p) == idOf(q) ==> p == q
  }

  function IdsOf(idOf: Pair -> Name, pairs: set<Pair>): set<Name> {
    set p | p in pairs :: idOf(p)
  }

  lemma IdsAdd(idOf: Pair -> Name, pairs: set<Pair>, pair: Pair)
    ensures IdsOf(idOf, pairs + {pair}) == IdsOf(idOf, pairs) + {idOf(pair)}
  {
  }

  ghost predicate Owns(idOf: Pair -> Name, b: Book<nat>, id: Name, p: Pair) {
    id in b.sessions && p in b.users && idOf(p) == id && b.users[p] == b.sessions[id]
  }

  ghost predicate Numbered(idOf: Pair -> Name, b: Book<nat>, n: nat) {
    && (forall p :: p in b.users ==> idOf(p) in b.sessions && b.users[p] <= b.sessions[idOf(p)])
    && (forall id :: id in b.sessions ==> b.sessions[id] < n)
    && (forall p, q :: p in b.users && q in b.users && b.users[p] == b.users[q] ==> p == q)
  }

  /** An identifier leads to the session that was created last among the pairs sharing it. */
  ghost predicate LeadsToLast(idOf: Pair -> Name, b: Book<nat>, n: nat) {
    && b.sessions.Keys == IdsOf(idOf, b.users.Keys)
    && Numbered(idOf, b, n)
    && (forall id :: id in b.sessions ==> exists p :: Owns(idOf, b, id, p))
  }

  lemma CallKeepsNumbered(idOf: Pair -> Name, b: Book<nat>, pair: Pair, n: nat)
    requires Numbered(idOf, b, n)
    ensures Numbered(idOf, Call(b, idOf, pair, n), n + 1)
  {
  }

  lemma CallKeepsOwners(idOf: Pair -> Name, b: Book<nat>, pair: Pair, n: nat, id: Name)
    requires id in b.sessions ==> exists p :: Owns(idOf, b, id, p)
    requires id in Call(b, idOf, pair, n).sessions
    ensures exists p :: Owns(idOf, Call(b, idOf, pair, n), id, p)
  {
    var c := Call(b, idOf, pair, n);
    if pair !in b.users && id == idOf(pair) {
      assert Owns(idOf, c, id, pair);
    } else {
      var p :| Owns(idOf, b, id, p);
      assert Owns(idOf, c, id, p);
    }
  }

  lemma CallLeadsToLast(idOf: Pair -> Name, b: Book<nat>, pair: Pair, n: nat)
    requires LeadsToLast(idOf, b, n)
    ensures LeadsToLast(idOf, Call(b, idOf, pair, n), n + 1)
  {
    hide Numbered, Owns, IdsOf;
    var c := Call(b, idOf, pair, n);
    if pair !in b.users {
      IdsAdd(idOf, b.users.Keys, pair);
      assert c.users.Keys == b.users.Keys + {pair};
    }
    CallKeepsNumbered(idOf, b, pair, n);
    forall id | id in c.sessions ensures exists p :: Owns(idOf, c, id, p) {
      CallKeepsOwners(idOf, b, pair, n, id);
    }
  }

  lemma {:induction false} SessionsById(idOf: Pair -> Name, calls: seq<Pair>)
    ensures LeadsToLast(idOf, Calls(idOf, calls), |calls|)
  {
    if calls != [] {
      var n := |calls| - 1;
      SessionsById(idOf, calls[..n]);
      hide LeadsToLast;
      CallLeadsToLast(idOf, Calls(idOf, calls[..n]), calls[n], n);
    }
  }

  lemma {:induction false} IdsAreFewer(idOf: Pair -> Name, pairs: set<Pair>)
    ensures |IdsOf(idOf, pairs)| <= |pairs|
    ensures |IdsOf(idOf, pairs)| == |pairs| <==> DistinctIds(idOf, pairs)
    decreases |pairs|
  {
    if pairs == {} {
      assert IdsOf(idOf, pairs) == {};
    } else {
      var p :| p in pairs;
      var rest := pairs - {p};
      var id := idOf(p);
      IdsAreFewer(idOf, rest);
      assert IdsOf(idOf, pairs) == IdsOf(idOf, rest) + {id};
      if id in IdsOf(idOf, rest) {
        var q :| q in rest && idOf(q) == id;
        assert p != q && p in pairs && q in pairs;
        assert !DistinctIds(idOf, pairs);
      } else if DistinctIds(idOf, rest) {
        forall a, b | a in pairs && b in pairs && idOf(a) == idOf(b) ensures a == b {
          assert a != p ==> a in rest && idOf(a) in IdsOf(idOf, rest);
          assert b != p ==> b in rest && idOf(b) in IdsOf(idOf, rest);
        }
      } else {
        assert rest <= pairs;
      }
    }
  }

  function Devices<S>(users: map<Pair, S>, user: Name): set<Pair> {
    set p | p in users && p.user == user
  }

  ghost function Pick(names: set<Name>): Name
    requires names != {}
    ensures Pick(names) in names
  {
    var u :| u in names;
    u
  }

  /** The sum of the numbers of devices of the given users. */
  ghost function DeviceTotal<S>(users: map<Pair, S>, names: set<Name>): nat {
    if names == {} then 0
    else
      var u := Pick(names);
      |Devices(users, u)| + DeviceTotal(users, names - {u})
  }

  lemma {:induction false} DeviceTotalCounts<S>(users: map<Pair, S>, names: set<Name>)
    ensures DeviceTotal(users, names) == |set p | p in users && p.user in names|
    decreases |names|
  {
    if names == {} {
      assert (set p | p in users && p.user in names) == {};
    } else {
      var u := Pick(names);
      hide Pick;
      DeviceTotalCounts(users, names - {u});
      var rest := set p | p in users && p.user in names - {u};
      assert (set p | p in users && p.user in names) == Devices(users, u) + rest;
      assert Devices(users, u) !! rest;
    }
  }

  function UsersOf<S>(users: map<Pair, S>): set<Name> {
    set p | p in users :: p.user
  }

  lemma CountIds<S>(idOf: Pair -> Name, users: map<Pair, S>)
    ensures |IdsOf(idOf, users.Keys)| <= DeviceTotal(users, UsersOf(users))
    ensures |IdsOf(idOf, users.Keys)| == DeviceTotal(users, UsersOf(users)) <==> DistinctIds(idOf, users.Keys)
  {
    hide IdsOf, DistinctIds, DeviceTotal;
    DeviceTotalCounts(users, UsersOf(users));
    assert (set p | p in users && p.user in UsersOf(users)) == users.Keys;
    IdsAreFewer(idOf, users.Keys);
  }

  /** Count is the number of devices over all users, and the two indexes hold the same
      sessions, if and only if no two of the pairs seen share an identifier. */
  lemma IndexesAgreeIff(idOf: Pair -> Name, calls: seq<Pair>)
    ensures var b := Calls(idOf, calls);
      && (|b.sessions| == DeviceTotal(b.users, UsersOf(b.users)) <==> DistinctIds(idOf, set p | p in calls))
      && (b.sessions.Values == b.users.Values <==> DistinctIds(idOf, set p | p in calls))
  {
    hide Calls, IdsOf, DistinctIds, DeviceTotal, UsersOf;
    var b := Calls(idOf, calls);
    RegistryIsStable(idOf, calls);
    assert (set p | p in calls) == b.users.Keys;
    SessionKeys(idOf, calls);
    SameValuesIff(idOf, calls);
    CountIds(idOf, b.users);
    assert |b.sessions| == |b.sessions.Keys|;
  }

  lemma SessionKeys(idOf: Pair -> Name, calls: seq<Pair>)
    ensures Calls(idOf, calls).sessions.Keys == IdsOf(idOf, Calls(idOf, calls).users.Keys)
  {
    SessionsById(idOf, calls);
  }

  lemma SameValuesIff(idOf: Pair -> Name, calls: seq<Pair>)
    ensures var b := Calls(idOf, calls);
      b.sessions.Values == b.users.Values <==> DistinctIds(idOf, b.users.Keys)
  {
    hide Calls, LeadsToLast, DistinctIds;
    var b := Calls(idOf, calls);
    SessionsById(idOf, calls);
    if DistinctIds(idOf, b.users.Keys) {
      DistinctShare(idOf, b, |calls|);
    } else {
      SharedLoses(idOf, b, |calls|);
    }
  }

  lemma DistinctShare(idOf: Pair -> Name, b: Book<nat>, n: nat)
    requires LeadsToLast(idOf, b, n) && DistinctIds(idOf, b.users.Keys)
    ensures b.sessions.Values == b.users.Values
  {
    hide IdsOf;
    forall id | id in b.sessions ensures b.sessions[id] in b.users.Values {
      var p :| Owns(idOf, b, id, p);
    }
    forall p | p in b.users ensures b.users[p] in b.sessions.Values {
      var q :| Owns(idOf, b, idOf(p), q);
      assert p == q;
    }
  }

  /** Of two pairs that share an identifier the earlier one's session cannot be found by it. */
  lemma SharedLoses(idOf: Pair -> Name, b: Book<nat>, n: nat)
    requires LeadsToLast(idOf, b, n) && !DistinctIds(idOf, b.users.Keys)
    ensures b.sessions.Values != b.users.Values
  {
    hide IdsOf;
    var p, q :| p in b.users && q in b.users && idOf(p) == idOf(q) && p != q;
    var low := if b.users[p] < b.users[q] then p else q;
    assert b.users[low] < b.sessions[idOf(p)];
    assert b.users[low] in b.users.Values;
    forall id | id in b.sessions ensures b.sessions[id] != b.users[low] {
      var r :| Owns(idOf, b, id, r);
    }
  }

  // ---- Where identifiers come from --------------------------------------------------

  /** What is hashed. */
  function Joined(user: string, device: string): string {
    user + ":" + device
  }

  /** One user name continues the other past a colon, and the device names make up for it. */
  ghost predicate Straddles(user: string, device: string, user': string, device': string) {
    exists mid: string {:trigger Joined(user, mid)} :: user' == Joined(user, mid) && device == Joined(mid, device')
  }

  /** Two different pairs are hashed as the same string exactly when one user name is the other,
      a colon, and more. */
  lemma JoinedCollidesIff(user: string, device: string, user': string, device': string)
    requires (user, device) != (user', device')
    ensures Joined(user, device) == Joined(user', device') <==>
      Straddles(user, device, user', device') || Straddles(user', device', user, device)
  {
    JoinedParts(user, device);
    JoinedParts(user', device');
    if Joined(user, device) == Joined(user', device') {
      if |user| < |user'| {
        ShorterStraddles(user, device, user', device');
      } else if |user'| < |user| {
        ShorterStraddles(user', device', user, device);
      }
    }
    if Straddles(user, device, user', device') {
      StraddlingCollides(user, device, user', device');
    }
    if Straddles(user', device', user, device) {
      StraddlingCollides(user', device', user, device);
    }
  }

  lemma JoinedParts(user: string, device: string)
    ensures Joined(user, device)[..|user|] == user && Joined(user, device)[|user| + 1..] == device
  {
  }

  lemma StraddlingCollides(user: string, device: string, user': string, device': string)
    requires Straddles(user, device, user', device')
    ensures Joined(user, device) == Joined(user', device')
  {
    var mid :| user' == Joined(user, mid) && device == Joined(mid, device');
    assert user + ":" + (mid + ":" + device') == (user + ":" + mid) + ":" + device';
  }

  lemma ShorterStraddles(user: string, device: string, user': string, device': string)
    requires Joined(user, device) == Joined(user', device') && |user| < |user'|
    ensures Straddles(user, device, user', device')
  {
    var all := Joined(user, device);
    var mid := user'[|user| + 1..];
    assert all[..|user|] == user && all[|user|] == ':' && all[|user| + 1..] == device;
    assert all[..|user'|] == user' && all[|user'|] == ':' && all[|user'| + 1..] == device';
    assert user' == user + ":" + mid;
    assert device == mid + ":" + device';
    assert user' == Joined(user, mid);
  }

  // ---- The registry -----------------------------------------------------------------

  class Registry {
    const idOf: Pair -> Name
    const router: R.LocalRouter
    const scanner: Scanner?
    const offline: OfflineStore?
    const maxRetries: int
    var sessions: map<Name, Session>
    var userIndex: map<Name, map<Name, Session>>
    ghost var users: map<Pair, Session>

    /** The session has the identity it is filed under and shares what the registry shares. */
    predicate Wired(s: Session, self: R.Target) {
      s.self == self && s.router == router && s.acker == scanner && s.offline == offline && s.maxRetries == maxRetries
    }

    function TargetOf(p: Pair): R.Target {
      R.Target(idOf(p), p.user, p.device)
    }

    ghost predicate ByUser()
      reads this`userIndex, this`users
    {
      && (forall u, d :: Pair(u, d) in users <==> u in userIndex && d in userIndex[u])
      && (forall u, d :: u in userIndex && d in userIndex[u] ==> users[Pair(u, d)] == userIndex[u][d])
      && (forall p :: p in users ==> Wired(users[p], TargetOf(p)))
    }

    ghost predicate ById()
      reads this`sessions
    {
      forall id :: id in sessions ==> sessions[id].self.sessionID == id && Wired(sessions[id], sessions[id].self)
    }

    ghost predicate Valid()
      reads this
    {
      ByUser() && ById() && sessions.Keys == IdsOf(idOf, users.Keys)
    }

    ghost function View(): Book<Session>
      reads this
    {
      Book(sessions, users)
    }

    constructor (idOf: Pair -> Name, router: R.LocalRouter, scanner: Scanner?, offline: OfflineStore?, maxRetries: int)
      ensures Valid() && View() == Book(map[], map[])
      ensures this.idOf == idOf && this.router == router && this.scanner == scanner
      ensures this.offline == offline && this.maxRetries == maxRetries
    {
      this.idOf, this.router, this.scanner, this.offline, this.maxRetries := idOf, router, scanner, offline, maxRetries;
      sessions, userIndex, users := map[], map[], map[];
    }

    method Lookup(user: Name, device: Name) returns (found: Session?)
      requires Valid()
      ensures found == if Pair(user, device) in users then users[Pair(user, device)] else null
      ensures found != null ==>
        && found.self == R.Target(idOf(Pair(user, device)), user, device)
        && found.router == router && found.acker == scanner && found.offline == offline && found.maxRetries == maxRetries
    {
      found := null;
      if user in userIndex {
        var devices := userIndex[user];
        if device in devices {
          found := devices[device];
        }
      }
    }

    method EnterByUser(sess: Session, user: Name, device: Name)
      requires ByUser() && Wired(sess, TargetOf(Pair(user, device)))
      modifies this`userIndex, this`users
      ensures ByUser() && users == old(users)[Pair(user, device) := sess]
    {
      var devices: map<Name, Session> := if user in userIndex then userIndex[user] else map[];
      userIndex := userIndex[user := devices[device := sess]];
      users := users[Pair(user, device) := sess];
    }

    /** Enters a new session under both indexes. */
    method Enter(sess: Session, user: Name, device: Name)
      requires Valid() && Pair(user, device) !in users && Wired(sess, TargetOf(Pair(user, device)))
      modifies this`sessions, this`userIndex, this`users
      ensures Valid() && View() == Call(old(View()), idOf, Pair(user, device), sess)
    {
      hide IdsOf, ByUser;
      IdsAdd(idOf, users.Keys, Pair(user, device));
      sessions := sessions[sess.self.sessionID := sess];
      EnterByUser(sess, user, device);
      assert users.Keys == old(users.Keys) + {Pair(user, device)};
    }

    /** The part under the write lock: another caller may have created the session since the
        first lookup. */
    method CreateLocked(user: Name, device: Name) returns (sess: Session, isNew: bool)
      requires Valid() && router.Valid()
      modifies this`sessions, this`userIndex, this`users
      ensures Valid() && View() == Call(old(View()), idOf, Pair(user, device), sess)
      ensures isNew <==> Pair(user, device) !in old(users)
      ensures if isNew then fresh(sess) && sess.Valid() && sess.View() == NewSession(TargetOf(Pair(user, device)))
              else sess == old(users)[Pair(user, device)]
      ensures sess.self.userID == user && sess.self.deviceID == device && sess.self.sessionID == idOf(Pair(user, device))
      ensures sess.router == router && sess.acker == scanner && sess.offline == offline && sess.maxRetries == maxRetries
      ensures isNew ==> sess.phase == Authenticating && sess.conn == null && sess.pending == map[] && sess.rooms == sess.topics == {}
    {
      hide Valid, Session.Valid;
      var found := Lookup(user, device);
      if found != null {
        return found, false;
      }
      sess := new Session(TargetOf(Pair(user, device)), router, scanner, offline, maxRetries);
      isNew := true;
      Enter(sess, user, device);
    }

    method GetOrCreate(user: Name, device: Name) returns (sess: Session, isNew: bool)
      requires Valid() && router.Valid()
      modifies this`sessions, this`userIndex, this`users
      ensures Valid() && View() == Call(old(View()), idOf, Pair(user, device), sess)
      ensures isNew <==> Pair(user, device) !in old(users)
      ensures if isNew then fresh(sess) && sess.Valid() && sess.View() == NewSession(TargetOf(Pair(user, device)))
              else sess == old(users)[Pair(user, device)]
      ensures sess.self.userID == user && sess.self.deviceID == device && sess.self.sessionID == idOf(Pair(user, device))
      ensures sess.router == router && sess.acker == scanner && sess.offline == offline && sess.maxRetries == maxRetries
      ensures isNew ==> sess.phase == Authenticating && sess.conn == null && sess.pending == map[] && sess.rooms == sess.topics == {}
    {
      hide Valid, Session.Valid;
      var found := Lookup(user, device);
      if found != null {
        return found, false;
      }
      sess, isNew := CreateLocked(user, device);
    }

    /** The number of different identifiers; it is the number of devices over all users exactly
        when no two of them share one. */
    method Count() returns (n: nat)
      requires Valid()
      ensures n == |IdsOf(idOf, users.Keys)| <= DeviceTotal(users, UsersOf(users))
      ensures n == DeviceTotal(users, UsersOf(users)) <==> DistinctIds(idOf, users.Keys)
    {
      CountIds(idOf, users);
      n := |sessions|;
      assert n == |sessions.Keys|;
    }

    /** Drops a pending message for good, and hands it to the offline store if it wants that. */
    method GiveUp(sess: Session, id: Name) returns (stored: bool)
      requires id in sess.pending && sess.offline == offline && sess.Valid()
      modifies sess`pending, offline
      ensures sess.Valid()
      ensures var msg, w := old(sess.pending)[id].msg, old(sess.Shared());
        && stored == (offline != null && msg.delivery.Some? && msg.delivery.value.offline)
        && sess.View() == old(sess.View()).(pending := old(sess.pending) - {id})
        && sess.Shared() == if stored then w.(offline := w.offline + [msg]) else w
    {
      hide R.Filed, R.Flat, R.Pairs, Connection.Valid;
      var msg := sess.pending[id].msg;
      sess.pending := sess.pending - {id};
      stored := offline != null && msg.delivery.Some? && msg.delivery.value.offline;
      if stored {
        offline.Store(msg);
      }
    }

    method Resend(sess: Session, msg: Msg) returns (outcome: Outcome)
      requires sess.Valid() && sess.acker == scanner
      modifies sess`pending, sess`lastSeq, scanner, sess.offline, sess.conn
      ensures sess.Valid()
      ensures var (o, s, w) := SessionSpec.Submit(old(sess.View()), old(sess.Shared()), sess.Cfg(), msg, old(sess.Answer()));
        && outcome == o && sess.View() == s
        && sess.Shared() == if o.Accepted? && scanner != null then w.(timers := SessionSpec.Track(w.timers, s.Id(), msg)) else w
    {
      hide SessionSpec.Submit, SessionSpec.Track, Submitted, FiledUnderId, R.Filed;
      outcome := sess.Submit(msg);
      if outcome == Accepted && scanner != null {
        scanner.Track(msg, sess.self.sessionID);
      }
    }

    /** Counts the attempt and sends the message again. */
    method Retry(sess: Session, id: Name) returns (outcome: Outcome)
      requires id in sess.pending && sess.Valid() && sess.acker == scanner
      modifies sess`pending, sess`lastSeq, scanner, sess.offline, sess.conn
      ensures sess.Valid()
      ensures var e := Entry(old(sess.pending)[id].msg, old(sess.pending)[id].retries + 1);
        var s := old(sess.View()).(pending := old(sess.pending)[id := e]);
        var (o, s', w) := SessionSpec.Submit(s, old(sess.Shared()), sess.Cfg(), e.msg, old(sess.Answer()));
        && outcome == o && sess.View() == s'
        && sess.Shared() == if o.Accepted? && scanner != null then w.(timers := SessionSpec.Track(w.timers, s.Id(), e.msg)) else w
    {
      hide SessionSpec.Submit, SessionSpec.Track, Session.Valid;
      var msg := sess.pending[id].msg;
      sess.Bump(id);
      outcome := Resend(sess, msg);
    }

    lemma KnowsItsOwn(sess: Session)
      requires Valid() && sess.self.sessionID in sessions && sessions[sess.self.sessionID] == sess
      ensures Wired(sess, sess.self)
    {
    }

    /** What a timeout does to the session it is for. */
    method HandleTimeoutOf(sess: Session, id: Name) returns (result: TimeoutResult)
      requires Valid() && sess.self.sessionID in sessions && sessions[sess.self.sessionID] == sess && sess.Valid()
      modifies sess`pending, sess`lastSeq, scanner, offline, sess.conn
      ensures sess.Valid()
      ensures (result, sess.View(), sess.Shared()) ==
        Timeout(old(sess.View()), old(sess.Shared()), sess.Cfg(), id, old(sess.Answer()))
      ensures result == Gone <==> id !in old(sess.pending)
      ensures result.GaveUp? <==>
        id in old(sess.pending) && old(sess.pending)[id].retries + 1 > if maxRetries > 0 then maxRetries else 5
    {
      hide Valid, SessionSpec.Submit, SessionSpec.Track, Session.Valid, R.Filed, Undelivered;
      KnowsItsOwn(sess);
      if id !in sess.pending {
        return Gone;
      }
      var limit := if maxRetries <= 0 then 5 else maxRetries;
      if sess.pending[id].retries + 1 > limit {
        var stored := GiveUp(sess, id);
        return GaveUp(stored);
      }
      var outcome := Retry(sess, id);
      return if outcome.Accepted? then Resent else Stalled;
    }

    /** The objects a timeout of the session can change. */
    ghost function Reach(sid: Name): set<object>
      reads this, if sid in sessions then {sessions[sid]} else {}
    {
      if sid !in sessions then {}
      else
        var s := sessions[sid];
        {s} + (if scanner == null then {} else {scanner}) + (if offline == null then {} else {offline})
        + (if s.conn == null then {} else {s.conn})
    }

    ghost function TimeoutAt(sid: Name, id: Name): (TimeoutResult, Sess, World)
      requires sid in sessions
      reads *
    {
      var s := sessions[sid];
      Timeout(s.View(), s.Shared(), s.Cfg(), id, s.Answer())
    }

    /** A timer of the scanner went off and its handler runs; nothing happens when the session
        is not known. */
    method HandleAckTimeout(sid: Name, id: Name) returns (result: TimeoutResult)
      requires Valid() && (sid in sessions ==> sessions[sid].Valid())
      modifies Reach(sid)
      ensures sid !in sessions ==> result == Gone
      ensures sid in sessions ==> sessions[sid].Valid()
      ensures sid in sessions ==> (result, sessions[sid].View(), sessions[sid].Shared()) == old(TimeoutAt(sid, id))
      ensures result == Gone <==> sid !in sessions || id !in old(sessions[sid].pending)
      ensures result.GaveUp? <==>
        && sid in sessions && id in old(sessions[sid].pending)
        && old(sessions[sid].pending)[id].retries + 1 > if maxRetries > 0 then maxRetries else 5
    {
      hide Session.Valid, Timeout, Wired;
      if sid !in sessions {
        return Gone;
      }
      result := HandleTimeoutOf(sessions[sid], id);
    }
  }
}

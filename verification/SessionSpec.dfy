/** What one call on a session does, as a function of the session and of what it shares with
    the others: the router tables, the acknowledgement timers and the offline store. */
module SessionSpec {
  import opened Messages
  import opened Names
  import R = Router

  // ---- Acknowledgement timers -------------------------------------------------------

  type AckKey = (Name, Name)  // session, message

  /** The scanner: keys with a timer running, and the per-session index it cancels from. */
  datatype Timers = Timers(armed: set<AckKey>, index: set<AckKey>)

  function Track(t: Timers, sid: Name, msg: Msg): Timers {
    if NeedsAck(msg) then Timers(t.armed + {(sid, msg.id)}, t.index + {(sid, msg.id)}) else t
  }

  function Done(t: Timers, sid: Name, id: Name): Timers {
    Timers(t.armed - {(sid, id)}, t.index - {(sid, id)})
  }

  function OfSession(keys: set<AckKey>, sid: Name): set<AckKey> {
    set k | k in keys && k.0 == sid
  }

  /** Cancels what the index knows of the session. */
  function CancelAll(t: Timers, sid: Name): Timers {
    var known := OfSession(t.index, sid);
    Timers(t.armed - known, t.index - known)
  }

  // ---- Sessions ---------------------------------------------------------------------

  datatype Phase = Authenticating | Active | Suspended | Closed

  datatype Entry = Entry(msg: Msg, retries: nat)

  datatype Sess = Sess(
    self: R.Target,
    conn: Option<Name>,          // the connection it is attached to
    phase: Phase,
    rooms: set<Name>,
    topics: set<Name>,
    pending: map<Name, Entry>,
    lastSeq: nat,
    closedOnce: bool)            // Close has run; sync.Once
  {
    function Id(): Name { self.sessionID }

    predicate Attached() { conn.Some? }
  }

  datatype Config = Config(acker: bool, store: bool, maxRetries: int) {
    function Limit(): int {
      if maxRetries <= 0 then 5 else maxRetries
    }
  }

  datatype World = World(tables: R.Tables, timers: Timers, offline: seq<Msg>)

  /** A message without delivery options is dereferenced when it cannot be delivered. */
  datatype Outcome = Accepted | Rejected | Crashed

  function NewSession(self: R.Target): Sess {
    Sess(self, None, Authenticating, {}, {}, map[], 0, false)
  }

  ghost function Slots(places: set<Name>, sid: Name): set<(Name, Name)> {
    set r | r in places :: (r, sid)
  }

  ghost function JoinAll(rel: R.Relation, places: set<Name>, self: R.Target): R.Relation {
    rel + Filing(Slots(places, self.sessionID), self)
  }

  ghost function Filing(slots: set<(Name, Name)>, self: R.Target): (rel: R.Relation)
    ensures rel.Keys == slots && forall p :: p in slots ==> rel[p] == self
  {
    if slots == {} then map[]
    else
      var p :| p in slots;
      Filing(slots - {p}, self)[p := self]
  }

  /** Every pending message has been offered once more. */
  ghost function Bumped(pending: map<Name, Entry>): (bumped: map<Name, Entry>)
    ensures bumped.Keys == pending.Keys
    ensures forall m :: m in pending ==> bumped[m] == Entry(pending[m].msg, pending[m].retries + 1)
  {
    if pending == map[] then map[]
    else
      var m :| m in pending;
      Bumped(pending - {m})[m := Entry(pending[m].msg, pending[m].retries + 1)]
  }

  function TrackAll(t: Timers, sid: Name, ids: set<Name>): Timers {
    var keys := set m | m in ids :: (sid, m);
    Timers(t.armed + keys, t.index + keys)
  }

  ghost function Attach(s: Sess, conn: Name, w: World, cfg: Config): (Sess, World) {
    (s.(conn := Some(conn), phase := Active, pending := Bumped(s.pending)),
     w.(tables := w.tables.(rooms := JoinAll(w.tables.rooms, s.rooms, s.self),
                            topics := JoinAll(w.tables.topics, s.topics, s.self)),
        timers := if cfg.acker then TrackAll(w.timers, s.Id(), s.pending.Keys) else w.timers))
  }

  ghost function Detach(s: Sess, w: World): (Sess, World) {
    (s.(conn := None, phase := Suspended),
     if s.Attached() then w.(tables := R.Purge(w.tables, s.self)) else w)
  }

  predicate Storable(msg: Msg, cfg: Config) {
    cfg.store && msg.delivery.Some? && msg.delivery.value.offline && !msg.delivery.value.qos.AtMostOnce?
  }

  /** handleUndelivered. */
  function Undelivered(msg: Msg, w: World, cfg: Config): World {
    if Storable(msg, cfg) then w.(offline := w.offline + [msg]) else w
  }

  ghost function Submit(s: Sess, w: World, cfg: Config, msg: Msg, verdict: Verdict): (Outcome, Sess, World) {
    if s.Attached() && verdict.Taken? then
      if cfg.acker && NeedsAck(msg)
      then (Accepted, s.(lastSeq := verdict.seqID, pending := s.pending[msg.id := Entry(msg, 0)]),
            w.(timers := Track(w.timers, s.Id(), msg)))
      else (Accepted, s.(lastSeq := verdict.seqID), w)
    else if msg.delivery.None? then (Crashed, s, w)
    else (Rejected, s, Undelivered(msg, w, cfg))
  }

  ghost function Ack(s: Sess, w: World, cfg: Config, id: Name): (Sess, World) {
    (s.(pending := s.pending - {id}), if cfg.acker then w.(timers := Done(w.timers, s.Id(), id)) else w)
  }

  ghost function JoinRoom(s: Sess, w: World, room: Name): (Sess, World) {
    (s.(rooms := s.rooms + {room}), if s.Attached() then w.(tables := R.Join(w.tables, room, s.self)) else w)
  }

  ghost function LeaveRoom(s: Sess, w: World, room: Name): (Sess, World) {
    (s.(rooms := s.rooms - {room}), if s.Attached() then w.(tables := R.Leave(w.tables, room, s.self)) else w)
  }

  ghost function Subscribe(s: Sess, w: World, topic: Name): (Sess, World) {
    (s.(topics := s.topics + {topic}), if s.Attached() then w.(tables := R.Subscribe(w.tables, topic, s.self)) else w)
  }

  ghost function Unsubscribe(s: Sess, w: World, topic: Name): (Sess, World) {
    (s.(topics := s.topics - {topic}), if s.Attached() then w.(tables := R.Unsubscribe(w.tables, topic, s.self)) else w)
  }

  ghost function Close(s: Sess, w: World, cfg: Config): (Sess, World) {
    if s.closedOnce then (s, w)
    else
      var purged := if s.Attached() then R.Purge(w.tables, s.self) else w.tables;
      (s.(phase := Closed, pending := map[], closedOnce := true),
       w.(tables := R.Unregister(purged, s.self.userID, s.self.deviceID),
          timers := if cfg.acker then CancelAll(w.timers, s.Id()) else w.timers))
  }

  /** What the timeout of one pending message came to. */
  datatype TimeoutResult = Gone | GaveUp(stored: bool) | Resent | Stalled

  /** handleAckTimeout: count, give up or offer the message again. */
  ghost function Timeout(s: Sess, w: World, cfg: Config, id: Name, verdict: Verdict): (TimeoutResult, Sess, World) {
    if id !in s.pending then (Gone, s, w)
    else
      var e := Entry(s.pending[id].msg, s.pending[id].retries + 1);
      if e.retries > cfg.Limit() then
        var stored := cfg.store && e.msg.delivery.Some? && e.msg.delivery.value.offline;
        (GaveUp(stored), s.(pending := s.pending - {id}), if stored then w.(offline := w.offline + [e.msg]) else w)
      else
        var (outcome, s', w') := Submit(s.(pending := s.pending[id := e]), w, cfg, e.msg, verdict);
        if outcome.Accepted?
        then (Resent, s', w'.(timers := if cfg.acker then Track(w'.timers, s.Id(), e.msg) else w'.timers))
        else (Stalled, s', w')
  }

  /** RegisterSession names a session to kick when the device is already filed under the same session. */
  ghost predicate Kicks(t: R.Tables, self: R.Target) {
    self.deviceID in t.devices && t.devices[self.deviceID].sessionID == self.sessionID
  }

  /** Files the session for fan-out and closes the session object that the router has filed for
      the device, if it is named; `other` is that object when it is not the one logging in. */
  ghost function FileAndKick(s: Sess, w: World, cfg: Config, other: Option<Sess>): (Sess, World) {
    var filed := w.(tables := R.Register(w.tables, s.self.userID, s.self));
    if !Kicks(w.tables, s.self) then (s, filed)
    else if other == None then Close(s, filed, cfg)
    else (s, Close(other.value, filed, cfg).1)
  }

  /** A login as far as the kick. */
  ghost function LoggedIn(s: Sess, conn: Name, w: World, cfg: Config, other: Option<Sess>): (Sess, World) {
    var (attached, shared) := Attach(s, conn, w, cfg);
    FileAndKick(attached, shared, cfg, other)
  }

  /** onClose detaches the session and then clears the router once more. */
  ghost function HungUp(s: Sess, w: World): (Sess, World) {
    var (s1, w1) := Detach(s, w);
    (s1, w1.(tables := R.Purge(w1.tables, s.self)))
  }

  /** Pending entries are filed under their own id and are all tracked messages. */
  ghost predicate FiledUnderId(pending: map<Name, Entry>) {
    forall m :: m in pending ==> pending[m].msg.id == m && NeedsAck(pending[m].msg)
  }

  /** A rejected message reaches the store exactly when it asks for it, there is a store, and
      it is not at-most-once; a submission crashes exactly when it is rejected and carries no options. */
  lemma RejectedIsStoredIff(s: Sess, w: World, cfg: Config, msg: Msg, verdict: Verdict)
    ensures var (outcome, s', w') := Submit(s, w, cfg, msg, verdict);
      && (outcome.Accepted? <==> s.Attached() && verdict.Taken?)
      && (outcome.Crashed? <==> !outcome.Accepted? && msg.delivery == None)
      && (w'.offline != w.offline <==>
            !outcome.Accepted? && cfg.store && msg.delivery.Some? && msg.delivery.value.offline && msg.delivery.value.qos != AtMostOnce)
      && (w'.offline == w.offline || w'.offline == w.offline + [msg])
  {
  }

  /** Which messages are tracked: of those the connection takes, exactly the at-least-once ones
      become pending, with nothing counted yet and a timer running; the rest leave no trace but
      their number. A message that is not taken leaves not even that. */
  lemma TrackedIff(s: Sess, w: World, cfg: Config, msg: Msg, verdict: Verdict)
    requires cfg.acker
    ensures var (outcome, s', w') := Submit(s, w, cfg, msg, verdict);
      var taken := s.conn.Some? && verdict.Taken?;
      var key := (s.self.sessionID, msg.id);
      && s'.lastSeq == (if taken then verdict.seqID else s.lastSeq)
      && (match msg.delivery
          case Some(Delivery(AtLeastOnce, _)) =>
            taken ==>
              && s'.pending == s.pending[msg.id := Entry(msg, 0)]
              && w'.timers == Timers(w.timers.armed + {key}, w.timers.index + {key})
          case _ => s'.pending == s.pending && w'.timers == w.timers)
      && (!taken ==> s'.pending == s.pending && w'.timers == w.timers)
  {
  }

  /** What a timeout does, on the fields: a message is given up when one more attempt would pass
      the configured number, or five if none is configured, and then it goes to the store if it
      may; otherwise it counts as sent once more, or starts afresh if the connection takes it. */
  lemma TimeoutOnFields(s: Sess, w: World, cfg: Config, id: Name, verdict: Verdict)
    requires cfg.acker && id in s.pending && FiledUnderId(s.pending)
    ensures var (result, s', w') := Timeout(s, w, cfg, id, verdict);
      var e := s.pending[id];
      var limit := if cfg.maxRetries > 0 then cfg.maxRetries else 5;
      var storable := cfg.store && e.msg.delivery.Some? && e.msg.delivery.value.offline;
      if e.retries + 1 > limit then
        && result == GaveUp(storable) && s' == s.(pending := s.pending - {id})
        && w' == if storable then w.(offline := w.offline + [e.msg]) else w
      else if s.conn.Some? && verdict.Taken? then
        && result == Resent && s' == s.(pending := s.pending[id := Entry(e.msg, 0)], lastSeq := verdict.seqID)
        && w' == w.(timers := Timers(w.timers.armed + {(s.self.sessionID, id)}, w.timers.index + {(s.self.sessionID, id)}))
      else
        && result == Stalled && s' == s.(pending := s.pending[id := Entry(e.msg, e.retries + 1)])
        && w' == if storable then w.(offline := w.offline + [e.msg]) else w
  {
  }

  lemma AttachKeepsFiled(s: Sess, conn: Name, w: World, cfg: Config)
    requires R.Filed(w.tables)
    ensures R.Filed(Attach(s, conn, w, cfg).1.tables)
  {
  }

  lemma CloseOnMembers(s: Sess, w: World, cfg: Config)
    requires R.Filed(w.tables)
    ensures var t := Close(s, w, cfg).1.tables;
      forall a, x :: x in R.Members(t.users, a) <==>
        x in R.Members(w.tables.users, a) && (s.closedOnce || !(a == s.self.userID && x.deviceID == s.self.deviceID))
  {
    R.UnregisterOnMembers(w.tables, s.self.userID, s.self.deviceID);
  }

  /** After a login the user's address reaches the session, unless the login kicked: that takes
      the device out of the fan-out of whoever was kicked, and with it the session that has just
      logged in if it was kicked itself or belongs to the same user. `other` is the session
      object filed for the device, when it is not the one that logs in. */
  lemma LoginIsReachableIff(s: Sess, conn: Name, w: World, cfg: Config, other: Option<Sess>)
    requires R.Filed(w.tables)
    requires other.Some? ==>
      s.self.deviceID in w.tables.devices && w.tables.devices[s.self.deviceID] == other.value.self
    ensures var t := LoggedIn(s, conn, w, cfg, other).1.tables;
      var kicked := if other == None then s else other.value;
      s.self in R.Members(t.users, s.self.userID) <==>
        || s.self.deviceID !in w.tables.devices
        || w.tables.devices[s.self.deviceID].sessionID != s.self.sessionID
        || kicked.closedOnce
        || kicked.self.userID != s.self.userID
  {
    hide R.Members, Close, R.Filed, JoinAll, Bumped, TrackAll;
    AttachKeepsFiled(s, conn, w, cfg);
    var (attached, shared) := Attach(s, conn, w, cfg);
    R.RegisterOnMembers(shared.tables, s.self.userID, s.self);
    R.RegisterKeepsFiled(shared.tables, s.self.userID, s.self);
    var filed := shared.(tables := R.Register(shared.tables, s.self.userID, s.self));
    CloseOnMembers(attached, filed, cfg);
    if other.Some? {
      FiledDevice(w.tables, s.self.deviceID);
      CloseOnMembers(other.value, filed, cfg);
    }
  }

  lemma FiledDevice(t: R.Tables, device: Name)
    requires R.Filed(t) && device in t.devices
    ensures t.devices[device].deviceID == device
  {
  }
}

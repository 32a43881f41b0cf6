/** The session object, over the router, the acknowledgement scanner, the offline store and the
    connection it uses: every method does to them what the session functions say. */
module Session {
  import opened Names
  import opened Messages
  import opened Connection
  import opened SessionSpec
  import R = Router
  import C = ConnRuns

  // ---- The scanner ------------------------------------------------------------------

  ghost function Unnested(acks: map<Name, set<Name>>): set<AckKey> {
    set sid, id | sid in acks && id in acks[sid] :: (sid, id)
  }

  /** The acknowledgement scanner. `armed` stands for the keys live in its timer scheduler. */
  class Scanner {
    var armed: set<AckKey>
    var sessAcks: map<Name, set<Name>>

    ghost function View(): Timers
      reads this
    {
      Timers(armed, Unnested(sessAcks))
    }

    constructor ()
      ensures View() == Timers({}, {})
    {
      armed, sessAcks := {}, map[];
    }

    method Track(msg: Msg, sid: Name)
      modifies this
      ensures View() == SessionSpec.Track(old(View()), sid, msg)
      ensures var before := old(View());
        View() == if msg.delivery.Some? && msg.delivery.value.qos == AtLeastOnce
          then Timers(before.armed + {(sid, msg.id)}, before.index + {(sid, msg.id)})
          else before
    {
      if !NeedsAck(msg) {
        return;
      }
      ghost var before := sessAcks;
      if sid !in sessAcks {
        sessAcks := sessAcks[sid := {}];
      }
      sessAcks := sessAcks[sid := sessAcks[sid] + {msg.id}];
      armed := armed + {(sid, msg.id)};
      assert Unnested(sessAcks) == Unnested(before) + {(sid, msg.id)};
    }

    /** Forgets a key without cancelling its timer; what is left when a timeout has been handled. */
    method Forget(sid: Name, id: Name)
      modifies this
      ensures View() == old(View()).(index := old(View()).index - {(sid, id)})
    {
      ghost var before := sessAcks;
      if sid in sessAcks {
        var ids := sessAcks[sid] - {id};
        sessAcks := sessAcks[sid := ids];
        assert forall x, m :: x in before && m in before[x] && (x, m) != (sid, id) ==> m in sessAcks[x];
        if sessAcks[sid] == {} {
          sessAcks := sessAcks - {sid};
        }
      }
      assert Unnested(sessAcks) == Unnested(before) - {(sid, id)};
    }

    method Done(id: Name, sid: Name)
      modifies this
      ensures View() == SessionSpec.Done(old(View()), sid, id)
    {
      armed := armed - {(sid, id)};
      Forget(sid, id);
    }

    method CancelAll(sid: Name)
      modifies this
      ensures View() == SessionSpec.CancelAll(old(View()), sid)
    {
      ghost var before := View();
      var ids := if sid in sessAcks then sessAcks[sid] else {};
      sessAcks := sessAcks - {sid};
      ghost var known := OfSession(before.index, sid);
      assert View().index == before.index - known;
      ghost var index := sessAcks;
      while ids != {}
        invariant sessAcks == index
        invariant forall id :: id in ids ==> (sid, id) in known
        invariant armed == before.armed - set k | k in known && k.1 !in ids
        decreases |ids|
      {
        var id :| id in ids;
        armed := armed - {(sid, id)};
        ids := ids - {id};
      }
      assert armed == before.armed - known;
    }
  }

  class OfflineStore {
    var stored: seq<Msg>

    constructor ()
      ensures stored == []
    {
      stored := [];
    }

    method Store(msg: Msg)
      modifies this
      ensures stored == old(stored) + [msg]
    {
      stored := stored + [msg];
    }
  }

  // ---- The session ------------------------------------------------------------------

  class Session {
    const self: R.Target
    const router: R.LocalRouter
    const acker: Scanner?
    const offline: OfflineStore?
    const maxRetries: int
    var conn: Connection?
    var phase: Phase
    var rooms: set<Name>
    var topics: set<Name>
    var pending: map<Name, Entry>
    var lastSeq: nat
    var closedOnce: bool

    ghost function View(): Sess
      reads this
    {
      Sess(self, if conn == null then None else Some(conn.connID), phase, rooms, topics, pending, lastSeq, closedOnce)
    }

    ghost function Shared(): World
      reads router, acker, offline
    {
      World(router.View(), if acker == null then Timers({}, {}) else acker.View(),
            if offline == null then [] else offline.stored)
    }

    function Cfg(): Config {
      Config(acker != null, offline != null, maxRetries)
    }

    ghost predicate Valid()
      reads this, router, conn
    {
      && FiledUnderId(pending)
      && router.Valid()
      && (conn != null ==> conn.Valid())
    }

    /** What the connection, if any, answers to the next message. */
    ghost function Answer(): Verdict
      reads this, conn
    {
      if conn == null then Inactive else AnswerOf(conn.model)
    }

    constructor (self: R.Target, router: R.LocalRouter, acker: Scanner?, offline: OfflineStore?, maxRetries: int)
      requires router.Valid()
      ensures Valid() && View() == NewSession(self)
      ensures phase == Authenticating && conn == null && rooms == topics == {} && pending == map[] && lastSeq == 0 && !closedOnce
      ensures this.router == router && this.acker == acker && this.offline == offline && this.maxRetries == maxRetries
    {
      this.self, this.router, this.acker, this.offline, this.maxRetries := self, router, acker, offline, maxRetries;
      conn, phase, rooms, topics, pending, lastSeq, closedOnce := null, Authenticating, {}, {}, map[], 0, false;
    }

    method HandleUndelivered(msg: Msg) returns (outcome: Outcome)
      modifies offline
      ensures outcome == if msg.delivery.None? then Crashed else Rejected
      ensures Shared() == if msg.delivery.None? then old(Shared()) else Undelivered(msg, old(Shared()), Cfg())
    {
      if msg.delivery == None {
        return Crashed;
      }
      if !msg.delivery.value.offline || offline == null {
        return Rejected;
      }
      if msg.delivery.value.qos == AtMostOnce {
        return Rejected;
      }
      offline.Store(msg);
      return Rejected;
    }

    /** The connection took the message: remember its number, and track it if it wants that. */
    method Delivered(msg: Msg, seqID: nat)
      requires FiledUnderId(pending)
      modifies this`lastSeq, this`pending, acker
      ensures FiledUnderId(pending)
      ensures View() == (if acker != null && NeedsAck(msg) then old(View()).(lastSeq := seqID, pending := pending)
                         else old(View()).(lastSeq := seqID))
      ensures acker != null && NeedsAck(msg) ==> pending == old(pending)[msg.id := Entry(msg, 0)]
      ensures var w := old(Shared());
        Shared() == if acker != null then w.(timers := SessionSpec.Track(w.timers, self.sessionID, msg)) else w
    {
      lastSeq := seqID;
      if acker != null && NeedsAck(msg) {
        pending := pending[msg.id := Entry(msg, 0)];
        acker.Track(msg, self.sessionID);
      }
    }

    /** A message that cannot be delivered and has no delivery options is dereferenced: the call
        crashes, which is outcome Crashed. */
    method Submit(msg: Msg) returns (outcome: Outcome)
      requires Valid()
      modifies this`lastSeq, this`pending, acker, offline, conn
      ensures Valid()
      ensures (outcome, View(), Shared()) == SessionSpec.Submit(old(View()), old(Shared()), Cfg(), msg, old(Answer()))
      ensures conn != null ==> conn.model == Submitted(old(conn.model), msg)
      ensures outcome == Accepted <==> conn != null && old(conn.state).Active? && |old(conn.writeCh)| < 4096
      ensures outcome == Accepted ==> conn.nextSendSeq == old(conn.nextSendSeq) + 1 && lastSeq == conn.nextSendSeq
      ensures outcome != Accepted ==> lastSeq == old(lastSeq)
      ensures if outcome == Accepted && acker != null && msg.delivery.Some? && msg.delivery.value.qos == AtLeastOnce
        then
          && pending == old(pending)[msg.id := Entry(msg, 0)]
          && acker.View() == Timers(old(acker.View()).armed + {(self.sessionID, msg.id)}, old(acker.View()).index + {(self.sessionID, msg.id)})
        else pending == old(pending) && (acker != null ==> acker.View() == old(acker.View()))
    {
      hide FiledUnderId, R.Filed, Unnested, C.Inv;
      if conn == null || !conn.IsActive() {
        outcome := HandleUndelivered(msg);
        return;
      }
      var ok, seqID := conn.Submit(msg);
      if !ok {
        outcome := HandleUndelivered(msg);
        return;
      }
      Delivered(msg, seqID);
      outcome := Accepted;
    }

    method Ack(id: Name)
      requires Valid()
      modifies this`pending, acker
      ensures Valid()
      ensures (View(), Shared()) == SessionSpec.Ack(old(View()), old(Shared()), Cfg(), id)
    {
      RemovePendingAck(id);
      if acker != null {
        acker.Done(id, self.sessionID);
      }
    }

    method RemovePendingAck(id: Name)
      requires Valid()
      modifies this`pending
      ensures Valid()
      ensures View() == old(View()).(pending := old(pending) - {id})
    {
      pending := pending - {id};
    }

    /** Counts one more attempt for a pending message. */
    method Bump(id: Name)
      requires id in pending && Valid()
      modifies this`pending
      ensures Valid()
      ensures View() == old(View()).(pending := old(pending)[id := Entry(old(pending)[id].msg, old(pending)[id].retries + 1)])
    {
      pending := pending[id := Entry(pending[id].msg, pending[id].retries + 1)];
    }

    method JoinRoom(room: Name)
      requires Valid()
      modifies this`rooms, router
      ensures Valid()
      ensures (View(), Shared()) == SessionSpec.JoinRoom(old(View()), old(Shared()), room)
    {
      hide FiledUnderId;
      rooms := rooms + {room};
      if conn != null {
        router.JoinRoom(room, self);
      }
    }

    method LeaveRoom(room: Name)
      requires Valid()
      modifies this`rooms, router
      ensures Valid()
      ensures (View(), Shared()) == SessionSpec.LeaveRoom(old(View()), old(Shared()), room)
    {
      hide FiledUnderId;
      rooms := rooms - {room};
      if conn != null {
        router.LeaveRoom(room, self);
      }
    }

    method Subscribe(topic: Name)
      requires Valid()
      modifies this`topics, router
      ensures Valid()
      ensures (View(), Shared()) == SessionSpec.Subscribe(old(View()), old(Shared()), topic)
    {
      hide FiledUnderId;
      topics := topics + {topic};
      if conn != null {
        router.SubscribeTopic(topic, self);
      }
    }

    method Unsubscribe(topic: Name)
      requires Valid()
      modifies this`topics, router
      ensures Valid()
      ensures (View(), Shared()) == SessionSpec.Unsubscribe(old(View()), old(Shared()), topic)
    {
      hide FiledUnderId;
      topics := topics - {topic};
      if conn != null {
        router.UnsubscribeTopic(topic, self);
      }
    }

    method DetachConn()
      requires Valid()
      modifies this, router
      ensures Valid() && conn == null
      ensures (View(), Shared()) == Detach(old(View()), old(Shared()))
    {
      hide FiledUnderId, R.Purge, R.Flat, R.Pairs, R.Filed;
      var before := conn;
      conn := null;
      if before != null {
        router.UnregisterAll(self);
      }
      phase := Suspended;
    }

    /** Takes the session out of every index of the router. */
    method Unfile()
      requires router.Valid()
      modifies router
      ensures router.Valid()
      ensures var t := old(router.View());
        router.View() == R.Unregister(if conn != null then R.Purge(t, self) else t, self.userID, self.deviceID)
    {
      if conn != null {
        router.UnregisterAll(self);
      }
      router.UnregisterSession(self.userID, self.deviceID);
    }

    /** Runs once. The connection's own Close has an empty body, and `conn` stays as it is. */
    method Close()
      requires Valid()
      modifies this, router, acker
      ensures Valid() && conn == old(conn)
      ensures (View(), Shared()) == SessionSpec.Close(old(View()), old(Shared()), Cfg())
    {
      hide SessionSpec.CancelAll, R.Purge, R.Unregister, R.Flat, R.Pairs, R.Filed, Unnested;
      if closedOnce {
        return;
      }
      closedOnce := true;
      phase := Closed;
      Unfile();
      if acker != null {
        acker.CancelAll(self.sessionID);
      }
      pending := map[];
    }

    /** Files the session again under everything it subscribed to. */
    method RestoreRooms()
      requires router.Valid()
      modifies router`rooms
      ensures router.Valid()
      ensures router.View() == old(router.View()).(rooms := JoinAll(old(router.View()).rooms, rooms, self))
    {
      hide JoinAll, R.Flat, R.Pairs, R.Filed;
      ghost var before := router.View();
      var todo := rooms;
      JoinNone(before.rooms, self);
      assert rooms - todo == {};
      while todo != {}
        invariant todo <= rooms && router.Valid()
        invariant router.View() == before.(rooms := JoinAll(before.rooms, rooms - todo, self))
        decreases |todo|
      {
        var room :| room in todo;
        JoinOne(before.rooms, rooms - todo, room, self);
        router.JoinRoom(room, self);
        assert rooms - (todo - {room}) == rooms - todo + {room};
        todo := todo - {room};
      }
      assert rooms - todo == rooms;
    }

    method RestoreTopics()
      requires router.Valid()
      modifies router`topics
      ensures router.Valid()
      ensures router.View() == old(router.View()).(topics := JoinAll(old(router.View()).topics, topics, self))
    {
      hide JoinAll, R.Flat, R.Pairs, R.Filed;
      ghost var before := router.View();
      var todo := topics;
      JoinNone(before.topics, self);
      assert topics - todo == {};
      while todo != {}
        invariant todo <= topics && router.Valid()
        invariant router.View() == before.(topics := JoinAll(before.topics, topics - todo, self))
        decreases |todo|
      {
        var topic :| topic in todo;
        JoinOne(before.topics, topics - todo, topic, self);
        router.SubscribeTopic(topic, self);
        assert topics - (todo - {topic}) == topics - todo + {topic};
        todo := todo - {topic};
      }
      assert topics - todo == topics;
    }

    ghost function Running(): Timers
      reads acker
    {
      if acker == null then Timers({}, {}) else acker.View()
    }

    ghost function RunningWith(timers: Timers, ids: set<Name>): Timers {
      if acker == null then timers else TrackAll(timers, self.sessionID, ids)
    }

    lemma RunningNone(timers: Timers)
      ensures RunningWith(timers, {}) == timers
    {
      TrackNone(timers, self.sessionID);
    }

    /** Offers one pending message to the connection once more, whatever it answers, and starts
        its timer again. */
    method FlushOne(c: Connection, m: Name, ghost was: map<Name, Entry>, ghost todo: set<Name>, ghost timers: Timers)
      requires PartlyBumped(was, todo, pending) && m in todo && todo <= was.Keys && FiledUnderId(was)
      requires c.Valid() && Running() == RunningWith(timers, was.Keys - todo)
      modifies this`pending, acker, c
      ensures c.Valid() && c.model == Submitted(old(c.model), was[m].msg)
      ensures PartlyBumped(was, todo - {m}, pending)
      ensures Running() == RunningWith(timers, was.Keys - (todo - {m}))
    {
      hide PartlyBumped, TrackAll, SessionSpec.Track, FiledUnderId, Submitted, Unnested;
      BumpOne(was, todo, m, pending);
      TrackOne(timers, self.sessionID, was.Keys - todo, was[m].msg);
      assert was.Keys - (todo - {m}) == was.Keys - todo + {m};
      pending := pending[m := Entry(pending[m].msg, pending[m].retries + 1)];
      var ok, seqID := c.Submit(pending[m].msg);
      if acker != null {
        acker.Track(pending[m].msg, self.sessionID);
      }
    }

    /** Offers every pending message again, each once, in any order. */
    method Flush(c: Connection) returns (ghost offered: seq<Msg>)
      requires FiledUnderId(pending) && c.Valid()
      modifies this`pending, acker, c
      ensures c.Valid() && c.model == Offered(old(c.model), offered)
      ensures IsOrderOf(offered, old(pending), old(pending).Keys)
      ensures pending == Bumped(old(pending))
      ensures Running() == RunningWith(old(Running()), old(pending).Keys)
    {
      hide TrackAll, Connection.Valid, PartlyBumped, FiledUnderId, Running, RunningWith, Submitted, Offered, IsOrderOf;
      ghost var was := pending;
      ghost var timers := Running();
      RunningNone(timers);
      PartlyBumpedEnds(was, was);
      OfferNone(c.model, was);
      assert was.Keys - was.Keys == {};
      offered := [];
      var todo := pending.Keys;
      while todo != {}
        invariant todo <= was.Keys
        invariant PartlyBumped(was, todo, pending)
        invariant c.Valid() && c.model == Offered(old(c.model), offered)
        invariant IsOrderOf(offered, was, was.Keys - todo)
        invariant Running() == RunningWith(timers, was.Keys - todo)
        decreases |todo|
      {
        var m :| m in todo;
        OfferOneMore(old(c.model), offered, was, was.Keys - todo, m);
        assert was.Keys - (todo - {m}) == was.Keys - todo + {m};
        FlushOne(c, m, was, todo, timers);
        offered := offered + [was[m].msg];
        todo := todo - {m};
      }
      assert was.Keys - {} == was.Keys;
      PartlyBumpedEnds(was, pending);
    }

    method AttachConn(c: Connection) returns (last: nat, ghost offered: seq<Msg>)
      requires Valid() && c.Valid()
      modifies this, router, acker, c
      ensures Valid() && conn == c && last == old(lastSeq)
      ensures (View(), Shared()) == Attach(old(View()), c.connID, old(Shared()), Cfg())
      ensures c.model == Offered(old(c.model), offered) && IsOrderOf(offered, old(pending), old(pending).Keys)
    {
      hide JoinAll, TrackAll, R.Flat, R.Pairs, R.Filed, Bumped, IsOrderOf, Offered;
      conn := c;
      phase := Active;
      RestoreRooms();
      RestoreTopics();
      offered := Flush(c);
      last := lastSeq;
    }
  }

  lemma JoinNone(rel: R.Relation, self: R.Target)
    ensures JoinAll(rel, {}, self) == rel
  {
  }

  lemma JoinOne(rel: R.Relation, places: set<Name>, place: Name, self: R.Target)
    ensures JoinAll(rel, places + {place}, self) == JoinAll(rel, places, self)[(place, self.sessionID) := self]
  {
  }

  /** The messages pending under the given identifiers, each once. */
  ghost predicate IsOrderOf(msgs: seq<Msg>, pending: map<Name, Entry>, ids: set<Name>)
    requires ids <= pending.Keys
  {
    && (forall m :: m in ids ==> pending[m].msg in msgs)
    && (forall i :: 0 <= i < |msgs| ==> msgs[i].id in ids && msgs[i] == pending[msgs[i].id].msg)
    && (forall i, j :: 0 <= i < j < |msgs| ==> msgs[i].id != msgs[j].id)
  }

  lemma OfferNone(y: C.Conn, pending: map<Name, Entry>)
    ensures IsOrderOf([], pending, {}) && Offered(y, []) == y
  {
  }

  lemma OfferOneMore(y: C.Conn, msgs: seq<Msg>, pending: map<Name, Entry>, ids: set<Name>, m: Name)
    requires ids <= pending.Keys && IsOrderOf(msgs, pending, ids) && FiledUnderId(pending) && m in pending && m !in ids
    ensures IsOrderOf(msgs + [pending[m].msg], pending, ids + {m})
    ensures Offered(y, msgs + [pending[m].msg]) == Submitted(Offered(y, msgs), pending[m].msg)
  {
    OrderOfOneMore(msgs, pending, ids, m);
    assert (msgs + [pending[m].msg])[..|msgs|] == msgs;
  }

  lemma OrderOfOneMore(msgs: seq<Msg>, pending: map<Name, Entry>, ids: set<Name>, m: Name)
    requires ids <= pending.Keys && IsOrderOf(msgs, pending, ids) && FiledUnderId(pending) && m in pending && m !in ids
    ensures IsOrderOf(msgs + [pending[m].msg], pending, ids + {m})
  {
  }

  /** Some of the pending messages have been offered once more. */
  ghost predicate PartlyBumped(was: map<Name, Entry>, todo: set<Name>, now: map<Name, Entry>) {
    && now.Keys == was.Keys
    && forall m :: m in was ==> now[m] == if m in todo then was[m] else Entry(was[m].msg, was[m].retries + 1)
  }

  lemma PartlyBumpedEnds(was: map<Name, Entry>, now: map<Name, Entry>)
    ensures PartlyBumped(was, was.Keys, now) <==> now == was
    ensures PartlyBumped(was, {}, now) <==> now == Bumped(was)
  {
  }

  lemma BumpOne(was: map<Name, Entry>, todo: set<Name>, m: Name, now: map<Name, Entry>)
    requires PartlyBumped(was, todo, now) && m in todo && todo <= was.Keys && FiledUnderId(was)
    ensures m in now && now[m] == was[m] && was[m].msg.id == m && NeedsAck(was[m].msg)
    ensures PartlyBumped(was, todo - {m}, now[m := Entry(now[m].msg, now[m].retries + 1)])
  {
  }

  lemma TrackNone(t: Timers, sid: Name)
    ensures TrackAll(t, sid, {}) == t
  {
  }

  lemma TrackOne(t: Timers, sid: Name, ids: set<Name>, msg: Msg)
    requires NeedsAck(msg)
    ensures TrackAll(t, sid, ids + {msg.id}) == SessionSpec.Track(TrackAll(t, sid, ids), sid, msg)
  {
    assert (set m | m in ids + {msg.id} :: (sid, m)) == (set m | m in ids :: (sid, m)) + {(sid, msg.id)};
  }
}

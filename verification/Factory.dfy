/** How the factory brings a connection up and takes it down again around a session. */
module Factory {
  import opened Connection
  import opened Names
  import opened Session
  import opened SessionSpec
  import C = ConnRuns
  import R = Router

  /** `stored` is the session object, if any, that the router has filed for the device. */
  ghost predicate IsStored(stored: Session?, sess: Session)
    reads sess.router, stored, if stored == null then {} else {stored.conn}
  {
    var devices := sess.router.View().devices;
    if stored == null then sess.self.deviceID !in devices
    else
      && sess.self.deviceID in devices && devices[sess.self.deviceID] == stored.self
      && stored.router == sess.router && stored.acker == sess.acker && stored.offline == sess.offline
      && stored.Valid()
  }

  ghost function OtherThan(sess: Session, stored: Session?): Option<Sess>
    reads stored
  {
    if stored == null || stored == sess then None else Some(stored.View())
  }

  /** A session object that the router names is closed. */
  ghost function Kicked(other: Option<Sess>, w: World, sess: Session): Option<Sess> {
    if other.Some? && other.value.Id() == sess.self.sessionID
    then Some(SessionSpec.Close(other.value, w, sess.Cfg()).0)
    else other
  }

  /** Files the session for fan-out, and closes the session object that is named. */
  method FileAndKick(sess: Session, stored: Session?)
    requires sess.Valid() && IsStored(stored, sess)
    modifies sess, stored, sess.router, sess.acker
    ensures sess.Valid() && sess.conn == old(sess.conn)
    ensures (sess.View(), sess.Shared()) == SessionSpec.FileAndKick(old(sess.View()), old(sess.Shared()), sess.Cfg(), old(OtherThan(sess, stored)))
    ensures stored != null ==> stored.Valid()
    ensures OtherThan(sess, stored) == Kicked(old(OtherThan(sess, stored)), old(sess.Shared()), sess)
  {
    hide R.Filed, R.Flat, R.Pairs, R.Purge, R.Unregister, SessionSpec.CancelAll, FiledUnderId, C.Inv;
    var kicked := sess.router.RegisterSession(sess.self.userID, sess.self.deviceID, sess.self);
    if kicked.Some? {
      stored.Close();
    }
  }

  method LogIn(sess: Session, stored: Session?, c: Connection) returns (last: nat)
    requires sess.Valid() && c.Valid() && IsStored(stored, sess)
    modifies sess, stored, sess.router, sess.acker, c
    ensures sess.Valid() && sess.conn == c && last == old(sess.lastSeq)
    ensures (sess.View(), sess.Shared()) ==
            LoggedIn(old(sess.View()), c.connID, old(sess.Shared()), sess.Cfg(), old(OtherThan(sess, stored)))
    ensures OtherThan(sess, stored) == Kicked(old(OtherThan(sess, stored)), old(sess.Shared()), sess)
    ensures !old(c.IsActive()) ==> c.model == old(c.model)
  {
    hide R.Filed, R.Flat, R.Pairs, JoinAll, Bumped, TrackAll, IsOrderOf, Offered, FiledUnderId, C.Inv;
    hide SessionSpec.FileAndKick, SessionSpec.CancelAll, R.Unregister, R.Purge;
    ghost var offered;
    last, offered := sess.AttachConn(c);
    if !old(c.model).phase.Active? {
      InactiveTakesNothing(old(c.model), offered);
    }
    FileAndKick(sess, stored);
  }

  /** CreateAndRun after the handshake request, up to running the connection. The flush of
      pending messages reaches a connection that is not active yet, so nothing is queued before
      the acknowledgement, which is the first and only thing written. */
  method CreateAndRun(sess: Session, stored: Session?, c: Connection, registered: bool, greeting: WriteResult) returns (running: bool)
    requires sess.Valid() && c.Valid() && c.model == C.START && IsStored(stored, sess)
    modifies sess, stored, sess.router, sess.acker, c
    ensures sess.Valid()
    ensures running == (registered && greeting.encoded && greeting.written)
    ensures var (s, w) := LoggedIn(old(sess.View()), c.connID, old(sess.Shared()), sess.Cfg(), old(OtherThan(sess, stored)));
      (sess.View(), sess.Shared()) == if running then (s, w) else Detach(s, w)
    ensures OtherThan(sess, stored) == Kicked(old(OtherThan(sess, stored)), old(sess.Shared()), sess)
    ensures c.model.accepted == [] && c.model.callers == map[] && c.model.issued == 0
    ensures running ==> sess.conn == c && c.IsActive() && c.model.stage.Greeted? && c.model.wire == [C.HandshakeAck]
    ensures !running ==> sess.conn == null && c.model.writer.NotStarted?
  {
    hide LoggedIn, Detach, R.Filed, R.Flat, FiledUnderId, C.Inv;
    var last := LogIn(sess, stored, c);
    if !registered {
      sess.DetachConn();
      return false;
    }
    c.Activate();
    var greeted := c.Greet(greeting);
    if !greeted {
      sess.DetachConn();
      return false;
    }
    return true;
  }

  method OnClose(sess: Session)
    requires sess.Valid()
    modifies sess, sess.router
    ensures sess.Valid() && sess.conn == null
    ensures (sess.View(), sess.Shared()) == HungUp(old(sess.View()), old(sess.Shared()))
  {
    sess.DetachConn();
    sess.router.UnregisterAll(sess.self);
  }
}

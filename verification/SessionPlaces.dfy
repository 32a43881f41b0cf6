/** The rooms and topics a session is in, over every run: what its client asked for, less what
    late clearings have taken away. */
module SessionPlaces {
  import opened Messages
  import opened Names
  import R = Router
  import opened SessionSpec
  import opened SessionRuns

  datatype Places = Places(rooms: set<Name>, topics: set<Name>)

  const NOWHERE := Places({}, {})

  function Minus(a: Places, b: Places): Places {
    Places(a.rooms - b.rooms, a.topics - b.topics)
  }

  predicate Within(a: Places, b: Places) {
    a.rooms <= b.rooms && a.topics <= b.topics
  }

  /** The subscriptions a client asked for, whatever its connections did meanwhile. */
  function WantedAfter(wanted: Places, step: Step, sid: Name): Places {
    match step
    case DoJoin(who, room) => if who == sid then wanted.(rooms := wanted.rooms + {room}) else wanted
    case DoLeave(who, room) => if who == sid then wanted.(rooms := wanted.rooms - {room}) else wanted
    case DoSubscribe(who, topic) => if who == sid then wanted.(topics := wanted.topics + {topic}) else wanted
    case DoUnsubscribe(who, topic) => if who == sid then wanted.(topics := wanted.topics - {topic}) else wanted
    case _ => wanted
  }

  function Wanted(wanted: Places, steps: seq<Step>, sid: Name): Places
    decreases |steps|
  {
    if steps == [] then wanted else Wanted(WantedAfter(wanted, steps[0], sid), steps[1..], sid)
  }

  /** What late clearings have taken from the session: everything at once, until it attaches
      again or asks anew. */
  function LostAfter(wanted: Places, lost: Places, step: Step, sid: Name): Places {
    match step
    case DoAttach(who, _) => if who == sid then NOWHERE else lost
    case LatePurge(who) => if who == sid then wanted else lost
    case DoJoin(who, room) => if who == sid then lost.(rooms := lost.rooms - {room}) else lost
    case DoLeave(who, room) => if who == sid then lost.(rooms := lost.rooms - {room}) else lost
    case DoSubscribe(who, topic) => if who == sid then lost.(topics := lost.topics - {topic}) else lost
    case DoUnsubscribe(who, topic) => if who == sid then lost.(topics := lost.topics - {topic}) else lost
    case _ => lost
  }

  function Lost(wanted: Places, lost: Places, steps: seq<Step>, sid: Name): Places
    decreases |steps|
  {
    if steps == [] then lost
    else Lost(WantedAfter(wanted, steps[0], sid), LostAfter(wanted, lost, steps[0], sid), steps[1..], sid)
  }

  function SubsOf(y: System, sid: Name): Places {
    if sid in y.sessions then Places(y.sessions[sid].rooms, y.sessions[sid].topics) else NOWHERE
  }

  ghost function MembersOf(y: System, sid: Name): Places {
    Places(Rooms(y, sid), Topics(y, sid))
  }

  // ---- Every step -------------------------------------------------------------------

  ghost predicate Named(y: System) {
    forall sid :: sid in y.sessions ==> y.sessions[sid].Id() == sid
  }

  /** The session is in no more places than it subscribed to, in none without a connection, and
      in all but the lost ones when it is active. */
  predicate Holds(s: Sess, members: Places, lost: Places) {
    && Within(members, Places(s.rooms, s.topics)) && Within(lost, Places(s.rooms, s.topics))
    && (!s.Attached() ==> members == NOWHERE)
    && (s.phase.Active? ==> s.Attached() && members == Minus(Places(s.rooms, s.topics), lost))
  }

  ghost predicate HoldsAt(y: System, sid: Name, lost: Places) {
    if sid in y.sessions then Holds(y.sessions[sid], MembersOf(y, sid), lost)
    else MembersOf(y, sid) == NOWHERE && lost == NOWHERE
  }

  lemma SubsAfterStep(y: System, step: Step, cfg: Config, sid: Name)
    requires Allowed(y, step)
    ensures SubsOf(Next(y, step, cfg), sid) == WantedAfter(SubsOf(y, sid), step, sid)
  {
    hide JoinAll, Bumped, R.Purge, R.Unregister;
  }

  lemma StepOfOthers(y: System, step: Step, cfg: Config, sid: Name, lost: Places)
    requires Allowed(y, step) && Named(y) && HoldsAt(y, sid, lost) && !step.Create? && step.sid != sid
    ensures HoldsAt(Next(y, step, cfg), sid, LostAfter(SubsOf(y, sid), lost, step, sid))
  {
    hide Rooms, Topics, JoinAll, Bumped, R.Purge, R.Unregister, Timeout, Submit, Close, Detach, Attach;
    StepOnPlaces(y, step, cfg, sid);
  }

  lemma SubscriptionStep(y: System, step: Step, cfg: Config, sid: Name, lost: Places)
    requires Allowed(y, step) && Named(y) && HoldsAt(y, sid, lost) && !step.Create? && step.sid == sid
    requires step.DoJoin? || step.DoLeave? || step.DoSubscribe? || step.DoUnsubscribe?
    ensures HoldsAt(Next(y, step, cfg), sid, LostAfter(SubsOf(y, sid), lost, step, sid))
  {
    hide Rooms, Topics, R.Join, R.Leave, R.Subscribe, R.Unsubscribe;
    StepOnPlaces(y, step, cfg, sid);
  }

  lemma ConnectionStep(y: System, step: Step, cfg: Config, sid: Name, lost: Places)
    requires Allowed(y, step) && Named(y) && HoldsAt(y, sid, lost) && !step.Create? && step.sid == sid
    requires step.DoAttach? || step.DoDetach? || step.LatePurge? || step.DoClose?
    ensures HoldsAt(Next(y, step, cfg), sid, LostAfter(SubsOf(y, sid), lost, step, sid))
  {
    hide Rooms, Topics, JoinAll, Bumped, TrackAll, SessionSpec.CancelAll, R.Purge, R.Unregister;
    StepOnPlaces(y, step, cfg, sid);
  }

  lemma MessageStep(y: System, step: Step, cfg: Config, sid: Name, lost: Places)
    requires Allowed(y, step) && Named(y) && HoldsAt(y, sid, lost) && !step.Create? && step.sid == sid
    requires step.DoRegister? || step.DoSubmit? || step.DoAck? || step.DoRemove? || step.TimerFires? || step.DoTimeout?
    ensures HoldsAt(Next(y, step, cfg), sid, LostAfter(SubsOf(y, sid), lost, step, sid))
  {
    hide Rooms, Topics, R.Register;
    StepOnPlaces(y, step, cfg, sid);
  }

  lemma CreateStep(y: System, self: R.Target, cfg: Config, sid: Name, lost: Places)
    requires Allowed(y, Create(self)) && Named(y) && HoldsAt(y, sid, lost)
    ensures HoldsAt(Next(y, Create(self), cfg), sid, LostAfter(SubsOf(y, sid), lost, Create(self), sid))
  {
    hide Rooms, Topics;
    StepOnPlaces(y, Create(self), cfg, sid);
  }

  /** One step of anybody changes the places of a session as its own history says. */
  lemma StepHolds(y: System, step: Step, cfg: Config, sid: Name, lost: Places)
    requires Allowed(y, step) && Named(y) && HoldsAt(y, sid, lost)
    ensures HoldsAt(Next(y, step, cfg), sid, LostAfter(SubsOf(y, sid), lost, step, sid))
  {
    hide HoldsAt, LostAfter, SubsOf, Next;
    match step {
      case Create(self) => CreateStep(y, self, cfg, sid, lost);
      case _ =>
        if step.sid != sid {
          StepOfOthers(y, step, cfg, sid, lost);
        } else if step.DoJoin? || step.DoLeave? || step.DoSubscribe? || step.DoUnsubscribe? {
          SubscriptionStep(y, step, cfg, sid, lost);
        } else if step.DoAttach? || step.DoDetach? || step.LatePurge? || step.DoClose? {
          ConnectionStep(y, step, cfg, sid, lost);
        } else {
          MessageStep(y, step, cfg, sid, lost);
        }
    }
  }

  // ---- Over whole runs ----------------------------------------------------------------

  lemma {:induction false} RunHolds(y: System, steps: seq<Step>, cfg: Config, z: System, sid: Name, lost: Places)
    requires Run(y, steps, cfg, z) && Named(y) && HoldsAt(y, sid, lost)
    ensures Named(z) && HoldsAt(z, sid, Lost(SubsOf(y, sid), lost, steps, sid))
    ensures SubsOf(z, sid) == Wanted(SubsOf(y, sid), steps, sid)
    decreases |steps|
  {
    if steps != [] {
      hide HoldsAt, LostAfter, WantedAfter, SubsOf, Next;
      var x := Next(y, steps[0], cfg);
      StepHolds(y, steps[0], cfg, sid, lost);
      SubsAfterStep(y, steps[0], cfg, sid);
      StaysNamed(y, steps[0], cfg);
      RunHolds(x, steps[1..], cfg, z, sid, LostAfter(SubsOf(y, sid), lost, steps[0], sid));
    }
  }

  lemma StaysNamed(y: System, step: Step, cfg: Config)
    requires Allowed(y, step) && Named(y)
    ensures Named(Next(y, step, cfg))
  {
    IdsKept(y, step, cfg);
  }

  lemma StartHolds(sid: Name)
    ensures Named(START) && HoldsAt(START, sid, NOWHERE) && SubsOf(START, sid) == NOWHERE
  {
  }

  function WantedOf(steps: seq<Step>, sid: Name): Places {
    Wanted(NOWHERE, steps, sid)
  }

  function LostOf(steps: seq<Step>, sid: Name): Places {
    Lost(NOWHERE, NOWHERE, steps, sid)
  }

  /** A session remembers exactly what its client asked for. */
  lemma SubsAreWanted(steps: seq<Step>, cfg: Config, z: System, sid: Name)
    requires Run(START, steps, cfg, z)
    ensures SubsOf(z, sid) == WantedOf(steps, sid)
  {
    StartHolds(sid);
    RunHolds(START, steps, cfg, z, sid, NOWHERE);
  }

  /** In every reachable state, whatever the other sessions and the connections do: a session is
      in no place its client did not ask for, in none without a connection, and, when active, in
      exactly those asked for less those a late clearing of its own took away; so disconnections
      leave no trace if and only if nothing is lost. */
  lemma DisconnectTransparency(steps: seq<Step>, cfg: Config, z: System, sid: Name)
    requires Run(START, steps, cfg, z) && sid in z.sessions
    ensures Within(MembersOf(z, sid), WantedOf(steps, sid))
    ensures !z.sessions[sid].Attached() ==> MembersOf(z, sid) == NOWHERE
    ensures z.sessions[sid].phase.Active? ==>
      && MembersOf(z, sid) == Minus(WantedOf(steps, sid), LostOf(steps, sid))
      && (MembersOf(z, sid) == WantedOf(steps, sid) <==> LostOf(steps, sid) == NOWHERE)
  {
    hide Rooms, Topics, Wanted, Lost, Run;
    StartHolds(sid);
    RunHolds(START, steps, cfg, z, sid, NOWHERE);
    var wanted, lost := WantedOf(steps, sid), LostOf(steps, sid);
    assert Within(lost, wanted);
    assert Minus(wanted, lost) == wanted ==> lost.rooms == {} && lost.topics == {};
  }

  /** Sessions and router agree at the end of a run if and only if no active session has lost anything. */
  lemma AgreesIff(steps: seq<Step>, cfg: Config, z: System)
    requires Run(START, steps, cfg, z)
    ensures Agree(z) <==> forall sid :: sid in z.sessions && z.sessions[sid].phase.Active? ==> LostOf(steps, sid) == NOWHERE
  {
    hide Rooms, Topics, LostOf, WantedOf, Run;
    forall sid
      ensures sid in z.sessions ==> z.sessions[sid].Id() == sid
      ensures sid in z.sessions ==>
        (AgreesOn(z.sessions[sid], Rooms(z, sid), Topics(z, sid)) <==>
          (z.sessions[sid].phase.Active? ==> LostOf(steps, sid) == NOWHERE))
      ensures sid !in z.sessions ==> Rooms(z, sid) == {} && Topics(z, sid) == {}
    {
      AgreesOnIff(steps, cfg, z, sid);
    }
    hide AgreesOn;
  }

  lemma AgreesOnIff(steps: seq<Step>, cfg: Config, z: System, sid: Name)
    requires Run(START, steps, cfg, z)
    ensures sid in z.sessions ==> z.sessions[sid].Id() == sid
    ensures sid in z.sessions ==>
      (AgreesOn(z.sessions[sid], Rooms(z, sid), Topics(z, sid)) <==>
        (z.sessions[sid].phase.Active? ==> LostOf(steps, sid) == NOWHERE))
    ensures sid !in z.sessions ==> Rooms(z, sid) == {} && Topics(z, sid) == {}
  {
    hide Rooms, Topics, Wanted, Lost, Run;
    StartHolds(sid);
    RunHolds(START, steps, cfg, z, sid, NOWHERE);
    if sid in z.sessions {
      DisconnectTransparency(steps, cfg, z, sid);
      SubsAreWanted(steps, cfg, z, sid);
      hide WantedOf, LostOf;
      assert MembersOf(z, sid) == Places(Rooms(z, sid), Topics(z, sid));
    }
  }

  datatype Kind = Room | Topic

  function Of(places: Places, kind: Kind): set<Name> {
    if kind.Room? then places.rooms else places.topics
  }

  /** The client asks about that room or topic. */
  predicate Asks(step: Step, sid: Name, kind: Kind, place: Name) {
    if kind.Room? then step == DoJoin(sid, place) || step == DoLeave(sid, place)
    else step == DoSubscribe(sid, place) || step == DoUnsubscribe(sid, place)
  }

  /** A late clearing hit the session at `i` while it wanted the place, and since then it has
      neither attached nor asked about that place again. */
  ghost predicate LostSince(steps: seq<Step>, i: nat, sid: Name, kind: Kind, place: Name) {
    && i < |steps| && steps[i] == LatePurge(sid) && place in Of(WantedOf(steps[..i], sid), kind)
    && forall j :: i < j < |steps| ==> !Attaches(steps[j], sid) && !Asks(steps[j], sid, kind, place)
  }

  lemma {:induction false} OneMore(wanted: Places, lost: Places, steps: seq<Step>, step: Step, sid: Name)
    ensures Wanted(wanted, steps + [step], sid) == WantedAfter(Wanted(wanted, steps, sid), step, sid)
    ensures Lost(wanted, lost, steps + [step], sid) == LostAfter(Wanted(wanted, steps, sid), Lost(wanted, lost, steps, sid), step, sid)
    decreases |steps|
  {
    hide WantedAfter, LostAfter;
    if steps == [] {
      assert steps + [step] == [step] && [step][1..] == [];
    } else {
      var more := steps + [step];
      assert more[0] == steps[0] && more[1..] == steps[1..] + [step];
      OneMore(WantedAfter(wanted, steps[0], sid), LostAfter(wanted, lost, steps[0], sid), steps[1..], step, sid);
    }
  }

  lemma {:induction false} LostWasWanted(steps: seq<Step>, sid: Name)
    ensures Within(LostOf(steps, sid), WantedOf(steps, sid))
    decreases |steps|
  {
    if steps != [] {
      var front, last := steps[..|steps| - 1], steps[|steps| - 1];
      assert steps == front + [last];
      LostWasWanted(front, sid);
      OneMore(NOWHERE, NOWHERE, front, last, sid);
      hide Wanted, Lost;
    }
  }

  lemma LostFront(steps: seq<Step>, front: seq<Step>, i: nat, sid: Name, kind: Kind, place: Name)
    requires steps != [] && front == steps[..|steps| - 1] && i < |front|
    ensures LostSince(steps, i, sid, kind, place) <==>
      LostSince(front, i, sid, kind, place) && !Attaches(steps[|front|], sid) && !Asks(steps[|front|], sid, kind, place)
  {
    assert front[..i] == steps[..i];
    hide WantedOf, Attaches, Asks, Of;
    assert forall j :: 0 <= j < |front| ==> front[j] == steps[j];
  }

  ghost predicate IsLost(steps: seq<Step>, sid: Name, kind: Kind, place: Name) {
    exists i: nat :: LostSince(steps, i, sid, kind, place)
  }

  lemma IsLostThen(steps: seq<Step>, front: seq<Step>, sid: Name, kind: Kind, place: Name)
    requires steps != [] && front == steps[..|steps| - 1]
    ensures IsLost(steps, sid, kind, place) <==>
      || (steps[|front|] == LatePurge(sid) && place in Of(WantedOf(front, sid), kind))
      || (IsLost(front, sid, kind, place) && !Attaches(steps[|front|], sid) && !Asks(steps[|front|], sid, kind, place))
  {
    hide WantedOf, Attaches, Asks, Of;
    var last := steps[|front|];
    if last == LatePurge(sid) && place in Of(WantedOf(front, sid), kind) {
      assert LostSince(steps, |front|, sid, kind, place);
    }
    if i: nat :| LostSince(front, i, sid, kind, place) {
      LostFront(steps, front, i, sid, kind, place);
    }
    if i: nat :| LostSince(steps, i, sid, kind, place) {
      if i < |front| {
        LostFront(steps, front, i, sid, kind, place);
      }
    }
  }

  /** A place is lost exactly when a late clearing hit the session while it wanted the place,
      and it has neither attached since nor asked about the place again. */
  lemma {:induction false} LostIff(steps: seq<Step>, sid: Name, kind: Kind, place: Name)
    ensures place in Of(LostOf(steps, sid), kind) <==> exists i: nat :: LostSince(steps, i, sid, kind, place)
    decreases |steps|
  {
    if steps != [] {
      var front, last := steps[..|steps| - 1], steps[|steps| - 1];
      assert steps == front + [last];
      LostIff(front, sid, kind, place);
      LostWasWanted(front, sid);
      OneMore(NOWHERE, NOWHERE, front, last, sid);
      IsLostThen(steps, front, sid, kind, place);
      hide Wanted, Lost, LostSince;
    }
  }

  /** The condition is needed: a client that reconnects before the old connection has finished
      closing ends up active and in none of its rooms. */
  lemma LateClearingLosesRooms(self: R.Target, room: Name, a: Name, b: Name, cfg: Config) returns (steps: seq<Step>, z: System)
    ensures Run(START, steps, cfg, z) && self.sessionID in z.sessions && z.sessions[self.sessionID].phase.Active?
    ensures MembersOf(z, self.sessionID) == NOWHERE && WantedOf(steps, self.sessionID) == Places({room}, {})
  {
    var sid := self.sessionID;
    steps := [Create(self), DoAttach(sid, a), DoJoin(sid, room), DoDetach(sid, a), DoAttach(sid, b), LatePurge(sid)];
    hide Wanted, JoinAll, Bumped;
    var y1 := Next(START, steps[0], cfg);
    var y2 := Next(y1, steps[1], cfg);
    var y3 := Next(y2, steps[2], cfg);
    var y4 := Next(y3, steps[3], cfg);
    var y5 := Next(y4, steps[4], cfg);
    z := Next(y5, steps[5], cfg);
    hide Next;
    RunFrom(y5, steps[5..], cfg, z);
    RunFrom(y4, steps[4..], cfg, z);
    RunFrom(y3, steps[3..], cfg, z);
    RunFrom(y2, steps[2..], cfg, z);
    RunFrom(y1, steps[1..], cfg, z);
    StepOnPlaces(y5, steps[5], cfg, sid);
    WantsOneRoom(self, room, a, b);
  }

  lemma WantsOneRoom(self: R.Target, room: Name, a: Name, b: Name)
    ensures var sid := self.sessionID;
      var steps := [Create(self), DoAttach(sid, a), DoJoin(sid, room), DoDetach(sid, a), DoAttach(sid, b), LatePurge(sid)];
      WantedOf(steps, sid) == Places({room}, {})
  {
    var sid := self.sessionID;
    var steps := [Create(self), DoAttach(sid, a), DoJoin(sid, room), DoDetach(sid, a), DoAttach(sid, b), LatePurge(sid)];
    assert Wanted(Places({room}, {}), steps[6..], sid) == Places({room}, {});
    assert Wanted(Places({room}, {}), steps[5..], sid) == Places({room}, {});
    assert Wanted(Places({room}, {}), steps[4..], sid) == Places({room}, {});
    assert Wanted(Places({room}, {}), steps[3..], sid) == Places({room}, {});
    assert {} + {room} == {room};
    assert Wanted(NOWHERE, steps[2..], sid) == Places({room}, {});
    assert Wanted(NOWHERE, steps[1..], sid) == Places({room}, {});
  }

  // ---- Logging in through the factory -----------------------------------------------

  /** CreateAndRun from AttachConn to the kick. */
  ghost function Login(y: System, sid: Name, conn: Name, cfg: Config): System
    requires sid in y.sessions
  {
    var attached := Next(y, DoAttach(sid, conn), cfg);
    var filed := Next(attached, DoRegister(sid), cfg);
    if Kicks(attached.world.tables, y.sessions[sid].self) then Next(filed, DoClose(sid), cfg) else filed
  }

  /** A login leaves the session active in all its rooms and topics if and only if it does not
      kick itself: a device that is still filed from an earlier login closes its own session,
      once, and with it the messages waiting for acknowledgement. */
  lemma LoginIsActiveIff(y: System, sid: Name, conn: Name, cfg: Config)
    requires Named(y) && Within(MembersOf(y, sid), SubsOf(y, sid)) && sid in y.sessions
    ensures var z, s := Login(y, sid, conn, cfg), y.sessions[sid];
      var kicksItself := Kicks(y.world.tables, s.self) && !s.closedOnce;
      && (z.sessions[sid], z.world) == LoggedIn(s, conn, y.world, cfg, None)
      && (z.sessions[sid].phase.Active? && MembersOf(z, sid) == SubsOf(y, sid) <==> !kicksItself)
      && (kicksItself ==> z.sessions[sid].phase.Closed? && MembersOf(z, sid) == NOWHERE && z.sessions[sid].pending == map[])
      && (!kicksItself ==> z.sessions[sid].pending == Bumped(s.pending))
      && (Agree(y) ==> Agree(z))
  {
    hide Agree, Rooms, Topics, JoinAll, Bumped, TrackAll, SessionSpec.CancelAll, R.Purge, R.Unregister, R.Register;
    var attached := Next(y, DoAttach(sid, conn), cfg);
    var filed := Next(attached, DoRegister(sid), cfg);
    StaysNamed(y, DoAttach(sid, conn), cfg);
    StaysNamed(attached, DoRegister(sid), cfg);
    StepOnPlaces(y, DoAttach(sid, conn), cfg, sid);
    StepOnPlaces(attached, DoRegister(sid), cfg, sid);
    StepOnPlaces(filed, DoClose(sid), cfg, sid);
    LoginAgrees(y, sid, conn, cfg);
  }

  lemma LoginAgrees(y: System, sid: Name, conn: Name, cfg: Config)
    requires Named(y) && sid in y.sessions
    ensures Agree(y) ==> Agree(Login(y, sid, conn, cfg))
  {
    hide Agree, HitsActive, Next;
    var attached := Next(y, DoAttach(sid, conn), cfg);
    AttachedStays(y, sid, conn, cfg);
    var filed := Next(attached, DoRegister(sid), cfg);
    if Agree(y) {
      NoHit(y, DoAttach(sid, conn));
      AgreementIsKeptIff(y, DoAttach(sid, conn), cfg);
      NoHit(attached, DoRegister(sid));
      AgreementIsKeptIff(attached, DoRegister(sid), cfg);
      NoHit(filed, DoClose(sid));
      AgreementIsKeptIff(filed, DoClose(sid), cfg);
    }
  }

  lemma AttachedStays(y: System, sid: Name, conn: Name, cfg: Config)
    requires sid in y.sessions
    ensures sid in Next(y, DoAttach(sid, conn), cfg).sessions
    ensures sid in Next(Next(y, DoAttach(sid, conn), cfg), DoRegister(sid), cfg).sessions
  {
  }

  lemma NoHit(y: System, step: Step)
    requires Allowed(y, step) && !step.LatePurge?
    ensures !HitsActive(y, step)
  {
  }

  lemma FirstLogin(self: R.Target, a: Name, cfg: Config) returns (steps: seq<Step>, y: System)
    ensures Run(START, steps, cfg, y)
    ensures var sid := self.sessionID;
      && sid in y.sessions && y.sessions[sid].self == self && !y.sessions[sid].closedOnce && y.sessions[sid].Attached()
      && Kicks(y.world.tables, self)
  {
    var sid := self.sessionID;
    steps := [Create(self), DoAttach(sid, a), DoRegister(sid)];
    hide JoinAll, Bumped;
    var y1 := Next(START, steps[0], cfg);
    var y2 := Next(y1, steps[1], cfg);
    y := Next(y2, steps[2], cfg);
    hide Next;
    RunFrom(y2, steps[2..], cfg, y);
    RunFrom(y1, steps[1..], cfg, y);
  }

  /** Disconnecting does not take the session out of the device index, nor its pending messages. */
  lemma MessageAndHangUp(x: System, self: R.Target, msg: Msg, a: Name, cfg: Config) returns (steps: seq<Step>, y: System)
    requires cfg.acker && NeedsAck(msg)
    requires var sid := self.sessionID;
      && sid in x.sessions && x.sessions[sid].self == self && !x.sessions[sid].closedOnce && x.sessions[sid].Attached()
      && Kicks(x.world.tables, self)
    ensures Run(x, steps, cfg, y)
    ensures var sid := self.sessionID;
      && sid in y.sessions && y.sessions[sid].self == self && !y.sessions[sid].closedOnce && Kicks(y.world.tables, self)
      && msg.id in y.sessions[sid].pending
  {
    var sid := self.sessionID;
    steps := [DoSubmit(sid, msg, Taken(1)), DoDetach(sid, a), LatePurge(sid)];
    var x1 := Next(x, steps[0], cfg);
    var x2 := Next(x1, steps[1], cfg);
    y := Next(x2, steps[2], cfg);
    hide Next;
    RunFrom(x2, steps[2..], cfg, y);
    RunFrom(x1, steps[1..], cfg, y);
    RunFrom(x, steps, cfg, y);
  }

  /** The kick is not hypothetical: a client whose session is still filed from an earlier login
      comes back to a closed session, and its unacknowledged message is gone. */
  lemma RepeatedLoginKicksItself(self: R.Target, msg: Msg, a: Name, b: Name, cfg: Config) returns (steps: seq<Step>, y: System)
    requires cfg.acker && NeedsAck(msg)
    ensures Run(START, steps, cfg, y) && self.sessionID in y.sessions && msg.id in y.sessions[self.sessionID].pending
    ensures var z := Login(y, self.sessionID, b, cfg);
      self.sessionID in z.sessions && z.sessions[self.sessionID].phase.Closed? && z.sessions[self.sessionID].pending == map[]
  {
    hide Run, Next, Login, Kicks;
    var before, x := FirstLogin(self, a, cfg);
    var after;
    after, y := MessageAndHangUp(x, self, msg, a, cfg);
    RunAppend(START, before, x, after, cfg, y);
    steps := before + after;
    ClosedByKick(y, self.sessionID, b, cfg);
  }

  lemma ClosedByKick(y: System, sid: Name, conn: Name, cfg: Config)
    requires sid in y.sessions && y.sessions[sid].Id() == sid && !y.sessions[sid].closedOnce
    requires Kicks(y.world.tables, y.sessions[sid].self)
    ensures var z := Login(y, sid, conn, cfg); sid in z.sessions && z.sessions[sid].phase.Closed? && z.sessions[sid].pending == map[]
  {
    hide JoinAll, R.Purge, R.Unregister, Bumped;
  }
}

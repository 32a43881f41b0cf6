/** Many sessions sharing one router, one scanner and one offline store: what holds in every
    reachable state, whatever the connections, clients and timers do. */
module SessionRuns {
  import opened Messages
  import opened Names
  import R = Router
  import opened SessionSpec

  datatype System = System(
    sessions: map<Name, Sess>,
    world: World,
    inflight: set<AckKey>,   // timers that went off and whose handler has not run yet
    log: seq<Label>)         // what happened, in order

  datatype Step =
    | Create(self: R.Target)
    | DoAttach(sid: Name, conn: Name)
    | DoDetach(sid: Name, conn: Name)   // onClose of that connection, which need not be the attached one
    | LatePurge(sid: Name)       // onClose clears the router again after detaching
    | DoRegister(sid: Name)      // the factory files the session for fan-out
    | DoJoin(sid: Name, room: Name)
    | DoLeave(sid: Name, room: Name)
    | DoSubscribe(sid: Name, topic: Name)
    | DoUnsubscribe(sid: Name, topic: Name)
    | DoSubmit(sid: Name, msg: Msg, verdict: Verdict)
    | DoAck(sid: Name, id: Name)
    | DoRemove(sid: Name, id: Name)
    | DoClose(sid: Name)
    | TimerFires(sid: Name, id: Name)
    | DoTimeout(sid: Name, id: Name, verdict: Verdict)

  /** The part of a step that later statements refer to. */
  datatype Label =
    | Quiet
    | Took(sid: Name, id: Name)          // a submission was accepted and is now tracked
    | Turned(msg: Msg, stored: bool)     // a submission was not delivered
    | Flushed(sid: Name)                 // an attach offered all pending messages again
    | Acked(sid: Name, id: Name)
    | Removed(sid: Name, id: Name)
    | Cleared(sid: Name)                 // the first Close
    | Rang(sid: Name, id: Name)          // a timer went off
    | Stale(sid: Name, id: Name)         // a timeout found nothing pending
    | Retried(sid: Name, id: Name)       // a timeout resent the message
    | Stuck(sid: Name, msg: Msg, stored: bool)    // a timeout could not resend it
    | Dropped(sid: Name, msg: Msg, stored: bool)  // a timeout gave it up

  ghost predicate Allowed(y: System, step: Step) {
    match step
    case Create(self) => self.sessionID !in y.sessions
    case TimerFires(sid, id) => (sid, id) in y.world.timers.armed
    case DoTimeout(sid, id, _) => (sid, id) in y.inflight && sid in y.sessions
    case _ => step.sid in y.sessions
  }

  ghost function With(y: System, sid: Name, next: (Sess, World), note: Label): System {
    y.(sessions := y.sessions[sid := next.0], world := next.1, log := y.log + [note])
  }

  ghost function Next(y: System, step: Step, cfg: Config): System
    requires Allowed(y, step)
  {
    match step
    case Create(self) => With(y, self.sessionID, (NewSession(self), y.world), Quiet)
    case DoAttach(sid, conn) => With(y, sid, Attach(y.sessions[sid], conn, y.world, cfg), Flushed(sid))
    case DoDetach(sid, _) => With(y, sid, Detach(y.sessions[sid], y.world), Quiet)
    case LatePurge(sid) =>
      With(y, sid, (y.sessions[sid], y.world.(tables := R.Purge(y.world.tables, y.sessions[sid].self))), Quiet)
    case DoRegister(sid) =>
      var self := y.sessions[sid].self;
      With(y, sid, (y.sessions[sid], y.world.(tables := R.Register(y.world.tables, self.userID, self))), Quiet)
    case DoJoin(sid, room) => With(y, sid, JoinRoom(y.sessions[sid], y.world, room), Quiet)
    case DoLeave(sid, room) => With(y, sid, LeaveRoom(y.sessions[sid], y.world, room), Quiet)
    case DoSubscribe(sid, topic) => With(y, sid, Subscribe(y.sessions[sid], y.world, topic), Quiet)
    case DoUnsubscribe(sid, topic) => With(y, sid, Unsubscribe(y.sessions[sid], y.world, topic), Quiet)
    case DoSubmit(sid, msg, verdict) =>
      var (outcome, s, w) := Submit(y.sessions[sid], y.world, cfg, msg, verdict);
      With(y, sid, (s, w),
        if !outcome.Accepted? then Turned(msg, Storable(msg, cfg))
        else if cfg.acker && NeedsAck(msg) then Took(sid, msg.id)
        else Quiet)
    case DoAck(sid, id) => With(y, sid, Ack(y.sessions[sid], y.world, cfg, id), Acked(sid, id))
    case DoRemove(sid, id) =>
      var s := y.sessions[sid];
      With(y, sid, (s.(pending := s.pending - {id}), y.world), Removed(sid, id))
    case DoClose(sid) =>
      With(y, sid, Close(y.sessions[sid], y.world, cfg), if y.sessions[sid].closedOnce then Quiet else Cleared(sid))
    case TimerFires(sid, id) =>
      y.(world := y.world.(timers := y.world.timers.(armed := y.world.timers.armed - {(sid, id)})),
         inflight := y.inflight + {(sid, id)}, log := y.log + [Rang(sid, id)])
    case DoTimeout(sid, id, verdict) =>
      var (result, s, w) := Timeout(y.sessions[sid], y.world, cfg, id, verdict);
      // the scanner forgets the key after the handler, even if the handler tracked it again
      var forgotten := w.(timers := w.timers.(index := w.timers.index - {(sid, id)}));
      With(y, sid, (s, forgotten),
        match result
        case Gone => Stale(sid, id)
        case Resent => if cfg.acker then Retried(sid, id) else Quiet
        case Stalled => var msg := y.sessions[sid].pending[id].msg; Stuck(sid, msg, Storable(msg, cfg))
        case GaveUp(stored) => Dropped(sid, y.sessions[sid].pending[id].msg, stored))
        .(inflight := y.inflight - {(sid, id)})
  }

  ghost predicate Run(y: System, steps: seq<Step>, cfg: Config, z: System)
    decreases |steps|
  {
    if steps == [] then y == z
    else Allowed(y, steps[0]) && Run(Next(y, steps[0], cfg), steps[1..], cfg, z)
  }

  const START := System(map[], World(R.Tables(map[], map[], map[], map[]), Timers({}, {}), []), {}, [])

  // ---- Runs ---------------------------------------------------------------------------

  lemma RunFrom(y: System, steps: seq<Step>, cfg: Config, z: System)
    requires steps != [] && Allowed(y, steps[0]) && Run(Next(y, steps[0], cfg), steps[1..], cfg, z)
    ensures Run(y, steps, cfg, z)
  {
  }

  lemma {:induction false} RunAppend(x: System, front: seq<Step>, y: System, back: seq<Step>, cfg: Config, z: System)
    requires Run(x, front, cfg, y) && Run(y, back, cfg, z)
    ensures Run(x, front + back, cfg, z)
    decreases |front|
  {
    if front == [] {
      assert front + back == back;
    } else {
      hide Next;
      RunAppend(Next(x, front[0], cfg), front[1..], y, back, cfg, z);
      assert (front + back)[0] == front[0] && (front + back)[1..] == front[1..] + back;
    }
  }

  // ---- Sessions and router ----------------------------------------------------------

  ghost function PlacesIn(rel: R.Relation, sid: Name): set<Name> {
    set p | p in rel && p.1 == sid :: p.0
  }

  /** The rooms of a session in the router. */
  ghost function Rooms(y: System, sid: Name): set<Name> {
    PlacesIn(y.world.tables.rooms, sid)
  }

  ghost function Topics(y: System, sid: Name): set<Name> {
    PlacesIn(y.world.tables.topics, sid)
  }

  ghost predicate AgreesOn(s: Sess, rooms: set<Name>, topics: set<Name>) {
    && (!s.Attached() ==> rooms == {} && topics == {})
    && rooms <= s.rooms && topics <= s.topics
    && (s.phase.Active? ==> s.Attached() && rooms == s.rooms && topics == s.topics)
  }

  /** Every session and the router agree; nobody else is in the router. */
  ghost predicate Agree(y: System) {
    && (forall sid :: sid in y.sessions ==> y.sessions[sid].Id() == sid)
    && (forall sid :: sid in y.sessions ==> AgreesOn(y.sessions[sid], Rooms(y, sid), Topics(y, sid)))
    && (forall sid :: sid !in y.sessions ==> Rooms(y, sid) == {} && Topics(y, sid) == {})
  }

  lemma PlacesJoinAll(rel: R.Relation, places: set<Name>, self: R.Target, sid: Name)
    ensures PlacesIn(JoinAll(rel, places, self), sid) == if sid == self.sessionID then PlacesIn(rel, sid) + places else PlacesIn(rel, sid)
  {
    var r := JoinAll(rel, places, self);
    forall a ensures a in PlacesIn(r, sid) <==> (a in PlacesIn(rel, sid) || (sid == self.sessionID && a in places)) {
      assert (a, sid) in r <==> (a, sid) in rel || (a, sid) in Slots(places, self.sessionID);
      assert a in PlacesIn(r, sid) <==> (a, sid) in r;
      assert a in PlacesIn(rel, sid) <==> (a, sid) in rel;
    }
  }

  lemma PlacesPut(rel: R.Relation, place: Name, self: R.Target, sid: Name)
    ensures PlacesIn(rel[(place, self.sessionID) := self], sid) == if sid == self.sessionID then PlacesIn(rel, sid) + {place} else PlacesIn(rel, sid)
  {
    var r := rel[(place, self.sessionID) := self];
    forall a ensures a in PlacesIn(r, sid) <==> a in PlacesIn(rel, sid) || (sid == self.sessionID && a == place) {
      assert a in PlacesIn(r, sid) <==> (a, sid) in r;
      assert a in PlacesIn(rel, sid) <==> (a, sid) in rel;
    }
  }

  lemma PlacesDrop(rel: R.Relation, place: Name, id: Name, sid: Name)
    ensures PlacesIn(rel - {(place, id)}, sid) == if sid == id then PlacesIn(rel, sid) - {place} else PlacesIn(rel, sid)
  {
    var r := rel - {(place, id)};
    forall a ensures a in PlacesIn(r, sid) <==> a in PlacesIn(rel, sid) && !(sid == id && a == place) {
      assert a in PlacesIn(r, sid) <==> (a, sid) in r;
      assert a in PlacesIn(rel, sid) <==> (a, sid) in rel;
    }
  }

  lemma PlacesPurge(rel: R.Relation, id: Name, sid: Name)
    ensures PlacesIn(R.Without(rel, id), sid) == if sid == id then {} else PlacesIn(rel, sid)
  {
  }

  /** The membership of session `sid` after a step, as a function of that session alone. */
  ghost function PlacesAfter(y: System, step: Step, sid: Name): (set<Name>, set<Name>)
    requires Allowed(y, step)
  {
    var rooms, topics := Rooms(y, sid), Topics(y, sid);
    match step
    case DoAttach(who, _) => if who == sid then (rooms + y.sessions[sid].rooms, topics + y.sessions[sid].topics) else (rooms, topics)
    case DoDetach(who, _) => if who == sid && y.sessions[sid].Attached() then ({}, {}) else (rooms, topics)
    case LatePurge(who) => if who == sid then ({}, {}) else (rooms, topics)
    case DoJoin(who, room) => if who == sid && y.sessions[sid].Attached() then (rooms + {room}, topics) else (rooms, topics)
    case DoLeave(who, room) => if who == sid && y.sessions[sid].Attached() then (rooms - {room}, topics) else (rooms, topics)
    case DoSubscribe(who, topic) => if who == sid && y.sessions[sid].Attached() then (rooms, topics + {topic}) else (rooms, topics)
    case DoUnsubscribe(who, topic) => if who == sid && y.sessions[sid].Attached() then (rooms, topics - {topic}) else (rooms, topics)
    case DoClose(who) => if who == sid && y.sessions[sid].Attached() && !y.sessions[sid].closedOnce then ({}, {}) else (rooms, topics)
    case _ => (rooms, topics)
  }

  /** A step does to the membership of one session what it does to that session. */
  ghost predicate PlacesFollow(y: System, step: Step, cfg: Config, sid: Name)
    requires Allowed(y, step)
  {
    (Rooms(Next(y, step, cfg), sid), Topics(Next(y, step, cfg), sid)) == PlacesAfter(y, step, sid)
  }

  lemma SubscriptionPlaces(y: System, step: Step, cfg: Config, sid: Name)
    requires Allowed(y, step) && (step.DoJoin? || step.DoLeave? || step.DoSubscribe? || step.DoUnsubscribe?)
    requires forall s :: s in y.sessions ==> y.sessions[s].Id() == s
    ensures PlacesFollow(y, step, cfg, sid)
  {
    hide PlacesIn, JoinAll, R.Without, Bumped, TrackAll, SessionSpec.CancelAll, Timeout, Submit, Close, Attach, Detach;
    var rooms, topics := y.world.tables.rooms, y.world.tables.topics;
    match step {
      case DoJoin(who, room) => PlacesPut(rooms, room, y.sessions[who].self, sid);
      case DoLeave(who, room) => PlacesDrop(rooms, room, who, sid);
      case DoSubscribe(who, topic) => PlacesPut(topics, topic, y.sessions[who].self, sid);
      case DoUnsubscribe(who, topic) => PlacesDrop(topics, topic, who, sid);
    }
  }

  lemma ClearingPlaces(y: System, step: Step, cfg: Config, sid: Name)
    requires Allowed(y, step) && (step.DoDetach? || step.LatePurge? || step.DoClose?)
    requires forall s :: s in y.sessions ==> y.sessions[s].Id() == s
    ensures PlacesFollow(y, step, cfg, sid)
  {
    hide PlacesIn, JoinAll, R.Without, Bumped, TrackAll, SessionSpec.CancelAll, Timeout, Submit, Attach;
    PlacesPurge(y.world.tables.rooms, step.sid, sid);
    PlacesPurge(y.world.tables.topics, step.sid, sid);
  }

  lemma AttachPlaces(y: System, who: Name, conn: Name, cfg: Config, sid: Name)
    requires who in y.sessions && forall s :: s in y.sessions ==> y.sessions[s].Id() == s
    ensures PlacesFollow(y, DoAttach(who, conn), cfg, sid)
  {
    hide PlacesIn, JoinAll, R.Without, Bumped, TrackAll;
    var s := y.sessions[who];
    PlacesJoinAll(y.world.tables.rooms, s.rooms, s.self, sid);
    PlacesJoinAll(y.world.tables.topics, s.topics, s.self, sid);
  }

  /** No step of one session changes the membership of another. */
  lemma StepOnPlaces(y: System, step: Step, cfg: Config, sid: Name)
    requires Allowed(y, step)
    requires forall s :: s in y.sessions ==> y.sessions[s].Id() == s
    ensures (Rooms(Next(y, step, cfg), sid), Topics(Next(y, step, cfg), sid)) == PlacesAfter(y, step, sid)
  {
    hide PlacesIn, Bumped, TrackAll, SessionSpec.CancelAll, Timeout, Submit, Attach, Detach, Close;
    match step {
      case DoAttach(who, conn) => AttachPlaces(y, who, conn, cfg, sid);
      case DoDetach(_, _) => ClearingPlaces(y, step, cfg, sid);
      case LatePurge(_) => ClearingPlaces(y, step, cfg, sid);
      case DoClose(_) => ClearingPlaces(y, step, cfg, sid);
      case DoJoin(_, _) => SubscriptionPlaces(y, step, cfg, sid);
      case DoLeave(_, _) => SubscriptionPlaces(y, step, cfg, sid);
      case DoSubscribe(_, _) => SubscriptionPlaces(y, step, cfg, sid);
      case DoUnsubscribe(_, _) => SubscriptionPlaces(y, step, cfg, sid);
      case DoSubmit(who, msg, verdict) => SubmitKeepsTables(y.sessions[who], y.world, cfg, msg, verdict);
      case DoTimeout(who, id, verdict) => TimeoutKeepsTables(y.sessions[who], y.world, cfg, id, verdict);
      case _ =>
    }
  }

  lemma SubmitKeepsTables(s: Sess, w: World, cfg: Config, msg: Msg, verdict: Verdict)
    ensures Submit(s, w, cfg, msg, verdict).2.tables == w.tables
  {
  }

  lemma TimeoutKeepsTables(s: Sess, w: World, cfg: Config, id: Name, verdict: Verdict)
    ensures Timeout(s, w, cfg, id, verdict).2.tables == w.tables
  {
  }

  /** The second clearing of the router in onClose, coming after the session was attached again. */
  ghost predicate HitsActive(y: System, step: Step)
    requires Allowed(y, step)
  {
    step.LatePurge? && y.sessions[step.sid].phase.Active? && (Rooms(y, step.sid) != {} || Topics(y, step.sid) != {})
  }

  lemma IdsKept(y: System, step: Step, cfg: Config)
    requires Allowed(y, step) && forall s :: s in y.sessions ==> y.sessions[s].Id() == s
    ensures forall s :: s in Next(y, step, cfg).sessions ==> Next(y, step, cfg).sessions[s].Id() == s
  {
  }

  /** The session agrees with its membership after the step exactly when it was not hit. */
  ghost predicate AgreesThen(y: System, step: Step, cfg: Config, sid: Name)
    requires Allowed(y, step) && sid in Next(y, step, cfg).sessions
  {
    var (rooms, topics) := PlacesAfter(y, step, sid);
    AgreesOn(Next(y, step, cfg).sessions[sid], rooms, topics) <==> !(HitsActive(y, step) && step.sid == sid)
  }

  lemma PlaceStepAgrees(y: System, step: Step, cfg: Config, sid: Name)
    requires Allowed(y, step) && Agree(y) && sid in Next(y, step, cfg).sessions
    requires step.DoJoin? || step.DoLeave? || step.DoSubscribe? || step.DoUnsubscribe?
    ensures AgreesThen(y, step, cfg, sid)
  {
    hide Rooms, Topics, R.Join, R.Leave, R.Subscribe, R.Unsubscribe;
  }

  lemma ConnectionStepAgrees(y: System, step: Step, cfg: Config, sid: Name)
    requires Allowed(y, step) && Agree(y) && sid in Next(y, step, cfg).sessions
    requires step.DoAttach? || step.DoDetach? || step.LatePurge? || step.DoClose?
    ensures AgreesThen(y, step, cfg, sid)
  {
    hide Rooms, Topics, JoinAll, Bumped, TrackAll, SessionSpec.CancelAll, R.Purge, R.Unregister;
  }

  lemma OtherStepAgrees(y: System, step: Step, cfg: Config, sid: Name)
    requires Allowed(y, step) && Agree(y) && sid in Next(y, step, cfg).sessions
    requires !step.DoJoin? && !step.DoLeave? && !step.DoSubscribe? && !step.DoUnsubscribe?
    requires !step.DoAttach? && !step.DoDetach? && !step.LatePurge? && !step.DoClose?
    ensures AgreesThen(y, step, cfg, sid)
  {
    hide Rooms, Topics, R.Register;
    if sid !in y.sessions {
      assert step.Create?;
    }
  }

  lemma StepOnAgrees(y: System, step: Step, cfg: Config, sid: Name)
    requires Allowed(y, step) && Agree(y) && sid in Next(y, step, cfg).sessions
    ensures AgreesThen(y, step, cfg, sid)
  {
    hide AgreesThen, Next, Agree;
    if step.DoJoin? || step.DoLeave? || step.DoSubscribe? || step.DoUnsubscribe? {
      PlaceStepAgrees(y, step, cfg, sid);
    } else if step.DoAttach? || step.DoDetach? || step.LatePurge? || step.DoClose? {
      ConnectionStepAgrees(y, step, cfg, sid);
    } else {
      OtherStepAgrees(y, step, cfg, sid);
    }
  }

  /** Sessions and router agree after a step if and only if the step is not a late clearing
      that hits a session which is active again. */
  lemma AgreementIsKeptIff(y: System, step: Step, cfg: Config)
    requires Allowed(y, step) && Agree(y)
    ensures Agree(Next(y, step, cfg)) <==> !HitsActive(y, step)
  {
    hide AgreesOn, Rooms, Topics, R.Purge, R.Register, JoinAll, Bumped, TrackAll;
    var z := Next(y, step, cfg);
    IdsKept(y, step, cfg);
    var bad := HitsActive(y, step);
    assert z.sessions.Keys == y.sessions.Keys + if step.Create? then {step.self.sessionID} else {};
    assert bad ==> step.sid in z.sessions;
    hide AgreesOn, Rooms, Topics, HitsActive, Next;
    forall sid ensures sid in z.sessions ==>
      (AgreesOn(z.sessions[sid], Rooms(z, sid), Topics(z, sid)) <==> !(bad && step.sid == sid))
    {
      StepOnPlaces(y, step, cfg, sid);
      if sid in z.sessions {
        StepOnAgrees(y, step, cfg, sid);
      }
    }
    forall sid | sid !in z.sessions ensures Rooms(z, sid) == {} && Topics(z, sid) == {} {
      StepOnPlaces(y, step, cfg, sid);
    }
  }

  /** No late clearing in the run hits an active session. */
  ghost predicate NoneHitsActive(y: System, steps: seq<Step>, cfg: Config)
    decreases |steps|
  {
    steps == [] || (Allowed(y, steps[0]) && !HitsActive(y, steps[0]) && NoneHitsActive(Next(y, steps[0], cfg), steps[1..], cfg))
  }

  lemma {:induction false} RunKeepsAgreement(y: System, steps: seq<Step>, cfg: Config, z: System)
    requires Agree(y) && Run(y, steps, cfg, z) && NoneHitsActive(y, steps, cfg)
    ensures Agree(z)
    decreases |steps|
  {
    if steps != [] {
      AgreementIsKeptIff(y, steps[0], cfg);
      RunKeepsAgreement(Next(y, steps[0], cfg), steps[1..], cfg, z);
    }
  }

  // ---- Which connection a session is attached to --------------------------------------

  function ConnOf(y: System, sid: Name): Option<Name> {
    if sid in y.sessions then y.sessions[sid].conn else None
  }

  /** The connection that a history of attaching and closing leaves a session with: closing any
      connection of the session detaches it from whichever it has. */
  function Holder(conn: Option<Name>, steps: seq<Step>, sid: Name): Option<Name>
    decreases |steps|
  {
    if steps == [] then conn else Holder(HolderStep(conn, steps[0], sid), steps[1..], sid)
  }

  function HolderStep(conn: Option<Name>, step: Step, sid: Name): Option<Name> {
    if Attaches(step, sid) then Some(step.conn) else if Detaches(step, sid) then None else conn
  }

  predicate Attaches(step: Step, sid: Name) {
    step.DoAttach? && step.sid == sid
  }

  predicate Detaches(step: Step, sid: Name) {
    step.DoDetach? && step.sid == sid
  }

  lemma ConnAfterStep(y: System, step: Step, cfg: Config, sid: Name)
    requires Allowed(y, step)
    ensures ConnOf(Next(y, step, cfg), sid) == HolderStep(ConnOf(y, sid), step, sid)
  {
    hide JoinAll, R.Purge, R.Unregister, Bumped;
  }

  lemma {:induction false} ConnIsHolder(y: System, steps: seq<Step>, cfg: Config, z: System, sid: Name)
    requires Run(y, steps, cfg, z)
    ensures ConnOf(z, sid) == Holder(ConnOf(y, sid), steps, sid)
    decreases |steps|
  {
    if steps != [] {
      hide Next, ConnOf;
      ConnAfterStep(y, steps[0], cfg, sid);
      ConnIsHolder(Next(y, steps[0], cfg), steps[1..], cfg, z, sid);
    }
  }

  lemma {:induction false} HolderSinceAttach(conn: Option<Name>, steps: seq<Step>, sid: Name, i: nat)
    requires i < |steps| && Attaches(steps[i], sid)
    requires forall j :: i < j < |steps| ==> !Attaches(steps[j], sid)
    ensures Holder(conn, steps, sid) ==
      if exists j :: i < j < |steps| && Detaches(steps[j], sid) then None else Some(steps[i].conn)
    decreases i
  {
    var tail := steps[1..];
    assert forall j :: 0 <= j < |tail| ==> tail[j] == steps[j + 1];
    if i == 0 {
      HolderWithoutAttach(Some(steps[0].conn), tail, sid);
      assert (exists j :: 0 <= j < |tail| && Detaches(tail[j], sid)) <==> (exists j :: 0 < j < |steps| && Detaches(steps[j], sid)) by {
        if j :| 0 < j < |steps| && Detaches(steps[j], sid) {
          assert tail[j - 1] == steps[j];
        }
      }
    } else {
      HolderSinceAttach(HolderStep(conn, steps[0], sid), tail, sid, i - 1);
      assert (exists j :: i - 1 < j < |tail| && Detaches(tail[j], sid)) <==> (exists j :: i < j < |steps| && Detaches(steps[j], sid)) by {
        if j :| i < j < |steps| && Detaches(steps[j], sid) {
          assert tail[j - 1] == steps[j];
        }
      }
    }
  }

  lemma {:induction false} HolderWithoutAttach(conn: Option<Name>, steps: seq<Step>, sid: Name)
    requires forall j :: 0 <= j < |steps| ==> !Attaches(steps[j], sid)
    ensures Holder(conn, steps, sid) == if exists j :: 0 <= j < |steps| && Detaches(steps[j], sid) then None else conn
    decreases |steps|
  {
    if steps != [] {
      var tail := steps[1..];
      assert forall j :: 0 <= j < |tail| ==> tail[j] == steps[j + 1];
      HolderWithoutAttach(HolderStep(conn, steps[0], sid), tail, sid);
      if j :| 0 <= j < |steps| && Detaches(steps[j], sid) {
        assert j > 0 ==> tail[j - 1] == steps[j];
      }
    }
  }

  /** The session stays attached to its newest connection, while that one is open, if and only
      if no older connection of it finishes closing after the attach. */
  lemma NewestStaysAttachedIff(steps: seq<Step>, cfg: Config, z: System, sid: Name, i: nat)
    requires Run(START, steps, cfg, z)
    requires i < |steps| && Attaches(steps[i], sid) && forall j :: i < j < |steps| ==> !Attaches(steps[j], sid)
    requires forall j :: i < j < |steps| ==> steps[j] != DoDetach(sid, steps[i].conn)
    ensures ConnOf(z, sid) == Some(steps[i].conn) <==>
      !exists j :: i < j < |steps| && Detaches(steps[j], sid) && steps[j].conn != steps[i].conn
  {
    hide Holder, Run;
    ConnIsHolder(START, steps, cfg, z, sid);
    HolderSinceAttach(ConnOf(START, sid), steps, sid, i);
    assert forall j :: i < j < |steps| && Detaches(steps[j], sid) ==> steps[j].conn != steps[i].conn;
  }

  /** Such a run: the old connection closes after the client is back on a new one, and the
      session is suspended while the new connection lives. */
  lemma OldClosingDetachesNew(self: R.Target, a: Name, b: Name, cfg: Config) returns (steps: seq<Step>, z: System)
    ensures var sid := self.sessionID;
      && steps == [Create(self), DoAttach(sid, a), DoAttach(sid, b), DoDetach(sid, a), LatePurge(sid)]
      && Run(START, steps, cfg, z) && NoneHitsActive(START, steps, cfg)
      && sid in z.sessions && z.sessions[sid].phase.Suspended? && z.sessions[sid].conn == None
  {
    var sid := self.sessionID;
    steps := [Create(self), DoAttach(sid, a), DoAttach(sid, b), DoDetach(sid, a), LatePurge(sid)];
    hide JoinAll, R.Purge, Bumped, Rooms, Topics;
    var y1 := Next(START, steps[0], cfg);
    var y2 := Next(y1, steps[1], cfg);
    var y3 := Next(y2, steps[2], cfg);
    var y4 := Next(y3, steps[3], cfg);
    z := Next(y4, steps[4], cfg);
    hide Next;
    RunFrom(y4, steps[4..], cfg, z);
    RunFrom(y3, steps[3..], cfg, z);
    RunFrom(y2, steps[2..], cfg, z);
    RunFrom(y1, steps[1..], cfg, z);
    NoneFrom(y4, steps[4..], cfg);
    NoneFrom(y3, steps[3..], cfg);
    NoneFrom(y2, steps[2..], cfg);
    NoneFrom(y1, steps[1..], cfg);
    NoneFrom(START, steps, cfg);
  }

  lemma NoneFrom(y: System, steps: seq<Step>, cfg: Config)
    requires steps != [] && Allowed(y, steps[0]) && !HitsActive(y, steps[0])
    requires NoneHitsActive(Next(y, steps[0], cfg), steps[1..], cfg)
    ensures NoneHitsActive(y, steps, cfg)
  {
  }

  lemma ClosedHasNoPlaces(y: System, sid: Name, cfg: Config)
    requires forall s :: s in y.sessions ==> y.sessions[s].Id() == s
    requires sid in y.sessions && !y.sessions[sid].closedOnce
    requires !y.sessions[sid].Attached() ==> Rooms(y, sid) == {} && Topics(y, sid) == {}
    ensures Rooms(Next(y, DoClose(sid), cfg), sid) == {} && Topics(Next(y, DoClose(sid), cfg), sid) == {}
  {
    StepOnPlaces(y, DoClose(sid), cfg, sid);
  }

  /** What onClose does is detaching followed by the late clearing, if nothing comes in between;
      it leaves the session suspended, without a connection and nowhere filed. */
  lemma HungUpIsTwoSteps(y: System, sid: Name, conn: Name, cfg: Config)
    requires sid in y.sessions && y.sessions[sid].self.sessionID == sid
    ensures var z := Next(Next(y, DoDetach(sid, conn), cfg), LatePurge(sid), cfg);
      && (z.sessions[sid], z.world) == HungUp(y.sessions[sid], y.world)
      && z.sessions == y.sessions[sid := y.sessions[sid].(conn := None, phase := Suspended)]
      && (forall p :: p in z.world.tables.rooms <==> p in y.world.tables.rooms && p.1 != sid)
      && (forall p :: p in z.world.tables.topics <==> p in y.world.tables.topics && p.1 != sid)
      && z.world.tables.users == y.world.tables.users && z.world.tables.devices == y.world.tables.devices
      && z.world.timers == y.world.timers && z.world.offline == y.world.offline
  {
  }

  // ---- The number of the last message -------------------------------------------------

  lemma LastSeqKept(y: System, step: Step, cfg: Config, sid: Name)
    requires Allowed(y, step) && sid in y.sessions
    requires step.DoSubmit? || step.DoTimeout? ==> step.sid != sid || !step.verdict.Taken?
    ensures sid in Next(y, step, cfg).sessions
    ensures Next(y, step, cfg).sessions[sid].lastSeq == y.sessions[sid].lastSeq
  {
    hide JoinAll, Bumped, TrackAll, R.Purge, R.Unregister, R.Register, CancelAll;
  }

  lemma {:induction false} LastSeqStays(y: System, steps: seq<Step>, cfg: Config, z: System, sid: Name)
    requires Run(y, steps, cfg, z) && sid in y.sessions
    requires forall i :: 0 <= i < |steps| && (steps[i].DoSubmit? || steps[i].DoTimeout?) ==>
      steps[i].sid != sid || !steps[i].verdict.Taken?
    ensures sid in z.sessions && z.sessions[sid].lastSeq == y.sessions[sid].lastSeq
    decreases |steps|
  {
    if steps != [] {
      LastSeqKept(y, steps[0], cfg, sid);
      hide Next;
      LastSeqStays(Next(y, steps[0], cfg), steps[1..], cfg, z, sid);
    }
  }

  /** After a submission that the connection took, the session answers the next attach with the
      number of that message, whatever else happens, until the connection takes another. */
  lemma LastSeqIsOfLastTaken(y: System, sid: Name, msg: Msg, n: nat, back: seq<Step>, z: System, cfg: Config)
    requires sid in y.sessions && y.sessions[sid].conn.Some?
    requires Run(Next(y, DoSubmit(sid, msg, Taken(n)), cfg), back, cfg, z)
    requires forall i :: 0 <= i < |back| && (back[i].DoSubmit? || back[i].DoTimeout?) ==>
      back[i].sid != sid || !back[i].verdict.Taken?
    ensures sid in z.sessions && z.sessions[sid].lastSeq == n
  {
    var x := Next(y, DoSubmit(sid, msg, Taken(n)), cfg);
    assert sid in x.sessions && x.sessions[sid].lastSeq == n;
    hide Next, Run;
    LastSeqStays(x, back, cfg, z, sid);
  }
}

/** Which acknowledgement timers run, and which of them the scanner's index has lost so that
    Close does not cancel them, read off the log of a run. */
module SessionLeaks {
  import opened Messages
  import opened Names
  import R = Router
  import opened SessionSpec
  import opened SessionRuns
  import opened SessionAcks
  import opened SessionTimers

  /** A log entry that starts a timer for the message: a delivery, a resend, or an attach that
      finds the message pending. */
  predicate Arms(open: bool, note: Label, sid: Name, id: Name) {
    note == Took(sid, id) || note == Retried(sid, id) || (note == Flushed(sid) && open)
  }

  /** The handler of a timeout has returned, whatever it came to. */
  predicate Finishes(note: Label, sid: Name, id: Name) {
    || note == Retried(sid, id) || note == Stale(sid, id)
    || (note.Stuck? && note.sid == sid && note.msg.id == id)
    || (note.Dropped? && note.sid == sid && note.msg.id == id)
  }

  predicate Disarms(note: Label, sid: Name, id: Name) {
    note == Acked(sid, id) || note == Rang(sid, id)
  }

  function ArmedThen(armed: bool, indexed: bool, open: bool, note: Label, sid: Name, id: Name): bool {
    if Arms(open, note, sid, id) then true
    else if Disarms(note, sid, id) then false
    else if note == Cleared(sid) then armed && !indexed
    else armed
  }

  function IndexedThen(indexed: bool, open: bool, note: Label, sid: Name, id: Name): bool {
    if Finishes(note, sid, id) then false
    else if Arms(open, note, sid, id) then true
    else if note == Acked(sid, id) || note == Cleared(sid) then false
    else indexed
  }

  /** Whether the log leaves a timer of the message running. */
  function ArmedBy(log: seq<Label>, sid: Name, id: Name): bool {
    if log == [] then false
    else
      var front, note := log[..|log| - 1], log[|log| - 1];
      ArmedThen(ArmedBy(front, sid, id), IndexedBy(front, sid, id), Open(front, sid, id).Some?, note, sid, id)
  }

  /** Whether the log leaves the message in the index. */
  function IndexedBy(log: seq<Label>, sid: Name, id: Name): bool {
    if log == [] then false
    else
      var front, note := log[..|log| - 1], log[|log| - 1];
      IndexedThen(IndexedBy(front, sid, id), Open(front, sid, id).Some?, note, sid, id)
  }

  // ---- Every step ---------------------------------------------------------------------

  function IsArmed(y: System, sid: Name, id: Name): bool {
    (sid, id) in y.world.timers.armed
  }

  function IsIndexed(y: System, sid: Name, id: Name): bool {
    (sid, id) in y.world.timers.index
  }

  /** A step does to timer and index of the message what its log entry says. */
  ghost predicate TimersFollow(y: System, step: Step, cfg: Config, sid: Name, id: Name)
    requires Allowed(y, step)
  {
    var z, open := Next(y, step, cfg), PendingOf(y, sid, id).Some?;
    && |z.log| == |y.log| + 1 && z.log[..|y.log|] == y.log
    && IsArmed(z, sid, id) == ArmedThen(IsArmed(y, sid, id), IsIndexed(y, sid, id), open, z.log[|y.log|], sid, id)
    && IsIndexed(z, sid, id) == IndexedThen(IsIndexed(y, sid, id), open, z.log[|y.log|], sid, id)
  }

  lemma SubmitTimers(y: System, who: Name, msg: Msg, verdict: Verdict, cfg: Config, sid: Name, id: Name)
    requires cfg.acker && Filed(y) && who in y.sessions
    ensures TimersFollow(y, DoSubmit(who, msg, verdict), cfg, sid, id)
  {
    hide FiledUnderId;
  }

  /** What a timeout does to the timers, before the scanner forgets the key. */
  lemma TimeoutOnTimers(s: Sess, w: World, cfg: Config, id: Name, verdict: Verdict)
    requires cfg.acker && FiledUnderId(s.pending)
    ensures var (result, s', w') := Timeout(s, w, cfg, id, verdict);
      w'.timers == if result.Resent?
                   then Timers(w.timers.armed + {(s.Id(), id)}, w.timers.index + {(s.Id(), id)}) else w.timers
  {
  }

  lemma TimeoutTimers(y: System, who: Name, m: Name, verdict: Verdict, cfg: Config, sid: Name, id: Name)
    requires cfg.acker && Filed(y) && who in y.sessions && (who, m) in y.inflight
    ensures TimersFollow(y, DoTimeout(who, m, verdict), cfg, sid, id)
  {
    TimeoutOnPending(y.sessions[who], y.world, cfg, m, verdict);
    TimeoutOnTimers(y.sessions[who], y.world, cfg, m, verdict);
    TimeoutLogs(y, who, m, verdict, cfg);
    hide Timeout;
  }

  lemma AttachTimers(y: System, who: Name, conn: Name, cfg: Config, sid: Name, id: Name)
    requires cfg.acker && Filed(y) && who in y.sessions
    ensures TimersFollow(y, DoAttach(who, conn), cfg, sid, id)
  {
    hide JoinAll, FiledUnderId;
  }

  lemma EndTimers(y: System, step: Step, cfg: Config, sid: Name, id: Name)
    requires cfg.acker && Filed(y) && Allowed(y, step) && (step.DoAck? || step.DoClose? || step.TimerFires?)
    ensures TimersFollow(y, step, cfg, sid, id)
  {
    hide Timeout, Submit, Attach, FiledUnderId, R.Purge, R.Unregister;
  }

  lemma QuietTimers(y: System, step: Step, cfg: Config, sid: Name, id: Name)
    requires cfg.acker && Filed(y) && Allowed(y, step)
    requires !step.DoAck? && !step.DoClose? && !step.TimerFires? && !step.DoSubmit? && !step.DoTimeout? && !step.DoAttach?
    ensures TimersFollow(y, step, cfg, sid, id)
  {
    hide Timeout, Submit, Attach, Close, Ack, FiledUnderId, PendingOf;
    hide R.Purge, R.Register, R.Join, R.Leave, R.Subscribe, R.Unsubscribe;
  }

  lemma StepTimers(y: System, step: Step, cfg: Config, sid: Name, id: Name)
    requires cfg.acker && Filed(y) && Allowed(y, step)
    ensures TimersFollow(y, step, cfg, sid, id)
  {
    hide TimersFollow, Filed, Next;
    match step {
      case DoSubmit(who, msg, verdict) => SubmitTimers(y, who, msg, verdict, cfg, sid, id);
      case DoTimeout(who, m, verdict) => TimeoutTimers(y, who, m, verdict, cfg, sid, id);
      case DoAttach(who, conn) => AttachTimers(y, who, conn, cfg, sid, id);
      case DoAck(_, _) => EndTimers(y, step, cfg, sid, id);
      case DoClose(_) => EndTimers(y, step, cfg, sid, id);
      case TimerFires(_, _) => EndTimers(y, step, cfg, sid, id);
      case _ => QuietTimers(y, step, cfg, sid, id);
    }
  }

  // ---- Over whole runs ----------------------------------------------------------------

  ghost predicate TimersLogged(y: System) {
    forall sid, id :: IsArmed(y, sid, id) == ArmedBy(y.log, sid, id) && IsIndexed(y, sid, id) == IndexedBy(y.log, sid, id)
  }

  lemma StepKeepsLogged(y: System, step: Step, cfg: Config)
    requires cfg.acker && Matches(y) && TimersLogged(y) && Allowed(y, step)
    ensures TimersLogged(Next(y, step, cfg))
  {
    hide Next, Filed, PendingOf, Open, IsArmed, IsIndexed, ArmedThen, IndexedThen;
    var z := Next(y, step, cfg);
    forall sid, id
      ensures IsArmed(z, sid, id) == ArmedBy(z.log, sid, id) && IsIndexed(z, sid, id) == IndexedBy(z.log, sid, id)
    {
      StepTimers(y, step, cfg, sid, id);
      assert PendingOf(y, sid, id) == Open(y.log, sid, id);
    }
  }

  lemma {:induction false} RunKeepsLogged(y: System, steps: seq<Step>, cfg: Config, z: System)
    requires cfg.acker && Matches(y) && TimersLogged(y) && Run(y, steps, cfg, z)
    ensures Matches(z) && TimersLogged(z)
    decreases |steps|
  {
    if steps != [] {
      hide Matches, TimersLogged, Next;
      StepKeepsMatch(y, steps[0], cfg);
      StepKeepsLogged(y, steps[0], cfg);
      RunKeepsLogged(Next(y, steps[0], cfg), steps[1..], cfg, z);
    }
  }

  /** In every reachable state the timers that run, and the keys the index holds, are those that
      the log says. */
  lemma TimersAreLogged(steps: seq<Step>, cfg: Config, z: System, sid: Name, id: Name)
    requires cfg.acker && Run(START, steps, cfg, z)
    ensures (sid, id) in z.world.timers.armed <==> ArmedBy(z.log, sid, id)
    ensures (sid, id) in z.world.timers.index <==> IndexedBy(z.log, sid, id)
  {
    StartMatches();
    RunKeepsLogged(START, steps, cfg, z);
    assert IsArmed(z, sid, id) == ArmedBy(z.log, sid, id) && IsIndexed(z, sid, id) == IndexedBy(z.log, sid, id);
  }

  // ---- Lost timers --------------------------------------------------------------------

  predicate ArmsAt(log: seq<Label>, n: nat, sid: Name, id: Name)
    requires n < |log|
  {
    Arms(Open(log[..n], sid, id).Some?, log[n], sid, id)
  }

  /** The timer started at `i` runs and the index knows it. */
  ghost predicate KnownSince(log: seq<Label>, i: nat, sid: Name, id: Name) {
    && i < |log| && ArmsAt(log, i, sid, id) && !Finishes(log[i], sid, id)
    && forall n: nat :: i < n < |log| ==>
      !ArmsAt(log, n, sid, id) && !Disarms(log[n], sid, id) && !Finishes(log[n], sid, id) && log[n] != Cleared(sid)
  }

  /** The timer started at `i` runs, but a handler of an earlier timeout of the message returned
      at `j`, at `i` itself when it was a resend, and made the scanner forget the key before
      anything cleared it. */
  ghost predicate LostSince(log: seq<Label>, i: nat, j: nat, sid: Name, id: Name) {
    && i <= j < |log| && ArmsAt(log, i, sid, id) && Finishes(log[j], sid, id)
    && (forall n: nat :: i < n < |log| ==> !ArmsAt(log, n, sid, id) && !Disarms(log[n], sid, id))
    && (forall n: nat :: i < n < j ==> log[n] != Cleared(sid))
  }

  lemma SameFront(log: seq<Label>, sid: Name, id: Name)
    requires log != []
    ensures var front := log[..|log| - 1];
      forall n: nat :: n < |front| ==> ArmsAt(log, n, sid, id) == ArmsAt(front, n, sid, id) && log[n] == front[n]
  {
    var front := log[..|log| - 1];
    forall n: nat | n < |front| ensures ArmsAt(log, n, sid, id) == ArmsAt(front, n, sid, id) && log[n] == front[n] {
      assert front[..n] == log[..n];
    }
  }

  lemma KnownFront(log: seq<Label>, i: nat, sid: Name, id: Name)
    requires log != [] && i < |log| - 1
    ensures var note, last := log[|log| - 1], (|log| - 1) as nat;
      KnownSince(log, i, sid, id) <==>
        KnownSince(log[..last], i, sid, id) && !ArmsAt(log, last, sid, id) && !Disarms(note, sid, id)
        && !Finishes(note, sid, id) && note != Cleared(sid)
  {
    hide Disarms, Finishes, ArmsAt;
    SameFront(log, sid, id);
  }

  lemma LostFront(log: seq<Label>, i: nat, j: nat, sid: Name, id: Name)
    requires log != [] && i <= j < |log| - 1
    ensures var note, last := log[|log| - 1], (|log| - 1) as nat;
      LostSince(log, i, j, sid, id) <==>
        LostSince(log[..last], i, j, sid, id) && !ArmsAt(log, last, sid, id) && !Disarms(note, sid, id)
  {
    hide Disarms, Finishes, ArmsAt;
    SameFront(log, sid, id);
  }

  /** A timer that the index knows is lost when a handler returns. */
  lemma LostNow(log: seq<Label>, i: nat, sid: Name, id: Name)
    requires log != [] && KnownSince(log[..|log| - 1], i, sid, id) && Finishes(log[|log| - 1], sid, id)
    requires !ArmsAt(log, |log| - 1, sid, id) && !Disarms(log[|log| - 1], sid, id)
    ensures LostSince(log, i, |log| - 1, sid, id)
  {
    hide Disarms, Finishes, ArmsAt;
    SameFront(log, sid, id);
  }

  /** A timer that a returning handler loses was known to the index or lost before. */
  lemma LostBefore(log: seq<Label>, front: seq<Label>, i: nat, sid: Name, id: Name)
    requires log != [] && front == log[..|log| - 1] && i < |front| && LostSince(log, i, |front|, sid, id)
    ensures KnownSince(front, i, sid, id) || exists j: nat :: LostSince(front, i, j, sid, id)
  {
    hide Disarms, Finishes, ArmsAt;
    SameFront(log, sid, id);
    if j: nat :| i <= j < |front| && Finishes(front[j], sid, id) {
      assert LostSince(front, i, j, sid, id);
    }
  }

  ghost predicate Known(log: seq<Label>, sid: Name, id: Name) {
    exists i: nat :: KnownSince(log, i, sid, id)
  }

  ghost predicate Lost(log: seq<Label>, sid: Name, id: Name) {
    exists i: nat, j: nat :: LostSince(log, i, j, sid, id)
  }

  lemma KnownThen(log: seq<Label>, sid: Name, id: Name)
    requires log != []
    ensures var front, note, arms := log[..|log| - 1], log[|log| - 1], ArmsAt(log, |log| - 1, sid, id);
      Known(log, sid, id) <==>
        if arms then !Finishes(note, sid, id)
        else Known(front, sid, id) && !Disarms(note, sid, id) && !Finishes(note, sid, id) && note != Cleared(sid)
  {
    var last := |log| - 1;
    if ArmsAt(log, last, sid, id) && !Finishes(log[last], sid, id) {
      assert KnownSince(log, last, sid, id);
    }
    forall i: nat | i < last
      ensures KnownSince(log, i, sid, id) <==>
        KnownSince(log[..last], i, sid, id) && !ArmsAt(log, last, sid, id) && !Disarms(log[last], sid, id)
        && !Finishes(log[last], sid, id) && log[last] != Cleared(sid)
    {
      KnownFront(log, i, sid, id);
    }
    hide Disarms, Finishes, ArmsAt;
  }

  lemma LostThen(log: seq<Label>, sid: Name, id: Name)
    requires log != []
    ensures var front, note, arms := log[..|log| - 1], log[|log| - 1], ArmsAt(log, |log| - 1, sid, id);
      Lost(log, sid, id) <==>
        if arms then Finishes(note, sid, id)
        else !Disarms(note, sid, id) && (Lost(front, sid, id) || (Known(front, sid, id) && Finishes(note, sid, id)))
  {
    hide Disarms, Finishes, ArmsAt;
    var last := |log| - 1;
    if ArmsAt(log, last, sid, id) && Finishes(log[last], sid, id) {
      assert LostSince(log, last, last, sid, id);
    }
    if Lost(log, sid, id) {
      var i: nat, j: nat :| LostSince(log, i, j, sid, id);
      LostFromFront(log, i, j, sid, id);
    }
    if !ArmsAt(log, last, sid, id) && !Disarms(log[last], sid, id) {
      LostStays(log, sid, id);
    }
  }

  lemma LostFromFront(log: seq<Label>, i: nat, j: nat, sid: Name, id: Name)
    requires log != [] && LostSince(log, i, j, sid, id)
    ensures var front, note, arms := log[..|log| - 1], log[|log| - 1], ArmsAt(log, |log| - 1, sid, id);
      if arms then Finishes(note, sid, id)
      else !Disarms(note, sid, id) && (Lost(front, sid, id) || (Known(front, sid, id) && Finishes(note, sid, id)))
  {
    hide Disarms, Finishes, ArmsAt;
    var last := |log| - 1;
    if i < last {
      if j < last {
        LostFront(log, i, j, sid, id);
      } else {
        LostBefore(log, log[..last], i, sid, id);
      }
    }
  }

  lemma LostStays(log: seq<Label>, sid: Name, id: Name)
    requires log != [] && !ArmsAt(log, |log| - 1, sid, id) && !Disarms(log[|log| - 1], sid, id)
    ensures var front, note := log[..|log| - 1], log[|log| - 1];
      Lost(front, sid, id) || (Known(front, sid, id) && Finishes(note, sid, id)) ==> Lost(log, sid, id)
  {
    hide Disarms, Finishes, ArmsAt;
    var front, note := log[..|log| - 1], log[|log| - 1];
    if Lost(front, sid, id) {
      var i: nat, j: nat :| LostSince(front, i, j, sid, id);
      LostFront(log, i, j, sid, id);
    } else if Known(front, sid, id) && Finishes(note, sid, id) {
      var i: nat :| KnownSince(front, i, sid, id);
      LostNow(log, i, sid, id);
    }
  }

  /** A running timer is known to the index, or lost to it, exactly as the positions in the log say. */
  lemma {:induction false} KnownAndLost(log: seq<Label>, sid: Name, id: Name)
    ensures ArmedBy(log, sid, id) && IndexedBy(log, sid, id) <==> Known(log, sid, id)
    ensures ArmedBy(log, sid, id) && !IndexedBy(log, sid, id) <==> Lost(log, sid, id)
  {
    hide Known, Lost;
    if log == [] {
      NothingKnown(sid, id);
    } else {
      KnownAndLost(log[..|log| - 1], sid, id);
      KnownThen(log, sid, id);
      LostThen(log, sid, id);
    }
  }

  lemma NothingKnown(sid: Name, id: Name)
    ensures !Known([], sid, id) && !Lost([], sid, id)
  {
  }

  // ---- What Close leaves --------------------------------------------------------------

  /** In every reachable state: the first Close leaves the timer of a message running if and
      only if, since the timer was last started and with no clearing in between, a handler of a
      timeout of that message has returned. */
  lemma CloseLeavesIff(steps: seq<Step>, cfg: Config, y: System, sid: Name, id: Name)
    requires cfg.acker && Run(START, steps, cfg, y) && sid in y.sessions && !y.sessions[sid].closedOnce
    ensures (sid, id) in Next(y, DoClose(sid), cfg).world.timers.armed <==>
      exists i: nat, j: nat :: LostSince(y.log, i, j, sid, id)
  {
    TimersAreLogged(steps, cfg, y, sid, id);
    KnownAndLost(y.log, sid, id);
    CloseOnTimers(steps, cfg, y, sid, id);
    hide LostSince, KnownSince, Next;
  }

  lemma CloseOnTimers(steps: seq<Step>, cfg: Config, y: System, sid: Name, id: Name)
    requires cfg.acker && Run(START, steps, cfg, y) && sid in y.sessions && !y.sessions[sid].closedOnce
    ensures (sid, id) in Next(y, DoClose(sid), cfg).world.timers.armed <==>
      (sid, id) in y.world.timers.armed && (sid, id) !in y.world.timers.index
  {
    StartMatches();
    PendingIsOpen(START, steps, cfg, y);
    assert y.sessions[sid].Id() == sid;
  }

  /** Every resend loses its timer: after one, Close leaves it running. */
  lemma CloseLeavesResentTimer(self: R.Target, msg: Msg, cfg: Config) returns (steps: seq<Step>, z: System)
    requires cfg.acker && NeedsAck(msg)
    ensures Run(START, steps + [DoClose(self.sessionID)], cfg, z)
    ensures self.sessionID in z.sessions && z.sessions[self.sessionID].phase.Closed?
    ensures (self.sessionID, msg.id) in z.world.timers.armed
  {
    var sid, y := self.sessionID, START;
    steps, y := ResendsAreUnbounded(self, msg, cfg, 1);
    z := Next(y, DoClose(sid), cfg);
    assert [DoClose(sid)][1..] == [];
    RunFrom(y, [DoClose(sid)], cfg, z);
    RunAppend(START, steps, y, [DoClose(sid)], cfg, z);
  }

  // ---- What a timer that was left does ------------------------------------------------

  lemma {:induction false} LogGrows(y: System, steps: seq<Step>, cfg: Config, z: System)
    requires Run(y, steps, cfg, z)
    ensures y.log <= z.log
    decreases |steps|
  {
    if steps != [] {
      LastOf(y, steps[0], cfg);
      LogGrows(Next(y, steps[0], cfg), steps[1..], cfg, z);
    }
  }

  /** A message that is not open and is not delivered again stays so: only an open message is resent. */
  lemma {:induction false} StaysShut(log: seq<Label>, from: nat, cfg: Config, sid: Name, id: Name)
    requires from <= |log| && Open(log[..from], sid, id) == None
    requires forall n :: from <= n < |log| ==> Truthful(log[..n], log[n], cfg) && log[n] != Took(sid, id)
    ensures Open(log, sid, id) == None
    decreases |log|
  {
    if from == |log| {
      assert log[..from] == log;
    } else {
      var last := |log| - 1;
      var front := log[..last];
      assert front[..from] == log[..from];
      assert forall n :: from <= n < last ==> front[..n] == log[..n] && front[n] == log[n];
      StaysShut(front, from, cfg, sid, id);
      assert Truthful(front, log[last], cfg);
    }
  }

  lemma StartRecorded(cfg: Config)
    ensures Recorded(START, cfg)
  {
  }

  /** After the first Close, and as long as the message is not delivered anew, a timeout of it
      changes no session, no store, no router and no timer, whatever happened in between. */
  lemma LeftoverIsHarmless(before: seq<Step>, y: System, after: seq<Step>, z: System, sid: Name, id: Name, verdict: Verdict, cfg: Config)
    requires cfg.acker && Run(START, before, cfg, y) && sid in y.sessions && !y.sessions[sid].closedOnce
    requires Run(Next(y, DoClose(sid), cfg), after, cfg, z)
    requires forall n :: |y.log| < n < |z.log| ==> z.log[n] != Took(sid, id)
    requires Allowed(z, DoTimeout(sid, id, verdict))
    ensures var x := Next(z, DoTimeout(sid, id, verdict), cfg);
      && x.sessions == z.sessions && x.world.offline == z.world.offline && x.world.tables == z.world.tables
      && x.world.timers.armed == z.world.timers.armed
  {
    NothingPending(before, y, after, z, sid, id, cfg);
    hide Run, Truthful;
  }

  lemma NothingPending(before: seq<Step>, y: System, after: seq<Step>, z: System, sid: Name, id: Name, cfg: Config)
    requires cfg.acker && Run(START, before, cfg, y) && sid in y.sessions && !y.sessions[sid].closedOnce
    requires Run(Next(y, DoClose(sid), cfg), after, cfg, z)
    requires forall n :: |y.log| < n < |z.log| ==> z.log[n] != Took(sid, id)
    ensures PendingOf(z, sid, id) == None
  {
    var closed := Next(y, DoClose(sid), cfg);
    hide Next, Run, Matches, Recorded, Open, Truthful;
    StartMatches();
    StartRecorded(cfg);
    PendingIsOpen(START, before, cfg, y);
    StoreIsRecorded(START, before, cfg, y);
    ClosedLog(y, sid, cfg);
    StepKeepsMatch(y, DoClose(sid), cfg);
    OneStep(y, DoClose(sid), cfg);
    StoreIsRecorded(y, [DoClose(sid)], cfg, closed);
    PendingIsOpen(closed, after, cfg, z);
    StoreIsRecorded(closed, after, cfg, z);
    LogGrows(closed, after, cfg, z);
    ShutAfterClose(y, closed, z, sid, id, cfg);
  }

  lemma OneStep(y: System, step: Step, cfg: Config)
    requires Allowed(y, step)
    ensures Run(y, [step], cfg, Next(y, step, cfg))
  {
    assert [step][1..] == [];
  }

  lemma ClosedLog(y: System, sid: Name, cfg: Config)
    requires sid in y.sessions && !y.sessions[sid].closedOnce
    ensures Next(y, DoClose(sid), cfg).log == y.log + [Cleared(sid)]
  {
  }

  lemma ShutAfterClose(y: System, closed: System, z: System, sid: Name, id: Name, cfg: Config)
    requires closed.log == y.log + [Cleared(sid)] && closed.log <= z.log && Recorded(z, cfg) && Matches(z)
    requires forall n :: |y.log| < n < |z.log| ==> z.log[n] != Took(sid, id)
    ensures PendingOf(z, sid, id) == None
  {
    var from := |closed.log|;
    assert z.log[..from] == closed.log && closed.log[..from - 1] == y.log;
    assert Open(closed.log, sid, id) == None;
    hide Open, Truthful;
    StaysShut(z.log, from, cfg, sid, id);
  }
}

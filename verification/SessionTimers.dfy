/** The timers behind at-least-once delivery: which pending messages have one, and what the
    retry limit does and does not bound. */
module SessionTimers {
  import opened Messages
  import opened Names
  import R = Router
  import opened SessionSpec
  import opened SessionRuns
  import opened SessionAcks

  /** The last thing tried for the message was a resend at a timeout, and it failed. */
  function IsStuck(log: seq<Label>, sid: Name, id: Name): bool {
    if log == [] then false
    else
      var note := log[|log| - 1];
      if Begins(note, sid, id) || note == Flushed(sid) then false
      else if Bumps(note, sid, id) then true
      else IsStuck(log[..|log| - 1], sid, id)
  }

  /** A pending message has a timer running or its handler about to run, unless its last resend failed. */
  ghost predicate CoveredAt(y: System, sid: Name, id: Name) {
    PendingOf(y, sid, id).Some? ==>
      (sid, id) in y.world.timers.armed || (sid, id) in y.inflight || IsStuck(y.log, sid, id)
  }

  ghost predicate Covered(y: System) {
    forall sid, id :: CoveredAt(y, sid, id)
  }

  lemma LastOf(y: System, step: Step, cfg: Config)
    requires Allowed(y, step)
    ensures var z := Next(y, step, cfg); |z.log| == |y.log| + 1 && z.log[..|z.log| - 1] == y.log
  {
    hide Timeout, Submit, Attach, Detach, Close;
  }

  lemma TimeoutCovers(y: System, who: Name, m: Name, verdict: Verdict, cfg: Config, sid: Name, id: Name)
    requires cfg.acker && Filed(y) && CoveredAt(y, sid, id) && who in y.sessions && (who, m) in y.inflight
    ensures CoveredAt(Next(y, DoTimeout(who, m, verdict), cfg), sid, id)
  {
    var z := Next(y, DoTimeout(who, m, verdict), cfg);
    LastOf(y, DoTimeout(who, m, verdict), cfg);
    TimeoutOnPending(y.sessions[who], y.world, cfg, m, verdict);
    TimeoutArms(y.sessions[who], y.world, cfg, m, verdict);
    hide Timeout, Filed;
    if (who, m) != (sid, id) {
      assert IsStuck(y.log, sid, id) ==> IsStuck(z.log, sid, id);
    }
  }

  lemma TimeoutArms(s: Sess, w: World, cfg: Config, id: Name, verdict: Verdict)
    requires cfg.acker && FiledUnderId(s.pending)
    ensures var (result, s', w') := Timeout(s, w, cfg, id, verdict);
      w'.timers.armed == if result.Resent? then w.timers.armed + {(s.Id(), id)} else w.timers.armed
  {
  }

  lemma OthersCover(y: System, step: Step, cfg: Config, sid: Name, id: Name)
    requires cfg.acker && Filed(y) && CoveredAt(y, sid, id) && Allowed(y, step) && !step.DoTimeout? && !step.DoSubmit? && !step.DoAttach?
    ensures CoveredAt(Next(y, step, cfg), sid, id)
  {
    hide Timeout, Submit, Attach;
    LastOf(y, step, cfg);
  }

  lemma SubmitCovers(y: System, who: Name, msg: Msg, verdict: Verdict, cfg: Config, sid: Name, id: Name)
    requires cfg.acker && Filed(y) && CoveredAt(y, sid, id) && who in y.sessions
    ensures CoveredAt(Next(y, DoSubmit(who, msg, verdict), cfg), sid, id)
  {
    LastOf(y, DoSubmit(who, msg, verdict), cfg);
  }

  /** Attaching starts a timer for every pending message again. */
  lemma AttachCovers(y: System, who: Name, conn: Name, cfg: Config, sid: Name, id: Name)
    requires cfg.acker && Filed(y) && CoveredAt(y, sid, id) && who in y.sessions
    ensures var z := Next(y, DoAttach(who, conn), cfg);
      && CoveredAt(z, sid, id)
      && (sid == who && PendingOf(z, sid, id).Some? ==> (sid, id) in z.world.timers.armed)
  {
    hide JoinAll;
    LastOf(y, DoAttach(who, conn), cfg);
  }

  lemma {:induction false} RunCovers(y: System, steps: seq<Step>, cfg: Config, z: System)
    requires cfg.acker && Filed(y) && Covered(y) && Run(y, steps, cfg, z)
    ensures Filed(z) && Covered(z)
    decreases |steps|
  {
    if steps != [] {
      hide CoveredAt, Filed, Next;
      StepKeepsFiled(y, steps[0], cfg);
      forall sid, id ensures CoveredAt(Next(y, steps[0], cfg), sid, id) {
        match steps[0] {
          case DoTimeout(who, m, verdict) => TimeoutCovers(y, who, m, verdict, cfg, sid, id);
          case DoSubmit(who, msg, verdict) => SubmitCovers(y, who, msg, verdict, cfg, sid, id);
          case DoAttach(who, conn) => AttachCovers(y, who, conn, cfg, sid, id);
          case _ => OthersCover(y, steps[0], cfg, sid, id);
        }
      }
      RunCovers(Next(y, steps[0], cfg), steps[1..], cfg, z);
    }
  }

  /** In every reachable state every pending message has a timer, a handler about to run, or a
      failed resend as the last thing tried. */
  lemma TimerCoverage(steps: seq<Step>, cfg: Config, z: System, sid: Name, id: Name)
    requires cfg.acker && Run(START, steps, cfg, z) && PendingOf(z, sid, id).Some?
    ensures (sid, id) in z.world.timers.armed || (sid, id) in z.inflight || IsStuck(z.log, sid, id)
  {
    RunCovers(START, steps, cfg, z);
    assert CoveredAt(z, sid, id);
  }

  // ---- Retries ------------------------------------------------------------------------

  ghost predicate CleanlyTracked(y: System, sid: Name, msg: Msg, retried: nat) {
    && Filed(y) && sid in y.sessions && y.sessions[sid].Attached() && !y.sessions[sid].closedOnce
    && y.sessions[sid].pending == map[msg.id := Entry(msg, 0)]
    && (sid, msg.id) in y.world.timers.armed
    && NeedsAck(msg)
    && RetriedCount(y.log) == retried
    && (forall i :: 0 <= i < |y.log| ==> !y.log[i].Dropped?)
    && (retried > 0 ==> (sid, msg.id) !in y.world.timers.index)
  }

  function RetriedCount(log: seq<Label>): nat {
    if log == [] then 0 else RetriedCount(log[..|log| - 1]) + if log[|log| - 1].Retried? then 1 else 0
  }

  lemma CountsOneMore(log: seq<Label>, note: Label)
    ensures RetriedCount(log + [note]) == RetriedCount(log) + if note.Retried? then 1 else 0
    ensures (forall i :: 0 <= i < |log| ==> !log[i].Dropped?) && !note.Dropped? ==>
      forall i :: 0 <= i < |log + [note]| ==> !(log + [note])[i].Dropped?
  {
    assert (log + [note])[..|log|] == log;
  }

  /** One more timeout with a successful resend: the count starts at zero again, and the
      scanner forgets the key it has just tracked. */
  lemma RetryOnce(y: System, sid: Name, msg: Msg, retried: nat, cfg: Config) returns (z: System)
    requires cfg.acker && CleanlyTracked(y, sid, msg, retried)
    ensures CleanlyTracked(z, sid, msg, retried + 1)
    ensures Run(y, [TimerFires(sid, msg.id), DoTimeout(sid, msg.id, Taken(0))], cfg, z)
  {
    hide RetriedCount, FiledUnderId;
    var fire, handle := TimerFires(sid, msg.id), DoTimeout(sid, msg.id, Taken(0));
    var x := Next(y, fire, cfg);
    CountsOneMore(y.log, Rang(sid, msg.id));
    var s := x.sessions[sid];
    TimeoutOnPending(s, x.world, cfg, msg.id, Taken(0));
    z := Next(x, handle, cfg);
    CountsOneMore(x.log, Retried(sid, msg.id));
    assert z.log == x.log + [Retried(sid, msg.id)];
    assert [fire, handle][1..] == [handle] && [handle][1..] == [];
    RunFrom(x, [handle], cfg, z);
    RunFrom(y, [fire, handle], cfg, z);
    assert z.sessions[sid].pending == map[msg.id := Entry(msg, 0)];
  }

  lemma FirstDelivery(self: R.Target, msg: Msg, cfg: Config) returns (steps: seq<Step>, z: System)
    requires cfg.acker && NeedsAck(msg)
    ensures Run(START, steps, cfg, z) && CleanlyTracked(z, self.sessionID, msg, 0)
  {
    var sid := self.sessionID;
    steps := [Create(self), DoAttach(sid, NO_NAME), DoSubmit(sid, msg, Taken(1))];
    hide JoinAll;
    var created := Next(START, steps[0], cfg);
    var attached := Next(created, steps[1], cfg);
    assert created.sessions[sid].pending.Keys == {};
    assert attached.sessions[sid].pending == map[];
    z := Next(attached, steps[2], cfg);
    assert z.log == [Quiet, Flushed(sid), Took(sid, msg.id)];
    NoRetries(z.log);
    hide Next;
    RunFrom(attached, steps[2..], cfg, z);
    RunFrom(created, steps[1..], cfg, z);
  }

  lemma {:induction false} NoRetries(log: seq<Label>)
    requires forall i :: 0 <= i < |log| ==> !log[i].Retried?
    ensures RetriedCount(log) == 0
  {
    if log != [] {
      NoRetries(log[..|log| - 1]);
    }
  }

  /** The retry limit does not bound how often a message is sent again: whatever the limit, a
      client that never answers can be sent the message any number of times, and the message
      is never given up. */
  lemma {:induction false} ResendsAreUnbounded(self: R.Target, msg: Msg, cfg: Config, n: nat) returns (steps: seq<Step>, z: System)
    requires cfg.acker && NeedsAck(msg)
    ensures Run(START, steps, cfg, z) && RetriedCount(z.log) == n
    ensures forall i :: 0 <= i < |z.log| ==> !z.log[i].Dropped?
    ensures CleanlyTracked(z, self.sessionID, msg, n)
    decreases n
  {
    if n == 0 {
      steps, z := FirstDelivery(self, msg, cfg);
    } else {
      var front, y := ResendsAreUnbounded(self, msg, cfg, n - 1);
      var sid := self.sessionID;
      z := RetryOnce(y, sid, msg, n - 1, cfg);
      var again := [TimerFires(sid, msg.id), DoTimeout(sid, msg.id, Taken(0))];
      hide Run, CleanlyTracked;
      RunAppend(START, front, y, again, cfg, z);
      steps := front + again;
    }
  }
}

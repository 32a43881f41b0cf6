/** At-least-once delivery over whole runs: where every tracked message is, how often it was
    offered, which timers run for it, and what reached the offline store. */
module SessionAcks {
  import opened Messages
  import opened Names
  import R = Router
  import opened SessionSpec
  import opened SessionRuns

  // ---- Pending messages, read off the log -------------------------------------------

  /** The retry count of a pending message. */
  ghost function PendingOf(y: System, sid: Name, id: Name): Option<nat> {
    if sid in y.sessions && id in y.sessions[sid].pending then Some(y.sessions[sid].pending[id].retries) else None
  }

  /** A delivery that is tracked from here on. */
  predicate Begins(note: Label, sid: Name, id: Name) {
    note == Took(sid, id) || note == Retried(sid, id)
  }

  /** Acknowledged, removed, given up, or cleared by Close. */
  predicate Ends(note: Label, sid: Name, id: Name) {
    || note == Acked(sid, id) || note == Removed(sid, id) || note == Cleared(sid)
    || (note.Dropped? && note.sid == sid && note.msg.id == id)
  }

  /** Offered again, without a fresh start: by an attach, or by a timeout that could not resend. */
  predicate Bumps(note: Label, sid: Name, id: Name) {
    note == Flushed(sid) || (note.Stuck? && note.sid == sid && note.msg.id == id)
  }

  function After(open: Option<nat>, note: Label, sid: Name, id: Name): Option<nat> {
    if Begins(note, sid, id) then Some(0)
    else if Ends(note, sid, id) then None
    else if Bumps(note, sid, id) && open.Some? then Some(open.value + 1)
    else open
  }

  /** What the log says is pending, and how often it was offered again. */
  function Open(log: seq<Label>, sid: Name, id: Name): Option<nat> {
    if log == [] then None
    else After(Open(log[..|log| - 1], sid, id), log[|log| - 1], sid, id)
  }

  ghost predicate Filed(y: System) {
    forall sid :: sid in y.sessions ==> y.sessions[sid].Id() == sid && FiledUnderId(y.sessions[sid].pending)
  }

  lemma SubmitOnPending(s: Sess, w: World, cfg: Config, msg: Msg, verdict: Verdict, id: Name)
    requires cfg.acker
    ensures var (outcome, s', w') := Submit(s, w, cfg, msg, verdict);
      s'.pending == if outcome.Accepted? && NeedsAck(msg) then s.pending[msg.id := Entry(msg, 0)] else s.pending
  {
  }

  lemma TimeoutOnPending(s: Sess, w: World, cfg: Config, id: Name, verdict: Verdict)
    requires cfg.acker && FiledUnderId(s.pending)
    ensures var (result, s', w') := Timeout(s, w, cfg, id, verdict);
      && (result.Gone? <==> id !in s.pending)
      && (id in s.pending ==>
            var e := s.pending[id];
            && (result.GaveUp? <==> e.retries + 1 > cfg.Limit())
            && (result.GaveUp? ==> result.stored == Storable(e.msg, cfg))
            && s'.pending == match result
                 case GaveUp(_) => s.pending - {id}
                 case Resent => s.pending[id := Entry(e.msg, 0)]
                 case Stalled => s.pending[id := Entry(e.msg, e.retries + 1)]
                 case Gone => s.pending)
      && (result.Gone? ==> s' == s && w' == w)
  {
    if id in s.pending {
      var e := Entry(s.pending[id].msg, s.pending[id].retries + 1);
      SubmitOnPending(s.(pending := s.pending[id := e]), w, cfg, e.msg, verdict, id);
    }
  }

  /** A step does to what is pending what its log entry says, and keeps it well filed. */
  ghost predicate Faithful(y: System, step: Step, cfg: Config, sid: Name, id: Name)
    requires Allowed(y, step)
  {
    var z := Next(y, step, cfg);
    && |z.log| == |y.log| + 1 && z.log[..|y.log|] == y.log
    && PendingOf(z, sid, id) == After(PendingOf(y, sid, id), z.log[|y.log|], sid, id)
    && (sid in z.sessions ==> z.sessions[sid].Id() == sid)
    && (sid in z.sessions && id in z.sessions[sid].pending ==>
          z.sessions[sid].pending[id].msg.id == id && NeedsAck(z.sessions[sid].pending[id].msg))
  }

  lemma SubmitIsFaithful(y: System, who: Name, msg: Msg, verdict: Verdict, cfg: Config, sid: Name, id: Name)
    requires cfg.acker && Filed(y) && who in y.sessions
    ensures Faithful(y, DoSubmit(who, msg, verdict), cfg, sid, id)
  {
    SubmitOnPending(y.sessions[who], y.world, cfg, msg, verdict, id);
  }

  /** What a timeout writes into the log. */
  function NoteOf(result: TimeoutResult, sid: Name, msg: Msg, cfg: Config): Label {
    match result
    case Gone => Stale(sid, msg.id)
    case Resent => Retried(sid, msg.id)
    case Stalled => Stuck(sid, msg, Storable(msg, cfg))
    case GaveUp(stored) => Dropped(sid, msg, stored)
  }

  lemma TimeoutLogs(y: System, who: Name, m: Name, verdict: Verdict, cfg: Config)
    requires cfg.acker && Filed(y) && who in y.sessions && (who, m) in y.inflight
    ensures var (result, s', w') := Timeout(y.sessions[who], y.world, cfg, m, verdict);
      var z := Next(y, DoTimeout(who, m, verdict), cfg);
      && z.sessions == y.sessions[who := s']
      && s'.self == y.sessions[who].self
      && |z.log| == |y.log| + 1 && z.log[..|y.log|] == y.log
      && (result.Gone? ==> z.log[|y.log|] == Stale(who, m) && s' == y.sessions[who])
      && (!result.Gone? ==> m in y.sessions[who].pending && z.log[|y.log|] == NoteOf(result, who, y.sessions[who].pending[m].msg, cfg))
  {
    TimeoutOnPending(y.sessions[who], y.world, cfg, m, verdict);
    assert Timeout(y.sessions[who], y.world, cfg, m, verdict).1.self == y.sessions[who].self;
    hide Timeout;
  }

  lemma TimeoutIsFaithful(y: System, who: Name, m: Name, verdict: Verdict, cfg: Config, sid: Name, id: Name)
    requires cfg.acker && Filed(y) && who in y.sessions && (who, m) in y.inflight
    ensures Faithful(y, DoTimeout(who, m, verdict), cfg, sid, id)
  {
    TimeoutOnPending(y.sessions[who], y.world, cfg, m, verdict);
    TimeoutLogs(y, who, m, verdict, cfg);
    hide Timeout, Next;
  }

  lemma AttachIsFaithful(y: System, who: Name, conn: Name, cfg: Config, sid: Name, id: Name)
    requires cfg.acker && Filed(y) && who in y.sessions
    ensures Faithful(y, DoAttach(who, conn), cfg, sid, id)
  {
    hide JoinAll, TrackAll;
  }

  /** The steps that end pending messages. */
  lemma EndsAreFaithful(y: System, step: Step, cfg: Config, sid: Name, id: Name)
    requires cfg.acker && Filed(y) && Allowed(y, step) && (step.DoAck? || step.DoRemove? || step.DoClose?)
    ensures Faithful(y, step, cfg, sid, id)
  {
    hide Timeout, Submit, Attach, R.Purge, R.Unregister, CancelAll, Done;
  }

  /** The steps that leave what is pending alone. */
  lemma QuietIsFaithful(y: System, step: Step, cfg: Config, sid: Name, id: Name)
    requires cfg.acker && Filed(y) && Allowed(y, step)
    requires !step.DoAck? && !step.DoRemove? && !step.DoClose? && !step.DoSubmit? && !step.DoTimeout? && !step.DoAttach?
    ensures Faithful(y, step, cfg, sid, id)
  {
    hide Timeout, Submit, Attach, Close, Ack, R.Purge, R.Register, R.Join, R.Leave, R.Subscribe, R.Unsubscribe;
  }

  /** One step changes what is pending as its log entry says, and for no other session or message. */
  lemma StepIsFaithful(y: System, step: Step, cfg: Config, sid: Name, id: Name)
    requires cfg.acker && Allowed(y, step) && Filed(y)
    ensures Faithful(y, step, cfg, sid, id)
  {
    hide Faithful, Filed, Next;
    match step {
      case DoSubmit(who, msg, verdict) => SubmitIsFaithful(y, who, msg, verdict, cfg, sid, id);
      case DoTimeout(who, m, verdict) => TimeoutIsFaithful(y, who, m, verdict, cfg, sid, id);
      case DoAttach(who, conn) => AttachIsFaithful(y, who, conn, cfg, sid, id);
      case DoAck(_, _) => EndsAreFaithful(y, step, cfg, sid, id);
      case DoRemove(_, _) => EndsAreFaithful(y, step, cfg, sid, id);
      case DoClose(_) => EndsAreFaithful(y, step, cfg, sid, id);
      case _ => QuietIsFaithful(y, step, cfg, sid, id);
    }
  }

  lemma StepKeepsFiled(y: System, step: Step, cfg: Config)
    requires cfg.acker && Allowed(y, step) && Filed(y)
    ensures Filed(Next(y, step, cfg))
  {
    forall sid, id ensures Faithful(y, step, cfg, sid, id) {
      StepIsFaithful(y, step, cfg, sid, id);
    }
    var z := Next(y, step, cfg);
    hide Next, After, PendingOf;
    forall sid | sid in z.sessions ensures z.sessions[sid].Id() == sid && FiledUnderId(z.sessions[sid].pending) {
      assert Faithful(y, step, cfg, sid, NO_NAME);
      forall id | id in z.sessions[sid].pending
        ensures z.sessions[sid].pending[id].msg.id == id && NeedsAck(z.sessions[sid].pending[id].msg)
      {
        assert Faithful(y, step, cfg, sid, id);
      }
    }
  }

  // ---- Over whole runs --------------------------------------------------------------

  ghost predicate Matches(y: System) {
    Filed(y) && forall sid, id :: PendingOf(y, sid, id) == Open(y.log, sid, id)
  }

  lemma StepKeepsMatch(y: System, step: Step, cfg: Config)
    requires cfg.acker && Allowed(y, step) && Matches(y)
    ensures Matches(Next(y, step, cfg))
  {
    var z := Next(y, step, cfg);
    StepKeepsFiled(y, step, cfg);
    hide Next, Filed, PendingOf, After;
    forall sid, id ensures PendingOf(z, sid, id) == Open(z.log, sid, id) {
      StepIsFaithful(y, step, cfg, sid, id);
    }
  }

  /** In every reachable state the pending messages of every session, with their retry counts,
      are those the log leaves open. */
  lemma {:induction false} PendingIsOpen(y: System, steps: seq<Step>, cfg: Config, z: System)
    requires cfg.acker && Matches(y) && Run(y, steps, cfg, z)
    ensures Matches(z)
    decreases |steps|
  {
    if steps != [] {
      hide Matches, Next;
      StepKeepsMatch(y, steps[0], cfg);
      PendingIsOpen(Next(y, steps[0], cfg), steps[1..], cfg, z);
    }
  }

  lemma StartMatches()
    ensures Matches(START)
  {
  }

  function BumpCount(log: seq<Label>, sid: Name, id: Name): nat {
    if log == [] then 0
    else BumpCount(log[..|log| - 1], sid, id) + if Bumps(log[|log| - 1], sid, id) then 1 else 0
  }

  /** A message is open when it was delivered at some point and nothing has ended it since; the
      count is the number of flushes and failed resends since the last delivery. */
  ghost predicate OpenSince(log: seq<Label>, i: nat, sid: Name, id: Name) {
    && i < |log| && Begins(log[i], sid, id)
    && forall j :: i < j < |log| ==> !Begins(log[j], sid, id) && !Ends(log[j], sid, id)
  }

  lemma OpenSinceFront(log: seq<Label>, i: nat, sid: Name, id: Name)
    requires log != [] && i < |log| - 1 && !Begins(log[|log| - 1], sid, id) && !Ends(log[|log| - 1], sid, id)
    ensures OpenSince(log, i, sid, id) <==> OpenSince(log[..|log| - 1], i, sid, id)
    ensures log[i + 1..][..|log| - i - 2] == log[..|log| - 1][i + 1..]
  {
    var n := |log| - 1;
    var front := log[..n];
    hide Begins, Ends;
    assert forall j :: i < j < |log| ==> j == n || log[j] == front[j];
    assert forall j :: i < j < n ==> front[j] == log[j];
  }

  lemma {:induction false} OpenMeans(log: seq<Label>, sid: Name, id: Name)
    ensures Open(log, sid, id).Some? <==> exists i: nat :: OpenSince(log, i, sid, id)
    ensures forall i: nat :: OpenSince(log, i, sid, id) ==> Open(log, sid, id) == Some(BumpCount(log[i + 1..], sid, id))
  {
    if log != [] {
      var n := |log| - 1;
      OpenMeans(log[..n], sid, id);
      if Begins(log[n], sid, id) {
        assert OpenSince(log, n, sid, id);
        assert log[n + 1..] == [];
      } else if !Ends(log[n], sid, id) {
        hide Begins, Ends;
        forall i: nat | i < n
          ensures OpenSince(log, i, sid, id) <==> OpenSince(log[..n], i, sid, id)
          ensures log[i + 1..][..n - i - 1] == log[..n][i + 1..]
        {
          OpenSinceFront(log, i, sid, id);
        }
        assert !OpenSince(log, n, sid, id);
      }
    }
  }

  /** Conservation: every tracked delivery is still pending, or was ended by an acknowledgement,
      a removal, a give-up or Close, or was begun afresh; and nothing else is pending. */
  lemma Conservation(steps: seq<Step>, cfg: Config, z: System, sid: Name, id: Name)
    requires cfg.acker && Run(START, steps, cfg, z)
    ensures PendingOf(z, sid, id).Some? <==> exists i: nat :: OpenSince(z.log, i, sid, id)
    ensures forall i: nat :: OpenSince(z.log, i, sid, id) ==> PendingOf(z, sid, id) == Some(BumpCount(z.log[i + 1..], sid, id))
  {
    StartMatches();
    PendingIsOpen(START, steps, cfg, z);
    OpenMeans(z.log, sid, id);
  }

  // ---- From the message to the end of the run -----------------------------------------

  lemma {:induction false} LogFollows(y: System, steps: seq<Step>, cfg: Config, z: System)
    requires Run(y, steps, cfg, z)
    ensures y.log <= z.log && |z.log| == |y.log| + |steps|
    decreases |steps|
  {
    if steps != [] {
      OneEntry(y, steps[0], cfg);
      hide Next;
      LogFollows(Next(y, steps[0], cfg), steps[1..], cfg, z);
    }
  }

  lemma OneEntry(y: System, step: Step, cfg: Config)
    requires Allowed(y, step)
    ensures y.log <= Next(y, step, cfg).log && |Next(y, step, cfg).log| == |y.log| + 1
  {
    hide Timeout, Submit, Attach, Detach, Close;
  }

  /** In every run a submission is logged as tracked exactly when the session is attached, the
      connection takes the message, and the message asks for at-least-once delivery. */
  lemma TookIff(front: seq<Step>, y: System, back: seq<Step>, z: System, sid: Name, msg: Msg, verdict: Verdict, cfg: Config)
    requires cfg.acker && Run(START, front, cfg, y) && sid in y.sessions
    requires Run(Next(y, DoSubmit(sid, msg, verdict), cfg), back, cfg, z)
    ensures |front| < |z.log|
    ensures z.log[|front|] == Took(sid, msg.id) <==>
      && y.sessions[sid].conn.Some? && verdict.Taken?
      && msg.delivery.Some? && msg.delivery.value.qos == AtLeastOnce
    ensures z.log[|front|].Took? ==> z.log[|front|] == Took(sid, msg.id)
  {
    LogFollows(START, front, cfg, y);
    LogFollows(Next(y, DoSubmit(sid, msg, verdict), cfg), back, cfg, z);
    SubmitLogs(y, sid, msg, verdict, cfg);
    hide Run, Next;
    assert z.log[|front|] == Next(y, DoSubmit(sid, msg, verdict), cfg).log[|front|];
  }

  lemma SubmitLogs(y: System, sid: Name, msg: Msg, verdict: Verdict, cfg: Config)
    requires cfg.acker && sid in y.sessions
    ensures var z := Next(y, DoSubmit(sid, msg, verdict), cfg);
      && z.log == y.log + [z.log[|y.log|]]
      && (z.log[|y.log|] == Took(sid, msg.id) <==>
            && y.sessions[sid].conn.Some? && verdict.Taken?
            && msg.delivery.Some? && msg.delivery.value.qos == AtLeastOnce)
      && (z.log[|y.log|].Took? ==> z.log[|y.log|] == Took(sid, msg.id))
  {
  }

  /** Steps that can take a message of a session off the pending list. */
  predicate MayEnd(step: Step, sid: Name, id: Name) {
    match step
    case DoAck(who, m) => who == sid && m == id
    case DoRemove(who, m) => who == sid && m == id
    case DoTimeout(who, m, _) => who == sid && m == id
    case DoClose(who) => who == sid
    case _ => false
  }

  lemma StepKeepsPending(y: System, step: Step, cfg: Config, sid: Name, id: Name)
    requires cfg.acker && Allowed(y, step) && Filed(y) && !MayEnd(step, sid, id)
    requires sid in y.sessions && id in y.sessions[sid].pending
    ensures var z := Next(y, step, cfg); sid in z.sessions && id in z.sessions[sid].pending
  {
    hide Timeout, JoinAll, R.Purge, R.Unregister, R.Register;
    if step.DoTimeout? {
      TimeoutOnPending(y.sessions[step.sid], y.world, cfg, step.id, step.verdict);
    }
  }

  lemma {:induction false} StaysPending(y: System, steps: seq<Step>, cfg: Config, z: System, sid: Name, id: Name)
    requires cfg.acker && Run(y, steps, cfg, z) && Filed(y)
    requires forall i :: 0 <= i < |steps| ==> !MayEnd(steps[i], sid, id)
    requires sid in y.sessions && id in y.sessions[sid].pending
    ensures sid in z.sessions && id in z.sessions[sid].pending
    decreases |steps|
  {
    if steps != [] {
      StepKeepsPending(y, steps[0], cfg, sid, id);
      StepKeepsFiled(y, steps[0], cfg);
      hide Next, Filed;
      StaysPending(Next(y, steps[0], cfg), steps[1..], cfg, z, sid, id);
    }
  }

  /** A message that asks for at-least-once delivery and was taken is pending from then on, until
      it is acknowledged, removed or handled by a timeout, or its session is closed. */
  lemma NeverForgotten(front: seq<Step>, y: System, back: seq<Step>, z: System, sid: Name, msg: Msg, n: nat, cfg: Config)
    requires cfg.acker && Run(START, front, cfg, y) && sid in y.sessions && y.sessions[sid].conn.Some?
    requires msg.delivery.Some? && msg.delivery.value.qos == AtLeastOnce
    requires Run(Next(y, DoSubmit(sid, msg, Taken(n)), cfg), back, cfg, z)
    requires forall i :: 0 <= i < |back| ==>
      && back[i] != DoAck(sid, msg.id) && back[i] != DoRemove(sid, msg.id) && back[i] != DoClose(sid)
      && !(back[i].DoTimeout? && back[i].sid == sid && back[i].id == msg.id)
    ensures sid in z.sessions && msg.id in z.sessions[sid].pending
  {
    hide Run, Next, MayEnd, Matches;
    var x := Next(y, DoSubmit(sid, msg, Taken(n)), cfg);
    StartMatches();
    PendingAtFirst(y, sid, msg, n, cfg);
    NotEnding(back, sid, msg.id);
    PendingIsOpen(START, front, cfg, y);
    StepKeepsMatch(y, DoSubmit(sid, msg, Taken(n)), cfg);
    MatchIsFiled(x);
    StaysPending(x, back, cfg, z, sid, msg.id);
  }

  lemma MatchIsFiled(y: System)
    requires Matches(y)
    ensures Filed(y)
  {
  }

  lemma PendingAtFirst(y: System, sid: Name, msg: Msg, n: nat, cfg: Config)
    requires cfg.acker && sid in y.sessions && y.sessions[sid].conn.Some?
    requires msg.delivery.Some? && msg.delivery.value.qos == AtLeastOnce
    ensures var x := Next(y, DoSubmit(sid, msg, Taken(n)), cfg); sid in x.sessions && msg.id in x.sessions[sid].pending
  {
  }

  lemma NotEnding(steps: seq<Step>, sid: Name, id: Name)
    requires forall i :: 0 <= i < |steps| ==>
      && steps[i] != DoAck(sid, id) && steps[i] != DoRemove(sid, id) && steps[i] != DoClose(sid)
      && !(steps[i].DoTimeout? && steps[i].sid == sid && steps[i].id == id)
    ensures forall i :: 0 <= i < |steps| ==> !MayEnd(steps[i], sid, id)
  {
  }

  // ---- The offline store and the give-up rule ---------------------------------------

  function StoredBy(note: Label): seq<Msg> {
    match note
    case Turned(msg, stored) => if stored then [msg] else []
    case Stuck(_, msg, stored) => if stored then [msg] else []
    case Dropped(_, msg, stored) => if stored then [msg] else []
    case _ => []
  }

  function StoredIn(log: seq<Label>): seq<Msg> {
    if log == [] then [] else StoredIn(log[..|log| - 1]) + StoredBy(log[|log| - 1])
  }

  /** A log entry made when the log was `before` tells the truth: what it says was stored was
      to be stored, and a timeout gives a message up exactly when the limit is passed. */
  ghost predicate Truthful(before: seq<Label>, note: Label, cfg: Config) {
    match note
    case Turned(msg, stored) => stored == Storable(msg, cfg)
    case Retried(sid, id) =>
      var open := Open(before, sid, id); open.Some? && open.value + 1 <= cfg.Limit()
    case Stuck(sid, msg, stored) =>
      var open := Open(before, sid, msg.id); open.Some? && open.value + 1 <= cfg.Limit() && stored == Storable(msg, cfg)
    case Dropped(sid, msg, stored) =>
      var open := Open(before, sid, msg.id); open.Some? && open.value + 1 > cfg.Limit() && stored == Storable(msg, cfg)
    case _ => true
  }

  ghost predicate Recorded(y: System, cfg: Config) {
    && y.world.offline == StoredIn(y.log)
    && forall i :: 0 <= i < |y.log| ==> Truthful(y.log[..i], y.log[i], cfg)
  }

  /** A step adds to the store what its log entry says, and the entry is true. */
  ghost predicate Records(y: System, step: Step, cfg: Config)
    requires Allowed(y, step)
  {
    var z := Next(y, step, cfg);
    && |z.log| == |y.log| + 1 && z.log[..|y.log|] == y.log
    && z.world.offline == y.world.offline + StoredBy(z.log[|y.log|])
    && Truthful(y.log, z.log[|y.log|], cfg)
  }

  lemma TimeoutStores(s: Sess, w: World, cfg: Config, id: Name, verdict: Verdict)
    requires cfg.acker && FiledUnderId(s.pending) && id in s.pending
    ensures var (result, s', w') := Timeout(s, w, cfg, id, verdict);
      w'.offline == w.offline + if !result.Resent? && Storable(s.pending[id].msg, cfg) then [s.pending[id].msg] else []
  {
    TimeoutOnPending(s, w, cfg, id, verdict);
  }

  lemma TimeoutRecords(y: System, who: Name, m: Name, verdict: Verdict, cfg: Config)
    requires cfg.acker && Matches(y) && who in y.sessions && (who, m) in y.inflight
    ensures Records(y, DoTimeout(who, m, verdict), cfg)
  {
    var s := y.sessions[who];
    TimeoutOnPending(s, y.world, cfg, m, verdict);
    assert Open(y.log, who, m) == PendingOf(y, who, m);
    assert FiledUnderId(s.pending);
    if m in s.pending {
      TimeoutStores(s, y.world, cfg, m, verdict);
    }
    hide Timeout, Open;
  }

  lemma StepRecords(y: System, step: Step, cfg: Config)
    requires cfg.acker && Allowed(y, step) && Matches(y)
    ensures Records(y, step, cfg)
  {
    hide Timeout, Attach, Matches, Open;
    match step {
      case DoTimeout(who, m, verdict) => TimeoutRecords(y, who, m, verdict, cfg);
      case _ => OthersRecord(y, step, cfg);
    }
  }

  lemma OthersRecord(y: System, step: Step, cfg: Config)
    requires Allowed(y, step) && !step.DoTimeout?
    ensures Records(y, step, cfg)
  {
    hide Timeout, Open;
  }

  /** In every reachable state the store holds exactly what the log says was stored, in order,
      and every entry of the log is true. */
  lemma {:induction false} StoreIsRecorded(y: System, steps: seq<Step>, cfg: Config, z: System)
    requires cfg.acker && Matches(y) && Recorded(y, cfg) && Run(y, steps, cfg, z)
    ensures Recorded(z, cfg)
    decreases |steps|
  {
    if steps != [] {
      var next := Next(y, steps[0], cfg);
      hide Matches, Next, Truthful;
      StepKeepsMatch(y, steps[0], cfg);
      StepRecords(y, steps[0], cfg);
      forall i | 0 <= i < |next.log| ensures Truthful(next.log[..i], next.log[i], cfg) {
        assert i < |y.log| ==> next.log[..i] == y.log[..i] && next.log[i] == y.log[i];
      }
      StoreIsRecorded(next, steps[1..], cfg, z);
    }
  }
}

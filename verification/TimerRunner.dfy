/** The protocol between the callers of schedule and cancel and the goroutine of run.

    Every step below is one critical section, one channel operation or one handler call of
    wheel.go; the critical sections are the operations the Wheel methods are proved to
    perform. Callers are only told apart by whether they still owe a signal. */
module TimerRunner {
  import opened Names
  import opened TimerSpec

  datatype Alarm = Never | AlarmAt(time: Time)

  datatype Runner =
    | Looking                  // about to call nextTask
    | Asleep(alarm: Alarm)     // blocked on the wake channel and on the alarm, if any
    | Ringing                  // the alarm went off; about to call popDue
    | Firing(rest: seq<nat>)   // in the loop over what popDue returned
    | Stopped

  datatype Fired = Fired(ticket: nat, at: Time)

  datatype State = State(
    sched: Sched,
    wake: bool,          // the one-slot channel is full
    unsignalled: nat,    // callers between their unlock and their signal
    runner: Runner,
    clock: Time,
    fired: seq<Fired>)   // handler calls, in order

  datatype Step =
    | DoSchedule(key: Key, due: Time)
    | DoCancel(key: Key)
    | Signal
    | Tick(now: Time)
    | Stop
    | Look(alarm: Alarm)
    | TakeWake
    | Ring
    | Pop(ready: seq<nat>)
    | Fire
    | Rest
  {
    /** Steps of the scheduler itself, as opposed to new calls, the clock and shutdown. */
    predicate Internal() {
      Signal? || Look? || TakeWake? || Ring? || Pop? || Fire? || Rest?
    }
  }

  ghost function Init(clock: Time): State {
    State(NOTHING, false, 0, Looking, clock, [])
  }

  /** What nextTask answers: the due time of an earliest live task. */
  ghost predicate Earliest(s: Sched, alarm: Alarm) {
    match alarm
    case Never => s.live == map[]
    case AlarmAt(d) =>
      && (exists t: nat :: s.IsLive(t) && s.ledger[t].due == d)
      && (forall t: nat :: s.IsLive(t) ==> d <= s.ledger[t].due)
  }

  ghost predicate Allowed(s: State, step: Step) {
    match step
    case DoSchedule(key, _) => key != NO_NAME
    case DoCancel(key) => key != NO_NAME
    case Signal => s.unsignalled > 0
    case Tick(now) => s.clock <= now
    case Stop => s.runner.Asleep?
    case Look(alarm) => s.runner.Looking? && Earliest(s.sched, alarm)
    case TakeWake => s.runner.Asleep? && s.wake
    case Ring => s.runner.Asleep? && s.runner.alarm.AlarmAt? && s.runner.alarm.time <= s.clock
    case Pop(ready) => s.runner.Ringing? && IsReady(s.sched, ready, s.clock)
    case Fire => s.runner.Firing? && s.runner.rest != []
    case Rest => s.runner.Firing? && s.runner.rest == []
  }

  ghost function Apply(s: State, step: Step): State
    requires s.sched.Inv() && Allowed(s, step)
    requires s.runner.Firing? ==> forall i :: 0 <= i < |s.runner.rest| ==> s.runner.rest[i] < |s.sched.ledger|
  {
    match step
    case DoSchedule(key, due) => s.(sched := Insert(s.sched, key, due), unsignalled := s.unsignalled + 1)
    case DoCancel(key) =>
      if key in s.sched.live
      then s.(sched := Remove(s.sched, key), unsignalled := s.unsignalled + 1)
      else s
    case Signal => s.(wake := true, unsignalled := s.unsignalled - 1)
    case Tick(now) => s.(clock := now)
    case Stop => s.(runner := Stopped)
    case Look(alarm) => s.(runner := Asleep(alarm))
    case TakeWake => s.(wake := false, runner := Looking)
    case Ring => s.(runner := Ringing)
    case Pop(ready) => s.(sched := PopAll(s.sched, ready, s.clock), runner := Firing(ready))
    case Fire =>
      var t := s.runner.rest[0];
      var status := s.sched.ledger[t].status;
      var next := s.(runner := Firing(s.runner.rest[1..]));
      if status.Cancelled? || status.Superseded? then next
      else next.(fired := s.fired + [Fired(t, s.clock)])
    case Rest => s.(runner := Looking)
  }

  ghost function Pending(s: State): seq<nat> {
    if s.runner.Firing? then s.runner.rest else []
  }

  ghost function FiredTickets(fired: seq<Fired>): seq<nat> {
    seq(|fired|, i requires 0 <= i < |fired| => fired[i].ticket)
  }

  /** The tickets handed to the runner, fired ones first. */
  ghost function Taken(s: State): seq<nat> {
    FiredTickets(s.fired) + Pending(s)
  }

  /** No lost wake-up: a sleeping runner is about to be woken, or has nothing to do before its alarm. */
  ghost predicate WakeSafe(s: State) {
    s.runner.Asleep? ==>
      || s.wake
      || s.unsignalled > 0
      || (forall t: nat :: s.sched.IsLive(t) ==>
            s.runner.alarm.AlarmAt? && s.runner.alarm.time <= s.sched.ledger[t].due)
  }

  /** Exactly the popped tickets were taken, each once, none before it was due. */
  ghost predicate TakenOnce(s: State) {
    PoppedOnce(s.sched.ledger, Taken(s))
  }

  ghost predicate OnTime(s: State) {
    && (forall t: nat :: t < |s.sched.ledger| && s.sched.ledger[t].status.Popped? ==> s.sched.ledger[t].status.at <= s.clock)
    && (forall i :: 0 <= i < |s.fired| ==>
          s.fired[i].ticket < |s.sched.ledger| && s.sched.ledger[s.fired[i].ticket].due <= s.fired[i].at <= s.clock)
  }

  ghost predicate Inv(s: State) {
    s.sched.Inv() && WakeSafe(s) && TakenOnce(s) && OnTime(s)
  }

  lemma InitInv(clock: Time)
    ensures Inv(Init(clock))
  {
  }

  lemma PendingInLedger(s: State)
    requires TakenOnce(s)
    ensures s.runner.Firing? ==> forall i :: 0 <= i < |s.runner.rest| ==>
      s.runner.rest[i] < |s.sched.ledger| && s.sched.ledger[s.runner.rest[i]].status.Popped?
  {
    var n, taken := |s.fired|, Taken(s);
    if s.runner.Firing? {
      forall i | 0 <= i < |s.runner.rest|
        ensures s.runner.rest[i] < |s.sched.ledger| && s.sched.ledger[s.runner.rest[i]].status.Popped?
      {
        assert taken[n + i] == s.runner.rest[i];
      }
    }
  }

  ghost predicate CanStep(s: State, step: Step) {
    Inv(s) && Allowed(s, step)
  }

  ghost function Next(s: State, step: Step): (r: State)
    requires CanStep(s, step)
  {
    PendingInLedger(s);
    Apply(s, step)
  }

  /** A step that takes nothing over from the scheduler keeps what was taken. */
  lemma SameTaken(s: State, r: State)
    requires TakenOnce(s) && Taken(r) == Taken(s)
    requires |s.sched.ledger| <= |r.sched.ledger|
    requires forall t: nat :: t < |s.sched.ledger| ==>
      (r.sched.ledger[t].status.Popped? <==> s.sched.ledger[t].status.Popped?)
    requires forall t: nat :: |s.sched.ledger| <= t < |r.sched.ledger| ==> !r.sched.ledger[t].status.Popped?
    ensures TakenOnce(r)
  {
  }

  ghost predicate PoppedOnce(ledger: seq<Record>, taken: seq<nat>) {
    && (forall i :: 0 <= i < |taken| ==> taken[i] < |ledger| && ledger[taken[i]].status.Popped?)
    && (forall t: nat :: t < |ledger| && ledger[t].status.Popped? ==> t in taken)
    && (forall i, j :: 0 <= i < j < |taken| ==> taken[i] != taken[j])
  }

  lemma PoppedMore(before: seq<Record>, after: seq<Record>, taken: seq<nat>, ready: seq<nat>)
    requires PoppedOnce(before, taken) && |after| == |before|
    requires forall t: nat :: t < |before| ==> (after[t].status.Popped? <==> before[t].status.Popped? || t in ready)
    requires forall i :: 0 <= i < |ready| ==> ready[i] < |before| && !before[ready[i]].status.Popped?
    requires forall i, j :: 0 <= i < j < |ready| ==> ready[i] != ready[j]
    ensures PoppedOnce(after, taken + ready)
  {
    var all := taken + ready;
    forall i | 0 <= i < |all| ensures all[i] < |after| && after[all[i]].status.Popped? {
      assert i >= |taken| ==> all[i] == ready[i - |taken|];
    }
  }

  lemma PopAllPops(s: Sched, ready: seq<nat>, now: Time, taken: seq<nat>)
    requires s.Inv() && InOrder(s, ready, now) && PoppedOnce(s.ledger, taken)
    ensures PoppedOnce(PopAll(s, ready, now).ledger, taken + ready)
  {
    PopAllPointwise(s, ready, now);
    PopAllKeepsInv(s, ready, now);
    assert forall i :: 0 <= i < |ready| ==> s.IsLive(ready[i]);
    hide PopAll, PoppedOnce;
    PoppedMore(s.ledger, PopAll(s, ready, now).ledger, taken, ready);
  }

  lemma TakenGrows(s: State, ready: seq<nat>)
    requires s.sched.Inv() && Allowed(s, Pop(ready))
    ensures Taken(Apply(s, Pop(ready))) == Taken(s) + ready
  {
    hide IsReady, PopAll;
  }

  lemma PopTakes(s: State, ready: seq<nat>)
    requires CanStep(s, Pop(ready))
    ensures TakenOnce(Next(s, Pop(ready)))
  {
    hide PopAll, Taken, Sched.Inv, WakeSafe, OnTime, PoppedOnce, InOrder, FiredTickets;
    TakenGrows(s, ready);
    PopAllPops(s.sched, ready, s.clock, Taken(s));
  }

  lemma HeadMoves(fired: seq<Fired>, rest: seq<nat>, clock: Time)
    requires rest != []
    ensures FiredTickets(fired + [Fired(rest[0], clock)]) + rest[1..] == FiredTickets(fired) + rest
  {
    assert FiredTickets(fired + [Fired(rest[0], clock)]) == FiredTickets(fired) + [rest[0]];
    assert rest == [rest[0]] + rest[1..];
  }

  /** The second look at the flag never skips a handler: the head of the batch moves to the fired list. */
  lemma FireTakes(s: State)
    requires CanStep(s, Fire)
    ensures Next(s, Fire).fired == s.fired + [Fired(s.runner.rest[0], s.clock)]
    ensures Taken(Next(s, Fire)) == Taken(s)
  {
    PendingInLedger(s);
    HeadMoves(s.fired, s.runner.rest, s.clock);
  }

  lemma ScheduleKeepsInv(s: State, key: Key, due: Time)
    requires CanStep(s, DoSchedule(key, due))
    ensures Inv(Next(s, DoSchedule(key, due)))
  {
    var r := Next(s, DoSchedule(key, due));
    InsertKeepsInv(s.sched, key, due);
    assert Taken(r) == Taken(s);
    SameTaken(s, r);
  }

  lemma CancelKeepsInv(s: State, key: Key)
    requires CanStep(s, DoCancel(key))
    ensures Inv(Next(s, DoCancel(key)))
  {
    var r := Next(s, DoCancel(key));
    RemoveKeepsInv(s.sched, key);
    assert Taken(r) == Taken(s);
    SameTaken(s, r);
  }

  lemma PopKeepsTime(s: State, ready: seq<nat>)
    requires CanStep(s, Pop(ready))
    ensures OnTime(Next(s, Pop(ready))) && WakeSafe(Next(s, Pop(ready)))
  {
    PopAllPointwise(s.sched, ready, s.clock);
    hide PopAll, TakenOnce, Sched.Inv, InOrder;
  }

  lemma PopKeepsInv(s: State, ready: seq<nat>)
    requires CanStep(s, Pop(ready))
    ensures Inv(Next(s, Pop(ready)))
  {
    hide TakenOnce, Sched.Inv, OnTime, WakeSafe, InOrder, PopAll;
    PopAllKeepsInv(s.sched, ready, s.clock);
    PopTakes(s, ready);
    PopKeepsTime(s, ready);
  }

  lemma FireKeepsInv(s: State)
    requires CanStep(s, Fire)
    ensures Inv(Next(s, Fire))
  {
    PendingInLedger(s);
    FireTakes(s);
    SameTaken(s, Next(s, Fire));
  }

  /** Every step of the protocol keeps the invariant. */
  lemma StepKeepsInv(s: State, step: Step)
    requires CanStep(s, step)
    ensures Inv(Next(s, step))
  {
    match step
    case DoSchedule(key, due) => ScheduleKeepsInv(s, key, due);
    case DoCancel(key) => CancelKeepsInv(s, key);
    case Pop(ready) => PopKeepsInv(s, ready);
    case Fire => FireKeepsInv(s);
    case _ =>
      assert Taken(Next(s, step)) == Taken(s);
      assert Next(s, step).sched == s.sched;
  }

  // ---- Runs -------------------------------------------------------------------------

  /** Taking the steps one after the other leads from s to r. */
  ghost predicate Run(s: State, steps: seq<Step>, r: State)
    decreases |steps|
  {
    if steps == [] then s == r
    else CanStep(s, steps[0]) && Run(Next(s, steps[0]), steps[1..], r)
  }

  lemma {:induction false} RunKeepsInv(s: State, steps: seq<Step>, r: State)
    requires Inv(s) && Run(s, steps, r)
    ensures Inv(r)
    decreases |steps|
  {
    if steps != [] {
      StepKeepsInv(s, steps[0]);
      RunKeepsInv(Next(s, steps[0]), steps[1..], r);
    }
  }

  /** Whole-run accounting. Each accepted schedule is live, taken over by the runner,
      cancelled or superseded; what was taken has been fired or is waiting in the batch. */
  lemma Accounting(clock: Time, steps: seq<Step>, r: State)
    requires Run(Init(clock), steps, r)
    ensures |r.sched.ledger| == |r.sched.live| + |r.fired| + |Pending(r)|
      + Count(r.sched.ledger, KCancelled) + Count(r.sched.ledger, KSuperseded)
  {
    InitInv(clock);
    RunKeepsInv(Init(clock), steps, r);
    Conservation(r.sched);
    PoppedCount(r);
  }

  lemma PoppedCount(s: State)
    requires TakenOnce(s)
    ensures Count(s.sched.ledger, KPopped) == |Taken(s)| == |s.fired| + |Pending(s)|
  {
    CountTickets(s.sched.ledger, KPopped);
    DistinctCard(Taken(s), set t: nat | t < |s.sched.ledger| && s.sched.ledger[t].status.Kind() == KPopped);
  }

  lemma {:induction false} DistinctCard(q: seq<nat>, elements: set<nat>)
    requires forall i, j :: 0 <= i < j < |q| ==> q[i] != q[j]
    requires forall t :: t in elements <==> t in q
    ensures |q| == |elements|
  {
    if q == [] {
      assert elements == {};
    } else {
      var t, front := q[|q| - 1], q[..|q| - 1];
      assert q == front + [t];
      DistinctCard(front, elements - {t});
    }
  }

  /** What is decided about a ticket stays decided. */
  lemma {:induction false} DecidedIsFinal(s: State, steps: seq<Step>, r: State, t: nat)
    requires Inv(s) && Run(s, steps, r)
    requires t < |s.sched.ledger| && !s.sched.ledger[t].status.Live?
    ensures t < |r.sched.ledger| && r.sched.ledger[t] == s.sched.ledger[t]
    decreases |steps|
  {
    if steps != [] {
      var next := Next(s, steps[0]);
      StepKeepsInv(s, steps[0]);
      assert t < |next.sched.ledger| && next.sched.ledger[t] == s.sched.ledger[t] by {
        if steps[0].Pop? {
          PopAllPointwise(s.sched, steps[0].ready, s.clock);
        }
      }
      DecidedIsFinal(next, steps[1..], r, t);
    }
  }

  /** A scheduling whose cancel succeeded, or that was overwritten, never fires. */
  lemma CancelledNeverFires(s: State, steps: seq<Step>, r: State, t: nat)
    requires Inv(s) && Run(s, steps, r)
    requires t < |s.sched.ledger| && (s.sched.ledger[t].status.Cancelled? || s.sched.ledger[t].status.Superseded?)
    ensures forall i :: 0 <= i < |r.fired| ==> r.fired[i].ticket != t
  {
    RunKeepsInv(s, steps, r);
    DecidedIsFinal(s, steps, r, t);
    forall i | 0 <= i < |r.fired| ensures r.fired[i].ticket != t {
      assert Taken(r)[i] == r.fired[i].ticket;
    }
  }

  /** The meaning of a step on a plain map from key to due time. */
  ghost function DuesAfter(clock: Time, dues: map<Key, Time>, step: Step): map<Key, Time> {
    match step
    case DoSchedule(key, due) => dues[key := due]
    case DoCancel(key) => dues - {key}
    case Pop(_) => NotDue(dues, clock)
    case _ => dues
  }

  ghost function Replay(clock: Time, dues: map<Key, Time>, steps: seq<Step>): map<Key, Time>
    decreases |steps|
  {
    if steps == [] then dues
    else Replay(if steps[0].Tick? then steps[0].now else clock, DuesAfter(clock, dues, steps[0]), steps[1..])
  }

  lemma StepOnDues(s: State, step: Step)
    requires CanStep(s, step)
    ensures Inv(Next(s, step))
    ensures Next(s, step).sched.Dues() == DuesAfter(s.clock, s.sched.Dues(), step)
    ensures Next(s, step).clock == if step.Tick? then step.now else s.clock
  {
    hide WakeSafe, TakenOnce, OnTime, Sched.Inv, Insert, Remove, PopAll, IsReady, NotDue;
    StepKeepsInv(s, step);
    match step {
      case DoSchedule(key, due) => InsertIsUpdate(s.sched, key, due);
      case DoCancel(key) => CancelOnDues(s, key);
      case Pop(ready) => PopAllIsFilter(s.sched, ready, s.clock);
      case _ =>
    }
  }

  lemma CancelOnDues(s: State, key: Key)
    requires CanStep(s, DoCancel(key)) && Inv(Next(s, DoCancel(key)))
    ensures Next(s, DoCancel(key)).sched.Dues() == s.sched.Dues() - {key}
  {
    RemoveIsRemoval(s.sched, key);
    SameKeys(s.sched, key);
    hide Inv, Remove;
    if key !in s.sched.live {
      assert s.sched.Dues() - {key} == s.sched.Dues();
    }
  }

  /** The live tasks of any run are those of the plain map. */
  lemma {:induction false} LiveIsReplay(s: State, steps: seq<Step>, r: State)
    requires Inv(s) && Run(s, steps, r)
    ensures Inv(r) && r.sched.Dues() == Replay(s.clock, s.sched.Dues(), steps)
    decreases |steps|
  {
    if steps != [] {
      StepOnDues(s, steps[0]);
      LiveIsReplay(Next(s, steps[0]), steps[1..], r);
    }
  }

  /** Every accepted schedule and every cancel that finds something owes the runner one signal;
      a signal fills the one slot, and only the runner empties it. */
  lemma CallsOweSignals(s: State, step: Step)
    requires CanStep(s, step)
    ensures var r := Next(s, step);
      var changes := step.DoSchedule? || (step.DoCancel? && step.key in s.sched.Dues());
      && r.unsignalled + (if step.Signal? then 1 else 0) == s.unsignalled + (if changes then 1 else 0)
      && (r.wake <==> step.Signal? || (s.wake && !step.TakeWake?))
  {
    hide PopAll, Insert, Remove;
  }

  // ---- Progress ---------------------------------------------------------------------

  ghost predicate SomethingDue(s: State) {
    exists t: nat :: s.sched.IsLive(t) && s.sched.ledger[t].due <= s.clock
  }

  ghost predicate Quiet(s: State) {
    forall step: Step :: step.Internal() ==> !Allowed(s, step)
  }

  lemma {:induction false} EarliestExists(s: Sched) returns (alarm: Alarm)
    requires s.Inv()
    ensures Earliest(s, alarm)
  {
    alarm := Never;
    var seen := 0;
    while seen < |s.ledger|
      invariant seen <= |s.ledger|
      invariant alarm.Never? ==> forall t: nat :: t < seen ==> !s.IsLive(t)
      invariant alarm.AlarmAt? ==> exists t: nat :: s.IsLive(t) && s.ledger[t].due == alarm.time
      invariant alarm.AlarmAt? ==> forall t: nat :: t < seen && s.IsLive(t) ==> alarm.time <= s.ledger[t].due
    {
      if s.IsLive(seen) && (alarm.Never? || s.ledger[seen].due < alarm.time) {
        alarm := AlarmAt(s.ledger[seen].due);
      }
      seen := seen + 1;
    }
    assert forall k :: k in s.live ==> s.IsLive(s.live[k]);
  }

  lemma PoppingKeepsInv(s: Sched, ready: seq<nat>, now: Time, r: Sched)
    requires s.Inv() && Popping(s, ready, now, r)
    ensures r.Inv()
  {
    PopAllKeepsInv(s, ready, now);
  }

  /** Popping a live ticket leaves fewer live ones, none of them new or due at another time. */
  lemma PopOneShrinks(r: Sched, t: nat, now: Time)
    requires r.Inv() && r.IsLive(t)
    ensures |PopOne(r, t, now).live| < |r.live|
    ensures forall u: nat :: PopOne(r, t, now).IsLive(u) ==> r.IsLive(u) && PopOne(r, t, now).ledger[u].due == r.ledger[u].due
  {
    var rest := PopOne(r, t, now);
    assert rest.live.Keys == r.live.Keys - {r.ledger[t].key};
    assert |rest.live| == |rest.live.Keys| && |r.live| == |r.live.Keys|;
  }

  /** Some answer of popDue(now) always exists: take an earliest live ticket while one is due. */
  lemma {:induction false} ReadyExists(s: Sched, now: Time, ready: seq<nat>, r: Sched) returns (all: seq<nat>)
    requires s.Inv() && Popping(s, ready, now, r)
    requires ready != [] ==> forall t: nat :: r.IsLive(t) ==> s.ledger[ready[|ready| - 1]].due <= r.ledger[t].due
    ensures IsReady(s, all, now)
    decreases |r.live|
  {
    hide Popping, Sched.Inv, IsReady;
    PoppingKeepsInv(s, ready, now, r);
    var alarm := EarliestExists(r);
    if alarm.Never? || now < alarm.time {
      all := ready;
      CompleteReady(s, ready, now, r);
    } else {
      var t: nat :| r.IsLive(t) && r.ledger[t].due == alarm.time;
      ExtendReady(s, ready, now, r, t);
      PopOneShrinks(r, t, now);
      var rest := PopOne(r, t, now);
      hide PopOne;
      all := ReadyExists(s, now, ready + [t], rest);
    }
  }

  /** Nobody is ever stranded: while a live task is due, the scheduler has a step to take. */
  lemma DueIsNotStranded(s: State)
    requires Inv(s) && SomethingDue(s) && !s.runner.Stopped?
    ensures !Quiet(s)
  {
    match s.runner
    case Looking =>
      var alarm := EarliestExists(s.sched);
      assert Allowed(s, Look(alarm)) && Look(alarm).Internal();
    case Asleep(alarm) =>
      assert Allowed(s, TakeWake) || Allowed(s, Signal) || Allowed(s, Ring);
      assert TakeWake.Internal() && Signal.Internal() && Ring.Internal();
    case Ringing =>
      var ready := ReadyExists(s.sched, s.clock, [], s.sched);
      assert Allowed(s, Pop(ready)) && Pop(ready).Internal();
    case Firing(rest) =>
      assert Allowed(s, Fire) || Allowed(s, Rest);
      assert Fire.Internal() && Rest.Internal();
  }

  ghost function Phase(s: State): nat {
    match s.runner
    case Firing(_) => if SomethingDue(s) then 6 else 2
    case Looking => if SomethingDue(s) then 5 else 1
    case Asleep(alarm) => if alarm.AlarmAt? && alarm.time <= s.clock then 4 else 0
    case Ringing => 3
    case Stopped => 0
  }

  /** Signals still to be delivered, then the phase of the runner, then the rest of the batch. */
  ghost predicate Descends(s: State, r: State) {
    var owedBefore, owedAfter := 2 * s.unsignalled + (if s.wake then 1 else 0), 2 * r.unsignalled + (if r.wake then 1 else 0);
    || owedAfter < owedBefore
    || (owedAfter == owedBefore && Phase(r) < Phase(s))
    || (owedAfter == owedBefore && Phase(r) == Phase(s) && |Pending(r)| < |Pending(s)|)
  }

  /** Left to itself the scheduler cannot go on for ever: a spurious wake-up or alarm costs a signal or a phase. */
  lemma InternalStepsDescend(s: State, step: Step)
    requires CanStep(s, step) && step.Internal()
    ensures Descends(s, Next(s, step))
  {
    var r := Next(s, step);
    if step.Pop? {
      PopAllPointwise(s.sched, step.ready, s.clock);
      assert !SomethingDue(r);
    } else {
      assert r.sched == s.sched && r.clock == s.clock;
    }
  }

  ghost predicate AllInternal(steps: seq<Step>) {
    forall i :: 0 <= i < |steps| ==> steps[i].Internal()
  }

  /** From every reachable state the scheduler can finish what it has to do at this time. */
  lemma {:induction false} CanFinish(s: State) returns (steps: seq<Step>, r: State)
    requires Inv(s)
    ensures Run(s, steps, r) && AllInternal(steps) && Quiet(r)
    decreases 2 * s.unsignalled + (if s.wake then 1 else 0), Phase(s), |Pending(s)|
  {
    if Quiet(s) {
      return [], s;
    }
    var step: Step :| step.Internal() && Allowed(s, step);
    StepKeepsInv(s, step);
    InternalStepsDescend(s, step);
    var rest;
    rest, r := CanFinish(Next(s, step));
    steps := [step] + rest;
    assert steps[1..] == rest;
  }

  /** The ticket is waiting to fire, or has been handed to the runner. */
  ghost predicate OnItsWay(s: State, t: nat) {
    t < |s.sched.ledger| && (s.sched.ledger[t].status.Live? || s.sched.ledger[t].status.Popped?)
  }

  lemma InternalStepPops(s: State, step: Step, t: nat)
    requires CanStep(s, step) && step.Internal() && OnItsWay(s, t)
    ensures OnItsWay(Next(s, step), t) && Next(s, step).sched.ledger[t].due == s.sched.ledger[t].due
    ensures Next(s, step).clock == s.clock && (Next(s, step).runner.Stopped? <==> s.runner.Stopped?)
  {
    if step.Pop? {
      PopAllPointwise(s.sched, step.ready, s.clock);
    }
  }

  /** Internal steps decide a live ticket in one way only: by handing it to the runner. */
  lemma {:induction false} InternalRunPops(s: State, steps: seq<Step>, r: State, t: nat)
    requires Inv(s) && Run(s, steps, r) && AllInternal(steps) && OnItsWay(s, t)
    ensures Inv(r) && r.clock == s.clock && (r.runner.Stopped? <==> s.runner.Stopped?)
    ensures OnItsWay(r, t) && r.sched.ledger[t].due == s.sched.ledger[t].due
    decreases |steps|
  {
    if steps != [] {
      hide OnItsWay;
      StepKeepsInv(s, steps[0]);
      InternalStepPops(s, steps[0], t);
      InternalRunPops(Next(s, steps[0]), steps[1..], r, t);
    }
  }

  lemma QuietIsDone(s: State, t: nat)
    requires Inv(s) && !s.runner.Stopped? && Quiet(s) && OnItsWay(s, t)
    requires s.sched.ledger[t].due <= s.clock
    ensures t in Taken(s) && Pending(s) == []
  {
    if SomethingDue(s) {
      DueIsNotStranded(s);
    }
    assert !s.sched.IsLive(t);
    assert Fire.Internal() && Rest.Internal();
    assert !Allowed(s, Fire) && !Allowed(s, Rest);
  }

  /** However the scheduler is interleaved, once it has nothing left to do every task that was
      due has had its handler called. */
  lemma QuietMeansFired(s: State, steps: seq<Step>, r: State, t: nat)
    requires Inv(s) && !s.runner.Stopped? && Run(s, steps, r) && AllInternal(steps) && Quiet(r)
    requires s.sched.IsLive(t) && s.sched.ledger[t].due <= s.clock
    ensures exists i :: 0 <= i < |r.fired| && r.fired[i].ticket == t
  {
    InternalRunPops(s, steps, r, t);
    QuietIsDone(r, t);
    var i :| 0 <= i < |Taken(r)| && Taken(r)[i] == t;
    assert r.fired[i].ticket == t;
  }
}

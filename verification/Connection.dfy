/** The connection object. Each of its methods, run without interruption, is a run of the
    interleaved connection, so what holds in every interleaving holds of it. */
module Connection {
  import opened ConnRuns
  import opened Messages
  import opened Names

  /** A name that no caller inside Submit or Send uses. */
  ghost function Unused(names: set<Name>): (unused: Name)
    ensures unused !in names
  {
    BoundExists(names);
    var top: nat :| Above(names, top);
    Name(top)
  }

  ghost predicate Above(names: set<Name>, top: nat) {
    forall n :: n in names ==> n.id < top
  }

  lemma {:induction false} BoundExists(names: set<Name>)
    ensures exists top: nat :: Above(names, top)
    decreases |names|
  {
    if names == {} {
      assert Above(names, 0);
    } else {
      var n :| n in names;
      BoundExists(names - {n});
      var top: nat :| Above(names - {n}, top);
      var higher: nat := if n.id < top then top else n.id + 1;
      assert Above(names, higher);
    }
  }

  /** The answer of a whole call of Submit. */
  ghost function AnswerOf(y: Conn): Verdict {
    if !y.phase.Active? then Inactive
    else if |y.queue| < WRITE_CHANNEL_SIZE then Taken(y.issued + 1)
    else Refused
  }

  /** What a whole call of Submit does to the connection: a refused message still uses up a number. */
  ghost function Submitted(y: Conn, msg: Msg): Conn {
    match AnswerOf(y)
    case Inactive => y
    case Refused => y.(issued := y.issued + 1)
    case Taken(n) =>
      y.(issued := n, queue := y.queue + [Frame(msg, Some(n))], accepted := y.accepted + [Frame(msg, Some(n))])
  }

  ghost function SubmitSteps(y: Conn, msg: Msg): seq<Step> {
    var caller := Unused(y.callers.Keys);
    if y.phase.Active? then [Check(caller, msg, true), TakeNumber(caller), Enqueue(caller)] else [Check(caller, msg, true)]
  }

  /** A call of Submit that nobody interrupts does check, number and enqueue in a row. */
  lemma SubmittedIsRun(y: Conn, msg: Msg)
    ensures Run(y, SubmitSteps(y, msg), Submitted(y, msg))
  {
    var caller := Unused(y.callers.Keys);
    var y1 := Next(y, Check(caller, msg, true));
    hide Unused;
    if y.phase.Active? {
      var y2 := Next(y1, TakeNumber(caller));
      var y3 := Next(y2, Enqueue(caller));
      assert y3.callers == y.callers;
      assert y3 == Submitted(y, msg);
      var steps := [Check(caller, msg, true), TakeNumber(caller), Enqueue(caller)];
      assert steps[1..] == [TakeNumber(caller), Enqueue(caller)] && steps[1..][1..] == [Enqueue(caller)];
      One(y2, Enqueue(caller));
      RunFrom(y1, steps[1..], y3);
      RunFrom(y, steps, y3);
    } else {
      One(y, Check(caller, msg, true));
    }
  }

  /** Several messages offered one after the other. */
  ghost function Offered(y: Conn, msgs: seq<Msg>): Conn {
    if msgs == [] then y else Submitted(Offered(y, msgs[..|msgs| - 1]), msgs[|msgs| - 1])
  }

  /** A connection that is not active takes nothing. */
  lemma {:induction false} InactiveTakesNothing(y: Conn, msgs: seq<Msg>)
    requires !y.phase.Active?
    ensures Offered(y, msgs) == y
  {
    if msgs != [] {
      InactiveTakesNothing(y, msgs[..|msgs| - 1]);
    }
  }

  ghost function Posted(y: Conn, msg: Msg): Conn {
    if y.phase.Active? && |y.queue| < WRITE_CHANNEL_SIZE
    then y.(queue := y.queue + [Frame(msg, None)], accepted := y.accepted + [Frame(msg, None)])
    else y
  }

  ghost function SendSteps(y: Conn, msg: Msg): seq<Step> {
    var caller := Unused(y.callers.Keys);
    if y.phase.Active? then [Check(caller, msg, false), Enqueue(caller)] else [Check(caller, msg, false)]
  }

  lemma PostedIsRun(y: Conn, msg: Msg)
    ensures Run(y, SendSteps(y, msg), Posted(y, msg))
  {
    var caller := Unused(y.callers.Keys);
    var y1 := Next(y, Check(caller, msg, false));
    hide Unused;
    if y.phase.Active? {
      var y2 := Next(y1, Enqueue(caller));
      assert y2.callers == y.callers;
      assert y2 == Posted(y, msg);
      var steps := [Check(caller, msg, false), Enqueue(caller)];
      assert steps[1..] == [Enqueue(caller)];
      One(y1, Enqueue(caller));
      RunFrom(y, steps, y2);
    } else {
      One(y, Check(caller, msg, false));
    }
  }

  /** What encoding and writing the next frame come to. */
  datatype WriteResult = WriteResult(encoded: bool, written: bool)

  /** The first n frames of a queue have been tried, each with the outcome of its turn. */
  ghost predicate Tried(before: seq<Attempt>, done: seq<Attempt>, queue: seq<Frame>, outcomes: nat -> WriteResult, start: nat, n: nat)
    requires n <= |queue|
  {
    && |done| == |before| + n && before <= done
    && forall i :: 0 <= i < n ==>
         done[|before| + i] == Attempt(queue[i], outcomes(start + i).encoded, outcomes(start + i).written)
  }

  lemma TriedMeans(before: seq<Attempt>, done: seq<Attempt>, queue: seq<Frame>, outcomes: nat -> WriteResult, start: nat, n: nat)
    requires n <= |queue|
    ensures Tried(before, done, queue, outcomes, start, n) <==>
      && |done| == |before| + n && before <= done
      && forall i :: 0 <= i < n ==>
           done[|before| + i] == Attempt(queue[i], outcomes(start + i).encoded, outcomes(start + i).written)
  {
  }

  lemma TriedOneMore(before: seq<Attempt>, done: seq<Attempt>, queue: seq<Frame>, outcomes: nat -> WriteResult, start: nat, n: nat)
    requires n < |queue| && Tried(before, done, queue, outcomes, start, n)
    ensures Tried(before, done + [Attempt(queue[n], outcomes(start + n).encoded, outcomes(start + n).written)],
                  queue, outcomes, start, n + 1)
  {
  }

  /** The queue tried up to a turn, and then the rest of it. */
  lemma TriedRest(before: seq<Attempt>, mid: seq<Attempt>, done: seq<Attempt>, queue: seq<Frame>, outcomes: nat -> WriteResult, turn: nat)
    requires turn <= |queue| && Tried(before, mid, queue, outcomes, 0, turn)
    requires Tried(mid, done, queue[turn..], outcomes, turn, |queue| - turn)
    ensures Tried(before, done, queue, outcomes, 0, |queue|)
  {
    forall i | turn <= i < |queue|
      ensures done[|before| + i] == Attempt(queue[i], outcomes(i).encoded, outcomes(i).written)
    {
      assert queue[turn..][i - turn] == queue[i];
    }
  }

  lemma RunNothing(y: Conn)
    ensures Run(y, [], y)
  {
  }

  class Connection {
    const connID: Name
    var state: Phase
    var writeCh: seq<Frame>
    var nextSendSeq: nat
    var cancelled: bool          // ctx is done
    ghost var model: Conn

    ghost predicate Valid()
      reads this
    {
      && Inv(model) && model.phase == state && model.queue == writeCh && model.issued == nextSendSeq
      && model.cancelled == cancelled
    }

    constructor (connID: Name)
      ensures Valid() && model == START && this.connID == connID
    {
      this.connID := connID;
      state, writeCh, nextSendSeq, cancelled := Handshaking, [], 0, false;
      model := START;
      new;
      StartInv();
    }

    predicate IsActive()
      reads this
    {
      state.Active?
    }

    /** Compare-and-swap: any call but the first does nothing. */
    method Activate()
      requires Valid()
      modifies this
      ensures Valid() && model == Next(old(model), ConnRuns.Activate)
      ensures state == if old(state) == Handshaking then Active else old(state)
    {
      StepKeepsInv(model, ConnRuns.Activate);
      if state == Handshaking {
        state := Active;
      }
      model := Next(model, ConnRuns.Activate);
    }

    /** The parent context ends. */
    method EndContext()
      requires Valid()
      modifies this
      ensures Valid() && model == Next(old(model), Cancel)
    {
      StepKeepsInv(model, Cancel);
      cancelled := true;
      model := Next(model, Cancel);
    }

    /** The factory writes the handshake acknowledgement itself, before the write loop runs. */
    method Greet(result: WriteResult) returns (ok: bool)
      requires Valid() && model.stage.Activated?
      modifies this`model
      ensures Valid() && ok == (result.encoded && result.written)
      ensures model == Next(old(model), ConnRuns.Greet(result.encoded, result.written))
    {
      StepKeepsInv(model, ConnRuns.Greet(result.encoded, result.written));
      model := Next(model, ConnRuns.Greet(result.encoded, result.written));
      ok := result.encoded && result.written;
    }

    method Submit(msg: Msg) returns (ok: bool, seqID: nat)
      requires Valid()
      modifies this
      ensures Valid() && model == Submitted(old(model), msg)
      ensures ok <==> old(AnswerOf(model)).Taken?
      ensures ok ==> old(AnswerOf(model)) == Taken(seqID)
      ensures ok <==> old(state).Active? && |old(writeCh)| < 4096
      ensures writeCh == if ok then old(writeCh) + [Frame(msg, Some(seqID))] else old(writeCh)
      ensures nextSendSeq == if old(state).Active? then old(nextSendSeq) + 1 else old(nextSendSeq)
      ensures old(state).Active? ==> seqID == nextSendSeq
      ensures state == old(state) && cancelled == old(cancelled)
    {
      SubmittedIsRun(model, msg);
      RunKeepsInv(model, SubmitSteps(model, msg), Submitted(model, msg));
      hide Inv, SubmitSteps;
      ok, seqID := false, 0;
      if IsActive() {
        nextSendSeq := nextSendSeq + 1;
        seqID := nextSendSeq;
        if |writeCh| < WRITE_CHANNEL_SIZE {
          writeCh := writeCh + [Frame(msg, Some(seqID))];
          ok := true;
        }
      }
      model := Submitted(model, msg);
    }

    method Send(msg: Msg) returns (ok: bool)
      requires Valid()
      modifies this
      ensures Valid() && model == Posted(old(model), msg)
      ensures ok <==> old(AnswerOf(model)).Taken?
      ensures ok <==> old(state).Active? && |old(writeCh)| < 4096
      ensures writeCh == if ok then old(writeCh) + [Frame(msg, None)] else old(writeCh)
      ensures nextSendSeq == old(nextSendSeq) && state == old(state) && cancelled == old(cancelled)
    {
      PostedIsRun(model, msg);
      RunKeepsInv(model, SendSteps(model, msg), Posted(model, msg));
      hide Inv, SendSteps;
      ok := false;
      if IsActive() && |writeCh| < WRITE_CHANNEL_SIZE {
        writeCh := writeCh + [Frame(msg, None)];
        ok := true;
      }
      model := Posted(model, msg);
    }

    /** Takes the frame at the head of the queue, encodes it and writes it. */
    method WriteHead(outcome: WriteResult) returns (failed: bool)
      requires Valid() && writeCh != [] && (model.writer.Looping? || model.writer.Draining?) && model.inHand == None
      modifies this
      ensures Valid() && failed == !(outcome.encoded && outcome.written)
      ensures Run(old(model), [TakeFrame, WriteFrame(outcome.encoded, outcome.written)], model)
      ensures writeCh == old(writeCh)[1..] && model.inHand == None && cancelled == old(cancelled)
      ensures model.done == old(model.done) + [Attempt(old(writeCh)[0], outcome.encoded, outcome.written)]
      ensures model.stage == old(model.stage) && model.reading == old(model.reading)
      ensures model.writer == if old(model.writer).Looping? && failed then Exited else old(model.writer)
    {
      hide Inv, Run;
      var put := WriteFrame(outcome.encoded, outcome.written);
      StepKeepsInv(model, TakeFrame);
      ghost var held := Next(model, TakeFrame);
      StepKeepsInv(held, put);
      One(held, put);
      assert [TakeFrame, put][1..] == [put];
      RunFrom(model, [TakeFrame, put], Next(held, put));
      writeCh := writeCh[1..];
      failed := !(outcome.encoded && outcome.written);
      model := Next(held, put);
    }

    /** The loop of the write loop. */
    method WriteTurns(outcomes: nat -> WriteResult, picksDone: nat -> bool)
      returns (stopped: bool, ghost good: nat, ghost failed: bool, ghost steps: seq<Step>)
      requires Valid() && model.writer.Looping? && model.inHand == None
      modifies this
      ensures Valid() && Run(old(model), steps, model)
      ensures if stopped then model.writer.Exited? else model.writer.Looping?
      ensures cancelled == old(cancelled) && model.stage == old(model.stage) && model.reading == old(model.reading)
      ensures good <= |old(writeCh)|
      ensures forall i :: 0 <= i < good ==> outcomes(i).encoded && outcomes(i).written && (cancelled ==> !picksDone(i))
      ensures failed ==>
        && stopped && good < |old(writeCh)| && !(outcomes(good).encoded && outcomes(good).written)
        && (cancelled ==> !picksDone(good)) && writeCh == old(writeCh)[good + 1..]
      ensures !failed ==> writeCh == [] && stopped == cancelled && (good < |old(writeCh)| ==> cancelled && picksDone(good))
      ensures Tried(old(model.done), model.done, old(writeCh), outcomes, 0, if failed then good + 1 else |old(writeCh)|)
    {
      hide Inv, Run, Next, Tried, Valid;
      ghost var start, queue := model, writeCh;
      steps, good := [], 0;
      var turn: nat := 0;
      RunNothing(model);
      TriedMeans(model.done, model.done, writeCh, outcomes, 0, 0);
      while true
        invariant Valid() && model.writer.Looping? && model.inHand == None
        invariant cancelled == old(cancelled) && model.stage == start.stage && model.reading == start.reading
        invariant Run(start, steps, model)
        invariant good == turn <= |queue| && writeCh == queue[turn..]
        invariant Tried(start.done, model.done, queue, outcomes, 0, turn)
        invariant forall i :: 0 <= i < good ==> outcomes(i).encoded && outcomes(i).written && (cancelled ==> !picksDone(i))
        decreases |writeCh|
      {
        ghost var x := model;
        if cancelled && (writeCh == [] || picksDone(turn)) {
          ghost var drain := SelectDone(outcomes, turn);
          RunAppend(start, steps, x, drain, model);
          TriedRest(start.done, x.done, model.done, queue, outcomes, turn);
          return true, good, false, steps + drain;
        }
        if writeCh == [] {
          return false, good, false, steps;
        }
        var outcome := outcomes(turn);
        var broken := WriteHead(outcome);
        RunAppend(start, steps, x, [TakeFrame, WriteFrame(outcome.encoded, outcome.written)], model);
        TriedOneMore(start.done, x.done, queue, outcomes, 0, turn);
        steps := steps + [TakeFrame, WriteFrame(outcome.encoded, outcome.written)];
        turn := turn + 1;
        if broken {
          return true, good, true, steps;
        }
        good := turn;
      }
    }

    /** The write loop, with nobody else running, until it returns or has to wait for a message.
        When the context has ended and there is a message too, either may be selected. `good` is
        the number of turns that succeed before a write fails or the end of the context is selected. */
    method WriteLoop(outcomes: nat -> WriteResult, picksDone: nat -> bool)
      returns (stopped: bool, ghost good: nat, ghost failed: bool, ghost steps: seq<Step>)
      requires Valid() && model.writer.Looping? && model.inHand == None
      modifies this
      ensures Valid() && Run(old(model), steps, model)
      ensures if stopped then model.writer.Exited? else model.writer.Looping? && writeCh == [] && !cancelled
      ensures cancelled == old(cancelled) && model.stage == old(model.stage) && model.reading == old(model.reading)
      // the frames that have left the queue are its first ones, each tried once with its own outcome
      ensures |writeCh| == |old(writeCh)| - (if failed then good + 1 else |old(writeCh)|)
      ensures writeCh == old(writeCh)[|old(writeCh)| - |writeCh|..]
      ensures |model.done| == |old(model.done)| + |old(writeCh)| - |writeCh| && old(model.done) <= model.done
      ensures forall i :: 0 <= i < |old(writeCh)| - |writeCh| ==>
        model.done[|old(model.done)| + i] == Attempt(old(writeCh)[i], outcomes(i).encoded, outcomes(i).written)
      // the first failure stops the loop, unless the end of the context is selected before
      ensures good <= |old(writeCh)|
      ensures forall i :: 0 <= i < good ==> outcomes(i).encoded && outcomes(i).written && (old(cancelled) ==> !picksDone(i))
      ensures failed ==>
        && good < |old(writeCh)| && !(outcomes(good).encoded && outcomes(good).written)
        && (old(cancelled) ==> !picksDone(good))
      ensures !failed && good < |old(writeCh)| ==> old(cancelled) && picksDone(good)
      ensures stopped == (failed || old(cancelled))
      ensures !old(cancelled) ==>
        (stopped <==> exists i :: 0 <= i < |old(writeCh)| && !(outcomes(i).encoded && outcomes(i).written))
    {
      hide Inv, Run, Next, Tried, Valid;
      ghost var queue, done := writeCh, model.done;
      stopped, good, failed, steps := WriteTurns(outcomes, picksDone);
      TriedMeans(done, model.done, queue, outcomes, 0, if failed then good + 1 else |queue|);
    }

    /** A step of the write loop that only the model can see. */
    method Silently(ghost step: Step)
      requires Valid() && (step == SeeCancel || step == EndDrain) && Allowed(model, step)
      modifies this`model
      ensures Valid() && Run(old(model), [step], model)
      ensures model == old(model).(writer := if step == SeeCancel then Draining else Exited)
    {
      StepKeepsInv(model, step);
      One(model, step);
      model := Next(model, step);
    }

    /** The branch of the write loop for the end of the context. */
    method SelectDone(outcomes: nat -> WriteResult, start: nat) returns (ghost steps: seq<Step>)
      requires Valid() && model.writer.Looping? && model.inHand == None && cancelled
      modifies this
      ensures Valid() && Run(old(model), steps, model)
      ensures model.writer.Exited? && writeCh == []
      ensures Tried(old(model.done), model.done, old(writeCh), outcomes, start, |old(writeCh)|)
      ensures cancelled == old(cancelled) && model.stage == old(model.stage) && model.reading == old(model.reading)
    {
      hide Inv, Run, Next;
      ghost var x := model;
      Silently(SeeCancel);
      ghost var y := model;
      steps := Drain(outcomes, start);
      RunAppend(x, [SeeCancel], y, steps, model);
      steps := [SeeCancel] + steps;
    }

    /** After the context has ended: writes what is queued, whatever fails, and stops. */
    method Drain(outcomes: nat -> WriteResult, start: nat) returns (ghost steps: seq<Step>)
      requires Valid() && model.writer.Draining? && model.inHand == None
      modifies this
      ensures Valid() && Run(old(model), steps, model)
      ensures model.writer.Exited? && writeCh == []
      ensures |model.done| == |old(model.done)| + |old(writeCh)| && old(model.done) <= model.done
      ensures forall i :: 0 <= i < |old(writeCh)| ==>
        model.done[|old(model.done)| + i] == Attempt(old(writeCh)[i], outcomes(start + i).encoded, outcomes(start + i).written)
      ensures cancelled == old(cancelled) && model.stage == old(model.stage) && model.reading == old(model.reading)
    {
      hide Inv, Run, Next, Tried;
      steps := [];
      var turn := start;
      RunNothing(model);
      TriedMeans(model.done, model.done, writeCh, outcomes, start, 0);
      while writeCh != []
        invariant Valid() && model.writer.Draining? && model.inHand == None
        invariant cancelled == old(cancelled) && model.stage == old(model.stage) && model.reading == old(model.reading)
        invariant Run(old(model), steps, model)
        invariant start <= turn <= start + |old(writeCh)| && writeCh == old(writeCh)[turn - start..]
        invariant Tried(old(model.done), model.done, old(writeCh), outcomes, start, turn - start)
        decreases |writeCh|
      {
        ghost var x := model;
        var outcome := outcomes(turn);
        var failed := WriteHead(outcome);
        RunAppend(old(model), steps, x, [TakeFrame, WriteFrame(outcome.encoded, outcome.written)], model);
        TriedOneMore(old(model.done), x.done, old(writeCh), outcomes, start, turn - start);
        steps := steps + [TakeFrame, WriteFrame(outcome.encoded, outcome.written)];
        turn := turn + 1;
      }
      ghost var x := model;
      Silently(EndDrain);
      RunAppend(old(model), steps, x, [EndDrain], model);
      TriedMeans(old(model.done), model.done, old(writeCh), outcomes, start, |old(writeCh)|);
      steps := steps + [EndDrain];
    }

    /** Run, once reading has ended and with nobody else using the connection. It returns when
        the write loop has stopped, and then the connection is closed; otherwise it waits.
        `stopped` tells whether the write loop had stopped before. */
    method FinishRun(stopped: bool, contextEnds: bool, outcomes: nat -> WriteResult, picksDone: nat -> bool)
      returns (closed: bool, ghost steps: seq<Step>)
      requires Valid() && model.stage.Running? && !model.reading
      requires stopped == model.writer.Exited?
      requires !stopped ==> model.writer.Looping? && model.inHand == None
      modifies this
      ensures Valid() && Run(old(model), steps, model)
      ensures closed <==> state == Closed
      ensures stopped || contextEnds ==> closed
      ensures !stopped && !contextEnds && !old(cancelled) ==>
        (closed <==> exists i :: 0 <= i < |old(writeCh)| && !(outcomes(i).encoded && outcomes(i).written))
      ensures !stopped && !contextEnds && old(cancelled) ==> closed
    {
      hide Inv, Next;
      ghost var start := model;
      steps := [];
      if contextEnds {
        EndContext();
        One(start, Cancel);
        steps := [Cancel];
      }
      CancelKeeps(start);
      closed := stopped;
      if !stopped {
        ghost var x := model;
        ghost var good, failed, looped;
        closed, good, failed, looped := WriteLoop(outcomes, picksDone);
        RunAppend(start, steps, x, looped, model);
        steps := steps + looped;
      }
      RunningIsOpen(model);
      if closed {
        ghost var w := model;
        StepKeepsInv(w, CloseUp);
        One(w, CloseUp);
        state := Closed;
        model := Next(w, CloseUp);
        CloseUpCloses(w);
        RunAppend(start, steps, w, [CloseUp], model);
        steps := steps + [CloseUp];
      }
    }
  }

  lemma CancelKeeps(y: Conn)
    ensures Next(y, Cancel) == y.(cancelled := true)
  {
  }

  lemma RunningIsOpen(y: Conn)
    requires Inv(y) && y.stage.Running?
    ensures y.phase != Closed
  {
  }

  lemma CloseUpCloses(y: Conn)
    requires Allowed(y, CloseUp)
    ensures Next(y, CloseUp) == y.(phase := Closed, stage := Finished)
  {
  }
}

/** One client connection under every interleaving of the goroutines that use it: the factory,
    which greets the client and then runs the connection, the read loop, the write loop, and
    any number of callers of Submit and Send, each stopped between its steps. */
module ConnRuns {
  import opened Messages
  import opened Names

  datatype Phase = Handshaking | Active | Closing | Closed

  const WRITE_CHANNEL_SIZE: nat := 4096

  /** A queued message with the number Submit issued for it; Send issues none. */
  datatype Frame = Frame(msg: Msg, seqID: Option<nat>)

  /** What is handed to the transport. */
  datatype Sent = HandshakeAck | Data(frame: Frame)

  /** A frame the write loop has dealt with. */
  datatype Attempt = Attempt(frame: Frame, encoded: bool, written: bool) {
    predicate Ok() { encoded && written }
  }

  /** A caller inside Submit or Send: past the IsActive check, or past taking its number. */
  datatype Ticket = Checked(msg: Msg, numbered: bool) | Numbered(msg: Msg, seqID: nat)

  datatype Writer = NotStarted | Looping | Draining | Exited

  /** How far CreateAndRun has come. */
  datatype Stage = Attached | Activated | Greeted | Abandoned | Running | Finished

  datatype Conn = Conn(
    phase: Phase,
    queue: seq<Frame>,           // writeCh
    issued: nat,                 // nextSendSeq
    cancelled: bool,             // ctx is done
    stage: Stage,
    reading: bool,
    writer: Writer,
    inHand: Option<Frame>,       // taken by the write loop, not yet dealt with
    callers: map<Name, Ticket>,
    accepted: seq<Frame>,        // every frame that Submit or Send reported as queued
    done: seq<Attempt>,
    wire: seq<Sent>)             // every call of the transport's Write

  datatype Step =
    | Check(caller: Name, msg: Msg, numbered: bool)
    | TakeNumber(caller: Name)
    | Enqueue(caller: Name)
    | Activate
    | GiveUp                                  // the connection could not be registered
    | Greet(encoded: bool, written: bool)     // sendAuthResponse
    | StartRun
    | EndRead
    | Cancel                                  // the parent context ends
    | TakeFrame
    | WriteFrame(encoded: bool, written: bool)
    | SeeCancel
    | EndDrain
    | CloseUp                                 // the deferred part of Run

  const START := Conn(Handshaking, [], 0, false, Attached, false, NotStarted, None, map[], [], [], [])

  ghost predicate Allowed(y: Conn, step: Step) {
    match step
    case Check(caller, _, _) => caller !in y.callers
    case TakeNumber(caller) => caller in y.callers && y.callers[caller].Checked? && y.callers[caller].numbered
    case Enqueue(caller) => caller in y.callers && !(y.callers[caller].Checked? && y.callers[caller].numbered)
    case Activate => true
    case GiveUp => y.stage.Attached?
    case Greet(_, _) => y.stage.Activated?
    case StartRun => y.stage.Greeted?
    case EndRead => y.stage.Running? && y.reading
    case Cancel => true
    case TakeFrame => (y.writer.Looping? || y.writer.Draining?) && y.inHand == None && y.queue != []
    case WriteFrame(_, _) => y.inHand.Some?
    case SeeCancel => y.writer.Looping? && y.inHand == None && y.cancelled
    case EndDrain => y.writer.Draining? && y.inHand == None && y.queue == []
    case CloseUp => y.stage.Running? && !y.reading && y.writer.Exited?
  }

  function FrameOf(ticket: Ticket): Frame {
    match ticket
    case Checked(msg, _) => Frame(msg, None)
    case Numbered(msg, n) => Frame(msg, Some(n))
  }

  ghost function Next(y: Conn, step: Step): Conn
    requires Allowed(y, step)
  {
    match step
    case Check(caller, msg, numbered) =>
      if y.phase.Active? then y.(callers := y.callers[caller := Checked(msg, numbered)]) else y
    case TakeNumber(caller) =>
      y.(issued := y.issued + 1,
         callers := y.callers[caller := Numbered(y.callers[caller].msg, y.issued + 1)])
    case Enqueue(caller) =>
      var frame, gone := FrameOf(y.callers[caller]), y.callers - {caller};
      if |y.queue| < WRITE_CHANNEL_SIZE
      then y.(callers := gone, queue := y.queue + [frame], accepted := y.accepted + [frame])
      else y.(callers := gone)
    case Activate =>
      y.(phase := if y.phase.Handshaking? then Active else y.phase, stage := if y.stage.Attached? then Activated else y.stage)
    case GiveUp => y.(stage := Abandoned)
    case Greet(encoded, written) =>
      y.(wire := if encoded then y.wire + [HandshakeAck] else y.wire,
         stage := if encoded && written then Greeted else Abandoned)
    case StartRun => y.(stage := Running, reading := true, writer := Looping)
    case EndRead => y.(reading := false)
    case Cancel => y.(cancelled := true)
    case TakeFrame => y.(inHand := Some(y.queue[0]), queue := y.queue[1..])
    case WriteFrame(encoded, written) =>
      var frame := y.inHand.value;
      y.(inHand := None,
         done := y.done + [Attempt(frame, encoded, written)],
         wire := if encoded then y.wire + [Data(frame)] else y.wire,
         writer := if y.writer.Looping? && !(encoded && written) then Exited else y.writer)
    case SeeCancel => y.(writer := Draining)
    case EndDrain => y.(writer := Exited)
    case CloseUp => y.(phase := Closed, stage := Finished)
  }

  ghost predicate Run(y: Conn, steps: seq<Step>, z: Conn)
    decreases |steps|
  {
    if steps == [] then y == z
    else Allowed(y, steps[0]) && Run(Next(y, steps[0]), steps[1..], z)
  }

  // ---- What every step keeps --------------------------------------------------------

  function Frames(done: seq<Attempt>): seq<Frame> {
    seq(|done|, i requires 0 <= i < |done| => done[i].frame)
  }

  function Written(done: seq<Attempt>): seq<Sent> {
    if done == [] then []
    else
      var n := |done| - 1;
      if done[n].encoded then Written(done[..n]) + [Data(done[n].frame)] else Written(done[..n])
  }

  function InHand(y: Conn): seq<Frame> {
    if y.inHand.Some? then [y.inHand.value] else []
  }

  /** Accepted frames are dealt with in the order of acceptance, none is lost or doubled, and
      the queue has its capacity. */
  ghost predicate Conserved(y: Conn) {
    && y.accepted == Frames(y.done) + InHand(y) + y.queue
    && |y.queue| <= WRITE_CHANNEL_SIZE
  }

  /** The handshake acknowledgement comes first; then what the write loop could encode. */
  ghost predicate WireInOrder(y: Conn) {
    match y.stage
    case Attached => y.wire == []
    case Activated => y.wire == []
    case Abandoned => y.wire == [] || y.wire == [HandshakeAck]
    case _ => y.wire == [HandshakeAck] + Written(y.done)
  }

  /** Only after the context ended can the write loop go on past a failure. */
  ghost predicate StopsAtFailure(y: Conn) {
    || y.cancelled
    || ((forall i :: 0 <= i < |y.done| - 1 ==> y.done[i].Ok())
        && (y.done != [] && !y.done[|y.done| - 1].Ok() ==> y.writer.Exited?)
        && (y.writer.Exited? ==> y.done != [] && !y.done[|y.done| - 1].Ok()))
  }

  /** Where the goroutines can be together. */
  ghost predicate Staged(y: Conn) {
    && (y.writer.NotStarted? <==> !y.stage.Running? && !y.stage.Finished?)
    && (y.writer.NotStarted? || y.writer.Exited? ==> y.inHand == None)
    && (y.writer.NotStarted? ==> y.done == [])
    && (y.phase.Closed? <==> y.stage.Finished?)
    && (y.stage.Finished? ==> y.writer.Exited? && !y.reading)
    && (y.phase.Handshaking? ==> y.stage.Attached? || y.stage.Abandoned?)
    && (y.phase.Handshaking? ==> y.accepted == [] && y.callers == map[] && y.issued == 0)
    && (y.stage.Attached? ==> y.phase.Handshaking?)
    && !y.phase.Closing?
    && (y.writer.Draining? ==> y.cancelled)
  }

  ghost predicate DistinctUpTo(frames: seq<Frame>, issued: nat) {
    && (forall i :: 0 <= i < |frames| && frames[i].seqID.Some? ==> 0 < frames[i].seqID.value <= issued)
    && (forall i, j :: 0 <= i < j < |frames| && frames[i].seqID.Some? ==> frames[i].seqID != frames[j].seqID)
  }

  /** The caller's number was issued, and no accepted frame has it. */
  ghost predicate HoldsFresh(frames: seq<Frame>, ticket: Ticket, issued: nat) {
    ticket.Numbered? ==>
      && 0 < ticket.seqID <= issued
      && forall i :: 0 <= i < |frames| && frames[i].seqID.Some? ==> frames[i].seqID.value != ticket.seqID
  }

  /** Numbers are issued upwards; a number is held by one caller or one accepted frame at most. */
  ghost predicate NumbersUnique(y: Conn) {
    && DistinctUpTo(y.accepted, y.issued)
    && (forall c :: c in y.callers ==> HoldsFresh(y.accepted, y.callers[c], y.issued))
    && (forall c, d :: c in y.callers && d in y.callers && c != d && y.callers[c].Numbered? && y.callers[d].Numbered? ==>
          y.callers[c].seqID != y.callers[d].seqID)
  }

  ghost predicate Inv(y: Conn) {
    Conserved(y) && WireInOrder(y) && StopsAtFailure(y) && Staged(y) && NumbersUnique(y)
  }

  lemma StepKeepsConserved(y: Conn, step: Step)
    requires Allowed(y, step) && Conserved(y)
    ensures Conserved(Next(y, step))
  {
  }

  lemma StepKeepsWire(y: Conn, step: Step)
    requires Allowed(y, step) && WireInOrder(y) && Staged(y)
    ensures WireInOrder(Next(y, step))
  {
    hide Written;
    if step.WriteFrame? {
      WriteExtends(y.done, Attempt(y.inHand.value, step.encoded, step.written), y.wire);
    }
    assert Written([]) == [] by { NothingWritten(); }
  }

  lemma NothingWritten()
    ensures Written([]) == []
  {
  }

  lemma WriteExtends(done: seq<Attempt>, attempt: Attempt, wire: seq<Sent>)
    ensures wire == [HandshakeAck] + Written(done) ==>
      [HandshakeAck] + Written(done + [attempt]) == if attempt.encoded then wire + [Data(attempt.frame)] else wire
  {
    assert (done + [attempt])[..|done|] == done;
  }

  lemma StepKeepsStaged(y: Conn, step: Step)
    requires Allowed(y, step) && StopsAtFailure(y) && Staged(y)
    ensures StopsAtFailure(Next(y, step)) && Staged(Next(y, step))
  {
  }

  lemma AcceptKeepsDistinct(frames: seq<Frame>, frame: Frame, issued: nat)
    requires DistinctUpTo(frames, issued)
    requires frame.seqID.Some? ==> 0 < frame.seqID.value <= issued
    requires frame.seqID.Some? ==> forall i :: 0 <= i < |frames| ==> frames[i].seqID != frame.seqID
    ensures DistinctUpTo(frames + [frame], issued)
  {
  }

  lemma AcceptKeepsFresh(frames: seq<Frame>, frame: Frame, ticket: Ticket, issued: nat)
    requires HoldsFresh(frames, ticket, issued)
    requires frame.seqID.Some? && ticket.Numbered? ==> frame.seqID.value != ticket.seqID
    ensures HoldsFresh(frames + [frame], ticket, issued)
  {
  }

  lemma EnqueueKeepsNumbers(y: Conn, caller: Name)
    requires Allowed(y, Enqueue(caller)) && NumbersUnique(y)
    ensures NumbersUnique(Next(y, Enqueue(caller)))
  {
    var z := Next(y, Enqueue(caller));
    if |y.queue| < WRITE_CHANNEL_SIZE {
      var frame := FrameOf(y.callers[caller]);
      assert HoldsFresh(y.accepted, y.callers[caller], y.issued);
      AcceptKeepsDistinct(y.accepted, frame, y.issued);
      hide DistinctUpTo, HoldsFresh;
      forall c | c in z.callers ensures HoldsFresh(z.accepted, z.callers[c], z.issued) {
        AcceptKeepsFresh(y.accepted, frame, y.callers[c], y.issued);
      }
    }
  }

  lemma NumberKeepsNumbers(y: Conn, caller: Name)
    requires Allowed(y, TakeNumber(caller)) && NumbersUnique(y)
    ensures NumbersUnique(Next(y, TakeNumber(caller)))
  {
    var z := Next(y, TakeNumber(caller));
    forall c, d | c in z.callers && d in z.callers && c != d && z.callers[c].Numbered? && z.callers[d].Numbered?
      ensures z.callers[c].seqID != z.callers[d].seqID
    {
      assert c != caller ==> HoldsFresh(y.accepted, y.callers[c], y.issued);
      assert d != caller ==> HoldsFresh(y.accepted, y.callers[d], y.issued);
    }
  }

  lemma StepKeepsNumbers(y: Conn, step: Step)
    requires Allowed(y, step) && NumbersUnique(y)
    ensures NumbersUnique(Next(y, step))
  {
    match step {
      case Enqueue(caller) => EnqueueKeepsNumbers(y, caller);
      case TakeNumber(caller) => NumberKeepsNumbers(y, caller);
      case _ => hide DistinctUpTo, HoldsFresh;
    }
  }

  lemma StepKeepsInv(y: Conn, step: Step)
    requires Allowed(y, step) && Inv(y)
    ensures Inv(Next(y, step))
  {
    StepKeepsConserved(y, step);
    StepKeepsWire(y, step);
    StepKeepsStaged(y, step);
    StepKeepsNumbers(y, step);
    hide Conserved, WireInOrder, StopsAtFailure, Staged, NumbersUnique, Next, Allowed;
  }

  lemma {:induction false} RunKeepsInv(y: Conn, steps: seq<Step>, z: Conn)
    requires Inv(y) && Run(y, steps, z)
    ensures Inv(z)
    decreases |steps|
  {
    if steps != [] {
      StepKeepsInv(y, steps[0]);
      hide Inv;
      RunKeepsInv(Next(y, steps[0]), steps[1..], z);
    }
  }

  // ---- Over whole runs --------------------------------------------------------------

  /** What follows the acknowledgement is a prefix of what was accepted. */
  ghost predicate SentInOrder(y: Conn) {
    forall i :: 1 <= i < |y.wire| ==> i <= |y.accepted| && y.wire[i] == Data(y.accepted[i - 1])
  }

  /** In every interleaving: accepted frames are dealt with in the order of acceptance, none is
      lost or doubled; the queue stays within its capacity; the handshake acknowledgement is the
      first thing written; and until the context ends, what follows is a prefix of what was accepted. */
  lemma WireOrder(steps: seq<Step>, z: Conn)
    requires Run(START, steps, z)
    ensures z.accepted == Frames(z.done) + InHand(z) + z.queue && |z.queue| <= WRITE_CHANNEL_SIZE
    ensures z.wire != [] ==> z.wire[0] == HandshakeAck && forall i :: 1 <= i < |z.wire| ==> z.wire[i].Data?
    ensures z.stage.Running? || z.stage.Finished? ==> z.wire == [HandshakeAck] + Written(z.done)
    ensures !z.cancelled ==> SentInOrder(z)
  {
    hide Inv, Run, Next;
    StartInv();
    RunKeepsInv(START, steps, z);
    InvReads(z);
    PrefixOnWire(z);
  }

  lemma InvReads(z: Conn)
    requires Inv(z)
    ensures z.accepted == Frames(z.done) + InHand(z) + z.queue && |z.queue| <= WRITE_CHANNEL_SIZE
    ensures z.wire != [] ==> z.wire[0] == HandshakeAck && forall i :: 1 <= i < |z.wire| ==> z.wire[i].Data?
    ensures z.stage.Running? || z.stage.Finished? ==> z.wire == [HandshakeAck] + Written(z.done)
  {
    hide Frames, NumbersUnique, StopsAtFailure;
    WrittenIsData(z.done);
    hide Written;
  }

  lemma PrefixOnWire(z: Conn)
    requires Inv(z)
    ensures !z.cancelled ==> SentInOrder(z)
  {
    hide Written, NumbersUnique;
    NothingWritten();
    if !(z.stage.Running? || z.stage.Finished?) {
      assert z.done == [];
      assert |z.wire| <= 1;
    } else if !z.cancelled {
      WrittenUpToFailure(z.done);
      forall i | 1 <= i < |z.wire| ensures i <= |z.accepted| && z.wire[i] == Data(z.accepted[i - 1]) {
        assert z.wire[i] == Written(z.done)[i - 1];
        assert Frames(z.done)[i - 1] == z.accepted[i - 1];
      }
    }
  }

  lemma StartInv()
    ensures Inv(START)
  {
  }

  lemma {:induction false} WrittenIsData(done: seq<Attempt>)
    ensures |Written(done)| <= |done| && forall i :: 0 <= i < |Written(done)| ==> Written(done)[i].Data?
  {
    if done != [] {
      WrittenIsData(done[..|done| - 1]);
    }
  }

  lemma {:induction false} WrittenUpToFailure(done: seq<Attempt>)
    requires forall i :: 0 <= i < |done| - 1 ==> done[i].Ok()
    ensures |Written(done)| <= |done|
    ensures forall i :: 0 <= i < |Written(done)| ==> Written(done)[i] == Data(done[i].frame)
    ensures forall i :: 0 <= i < |done| ==> done[i].encoded ==> |Written(done)| > i
  {
    if done != [] {
      WrittenUpToFailure(done[..|done| - 1]);
    }
  }

  /** Every number issued is given to one frame at most. */
  lemma NumbersAreDistinct(steps: seq<Step>, z: Conn, i: nat, j: nat)
    requires Run(START, steps, z) && i < j < |z.accepted| && z.accepted[i].seqID.Some?
    ensures z.accepted[i].seqID != z.accepted[j].seqID && 0 < z.accepted[i].seqID.value <= z.issued
  {
    StartInv();
    RunKeepsInv(START, steps, z);
  }

  // ---- The order of the numbers on the wire -----------------------------------------

  ghost predicate Ascending(frames: seq<Frame>) {
    forall i, j :: 0 <= i < j < |frames| && frames[i].seqID.Some? && frames[j].seqID.Some? ==>
      frames[i].seqID.value < frames[j].seqID.value
  }

  /** The states of a whole run, one before each step and one after the last. */
  ghost predicate Trace(ys: seq<Conn>, steps: seq<Step>) {
    && |ys| == |steps| + 1 && ys[0] == START
    && forall i :: 0 <= i < |steps| ==> Moves(ys, steps, i)
  }

  ghost predicate Moves(ys: seq<Conn>, steps: seq<Step>, i: nat)
    requires |ys| == |steps| + 1 && i < |steps|
  {
    Allowed(ys[i], steps[i]) && ys[i + 1] == Next(ys[i], steps[i])
  }

  /** Every run has its trace. */
  lemma {:induction false} TraceOfRun(front: seq<Step>, xs: seq<Conn>, steps: seq<Step>, z: Conn) returns (ys: seq<Conn>)
    requires Trace(xs, front) && Run(xs[|front|], steps, z)
    ensures Trace(ys, front + steps) && ys[|front + steps|] == z
    decreases |steps|
  {
    if steps == [] {
      assert front + steps == front;
      ys := xs;
    } else {
      var next := Next(xs[|front|], steps[0]);
      ExtendTrace(front, xs, steps[0]);
      hide Next, Trace;
      ys := TraceOfRun(front + [steps[0]], xs + [next], steps[1..], z);
      assert front + [steps[0]] + steps[1..] == front + steps;
    }
  }

  lemma RunHasTrace(steps: seq<Step>, z: Conn) returns (ys: seq<Conn>)
    requires Run(START, steps, z)
    ensures Trace(ys, steps) && ys[|steps|] == z
  {
    assert [] + steps == steps;
    ys := TraceOfRun([], [START], steps, z);
  }

  lemma ExtendTrace(front: seq<Step>, xs: seq<Conn>, step: Step)
    requires Trace(xs, front) && Allowed(xs[|front|], step)
    ensures Trace(xs + [Next(xs[|front|], step)], front + [step])
  {
    var ys, steps := xs + [Next(xs[|front|], step)], front + [step];
    hide Next, Allowed;
    forall i | 0 <= i < |steps| ensures Moves(ys, steps, i) {
      assert i < |front| ==> Moves(xs, front, i);
    }
  }

  /** Step `i` takes a number and step `l` queues the frame that carries it. */
  ghost predicate Span(ys: seq<Conn>, steps: seq<Step>, i: nat, l: nat, caller: Name)
    requires |ys| == |steps| + 1
  {
    && i < l < |steps| && steps[i] == TakeNumber(caller) && steps[l] == Enqueue(caller)
    && |ys[l].queue| < WRITE_CHANNEL_SIZE
    && forall m :: i < m < l ==> steps[m] != Enqueue(caller)
  }

  /** Between taking its number and queueing its frame, one caller is passed by another that
      both takes its number and queues its frame. */
  ghost predicate Overtaken(ys: seq<Conn>, steps: seq<Step>, i: nat, j: nat, k: nat, l: nat, slow: Name, fast: Name)
    requires |ys| == |steps| + 1
  {
    i < j < k < l && Span(ys, steps, i, l, slow) && Span(ys, steps, j, k, fast)
  }

  lemma {:induction false} Grows(ys: seq<Conn>, steps: seq<Step>, i: nat, j: nat)
    requires Trace(ys, steps) && i <= j <= |steps|
    ensures ys[i].accepted <= ys[j].accepted && ys[i].issued <= ys[j].issued
    decreases j
  {
    if i < j {
      Grows(ys, steps, i, j - 1);
      assert Moves(ys, steps, j - 1);
      StepGrows(ys[j - 1], steps[j - 1]);
    }
  }

  lemma StepGrows(y: Conn, step: Step)
    requires Allowed(y, step)
    ensures y.accepted <= Next(y, step).accepted && y.issued <= Next(y, step).issued
  {
  }

  /** Only its own next step can take a number away from a caller. */
  lemma {:induction false} Holds(ys: seq<Conn>, steps: seq<Step>, i: nat, m: nat, caller: Name)
    requires Trace(ys, steps) && i < m <= |steps| && steps[i] == TakeNumber(caller)
    requires forall n :: i < n < m ==> steps[n] != Enqueue(caller)
    ensures caller in ys[m].callers && ys[m].callers[caller].Numbered? && ys[m].callers[caller].seqID == ys[i].issued + 1
    decreases m
  {
    assert Moves(ys, steps, m - 1);
    if i + 1 < m {
      Holds(ys, steps, i, m - 1, caller);
      StepHolds(ys[m - 1], steps[m - 1], caller);
    }
  }

  lemma StepHolds(y: Conn, step: Step, caller: Name)
    requires Allowed(y, step) && step != Enqueue(caller)
    requires caller in y.callers && y.callers[caller].Numbered?
    ensures caller in Next(y, step).callers && Next(y, step).callers[caller] == y.callers[caller]
  {
  }

  /** A queued frame carries the number that was taken for it. */
  lemma SpanAccepts(ys: seq<Conn>, steps: seq<Step>, i: nat, l: nat, caller: Name)
    requires Trace(ys, steps) && Span(ys, steps, i, l, caller)
    ensures |ys[l].accepted| < |ys[l + 1].accepted|
    ensures ys[l + 1].accepted[|ys[l].accepted|].seqID == Some(ys[i].issued + 1)
  {
    Holds(ys, steps, i, l, caller);
    assert Moves(ys, steps, l);
  }

  lemma {:induction false} WasTaken(ys: seq<Conn>, steps: seq<Step>, m: nat, caller: Name) returns (i: nat)
    requires Trace(ys, steps) && m <= |steps| && caller in ys[m].callers && ys[m].callers[caller].Numbered?
    ensures i < m && steps[i] == TakeNumber(caller) && ys[m].callers[caller].seqID == ys[i].issued + 1
    ensures forall n :: i < n < m ==> steps[n] != Enqueue(caller)
    decreases m
  {
    assert m > 0;
    assert Moves(ys, steps, m - 1);
    if steps[m - 1] == TakeNumber(caller) {
      i := m - 1;
    } else {
      StepHeld(ys[m - 1], steps[m - 1], caller);
      i := WasTaken(ys, steps, m - 1, caller);
    }
  }

  lemma StepHeld(y: Conn, step: Step, caller: Name)
    requires Allowed(y, step) && step != TakeNumber(caller)
    requires caller in Next(y, step).callers && Next(y, step).callers[caller].Numbered?
    ensures step != Enqueue(caller) && caller in y.callers && y.callers[caller] == Next(y, step).callers[caller]
  {
  }

  /** Every numbered frame that was accepted has its span. */
  lemma {:induction false} HasSpan(ys: seq<Conn>, steps: seq<Step>, n: nat, q: nat) returns (i: nat, l: nat, caller: Name)
    requires Trace(ys, steps) && n <= |steps| && q < |ys[n].accepted| && ys[n].accepted[q].seqID.Some?
    ensures l < n && Span(ys, steps, i, l, caller)
    ensures |ys[l].accepted| == q && ys[n].accepted[q].seqID.value == ys[i].issued + 1
    decreases n
  {
    assert n > 0;
    assert Moves(ys, steps, n - 1);
    StepGrows(ys[n - 1], steps[n - 1]);
    if q < |ys[n - 1].accepted| {
      i, l, caller := HasSpan(ys, steps, n - 1, q);
    } else {
      l, caller := n - 1, steps[n - 1].caller;
      i := WasTaken(ys, steps, l, caller);
    }
  }

  /** The numbers on the queue, and so on the wire, ascend over a whole run if and only if no
      caller overtakes another between its number and its frame. */
  lemma NumbersAscendIff(ys: seq<Conn>, steps: seq<Step>)
    requires Trace(ys, steps)
    ensures Ascending(ys[|steps|].accepted) <==>
      !exists i: nat, j: nat, k: nat, l: nat, slow, fast :: Overtaken(ys, steps, i, j, k, l, slow, fast)
  {
    var end := ys[|steps|].accepted;
    hide Next, Allowed, Trace, Span;
    forall i: nat, j: nat, k: nat, l: nat, slow, fast | Overtaken(ys, steps, i, j, k, l, slow, fast)
      ensures !Ascending(end)
    {
      OvertakingShows(ys, steps, i, j, k, l, slow, fast);
    }
    forall p: nat, q: nat | p < q < |end| && end[p].seqID.Some? && end[q].seqID.Some? && end[p].seqID.value >= end[q].seqID.value
      ensures exists i: nat, j: nat, k: nat, l: nat, slow, fast :: Overtaken(ys, steps, i, j, k, l, slow, fast)
    {
      DisorderIsOvertaking(ys, steps, p, q);
    }
  }

  lemma OvertakingShows(ys: seq<Conn>, steps: seq<Step>, i: nat, j: nat, k: nat, l: nat, slow: Name, fast: Name)
    requires Trace(ys, steps) && Overtaken(ys, steps, i, j, k, l, slow, fast)
    ensures !Ascending(ys[|steps|].accepted)
  {
    SpanAccepts(ys, steps, i, l, slow);
    SpanAccepts(ys, steps, j, k, fast);
    Grows(ys, steps, i, j);
    Grows(ys, steps, k + 1, l);
    Grows(ys, steps, k + 1, |steps|);
    Grows(ys, steps, l + 1, |steps|);
    hide Next, Allowed, Trace;
    var end, p, q := ys[|steps|].accepted, |ys[k].accepted|, |ys[l].accepted|;
    assert p < q && end[p].seqID == Some(ys[j].issued + 1) && end[q].seqID == Some(ys[i].issued + 1);
  }

  lemma DisorderIsOvertaking(ys: seq<Conn>, steps: seq<Step>, p: nat, q: nat)
    requires Trace(ys, steps) && p < q < |ys[|steps|].accepted|
    requires var end := ys[|steps|].accepted;
      end[p].seqID.Some? && end[q].seqID.Some? && end[p].seqID.value >= end[q].seqID.value
    ensures exists i: nat, j: nat, k: nat, l: nat, slow, fast :: Overtaken(ys, steps, i, j, k, l, slow, fast)
  {
    var end := ys[|steps|].accepted;
    var j, k, fast := HasSpan(ys, steps, |steps|, p);
    var i, l, slow := HasSpan(ys, steps, |steps|, q);
    if l <= k {
      Grows(ys, steps, l, k);
    }
    NumberIsNew(ys, steps, j, i);
    SpanEnds(ys, steps, i, k, l, slow);
    assert Overtaken(ys, steps, i, j, k, l, slow, fast);
  }

  lemma NumberIsNew(ys: seq<Conn>, steps: seq<Step>, j: nat, i: nat)
    requires Trace(ys, steps) && i < |steps| && j < |steps| && steps[j].TakeNumber?
    ensures j < i ==> ys[j].issued < ys[i].issued
  {
    if j < i {
      assert Moves(ys, steps, j);
      Grows(ys, steps, j + 1, i);
    }
  }

  /** A number is queued once. */
  lemma SpanEnds(ys: seq<Conn>, steps: seq<Step>, i: nat, k: nat, l: nat, caller: Name)
    requires |ys| == |steps| + 1
    ensures k < l && Span(ys, steps, i, l, caller) ==> !Span(ys, steps, i, k, caller)
  {
  }

  /** Callers that do not overlap between number and frame keep the order. */
  lemma SerialCallersKeepOrder(ys: seq<Conn>, steps: seq<Step>)
    requires Trace(ys, steps)
    requires forall n, c :: 0 <= n < |steps| && steps[n].TakeNumber? && c in ys[n].callers ==> !ys[n].callers[c].Numbered?
    ensures Ascending(ys[|steps|].accepted)
  {
    NumbersAscendIff(ys, steps);
    hide Next, Allowed;
    forall i: nat, j: nat, k: nat, l: nat, slow, fast ensures !Overtaken(ys, steps, i, j, k, l, slow, fast) {
      if Overtaken(ys, steps, i, j, k, l, slow, fast) {
        Holds(ys, steps, i, j, slow);
      }
    }
  }

  lemma RunFrom(y: Conn, steps: seq<Step>, z: Conn)
    requires steps != [] && Allowed(y, steps[0]) && Run(Next(y, steps[0]), steps[1..], z)
    ensures Run(y, steps, z)
  {
  }

  lemma {:induction false} RunAppend(x: Conn, front: seq<Step>, y: Conn, back: seq<Step>, z: Conn)
    requires Run(x, front, y) && Run(y, back, z)
    ensures Run(x, front + back, z)
    decreases |front|
  {
    if front == [] {
      assert front + back == back;
    } else {
      hide Next;
      RunAppend(Next(x, front[0]), front[1..], y, back, z);
      assert (front + back)[0] == front[0] && (front + back)[1..] == front[1..] + back;
    }
  }

  lemma OpenConnection() returns (steps: seq<Step>, z: Conn)
    ensures Run(START, steps, z)
    ensures z == Conn(Active, [], 0, false, Running, true, Looping, None, map[], [], [], [HandshakeAck])
  {
    steps := [Activate, Greet(true, true), StartRun];
    var y1 := Next(START, steps[0]);
    var y2 := Next(y1, steps[1]);
    z := Next(y2, steps[2]);
    assert steps[1..][1..] == steps[2..] && steps[2..][1..] == [];
    RunFrom(y2, steps[2..], z);
    RunFrom(y1, steps[1..], z);
  }

  lemma WriteNext(y: Conn) returns (z: Conn)
    requires y.writer.Looping? && y.inHand == None && y.queue != []
    ensures z == y.(queue := y.queue[1..], done := y.done + [Attempt(y.queue[0], true, true)], wire := y.wire + [Data(y.queue[0])])
    ensures Run(y, [TakeFrame, WriteFrame(true, true)], z)
  {
    var x := Next(y, TakeFrame);
    z := Next(x, WriteFrame(true, true));
    assert [WriteFrame(true, true)][1..] == [];
    RunFrom(x, [WriteFrame(true, true)], z);
    RunFrom(y, [TakeFrame, WriteFrame(true, true)], z);
  }

  lemma Race(y: Conn, m: Msg, a: Name, b: Name) returns (steps: seq<Step>, z: Conn)
    requires y.phase.Active? && y.callers == map[] && y.queue == [] && a != b
    ensures Run(y, steps, z) && z.queue == [Frame(m, Some(y.issued + 2)), Frame(m, Some(y.issued + 1))]
    ensures z == y.(queue := z.queue, accepted := y.accepted + z.queue, issued := y.issued + 2)
  {
    steps := [Check(a, m, true), Check(b, m, true), TakeNumber(a), TakeNumber(b), Enqueue(b), Enqueue(a)];
    var y1 := Next(y, steps[0]);
    var y2 := Next(y1, steps[1]);
    var y3 := Next(y2, steps[2]);
    var y4 := Next(y3, steps[3]);
    var y5 := Next(y4, steps[4]);
    z := Next(y5, steps[5]);
    assert z.callers == map[];
    assert z.accepted == y.accepted + [Frame(m, Some(y.issued + 2)), Frame(m, Some(y.issued + 1))];
    hide Next, Allowed;
    RunFrom(y5, steps[5..], z);
    RunFrom(y4, steps[4..], z);
    RunFrom(y3, steps[3..], z);
    RunFrom(y2, steps[2..], z);
    RunFrom(y1, steps[1..], z);
  }

  /** Two racing callers of Submit can put their numbers on the wire the wrong way round. */
  lemma RacingCallersSwapNumbers(m: Msg) returns (steps: seq<Step>, z: Conn)
    ensures Run(START, steps, z) && z.wire == [HandshakeAck, Data(Frame(m, Some(2))), Data(Frame(m, Some(1)))]
  {
    hide Run, Next, Allowed;
    var write := [TakeFrame, WriteFrame(true, true)];
    var open, x := OpenConnection();
    var race, y := Race(x, m, Name(1), Name(2));
    var w := WriteNext(y);
    z := WriteNext(w);
    RunAppend(y, write, w, write, z);
    RunAppend(x, race, y, write + write, z);
    RunAppend(START, open, x, race + (write + write), z);
    steps := open + (race + (write + write));
  }

  // ---- Closing ----------------------------------------------------------------------

  /** What cannot change any more on a closed connection, and the frames that can still come. */
  ghost predicate Stranding(y: Conn, z: Conn) {
    && z.phase.Closed? && z.wire == y.wire && z.done == y.done && z.inHand == None
    && y.queue <= z.queue && |z.accepted| - |y.accepted| == |z.queue| - |y.queue|
    && |z.queue| + |z.callers| <= |y.queue| + |y.callers|
  }

  lemma ClosedStep(y: Conn, step: Step)
    requires Staged(y) && y.phase.Closed? && Allowed(y, step)
    ensures Stranding(y, Next(y, step))
  {
    var z := Next(y, step);
    assert |y.callers| == |y.callers.Keys| && |z.callers| == |z.callers.Keys|;
    if step.Enqueue? {
      assert z.callers.Keys == y.callers.Keys - {step.caller};
    } else {
      assert z.callers.Keys == y.callers.Keys;
    }
  }

  /** Once closed a connection stays closed, and nothing more reaches the wire; what is still
      accepted comes from callers that passed the check before, one frame each, and stays in
      the queue for ever. */
  lemma {:induction false} ClosedIsFinal(y: Conn, steps: seq<Step>, z: Conn)
    requires Inv(y) && y.phase.Closed? && Run(y, steps, z)
    ensures z.phase.Closed? && z.wire == y.wire && z.done == y.done && z.inHand == None
    ensures y.queue <= z.queue && |z.accepted| - |y.accepted| == |z.queue| - |y.queue|
    ensures |z.queue| + |z.callers| <= |y.queue| + |y.callers|
    decreases |steps|
  {
    if steps != [] {
      StepKeepsInv(y, steps[0]);
      ClosedStep(y, steps[0]);
      hide Inv, Next;
      ClosedIsFinal(Next(y, steps[0]), steps[1..], z);
    }
  }

  ghost predicate AcceptsMore(y: Conn, steps: seq<Step>, z: Conn) {
    Run(y, steps, z) && |z.accepted| > |y.accepted|
  }

  lemma AcceptOne(y: Conn, caller: Name) returns (steps: seq<Step>, z: Conn)
    requires caller in y.callers && |y.queue| < WRITE_CHANNEL_SIZE
    ensures AcceptsMore(y, steps, z)
  {
    if y.callers[caller].Checked? && y.callers[caller].numbered {
      var x := Next(y, TakeNumber(caller));
      z := Next(x, Enqueue(caller));
      steps := [TakeNumber(caller), Enqueue(caller)];
      assert steps[1..] == [Enqueue(caller)];
      One(x, Enqueue(caller));
      RunFrom(y, steps, z);
    } else {
      z := Next(y, Enqueue(caller));
      steps := [Enqueue(caller)];
      One(y, Enqueue(caller));
    }
  }

  /** Something can still be accepted on a closed connection if and only if some caller is past
      the check and the queue has room. */
  lemma AcceptsAfterClosingIff(y: Conn)
    requires Inv(y) && y.phase.Closed?
    ensures (exists steps, z :: AcceptsMore(y, steps, z)) <==> y.callers != map[] && |y.queue| < WRITE_CHANNEL_SIZE
  {
    hide Run, StopsAtFailure, WireInOrder, NumbersUnique, Staged;
    if y.callers != map[] && |y.queue| < WRITE_CHANNEL_SIZE {
      var caller :| caller in y.callers;
      var steps, z := AcceptOne(y, caller);
    }
    forall steps, z | AcceptsMore(y, steps, z) ensures y.callers != map[] && |y.queue| < WRITE_CHANNEL_SIZE {
      ClosedIsFinal(y, steps, z);
      RunKeepsInv(y, steps, z);
    }
  }

  /** Nothing is checked in, and so nothing numbered or accepted, before the connection is
      activated; and a caller is let in exactly while it is active. */
  lemma OnlyWhileActive(steps: seq<Step>, z: Conn, caller: Name, msg: Msg, numbered: bool)
    requires Run(START, steps, z) && caller !in z.callers
    ensures caller in Next(z, Check(caller, msg, numbered)).callers <==> z.phase.Active?
    ensures z.phase.Handshaking? ==> z.accepted == [] && z.callers == map[]
    ensures z.phase.Handshaking? || z.phase.Active? || z.phase.Closed?
  {
    StartInv();
    RunKeepsInv(START, steps, z);
  }

  /** A connection is closed only after its read loop has ended and its write loop has stopped,
      and the write loop stops only when the context ends or a write fails. A client that has
      gone away therefore leaves an active connection behind until the next write fails. */
  lemma ReadEndDoesNotClose(steps: seq<Step>, z: Conn)
    requires Run(START, steps, z)
    requires !z.cancelled && forall i :: 0 <= i < |z.done| ==> z.done[i].Ok()
    ensures !z.phase.Closed?
    ensures z.stage.Running? ==> z.phase.Active? && z.writer.Looping?
  {
    StartInv();
    RunKeepsInv(START, steps, z);
  }

  /** The client has gone away and the connection stays active: reading has ended, the context
      has not, and no write has failed. */
  lemma ActiveAfterReading() returns (steps: seq<Step>, z: Conn)
    ensures Run(START, steps, z) && z.stage.Running? && !z.reading && z.phase.Active?
    ensures !z.cancelled && forall i :: 0 <= i < |z.done| ==> z.done[i].Ok()
  {
    var open, y := OpenConnection();
    z := Next(y, EndRead);
    One(y, EndRead);
    RunAppend(START, open, y, [EndRead], z);
    steps := open + [EndRead];
  }

  lemma One(y: Conn, step: Step)
    requires Allowed(y, step)
    ensures Run(y, [step], Next(y, step))
  {
    assert [step][1..] == [];
  }

  /** A frame can be accepted on a connection that is closed already: its caller passed the
      check before. Nobody writes it. */
  lemma AcceptedAfterClosing(m: Msg) returns (steps: seq<Step>, z: Conn)
    ensures Run(START, steps, z) && z.phase.Closed?
    ensures z.accepted == z.queue == [Frame(m, Some(1))] && z.wire == [HandshakeAck]
    ensures steps[|steps| - 1].Enqueue?
  {
    var a := Name(1);
    var open, y := OpenConnection();
    var closing := [Check(a, m, true), TakeNumber(a), EndRead, Cancel, SeeCancel, EndDrain, CloseUp];
    var closed := Conn(Closed, [], 1, true, Finished, false, Exited, None, map[a := Numbered(m, 1)], [], [], [HandshakeAck]);
    CloseWithCaller(y, a, m, closed);
    z := Next(closed, Enqueue(a));
    One(closed, Enqueue(a));
    hide Run, Next;
    RunAppend(START, open, y, closing, closed);
    RunAppend(START, open + closing, closed, [Enqueue(a)], z);
    steps := open + closing + [Enqueue(a)];
  }

  lemma CloseWithCaller(y: Conn, a: Name, m: Msg, z: Conn)
    requires y == Conn(Active, [], 0, false, Running, true, Looping, None, map[], [], [], [HandshakeAck])
    requires z == Conn(Closed, [], 1, true, Finished, false, Exited, None, map[a := Numbered(m, 1)], [], [], [HandshakeAck])
    ensures Run(y, [Check(a, m, true), TakeNumber(a), EndRead, Cancel, SeeCancel, EndDrain, CloseUp], z)
  {
    var steps := [Check(a, m, true), TakeNumber(a), EndRead, Cancel, SeeCancel, EndDrain, CloseUp];
    var y1 := Next(y, steps[0]);
    var y2 := Next(y1, steps[1]);
    var y3 := Next(y2, steps[2]);
    var y4 := Next(y3, steps[3]);
    var y5 := Next(y4, steps[4]);
    var y6 := Next(y5, steps[5]);
    assert Next(y6, steps[6]) == z;
    hide Next, Allowed;
    RunFrom(y6, steps[6..], z);
    RunFrom(y5, steps[5..], z);
    RunFrom(y4, steps[4..], z);
    RunFrom(y3, steps[3..], z);
    RunFrom(y2, steps[2..], z);
    RunFrom(y1, steps[1..], z);
    RunFrom(y, steps, z);
  }

  /** What the goroutines of the connection do by themselves, with every write going well. */
  predicate Own(step: Step) {
    || step.TakeFrame? || step == WriteFrame(true, true) || step.SeeCancel? || step.EndDrain? || step.CloseUp?
  }

  predicate AllOwn(steps: seq<Step>) {
    forall i :: 0 <= i < |steps| ==> Own(steps[i])
  }

  /** Reading has ended, and the write loop has stopped or will. */
  predicate Done(y: Conn) {
    !y.reading && (y.cancelled || y.writer.Exited?)
  }

  lemma OwnKeepsDone(y: Conn, step: Step)
    requires Staged(y) && Allowed(y, step) && Own(step)
    ensures Done(Next(y, step)) == Done(y)
    ensures Next(y, step).phase.Closed? ==> y.phase.Closed? || Done(y)
  {
  }

  lemma {:induction false} ClosesOnlyWhenDone(y: Conn, steps: seq<Step>, z: Conn)
    requires Inv(y) && Run(y, steps, z) && AllOwn(steps) && !y.phase.Closed? && z.phase.Closed?
    ensures Done(y)
    decreases |steps|
  {
    if steps != [] {
      var x := Next(y, steps[0]);
      StepKeepsInv(y, steps[0]);
      OwnKeepsDone(y, steps[0]);
      if !x.phase.Closed? {
        assert forall i :: 0 <= i < |steps[1..]| ==> steps[1..][i] == steps[i + 1];
        ClosesOnlyWhenDone(x, steps[1..], z);
      }
    }
  }

  /** Steps the connection still has to take. */
  function Left(y: Conn): nat {
    2 * |y.queue| + (if y.inHand.Some? then 1 else 0)
    + match y.writer
      case NotStarted => 3
      case Looping => 2
      case Draining => 1
      case Exited => 0
  }

  lemma {:induction false} DoneCloses(y: Conn) returns (steps: seq<Step>, z: Conn)
    requires Inv(y) && y.stage.Running? && Done(y)
    ensures Run(y, steps, z) && AllOwn(steps) && z.phase.Closed?
    decreases if y.writer.Exited? then 0 else 1, Left(y)
  {
    var step :=
      if y.writer.Exited? then CloseUp
      else if y.inHand.Some? then WriteFrame(true, true)
      else if y.writer.Looping? then SeeCancel
      else if y.queue != [] then TakeFrame
      else EndDrain;
    var x := Next(y, step);
    StepKeepsInv(y, step);
    if step.CloseUp? {
      One(y, step);
      steps, z := [step], x;
    } else {
      var more;
      more, z := DoneCloses(x);
      steps := [step] + more;
      assert steps[1..] == more;
      RunFrom(y, steps, z);
    }
  }

  ghost predicate Closes(y: Conn, steps: seq<Step>, z: Conn) {
    Run(y, steps, z) && AllOwn(steps) && z.phase.Closed?
  }

  /** A running connection can close by itself, its writes all going well, if and only if
      reading has ended and either the context has or the write loop has stopped. */
  lemma ClosesByItselfIff(y: Conn)
    requires Inv(y) && y.stage.Running?
    ensures Done(y) <==> exists steps, z :: Closes(y, steps, z)
  {
    hide Run, AllOwn, Done, NumbersUnique, Conserved, WireInOrder, StopsAtFailure;
    if Done(y) {
      var steps, z := DoneCloses(y);
      assert Closes(y, steps, z);
    }
    forall steps, z | Closes(y, steps, z) ensures Done(y) {
      ClosesOnlyWhenDone(y, steps, z);
    }
  }
}

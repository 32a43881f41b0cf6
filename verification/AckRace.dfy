/** One message of one session while submissions, timeouts and acknowledgements overlap: the
    connection takes the message before the session records it as pending, and what is asked is
    when an acknowledged message stays pending. */
module AckRace {
  import opened Names

  /** A caller between two parts of its call: the connection has taken the message, which is not
      recorded yet; or a timeout has found it pending. */
  datatype Part = Offered | Loaded

  datatype State = State(pending: bool, callers: map<Name, Part>)

  datatype Step =
    | Offer(caller: Name)     // Submit: the connection takes the message
    | Store(caller: Name)     // and the session records it
    | Ack(caller: Name)
    | Load(caller: Name)      // a timeout looks the message up
    | Resend(caller: Name)    // and the connection takes it again
    | Stall(caller: Name)     // or does not
    | GiveUp(caller: Name)    // or the limit is passed
    | Remove(caller: Name)    // RemovePendingAck or Close

  const START := State(false, map[])

  predicate Allowed(y: State, step: Step) {
    match step
    case Offer(c) => c !in y.callers
    case Store(c) => c in y.callers && y.callers[c].Offered?
    case Ack(c) => c !in y.callers
    case Load(c) => c !in y.callers
    case Resend(c) => c in y.callers && y.callers[c].Loaded?
    case Stall(c) => c in y.callers && y.callers[c].Loaded?
    case GiveUp(c) => c in y.callers && y.callers[c].Loaded?
    case Remove(c) => c !in y.callers
  }

  function Next(y: State, step: Step): State
    requires Allowed(y, step)
  {
    match step
    case Offer(c) => y.(callers := y.callers[c := Offered])
    case Store(c) => State(true, y.callers - {c})
    case Ack(_) => y.(pending := false)
    case Load(c) => if y.pending then y.(callers := y.callers[c := Loaded]) else y
    case Resend(c) => y.(callers := y.callers[c := Offered])
    case Stall(c) => y.(callers := y.callers - {c})
    case GiveUp(c) => State(false, y.callers - {c})
    case Remove(_) => y.(pending := false)
  }

  /** The states of a whole run, one before each step and one after the last. */
  ghost predicate Trace(ys: seq<State>, steps: seq<Step>) {
    && |ys| == |steps| + 1 && ys[0] == START
    && forall i :: 0 <= i < |steps| ==> Moves(ys, steps, i)
  }

  ghost predicate Moves(ys: seq<State>, steps: seq<Step>, i: nat)
    requires |ys| == |steps| + 1 && i < |steps|
  {
    Allowed(ys[i], steps[i]) && ys[i + 1] == Next(ys[i], steps[i])
  }

  predicate Deletes(step: Step) {
    step.Ack? || step.GiveUp? || step.Remove?
  }

  /** The connection takes the message, for the first time or again. */
  predicate Delivers(step: Step) {
    step.Offer? || step.Resend?
  }

  /** Step `i` records the message, and nothing deletes it again. */
  ghost predicate Lasts(steps: seq<Step>, i: nat, end: nat)
    requires end <= |steps|
  {
    i < end && steps[i].Store? && forall n: nat :: i < n < end ==> !Deletes(steps[n])
  }

  ghost predicate Recorded(steps: seq<Step>, end: nat)
    requires end <= |steps|
  {
    exists i: nat :: Lasts(steps, i, end)
  }

  lemma RecordedThen(steps: seq<Step>, last: nat, end: nat)
    requires last < |steps| && end == last + 1
    ensures Recorded(steps, end) <==> steps[last].Store? || (Recorded(steps, last) && !Deletes(steps[last]))
  {
    if steps[last].Store? {
      assert Lasts(steps, last, end);
    } else if Recorded(steps, last) && !Deletes(steps[last]) {
      var i: nat :| Lasts(steps, i, last);
      assert Lasts(steps, i, end);
    }
    if i: nat :| Lasts(steps, i, end) {
      assert i < last ==> Lasts(steps, i, last);
    }
  }

  /** Under every interleaving the message is pending exactly when it was recorded and nothing
      has deleted it since. */
  lemma {:induction false} PendingIff(ys: seq<State>, steps: seq<Step>, end: nat)
    requires Trace(ys, steps) && end <= |steps|
    ensures ys[end].pending <==> Recorded(steps, end)
    decreases end
  {
    if end > 0 {
      PendingIff(ys, steps, end - 1);
      assert Moves(ys, steps, end - 1);
      RecordedThen(steps, end - 1, end);
    }
  }

  lemma {:induction false} WasDelivered(ys: seq<State>, steps: seq<Step>, m: nat, caller: Name) returns (o: nat)
    requires Trace(ys, steps) && m <= |steps| && caller in ys[m].callers && ys[m].callers[caller].Offered?
    ensures o < m && Delivers(steps[o]) && steps[o].caller == caller
    decreases m
  {
    assert m > 0;
    assert Moves(ys, steps, m - 1);
    if Delivers(steps[m - 1]) && steps[m - 1].caller == caller {
      o := m - 1;
    } else {
      o := WasDelivered(ys, steps, m - 1, caller);
    }
  }

  lemma {:induction false} WasPending(ys: seq<State>, steps: seq<Step>, m: nat, caller: Name) returns (l: nat)
    requires Trace(ys, steps) && m <= |steps| && caller in ys[m].callers && ys[m].callers[caller].Loaded?
    ensures l < m && steps[l] == Load(caller) && ys[l].pending && Recorded(steps, l)
    decreases m
  {
    assert m > 0;
    assert Moves(ys, steps, m - 1);
    if steps[m - 1] == Load(caller) {
      l := m - 1;
      PendingIff(ys, steps, l);
    } else {
      l := WasPending(ys, steps, m - 1, caller);
    }
  }

  /** Only a message that was found pending is sent again, counted or given up: whoever does so
      has looked it up before, and at that moment it was recorded and not deleted. */
  lemma OnlyPendingIsResent(ys: seq<State>, steps: seq<Step>, m: nat)
    requires Trace(ys, steps) && m < |steps| && (steps[m].Resend? || steps[m].Stall? || steps[m].GiveUp?)
    ensures exists l: nat :: l < m && steps[l] == Load(steps[m].caller) && ys[l].pending && Recorded(steps, l)
  {
    assert Moves(ys, steps, m);
    var l := WasPending(ys, steps, m, steps[m].caller);
  }

  /** The acknowledgement at `a` comes between the delivery at `o` and its recording at `i`. */
  ghost predicate Overtakes(steps: seq<Step>, o: nat, a: nat, i: nat) {
    && o < a < i < |steps| && Delivers(steps[o]) && steps[i] == Store(steps[o].caller)
    && Lasts(steps, i, |steps|)
  }

  /** A message that is acknowledged, and not delivered again afterwards, is still pending if and
      only if the acknowledgement overtook the recording of a delivery. */
  lemma AcknowledgedStaysIff(ys: seq<State>, steps: seq<Step>, a: nat)
    requires Trace(ys, steps) && a < |steps| && steps[a].Ack?
    requires forall n: nat :: a < n < |steps| ==> !Delivers(steps[n])
    ensures ys[|steps|].pending <==> exists o: nat, i: nat :: Overtakes(steps, o, a, i)
  {
    PendingIff(ys, steps, |steps|);
    if i: nat :| Lasts(steps, i, |steps|) {
      assert Moves(ys, steps, i);
      var o := WasDelivered(ys, steps, i, steps[i].caller);
      assert Overtakes(steps, o, a, i);
    }
    assert forall o: nat, i: nat :: Overtakes(steps, o, a, i) ==> Lasts(steps, i, |steps|);
  }

  /** An acknowledgement that finds nobody between delivery and recording is final, until the
      message is delivered again. */
  lemma QuietAckIsFinal(ys: seq<State>, steps: seq<Step>, a: nat)
    requires Trace(ys, steps) && a < |steps| && steps[a].Ack?
    requires forall c :: c in ys[a].callers ==> !ys[a].callers[c].Offered?
    requires forall n: nat :: a < n < |steps| ==> !Delivers(steps[n])
    ensures !ys[|steps|].pending
  {
    StaysDeleted(ys, steps, a, |steps|);
  }

  lemma {:induction false} StaysDeleted(ys: seq<State>, steps: seq<Step>, a: nat, m: nat)
    requires Trace(ys, steps) && a < m <= |steps| && steps[a].Ack?
    requires forall c :: c in ys[a].callers ==> !ys[a].callers[c].Offered?
    requires forall n: nat :: a < n < |steps| ==> !Delivers(steps[n])
    ensures !ys[m].pending && forall c :: c in ys[m].callers ==> !ys[m].callers[c].Offered?
    decreases m
  {
    assert Moves(ys, steps, m - 1);
    if a + 1 < m {
      StaysDeleted(ys, steps, a, m - 1);
    }
  }

  /** A client that answers before the session has recorded the message. */
  lemma AckOvertakesStore() returns (ys: seq<State>, steps: seq<Step>)
    ensures steps == [Offer(Name(1)), Ack(Name(2)), Store(Name(1))]
    ensures Trace(ys, steps) && ys[3] == State(true, map[])
  {
    var a, b := Name(1), Name(2);
    steps := [Offer(a), Ack(b), Store(a)];
    ys := [START, State(false, map[a := Offered]), State(false, map[a := Offered]), State(true, map[])];
    assert Moves(ys, steps, 0);
    assert Moves(ys, steps, 1);
    assert Moves(ys, steps, 2);
  }

  /** A timeout that has found the message pending sends it again although it is acknowledged
      meanwhile, and it is pending once more. */
  lemma ResentAfterAck() returns (ys: seq<State>, steps: seq<Step>)
    ensures steps == [Offer(Name(1)), Store(Name(1)), Load(Name(1)), Ack(Name(2)), Resend(Name(1)), Store(Name(1))]
    ensures Trace(ys, steps) && ys[6] == State(true, map[])
  {
    var a, b := Name(1), Name(2);
    steps := [Offer(a), Store(a), Load(a), Ack(b), Resend(a), Store(a)];
    ys := [START, State(false, map[a := Offered]), State(true, map[]), State(true, map[a := Loaded]),
           State(false, map[a := Loaded]), State(false, map[a := Offered]), State(true, map[])];
    assert Moves(ys, steps, 0);
    assert Moves(ys, steps, 1);
    assert Moves(ys, steps, 2);
    assert Moves(ys, steps, 3);
    assert Moves(ys, steps, 4);
    assert Moves(ys, steps, 5);
  }
}

/** One session whose rooms are joined and left while its connection comes and goes: the parts
    of JoinRoom, LeaveRoom, AttachConn, DetachConn, onClose and Close are interleaved, and what
    is asked is when a detached session stays in a room of the router, and when a connected one
    is in other rooms than it subscribed to. */
module SessionRace {
  import opened Names

  /** A caller between two parts of its call. */
  datatype Part =
    | Added(room: Name)             // JoinRoom has remembered the room
    | MayJoin(room: Name)           // and has found a connection
    | Dropped(room: Name)           // LeaveRoom has forgotten the room
    | MayLeave(room: Name)          // and has found a connection
    | Opened                        // AttachConn has set the connection
    | Restoring(todo: set<Name>)    // and has copied the rooms to join
    | Sweeping(closing: bool)       // DetachConn has taken a connection away, perhaps for onClose
    | Clearing                      // onClose has detached, or Close has found a connection

  datatype State = State(
    connected: bool,          // conn != nil
    rooms: set<Name>,         // the subscriptions
    members: set<Name>,       // the rooms of the router that hold the session
    callers: map<Name, Part>)

  datatype Step =
    | BeginJoin(caller: Name, room: Name)
    | CheckJoin(caller: Name)
    | EndJoin(caller: Name)
    | BeginLeave(caller: Name, room: Name)
    | CheckLeave(caller: Name)
    | EndLeave(caller: Name)
    | BeginAttach(caller: Name)
    | Snapshot(caller: Name)
    | Restore(caller: Name, room: Name)
    | EndAttach(caller: Name)
    | BeginDetach(caller: Name, closing: bool)
    | EndDetach(caller: Name)
    | BeginClose(caller: Name)
    | Clear(caller: Name)

  const START := State(false, {}, {}, map[])

  predicate Allowed(y: State, step: Step) {
    match step
    case BeginJoin(c, _) => c !in y.callers
    case CheckJoin(c) => c in y.callers && y.callers[c].Added?
    case EndJoin(c) => c in y.callers && y.callers[c].MayJoin?
    case BeginLeave(c, _) => c !in y.callers
    case CheckLeave(c) => c in y.callers && y.callers[c].Dropped?
    case EndLeave(c) => c in y.callers && y.callers[c].MayLeave?
    case BeginAttach(c) => c !in y.callers
    case Snapshot(c) => c in y.callers && y.callers[c].Opened?
    case Restore(c, room) => c in y.callers && y.callers[c].Restoring? && room in y.callers[c].todo
    case EndAttach(c) => c in y.callers && y.callers[c] == Restoring({})
    case BeginDetach(c, _) => c !in y.callers
    case EndDetach(c) => c in y.callers && y.callers[c].Sweeping?
    case BeginClose(c) => c !in y.callers
    case Clear(c) => c in y.callers && y.callers[c].Clearing?
  }

  function Next(y: State, step: Step): State
    requires Allowed(y, step)
  {
    match step
    case BeginJoin(c, room) => y.(rooms := y.rooms + {room}, callers := y.callers[c := Added(room)])
    case CheckJoin(c) =>
      y.(callers := if y.connected then y.callers[c := MayJoin(y.callers[c].room)] else y.callers - {c})
    case EndJoin(c) => y.(members := y.members + {y.callers[c].room}, callers := y.callers - {c})
    case BeginLeave(c, room) => y.(rooms := y.rooms - {room}, callers := y.callers[c := Dropped(room)])
    case CheckLeave(c) =>
      y.(callers := if y.connected then y.callers[c := MayLeave(y.callers[c].room)] else y.callers - {c})
    case EndLeave(c) => y.(members := y.members - {y.callers[c].room}, callers := y.callers - {c})
    case BeginAttach(c) => y.(connected := true, callers := y.callers[c := Opened])
    case Snapshot(c) => y.(callers := y.callers[c := Restoring(y.rooms)])
    case Restore(c, room) =>
      y.(members := y.members + {room}, callers := y.callers[c := Restoring(y.callers[c].todo - {room})])
    case EndAttach(c) => y.(callers := y.callers - {c})
    case BeginDetach(c, closing) =>
      y.(connected := false,
         callers := if y.connected then y.callers[c := Sweeping(closing)]
                    else if closing then y.callers[c := Clearing]
                    else y.callers)
    case EndDetach(c) =>
      y.(members := {}, callers := if y.callers[c].closing then y.callers[c := Clearing] else y.callers - {c})
    case BeginClose(c) => if y.connected then y.(callers := y.callers[c := Clearing]) else y
    case Clear(c) => y.(members := {}, callers := y.callers - {c})
  }

  /** The states of a whole run, one before each step and one after the last. */
  ghost predicate Trace(ys: seq<State>, steps: seq<Step>) {
    && |ys| == |steps| + 1 && ys[0] == START
    && forall i :: 0 <= i < |steps| ==> Moves(ys, steps, i)
  }

  ghost predicate Moves(ys: seq<State>, steps: seq<Step>, i: nat)
    requires |ys| == |steps| + 1 && i < |steps|
  {
    Allowed(ys[i], steps[i]) && ys[i + 1] == Next(ys[i], steps[i])
  }

  /** The step files the session under the room. */
  predicate Puts(y: State, step: Step, room: Name)
    requires Allowed(y, step)
  {
    match step
    case EndJoin(c) => y.callers[c].room == room
    case Restore(_, r) => r == room
    case _ => false
  }

  /** The step takes the session out of the room. */
  predicate Takes(y: State, step: Step, room: Name)
    requires Allowed(y, step)
  {
    match step
    case EndLeave(c) => y.callers[c].room == room
    case EndDetach(_) => true
    case Clear(_) => true
    case _ => false
  }

  /** Step `i` files the session under the room, and nothing takes it out again. */
  ghost predicate Lasts(ys: seq<State>, steps: seq<Step>, i: nat, end: nat, room: Name)
    requires Trace(ys, steps) && end <= |steps|
  {
    && i < end && Moves(ys, steps, i) && Puts(ys[i], steps[i], room)
    && forall n: nat :: i < n < end ==> Moves(ys, steps, n) && !Takes(ys[n], steps[n], room)
  }

  lemma LastsLonger(ys: seq<State>, steps: seq<Step>, i: nat, last: nat, room: Name)
    requires Trace(ys, steps) && i < last < |steps| && Moves(ys, steps, last)
    ensures Lasts(ys, steps, i, last + 1, room) <==> Lasts(ys, steps, i, last, room) && !Takes(ys[last], steps[last], room)
  {
    hide Next, Allowed, Puts, Takes, Trace;
  }

  /** Somebody filed the session under the room, and nothing has taken it out since. */
  ghost predicate Filed(ys: seq<State>, steps: seq<Step>, end: nat, room: Name)
    requires Trace(ys, steps) && end <= |steps|
  {
    exists i: nat :: Lasts(ys, steps, i, end, room)
  }

  lemma FiledThen(ys: seq<State>, steps: seq<Step>, last: nat, end: nat, room: Name)
    requires Trace(ys, steps) && last < |steps| && end == last + 1 && Moves(ys, steps, last)
    ensures Filed(ys, steps, end, room) <==>
      Puts(ys[last], steps[last], room) || (Filed(ys, steps, last, room) && !Takes(ys[last], steps[last], room))
  {
    hide Next, Allowed, Puts, Takes;
    if Puts(ys[last], steps[last], room) {
      assert Lasts(ys, steps, last, end, room);
    } else if Filed(ys, steps, last, room) && !Takes(ys[last], steps[last], room) {
      var i: nat :| Lasts(ys, steps, i, last, room);
      LastsLonger(ys, steps, i, last, room);
    }
    if i: nat :| Lasts(ys, steps, i, end, room) {
      if i < last {
        LastsLonger(ys, steps, i, last, room);
      }
    }
  }

  lemma NothingFiledYet(ys: seq<State>, steps: seq<Step>, room: Name)
    requires Trace(ys, steps)
    ensures ys[0].members == {} && !Filed(ys, steps, 0, room)
  {
  }

  lemma {:induction false} MemberIff(ys: seq<State>, steps: seq<Step>, end: nat, room: Name)
    requires Trace(ys, steps) && end <= |steps|
    ensures room in ys[end].members <==> Filed(ys, steps, end, room)
    decreases end
  {
    hide Filed, Moves, Lasts;
    if end == 0 {
      NothingFiledYet(ys, steps, room);
    } else {
      MemberIff(ys, steps, end - 1, room);
      MemberLonger(ys, steps, end - 1, room);
    }
  }

  lemma MemberLonger(ys: seq<State>, steps: seq<Step>, last: nat, room: Name)
    requires Trace(ys, steps) && last < |steps|
    requires room in ys[last].members <==> Filed(ys, steps, last, room)
    ensures room in ys[last + 1].members <==> Filed(ys, steps, last + 1, room)
  {
    hide Next, Allowed, Puts, Takes, Filed, Lasts;
    assert Moves(ys, steps, last);
    MemberStep(ys[last], steps[last], room);
    FiledThen(ys, steps, last, last + 1, room);
  }

  lemma MemberStep(y: State, step: Step, room: Name)
    requires Allowed(y, step)
    ensures room in Next(y, step).members <==> Puts(y, step, room) || (room in y.members && !Takes(y, step, room))
  {
  }

  /** The caller finds a connection, or brings one. */
  ghost predicate Finds(ys: seq<State>, steps: seq<Step>, k: nat, caller: Name)
    requires |ys| == |steps| + 1
  {
    k < |steps| && ((steps[k] == CheckJoin(caller) && ys[k].connected) || steps[k] == BeginAttach(caller))
  }

  predicate WillPut(part: Part) {
    part.MayJoin? || part.Opened? || part.Restoring?
  }

  /** Between `k` and `m` the caller is in the part of its call that ends in filing the session. */
  ghost predicate Inside(ys: seq<State>, k: nat, m: nat, caller: Name) {
    forall n: nat :: k < n <= m && n < |ys| ==> caller in ys[n].callers && WillPut(ys[n].callers[caller])
  }

  /** Whoever is about to file the session has found a connection before. */
  lemma {:induction false} FoundBefore(ys: seq<State>, steps: seq<Step>, m: nat, caller: Name) returns (k: nat)
    requires Trace(ys, steps) && m <= |steps| && caller in ys[m].callers && WillPut(ys[m].callers[caller])
    ensures k < m && Finds(ys, steps, k, caller) && Inside(ys, k, m, caller)
    decreases m
  {
    assert m > 0;
    var last: nat := m - 1;
    assert Moves(ys, steps, last);
    if Finds(ys, steps, last, caller) {
      k := last;
    } else {
      StillWillPut(ys[last], steps[last], caller);
      k := FoundBefore(ys, steps, last, caller);
    }
  }

  lemma StillWillPut(y: State, step: Step, caller: Name)
    requires Allowed(y, step) && caller in Next(y, step).callers && WillPut(Next(y, step).callers[caller])
    requires !(step == CheckJoin(caller) && y.connected) && step != BeginAttach(caller)
    ensures caller in y.callers && WillPut(y.callers[caller])
  {
  }

  /** A session that had a connection and ends without one lost it at a last detach. */
  lemma {:induction false} LastDetach(ys: seq<State>, steps: seq<Step>, k: nat, end: nat) returns (d: nat)
    requires Trace(ys, steps) && k <= end <= |steps| && ys[k].connected && !ys[end].connected
    ensures k <= d < end && steps[d].BeginDetach? && ys[d].connected
    decreases end
  {
    var last: nat := end - 1;
    assert Moves(ys, steps, last);
    if ys[last].connected {
      d := last;
    } else {
      d := LastDetach(ys, steps, k, last);
    }
  }

  lemma {:induction false} SweepingUntil(ys: seq<State>, steps: seq<Step>, d: nat, m: nat, caller: Name, closing: bool)
    requires Trace(ys, steps) && d < m <= |steps| && steps[d] == BeginDetach(caller, closing) && ys[d].connected
    requires forall e: nat :: d < e < m ==> steps[e] != EndDetach(caller)
    ensures caller in ys[m].callers && ys[m].callers[caller] == Sweeping(closing)
    decreases m
  {
    assert Moves(ys, steps, m - 1);
    if d + 1 < m {
      SweepingUntil(ys, steps, d, m - 1, caller, closing);
    }
  }

  lemma {:induction false} ClearingUntil(ys: seq<State>, steps: seq<Step>, e: nat, m: nat, caller: Name)
    requires Trace(ys, steps) && e < m <= |steps| && steps[e] == EndDetach(caller)
    requires caller in ys[e].callers && ys[e].callers[caller] == Sweeping(true)
    requires forall n: nat :: e < n < m ==> steps[n] != Clear(caller)
    ensures caller in ys[m].callers && ys[m].callers[caller] == Clearing
    decreases m
  {
    assert Moves(ys, steps, m - 1);
    if e + 1 < m {
      ClearingUntil(ys, steps, e, m - 1, caller);
    }
  }

  /** Step `e` is the last clearing of the router that belongs to the detach at `d`. */
  ghost predicate Clears(steps: seq<Step>, d: nat, e: nat) {
    && d < e < |steps| && steps[d].BeginDetach?
    && steps[e] == if steps[d].closing then Clear(steps[d].caller) else EndDetach(steps[d].caller)
  }

  lemma FirstSweep(ys: seq<State>, steps: seq<Step>, d: nat, caller: Name, closing: bool) returns (e: nat)
    requires Trace(ys, steps) && d < |steps| && steps[d] == BeginDetach(caller, closing) && ys[d].connected
    requires caller !in ys[|steps|].callers
    ensures d < e < |steps| && steps[e] == EndDetach(caller) && caller in ys[e].callers && ys[e].callers[caller] == Sweeping(closing)
  {
    hide Trace;
    if forall n: nat :: d < n < |steps| ==> steps[n] != EndDetach(caller) {
      SweepingUntil(ys, steps, d, |steps|, caller, closing);
    }
    var n: nat :| d < n < |steps| && steps[n] == EndDetach(caller);
    e := FirstOf(steps, d + 1, n, EndDetach(caller));
    SweepingUntil(ys, steps, d, e, caller, closing);
  }

  lemma {:induction false} FirstOf(steps: seq<Step>, low: nat, high: nat, step: Step) returns (n: nat)
    requires low <= high < |steps| && steps[high] == step
    ensures low <= n <= high && steps[n] == step
    ensures forall m: nat :: low <= m < n ==> steps[m] != step
    decreases high - low
  {
    if steps[low] == step {
      n := low;
    } else {
      n := FirstOf(steps, low + 1, high, step);
    }
  }

  /** A detach that took a connection away clears the router before it is over, twice for onClose. */
  lemma ClearFollows(ys: seq<State>, steps: seq<Step>, d: nat) returns (e: nat)
    requires Trace(ys, steps) && d < |steps| && steps[d].BeginDetach? && ys[d].connected
    requires steps[d].caller !in ys[|steps|].callers
    ensures Clears(steps, d, e)
  {
    var caller := steps[d].caller;
    e := FirstSweep(ys, steps, d, caller, steps[d].closing);
    hide Trace;
    if steps[d].closing {
      if forall n: nat :: e < n < |steps| ==> steps[n] != Clear(caller) {
        ClearingUntil(ys, steps, e, |steps|, caller);
      }
      var n: nat :| e < n < |steps| && steps[n] == Clear(caller);
      e := n;
    }
  }

  /** A call that found a connection at `k` files the session at `i`; in between a detach takes
      the connection away at `d` and is done clearing the router at `e`. Nothing takes the
      session out again. */
  ghost predicate Slips(ys: seq<State>, steps: seq<Step>, k: nat, d: nat, e: nat, i: nat, room: Name)
    requires Trace(ys, steps)
  {
    && k < d < e < i < |steps|
    && Finds(ys, steps, k, steps[i].caller) && Inside(ys, k, i, steps[i].caller)
    && ys[d].connected && Clears(steps, d, e)
    && Lasts(ys, steps, i, |steps|, room)
  }

  /** When all calls are over and the session is detached, it is still in a room of the router
      if and only if somebody filed it there after the last clearing of the detach, having found
      a connection before the detach, and nothing has taken it out since. */
  lemma StaysIff(ys: seq<State>, steps: seq<Step>, room: Name)
    requires Trace(ys, steps) && ys[|steps|].callers == map[] && !ys[|steps|].connected
    ensures room in ys[|steps|].members <==> exists k: nat, d: nat, e: nat, i: nat :: Slips(ys, steps, k, d, e, i, room)
  {
    hide Trace, Lasts, Finds, Inside, Clears;
    MemberIff(ys, steps, |steps|, room);
    assert forall k: nat, d: nat, e: nat, i: nat :: Slips(ys, steps, k, d, e, i, room) ==> Lasts(ys, steps, i, |steps|, room);
    if i: nat :| Lasts(ys, steps, i, |steps|, room) {
      var k, d, e := HowItSlipped(ys, steps, i, room);
      assert Slips(ys, steps, k, d, e, i, room);
    }
  }

  lemma HowItSlipped(ys: seq<State>, steps: seq<Step>, i: nat, room: Name) returns (k: nat, d: nat, e: nat)
    requires Trace(ys, steps) && ys[|steps|].callers == map[] && !ys[|steps|].connected
    requires Lasts(ys, steps, i, |steps|, room)
    ensures Slips(ys, steps, k, d, e, i, room)
  {
    PutterWillPut(ys[i], steps[i], room);
    k := FoundBefore(ys, steps, i, steps[i].caller);
    assert Moves(ys, steps, k);
    var from: nat := if ys[k].connected then k else k + 1;
    d := LastDetach(ys, steps, from, |steps|);
    assert d != k;
    e := ClearFollows(ys, steps, d);
    assert Moves(ys, steps, e) && Takes(ys[e], steps[e], room);
  }

  lemma PutterWillPut(y: State, step: Step, room: Name)
    requires Allowed(y, step) && Puts(y, step, room)
    ensures step.caller in y.callers && WillPut(y.callers[step.caller])
  {
  }

  lemma ExtendTrace(ys: seq<State>, steps: seq<Step>, step: Step, z: State)
    requires Trace(ys, steps) && Allowed(ys[|steps|], step) && z == Next(ys[|steps|], step)
    ensures Trace(ys + [z], steps + [step]) && (ys + [z])[|steps| + 1] == z
  {
    var zs, more := ys + [z], steps + [step];
    hide Next, Allowed;
    forall i | 0 <= i < |more| ensures Moves(zs, more, i) {
      assert i < |steps| ==> Moves(ys, steps, i);
    }
  }

  lemma AttachedWithNoRooms(a: Name) returns (ys: seq<State>, steps: seq<Step>)
    ensures Trace(ys, steps) && ys[|steps|] == State(true, {}, {}, map[])
  {
    ys, steps := [START], [];
    var y1 := Next(START, BeginAttach(a));
    ExtendTrace(ys, steps, BeginAttach(a), y1);
    ys, steps := ys + [y1], steps + [BeginAttach(a)];
    var y2 := Next(y1, Snapshot(a));
    ExtendTrace(ys, steps, Snapshot(a), y2);
    ys, steps := ys + [y2], steps + [Snapshot(a)];
    var y3 := Next(y2, EndAttach(a));
    ExtendTrace(ys, steps, EndAttach(a), y3);
    ys, steps := ys + [y3], steps + [EndAttach(a)];
    assert y3.callers == map[];
  }

  lemma JoiningWhileDetached(a: Name, b: Name, room: Name) returns (ys: seq<State>, steps: seq<Step>)
    requires a != b
    ensures Trace(ys, steps) && ys[|steps|] == State(false, {room}, {}, map[a := MayJoin(room), b := Sweeping(true)])
  {
    hide Trace;
    ys, steps := AttachedWithNoRooms(a);
    var y1 := Next(ys[|steps|], BeginJoin(a, room));
    ExtendTrace(ys, steps, BeginJoin(a, room), y1);
    ys, steps := ys + [y1], steps + [BeginJoin(a, room)];
    var y2 := Next(y1, CheckJoin(a));
    ExtendTrace(ys, steps, CheckJoin(a), y2);
    ys, steps := ys + [y2], steps + [CheckJoin(a)];
    var y3 := Next(y2, BeginDetach(b, true));
    ExtendTrace(ys, steps, BeginDetach(b, true), y3);
    ys, steps := ys + [y3], steps + [BeginDetach(b, true)];
    assert y2.callers == map[a := MayJoin(room)];
  }

  /** Such a run: a JoinRoom passes its check, the connection closes, and the join is carried out
      after onClose has cleared the router twice. */
  lemma JoinSlipsPastBoth(room: Name) returns (ys: seq<State>, steps: seq<Step>)
    ensures Trace(ys, steps) && ys[|steps|] == State(false, {room}, {room}, map[])
    ensures |steps| >= 3 && steps[|steps| - 3].EndDetach? && steps[|steps| - 2].Clear? && steps[|steps| - 1].EndJoin?
  {
    var a, b := Name(1), Name(2);
    ys, steps := JoiningWhileDetached(a, b, room);
    var y1 := Next(ys[|steps|], EndDetach(b));
    ExtendTrace(ys, steps, EndDetach(b), y1);
    ys, steps := ys + [y1], steps + [EndDetach(b)];
    var y2 := Next(y1, Clear(b));
    ExtendTrace(ys, steps, Clear(b), y2);
    ys, steps := ys + [y2], steps + [Clear(b)];
    assert y2.callers == map[a := MayJoin(room)];
    var y3 := Next(y2, EndJoin(a));
    ExtendTrace(ys, steps, EndJoin(a), y3);
    ys, steps := ys + [y3], steps + [EndJoin(a)];
    assert y3.callers == map[];
  }

  lemma NobodySlips(ys: seq<State>, steps: seq<Step>, k: nat, d: nat, e: nat, i: nat, room: Name)
    requires Trace(ys, steps) && Slips(ys, steps, k, d, e, i, room)
    ensures e < |steps| && steps[i].caller in ys[e].callers && WillPut(ys[e].callers[steps[i].caller])
    ensures steps[e].EndDetach? || steps[e].Clear?
  {
    hide Lasts, Finds;
  }

  /** Without such overtaking nothing stays: if whenever the router is cleared nobody else is
      between finding a connection and filing the session, a detached session is in no room. */
  lemma QuietClearingsClean(ys: seq<State>, steps: seq<Step>)
    requires Trace(ys, steps) && ys[|steps|].callers == map[] && !ys[|steps|].connected
    requires forall e: nat, c :: e < |steps| && (steps[e].EndDetach? || steps[e].Clear?) && c in ys[e].callers ==>
      !WillPut(ys[e].callers[c])
    ensures ys[|steps|].members == {}
  {
    forall room ensures room !in ys[|steps|].members {
      NoneStays(ys, steps, room);
    }
  }

  lemma NoneStays(ys: seq<State>, steps: seq<Step>, room: Name)
    requires Trace(ys, steps) && ys[|steps|].callers == map[] && !ys[|steps|].connected
    requires forall e: nat, c :: e < |steps| && (steps[e].EndDetach? || steps[e].Clear?) && c in ys[e].callers ==>
      !WillPut(ys[e].callers[c])
    ensures room !in ys[|steps|].members
  {
    hide Slips, WillPut;
    StaysIff(ys, steps, room);
    if k: nat, d: nat, e: nat, i: nat :| Slips(ys, steps, k, d, e, i, room) {
      NobodySlips(ys, steps, k, d, e, i, room);
      assert false;
    }
  }

  // ---- Membership and subscriptions -----------------------------------------------------

  /** Step `j` of a JoinRoom remembers the room, and nothing makes the session forget it again. */
  ghost predicate Remembers(steps: seq<Step>, j: nat, end: nat, room: Name)
    requires end <= |steps|
  {
    && j < end && steps[j].BeginJoin? && steps[j].room == room
    && forall n: nat :: j < n < end ==> !(steps[n].BeginLeave? && steps[n].room == room)
  }

  ghost predicate Remembered(steps: seq<Step>, end: nat, room: Name)
    requires end <= |steps|
  {
    exists j: nat :: Remembers(steps, j, end, room)
  }

  lemma RememberedThen(steps: seq<Step>, last: nat, end: nat, room: Name)
    requires last < |steps| && end == last + 1
    ensures Remembered(steps, end, room) <==>
      || (steps[last].BeginJoin? && steps[last].room == room)
      || (Remembered(steps, last, room) && !(steps[last].BeginLeave? && steps[last].room == room))
  {
    if steps[last].BeginJoin? && steps[last].room == room {
      assert Remembers(steps, last, end, room);
    } else if Remembered(steps, last, room) && !(steps[last].BeginLeave? && steps[last].room == room) {
      var j: nat :| Remembers(steps, j, last, room);
      assert Remembers(steps, j, end, room);
    }
    if j: nat :| Remembers(steps, j, end, room) {
      assert j < last ==> Remembers(steps, j, last, room);
    }
  }

  lemma {:induction false} RoomIff(ys: seq<State>, steps: seq<Step>, end: nat, room: Name)
    requires Trace(ys, steps) && end <= |steps|
    ensures room in ys[end].rooms <==> Remembered(steps, end, room)
    decreases end
  {
    if end > 0 {
      var last: nat := end - 1;
      RoomIff(ys, steps, last, room);
      assert Moves(ys, steps, last);
      RoomStep(ys[last], steps[last], room);
      RememberedThen(steps, last, end, room);
    }
  }

  lemma RoomStep(y: State, step: Step, room: Name)
    requires Allowed(y, step)
    ensures room in Next(y, step).rooms <==>
      || (step.BeginJoin? && step.room == room)
      || (room in y.rooms && !(step.BeginLeave? && step.room == room))
  {
  }

  /** In every state the session is in exactly the rooms it subscribed to if and only if, for
      each room, the last filing outlives all takings exactly when the last join outlives all leaves. */
  lemma MembersAreRoomsIff(ys: seq<State>, steps: seq<Step>, end: nat)
    requires Trace(ys, steps) && end <= |steps|
    ensures ys[end].members == ys[end].rooms <==> forall room :: Filed(ys, steps, end, room) <==> Remembered(steps, end, room)
  {
    hide Filed, Remembered;
    forall room
      ensures room in ys[end].members <==> Filed(ys, steps, end, room)
      ensures room in ys[end].rooms <==> Remembered(steps, end, room)
    {
      MemberIff(ys, steps, end, room);
      RoomIff(ys, steps, end, room);
    }
  }

  /** What one call at a time leaves to do, when Close is not called. */
  ghost predicate InHand(y: State) {
    if y.callers == map[] then y.members == if y.connected then y.rooms else {}
    else forall c :: c in y.callers ==> PartInHand(y, y.callers[c])
  }

  predicate PartInHand(y: State, part: Part) {
    match part
    case Added(room) => room in y.rooms && if y.connected then y.rooms == y.members + {room} else y.members == {}
    case MayJoin(room) => y.connected && room in y.rooms && y.rooms == y.members + {room}
    case Dropped(room) => room !in y.rooms && if y.connected then y.rooms == y.members - {room} else y.members == {}
    case MayLeave(room) => y.connected && y.rooms == y.members - {room}
    case Opened => y.connected && y.members <= y.rooms
    case Restoring(todo) => y.connected && y.rooms == y.members + todo
    case Sweeping(_) => !y.connected
    case Clearing => !y.connected
  }

  predicate Alone(y: State, step: Step) {
    forall c :: c in y.callers ==> c == step.caller
  }

  lemma OneCallStep(y: State, step: Step)
    requires Allowed(y, step) && InHand(y) && Alone(y, step) && !step.BeginClose?
    ensures InHand(Next(y, step))
  {
    var z := Next(y, step);
    if step.caller !in y.callers {
      assert y.callers == map[];
    } else {
      assert PartInHand(y, y.callers[step.caller]);
      if step.caller !in z.callers {
        assert z.callers == map[];
      }
    }
  }

  /** Calls that follow one another keep the session in exactly the rooms it subscribed to while
      it is connected, and in none while it is not. */
  lemma {:induction false} CallsInTurnAgree(ys: seq<State>, steps: seq<Step>, end: nat)
    requires Trace(ys, steps) && end <= |steps|
    requires forall n: nat :: n < end ==> Alone(ys[n], steps[n]) && !steps[n].BeginClose?
    ensures InHand(ys[end])
    ensures ys[end].callers == map[] ==> ys[end].members == if ys[end].connected then ys[end].rooms else {}
    decreases end
  {
    if end > 0 {
      CallsInTurnAgree(ys, steps, end - 1);
      assert Moves(ys, steps, end - 1);
      OneCallStep(ys[end - 1], steps[end - 1]);
    }
  }

  lemma DetachedWithRoom(a: Name, room: Name) returns (ys: seq<State>, steps: seq<Step>)
    ensures Trace(ys, steps) && ys[|steps|] == State(false, {room}, {}, map[])
  {
    ys, steps := [START], [];
    var y1 := Next(START, BeginJoin(a, room));
    ExtendTrace(ys, steps, BeginJoin(a, room), y1);
    ys, steps := ys + [y1], steps + [BeginJoin(a, room)];
    var y2 := Next(y1, CheckJoin(a));
    ExtendTrace(ys, steps, CheckJoin(a), y2);
    ys, steps := ys + [y2], steps + [CheckJoin(a)];
    assert y2.callers == map[];
  }

  lemma LeftWhileRestoring(a: Name, b: Name, room: Name) returns (ys: seq<State>, steps: seq<Step>)
    requires a != b
    ensures Trace(ys, steps) && ys[|steps|] == State(true, {}, {}, map[a := Restoring({room})])
  {
    hide Trace;
    ys, steps := DetachedWithRoom(a, room);
    var y1 := Next(ys[|steps|], BeginAttach(a));
    ExtendTrace(ys, steps, BeginAttach(a), y1);
    ys, steps := ys + [y1], steps + [BeginAttach(a)];
    var y2 := Next(y1, Snapshot(a));
    ExtendTrace(ys, steps, Snapshot(a), y2);
    ys, steps := ys + [y2], steps + [Snapshot(a)];
    var y3 := Next(y2, BeginLeave(b, room));
    ExtendTrace(ys, steps, BeginLeave(b, room), y3);
    ys, steps := ys + [y3], steps + [BeginLeave(b, room)];
    var y4 := Next(y3, CheckLeave(b));
    ExtendTrace(ys, steps, CheckLeave(b), y4);
    ys, steps := ys + [y4], steps + [CheckLeave(b)];
    var y5 := Next(y4, EndLeave(b));
    ExtendTrace(ys, steps, EndLeave(b), y5);
    ys, steps := ys + [y5], steps + [EndLeave(b)];
    assert y5.callers == map[a := Restoring({room})];
  }

  /** A run that ends connected, with no call in progress, in a room the client has left: the
      leave was over before the attach filed the session from its copy of the rooms. */
  lemma LeaveIsUndone(room: Name) returns (ys: seq<State>, steps: seq<Step>)
    ensures Trace(ys, steps) && ys[|steps|] == State(true, {}, {room}, map[])
  {
    var a, b := Name(1), Name(2);
    ys, steps := LeftWhileRestoring(a, b, room);
    var y1 := Next(ys[|steps|], Restore(a, room));
    ExtendTrace(ys, steps, Restore(a, room), y1);
    ys, steps := ys + [y1], steps + [Restore(a, room)];
    var y2 := Next(y1, EndAttach(a));
    ExtendTrace(ys, steps, EndAttach(a), y2);
    ys, steps := ys + [y2], steps + [EndAttach(a)];
    assert y2.callers == map[];
  }

  // ---- Who clears ---------------------------------------------------------------------

  lemma {:induction false} PartHasBegun(ys: seq<State>, steps: seq<Step>, m: nat, caller: Name) returns (b: nat)
    requires Trace(ys, steps) && m <= |steps| && caller in ys[m].callers
    requires ys[m].callers[caller].Sweeping? || ys[m].callers[caller].Clearing?
    ensures b < m
    ensures ys[m].callers[caller].Sweeping? ==>
      steps[b] == BeginDetach(caller, ys[m].callers[caller].closing) && ys[b].connected
    ensures ys[m].callers[caller].Clearing? ==>
      steps[b] == BeginDetach(caller, true) || (steps[b] == BeginClose(caller) && ys[b].connected)
    decreases m
  {
    assert m > 0;
    assert Moves(ys, steps, m - 1);
    var last := steps[m - 1];
    if last.caller == caller && (last.BeginDetach? || last.BeginClose?) {
      b := m - 1;
    } else {
      b := PartHasBegun(ys, steps, m - 1, caller);
    }
  }

  /** The router is cleared by onClose, and by a Close that found a connection, and by nobody else. */
  lemma OnlyClosersClear(ys: seq<State>, steps: seq<Step>, m: nat)
    requires Trace(ys, steps) && m < |steps| && steps[m].Clear?
    ensures exists b: nat ::
      && b < m
      && (steps[b] == BeginDetach(steps[m].caller, true) || (steps[b] == BeginClose(steps[m].caller) && ys[b].connected))
  {
    assert Moves(ys, steps, m);
    var b := PartHasBegun(ys, steps, m, steps[m].caller);
  }

  lemma {:induction false} StillClosing(ys: seq<State>, steps: seq<Step>, b: nat, m: nat, caller: Name)
    requires Trace(ys, steps) && b < m <= |steps|
    requires steps[b] == BeginDetach(caller, true) || (steps[b] == BeginClose(caller) && ys[b].connected)
    requires forall k :: b < k < m ==> steps[k] != Clear(caller)
    ensures caller in ys[m].callers && (ys[m].callers[caller] == Sweeping(true) || ys[m].callers[caller].Clearing?)
    decreases m
  {
    assert Moves(ys, steps, m - 1);
    if b < m - 1 {
      StillClosing(ys, steps, b, m - 1, caller);
    }
  }

  /** Every onClose, whether or not the session was connected, and every Close that found a
      connection has cleared the router by the time it has returned. */
  lemma ClosersClear(ys: seq<State>, steps: seq<Step>, b: nat, m: nat, caller: Name)
    requires Trace(ys, steps) && b < m <= |steps| && caller !in ys[m].callers
    requires steps[b] == BeginDetach(caller, true) || (steps[b] == BeginClose(caller) && ys[b].connected)
    ensures exists k :: b < k < m && steps[k] == Clear(caller)
  {
    if forall k :: b < k < m ==> steps[k] != Clear(caller) {
      StillClosing(ys, steps, b, m, caller);
    }
  }
}

/** The wheel of wheel.go: a heap that keeps dead tasks until they reach the root, a map
    from key to the task that owns it, and a one-slot wake channel. */
module TimerWheel {
  import opened Names
  import opened TimerSpec
  import opened TimerHeap

  /** Task.DueAt; the zero time stands for "now". */
  datatype DueAt = Unset | At(time: Time) {
    function Or(now: Time): Time {
      if Unset? then now else time
    }
  }

  datatype Task = Task(key: Key, dueAt: DueAt, hasHandler: bool)

  datatype ScheduleResult = Scheduled | EmptyKey | NilHandler

  /** The tickets of a list of tasks, in order. */
  ghost function Tickets(ts: seq<WheelTask>): seq<nat> {
    seq(|ts|, i requires 0 <= i < |ts| => ts[i].ticket)
  }

  /** A task's flag and its record tell the same story. */
  ghost predicate Consistent(s: Sched, t: WheelTask, cancelled: bool) {
    && t.ticket < |s.ledger|
    && var record := s.ledger[t.ticket];
    && record.key == t.key && record.due == t.due
    && (record.status.Live? <==> t.key in s.live && s.live[t.key] == t.ticket)
    && (record.status.Popped? ==> record.due <= record.status.at)
    && (cancelled <==> record.status.Cancelled? || record.status.Superseded?)
  }

  /** Taking a key over changes the record of its owner and of no other task. */
  lemma ConsistentAfterInsert(s: Sched, t: WheelTask, cancelled: bool, key: Key, due: Time)
    requires Consistent(s, t, cancelled)
    requires key in s.live ==> s.live[key] < |s.ledger| && s.ledger[s.live[key]].key == key && s.ledger[s.live[key]].status.Live?
    ensures Consistent(Insert(s, key, due), t, cancelled || (key in s.live && s.live[key] == t.ticket))
    ensures s.IsLive(t.ticket) && !(key in s.live && s.live[key] == t.ticket) ==> Insert(s, key, due).IsLive(t.ticket)
  {
  }

  /** A task is popped by the first popDue after its schedule exactly when the time it asked
      for has come; a task that asked for none is due at once. */
  lemma PoppedWhenAsked(s: Sched, task: Task, now: Time, ready: seq<nat>, later: Time)
    requires s.Inv() && IsReady(Insert(s, task.key, task.dueAt.Or(now)), ready, later)
    ensures task.dueAt != Unset ==> (|s.ledger| in ready <==> task.dueAt.time <= later)
    ensures task.dueAt == Unset ==> (|s.ledger| in ready <==> now <= later)
  {
    assert Insert(s, task.key, task.dueAt.Or(now)).IsLive(|s.ledger|);
  }

  class Wheel {
    var tasks: map<Key, WheelTask>
    const heap: TaskHeap
    var wake: bool  // the one-slot channel is full

    var scheduled: nat
    var executed: nat
    var cancelledCount: nat

    ghost var abs: Sched           // what the wheel means
    ghost var items: set<WheelTask>      // every task ever accepted

    /** The key map, the flags and the ledger agree. */
    ghost predicate Booked()
      reads this`tasks, this`abs, this`items, items`cancelled
    {
      && (forall t :: t in items ==> t.hasHandler && Consistent(abs, t, t.cancelled))
      && (forall t, u :: t in items && u in items && t.ticket == u.ticket ==> t == u)
      && tasks.Keys == abs.live.Keys
      && (forall k {:trigger tasks[k]} :: k in tasks ==> tasks[k] in items && tasks[k].key == k && tasks[k].ticket == abs.live[k])
    }

    /** The heap holds every live task, and besides them only cancelled ones. */
    ghost predicate Linked()
      reads this`tasks, this`abs, this`items, heap, items`cancelled, items`index
    {
      && Booked()
      && heap.contents <= items && heap.Valid()
      && (forall k {:trigger tasks[k]} :: k in tasks ==> tasks[k] in heap.contents)
      && (forall t :: t in heap.contents && !t.cancelled ==> abs.IsLive(t.ticket))
    }

    ghost function Repr(): set<object>
      reads this`items
    {
      {this, heap} + items
    }

    /** The representation is sound, the ledger is well formed, and the metrics can be read off it. */
    ghost predicate Valid()
      reads this`tasks, this`abs, this`items, this`scheduled, this`cancelledCount, heap, items`cancelled, items`index
    {
      && Linked() && abs.Inv()
      && scheduled == |abs.ledger|
      && cancelledCount == Count(abs.ledger, KCancelled)
    }

    constructor ()
      ensures Valid() && fresh(heap) && items == {}
      ensures abs == NOTHING && !wake && scheduled == executed == cancelledCount == 0
    {
      tasks, abs, items := map[], NOTHING, {};
      heap := new TaskHeap();
      wake, scheduled, executed, cancelledCount := false, 0, 0, 0;
    }

    /** A send that never blocks: a full slot stays full. */
    method Signal()
      modifies this`wake
      ensures wake
    {
      if !wake {
        wake := true;
      }
    }

    /** Marks the task that owns the key, if any, as dead. */
    method FlagCurrent(key: Key)
      requires key in tasks ==> tasks[key] in items
      modifies items`cancelled
      ensures forall t :: t in items ==> t.cancelled == (old(t.cancelled) || (key in tasks && t == tasks[key]))
    {
      if key in tasks {
        var current := tasks[key];
        current.cancelled := true;
      }
    }

    /** Enters a task under its key, once the flags say what the ledger will say. */
    method Install(item: WheelTask, ghost next: Sched)
      requires next.live == abs.live[item.key := item.ticket] && tasks.Keys == abs.live.Keys
      requires item !in items && item.hasHandler && Consistent(next, item, item.cancelled)
      requires forall t :: t in items ==> t.hasHandler && t.ticket < item.ticket && Consistent(next, t, t.cancelled)
      requires forall t, u :: t in items && u in items && t.ticket == u.ticket ==> t == u
      requires forall k {:trigger tasks[k]} :: k in tasks ==> tasks[k] in items && tasks[k].key == k && tasks[k].ticket == abs.live[k]
      modifies this`tasks, this`abs, this`items
      ensures Booked() && items == old(items) + {item}
      ensures tasks == old(tasks)[item.key := item] && abs == next
    {
      hide Consistent;
      abs := next;
      tasks := tasks[item.key := item];
      items := items + {item};
    }

    /** The part of schedule between Lock and heap.Push: the new task takes over its key. */
    method Enroll(item: WheelTask)
      requires Booked() && item !in items
      requires !item.cancelled && item.hasHandler && item.ticket == |abs.ledger|
      modifies this`tasks, this`abs, this`items, items`cancelled
      ensures Booked() && items == old(items) + {item}
      ensures tasks == old(tasks)[item.key := item] && abs == Insert(old(abs), item.key, item.due)
      ensures forall t :: t in old(items) ==>
        t.cancelled == (old(t.cancelled) || (item.key in old(tasks) && t == old(tasks[item.key])))
      ensures abs.IsLive(item.ticket)
      ensures forall t :: t in old(items) && old(abs).IsLive(t.ticket) && !t.cancelled ==> abs.IsLive(t.ticket)
    {
      ghost var next := Insert(abs, item.key, item.due);
      FlagCurrent(item.key);
      forall t | t in items
        ensures Consistent(next, t, t.cancelled)
        ensures abs.IsLive(t.ticket) && !t.cancelled ==> next.IsLive(t.ticket)
      {
        ConsistentAfterInsert(abs, t, old(t.cancelled), item.key, item.due);
      }
      assert forall t :: t in items ==> t.ticket < item.ticket;
      Install(item, next);
    }

    /** The part of cancel under the lock, for a key that is present. */
    method Disown(key: Key)
      requires Booked() && key in tasks
      modifies this`tasks, this`abs, items`cancelled
      ensures Booked() && tasks == old(tasks) - {key} && abs == Remove(old(abs), key)
      ensures forall t :: t in items ==> t.cancelled == (old(t.cancelled) || t == old(tasks[key]))
    {
      FlagCurrent(key);
      abs := Remove(abs, key);
      tasks := tasks - {key};
    }

    /** The critical section of schedule. */
    method ScheduleLocked(item: WheelTask)
      requires Linked() && item !in items
      requires !item.cancelled && item.hasHandler && item.ticket == |abs.ledger|
      modifies this, heap, items`cancelled, items`index, item`index
      ensures unchanged(`wake, `scheduled, `executed, `cancelledCount)
      ensures Linked() && items == old(items) + {item}
      ensures abs == Insert(old(abs), item.key, item.due)
    {
      hide HeapOrdered, Sched.Inv, Sched.IsLive, Insert, Booked;
      Enroll(item);
      heap.Push(item);
    }

    /** cancel after its check. */
    method Drop(key: Key) returns (found: bool)
      requires Valid()
      modifies this`tasks, this`abs, this`wake, this`cancelledCount, items`cancelled
      ensures Valid()
      ensures found == (key in old(abs).live) && abs == Remove(old(abs), key)
      ensures wake == (old(wake) || found)
    {
      ghost var before := abs;
      hide Linked, Remove, Count, Sched.Inv;
      found := CancelLocked(key);
      RemoveKeepsInv(before, key);
      CancelledMetricRemove(before, key);
      if found {
        cancelledCount := cancelledCount + 1;
        Signal();
      }
    }

    method NewItem(key: Key, due: Time) returns (item: WheelTask)
      requires Linked()
      ensures Linked() && fresh(item) && !item.cancelled && item.hasHandler
      ensures item.key == key && item.due == due && item.ticket == |abs.ledger|
    {
      item := new WheelTask(key, due, true, |abs.ledger|);
    }

    /** schedule after its checks. */
    method Admit(item: WheelTask)
      requires Linked() && item !in items
      requires !item.cancelled && item.hasHandler && item.ticket == |abs.ledger|
      modifies this, heap, items`cancelled, items`index, item`index
      ensures Linked() && items == old(items) + {item} && wake
      ensures abs == Insert(old(abs), item.key, item.due)
      ensures scheduled == old(scheduled) + 1 && cancelledCount == old(cancelledCount) && executed == old(executed)
    {
      ScheduleLocked(item);
      scheduled := scheduled + 1;
      Signal();
    }

    /** The critical section of cancel. */
    method CancelLocked(key: Key) returns (found: bool)
      requires Linked()
      modifies this`tasks, this`abs, items`cancelled
      ensures Linked()
      ensures found == (key in old(abs).live) && abs == Remove(old(abs), key)
    {
      found := key in tasks;
      if found {
        Disown(key);
      }
    }

    method Schedule(task: Task, now: Time) returns (r: ScheduleResult)
      requires Valid()
      modifies this, heap, items`cancelled, items`index
      ensures Valid() && old(items) <= items && fresh(items - old(items))
      ensures r == if task.key == NO_NAME then EmptyKey else if !task.hasHandler then NilHandler else Scheduled
      ensures abs == if r.Scheduled? then Insert(old(abs), task.key, task.dueAt.Or(now)) else old(abs)
      ensures abs.Dues() == if !r.Scheduled? then old(abs.Dues())
                            else if task.dueAt == Unset then old(abs.Dues())[task.key := now]
                            else old(abs.Dues())[task.key := task.dueAt.time]
      ensures wake == (old(wake) || r.Scheduled?) && executed == old(executed)
    {
      if task.key == NO_NAME {
        return EmptyKey;
      }
      if !task.hasHandler {
        return NilHandler;
      }
      InsertIsUpdate(abs, task.key, task.dueAt.Or(now));
      CancelledMetricInsert(abs, task.key, task.dueAt.Or(now));
      hide Linked;
      var item := NewItem(task.key, task.dueAt.Or(now));
      Admit(item);
      return Scheduled;
    }

    method Cancel(key: Key) returns (found: bool)
      requires Valid()
      modifies this, items`cancelled
      ensures Valid() && items == old(items) && executed == old(executed)
      ensures found == (key != NO_NAME && key in old(abs).live)
      ensures abs == if key != NO_NAME then Remove(old(abs), key) else old(abs)
      ensures wake == (old(wake) || found)
    {
      if key == NO_NAME {
        return false;
      }
      hide Valid, Remove;
      found := Drop(key);
    }

    /** Lazy deletion: a dead task is thrown away when it reaches the root. */
    method DropRoot()
      requires Linked() && |heap.queue| > 0 && heap.queue[0].cancelled
      modifies heap, items`index
      ensures Linked() && |heap.queue| == old(|heap.queue|) - 1 && heap.contents <= old(heap.contents)
    {
      var _ := heap.Pop();
    }

    /** The earliest live task, dropping the dead ones that hide it. */
    method NextTask() returns (next: WheelTask?)
      requires Valid()
      modifies heap, items`index
      ensures Valid()
      ensures next == null <==> abs.live == map[]
      ensures next != null ==> next in items && abs.IsLive(next.ticket) && abs.ledger[next.ticket].due == next.due
      ensures next != null ==> forall k :: k in abs.Dues() ==> next.due <= abs.Dues()[k]
    {
      while |heap.queue| > 0
        invariant Valid()
        decreases |heap.queue|
      {
        var item := heap.queue[0];
        if item.cancelled {
          DropRoot();
          continue;
        }
        forall k | k in tasks ensures item.due <= tasks[k].due {
          RootIsMinimum(heap.queue, tasks[k].index);
        }
        return item;
      }
      return null;
    }

    /** Hands a live task over to the runner. */
    method Release(item: WheelTask, now: Time)
      requires Booked() && item in items && abs.IsLive(item.ticket) && item.due <= now
      modifies this`tasks, this`abs
      ensures Booked() && tasks == old(tasks) - {item.key}
      ensures abs == PopOne(old(abs), item.ticket, now)
    {
      abs := PopOne(abs, item.ticket, now);
      if item.key in tasks && tasks[item.key] == item {
        tasks := tasks - {item.key};
      }
    }

    /** A root that is not flagged is live. */
    lemma LiveRoot()
      requires Linked() && |heap.queue| > 0 && !heap.queue[0].cancelled
      ensures abs.IsLive(heap.queue[0].ticket)
      ensures abs.ledger[heap.queue[0].ticket].due == heap.queue[0].due
      ensures heap.queue[0] in heap.contents
    {
    }

    /** Pops the root, a live task that is due. */
    method TakeRoot(now: Time) returns (item: WheelTask)
      requires Linked() && |heap.queue| > 0
      requires abs.IsLive(heap.queue[0].ticket) && heap.queue[0].due <= now
      modifies this`tasks, this`abs, heap, items`index
      ensures Linked() && |heap.queue| == old(|heap.queue|) - 1
      ensures item == old(heap.queue[0]) && item in items
      ensures heap.contents <= old(heap.contents)
      ensures forall t :: t in old(heap.contents) ==> item.due <= t.due
      ensures abs == PopOne(old(abs), item.ticket, now)
    {
      item := heap.Pop();
      Release(item, now);
    }

    /** Once the root is not due, or gone, nothing that is due is left. */
    lemma NothingDue(before: Sched, tickets: seq<nat>, now: Time)
      requires Linked() && before.Inv() && Popping(before, tickets, now, abs)
      requires |heap.queue| > 0 ==> now < heap.queue[0].due
      ensures IsReady(before, tickets, now)
    {
      PopAllKeepsInv(before, tickets, now);
      forall t: nat | abs.IsLive(t) ensures now < abs.ledger[t].due {
        var task := tasks[abs.ledger[t].key];
        RootIsMinimum(heap.queue, task.index);
      }
      CompleteReady(before, tickets, now, abs);
    }

    /** The tasks in the answer are those of its tickets. */
    lemma AnswerOnRecords(before: Sched, ready: seq<WheelTask>, now: Time)
      requires Linked() && before.Inv() && IsReady(before, Tickets(ready), now) && abs == PopAll(before, Tickets(ready), now)
      requires forall t :: t in ready ==> t in items
      ensures forall i :: 0 <= i < |ready| ==>
        && ready[i].ticket < |before.ledger|
        && before.ledger[ready[i].ticket].key == ready[i].key && before.ledger[ready[i].ticket].due == ready[i].due
    {
      hide TaskHeap.Valid, PopAll, Sched.Inv;
      var tickets := Tickets(ready);
      PopAllPointwise(before, tickets, now);
      forall i | 0 <= i < |ready|
        ensures ready[i].ticket < |before.ledger|
        ensures before.ledger[ready[i].ticket].key == ready[i].key && before.ledger[ready[i].ticket].due == ready[i].due
      {
        assert ready[i] in items && Consistent(abs, ready[i], ready[i].cancelled);
      }
    }

    /** What the answer of popDue means on keys and due times. */
    lemma AnswerOnKeys(before: Sched, ready: seq<WheelTask>, now: Time)
      requires Linked() && before.Inv() && IsReady(before, Tickets(ready), now) && abs == PopAll(before, Tickets(ready), now)
      requires forall t :: t in ready ==> t in items
      ensures forall i :: 0 <= i < |ready| ==> var t := ready[i]; t.key in before.Dues() && before.Dues()[t.key] == t.due <= now
      ensures forall i, j :: 0 <= i < j < |ready| ==> ready[i].due <= ready[j].due && ready[i] != ready[j]
      ensures forall k :: k in before.Dues() && before.Dues()[k] <= now ==> exists t :: t in ready && t.key == k
    {
      hide Linked, PopAll, Sched.Inv, Sched.IsLive, IsReady;
      var tickets := Tickets(ready);
      AnswerOnRecords(before, ready, now);
      ReadyOnKeys(before, tickets, now);
      forall i | 0 <= i < |ready|
        ensures ready[i].key in before.Dues() && before.Dues()[ready[i].key] == ready[i].due <= now
      {
        assert tickets[i] == ready[i].ticket;
      }
      forall i, j | 0 <= i < j < |ready| ensures ready[i].due <= ready[j].due && ready[i] != ready[j] {
        assert tickets[i] == ready[i].ticket && tickets[j] == ready[j].ticket;
      }
      forall k | k in before.Dues() && before.Dues()[k] <= now ensures exists t :: t in ready && t.key == k {
        var i :| 0 <= i < |tickets| && before.ledger[tickets[i]].key == k;
        assert ready[i] in ready;
      }
    }

    /** The critical section of popDue. */
    method PopLocked(now: Time) returns (ready: seq<WheelTask>)
      requires Valid()
      modifies this`tasks, this`abs, heap, items`index
      ensures Valid()
      ensures forall t :: t in ready ==> t in items
      ensures IsReady(old(abs), Tickets(ready), now)
      ensures abs == PopAll(old(abs), Tickets(ready), now)
    {
      hide Booked, Linked, Popping, PopAll, Sched.Inv;
      ghost var before, tickets := abs, [];
      PoppingStarts(abs, now);
      ready := [];
      while |heap.queue| > 0
        invariant Linked()
        invariant |tickets| == |ready| && forall i :: 0 <= i < |ready| ==> ready[i] in items && ready[i].ticket == tickets[i]
        invariant Popping(before, tickets, now, abs)
        invariant tickets != [] ==> tickets[|tickets| - 1] < |before.ledger|
        invariant tickets != [] ==> forall u :: u in heap.contents ==> before.ledger[tickets[|tickets| - 1]].due <= u.due
        decreases |heap.queue|
      {
        var item := heap.queue[0];
        if item.cancelled {
          DropRoot();
          continue;
        }
        if item.due > now {
          break;
        }
        LiveRoot();
        ExtendReady(before, tickets, now, abs, item.ticket);
        item := TakeRoot(now);
        ready, tickets := ready + [item], tickets + [item.ticket];
      }
      assert Tickets(ready) == tickets;
      PoppingMeans(before, tickets, now, abs);
      NothingDue(before, tickets, now);
      PopAllKeepsInv(before, tickets, now);
      CancelledMetricPop(before, tickets, now);
    }

    /** Removes every task that is due, earliest first. */
    method PopDue(now: Time) returns (ready: seq<WheelTask>)
      requires Valid()
      modifies this`tasks, this`abs, heap, items`index
      ensures Valid()
      ensures forall t :: t in ready ==> t in items
      ensures IsReady(old(abs), Tickets(ready), now)
      ensures abs == PopAll(old(abs), Tickets(ready), now)
      ensures forall i :: 0 <= i < |ready| ==> var t := ready[i]; t.key in old(abs.Dues()) && old(abs.Dues())[t.key] == t.due <= now
      ensures forall i, j :: 0 <= i < j < |ready| ==> ready[i].due <= ready[j].due && ready[i] != ready[j]
      ensures forall k :: k in old(abs.Dues()) && old(abs.Dues())[k] <= now ==> exists t :: t in ready && t.key == k
      ensures forall k :: k in abs.Dues() <==> k in old(abs.Dues()) && now < old(abs.Dues())[k]
      ensures forall k :: k in abs.Dues() ==> abs.Dues()[k] == old(abs.Dues())[k]
    {
      hide Booked, Linked, PopAll, Sched.Inv, IsReady;
      ready := PopLocked(now);
      AnswerOnKeys(old(abs), ready, now);
      PopAllIsFilter(old(abs), Tickets(ready), now);
    }

    /** The loop of run over what popDue returned: by then no entry can have been cancelled,
        so the second look at the flag never skips one. */
    method FireReady(ready: seq<WheelTask>) returns (fired: seq<WheelTask>)
      requires Valid()
      requires forall t :: t in ready ==> t in items && abs.ledger[t.ticket].status.Popped?
      modifies this`executed
      ensures fired == ready && executed == old(executed) + |ready|
    {
      fired := [];
      for i := 0 to |ready|
        invariant fired == ready[..i] && executed == old(executed) + i
      {
        assert ready[i] in ready;
        if ready[i].cancelled || !ready[i].hasHandler {
          continue;
        }
        executed := executed + 1;
        fired := fired + [ready[i]];
      }
    }
  }
}

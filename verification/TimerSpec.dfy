/** What a timer wheel means, apart from how it is stored.

    Every accepted schedule call gets a ticket, its position in `ledger`. The ledger
    remembers what became of it; `live` maps a key to the ticket that currently owns it. */
module TimerSpec {

  import opened Names

  type Key = Name

  type Time = int

  datatype Kind = KLive | KPopped | KCancelled | KSuperseded

  datatype Status = Live | Popped(at: Time) | Cancelled | Superseded {
    function Kind(): Kind {
      match this
      case Live => KLive
      case Popped(_) => KPopped
      case Cancelled => KCancelled
      case Superseded => KSuperseded
    }
  }

  datatype Record = Record(key: Key, due: Time, status: Status)

  datatype Sched = Sched(live: map<Key, nat>, ledger: seq<Record>) {

    /** The ticket is still waiting to fire. */
    ghost predicate IsLive(t: nat) {
      t < |ledger| && ledger[t].status.Live?
    }

    ghost predicate Inv() {
      && (forall k :: k in live ==> IsLive(live[k]) && ledger[live[k]].key == k)
      && (forall t: nat :: IsLive(t) ==> ledger[t].key in live && live[ledger[t].key] == t)
      && (forall t: nat :: t < |ledger| && ledger[t].status.Popped? ==> ledger[t].due <= ledger[t].status.at)
    }

    /** The abstract content of the scheduler: key to due time. */
    ghost function Dues(): (dues: map<Key, Time>)
      requires Inv()
      ensures dues.Keys == live.Keys
      ensures forall k :: k in live ==> dues[k] == ledger[live[k]].due
    {
      DuesOn(live.Keys)
    }

    ghost function DuesOn(keys: set<Key>): (dues: map<Key, Time>)
      requires Inv() && keys <= live.Keys
      ensures dues.Keys == keys
      ensures forall k :: k in keys ==> dues[k] == ledger[live[k]].due
    {
      if keys == {} then map[]
      else
        var k :| k in keys;
        DuesOn(keys - {k})[k := ledger[live[k]].due]
    }
  }

  function Mark(ledger: seq<Record>, t: nat, status: Status): seq<Record>
    requires t < |ledger|
  {
    ledger[t := ledger[t].(status := status)]
  }

  const NOTHING := Sched(map[], [])

  /** schedule: the new ticket takes the key over from its current owner, if any. */
  function Insert(s: Sched, key: Key, due: Time): Sched
    requires key in s.live ==> s.live[key] < |s.ledger|
  {
    var marked := if key in s.live then Mark(s.ledger, s.live[key], Superseded) else s.ledger;
    Sched(s.live[key := |s.ledger|], marked + [Record(key, due, Live)])
  }

  /** cancel: does nothing when the key is not live. */
  function Remove(s: Sched, key: Key): Sched
    requires key in s.live ==> s.live[key] < |s.ledger|
  {
    if key in s.live
    then Sched(s.live - {key}, Mark(s.ledger, s.live[key], Cancelled))
    else s
  }

  function PopOne(s: Sched, t: nat, now: Time): Sched
    requires t < |s.ledger|
  {
    Sched(s.live - {s.ledger[t].key}, Mark(s.ledger, t, Popped(now)))
  }

  function PopAll(s: Sched, ready: seq<nat>, now: Time): (r: Sched)
    requires forall i :: 0 <= i < |ready| ==> ready[i] < |s.ledger|
    ensures |r.ledger| == |s.ledger|
  {
    if ready == [] then s
    else PopOne(PopAll(s, ready[..|ready| - 1], now), ready[|ready| - 1], now)
  }

  /** Distinct live tickets that are due, earliest first. */
  ghost predicate InOrder(s: Sched, ready: seq<nat>, now: Time) {
    && (forall i :: 0 <= i < |ready| ==> s.IsLive(ready[i]) && s.ledger[ready[i]].due <= now)
    && (forall i, j :: 0 <= i < j < |ready| ==> ready[i] != ready[j])
    && (forall i, j :: 0 <= i < j < |ready| ==> s.ledger[ready[i]].due <= s.ledger[ready[j]].due)
  }

  /** The answer of popDue(now): every live ticket that is due, once, earliest first (ties in any order). */
  ghost predicate IsReady(s: Sched, ready: seq<nat>, now: Time) {
    && InOrder(s, ready, now)
    && (forall t: nat :: s.IsLive(t) && s.ledger[t].due <= now ==> t in ready)
  }

  /** The part of a key-to-due map that is not due yet. */
  ghost function NotDue(dues: map<Key, Time>, now: Time): map<Key, Time> {
    dues - set k | k in dues && dues[k] <= now
  }

  /** The part of it that is due. */
  ghost function Due(dues: map<Key, Time>, now: Time): map<Key, Time> {
    dues - NotDue(dues, now).Keys
  }

  lemma SameKeys(s: Sched, key: Key)
    requires s.Inv()
    ensures key in s.Dues() <==> key in s.live
  {
  }

  lemma InsertKeepsInv(s: Sched, key: Key, due: Time)
    requires s.Inv()
    ensures Insert(s, key, due).Inv()
  {
  }

  lemma RemoveKeepsInv(s: Sched, key: Key)
    requires s.Inv()
    ensures Remove(s, key).Inv()
  {
  }

  /** schedule is map update on key-to-due. */
  lemma InsertIsUpdate(s: Sched, key: Key, due: Time)
    requires s.Inv()
    ensures Insert(s, key, due).Inv()
    ensures Insert(s, key, due).Dues() == s.Dues()[key := due]
  {
    InsertKeepsInv(s, key, due);
  }

  /** cancel is map removal on key-to-due. */
  lemma RemoveIsRemoval(s: Sched, key: Key)
    requires s.Inv()
    ensures Remove(s, key).Inv()
    ensures Remove(s, key).Dues() == s.Dues() - {key}
  {
    RemoveKeepsInv(s, key);
  }

  /** What has become of each record and of each key when the given tickets were popped. */
  ghost predicate PoppedFrom(s: Sched, ready: seq<nat>, now: Time, r: Sched)
    requires |r.ledger| == |s.ledger|
  {
    && (forall t: nat :: t < |s.ledger| ==> r.ledger[t] == if t in ready then s.ledger[t].(status := Popped(now)) else s.ledger[t])
    && (forall k :: k in r.live <==> k in s.live && s.live[k] !in ready)
    && (forall k :: k in r.live ==> r.live[k] == s.live[k])
  }

  lemma PopOneMore(s: Sched, front: seq<nat>, t: nat, now: Time, r: Sched)
    requires s.Inv() && |r.ledger| == |s.ledger| && PoppedFrom(s, front, now, r) && s.IsLive(t) && t !in front
    ensures PoppedFrom(s, front + [t], now, PopOne(r, t, now))
  {
    assert r.ledger[t] == s.ledger[t];
    assert forall u :: u in front + [t] <==> u in front || u == t;
  }

  lemma {:induction false} PopAllIsPopped(s: Sched, ready: seq<nat>, now: Time)
    requires s.Inv() && InOrder(s, ready, now)
    ensures PoppedFrom(s, ready, now, PopAll(s, ready, now))
  {
    if ready != [] {
      var front, t := ready[..|ready| - 1], ready[|ready| - 1];
      assert ready == front + [t];
      PopAllIsPopped(s, front, now);
      PopOneMore(s, front, t, now, PopAll(s, front, now));
    }
  }

  /** What PopAll does to each record and to each key. */
  lemma PopAllPointwise(s: Sched, ready: seq<nat>, now: Time)
    requires s.Inv()
    requires InOrder(s, ready, now)
    ensures forall t: nat :: t < |s.ledger| ==>
      PopAll(s, ready, now).ledger[t] == if t in ready then s.ledger[t].(status := Popped(now)) else s.ledger[t]
    ensures forall k :: k in PopAll(s, ready, now).live <==> k in s.live && s.live[k] !in ready
    ensures forall k :: k in PopAll(s, ready, now).live ==> PopAll(s, ready, now).live[k] == s.live[k]
  {
    hide PopAll, Sched.Inv, InOrder;
    PopAllIsPopped(s, ready, now);
  }

  /** A popDue(now) that started in s has taken `ready` so far and reached r. */
  ghost predicate Popping(s: Sched, ready: seq<nat>, now: Time, r: Sched) {
    InOrder(s, ready, now) && r == PopAll(s, ready, now)
  }

  lemma PoppingStarts(s: Sched, now: Time)
    ensures Popping(s, [], now, s)
  {
  }

  lemma PoppingMeans(s: Sched, ready: seq<nat>, now: Time, r: Sched)
    requires Popping(s, ready, now, r)
    ensures InOrder(s, ready, now) && r == PopAll(s, ready, now)
  {
  }

  lemma StillLive(s: Sched, ready: seq<nat>, now: Time, t: nat)
    requires s.Inv() && InOrder(s, ready, now) && PopAll(s, ready, now).IsLive(t)
    ensures s.IsLive(t) && t !in ready && s.ledger[t] == PopAll(s, ready, now).ledger[t]
  {
    hide PopAll, Sched.Inv, InOrder;
    PopAllPointwise(s, ready, now);
  }

  lemma InOrderOneMore(s: Sched, ready: seq<nat>, now: Time, t: nat)
    requires InOrder(s, ready, now) && s.IsLive(t) && t !in ready && s.ledger[t].due <= now
    requires ready != [] ==> s.ledger[ready[|ready| - 1]].due <= s.ledger[t].due
    ensures InOrder(s, ready + [t], now)
  {
    var more := ready + [t];
    forall i, j | 0 <= i < j < |more| ensures more[i] != more[j] && s.ledger[more[i]].due <= s.ledger[more[j]].due {
      assert j == |ready| && i < |ready| - 1 ==> s.ledger[ready[i]].due <= s.ledger[ready[|ready| - 1]].due;
      assert i < |ready| ==> more[i] in ready;
    }
  }

  /** popDue may take one more live ticket that is due, if it is not earlier than the last one taken. */
  lemma ExtendReady(s: Sched, ready: seq<nat>, now: Time, r: Sched, t: nat)
    requires s.Inv() && Popping(s, ready, now, r)
    requires r.IsLive(t) && r.ledger[t].due <= now
    requires ready != [] ==> s.ledger[ready[|ready| - 1]].due <= r.ledger[t].due
    ensures Popping(s, ready + [t], now, PopOne(r, t, now))
    ensures t < |s.ledger| && s.ledger[t].due == r.ledger[t].due
  {
    hide Sched.Inv, PoppedFrom;
    StillLive(s, ready, now, t);
    InOrderOneMore(s, ready, now, t);
    assert (ready + [t])[..|ready|] == ready;
  }

  /** popDue may stop when nothing that is due is left. */
  lemma CompleteReady(s: Sched, ready: seq<nat>, now: Time, r: Sched)
    requires s.Inv() && Popping(s, ready, now, r)
    requires forall t: nat :: r.IsLive(t) ==> now < r.ledger[t].due
    ensures IsReady(s, ready, now)
  {
    PopAllPointwise(s, ready, now);
    forall t: nat | s.IsLive(t) && t !in ready ensures now < s.ledger[t].due {
      assert r.IsLive(t);
    }
  }

  lemma PopAllKeepsInv(s: Sched, ready: seq<nat>, now: Time)
    requires s.Inv() && InOrder(s, ready, now)
    ensures PopAll(s, ready, now).Inv()
  {
    PopAllPointwise(s, ready, now);
  }

  /** popDue is a filter on key-to-due: exactly the keys that are due are taken, and what is
      not due stays as it was. */
  lemma PopAllIsFilter(s: Sched, ready: seq<nat>, now: Time)
    requires s.Inv() && IsReady(s, ready, now)
    ensures PopAll(s, ready, now).Inv()
    ensures PopAll(s, ready, now).Dues() == NotDue(s.Dues(), now)
    ensures forall k :: k in Due(s.Dues(), now) <==> k in s.live && s.live[k] in ready
    ensures forall i :: 0 <= i < |ready| ==> var t := s.ledger[ready[i]]; t.key in s.Dues() && s.Dues()[t.key] == t.due <= now
  {
    hide PopAll, Sched.Inv, Due, NotDue, IsReady, InOrder;
    LeftIsNotDue(s, ready, now);
    TakenAreDue(s, ready, now);
  }

  lemma LeftIsNotDue(s: Sched, ready: seq<nat>, now: Time)
    requires s.Inv() && IsReady(s, ready, now)
    ensures PopAll(s, ready, now).Inv()
    ensures PopAll(s, ready, now).Dues() == NotDue(s.Dues(), now)
  {
    PopAllKeepsInv(s, ready, now);
    PopAllPointwise(s, ready, now);
  }

  lemma TakenAreDue(s: Sched, ready: seq<nat>, now: Time)
    requires s.Inv() && IsReady(s, ready, now)
    ensures forall k :: k in Due(s.Dues(), now) <==> k in s.live && s.live[k] in ready
    ensures forall i :: 0 <= i < |ready| ==> var t := s.ledger[ready[i]]; t.key in s.Dues() && s.Dues()[t.key] == t.due <= now
  {
    forall k ensures k in Due(s.Dues(), now) <==> k in s.live && s.live[k] in ready {
      if k in s.live {
        assert s.IsLive(s.live[k]);
      }
    }
    assert forall i :: 0 <= i < |ready| ==> s.IsLive(ready[i]);
  }

  /** The answer of popDue(now), on keys and due times. */
  lemma ReadyOnKeys(s: Sched, ready: seq<nat>, now: Time)
    requires s.Inv() && IsReady(s, ready, now)
    ensures forall i :: 0 <= i < |ready| ==>
      && ready[i] < |s.ledger|
      && var r := s.ledger[ready[i]]; r.key in s.Dues() && s.Dues()[r.key] == r.due <= now
    ensures forall i, j :: 0 <= i < j < |ready| ==> ready[i] != ready[j] && s.ledger[ready[i]].due <= s.ledger[ready[j]].due
    ensures forall k :: k in s.Dues() && s.Dues()[k] <= now ==> exists i :: 0 <= i < |ready| && s.ledger[ready[i]].key == k
  {
    forall k | k in s.Dues() && s.Dues()[k] <= now ensures exists i :: 0 <= i < |ready| && s.ledger[ready[i]].key == k {
      assert s.IsLive(s.live[k]);
      var i :| 0 <= i < |ready| && ready[i] == s.live[k];
      assert s.ledger[ready[i]].key == k;
    }
  }

  // ---- Accounting -------------------------------------------------------------------

  function Count(ledger: seq<Record>, kind: Kind): nat {
    if ledger == [] then 0
    else Count(ledger[..|ledger| - 1], kind) + if ledger[|ledger| - 1].status.Kind() == kind then 1 else 0
  }

  lemma {:induction false} CountPartition(ledger: seq<Record>)
    ensures Count(ledger, KLive) + Count(ledger, KPopped) + Count(ledger, KCancelled) + Count(ledger, KSuperseded) == |ledger|
  {
    if ledger != [] {
      CountPartition(ledger[..|ledger| - 1]);
    }
  }

  lemma {:induction false} CountTickets(ledger: seq<Record>, kind: Kind)
    ensures |set t: nat | t < |ledger| && ledger[t].status.Kind() == kind| == Count(ledger, kind)
  {
    var all := set t: nat | t < |ledger| && ledger[t].status.Kind() == kind;
    if ledger != [] {
      var n := |ledger| - 1;
      var front := ledger[..n];
      var fewer := set t: nat | t < |front| && front[t].status.Kind() == kind;
      CountTickets(front, kind);
      if ledger[n].status.Kind() == kind {
        assert all == fewer + {n};
      } else {
        assert all == fewer;
      }
    }
  }

  /** A map with distinct values has as many keys as values. */
  lemma {:induction false} InjectiveCard(m: map<Key, nat>, vs: set<nat>)
    requires forall k :: k in m ==> m[k] in vs
    requires forall v :: v in vs ==> exists k :: k in m && m[k] == v
    requires forall j, k :: j in m && k in m && m[j] == m[k] ==> j == k
    ensures |m| == |vs|
    decreases |vs|
  {
    if vs == {} {
      assert m == map[];
    } else {
      var v :| v in vs;
      var k :| k in m && m[k] == v;
      var rest := m - {k};
      forall u | u in vs - {v} ensures exists j :: j in rest && rest[j] == u {
        var j :| j in m && m[j] == u;
        assert j in rest;
      }
      InjectiveCard(rest, vs - {v});
      assert rest.Keys == m.Keys - {k};
    }
  }

  /** Scheduled == live + popped + cancelled + superseded, where `live` counts live keys. */
  lemma Conservation(s: Sched)
    requires s.Inv()
    ensures |s.ledger| == |s.live| + Count(s.ledger, KPopped) + Count(s.ledger, KCancelled) + Count(s.ledger, KSuperseded)
  {
    CountPartition(s.ledger);
    CountTickets(s.ledger, KLive);
    var tickets := set t: nat | t < |s.ledger| && s.ledger[t].status.Kind() == KLive;
    forall v | v in tickets ensures exists k :: k in s.live && s.live[k] == v {
      assert s.IsLive(v);
      assert s.ledger[v].key in s.live;
    }
    InjectiveCard(s.live, tickets);
  }

  lemma {:induction false} CountMark(ledger: seq<Record>, t: nat, status: Status, kind: Kind)
    requires t < |ledger|
    ensures Count(Mark(ledger, t, status), kind)
         == Count(ledger, kind) - (if ledger[t].status.Kind() == kind then 1 else 0) + (if status.Kind() == kind then 1 else 0)
  {
    var n := |ledger| - 1;
    var marked := Mark(ledger, t, status);
    if t < n {
      CountMark(ledger[..n], t, status, kind);
      assert marked[..n] == Mark(ledger[..n], t, status);
    } else {
      assert marked[..n] == ledger[..n];
    }
  }

  /** How each operation moves the Cancelled metric: only an effective cancel counts. */
  lemma CancelledMetricInsert(s: Sched, key: Key, due: Time)
    requires s.Inv()
    ensures Count(Insert(s, key, due).ledger, KCancelled) == Count(s.ledger, KCancelled)
  {
    var r := Insert(s, key, due);
    var n := |s.ledger|;
    if key in s.live {
      CountMark(s.ledger, s.live[key], Superseded, KCancelled);
      assert r.ledger[..n] == Mark(s.ledger, s.live[key], Superseded);
    } else {
      assert r.ledger[..n] == s.ledger;
    }
  }

  lemma CancelledMetricRemove(s: Sched, key: Key)
    requires s.Inv()
    ensures Count(Remove(s, key).ledger, KCancelled) == Count(s.ledger, KCancelled) + if key in s.live then 1 else 0
    ensures |Remove(s, key).ledger| == |s.ledger|
  {
    if key in s.live {
      CountMark(s.ledger, s.live[key], Cancelled, KCancelled);
    }
  }

  lemma {:induction false} CancelledMetricPop(s: Sched, ready: seq<nat>, now: Time)
    requires s.Inv()
    requires InOrder(s, ready, now)
    ensures Count(PopAll(s, ready, now).ledger, KCancelled) == Count(s.ledger, KCancelled)
  {
    hide Count, Sched.Inv;
    if ready != [] {
      var front, t := ready[..|ready| - 1], ready[|ready| - 1];
      CancelledMetricPop(s, front, now);
      PopAllPointwise(s, front, now);
      assert s.IsLive(t) && t !in front;
      CountMark(PopAll(s, front, now).ledger, t, Popped(now), KCancelled);
    }
  }
}

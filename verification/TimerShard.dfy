/** The sharded scheduler of shard.go: each key is hashed to one of several wheels, and
    together they behave as a single wheel. */
module TimerShard {
  import opened Integers
  import opened Names
  import opened TimerSpec
  import opened TimerWheel

  /** What an FNV-1a hasher returns; any function will do. */
  type Sum32 = x: nat | x < TWO_TO_THE_32

  function HashKey(fnv: Key -> Sum32, key: Key, shardCount: int): (i: nat)
    requires shardCount <= 1 || shardCount % TWO_TO_THE_32 != 0
    ensures shardCount > 0 ==> i < shardCount
  {
    if shardCount <= 1 then 0 else fnv(key) % (shardCount % TWO_TO_THE_32)
  }

  /** Two keys share a shard exactly when their hashes differ by a multiple of the shard count. */
  lemma ShardsAreResidues(fnv: Key -> Sum32, a: Key, b: Key, shardCount: nat)
    requires 0 < shardCount < TWO_TO_THE_32
    ensures HashKey(fnv, a, shardCount) == HashKey(fnv, b, shardCount) <==>
      exists q: int :: fnv(a) as int - fnv(b) as int == q * shardCount
  {
    assert shardCount % TWO_TO_THE_32 == shardCount;
    var x: int, y: int := fnv(a), fnv(b);
    Divided(x, shardCount);
    Divided(y, shardCount);
    if x % shardCount == y % shardCount {
      Spread(x / shardCount, -(y / shardCount), shardCount);
      assert x - y == (x / shardCount - y / shardCount) * shardCount;
    }
    if q: int :| x - y == q * shardCount {
      Spread(y / shardCount, q, shardCount);
      Residue(y / shardCount + q, y % shardCount, shardCount);
    }
  }

  lemma Divided(x: int, n: nat)
    requires n > 0
    ensures x == x / n * n + x % n
  {
  }

  lemma Spread(p: int, q: int, n: int)
    ensures (p + q) * n == p * n + q * n
  {
  }

  lemma Residue(q: int, r: nat, n: nat)
    requires r < n
    ensures (q * n + r) % n == r
  {
    var x := q * n + r;
    var d := x / n - q;
    assert d * n == r - x % n;
    assert d >= 1 ==> d * n >= n;
    assert d <= -1 ==> d * n + n <= 0;
  }

  // ---- Maps split by hash -----------------------------------------------------------

  /** Each key lies in its own part. */
  ghost predicate Placed(fnv: Key -> Sum32, parts: seq<map<Key, Time>>) {
    && 0 < |parts| < TWO_TO_THE_32
    && forall i, k :: 0 <= i < |parts| && k in parts[i] ==> HashKey(fnv, k, |parts|) == i
  }

  lemma PlacedSize(fnv: Key -> Sum32, parts: seq<map<Key, Time>>)
    requires Placed(fnv, parts)
    ensures 0 < |parts| < TWO_TO_THE_32
  {
  }

  ghost function Merged(parts: seq<map<Key, Time>>): map<Key, Time> {
    if parts == [] then map[] else Merged(parts[..|parts| - 1]) + parts[|parts| - 1]
  }

  lemma {:induction false} MergedKeys(parts: seq<map<Key, Time>>, k: Key)
    ensures k in Merged(parts) <==> exists i :: 0 <= i < |parts| && k in parts[i]
  {
    if parts != [] {
      var n := |parts| - 1;
      var front := parts[..n];
      MergedKeys(front, k);
      if k in Merged(front) {
        var i :| 0 <= i < |front| && k in front[i];
        assert k in parts[i];
      }
      if i :| 0 <= i < |parts| && k in parts[i] {
        assert i < n ==> k in front[i];
      }
    }
  }

  /** A key that occurs in one part only is looked up there. */
  lemma {:induction false} MergedValue(parts: seq<map<Key, Time>>, k: Key, i: nat)
    requires i < |parts| && k in parts[i]
    requires forall j :: 0 <= j < |parts| && j != i ==> k !in parts[j]
    ensures k in Merged(parts) && Merged(parts)[k] == parts[i][k]
  {
    var n := |parts| - 1;
    if i < n {
      MergedValue(parts[..n], k, i);
    }
  }

  /** Looking a key up in the whole is looking it up in its own part. */
  lemma LookupIsLocal(fnv: Key -> Sum32, parts: seq<map<Key, Time>>, k: Key)
    requires Placed(fnv, parts)
    ensures k in Merged(parts) <==> k in parts[HashKey(fnv, k, |parts|)]
    ensures k in Merged(parts) ==> Merged(parts)[k] == parts[HashKey(fnv, k, |parts|)][k]
  {
    var i := HashKey(fnv, k, |parts|);
    MergedKeys(parts, k);
    if k in parts[i] {
      MergedValue(parts, k, i);
    }
  }

  /** schedule and cancel on one shard are schedule and cancel on the whole. */
  lemma LocalUpdateIsGlobal(fnv: Key -> Sum32, parts: seq<map<Key, Time>>, key: Key, due: Time)
    requires Placed(fnv, parts)
    ensures var i := HashKey(fnv, key, |parts|);
      && Placed(fnv, parts[i := parts[i][key := due]])
      && Merged(parts[i := parts[i][key := due]]) == Merged(parts)[key := due]
      && Placed(fnv, parts[i := parts[i] - {key}])
      && Merged(parts[i := parts[i] - {key}]) == Merged(parts) - {key}
  {
    var i := HashKey(fnv, key, |parts|);
    var more, less := parts[i := parts[i][key := due]], parts[i := parts[i] - {key}];
    forall k ensures (k in Merged(more) <==> k in Merged(parts)[key := due])
      && (k in Merged(more) ==> Merged(more)[k] == Merged(parts)[key := due][k])
    {
      LookupIsLocal(fnv, parts, k);
      LookupIsLocal(fnv, more, k);
    }
    forall k ensures (k in Merged(less) <==> k in Merged(parts) - {key})
      && (k in Merged(less) ==> Merged(less)[k] == (Merged(parts) - {key})[k])
    {
      LookupIsLocal(fnv, parts, k);
      LookupIsLocal(fnv, less, k);
    }
  }

  ghost function AllDue(parts: seq<map<Key, Time>>, now: Time): seq<map<Key, Time>> {
    seq(|parts|, i requires 0 <= i < |parts| => Due(parts[i], now))
  }

  ghost function AllNotDue(parts: seq<map<Key, Time>>, now: Time): seq<map<Key, Time>> {
    seq(|parts|, i requires 0 <= i < |parts| => NotDue(parts[i], now))
  }

  /** popDue on every shard is popDue on the whole: what the shards take is together what the
      whole would take, and what they keep is what it would keep. */
  lemma LocalPopIsGlobal(fnv: Key -> Sum32, parts: seq<map<Key, Time>>, now: Time)
    requires Placed(fnv, parts)
    ensures Placed(fnv, AllDue(parts, now)) && Merged(AllDue(parts, now)) == Due(Merged(parts), now)
    ensures Placed(fnv, AllNotDue(parts, now)) && Merged(AllNotDue(parts, now)) == NotDue(Merged(parts), now)
  {
    LocalTakeIsGlobal(fnv, parts, now);
    var left := AllNotDue(parts, now);
    forall k ensures (k in Merged(left) <==> k in NotDue(Merged(parts), now))
      && (k in Merged(left) ==> Merged(left)[k] == NotDue(Merged(parts), now)[k])
    {
      LookupIsLocal(fnv, parts, k);
      LookupIsLocal(fnv, left, k);
    }
  }

  lemma LocalTakeIsGlobal(fnv: Key -> Sum32, parts: seq<map<Key, Time>>, now: Time)
    requires Placed(fnv, parts)
    ensures Placed(fnv, AllDue(parts, now)) && Merged(AllDue(parts, now)) == Due(Merged(parts), now)
  {
    var taken := AllDue(parts, now);
    forall k ensures (k in Merged(taken) <==> k in Due(Merged(parts), now))
      && (k in Merged(taken) ==> Merged(taken)[k] == Due(Merged(parts), now)[k])
    {
      LookupIsLocal(fnv, parts, k);
      LookupIsLocal(fnv, taken, k);
    }
  }

  // ---- The scheduler ----------------------------------------------------------------

  const DEFAULT_SHARDS := 64

  ghost function Contents(w: Wheel): map<Key, Time>
    reads w
  {
    if w.abs.Inv() then w.abs.Dues() else map[]
  }

  lemma {:induction false} NothingMerged(parts: seq<map<Key, Time>>)
    requires forall i :: 0 <= i < |parts| ==> parts[i] == map[]
    ensures Merged(parts) == map[]
  {
    if parts != [] {
      NothingMerged(parts[..|parts| - 1]);
    }
  }

  method NewWheels(n: nat) returns (wheels: seq<Wheel>, ghost owned: set<object>)
    ensures |wheels| == n && fresh(owned)
    ensures forall i :: 0 <= i < n ==> wheels[i] in owned && wheels[i].Repr() <= owned && wheels[i].Valid()
    ensures forall i, j :: 0 <= i < n && 0 <= j < n && i != j ==> wheels[i].Repr() !! wheels[j].Repr()
    ensures forall i :: 0 <= i < n ==> wheels[i].abs == NOTHING
  {
    hide Wheel.Linked, Wheel.Booked, Wheel.Valid;
    wheels, owned := [], {};
    while |wheels| < n
      invariant |wheels| <= n && fresh(owned)
      invariant forall i :: 0 <= i < |wheels| ==> wheels[i] in owned && wheels[i].Repr() <= owned && wheels[i].Valid()
      invariant forall i, j :: 0 <= i < |wheels| && 0 <= j < |wheels| && i != j ==> wheels[i].Repr() !! wheels[j].Repr()
      invariant forall i :: 0 <= i < |wheels| ==> wheels[i].abs == NOTHING
    {
      var w := new Wheel();
      wheels := wheels + [w];
      owned := owned + w.Repr();
    }
  }

  class ShardedScheduler {
    const shards: seq<Wheel>
    const fnv: Key -> Sum32
    ghost var repr: set<object>

    /** Well-formed wheels that share no memory. */
    ghost predicate Separate()
      reads this, repr
    {
      && (forall i :: 0 <= i < |shards| ==> shards[i] in repr && shards[i].Repr() <= repr && shards[i].Valid())
      && (forall i, j :: 0 <= i < |shards| && 0 <= j < |shards| && i != j ==> shards[i].Repr() !! shards[j].Repr())
      && this !in repr
    }

    ghost function Parts(): seq<map<Key, Time>>
      reads this, repr
      requires Separate()
    {
      seq(|shards|, i requires 0 <= i < |shards| && shards[i] in repr reads this, repr => Contents(shards[i]))
    }

    ghost predicate Valid()
      reads this, repr
    {
      Separate() && Placed(fnv, Parts())
    }

    /** The whole scheduler as one map from key to due time. */
    ghost function Dues(): map<Key, Time>
      reads this, repr
      requires Valid()
    {
      Merged(Parts())
    }

    /** NewScheduler: a shard count that is not positive means the default. */
    constructor (shardCount: int, fnv: Key -> Sum32)
      requires shardCount < TWO_TO_THE_32
      ensures Valid() && fresh(repr) && Dues() == map[]
      ensures |shards| == if shardCount <= 0 then 64 else shardCount
    {
      hide Wheel.Linked, Wheel.Booked, Wheel.Valid;
      var n := if shardCount <= 0 then DEFAULT_SHARDS else shardCount;
      var wheels;
      ghost var owned;
      wheels, owned := NewWheels(n);
      this.shards := wheels;
      this.fnv := fnv;
      this.repr := owned;
      new;
      NothingMerged(Parts());
    }

    method ScheduleOn(i: nat, task: Task, now: Time) returns (r: ScheduleResult)
      requires Separate() && i < |shards|
      modifies this`repr, repr
      ensures Separate() && fresh(repr - old(repr))
      ensures r.Scheduled? <==> task.key != NO_NAME && task.hasHandler
      ensures Parts() == if r.Scheduled? then old(Parts())[i := old(Parts())[i][task.key := task.dueAt.Or(now)]] else old(Parts())
    {
      hide Wheel.Linked, Wheel.Booked, Sched.Inv, Sched.Dues, Insert, Count;
      InsertIsUpdate(shards[i].abs, task.key, task.dueAt.Or(now));
      r := shards[i].Schedule(task, now);
      repr := repr + shards[i].Repr();
    }

    method CancelOn(i: nat, key: Key) returns (found: bool)
      requires Separate() && i < |shards|
      modifies repr
      ensures Separate()
      ensures found <==> key != NO_NAME && key in old(Parts())[i]
      ensures Parts() == if found then old(Parts())[i := old(Parts())[i] - {key}] else old(Parts())
    {
      hide Wheel.Linked, Wheel.Booked, Sched.Inv, Sched.Dues;
      RemoveIsRemoval(shards[i].abs, key);
      SameKeys(shards[i].abs, key);
      found := shards[i].Cancel(key);
    }

    method Schedule(task: Task, now: Time) returns (r: ScheduleResult)
      requires Valid()
      modifies this`repr, repr
      ensures Valid() && fresh(repr - old(repr))
      ensures r.Scheduled? <==> task.key != NO_NAME && task.hasHandler
      ensures Dues() == if !r.Scheduled? then old(Dues())
                        else if task.dueAt == Unset then old(Dues())[task.key := now]
                        else old(Dues())[task.key := task.dueAt.time]
    {
      hide Merged, Placed, Separate;
      PlacedSize(fnv, Parts());
      var i := HashKey(fnv, task.key, |shards|);
      LocalUpdateIsGlobal(fnv, Parts(), task.key, task.dueAt.Or(now));
      r := ScheduleOn(i, task, now);
    }

    /** Cancel finds exactly what Schedule placed. */
    method Cancel(key: Key) returns (found: bool)
      requires Valid()
      modifies repr
      ensures Valid()
      ensures found <==> key != NO_NAME && key in old(Dues())
      ensures Dues() == if found then old(Dues()) - {key} else old(Dues())
    {
      hide Merged, Placed, Separate;
      PlacedSize(fnv, Parts());
      var i := HashKey(fnv, key, |shards|);
      LocalUpdateIsGlobal(fnv, Parts(), key, 0);
      LookupIsLocal(fnv, Parts(), key);
      found := CancelOn(i, key);
    }
  }
}

/** The binary heap of wheel.go with its `index` back-pointers, together with the sift-up
    and sift-down loops of Go's container/heap that drive it. */
module TimerHeap {
  import opened TimerSpec

  class WheelTask {
    const key: Key
    const due: Time
    const hasHandler: bool
    ghost const ticket: nat
    var cancelled: bool
    var index: int

    constructor (key: Key, due: Time, hasHandler: bool, ghost ticket: nat)
      ensures this.key == key && this.due == due && this.hasHandler == hasHandler && this.ticket == ticket
      ensures !cancelled && index == 0
    {
      this.key, this.due, this.hasHandler, this.ticket := key, due, hasHandler, ticket;
      cancelled, index := false, 0;
    }
  }

  /** (j - 1) / 2 with Go's truncation: the root is its own parent. */
  function Parent(j: nat): nat {
    if j == 0 then 0 else (j - 1) / 2
  }

  ghost predicate HeapOrdered(q: seq<WheelTask>) {
    forall j: nat {:trigger Parent(j)} :: 0 < j < |q| ==> q[Parent(j)].due <= q[j].due
  }

  /** Heap order everywhere except between `hole` and its parent. */
  ghost predicate OrderedExceptAbove(q: seq<WheelTask>, hole: nat) {
    && (forall j: nat {:trigger Parent(j)} :: 0 < j < |q| && j != hole ==> q[Parent(j)].due <= q[j].due)
    && (forall j: nat {:trigger Parent(j)} :: 0 < j < |q| && 0 < hole && Parent(j) == hole ==> q[Parent(hole)].due <= q[j].due)
  }

  /** Heap order in q[..n] everywhere except between `hole` and its children. */
  ghost predicate OrderedExceptBelow(q: seq<WheelTask>, n: nat, hole: nat)
    requires n <= |q|
  {
    && (forall j: nat {:trigger Parent(j)} :: 0 < j < n && Parent(j) != hole ==> q[Parent(j)].due <= q[j].due)
    && (forall j: nat {:trigger Parent(j)} :: 0 < j < n && 0 < hole && Parent(j) == hole ==> q[Parent(hole)].due <= q[j].due)
  }

  /** The root of a heap is a minimum. */
  lemma {:induction false} RootIsMinimum(q: seq<WheelTask>, j: nat)
    requires HeapOrdered(q) && j < |q|
    ensures q[0].due <= q[j].due
    decreases j
  {
    if j > 0 {
      RootIsMinimum(q, Parent(j));
    }
  }

  function Swapped(q: seq<WheelTask>, i: nat, j: nat): seq<WheelTask>
    requires i < |q| && j < |q|
  {
    q[i := q[j]][j := q[i]]
  }

  /** The child the sift-down loop compares with: the left one unless the right one is smaller. */
  function SmallerChild(q: seq<WheelTask>, n: nat, i: nat): (j: nat)
    requires 2 * i + 1 < n <= |q|
    ensures i < j < n && Parent(j) == i
    ensures forall c: nat {:trigger Parent(c)} :: 0 < c < n && Parent(c) == i ==> q[j].due <= q[c].due
  {
    var left := 2 * i + 1;
    assert forall c: nat {:trigger Parent(c)} :: 0 < c < n && Parent(c) == i ==> c == left || c == left + 1;
    if left + 1 < n && q[left + 1].due < q[left].due then left + 1 else left
  }

  /** One step of the sift-down loop moves the hole to the smaller child. */
  lemma SiftDownStep(q: seq<WheelTask>, n: nat, i: nat, j: nat)
    requires n <= |q| && 0 < j < n && Parent(j) == i && OrderedExceptBelow(q, n, i)
    requires forall c: nat {:trigger Parent(c)} :: 0 < c < n && Parent(c) == i ==> q[j].due <= q[c].due
    requires q[j].due < q[i].due
    ensures OrderedExceptBelow(Swapped(q, i, j), n, j)
  {
    var r := Swapped(q, i, j);
    forall c: nat | 0 < c < n && Parent(c) != j ensures r[Parent(c)].due <= r[c].due {
      assert q[Parent(c)].due <= q[c].due || Parent(c) == i;
    }
  }

  /** The sift-down loop may stop when the hole is no larger than its smaller child, or has none. */
  lemma SiftDownStop(q: seq<WheelTask>, n: nat, i: nat)
    requires n <= |q| && OrderedExceptBelow(q, n, i)
    requires forall c: nat {:trigger Parent(c)} :: 0 < c < n && Parent(c) == i ==> q[i].due <= q[c].due
    ensures HeapOrdered(q[..n])
  {
    var r := q[..n];
    forall c: nat | 0 < c < n ensures r[Parent(c)].due <= r[c].due {
      assert Parent(c) < c;
    }
  }

  /** One step of the sift-up loop moves the hole to the parent. */
  lemma SiftUpStep(q: seq<WheelTask>, i: nat, j: nat)
    requires 0 < j < |q| && i == Parent(j) && OrderedExceptAbove(q, j) && q[j].due < q[i].due
    ensures OrderedExceptAbove(Swapped(q, i, j), i)
  {
    var r := Swapped(q, i, j);
    forall c: nat | 0 < c < |q| && c != i ensures r[Parent(c)].due <= r[c].due {
      assert c == j || q[Parent(c)].due <= q[c].due;
    }
    forall c: nat | 0 < c < |q| && 0 < i && Parent(c) == i ensures r[Parent(i)].due <= r[c].due {
      assert q[Parent(i)].due <= q[i].due;
      assert c == j || q[Parent(c)].due <= q[c].due;
    }
  }

  /** The sift-up loop may stop at the root, or when the hole is no smaller than its parent. */
  lemma SiftUpStop(q: seq<WheelTask>, j: nat)
    requires j < |q| && OrderedExceptAbove(q, j) && (0 < j ==> q[Parent(j)].due <= q[j].due)
    ensures HeapOrdered(q)
  {
  }

  class TaskHeap {
    var queue: seq<WheelTask>
    ghost var contents: set<WheelTask>

    /** queue[i].index == i, and the back-pointers reach every task: no task occurs twice. */
    ghost predicate Indexed()
      reads this, contents`index
    {
      && (forall i :: 0 <= i < |queue| ==> queue[i] in contents && queue[i].index == i)
      && (forall t :: t in contents ==> 0 <= t.index < |queue| && queue[t.index] == t)
    }

    ghost predicate Valid()
      reads this, contents`index
    {
      Indexed() && HeapOrdered(queue)
    }

    constructor ()
      ensures Valid() && queue == [] && contents == {}
    {
      queue, contents := [], {};
    }

    method Swap(i: nat, j: nat)
      requires i < |queue| && j < |queue| && Indexed()
      modifies this`queue, contents`index
      ensures queue == Swapped(old(queue), i, j)
      ensures Indexed()
    {
      queue := Swapped(queue, i, j);
      queue[i].index := i;
      queue[j].index := j;
    }

    method Up(start: nat)
      requires start < |queue| && Indexed() && OrderedExceptAbove(queue, start)
      modifies this`queue, contents`index
      ensures Valid() && |queue| == old(|queue|)
    {
      hide OrderedExceptAbove, HeapOrdered;
      var j: nat := start;
      while true
        invariant j < |queue| == old(|queue|)
        invariant Indexed() && OrderedExceptAbove(queue, j)
        decreases j
      {
        var i := Parent(j);
        if i == j || !(queue[j].due < queue[i].due) {
          SiftUpStop(queue, j);
          break;
        }
        SiftUpStep(queue, i, j);
        Swap(i, j);
        j := i;
      }
    }

    method Down(start: nat, n: nat)
      requires n <= |queue| && Indexed() && OrderedExceptBelow(queue, n, start)
      modifies this`queue, contents`index
      ensures Indexed() && |queue| == old(|queue|)
      ensures queue[n..] == old(queue[n..])
      ensures HeapOrdered(queue[..n])
    {
      var i: nat := start;
      while true
        invariant |queue| == old(|queue|)
        invariant Indexed() && OrderedExceptBelow(queue, n, i)
        invariant queue[n..] == old(queue[n..])
        decreases n - i
      {
        if 2 * i + 1 >= n {
          SiftDownStop(queue, n, i);
          break;
        }
        var j := SmallerChild(queue, n, i);
        if !(queue[j].due < queue[i].due) {
          SiftDownStop(queue, n, i);
          break;
        }
        SiftDownStep(queue, n, i, j);
        Swap(i, j);
        i := j;
      }
    }

    /** heap.Push: append, then sift up. */
    method Push(item: WheelTask)
      requires Valid() && item !in contents
      modifies this, contents`index, item`index
      ensures Valid() && contents == old(contents) + {item}
    {
      item.index := |queue|;
      queue := queue + [item];
      contents := contents + {item};
      Up(|queue| - 1);
    }

    /** heap.Pop: swap the root with the last element, sift down, truncate. */
    method Pop() returns (item: WheelTask)
      requires Valid() && |queue| > 0
      modifies this, contents`index
      ensures Valid() && item == old(queue[0]) && item.index == -1
      ensures item in old(contents) && contents == old(contents) - {item}
      ensures |queue| == old(|queue|) - 1
      ensures forall t :: t in old(contents) ==> item.due <= t.due
    {
      forall t | t in contents ensures queue[0].due <= t.due {
        RootIsMinimum(queue, t.index);
      }
      var n := |queue| - 1;
      Swap(0, n);
      Down(0, n);
      item := queue[n];
      assert item == queue[n..][0];
      queue := queue[..n];
      contents := contents - {item};
      item.index := -1;
    }
  }
}

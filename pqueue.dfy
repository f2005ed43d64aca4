/**
 * lib/pqueue.c: a binary-heap priority queue over an array of (priority, value)
 * slots, min-first or max-first as fixed at creation. Each operation is proved
 * to do what the sequence-level functions of module Heaps say, so the heap
 * lemmas there carry over to the queue.
 */
module PriorityQueues {
  import opened Wrappers
  import opened Heaps

  /** DEFAULT_CAPACITY: the number of slots pqueue_create allocates. */
  const DEFAULT_CAPACITY: nat := 16

  /**
   * The priority of the first entry, in slot order, whose value is `v`; None
   * (the C code's NaN) when no entry holds `v`.
   */
  function FirstPriority<V(==)>(s: seq<Entry<V>>, v: V): (r: Option<int>)
    ensures r.None? <==> forall k :: 0 <= k < |s| ==> s[k].value != v
    ensures r.Some? ==> exists k :: 0 <= k < |s| && s[k] == Entry(r.value, v)
                                    && forall j :: 0 <= j < k ==> s[j].value != v
  {
    if s == [] then None
    else if s[0].value == v then Some(s[0].priority)
    else
      var r := FirstPriority(s[1..], v);
      assert r.Some? ==> exists k :: 0 <= k < |s| - 1 && s[1..][k] == Entry(r.value, v)
                                    && forall j :: 0 <= j < k ==> s[1..][j].value != v;
      r
  }

  class PQueue<V(==,0)> {
    /** Which comparator the queue was created with. */
    const order: Order
    var data: array<Entry<V>>
    var size: nat
    /** The stored entries in slot order: slot 0 is the root. */
    ghost var elems: seq<Entry<V>>

    ghost predicate Valid()
      reads this, data
    {
      0 < data.Length && size <= data.Length && elems == data[..size] && IsHeap(order, elems)
    }

    ghost function Contents(): seq<Entry<V>>
      reads this
    {
      elems
    }

    /** pqueue_create(type). */
    constructor (o: Order)
      ensures Valid() && fresh(data)
      ensures order == o && Contents() == [] && data.Length == DEFAULT_CAPACITY
    {
      order := o;
      data := new Entry<V>[DEFAULT_CAPACITY];
      size := 0;
      elems := [];
    }

    /**
     * pqueue_create: NULL when the `malloc` of the queue fails (`allocOk`
     * false) or that of its slots fails (`dataOk` false), else an empty queue.
     */
    static method Create(o: Order, allocOk: bool, dataOk: bool) returns (q: PQueue?<V>)
      ensures q != null <==> allocOk && dataOk
      ensures q != null ==> fresh(q) && fresh(q.data) && q.Valid()
      ensures q != null ==> q.order == o && q.Contents() == [] && q.data.Length == DEFAULT_CAPACITY
    {
      if !allocOk {
        return null;
      }
      if !dataOk {
        return null;
      }
      q := new PQueue(o);
    }

    /** pqueue_is_empty. */
    method IsEmpty() returns (empty: bool)
      requires Valid()
      ensures empty <==> Contents() == []
    {
      empty := size == 0;
    }

    /** bubble_up: sift the entry in the last occupied slot toward the root. */
    method BubbleUp()
      requires 0 < size <= data.Length
      modifies data
      ensures data[..size] == SiftUp(order, old(data[..size]), size - 1)
    {
      var idx: nat := size - 1;
      ghost var target := SiftUp(order, old(data[..size]), size - 1);
      while idx > 0
        invariant idx < size
        invariant SiftUp(order, data[..size], idx) == target
      {
        var parentIdx := Parent(idx);
        if MoreUrgent(order, data[idx].priority, data[parentIdx].priority) {
          ghost var before := data[..size];
          assert SiftUp(order, before, idx) == SiftUp(order, Swap(before, idx, parentIdx), parentIdx);
          data[idx], data[parentIdx] := data[parentIdx], data[idx];
          assert data[..size] == Swap(before, idx, parentIdx);
        } else {
          assert SiftUp(order, data[..size], idx) == data[..size];
          return;
        }
        idx := parentIdx;
      }
      assert SiftUp(order, data[..size], 0) == data[..size];
    }

    /**
     * pqueue_enqueue(priority, value). `allocOk` is the outcome of allocating
     * the new slot's node; when it fails nothing changes. A full array is
     * doubled first (see the README's Findings: the C code has no growth).
     */
    method Enqueue(priority: int, value: V, allocOk: bool) returns (ok: bool)
      requires Valid()
      modifies this, data
      ensures Valid()
      ensures ok == allocOk
      ensures Contents() == if ok then Push(order, old(Contents()), Entry(priority, value)) else old(Contents())
      ensures data == old(data) || (fresh(data) && data.Length == 2 * old(data.Length))
    {
      if !allocOk {
        return false;
      }
      if size == data.Length {
        Grow();
      }
      ghost var before := data[..size];
      var e := Entry(priority, value);
      data[size] := e;
      size := size + 1;
      assert data[..size] == before + [e];
      BubbleUp();
      assert data[..size] == Push(order, before, e);
      PushKeepsHeap(order, before, e);
      elems := data[..size];
      ok := true;
    }

    /** Double the slot array, keeping the stored entries in their slots. */
    method Grow()
      requires Valid()
      modifies this
      ensures Valid() && size == old(size) && Contents() == old(Contents())
      ensures fresh(data) && data.Length == 2 * old(data.Length)
    {
      var bigger := new Entry<V>[2 * data.Length];
      var k := 0;
      while k < size
        modifies bigger
        invariant k <= size <= data.Length < bigger.Length
        invariant bigger[..k] == data[..k]
      {
        bigger[k] := data[k];
        k := k + 1;
      }
      data := bigger;
    }

    /**
     * bubble_down: sift the root's entry down, each time toward the more
     * urgent child, until it is strictly more urgent than that child. With a
     * lone left child the C code falls through to compare slot `size`, which
     * still holds the entry being sifted; the outcome is the one of the rule
     * used here for every node.
     */
    method BubbleDown()
      requires size <= data.Length
      modifies data
      ensures size > 0 ==> data[..size] == SiftDown(order, old(data[..size]), 0)
    {
      if size == 0 {
        return;
      }
      var idx := 0;
      ghost var target := SiftDown(order, data[..size], idx);
      while idx < size
        invariant idx < size
        invariant SiftDown(order, data[..size], idx) == target
        decreases size - idx
      {
        var leftIdx, rightIdx := Left(idx), Right(idx);
        if leftIdx >= size {
          return;
        }
        var toSwapIdx := leftIdx;
        if rightIdx < size && MoreUrgent(order, data[rightIdx].priority, data[leftIdx].priority) {
          toSwapIdx := rightIdx;
        }
        assert toSwapIdx == UrgentChild(order, data[..size], idx);
        if MoreUrgent(order, data[idx].priority, data[toSwapIdx].priority) {
          return;
        }
        ghost var before := data[..size];
        assert SiftDown(order, before, idx) == SiftDown(order, Swap(before, idx, toSwapIdx), toSwapIdx);
        data[idx], data[toSwapIdx] := data[toSwapIdx], data[idx];
        assert data[..size] == Swap(before, idx, toSwapIdx);
        idx := toSwapIdx;
      }
    }

    /**
     * pqueue_dequeue: None on an empty queue; otherwise the root entry, which
     * is at least as urgent as every stored entry, and the queue loses exactly
     * that entry.
     */
    method Dequeue() returns (r: Option<Entry<V>>)
      requires Valid()
      modifies this, data
      ensures Valid() && data == old(data)
      ensures old(Contents()) == [] ==> r == None && Contents() == []
      ensures old(Contents()) != [] ==> r == Some(old(Contents())[0]) && Contents() == Pop(order, old(Contents()))
      ensures r.Some? ==> forall k :: 0 <= k < |old(Contents())| ==>
                            AtLeastAsUrgent(order, r.value.priority, old(Contents())[k].priority)
    {
      if size == 0 {
        return None;
      }
      ghost var before := data[..size];
      forall k | 0 <= k < size
        ensures AtLeastAsUrgent(order, data[0].priority, data[k].priority)
      {
        RootMostUrgent(order, before, k);
      }
      r := Some(data[0]);
      data[0] := data[size - 1];
      size := size - 1;
      assert data[..size] == before[0 := before[|before| - 1]][..|before| - 1];
      BubbleDown();
      PopKeepsHeap(order, before);
      elems := data[..size];
    }

    /** pqueue_contains: is `value` stored in some slot (compared by identity)? */
    method Contains(value: V) returns (found: bool)
      requires Valid()
      ensures found <==> exists k :: 0 <= k < |Contents()| && Contents()[k].value == value
    {
      var n := 0;
      while n < size
        invariant n <= size
        invariant forall k :: 0 <= k < n ==> data[k].value != value
      {
        if data[n].value == value {
          assert Contents()[n].value == value;
          return true;
        }
        n := n + 1;
      }
      return false;
    }

    /** pqueue_get_priority: the priority of the first slot holding `value`, or None (NaN). */
    method GetPriority(value: V) returns (p: Option<int>)
      requires Valid()
      ensures p == FirstPriority(Contents(), value)
    {
      var n := 0;
      while n < size
        invariant n <= size
        invariant FirstPriority(data[..size], value) == FirstPriority(data[n..size], value)
      {
        if data[n].value == value {
          return Some(data[n].priority);
        }
        assert data[n..size][1..] == data[n + 1..size];
        n := n + 1;
      }
      return None;
    }
  }

  // ---------------------------------------------------------------------------
  // The queue as the C code writes it: no growth

  /**
   * pqueue_enqueue as written: the new entry goes to slot `size` of an array
   * that always has DEFAULT_CAPACITY slots. None stands for the write past the
   * end of that array once all slots are taken.
   */
  function FixedCapacityPush<V>(o: Order, s: seq<Entry<V>>, e: Entry<V>): Option<seq<Entry<V>>> {
    if |s| < DEFAULT_CAPACITY then Some(Push(o, s, e)) else None
  }

  /**
   * Sixteen equal-priority entries fill the fixed array: the seventeenth
   * enqueue has no slot, while the growing queue takes it.
   */
  lemma SeventeenthEnqueueOverflows<V>(o: Order, v: V)
    ensures var full := seq(DEFAULT_CAPACITY, k => Entry(0, v));
            IsHeap(o, full)
            && FixedCapacityPush(o, full, Entry(0, v)) == None
            && |Push(o, full, Entry(0, v))| == DEFAULT_CAPACITY + 1
  {
  }
}

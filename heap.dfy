/**
 * The binary-heap discipline behind the priority queue of lib/pqueue.c, stated
 * on sequences: the index arithmetic, the two sifting passes, and what they
 * guarantee. The array-based queue (module PriorityQueues) is proved to do
 * exactly what these functions say.
 */
module Heaps {

  /** MIN_PQUEUE serves the smallest priority first, MAX_PQUEUE the largest. */
  datatype Order = MinFirst | MaxFirst

  /** One stored (priority, value) pair. */
  datatype Entry<V> = Entry(priority: int, value: V)

  /** The comparator chosen at creation: is priority `a` strictly more urgent than `b`? */
  predicate MoreUrgent(o: Order, a: int, b: int) {
    match o
    case MinFirst => a < b
    case MaxFirst => a > b
  }

  /** `a` is at least as urgent as `b`: `b` does not beat it. */
  predicate AtLeastAsUrgent(o: Order, a: int, b: int) {
    !MoreUrgent(o, b, a)
  }

  // ---------------------------------------------------------------------------
  // Index arithmetic of the implicit binary tree

  function Parent(i: nat): nat
    requires i > 0
  {
    (i - 1) / 2
  }

  function Left(i: nat): (l: nat)
    ensures l > i && Parent(l) == i
  {
    2 * i + 1
  }

  function Right(i: nat): (r: nat)
    ensures r > i && Parent(r) == i && r == Left(i) + 1
  {
    2 * i + 2
  }

  /** Exchange the entries in slots `i` and `j`. */
  function Swap<V>(s: seq<V>, i: nat, j: nat): (t: seq<V>)
    requires i < |s| && j < |s|
    ensures |t| == |s| && t[i] == s[j] && t[j] == s[i]
    ensures forall k :: 0 <= k < |s| && k != i && k != j ==> t[k] == s[k]
  {
    s[i := s[j]][j := s[i]]
  }

  // ---------------------------------------------------------------------------
  // Heap order

  /** No entry is strictly more urgent than its parent. */
  ghost predicate IsHeap<V>(o: Order, s: seq<Entry<V>>) {
    forall j :: 0 < j < |s| ==> AtLeastAsUrgent(o, s[Parent(j)].priority, s[j].priority)
  }

  /**
   * Heap order holds except on the link from `i` up to its parent, and the
   * children of `i` already respect `i`'s parent: the state bubble_up works in.
   */
  ghost predicate HeapExceptUp<V>(o: Order, s: seq<Entry<V>>, i: nat)
    requires i < |s|
  {
    && (forall j :: 0 < j < |s| && j != i ==> AtLeastAsUrgent(o, s[Parent(j)].priority, s[j].priority))
    && (i > 0 ==> forall j :: 0 < j < |s| && Parent(j) == i ==>
          AtLeastAsUrgent(o, s[Parent(i)].priority, s[j].priority))
  }

  /**
   * Heap order holds except on the links from `i` down to its children, and
   * those children already respect `i`'s parent: the state bubble_down works in.
   */
  ghost predicate HeapExceptDown<V>(o: Order, s: seq<Entry<V>>, i: nat)
    requires i < |s|
  {
    && (forall j :: 0 < j < |s| && Parent(j) != i ==> AtLeastAsUrgent(o, s[Parent(j)].priority, s[j].priority))
    && (i > 0 ==> forall j :: 0 < j < |s| && Parent(j) == i ==>
          AtLeastAsUrgent(o, s[Parent(i)].priority, s[j].priority))
  }

  // ---------------------------------------------------------------------------
  // The two sifting passes

  /**
   * bubble_up from slot `i`: while the entry is strictly more urgent than its
   * parent, exchange the two and continue from the parent's slot.
   */
  function SiftUp<V>(o: Order, s: seq<Entry<V>>, i: nat): (r: seq<Entry<V>>)
    requires i < |s|
    ensures |r| == |s|
    decreases i
  {
    if i == 0 then s
    else if MoreUrgent(o, s[i].priority, s[Parent(i)].priority) then SiftUp(o, Swap(s, i, Parent(i)), Parent(i))
    else s
  }

  /** The child bubble_down would exchange with: the right one only when it is strictly more urgent than the left. */
  function UrgentChild<V>(o: Order, s: seq<Entry<V>>, i: nat): (c: nat)
    requires Left(i) < |s|
    ensures i < c < |s| && Parent(c) == i && (c == Left(i) || c == Right(i))
    ensures Right(i) < |s| ==> AtLeastAsUrgent(o, s[c].priority, s[Left(i)].priority)
                               && AtLeastAsUrgent(o, s[c].priority, s[Right(i)].priority)
  {
    if Right(i) < |s| && MoreUrgent(o, s[Right(i)].priority, s[Left(i)].priority) then Right(i) else Left(i)
  }

  /**
   * bubble_down from slot `i`: stop when `i` has no child or is strictly more
   * urgent than its more urgent child; otherwise exchange and continue there.
   * A lone left child is treated by the same rule as a pair of children.
   */
  function SiftDown<V>(o: Order, s: seq<Entry<V>>, i: nat): (r: seq<Entry<V>>)
    requires i < |s|
    ensures |r| == |s|
    decreases |s| - i
  {
    if Left(i) >= |s| then s
    else
      var c := UrgentChild(o, s, i);
      if MoreUrgent(o, s[i].priority, s[c].priority) then s
      else SiftDown(o, Swap(s, i, c), c)
  }

  /** Sifting only permutes the entries. */
  lemma {:induction false} SiftUpPermutes<V>(o: Order, s: seq<Entry<V>>, i: nat)
    requires i < |s|
    ensures multiset(SiftUp(o, s, i)) == multiset(s)
    decreases i
  {
    if i > 0 && MoreUrgent(o, s[i].priority, s[Parent(i)].priority) {
      SiftUpPermutes(o, Swap(s, i, Parent(i)), Parent(i));
    }
  }

  lemma {:induction false} SiftDownPermutes<V>(o: Order, s: seq<Entry<V>>, i: nat)
    requires i < |s|
    ensures multiset(SiftDown(o, s, i)) == multiset(s)
    decreases |s| - i
  {
    if Left(i) < |s| {
      var c := UrgentChild(o, s, i);
      if !MoreUrgent(o, s[i].priority, s[c].priority) {
        SiftDownPermutes(o, Swap(s, i, c), c);
      }
    }
  }

  /** pqueue_enqueue: store the entry in the next free slot, then bubble it up. */
  function Push<V>(o: Order, s: seq<Entry<V>>, e: Entry<V>): (r: seq<Entry<V>>)
    ensures |r| == |s| + 1
  {
    SiftUp(o, s + [e], |s|)
  }

  /** Enqueuing adds exactly the one entry. */
  lemma PushAddsEntry<V>(o: Order, s: seq<Entry<V>>, e: Entry<V>)
    ensures multiset(Push(o, s, e)) == multiset(s) + multiset{e}
  {
    SiftUpPermutes(o, s + [e], |s|);
  }

  /** pqueue_dequeue: move the last entry into the root's slot, shrink by one, then bubble it down. */
  function Pop<V>(o: Order, s: seq<Entry<V>>): (r: seq<Entry<V>>)
    requires |s| > 0
    ensures |r| == |s| - 1
  {
    if |s| == 1 then [] else SiftDown(o, s[0 := s[|s| - 1]][..|s| - 1], 0)
  }

  /** Dequeuing removes exactly the root entry. */
  lemma PopRemovesRoot<V>(o: Order, s: seq<Entry<V>>)
    requires |s| > 0
    ensures multiset(Pop(o, s)) == multiset(s) - multiset{s[0]}
  {
    if |s| > 1 {
      var t := s[0 := s[|s| - 1]][..|s| - 1];
      assert s == [s[0]] + t[1..] + [s[|s| - 1]];
      assert t == [s[|s| - 1]] + t[1..];
      SiftDownPermutes(o, t, 0);
    }
  }

  // ---------------------------------------------------------------------------
  // What the passes guarantee

  lemma {:induction false} SiftUpRestoresHeap<V>(o: Order, s: seq<Entry<V>>, i: nat)
    requires i < |s| && HeapExceptUp(o, s, i)
    ensures IsHeap(o, SiftUp(o, s, i))
    decreases i
  {
    if i > 0 && MoreUrgent(o, s[i].priority, s[Parent(i)].priority) {
      var p := Parent(i);
      var t := Swap(s, i, p);
      forall j | 0 < j < |t| && j != p
        ensures AtLeastAsUrgent(o, t[Parent(j)].priority, t[j].priority)
      {
        if j == i {
        } else if Parent(j) == i {
        } else if Parent(j) == p {
          assert AtLeastAsUrgent(o, s[p].priority, s[j].priority);
        } else {
          assert Parent(j) != i && Parent(j) != p;
        }
      }
      if p > 0 {
        forall j | 0 < j < |t| && Parent(j) == p
          ensures AtLeastAsUrgent(o, t[Parent(p)].priority, t[j].priority)
        {
          assert AtLeastAsUrgent(o, s[Parent(p)].priority, s[p].priority);
          if j != i {
            assert AtLeastAsUrgent(o, s[p].priority, s[j].priority);
          }
        }
      }
      SiftUpRestoresHeap(o, t, p);
    }
  }

  lemma {:induction false} SiftDownRestoresHeap<V>(o: Order, s: seq<Entry<V>>, i: nat)
    requires i < |s| && HeapExceptDown(o, s, i)
    ensures IsHeap(o, SiftDown(o, s, i))
    decreases |s| - i
  {
    if Left(i) < |s| {
      var c := UrgentChild(o, s, i);
      if MoreUrgent(o, s[i].priority, s[c].priority) {
        forall j | 0 < j < |s| && Parent(j) == i
          ensures AtLeastAsUrgent(o, s[i].priority, s[j].priority)
        {
          assert j == Left(i) || j == Right(i);
        }
      } else {
        var t := Swap(s, i, c);
        forall j | 0 < j < |t| && Parent(j) != c
          ensures AtLeastAsUrgent(o, t[Parent(j)].priority, t[j].priority)
        {
          if j == c {
          } else if Parent(j) == i {
            assert j == Left(i) || j == Right(i);
          } else if j == i {
          } else {
            assert Parent(j) != i && Parent(j) != c && j != c && j != i;
          }
        }
        forall j | 0 < j < |t| && Parent(j) == c
          ensures AtLeastAsUrgent(o, t[Parent(c)].priority, t[j].priority)
        {
          assert Parent(j) != i;
        }
        SiftDownRestoresHeap(o, t, c);
      }
    }
  }

  lemma PushKeepsHeap<V>(o: Order, s: seq<Entry<V>>, e: Entry<V>)
    requires IsHeap(o, s)
    ensures IsHeap(o, Push(o, s, e))
  {
    SiftUpRestoresHeap(o, s + [e], |s|);
  }

  lemma PopKeepsHeap<V>(o: Order, s: seq<Entry<V>>)
    requires |s| > 0 && IsHeap(o, s)
    ensures IsHeap(o, Pop(o, s))
  {
    if |s| > 1 {
      var t := s[0 := s[|s| - 1]][..|s| - 1];
      assert HeapExceptDown(o, t, 0);
      SiftDownRestoresHeap(o, t, 0);
    }
  }

  /** The root of a heap is at least as urgent as every entry. */
  lemma {:induction false} RootMostUrgent<V>(o: Order, s: seq<Entry<V>>, j: nat)
    requires IsHeap(o, s) && j < |s|
    ensures AtLeastAsUrgent(o, s[0].priority, s[j].priority)
    decreases j
  {
    if j > 0 {
      RootMostUrgent(o, s, Parent(j));
    }
  }

  /** Two dequeues in a row: the second priority is never more urgent than the first. */
  lemma {:induction false} PopNotMoreUrgent<V>(o: Order, s: seq<Entry<V>>)
    requires IsHeap(o, s) && |s| >= 2
    ensures AtLeastAsUrgent(o, s[0].priority, Pop(o, s)[0].priority)
  {
    var r := Pop(o, s);
    PopRemovesRoot(o, s);
    assert r[0] in multiset(r);
    assert r[0] in multiset(s);
    var j :| 0 <= j < |s| && s[j] == r[0];
    RootMostUrgent(o, s, j);
  }

  /** The priorities served by dequeuing until the queue is empty. */
  function Drain<V>(o: Order, s: seq<Entry<V>>): (ps: seq<int>)
    ensures |ps| == |s|
    decreases |s|
  {
    if s == [] then [] else [s[0].priority] + Drain(o, Pop(o, s))
  }

  /** Draining a heap serves priorities in order: non-decreasing for MIN_PQUEUE, non-increasing for MAX_PQUEUE. */
  lemma {:induction false} DrainIsOrdered<V>(o: Order, s: seq<Entry<V>>)
    requires IsHeap(o, s)
    ensures forall k :: 0 <= k < |s| - 1 ==> AtLeastAsUrgent(o, Drain(o, s)[k], Drain(o, s)[k + 1])
    decreases |s|
  {
    if |s| >= 2 {
      var rest := Pop(o, s);
      PopKeepsHeap(o, s);
      PopNotMoreUrgent(o, s);
      DrainIsOrdered(o, rest);
      var d := Drain(o, s);
      assert d == [s[0].priority] + Drain(o, rest);
      forall k | 0 <= k < |s| - 1
        ensures AtLeastAsUrgent(o, d[k], d[k + 1])
      {
        if k > 0 {
          assert d[k] == Drain(o, rest)[k - 1];
        }
      }
    }
  }
}

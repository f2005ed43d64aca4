/**
 * lib/list-ll.c: a singly linked list of nodes with a link to the head, one to the last
 * node and a size counter. The abstract value is the sequence of stored
 * items, `Contents`; the ghost `Spine` lists the nodes in link order.
 */
module LinkedLists {
  import opened Wrappers

  class Node<T> {
    var data: T
    var next: Node?<T>

    constructor (x: T)
      ensures data == x && next == null
    {
      data := x;
      next := null;
    }
  }

  /** The result of applying `f` to every item in order, starting from `init`. */
  ghost function FoldLeft<A, T>(f: (A, T) -> A, init: A, s: seq<T>): A
    decreases |s|
  {
    if s == [] then init else f(FoldLeft(f, init, s[..|s| - 1]), s[|s| - 1])
  }

  class LinkedList<T> {
    var head: Node?<T>
    var last: Node?<T>
    var sz: nat

    ghost var Contents: seq<T>
    ghost var Spine: seq<Node<T>>
    ghost var Repr: set<object>

    /**
     * `sz` counts the nodes reachable from `head`, each node links to the
     * next one in `Spine`, `last` is the final node (null exactly when the
     * list is empty) and the nodes are pairwise distinct.
     */
    ghost predicate Valid()
      reads this, Repr
    {
      this in Repr
      && (forall i :: 0 <= i < |Spine| ==> Spine[i] in Repr)
      && |Spine| == |Contents| == sz
      && (sz == 0 ==> head == null && last == null)
      && (sz > 0 ==> head == Spine[0] && last == Spine[sz - 1] && last.next == null)
      && (forall i :: 0 <= i < sz - 1 ==> Spine[i].next == Spine[i + 1])
      && (forall i :: 0 <= i < sz ==> Spine[i].data == Contents[i])
      && (forall i, j :: 0 <= i < j < sz ==> Spine[i] != Spine[j])
    }

    /** list_create: no head, no last, size 0. */
    constructor ()
      ensures Valid() && fresh(Repr)
      ensures Contents == [] && head == null && last == null && sz == 0
    {
      head, last, sz := null, null, 0;
      Contents, Spine := [], [];
      Repr := {this};
    }

    /** list_create: NULL when the `malloc` fails (`allocOk` false), else an empty list. */
    static method Create(allocOk: bool) returns (l: LinkedList?<T>)
      ensures l != null <==> allocOk
      ensures l != null ==> l.Valid() && fresh(l.Repr) && l.Contents == [] && l.sz == 0
    {
      if !allocOk {
        return null;
      }
      l := new LinkedList();
    }

    /** list_size. */
    method Size() returns (n: nat)
      requires Valid()
      ensures n == |Contents|
    {
      n := sz;
    }

    /**
     * Walk `idx` links from the head, as list_get and list_set do: the node
     * at position `idx`, or null once the walk falls off the end.
     */
    method Walk(idx: nat) returns (curr: Node?<T>)
      requires Valid()
      ensures idx < |Contents| ==> curr == Spine[idx]
      ensures idx >= |Contents| ==> curr == null
    {
      curr := head;
      var i: nat := idx;
      ghost var k := 0;
      while curr != null && i > 0
        invariant k + i == idx && k <= sz
        invariant curr == if k < sz then Spine[k] else null
      {
        curr := curr.next;
        i := i - 1;
        k := k + 1;
      }
    }

    /** list_get: the item at position `idx`, or None (NULL) when `idx` is out of range. */
    method Get(idx: nat) returns (r: Option<T>)
      requires Valid()
      ensures idx < |Contents| ==> r == Some(Contents[idx])
      ensures idx >= |Contents| ==> r == None
    {
      var curr := Walk(idx);
      if curr == null {
        r := None;
      } else {
        r := Some(curr.data);
      }
    }

    /** list_set: replace the item at position `idx`; nothing happens when it is out of range. */
    method Set(idx: nat, v: T)
      requires Valid()
      modifies Repr
      ensures Valid() && Repr == old(Repr) && Spine == old(Spine)
      ensures Contents == if idx < |old(Contents)| then old(Contents)[idx := v] else old(Contents)
    {
      var curr := Walk(idx);
      if curr != null {
        curr.data := v;
        Contents := Contents[idx := v];
      }
    }

    /**
     * list_append. `allocOk` is the outcome of allocating the new node; when
     * it fails the list is left as it was.
     */
    method Append(x: T, allocOk: bool)
      requires Valid()
      modifies Repr
      ensures Valid() && fresh(Repr - old(Repr))
      ensures Contents == if allocOk then old(Contents) + [x] else old(Contents)
    {
      if !allocOk {
        return;
      }
      var n := new Node(x);
      if last != null {
        last.next := n;
      } else {
        head := n;
      }
      last := n;
      sz := sz + 1;
      Contents, Spine := Contents + [x], Spine + [n];
      Repr := Repr + {n};
    }

    /**
     * list_prepend. `allocOk` is the outcome of allocating the new node; when
     * it fails the list is left as it was.
     */
    method Prepend(x: T, allocOk: bool)
      requires Valid()
      modifies Repr
      ensures Valid() && fresh(Repr - old(Repr))
      ensures Contents == if allocOk then [x] + old(Contents) else old(Contents)
    {
      if !allocOk {
        return;
      }
      var n := new Node(x);
      n.next := head;
      if last == null {
        last := n;
      }
      sz := sz + 1;
      head := n;
      Contents, Spine := [x] + Contents, [n] + Spine;
      Repr := Repr + {n};
    }

    /** list_iterate, as a fold: apply `f` to every item from head to last. */
    method Fold<A>(f: (A, T) -> A, init: A) returns (acc: A)
      requires Valid()
      ensures acc == FoldLeft(f, init, Contents)
    {
      acc := init;
      var curr := head;
      ghost var k := 0;
      while curr != null
        invariant k <= sz
        invariant curr == if k < sz then Spine[k] else null
        invariant acc == FoldLeft(f, init, Contents[..k])
        decreases sz - k
      {
        assert Contents[..k + 1][..k] == Contents[..k];
        acc := f(acc, curr.data);
        curr := curr.next;
        k := k + 1;
      }
      assert Contents[..k] == Contents;
    }
  }
}

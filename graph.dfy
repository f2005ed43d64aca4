/**
 * lib/graph.c: a directed weighted graph kept as a list of nodes, newest
 * first, each with its own list of out-edges, newest first. Node payloads
 * are compared with the graph's comparator (here: equality of payloads).
 * Each node also has an identity, standing for its address: an edge refers
 * to its target node by identity and reads the target's payload through
 * it, so an edge into a removed node keeps referring to that node.
 */
module Graphs {
  import opened Wrappers

  /** An out-edge: the target node's identity, the payload that node holds, the weight. */
  datatype Edge<T> = Edge(target: nat, targetData: T, weight: int)

  /** A node: its identity, its payload and its out-edges. */
  datatype Vertex<T> = Vertex(id: nat, data: T, edges: seq<Edge<T>>)

  // ---------------------------------------------------------------------------
  // First-match searches, the loops the C code repeats in every operation

  /** The position of the first node whose payload is `x`. */
  function Find<T(==)>(vs: seq<Vertex<T>>, x: T): (r: Option<nat>)
    ensures r.None? <==> forall i :: 0 <= i < |vs| ==> vs[i].data != x
    ensures r.Some? ==> r.value < |vs| && vs[r.value].data == x
                        && forall j :: 0 <= j < r.value ==> vs[j].data != x
  {
    if vs == [] then None
    else if vs[0].data == x then Some(0)
    else match Find(vs[1..], x)
      case None => None
      case Some(k) => assert vs[1..][k] == vs[k + 1]; Some(k + 1)
  }

  /** With unique payloads, the node holding `x` is the one `Find` reports. */
  lemma FindUnique<T>(vs: seq<Vertex<T>>, x: T, i: nat)
    requires DataUnique(vs) && i < |vs| && vs[i].data == x
    ensures Find(vs, x) == Some(i)
  {
    assert forall j :: 0 <= j < i ==> vs[j].data != vs[i].data;
  }

  /** The position of the first edge whose target holds payload `x`. */
  function EdgeFor<T(==)>(es: seq<Edge<T>>, x: T): (r: Option<nat>)
    ensures r.None? <==> forall i :: 0 <= i < |es| ==> es[i].targetData != x
    ensures r.Some? ==> r.value < |es| && es[r.value].targetData == x
                        && forall j :: 0 <= j < r.value ==> es[j].targetData != x
  {
    if es == [] then None
    else if es[0].targetData == x then Some(0)
    else match EdgeFor(es[1..], x)
      case None => None
      case Some(k) => assert es[1..][k] == es[k + 1]; Some(k + 1)
  }

  /** The position of the first edge into the node with identity `id`. */
  function EdgeTo<T>(es: seq<Edge<T>>, id: nat): (r: Option<nat>)
    ensures r.None? <==> forall i :: 0 <= i < |es| ==> es[i].target != id
    ensures r.Some? ==> r.value < |es| && es[r.value].target == id
    ensures r.Some? ==> forall i :: 0 <= i < r.value ==> es[i].target != id
  {
    if es == [] then None
    else if es[0].target == id then Some(0)
    else match EdgeTo(es[1..], id)
      case None => None
      case Some(k) => assert es[1..][k] == es[k + 1]; Some(k + 1)
  }

  /** `s` without its element at position `k`: an unlinked list cell. */
  function Without<X>(s: seq<X>, k: nat): (r: seq<X>)
    requires k < |s|
    ensures |r| == |s| - 1
    ensures forall j :: 0 <= j < |r| ==> r[j] == s[if j < k then j else j + 1]
  {
    s[..k] + s[k + 1..]
  }

  // ---------------------------------------------------------------------------
  // Invariants

  /** Edge targets were handed out before `nextId`, and no two edges of the list share a target. */
  ghost predicate EdgesOk<T>(es: seq<Edge<T>>, nextId: nat) {
    (forall k :: 0 <= k < |es| ==> es[k].target < nextId)
    && (forall k, l :: 0 <= k < l < |es| ==> es[k].target != es[l].target)
  }

  /** Each edge of `es` into a node of `vs` carries that node's payload. */
  ghost predicate EdgesAgree<T>(es: seq<Edge<T>>, vs: seq<Vertex<T>>) {
    forall k, j :: 0 <= k < |es| && 0 <= j < |vs| && es[k].target == vs[j].id ==>
      es[k].targetData == vs[j].data
  }

  /** Some node of `vs` has identity `id`. */
  ghost predicate Live<T>(vs: seq<Vertex<T>>, id: nat) {
    exists j :: 0 <= j < |vs| && vs[j].id == id
  }

  /** Each edge of `es` leads to a node of `vs`. */
  ghost predicate EdgesLive<T>(es: seq<Edge<T>>, vs: seq<Vertex<T>>) {
    forall k :: 0 <= k < |es| ==> Live(vs, es[k].target)
  }

  /** No two nodes hold the same payload (the comparator never matches twice). */
  ghost predicate DataUnique<T>(vs: seq<Vertex<T>>) {
    forall i, j :: 0 <= i < j < |vs| ==> vs[i].data != vs[j].data
  }

  /**
   * Payloads and identities are unique, identities and edge targets were all
   * handed out before `nextId`, a node has at most one edge into any node,
   * and an edge into a node still in the graph carries that node's payload.
   */
  ghost predicate WellFormed<T>(vs: seq<Vertex<T>>, nextId: nat) {
    DataUnique(vs)
    && (forall i, j :: 0 <= i < j < |vs| ==> vs[i].id != vs[j].id)
    && (forall i :: 0 <= i < |vs| ==>
          vs[i].id < nextId && EdgesOk(vs[i].edges, nextId) && EdgesAgree(vs[i].edges, vs))
  }

  /** No edge leads to a node that has left the graph. */
  ghost predicate Closed<T>(vs: seq<Vertex<T>>) {
    forall i :: 0 <= i < |vs| ==> EdgesLive(vs[i].edges, vs)
  }

  /** `vs` and `ws` hold the same nodes (identities and payloads) in the same order. */
  ghost predicate SameNodes<T>(vs: seq<Vertex<T>>, ws: seq<Vertex<T>>) {
    |vs| == |ws| && forall j :: 0 <= j < |vs| ==> vs[j].id == ws[j].id && vs[j].data == ws[j].data
  }

  /** Replacing one node's edges keeps every node's number and payload. */
  lemma SetEdgesSame<T>(vs: seq<Vertex<T>>, f: nat, es: seq<Edge<T>>)
    requires f < |vs|
    ensures SameNodes(vs, vs[f := vs[f].(edges := es)])
  {
  }

  lemma SameNodesKeep<T>(es: seq<Edge<T>>, vs: seq<Vertex<T>>, ws: seq<Vertex<T>>)
    requires SameNodes(vs, ws)
    ensures EdgesAgree(es, vs) ==> EdgesAgree(es, ws)
    ensures EdgesLive(es, vs) ==> EdgesLive(es, ws)
  {
    if EdgesLive(es, vs) {
      forall k | 0 <= k < |es|
        ensures Live(ws, es[k].target)
      {
        var j :| 0 <= j < |vs| && vs[j].id == es[k].target;
        assert ws[j].id == es[k].target;
      }
    }
  }

  /**
   * Giving one node a sound edge list keeps the graph well formed, and free
   * of dangling edges when the new list has none.
   */
  lemma SetEdgesKeeps<T>(vs: seq<Vertex<T>>, nextId: nat, f: nat, es: seq<Edge<T>>)
    requires WellFormed(vs, nextId) && f < |vs| && EdgesOk(es, nextId) && EdgesAgree(es, vs)
    ensures WellFormed(vs[f := vs[f].(edges := es)], nextId)
    ensures SameNodes(vs, vs[f := vs[f].(edges := es)])
    ensures Closed(vs) && EdgesLive(es, vs) ==> Closed(vs[f := vs[f].(edges := es)])
  {
    var r := vs[f := vs[f].(edges := es)];
    assert SameNodes(vs, r);
    forall i | 0 <= i < |r|
      ensures EdgesAgree(r[i].edges, r) && (Closed(vs) && EdgesLive(es, vs) ==> EdgesLive(r[i].edges, r))
    {
      SameNodesKeep(r[i].edges, vs, r);
    }
  }

  /** Unlinking one edge keeps an edge list sound. */
  lemma WithoutEdgeKeeps<T>(es: seq<Edge<T>>, k: nat, nextId: nat, vs: seq<Vertex<T>>)
    requires k < |es| && EdgesOk(es, nextId)
    ensures EdgesOk(Without(es, k), nextId)
    ensures EdgesAgree(es, vs) ==> EdgesAgree(Without(es, k), vs)
    ensures EdgesLive(es, vs) ==> EdgesLive(Without(es, k), vs)
  {
    var r := Without(es, k);
    forall a, b | 0 <= a < b < |r|
      ensures r[a].target != r[b].target
    {
      assert r[a] == es[if a < k then a else a + 1] && r[b] == es[if b < k then b else b + 1];
    }
  }

  // ---------------------------------------------------------------------------
  // The operations on the node list

  /** graph_add_node: a payload already present changes nothing; a new one gets a fresh node with no edges in front. */
  function AddNodeSpec<T(==)>(vs: seq<Vertex<T>>, x: T, id: nat): seq<Vertex<T>> {
    if Find(vs, x).Some? then vs else [Vertex(id, x, [])] + vs
  }

  /** graph_remove_node: unlink the first node holding `x`, with its own out-edges. */
  function RemoveNodeSpec<T(==)>(vs: seq<Vertex<T>>, x: T): seq<Vertex<T>> {
    match Find(vs, x)
    case None => vs
    case Some(i) => Without(vs, i)
  }

  /**
   * graph_remove_edge: going through the nodes in order, the first node
   * holding `src` that has an edge whose target holds `dst` loses the first
   * such edge; nothing else changes.
   */
  function RemoveEdgeSpec<T(==)>(vs: seq<Vertex<T>>, src: T, dst: T): seq<Vertex<T>>
    decreases |vs|
  {
    if vs == [] then []
    else if vs[0].data == src && EdgeFor(vs[0].edges, dst).Some? then
      [vs[0].(edges := Without(vs[0].edges, EdgeFor(vs[0].edges, dst).value))] + vs[1..]
    else [vs[0]] + RemoveEdgeSpec(vs[1..], src, dst)
  }

  /**
   * graph_add_edge: None (false) when `src` or `dst` is missing, or when a
   * new edge cannot be allocated. An edge already leading from `src`'s node
   * to `dst`'s node gets the new weight; otherwise a new edge goes to the
   * front of `src`'s edges.
   */
  function AddEdgeSpec<T(==)>(vs: seq<Vertex<T>>, src: T, dst: T, w: int, allocOk: bool): Option<seq<Vertex<T>>> {
    match (Find(vs, src), Find(vs, dst))
    case (Some(f), Some(t)) =>
      var es := vs[f].edges;
      (match EdgeTo(es, vs[t].id)
       case Some(k) => Some(vs[f := vs[f].(edges := es[k := es[k].(weight := w)])])
       case None => if allocOk then Some(vs[f := vs[f].(edges := [Edge(vs[t].id, vs[t].data, w)] + es)]) else None)
    case _ => None
  }

  /**
   * graph_get_edge_weight: the weight of the first edge from `src`'s node whose
   * target holds `dst`; None (NaN) when there is none; and 0 (the C code
   * returns `false`) when `src` is not in the graph.
   */
  function EdgeWeight<T(==)>(vs: seq<Vertex<T>>, src: T, dst: T): (r: Option<int>)
    ensures Find(vs, src).None? ==> r == Some(0)
    ensures Find(vs, src).Some? ==>
              (r.None? <==> forall k :: 0 <= k < |vs[Find(vs, src).value].edges| ==>
                                       vs[Find(vs, src).value].edges[k].targetData != dst)
  {
    match Find(vs, src)
    case None => Some(0)
    case Some(f) =>
      match EdgeFor(vs[f].edges, dst)
      case None => None
      case Some(k) => Some(vs[f].edges[k].weight)
  }

  /** graph_outdegree_size: the number of out-edges of `x`'s node, 0 when `x` is absent. */
  function OutDegree<T(==)>(vs: seq<Vertex<T>>, x: T): nat {
    match Find(vs, x)
    case None => 0
    case Some(f) => |vs[f].edges|
  }

  /** The number of edges in `es` into the node with identity `id`. */
  function CountTarget<T>(es: seq<Edge<T>>, id: nat): nat {
    if es == [] then 0 else (if es[0].target == id then 1 else 0) + CountTarget(es[1..], id)
  }

  /** The number of edges, over all nodes, into the node with identity `id`. */
  function CountInto<T>(vs: seq<Vertex<T>>, id: nat): nat {
    if vs == [] then 0 else CountTarget(vs[0].edges, id) + CountInto(vs[1..], id)
  }

  /** graph_indegree_size: the number of edges into `x`'s node, 0 when `x` is absent. */
  function InDegree<T(==)>(vs: seq<Vertex<T>>, x: T): nat {
    match Find(vs, x)
    case None => 0
    case Some(t) => CountInto(vs, vs[t].id)
  }

  /** The payloads of the targets of `es`, in edge order. */
  function Targets<T>(es: seq<Edge<T>>): (r: seq<T>)
    ensures |r| == |es| && forall k :: 0 <= k < |es| ==> r[k] == es[k].targetData
  {
    if es == [] then [] else [es[0].targetData] + Targets(es[1..])
  }

  /** graph_iterate_neighbors, as the sequence of payloads it visits: empty when `x` is absent. */
  function Neighbors<T(==)>(vs: seq<Vertex<T>>, x: T): seq<T> {
    match Find(vs, x)
    case None => []
    case Some(f) => Targets(vs[f].edges)
  }

  // ---------------------------------------------------------------------------
  // What the operations promise

  /** Adding a payload twice is adding it once; a new payload adds exactly one node. */
  lemma AddNodeIdempotent<T>(vs: seq<Vertex<T>>, x: T, id: nat, id': nat)
    ensures AddNodeSpec(AddNodeSpec(vs, x, id), x, id') == AddNodeSpec(vs, x, id)
    ensures |AddNodeSpec(vs, x, id)| == if Find(vs, x).Some? then |vs| else |vs| + 1
    ensures Find(AddNodeSpec(vs, x, id), x).Some?
  {
    if Find(vs, x).None? {
      assert AddNodeSpec(vs, x, id)[0].data == x;
    }
  }

  /** An edge list that agrees with `vs` and never points at `v` still agrees once `v` is prepended. */
  lemma AgreePrepend<T>(es: seq<Edge<T>>, vs: seq<Vertex<T>>, v: Vertex<T>)
    requires EdgesAgree(es, vs) && forall k :: 0 <= k < |es| ==> es[k].target != v.id
    ensures EdgesAgree(es, [v] + vs)
  {
    var r := [v] + vs;
    forall k, j | 0 <= k < |es| && 0 <= j < |r| && es[k].target == r[j].id
      ensures es[k].targetData == r[j].data
    {
      assert j > 0 && r[j] == vs[j - 1];
    }
  }

  /** Prepending a node keeps every edge's target live. */
  lemma LivePrepend<T>(es: seq<Edge<T>>, vs: seq<Vertex<T>>, v: Vertex<T>)
    requires EdgesLive(es, vs)
    ensures EdgesLive(es, [v] + vs)
  {
    var r := [v] + vs;
    forall k | 0 <= k < |es|
      ensures Live(r, es[k].target)
    {
      var j :| 0 <= j < |vs| && vs[j].id == es[k].target;
      assert r[j + 1] == vs[j];
    }
  }

  /** A fresh node with a new identity, an unused payload and no edges keeps the graph well formed. */
  lemma PrependWell<T>(vs: seq<Vertex<T>>, nextId: nat, v: Vertex<T>)
    requires WellFormed(vs, nextId) && v.id == nextId && v.edges == []
    requires forall i :: 0 <= i < |vs| ==> vs[i].data != v.data
    ensures WellFormed([v] + vs, nextId + 1)
  {
    var r := [v] + vs;
    forall i | 0 <= i < |r|
      ensures r[i].id < nextId + 1 && EdgesOk(r[i].edges, nextId + 1) && EdgesAgree(r[i].edges, r)
    {
      if i > 0 {
        assert r[i] == vs[i - 1];
        AgreePrepend(vs[i - 1].edges, vs, v);
      }
    }
    forall i, j | 0 <= i < j < |r| ensures r[i].id != r[j].id && r[i].data != r[j].data {
      assert r[j] == vs[j - 1];
      if i > 0 {
        assert r[i] == vs[i - 1];
      }
    }
  }

  /** A node without edges keeps every edge live. */
  lemma PrependClosed<T>(vs: seq<Vertex<T>>, v: Vertex<T>)
    requires Closed(vs) && v.edges == []
    ensures Closed([v] + vs)
  {
    var r := [v] + vs;
    forall i | 0 < i < |r| ensures EdgesLive(r[i].edges, r) {
      assert r[i] == vs[i - 1];
      LivePrepend(vs[i - 1].edges, vs, v);
    }
  }

  lemma AddNodeKeeps<T>(vs: seq<Vertex<T>>, nextId: nat, x: T)
    requires WellFormed(vs, nextId)
    ensures WellFormed(AddNodeSpec(vs, x, nextId), nextId + 1)
    ensures Closed(vs) ==> Closed(AddNodeSpec(vs, x, nextId))
  {
    if Find(vs, x).None? {
      var v := Vertex(nextId, x, []);
      assert AddNodeSpec(vs, x, nextId) == [v] + vs;
      PrependWell(vs, nextId, v);
      if Closed(vs) {
        PrependClosed(vs, v);
      }
    } else {
      assert AddNodeSpec(vs, x, nextId) == vs;
      WellFormedLater(vs, nextId);
    }
  }

  /** Identities and edge targets handed out before `nextId` were handed out before `nextId + 1`. */
  lemma WellFormedLater<T>(vs: seq<Vertex<T>>, nextId: nat)
    requires WellFormed(vs, nextId)
    ensures WellFormed(vs, nextId + 1)
  {
    forall i | 0 <= i < |vs| ensures EdgesOk(vs[i].edges, nextId + 1) {
      assert EdgesOk(vs[i].edges, nextId);
    }
  }



  lemma RemoveNodeKeeps<T>(vs: seq<Vertex<T>>, nextId: nat, x: T)
    requires WellFormed(vs, nextId)
    ensures WellFormed(RemoveNodeSpec(vs, x), nextId)
  {
    if Find(vs, x).Some? {
      var i := Find(vs, x).value;
      var r := Without(vs, i);
      forall a | 0 <= a < |r|
        ensures EdgesAgree(r[a].edges, r)
      {
        var es := r[a].edges;
        assert EdgesAgree(es, vs);
        forall k, j | 0 <= k < |es| && 0 <= j < |r| && es[k].target == r[j].id
          ensures es[k].targetData == r[j].data
        {
          assert r[j] == vs[if j < i then j else j + 1];
        }
      }
    }
  }

  /**
   * Removing a node unlinks only that node: the others keep their order and
   * their edges, including the edges into the removed node, and the payload
   * is gone.
   */
  lemma RemoveNodeOnly<T>(vs: seq<Vertex<T>>, x: T, i: nat)
    requires DataUnique(vs) && Find(vs, x) == Some(i)
    ensures |RemoveNodeSpec(vs, x)| == |vs| - 1
    ensures forall j :: 0 <= j < |vs| && j != i ==> vs[j] in RemoveNodeSpec(vs, x)
    ensures Find(RemoveNodeSpec(vs, x), x).None?
  {
    var r := RemoveNodeSpec(vs, x);
    forall j | 0 <= j < |vs| && j != i
      ensures vs[j] in r
    {
      assert r[if j < i then j else j - 1] == vs[j];
    }
  }

  /** An edge from another node into the removed node is left dangling. */
  lemma RemoveNodeDangles<T>(vs: seq<Vertex<T>>, nextId: nat, x: T, i: nat, j: nat, k: nat)
    requires WellFormed(vs, nextId) && Find(vs, x) == Some(i)
    requires j < |vs| && j != i && k < |vs[j].edges| && vs[j].edges[k].target == vs[i].id
    ensures !Closed(RemoveNodeSpec(vs, x))
  {
    var r := RemoveNodeSpec(vs, x);
    var j' := if j < i then j else j - 1;
    assert r[j'] == vs[j];
    forall m | 0 <= m < |r|
      ensures r[m].id != vs[i].id
    {
      assert r[m] == vs[if m < i then m else m + 1];
    }
    assert !Live(r, r[j'].edges[k].target);
  }

  /** When no node holding `src` has an edge to `dst`, removing the edge changes nothing. */
  lemma {:induction false} RemoveEdgeNone<T>(vs: seq<Vertex<T>>, src: T, dst: T)
    requires forall j :: 0 <= j < |vs| ==> vs[j].data != src || EdgeFor(vs[j].edges, dst).None?
    ensures RemoveEdgeSpec(vs, src, dst) == vs
    decreases |vs|
  {
    if vs != [] {
      RemoveEdgeNone(vs[1..], src, dst);
    }
  }

  /** The first node holding `src` with an edge to `dst`, at position `i`, loses its first such edge `k`. */
  lemma {:induction false} RemoveEdgeAt<T>(vs: seq<Vertex<T>>, src: T, dst: T, i: nat, k: nat)
    requires i < |vs| && vs[i].data == src && EdgeFor(vs[i].edges, dst) == Some(k)
    requires forall j :: 0 <= j < i ==> vs[j].data != src || EdgeFor(vs[j].edges, dst).None?
    ensures RemoveEdgeSpec(vs, src, dst) == vs[i := vs[i].(edges := Without(vs[i].edges, k))]
    decreases i
  {
    if i > 0 {
      RemoveEdgeAt(vs[1..], src, dst, i - 1, k);
      assert [vs[0]] + vs[1..][i - 1 := vs[i].(edges := Without(vs[i].edges, k))]
             == vs[i := vs[i].(edges := Without(vs[i].edges, k))];
    }
  }

  /**
   * With unique payloads, removing an edge is a change to `src`'s node
   * alone: it loses its first edge whose target holds `dst`, if it has one.
   */
  lemma RemoveEdgeOnly<T>(vs: seq<Vertex<T>>, src: T, dst: T)
    requires DataUnique(vs)
    ensures Find(vs, src).None? ==> RemoveEdgeSpec(vs, src, dst) == vs
    ensures Find(vs, src).Some? ==>
              var f := Find(vs, src).value;
              RemoveEdgeSpec(vs, src, dst) ==
                match EdgeFor(vs[f].edges, dst)
                case None => vs
                case Some(k) => vs[f := vs[f].(edges := Without(vs[f].edges, k))]
  {
    match Find(vs, src)
    case None =>
      RemoveEdgeNone(vs, src, dst);
    case Some(f) =>
      assert forall j :: 0 <= j < |vs| && j != f ==> vs[j].data != src;
      match EdgeFor(vs[f].edges, dst)
      case None =>
        RemoveEdgeNone(vs, src, dst);
      case Some(k) =>
        RemoveEdgeAt(vs, src, dst, f, k);
  }

  /** remove_edge keeps the graph well formed. */
  lemma RemoveEdgeKeeps<T>(vs: seq<Vertex<T>>, nextId: nat, src: T, dst: T)
    requires WellFormed(vs, nextId)
    ensures WellFormed(RemoveEdgeSpec(vs, src, dst), nextId)
  {
    RemoveEdgeOnly(vs, src, dst);
    match Find(vs, src)
    case None =>
    case Some(f) =>
      match EdgeFor(vs[f].edges, dst)
      case None =>
      case Some(k) =>
        WithoutEdgeKeeps(vs[f].edges, k, nextId, vs);
        SetEdgesKeeps(vs, nextId, f, Without(vs[f].edges, k));
  }

  /** remove_edge lowers `src`'s out-degree by one exactly when it had an edge to `dst`. */
  lemma RemoveEdgeDegree<T>(vs: seq<Vertex<T>>, src: T, dst: T)
    requires DataUnique(vs)
    ensures OutDegree(RemoveEdgeSpec(vs, src, dst), src) ==
              if EdgeWeight(vs, src, dst).Some? && Find(vs, src).Some? then OutDegree(vs, src) - 1 else OutDegree(vs, src)
  {
    RemoveEdgeOnly(vs, src, dst);
    match Find(vs, src)
    case None =>
    case Some(f) =>
      match EdgeFor(vs[f].edges, dst)
      case None =>
      case Some(k) =>
        var es := Without(vs[f].edges, k);
        var r := vs[f := vs[f].(edges := es)];
        assert RemoveEdgeSpec(vs, src, dst) == r;
        SetEdgesSame(vs, f, es);
        SameNodesFind(vs, r, src);
        assert OutDegree(r, src) == |es| == |vs[f].edges| - 1;
  }

  /**
   * With unique payloads and no dangling edges, an edge's target holds `dst`
   * exactly when it is `dst`'s node.
   */
  lemma TargetHolds<T>(vs: seq<Vertex<T>>, es: seq<Edge<T>>, dst: T, t: nat)
    requires DataUnique(vs) && EdgesAgree(es, vs) && EdgesLive(es, vs) && t < |vs| && vs[t].data == dst
    ensures forall k :: 0 <= k < |es| ==> (es[k].targetData == dst <==> es[k].target == vs[t].id)
  {
    forall k | 0 <= k < |es| && es[k].targetData == dst
      ensures es[k].target == vs[t].id
    {
      var j :| 0 <= j < |vs| && vs[j].id == es[k].target;
    }
  }

  /** The edge list add_edge gives `src`'s node, when it succeeds. */
  function AddedEdges<T(==)>(vs: seq<Vertex<T>>, f: nat, t: nat, w: int): seq<Edge<T>>
    requires f < |vs| && t < |vs|
  {
    var es := vs[f].edges;
    match EdgeTo(es, vs[t].id)
    case Some(k) => es[k := es[k].(weight := w)]
    case None => [Edge(vs[t].id, vs[t].data, w)] + es
  }

  /** add_edge writes AddedEdges into src's node. */
  lemma AddEdgeShape<T>(vs: seq<Vertex<T>>, src: T, dst: T, w: int, allocOk: bool)
    requires AddEdgeSpec(vs, src, dst, w, allocOk).Some?
    ensures Find(vs, src).Some? && Find(vs, dst).Some?
    ensures var f, t := Find(vs, src).value, Find(vs, dst).value;
            AddEdgeSpec(vs, src, dst, w, allocOk).value == vs[f := vs[f].(edges := AddedEdges(vs, f, t, w))]
  {
  }

  lemma AddedEdgesSound<T>(vs: seq<Vertex<T>>, nextId: nat, f: nat, t: nat, w: int)
    requires WellFormed(vs, nextId) && f < |vs| && t < |vs|
    ensures EdgesOk(AddedEdges(vs, f, t, w), nextId) && EdgesAgree(AddedEdges(vs, f, t, w), vs)
    ensures EdgesLive(vs[f].edges, vs) ==> EdgesLive(AddedEdges(vs, f, t, w), vs)
  {
    var es := vs[f].edges;
    var r := AddedEdges(vs, f, t, w);
    assert EdgesOk(es, nextId) && EdgesAgree(es, vs);
    match EdgeTo(es, vs[t].id)
    case Some(k) =>
      assert forall a :: 0 <= a < |r| ==> r[a].target == es[a].target && r[a].targetData == es[a].targetData;
    case None =>
      assert forall a :: 0 < a < |r| ==> r[a] == es[a - 1];
      forall a, j | 0 <= a < |r| && 0 <= j < |vs| && r[a].target == vs[j].id
        ensures r[a].targetData == vs[j].data
      {
        if a == 0 {
          assert j == t;
        }
      }
      if EdgesLive(es, vs) {
        assert Live(vs, r[0].target);
      }
  }

  lemma AddEdgeKeeps<T>(vs: seq<Vertex<T>>, nextId: nat, src: T, dst: T, w: int, allocOk: bool)
    requires WellFormed(vs, nextId) && AddEdgeSpec(vs, src, dst, w, allocOk).Some?
    ensures WellFormed(AddEdgeSpec(vs, src, dst, w, allocOk).value, nextId)
    ensures SameNodes(vs, AddEdgeSpec(vs, src, dst, w, allocOk).value)
    ensures Closed(vs) ==> Closed(AddEdgeSpec(vs, src, dst, w, allocOk).value)
  {
    AddEdgeShape(vs, src, dst, w, allocOk);
    var f, t := Find(vs, src).value, Find(vs, dst).value;
    AddedEdgesSound(vs, nextId, f, t, w);
    SetEdgesKeeps(vs, nextId, f, AddedEdges(vs, f, t, w));
  }

  /** Two node lists with the same nodes find every payload at the same place. */
  lemma {:induction false} SameNodesFind<T>(vs: seq<Vertex<T>>, ws: seq<Vertex<T>>, x: T)
    requires SameNodes(vs, ws)
    ensures Find(vs, x) == Find(ws, x)
    decreases |vs|
  {
    if vs != [] && vs[0].data != x {
      assert SameNodes(vs[1..], ws[1..]);
      SameNodesFind(vs[1..], ws[1..], x);
    }
  }

  /**
   * In a well-formed graph without dangling edges, after a successful
   * add_edge the weight read back is the weight just written.
   */
  lemma AddEdgeThenWeight<T>(vs: seq<Vertex<T>>, nextId: nat, src: T, dst: T, w: int, allocOk: bool)
    requires WellFormed(vs, nextId) && Closed(vs) && AddEdgeSpec(vs, src, dst, w, allocOk).Some?
    ensures EdgeWeight(AddEdgeSpec(vs, src, dst, w, allocOk).value, src, dst) == Some(w)
  {
    AddEdgeKeeps(vs, nextId, src, dst, w, allocOk);
    var f, t := Find(vs, src).value, Find(vs, dst).value;
    var r := AddEdgeSpec(vs, src, dst, w, allocOk).value;
    SameNodesFind(vs, r, src);
    var es := r[f].edges;
    assert es == AddedEdges(vs, f, t, w);
    assert EdgesOk(es, nextId) && EdgesAgree(es, r) && EdgesLive(es, r);
    var k0 := match EdgeTo(vs[f].edges, vs[t].id) case None => 0 case Some(k) => k;
    assert es[k0].target == vs[t].id && es[k0].weight == w;
    TargetHolds(r, es, dst, t);
    assert es[k0].targetData == dst;
    var k' := EdgeFor(es, dst).value;
    assert es[k'].target == vs[t].id;
    assert k' == k0;
  }

  /** After add_edge, src's node has an edge into dst's node, and a second add_edge only reweighs it. */
  lemma AddedEdgesTwice<T>(vs: seq<Vertex<T>>, f: nat, t: nat, w1: int, w2: int)
    requires f < |vs| && t < |vs|
    ensures var once := vs[f := vs[f].(edges := AddedEdges(vs, f, t, w1))];
            EdgeTo(once[f].edges, vs[t].id).Some?
            && AddedEdges(once, f, t, w2) == AddedEdges(vs, f, t, w2)
  {
    var id := vs[t].id;
    var es, es1 := vs[f].edges, AddedEdges(vs, f, t, w1);
    var once := vs[f := vs[f].(edges := es1)];
    assert once[f].edges == es1 && once[t].id == id && once[t].data == vs[t].data;
    match EdgeTo(es, id)
    case Some(k) =>
      assert es1 == es[k := es[k].(weight := w1)];
      assert es1[k].target == id && forall i :: 0 <= i < k ==> es1[i] == es[i];
      assert EdgeTo(es1, id) == Some(k);
      assert es1[k := es1[k].(weight := w2)] == es[k := es[k].(weight := w2)];
    case None =>
      assert es1 == [Edge(id, vs[t].data, w1)] + es;
      assert EdgeTo(es1, id) == Some(0);
      assert es1[0 := es1[0].(weight := w2)] == [Edge(id, vs[t].data, w2)] + es;
  }

  /**
   * add_edge overwrites: a second add_edge between the same nodes succeeds
   * whatever the allocator says, leaves the number of edges as it was, and
   * ends as one add_edge with the second weight would have.
   */
  lemma AddEdgeOverwrites<T>(vs: seq<Vertex<T>>, nextId: nat, src: T, dst: T, w1: int, w2: int, a1: bool, a2: bool)
    requires WellFormed(vs, nextId) && AddEdgeSpec(vs, src, dst, w1, a1).Some?
    ensures var once := AddEdgeSpec(vs, src, dst, w1, a1).value;
            AddEdgeSpec(once, src, dst, w2, a2) == AddEdgeSpec(vs, src, dst, w2, a1)
            && OutDegree(AddEdgeSpec(once, src, dst, w2, a2).value, src) == OutDegree(once, src)
  {
    AddEdgeShape(vs, src, dst, w1, a1);
    var f, t := Find(vs, src).value, Find(vs, dst).value;
    AddedEdgesSound(vs, nextId, f, t, w1);
    AddedEdgesTwice(vs, f, t, w1, w2);
    var once := AddEdgeSpec(vs, src, dst, w1, a1).value;
    SetEdgesSame(vs, f, AddedEdges(vs, f, t, w1));
    SameNodesFind(vs, once, src);
    SameNodesFind(vs, once, dst);
    var twice := once[f := once[f].(edges := AddedEdges(once, f, t, w2))];
    assert AddEdgeSpec(once, src, dst, w2, a2) == Some(twice);
    assert AddEdgeSpec(vs, src, dst, w2, a1).Some?;
    AddEdgeShape(vs, src, dst, w2, a1);
    assert twice == vs[f := vs[f].(edges := AddedEdges(vs, f, t, w2))];
    SetEdgesSame(once, f, AddedEdges(once, f, t, w2));
    SameNodesFind(once, twice, src);
  }

  // ---------------------------------------------------------------------------
  // The graph object

  /** The edge-list walk keyed by payload: the position of the first edge to `x`. */
  method SearchEdges<T(==)>(es: seq<Edge<T>>, x: T) returns (r: Option<nat>)
    ensures r == EdgeFor(es, x)
  {
    var k := 0;
    while k < |es|
      invariant k <= |es|
      invariant forall j :: 0 <= j < k ==> es[j].targetData != x
    {
      if es[k].targetData == x {
        return Some(k);
      }
      k := k + 1;
    }
    return None;
  }

  /** The edge-list walk keyed by node: the position of an edge to node `id`. */
  method SearchTargets<T>(es: seq<Edge<T>>, id: nat) returns (r: Option<nat>)
    ensures r == EdgeTo(es, id)
  {
    var k := 0;
    while k < |es|
      invariant k <= |es|
      invariant forall j :: 0 <= j < k ==> es[j].target != id
    {
      if es[k].target == id {
        return Some(k);
      }
      k := k + 1;
    }
    return None;
  }

  class Graph<T(==)> {
    /** The node list, head first. */
    var nodes: seq<Vertex<T>>
    /** The identity the next new node gets (a fresh address). */
    var nextId: nat

    ghost predicate Valid()
      reads this
    {
      WellFormed(nodes, nextId)
    }

    constructor ()
      ensures Valid() && nodes == []
    {
      nodes := [];
      nextId := 0;
    }

    /**
     * graph_create: no graph (NULL) without a comparator or when the `malloc`
     * fails (`allocOk` false), else an empty graph.
     */
    static method Create(cmpGiven: bool, allocOk: bool) returns (g: Graph?<T>)
      ensures g != null <==> cmpGiven && allocOk
      ensures g != null ==> fresh(g) && g.Valid() && g.nodes == []
    {
      if !cmpGiven {
        return null;
      }
      if !allocOk {
        return null;
      }
      g := new Graph();
    }

    /** graph_size: count the nodes. */
    method Size() returns (count: nat)
      ensures count == |nodes|
    {
      count := 0;
      var i := 0;
      while i < |nodes|
        invariant i <= |nodes| && count == i
      {
        count := count + 1;
        i := i + 1;
      }
    }

    /** The node-finding loop that opens most operations: the position of `x`'s node. */
    method Locate(x: T) returns (r: Option<nat>)
      ensures r == Find(nodes, x)
    {
      var i := 0;
      while i < |nodes|
        invariant i <= |nodes|
        invariant forall j :: 0 <= j < i ==> nodes[j].data != x
      {
        if nodes[i].data == x {
          return Some(i);
        }
        i := i + 1;
      }
      return None;
    }

    /** graph_contains: is some node's payload `x`? */
    method Contains(x: T) returns (found: bool)
      ensures found <==> exists i :: 0 <= i < |nodes| && nodes[i].data == x
    {
      var i := 0;
      while i < |nodes|
        invariant i <= |nodes|
        invariant forall j :: 0 <= j < i ==> nodes[j].data != x
      {
        if nodes[i].data == x {
          return true;
        }
        i := i + 1;
      }
      return false;
    }

    /**
     * graph_add_node. `allocOk` is the outcome of allocating the new node.
     * A payload already present gives true with nothing changed.
     */
    method AddNode(x: T, allocOk: bool) returns (ok: bool)
      requires Valid()
      modifies this
      ensures Valid()
      ensures ok <==> Find(old(nodes), x).Some? || allocOk
      ensures nodes == if ok then AddNodeSpec(old(nodes), x, old(nextId)) else old(nodes)
    {
      var present := Contains(x);
      if present {
        return true;
      }
      if !allocOk {
        return false;
      }
      AddNodeKeeps(nodes, nextId, x);
      nodes := [Vertex(nextId, x, [])] + nodes;
      nextId := nextId + 1;
      ok := true;
    }

    /** graph_remove_edge: walk the nodes; at a node holding `src`, unlink its first edge to `dst` and stop. */
    method RemoveEdge(src: T, dst: T)
      requires Valid()
      modifies this
      ensures Valid() && nextId == old(nextId)
      ensures nodes == RemoveEdgeSpec(old(nodes), src, dst)
    {
      var vs := nodes;
      RemoveEdgeKeeps(vs, nextId, src, dst);
      var i := 0;
      while i < |vs|
        invariant i <= |vs| && nodes == vs && nextId == old(nextId)
        invariant forall j :: 0 <= j < i ==> vs[j].data != src || EdgeFor(vs[j].edges, dst).None?
      {
        if vs[i].data == src {
          var k := SearchEdges(vs[i].edges, dst);
          if k.Some? {
            RemoveEdgeAt(vs, src, dst, i, k.value);
            nodes := vs[i := vs[i].(edges := Without(vs[i].edges, k.value))];
            return;
          }
        }
        i := i + 1;
      }
      RemoveEdgeNone(vs, src, dst);
    }

    /** graph_remove_node: unlink the node holding `x`; edges into it from other nodes stay. */
    method RemoveNode(x: T)
      requires Valid()
      modifies this
      ensures Valid() && nextId == old(nextId)
      ensures nodes == RemoveNodeSpec(old(nodes), x)
    {
      RemoveNodeKeeps(nodes, nextId, x);
      var i := 0;
      while i < |nodes|
        invariant i <= |nodes|
        invariant forall j :: 0 <= j < i ==> nodes[j].data != x
      {
        if nodes[i].data == x {
          nodes := Without(nodes, i);
          return;
        }
        i := i + 1;
      }
    }

    /** The search opening add_edge: one walk that stops once both endpoints are found. */
    method LocateBoth(src: T, dst: T) returns (from: Option<nat>, to: Option<nat>)
      requires Valid()
      ensures from.None? ==> Find(nodes, src).None?
      ensures to.None? ==> Find(nodes, dst).None?
      ensures from.Some? && to.Some? ==> from == Find(nodes, src) && to == Find(nodes, dst)
    {
      from, to := None, None;
      var i := 0;
      while i < |nodes| && (from.None? || to.None?)
        invariant i <= |nodes|
        invariant from.None? ==> forall j :: 0 <= j < i ==> nodes[j].data != src
        invariant from.Some? ==> from.value < i && nodes[from.value].data == src
        invariant to.None? ==> forall j :: 0 <= j < i ==> nodes[j].data != dst
        invariant to.Some? ==> to.value < i && nodes[to.value].data == dst
      {
        if nodes[i].data == src {
          from := Some(i);
        }
        if nodes[i].data == dst {
          to := Some(i);
        }
        i := i + 1;
      }
      if from.Some? && to.Some? {
        FindUnique(nodes, src, from.value);
        FindUnique(nodes, dst, to.value);
      }
    }

    /**
     * graph_add_edge. `allocOk` is the outcome of allocating a new edge. The
     * node search runs until both endpoints are found.
     */
    method AddEdge(src: T, dst: T, w: int, allocOk: bool) returns (ok: bool)
      requires Valid()
      modifies this
      ensures Valid() && nextId == old(nextId)
      ensures ok <==> AddEdgeSpec(old(nodes), src, dst, w, allocOk).Some?
      ensures nodes == if ok then AddEdgeSpec(old(nodes), src, dst, w, allocOk).value else old(nodes)
    {
      var vs := nodes;
      var from, to := LocateBoth(src, dst);
      if from.None? || to.None? {
        return false;
      }
      var f, t := from.value, to.value;
      var es := vs[f].edges;
      var k := SearchTargets(es, vs[t].id);
      if k.None? && !allocOk {
        return false;
      }
      var added := if k.Some? then es[k.value := es[k.value].(weight := w)]
                   else [Edge(vs[t].id, vs[t].data, w)] + es;
      assert added == AddedEdges(vs, f, t, w);
      assert AddEdgeSpec(vs, src, dst, w, allocOk).Some?;
      AddEdgeShape(vs, src, dst, w, allocOk);
      AddEdgeKeeps(vs, nextId, src, dst, w, allocOk);
      nodes := vs[f := vs[f].(edges := added)];
      ok := true;
    }

    /** graph_get_edge_weight. */
    method GetEdgeWeight(src: T, dst: T) returns (w: Option<int>)
      ensures w == EdgeWeight(nodes, src, dst)
    {
      var from := Locate(src);
      if from.None? {
        return Some(0);
      }
      var es := nodes[from.value].edges;
      var k := SearchEdges(es, dst);
      if k.None? {
        return None;
      }
      return Some(es[k.value].weight);
    }

    /** graph_outdegree_size: count the out-edges of `x`'s node. */
    method OutDegreeSize(x: T) returns (count: nat)
      ensures count == OutDegree(nodes, x)
    {
      var n := Locate(x);
      if n.None? {
        return 0;
      }
      var es := nodes[n.value].edges;
      count := 0;
      var k := 0;
      while k < |es|
        invariant k <= |es| && count == k
      {
        count := count + 1;
        k := k + 1;
      }
    }

    /** graph_indegree_size: count, over every node's edges, those into `x`'s node. */
    method InDegreeSize(x: T) returns (count: nat)
      ensures count == InDegree(nodes, x)
    {
      var dest := Locate(x);
      if dest.None? {
        return 0;
      }
      var id := nodes[dest.value].id;
      count := 0;
      var i := 0;
      while i < |nodes|
        invariant i <= |nodes|
        invariant count + CountInto(nodes[i..], id) == CountInto(nodes, id)
      {
        var es := nodes[i].edges;
        var k := 0;
        ghost var before := count;
        while k < |es|
          invariant k <= |es|
          invariant count - before + CountTarget(es[k..], id) == CountTarget(es, id)
        {
          assert es[k..][1..] == es[k + 1..];
          if es[k].target == id {
            count := count + 1;
          }
          k := k + 1;
        }
        assert nodes[i..][1..] == nodes[i + 1..];
        i := i + 1;
      }
    }

    /** graph_iterate_neighbors, collecting the payloads it would visit. */
    method NeighborList(x: T) returns (ns: seq<T>)
      ensures ns == Neighbors(nodes, x)
    {
      var n := Locate(x);
      if n.None? {
        return [];
      }
      var es := nodes[n.value].edges;
      ns := [];
      var k := 0;
      while k < |es|
        invariant k <= |es|
        invariant ns == Targets(es[..k])
      {
        assert es[..k + 1] == es[..k] + [es[k]];
        TargetsSnoc(es[..k], es[k]);
        ns := ns + [es[k].targetData];
        k := k + 1;
      }
      assert es[..k] == es;
    }
  }

  lemma {:induction false} TargetsSnoc<T>(es: seq<Edge<T>>, e: Edge<T>)
    ensures Targets(es + [e]) == Targets(es) + [e.targetData]
  {
    if es != [] {
      assert (es + [e])[1..] == es[1..] + [e];
      TargetsSnoc(es[1..], e);
    }
  }
}

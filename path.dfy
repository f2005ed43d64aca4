/**
 * lib/path.c: Dijkstra's search over a graph from module Graphs, with a
 * min-first queue from module PriorityQueues. The file-level statics of the
 * C code (the queue, the `previous` and `distance_from_origin` maps, the
 * current item and its priority) become the local state of DijkstraPath and
 * the parameters of AddIfFaster.
 *
 * The maps are keyed by payload (the C code keys them by the payload's
 * address written as a string). `previous` maps a payload to Some(its
 * predecessor), or to None for the start, whose entry holds NULL.
 *
 * Besides what the C code keeps, the proof keeps two ghost counters: every
 * payload whose distance is recorded carries the time (`stamp`) at which its
 * predecessor was last set. Ordering predecessor links by (distance, stamp)
 * shows that following `previous` from any payload reaches the start or a
 * payload without a predecessor, so the reconstruction loop ends.
 */
module Paths {
  import opened Wrappers
  import opened Heaps
  import opened PriorityQueues
  import opened Graphs
  import opened LinkedLists

  /** Every edge weight is at least 0, as Dijkstra's method needs. */
  ghost predicate NonNegative<T>(vs: seq<Vertex<T>>) {
    forall i, k :: 0 <= i < |vs| && 0 <= k < |vs[i].edges| ==> vs[i].edges[k].weight >= 0
  }

  /** The payloads any edge of the graph leads to. */
  ghost function AllTargets<T>(vs: seq<Vertex<T>>): set<T> {
    set i, k | 0 <= i < |vs| && 0 <= k < |vs[i].edges| :: vs[i].edges[k].targetData
  }

  /** The payloads the search can ever record: the start and every edge target. */
  ghost function Universe<T>(vs: seq<Vertex<T>>, start: T): set<T> {
    {start} + AllTargets(vs)
  }

  /**
   * The weight graph_get_edge_weight reports for an edge the neighbour walk
   * has just visited: there is one, so it is never NaN.
   */
  ghost function Weight<T>(vs: seq<Vertex<T>>, curr: T, nbr: T): (w: nat)
    requires NonNegative(vs) && nbr in Neighbors(vs, curr)
    ensures EdgeWeight(vs, curr, nbr) == Some(w)
  {
    var f := Find(vs, curr).value;
    var es := vs[f].edges;
    assert exists k :: 0 <= k < |es| && es[k].targetData == nbr by {
      var k :| 0 <= k < |Targets(es)| && Targets(es)[k] == nbr;
      assert es[k].targetData == nbr;
    }
    var k := EdgeFor(es, nbr).value;
    assert es[k].weight >= 0;
    es[k].weight
  }

  /** Every neighbour of any payload belongs to the universe. */
  lemma NeighborInUniverse<T>(vs: seq<Vertex<T>>, start: T, curr: T, nbr: T)
    requires nbr in Neighbors(vs, curr)
    ensures nbr in Universe(vs, start)
  {
    var f := Find(vs, curr).value;
    var es := vs[f].edges;
    var k :| 0 <= k < |Targets(es)| && Targets(es)[k] == nbr;
    assert es[k].targetData == nbr;
  }

  /**
   * add_to_pqueue_if_faster's test: the neighbour has no recorded
   * predecessor (absent, or NULL as the start's is), or the new distance is
   * below its recorded one (a missing distance reads as 0).
   */
  predicate Improves<T(==)>(prev: map<T, Option<T>>, dist: map<T, nat>, nbr: T, d: int) {
    nbr !in prev || prev[nbr].None? || d < (if nbr in dist then dist[nbr] else 0)
  }

  // ---------------------------------------------------------------------------
  // The search state and what it keeps

  /** What the search knows: the two maps, the queued entries, and the ghost stamps. */
  datatype Search<T> = Search(prev: map<T, Option<T>>, dist: map<T, nat>, queue: multiset<Entry<T>>,
                              stamp: map<T, nat>, clock: nat, settled: set<T>, floor: int)

  /**
   * The start always has an entry, the only one that may be None; a payload
   * has a distance exactly when it has a predecessor.
   */
  ghost predicate Marks<T>(start: T, prev: map<T, Option<T>>, dist: map<T, nat>) {
    start in prev
    && (forall v :: v in prev && prev[v].None? ==> v == start)
    && (forall v :: v in dist ==> v in prev && prev[v].Some?)
    && (forall v :: v in prev && prev[v].Some? ==> v in dist)
  }

  /** A queued entry has a priority of at least 0, and no less than its payload's distance unless it is the start. */
  ghost predicate Queued<T>(start: T, dist: map<T, nat>, queue: multiset<Entry<T>>) {
    forall e :: e in queue ==>
      e.priority >= 0 && (e.value == start || (e.value in dist && e.priority >= dist[e.value]))
  }

  /** A payload's predecessor has an edge to it. */
  ghost predicate Linked<T>(vs: seq<Vertex<T>>, prev: map<T, Option<T>>) {
    forall v :: v in prev && prev[v].Some? ==> v in Neighbors(vs, prev[v].value)
  }

  /** Every recorded payload has a stamp from the past. */
  ghost predicate Stamped<T>(dist: map<T, nat>, stamp: map<T, nat>, clock: nat) {
    forall v :: v in dist ==> v in stamp && stamp[v] < clock
  }

  /** `u` comes before `v`: a smaller distance, or the same distance and an older stamp. */
  ghost predicate Below<T>(dist: map<T, nat>, stamp: map<T, nat>, u: T, v: T) {
    u in dist && v in dist && u in stamp && v in stamp
    && (dist[u] < dist[v] || (dist[u] == dist[v] && stamp[u] < stamp[v]))
  }

  /** A predecessor other than the start comes before the payload it leads to. */
  ghost predicate Ordered<T>(start: T, prev: map<T, Option<T>>, dist: map<T, nat>, stamp: map<T, nat>) {
    forall v :: v in prev && prev[v].Some? && prev[v].value != start ==> Below(dist, stamp, prev[v].value, v)
  }

  ghost predicate Inv<T>(vs: seq<Vertex<T>>, start: T, s: Search<T>) {
    Marks(start, s.prev, s.dist) && Queued(start, s.dist, s.queue) && Linked(vs, s.prev)
    && Stamped(s.dist, s.stamp, s.clock) && Ordered(start, s.prev, s.dist, s.stamp)
    && s.dist.Keys <= Universe(vs, start)
  }

  /** The entry just taken from the queue: the start, or a payload whose distance is at most `p`. */
  ghost predicate Dequeued<T>(start: T, dist: map<T, nat>, curr: T, p: nat) {
    curr == start || (curr in dist && p >= dist[curr])
  }

  /** The search as the C code starts it: the start queued at 0 with a NULL predecessor. */
  function Initial<T>(start: T): Search<T> {
    Search(map[start := None], map[], multiset{Entry(0, start)}, map[], 0, {}, 0)
  }

  lemma InitialInv<T>(vs: seq<Vertex<T>>, start: T)
    ensures Inv(vs, start, Initial(start))
  {
  }

  /**
   * One call of add_to_pqueue_if_faster for neighbour `nbr` of `curr`, where
   * `d` is the distance through `curr`.
   */
  ghost function Relax<T>(s: Search<T>, curr: T, nbr: T, d: nat): Search<T> {
    if Improves(s.prev, s.dist, nbr, d) then
      s.(prev := s.prev[nbr := Some(curr)], dist := s.dist[nbr := d], queue := s.queue + multiset{Entry(d, nbr)},
         stamp := s.stamp[nbr := s.clock], clock := s.clock + 1)
    else s
  }

  // ---------------------------------------------------------------------------
  // Termination: a payload's distance only falls once recorded

  /** The sum of the recorded distances. */
  ghost function Total<T>(d: map<T, nat>): nat
    decreases |d.Keys|
  {
    if d.Keys == {} then 0 else var k :| k in d.Keys; d[k] + Total(d - {k})
  }

  lemma {:induction false} TotalRemove<T>(d: map<T, nat>, k: T)
    requires k in d
    ensures Total(d) == d[k] + Total(d - {k})
    decreases |d.Keys|
  {
    var j :| j in d.Keys && Total(d) == d[j] + Total(d - {j});
    if j != k {
      TotalRemove(d - {j}, k);
      TotalRemove(d - {k}, j);
      assert d - {j} - {k} == d - {k} - {j};
    }
  }

  lemma TotalUpdate<T>(d: map<T, nat>, k: T, x: nat)
    requires k in d
    ensures Total(d[k := x]) == Total(d) - d[k] + x
  {
    TotalRemove(d, k);
    TotalRemove(d[k := x], k);
    assert d[k := x] - {k} == d - {k};
  }

  /** The payloads of the universe with no distance yet. */
  ghost function Unseen<T>(vs: seq<Vertex<T>>, start: T, s: Search<T>): set<T> {
    Universe(vs, start) - s.dist.Keys
  }

  /** Twice the recorded distances, plus the queue length. */
  ghost function Pending<T>(s: Search<T>): nat {
    2 * Total(s.dist) + |s.queue|
  }

  /** The search measure has not grown: fewer unseen payloads, or as many and no more pending work. */
  ghost predicate Progress<T>(vs: seq<Vertex<T>>, start: T, s: Search<T>, s': Search<T>) {
    Unseen(vs, start, s') < Unseen(vs, start, s)
    || (Unseen(vs, start, s') == Unseen(vs, start, s) && Pending(s') <= Pending(s))
  }

  /**
   * A relaxation never adds unseen payloads; when it records a new payload
   * the unseen count falls, and otherwise the pending measure does not grow.
   */
  lemma RelaxProgress<T>(vs: seq<Vertex<T>>, start: T, s: Search<T>, curr: T, nbr: T, d: nat)
    requires nbr in Universe(vs, start) && Marks(start, s.prev, s.dist)
    ensures Progress(vs, start, s, Relax(s, curr, nbr, d))
  {
    var s' := Relax(s, curr, nbr, d);
    if Improves(s.prev, s.dist, nbr, d) {
      if nbr in s.dist {
        assert s'.dist.Keys == s.dist.Keys;
        TotalUpdate(s.dist, nbr, d);
      } else {
        assert nbr in Unseen(vs, start, s) && nbr !in Unseen(vs, start, s');
      }
    }
  }

  // ---------------------------------------------------------------------------
  // A relaxation keeps the invariant

  lemma RelaxMarks<T>(start: T, s: Search<T>, curr: T, nbr: T, d: nat)
    requires Marks(start, s.prev, s.dist)
    ensures var s' := Relax(s, curr, nbr, d); Marks(start, s'.prev, s'.dist)
  {
  }

  lemma RelaxQueued<T>(start: T, s: Search<T>, curr: T, nbr: T, d: nat)
    requires Marks(start, s.prev, s.dist) && Queued(start, s.dist, s.queue)
    ensures var s' := Relax(s, curr, nbr, d); Queued(start, s'.dist, s'.queue)
  {
    var s' := Relax(s, curr, nbr, d);
    if Improves(s.prev, s.dist, nbr, d) {
      forall e | e in s'.queue
        ensures e.priority >= 0 && (e.value == start || (e.value in s'.dist && e.priority >= s'.dist[e.value]))
      {
        if e != Entry(d, nbr) {
          assert e in s.queue;
        }
      }
    }
  }

  lemma RelaxLinked<T>(vs: seq<Vertex<T>>, s: Search<T>, curr: T, nbr: T, d: nat)
    requires nbr in Neighbors(vs, curr) && Linked(vs, s.prev)
    ensures Linked(vs, Relax(s, curr, nbr, d).prev)
  {
  }

  lemma RelaxOrdered<T>(start: T, s: Search<T>, curr: T, p: nat, nbr: T, d: nat)
    requires d >= p && Dequeued(start, s.dist, curr, p)
    requires Marks(start, s.prev, s.dist) && Stamped(s.dist, s.stamp, s.clock)
    requires Ordered(start, s.prev, s.dist, s.stamp)
    ensures var s' := Relax(s, curr, nbr, d);
            Ordered(start, s'.prev, s'.dist, s'.stamp) && Stamped(s'.dist, s'.stamp, s'.clock)
  {
    var s' := Relax(s, curr, nbr, d);
    if Improves(s.prev, s.dist, nbr, d) {
      assert curr != start ==> curr != nbr;
      forall v | v in s'.prev && s'.prev[v].Some? && s'.prev[v].value != start
        ensures Below(s'.dist, s'.stamp, s'.prev[v].value, v)
      {
        if v != nbr {
          var u := s.prev[v].value;
          assert Below(s.dist, s.stamp, u, v);
        }
      }
    }
  }

  /** The dequeued payload keeps its claim through a relaxation. */
  lemma RelaxDequeued<T>(start: T, s: Search<T>, curr: T, p: nat, nbr: T, d: nat)
    requires d >= p && Dequeued(start, s.dist, curr, p) && Marks(start, s.prev, s.dist)
    ensures Dequeued(start, Relax(s, curr, nbr, d).dist, curr, p)
  {
  }

  /** add_to_pqueue_if_faster keeps the search invariant. */
  lemma RelaxKeeps<T>(vs: seq<Vertex<T>>, start: T, s: Search<T>, curr: T, p: nat, nbr: T, d: nat)
    requires nbr in Neighbors(vs, curr) && d >= p && Dequeued(start, s.dist, curr, p)
    requires Inv(vs, start, s)
    ensures Inv(vs, start, Relax(s, curr, nbr, d))
    ensures Dequeued(start, Relax(s, curr, nbr, d).dist, curr, p)
  {
    RelaxMarks(start, s, curr, nbr, d);
    RelaxQueued(start, s, curr, nbr, d);
    RelaxLinked(vs, s, curr, nbr, d);
    RelaxOrdered(start, s, curr, p, nbr, d);
    RelaxDequeued(start, s, curr, p, nbr, d);
    NeighborInUniverse(vs, start, curr, nbr);
  }

  /**
   * pqueue_dequeue in the search loop: entry `e` leaves the queue, its payload
   * is settled, and its priority becomes the floor.
   */
  ghost function Take<T>(s: Search<T>, e: Entry<T>): Search<T> {
    s.(queue := s.queue - multiset{e}, settled := s.settled + {e.value}, floor := e.priority)
  }

  /** Taking an entry off the queue keeps the invariant, and the entry's claim holds. */
  lemma TakeKeeps<T>(vs: seq<Vertex<T>>, start: T, s: Search<T>, e: Entry<T>)
    requires Inv(vs, start, s) && e in s.queue
    ensures Inv(vs, start, Take(s, e))
    ensures e.priority >= 0 && Dequeued(start, s.dist, e.value, e.priority)
    ensures Unseen(vs, start, Take(s, e)) == Unseen(vs, start, s)
    ensures Pending(Take(s, e)) < Pending(s)
  {
  }

  // ---------------------------------------------------------------------------
  // The path read back from `previous`

  /** map_get on `previous`: the stored predecessor, or None (NULL) when there is no entry. */
  function Lookup<T(==)>(prev: map<T, Option<T>>, v: T): Option<T> {
    if v in prev then prev[v] else None
  }

  /**
   * What dijkstra_path's reconstruction returns, given `previous`: nothing
   * when `end` is the start; otherwise a list ending at `end`, never holding
   * the start, each item the recorded predecessor of the next, and either
   * the first item's predecessor is the start or the list is just `end`,
   * which has no entry.
   */
  ghost predicate Chain<T>(start: T, end: T, prev: map<T, Option<T>>, path: seq<T>) {
    (end == start ==> path == [])
    && (end != start ==> path != [] && path[|path| - 1] == end)
    && (forall i :: 0 <= i < |path| ==> path[i] != start)
    && (forall i :: 0 < i < |path| ==> path[i] in prev && prev[path[i]] == Some(path[i - 1]))
    && (path != [] ==> Lookup(prev, path[0]) == Some(start) || (path == [end] && end !in prev))
  }

  /** The reconstruction's measure: a payload's distance, plus one; 0 for the start or an unrecorded payload. */
  ghost function Height<T>(start: T, dist: map<T, nat>, curr: Option<T>): nat {
    if curr.Some? && curr.value != start && curr.value in dist then dist[curr.value] + 1 else 0
  }

  /** The reconstruction's tie-breaker: a payload's stamp. */
  ghost function Age<T>(stamp: map<T, nat>, curr: Option<T>): nat {
    if curr.Some? && curr.value in stamp then stamp[curr.value] else 0
  }

  /**
   * The state of the reconstruction loop: `path` is the chain built so far,
   * `child` its first payload (None before the first step) and `curr` the
   * payload to prepend next.
   */
  ghost predicate Walked<T>(start: T, end: T, prev: map<T, Option<T>>, dist: map<T, nat>, stamp: map<T, nat>,
                            path: seq<T>, child: Option<T>, curr: Option<T>) {
    (child.None? <==> path == [])
    && (child.None? ==> curr == Some(end))
    && (child.Some? ==> path[0] == child.value && Lookup(prev, child.value) == curr)
    && (path != [] ==> path[|path| - 1] == end)
    && (forall i :: 0 <= i < |path| ==> path[i] != start)
    && (forall i :: 0 < i < |path| ==> path[i] in prev && prev[path[i]] == Some(path[i - 1]))
    && (forall i, j :: 0 <= i < j < |path| ==> Below(dist, stamp, path[i], path[j]))
  }

  /** Prepending `curr` keeps the loop state, and the next payload to prepend comes before it. */
  lemma WalkedStep<T>(start: T, end: T, prev: map<T, Option<T>>, dist: map<T, nat>, stamp: map<T, nat>,
                      path: seq<T>, child: Option<T>, curr: Option<T>)
    requires Ordered(start, prev, dist, stamp)
    requires Walked(start, end, prev, dist, stamp, path, child, curr) && curr.Some? && curr.value != start
    ensures Walked(start, end, prev, dist, stamp, [curr.value] + path, curr, Lookup(prev, curr.value))
    ensures child.Some? ==> Below(dist, stamp, curr.value, child.value)
  {
    var p := [curr.value] + path;
    if child.Some? {
      assert Below(dist, stamp, curr.value, child.value);
      forall i, j | 0 <= i < j < |p| ensures Below(dist, stamp, p[i], p[j]) {
        if i == 0 && j > 1 {
          assert Below(dist, stamp, path[0], path[j - 1]);
        } else if i > 0 {
          assert p[i] == path[i - 1] && p[j] == path[j - 1];
        }
      }
      forall i | 0 < i < |p| ensures p[i] in prev && prev[p[i]] == Some(p[i - 1]) {
        if i > 1 {
          assert p[i] == path[i - 1] && p[i - 1] == path[i - 2];
        }
      }
    }
  }

  /**
   * The loop at the end of dijkstra_path: from `end`, prepend each payload
   * and step to its predecessor until reaching the start or NULL.
   */
  method Reconstruct<T(==)>(start: T, end: T, prev: map<T, Option<T>>, ghost dist: map<T, nat>, ghost stamp: map<T, nat>)
    returns (results: LinkedList<T>)
    requires Marks(start, prev, dist) && Ordered(start, prev, dist, stamp)
    ensures results.Valid() && fresh(results.Repr)
    ensures Chain(start, end, prev, results.Contents)
    ensures forall i, j :: 0 <= i < j < |results.Contents| ==> Below(dist, stamp, results.Contents[i], results.Contents[j])
  {
    results := new LinkedList();
    var curr: Option<T> := Some(end);
    ghost var child: Option<T> := None;
    ghost var path: seq<T> := [];
    while curr.Some? && curr.value != start
      invariant results.Valid() && fresh(results.Repr) && results.Contents == path
      invariant Walked(start, end, prev, dist, stamp, path, child, curr)
      decreases if child.None? then 1 else 0, Height(start, dist, curr), Age(stamp, curr)
    {
      WalkedStep(start, end, prev, dist, stamp, path, child, curr);
      results.Prepend(curr.value, true);
      path := [curr.value] + path;
      child := curr;
      curr := Lookup(prev, curr.value);
      if curr.Some? && curr.value != start {
        WalkedStep(start, end, prev, dist, stamp, path, child, curr);
      }
    }
    if |path| > 1 {
      assert Below(dist, stamp, path[0], path[1]);
      assert path[0] in prev;
    }
  }

  // ---------------------------------------------------------------------------
  // Routes and their cost

  /** The weight get_edge_weight reports for the edge from `u` to `v`; 0 when there is none. */
  ghost function EdgeCost<T>(vs: seq<Vertex<T>>, u: T, v: T): int {
    match EdgeWeight(vs, u, v)
    case Some(w) => w
    case None => 0
  }

  /** A walk along edges: each payload is an out-neighbour of the one before. */
  ghost predicate IsPath<T>(vs: seq<Vertex<T>>, p: seq<T>) {
    |p| > 0 && forall i :: 0 < i < |p| ==> p[i] in Neighbors(vs, p[i - 1])
  }

  /** A walk from `start` to `end`. */
  ghost predicate Route<T>(vs: seq<Vertex<T>>, start: T, end: T, p: seq<T>) {
    IsPath(vs, p) && p[0] == start && p[|p| - 1] == end
  }

  /** The sum of the weights of the edges a walk takes. */
  ghost function Cost<T>(vs: seq<Vertex<T>>, p: seq<T>): int
    decreases |p|
  {
    if |p| <= 1 then 0 else Cost(vs, p[..|p| - 1]) + EdgeCost(vs, p[|p| - 2], p[|p| - 1])
  }

  /** The edge to a neighbour has the weight the search adds, which is never negative. */
  lemma EdgeCostWeight<T>(vs: seq<Vertex<T>>, u: T, v: T)
    requires NonNegative(vs) && v in Neighbors(vs, u)
    ensures EdgeCost(vs, u, v) == Weight(vs, u, v) >= 0
  {
    var w := Weight(vs, u, v);
  }

  /** A walk without its last step is a walk, and costs no more. */
  lemma PathPrefix<T>(vs: seq<Vertex<T>>, p: seq<T>)
    requires NonNegative(vs) && IsPath(vs, p) && |p| > 1
    ensures IsPath(vs, p[..|p| - 1])
    ensures Cost(vs, p) == Cost(vs, p[..|p| - 1]) + EdgeCost(vs, p[|p| - 2], p[|p| - 1])
    ensures EdgeCost(vs, p[|p| - 2], p[|p| - 1]) >= 0
  {
    EdgeCostWeight(vs, p[|p| - 2], p[|p| - 1]);
  }

  /** A walk followed by an out-neighbour of its last payload is a walk. */
  lemma PathExtend<T>(vs: seq<Vertex<T>>, p: seq<T>, x: T)
    requires IsPath(vs, p) && x in Neighbors(vs, p[|p| - 1])
    ensures IsPath(vs, p + [x]) && (p + [x])[..|p|] == p
  {
    forall i | 0 < i < |p| + 1
      ensures (p + [x])[i] in Neighbors(vs, (p + [x])[i - 1])
    {
      if i < |p| {
        assert (p + [x])[i] == p[i] && (p + [x])[i - 1] == p[i - 1];
      }
    }
  }

  lemma {:induction false} CostNonNegative<T>(vs: seq<Vertex<T>>, p: seq<T>)
    requires NonNegative(vs) && IsPath(vs, p)
    ensures Cost(vs, p) >= 0
    decreases |p|
  {
    if |p| > 1 {
      PathPrefix(vs, p);
      CostNonNegative(vs, p[..|p| - 1]);
    }
  }

  // ---------------------------------------------------------------------------
  // Why the distances are shortest
  //
  // A payload is settled once an entry of it has been taken off the queue.
  // With weights of at least 0 the priorities taken never fall, so a
  // payload's distance cannot improve once it is settled, and the first
  // entry taken of it carries its recorded distance. The start is the
  // exception the C code makes: its NULL predecessor lets an edge back into
  // it record a predecessor and a distance, so the distance the search
  // stands by for the start is 0, whatever its entry holds.

  /** The distance the search stands by for `v`: 0 for the start, its recorded one otherwise. */
  ghost function Dist<T>(start: T, dist: map<T, nat>, v: T): nat {
    if v == start then 0 else if v in dist then dist[v] else 0
  }

  /** No queued entry is below the floor, the priority last taken. */
  ghost predicate Floored<T>(s: Search<T>) {
    forall e :: e in s.queue ==> e.priority >= s.floor
  }

  /** A settled payload other than the start has a distance no greater than the floor. */
  ghost predicate Final<T>(start: T, s: Search<T>) {
    forall u :: u in s.settled && u != start ==> u in s.dist && s.dist[u] <= s.floor
  }

  /** The edge from `u` to `v` has been relaxed: `v` is the start, or no farther than through `u`. */
  ghost predicate Reached<T>(vs: seq<Vertex<T>>, start: T, s: Search<T>, u: T, v: T) {
    v == start || (v in s.dist && s.dist[v] <= Dist(start, s.dist, u) + EdgeCost(vs, u, v))
  }

  /** Every out-edge of `u` has been relaxed. */
  ghost predicate Expanded<T>(vs: seq<Vertex<T>>, start: T, s: Search<T>, u: T) {
    forall k :: 0 <= k < |Neighbors(vs, u)| ==> Reached(vs, start, s, u, Neighbors(vs, u)[k])
  }

  /** No route to a settled payload costs less than its distance. */
  ghost predicate Shortest<T(!new)>(vs: seq<Vertex<T>>, start: T, s: Search<T>) {
    forall u, p :: u in s.settled && Route(vs, start, u, p) ==> Dist(start, s.dist, u) <= Cost(vs, p)
  }

  /** A payload with a distance that is not settled still has the entry for that distance queued. */
  ghost predicate Frontier<T>(s: Search<T>) {
    forall v :: v in s.dist && v !in s.settled ==> Entry(s.dist[v], v) in s.queue
  }

  /**
   * Each predecessor (other than one recorded for the start) is settled, and
   * the payload's distance is exactly the predecessor's plus the edge.
   */
  ghost predicate Exact<T>(vs: seq<Vertex<T>>, start: T, s: Search<T>) {
    forall v :: v in s.prev && s.prev[v].Some? && v != start ==>
      s.prev[v].value in s.settled && v in s.dist
      && s.dist[v] == Dist(start, s.dist, s.prev[v].value) + EdgeCost(vs, s.prev[v].value, v)
  }

  /** Before the first entry is taken only the start's is queued; afterwards the start is settled. */
  ghost predicate Begun<T>(start: T, s: Search<T>) {
    start in s.settled || (s.settled == {} && s.queue == multiset{Entry(0, start)})
  }

  ghost predicate Core<T(!new)>(vs: seq<Vertex<T>>, start: T, s: Search<T>) {
    Floored(s) && Final(start, s) && Shortest(vs, start, s) && Frontier(s) && Exact(vs, start, s) && Begun(start, s)
  }

  /** Between two turns of the search loop: every settled payload has been expanded. */
  ghost predicate Settled<T(!new)>(vs: seq<Vertex<T>>, start: T, s: Search<T>) {
    Core(vs, start, s) && AllExpanded(vs, start, s)
  }

  /** Every settled payload has been expanded. */
  ghost predicate AllExpanded<T>(vs: seq<Vertex<T>>, start: T, s: Search<T>) {
    forall u :: u in s.settled ==> Expanded(vs, start, s, u)
  }

  /**
   * While the neighbours of `curr`, taken at priority `p`, are relaxed: the
   * first `j` of them are done; the other settled payloads are expanded; and
   * `curr` is taken at its distance, or was expanded before.
   */
  ghost predicate Expanding<T(!new)>(vs: seq<Vertex<T>>, start: T, s: Search<T>, curr: T, p: nat, j: nat) {
    Core(vs, start, s) && s.floor == p && curr in s.settled
    && (forall u :: u in s.settled && u != curr ==> Expanded(vs, start, s, u))
    && (Dist(start, s.dist, curr) == p || Expanded(vs, start, s, curr))
    && forall k :: 0 <= k < j && k < |Neighbors(vs, curr)| ==> Reached(vs, start, s, curr, Neighbors(vs, curr)[k])
  }

  /**
   * Every route from the start to an unsettled payload `y` passes a payload
   * `v` with a recorded distance that is not settled, and `v`'s distance is
   * no more than the route's cost.
   */
  lemma FrontierBound<T(!new)>(vs: seq<Vertex<T>>, start: T, s: Search<T>, y: T, p: seq<T>) returns (v: T)
    requires NonNegative(vs) && Shortest(vs, start, s) && AllExpanded(vs, start, s) && start in s.settled
    requires Route(vs, start, y, p) && y !in s.settled
    ensures v in s.dist && v !in s.settled && s.dist[v] <= Cost(vs, p)
  {
    if |p| == 1 {
      assert false;
    }
    var i := LeaveSettled(s.settled, p, |p| - 1);
    PathTake(vs, p, i + 1);
    CostPrefix(vs, p, i + 1);
    var r := p[..i + 1];
    PathPrefix(vs, r);
    assert r[..i] == p[..i] && r[i - 1] == p[i - 1] && r[i] == p[i];
    assert Route(vs, start, p[i - 1], p[..i]) && p[i] in Neighbors(vs, p[i - 1]);
    EdgeBound(vs, start, s, p[i - 1], p[i], p[..i]);
    v := p[i];
  }

  /** A walk from inside `settled` to outside it has a step that leaves `settled`. */
  lemma {:induction false} LeaveSettled<T>(settled: set<T>, p: seq<T>, k: nat) returns (i: nat)
    requires 0 < k < |p| && p[0] in settled && p[k] !in settled
    ensures 0 < i <= k && p[i - 1] in settled && p[i] !in settled
    decreases k
  {
    if p[k - 1] in settled {
      i := k;
    } else {
      i := LeaveSettled(settled, p, k - 1);
    }
  }

  /** With non-negative weights, every step of a walk costs at least 0. */
  lemma EdgeCostNonNegative<T>(vs: seq<Vertex<T>>, u: T, v: T)
    requires NonNegative(vs)
    ensures EdgeCost(vs, u, v) >= 0
  {
    match Find(vs, u)
    case None =>
    case Some(f) =>
      match EdgeFor(vs[f].edges, v)
      case None =>
      case Some(k) => assert vs[f].edges[k].weight >= 0;
  }

  /** A non-empty prefix of a walk is a walk. */
  lemma PathTake<T>(vs: seq<Vertex<T>>, p: seq<T>, n: nat)
    requires IsPath(vs, p) && 0 < n <= |p|
    ensures IsPath(vs, p[..n])
  {
    forall i | 0 < i < n ensures p[..n][i] in Neighbors(vs, p[..n][i - 1]) {
      assert p[..n][i] == p[i] && p[..n][i - 1] == p[i - 1];
    }
  }

  /** With non-negative weights, a prefix of a walk costs no more than the walk. */
  lemma {:induction false} CostPrefix<T>(vs: seq<Vertex<T>>, p: seq<T>, n: nat)
    requires NonNegative(vs) && 0 < n <= |p|
    ensures Cost(vs, p[..n]) <= Cost(vs, p)
    decreases |p|
  {
    if n < |p| {
      var q := p[..|p| - 1];
      assert q[..n] == p[..n];
      EdgeCostNonNegative(vs, p[|p| - 2], p[|p| - 1]);
      CostPrefix(vs, q, n);
    } else {
      assert p[..n] == p;
    }
  }


  /** The last step of a route from a settled, expanded payload `x` gives its target a distance within the route's cost. */
  lemma EdgeBound<T(!new)>(vs: seq<Vertex<T>>, start: T, s: Search<T>, x: T, y: T, q: seq<T>)
    requires Shortest(vs, start, s) && AllExpanded(vs, start, s) && x in s.settled
    requires Route(vs, start, x, q) && y in Neighbors(vs, x) && y != start
    ensures y in s.dist && s.dist[y] <= Cost(vs, q) + EdgeCost(vs, x, y)
  {
    var k :| 0 <= k < |Neighbors(vs, x)| && Neighbors(vs, x)[k] == y;
    assert Reached(vs, start, s, x, y);
  }

  /** When the queue runs dry, no route leads from the start to a payload that was never settled. */
  lemma Unreachable<T(!new)>(vs: seq<Vertex<T>>, start: T, s: Search<T>, y: T)
    requires NonNegative(vs) && Settled(vs, start, s) && s.queue == multiset{} && y !in s.settled
    ensures forall p :: !Route(vs, start, y, p)
  {
    forall p | Route(vs, start, y, p)
      ensures false
    {
      var v := FrontierBound(vs, start, s, y, p);
    }
  }

  /** The entry taken is the most urgent one queued. */
  ghost predicate Least<T>(s: Search<T>, e: Entry<T>) {
    e in s.queue && forall x :: x in s.queue ==> e.priority <= x.priority
  }

  /** After a take, the rest of the queue is at or above the new floor. */
  lemma TakeFloored<T>(s: Search<T>, e: Entry<T>)
    requires Least(s, e)
    ensures Floored(Take(s, e))
  {
    forall x | x in Take(s, e).queue
      ensures x.priority >= e.priority
    {
      assert x in s.queue;
    }
  }

  /** The first take of a payload other than the start carries its recorded distance. */
  lemma TakeAtDistance<T>(start: T, s: Search<T>, e: Entry<T>)
    requires Queued(start, s.dist, s.queue) && Frontier(s) && Least(s, e)
    requires e.value != start && e.value !in s.settled
    ensures e.value in s.dist && s.dist[e.value] == e.priority
  {
    assert Entry(s.dist[e.value], e.value) in s.queue;
  }

  /** A route to the payload taken costs at least the priority it was taken at. */
  lemma TakeShortest<T(!new)>(vs: seq<Vertex<T>>, start: T, s: Search<T>, e: Entry<T>)
    requires NonNegative(vs) && Queued(start, s.dist, s.queue) && Settled(vs, start, s) && Least(s, e)
    ensures Shortest(vs, start, Take(s, e))
  {
    var t := Take(s, e);
    forall u, p | u in t.settled && Route(vs, start, u, p)
      ensures Dist(start, t.dist, u) <= Cost(vs, p)
    {
      if u !in s.settled {
        if s.settled == {} {
          assert e == Entry(0, start);
          CostNonNegative(vs, p);
        } else {
          var v := FrontierBound(vs, start, s, u, p);
          assert Entry(s.dist[v], v) in s.queue;
        }
      }
    }
  }

  /** Entries of payloads other than the one taken stay queued. */
  lemma TakeFrontier<T>(s: Search<T>, e: Entry<T>)
    requires Frontier(s) && e in s.queue
    ensures Frontier(Take(s, e))
  {
    var t := Take(s, e);
    forall v | v in t.dist && v !in t.settled
      ensures Entry(t.dist[v], v) in t.queue
    {
      assert Entry(s.dist[v], v) in s.queue && Entry(s.dist[v], v) != e;
    }
  }

  /** The payload taken is the start at priority 0, or has a distance no greater than its priority. */
  lemma TakeBounded<T(!new)>(vs: seq<Vertex<T>>, start: T, s: Search<T>, e: Entry<T>)
    requires Inv(vs, start, s) && Core(vs, start, s) && Least(s, e)
    ensures e.priority >= s.floor && e.priority >= 0
    ensures e.value == start || (e.value in s.dist && s.dist[e.value] <= e.priority)
    ensures s.settled == {} ==> e == Entry(0, start)
  {
    if s.settled == {} {
      assert e == Entry(0, start);
    }
  }

  /** Every settled payload keeps a distance no greater than the new floor. */
  lemma TakeFinal<T(!new)>(vs: seq<Vertex<T>>, start: T, s: Search<T>, e: Entry<T>)
    requires Final(start, s) && e.priority >= s.floor
    requires e.value == start || (e.value in s.dist && s.dist[e.value] <= e.priority)
    ensures Final(start, Take(s, e))
  {
  }

  /** Taking changes no distance, so what was expanded stays expanded. */
  lemma TakeExpanded<T(!new)>(vs: seq<Vertex<T>>, start: T, s: Search<T>, e: Entry<T>)
    requires forall u :: u in s.settled ==> Expanded(vs, start, s, u)
    ensures forall u :: u in Take(s, e).settled && u != e.value ==> Expanded(vs, start, Take(s, e), u)
    ensures e.value in s.settled ==> Expanded(vs, start, Take(s, e), e.value)
  {
    assert Take(s, e).dist == s.dist;
  }

  /**
   * Taking the most urgent entry settles its payload: the first entry taken
   * of a payload carries its distance, and no route to it costs less.
   */
  lemma TakeSettles<T(!new)>(vs: seq<Vertex<T>>, start: T, s: Search<T>, e: Entry<T>)
    requires NonNegative(vs) && Inv(vs, start, s) && Settled(vs, start, s) && Least(s, e)
    ensures e.priority >= 0 && Expanding(vs, start, Take(s, e), e.value, e.priority, 0)
  {
    TakeBounded(vs, start, s, e);
    TakeCore(vs, start, s, e);
    TakeExpanded(vs, start, s, e);
    if e.value !in s.settled && e.value != start {
      TakeAtDistance(start, s, e);
    }
  }

  /** Taking the most urgent entry keeps Core, with the floor raised to its priority. */
  lemma TakeCore<T(!new)>(vs: seq<Vertex<T>>, start: T, s: Search<T>, e: Entry<T>)
    requires NonNegative(vs) && Inv(vs, start, s) && Settled(vs, start, s) && Least(s, e)
    ensures Core(vs, start, Take(s, e))
  {
    TakeBounded(vs, start, s, e);
    TakeFloored(s, e);
    TakeFinal(vs, start, s, e);
    TakeShortest(vs, start, s, e);
    TakeFrontier(s, e);
    TakeExact(vs, start, s, e);
    TakeBegun(start, s, e);
  }

  /** Settling one more payload keeps every predecessor settled and every distance exact. */
  lemma TakeExact<T>(vs: seq<Vertex<T>>, start: T, s: Search<T>, e: Entry<T>)
    requires Exact(vs, start, s)
    ensures Exact(vs, start, Take(s, e))
  {
    assert Take(s, e).prev == s.prev && Take(s, e).dist == s.dist && s.settled <= Take(s, e).settled;
  }

  /** The first take is of the start, so afterwards the start is settled. */
  lemma TakeBegun<T>(start: T, s: Search<T>, e: Entry<T>)
    requires Begun(start, s) && (s.settled == {} ==> e == Entry(0, start))
    ensures start in Take(s, e).settled
  {
  }

  /** Relaxing from a settled payload lowers distances only, and none of a settled payload. */
  lemma RelaxLowers<T>(start: T, s: Search<T>, curr: T, nbr: T, d: nat)
    requires Marks(start, s.prev, s.dist) && Final(start, s) && d >= s.floor
    ensures var r := Relax(s, curr, nbr, d);
            r.settled == s.settled && r.floor == s.floor
            && (forall u :: u in s.settled ==> Dist(start, r.dist, u) == Dist(start, s.dist, u))
            && (forall v :: v in s.dist ==> v in r.dist && r.dist[v] <= s.dist[v])
  {
  }

  /** The relaxation of the `j`-th neighbour improves it only at the first take of `curr`. */
  lemma RelaxAtDistance<T(!new)>(vs: seq<Vertex<T>>, start: T, s: Search<T>, curr: T, p: nat, j: nat, nbr: T, d: nat)
    requires NonNegative(vs) && Marks(start, s.prev, s.dist)
    requires Expanding(vs, start, s, curr, p, j) && j < |Neighbors(vs, curr)| && nbr == Neighbors(vs, curr)[j]
    requires d == p + EdgeCost(vs, curr, nbr)
    ensures Improves(s.prev, s.dist, nbr, d) && nbr != start ==> Dist(start, s.dist, curr) == p
  {
    if Dist(start, s.dist, curr) != p && nbr != start {
      assert Reached(vs, start, s, curr, nbr);
    }
  }

  /** A relaxation from a settled payload, at its distance when it improves, keeps Core. */
  lemma RelaxCore<T(!new)>(vs: seq<Vertex<T>>, start: T, s: Search<T>, curr: T, nbr: T, d: nat)
    requires Marks(start, s.prev, s.dist) && Core(vs, start, s) && start in s.settled
    requires curr in s.settled && d >= s.floor
    requires Improves(s.prev, s.dist, nbr, d) && nbr != start ==> d == Dist(start, s.dist, curr) + EdgeCost(vs, curr, nbr)
    ensures Core(vs, start, Relax(s, curr, nbr, d))
  {
    var r := Relax(s, curr, nbr, d);
    RelaxLowers(start, s, curr, nbr, d);
    assert Shortest(vs, start, r) by {
      forall u, p | u in r.settled && Route(vs, start, u, p)
        ensures Dist(start, r.dist, u) <= Cost(vs, p)
      {
        assert Dist(start, s.dist, u) <= Cost(vs, p);
      }
    }
    assert Exact(vs, start, r) by {
      forall v | v in r.prev && r.prev[v].Some? && v != start
        ensures r.prev[v].value in r.settled && v in r.dist
                && r.dist[v] == Dist(start, r.dist, r.prev[v].value) + EdgeCost(vs, r.prev[v].value, v)
      {
        assert Dist(start, r.dist, r.prev[v].value) == Dist(start, s.dist, r.prev[v].value);
      }
    }
  }

  /** Edges relaxed before stay relaxed: distances only fall, and settled ones stay put. */
  lemma RelaxKeepsReached<T>(vs: seq<Vertex<T>>, start: T, s: Search<T>, curr: T, nbr: T, d: nat, u: T, v: T)
    requires Marks(start, s.prev, s.dist) && Final(start, s) && d >= s.floor
    requires u in s.settled && Reached(vs, start, s, u, v)
    ensures Reached(vs, start, Relax(s, curr, nbr, d), u, v)
  {
    RelaxLowers(start, s, curr, nbr, d);
  }

  lemma RelaxKeepsExpanded<T>(vs: seq<Vertex<T>>, start: T, s: Search<T>, curr: T, nbr: T, d: nat, u: T)
    requires Marks(start, s.prev, s.dist) && Final(start, s) && d >= s.floor
    requires u in s.settled && Expanded(vs, start, s, u)
    ensures Expanded(vs, start, Relax(s, curr, nbr, d), u)
  {
    forall k | 0 <= k < |Neighbors(vs, u)|
      ensures Reached(vs, start, Relax(s, curr, nbr, d), u, Neighbors(vs, u)[k])
    {
      RelaxKeepsReached(vs, start, s, curr, nbr, d, u, Neighbors(vs, u)[k]);
    }
  }

  /**
   * The relaxation add_to_pqueue_if_faster makes of the last of the first
   * `j` neighbours of `curr`, when the others are done, makes all `j` done.
   */
  lemma RelaxExpanding<T(!new)>(vs: seq<Vertex<T>>, start: T, s: Search<T>, curr: T, p: nat, j: nat, nbr: T, d: nat)
    requires NonNegative(vs) && Marks(start, s.prev, s.dist)
    requires 0 < j <= |Neighbors(vs, curr)| && Expanding(vs, start, s, curr, p, j - 1) && nbr == Neighbors(vs, curr)[j - 1]
    requires d == p + EdgeCost(vs, curr, nbr) && d >= p
    ensures Expanding(vs, start, Relax(s, curr, nbr, d), curr, p, j)
  {
    var r := Relax(s, curr, nbr, d);
    RelaxAtDistance(vs, start, s, curr, p, j - 1, nbr, d);
    RelaxCore(vs, start, s, curr, nbr, d);
    RelaxLowers(start, s, curr, nbr, d);
    forall u | u in r.settled && u != curr
      ensures Expanded(vs, start, r, u)
    {
      RelaxKeepsExpanded(vs, start, s, curr, nbr, d, u);
    }
    if Dist(start, s.dist, curr) != p {
      RelaxKeepsExpanded(vs, start, s, curr, nbr, d, curr);
    }
    forall k | 0 <= k < j && k < |Neighbors(vs, curr)|
      ensures Reached(vs, start, r, curr, Neighbors(vs, curr)[k])
    {
      if k < j - 1 {
        RelaxKeepsReached(vs, start, s, curr, nbr, d, curr, Neighbors(vs, curr)[k]);
      } else if Dist(start, s.dist, curr) != p {
        assert Reached(vs, start, s, curr, nbr);
        RelaxKeepsReached(vs, start, s, curr, nbr, d, curr, nbr);
      }
    }
    assert Expanding(vs, start, r, curr, p, j);
  }

  /** Once all its neighbours are relaxed, the taken payload is expanded too. */
  lemma ExpandingDone<T(!new)>(vs: seq<Vertex<T>>, start: T, s: Search<T>, curr: T, p: nat)
    requires Expanding(vs, start, s, curr, p, |Neighbors(vs, curr)|)
    ensures Settled(vs, start, s)
  {
  }

  /** One more payload of `path` extends the walk from `start` by that payload. */
  lemma PrefixNext<T>(start: T, path: seq<T>, k: nat)
    requires k < |path|
    ensures [start] + path[..k + 1] == ([start] + path[..k]) + [path[k]]
  {
    assert path[..k + 1] == path[..k] + [path[k]];
  }

  /**
   * Following `previous` back from a path's payloads costs exactly their
   * distances: the walk from the start to the `k`-th payload is a route whose
   * cost is that payload's distance.
   */
  lemma {:induction false} ChainCost<T>(vs: seq<Vertex<T>>, start: T, s: Search<T>, path: seq<T>, k: nat)
    requires NonNegative(vs) && Linked(vs, s.prev) && Exact(vs, start, s)
    requires k < |path| && Lookup(s.prev, path[0]) == Some(start)
    requires forall i :: 0 <= i < |path| ==> path[i] != start
    requires forall i :: 0 < i < |path| ==> path[i] in s.prev && s.prev[path[i]] == Some(path[i - 1])
    ensures Route(vs, start, path[k], [start] + path[..k + 1])
    ensures Cost(vs, [start] + path[..k + 1]) == Dist(start, s.dist, path[k])
    decreases k
  {
    var p := [start] + path[..k];
    var u := if k == 0 then start else path[k - 1];
    assert s.prev[path[k]] == Some(u);
    PrefixNext(start, path, k);
    if k > 0 {
      ChainCost(vs, start, s, path, k - 1);
    }
    assert p[k] == u;
    PathExtend(vs, p, path[k]);
  }
  /**
   * What the search leaves behind decides the answer: when `end` is settled,
   * the chain of predecessors back from it, led by the start, is a route of
   * least cost; otherwise the chain is `end` alone and no route reaches `end`.
   */
  lemma SearchOutcome<T(!new)>(vs: seq<Vertex<T>>, start: T, end: T, s: Search<T>, path: seq<T>)
    requires NonNegative(vs) && Inv(vs, start, s) && Core(vs, start, s)
    requires end in s.settled || (s.queue == multiset{} && Settled(vs, start, s))
    requires Chain(start, end, s.prev, path)
    ensures end in s.settled ==>
              Route(vs, start, end, [start] + path)
              && forall p :: Route(vs, start, end, p) ==> Cost(vs, [start] + path) <= Cost(vs, p)
    ensures end !in s.settled ==> path == [end] && forall p :: !Route(vs, start, end, p)
  {
    if end in s.settled {
      FoundOutcome(vs, start, end, s, path);
    } else {
      MissedOutcome(vs, start, end, s, path);
    }
  }

  /** A settled `end`: the chain back from it, led by the start, is a route of least cost. */
  lemma FoundOutcome<T(!new)>(vs: seq<Vertex<T>>, start: T, end: T, s: Search<T>, path: seq<T>)
    requires NonNegative(vs) && Marks(start, s.prev, s.dist) && Linked(vs, s.prev)
    requires Final(start, s) && Shortest(vs, start, s) && Exact(vs, start, s)
    requires end in s.settled && Chain(start, end, s.prev, path)
    ensures Route(vs, start, end, [start] + path)
    ensures forall p :: Route(vs, start, end, p) ==> Cost(vs, [start] + path) <= Cost(vs, p)
  {
    ChainRoute(vs, start, end, s, path);
    LeastRoute(vs, start, end, s, [start] + path);
  }

  /** The chain back from a settled `end`, led by the start, is a route costing `end`'s distance. */
  lemma ChainRoute<T>(vs: seq<Vertex<T>>, start: T, end: T, s: Search<T>, path: seq<T>)
    requires NonNegative(vs) && Marks(start, s.prev, s.dist) && Linked(vs, s.prev)
    requires Final(start, s) && Exact(vs, start, s)
    requires end in s.settled && Chain(start, end, s.prev, path)
    ensures Route(vs, start, end, [start] + path) && Cost(vs, [start] + path) == Dist(start, s.dist, end)
  {
    if end == start {
      assert [start] + path == [start];
    } else {
      assert end in s.dist && end in s.prev;
      assert Lookup(s.prev, path[0]) == Some(start);
      ChainCostAll(vs, start, s, path);
    }
  }

  /** ChainCost for the whole of a non-empty `path`. */
  lemma ChainCostAll<T>(vs: seq<Vertex<T>>, start: T, s: Search<T>, path: seq<T>)
    requires NonNegative(vs) && Linked(vs, s.prev) && Exact(vs, start, s)
    requires path != [] && Lookup(s.prev, path[0]) == Some(start)
    requires forall i :: 0 <= i < |path| ==> path[i] != start
    requires forall i :: 0 < i < |path| ==> path[i] in s.prev && s.prev[path[i]] == Some(path[i - 1])
    ensures Route(vs, start, path[|path| - 1], [start] + path)
    ensures Cost(vs, [start] + path) == Dist(start, s.dist, path[|path| - 1])
  {
    var k := |path| - 1;
    ChainCost(vs, start, s, path, k);
    assert path[..k + 1] == path;
  }

  /** A route to a settled payload that costs its distance costs no more than any other route there. */
  lemma LeastRoute<T(!new)>(vs: seq<Vertex<T>>, start: T, end: T, s: Search<T>, r: seq<T>)
    requires Shortest(vs, start, s) && end in s.settled && Cost(vs, r) == Dist(start, s.dist, end)
    ensures forall p :: Route(vs, start, end, p) ==> Cost(vs, r) <= Cost(vs, p)
  {
    forall p | Route(vs, start, end, p) ensures Cost(vs, r) <= Cost(vs, p) {
      assert Dist(start, s.dist, end) <= Cost(vs, p);
    }
  }


  /** An `end` never settled when the queue ran dry: the chain is `end` alone and no route reaches it. */
  lemma MissedOutcome<T(!new)>(vs: seq<Vertex<T>>, start: T, end: T, s: Search<T>, path: seq<T>)
    requires NonNegative(vs) && Marks(start, s.prev, s.dist)
    requires s.queue == multiset{} && Settled(vs, start, s)
    requires end !in s.settled && Chain(start, end, s.prev, path)
    ensures path == [end] && forall p :: !Route(vs, start, end, p)
  {
    assert start in s.settled;
    assert end !in s.dist;
    assert end !in s.prev;
    if |path| > 1 {
      assert false;
    }
    Unreachable(vs, start, s, end);
  }



  // ---------------------------------------------------------------------------
  // The search itself

  /**
   * One relaxation of `nbr`, seen from outside: when it improves, `nbr` gets
   * `curr` as its predecessor and the new distance, and the queue's entries
   * `queued` become `after` by pushing (new distance, `nbr`); otherwise
   * nothing changes.
   */
  ghost predicate Relaxed<T>(prev: map<T, Option<T>>, dist: map<T, nat>, curr: T, nbr: T, d: nat,
                             o: Order, queued: seq<Entry<T>>,
                             prev': map<T, Option<T>>, dist': map<T, nat>, after: seq<Entry<T>>)
  {
    if Improves(prev, dist, nbr, d) then
      prev' == prev[nbr := Some(curr)] && dist' == dist[nbr := d] && after == Push(o, queued, Entry(d, nbr))
    else
      prev' == prev && dist' == dist && after == queued
  }

  /**
   * The test and the update of add_to_pqueue_if_faster, once the distance
   * through `curr` is known. The C code has two branches that do the same
   * thing; they are one here.
   */
  method RecordIfFaster<T(==,0,!new)>(q: PQueue<T>, prev: map<T, Option<T>>, dist: map<T, nat>,
                                  curr: T, nbr: T, distance: nat)
    returns (prev': map<T, Option<T>>, dist': map<T, nat>)
    requires q.Valid()
    modifies q, q.data
    ensures q.Valid() && (q.data == old(q.data) || fresh(q.data))
    ensures Relaxed(prev, dist, curr, nbr, distance, q.order, old(q.Contents()), prev', dist', q.Contents())
  {
    var currentBest := if nbr in dist then dist[nbr] else 0;
    if nbr !in prev || prev[nbr].None? || distance < currentBest {
      prev' := prev[nbr := Some(curr)];
      var _ := q.Enqueue(distance, nbr, true);
      dist' := dist[nbr := distance];
    } else {
      prev', dist' := prev, dist;
    }
  }

  /**
   * add_to_pqueue_if_faster: when `nbr` has no predecessor yet, or the way
   * through `curr` is shorter than its recorded distance, record `curr` as its
   * predecessor, queue it at the new distance and record that distance.
   */
  method AddIfFaster<T(==,0,!new)>(g: Graph<T>, q: PQueue<T>, prev: map<T, Option<T>>, dist: map<T, nat>,
                               curr: T, priority: nat, nbr: T)
    returns (prev': map<T, Option<T>>, dist': map<T, nat>, ghost d: nat)
    requires q.Valid() && NonNegative(g.nodes) && nbr in Neighbors(g.nodes, curr)
    modifies q, q.data
    ensures q.Valid() && (q.data == old(q.data) || fresh(q.data))
    ensures d == Weight(g.nodes, curr, nbr) + priority
    ensures Relaxed(prev, dist, curr, nbr, d, q.order, old(q.Contents()), prev', dist', q.Contents())
  {
    d := Weight(g.nodes, curr, nbr) + priority;
    var weight := g.GetEdgeWeight(curr, nbr);
    var distance: nat := weight.value + priority;
    assert distance == d;
    prev', dist' := RecordIfFaster(q, prev, dist, curr, nbr, distance);
  }

  /** What AddIfFaster did to the queue's entries and the maps is what Relax says. */
  lemma RelaxMatches<T>(s: Search<T>, curr: T, nbr: T, d: nat, o: Order,
                        queued: seq<Entry<T>>, prev': map<T, Option<T>>, dist': map<T, nat>, after: seq<Entry<T>>)
    requires s.queue == multiset(queued) && Relaxed(s.prev, s.dist, curr, nbr, d, o, queued, prev', dist', after)
    ensures var s' := Relax(s, curr, nbr, d);
            s'.prev == prev' && s'.dist == dist' && s'.queue == multiset(after)
  {
    var s' := Relax(s, curr, nbr, d);
    if Improves(s.prev, s.dist, nbr, d) {
      assert after == Push(o, queued, Entry(d, nbr));
      PushAddsEntry(o, queued, Entry(d, nbr));
      assert s'.queue == s.queue + multiset{Entry(d, nbr)};
    } else {
      assert s' == s && after == queued;
    }
  }

  /** The search state `st` is what the maps and the queue's entries hold. */
  ghost predicate Mirrors<T>(st: Search<T>, prev: map<T, Option<T>>, dist: map<T, nat>, entries: seq<Entry<T>>) {
    st.prev == prev && st.dist == dist && st.queue == multiset(entries)
  }

  /** The search state mirrors the maps and the queue, and it keeps the invariant. */
  ghost predicate Holds<T>(vs: seq<Vertex<T>>, start: T, st: Search<T>,
                           prev: map<T, Option<T>>, dist: map<T, nat>, entries: seq<Entry<T>>) {
    Mirrors(st, prev, dist, entries) && Inv(vs, start, st)
  }

  /**
   * The state of the neighbour loop after `j` neighbours: the queue is
   * sound, and the maps and the queue are the first `j` relaxations of `st`.
   */
  ghost predicate Relaxing<T(0)>(g: Graph<T>, q: PQueue<T>, vs: seq<Vertex<T>>, st: Search<T>, curr: T, priority: nat,
                                     nbrs: seq<T>, ds: seq<nat>, j: nat, prev: map<T, Option<T>>, dist: map<T, nat>)
    reads g, q, q.data
  {
    q.Valid() && g.nodes == vs && j <= |nbrs| == |ds|
    && Mirrors(Relaxations(st, curr, nbrs, ds, j), prev, dist, q.Contents())
  }

  /**
   * add_to_pqueue_if_faster for the next neighbour `nbrs[j]`: the maps and the
   * queue move on from the first `j` relaxations to the first `j + 1`.
   */
  method RelaxOne<T(==,0,!new)>(g: Graph<T>, q: PQueue<T>, prev: map<T, Option<T>>, dist: map<T, nat>,
                            curr: T, priority: nat, nbrs: seq<T>, j: nat,
                            ghost vs: seq<Vertex<T>>, ghost st: Search<T>, ghost ds: seq<nat>)
    returns (prev': map<T, Option<T>>, dist': map<T, nat>)
    requires Through(vs, curr, priority, nbrs, ds) && j < |nbrs|
    requires Relaxing(g, q, vs, st, curr, priority, nbrs, ds, j, prev, dist)
    modifies q, q.data
    ensures Relaxing(g, q, vs, st, curr, priority, nbrs, ds, j + 1, prev', dist')
    ensures q.data == old(q.data) || fresh(q.data)
  {
    ghost var queued := q.Contents();
    ghost var distance;
    prev', dist', distance := AddIfFaster(g, q, prev, dist, curr, priority, nbrs[j]);
    assert g.nodes == vs;
    assert distance == ds[j];
    RelaxMatches(Relaxations(st, curr, nbrs, ds, j), curr, nbrs[j], ds[j], q.order, queued, prev', dist', q.Contents());
    RelaxationsNext(st, curr, nbrs, ds, j);
  }

  /** One more relaxation extends the prefix by the next neighbour. */
  lemma RelaxationsNext<T>(s: Search<T>, curr: T, nbrs: seq<T>, ds: seq<nat>, j: nat)
    requires j < |nbrs| && j < |ds|
    ensures Relaxations(s, curr, nbrs, ds, j + 1) == Relax(Relaxations(s, curr, nbrs, ds, j), curr, nbrs[j], ds[j])
  {
  }

  /** The measure's order is transitive. */
  lemma ProgressTrans<T>(vs: seq<Vertex<T>>, start: T, a: Search<T>, b: Search<T>, c: Search<T>)
    requires Progress(vs, start, a, b) && Progress(vs, start, b, c)
    ensures Progress(vs, start, a, c)
  {
  }

  /**
   * The search state after relaxing the first `j` neighbours `nbrs` of
   * `curr` in edge order, the `k`-th at distance `ds[k]`.
   */
  ghost function Relaxations<T>(s: Search<T>, curr: T, nbrs: seq<T>, ds: seq<nat>, j: nat): Search<T>
    requires j <= |nbrs| && j <= |ds|
    decreases j, 1
  {
    if j == 0 then s else RelaxationStep(s, curr, nbrs, ds, j)
  }

  /** The `j`-th relaxation, of the neighbour `nbrs[j - 1]`, after the first `j - 1`. */
  ghost function RelaxationStep<T>(s: Search<T>, curr: T, nbrs: seq<T>, ds: seq<nat>, j: nat): Search<T>
    requires 0 < j <= |nbrs| && j <= |ds|
    decreases j, 0
  {
    Relax(Relaxations(s, curr, nbrs, ds, j - 1), curr, nbrs[j - 1], ds[j - 1])
  }

  /** The distances through `curr`, taken at priority `p`, to each of its neighbours. */
  ghost predicate Through<T>(vs: seq<Vertex<T>>, curr: T, p: nat, nbrs: seq<T>, ds: seq<nat>) {
    NonNegative(vs) && nbrs == Neighbors(vs, curr) && |ds| == |nbrs|
    && forall k :: 0 <= k < |ds| ==> ds[k] == Weight(vs, curr, nbrs[k]) + p
  }

  /** The neighbours of `curr` in edge order, with distances none of which is below `p`. */
  ghost predicate Along<T>(vs: seq<Vertex<T>>, curr: T, p: nat, nbrs: seq<T>, ds: seq<nat>) {
    nbrs == Neighbors(vs, curr) && |ds| == |nbrs| && forall k :: 0 <= k < |ds| ==> ds[k] >= p
  }

  /** Each distance is `p` plus the cost of the edge to that neighbour. */
  ghost predicate Costs<T>(vs: seq<Vertex<T>>, curr: T, p: nat, nbrs: seq<T>, ds: seq<nat>) {
    forall k :: 0 <= k < |ds| && k < |nbrs| ==> ds[k] == p + EdgeCost(vs, curr, nbrs[k])
  }

  lemma ThroughAlong<T>(vs: seq<Vertex<T>>, curr: T, p: nat, nbrs: seq<T>, ds: seq<nat>)
    requires Through(vs, curr, p, nbrs, ds)
    ensures Along(vs, curr, p, nbrs, ds) && Costs(vs, curr, p, nbrs, ds)
  {
    forall k | 0 <= k < |ds|
      ensures ds[k] >= p && ds[k] == p + EdgeCost(vs, curr, nbrs[k])
    {
      EdgeCostWeight(vs, curr, nbrs[k]);
    }
  }

  /** Every prefix of the relaxations keeps the invariant. */
  lemma RelaxationsKeep<T>(vs: seq<Vertex<T>>, start: T, s: Search<T>, curr: T, p: nat,
                           nbrs: seq<T>, ds: seq<nat>, j: nat)
    requires Along(vs, curr, p, nbrs, ds) && j <= |nbrs|
    requires Inv(vs, start, s) && Dequeued(start, s.dist, curr, p)
    ensures Inv(vs, start, Relaxations(s, curr, nbrs, ds, j))
  {
    RelaxationsDequeued(start, s, curr, p, nbrs, ds, j);
    RelaxationsQueued(start, s, curr, nbrs, ds, j);
    RelaxationsLinked(vs, s, curr, nbrs, ds, j);
    RelaxationsOrdered(start, s, curr, p, nbrs, ds, j);
    RelaxationsUniverse(vs, start, s, curr, nbrs, ds, j);
  }

  lemma {:induction false} RelaxationsQueued<T>(start: T, s: Search<T>, curr: T, nbrs: seq<T>, ds: seq<nat>, j: nat)
    requires j <= |nbrs| && j <= |ds| && Marks(start, s.prev, s.dist) && Queued(start, s.dist, s.queue)
    ensures Queued(start, Relaxations(s, curr, nbrs, ds, j).dist, Relaxations(s, curr, nbrs, ds, j).queue)
  {
    if j > 0 {
      RelaxationsQueued(start, s, curr, nbrs, ds, j - 1);
      RelaxationsMarks(start, s, curr, nbrs, ds, j - 1);
      RelaxQueued(start, Relaxations(s, curr, nbrs, ds, j - 1), curr, nbrs[j - 1], ds[j - 1]);
    }
  }

  lemma {:induction false} RelaxationsLinked<T>(vs: seq<Vertex<T>>, s: Search<T>, curr: T, nbrs: seq<T>, ds: seq<nat>, j: nat)
    requires nbrs == Neighbors(vs, curr) && j <= |nbrs| && j <= |ds| && Linked(vs, s.prev)
    ensures Linked(vs, Relaxations(s, curr, nbrs, ds, j).prev)
  {
    if j > 0 {
      RelaxationsLinked(vs, s, curr, nbrs, ds, j - 1);
      assert nbrs[j - 1] in Neighbors(vs, curr);
      RelaxLinked(vs, Relaxations(s, curr, nbrs, ds, j - 1), curr, nbrs[j - 1], ds[j - 1]);
    }
  }

  lemma {:induction false} RelaxationsOrdered<T>(start: T, s: Search<T>, curr: T, p: nat, nbrs: seq<T>, ds: seq<nat>, j: nat)
    requires j <= |nbrs| && j <= |ds| && (forall k :: 0 <= k < |ds| ==> ds[k] >= p)
    requires Marks(start, s.prev, s.dist) && Dequeued(start, s.dist, curr, p)
    requires Stamped(s.dist, s.stamp, s.clock) && Ordered(start, s.prev, s.dist, s.stamp)
    ensures var r := Relaxations(s, curr, nbrs, ds, j);
            Stamped(r.dist, r.stamp, r.clock) && Ordered(start, r.prev, r.dist, r.stamp)
  {
    if j > 0 {
      RelaxationsOrdered(start, s, curr, p, nbrs, ds, j - 1);
      RelaxationsDequeued(start, s, curr, p, nbrs, ds, j - 1);
      RelaxOrdered(start, Relaxations(s, curr, nbrs, ds, j - 1), curr, p, nbrs[j - 1], ds[j - 1]);
    }
  }

  lemma {:induction false} RelaxationsUniverse<T>(vs: seq<Vertex<T>>, start: T, s: Search<T>, curr: T,
                                                  nbrs: seq<T>, ds: seq<nat>, j: nat)
    requires nbrs == Neighbors(vs, curr) && j <= |nbrs| && j <= |ds| && s.dist.Keys <= Universe(vs, start)
    ensures Relaxations(s, curr, nbrs, ds, j).dist.Keys <= Universe(vs, start)
  {
    if j > 0 {
      RelaxationsUniverse(vs, start, s, curr, nbrs, ds, j - 1);
      NeighborInUniverse(vs, start, curr, nbrs[j - 1]);
    }
  }

  /** The dequeued entry keeps its claim through every prefix of the relaxations. */
  lemma {:induction false} RelaxationsDequeued<T>(start: T, s: Search<T>, curr: T, p: nat,
                                                  nbrs: seq<T>, ds: seq<nat>, j: nat)
    requires j <= |nbrs| && j <= |ds| && (forall k :: 0 <= k < |ds| ==> ds[k] >= p)
    requires Marks(start, s.prev, s.dist) && Dequeued(start, s.dist, curr, p)
    ensures Marks(start, Relaxations(s, curr, nbrs, ds, j).prev, Relaxations(s, curr, nbrs, ds, j).dist)
    ensures Dequeued(start, Relaxations(s, curr, nbrs, ds, j).dist, curr, p)
  {
    if j > 0 {
      RelaxationsDequeued(start, s, curr, p, nbrs, ds, j - 1);
      RelaxMarks(start, Relaxations(s, curr, nbrs, ds, j - 1), curr, nbrs[j - 1], ds[j - 1]);
      RelaxDequeued(start, Relaxations(s, curr, nbrs, ds, j - 1), curr, p, nbrs[j - 1], ds[j - 1]);
    }
  }

  /** Every prefix of the relaxations keeps the maps in step. */
  lemma {:induction false} RelaxationsMarks<T>(start: T, s: Search<T>, curr: T, nbrs: seq<T>, ds: seq<nat>, j: nat)
    requires j <= |nbrs| && j <= |ds| && Marks(start, s.prev, s.dist)
    ensures Marks(start, Relaxations(s, curr, nbrs, ds, j).prev, Relaxations(s, curr, nbrs, ds, j).dist)
  {
    if j > 0 {
      RelaxationsMarks(start, s, curr, nbrs, ds, j - 1);
      RelaxMarks(start, Relaxations(s, curr, nbrs, ds, j - 1), curr, nbrs[j - 1], ds[j - 1]);
    }
  }

  /** Relaxing the neighbours of `curr` does not grow the search measure. */
  lemma {:induction false} RelaxationsProgress<T>(vs: seq<Vertex<T>>, start: T, s: Search<T>, curr: T,
                                                  nbrs: seq<T>, ds: seq<nat>, j: nat)
    requires nbrs == Neighbors(vs, curr) && j <= |nbrs| && j <= |ds| && Marks(start, s.prev, s.dist)
    ensures Progress(vs, start, s, Relaxations(s, curr, nbrs, ds, j))
  {
    if j > 0 {
      RelaxationsProgress(vs, start, s, curr, nbrs, ds, j - 1);
      RelaxationsMarks(start, s, curr, nbrs, ds, j - 1);
      NeighborInUniverse(vs, start, curr, nbrs[j - 1]);
      RelaxProgress(vs, start, Relaxations(s, curr, nbrs, ds, j - 1), curr, nbrs[j - 1], ds[j - 1]);
      assert Relaxations(s, curr, nbrs, ds, j) == RelaxationStep(s, curr, nbrs, ds, j);
      ProgressTrans(vs, start, s, Relaxations(s, curr, nbrs, ds, j - 1), Relaxations(s, curr, nbrs, ds, j));
    }
  }

  /** After the first `j` relaxations, the first `j` neighbours of `curr` are done. */
  lemma {:induction false} RelaxationsExpanding<T(!new)>(vs: seq<Vertex<T>>, start: T, s: Search<T>, curr: T, p: nat,
                                                         nbrs: seq<T>, ds: seq<nat>, j: nat)
    requires NonNegative(vs) && Along(vs, curr, p, nbrs, ds) && Costs(vs, curr, p, nbrs, ds) && j <= |nbrs|
    requires Marks(start, s.prev, s.dist) && Expanding(vs, start, s, curr, p, 0)
    ensures Expanding(vs, start, Relaxations(s, curr, nbrs, ds, j), curr, p, j)
  {
    if j > 0 {
      RelaxationsExpanding(vs, start, s, curr, p, nbrs, ds, j - 1);
      RelaxationsMarks(start, s, curr, nbrs, ds, j - 1);
      RelaxationsStep(vs, start, s, curr, p, nbrs, ds, j);
    }
  }

  /** The `j`-th relaxation moves the search on to the next neighbour. */
  lemma RelaxationsStep<T(!new)>(vs: seq<Vertex<T>>, start: T, s: Search<T>, curr: T, p: nat,
                                 nbrs: seq<T>, ds: seq<nat>, j: nat)
    requires NonNegative(vs) && Along(vs, curr, p, nbrs, ds) && Costs(vs, curr, p, nbrs, ds) && 0 < j <= |nbrs|
    requires Marks(start, Relaxations(s, curr, nbrs, ds, j - 1).prev, Relaxations(s, curr, nbrs, ds, j - 1).dist)
    requires Expanding(vs, start, Relaxations(s, curr, nbrs, ds, j - 1), curr, p, j - 1)
    ensures Expanding(vs, start, Relaxations(s, curr, nbrs, ds, j), curr, p, j)
  {
    RelaxExpanding(vs, start, Relaxations(s, curr, nbrs, ds, j - 1), curr, p, j, nbrs[j - 1], ds[j - 1]);
  }

  /** Once every neighbour of `curr` is relaxed, every settled payload is expanded. */
  lemma RelaxationsSettle<T(!new)>(vs: seq<Vertex<T>>, start: T, s: Search<T>, curr: T, p: nat, nbrs: seq<T>, ds: seq<nat>)
    requires NonNegative(vs) && Along(vs, curr, p, nbrs, ds) && Costs(vs, curr, p, nbrs, ds)
    requires Marks(start, s.prev, s.dist) && Expanding(vs, start, s, curr, p, 0)
    ensures Settled(vs, start, Relaxations(s, curr, nbrs, ds, |nbrs|))
  {
    RelaxationsExpanding(vs, start, s, curr, p, nbrs, ds, |nbrs|);
    ExpandingDone(vs, start, Relaxations(s, curr, nbrs, ds, |nbrs|), curr, p);
  }

  /**
   * The loop of graph_iterate_neighbors: add_to_pqueue_if_faster for each of
   * `nbrs` in turn, which leaves the maps and the queue as the relaxations
   * of `st` say.
   */
  method RelaxEach<T(==,0,!new)>(g: Graph<T>, q: PQueue<T>, prev: map<T, Option<T>>, dist: map<T, nat>,
                             curr: T, priority: nat, nbrs: seq<T>,
                             ghost vs: seq<Vertex<T>>, ghost st: Search<T>, ghost ds: seq<nat>)
    returns (prev': map<T, Option<T>>, dist': map<T, nat>)
    requires Through(vs, curr, priority, nbrs, ds)
    requires Relaxing(g, q, vs, st, curr, priority, nbrs, ds, 0, prev, dist)
    modifies q, q.data
    ensures Relaxing(g, q, vs, st, curr, priority, nbrs, ds, |nbrs|, prev', dist')
    ensures q.data == old(q.data) || fresh(q.data)
  {
    prev', dist' := prev, dist;
    ghost var slots := q.data;
    var j := 0;
    while j < |nbrs|
      invariant j <= |nbrs|
      invariant Relaxing(g, q, vs, st, curr, priority, nbrs, ds, j, prev', dist')
      invariant q.data == slots || fresh(q.data)
    {
      prev', dist' := RelaxOne(g, q, prev', dist', curr, priority, nbrs, j, vs, st, ds);
      j := j + 1;
    }
  }

  /**
   * graph_iterate_neighbors with add_to_pqueue_if_faster as the callback:
   * relax every neighbour of `curr` in edge order. The invariant holds
   * after, the measure has not grown, and every settled payload is expanded.
   */
  method RelaxAll<T(==,0,!new)>(g: Graph<T>, q: PQueue<T>, prev: map<T, Option<T>>, dist: map<T, nat>,
                                 curr: T, priority: nat, ghost start: T, ghost st: Search<T>)
    returns (prev': map<T, Option<T>>, dist': map<T, nat>, ghost st': Search<T>)
    requires q.Valid() && NonNegative(g.nodes) && Dequeued(start, dist, curr, priority)
    requires Holds(g.nodes, start, st, prev, dist, q.Contents()) && Expanding(g.nodes, start, st, curr, priority, 0)
    modifies q, q.data
    ensures q.Valid() && (q.data == old(q.data) || fresh(q.data))
    ensures Holds(g.nodes, start, st', prev', dist', q.Contents()) && Progress(g.nodes, start, st, st')
    ensures Settled(g.nodes, start, st')
  {
    ghost var vs := g.nodes;
    var nbrs := g.NeighborList(curr);
    ghost var ds := seq(|nbrs|, k requires 0 <= k < |nbrs| => Weight(vs, curr, nbrs[k]) + priority);
    assert Through(vs, curr, priority, nbrs, ds);
    assert Relaxing(g, q, vs, st, curr, priority, nbrs, ds, 0, prev, dist);
    prev', dist' := RelaxEach(g, q, prev, dist, curr, priority, nbrs, vs, st, ds);
    ThroughAlong(vs, curr, priority, nbrs, ds);
    RelaxationsKeep(vs, start, st, curr, priority, nbrs, ds, |nbrs|);
    RelaxationsProgress(vs, start, st, curr, nbrs, ds, |nbrs|);
    RelaxationsSettle(vs, start, st, curr, priority, nbrs, ds);
    st' := Relaxations(st, curr, nbrs, ds, |nbrs|);
  }

  /** pqueue_dequeue in the search loop: the most urgent entry, which leaves the search state's queue. */
  method TakeNext<T(==,0,!new)>(q: PQueue<T>, prev: map<T, Option<T>>, dist: map<T, nat>,
                                ghost vs: seq<Vertex<T>>, ghost start: T, ghost st: Search<T>)
    returns (e: Entry<T>, ghost st': Search<T>)
    requires q.Valid() && q.order == MinFirst && q.Contents() != [] && Holds(vs, start, st, prev, dist, q.Contents())
    requires NonNegative(vs) && Settled(vs, start, st)
    modifies q, q.data
    ensures q.Valid() && q.data == old(q.data) && q.order == MinFirst
    ensures Holds(vs, start, st', prev, dist, q.Contents())
    ensures e.priority >= 0 && Dequeued(start, dist, e.value, e.priority)
    ensures Unseen(vs, start, st') == Unseen(vs, start, st) && Pending(st') < Pending(st)
    ensures Expanding(vs, start, st', e.value, e.priority, 0)
  {
    ghost var before := q.Contents();
    var r := q.Dequeue();
    e := r.value;
    PopRemovesRoot(q.order, before);
    assert Least(st, e) by {
      forall x | x in st.queue
        ensures e.priority <= x.priority
      {
        var k :| 0 <= k < |before| && before[k] == x;
      }
    }
    TakeKeeps(vs, start, st, e);
    TakeSettles(vs, start, st, e);
    st' := Take(st, e);
  }

  /**
   * The start of dijkstra_path: a fresh minimum-first queue holding the start
   * at priority 0, a NULL predecessor for the start and no distances.
   */
  method StartSearch<T(==,0,!new)>(g: Graph<T>, start: T)
    returns (q: PQueue<T>, prev: map<T, Option<T>>, distance: map<T, nat>, ghost st: Search<T>)
    ensures fresh(q) && fresh(q.data) && q.Valid() && q.order == MinFirst && q.Contents() == [Entry(0, start)]
    ensures prev == map[start := None] && distance == map[]
    ensures Holds(g.nodes, start, st, prev, distance, q.Contents()) && Settled(g.nodes, start, st)
  {
    q := new PQueue<T>(MinFirst);
    prev := map[];
    distance := map[];
    var _ := q.Enqueue(0, start, true);
    prev := prev[start := None];
    PushAddsEntry(MinFirst, [], Entry(0, start));
    InitialInv(g.nodes, start);
    st := Initial(start);
  }

  /**
   * One turn of the search loop: take the most urgent entry and, unless its
   * payload is `end`, relax that payload's neighbours. `found` says the turn
   * stopped at `end`; otherwise every settled payload is expanded and the
   * search measure has fallen.
   */
  method Turn<T(==,0,!new)>(g: Graph<T>, q: PQueue<T>, prev: map<T, Option<T>>, dist: map<T, nat>,
                             ghost start: T, end: T, ghost st: Search<T>)
    returns (prev': map<T, Option<T>>, dist': map<T, nat>, found: bool, ghost st': Search<T>)
    requires q.Valid() && q.order == MinFirst && q.Contents() != [] && NonNegative(g.nodes)
    requires Holds(g.nodes, start, st, prev, dist, q.Contents()) && Settled(g.nodes, start, st)
    modifies q, q.data
    ensures q.Valid() && q.order == MinFirst && (q.data == old(q.data) || fresh(q.data))
    ensures Holds(g.nodes, start, st', prev', dist', q.Contents()) && Core(g.nodes, start, st')
    ensures found ==> end in st'.settled
    ensures !found ==> Settled(g.nodes, start, st')
    ensures !found ==> Unseen(g.nodes, start, st') < Unseen(g.nodes, start, st)
                       || (Unseen(g.nodes, start, st') == Unseen(g.nodes, start, st) && Pending(st') < Pending(st))
  {
    var e;
    e, st' := TakeNext(q, prev, dist, g.nodes, start, st);
    prev', dist' := prev, dist;
    found := e.value == end;
    if !found {
      ghost var taken := st';
      prev', dist', st' := RelaxAll(g, q, prev, dist, e.value, e.priority, start, taken);
    }
  }

  /**
   * The search loop of dijkstra_path: queue the start at 0 with a NULL
   * predecessor, then take the most urgent entry until the queue is empty
   * or the entry is `end`, relaxing the neighbours of each.
   */
  method Explore<T(==,0,!new)>(g: Graph<T>, start: T, end: T)
    returns (prev: map<T, Option<T>>, ghost st: Search<T>)
    requires NonNegative(g.nodes)
    ensures st.prev == prev && Inv(g.nodes, start, st) && Core(g.nodes, start, st)
    ensures end in st.settled || (st.queue == multiset{} && Settled(g.nodes, start, st))
  {
    var q, distance;
    q, prev, distance, st := StartSearch(g, start);
    var empty := q.IsEmpty();
    while !empty
      invariant q.Valid() && fresh(q) && fresh(q.data) && q.order == MinFirst
      invariant empty <==> q.Contents() == []
      invariant Holds(g.nodes, start, st, prev, distance, q.Contents()) && Settled(g.nodes, start, st)
      decreases Unseen(g.nodes, start, st), Pending(st)
    {
      var found;
      prev, distance, found, st := Turn(g, q, prev, distance, start, end, st);
      if found {
        break;
      }
      empty := q.IsEmpty();
    }
  }

  /**
   * dijkstra_path: search from `start` until the queue runs dry or `end` is
   * taken off it, then read the path back from `previous`. The list holds
   * the payloads after `start` up to `end`, each reached by an edge from the
   * one before and none twice; it is empty when `end` is the start, and
   * just `end` when the search never reached it.
   */
  method DijkstraPath<T(==,0,!new)>(g: Graph<T>, start: T, end: T) returns (results: LinkedList<T>)
    requires NonNegative(g.nodes)
    ensures results.Valid() && fresh(results.Repr)
    ensures end == start ==> results.Contents == []
    ensures end != start ==> |results.Contents| > 0 && results.Contents[|results.Contents| - 1] == end
    ensures forall i :: 0 <= i < |results.Contents| ==> results.Contents[i] != start
    ensures forall i, j :: 0 <= i < j < |results.Contents| ==> results.Contents[i] != results.Contents[j]
    ensures forall i :: 0 < i < |results.Contents| ==> results.Contents[i] in Neighbors(g.nodes, results.Contents[i - 1])
    ensures results.Contents != [] ==>
              results.Contents[0] in Neighbors(g.nodes, start) || results.Contents == [end]
    ensures || (Route(g.nodes, start, end, [start] + results.Contents)
                && forall p :: Route(g.nodes, start, end, p) ==> Cost(g.nodes, [start] + results.Contents) <= Cost(g.nodes, p))
            || (results.Contents == [end] && forall p :: !Route(g.nodes, start, end, p))
  {
    var prev;
    ghost var st;
    prev, st := Explore(g, start, end);
    results := Reconstruct(start, end, prev, st.dist, st.stamp);
    SearchOutcome(g.nodes, start, end, st, results.Contents);
  }
}

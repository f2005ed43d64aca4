# maze: containers and Dijkstra's shortest path, modelled in Dafny

The `maze` library finds a shortest path through a weighted directed graph.
It is built from four in-memory containers:

- a singly-linked list (`lib/list-ll.c`), which is the result type of the search;
- a chained hashtable from strings to values (`lib/map.c`);
- a binary-heap priority queue, min-first or max-first (`lib/pqueue.c`);
- a graph of payload nodes joined by weighted out-edges (`lib/graph.c`).

On top of these, `lib/path.c` runs Dijkstra's search. It uses lazy duplicate
insertion instead of decrease-key. When the search stops, it reads the path
back from the `previous` map.

The model keeps each file's own form:

| file | models | form |
|---|---|---|
| `linked_list.dfy` | `lib/list-ll.c` | class `LinkedList` over `Node` objects, with ghost `Contents` (the values in order), `Spine` (the nodes) and `Repr` |
| `hash_map.dfy` | `lib/map.c` | class `HashMap` holding an array of bucket chains and a ghost `Contents` map |
| `heap.dfy` | the pure side of `lib/pqueue.c` | `Parent`/`Left`/`Right`, the comparators, sift-up and sift-down as functions on sequences, with their proofs |
| `pqueue.dfy` | `lib/pqueue.c` | class `PQueue` over an array, whose methods are proved equal to the functions of `heap.dfy` |
| `graph.dfy` | `lib/graph.c` | class `Graph` whose `nodes` are a sequence of `Vertex(id, data, edges)`, with the operations specified as functions on that sequence |
| `path.dfy` | `lib/path.c` | Dijkstra's search as methods over a `PQueue`, two Dafny maps and a `LinkedList`, with a ghost search state that carries the invariant and the termination measure |
| `wrappers.dfy` | — | the `Option` type, standing for a NULL or NaN result |

Modelling choices:

- **Payload identity.** The graph compares payloads with a caller-supplied
  `cmp`; the model uses Dafny equality on the payload type `T` instead.
- **Node identity.** A node's own identity (its address in C) is the `id`
  field. `graph_add_edge` and `graph_indegree_size` compare node addresses, so
  the model compares ids there. Ids come from a `nextId` counter.
- **Allocation.** The result of an allocation is a `bool` parameter:
  `allocOk` for the list, queue and graph operations, `growOk`/`nodeOk` for
  the map's insertion, and `allocOk` with `tableOk` or `dataOk` for the two
  allocations of `map_create` and `pqueue_create`. The create functions that
  can return NULL are modelled by static `Create` methods; the constructors
  they call model the successful case only.
- **Hashing.** MD5 becomes a `digest: string -> nat` given to the map's
  constructor. `Bucket` reduces the digest modulo the capacity.
- **Numbers.** Weights, priorities and distances are integers. In the search
  they are natural numbers, because the search requires non-negative weights.
  NaN is `None`.

Where the code and its documentation disagree, the model follows the code:

- `graph_get_edge_weight` returns `false`, which is 0, when `src` is not in
  the graph (`lib/graph.c:228-230`). The header promises NaN. `EdgeWeight`
  gives `Some(0)`.
- `graph_remove_node` frees only the removed node's own out-edges. Edges from
  other nodes into it stay in place. `RemoveNodeDangles` proves that such an
  edge survives the removal.
- The path `dijkstra_path` returns never holds `start`. It is empty when `end`
  is `start`, and it is `[end]` when `end` was never reached (`lib/path.c:76-85`).
- `previous[start]` is stored as NULL (`lib/path.c:65`). The first test of
  `add_to_pqueue_if_faster` therefore treats the start as not yet visited: an
  edge back into the start records a predecessor for it. `Improves` keeps that
  test as written.
- When the only child is a left child, `bubble_down` compares that child with
  the stale slot `data[size]` (`lib/pqueue.c:139-153`). That slot holds the
  entry being sifted, so the outcome is the intended rule: swap with the more
  urgent child unless the parent is strictly more urgent. `SiftDown` states
  that rule.

## Model

| member | source | states |
|---|---|---|
| LinkedLists.Node.constructor | lib/list-ll.c:112-117 | a new node holds its value and has no successor |
| LinkedLists.LinkedList.constructor | lib/list-ll.c:25-30 | a new list is empty: no head, no last node, size 0, and it satisfies the list invariant |
| LinkedLists.LinkedList.Create | lib/list-ll.c:18-31 | NULL exactly when the `malloc` fails; otherwise a fresh empty list of size 0 that satisfies the list invariant |
| LinkedLists.LinkedList.Size | lib/list-ll.c:54-61 | the stored `sz` is the number of values in the list |
| LinkedLists.LinkedList.Walk | lib/list-ll.c:70-75 | walking `idx` steps from the head reaches the idx-th node, or NULL when the index is past the end |
| LinkedLists.LinkedList.Get | lib/list-ll.c:64-82 | the value at `idx` when it is in range, None (NULL) otherwise |
| LinkedLists.LinkedList.Set | lib/list-ll.c:85-103 | an in-range index has exactly that element replaced; an out-of-range index changes nothing; the nodes stay the same |
| LinkedLists.LinkedList.Append | lib/list-ll.c:106-127 | the value goes after every existing value and the invariant (size, head, last) is kept; a failed allocation leaves the list unchanged |
| LinkedLists.LinkedList.Prepend | lib/list-ll.c:130-149 | the value goes in front of every existing value and the invariant is kept; a failed allocation leaves the list unchanged |
| LinkedLists.LinkedList.Fold | lib/list-ll.c:153-164 | visiting the nodes from the head applies the callback to the values in list order (a left fold over the contents) |
| HashMaps.CrowdedExactly | lib/map.c:59 | the integer-division growth test `100*size/capacity > 70` holds exactly when `100*size >= 71*capacity` |
| HashMaps.FirstGrowthAtEleventhKey | lib/map.c:21-59 | with the starting capacity of 15, the map is not crowded at 10 keys and is crowded at 11 |
| HashMaps.Bucket | lib/map.c:169-180 | the bucket index is below the capacity |
| HashMaps.EmptyTable | lib/map.c:32-35 | all-empty buckets hold the empty map and satisfy the table invariant (each key in its own bucket, once, with every key covered) |
| HashMaps.TableLookup | lib/map.c:111-129 | scanning a key's bucket finds the key's value, and reaching the chain's end means the key is absent |
| HashMaps.TableInsert | lib/map.c:96-106 | putting a new key at the head of its bucket keeps the table invariant for the map with the key added |
| HashMaps.InsertPlaced | lib/map.c:96-106 | after a head insertion, every entry still lies in its own bucket and maps to its value |
| HashMaps.InsertDistinct | lib/map.c:96-106 | after inserting a key that was absent, no bucket holds a key twice |
| HashMaps.InsertCovered | lib/map.c:96-106 | after a head insertion, every key of the new map is found in its bucket |
| HashMaps.TableUpdate | lib/map.c:85-94 | overwriting the value of a found entry in place keeps the invariant for the map with that key updated; the size is unchanged |
| HashMaps.ChainNotMoved | lib/map.c:65-77 | during the rehash, the keys of a bucket not yet moved are distinct and none of them is in the new array yet |
| HashMaps.ChainMoved | lib/map.c:65-77 | once bucket `n` is moved, the new array holds exactly the associations of buckets 0..n |
| HashMaps.MovedAll | lib/map.c:65-79 | once every bucket is moved, the new array holds exactly the old associations |
| HashMaps.MoveChain | lib/map.c:66-76 | relinking a chain into the doubled array puts each entry in its bucket for the new capacity, keeps every association already moved and adds exactly the chain's associations |
| HashMaps.HashMap.constructor | lib/map.c:31-41 | a new map is empty, with size 0, capacity 15 and all buckets empty |
| HashMaps.HashMap.Create | lib/map.c:25-42 | NULL exactly when the `malloc` of the map or the `calloc` of its buckets fails; otherwise a fresh empty map with size 0 and capacity 15 that satisfies the table invariant |
| HashMaps.HashMap.Size | lib/map.c:44-51 | the stored size is the number of keys |
| HashMaps.HashMap.Get | lib/map.c:111-129 | the key's value when present, None (NULL) when absent |
| HashMaps.HashMap.Grow | lib/map.c:59-83 | the capacity doubles and every key keeps its value |
| HashMaps.HashMap.Set | lib/map.c:53-109 | success exactly when growth, if needed, and a new key's node, if needed, could be allocated; on success `get(key)` gives the value and every other key is unchanged; on failure the contents are unchanged, though the table may already have doubled; the map grows only when crowded; a new key heads its bucket |
| HashMaps.HashMap.Place | lib/map.c:85-108 | the update-or-insert step after any growth: an existing key is overwritten, a new key heads its bucket, and a failed allocation changes nothing |
| Heaps.Left | lib/pqueue.c:74-77 | the left child's parent is the index itself |
| Heaps.Right | lib/pqueue.c:79-82 | the right child's parent is the index itself, and it sits just after the left child |
| Heaps.Swap | lib/pqueue.c:93-96 | exchanging two slots moves each entry into the other's place, keeps the length and leaves every other slot unchanged |
| Heaps.SiftUp | lib/pqueue.c:84-103 | sifting up keeps the number of entries |
| Heaps.UrgentChild | lib/pqueue.c:149-153 | the chosen child is a child of the index and is at least as urgent as the left child |
| Heaps.SiftDown | lib/pqueue.c:129-165 | sifting down keeps the number of entries |
| Heaps.SiftUpPermutes | lib/pqueue.c:84-103 | bubble_up only rearranges the entries (same multiset) |
| Heaps.SiftDownPermutes | lib/pqueue.c:129-165 | bubble_down only rearranges the entries (same multiset) |
| Heaps.Push | lib/pqueue.c:119-124 | an enqueue adds one entry |
| Heaps.PushAddsEntry | lib/pqueue.c:116-124 | an enqueue adds exactly the new (priority, value) entry to the multiset |
| Heaps.Pop | lib/pqueue.c:179-183 | a dequeue removes one entry |
| Heaps.PopRemovesRoot | lib/pqueue.c:179-183 | a dequeue removes exactly the root entry from the multiset |
| Heaps.SiftUpRestoresHeap | lib/pqueue.c:84-103 | bubble_up turns a heap with one possibly too urgent last entry into a heap |
| Heaps.SiftDownRestoresHeap | lib/pqueue.c:129-165 | bubble_down turns a heap with one possibly not urgent enough root into a heap |
| Heaps.PushKeepsHeap | lib/pqueue.c:119-124 | an enqueue into a heap leaves a heap |
| Heaps.PopKeepsHeap | lib/pqueue.c:179-183 | a dequeue from a heap leaves a heap |
| Heaps.RootMostUrgent | lib/pqueue.c:173-177 | the root of a heap is at least as urgent as every entry |
| Heaps.PopNotMoreUrgent | lib/pqueue.c:167-186 | the next root after a dequeue is no more urgent than the one dequeued |
| Heaps.Drain | lib/pqueue.c:167-186 | dequeuing until empty yields one priority per entry |
| Heaps.DrainIsOrdered | lib/pqueue.c:20-30 | successive dequeues give non-decreasing priorities for a min-queue and non-increasing ones for a max-queue |
| PriorityQueues.FirstPriority | lib/pqueue.c:204-218 | None (NaN) exactly when no entry holds the value; otherwise the priority of an entry that holds it |
| PriorityQueues.PQueue.constructor | lib/pqueue.c:43-57 | a new queue is empty, with the chosen order and 16 slots |
| PriorityQueues.PQueue.Create | lib/pqueue.c:36-58 | NULL exactly when the `malloc` of the queue or of its slots fails; otherwise a fresh empty heap with the chosen order and 16 slots |
| PriorityQueues.PQueue.IsEmpty | lib/pqueue.c:60-67 | true exactly when the queue holds no entries |
| PriorityQueues.PQueue.BubbleUp | lib/pqueue.c:84-103 | the swap loop leaves the array as sift-up of the last entry would |
| PriorityQueues.PQueue.Enqueue | lib/pqueue.c:105-127 | on success the entries are those of the heap enqueue; the array is reused or replaced by one twice as large; a failed allocation changes nothing |
| PriorityQueues.PQueue.Grow | lib/pqueue.c:119-121 | the array doubles and the entries are unchanged |
| PriorityQueues.PQueue.BubbleDown | lib/pqueue.c:129-165 | the swap loop leaves the array as sift-down of the root would |
| PriorityQueues.PQueue.Dequeue | lib/pqueue.c:167-186 | None and no change when empty; otherwise the root entry, which is at least as urgent as every stored entry, and the entries become the heap dequeue |
| PriorityQueues.PQueue.Contains | lib/pqueue.c:188-202 | true exactly when some entry holds the value |
| PriorityQueues.PQueue.GetPriority | lib/pqueue.c:204-218 | the priority of the first entry in array order that holds the value, or None (NaN) |
| PriorityQueues.SeventeenthEnqueueOverflows | lib/pqueue.c:119-122 | with the fixed 16-slot array as written, a seventeenth enqueue has no slot, while the growing queue takes it |
| Graphs.Find | lib/graph.c:156-163 | the index of the node holding the payload, or None exactly when no node holds it |
| Graphs.FindUnique | lib/graph.c:156-163 | when payloads are unique, the node holding the payload is the one found |
| Graphs.EdgeFor | lib/graph.c:232-238 | the index of the first edge whose target holds the payload, or None exactly when there is none |
| Graphs.EdgeTo | lib/graph.c:191-199 | the index of the first edge to the given node, or None exactly when there is none |
| Graphs.Without | lib/graph.c:100-107 | unlinking position `k` shifts the later elements down by one and keeps the earlier ones |
| Graphs.SetEdgesSame | lib/graph.c:191-211 | replacing one node's edges keeps every node's id and payload |
| Graphs.SameNodesKeep | lib/graph.c:191-211 | edges that agree with the nodes, and point to live nodes, keep doing so when only edge lists change |
| Graphs.SetEdgesKeeps | lib/graph.c:191-211 | giving a node a well-formed edge list keeps the graph well-formed, and closed when the new edges point to live nodes |
| Graphs.WithoutEdgeKeeps | lib/graph.c:100-107 | removing an edge keeps the edge list well-formed |
| Graphs.EdgeWeight | lib/graph.c:214-241 | 0 when `src` is absent (as written); otherwise None (NaN) exactly when no edge of `src` leads to `dst` |
| Graphs.Targets | lib/graph.c:338-343 | the visited payloads are the edges' targets, in edge order |
| Graphs.AddNodeIdempotent | lib/graph.c:67-89 | adding a payload twice is adding it once; a new payload adds exactly one node, and the payload is then present |
| Graphs.AddNodeKeeps | lib/graph.c:78-88 | adding a node keeps the graph well-formed, and closed when it was |
| Graphs.AgreePrepend | lib/graph.c:78-88 | an edge list that never targets the new node still carries the right payloads after the node is added |
| Graphs.LivePrepend | lib/graph.c:78-88 | adding a node keeps every edge target live |
| Graphs.PrependWell | lib/graph.c:78-88 | a new node with a fresh id, an unused payload and no edges keeps the graph well-formed |
| Graphs.PrependClosed | lib/graph.c:78-88 | a new node without edges keeps the graph closed |
| Graphs.WellFormedLater | lib/graph.c:73-76 | when the payload is already present nothing changes, and the graph stays well-formed for the next id |
| Graphs.RemoveNodeKeeps | lib/graph.c:120-148 | removing a node keeps the graph well-formed |
| Graphs.RemoveNodeOnly | lib/graph.c:120-148 | removing a node takes away exactly that node, keeps every other node, and the payload is then absent |
| Graphs.RemoveNodeDangles | lib/graph.c:120-148 | an edge from another node into the removed node survives, so the graph is no longer closed |
| Graphs.RemoveEdgeNone | lib/graph.c:91-118 | when no node holding `src` has an edge to `dst`, removing the edge changes nothing |
| Graphs.RemoveEdgeAt | lib/graph.c:91-118 | when the first such edge is edge `k` of node `i`, removing the edge unlinks exactly that edge |
| Graphs.RemoveEdgeOnly | lib/graph.c:91-118 | remove_edge changes only `src`'s node, which loses its first edge to `dst` if it has one; with `src` absent nothing changes |
| Graphs.RemoveEdgeKeeps | lib/graph.c:91-118 | removing an edge keeps the graph well-formed |
| Graphs.RemoveEdgeDegree | lib/graph.c:91-118 | `src`'s out-degree falls by one exactly when it had an edge to `dst` |
| Graphs.TargetHolds | lib/graph.c:191-199 | in a well-formed graph an edge targets `dst`'s node exactly when its target payload is `dst` |
| Graphs.AddEdgeShape | lib/graph.c:168-212 | a successful add_edge found both endpoints and changed only `src`'s edge list |
| Graphs.AddedEdgesSound | lib/graph.c:191-211 | the new or overwritten edge list is well-formed and agrees with the nodes |
| Graphs.AddEdgeKeeps | lib/graph.c:168-212 | add_edge keeps the graph well-formed, its nodes the same, and closed when it was |
| Graphs.SameNodesFind | lib/graph.c:156-163 | graphs with the same nodes find every payload at the same index |
| Graphs.AddEdgeThenWeight | lib/graph.c:168-241 | after a successful add_edge, get_edge_weight returns the weight just set |
| Graphs.AddedEdgesTwice | lib/graph.c:191-199 | after one add_edge the edge exists, so a second one with another weight overwrites it |
| Graphs.AddEdgeOverwrites | lib/graph.c:191-199 | a second add_edge between the same payloads succeeds whatever the allocator does, adds no edge, and ends as one add_edge with the second weight |
| Graphs.SearchEdges | lib/graph.c:232-238 | the scan of an edge list finds the first edge whose target holds the payload |
| Graphs.SearchTargets | lib/graph.c:191-199 | the scan of an edge list finds the first edge to the given node |
| Graphs.Graph.constructor | lib/graph.c:44-48 | a new graph has no nodes and is well-formed |
| Graphs.Graph.Create | lib/graph.c:34-49 | NULL exactly when no comparison function is given or the `malloc` fails; otherwise an empty well-formed graph |
| Graphs.Graph.Size | lib/graph.c:51-65 | the count is the number of nodes |
| Graphs.Graph.Locate | lib/graph.c:156-163 | the node search returns the index of the node holding the payload, or None |
| Graphs.Graph.Contains | lib/graph.c:150-166 | true exactly when some node holds the payload |
| Graphs.Graph.AddNode | lib/graph.c:67-89 | true when the payload was present (nothing changes) or the node could be allocated (a new node in front); the graph stays well-formed |
| Graphs.Graph.RemoveEdge | lib/graph.c:91-118 | the nodes become the edge-removal specification of the old nodes, and the graph stays well-formed |
| Graphs.Graph.RemoveNode | lib/graph.c:120-148 | the nodes become the node-removal specification of the old nodes, and the graph stays well-formed |
| Graphs.Graph.LocateBoth | lib/graph.c:174-189 | the joint scan finds both endpoints when both are present, and reports a missing one |
| Graphs.Graph.AddEdge | lib/graph.c:168-212 | false with no change when an endpoint is missing or a new edge cannot be allocated; otherwise the nodes become the add-edge specification |
| Graphs.Graph.GetEdgeWeight | lib/graph.c:214-241 | the result is the edge-weight specification, including 0 for a missing `src` |
| Graphs.Graph.OutDegreeSize | lib/graph.c:243-269 | the count is the number of `src`'s out-edges, 0 when it is absent |
| Graphs.Graph.InDegreeSize | lib/graph.c:271-304 | the count is the number of edges over all nodes into the node, 0 when it is absent |
| Graphs.Graph.NeighborList | lib/graph.c:319-344 | the payloads visited are the targets of the node's edges in order, none when the node is absent |
| Graphs.TargetsSnoc | lib/graph.c:338-343 | visiting one more edge adds its target payload at the end |
| Paths.Weight | lib/path.c:23-25 | for a neighbour, get_edge_weight gives a number (not NaN), which is non-negative |
| Paths.NeighborInUniverse | lib/path.c:73 | every neighbour the search visits lies in the finite set of payloads it can record |
| Paths.InitialInv | lib/path.c:58-65 | the initial state (start queued at 0, NULL predecessor, no distances) satisfies the search invariant |
| Paths.TotalRemove | lib/path.c:39-46 | the sum of recorded distances splits into one payload's distance plus the rest |
| Paths.TotalUpdate | lib/path.c:45-46 | overwriting one payload's distance changes the sum by the difference |
| Paths.RelaxProgress | lib/path.c:31-47 | a relaxation either records a new payload (fewer unseen) or only lowers a distance, which outweighs the entry it queues |
| Paths.RelaxMarks | lib/path.c:31-47 | after a relaxation, a payload has a distance exactly when it has a predecessor, and only the start has NULL |
| Paths.RelaxQueued | lib/path.c:35-43 | every queued priority is non-negative and no smaller than its payload's recorded distance |
| Paths.RelaxLinked | lib/path.c:33-41 | every recorded predecessor has an edge to its payload |
| Paths.RelaxOrdered | lib/path.c:31-47 | every predecessor other than the start is below its payload in (distance, stamp) order |
| Paths.RelaxDequeued | lib/path.c:39-46 | the entry being processed stays within its payload's recorded distance, since distances only fall |
| Paths.RelaxKeeps | lib/path.c:18-49 | a relaxation keeps the whole search invariant |
| Paths.TakeKeeps | lib/path.c:67-68 | taking an entry off the queue keeps the invariant, and lowers the measure without changing the unseen payloads |
| Paths.Reconstruct | lib/path.c:76-85 | the list ends at `end`, never holds `start`, links each payload to the one before by `previous`, begins at a successor of the start or is `[end]` with `end` unvisited, is empty when `end` is `start`, and rises strictly in (distance, stamp) order, so the loop ends |
| Paths.RecordIfFaster | lib/path.c:27-47 | with no predecessor, or a strictly shorter distance, the neighbour gets the popped payload as predecessor, the new distance and a queue entry at that distance; otherwise nothing changes |
| Paths.AddIfFaster | lib/path.c:18-49 | the same, with the distance being the popped priority plus the edge weight |
| Paths.RelaxMatches | lib/path.c:18-49 | the maps and queue entries after the call are the ghost relaxation of the search state |
| Paths.RelaxOne | lib/path.c:18-49 | one callback from graph_iterate_neighbors, on the `j`-th neighbour, leaves the maps and queue as the first `j + 1` relaxations of the search state |
| Paths.ProgressTrans | lib/path.c:73 | not growing the measure is transitive across callbacks |
| Paths.RelaxAll | lib/path.c:73 | relaxing all neighbours in edge order keeps the invariant and does not grow the measure |
| Paths.TakeNext | lib/path.c:67-68 | the dequeued entry leaves the search's queue, has a non-negative priority no smaller than its payload's distance, and the measure falls |
| Paths.Explore | lib/path.c:58-75 | the search loop ends (the queue runs dry or `end` is taken), and the final `previous` map satisfies the search invariant |
| Paths.RelaxationsNext | lib/path.c:73 | the first `j + 1` relaxations are the first `j` followed by the relaxation of neighbour `j` |
| Paths.ThroughAlong | lib/path.c:23-25 | the neighbour list and the distances offered along it are the graph's neighbours and the priority plus each edge weight |
| Paths.RelaxationsKeep | lib/path.c:18-49 | every prefix of the relaxations of one payload's neighbours keeps the search invariant |
| Paths.RelaxationsQueued | lib/path.c:35-43 | every prefix of the relaxations keeps each queued priority at or above its payload's distance |
| Paths.RelaxationsLinked | lib/path.c:33-41 | every prefix of the relaxations keeps each predecessor joined to its payload by an edge |
| Paths.RelaxationsOrdered | lib/path.c:31-47 | every prefix of the relaxations keeps each predecessor below its payload in (distance, stamp) order |
| Paths.RelaxationsUniverse | lib/path.c:73 | every prefix of the relaxations records distances only for the start and edge targets |
| Paths.RelaxationsDequeued | lib/path.c:39-46 | the payload being expanded keeps its claim through every prefix of the relaxations |
| Paths.RelaxationsMarks | lib/path.c:31-47 | every prefix of the relaxations keeps a payload with a distance exactly when it has a non-NULL predecessor |
| Paths.RelaxationsProgress | lib/path.c:73 | relaxing a payload's neighbours does not grow the termination measure |
| Paths.RelaxationsExpanding | lib/path.c:73 | after the first `j` relaxations, the first `j` neighbours of the payload are within its distance plus the edge |
| Paths.RelaxationsStep | lib/path.c:18-49 | the `j`-th relaxation extends the relaxed neighbours from `j - 1` to `j` |
| Paths.RelaxationsSettle | lib/path.c:73 | once all neighbours are relaxed, every settled payload has all its edges relaxed |
| Paths.RelaxEach | lib/path.c:73 | the neighbour loop leaves the maps and queue as all the relaxations of the search state |
| Paths.RelaxLowers | lib/path.c:39-47 | a relaxation only lowers distances and leaves those of settled payloads alone |
| Paths.RelaxAtDistance | lib/path.c:31-47 | a relaxation improves a neighbour only when the payload was taken at its own distance |
| Paths.RelaxCore | lib/path.c:18-49 | a relaxation from a settled payload at its distance keeps the shortest-path facts about settled payloads and the queue |
| Paths.RelaxKeepsReached | lib/path.c:39-47 | an edge already relaxed stays relaxed after another relaxation |
| Paths.RelaxKeepsExpanded | lib/path.c:39-47 | a payload whose edges were all relaxed stays so after another relaxation |
| Paths.RelaxExpanding | lib/path.c:18-49 | relaxing the `j`-th neighbour, when the first `j - 1` are done, makes the first `j` done |
| Paths.ExpandingDone | lib/path.c:73 | once every neighbour of the taken payload is relaxed, every settled payload is expanded |
| Paths.TakeFloored | lib/path.c:67-68 | after taking the most urgent entry, no queued entry is below its priority |
| Paths.TakeAtDistance | lib/path.c:67-68 | the first take of a payload other than the start carries its recorded distance |
| Paths.TakeShortest | lib/path.c:67-68 | the payload taken first has a distance no greater than the cost of any route to it |
| Paths.TakeFrontier | lib/path.c:67-68 | every unsettled payload with a distance still has that distance queued after a take |
| Paths.TakeBounded | lib/path.c:67-68 | the entry taken is the start at 0 or no cheaper than its payload's distance, and not below the floor |
| Paths.TakeFinal | lib/path.c:67-68 | after a take, every settled payload's distance is within the new floor |
| Paths.TakeExpanded | lib/path.c:67-68 | a take changes no distance, so settled payloads stay expanded |
| Paths.TakeExact | lib/path.c:67-68 | a take keeps every predecessor settled and every distance exactly the predecessor's plus the edge |
| Paths.TakeBegun | lib/path.c:64-68 | the first entry taken is the start, which is then settled |
| Paths.TakeCore | lib/path.c:67-68 | taking the most urgent entry keeps the shortest-path facts about settled payloads and the queue |
| Paths.TakeSettles | lib/path.c:67-73 | taking the most urgent entry settles its payload at its distance, ready for its neighbours to be relaxed |
| Paths.StartSearch | lib/path.c:58-65 | a fresh minimum-first queue holding only the start at 0, `previous` holding only the start with NULL, no distances, and the invariant holds |
| Paths.Turn | lib/path.c:67-74 | one turn of the search loop takes the most urgent entry and, unless it is `end`, relaxes its neighbours; the invariant holds and the measure falls |
| Paths.EdgeCostWeight | lib/path.c:23-25 | for an out-neighbour, the weight added is get_edge_weight's, which is non-negative |
| Paths.EdgeCostNonNegative | lib/path.c:23-25 | with non-negative weights every step of a walk costs at least 0 |
| Paths.CostNonNegative | lib/path.c:23-25 | with non-negative weights every walk costs at least 0 |
| Paths.PathPrefix | lib/path.c:23-25 | a walk without its last step is a walk, and the walk costs that plus the last edge |
| Paths.PathExtend | lib/path.c:76-85 | a walk followed by an out-neighbour of its last payload is a walk |
| Paths.PathTake | lib/path.c:76-85 | every non-empty prefix of a walk is a walk |
| Paths.CostPrefix | lib/path.c:23-25 | with non-negative weights a prefix of a walk costs no more than the walk |
| Paths.LeaveSettled | lib/path.c:67-75 | a walk from a settled payload to an unsettled one has a step from settled to unsettled |
| Paths.EdgeBound | lib/path.c:18-49 | a walk's last step from a settled, expanded payload gives the target a distance within the walk's cost |
| Paths.FrontierBound | lib/path.c:67-75 | every route from the start to an unsettled payload passes a queued, unsettled payload whose distance is within the route's cost |
| Paths.Unreachable | lib/path.c:67-75 | when the queue runs dry, no route reaches a payload that was never settled |
| Paths.PrefixNext | lib/path.c:76-85 | one more payload of the path extends the walk from the start by that payload |
| Paths.WalkedStep | lib/path.c:77-85 | prepending the current payload keeps the reconstruction loop's invariant, and the next one lies strictly below it |
| Paths.ChainCost | lib/path.c:76-85 | following `previous` back, the walk from the start to the `k`-th payload of the path is a route costing that payload's distance |
| Paths.ChainCostAll | lib/path.c:76-85 | the walk from the start along the whole path is a route costing `end`'s distance |
| Paths.ChainRoute | lib/path.c:76-85 | for a settled `end`, the start followed by the reconstructed path is a route whose cost is `end`'s distance |
| Paths.LeastRoute | lib/path.c:67-72 | a route to a settled payload that costs its distance costs no more than any other route there |
| Paths.FoundOutcome | lib/path.c:67-85 | when `end` is taken, the start followed by the reconstructed path is a route of least cost |
| Paths.MissedOutcome | lib/path.c:67-85 | when the queue runs dry before `end` is taken, the path is `[end]` and no route reaches `end` |
| Paths.SearchOutcome | lib/path.c:67-85 | however the search loop stops, the reconstructed path is either a least-cost route after the start or `[end]` with `end` unreachable |
| Paths.DijkstraPath | lib/path.c:51-91 | the result is empty when `end` is `start`; otherwise it ends at `end`, never holds `start`, has no repeats and follows edges of the graph; and either `start` followed by the result is a route of least total weight to `end`, or the result is `[end]` and no route reaches `end` |

## Left out

- NULL handles and NULL arguments are not modelled: list, map, queue and graph
  handles are Dafny objects, and payloads and keys are values. The NULL guards
  (for example `lib/pqueue.c:107-109`, `lib/graph.c:69-71`) have no counterpart.
- The destroy functions (`list_destroy`, `map_destroy`, `pqueue_destroy`,
  `graph_destroy`) and payload destructor callbacks: memory is managed by Dafny.
- `graph_serialize` and `graph_deserialize`: file I/O and text parsing.
- `maze.c`: argument checking and exit codes.
- `map_iterate` and `graph_iterate_nodes`: callback plumbing, as are
  `list_iterate` and `graph_iterate_neighbors`, which are modelled as a fold
  (`LinkedList.Fold`) and a sequence of payloads (`Graph.NeighborList`).
- The MD5 digest: `HashMap` takes it as a function parameter, so only
  determinism and `Bucket < capacity` are modelled.
- Floating point: weights, priorities and distances are integers, and NaN is
  `None`. NaN ordering in the comparators is not modelled.
- The decimal-address string keys and the `double`/`void*` union of
  `lib/path.c`: the search keys its maps by payload and stores distances as
  numbers. The file-scope statics become local state and parameters.
- Paths.DijkstraPath: requires non-negative weights (`NonNegative`), as the
  algorithm does. The C code itself does not check the weights. With a
  negative cycle reachable from `start`, the test at `lib/path.c:39` keeps
  succeeding, the loop at `lib/path.c:67` never ends and the fixed queue
  overflows. `Explore`'s termination measure relies on `NonNegative`, so
  this behaviour of the source is outside the model. The concrete example A→B 1, B→C 2, A→C 5 giving `[B, C]`
  is not stated as an instance of its least-cost postcondition.
- Paths.DijkstraPath: the C code compares payloads in two ways. The graph
  lookups use `cmp`, but the search compares addresses: `curr_item == end`
  (`lib/path.c:70`), `curr != start` (`lib/path.c:77`), and the maps keyed by
  the address string. The model uses one equality for both. So when `end` is
  `cmp`-equal to a graph payload but is a different pointer, the C loop never
  breaks on it and returns `[end]`, while the model returns the route.
- Paths.AddIfFaster: the two branches of `add_to_pqueue_if_faster`
  (`lib/path.c:31-47`) do the same thing, so the model merges them into one
  test (`Improves`).
- Paths.DijkstraPath: its queue is the growing `PQueue` (see Findings), so a
  search that queues more than 16 entries is modelled as the intended code
  and not as the overflow.
- Graphs: an edge keeps its target's payload (`targetData`), so reading a
  dangling edge after `graph_remove_node` gives the removed payload where the
  C code reads freed memory.
- Heaps.SiftDown: the read of the stale slot `data[size]` in the lone-left-child
  case is not modelled; the intended rule, which has the same effect, is.
- LinkedLists.LinkedList.constructor: always yields a list. The NULL result of
  a failed `malloc` in `list_create` is modelled by `LinkedList.Create`.
- HashMaps.HashMap.constructor: always yields a map. The NULL results of a
  failed `malloc` or `calloc` in `map_create` are modelled by `HashMap.Create`.
- PriorityQueues.PQueue.constructor: always yields a queue. The NULL results of
  a failed `malloc` in `pqueue_create` are modelled by `PQueue.Create`.
- LinkedLists.LinkedList.Get and LinkedLists.LinkedList.Set: the `list == NULL`
  case is not modelled.
- The ghost `stamp` and `clock` of the search state are proof devices with no
  counterpart in the C code. They order predecessor links so that the
  reconstruction loop is shown to end.

## Findings

| source | as written | input that shows it | evidently intended | confidence | as-written member | corrected member |
|---|---|---|---|---|---|---|
| lib/pqueue.c:119-122 | `pqueue_enqueue` writes to `data[size]` of an array fixed at 16 slots, with no resize (the TODO at line 119) | a queue holding 16 entries, then one more enqueue: the write goes past the end of the array | grow the array when `size == capacity`, so every enqueue succeeds when memory is available | high (not executed) | PriorityQueues.SeventeenthEnqueueOverflows | PriorityQueues.PQueue.Enqueue |

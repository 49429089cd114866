/** Day 16: valves joined by tunnels, and the breadth-first search for the
    path from one valve to another. */
module Day16 {
  import opened Wrappers

  /** A valve; like the data class, two valves are equal when their ids and flow rates are. */
  datatype ValveNode = ValveNode(id: string, flowRate: int)

  /** The `neighbours` each valve was given; a valve without an entry has none. */
  type Graph = map<ValveNode, seq<ValveNode>>

  function Neighbours(graph: Graph, node: ValveNode): seq<ValveNode> {
    if node in graph then graph[node] else []
  }

  /** Every valve that can appear in a search from `source`. */
  function Valves(graph: Graph, source: ValveNode): set<ValveNode> {
    {source} + set node, next | node in graph && next in graph[node] :: next
  }

  // ---------------------------------------------------------------------
  // Walks
  // ---------------------------------------------------------------------

  /** `path` is a walk leaving `source`: each valve is a neighbour of the one before it. */
  predicate IsWalk(graph: Graph, source: ValveNode, path: seq<ValveNode>) {
    && (path != [] ==> path[0] in Neighbours(graph, source))
    && forall i | 1 <= i < |path| :: path[i] in Neighbours(graph, path[i - 1])
  }

  /** Some walk leads from `source` to `target` through at least one tunnel. */
  ghost predicate Reachable(graph: Graph, source: ValveNode, target: ValveNode) {
    exists path | IsWalk(graph, source, path) :: path != [] && path[|path| - 1] == target
  }

  lemma WalkExtend(graph: Graph, source: ValveNode, path: seq<ValveNode>, next: ValveNode)
    requires IsWalk(graph, source, path)
    requires next in Neighbours(graph, if path == [] then source else path[|path| - 1])
    ensures IsWalk(graph, source, path + [next])
  {
    var extended := path + [next];
    forall i | 1 <= i < |extended|
      ensures extended[i] in Neighbours(graph, extended[i - 1])
    {
      assert extended[i - 1] == path[i - 1];
      if i < |path| {
        assert extended[i] == path[i];
      }
    }
  }

  /** A walk that starts in a set closed under neighbours never leaves it. */
  lemma {:induction false} WalkStaysInside(graph: Graph, inside: set<ValveNode>, source: ValveNode, path: seq<ValveNode>, i: nat)
    requires forall v, w | v in inside && w in Neighbours(graph, v) :: w in inside
    requires source in inside && IsWalk(graph, source, path) && i < |path|
    ensures path[i] in inside
  {
    if i > 0 {
      WalkStaysInside(graph, inside, source, path, i - 1);
    }
  }

  /** A target outside a closed set around the source is unreachable. */
  lemma ClosedUnreachable(graph: Graph, inside: set<ValveNode>, source: ValveNode, target: ValveNode)
    requires forall v, w | v in inside && w in Neighbours(graph, v) :: w in inside
    requires source in inside && target !in inside
    ensures !Reachable(graph, source, target)
  {
    forall path | IsWalk(graph, source, path) && path != []
      ensures path[|path| - 1] != target
    {
      WalkStaysInside(graph, inside, source, path, |path| - 1);
    }
  }

  // ---------------------------------------------------------------------
  // The search queue
  // ---------------------------------------------------------------------

  /** A queue element: the path so far (starting at the source) and the valve reached. */
  datatype Entry = Entry(path: seq<ValveNode>, node: ValveNode)

  function Full(e: Entry): seq<ValveNode> {
    e.path + [e.node]
  }

  /** The entry's path starts at the source, walks along tunnels and never comes back to the source. */
  predicate EntryOk(graph: Graph, source: ValveNode, e: Entry) {
    Full(e)[0] == source && IsWalk(graph, source, Full(e)[1..]) && source !in Full(e)[1..]
  }

  function QueuedNodes(queue: seq<Entry>): set<ValveNode> {
    set e | e in queue :: e.node
  }

  /** `neighbours.filter { it !in visitedNodes }.map { path + node to it }`. */
  function Enqueue(neighbours: seq<ValveNode>, visitedNodes: set<ValveNode>, path: seq<ValveNode>): (r: seq<Entry>)
    ensures |r| <= |neighbours|
    ensures forall e | e in r :: e.path == path && e.node in neighbours && e.node !in visitedNodes
    ensures forall next | next in neighbours :: next in visitedNodes || next in QueuedNodes(r)
  {
    if neighbours == [] then []
    else
      var rest := Enqueue(neighbours[1..], visitedNodes, path);
      if neighbours[0] in visitedNodes then rest else [Entry(path, neighbours[0])] + rest
  }

  /** The termination weight of the queue: a valve already visited weighs one more than its neighbour count. */
  function Weight(graph: Graph, queue: seq<Entry>, visitedNodes: set<ValveNode>): nat {
    if queue == [] then 0
    else
      (if queue[0].node in visitedNodes then 1 + |Neighbours(graph, queue[0].node)| else 1)
        + Weight(graph, queue[1..], visitedNodes)
  }

  lemma {:induction false} WeightAppend(graph: Graph, a: seq<Entry>, b: seq<Entry>, visitedNodes: set<ValveNode>)
    ensures Weight(graph, a + b, visitedNodes) == Weight(graph, a, visitedNodes) + Weight(graph, b, visitedNodes)
  {
    if a == [] {
      assert a + b == b;
    } else {
      assert (a + b)[0] == a[0];
      assert (a + b)[1..] == a[1..] + b;
      WeightAppend(graph, a[1..], b, visitedNodes);
    }
  }

  lemma {:induction false} WeightUnvisited(graph: Graph, queue: seq<Entry>, visitedNodes: set<ValveNode>)
    requires forall e | e in queue :: e.node !in visitedNodes
    ensures Weight(graph, queue, visitedNodes) == |queue|
  {
    if queue != [] {
      assert forall e | e in queue[1..] :: e in queue;
      WeightUnvisited(graph, queue[1..], visitedNodes);
    }
  }

  /** The number of tunnels the entry's path has crossed. */
  function Level(e: Entry): nat {
    |e.path|
  }

  /** Where a walk leaving `source` ends. */
  function End(source: ValveNode, path: seq<ValveNode>): ValveNode {
    if path == [] then source else path[|path| - 1]
  }

  lemma WalkPrefix(graph: Graph, source: ValveNode, path: seq<ValveNode>, k: nat)
    requires IsWalk(graph, source, path) && k < |path|
    ensures IsWalk(graph, source, path[..k])
    ensures path[k] in Neighbours(graph, End(source, path[..k]))
  {
  }

  /** Some queued entry reaches `w` within `bound` tunnels. */
  predicate QueuedWithin(queue: seq<Entry>, w: ValveNode, bound: int) {
    exists i | 0 <= i < |queue| :: queue[i].node == w && Level(queue[i]) <= bound
  }

  /** The queue holds entries in order of level, at most one level beyond the front. */
  predicate LevelsOrdered(queue: seq<Entry>) {
    forall i, j | 0 <= i <= j < |queue| :: Level(queue[i]) <= Level(queue[j]) <= Level(queue[0]) + 1
  }

  /** Every valve that a walk shorter than `bound` reaches has been visited. */
  ghost predicate ShorterWalksVisited(graph: Graph, source: ValveNode, bound: int, visited: set<ValveNode>) {
    forall path | IsWalk(graph, source, path) && |path| < bound :: End(source, path) in visited
  }

  /** No walk reaches a visited valve in fewer tunnels than the level it was visited at. */
  ghost predicate LevelsAreDistances(graph: Graph, source: ValveNode, levels: map<ValveNode, nat>) {
    forall path | IsWalk(graph, source, path) && End(source, path) in levels :: levels[End(source, path)] <= |path|
  }

  /** Every unvisited neighbour of a visited valve is queued at most one level beyond it. */
  predicate Frontier(graph: Graph, queue: seq<Entry>, levels: map<ValveNode, nat>) {
    forall v, w | v in levels && w in Neighbours(graph, v) :: w in levels || QueuedWithin(queue, w, levels[v] + 1)
  }

  /** Every queued entry walks from the source to a valve the search can meet. */
  predicate EntriesOk(graph: Graph, source: ValveNode, queue: seq<Entry>) {
    forall e | e in queue :: e.node in Valves(graph, source) && EntryOk(graph, source, e)
  }

  /** What the loop of `shortestPathTo` keeps about the queue and the visited set; `levels` maps each visited valve to its level. */
  ghost predicate SoundState(graph: Graph, source: ValveNode, target: ValveNode,
                             queue: seq<Entry>, visitedNodes: set<ValveNode>, levels: map<ValveNode, nat>)
  {
    && visitedNodes <= Valves(graph, source)
    && EntriesOk(graph, source, queue)
    && target !in visitedNodes
    && (visitedNodes == {} ==> queue == [Entry([], source)])
    && (visitedNodes != {} ==> source in visitedNodes)
    && levels.Keys == visitedNodes
  }

  /** What makes the search breadth-first: levels are distances and the queue advances one level at a time. */
  ghost predicate LevelState(graph: Graph, source: ValveNode, queue: seq<Entry>, levels: map<ValveNode, nat>) {
    && Frontier(graph, queue, levels)
    && LevelsOrdered(queue)
    && (queue != [] ==> ShorterWalksVisited(graph, source, Level(queue[0]), levels.Keys))
    && LevelsAreDistances(graph, source, levels)
  }

  /** The valve a visit records, at the level it is first met. */
  function Record(levels: map<ValveNode, nat>, entry: Entry): map<ValveNode, nat> {
    if entry.node in levels then levels else levels[entry.node := Level(entry)]
  }

  /**
   * The queue after visiting its front entry: the rest of the queue, then
   * one entry one tunnel further for each neighbour not visited yet.
   */
  function Advance(graph: Graph, queue: seq<Entry>, visitedNodes: set<ValveNode>): (r: seq<Entry>)
    requires queue != []
    ensures |queue| - 1 <= |r| && r[..|queue| - 1] == queue[1..]
    ensures forall e | e in r[|queue| - 1..] ::
      e.path == Full(queue[0]) && e.node in Neighbours(graph, queue[0].node)
      && e.node !in visitedNodes && e.node != queue[0].node
  {
    queue[1..] + Enqueue(Neighbours(graph, queue[0].node), visitedNodes + {queue[0].node}, Full(queue[0]))
  }

  /** The entries a visit adds extend the visited entry's walk by one tunnel. */
  lemma EnqueuedOk(graph: Graph, source: ValveNode, queue: seq<Entry>, visited: set<ValveNode>)
    requires queue != [] && EntriesOk(graph, source, queue) && source in visited
    ensures EntriesOk(graph, source, queue[1..] + Enqueue(Neighbours(graph, queue[0].node), visited, Full(queue[0])))
  {
    var entry := queue[0];
    assert entry in queue;
    var added := Enqueue(Neighbours(graph, entry.node), visited, Full(entry));
    forall e | e in added
      ensures e.node in Valves(graph, source) && EntryOk(graph, source, e)
    {
      assert entry.node in graph;
      var walk := Full(entry)[1..];
      assert entry.node == (if walk == [] then source else walk[|walk| - 1]);
      WalkExtend(graph, source, walk, e.node);
      assert Full(e)[1..] == walk + [e.node];
      assert Full(e)[0] == source;
    }
    assert forall e | e in queue[1..] + added :: e in queue[1..] || e in added;
    assert forall e | e in queue[1..] :: e in queue;
  }

  /** Appending entries one level beyond the front keeps the queue ordered. */
  lemma OrderStep(queue: seq<Entry>, added: seq<Entry>)
    requires queue != [] && LevelsOrdered(queue)
    requires forall e | e in added :: Level(e) == Level(queue[0]) + 1
    ensures LevelsOrdered(queue[1..] + added)
    ensures queue[1..] + added != [] ==>
      Level(queue[0]) <= Level((queue[1..] + added)[0]) <= Level(queue[0]) + 1
  {
    var queue' := queue[1..] + added;
    forall i, j | 0 <= i <= j < |queue'|
      ensures Level(queue'[i]) <= Level(queue'[j]) <= Level(queue'[0]) + 1
    {
      if j >= |queue| - 1 {
        assert queue'[j] in added;
      }
      if i >= |queue| - 1 {
        assert queue'[i] in added;
      }
      if 0 >= |queue| - 1 {
        assert queue'[0] in added;
      }
    }
    if queue' != [] && |queue| > 1 {
      assert queue'[0] == queue[1];
    } else if queue' != [] {
      assert queue'[0] in added;
    }
  }

  /** After a visit, every unvisited neighbour of a visited valve is still queued within one level of it. */
  lemma FrontierStep(graph: Graph, queue: seq<Entry>, levels: map<ValveNode, nat>, added: seq<Entry>)
    requires queue != [] && Frontier(graph, queue, levels)
    requires forall e | e in added :: Level(e) == Level(queue[0]) + 1
    requires queue[0].node !in levels ==> forall next | next in Neighbours(graph, queue[0].node) ::
      next in levels || next == queue[0].node || next in QueuedNodes(added)
    ensures var entry := queue[0];
      var levels' := if entry.node in levels then levels else levels[entry.node := Level(entry)];
      Frontier(graph, queue[1..] + added, levels')
  {
    var entry := queue[0];
    var levels' := if entry.node in levels then levels else levels[entry.node := Level(entry)];
    var queue' := queue[1..] + added;
    forall v, w | v in levels' && w in Neighbours(graph, v) && w !in levels'
      ensures QueuedWithin(queue', w, levels'[v] + 1)
    {
      if v in levels {
        assert levels'[v] == levels[v];
        var i :| 0 <= i < |queue| && queue[i].node == w && Level(queue[i]) <= levels[v] + 1;
        assert i != 0;
        assert queue'[i - 1] == queue[i];
      } else {
        assert v == entry.node && levels'[v] == Level(entry);
        var e :| e in added && e.node == w;
        var k := IndexIn(added, e);
        assert queue'[|queue| - 1 + k] == e;
      }
    }
  }

  function IndexIn(s: seq<Entry>, e: Entry): (k: nat)
    requires e in s
    ensures k < |s| && s[k] == e
  {
    if s[0] == e then 0 else 1 + IndexIn(s[1..], e)
  }

  /** Once the front moves on a level, every valve at the old front's distance has been visited. */
  lemma ShorterStep(graph: Graph, source: ValveNode, queue: seq<Entry>, levels: map<ValveNode, nat>, queue': seq<Entry>)
    requires queue != [] && queue' != [] && source in Record(levels, queue[0])
    requires ShorterWalksVisited(graph, source, Level(queue[0]), levels.Keys)
    requires LevelsAreDistances(graph, source, levels)
    requires Frontier(graph, queue', Record(levels, queue[0])) && LevelsOrdered(queue')
    requires Level(queue[0]) <= Level(queue'[0]) <= Level(queue[0]) + 1
    ensures ShorterWalksVisited(graph, source, Level(queue'[0]), Record(levels, queue[0]).Keys)
  {
    var levels' := Record(levels, queue[0]);
    var front := Level(queue[0]);
    forall path | IsWalk(graph, source, path) && |path| < Level(queue'[0])
      ensures End(source, path) in levels'
    {
      if |path| == front && path != [] {
        var prefix := path[..front - 1];
        WalkPrefix(graph, source, path, front - 1);
        var w := End(source, prefix);
        assert w in levels;
        assert levels[w] <= front - 1;
        var u := path[front - 1];
        assert End(source, path) == u;
        assert !QueuedWithin(queue', u, front);
      }
    }
  }

  /** A valve visited for the first time is visited at its distance from the source. */
  lemma DistanceStep(graph: Graph, source: ValveNode, levels: map<ValveNode, nat>, node: ValveNode, level: nat)
    requires ShorterWalksVisited(graph, source, level, levels.Keys)
    requires LevelsAreDistances(graph, source, levels)
    requires node !in levels
    ensures LevelsAreDistances(graph, source, levels[node := level])
  {
  }

  lemma NewVisitShrinks(valves: set<ValveNode>, visited: set<ValveNode>, node: ValveNode)
    requires node in valves && node !in visited
    ensures |valves - (visited + {node})| < |valves - visited|
  {
    assert valves - visited == (valves - (visited + {node})) + {node};
  }

  /** A visit either visits a new valve or takes a stale entry off without adding more weight than it removes. */
  lemma MeasureStep(graph: Graph, source: ValveNode, queue: seq<Entry>, visitedNodes: set<ValveNode>)
    requires queue != [] && queue[0].node in Valves(graph, source) && visitedNodes <= Valves(graph, source)
    ensures var entry := queue[0];
      var visited' := visitedNodes + {entry.node};
      var queue' := queue[1..] + Enqueue(Neighbours(graph, entry.node), visited', Full(entry));
      || |Valves(graph, source) - visited'| < |Valves(graph, source) - visitedNodes|
      || (visited' == visitedNodes && Weight(graph, queue', visited') < Weight(graph, queue, visitedNodes))
  {
    var entry := queue[0];
    var visited' := visitedNodes + {entry.node};
    var added := Enqueue(Neighbours(graph, entry.node), visited', Full(entry));
    if entry.node !in visitedNodes {
      NewVisitShrinks(Valves(graph, source), visitedNodes, entry.node);
    } else {
      assert visited' == visitedNodes;
      var deg := |Neighbours(graph, entry.node)|;
      assert Weight(graph, queue, visitedNodes) == 1 + deg + Weight(graph, queue[1..], visitedNodes);
      WeightAppend(graph, queue[1..], added, visitedNodes);
      WeightUnvisited(graph, added, visitedNodes);
      assert |added| <= deg;
    }
  }

  /** One visit keeps the queue's entries and the visited set sound. */
  lemma SoundStep(graph: Graph, source: ValveNode, target: ValveNode,
                  queue: seq<Entry>, visitedNodes: set<ValveNode>, levels: map<ValveNode, nat>)
    requires queue != [] && SoundState(graph, source, target, queue, visitedNodes, levels)
    requires queue[0].node != target
    ensures SoundState(graph, source, target, Advance(graph, queue, visitedNodes),
                       visitedNodes + {queue[0].node}, Record(levels, queue[0]))
  {
    var entry := queue[0];
    assert entry in queue;
    var visited' := visitedNodes + {entry.node};
    assert source in visited' by {
      if visitedNodes == {} {
        assert entry.node == source;
      }
    }
    EnqueuedOk(graph, source, queue, visited');
  }

  /** One visit keeps the queue ordered by level and every unvisited neighbour queued. */
  lemma FrontStep(graph: Graph, queue: seq<Entry>, visitedNodes: set<ValveNode>, levels: map<ValveNode, nat>)
    requires queue != [] && levels.Keys == visitedNodes
    requires Frontier(graph, queue, levels) && LevelsOrdered(queue)
    ensures var queue' := Advance(graph, queue, visitedNodes);
      && Frontier(graph, queue', Record(levels, queue[0]))
      && LevelsOrdered(queue')
      && (queue' != [] ==> Level(queue[0]) <= Level(queue'[0]) <= Level(queue[0]) + 1)
  {
    var entry := queue[0];
    var added := Enqueue(Neighbours(graph, entry.node), visitedNodes + {entry.node}, Full(entry));
    assert queue[1..] + added == Advance(graph, queue, visitedNodes);
    assert forall e | e in added :: Level(e) == Level(entry) + 1;
    OrderStep(queue, added);
    FrontierStep(graph, queue, levels, added);
  }

  /** One visit keeps levels equal to distances, and every walk shorter than the new front visited. */
  lemma DepthStep(graph: Graph, source: ValveNode, queue: seq<Entry>, levels: map<ValveNode, nat>, queue': seq<Entry>)
    requires queue != [] && source in Record(levels, queue[0])
    requires ShorterWalksVisited(graph, source, Level(queue[0]), levels.Keys)
    requires LevelsAreDistances(graph, source, levels)
    requires Frontier(graph, queue', Record(levels, queue[0])) && LevelsOrdered(queue')
    requires queue' != [] ==> Level(queue[0]) <= Level(queue'[0]) <= Level(queue[0]) + 1
    ensures LevelsAreDistances(graph, source, Record(levels, queue[0]))
    ensures queue' != [] ==> ShorterWalksVisited(graph, source, Level(queue'[0]), Record(levels, queue[0]).Keys)
  {
    if queue[0].node !in levels {
      DistanceStep(graph, source, levels, queue[0].node, Level(queue[0]));
    }
    if queue' != [] {
      ShorterStep(graph, source, queue, levels, queue');
    }
  }

  lemma SearchStart(graph: Graph, source: ValveNode, target: ValveNode)
    requires target != source
    ensures SoundState(graph, source, target, [Entry([], source)], {}, map[])
    ensures LevelState(graph, source, [Entry([], source)], map[])
  {
    assert Full(Entry([], source)) == [source];
  }

  /**
   * When the target comes off the queue, the entry's path without its
   * source is the answer, and no walk reaches the target in fewer tunnels.
   */
  lemma SearchFound(graph: Graph, source: ValveNode, target: ValveNode, entry: Entry, visitedNodes: set<ValveNode>)
    requires target != source && entry.node == target && EntryOk(graph, source, entry)
    requires ShorterWalksVisited(graph, source, Level(entry), visitedNodes) && target !in visitedNodes
    ensures var path := Full(entry)[1..];
      && path != [] && path[|path| - 1] == target && IsWalk(graph, source, path) && source !in path
      && Reachable(graph, source, target)
      && forall other | IsWalk(graph, source, other) && other != [] && other[|other| - 1] == target :: |path| <= |other|
  {
    var path := Full(entry)[1..];
    assert path[|path| - 1] == target;
    forall other | IsWalk(graph, source, other) && other != [] && other[|other| - 1] == target
      ensures |path| <= |other|
    {
      assert End(source, other) == target;
    }
  }

  /** An empty queue leaves a closed set of visited valves that holds the source and not the target. */
  lemma SearchExhausted(graph: Graph, source: ValveNode, target: ValveNode, visitedNodes: set<ValveNode>, levels: map<ValveNode, nat>)
    requires SoundState(graph, source, target, [], visitedNodes, levels) && Frontier(graph, [], levels)
    ensures !Reachable(graph, source, target)
  {
    ClosedUnreachable(graph, visitedNodes, source, target);
  }

  /**
   * `shortestPathTo`: asking for the source itself throws; otherwise the
   * result is a shortest walk from the source to the target, which never
   * returns to the source, or `null` exactly when the target cannot be
   * reached.
   */
  method ShortestPathTo(graph: Graph, source: ValveNode, target: ValveNode) returns (r: Result<Option<seq<ValveNode>>>)
    ensures r.Err? <==> target == source
    ensures r.Ok? && r.value.Some? ==>
      var path := r.value.value;
      && path != [] && path[|path| - 1] == target && IsWalk(graph, source, path) && source !in path
      && forall other | IsWalk(graph, source, other) && other != [] && other[|other| - 1] == target :: |path| <= |other|
    ensures r.Ok? ==> (r.value.None? <==> !Reachable(graph, source, target))
  {
    if target == source {
      return Err("Target node is current node");
    }
    var queue := [Entry([], source)];
    var visitedNodes: set<ValveNode> := {};
    ghost var levels: map<ValveNode, nat> := map[];
    SearchStart(graph, source, target);
    while queue != []
      invariant SoundState(graph, source, target, queue, visitedNodes, levels)
      invariant LevelState(graph, source, queue, levels)
      decreases |Valves(graph, source) - visitedNodes|, Weight(graph, queue, visitedNodes)
    {
      var entry := queue[0];
      if entry.node == target {
        assert entry in queue;
        SearchFound(graph, source, target, entry, visitedNodes);
        return Ok(Some(Full(entry)[1..]));
      }
      SoundStep(graph, source, target, queue, visitedNodes, levels);
      FrontStep(graph, queue, visitedNodes, levels);
      DepthStep(graph, source, queue, levels, Advance(graph, queue, visitedNodes));
      MeasureStep(graph, source, queue, visitedNodes);
      levels := Record(levels, entry);
      queue := queue[1..];
      visitedNodes := visitedNodes + {entry.node};
      queue := queue + Enqueue(Neighbours(graph, entry.node), visitedNodes, Full(entry));
    }
    SearchExhausted(graph, source, target, visitedNodes, levels);
    r := Ok(None);
  }

  /**
   * The integer part of `calculateMove`: the path to the destination must
   * exist (`!!`), and the move costs one minute per tunnel of a shortest
   * path plus one to open the valve.
   */
  method MoveCost(graph: Graph, source: ValveNode, destination: ValveNode) returns (r: Result<int>)
    ensures r.Ok? <==> source != destination && Reachable(graph, source, destination)
    ensures r.Ok? ==> r.value >= 2 && exists path | IsWalk(graph, source, path) ::
      path != [] && path[|path| - 1] == destination && r.value == |path| + 1
    ensures r.Ok? ==> forall other | IsWalk(graph, source, other) && other != [] && other[|other| - 1] == destination ::
      r.value <= |other| + 1
  {
    var shortestPath := ShortestPathTo(graph, source, destination);
    if shortestPath.Err? {
      return Err(shortestPath.message);
    }
    if shortestPath.value.None? {
      return Err("null dereference");
    }
    var path := shortestPath.value.value;
    var cost := |path| + 1;
    r := Ok(cost);
  }
}

/**
 The breadth-first search of `check-component-boundaries.py` that reports, for each dependency edge out of
 the owner, the shortest cycle through that edge.

 A node's dependencies are given as a list, the sorted enumeration of its dependency set; the results
 hold for any enumeration.
 */
module ComponentCycles {
  import opened Wrappers

  type Node = string
  type Graph = map<Node, seq<Node>>

  function Dependencies(g: Graph, n: Node): seq<Node> {
    if n in g then g[n] else []
  }

  predicate Edge(g: Graph, a: Node, b: Node) {
    b in Dependencies(g, a)
  }

  /** A walk along the edges; a single node is a walk of length zero. */
  predicate Walk(g: Graph, p: seq<Node>) {
    p != [] && forall k {:trigger Step(g, p, k)} :: 1 <= k < |p| ==> Step(g, p, k)
  }

  predicate Step(g: Graph, p: seq<Node>, k: nat) {
    1 <= k < |p| && Edge(g, p[k - 1], p[k])
  }

  predicate WalkFromTo(g: Graph, p: seq<Node>, a: Node, b: Node) {
    Walk(g, p) && p[0] == a && p[|p| - 1] == b
  }

  ghost predicate Reachable(g: Graph, a: Node, b: Node) {
    exists p :: WalkFromTo(g, p, a, b)
  }

  /** A cycle through the owner: owner, the edge's target, ..., owner. */
  predicate CycleVia(g: Graph, owner: Node, start: Node, c: seq<Node>) {
    && |c| >= 2 && c[0] == owner && c[1] == start && c[|c| - 1] == owner
    && Walk(g, c)
  }

  ghost predicate ShortestCycleVia(g: Graph, owner: Node, start: Node, c: seq<Node>) {
    CycleVia(g, owner, start, c) && forall other :: CycleVia(g, owner, start, other) ==> |c| <= |other|
  }

  // ---------- The state of one search ----------

  /** Every node that the graph mentions, and the start. */
  ghost function Nodes(g: Graph, start: Node): set<Node> {
    {start} + g.Keys + set a, k | a in g && 0 <= k < |g[a]| :: g[a][k]
  }

  /** `n` was discovered along an edge from a node one level up. */
  ghost predicate Hangs(g: Graph, previous: map<Node, Option<Node>>, dist: map<Node, nat>, n: Node) {
    && n in previous && previous[n].Some?
    && var up := previous[n].value;
       n in dist && up in dist && dist[n] == dist[up] + 1 && Edge(g, up, n)
  }

  /** `previous` is a tree rooted at `start`; `dist` is the depth at which a node was discovered. */
  ghost predicate Tree(g: Graph, start: Node, previous: map<Node, Option<Node>>, dist: map<Node, nat>) {
    && dist.Keys == previous.Keys
    && start in previous && dist[start] == 0
    && forall n {:trigger Hangs(g, previous, dist, n)} :: n in previous && n != start ==> Hangs(g, previous, dist, n)
  }

  /** All that `n` points to is discovered, no deeper than one level below it. */
  ghost predicate Done(g: Graph, dist: map<Node, nat>, n: Node) {
    n in dist && forall k :: 0 <= k < |Dependencies(g, n)| ==>
      Dependencies(g, n)[k] in dist && dist[Dependencies(g, n)[k]] <= dist[n] + 1
  }

  /** Nodes no longer in the queue are done, except the one being expanded. */
  ghost predicate Finished(g: Graph, queue: seq<Node>, dist: map<Node, nat>, expanding: Option<Node>) {
    forall n {:trigger Done(g, dist, n)} :: n in dist && n !in queue && expanding != Some(n) ==> Done(g, dist, n)
  }

  /** The queue is in order of depth; finished nodes are no deeper than `level`, waiting ones are at `level`
      or one below. */
  ghost predicate Front(queue: seq<Node>, dist: map<Node, nat>, level: nat) {
    && (forall n <- dist :: n in queue || dist[n] <= level)
    && (forall k :: 0 <= k < |queue| ==> queue[k] in dist && level <= dist[queue[k]] <= level + 1)
    && (forall j, k :: 0 <= j < k < |queue| ==> dist[queue[j]] <= dist[queue[k]])
  }

  /** A walk from the start that stays at or above the front's level is discovered, each node no deeper
      than its place in the walk. */
  lemma {:induction false} ShallowWalksAreSeen(g: Graph, start: Node, queue: seq<Node>, dist: map<Node, nat>,
                                               level: nat, p: seq<Node>)
    requires start in dist && dist[start] == 0
    requires Finished(g, queue, dist, None) && Front(queue, dist, level)
    requires Walk(g, p) && p[0] == start && (queue == [] || |p| - 1 <= level)
    ensures p[|p| - 1] in dist && dist[p[|p| - 1]] <= |p| - 1
    decreases |p|
  {
    if |p| > 1 {
      var q := p[..|p| - 1];
      forall k | 1 <= k < |q| ensures Step(g, q, k) {
        assert Step(g, p, k);
      }
      ShallowWalksAreSeen(g, start, queue, dist, level, q);
      assert Step(g, p, |p| - 1);
      assert Done(g, dist, q[|q| - 1]);
    }
  }

  /** What holds between two rounds of the search. */
  ghost predicate Searching(g: Graph, start: Node, previous: map<Node, Option<Node>>, dist: map<Node, nat>,
                            queue: seq<Node>, level: nat) {
    && Tree(g, start, previous, dist)
    && previous.Keys <= Nodes(g, start)
    && Finished(g, queue, dist, None)
    && Front(queue, dist, level)
  }

  /** The breadth-first loop: it stops when the owner is discovered or nothing is left to look at. */
  method Search(g: Graph, owner: Node, start: Node)
    returns (previous: map<Node, Option<Node>>, ghost dist: map<Node, nat>)
    ensures Tree(g, start, previous, dist)
    ensures owner in previous ==> forall p :: WalkFromTo(g, p, start, owner) ==> dist[owner] <= |p| - 1
    ensures owner !in previous ==> !Reachable(g, start, owner)
  {
    previous, dist := map[start := None], map[start := 0];
    var queue := [start];
    ghost var level := 0;
    while queue != [] && owner !in previous
      invariant Searching(g, start, previous, dist, queue, level)
      decreases Nodes(g, start) - previous.Keys, |queue|
    {
      level := dist[queue[0]];
      previous, queue, dist := Expand(g, start, queue, previous, dist);
    }
    SearchIsExact(g, owner, start, previous, dist, queue, level);
  }

  /** When the search stops, it has decided reachability, and its depth is the shortest distance. */
  lemma SearchIsExact(g: Graph, owner: Node, start: Node, previous: map<Node, Option<Node>>, dist: map<Node, nat>,
                      queue: seq<Node>, level: nat)
    requires Searching(g, start, previous, dist, queue, level)
    requires queue == [] || owner in previous
    ensures owner in previous ==> forall p :: WalkFromTo(g, p, start, owner) ==> dist[owner] <= |p| - 1
    ensures owner !in previous ==> !Reachable(g, start, owner)
  {
    if owner in previous {
      forall p | WalkFromTo(g, p, start, owner) ensures dist[owner] <= |p| - 1 {
        if |p| - 1 < dist[owner] {
          ShallowWalksAreSeen(g, start, queue, dist, level, p);
        }
      }
    } else {
      forall p ensures !WalkFromTo(g, p, start, owner) {
        if WalkFromTo(g, p, start, owner) {
          ShallowWalksAreSeen(g, start, queue, dist, level, p);
        }
      }
    }
  }

  /** One round: the first node of the queue is taken, and its new dependencies are discovered and queued. */
  method Expand(g: Graph, ghost start: Node, queue0: seq<Node>, before: map<Node, Option<Node>>,
                ghost dist0: map<Node, nat>)
    returns (previous: map<Node, Option<Node>>, queue: seq<Node>, ghost dist: map<Node, nat>)
    requires queue0 != [] && queue0[0] in dist0 && Searching(g, start, before, dist0, queue0, dist0[queue0[0]])
    ensures Searching(g, start, previous, dist, queue, dist0[queue0[0]])
    ensures Progress(before, previous, queue0, queue)
  {
    var node := queue0[0];
    ghost var level := dist0[node];
    previous, queue, dist := before, queue0[1..], dist0;
    Pop(g, start, queue0, before, dist0);
    var deps := Dependencies(g, node);
    for i := 0 to |deps|
      invariant Expanding(g, start, node, previous, dist, queue, level, i)
      invariant Progress(before, previous, queue0, queue)
    {
      previous, queue, dist := Visit(g, start, node, previous, dist, queue, level, i, before, queue0);
    }
    ExpandDone(g, start, node, previous, dist, queue, level);
  }

  /** One dependency of `node`: discovered and queued, unless it was seen before. */
  method Visit(g: Graph, ghost start: Node, node: Node, seen: map<Node, Option<Node>>, ghost depth: map<Node, nat>,
               waiting: seq<Node>, ghost level: nat, i: nat, ghost before: map<Node, Option<Node>>,
               ghost queue0: seq<Node>)
    returns (previous: map<Node, Option<Node>>, queue: seq<Node>, ghost dist: map<Node, nat>)
    requires Expanding(g, start, node, seen, depth, waiting, level, i) && i < |Dependencies(g, node)|
    requires Progress(before, seen, queue0, waiting)
    ensures Expanding(g, start, node, previous, dist, queue, level, i + 1)
    ensures Progress(before, previous, queue0, queue)
  {
    var m := Dependencies(g, node)[i];
    previous, queue, dist := seen, waiting, depth;
    if m !in seen {
      Discover(g, start, node, seen, depth, waiting, level, i);
      ProgressIsMade(before, seen, queue0, waiting, m, node);
      previous, queue, dist := seen[m := Some(node)], waiting + [m], depth[m := level + 1];
    } else {
      Skip(g, start, node, seen, depth, waiting, level, i);
    }
  }

  /** A node was discovered, or the queue lost its first node and nothing else changed. */
  ghost predicate Progress(before: map<Node, Option<Node>>, previous: map<Node, Option<Node>>, queue0: seq<Node>,
                           queue: seq<Node>) {
    before.Keys < previous.Keys || (before.Keys == previous.Keys && queue0 != [] && queue == queue0[1..])
  }

  lemma ProgressIsMade(before: map<Node, Option<Node>>, previous: map<Node, Option<Node>>, queue0: seq<Node>,
                       queue: seq<Node>, m: Node, node: Node)
    requires Progress(before, previous, queue0, queue) && m !in previous
    ensures Progress(before, previous[m := Some(node)], queue0, queue + [m])
  {
    assert m in previous[m := Some(node)].Keys && m !in before.Keys;
  }

  /** What holds while the dependencies of `node` are visited, `i` of them so far. */
  ghost predicate Expanding(g: Graph, start: Node, node: Node, previous: map<Node, Option<Node>>, dist: map<Node, nat>,
                            queue: seq<Node>, level: nat, i: nat) {
    && Tree(g, start, previous, dist) && previous.Keys <= Nodes(g, start)
    && node in dist && dist[node] == level
    && Finished(g, queue, dist, Some(node)) && Front(queue, dist, level)
    && i <= |Dependencies(g, node)|
    && forall k :: 0 <= k < i ==> Dependencies(g, node)[k] in dist && dist[Dependencies(g, node)[k]] <= level + 1
  }

  /** Taking the first node off the queue leaves it as the one being expanded. */
  lemma Pop(g: Graph, start: Node, queue: seq<Node>, previous: map<Node, Option<Node>>, dist: map<Node, nat>)
    requires queue != [] && queue[0] in dist && Searching(g, start, previous, dist, queue, dist[queue[0]])
    ensures Expanding(g, start, queue[0], previous, dist, queue[1..], dist[queue[0]], 0)
  {
    assert forall n :: n in queue <==> n == queue[0] || n in queue[1..];
  }

  lemma Skip(g: Graph, start: Node, node: Node, previous: map<Node, Option<Node>>, dist: map<Node, nat>,
             queue: seq<Node>, level: nat, i: nat)
    requires Expanding(g, start, node, previous, dist, queue, level, i) && i < |Dependencies(g, node)|
    requires Dependencies(g, node)[i] in dist
    ensures Expanding(g, start, node, previous, dist, queue, level, i + 1)
  {
  }

  lemma ExpandDone(g: Graph, start: Node, node: Node, previous: map<Node, Option<Node>>, dist: map<Node, nat>,
                   queue: seq<Node>, level: nat)
    requires Expanding(g, start, node, previous, dist, queue, level, |Dependencies(g, node)|)
    ensures Searching(g, start, previous, dist, queue, level)
  {
    assert Done(g, dist, node);
  }

  /** Discovering a node below `node` keeps the tree, the finished nodes and the order of the queue. */
  lemma Discover(g: Graph, start: Node, node: Node, previous: map<Node, Option<Node>>, dist: map<Node, nat>,
                 queue: seq<Node>, level: nat, i: nat)
    requires Expanding(g, start, node, previous, dist, queue, level, i) && i < |Dependencies(g, node)|
    requires Dependencies(g, node)[i] !in dist
    ensures var m := Dependencies(g, node)[i];
            Expanding(g, start, node, previous[m := Some(node)], dist[m := level + 1], queue + [m], level, i + 1)
  {
    var m := Dependencies(g, node)[i];
    assert Edge(g, node, m) && m in Nodes(g, start);
    TreeGrows(g, start, node, previous, dist, m);
    FinishedStay(g, node, dist, queue, m, level + 1);
    FrontGrows(queue, dist, m, level);
  }

  lemma TreeGrows(g: Graph, start: Node, node: Node, previous: map<Node, Option<Node>>, dist: map<Node, nat>, m: Node)
    requires Tree(g, start, previous, dist) && node in dist && Edge(g, node, m) && m !in dist
    ensures Tree(g, start, previous[m := Some(node)], dist[m := dist[node] + 1])
  {
    var previous', dist' := previous[m := Some(node)], dist[m := dist[node] + 1];
    forall n | n in previous' && n != start ensures Hangs(g, previous', dist', n) {
      assert n == m || Hangs(g, previous, dist, n);
    }
  }

  lemma FinishedStay(g: Graph, node: Node, dist: map<Node, nat>, queue: seq<Node>, m: Node, d: nat)
    requires Finished(g, queue, dist, Some(node)) && m !in dist
    ensures Finished(g, queue + [m], dist[m := d], Some(node))
  {
    var dist', queue' := dist[m := d], queue + [m];
    forall n | n in dist' && n !in queue' && n != node ensures Done(g, dist', n) {
      assert queue'[|queue|] == m && (n in queue ==> n in queue');
      assert Done(g, dist, n);
    }
  }

  lemma FrontGrows(queue: seq<Node>, dist: map<Node, nat>, m: Node, level: nat)
    requires Front(queue, dist, level) && m !in dist
    ensures Front(queue + [m], dist[m := level + 1], level)
  {
    assert forall n :: n in queue + [m] <==> n in queue || n == m;
  }

  // ---------- The report ----------

  function Reversed(s: seq<Node>): (r: seq<Node>)
    ensures |r| == |s| && forall k :: 0 <= k < |s| ==> r[k] == s[|s| - 1 - k]
  {
    if s == [] then [] else Reversed(s[1..]) + [s[0]]
  }

  lemma ReversedAppend(s: seq<Node>, n: Node)
    ensures Reversed(s + [n]) == [n] + Reversed(s)
  {
    assert |Reversed(s + [n])| == |[n] + Reversed(s)|;
  }

  /** An edge in front of a walk, and a walk without its first edge. */
  lemma WalkFrom(g: Graph, n: Node, p: seq<Node>)
    requires p != []
    ensures Walk(g, [n] + p) <==> Edge(g, n, p[0]) && Walk(g, p)
  {
    var q := [n] + p;
    if Walk(g, q) {
      assert Step(g, q, 1);
      forall k | 1 <= k < |p| ensures Step(g, p, k) {
        assert Step(g, q, k + 1);
      }
    }
    if Edge(g, n, p[0]) && Walk(g, p) {
      forall k | 1 <= k < |q| ensures Step(g, q, k) {
        assert k > 1 ==> Step(g, p, k - 1);
      }
    }
  }

  /** Follow `previous` from the owner back to the start. */
  method PathBack(g: Graph, owner: Node, start: Node, previous: map<Node, Option<Node>>, ghost dist: map<Node, nat>)
    returns (path: seq<Node>)
    requires Tree(g, start, previous, dist) && owner in previous
    ensures |path| == dist[owner] + 1 && path[0] == owner && path[|path| - 1] == start
    ensures Walk(g, Reversed(path))
  {
    path := [owner];
    while path[|path| - 1] != start
      invariant path != [] && path[0] == owner && path[|path| - 1] in previous
      invariant |path| - 1 + dist[path[|path| - 1]] == dist[owner]
      invariant Walk(g, Reversed(path))
      decreases dist[path[|path| - 1]]
    {
      assert Hangs(g, previous, dist, path[|path| - 1]);
      var up := previous[path[|path| - 1]].value;
      ReversedAppend(path, up);
      WalkFrom(g, up, Reversed(path));
      path := path + [up];
    }
  }

  /** The targets of the owner's edges from which the owner can be reached, in order. */
  ghost function Cyclic(g: Graph, owner: Node, starts: seq<Node>): seq<Node> {
    if starts == [] then []
    else Cyclic(g, owner, starts[..|starts| - 1])
         + (if Reachable(g, starts[|starts| - 1], owner) then [starts[|starts| - 1]] else [])
  }

  /** `cycle_errors`: one report per edge of the owner that lies on a cycle, and each report is a shortest
      cycle through its edge. */
  method CycleErrors(g: Graph, owner: Node) returns (cycles: seq<seq<Node>>)
    ensures |cycles| == |Cyclic(g, owner, Dependencies(g, owner))|
    ensures forall k :: 0 <= k < |cycles| ==>
              ShortestCycleVia(g, owner, Cyclic(g, owner, Dependencies(g, owner))[k], cycles[k])
  {
    cycles := [];
    var starts := Dependencies(g, owner);
    for i := 0 to |starts|
      invariant |cycles| == |Cyclic(g, owner, starts[..i])|
      invariant forall k :: 0 <= k < |cycles| ==>
                  ShortestCycleVia(g, owner, Cyclic(g, owner, starts[..i])[k], cycles[k])
    {
      var c := CycleThrough(g, owner, starts[i]);
      assert starts[..i + 1][..i] == starts[..i];
      if c.Some? {
        cycles := cycles + [c.value];
      }
    }
    assert starts[..|starts|] == starts;
  }

  method CycleThrough(g: Graph, owner: Node, start: Node) returns (c: Option<seq<Node>>)
    requires Edge(g, owner, start)
    ensures c.Some? <==> Reachable(g, start, owner)
    ensures c.Some? ==> ShortestCycleVia(g, owner, start, c.value)
  {
    ghost var dist;
    var previous;
    previous, dist := Search(g, owner, start);
    if owner !in previous {
      return None;
    }
    var path := PathBack(g, owner, start, previous, dist);
    ReportIsCycle(g, owner, start, path);
    ReportIsShortest(g, owner, start, dist[owner], [owner] + Reversed(path));
    return Some([owner] + Reversed(path));
  }

  lemma ReportIsCycle(g: Graph, owner: Node, start: Node, path: seq<Node>)
    requires Edge(g, owner, start) && path != [] && path[0] == owner && path[|path| - 1] == start
             && Walk(g, Reversed(path))
    ensures CycleVia(g, owner, start, [owner] + Reversed(path))
  {
    WalkFrom(g, owner, Reversed(path));
  }

  lemma ReportIsShortest(g: Graph, owner: Node, start: Node, d: nat, cycle: seq<Node>)
    requires CycleVia(g, owner, start, cycle) && |cycle| == d + 2
    requires forall p :: WalkFromTo(g, p, start, owner) ==> d <= |p| - 1
    ensures Reachable(g, start, owner) && ShortestCycleVia(g, owner, start, cycle)
  {
    forall other | CycleVia(g, owner, start, other)
      ensures |cycle| <= |other| && WalkFromTo(g, other[1..], start, owner)
    {
      assert other == [owner] + other[1..];
      WalkFrom(g, owner, other[1..]);
    }
  }
}

/** The validator's depth check: a breadth-first search from every root
    (src/validation/scenario_validator.cpp, check_depth_limits).  Nodes may be
    queued several times, at different depths. */
module DepthLimits {
  import opened CycleDetection
  import opened Walks

  ghost predicate HasWalk(edges: set<(string, string)>, u: string, v: string, k: nat)
  {
    exists p: seq<string> :: WalkBetween(edges, p, u, v) && |p| == k + 1
  }

  /** The length of a shortest walk from u to v is d. */
  ghost predicate IsDistance(edges: set<(string, string)>, u: string, v: string, d: nat)
  {
    HasWalk(edges, u, v, d) && forall k: nat :: k < d ==> !HasWalk(edges, u, v, k)
  }

  /** Roots depend on nothing but have dependants. */
  ghost predicate IsRoot(edges: set<(string, string)>, v: string)
  {
    (exists e :: e in edges && e.0 == v) && forall e :: e in edges ==> e.1 != v
  }

  lemma WalkGrows(edges: set<(string, string)>, u: string, v: string, w: string, k: nat)
    requires HasWalk(edges, u, v, k) && (v, w) in edges
    ensures HasWalk(edges, u, w, k + 1)
  {
    var p :| WalkBetween(edges, p, u, v) && |p| == k + 1;
    assert WalkBetween(edges, p + [w], u, w);
  }

  lemma WalkStarts(edges: set<(string, string)>, u: string)
    ensures HasWalk(edges, u, u, 0)
  {
    assert WalkBetween(edges, [u], u, u);
  }

  lemma WalkShrinks(edges: set<(string, string)>, u: string, w: string, k: nat) returns (v: string)
    requires HasWalk(edges, u, w, k) && k > 0
    ensures HasWalk(edges, u, v, k - 1) && (v, w) in edges
  {
    var p :| WalkBetween(edges, p, u, w) && |p| == k + 1;
    v := p[k - 1];
    assert WalkBetween(edges, p[..k], u, v);
  }

  type Queue = seq<(string, nat)>

  /** The search from one root: visited nodes with their depths, and the queue. */
  ghost predicate Searching(edges: set<(string, string)>, root: string, dist: map<string, nat>, queue: Queue)
  {
    && (root in dist || (root, 0) in queue)
    && (forall v :: v in dist ==> IsDistance(edges, root, v, dist[v]))
    && (forall x :: x in queue ==> HasWalk(edges, root, x.0, x.1))
    && (forall i, j :: 0 <= i < j < |queue| ==> queue[i].1 <= queue[j].1 <= queue[i].1 + 1)
    && (forall v, w :: v in dist && (v, w) in edges ==>
         (w in dist && dist[w] <= dist[v] + 1) || (w, dist[v] + 1) in queue)
  }

  /** A node that can be reached in k steps has been visited by depth k, or
      something at most that deep is still queued. */
  lemma {:induction false} Frontier(edges: set<(string, string)>, root: string, dist: map<string, nat>, queue: Queue,
                                    w: string, k: nat)
    requires Searching(edges, root, dist, queue) && HasWalk(edges, root, w, k)
    ensures (w in dist && dist[w] <= k) || exists x :: x in queue && x.1 <= k
    decreases k
  {
    if k == 0 {
      var p :| WalkBetween(edges, p, root, w) && |p| == 1;
      assert w == root;
      if root in dist {
        WalkStarts(edges, root);
      }
    } else {
      var v := WalkShrinks(edges, root, w, k);
      Frontier(edges, root, dist, queue, v, k - 1);
    }
  }

  /** An unvisited node at the front of the queue is as deep as its entry says. */
  lemma FrontIsExact(edges: set<(string, string)>, root: string, dist: map<string, nat>, queue: Queue)
    requires Searching(edges, root, dist, queue) && queue != [] && queue[0].0 !in dist
    ensures IsDistance(edges, root, queue[0].0, queue[0].1)
  {
    hide IsDistance, HasWalk;
    var (x, d) := queue[0];
    forall k: nat | k < d
      ensures !HasWalk(edges, root, x, k)
    {
      if HasWalk(edges, root, x, k) {
        Frontier(edges, root, dist, queue, x, k);
      }
    }
    Exact(edges, root, x, d);
  }

  lemma Exact(edges: set<(string, string)>, u: string, v: string, d: nat)
    requires HasWalk(edges, u, v, d) && forall k: nat :: k < d ==> !HasWalk(edges, u, v, k)
    ensures IsDistance(edges, u, v, d)
  {
  }

  /** When nothing is queued any more, every reachable node has its depth. */
  lemma SearchIsComplete(edges: set<(string, string)>, root: string, dist: map<string, nat>, v: string, d: nat)
    requires Searching(edges, root, dist, []) && IsDistance(edges, root, v, d)
    ensures v in dist && dist[v] == d
  {
    Frontier(edges, root, dist, [], v, d);
  }

  lemma SkipKeepsSearching(edges: set<(string, string)>, root: string, dist: map<string, nat>, queue: Queue)
    requires Searching(edges, root, dist, queue) && queue != [] && queue[0].0 in dist
    ensures Searching(edges, root, dist, queue[1..])
  {
    hide HasWalk, IsDistance;
    var (x, d) := queue[0];
    var rest := queue[1..];
    assert queue == [queue[0]] + rest;
    forall v, w | v in dist && (v, w) in edges
      ensures (w in dist && dist[w] <= dist[v] + 1) || (w, dist[v] + 1) in rest
    {
      if (w, dist[v] + 1) == queue[0] {
        NoShorterWalk(edges, root, x, dist[x], d);
      }
    }
  }

  /** What pushing the unvisited successors of a visited node leaves. */
  ghost predicate Pushed(queue: Queue, nexts: seq<string>, visited: set<string>, depth: nat, pushed: Queue)
  {
    && |pushed| >= |queue| && pushed[..|queue|] == queue
    && (forall i :: |queue| <= i < |pushed| ==> pushed[i].1 == depth + 1 && pushed[i].0 in nexts)
    && (forall w :: w in nexts && w !in visited ==> (w, depth + 1) in pushed)
  }

  /** The queue stays ordered by depth, over at most two levels. */
  lemma PushKeepsOrder(queue: Queue, nexts: seq<string>, visited: set<string>, pushed: Queue)
    requires queue != [] && Pushed(queue[1..], nexts, visited, queue[0].1, pushed)
    requires forall i, j :: 0 <= i < j < |queue| ==> queue[i].1 <= queue[j].1 <= queue[i].1 + 1
    ensures forall i, j :: 0 <= i < j < |pushed| ==> pushed[i].1 <= pushed[j].1 <= pushed[i].1 + 1
  {
    forall i | 0 <= i < |pushed|
      ensures i < |queue| - 1 ==> pushed[i] == queue[i + 1]
      ensures queue[0].1 <= pushed[i].1 <= queue[0].1 + 1
    {
      if i < |queue| - 1 {
        assert pushed[..|queue| - 1][i] == queue[1..][i];
      }
    }
  }

  lemma PushKeepsWalks(edges: set<(string, string)>, root: string, queue: Queue, nexts: seq<string>,
                       visited: set<string>, pushed: Queue)
    requires queue != [] && Pushed(queue[1..], nexts, visited, queue[0].1, pushed)
    requires forall x :: x in queue ==> HasWalk(edges, root, x.0, x.1)
    requires forall w :: w in nexts <==> (queue[0].0, w) in edges
    ensures forall x :: x in pushed ==> HasWalk(edges, root, x.0, x.1)
  {
    hide HasWalk;
    forall i | 0 <= i < |pushed|
      ensures HasWalk(edges, root, pushed[i].0, pushed[i].1)
    {
      if i < |queue| - 1 {
        assert pushed[i] == pushed[..|queue| - 1][i] == queue[1..][i] == queue[i + 1];
      } else {
        WalkGrows(edges, root, queue[0].0, pushed[i].0, queue[0].1);
      }
    }
  }

  lemma NoShorterWalk(edges: set<(string, string)>, root: string, v: string, d: nat, k: nat)
    requires IsDistance(edges, root, v, d) && HasWalk(edges, root, v, k)
    ensures d <= k
  {
  }

  lemma HeadIsLeast(queue: Queue, x: (string, nat))
    requires x in queue && forall i, j :: 0 <= i < j < |queue| ==> queue[i].1 <= queue[j].1 <= queue[i].1 + 1
    ensures queue[0].1 <= x.1
  {
  }

  lemma StaysQueued(queue: Queue, nexts: seq<string>, visited: set<string>, pushed: Queue, x: (string, nat))
    requires queue != [] && Pushed(queue[1..], nexts, visited, queue[0].1, pushed) && x in queue && x != queue[0]
    ensures x in pushed
  {
    assert queue == [queue[0]] + queue[1..];
    assert x in pushed[..|queue| - 1];
  }

  /** The visited node's successors are queued, or no deeper than they should be. */
  lemma NewLink(edges: set<(string, string)>, root: string, dist: map<string, nat>, x: string, d: nat, w: string)
    requires IsDistance(edges, root, x, d) && (w in dist ==> IsDistance(edges, root, w, dist[w])) && (x, w) in edges
    ensures w in dist ==> dist[w] <= d + 1
  {
    hide IsDistance;
    if w in dist {
      DistanceIsWalk(edges, root, x, d);
      WalkGrows(edges, root, x, w, d);
      NoShorterWalk(edges, root, w, dist[w], d + 1);
    }
  }

  lemma DistanceIsWalk(edges: set<(string, string)>, u: string, v: string, d: nat)
    requires IsDistance(edges, u, v, d)
    ensures HasWalk(edges, u, v, d)
  {
  }

  lemma VisitKeepsSearching(edges: set<(string, string)>, root: string, dist: map<string, nat>, queue: Queue,
                            pushed: Queue, nexts: seq<string>)
    requires Searching(edges, root, dist, queue) && queue != [] && queue[0].0 !in dist
    requires forall w :: w in nexts <==> (queue[0].0, w) in edges
    requires Pushed(queue[1..], nexts, dist.Keys + {queue[0].0}, queue[0].1, pushed)
    ensures Searching(edges, root, dist[queue[0].0 := queue[0].1], pushed)
  {
    hide HasWalk, IsDistance, Pushed;
    var after := dist[queue[0].0 := queue[0].1];
    FrontIsExact(edges, root, dist, queue);
    PushKeepsOrder(queue, nexts, dist.Keys + {queue[0].0}, pushed);
    PushKeepsWalks(edges, root, queue, nexts, dist.Keys + {queue[0].0}, pushed);
    RootStays(root, dist, queue, pushed, nexts);
    forall v, w | v in after && (v, w) in edges
      ensures (w in after && after[w] <= after[v] + 1) || (w, after[v] + 1) in pushed
    {
      if v == queue[0].0 {
        NewLink(edges, root, dist, v, queue[0].1, w);
        if w !in after {
          PushedSuccessor(queue, nexts, dist.Keys + {queue[0].0}, pushed, w);
        }
      } else if w == queue[0].0 {
        HeadIsLeast(queue, (w, dist[v] + 1));
      } else if (w, dist[v] + 1) in queue {
        StaysQueued(queue, nexts, dist.Keys + {queue[0].0}, pushed, (w, dist[v] + 1));
      }
    }
  }

  lemma PushedSuccessor(queue: Queue, nexts: seq<string>, visited: set<string>, pushed: Queue, w: string)
    requires queue != [] && Pushed(queue[1..], nexts, visited, queue[0].1, pushed) && w in nexts && w !in visited
    ensures (w, queue[0].1 + 1) in pushed
  {
  }

  lemma RootStays(root: string, dist: map<string, nat>, queue: Queue, pushed: Queue, nexts: seq<string>)
    requires queue != [] && (root in dist || (root, 0) in queue)
    requires Pushed(queue[1..], nexts, dist.Keys + {queue[0].0}, queue[0].1, pushed)
    ensures root in dist || root == queue[0].0 || (root, 0) in pushed
  {
    assert queue == [queue[0]] + queue[1..] && forall y :: y in queue[1..] ==> y in pushed[..|queue| - 1];
  }

  class DepthCheck {
    var adjacency: map<string, seq<string>>
    var variables: set<string>
    var targets: set<string>

    constructor ()
      ensures adjacency == map[] && variables == {} && targets == {}
    {
      adjacency, variables, targets := map[], {}, {};
    }

    ghost function Edges(): set<(string, string)>
      reads this
    {
      set u, v | u in adjacency && v in adjacency[u] :: (u, v)
    }

    ghost predicate Built()
      reads this
    {
      && (forall e :: e in Edges() ==> e.0 in variables && e.1 in variables && e.1 in targets)
      && (forall v :: v in variables ==> exists e :: e in Edges() && (e.0 == v || e.1 == v))
      && (forall v :: v in targets ==> exists e :: e in Edges() && e.1 == v)
    }

    method AddEdge(e: DependencyEdge)
      modifies `adjacency
      ensures Edges() == old(Edges()) + {(e.source, e.target)}
    {
      adjacency := adjacency[e.source := (if e.source in adjacency then adjacency[e.source] else []) + [e.target]];
    }

    method Build(edges: seq<DependencyEdge>)
      requires adjacency == map[] && variables == {} && targets == {}
      modifies this
      ensures Edges() == EdgeSet(edges) && Built()
    {
      hide Sources, Targets, EdgeSet;
      NoEdges();
      for i := 0 to |edges|
        invariant Edges() == EdgeSet(edges[..i])
        invariant variables == Sources(edges[..i]) + Targets(edges[..i]) && targets == Targets(edges[..i])
      {
        var e := edges[i];
        OneMoreEdge(edges, i);
        AddEdge(e);
        variables := variables + {e.source, e.target};
        targets := targets + {e.target};
      }
      assert edges[..|edges|] == edges;
      EndpointsAreVariables(edges);
    }

    lemma EndpointsAreVariables(edges: seq<DependencyEdge>)
      requires Edges() == EdgeSet(edges)
      requires variables == Sources(edges) + Targets(edges) && targets == Targets(edges)
      ensures Built()
    {
      forall v | v in variables
        ensures exists e :: e in EdgeSet(edges) && (e.0 == v || e.1 == v)
      {
        var e :| e in edges && (e.source == v || e.target == v);
        assert (e.source, e.target) in EdgeSet(edges);
      }
      forall v | v in targets
        ensures exists e :: e in EdgeSet(edges) && e.1 == v
      {
        var e :| e in edges && e.target == v;
        assert (e.source, e.target) in EdgeSet(edges);
      }
    }

    /** Searches from one root: the result is the greater of the given depth and
        the greatest distance from the root. */
    method SearchFrom(root: string, sofar: nat) returns (maxDepth: nat)
      requires Built() && root in variables
      ensures maxDepth >= sofar && forall v, d: nat :: IsDistance(Edges(), root, v, d) ==> d <= maxDepth
      ensures maxDepth == sofar || exists v :: IsDistance(Edges(), root, v, maxDepth)
    {
      hide IsDistance, HasWalk, Built, Pushed, Searching;
      ghost var edges := Edges();
      var queue: Queue := [(root, 0)];
      var visited: set<string> := {};
      maxDepth := sofar;
      ghost var dist: map<string, nat> := map[];
      SearchStarts(edges, root);
      while queue != []
        invariant Searching(edges, root, dist, queue) && visited == dist.Keys && visited <= variables
        invariant forall x :: x in queue ==> x.0 in variables
        invariant maxDepth >= sofar && forall v :: v in dist ==> dist[v] <= maxDepth
        invariant maxDepth == sofar || exists v :: v in dist && dist[v] == maxDepth
        decreases variables - visited, |queue|
      {
        var current, depth := queue[0].0, queue[0].1;
        if current in visited {
          SkipKeepsSearching(edges, root, dist, queue);
          queue := queue[1..];
          continue;
        }
        FrontIsExact(edges, root, dist, queue);
        assert current in variables && current !in visited;
        ghost var before, known := queue, dist;
        queue := queue[1..];
        visited := visited + {current};
        dist := dist[current := depth];
        if maxDepth < depth {
          maxDepth := depth;
        }
        var nexts := if current in adjacency then adjacency[current] else [];
        TargetsAreVariables(current, nexts);
        var pushed := Push(queue, nexts, visited, depth);
        VisitKeepsSearching(edges, root, known, before, pushed, nexts);
        PushedAreVariables(queue, nexts, visited, depth, pushed);
        queue := pushed;
      }
      Measured(Edges(), root, dist, sofar, maxDepth);
    }

    lemma PushedAreVariables(queue: Queue, nexts: seq<string>, visited: set<string>, depth: nat, pushed: Queue)
      requires Pushed(queue, nexts, visited, depth, pushed)
      requires (forall x :: x in queue ==> x.0 in variables) && forall w :: w in nexts ==> w in variables
      ensures forall x :: x in pushed ==> x.0 in variables
    {
      forall i | 0 <= i < |pushed|
        ensures pushed[i].0 in variables
      {
        if i < |queue| {
          assert pushed[i] == pushed[..|queue|][i] == queue[i];
        }
      }
    }

    static lemma SearchStarts(edges: set<(string, string)>, root: string)
      ensures Searching(edges, root, map[], [(root, 0)])
    {
      WalkStarts(edges, root);
    }

    lemma TargetsAreVariables(u: string, nexts: seq<string>)
      requires Built() && nexts == if u in adjacency then adjacency[u] else []
      ensures forall w :: w in nexts ==> w in variables
      ensures forall w :: w in nexts <==> (u, w) in Edges()
    {
      forall w | w in nexts
        ensures w in variables
      {
        assert (u, w) in Edges();
      }
    }

    /** The reported depth is the largest distance from any root to a node it
        reaches; zero if there is no root. */
    method CheckDepthLimits(edges: seq<DependencyEdge>) returns (maxDepth: nat, warn: bool)
      requires adjacency == map[] && variables == {} && targets == {}
      modifies this
      ensures forall r, v, d: nat :: IsRoot(EdgeSet(edges), r) && IsDistance(EdgeSet(edges), r, v, d) ==> d <= maxDepth
      ensures maxDepth > 0 ==> exists r, v :: IsRoot(EdgeSet(edges), r) && IsDistance(EdgeSet(edges), r, v, maxDepth)
      ensures warn <==> maxDepth > 20
    {
      hide IsDistance, Searching, Built, IsRoot;
      Build(edges);
      ghost var graph := EdgeSet(edges);
      var roots := variables - targets;
      RootsAreRoots(roots);
      maxDepth := 0;
      ghost var seen: set<string> := {};
      while roots != {}
        invariant Edges() == graph && Built() && roots !! seen
                  && (forall r :: r in roots || r in seen <==> IsRoot(graph, r))
        invariant roots <= variables
        invariant forall r, v, d: nat :: r in seen && IsDistance(graph, r, v, d) ==> d <= maxDepth
        invariant maxDepth > 0 ==> exists r, v :: r in seen && IsDistance(graph, r, v, maxDepth)
        decreases roots
      {
        var root :| root in roots;
        maxDepth := SearchFrom(root, maxDepth);
        roots := roots - {root};
        seen := seen + {root};
      }
      warn := maxDepth > 20;
    }

    lemma RootsAreRoots(roots: set<string>)
      requires Built() && roots == variables - targets
      ensures forall r :: r in roots <==> IsRoot(Edges(), r)
    {
    }
  }

  lemma Measured(edges: set<(string, string)>, root: string, dist: map<string, nat>, sofar: nat, maxDepth: nat)
    requires Searching(edges, root, dist, [])
    requires maxDepth >= sofar && forall v :: v in dist ==> dist[v] <= maxDepth
    requires maxDepth == sofar || exists v :: v in dist && dist[v] == maxDepth
    ensures forall v, d: nat :: IsDistance(edges, root, v, d) ==> d <= maxDepth
    ensures maxDepth == sofar || exists v :: IsDistance(edges, root, v, maxDepth)
  {
    hide IsDistance;
    forall v, d: nat | IsDistance(edges, root, v, d)
      ensures d <= maxDepth
    {
      SearchIsComplete(edges, root, dist, v, d);
    }
  }

  /** Queues the successors that have not been visited, one step deeper. */
  method Push(queue: Queue, nexts: seq<string>, visited: set<string>, depth: nat) returns (pushed: Queue)
    ensures Pushed(queue, nexts, visited, depth, pushed)
  {
    pushed := queue;
    for i := 0 to |nexts|
      invariant |pushed| >= |queue| && pushed[..|queue|] == queue
      invariant forall j :: |queue| <= j < |pushed| ==> pushed[j].1 == depth + 1 && pushed[j].0 in nexts
      invariant forall j :: 0 <= j < i && nexts[j] !in visited ==> (nexts[j], depth + 1) in pushed
    {
      if nexts[i] !in visited {
        pushed := pushed + [(nexts[i], depth + 1)];
      }
    }
  }
}

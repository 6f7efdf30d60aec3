/** The validator's three-colour depth-first search for dependency cycles
    (src/validation/scenario_validator.cpp). */
module CycleDetection {
  import opened Walks

  datatype DependencyEdge = DependencyEdge(source: string, target: string, functionId: string, weight: real)

  ghost function EdgeSet(edges: seq<DependencyEdge>): set<(string, string)>
  {
    set e | e in edges :: (e.source, e.target)
  }

  ghost function Sources(edges: seq<DependencyEdge>): set<string>
  {
    set e | e in edges :: e.source
  }

  ghost function Targets(edges: seq<DependencyEdge>): set<string>
  {
    set e | e in edges :: e.target
  }

  lemma OneMoreEdge(edges: seq<DependencyEdge>, i: nat)
    requires i < |edges|
    ensures Sources(edges[..i + 1]) == Sources(edges[..i]) + {edges[i].source}
    ensures Targets(edges[..i + 1]) == Targets(edges[..i]) + {edges[i].target}
    ensures EdgeSet(edges[..i + 1]) == EdgeSet(edges[..i]) + {(edges[i].source, edges[i].target)}
  {
    assert edges[..i + 1] == edges[..i] + [edges[i]];
  }

  lemma NoEdges()
    ensures Sources([]) == {} && Targets([]) == {} && EdgeSet([]) == {}
  {
  }

  /** No closed walk starts inside the given set of nodes. */
  ghost predicate AcyclicOn(edges: set<(string, string)>, nodes: set<string>)
  {
    forall v :: v in nodes ==> !ReachesPlus(edges, v, v)
  }

  ghost predicate ClosedUnder(edges: set<(string, string)>, nodes: set<string>)
  {
    forall e :: e in edges && e.0 in nodes ==> e.1 in nodes
  }

  /** Finishing a node whose successors are all finished keeps the finished
      part closed and free of cycles. */
  lemma FinishKeepsAcyclic(edges: set<(string, string)>, black: set<string>, node: string)
    requires ClosedUnder(edges, black) && AcyclicOn(edges, black)
    requires node !in black
    requires forall e :: e in edges && e.0 == node ==> e.1 in black
    ensures ClosedUnder(edges, black + {node}) && AcyclicOn(edges, black + {node})
  {
    if ReachesPlus(edges, node, node) {
      var p :| WalkBetween(edges, p, node, node) && |p| > 1;
      assert (p[0], p[1]) in edges;
      assert WalkBetween(edges, p[1..], p[1], node);
      ReachStaysInside(edges, black, p[1], node);
    }
  }

  lemma CycleStartsWithEdge(edges: set<(string, string)>, v: string) returns (w: string)
    requires ReachesPlus(edges, v, v)
    ensures (v, w) in edges
  {
    var p :| WalkBetween(edges, p, v, v) && |p| > 1;
    w := p[1];
  }

  lemma NoCycleAnywhere(edges: set<(string, string)>, nodes: set<string>)
    requires forall e :: e in edges ==> e.0 in nodes
    requires AcyclicOn(edges, nodes)
    ensures !Cyclic(edges)
  {
    forall v: string | ReachesPlus(edges, v, v)
      ensures exists w :: (v, w) in edges
    {
      var w := CycleStartsWithEdge(edges, v);
    }
  }

  class CycleSearch {
    var adjacency: map<string, seq<string>>
    var white: set<string>
    var gray: set<string>
    var black: set<string>

    constructor ()
      ensures white == gray == black == {} && Edges() == {}
    {
      adjacency, white, gray, black := map[], {}, {}, {};
    }

    ghost function Edges(): set<(string, string)>
      reads this
    {
      set u, v | u in adjacency && v in adjacency[u] :: (u, v)
    }

    /** What holds whenever the search is between two steps. */
    ghost predicate Searching()
      reads this
    {
      && white !! gray !! black
      && (forall e :: e in Edges() ==> e.1 in white + gray + black)
      && ClosedUnder(Edges(), black)
      && AcyclicOn(Edges(), black)
    }

    method AddEdge(e: DependencyEdge)
      modifies `adjacency
      ensures Edges() == old(Edges()) + {(e.source, e.target)}
    {
      var targets := if e.source in adjacency then adjacency[e.source] else [];
      adjacency := adjacency[e.source := targets + [e.target]];
    }

    method BuildAdjacency(edges: seq<DependencyEdge>)
      modifies this
      ensures Edges() == EdgeSet(edges)
      ensures white == Sources(edges) + Targets(edges)
      ensures gray == {} && black == {}
    {
      hide Sources, Targets, EdgeSet;
      adjacency, white, gray, black := map[], {}, {}, {};
      NoEdges();
      for i := 0 to |edges|
        invariant Edges() == EdgeSet(edges[..i])
        invariant white == Sources(edges[..i]) + Targets(edges[..i])
        invariant gray == {} && black == {}
      {
        var e := edges[i];
        OneMoreEdge(edges, i);
        AddEdge(e);
        white := white + {e.source, e.target};
      }
      assert edges[..|edges|] == edges;
    }

    method DfsVisit(node: string) returns (found: bool)
      requires Searching() && node in white
      requires forall g :: g in gray ==> Reaches(Edges(), g, node)
      modifies `white, `gray, `black
      decreases white
      ensures found ==> Cyclic(Edges())
      ensures !found ==> Searching() && gray == old(gray) && node in black
      ensures !found ==> white < old(white) && old(black) <= black
      ensures !found ==> white + gray + black == old(white + gray + black)
    {
      white := white - {node};
      gray := gray + {node};
      ReachesSelf(Edges(), node);
      var neighbours := if node in adjacency then adjacency[node] else [];
      for i := 0 to |neighbours|
        invariant Searching() && gray == old(gray) + {node} && white < old(white)
        invariant old(black) <= black
        invariant white + gray + black == old(white + gray + black)
        invariant forall j :: 0 <= j < i ==> neighbours[j] in black
      {
        var neighbour := neighbours[i];
        EdgeReaches(Edges(), node, neighbour);
        if neighbour in gray {
          ReachesTransitive(Edges(), neighbour, node, neighbour);
          return true;
        }
        if neighbour in white {
          forall g | g in gray
            ensures Reaches(Edges(), g, neighbour)
          {
            ReachesTransitive(Edges(), g, node, neighbour);
          }
          var deeper := DfsVisit(neighbour);
          if deeper {
            return true;
          }
        }
      }
      FinishKeepsAcyclic(Edges(), black, node);
      gray := gray - {node};
      black := black + {node};
      found := false;
    }

    /** A cycle is reported exactly when the dependency edges contain one. */
    method DetectCycle(edges: seq<DependencyEdge>) returns (found: bool)
      modifies this
      ensures found <==> Cyclic(EdgeSet(edges))
    {
      BuildAdjacency(edges);
      while white != {}
        invariant Edges() == EdgeSet(edges)
        invariant Searching() && gray == {}
        invariant white + black == Sources(edges) + Targets(edges)
        decreases white
      {
        var start :| start in white;
        var cyclic := DfsVisit(start);
        if cyclic {
          return true;
        }
      }
      NoCycleAnywhere(Edges(), black);
      found := false;
    }
  }
}

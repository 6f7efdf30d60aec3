/** The v1 dependency engine: push invalidation and lazy pull recomputation
    (src/engine/simulation_engine.cpp). */
module DependencyEngine {
  import opened Walks
  import opened Optional
  import opened StringOrder
  import opened VariableStore

  type PropagationFunction = (real, real, real) -> real

  datatype AdjacencyEntry = AdjacencyEntry(target: string, functionId: string, weight: real)
  datatype ReverseEntry = ReverseEntry(source: string, functionId: string, weight: real)

  datatype PullResult = Done(recomputed: bool) | CycleDetected(at: string) | MissingFunction(id: string)

  datatype Graph = Graph(adjacency: map<string, seq<AdjacencyEntry>>,
                         reverse: map<string, seq<ReverseEntry>>,
                         functions: map<string, PropagationFunction>)

  function Outgoing(g: Graph, v: string): seq<AdjacencyEntry>
  {
    if v in g.adjacency then g.adjacency[v] else []
  }

  function Incoming(g: Graph, v: string): seq<ReverseEntry>
  {
    if v in g.reverse then g.reverse[v] else []
  }

  ghost function Pairs(g: Graph): set<(string, string)>
  {
    set u, e | u in g.adjacency && e in g.adjacency[u] :: (u, e.target)
  }

  /** Every forward edge has its reverse entry and the other way round. */
  ghost predicate Mirrored(g: Graph)
  {
    forall u, v :: (u, v) in Pairs(g) <==> exists e :: e in Incoming(g, v) && e.source == u
  }

  ghost predicate AllRegistered(g: Graph)
  {
    forall v, e :: v in g.reverse && e in g.reverse[v] ==> e.functionId in g.functions
  }

  /** Stale sets that contain everything downstream of their members. */
  ghost predicate DownstreamClosed(g: Graph, stale: set<string>)
  {
    forall e :: e in Pairs(g) && e.0 in stale ==> e.1 in stale
  }

  // ---------------------------------------------------------------- folding

  /** The left fold of incoming edges over the target's old number.  (A pull
      that meets an unregistered function fails instead, see Recompute.) */
  function Fold(g: Graph, entries: seq<ReverseEntry>, start: real, values: Values): real
  {
    if entries == [] then start
    else
      var last := entries[|entries| - 1];
      var soFar := Fold(g, entries[..|entries| - 1], start, values);
      if last.functionId in g.functions
      then g.functions[last.functionId](soFar, NumericValue(values, last.source), last.weight)
      else soFar
  }

  lemma {:induction false} FoldSame(g: Graph, entries: seq<ReverseEntry>, start: real, a: Values, b: Values)
    requires forall e :: e in entries ==> NumericValue(a, e.source) == NumericValue(b, e.source)
    ensures Fold(g, entries, start, a) == Fold(g, entries, start, b)
  {
    if entries != [] {
      assert entries[|entries| - 1] in entries;
      FoldSame(g, entries[..|entries| - 1], start, a, b);
    }
  }

  /** The value a stale variable must end up with: the fold of its incoming
      edges over its old number and its sources' final numbers. */
  function Refreshed(g: Graph, v: string, before: Values, after: Values): Scalar
    requires v in before
  {
    if Incoming(g, v) == [] then before[v]
    else Coerce(before[v], Fold(g, Incoming(g, v), NumericValue(before, v), after))
  }

  // --------------------------------------------------------------- progress

  /** A picture of the simulation state as the engine sees it; `applied` counts
      how often the k-th incoming edge of a variable has been applied. */
  datatype View = View(values: Values, stale: set<string>, applied: multiset<(string, int)>)

  ghost predicate IsEdge(g: Graph, e: (string, int))
  {
    0 <= e.1 < |Incoming(g, e.0)|
  }

  /** Some stale variables have been brought up to date: their sources are
      clean, they hold the refreshed value, each of their incoming edges has
      been applied once more, and nothing else changed. */
  ghost predicate Progress(g: Graph, a: View, b: View)
  {
    && b.stale <= a.stale
    && b.values.Keys == a.values.Keys
    && (forall v :: v in a.values && v !in a.stale - b.stale ==> b.values[v] == a.values[v])
    && (forall v, e :: v in a.stale - b.stale && e in Incoming(g, v) ==> e.source !in b.stale)
    && (forall v :: v in a.stale - b.stale && v in a.values ==> b.values[v] == Refreshed(g, v, a.values, b.values))
    && (forall e :: b.applied[e] == a.applied[e] + if e.0 in a.stale - b.stale && IsEdge(g, e) then 1 else 0)
  }

  lemma ProgressTransitive(g: Graph, a: View, b: View, c: View)
    requires Progress(g, a, b) && Progress(g, b, c)
    ensures Progress(g, a, c)
  {
    forall v | v in a.stale - c.stale && v in a.values
      ensures c.values[v] == Refreshed(g, v, a.values, c.values)
    {
      if v in b.stale {
        assert b.values[v] == a.values[v];
      } else if Incoming(g, v) != [] {
        forall e | e in Incoming(g, v)
          ensures NumericValue(b.values, e.source) == NumericValue(c.values, e.source)
        {
          assert e.source !in b.stale;
        }
        FoldSame(g, Incoming(g, v), NumericValue(a.values, v), b.values, c.values);
      }
    }
  }

  /** Bringing one variable up to date after all its sources is progress. */
  lemma RefreshOne(g: Graph, v: string, a: View, b: View)
    requires v in a.stale
    requires forall e :: e in Incoming(g, v) ==> e.source !in a.stale
    requires b.stale == a.stale - {v}
    requires b.values == if Incoming(g, v) == [] then a.values
                         else SetNumeric(a.values, v, Fold(g, Incoming(g, v), NumericValue(a.values, v), a.values))
    requires forall e :: b.applied[e] == a.applied[e] + if e.0 == v && IsEdge(g, e) then 1 else 0
    ensures Progress(g, a, b)
  {
    FoldSame(g, Incoming(g, v), NumericValue(a.values, v), a.values, b.values);
  }

  /** When nothing is stale any more: every variable that was stale holds the
      fold of its edges over its sources' final values, every clean variable
      is untouched. */
  ghost predicate Settled(g: Graph, before: View, after: Values)
  {
    && after.Keys == before.values.Keys
    && forall v :: v in after ==>
         after[v] == if v in before.stale then Refreshed(g, v, before.values, after) else before.values[v]
  }

  lemma ProgressSettles(g: Graph, a: View, b: View)
    requires Progress(g, a, b) && b.stale == {}
    ensures Settled(g, a, b.values)
    ensures forall e :: b.applied[e] == a.applied[e] + if e.0 in a.stale && IsEdge(g, e) then 1 else 0
  {
  }

  lemma {:induction false} SettledAgreesAt(g: Graph, before: View, x: Values, y: Values, v: string)
    requires Mirrored(g) && !Cyclic(Pairs(g))
    requires Settled(g, before, x) && Settled(g, before, y)
    ensures NumericValue(x, v) == NumericValue(y, v)
    ensures v in x ==> x[v] == y[v]
    decreases |Above(Pairs(g), v)|
  {
    if v in x && v in before.stale {
      forall e | e in Incoming(g, v)
        ensures NumericValue(x, e.source) == NumericValue(y, e.source)
      {
        AboveShrinks(Pairs(g), e.source, v);
        SettledAgreesAt(g, before, x, y, e.source);
      }
      FoldSame(g, Incoming(g, v), NumericValue(before.values, v), x, y);
    }
  }

  /** On an acyclic graph there is at most one settled state, so the order in
      which variables are pulled cannot matter. */
  lemma SettledIsUnique(g: Graph, before: View, x: Values, y: Values)
    requires Mirrored(g) && !Cyclic(Pairs(g))
    requires Settled(g, before, x) && Settled(g, before, y)
    ensures x == y
  {
    forall v | v in x
      ensures x[v] == y[v]
    {
      SettledAgreesAt(g, before, x, y, v);
    }
  }

  // ------------------------------------------------ which variables are pulled

  lemma {:induction false} UpstreamIsCleared(g: Graph, a: View, b: View, p: seq<string>)
    requires Mirrored(g) && Progress(g, a, b)
    requires DownstreamClosed(g, a.stale)
    requires IsWalk(Pairs(g), p) && p[0] in a.stale && p[|p| - 1] !in b.stale
    ensures p[0] !in b.stale
  {
    if |p| > 1 {
      assert (p[0], p[1]) in Pairs(g);
      UpstreamIsCleared(g, a, b, p[1..]);
      var e :| e in Incoming(g, p[1]) && e.source == p[0];
    }
  }

  /** Pulling one variable clears exactly its stale ancestors and itself. */
  lemma PullClearsExactly(g: Graph, a: View, b: View, target: string)
    requires Mirrored(g) && Progress(g, a, b)
    requires DownstreamClosed(g, a.stale) && target !in b.stale
    requires forall u :: u in a.stale - b.stale ==> Reaches(Pairs(g), u, target)
    ensures b.stale == set u | u in a.stale && !Reaches(Pairs(g), u, target)
  {
    forall u | u in a.stale && Reaches(Pairs(g), u, target)
      ensures u !in b.stale
    {
      var p :| WalkBetween(Pairs(g), p, u, target);
      UpstreamIsCleared(g, a, b, p);
    }
  }

  lemma ProgressKeepsClosed(g: Graph, a: View, b: View)
    requires Mirrored(g) && Progress(g, a, b)
    requires DownstreamClosed(g, a.stale)
    ensures DownstreamClosed(g, b.stale)
  {
    forall e | e in Pairs(g) && e.0 in b.stale
      ensures e.1 in b.stale
    {
      assert (e.0, e.1) in Pairs(g);
      var r :| r in Incoming(g, e.1) && r.source == e.0;
    }
  }

  // ------------------------------------------------------- eager evaluation

  /** Plain evaluation: one pass over the variables in a given order. */
  function EagerPass(g: Graph, order: seq<string>, stale: set<string>, values: Values): Values
    decreases |order|
  {
    if order == [] then values
    else
      var v := order[0];
      var next := if v in stale && Incoming(g, v) != []
                  then SetNumeric(values, v, Fold(g, Incoming(g, v), NumericValue(values, v), values))
                  else values;
      EagerPass(g, order[1..], stale, next)
  }

  /** No variable occurs twice, and sources come before their targets. */
  ghost predicate Topological(g: Graph, order: seq<string>)
  {
    && (forall i, j :: 0 <= i < j < |order| ==> order[i] != order[j])
    && (forall i, j :: 0 <= i <= j < |order| ==> (order[j], order[i]) !in Pairs(g))
  }

  lemma {:induction false} EagerProgress(g: Graph, order: seq<string>, a: View) returns (b: View)
    requires Mirrored(g) && Topological(g, order)
    requires forall v :: v in a.stale ==> v in order
    ensures Progress(g, a, b) && b.stale == {}
    ensures b.values == EagerPass(g, order, a.stale, a.values)
    decreases |order|
  {
    if order == [] {
      return a;
    }
    var v := order[0];
    var mid := a;
    if v in a.stale {
      var values := if Incoming(g, v) == [] then a.values
                    else SetNumeric(a.values, v, Fold(g, Incoming(g, v), NumericValue(a.values, v), a.values));
      var hits := multiset(set k | 0 <= k < |Incoming(g, v)| :: (v, k));
      mid := View(values, a.stale - {v}, a.applied + hits);
      forall e | e in Incoming(g, v)
        ensures e.source !in a.stale
      {
        assert (e.source, v) in Pairs(g);
      }
      RefreshOne(g, v, a, mid);
    }
    forall i, j | 0 <= i <= j < |order[1..]|
      ensures (order[1..][j], order[1..][i]) !in Pairs(g)
    {
      assert order[1..][i] == order[i + 1] && order[1..][j] == order[j + 1];
    }
    b := EagerProgress(g, order[1..], mid);
    ProgressTransitive(g, a, mid, b);
    EagerPassIgnoresAbsent(g, order[1..], a.stale, mid.stale, mid.values);
  }

  lemma {:induction false} EagerPassIgnoresAbsent(g: Graph, order: seq<string>, s: set<string>, t: set<string>,
                                                  values: Values)
    requires forall v :: v in order ==> (v in s <==> v in t)
    ensures EagerPass(g, order, s, values) == EagerPass(g, order, t, values)
    decreases |order|
  {
    if order != [] {
      var v := order[0];
      var next := if v in s && Incoming(g, v) != []
                  then SetNumeric(values, v, Fold(g, Incoming(g, v), NumericValue(values, v), values))
                  else values;
      EagerPassIgnoresAbsent(g, order[1..], s, t, next);
    }
  }

  /** Lazy equals eager: whatever order the variables were pulled in, the
      settled state is the one computed by a topological pass. */
  lemma LazyEqualsEager(g: Graph, order: seq<string>, before: View, after: Values)
    requires Mirrored(g) && !Cyclic(Pairs(g)) && Topological(g, order)
    requires forall v :: v in before.stale ==> v in order
    requires Settled(g, before, after)
    ensures after == EagerPass(g, order, before.stale, before.values)
  {
    var b := EagerProgress(g, order, before);
    ProgressSettles(g, before, b);
    SettledIsUnique(g, before, after, b.values);
  }

  /** Every acyclic graph has a topological order of any finite set of nodes. */
  lemma {:induction false} TopologicalOrderExists(g: Graph, nodes: set<string>) returns (order: seq<string>)
    requires !Cyclic(Pairs(g))
    ensures Topological(g, order) && forall v :: v in order <==> v in nodes
    decreases |nodes|
  {
    if nodes == {} {
      return [];
    }
    var v := LastNode(g, nodes);
    var rest := TopologicalOrderExists(g, nodes - {v});
    order := rest + [v];
    forall i, j | 0 <= i <= j < |order|
      ensures (order[j], order[i]) !in Pairs(g)
    {
      if i < |rest| {
        assert order[i] in rest;
      }
      if j == |rest| {
        assert order[j] == v && order[i] in nodes;
      }
    }
  }

  /** Some node of a finite set has no edge into the set. */
  lemma {:induction false} LastNode(g: Graph, nodes: set<string>) returns (v: string)
    requires !Cyclic(Pairs(g)) && nodes != {}
    ensures v in nodes && forall w :: w in nodes ==> (v, w) !in Pairs(g)
    ensures forall w :: w in nodes ==> |Above(Pairs(g), w)| <= |Above(Pairs(g), v)|
    decreases |nodes|
  {
    v :| v in nodes;
    if nodes != {v} {
      var other := LastNode(g, nodes - {v});
      if |Above(Pairs(g), v)| < |Above(Pairs(g), other)| {
        v := other;
      }
    }
    forall w | w in nodes
      ensures (v, w) !in Pairs(g)
    {
      if (v, w) in Pairs(g) {
        AboveShrinks(Pairs(g), v, w);
      }
    }
  }

  // ----------------------------------------------------- reverse adjacency

  /** The reverse entries one source contributes to a target. */
  function EntriesTo(source: string, entries: seq<AdjacencyEntry>, target: string): seq<ReverseEntry>
  {
    if entries == [] then []
    else
      var last := entries[|entries| - 1];
      EntriesTo(source, entries[..|entries| - 1], target) +
      if last.target == target then [ReverseEntry(source, last.functionId, last.weight)] else []
  }

  /** The incoming edges of a target, source by source in the given order. */
  function IncomingInOrder(adjacency: map<string, seq<AdjacencyEntry>>, sources: seq<string>,
                           target: string): seq<ReverseEntry>
    requires forall u :: u in sources ==> u in adjacency
  {
    if sources == [] then []
    else
      var last := sources[|sources| - 1];
      IncomingInOrder(adjacency, sources[..|sources| - 1], target) + EntriesTo(last, adjacency[last], target)
  }

  lemma EntriesToNone(source: string, g: Graph)
    ensures forall v :: Incoming(g, v) == Incoming(g, v) + EntriesTo(source, [], v)
  {
  }

  lemma EntriesToStep(source: string, entries: seq<AdjacencyEntry>, j: nat, target: string, known: seq<ReverseEntry>)
    requires j < |entries|
    ensures var last := entries[j];
            known + EntriesTo(source, entries[..j + 1], target) ==
            known + EntriesTo(source, entries[..j], target) +
            if last.target == target then [ReverseEntry(source, last.functionId, last.weight)] else []
  {
    assert entries[..j + 1][..j] == entries[..j];
  }

  lemma {:induction false} EntriesToCount(source: string, entries: seq<AdjacencyEntry>, target: string, e: ReverseEntry)
    ensures multiset(EntriesTo(source, entries, target))[e]
         == if e.source == source then multiset(entries)[AdjacencyEntry(target, e.functionId, e.weight)] else 0
  {
    if entries != [] {
      var init, last := entries[..|entries| - 1], entries[|entries| - 1];
      assert entries == init + [last];
      EntriesToCount(source, init, target, e);
    }
  }

  lemma {:induction false} IncomingInOrderCount(adjacency: map<string, seq<AdjacencyEntry>>, sources: seq<string>,
                                                target: string, e: ReverseEntry)
    requires forall u :: u in sources ==> u in adjacency
    requires forall i, j :: 0 <= i < j < |sources| ==> sources[i] != sources[j]
    ensures multiset(IncomingInOrder(adjacency, sources, target))[e]
         == if e.source in sources then multiset(adjacency[e.source])[AdjacencyEntry(target, e.functionId, e.weight)]
           else 0
  {
    if sources != [] {
      var init, last := sources[..|sources| - 1], sources[|sources| - 1];
      assert sources == init + [last];
      IncomingInOrderCount(adjacency, init, target, e);
      EntriesToCount(last, adjacency[last], target, e);
    }
  }

  /** The reverse lists hold each declared edge as often as it was declared. */
  lemma BuiltGraphIsMirrored(g: Graph, sources: seq<string>)
    requires forall u :: u in sources <==> u in g.adjacency
    requires forall i, j :: 0 <= i < j < |sources| ==> sources[i] != sources[j]
    requires forall v :: Incoming(g, v) == IncomingInOrder(g.adjacency, sources, v)
    ensures Mirrored(g)
    ensures forall v, e: ReverseEntry ::
              multiset(Incoming(g, v))[e] == multiset(Outgoing(g, e.source))[AdjacencyEntry(v, e.functionId, e.weight)]
  {
    forall v, e: ReverseEntry
      ensures multiset(Incoming(g, v))[e] == multiset(Outgoing(g, e.source))[AdjacencyEntry(v, e.functionId, e.weight)]
    {
      IncomingInOrderCount(g.adjacency, sources, v, e);
    }
    forall u, v | (u, v) in Pairs(g)
      ensures exists e :: e in Incoming(g, v) && e.source == u
    {
      var a :| a in g.adjacency[u] && a.target == v;
      var e := ReverseEntry(u, a.functionId, a.weight);
      assert multiset(Incoming(g, v))[e] > 0;
      assert e in Incoming(g, v);
    }
    forall v, e | e in Incoming(g, v)
      ensures (e.source, v) in Pairs(g)
    {
      assert multiset(Incoming(g, v))[e] > 0;
      assert AdjacencyEntry(v, e.functionId, e.weight) in Outgoing(g, e.source);
    }
  }

  // ------------------------------------------------------------- the engine

  class SimulationState {
    var values: Values
    var staleFlags: map<string, bool>
    var currentTime: real
    ghost var applied: multiset<(string, int)>

    constructor (handles: Handles, initial: Values)
      requires WellTyped(handles, initial)
      ensures values == initial && currentTime == 0.0
      ensures staleFlags.Keys == handles.Keys && Picture().stale == {}
    {
      values := initial;
      staleFlags := map v | v in handles :: false;
      currentTime := 0.0;
    }

    ghost function Picture(): View
      reads this
    {
      View(values, (set v | v in staleFlags && staleFlags[v]), applied)
    }

    predicate IsStale(v: string)
      reads this
    {
      v in staleFlags && staleFlags[v]
    }

    method MarkStale(v: string)
      modifies `staleFlags
      ensures Picture() == old(Picture()).(stale := old(Picture().stale) + {v})
      ensures staleFlags.Keys == old(staleFlags.Keys) + {v}
    {
      staleFlags := staleFlags[v := true];
    }

    method ClearStale(v: string)
      modifies `staleFlags
      ensures Picture() == old(Picture()).(stale := old(Picture().stale) - {v})
      ensures staleFlags.Keys == old(staleFlags.Keys) + {v}
    {
      staleFlags := staleFlags[v := false];
    }
  }

  class DependencyGraph {
    var adjacencyList: map<string, seq<AdjacencyEntry>>
    var reverseAdjacency: map<string, seq<ReverseEntry>>
    var functions: map<string, PropagationFunction>

    constructor ()
      ensures Snapshot() == Graph(map[], map[], map[])
    {
      adjacencyList, reverseAdjacency, functions := map[], map[], map[];
    }

    ghost function Snapshot(): Graph
      reads this
    {
      Graph(adjacencyList, reverseAdjacency, functions)
    }

    /** `sources` lists the keys of the adjacency map in iteration order. */
    method BuildFromCompiled(adjacency: map<string, seq<AdjacencyEntry>>, sources: seq<string>,
                             registered: map<string, PropagationFunction>)
      requires Ascending(sources) && forall u :: u in sources <==> u in adjacency
      modifies this
      ensures adjacencyList == adjacency && functions == registered
      ensures forall v :: Incoming(Snapshot(), v) == IncomingInOrder(adjacency, sources, v)
      ensures Mirrored(Snapshot())
      ensures forall v, e: ReverseEntry ::
                multiset(Incoming(Snapshot(), v))[e] ==
                multiset(Outgoing(Snapshot(), e.source))[AdjacencyEntry(v, e.functionId, e.weight)]
    {
      adjacencyList := adjacency;
      functions := registered;
      reverseAdjacency := map[];
      for i := 0 to |sources|
        invariant adjacencyList == adjacency && functions == registered
        invariant forall v :: Incoming(Snapshot(), v) == IncomingInOrder(adjacency, sources[..i], v)
      {
        assert sources[..i + 1][..i] == sources[..i];
        AddReverseEntries(sources[i], adjacency[sources[i]]);
      }
      assert sources[..|sources|] == sources;
      AscendingIsDistinct(sources);
      BuiltGraphIsMirrored(Snapshot(), sources);
    }

    method AddReverseEntries(source: string, targets: seq<AdjacencyEntry>)
      modifies `reverseAdjacency
      ensures forall v :: Incoming(Snapshot(), v) == old(Incoming(Snapshot(), v)) + EntriesTo(source, targets, v)
    {
      hide EntriesTo;
      ghost var before := Snapshot();
      EntriesToNone(source, before);
      for j := 0 to |targets|
        invariant forall v :: Incoming(Snapshot(), v) == Incoming(before, v) + EntriesTo(source, targets[..j], v)
      {
        var entry := targets[j];
        ghost var now := Snapshot();
        AddReverseEntry(entry.target, ReverseEntry(source, entry.functionId, entry.weight));
        forall v
          ensures Incoming(Snapshot(), v) == Incoming(before, v) + EntriesTo(source, targets[..j + 1], v)
        {
          EntriesToStep(source, targets, j, v, Incoming(before, v));
        }
      }
      assert targets[..|targets|] == targets;
    }

    method AddReverseEntry(target: string, entry: ReverseEntry)
      modifies `reverseAdjacency
      ensures forall v :: Incoming(Snapshot(), v) == old(Incoming(Snapshot(), v)) + if v == target then [entry] else []
    {
      var known := if target in reverseAdjacency then reverseAdjacency[target] else [];
      reverseAdjacency := reverseAdjacency[target := known + [entry]];
    }

    /** Pushes the targets not yet visited on the work list. */
    method AddDependents(entries: seq<AdjacencyEntry>, visited: set<string>, toVisit: seq<string>)
        returns (r: seq<string>)
      ensures toVisit <= r
      ensures forall v :: v in r <==> v in toVisit || (v !in visited && exists e :: e in entries && e.target == v)
    {
      r := toVisit;
      for i := 0 to |entries|
        invariant toVisit <= r
        invariant forall v ::
                    v in r <==> v in toVisit || (v !in visited && exists e :: e in entries[..i] && e.target == v)
      {
        assert entries[..i + 1] == entries[..i] + [entries[i]];
        if entries[i].target !in visited {
          r := r + [entries[i].target];
        }
      }
      assert entries[..|entries|] == entries;
    }

    /** What holds of the work list between two steps of a push. */
    ghost predicate Pushing(source: string, nodes: set<string>, visited: set<string>, toVisit: seq<string>)
      reads this
    {
      && visited <= nodes
      && (source in visited || source in toVisit)
      && (forall v :: v in toVisit ==> v in nodes)
      && (forall v :: v in visited || v in toVisit ==> Reaches(Pairs(Snapshot()), source, v))
      && (forall e :: e in Pairs(Snapshot()) && e.0 in visited ==> e.1 in visited || e.1 in toVisit)
    }

    lemma PushDone(source: string, nodes: set<string>, visited: set<string>)
      requires Pushing(source, nodes, visited, [])
      ensures forall v :: v in visited <==> Reaches(Pairs(Snapshot()), source, v)
    {
      forall v | Reaches(Pairs(Snapshot()), source, v)
        ensures v in visited
      {
        ReachStaysInside(Pairs(Snapshot()), visited, source, v);
      }
    }

    lemma PushSkips(source: string, nodes: set<string>, visited: set<string>, before: seq<string>, current: string)
      requires Pushing(source, nodes, visited, before + [current]) && current in visited
      ensures Pushing(source, nodes, visited, before)
    {
    }

    lemma PushVisits(source: string, nodes: set<string>, visited: set<string>, before: seq<string>, current: string,
                     after: seq<string>)
      requires Pushing(source, nodes, visited, before + [current])
      requires forall e :: e in Pairs(Snapshot()) ==> e.1 in nodes
      requires forall v :: v in after <==>
                 || v in before
                 || (v !in visited + {current} && exists e :: e in Outgoing(Snapshot(), current) && e.target == v)
      ensures Pushing(source, nodes, visited + {current}, after)
    {
      assert current in before + [current];
      forall e | e in Outgoing(Snapshot(), current)
        ensures e.target in nodes && Reaches(Pairs(Snapshot()), source, e.target)
      {
        assert (current, e.target) in Pairs(Snapshot());
        EdgeReaches(Pairs(Snapshot()), current, e.target);
        ReachesTransitive(Pairs(Snapshot()), source, current, e.target);
      }
      forall v | v in before
        ensures v in before + [current]
      {
      }
      forall e | e in Pairs(Snapshot()) && e.0 == current
        ensures e.1 in visited + {current} || e.1 in after
      {
        var u, a :| u in adjacencyList && a in adjacencyList[u] && e == (u, a.target);
        assert a in Outgoing(Snapshot(), current);
      }
    }

    /** Marks exactly the variables reachable from the source as stale. */
    method PushInvalidation(source: string, state: SimulationState)
      modifies state`staleFlags
      ensures forall v :: v in state.Picture().stale <==>
                v in old(state.Picture().stale) || Reaches(Pairs(Snapshot()), source, v)
    {
      hide Pairs, Pushing;
      ghost var nodes := AllNodes(source);
      var toVisit := [source];
      var visited: set<string> := {};
      while toVisit != []
        invariant Pushing(source, nodes, visited, toVisit) && visited <= nodes
        invariant state.Picture().stale == old(state.Picture().stale) + visited
        decreases nodes - visited, |toVisit|
      {
        var current := toVisit[|toVisit| - 1];
        ghost var popped := toVisit;
        toVisit := toVisit[..|toVisit| - 1];
        assert popped == toVisit + [current];
        if current in visited {
          PushSkips(source, nodes, visited, toVisit, current);
          continue;
        }
        ghost var rest := toVisit;
        toVisit := AddDependents(if current in adjacencyList then adjacencyList[current] else [], visited + {current},
                                 toVisit);
        PushVisits(source, nodes, visited, rest, current, toVisit);
        PushStays(source, nodes, visited + {current}, toVisit);
        visited := visited + {current};
        state.MarkStale(current);
      }
      PushDone(source, nodes, visited);
    }

    lemma AllNodes(source: string) returns (nodes: set<string>)
      ensures Pushing(source, nodes, {}, [source])
      ensures forall e :: e in Pairs(Snapshot()) ==> e.1 in nodes
    {
      nodes := {source} + set e | e in Pairs(Snapshot()) :: e.1;
      ReachesSelf(Pairs(Snapshot()), source);
    }

    lemma PushStays(source: string, nodes: set<string>, visited: set<string>, toVisit: seq<string>)
      requires Pushing(source, nodes, visited, toVisit)
      ensures visited <= nodes
    {
    }

    /** Applies every incoming edge once, in order, and stores the result. */
    method ApplyEdges(v: string, entries: seq<ReverseEntry>, state: SimulationState) returns (missing: Option<string>)
      modifies state`values, state`applied
      ensures missing.Some? ==> exists e :: e in entries && e.functionId !in functions
      ensures missing.None? && entries == [] ==> state.values == old(state.values)
      ensures missing.None? && entries != [] ==>
                var start := NumericValue(old(state.values), v);
                state.values == SetNumeric(old(state.values), v, Fold(Snapshot(), entries, start, old(state.values)))
      ensures missing.None? ==> forall e :: e in entries ==> e.functionId in functions
      ensures missing.None? ==> forall e ::
                state.applied[e] == old(state.applied)[e] + if e.0 == v && 0 <= e.1 < |entries| then 1 else 0
    {
      var targetValue := NumericValue(state.values, v);
      var updated := false;
      for i := 0 to |entries|
        invariant targetValue == Fold(Snapshot(), entries[..i], NumericValue(old(state.values), v), old(state.values))
        invariant updated <==> i > 0
        invariant state.values == old(state.values)
        invariant forall j :: 0 <= j < i ==> entries[j].functionId in functions
        invariant forall e :: state.applied[e] == old(state.applied)[e] + if e.0 == v && 0 <= e.1 < i then 1 else 0
      {
        if entries[i].functionId !in functions {
          return Some(entries[i].functionId);
        }
        assert entries[..i + 1][..i] == entries[..i];
        var sourceValue := NumericValue(state.values, entries[i].source);
        targetValue := functions[entries[i].functionId](targetValue, sourceValue, entries[i].weight);
        state.applied := state.applied + multiset{(v, i)};
        updated := true;
      }
      assert entries[..|entries|] == entries;
      if updated {
        state.values := SetNumeric(state.values, v, targetValue);
      }
      missing := None;
    }

    /** The recursive part of pull recomputation.  It terminates on every
        graph; the cycle error is raised only when the graph has a cycle. */
    method Recompute(v: string, state: SimulationState, active: set<string>, ghost nodes: set<string>)
        returns (r: PullResult)
      requires Mirrored(Snapshot())
      requires v in nodes && active <= nodes && forall e :: e in Pairs(Snapshot()) ==> e.0 in nodes
      requires forall a :: a in active ==> ReachesPlus(Pairs(Snapshot()), v, a)
      modifies state`values, state`staleFlags, state`applied
      decreases nodes - active, 1, 0
      ensures r.CycleDetected? ==> Cyclic(Pairs(Snapshot()))
      ensures r.MissingFunction? ==> !AllRegistered(Snapshot())
      ensures r.Done? ==> (r.recomputed <==> v in old(state.Picture().stale))
      ensures r.Done? ==> Pulled(Snapshot(), v, active, old(state.Picture()), state.Picture())
    {
      ghost var start := state.Picture();
      if !state.IsStale(v) {
        return Done(false);
      }
      if v in active {
        return CycleDetected(v);
      }
      var entries := if v in reverseAdjacency then reverseAdjacency[v] else [];
      var upstream := RecomputeSources(v, entries, state, active + {v}, nodes);
      if !upstream.Done? {
        return upstream;
      }
      ghost var ready := state.Picture();
      var missing := ApplyEdges(v, entries, state);
      if missing.Some? {
        return MissingFunction(missing.value);
      }
      state.ClearStale(v);
      RefreshOne(Snapshot(), v, ready, state.Picture());
      PullOneMore(Snapshot(), v, active, start, ready, state.Picture());
      r := Done(true);
    }

    method RecomputeSources(v: string, entries: seq<ReverseEntry>, state: SimulationState, active: set<string>,
                            ghost nodes: set<string>)
        returns (r: PullResult)
      requires Mirrored(Snapshot())
      requires v in active && active <= nodes && forall e :: e in Pairs(Snapshot()) ==> e.0 in nodes
      requires entries == Incoming(Snapshot(), v)
      requires forall a :: a in active - {v} ==> ReachesPlus(Pairs(Snapshot()), v, a)
      modifies state`values, state`staleFlags, state`applied
      decreases nodes - active, 2, 0
      ensures r.CycleDetected? ==> Cyclic(Pairs(Snapshot()))
      ensures r.MissingFunction? ==> !AllRegistered(Snapshot())
      ensures r.Done? ==> PulledSources(Snapshot(), v, |entries|, active, old(state.Picture()), state.Picture())
    {
      ghost var start := state.Picture();
      for i := 0 to |entries|
        invariant PulledSources(Snapshot(), v, i, active, start, state.Picture())
      {
        ghost var before := state.Picture();
        ActiveStaysAbove(Snapshot(), entries[i], v, active);
        var upstream := Recompute(entries[i].source, state, active, nodes);
        if !upstream.Done? {
          return upstream;
        }
        PullNextSource(Snapshot(), v, i, active, start, before, state.Picture());
      }
      r := Done(true);
    }

    /** Recomputes a variable if it is stale. */
    method PullRecompute(target: string, state: SimulationState) returns (r: PullResult)
      requires Mirrored(Snapshot())
      modifies state`values, state`staleFlags, state`applied
      ensures r.CycleDetected? ==> Cyclic(Pairs(Snapshot()))
      ensures r.MissingFunction? ==> !AllRegistered(Snapshot())
      ensures r.Done? ==> (r.recomputed <==> target in old(state.Picture().stale))
      ensures r.Done? ==> Pulled(Snapshot(), target, {}, old(state.Picture()), state.Picture())
      ensures r.Done? && DownstreamClosed(Snapshot(), old(state.Picture().stale)) ==>
                state.Picture().stale
                == set u | u in old(state.Picture().stale) && !Reaches(Pairs(Snapshot()), u, target)
    {
      ghost var start := state.Picture();
      if !state.IsStale(target) {
        r := Done(false);
      } else {
        ghost var nodes := {target} + set e | e in Pairs(Snapshot()) :: e.0;
        r := Recompute(target, state, {}, nodes);
      }
      if r.Done? && DownstreamClosed(Snapshot(), start.stale) {
        PullClearsExactly(Snapshot(), start, state.Picture(), target);
      }
    }
  }

  // -------------------------------------------------- one pull, step by step

  /** What a successful pull of v leaves: v is clean, and only stale variables
      that reach v and are not being computed already were brought up to date. */
  ghost predicate Pulled(g: Graph, v: string, active: set<string>, a: View, b: View)
  {
    && Progress(g, a, b)
    && v !in b.stale
    && forall u :: u in a.stale - b.stale ==> u !in active && Reaches(Pairs(g), u, v)
  }

  /** The first n sources of v have been pulled. */
  ghost predicate PulledSources(g: Graph, v: string, n: nat, active: set<string>, a: View, b: View)
  {
    && Progress(g, a, b)
    && (forall j :: 0 <= j < n && j < |Incoming(g, v)| ==> Incoming(g, v)[j].source !in b.stale)
    && forall u :: u in a.stale - b.stale ==> u !in active && Reaches(Pairs(g), u, v)
  }

  lemma ActiveStaysAbove(g: Graph, entry: ReverseEntry, v: string, active: set<string>)
    requires Mirrored(g) && entry in Incoming(g, v)
    requires forall a :: a in active - {v} ==> ReachesPlus(Pairs(g), v, a)
    ensures (entry.source, v) in Pairs(g)
    ensures forall a :: a in active ==> ReachesPlus(Pairs(g), entry.source, a)
  {
    EdgeReaches(Pairs(g), entry.source, v);
    forall a | a in active
      ensures ReachesPlus(Pairs(g), entry.source, a)
    {
      if a != v {
        PlusIsReach(Pairs(g), v, a);
        ReachesTransitive(Pairs(g), entry.source, v, a);
      }
    }
  }

  lemma PullNextSource(g: Graph, v: string, i: nat, active: set<string>, a: View, b: View, c: View)
    requires Mirrored(g) && i < |Incoming(g, v)|
    requires PulledSources(g, v, i, active, a, b)
    requires Pulled(g, Incoming(g, v)[i].source, active, b, c)
    ensures PulledSources(g, v, i + 1, active, a, c)
  {
    ProgressTransitive(g, a, b, c);
    var source := Incoming(g, v)[i].source;
    assert (source, v) in Pairs(g);
    EdgeReaches(Pairs(g), source, v);
    forall u | u in a.stale - c.stale
      ensures u !in active && Reaches(Pairs(g), u, v)
    {
      if u in b.stale {
        ReachesTransitive(Pairs(g), u, source, v);
      }
    }
  }

  lemma PullOneMore(g: Graph, v: string, active: set<string>, a: View, b: View, c: View)
    requires v !in active && PulledSources(g, v, |Incoming(g, v)|, active + {v}, a, b)
    requires Progress(g, b, c) && c.stale == b.stale - {v}
    ensures Pulled(g, v, active, a, c)
  {
    ProgressTransitive(g, a, b, c);
    ReachesSelf(Pairs(g), v);
  }
}

/** The meaning of a v1 scenario is unique, and renaming its variables renames
    the meaning, whatever the names, as long as no two are merged and the order
    of the edge sources is kept. */
module RenamedRuns {
  import opened Walks
  import opened Optional
  import opened StringOrder
  import opened VariableStore
  import opened DependencyEngine
  import opened ReactiveRun
  import Cycles = CycleDetection

  type Renaming = string -> string

  ghost predicate Injective(r: Renaming, names: set<string>)
  {
    forall a, b :: a in names && b in names && r(a) == r(b) ==> a == b
  }

  // ---------------------------------------------------------- renamed things

  ghost function Moved(r: Renaming, values: Values): Values
    requires Injective(r, values.Keys)
  {
    map v | v in values :: r(v) := values[v]
  }

  ghost function MovedNames(r: Renaming, names: seq<string>): seq<string>
  {
    seq(|names|, i requires 0 <= i < |names| => r(names[i]))
  }

  ghost function MovedPairs(r: Renaming, pairs: set<(string, string)>): set<(string, string)>
  {
    set e | e in pairs :: (r(e.0), r(e.1))
  }

  ghost function MovedEdges(r: Renaming, edges: seq<Cycles.DependencyEdge>): seq<Cycles.DependencyEdge>
  {
    seq(|edges|, i requires 0 <= i < |edges| =>
      edges[i].(source := r(edges[i].source), target := r(edges[i].target)))
  }

  ghost function MovedOut(r: Renaming, entries: seq<AdjacencyEntry>): seq<AdjacencyEntry>
  {
    seq(|entries|, i requires 0 <= i < |entries| => entries[i].(target := r(entries[i].target)))
  }

  ghost function MovedIn(r: Renaming, entries: seq<ReverseEntry>): seq<ReverseEntry>
  {
    seq(|entries|, i requires 0 <= i < |entries| => entries[i].(source := r(entries[i].source)))
  }

  ghost function MovedTodo(r: Renaming, todo: seq<Assignment>): seq<Assignment>
  {
    seq(|todo|, i requires 0 <= i < |todo| => todo[i].(variable := r(todo[i].variable)))
  }

  lemma MovedAt(r: Renaming, names: set<string>, values: Values, v: string)
    requires Injective(r, names) && values.Keys <= names && v in names
    ensures r(v) in Moved(r, values) <==> v in values
    ensures v in values ==> Moved(r, values)[r(v)] == values[v]
    ensures NumericValue(Moved(r, values), r(v)) == NumericValue(values, v)
  {
  }

  lemma MovedUpdate(r: Renaming, names: set<string>, values: Values, v: string, x: Scalar)
    requires Injective(r, names) && values.Keys <= names && v in values
    ensures Moved(r, values[v := x]) == Moved(r, values)[r(v) := x]
  {
  }

  // ------------------------------------------------------------ reachability

  lemma {:induction false} WalkBack(r: Renaming, names: set<string>, pairs: set<(string, string)>, u: string,
                                    q: seq<string>) returns (p: seq<string>)
    requires Injective(r, names) && forall e :: e in pairs ==> e.0 in names && e.1 in names
    requires IsWalk(MovedPairs(r, pairs), q) && q[0] == r(u) && u in names
    ensures IsWalk(pairs, p) && |p| == |q| && p[0] == u && r(p[|p| - 1]) == q[|q| - 1] && p[|p| - 1] in names
    decreases |q|
  {
    if |q| == 1 {
      return [u];
    }
    assert (q[0], q[1]) in MovedPairs(r, pairs);
    var e :| e in pairs && (q[0], q[1]) == (r(e.0), r(e.1));
    var rest := WalkBack(r, names, pairs, e.1, q[1..]);
    p := [u] + rest;
  }

  lemma WalkForth(r: Renaming, pairs: set<(string, string)>, p: seq<string>)
    requires IsWalk(pairs, p)
    ensures IsWalk(MovedPairs(r, pairs), MovedNames(r, p))
  {
    forall i | 0 <= i < |p| - 1
      ensures (r(p[i]), r(p[i + 1])) in MovedPairs(r, pairs)
    {
      assert (p[i], p[i + 1]) in pairs;
    }
  }

  lemma ReachMoves(r: Renaming, names: set<string>, pairs: set<(string, string)>, u: string, v: string)
    requires Injective(r, names) && forall e :: e in pairs ==> e.0 in names && e.1 in names
    requires u in names && v in names
    ensures Reaches(MovedPairs(r, pairs), r(u), r(v)) <==> Reaches(pairs, u, v)
    ensures ReachesPlus(MovedPairs(r, pairs), r(u), r(v)) <==> ReachesPlus(pairs, u, v)
  {
    hide MovedPairs, IsWalk;
    forall p | WalkBetween(pairs, p, u, v)
      ensures WalkBetween(MovedPairs(r, pairs), MovedNames(r, p), r(u), r(v))
    {
      WalkForth(r, pairs, p);
      WalkIsNotEmpty(pairs, p);
    }
    forall q | WalkBetween(MovedPairs(r, pairs), q, r(u), r(v))
      ensures exists p :: WalkBetween(pairs, p, u, v) && |p| == |q|
    {
      var p := WalkBack(r, names, pairs, u, q);
      WalkIsNotEmpty(pairs, p);
      assert WalkBetween(pairs, p, u, v);
    }
  }

  lemma WalkIsNotEmpty(pairs: set<(string, string)>, p: seq<string>)
    requires IsWalk(pairs, p)
    ensures p != []
  {
  }

  lemma CyclicMoves(r: Renaming, names: set<string>, pairs: set<(string, string)>)
    requires Injective(r, names) && forall e :: e in pairs ==> e.0 in names && e.1 in names
    ensures Cyclic(MovedPairs(r, pairs)) <==> Cyclic(pairs)
  {
    if v :| ReachesPlus(pairs, v, v) {
      var p :| WalkBetween(pairs, p, v, v) && |p| > 1;
      assert (p[0], p[1]) in pairs;
      ReachMoves(r, names, pairs, v, v);
    }
    if w :| ReachesPlus(MovedPairs(r, pairs), w, w) {
      var q :| WalkBetween(MovedPairs(r, pairs), q, w, w) && |q| > 1;
      assert (q[0], q[1]) in MovedPairs(r, pairs);
      var e :| e in pairs && w == r(e.0);
      ReachMoves(r, names, pairs, e.0, e.0);
    }
  }

  // ---------------------------------------------------------- eager meaning

  /** The second graph is the first under other names. */
  ghost predicate Renames(r: Renaming, names: set<string>, g: Graph, g': Graph)
  {
    && Injective(r, names) && g'.functions == g.functions
    && (forall e :: e in Pairs(g) ==> e.0 in names && e.1 in names)
    && Pairs(g') == MovedPairs(r, Pairs(g))
    && (forall v :: v in names ==> Incoming(g', r(v)) == MovedIn(r, Incoming(g, v)))
    && (forall v, e :: v in names && e in Incoming(g, v) ==> e.source in names)
  }

  lemma {:induction false} FoldMoves(r: Renaming, names: set<string>, g: Graph, g': Graph,
                                     entries: seq<ReverseEntry>, start: real, values: Values)
    requires Injective(r, names) && values.Keys <= names && g'.functions == g.functions
    requires forall e :: e in entries ==> e.source in names
    ensures Fold(g', MovedIn(r, entries), start, Moved(r, values)) == Fold(g, entries, start, values)
  {
    if entries != [] {
      var n := |entries| - 1;
      FoldMoves(r, names, g, g', entries[..n], start, values);
      assert entries[n] in entries;
      MovedAt(r, names, values, entries[n].source);
      assert MovedIn(r, entries)[..n] == MovedIn(r, entries[..n]);
    }
  }

  lemma {:induction false} EagerPassMoves(r: Renaming, names: set<string>, g: Graph, g': Graph,
                                          order: seq<string>, stale: set<string>, stale': set<string>, values: Values)
    requires Renames(r, names, g, g') && values.Keys <= names
    requires forall v :: v in order ==> v in names && (r(v) in stale' <==> v in stale)
    ensures EagerPass(g, order, stale, values).Keys == values.Keys
    ensures EagerPass(g', MovedNames(r, order), stale', Moved(r, values))
         == Moved(r, EagerPass(g, order, stale, values))
    decreases |order|
  {
    hide Injective, Pairs, MovedPairs, Moved, MovedIn, NumericValue, Fold;
    if order == [] {
      assert MovedNames(r, order) == [];
    } else {
      var v := order[0];
      assert v in order;
      var next := RefreshedAt(g, v, stale, values);
      RefreshMoves(r, names, g, g', v, stale, stale', values);
      EagerPassMoves(r, names, g, g', order[1..], stale, stale', next);
      assert MovedNames(r, order)[1..] == MovedNames(r, order[1..]);
    }
  }

  /** One step of plain evaluation. */
  ghost function RefreshedAt(g: Graph, v: string, stale: set<string>, values: Values): (next: Values)
    ensures next.Keys == values.Keys
  {
    if v in stale && Incoming(g, v) != []
    then SetNumeric(values, v, Fold(g, Incoming(g, v), NumericValue(values, v), values))
    else values
  }

  lemma RefreshMoves(r: Renaming, names: set<string>, g: Graph, g': Graph, v: string,
                     stale: set<string>, stale': set<string>, values: Values)
    requires Renames(r, names, g, g') && values.Keys <= names && v in names && (r(v) in stale' <==> v in stale)
    ensures RefreshedAt(g', r(v), stale', Moved(r, values)) == Moved(r, RefreshedAt(g, v, stale, values))
  {
    hide Pairs, MovedPairs;
    assert Incoming(g', r(v)) == MovedIn(r, Incoming(g, v));
    MovedAt(r, names, values, v);
    FoldMoves(r, names, g, g', Incoming(g, v), NumericValue(values, v), values);
    if v in values {
      var x := Coerce(values[v], Fold(g, Incoming(g, v), NumericValue(values, v), values));
      MovedUpdate(r, names, values, v, x);
    }
  }

  lemma SlotMoves(r: Renaming, names: set<string>, f: Formats, a: Assignment, values: Values)
    requires Injective(r, names) && values.Keys <= names && a.variable in names
    ensures AssignedSlot(f, a.(variable := r(a.variable)), Moved(r, values)) == AssignedSlot(f, a, values)
    ensures AssignedSlot(f, a, values).Some? ==> a.variable in values
  {
    hide SlotFromText, Coerce;
    MovedAt(r, names, values, a.variable);
  }

  lemma NothingAssigned(f: Formats, values: Values)
    ensures AssignAll(f, [], values) == values && Touched(f, [], values) == {}
  {
  }

  /** What the last assignment of a list leaves. */
  lemma LastAssignment(f: Formats, todo: seq<Assignment>, values: Values)
    requires todo != []
    ensures var n := |todo| - 1;
            var before := AssignAll(f, todo[..n], values);
            var slot := AssignedSlot(f, todo[n], before);
            && AssignAll(f, todo, values) == (if slot.Some? then before[todo[n].variable := slot.value] else before)
            && Touched(f, todo, values)
            == Touched(f, todo[..n], values) + if slot.Some? then {todo[n].variable} else {}
  {
  }

  lemma {:induction false} AssignmentsMove(r: Renaming, names: set<string>, f: Formats, todo: seq<Assignment>,
                                           values: Values)
    requires Injective(r, names) && values.Keys <= names && forall a :: a in todo ==> a.variable in names
    ensures AssignAll(f, todo, values).Keys == values.Keys && Touched(f, todo, values) <= values.Keys
    ensures AssignAll(f, MovedTodo(r, todo), Moved(r, values)) == Moved(r, AssignAll(f, todo, values))
    ensures Touched(f, MovedTodo(r, todo), Moved(r, values)) == set v | v in Touched(f, todo, values) :: r(v)
  {
    hide AssignedSlot, AssignAll, Touched, Moved;
    if todo == [] {
      NothingAssigned(f, values);
      NothingAssigned(f, Moved(r, values));
      assert MovedTodo(r, todo) == [];
    } else {
      var n := |todo| - 1;
      var before := AssignAll(f, todo[..n], values);
      assert todo[n] in todo;
      AssignmentsMove(r, names, f, todo[..n], values);
      assert MovedTodo(r, todo)[..n] == MovedTodo(r, todo[..n]);
      LastAssignment(f, todo, values);
      LastAssignment(f, MovedTodo(r, todo), Moved(r, values));
      SlotMoves(r, names, f, todo[n], before);
      if AssignedSlot(f, todo[n], before).Some? {
        MovedUpdate(r, names, before, todo[n].variable, AssignedSlot(f, todo[n], before).value);
      }
    }
  }

  lemma ReachedMoves(r: Renaming, names: set<string>, g: Graph, g': Graph, changed: set<string>, v: string)
    requires Renames(r, names, g, g') && changed <= names && v in names
    ensures ReachedFrom(g', (set u | u in changed :: r(u)), r(v)) <==> ReachedFrom(g, changed, v)
  {
    hide Pairs, MovedPairs, Reaches, ReachesPlus;
    var changed' := set u | u in changed :: r(u);
    forall u | u in changed
      ensures r(u) in changed' && (Reaches(Pairs(g'), r(u), r(v)) <==> Reaches(Pairs(g), u, v))
    {
      ReachMoves(r, names, Pairs(g), u, v);
    }
  }

  /** The event asks for the same assignments under the new names. */
  ghost predicate MovesEvent(r: Renaming, names: set<string>, ev: Event, ev': Event)
  {
    && (forall a :: a in EventAssignments(ev) ==> a.variable in names)
    && EventAssignments(ev') == MovedTodo(r, EventAssignments(ev))
  }

  lemma EventMoves(r: Renaming, names: set<string>, g: Graph, g': Graph, order: seq<string>, f: Formats,
                   ev: Event, ev': Event, values: Values)
    requires Renames(r, names, g, g') && values.Keys <= names && MovesEvent(r, names, ev, ev')
    requires forall v :: v in order ==> v in names
    ensures EagerEvent(g, order, f, ev, values).Keys == values.Keys
    ensures EagerEvent(g', MovedNames(r, order), f, ev', Moved(r, values))
         == Moved(r, EagerEvent(g, order, f, ev, values))
  {
    hide AssignAll, Touched, EventAssignments, ReachedFrom, EagerPass, Moved, Pairs, MovedPairs, MovedTodo;
    var todo := EventAssignments(ev);
    var changed := Touched(f, todo, values);
    AssignmentsMove(r, names, f, todo, values);
    var changed' := set u | u in changed :: r(u);
    var stale := set v | v in order && ReachedFrom(g, changed, v);
    var order' := MovedNames(r, order);
    var stale' := set v | v in order' && ReachedFrom(g', changed', v);
    forall v | v in order
      ensures v in names && (r(v) in stale' <==> v in stale)
    {
      ReachedMoves(r, names, g, g', changed, v);
      var i :| 0 <= i < |order| && order[i] == v;
      assert order'[i] == r(v);
    }
    EagerPassMoves(r, names, g, g', order, stale, stale', AssignAll(f, todo, values));
  }

  lemma {:induction false} EagerRunMoves(r: Renaming, names: set<string>, g: Graph, g': Graph, order: seq<string>,
                                         f: Formats, events: seq<Event>, events': seq<Event>, values: Values)
    requires Renames(r, names, g, g') && values.Keys <= names && forall v :: v in order ==> v in names
    requires |events'| == |events| && forall k :: 0 <= k < |events| ==> MovesEvent(r, names, events[k], events'[k])
    ensures EagerRun(g, order, f, events, values).Keys == values.Keys
    ensures EagerRun(g', MovedNames(r, order), f, events', Moved(r, values))
         == Moved(r, EagerRun(g, order, f, events, values))
  {
    hide EagerEvent, MovesEvent, Moved, Renames;
    if events != [] {
      var n := |events| - 1;
      RenamesIsInjective(r, names, g, g');
      EagerRunMoves(r, names, g, g', order, f, events[..n], events'[..n], values);
      EventMoves(r, names, g, g', order, f, events[n], events'[n], EagerRun(g, order, f, events[..n], values));
    }
  }

  lemma RenamesIsInjective(r: Renaming, names: set<string>, g: Graph, g': Graph)
    requires Renames(r, names, g, g')
    ensures Injective(r, names)
  {
  }

  // -------------------------------------------------------------- compilation

  ghost predicate EdgesWithin(edges: seq<Cycles.DependencyEdge>, names: set<string>)
  {
    forall e :: e in edges ==> e.source in names && e.target in names
  }

  /** Sources keep their order under the new names. */
  ghost predicate KeepsOrder(r: Renaming, sources: set<string>)
  {
    forall a, b :: a in sources && b in sources && Less(a, b) ==> Less(r(a), r(b))
  }

  lemma SomeMember(a: seq<string>) returns (x: string)
    requires a != []
    ensures x in a
  {
    x := a[0];
  }

  lemma SameEmptiness(a: seq<string>, b: seq<string>)
    requires forall x :: x in a <==> x in b
    ensures a == [] <==> b == []
  {
    if a != [] {
      var x := SomeMember(a);
    }
    if b != [] {
      var x := SomeMember(b);
    }
  }

  lemma {:induction false} AscendingIsUnique(a: seq<string>, b: seq<string>)
    requires Ascending(a) && Ascending(b) && forall x :: x in a <==> x in b
    ensures a == b
    decreases |a|
  {
    hide Less;
    if a == [] || b == [] {
      SameEmptiness(a, b);
    } else {
      assert a[0] in a && b[0] in b;
      var i :| 0 <= i < |b| && b[i] == a[0];
      var j :| 0 <= j < |a| && a[j] == b[0];
      LessIsTotal(a[0], b[0]);
      assert a[0] == b[0];
      AscendingIsDistinct(a);
      AscendingIsDistinct(b);
      forall x
        ensures x in a[1..] <==> x in b[1..]
      {
        TailOf(a, x);
        TailOf(b, x);
      }
      AscendingIsUnique(a[1..], b[1..]);
      assert a == [a[0]] + a[1..] && b == [b[0]] + b[1..];
    }
  }

  lemma TailOf(a: seq<string>, x: string)
    requires a != [] && forall i, j :: 0 <= i < j < |a| ==> a[i] != a[j]
    ensures x in a[1..] <==> x in a && x != a[0]
  {
    if x in a && x != a[0] {
      var i :| 0 <= i < |a| && a[i] == x;
      assert a[1..][i - 1] == x;
    }
  }

  lemma {:induction false} DeclaredMoves(r: Renaming, names: set<string>, edges: seq<Cycles.DependencyEdge>, u: string)
    requires Injective(r, names) && EdgesWithin(edges, names) && u in names
    ensures Declared(MovedEdges(r, edges), r(u)) == MovedOut(r, Declared(edges, u))
    ensures forall e :: e in Declared(edges, u) ==> e.target in names
  {
    if edges != [] {
      var n := |edges| - 1;
      assert edges[n] in edges;
      DeclaredMoves(r, names, edges[..n], u);
      assert MovedEdges(r, edges)[..n] == MovedEdges(r, edges[..n]);
    }
  }

  lemma {:induction false} EntriesMove(r: Renaming, names: set<string>, u: string, entries: seq<AdjacencyEntry>,
                                       v: string)
    requires Injective(r, names) && v in names && forall e :: e in entries ==> e.target in names
    ensures EntriesTo(r(u), MovedOut(r, entries), r(v)) == MovedIn(r, EntriesTo(u, entries, v))
    ensures forall e :: e in EntriesTo(u, entries, v) ==> e.source == u
  {
    if entries != [] {
      var n := |entries| - 1;
      assert entries[n] in entries;
      EntriesMove(r, names, u, entries[..n], v);
      assert MovedOut(r, entries)[..n] == MovedOut(r, entries[..n]);
    }
  }

  lemma MovedMembers(r: Renaming, names: seq<string>)
    ensures forall v :: v in names ==> r(v) in MovedNames(r, names)
    ensures forall x :: x in MovedNames(r, names) ==> exists v :: v in names && x == r(v)
  {
    forall v | v in names
      ensures r(v) in MovedNames(r, names)
    {
      var i :| 0 <= i < |names| && names[i] == v;
      assert MovedNames(r, names)[i] == r(v);
    }
    forall x | x in MovedNames(r, names)
      ensures exists v :: v in names && x == r(v)
    {
      var i :| 0 <= i < |names| && x == r(names[i]);
      assert names[i] in names;
    }
  }

  lemma MovedInJoins(r: Renaming, a: seq<ReverseEntry>, b: seq<ReverseEntry>)
    ensures MovedIn(r, a + b) == MovedIn(r, a) + MovedIn(r, b) && MovedIn(r, []) == []
  {
  }

  lemma MovedNamesInit(r: Renaming, names: seq<string>)
    ensures MovedNames(r, []) == []
    ensures names != [] ==>
              var n := |names| - 1;
              && names[n] in names && |MovedNames(r, names)| == n + 1
              && MovedNames(r, names)[..n] == MovedNames(r, names[..n]) && MovedNames(r, names)[n] == r(names[n])
  {
  }

  lemma {:induction false} IncomingMoves(r: Renaming, names: set<string>, a: map<string, seq<AdjacencyEntry>>,
                                         a': map<string, seq<AdjacencyEntry>>, sources: seq<string>, v: string)
    requires Injective(r, names) && v in names
    requires forall u :: u in sources ==> u in a && u in names && r(u) in a' && a'[r(u)] == MovedOut(r, a[u])
    requires forall u, e :: u in sources && e in a[u] ==> e.target in names
    requires forall u :: u in MovedNames(r, sources) ==> u in a'
    ensures IncomingInOrder(a', MovedNames(r, sources), r(v)) == MovedIn(r, IncomingInOrder(a, sources, v))
    ensures forall e :: e in IncomingInOrder(a, sources, v) ==> e.source in names
  {
    hide EntriesTo, MovedIn, MovedOut, MovedNames, Injective;
    MovedNamesInit(r, sources);
    if sources == [] {
      MovedInJoins(r, [], []);
    } else {
      var n := |sources| - 1;
      IncomingMoves(r, names, a, a', sources[..n], v);
      EntriesMove(r, names, sources[n], a[sources[n]], v);
      MovedInJoins(r, IncomingInOrder(a, sources[..n], v), EntriesTo(sources[n], a[sources[n]], v));
    }
  }

  lemma SourceSetMoves(r: Renaming, edges: seq<Cycles.DependencyEdge>)
    ensures Cycles.Sources(MovedEdges(r, edges)) == set u | u in Cycles.Sources(edges) :: r(u)
  {
    var moved := MovedEdges(r, edges);
    forall e | e in edges
      ensures r(e.source) in Cycles.Sources(moved)
    {
      var k :| 0 <= k < |edges| && edges[k] == e;
      assert moved[k] in moved;
    }
    forall e | e in moved
      ensures exists u :: u in Cycles.Sources(edges) && e.source == r(u)
    {
      var k :| 0 <= k < |moved| && moved[k] == e;
      assert edges[k] in edges;
    }
  }

  lemma SourcesMove(r: Renaming, edges: seq<Cycles.DependencyEdge>, sources: seq<string>)
    requires Ascending(sources) && forall u :: u in sources <==> u in Cycles.Sources(edges)
    requires KeepsOrder(r, Cycles.Sources(edges))
    ensures Ascending(MovedNames(r, sources))
    ensures forall u :: u in MovedNames(r, sources) <==> u in Cycles.Sources(MovedEdges(r, edges))
  {
    hide Less, Cycles.Sources, MovedEdges;
    SourceSetMoves(r, edges);
    MovedMembers(r, sources);
    forall i, j | 0 <= i < j < |sources|
      ensures Less(r(sources[i]), r(sources[j]))
    {
      assert sources[i] in sources && sources[j] in sources;
    }
  }

  lemma EdgeSetMoves(r: Renaming, edges: seq<Cycles.DependencyEdge>)
    ensures Cycles.EdgeSet(MovedEdges(r, edges)) == MovedPairs(r, Cycles.EdgeSet(edges))
  {
    var moved := MovedEdges(r, edges);
    forall k | 0 <= k < |edges|
      ensures (r(edges[k].source), r(edges[k].target)) in Cycles.EdgeSet(moved)
      ensures (edges[k].source, edges[k].target) in Cycles.EdgeSet(edges)
    {
      assert moved[k] in moved;
    }
    forall e | e in Cycles.EdgeSet(moved)
      ensures e in MovedPairs(r, Cycles.EdgeSet(edges))
    {
      var d :| d in moved && e == (d.source, d.target);
      var k :| 0 <= k < |moved| && moved[k] == d;
    }
  }

  /** The graphs compiled from an edge list and from the renamed one. */
  lemma CompiledMoves(r: Renaming, names: set<string>, edges: seq<Cycles.DependencyEdge>,
                      registered: map<string, PropagationFunction>,
                      g: Graph, sources: seq<string>, g': Graph, sources': seq<string>)
    requires Injective(r, names) && EdgesWithin(edges, names) && KeepsOrder(r, Cycles.Sources(edges))
    requires Compiled(g, edges, registered, sources)
    requires Compiled(g', MovedEdges(r, edges), registered, sources')
    ensures Renames(r, names, g, g')
  {
    hide Less, EntriesTo, Declared, IncomingInOrder, MovedPairs, MovedEdges;
    CompiledPairs(g, edges);
    CompiledPairs(g', MovedEdges(r, edges));
    EdgeSetMoves(r, edges);
    SourcesMove(r, edges, sources);
    AscendingIsUnique(sources', MovedNames(r, sources));
    forall u | u in sources
      ensures u in names && r(u) in g'.adjacency && g'.adjacency[r(u)] == MovedOut(r, g.adjacency[u])
      ensures forall e :: e in g.adjacency[u] ==> e.target in names
    {
      var i :| 0 <= i < |sources| && sources[i] == u;
      assert MovedNames(r, sources)[i] == r(u);
      DeclaredMoves(r, names, edges, u);
      assert Outgoing(g, u) == g.adjacency[u] && Outgoing(g', r(u)) == g'.adjacency[r(u)];
    }
    forall v | v in names
      ensures Incoming(g', r(v)) == MovedIn(r, Incoming(g, v))
      ensures forall e :: e in Incoming(g, v) ==> e.source in names
    {
      IncomingMoves(r, names, g.adjacency, g'.adjacency, sources, v);
    }
  }

  // ------------------------------------------------------------- whole runs

  lemma CompiledFacts(s: Scenario, registered: map<string, PropagationFunction>, g: Graph, sources: seq<string>)
    requires !IsRejected(s, registered) && Compiled(g, s.edges, registered, sources)
    ensures Mirrored(g) && !Cyclic(Pairs(g)) && Pairs(g) == Cycles.EdgeSet(s.edges)
  {
    hide IncomingInOrder, Declared, Cyclic, Mirrored;
    CompiledPairs(g, s.edges);
    AscendingIsDistinct(sources);
    BuiltGraphIsMirrored(g, sources);
  }

  /** A topological order that lists nothing but the names of the scenario. */
  lemma OrderWithin(g: Graph, names: set<string>, values: Values) returns (order: seq<string>)
    requires !Cyclic(Pairs(g)) && values.Keys <= names && forall e :: e in Pairs(g) ==> e.0 in names && e.1 in names
    ensures CompleteOrder(g, order, values) && forall v :: v in order ==> v in names
  {
    order := TopologicalOrderExists(g, names);
  }

  lemma OrderMoves(r: Renaming, names: set<string>, g: Graph, g': Graph, order: seq<string>, values: Values)
    requires Renames(r, names, g, g') && values.Keys <= names && CompleteOrder(g, order, values)
    requires forall v :: v in order ==> v in names
    ensures CompleteOrder(g', MovedNames(r, order), Moved(r, values))
  {
    hide Pairs, Topological, MovedNames;
    TopologicalMoves(r, names, g, g', order);
    MovedMembers(r, order);
  }

  lemma PairMoves(r: Renaming, names: set<string>, pairs: set<(string, string)>, u: string, v: string)
    requires Injective(r, names) && forall e :: e in pairs ==> e.0 in names && e.1 in names
    requires u in names && v in names
    ensures (r(u), r(v)) in MovedPairs(r, pairs) <==> (u, v) in pairs
  {
    if (r(u), r(v)) in MovedPairs(r, pairs) {
      var e :| e in pairs && (r(u), r(v)) == (r(e.0), r(e.1));
      assert e.0 == u && e.1 == v;
      assert e == (u, v);
    }
  }

  lemma TopologicalMoves(r: Renaming, names: set<string>, g: Graph, g': Graph, order: seq<string>)
    requires Renames(r, names, g, g') && Topological(g, order) && forall v :: v in order ==> v in names
    ensures Topological(g', MovedNames(r, order))
  {
    hide Pairs, MovedPairs;
    forall i, j | 0 <= i <= j < |order|
      ensures (r(order[j]), r(order[i])) in Pairs(g') <==> (order[j], order[i]) in Pairs(g)
      ensures r(order[j]) == r(order[i]) <==> order[j] == order[i]
    {
      assert order[i] in order && order[j] in order;
      PairMoves(r, names, Pairs(g), order[j], order[i]);
    }
  }

  /** The second scenario is the first under other names: the same edges, first
      values and assignments, and constraints of the same truth. */
  ghost predicate RenamesScenario(r: Renaming, names: set<string>, f: Formats, s: Scenario, s': Scenario)
  {
    && Injective(r, names) && s.initial.Keys <= names && EdgesWithin(s.edges, names)
    && KeepsOrder(r, Cycles.Sources(s.edges))
    && s'.edges == MovedEdges(r, s.edges) && s'.initial == Moved(r, s.initial)
    && |s'.events| == |s.events|
    && (forall k :: 0 <= k < |s.events| ==> MovesEvent(r, names, s.events[k], s'.events[k]))
    && (forall values: Values :: values.Keys == s.initial.Keys ==>
         (ConstraintsHold(f, s'.programs, Moved(r, values)) <==> ConstraintsHold(f, s.programs, values)))
  }

  lemma RunMoves(r: Renaming, names: set<string>, g: Graph, g': Graph, order: seq<string>, f: Formats,
                 s: Scenario, s': Scenario, outcome: RunOutcome, processed: nat, final: Values)
    requires RenamesScenario(r, names, f, s, s') && Renames(r, names, g, g')
    requires forall v :: v in order ==> v in names
    requires RunsTo(g, order, f, s, outcome, processed, final)
    ensures final.Keys == s.initial.Keys
    ensures RunsTo(g', MovedNames(r, order), f, s', outcome, processed, Moved(r, final))
  {
    hide EagerRun, ConstraintsHold, MovesEvent, Moved, MovedEdges, KeepsOrder, Renames;
    forall n: nat | n <= processed
      ensures EagerRun(g, order, f, s.events[..n], s.initial).Keys == s.initial.Keys
      ensures EagerRun(g', MovedNames(r, order), f, s'.events[..n], s'.initial)
           == Moved(r, EagerRun(g, order, f, s.events[..n], s.initial))
    {
      EagerRunMoves(r, names, g, g', order, f, s.events[..n], s'.events[..n], s.initial);
    }
  }

  lemma RejectionMoves(r: Renaming, names: set<string>, f: Formats, s: Scenario, s': Scenario,
                       registered: map<string, PropagationFunction>)
    requires RenamesScenario(r, names, f, s, s')
    ensures IsRejected(s', registered) <==> IsRejected(s, registered)
  {
    hide Cyclic, ConstraintsHold, MovesEvent, Moved, MovedPairs;
    EdgeSetMoves(r, s.edges);
    CyclicMoves(r, names, Cycles.EdgeSet(s.edges));
    forall k | 0 <= k < |s.edges|
      ensures s.edges[k] in s.edges && s'.edges[k] in s'.edges
    {
    }
  }

  lemma RunsToIsUnique(g: Graph, order: seq<string>, f: Formats, s: Scenario,
                       o1: RunOutcome, p1: nat, v1: Values, o2: RunOutcome, p2: nat, v2: Values)
    requires RunsTo(g, order, f, s, o1, p1, v1) && RunsTo(g, order, f, s, o2, p2, v2)
    ensures o1 == o2 && p1 == p2 && v1 == v2
  {
    hide EagerRun, ConstraintsHold;
  }

  /** If the meaning of a scenario and that of its renaming exist, the second is
      the first renamed. */
  lemma MeaningMoves(r: Renaming, names: set<string>, f: Formats, s: Scenario, s': Scenario,
                     registered: map<string, PropagationFunction>,
                     o: RunOutcome, p: nat, v: Values, o': RunOutcome, p': nat, v': Values)
    requires RenamesScenario(r, names, f, s, s')
    requires Means(s, registered, f, o, p, v) && Means(s', registered, f, o', p', v')
    ensures o == o' && p == p' && v.Keys == s.initial.Keys && v' == Moved(r, v)
  {
    hide Cyclic, ConstraintsHold, EagerRun, MovesEvent, Moved, MovedEdges, KeepsOrder, Compiled, CompleteOrder, RunsTo;
    RejectionMoves(r, names, f, s, s', registered);
    if !IsRejected(s, registered) {
      var g, a, sources :| Compiled(g, s.edges, registered, sources) && CompleteOrder(g, a, s.initial)
                           && RunsTo(g, a, f, s, o, p, v);
      var g', b, sources' :| Compiled(g', s'.edges, registered, sources') && CompleteOrder(g', b, s'.initial)
                             && RunsTo(g', b, f, s', o', p', v');
      CompiledFacts(s, registered, g, sources);
      CompiledFacts(s', registered, g', sources');
      CompiledMoves(r, names, s.edges, registered, g, sources, g', sources');
      var order := OrderWithin(g, names, s.initial);
      RunsIgnoreOrder(g, a, order, f, s, o, p, v);
      RunMoves(r, names, g, g', order, f, s, s', o, p, v);
      OrderMoves(r, names, g, g', order, s.initial);
      RunsIgnoreOrder(g', b, MovedNames(r, order), f, s', o', p', v');
      RunsToIsUnique(g', MovedNames(r, order), f, s', o, p, Moved(r, v), o', p', v');
    }
  }

  // ------------------------------------------- every scenario has one meaning

  ghost function Same(): Renaming
  {
    (x: string) => x
  }

  /** All names a scenario mentions outside its constraints. */
  ghost function NamesOf(s: Scenario): set<string>
  {
    s.initial.Keys + Cycles.Sources(s.edges) + Cycles.Targets(s.edges) + AssignedNames(s.events)
  }

  ghost function AssignedNames(events: seq<Event>): set<string>
  {
    set k, a | 0 <= k < |events| && a in EventAssignments(events[k]) :: a.variable
  }

  lemma SameValues(values: Values)
    ensures Moved(Same(), values) == values
  {
  }

  lemma SameEvent(events: seq<Event>, k: nat)
    requires k < |events|
    ensures MovesEvent(Same(), AssignedNames(events), events[k], events[k])
  {
    hide EventAssignments;
    var todo := EventAssignments(events[k]);
    assert MovedTodo(Same(), todo) == todo;
  }

  lemma SameScenario(f: Formats, s: Scenario)
    ensures RenamesScenario(Same(), NamesOf(s), f, s, s)
  {
    hide EventAssignments, ConstraintsHold, Less, Moved, AssignedNames;
    assert MovedEdges(Same(), s.edges) == s.edges;
    forall k | 0 <= k < |s.events|
      ensures MovesEvent(Same(), NamesOf(s), s.events[k], s.events[k])
    {
      SameEvent(s.events, k);
    }
    forall values
      ensures Moved(Same(), values) == values
    {
      SameValues(values);
    }
  }

  lemma MeaningIsUnique(s: Scenario, registered: map<string, PropagationFunction>, f: Formats,
                        o1: RunOutcome, p1: nat, v1: Values, o2: RunOutcome, p2: nat, v2: Values)
    requires Means(s, registered, f, o1, p1, v1) && Means(s, registered, f, o2, p2, v2)
    ensures o1 == o2 && p1 == p2 && v1 == v2
  {
    hide Means, RenamesScenario;
    SameScenario(f, s);
    SameValues(v1);
    MeaningMoves(Same(), NamesOf(s), f, s, s, registered, o1, p1, v1, o2, p2, v2);
  }

  lemma {:induction false} AscendingExists(keys: set<string>) returns (r: seq<string>)
    ensures Ascending(r) && forall k :: k in r <==> k in keys
    decreases |keys|
  {
    hide Less;
    r := [];
    if keys != {} {
      var least := LeastExists(keys);
      var rest := AscendingExists(keys - {least});
      r := [least] + rest;
      forall j | 0 <= j < |rest|
        ensures Less(least, rest[j])
      {
        assert rest[j] in rest;
        LessIsTotal(least, rest[j]);
      }
    }
  }

  lemma {:induction false} NothingComesIn(a: map<string, seq<AdjacencyEntry>>, sources: seq<string>, v: string)
    requires forall u :: u in sources ==> u in a && forall e :: e in a[u] ==> e.target != v
    ensures IncomingInOrder(a, sources, v) == []
  {
    if sources != [] {
      var n := |sources| - 1;
      assert sources[n] in sources;
      NothingComesIn(a, sources[..n], v);
      NothingTo(sources[n], a[sources[n]], v);
    }
  }

  lemma {:induction false} NothingTo(u: string, entries: seq<AdjacencyEntry>, v: string)
    requires forall e :: e in entries ==> e.target != v
    ensures EntriesTo(u, entries, v) == []
  {
    if entries != [] {
      assert entries[|entries| - 1] in entries;
      NothingTo(u, entries[..|entries| - 1], v);
    }
  }

  lemma {:induction false} NothingDeclared(edges: seq<Cycles.DependencyEdge>, u: string)
    requires forall e :: e in edges ==> e.source != u
    ensures Declared(edges, u) == []
  {
    if edges != [] {
      assert edges[|edges| - 1] in edges;
      NothingDeclared(edges[..|edges| - 1], u);
    }
  }

  lemma CompiledExists(edges: seq<Cycles.DependencyEdge>, registered: map<string, PropagationFunction>)
      returns (g: Graph, sources: seq<string>)
    ensures Compiled(g, edges, registered, sources)
  {
    hide Less, Declared, IncomingInOrder;
    sources := AscendingExists(Cycles.Sources(edges));
    var adjacency := map u | u in Cycles.Sources(edges) :: Declared(edges, u);
    forall u | u in sources
      ensures forall e: AdjacencyEntry :: e in adjacency[u] ==> e.target in Cycles.Targets(edges)
    {
      DeclaredMembers(edges, u);
    }
    g := Graph(adjacency, map v | v in Cycles.Targets(edges) :: IncomingInOrder(adjacency, sources, v), registered);
    forall u
      ensures Outgoing(g, u) == Declared(edges, u)
    {
      if u !in Cycles.Sources(edges) {
        NothingDeclared(edges, u);
      }
    }
    forall v
      ensures Incoming(g, v) == IncomingInOrder(adjacency, sources, v)
    {
      if v !in Cycles.Targets(edges) {
        NothingComesIn(adjacency, sources, v);
      }
    }
  }

  lemma MeaningExists(s: Scenario, registered: map<string, PropagationFunction>, f: Formats)
      returns (outcome: RunOutcome, processed: nat, final: Values)
    ensures Means(s, registered, f, outcome, processed, final)
  {
    hide EagerRun, ConstraintsHold, CompleteOrder, Compiled, Cyclic;
    outcome, processed, final := Rejected, 0, s.initial;
    if !IsRejected(s, registered) {
      var g, sources := CompiledExists(s.edges, registered);
      CompiledFacts(s, registered, g, sources);
      var order := CompleteOrderExists(g, s.initial);
      final := EagerRun(g, order, f, s.events[..0], s.initial);
      while processed < |s.events| && ConstraintsHold(f, s.programs, final)
        invariant processed <= |s.events| && final == EagerRun(g, order, f, s.events[..processed], s.initial)
        invariant forall n: nat :: n < processed ==>
                    ConstraintsHold(f, s.programs, EagerRun(g, order, f, s.events[..n], s.initial))
      {
        processed := processed + 1;
        final := EagerRun(g, order, f, s.events[..processed], s.initial);
      }
      outcome := if ConstraintsHold(f, s.programs, final) then Completed else ConstraintFailed;
      assert RunsTo(g, order, f, s, outcome, processed, final);
    }
  }

  /** Renaming the variables of a scenario renames its meaning. */
  lemma RenamingRenamesMeaning(r: Renaming, names: set<string>, f: Formats, s: Scenario, s': Scenario,
                               registered: map<string, PropagationFunction>, o: RunOutcome, p: nat, v: Values)
    requires RenamesScenario(r, names, f, s, s') && Means(s, registered, f, o, p, v)
    ensures v.Keys == s.initial.Keys && Means(s', registered, f, o, p, Moved(r, v))
  {
    hide Means, RenamesScenario;
    var o', p', v' := MeaningExists(s', registered, f);
    MeaningMoves(r, names, f, s, s', registered, o, p, v, o', p', v');
  }
}

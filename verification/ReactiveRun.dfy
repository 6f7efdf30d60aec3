/** The v1 run: event payloads change variables and invalidate what depends on
    them, then every stale variable is pulled (src/noisiax.cpp, run_scenario
    and apply_event_payload). */
module ReactiveRun {
  import opened Walks
  import opened Optional
  import opened StringOrder
  import opened VariableStore
  import opened DependencyEngine
  import Cycles = CycleDetection
  import Constraints = ConstraintExpression
  import Parsing = ConstraintParser

  /** The text conversion of the C++ library, left abstract. */
  datatype Formats = Formats(parseNumber: string -> Option<real>)

  datatype Event = Event(eventType: string, timestamp: real, payload: map<string, string>)

  /** One variable update requested by a payload. */
  datatype Assignment = Assignment(variable: string, text: string, additive: bool)

  datatype RunOutcome = Completed | ConstraintFailed | EngineFailed(error: PullResult) | Rejected

  function Lower(c: char): char
  {
    if 'A' <= c <= 'Z' then (c as int + 32) as char else c
  }

  function LowerText(s: string): string
  {
    seq(|s|, i requires 0 <= i < |s| => Lower(s[i]))
  }

  function ParseBool(text: string): Option<bool>
  {
    var t := LowerText(text);
    if t == "true" || t == "1" || t == "yes" then Some(true)
    else if t == "false" || t == "0" || t == "no" then Some(false)
    else None
  }

  /** The slot content after storing text, if the text fits the type. */
  function SlotFromText(f: Formats, slot: Scalar, text: string): Option<Scalar>
  {
    match slot
    case TextValue(_) => Some(TextValue(text))
    case BoolValue(_) => (match ParseBool(text) case Some(b) => Some(BoolValue(b)) case None => None)
    case _ => (match f.parseNumber(text) case Some(x) => Some(Coerce(slot, x)) case None => None)
  }

  /** The new slot content an assignment asks for, or None when it is ignored. */
  function AssignedSlot(f: Formats, a: Assignment, values: Values): Option<Scalar>
  {
    if a.variable !in values then None
    else if !a.additive then SlotFromText(f, values[a.variable], a.text)
    else if f.parseNumber(a.text).None? || values[a.variable].TextValue? then None
    else Some(Coerce(values[a.variable], AsNumber(values[a.variable]) + f.parseNumber(a.text).value))
  }

  function AssignAll(f: Formats, todo: seq<Assignment>, values: Values): Values
  {
    if todo == [] then values
    else
      var last := todo[|todo| - 1];
      var before := AssignAll(f, todo[..|todo| - 1], values);
      match AssignedSlot(f, last, before)
      case Some(slot) => before[last.variable := slot]
      case None => before
  }

  /** The variables an assignment list really changes. */
  function Touched(f: Formats, todo: seq<Assignment>, values: Values): set<string>
  {
    if todo == [] then {}
    else
      var last := todo[|todo| - 1];
      var init := todo[..|todo| - 1];
      Touched(f, init, values) +
      if AssignedSlot(f, last, AssignAll(f, init, values)).Some? then {last.variable} else {}
  }

  function Lookup(payload: map<string, string>, first: string, second: string): Option<string>
  {
    if first in payload then Some(payload[first])
    else if second in payload then Some(payload[second])
    else None
  }

  /** The assignments a payload asks for, in the order they are carried out. */
  function Requested(payload: map<string, string>): seq<Assignment>
  {
    var id := Lookup(payload, "variable_id", "target_variable");
    var value := Lookup(payload, "value", "new_value");
    (if id.Some? && value.Some? then [Assignment(id.value, value.value, false)] else []) +
    (if id.Some? && "delta" in payload then [Assignment(id.value, payload["delta"], true)] else []) +
    (if "action" !in payload then []
     else if payload["action"] == "update_demand" then
       if "new_value" in payload then [Assignment("var_demand", payload["new_value"], false)] else []
     else if payload["action"] == "apply_promotion" && "discount_increase" in payload then
       [Assignment("var_discount_rate", payload["discount_increase"], true)]
     else [])
  }

  predicate HasCallback(eventType: string)
  {
    eventType in {"SCHEDULED", "TRIGGERED", "CONDITIONAL"}
  }

  function EventAssignments(ev: Event): seq<Assignment>
  {
    if HasCallback(ev.eventType) then Requested(ev.payload) else []
  }

  // ------------------------------------------------------------- constraints

  datatype Enforcement = Reject | Warn | AutoCorrect

  datatype ConstraintProgram = ConstraintProgram(expression: string, level: Enforcement)

  /** The numbers a constraint can name: every variable that is not text. */
  function EnvironmentOf(f: Formats, values: Values): Constraints.Environment
  {
    Constraints.Environment(
      id => if id in values && !values[id].TextValue? then Some(AsNumber(values[id])) else None,
      f.parseNumber)
  }

  /** A constraint lets the run go on unless it fails to evaluate, or is false
      and enforced by rejection. */
  predicate Passes(f: Formats, p: ConstraintProgram, values: Values)
  {
    match Constraints.Holds(EnvironmentOf(f, values), p.expression)
    case None => false
    case Some(truth) => truth || !p.level.Reject?
  }

  predicate ConstraintsHold(f: Formats, programs: seq<ConstraintProgram>, values: Values)
  {
    forall p :: p in programs ==> Passes(f, p, values)
  }

  method EnforceConstraints(f: Formats, programs: seq<ConstraintProgram>, values: Values) returns (ok: bool)
    ensures ok <==> ConstraintsHold(f, programs, values)
  {
    for i := 0 to |programs|
      invariant forall j :: 0 <= j < i ==> Passes(f, programs[j], values)
    {
      var parser := new Parsing.Parser(programs[i].expression, EnvironmentOf(f, values));
      var passed := parser.Evaluate();
      if passed.None? || (!passed.value && programs[i].level.Reject?) {
        assert programs[i] in programs && !Passes(f, programs[i], values);
        return false;
      }
    }
    ok := true;
  }

  ghost predicate ReachedFrom(g: Graph, sources: set<string>, v: string)
  {
    exists u :: u in sources && Reaches(Pairs(g), u, v)
  }

  // ------------------------------------------------------------ eager meaning

  /** What an event means: carry out its assignments, then re-evaluate every
      variable downstream of a changed one in topological order. */
  ghost function EagerEvent(g: Graph, order: seq<string>, f: Formats, ev: Event, values: Values): Values
  {
    var todo := EventAssignments(ev);
    var changed := Touched(f, todo, values);
    EagerPass(g, order, (set v | v in order && ReachedFrom(g, changed, v)), AssignAll(f, todo, values))
  }

  ghost function EagerRun(g: Graph, order: seq<string>, f: Formats, events: seq<Event>, values: Values): Values
  {
    if events == [] then values
    else EagerEvent(g, order, f, events[|events| - 1], EagerRun(g, order, f, events[..|events| - 1], values))
  }

  ghost predicate CompleteOrder(g: Graph, order: seq<string>, values: Values)
  {
    && Topological(g, order)
    && (forall v :: v in values ==> v in order)
    && (forall e :: e in Pairs(g) ==> e.0 in order && e.1 in order)
  }

  lemma ReachedIsOrdered(g: Graph, order: seq<string>, values: Values, sources: set<string>, v: string)
    requires CompleteOrder(g, order, values) && sources <= values.Keys
    requires ReachedFrom(g, sources, v)
    ensures v in order
  {
    var u :| u in sources && Reaches(Pairs(g), u, v);
    ReachStaysInside(Pairs(g), (set x | x in order), u, v);
  }

  lemma EagerRunStart(g: Graph, order: seq<string>, f: Formats, values: Values)
    ensures EagerRun(g, order, f, [], values) == values
  {
  }

  lemma EagerRunStep(g: Graph, order: seq<string>, f: Formats, events: seq<Event>, n: nat, values: Values)
    requires n < |events|
    ensures EagerRun(g, order, f, events[..n + 1], values)
         == EagerEvent(g, order, f, events[n], EagerRun(g, order, f, events[..n], values))
  {
    assert events[..n + 1][..n] == events[..n];
  }

  lemma ReachedKeepsClosed(g: Graph, before: set<string>, sources: set<string>, after: set<string>)
    requires DownstreamClosed(g, before)
    requires forall v :: v in after <==> v in before || ReachedFrom(g, sources, v)
    ensures DownstreamClosed(g, after)
  {
    forall e | e in Pairs(g) && e.0 in after && e.0 !in before
      ensures e.1 in after
    {
      var u :| u in sources && Reaches(Pairs(g), u, e.0);
      assert (e.0, e.1) in Pairs(g);
      EdgeReaches(Pairs(g), e.0, e.1);
      ReachesTransitive(Pairs(g), u, e.0, e.1);
    }
  }

  lemma TouchedAreVariables(f: Formats, todo: seq<Assignment>, values: Values)
    ensures Touched(f, todo, values) <= values.Keys
    ensures AssignAll(f, todo, values).Keys == values.Keys
  {
  }

  /** One processed event: the lazily pulled state is the eager one. */
  lemma LazyEventIsEager(g: Graph, order: seq<string>, f: Formats, ev: Event, start: Values, pushed: View,
                         after: Values)
    requires Mirrored(g) && !Cyclic(Pairs(g)) && CompleteOrder(g, order, start)
    requires pushed.values == AssignAll(f, EventAssignments(ev), start)
    requires forall v :: v in pushed.stale <==> ReachedFrom(g, Touched(f, EventAssignments(ev), start), v)
    requires Settled(g, pushed, after)
    ensures after == EagerEvent(g, order, f, ev, start)
  {
    var changed := Touched(f, EventAssignments(ev), start);
    TouchedAreVariables(f, EventAssignments(ev), start);
    forall v | v in pushed.stale
      ensures v in order
    {
      ReachedIsOrdered(g, order, start, changed, v);
    }
    assert pushed.stale == set v | v in order && ReachedFrom(g, changed, v);
    LazyEqualsEager(g, order, pushed, after);
  }

  // ------------------------------------------------------------------- run

  class ScenarioRun {
    const graph: DependencyGraph
    const state: SimulationState
    const formats: Formats

    constructor (graph: DependencyGraph, state: SimulationState, formats: Formats)
      ensures this.graph == graph && this.state == state && this.formats == formats
    {
      this.graph := graph;
      this.state := state;
      this.formats := formats;
    }

    method SetVariableFromPayload(a: Assignment)
      modifies state`values, state`staleFlags
      ensures var slot := AssignedSlot(formats, a, old(state.values));
              && state.values == (if slot.Some? then old(state.values)[a.variable := slot.value] else old(state.values))
              && forall v :: v in state.Picture().stale <==>
                   v in old(state.Picture().stale) || (slot.Some? && Reaches(Pairs(graph.Snapshot()), a.variable, v))
    {
      if a.variable !in state.values {
        return;
      }
      var current := state.values[a.variable];
      if a.additive {
        var delta := formats.parseNumber(a.text);
        if delta.None? || current.TextValue? {
          return;
        }
        state.values := state.values[a.variable := Coerce(current, AsNumber(current) + delta.value)];
        graph.PushInvalidation(a.variable, state);
      } else {
        var slot := SlotFromText(formats, current, a.text);
        if slot.Some? {
          state.values := state.values[a.variable := slot.value];
          graph.PushInvalidation(a.variable, state);
        }
      }
    }

    method ApplyAssignments(todo: seq<Assignment>)
      modifies state`values, state`staleFlags
      ensures old(DownstreamClosed(graph.Snapshot(), state.Picture().stale)) ==>
                DownstreamClosed(graph.Snapshot(), state.Picture().stale)
      ensures state.values == AssignAll(formats, todo, old(state.values))
      ensures forall v :: v in state.Picture().stale <==>
                || v in old(state.Picture().stale)
                || ReachedFrom(graph.Snapshot(), Touched(formats, todo, old(state.values)), v)
    {
      for i := 0 to |todo|
        invariant state.values == AssignAll(formats, todo[..i], old(state.values))
        invariant forall v :: v in state.Picture().stale <==>
                    || v in old(state.Picture().stale)
                    || ReachedFrom(graph.Snapshot(), Touched(formats, todo[..i], old(state.values)), v)
      {
        assert todo[..i + 1][..i] == todo[..i];
        SetVariableFromPayload(todo[i]);
      }
      assert todo[..|todo|] == todo;
      if old(DownstreamClosed(graph.Snapshot(), state.Picture().stale)) {
        ReachedKeepsClosed(graph.Snapshot(), old(state.Picture().stale),
                           Touched(formats, todo, old(state.values)), state.Picture().stale);
      }
    }

    /** Pulls every stale variable, in whatever order they are listed. */
    method PullStale() returns (error: PullResult)
      requires Mirrored(graph.Snapshot())
      modifies state
      ensures state.currentTime == old(state.currentTime)
      ensures error.CycleDetected? ==> Cyclic(Pairs(graph.Snapshot()))
      ensures error.MissingFunction? ==> !AllRegistered(graph.Snapshot())
      ensures error.Done? ==> state.Picture().stale == {}
      ensures error.Done? ==> Settled(graph.Snapshot(), old(state.Picture()), state.values)
    {
      ghost var pushed := state.Picture();
      var stale := set v | v in state.staleFlags && state.staleFlags[v];
      while stale != {}
        invariant state.currentTime == old(state.currentTime)
        invariant Progress(graph.Snapshot(), pushed, state.Picture())
        invariant forall v :: v in state.Picture().stale ==> v in stale
        invariant DownstreamClosed(graph.Snapshot(), pushed.stale) ==>
                    DownstreamClosed(graph.Snapshot(), state.Picture().stale)
        decreases stale
      {
        var v :| v in stale;
        ghost var before := state.Picture();
        error := graph.PullRecompute(v, state);
        if !error.Done? {
          return;
        }
        ProgressTransitive(graph.Snapshot(), pushed, before, state.Picture());
        if DownstreamClosed(graph.Snapshot(), before.stale) {
          ProgressKeepsClosed(graph.Snapshot(), before, state.Picture());
        }
        stale := stale - {v};
      }
      ProgressSettles(graph.Snapshot(), pushed, state.Picture());
      error := Done(true);
    }

    /** Handles one event and pulls everything it made stale. */
    method ProcessEvent(ev: Event, ghost order: seq<string>) returns (error: PullResult)
      requires Mirrored(graph.Snapshot()) && state.Picture().stale == {}
      requires CompleteOrder(graph.Snapshot(), order, state.values)
      modifies state
      ensures error.CycleDetected? ==> Cyclic(Pairs(graph.Snapshot()))
      ensures error.MissingFunction? ==> !AllRegistered(graph.Snapshot())
      ensures error.Done? ==> state.Picture().stale == {} && state.values.Keys == old(state.values.Keys)
      ensures error.Done? && !Cyclic(Pairs(graph.Snapshot())) ==>
                state.values == EagerEvent(graph.Snapshot(), order, formats, ev, old(state.values))
      ensures error.Done? && HasCallback(ev.eventType) ==> state.currentTime == ev.timestamp
      ensures error.Done? && !HasCallback(ev.eventType) ==> state.currentTime == old(state.currentTime)
    {
      ghost var start := state.values;
      if HasCallback(ev.eventType) {
        ApplyAssignments(Requested(ev.payload));
        state.currentTime := ev.timestamp;
      }
      ghost var pushed := state.Picture();
      error := PullStale();
      TouchedAreVariables(formats, EventAssignments(ev), start);
      if error.Done? && !Cyclic(Pairs(graph.Snapshot())) {
        LazyEventIsEager(graph.Snapshot(), order, formats, ev, start, pushed, state.values);
      }
    }

    /** The run loop.  For every graph without a cycle whose functions are
        registered the engine never fails, nothing is stale between events, the
        values are those of the eager meaning after every processed prefix, and
        the constraints held after every prefix but perhaps the last. */
    method Run(events: seq<Event>, programs: seq<ConstraintProgram>, ghost order: seq<string>)
        returns (outcome: RunOutcome, processed: nat)
      requires Mirrored(graph.Snapshot()) && state.Picture().stale == {}
      requires CompleteOrder(graph.Snapshot(), order, state.values)
      modifies state
      ensures processed <= |events| && !outcome.Rejected?
      ensures outcome.EngineFailed? ==> Cyclic(Pairs(graph.Snapshot())) || !AllRegistered(graph.Snapshot())
      ensures !outcome.EngineFailed? ==> state.Picture().stale == {}
      ensures !outcome.EngineFailed? && !Cyclic(Pairs(graph.Snapshot())) ==>
                state.values == EagerRun(graph.Snapshot(), order, formats, events[..processed], old(state.values))
      ensures !Cyclic(Pairs(graph.Snapshot())) ==> forall n: nat :: n < processed ==>
                ConstraintsHold(formats, programs,
                                EagerRun(graph.Snapshot(), order, formats, events[..n], old(state.values)))
      ensures outcome.Completed? ==> processed == |events| && ConstraintsHold(formats, programs, state.values)
      ensures outcome.ConstraintFailed? ==> !ConstraintsHold(formats, programs, state.values)
    {
      hide EagerRun, EagerEvent, Topological, AllRegistered, Mirrored, Pairs, ConstraintsHold;
      ghost var g, start := graph.Snapshot(), state.values;
      processed := 0;
      EagerRunStart(g, order, formats, start);
      var ok := EnforceConstraints(formats, programs, state.values);
      if !ok {
        return ConstraintFailed, processed;
      }
      while processed < |events|
        invariant graph.Snapshot() == g
        invariant processed <= |events| && state.Picture().stale == {}
                  && ConstraintsHold(formats, programs, state.values)
        invariant state.values.Keys == start.Keys
        invariant !Cyclic(Pairs(g)) ==> state.values == EagerRun(g, order, formats, events[..processed], start)
        invariant !Cyclic(Pairs(g)) ==> forall n: nat :: n < processed ==>
                    ConstraintsHold(formats, programs, EagerRun(g, order, formats, events[..n], start))
      {
        var error := ProcessEvent(events[processed], order);
        if !error.Done? {
          return EngineFailed(error), processed;
        }
        EagerRunStep(g, order, formats, events, processed, start);
        processed := processed + 1;
        ok := EnforceConstraints(formats, programs, state.values);
        if !ok {
          return ConstraintFailed, processed;
        }
      }
      assert events[..|events|] == events;
      outcome := Completed;
    }
  }

  // ------------------------------------------------- validate, compile, run

  /** The outgoing edges of a variable, in declaration order. */
  function Declared(edges: seq<Cycles.DependencyEdge>, source: string): seq<AdjacencyEntry>
  {
    if edges == [] then []
    else
      var last := edges[|edges| - 1];
      Declared(edges[..|edges| - 1], source) +
      if last.source == source then [AdjacencyEntry(last.target, last.functionId, last.weight)] else []
  }

  lemma {:induction false} DeclaredMembers(edges: seq<Cycles.DependencyEdge>, source: string)
    ensures forall e :: e in Declared(edges, source) <==>
              Cycles.DependencyEdge(source, e.target, e.functionId, e.weight) in edges
  {
    if edges != [] {
      assert edges == edges[..|edges| - 1] + [edges[|edges| - 1]];
      DeclaredMembers(edges[..|edges| - 1], source);
    }
  }

  lemma DeclaredNothing()
    ensures forall u :: Declared([], u) == []
  {
  }

  lemma DeclaredStep(edges: seq<Cycles.DependencyEdge>, i: nat)
    requires i < |edges|
    ensures var last := edges[i];
            forall u :: Declared(edges[..i + 1], u) == Declared(edges[..i], u) +
              if last.source == u then [AdjacencyEntry(last.target, last.functionId, last.weight)] else []
  {
    assert edges[..i + 1][..i] == edges[..i];
  }

  /** Compiles the edge list; an unregistered function id is an error. */
  method BuildAdjacencyLists(edges: seq<Cycles.DependencyEdge>, registered: map<string, PropagationFunction>)
      returns (adjacency: Option<map<string, seq<AdjacencyEntry>>>)
    ensures adjacency.None? <==> exists e :: e in edges && e.functionId !in registered
    ensures adjacency.Some? ==>
              && adjacency.value.Keys == Cycles.Sources(edges)
              && forall u :: Declared(edges, u) == if u in adjacency.value then adjacency.value[u] else []
  {
    hide Declared, Cycles.Sources, Cycles.Targets, Cycles.EdgeSet;
    var lists: map<string, seq<AdjacencyEntry>> := map[];
    DeclaredNothing();
    Cycles.NoEdges();
    for i := 0 to |edges|
      invariant forall j :: 0 <= j < i ==> edges[j].functionId in registered
      invariant lists.Keys == Cycles.Sources(edges[..i])
      invariant forall u :: Declared(edges[..i], u) == if u in lists then lists[u] else []
    {
      var e := edges[i];
      DeclaredStep(edges, i);
      Cycles.OneMoreEdge(edges, i);
      if e.functionId !in registered {
        return None;
      }
      lists := lists[e.source := (if e.source in lists then lists[e.source] else []) +
                                 [AdjacencyEntry(e.target, e.functionId, e.weight)]];
    }
    assert edges[..|edges|] == edges;
    adjacency := Some(lists);
  }

  lemma CompiledPairs(g: Graph, edges: seq<Cycles.DependencyEdge>)
    requires forall u :: Outgoing(g, u) == Declared(edges, u)
    ensures Pairs(g) == Cycles.EdgeSet(edges)
  {
    forall u
      ensures forall e :: e in Outgoing(g, u) <==>
                Cycles.DependencyEdge(u, e.target, e.functionId, e.weight) in edges
    {
      DeclaredMembers(edges, u);
    }
    forall e | e in edges
      ensures (e.source, e.target) in Pairs(g)
    {
      assert AdjacencyEntry(e.target, e.functionId, e.weight) in Outgoing(g, e.source);
    }
    forall pair | pair in Pairs(g)
      ensures pair in Cycles.EdgeSet(edges)
    {
      var u, a :| u in g.adjacency && a in g.adjacency[u] && pair == (u, a.target);
      assert a in Outgoing(g, u);
    }
  }

  /** What the composer hands to the runtime: the edges between variables, their
      first values, the events in scheduling order and the constraints. */
  datatype Scenario = Scenario(edges: seq<Cycles.DependencyEdge>, initial: Values, events: seq<Event>,
                               programs: seq<ConstraintProgram>)

  /** The graph of an edge list: forward lists in declaration order, reverse lists
      source by source in ascending order, and the registered functions. */
  ghost predicate Compiled(g: Graph, edges: seq<Cycles.DependencyEdge>, registered: map<string, PropagationFunction>,
                           sources: seq<string>)
  {
    && Ascending(sources) && (forall u :: u in sources <==> u in Cycles.Sources(edges))
    && g.functions == registered && g.adjacency.Keys == Cycles.Sources(edges)
    && (forall u :: Outgoing(g, u) == Declared(edges, u))
    && forall v :: Incoming(g, v) == IncomingInOrder(g.adjacency, sources, v)
  }

  ghost predicate IsRejected(s: Scenario, registered: map<string, PropagationFunction>)
  {
    Cyclic(Cycles.EdgeSet(s.edges)) || exists e :: e in s.edges && e.functionId !in registered
  }

  /** The engine went through a number of events with their eager meaning, the
      constraints holding before each; it stopped after the last event or at a
      failed constraint. */
  ghost predicate RunsTo(g: Graph, order: seq<string>, f: Formats, s: Scenario,
                         outcome: RunOutcome, processed: nat, final: Values)
  {
    && processed <= |s.events|
    && final == EagerRun(g, order, f, s.events[..processed], s.initial)
    && (forall n: nat :: n < processed ==>
         ConstraintsHold(f, s.programs, EagerRun(g, order, f, s.events[..n], s.initial)))
    && (if ConstraintsHold(f, s.programs, final) then outcome == Completed && processed == |s.events|
        else outcome == ConstraintFailed)
  }

  /** What running a scenario means, without stale flags, pushes and pulls. */
  ghost predicate Means(s: Scenario, registered: map<string, PropagationFunction>, f: Formats,
                        outcome: RunOutcome, processed: nat, final: Values)
  {
    if IsRejected(s, registered) then outcome == Rejected && processed == 0 && final == s.initial
    else exists g, order, sources ::
      && Compiled(g, s.edges, registered, sources) && CompleteOrder(g, order, s.initial)
      && RunsTo(g, order, f, s, outcome, processed, final)
  }

  /** The whole v1 pipeline.  A scenario is rejected exactly when its edges
      contain a cycle or name an unknown function; an accepted one never fails
      inside the engine. */
  method RunScenario(s: Scenario, registered: map<string, PropagationFunction>, handles: Handles, formats: Formats)
      returns (outcome: RunOutcome, processed: nat, final: Values, ghost g: Graph, ghost sources: seq<string>)
    requires WellTyped(handles, s.initial)
    ensures Means(s, registered, formats, outcome, processed, final)
    ensures outcome.Rejected? <==> IsRejected(s, registered)
    ensures !outcome.Rejected? ==> Compiled(g, s.edges, registered, sources) && Mirrored(g)
    ensures !outcome.Rejected? ==> forall order :: CompleteOrder(g, order, s.initial) ==>
              RunsTo(g, order, formats, s, outcome, processed, final)
  {
    hide EagerRun, ConstraintsHold, CompleteOrder, Mirrored, Cyclic, Pairs, AllRegistered, Declared, IncomingInOrder;
    processed, final, g, sources := 0, s.initial, Graph(map[], map[], map[]), [];
    var search := new Cycles.CycleSearch();
    var cyclic := search.DetectCycle(s.edges);
    var compiled := BuildAdjacencyLists(s.edges, registered);
    if cyclic || compiled.None? {
      return Rejected, processed, final, g, sources;
    }
    var keys := AscendingKeys(compiled.value.Keys);
    var graph := new DependencyGraph();
    graph.BuildFromCompiled(compiled.value, keys, registered);
    g, sources := graph.Snapshot(), keys;
    CompiledPairs(g, s.edges);
    AllEdgesRegistered(g, s.edges, registered);
    assert Compiled(g, s.edges, registered, sources);
    var state := new SimulationState(handles, s.initial);
    var run := new ScenarioRun(graph, state, formats);
    ghost var order := CompleteOrderExists(g, s.initial);
    outcome, processed := run.Run(s.events, s.programs, order);
    final := state.values;
    assert RunsTo(g, order, formats, s, outcome, processed, final);
    forall other | CompleteOrder(g, other, s.initial)
      ensures RunsTo(g, other, formats, s, outcome, processed, final)
    {
      RunsIgnoreOrder(g, order, other, formats, s, outcome, processed, final);
    }
  }

  lemma RunsIgnoreOrder(g: Graph, a: seq<string>, b: seq<string>, f: Formats, s: Scenario,
                        outcome: RunOutcome, processed: nat, final: Values)
    requires Mirrored(g) && !Cyclic(Pairs(g))
    requires CompleteOrder(g, a, s.initial) && CompleteOrder(g, b, s.initial)
    requires RunsTo(g, a, f, s, outcome, processed, final)
    ensures RunsTo(g, b, f, s, outcome, processed, final)
  {
    hide EagerRun, ConstraintsHold, CompleteOrder, Mirrored, Cyclic;
    EagerRunIgnoresOrder(g, a, b, f, s.events[..processed], s.initial);
    forall n: nat | n < processed
      ensures ConstraintsHold(f, s.programs, EagerRun(g, b, f, s.events[..n], s.initial))
    {
      EagerRunIgnoresOrder(g, a, b, f, s.events[..n], s.initial);
    }
  }

  lemma AllEdgesRegistered(g: Graph, edges: seq<Cycles.DependencyEdge>, registered: map<string, PropagationFunction>)
    requires forall u :: Outgoing(g, u) == Declared(edges, u)
    requires forall v, e: ReverseEntry ::
               multiset(Incoming(g, v))[e] == multiset(Outgoing(g, e.source))[AdjacencyEntry(v, e.functionId, e.weight)]
    requires forall e :: e in edges ==> e.functionId in registered
    requires g.functions == registered
    ensures AllRegistered(g)
  {
    forall v, e | v in g.reverse && e in g.reverse[v]
      ensures e.functionId in g.functions
    {
      assert e in Incoming(g, v);
      assert multiset(Incoming(g, v))[e] > 0;
      assert AdjacencyEntry(v, e.functionId, e.weight) in Outgoing(g, e.source);
      DeclaredMembers(edges, e.source);
    }
  }

  lemma CompleteOrderExists(g: Graph, values: Values) returns (order: seq<string>)
    requires !Cyclic(Pairs(g))
    ensures CompleteOrder(g, order, values)
  {
    var nodes := values.Keys + (set e | e in Pairs(g) :: e.0) + (set e | e in Pairs(g) :: e.1);
    order := TopologicalOrderExists(g, nodes);
  }

  /** The eager meaning does not depend on the topological order chosen. */
  lemma {:induction false} EagerRunIgnoresOrder(g: Graph, a: seq<string>, b: seq<string>, f: Formats,
                                                events: seq<Event>, values: Values)
    requires Mirrored(g) && !Cyclic(Pairs(g))
    requires CompleteOrder(g, a, values) && CompleteOrder(g, b, values)
    ensures EagerRun(g, a, f, events, values) == EagerRun(g, b, f, events, values)
    ensures EagerRun(g, a, f, events, values).Keys == values.Keys
  {
    if events != [] {
      EagerRunIgnoresOrder(g, a, b, f, events[..|events| - 1], values);
      var start := EagerRun(g, a, f, events[..|events| - 1], values);
      var ev := events[|events| - 1];
      var changed := Touched(f, EventAssignments(ev), start);
      TouchedAreVariables(f, EventAssignments(ev), start);
      var stale := set v | v in a && ReachedFrom(g, changed, v);
      forall v | ReachedFrom(g, changed, v)
        ensures v in a && v in b
      {
        ReachedIsOrdered(g, a, start, changed, v);
        ReachedIsOrdered(g, b, start, changed, v);
      }
      var pushed := View(AssignAll(f, EventAssignments(ev), start), stale, multiset{});
      var after := EagerProgress(g, a, pushed);
      ProgressSettles(g, pushed, after);
      LazyEventIsEager(g, b, f, ev, start, pushed, after.values);
    }
  }
}

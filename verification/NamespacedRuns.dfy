/** What namespacing an import does to its runs: every variable gets a prefix, in
    the edges, the constraints and the payloads of events
    (src/experiment/scenario_resolver.cpp, prefix_fragment).  The two payload
    actions that name their variable themselves are not renamed. */
module NamespacedRuns {
  import opened Optional
  import opened Lexical
  import opened StringOrder
  import opened VariableStore
  import opened DependencyEngine
  import opened ReactiveRun
  import opened RenamedRuns
  import opened Namespacing
  import Cycles = CycleDetection
  import Scanning
  import Walks

  ghost function Prefixing(ns: string, ids: set<string>): Renaming
  {
    (id: string) => Renamed(PrefixMap(ns, ids), id)
  }

  function PrefixedEdge(m: map<string, string>, e: Cycles.DependencyEdge): Cycles.DependencyEdge
  {
    e.(source := Renamed(m, e.source), target := Renamed(m, e.target))
  }

  function PrefixedProgram(m: map<string, string>, p: ConstraintProgram): ConstraintProgram
  {
    p.(expression := Rewrite(m, p.expression))
  }

  predicate NamesVariable(key: string)
  {
    key == "variable_id" || key == "target_variable"
  }

  function PrefixedPayload(m: map<string, string>, payload: map<string, string>): map<string, string>
  {
    map key | key in payload :: if NamesVariable(key) then Renamed(m, payload[key]) else payload[key]
  }

  function PrefixedEvent(m: map<string, string>, ev: Event): Event
  {
    ev.(payload := PrefixedPayload(m, ev.payload))
  }

  lemma PrefixingIsInjective(ns: string, ids: set<string>, names: set<string>)
    requires forall v :: v in names ==> !IsTaken(ns, ids, v)
    ensures Injective(Prefixing(ns, ids), names)
  {
    var r := Prefixing(ns, ids);
    forall a, b | a in names && b in names && r(a) == r(b)
      ensures a == b
    {
      if a in ids && b in ids {
        SamePrefix(ns, a, b);
      }
    }
  }

  lemma SamePrefix(ns: string, a: string, b: string)
    requires PrefixId(ns, a) == PrefixId(ns, b)
    ensures a == b
  {
    if ns != "" {
      var k := |ns + "__"|;
      assert PrefixId(ns, a)[k..] == a && PrefixId(ns, b)[k..] == b;
    }
  }

  lemma IdsAreFree(ns: string, ids: set<string>)
    ensures Injective(Prefixing(ns, ids), ids)
  {
    PrefixingIsInjective(ns, ids, ids);
  }

  /** The namespaced scenario. */
  ghost function Prefixed(ns: string, s: Scenario): Scenario
  {
    var m := PrefixMap(ns, s.initial.Keys);
    IdsAreFree(ns, s.initial.Keys);
    Scenario(seq(|s.edges|, i requires 0 <= i < |s.edges| => PrefixedEdge(m, s.edges[i])),
             Moved(Prefixing(ns, s.initial.Keys), s.initial),
             seq(|s.events|, i requires 0 <= i < |s.events| => PrefixedEvent(m, s.events[i])),
             seq(|s.programs|, i requires 0 <= i < |s.programs| => PrefixedProgram(m, s.programs[i])))
  }

  // -------------------------------------------------------------- the composer

  method IsValidNamespace(ns: string) returns (ok: bool)
    ensures ok <==> IsWord(ns)
  {
    if ns == "" || !IsWordStart(ns[0]) {
      return false;
    }
    var i := Scanning.EndOfWord(ns, 0);
    assert ns[0..] == ns;
    ok := i == |ns|;
  }

  method PrefixValues(ns: string, values: Values) returns (moved: Values)
    ensures Injective(Prefixing(ns, values.Keys), values.Keys)
    ensures moved == Moved(Prefixing(ns, values.Keys), values)
  {
    IdsAreFree(ns, values.Keys);
    ghost var r := Prefixing(ns, values.Keys);
    moved := map[];
    var todo := values.Keys;
    while todo != {}
      invariant todo <= values.Keys
      invariant moved.Keys == set v | v in values.Keys - todo :: r(v)
      invariant forall v :: v in values.Keys - todo ==> moved[r(v)] == values[v]
      decreases todo
    {
      var v :| v in todo;
      assert PrefixId(ns, v) == r(v);
      moved := moved[PrefixId(ns, v) := values[v]];
      todo := todo - {v};
    }
  }

  method PrefixPayload(m: map<string, string>, payload: map<string, string>) returns (moved: map<string, string>)
    ensures moved == PrefixedPayload(m, payload)
  {
    moved := payload;
    var todo := payload.Keys;
    while todo != {}
      invariant todo <= payload.Keys == moved.Keys
      invariant forall key :: key in payload ==>
                  moved[key] == if key in todo then payload[key] else PrefixedPayload(m, payload)[key]
      decreases todo
    {
      var key :| key in todo;
      if key == "variable_id" || key == "target_variable" {
        if payload[key] in m {
          moved := moved[key := m[payload[key]]];
        }
      }
      todo := todo - {key};
    }
  }

  /** Renames a fragment in place, kind by kind; None for an invalid namespace. */
  method PrefixFragment(ns: string, s: Scenario) returns (r: Option<Scenario>)
    ensures r == if IsWord(ns) then Some(Prefixed(ns, s)) else None
  {
    hide Rewrite, Renamed, Moved, IsWord, PrefixedPayload;
    var ok := IsValidNamespace(ns);
    if !ok {
      return None;
    }
    var m := PrefixMap(ns, s.initial.Keys);
    var initial := PrefixValues(ns, s.initial);
    var edges := s.edges;
    for i := 0 to |edges|
      invariant |edges| == |s.edges|
      invariant forall j :: 0 <= j < |edges| ==> edges[j] == if j < i then PrefixedEdge(m, s.edges[j]) else s.edges[j]
    {
      edges := edges[i := edges[i].(source := Renamed(m, edges[i].source), target := Renamed(m, edges[i].target))];
    }
    var programs := s.programs;
    for i := 0 to |programs|
      invariant |programs| == |s.programs|
      invariant forall j :: 0 <= j < |programs| ==>
                  programs[j] == if j < i then PrefixedProgram(m, s.programs[j]) else s.programs[j]
    {
      var expression := RewriteSimpleIdentifiers(programs[i].expression, m);
      programs := programs[i := programs[i].(expression := expression)];
    }
    var events := s.events;
    for i := 0 to |events|
      invariant |events| == |s.events|
      invariant forall j :: 0 <= j < |events| ==>
                  events[j] == if j < i then PrefixedEvent(m, s.events[j]) else s.events[j]
    {
      var payload := PrefixPayload(m, events[i].payload);
      events := events[i := events[i].(payload := payload)];
    }
    assert edges == Prefixed(ns, s).edges && programs == Prefixed(ns, s).programs && events == Prefixed(ns, s).events;
    r := Some(Scenario(edges, initial, events, programs));
  }

  // ------------------------------------------------------------ assignments

  /** The variable that a payload action changes on its own account. */
  function ActionTarget(ev: Event): Option<string>
  {
    if !HasCallback(ev.eventType) || "action" !in ev.payload then None
    else if ev.payload["action"] == "update_demand" then
      if "new_value" in ev.payload then Some("var_demand") else None
    else if ev.payload["action"] == "apply_promotion" && "discount_increase" in ev.payload then
      Some("var_discount_rate")
    else None
  }

  /** The part of a request that names its variable in the payload. */
  function NamedRequest(payload: map<string, string>): seq<Assignment>
  {
    var id := Lookup(payload, "variable_id", "target_variable");
    var value := Lookup(payload, "value", "new_value");
    (if id.Some? && value.Some? then [Assignment(id.value, value.value, false)] else []) +
    (if id.Some? && "delta" in payload then [Assignment(id.value, payload["delta"], true)] else [])
  }

  function ActionRequest(payload: map<string, string>): seq<Assignment>
  {
    if "action" !in payload then []
    else if payload["action"] == "update_demand" then
      if "new_value" in payload then [Assignment("var_demand", payload["new_value"], false)] else []
    else if payload["action"] == "apply_promotion" && "discount_increase" in payload then
      [Assignment("var_discount_rate", payload["discount_increase"], true)]
    else []
  }

  lemma RequestParts(payload: map<string, string>)
    ensures Requested(payload) == NamedRequest(payload) + ActionRequest(payload)
  {
  }

  lemma NamedRequestMoves(ns: string, ids: set<string>, payload: map<string, string>)
    ensures NamedRequest(PrefixedPayload(PrefixMap(ns, ids), payload))
         == MovedTodo(Prefixing(ns, ids), NamedRequest(payload))
  {
    hide Renamed, PrefixMap;
  }

  lemma ActionRequestStays(ns: string, ids: set<string>, payload: map<string, string>)
    ensures ActionRequest(PrefixedPayload(PrefixMap(ns, ids), payload)) == ActionRequest(payload)
  {
    hide Renamed, PrefixMap;
  }

  lemma MovedTodoJoins(r: Renaming, a: seq<Assignment>, b: seq<Assignment>)
    ensures MovedTodo(r, a + b) == MovedTodo(r, a) + MovedTodo(r, b) && MovedTodo(r, []) == []
  {
  }

  /** A namespaced event asks for the same under the new names exactly if it has
      no action that changes a variable of the fragment. */
  lemma EventMovesIff(ns: string, ids: set<string>, ev: Event)
    requires ns != ""
    ensures EventAssignments(PrefixedEvent(PrefixMap(ns, ids), ev))
         == MovedTodo(Prefixing(ns, ids), EventAssignments(ev))
       <==> (ActionTarget(ev).Some? ==> ActionTarget(ev).value !in ids)
  {
    hide PrefixedPayload, NamedRequest, Requested, PrefixMap;
    var r := Prefixing(ns, ids);
    var payload, payload' := ev.payload, PrefixedPayload(PrefixMap(ns, ids), ev.payload);
    MovedTodoJoins(r, [], []);
    RequestParts(payload);
    RequestParts(payload');
    NamedRequestMoves(ns, ids, payload);
    ActionRequestStays(ns, ids, payload);
    MovedTodoJoins(r, NamedRequest(payload), ActionRequest(payload));
    var named, action := MovedTodo(r, NamedRequest(payload)), ActionRequest(payload);
    SameTail(named, action, MovedTodo(r, action));
    if ActionTarget(ev).Some? {
      var v := ActionTarget(ev).value;
      PrefixedIsDifferent(ns, ids, v);
      assert |action| == 1 && action[0].variable == v && MovedTodo(r, action)[0].variable == r(v);
      assert r(v) == v ==> MovedTodo(r, action) == action;
    } else if HasCallback(ev.eventType) {
      assert action == [];
    }
  }

  lemma SameTail(a: seq<Assignment>, b: seq<Assignment>, c: seq<Assignment>)
    ensures a + b == a + c <==> b == c
  {
    if a + b == a + c {
      assert b == (a + b)[|a|..] && c == (a + c)[|a|..];
    }
  }

  lemma PrefixedIsDifferent(ns: string, ids: set<string>, id: string)
    requires ns != ""
    ensures Renamed(PrefixMap(ns, ids), id) != id <==> id in ids
  {
    if id in ids {
      assert |PrefixId(ns, id)| > |id|;
    }
  }

  // -------------------------------------------------------------- whole runs

  lemma {:induction false} CommonPrefix(p: string, a: string, b: string)
    ensures Less(p + a, p + b) <==> Less(a, b)
  {
    if p == "" {
      assert p + a == a && p + b == b;
    } else {
      assert (p + a)[1..] == p[1..] + a && (p + b)[1..] == p[1..] + b;
      CommonPrefix(p[1..], a, b);
    }
  }

  lemma PrefixingKeepsOrder(ns: string, ids: set<string>, sources: set<string>)
    requires sources <= ids
    ensures KeepsOrder(Prefixing(ns, ids), sources)
  {
    hide Less;
    forall a, b | a in sources && b in sources && Less(a, b)
      ensures Less(PrefixId(ns, a), PrefixId(ns, b))
    {
      CommonPrefix(ns + "__", a, b);
    }
  }

  /** What can be namespaced: edges between variables of the fragment, and no
      event or constraint that names an identifier some renaming produces. */
  ghost predicate Fragment(ns: string, s: Scenario)
  {
    && EdgesWithin(s.edges, s.initial.Keys)
    && (forall v :: v in AssignedNames(s.events) ==> !IsTaken(ns, s.initial.Keys, v))
    && forall p :: p in s.programs ==> !Collides(ns, s.initial.Keys, p.expression)
  }

  lemma PrefixedCarries(ns: string, f: Formats, values: Values)
    ensures Injective(Prefixing(ns, values.Keys), values.Keys)
    ensures Carries(ns, values.Keys, EnvironmentOf(f, values),
                    EnvironmentOf(f, Moved(Prefixing(ns, values.Keys), values)))
  {
    var ids := values.Keys;
    var r := Prefixing(ns, ids);
    IdsAreFree(ns, ids);
    forall id | !IsTaken(ns, ids, id)
      ensures r(id) in Moved(r, values) <==> id in values
      ensures id in values ==> Moved(r, values)[r(id)] == values[id]
    {
      PrefixingIsInjective(ns, ids, ids + {id});
      MovedAt(r, ids + {id}, values, id);
    }
  }

  lemma ConstraintsMove(ns: string, s: Scenario, f: Formats, values: Values)
    requires IsWord(ns) && Fragment(ns, s) && values.Keys == s.initial.Keys
    requires forall id :: id in s.initial.Keys ==> !IsExponentLike(id)
    ensures Injective(Prefixing(ns, values.Keys), values.Keys)
    ensures ConstraintsHold(f, Prefixed(ns, s).programs, Moved(Prefixing(ns, values.Keys), values))
       <==> ConstraintsHold(f, s.programs, values)
  {
    hide Collides, Carries, Rewrite, PrefixMap, Moved, IsExponentLike, IsWord, EnvironmentOf;
    var ids := values.Keys;
    var r := Prefixing(ns, ids);
    IdsAreFree(ns, ids);
    PrefixedCarries(ns, f, values);
    var programs, programs' := s.programs, Prefixed(ns, s).programs;
    forall i | 0 <= i < |programs|
      ensures Passes(f, programs'[i], Moved(r, values)) <==> Passes(f, programs[i], values)
      ensures programs[i] in programs && programs'[i] in programs'
    {
      PrefixingPreserves(ns, ids, EnvironmentOf(f, values), EnvironmentOf(f, Moved(r, values)), programs[i].expression);
    }
  }

  predicate HasNoAction(ids: set<string>, ev: Event)
  {
    ActionTarget(ev).Some? ==> ActionTarget(ev).value !in ids
  }

  lemma PrefixedIsRenamed(ns: string, s: Scenario, f: Formats)
    requires IsWord(ns) && Fragment(ns, s)
    requires forall id :: id in s.initial.Keys ==> !IsExponentLike(id)
    requires forall k :: 0 <= k < |s.events| ==> HasNoAction(s.initial.Keys, s.events[k])
    ensures RenamesScenario(Prefixing(ns, s.initial.Keys), s.initial.Keys + AssignedNames(s.events), f, s,
                            Prefixed(ns, s))
  {
    hide Collides, Rewrite, PrefixMap, Moved, IsExponentLike, IsWord, EventAssignments, ConstraintsHold, IsTaken,
         PrefixedPayload, Less;
    var ids := s.initial.Keys;
    var names, r, t := ids + AssignedNames(s.events), Prefixing(ns, ids), Prefixed(ns, s);
    IdsAreFree(ns, ids);
    NamesAreFree(ns, s);
    PrefixingKeepsOrder(ns, ids, Cycles.Sources(s.edges));
    assert t.edges == MovedEdges(r, s.edges);
    forall k | 0 <= k < |s.events|
      ensures MovesEvent(r, names, s.events[k], t.events[k])
    {
      NamespaceIsNotEmpty(ns);
      EventMovesIff(ns, ids, s.events[k]);
      forall a | a in EventAssignments(s.events[k])
        ensures a.variable in AssignedNames(s.events)
      {
      }
    }
    forall values: Values | values.Keys == ids
      ensures ConstraintsHold(f, t.programs, Moved(r, values)) <==> ConstraintsHold(f, s.programs, values)
    {
      ConstraintsMove(ns, s, f, values);
    }
  }

  lemma NamespaceIsNotEmpty(ns: string)
    requires IsWord(ns)
    ensures ns != ""
  {
  }

  lemma NamesAreFree(ns: string, s: Scenario)
    requires Fragment(ns, s)
    ensures Injective(Prefixing(ns, s.initial.Keys), s.initial.Keys + AssignedNames(s.events))
  {
    hide AssignedNames;
    PrefixingIsInjective(ns, s.initial.Keys, s.initial.Keys + AssignedNames(s.events));
  }

  /** Namespacing a fragment without exponent-like ids and without actions on its
      variables renames its whole run: the same outcome after as many events, and
      the same values under the new names. */
  lemma PrefixingKeepsRun(ns: string, s: Scenario, registered: map<string, PropagationFunction>, f: Formats,
                          o: RunOutcome, p: nat, v: Values)
    requires IsWord(ns) && Fragment(ns, s)
    requires forall id :: id in s.initial.Keys ==> !IsExponentLike(id)
    requires forall k :: 0 <= k < |s.events| ==> HasNoAction(s.initial.Keys, s.events[k])
    requires Means(s, registered, f, o, p, v)
    ensures v.Keys == s.initial.Keys && Injective(Prefixing(ns, v.Keys), v.Keys)
    ensures Means(Prefixed(ns, s), registered, f, o, p, Moved(Prefixing(ns, v.Keys), v))
  {
    hide Means, RenamesScenario, Fragment, HasNoAction;
    var ids := s.initial.Keys;
    IdsAreFree(ns, ids);
    PrefixedIsRenamed(ns, s, f);
    var names := ids + AssignedNames(s.events);
    RenamingRenamesMeaning(Prefixing(ns, ids), names, f, s, Prefixed(ns, s), registered, o, p, v);
  }

  // --------------------------------------------- and when it does not keep it

  ghost predicate RunIsKept(ns: string, s: Scenario, registered: map<string, PropagationFunction>, f: Formats)
  {
    forall o, p, v :: Means(s, registered, f, o, p, v) ==>
      && v.Keys == s.initial.Keys && Injective(Prefixing(ns, v.Keys), v.Keys)
      && Means(Prefixed(ns, s), registered, f, o, p, Moved(Prefixing(ns, v.Keys), v))
  }

  lemma {:induction false} NothingToPull(g: Graph, order: seq<string>, stale: set<string>, values: Values)
    requires forall v :: Incoming(g, v) == []
    ensures EagerPass(g, order, stale, values) == values
    decreases |order|
  {
    if order != [] {
      NothingToPull(g, order[1..], stale, values);
    }
  }

  lemma NotRejected(s: Scenario, registered: map<string, PropagationFunction>)
    requires s.edges == []
    ensures !IsRejected(s, registered)
  {
    var pairs := Cycles.EdgeSet(s.edges);
    if v :| Walks.ReachesPlus(pairs, v, v) {
      var p :| Walks.WalkBetween(pairs, p, v, v) && |p| > 1;
      assert (p[0], p[1]) in pairs;
    }
  }

  /** Without edges, one event leaves what it assigns. */
  lemma OneEventAlone(s: Scenario, registered: map<string, PropagationFunction>, f: Formats,
                      o: RunOutcome, p: nat, v: Values)
    requires s.edges == [] && |s.events| == 1 && s.programs == [] && Means(s, registered, f, o, p, v)
    ensures v == AssignAll(f, EventAssignments(s.events[0]), s.initial)
  {
    hide AssignAll, EventAssignments, Touched, ReachedFrom, CompleteOrder;
    NotRejected(s, registered);
    var g, order, sources :| Compiled(g, s.edges, registered, sources) && CompleteOrder(g, order, s.initial)
                             && RunsTo(g, order, f, s, o, p, v);
    NothingIncoming(g, registered, sources);
    var ev := s.events[0];
    var todo := EventAssignments(ev);
    assert p == 1 && s.events[..1] == s.events && s.events[..0] == [];
    var stale := set u | u in order && ReachedFrom(g, Touched(f, todo, s.initial), u);
    NothingToPull(g, order, stale, AssignAll(f, todo, s.initial));
  }

  lemma NothingIncoming(g: Graph, registered: map<string, PropagationFunction>, sources: seq<string>)
    requires Compiled(g, [], registered, sources)
    ensures forall v :: Incoming(g, v) == []
  {
    forall v
      ensures IncomingInOrder(g.adjacency, sources, v) == []
    {
      forall u | u in sources
        ensures u in Cycles.Sources([])
      {
      }
      NothingComesIn(g.adjacency, sources, v);
    }
  }

  /** Without events, the constraints alone decide. */
  lemma NoEventAtAll(s: Scenario, registered: map<string, PropagationFunction>, f: Formats,
                     o: RunOutcome, p: nat, v: Values)
    requires s.edges == [] && s.events == [] && Means(s, registered, f, o, p, v)
    ensures o == if ConstraintsHold(f, s.programs, s.initial) then Completed else ConstraintFailed
  {
    hide ConstraintsHold, CompleteOrder, Compiled;
    NotRejected(s, registered);
  }

  ghost function Zeros(ids: set<string>): Values
  {
    map id | id in ids :: FloatValue(0.0)
  }

  /** A scenario with the one constraint that reads an id as an exponent. */
  ghost function ExponentScenario(ids: set<string>, id: string): Scenario
  {
    Scenario([], Zeros(ids), [], [ConstraintProgram(Spoiled(id), Warn)])
  }

  lemma ExponentIsNotKept(ns: string, ids: set<string>, id: string,
                          registered: map<string, PropagationFunction>, f: Formats)
    requires IsWord(ns) && id in ids && IsExponentLike(id) && f.parseNumber(Spoiled(id)).Some?
    ensures Fragment(ns, ExponentScenario(ids, id)) && !RunIsKept(ns, ExponentScenario(ids, id), registered, f)
  {
    hide Collides, Spoiled, Rewrite, Means, Moved, IsExponentLike, IsWord, PrefixMap;
    var s := ExponentScenario(ids, id);
    var o, p, v := MeaningExists(s, registered, f);
    var t := Prefixed(ns, s);
    PrefixingSpoils(ns, ids, EnvironmentOf(f, s.initial), EnvironmentOf(f, t.initial), id);
    assert s.initial.Keys == ids;
    assert ConstraintsHold(f, s.programs, s.initial);
    assert !ConstraintsHold(f, t.programs, t.initial) by {
      assert t.programs[0] in t.programs;
      assert !Passes(f, t.programs[0], t.initial);
    }
    NoEventAtAll(s, registered, f, o, p, v);
    if RunIsKept(ns, s, registered, f) {
      NoEventAtAll(t, registered, f, o, p, Moved(Prefixing(ns, v.Keys), v));
    }
  }

  predicate IsActionTarget(target: string)
  {
    target == "var_demand" || target == "var_discount_rate"
  }

  /** A scenario whose one event carries out the action on a variable. */
  ghost function ActionScenario(ids: set<string>, target: string): Scenario
  {
    Scenario([], Zeros(ids), [Event("SCHEDULED", 0.0, ActionPayload(target))], [])
  }

  function ActionPayload(target: string): map<string, string>
  {
    if target == "var_demand" then map["action" := "update_demand", "new_value" := "1"]
    else map["action" := "apply_promotion", "discount_increase" := "1"]
  }

  lemma ActionAssigns(target: string, payload: map<string, string>)
    requires IsActionTarget(target) && payload == ActionPayload(target)
    ensures Requested(payload) == [Assignment(target, "1", target == "var_discount_rate")]
  {
  }

  lemma ActionIsNotPrefixed(m: map<string, string>, target: string)
    ensures PrefixedPayload(m, ActionPayload(target)) == ActionPayload(target)
  {
  }

  /** No prefixed id is one of the two names. */
  lemma ActionTargetIsNotPrefixed(ns: string, id: string, target: string)
    requires ns != "" && IsActionTarget(target)
    ensures PrefixId(ns, id) != target
  {
    var v := PrefixId(ns, id);
    assert v[|ns|] == '_' && v[|ns| + 1] == '_';
    assert forall i :: 0 <= i < |"var_demand"| - 1 ==> "var_demand"[i] != '_' || "var_demand"[i + 1] != '_';
    assert forall i :: 0 <= i < |"var_discount_rate"| - 1 ==>
        "var_discount_rate"[i] != '_' || "var_discount_rate"[i + 1] != '_';
  }

  lemma OneAssignment(f: Formats, a: Assignment, values: Values)
    ensures var slot := AssignedSlot(f, a, values);
            AssignAll(f, [a], values) == if slot.Some? then values[a.variable := slot.value] else values
  {
    assert [a][..0] == [];
    assert AssignAll(f, [], values) == values;
  }

  lemma ActionIsNotKept(ns: string, ids: set<string>, target: string,
                        registered: map<string, PropagationFunction>, f: Formats)
    requires IsWord(ns) && target in ids && IsActionTarget(target) && f.parseNumber("1") == Some(1.0)
    ensures Fragment(ns, ActionScenario(ids, target)) && !RunIsKept(ns, ActionScenario(ids, target), registered, f)
  {
    hide Means, Moved, IsWord, PrefixMap, IsTaken, ActionPayload, PrefixedPayload, AssignAll, Requested;
    var s := ActionScenario(ids, target);
    var a := Assignment(target, "1", target == "var_discount_rate");
    NamespaceIsNotEmpty(ns);
    ActionAssigns(target, ActionPayload(target));
    ActionIsNotPrefixed(PrefixMap(ns, ids), target);
    assert s.initial.Keys == ids;
    assert EventAssignments(s.events[0]) == [a];
    assert AssignedNames(s.events) <= ids;
    forall v | v in ids
      ensures !IsTaken(ns, ids, v)
    {
      IdIsFree(ns, ids, v);
    }
    assert Fragment(ns, s);
    var o, p, v := MeaningExists(s, registered, f);
    var t := Prefixed(ns, s);
    IdsAreFree(ns, ids);
    OneEventAlone(s, registered, f, o, p, v);
    OneAssignment(f, a, s.initial);
    assert v[target] == FloatValue(1.0);
    assert target !in t.initial by {
      TargetIsGone(ns, s.initial, target);
    }
    if RunIsKept(ns, s, registered, f) {
      OneEventAlone(t, registered, f, o, p, Moved(Prefixing(ns, v.Keys), v));
      OneAssignment(f, a, t.initial);
      MovedAt(Prefixing(ns, ids), ids, v, target);
      MovedAt(Prefixing(ns, ids), ids, s.initial, target);
    }
  }

  lemma IdIsFree(ns: string, ids: set<string>, v: string)
    requires v in ids
    ensures !IsTaken(ns, ids, v)
  {
  }

  lemma TargetIsGone(ns: string, values: Values, target: string)
    requires ns != "" && IsActionTarget(target)
    ensures Injective(Prefixing(ns, values.Keys), values.Keys)
    ensures target !in Moved(Prefixing(ns, values.Keys), values)
  {
    IdsAreFree(ns, values.Keys);
    forall id | id in values
      ensures Prefixing(ns, values.Keys)(id) != target
    {
      ActionTargetIsNotPrefixed(ns, id, target);
    }
  }

  /** Namespacing keeps the runs of all fragments over some ids if and only if no
      id could be an exponent and none is changed by a payload action. */
  lemma PrefixingKeepsRunsExactly(ns: string, ids: set<string>, registered: map<string, PropagationFunction>,
                                  f: Formats)
    requires IsWord(ns) && f.parseNumber("1") == Some(1.0)
    requires forall id :: id in ids && IsExponentLike(id) ==> f.parseNumber(Spoiled(id)).Some?
    ensures (forall s :: Fragment(ns, s) && s.initial.Keys == ids ==> RunIsKept(ns, s, registered, f))
       <==> (forall id :: id in ids ==> !IsExponentLike(id) && !IsActionTarget(id))
  {
    hide Fragment, IsExponentLike, Means, RunIsKept, IsWord, Spoiled;
    if forall id :: id in ids ==> !IsExponentLike(id) && !IsActionTarget(id) {
      forall s | Fragment(ns, s) && s.initial.Keys == ids
        ensures RunIsKept(ns, s, registered, f)
      {
        HarmlessIdsKeepRun(ns, s, registered, f);
      }
    } else {
      var id :| id in ids && (IsExponentLike(id) || IsActionTarget(id));
      if IsExponentLike(id) {
        ExponentIsNotKept(ns, ids, id, registered, f);
        assert ExponentScenario(ids, id).initial.Keys == ids;
      } else {
        ActionIsNotKept(ns, ids, id, registered, f);
        assert ActionScenario(ids, id).initial.Keys == ids;
      }
    }
  }

  lemma HarmlessIdsKeepRun(ns: string, s: Scenario, registered: map<string, PropagationFunction>, f: Formats)
    requires IsWord(ns) && Fragment(ns, s)
    requires forall id :: id in s.initial.Keys ==> !IsExponentLike(id) && !IsActionTarget(id)
    ensures RunIsKept(ns, s, registered, f)
  {
    hide Fragment, IsExponentLike, Means, IsWord, Moved;
    forall o, p, v | Means(s, registered, f, o, p, v)
      ensures v.Keys == s.initial.Keys && Injective(Prefixing(ns, v.Keys), v.Keys)
      ensures Means(Prefixed(ns, s), registered, f, o, p, Moved(Prefixing(ns, v.Keys), v))
    {
      PrefixingKeepsRun(ns, s, registered, f, o, p, v);
    }
  }
}

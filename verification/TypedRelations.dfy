/** Relations of the typed runtime: bounded, expiring links between entities
    (src/engine/typed_runtime.cpp).  What the expressions of a system evaluate to
    is arbitrary.  Time may go backwards from one event to the next, and does
    exactly when some emission is early (TimeCanGoBack, TimeIsMonotoneIff). */
module TypedRelations {
  import opened Optional

  datatype Relation = Relation(kind: nat, source: nat, target: nat, expires: Option<real>)

  datatype RelationType = RelationType(maxTotal: Option<nat>, maxPerEntity: Option<nat>)

  predicate Touches(r: Relation, kind: nat, entity: nat)
  {
    r.kind == kind && (r.source == entity || r.target == entity)
  }

  function Count(relations: seq<Relation>, kind: nat): nat
  {
    if relations == [] then 0
    else
      var n := |relations| - 1;
      Count(relations[..n], kind) + if relations[n].kind == kind then 1 else 0
  }

  /** How many relations of a kind an entity takes part in. */
  function Degree(relations: seq<Relation>, kind: nat, entity: nat): nat
  {
    if relations == [] then 0
    else
      var n := |relations| - 1;
      Degree(relations[..n], kind, entity) + if Touches(relations[n], kind, entity) then 1 else 0
  }

  predicate Within(n: nat, max: Option<nat>)
  {
    max.Some? ==> n <= max.value
  }

  /** The declared bounds hold, in total and for every entity. */
  ghost predicate Bounded(types: seq<RelationType>, relations: seq<Relation>)
  {
    forall k :: 0 <= k < |types| ==>
      && Within(Count(relations, k), types[k].maxTotal)
      && forall e: nat :: Within(Degree(relations, k, e), types[k].maxPerEntity)
  }

  /** Nothing in the list has expired. */
  predicate Live(relations: seq<Relation>, now: real)
  {
    forall r :: r in relations && r.expires.Some? ==> r.expires.value > now
  }

  function Unexpired(relations: seq<Relation>, now: real): seq<Relation>
  {
    if relations == [] then []
    else
      var n := |relations| - 1;
      var last := relations[n];
      Unexpired(relations[..n], now) + if last.expires.Some? && last.expires.value <= now then [] else [last]
  }

  lemma {:induction false} CountAppend(relations: seq<Relation>, r: Relation, kind: nat, entity: nat)
    ensures Count(relations + [r], kind) == Count(relations, kind) + if r.kind == kind then 1 else 0
    ensures Degree(relations + [r], kind, entity)
         == Degree(relations, kind, entity) + if Touches(r, kind, entity) then 1 else 0
  {
    assert (relations + [r])[..|relations|] == relations;
  }

  /** Expiry removes exactly the expired relations, and can only help bounds. */
  lemma {:induction false} UnexpiredIsSmaller(relations: seq<Relation>, now: real, kind: nat, entity: nat)
    ensures Count(Unexpired(relations, now), kind) <= Count(relations, kind)
    ensures Degree(Unexpired(relations, now), kind, entity) <= Degree(relations, kind, entity)
    ensures forall r ::
              r in Unexpired(relations, now) <==> r in relations && (r.expires.Some? ==> r.expires.value > now)
  {
    if relations != [] {
      var init, last := relations[..|relations| - 1], relations[|relations| - 1];
      UnexpiredIsSmaller(init, now, kind, entity);
      assert relations == init + [last];
      if !(last.expires.Some? && last.expires.value <= now) {
        CountAppend(Unexpired(init, now), last, kind, entity);
      } else {
        assert Unexpired(relations, now) == Unexpired(init, now);
      }
    }
  }

  lemma UnexpiredKeepsBounds(types: seq<RelationType>, relations: seq<Relation>, now: real)
    requires Bounded(types, relations)
    ensures Bounded(types, Unexpired(relations, now)) && Live(Unexpired(relations, now), now)
  {
    forall k | 0 <= k < |types|
      ensures Within(Count(Unexpired(relations, now), k), types[k].maxTotal)
    {
      UnexpiredIsSmaller(relations, now, k, 0);
    }
    forall k, e: nat | 0 <= k < |types|
      ensures Within(Degree(Unexpired(relations, now), k, e), types[k].maxPerEntity)
    {
      UnexpiredIsSmaller(relations, now, k, e);
    }
    UnexpiredIsSmaller(relations, now, 0, 0);
  }

  /** What the runtime checks before it adds a relation. */
  predicate Admits(types: seq<RelationType>, relations: seq<Relation>, kind: nat, source: nat, target: nat)
    requires kind < |types|
  {
    && (types[kind].maxTotal.Some? ==> Count(relations, kind) < types[kind].maxTotal.value)
    && (types[kind].maxPerEntity.Some? ==>
         && Degree(relations, kind, source) < types[kind].maxPerEntity.value
         && Degree(relations, kind, target) < types[kind].maxPerEntity.value)
  }

  /** The check refuses a relation exactly when adding it would break a bound. */
  lemma AdmitsIsExact(types: seq<RelationType>, relations: seq<Relation>, r: Relation)
    requires r.kind < |types| && Bounded(types, relations)
    ensures Admits(types, relations, r.kind, r.source, r.target) <==> Bounded(types, relations + [r])
  {
    forall k: nat, e: nat
      ensures Count(relations + [r], k) == Count(relations, k) + if r.kind == k then 1 else 0
      ensures Degree(relations + [r], k, e) == Degree(relations, k, e) + if Touches(r, k, e) then 1 else 0
    {
      CountAppend(relations, r, k, e);
    }
    if Bounded(types, relations + [r]) {
      assert Within(Count(relations + [r], r.kind), types[r.kind].maxTotal);
      assert Within(Degree(relations + [r], r.kind, r.source), types[r.kind].maxPerEntity);
      assert Within(Degree(relations + [r], r.kind, r.target), types[r.kind].maxPerEntity);
    }
  }

  // ------------------------------------------------------------ what runs

  datatype Event = Event(time: real, priority: int, ordinal: nat, kind: nat)

  /** The event, the entities and the relation a system is applied to. */
  datatype Match = Match(event: Event, self: nat, other: Option<nat>, relation: Option<Relation>)

  /** What an expression can depend on; the contents of the components are left
      open by numbering the evaluations. */
  datatype Situation = Situation(now: real, relations: seq<Relation>, at: Match, evaluation: nat)

  /** `when`: nothing if the expression fails.  `lifetime`: no expression, or its
      value if it has one. */
  datatype Creation = Creation(kind: nat, sourceIsSelf: bool, targetIsSelf: bool,
                               when: Situation -> Option<bool>, lifetime: Option<Situation -> Option<real>>)

  datatype Emission = Emission(kind: nat, priority: int, when: Situation -> Option<bool>,
                               time: Option<Situation -> Option<real>>)

  datatype SystemKind = PerEntity | Pair | PerRelation

  datatype System = System(kind: SystemKind, entityType: Option<nat>, relationType: Option<nat>, triggers: seq<nat>,
                           where: Situation -> Option<bool>, creations: seq<Creation>, emissions: seq<Emission>)

  datatype Setup = Setup(types: seq<RelationType>, systems: seq<System>, entityTypes: seq<nat>, eventTypes: nat)

  /** Creations name declared types; a system that iterates over relations
      creates none. */
  ghost predicate Valid(setup: Setup)
  {
    forall s :: s in setup.systems ==>
      && (s.kind.PerRelation? ==> s.creations == [])
      && forall c :: c in s.creations ==> c.kind < |setup.types|
  }

  /** A list of relations the run went through, and when. */
  datatype Snapshot = Snapshot(now: real, relations: seq<Relation>)

  datatype State = State(relations: seq<Relation>, pending: set<Event>, nextOrdinal: nat, now: real, evaluations: nat,
                         seen: seq<Snapshot>)

  /** The state after a step, and whether it went without an error. */
  datatype Outcome = Outcome(ok: bool, state: State)

  // ------------------------------------------------------- what a step does

  function Look(st: State, m: Match): Situation
  {
    Situation(st.now, st.relations, m, st.evaluations)
  }

  function Looked(st: State): State
  {
    st.(evaluations := st.evaluations + 1)
  }

  function Role(isSelf: bool, m: Match): Option<nat>
  {
    if isSelf then Some(m.self) else m.other
  }

  function Added(st: State, r: Relation): State
  {
    var relations := st.relations + [r];
    st.(relations := relations, seen := st.seen + [Snapshot(st.now, relations)])
  }

  /** One creation: condition, roles, bounds, lifetime, in this order. */
  function Create(types: seq<RelationType>, c: Creation, m: Match, st: State): Outcome
    requires c.kind < |types|
  {
    var wanted, source, target := c.when(Look(st, m)), Role(c.sourceIsSelf, m), Role(c.targetIsSelf, m);
    var st1 := Looked(st);
    if wanted.None? then Outcome(false, st1)
    else if !wanted.value then Outcome(true, st1)
    else if source.None? || target.None? then Outcome(false, st1)
    else if !Admits(types, st.relations, c.kind, source.value, target.value) then Outcome(false, st1)
    else if c.lifetime.None? then Outcome(true, Added(st1, Relation(c.kind, source.value, target.value, None)))
    else
      var lifetime, st2 := c.lifetime.value(Look(st1, m)), Looked(st1);
      if lifetime.None? || lifetime.value <= 0.0 then Outcome(false, st2)
      else Outcome(true, Added(st2, Relation(c.kind, source.value, target.value, Some(st.now + lifetime.value))))
  }

  /** One emission: its timestamp only has to be non-negative. */
  function Emit(x: Emission, m: Match, st: State): Outcome
  {
    var wanted, st1 := x.when(Look(st, m)), Looked(st);
    if wanted.None? then Outcome(false, st1)
    else if !wanted.value then Outcome(true, st1)
    else if x.time.None? then Outcome(true, Scheduled(st1, st.now, x))
    else
      var time, st2 := x.time.value(Look(st1, m)), Looked(st1);
      if time.None? || time.value < 0.0 then Outcome(false, st2) else Outcome(true, Scheduled(st2, time.value, x))
  }

  function Scheduled(st: State, time: real, x: Emission): State
  {
    st.(pending := st.pending + {Event(time, x.priority, st.nextOrdinal, x.kind)}, nextOrdinal := st.nextOrdinal + 1)
  }

  function CreateFrom(types: seq<RelationType>, cs: seq<Creation>, k: nat, m: Match, st: State): Outcome
    requires k <= |cs| && forall c :: c in cs ==> c.kind < |types|
    decreases |cs| - k
  {
    if k == |cs| then Outcome(true, st)
    else
      var o := Create(types, cs[k], m, st);
      if o.ok then CreateFrom(types, cs, k + 1, m, o.state) else o
  }

  function EmitFrom(xs: seq<Emission>, k: nat, m: Match, st: State): Outcome
    requires k <= |xs|
    decreases |xs| - k
  {
    if k == |xs| then Outcome(true, st)
    else
      var o := Emit(xs[k], m, st);
      if o.ok then EmitFrom(xs, k + 1, m, o.state) else o
  }

  /** One match of a system: its condition, its creations, its emissions. */
  function Execute(setup: Setup, s: System, m: Match, st: State): Outcome
    requires Valid(setup) && s in setup.systems
  {
    var matched, st1 := s.where(Look(st, m)), Looked(st);
    if matched.None? then Outcome(false, st1)
    else if !matched.value then Outcome(true, st1)
    else
      var o := CreateFrom(setup.types, s.creations, 0, m, st1);
      if o.ok then EmitFrom(s.emissions, 0, m, o.state) else o
  }

  predicate Fits(setup: Setup, s: System, entity: nat)
    requires entity < |setup.entityTypes|
  {
    s.entityType.Some? ==> setup.entityTypes[entity] == s.entityType.value
  }

  function EntitiesFrom(setup: Setup, s: System, e: Event, i: nat, st: State): Outcome
    requires Valid(setup) && s in setup.systems && i <= |setup.entityTypes|
    decreases |setup.entityTypes| - i
  {
    if i == |setup.entityTypes| then Outcome(true, st)
    else if !Fits(setup, s, i) then EntitiesFrom(setup, s, e, i + 1, st)
    else
      var o := Execute(setup, s, Match(e, i, None, None), st);
      if o.ok then EntitiesFrom(setup, s, e, i + 1, o.state) else o
  }

  /** The pairs (a, b), (a, b + 1), ... of one entity with later ones. */
  function PairsWith(setup: Setup, s: System, e: Event, a: nat, b: nat, st: State): Outcome
    requires Valid(setup) && s in setup.systems && b <= |setup.entityTypes|
    decreases |setup.entityTypes| - b
  {
    if b == |setup.entityTypes| then Outcome(true, st)
    else if !Fits(setup, s, b) then PairsWith(setup, s, e, a, b + 1, st)
    else
      var o := Execute(setup, s, Match(e, a, Some(b), None), st);
      if o.ok then PairsWith(setup, s, e, a, b + 1, o.state) else o
  }

  function PairsFrom(setup: Setup, s: System, e: Event, a: nat, st: State): Outcome
    requires Valid(setup) && s in setup.systems && a <= |setup.entityTypes|
    decreases |setup.entityTypes| - a
  {
    if a == |setup.entityTypes| then Outcome(true, st)
    else if !Fits(setup, s, a) then PairsFrom(setup, s, e, a + 1, st)
    else
      var o := PairsWith(setup, s, e, a, a + 1, st);
      if o.ok then PairsFrom(setup, s, e, a + 1, o.state) else o
  }

  function RelationsFrom(setup: Setup, s: System, e: Event, relations: seq<Relation>, k: nat, st: State): Outcome
    requires Valid(setup) && s in setup.systems && k <= |relations|
    decreases |relations| - k
  {
    if k == |relations| then Outcome(true, st)
    else
      var r := relations[k];
      if s.relationType.Some? && r.kind != s.relationType.value then RelationsFrom(setup, s, e, relations, k + 1, st)
      else
        var o := Execute(setup, s, Match(e, r.source, Some(r.target), Some(r)), st);
        if o.ok then RelationsFrom(setup, s, e, relations, k + 1, o.state) else o
  }

  /** One system, over all its matches. */
  function Apply(setup: Setup, s: System, e: Event, st: State): Outcome
    requires Valid(setup) && s in setup.systems
  {
    match s.kind
    case PerEntity => EntitiesFrom(setup, s, e, 0, st)
    case Pair => PairsFrom(setup, s, e, 0, st)
    case PerRelation => RelationsFrom(setup, s, e, st.relations, 0, st)
  }

  /** One entry for every time an event type is listed as a trigger. */
  function Entries(triggers: seq<nat>, kind: nat, system: nat): (r: seq<nat>)
    ensures forall i :: 0 <= i < |r| ==> r[i] == system
  {
    if triggers == [] then []
    else
      var n := |triggers| - 1;
      Entries(triggers[..n], kind, system) + if triggers[n] == kind then [system] else []
  }

  /** How often a system is listed for an event type: without triggers once, and
      otherwise as often as it names the type. */
  function Listing(setup: Setup, kind: nat, n: nat): (r: seq<nat>)
    requires n < |setup.systems|
    ensures forall i :: 0 <= i < |r| ==> r[i] == n
  {
    var triggers := setup.systems[n].triggers;
    if triggers != [] then Entries(triggers, kind, n) else if kind < setup.eventTypes then [n] else []
  }

  /** Of the first n systems, those that an event type triggers, in order. */
  function Triggered(setup: Setup, kind: nat, n: nat): (r: seq<nat>)
    requires n <= |setup.systems|
    ensures forall i :: 0 <= i < |r| ==> r[i] < n
  {
    if n == 0 then [] else Triggered(setup, kind, n - 1) + Listing(setup, kind, n - 1)
  }

  function SystemsFrom(setup: Setup, e: Event, todo: seq<nat>, k: nat, st: State): Outcome
    requires Valid(setup) && k <= |todo| && forall i :: 0 <= i < |todo| ==> todo[i] < |setup.systems|
    decreases |todo| - k
  {
    if k == |todo| then Outcome(true, st)
    else
      var o := Apply(setup, setup.systems[todo[k]], e, st);
      if o.ok then SystemsFrom(setup, e, todo, k + 1, o.state) else o
  }

  /** Time becomes that of the event, and what has expired by then goes. */
  function Expired(st: State, time: real): State
  {
    var relations := Unexpired(st.relations, time);
    st.(now := time, relations := relations, seen := st.seen + [Snapshot(time, relations)])
  }

  /** One event: expiry, then every system it triggers. */
  function Process(setup: Setup, e: Event, st: State): Outcome
    requires Valid(setup)
  {
    SystemsFrom(setup, e, Triggered(setup, e.kind, |setup.systems|), 0, Expired(st, e.time))
  }

  // ---------------------------------------------------- what the record shows

  /** Some pending event that nothing precedes; events that agree in time and
      priority may come in any order. */
  ghost predicate IsFirst(e: Event, pending: set<Event>)
  {
    e in pending && forall x :: x in pending ==> e.time < x.time || (e.time == x.time && e.priority >= x.priority)
  }

  lemma {:induction false} FirstExists(pending: set<Event>) returns (e: Event)
    requires pending != {}
    ensures IsFirst(e, pending)
  {
    e :| e in pending;
    if pending != {e} {
      var other := FirstExists(pending - {e});
      if other.time < e.time || (other.time == e.time && other.priority >= e.priority) {
        e := other;
      }
    }
  }

  /** The record ends with the present list. */
  predicate Recorded(st: State)
  {
    st.seen != [] && st.seen[|st.seen| - 1] == Snapshot(st.now, st.relations)
  }

  /** One admitted, unexpired relation was added, at the same time. */
  predicate Adds(types: seq<RelationType>, a: Snapshot, b: Snapshot)
  {
    var n := |a.relations|;
    && b.now == a.now
    && |b.relations| == n + 1 && b.relations[..n] == a.relations
    && var r := b.relations[n];
       && r.kind < |types| && Admits(types, a.relations, r.kind, r.source, r.target)
       && (r.expires.Some? ==> r.expires.value > b.now)
  }

  /** No emission is scheduled before the time of its event. */
  ghost predicate Forward(setup: Setup)
  {
    forall s, x, at: Situation :: s in setup.systems && x in s.emissions && x.time.Some? ==>
      var time := x.time.value(at);
      time.Some? ==> time.value >= at.now
  }

  /** What is pending in b only has no earlier time than a given one. */
  predicate NoneEarly(a: State, b: State, time: real)
  {
    forall x :: x in b.pending && x !in a.pending ==> x.time >= time
  }

  /** The state b comes from a by adding admitted relations, one at a time, and
      the record shows every one of them; events are added, none in the past if
      emissions look forward. */
  ghost predicate Grows(setup: Setup, a: State, b: State)
  {
    && b.now == a.now && a.pending <= b.pending
    && (Forward(setup) ==> NoneEarly(a, b, a.now))
    && (Recorded(a) ==>
         && Recorded(b) && a.seen <= b.seen
         && forall k :: |a.seen| <= k < |b.seen| ==> Adds(setup.types, b.seen[k - 1], b.seen[k]))
  }

  lemma GrowsTransitive(setup: Setup, a: State, b: State, c: State)
    requires Grows(setup, a, b) && Grows(setup, b, c)
    ensures Grows(setup, a, c)
  {
    hide Adds, Forward;
    if Recorded(a) {
      forall k | |a.seen| <= k < |c.seen|
        ensures Adds(setup.types, c.seen[k - 1], c.seen[k])
      {
        if k < |b.seen| {
          assert Adds(setup.types, b.seen[k - 1], b.seen[k]);
        }
      }
    }
  }

  lemma CreateGrows(setup: Setup, c: Creation, m: Match, st: State)
    requires c.kind < |setup.types|
    ensures Grows(setup, st, Create(setup.types, c, m, st).state)
  {
    hide Admits, Forward;
  }

  lemma EmitGrows(setup: Setup, s: System, x: Emission, m: Match, st: State)
    requires s in setup.systems && x in s.emissions
    ensures Grows(setup, st, Emit(x, m, st).state)
  {
    hide Adds;
  }

  lemma {:induction false} CreateFromGrows(setup: Setup, cs: seq<Creation>, k: nat, m: Match, st: State)
    requires k <= |cs| && forall c :: c in cs ==> c.kind < |setup.types|
    ensures Grows(setup, st, CreateFrom(setup.types, cs, k, m, st).state)
    decreases |cs| - k
  {
    hide Create, Adds, Forward;
    if k < |cs| {
      var o := Create(setup.types, cs[k], m, st);
      CreateGrows(setup, cs[k], m, st);
      if o.ok {
        CreateFromGrows(setup, cs, k + 1, m, o.state);
        GrowsTransitive(setup, st, o.state, CreateFrom(setup.types, cs, k, m, st).state);
      }
    }
  }

  lemma {:induction false} EmitFromGrows(setup: Setup, s: System, k: nat, m: Match, st: State)
    requires s in setup.systems && k <= |s.emissions|
    ensures Grows(setup, st, EmitFrom(s.emissions, k, m, st).state)
    decreases |s.emissions| - k
  {
    hide Emit, Adds, Forward;
    if k < |s.emissions| {
      var o := Emit(s.emissions[k], m, st);
      EmitGrows(setup, s, s.emissions[k], m, st);
      if o.ok {
        EmitFromGrows(setup, s, k + 1, m, o.state);
        GrowsTransitive(setup, st, o.state, EmitFrom(s.emissions, k, m, st).state);
      }
    }
  }

  lemma ExecuteGrows(setup: Setup, s: System, m: Match, st: State)
    requires Valid(setup) && s in setup.systems
    ensures Grows(setup, st, Execute(setup, s, m, st).state)
  {
    hide CreateFrom, EmitFrom, Adds, Forward;
    var st1, end := Looked(st), Execute(setup, s, m, st).state;
    if s.where(Look(st, m)) == Some(true) {
      var o := CreateFrom(setup.types, s.creations, 0, m, st1);
      CreateFromGrows(setup, s.creations, 0, m, st1);
      if o.ok {
        EmitFromGrows(setup, s, 0, m, o.state);
        GrowsTransitive(setup, st1, o.state, end);
      }
    }
  }

  lemma {:induction false} EntitiesGrow(setup: Setup, s: System, e: Event, i: nat, st: State)
    requires Valid(setup) && s in setup.systems && i <= |setup.entityTypes|
    ensures Grows(setup, st, EntitiesFrom(setup, s, e, i, st).state)
    decreases |setup.entityTypes| - i
  {
    hide Execute, Adds, Forward, Valid;
    if i < |setup.entityTypes| {
      if !Fits(setup, s, i) {
        EntitiesGrow(setup, s, e, i + 1, st);
      } else {
        var m := Match(e, i, None, None);
        var o := Execute(setup, s, m, st);
        ExecuteGrows(setup, s, m, st);
        if o.ok {
          EntitiesGrow(setup, s, e, i + 1, o.state);
          GrowsTransitive(setup, st, o.state, EntitiesFrom(setup, s, e, i, st).state);
        }
      }
    }
  }

  lemma {:induction false} PairsWithGrow(setup: Setup, s: System, e: Event, a: nat, b: nat, st: State)
    requires Valid(setup) && s in setup.systems && b <= |setup.entityTypes|
    ensures Grows(setup, st, PairsWith(setup, s, e, a, b, st).state)
    decreases |setup.entityTypes| - b
  {
    hide Execute, Adds, Forward, Valid;
    if b < |setup.entityTypes| {
      if !Fits(setup, s, b) {
        PairsWithGrow(setup, s, e, a, b + 1, st);
      } else {
        var m := Match(e, a, Some(b), None);
        var o := Execute(setup, s, m, st);
        ExecuteGrows(setup, s, m, st);
        if o.ok {
          PairsWithGrow(setup, s, e, a, b + 1, o.state);
          GrowsTransitive(setup, st, o.state, PairsWith(setup, s, e, a, b, st).state);
        }
      }
    }
  }

  lemma {:induction false} PairsGrow(setup: Setup, s: System, e: Event, a: nat, st: State)
    requires Valid(setup) && s in setup.systems && a <= |setup.entityTypes|
    ensures Grows(setup, st, PairsFrom(setup, s, e, a, st).state)
    decreases |setup.entityTypes| - a
  {
    hide PairsWith, Adds, Forward, Valid;
    if a < |setup.entityTypes| {
      if !Fits(setup, s, a) {
        PairsGrow(setup, s, e, a + 1, st);
      } else {
        var o := PairsWith(setup, s, e, a, a + 1, st);
        PairsWithGrow(setup, s, e, a, a + 1, st);
        if o.ok {
          PairsGrow(setup, s, e, a + 1, o.state);
          GrowsTransitive(setup, st, o.state, PairsFrom(setup, s, e, a, st).state);
        }
      }
    }
  }

  lemma {:induction false} RelationsGrow(setup: Setup, s: System, e: Event, relations: seq<Relation>, k: nat, st: State)
    requires Valid(setup) && s in setup.systems && k <= |relations|
    ensures Grows(setup, st, RelationsFrom(setup, s, e, relations, k, st).state)
    decreases |relations| - k
  {
    hide Execute, Adds, Forward, Valid;
    if k < |relations| {
      var r := relations[k];
      if s.relationType.Some? && r.kind != s.relationType.value {
        RelationsGrow(setup, s, e, relations, k + 1, st);
      } else {
        var m := Match(e, r.source, Some(r.target), Some(r));
        var o := Execute(setup, s, m, st);
        ExecuteGrows(setup, s, m, st);
        if o.ok {
          RelationsGrow(setup, s, e, relations, k + 1, o.state);
          GrowsTransitive(setup, st, o.state, RelationsFrom(setup, s, e, relations, k, st).state);
        }
      }
    }
  }

  lemma ApplyGrows(setup: Setup, s: System, e: Event, st: State)
    requires Valid(setup) && s in setup.systems
    ensures Grows(setup, st, Apply(setup, s, e, st).state)
  {
    hide EntitiesFrom, PairsFrom, RelationsFrom, Grows, Valid;
    match s.kind
    case PerEntity => EntitiesGrow(setup, s, e, 0, st);
    case Pair => PairsGrow(setup, s, e, 0, st);
    case PerRelation => RelationsGrow(setup, s, e, st.relations, 0, st);
  }

  lemma {:induction false} SystemsGrow(setup: Setup, e: Event, todo: seq<nat>, k: nat, st: State)
    requires Valid(setup) && k <= |todo| && forall i :: 0 <= i < |todo| ==> todo[i] < |setup.systems|
    ensures Grows(setup, st, SystemsFrom(setup, e, todo, k, st).state)
    decreases |todo| - k
  {
    hide Apply, Adds, Forward, Valid;
    if k < |todo| {
      var o := Apply(setup, setup.systems[todo[k]], e, st);
      ApplyGrows(setup, setup.systems[todo[k]], e, st);
      if o.ok {
        SystemsGrow(setup, e, todo, k + 1, o.state);
        GrowsTransitive(setup, st, o.state, SystemsFrom(setup, e, todo, k, st).state);
      }
    }
  }

  /** One event shows in the record as the expiry at its time, followed only by
      additions of one admitted relation each. */
  lemma ProcessIsRecorded(setup: Setup, e: Event, st: State)
    requires Valid(setup)
    ensures var st' := Process(setup, e, st).state;
            && st.pending <= st'.pending && (Forward(setup) ==> NoneEarly(st, st', e.time))
            && Recorded(st') && Expired(st, e.time).seen <= st'.seen && st'.now == e.time
            && forall k :: |st.seen| < k < |st'.seen| ==> Adds(setup.types, st'.seen[k - 1], st'.seen[k])
  {
    hide SystemsFrom, Triggered, Adds, Forward, Valid;
    SystemsGrow(setup, e, Triggered(setup, e.kind, |setup.systems|), 0, Expired(st, e.time));
  }

  // -------------------------------------------------------------------- runs

  ghost predicate Good(types: seq<RelationType>, s: Snapshot)
  {
    Bounded(types, s.relations) && Live(s.relations, s.now)
  }

  /** The outcome of taking an event off the queue and processing it. */
  function Next(setup: Setup, e: Event, st: State): Outcome
    requires Valid(setup)
  {
    Process(setup, e, st.(pending := st.pending - {e}))
  }

  /** The states before and after the events es, each of which was the first
      pending one; only the last may have failed. */
  ghost predicate IsRun(setup: Setup, sts: seq<State>, es: seq<Event>)
    requires Valid(setup)
  {
    && |sts| == |es| + 1
    && (forall k :: 0 <= k < |es| ==>
         IsFirst(es[k], sts[k].pending) && sts[k + 1] == Next(setup, es[k], sts[k]).state)
    && forall k :: 0 <= k < |es| - 1 ==> Next(setup, es[k], sts[k]).ok
  }

  /** One list of the record follows another: a relation was added, or an event
      began and what had expired by then went. */
  predicate Follows(types: seq<RelationType>, a: Snapshot, b: Snapshot)
  {
    Adds(types, a, b) || b.relations == Unexpired(a.relations, b.now)
  }

  /** The record is complete from the initial list on. */
  ghost predicate Complete(types: seq<RelationType>, initial: seq<Relation>, seen: seq<Snapshot>)
  {
    && (seen != [] ==> seen[0].relations == Unexpired(initial, seen[0].now))
    && forall k :: 0 < k < |seen| ==> Follows(types, seen[k - 1], seen[k])
  }

  lemma FollowsKeepsGood(types: seq<RelationType>, a: Snapshot, b: Snapshot)
    requires Good(types, a) && Follows(types, a, b)
    ensures Good(types, b)
  {
    hide Bounded, Admits;
    if Adds(types, a, b) {
      var r := b.relations[|a.relations|];
      assert b.relations == a.relations + [r];
      AdmitsIsExact(types, a.relations, r);
    } else {
      UnexpiredKeepsBounds(types, a.relations, b.now);
    }
  }

  /** A complete record that starts within bounds stays within bounds, and
      never holds an expired relation. */
  lemma {:induction false} CompleteIsGood(types: seq<RelationType>, initial: seq<Relation>, seen: seq<Snapshot>, k: nat)
    requires Bounded(types, initial) && Complete(types, initial, seen) && k < |seen|
    ensures Good(types, seen[k])
  {
    hide Bounded, Live, Follows;
    if k == 0 {
      UnexpiredKeepsBounds(types, initial, seen[0].now);
    } else {
      CompleteIsGood(types, initial, seen, k - 1);
      assert Follows(types, seen[k - 1], seen[k]);
      FollowsKeepsGood(types, seen[k - 1], seen[k]);
    }
  }

  /** The record of a run is complete: it starts with the initial list, changes
      by single additions and expiries only, and ends with the present list. */
  lemma {:induction false} RunIsComplete(setup: Setup, sts: seq<State>, es: seq<Event>, n: nat)
    requires Valid(setup) && IsRun(setup, sts, es) && sts[0].seen == [] && n <= |es|
    ensures Complete(setup.types, sts[0].relations, sts[n].seen)
    ensures n <= |sts[n].seen| && if n == 0 then sts[n].seen == [] else Recorded(sts[n])
    ensures forall k :: 0 <= k <= n ==> sts[k].seen <= sts[n].seen
  {
    hide Process, Adds, Valid, IsFirst;
    if n > 0 {
      RunIsComplete(setup, sts, es, n - 1);
      var st := sts[n - 1];
      assert sts[n - 1 + 1] == Next(setup, es[n - 1], st).state;
      ProcessIsRecorded(setup, es[n - 1], st.(pending := st.pending - {es[n - 1]}));
      var a, b := st.seen, sts[n].seen;
      assert a <= b && b[|a|] == Snapshot(es[n - 1].time, Unexpired(st.relations, es[n - 1].time));
      forall k | 0 < k < |b|
        ensures Follows(setup.types, b[k - 1], b[k])
      {
        if k < |a| {
          assert Follows(setup.types, a[k - 1], a[k]);
        }
      }
    }
  }

  /** Whatever the events and expressions do, every list of relations a run goes
      through is within bounds and free of expired relations, if the first one
      is within bounds. */
  lemma RunIsBounded(setup: Setup, sts: seq<State>, es: seq<Event>, n: nat)
    requires Valid(setup) && IsRun(setup, sts, es) && sts[0].seen == [] && n <= |es|
    requires Bounded(setup.types, sts[0].relations)
    ensures Bounded(setup.types, sts[n].relations) && (n > 0 ==> Live(sts[n].relations, sts[n].now))
    ensures forall s :: s in sts[n].seen ==> Good(setup.types, s)
  {
    hide Bounded, Live, Complete, Valid, Process, IsFirst;
    RunIsComplete(setup, sts, es, n);
    var seen := sts[n].seen;
    forall k | 0 <= k < |seen|
      ensures Good(setup.types, seen[k])
    {
      CompleteIsGood(setup.types, sts[0].relations, seen, k);
    }
  }

  /** Processing the first pending event continues a run that has not failed. */
  lemma RunExtends(setup: Setup, sts: seq<State>, es: seq<Event>, e: Event)
    requires Valid(setup) && IsRun(setup, sts, es) && IsFirst(e, sts[|es|].pending)
    requires es != [] ==> Next(setup, es[|es| - 1], sts[|es| - 1]).ok
    ensures IsRun(setup, sts + [Next(setup, e, sts[|es|]).state], es + [e])
  {
    hide Next, Valid, IsFirst;
  }

  // -------------------------------------------------------------------- time

  predicate InOrder(es: seq<Event>)
  {
    forall k :: 0 <= k < |es| - 1 ==> es[k].time <= es[k + 1].time
  }

  /** The times of a run are in order exactly if no event but the last schedules
      one that is earlier than itself. */
  lemma TimeIsMonotoneIff(setup: Setup, sts: seq<State>, es: seq<Event>)
    requires Valid(setup) && IsRun(setup, sts, es)
    ensures InOrder(es) <==> forall k :: 0 <= k < |es| - 1 ==> NoneEarly(sts[k], sts[k + 1], es[k].time)
  {
    hide Process, Valid;
    forall k | 0 <= k < |es| - 1
      ensures es[k].time <= es[k + 1].time <==> NoneEarly(sts[k], sts[k + 1], es[k].time)
    {
      assert IsFirst(es[k], sts[k].pending) && IsFirst(es[k + 1], sts[k + 1].pending);
    }
  }

  /** If emissions look forward, the times of every run are in order. */
  lemma ForwardIsMonotone(setup: Setup, sts: seq<State>, es: seq<Event>)
    requires Valid(setup) && Forward(setup) && IsRun(setup, sts, es)
    ensures InOrder(es)
  {
    hide Process, Valid, Forward, InOrder, IsFirst, Recorded;
    forall k | 0 <= k < |es| - 1
      ensures NoneEarly(sts[k], sts[k + 1], es[k].time)
    {
      ProcessIsRecorded(setup, es[k], sts[k].(pending := sts[k].pending - {es[k]}));
    }
    TimeIsMonotoneIff(setup, sts, es);
  }

  /** If the event comes first and goes without an error, it schedules nothing
      earlier than itself. */
  ghost predicate LooksForward(setup: Setup, e: Event, st: State)
    requires Valid(setup)
  {
    IsFirst(e, st.pending) && Next(setup, e, st).ok ==> NoneEarly(st, Next(setup, e, st).state, e.time)
  }

  /** The times of all runs of a setup are in order exactly if no event, in any
      state in which it comes first, schedules an event earlier than itself. */
  lemma AllTimesAreMonotoneIff(setup: Setup)
    requires Valid(setup)
    ensures (forall sts, es :: IsRun(setup, sts, es) ==> InOrder(es))
       <==> (forall e: Event, st: State :: LooksForward(setup, e, st))
  {
    hide Process, Valid, IsFirst;
    if forall e: Event, st: State :: LooksForward(setup, e, st) {
      forall sts: seq<State>, es: seq<Event> | IsRun(setup, sts, es)
        ensures InOrder(es)
      {
        forall k | 0 <= k < |es| - 1
          ensures NoneEarly(sts[k], sts[k + 1], es[k].time)
        {
          assert LooksForward(setup, es[k], sts[k]);
        }
        TimeIsMonotoneIff(setup, sts, es);
      }
    }
    forall e: Event, st: State | !LooksForward(setup, e, st)
      ensures exists sts, es :: IsRun(setup, sts, es) && !InOrder(es)
    {
      var st1 := Next(setup, e, st).state;
      var f := FirstExists(st1.pending);
      var sts, es := [st, st1, Next(setup, f, st1).state], [e, f];
      assert IsRun(setup, sts, es);
      TimeIsMonotoneIff(setup, sts, es);
      assert !NoneEarly(sts[0], sts[0 + 1], es[0].time);
    }
  }

  /** Two event types and one system, which answers the first by the second, at
      time 0: the check on timestamps allows it. */
  function Rewind(): Setup
  {
    var always := (at: Situation) => Some(true);
    var x := Emission(1, 0, always, Some((at: Situation) => Some(0.0)));
    Setup([], [System(PerEntity, None, None, [0], always, [], [x])], [0], 2)
  }

  lemma RewindEmits(m: Match, st: State)
    requires st.pending == {} && st.nextOrdinal == 1
    ensures var o := Execute(Rewind(), Rewind().systems[0], m, st);
            o.ok && o.state.pending == {Event(0.0, 0, 1, 1)} && o.state.now == st.now
  {
    var s := Rewind().systems[0];
    var st1 := Looked(st);
    var emitted := Emit(s.emissions[0], m, st1);
    assert EmitFrom(s.emissions, 0, m, st1) == EmitFrom(s.emissions, 1, m, emitted.state) == emitted;
    assert CreateFrom(Rewind().types, s.creations, 0, m, st1) == Outcome(true, st1);
  }

  lemma RewindTriggers()
    ensures Triggered(Rewind(), 0, 1) == [0]
  {
    assert Entries([0], 0, 0) == Entries([0][..0], 0, 0) + [0];
    assert Triggered(Rewind(), 0, 1) == Triggered(Rewind(), 0, 0) + Entries([0], 0, 0);
  }

  lemma RewindGoesBack(late: Event, st: State)
    requires st.pending == {late} && st.nextOrdinal == 1 && late.kind == 0
    ensures var o := Next(Rewind(), late, st);
            o.ok && o.state.pending == {Event(0.0, 0, 1, 1)} && o.state.now == late.time
  {
    hide Execute, Triggered, Entries;
    var setup, s := Rewind(), Rewind().systems[0];
    var begun := Expired(st.(pending := st.pending - {late}), late.time);
    RewindEmits(Match(late, 0, None, None), begun);
    RewindTriggers();
    var o := Execute(setup, s, Match(late, 0, None, None), begun);
    assert EntitiesFrom(setup, s, late, 0, begun) == EntitiesFrom(setup, s, late, 1, o.state) == o;
    assert SystemsFrom(setup, late, [0], 0, begun) == SystemsFrom(setup, late, [0], 1, o.state) == o;
  }

  /** A run that goes from time 5 back to time 0. */
  lemma TimeCanGoBack() returns (setup: Setup, sts: seq<State>, es: seq<Event>)
    ensures Valid(setup) && IsRun(setup, sts, es) && !InOrder(es)
    ensures sts[0] == State([], {Event(5.0, 0, 0, 0)}, 1, 0.0, 0, [])
    ensures |es| == 2 && sts[1].now == 5.0 && sts[2].now == 0.0
  {
    hide Process;
    setup := Rewind();
    var late, early := Event(5.0, 0, 0, 0), Event(0.0, 0, 1, 1);
    var st := State([], {late}, 1, 0.0, 0, []);
    var st1 := Next(setup, late, st).state;
    RewindGoesBack(late, st);
    es, sts := [late, early], [st, st1, Next(setup, early, st1).state];
    ProcessIsRecorded(setup, early, st1.(pending := st1.pending - {early}));
    assert es[0].time > es[0 + 1].time;
  }

  // ------------------------------------------------------------- the runtime

  datatype Exit = Drained | Halted | PastMaxTime | Failed

  function Listed(index: map<nat, seq<nat>>, kind: nat): seq<nat>
  {
    if kind in index then index[kind] else []
  }

  ghost predicate IsIndex(setup: Setup, index: map<nat, seq<nat>>, n: nat)
    requires n <= |setup.systems|
  {
    forall kind: nat :: Listed(index, kind) == Triggered(setup, kind, n)
  }

  lemma EntriesStep(triggers: seq<nat>, k: nat, system: nat, kind: nat, known: seq<nat>)
    requires k < |triggers|
    ensures known + Entries(triggers[..k + 1], kind, system)
         == known + Entries(triggers[..k], kind, system) + if triggers[k] == kind then [system] else []
  {
    assert triggers[..k + 1][..k] == triggers[..k];
  }

  /** The systems of each event type, built once before the run. */
  method SystemsByEventType(setup: Setup) returns (index: map<nat, seq<nat>>)
    ensures IsIndex(setup, index, |setup.systems|)
  {
    index := map[];
    for n := 0 to |setup.systems|
      invariant IsIndex(setup, index, n)
    {
      index := PushSystem(setup, index, n);
    }
  }

  method PushSystem(setup: Setup, known: map<nat, seq<nat>>, n: nat) returns (index: map<nat, seq<nat>>)
    requires n < |setup.systems|
    ensures forall kind: nat :: Listed(index, kind) == Listed(known, kind) + Listing(setup, kind, n)
  {
    hide Entries;
    index := known;
    var triggers := setup.systems[n].triggers;
    if triggers == [] {
      for kind := 0 to setup.eventTypes
        invariant forall x: nat :: Listed(index, x) == Listed(known, x) + if x < kind then [n] else []
      {
        index := index[kind := Listed(index, kind) + [n]];
      }
    } else {
      NoEntries(n);
      for k := 0 to |triggers|
        invariant forall x: nat :: Listed(index, x) == Listed(known, x) + Entries(triggers[..k], x, n)
      {
        ghost var before := index;
        index := index[triggers[k] := Listed(index, triggers[k]) + [n]];
        forall x: nat
          ensures Listed(index, x) == Listed(known, x) + Entries(triggers[..k + 1], x, n)
        {
          EntriesStep(triggers, k, n, x, Listed(known, x));
          assert Listed(before, x) == Listed(known, x) + Entries(triggers[..k], x, n);
        }
      }
      assert triggers[..|triggers|] == triggers;
    }
  }

  lemma NoEntries(system: nat)
    ensures forall kind: nat :: Entries([], kind, system) == []
  {
  }

  class Runtime {
    const setup: Setup
    const systemsByEventType: map<nat, seq<nat>>
    var relations: seq<Relation>
    var pending: set<Event>
    var nextOrdinal: nat
    var now: real
    var evaluations: nat
    ghost var seen: seq<Snapshot>

    constructor (declared: Setup, initial: seq<Relation>, events: set<Event>, first: nat)
      ensures Indexed() && setup == declared && Current() == State(initial, events, first, 0.0, 0, [])
    {
      var index := SystemsByEventType(declared);
      setup, systemsByEventType, relations, pending, nextOrdinal := declared, index, initial, events, first;
      now, evaluations, seen := 0.0, 0, [];
    }

    ghost predicate Indexed()
    {
      IsIndex(setup, systemsByEventType, |setup.systems|)
    }

    ghost function Current(): State
      reads this
    {
      State(relations, pending, nextOrdinal, now, evaluations, seen)
    }

    /** remove_if, then erase. */
    method ExpireRelations()
      modifies `relations
      ensures relations == Unexpired(old(relations), now)
    {
      var kept: seq<Relation> := [];
      for k := 0 to |relations|
        invariant kept == Unexpired(relations[..k], now)
      {
        assert relations[..k + 1][..k] == relations[..k];
        if !(relations[k].expires.Some? && relations[k].expires.value <= now) {
          kept := kept + [relations[k]];
        }
      }
      assert relations[..|relations|] == relations;
      relations := kept;
    }

    method EnforceRelationBounds(kind: nat, source: nat, target: nat) returns (ok: bool)
      requires kind < |setup.types|
      ensures ok <==> Admits(setup.types, relations, kind, source, target)
    {
      var limit := setup.types[kind];
      if limit.maxTotal.Some? {
        var count := 0;
        for k := 0 to |relations|
          invariant count == Count(relations[..k], kind)
        {
          assert relations[..k + 1][..k] == relations[..k];
          if relations[k].kind == kind {
            count := count + 1;
          }
        }
        assert relations[..|relations|] == relations;
        if count >= limit.maxTotal.value {
          return false;
        }
      }
      if limit.maxPerEntity.Some? {
        var countSource, countTarget := 0, 0;
        for k := 0 to |relations|
          invariant countSource == Degree(relations[..k], kind, source)
          invariant countTarget == Degree(relations[..k], kind, target)
        {
          assert relations[..k + 1][..k] == relations[..k];
          if relations[k].kind != kind { continue; }
          if relations[k].source == source || relations[k].target == source {
            countSource := countSource + 1;
          }
          if relations[k].source == target || relations[k].target == target {
            countTarget := countTarget + 1;
          }
        }
        assert relations[..|relations|] == relations;
        if countSource >= limit.maxPerEntity.value || countTarget >= limit.maxPerEntity.value {
          return false;
        }
      }
      ok := true;
    }

    method Evaluate(m: Match) returns (s: Situation)
      modifies `evaluations
      ensures s == Look(old(Current()), m) && Current() == Looked(old(Current()))
    {
      s := Situation(now, relations, m, evaluations);
      evaluations := evaluations + 1;
    }

    method AddRelation(r: Relation)
      modifies `relations, `seen
      ensures Current() == Added(old(Current()), r)
    {
      relations := relations + [r];
      seen := seen + [Snapshot(now, relations)];
    }

    method ScheduleEvent(time: real, x: Emission)
      modifies `pending, `nextOrdinal
      ensures Current() == Scheduled(old(Current()), time, x)
    {
      pending := pending + {Event(time, x.priority, nextOrdinal, x.kind)};
      nextOrdinal := nextOrdinal + 1;
    }

    method CreateOne(c: Creation, m: Match) returns (ok: bool)
      requires c.kind < |setup.types|
      modifies `relations, `evaluations, `seen
      ensures Outcome(ok, Current()) == Create(setup.types, c, m, old(Current()))
    {
      hide Admits;
      var situation := Evaluate(m);
      var wanted := c.when(situation);
      if wanted.None? {
        return false;
      }
      if !wanted.value {
        return true;
      }
      if (!c.sourceIsSelf || !c.targetIsSelf) && m.other.None? {
        return false;
      }
      var source := if c.sourceIsSelf then m.self else m.other.value;
      var target := if c.targetIsSelf then m.self else m.other.value;
      ok := EnforceRelationBounds(c.kind, source, target);
      if !ok {
        return;
      }
      var expires: Option<real> := None;
      if c.lifetime.Some? {
        situation := Evaluate(m);
        var lifetime := c.lifetime.value(situation);
        if lifetime.None? || lifetime.value <= 0.0 {
          return false;
        }
        expires := Some(now + lifetime.value);
      }
      AddRelation(Relation(c.kind, source, target, expires));
    }

    method EmitOne(x: Emission, m: Match) returns (ok: bool)
      modifies `pending, `nextOrdinal, `evaluations
      ensures Outcome(ok, Current()) == Emit(x, m, old(Current()))
    {
      var situation := Evaluate(m);
      var wanted := x.when(situation);
      if wanted.None? {
        return false;
      }
      if !wanted.value {
        return true;
      }
      var time := now;
      if x.time.Some? {
        situation := Evaluate(m);
        var t := x.time.value(situation);
        if t.None? || t.value < 0.0 {
          return false;
        }
        time := t.value;
      }
      ScheduleEvent(time, x);
      ok := true;
    }

    /** One match; false on an error, which ends the run. */
    method ExecuteMatch(s: System, m: Match) returns (ok: bool)
      requires Valid(setup) && s in setup.systems
      modifies this
      ensures Outcome(ok, Current()) == Execute(setup, s, m, old(Current()))
    {
      hide Create, Emit;
      var situation := Evaluate(m);
      var matched := s.where(situation);
      if matched.None? {
        return false;
      }
      if !matched.value {
        return true;
      }
      ghost var begun := Current();
      for k := 0 to |s.creations|
        invariant CreateFrom(setup.types, s.creations, 0, m, begun)
               == CreateFrom(setup.types, s.creations, k, m, Current())
      {
        ok := CreateOne(s.creations[k], m);
        if !ok {
          return;
        }
      }
      ghost var created := Current();
      for k := 0 to |s.emissions|
        invariant EmitFrom(s.emissions, 0, m, created) == EmitFrom(s.emissions, k, m, Current())
      {
        ok := EmitOne(s.emissions[k], m);
        if !ok {
          return;
        }
      }
      ok := true;
    }

    method RunSystem(s: System, e: Event) returns (ok: bool)
      requires Valid(setup) && s in setup.systems
      modifies this
      ensures Outcome(ok, Current()) == Apply(setup, s, e, old(Current()))
    {
      match s.kind
      case PerEntity => ok := RunPerEntity(s, e);
      case Pair => ok := RunPairs(s, e);
      case PerRelation => ok := RunPerRelation(s, e);
    }

    method RunPerEntity(s: System, e: Event) returns (ok: bool)
      requires Valid(setup) && s in setup.systems
      modifies this
      ensures Outcome(ok, Current()) == EntitiesFrom(setup, s, e, 0, old(Current()))
    {
      hide Execute;
      for i := 0 to |setup.entityTypes|
        invariant EntitiesFrom(setup, s, e, 0, old(Current())) == EntitiesFrom(setup, s, e, i, Current())
      {
        if s.entityType.Some? && setup.entityTypes[i] != s.entityType.value { continue; }
        ok := ExecuteMatch(s, Match(e, i, None, None));
        if !ok {
          return;
        }
      }
      ok := true;
    }

    method RunPairs(s: System, e: Event) returns (ok: bool)
      requires Valid(setup) && s in setup.systems
      modifies this
      ensures Outcome(ok, Current()) == PairsFrom(setup, s, e, 0, old(Current()))
    {
      hide Execute;
      for a := 0 to |setup.entityTypes|
        invariant PairsFrom(setup, s, e, 0, old(Current())) == PairsFrom(setup, s, e, a, Current())
      {
        if s.entityType.Some? && setup.entityTypes[a] != s.entityType.value { continue; }
        ghost var begun := Current();
        for b := a + 1 to |setup.entityTypes|
          invariant PairsWith(setup, s, e, a, a + 1, begun) == PairsWith(setup, s, e, a, b, Current())
        {
          if s.entityType.Some? && setup.entityTypes[b] != s.entityType.value { continue; }
          ok := ExecuteMatch(s, Match(e, a, Some(b), None));
          if !ok {
            return;
          }
        }
      }
      ok := true;
    }

    method RunPerRelation(s: System, e: Event) returns (ok: bool)
      requires Valid(setup) && s in setup.systems && s.kind.PerRelation?
      modifies this
      ensures Outcome(ok, Current()) == RelationsFrom(setup, s, e, old(relations), 0, old(Current()))
    {
      hide Execute;
      for k := 0 to |relations|
        invariant relations == old(relations)
        invariant RelationsFrom(setup, s, e, relations, 0, old(Current()))
               == RelationsFrom(setup, s, e, relations, k, Current())
      {
        var r := relations[k];
        if s.relationType.Some? && r.kind != s.relationType.value { continue; }
        ghost var before := Current();
        ok := ExecuteMatch(s, Match(e, r.source, Some(r.target), Some(r)));
        NoCreations(setup, s, Match(e, r.source, Some(r.target), Some(r)), before);
        if !ok {
          return;
        }
      }
      ok := true;
    }

    method ProcessEvent(e: Event) returns (ok: bool)
      requires Valid(setup) && Indexed()
      modifies this
      ensures Outcome(ok, Current()) == Process(setup, e, old(Current()))
    {
      hide Apply, Triggered;
      now := e.time;
      ExpireRelations();
      seen := seen + [Snapshot(now, relations)];
      ghost var begun := Current();
      var todo := Listed(systemsByEventType, e.kind);
      assert todo == Triggered(setup, e.kind, |setup.systems|);
      for k := 0 to |todo|
        invariant SystemsFrom(setup, e, todo, 0, begun) == SystemsFrom(setup, e, todo, k, Current())
      {
        ok := RunSystem(setup.systems[todo[k]], e);
        if !ok {
          return;
        }
      }
      ok := true;
    }

    /** The loop makes a run of the specification, whose record is therefore
        complete, within bounds and free of expired relations, and ends when
        nothing is pending, by the limit on events, by an event past the end of
        time, or by a failure. */
    method Run(maxEvents: nat, maxTime: real)
      returns (exit: Exit, processed: nat, ghost sts: seq<State>, ghost es: seq<Event>)
      requires Valid(setup) && Indexed()
      modifies this
      ensures IsRun(setup, sts, es) && sts[0] == old(Current()) && processed == |es| <= maxEvents
      ensures forall e :: e in es ==> e.time <= maxTime
      ensures Current() == sts[processed].(pending := pending)
      ensures match exit
              case Drained => pending == sts[processed].pending == {}
              case Halted => pending == sts[processed].pending != {} && processed == maxEvents
              case PastMaxTime =>
                exists e :: IsFirst(e, sts[processed].pending) && e.time > maxTime
                            && pending == sts[processed].pending - {e}
              case Failed => pending == sts[processed].pending
      ensures exit == Failed <==> processed > 0 && !Next(setup, es[processed - 1], sts[processed - 1]).ok
      ensures old(seen) == [] ==> Complete(setup.types, old(relations), seen)
      ensures old(seen) == [] && Bounded(setup.types, old(relations)) ==>
                && Bounded(setup.types, relations) && (processed > 0 ==> Live(relations, now))
                && forall s :: s in seen ==> Good(setup.types, s)
    {
      hide Process, Bounded, Live, Complete, Good;
      exit, processed, sts, es := Drained, 0, [Current()], [];
      while pending != {}
        invariant IsRun(setup, sts, es) && sts[0] == old(Current()) && processed == |es| <= maxEvents
        invariant forall e :: e in es ==> e.time <= maxTime
        invariant Current() == sts[processed] && exit == Drained
        invariant processed > 0 ==> Next(setup, es[processed - 1], sts[processed - 1]).ok
        decreases maxEvents - processed
      {
        if processed >= maxEvents {
          exit := Halted;
          break;
        }
        ghost var first := FirstExists(pending);
        var e :| e in pending && forall x :: x in pending ==>
          e.time < x.time || (e.time == x.time && e.priority >= x.priority);
        ghost var before := Current();
        pending := pending - {e};
        if e.time > maxTime {
          exit := PastMaxTime;
          break;
        }
        processed := processed + 1;
        var ok := ProcessEvent(e);
        RunExtends(setup, sts, es, e);
        sts, es := sts + [Current()], es + [e];
        if !ok {
          exit := Failed;
          break;
        }
      }
      if old(seen) == [] {
        RunIsComplete(setup, sts, es, processed);
        if Bounded(setup.types, old(relations)) {
          RunIsBounded(setup, sts, es, processed);
        }
      }
    }
  }

  lemma NoCreations(setup: Setup, s: System, m: Match, st: State)
    requires Valid(setup) && s in setup.systems && s.creations == []
    ensures Execute(setup, s, m, st).state.relations == st.relations
  {
    hide Emit, Valid;
    var st1 := Looked(st);
    assert CreateFrom(setup.types, s.creations, 0, m, st1) == Outcome(true, st1);
    EmitFromKeepsRelations(s.emissions, 0, m, st1);
  }

  lemma {:induction false} EmitFromKeepsRelations(xs: seq<Emission>, k: nat, m: Match, st: State)
    requires k <= |xs|
    ensures EmitFrom(xs, k, m, st).state.relations == st.relations
    decreases |xs| - k
  {
    if k < |xs| && Emit(xs[k], m, st).ok {
      EmitFromKeepsRelations(xs, k + 1, m, Emit(xs[k], m, st).state);
    }
  }
}

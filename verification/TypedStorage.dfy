/** The compiled structure-of-arrays storage of the typed layer: index tables
    between entities and component instances, and one buffer per field
    (src/compiler/scenario_compiler.cpp, compile_typed_layer;
    src/engine/typed_runtime.cpp, read_component_field and
    write_component_field). */
module TypedStorage {
  import opened Optional
  import opened StringOrder
  import opened VariableStore

  datatype Field = Field(name: string, kind: VariableType)

  datatype Component = Component(id: string, fields: seq<Field>)

  /** The declared values: component id to field name to value. */
  datatype Entity = Entity(kind: nat, declared: map<string, map<string, Scalar>>)

  /** An entity type is the list of the indices of its components. */
  datatype Layer = Layer(components: seq<Component>, entityTypes: seq<seq<nat>>, entities: seq<Entity>)

  /** Ids and field names are distinct, and indices are in range. */
  ghost predicate ValidLayer(l: Layer)
  {
    && (forall i, j :: 0 <= i < j < |l.components| ==> l.components[i].id != l.components[j].id)
    && (forall c, i, j :: 0 <= c < |l.components| && 0 <= i < j < |l.components[c].fields| ==>
         l.components[c].fields[i].name != l.components[c].fields[j].name)
    && (forall t, k :: 0 <= t < |l.entityTypes| && 0 <= k < |l.entityTypes[t]| ==> l.entityTypes[t][k] < |l.components|)
    && (forall e :: 0 <= e < |l.entities| ==> l.entities[e].kind < |l.entityTypes|)
  }

  function ComponentsOf(l: Layer, e: nat): seq<nat>
    requires ValidLayer(l) && e < |l.entities|
  {
    l.entityTypes[l.entities[e].kind]
  }

  // ------------------------------------------------------------ index tables

  /** One copy of e for every occurrence of c in a list of components. */
  function Copies(e: int, list: seq<nat>, c: nat): seq<int>
  {
    if list == [] then []
    else Copies(e, list[..|list| - 1], c) + if list[|list| - 1] == c then [e] else []
  }

  /** The owners of the instances of component c among the first n entities. */
  function Owners(l: Layer, c: nat, n: nat): seq<int>
    requires ValidLayer(l) && n <= |l.entities|
  {
    if n == 0 then [] else Owners(l, c, n - 1) + Copies(n - 1, ComponentsOf(l, n - 1), c)
  }

  /** The last position of x, or -1. */
  function LastPosition(s: seq<int>, x: int): int
  {
    if s == [] then -1 else if s[|s| - 1] == x then |s| - 1 else LastPosition(s[..|s| - 1], x)
  }

  ghost predicate Distinct(s: seq<int>)
  {
    forall i, j :: 0 <= i < j < |s| ==> s[i] != s[j]
  }

  lemma {:induction false} LastPositionFinds(s: seq<int>, x: int)
    ensures if x in s then 0 <= LastPosition(s, x) < |s| && s[LastPosition(s, x)] == x else LastPosition(s, x) == -1
    ensures forall k :: LastPosition(s, x) < k < |s| ==> s[k] != x
  {
    if s != [] {
      LastPositionFinds(s[..|s| - 1], x);
      assert s == s[..|s| - 1] + [s[|s| - 1]];
    }
  }

  /** Positions and entries are inverse both ways exactly without duplicates. */
  lemma InverseIffDistinct(s: seq<int>)
    ensures (forall i :: 0 <= i < |s| ==> LastPosition(s, s[i]) == i) <==> Distinct(s)
  {
    forall i | 0 <= i < |s|
      ensures i <= LastPosition(s, s[i]) < |s| && s[LastPosition(s, s[i])] == s[i]
    {
      LastPositionFinds(s, s[i]);
    }
  }

  lemma {:induction false} CopiesAre(e: int, list: seq<nat>, c: nat)
    ensures |Copies(e, list, c)| == multiset(list)[c] && (forall x :: x in Copies(e, list, c) <==> x == e && c in list)
  {
    if list != [] {
      var init, last := list[..|list| - 1], list[|list| - 1];
      CopiesAre(e, init, c);
      assert list == init + [last];
      assert multiset(list) == multiset(init) + multiset{last};
    }
  }

  lemma {:induction false} OwnersAre(l: Layer, c: nat, n: nat)
    requires ValidLayer(l) && n <= |l.entities|
    ensures forall x :: x in Owners(l, c, n) <==> 0 <= x < n && c in ComponentsOf(l, x)
  {
    hide ValidLayer, Copies;
    if n > 0 {
      OwnersAre(l, c, n - 1);
      CopiesAre(n - 1, ComponentsOf(l, n - 1), c);
    }
  }

  /** No entity lists the component twice. */
  ghost predicate ListedOnce(l: Layer, c: nat, n: nat)
    requires ValidLayer(l) && n <= |l.entities|
  {
    forall e :: 0 <= e < n ==> multiset(ComponentsOf(l, e))[c] <= 1
  }

  lemma {:induction false} DistinctIffListedOnce(l: Layer, c: nat, n: nat)
    requires ValidLayer(l) && n <= |l.entities|
    ensures Distinct(Owners(l, c, n)) <==> ListedOnce(l, c, n)
  {
    hide ValidLayer, Copies, Distinct;
    if n == 0 {
      NoneIsDistinct();
    } else {
      var before, copies := Owners(l, c, n - 1), Copies(n - 1, ComponentsOf(l, n - 1), c);
      DistinctIffListedOnce(l, c, n - 1);
      OwnersAre(l, c, n - 1);
      CopiesAre(n - 1, ComponentsOf(l, n - 1), c);
      DistinctSplit(before, copies, n - 1);
    }
  }

  lemma NoneIsDistinct()
    ensures Distinct([])
  {
  }

  lemma DistinctSplit(s: seq<int>, t: seq<int>, x: int)
    requires (forall y :: y in t ==> y == x) && x !in s
    ensures Distinct(s + t) <==> Distinct(s) && |t| <= 1
  {
    var r := s + t;
    if Distinct(r) {
      forall i, j | 0 <= i < j < |s|
        ensures s[i] != s[j]
      {
        assert r[i] == s[i] && r[j] == s[j];
      }
    }
    if |t| > 1 {
      assert t[0] in t && t[1] in t;
      assert r[|s|] == t[0] && r[|s| + 1] == t[1];
    }
    if Distinct(s) && |t| <= 1 {
      assert |t| == 1 ==> t[0] in t;
      forall i, j | 0 <= i < j < |r|
        ensures r[i] != r[j]
      {
        assert r[i] == s[i] && r[i] in s;
      }
    }
  }

  datatype Table = Table(entityToInstance: seq<int>, instanceToEntity: seq<int>)

  function EmptyTable(l: Layer): Table
  {
    Table(seq(|l.entities|, _ => -1), [])
  }

  /** The tables of one component after the first n entities and k components of
      the next one. */
  ghost predicate TableAfter(l: Layer, t: Table, c: nat, n: nat, more: seq<int>)
    requires ValidLayer(l) && n <= |l.entities|
  {
    && |t.entityToInstance| == |l.entities| && t.instanceToEntity == Owners(l, c, n) + more
    && forall e :: 0 <= e < |l.entities| ==> t.entityToInstance[e] == LastPosition(t.instanceToEntity, e)
  }

  /** Adds an instance of component c for entity e to the tables. */
  method AddInstance(tables: seq<Table>, c: nat, e: nat) returns (r: seq<Table>)
    requires c < |tables| && e < |tables[c].entityToInstance|
    ensures r == tables[c := Table(tables[c].entityToInstance[e := |tables[c].instanceToEntity|],
                                   tables[c].instanceToEntity + [e])]
  {
    var t := tables[c];
    var instance := |t.instanceToEntity|;
    t := t.(entityToInstance := t.entityToInstance[e := instance]);
    t := t.(instanceToEntity := t.instanceToEntity + [e]);
    r := tables[c := t];
  }

  lemma AddedInstance(l: Layer, before: Table, after: Table, c: nat, n: nat, more: seq<int>)
    requires ValidLayer(l) && n < |l.entities| && TableAfter(l, before, c, n, more)
    requires after == Table(before.entityToInstance[n := |before.instanceToEntity|], before.instanceToEntity + [n])
    ensures TableAfter(l, after, c, n, more + [n])
  {
    var s := before.instanceToEntity;
    assert (s + [n])[..|s|] == s;
    assert Owners(l, c, n) + (more + [n]) == Owners(l, c, n) + more + [n];
  }

  method BuildTables(l: Layer) returns (tables: seq<Table>)
    requires ValidLayer(l)
    ensures |tables| == |l.components|
    ensures forall c :: 0 <= c < |tables| ==> TableAfter(l, tables[c], c, |l.entities|, [])
  {
    hide ValidLayer, LastPosition;
    NothingYet(l);
    tables := seq(|l.components|, _ => EmptyTable(l));
    for e := 0 to |l.entities|
      invariant |tables| == |l.components| && forall c :: 0 <= c < |tables| ==> TableAfter(l, tables[c], c, e, [])
    {
      var list := ComponentsOf(l, e);
      for k := 0 to |list|
        invariant |tables| == |l.components|
        invariant forall c :: 0 <= c < |tables| ==> TableAfter(l, tables[c], c, e, Copies(e, list[..k], c))
      {
        assert list[..k + 1][..k] == list[..k];
        var c := list[k];
        IndexIsValid(l, e, k);
        ghost var before := tables;
        tables := AddInstance(tables, c, e);
        AddedInstance(l, before[c], tables[c], c, e, Copies(e, list[..k], c));
        forall d | 0 <= d < |tables|
          ensures TableAfter(l, tables[d], d, e, Copies(e, list[..k + 1], d))
        {
          assert d != c ==> Copies(e, list[..k + 1], d) == Copies(e, list[..k], d);
        }
      }
      assert list[..|list|] == list;
      forall c | 0 <= c < |tables|
        ensures TableAfter(l, tables[c], c, e + 1, [])
      {
        assert Owners(l, c, e + 1) + [] == Owners(l, c, e) + Copies(e, list, c);
      }
    }
  }

  lemma IndexIsValid(l: Layer, e: nat, k: nat)
    requires ValidLayer(l) && e < |l.entities| && k < |ComponentsOf(l, e)|
    ensures ComponentsOf(l, e)[k] < |l.components|
  {
  }

  lemma NothingYet(l: Layer)
    requires ValidLayer(l)
    ensures forall c :: TableAfter(l, EmptyTable(l), c, 0, [])
  {
  }

  /** The tables agree: the instance of an entity that has the component belongs
      to it, an entity without it has none, and the inverse holds exactly when no
      entity lists the component twice. */
  lemma TablesAgree(l: Layer, t: Table, c: nat)
    requires ValidLayer(l) && TableAfter(l, t, c, |l.entities|, [])
    ensures |t.entityToInstance| == |l.entities|
    ensures forall e :: 0 <= e < |l.entities| ==>
              if c in ComponentsOf(l, e)
              then 0 <= t.entityToInstance[e] < |t.instanceToEntity| && t.instanceToEntity[t.entityToInstance[e]] == e
              else t.entityToInstance[e] == -1
    ensures forall i :: 0 <= i < |t.instanceToEntity| ==>
              0 <= t.instanceToEntity[i] < |l.entities| && c in ComponentsOf(l, t.instanceToEntity[i])
    ensures (forall i :: 0 <= i < |t.instanceToEntity| ==> t.entityToInstance[t.instanceToEntity[i]] == i)
            <==> ListedOnce(l, c, |l.entities|)
  {
    hide ValidLayer;
    var s := t.instanceToEntity;
    assert s == Owners(l, c, |l.entities|);
    OwnersAre(l, c, |l.entities|);
    forall e | 0 <= e < |l.entities|
      ensures if c in ComponentsOf(l, e) then 0 <= t.entityToInstance[e] < |s| && s[t.entityToInstance[e]] == e
              else t.entityToInstance[e] == -1
    {
      LastPositionFinds(s, e);
    }
    forall i | 0 <= i < |s|
      ensures 0 <= s[i] < |l.entities| && c in ComponentsOf(l, s[i])
              && t.entityToInstance[s[i]] == LastPosition(s, s[i])
    {
      assert s[i] in s;
    }
    InverseIffDistinct(s);
    DistinctIffListedOnce(l, c, |l.entities|);
  }

  /** A concrete layer whose entity type lists its component twice: instance 0
      belongs to entity 0, whose instance is 1. */
  lemma ListedTwiceBreaksInverse(t: Table)
    requires var l := Layer([Component("c", [])], [[0, 0]], [Entity(0, map[])]);
             ValidLayer(l) && TableAfter(l, t, 0, 1, [])
    ensures t.instanceToEntity == [0, 0] && t.entityToInstance == [1]
  {
    var l := Layer([Component("c", [])], [[0, 0]], [Entity(0, map[])]);
    assert ComponentsOf(l, 0) == [0, 0] && [0, 0][..1] == [0];
    assert Copies(0, [0, 0], 0) == Copies(0, [0], 0) + [0] && Copies(0, [0], 0) == [] + [0];
    assert Owners(l, 0, 1) == Owners(l, 0, 0) + [0, 0] == [0, 0];
  }

  // ----------------------------------------------------------------- buffers

  function Zero(kind: VariableType): Scalar
  {
    match kind
    case Integer => IntValue(0)
    case Float => FloatValue(0.0)
    case Text => TextValue("")
    case Boolean => BoolValue(false)
  }

  /** What a buffer of a type stores for a value; nothing if it refuses it.  A
      float buffer also takes integers. */
  function Accepted(kind: VariableType, v: Scalar): (r: Option<Scalar>)
    ensures r.Some? ==> HasType(r.value, kind)
    ensures HasType(v, kind) ==> r == Some(v)
  {
    match (kind, v)
    case (Float, IntValue(i)) => Some(FloatValue(i as real))
    case _ => if HasType(v, kind) then Some(v) else None
  }

  /** A field of a component of an entity. */
  datatype Key = Key(component: nat, field: nat, entity: nat)

  ghost predicate Has(l: Layer, k: Key)
    requires ValidLayer(l)
  {
    && k.component < |l.components| && k.field < |l.components[k.component].fields|
    && k.entity < |l.entities| && k.component in ComponentsOf(l, k.entity)
  }

  function FieldOf(l: Layer, k: Key): Field
    requires ValidLayer(l) && Has(l, k)
  {
    l.components[k.component].fields[k.field]
  }

  /** The declared value, or zero if there is none of the right type. */
  function Wanted(l: Layer, k: Key): Scalar
    requires ValidLayer(l) && Has(l, k)
  {
    var declared, id, field := l.entities[k.entity].declared, l.components[k.component].id, FieldOf(l, k);
    if id in declared && field.name in declared[id] && Accepted(field.kind, declared[id][field.name]).Some?
    then Accepted(field.kind, declared[id][field.name]).value
    else Zero(field.kind)
  }

  function FindComponent(l: Layer, id: string, n: nat): Option<nat>
    requires n <= |l.components|
  {
    if n == 0 then None else if l.components[n - 1].id == id then Some(n - 1) else FindComponent(l, id, n - 1)
  }

  lemma {:induction false} ComponentFound(l: Layer, id: string, n: nat)
    requires n <= |l.components|
    ensures var r := FindComponent(l, id, n);
            if r.Some? then r.value < n && l.components[r.value].id == id
            else forall i :: 0 <= i < n ==> l.components[i].id != id
  {
    if n > 0 {
      ComponentFound(l, id, n - 1);
    }
  }

  function FindField(fields: seq<Field>, name: string, n: nat): Option<nat>
    requires n <= |fields|
  {
    if n == 0 then None else if fields[n - 1].name == name then Some(n - 1) else FindField(fields, name, n - 1)
  }

  lemma {:induction false} FieldFound(fields: seq<Field>, name: string, n: nat)
    requires n <= |fields|
    ensures var r := FindField(fields, name, n);
            if r.Some? then r.value < n && fields[r.value].name == name
            else forall i :: 0 <= i < n ==> fields[i].name != name
  {
    if n > 0 {
      FieldFound(fields, name, n - 1);
    }
  }

  function First(names: seq<string>, n: nat): set<string>
    requires n <= |names|
  {
    set j | 0 <= j < n :: names[j]
  }

  lemma FirstGrows(names: seq<string>, n: nat)
    requires n < |names|
    ensures First(names, n + 1) == First(names, n) + {names[n]}
  {
  }

  lemma AllFirst(names: seq<string>, keys: set<string>)
    requires forall k :: k in names <==> k in keys
    ensures First(names, |names|) == keys
  {
  }

  class Storage {
    const layer: Layer
    const tables: seq<Table>
    var buffers: seq<seq<seq<Scalar>>>

    ghost predicate Tabled()
    {
      && ValidLayer(layer) && |tables| == |layer.components|
      && forall c :: 0 <= c < |tables| ==> TableAfter(layer, tables[c], c, |layer.entities|, [])
    }

    ghost predicate Valid()
      reads this
    {
      && Tabled() && |buffers| == |tables|
      && (forall c :: 0 <= c < |buffers| ==> |buffers[c]| == |layer.components[c].fields|)
      && (forall c, f :: 0 <= c < |buffers| && 0 <= f < |buffers[c]| ==>
          |buffers[c][f]| == |tables[c].instanceToEntity|)
      && (forall c, f, i :: 0 <= c < |buffers| && 0 <= f < |buffers[c]| && 0 <= i < |buffers[c][f]| ==>
           HasType(buffers[c][f][i], layer.components[c].fields[f].kind))
    }

    lemma InstanceInRange(k: Key)
      requires Tabled() && Has(layer, k)
      ensures var t := tables[k.component];
              0 <= t.entityToInstance[k.entity] < |t.instanceToEntity|
              && t.instanceToEntity[t.entityToInstance[k.entity]] == k.entity
    {
      TablesAgree(layer, tables[k.component], k.component);
    }

    /** The value stored for a field of an entity. */
    ghost function Cell(k: Key): Scalar
      requires Valid() && Has(layer, k)
      reads this
    {
      InstanceInRange(k);
      buffers[k.component][k.field][tables[k.component].entityToInstance[k.entity]]
    }

    /** Reading fails exactly for an entity without the component. */
    method ReadComponentField(c: nat, f: nat, e: nat) returns (r: Option<Scalar>)
      requires Valid() && c < |layer.components| && f < |layer.components[c].fields| && e < |layer.entities|
      ensures r.Some? <==> Has(layer, Key(c, f, e))
      ensures r.Some? ==> r.value == Cell(Key(c, f, e)) && HasType(r.value, layer.components[c].fields[f].kind)
    {
      TablesAgree(layer, tables[c], c);
      var instance := tables[c].entityToInstance[e];
      if instance < 0 {
        return None;
      }
      r := Some(buffers[c][f][instance]);
    }

    /** A write changes exactly one field of one component of one entity. */
    method WriteComponentField(c: nat, f: nat, e: nat, v: Scalar) returns (ok: bool)
      requires Valid() && c < |layer.components| && f < |layer.components[c].fields| && e < |layer.entities|
      modifies `buffers
      ensures Valid()
      ensures ok <==> Has(layer, Key(c, f, e)) && Accepted(layer.components[c].fields[f].kind, v).Some?
      ensures !ok ==> buffers == old(buffers)
      ensures ok ==> forall k :: Has(layer, k) ==>
                Cell(k)
                == if k == Key(c, f, e) then Accepted(layer.components[c].fields[f].kind, v).value else old(Cell(k))
    {
      hide TableAfter, ValidLayer;
      TablesAgree(layer, tables[c], c);
      var instance := tables[c].entityToInstance[e];
      if instance < 0 {
        return false;
      }
      var accepted := Accepted(layer.components[c].fields[f].kind, v);
      if accepted.None? {
        return false;
      }
      buffers := buffers[c := buffers[c][f := buffers[c][f][instance := accepted.value]]];
      ok := true;
      forall k | Has(layer, k) && k != Key(c, f, e)
        ensures Cell(k) == old(Cell(k))
      {
        InstanceInRange(k);
      }
    }

    // ------------------------------------------------------- initial values

    function NameOf(k: Key): string
      requires ValidLayer(layer) && Has(layer, k)
    {
      FieldOf(layer, k).name
    }

    /** Declared values are in place for the entities before e, for the
        components `ids` of e, and for the fields `names` of its component `id`;
        everything else is still zero. */
    ghost predicate Filled(e: nat, ids: set<string>, id: string, names: set<string>)
      requires Valid()
      reads this
    {
      forall k :: Has(layer, k) ==>
        var own := layer.components[k.component].id;
        Cell(k) == if k.entity < e || (k.entity == e && (own in ids || (own == id && NameOf(k) in names)))
                   then Wanted(layer, k) else Zero(FieldOf(layer, k).kind)
    }

    constructor (l: Layer)
      requires ValidLayer(l)
      ensures layer == l && Valid() && forall k :: Has(layer, k) ==> Cell(k) == Wanted(layer, k)
    {
      hide TableAfter, Wanted, ValidLayer;
      var built := BuildTables(l);
      layer, tables := l, built;
      buffers := seq(|l.components|, c requires 0 <= c < |l.components| =>
                   seq(|l.components[c].fields|, f requires 0 <= f < |l.components[c].fields| =>
                     seq(|built[c].instanceToEntity|, _ => Zero(l.components[c].fields[f].kind))));
      new;
      AllZero();
      for e := 0 to |layer.entities|
        invariant Valid() && Filled(e, {}, "", {})
      {
        FillEntity(e);
      }
      AllFilled();
    }

    lemma AllZero()
      requires Valid() && forall c, f, i :: 0 <= c < |buffers| && 0 <= f < |buffers[c]| && 0 <= i < |buffers[c][f]| ==>
                 buffers[c][f][i] == Zero(layer.components[c].fields[f].kind)
      ensures Filled(0, {}, "", {})
    {
      hide TableAfter, ValidLayer, Wanted;
      forall k | Has(layer, k)
        ensures Cell(k) == Zero(FieldOf(layer, k).kind)
      {
        InstanceInRange(k);
      }
    }

    lemma AllFilled()
      requires Valid() && Filled(|layer.entities|, {}, "", {})
      ensures forall k :: Has(layer, k) ==> Cell(k) == Wanted(layer, k)
    {
      hide TableAfter, ValidLayer, Wanted;
    }

    method FillEntity(e: nat)
      requires Valid() && e < |layer.entities| && Filled(e, {}, "", {})
      modifies `buffers
      ensures Valid() && Filled(e + 1, {}, "", {})
    {
      hide Valid, Wanted, Has, Filled;
      var ids := AscendingKeys(layer.entities[e].declared.Keys);
      assert First(ids, 0) == {};
      for i := 0 to |ids|
        invariant Valid() && Filled(e, First(ids, i), "", {})
      {
        FirstGrows(ids, i);
        FillComponent(e, ids[i], First(ids, i));
      }
      AllFirst(ids, layer.entities[e].declared.Keys);
      EntityDone(e);
    }

    method FillComponent(e: nat, id: string, ghost ids: set<string>)
      requires Valid() && e < |layer.entities| && id in layer.entities[e].declared && Filled(e, ids, "", {})
      modifies `buffers
      ensures Valid() && Filled(e, ids + {id}, "", {})
    {
      hide TableAfter, Wanted, Filled;
      var fields := layer.entities[e].declared[id];
      var found := FindComponent(layer, id, |layer.components|);
      ComponentFound(layer, id, |layer.components|);
      if found.None? {
        NoSuchComponent(e, ids, id);
        return;
      }
      var c := found.value;
      TablesAgree(layer, tables[c], c);
      if tables[c].entityToInstance[e] < 0 {
        NotOwned(e, ids, id, c);
        return;
      }
      ComponentBegins(e, ids, id);
      var names := AscendingKeys(fields.Keys);
      assert First(names, 0) == {};
      for i := 0 to |names|
        invariant Valid() && Filled(e, ids, id, First(names, i))
      {
        FirstGrows(names, i);
        FillField(e, c, id, names[i], ids, First(names, i));
      }
      AllFirst(names, fields.Keys);
      ComponentDone(e, ids, id);
    }

    method FillField(e: nat, c: nat, id: string, name: string, ghost ids: set<string>, ghost names: set<string>)
      requires Valid() && e < |layer.entities| && c < |layer.components| && layer.components[c].id == id
      requires c in ComponentsOf(layer, e) && id in layer.entities[e].declared && name in layer.entities[e].declared[id]
      requires Filled(e, ids, id, names)
      modifies `buffers
      ensures Valid() && Filled(e, ids, id, names + {name})
    {
      hide TableAfter, Wanted, Accepted, Zero;
      var fields := layer.components[c].fields;
      var found := FindField(fields, name, |fields|);
      FieldFound(fields, name, |fields|);
      var ok := false;
      if found.Some? {
        ok := WriteComponentField(c, found.value, e, layer.entities[e].declared[id][name]);
      }
      forall k | Has(layer, k) && k.entity == e && layer.components[k.component].id == id && NameOf(k) == name
        ensures Cell(k) == Wanted(layer, k)
      {
        IsWanted(k);
      }
    }

    /** The written value is the declared one; a refused value stays zero. */
    lemma IsWanted(k: Key)
      requires ValidLayer(layer) && Has(layer, k)
      ensures forall c ::
                0 <= c < |layer.components| && layer.components[c].id == layer.components[k.component].id ==>
                  c == k.component
      ensures forall f :: 0 <= f < |layer.components[k.component].fields| ==>
                (layer.components[k.component].fields[f].name == NameOf(k) <==> f == k.field)
      ensures var declared, id := layer.entities[k.entity].declared, layer.components[k.component].id;
              id in declared && NameOf(k) in declared[id] ==>
                var v := Accepted(FieldOf(layer, k).kind, declared[id][NameOf(k)]);
                Wanted(layer, k) == if v.Some? then v.value else Zero(FieldOf(layer, k).kind)
    {
    }

    lemma NoSuchComponent(e: nat, ids: set<string>, id: string)
      requires Valid() && Filled(e, ids, "", {})
      requires forall c :: 0 <= c < |layer.components| ==> layer.components[c].id != id
      ensures Filled(e, ids + {id}, "", {})
    {
    }

    lemma NotOwned(e: nat, ids: set<string>, id: string, c: nat)
      requires Valid() && e < |layer.entities| && Filled(e, ids, "", {}) && c < |layer.components|
               && layer.components[c].id == id
      requires c !in ComponentsOf(layer, e)
      ensures Filled(e, ids + {id}, "", {})
    {
    }

    lemma ComponentBegins(e: nat, ids: set<string>, id: string)
      requires Valid() && Filled(e, ids, "", {})
      ensures Filled(e, ids, id, {})
    {
    }

    lemma ComponentDone(e: nat, ids: set<string>, id: string)
      requires Valid() && e < |layer.entities| && id in layer.entities[e].declared
      requires Filled(e, ids, id, layer.entities[e].declared[id].Keys)
      ensures Filled(e, ids + {id}, "", {})
    {
    }

    lemma EntityDone(e: nat)
      requires Valid() && e < |layer.entities| && Filled(e, layer.entities[e].declared.Keys, "", {})
      ensures Filled(e + 1, {}, "", {})
    {
    }
  }
}

/** Typed variables of a v1 scenario and the numeric view the dependency engine
    has of them (src/engine/simulation_engine.cpp, get_numeric_value and
    set_numeric_value).  The compiler gives every variable its own buffer slot,
    so the four buffers are modelled as one map from variable to value. */
module VariableStore {

  datatype VariableType = Integer | Float | Text | Boolean

  datatype Scalar = IntValue(i: int) | FloatValue(x: real) | TextValue(s: string) | BoolValue(b: bool)

  type Handles = map<string, VariableType>
  type Values = map<string, Scalar>

  predicate HasType(v: Scalar, t: VariableType)
  {
    match t
    case Integer => v.IntValue?
    case Float => v.FloatValue?
    case Text => v.TextValue?
    case Boolean => v.BoolValue?
  }

  predicate WellTyped(handles: Handles, values: Values)
  {
    values.Keys == handles.Keys && forall v :: v in handles ==> HasType(values[v], handles[v])
  }

  /** Rounds to the nearest integer, halves away from zero. */
  function RoundHalfAway(x: real): int
  {
    if x >= 0.0 then (x + 0.5).Floor else -((0.5 - x).Floor)
  }

  function AsNumber(v: Scalar): real
  {
    match v
    case IntValue(i) => i as real
    case FloatValue(x) => x
    case BoolValue(b) => if b then 1.0 else 0.0
    case TextValue(_) => 0.0
  }

  /** A variable without a handle, and a text variable, reads as zero. */
  function NumericValue(values: Values, id: string): real
  {
    if id in values then AsNumber(values[id]) else 0.0
  }

  /** What storing a number leaves in a slot: text slots keep their value. */
  function Coerce(slot: Scalar, x: real): Scalar
  {
    match slot
    case IntValue(_) => IntValue(RoundHalfAway(x))
    case FloatValue(_) => FloatValue(x)
    case BoolValue(_) => BoolValue(x != 0.0)
    case TextValue(_) => slot
  }

  function SetNumeric(values: Values, id: string, x: real): (r: Values)
    ensures r.Keys == values.Keys
  {
    if id in values then values[id := Coerce(values[id], x)] else values
  }

  /** A stored number reads back unchanged when its slot can represent it. */
  lemma StoredNumberReadsBack(values: Values, id: string, x: real)
    requires id in values && !values[id].TextValue?
    ensures values[id].FloatValue? ==> NumericValue(SetNumeric(values, id, x), id) == x
    ensures values[id].IntValue? ==> -0.5 <= NumericValue(SetNumeric(values, id, x), id) - x <= 0.5
    ensures values[id].BoolValue? ==> (NumericValue(SetNumeric(values, id, x), id) == x <==> x == 0.0 || x == 1.0)
    ensures forall other ::
              other != id ==> NumericValue(SetNumeric(values, id, x), other) == NumericValue(values, other)
  {
  }
}

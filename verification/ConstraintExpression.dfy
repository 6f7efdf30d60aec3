/** Constraint expressions of the v1 runtime: trees, truth and grammar
    (src/noisiax.cpp, ConstraintExpressionParser).  Parentheses hold arithmetic
    only, and a bare arithmetic term is true when it is not zero. */
module ConstraintExpression {
  import opened Optional
  import opened Lexical
  import opened TypedExpression

  datatype Term =
    | Constant(token: string)
    | Variable(id: string)
    | Minus1(a: Term)
    | Joined(op: Op, l: Term, r: Term)
    | NonZero(a: Term)

  datatype Environment = Environment(resolve: string -> Option<real>, toNumber: string -> Option<real>)

  /** Arithmetic on numbers, comparison of numbers, logic on truth values. */
  function JoinValues(op: Op, l: Value, r: Value): Option<Value>
  {
    if op.Or? || op.And? then if l.Bool? && r.Bool? then Combine(op, l, r) else None
    else if l.Num? && r.Num? then Combine(op, l, r) else None
  }

  function ValueOf(env: Environment, t: Term): Option<Value>
  {
    match t
    case Constant(token) => (match env.toNumber(token) case None => None case Some(x) => Some(Num(x)))
    case Variable(id) => (match env.resolve(id) case None => None case Some(x) => Some(Num(x)))
    case Minus1(a) =>
      (match ValueOf(env, a) case None => None case Some(v) => if v.Num? then Some(Num(-v.x)) else None)
    case NonZero(a) =>
      (match ValueOf(env, a) case None => None case Some(v) => if v.Num? then Some(Bool(v.x != 0.0)) else None)
    case Joined(op, l, r) => JoinResults(op, ValueOf(env, l), ValueOf(env, r))
  }

  function JoinResults(op: Op, l: Option<Value>, r: Option<Value>): Option<Value>
  {
    if l.None? || r.None? then None else JoinValues(op, l.value, r.value)
  }

  datatype ParsedTerm = NoTerm | Term(t: Term, rest: string)

  /** Level 0 is `||`, 1 `&&`, 2 comparison, 3 sums, 4 products, 5 a signed operand. */
  function LevelOps(k: nat): seq<Op>
  {
    match k
    case 0 => [Or]
    case 1 => [And]
    case 2 => [Ge, Le, Eq, Ne, Gt, Lt]
    case 3 => [Plus, Minus]
    case 4 => [Times, Divide]
    case _ => []
  }

  function Read(k: nat, s: string): (r: ParsedTerm)
    requires k <= 5
    ensures r.Term? ==> |r.rest| < |s|
    decreases |s|, 9 - k
  {
    if k == 5 then ReadSigned(s)
    else match Read(k + 1, s)
      case NoTerm => NoTerm
      case Term(t, u) => Continue(k, u, t)
  }

  /** Operators of level k after an operand; a comparison is taken once. */
  function Continue(k: nat, s: string, left: Term): (r: ParsedTerm)
    requires k <= 4
    ensures r.Term? ==> |r.rest| <= |s|
    decreases |s|, 9 - k
  {
    match FirstOf(LevelOps(k), s)
    case NoOp => Term(if k == 2 then NonZero(left) else left, Skip(s))
    case FoundOp(op, t) =>
      match Read(k + 1, t)
      case NoTerm => NoTerm
      case Term(right, u) =>
        if k == 2 then Term(Joined(op, left, right), u) else Continue(k, u, Joined(op, left, right))
  }

  function ReadSigned(s: string): (r: ParsedTerm)
    ensures r.Term? ==> |r.rest| < |s|
    decreases |s|, 2
  {
    match Take("+", s)
    case Some(t) => ReadSigned(t)
    case None =>
      match Take("-", s)
      case Some(t) => (match ReadSigned(t) case NoTerm => NoTerm case Term(a, u) => Term(Minus1(a), u))
      case None => ReadPrimary(s)
  }

  function ReadPrimary(s: string): (r: ParsedTerm)
    ensures r.Term? ==> |r.rest| < |s|
    decreases |s|, 1
  {
    var t := Skip(s);
    if t == "" then NoTerm
    else match Take("(", s)
      case Some(u) =>
        (match Read(3, u)
         case NoTerm => NoTerm
         case Term(a, v) => match Take(")", v) case None => NoTerm case Some(w) => Term(a, w))
      case None =>
        if IsDigit(t[0]) || t[0] == '.' then ReadConstant(t)
        else if IsWordStart(t[0]) then Term(Variable(t[..WordChars(t)]), t[WordChars(t)..])
        else NoTerm
  }

  /** Length of a numeric literal; 0 when its mantissa has no digit. */
  function ConstantLength(s: string): (n: nat)
    ensures n <= |s|
  {
    var m := Mantissa(s);
    if Digits(s) == 0 && m <= 1 then 0 else m + Exponent(s[m..])
  }

  function ReadConstant(s: string): (r: ParsedTerm)
    ensures r.Term? ==> |r.rest| < |s|
  {
    var n := ConstantLength(s);
    if n == 0 then NoTerm else Term(Constant(s[..n]), s[n..])
  }

  function ReadText(s: string): Option<Term>
  {
    match Read(0, s)
    case NoTerm => None
    case Term(t, rest) => if Skip(rest) == "" then Some(t) else None
  }

  /** The truth of a constraint text, or None for any error. */
  function Holds(env: Environment, s: string): Option<bool>
  {
    match ReadText(s)
    case None => None
    case Some(t) => match ValueOf(env, t) case None => None case Some(v) => AsBool(v)
  }
}

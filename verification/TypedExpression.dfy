/** Expressions of the typed runtime: their trees, their values and the
    scannerless recursive-descent parser (src/engine/typed_runtime.cpp,
    TypedExpressionParser).  An error of any kind is the single outcome Error
    (or None): which exception is thrown first is not specified for the operands
    of a C++ comparison. */
module TypedExpression {
  import opened Optional
  import opened Lexical

  datatype Op = Or | And | Eq | Ne | Ge | Le | Gt | Lt | Plus | Minus | Times | Divide

  datatype Expr =
    | Number(token: string)
    | Text(content: string)
    | Truth(b: bool)
    | Name(id: string)
    | Call(functionName: string, args: seq<Expr>)
    | Not(e: Expr)
    | Negate(e: Expr)
    | Binary(op: Op, l: Expr, r: Expr)

  datatype Value = Num(x: real) | Bool(b: bool) | Str(s: string)

  /** What an expression is evaluated in: the identifier resolver, the function
      registry, the conversion of numeric literals, and the random streams;
      `sample(key, n)` is the normalised n-th draw of a stream. */
  datatype Context = Context(resolve: string -> Option<Value>,
                             call: (string, seq<Value>) -> Option<Value>,
                             toNumber: string -> Option<real>,
                             hasRng: bool,
                             sample: (string, nat) -> real)

  // ----------------------------------------------------------- values

  /** The draws made so far, oldest first, as the keys of their streams. */
  type Draws = seq<string>

  datatype EvalResult = Error | Result(v: Value, draws: Draws)

  datatype ArgsResult = ArgsError | ArgsResult(values: seq<Value>, draws: Draws)

  function AsNumber(v: Value): Option<real>
  {
    match v
    case Num(x) => Some(x)
    case Bool(b) => Some(if b then 1.0 else 0.0)
    case Str(_) => None
  }

  function AsBool(v: Value): Option<bool>
  {
    match v
    case Bool(b) => Some(b)
    case Num(x) => Some(x != 0.0)
    case Str(_) => None
  }

  /** Equality is defined only between values of the same kind. */
  function CompareEqual(l: Value, r: Value, equal: bool): Option<Value>
  {
    if l.Num? && r.Num? then Some(Bool((l.x == r.x) == equal))
    else if l.Bool? && r.Bool? then Some(Bool((l.b == r.b) == equal))
    else if l.Str? && r.Str? then Some(Bool((l.s == r.s) == equal))
    else None
  }

  function Product(x: real, y: real): real { x * y }

  function Quotient(x: real, y: real): real
    requires y != 0.0
  {
    x / y
  }

  function Combine(op: Op, l: Value, r: Value): Option<Value>
  {
    if op.Eq? || op.Ne? then CompareEqual(l, r, op.Eq?)
    else if op.Or? || op.And? then
      if AsBool(l).None? || AsBool(r).None? then None
      else Some(Bool(if op.Or? then AsBool(l).value || AsBool(r).value else AsBool(l).value && AsBool(r).value))
    else if AsNumber(l).None? || AsNumber(r).None? then None
    else
      var x, y := AsNumber(l).value, AsNumber(r).value;
      if op.Ge? then Some(Bool(x >= y))
      else if op.Le? then Some(Bool(x <= y))
      else if op.Gt? then Some(Bool(x > y))
      else if op.Lt? then Some(Bool(x < y))
      else if op.Plus? then Some(Num(x + y))
      else if op.Minus? then Some(Num(x - y))
      else if op.Times? then Some(Num(Product(x, y)))
      else if y == 0.0 then None else Some(Num(Quotient(x, y)))
  }

  /** The two operators of the multiplicative level, on numbers. */
  lemma Multiplicative(l: Value, r: Value, x: real, y: real)
    requires AsNumber(l) == Some(x) && AsNumber(r) == Some(y)
    ensures Combine(Times, l, r) == Some(Num(x * y))
    ensures Combine(Divide, l, r) == if y == 0.0 then None else Some(Num(x / y))
  {
    hide Product, Quotient;
    ProductIs(x, y);
    if y != 0.0 {
      QuotientIs(x, y);
    }
  }

  lemma ProductIs(x: real, y: real)
    ensures Product(x, y) == x * y
  {
  }

  lemma QuotientIs(x: real, y: real)
    requires y != 0.0
    ensures Quotient(x, y) == x / y
  {
  }

  lemma NumbersOnly(op: Op, l: Value, r: Value)
    requires (op.Times? || op.Divide?) && (AsNumber(l).None? || AsNumber(r).None?)
    ensures Combine(op, l, r) == None
  {
  }

  function Occurrences(key: string, draws: Draws): nat
  {
    multiset(draws)[key]
  }

  predicate IsRandom(functionName: string)
  {
    functionName == "rng" || functionName == "std::rng_uniform"
  }

  /** The point of [lo, hi] a normalised draw stands for. */
  function Between(lo: real, hi: real, draw: real): real
  {
    lo + draw * (hi - lo)
  }

  lemma BetweenStaysInside(lo: real, hi: real, draw: real)
    requires 0.0 <= draw < 1.0 && lo <= hi
    ensures lo <= Between(lo, hi, draw) <= hi
    ensures lo < hi ==> Between(lo, hi, draw) < hi
  {
    ProductIsNonNegative(draw, hi - lo);
    ProductIsNonNegative(1.0 - draw, hi - lo);
    assert (1.0 - draw) * (hi - lo) == (hi - lo) - draw * (hi - lo);
    if lo < hi {
      ProductIsPositive(1.0 - draw, hi - lo);
    }
  }

  lemma ProductIsNonNegative(a: real, b: real)
    requires a >= 0.0 && b >= 0.0
    ensures a * b >= 0.0
  {
  }

  lemma ProductIsPositive(a: real, b: real)
    requires a > 0.0 && b > 0.0
    ensures a * b > 0.0
  {
  }

  function Apply(c: Context, f: string, args: seq<Value>, draws: Draws): EvalResult
  {
    if IsRandom(f) then
      if |args| != 3 || !c.hasRng || !args[0].Str? then Error
      else if AsNumber(args[1]).None? || AsNumber(args[2]).None? then Error
      else
        var lo, hi := AsNumber(args[1]).value, AsNumber(args[2]).value;
        if hi < lo then Error
        else Result(Num(Between(lo, hi, c.sample(args[0].s, Occurrences(args[0].s, draws)))), draws + [args[0].s])
    else match c.call(f, args)
      case None => Error
      case Some(v) => Result(v, draws)
  }

  /** The value of a tree.  Both operands of every operator are evaluated, from
      left to right; nothing is skipped. */
  function Eval(c: Context, e: Expr, draws: Draws): EvalResult
    decreases e, 0
  {
    match e
    case Number(token) => (match c.toNumber(token) case None => Error case Some(x) => Result(Num(x), draws))
    case Text(content) => Result(Str(content), draws)
    case Truth(b) => Result(Bool(b), draws)
    case Name(id) => (match c.resolve(id) case None => Error case Some(v) => Result(v, draws))
    case Not(a) =>
      (match Eval(c, a, draws)
       case Error => Error
       case Result(v, d) => if AsBool(v).None? then Error else Result(Bool(!AsBool(v).value), d))
    case Negate(a) =>
      (match Eval(c, a, draws)
       case Error => Error
       case Result(v, d) => if AsNumber(v).None? then Error else Result(Num(-AsNumber(v).value), d))
    case Binary(op, l, r) => Join(c, op, Eval(c, l, draws), r)
    case Call(f, args) =>
      (match EvalArgs(c, args, draws)
       case ArgsError => Error
       case ArgsResult(values, d) => Apply(c, f, values, d))
  }

  function Join(c: Context, op: Op, left: EvalResult, r: Expr): EvalResult
    decreases r, 1
  {
    match left
    case Error => Error
    case Result(x, d) =>
      match Eval(c, r, d)
      case Error => Error
      case Result(y, d') => match Combine(op, x, y) case None => Error case Some(v) => Result(v, d')
  }

  function EvalArgs(c: Context, args: seq<Expr>, draws: Draws): ArgsResult
    decreases args, 0
  {
    if args == [] then ArgsResult([], draws)
    else match Eval(c, args[0], draws)
      case Error => ArgsError
      case Result(v, d) =>
        match EvalArgs(c, args[1..], d)
        case ArgsError => ArgsError
        case ArgsResult(vs, d') => ArgsResult([v] + vs, d')
  }

  // ---------------------------------------------------------- the grammar

  function OpLevel(op: Op): nat
  {
    match op
    case Or => 0
    case And => 1
    case Eq => 2 case Ne => 2
    case Ge => 3 case Le => 3 case Gt => 3 case Lt => 3
    case Plus => 4 case Minus => 4
    case Times => 5 case Divide => 5
  }

  function Token(op: Op): (r: string)
    ensures r != "" && !IsSpace(r[0])
  {
    match op
    case Or => "||"
    case And => "&&"
    case Eq => "=="
    case Ne => "!="
    case Ge => ">="
    case Le => "<="
    case Gt => ">"
    case Lt => "<"
    case Plus => "+"
    case Minus => "-"
    case Times => "*"
    case Divide => "/"
  }

  /** The operators of a level, in the order the parser tries them. */
  function Operators(k: nat): seq<Op>
  {
    match k
    case 0 => [Or]
    case 1 => [And]
    case 2 => [Eq, Ne]
    case 3 => [Ge, Le, Gt, Lt]
    case 4 => [Plus, Minus]
    case 5 => [Times, Divide]
    case _ => []
  }

  datatype NextOp = NoOp | FoundOp(op: Op, rest: string)

  function FirstOf(ops: seq<Op>, s: string): (r: NextOp)
    ensures r.FoundOp? ==> |r.rest| < |s| && r.op in ops
  {
    if ops == [] then NoOp
    else match Take(Token(ops[0]), s)
      case Some(t) => FoundOp(ops[0], t)
      case None => FirstOf(ops[1..], s)
  }

  datatype Parsed = Fail | Ok(e: Expr, rest: string)

  datatype ParsedArgs = ArgsFail | ArgsOk(args: seq<Expr>, rest: string)

  /** The tree at the front of a text, read at precedence level k (0 is `||`,
      6 a unary operand), and the text that is left. */
  function Tree(k: nat, s: string): (r: Parsed)
    requires k <= 6
    ensures r.Ok? ==> |r.rest| < |s|
    decreases |s|, 9 - k
  {
    if k == 6 then Unary(s)
    else match Tree(k + 1, s)
      case Fail => Fail
      case Ok(e, t) => Chain(k, t, e)
  }

  /** Operators of level k that follow an operand: they associate to the left,
      and only one comparison is taken. */
  function Chain(k: nat, s: string, left: Expr): (r: Parsed)
    requires k <= 5
    ensures r.Ok? ==> |r.rest| <= |s|
    decreases |s|, 9 - k
  {
    match FirstOf(Operators(k), s)
    case NoOp => Ok(left, Skip(s))
    case FoundOp(op, t) =>
      match Tree(k + 1, t)
      case Fail => Fail
      case Ok(right, u) =>
        if k == 3 then Ok(Binary(op, left, right), u) else Chain(k, u, Binary(op, left, right))
  }

  function Unary(s: string): (r: Parsed)
    ensures r.Ok? ==> |r.rest| < |s|
    decreases |s|, 2
  {
    match Take("!", s)
    case Some(t) => (match Unary(t) case Fail => Fail case Ok(e, u) => Ok(Not(e), u))
    case None =>
      match Take("-", s)
      case Some(t) => (match Unary(t) case Fail => Fail case Ok(e, u) => Ok(Negate(e), u))
      case None => Primary(s)
  }

  function Primary(s: string): (r: Parsed)
    ensures r.Ok? ==> |r.rest| < |s|
    decreases |s|, 1
  {
    match Take("(", s)
    case Some(t) =>
      (match Tree(0, t)
       case Fail => Fail
       case Ok(e, u) => match Take(")", u) case None => Fail case Some(v) => Ok(e, v))
    case None =>
      var t := Skip(s);
      if t == "" then Fail
      else if t[0] == '"' || t[0] == '\'' then StringLiteral(t)
      else if IsDigit(t[0]) || t[0] == '.' then NumberLiteral(t)
      else if IsWordStart(t[0]) then IdentifierOrCall(t)
      else Fail
  }

  function Unescape(c: char): char
  {
    if c == 'n' then '\n' else if c == 't' then '\t' else c
  }

  datatype Quoted = Unterminated | Content(content: string, rest: string)

  function StringBody(quote: char, s: string): (r: Quoted)
    ensures r.Content? ==> |r.rest| < |s|
  {
    if s == "" then Unterminated
    else if s[0] == quote then Content("", s[1..])
    else
      var escaped := s[0] == '\\' && |s| > 1;
      match StringBody(quote, s[if escaped then 2 else 1..])
      case Unterminated => Unterminated
      case Content(content, rest) => Content([if escaped then Unescape(s[1]) else s[0]] + content, rest)
  }

  function StringLiteral(s: string): (r: Parsed)
    requires s != ""
    ensures r.Ok? ==> |r.rest| < |s|
  {
    match StringBody(s[0], s[1..])
    case Unterminated => Fail
    case Content(content, rest) => Ok(Text(content), rest)
  }

  /** Length of the numeric literal at the front, or 0 when it has no digit. */
  function NumberLength(s: string): (n: nat)
    ensures n <= |s|
  {
    var m := Mantissa(s);
    var x := Exponent(s[m..]);
    if Digits(s) == 0 && m <= 1 && x == 0 then 0 else m + x
  }

  function NumberLiteral(s: string): (r: Parsed)
    ensures r.Ok? ==> |r.rest| < |s|
  {
    var n := NumberLength(s);
    if n == 0 then Fail else Ok(Number(s[..n]), s[n..])
  }

  predicate IsNameChar(c: char) { IsWordChar(c) || c == ':' || c == '.' }

  function NameChars(s: string): (n: nat)
    ensures n <= |s|
  {
    if s != "" && IsNameChar(s[0]) then 1 + NameChars(s[1..]) else 0
  }

  function IdentifierOrCall(s: string): (r: Parsed)
    requires s != ""
    ensures r.Ok? ==> |r.rest| < |s|
    decreases |s|, 0
  {
    var n := 1 + NameChars(s[1..]);
    var name, t := s[..n], s[n..];
    if name == "true" then Ok(Truth(true), t)
    else if name == "false" then Ok(Truth(false), t)
    else match Take("(", t)
      case None => Ok(Name(name), Skip(t))
      case Some(u) => CallArguments(name, u)
  }

  /** The rest of a call, after its opening parenthesis. */
  function CallArguments(name: string, s: string): (r: Parsed)
    ensures r.Ok? ==> |r.rest| < |s|
    decreases |s|, 11
  {
    match Take(")", s)
    case Some(t) => Ok(Call(name, []), t)
    case None => match Args(s) case ArgsFail => Fail case ArgsOk(args, t) => Ok(Call(name, args), t)
  }

  function Args(s: string): (r: ParsedArgs)
    ensures r.ArgsOk? ==> |r.rest| < |s|
    decreases |s|, 10
  {
    match Tree(0, s)
    case Fail => ArgsFail
    case Ok(e, t) =>
      match Take(")", t)
      case Some(u) => ArgsOk([e], u)
      case None =>
        match Take(",", t)
        case None => ArgsFail
        case Some(u) => match Args(u) case ArgsFail => ArgsFail case ArgsOk(es, v) => ArgsOk([e] + es, v)
  }

  /** The whole text as one expression. */
  function ParseText(s: string): Option<Expr>
  {
    match Tree(0, s)
    case Fail => None
    case Ok(e, rest) => if Skip(rest) == "" then Some(e) else None
  }

  // ---------------------------------------------------------- printing

  /** How tightly the top of a tree binds; 7 needs no parentheses anywhere. */
  function Level(e: Expr): nat
  {
    match e
    case Binary(op, _, _) => OpLevel(op)
    case Not(_) => 6
    case Negate(_) => 6
    case _ => 7
  }

  function EscapeChar(c: char): string
  {
    if c == '\n' then "\\n"
    else if c == '\t' then "\\t"
    else if c == '\\' then "\\\\"
    else if c == '"' then "\\\""
    else [c]
  }

  function Escape(content: string, rest: string): string
  {
    if content == "" then "\"" + rest else EscapeChar(content[0]) + Escape(content[1..], rest)
  }

  function Emit(w: string, token: string, rest: string): string
  {
    w + (token + rest)
  }

  /** The text of a tree where level k is expected, followed by `rest`.  The
      white space w is put before every token; parentheses only where needed. */
  function Print(w: string, k: nat, e: Expr, rest: string): string
    decreases e, 1
  {
    if Level(e) < k then Emit(w, "(", PrintBare(w, e, Emit(w, ")", rest)))
    else PrintBare(w, e, rest)
  }

  function PrintBare(w: string, e: Expr, rest: string): string
    decreases e, 0
  {
    match e
    case Number(token) => Emit(w, token, rest)
    case Text(content) => Emit(w, "\"", Escape(content, rest))
    case Truth(b) => Emit(w, if b then "true" else "false", rest)
    case Name(id) => Emit(w, id, rest)
    case Call(f, args) => Emit(w, f, Emit(w, "(", PrintArgs(w, args, rest)))
    case Not(a) => Emit(w, "!", Print(w, 6, a, rest))
    case Negate(a) => Emit(w, "-", Print(w, 6, a, rest))
    case Binary(op, l, r) =>
      Print(w, LeftLevel(op), l, Emit(w, Token(op), Print(w, OpLevel(op) + 1, r, rest)))
  }

  function PrintArgs(w: string, args: seq<Expr>, rest: string): string
    decreases args, 0
  {
    if args == [] then Emit(w, ")", rest)
    else if |args| == 1 then Print(w, 0, args[0], Emit(w, ")", rest))
    else Print(w, 0, args[0], Emit(w, ",", PrintArgs(w, args[1..], rest)))
  }

  /** Comparisons do not chain; the other operators associate to the left. */
  function LeftLevel(op: Op): nat
  {
    if OpLevel(op) == 3 then 4 else OpLevel(op)
  }

  predicate IsNumberToken(token: string)
  {
    token != "" && (IsDigit(token[0]) || token[0] == '.') && NumberLength(token) == |token|
  }

  predicate IsName(id: string)
  {
    id != "" && IsWordStart(id[0]) && NameChars(id[1..]) == |id| - 1 && id != "true" && id != "false"
  }

  /** Trees whose leaves can be written down. */
  predicate Writable(e: Expr)
    decreases e, 0
  {
    match e
    case Number(token) => IsNumberToken(token)
    case Name(id) => IsName(id)
    case Call(f, args) => IsName(f) && WritableAll(args)
    case Not(a) => Writable(a)
    case Negate(a) => Writable(a)
    case Binary(_, l, r) => Writable(l) && Writable(r)
    case _ => true
  }

  predicate WritableAll(args: seq<Expr>)
    decreases args, 0
  {
    args == [] || (Writable(args[0]) && WritableAll(args[1..]))
  }
}

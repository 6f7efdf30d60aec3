/** The fused parser-evaluator of v1 constraints (src/noisiax.cpp).  Every method
    is proved to return the value of the term the grammar assigns to the text;
    None stands for the exception the source throws. */
module ConstraintParser {
  import opened Optional
  import opened Lexical
  import opened TypedExpression
  import opened ConstraintExpression
  import Scanning

  ghost predicate Outcome(env: Environment, t: ParsedTerm, r: Option<Value>, rest: string)
  {
    if Failed(env, t) then r.None? else r == ValueOf(env, t.t) && rest == t.rest
  }

  ghost predicate Failed(env: Environment, t: ParsedTerm)
  {
    t.NoTerm? || ValueOf(env, t.t).None?
  }

  /** A level-k text has been read up to `rest`, giving the term t so far. */
  ghost predicate Reading(env: Environment, k: nat, text: string, rest: string, t: Term, v: Value)
    requires k <= 4
  {
    Read(k, text) == Continue(k, rest, t) && ValueOf(env, t) == Some(v)
  }

  lemma {:induction false} ContinueKeepsErrors(env: Environment, k: nat, s: string, left: Term)
    requires k <= 4 && ValueOf(env, left).None?
    ensures Failed(env, Continue(k, s, left))
    decreases |s|
  {
    var next := FirstOf(LevelOps(k), s);
    if next.FoundOp? {
      var right := Read(k + 1, next.rest);
      if right.Term? && k != 2 {
        ContinueKeepsErrors(env, k, right.rest, Joined(next.op, left, right.t));
      }
    }
  }

  lemma FirstOperand(env: Environment, k: nat, text: string, r: Option<Value>, rest: string)
    requires k <= 4 && Outcome(env, Read(k + 1, text), r, rest)
    ensures r.None? ==> Failed(env, Read(k, text))
    ensures r.Some? ==> Reading(env, k, text, rest, Read(k + 1, text).t, r.value)
  {
    var t := Read(k + 1, text);
    if r.None? && t.Term? {
      ContinueKeepsErrors(env, k, t.rest, t.t);
    }
  }

  lemma LastOperand(env: Environment, k: nat, text: string, s: string, t: Term, v: Value)
    requires k <= 4 && Reading(env, k, text, s, t, v) && FirstOf(LevelOps(k), s) == NoOp
    ensures Read(k, text) == Term(if k == 2 then NonZero(t) else t, Skip(s))
  {
  }

  lemma NextOperand(env: Environment, k: nat, text: string, s: string, t: Term, v: Value,
                    op: Op, rightText: string, right: Option<Value>, rest: string)
    requires k <= 4 && Reading(env, k, text, s, t, v)
    requires FirstOf(LevelOps(k), s) == FoundOp(op, rightText)
    requires Outcome(env, Read(k + 1, rightText), right, rest)
    ensures var value := if right.Some? then JoinValues(op, v, right.value) else None;
            if value.None? then Failed(env, Read(k, text))
            else
              var joined := Joined(op, t, Read(k + 1, rightText).t);
              && ValueOf(env, joined) == value
              && (k != 2 ==> Reading(env, k, text, rest, joined, value.value))
              && (k == 2 ==> Read(k, text) == Term(joined, rest))
  {
    var u := Read(k + 1, rightText);
    if u.Term? {
      var joined := Joined(op, t, u.t);
      if ValueOf(env, joined).None? {
        ContinueKeepsErrors(env, k, u.rest, joined);
      }
    }
  }

  /** Arithmetic levels only produce numbers, logical levels truth values. */
  lemma {:induction false} LevelKinds(env: Environment, k: nat, s: string)
    requires k <= 5 && Read(k, s).Term? && ValueOf(env, Read(k, s).t).Some?
    ensures ValueOf(env, Read(k, s).t).value.Num? <==> k >= 3
    decreases |s|, 9 - k
  {
    if k == 5 {
      SignedKind(env, s);
    } else {
      var t := Read(k + 1, s);
      if ValueOf(env, t.t).Some? {
        LevelKinds(env, k + 1, s);
        ContinueKind(env, k, t.rest, t.t);
      } else {
        ContinueKeepsErrors(env, k, t.rest, t.t);
      }
    }
  }

  lemma {:induction false} ContinueKind(env: Environment, k: nat, s: string, left: Term)
    requires k <= 4 && ValueOf(env, left).Some? && (ValueOf(env, left).value.Num? <==> k >= 2)
    requires !Failed(env, Continue(k, s, left))
    ensures ValueOf(env, Continue(k, s, left).t).value.Num? <==> k >= 3
    decreases |s|, 9 - k
  {
    var next := FirstOf(LevelOps(k), s);
    if next.FoundOp? {
      var right := Read(k + 1, next.rest);
      var joined := Joined(next.op, left, right.t);
      OpKind(k, next.op);
      if k != 2 {
        if ValueOf(env, joined).Some? {
          ContinueKind(env, k, right.rest, joined);
        } else {
          ContinueKeepsErrors(env, k, right.rest, joined);
        }
      }
    }
  }

  lemma OpKind(k: nat, op: Op)
    requires k <= 4 && op in LevelOps(k)
    ensures forall l, r :: JoinValues(op, l, r).Some? ==> (JoinValues(op, l, r).value.Num? <==> k >= 3)
  {
  }

  lemma {:induction false} SignedKind(env: Environment, s: string)
    requires ReadSigned(s).Term? && ValueOf(env, ReadSigned(s).t).Some?
    ensures ValueOf(env, ReadSigned(s).t).value.Num?
    decreases |s|, 2
  {
    if Take("+", s).Some? {
      SignedKind(env, Take("+", s).value);
    } else if Take("-", s).None? {
      var t := Skip(s);
      if Take("(", s).Some? {
        LevelKinds(env, 3, Take("(", s).value);
      }
    }
  }

  class Parser {
    const expression: string
    const env: Environment
    var position: nat

    constructor (expression: string, env: Environment)
      ensures this.expression == expression && this.env == env && position == 0
    {
      this.expression, this.env, position := expression, env, 0;
    }

    function Rest(): (s: string)
      requires position <= |expression|
      reads this
      ensures |s| == |expression| - position
    {
      expression[position..]
    }

    method Consume(token: string) returns (found: bool)
      requires position <= |expression| && token != ""
      modifies `position
      ensures old(position) <= position <= |expression|
      ensures found <==> Take(token, old(Rest())).Some?
      ensures Rest() == if found then Take(token, old(Rest())).value else Skip(old(Rest()))
      ensures found ==> position > old(position)
    {
      found, position := Scanning.Consume(expression, position, token);
    }

    /** The truth of the whole text, exactly as the grammar defines it. */
    method Evaluate() returns (r: Option<bool>)
      requires position == 0
      modifies this
      ensures r == Holds(env, expression)
    {
      assert Rest() == expression;
      var v := ParseLogicalOr();
      if v.None? {
        return None;
      }
      position := Scanning.SkipSpaces(expression, position);
      r := if position != |expression| then None else AsBool(v.value);
    }

    /** Tries the operators of one level in the order the source does. */
    method NextOperator(k: nat) returns (op: Option<Op>)
      requires position <= |expression| && k <= 4
      modifies `position
      ensures old(position) <= position <= |expression|
      ensures op.Some? ==> position > old(position) && FirstOf(LevelOps(k), old(Rest())) == FoundOp(op.value, Rest())
      ensures op.None? ==> FirstOf(LevelOps(k), old(Rest())) == NoOp && Rest() == Skip(old(Rest()))
    {
      op, position := Scanning.NextOperator(expression, position, LevelOps(k));
    }

    method ParseLogicalOr() returns (r: Option<Value>)
      requires position <= |expression|
      modifies this
      decreases |expression| - position, 9
      ensures old(position) <= position <= |expression|
      ensures Outcome(env, Read(0, old(Rest())), r, Rest())
    {
      hide Read, Continue, ValueOf, FirstOf, Skip;
      ghost var text := Rest();
      r := ParseLogicalAnd();
      FirstOperand(env, 0, text, r, Rest());
      if r.None? {
        return;
      }
      ghost var t := Read(1, text).t;
      while true
        invariant old(position) <= position <= |expression| && r.Some?
        invariant Reading(env, 0, text, Rest(), t, r.value)
        decreases |expression| - position
      {
        ghost var left, value := Rest(), r.value;
        var op := NextOperator(0);
        if op.None? {
          LastOperand(env, 0, text, left, t, value);
          return;
        }
        ghost var rightText := Rest();
        var right := ParseLogicalAnd();
        NextOperand(env, 0, text, left, t, value, op.value, rightText, right, Rest());
        if right.None? || !r.value.Bool? || !right.value.Bool? {
          return None;
        }
        r := Some(Bool(r.value.b || right.value.b));
        t := Joined(op.value, t, Read(1, rightText).t);
      }
    }

    method ParseLogicalAnd() returns (r: Option<Value>)
      requires position <= |expression|
      modifies this
      decreases |expression| - position, 8
      ensures old(position) <= position <= |expression|
      ensures Outcome(env, Read(1, old(Rest())), r, Rest())
    {
      hide Read, Continue, ValueOf, FirstOf, Skip;
      ghost var text := Rest();
      r := ParseComparison();
      FirstOperand(env, 1, text, r, Rest());
      if r.None? {
        return;
      }
      ghost var t := Read(2, text).t;
      while true
        invariant old(position) <= position <= |expression| && r.Some?
        invariant Reading(env, 1, text, Rest(), t, r.value)
        decreases |expression| - position
      {
        ghost var left, value := Rest(), r.value;
        var op := NextOperator(1);
        if op.None? {
          LastOperand(env, 1, text, left, t, value);
          return;
        }
        ghost var rightText := Rest();
        var right := ParseComparison();
        NextOperand(env, 1, text, left, t, value, op.value, rightText, right, Rest());
        if right.None? || !r.value.Bool? || !right.value.Bool? {
          return None;
        }
        r := Some(Bool(r.value.b && right.value.b));
        t := Joined(op.value, t, Read(2, rightText).t);
      }
    }

    method ParseComparison() returns (r: Option<Value>)
      requires position <= |expression|
      modifies this
      decreases |expression| - position, 7
      ensures old(position) <= position <= |expression|
      ensures Outcome(env, Read(2, old(Rest())), r, Rest())
    {
      hide Read, Continue, ValueOf, FirstOf, Skip;
      ghost var text := Rest();
      r := ParseAdditive();
      FirstOperand(env, 2, text, r, Rest());
      if r.None? {
        return;
      }
      ghost var t := Read(3, text).t;
      ghost var left, value := Rest(), r.value;
      var op := NextOperator(2);
      if op.None? {
        LastOperand(env, 2, text, left, t, value);
        NonZeroValue(env, t);
        r := if r.value.Num? then Some(Bool(r.value.x != 0.0)) else None;
        return;
      }
      ghost var rightText := Rest();
      var right := ParseAdditive();
      NextOperand(env, 2, text, left, t, value, op.value, rightText, right, Rest());
      if right.None? || !r.value.Num? || !right.value.Num? {
        return None;
      }
      var x, y := r.value.x, right.value.x;
      r := Some(Bool(match op.value
                     case Ge => x >= y
                     case Le => x <= y
                     case Eq => x == y
                     case Ne => x != y
                     case Gt => x > y
                     case _ => x < y));
    }

    method ParseAdditive() returns (r: Option<Value>)
      requires position <= |expression|
      modifies this
      decreases |expression| - position, 6
      ensures old(position) <= position <= |expression|
      ensures Outcome(env, Read(3, old(Rest())), r, Rest())
    {
      hide Read, Continue, ValueOf, FirstOf, Skip;
      ghost var text := Rest();
      r := ParseMultiplicative();
      FirstOperand(env, 3, text, r, Rest());
      if r.None? {
        return;
      }
      ghost var t := Read(4, text).t;
      while true
        invariant old(position) <= position <= |expression| && r.Some?
        invariant Reading(env, 3, text, Rest(), t, r.value)
        decreases |expression| - position
      {
        ghost var left, value := Rest(), r.value;
        var op := NextOperator(3);
        if op.None? {
          LastOperand(env, 3, text, left, t, value);
          return;
        }
        ghost var rightText := Rest();
        var right := ParseMultiplicative();
        NextOperand(env, 3, text, left, t, value, op.value, rightText, right, Rest());
        if right.None? || !r.value.Num? || !right.value.Num? {
          return None;
        }
        r := Some(Num(if op.value.Plus? then r.value.x + right.value.x else r.value.x - right.value.x));
        t := Joined(op.value, t, Read(4, rightText).t);
      }
    }

    method ParseMultiplicative() returns (r: Option<Value>)
      requires position <= |expression|
      modifies this
      decreases |expression| - position, 5
      ensures old(position) <= position <= |expression|
      ensures Outcome(env, Read(4, old(Rest())), r, Rest())
    {
      hide Read, Continue, ValueOf, FirstOf, Skip, Combine;
      ghost var text := Rest();
      r := ParseUnary();
      FirstOperand(env, 4, text, r, Rest());
      if r.None? {
        return;
      }
      ghost var t := Read(5, text).t;
      while true
        invariant old(position) <= position <= |expression| && r.Some?
        invariant Reading(env, 4, text, Rest(), t, r.value)
        decreases |expression| - position
      {
        ghost var left, value := Rest(), r.value;
        var op := NextOperator(4);
        if op.None? {
          LastOperand(env, 4, text, left, t, value);
          return;
        }
        ghost var rightText := Rest();
        var right := ParseUnary();
        NextOperand(env, 4, text, left, t, value, op.value, rightText, right, Rest());
        if right.None? || !r.value.Num? || !right.value.Num? {
          return None;
        }
        var x, y := r.value.x, right.value.x;
        Multiplicative(r.value, right.value, x, y);
        if op.value.Times? {
          r := Some(Num(x * y));
        } else {
          if y == 0.0 {
            return None;
          }
          r := Some(Num(x / y));
        }
        t := Joined(op.value, t, Read(5, rightText).t);
      }
    }

    method ParseUnary() returns (r: Option<Value>)
      requires position <= |expression|
      modifies this
      decreases |expression| - position, 3
      ensures old(position) <= position <= |expression|
      ensures Outcome(env, Read(5, old(Rest())), r, Rest())
    {
      hide Continue, FirstOf, Take, Skip, ReadPrimary;
      SkippedSigned(Rest());
      var found := Consume("+");
      if found {
        r := ParseUnary();
        return;
      }
      found := Consume("-");
      if found {
        r := ParseUnary();
        if r.Some? {
          r := if r.value.Num? then Some(Num(-r.value.x)) else None;
        }
        return;
      }
      r := ParsePrimary();
    }

    method ParsePrimary() returns (r: Option<Value>)
      requires position <= |expression|
      modifies this
      decreases |expression| - position, 2
      ensures old(position) <= position <= |expression|
      ensures Outcome(env, ReadPrimary(old(Rest())), r, Rest())
    {
      hide Read, Continue, FirstOf, ReadConstant, WordChars;
      position := Scanning.SkipSpaces(expression, position);
      SkippedPrimary(old(Rest()));
      if position >= |expression| {
        return None;
      }
      var parenthesis := Consume("(");
      if parenthesis {
        r := ParseAdditive();
        if r.Some? {
          var closed := Consume(")");
          if !closed {
            r := None;
          }
        }
        return;
      }
      var current := expression[position];
      if IsDigit(current) || current == '.' {
        r := ParseNumber();
      } else if IsWordStart(current) {
        r := ParseIdentifier();
      } else {
        r := None;
      }
    }

    method ParseNumber() returns (r: Option<Value>)
      requires position < |expression|
      modifies this
      ensures old(position) <= position <= |expression|
      ensures Outcome(env, ReadConstant(old(Rest())), r, Rest())
    {
      hide Mantissa, Exponent, Digits;
      var start := position;
      var sawDigit, exponent;
      position, sawDigit, exponent := Scanning.ScanNumber(expression, start);
      if !sawDigit {
        return None;
      }
      var number := env.toNumber(expression[start..position]);
      r := if number.Some? then Some(Num(number.value)) else None;
    }

    method ParseIdentifier() returns (r: Option<Value>)
      requires position < |expression| && IsWordStart(expression[position])
      modifies this
      ensures old(position) <= position <= |expression|
      ensures var s := old(Rest());
              Outcome(env, Term(Variable(s[..WordChars(s)]), s[WordChars(s)..]), r, Rest())
    {
      var start := position;
      position := Scanning.EndOfWord(expression, start);
      assert expression[start..position] == old(Rest())[..WordChars(old(Rest()))];
      assert Rest() == old(Rest())[WordChars(old(Rest()))..];
      var resolved := env.resolve(expression[start..position]);
      r := if resolved.Some? then Some(Num(resolved.value)) else None;
    }
  }

  lemma NonZeroValue(env: Environment, t: Term)
    ensures ValueOf(env, NonZero(t)) ==
              if ValueOf(env, t).Some? && ValueOf(env, t).value.Num?
              then Some(Bool(ValueOf(env, t).value.x != 0.0)) else None
  {
  }

  /** White space in front of an operand does not matter. */
  lemma SkippedSigned(s: string)
    ensures Take("-", Skip(s)) == Take("-", s) && Skip(Skip(s)) == Skip(s)
    ensures ReadPrimary(Skip(s)) == ReadPrimary(s)
  {
    SkipTwice(s);
  }

  lemma SkippedPrimary(s: string)
    ensures Take("(", Skip(s)) == Take("(", s) && Skip(Skip(s)) == Skip(s)
  {
    SkipTwice(s);
  }
}

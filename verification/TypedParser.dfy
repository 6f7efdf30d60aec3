/** The fused parser-evaluator of the typed runtime, as the class of
    src/engine/typed_runtime.cpp: it advances a position through the text and
    computes values while it reads.  Every method is proved to return the value
    of the tree the grammar assigns to the text, with the tree's draws. */
module TypedParser {
  import opened Optional
  import opened Lexical
  import Scanning
  import opened TypedExpression

  /** r is the value of the parsed tree, or None when reading or evaluating
      fails; on success the rest of the text and the draws are the tree's. */
  ghost predicate Outcome(c: Context, t: Parsed, before: Draws, r: Option<Value>, rest: string, after: Draws)
  {
    if t.Fail? || Eval(c, t.e, before).Error? then r.None?
    else r == Some(Eval(c, t.e, before).v) && rest == t.rest && after == Eval(c, t.e, before).draws
  }

  ghost predicate Failed(c: Context, t: Parsed, before: Draws)
  {
    t.Fail? || Eval(c, t.e, before).Error?
  }

  /** A level-k text has been read up to `rest`, giving the tree e so far. */
  ghost predicate Reading(c: Context, k: nat, text: string, start: Draws, rest: string, e: Expr, v: Value, draws: Draws)
    requires k <= 5
  {
    Tree(k, text) == Chain(k, rest, e) && Eval(c, e, start) == Result(v, draws)
  }

  /** Once an operand has failed, the operators after it cannot mend that. */
  lemma {:induction false} ChainKeepsErrors(c: Context, k: nat, s: string, left: Expr, draws: Draws)
    requires k <= 5 && Eval(c, left, draws).Error?
    ensures Failed(c, Chain(k, s, left), draws)
    decreases |s|
  {
    var next := FirstOf(Operators(k), s);
    if next.FoundOp? {
      var right := Tree(k + 1, next.rest);
      if right.Ok? && k != 3 {
        ChainKeepsErrors(c, k, right.rest, Binary(next.op, left, right.e), draws);
      }
    }
  }

  lemma FirstOperand(c: Context, k: nat, text: string, start: Draws, r: Option<Value>, rest: string, draws: Draws)
    requires k <= 5 && Outcome(c, Tree(k + 1, text), start, r, rest, draws)
    ensures r.None? ==> Failed(c, Tree(k, text), start)
    ensures r.Some? ==> Reading(c, k, text, start, rest, Tree(k + 1, text).e, r.value, draws)
  {
    var t := Tree(k + 1, text);
    if r.None? && t.Ok? {
      ChainKeepsErrors(c, k, t.rest, t.e, start);
    }
  }

  /** With no further operator of level k, the tree so far is the result. */
  lemma LastOperand(c: Context, k: nat, text: string, start: Draws, s: string, e: Expr, v: Value, draws: Draws)
    requires k <= 5 && Reading(c, k, text, start, s, e, v, draws) && FirstOf(Operators(k), s) == NoOp
    ensures Tree(k, text) == Ok(e, Skip(s))
  {
  }

  /** What reading one more operator and right operand leads to. */
  lemma NextOperand(c: Context, k: nat, text: string, start: Draws, s: string, e: Expr, v: Value, draws: Draws,
                    op: Op, rightText: string, right: Option<Value>, rest: string, after: Draws)
    requires k <= 5 && Reading(c, k, text, start, s, e, v, draws)
    requires FirstOf(Operators(k), s) == FoundOp(op, rightText)
    requires Outcome(c, Tree(k + 1, rightText), draws, right, rest, after)
    ensures var value := if right.Some? then Combine(op, v, right.value) else None;
            if value.None? then Failed(c, Tree(k, text), start)
            else
              var joined := Binary(op, e, Tree(k + 1, rightText).e);
              && Eval(c, joined, start) == Result(value.value, after)
              && (k != 3 ==> Reading(c, k, text, start, rest, joined, value.value, after))
              && (k == 3 ==> Tree(k, text) == Ok(joined, rest))
  {
    var t := Tree(k + 1, rightText);
    if t.Ok? {
      var joined := Binary(op, e, t.e);
      assert Eval(c, joined, start) == Join(c, op, Eval(c, e, start), t.e);
      if Eval(c, joined, start).Error? {
        ChainKeepsErrors(c, k, t.rest, joined, start);
      }
    }
  }

  lemma TakeAfterSkip(token: string, s: string)
    requires token != ""
    ensures Take(token, Skip(s)) == Take(token, s) && Skip(Skip(s)) == Skip(s)
  {
    SkipTwice(s);
  }

  function WithArgs(before: seq<Expr>, more: ParsedArgs): ParsedArgs
  {
    if more.ArgsFail? then ArgsFail else ArgsOk(before + more.args, more.rest)
  }

  lemma {:induction false} EvalArgsAppend(c: Context, a: seq<Expr>, b: seq<Expr>, draws: Draws)
    ensures var first := EvalArgs(c, a, draws);
            if first.ArgsError? then EvalArgs(c, a + b, draws).ArgsError?
            else
              var second := EvalArgs(c, b, first.draws);
              if second.ArgsError? then EvalArgs(c, a + b, draws).ArgsError?
              else EvalArgs(c, a + b, draws) == ArgsResult(first.values + second.values, second.draws)
  {
    if a == [] {
      assert a + b == b;
    } else {
      assert (a + b)[1..] == a[1..] + b;
      var head := Eval(c, a[0], draws);
      if head.Result? {
        EvalArgsAppend(c, a[1..], b, head.draws);
      }
    }
  }

  class ExpressionParser {
    const expression: string
    const context: Context
    var position: nat
    var draws: Draws

    constructor (expression: string, context: Context, draws: Draws)
      ensures this.expression == expression && this.context == context
      ensures position == 0 && this.draws == draws
    {
      this.expression, this.context := expression, context;
      position, this.draws := 0, draws;
    }

    function Rest(): (s: string)
      requires position <= |expression|
      reads this
      ensures |s| == |expression| - position
    {
      expression[position..]
    }

    method Consume(token: string) returns (found: bool)
      requires position <= |expression| && token != ""
      modifies `position
      ensures old(position) <= position <= |expression|
      ensures found <==> Take(token, old(Rest())).Some?
      ensures Rest() == if found then Take(token, old(Rest())).value else Skip(old(Rest()))
      ensures found ==> position > old(position)
    {
      found, position := Scanning.Consume(expression, position, token);
    }

    method EvaluateValue() returns (r: Option<Value>)
      requires position == 0
      modifies this
      ensures var tree := ParseText(expression);
              if tree.None? || Eval(context, tree.value, old(draws)).Error? then r.None?
              else r == Some(Eval(context, tree.value, old(draws)).v)
                   && draws == Eval(context, tree.value, old(draws)).draws
                   && position == |expression|
    {
      assert Rest() == expression;
      r := ParseLogicalOr();
      if r.Some? {
        position := Scanning.SkipSpaces(expression, position);
        if position != |expression| {
          r := None;
        }
      }
    }

    /** Tries the operators of one level in the order the source does. */
    method NextOperator(k: nat) returns (op: Option<Op>)
      requires position <= |expression| && k <= 5
      modifies `position
      ensures old(position) <= position <= |expression|
      ensures op.Some? ==> position > old(position)
      ensures op.Some? ==> FirstOf(Operators(k), old(Rest())) == FoundOp(op.value, Rest())
      ensures op.None? ==> FirstOf(Operators(k), old(Rest())) == NoOp && Rest() == Skip(old(Rest()))
    {
      op, position := Scanning.NextOperator(expression, position, Operators(k));
    }

    method ParseLogicalOr() returns (r: Option<Value>)
      requires position <= |expression|
      modifies this
      decreases |expression| - position, 9
      ensures old(position) <= position <= |expression|
      ensures Outcome(context, Tree(0, old(Rest())), old(draws), r, Rest(), draws)
    {
      hide Tree, Chain, Eval, FirstOf, Skip;
      ghost var text, start := Rest(), draws;
      r := ParseLogicalAnd();
      FirstOperand(context, 0, text, start, r, Rest(), draws);
      if r.None? {
        return;
      }
      ghost var e := Tree(1, text).e;
      while true
        invariant old(position) <= position <= |expression| && r.Some?
        invariant Reading(context, 0, text, start, Rest(), e, r.value, draws)
        decreases |expression| - position
      {
        ghost var left, before, value := Rest(), draws, r.value;
        var op := NextOperator(0);
        if op.None? {
          LastOperand(context, 0, text, start, left, e, value, draws);
          return;
        }
        ghost var rightText := Rest();
        var right := ParseLogicalAnd();
        NextOperand(context, 0, text, start, left, e, value, before, op.value, rightText, right, Rest(), draws);
        if right.None? {
          return None;
        }
        if AsBool(right.value).None? || AsBool(r.value).None? {
          return None;
        }
        r := Some(Bool(AsBool(r.value).value || AsBool(right.value).value));
        e := Binary(op.value, e, Tree(1, rightText).e);
      }
    }

    method ParseLogicalAnd() returns (r: Option<Value>)
      requires position <= |expression|
      modifies this
      decreases |expression| - position, 8
      ensures old(position) <= position <= |expression|
      ensures Outcome(context, Tree(1, old(Rest())), old(draws), r, Rest(), draws)
    {
      hide Tree, Chain, Eval, FirstOf, Skip;
      ghost var text, start := Rest(), draws;
      r := ParseEquality();
      FirstOperand(context, 1, text, start, r, Rest(), draws);
      if r.None? {
        return;
      }
      ghost var e := Tree(2, text).e;
      while true
        invariant old(position) <= position <= |expression| && r.Some?
        invariant Reading(context, 1, text, start, Rest(), e, r.value, draws)
        decreases |expression| - position
      {
        ghost var left, before, value := Rest(), draws, r.value;
        var op := NextOperator(1);
        if op.None? {
          LastOperand(context, 1, text, start, left, e, value, draws);
          return;
        }
        ghost var rightText := Rest();
        var right := ParseEquality();
        NextOperand(context, 1, text, start, left, e, value, before, op.value, rightText, right, Rest(), draws);
        if right.None? {
          return None;
        }
        if AsBool(right.value).None? || AsBool(r.value).None? {
          return None;
        }
        r := Some(Bool(AsBool(r.value).value && AsBool(right.value).value));
        e := Binary(op.value, e, Tree(2, rightText).e);
      }
    }

    method ParseEquality() returns (r: Option<Value>)
      requires position <= |expression|
      modifies this
      decreases |expression| - position, 7
      ensures old(position) <= position <= |expression|
      ensures Outcome(context, Tree(2, old(Rest())), old(draws), r, Rest(), draws)
    {
      hide Tree, Chain, Eval, FirstOf, Skip;
      ghost var text, start := Rest(), draws;
      r := ParseComparison();
      FirstOperand(context, 2, text, start, r, Rest(), draws);
      if r.None? {
        return;
      }
      ghost var e := Tree(3, text).e;
      while true
        invariant old(position) <= position <= |expression| && r.Some?
        invariant Reading(context, 2, text, start, Rest(), e, r.value, draws)
        decreases |expression| - position
      {
        ghost var left, before, value := Rest(), draws, r.value;
        var op := NextOperator(2);
        if op.None? {
          LastOperand(context, 2, text, start, left, e, value, draws);
          return;
        }
        ghost var rightText := Rest();
        var right := ParseComparison();
        NextOperand(context, 2, text, start, left, e, value, before, op.value, rightText, right, Rest(), draws);
        if right.None? {
          return None;
        }
        r := CompareEqual(r.value, right.value, op.value.Eq?);
        if r.None? {
          return;
        }
        e := Binary(op.value, e, Tree(3, rightText).e);
      }
    }

    method ParseComparison() returns (r: Option<Value>)
      requires position <= |expression|
      modifies this
      decreases |expression| - position, 6
      ensures old(position) <= position <= |expression|
      ensures Outcome(context, Tree(3, old(Rest())), old(draws), r, Rest(), draws)
    {
      hide Tree, Chain, Eval, FirstOf, Skip;
      ghost var text, start := Rest(), draws;
      r := ParseAdditive();
      FirstOperand(context, 3, text, start, r, Rest(), draws);
      if r.None? {
        return;
      }
      ghost var e := Tree(4, text).e;
      ghost var left, before, value := Rest(), draws, r.value;
      var op := NextOperator(3);
      if op.None? {
        LastOperand(context, 3, text, start, left, e, value, draws);
        return;
      }
      ghost var rightText := Rest();
      var right := ParseAdditive();
      NextOperand(context, 3, text, start, left, e, value, before, op.value, rightText, right, Rest(), draws);
      if right.None? || AsNumber(r.value).None? || AsNumber(right.value).None? {
        return None;
      }
      var x, y := AsNumber(r.value).value, AsNumber(right.value).value;
      r := Some(Bool(if op.value.Ge? then x >= y
                     else if op.value.Le? then x <= y
                     else if op.value.Gt? then x > y
                     else x < y));
    }

    method ParseAdditive() returns (r: Option<Value>)
      requires position <= |expression|
      modifies this
      decreases |expression| - position, 5
      ensures old(position) <= position <= |expression|
      ensures Outcome(context, Tree(4, old(Rest())), old(draws), r, Rest(), draws)
    {
      hide Tree, Chain, Eval, FirstOf, Skip;
      ghost var text, start := Rest(), draws;
      r := ParseMultiplicative();
      FirstOperand(context, 4, text, start, r, Rest(), draws);
      if r.None? {
        return;
      }
      ghost var e := Tree(5, text).e;
      while true
        invariant old(position) <= position <= |expression| && r.Some?
        invariant Reading(context, 4, text, start, Rest(), e, r.value, draws)
        decreases |expression| - position
      {
        ghost var left, before, value := Rest(), draws, r.value;
        var op := NextOperator(4);
        if op.None? {
          LastOperand(context, 4, text, start, left, e, value, draws);
          return;
        }
        ghost var rightText := Rest();
        var right := ParseMultiplicative();
        NextOperand(context, 4, text, start, left, e, value, before, op.value, rightText, right, Rest(), draws);
        if right.None? {
          return None;
        }
        if AsNumber(right.value).None? || AsNumber(r.value).None? {
          return None;
        }
        var x, y := AsNumber(r.value).value, AsNumber(right.value).value;
        r := Some(Num(if op.value.Plus? then x + y else x - y));
        e := Binary(op.value, e, Tree(5, rightText).e);
      }
    }

    method ParseMultiplicative() returns (r: Option<Value>)
      requires position <= |expression|
      modifies this
      decreases |expression| - position, 4
      ensures old(position) <= position <= |expression|
      ensures Outcome(context, Tree(5, old(Rest())), old(draws), r, Rest(), draws)
    {
      hide Tree, Chain, Eval, FirstOf, Skip, Combine;
      ghost var text, start := Rest(), draws;
      r := ParseUnary();
      FirstOperand(context, 5, text, start, r, Rest(), draws);
      if r.None? {
        return;
      }
      ghost var e := Tree(6, text).e;
      while true
        invariant old(position) <= position <= |expression| && r.Some?
        invariant Reading(context, 5, text, start, Rest(), e, r.value, draws)
        decreases |expression| - position
      {
        ghost var left, before, value := Rest(), draws, r.value;
        var op := NextOperator(5);
        if op.None? {
          LastOperand(context, 5, text, start, left, e, value, draws);
          return;
        }
        ghost var rightText := Rest();
        var right := ParseUnary();
        NextOperand(context, 5, text, start, left, e, value, before, op.value, rightText, right, Rest(), draws);
        if right.None? {
          return None;
        }
        if AsNumber(right.value).None? || AsNumber(r.value).None? {
          NumbersOnly(op.value, r.value, right.value);
          return None;
        }
        var x, y := AsNumber(r.value).value, AsNumber(right.value).value;
        Multiplicative(r.value, right.value, x, y);
        if op.value.Times? {
          r := Some(Num(x * y));
        } else {
          if y == 0.0 {
            return None;
          }
          r := Some(Num(x / y));
        }
        e := Binary(op.value, e, Tree(6, rightText).e);
      }
    }

    method ParseUnary() returns (r: Option<Value>)
      requires position <= |expression|
      modifies this
      decreases |expression| - position, 3
      ensures old(position) <= position <= |expression|
      ensures Outcome(context, Tree(6, old(Rest())), old(draws), r, Rest(), draws)
    {
      hide Chain, FirstOf, Skip, Primary;
      TakeAfterSkip("-", Rest());
      UnarySkip(Rest());
      var found := Consume("!");
      if found {
        r := ParseUnary();
        if r.Some? {
          r := if AsBool(r.value).None? then None else Some(Bool(!AsBool(r.value).value));
        }
        return;
      }
      found := Consume("-");
      if found {
        r := ParseUnary();
        if r.Some? {
          r := if AsNumber(r.value).None? then None else Some(Num(-AsNumber(r.value).value));
        }
        return;
      }
      r := ParsePrimary();
    }

    method ParsePrimary() returns (r: Option<Value>)
      requires position <= |expression|
      modifies this
      decreases |expression| - position, 2
      ensures old(position) <= position <= |expression|
      ensures Outcome(context, Primary(old(Rest())), old(draws), r, Rest(), draws)
    {
      TakeAfterSkip("(", Rest());
      var parenthesis := Consume("(");
      if parenthesis {
        r := ParseLogicalOr();
        if r.Some? {
          var closed := Consume(")");
          if !closed {
            r := None;
          }
        }
        return;
      }
      if position >= |expression| {
        return None;
      }
      var c := expression[position];
      if c == '"' || c == '\'' {
        r := ParseStringLiteral();
      } else if IsDigit(c) || c == '.' {
        r := ParseNumberLiteral();
      } else if IsWordStart(c) {
        r := ParseIdentifierOrCall();
      } else {
        r := None;
      }
    }

    method ParseStringLiteral() returns (r: Option<Value>)
      requires position < |expression|
      modifies this
      decreases |expression| - position, 0
      ensures old(position) <= position <= |expression|
      ensures Outcome(context, StringLiteral(old(Rest())), old(draws), r, Rest(), draws)
    {
      hide StringBody;
      var quote := expression[position];
      position := position + 1;
      ghost var body := Rest();
      assert body == old(Rest())[1..];
      var out := "";
      PrependNothing(StringBody(quote, body));
      while position < |expression|
        invariant old(position) < position <= |expression| && draws == old(draws)
        invariant StringBody(quote, body) == Prepended(out, StringBody(quote, Rest()))
      {
        var c := expression[position];
        ghost var here := Rest();
        StringBodyStep(quote, here, out);
        position := position + 1;
        assert here[1..] == Rest();
        if c == quote {
          return Some(Str(out));
        }
        if c == '\\' && position < |expression| {
          out := out + [Unescape(expression[position])];
          position := position + 1;
          assert here[2..] == Rest();
        } else {
          out := out + [c];
        }
      }
      StringBodyEnds(quote, out);
      r := None;
    }

    method ParseNumberLiteral() returns (r: Option<Value>)
      requires position < |expression|
      modifies this
      decreases |expression| - position, 0
      ensures old(position) <= position <= |expression|
      ensures Outcome(context, NumberLiteral(old(Rest())), old(draws), r, Rest(), draws)
    {
      hide Mantissa, Exponent, Digits;
      var start := position;
      var mantissaDigit, exponent;
      position, mantissaDigit, exponent := Scanning.ScanNumber(expression, start);
      if !mantissaDigit && !exponent {
        return None;
      }
      var value := context.toNumber(expression[start..position]);
      r := if value.Some? then Some(Num(value.value)) else None;
    }

    method ScanName() returns (name: string)
      requires position < |expression|
      modifies `position
      ensures old(position) < position <= |expression|
      ensures var n := 1 + NameChars(old(Rest())[1..]); name == old(Rest())[..n] && Rest() == old(Rest())[n..]
    {
      ghost var text := Rest();
      var start := position;
      position := position + 1;
      assert Rest() == text[1..];
      while position < |expression| && IsNameChar(expression[position])
        invariant start < position <= |expression|
        invariant NameChars(text[1..]) == position - start - 1 + NameChars(Rest())
      {
        assert Rest()[1..] == expression[position + 1..];
        position := position + 1;
      }
      name := expression[start..position];
    }

    method ParseIdentifierOrCall() returns (r: Option<Value>)
      requires position < |expression|
      modifies this
      decreases |expression| - position, 1
      ensures old(position) <= position <= |expression|
      ensures Outcome(context, IdentifierOrCall(old(Rest())), old(draws), r, Rest(), draws)
    {
      hide Take, Skip, NameChars, CallArguments;
      var name := ScanName();
      if name == "true" {
        return Some(Bool(true));
      }
      if name == "false" {
        return Some(Bool(false));
      }
      var called := Consume("(");
      if called {
        r := ParseArguments(name);
      } else {
        r := context.resolve(name);
      }
    }

    method ParseArguments(name: string) returns (r: Option<Value>)
      requires position <= |expression|
      modifies this
      decreases |expression| - position, 11
      ensures old(position) <= position <= |expression|
      ensures Outcome(context, CallArguments(name, old(Rest())), old(draws), r, Rest(), draws)
    {
      hide Tree, Args, EvalArgs, Take, Skip, Apply;
      ghost var text, start, es := Rest(), draws, [];
      var args: seq<Value> := [];
      var empty := Consume(")");
      if !empty {
        BeforeArguments(context, text, start);
        var closed := false;
        while !closed
          invariant old(position) <= position <= |expression|
          invariant !closed ==> ReadingArgs(context, text, start, es, args, draws, Rest())
          invariant closed ==> Args(text) == ArgsOk(es, Rest())
          invariant EvalArgs(context, es, start) == ArgsResult(args, draws)
          decreases !closed, |expression| - position
        {
          ghost var here, before := Rest(), draws;
          var arg := ParseLogicalOr();
          NextArgument(context, text, start, es, args, before, here, arg, Rest(), draws);
          if arg.None? {
            return None;
          }
          args := args + [arg.value];
          es := es + [Tree(0, here).e];
          TakeAfterSkip(",", Rest());
          closed := Consume(")");
          if !closed {
            var comma := Consume(",");
            if !comma {
              return None;
            }
          }
        }
      } else {
        NoArguments(context, start);
      }
      CallValue(context, name, es, start);
      r := EvalFunction(name, args);
    }

    method EvalFunction(name: string, args: seq<Value>) returns (r: Option<Value>)
      modifies `draws
      ensures var value := Apply(context, name, args, old(draws));
              if value.Error? then r.None? else r == Some(value.v) && draws == value.draws
    {
      if name == "rng" || name == "std::rng_uniform" {
        if |args| != 3 || !context.hasRng || !args[0].Str? {
          return None;
        }
        var key, lo, hi := args[0].s, AsNumber(args[1]), AsNumber(args[2]);
        if lo.None? || hi.None? || hi.value < lo.value {
          return None;
        }
        var normalized := context.sample(key, Occurrences(key, draws));
        draws := draws + [key];
        return Some(Num(Between(lo.value, hi.value, normalized)));
      }
      r := context.call(name, args);
    }
  }

  function Prepended(out: string, q: Quoted): Quoted
  {
    if q.Unterminated? then Unterminated else Content(out + q.content, q.rest)
  }

  lemma PrependNothing(q: Quoted)
    ensures Prepended("", q) == q
  {
    if q.Content? {
      assert "" + q.content == q.content;
    }
  }

  lemma StringBodyStep(quote: char, s: string, out: string)
    requires s != ""
    ensures s[0] == quote ==> Prepended(out, StringBody(quote, s)) == Content(out, s[1..])
    ensures s[0] != quote && s[0] == '\\' && |s| > 1 ==>
              Prepended(out, StringBody(quote, s)) == Prepended(out + [Unescape(s[1])], StringBody(quote, s[2..]))
    ensures s[0] != quote && !(s[0] == '\\' && |s| > 1) ==>
              Prepended(out, StringBody(quote, s)) == Prepended(out + [s[0]], StringBody(quote, s[1..]))
  {
    var escaped := s[0] == '\\' && |s| > 1;
    var tail := StringBody(quote, s[if escaped then 2 else 1..]);
    if tail.Content? {
      var c := if escaped then Unescape(s[1]) else s[0];
      assert out + ([c] + tail.content) == out + [c] + tail.content;
    }
    assert out + "" == out;
  }

  lemma StringBodyEnds(quote: char, out: string)
    ensures Prepended(out, StringBody(quote, "")) == Unterminated
  {
  }

  /** White space in front of an operand does not matter. */
  lemma UnarySkip(s: string)
    ensures Unary(s) == Unary(Skip(s)) && Primary(s) == Primary(Skip(s))
  {
    SkipTwice(s);
  }

  lemma {:induction false} TreeSkip(k: nat, s: string)
    requires k <= 6
    ensures Tree(k, s) == Tree(k, Skip(s))
    decreases 6 - k
  {
    if k == 6 {
      UnarySkip(s);
    } else {
      TreeSkip(k + 1, s);
    }
  }

  lemma ArgsSkip(s: string)
    ensures Args(s) == Args(Skip(s))
  {
    TreeSkip(0, s);
  }

  /** Some arguments of a call have been read and evaluated, in order. */
  ghost predicate ReadingArgs(c: Context, text: string, start: Draws, es: seq<Expr>, vs: seq<Value>, draws: Draws,
                              rest: string)
  {
    Args(text) == WithArgs(es, Args(rest)) && EvalArgs(c, es, start) == ArgsResult(vs, draws)
  }

  lemma BeforeArguments(c: Context, text: string, start: Draws)
    ensures ReadingArgs(c, text, start, [], [], start, Skip(text))
  {
    ArgsSkip(text);
    if Args(text).ArgsOk? {
      assert [] + Args(text).args == Args(text).args;
    }
  }

  lemma NoArguments(c: Context, start: Draws)
    ensures EvalArgs(c, [], start) == ArgsResult([], start)
  {
  }

  lemma CallValue(c: Context, name: string, es: seq<Expr>, start: Draws)
    ensures var args := EvalArgs(c, es, start);
            Eval(c, Call(name, es), start) == if args.ArgsError? then Error else Apply(c, name, args.values, args.draws)
  {
  }

  lemma NextArgument(c: Context, text: string, start: Draws, es: seq<Expr>, vs: seq<Value>, before: Draws, here: string,
                     arg: Option<Value>, rest: string, after: Draws)
    requires ReadingArgs(c, text, start, es, vs, before, here)
    requires Outcome(c, Tree(0, here), before, arg, rest, after)
    ensures arg.None? ==> Args(text).ArgsFail? || EvalArgs(c, Args(text).args, start).ArgsError?
    ensures arg.Some? ==>
              var all := es + [Tree(0, here).e];
              && EvalArgs(c, all, start) == ArgsResult(vs + [arg.value], after)
              && (Take(")", rest).Some? ==> Args(text) == ArgsOk(all, Take(")", rest).value))
              && (Take(")", rest).None? && Take(",", rest).None? ==> Args(text) == ArgsFail)
              && (Take(")", rest).None? && Take(",", rest).Some? ==>
                    Args(text) == WithArgs(all, Args(Take(",", rest).value)))
  {
    hide Tree, Eval, Take;
    if arg.None? {
      ArgumentFails(c, es, here, start, before);
    } else {
      var e := Tree(0, here).e;
      EvalArgsAppend(c, es, [e], start);
      assert EvalArgs(c, [e], before) == ArgsResult([arg.value], after);
      var tail := if Take(",", rest).Some? then Args(Take(",", rest).value) else ArgsFail;
      assert tail.ArgsOk? ==> es + ([e] + tail.args) == es + [e] + tail.args;
    }
  }

  /** When one argument cannot be read or evaluated the whole call fails. */
  lemma ArgumentFails(c: Context, es: seq<Expr>, s: string, start: Draws, draws: Draws)
    requires EvalArgs(c, es, start).ArgsResult? && EvalArgs(c, es, start).draws == draws
    requires Failed(c, Tree(0, s), draws)
    ensures var all := WithArgs(es, Args(s)); all.ArgsFail? || EvalArgs(c, all.args, start).ArgsError?
  {
    var t := Tree(0, s);
    if t.Ok? && Args(s).ArgsOk? {
      EvalArgsAppend(c, es, Args(s).args, start);
    }
  }
}

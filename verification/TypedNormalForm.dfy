/** Every text the typed expression parser accepts has a normal form: the tree
    it reads can be written down again, with any white space and the fewest
    parentheses, and reads as the same tree and so has the same value and draws
    (src/engine/typed_runtime.cpp, TypedExpressionParser). */
module TypedNormalForm {
  import opened Optional
  import opened Lexical
  import opened TypedExpression
  import opened TypedParser
  import opened TypedRoundTrip

  /** A numeric literal read from a text is a literal on its own. */
  lemma NumberStandsAlone(s: string)
    requires s != "" && (IsDigit(s[0]) || s[0] == '.') && NumberLength(s) > 0
    ensures IsNumberToken(s[..NumberLength(s)])
  {
    hide Exponent;
    var m := Mantissa(s);
    var x := Exponent(s[m..]);
    var a, y := s[..m], s[m..][..x];
    assert s[..m + x] == a + y;
    MantissaSplit(s);
    ExponentPrefix(s[m..]);
    ExponentStarts(s[m..]);
    MantissaAppend(a, y);
    assert (a + y)[m..] == y;
  }

  lemma {:induction false} NamePrefix(s: string)
    ensures NameChars(s[..NameChars(s)]) == NameChars(s)
  {
    hide IsNameChar;
    if s != "" && IsNameChar(s[0]) {
      NamePrefix(s[1..]);
      assert s[..NameChars(s)][1..] == s[1..][..NameChars(s[1..])];
    }
  }

  lemma NameStandsAlone(s: string)
    requires s != "" && IsWordStart(s[0])
    ensures var name := s[..1 + NameChars(s[1..])]; name == "true" || name == "false" || IsName(name)
  {
    hide IsNameChar;
    var n := NameChars(s[1..]);
    NamePrefix(s[1..]);
    assert s[..1 + n][1..] == s[1..][..n];
  }

  lemma {:induction false} TreeIsWritable(k: nat, s: string)
    requires k <= 6 && Tree(k, s).Ok?
    ensures Writable(Tree(k, s).e)
    decreases |s|, 9 - k
  {
    if k == 6 {
      UnaryIsWritable(s);
    } else {
      TreeIsWritable(k + 1, s);
      ChainIsWritable(k, Tree(k + 1, s).rest, Tree(k + 1, s).e);
    }
  }

  lemma {:induction false} ChainIsWritable(k: nat, s: string, left: Expr)
    requires k <= 5 && Chain(k, s, left).Ok? && Writable(left)
    ensures Writable(Chain(k, s, left).e)
    decreases |s|, 9 - k
  {
    match FirstOf(Operators(k), s)
    case NoOp =>
    case FoundOp(op, t) =>
      TreeIsWritable(k + 1, t);
      var right := Tree(k + 1, t);
      if k != 3 {
        ChainIsWritable(k, right.rest, Binary(op, left, right.e));
      }
  }

  lemma {:induction false} UnaryIsWritable(s: string)
    requires Unary(s).Ok?
    ensures Writable(Unary(s).e)
    decreases |s|, 2
  {
    match Take("!", s)
    case Some(t) => UnaryIsWritable(t);
    case None =>
      match Take("-", s)
      case Some(t) => UnaryIsWritable(t);
      case None => PrimaryIsWritable(s);
  }

  lemma {:induction false} PrimaryIsWritable(s: string)
    requires Primary(s).Ok?
    ensures Writable(Primary(s).e)
    decreases |s|, 1
  {
    match Take("(", s)
    case Some(t) => TreeIsWritable(0, t);
    case None =>
      var t := Skip(s);
      if t[0] == '"' || t[0] == '\'' {
      } else if IsDigit(t[0]) || t[0] == '.' {
        NumberStandsAlone(t);
      } else {
        NameIsWritable(t);
      }
  }

  lemma {:induction false} NameIsWritable(s: string)
    requires s != "" && IsWordStart(s[0]) && IdentifierOrCall(s).Ok?
    ensures Writable(IdentifierOrCall(s).e)
    decreases |s|, 0
  {
    hide IsName, NameChars;
    NameStandsAlone(s);
    var n := 1 + NameChars(s[1..]);
    var name, t := s[..n], s[n..];
    if name != "true" && name != "false" && Take("(", t).Some? {
      CallIsWritable(name, Take("(", t).value);
    }
  }

  lemma {:induction false} CallIsWritable(name: string, s: string)
    requires IsName(name) && CallArguments(name, s).Ok?
    ensures Writable(CallArguments(name, s).e)
    decreases |s|, 11
  {
    if Take(")", s).None? {
      ArgsAreWritable(s);
    }
  }

  lemma {:induction false} ArgsAreWritable(s: string)
    requires Args(s).ArgsOk?
    ensures WritableAll(Args(s).args)
    decreases |s|, 10
  {
    TreeIsWritable(0, s);
    var first := Tree(0, s);
    if Take(")", first.rest).None? {
      var u := Take(",", first.rest).value;
      ArgsAreWritable(u);
      assert ([first.e] + Args(u).args)[1..] == Args(u).args;
    } else {
      assert [first.e][1..] == [];
    }
  }

  /** Trees that can be parsed are exactly the trees that can be written. */
  lemma ParsedIffWritable(e: Expr)
    ensures (exists s :: ParseText(s) == Some(e)) <==> Writable(e)
  {
    if Writable(e) {
      PrintParseRoundTrip("", e, "");
    }
    forall s | ParseText(s) == Some(e)
      ensures Writable(e)
    {
      TreeIsWritable(0, s);
    }
  }

  /** Reformatting a text never changes what it evaluates to or draws. */
  lemma ReformattingKeepsMeaning(s: string, w: string, trailing: string)
    requires AllSpaces(w) && AllSpaces(trailing) && ParseText(s).Some?
    ensures ParseText(Print(w, 0, ParseText(s).value, trailing)) == ParseText(s)
  {
    hide Print, Tree;
    ParsedIffWritable(ParseText(s).value);
    PrintParseRoundTrip(w, ParseText(s).value, trailing);
  }

  /** Running the evaluator on the printed text of a tree consumes all of it,
      returns the value of the tree or fails with it, and makes the draws of the
      tree's random calls. */
  method EvaluatePrinted(c: Context, e: Expr, w: string, trailing: string, start: Draws)
      returns (r: Option<Value>, draws: Draws, position: nat)
    requires Writable(e) && AllSpaces(w) && AllSpaces(trailing)
    ensures r.Some? <==> Eval(c, e, start).Result?
    ensures r.Some? ==> r.value == Eval(c, e, start).v && draws == Eval(c, e, start).draws
    ensures r.Some? ==> DrawnInOrder(c, RandomCalls(e), start, draws) && position == |Print(w, 0, e, trailing)|
  {
    hide Print, ParseText, Eval, RandomCalls, DrawnInOrder, Writable, AllSpaces;
    var parser := new ExpressionParser(Print(w, 0, e, trailing), c, start);
    PrintParseRoundTrip(w, e, trailing);
    r := parser.EvaluateValue();
    draws, position := parser.draws, parser.position;
    if r.Some? {
      DrawsAreTheRandomCalls(c, e, start);
    }
  }
}

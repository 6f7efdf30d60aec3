/** Reading back the printed text of an expression tree gives the tree. */
module TypedRoundTrip {
  import opened Optional
  import opened Lexical
  import opened TypedExpression

  // ------------------------------------------------------ what may follow

  /** The precedence level announced by the first character after an operand. */
  function CharLevel(c: char): int
  {
    if c == ')' || c == ',' then -1
    else if c == '|' then 0
    else if c == '&' then 1
    else if c == '=' || c == '!' then 2
    else if c == '>' || c == '<' then 3
    else if c == '+' || c == '-' then 4
    else if c == '*' || c == '/' then 5
    else 6
  }

  /** An operand read at level k may be followed by `rest`: the next character
      does not extend a token, and no operator of a level above k comes next. */
  predicate Follows(k: int, rest: string)
  {
    && (rest != "" ==> !IsNameChar(rest[0]))
    && (Skip(rest) != "" ==> CharLevel(Skip(rest)[0]) <= k)
  }

  /** The result is the tree e with `rest` left over, up to white space. */
  ghost predicate Reads(r: Parsed, e: Expr, rest: string)
  {
    r.Ok? && r.e == e && Skip(r.rest) == Skip(rest)
  }

  lemma FirstOfSkips(ops: seq<Op>, s: string, t: string)
    requires Skip(s) == Skip(t)
    ensures FirstOf(ops, s).FoundOp? == FirstOf(ops, t).FoundOp?
    ensures FirstOf(ops, s).FoundOp? ==> FirstOf(ops, s) == FirstOf(ops, t)
  {
  }

  lemma ChainSkips(k: nat, s: string, t: string, left: Expr)
    requires k <= 5 && Skip(s) == Skip(t)
    ensures Chain(k, s, left) == Chain(k, t, left)
  {
    FirstOfSkips(Operators(k), s, t);
  }

  lemma NoOperatorAbove(k: int, j: nat, rest: string)
    requires Follows(k, rest) && k < j <= 5
    ensures FirstOf(Operators(j), rest) == NoOp
  {
    var t := Skip(rest);
    forall op | op in Operators(j)
      ensures Take(Token(op), rest) == None
    {
      assert OpLevel(op) == j;
      assert CharLevel(Token(op)[0]) == j;
    }
    NothingFound(Operators(j), rest);
  }

  lemma NothingFound(ops: seq<Op>, s: string)
    requires forall op :: op in ops ==> Take(Token(op), s) == None
    ensures FirstOf(ops, s) == NoOp
  {
  }

  /** With no operator of level k next, the chain stops at once. */
  lemma ChainStops(k: nat, rest: string, left: Expr)
    requires k <= 5 && Follows(k - 1, rest)
    ensures Reads(Chain(k, rest, left), left, rest)
  {
    NoOperatorAbove(k - 1, k, rest);
    SkipTwice(rest);
  }

  // ------------------------------------------------------- token by token

  lemma TakeEmitted(w: string, token: string, rest: string)
    requires AllSpaces(w) && token != "" && !IsSpace(token[0])
    ensures Skip(Emit(w, token, rest)) == token + rest
    ensures Take(token, Emit(w, token, rest)) == Some(rest)
  {
    SkipSpaces(w, token + rest);
    assert Skip(token + rest) == token + rest;
    assert (token + rest)[|token|..] == rest;
  }

  /** Characters that can begin an operand. */
  predicate IsOperandStart(c: char)
  {
    IsWordChar(c) || c == '"' || c == '(' || c == '!' || c == '-' || c == '.'
  }

  predicate StartsOperand(s: string)
  {
    Skip(s) != "" && IsOperandStart(Skip(s)[0])
  }

  /** The first character of a printed tree. */
  function FirstChar(k: nat, e: Expr): char
    requires Writable(e)
    decreases e
  {
    if Level(e) < k then '('
    else match e
      case Number(token) => token[0]
      case Text(_) => '"'
      case Truth(b) => if b then 't' else 'f'
      case Name(id) => id[0]
      case Call(f, _) => f[0]
      case Not(_) => '!'
      case Negate(_) => '-'
      case Binary(op, l, _) => FirstChar(LeftLevel(op), l)
  }

  lemma {:induction false} FirstCharStarts(k: nat, e: Expr)
    requires Writable(e)
    ensures IsOperandStart(FirstChar(k, e)) && !IsSpace(FirstChar(k, e))
    decreases e
  {
    if Level(e) >= k && e.Binary? {
      FirstCharStarts(LeftLevel(e.op), e.l);
    }
  }

  lemma EmitStarts(w: string, token: string, rest: string)
    requires AllSpaces(w) && token != "" && !IsSpace(token[0])
    ensures Skip(Emit(w, token, rest)) != "" && Skip(Emit(w, token, rest))[0] == token[0]
  {
    TakeEmitted(w, token, rest);
  }

  lemma {:induction false} PrintStarts(w: string, k: nat, e: Expr, rest: string)
    requires AllSpaces(w) && Writable(e)
    ensures Skip(Print(w, k, e, rest)) != "" && Skip(Print(w, k, e, rest))[0] == FirstChar(k, e)
    ensures StartsOperand(Print(w, k, e, rest))
    decreases e
  {
    FirstCharStarts(k, e);
    if Level(e) < k {
      EmitStarts(w, "(", PrintBare(w, e, Emit(w, ")", rest)));
    } else {
      match e
      case Number(token) => EmitStarts(w, token, rest);
      case Text(content) => EmitStarts(w, "\"", Escape(content, rest));
      case Truth(b) => EmitStarts(w, if b then "true" else "false", rest);
      case Name(id) => EmitStarts(w, id, rest);
      case Call(f, args) => EmitStarts(w, f, Emit(w, "(", PrintArgs(w, args, rest)));
      case Not(a) => EmitStarts(w, "!", Print(w, 6, a, rest));
      case Negate(a) => EmitStarts(w, "-", Print(w, 6, a, rest));
      case Binary(op, l, r) =>
        PrintStarts(w, LeftLevel(op), l, Emit(w, Token(op), Print(w, OpLevel(op) + 1, r, rest)));
    }
  }

  lemma {:induction false} FirstOfAt(ops: seq<Op>, i: nat, s: string, rest: string)
    requires i < |ops| && Take(Token(ops[i]), s) == Some(rest)
    requires forall j :: 0 <= j < i ==> Take(Token(ops[j]), s) == None
    ensures FirstOf(ops, s) == FoundOp(ops[i], rest)
  {
    if i > 0 {
      FirstOfAt(ops[1..], i - 1, s, rest);
    }
  }

  /** Where an operator stands among those of its level. */
  function Position(op: Op): nat
  {
    if op.Ne? || op.Le? || op.Minus? || op.Divide? then 1 else if op.Gt? then 2 else if op.Lt? then 3 else 0
  }

  /** Operators tried earlier do not match the text of a later one. */
  lemma EarlierOperatorsMiss(op: Op, j: nat, s: string)
    requires j < Position(op) && s != "" && s[0] != '='
    ensures j < |Operators(OpLevel(op))|
    ensures !(Token(Operators(OpLevel(op))[j]) <= Token(op) + s)
  {
    var t := Token(op) + s;
    var other := Token(Operators(OpLevel(op))[j]);
    if op.Gt? || op.Lt? {
      assert t[1] == s[0];
      assert other == ">=" || other == "<=" || (op.Lt? && other == ">");
    }
    assert t[0] == Token(op)[0];
  }

  lemma TokenShape(op: Op)
    ensures Position(op) < |Operators(OpLevel(op))| && Operators(OpLevel(op))[Position(op)] == op
  {
  }

  /** An emitted operator is the one the parser finds at its level. */
  lemma OperatorFound(w: string, op: Op, s: string)
    requires AllSpaces(w) && s != "" && s[0] != '='
    ensures FirstOf(Operators(OpLevel(op)), Emit(w, Token(op), s)) == FoundOp(op, s)
  {
    hide Token, Operators, OpLevel, Position, FirstOf, Skip, Emit;
    var text := Emit(w, Token(op), s);
    TokenShape(op);
    TakeEmitted(w, Token(op), s);
    forall j | 0 <= j < Position(op)
      ensures Take(Token(Operators(OpLevel(op))[j]), text) == None
    {
      EarlierOperatorsMiss(op, j, s);
    }
    FirstOfAt(Operators(OpLevel(op)), Position(op), text, s);
  }

  lemma OperatorMayFollow(w: string, op: Op, s: string)
    requires AllSpaces(w)
    ensures Follows(OpLevel(op), Emit(w, Token(op), s))
  {
    TakeEmitted(w, Token(op), s);
    var text := Emit(w, Token(op), s);
    assert text[0] == if w == "" then Token(op)[0] else w[0];
    assert Skip(text)[0] == Token(op)[0];
  }

  lemma {:induction false} NameCharsAppend(s: string, rest: string)
    requires NameChars(s) == |s| && (rest == "" || !IsNameChar(rest[0]))
    ensures NameChars(s + rest) == |s|
  {
    hide IsNameChar;
    if s == "" {
      assert s + rest == rest;
    } else {
      assert (s + rest)[1..] == s[1..] + rest;
      NameCharsAppend(s[1..], rest);
    }
  }

  lemma NumberReads(token: string, rest: string)
    requires IsNumberToken(token) && Follows(6, rest)
    ensures NumberLiteral(token + rest) == Ok(Number(token), rest)
  {
    var m := Mantissa(token);
    var a, x := token[..m], token[m..];
    MantissaSplit(token);
    MantissaAppend(a, x + rest);
    ExponentAppend(x, rest);
    hide Mantissa, Exponent, Digits;
    var s := token + rest;
    assert s == a + (x + rest);
    assert s[m..] == x + rest;
    assert NumberLength(s) == |token|;
    assert s[..|token|] == token && s[|token|..] == rest;
  }

  /** One escaped character is read back as itself. */
  lemma EscapedCharReads(c: char, tail: string)
    ensures var s := EscapeChar(c) + tail;
            var escaped := s[0] == '\\' && |s| > 1;
            && s[0] != '"'
            && (escaped <==> |EscapeChar(c)| == 2)
            && (if escaped then Unescape(s[1]) else s[0]) == c
            && s[if escaped then 2 else 1..] == tail
  {
    var lead := EscapeChar(c);
    var s := lead + tail;
    assert s[|lead|..] == tail;
    assert s[0] == lead[0];
    assert |lead| == 2 ==> s[1] == lead[1];
  }

  lemma {:induction false} StringReads(content: string, rest: string)
    ensures StringBody('"', Escape(content, rest)) == Content(content, rest)
  {
    if content == "" {
      assert ("\"" + rest)[1..] == rest;
    } else {
      StringReads(content[1..], rest);
      EscapedCharReads(content[0], Escape(content[1..], rest));
      assert content == [content[0]] + content[1..];
    }
  }

  // ------------------------------------------------------ the round trip

  /** What a tree printed at level k must be followed by to be read back. */
  function FollowLevel(k: nat): int
  {
    if k == 3 then 2 else if k == 6 then 5 else k
  }

  /** Printed at level k, a tree is read back and the parser is left in front
      of the rest, about to look for further operators of that level. */
  ghost predicate ReadBack(w: string, k: nat, e: Expr, rest: string)
    requires k <= 6
  {
    var r := Tree(k, Print(w, k, e, rest));
    if k == 3 || k == 6 then Reads(r, e, rest) else r == Chain(k, rest, e)
  }

  function Measure(k: nat, e: Expr): nat
    requires k <= 6
  {
    if Level(e) < k then 20 - k else 7 - k
  }

  lemma PrintReads(w: string, k: nat, e: Expr, rest: string)
    requires AllSpaces(w) && Writable(e) && k <= 6 && Follows(FollowLevel(k), rest)
    ensures ReadBack(w, k, e, rest)
    decreases e, 1, Measure(k, e), 1
  {
    if k == 6 {
      UnaryReads(w, e, rest);
    } else if Level(e) == k {
      BinaryReads(w, e, rest);
    } else {
      LowerReads(w, k, e, rest);
    }
  }

  /** A tree that does not belong to level k itself is read one level up. */
  lemma LowerReads(w: string, k: nat, e: Expr, rest: string)
    requires AllSpaces(w) && Writable(e) && k <= 5 && Level(e) != k && Follows(FollowLevel(k), rest)
    ensures ReadBack(w, k, e, rest)
    decreases e, 1, Measure(k, e), 0
  {
    hide PrintBare, Chain, Unary, Writable, Skip, FirstOf;
    ReadsComplete(w, k + 1, e, rest);
    var r := Tree(k + 1, Print(w, k + 1, e, rest));
    ChainSkips(k, r.rest, rest, e);
    if k == 3 {
      ChainStops(3, rest, e);
    }
  }

  /** Followed by nothing that binds as tightly, a printed tree is read whole. */
  lemma ReadsComplete(w: string, k: nat, e: Expr, rest: string)
    requires AllSpaces(w) && Writable(e) && k <= 6 && Follows(k - 1, rest)
    ensures Reads(Tree(k, Print(w, k, e, rest)), e, rest)
    decreases e, 1, Measure(k, e), 2
  {
    PrintReads(w, k, e, rest);
    if k != 3 && k != 6 {
      ChainStops(k, rest, e);
    }
  }

  lemma BinaryReads(w: string, e: Expr, rest: string)
    requires AllSpaces(w) && Writable(e) && Level(e) <= 5 && Follows(FollowLevel(Level(e)), rest)
    ensures ReadBack(w, Level(e), e, rest)
    decreases e, 0
  {
    hide Print, PrintBare, FirstOf, Skip, Chain, Tree, Reads;
    var k := Level(e);
    var op, l, r := e.op, e.l, e.r;
    var right := Print(w, k + 1, r, rest);
    var tail := Emit(w, Token(op), right);
    PrintBinary(w, e, rest);
    RightOperandReads(w, op, r, rest);
    OperatorMayFollow(w, op, right);
    if k == 3 {
      ReadsComplete(w, 4, l, tail);
      ComparisonReads(Print(w, 4, l, tail), op, l, r, tail, right, rest);
    } else {
      PrintReads(w, k, l, tail);
      ChainContinues(op, l, r, tail, right, rest);
    }
  }

  lemma PrintBinary(w: string, e: Expr, rest: string)
    requires e.Binary?
    ensures Print(w, Level(e), e, rest)
         == Print(w, LeftLevel(e.op), e.l, Emit(w, Token(e.op), Print(w, Level(e) + 1, e.r, rest)))
  {
  }

  lemma RightOperandReads(w: string, op: Op, r: Expr, rest: string)
    requires AllSpaces(w) && Writable(r) && Follows(OpLevel(op), rest)
    ensures var right := Print(w, OpLevel(op) + 1, r, rest);
            && FirstOf(Operators(OpLevel(op)), Emit(w, Token(op), right)) == FoundOp(op, right)
            && Reads(Tree(OpLevel(op) + 1, right), r, rest)
    decreases r, 2
  {
    var right := Print(w, OpLevel(op) + 1, r, rest);
    PrintStarts(w, OpLevel(op) + 1, r, rest);
    FirstCharStarts(OpLevel(op) + 1, r);
    assert right != "" && right[0] != '=';
    OperatorFound(w, op, right);
    ReadsComplete(w, OpLevel(op) + 1, r, rest);
  }

  lemma ComparisonTakesOne(op: Op, l: Expr, r: Expr, tail: string, right: string, rest: string)
    requires OpLevel(op) == 3 && FirstOf(Operators(3), tail) == FoundOp(op, right)
    requires Reads(Tree(4, right), r, rest)
    ensures Reads(Chain(3, tail, l), Binary(op, l, r), rest)
  {
  }

  lemma ComparisonReads(text: string, op: Op, l: Expr, r: Expr, tail: string, right: string, rest: string)
    requires OpLevel(op) == 3 && FirstOf(Operators(3), tail) == FoundOp(op, right)
    requires Reads(Tree(4, right), r, rest) && Reads(Tree(4, text), l, tail)
    ensures Reads(Tree(3, text), Binary(op, l, r), rest)
  {
    ChainSkips(3, Tree(4, text).rest, tail, l);
    ComparisonTakesOne(op, l, r, tail, right, rest);
  }

  lemma ChainContinues(op: Op, l: Expr, r: Expr, tail: string, right: string, rest: string)
    requires OpLevel(op) != 3 && FirstOf(Operators(OpLevel(op)), tail) == FoundOp(op, right)
    requires Reads(Tree(OpLevel(op) + 1, right), r, rest)
    ensures Chain(OpLevel(op), tail, l) == Chain(OpLevel(op), rest, Binary(op, l, r))
  {
    ChainSkips(OpLevel(op), Tree(OpLevel(op) + 1, right).rest, rest, Binary(op, l, r));
  }

  lemma EmitMayFollow(w: string, c: char, rest: string)
    requires AllSpaces(w) && (c == ')' || c == ',')
    ensures Follows(-1, Emit(w, [c], rest))
  {
    TakeEmitted(w, [c], rest);
    var text := Emit(w, [c], rest);
    assert text[0] == if w == "" then c else w[0];
    assert Skip(text)[0] == c;
  }

  lemma TakeMisses(token: string, s: string)
    requires token != "" && (Skip(s) == "" || Skip(s)[0] != token[0])
    ensures Take(token, s) == None
  {
  }

  lemma {:induction false} UnaryReads(w: string, e: Expr, rest: string)
    requires AllSpaces(w) && Writable(e) && Follows(5, rest)
    ensures Reads(Unary(Print(w, 6, e, rest)), e, rest)
    decreases e, 1, Measure(6, e), 0
  {
    var text := Print(w, 6, e, rest);
    PrintStarts(w, 6, e, rest);
    if e.Not? {
      TakeEmitted(w, "!", Print(w, 6, e.e, rest));
      UnaryReads(w, e.e, rest);
    } else if e.Negate? {
      TakeMisses("!", text);
      TakeEmitted(w, "-", Print(w, 6, e.e, rest));
      UnaryReads(w, e.e, rest);
    } else {
      LeafFirstChar(e);
      TakeMisses("!", text);
      TakeMisses("-", text);
      if Level(e) < 6 {
        ParenthesesRead(w, e, rest);
      } else {
        LeafReads(w, e, rest);
      }
    }
  }

  lemma LeafFirstChar(e: Expr)
    requires Writable(e) && !e.Not? && !e.Negate?
    ensures FirstChar(6, e) != '!' && FirstChar(6, e) != '-'
    ensures Level(e) == 7 ==> FirstChar(6, e) != '('
  {
  }

  lemma ParenthesesRead(w: string, e: Expr, rest: string)
    requires AllSpaces(w) && Writable(e) && Level(e) < 6
    ensures Reads(Primary(Print(w, 6, e, rest)), e, rest)
    decreases e, 1, 8, 0
  {
    var closing := Emit(w, ")", rest);
    TakeEmitted(w, "(", PrintBare(w, e, closing));
    EmitMayFollow(w, ')', rest);
    ReadsComplete(w, 0, e, closing);
    TakeEmitted(w, ")", rest);
  }

  lemma LeafReads(w: string, e: Expr, rest: string)
    requires AllSpaces(w) && Writable(e) && Level(e) == 7 && Follows(5, rest)
    ensures Reads(Primary(Print(w, 6, e, rest)), e, rest)
    decreases e, 0
  {
    match e
    case Number(token) => NumberLeafReads(w, token, rest);
    case Text(content) => TextLeafReads(w, content, rest);
    case Truth(b) => TruthLeafReads(w, b, rest);
    case Name(id) => NameLeafReads(w, id, rest);
    case Call(f, args) => CallReads(w, f, args, rest);
  }

  lemma NumberLeafReads(w: string, token: string, rest: string)
    requires AllSpaces(w) && IsNumberToken(token) && Follows(6, rest)
    ensures Primary(Emit(w, token, rest)) == Ok(Number(token), rest)
  {
    TakeEmitted(w, token, rest);
    TakeMisses("(", Emit(w, token, rest));
    NumberReads(token, rest);
  }

  lemma TextLeafReads(w: string, content: string, rest: string)
    requires AllSpaces(w)
    ensures Primary(Emit(w, "\"", Escape(content, rest))) == Ok(Text(content), rest)
  {
    var body := Escape(content, rest);
    TakeEmitted(w, "\"", body);
    TakeMisses("(", Emit(w, "\"", body));
    StringReads(content, rest);
    assert ("\"" + body)[1..] == body;
  }

  lemma WordPrimary(w: string, word: string, rest: string)
    requires AllSpaces(w) && word != "" && IsWordStart(word[0])
    ensures Primary(Emit(w, word, rest)) == IdentifierOrCall(word + rest)
  {
    hide IdentifierOrCall;
    TakeEmitted(w, word, rest);
    TakeMisses("(", Emit(w, word, rest));
  }

  lemma TruthLeafReads(w: string, b: bool, rest: string)
    requires AllSpaces(w) && Follows(5, rest)
    ensures Primary(Emit(w, if b then "true" else "false", rest)) == Ok(Truth(b), rest)
  {
    hide Primary, Skip, Emit, AllSpaces, NameChars;
    var word := if b then "true" else "false";
    WordPrimary(w, word, rest);
    AllNameChars(word[1..]);
    WordReads(word, rest);
  }

  lemma NameLeafReads(w: string, id: string, rest: string)
    requires AllSpaces(w) && IsName(id) && Follows(5, rest)
    ensures Primary(Emit(w, id, rest)) == Ok(Name(id), Skip(rest)) && Skip(Skip(rest)) == Skip(rest)
  {
    TakeEmitted(w, id, rest);
    TakeMisses("(", Emit(w, id, rest));
    WordReads(id, rest);
    assert CharLevel('(') == 6;
    TakeMisses("(", rest);
    SkipTwice(rest);
  }

  lemma AllNameChars(s: string)
    requires forall i :: 0 <= i < |s| ==> IsNameChar(s[i])
    ensures NameChars(s) == |s|
  {
  }

  /** A whole word is split off in front of text that does not extend it. */
  lemma WordReads(word: string, rest: string)
    requires word != "" && NameChars(word[1..]) == |word| - 1
    requires rest == "" || !IsNameChar(rest[0])
    ensures (word + rest)[1..] == word[1..] + rest
    ensures 1 + NameChars((word + rest)[1..]) == |word|
    ensures (word + rest)[..|word|] == word && (word + rest)[|word|..] == rest
  {
    assert (word + rest)[1..] == word[1..] + rest;
    NameCharsAppend(word[1..], rest);
  }

  lemma CallHeadReads(f: string, tail: string, inside: string)
    requires IsName(f) && tail != "" && !IsNameChar(tail[0]) && Take("(", tail) == Some(inside)
    ensures IdentifierOrCall(f + tail) == CallArguments(f, inside)
  {
    WordReads(f, tail);
  }

  lemma CallStarts(w: string, f: string, args: seq<Expr>, rest: string)
    requires AllSpaces(w) && IsName(f)
    ensures Primary(Print(w, 6, Call(f, args), rest)) == CallArguments(f, PrintArgs(w, args, rest))
  {
    hide PrintArgs, CallArguments;
    var inside := PrintArgs(w, args, rest);
    var tail := Emit(w, "(", inside);
    WordPrimary(w, f, tail);
    TakeEmitted(w, "(", inside);
    assert tail[0] == if w == "" then '(' else w[0];
    CallHeadReads(f, tail, inside);
  }

  lemma CallReads(w: string, f: string, args: seq<Expr>, rest: string)
    requires AllSpaces(w) && IsName(f) && WritableAll(args)
    ensures Primary(Print(w, 6, Call(f, args), rest)) == Ok(Call(f, args), rest)
    decreases args, 1
  {
    hide Print, Primary;
    CallStarts(w, f, args, rest);
    if args == [] {
      TakeEmitted(w, ")", rest);
    } else {
      ArgsDoNotClose(w, args, rest);
      ArgsRead(w, args, rest);
    }
  }

  lemma ArgsDoNotClose(w: string, args: seq<Expr>, rest: string)
    requires AllSpaces(w) && WritableAll(args) && args != []
    ensures Take(")", PrintArgs(w, args, rest)) == None
  {
    var next := if |args| == 1 then Emit(w, ")", rest) else Emit(w, ",", PrintArgs(w, args[1..], rest));
    PrintStarts(w, 0, args[0], next);
    FirstCharStarts(0, args[0]);
    TakeMisses(")", PrintArgs(w, args, rest));
  }

  lemma {:induction false} ArgsRead(w: string, args: seq<Expr>, rest: string)
    requires AllSpaces(w) && WritableAll(args) && args != []
    ensures Args(PrintArgs(w, args, rest)) == ArgsOk(args, rest)
    decreases args, 0
  {
    if |args| == 1 {
      EmitMayFollow(w, ')', rest);
      ReadsComplete(w, 0, args[0], Emit(w, ")", rest));
      TakeEmitted(w, ")", rest);
    } else {
      var more := PrintArgs(w, args[1..], rest);
      var next := Emit(w, ",", more);
      EmitMayFollow(w, ',', more);
      ReadsComplete(w, 0, args[0], next);
      TakeEmitted(w, ",", more);
      ArgsRead(w, args[1..], rest);
      TakeMisses(")", next);
      assert [args[0]] + args[1..] == args;
    }
  }

  /** Printing any writable tree, with any white space between its tokens and
      after it, and parsing the text gives the tree back. */
  lemma PrintParseRoundTrip(w: string, e: Expr, trailing: string)
    requires AllSpaces(w) && AllSpaces(trailing) && Writable(e)
    ensures ParseText(Print(w, 0, e, trailing)) == Some(e)
  {
    SkipSpaces(trailing, "");
    assert trailing + "" == trailing;
    ReadsComplete(w, 0, e, trailing);
  }

  // ------------------------------------------------------- random draws

  /** The random calls of a tree: operands before operators, left to right. */
  function RandomCalls(e: Expr): seq<Expr>
    decreases e, 0
  {
    match e
    case Not(a) => RandomCalls(a)
    case Negate(a) => RandomCalls(a)
    case Binary(_, l, r) => RandomCalls(l) + RandomCalls(r)
    case Call(f, args) => RandomCallsIn(args) + if IsRandom(f) then [e] else []
    case _ => []
  }

  function RandomCallsIn(args: seq<Expr>): seq<Expr>
    decreases args, 0
  {
    if args == [] then [] else RandomCalls(args[0]) + RandomCallsIn(args[1..])
  }

  /** With these draws made before, the last of them by its own arguments, the
      call draws next from the stream that its first argument names. */
  ghost predicate DrawsNext(c: Context, call: Expr, history: Draws, key: string)
  {
    && call.Call? && IsRandom(call.functionName) && |RandomCallsIn(call.args)| <= |history|
    && var start := history[..|history| - |RandomCallsIn(call.args)|];
       var args := EvalArgs(c, call.args, start);
       && args.ArgsResult? && args.draws == history && args.values != [] && args.values[0] == Str(key)
       && Eval(c, call, start).Result? && Eval(c, call, start).draws == history + [key]
  }

  /** The draws from `before` on are those of the calls, one each, every one made
      at its place in the whole history. */
  ghost predicate DrawnInOrder(c: Context, calls: seq<Expr>, before: Draws, after: Draws)
  {
    && before <= after && |after| == |before| + |calls|
    && forall i :: 0 <= i < |calls| ==> DrawsNext(c, calls[i], after[..|before| + i], after[|before| + i])
  }

  lemma DrawnJoins(c: Context, a: seq<Expr>, b: seq<Expr>, d0: Draws, d1: Draws, d2: Draws)
    requires DrawnInOrder(c, a, d0, d1) && DrawnInOrder(c, b, d1, d2)
    ensures DrawnInOrder(c, a + b, d0, d2)
  {
    hide DrawsNext;
    forall i | 0 <= i < |a + b|
      ensures DrawsNext(c, (a + b)[i], d2[..|d0| + i], d2[|d0| + i])
    {
      if i < |a| {
        assert d2[..|d0| + i] == d1[..|d0| + i] && d2[|d0| + i] == d1[|d0| + i];
      } else {
        assert DrawsNext(c, b[i - |a|], d2[..|d1| + (i - |a|)], d2[|d1| + (i - |a|)]);
      }
    }
  }

  /** A random call that succeeds makes its own draw after those of its
      arguments. */
  lemma CallDrawsNext(c: Context, f: string, args: seq<Expr>, draws: Draws)
    requires IsRandom(f) && Eval(c, Call(f, args), draws).Result?
    requires EvalArgs(c, args, draws).ArgsResult?
    requires DrawnInOrder(c, RandomCallsIn(args), draws, EvalArgs(c, args, draws).draws)
    ensures var inner := EvalArgs(c, args, draws);
            && inner.values != [] && inner.values[0].Str?
            && Eval(c, Call(f, args), draws).draws == inner.draws + [inner.values[0].s]
            && DrawnInOrder(c, [Call(f, args)], inner.draws, inner.draws + [inner.values[0].s])
  {
    hide RandomCallsIn;
    var inner := EvalArgs(c, args, draws);
    var key := inner.values[0].s;
    assert inner.draws[..|inner.draws| - |RandomCallsIn(args)|] == draws;
    assert DrawsNext(c, Call(f, args), inner.draws, key);
    assert (inner.draws + [key])[..|inner.draws|] == inner.draws;
  }

  /** A successful evaluation makes exactly the draws of the tree's random
      calls, in post-order: no operator skips an operand. */
  lemma {:induction false} DrawsAreTheRandomCalls(c: Context, e: Expr, draws: Draws)
    requires Eval(c, e, draws).Result?
    ensures DrawnInOrder(c, RandomCalls(e), draws, Eval(c, e, draws).draws)
    decreases e, 0
  {
    match e
    case Not(a) => DrawsAreTheRandomCalls(c, a, draws);
    case Negate(a) => DrawsAreTheRandomCalls(c, a, draws);
    case Binary(op, l, r) =>
      var left := Eval(c, l, draws);
      DrawsAreTheRandomCalls(c, l, draws);
      DrawsAreTheRandomCalls(c, r, left.draws);
      DrawnJoins(c, RandomCalls(l), RandomCalls(r), draws, left.draws, Eval(c, r, left.draws).draws);
    case Call(f, args) =>
      ArgDrawsAreTheRandomCalls(c, args, draws);
      if IsRandom(f) {
        CallDrawsNext(c, f, args, draws);
        var inner := EvalArgs(c, args, draws);
        DrawnJoins(c, RandomCallsIn(args), [e], draws, inner.draws, inner.draws + [inner.values[0].s]);
      } else {
        assert RandomCallsIn(args) + [] == RandomCallsIn(args);
      }
    case _ =>
  }

  lemma {:induction false} ArgDrawsAreTheRandomCalls(c: Context, args: seq<Expr>, draws: Draws)
    requires EvalArgs(c, args, draws).ArgsResult?
    ensures DrawnInOrder(c, RandomCallsIn(args), draws, EvalArgs(c, args, draws).draws)
    decreases args, 0
  {
    if args != [] {
      var first := Eval(c, args[0], draws);
      DrawsAreTheRandomCalls(c, args[0], draws);
      ArgDrawsAreTheRandomCalls(c, args[1..], first.draws);
      DrawnJoins(c, RandomCalls(args[0]), RandomCallsIn(args[1..]), draws, first.draws,
                 EvalArgs(c, args[1..], first.draws).draws);
    }
  }
}

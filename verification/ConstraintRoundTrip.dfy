/** What the grammar of v1 constraints accepts, independently of the parser: the
    terms that have a text, how they are written, and that reading a written term
    gives it back (src/noisiax.cpp, ConstraintExpressionParser). */
module ConstraintRoundTrip {
  import opened Optional
  import opened Lexical
  import opened TypedExpression
  import opened ConstraintExpression
  import Constraints = ConstraintParser
  import Typed = TypedRoundTrip

  // ------------------------------------------------------- writing terms

  function OperatorLevel(op: Op): nat
  {
    if op.Or? then 0
    else if op.And? then 1
    else if op.Plus? || op.Minus? then 3
    else if op.Times? || op.Divide? then 4
    else 2
  }

  function TermLevel(t: Term): nat
  {
    match t
    case Joined(op, _, _) => OperatorLevel(op)
    case NonZero(_) => 2
    case Minus1(_) => 5
    case _ => 6
  }

  predicate IsConstant(token: string)
  {
    token != "" && (IsDigit(token[0]) || token[0] == '.') && ConstantLength(token) == |token|
  }

  /** Where level k is expected, a truth value binds at least as tightly, since
      it cannot be put in parentheses; arithmetic can. */
  predicate CanStand(k: nat, t: Term)
  {
    if k <= 2 then k <= TermLevel(t) <= 2 else TermLevel(t) >= 3
  }

  /** The terms that have a text: `&&` and `||` join truth values, to the left,
      all else works on arithmetic. */
  predicate Written(t: Term)
  {
    match t
    case Constant(token) => IsConstant(token)
    case Variable(id) => IsWord(id)
    case Minus1(a) => Written(a) && CanStand(5, a)
    case NonZero(a) => Written(a) && CanStand(3, a)
    case Joined(op, l, r) =>
      Written(l) && Written(r) && CanStand(LeftOperandLevel(op), l) && CanStand(OperatorLevel(op) + 1, r)
  }

  /** Comparisons do not chain; the other operators associate to the left. */
  function LeftOperandLevel(op: Op): nat
  {
    if OperatorLevel(op) == 2 then 3 else OperatorLevel(op)
  }

  /** The text of a term where level k is expected, followed by `rest`.  The
      white space w is put before every token; parentheses only where needed. */
  function Write(w: string, k: nat, t: Term, rest: string): string
    decreases t, 1
  {
    if TermLevel(t) < k then Emit(w, "(", WriteBare(w, t, Emit(w, ")", rest))) else WriteBare(w, t, rest)
  }

  function WriteBare(w: string, t: Term, rest: string): string
    decreases t, 0
  {
    match t
    case Constant(token) => Emit(w, token, rest)
    case Variable(id) => Emit(w, id, rest)
    case Minus1(a) => Emit(w, "-", Write(w, 5, a, rest))
    case NonZero(a) => Write(w, 3, a, rest)
    case Joined(op, l, r) =>
      Write(w, LeftOperandLevel(op), l, Emit(w, Token(op), Write(w, OperatorLevel(op) + 1, r, rest)))
  }

  // ------------------------------------------------------ what may follow

  /** The level announced by the first character after an operand. */
  function NextLevel(c: char): int
  {
    if c == ')' then -1
    else if c == '|' then 0
    else if c == '&' then 1
    else if c in "=!<>" then 2
    else if c == '+' || c == '-' then 3
    else if c == '*' || c == '/' then 4
    else 5
  }

  predicate MayFollow(k: int, rest: string)
  {
    && (rest != "" ==> !IsNameChar(rest[0]))
    && (Skip(rest) != "" ==> NextLevel(Skip(rest)[0]) <= k)
  }

  /** The result is the term t with `rest` left over, up to white space. */
  ghost predicate Gives(r: ParsedTerm, t: Term, rest: string)
  {
    r.Term? && r.t == t && Skip(r.rest) == Skip(rest)
  }

  lemma ContinueSkips(k: nat, s: string, u: string, left: Term)
    requires k <= 4 && Skip(s) == Skip(u)
    ensures Continue(k, s, left) == Continue(k, u, left)
  {
    Typed.FirstOfSkips(LevelOps(k), s, u);
  }

  /** With no operator of level k next, the operand is all there is. */
  lemma ContinueStops(k: nat, rest: string, left: Term)
    requires k <= 4 && MayFollow(k - 1, rest)
    ensures Gives(Continue(k, rest, left), if k == 2 then NonZero(left) else left, rest)
  {
    forall op | op in LevelOps(k)
      ensures Take(Token(op), rest) == None
    {
      assert NextLevel(Token(op)[0]) == k;
    }
    Typed.NothingFound(LevelOps(k), rest);
    SkipTwice(rest);
  }

  // ------------------------------------------------------- token by token

  /** The first character of a written term. */
  function FirstSymbol(k: nat, t: Term): char
    requires Written(t)
    decreases t
  {
    if TermLevel(t) < k then '('
    else match t
      case Constant(token) => token[0]
      case Variable(id) => id[0]
      case Minus1(_) => '-'
      case NonZero(a) => FirstSymbol(3, a)
      case Joined(op, l, _) => FirstSymbol(LeftOperandLevel(op), l)
  }

  lemma {:induction false} WriteStarts(w: string, k: nat, t: Term, rest: string)
    requires AllSpaces(w) && Written(t)
    ensures var s := Skip(Write(w, k, t, rest)); s != "" && s[0] == FirstSymbol(k, t)
    ensures !IsSpace(FirstSymbol(k, t)) && FirstSymbol(k, t) != '=' && FirstSymbol(k, t) != '+'
    decreases t
  {
    if TermLevel(t) < k {
      Typed.EmitStarts(w, "(", WriteBare(w, t, Emit(w, ")", rest)));
    } else {
      match t
      case Constant(token) => Typed.EmitStarts(w, token, rest);
      case Variable(id) => Typed.EmitStarts(w, id, rest);
      case Minus1(a) => Typed.EmitStarts(w, "-", Write(w, 5, a, rest));
      case NonZero(a) => WriteStarts(w, 3, a, rest);
      case Joined(op, l, r) =>
        WriteStarts(w, LeftOperandLevel(op), l, Emit(w, Token(op), Write(w, OperatorLevel(op) + 1, r, rest)));
    }
  }

  /** Where an operator stands among those of its level. */
  function Rank(op: Op): nat
  {
    match op
    case Le => 1
    case Eq => 2
    case Ne => 3
    case Gt => 4
    case Lt => 5
    case Minus => 1
    case Divide => 1
    case _ => 0
  }

  /** Operators tried earlier do not match the text of a later one. */
  lemma EarlierMiss(op: Op, j: nat, s: string)
    requires j < Rank(op) && s != "" && s[0] != '='
    ensures j < |LevelOps(OperatorLevel(op))|
    ensures !(Token(LevelOps(OperatorLevel(op))[j]) <= Token(op) + s)
  {
    var text, other := Token(op) + s, Token(LevelOps(OperatorLevel(op))[j]);
    assert text[0] == Token(op)[0];
    assert |Token(op)| == 1 ==> text[1] == s[0];
    assert |other| == 2 ==> other[1] == '=';
  }

  lemma RankIsPosition(op: Op)
    ensures Rank(op) < |LevelOps(OperatorLevel(op))| && LevelOps(OperatorLevel(op))[Rank(op)] == op
    ensures NextLevel(Token(op)[0]) == OperatorLevel(op) && !IsNameChar(Token(op)[0]) && !IsSpace(Token(op)[0])
  {
  }

  /** An emitted operator is the one the parser finds at its level. */
  lemma OperatorIsFound(w: string, op: Op, s: string)
    requires AllSpaces(w) && s != "" && s[0] != '='
    ensures FirstOf(LevelOps(OperatorLevel(op)), Emit(w, Token(op), s)) == FoundOp(op, s)
    ensures MayFollow(OperatorLevel(op), Emit(w, Token(op), s))
  {
    hide Token, LevelOps, OperatorLevel, Rank, FirstOf, Skip, NextLevel;
    var text := Emit(w, Token(op), s);
    RankIsPosition(op);
    Typed.TakeEmitted(w, Token(op), s);
    forall j | 0 <= j < Rank(op)
      ensures Take(Token(LevelOps(OperatorLevel(op))[j]), text) == None
    {
      EarlierMiss(op, j, s);
    }
    Typed.FirstOfAt(LevelOps(OperatorLevel(op)), Rank(op), text, s);
    assert text[0] == if w == "" then Token(op)[0] else w[0];
    assert Skip(text)[0] == Token(op)[0];
  }

  lemma ClosingMayFollow(w: string, rest: string)
    requires AllSpaces(w)
    ensures MayFollow(-1, Emit(w, ")", rest))
  {
    Typed.TakeEmitted(w, ")", rest);
    var text := Emit(w, ")", rest);
    assert text[0] == if w == "" then ')' else w[0];
    assert Skip(text)[0] == ')';
  }

  lemma ConstantReads(token: string, rest: string)
    requires IsConstant(token) && (rest != "" ==> !IsNameChar(rest[0]))
    ensures ReadConstant(token + rest) == Term(Constant(token), rest)
  {
    var m := Mantissa(token);
    var a, x := token[..m], token[m..];
    MantissaSplit(token);
    MantissaAppend(a, x + rest);
    ExponentAppend(x, rest);
    hide Mantissa, Exponent, Digits;
    var s := token + rest;
    assert s == a + (x + rest);
    assert s[m..] == x + rest;
    assert ConstantLength(s) == |token|;
    assert s[..|token|] == token && s[|token|..] == rest;
  }

  // ------------------------------------------------------ the round trip

  /** What a term written at level k must be followed by to be read back. */
  function FollowLevel(k: nat): int
  {
    if k == 2 || k == 5 then k - 1 else k
  }

  /** Written at level k, a term is read back and the parser is left in front
      of the rest, about to look for further operators of that level. */
  ghost predicate ReadsBack(w: string, k: nat, t: Term, rest: string)
    requires k <= 5
  {
    var r := Read(k, Write(w, k, t, rest));
    if k == 2 || k == 5 then Gives(r, t, rest) else r == Continue(k, rest, t)
  }

  function Measure(k: nat, t: Term): nat
    requires k <= 5
  {
    if TermLevel(t) < k then 20 - k else 7 - k
  }

  lemma WriteReads(w: string, k: nat, t: Term, rest: string)
    requires AllSpaces(w) && Written(t) && k <= 5 && CanStand(k, t) && MayFollow(FollowLevel(k), rest)
    ensures ReadsBack(w, k, t, rest)
    decreases t, 1, Measure(k, t), 1
  {
    if k == 5 {
      SignedReads(w, t, rest);
    } else if t.NonZero? && k == 2 {
      NonZeroReads(w, t.a, rest);
    } else if TermLevel(t) == k {
      JoinedReads(w, t, rest);
    } else {
      TighterReads(w, k, t, rest);
    }
  }

  /** A term that does not belong to level k itself is read one level up. */
  lemma TighterReads(w: string, k: nat, t: Term, rest: string)
    requires AllSpaces(w) && Written(t) && k <= 4 && CanStand(k, t) && TermLevel(t) != k && MayFollow(k, rest)
    ensures ReadsBack(w, k, t, rest)
    decreases t, 1, Measure(k, t), 0
  {
    hide WriteBare, Continue, ReadSigned, Written, Skip, FirstOf;
    WrittenReads(w, k + 1, t, rest);
    ContinueSkips(k, Read(k + 1, Write(w, k + 1, t, rest)).rest, rest, t);
  }

  /** Followed by nothing that binds as tightly, a written term is read whole. */
  lemma WrittenReads(w: string, k: nat, t: Term, rest: string)
    requires AllSpaces(w) && Written(t) && k <= 5 && CanStand(k, t) && MayFollow(k - 1, rest)
    ensures Gives(Read(k, Write(w, k, t, rest)), t, rest)
    decreases t, 1, Measure(k, t), 2
  {
    WriteReads(w, k, t, rest);
    if k != 2 && k != 5 {
      ContinueStops(k, rest, t);
    }
  }

  lemma NonZeroReads(w: string, a: Term, rest: string)
    requires AllSpaces(w) && Written(a) && CanStand(3, a) && MayFollow(1, rest)
    ensures ReadsBack(w, 2, NonZero(a), rest)
    decreases NonZero(a), 0
  {
    hide Continue, Skip, FirstOf;
    var text := Write(w, 3, a, rest);
    WrittenReads(w, 3, a, rest);
    ContinueSkips(2, Read(3, text).rest, rest, a);
    ContinueStops(2, rest, a);
    assert Write(w, 2, NonZero(a), rest) == text;
  }

  lemma JoinedReads(w: string, t: Term, rest: string)
    requires AllSpaces(w) && Written(t) && t.Joined? && MayFollow(FollowLevel(TermLevel(t)), rest)
    ensures ReadsBack(w, TermLevel(t), t, rest)
    decreases t, 0
  {
    hide Write, WriteBare, FirstOf, Skip, Continue, Read, Gives;
    var op, l, r, k := t.op, t.l, t.r, TermLevel(t);
    var right := Write(w, k + 1, r, rest);
    var tail := Emit(w, Token(op), right);
    WriteJoined(w, t, rest);
    WriteStartsWell(w, k + 1, r, rest);
    OperatorIsFound(w, op, right);
    WrittenReads(w, k + 1, r, rest);
    if k == 2 {
      WrittenReads(w, 3, l, tail);
      ComparisonIsRead(Write(w, 3, l, tail), op, l, r, tail, right, rest);
    } else {
      WriteReads(w, k, l, tail);
      OperandsGoOn(op, l, r, tail, right, rest);
    }
  }

  lemma WriteJoined(w: string, t: Term, rest: string)
    requires t.Joined?
    ensures Write(w, TermLevel(t), t, rest)
         == Write(w, LeftOperandLevel(t.op), t.l, Emit(w, Token(t.op), Write(w, TermLevel(t) + 1, t.r, rest)))
  {
  }

  lemma WriteStartsWell(w: string, k: nat, t: Term, rest: string)
    requires AllSpaces(w) && Written(t)
    ensures Write(w, k, t, rest) != "" && Write(w, k, t, rest)[0] != '='
  {
    WriteStarts(w, k, t, rest);
  }

  lemma ComparisonIsRead(text: string, op: Op, l: Term, r: Term, tail: string, right: string, rest: string)
    requires OperatorLevel(op) == 2 && FirstOf(LevelOps(2), tail) == FoundOp(op, right)
    requires Gives(Read(3, right), r, rest) && Gives(Read(3, text), l, tail)
    ensures Gives(Read(2, text), Joined(op, l, r), rest)
  {
    ContinueSkips(2, Read(3, text).rest, tail, l);
  }

  lemma OperandsGoOn(op: Op, l: Term, r: Term, tail: string, right: string, rest: string)
    requires OperatorLevel(op) != 2 && FirstOf(LevelOps(OperatorLevel(op)), tail) == FoundOp(op, right)
    requires Gives(Read(OperatorLevel(op) + 1, right), r, rest)
    ensures Continue(OperatorLevel(op), tail, l) == Continue(OperatorLevel(op), rest, Joined(op, l, r))
  {
    ContinueSkips(OperatorLevel(op), Read(OperatorLevel(op) + 1, right).rest, rest, Joined(op, l, r));
  }

  lemma {:induction false} SignedReads(w: string, t: Term, rest: string)
    requires AllSpaces(w) && Written(t) && CanStand(5, t) && MayFollow(4, rest)
    ensures Gives(ReadSigned(Write(w, 5, t, rest)), t, rest)
    decreases t, 1, Measure(5, t), 0
  {
    var text := Write(w, 5, t, rest);
    WriteStarts(w, 5, t, rest);
    Typed.TakeMisses("+", text);
    if t.Minus1? {
      Typed.TakeEmitted(w, "-", Write(w, 5, t.a, rest));
      SignedReads(w, t.a, rest);
    } else {
      Typed.TakeMisses("-", text);
      if TermLevel(t) < 5 {
        ArithmeticInParentheses(w, t, rest);
      } else {
        OperandReads(w, t, rest);
      }
    }
  }

  lemma ArithmeticInParentheses(w: string, t: Term, rest: string)
    requires AllSpaces(w) && Written(t) && CanStand(3, t) && TermLevel(t) < 5
    ensures Gives(ReadPrimary(Write(w, 5, t, rest)), t, rest)
    decreases t, 1, 8, 0
  {
    hide WriteBare, Continue, Read;
    var closing := Emit(w, ")", rest);
    Typed.TakeEmitted(w, "(", WriteBare(w, t, closing));
    ClosingMayFollow(w, rest);
    WrittenReads(w, 3, t, closing);
    Typed.TakeEmitted(w, ")", rest);
  }

  lemma OperandReads(w: string, t: Term, rest: string)
    requires AllSpaces(w) && Written(t) && TermLevel(t) == 6 && MayFollow(4, rest)
    ensures Gives(ReadPrimary(Write(w, 5, t, rest)), t, rest)
  {
    if t.Constant? {
      ConstantOperandReads(w, t.token, rest);
    } else {
      WordOperandReads(w, t.id, rest);
    }
  }

  lemma ConstantOperandReads(w: string, token: string, rest: string)
    requires AllSpaces(w) && IsConstant(token) && (rest != "" ==> !IsNameChar(rest[0]))
    ensures ReadPrimary(Emit(w, token, rest)) == Term(Constant(token), rest)
  {
    hide ReadConstant, ConstantLength;
    Typed.TakeEmitted(w, token, rest);
    Typed.TakeMisses("(", Emit(w, token, rest));
    ConstantReads(token, rest);
  }

  lemma WordOperandReads(w: string, id: string, rest: string)
    requires AllSpaces(w) && IsWord(id) && (rest != "" ==> !IsNameChar(rest[0]))
    ensures ReadPrimary(Emit(w, id, rest)) == Term(Variable(id), rest)
  {
    hide WordChars;
    Typed.TakeEmitted(w, id, rest);
    Typed.TakeMisses("(", Emit(w, id, rest));
    WordCharsAppend(id, rest);
    assert (id + rest)[..|id|] == id && (id + rest)[|id|..] == rest;
  }

  /** Reading a written truth value, with any white space between its tokens and
      after it, gives it back. */
  lemma WriteReadRoundTrip(w: string, t: Term, trailing: string)
    requires AllSpaces(w) && AllSpaces(trailing) && Written(t) && CanStand(0, t)
    ensures ReadText(Write(w, 0, t, trailing)) == Some(t)
  {
    SkipSpaces(trailing, "");
    assert trailing + "" == trailing;
    WrittenReads(w, 0, t, trailing);
  }

  // ------------------------------------------------- nothing else is read

  lemma ConstantStandsAlone(s: string)
    requires s != "" && (IsDigit(s[0]) || s[0] == '.') && ConstantLength(s) > 0
    ensures IsConstant(s[..ConstantLength(s)])
  {
    hide Exponent;
    var m := Mantissa(s);
    var x := Exponent(s[m..]);
    var a, y := s[..m], s[m..][..x];
    assert s[..m + x] == a + y;
    MantissaSplit(s);
    ExponentPrefix(s[m..]);
    ExponentStarts(s[m..]);
    MantissaAppend(a, y);
    assert (a + y)[m..] == y;
  }

  lemma {:induction false} ReadIsWritten(k: nat, s: string)
    requires k <= 5 && Read(k, s).Term?
    ensures Written(Read(k, s).t) && CanStand(k, Read(k, s).t)
    decreases |s|, 9 - k
  {
    if k == 5 {
      SignedIsWritten(s);
    } else {
      ReadIsWritten(k + 1, s);
      ContinueIsWritten(k, Read(k + 1, s).rest, Read(k + 1, s).t);
    }
  }

  lemma LevelsOfOperators(k: nat, op: Op)
    requires op in LevelOps(k)
    ensures OperatorLevel(op) == k
  {
  }

  lemma {:induction false} ContinueIsWritten(k: nat, s: string, left: Term)
    requires k <= 4 && Continue(k, s, left).Term? && Written(left)
    requires CanStand(if k == 2 then 3 else k, left)
    ensures Written(Continue(k, s, left).t) && CanStand(k, Continue(k, s, left).t)
    decreases |s|, 9 - k
  {
    match FirstOf(LevelOps(k), s)
    case NoOp =>
    case FoundOp(op, t) =>
      FoundIsListed(LevelOps(k), s);
      LevelsOfOperators(k, op);
      ReadIsWritten(k + 1, t);
      var right := Read(k + 1, t);
      if k != 2 {
        ContinueIsWritten(k, right.rest, Joined(op, left, right.t));
      }
  }

  lemma {:induction false} FoundIsListed(ops: seq<Op>, s: string)
    ensures var f := FirstOf(ops, s); f.FoundOp? ==> f.op in ops
  {
    if ops != [] {
      FoundIsListed(ops[1..], s);
    }
  }

  lemma {:induction false} SignedIsWritten(s: string)
    requires ReadSigned(s).Term?
    ensures Written(ReadSigned(s).t) && CanStand(5, ReadSigned(s).t)
    decreases |s|, 2
  {
    match Take("+", s)
    case Some(t) => SignedIsWritten(t);
    case None =>
      match Take("-", s)
      case Some(t) => SignedIsWritten(t);
      case None => PrimaryIsWritten(s);
  }

  lemma {:induction false} PrimaryIsWritten(s: string)
    requires ReadPrimary(s).Term?
    ensures Written(ReadPrimary(s).t) && CanStand(5, ReadPrimary(s).t)
    decreases |s|, 1
  {
    match Take("(", s)
    case Some(t) => ReadIsWritten(3, t);
    case None =>
      var t := Skip(s);
      if IsDigit(t[0]) || t[0] == '.' {
        ConstantStandsAlone(t);
      } else {
        WordCharsAppend(t[..WordChars(t)], "");
        assert t[..WordChars(t)] + "" == t[..WordChars(t)];
      }
  }

  /** The terms some text is read as are exactly the written truth values: no
      text puts `&&`, `||` or a comparison in parentheses, none chains
      comparisons, and plain arithmetic at the top is compared with zero. */
  lemma ReadIffWritten(t: Term)
    ensures (exists s :: ReadText(s) == Some(t)) <==> Written(t) && CanStand(0, t)
  {
    if Written(t) && CanStand(0, t) {
      WriteReadRoundTrip("", t, "");
    }
    forall s | ReadText(s) == Some(t)
      ensures Written(t) && CanStand(0, t)
    {
      ReadIsWritten(0, s);
    }
  }

  /** Every constraint that can be read has a normal form with the same truth. */
  lemma NormalFormKeepsTruth(env: Environment, s: string, w: string, trailing: string)
    requires AllSpaces(w) && AllSpaces(trailing) && ReadText(s).Some?
    ensures Holds(env, Write(w, 0, ReadText(s).value, trailing)) == Holds(env, s)
  {
    hide Write, Read;
    ReadIffWritten(ReadText(s).value);
    WriteReadRoundTrip(w, ReadText(s).value, trailing);
  }

  /** Running the evaluator on the written text of a term gives its truth. */
  method EvaluateWritten(env: Environment, t: Term, w: string, trailing: string) returns (r: Option<bool>)
    requires Written(t) && CanStand(0, t) && AllSpaces(w) && AllSpaces(trailing)
    ensures r == match ValueOf(env, t) case None => None case Some(v) => AsBool(v)
  {
    hide Write, ReadText, ValueOf;
    WriteReadRoundTrip(w, t, trailing);
    var parser := new Constraints.Parser(Write(w, 0, t, trailing), env);
    r := parser.Evaluate();
  }
}

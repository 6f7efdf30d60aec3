/** Identifier rewriting for namespaced imports and its effect on constraint
    expressions (src/experiment/scenario_resolver.cpp, prefix_id and
    rewrite_simple_identifiers). */
module Namespacing {
  import opened Optional
  import opened Lexical
  import opened TypedExpression
  import opened ConstraintExpression
  import Parsing = ConstraintParser
  import Scanning

  /** Text that would be read as an exponent right after digits. */
  predicate IsExponentLike(s: string)
  {
    s != "" && (s[0] == 'e' || s[0] == 'E') && Digits(s[1..]) == |s| - 1
  }

  function PrefixId(ns: string, id: string): string
  {
    if ns == "" then id else ns + "__" + id
  }

  function Renamed(m: map<string, string>, id: string): string
  {
    if id in m then m[id] else id
  }

  /** Replaces every maximal word that is a key of the map. */
  function Rewrite(m: map<string, string>, s: string): string
    decreases |s|
  {
    if s == "" then ""
    else if IsWordStart(s[0]) then Renamed(m, s[..WordChars(s)]) + Rewrite(m, s[WordChars(s)..])
    else [s[0]] + Rewrite(m, s[1..])
  }

  method RewriteSimpleIdentifiers(expr: string, replacements: map<string, string>) returns (out: string)
    ensures out == Rewrite(replacements, expr)
  {
    hide WordChars, Rewrite;
    out := "";
    var i := 0;
    while i < |expr|
      invariant 0 <= i <= |expr|
      invariant out + Rewrite(replacements, expr[i..]) == Rewrite(replacements, expr)
    {
      var c := expr[i];
      ghost var rest := expr[i..];
      RewriteStep(replacements, rest, out);
      if IsWordStart(c) {
        var start := i;
        i := Scanning.EndOfWord(expr, start);
        var token := expr[start..i];
        assert token == rest[..WordChars(rest)] && expr[i..] == rest[WordChars(rest)..];
        out := out + if token in replacements then replacements[token] else token;
      } else {
        out := out + [c];
        i := i + 1;
        assert expr[i..] == rest[1..];
      }
    }
    assert expr[i..] == "" && expr[0..] == expr;
    RewriteNothing(replacements, out);
  }

  lemma RewriteNothing(m: map<string, string>, out: string)
    ensures out + Rewrite(m, "") == out
  {
  }

  lemma RewriteEmpty(m: map<string, string>)
    ensures Rewrite(m, "") == ""
  {
  }

  lemma RewriteStep(m: map<string, string>, s: string, out: string)
    requires s != ""
    ensures IsWordStart(s[0]) ==>
              out + Rewrite(m, s) == out + Renamed(m, s[..WordChars(s)]) + Rewrite(m, s[WordChars(s)..])
    ensures !IsWordStart(s[0]) ==> out + Rewrite(m, s) == out + [s[0]] + Rewrite(m, s[1..])
  {
  }

  /** Maps whose replacements are words, and which leave alone every word that
      could be the exponent of a numeric literal. */
  ghost predicate KeepsLiterals(m: map<string, string>)
  {
    forall k :: k in m && IsWord(k) ==> IsWord(m[k]) && !IsExponentLike(k) && !IsExponentLike(m[k])
  }

  function RenameTerm(m: map<string, string>, t: Term): Term
  {
    match t
    case Constant(_) => t
    case Variable(id) => Variable(Renamed(m, id))
    case Minus1(a) => Minus1(RenameTerm(m, a))
    case Joined(op, l, r) => Joined(op, RenameTerm(m, l), RenameTerm(m, r))
    case NonZero(a) => NonZero(RenameTerm(m, a))
  }

  function Names(t: Term): set<string>
  {
    match t
    case Constant(_) => {}
    case Variable(id) => {id}
    case Minus1(a) => Names(a)
    case Joined(_, l, r) => Names(l) + Names(r)
    case NonZero(a) => Names(a)
  }

  // ---------------------------------------------------- rewriting and tokens

  lemma RewriteStart(m: map<string, string>, s: string)
    requires KeepsLiterals(m) && s != ""
    ensures Rewrite(m, s) != ""
    ensures IsWordStart(s[0]) ==> IsWordStart(Rewrite(m, s)[0])
    ensures !IsWordStart(s[0]) ==> Rewrite(m, s)[0] == s[0] && Rewrite(m, s)[1..] == Rewrite(m, s[1..])
  {
    if IsWordStart(s[0]) {
      FrontWord(m, s);
    }
  }

  /** The word at the front is replaced by a word, and nothing is glued to it. */
  lemma FrontWord(m: map<string, string>, s: string)
    requires KeepsLiterals(m) && s != "" && IsWordStart(s[0])
    ensures var n := WordChars(s);
            && IsWord(s[..n]) && IsWord(Renamed(m, s[..n]))
            && (!IsExponentLike(s[..n]) ==> !IsExponentLike(Renamed(m, s[..n])))
            && (IsExponentLike(s[..n]) ==> Renamed(m, s[..n]) == s[..n])
            && Rewrite(m, s) == Renamed(m, s[..n]) + Rewrite(m, s[n..])
  {
    var n := WordChars(s);
    WordCharsAppend(s[..n], "");
    assert s[..n] + "" == s[..n];
  }

  lemma {:induction false} SkipRewrite(m: map<string, string>, s: string)
    requires KeepsLiterals(m)
    ensures Skip(Rewrite(m, s)) == Rewrite(m, Skip(s))
  {
    if s != "" {
      RewriteStart(m, s);
      if IsSpace(s[0]) {
        SkipRewrite(m, s[1..]);
      }
    }
  }

  predicate IsSymbol(token: string)
  {
    token != "" && forall i :: 0 <= i < |token| ==> !IsWordStart(token[i])
  }

  lemma PrefixStep(t: string, s: string)
    requires t != "" && s != ""
    ensures t <= s <==> t[0] == s[0] && t[1..] <= s[1..]
    ensures t <= s ==> s[|t|..] == s[1..][|t| - 1..]
  {
    assert t == [t[0]] + t[1..] && s == [s[0]] + s[1..];
  }

  lemma {:induction false} SymbolPrefix(m: map<string, string>, token: string, s: string)
    requires KeepsLiterals(m) && (token == "" || IsSymbol(token))
    ensures token <= Rewrite(m, s) <==> token <= s
    ensures token <= s ==> Rewrite(m, s)[|token|..] == Rewrite(m, s[|token|..])
  {
    hide Rewrite, KeepsLiterals;
    if token != "" {
      EmptyRewrite(m, s);
      if s != "" {
        RewriteStart(m, s);
        PrefixStep(token, s);
        PrefixStep(token, Rewrite(m, s));
        if token[0] == s[0] {
          SymbolPrefix(m, token[1..], s[1..]);
        }
      }
    }
  }

  lemma EmptyRewrite(m: map<string, string>, s: string)
    ensures s == "" ==> Rewrite(m, s) == ""
  {
  }

  lemma TakeRewrite(m: map<string, string>, token: string, s: string)
    requires KeepsLiterals(m) && IsSymbol(token)
    ensures Take(token, Rewrite(m, s))
         == match Take(token, s) case None => None case Some(t) => Some(Rewrite(m, t))
  {
    SkipRewrite(m, s);
    SymbolPrefix(m, token, Skip(s));
  }

  lemma {:induction false} FirstOfRewrite(m: map<string, string>, ops: seq<Op>, s: string)
    requires KeepsLiterals(m)
    ensures FirstOf(ops, Rewrite(m, s))
         == match FirstOf(ops, s) case NoOp => NoOp case FoundOp(op, t) => FoundOp(op, Rewrite(m, t))
  {
    if ops != [] {
      TakeRewrite(m, Token(ops[0]), s);
      FirstOfRewrite(m, ops[1..], s);
    }
  }

  lemma {:induction false} DigitsRewrite(m: map<string, string>, s: string)
    requires KeepsLiterals(m)
    ensures Digits(Rewrite(m, s)) == Digits(s)
    ensures Rewrite(m, s) == s[..Digits(s)] + Rewrite(m, s[Digits(s)..])
  {
    hide Rewrite, KeepsLiterals;
    if s != "" {
      RewriteStart(m, s);
      if IsDigit(s[0]) {
        DigitsRewrite(m, s[1..]);
        assert s[1..][Digits(s[1..])..] == s[Digits(s)..];
        assert s[..Digits(s)] == [s[0]] + s[1..][..Digits(s[1..])];
      }
    } else {
      RewriteNothing(m, "");
    }
  }

  /** Text without word characters is copied. */
  lemma {:induction false} RewriteCopies(m: map<string, string>, a: string, t: string)
    requires KeepsLiterals(m) && forall i :: 0 <= i < |a| ==> !IsWordStart(a[i])
    ensures Rewrite(m, a + t) == a + Rewrite(m, t)
  {
    if a == "" {
      assert a + t == t;
    } else {
      RewriteStart(m, a + t);
      assert (a + t)[1..] == a[1..] + t;
      RewriteCopies(m, a[1..], t);
      assert a == [a[0]] + a[1..];
      var r := Rewrite(m, a + t);
      assert r == [r[0]] + r[1..];
    }
  }

  // ----------------------------------- numeric literals next to identifiers

  /** No operator can follow here: the text goes on with a word. */
  predicate Stuck(s: string)
  {
    s != "" && IsWordStart(s[0])
  }

  /** A word that is not an exponent keeps a numeric literal from ending well. */
  lemma WordAfterNumber(w: string, u: string)
    requires IsWord(w) && !IsExponentLike(w) && (u == "" || !IsWordChar(u[0]))
    ensures Stuck((w + u)[Exponent(w + u)..])
  {
    var t := w + u;
    var x := Exponent(t);
    if x > 0 {
      assert t[0] == w[0];
      assert Digits(w[1..]) <= |w| - 1;
      assert |w| > 1;
      assert t[1] == w[1] && IsWordChar(w[1]);
      assert t[1..] == w[1..] + u;
      DigitsBounded(w[1..]);
      DigitsAppend(w[1..], u);
      assert t[x] == w[1..][Digits(w[1..])];
    }
  }

  /** An `e` with digits is a whole exponent, whatever text comes next. */
  lemma LongExponent(w: string, u: string)
    requires IsWord(w) && IsExponentLike(w) && |w| > 1 && (u == "" || !IsWordChar(u[0]))
    ensures Exponent(w + u) == |w| && (w + u)[..|w|] == w && (w + u)[|w|..] == u
  {
    assert w[1] != '+' && w[1] != '-' by {
      assert IsWordChar(w[1]);
    }
    assert Exponent(w) == |w|;
    ExponentAppend(w, u);
  }

  /** A lone `e` is an exponent when a sign and digits follow it. */
  lemma ShortExponent(w: string, u: string)
    requires |w| == 1 && (w[0] == 'e' || w[0] == 'E') && (u == "" || !IsWordChar(u[0]))
    ensures Exponent(w + u) ==
              if u != "" && (u[0] == '+' || u[0] == '-') && Digits(u[1..]) > 0 then 2 + Digits(u[1..]) else 0
  {
    var t := w + u;
    assert t[1..] == u && (u != "" ==> t[2..] == u[1..]);
    assert u != "" ==> t[1] == u[0];
  }

  /** A word that is an exponent is read the same before and after. */
  lemma ExponentAfterNumber(m: map<string, string>, w: string, u: string)
    requires KeepsLiterals(m) && IsWord(w) && IsExponentLike(w) && (u == "" || !IsWordChar(u[0]))
    ensures Exponent(w + Rewrite(m, u)) == Exponent(w + u)
    ensures var x := Exponent(w + u);
            Exponent(w + u) == 0 || (w + u)[..x] + Rewrite(m, (w + u)[x..]) == w + Rewrite(m, u)
  {
    hide Exponent, Digits, KeepsLiterals, Rewrite, WordChars;
    var r := Rewrite(m, u);
    EmptyRewrite(m, u);
    if u != "" {
      RewriteStart(m, u);
    }
    if |w| > 1 {
      LongExponent(w, u);
      LongExponent(w, r);
    } else {
      ShortExponent(w, u);
      ShortExponent(w, r);
      if u != "" && (u[0] == '+' || u[0] == '-') {
        DigitsRewrite(m, u[1..]);
        SignedExponent(m, w, u[0], u[1..]);
        assert u == [u[0]] + u[1..] && r == [r[0]] + r[1..];
      }
    }
  }

  lemma {:induction false} SignedExponent(m: map<string, string>, w: string, sign: char, v: string)
    requires KeepsLiterals(m) && |w| == 1
    ensures var t, x := w + ([sign] + v), 2 + Digits(v);
            t[..x] + Rewrite(m, t[x..]) == w + ([sign] + Rewrite(m, v))
  {
    hide Digits, KeepsLiterals, Rewrite;
    var d, t := Digits(v), w + ([sign] + v);
    DigitsRewrite(m, v);
    assert t == w + [sign] + v;
    assert t[2 + d..] == v[d..];
    assert t[..2 + d] == w + [sign] + v[..d];
  }

  /** The result fails, or is left in front of a word: either way the whole
      text will not be accepted. */
  predicate Hopeless(r: ParsedTerm)
  {
    r.NoTerm? || Stuck(r.rest)
  }

  /** Reading the rewritten text gives the renamed term and the rewritten
      rest, or both readings are hopeless. */
  ghost predicate Follows(m: map<string, string>, r: ParsedTerm, q: ParsedTerm)
  {
    if Hopeless(r) then Hopeless(q) else q == Term(RenameTerm(m, r.t), Rewrite(m, r.rest))
  }

  /** A literal is its mantissa and the exponent that follows. */
  lemma {:induction false} ReadConstantAt(a: string, t: string)
    requires Mantissa(a) == |a| && EndsMantissa(a, t)
    ensures ReadConstant(a + t) ==
              if Digits(a) == 0 && |a| <= 1 then NoTerm
              else Term(Constant(a + t[..Exponent(t)]), t[Exponent(t)..])
  {
    hide Mantissa, Exponent, Digits, ReadConstant;
    var s := a + t;
    var x := Exponent(t);
    MantissaAppend(a, t);
    ReadConstantParts(s, |a|);
    assert s[|a|..] == t;
    SplitBehind(a, t, x);
    assert s[..|a| + x] == a + t[..x];
    assert s[|a| + x..] == t[x..];
  }

  lemma ReadConstantParts(s: string, k: nat)
    requires k == Mantissa(s)
    ensures var n := k + Exponent(s[k..]);
            ReadConstant(s) == if Digits(s) == 0 && k <= 1 then NoTerm else Term(Constant(s[..n]), s[n..])
  {
    hide Mantissa, Exponent, Digits;
  }

  lemma SplitBehind(a: string, t: string, x: nat)
    requires x <= |t|
    ensures (a + t)[|a|..] == t
    ensures (a + t)[..|a| + x] == a + t[..x] && (a + t)[|a| + x..] == t[x..]
  {
  }

  /** What follows a mantissa is read alike before and after rewriting. */
  lemma AfterMantissa(m: map<string, string>, t: string)
    requires KeepsLiterals(m) && Stuck(t)
    ensures var r := Rewrite(m, t);
            var x, y := Exponent(t), Exponent(r);
            if Stuck(t[x..]) then Stuck(r[y..])
            else y == x && r[..y] == t[..x] && r[y..] == Rewrite(m, t[x..])
  {
    FrontWord(m, t);
    var n := WordChars(t);
    var w, u := t[..n], t[n..];
    assert t == w + u;
    if u != "" {
      RewriteStart(m, u);
    }
    if IsExponentLike(w) {
      ExponentAfterNumber(m, w, u);
      ExponentSplits(m, t, Rewrite(m, t));
    } else {
      WordAfterNumber(w, u);
      WordAfterNumber(Renamed(m, w), Rewrite(m, u));
    }
  }

  lemma ExponentSplits(m: map<string, string>, t: string, r: string)
    requires KeepsLiterals(m) && Stuck(t) && Stuck(r)
    requires Exponent(r) == Exponent(t)
    requires var x := Exponent(t); x == 0 || t[..x] + Rewrite(m, t[x..]) == r
    ensures var x := Exponent(t);
            if Stuck(t[x..]) then Stuck(r[x..])
            else r[..x] == t[..x] && r[x..] == Rewrite(m, t[x..])
  {
    var x := Exponent(t);
    assert t[0..] == t && r[0..] == r;
    if x > 0 && t[x..] != "" {
      RewriteStart(m, t[x..]);
    }
  }

  lemma ConstantRewrite(m: map<string, string>, s: string)
    requires KeepsLiterals(m) && s != "" && !IsWordStart(s[0])
    ensures Follows(m, ReadConstant(s), ReadConstant(Rewrite(m, s)))
  {
    var a, t := s[..Mantissa(s)], s[Mantissa(s)..];
    MantissaSplit(s);
    RewriteCopies(m, a, t);
    if t != "" {
      RewriteStart(m, t);
    }
    var r := Rewrite(m, t);
    ReadConstantAt(a, t);
    ReadConstantAt(a, r);
    hide Mantissa, Digits, Rewrite, ReadConstant, EndsMantissa;
    if Stuck(t) {
      AfterMantissa(m, t);
    } else {
      assert Exponent(t) == 0 && Exponent(r) == 0;
      assert t[0..] == t && r[0..] == r;
    }
  }

  // -------------------------------------------- rewriting and whole readings

  /** Once a reading is hopeless, reading on does not save it. */
  lemma StuckStays(k: nat, s: string, left: Term)
    requires k <= 4 && Stuck(s)
    ensures FirstOf(LevelOps(k), s) == NoOp
    ensures Continue(k, s, left).Term? && Continue(k, s, left).rest == s
  {
    forall op | op in LevelOps(k)
      ensures Take(Token(op), s) == None
    {
    }
    NoneFound(LevelOps(k), s);
  }

  lemma NoneFound(ops: seq<Op>, s: string)
    requires forall op :: op in ops ==> Take(Token(op), s) == None
    ensures FirstOf(ops, s) == NoOp
  {
  }

  lemma {:induction false} ReadRewrite(m: map<string, string>, k: nat, s: string)
    requires KeepsLiterals(m) && k <= 5
    ensures Follows(m, Read(k, s), Read(k, Rewrite(m, s)))
    decreases |s|, 9 - k
  {
    if k == 5 {
      SignedRewrite(m, s);
    } else {
      ReadRewrite(m, k + 1, s);
      var r, q := Read(k + 1, s), Read(k + 1, Rewrite(m, s));
      if Hopeless(r) {
        HopelessStays(k, r);
        HopelessStays(k, q);
      } else {
        ContinueRewrite(m, k, r.rest, r.t);
      }
    }
  }

  function Onward(k: nat, r: ParsedTerm): ParsedTerm
    requires k <= 4
  {
    if r.NoTerm? then NoTerm else Continue(k, r.rest, r.t)
  }

  lemma HopelessStays(k: nat, r: ParsedTerm)
    requires k <= 4 && Hopeless(r)
    ensures Hopeless(Onward(k, r))
  {
    if r.Term? {
      StuckStays(k, r.rest, r.t);
    }
  }

  lemma {:induction false} ContinueRewrite(m: map<string, string>, k: nat, s: string, left: Term)
    requires KeepsLiterals(m) && k <= 4
    ensures Follows(m, Continue(k, s, left), Continue(k, Rewrite(m, s), RenameTerm(m, left)))
    decreases |s|, 9 - k
  {
    hide Read, FirstOf, Take, Skip, Rewrite, LevelOps, KeepsLiterals;
    FirstOfRewrite(m, LevelOps(k), s);
    SkipRewrite(m, s);
    var next := FirstOf(LevelOps(k), s);
    if next.NoOp? {
      if Stuck(Skip(s)) {
        RewriteStart(m, Skip(s));
      }
    } else {
      ReadRewrite(m, k + 1, next.rest);
      var r, q := Read(k + 1, next.rest), Read(k + 1, Rewrite(m, next.rest));
      if Hopeless(r) {
        ChainHopeless(k, s, left, next.op, next.rest);
        ChainHopeless(k, Rewrite(m, s), RenameTerm(m, left), next.op, Rewrite(m, next.rest));
      } else if k != 2 {
        ContinueRewrite(m, k, r.rest, Joined(next.op, left, r.t));
      }
    }
  }

  lemma ChainHopeless(k: nat, s: string, left: Term, op: Op, rest: string)
    requires k <= 4 && FirstOf(LevelOps(k), s) == FoundOp(op, rest) && Hopeless(Read(k + 1, rest))
    ensures Hopeless(Continue(k, s, left))
  {
    var r := Read(k + 1, rest);
    if r.Term? && k != 2 {
      StuckStays(k, r.rest, Joined(op, left, r.t));
    }
  }

  lemma {:induction false} SignedRewrite(m: map<string, string>, s: string)
    requires KeepsLiterals(m)
    ensures Follows(m, ReadSigned(s), ReadSigned(Rewrite(m, s)))
    decreases |s|, 2
  {
    TakeRewrite(m, "+", s);
    TakeRewrite(m, "-", s);
    if Take("+", s).Some? {
      SignedRewrite(m, Take("+", s).value);
    } else if Take("-", s).Some? {
      SignedRewrite(m, Take("-", s).value);
    } else {
      PrimaryRewrite(m, s);
    }
  }

  lemma {:induction false} PrimaryRewrite(m: map<string, string>, s: string)
    requires KeepsLiterals(m)
    ensures Follows(m, ReadPrimary(s), ReadPrimary(Rewrite(m, s)))
    decreases |s|, 1
  {
    var t := Skip(s);
    SkipRewrite(m, s);
    TakeRewrite(m, "(", s);
    if t == "" {
      assert Rewrite(m, t) == "";
    } else if Take("(", s).Some? {
      var inside := Take("(", s).value;
      RewriteStart(m, t);
      ReadRewrite(m, 3, inside);
      ClosingRewrite(m, Read(3, inside), Read(3, Rewrite(m, inside)));
    } else {
      RewriteStart(m, t);
      LeafRewrite(m, t);
    }
  }

  function Closed(r: ParsedTerm): ParsedTerm
  {
    if r.NoTerm? then NoTerm
    else match Take(")", r.rest) case None => NoTerm case Some(w) => Term(r.t, w)
  }

  lemma ClosingRewrite(m: map<string, string>, r: ParsedTerm, q: ParsedTerm)
    requires KeepsLiterals(m) && Follows(m, r, q)
    ensures Follows(m, Closed(r), Closed(q))
  {
    if Hopeless(r) {
      assert Closed(r) == NoTerm && Closed(q) == NoTerm;
    } else {
      TakeRewrite(m, ")", r.rest);
      var w := Take(")", r.rest);
      if w.Some? && Stuck(w.value) {
        RewriteStart(m, w.value);
      }
    }
  }

  function Leaf(t: string): ParsedTerm
    requires t != ""
  {
    if IsDigit(t[0]) || t[0] == '.' then ReadConstant(t)
    else if IsWordStart(t[0]) then Term(Variable(t[..WordChars(t)]), t[WordChars(t)..])
    else NoTerm
  }

  lemma WordLeaf(w: string, u: string)
    requires IsWord(w) && (u == "" || !IsWordChar(u[0]))
    ensures Leaf(w + u) == Term(Variable(w), u)
  {
    WordCharsAppend(w, u);
    assert (w + u)[..|w|] == w && (w + u)[|w|..] == u && (w + u)[0] == w[0];
  }

  lemma LeafRewrite(m: map<string, string>, t: string)
    requires KeepsLiterals(m) && t != ""
    ensures Rewrite(m, t) != "" && Follows(m, Leaf(t), Leaf(Rewrite(m, t)))
  {
    RewriteStart(m, t);
    if IsWordStart(t[0]) {
      WordLeafRewrite(m, t);
    } else if IsDigit(t[0]) || t[0] == '.' {
      ConstantRewrite(m, t);
    }
  }

  lemma WordLeafRewrite(m: map<string, string>, t: string)
    requires KeepsLiterals(m) && t != "" && IsWordStart(t[0])
    ensures Follows(m, Leaf(t), Leaf(Rewrite(m, t)))
  {
    hide Leaf, IsWord, IsExponentLike, KeepsLiterals, Rewrite, WordChars;
    FrontWord(m, t);
    var w, u := t[..WordChars(t)], t[WordChars(t)..];
    assert t == w + u;
    if u != "" {
      RewriteStart(m, u);
    }
    RewriteEmpty(m);
    WordLeaf(w, u);
    WordLeaf(Renamed(m, w), Rewrite(m, u));
  }

  // ------------------------------------------------------------- the theorem

  lemma {:induction false} RenamedValue(m: map<string, string>, t: Term, env: Environment, env': Environment)
    requires env'.toNumber == env.toNumber
    requires forall id :: id in Names(t) ==> env'.resolve(Renamed(m, id)) == env.resolve(id)
    ensures ValueOf(env', RenameTerm(m, t)) == ValueOf(env, t)
  {
    match t
    case Minus1(a) => RenamedValue(m, a, env, env');
    case NonZero(a) => RenamedValue(m, a, env, env');
    case Joined(_, l, r) =>
      RenamedValue(m, l, env, env');
      RenamedValue(m, r, env, env');
    case _ =>
  }

  lemma {:induction false} TextRewrite(m: map<string, string>, s: string)
    requires KeepsLiterals(m)
    ensures ReadText(Rewrite(m, s))
         == match ReadText(s) case None => None case Some(t) => Some(RenameTerm(m, t))
  {
    ReadRewrite(m, 0, s);
    var r, q := Read(0, s), Read(0, Rewrite(m, s));
    if !Hopeless(r) {
      SkipRewrite(m, r.rest);
      if Skip(r.rest) != "" {
        RewriteStart(m, Skip(r.rest));
      }
    }
  }

  /** Rewriting identifiers preserves the truth of every constraint text, well
      formed or not, in every environment that knows the renamed variables. */
  lemma RewriteKeepsMeaning(m: map<string, string>, s: string, env: Environment, env': Environment)
    requires KeepsLiterals(m) && env'.toNumber == env.toNumber
    requires ReadText(s).Some? ==>
               forall id :: id in Names(ReadText(s).value) ==> env'.resolve(Renamed(m, id)) == env.resolve(id)
    ensures Holds(env', Rewrite(m, s)) == Holds(env, s)
  {
    TextRewrite(m, s);
    if ReadText(s).Some? {
      RenamedValue(m, ReadText(s).value, env, env');
    }
  }

  /** The evaluator run on the rewritten text gives the truth of the original. */
  method EvaluateRewritten(m: map<string, string>, s: string, env: Environment, env': Environment)
      returns (r: Option<bool>)
    requires KeepsLiterals(m) && env'.toNumber == env.toNumber
    requires ReadText(s).Some? ==>
               forall id :: id in Names(ReadText(s).value) ==> env'.resolve(Renamed(m, id)) == env.resolve(id)
    ensures r == Holds(env, s)
  {
    hide KeepsLiterals, ReadText, Holds, Rewrite;
    var text := RewriteSimpleIdentifiers(s, m);
    var parser := new Parsing.Parser(text, env');
    r := parser.Evaluate();
    RewriteKeepsMeaning(m, s, env, env');
  }

  // ---------------------------------------------------- exactly when it holds

  function PrefixMap(ns: string, ids: set<string>): map<string, string>
  {
    map id | id in ids :: PrefixId(ns, id)
  }

  lemma PrefixedWord(ns: string, id: string)
    requires IsWord(ns) && IsWord(id)
    ensures IsWord(PrefixId(ns, id)) && !IsExponentLike(PrefixId(ns, id))
  {
    var v := PrefixId(ns, id);
    assert v == ns + ("__" + id);
    WordCharsAppend(ns, "__" + id);
    WordCharsAppend("__", id);
    DigitsBounded(v[1..]);
    assert v[1..][|ns| - 1] == '_';
  }

  lemma ExponentIsWord(w: string)
    requires IsExponentLike(w)
    ensures IsWord(w)
  {
    DigitsBounded(w[1..]);
    assert forall i :: 0 < i < |w| ==> w[i] == w[1..][i - 1];
    WordCharsAppend(w, "");
    assert w + "" == w;
  }

  /** A prefix map is safe exactly when no id could be an exponent. */
  lemma PrefixMapKeepsLiterals(ns: string, ids: set<string>)
    requires IsWord(ns)
    ensures KeepsLiterals(PrefixMap(ns, ids)) <==> forall id :: id in ids ==> !IsExponentLike(id)
  {
    var m := PrefixMap(ns, ids);
    forall id | id in ids && IsWord(id)
      ensures IsWord(m[id]) && !IsExponentLike(m[id])
    {
      PrefixedWord(ns, id);
    }
    forall id | id in ids && IsExponentLike(id)
      ensures IsWord(id) && id in m
    {
      ExponentIsWord(id);
    }
  }

  predicate IsLiteral(token: string)
  {
    token != "" && IsDigit(token[0]) && ConstantLength(token) == |token|
  }

  lemma LiteralOperand(s: string)
    requires IsLiteral(s)
    ensures Read(5, s) == Term(Constant(s), "")
  {
    StartsWithDigit(s);
    assert s[..|s|] == s && s[|s|..] == "";
  }

  lemma StartsWithDigit(s: string)
    requires s != "" && IsDigit(s[0])
    ensures Read(5, s) == ReadConstant(s)
  {
    assert Skip(s) == s;
    assert Take("+", s) == None && Take("-", s) == None && Take("(", s) == None;
    assert ReadSigned(s) == ReadPrimary(s) == ReadConstant(s);
  }

  lemma LiteralReads(s: string)
    requires IsLiteral(s)
    ensures ReadText(s) == Some(NonZero(Constant(s)))
  {
    hide Continue;
    LiteralOperand(s);
    NothingLeft(4, Constant(s));
    NothingLeft(3, Constant(s));
    NothingLeft(2, Constant(s));
    NothingLeft(1, NonZero(Constant(s)));
    NothingLeft(0, NonZero(Constant(s)));
    assert Read(4, s) == Read(3, s) == Term(Constant(s), "");
    assert Read(2, s) == Read(1, s) == Read(0, s) == Term(NonZero(Constant(s)), "");
  }

  lemma NothingLeft(k: nat, t: Term)
    requires k <= 4
    ensures Continue(k, "", t) == Term(if k == 2 then NonZero(t) else t, "")
  {
    NoneFound(LevelOps(k), "");
  }

  lemma {:induction false} HopelessUp(k: nat, s: string)
    requires k <= 5 && Hopeless(Read(5, s))
    ensures Hopeless(Read(k, s))
    decreases 5 - k
  {
    if k < 5 {
      HopelessUp(k + 1, s);
      HopelessStays(k, Read(k + 1, s));
    }
  }

  lemma HopelessText(s: string)
    requires Hopeless(Read(0, s))
    ensures ReadText(s) == None
  {
  }

  /** The text that an exponent-like id spoils: a literal before renaming.  Its
      mantissa is zero, so that no exponent puts it out of range. */
  function Spoiled(id: string): string
  {
    "0" + (id + if |id| == 1 then "+1" else "")
  }

  lemma SpoiledIsLiteral(id: string)
    requires IsExponentLike(id)
    ensures IsLiteral(Spoiled(id))
  {
    var t := id + if |id| == 1 then "+1" else "";
    var s := Spoiled(id);
    assert s[1..] == t && t[0] == id[0];
    assert Digits(t) == 0;
    assert Digits(s) == 1;
    assert Mantissa(s) == 1;
    if |id| == 1 {
      assert t[2..] == "1";
      assert Digits("1") == 1 + Digits("1"[1..]);
      assert Exponent(t) == 3;
    } else {
      assert t == id;
      assert IsDigit(id[1]) by {
        DigitsBounded(id[1..]);
        assert id[1..][0] == id[1];
      }
      assert Exponent(t) == |id|;
    }
  }

  lemma SpoiledFails(ns: string, ids: set<string>, id: string)
    requires IsWord(ns) && id in ids && IsExponentLike(id)
    ensures ReadText(Rewrite(PrefixMap(ns, ids), Spoiled(id))) == None
  {
    var m := PrefixMap(ns, ids);
    var u := if |id| == 1 then "+1" else "";
    var t := id + u;
    var v := PrefixId(ns, id);
    ExponentIsWord(id);
    PrefixedWord(ns, id);
    WordCharsAppend(id, u);
    assert t[..|id|] == id && t[|id|..] == u;
    assert Spoiled(id)[1..] == t;
    var r := Rewrite(m, u);
    assert r == "" || r[0] == '+';
    assert Rewrite(m, t) == v + r;
    var text := Rewrite(m, Spoiled(id));
    assert text == "0" + (v + r);
    WordAfterNumber(v, r);
    assert Digits("0") == 1 + Digits("0"[1..]);
    assert (v + r)[0] == v[0];
    ReadConstantAt("0", v + r);
    StartsWithDigit(text);
    HopelessUp(0, text);
    HopelessText(text);
  }

  /** An identifier that reads like a renamed one although it is not renamed. */
  ghost predicate IsTaken(ns: string, ids: set<string>, id: string)
  {
    id !in ids && exists other :: other in ids && id == PrefixId(ns, other)
  }

  /** A text that names such an identifier. */
  ghost predicate Collides(ns: string, ids: set<string>, s: string)
  {
    ReadText(s).Some? && exists id :: id in Names(ReadText(s).value) && IsTaken(ns, ids, id)
  }

  /** The environment after the import: every renamed id means what it meant
      before, and so does every other name that is not taken. */
  ghost predicate Carries(ns: string, ids: set<string>, env: Environment, env': Environment)
  {
    && env'.toNumber == env.toNumber
    && forall id :: !IsTaken(ns, ids, id) ==> env'.resolve(Renamed(PrefixMap(ns, ids), id)) == env.resolve(id)
  }

  /** Namespacing preserves the outcome of all texts that name no taken
      identifier if and only if no renamed id is `e` or `E` followed by nothing
      but digits. */
  lemma PrefixingPreservesExactly(ns: string, ids: set<string>, env: Environment, env': Environment)
    requires IsWord(ns) && Carries(ns, ids, env, env')
    requires forall id :: id in ids && IsExponentLike(id) ==> env.toNumber(Spoiled(id)).Some?
    ensures (forall s :: !Collides(ns, ids, s) ==> Holds(env', Rewrite(PrefixMap(ns, ids), s)) == Holds(env, s))
       <==> (forall id :: id in ids ==> !IsExponentLike(id))
  {
    hide Holds, Rewrite, IsExponentLike, Renamed, PrefixMap, IsWord, Collides, Carries, Spoiled;
    if forall id :: id in ids ==> !IsExponentLike(id) {
      forall s | !Collides(ns, ids, s)
        ensures Holds(env', Rewrite(PrefixMap(ns, ids), s)) == Holds(env, s)
      {
        PrefixingPreserves(ns, ids, env, env', s);
      }
    } else {
      var id :| id in ids && IsExponentLike(id);
      PrefixingSpoils(ns, ids, env, env', id);
    }
  }

  lemma PrefixingPreserves(ns: string, ids: set<string>, env: Environment, env': Environment, s: string)
    requires IsWord(ns) && Carries(ns, ids, env, env') && !Collides(ns, ids, s)
    requires forall id :: id in ids ==> !IsExponentLike(id)
    ensures Holds(env', Rewrite(PrefixMap(ns, ids), s)) == Holds(env, s)
  {
    hide IsTaken, IsExponentLike;
    PrefixMapKeepsLiterals(ns, ids);
    RewriteKeepsMeaning(PrefixMap(ns, ids), s, env, env');
  }

  /** For every id that could be an exponent, one text that names nothing
      evaluates before the renaming and fails after it. */
  lemma PrefixingSpoils(ns: string, ids: set<string>, env: Environment, env': Environment, id: string)
    requires IsWord(ns) && id in ids && IsExponentLike(id) && env.toNumber(Spoiled(id)).Some?
    ensures !Collides(ns, ids, Spoiled(id)) && Holds(env, Spoiled(id)).Some?
    ensures Holds(env', Rewrite(PrefixMap(ns, ids), Spoiled(id))) == None
  {
    hide ReadText, Rewrite, Spoiled, Collides;
    SpoiledIsLiteral(id);
    LiteralReads(Spoiled(id));
    SpoiledFails(ns, ids, id);
    LiteralNamesNothing(ns, ids, Spoiled(id), Spoiled(id));
    assert ValueOf(env, NonZero(Constant(Spoiled(id)))).Some?;
  }

  lemma LiteralNamesNothing(ns: string, ids: set<string>, s: string, token: string)
    requires ReadText(s) == Some(NonZero(Constant(token)))
    ensures !Collides(ns, ids, s)
  {
    assert Names(NonZero(Constant(token))) == Names(Constant(token)) == {};
  }

  /** The resolver of the merged scenario: a prefixed name means what the name
      meant in the imported scenario. */
  function PrefixedResolve(ns: string, ids: set<string>, resolve: string -> Option<real>): string -> Option<real>
  {
    (name: string) =>
      if |ns| + 2 <= |name| && name[..|ns| + 2] == ns + "__" && name[|ns| + 2..] in ids
      then resolve(name[|ns| + 2..]) else resolve(name)
  }

  lemma PrefixedResolveAgrees(ns: string, ids: set<string>, resolve: string -> Option<real>, id: string)
    requires ns != "" && !IsTaken(ns, ids, id)
    ensures PrefixedResolve(ns, ids, resolve)(Renamed(PrefixMap(ns, ids), id)) == resolve(id)
  {
    var k := |ns| + 2;
    if id in ids {
      var v := PrefixId(ns, id);
      assert v[..k] == ns + "__" && v[k..] == id;
    } else if k <= |id| && id[..k] == ns + "__" {
      assert id == id[..k] + id[k..];
      assert id == PrefixId(ns, id[k..]);
    }
  }

  /** The merged scenario carries over every imported one. */
  lemma MergedCarries(ns: string, ids: set<string>, env: Environment)
    requires ns != ""
    ensures Carries(ns, ids, env, env.(resolve := PrefixedResolve(ns, ids, env.resolve)))
  {
    hide PrefixedResolve, IsTaken, Renamed, PrefixMap;
    forall id | !IsTaken(ns, ids, id)
      ensures PrefixedResolve(ns, ids, env.resolve)(Renamed(PrefixMap(ns, ids), id)) == env.resolve(id)
    {
      PrefixedResolveAgrees(ns, ids, env.resolve, id);
    }
  }

  /** A merged scenario, as the composer makes it, keeps the outcome of every
      constraint of the import that names no taken identifier exactly when no id
      of the import could be an exponent. */
  lemma ImportKeepsConstraintsExactly(ns: string, ids: set<string>, env: Environment)
    requires IsWord(ns)
    requires forall id :: id in ids && IsExponentLike(id) ==> env.toNumber(Spoiled(id)).Some?
    ensures var merged := env.(resolve := PrefixedResolve(ns, ids, env.resolve));
            && ((forall s :: !Collides(ns, ids, s) ==> Holds(merged, Rewrite(PrefixMap(ns, ids), s)) == Holds(env, s))
                <==> (forall id :: id in ids ==> !IsExponentLike(id)))
  {
    hide Holds, Rewrite, IsExponentLike, PrefixMap, Collides, Carries, Spoiled, PrefixedResolve;
    MergedCarries(ns, ids, env);
    PrefixingPreservesExactly(ns, ids, env, env.(resolve := PrefixedResolve(ns, ids, env.resolve)));
  }
}

/** The scanning loops both expression parsers run over their text. */
module Scanning {
  import opened Optional
  import opened Lexical
  import opened TypedExpression

  method SkipSpaces(text: string, start: nat) returns (p: nat)
    requires start <= |text|
    ensures start <= p <= |text| && text[p..] == Skip(text[start..])
  {
    p := start;
    while p < |text| && IsSpace(text[p])
      invariant start <= p <= |text| && Skip(text[p..]) == Skip(text[start..])
    {
      assert text[p..][1..] == text[p + 1..];
      p := p + 1;
    }
  }

  method Consume(text: string, start: nat, token: string) returns (found: bool, p: nat)
    requires start <= |text| && token != ""
    ensures start <= p <= |text|
    ensures found <==> Take(token, text[start..]).Some?
    ensures text[p..] == if found then Take(token, text[start..]).value else Skip(text[start..])
    ensures found ==> p > start
  {
    p := SkipSpaces(text, start);
    found := token <= text[p..];
    if found {
      assert text[p..][|token|..] == text[p + |token|..];
      p := p + |token|;
    }
  }

  method ConsumeDigits(text: string, start: nat) returns (p: nat)
    requires start <= |text|
    ensures p == start + Digits(text[start..]) && p <= |text|
  {
    p := start;
    while p < |text| && IsDigit(text[p])
      invariant start <= p <= |text|
      invariant Digits(text[start..]) == p - start + Digits(text[p..])
    {
      assert text[p..][1..] == text[p + 1..];
      p := p + 1;
    }
  }

  /** Digits with an optional fraction; tells whether any digit was seen. */
  method ConsumeMantissa(text: string, start: nat) returns (p: nat, sawDigit: bool)
    requires start <= |text|
    ensures p == start + Mantissa(text[start..]) && p <= |text|
    ensures sawDigit <==> Digits(text[start..]) > 0 || Mantissa(text[start..]) > 1
  {
    ghost var s := text[start..];
    p := ConsumeDigits(text, start);
    sawDigit := p > start;
    assert p < |text| ==> s[Digits(s)] == text[p];
    if p < |text| && text[p] == '.' {
      p := p + 1;
      assert text[p..] == s[Digits(s) + 1..];
      var q := ConsumeDigits(text, p);
      sawDigit := sawDigit || q > p;
      p := q;
    }
  }

  /** An exponent, or nothing: `e` without digits after it is given back. */
  method ConsumeExponent(text: string, start: nat) returns (p: nat)
    requires start <= |text|
    ensures p == start + Exponent(text[start..]) && p <= |text|
  {
    p := start;
    if p < |text| && (text[p] == 'e' || text[p] == 'E') {
      p := p + 1;
      if p < |text| && (text[p] == '+' || text[p] == '-') {
        p := p + 1;
      }
      assert text[p..] == text[start..][p - start..];
      var q := ConsumeDigits(text, p);
      p := if q > p then q else start;
    }
  }

  /** The longest numeric literal at a position, with what was seen of it. */
  method ScanNumber(text: string, start: nat) returns (p: nat, mantissaDigit: bool, exponent: bool)
    requires start <= |text|
    ensures start <= p <= |text|
    ensures var s := text[start..];
            var m := Mantissa(s);
            var x := Exponent(s[m..]);
            && text[start..p] == s[..m + x] && text[p..] == s[m + x..]
            && (mantissaDigit <==> Digits(s) > 0 || m > 1)
            && (exponent <==> x > 0)
  {
    hide Mantissa, Exponent, Digits;
    ghost var s := text[start..];
    var m;
    m, mantissaDigit := ConsumeMantissa(text, start);
    assert text[m..] == s[Mantissa(s)..];
    p := ConsumeExponent(text, m);
    exponent := p > m;
    assert text[p..] == s[p - start..];
  }

  method EndOfWord(expr: string, start: nat) returns (i: nat)
    requires start < |expr| && IsWordStart(expr[start])
    ensures start < i <= |expr| && i == start + WordChars(expr[start..])
  {
    i := start + 1;
    while i < |expr| && IsWordChar(expr[i])
      invariant start < i <= |expr|
      invariant WordChars(expr[start..]) == i - start + WordChars(expr[i..])
    {
      assert expr[i..][1..] == expr[i + 1..];
      i := i + 1;
    }
  }

  /** Tries the operators one after the other, in the given order. */
  method NextOperator(text: string, start: nat, ops: seq<Op>) returns (op: Option<Op>, p: nat)
    requires start <= |text|
    ensures start <= p <= |text|
    ensures op.Some? ==> p > start && FirstOf(ops, text[start..]) == FoundOp(op.value, text[p..])
    ensures op.None? ==> FirstOf(ops, text[start..]) == NoOp && text[p..] == Skip(text[start..])
  {
    hide FirstOf, Take, Skip;
    ghost var s := text[start..];
    p := start;
    SkippedAlready(ops, s);
    for i := 0 to |ops|
      invariant start <= p <= |text| && FirstOf(ops[i..], text[p..]) == FirstOf(ops, s)
      invariant text[p..] == if i > 0 then Skip(s) else s
    {
      FirstOfStep(ops, i, text[p..]);
      SkippedAlready(ops[i + 1..], text[p..]);
      var found;
      found, p := Consume(text, p, Token(ops[i]));
      if found {
        return Some(ops[i]), p;
      }
    }
    NothingToFind(text[p..]);
    if ops == [] {
      p := SkipSpaces(text, p);
    }
    op := None;
  }

  lemma {:induction false} SkippedAlready(ops: seq<Op>, s: string)
    ensures FirstOf(ops, Skip(s)) == FirstOf(ops, s) && Skip(Skip(s)) == Skip(s)
  {
    SkipTwice(s);
    if ops != [] {
      SkippedAlready(ops[1..], s);
    }
  }

  lemma FirstOfStep(ops: seq<Op>, i: nat, s: string)
    requires i < |ops|
    ensures var t := Take(Token(ops[i]), s);
            FirstOf(ops[i..], s) == if t.Some? then FoundOp(ops[i], t.value) else FirstOf(ops[i + 1..], s)
  {
    assert ops[i..][0] == ops[i] && ops[i..][1..] == ops[i + 1..];
  }

  lemma NothingToFind(s: string)
    ensures FirstOf([], s) == NoOp
  {
  }
}

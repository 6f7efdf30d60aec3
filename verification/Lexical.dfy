/** Character classes and token scanning shared by the expression parsers. */
module Lexical {
  import opened Optional

  predicate IsSpace(c: char) { c == ' ' || 9 <= c as int <= 13 }

  predicate IsDigit(c: char) { '0' <= c <= '9' }

  predicate IsAlpha(c: char) { 'a' <= c <= 'z' || 'A' <= c <= 'Z' }

  predicate IsWordStart(c: char) { IsAlpha(c) || c == '_' }

  predicate IsWordChar(c: char) { IsWordStart(c) || IsDigit(c) }

  /** The text after its leading white space. */
  function Skip(s: string): (r: string)
    ensures |r| <= |s|
    ensures r != "" ==> !IsSpace(r[0])
  {
    if s != "" && IsSpace(s[0]) then Skip(s[1..]) else s
  }

  /** What follows a token, when the token comes next after white space. */
  function Take(token: string, s: string): (r: Option<string>)
    requires token != ""
    ensures r.Some? ==> |r.value| < |s|
  {
    var t := Skip(s);
    if token <= t then Some(t[|token|..]) else None
  }

  /** How many digits the text starts with. */
  function Digits(s: string): (n: nat)
    ensures n <= |s|
  {
    if s != "" && IsDigit(s[0]) then 1 + Digits(s[1..]) else 0
  }

  /** Length of the digits and optional fraction the text starts with. */
  function Mantissa(s: string): (n: nat)
    ensures Digits(s) <= n <= |s|
  {
    var i := Digits(s);
    if i < |s| && s[i] == '.' then i + 1 + Digits(s[i + 1..]) else i
  }

  /** Length of the exponent the text starts with; 0 when there is none. */
  function Exponent(s: string): (n: nat)
    ensures n <= |s|
  {
    if s != "" && (s[0] == 'e' || s[0] == 'E') then
      var j := if |s| > 1 && (s[1] == '+' || s[1] == '-') then 2 else 1;
      var d := Digits(s[j..]);
      if d == 0 then 0 else j + d
    else 0
  }

  /** How many word characters the text starts with. */
  function WordChars(s: string): (n: nat)
    ensures n <= |s|
    ensures forall i :: 0 <= i < n ==> IsWordChar(s[i])
    ensures n < |s| ==> !IsWordChar(s[n])
  {
    if s != "" && IsWordChar(s[0]) then 1 + WordChars(s[1..]) else 0
  }

  predicate IsWord(s: string)
  {
    s != "" && IsWordStart(s[0]) && WordChars(s) == |s|
  }

  predicate AllSpaces(w: string)
  {
    forall i :: 0 <= i < |w| ==> IsSpace(w[i])
  }

  lemma {:induction false} SkipSpaces(w: string, s: string)
    requires AllSpaces(w)
    ensures Skip(w + s) == Skip(s)
  {
    if w == "" {
      assert w + s == s;
    } else {
      assert (w + s)[1..] == w[1..] + s;
      SkipSpaces(w[1..], s);
    }
  }

  lemma SkipTwice(s: string)
    ensures Skip(Skip(s)) == Skip(s)
  {
  }

  lemma DigitsBounded(s: string)
    ensures forall i :: 0 <= i < Digits(s) ==> IsDigit(s[i])
    ensures Digits(s) < |s| ==> !IsDigit(s[Digits(s)])
  {
  }

  /** Appending text that does not continue the digits does not change them. */
  lemma {:induction false} DigitsAppend(s: string, rest: string)
    requires Digits(s) < |s| || rest == "" || !IsDigit(rest[0])
    ensures Digits(s + rest) == Digits(s)
  {
    if s == "" {
      assert s + rest == rest;
    } else if IsDigit(s[0]) {
      assert (s + rest)[1..] == s[1..] + rest;
      DigitsAppend(s[1..], rest);
    }
  }

  /** Text that does not go on with the digits or the fraction of s. */
  predicate EndsMantissa(s: string, rest: string)
  {
    rest == "" || (!IsDigit(rest[0]) && (rest[0] != '.' || Digits(s) < |s|))
  }

  lemma MantissaAppend(s: string, rest: string)
    requires Mantissa(s) == |s| && EndsMantissa(s, rest)
    ensures Mantissa(s + rest) == |s| && Digits(s + rest) == Digits(s)
  {
    var i := Digits(s);
    DigitsAppend(s, rest);
    if i < |s| {
      assert (s + rest)[i + 1..] == s[i + 1..] + rest;
      DigitsAppend(s[i + 1..], rest);
    } else {
      assert rest != "" ==> (s + rest)[i] == rest[0];
    }
  }

  lemma {:induction false} DigitsPrefix(s: string)
    ensures Digits(s[..Digits(s)]) == Digits(s)
  {
    if s != "" && IsDigit(s[0]) {
      DigitsPrefix(s[1..]);
      assert s[..Digits(s)][1..] == s[1..][..Digits(s[1..])];
    }
  }

  /** The mantissa on its own is a mantissa, and the text after it ends it. */
  lemma MantissaSplit(s: string)
    ensures var a, t := s[..Mantissa(s)], s[Mantissa(s)..];
            && s == a + t && Mantissa(a) == |a| && Digits(a) == Digits(s) && EndsMantissa(a, t)
            && forall i :: 0 <= i < |a| ==> !IsWordStart(a[i])
  {
    var i := Digits(s);
    DigitsBounded(s);
    DigitsPrefix(s);
    if i < |s| && s[i] == '.' {
      FractionSplit(s[..i], s[i + 1..]);
      assert s == s[..i] + "." + s[i + 1..];
    }
  }

  lemma FractionSplit(whole: string, f: string)
    requires Digits(whole) == |whole|
    ensures var s := whole + "." + f;
            var a, t := s[..Mantissa(s)], s[Mantissa(s)..];
            && s == a + t && Mantissa(a) == |a| && Digits(a) == Digits(s) == |whole| && EndsMantissa(a, t)
            && forall i :: 0 <= i < |a| ==> !IsWordStart(a[i])
  {
    hide Digits;
    var n, d := |whole|, Digits(f);
    var s := whole + "." + f;
    DigitsBounded(whole);
    DigitsBounded(f);
    DigitsPrefix(f);
    DigitsAppend(whole, "." + f);
    DigitsAppend(whole, "." + f[..d]);
    FractionSlices(whole, f, d);
  }

  lemma FractionSlices(whole: string, f: string, d: nat)
    requires d <= |f|
    ensures var n, s, a := |whole|, whole + "." + f, whole + "." + f[..d];
            && s == whole + ("." + f) && a == whole + ("." + f[..d]) && s[n] == a[n] == '.'
            && s[n + 1..] == f && a[n + 1..] == f[..d] && s[..n + 1 + d] == a && s[n + 1 + d..] == f[d..]
               && s == a + f[d..]
  {
  }

  /** The exponent on its own is an exponent. */
  lemma ExponentPrefix(s: string)
    ensures Exponent(s[..Exponent(s)]) == Exponent(s)
  {
    var x := Exponent(s);
    if x > 0 {
      var j := if |s| > 1 && (s[1] == '+' || s[1] == '-') then 2 else 1;
      DigitsPrefix(s[j..]);
      assert s[..x][j..] == s[j..][..x - j];
      DigitsBounded(s[j..]);
    }
  }

  lemma ExponentStarts(s: string)
    ensures Exponent(s) > 0 ==> s[0] == 'e' || s[0] == 'E'
  {
  }

  /** A complete exponent, or text that cannot begin one, is not extended. */
  lemma ExponentAppend(s: string, rest: string)
    requires Exponent(s) == |s|
    requires rest == "" || (!IsDigit(rest[0]) && (s == "" ==> rest[0] != 'e' && rest[0] != 'E'))
    ensures Exponent(s + rest) == |s|
  {
    if s == "" {
      assert s + rest == rest;
    } else {
      var j := if |s| > 1 && (s[1] == '+' || s[1] == '-') then 2 else 1;
      assert (s + rest)[j..] == s[j..] + rest;
      DigitsAppend(s[j..], rest);
    }
  }

  lemma {:induction false} WordCharsAppend(s: string, rest: string)
    requires forall i :: 0 <= i < |s| ==> IsWordChar(s[i])
    ensures WordChars(s + rest) == |s| + WordChars(rest)
  {
    if s == "" {
      assert s + rest == rest;
    } else {
      assert (s + rest)[1..] == s[1..] + rest;
      WordCharsAppend(s[1..], rest);
    }
  }
}

/** Base64 as the checkpoint serializer writes and reads it
    (src/serialization/yaml_serializer.cpp, base64_encode and base64_decode;
    section 4 of RFC 4648).  Shifts and masks of the 24-bit block are written as
    division and remainder. */
module Base64 {

  type Byte = x: int | 0 <= x < 256

  datatype Error = BadLength | BadPayload | BadPadding

  datatype Decoding = Bytes(bytes: seq<Byte>) | Failed(error: Error)

  const TABLE := "ABCDEFGHIJKLMNOPQRSTUVWXYZ" + "abcdefghijklmnopqrstuvwxyz" + "0123456789+/"

  function Symbol(v: int): char
    requires 0 <= v < 64
  {
    TABLE[v]
  }

  /** The value of a character, or -1. */
  function SymbolValue(c: char): int
  {
    if 'A' <= c <= 'Z' then c as int - 'A' as int
    else if 'a' <= c <= 'z' then c as int - 'a' as int + 26
    else if '0' <= c <= '9' then c as int - '0' as int + 52
    else if c == '+' then 62
    else if c == '/' then 63
    else -1
  }

  lemma UpperSymbols(v: int)
    requires 0 <= v < 26
    ensures Symbol(v) as int == 'A' as int + v
  {
  }

  lemma LowerSymbols(v: int)
    requires 26 <= v < 52
    ensures Symbol(v) as int == 'a' as int + v - 26
  {
  }

  lemma OtherSymbols(v: int)
    requires 52 <= v < 64
    ensures SymbolValue(Symbol(v)) == v && Symbol(v) != '='
  {
  }

  /** The table and the decoder of single characters are inverse. */
  lemma SymbolRoundTrip(v: int)
    requires 0 <= v < 64
    ensures SymbolValue(Symbol(v)) == v && Symbol(v) != '='
  {
    hide Symbol;
    if v < 26 {
      UpperSymbols(v);
    } else if v < 52 {
      LowerSymbols(v);
    } else {
      OtherSymbols(v);
    }
  }

  lemma ValueRoundTrip(c: char)
    requires SymbolValue(c) >= 0
    ensures 0 <= SymbolValue(c) < 64 && Symbol(SymbolValue(c)) == c && c != '='
  {
    hide Symbol;
    var v := SymbolValue(c);
    if v < 26 {
      UpperSymbols(v);
    } else if v < 52 {
      LowerSymbols(v);
    } else {
      LastSymbols(c);
    }
  }

  lemma LastSymbols(c: char)
    requires '0' <= c <= '9' || c == '+' || c == '/'
    ensures Symbol(SymbolValue(c)) == c
  {
  }

  // ------------------------------------------------------------- one group

  function Block3(a: Byte, b: Byte, c: Byte): int
  {
    a * 65536 + b * 256 + c
  }

  /** The k-th sextet of a block, counted from the left. */
  function Sextet(block: int, k: int): (r: int)
    requires 0 <= k < 4
    ensures 0 <= r < 64
  {
    (if k == 0 then block / 262144 else if k == 1 then block / 4096 else if k == 2 then block / 64 else block) % 64
  }

  /** One, two or three bytes as four characters. */
  function EncodeGroup(s: seq<Byte>): (r: string)
    requires 1 <= |s| <= 3
    ensures |r| == 4
  {
    var block := Block3(s[0], if |s| > 1 then s[1] else 0, if |s| > 2 then s[2] else 0);
    [Symbol(Sextet(block, 0)), Symbol(Sextet(block, 1)),
     if |s| > 1 then Symbol(Sextet(block, 2)) else '=', if |s| > 2 then Symbol(Sextet(block, 3)) else '=']
  }

  function Block4(v0: int, v1: int, v2: int, v3: int): int
  {
    v0 * 262144 + v1 * 4096 + v2 * 64 + v3
  }

  /** Four characters as one, two or three bytes. */
  function DecodeGroup(t: string): (r: Decoding)
    requires |t| == 4
    ensures r.Bytes? ==> 1 <= |r.bytes| <= 3
  {
    var v0, v1, pad2, pad3 := SymbolValue(t[0]), SymbolValue(t[1]), t[2] == '=', t[3] == '=';
    if v0 < 0 || v1 < 0 then Failed(BadPayload)
    else if pad2 && !pad3 then Failed(BadPadding)
    else
      var v2 := if pad2 then 0 else SymbolValue(t[2]);
      var v3 := if pad3 then 0 else SymbolValue(t[3]);
      if v2 < 0 || v3 < 0 then Failed(BadPayload)
      else
        var block := Block4(v0, v1, v2, v3);
        Bytes([block / 65536 % 256] + (if pad2 then [] else [block / 256 % 256]) + (if pad3 then [] else [block % 256]))
  }

  lemma Division(n: int, q: int, d: int, r: int)
    requires n == q * d + r && 0 <= r < d && d in {64, 256, 4096, 65536, 262144}
    ensures n / d == q && n % d == r
  {
    if d == 64 {
      assert n == q * 64 + r;
    } else if d == 256 {
      assert n == q * 256 + r;
    } else if d == 4096 {
      assert n == q * 4096 + r;
    } else if d == 65536 {
      assert n == q * 65536 + r;
    } else {
      assert n == q * 262144 + r;
    }
  }

  /** Four sextets are recovered from their block. */
  lemma SextetsOfBlock(v0: int, v1: int, v2: int, v3: int)
    requires 0 <= v0 < 64 && 0 <= v1 < 64 && 0 <= v2 < 64 && 0 <= v3 < 64
    ensures var n := Block4(v0, v1, v2, v3);
            Sextet(n, 0) == v0 && Sextet(n, 1) == v1 && Sextet(n, 2) == v2 && Sextet(n, 3) == v3
  {
    var n := Block4(v0, v1, v2, v3);
    Division(n, v0, 262144, v1 * 4096 + v2 * 64 + v3);
    Division(n, v0 * 64 + v1, 4096, v2 * 64 + v3);
    Division(n, v0 * 4096 + v1 * 64 + v2, 64, v3);
    Division(v0 * 64 + v1, v0, 64, v1);
    Division(v0 * 4096 + v1 * 64 + v2, v0 * 64 + v1, 64, v2);
  }

  /** Three bytes are recovered from their block. */
  lemma BytesOfBlock(a: Byte, b: Byte, c: Byte)
    ensures var n := Block3(a, b, c);
            n / 65536 % 256 == a && n / 256 % 256 == b && n % 256 == c
  {
    var n := Block3(a, b, c);
    Division(n, a, 65536, b * 256 + c);
    Division(n, a * 256 + b, 256, c);
    Division(a * 256 + b, a, 256, b);
  }

  /** The same 24 bits, cut into bytes or into sextets. */
  lemma Regroup(a: Byte, b: Byte, c: Byte)
    ensures Block3(a, b, c) == Block4(a / 4, a % 4 * 16 + b / 16, b % 16 * 4 + c / 64, c % 64)
  {
  }

  lemma RegroupBack(v0: int, v1: int, v2: int, v3: int)
    requires 0 <= v0 < 64 && 0 <= v1 < 64 && 0 <= v2 < 64 && 0 <= v3 < 64
    ensures Block4(v0, v1, v2, v3) == Block3(v0 * 4 + v1 / 16, v1 % 16 * 16 + v2 / 4, v2 % 4 * 64 + v3)
  {
  }

  lemma SplitBlock(a: Byte, b: Byte, c: Byte)
    ensures var n := Block3(a, b, c);
            && Block4(Sextet(n, 0), Sextet(n, 1), Sextet(n, 2), Sextet(n, 3)) == n
            && n / 65536 % 256 == a && n / 256 % 256 == b && n % 256 == c
            && (b == 0 && c == 0 ==> Sextet(n, 2) == 0) && (c == 0 ==> Sextet(n, 3) == 0)
  {
    hide Block3, Block4, Sextet;
    Regroup(a, b, c);
    SextetsOfBlock(a / 4, a % 4 * 16 + b / 16, b % 16 * 4 + c / 64, c % 64);
    BytesOfBlock(a, b, c);
  }

  lemma JoinBlock(v0: int, v1: int, v2: int, v3: int)
    requires 0 <= v0 < 64 && 0 <= v1 < 64 && 0 <= v2 < 64 && 0 <= v3 < 64
    ensures var n := Block4(v0, v1, v2, v3);
            && Block3(n / 65536 % 256, n / 256 % 256, n % 256) == n
            && n / 65536 % 256 == v0 * 4 + v1 / 16
            && n / 256 % 256 == v1 % 16 * 16 + v2 / 4
            && n % 256 == v2 % 4 * 64 + v3
            && Sextet(n, 0) == v0 && Sextet(n, 1) == v1 && Sextet(n, 2) == v2 && Sextet(n, 3) == v3
  {
    hide Block3, Block4, Sextet;
    RegroupBack(v0, v1, v2, v3);
    BytesOfBlock(v0 * 4 + v1 / 16, v1 % 16 * 16 + v2 / 4, v2 % 4 * 64 + v3);
    SextetsOfBlock(v0, v1, v2, v3);
  }

  lemma GroupRoundTrip(s: seq<Byte>)
    requires 1 <= |s| <= 3
    ensures DecodeGroup(EncodeGroup(s)) == Bytes(s)
  {
    hide Symbol, SymbolValue, Block3, Block4, Sextet;
    var a, b, c := s[0], if |s| > 1 then s[1] else 0, if |s| > 2 then s[2] else 0;
    var n := Block3(a, b, c);
    SplitBlock(a, b, c);
    forall k | 0 <= k < 4
      ensures SymbolValue(Symbol(Sextet(n, k))) == Sextet(n, k) && Symbol(Sextet(n, k)) != '='
    {
      SymbolRoundTrip(Sextet(n, k));
    }
    assert Symbol(Sextet(n, 0)) != '=' && Symbol(Sextet(n, 1)) != '=' && Symbol(Sextet(n, 2)) != '='
           && Symbol(Sextet(n, 3)) != '=';
  }

  /** Padded characters leave no stray bits behind. */
  predicate CleanGroup(t: string)
    requires |t| == 4
  {
    && (t[2] == '=' ==> SymbolValue(t[1]) % 16 == 0)
    && (t[2] != '=' && t[3] == '=' ==> SymbolValue(t[2]) % 4 == 0)
  }

  /** Encoding one byte clears the four spare bits of the second sextet. */
  lemma OneByteClears(v0: int, v1: int)
    requires 0 <= v0 < 64 && 0 <= v1 < 64
    ensures var n := Block3(v0 * 4 + v1 / 16, 0, 0);
            Sextet(n, 0) == v0 && Sextet(n, 1) == v1 - v1 % 16
  {
    hide Block3, Sextet;
    var a := v0 * 4 + v1 / 16;
    assert a / 4 == v0 && a % 4 * 16 == v1 - v1 % 16;
    Regroup(a, 0, 0);
    SextetsOfBlock(a / 4, a % 4 * 16, 0, 0);
  }

  /** Encoding two bytes clears the two spare bits of the third sextet. */
  lemma TwoBytesClear(v0: int, v1: int, v2: int)
    requires 0 <= v0 < 64 && 0 <= v1 < 64 && 0 <= v2 < 64
    ensures var n := Block3(v0 * 4 + v1 / 16, v1 % 16 * 16 + v2 / 4, 0);
            Sextet(n, 0) == v0 && Sextet(n, 1) == v1 && Sextet(n, 2) == v2 - v2 % 4
  {
    hide Block3, Sextet;
    var a, b := v0 * 4 + v1 / 16, v1 % 16 * 16 + v2 / 4;
    assert a / 4 == v0 && b / 16 == v1 % 16 && b % 16 * 4 == v2 - v2 % 4;
    assert a % 4 * 16 + b / 16 == v1;
    Regroup(a, b, 0);
    SextetsOfBlock(v0, v1, v2 - v2 % 4, 0);
  }

  lemma SymbolIsInjective(v: int, w: int)
    requires 0 <= v < 64 && 0 <= w < 64
    ensures Symbol(v) == Symbol(w) ==> v == w
  {
    hide Symbol, SymbolValue;
    SymbolRoundTrip(v);
    SymbolRoundTrip(w);
  }

  /** A decoded group encodes to the same characters exactly when its padding
      hides no bits. */
  lemma GroupRoundTripBack(t: string)
    requires |t| == 4 && DecodeGroup(t).Bytes?
    ensures EncodeGroup(DecodeGroup(t).bytes) == t <==> CleanGroup(t)
  {
    hide Symbol, SymbolValue, Block3, Block4, Sextet;
    var pad2, pad3 := t[2] == '=', t[3] == '=';
    var v0, v1 := SymbolValue(t[0]), SymbolValue(t[1]);
    var v2, v3 := if pad2 then 0 else SymbolValue(t[2]), if pad3 then 0 else SymbolValue(t[3]);
    ValueRoundTrip(t[0]);
    ValueRoundTrip(t[1]);
    if !pad2 { ValueRoundTrip(t[2]); }
    if !pad3 { ValueRoundTrip(t[3]); }
    JoinBlock(v0, v1, v2, v3);
    if pad2 {
      OneByteClears(v0, v1);
      SymbolIsInjective(v1 - v1 % 16, v1);
    } else if pad3 {
      TwoBytesClear(v0, v1, v2);
      SymbolIsInjective(v2 - v2 % 4, v2);
    }
    assert t == [t[0], t[1], t[2], t[3]];
  }

  // --------------------------------------------------------- whole strings

  function Encoded(s: seq<Byte>): string
  {
    if s == [] then "" else if |s| <= 3 then EncodeGroup(s) else EncodeGroup(s[..3]) + Encoded(s[3..])
  }

  function Decoded(t: string): Decoding
  {
    if |t| % 4 != 0 then Failed(BadLength)
    else if t == "" then Bytes([])
    else Prepend(DecodeGroup(t[..4]), Decoded(t[4..]))
  }

  function Prepend(first: Decoding, rest: Decoding): Decoding
  {
    if first.Failed? then first else if rest.Failed? then rest else Bytes(first.bytes + rest.bytes)
  }

  /** Decoding inverts encoding. */
  lemma {:induction false} DecodeEncode(s: seq<Byte>)
    ensures Decoded(Encoded(s)) == Bytes(s)
    decreases |s|
  {
    hide EncodeGroup, DecodeGroup;
    if s != [] {
      var head, tail := if |s| <= 3 then s else s[..3], if |s| <= 3 then [] else s[3..];
      assert s == head + tail && Encoded(s) == EncodeGroup(head) + Encoded(tail);
      GroupRoundTrip(head);
      DecodeEncode(tail);
      WholeGroups(tail);
      assert Encoded(s)[..4] == EncodeGroup(head) && Encoded(s)[4..] == Encoded(tail);
    }
  }

  lemma {:induction false} WholeGroups(s: seq<Byte>)
    ensures |Encoded(s)| % 4 == 0
  {
    hide EncodeGroup;
    if |s| > 3 {
      WholeGroups(s[3..]);
    }
  }

  /** No padding before the last group, and no stray bits under it. */
  predicate Canonical(t: string)
    requires |t| % 4 == 0
  {
    t == "" || (CleanGroup(t[..4]) && (|t| > 4 ==> t[3] != '=' && Canonical(t[4..])))
  }

  /** Encoding inverts decoding on exactly the canonical texts. */
  lemma {:induction false} EncodeDecode(t: string)
    requires Decoded(t).Bytes?
    ensures |t| % 4 == 0 && (Encoded(Decoded(t).bytes) == t <==> Canonical(t))
  {
    hide EncodeGroup, DecodeGroup, CleanGroup;
    if t != "" {
      var head, tail := t[..4], t[4..];
      var a, b := DecodeGroup(head).bytes, Decoded(tail).bytes;
      assert t == head + tail;
      GroupRoundTripBack(head);
      EncodeDecode(tail);
      GroupLength(head);
      WholeGroups(b);
      if tail == "" {
        assert a + b == a;
      } else if |a| == 3 {
        assert (a + b)[..3] == a && (a + b)[3..] == b;
        assert b != [] by { NotEmpty(tail); }
        assert Encoded(a + b) == EncodeGroup(a) + Encoded(b);
        assert (EncodeGroup(a) + Encoded(b))[4..] == Encoded(b) && (EncodeGroup(a) + Encoded(b))[..4] == EncodeGroup(a);
      } else {
        PaddingEndsEncoding(a + b, t);
      }
    }
  }

  lemma GroupLength(t: string)
    requires |t| == 4 && DecodeGroup(t).Bytes?
    ensures |DecodeGroup(t).bytes| == 3 <==> t[3] != '='
  {
  }

  lemma NotEmpty(t: string)
    requires t != "" && Decoded(t).Bytes?
    ensures Decoded(t).bytes != []
  {
  }

  /** In an encoding, only the last group has padding. */
  lemma PaddingEndsEncoding(s: seq<Byte>, t: string)
    requires |t| > 4 && t[3] == '='
    ensures Encoded(s) != t
  {
    if |s| > 3 {
      FullGroup(s[..3]);
      assert Encoded(s)[3] == EncodeGroup(s[..3])[3];
    }
  }

  lemma FullGroup(s: seq<Byte>)
    requires |s| == 3
    ensures EncodeGroup(s)[3] != '='
  {
    hide Symbol, SymbolValue, Block3, Sextet;
    SymbolRoundTrip(Sextet(Block3(s[0], s[1], s[2]), 3));
  }

  lemma LetterA()
    ensures EncodeGroup([65]) == "QQ==" && DecodeGroup("QR==") == DecodeGroup("QQ==") == Bytes([65])
  {
    hide Symbol, EncodeGroup;
    UpperSymbols(16);
    GroupRoundTrip([65]);
    GroupOf([65]);
    assert SymbolValue('Q') == 16 && SymbolValue('R') == 17;
  }

  lemma TwoLetters()
    ensures EncodeGroup([65, 65]) == "QUE="
  {
    hide Symbol, EncodeGroup;
    UpperSymbols(16);
    UpperSymbols(20);
    UpperSymbols(4);
    GroupOf([65, 65]);
  }

  /** The characters of a group, without the block. */
  lemma GroupOf(s: seq<Byte>)
    requires 1 <= |s| <= 3
    ensures var a, b, c := s[0], if |s| > 1 then s[1] else 0, if |s| > 2 then s[2] else 0;
            EncodeGroup(s) == [Symbol(a / 4), Symbol(a % 4 * 16 + b / 16),
                               if |s| > 1 then Symbol(b % 16 * 4 + c / 64) else '=',
                               if |s| > 2 then Symbol(c % 64) else '=']
  {
    hide Symbol, Block3, Sextet;
    var a, b, c := s[0], if |s| > 1 then s[1] else 0, if |s| > 2 then s[2] else 0;
    Regroup(a, b, c);
    SextetsOfBlock(a / 4, a % 4 * 16 + b / 16, b % 16 * 4 + c / 64, c % 64);
  }

  /** Two concrete texts that decode but are not what the encoder writes. */
  lemma NotEveryTextIsCanonical()
    ensures Decoded("QR==") == Bytes([65]) && Encoded([65]) == "QQ=="
    ensures Decoded("QQ==QQ==") == Bytes([65, 65]) && Encoded([65, 65]) == "QUE="
  {
    hide DecodeGroup, EncodeGroup;
    LetterA();
    TwoLetters();
    assert "QR=="[..4] == "QR==" && "QR=="[4..] == "" && "QQ=="[..4] == "QQ==" && "QQ=="[4..] == "";
    assert Decoded("QR==") == Bytes([65] + []) && Decoded("QQ==") == Bytes([65] + []);
    assert "QQ==QQ=="[..4] == "QQ==" && "QQ==QQ=="[4..] == "QQ==";
    assert Decoded("QQ==QQ==") == Bytes([65] + [65]);
  }

  // ------------------------------------------------------------- the loops

  lemma EncodedStep(s: seq<Byte>)
    requires |s| >= 3
    ensures Encoded(s) == EncodeGroup(s[..3]) + Encoded(s[3..])
  {
    if |s| == 3 {
      assert s[..3] == s && s[3..] == [];
    }
  }

  method Encode(input: seq<Byte>) returns (output: string)
    ensures output == Encoded(input)
  {
    hide Sextet, Symbol, Block3;
    output := "";
    var index := 0;
    while index + 2 < |input|
      invariant 0 <= index <= |input| && Encoded(input) == output + Encoded(input[index..])
    {
      var block := Block3(input[index], input[index + 1], input[index + 2]);
      ghost var rest := input[index..];
      assert rest[..3] == [input[index], input[index + 1], input[index + 2]] && rest[3..] == input[index + 3..];
      EncodedStep(rest);
      output := output + [Symbol(Sextet(block, 0)), Symbol(Sextet(block, 1)), Symbol(Sextet(block, 2)),
                          Symbol(Sextet(block, 3))];
      index := index + 3;
    }
    ghost var rest := input[index..];
    var remainder := |input| - index;
    if remainder == 1 {
      var block := Block3(input[index], 0, 0);
      assert rest == [input[index]];
      output := output + [Symbol(Sextet(block, 0)), Symbol(Sextet(block, 1)), '=', '='];
    } else if remainder == 2 {
      var block := Block3(input[index], input[index + 1], 0);
      assert rest == [input[index], input[index + 1]];
      output := output + [Symbol(Sextet(block, 0)), Symbol(Sextet(block, 1)), Symbol(Sextet(block, 2)), '='];
    }
  }

  /** Four characters, as the loop reads them. */
  method DecodeFour(c0: char, c1: char, c2: char, c3: char) returns (r: Decoding)
    ensures r == DecodeGroup([c0, c1, c2, c3])
  {
    hide SymbolValue, Block4;
    var v0, v1 := SymbolValue(c0), SymbolValue(c1);
    if v0 < 0 || v1 < 0 {
      return Failed(BadPayload);
    }
    var pad2, pad3 := c2 == '=', c3 == '=';
    if pad2 && !pad3 {
      return Failed(BadPadding);
    }
    var v2, v3 := 0, 0;
    if !pad2 {
      v2 := SymbolValue(c2);
      if v2 < 0 {
        return Failed(BadPayload);
      }
    }
    if !pad3 {
      v3 := SymbolValue(c3);
      if v3 < 0 {
        return Failed(BadPayload);
      }
    }
    var block := Block4(v0, v1, v2, v3);
    var output: seq<Byte> := [block / 65536 % 256];
    if !pad2 {
      output := output + [block / 256 % 256];
    }
    if !pad3 {
      output := output + [block % 256];
    }
    return Bytes(output);
  }

  method Decode(input: string) returns (r: Decoding)
    ensures r == Decoded(input)
  {
    hide DecodeGroup;
    if |input| % 4 != 0 {
      return Failed(BadLength);
    }
    var output: seq<Byte> := [];
    var i := 0;
    while i < |input|
      invariant 0 <= i <= |input| && i % 4 == 0 && Decoded(input) == Prepend(Bytes(output), Decoded(input[i..]))
    {
      ghost var rest := input[i..];
      assert rest[4..] == input[i + 4..] && rest[..4] == [input[i], input[i + 1], input[i + 2], input[i + 3]];
      var group := DecodeFour(input[i], input[i + 1], input[i + 2], input[i + 3]);
      if group.Failed? {
        return group;
      }
      output := output + group.bytes;
      i := i + 4;
    }
    assert input[i..] == "";
    return Bytes(output);
  }
}

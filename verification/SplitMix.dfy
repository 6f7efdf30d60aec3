/** The counter-based random number generator shared by the agent and the typed
    runtime (src/engine/typed_runtime.cpp, fnv1a_64, splitmix64,
    DeterministicRng).  64-bit words are bit vectors, so arithmetic wraps. */
module SplitMix {
  import opened TypedExpression

  // --------------------------------------------------------------- the mixer

  function Add64(x: bv64, y: bv64): bv64 { x + y }

  function Xor(x: bv64, y: bv64): bv64 { x ^ y }

  function Fold30(z: bv64): bv64 { z ^ (z >> 30) }

  function Fold27(z: bv64): bv64 { z ^ (z >> 27) }

  function Fold31(z: bv64): bv64 { z ^ (z >> 31) }

  function FirstProduct(z: bv64): bv64 { z * 0xBF58476D1CE4E5B9 }

  function SecondProduct(z: bv64): bv64 { z * 0x94D049BB133111EB }

  function SplitMix64(value: bv64): bv64
  {
    var z := Add64(value, 0x9E3779B97F4A7C15);
    Fold31(SecondProduct(Fold27(FirstProduct(Fold30(z)))))
  }

  /** Shift-and-xor undone from the high bits down; products undone by the
      inverse constants. */
  function Unfold30(z: bv64): bv64 { z ^ (z >> 30) ^ (z >> 60) }

  function Unfold27(z: bv64): bv64 { z ^ (z >> 27) ^ (z >> 54) }

  function Unfold31(z: bv64): bv64 { z ^ (z >> 31) ^ (z >> 62) }

  function FirstQuotient(z: bv64): bv64 { z * 0x96DE1B173F119089 }

  function SecondQuotient(z: bv64): bv64 { z * 0x319642B2D24D8EC3 }

  function Unmix64(value: bv64): bv64
  {
    var z := Unfold30(FirstQuotient(Unfold27(SecondQuotient(Unfold31(value)))));
    Add64(z, 0x61C8864680B583EB)
  }

  lemma Fold30Inverts(z: bv64)
    ensures Unfold30(z ^ (z >> 30)) == z && Fold30(z ^ (z >> 30) ^ (z >> 60)) == z
  {
  }

  lemma Fold27Inverts(z: bv64)
    ensures Unfold27(z ^ (z >> 27)) == z && Fold27(z ^ (z >> 27) ^ (z >> 54)) == z
  {
  }

  lemma Fold31Inverts(z: bv64)
    ensures Unfold31(z ^ (z >> 31)) == z && Fold31(z ^ (z >> 31) ^ (z >> 62)) == z
  {
  }

  lemma FirstProductInverts(z: bv64)
    ensures FirstQuotient(z * 0xBF58476D1CE4E5B9) == z && FirstProduct(z * 0x96DE1B173F119089) == z
  {
  }

  lemma SecondProductInverts(z: bv64)
    ensures SecondQuotient(z * 0x94D049BB133111EB) == z && SecondProduct(z * 0x319642B2D24D8EC3) == z
  {
  }

  lemma SumInverts(z: bv64)
    ensures Add64(Add64(z, 0x9E3779B97F4A7C15), 0x61C8864680B583EB) == z
    ensures Add64(Add64(z, 0x61C8864680B583EB), 0x9E3779B97F4A7C15) == z
  {
  }

  lemma Undo30(z: bv64)
    ensures Unfold30(Fold30(z)) == z
  {
    hide Unfold30;
    Fold30Inverts(z);
  }

  lemma Redo30(z: bv64)
    ensures Fold30(Unfold30(z)) == z
  {
    hide Fold30;
    Fold30Inverts(z);
  }

  lemma Undo27(z: bv64)
    ensures Unfold27(Fold27(z)) == z
  {
    hide Unfold27;
    Fold27Inverts(z);
  }

  lemma Redo27(z: bv64)
    ensures Fold27(Unfold27(z)) == z
  {
    hide Fold27;
    Fold27Inverts(z);
  }

  lemma Undo31(z: bv64)
    ensures Unfold31(Fold31(z)) == z
  {
    hide Unfold31;
    Fold31Inverts(z);
  }

  lemma Redo31(z: bv64)
    ensures Fold31(Unfold31(z)) == z
  {
    hide Fold31;
    Fold31Inverts(z);
  }

  lemma UndoFirst(z: bv64)
    ensures FirstQuotient(FirstProduct(z)) == z
  {
    hide FirstQuotient;
    FirstProductInverts(z);
  }

  lemma RedoFirst(z: bv64)
    ensures FirstProduct(FirstQuotient(z)) == z
  {
    hide FirstProduct;
    FirstProductInverts(z);
  }

  lemma UndoSecond(z: bv64)
    ensures SecondQuotient(SecondProduct(z)) == z
  {
    hide SecondQuotient;
    SecondProductInverts(z);
  }

  lemma RedoSecond(z: bv64)
    ensures SecondProduct(SecondQuotient(z)) == z
  {
    hide SecondProduct;
    SecondProductInverts(z);
  }

  /** splitmix64 is a bijection on 64-bit words. */
  lemma SplitMixIsBijective(v: bv64)
    ensures Unmix64(SplitMix64(v)) == v && SplitMix64(Unmix64(v)) == v
  {
    hide Add64, Fold30, Fold27, Fold31, Unfold30, Unfold27, Unfold31, FirstProduct, SecondProduct, FirstQuotient,
      SecondQuotient;
    var z := Add64(v, 0x9E3779B97F4A7C15);
    Undo30(z);
    UndoFirst(Fold30(z));
    Undo27(FirstProduct(Fold30(z)));
    UndoSecond(Fold27(FirstProduct(Fold30(z))));
    Undo31(SecondProduct(Fold27(FirstProduct(Fold30(z)))));
    SumInverts(v);
    var y := Unfold27(SecondQuotient(Unfold31(v)));
    Redo31(v);
    RedoSecond(Unfold31(v));
    Redo27(SecondQuotient(Unfold31(v)));
    RedoFirst(y);
    Redo30(FirstQuotient(y));
    SumInverts(Unfold30(FirstQuotient(y)));
  }

  lemma DifferentStaysDifferent(v: bv64, w: bv64)
    requires v != w
    ensures SplitMix64(v) != SplitMix64(w)
  {
    hide SplitMix64, Unmix64;
    SplitMixIsBijective(v);
    SplitMixIsBijective(w);
  }

  // --------------------------------------------------------------- the draws

  function HashStep(hash: bv64, c: char): bv64
  {
    (hash ^ (c as int % 256) as bv64) * 1099511628211
  }

  function Fnv1a(text: string): bv64
  {
    if text == "" then 14695981039346656037 else HashStep(Fnv1a(text[..|text| - 1]), text[|text| - 1])
  }

  method HashText(text: string) returns (hash: bv64)
    ensures hash == Fnv1a(text)
  {
    hide HashStep;
    hash := 14695981039346656037;
    for i := 0 to |text|
      invariant hash == Fnv1a(text[..i])
    {
      assert text[..i + 1][..i] == text[..i];
      hash := HashStep(hash, text[i]);
    }
    assert text[..|text|] == text;
  }

  /** The raw draw of a stream at a draw index. */
  function Raw(seed: bv64, scenario: bv64, stream: bv64, index: bv64): bv64
  {
    SplitMix64(Xor(SplitMix64(Xor(SplitMix64(Xor(SplitMix64(seed), scenario)), stream)), index))
  }

  lemma XorIsInjective(a: bv64, b: bv64, c: bv64)
    ensures a != b ==> Xor(a, c) != Xor(b, c) && Xor(c, a) != Xor(c, b)
  {
  }

  /** Within a stream, different draw indices give different draws. */
  lemma DrawsDifferByIndex(seed: bv64, scenario: bv64, stream: bv64, i: bv64, j: bv64)
    requires i != j
    ensures Raw(seed, scenario, stream, i) != Raw(seed, scenario, stream, j)
  {
    hide SplitMix64, Xor;
    var base := SplitMix64(Xor(SplitMix64(Xor(SplitMix64(seed), scenario)), stream));
    XorIsInjective(i, j, base);
    DifferentStaysDifferent(Xor(base, i), Xor(base, j));
  }

  /** One round of the generator keeps different states different. */
  lemma RoundIsInjective(x: bv64, y: bv64, mask: bv64)
    requires x != y
    ensures SplitMix64(Xor(x, mask)) != SplitMix64(Xor(y, mask))
    ensures SplitMix64(Xor(mask, x)) != SplitMix64(Xor(mask, y))
  {
    hide SplitMix64, Xor;
    XorIsInjective(x, y, mask);
    DifferentStaysDifferent(Xor(x, mask), Xor(y, mask));
    DifferentStaysDifferent(Xor(mask, x), Xor(mask, y));
  }

  /** Draws that agree in everything but the seed differ. */
  lemma DrawsDifferBySeed(seed: bv64, other: bv64, scenario: bv64, stream: bv64, i: bv64)
    requires seed != other
    ensures Raw(seed, scenario, stream, i) != Raw(other, scenario, stream, i)
  {
    hide SplitMix64, Xor;
    DifferentStaysDifferent(seed, other);
    RoundIsInjective(SplitMix64(seed), SplitMix64(other), scenario);
    LastRounds(SplitMix64(Xor(SplitMix64(seed), scenario)), SplitMix64(Xor(SplitMix64(other), scenario)), stream, i);
  }

  /** So do draws of streams, or scenarios, with different hashes. */
  lemma DrawsDifferByScenario(seed: bv64, scenario: bv64, other: bv64, stream: bv64, i: bv64)
    requires scenario != other
    ensures Raw(seed, scenario, stream, i) != Raw(seed, other, stream, i)
  {
    hide SplitMix64, Xor;
    RoundIsInjective(scenario, other, SplitMix64(seed));
    LastRounds(SplitMix64(Xor(SplitMix64(seed), scenario)), SplitMix64(Xor(SplitMix64(seed), other)), stream, i);
  }

  lemma DrawsDifferByStream(seed: bv64, scenario: bv64, stream: bv64, other: bv64, i: bv64)
    requires stream != other
    ensures Raw(seed, scenario, stream, i) != Raw(seed, scenario, other, i)
  {
    hide SplitMix64, Xor;
    var c := SplitMix64(Xor(SplitMix64(seed), scenario));
    RoundIsInjective(stream, other, c);
    RoundIsInjective(SplitMix64(Xor(c, stream)), SplitMix64(Xor(c, other)), i);
  }

  lemma LastRounds(x: bv64, y: bv64, stream: bv64, i: bv64)
    requires x != y
    ensures SplitMix64(Xor(SplitMix64(Xor(x, stream)), i)) != SplitMix64(Xor(SplitMix64(Xor(y, stream)), i))
  {
    hide SplitMix64, Xor;
    RoundIsInjective(x, y, stream);
    RoundIsInjective(SplitMix64(Xor(x, stream)), SplitMix64(Xor(y, stream)), i);
  }

  // ------------------------------------------------------------- the counter

  /** A 64-bit counter after n increments from zero. */
  function Counter(n: nat): bv64
  {
    if n == 0 then 0 else Add64(Counter(n - 1), 1)
  }

  lemma {:induction false} CounterAdds(m: nat, n: nat)
    ensures Counter(m + n) == Add64(Counter(m), Counter(n))
  {
    hide Add64;
    AddLaws(Counter(m), 0);
    if n > 0 {
      CounterAdds(m, n - 1);
      AddLaws(Counter(m), Counter(n - 1));
    }
  }

  lemma SumIsAssociative(x: bv64, y: bv64, z: bv64)
    ensures (x + y) + z == x + (y + z)
  {
  }

  lemma AddOneOutside(x: bv64, y: bv64)
    ensures Add64(x + y, 1) == Add64(x, y + 1)
  {
    SumIsAssociative(x, y, 1);
  }

  lemma AddOneToSum(x: bv64, y: bv64, sum: bv64, next: bv64)
    requires sum == x + y && next == y + 1
    ensures Add64(sum, 1) == Add64(x, next)
  {
    AddOneOutside(x, y);
  }

  lemma AddZero(x: bv64)
    ensures Add64(x, 0) == x
  {
  }

  lemma AddLaws(x: bv64, y: bv64)
    ensures Add64(x, 0) == x && Add64(Add64(x, y), 1) == Add64(x, Add64(y, 1))
  {
    AddZero(x);
    AddOneToSum(x, y, Add64(x, y), Add64(y, 1));
  }

  function Doubled(x: bv64, t: nat): bv64
    decreases t
  {
    if t == 0 then x else Doubled(Add64(x, x), t - 1)
  }

  function Power(t: nat): nat
  {
    if t == 0 then 1 else 2 * Power(t - 1)
  }

  predicate Has(x: bv64, bit: bv64) { x & bit == bit }

  lemma DoublingKeepsBit(x: bv64, bit: bv64)
    ensures Has(x, bit) ==> Has(Add64(x, x), Add64(bit, bit))
    ensures Has(0, bit) ==> bit == 0
    ensures Add64(0, 0) == 0
  {
  }

  /** A bit stays set while it is shifted out to the left. */
  lemma {:induction false} BitStays(x: bv64, bit: bv64, t: nat)
    requires Has(x, bit)
    ensures Has(Doubled(x, t), Doubled(bit, t))
    decreases t
  {
    hide Has, Add64;
    if t > 0 {
      DoublingKeepsBit(x, bit);
      BitStays(Add64(x, x), Add64(bit, bit), t - 1);
    }
  }

  lemma {:induction false} DoubledTwice(x: bv64, s: nat, t: nat)
    ensures Doubled(Doubled(x, s), t) == Doubled(x, s + t)
    decreases s
  {
    hide Add64;
    if s > 0 {
      DoubledTwice(Add64(x, x), s - 1, t);
    }
  }

  lemma {:induction false} ZeroStays(t: nat)
    ensures Doubled(0, t) == 0
  {
    hide Add64;
    DoublingKeepsBit(0, 0);
    if t > 0 {
      ZeroStays(t - 1);
    }
  }

  lemma DoubleOnce(x: bv64)
    ensures Doubled(x, 1) == x << 1
  {
    assert Doubled(x, 1) == Doubled(Add64(x, x), 0);
  }

  lemma DoubleTwice(x: bv64)
    ensures Doubled(x, 2) == x << 2
  {
    hide Doubled;
    DoubledTwice(x, 1, 1);
    DoubleOnce(x);
    DoubleOnce(x << 1);
  }

  lemma DoubleFourTimes(x: bv64)
    ensures Doubled(x, 4) == x << 4
  {
    hide Doubled;
    DoubledTwice(x, 2, 2);
    DoubleTwice(x);
    DoubleTwice(x << 2);
  }

  lemma DoubleEightTimes(x: bv64)
    ensures Doubled(x, 8) == x << 8
  {
    hide Doubled;
    DoubledTwice(x, 4, 4);
    DoubleFourTimes(x);
    DoubleFourTimes(x << 4);
  }

  lemma TopBit()
    ensures Doubled(1, 63) == 0x8000_0000_0000_0000
  {
    hide Doubled;
    DoubleEightTimes(1);
    DoubledTwice(1, 8, 8);
    DoubleEightTimes(0x100);
    DoubledTwice(1, 16, 8);
    DoubleEightTimes(0x1_0000);
    DoubledTwice(1, 24, 8);
    DoubleEightTimes(0x100_0000);
    DoubledTwice(1, 32, 8);
    DoubleEightTimes(0x1_0000_0000);
    DoubledTwice(1, 40, 8);
    DoubleEightTimes(0x100_0000_0000);
    DoubledTwice(1, 48, 8);
    DoubleEightTimes(0x1_0000_0000_0000);
    DoubledTwice(1, 56, 4);
    DoubleFourTimes(0x100_0000_0000_0000);
    DoubledTwice(1, 60, 2);
    DoubleTwice(0x1000_0000_0000_0000);
    DoubledTwice(1, 62, 1);
    DoubleOnce(0x4000_0000_0000_0000);
  }

  lemma OneSurvives(t: nat)
    requires t <= 63
    ensures Doubled(1, t) != 0
  {
    hide Doubled;
    TopBit();
    DoubledTwice(1, t, 63 - t);
    ZeroStays(63 - t);
  }

  lemma {:induction false} CounterIsOdd(n: nat)
    ensures Has(Counter(2 * n + 1), 1)
  {
    hide Add64, Has;
    OddLaws(0);
    if n > 0 {
      CounterIsOdd(n - 1);
      OddLaws(Counter(2 * n - 1));
      assert Counter(2 * n) == Add64(Counter(2 * n - 1), 1);
      assert Counter(2 * n + 1) == Add64(Counter(2 * n), 1);
    } else {
      assert Counter(1) == Add64(Counter(0), 1);
    }
  }

  lemma OddLaws(x: bv64)
    ensures Has(Add64(0, 1), 1) && (Has(x, 1) ==> Has(Add64(Add64(x, 1), 1), 1))
  {
  }

  /** A counter comes back to zero only after 2 to the 64 increments. */
  lemma {:induction false} CounterIsNotZero(n: nat, t: nat)
    requires t <= 63 && 0 < n < Power(64 - t)
    ensures Doubled(Counter(n), t) != 0
    decreases n
  {
    hide Add64, Has, Counter;
    var half := n / 2;
    if n % 2 == 1 {
      CounterIsOdd(half);
      BitStays(Counter(n), 1, t);
      OneSurvives(t);
      DoublingKeepsBit(0, Doubled(1, t));
    } else {
      CounterAdds(half, half);
      CounterIsNotZero(half, t + 1);
      assert half + half == n;
    }
  }

  /** The first 2 to the 64 values of the counter are all different. */
  lemma CounterIsInjective(m: nat, n: nat)
    requires m < n < Power(64)
    ensures Counter(m) != Counter(n)
  {
    hide Power, Counter, Add64;
    CounterAdds(m, n - m);
    CounterIsNotZero(n - m, 0);
    AddCancels(Counter(m), Counter(n - m));
  }

  lemma AddCancels(x: bv64, y: bv64)
    ensures Add64(x, y) == x ==> y == 0
  {
  }

  // --------------------------------------------------------------- the class

  /** The upper 53 bits. */
  function Upper53(raw: bv64): (r: int)
    ensures 0 <= r < 9007199254740992
  {
    (((raw >> 11) & 0x1F_FFFF_FFFF_FFFF) as bv53) as int
  }

  /** The number of [0, 1) made of the upper 53 bits. */
  function Normalized(raw: bv64): (r: real)
    ensures 0.0 <= r < 1.0
  {
    Upper53(raw) as real / 9007199254740992.0
  }

  function DrawAt(seed: bv64, scenario: string, key: string, n: nat): bv64
  {
    Raw(seed, Fnv1a(scenario), Fnv1a(key), Counter(n))
  }

  class DeterministicRng {
    const seed: bv64
    const scenarioHash: bv64
    ghost const scenario: string
    var counters: map<string, bv64>
    // The streams drawn from so far, oldest first.
    ghost var history: Draws

    ghost predicate Valid()
      reads this
    {
      && scenarioHash == Fnv1a(scenario)
      && forall key :: (if key in counters then counters[key] else 0) == Counter(Occurrences(key, history))
    }

    constructor (masterSeed: bv64, scenarioId: string)
      ensures Valid() && seed == masterSeed && scenario == scenarioId && history == []
    {
      var hash := HashText(scenarioId);
      seed, scenarioHash, scenario, counters, history := masterSeed, hash, scenarioId, map[], [];
    }

    /** A draw depends only on the seed, the scenario, the key and how often the
        stream was drawn from before, whatever was drawn from other streams. */
    method Draw(key: string) returns (raw: bv64, index: bv64, normalized: real)
      requires Valid()
      modifies this
      ensures Valid() && history == old(history) + [key]
      ensures raw == DrawAt(seed, scenario, key, Occurrences(key, old(history)))
      ensures index == Counter(Occurrences(key, old(history))) && normalized == Normalized(raw)
    {
      hide SplitMix64, Fnv1a, Xor, Add64, Upper53;
      index := if key in counters then counters[key] else 0;
      counters := counters[key := Add64(index, 1)];
      history := history + [key];
      assert forall k :: Occurrences(k, history) == Occurrences(k, old(history)) + if k == key then 1 else 0;
      var streamHash := HashText(key);
      var state := SplitMix64(seed);
      state := SplitMix64(Xor(state, scenarioHash));
      state := SplitMix64(Xor(state, streamHash));
      state := SplitMix64(Xor(state, index));
      raw, normalized := state, Normalized(state);
    }
  }

  /** Within the first 2 to the 64 draws of a stream, no raw value repeats. */
  lemma DrawsNeverRepeat(seed: bv64, scenario: string, key: string, m: nat, n: nat)
    requires m < n < Power(64)
    ensures DrawAt(seed, scenario, key, m) != DrawAt(seed, scenario, key, n)
  {
    hide Power, Counter, Raw, Fnv1a;
    CounterIsInjective(m, n);
    DrawsDifferByIndex(seed, Fnv1a(scenario), Fnv1a(key), Counter(m), Counter(n));
  }

  /** What a history of draws takes from one stream, in order. */
  function Produced(seed: bv64, scenario: string, history: Draws, key: string): seq<bv64>
  {
    if history == [] then []
    else
      var n := |history| - 1;
      Produced(seed, scenario, history[..n], key) +
      if history[n] == key then [DrawAt(seed, scenario, key, Occurrences(key, history[..n]))] else []
  }

  /** Under any interleaving with other streams, a stream yields the same
      numbers in the same order. */
  lemma {:induction false} InterleavingDoesNotMatter(seed: bv64, scenario: string, history: Draws, key: string)
    ensures Produced(seed, scenario, history, key)
         == seq(Occurrences(key, history), n requires n >= 0 => DrawAt(seed, scenario, key, n))
  {
    hide DrawAt;
    if history != [] {
      var n := |history| - 1;
      InterleavingDoesNotMatter(seed, scenario, history[..n], key);
      assert history == history[..n] + [history[n]];
    }
  }

  /** The random streams an expression draws from. */
  function SampleOf(seed: bv64, scenario: string): (string, nat) -> real
  {
    (key: string, n: nat) => Normalized(DrawAt(seed, scenario, key, n))
  }

  /** A successful rng(key, lo, hi) takes the next draw of its stream and returns
      a number of [lo, hi]. */
  lemma RngStaysInBounds(c: Context, seed: bv64, scenario: string, f: string, args: seq<Value>, draws: Draws)
    requires IsRandom(f) && c.sample == SampleOf(seed, scenario) && Apply(c, f, args, draws).Result?
    ensures |args| == 3 && args[0].Str? && AsNumber(args[1]).Some? && AsNumber(args[2]).Some?
    ensures var r, lo, hi := Apply(c, f, args, draws), AsNumber(args[1]).value, AsNumber(args[2]).value;
            var draw := DrawAt(seed, scenario, args[0].s, Occurrences(args[0].s, draws));
            && r.draws == draws + [args[0].s] && r.v == Num(Between(lo, hi, Normalized(draw))) && lo <= r.v.x <= hi
  {
    hide Normalized, DrawAt;
    var lo, hi := AsNumber(args[1]).value, AsNumber(args[2]).value;
    BetweenStaysInside(lo, hi, Normalized(DrawAt(seed, scenario, args[0].s, Occurrences(args[0].s, draws))));
  }
}

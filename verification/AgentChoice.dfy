/** How a purchase is chosen from a draw, and what follows for whole runs: the
    draws and the scores determine everything (src/engine/agent_runtime.cpp). */
module AgentChoice {
  import opened Optional
  import opened AgentMarket
  import opened AgentInvariants
  import opened AgentSafety
  import opened AgentRuns

  // ---------------------------------------------------------- candidates

  /** What can be bought of one item, in the first n shops. */
  function CandidatesAt(agents: seq<Agent>, shops: seq<Shop>, a: int, item: int, n: nat): seq<(int, int)>
    requires IsAgent(agents, a)
  {
    if n == 0 then []
    else CandidatesAt(agents, shops, a, item, n - 1) +
         if CanBuy(agents, shops, a, item, n - 1) then [(item, n - 1)] else []
  }

  /** What can be bought of the first n items, item by item and shop by shop. */
  function Candidates(agents: seq<Agent>, shops: seq<Shop>, a: int, n: nat): seq<(int, int)>
    requires IsAgent(agents, a)
  {
    if n == 0 then [] else Candidates(agents, shops, a, n - 1) + CandidatesAt(agents, shops, a, n - 1, |shops|)
  }

  lemma {:induction false} CandidatesAtAreBuyable(agents: seq<Agent>, shops: seq<Shop>, a: int, item: int, n: nat)
    requires IsAgent(agents, a)
    ensures forall i, s :: (i, s) in CandidatesAt(agents, shops, a, item, n) <==>
              i == item && 0 <= s < n && CanBuy(agents, shops, a, i, s)
  {
    if n > 0 {
      CandidatesAtAreBuyable(agents, shops, a, item, n - 1);
    }
  }

  lemma {:induction false} CandidatesAreBuyable(agents: seq<Agent>, shops: seq<Shop>, a: int, n: nat)
    requires IsAgent(agents, a)
    ensures forall i, s :: (i, s) in Candidates(agents, shops, a, n) <==> 0 <= i < n && CanBuy(agents, shops, a, i, s)
  {
    hide CandidatesAt;
    if n > 0 {
      CandidatesAreBuyable(agents, shops, a, n - 1);
      CandidatesAtAreBuyable(agents, shops, a, n - 1, |shops|);
    }
  }

  lemma {:induction false} SameCandidatesAt(a: seq<Agent>, b: seq<Agent>, shops: seq<Shop>, i: int, item: int, n: nat)
    requires IsAgent(a, i) && IsAgent(b, i) && a[i].budget == b[i].budget
    ensures CandidatesAt(a, shops, i, item, n) == CandidatesAt(b, shops, i, item, n)
  {
    if n > 0 {
      SameCandidatesAt(a, b, shops, i, item, n - 1);
    }
  }

  /** The candidates depend on nothing of the agent but its budget. */
  lemma {:induction false} SameCandidates(a: seq<Agent>, b: seq<Agent>, shops: seq<Shop>, i: int, n: nat)
    requires IsAgent(a, i) && IsAgent(b, i) && a[i].budget == b[i].budget
    ensures Candidates(a, shops, i, n) == Candidates(b, shops, i, n)
  {
    if n > 0 {
      SameCandidates(a, b, shops, i, n - 1);
      SameCandidatesAt(a, b, shops, i, n - 1, |shops|);
    }
  }

  // ----------------------------------------------------- weighted choice

  /** The total weight of the first n candidates. */
  function Weights(valid: seq<(int, int)>, weight: ((int, int)) -> real, n: nat): (r: real)
    requires n <= |valid| && forall c :: weight(c) > 0.0
    ensures r >= 0.0
  {
    if n == 0 then 0.0 else Weights(valid, weight, n - 1) + weight(valid[n - 1])
  }

  function Scaled(draw: real, total: real): (r: real)
    ensures 0.0 <= draw < 1.0 && total >= 0.0 ==> 0.0 <= r <= total
  {
    ScaledIsSmaller(draw, total);
    draw * total
  }

  lemma ScaledIsSmaller(draw: real, total: real)
    ensures 0.0 <= draw < 1.0 && total >= 0.0 ==> 0.0 <= draw * total <= total
  {
    if 0.0 <= draw < 1.0 && total >= 0.0 {
      Product(draw, total);
      Product(1.0 - draw, total);
    }
  }

  lemma Product(a: real, b: real)
    requires a >= 0.0 && b >= 0.0
    ensures a * b >= 0.0
  {
  }

  /** The first candidate whose cumulative weight reaches the scaled draw. */
  ghost predicate Selects(valid: seq<(int, int)>, weight: ((int, int)) -> real, scaled: real, k: nat)
    requires k < |valid| && forall c :: weight(c) > 0.0
  {
    && scaled <= Weights(valid, weight, k + 1)
    && forall j :: 0 <= j <= k ==> j == 0 || scaled > Weights(valid, weight, j)
  }

  /** One draw picks a candidate in proportion to the weights; over the reals
      the fallback to the last candidate is never needed. */
  method WeightedChoice(valid: seq<(int, int)>, weight: ((int, int)) -> real, draw: real) returns (chosen: nat)
    requires valid != [] && 0.0 <= draw < 1.0 && forall c :: weight(c) > 0.0
    ensures chosen < |valid| && Selects(valid, weight, Scaled(draw, Weights(valid, weight, |valid|)), chosen)
  {
    hide Scaled;
    var total := 0.0;
    for k := 0 to |valid|
      invariant total == Weights(valid, weight, k)
    {
      total := total + weight(valid[k]);
    }
    var scaled, cumulative := Scaled(draw, total), 0.0;
    chosen := |valid| - 1;
    for k := 0 to |valid|
      invariant cumulative == Weights(valid, weight, k)
      invariant forall j :: 0 <= j <= k ==> j == 0 || scaled > Weights(valid, weight, j)
    {
      cumulative := cumulative + weight(valid[k]);
      if scaled <= cumulative {
        return k;
      }
    }
  }

  // --------------------------------------------------------- determinism

  ghost predicate Chosen(valid: seq<(int, int)>, weight: ((int, int)) -> real, draw: real, choice: Option<(int, int)>)
    requires forall c :: weight(c) > 0.0
  {
    if valid == [] then choice == None
    else
      var scaled := Scaled(draw, Weights(valid, weight, |valid|));
      exists k: nat :: k < |valid| && choice == Some(valid[k]) && Selects(valid, weight, scaled, k)
  }

  lemma SelectsIsUnique(valid: seq<(int, int)>, weight: ((int, int)) -> real, scaled: real, j: nat, k: nat)
    requires j < |valid| && k < |valid| && forall c :: weight(c) > 0.0
    requires Selects(valid, weight, scaled, j) && Selects(valid, weight, scaled, k)
    ensures j == k
  {
    hide Weights;
  }

  lemma ChosenIsUnique(valid: seq<(int, int)>, weight: ((int, int)) -> real, draw: real,
                       a: Option<(int, int)>, b: Option<(int, int)>)
    requires forall c :: weight(c) > 0.0
    requires Chosen(valid, weight, draw, a) && Chosen(valid, weight, draw, b)
    ensures a == b
  {
    hide Scaled, Weights, Selects;
    if valid != [] {
      var scaled := Scaled(draw, Weights(valid, weight, |valid|));
      var j: nat :| j < |valid| && a == Some(valid[j]) && Selects(valid, weight, scaled, j);
      var k: nat :| k < |valid| && b == Some(valid[k]) && Selects(valid, weight, scaled, k);
      SelectsIsUnique(valid, weight, scaled, j, k);
    }
  }

  /** The luck of a step is what the draw and the weights make of it. */
  ghost predicate Drawn(w: World, agents: seq<Agent>, shops: seq<Shop>, e: Event,
                        weight: ((int, int)) -> real, draw: real, luck: Luck)
    requires forall c :: weight(c) > 0.0
  {
    && luck.draw == draw
    && if e.kind.DecidePurchase? && IsAgent(agents, e.agent)
       then Chosen(Candidates(agents, shops, e.agent, |w.itemTags|), weight, draw, luck.choice)
       else luck.choice == None
  }

  ghost predicate AllDrawn(w: World, ms: seq<Market>, es: seq<Event>, ls: seq<Luck>,
                           weights: nat -> ((int, int)) -> real, draws: nat -> real)
    requires forall k, c :: weights(k)(c) > 0.0
  {
    && |ms| == |es| + 1 && |ls| == |es|
    && forall k :: 0 <= k < |es| ==> Drawn(w, ms[k].agents, ms[k].shops, es[k], weights(k), draws(k), ls[k])
  }

  lemma NothingDrawn(w: World, m: Market, weights: nat -> ((int, int)) -> real, draws: nat -> real)
    requires forall k, c :: weights(k)(c) > 0.0
    ensures AllDrawn(w, [m], [], [], weights, draws)
  {
  }

  lemma DrawnExtends(w: World, ms: seq<Market>, es: seq<Event>, ls: seq<Luck>, e: Event, luck: Luck, m: Market,
                     weights: nat -> ((int, int)) -> real, draws: nat -> real)
    requires forall k, c :: weights(k)(c) > 0.0
    requires AllDrawn(w, ms, es, ls, weights, draws)
    requires Drawn(w, ms[|es|].agents, ms[|es|].shops, e, weights(|es|), draws(|es|), luck)
    ensures AllDrawn(w, ms + [m], es + [e], ls + [luck], weights, draws)
  {
    hide Drawn;
  }

  lemma DrawnIsUnique(w: World, agents: seq<Agent>, shops: seq<Shop>, e: Event,
                      weight: ((int, int)) -> real, draw: real, a: Luck, b: Luck)
    requires forall c :: weight(c) > 0.0
    requires Drawn(w, agents, shops, e, weight, draw, a) && Drawn(w, agents, shops, e, weight, draw, b)
    ensures a == b
  {
    hide Chosen, Candidates;
    if e.kind.DecidePurchase? && IsAgent(agents, e.agent) {
      ChosenIsUnique(Candidates(agents, shops, e.agent, |w.itemTags|), weight, draw, a.choice, b.choice);
    }
  }

  /** Two runs from one start with the same draws and weights are the same run,
      as far as both go. */
  lemma {:induction false} SameDrawsSameRun(w: World, agents: seq<Agent>, shops: seq<Shop>,
                                            weights: nat -> ((int, int)) -> real, draws: nat -> real,
                                            ms: seq<Market>, es: seq<Event>, ls: seq<Luck>,
                                            ns: seq<Market>, fs: seq<Event>, ks: seq<Luck>, k: nat)
    requires forall j, c :: weights(j)(c) > 0.0
    requires Fresh(w, agents, shops) && k <= |es| && k <= |fs|
    requires IsRun(w, ms, es, ls) && ms[0] == Initial(w, agents, shops) && AllDrawn(w, ms, es, ls, weights, draws)
    requires IsRun(w, ns, fs, ks) && ns[0] == Initial(w, agents, shops) && AllDrawn(w, ns, fs, ks, weights, draws)
    ensures ms[..k + 1] == ns[..k + 1] && es[..k] == fs[..k] && ls[..k] == ks[..k]
  {
    hide Fresh, Step, Safe, Conserved, IsNext, ValidLuck, Initial, Drawn;
    if k > 0 {
      SameDrawsSameRun(w, agents, shops, weights, draws, ms, es, ls, ns, fs, ks, k - 1);
      var j := k - 1;
      assert ms[j] == ms[..k][j] && ns[j] == ns[..k][j];
      assert Moves(w, ms[j], es[j], ls[j], ms[j + 1]);
      assert Moves(w, ns[j], fs[j], ks[j], ns[j + 1]);
      RunIsSafe(w, agents, shops, ms, es, ls, j);
      SafeIsNumbered(w, ms[j]);
      NextIsUnique(ms[j], es[j], fs[j]);
      DrawnIsUnique(w, ms[j].agents, ms[j].shops, es[j], weights(j), draws(j), ls[j], ks[j]);
      assert es[..k] == es[..j] + [es[j]] && fs[..k] == fs[..j] + [fs[j]];
      assert ls[..k] == ls[..j] + [ls[j]] && ks[..k] == ks[..j] + [ks[j]];
      assert ms[..k + 1] == ms[..k] + [ms[k]] && ns[..k + 1] == ns[..k] + [ns[k]];
    } else {
      assert ms[..1] == [ms[0]] && ns[..1] == [ns[0]];
    }
  }
}

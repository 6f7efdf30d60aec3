/** Whole runs of the agent market: the event order picks one event, a run is
    determined by its random draws, and every state a run reaches is safe. */
module AgentRuns {
  import opened AgentMarket
  import opened AgentInvariants
  import opened AgentSafety
  import opened StringOrder

  // -------------------------------------------------------- the event order

  lemma BeforeIsTransitive(a: Event, b: Event, c: Event)
    requires Before(a, b) && Before(b, c)
    ensures Before(a, c)
  {
    hide Handle;
    if Less(Handle(a), Handle(b)) && Less(Handle(b), Handle(c)) {
      LessIsTransitive(Handle(a), Handle(b), Handle(c));
    }
    LessIsTotal(Handle(a), Handle(b));
    LessIsTotal(Handle(b), Handle(c));
    LessIsTotal(Handle(a), Handle(c));
  }

  /** Ordinals break every tie. */
  lemma BeforeIsTotal(a: Event, b: Event)
    ensures !Before(a, a) && !(Before(a, b) && Before(b, a))
    ensures a.ordinal != b.ordinal ==> Before(a, b) || Before(b, a)
  {
    hide Handle;
    LessIsTotal(Handle(a), Handle(a));
    LessIsTotal(Handle(a), Handle(b));
    LessIsTotal(Handle(b), Handle(a));
  }

  /** Some pending event comes first. */
  lemma {:induction false} NextExists(pending: set<Event>) returns (e: Event)
    requires pending != {}
    ensures IsNext(e, pending)
  {
    hide Before;
    e :| e in pending;
    BeforeIsTotal(e, e);
    if pending != {e} {
      var other := NextExists(pending - {e});
      BeforeIsTotal(e, other);
      if Before(other, e) {
        e := other;
      } else {
        forall x | x in pending
          ensures !Before(x, e)
        {
          if x != e {
            NotBeforeIsTransitive(x, other, e);
          }
        }
      }
    }
  }

  lemma NotBeforeIsTransitive(a: Event, b: Event, c: Event)
    requires !Before(a, b) && !Before(b, c)
    ensures !Before(a, c)
  {
    hide Handle;
    LessIsTotal(Handle(a), Handle(b));
    LessIsTotal(Handle(b), Handle(c));
    LessIsTotal(Handle(a), Handle(c));
    if Less(Handle(c), Handle(b)) && Less(Handle(b), Handle(a)) {
      LessIsTransitive(Handle(c), Handle(b), Handle(a));
    }
  }

  /** Only one pending event comes first. */
  lemma NextIsUnique(m: Market, a: Event, b: Event)
    requires Numbering(m) && IsNext(a, m.pending) && IsNext(b, m.pending)
    ensures a == b
  {
    hide Before;
    BeforeIsTotal(a, b);
  }

  // ------------------------------------------------------------- invariants

  /** What holds in every state of a run. */
  ghost predicate Safe(w: World, m: Market)
  {
    WellFormed(w, m) && Slow(m) && Queues(m) && Conversations(m) && Framed(w, m) && Lively(m)
  }

  /** Agents as the scenario gives them: nobody has done anything yet. */
  ghost predicate Fresh(w: World, agents: seq<Agent>, shops: seq<Shop>)
  {
    && ValidWorld(w) && People(w, agents, shops)
    && (forall a :: a in agents ==> !a.inConversation && a.partner == -1)
    && (forall s :: s in shops ==> s.queueSize == 0)
  }

  lemma InitialIsSafe(w: World, agents: seq<Agent>, shops: seq<Shop>)
    requires Fresh(w, agents, shops)
    ensures Safe(w, Initial(w, agents, shops)) && End(w) in Initial(w, agents, shops).pending
    ensures forall e :: IsNext(e, Initial(w, agents, shops).pending) ==> e == Start()
  {
    hide ValidAgent, ValidShop;
    var m := Initial(w, agents, shops);
    assert m.pending == {Start(), End(w)};
    assert Before(Start(), End(w));
    forall i | IsAgent(agents, i)
      ensures TalkMatches(m.pending, agents, i)
    {
      assert agents[i] in agents;
      assert TalkEnds(m.pending, i) == {};
    }
    forall s | IsShop(shops, s)
      ensures QueueMatches(m.pending, shops, s)
    {
      assert shops[s] in shops;
      assert PurchasesAt(m.pending, s) == {};
    }
  }

  /** Money and goods of one state are those of another. */
  ghost predicate Conserved(m: Market, m': Market)
  {
    && |m'.agents| == |m.agents| && |m'.shops| == |m.shops|
    && (forall i :: IsAgent(m.agents, i) ==>
         && m'.agents[i].budget + m'.agents[i].moneySpent == m.agents[i].budget + m.agents[i].moneySpent
         && 0.0 <= m'.agents[i].budget <= m.agents[i].budget)
    && (forall item :: Goods(m', item) == Goods(m, item))
    && (forall s, item :: IsShop(m.shops, s) && item in m.shops[s].inventory ==>
         item in m'.shops[s].inventory && 0 <= m'.shops[s].inventory[item].stock)
  }

  lemma StepIsSafe(w: World, m: Market, e: Event, luck: Luck)
    requires Safe(w, m) && IsNext(e, m.pending) && ValidLuck(m.agents, m.shops, e, luck)
    ensures forall a :: a in m.agents ==> a.memorySlots > 0
    ensures var m' := Step(w, m, e, luck);
            Safe(w, m') && Conserved(m, m') && m'.now == e.time >= m.now
    ensures !e.kind.SimEnd? && End(w) in m.pending ==> End(w) in Step(w, m, e, luck).pending
    ensures End(w) in m.pending ==> e.time <= w.maxTime
    ensures e.kind.Purchase? ==> m.shops[e.shop].queueSize > 0
  {
    hide WellFormed, Slow, Queues, Conversations, Framed, Lively, Conserved, Goods, React, ValidLuck, Handle;
    StepKeepsWellFormed(w, m, e, luck);
    StepKeepsSlow(w, m, e, luck);
    StepKeepsQueues(w, m, e, luck);
    StepKeepsConversations(w, m, e, luck);
    StepKeepsFrame(w, m, e, luck);
    StepKeepsLively(w, m, e, luck);
    StepConserves(w, m, e, luck);
  }

  lemma StepConserves(w: World, m: Market, e: Event, luck: Luck)
    requires WellFormed(w, m) && e in m.pending && ValidLuck(m.agents, m.shops, e, luck)
    requires forall a :: a in m.agents ==> a.memorySlots > 0
    ensures Conserved(m, Step(w, m, e, luck))
  {
    hide React, Goods, GoodEmission, Numbering, ValidLuck;
    var m' := Step(w, m, e, luck);
    ReactIsFine(w, m.agents, m.shops, e, luck);
    forall item
      ensures Goods(m', item) == Goods(m, item)
    {
      StepKeepsGoods(w, m, e, luck, item);
    }
  }

  // ------------------------------------------------------------- whole runs

  ghost predicate Moves(w: World, m: Market, e: Event, luck: Luck, m': Market)
  {
    && IsNext(e, m.pending) && ValidLuck(m.agents, m.shops, e, luck)
    && (forall a :: a in m.agents ==> a.memorySlots > 0) && m' == Step(w, m, e, luck)
  }

  /** Processing events es with luck ls leads through the states ms; SIM_END
      ends a run. */
  ghost predicate IsRun(w: World, ms: seq<Market>, es: seq<Event>, ls: seq<Luck>)
  {
    && |ms| == |es| + 1 && |ls| == |es|
    && (forall k :: 0 <= k < |es| ==> Moves(w, ms[k], es[k], ls[k], ms[k + 1]))
    && (forall k :: 0 <= k < |es| - 1 ==> !es[k].kind.SimEnd?)
  }

  lemma ConservedIsTransitive(a: Market, b: Market, c: Market)
    requires Conserved(a, b) && Conserved(b, c)
    ensures Conserved(a, c)
  {
    hide Goods;
  }

  /** Every state of every run is safe, has the goods and the money of the
      start, and is no earlier than the ones before; SIM_END stays pending until
      it is processed, and no event after maxTime is processed. */
  lemma {:induction false} RunIsSafe(w: World, agents: seq<Agent>, shops: seq<Shop>, ms: seq<Market>, es: seq<Event>,
                                     ls: seq<Luck>, k: nat)
    requires Fresh(w, agents, shops) && IsRun(w, ms, es, ls) && ms[0] == Initial(w, agents, shops) && k <= |es|
    ensures Safe(w, ms[k]) && Conserved(ms[0], ms[k])
    ensures k < |es| || k == 0 || !es[k - 1].kind.SimEnd? ==> End(w) in ms[k].pending
    ensures k > 0 ==> ms[k - 1].now <= ms[k].now == es[k - 1].time <= w.maxTime && es[0] == Start()
  {
    hide Safe, Conserved, Fresh, Step;
    InitialIsSafe(w, agents, shops);
    if k == 0 {
      SelfConserved(w, ms[0]);
    } else {
      RunIsSafe(w, agents, shops, ms, es, ls, k - 1);
      assert Moves(w, ms[k - 1], es[k - 1], ls[k - 1], ms[k]);
      assert Moves(w, ms[0], es[0], ls[0], ms[1]);
      StepIsSafe(w, ms[k - 1], es[k - 1], ls[k - 1]);
      ConservedIsTransitive(ms[0], ms[k - 1], ms[k]);
    }
  }

  /** No Zeno runs: an event is at most 60 t + 5 links away from the first one. */
  lemma ChainsAreShort(w: World, agents: seq<Agent>, shops: seq<Shop>, ms: seq<Market>, es: seq<Event>, ls: seq<Luck>,
                       k: nat, e: Event)
    requires Fresh(w, agents, shops) && IsRun(w, ms, es, ls) && ms[0] == Initial(w, agents, shops) && k <= |es|
    requires e in ms[k].pending
    ensures Depth(ms[k].parents, e.ordinal) as real <= 60.0 * e.time + 5.0
  {
    hide Fresh, IsRun, Conserved, WellFormed, Queues, Conversations, Framed, Lively, Depth;
    RunIsSafe(w, agents, shops, ms, es, ls, k);
  }

  lemma SelfConserved(w: World, m: Market)
    requires Safe(w, m)
    ensures Conserved(m, m)
  {
  }

  /** Two runs from one state with the same luck are the same run. */
  lemma {:induction false} RunIsDetermined(w: World, agents: seq<Agent>, shops: seq<Shop>, ms: seq<Market>,
                                           es: seq<Event>, ns: seq<Market>, fs: seq<Event>, ls: seq<Luck>, k: nat)
    requires Fresh(w, agents, shops) && IsRun(w, ms, es, ls) && IsRun(w, ns, fs, ls)
    requires ms[0] == ns[0] == Initial(w, agents, shops) && k <= |es|
    ensures ms[k] == ns[k] && es[..k] == fs[..k]
  {
    hide Fresh, Step, Safe, Conserved, IsNext, ValidLuck, Initial;
    if k > 0 {
      RunIsDetermined(w, agents, shops, ms, es, ns, fs, ls, k - 1);
      assert Moves(w, ms[k - 1], es[k - 1], ls[k - 1], ms[k]);
      assert Moves(w, ns[k - 1], fs[k - 1], ls[k - 1], ns[k]);
      RunIsSafe(w, agents, shops, ms, es, ls, k - 1);
      SafeIsNumbered(w, ms[k - 1]);
      NextIsUnique(ms[k - 1], es[k - 1], fs[k - 1]);
      assert es[..k] == es[..k - 1] + [es[k - 1]] && fs[..k] == fs[..k - 1] + [fs[k - 1]];
    }
  }

  lemma SafeIsNumbered(w: World, m: Market)
    requires Safe(w, m)
    ensures Numbering(m)
  {
  }
}

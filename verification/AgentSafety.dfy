/** Safety of whole agent-market runs: queues and conversations match the
    pending events, money and goods are conserved, time is monotone, the end of
    the simulation stays scheduled, and solvent agents stay active. */
module AgentSafety {
  import opened Optional
  import opened AgentMarket
  import opened AgentInvariants

  // --------------------------------------------------------------- queues

  ghost function PurchasesAt(pending: set<Event>, shop: int): set<Event>
  {
    set e | e in pending && e.kind.Purchase? && e.shop == shop
  }

  /** A shop's queue counts its pending purchases and respects its capacity. */
  ghost predicate QueueMatches(pending: set<Event>, shops: seq<Shop>, s: int)
    requires IsShop(shops, s)
  {
    && shops[s].queueSize == |PurchasesAt(pending, s)|
    && (shops[s].capacity > 0 ==> shops[s].queueSize <= shops[s].capacity)
  }

  ghost predicate Queues(m: Market)
  {
    forall s :: IsShop(m.shops, s) ==> QueueMatches(m.pending, m.shops, s)
  }

  lemma ReplaceCount(all: set<Event>, gone: set<Event>, added: set<Event>)
    requires gone <= all && added !! all
    ensures |all - gone + added| == |all| - |gone| + |added|
  {
    assert |all - gone + added| == |all - gone| + |added|;
    assert all == (all - gone) + gone;
  }

  /** Only entering a queue schedules a purchase, and only a purchase event
      takes one away. */
  lemma QueueEffect(w: World, m: Market, e: Event, luck: Luck)
    requires WellFormed(w, m) && e in m.pending && forall a :: a in m.agents ==> a.memorySlots > 0
    ensures var f := React(w, m.agents, m.shops, e, luck);
            var enters := e.kind.QueueEnter? && f.out[0].kind.Purchase?;
            && (e.kind.QueueEnter? ==> |f.out| == 1 && f.out[0].shop in {e.shop, -1})
            && (enters ==> f.out[0].shop == e.shop)
            && (!enters ==> forall x :: x in f.out ==> !x.kind.Purchase?)
            && |f.shops| == |m.shops|
            && forall s :: IsShop(m.shops, s) ==>
                 && f.shops[s].capacity == m.shops[s].capacity
                 && f.shops[s].queueSize == m.shops[s].queueSize +
                      (if enters && s == e.shop then 1
                       else if e.kind.Purchase? && s == e.shop && m.shops[s].queueSize > 0 then -1 else 0)
                 && (enters && s == e.shop && m.shops[s].capacity > 0 ==> m.shops[s].queueSize < m.shops[s].capacity)
  {
    hide Remembered, AddTagMemories, Observers, Talk;
    match e.kind
    case Purchase =>
      ObserverKinds(OnPurchase(m.agents, m.shops, e, luck.draw).agents, e, luck.draw);
    case _ =>
  }

  lemma ObserverKinds(agents: seq<Agent>, e: Event, draw: real)
    requires IsAgent(agents, e.agent)
    ensures forall x :: x in Observers(agents, e, |agents|) ==> x.kind.ObservePurchase?
    ensures forall x :: x in Talk(agents, e, draw) ==> x.kind.TalkStart?
  {
    ObserversOnlyObserve(agents, e, |agents|);
  }

  lemma {:induction false} ObserversOnlyObserve(agents: seq<Agent>, e: Event, n: nat)
    requires n <= |agents| && IsAgent(agents, e.agent)
    ensures forall x :: x in Observers(agents, e, n) ==> x.kind.ObservePurchase?
  {
    if n > 0 {
      ObserversOnlyObserve(agents, e, n - 1);
    }
  }

  lemma ScheduledPurchases(out: seq<Emission>, first: nat, parent: nat, s: int)
    ensures |out| == 1 && out[0].kind.Purchase? && out[0].shop == s ==>
              PurchasesAt(Scheduled(out, first, parent), s) == {Numbered(out[0], first, parent)}
    ensures (forall x :: x in out ==> !x.kind.Purchase? || x.shop != s) ==>
              PurchasesAt(Scheduled(out, first, parent), s) == {}
  {
    forall e | e in Scheduled(out, first, parent)
      ensures first <= e.ordinal < first + |out| && e == Numbered(out[e.ordinal - first], e.ordinal, parent)
    {
      ScheduledMember(out, first, parent, e);
    }
    if |out| == 1 {
      assert Numbered(out[0], first + 0, parent) in Scheduled(out, first, parent);
    }
  }

  lemma ScheduledIsNew(m: Market, out: seq<Emission>, parent: nat)
    requires Numbering(m)
    ensures Scheduled(out, |m.parents|, parent) !! m.pending
  {
    forall e | e in Scheduled(out, |m.parents|, parent)
      ensures e !in m.pending
    {
      ScheduledMember(out, |m.parents|, parent, e);
    }
  }

  /** One shop's queue across a step, given what the handler did. */
  lemma QueueKept(pending: set<Event>, e: Event, added: set<Event>, shops: seq<Shop>, shops': seq<Shop>, s: int,
                  change: int)
    requires IsShop(shops, s) && IsShop(shops', s) && QueueMatches(pending, shops, s) && e in pending
             && added !! pending
    requires shops'[s].capacity == shops[s].capacity && shops'[s].queueSize == shops[s].queueSize + change
    requires |PurchasesAt(added, s)| - (if e.kind.Purchase? && e.shop == s then 1 else 0) == change
    requires change <= 0 || (change == 1 && (shops[s].capacity > 0 ==> shops[s].queueSize < shops[s].capacity))
    ensures QueueMatches(pending - {e} + added, shops', s)
  {
    var gone := if e.kind.Purchase? && e.shop == s then {e} else {};
    assert PurchasesAt(pending - {e} + added, s) == PurchasesAt(pending, s) - gone + PurchasesAt(added, s);
    ReplaceCount(PurchasesAt(pending, s), gone, PurchasesAt(added, s));
  }

  lemma PurchaseIsQueued(pending: set<Event>, shops: seq<Shop>, e: Event)
    requires e in pending && e.kind.Purchase? && IsShop(shops, e.shop) && QueueMatches(pending, shops, e.shop)
    ensures shops[e.shop].queueSize > 0
  {
    assert e in PurchasesAt(pending, e.shop);
  }

  lemma StepKeepsQueues(w: World, m: Market, e: Event, luck: Luck)
    requires WellFormed(w, m) && Queues(m) && e in m.pending
    requires forall a :: a in m.agents ==> a.memorySlots > 0
    ensures Queues(Step(w, m, e, luck))
    ensures e.kind.Purchase? ==> m.shops[e.shop].queueSize > 0
  {
    hide React, Scheduled, Numbering, QueueMatches, PurchasesAt, People;
    var f := React(w, m.agents, m.shops, e, luck);
    var m' := Step(w, m, e, luck);
    QueueEffect(w, m, e, luck);
    ScheduledIsNew(m, f.out, e.ordinal);
    if e.kind.Purchase? {
      PurchaseIsQueued(m.pending, m.shops, e);
    }
    forall s | IsShop(m'.shops, s)
      ensures QueueMatches(m'.pending, m'.shops, s)
    {
      ScheduledPurchases(f.out, |m.parents|, e.ordinal, s);
      QueueKept(m.pending, e, Scheduled(f.out, |m.parents|, e.ordinal), m.shops, m'.shops, s,
                m'.shops[s].queueSize - m.shops[s].queueSize);
    }
  }

  // -------------------------------------------------------- conversations

  /** The pending ends of conversations in which agent i takes part. */
  ghost function TalkEnds(pending: set<Event>, i: int): set<Event>
  {
    set e | e in pending && e.kind.TalkEnd? && (e.agent == i || e.source == i)
  }

  /** Partners are paired symmetrically, and each pair has one pending end. */
  ghost predicate TalkMatches(pending: set<Event>, agents: seq<Agent>, i: int)
    requires IsAgent(agents, i)
  {
    var p := agents[i].partner;
    if agents[i].inConversation then
      && IsAgent(agents, p) && p != i && agents[p].inConversation && agents[p].partner == i
      && |TalkEnds(pending, i)| == 1
      && forall e :: e in TalkEnds(pending, i) ==> {e.agent, e.source} == {i, p}
    else
      p == -1 && TalkEnds(pending, i) == {}
  }

  ghost predicate Conversations(m: Market)
  {
    forall i :: IsAgent(m.agents, i) ==> TalkMatches(m.pending, m.agents, i)
  }

  predicate SameTalk(a: Agent, b: Agent)
  {
    a.inConversation == b.inConversation && a.partner == b.partner
  }

  lemma {:induction false} AddTagMemoriesTalk(a: Agent, tags: seq<string>, strength: real, expires: real, source: int,
                                              parent: nat)
    requires a.memorySlots > 0
    ensures SameTalk(a, AddTagMemories(a, tags, strength, expires, source, parent))
  {
    if tags != [] {
      AddTagMemoriesTalk(a, tags[..|tags| - 1], strength, expires, source, parent);
    }
  }

  predicate Begins(agents: seq<Agent>, e: Event)
    requires IsAgent(agents, e.agent) && IsAgent(agents, e.source)
  {
    e.kind.TalkStart? && !agents[e.agent].inConversation && !agents[e.source].inConversation
  }

  /** Conversations change only by starting and ending. */
  lemma QuietEffect(w: World, agents: seq<Agent>, shops: seq<Shop>, e: Event, luck: Luck)
    requires ValidEvent(w, agents, shops, e) && forall a :: a in agents ==> a.memorySlots > 0
    requires !e.kind.TalkEnd? && (e.kind.TalkStart? ==> !Begins(agents, e))
    ensures var f := React(w, agents, shops, e, luck);
            && |f.agents| == |agents|
            && (forall i :: IsAgent(agents, i) ==> SameTalk(agents[i], f.agents[i]))
            && (forall x :: x in f.out ==> !x.kind.TalkEnd?)
  {
    hide Remembered, AddTagMemories, Observers, Talk, AddMemory;
    match e.kind
    case Purchase => ObserverKinds(OnPurchase(agents, shops, e, luck.draw).agents, e, luck.draw);
    case ObservePurchase =>
      var a := agents[e.agent];
      var signal := 0.4 + a.susceptibility * 0.6;
      var seen := a.(observed := a.observed + 1, influence := a.influence + signal);
      var m := Memory(e.item, "", signal, e.time + 5.0, e.source, e.ordinal);
      AddMemoryTalk(seen, m);
      AddTagMemoriesTalk(AddMemory(seen, m), w.itemTags[e.item], signal * 0.5, e.time + 5.0, e.source, e.ordinal);
    case _ =>
  }

  lemma AddMemoryTalk(a: Agent, m: Memory)
    requires a.memorySlots > 0
    ensures SameTalk(a, AddMemory(a, m)) && AddMemory(a, m).memorySlots > 0
  {
  }

  lemma TalkFrame(pending: set<Event>, pending': set<Event>, agents: seq<Agent>, agents': seq<Agent>, i: int)
    requires |agents'| == |agents| && IsAgent(agents, i) && TalkMatches(pending, agents, i)
    requires SameTalk(agents[i], agents'[i])
    requires agents[i].inConversation ==> SameTalk(agents[agents[i].partner], agents'[agents[i].partner])
    requires TalkEnds(pending', i) == TalkEnds(pending, i)
    ensures TalkMatches(pending', agents', i)
  {
  }

  lemma QuietEnds(pending: set<Event>, e: Event, added: set<Event>, i: int)
    requires forall x :: x in added && x.kind.TalkEnd? ==> x.agent != i && x.source != i
    requires e.kind.TalkEnd? ==> e.agent != i && e.source != i
    ensures TalkEnds(pending - {e} + added, i) == TalkEnds(pending, i)
  {
  }

  lemma ScheduledKinds(out: seq<Emission>, first: nat, parent: nat)
    requires forall x :: x in out ==> !x.kind.TalkEnd?
    ensures forall y :: y in Scheduled(out, first, parent) ==> !y.kind.TalkEnd?
  {
    forall y | y in Scheduled(out, first, parent)
      ensures !y.kind.TalkEnd?
    {
      ScheduledMember(out, first, parent, y);
    }
  }

  lemma QuietKeepsTalk(w: World, m: Market, e: Event, luck: Luck)
    requires ValidEvent(w, m.agents, m.shops, e) && forall a :: a in m.agents ==> a.memorySlots > 0
    requires !e.kind.TalkEnd? && (e.kind.TalkStart? ==> !Begins(m.agents, e)) && Conversations(m)
    ensures Conversations(Step(w, m, e, luck))
  {
    hide React, Scheduled, TalkEnds;
    var f := React(w, m.agents, m.shops, e, luck);
    var m' := Step(w, m, e, luck);
    QuietEffect(w, m.agents, m.shops, e, luck);
    ScheduledKinds(f.out, |m.parents|, e.ordinal);
    forall i | IsAgent(m'.agents, i)
      ensures TalkMatches(m'.pending, m'.agents, i)
    {
      QuietEnds(m.pending, e, Scheduled(f.out, |m.parents|, e.ordinal), i);
      TalkFrame(m.pending, m'.pending, m.agents, m'.agents, i);
    }
  }

  lemma BeginKeepsTalk(w: World, m: Market, e: Event, luck: Luck)
    requires ValidEvent(w, m.agents, m.shops, e) && forall a :: a in m.agents ==> a.memorySlots > 0
    requires e.kind.TalkStart? && Begins(m.agents, e) && Conversations(m)
    ensures Conversations(Step(w, m, e, luck))
  {
    hide Scheduled, TalkEnds;
    var f := OnTalkStart(m.agents, m.shops, e, luck.draw);
    var m' := Step(w, m, e, luck);
    var y := Numbered(f.out[0], |m.parents|, e.ordinal);
    ScheduledOne(f.out, |m.parents|, e.ordinal);
    assert m'.pending == m.pending - {e} + {y};
    forall i | IsAgent(m'.agents, i)
      ensures TalkMatches(m'.pending, m'.agents, i)
    {
      assert TalkMatches(m.pending, m.agents, i);
      if i == e.agent || i == e.source {
        FirstEnd(m.pending, e, y, i);
      } else {
        QuietEnds(m.pending, e, {y}, i);
        TalkFrame(m.pending, m'.pending, m.agents, m'.agents, i);
      }
    }
  }

  lemma ScheduledOne(out: seq<Emission>, first: nat, parent: nat)
    requires |out| == 1
    ensures Scheduled(out, first, parent) == {Numbered(out[0], first, parent)}
  {
    assert Numbered(out[0], first + 0, parent) in Scheduled(out, first, parent);
  }

  lemma FirstEnd(pending: set<Event>, e: Event, y: Event, i: int)
    requires TalkEnds(pending, i) == {} && y.kind.TalkEnd? && (y.agent == i || y.source == i)
    ensures TalkEnds(pending - {e} + {y}, i) == {y}
  {
    forall x | x in TalkEnds(pending - {e} + {y}, i)
      ensures x == y
    {
      assert x != y ==> x in TalkEnds(pending, i);
    }
  }

  /** A pending end names two agents talking to each other. */
  lemma EndIsCurrent(pending: set<Event>, agents: seq<Agent>, e: Event)
    requires e in pending && e.kind.TalkEnd? && IsAgent(agents, e.agent) && IsAgent(agents, e.source)
             && e.agent != e.source
    requires TalkMatches(pending, agents, e.agent) && TalkMatches(pending, agents, e.source)
    ensures agents[e.agent].inConversation && agents[e.agent].partner == e.source
    ensures agents[e.source].inConversation && agents[e.source].partner == e.agent
    ensures TalkEnds(pending, e.agent) == {e} && TalkEnds(pending, e.source) == {e}
  {
    forall i | i == e.agent || i == e.source
      ensures TalkEnds(pending, i) == {e}
    {
      assert e in TalkEnds(pending, i);
      assert |TalkEnds(pending, i) - {e}| == 0;
    }
    assert e.source in {e.agent, e.source} && e.agent in {e.agent, e.source};
  }

  lemma LastEnd(pending: set<Event>, e: Event, added: set<Event>, i: int)
    requires TalkEnds(pending, i) == {e} && forall x :: x in added ==> !x.kind.TalkEnd?
    ensures TalkEnds(pending - {e} + added, i) == {}
  {
    assert TalkEnds(pending - {e} + added, i) <= TalkEnds(pending, i) - {e};
  }

  lemma EndEffect(agents: seq<Agent>, shops: seq<Shop>, e: Event)
    requires IsAgent(agents, e.agent) && IsAgent(agents, e.source) && e.agent != e.source
    requires forall a :: a in agents ==> a.memorySlots > 0
    ensures var f := OnTalkEnd(agents, shops, e);
            && |f.agents| == |agents| && (forall x :: x in f.out ==> !x.kind.TalkEnd?)
            && (forall i :: IsAgent(agents, i) ==>
                 if i == e.agent || i == e.source then !f.agents[i].inConversation && f.agents[i].partner == -1
                 else f.agents[i] == agents[i])
  {
  }

  lemma EndKeepsTalk(w: World, m: Market, e: Event, luck: Luck)
    requires ValidEvent(w, m.agents, m.shops, e) && forall a :: a in m.agents ==> a.memorySlots > 0
    requires e.kind.TalkEnd? && e in m.pending && Conversations(m)
    ensures Conversations(Step(w, m, e, luck))
  {
    hide Scheduled, TalkEnds, OnTalkEnd;
    var f := OnTalkEnd(m.agents, m.shops, e);
    var m' := Step(w, m, e, luck);
    var added := Scheduled(f.out, |m.parents|, e.ordinal);
    EndEffect(m.agents, m.shops, e);
    ScheduledKinds(f.out, |m.parents|, e.ordinal);
    EndIsCurrent(m.pending, m.agents, e);
    forall i | IsAgent(m'.agents, i)
      ensures TalkMatches(m'.pending, m'.agents, i)
    {
      assert TalkMatches(m.pending, m.agents, i);
      if i == e.agent || i == e.source {
        LastEnd(m.pending, e, added, i);
      } else {
        QuietEnds(m.pending, e, added, i);
        TalkFrame(m.pending, m'.pending, m.agents, m'.agents, i);
      }
    }
  }

  lemma StepKeepsConversations(w: World, m: Market, e: Event, luck: Luck)
    requires WellFormed(w, m) && e in m.pending && Conversations(m)
    requires forall a :: a in m.agents ==> a.memorySlots > 0
    ensures Conversations(Step(w, m, e, luck))
  {
    hide React, Conversations, Step, People, Numbering;
    if e.kind.TalkEnd? {
      EndKeepsTalk(w, m, e, luck);
    } else if e.kind.TalkStart? && Begins(m.agents, e) {
      BeginKeepsTalk(w, m, e, luck);
    } else {
      QuietKeepsTalk(w, m, e, luck);
    }
  }

  // --------------------------------------------------------- conservation

  function Sum(values: seq<int>): int
  {
    if values == [] then 0 else Sum(values[..|values| - 1]) + values[|values| - 1]
  }

  lemma {:induction false} SumUpdate(values: seq<int>, k: nat, v: int)
    requires k < |values|
    ensures Sum(values[k := v]) == Sum(values) - values[k] + v
  {
    var n := |values| - 1;
    if k == n {
      assert values[k := v][..n] == values[..n];
    } else {
      assert values[k := v][..n] == values[..n][k := v];
      SumUpdate(values[..n], k, v);
    }
  }

  function StockOf(s: Shop, item: int): int
  {
    if item in s.inventory then s.inventory[item].stock else 0
  }

  /** What each shop has of an item, and how often each agent bought it. */
  function Levels(shops: seq<Shop>, item: int): seq<int>
  {
    seq(|shops|, i requires 0 <= i < |shops| => StockOf(shops[i], item))
  }

  function Counts(agents: seq<Agent>, item: int): seq<int>
  {
    seq(|agents|, i requires 0 <= i < |agents| => multiset(agents[i].purchases)[item])
  }

  /** All there is of an item: in the shops and bought. */
  function Goods(m: Market, item: int): int
  {
    Sum(Levels(m.shops, item)) + Sum(Counts(m.agents, item))
  }

  predicate Sells(agents: seq<Agent>, shops: seq<Shop>, e: Event)
  {
    e.kind.Purchase? && IsAgent(agents, e.agent) && e.item >= 0 && CanBuy(agents, shops, e.agent, e.item, e.shop)
  }

  lemma {:induction false} AddTagMemoriesPurchases(a: Agent, tags: seq<string>, strength: real, expires: real,
                                                   source: int, parent: nat)
    requires a.memorySlots > 0
    ensures AddTagMemories(a, tags, strength, expires, source, parent).purchases == a.purchases
  {
    if tags != [] {
      AddTagMemoriesPurchases(a, tags[..|tags| - 1], strength, expires, source, parent);
    }
  }

  /** Goods move only in a sale, and then one unit from the shop to the buyer. */
  lemma GoodsEffect(w: World, agents: seq<Agent>, shops: seq<Shop>, e: Event, luck: Luck)
    requires forall a :: a in agents ==> a.memorySlots > 0
    ensures var f := React(w, agents, shops, e, luck);
            var sale := Sells(agents, shops, e);
            && |f.agents| == |agents| && |f.shops| == |shops|
            && (forall i :: IsAgent(agents, i) ==>
                 f.agents[i].purchases == agents[i].purchases + if sale && i == e.agent then [e.item] else [])
            && (forall s :: IsShop(shops, s) ==>
                 && f.shops[s].inventory.Keys == shops[s].inventory.Keys
                 && forall item :: item in shops[s].inventory ==>
                      f.shops[s].inventory[item].stock == shops[s].inventory[item].stock
                        - if sale && s == e.shop && item == e.item then 1 else 0)
  {
    hide Remembered, AddTagMemories, Observers, Talk, AddMemory;
    match e.kind
    case ObservePurchase =>
      if IsAgent(agents, e.agent) && 0 <= e.item < |w.itemTags| && e.source >= 0 {
        var a := agents[e.agent];
        var signal := 0.4 + a.susceptibility * 0.6;
        var seen := a.(observed := a.observed + 1, influence := a.influence + signal);
        var m := Memory(e.item, "", signal, e.time + 5.0, e.source, e.ordinal);
        AddMemoryPurchases(seen, m);
        AddTagMemoriesPurchases(AddMemory(seen, m), w.itemTags[e.item], signal * 0.5, e.time + 5.0, e.source,
                                e.ordinal);
      }
    case TalkEnd => TalkEndGoods(agents, shops, e);
    case _ =>
  }

  lemma TalkEndGoods(agents: seq<Agent>, shops: seq<Shop>, e: Event)
    requires forall a :: a in agents ==> a.memorySlots > 0
    ensures var f := OnTalkEnd(agents, shops, e);
            && |f.agents| == |agents| && f.shops == shops
            && forall i :: IsAgent(agents, i) ==> f.agents[i].purchases == agents[i].purchases
  {
  }

  lemma AddMemoryPurchases(a: Agent, m: Memory)
    requires a.memorySlots > 0
    ensures AddMemory(a, m).purchases == a.purchases && AddMemory(a, m).memorySlots > 0
  {
  }

  lemma LevelsAfter(shops: seq<Shop>, shops': seq<Shop>, sale: bool, at: int, sold: int, item: int)
    requires |shops'| == |shops| && (sale ==> IsShop(shops, at) && sold in shops[at].inventory)
    requires forall s :: IsShop(shops, s) ==>
               && shops'[s].inventory.Keys == shops[s].inventory.Keys
               && forall i :: i in shops[s].inventory ==>
                    shops'[s].inventory[i].stock
                    == shops[s].inventory[i].stock - if sale && s == at && i == sold then 1 else 0
    ensures Sum(Levels(shops', item)) == Sum(Levels(shops, item)) - if sale && sold == item then 1 else 0
  {
    hide Sum;
    var levels := Levels(shops, item);
    if sale && sold == item {
      SumUpdate(levels, at, levels[at] - 1);
      assert Levels(shops', item) == levels[at := levels[at] - 1];
    } else {
      assert Levels(shops', item) == levels;
    }
  }

  lemma CountsAfter(agents: seq<Agent>, agents': seq<Agent>, sale: bool, buyer: int, sold: int, item: int)
    requires |agents'| == |agents| && (sale ==> IsAgent(agents, buyer))
    requires forall i :: IsAgent(agents, i) ==>
               agents'[i].purchases == agents[i].purchases + if sale && i == buyer then [sold] else []
    ensures Sum(Counts(agents', item)) == Sum(Counts(agents, item)) + if sale && sold == item then 1 else 0
  {
    hide Sum;
    var counts := Counts(agents, item);
    if sale && sold == item {
      SumUpdate(counts, buyer, counts[buyer] + 1);
      assert Counts(agents', item) == counts[buyer := counts[buyer] + 1];
    } else {
      assert Counts(agents', item) == counts;
    }
  }

  /** Selling moves a unit from the shelf to the buyer; nothing else moves. */
  lemma StepKeepsGoods(w: World, m: Market, e: Event, luck: Luck, item: int)
    requires forall a :: a in m.agents ==> a.memorySlots > 0
    ensures Goods(Step(w, m, e, luck), item) == Goods(m, item)
  {
    hide React, Sum, Scheduled, Repeat, Levels, Counts;
    var m' := Step(w, m, e, luck);
    var sale := Sells(m.agents, m.shops, e);
    GoodsEffect(w, m.agents, m.shops, e, luck);
    LevelsAfter(m.shops, m'.shops, sale, e.shop, e.item, item);
    CountsAfter(m.agents, m'.agents, sale, e.agent, e.item, item);
  }

  // ------------------------------------------------ the end, and liveness

  /** The two events scheduled before the loop. */
  function Start(): Event
  {
    Event(0.0, 100, 1, SimStart, -1, -1, -1, -1, 0, 0.0)
  }

  function End(w: World): Event
  {
    Event(w.maxTime, -100, 2, SimEnd, -1, -1, -1, -1, 0, 0.0)
  }

  ghost predicate Framed(w: World, m: Market)
  {
    forall e :: e in m.pending ==> (e.kind.SimStart? ==> e == Start()) && (e.kind.SimEnd? ==> e == End(w))
  }

  predicate Drives(k: Kind)
  {
    k.DecidePurchase? || k.MoveStart? || k.MoveArrive? || k.QueueEnter? || k.Purchase?
  }

  ghost predicate Driven(pending: set<Event>, i: int)
  {
    exists e :: e in pending && Drives(e.kind) && e.agent == i
  }

  /** Once SIM_START is over, every solvent agent has something to do. */
  ghost predicate Lively(m: Market)
  {
    Start() in m.pending || forall i :: IsAgent(m.agents, i) && m.agents[i].budget > 0.01 ==> Driven(m.pending, i)
  }

  lemma StepKeepsFrame(w: World, m: Market, e: Event, luck: Luck)
    requires WellFormed(w, m) && e in m.pending && Framed(w, m) && ValidLuck(m.agents, m.shops, e, luck)
    requires forall a :: a in m.agents ==> a.memorySlots > 0
    ensures Framed(w, Step(w, m, e, luck))
    ensures !e.kind.SimEnd? && End(w) in m.pending ==> End(w) in Step(w, m, e, luck).pending
  {
    hide React, People, Numbering, ValidEvent, ValidFields;
    var f := React(w, m.agents, m.shops, e, luck);
    ReactIsFine(w, m.agents, m.shops, e, luck);
    forall x | x in Scheduled(f.out, |m.parents|, e.ordinal)
      ensures !x.kind.SimStart? && !x.kind.SimEnd?
    {
      ScheduledMember(f.out, |m.parents|, e.ordinal, x);
      assert GoodEmission(w, m.agents, m.shops, e, f.out[x.ordinal - |m.parents|]);
    }
  }

  /** A driving event hands over to another one for the same agent, unless the
      agent has run out of money. */
  lemma DriveGoesOn(w: World, agents: seq<Agent>, shops: seq<Shop>, e: Event, luck: Luck)
    requires People(w, agents, shops) && ValidEvent(w, agents, shops, e) && Drives(e.kind)
    requires forall a :: a in agents ==> a.memorySlots > 0
    ensures var f := React(w, agents, shops, e, luck);
            |f.agents| == |agents| &&
            (f.agents[e.agent].budget > 0.01 ==>
              exists k :: 0 <= k < |f.out| && Drives(f.out[k].kind) && f.out[k].agent == e.agent)
  {
    hide Remembered, Observers, Talk, TravelTime;
    var f := React(w, agents, shops, e, luck);
    if f.agents[e.agent].budget > 0.01 {
      var k := |f.out| - 1;
      assert !e.kind.DecidePurchase? ==> ValidShop(w, shops[e.shop]);
      assert Drives(f.out[k].kind) && f.out[k].agent == e.agent;
    }
  }

  lemma DriveIsScheduled(out: seq<Emission>, first: nat, parent: nat, k: nat)
    requires k < |out| && Drives(out[k].kind)
    ensures Driven(Scheduled(out, first, parent), out[k].agent)
  {
    assert Numbered(out[k], first + k, parent) in Scheduled(out, first, parent);
  }

  lemma DrivenKeeps(pending: set<Event>, e: Event, added: set<Event>, i: int)
    requires Driven(pending, i) || Driven(added, i)
    requires Driven(added, i) || !(Drives(e.kind) && e.agent == i)
    ensures Driven(pending - {e} + added, i)
  {
    if Driven(added, i) {
      var x :| x in added && Drives(x.kind) && x.agent == i;
      assert x in pending - {e} + added;
    } else {
      var x :| x in pending && Drives(x.kind) && x.agent == i;
      assert x in pending - {e} + added;
    }
  }

  lemma StartDrives(w: World, m: Market, luck: Luck, i: int)
    requires IsAgent(m.agents, i) && forall a :: a in m.agents ==> a.memorySlots > 0
    ensures Driven(Step(w, m, Start(), luck).pending, i)
  {
    hide Scheduled, Driven;
    var out := OnSimStart(m.agents, m.shops).out;
    DriveIsScheduled(out, |m.parents|, Start().ordinal, i);
    DrivenKeeps(m.pending, Start(), Scheduled(out, |m.parents|, Start().ordinal), i);
  }

  lemma StepKeepsLively(w: World, m: Market, e: Event, luck: Luck)
    requires WellFormed(w, m) && e in m.pending && Framed(w, m) && Lively(m) && ValidLuck(m.agents, m.shops, e, luck)
    requires forall a :: a in m.agents ==> a.memorySlots > 0
    ensures Lively(Step(w, m, e, luck))
  {
    hide React, Driven, Scheduled, People, Numbering, ValidEvent, ValidFields, GoodEmission;
    var f := React(w, m.agents, m.shops, e, luck);
    var m' := Step(w, m, e, luck);
    var added := Scheduled(f.out, |m.parents|, e.ordinal);
    ReactIsFine(w, m.agents, m.shops, e, luck);
    if Start() !in m'.pending {
      forall i | IsAgent(m'.agents, i) && m'.agents[i].budget > 0.01
        ensures Driven(m'.pending, i)
      {
        assert AgentKept(m.agents[i], m'.agents[i]);
        if e == Start() {
          StartDrives(w, m, luck, i);
        } else if Drives(e.kind) && e.agent == i {
          DriveGoesOn(w, m.agents, m.shops, e, luck);
          var k :| 0 <= k < |f.out| && Drives(f.out[k].kind) && f.out[k].agent == e.agent;
          DriveIsScheduled(f.out, |m.parents|, e.ordinal, k);
          DrivenKeeps(m.pending, e, added, i);
        } else {
          DrivenKeeps(m.pending, e, added, i);
        }
      }
    }
  }
}

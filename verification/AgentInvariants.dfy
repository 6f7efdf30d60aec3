/** What every step of the agent market keeps: indices, queues, conversations,
    causal depth, money and stock, and the events that must be pending. */
module AgentInvariants {
  import opened Optional
  import opened AgentMarket

  // ------------------------------------------------------ well-formed states

  /** What the validator establishes about the fixed part of a scenario. */
  ghost predicate ValidWorld(w: World)
  {
    w.maxTime > 0.0 && forall a, b :: w.distance(a, b) >= 0.0
  }

  ghost predicate ValidAgent(a: Agent)
  {
    a.memorySlots > 0 && |a.memories| <= a.memorySlots && a.budget >= 0.0
  }

  ghost predicate ValidShop(w: World, s: Shop)
  {
    && s.serviceTime >= 0.0
    && forall item :: item in s.inventory ==>
         0 <= item < |w.itemTags| && s.inventory[item].price >= 0.0 && s.inventory[item].stock >= 0
  }

  /** The indices an event of each kind carries. */
  ghost predicate ValidFields(w: World, agents: seq<Agent>, shops: seq<Shop>, kind: Kind, agent: int, source: int,
                              shop: int, item: int)
  {
    match kind
    case SimStart => true
    case SimEnd => true
    case DecidePurchase => IsAgent(agents, agent)
    case InfluenceDecay => IsAgent(agents, agent)
    case ObservePurchase => IsAgent(agents, agent) && IsAgent(agents, source) && 0 <= item < |w.itemTags|
    case TalkStart => IsAgent(agents, agent) && IsAgent(agents, source) && agent != source
    case TalkEnd => IsAgent(agents, agent) && IsAgent(agents, source) && agent != source
    case _ => IsAgent(agents, agent) && IsShop(shops, shop) && item in shops[shop].inventory
  }

  ghost predicate ValidEvent(w: World, agents: seq<Agent>, shops: seq<Shop>, e: Event)
  {
    && ValidFields(w, agents, shops, e.kind, e.agent, e.source, e.shop, e.item)
    && (e.kind.SimStart? ==> e.time == 0.0)
  }

  ghost predicate People(w: World, agents: seq<Agent>, shops: seq<Shop>)
  {
    && (forall i :: 0 <= i < |agents| ==> ValidAgent(agents[i]))
    && (forall i :: 0 <= i < |shops| ==> ValidShop(w, shops[i]))
  }

  /** Ordinals number the events, and parents are older than their children. */
  ghost predicate Numbering(m: Market)
  {
    && |m.parents| > 0 && (forall o :: 0 < o < |m.parents| ==> m.parents[o] < o)
    && (forall e :: e in m.pending ==> 0 < e.ordinal < |m.parents| && e.parent == m.parents[e.ordinal])
    && (forall a, b :: a in m.pending && b in m.pending && a.ordinal == b.ordinal ==> a == b)
  }

  ghost predicate WellFormed(w: World, m: Market)
  {
    && ValidWorld(w) && People(w, m.agents, m.shops) && Numbering(m)
    && (forall e :: e in m.pending ==> ValidEvent(w, m.agents, m.shops, e) && e.time >= m.now)
  }

  // ----------------------------------------------------- what a handler does

  /** How far a kind of event may lie behind 60 per unit of time. */
  function Slack(k: Kind): int
  {
    match k
    case DecidePurchase => 1
    case MoveStart => 2
    case MoveArrive => 3
    case QueueEnter => 4
    case Purchase => 5
    case _ => 0
  }

  ghost predicate GoodEmission(w: World, agents: seq<Agent>, shops: seq<Shop>, e: Event, x: Emission)
  {
    && ValidFields(w, agents, shops, x.kind, x.agent, x.source, x.shop, x.item)
    && !x.kind.SimStart? && !x.kind.SimEnd?
    && x.time >= e.time
    && 60.0 * (x.time - e.time) + Slack(x.kind) as real >= Slack(e.kind) as real + 1.0
  }

  ghost predicate AgentKept(a: Agent, b: Agent)
  {
    && ValidAgent(b) && b.memorySlots == a.memorySlots
    && b.budget + b.moneySpent == a.budget + a.moneySpent && b.budget <= a.budget
  }

  ghost predicate ShopKept(w: World, a: Shop, b: Shop)
  {
    && ValidShop(w, b) && b.inventory.Keys == a.inventory.Keys && b.capacity == a.capacity
  }

  ghost predicate Fine(w: World, agents: seq<Agent>, shops: seq<Shop>, e: Event, f: Effect)
  {
    && |f.agents| == |agents| && |f.shops| == |shops|
    && (forall i :: 0 <= i < |agents| ==> AgentKept(agents[i], f.agents[i]))
    && (forall i :: 0 <= i < |shops| ==> ShopKept(w, shops[i], f.shops[i]))
    && (forall x :: x in f.out ==> GoodEmission(w, agents, shops, e, x))
  }

  ghost predicate ValidLuck(agents: seq<Agent>, shops: seq<Shop>, e: Event, luck: Luck)
  {
    && 0.0 <= luck.draw < 1.0
    && (e.kind.DecidePurchase? && IsAgent(agents, e.agent) ==> FairChoice(agents, shops, e.agent, luck.choice))
  }

  lemma {:induction false} RememberedIsShorter(memories: seq<Memory>, now: real)
    ensures |Remembered(memories, now)| <= |memories|
    ensures forall x :: x in Remembered(memories, now) <==> x in memories && x.expires > now
  {
    if memories != [] {
      var init, last := memories[..|memories| - 1], memories[|memories| - 1];
      assert memories == init + [last];
      RememberedIsShorter(init, now);
    }
  }

  lemma AddMemoryKeeps(a: Agent, m: Memory)
    requires ValidAgent(a)
    ensures AgentKept(a, AddMemory(a, m)) && AddMemory(a, m) == a.(memories := AddMemory(a, m).memories)
  {
  }

  lemma {:induction false} AddTagMemoriesKeeps(a: Agent, tags: seq<string>, strength: real, expires: real,
                                               source: int, parent: nat)
    requires ValidAgent(a)
    ensures var b := AddTagMemories(a, tags, strength, expires, source, parent);
            AgentKept(a, b) && b == a.(memories := b.memories)
  {
    if tags != [] {
      var n := |tags| - 1;
      AddTagMemoriesKeeps(a, tags[..n], strength, expires, source, parent);
    }
  }

  lemma {:induction false} ObserversAreGood(w: World, agents: seq<Agent>, shops: seq<Shop>, e: Event, n: nat)
    requires n <= |agents| && IsAgent(agents, e.agent) && 0 <= e.item < |w.itemTags| && e.kind.Purchase?
    ensures forall x :: x in Observers(agents, e, n) ==> x.kind.ObservePurchase? && GoodEmission(w, agents, shops, e, x)
  {
    if n > 0 {
      ObserversAreGood(w, agents, shops, e, n - 1);
    }
  }

  lemma {:induction false} NearbyIsAnother(agents: seq<Agent>, a: int, k: nat)
    requires IsAgent(agents, a) && k <= |agents|
    ensures var b := Nearby(agents, a, k);
            b == -1 || (IsAgent(agents, b) && b != a && agents[b].location == agents[a].location)
    ensures Nearby(agents, a, k) == -1 ==>
              forall c :: k <= c < |agents| && c != a ==> agents[c].location != agents[a].location
    decreases |agents| - k
  {
    if k < |agents| {
      NearbyIsAnother(agents, a, k + 1);
    }
  }

  lemma ProductOfFractions(a: real, b: real)
    requires a >= 0.0 && b > 0.0
    ensures a / b >= 0.0
  {
  }

  lemma MoveStartIsFine(w: World, agents: seq<Agent>, shops: seq<Shop>, e: Event, draw: real)
    requires ValidWorld(w) && People(w, agents, shops) && ValidEvent(w, agents, shops, e) && e.kind.MoveStart?
    requires 0.0 <= draw < 1.0
    ensures Fine(w, agents, shops, e, OnMoveStart(w, agents, shops, e, draw))
  {
    var a, s := agents[e.agent], shops[e.shop];
    ProductOfFractions(w.distance(a.location, s.location), Max(0.1, a.movementSpeed));
  }

  lemma PurchaseEmits(w: World, agents: seq<Agent>, shops: seq<Shop>, e: Event, agents': seq<Agent>, draw: real,
                      again: bool)
    requires |agents'| == |agents| && ValidEvent(w, agents, shops, e) && e.kind.Purchase? && 0 <= e.item < |w.itemTags|
    ensures var last := if again then [Decide(e.time + 1.0, 5, e.agent)] else [];
            var out := Observers(agents', e, |agents'|) + Talk(agents', e, draw) + last;
            forall x :: x in out ==> GoodEmission(w, agents, shops, e, x)
  {
    hide Observers, Nearby;
    ObserversAreGood(w, agents', shops, e, |agents'|);
    NearbyIsAnother(agents', e.agent, 0);
    forall x | x in Observers(agents', e, |agents'|)
      ensures GoodEmission(w, agents, shops, e, x)
    {
      assert GoodEmission(w, agents', shops, e, x);
    }
  }

  lemma PurchaseIsFine(w: World, agents: seq<Agent>, shops: seq<Shop>, e: Event, draw: real)
    requires People(w, agents, shops) && ValidEvent(w, agents, shops, e) && e.kind.Purchase?
    ensures Fine(w, agents, shops, e, OnPurchase(agents, shops, e, draw))
  {
    hide GoodEmission, Observers, Talk;
    var f := OnPurchase(agents, shops, e, draw);
    assert ValidShop(w, shops[e.shop]);
    PurchaseEmits(w, agents, shops, e, f.agents, draw, f.agents[e.agent].budget > 0.01);
    DecideIsGood(w, agents, shops, e, 1.0, 5, e.agent);
  }

  lemma DecideIsGood(w: World, agents: seq<Agent>, shops: seq<Shop>, e: Event, delay: real, priority: int, agent: int)
    requires IsAgent(agents, agent) && delay >= 0.1
    ensures GoodEmission(w, agents, shops, e, Decide(e.time + delay, priority, agent))
  {
  }

  lemma ObserveIsFine(w: World, agents: seq<Agent>, shops: seq<Shop>, e: Event)
    requires People(w, agents, shops) && ValidEvent(w, agents, shops, e) && e.kind.ObservePurchase?
    requires forall a :: a in agents ==> a.memorySlots > 0
    ensures Fine(w, agents, shops, e, OnObserve(w, agents, shops, e))
  {
    var a := agents[e.agent];
    var signal := 0.4 + a.susceptibility * 0.6;
    var seen := a.(observed := a.observed + 1, influence := a.influence + signal);
    var m := Memory(e.item, "", signal, e.time + 5.0, e.source, e.ordinal);
    AddMemoryKeeps(seen, m);
    AddTagMemoriesKeeps(AddMemory(seen, m), w.itemTags[e.item], signal * 0.5, e.time + 5.0, e.source, e.ordinal);
  }

  lemma SimStartIsFine(w: World, agents: seq<Agent>, shops: seq<Shop>, e: Event)
    requires People(w, agents, shops) && ValidEvent(w, agents, shops, e) && e.kind.SimStart?
    ensures Fine(w, agents, shops, e, OnSimStart(agents, shops))
  {
  }

  lemma DecideIsFine(w: World, agents: seq<Agent>, shops: seq<Shop>, e: Event, choice: Option<(int, int)>)
    requires People(w, agents, shops) && ValidEvent(w, agents, shops, e) && e.kind.DecidePurchase?
    requires FairChoice(agents, shops, e.agent, choice)
    ensures Fine(w, agents, shops, e, OnDecide(agents, shops, e, choice))
  {
    hide Remembered;
    RememberedIsShorter(agents[e.agent].memories, e.time);
  }

  lemma DecayIsFine(w: World, agents: seq<Agent>, shops: seq<Shop>, e: Event)
    requires People(w, agents, shops) && ValidEvent(w, agents, shops, e) && e.kind.InfluenceDecay?
    ensures Fine(w, agents, shops, e, OnInfluenceDecay(agents, shops, e))
  {
    hide Remembered;
    RememberedIsShorter(agents[e.agent].memories, e.time);
  }

  lemma MoveArriveIsFine(w: World, agents: seq<Agent>, shops: seq<Shop>, e: Event)
    requires People(w, agents, shops) && ValidEvent(w, agents, shops, e) && e.kind.MoveArrive?
    ensures Fine(w, agents, shops, e, OnMoveArrive(agents, shops, e))
  {
  }

  lemma QueueEnterIsFine(w: World, agents: seq<Agent>, shops: seq<Shop>, e: Event, draw: real)
    requires People(w, agents, shops) && ValidEvent(w, agents, shops, e) && e.kind.QueueEnter?
    requires 0.0 <= draw < 1.0
    ensures Fine(w, agents, shops, e, OnQueueEnter(agents, shops, e, draw))
  {
  }

  lemma TalkStartIsFine(w: World, agents: seq<Agent>, shops: seq<Shop>, e: Event, draw: real)
    requires People(w, agents, shops) && ValidEvent(w, agents, shops, e) && e.kind.TalkStart?
    requires 0.0 <= draw < 1.0
    ensures Fine(w, agents, shops, e, OnTalkStart(agents, shops, e, draw))
  {
  }

  lemma TalkEndIsFine(w: World, agents: seq<Agent>, shops: seq<Shop>, e: Event)
    requires People(w, agents, shops) && ValidEvent(w, agents, shops, e) && e.kind.TalkEnd?
    requires forall a :: a in agents ==> a.memorySlots > 0
    ensures Fine(w, agents, shops, e, OnTalkEnd(agents, shops, e))
  {
  }

  lemma ReactIsFine(w: World, agents: seq<Agent>, shops: seq<Shop>, e: Event, luck: Luck)
    requires ValidWorld(w) && People(w, agents, shops) && ValidEvent(w, agents, shops, e)
    requires ValidLuck(agents, shops, e, luck)
    ensures forall a :: a in agents ==> a.memorySlots > 0
    ensures Fine(w, agents, shops, e, React(w, agents, shops, e, luck))
  {
    hide OnSimStart, OnDecide, OnMoveStart, OnMoveArrive, OnQueueEnter, OnPurchase, OnObserve, OnTalkStart, OnTalkEnd,
         OnInfluenceDecay, GoodEmission;
    match e.kind
    case SimStart => SimStartIsFine(w, agents, shops, e);
    case DecidePurchase => DecideIsFine(w, agents, shops, e, luck.choice);
    case MoveStart => MoveStartIsFine(w, agents, shops, e, luck.draw);
    case MoveArrive => MoveArriveIsFine(w, agents, shops, e);
    case QueueEnter => QueueEnterIsFine(w, agents, shops, e, luck.draw);
    case Purchase => PurchaseIsFine(w, agents, shops, e, luck.draw);
    case ObservePurchase => ObserveIsFine(w, agents, shops, e);
    case TalkStart => TalkStartIsFine(w, agents, shops, e, luck.draw);
    case TalkEnd => TalkEndIsFine(w, agents, shops, e);
    case InfluenceDecay => DecayIsFine(w, agents, shops, e);
    case SimEnd =>
  }

  // ---------------------------------------------------- numbering and depth

  /** Number of parent links from an event back to one without a parent. */
  function Depth(parents: seq<nat>, o: nat): nat
  {
    if o < |parents| && 0 < parents[o] < o then 1 + Depth(parents, parents[o]) else 0
  }

  lemma {:induction false} DepthIsStable(parents: seq<nat>, more: seq<nat>, o: nat)
    requires o < |parents|
    ensures Depth(parents + more, o) == Depth(parents, o)
  {
    if 0 < parents[o] < o {
      DepthIsStable(parents, more, parents[o]);
    }
  }

  /** Causal chains are slow: 60 links per unit of time, and a constant. */
  ghost predicate Slow(m: Market)
  {
    forall e :: e in m.pending ==> Depth(m.parents, e.ordinal) as real <= 60.0 * e.time + Slack(e.kind) as real
  }

  lemma ScheduledMember(out: seq<Emission>, first: nat, parent: nat, x: Event)
    requires x in Scheduled(out, first, parent)
    ensures first <= x.ordinal < first + |out| && x == Numbered(out[x.ordinal - first], x.ordinal, parent)
  {
  }

  lemma StepKeepsNumbering(w: World, m: Market, e: Event, luck: Luck)
    requires Numbering(m) && e in m.pending && forall a :: a in m.agents ==> a.memorySlots > 0
    ensures Numbering(Step(w, m, e, luck))
  {
    hide React;
    var f := React(w, m.agents, m.shops, e, luck);
    var m' := Step(w, m, e, luck);
    forall x | x in m'.pending
      ensures 0 < x.ordinal < |m'.parents| && x.parent == m'.parents[x.ordinal]
      ensures x in m.pending ==> x.ordinal < |m.parents|
      ensures x !in m.pending ==>
                && x.ordinal >= |m.parents|
                && x == Numbered(f.out[x.ordinal - |m.parents|], x.ordinal, e.ordinal)
    {
      if x !in m.pending {
        ScheduledMember(f.out, |m.parents|, e.ordinal, x);
      }
    }
  }

  lemma StepKeepsSlow(w: World, m: Market, e: Event, luck: Luck)
    requires WellFormed(w, m) && Slow(m) && e in m.pending && ValidLuck(m.agents, m.shops, e, luck)
    requires forall a :: a in m.agents ==> a.memorySlots > 0
    ensures Slow(Step(w, m, e, luck))
  {
    hide React, Slack;
    var f := React(w, m.agents, m.shops, e, luck);
    var m' := Step(w, m, e, luck);
    var more := Repeat(e.ordinal, |f.out|);
    ReactIsFine(w, m.agents, m.shops, e, luck);
    forall x | x in m'.pending
      ensures Depth(m'.parents, x.ordinal) as real <= 60.0 * x.time + Slack(x.kind) as real
    {
      if x in m.pending {
        DepthIsStable(m.parents, more, x.ordinal);
      } else {
        ScheduledMember(f.out, |m.parents|, e.ordinal, x);
        DepthIsStable(m.parents, more, e.ordinal);
        assert m'.parents[x.ordinal] == e.ordinal;
        assert GoodEmission(w, m.agents, m.shops, e, f.out[x.ordinal - |m.parents|]);
      }
    }
  }

  lemma StepKeepsWellFormed(w: World, m: Market, e: Event, luck: Luck)
    requires WellFormed(w, m) && IsNext(e, m.pending) && ValidLuck(m.agents, m.shops, e, luck)
    ensures forall a :: a in m.agents ==> a.memorySlots > 0
    ensures WellFormed(w, Step(w, m, e, luck))
    ensures e.time >= m.now
  {
    hide React, ValidShop, GoodEmission, Numbering;
    ReactIsFine(w, m.agents, m.shops, e, luck);
    StepKeepsNumbering(w, m, e, luck);
    var f := React(w, m.agents, m.shops, e, luck);
    var m' := Step(w, m, e, luck);
    FineKeepsPeople(w, m.agents, m.shops, e, f);
    forall x | x in m'.pending
      ensures ValidEvent(w, m'.agents, m'.shops, x) && x.time >= e.time
    {
      if x in m.pending {
        FineKeepsEvent(w, m.agents, m.shops, e, f, x);
        assert !Before(x, e);
      } else {
        ScheduledMember(f.out, |m.parents|, e.ordinal, x);
        FineEmission(w, m.agents, m.shops, e, f, f.out[x.ordinal - |m.parents|], x);
      }
    }
  }

  lemma FineKeepsPeople(w: World, agents: seq<Agent>, shops: seq<Shop>, e: Event, f: Effect)
    requires Fine(w, agents, shops, e, f)
    ensures People(w, f.agents, f.shops)
  {
  }

  lemma FineKeepsEvent(w: World, agents: seq<Agent>, shops: seq<Shop>, e: Event, f: Effect, x: Event)
    requires Fine(w, agents, shops, e, f) && ValidEvent(w, agents, shops, x)
    ensures ValidEvent(w, f.agents, f.shops, x)
  {
  }

  lemma FineEmission(w: World, agents: seq<Agent>, shops: seq<Shop>, e: Event, f: Effect, x: Emission, y: Event)
    requires Fine(w, agents, shops, e, f) && x in f.out && y == Numbered(x, y.ordinal, y.parent)
    ensures ValidEvent(w, f.agents, f.shops, y) && y.time >= e.time
  {
  }
}

/** The event loop of the agent market as it runs: one queue, agents and shops
    updated in place, one handler per event type (src/engine/agent_runtime.cpp). */
module AgentRuntime {
  import opened Optional
  import opened AgentMarket
  import opened AgentInvariants
  import opened AgentSafety
  import opened AgentRuns
  import opened AgentChoice

  /** Why the loop was left. */
  datatype Exit = Drained | Halted | PastMaxTime | Ended

  lemma ScheduledAppend(out: seq<Emission>, x: Emission, first: nat, parent: nat)
    ensures Scheduled(out + [x], first, parent) == Scheduled(out, first, parent) + {Numbered(x, first + |out|, parent)}
  {
    var longer := out + [x];
    forall y | y in Scheduled(longer, first, parent)
      ensures y in Scheduled(out, first, parent) + {Numbered(x, first + |out|, parent)}
    {
      var i :| 0 <= i < |longer| && y == Numbered(longer[i], first + i, parent);
      assert i < |out| ==> longer[i] == out[i];
    }
    forall y | y in Scheduled(out, first, parent)
      ensures y in Scheduled(longer, first, parent)
    {
      var i :| 0 <= i < |out| && y == Numbered(out[i], first + i, parent);
      assert longer[i] == out[i];
    }
    assert longer[|out|] == x;
  }

  lemma RepeatAppend(parent: nat, n: nat)
    ensures Repeat(parent, n) + [parent] == Repeat(parent, n + 1)
  {
  }

  class Runtime {
    const world: World
    var agents: seq<Agent>
    var shops: seq<Shop>
    var pending: set<Event>
    var nextOrdinal: nat
    var now: real
    ghost var parents: seq<nat>
    // What the current event has scheduled so far, and what there was before.
    ghost var outbox: seq<Emission>
    ghost var base: set<Event>
    ghost var origin: seq<nat>
    ghost var cause: nat

    /** The queue holds what was there before and what was just scheduled. */
    ghost predicate Posted()
      reads `pending, `nextOrdinal, `parents, `outbox, `base, `origin, `cause
    {
      && nextOrdinal == |parents| && parents == origin + Repeat(cause, |outbox|)
      && pending == base + Scheduled(outbox, |origin|, cause)
    }

    ghost function State(): Market
      reads this
    {
      Market(agents, shops, pending, parents, now)
    }

    constructor (w: World, initialAgents: seq<Agent>, initialShops: seq<Shop>)
      ensures world == w && agents == initialAgents && shops == initialShops && now == 0.0
      ensures Posted() && outbox == [] && cause == 0 && base == {} && origin == [0]
    {
      world, agents, shops, now := w, initialAgents, initialShops, 0.0;
      pending, nextOrdinal := {}, 1;
      parents, outbox, base, origin, cause := [0], [], {}, [0], 0;
    }

    method ScheduleEvent(time: real, priority: int, kind: Kind, agent: int, source: int, shop: int, item: int,
                         parent: nat, amount: real)
      requires Posted() && parent == cause
      modifies `pending, `nextOrdinal, `parents, `outbox
      ensures Posted() && outbox == old(outbox) + [Emission(time, priority, kind, agent, source, shop, item, amount)]
    {
      hide Scheduled, Repeat;
      ghost var x := Emission(time, priority, kind, agent, source, shop, item, amount);
      RepeatLength(cause, |outbox|);
      ScheduledAppend(outbox, x, |origin|, cause);
      RepeatAppend(cause, |outbox|);
      pending := pending + {Event(time, priority, nextOrdinal, kind, agent, source, shop, item, parent, amount)};
      nextOrdinal := nextOrdinal + 1;
      parents := parents + [parent];
      outbox := outbox + [x];
      assert pending == base + Scheduled(outbox, |origin|, cause);
      assert parents == origin + Repeat(cause, |outbox|);
    }

    static lemma RepeatLength(parent: nat, n: nat)
      ensures |Repeat(parent, n)| == n
    {
    }

    // ----------------------------------------------------------- memories

    method AddOne(i: nat, m: Memory)
      requires i < |agents| && agents[i].memorySlots > 0
      modifies `agents
      ensures agents == old(agents)[i := AddMemory(old(agents)[i], m)]
      ensures SameTalk(old(agents)[i], agents[i]) && agents[i].memorySlots == old(agents)[i].memorySlots
    {
      if |agents[i].memories| >= agents[i].memorySlots {
        agents := agents[i := agents[i].(memories := agents[i].memories[1..])];
      }
      agents := agents[i := agents[i].(memories := agents[i].memories + [m])];
    }

    /** remove_if, then erase. */
    method DecayMemories(i: nat, time: real)
      requires i < |agents|
      modifies `agents
      ensures agents == old(agents)[i := old(agents)[i].(memories := Remembered(old(agents)[i].memories, time))]
    {
      var memories := agents[i].memories;
      var kept: seq<Memory> := [];
      for k := 0 to |memories|
        invariant kept == Remembered(memories[..k], time)
      {
        assert memories[..k + 1][..k] == memories[..k];
        if !(memories[k].expires <= time) {
          kept := kept + [memories[k]];
        }
      }
      assert memories[..|memories|] == memories;
      agents := agents[i := agents[i].(memories := kept)];
    }

    // ------------------------------------------------------------ decisions

    method FindNearby(a: nat) returns (other: int)
      requires a < |agents|
      ensures other == Nearby(agents, a, 0)
    {
      for k := 0 to |agents|
        invariant Nearby(agents, a, 0) == Nearby(agents, a, k)
      {
        if k == a { continue; }
        if agents[k].location == agents[a].location {
          return k;
        }
      }
      return -1;
    }

    /** The affordable candidates in stock. */
    method ValidCandidates(a: nat) returns (valid: seq<(int, int)>)
      requires a < |agents| && People(world, agents, shops)
      ensures valid == Candidates(agents, shops, a, |world.itemTags|)
      ensures forall item, shop :: (item, shop) in valid <==> CanBuy(agents, shops, a, item, shop)
    {
      hide ValidAgent;
      valid := [];
      for item := 0 to |world.itemTags|
        invariant valid == Candidates(agents, shops, a, item)
      {
        ghost var before := valid;
        for shop := 0 to |shops|
          invariant valid == before + CandidatesAt(agents, shops, a, item, shop)
        {
          if item in shops[shop].inventory {
            var affordable := agents[a].budget >= shops[shop].inventory[item].price;
            var inStock := shops[shop].inventory[item].stock > 0;
            if affordable && inStock {
              valid := valid + [(item, shop)];
            }
          }
        }
      }
      CandidatesAreBuyable(agents, shops, a, |world.itemTags|);
      forall i, s | CanBuy(agents, shops, a, i, s)
        ensures (i, s) in valid
      {
        assert ValidShop(world, shops[s]);
      }
    }

    method Choose(a: nat, weight: ((int, int)) -> real, draw: real) returns (choice: Option<(int, int)>)
      requires a < |agents| && People(world, agents, shops) && 0.0 <= draw < 1.0 && forall c :: weight(c) > 0.0
      ensures FairChoice(agents, shops, a, choice)
      ensures Chosen(Candidates(agents, shops, a, |world.itemTags|), weight, draw, choice)
    {
      var valid := ValidCandidates(a);
      if valid == [] {
        return None;
      }
      var k := WeightedChoice(valid, weight, draw);
      assert valid[k] == (valid[k].0, valid[k].1);
      return Some(valid[k]);
    }

    // ------------------------------------------------------- event handlers

    method HandleSimStart(e: Event)
      requires Posted() && outbox == [] && cause == e.ordinal
      modifies `pending, `nextOrdinal, `parents, `outbox
      ensures Posted() && Effect(agents, shops, outbox) == OnSimStart(agents, shops)
    {
      for i := 0 to |agents|
        invariant Posted() && outbox == seq(i, j => Decide(0.0, 10, j))
      {
        ScheduleEvent(0.0, 10, DecidePurchase, i, -1, -1, -1, e.ordinal, 0.0);
      }
    }

    method HandleDecide(e: Event, weight: ((int, int)) -> real, draw: real) returns (choice: Option<(int, int)>)
      requires Posted() && outbox == [] && cause == e.ordinal
      requires People(world, agents, shops) && 0.0 <= draw < 1.0 && forall c :: weight(c) > 0.0
      modifies `agents, `pending, `nextOrdinal, `parents, `outbox
      ensures Posted() && Effect(agents, shops, outbox) == OnDecide(old(agents), shops, e, choice)
      ensures IsAgent(old(agents), e.agent) ==>
                && FairChoice(old(agents), shops, e.agent, choice)
                && Chosen(Candidates(old(agents), shops, e.agent, |world.itemTags|), weight, draw, choice)
    {
      hide Remembered, Posted;
      if e.agent < 0 || e.agent >= |agents| {
        return None;
      }
      var i := e.agent;
      DecayMemories(i, e.time);
      KeepsPeople(old(agents), i, e.time);
      choice := Choose(i, weight, draw);
      SameChoices(old(agents), agents, shops, i, choice);
      SameCandidates(old(agents), agents, shops, i, |world.itemTags|);
      match choice
      case None =>
        ScheduleEvent(e.time + 1.0, 5, DecidePurchase, i, -1, -1, -1, e.ordinal, 0.0);
      case Some(c) =>
        agents := agents[i := agents[i].(intentItem := c.0, intentShop := c.1)];
        ScheduleEvent(e.time, 8, MoveStart, i, -1, c.1, c.0, e.ordinal, 0.0);
    }

    static lemma SameChoices(before: seq<Agent>, after: seq<Agent>, shops: seq<Shop>, i: nat,
                             choice: Option<(int, int)>)
      requires i < |before| == |after| && before[i].budget == after[i].budget && FairChoice(after, shops, i, choice)
      ensures FairChoice(before, shops, i, choice)
    {
      match choice
      case Some(c) =>
      case None =>
        forall item, shop
          ensures !CanBuy(before, shops, i, item, shop)
        {
          assert !CanBuy(after, shops, i, item, shop);
        }
    }

    lemma KeepsPeople(before: seq<Agent>, i: nat, time: real)
      requires i < |before| && People(world, before, shops)
      ensures People(world, before[i := before[i].(memories := Remembered(before[i].memories, time))], shops)
    {
      RememberedIsShorter(before[i].memories, time);
    }

    method HandleMoveStart(e: Event, draw: real)
      requires Posted() && outbox == [] && cause == e.ordinal && e.agent < |agents| && e.shop < |shops|
      modifies `agents, `pending, `nextOrdinal, `parents, `outbox
      ensures Posted() && Effect(agents, shops, outbox) == OnMoveStart(world, old(agents), shops, e, draw)
    {
      hide TravelTime, Posted;
      if e.agent < 0 || e.shop < 0 {
        return;
      }
      var travel := TravelTime(world, agents[e.agent], shops[e.shop], draw);
      agents := agents[e.agent := agents[e.agent].(destination := shops[e.shop].location)];
      ScheduleEvent(e.time + travel, 8, MoveArrive, e.agent, -1, e.shop, e.item, e.ordinal, travel);
    }

    method HandleMoveArrive(e: Event)
      requires Posted() && outbox == [] && cause == e.ordinal && e.agent < |agents| && e.shop < |shops|
      modifies `agents, `pending, `nextOrdinal, `parents, `outbox
      ensures Posted() && Effect(agents, shops, outbox) == OnMoveArrive(old(agents), shops, e)
    {
      hide Posted;
      if e.agent < 0 || e.shop < 0 {
        return;
      }
      var place := shops[e.shop].location;
      agents := agents[e.agent := agents[e.agent].(location := place)];
      agents := agents[e.agent := agents[e.agent].(timeWalking := agents[e.agent].timeWalking + e.amount)];
      agents := agents[e.agent := agents[e.agent].(visited := agents[e.agent].visited + [place])];
      ScheduleEvent(e.time, 7, QueueEnter, e.agent, -1, e.shop, e.item, e.ordinal, 0.0);
    }

    method HandleQueueEnter(e: Event, draw: real)
      requires Posted() && outbox == [] && cause == e.ordinal && e.agent < |agents| && e.shop < |shops|
      modifies `agents, `shops, `pending, `nextOrdinal, `parents, `outbox
      ensures Posted() && Effect(agents, shops, outbox) == OnQueueEnter(old(agents), old(shops), e, draw)
    {
      hide Posted;
      if e.agent < 0 || e.shop < 0 || e.item < 0 {
        return;
      }
      var s := shops[e.shop];
      if e.item !in s.inventory || s.inventory[e.item].stock <= 0
        || s.inventory[e.item].price > agents[e.agent].budget {
        ScheduleEvent(e.time + 0.8, 6, DecidePurchase, e.agent, -1, -1, -1, e.ordinal, 0.0);
        return;
      }
      if s.capacity > 0 && s.queueSize >= s.capacity {
        ScheduleEvent(e.time + 0.8, 6, DecidePurchase, e.agent, -1, -1, -1, e.ordinal, 0.0);
        return;
      }
      shops := shops[e.shop := s.(queueSize := s.queueSize + 1)];
      var delay := s.serviceTime + draw * 0.7;
      agents := agents[e.agent := agents[e.agent].(timeQueueing := agents[e.agent].timeQueueing + delay)];
      ScheduleEvent(e.time + delay, 7, Purchase, e.agent, -1, e.shop, e.item, e.ordinal, 0.0);
    }

    method TellObservers(e: Event)
      requires Posted() && outbox == [] && cause == e.ordinal && IsAgent(agents, e.agent)
      modifies `pending, `nextOrdinal, `parents, `outbox
      ensures Posted() && outbox == Observers(agents, e, |agents|)
    {
      hide Posted;
      for observer := 0 to |agents|
        invariant Posted() && outbox == Observers(agents, e, observer)
      {
        if observer == e.agent { continue; }
        if agents[observer].location != agents[e.agent].location { continue; }
        ScheduleEvent(e.time + 0.1, 6, ObservePurchase, observer, e.agent, e.shop, e.item, e.ordinal, 0.0);
      }
    }

    method MaybeTalk(e: Event, draw: real)
      requires Posted() && cause == e.ordinal && IsAgent(agents, e.agent)
      modifies `pending, `nextOrdinal, `parents, `outbox
      ensures Posted() && outbox == old(outbox) + Talk(agents, e, draw)
    {
      hide Posted, Nearby;
      var other := FindNearby(e.agent);
      NearbyIsAnother(agents, e.agent, 0);
      if other >= 0 && !agents[e.agent].inConversation && !agents[other].inConversation {
        if draw < 0.35 {
          ScheduleEvent(e.time + 0.2, 6, TalkStart, e.agent, other, e.shop, e.item, e.ordinal, 0.0);
        }
      }
    }

    method HandlePurchase(e: Event, draw: real)
      requires Posted() && outbox == [] && cause == e.ordinal && e.agent < |agents| && e.shop < |shops|
      modifies `agents, `shops, `pending, `nextOrdinal, `parents, `outbox
      ensures Posted() && Effect(agents, shops, outbox) == OnPurchase(old(agents), old(shops), e, draw)
    {
      hide Posted, Observers, Talk;
      if e.agent < 0 || e.shop < 0 || e.item < 0 {
        return;
      }
      if shops[e.shop].queueSize > 0 {
        shops := shops[e.shop := shops[e.shop].(queueSize := shops[e.shop].queueSize - 1)];
      }
      var s := shops[e.shop];
      if e.item !in s.inventory {
        ScheduleEvent(e.time + 1.0, 5, DecidePurchase, e.agent, -1, -1, -1, e.ordinal, 0.0);
        return;
      }
      var lot := s.inventory[e.item];
      if lot.stock <= 0 || lot.price > agents[e.agent].budget {
        ScheduleEvent(e.time + 1.0, 5, DecidePurchase, e.agent, -1, -1, -1, e.ordinal, 0.0);
        return;
      }
      Sell(e, lot);
      TellObservers(e);
      MaybeTalk(e, draw);
      if agents[e.agent].budget > 0.01 {
        ScheduleEvent(e.time + 1.0, 5, DecidePurchase, e.agent, -1, -1, -1, e.ordinal, 0.0);
      }
    }

    method Sell(e: Event, lot: Stock)
      requires IsAgent(agents, e.agent) && IsShop(shops, e.shop) && e.item in shops[e.shop].inventory
      requires lot == shops[e.shop].inventory[e.item]
      modifies `agents, `shops
      ensures var a, s := old(agents)[e.agent], old(shops)[e.shop];
              && agents == old(agents)[e.agent := a.(budget := a.budget - lot.price,
                                                     moneySpent := a.moneySpent + lot.price,
                                                     lastPurchase := e.item, purchases := a.purchases + [e.item])]
              && shops == old(shops)[e.shop := s.(inventory := s.inventory[e.item := lot.(stock := lot.stock - 1)])]
    {
      var a, s := agents[e.agent], shops[e.shop];
      a := a.(budget := a.budget - lot.price);
      a := a.(moneySpent := a.moneySpent + lot.price);
      shops := shops[e.shop := s.(inventory := s.inventory[e.item := lot.(stock := lot.stock - 1)])];
      a := a.(lastPurchase := e.item);
      a := a.(purchases := a.purchases + [e.item]);
      agents := agents[e.agent := a];
    }

    method HandleObserve(e: Event)
      requires Posted() && outbox == [] && cause == e.ordinal && e.agent < |agents| && e.item < |world.itemTags|
      requires forall a :: a in agents ==> a.memorySlots > 0
      modifies `agents, `pending, `nextOrdinal, `parents, `outbox
      ensures Posted() && Effect(agents, shops, outbox) == OnObserve(world, old(agents), shops, e)
    {
      hide Posted, AddMemory;
      if e.agent < 0 || e.item < 0 || e.source < 0 {
        return;
      }
      var i := e.agent;
      var signal := 0.4 + agents[i].susceptibility * 0.6;
      agents := agents[i := agents[i].(observed := agents[i].observed + 1, influence := agents[i].influence + signal)];
      AddOne(i, Memory(e.item, "", signal, e.time + 5.0, e.source, e.ordinal));
      AddTags(i, world.itemTags[e.item], signal * 0.5, e.time + 5.0, e.source, e.ordinal);
      ScheduleEvent(e.time + 5.0, 3, InfluenceDecay, i, -1, -1, -1, e.ordinal, 0.0);
      if !agents[i].inConversation {
        ScheduleEvent(e.time + 0.6, 5, DecidePurchase, i, -1, -1, -1, e.ordinal, 0.0);
      }
    }

    method AddTags(i: nat, tags: seq<string>, strength: real, expires: real, source: int, parent: nat)
      requires i < |agents| && agents[i].memorySlots > 0
      modifies `agents
      ensures agents == old(agents)[i := AddTagMemories(old(agents)[i], tags, strength, expires, source, parent)]
      ensures SameTalk(old(agents)[i], agents[i])
    {
      hide AddMemory;
      for k := 0 to |tags|
        invariant agents
               == old(agents)[i := AddTagMemories(old(agents)[i], tags[..k], strength, expires, source, parent)]
      {
        assert tags[..k + 1][..k] == tags[..k];
        AddOne(i, Memory(-1, tags[k], strength, expires, source, parent));
      }
      assert tags[..|tags|] == tags;
      AddTagMemoriesTalk(old(agents)[i], tags, strength, expires, source, parent);
    }

    method HandleTalkStart(e: Event, draw: real)
      requires Posted() && outbox == [] && cause == e.ordinal && e.agent < |agents| && e.source < |agents|
      modifies `agents, `pending, `nextOrdinal, `parents, `outbox
      ensures Posted() && Effect(agents, shops, outbox) == OnTalkStart(old(agents), shops, e, draw)
    {
      hide Posted;
      if e.agent < 0 || e.source < 0 {
        return;
      }
      if agents[e.agent].inConversation || agents[e.source].inConversation {
        return;
      }
      agents := agents[e.agent := agents[e.agent].(inConversation := true)];
      agents := agents[e.source := agents[e.source].(inConversation := true)];
      agents := agents[e.agent := agents[e.agent].(partner := e.source)];
      agents := agents[e.source := agents[e.source].(partner := e.agent)];
      var duration := 0.4 + draw * 1.2;
      ScheduleEvent(e.time + duration, 6, TalkEnd, e.agent, e.source, e.shop, e.item, e.ordinal, duration);
    }

    method EndConversation(e: Event)
      requires IsAgent(agents, e.agent) && IsAgent(agents, e.source)
      modifies `agents
      ensures var one := old(agents)[e.agent := Released(old(agents)[e.agent], e.amount)];
              agents == one[e.source := Released(one[e.source], e.amount)]
    {
      agents := agents[e.agent := agents[e.agent].(timeTalking := agents[e.agent].timeTalking + e.amount)];
      agents := agents[e.source := agents[e.source].(timeTalking := agents[e.source].timeTalking + e.amount)];
      agents := agents[e.agent := agents[e.agent].(inConversation := false)];
      agents := agents[e.source := agents[e.source].(inConversation := false)];
      agents := agents[e.agent := agents[e.agent].(partner := -1)];
      agents := agents[e.source := agents[e.source].(partner := -1)];
    }

    method HandleTalkEnd(e: Event)
      requires Posted() && outbox == [] && cause == e.ordinal && e.agent < |agents| && e.source < |agents|
      requires forall a :: a in agents ==> a.memorySlots > 0
      modifies `agents, `pending, `nextOrdinal, `parents, `outbox
      ensures Posted() && Effect(agents, shops, outbox) == OnTalkEnd(old(agents), shops, e)
    {
      hide Posted, AddMemory;
      if e.agent < 0 || e.source < 0 {
        return;
      }
      EndConversation(e);
      if agents[e.agent].lastPurchase >= 0 {
        var signal := 0.3 + agents[e.source].susceptibility * 0.4;
        AddOne(e.source, Memory(agents[e.agent].lastPurchase, "", signal, e.time + 5.0, e.agent, e.ordinal));
        ScheduleEvent(e.time + 5.0, 3, InfluenceDecay, e.source, -1, -1, -1, e.ordinal, 0.0);
      }
      ScheduleEvent(e.time + 0.4, 5, DecidePurchase, e.agent, -1, -1, -1, e.ordinal, 0.0);
      ScheduleEvent(e.time + 0.4, 5, DecidePurchase, e.source, -1, -1, -1, e.ordinal, 0.0);
    }

    method HandleInfluenceDecay(e: Event)
      requires outbox == [] && e.agent < |agents|
      modifies `agents
      ensures Effect(agents, shops, outbox) == OnInfluenceDecay(old(agents), shops, e)
    {
      if e.agent < 0 {
        return;
      }
      DecayMemories(e.agent, e.time);
    }

    // ------------------------------------------------------------ the loop

    /** The switch over the event type; the draw and the weights are arbitrary. */
    method Dispatch(e: Event, weight: ((int, int)) -> real, draw: real) returns (luck: Luck)
      requires Posted() && outbox == [] && cause == e.ordinal && ValidWorld(world)
      requires People(world, agents, shops) && ValidEvent(world, agents, shops, e)
      requires 0.0 <= draw < 1.0 && forall c :: weight(c) > 0.0
      modifies `agents, `shops, `pending, `nextOrdinal, `parents, `outbox
      ensures ValidLuck(old(agents), old(shops), e, luck) && forall a :: a in old(agents) ==> a.memorySlots > 0
      ensures Drawn(world, old(agents), old(shops), e, weight, draw, luck)
      ensures Posted() && Effect(agents, shops, outbox) == React(world, old(agents), old(shops), e, luck)
    {
      hide OnSimStart, OnDecide, OnMoveStart, OnMoveArrive, OnQueueEnter, OnPurchase, OnObserve, OnTalkStart, OnTalkEnd,
           OnInfluenceDecay, Posted, FairChoice, ValidShop;
      luck := Luck(draw, None);
      match e.kind
      case SimStart => HandleSimStart(e);
      case DecidePurchase =>
        var choice := HandleDecide(e, weight, draw);
        luck := Luck(draw, choice);
      case MoveStart => HandleMoveStart(e, draw);
      case MoveArrive => HandleMoveArrive(e);
      case QueueEnter => HandleQueueEnter(e, draw);
      case Purchase => HandlePurchase(e, draw);
      case ObservePurchase => HandleObserve(e);
      case TalkStart => HandleTalkStart(e, draw);
      case TalkEnd => HandleTalkEnd(e);
      case InfluenceDecay => HandleInfluenceDecay(e);
      case SimEnd =>
    }

    method Begin()
      requires Posted() && outbox == [] && cause == 0 && base == {} && origin == [0] && now == 0.0
      modifies `pending, `nextOrdinal, `parents, `outbox
      ensures Posted() && State() == Initial(world, agents, shops)
    {
      ScheduleEvent(0.0, 100, SimStart, -1, -1, -1, -1, 0, 0.0);
      ScheduleEvent(world.maxTime, -100, SimEnd, -1, -1, -1, -1, 0, 0.0);
      ScheduledAppend([outbox[0]], outbox[1], 1, 0);
      ScheduledOne([outbox[0]], 1, 0);
      assert outbox == [outbox[0]] + [outbox[1]];
    }

    /** Takes the first event off the queue and handles it. */
    method Process(e: Event, weight: ((int, int)) -> real, draw: real) returns (luck: Luck)
      requires Posted() && IsNext(e, pending) && WellFormed(world, State())
      requires 0.0 <= draw < 1.0 && forall c :: weight(c) > 0.0
      modifies this
      ensures Posted() && Moves(world, old(State()), e, luck, State())
      ensures Drawn(world, old(agents), old(shops), e, weight, draw, luck)
    {
      hide ValidLuck, React, Scheduled, IsNext, Numbering, People, ValidEvent, FairChoice;
      base, origin, cause, outbox := pending - {e}, parents, e.ordinal, [];
      pending := pending - {e};
      NothingScheduled(|origin|, cause);
      now := e.time;
      IsPending(e, old(pending));
      luck := Dispatch(e, weight, draw);
    }

    static lemma IsPending(e: Event, pending: set<Event>)
      requires IsNext(e, pending)
      ensures e in pending
    {
    }

    static lemma NothingScheduled(first: nat, parent: nat)
      ensures Scheduled([], first, parent) == {} && Repeat(parent, 0) == []
    {
    }

    /** The loop ends by SIM_END or by the limit on events, never because the
        queue is empty or the next event is too late. */
    method Run(requested: nat, weights: nat -> ((int, int)) -> real, draws: nat -> real)
        returns (exit: Exit, processed: nat, ghost ms: seq<Market>, ghost es: seq<Event>, ghost ls: seq<Luck>)
      requires Posted() && outbox == [] && cause == 0 && base == {} && origin == [0] && now == 0.0
      requires Fresh(world, agents, shops)
      requires (forall k :: 0.0 <= draws(k) < 1.0) && forall k, c :: weights(k)(c) > 0.0
      modifies this
      ensures IsRun(world, ms, es, ls) && ms[0] == Initial(world, old(agents), old(shops)) && ms[|es|] == State()
      ensures AllDrawn(world, ms, es, ls, weights, draws)
      ensures 0 < processed == |es| <= EventLimit(requested, world.maxEvents) && (exit == Ended || exit == Halted)
      ensures exit == Ended <==> es[|es| - 1].kind.SimEnd?
      ensures exit == Halted ==> processed == EventLimit(requested, world.maxEvents)
    {
      hide Fresh, Safe, Conserved, Moves, Initial, Before, WellFormed, IsRun, Drawn, AllDrawn;
      ghost var agents0, shops0 := agents, shops;
      Begin();
      ms, es, ls := [State()], [], [];
      var limit := EventLimit(requested, world.maxEvents);
      exit, processed := Drained, 0;
      InitialIsSafe(world, agents0, shops0);
      EmptyRun(world, State());
      NothingDrawn(world, State(), weights, draws);
      while pending != {}
        invariant Posted() && |ms| == |es| + 1 && IsRun(world, ms, es, ls)
                  && ms[0] == Initial(world, agents0, shops0) && ms[|es|] == State()
        invariant AllDrawn(world, ms, es, ls, weights, draws)
        invariant processed == |es| <= limit && (es != [] ==> !es[|es| - 1].kind.SimEnd?) && End(world) in pending
                  && exit == Drained
        decreases limit - processed
      {
        if processed >= limit {
          exit := Halted;
          break;
        }
        ghost var known := NextExists(pending);
        var e :| e in pending && forall x :: x in pending ==> !Before(x, e);
        RunIsSafe(world, agents0, shops0, ms, es, ls, |es|);
        SafeFacts(world, State(), e);
        if e.time > world.maxTime {
          exit := PastMaxTime;
          break;
        }
        ghost var luck := Process(e, weights(processed), draws(processed));
        processed := processed + 1;
        RunExtends(world, ms, es, ls, e, luck, State());
        DrawnExtends(world, ms, es, ls, e, luck, State(), weights, draws);
        ms, es, ls := ms + [State()], es + [e], ls + [luck];
        RunIsSafe(world, agents0, shops0, ms, es, ls, |es|);
        if e.kind.SimEnd? {
          exit := Ended;
          break;
        }
      }
    }
  }

  /** The smaller of what is asked for (0: no limit) and the scenario's own
      limit, but at least one event. */
  function EventLimit(requested: nat, declared: nat): (r: nat)
    ensures r > 0
  {
    var chosen := if requested == 0 then declared else requested;
    var least := if chosen < declared then chosen else declared;
    if least == 0 then 1 else least
  }

  lemma SafeFacts(w: World, m: Market, e: Event)
    requires Safe(w, m) && End(w) in m.pending && IsNext(e, m.pending)
    ensures WellFormed(w, m) && e.time <= w.maxTime
  {
    hide WellFormed, Slow, Queues, Conversations, Framed, Lively, Handle;
    assert !Before(End(w), e);
  }

  lemma EmptyRun(w: World, m: Market)
    ensures IsRun(w, [m], [], [])
  {
  }

  lemma RunExtends(w: World, ms: seq<Market>, es: seq<Event>, ls: seq<Luck>, e: Event, luck: Luck, m: Market)
    requires IsRun(w, ms, es, ls) && (es != [] ==> !es[|es| - 1].kind.SimEnd?) && Moves(w, ms[|es|], e, luck, m)
    ensures IsRun(w, ms + [m], es + [e], ls + [luck])
  {
    hide Moves;
    var ns, fs, ks := ms + [m], es + [e], ls + [luck];
    forall k | 0 <= k < |fs|
      ensures Moves(w, ns[k], fs[k], ks[k], ns[k + 1])
    {
      if k < |es| {
        assert Moves(w, ms[k], es[k], ls[k], ms[k + 1]);
      }
    }
  }

  /** A run from the declared agents and shops, with the draws and weights given,
      that ends by SIM_END or at the limit on events. */
  ghost predicate IsSimulation(w: World, agents: seq<Agent>, shops: seq<Shop>, requested: nat,
                               weights: nat -> ((int, int)) -> real, draws: nat -> real,
                               exit: Exit, ms: seq<Market>, es: seq<Event>, ls: seq<Luck>)
    requires forall k, c :: weights(k)(c) > 0.0
  {
    && IsRun(w, ms, es, ls) && ms[0] == Initial(w, agents, shops) && AllDrawn(w, ms, es, ls, weights, draws)
    && 0 < |es| <= EventLimit(requested, w.maxEvents)
    && if es[|es| - 1].kind.SimEnd? then exit == Ended
       else exit == Halted && |es| == EventLimit(requested, w.maxEvents)
  }

  /** Draws and weights determine a whole simulation: every state, every event,
      every choice, and how it ends. */
  lemma SimulationIsDetermined(w: World, agents: seq<Agent>, shops: seq<Shop>, requested: nat,
                               weights: nat -> ((int, int)) -> real, draws: nat -> real,
                               a: Exit, ms: seq<Market>, es: seq<Event>, ls: seq<Luck>,
                               b: Exit, ns: seq<Market>, fs: seq<Event>, ks: seq<Luck>)
    requires Fresh(w, agents, shops) && forall k, c :: weights(k)(c) > 0.0
    requires IsSimulation(w, agents, shops, requested, weights, draws, a, ms, es, ls)
    requires IsSimulation(w, agents, shops, requested, weights, draws, b, ns, fs, ks)
    ensures a == b && ms == ns && es == fs && ls == ks
  {
    hide Fresh, Moves, Initial, Drawn;
    var k := if |es| < |fs| then |es| else |fs|;
    SameDrawsSameRun(w, agents, shops, weights, draws, ms, es, ls, ns, fs, ks, k);
    assert es[..k][k - 1] == fs[..k][k - 1];
    assert |es| == |fs| == k;
    assert es == es[..k] && fs == fs[..k] && ls == ls[..k] && ks == ks[..k];
    assert ms == ms[..k + 1] && ns == ns[..k + 1];
  }

  /** A whole simulation: a run of the step relation from the declared agents and
      shops, with the draws given.  It ends by SIM_END, at the maximum time, or by
      the limit on events; in every state it goes through, every agent has the
      money and every item the units of the start, and the state is safe. */
  method Simulate(w: World, agents: seq<Agent>, shops: seq<Shop>, requested: nat,
                  weights: nat -> ((int, int)) -> real, draws: nat -> real)
      returns (exit: Exit, processed: nat, finalAgents: seq<Agent>, finalShops: seq<Shop>, time: real,
               ghost ms: seq<Market>, ghost es: seq<Event>, ghost ls: seq<Luck>)
    requires Fresh(w, agents, shops)
    requires (forall k :: 0.0 <= draws(k) < 1.0) && forall k, c :: weights(k)(c) > 0.0
    ensures IsSimulation(w, agents, shops, requested, weights, draws, exit, ms, es, ls) && processed == |es|
    ensures exit == Ended ==> time == w.maxTime
    ensures 0.0 <= time <= w.maxTime
    ensures ms[|es|].agents == finalAgents && ms[|es|].shops == finalShops && ms[|es|].now == time
    ensures forall k :: 0 <= k <= |es| ==> Safe(w, ms[k]) && Conserved(ms[0], ms[k])
    ensures exit == Halted ==> End(w) in ms[|es|].pending
  {
    hide Fresh, Safe, Conserved, Initial, Moves, Handle;
    var runtime := new Runtime(w, agents, shops);
    exit, processed, ms, es, ls := runtime.Run(requested, weights, draws);
    finalAgents, finalShops, time := runtime.agents, runtime.shops, runtime.now;
    forall k | 0 <= k <= |es|
      ensures Safe(w, ms[k]) && Conserved(ms[0], ms[k])
    {
      RunIsSafe(w, agents, shops, ms, es, ls, k);
    }
    RunIsSafe(w, agents, shops, ms, es, ls, |es|);
    LastEventIsEnd(w, ms[|es| - 1], es[|es| - 1], ls[|es| - 1], ms[|es|]);
    TimeIsNonNegative(w, agents, shops, ms, es, ls, |es|);
  }

  lemma LastEventIsEnd(w: World, m: Market, e: Event, luck: Luck, m': Market)
    requires Safe(w, m) && Moves(w, m, e, luck, m')
    ensures e.kind.SimEnd? ==> e.time == w.maxTime
  {
    hide WellFormed, Slow, Queues, Conversations, Lively, Step, ValidLuck;
  }

  lemma {:induction false} TimeIsNonNegative(w: World, agents: seq<Agent>, shops: seq<Shop>, ms: seq<Market>,
                                             es: seq<Event>, ls: seq<Luck>, k: nat)
    requires Fresh(w, agents, shops) && IsRun(w, ms, es, ls) && ms[0] == Initial(w, agents, shops) && k <= |es|
    ensures ms[k].now >= 0.0
  {
    hide Fresh, Safe, Conserved, Moves;
    if k > 0 {
      RunIsSafe(w, agents, shops, ms, es, ls, k);
      TimeIsNonNegative(w, agents, shops, ms, es, ls, k - 1);
    }
  }
}

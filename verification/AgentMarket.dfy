/** The agent market: agents, shops, events and what each event does
    (src/engine/agent_runtime.cpp, run_agent_layer_scenario).  Time and money
    are real numbers; a random draw is any number in [0, 1); the weighted choice
    of a purchase is any affordable item in stock. */
module AgentMarket {
  import opened Optional
  import opened StringOrder

  datatype Kind =
    | SimStart | MoveStart | MoveArrive | ObservePurchase | TalkStart | TalkEnd
    | DecidePurchase | QueueEnter | Purchase | InfluenceDecay | SimEnd

  /** `amount` is the number an event carries: travel time or duration. */
  datatype Event = Event(time: real, priority: int, ordinal: nat, kind: Kind,
                         agent: int, source: int, shop: int, item: int, parent: nat, amount: real)

  datatype Memory = Memory(item: int, tag: string, strength: real, expires: real, source: int, parent: nat)

  datatype Stock = Stock(price: real, stock: int)

  datatype Shop = Shop(location: nat, serviceTime: real, capacity: int, inventory: map<int, Stock>, queueSize: nat)

  datatype Agent = Agent(location: nat, destination: nat, budget: real, movementSpeed: real, susceptibility: real,
                         memorySlots: nat, memories: seq<Memory>, intentItem: int, intentShop: int,
                         lastPurchase: int, inConversation: bool, partner: int, moneySpent: real,
                         timeWalking: real, timeTalking: real, timeQueueing: real, observed: nat,
                         influence: real, visited: seq<nat>, purchases: seq<int>)

  /** What does not change during a run; itemTags has one entry per item. */
  datatype World = World(itemTags: seq<seq<string>>, distance: (nat, nat) -> real, maxTime: real, maxEvents: nat)

  /** `parents` maps the ordinal of every event scheduled so far to the ordinal
      of its parent (0: none); its length is the next ordinal. */
  datatype Market = Market(agents: seq<Agent>, shops: seq<Shop>, pending: set<Event>, parents: seq<nat>, now: real)

  /** An event to be scheduled, before it gets its ordinal. */
  datatype Emission = Emission(time: real, priority: int, kind: Kind, agent: int, source: int, shop: int, item: int,
                               amount: real)

  /** The arbitrary part of a step: one draw, and the item and shop chosen. */
  datatype Luck = Luck(draw: real, choice: Option<(int, int)>)

  datatype Effect = Effect(agents: seq<Agent>, shops: seq<Shop>, out: seq<Emission>)

  // ------------------------------------------------------- the event order

  function KindName(k: Kind): string
  {
    match k
    case SimStart => "SIM_START"
    case MoveStart => "MOVE_START"
    case MoveArrive => "MOVE_ARRIVE"
    case ObservePurchase => "OBSERVE_PURCHASE"
    case TalkStart => "TALK_START"
    case TalkEnd => "TALK_END"
    case DecidePurchase => "DECIDE_PURCHASE"
    case QueueEnter => "QUEUE_ENTER"
    case Purchase => "PURCHASE"
    case InfluenceDecay => "INFLUENCE_DECAY"
    case SimEnd => "SIM_END"
  }

  function Decimal(n: nat): string
  {
    (if n < 10 then "" else Decimal(n / 10)) + [('0' as int + n % 10) as char]
  }

  /** The ordinal with leading zeros, at least eight characters wide. */
  function Padded(n: nat): string
  {
    var d := Decimal(n);
    seq(if |d| < 8 then 8 - |d| else 0, _ => '0') + d
  }

  function Handle(e: Event): string
  {
    KindName(e.kind) + "_" + Padded(e.ordinal)
  }

  /** a is processed before b. */
  predicate Before(a: Event, b: Event)
  {
    if a.time != b.time then a.time < b.time
    else if a.priority != b.priority then a.priority > b.priority
    else if Handle(a) != Handle(b) then Less(Handle(a), Handle(b))
    else a.ordinal < b.ordinal
  }

  ghost predicate IsNext(e: Event, pending: set<Event>)
  {
    e in pending && forall x :: x in pending ==> !Before(x, e)
  }

  // ------------------------------------------------------------- memories

  function AddMemory(a: Agent, m: Memory): Agent
    requires a.memorySlots > 0
  {
    var kept := if |a.memories| >= a.memorySlots && a.memories != [] then a.memories[1..] else a.memories;
    a.(memories := kept + [m])
  }

  /** Keeps the memories that have not expired. */
  function Remembered(memories: seq<Memory>, now: real): seq<Memory>
  {
    if memories == [] then []
    else
      var last := memories[|memories| - 1];
      Remembered(memories[..|memories| - 1], now) + if last.expires <= now then [] else [last]
  }

  function AddTagMemories(a: Agent, tags: seq<string>, strength: real, expires: real, source: int, parent: nat): Agent
    requires a.memorySlots > 0
    ensures AddTagMemories(a, tags, strength, expires, source, parent).memorySlots == a.memorySlots
  {
    if tags == [] then a
    else
      var n := |tags| - 1;
      AddMemory(AddTagMemories(a, tags[..n], strength, expires, source, parent),
                Memory(-1, tags[n], strength, expires, source, parent))
  }

  // ------------------------------------------------------- event handlers

  predicate IsAgent(agents: seq<Agent>, a: int) { 0 <= a < |agents| }

  predicate IsShop(shops: seq<Shop>, s: int) { 0 <= s < |shops| }

  function Decide(time: real, priority: int, agent: int): Emission
  {
    Emission(time, priority, DecidePurchase, agent, -1, -1, -1, 0.0)
  }

  function OnSimStart(agents: seq<Agent>, shops: seq<Shop>): Effect
  {
    Effect(agents, shops, seq(|agents|, i => Decide(0.0, 10, i)))
  }

  predicate CanBuy(agents: seq<Agent>, shops: seq<Shop>, a: int, item: int, shop: int)
    requires IsAgent(agents, a)
  {
    && IsShop(shops, shop) && item in shops[shop].inventory
    && shops[shop].inventory[item].stock > 0 && agents[a].budget >= shops[shop].inventory[item].price
  }

  /** Something is chosen exactly when something can be bought, and then it can
      be bought. */
  ghost predicate FairChoice(agents: seq<Agent>, shops: seq<Shop>, a: int, choice: Option<(int, int)>)
    requires IsAgent(agents, a)
  {
    match choice
    case Some(c) => CanBuy(agents, shops, a, c.0, c.1)
    case None => forall item, shop :: !CanBuy(agents, shops, a, item, shop)
  }

  function OnDecide(agents: seq<Agent>, shops: seq<Shop>, e: Event, choice: Option<(int, int)>): Effect
  {
    if !IsAgent(agents, e.agent) then Effect(agents, shops, [])
    else
      var a := agents[e.agent].(memories := Remembered(agents[e.agent].memories, e.time));
      match choice
      case None => Effect(agents[e.agent := a], shops, [Decide(e.time + 1.0, 5, e.agent)])
      case Some(c) =>
        Effect(agents[e.agent := a.(intentItem := c.0, intentShop := c.1)], shops,
               [Emission(e.time, 8, MoveStart, e.agent, -1, c.1, c.0, 0.0)])
  }

  function Max(x: real, y: real): real { if x < y then y else x }

  function TravelTime(w: World, a: Agent, s: Shop, draw: real): real
  {
    w.distance(a.location, s.location) / Max(0.1, a.movementSpeed) + draw * 0.5
  }

  function OnMoveStart(w: World, agents: seq<Agent>, shops: seq<Shop>, e: Event, draw: real): Effect
  {
    if !IsAgent(agents, e.agent) || !IsShop(shops, e.shop) then Effect(agents, shops, [])
    else
      var travel := TravelTime(w, agents[e.agent], shops[e.shop], draw);
      Effect(agents[e.agent := agents[e.agent].(destination := shops[e.shop].location)], shops,
             [Emission(e.time + travel, 8, MoveArrive, e.agent, -1, e.shop, e.item, travel)])
  }

  function OnMoveArrive(agents: seq<Agent>, shops: seq<Shop>, e: Event): Effect
  {
    if !IsAgent(agents, e.agent) || !IsShop(shops, e.shop) then Effect(agents, shops, [])
    else
      var a, place := agents[e.agent], shops[e.shop].location;
      Effect(agents[e.agent := a.(location := place, timeWalking := a.timeWalking + e.amount,
                                  visited := a.visited + [place])],
             shops, [Emission(e.time, 7, QueueEnter, e.agent, -1, e.shop, e.item, 0.0)])
  }

  function OnQueueEnter(agents: seq<Agent>, shops: seq<Shop>, e: Event, draw: real): Effect
  {
    if !IsAgent(agents, e.agent) || !IsShop(shops, e.shop) || e.item < 0 then Effect(agents, shops, [])
    else
      var a, s := agents[e.agent], shops[e.shop];
      if !CanBuy(agents, shops, e.agent, e.item, e.shop) || (s.capacity > 0 && s.queueSize >= s.capacity) then
        Effect(agents, shops, [Decide(e.time + 0.8, 6, e.agent)])
      else
        var delay := s.serviceTime + draw * 0.7;
        Effect(agents[e.agent := a.(timeQueueing := a.timeQueueing + delay)],
               shops[e.shop := s.(queueSize := s.queueSize + 1)],
               [Emission(e.time + delay, 7, Purchase, e.agent, -1, e.shop, e.item, 0.0)])
  }

  /** Everybody else at the buyer's place will observe the purchase. */
  function Observers(agents: seq<Agent>, e: Event, n: nat): seq<Emission>
    requires n <= |agents| && IsAgent(agents, e.agent)
  {
    if n == 0 then []
    else
      Observers(agents, e, n - 1) +
      if n - 1 == e.agent || agents[n - 1].location != agents[e.agent].location then []
      else [Emission(e.time + 0.1, 6, ObservePurchase, n - 1, e.agent, e.shop, e.item, 0.0)]
  }

  /** The first other agent at the same place, from index k on; -1 if none. */
  function Nearby(agents: seq<Agent>, a: int, k: nat): int
    requires IsAgent(agents, a) && k <= |agents|
    decreases |agents| - k
  {
    if k == |agents| then -1
    else if k != a && agents[k].location == agents[a].location then k
    else Nearby(agents, a, k + 1)
  }

  function Talk(agents: seq<Agent>, e: Event, draw: real): seq<Emission>
    requires IsAgent(agents, e.agent)
  {
    var other := Nearby(agents, e.agent, 0);
    if IsAgent(agents, other) && !agents[e.agent].inConversation && !agents[other].inConversation && draw < 0.35
    then [Emission(e.time + 0.2, 6, TalkStart, e.agent, other, e.shop, e.item, 0.0)]
    else []
  }

  function OnPurchase(agents: seq<Agent>, shops: seq<Shop>, e: Event, draw: real): Effect
  {
    if !IsAgent(agents, e.agent) || !IsShop(shops, e.shop) || e.item < 0 then Effect(agents, shops, [])
    else
      var a := agents[e.agent];
      var s := shops[e.shop].(queueSize := if shops[e.shop].queueSize > 0 then shops[e.shop].queueSize - 1 else 0);
      if !CanBuy(agents, shops, e.agent, e.item, e.shop) then
        Effect(agents, shops[e.shop := s], [Decide(e.time + 1.0, 5, e.agent)])
      else
        var lot := s.inventory[e.item];
        var buyer := a.(budget := a.budget - lot.price, moneySpent := a.moneySpent + lot.price,
                        lastPurchase := e.item, purchases := a.purchases + [e.item]);
        var agents' := agents[e.agent := buyer];
        Effect(agents', shops[e.shop := s.(inventory := s.inventory[e.item := lot.(stock := lot.stock - 1)])],
               Observers(agents', e, |agents'|) + Talk(agents', e, draw) +
               if buyer.budget > 0.01 then [Decide(e.time + 1.0, 5, e.agent)] else [])
  }

  function OnObserve(w: World, agents: seq<Agent>, shops: seq<Shop>, e: Event): Effect
    requires forall a :: a in agents ==> a.memorySlots > 0
  {
    if !IsAgent(agents, e.agent) || !(0 <= e.item < |w.itemTags|) || e.source < 0 then Effect(agents, shops, [])
    else
      var a := agents[e.agent];
      var signal := 0.4 + a.susceptibility * 0.6;
      var b := AddMemory(a.(observed := a.observed + 1, influence := a.influence + signal),
                         Memory(e.item, "", signal, e.time + 5.0, e.source, e.ordinal));
      var c := AddTagMemories(b, w.itemTags[e.item], signal * 0.5, e.time + 5.0, e.source, e.ordinal);
      Effect(agents[e.agent := c], shops,
             [Emission(e.time + 5.0, 3, InfluenceDecay, e.agent, -1, -1, -1, 0.0)] +
             if a.inConversation then [] else [Decide(e.time + 0.6, 5, e.agent)])
  }

  function OnTalkStart(agents: seq<Agent>, shops: seq<Shop>, e: Event, draw: real): Effect
  {
    if !IsAgent(agents, e.agent) || !IsAgent(agents, e.source) then Effect(agents, shops, [])
    else if agents[e.agent].inConversation || agents[e.source].inConversation then Effect(agents, shops, [])
    else
      var duration := 0.4 + draw * 1.2;
      var one := agents[e.agent := agents[e.agent].(inConversation := true, partner := e.source)];
      var both := one[e.source := one[e.source].(inConversation := true, partner := e.agent)];
      Effect(both, shops, [Emission(e.time + duration, 6, TalkEnd, e.agent, e.source, e.shop, e.item, duration)])
  }

  function Released(a: Agent, duration: real): Agent
  {
    a.(timeTalking := a.timeTalking + duration, inConversation := false, partner := -1)
  }

  function OnTalkEnd(agents: seq<Agent>, shops: seq<Shop>, e: Event): Effect
    requires forall a :: a in agents ==> a.memorySlots > 0
  {
    if !IsAgent(agents, e.agent) || !IsAgent(agents, e.source) then Effect(agents, shops, [])
    else
      var one := agents[e.agent := Released(agents[e.agent], e.amount)];
      var both := one[e.source := Released(one[e.source], e.amount)];
      var again := [Decide(e.time + 0.4, 5, e.agent), Decide(e.time + 0.4, 5, e.source)];
      if both[e.agent].lastPurchase < 0 then Effect(both, shops, again)
      else
        var b := both[e.source];
        var told := AddMemory(b, Memory(both[e.agent].lastPurchase, "", 0.3 + b.susceptibility * 0.4,
                                        e.time + 5.0, e.agent, e.ordinal));
        Effect(both[e.source := told], shops,
               [Emission(e.time + 5.0, 3, InfluenceDecay, e.source, -1, -1, -1, 0.0)] + again)
  }

  function OnInfluenceDecay(agents: seq<Agent>, shops: seq<Shop>, e: Event): Effect
  {
    if !IsAgent(agents, e.agent) then Effect(agents, shops, [])
    else
      var a := agents[e.agent];
      Effect(agents[e.agent := a.(memories := Remembered(a.memories, e.time))], shops, [])
  }

  function React(w: World, agents: seq<Agent>, shops: seq<Shop>, e: Event, luck: Luck): Effect
    requires forall a :: a in agents ==> a.memorySlots > 0
  {
    match e.kind
    case SimStart => OnSimStart(agents, shops)
    case DecidePurchase => OnDecide(agents, shops, e, luck.choice)
    case MoveStart => OnMoveStart(w, agents, shops, e, luck.draw)
    case MoveArrive => OnMoveArrive(agents, shops, e)
    case QueueEnter => OnQueueEnter(agents, shops, e, luck.draw)
    case Purchase => OnPurchase(agents, shops, e, luck.draw)
    case ObservePurchase => OnObserve(w, agents, shops, e)
    case TalkStart => OnTalkStart(agents, shops, e, luck.draw)
    case TalkEnd => OnTalkEnd(agents, shops, e)
    case InfluenceDecay => OnInfluenceDecay(agents, shops, e)
    case SimEnd => Effect(agents, shops, [])
  }

  // ------------------------------------------------------------- the step

  function Numbered(x: Emission, ordinal: nat, parent: nat): Event
  {
    Event(x.time, x.priority, ordinal, x.kind, x.agent, x.source, x.shop, x.item, parent, x.amount)
  }

  /** The events a handler schedules, with consecutive ordinals. */
  function Scheduled(out: seq<Emission>, first: nat, parent: nat): set<Event>
  {
    set i | 0 <= i < |out| :: Numbered(out[i], first + i, parent)
  }

  function Repeat(parent: nat, n: nat): seq<nat>
  {
    seq(n, _ => parent)
  }

  function Step(w: World, m: Market, e: Event, luck: Luck): Market
    requires forall a :: a in m.agents ==> a.memorySlots > 0
  {
    var f := React(w, m.agents, m.shops, e, luck);
    Market(f.agents, f.shops, m.pending - {e} + Scheduled(f.out, |m.parents|, e.ordinal),
           m.parents + Repeat(e.ordinal, |f.out|), e.time)
  }

  /** The state before the first event: SIM_START and SIM_END are pending. */
  function Initial(w: World, agents: seq<Agent>, shops: seq<Shop>): Market
  {
    Market(agents, shops,
           {Event(0.0, 100, 1, SimStart, -1, -1, -1, -1, 0, 0.0),
            Event(w.maxTime, -100, 2, SimEnd, -1, -1, -1, -1, 0, 0.0)},
           [0, 0, 0], 0.0)
  }
}

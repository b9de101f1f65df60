/** Push gossip with a bounded cache of seen ids (border/p2p/gossip.py). One call is one step. */
module Gossip {
  import opened Numbers
  import opened Sequences

  const FANOUT: nat := 4
  const SEEN_MAX: nat := 2048

  datatype Envelope<P> = Envelope(msgId: string, msgType: string, ttl: int, origin: string, payload: P)

  /** A message on its way to a peer. */
  datatype Sending<P> = Sending(peer: int, envelope: Envelope<P>)

  datatype Call<P> = Call(handler: int, payload: P)

  // ---------------------------------------------------------------- one router

  function Newest(ids: seq<string>): (s: seq<string>)
    ensures |s| <= SEEN_MAX
  {
    if |ids| > SEEN_MAX then ids[|ids| - SEEN_MAX..] else ids
  }

  /** The ids in insertion order. Marking a known id keeps its place; the oldest ids give way. */
  function MarkSeen(seen: seq<string>, id: string): (s: seq<string>)
    ensures |s| <= SEEN_MAX
  {
    Newest(if id in seen then seen else seen + [id])
  }

  function SendTo<P>(peers: seq<int>, envelope: Envelope<P>): (sends: seq<Sending<P>>)
    ensures |sends| == |peers|
    ensures forall i :: 0 <= i < |peers| ==> sends[i] == Sending(peers[i], envelope)
  {
    seq(|peers|, i requires 0 <= i < |peers| => Sending(peers[i], envelope))
  }

  /** The cache and the messages that go out when an envelope arrives. */
  function Arrive<P>(seen: seq<string>, e: Envelope<P>, targets: seq<int>): (seq<string>, seq<Sending<P>>)
  {
    if e.msgId in seen then (seen, [])
    else (MarkSeen(seen, e.msgId), if e.ttl > 1 then SendTo(targets, e.(ttl := e.ttl - 1)) else [])
  }

  function CallsFor<P>(handlers: seq<int>, payload: P): (calls: seq<Call<P>>)
    ensures |calls| == |handlers|
    ensures forall i :: 0 <= i < |handlers| ==> calls[i] == Call(handlers[i], payload)
  {
    seq(|handlers|, i requires 0 <= i < |handlers| => Call(handlers[i], payload))
  }

  /** A random sample of at most four different peers. */
  ghost predicate IsSample(targets: seq<int>, peers: seq<int>)
  {
    |targets| == (if |peers| < FANOUT then |peers| else FANOUT) && multiset(targets) <= multiset(peers)
  }

  class GossipRouter<P> {
    const self: string
    const makeId: (string, P) -> string
    var handlers: map<string, seq<int>>
    var seen: seq<string>
    var calls: seq<Call<P>>

    constructor (self: string, makeId: (string, P) -> string)
      ensures this.self == self && this.makeId == makeId && handlers == map[] && seen == [] && calls == []
    {
      this.self, this.makeId := self, makeId;
      handlers, seen, calls := map[], [], [];
    }

    function HandlersOf(msgType: string): seq<int>
      reads this`handlers
    {
      if msgType in handlers then handlers[msgType] else []
    }

    method On(msgType: string, handler: int)
      modifies this`handlers
      ensures handlers == old(handlers)[msgType := old(HandlersOf(msgType)) + [handler]]
    {
      if msgType !in handlers { handlers := handlers[msgType := []]; }
      handlers := handlers[msgType := handlers[msgType] + [handler]];
    }

    /** Records an id and evicts the oldest ones while the cache is too large. */
    method Mark(id: string)
      modifies this`seen
      ensures seen == MarkSeen(old(seen), id)
    {
      if id !in seen { seen := seen + [id]; }
      ghost var all := seen;
      ghost var evicted := 0;
      while |seen| > SEEN_MAX
        invariant evicted <= |all| && seen == all[evicted..]
        invariant evicted == 0 || |seen| >= SEEN_MAX
      {
        seen := seen[1..];
        evicted := evicted + 1;
      }
    }

    /** targets is the random sample that was drawn from the peers. */
    method Broadcast(msgType: string, payload: P, ttl: int, ghost peers: seq<int>, targets: seq<int>)
      returns (sends: seq<Sending<P>>)
      requires IsSample(targets, peers)
      modifies this`seen
      ensures seen == MarkSeen(old(seen), makeId(msgType, payload))
      ensures sends == SendTo(targets, Envelope(makeId(msgType, payload), msgType, ttl, self, payload))
      ensures |sends| <= FANOUT
    {
      var id := makeId(msgType, payload);
      Mark(id);
      sends := Fan(targets, Envelope(id, msgType, ttl, self, payload));
    }

    method Fan(targets: seq<int>, envelope: Envelope<P>) returns (sends: seq<Sending<P>>)
      ensures sends == SendTo(targets, envelope)
    {
      sends := [];
      for i := 0 to |targets|
        invariant sends == SendTo(targets, envelope)[..i]
      {
        sends := sends + [Sending(targets[i], envelope)];
      }
    }

    method Receive(envelope: Envelope<P>, ghost peers: seq<int>, targets: seq<int>)
      returns (isNew: bool, sends: seq<Sending<P>>)
      requires IsSample(targets, peers)
      modifies this`seen, this`calls
      ensures (seen, sends) == Arrive(old(seen), envelope, targets)
      ensures isNew == (envelope.msgId !in old(seen))
      ensures calls == old(calls) + (if isNew then CallsFor(HandlersOf(envelope.msgType), envelope.payload) else [])
    {
      sends := [];
      if envelope.msgId in seen { return false, []; }
      Mark(envelope.msgId);
      var toCall := HandlersOf(envelope.msgType);
      for i := 0 to |toCall|
        invariant seen == MarkSeen(old(seen), envelope.msgId)
        invariant calls == old(calls) + CallsFor(toCall, envelope.payload)[..i]
      {
        calls := calls + [Call(toCall[i], envelope.payload)];
      }
      if envelope.ttl > 1 { sends := Fan(targets, envelope.(ttl := envelope.ttl - 1)); }
      return true, sends;
    }
  }

  // ---------------------------------------------------------------- the cache over a whole run

  /** The ids one router marks, in order, whether by receiving or by broadcasting. */
  function CacheAfter(marks: seq<string>): seq<string>
  {
    if marks == [] then [] else MarkSeen(CacheAfter(marks[..|marks| - 1]), marks[|marks| - 1])
  }

  /** The marks that were not in the cache: those are the ones a receive hands to its handlers. */
  function Insertions(marks: seq<string>): seq<string>
  {
    if marks == [] then []
    else
      var before, id := marks[..|marks| - 1], marks[|marks| - 1];
      if id in CacheAfter(before) then Insertions(before) else Insertions(before) + [id]
  }

  /** The cache is the newest 2048 insertions. */
  lemma {:induction false} CacheIsNewest(marks: seq<string>)
    ensures CacheAfter(marks) == Newest(Insertions(marks))
  {
    if marks != [] {
      CacheIsNewest(marks[..|marks| - 1]);
      NewestAfterOne(Insertions(marks[..|marks| - 1]), marks[|marks| - 1]);
    }
  }

  lemma {:induction false} NewestAfterOne(ids: seq<string>, id: string)
    ensures Newest(Newest(ids) + [id]) == Newest(ids + [id]) && Newest(Newest(ids)) == Newest(ids)
  {}

  /** An id is inserted again only after at least 2048 insertions since the last time, of 2048 different
      other ids: any 2049 successive insertions are of different ids. */
  lemma {:induction false} NoEarlyRepeat(marks: seq<string>, a: nat, b: nat)
    requires a < b < |Insertions(marks)| && b - a <= SEEN_MAX
    ensures Insertions(marks)[a] != Insertions(marks)[b]
  {
    var before, id := marks[..|marks| - 1], marks[|marks| - 1];
    if b < |Insertions(before)| {
      NoEarlyRepeat(before, a, b);
    } else {
      CacheIsNewest(before);
      RecentIsKept(Insertions(before), a);
    }
  }

  lemma {:induction false} RecentIsKept(all: seq<string>, a: nat)
    requires a < |all| <= a + SEEN_MAX
    ensures all[a] in Newest(all)
  {
    var kept := Newest(all);
    assert kept[a - (|all| - |kept|)] == all[a];
  }

  // ---------------------------------------------------------------- the network

  /** Messages carry the number of the broadcast they stem from. */
  datatype Flight<P> = Flight(origin: nat, sending: Sending<P>)

  /** Every node's cache, the messages in the air, the origins of what was delivered, and the initial
      TTL of every broadcast. */
  datatype World<P> = World(seen: map<int, seq<string>>, air: seq<Flight<P>>, delivered: seq<nat>, ttls: seq<int>)

  datatype Event<P> =
    | Broadcasts(node: int, envelope: Envelope<P>, targets: seq<int>)
    | Delivers(index: nat, targets: seq<int>)
    | Loses(index: nat)

  /** Any peers may be chosen, any message may be next or may get lost. */
  predicate Possible<P>(w: World<P>, e: Event<P>)
  {
    match e
    case Broadcasts(_, _, targets) => |targets| <= FANOUT
    case Delivers(index, targets) => index < |w.air| && |targets| <= FANOUT
    case Loses(index) => index < |w.air|
  }

  function CacheOf<P>(w: World<P>, node: int): seq<string>
  {
    if node in w.seen then w.seen[node] else []
  }

  function Launch<P>(origin: nat, sends: seq<Sending<P>>): (fs: seq<Flight<P>>)
    ensures |fs| == |sends|
    ensures forall i :: 0 <= i < |fs| ==> fs[i] == Flight(origin, sends[i])
  {
    seq(|sends|, i requires 0 <= i < |sends| => Flight(origin, sends[i]))
  }

  function Without<P>(air: seq<Flight<P>>, index: nat): seq<Flight<P>>
    requires index < |air|
  {
    air[..index] + air[index + 1..]
  }

  /** An event that cannot happen changes nothing. */
  function Step<P>(w: World<P>, e: Event<P>): World<P>
  {
    if !Possible(w, e) then w
    else
    match e
    case Broadcasts(node, envelope, targets) =>
      World(w.seen[node := MarkSeen(CacheOf(w, node), envelope.msgId)],
            w.air + Launch(|w.ttls|, SendTo(targets, envelope)), w.delivered, w.ttls + [envelope.ttl])
    case Delivers(index, targets) =>
      var f := w.air[index];
      var (seen, sends) := Arrive(CacheOf(w, f.sending.peer), f.sending.envelope, targets);
      World(w.seen[f.sending.peer := seen], Without(w.air, index) + Launch(f.origin, sends),
            w.delivered + [f.origin], w.ttls)
    case Loses(index) => w.(air := Without(w.air, index))
  }

  function Run<P>(events: seq<Event<P>>): World<P>
  {
    if events == [] then World(map[], [], [], [])
    else Step(Run(events[..|events| - 1]), events[|events| - 1])
  }

  // ---------------------------------------------------------------- one node of the network

  /** The id an event makes a node mark: that of its own broadcast or of a message delivered to it. */
  function MarkIn<P>(w: World<P>, e: Event<P>, node: int): (mark: seq<string>)
    ensures |mark| <= 1
  {
    if !Possible(w, e) then []
    else
    match e
    case Broadcasts(n, envelope, _) => if n == node then [envelope.msgId] else []
    case Delivers(index, _) =>
      var s := w.air[index].sending;
      if s.peer == node then [s.envelope.msgId] else []
    case Loses(_) => []
  }

  function MarksOf<P>(events: seq<Event<P>>, node: int): seq<string>
  {
    if events == [] then []
    else
      var before := events[..|events| - 1];
      MarksOf(before, node) + MarkIn(Run(before), events[|events| - 1], node)
  }

  /** In every run a node's cache is made by the marks of that node and nothing else. */
  lemma {:induction false} CacheIsOfMarks<P>(events: seq<Event<P>>, node: int)
    ensures CacheOf(Run(events), node) == CacheAfter(MarksOf(events, node))
  {
    if events != [] {
      var before, e := events[..|events| - 1], events[|events| - 1];
      CacheIsOfMarks(before, node);
      CacheIsNewest(MarksOf(before, node));
      OneMark(CacheOf(Run(before), node), MarksOf(before, node), Run(before), e, node);
    }
  }

  lemma {:induction false} OneMark<P>(seen: seq<string>, marks: seq<string>, w: World<P>, e: Event<P>, node: int)
    requires seen == CacheAfter(marks) == CacheOf(w, node) && |seen| <= SEEN_MAX
    ensures CacheOf(Step(w, e), node) == CacheAfter(marks + MarkIn(w, e, node))
  {
    var mark := MarkIn(w, e, node);
    if mark == [] {
      assert marks + mark == marks;
    } else {
      assert (marks + mark)[..|marks|] == marks;
    }
  }

  /** The event makes the node take the id for new: it goes to the handlers, or out as a broadcast. */
  predicate TakenForNew<P>(w: World<P>, e: Event<P>, node: int, id: string)
  {
    MarkIn(w, e, node) == [id] && id !in CacheOf(w, node)
  }

  /** Between two events of a run that make a node take the same id for new, it takes at least 2048
      other ids for new: until then the flood does not come back. */
  lemma {:induction false} NoEarlyReturn<P>(events: seq<Event<P>>, i: nat, j: nat, node: int, id: string)
    requires i < j < |events|
    requires TakenForNew(Run(events[..i]), events[i], node, id) && TakenForNew(Run(events[..j]), events[j], node, id)
    ensures |Insertions(MarksOf(events[..j], node))| - |Insertions(MarksOf(events[..i], node))| > SEEN_MAX
  {
    var a, b := |Insertions(MarksOf(events[..i], node))|, |Insertions(MarksOf(events[..j], node))|;
    OneInsertion(events, i, node, id);
    OneInsertion(events, j, node, id);
    InsertionsGrow(events, i + 1, j + 1, node);
    InsertionsGrow(events, i + 1, j, node);
    if b - a <= SEEN_MAX { NoEarlyRepeat(MarksOf(events[..j + 1], node), a, b); }
  }

  lemma {:induction false} OneInsertion<P>(events: seq<Event<P>>, i: nat, node: int, id: string)
    requires i < |events| && TakenForNew(Run(events[..i]), events[i], node, id)
    ensures Insertions(MarksOf(events[..i + 1], node)) == Insertions(MarksOf(events[..i], node)) + [id]
  {
    CacheIsOfMarks(events[..i], node);
    NextMark(events, i, node);
    Inserted(MarksOf(events[..i], node), id);
  }

  lemma {:induction false} NextMark<P>(events: seq<Event<P>>, i: nat, node: int)
    requires i < |events|
    ensures MarksOf(events[..i + 1], node) == MarksOf(events[..i], node) + MarkIn(Run(events[..i]), events[i], node)
  {
    assert events[..i + 1][..i] == events[..i];
  }

  lemma {:induction false} Inserted(marks: seq<string>, id: string)
    requires id !in CacheAfter(marks)
    ensures Insertions(marks + [id]) == Insertions(marks) + [id]
  {
    assert (marks + [id])[..|marks|] == marks;
  }

  lemma {:induction false} InsertionsGrow<P>(events: seq<Event<P>>, i: nat, j: nat, node: int)
    requires i <= j <= |events|
    ensures Insertions(MarksOf(events[..i], node)) <= Insertions(MarksOf(events[..j], node))
    decreases j
  {
    if i < j {
      InsertionsGrow(events, i, j - 1, node);
      NextMark(events, j - 1, node);
      OneMoreMark(MarksOf(events[..j - 1], node), MarkIn(Run(events[..j - 1]), events[j - 1], node));
    }
  }

  lemma {:induction false} OneMoreMark(marks: seq<string>, mark: seq<string>)
    requires |mark| <= 1
    ensures Insertions(marks) <= Insertions(marks + mark)
  {
    if mark == [] {
      assert marks + mark == marks;
    } else {
      assert (marks + mark)[..|marks|] == marks;
    }
  }

  // ---------------------------------------------------------------- how far a flood can go

  /** The deliveries one message can still cause, its own included. */
  function Weight(ttl: int): (n: nat)
    ensures n >= 1
    decreases if ttl > 1 then ttl else 0
  {
    if ttl > 1 then 1 + FANOUT * Weight(ttl - 1) else 1
  }

  /** 4 + 4^2 + ... + 4^ttl, and 4 for any TTL below 2. */
  function Flood(ttl: int): nat
    decreases if ttl > 1 then ttl else 0
  {
    if ttl > 1 then Flood(ttl - 1) + Pow4(ttl) else 4
  }

  lemma {:induction false} FloodIsFourWeights(ttl: int)
    ensures Flood(ttl) == 4 * Weight(ttl)
    decreases if ttl > 1 then ttl else 0
  {
    if ttl > 1 {
      FloodIsFourWeights(ttl - 1);
      WeightGrows(ttl);
    }
  }

  lemma {:induction false} WeightGrows(ttl: int)
    requires ttl > 1
    ensures 4 * Weight(ttl) == 4 * Weight(ttl - 1) + Pow4(ttl)
    decreases ttl
  {
    if ttl > 2 {
      WeightGrows(ttl - 1);
    } else {
      assert Pow4(2) == 16 && Weight(1) == 1;
    }
  }

  /** The broadcasts a bound is about. */
  type Choice = nat -> bool

  function Only(origin: nat): Choice
  {
    (o: nat) => o == origin
  }

  function All(): Choice
  {
    (o: nat) => true
  }

  function Remaining<P>(mine: Choice): Flight<P> -> int
  {
    (f: Flight<P>) => if mine(f.origin) then Weight(f.sending.envelope.ttl) else 0
  }

  function Pending<P>(air: seq<Flight<P>>, mine: Choice): int
  {
    SumOf(air, Remaining(mine))
  }

  function Budget(ttls: seq<int>, mine: Choice): nat
  {
    if ttls == [] then 0
    else Budget(ttls[..|ttls| - 1], mine) + if mine(|ttls| - 1) then Flood(ttls[|ttls| - 1]) else 0
  }

  function Count(delivered: seq<nat>, mine: Choice): nat
  {
    |Filter(delivered, mine)|
  }

  ghost predicate WithinBudget<P>(w: World<P>, mine: Choice)
  {
    Count(w.delivered, mine) + Pending(w.air, mine) <= Budget(w.ttls, mine)
  }

  lemma {:induction false} PendingConcat<P>(a: seq<Flight<P>>, b: seq<Flight<P>>, mine: Choice)
    ensures Pending(a + b, mine) == Pending(a, mine) + Pending(b, mine)
  {
    SumOfConcat(a, b, Remaining(mine));
  }

  lemma {:induction false} PendingWithout<P>(air: seq<Flight<P>>, index: nat, mine: Choice)
    requires index < |air|
    ensures
      var f := air[index];
      Pending(air, mine)
      == Pending(Without(air, index), mine) + if mine(f.origin) then Weight(f.sending.envelope.ttl) else 0
  {
    SumOfWithout(air, index, Remaining(mine));
  }

  lemma {:induction false} PendingLaunch<P>(origin: nat, peers: seq<int>, envelope: Envelope<P>, mine: Choice)
    ensures Pending(Launch(origin, SendTo(peers, envelope)), mine)
         == if mine(origin) then |peers| * Weight(envelope.ttl) else 0
  {
    var fs := Launch(origin, SendTo(peers, envelope));
    if peers != [] {
      var init := peers[..|peers| - 1];
      assert fs[..|fs| - 1] == Launch(origin, SendTo(init, envelope));
      PendingLaunch(origin, init, envelope, mine);
    }
  }

  lemma {:induction false} FanoutBound(n: nat, weight: nat)
    requires n <= FANOUT
    ensures n * weight <= 4 * weight
  {}

  lemma {:induction false} StepWithinBudget<P>(w: World<P>, e: Event<P>, mine: Choice)
    requires WithinBudget(w, mine)
    ensures WithinBudget(Step(w, e), mine)
  {
    if Possible(w, e) {
      match e
      case Broadcasts(_, envelope, targets) =>
        var n := |w.ttls|;
        PendingConcat(w.air, Launch(n, SendTo(targets, envelope)), mine);
        PendingLaunch(n, targets, envelope, mine);
        FanoutBound(|targets|, Weight(envelope.ttl));
        FloodIsFourWeights(envelope.ttl);
        assert (w.ttls + [envelope.ttl])[..n] == w.ttls;
      case Delivers(index, targets) => DeliveryWithinBudget(w, index, targets, mine);
      case Loses(index) => PendingWithout(w.air, index, mine);
    }
  }

  lemma {:induction false} DeliveryWithinBudget<P>(w: World<P>, index: nat, targets: seq<int>, mine: Choice)
    requires WithinBudget(w, mine) && Possible(w, Delivers(index, targets))
    ensures WithinBudget(Step(w, Delivers(index, targets)), mine)
  {
    var f := w.air[index];
    var e := f.sending.envelope;
    var sends := Arrive(CacheOf(w, f.sending.peer), e, targets).1;
    PendingWithout(w.air, index, mine);
    PendingConcat(Without(w.air, index), Launch(f.origin, sends), mine);
    FilterAppend(w.delivered, f.origin, mine);
    if sends != [] {
      PendingLaunch(f.origin, targets, e.(ttl := e.ttl - 1), mine);
      FanoutBound(|targets|, Weight(e.ttl - 1));
    } else {
      assert Launch(f.origin, sends) == [];
    }
  }

  lemma {:induction false} RunWithinBudget<P>(events: seq<Event<P>>, mine: Choice)
    ensures WithinBudget(Run(events), mine)
  {
    if events != [] {
      RunWithinBudget(events[..|events| - 1], mine);
      StepWithinBudget(Run(events[..|events| - 1]), events[|events| - 1], mine);
    }
  }

  lemma {:induction false} PendingNonNegative<P>(air: seq<Flight<P>>, mine: Choice)
    ensures Pending(air, mine) >= 0
  {
    if air != [] {
      PendingNonNegative(air[..|air| - 1], mine);
      assert Weight(air[|air| - 1].sending.envelope.ttl) >= 1;
    }
  }

  lemma {:induction false} BudgetOfOne(ttls: seq<int>, origin: nat)
    ensures Budget(ttls, Only(origin)) == if origin < |ttls| then Flood(ttls[origin]) else 0
  {
    if ttls != [] { BudgetOfOne(ttls[..|ttls| - 1], origin); }
  }

  /** One broadcast with TTL T causes at most 4 + 4^2 + ... + 4^T deliveries, over any topology, any
      choice of peers, any order and any loss, even when caches forget ids. */
  lemma {:induction false} BroadcastIsBounded<P>(events: seq<Event<P>>, origin: nat)
    requires origin < |Run(events).ttls|
    ensures |Filter(Run(events).delivered, Only(origin))| <= Flood(Run(events).ttls[origin])
  {
    var w := Run(events);
    RunWithinBudget(events, Only(origin));
    PendingNonNegative(w.air, Only(origin));
    BudgetOfOne(w.ttls, origin);
  }

  /** So gossip dies out: all deliveries of a run together are bounded by its broadcasts alone. */
  lemma {:induction false} GossipDiesOut<P>(events: seq<Event<P>>)
    ensures |Run(events).delivered| + |Run(events).air| <= Budget(Run(events).ttls, All())
  {
    var w := Run(events);
    RunWithinBudget(events, All());
    FilterAll(w.delivered, All());
    AirIsPending(w.air);
  }

  lemma {:induction false} AirIsPending<P>(air: seq<Flight<P>>)
    ensures |air| <= Pending(air, All())
  {
    if air != [] {
      AirIsPending(air[..|air| - 1]);
      assert Weight(air[|air| - 1].sending.envelope.ttl) >= 1;
    }
  }
}

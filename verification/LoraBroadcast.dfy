/** The broadcast queue of a bridge node (LoRaBroadcaster), from queueing to delivery. */
module LoraBroadcast {
  import opened Wrappers
  import opened Bytes
  import opened Sequences
  import opened Lora
  import opened LoraDelivery

  datatype Content = Content(contentId: string, contentType: string, title: string, body: string,
                             url: Option<string>, language: string, priority: int, queuedAt: real)

  /** Without hardware the packets are only logged and counted. */
  datatype Radio = Radio(simulation: bool, queue: seq<Content>, counter: nat, packetsSent: nat)

  /** What was taken from the queue, the packets that went out for it, and whether sending raised. */
  datatype Sent = Sent(content: Content, session: int, packets: seq<Packet>, failed: bool)

  function Idle(simulation: bool): Radio
  {
    Radio(simulation, [], 0, 0)
  }

  function PriorityKey(c: Content): real
  {
    c.priority as real
  }

  function Enqueue(r: Radio, c: Content): Radio
  {
    r.(queue := StableSort(r.queue + [c], PriorityKey))
  }

  /** On the hardware a header has one byte for the number of packets. */
  predicate Fails(simulation: bool, payload: Bytes)
  {
    !simulation && ChunkCount(payload) > 255
  }

  function PacketsOut(simulation: bool, payload: Bytes, session: int): seq<Packet>
  {
    if Fails(simulation, payload) then [] else Packets(payload, session)
  }

  /** A content that cannot be sent has left the queue and used up a session number. */
  function BroadcastNext(codec: Codec<Content>, r: Radio): (Radio, Option<Sent>)
  {
    if r.queue == [] then (r, None)
    else
      var session, payload := r.counter % 0x1_0000, codec.encode(r.queue[0]);
      var packets := PacketsOut(r.simulation, payload, session);
      (r.(queue := r.queue[1..], counter := r.counter + 1, packetsSent := r.packetsSent + |packets|),
       Some(Sent(r.queue[0], session, packets, Fails(r.simulation, payload))))
  }

  /** The packets of a payload pack all or none. */
  lemma {:induction false} ChunksPack(payload: Bytes, session: int, i: nat)
    requires 0 <= session < 0x1_0000 && i < ChunkCount(payload)
    ensures ToBytes(PacketAt(payload, session, i)).Some? <==> ChunkCount(payload) <= 255
  {}

  /** What a transmission stopped by the first packet that does not pack has sent. */
  lemma {:induction false} AllOrNothing(payload: Bytes, session: int, aired: seq<Packet>)
    requires 0 <= session < 0x1_0000
    requires aired <= Packets(payload, session) && forall p :: p in aired ==> ToBytes(p).Some?
    requires aired == Packets(payload, session) || ToBytes(Packets(payload, session)[|aired|]).None?
    ensures ChunkCount(payload) <= 255 <==> aired == Packets(payload, session)
    ensures ChunkCount(payload) > 255 ==> aired == []
  {
    var all := Packets(payload, session);
    if aired != all { ChunksPack(payload, session, |aired|); }
    if aired != [] {
      assert aired[0] == all[0] && aired[0] in aired;
      ChunksPack(payload, session, 0);
    }
  }

  class LoRaBroadcaster {
    const codec: Codec<Content>
    const simulation: bool
    var queue: seq<Content>
    var sessionCounter: nat
    var packetsSent: nat

    constructor (codec: Codec<Content>, simulation: bool)
      ensures this.codec == codec && Value() == Idle(simulation)
    {
      this.codec, this.simulation := codec, simulation;
      queue, sessionCounter, packetsSent := [], 0, 0;
    }

    ghost function Value(): Radio
      reads this
    {
      Radio(simulation, queue, sessionCounter, packetsSent)
    }

    method Queue(content: Content)
      modifies this`queue
      ensures Value() == Enqueue(old(Value()), content)
    {
      queue := queue + [content];
      queue := StableSort(queue, PriorityKey);
    }

    method Broadcast() returns (sent: Option<Sent>)
      modifies this
      ensures (Value(), sent) == BroadcastNext(codec, old(Value()))
    {
      if queue == [] { return None; }
      var content := queue[0];
      queue := queue[1..];
      var session := sessionCounter % 0x1_0000;
      sessionCounter := sessionCounter + 1;
      var payload := codec.encode(content);
      var packets := Chunk(payload, session);
      var failed := false;
      if simulation {
        packetsSent := packetsSent + |packets|;
      } else {
        packets, failed := Transmit(packets);
        AllOrNothing(payload, session, packets);
      }
      return Some(Sent(content, session, packets, failed));
    }

    /** Sends until a packet does not pack; only a complete transmission is counted. */
    method Transmit(packets: seq<Packet>) returns (aired: seq<Packet>, failed: bool)
      modifies this`packetsSent
      ensures aired <= packets && (forall p :: p in aired ==> ToBytes(p).Some?)
      ensures if failed then |aired| < |packets| && ToBytes(packets[|aired|]).None? else aired == packets
      ensures packetsSent == old(packetsSent) + if failed then 0 else |packets|
    {
      for i := 0 to |packets|
        invariant forall p :: p in packets[..i] ==> ToBytes(p).Some?
      {
        if ToBytes(packets[i]).None? { return packets[..i], true; }
      }
      packetsSent := packetsSent + |packets|;
      return packets, false;
    }
  }

  // ---------------------------------------------------------------- runs

  datatype Event = Queued(content: Content) | Broadcasting

  /** The radio with everything it was given and everything it sent. */
  datatype History = History(radio: Radio, queued: seq<Content>, sent: seq<Sent>)

  function HistoryStep(codec: Codec<Content>, h: History, e: Event): History
  {
    match e
    case Queued(c) => h.(radio := Enqueue(h.radio, c), queued := h.queued + [c])
    case Broadcasting =>
      var (radio, sent) := BroadcastNext(codec, h.radio);
      h.(radio := radio, sent := if sent.None? then h.sent else h.sent + [sent.value])
  }

  function Run(codec: Codec<Content>, simulation: bool, events: seq<Event>): History
  {
    if events == [] then History(Idle(simulation), [], [])
    else HistoryStep(codec, Run(codec, simulation, events[..|events| - 1]), events[|events| - 1])
  }

  function Contents(sent: seq<Sent>): (cs: seq<Content>)
    ensures |cs| == |sent|
  {
    if sent == [] then [] else Contents(sent[..|sent| - 1]) + [sent[|sent| - 1].content]
  }

  /** First in, first out among the contents of one priority. */
  ghost predicate FifoAt(h: History, k: real)
  {
    WithKey(Contents(h.sent) + h.radio.queue, PriorityKey, k) == WithKey(h.queued, PriorityKey, k)
  }

  ghost predicate Numbered(codec: Codec<Content>, h: History)
  {
    && h.radio.counter == |h.sent| && h.radio.packetsSent == |AllPackets(h.sent)|
    && forall i :: 0 <= i < |h.sent| ==>
         && h.sent[i].session == i % 0x1_0000
         && h.sent[i].packets == PacketsOut(h.radio.simulation, codec.encode(h.sent[i].content), i % 0x1_0000)
         && h.sent[i].failed == Fails(h.radio.simulation, codec.encode(h.sent[i].content))
  }

  function AllPackets(sent: seq<Sent>): seq<Packet>
  {
    if sent == [] then [] else AllPackets(sent[..|sent| - 1]) + sent[|sent| - 1].packets
  }

  lemma {:induction false} EnqueueKeepsOrder(sent: seq<Content>, queue: seq<Content>, queued: seq<Content>,
                                             c: Content, k: real)
    requires WithKey(sent + queue, PriorityKey, k) == WithKey(queued, PriorityKey, k)
    ensures WithKey(sent + StableSort(queue + [c], PriorityKey), PriorityKey, k)
         == WithKey(queued + [c], PriorityKey, k)
  {
    SortBehind(sent, queue + [c], k);
    AppendBehind(sent, queue, queued, c, k);
  }

  lemma {:induction false} SortBehind(sent: seq<Content>, waiting: seq<Content>, k: real)
    ensures WithKey(sent + StableSort(waiting, PriorityKey), PriorityKey, k) == WithKey(sent + waiting, PriorityKey, k)
  {
    StableSortCorrect(waiting, PriorityKey);
    WithKeyConcat(sent, StableSort(waiting, PriorityKey), PriorityKey, k);
    WithKeyConcat(sent, waiting, PriorityKey, k);
  }

  lemma {:induction false} AppendBehind(sent: seq<Content>, queue: seq<Content>, queued: seq<Content>, c: Content,
                                        k: real)
    requires WithKey(sent + queue, PriorityKey, k) == WithKey(queued, PriorityKey, k)
    ensures WithKey(sent + (queue + [c]), PriorityKey, k) == WithKey(queued + [c], PriorityKey, k)
  {
    assert sent + (queue + [c]) == sent + queue + [c];
    WithKeyConcat(sent + queue, [c], PriorityKey, k);
    WithKeyConcat(queued, [c], PriorityKey, k);
  }

  /** After every run: the queue is sorted by priority, what was sent and what still waits is what was
      queued, in order within each priority, sessions are numbered consecutively, and sending failed for
      exactly the contents of more than 255 packets, on the hardware. */
  lemma {:induction false} QueueIsFair(codec: Codec<Content>, simulation: bool, events: seq<Event>)
    ensures
      var h := Run(codec, simulation, events);
      && SortedBy(h.radio.queue, PriorityKey) && (forall k :: FifoAt(h, k)) && Numbered(codec, h)
      && h.radio.simulation == simulation
  {
    if events != [] {
      var before, e := Run(codec, simulation, events[..|events| - 1]), events[|events| - 1];
      QueueIsFair(codec, simulation, events[..|events| - 1]);
      match e
      case Queued(c) =>
        StableSortCorrect(before.radio.queue + [c], PriorityKey);
        forall k ensures FifoAt(HistoryStep(codec, before, e), k) {
          assert FifoAt(before, k);
          EnqueueKeepsOrder(Contents(before.sent), before.radio.queue, before.queued, c, k);
        }
      case Broadcasting =>
        if before.radio.queue != [] { BroadcastKeeps(codec, before); }
    }
  }

  /** What goes out for every content that was taken from the queue: on the hardware nothing for a payload of
      more than 54 570 bytes, for which sending raises, and otherwise packets that join to the payload. */
  lemma {:induction false} SentExactly(codec: Codec<Content>, simulation: bool, events: seq<Event>, i: nat)
    requires i < |Run(codec, simulation, events).sent|
    ensures
      var sent := Run(codec, simulation, events).sent[i];
      var payload := codec.encode(sent.content);
      && (sent.failed <==> !simulation && |payload| > 54_570)
      && (sent.failed ==> sent.packets == [])
      && (!sent.failed ==> Join(sent.packets) == payload && forall p :: p in sent.packets ==> p.session == i % 65_536)
  {
    QueueIsFair(codec, simulation, events);
    var payload := codec.encode(Run(codec, simulation, events).sent[i].content);
    JoinChunks(payload, i % 65_536);
  }

  lemma {:induction false} BroadcastKeeps(codec: Codec<Content>, h: History)
    requires SortedBy(h.radio.queue, PriorityKey) && (forall k :: FifoAt(h, k)) && Numbered(codec, h)
    requires h.radio.queue != []
    ensures
      var h' := HistoryStep(codec, h, Broadcasting);
      && SortedBy(h'.radio.queue, PriorityKey) && (forall k :: FifoAt(h', k)) && Numbered(codec, h')
      && h'.radio.simulation == h.radio.simulation
  {
    var h' := HistoryStep(codec, h, Broadcasting);
    var n, queue := |h.sent|, h.radio.queue;
    var sent := BroadcastNext(codec, h.radio).1.value;
    assert h'.sent == h.sent + [sent] && h'.sent[..n] == h.sent;
    MovedOver(h.sent, sent, queue);
    forall k ensures FifoAt(h', k) { assert FifoAt(h, k); }
  }

  lemma {:induction false} MovedOver(sent: seq<Sent>, s: Sent, queue: seq<Content>)
    requires queue != [] && s.content == queue[0]
    ensures Contents(sent + [s]) + queue[1..] == Contents(sent) + queue
  {}

  ghost predicate OldestOfItsPriority(h: History, c: Content)
  {
    WithKey(Contents(h.sent), PriorityKey, PriorityKey(c)) + [c] <= WithKey(h.queued, PriorityKey, PriorityKey(c))
  }

  /** What is broadcast next has the smallest priority number of everything that waits, and was queued
      before everything that waits with the same priority. */
  lemma {:induction false} MostUrgentFirst(codec: Codec<Content>, simulation: bool, events: seq<Event>)
    requires Run(codec, simulation, events).radio.queue != []
    ensures
      var h := Run(codec, simulation, events);
      var sent := BroadcastNext(codec, h.radio).1;
      && sent.Some?
      && (forall d :: d in h.radio.queue ==> sent.value.content.priority <= d.priority)
      && OldestOfItsPriority(h, sent.value.content)
  {
    QueueIsFair(codec, simulation, events);
    var h := Run(codec, simulation, events);
    var queue := h.radio.queue;
    assert FifoAt(h, PriorityKey(queue[0]));
    HeadIsMinimal(queue);
    HeadIsOldest(Contents(h.sent), queue);
  }

  lemma {:induction false} HeadIsMinimal(queue: seq<Content>)
    requires SortedBy(queue, PriorityKey) && queue != []
    ensures forall d :: d in queue ==> queue[0].priority <= d.priority
  {}

  lemma {:induction false} HeadIsOldest(sent: seq<Content>, queue: seq<Content>)
    requires queue != []
    ensures
      var c := queue[0];
      WithKey(sent, PriorityKey, PriorityKey(c)) + [c] <= WithKey(sent + queue, PriorityKey, PriorityKey(c))
  {
    var c, k := queue[0], PriorityKey(queue[0]);
    WithKeyConcat(sent, queue, PriorityKey, k);
    assert queue == [c] + queue[1..];
    WithKeyConcat([c], queue[1..], PriorityKey, k);
    assert [c][..0] == [];
  }

  // ---------------------------------------------------------------- end to end

  /** The payload of every session of a run short enough not to reuse a session id. */
  function OnTheAir(codec: Codec<Content>, sent: seq<Sent>): map<int, Bytes>
  {
    map i | 0 <= i < |sent| :: codec.encode(sent[i].content)
  }

  lemma {:induction false} PacketsAreOnAir(codec: Codec<Content>, sent: seq<Sent>, n: nat, p: Packet)
    requires n <= |sent|
    requires forall i :: 0 <= i < |sent| ==> sent[i].packets == Packets(codec.encode(sent[i].content), i)
    ensures multiset(AllPackets(sent[..n]))[p] == if OnAir(OnTheAir(codec, sent), p) && p.session < n then 1 else 0
  {
    if n > 0 {
      assert sent[..n][..n - 1] == sent[..n - 1];
      PacketsAreOnAir(codec, sent, n - 1, p);
      NumberedOnce(sent[n - 1].packets, p);
    }
  }

  ghost predicate DeliversContents(codec: Codec<Content>, sent: seq<Sent>, received: seq<Content>, order: seq<int>)
  {
    && |received| == |order| && NoRepeats(order) && (forall i :: i in order <==> 0 <= i < |sent|)
    && forall j :: 0 <= j < |order| ==>
         0 <= order[j] < |sent| && codec.decode(codec.encode(sent[order[j]].content)) == Some(received[j])
  }

  /** A run of at most 65536 broadcasts of decodable contents of at most 255 packets: whoever hears every
      packet once, in whatever order, receives every content that was sent exactly once. */
  lemma {:induction false} BroadcastReachesReceiver(codec: Codec<Content>, simulation: bool, events: seq<Event>,
                                                    raws: seq<Bytes>, arrivals: seq<Packet>) returns (order: seq<int>)
    requires
      var sent := Run(codec, simulation, events).sent;
      && |sent| <= 0x1_0000 && Broadcastable(codec, OnTheAir(codec, sent))
      && RawOf(raws, arrivals) && multiset(arrivals) == multiset(AllPackets(sent))
    ensures DeliversContents(codec, Run(codec, simulation, events).sent, ReceiveAll(codec, raws).received, order)
    ensures ReceiveAll(codec, raws).sessions == map[]
  {
    var h := Run(codec, simulation, events);
    QueueIsFair(codec, simulation, events);
    OwnSessions(codec, h);
    order := SentReachesReceiver(codec, h.sent, raws, arrivals);
  }

  lemma {:induction false} OwnSessions(codec: Codec<Content>, h: History)
    requires Numbered(codec, h) && |h.sent| <= 0x1_0000
    requires Broadcastable(codec, OnTheAir(codec, h.sent))
    ensures forall i :: 0 <= i < |h.sent| ==> h.sent[i].packets == Packets(codec.encode(h.sent[i].content), i)
  {
    forall i | 0 <= i < |h.sent| ensures h.sent[i].packets == Packets(codec.encode(h.sent[i].content), i) {
      assert i in OnTheAir(codec, h.sent) && i % 0x1_0000 == i;
    }
  }

  lemma {:induction false} SentReachesReceiver(codec: Codec<Content>, sent: seq<Sent>, raws: seq<Bytes>,
                                               arrivals: seq<Packet>)
    returns (order: seq<int>)
    requires forall i :: 0 <= i < |sent| ==> sent[i].packets == Packets(codec.encode(sent[i].content), i)
    requires Broadcastable(codec, OnTheAir(codec, sent))
    requires RawOf(raws, arrivals) && multiset(arrivals) == multiset(AllPackets(sent))
    ensures DeliversContents(codec, sent, ReceiveAll(codec, raws).received, order)
    ensures ReceiveAll(codec, raws).sessions == map[]
  {
    PacketsOnceOnAir(codec, sent, arrivals);
    order := EveryPayloadOnce(codec, OnTheAir(codec, sent), raws, arrivals);
  }

  lemma {:induction false} PacketsOnceOnAir(codec: Codec<Content>, sent: seq<Sent>, arrivals: seq<Packet>)
    requires forall i :: 0 <= i < |sent| ==> sent[i].packets == Packets(codec.encode(sent[i].content), i)
    requires multiset(arrivals) == multiset(AllPackets(sent))
    ensures EachOnce(OnTheAir(codec, sent), arrivals)
  {
    assert sent[..|sent|] == sent;
    forall p: Packet ensures multiset(arrivals)[p] == if OnAir(OnTheAir(codec, sent), p) then 1 else 0 {
      PacketsAreOnAir(codec, sent, |sent|, p);
    }
  }
}

/** The receiver (LoRaReceiver) and what it delivers when every packet arrives once, in any order. */
module LoraDelivery {
  import opened Wrappers
  import opened Bytes
  import opened Sequences
  import opened Lora

  datatype Receiver<C> = Receiver(sessions: map<int, seq<Packet>>, received: seq<C>)

  function Pending<C>(rx: Receiver<C>, session: int): seq<Packet>
  {
    if session in rx.sessions then rx.sessions[session] else []
  }

  /** A complete session that cannot be decoded stays, sorted. */
  function Accept<C>(codec: Codec<C>, rx: Receiver<C>, p: Packet): (Receiver<C>, Option<C>)
  {
    var list := Pending(rx, p.session) + [p];
    if |list| < p.total then (rx.(sessions := rx.sessions[p.session := list]), None)
    else
      var (kept, content) := Reassemble(codec, list);
      if content.None? then (rx.(sessions := rx.sessions[p.session := kept]), None)
      else (Receiver(rx.sessions - {p.session}, rx.received + [content.value]), content)
  }

  function ReceiveRaw<C>(codec: Codec<C>, rx: Receiver<C>, raw: Bytes): (Receiver<C>, Option<C>)
  {
    match FromBytes(raw)
    case None => (rx, None)
    case Some(p) => Accept(codec, rx, p)
  }

  function ReceiveAll<C>(codec: Codec<C>, raws: seq<Bytes>): Receiver<C>
  {
    if raws == [] then Receiver(map[], [])
    else ReceiveRaw(codec, ReceiveAll(codec, raws[..|raws| - 1]), raws[|raws| - 1]).0
  }

  class LoRaReceiver<C> {
    const codec: Codec<C>
    var sessions: map<int, seq<Packet>>
    var received: seq<C>

    constructor (codec: Codec<C>)
      ensures this.codec == codec && Value() == Receiver(map[], [])
    {
      this.codec := codec;
      sessions, received := map[], [];
    }

    ghost function Value(): Receiver<C>
      reads this
    {
      Receiver(sessions, received)
    }

    method ReceivePacket(raw: Bytes) returns (content: Option<C>)
      modifies this
      ensures (Value(), content) == ReceiveRaw(codec, old(Value()), raw)
    {
      var parsed := FromBytes(raw);
      if parsed.None? { return None; }
      var packet := parsed.value;
      var session := packet.session;
      ghost var list := Pending(Value(), session) + [packet];
      if session !in sessions { sessions := sessions[session := []]; }
      sessions := sessions[session := sessions[session] + [packet]];
      LastUpdateStays(old(sessions), session, [], list);
      if |sessions[session]| >= packet.total {
        var (sorted, decoded) := Reassemble(codec, sessions[session]);
        sessions := sessions[session := sorted];
        LastUpdateStays(old(sessions), session, list, sorted);
        if decoded.Some? {
          received := received + [decoded.value];
          sessions := sessions - {session};
          return decoded;
        }
      }
      return None;
    }

    static lemma {:induction false} LastUpdateStays(m: map<int, seq<Packet>>, k: int, v: seq<Packet>, w: seq<Packet>)
      ensures m[k := v][k := w] == m[k := w] && m[k := w] - {k} == m - {k}
    {}
  }

  // ---------------------------------------------------------------- what is on the air

  /** One payload per session id, none of them empty or too long for a header, and decodable. */
  ghost predicate Broadcastable<C>(codec: Codec<C>, tx: map<int, Bytes>)
  {
    forall sid :: sid in tx ==>
      0 <= sid < 0x1_0000 && tx[sid] != [] && ChunkCount(tx[sid]) <= 255 && codec.decode(tx[sid]).Some?
  }

  predicate OnAir(tx: map<int, Bytes>, p: Packet)
  {
    && p.session in tx && 0 <= p.seqNum < ChunkCount(tx[p.session])
    && p == PacketAt(tx[p.session], p.session, p.seqNum)
  }

  /** Every packet of every session arrives once, and nothing else does. */
  ghost predicate EachOnce(tx: map<int, Bytes>, arrivals: seq<Packet>)
  {
    forall p :: multiset(arrivals)[p] == if OnAir(tx, p) then 1 else 0
  }

  function OfSession(ps: seq<Packet>, sid: int): seq<Packet>
  {
    Filter(ps, (p: Packet) => p.session == sid)
  }

  lemma {:induction false} NumberedOnce(ps: seq<Packet>, p: Packet)
    requires forall i :: 0 <= i < |ps| ==> ps[i].seqNum == i
    ensures multiset(ps)[p] == if 0 <= p.seqNum < |ps| && p == ps[p.seqNum] then 1 else 0
  {
    if ps != [] {
      var n := |ps| - 1;
      NumberedOnce(ps[..n], p);
      assert ps == ps[..n] + [ps[n]];
    }
  }

  /** Filtered by session, the arrivals are a permutation of that session's packets. */
  lemma {:induction false} SessionArrives(tx: map<int, Bytes>, arrivals: seq<Packet>, sid: int)
    requires EachOnce(tx, arrivals) && sid in tx
    ensures multiset(OfSession(arrivals, sid)) == multiset(Packets(tx[sid], sid))
    ensures |OfSession(arrivals, sid)| == ChunkCount(tx[sid])
  {
    var got, ps := OfSession(arrivals, sid), Packets(tx[sid], sid);
    FilterMultiset(arrivals, (p: Packet) => p.session == sid);
    forall p: Packet ensures multiset(got)[p] == multiset(ps)[p] {
      NumberedOnce(ps, p);
    }
    SameLength(got, ps);
  }

  lemma {:induction false} SameLength(xs: seq<Packet>, ys: seq<Packet>)
    requires multiset(xs) == multiset(ys)
    ensures |xs| == |ys|
  {
    assert |multiset(xs)| == |multiset(ys)|;
  }

  // ---------------------------------------------------------------- invariant

  ghost predicate InProgress(tx: map<int, Bytes>, prefix: seq<Packet>, sid: int)
  {
    sid in tx && 0 < |OfSession(prefix, sid)| < ChunkCount(tx[sid])
  }

  ghost predicate Complete(tx: map<int, Bytes>, prefix: seq<Packet>, sid: int)
  {
    sid in tx && |OfSession(prefix, sid)| == ChunkCount(tx[sid])
  }

  /** The open sessions hold exactly what arrived of the unfinished ones. */
  ghost predicate Tracks<C>(rx: Receiver<C>, tx: map<int, Bytes>, prefix: seq<Packet>)
  {
    forall sid ::
      && (sid in rx.sessions <==> InProgress(tx, prefix, sid))
      && (sid in rx.sessions ==> rx.sessions[sid] == OfSession(prefix, sid))
  }

  ghost predicate NoRepeats(order: seq<int>)
  {
    forall i, j :: 0 <= i < j < |order| ==> order[i] != order[j]
  }

  /** The deliveries are the payloads of the sessions in order. */
  ghost predicate DeliveredAs<C>(codec: Codec<C>, tx: map<int, Bytes>, received: seq<C>, order: seq<int>)
  {
    && |received| == |order|
    && forall i :: 0 <= i < |order| ==> order[i] in tx && codec.decode(tx[order[i]]) == Some(received[i])
  }

  /** Nothing but the packet's own session changes. */
  lemma {:induction false} OneMoreArrival(prefix: seq<Packet>, p: Packet, sid: int)
    ensures OfSession(prefix + [p], sid)
         == if p.session == sid then OfSession(prefix, sid) + [p] else OfSession(prefix, sid)
  {}

  /** A part of the arrivals holds at most all packets of a session, and all of them only at the end. */
  lemma {:induction false} PartOfSession(tx: map<int, Bytes>, prefix: seq<Packet>, rest: seq<Packet>, sid: int)
    requires EachOnce(tx, prefix + rest) && sid in tx
    ensures |OfSession(prefix, sid)| <= ChunkCount(tx[sid])
    ensures Complete(tx, prefix, sid) ==> multiset(OfSession(prefix, sid)) == multiset(Packets(tx[sid], sid))
  {
    SessionArrives(tx, prefix + rest, sid);
    FilterConcat(prefix, rest, (p: Packet) => p.session == sid);
    assert OfSession(prefix + rest, sid) == OfSession(prefix, sid) + OfSession(rest, sid);
    if Complete(tx, prefix, sid) {
      assert OfSession(rest, sid) == [];
      assert OfSession(prefix + rest, sid) == OfSession(prefix, sid);
    }
  }

  ghost predicate Keeps<C>(codec: Codec<C>, tx: map<int, Bytes>, prefix: seq<Packet>, rx: Receiver<C>, order: seq<int>)
  {
    && Tracks(rx, tx, prefix) && NoRepeats(order) && DeliveredAs(codec, tx, rx.received, order)
    && forall sid :: sid in order <==> Complete(tx, prefix, sid)
  }

  lemma {:induction false} ArrivalsAreOnAir(tx: map<int, Bytes>, prefix: seq<Packet>, p: Packet, rest: seq<Packet>)
    requires EachOnce(tx, prefix + [p] + rest)
    ensures OnAir(tx, p)
  {}

  /** What the receiver holds of a session once p has arrived. */
  lemma {:induction false} ListIsPart<C>(tx: map<int, Bytes>, prefix: seq<Packet>, p: Packet, rest: seq<Packet>,
                                         rx: Receiver<C>)
    requires EachOnce(tx, prefix + [p] + rest) && Tracks(rx, tx, prefix)
    ensures Pending(rx, p.session) + [p] == OfSession(prefix + [p], p.session)
    ensures |OfSession(prefix + [p], p.session)| <= p.total
  {
    ArrivalsAreOnAir(tx, prefix, p, rest);
    OneMoreArrival(prefix, p, p.session);
    PartOfSession(tx, prefix + [p], rest, p.session);
    assert p.session in rx.sessions <==> InProgress(tx, prefix, p.session);
  }

  lemma {:induction false} OthersUnmoved(tx: map<int, Bytes>, prefix: seq<Packet>, p: Packet, sid: int)
    requires sid != p.session
    ensures OfSession(prefix + [p], sid) == OfSession(prefix, sid)
    ensures InProgress(tx, prefix + [p], sid) == InProgress(tx, prefix, sid)
    ensures Complete(tx, prefix + [p], sid) == Complete(tx, prefix, sid)
  {}

  lemma {:induction false} StillOpen<C>(codec: Codec<C>, tx: map<int, Bytes>, prefix: seq<Packet>, p: Packet,
                                        rest: seq<Packet>, rx: Receiver<C>, order: seq<int>)
    requires EachOnce(tx, prefix + [p] + rest) && Keeps(codec, tx, prefix, rx, order)
    requires |OfSession(prefix + [p], p.session)| < p.total
    ensures Keeps(codec, tx, prefix + [p], Accept(codec, rx, p).0, order)
  {
    ArrivalsAreOnAir(tx, prefix, p, rest);
    ListIsPart(tx, prefix, p, rest, rx);
    OneMoreArrival(prefix, p, p.session);
    forall sid | sid != p.session
      ensures OfSession(prefix + [p], sid) == OfSession(prefix, sid)
      ensures InProgress(tx, prefix + [p], sid) == InProgress(tx, prefix, sid)
      ensures Complete(tx, prefix + [p], sid) == Complete(tx, prefix, sid)
    {
      OthersUnmoved(tx, prefix, p, sid);
    }
  }

  lemma {:induction false} NowComplete<C>(codec: Codec<C>, tx: map<int, Bytes>, prefix: seq<Packet>, p: Packet,
                                          rest: seq<Packet>, rx: Receiver<C>, order: seq<int>)
    requires Broadcastable(codec, tx) && EachOnce(tx, prefix + [p] + rest) && Keeps(codec, tx, prefix, rx, order)
    requires |OfSession(prefix + [p], p.session)| == p.total
    ensures Keeps(codec, tx, prefix + [p], Accept(codec, rx, p).0, order + [p.session])
  {
    CompletionDelivers(codec, tx, prefix, p, rest, rx);
    ListIsPart(tx, prefix, p, rest, rx);
    ClosedTracks(rx, tx, prefix, p, Accept(codec, rx, p).0);
    assert !Complete(tx, prefix, p.session) by { OneMoreArrival(prefix, p, p.session); }
    forall sid | sid != p.session ensures Complete(tx, prefix + [p], sid) == Complete(tx, prefix, sid) {
      OthersUnmoved(tx, prefix, p, sid);
    }
  }

  lemma {:induction false} ClosedTracks<C>(rx: Receiver<C>, tx: map<int, Bytes>, prefix: seq<Packet>, p: Packet,
                                           rx': Receiver<C>)
    requires Tracks(rx, tx, prefix) && Complete(tx, prefix + [p], p.session)
    requires rx'.sessions == rx.sessions - {p.session}
    ensures Tracks(rx', tx, prefix + [p])
  {
    forall sid | sid != p.session
      ensures OfSession(prefix + [p], sid) == OfSession(prefix, sid)
      ensures InProgress(tx, prefix + [p], sid) == InProgress(tx, prefix, sid)
    {
      OthersUnmoved(tx, prefix, p, sid);
    }
  }

  /** The last packet of a session delivers its payload and closes it. */
  lemma {:induction false} CompletionDelivers<C>(codec: Codec<C>, tx: map<int, Bytes>, prefix: seq<Packet>, p: Packet,
                                                 rest: seq<Packet>, rx: Receiver<C>)
    requires Broadcastable(codec, tx) && EachOnce(tx, prefix + [p] + rest) && Tracks(rx, tx, prefix)
    requires |OfSession(prefix + [p], p.session)| == p.total
    ensures p.session in tx && p.total == ChunkCount(tx[p.session]) && codec.decode(tx[p.session]).Some?
    ensures Accept(codec, rx, p).0
         == Receiver(rx.sessions - {p.session}, rx.received + [codec.decode(tx[p.session]).value])
  {
    ArrivalsAreOnAir(tx, prefix, p, rest);
    ListIsPart(tx, prefix, p, rest, rx);
    PartOfSession(tx, prefix + [p], rest, p.session);
    ReassembleInAnyOrder(codec, tx[p.session], p.session, OfSession(prefix + [p], p.session));
  }

  // ---------------------------------------------------------------- the theorem

  predicate RawOf(raws: seq<Bytes>, packets: seq<Packet>)
  {
    |raws| == |packets| && forall i :: 0 <= i < |raws| ==> ToBytes(packets[i]) == Some(raws[i])
  }

  lemma {:induction false} ReceiveKeeps<C>(codec: Codec<C>, tx: map<int, Bytes>, raws: seq<Bytes>, prefix: seq<Packet>,
                                           rest: seq<Packet>) returns (order: seq<int>)
    requires Broadcastable(codec, tx) && RawOf(raws, prefix) && EachOnce(tx, prefix + rest)
    ensures Keeps(codec, tx, prefix, ReceiveAll(codec, raws), order)
    decreases |raws|
  {
    if raws == [] {
      order := [];
    } else {
      var before, p, raws' := prefix[..|prefix| - 1], prefix[|prefix| - 1], raws[..|raws| - 1];
      assert prefix == before + [p] && prefix + rest == before + ([p] + rest) == before + [p] + rest;
      order := ReceiveKeeps(codec, tx, raws', before, [p] + rest);
      PacketRoundTrip(p);
      var rx := ReceiveAll(codec, raws');
      ListIsPart(tx, before, p, rest, rx);
      if |OfSession(prefix, p.session)| < p.total {
        StillOpen(codec, tx, before, p, rest, rx, order);
      } else {
        NowComplete(codec, tx, before, p, rest, rx, order);
        order := order + [p.session];
      }
    }
  }

  /** Any number of sessions of at most 255 packets each, every packet heard exactly once, in any order
      and interleaving: every payload is delivered exactly once and intact, and no session stays open. */
  lemma {:induction false} EveryPayloadOnce<C>(codec: Codec<C>, tx: map<int, Bytes>, raws: seq<Bytes>,
                                               arrivals: seq<Packet>)
    returns (order: seq<int>)
    requires Broadcastable(codec, tx) && RawOf(raws, arrivals) && EachOnce(tx, arrivals)
    ensures NoRepeats(order) && (forall sid :: sid in order <==> sid in tx)
    ensures DeliveredAs(codec, tx, ReceiveAll(codec, raws).received, order)
    ensures ReceiveAll(codec, raws).sessions == map[]
  {
    assert arrivals + [] == arrivals;
    order := ReceiveKeeps(codec, tx, raws, arrivals, []);
    forall sid | sid in tx ensures Complete(tx, arrivals, sid) {
      SessionArrives(tx, arrivals, sid);
    }
    var rx := ReceiveAll(codec, raws);
    forall sid ensures sid !in rx.sessions {
      assert sid in rx.sessions <==> InProgress(tx, arrivals, sid);
    }
  }
}

/** Packets that are heard more than once. The receiver counts packets, not sequence numbers, so the first
    packets of a session decide, as many of them as the session has. */
module LoraRepeats {
  import opened Wrappers
  import opened Bytes
  import opened Sequences
  import opened Lora
  import opened LoraDelivery

  function AcceptAll<C>(codec: Codec<C>, packets: seq<Packet>): Receiver<C>
  {
    if packets == [] then Receiver(map[], [])
    else Accept(codec, AcceptAll(codec, packets[..|packets| - 1]), packets[|packets| - 1]).0
  }

  /** The contents that packets of one session have completed. */
  function DeliveredBy<C>(codec: Codec<C>, packets: seq<Packet>, sid: int): seq<C>
  {
    if packets == [] then []
    else
      var before, p := packets[..|packets| - 1], packets[|packets| - 1];
      var content := Accept(codec, AcceptAll(codec, before), p).1;
      DeliveredBy(codec, before, sid) + if p.session == sid && content.Some? then [content.value] else []
  }

  /** What arrives of other sessions does not matter to a session. */
  lemma {:induction false} OthersDoNotMatter<C>(codec: Codec<C>, packets: seq<Packet>, sid: int)
    ensures Pending(AcceptAll(codec, packets), sid) == Pending(AcceptAll(codec, OfSession(packets, sid)), sid)
    ensures DeliveredBy(codec, packets, sid) == DeliveredBy(codec, OfSession(packets, sid), sid)
  {
    if packets != [] {
      var before, p := packets[..|packets| - 1], packets[|packets| - 1];
      OthersDoNotMatter(codec, before, sid);
      if p.session == sid {
        var mine := OfSession(before, sid);
        assert OfSession(packets, sid) == mine + [p] && (mine + [p])[..|mine|] == mine;
        SameSlot(codec, AcceptAll(codec, before), AcceptAll(codec, mine), p);
      }
    }
  }

  lemma {:induction false} SameSlot<C>(codec: Codec<C>, rx: Receiver<C>, rx': Receiver<C>, p: Packet)
    requires Pending(rx, p.session) == Pending(rx', p.session)
    ensures Accept(codec, rx, p).1 == Accept(codec, rx', p).1
    ensures Pending(Accept(codec, rx, p).0, p.session) == Pending(Accept(codec, rx', p).0, p.session)
  {}

  // ---------------------------------------------------------------- the first packets

  /** All of them belong to one session of n packets. */
  ghost predicate OneSession(packets: seq<Packet>, sid: int, n: nat)
  {
    forall p :: p in packets ==> p.session == sid && p.total == n
  }

  /** What the session's first n packets join to, in the order of their numbers. */
  function FirstContent<C>(codec: Codec<C>, mine: seq<Packet>, n: nat): Option<C>
    requires n <= |mine|
  {
    codec.decode(Join(StableSort(mine[..n], SeqKey)))
  }

  lemma {:induction false} Collecting<C>(codec: Codec<C>, mine: seq<Packet>, sid: int, n: nat)
    requires OneSession(mine, sid, n) && |mine| < n
    ensures Pending(AcceptAll(codec, mine), sid) == mine && DeliveredBy(codec, mine, sid) == []
  {
    if mine != [] {
      var before, p := mine[..|mine| - 1], mine[|mine| - 1];
      assert p in mine && mine == before + [p];
      Collecting(codec, before, sid, n);
    }
  }

  lemma {:induction false} Deciding<C>(codec: Codec<C>, mine: seq<Packet>, sid: int, n: nat)
    requires OneSession(mine, sid, n) && |mine| == n > 0
    ensures
      var content := FirstContent(codec, mine, n);
      && DeliveredBy(codec, mine, sid) == (if content.Some? then [content.value] else [])
      && |Pending(AcceptAll(codec, mine), sid)| == (if content.Some? then 0 else n)
      && (content.None? ==>
            Pending(AcceptAll(codec, mine), sid) != [] && Pending(AcceptAll(codec, mine), sid)[0].total == n)
  {
    var before, p := mine[..n - 1], mine[n - 1];
    assert p in mine && mine == before + [p] && mine[..n] == mine && mine[0] in mine;
    Collecting(codec, before, sid, n);
    StableSortCorrect(mine, SeqKey);
    var sorted := StableSort(mine, SeqKey);
    SameLength(sorted, mine);
    assert sorted[0] in multiset(mine);
  }

  /** A full session that does not decode only grows, and never fits its total again. */
  lemma {:induction false} Stuck<C>(codec: Codec<C>, mine: seq<Packet>, sid: int, n: nat)
    requires OneSession(mine, sid, n) && 0 < n <= |mine| && FirstContent(codec, mine, n).None?
    ensures DeliveredBy(codec, mine, sid) == []
    ensures
      var kept := Pending(AcceptAll(codec, mine), sid);
      |kept| == |mine| && kept[0].total == n
    decreases |mine|
  {
    if |mine| == n {
      Deciding(codec, mine, sid, n);
    } else {
      var before, p := mine[..|mine| - 1], mine[|mine| - 1];
      assert p in mine && before[..n] == mine[..n];
      Stuck(codec, before, sid, n);
    }
  }

  lemma {:induction false} DeliveredGrows<C>(codec: Codec<C>, packets: seq<Packet>, k: nat, sid: int)
    requires k <= |packets|
    ensures DeliveredBy(codec, packets[..k], sid) <= DeliveredBy(codec, packets, sid)
    decreases |packets|
  {
    if k == |packets| {
      assert packets[..k] == packets;
    } else {
      assert packets[..|packets| - 1][..k] == packets[..k];
      DeliveredGrows(codec, packets[..|packets| - 1], k, sid);
    }
  }

  /** Whatever is heard of whichever sessions, repeated or not: once n packets of a session of n packets were
      heard, it has delivered what these n join to; if that does not decode, the session never delivers
      anything, even when every packet arrives later. */
  lemma {:induction false} FirstPacketsDecide<C>(codec: Codec<C>, arrivals: seq<Packet>, sid: int, n: nat)
    requires OneSession(OfSession(arrivals, sid), sid, n) && 0 < n <= |OfSession(arrivals, sid)|
    ensures
      var content := FirstContent(codec, OfSession(arrivals, sid), n);
      && (content.Some? ==> [content.value] <= DeliveredBy(codec, arrivals, sid))
      && (content.None? ==> DeliveredBy(codec, arrivals, sid) == [])
  {
    var mine := OfSession(arrivals, sid);
    OthersDoNotMatter(codec, arrivals, sid);
    if FirstContent(codec, mine, n).None? {
      Stuck(codec, mine, sid, n);
    } else {
      assert mine[..n][..n] == mine[..n];
      assert forall p :: p in mine[..n] ==> p in mine;
      Deciding(codec, mine[..n], sid, n);
      DeliveredGrows(codec, mine, n, sid);
    }
  }

  // ---------------------------------------------------------------- when a repeat breaks delivery

  /** The codec notices every way to put chunks of this payload together but the right one. */
  ghost predicate NoticesDamage<C>(codec: Codec<C>, payload: Bytes)
  {
    forall b :: b != payload ==> codec.decode(b).None?
  }

  /** For a payload cut into n packets: if the first n that are heard are all different, the payload is
      delivered, whatever follows. Under a codec that notices damage it is delivered if and only if those n
      join to it. */
  lemma {:induction false} RepeatsBreakDelivery<C>(codec: Codec<C>, payload: Bytes, sid: int, arrivals: seq<Packet>)
    requires codec.decode(payload).Some? && payload != []
    requires forall p :: p in OfSession(arrivals, sid) ==> p in Packets(payload, sid)
    requires |OfSession(arrivals, sid)| >= ChunkCount(payload)
    ensures
      var first, sent := OfSession(arrivals, sid)[..ChunkCount(payload)], DeliveredBy(codec, arrivals, sid);
      && (multiset(first) == multiset(Packets(payload, sid)) ==> [codec.decode(payload).value] <= sent)
      && (NoticesDamage(codec, payload) ==>
            if Join(StableSort(first, SeqKey)) == payload then [codec.decode(payload).value] <= sent else sent == [])
  {
    var mine, n := OfSession(arrivals, sid), ChunkCount(payload);
    forall p | p in mine ensures p.session == sid && p.total == n {
      var i :| 0 <= i < n && Packets(payload, sid)[i] == p;
    }
    FirstPacketsDecide(codec, arrivals, sid, n);
    if multiset(mine[..n]) == multiset(Packets(payload, sid)) {
      ReassembleInAnyOrder(codec, payload, sid, mine[..n]);
      assert mine[..n][0] in mine;
    }
  }

  /** A payload of two different chunks whose first packet is heard twice is lost, although everything is
      heard in the end. */
  lemma {:induction false} OneRepeatLosesPayload<C>(codec: Codec<C>, payload: Bytes, sid: int)
    requires ChunkCount(payload) == 2 && codec.decode(payload).Some? && NoticesDamage(codec, payload)
    requires ChunkAt(payload, 0) != ChunkAt(payload, 1)
    ensures
      var first, second := PacketAt(payload, sid, 0), PacketAt(payload, sid, 1);
      && DeliveredBy(codec, [first, second], sid) == [codec.decode(payload).value]
      && DeliveredBy(codec, [first, first, second], sid) == []
  {
    var p, q := PacketAt(payload, sid, 0), PacketAt(payload, sid, 1);
    TwoChunks(payload, sid, p, q);
    TwoHeard(codec, p, q, sid);
    RepeatHeard(codec, p, q, sid);
  }

  /** Two packets join to their payload, and the first one twice does not. */
  lemma {:induction false} TwoChunks(payload: Bytes, sid: int, p: Packet, q: Packet)
    requires ChunkCount(payload) == 2 && ChunkAt(payload, 0) != ChunkAt(payload, 1)
    requires p == PacketAt(payload, sid, 0) && q == PacketAt(payload, sid, 1)
    ensures Join(StableSort([p, q], SeqKey)) == payload && Join(StableSort([p, p], SeqKey)) != payload
  {
    assert Packets(payload, sid) == [p, q];
    JoinTwo(p, q);
    JoinTwo(p, p);
    JoinChunks(payload, sid);
  }

  lemma {:induction false} TwoHeard<C>(codec: Codec<C>, p: Packet, q: Packet, sid: int)
    requires OneSession([p, q], sid, 2) && codec.decode(Join(StableSort([p, q], SeqKey))).Some?
    ensures DeliveredBy(codec, [p, q], sid) == [codec.decode(Join(StableSort([p, q], SeqKey))).value]
  {
    assert [p, q][..2] == [p, q];
    Deciding(codec, [p, q], sid, 2);
  }

  lemma {:induction false} RepeatHeard<C>(codec: Codec<C>, p: Packet, q: Packet, sid: int)
    requires OneSession([p, p, q], sid, 2) && codec.decode(Join(StableSort([p, p], SeqKey))).None?
    ensures DeliveredBy(codec, [p, p, q], sid) == []
  {
    assert [p, p, q][..2] == [p, p];
    Stuck(codec, [p, p, q], sid, 2);
  }

  /** Sorting two packets whose numbers do not fall keeps them. */
  lemma {:induction false} JoinTwo(p: Packet, q: Packet)
    requires p.seqNum <= q.seqNum
    ensures StableSort([p, q], SeqKey) == [p, q] && Join([p, q]) == p.payload + q.payload
  {
    assert [p, q][..1] == [p] && [p][..0] == [];
    assert Join([p]) == p.payload;
  }
}

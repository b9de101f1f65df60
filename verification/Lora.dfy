/** Radio packets: the wire format, chunking and reassembly (border/lora.py). */
module Lora {
  import opened Wrappers
  import opened Bytes
  import opened Sequences

  const HEADER_SIZE: nat := 8

  datatype Packet = Packet(version: int, session: int, seqNum: int, total: int, payload: Bytes)

  /** Compression and JSON of one content item; decode fails on bytes that are not such a payload. */
  datatype Codec<!C> = Codec(encode: C -> Bytes, decode: Bytes -> Option<C>)

  // ---------------------------------------------------------------- wire format

  function ByteSum(b: Bytes): nat
  {
    if b == [] then 0 else b[0] + ByteSum(b[1..])
  }

  function Checksum(p: Packet): nat
  {
    ByteSum(p.payload) % 0x1_0000
  }

  /** The checksum adds up all bytes, in whatever pieces. */
  lemma {:induction false} ByteSumAdds(a: Bytes, b: Bytes)
    ensures ByteSum(a + b) == ByteSum(a) + ByteSum(b)
    ensures |a| == 1 ==> ByteSum(a) == a[0]
  {
    if a == [] {
      assert a + b == b;
    } else {
      assert (a + b)[1..] == a[1..] + b;
      ByteSumAdds(a[1..], b);
    }
  }

  /** What struct.pack(">BHHBH", ...) accepts. */
  predicate Packable(p: Packet)
  {
    0 <= p.version < 256 && 0 <= p.session < 0x1_0000 && 0 <= p.seqNum < 0x1_0000 && 0 <= p.total < 256
  }

  /** Two bytes, the high one first. */
  function BE16(hi: int, lo: int): int
  {
    hi * 256 + lo
  }

  function Header(version: Byte, session: nat, seqNum: nat, total: Byte, checksum: nat): Bytes
    requires session < 0x1_0000 && seqNum < 0x1_0000 && checksum < 0x1_0000
  {
    [version, session / 256, session % 256, seqNum / 256, seqNum % 256, total, checksum / 256, checksum % 256]
  }

  /** None is the struct.error of a field that does not fit. */
  function ToBytes(p: Packet): Option<Bytes>
  {
    if !Packable(p) then None
    else Some(Header(p.version, p.session, p.seqNum, p.total, Checksum(p)) + p.payload)
  }

  /** None is the struct.error of fewer than eight bytes. The checksum is read and dropped. */
  function FromBytes(raw: Bytes): Option<Packet>
  {
    if |raw| < HEADER_SIZE then None
    else Some(Packet(raw[0], BE16(raw[1], raw[2]), BE16(raw[3], raw[4]), raw[5], raw[8..]))
  }

  /** Packing succeeds exactly on the fields that fit, and unpacking gives the packet back. */
  lemma {:induction false} PacketRoundTrip(p: Packet)
    ensures ToBytes(p).Some? <==> Packable(p)
    ensures ToBytes(p).Some? ==> FromBytes(ToBytes(p).value) == Some(p)
  {}

  /** Everything of at least eight bytes unpacks. It packs back to the same bytes exactly when its last
      two header bytes are the checksum of the rest: a receiver accepts damaged payloads. */
  lemma {:induction false} ChecksumIsNotChecked(raw: Bytes)
    ensures FromBytes(raw).Some? <==> |raw| >= 8
    ensures |raw| >= 8 ==>
      (ToBytes(FromBytes(raw).value) == Some(raw) <==> BE16(raw[6], raw[7]) == ByteSum(raw[8..]) % 0x1_0000)
  {
    if |raw| >= 8 {
      var sum := Checksum(FromBytes(raw).value);
      Repacked(raw);
      var back := raw[..6] + [sum / 256, sum % 256] + raw[8..];
      assert back[6] == sum / 256 && back[7] == sum % 256;
      if BE16(raw[6], raw[7]) == sum { assert back == raw; }
    }
  }

  /** Packing an unpacked packet gives the same bytes but for the checksum. */
  lemma {:induction false} Repacked(raw: Bytes)
    requires |raw| >= 8
    ensures
      var sum := Checksum(FromBytes(raw).value);
      ToBytes(FromBytes(raw).value) == Some(raw[..6] + [sum / 256, sum % 256] + raw[8..])
  {
    var p := FromBytes(raw).value;
    Split16(raw[1], raw[2]);
    Split16(raw[3], raw[4]);
    assert Packable(p);
    var sum := Checksum(p);
    assert raw[..6] == [raw[0], raw[1], raw[2], raw[3], raw[4], raw[5]];
    assert Header(p.version, p.session, p.seqNum, p.total, sum) == raw[..6] + [sum / 256, sum % 256];
  }

  lemma {:induction false} Split16(hi: Byte, lo: Byte)
    ensures BE16(hi, lo) / 256 == hi && BE16(hi, lo) % 256 == lo && 0 <= BE16(hi, lo) < 0x1_0000
  {}

  // ---------------------------------------------------------------- chunking

  /** A chunk holds 214 bytes: a radio payload of 222 less the header. */
  function ChunkCount(payload: Bytes): nat
  {
    (|payload| + 213) / 214
  }

  /** The chunk that starts at 214 * seq. */
  function ChunkAt(payload: Bytes, i: nat): Bytes
    requires i < ChunkCount(payload)
  {
    if 214 * (i + 1) <= |payload| then payload[214 * i..214 * (i + 1)] else payload[214 * i..]
  }

  function PacketAt(payload: Bytes, session: int, i: nat): Packet
    requires i < ChunkCount(payload)
  {
    Packet(1, session, i, ChunkCount(payload), ChunkAt(payload, i))
  }

  function Packets(payload: Bytes, session: int): (ps: seq<Packet>)
    ensures |ps| == ChunkCount(payload)
    ensures forall i :: 0 <= i < |ps| ==> ps[i] == PacketAt(payload, session, i)
  {
    seq(ChunkCount(payload), i requires 0 <= i < ChunkCount(payload) => PacketAt(payload, session, i))
  }

  /** How a payload is cut: every packet is of version 1, carries the session, its number and the count of
      all, and 214 bytes, the last one what is left and at least one byte. */
  lemma {:induction false} ChunkSizes(payload: Bytes, session: int, i: nat)
    requires i < |Packets(payload, session)|
    ensures
      var ps := Packets(payload, session);
      && ps[i].version == 1 && ps[i].session == session && ps[i].seqNum == i && ps[i].total == |ps|
      && (i < |ps| - 1 ==> |ps[i].payload| == 214)
      && (i == |ps| - 1 ==> 0 < |ps[i].payload| <= 214 && |payload| == 214 * i + |ps[i].payload|)
  {}

  /** LoRaChunker.chunk: cuts the payload into chunks, then numbers them. */
  method Chunk(payload: Bytes, session: int) returns (packets: seq<Packet>)
    ensures packets == Packets(payload, session)
  {
    var chunks: seq<Bytes> := [];
    var start := 0;
    while start < |payload|
      invariant start == 214 * |chunks| && |chunks| <= ChunkCount(payload)
      invariant forall i :: 0 <= i < |chunks| ==> chunks[i] == ChunkAt(payload, i)
    {
      var end := start + 214;
      chunks := chunks + [if end <= |payload| then payload[start..end] else payload[start..]];
      start := end;
    }
    assert |chunks| == ChunkCount(payload);
    packets := Numbered(payload, session, chunks);
  }

  method Numbered(ghost payload: Bytes, session: int, chunks: seq<Bytes>) returns (packets: seq<Packet>)
    requires |chunks| == ChunkCount(payload)
    requires forall i :: 0 <= i < |chunks| ==> chunks[i] == ChunkAt(payload, i)
    ensures packets == Packets(payload, session)
  {
    packets := [];
    for i := 0 to |chunks|
      invariant packets == Packets(payload, session)[..i]
    {
      packets := packets + [Packet(1, session, i, |chunks|, chunks[i])];
    }
  }

  /** b"".join(p.payload_chunk for p in packets) */
  function Join(packets: seq<Packet>): Bytes
  {
    if packets == [] then [] else Join(packets[..|packets| - 1]) + packets[|packets| - 1].payload
  }

  lemma {:induction false} JoinPrefix(payload: Bytes, session: int, n: nat)
    requires n <= ChunkCount(payload)
    ensures Join(Packets(payload, session)[..n]) ==
      if 214 * n <= |payload| then payload[..214 * n] else payload
  {
    var ps := Packets(payload, session);
    if n > 0 {
      assert ps[..n][..n - 1] == ps[..n - 1];
      JoinPrefix(payload, session, n - 1);
    }
  }

  /** The chunks put together are the payload. */
  lemma {:induction false} JoinChunks(payload: Bytes, session: int)
    ensures Join(Packets(payload, session)) == payload
  {
    var ps := Packets(payload, session);
    JoinPrefix(payload, session, |ps|);
    assert ps[..|ps|] == ps;
  }

  // ---------------------------------------------------------------- reassembly

  function SeqKey(p: Packet): real
  {
    p.seqNum as real
  }

  /** LoRaChunker.reassemble: the list as the call leaves it, sorted in place once it is complete, and
      the content. */
  function Reassemble<C>(codec: Codec<C>, packets: seq<Packet>): (seq<Packet>, Option<C>)
  {
    if packets == [] || |packets| != packets[0].total then (packets, None)
    else
      var sorted := StableSort(packets, SeqKey);
      (sorted, codec.decode(Join(sorted)))
  }

  /** Lists with the same elements, one sorted and one strictly sorted, are equal. */
  lemma {:induction false} SortedListsAgree(s: seq<Packet>, t: seq<Packet>)
    requires |s| == |t| && multiset(s) == multiset(t) && SortedBy(s, SeqKey) && Increasing(t)
    ensures s == t
  {
    if s != [] {
      var n := |s| - 1;
      var s', t', x := s[..n], t[..n], s[n];
      LastAgrees(s, t, n);
      assert s == s' + [x] && t == t' + [x];
      SameWithoutLast(s', t', x);
      SortedListsAgree(s', t');
    }
  }

  lemma {:induction false} SameWithoutLast(s: seq<Packet>, t: seq<Packet>, x: Packet)
    requires multiset(s + [x]) == multiset(t + [x])
    ensures multiset(s) == multiset(t)
  {
    assert multiset(s) == multiset(s + [x]) - multiset{x} && multiset(t) == multiset(t + [x]) - multiset{x};
  }

  ghost predicate Increasing(t: seq<Packet>)
  {
    forall i, j :: 0 <= i < j < |t| ==> t[i].seqNum < t[j].seqNum
  }

  lemma {:induction false} LastAgrees(s: seq<Packet>, t: seq<Packet>, n: nat)
    requires multiset(s) == multiset(t) && SortedBy(s, SeqKey) && Increasing(t) && |s| == |t| == n + 1
    ensures s[n] == t[n]
  {
    assert s[n] in multiset(t) && t[n] in multiset(s);
    var i :| 0 <= i <= n && t[i] == s[n];
    var j :| 0 <= j <= n && s[j] == t[n];
    assert SeqKey(s[j]) <= SeqKey(s[n]);
  }

  /** All packets of a payload, in any order of arrival, reassemble to that payload. */
  lemma {:induction false} ReassembleInAnyOrder<C>(codec: Codec<C>, payload: Bytes, session: int, arrived: seq<Packet>)
    requires multiset(arrived) == multiset(Packets(payload, session)) && payload != []
    ensures Reassemble(codec, arrived).1 == codec.decode(payload)
  {
    var ps := Packets(payload, session);
    assert |multiset(arrived)| == |multiset(ps)|;
    assert arrived[0] in multiset(ps);
    StableSortCorrect(arrived, SeqKey);
    SortedListsAgree(StableSort(arrived, SeqKey), ps);
    JoinChunks(payload, session);
  }
}

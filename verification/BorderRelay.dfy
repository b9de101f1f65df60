/** The relay with its session objects and its proof queue. */
module RelayObjects {
  import opened Wrappers
  import opened Sequences
  import opened RelayMetering

  class SessionStats {
    const id: string
    var bytesIn: int
    var bytesOut: int
    var flushedBytes: int
    var lastFlush: real
    var proofCount: nat

    constructor (id: string, now: real)
      ensures Value() == NewStats(id, now) && this.id == id
    {
      this.id := id;
      bytesIn, bytesOut, flushedBytes, lastFlush, proofCount := 0, 0, 0, now, 0;
    }

    function Value(): Stats
      reads this
    {
      Stats(id, bytesIn, bytesOut, flushedBytes, lastFlush, proofCount)
    }

    method MarkFlushed(flushed: int, now: real)
      modifies this
      ensures Value() == MarkFlush(old(Value()), flushed, now)
    {
      flushedBytes, lastFlush, proofCount := flushed, now, proofCount + 1;
    }
  }

  ghost function Values(sessions: seq<SessionStats>): (values: seq<Stats>)
    reads sessions
    ensures |values| == |sessions|
    ensures forall i :: 0 <= i < |sessions| ==> values[i] == sessions[i].Value()
  {
    seq(|sessions|, i requires 0 <= i < |sessions| reads sessions => sessions[i].Value())
  }

  class BorderRelay {
    var sessions: seq<SessionStats>
    var proofs: seq<ByteProof>

    constructor ()
      ensures Valid() && Value() == NEW_RELAY
    {
      sessions, proofs := [], [];
    }

    ghost predicate Valid()
      reads this
    {
      forall i, j :: 0 <= i < j < |sessions| ==> sessions[i].id != sessions[j].id
    }

    ghost function Value(): Relay
      reads this, sessions
    {
      Relay(Values(sessions), proofs)
    }

    method IndexOf(id: string) returns (at: Option<nat>)
      ensures at == FirstIndex(Values(sessions), SessionId(id))
      ensures at.None? ==> forall i :: 0 <= i < |sessions| ==> sessions[i].id != id
    {
      for i := 0 to |sessions|
        invariant forall j :: 0 <= j < i ==> !SessionId(id)(Values(sessions)[j]) && sessions[j].id != id
      {
        if sessions[i].id == id {
          assert SessionId(id)(Values(sessions)[i]);
          return Some(i);
        }
      }
      return None;
    }

    /** id is the fresh random identifier of the session. */
    method Open(id: string, now: real) returns (stats: SessionStats)
      requires Valid() && FirstIndex(Values(sessions), SessionId(id)).None?
      modifies this
      ensures Valid() && fresh(stats) && Value() == OpenSession(old(Value()), id, now)
    {
      forall i | 0 <= i < |sessions| ensures sessions[i].id != id { assert !SessionId(id)(Values(sessions)[i]); }
      stats := new SessionStats(id, now);
      sessions := sessions + [stats];
    }

    /** Emits a proof for count bytes of a session and marks all its bytes as flushed. */
    method EmitProof(stats: SessionStats, count: int, now: real)
      modifies this`proofs, stats
      ensures proofs == old(proofs) + [ByteProof(stats.id, old(stats.proofCount), count)]
      ensures stats.Value() == MarkFlush(old(stats.Value()), old(stats.Value()).Total(), now)
    {
      var proof := ByteProof(stats.id, stats.proofCount, count);
      stats.MarkFlushed(stats.bytesIn + stats.bytesOut, now);
      proofs := proofs + [proof];
    }

    /** Takes a session off the list. */
    method Remove(k: nat) returns (stats: SessionStats)
      requires Valid() && k < |sessions|
      modifies this`sessions
      ensures Valid() && stats == old(sessions)[k] && stats !in sessions
      ensures Values(sessions) == Without(old(Values(sessions)), k)
    {
      stats := sessions[k];
      sessions := sessions[..k] + sessions[k + 1..];
    }

    method Close(id: string, now: real)
      requires Valid()
      modifies this, sessions
      ensures Valid() && Value() == CloseSession(old(Value()), id)
    {
      var at := IndexOf(id);
      if at.None? { return; }
      var stats := Remove(at.value);
      var waiting := stats.Value().Unflushed();
      if waiting > 0 { EmitProof(stats, waiting, now); }
    }

    method Record(id: string, sent: nat, received: nat, now: real)
      requires Valid()
      modifies this`proofs, sessions
      ensures Value() == RecordBytes(old(Value()), id, sent, received, now)
    {
      var at := IndexOf(id);
      if at.None? { return; }
      Count(at.value, sent, received);
      if sessions[at.value].Value().Unflushed() >= PROOF_FLUSH_BYTES { EmitFor(at.value, now); }
    }

    method Count(k: nat, sent: nat, received: nat)
      requires Valid() && k < |sessions|
      modifies sessions
      ensures Values(sessions) == old(Values(sessions))[k := Counted(old(Values(sessions))[k], sent, received)]
    {
      var stats := sessions[k];
      stats.bytesOut := stats.bytesOut + sent;
      stats.bytesIn := stats.bytesIn + received;
    }

    method EmitFor(k: nat, now: real)
      requires Valid() && k < |sessions|
      modifies this`proofs, sessions
      ensures Value() == Emit(old(Value()), k, now)
    {
      EmitProof(sessions[k], sessions[k].Value().Unflushed(), now);
    }

    method DueSessions(now: real) returns (due: seq<bool>)
      ensures |due| == |sessions| && forall i :: 0 <= i < |due| ==> due[i] == Values(sessions)[i].IsDue(now)
    {
      due := [];
      for k := 0 to |sessions|
        invariant |due| == k && forall i :: 0 <= i < k ==> due[i] == sessions[i].Value().IsDue(now)
      {
        due := due + [sessions[k].Value().IsDue(now)];
      }
    }

    /** One round of the flush loop: the due sessions are listed first, then each gets its proof. */
    method Tick(now: real)
      requires Valid()
      modifies this`proofs, sessions
      ensures Value() == FlushDue(old(Value()), |sessions|, now)
    {
      ghost var start := Value();
      var due := DueSessions(now);
      for k := 0 to |sessions|
        invariant Value() == FlushDue(start, k, now)
      {
        ghost var before := Value();
        if due[k] { EmitFor(k, now); }
        TickOneMore(start, k, now, before, Value());
      }
    }
  }

  lemma {:induction false} TickOneMore(start: Relay, k: nat, now: real, before: Relay, after: Relay)
    requires k < |start.sessions| && before == FlushDue(start, k, now)
    requires after == if start.sessions[k].IsDue(now) then Emit(before, k, now) else before
    ensures after == FlushDue(start, k + 1, now)
  {}
}

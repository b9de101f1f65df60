/** Byte metering of relay sessions (border/relay.py). One call is one step. */
module RelayMetering {
  import opened Wrappers
  import opened Sequences

  const PROOF_FLUSH_BYTES: int := 10 * 1024 * 1024
  const FLUSH_INTERVAL: real := 120.0

  datatype Stats = Stats(id: string, bytesIn: int, bytesOut: int, flushed: int, lastFlush: real, proofCount: nat)
  {
    function Total(): int { bytesIn + bytesOut }

    function Unflushed(): int { Total() - flushed }

    predicate IsDue(now: real) { Unflushed() > 0 && now - lastFlush >= FLUSH_INTERVAL }
  }

  /** The bandwidth proof as far as it counts bytes: its session, its number there, and its bytes. */
  datatype ByteProof = ByteProof(session: string, number: nat, bytes: int)

  /** The open sessions in the order they were opened, and the proofs in the order they were emitted. */
  datatype Relay = Relay(sessions: seq<Stats>, proofs: seq<ByteProof>)

  const NEW_RELAY := Relay([], [])

  function SessionId(id: string): Stats -> bool { (s: Stats) => s.id == id }

  function NewStats(id: string, now: real): Stats
  {
    Stats(id, 0, 0, 0, now, 0)
  }

  function Counted(s: Stats, sent: int, received: int): Stats
  {
    s.(bytesOut := s.bytesOut + sent, bytesIn := s.bytesIn + received)
  }

  function MarkFlush(s: Stats, flushed: int, now: real): Stats
  {
    s.(flushed := flushed, lastFlush := now, proofCount := s.proofCount + 1)
  }

  /** Session k gets a proof for the bytes it has not proven yet. */
  function Emit(r: Relay, k: nat, now: real): (r': Relay)
    requires k < |r.sessions|
    ensures |r'.sessions| == |r.sessions|
  {
    var s := r.sessions[k];
    Relay(r.sessions[k := MarkFlush(s, s.Total(), now)], r.proofs + [ByteProof(s.id, s.proofCount, s.Unflushed())])
  }

  function OpenSession(r: Relay, id: string, now: real): Relay
  {
    r.(sessions := r.sessions + [NewStats(id, now)])
  }

  function Without(sessions: seq<Stats>, k: nat): seq<Stats>
    requires k < |sessions|
  {
    sessions[..k] + sessions[k + 1..]
  }

  function CloseSession(r: Relay, id: string): Relay
  {
    var at := FirstIndex(r.sessions, SessionId(id));
    if at.None? then r
    else
      var s := r.sessions[at.value];
      Relay(Without(r.sessions, at.value),
            if s.Unflushed() > 0 then r.proofs + [ByteProof(s.id, s.proofCount, s.Unflushed())] else r.proofs)
  }

  function RecordBytes(r: Relay, id: string, sent: int, received: int, now: real): Relay
  {
    var at := FirstIndex(r.sessions, SessionId(id));
    if at.None? then r
    else
      var s := Counted(r.sessions[at.value], sent, received);
      var counted := r.(sessions := r.sessions[at.value := s]);
      if s.Unflushed() >= PROOF_FLUSH_BYTES then Emit(counted, at.value, now) else counted
  }

  /** One tick of the flush loop over the first k sessions. */
  function FlushDue(r: Relay, k: nat, now: real): (r': Relay)
    requires k <= |r.sessions|
    ensures |r'.sessions| == |r.sessions|
  {
    if k == 0 then r
    else
      var before := FlushDue(r, k - 1, now);
      if r.sessions[k - 1].IsDue(now) then Emit(before, k - 1, now) else before
  }

  // ---------------------------------------------------------------- runs

  datatype Event =
    | Opens(id: string, now: real)
    | Records(id: string, sent: nat, received: nat, now: real)
    | Closes(id: string)
    | Ticks(now: real)

  /** The relay with the bytes that were recorded for every session ever opened. */
  datatype History = History(relay: Relay, metered: map<string, int>)

  /** Session ids are never used twice; opening a used one cannot happen and changes nothing. */
  function Step(h: History, e: Event): History
  {
    match e
    case Opens(id, now) =>
      if id in h.metered then h else History(OpenSession(h.relay, id, now), h.metered[id := 0])
    case Records(id, sent, received, now) =>
      History(RecordBytes(h.relay, id, sent, received, now),
              if FirstIndex(h.relay.sessions, SessionId(id)).Some? && id in h.metered
              then h.metered[id := h.metered[id] + sent + received] else h.metered)
    case Closes(id) => h.(relay := CloseSession(h.relay, id))
    case Ticks(now) => h.(relay := FlushDue(h.relay, |h.relay.sessions|, now))
  }

  function Run(events: seq<Event>): History
  {
    if events == [] then History(NEW_RELAY, map[]) else Step(Run(events[..|events| - 1]), events[|events| - 1])
  }

  // ---------------------------------------------------------------- invariant

  function BytesOf(id: string): ByteProof -> int
  {
    (p: ByteProof) => if p.session == id then p.bytes else 0
  }

  function Proven(proofs: seq<ByteProof>, id: string): int
  {
    SumOf(proofs, BytesOf(id))
  }

  ghost predicate DistinctSessions(sessions: seq<Stats>)
  {
    forall k, l :: 0 <= k < l < |sessions| ==> sessions[k].id != sessions[l].id
  }

  /** The books of an open session: all its bytes are counted, and those that are not proven wait. */
  predicate OpenBooks(h: History, s: Stats)
  {
    && s.id in h.metered && s.Total() == h.metered[s.id]
    && Proven(h.relay.proofs, s.id) == s.flushed && s.Unflushed() >= 0
  }

  /** The books of a session that was closed: every byte is proven. */
  predicate ClosedBooks(h: History, id: string)
  {
    id in h.metered && FirstIndex(h.relay.sessions, SessionId(id)).None? ==> Proven(h.relay.proofs, id) == h.metered[id]
  }

  /** A proof is for a session that was opened, and its number is used up there. */
  predicate ProofBooks(h: History, p: ByteProof)
  {
    && p.session in h.metered && p.bytes > 0
    && var at := FirstIndex(h.relay.sessions, SessionId(p.session));
       at.Some? ==> p.number < h.relay.sessions[at.value].proofCount
  }

  /** No two proofs of a session carry the same number. */
  ghost predicate NumberedOnce(proofs: seq<ByteProof>)
  {
    forall i, j :: 0 <= i < j < |proofs| ==>
      proofs[i].session != proofs[j].session || proofs[i].number != proofs[j].number
  }

  ghost predicate Exact(h: History)
  {
    && DistinctSessions(h.relay.sessions) && NumberedOnce(h.relay.proofs)
    && (forall k :: 0 <= k < |h.relay.sessions| ==> OpenBooks(h, h.relay.sessions[k]))
    && (forall id :: ClosedBooks(h, id))
    && (forall i :: 0 <= i < |h.relay.proofs| ==> ProofBooks(h, h.relay.proofs[i]))
  }

  /** Nothing waits that should have been proven. */
  ghost predicate Flushed(sessions: seq<Stats>)
  {
    forall k :: 0 <= k < |sessions| ==> sessions[k].Unflushed() < PROOF_FLUSH_BYTES
  }

  // ---------------------------------------------------------------- steps

  lemma {:induction false} OwnIndex(sessions: seq<Stats>, k: nat)
    requires DistinctSessions(sessions) && k < |sessions|
    ensures FirstIndex(sessions, SessionId(sessions[k].id)) == Some(k)
  {}

  lemma {:induction false} OneMoreProof(proofs: seq<ByteProof>, p: ByteProof, id: string)
    ensures Proven(proofs + [p], id) == Proven(proofs, id) + if p.session == id then p.bytes else 0
  {}

  lemma {:induction false} SameIndices(sessions: seq<Stats>, k: nat, s: Stats, id: string)
    requires k < |sessions| && s.id == sessions[k].id
    ensures FirstIndex(sessions[k := s], SessionId(id)) == FirstIndex(sessions, SessionId(id))
  {
    forall i | 0 <= i < |sessions| ensures SessionId(id)(sessions[i]) == SessionId(id)(sessions[k := s][i]) {}
    FirstIndexSame(sessions, sessions[k := s], SessionId(id));
  }

  lemma {:induction false} EmitKeepsExact(h: History, k: nat, now: real)
    requires Exact(h) && k < |h.relay.sessions| && h.relay.sessions[k].Unflushed() > 0
    ensures Exact(h.(relay := Emit(h.relay, k, now)))
  {
    var h' := h.(relay := Emit(h.relay, k, now));
    var s, s' := h.relay.sessions[k], h'.relay.sessions[k];
    var p := ByteProof(s.id, s.proofCount, s.Unflushed());
    assert OpenBooks(h, s);
    OwnIndex(h.relay.sessions, k);
    forall l | 0 <= l < |h'.relay.sessions| ensures OpenBooks(h', h'.relay.sessions[l]) {
      assert OpenBooks(h, h.relay.sessions[l]);
      OneMoreProof(h.relay.proofs, p, h.relay.sessions[l].id);
    }
    forall id ensures ClosedBooks(h', id) {
      assert ClosedBooks(h, id);
      SameIndices(h.relay.sessions, k, s', id);
      OneMoreProof(h.relay.proofs, p, id);
    }
    ProofsAfterEmit(h, h', k, p);
  }

  lemma {:induction false} ProofsAfterEmit(h: History, h': History, k: nat, p: ByteProof)
    requires Exact(h) && k < |h.relay.sessions| && FirstIndex(h.relay.sessions, SessionId(p.session)) == Some(k)
    requires p.number == h.relay.sessions[k].proofCount && p.bytes > 0 && p.session in h.metered
    requires h'.metered == h.metered
    requires h'.relay.proofs == h.relay.proofs + [p]
    requires exists s' :: h'.relay.sessions == h.relay.sessions[k := s'] && s'.id == h.relay.sessions[k].id
                       && s'.proofCount == h.relay.sessions[k].proofCount + 1
    ensures NumberedOnce(h'.relay.proofs)
    ensures forall i :: 0 <= i < |h'.relay.proofs| ==> ProofBooks(h', h'.relay.proofs[i])
  {}

  /** The history once bytes are counted for session k. */
  function CountedHistory(h: History, k: nat, sent: nat, received: nat): History
    requires k < |h.relay.sessions| && h.relay.sessions[k].id in h.metered
  {
    var s := h.relay.sessions[k];
    History(h.relay.(sessions := h.relay.sessions[k := Counted(s, sent, received)]),
            h.metered[s.id := h.metered[s.id] + sent + received])
  }

  lemma {:induction false} CountKeepsExact(h: History, k: nat, sent: nat, received: nat, h': History)
    requires Exact(h) && k < |h.relay.sessions| && h.relay.sessions[k].id in h.metered
    requires h' == CountedHistory(h, k, sent, received)
    ensures Exact(h')
  {
    var s := h.relay.sessions[k];
    OwnIndex(h.relay.sessions, k);
    forall l | 0 <= l < |h'.relay.sessions| ensures OpenBooks(h', h'.relay.sessions[l]) {
      assert OpenBooks(h, h.relay.sessions[l]);
    }
    forall id ensures ClosedBooks(h', id) {
      assert ClosedBooks(h, id);
      SameIndices(h.relay.sessions, k, Counted(s, sent, received), id);
    }
    forall i | 0 <= i < |h.relay.proofs| ensures ProofBooks(h', h.relay.proofs[i]) {
      assert ProofBooks(h, h.relay.proofs[i]);
      SameIndices(h.relay.sessions, k, Counted(s, sent, received), h.relay.proofs[i].session);
    }
  }

  lemma {:induction false} RecordKeeps(h: History, id: string, sent: nat, received: nat, now: real)
    requires Exact(h) && Flushed(h.relay.sessions)
    ensures
      var h' := Step(h, Records(id, sent, received, now));
      Exact(h') && Flushed(h'.relay.sessions)
  {
    var at := FirstIndex(h.relay.sessions, SessionId(id));
    if at.Some? {
      assert OpenBooks(h, h.relay.sessions[at.value]);
      RecordOpenKeeps(h, at.value, sent, received, now, Step(h, Records(id, sent, received, now)));
    }
  }

  lemma {:induction false} RecordOpenKeeps(h: History, k: nat, sent: nat, received: nat, now: real, h': History)
    requires Exact(h) && Flushed(h.relay.sessions) && k < |h.relay.sessions| && h.relay.sessions[k].id in h.metered
    requires
      var counted := CountedHistory(h, k, sent, received);
      h' == if counted.relay.sessions[k].Unflushed() < PROOF_FLUSH_BYTES then counted
            else counted.(relay := Emit(counted.relay, k, now))
    ensures Exact(h') && Flushed(h'.relay.sessions)
  {
    var counted := CountedHistory(h, k, sent, received);
    CountKeepsExact(h, k, sent, received, counted);
    if counted.relay.sessions[k].Unflushed() >= PROOF_FLUSH_BYTES { EmitKeepsExact(counted, k, now); }
  }

  lemma {:induction false} TicksKeep(h: History, k: nat, now: real)
    requires Exact(h) && Flushed(h.relay.sessions) && k <= |h.relay.sessions|
    ensures
      var r := FlushDue(h.relay, k, now);
      && Exact(h.(relay := r)) && Flushed(r.sessions)
      && forall l :: k <= l < |r.sessions| ==> r.sessions[l] == h.relay.sessions[l]
  {
    if k > 0 {
      TicksKeep(h, k - 1, now);
      var before := FlushDue(h.relay, k - 1, now);
      if h.relay.sessions[k - 1].IsDue(now) { EmitKeeps(h.(relay := before), k - 1, now); }
    }
  }

  lemma {:induction false} EmitKeeps(h: History, k: nat, now: real)
    requires Exact(h) && Flushed(h.relay.sessions) && k < |h.relay.sessions| && h.relay.sessions[k].Unflushed() > 0
    ensures
      var r := Emit(h.relay, k, now);
      && Exact(h.(relay := r)) && Flushed(r.sessions) && |r.sessions| == |h.relay.sessions|
      && forall l :: 0 <= l < |r.sessions| && l != k ==> r.sessions[l] == h.relay.sessions[l]
  {
    EmitKeepsExact(h, k, now);
  }

  lemma {:induction false} OpenKeeps(h: History, id: string, now: real)
    requires Exact(h) && Flushed(h.relay.sessions) && id !in h.metered
    ensures
      var h' := Step(h, Opens(id, now));
      Exact(h') && Flushed(h'.relay.sessions)
  {
    var h' := Step(h, Opens(id, now));
    var n := |h.relay.sessions|;
    NothingProven(h, id, |h.relay.proofs|);
    assert h'.relay.sessions[..n] == h.relay.sessions && h.relay.proofs[..|h.relay.proofs|] == h.relay.proofs;
    forall l | 0 <= l < n ensures OpenBooks(h', h.relay.sessions[l]) && h.relay.sessions[l].id != id {
      assert OpenBooks(h, h.relay.sessions[l]);
    }
    assert OpenBooks(h', h'.relay.sessions[n]);
    forall other ensures ClosedBooks(h', other) { assert ClosedBooks(h, other); }
    forall i | 0 <= i < |h.relay.proofs| ensures ProofBooks(h', h.relay.proofs[i]) {
      assert ProofBooks(h, h.relay.proofs[i]);
    }
  }

  lemma {:induction false} NothingProven(h: History, id: string, n: nat)
    requires Exact(h) && id !in h.metered && n <= |h.relay.proofs|
    ensures Proven(h.relay.proofs[..n], id) == 0
  {
    if n > 0 {
      NothingProven(h, id, n - 1);
      assert ProofBooks(h, h.relay.proofs[n - 1]);
      assert h.relay.proofs[..n][..n - 1] == h.relay.proofs[..n - 1];
    }
  }

  /** Every session but the removed one is still found, unchanged. */
  lemma {:induction false} AfterRemoval(sessions: seq<Stats>, k: nat, id: string)
    requires DistinctSessions(sessions) && k < |sessions|
    ensures
      var at, at' := FirstIndex(sessions, SessionId(id)), FirstIndex(Without(sessions, k), SessionId(id));
      && (at'.Some? <==> at.Some? && id != sessions[k].id)
      && (at'.Some? ==> Without(sessions, k)[at'.value] == sessions[at.value])
  {
    var rest := Without(sessions, k);
    var at := FirstIndex(sessions, SessionId(id));
    forall l | 0 <= l < |rest| ensures rest[l] == sessions[if l < k then l else l + 1] {}
    if at.Some? && id != sessions[k].id {
      var l := if at.value < k then at.value else at.value - 1;
      assert rest[l] == sessions[at.value];
      assert SessionId(id)(rest[l]);
      OwnIndex(rest, l);
    } else {
      forall l | 0 <= l < |rest| ensures !SessionId(id)(rest[l]) {
        assert rest[l] == sessions[if l < k then l else l + 1];
        assert at.None? ==> !SessionId(id)(sessions[if l < k then l else l + 1]);
      }
    }
  }

  lemma {:induction false} CloseKeeps(h: History, id: string)
    requires Exact(h) && Flushed(h.relay.sessions)
    ensures
      var h' := Step(h, Closes(id));
      Exact(h') && Flushed(h'.relay.sessions)
  {
    var at := FirstIndex(h.relay.sessions, SessionId(id));
    if at.Some? {
      var s := h.relay.sessions[at.value];
      assert OpenBooks(h, s);
      if s.Unflushed() > 0 {
        EmitKeepsExact(h, at.value, 0.0);
        var emitted := h.(relay := Emit(h.relay, at.value, 0.0));
        RemoveKeeps(emitted, at.value);
        assert Without(emitted.relay.sessions, at.value) == Without(h.relay.sessions, at.value);
      } else {
        RemoveKeeps(h, at.value);
      }
    }
  }

  /** A session that owes nothing can go. */
  lemma {:induction false} RemoveKeeps(h: History, k: nat)
    requires Exact(h) && k < |h.relay.sessions| && h.relay.sessions[k].Unflushed() == 0
    ensures Exact(h.(relay := h.relay.(sessions := Without(h.relay.sessions, k))))
  {
    var s := h.relay.sessions[k];
    var h' := h.(relay := h.relay.(sessions := Without(h.relay.sessions, k)));
    assert OpenBooks(h, s);
    OwnIndex(h.relay.sessions, k);
    forall l | 0 <= l < |h'.relay.sessions| ensures OpenBooks(h', h'.relay.sessions[l]) {
      assert OpenBooks(h, h.relay.sessions[if l < k then l else l + 1]);
    }
    forall id ensures ClosedBooks(h', id) {
      assert ClosedBooks(h, id);
      AfterRemoval(h.relay.sessions, k, id);
    }
    forall i | 0 <= i < |h.relay.proofs| ensures ProofBooks(h', h.relay.proofs[i]) {
      assert ProofBooks(h, h.relay.proofs[i]);
      AfterRemoval(h.relay.sessions, k, h.relay.proofs[i].session);
    }
  }

  // ---------------------------------------------------------------- whole runs

  lemma {:induction false} RunIsExact(events: seq<Event>)
    ensures Exact(Run(events)) && Flushed(Run(events).relay.sessions)
  {
    if events != [] {
      var before, e := events[..|events| - 1], events[|events| - 1];
      RunIsExact(before);
      var h := Run(before);
      match e
      case Opens(id, now) => if id !in h.metered { OpenKeeps(h, id, now); }
      case Records(id, sent, received, now) => RecordKeeps(h, id, sent, received, now);
      case Closes(id) => CloseKeeps(h, id);
      case Ticks(now) => TicksKeep(h, |h.relay.sessions|, now);
    }
  }

  /** After every run, for every session ever opened: while it is open, the bytes in its proofs and the
      bytes still waiting are the bytes that were recorded, and fewer than 10 MiB wait; once it is closed,
      every recorded byte is in exactly one proof. */
  lemma {:induction false} MeteringIsExact(events: seq<Event>, id: string)
    requires id in Run(events).metered
    ensures
      var h := Run(events);
      var at := FirstIndex(h.relay.sessions, SessionId(id));
      && (at.Some? ==>
            && Proven(h.relay.proofs, id) + h.relay.sessions[at.value].Unflushed() == h.metered[id]
            && 0 <= h.relay.sessions[at.value].Unflushed() < PROOF_FLUSH_BYTES)
      && (at.None? ==> Proven(h.relay.proofs, id) == h.metered[id])
  {
    RunIsExact(events);
    var h := Run(events);
    var at := FirstIndex(h.relay.sessions, SessionId(id));
    if at.Some? { assert OpenBooks(h, h.relay.sessions[at.value]); }
    assert ClosedBooks(h, id);
  }

  // ---------------------------------------------------------------- what a tick does

  /** Bytes wait, and have done so for two minutes. */
  predicate Waited(s: Stats, now: real)
  {
    s.bytesIn + s.bytesOut > s.flushed && now - s.lastFlush >= 120.0
  }

  /** Session k of the first n after a tick: proven if it had waited, otherwise untouched. */
  predicate Ticked(before: Relay, after: Relay, k: nat, now: real)
    requires k < |before.sessions| == |after.sessions|
  {
    var s, s' := before.sessions[k], after.sessions[k];
    if Waited(s, now) then
      && s'.bytesIn == s.bytesIn && s'.bytesOut == s.bytesOut && s'.flushed == s.bytesIn + s.bytesOut
      && s'.lastFlush == now && s'.proofCount == s.proofCount + 1
      && ByteProof(s.id, s.proofCount, s.bytesIn + s.bytesOut - s.flushed) in after.proofs
    else s' == s
  }

  lemma {:induction false} FlushTicks(r: Relay, n: nat, now: real)
    requires n <= |r.sessions|
    ensures
      var r' := FlushDue(r, n, now);
      && |r'.sessions| == |r.sessions| && r.proofs <= r'.proofs
      && (forall k :: 0 <= k < n ==> Ticked(r, r', k, now))
      && (forall k :: n <= k < |r.sessions| ==> r'.sessions[k] == r.sessions[k])
  {
    if n > 0 {
      FlushTicks(r, n - 1, now);
      var before, r' := FlushDue(r, n - 1, now), FlushDue(r, n, now);
      forall k | 0 <= k < n - 1 ensures Ticked(r, r', k, now) { assert Ticked(r, before, k, now); }
      if r.sessions[n - 1].IsDue(now) {
        assert r'.proofs[|before.proofs|] in r'.proofs;
      }
    }
  }

  /** A tick proves exactly the sessions in which something has waited for two minutes, all of it, and leaves
      the others alone: afterwards nothing has waited that long. */
  lemma {:induction false} TickProvesWaiting(events: seq<Event>, now: real)
    ensures
      var r, r' := Run(events).relay, Run(events + [Ticks(now)]).relay;
      && |r'.sessions| == |r.sessions|
      && (forall k :: 0 <= k < |r.sessions| ==> Ticked(r, r', k, now))
      && (forall k :: 0 <= k < |r.sessions| ==> !Waited(r'.sessions[k], now))
  {
    assert (events + [Ticks(now)])[..|events|] == events;
    var r := Run(events).relay;
    FlushTicks(r, |r.sessions|, now);
    forall k | 0 <= k < |r.sessions| ensures !Waited(Run(events + [Ticks(now)]).relay.sessions[k], now) {
      assert Ticked(r, Run(events + [Ticks(now)]).relay, k, now);
    }
  }

  // ---------------------------------------------------------------- runs told by their events

  /** The session was opened and not closed since. */
  predicate IsOpen(events: seq<Event>, id: string)
  {
    events != [] &&
    var before, e := events[..|events| - 1], events[|events| - 1];
    match e
    case Opens(other, _) => IsOpen(before, id) || (other == id && !EverOpened(before, id))
    case Closes(other) => IsOpen(before, id) && other != id
    case _ => IsOpen(before, id)
  }

  predicate EverOpened(events: seq<Event>, id: string)
  {
    exists i :: 0 <= i < |events| && events[i].Opens? && events[i].id == id
  }

  /** The bytes that were recorded for a session while it was open, and how many proofs it has. */
  function Recorded(events: seq<Event>, id: string): nat
  {
    if events == [] then 0
    else
      var before, e := events[..|events| - 1], events[|events| - 1];
      Recorded(before, id) + if e.Records? && e.id == id && IsOpen(before, id) then e.sent + e.received else 0
  }

  function IsNamed(sessions: seq<Stats>, id: string): bool
  {
    FirstIndex(sessions, SessionId(id)).Some?
  }

  lemma {:induction false} NamedMeans(sessions: seq<Stats>, id: string)
    ensures IsNamed(sessions, id) <==> exists k :: 0 <= k < |sessions| && sessions[k].id == id
  {
    if k :| 0 <= k < |sessions| && sessions[k].id == id { assert SessionId(id)(sessions[k]); }
  }

  /** Nothing but opening and closing changes which sessions there are. */
  lemma {:induction false} SameNames(before: seq<Stats>, after: seq<Stats>, id: string)
    requires |after| == |before| && forall k :: 0 <= k < |before| ==> after[k].id == before[k].id
    ensures IsNamed(after, id) == IsNamed(before, id)
  {
    NamedMeans(before, id);
    NamedMeans(after, id);
    if k :| 0 <= k < |before| && before[k].id == id { assert after[k].id == id; }
    if k :| 0 <= k < |after| && after[k].id == id { assert before[k].id == id; }
  }

  lemma {:induction false} FlushNames(r: Relay, n: nat, now: real)
    requires n <= |r.sessions|
    ensures forall k :: 0 <= k < |r.sessions| ==> FlushDue(r, n, now).sessions[k].id == r.sessions[k].id
  {
    if n > 0 { FlushNames(r, n - 1, now); }
  }

  lemma {:induction false} ClosedNames(sessions: seq<Stats>, k: nat, id: string)
    requires DistinctSessions(sessions) && k < |sessions|
    ensures IsNamed(Without(sessions, k), id) <==> IsNamed(sessions, id) && id != sessions[k].id
  {
    var rest := Without(sessions, k);
    NamedMeans(sessions, id);
    NamedMeans(rest, id);
    if j :| 0 <= j < |rest| && rest[j].id == id { assert sessions[if j < k then j else j + 1].id == id; }
    if j :| 0 <= j < |sessions| && sessions[j].id == id && j != k { assert rest[if j < k then j else j - 1].id == id; }
  }

  lemma {:induction false} OpenStep(h: History, e: Event, id: string)
    requires Exact(h)
    ensures IsNamed(Step(h, e).relay.sessions, id) ==
      match e
      case Opens(other, _) => IsNamed(h.relay.sessions, id) || (other == id && id !in h.metered)
      case Closes(other) => IsNamed(h.relay.sessions, id) && other != id
      case _ => IsNamed(h.relay.sessions, id)
  {
    var sessions := h.relay.sessions;
    match e
    case Opens(other, now) =>
      if other !in h.metered {
        NamedMeans(sessions, id);
        NamedMeans(sessions + [NewStats(other, now)], id);
        assert (sessions + [NewStats(other, now)])[|sessions|].id == other;
        if k :| 0 <= k < |sessions| && sessions[k].id == id { assert (sessions + [NewStats(other, now)])[k].id == id; }
      }
    case Records(other, sent, received, now) => SameNames(sessions, Step(h, e).relay.sessions, id);
    case Closes(other) =>
      var at := FirstIndex(sessions, SessionId(other));
      if at.Some? { ClosedNames(sessions, at.value, id); }
    case Ticks(now) =>
      FlushNames(h.relay, |sessions|, now);
      SameNames(sessions, Step(h, e).relay.sessions, id);
  }

  /** Every run told by its events: which sessions are open, which were ever opened, and how many bytes were
      recorded for each. */
  lemma {:induction false} RunIsToldByEvents(events: seq<Event>, id: string)
    ensures
      var h := Run(events);
      && (IsNamed(h.relay.sessions, id) <==> IsOpen(events, id))
      && (id in h.metered <==> EverOpened(events, id))
      && (id in h.metered ==> h.metered[id] == Recorded(events, id))
      && (IsOpen(events, id) ==> EverOpened(events, id))
  {
    if events != [] {
      var before, e := events[..|events| - 1], events[|events| - 1];
      RunIsToldByEvents(before, id);
      RunIsExact(before);
      OpenStep(Run(before), e, id);
      OpenedOneMore(events, id);
      if !EverOpened(before, id) { NothingRecorded(before, id); }
    }
  }

  lemma {:induction false} OpenedOneMore(events: seq<Event>, id: string)
    requires events != []
    ensures
      var before, e := events[..|events| - 1], events[|events| - 1];
      EverOpened(events, id) <==> EverOpened(before, id) || (e.Opens? && e.id == id)
  {
    var n := |events| - 1;
    if i :| 0 <= i < n && events[..n][i].Opens? && events[..n][i].id == id { assert events[i].id == id; }
    if i :| 0 <= i < |events| && events[i].Opens? && events[i].id == id { assert i < n ==> events[..n][i].id == id; }
  }

  lemma {:induction false} NothingRecorded(events: seq<Event>, id: string)
    requires !EverOpened(events, id)
    ensures Recorded(events, id) == 0 && !IsOpen(events, id)
  {
    if events != [] {
      OpenedOneMore(events, id);
      NothingRecorded(events[..|events| - 1], id);
    }
  }

  /** So the proofs pay for what happened: closed sessions have every recorded byte in a proof, open ones all
      but less than 10 MiB. */
  lemma {:induction false} ProofsCoverRecords(events: seq<Event>, id: string)
    requires EverOpened(events, id)
    ensures
      var proven, recorded := Proven(Run(events).relay.proofs, id), Recorded(events, id);
      if IsOpen(events, id) then proven <= recorded < proven + 10_485_760 else proven == recorded
  {
    RunIsToldByEvents(events, id);
    MeteringIsExact(events, id);
  }

  // ---------------------------------------------------------------- numbering

  /** The proofs a session has. */
  function Issued(proofs: seq<ByteProof>, id: string): nat
  {
    if proofs == [] then 0
    else Issued(proofs[..|proofs| - 1], id) + if proofs[|proofs| - 1].session == id then 1 else 0
  }

  /** Every session counts its proofs, and each proof carries the number of those before it. */
  ghost predicate CountsProofs(h: History)
  {
    && (forall k :: 0 <= k < |h.relay.sessions| ==>
          h.relay.sessions[k].proofCount == Issued(h.relay.proofs, h.relay.sessions[k].id))
    && (forall id :: id !in h.metered ==> Issued(h.relay.proofs, id) == 0)
    && (forall i :: 0 <= i < |h.relay.proofs| ==> NumberedAt(h.relay.proofs, i))
  }

  predicate NumberedAt(proofs: seq<ByteProof>, i: nat)
    requires i < |proofs|
  {
    proofs[i].number == Issued(proofs[..i], proofs[i].session)
  }

  /** Counted proofs, over sessions that are all known and different. */
  ghost predicate Tidy(h: History)
  {
    && CountsProofs(h) && DistinctSessions(h.relay.sessions)
    && forall k :: 0 <= k < |h.relay.sessions| ==> h.relay.sessions[k].id in h.metered
  }

  lemma {:induction false} ExactIsTidy(h: History)
    requires Exact(h) && CountsProofs(h)
    ensures Tidy(h)
  {
    forall k | 0 <= k < |h.relay.sessions| ensures h.relay.sessions[k].id in h.metered {
      assert OpenBooks(h, h.relay.sessions[k]);
    }
  }

  lemma {:induction false} EmitCounts(h: History, k: nat, now: real)
    requires Tidy(h) && k < |h.relay.sessions|
    ensures Tidy(h.(relay := Emit(h.relay, k, now)))
  {
    var proofs, r' := h.relay.proofs, Emit(h.relay, k, now);
    assert r'.proofs[..|proofs|] == proofs;
    forall i | 0 <= i < |r'.proofs| ensures NumberedAt(r'.proofs, i) {
      if i < |proofs| {
        assert r'.proofs[..i] == proofs[..i];
        assert NumberedAt(proofs, i);
      }
    }
  }

  lemma {:induction false} FlushCounts(h: History, n: nat, now: real)
    requires Tidy(h) && n <= |h.relay.sessions|
    ensures Tidy(h.(relay := FlushDue(h.relay, n, now)))
  {
    forall r: Relay, k: nat | k < |r.sessions| && Tidy(h.(relay := r)) ensures Tidy(h.(relay := Emit(r, k, now))) {
      EmitCounts(h.(relay := r), k, now);
    }
    FlushKeeps(r => Tidy(h.(relay := r)), h.relay, n, now);
  }

  /** A tick, used only through what one proof keeps. */
  lemma {:induction false} FlushKeeps(inv: Relay -> bool, r: Relay, n: nat, now: real)
    requires n <= |r.sessions| && inv(r)
    requires forall q: Relay, k: nat :: k < |q.sessions| && inv(q) ==> inv(Emit(q, k, now))
    ensures inv(FlushDue(r, n, now))
  {
    if n > 0 { FlushKeeps(inv, r, n - 1, now); }
  }

  lemma {:induction false} RecordCounts(h: History, id: string, sent: nat, received: nat, now: real)
    requires Exact(h) && CountsProofs(h)
    ensures CountsProofs(Step(h, Records(id, sent, received, now)))
  {
    var at := FirstIndex(h.relay.sessions, SessionId(id));
    if at.Some? {
      assert OpenBooks(h, h.relay.sessions[at.value]);
      var counted := CountedHistory(h, at.value, sent, received);
      CountKeepsExact(h, at.value, sent, received, counted);
      ExactIsTidy(counted);
      if counted.relay.sessions[at.value].Unflushed() >= PROOF_FLUSH_BYTES { EmitCounts(counted, at.value, now); }
    }
  }

  lemma {:induction false} CloseCounts(h: History, id: string)
    requires Exact(h) && CountsProofs(h)
    ensures CountsProofs(Step(h, Closes(id)))
  {
    var at := FirstIndex(h.relay.sessions, SessionId(id));
    if at.Some? {
      var rest := Without(h.relay.sessions, at.value);
      var emitted := Emit(h.relay, at.value, 0.0);
      ExactIsTidy(h);
      EmitCounts(h, at.value, 0.0);
      forall k | 0 <= k < |rest| ensures rest[k] == h.relay.sessions[if k < at.value then k else k + 1]
        && rest[k] == emitted.sessions[if k < at.value then k else k + 1] {}
    }
  }

  /** Over every run the proofs of a session are numbered 0, 1, 2 and so on. */
  lemma {:induction false} NumberedInOrder(events: seq<Event>)
    ensures CountsProofs(Run(events))
  {
    if events != [] {
      var before, e := events[..|events| - 1], events[|events| - 1];
      var h := Run(before);
      NumberedInOrder(before);
      RunIsExact(before);
      match e
      case Opens(id, now) =>
      case Records(id, sent, received, now) => RecordCounts(h, id, sent, received, now);
      case Closes(id) => CloseCounts(h, id);
      case Ticks(now) =>
        ExactIsTidy(h);
        FlushCounts(h, |h.relay.sessions|, now);
    }
  }
}

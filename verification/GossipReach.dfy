/** How far a flood gets: every message that is taken for new goes on to all chosen peers, and without loss
    it arrives. */
module GossipReach {
  import opened Sequences
  import opened Gossip

  // ---------------------------------------------------------------- what one event sends

  /** One message to each chosen peer, in order, alike in everything. */
  ghost predicate SentToAll<P>(fs: seq<Flight<P>>, origin: nat, targets: seq<int>, msgId: string, msgType: string,
                               ttl: int, from: string, payload: P)
  {
    && |fs| == |targets|
    && forall i :: 0 <= i < |fs| ==>
         && fs[i].origin == origin && fs[i].sending.peer == targets[i]
         && fs[i].sending.envelope.msgId == msgId && fs[i].sending.envelope.msgType == msgType
         && fs[i].sending.envelope.ttl == ttl && fs[i].sending.envelope.origin == from
         && fs[i].sending.envelope.payload == payload
  }

  /** A broadcast sends one message to every chosen peer. */
  lemma {:induction false} BroadcastSends<P>(w: World<P>, node: int, e: Envelope<P>, targets: seq<int>)
    requires |targets| <= FANOUT
    ensures
      var w' := Step(w, Broadcasts(node, e, targets));
      && |w.air| <= |w'.air| && w'.air[..|w.air|] == w.air
      && SentToAll(w'.air[|w.air|..], |w.ttls|, targets, e.msgId, e.msgType, e.ttl, e.origin, e.payload)
  {
    var sent := Launch(|w.ttls|, SendTo(targets, e));
    assert (w.air + sent)[|w.air|..] == sent;
  }

  /** A delivery of a new id with hops left sends the message on to every chosen peer, with one hop less
      and otherwise unchanged; any other delivery sends nothing. */
  lemma {:induction false} DeliverySends<P>(w: World<P>, index: nat, targets: seq<int>)
    requires index < |w.air| && |targets| <= FANOUT
    ensures
      var f := w.air[index];
      var e, rest := f.sending.envelope, Without(w.air, index);
      var w' := Step(w, Delivers(index, targets));
      && |rest| <= |w'.air| && w'.air[..|rest|] == rest
      && if e.msgId !in CacheOf(w, f.sending.peer) && e.ttl > 1
         then SentToAll(w'.air[|rest|..], f.origin, targets, e.msgId, e.msgType, e.ttl - 1, e.origin, e.payload)
         else w'.air == rest
  {
    var f := w.air[index];
    var e, rest := f.sending.envelope, Without(w.air, index);
    var sent := Launch(f.origin, Arrive(CacheOf(w, f.sending.peer), e, targets).1);
    assert (rest + sent)[|rest|..] == sent && (rest + sent)[..|rest|] == rest;
  }

  // ---------------------------------------------------------------- without loss

  ghost predicate Lossless<P>(events: seq<Event<P>>)
  {
    forall i :: 0 <= i < |events| ==> !events[i].Loses?
  }

  /** Event j delivers this very message. */
  ghost predicate DeliversIt<P>(events: seq<Event<P>>, j: nat, f: Flight<P>)
  {
    && j < |events| && events[j].Delivers? && Possible(Run(events[..j]), events[j])
    && Run(events[..j]).air[events[j].index] == f
  }

  lemma {:induction false} InAir<P>(air: seq<Flight<P>>, index: nat, f: Flight<P>)
    requires index < |air| && f in air && f != air[index]
    ensures f in Without(air, index)
  {
    var i :| 0 <= i < |air| && air[i] == f;
    assert Without(air, index)[if i < index then i else i - 1] == f;
  }

  /** Without loss a message stays in the air until it is delivered. */
  lemma {:induction false} EventuallyDelivered<P>(events: seq<Event<P>>, i: nat, f: Flight<P>) returns (j: nat)
    requires Lossless(events) && i <= |events| && f in Run(events[..i]).air && Run(events).air == []
    ensures i <= j && DeliversIt(events, j, f)
    decreases |events| - i
  {
    NotYetOver(events, i, f);
    var w, e := Run(events[..i]), events[i];
    assert events[..i + 1][..i] == events[..i];
    if e.Delivers? && Possible(w, e) && w.air[e.index] == f {
      j := i;
    } else {
      StaysInAir(w, e, f);
      j := EventuallyDelivered(events, i + 1, f);
    }
  }

  lemma {:induction false} NotYetOver<P>(events: seq<Event<P>>, i: nat, f: Flight<P>)
    requires i <= |events| && f in Run(events[..i]).air && Run(events).air == []
    ensures i < |events|
  {
    assert events[..|events|] == events;
  }

  lemma {:induction false} StaysInAir<P>(w: World<P>, e: Event<P>, f: Flight<P>)
    requires f in w.air && !e.Loses? && !(e.Delivers? && Possible(w, e) && w.air[e.index] == f)
    ensures f in Step(w, e).air
  {
    if e.Delivers? && Possible(w, e) {
      InAir(w.air, e.index, f);
      DeliverySends(w, e.index, e.targets);
      Prefixed(Without(w.air, e.index), Step(w, e).air, f);
    } else if e.Broadcasts? && Possible(w, e) {
      BroadcastSends(w, e.node, e.envelope, e.targets);
      Prefixed(w.air, Step(w, e).air, f);
    }
  }

  lemma {:induction false} Prefixed<P>(a: seq<Flight<P>>, b: seq<Flight<P>>, f: Flight<P>)
    requires f in a && |a| <= |b| && b[..|a|] == a
    ensures f in b
  {
    var i :| 0 <= i < |a| && a[i] == f;
    assert b[i] == f;
  }

  // ---------------------------------------------------------------- along a path

  /** Event j delivers to a node a copy of a broadcast's message with this many hops left. */
  ghost predicate Arrives<P>(events: seq<Event<P>>, j: nat, node: int, e: Envelope<P>, ttl: int)
  {
    && j < |events| && events[j].Delivers? && Possible(Run(events[..j]), events[j])
    && Run(events[..j]).air[events[j].index].sending == Sending(node, e.(ttl := ttl))
  }

  /** Every copy that arrives at the node with this many hops left is new there and goes on to next. */
  ghost predicate PassesOn<P>(events: seq<Event<P>>, node: int, next: int, e: Envelope<P>, ttl: int)
  {
    forall j: nat :: Arrives(events, j, node, e, ttl) ==>
      e.msgId !in CacheOf(Run(events[..j]), node) && next in events[j].targets
  }

  /** From a copy that is in the air for a node to its arrival. */
  lemma {:induction false} OneHop<P>(events: seq<Event<P>>, i: nat, air: seq<Flight<P>>, k: nat, node: int,
                                     e: Envelope<P>, ttl: int) returns (j: nat)
    requires Lossless(events) && i <= |events| && Run(events).air == [] && air == Run(events[..i]).air
    requires k < |air| && air[k].sending == Sending(node, e.(ttl := ttl))
    ensures i <= j && Arrives(events, j, node, e, ttl)
  {
    j := EventuallyDelivered(events, i, air[k]);
  }

  /** The copy that a broadcast sends to one of its targets arrives. */
  lemma {:induction false} FirstHop<P>(events: seq<Event<P>>, i: nat, e: Envelope<P>, next: int) returns (j: nat)
    requires Lossless(events) && Run(events).air == [] && i < |events|
    requires events[i].Broadcasts? && events[i].envelope == e && Possible(Run(events[..i]), events[i])
    requires next in events[i].targets
    ensures i < j && Arrives(events, j, next, e, e.ttl)
  {
    assert events[..i + 1][..i] == events[..i];
    var k := SentTo(Run(events[..i]), events[i], next);
    j := OneHop(events, i + 1, Run(events[..i + 1]).air, k, next, e, e.ttl);
  }

  /** Where the copy for a target is in the air. */
  lemma {:induction false} SentTo<P>(w: World<P>, e: Event<P>, next: int) returns (k: nat)
    requires e.Broadcasts? && Possible(w, e) && next in e.targets
    ensures k < |Step(w, e).air| && Step(w, e).air[k].sending == Sending(next, e.envelope)
  {
    BroadcastSends(w, e.node, e.envelope, e.targets);
    var t :| 0 <= t < |e.targets| && e.targets[t] == next;
    var air := Step(w, e).air;
    assert air[|w.air|..][t] == air[|w.air| + t];
    k := |w.air| + t;
  }

  /** A copy that is passed on arrives at the next node with one hop less. */
  lemma {:induction false} NextHop<P>(events: seq<Event<P>>, i: nat, node: int, next: int, e: Envelope<P>, ttl: int)
    returns (j: nat)
    requires Lossless(events) && Run(events).air == [] && ttl > 1
    requires Arrives(events, i, node, e, ttl) && PassesOn(events, node, next, e, ttl)
    ensures i < j && Arrives(events, j, next, e, ttl - 1)
  {
    assert events[..i + 1][..i] == events[..i];
    var k := PassedTo(Run(events[..i]), events[i], node, next, e.(ttl := ttl));
    j := OneHop(events, i + 1, Run(events[..i + 1]).air, k, next, e, ttl - 1);
  }

  lemma {:induction false} PassedTo<P>(w: World<P>, d: Event<P>, node: int, next: int, e: Envelope<P>) returns (k: nat)
    requires d.Delivers? && Possible(w, d) && w.air[d.index].sending == Sending(node, e) && next in d.targets
    requires e.ttl > 1 && e.msgId !in CacheOf(w, node)
    ensures k < |Step(w, d).air| && Step(w, d).air[k].sending == Sending(next, e.(ttl := e.ttl - 1))
  {
    DeliverySends(w, d.index, d.targets);
    var rest, air := Without(w.air, d.index), Step(w, d).air;
    var t :| 0 <= t < |d.targets| && d.targets[t] == next;
    assert air[|rest|..][t] == air[|rest| + t];
    k := |rest| + t;
  }

  /** Along the path every node passes on what arrives, and the hops suffice. */
  ghost predicate OpenPath<P>(events: seq<Event<P>>, path: seq<int>, e: Envelope<P>)
  {
    && 0 < |path| && |path| <= (if e.ttl > 1 then e.ttl else 1)
    && forall m :: 0 <= m < |path| - 1 ==> PassesOn(events, path[m], path[m + 1], e, e.ttl - m)
  }

  /** A broadcast with TTL T reaches the end of every path of at most T hops: when nothing is lost and
      nothing is left in the air, and every node on the way finds the message new and chooses the next one,
      the last node receives it, with the hops the path has left over. */
  lemma {:induction false} FloodReaches<P>(events: seq<Event<P>>, i: nat, e: Envelope<P>, path: seq<int>)
    returns (j: nat)
    requires Lossless(events) && Run(events).air == [] && i < |events|
    requires events[i].Broadcasts? && events[i].envelope == e && Possible(Run(events[..i]), events[i])
    requires OpenPath(events, path, e) && path[0] in events[i].targets
    ensures i < j && Arrives(events, j, path[|path| - 1], e, e.ttl - (|path| - 1))
    decreases |path|
  {
    var n := |path| - 1;
    if n == 0 {
      j := FirstHop(events, i, e, path[0]);
    } else {
      var init := path[..n];
      forall m | 0 <= m < n - 1 ensures PassesOn(events, init[m], init[m + 1], e, e.ttl - m) {
        assert PassesOn(events, path[m], path[m + 1], e, e.ttl - m);
      }
      var before := FloodReaches(events, i, e, init);
      j := NextHop(events, before, path[n - 1], path[n], e, e.ttl - (n - 1));
    }
  }
}

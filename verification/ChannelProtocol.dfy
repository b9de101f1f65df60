/** Two parties, each with its own manager, and a network that drops, duplicates, reorders and makes
    up receipts. All it cannot do is sign for the sender. */
module ChannelProtocol {
  import opened Wrappers
  import opened Receipts
  import opened Channels

  /** Both managers and every message the sender's side has signed so far. */
  datatype Net = Net(s: Manager, r: Manager, signed: set<string>)

  datatype Event = AtSender(op: Op) | AtReceiver(op: Op)

  ghost function SignedIn(c: Change): set<string>
  {
    if c.receipt.Some? then {BytesOf(c.receipt.value)} else {}
  }

  ghost function NetStep(sigs: Signatures, net: Net, e: Event): Net
    requires Valid(net.s) && Valid(net.r)
  {
    match e
    case AtSender(op) =>
      var c := Apply(sigs, net.s, op);
      Net(c.after, net.r, net.signed + SignedIn(c))
    case AtReceiver(op) => Net(net.s, Apply(sigs, net.r, op).after, net.signed)
  }

  /** New channels get identifiers that are not in use. */
  ghost predicate Fresh(m: Manager, op: Op)
  {
    && (op.DoOpen? ==> op.id !in m.channels)
    && (op.DoInstall? ==> op.channel.channelId !in m.channels)
  }

  ghost predicate Unforged(sigs: Signatures, signed: set<string>, r: Receipt, publicKey: string)
  {
    VerifySender(sigs, r, publicKey) ==> BytesOf(r) in signed
  }

  /** What the channel id is used for: its sender never receives on it and its receiver never pays on
      it. A receipt that verifies carries a signature the sender's side has made. */
  ghost predicate Fair(sigs: Signatures, id: string, net: Net, e: Event)
  {
    match e
    case AtSender(op) => Fresh(net.s, op) && (op.DoReceive? ==> op.receipt.channelId != id)
    case AtReceiver(op) =>
      && Fresh(net.r, op)
      && (op.DoSend? && op.id == id && id in net.r.channels ==> op.wallet.address != net.r.channels[id].sender)
      && (op.DoReceive? && op.receipt.channelId == id ==> Unforged(sigs, net.signed, op.receipt, op.publicKey))
  }

  ghost function Run(sigs: Signatures, start: Net, events: seq<Event>): (net: Net)
    requires Valid(start.s) && Valid(start.r)
    ensures Valid(net.s) && Valid(net.r)
  {
    if events == [] then start
    else
      var before := Run(sigs, start, events[..|events| - 1]);
      var e := events[|events| - 1];
      StepKeepsValid(sigs, before, e);
      NetStep(sigs, before, e)
  }

  lemma {:induction false} StepKeepsValid(sigs: Signatures, net: Net, e: Event)
    requires Valid(net.s) && Valid(net.r)
    ensures Valid(NetStep(sigs, net, e).s) && Valid(NetStep(sigs, net, e).r)
  {
    ApplyKeepsValid(sigs, if e.AtSender? then net.s else net.r, e.op);
  }

  ghost predicate FairRun(sigs: Signatures, id: string, start: Net, events: seq<Event>)
    requires Valid(start.s) && Valid(start.r)
  {
    events == [] ||
    (var before := events[..|events| - 1];
     FairRun(sigs, id, start, before) && Fair(sigs, id, Run(sigs, start, before), events[|events| - 1]))
  }

  // ---------------------------------------------------------------- invariant

  /** The cumulative amount after the first k receipts. */
  function AmountAt(sent: seq<Receipt>, k: nat): int
    requires k <= |sent|
  {
    if k == 0 then 0 else sent[k - 1].amount
  }

  predicate Follows(sent: seq<Receipt>, id: string, i: nat)
    requires i < |sent|
  {
    sent[i].channelId == id && sent[i].nonce == i + 1 && sent[i].amount > AmountAt(sent, i)
  }

  ghost predicate Ordered(sent: seq<Receipt>, id: string)
  {
    forall i :: 0 <= i < |sent| ==> Follows(sent, id, i)
  }

  ghost predicate SenderSide(m: Manager, id: string)
  {
    && Valid(m) && id in m.channels && Ordered(m.log[id], id)
    && m.channels[id].nonce == |m.log[id]|
    && m.channels[id].paid == AmountAt(m.log[id], |m.log[id]|) <= m.channels[id].deposited
  }

  /** The receiver's history: nonces strictly increase up to k, amounts are those that were sent. */
  ghost predicate Accepted(log: seq<Receipt>, sent: seq<Receipt>, k: int)
  {
    && (forall i :: 0 <= i < |log| ==>
          1 <= log[i].nonce <= k <= |sent| && log[i].amount == sent[log[i].nonce - 1].amount)
    && (forall i, j :: 0 <= i < j < |log| ==> log[i].nonce < log[j].nonce)
    && k == if log == [] then 0 else log[|log| - 1].nonce
  }

  ghost predicate ReceiverSide(m: Manager, id: string, sent: seq<Receipt>)
  {
    && Valid(m) && id in m.channels && 0 <= m.acked[id] <= |sent| && Accepted(m.log[id], sent, m.acked[id])
    && m.channels[id].nonce == m.acked[id] && m.channels[id].paid == AmountAt(sent, m.acked[id])
  }

  ghost predicate SignedOnlySent(signed: set<string>, id: string, sent: seq<Receipt>)
  {
    forall n, a :: SigningBytes(id, n, a) in signed ==> 1 <= n <= |sent| && sent[n - 1].amount == a
  }

  predicate SameTerms(x: PaymentChannel, y: PaymentChannel)
  {
    x.channelId == y.channelId && x.sender == y.sender && x.receiver == y.receiver && x.deposited == y.deposited
  }

  ghost predicate Consistent(net: Net, id: string)
  {
    && SenderSide(net.s, id) && ReceiverSide(net.r, id, net.s.log[id]) && SignedOnlySent(net.signed, id, net.s.log[id])
    && SameTerms(net.s.channels[id], net.r.channels[id])
  }

  /** Both parties hold the channel as it was opened, and nothing was signed for it yet. */
  ghost predicate Started(net: Net, id: string)
  {
    && Valid(net.s) && Valid(net.r) && id in net.s.channels && id in net.r.channels
    && net.s.channels[id] == net.r.channels[id]
    && net.s.channels[id].nonce == 0 && net.s.channels[id].paid == 0 && net.s.channels[id].deposited > 0
    && net.s.log[id] == net.r.log[id] == [] && net.r.acked[id] == 0
    && forall n, a :: SigningBytes(id, n, a) !in net.signed
  }

  // ---------------------------------------------------------------- steps

  /** The channel as far as its payments go is what it was. */
  ghost predicate Untouched(m: Manager, m': Manager, id: string)
  {
    && id in m.channels && id in m'.channels && id in m.log && id in m'.log && id in m.acked && id in m'.acked
    && m'.log[id] == m.log[id] && m'.acked[id] == m.acked[id] && SameTerms(m'.channels[id], m.channels[id])
    && m'.channels[id].nonce == m.channels[id].nonce && m'.channels[id].paid == m.channels[id].paid
  }

  /** Anything but paying or receiving on the channel leaves it alone and signs nothing that belongs
      to it. */
  lemma {:induction false} OthersLeaveChannel(sigs: Signatures, id: string, m: Manager, op: Op)
    requires Valid(m) && id in m.channels && Fresh(m, op)
    requires op.DoReceive? && op.receipt.channelId == id ==> Apply(sigs, m, op).refusal.Some?
    requires op.DoSend? && op.id == id ==> Apply(sigs, m, op).refusal.Some?
    ensures Untouched(m, Apply(sigs, m, op).after, id)
    ensures
      var c := Apply(sigs, m, op);
      c.receipt.Some? ==> c.receipt.value.channelId != id
  {
    if op.DoSend? {
      SendElsewhere(sigs, id, m, op);
    } else if op.DoReceive? {
      ReceiveElsewhere(sigs, id, m, op);
    } else {
      AdministrationElsewhere(sigs, id, m, op);
    }
  }

  lemma {:induction false} AdministrationElsewhere(sigs: Signatures, id: string, m: Manager, op: Op)
    requires Valid(m) && id in m.channels && Fresh(m, op) && !op.DoSend? && !op.DoReceive?
    ensures Untouched(m, Apply(sigs, m, op).after, id) && Apply(sigs, m, op).receipt == None
  {
    match op
    case DoClose(_, _, _) =>
    case DoSettle(_, _, _) =>
    case _ =>
  }

  lemma {:induction false} SendElsewhere(sigs: Signatures, id: string, m: Manager, op: Op)
    requires Valid(m) && id in m.channels && op.DoSend? && (op.id == id ==> Apply(sigs, m, op).refusal.Some?)
    ensures Untouched(m, Apply(sigs, m, op).after, id)
    ensures
      var c := Apply(sigs, m, op);
      c.receipt.Some? ==> c.receipt.value.channelId != id
  {}

  lemma {:induction false} ReceiveElsewhere(sigs: Signatures, id: string, m: Manager, op: Op)
    requires Valid(m) && id in m.channels && op.DoReceive?
    requires op.receipt.channelId == id ==> Apply(sigs, m, op).refusal.Some?
    ensures Untouched(m, Apply(sigs, m, op).after, id)
    ensures
      var c := Apply(sigs, m, op);
      c.receipt.Some? ==> c.receipt.value.channelId != id
  {}

  lemma {:induction false} SenderStep(sigs: Signatures, id: string, net: Net, op: Op)
    requires Consistent(net, id) && Fair(sigs, id, net, AtSender(op))
    ensures Consistent(NetStep(sigs, net, AtSender(op)), id)
  {
    var c := Apply(sigs, net.s, op);
    if op.DoSend? && op.id == id && c.refusal.None? {
      SendStep(sigs, id, net, op);
    } else {
      OthersLeaveChannel(sigs, id, net.s, op);
      ApplyKeepsValid(sigs, net.s, op);
      SignedNothing(id, net.signed, c, net.s.log[id]);
      SenderUntouched(id, net, Net(c.after, net.r, net.signed + SignedIn(c)));
    }
  }

  lemma {:induction false} SenderUntouched(id: string, net: Net, net': Net)
    requires Consistent(net, id) && Valid(net'.s) && Untouched(net.s, net'.s, id) && net'.r == net.r
    requires SignedOnlySent(net'.signed, id, net.s.log[id])
    ensures Consistent(net', id)
  {}

  lemma {:induction false} SignedNothing(id: string, signed: set<string>, c: Change, sent: seq<Receipt>)
    requires SignedOnlySent(signed, id, sent) && (c.receipt.Some? ==> c.receipt.value.channelId != id)
    ensures SignedOnlySent(signed + SignedIn(c), id, sent)
  {
    forall n, a | SigningBytes(id, n, a) in signed + SignedIn(c)
      ensures 1 <= n <= |sent| && sent[n - 1].amount == a
    {
      if c.receipt.Some? && SigningBytes(id, n, a) == BytesOf(c.receipt.value) {
        SigningBytesInjective(id, n, a, c.receipt.value.channelId, c.receipt.value.nonce, c.receipt.value.amount);
      }
    }
  }

  lemma {:induction false} SendStep(sigs: Signatures, id: string, net: Net, op: Op)
    requires Consistent(net, id) && op.DoSend? && op.id == id && Apply(sigs, net.s, op).refusal.None?
    ensures Consistent(NetStep(sigs, net, AtSender(op)), id)
  {
    ApplyKeepsValid(sigs, net.s, op);
    var c := Apply(sigs, net.s, op);
    var sent, r := net.s.log[id], c.receipt.value;
    assert c.after.log[id] == sent + [r];
    assert r.channelId == id && r.nonce == |sent| + 1 && r.amount > AmountAt(sent, |sent|);
    OneMoreSent(sent, id, r);
    SignedOneMore(net.signed, id, sent, r);
    MoreSentIsFine(net.r.log[id], sent, r, net.r.acked[id]);
  }

  lemma {:induction false} OneMoreSent(sent: seq<Receipt>, id: string, r: Receipt)
    requires Ordered(sent, id)
    requires r.channelId == id && r.nonce == |sent| + 1 && r.amount > AmountAt(sent, |sent|)
    ensures Ordered(sent + [r], id)
  {
    forall i | 0 <= i < |sent + [r]| ensures Follows(sent + [r], id, i) {
      if i < |sent| { assert Follows(sent, id, i); }
    }
  }

  lemma {:induction false} SignedOneMore(signed: set<string>, id: string, sent: seq<Receipt>, r: Receipt)
    requires SignedOnlySent(signed, id, sent) && r.channelId == id && r.nonce == |sent| + 1
    ensures SignedOnlySent(signed + {BytesOf(r)}, id, sent + [r])
  {
    forall n, a | SigningBytes(id, n, a) in signed + {BytesOf(r)}
      ensures 1 <= n <= |sent + [r]| && (sent + [r])[n - 1].amount == a
    {
      if SigningBytes(id, n, a) == BytesOf(r) { SigningBytesInjective(id, n, a, r.channelId, r.nonce, r.amount); }
    }
  }

  lemma {:induction false} MoreSentIsFine(got: seq<Receipt>, sent: seq<Receipt>, r: Receipt, k: int)
    requires Accepted(got, sent, k)
    ensures Accepted(got, sent + [r], k)
  {}

  lemma {:induction false} ReceiverStep(sigs: Signatures, id: string, net: Net, op: Op)
    requires Consistent(net, id) && Fair(sigs, id, net, AtReceiver(op))
    ensures Consistent(NetStep(sigs, net, AtReceiver(op)), id)
  {
    var c := Apply(sigs, net.r, op);
    ApplyKeepsValid(sigs, net.r, op);
    if op.DoReceive? && op.receipt.channelId == id && c.refusal.None? {
      var r := op.receipt;
      assert BytesOf(r) == SigningBytes(id, r.nonce, r.amount);
      assert c.after.log[id] == net.r.log[id] + [Acked(sigs, r, op.wallet)];
      OneMoreAccepted(net.r.log[id], net.s.log[id], Acked(sigs, r, op.wallet), net.r.acked[id]);
    } else {
      OthersLeaveChannel(sigs, id, net.r, op);
    }
  }

  lemma {:induction false} OneMoreAccepted(got: seq<Receipt>, sent: seq<Receipt>, r: Receipt, k: int)
    requires Accepted(got, sent, k) && 0 <= k < r.nonce <= |sent| && r.amount == sent[r.nonce - 1].amount
    ensures Accepted(got + [r], sent, r.nonce)
  {}

  // ---------------------------------------------------------------- whole runs

  lemma {:induction false} RunConsistent(sigs: Signatures, id: string, start: Net, events: seq<Event>)
    requires Started(start, id) && FairRun(sigs, id, start, events)
    ensures Consistent(Run(sigs, start, events), id)
    ensures SameTerms(Run(sigs, start, events).s.channels[id], start.s.channels[id])
  {
    if events != [] {
      var before, e := events[..|events| - 1], events[|events| - 1];
      RunConsistent(sigs, id, start, before);
      var net := Run(sigs, start, before);
      match e
      case AtSender(op) => SenderStep(sigs, id, net, op); TermsKept(sigs, id, net.s, op);
      case AtReceiver(op) => ReceiverStep(sigs, id, net, op);
    }
  }

  lemma {:induction false} TermsKept(sigs: Signatures, id: string, m: Manager, op: Op)
    requires Valid(m) && id in m.channels && Fresh(m, op)
    ensures id in Apply(sigs, m, op).after.channels
    ensures SameTerms(Apply(sigs, m, op).after.channels[id], m.channels[id])
  {}

  lemma {:induction false} AmountsIncrease(sent: seq<Receipt>, id: string, j: nat, k: nat)
    requires Ordered(sent, id) && j <= k <= |sent|
    ensures AmountAt(sent, j) <= AmountAt(sent, k)
  {
    if j < k {
      assert Follows(sent, id, k - 1);
      AmountsIncrease(sent, id, j, k - 1);
    }
  }

  /** The nonces in the history strictly increase up to the acknowledged one. */
  ghost predicate NoNonceTwice(got: seq<Receipt>, acked: int)
  {
    forall i, j :: 0 <= i < j < |got| ==> got[i].nonce < got[j].nonce <= acked
  }

  /** The receiver's total is the amount of the highest nonce it acknowledged, which the sender really sent;
      it is at most the sender's total, at most the deposit; no nonce was accepted twice; and on both sides
      the two settlement shares add up to the deposit. */
  ghost predicate Safe(net: Net, id: string, deposit: int)
  {
    && id in net.s.channels && id in net.r.channels && id in net.s.log && id in net.r.log && id in net.r.acked
    && var s, r, sent, got := net.s.channels[id], net.r.channels[id], net.s.log[id], net.r.log[id];
    && 0 <= net.r.acked[id] <= |sent|
    && r.paid == (if net.r.acked[id] == 0 then 0 else sent[net.r.acked[id] - 1].amount)
    && 0 <= r.paid <= s.paid <= deposit
    && NoNonceTwice(got, net.r.acked[id])
    && r.BalanceReceiver() == r.paid && r.BalanceReceiver() + r.BalanceSender() == deposit
    && s.BalanceReceiver() == s.paid && s.BalanceReceiver() + s.BalanceSender() == deposit
  }

  /** All this holds after any fair run. */
  lemma {:induction false} ChannelSafety(sigs: Signatures, id: string, start: Net, events: seq<Event>)
    requires Started(start, id) && FairRun(sigs, id, start, events)
    ensures Safe(Run(sigs, start, events), id, start.s.channels[id].deposited)
  {
    RunConsistent(sigs, id, start, events);
    ConsistentIsSafe(id, Run(sigs, start, events));
  }

  lemma {:induction false} ConsistentIsSafe(id: string, net: Net)
    requires Consistent(net, id)
    ensures Safe(net, id, net.s.channels[id].deposited)
  {
    var sent, k := net.s.log[id], net.r.acked[id];
    AmountsIncrease(sent, id, 0, k);
    AmountsIncrease(sent, id, k, |sent|);
  }

  /** Neither party's total ever goes down. */
  lemma {:induction false} TotalsNeverDecrease(sigs: Signatures, id: string, start: Net, events: seq<Event>,
                                               later: seq<Event>)
    requires Started(start, id) && FairRun(sigs, id, start, events + later)
    ensures
      var net, net' := Run(sigs, start, events), Run(sigs, start, events + later);
      && id in net.s.channels && id in net.r.channels && id in net'.s.channels && id in net'.r.channels
      && net.s.channels[id].paid <= net'.s.channels[id].paid
      && net.r.channels[id].paid <= net'.r.channels[id].paid
      && net.r.acked[id] <= net'.r.acked[id]
    decreases |later|
  {
    if later == [] {
      assert events + later == events;
      RunConsistent(sigs, id, start, events);
    } else {
      var all, init := events + later, later[..|later| - 1];
      assert all[..|all| - 1] == events + init;
      TotalsNeverDecrease(sigs, id, start, events, init);
      RunConsistent(sigs, id, start, events + init);
      StepNeverDecreases(sigs, id, Run(sigs, start, events + init), all[|all| - 1]);
    }
  }

  lemma {:induction false} StepNeverDecreases(sigs: Signatures, id: string, net: Net, e: Event)
    requires Consistent(net, id) && Fair(sigs, id, net, e)
    ensures
      var next := NetStep(sigs, net, e);
      && id in next.s.channels && id in next.r.channels && id in next.r.acked
      && net.s.channels[id].paid <= next.s.channels[id].paid
      && net.r.channels[id].paid <= next.r.channels[id].paid
      && net.r.acked[id] <= next.r.acked[id]
  {
    match e
    case AtSender(op) =>
      if !(op.DoSend? && op.id == id && Apply(sigs, net.s, op).refusal.None?) {
        OthersLeaveChannel(sigs, id, net.s, op);
      }
    case AtReceiver(op) =>
      if op.DoReceive? && op.receipt.channelId == id && Apply(sigs, net.r, op).refusal.None? {
        var r := op.receipt;
        assert SigningBytes(id, r.nonce, r.amount) in net.signed;
        AmountsIncrease(net.s.log[id], id, net.r.acked[id], r.nonce);
      } else {
        OthersLeaveChannel(sigs, id, net.r, op);
      }
  }

  // ---------------------------------------------------------------- closing

  /** A channel that is no longer open never opens again, and its sender's total is final: only receipts
      that were signed before can still reach the receiver. */
  lemma {:induction false} ClosingIsFinal(sigs: Signatures, id: string, start: Net, events: seq<Event>,
                                          later: seq<Event>)
    requires Started(start, id) && FairRun(sigs, id, start, events + later)
    requires
      var net := Run(sigs, start, events);
      id in net.s.channels && net.s.channels[id].state != Open
    ensures
      var net, net' := Run(sigs, start, events), Run(sigs, start, events + later);
      && id in net'.s.channels && net'.s.channels[id].state != Open
      && net'.s.channels[id].paid == net.s.channels[id].paid && net'.s.log[id] == net.s.log[id]
    decreases |later|
  {
    if later == [] {
      assert events + later == events;
      RunConsistent(sigs, id, start, events);
    } else {
      var all, init := events + later, later[..|later| - 1];
      assert all[..|all| - 1] == events + init;
      ClosingIsFinal(sigs, id, start, events, init);
      RunConsistent(sigs, id, start, events + init);
      var e := all[|all| - 1];
      if e.AtSender? { ClosedStep(sigs, id, Run(sigs, start, events + init).s, e.op); }
    }
  }

  lemma {:induction false} ClosedStep(sigs: Signatures, id: string, m: Manager, op: Op)
    requires Valid(m) && id in m.channels && m.channels[id].state != Open && Fresh(m, op)
    requires op.DoReceive? ==> op.receipt.channelId != id
    ensures
      var after := Apply(sigs, m, op).after;
      && id in after.channels && id in after.log && after.channels[id].state != Open
      && after.channels[id].paid == m.channels[id].paid && after.log[id] == m.log[id]
  {
    if op.DoSend? && op.id == id { assert Apply(sigs, m, op) == Refused(m, NotActive); }
  }
}

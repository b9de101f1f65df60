/** Receipts that arrive after a channel was closed: the receiver's side never asks. */
module ChannelClosing {
  import opened Numbers
  import opened Wrappers
  import opened Receipts
  import opened Channels
  import opened ChannelProtocol

  function InState(m: Manager, id: string, state: ChannelState, closedAt: real): Manager
    requires id in m.channels
  {
    m.(channels := m.channels[id := m.channels[id].(state := state, closedAt := closedAt)])
  }

  /** Whatever state the receiver's channel is in, a receipt is refused for the same reason or accepted
      with the same effect: the two calls differ in nothing but the state itself. */
  lemma {:induction false} ReceiveIgnoresState(sigs: Signatures, m: Manager, id: string, state: ChannelState,
                                               closedAt: real, r: Receipt, wallet: Wallet, publicKey: string)
    requires Valid(m) && id in m.channels
    ensures
      var c := Receive(sigs, m, r, wallet, publicKey);
      && id in c.after.channels
      && Receive(sigs, InState(m, id, state, closedAt), r, wallet, publicKey)
         == c.(after := InState(c.after, id, state, closedAt))
  {
    var c := Receive(sigs, m, r, wallet, publicKey);
    if c.refusal.None? && r.channelId in m.channels {
      SameChannels(m.channels, id, state, closedAt, r);
    }
  }

  /** Recording a receipt and changing the state of a channel are independent of each other. */
  lemma {:induction false} SameChannels(channels: map<string, PaymentChannel>, id: string, state: ChannelState,
                                        closedAt: real, r: Receipt)
    requires id in channels && r.channelId in channels
    ensures
      Counted(channels[id := channels[id].(state := state, closedAt := closedAt)], r)
      == Counted(channels, r)[id := Counted(channels, r)[id].(state := state, closedAt := closedAt)]
  {}

  /** The channels with the receipt's nonce and total in its channel. */
  function Counted(channels: map<string, PaymentChannel>, r: Receipt): (c: map<string, PaymentChannel>)
    requires r.channelId in channels
    ensures c.Keys == channels.Keys
  {
    var ch := channels[r.channelId];
    channels[r.channelId := ch.(nonce := Max(ch.nonce, r.nonce), paid := r.amount)]
  }

  // ---------------------------------------------------------------- what was sent can be shown

  /** Every receipt of the channel was signed, and names the channel's sender. */
  ghost predicate Presentable(net: Net, id: string)
  {
    && id in net.s.channels && id in net.s.log
    && forall i :: 0 <= i < |net.s.log[id]| ==>
         BytesOf(net.s.log[id][i]) in net.signed && net.s.log[id][i].sender == net.s.channels[id].sender
  }

  lemma {:induction false} StepKeepsPresentable(sigs: Signatures, id: string, net: Net, e: Event)
    requires Consistent(net, id) && Fair(sigs, id, net, e) && Presentable(net, id)
    ensures Presentable(NetStep(sigs, net, e), id)
  {
    if e.AtSender? {
      if e.op.DoSend? && e.op.id == id && Apply(sigs, net.s, e.op).refusal.None? {
        SendKeepsPresentable(sigs, id, net, e.op);
      } else {
        OthersLeaveChannel(sigs, id, net.s, e.op);
        StillPresentable(id, net, NetStep(sigs, net, e));
      }
    }
  }

  lemma {:induction false} StillPresentable(id: string, net: Net, net': Net)
    requires Presentable(net, id) && Untouched(net.s, net'.s, id) && net.signed <= net'.signed
    ensures Presentable(net', id)
  {}

  lemma {:induction false} SendKeepsPresentable(sigs: Signatures, id: string, net: Net, op: Op)
    requires Valid(net.s) && Valid(net.r) && Presentable(net, id)
    requires op.DoSend? && op.id == id && Apply(sigs, net.s, op).refusal.None?
    ensures Presentable(NetStep(sigs, net, AtSender(op)), id)
  {}

  lemma {:induction false} RunPresentable(sigs: Signatures, id: string, start: Net, events: seq<Event>)
    requires Started(start, id) && FairRun(sigs, id, start, events)
    ensures Presentable(Run(sigs, start, events), id)
  {
    if events != [] {
      var before, e := events[..|events| - 1], events[|events| - 1];
      RunPresentable(sigs, id, start, before);
      RunConsistent(sigs, id, start, before);
      StepKeepsPresentable(sigs, id, Run(sigs, start, before), e);
    }
  }

  // ---------------------------------------------------------------- after closing

  /** Once the sender's channel is not open, the receiver's total can grow, and never past the total that
      the sender's channel was frozen with. */
  lemma {:induction false} LateReceiptsStayWithinFrozenTotal(sigs: Signatures, id: string, start: Net,
                                                            events: seq<Event>, later: seq<Event>)
    requires Started(start, id) && FairRun(sigs, id, start, events + later)
    requires
      var net := Run(sigs, start, events);
      id in net.s.channels && net.s.channels[id].state != Open
    ensures
      var net, net' := Run(sigs, start, events), Run(sigs, start, events + later);
      && id in net.r.channels && id in net'.r.channels
      && net.r.channels[id].paid <= net'.r.channels[id].paid <= net.s.channels[id].paid
  {
    ClosingIsFinal(sigs, id, start, events, later);
    ChannelSafety(sigs, id, start, events + later);
    TotalsNeverDecrease(sigs, id, start, events, later);
  }

  /** The receiver's history is behind the sender's, and the sender's last receipt verifies. */
  ghost predicate LastIsPending(sigs: Signatures, net: Net, id: string, wallet: Wallet, publicKey: string)
  {
    && id in net.s.log && id in net.r.channels && id in net.r.acked
    && 0 <= net.r.acked[id] < |net.s.log[id]| && wallet.address == net.r.channels[id].receiver
    && VerifySender(sigs, net.s.log[id][|net.s.log[id]| - 1], publicKey)
  }

  /** The receiver has caught up with the sender, in the state its channel had before. */
  ghost predicate CaughtUp(net: Net, net': Net, id: string)
  {
    && id in net.s.channels && id in net.s.log && id in net.r.channels && id in net'.r.channels && id in net'.r.acked
    && net'.r.channels[id].paid == net.s.channels[id].paid && net'.r.acked[id] == |net.s.log[id]|
    && net'.r.channels[id].state == net.r.channels[id].state
  }

  /** And it can grow exactly that far: whatever the states of the two channels are, the sender's last
      receipt, delivered late, is accepted and brings the receiver to the sender's total. */
  lemma {:induction false} LastReceiptStillCounts(sigs: Signatures, id: string, start: Net, events: seq<Event>,
                                                  net: Net, wallet: Wallet, publicKey: string, e: Event)
    requires Started(start, id) && FairRun(sigs, id, start, events) && net == Run(sigs, start, events)
    requires LastIsPending(sigs, net, id, wallet, publicKey)
    requires e == AtReceiver(DoReceive(net.s.log[id][|net.s.log[id]| - 1], wallet, publicKey))
    ensures FairRun(sigs, id, start, events + [e])
    ensures CaughtUp(net, Run(sigs, start, events + [e]), id)
  {
    RunConsistent(sigs, id, start, events);
    RunPresentable(sigs, id, start, events);
    LastIsAccepted(sigs, id, net, e.op.receipt, wallet, publicKey);
    OneMore(sigs, id, start, events, e);
  }

  lemma {:induction false} OneMore(sigs: Signatures, id: string, start: Net, events: seq<Event>, e: Event)
    requires Valid(start.s) && Valid(start.r)
    requires FairRun(sigs, id, start, events) && Fair(sigs, id, Run(sigs, start, events), e)
    ensures FairRun(sigs, id, start, events + [e])
    ensures Run(sigs, start, events + [e]) == NetStep(sigs, Run(sigs, start, events), e)
  {
    assert (events + [e])[..|events|] == events;
  }

  lemma {:induction false} LastIsAccepted(sigs: Signatures, id: string, net: Net, last: Receipt, wallet: Wallet,
                                          publicKey: string)
    requires Consistent(net, id) && Presentable(net, id) && LastIsPending(sigs, net, id, wallet, publicKey)
    requires last == net.s.log[id][|net.s.log[id]| - 1]
    ensures BytesOf(last) in net.signed
    ensures CaughtUp(net, NetStep(sigs, net, AtReceiver(DoReceive(last, wallet, publicKey))), id)
  {
    LastFits(net, id, last);
    DeliveredLast(sigs, id, net, last, wallet, publicKey);
  }

  lemma {:induction false} DeliveredLast(sigs: Signatures, id: string, net: Net, last: Receipt, wallet: Wallet,
                                         publicKey: string)
    requires Valid(net.s) && Valid(net.r) && id in net.s.channels && LastIsPending(sigs, net, id, wallet, publicKey)
    requires last == net.s.log[id][|net.s.log[id]| - 1] && last.channelId == id && last.nonce == |net.s.log[id]|
    requires last.sender == net.r.channels[id].sender
    requires last.amount == net.s.channels[id].paid <= net.r.channels[id].deposited
    ensures CaughtUp(net, NetStep(sigs, net, AtReceiver(DoReceive(last, wallet, publicKey))), id)
  {
    Record(sigs, net.r, last, wallet, publicKey);
    RecordedIsCaughtUp(id, net, last, Receive(sigs, net.r, last, wallet, publicKey).after);
  }

  lemma {:induction false} RecordedIsCaughtUp(id: string, net: Net, last: Receipt, after: Manager)
    requires id in net.s.channels && id in net.s.log && id in net.r.channels && id in after.acked
    requires last.channelId == id && last.nonce == |net.s.log[id]| && last.amount == net.s.channels[id].paid
    requires after.channels == Counted(net.r.channels, last) && after.acked[id] == last.nonce
    ensures CaughtUp(net, Net(net.s, after, net.signed), id)
  {}

  lemma {:induction false} LastFits(net: Net, id: string, last: Receipt)
    requires Consistent(net, id) && Presentable(net, id)
    requires |net.s.log[id]| > 0 && last == net.s.log[id][|net.s.log[id]| - 1]
    ensures BytesOf(last) in net.signed && last.sender == net.r.channels[id].sender
    ensures last.channelId == id && last.nonce == |net.s.log[id]|
    ensures last.amount == net.s.channels[id].paid <= net.r.channels[id].deposited
  {
    assert Follows(net.s.log[id], id, |net.s.log[id]| - 1);
  }

  lemma {:induction false} Record(sigs: Signatures, m: Manager, r: Receipt, wallet: Wallet, publicKey: string)
    requires Valid(m) && r.channelId in m.channels && m.acked[r.channelId] < r.nonce
    requires VerifySender(sigs, r, publicKey)
    requires
      var ch := m.channels[r.channelId];
      r.amount <= ch.deposited && r.sender == ch.sender && wallet.address == ch.receiver
    ensures
      var after := Receive(sigs, m, r, wallet, publicKey).after;
      && after.channels == Counted(m.channels, r) && r.channelId in after.acked && after.acked[r.channelId] == r.nonce
  {}

  // ---------------------------------------------------------------- a run

  const PAYER: Wallet := Wallet("payer", "key")
  const PAYEE: Wallet := Wallet("payee", "other")
  const CHANNEL: PaymentChannel := NewChannel("c", "payer", "payee", 10, 0.0, 0.0)
  const BOTH_OPEN: Net := Net(Install(NEW_MANAGER, CHANNEL), Install(NEW_MANAGER, CHANNEL), {})

  /** The payer sends five of ten and settles, the payee closes; nothing has arrived. */
  const SETTLED_EARLY: seq<Event> :=
    [AtSender(DoSend("c", 5, PAYER, "r", "", 0.0))] + [AtSender(DoSettle("c", PAYER, 0.0))]
    + [AtReceiver(DoClose("c", PAYEE, 0.0))]

  lemma {:induction false} SettledEarly(sigs: Signatures)
    ensures Started(BOTH_OPEN, "c") && FairRun(sigs, "c", BOTH_OPEN, SETTLED_EARLY)
    ensures
      var net := Run(sigs, BOTH_OPEN, SETTLED_EARLY);
      && "c" in net.s.channels && "c" in net.r.channels && "c" in net.s.log && "c" in net.r.acked
      && net.s.channels["c"].state == Closed && net.s.channels["c"].paid == 5
      && net.r.channels["c"].state == Closing && net.r.channels["c"].paid == 0 && net.r.acked["c"] == 0
      && net.s.log["c"] == [SignedReceipt(sigs, CHANNEL, PAYER, 5, "r", "")]
      && net.r.channels["c"].receiver == "payee"
  {
    var send, settle := AtSender(DoSend("c", 5, PAYER, "r", "", 0.0)), AtSender(DoSettle("c", PAYER, 0.0));
    OneMore(sigs, "c", BOTH_OPEN, [], send);
    assert [] + [send] == [send];
    OneMore(sigs, "c", BOTH_OPEN, [send], settle);
    OneMore(sigs, "c", BOTH_OPEN, [send] + [settle], AtReceiver(DoClose("c", PAYEE, 0.0)));
  }

  /** After both sides have closed with nothing received, the one receipt still counts in full. */
  lemma {:induction false} LateReceiptCounts(sigs: Signatures)
    requires VerifySender(sigs, SignedReceipt(sigs, CHANNEL, PAYER, 5, "r", ""), "key")
    ensures
      var r := SignedReceipt(sigs, CHANNEL, PAYER, 5, "r", "");
      var all := SETTLED_EARLY + [AtReceiver(DoReceive(r, PAYEE, "key"))];
      && FairRun(sigs, "c", BOTH_OPEN, all)
      && var net, net' := Run(sigs, BOTH_OPEN, SETTLED_EARLY), Run(sigs, BOTH_OPEN, all);
         && "c" in net.r.channels && net.r.channels["c"].state == Closing && net.r.channels["c"].paid == 0
         && "c" in net'.r.channels && net'.r.channels["c"].state == Closing && net'.r.channels["c"].paid == 5
  {
    SettledEarly(sigs);
    var r := SignedReceipt(sigs, CHANNEL, PAYER, 5, "r", "");
    LastReceiptStillCounts(sigs, "c", BOTH_OPEN, SETTLED_EARLY, Run(sigs, BOTH_OPEN, SETTLED_EARLY), PAYEE, "key",
                           AtReceiver(DoReceive(r, PAYEE, "key")));
  }
}

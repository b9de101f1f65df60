/** Who may end a channel and when it pays, over every sequence of calls on one manager. */
module ChannelEnds {
  import opened Wrappers
  import opened Receipts
  import opened Channels
  import opened ChannelProtocol

  // ---------------------------------------------------------------- the calls on one manager

  ghost function Calls(sigs: Signatures, m: Manager, ops: seq<Op>): (after: Manager)
    requires Valid(m)
    ensures Valid(after)
  {
    if ops == [] then m
    else
      var before := Calls(sigs, m, ops[..|ops| - 1]);
      ApplyKeepsValid(sigs, before, ops[|ops| - 1]);
      Apply(sigs, before, ops[|ops| - 1]).after
  }

  /** New channels get identifiers that are not in use. */
  ghost predicate FreshCalls(sigs: Signatures, m: Manager, ops: seq<Op>)
    requires Valid(m)
  {
    forall k :: 0 <= k < |ops| ==> Fresh(Calls(sigs, m, ops[..k]), ops[k])
  }

  /** What one side of the network did. */
  function SideOps(events: seq<Event>, sender: bool): seq<Op>
  {
    if events == [] then []
    else
      var before, e := events[..|events| - 1], events[|events| - 1];
      SideOps(before, sender) + if e.AtSender? == sender then [e.op] else []
  }

  /** In a run of the network each manager is what its own calls make of it. */
  lemma {:induction false} RunIsCalls(sigs: Signatures, start: Net, events: seq<Event>)
    requires Valid(start.s) && Valid(start.r)
    ensures Run(sigs, start, events).s == Calls(sigs, start.s, SideOps(events, true))
    ensures Run(sigs, start, events).r == Calls(sigs, start.r, SideOps(events, false))
  {
    if events != [] {
      var before, e := events[..|events| - 1], events[|events| - 1];
      RunIsCalls(sigs, start, before);
      var mine := SideOps(before, e.AtSender?);
      assert SideOps(before, !e.AtSender?) + [] == SideOps(before, !e.AtSender?);
      assert (mine + [e.op])[..|mine|] == mine;
    }
  }

  // ---------------------------------------------------------------- ending

  /** A close by one of the two parties. */
  predicate ClosesIt(ch: PaymentChannel, op: Op)
  {
    op.DoClose? && op.id == ch.channelId && (op.wallet.address == ch.sender || op.wallet.address == ch.receiver)
  }

  /** A settlement by the sender. */
  predicate SettlesIt(ch: PaymentChannel, op: Op)
  {
    op.DoSettle? && op.id == ch.channelId && op.wallet.address == ch.sender
  }

  predicate Sorts(ch: PaymentChannel, ops: seq<Op>, settled: bool, ended: bool)
  {
    && (settled <==> exists k :: 0 <= k < |ops| && SettlesIt(ch, ops[k]))
    && (ended <==> exists k :: 0 <= k < |ops| && (SettlesIt(ch, ops[k]) || ClosesIt(ch, ops[k])))
  }

  /** The state a channel has moved to. */
  function StateAfter(state: ChannelState, ch: PaymentChannel, op: Op): ChannelState
  {
    if SettlesIt(ch, op) && (state == Open || state == Closing) then Closed
    else if ClosesIt(ch, op) && state == Open then Closing
    else state
  }

  lemma {:induction false} StepState(sigs: Signatures, m: Manager, op: Op, id: string)
    requires Valid(m) && id in m.channels && Fresh(m, op)
    ensures id in Apply(sigs, m, op).after.channels
    ensures
      var ch, ch' := m.channels[id], Apply(sigs, m, op).after.channels[id];
      SameTerms(ch, ch') && ch'.expiresAt == ch.expiresAt && ch'.state == StateAfter(ch.state, ch, op)
  {
    match op
    case DoSend(_, _, _, _, _, _) => SendState(sigs, m, op, id);
    case DoReceive(_, _, _) => ReceiveState(sigs, m, op, id);
    case _ => OtherState(sigs, m, op, id);
  }

  lemma {:induction false} SendState(sigs: Signatures, m: Manager, op: Op, id: string)
    requires Valid(m) && id in m.channels && op.DoSend?
    ensures id in Apply(sigs, m, op).after.channels
    ensures
      var ch, ch' := m.channels[id], Apply(sigs, m, op).after.channels[id];
      SameTerms(ch, ch') && ch'.expiresAt == ch.expiresAt && ch'.state == ch.state
  {}

  lemma {:induction false} ReceiveState(sigs: Signatures, m: Manager, op: Op, id: string)
    requires Valid(m) && id in m.channels && op.DoReceive?
    ensures id in Apply(sigs, m, op).after.channels
    ensures
      var ch, ch' := m.channels[id], Apply(sigs, m, op).after.channels[id];
      SameTerms(ch, ch') && ch'.expiresAt == ch.expiresAt && ch'.state == ch.state
  {}

  lemma {:induction false} OtherState(sigs: Signatures, m: Manager, op: Op, id: string)
    requires Valid(m) && id in m.channels && Fresh(m, op) && !op.DoSend? && !op.DoReceive?
    ensures id in Apply(sigs, m, op).after.channels
    ensures
      var ch, ch' := m.channels[id], Apply(sigs, m, op).after.channels[id];
      SameTerms(ch, ch') && ch'.expiresAt == ch.expiresAt && ch'.state == StateAfter(ch.state, ch, op)
  {}

  /** Exactly who ends a channel, over every sequence of calls: it is closed if and only if its sender
      settled it, and not open any more if and only if that happened or one of its parties closed it.
      Nobody else's call, no payment and no lapse of time does either. */
  lemma {:induction false} EndedExactly(sigs: Signatures, m: Manager, ops: seq<Op>, id: string)
    requires Valid(m) && id in m.channels && m.channels[id].state == Open && FreshCalls(sigs, m, ops)
    ensures
      var m' := Calls(sigs, m, ops);
      && id in m'.channels && SameTerms(m.channels[id], m'.channels[id])
      && m'.channels[id].expiresAt == m.channels[id].expiresAt
      && m'.channels[id].state in {Open, Closing, Closed}
      && Sorts(m.channels[id], ops, m'.channels[id].state == Closed, m'.channels[id].state != Open)
  {
    if ops != [] {
      var n := |ops| - 1;
      EarlierFresh(sigs, m, ops, n);
      EndedExactly(sigs, m, ops[..n], id);
      var before := Calls(sigs, m, ops[..n]);
      assert Fresh(before, ops[n]);
      StepState(sigs, before, ops[n], id);
      SortsOneMore(m.channels[id], ops, n, before.channels[id].state);
    }
  }

  lemma {:induction false} EarlierFresh(sigs: Signatures, m: Manager, ops: seq<Op>, n: nat)
    requires Valid(m) && n <= |ops| && FreshCalls(sigs, m, ops)
    ensures FreshCalls(sigs, m, ops[..n])
  {
    forall k | 0 <= k < n ensures Fresh(Calls(sigs, m, ops[..n][..k]), ops[..n][k]) {
      assert ops[..n][..k] == ops[..k];
      assert Fresh(Calls(sigs, m, ops[..k]), ops[k]);
    }
  }

  lemma {:induction false} SortsOneMore(ch: PaymentChannel, ops: seq<Op>, n: nat, state: ChannelState)
    requires n == |ops| - 1 && state in {Open, Closing, Closed}
    requires Sorts(ch, ops[..n], state == Closed, state != Open)
    ensures
      var state' := StateAfter(state, ch, ops[n]);
      state' in {Open, Closing, Closed} && Sorts(ch, ops, state' == Closed, state' != Open)
  {
    assert ops == ops[..n] + [ops[n]];
  }

  /** The same for both sides of a run of the network. */
  lemma {:induction false} BothSidesEndExactly(sigs: Signatures, id: string, start: Net, events: seq<Event>)
    requires Started(start, id) && start.s.channels[id].state == Open && FairRun(sigs, id, start, events)
    ensures
      var net, ch := Run(sigs, start, events), start.s.channels[id];
      && id in net.s.channels && id in net.r.channels
      && var s, r := net.s.channels[id].state, net.r.channels[id].state;
      && Sorts(ch, SideOps(events, true), s == Closed, s != Open)
      && Sorts(ch, SideOps(events, false), r == Closed, r != Open)
  {
    RunIsCalls(sigs, start, events);
    SidesFresh(sigs, id, start, events);
    EndedExactly(sigs, start.s, SideOps(events, true), id);
    EndedExactly(sigs, start.r, SideOps(events, false), id);
  }

  lemma {:induction false} SidesFresh(sigs: Signatures, id: string, start: Net, events: seq<Event>)
    requires Valid(start.s) && Valid(start.r) && FairRun(sigs, id, start, events)
    ensures FreshCalls(sigs, start.s, SideOps(events, true)) && FreshCalls(sigs, start.r, SideOps(events, false))
  {
    if events != [] {
      var before, e := events[..|events| - 1], events[|events| - 1];
      SidesFresh(sigs, id, start, before);
      RunIsCalls(sigs, start, before);
      if e.AtSender? {
        OneMoreFresh(sigs, start.s, SideOps(before, true), e.op);
        assert SideOps(before, false) + [] == SideOps(before, false);
      } else {
        OneMoreFresh(sigs, start.r, SideOps(before, false), e.op);
        assert SideOps(before, true) + [] == SideOps(before, true);
      }
    }
  }

  lemma {:induction false} OneMoreFresh(sigs: Signatures, m: Manager, ops: seq<Op>, op: Op)
    requires Valid(m) && FreshCalls(sigs, m, ops) && Fresh(Calls(sigs, m, ops), op)
    ensures FreshCalls(sigs, m, ops + [op])
  {
    var all := ops + [op];
    forall k | 0 <= k < |all| ensures Fresh(Calls(sigs, m, all[..k]), all[k]) {
      if k < |ops| {
        assert all[..k] == ops[..k];
        assert Fresh(Calls(sigs, m, ops[..k]), ops[k]);
      } else {
        assert all[..k] == ops;
      }
    }
  }

  // ---------------------------------------------------------------- paying

  /** A payment of the channel's sender, in time, that the deposit covers. */
  predicate Pays(ch: PaymentChannel, op: Op)
  {
    && op.DoSend? && op.id == ch.channelId && op.wallet.address == ch.sender
    && ch.state == Open && (ch.expiresAt <= 0.0 || op.now <= ch.expiresAt)
    && op.increment > 0 && ch.paid + op.increment <= ch.deposited
  }

  /** A receipt the channel's receiver accepts: newer than all before, signed, covered, for these parties. */
  predicate Takes(sigs: Signatures, m: Manager, ch: PaymentChannel, op: Op)
    requires ch.channelId in m.acked
  {
    && op.DoReceive? && op.receipt.channelId == ch.channelId && op.wallet.address == ch.receiver
    && op.receipt.nonce > m.acked[ch.channelId] && op.receipt.amount <= ch.deposited
    && op.receipt.sender == ch.sender && op.receipt.senderSig != ""
    && sigs.verify(op.publicKey, SigningBytes(ch.channelId, op.receipt.nonce, op.receipt.amount), op.receipt.senderSig)
  }

  /** The receipt of a payment: the next nonce, the new total, and the sender's signature over both. */
  predicate PaidReceipt(sigs: Signatures, ch: PaymentChannel, op: Op, r: Receipt)
    requires op.DoSend?
  {
    && r.channelId == ch.channelId && r.nonce == ch.nonce + 1 && r.amount == ch.paid + op.increment
    && r.sender == ch.sender && r.receiver == ch.receiver
    && r.receiptId == op.rid && r.memo == op.memo && r.ackSig == ""
    && r.senderSig == sigs.sign(op.wallet, SigningBytes(ch.channelId, ch.nonce + 1, ch.paid + op.increment))
  }

  /** The history of a channel grows by one receipt exactly when its sender pays in time or its receiver
      takes a receipt, and that receipt is the one paid with or the one taken, countersigned. */
  lemma {:induction false} StepHistory(sigs: Signatures, m: Manager, op: Op, id: string)
    requires Valid(m) && id in m.channels && Fresh(m, op)
    ensures
      var ch, log, m' := m.channels[id], m.log[id], Apply(sigs, m, op).after;
      && id in m'.log && log <= m'.log[id]
      && |m'.log[id]| == |log| + (if Pays(ch, op) || Takes(sigs, m, ch, op) then 1 else 0)
      && (Pays(ch, op) ==> PaidReceipt(sigs, ch, op, m'.log[id][|log|]))
      && (Takes(sigs, m, ch, op) ==>
            m'.log[id][|log|] == op.receipt.(ackSig := sigs.sign(op.wallet, BytesOf(op.receipt))))
  {
    match op
    case DoSend(_, _, _, _, _, _) => SendHistory(sigs, m, op, id);
    case DoReceive(_, _, _) => ReceiveHistory(sigs, m, op, id);
    case _ =>
  }

  lemma {:induction false} SendHistory(sigs: Signatures, m: Manager, op: Op, id: string)
    requires Valid(m) && id in m.channels && op.DoSend?
    ensures
      var ch, log, m' := m.channels[id], m.log[id], Apply(sigs, m, op).after;
      && id in m'.log && log <= m'.log[id] && |m'.log[id]| == |log| + (if Pays(ch, op) then 1 else 0)
      && (Pays(ch, op) ==> PaidReceipt(sigs, ch, op, m'.log[id][|log|]))
  {
    SendRefusals(sigs, m, op);
    if Pays(m.channels[id], op) { SendRecords(sigs, m, op, id); }
  }

  lemma {:induction false} SendRecords(sigs: Signatures, m: Manager, op: Op, id: string)
    requires Valid(m) && id in m.channels && op.DoSend? && op.id == id && Apply(sigs, m, op).refusal.None?
    ensures
      var ch, log, m' := m.channels[id], m.log[id], Apply(sigs, m, op).after;
      && id in m'.log && |m'.log[id]| == |log| + 1 && m'.log[id][..|log|] == log
      && PaidReceipt(sigs, ch, op, m'.log[id][|log|])
  {}

  lemma {:induction false} ReceiveHistory(sigs: Signatures, m: Manager, op: Op, id: string)
    requires Valid(m) && id in m.channels && op.DoReceive?
    ensures
      var ch, log, m' := m.channels[id], m.log[id], Apply(sigs, m, op).after;
      && id in m'.log && log <= m'.log[id] && |m'.log[id]| == |log| + (if Takes(sigs, m, ch, op) then 1 else 0)
      && (Takes(sigs, m, ch, op) ==>
            m'.log[id][|log|] == op.receipt.(ackSig := sigs.sign(op.wallet, BytesOf(op.receipt))))
  {}

  /** Receipt i of the history comes from call k. */
  ghost predicate ComesFrom(sigs: Signatures, m: Manager, ops: seq<Op>, k: nat, r: Receipt, id: string)
    requires Valid(m)
  {
    && k < |ops|
    && var before := Calls(sigs, m, ops[..k]);
    && id in before.channels && id in before.acked
    && var ch := before.channels[id];
    && ((Pays(ch, ops[k]) && PaidReceipt(sigs, ch, ops[k], r))
        || (Takes(sigs, before, ch, ops[k]) && r.nonce == ops[k].receipt.nonce && r.amount == ops[k].receipt.amount))
  }

  /** Over every sequence of calls, each receipt of a channel's history was paid by the sender's wallet
      while the channel was open and not expired, or taken by the receiver with a signature that
      verified. */
  lemma {:induction false} EveryReceiptHasACause(sigs: Signatures, m: Manager, ops: seq<Op>, id: string, i: nat)
    returns (k: nat)
    requires Valid(m) && id in m.channels && m.channels[id].state == Open && m.log[id] == []
    requires FreshCalls(sigs, m, ops) && id in Calls(sigs, m, ops).log && i < |Calls(sigs, m, ops).log[id]|
    ensures ComesFrom(sigs, m, ops, k, Calls(sigs, m, ops).log[id][i], id)
  {
    var n := |ops| - 1;
    EarlierFresh(sigs, m, ops, n);
    EndedExactly(sigs, m, ops[..n], id);
    var before := Calls(sigs, m, ops[..n]);
    assert Fresh(before, ops[n]);
    StepHistory(sigs, before, ops[n], id);
    if i < |before.log[id]| {
      k := EveryReceiptHasACause(sigs, m, ops[..n], id, i);
      SameCause(sigs, m, ops, n, k, before.log[id][i], id);
    } else {
      k := n;
      NewCause(sigs, m, ops, n, id);
    }
  }

  lemma {:induction false} NewCause(sigs: Signatures, m: Manager, ops: seq<Op>, n: nat, id: string)
    requires Valid(m) && n == |ops| - 1 && id in Calls(sigs, m, ops[..n]).channels
    requires Fresh(Calls(sigs, m, ops[..n]), ops[n])
    ensures
      var log, log' := Calls(sigs, m, ops[..n]).log, Calls(sigs, m, ops).log;
      && id in log && id in log' && |log'[id]| <= |log[id]| + 1
      && (|log'[id]| > |log[id]| ==> ComesFrom(sigs, m, ops, n, log'[id][|log[id]|], id))
  {
    StepHistory(sigs, Calls(sigs, m, ops[..n]), ops[n], id);
  }

  lemma {:induction false} SameCause(sigs: Signatures, m: Manager, ops: seq<Op>, n: nat, k: nat, r: Receipt, id: string)
    requires Valid(m) && k < n <= |ops| && ComesFrom(sigs, m, ops[..n], k, r, id)
    ensures ComesFrom(sigs, m, ops, k, r, id)
  {
    assert ops[..n][..k] == ops[..k];
  }

  // ---------------------------------------------------------------- opening

  /** Call k opened the channel with these terms: a positive deposit, and an end only for a positive time to
      live. */
  predicate OpenedBy(ops: seq<Op>, k: nat, ch: PaymentChannel)
  {
    && k < |ops| && ops[k].DoOpen? && ops[k].id == ch.channelId && ops[k].deposit > 0
    && ch.sender == ops[k].wallet.address && ch.receiver == ops[k].receiver && ch.deposited == ops[k].deposit
    && (ops[k].ttl > 0.0 ==> ch.expiresAt == ops[k].now + ops[k].ttl) && (ops[k].ttl <= 0.0 ==> ch.expiresAt == 0.0)
  }

  /** Call k installed the channel of the other side. */
  predicate InstalledBy(ops: seq<Op>, k: nat, ch: PaymentChannel)
  {
    k < |ops| && ops[k].DoInstall? && SameTerms(ops[k].channel, ch) && ops[k].channel.expiresAt == ch.expiresAt
  }

  /** Which channels there are after one more call, and on what terms a new one starts. */
  lemma {:induction false} StepOpens(sigs: Signatures, m: Manager, op: Op, id: string)
    requires Valid(m) && id !in m.channels
    ensures
      var m' := Apply(sigs, m, op).after;
      && (id in m'.channels <==>
            (op.DoOpen? && op.id == id && op.deposit > 0) || (op.DoInstall? && op.channel.channelId == id))
      && (id in m'.channels ==>
            && m'.log[id] == [] && m'.acked[id] == 0
            && (OpenedBy([op], 0, m'.channels[id]) || InstalledBy([op], 0, m'.channels[id]))
            && (op.DoOpen? ==>
                  var ch := m'.channels[id];
                  ch.state == Open && ch.nonce == 0 && ch.paid == 0 && ch.openedAt == op.now && ch.closedAt == 0.0))
  {}

  /** Over every sequence of calls on a new manager, each channel was opened by one of them, on the terms it
      still has. */
  lemma {:induction false} EveryChannelWasOpened(sigs: Signatures, ops: seq<Op>, id: string) returns (k: nat)
    requires FreshCalls(sigs, NEW_MANAGER, ops) && id in Calls(sigs, NEW_MANAGER, ops).channels
    ensures
      var ch := Calls(sigs, NEW_MANAGER, ops).channels[id];
      ch.channelId == id && (OpenedBy(ops, k, ch) || InstalledBy(ops, k, ch))
  {
    var n := |ops| - 1;
    var before := Calls(sigs, NEW_MANAGER, ops[..n]);
    EarlierFresh(sigs, NEW_MANAGER, ops, n);
    assert Fresh(before, ops[n]);
    if id in before.channels {
      k := EveryChannelWasOpened(sigs, ops[..n], id);
      StepState(sigs, before, ops[n], id);
    } else {
      StepOpens(sigs, before, ops[n], id);
      k := n;
    }
  }

  /** On a channel it does not know a manager countersigns what verifies, refuses the rest, and keeps
      nothing of either. */
  lemma {:induction false} StrangersReceipt(sigs: Signatures, m: Manager, r: Receipt, wallet: Wallet, publicKey: string)
    requires r.channelId !in m.channels
    ensures
      var c := Receive(sigs, m, r, wallet, publicKey);
      && c.after == m
      && if r.senderSig != "" && sigs.verify(publicKey, SigningBytes(r.channelId, r.nonce, r.amount), r.senderSig)
         then c.refusal == None && c.receipt == Some(r.(ackSig := sigs.sign(wallet, BytesOf(r))))
         else c.refusal == Some(BadSignature) && c.receipt == None
  {}

  /** The shares of any channel, even an overpaid one: the receiver gets what was paid as far as the deposit
      goes, the sender what is left and never less than nothing. */
  lemma {:induction false} SharesOfAnyChannel(ch: PaymentChannel)
    ensures ch.paid <= ch.deposited ==> ch.BalanceReceiver() == ch.paid && ch.BalanceSender() == ch.deposited - ch.paid
    ensures ch.paid >= ch.deposited ==> ch.BalanceReceiver() == ch.deposited && ch.BalanceSender() == 0
  {}

  // ---------------------------------------------------------------- why a call is refused

  /** What a payment is refused for, in the order it is checked. */
  lemma {:induction false} SendRefusals(sigs: Signatures, m: Manager, op: Op)
    requires Valid(m) && op.DoSend?
    ensures
      var why := Apply(sigs, m, op).refusal;
      if op.id !in m.channels then why == Some(UnknownChannel)
      else
        var ch := m.channels[op.id];
        && (Pays(ch, op) <==> why == None)
        && (why == Some(NotActive) <==> ch.state != Open || (ch.expiresAt > 0.0 && op.now > ch.expiresAt))
        && (why == Some(NotSender) ==> op.wallet.address != ch.sender)
        && (why == Some(NonPositiveIncrement) ==> op.increment <= 0)
        && (why == Some(ExceedsDeposit) ==> ch.paid + op.increment > ch.deposited)
  {}

  /** What a receipt is refused for. */
  lemma {:induction false} ReceiveRefusals(sigs: Signatures, m: Manager, op: Op)
    requires Valid(m) && op.DoReceive? && op.receipt.channelId in m.channels
    ensures
      var id, r := op.receipt.channelId, op.receipt;
      var ch, why := m.channels[id], Apply(sigs, m, op).refusal;
      && (Takes(sigs, m, ch, op) <==> why == None)
      && (why == Some(Stale) <==> r.nonce <= m.acked[id])
      && (why == Some(BadSignature) ==> !VerifySender(sigs, r, op.publicKey))
      && (why == Some(ExceedsDeposit) ==> r.amount > ch.deposited)
      && (why == Some(SenderMismatch) ==> r.sender != ch.sender)
      && (why == Some(NotReceiver) ==> op.wallet.address != ch.receiver)
  {}

  /** What closing and settling are refused for. */
  lemma {:induction false} EndRefusals(sigs: Signatures, m: Manager, op: Op)
    requires Valid(m) && (op.DoClose? || op.DoSettle?)
    ensures
      var c := Apply(sigs, m, op);
      if op.id !in m.channels then c == Refused(m, UnknownChannel)
      else
        var ch := m.channels[op.id];
        && (c.refusal == None <==>
              || (ClosesIt(ch, op) && ch.state == Open)
              || (SettlesIt(ch, op) && (ch.state == Open || ch.state == Closing)))
        && (c.refusal == Some(NotOpen) <==>
              if op.DoClose? then ch.state != Open else ch.state != Open && ch.state != Closing)
        && (c.refusal == Some(NotAParty) ==> op.DoClose?) && (c.refusal == Some(NotSender) ==> op.DoSettle?)
        && (c.refusal == None ==> op.id in c.after.channels && c.after.channels[op.id].closedAt == op.now)
  {}

  // ---------------------------------------------------------------- the latest receipt

  /** The receipt a manager keeps for a channel is the last of its history. */
  ghost predicate KeepsLast(m: Manager, id: string)
  {
    id in m.log ==>
      if m.log[id] == [] then id !in m.latest else id in m.latest && m.latest[id] == m.log[id][|m.log[id]| - 1]
  }

  lemma {:induction false} StepKeepsLast(sigs: Signatures, m: Manager, op: Op, id: string)
    requires Valid(m) && Fresh(m, op) && KeepsLast(m, id) && (id !in m.log ==> id !in m.latest)
    ensures
      var m' := Apply(sigs, m, op).after;
      KeepsLast(m', id) && (id !in m'.log ==> id !in m'.latest)
  {
    match op
    case DoSend(_, _, _, _, _, _) => SendKeepsLast(sigs, m, op, id);
    case DoReceive(_, _, _) => ReceiveKeepsLast(sigs, m, op, id);
    case _ =>
  }

  lemma {:induction false} SendKeepsLast(sigs: Signatures, m: Manager, op: Op, id: string)
    requires Valid(m) && op.DoSend? && KeepsLast(m, id) && (id !in m.log ==> id !in m.latest)
    ensures
      var m' := Apply(sigs, m, op).after;
      KeepsLast(m', id) && (id !in m'.log ==> id !in m'.latest)
  {}

  lemma {:induction false} ReceiveKeepsLast(sigs: Signatures, m: Manager, op: Op, id: string)
    requires Valid(m) && op.DoReceive? && KeepsLast(m, id) && (id !in m.log ==> id !in m.latest)
    ensures
      var m' := Apply(sigs, m, op).after;
      KeepsLast(m', id) && (id !in m'.log ==> id !in m'.latest)
  {}

  /** Over every sequence of calls on a new manager. */
  lemma {:induction false} LatestIsLast(sigs: Signatures, ops: seq<Op>, id: string)
    requires FreshCalls(sigs, NEW_MANAGER, ops)
    ensures
      var m := Calls(sigs, NEW_MANAGER, ops);
      KeepsLast(m, id) && (id !in m.log ==> id !in m.latest)
  {
    if ops != [] {
      var n := |ops| - 1;
      EarlierFresh(sigs, NEW_MANAGER, ops, n);
      LatestIsLast(sigs, ops[..n], id);
      assert Fresh(Calls(sigs, NEW_MANAGER, ops[..n]), ops[n]);
      StepKeepsLast(sigs, Calls(sigs, NEW_MANAGER, ops[..n]), ops[n], id);
    }
  }
}

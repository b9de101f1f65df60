/** Payment channels on values: what one manager does in each call (border/payments/manager.py,
    border/payments/channel.py), without a chain. */
module Channels {
  import opened Numbers
  import opened Wrappers
  import opened Receipts

  datatype ChannelState = Open | Closing | Closed | Disputed

  datatype PaymentChannel = PaymentChannel(
    channelId: string,
    sender: string,
    receiver: string,
    deposited: int,
    nonce: int,
    paid: int,
    state: ChannelState,
    openedAt: real,
    expiresAt: real,
    closedAt: real)
  {
    /** What the receiver can claim on settlement. */
    function BalanceReceiver(): int { if paid < deposited then paid else deposited }

    /** What the sender gets back on settlement. */
    function BalanceSender(): int { if deposited - paid > 0 then deposited - paid else 0 }

    predicate IsActive(now: real) { state == Open && !(expiresAt > 0.0 && now > expiresAt) }
  }

  datatype Manager = Manager(
    channels: map<string, PaymentChannel>,
    latest: map<string, Receipt>,
    log: map<string, seq<Receipt>>,
    acked: map<string, int>)

  datatype Refusal =
    | NonPositiveDeposit | UnknownChannel | NotActive | NotSender | NonPositiveIncrement | ExceedsDeposit
    | Stale | BadSignature | SenderMismatch | NotReceiver | NotOpen | NotAParty

  /** The manager afterwards, why the call was refused, and the receipt it made or countersigned. */
  datatype Change = Change(after: Manager, refusal: Option<Refusal>, receipt: Option<Receipt>)

  function Refused(m: Manager, why: Refusal): Change
  {
    Change(m, Some(why), None)
  }

  const NEW_MANAGER := Manager(map[], map[], map[], map[])

  /** Every channel is filed under its id, with its history and its last acknowledged nonce. */
  ghost predicate Valid(m: Manager)
  {
    && m.log.Keys == m.channels.Keys == m.acked.Keys
    && forall id :: id in m.channels ==> m.channels[id].channelId == id
  }

  // ---------------------------------------------------------------- calls

  function NewChannel(id: string, sender: string, receiver: string, deposit: int, ttl: real, now: real): PaymentChannel
  {
    PaymentChannel(id, sender, receiver, deposit, 0, 0, Open, now, if ttl > 0.0 then now + ttl else 0.0, 0.0)
  }

  /** Registers a channel with an empty history. */
  function Install(m: Manager, ch: PaymentChannel): Manager
  {
    m.(channels := m.channels[ch.channelId := ch], log := m.log[ch.channelId := []],
       acked := m.acked[ch.channelId := 0])
  }

  /** id is the fresh random identifier of the new channel. */
  function OpenChannel(m: Manager, id: string, wallet: Wallet, receiver: string, deposit: int, ttl: real,
                       now: real): Change
  {
    if deposit <= 0 then Refused(m, NonPositiveDeposit)
    else Change(Install(m, NewChannel(id, wallet.address, receiver, deposit, ttl, now)), None, None)
  }

  function SignedReceipt(sigs: Signatures, ch: PaymentChannel, wallet: Wallet, total: int, rid: string,
                         memo: string): Receipt
  {
    var r := Receipt(rid, ch.channelId, ch.nonce + 1, total, ch.sender, ch.receiver, "", "", memo);
    r.(senderSig := sigs.sign(wallet, BytesOf(r)))
  }

  function Send(sigs: Signatures, m: Manager, id: string, increment: int, wallet: Wallet, rid: string, memo: string,
                now: real)
    : Change
    requires id in m.channels ==> id in m.log
  {
    if id !in m.channels then Refused(m, UnknownChannel)
    else
      var ch := m.channels[id];
      var total := ch.paid + increment;
      if !ch.IsActive(now) then Refused(m, NotActive)
      else if ch.sender != wallet.address then Refused(m, NotSender)
      else if increment <= 0 then Refused(m, NonPositiveIncrement)
      else if total > ch.deposited then Refused(m, ExceedsDeposit)
      else
        var r := SignedReceipt(sigs, ch, wallet, total, rid, memo);
        Change(m.(channels := m.channels[id := ch.(nonce := ch.nonce + 1, paid := total)],
                  latest := m.latest[id := r],
                  log := m.log[id := m.log[id] + [r]]), None, Some(r))
  }

  /** A receipt for an unknown channel is countersigned and not recorded. */
  function Receive(sigs: Signatures, m: Manager, r: Receipt, wallet: Wallet, publicKey: string): Change
    requires r.channelId in m.channels ==> r.channelId in m.log
  {
    var id := r.channelId;
    if id !in m.channels then
      (if VerifySender(sigs, r, publicKey) then Change(m, None, Some(Acked(sigs, r, wallet)))
       else Refused(m, BadSignature))
    else
      var ch := m.channels[id];
      if r.nonce <= (if id in m.acked then m.acked[id] else 0) then Refused(m, Stale)
      else if !VerifySender(sigs, r, publicKey) then Refused(m, BadSignature)
      else if r.amount > ch.deposited then Refused(m, ExceedsDeposit)
      else if r.sender != ch.sender then Refused(m, SenderMismatch)
      else if wallet.address != ch.receiver then Refused(m, NotReceiver)
      else
        var acked := Acked(sigs, r, wallet);
        Change(m.(acked := m.acked[id := r.nonce],
                  channels := m.channels[id := ch.(nonce := Max(ch.nonce, r.nonce), paid := r.amount)],
                  latest := m.latest[id := acked],
                  log := m.log[id := m.log[id] + [acked]]), None, Some(acked))
  }

  function Close(m: Manager, id: string, wallet: Wallet, now: real): Change
  {
    if id !in m.channels then Refused(m, UnknownChannel)
    else
      var ch := m.channels[id];
      if ch.state != Open then Refused(m, NotOpen)
      else if wallet.address != ch.sender && wallet.address != ch.receiver then Refused(m, NotAParty)
      else Change(m.(channels := m.channels[id := ch.(state := Closing, closedAt := now)]), None, None)
  }

  function Settle(m: Manager, id: string, wallet: Wallet, now: real): Change
  {
    if id !in m.channels then Refused(m, UnknownChannel)
    else
      var ch := m.channels[id];
      if ch.state != Closing && ch.state != Open then Refused(m, NotOpen)
      else if wallet.address != ch.sender then Refused(m, NotSender)
      else Change(m.(channels := m.channels[id := ch.(state := Closed, closedAt := now)]), None, None)
  }

  // ---------------------------------------------------------------- any call

  datatype Op =
    | DoOpen(id: string, wallet: Wallet, receiver: string, deposit: int, ttl: real, now: real)
    | DoInstall(channel: PaymentChannel)
    | DoSend(id: string, increment: int, wallet: Wallet, rid: string, memo: string, now: real)
    | DoReceive(receipt: Receipt, wallet: Wallet, publicKey: string)
    | DoClose(id: string, wallet: Wallet, now: real)
    | DoSettle(id: string, wallet: Wallet, now: real)

  ghost function Apply(sigs: Signatures, m: Manager, op: Op): Change
    requires Valid(m)
  {
    match op
    case DoOpen(id, wallet, receiver, deposit, ttl, now) => OpenChannel(m, id, wallet, receiver, deposit, ttl, now)
    case DoInstall(channel) => Change(Install(m, channel), None, None)
    case DoSend(id, increment, wallet, rid, memo, now) => Send(sigs, m, id, increment, wallet, rid, memo, now)
    case DoReceive(receipt, wallet, publicKey) => Receive(sigs, m, receipt, wallet, publicKey)
    case DoClose(id, wallet, now) => Close(m, id, wallet, now)
    case DoSettle(id, wallet, now) => Settle(m, id, wallet, now)
  }

  lemma {:induction false} ApplyKeepsValid(sigs: Signatures, m: Manager, op: Op)
    requires Valid(m)
    ensures Valid(Apply(sigs, m, op).after)
  {}
}

/** The mutable manager of one party: four dictionaries updated in place. */
module ChannelObject {
  import opened Numbers
  import opened Wrappers
  import opened Receipts
  import opened Channels

  class ChannelManager {
    const sigs: Signatures
    var channels: map<string, PaymentChannel>
    var latestReceipt: map<string, Receipt>
    var receiptLog: map<string, seq<Receipt>>
    var receivedNonces: map<string, int>

    constructor (sigs: Signatures)
      ensures Value() == NEW_MANAGER && this.sigs == sigs
    {
      this.sigs := sigs;
      channels, latestReceipt, receiptLog, receivedNonces := map[], map[], map[], map[];
    }

    ghost function Value(): Manager
      reads this
    {
      Manager(channels, latestReceipt, receiptLog, receivedNonces)
    }

    method OpenChannel(id: string, wallet: Wallet, receiver: string, deposit: int, ttl: real, now: real)
      returns (refusal: Option<Refusal>)
      modifies this
      ensures Change(Value(), refusal, None)
           == Channels.OpenChannel(old(Value()), id, wallet, receiver, deposit, ttl, now)
    {
      if deposit <= 0 { return Some(NonPositiveDeposit); }
      Register(NewChannel(id, wallet.address, receiver, deposit, ttl, now));
      return None;
    }

    method Register(channel: PaymentChannel)
      modifies this
      ensures Value() == Install(old(Value()), channel)
    {
      channels := channels[channel.channelId := channel];
      receiptLog := receiptLog[channel.channelId := []];
      receivedNonces := receivedNonces[channel.channelId := 0];
    }

    method SendPayment(id: string, increment: int, wallet: Wallet, rid: string, memo: string, now: real)
      returns (refusal: Option<Refusal>, receipt: Option<Receipt>)
      requires id in channels ==> id in receiptLog
      modifies this
      ensures Change(Value(), refusal, receipt) == Send(sigs, old(Value()), id, increment, wallet, rid, memo, now)
    {
      receipt := None;
      if id !in channels { return Some(UnknownChannel), None; }
      var ch := channels[id];
      if !ch.IsActive(now) { return Some(NotActive), None; }
      if ch.sender != wallet.address { return Some(NotSender), None; }
      if increment <= 0 { return Some(NonPositiveIncrement), None; }
      var total := ch.paid + increment;
      if total > ch.deposited { return Some(ExceedsDeposit), None; }
      var nonce := ch.nonce + 1;
      var r := Receipt(rid, ch.channelId, nonce, total, ch.sender, ch.receiver, "", "", memo);
      r := r.(senderSig := sigs.sign(wallet, BytesOf(r)));
      channels := channels[id := ch.(nonce := nonce, paid := total)];
      latestReceipt := latestReceipt[id := r];
      receiptLog := receiptLog[id := receiptLog[id] + [r]];
      return None, Some(r);
    }

    method ReceivePayment(receipt: Receipt, wallet: Wallet, publicKey: string)
      returns (refusal: Option<Refusal>, acked: Option<Receipt>)
      requires receipt.channelId in channels ==> receipt.channelId in receiptLog
      modifies this
      ensures Change(Value(), refusal, acked) == Receive(sigs, old(Value()), receipt, wallet, publicKey)
    {
      acked := None;
      var id := receipt.channelId;
      if id !in channels {
        if !VerifySender(sigs, receipt, publicKey) { return Some(BadSignature), None; }
        return None, Some(receipt.(ackSig := sigs.sign(wallet, BytesOf(receipt))));
      }
      var ch := channels[id];
      var last := if id in receivedNonces then receivedNonces[id] else 0;
      if receipt.nonce <= last { return Some(Stale), None; }
      if !VerifySender(sigs, receipt, publicKey) { return Some(BadSignature), None; }
      if receipt.amount > ch.deposited { return Some(ExceedsDeposit), None; }
      if receipt.sender != ch.sender { return Some(SenderMismatch), None; }
      if wallet.address != ch.receiver { return Some(NotReceiver), None; }
      var r := receipt.(ackSig := sigs.sign(wallet, BytesOf(receipt)));
      receivedNonces := receivedNonces[id := receipt.nonce];
      channels := channels[id := ch.(nonce := Max(ch.nonce, receipt.nonce), paid := receipt.amount)];
      latestReceipt := latestReceipt[id := r];
      receiptLog := receiptLog[id := receiptLog[id] + [r]];
      return None, Some(r);
    }

    method CloseChannel(id: string, wallet: Wallet, now: real) returns (refusal: Option<Refusal>)
      modifies this
      ensures Change(Value(), refusal, None) == Close(old(Value()), id, wallet, now)
    {
      if id !in channels { return Some(UnknownChannel); }
      var ch := channels[id];
      if ch.state != Open { return Some(NotOpen); }
      if wallet.address != ch.sender && wallet.address != ch.receiver { return Some(NotAParty); }
      channels := channels[id := ch.(state := Closing, closedAt := now)];
      return None;
    }

    method SettleChannel(id: string, wallet: Wallet, now: real) returns (refusal: Option<Refusal>)
      modifies this
      ensures Change(Value(), refusal, None) == Settle(old(Value()), id, wallet, now)
    {
      if id !in channels { return Some(UnknownChannel); }
      var ch := channels[id];
      if ch.state != Closing && ch.state != Open { return Some(NotOpen); }
      if wallet.address != ch.sender { return Some(NotSender); }
      channels := channels[id := ch.(state := Closed, closedAt := now)];
      return None;
    }
  }
}

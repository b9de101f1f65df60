/** Whose signature stands behind what is on the chain. */
module Authenticity {
  import opened Wrappers
  import opened Transactions
  import opened Blocks
  import opened Ledger
  import opened ChainValidity

  /** The signature was made over the message with a key of that address. */
  predicate SignedBy(c: Crypto, address: string, key: string, message: Message, signature: string)
  {
    signature != "" && key != "" && c.deriveAddress(key) == Some(address) && c.verify(key, message, signature)
  }

  /** A payment is signed by its sender, over its id, both addresses, amount, fee and time. */
  predicate Authorised(c: Crypto, tx: Transaction)
  {
    SignedBy(c, tx.fromAddress, tx.publicKey,
             TxMessage(TxContent(tx.txId, tx.fromAddress, tx.toAddress, tx.amount, tx.fee, tx.timestamp)), tx.signature)
  }

  /** A bandwidth proof is signed by its relay, over relay, client, bytes and time. */
  predicate Attested(c: Crypto, p: BandwidthProof)
  {
    SignedBy(c, p.relayAddress, p.relayPublicKey,
             BandwidthMessage(p.relayAddress, p.clientId, p.bytesForwarded, p.timestamp), p.relaySignature)
  }

  /** A storage proof is signed by its node, over everything but the reward. */
  predicate Stored(c: Crypto, p: StorageProofRecord)
  {
    SignedBy(c, p.nodeAddress, p.nodePublicKey,
             StorageMessage(p.proofId, p.nodeAddress, p.chunkId, p.bytesStored, p.durationSeconds, p.timestamp),
             p.nodeSignature)
  }

  ghost predicate AuthenticBlock(c: Crypto, b: Block)
  {
    && (forall tx :: tx in b.transactions ==> tx.fromAddress == COINBASE_ADDRESS || Authorised(c, tx))
    && (forall p :: p in b.bandwidthProofs ==> Attested(c, p))
    && (forall p :: p in b.storageProofs ==> Stored(c, p))
  }

  lemma {:induction false} AcceptableIsAuthentic(c: Crypto, chain: seq<Block>, spent: set<string>, b: Block)
    requires chain != [] && Acceptable(c, chain, spent, b)
    ensures AuthenticBlock(c, b)
  {
    forall tx | tx in b.transactions && tx.fromAddress != COINBASE_ADDRESS ensures Authorised(c, tx) {
      assert VerifyTx(c, tx);
    }
    forall p | p in b.bandwidthProofs ensures Attested(c, p) { assert VerifyBandwidth(c, p); }
    forall p | p in b.storageProofs ensures Stored(c, p) { assert VerifyStorage(c, p); }
  }

  /** Without replace_chain, whatever the chain of a run takes from an address was signed with a key of
      that address, and whatever was forwarded or stored was signed by the node that claims it. */
  lemma {:induction false} RunIsAuthentic(c: Crypto, events: seq<Event>, i: nat)
    requires NoReplacement(events) && i < |Run(c, events).chain|
    ensures AuthenticBlock(c, Run(c, events).chain[i])
  {
    if events != [] {
      var s, e := Run(c, events[..|events| - 1]), Last(events);
      StepLength(c, s, e);
      var candidate := CandidateBlock(c, s, e);
      if i < |s.chain| {
        RunIsAuthentic(c, events[..|events| - 1], i);
      } else {
        AcceptableIsAuthentic(c, s.chain, s.spentReceipts, candidate.value);
      }
    }
  }

  /** And nothing enters the mempool that its sender did not sign. */
  lemma {:induction false} MempoolIsAuthorised(c: Crypto, events: seq<Event>, tx: Transaction)
    requires tx in Run(c, events).mempool && IsUser(tx)
    ensures Authorised(c, tx)
  {
    if events == [] {
    } else {
      var s, e := Run(c, events[..|events| - 1]), Last(events);
      if tx in s.mempool {
        MempoolIsAuthorised(c, events[..|events| - 1], tx);
      } else {
        EntersByAdding(c, s, e, tx);
      }
    }
  }

  lemma {:induction false} EntersByAdding(c: Crypto, s: State, e: Event, tx: Transaction)
    requires s.chain != [] && tx !in s.mempool && tx in Step(c, s, e).mempool
    ensures e.SubmitTransaction? && e.tx == tx && VerifyTx(c, tx)
  {
    var candidate := CandidateBlock(c, s, e);
    if candidate.Some? {
      var ids := Elements(TxIds(candidate.value.transactions));
      Kept(s.mempool, ids);
    }
  }

  lemma {:induction false} Kept(txs: seq<Transaction>, ids: set<string>)
    ensures forall tx :: tx in WithoutTransactions(txs, ids) ==> tx in txs
  {
    if txs != [] {
      Kept(txs[..|txs| - 1], ids);
      assert txs == txs[..|txs| - 1] + [Last(txs)];
    }
  }
}

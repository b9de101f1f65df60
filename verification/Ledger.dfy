/** The ledger as a value and its transitions (border/blockchain/chain.py). */
module Ledger {
  import opened Numbers
  import opened Wrappers
  import opened Maps
  import opened Sequences
  import opened Economics
  import opened Transactions
  import opened Blocks

  datatype State = State(
    chain: seq<Block>,
    mempool: seq<Transaction>,
    pendingProofs: seq<BandwidthProof>,
    pendingCompute: seq<ComputeProofRecord>,
    pendingStorage: seq<StorageProofRecord>,
    spentReceipts: set<string>,
    spentCompute: set<string>,
    spentStorage: set<string>,
    reserved: map<string, int>,
    balances: map<string, int>)

  function Last<T>(xs: seq<T>): T
    requires xs != []
  {
    xs[|xs| - 1]
  }

  /** The hash of the block at an index, if there is one. */
  function HashAt(chain: seq<Block>, index: int): Option<string>
  {
    if 0 <= index < |chain| then Some(chain[index].blockHash) else None
  }

  // ---------------------------------------------------------------- difficulty

  /** The difficulty of the block that would follow this chain. */
  function ComputeNextDifficulty(chain: seq<Block>): int
    requires chain != []
  {
    var next := |chain|;
    if next % ADJUSTMENT_INTERVAL != 0 then Last(chain).difficulty
    else NextDifficulty(Last(chain).difficulty, chain[next - ADJUSTMENT_INTERVAL].timestamp, Last(chain).timestamp)
  }

  // ---------------------------------------------------------------- validation

  datatype Reason =
    | WrongIndex | PreviousHashMismatch | DifficultyMismatch | HashInvalid | InsufficientBandwidth
    | DoubleSpend(receiptId: string) | BandwidthSignature(receiptId: string)
    | StorageSignature(proofId: string) | InvalidTx(txId: string)

  datatype Verdict = Valid | Invalid(reason: Reason)

  function CheckBandwidth(c: Crypto, spent: set<string>, ps: seq<BandwidthProof>): Verdict
  {
    if ps == [] then Valid
    else
      var before := CheckBandwidth(c, spent, ps[..|ps| - 1]);
      var p := Last(ps);
      if before.Invalid? then before
      else if p.receiptId in spent then Invalid(DoubleSpend(p.receiptId))
      else if !VerifyBandwidth(c, p) then Invalid(BandwidthSignature(p.receiptId))
      else Valid
  }

  function CheckStorage(c: Crypto, ps: seq<StorageProofRecord>): Verdict
  {
    if ps == [] then Valid
    else
      var before := CheckStorage(c, ps[..|ps| - 1]);
      if before.Invalid? then before
      else if !VerifyStorage(c, Last(ps)) then Invalid(StorageSignature(Last(ps).proofId))
      else Valid
  }

  function CheckTransactions(c: Crypto, txs: seq<Transaction>): Verdict
  {
    if txs == [] then Valid
    else
      var before := CheckTransactions(c, txs[..|txs| - 1]);
      if before.Invalid? then before
      else if IsUser(Last(txs)) && !VerifyTx(c, Last(txs)) then Invalid(InvalidTx(Last(txs).txId))
      else Valid
  }

  /** _validate_block: the first check that fails gives the reason. */
  function ValidateBlock(c: Crypto, chain: seq<Block>, spent: set<string>, b: Block): Verdict
    requires chain != []
  {
    if b.index != |chain| then Invalid(WrongIndex)
    else if b.previousHash != Last(chain).blockHash then Invalid(PreviousHashMismatch)
    else if b.difficulty != ComputeNextDifficulty(chain) then Invalid(DifficultyMismatch)
    else if ComputeHash(c, b) != b.blockHash then Invalid(HashInvalid)
    else if TotalBytes(b.bandwidthProofs) < b.difficulty then Invalid(InsufficientBandwidth)
    else
      var bandwidth := CheckBandwidth(c, spent, b.bandwidthProofs);
      if bandwidth.Invalid? then bandwidth
      else
        var storage := CheckStorage(c, b.storageProofs);
        if storage.Invalid? then storage else CheckTransactions(c, b.transactions)
  }

  /** The block continues this chain and spends none of its receipts. */
  ghost predicate Fits(chain: seq<Block>, spent: set<string>, b: Block)
    requires chain != []
  {
    && b.index == |chain|
    && b.previousHash == Last(chain).blockHash
    && b.difficulty == ComputeNextDifficulty(chain)
    && (forall p :: p in b.bandwidthProofs ==> p.receiptId !in spent)
  }

  /** The block is in order by itself: sealed, paid for, and with valid signatures. */
  ghost predicate Sound(c: Crypto, b: Block)
  {
    && b.blockHash == ComputeHash(c, b)
    && TotalBytes(b.bandwidthProofs) >= b.difficulty
    && (forall p :: p in b.bandwidthProofs ==> VerifyBandwidth(c, p))
    && (forall p :: p in b.storageProofs ==> VerifyStorage(c, p))
    && (forall tx :: tx in b.transactions && IsUser(tx) ==> VerifyTx(c, tx))
  }

  /** What acceptance of a block means, without an order of checks. */
  ghost predicate Acceptable(c: Crypto, chain: seq<Block>, spent: set<string>, b: Block)
    requires chain != []
  {
    Fits(chain, spent, b) && Sound(c, b)
  }

  lemma {:induction false} CheckBandwidthMeaning(c: Crypto, spent: set<string>, ps: seq<BandwidthProof>)
    ensures CheckBandwidth(c, spent, ps).Valid? <==>
            forall p :: p in ps ==> p.receiptId !in spent && VerifyBandwidth(c, p)
  {
    if ps != [] {
      CheckBandwidthMeaning(c, spent, ps[..|ps| - 1]);
      assert ps == ps[..|ps| - 1] + [Last(ps)];
    }
  }

  lemma {:induction false} CheckStorageMeaning(c: Crypto, ps: seq<StorageProofRecord>)
    ensures CheckStorage(c, ps).Valid? <==> forall p :: p in ps ==> VerifyStorage(c, p)
  {
    if ps != [] {
      CheckStorageMeaning(c, ps[..|ps| - 1]);
      AllButLast(ps, (p: StorageProofRecord) => VerifyStorage(c, p));
    }
  }

  lemma {:induction false} CheckTransactionsMeaning(c: Crypto, txs: seq<Transaction>)
    ensures CheckTransactions(c, txs).Valid? <==> forall tx :: tx in txs && IsUser(tx) ==> VerifyTx(c, tx)
  {
    if txs != [] {
      CheckTransactionsMeaning(c, txs[..|txs| - 1]);
      assert txs == txs[..|txs| - 1] + [Last(txs)];
    }
  }

  /** The validator accepts exactly the acceptable blocks. */
  lemma {:induction false} ValidateBlockMeaning(c: Crypto, chain: seq<Block>, spent: set<string>, b: Block)
    requires chain != []
    ensures ValidateBlock(c, chain, spent, b).Valid? <==> Acceptable(c, chain, spent, b)
  {
    CheckBandwidthMeaning(c, spent, b.bandwidthProofs);
    CheckStorageMeaning(c, b.storageProofs);
    CheckTransactionsMeaning(c, b.transactions);
  }

  // ---------------------------------------------------------------- full validation

  /** One round of validate_chain, which recomputes the difficulty on its own. */
  predicate LinkValid(c: Crypto, chain: seq<Block>, i: nat)
    requires 0 < i < |chain|
  {
    var b, prev := chain[i], chain[i - 1];
    && b.previousHash == prev.blockHash
    && ComputeHash(c, b) == b.blockHash
    && TotalBytes(b.bandwidthProofs) >= b.difficulty
    && b.difficulty == (if i % ADJUSTMENT_INTERVAL == 0
                        then NextDifficulty(prev.difficulty, chain[i - ADJUSTMENT_INTERVAL].timestamp, prev.timestamp)
                        else prev.difficulty)
  }

  /** validate_chain */
  predicate ValidChain(c: Crypto, chain: seq<Block>)
  {
    forall i :: 0 < i < |chain| ==> LinkValid(c, chain, i)
  }

  // ---------------------------------------------------------------- balances

  /** _apply_tx_to_cache with sign +1 or -1. */
  function ApplyTx(m: map<string, int>, tx: Transaction, sign: int): map<string, int>
  {
    var m1 := if tx.toAddress != "" then m[tx.toAddress := Lookup(m, tx.toAddress) + sign * tx.amount] else m;
    if tx.fromAddress != "" && tx.fromAddress != COINBASE_ADDRESS
    then m1[tx.fromAddress := Lookup(m1, tx.fromAddress) - sign * (tx.amount + tx.fee)]
    else m1
  }

  function ApplyTxs(m: map<string, int>, txs: seq<Transaction>): map<string, int>
  {
    if txs == [] then m else ApplyTx(ApplyTxs(m, txs[..|txs| - 1]), Last(txs), 1)
  }

  /** _rebuild_balance_cache: the balances by a fold over the whole chain. */
  function BalancesOf(chain: seq<Block>): map<string, int>
  {
    if chain == [] then map[] else ApplyTxs(BalancesOf(chain[..|chain| - 1]), Last(chain).transactions)
  }

  function ReceiptsOf(chain: seq<Block>): set<string>
  {
    if chain == [] then {}
    else ReceiptsOf(chain[..|chain| - 1]) + Elements(ReceiptIds(Last(chain).bandwidthProofs))
  }

  function ComputesOf(chain: seq<Block>): set<string>
  {
    if chain == [] then {}
    else ComputesOf(chain[..|chain| - 1]) + Elements(ComputeIds(Last(chain).computeProofs))
  }

  function StoragesOf(chain: seq<Block>): set<string>
  {
    if chain == [] then {}
    else StoragesOf(chain[..|chain| - 1]) + Elements(StorageIds(Last(chain).storageProofs))
  }

  // ---------------------------------------------------------------- transitions

  function Initial(c: Crypto): State
  {
    State([Genesis(c)], [], [], [], [], {}, {}, {}, map[], BalancesOf([Genesis(c)]))
  }

  /** Releases the reservation of one confirmed transaction. */
  function ReleaseOne(reserved: map<string, int>, tx: Transaction): map<string, int>
  {
    if tx.fromAddress !in reserved then reserved
    else
      var left := Max(0, reserved[tx.fromAddress] - Cost(tx));
      if left == 0 then reserved - {tx.fromAddress} else reserved[tx.fromAddress := left]
  }

  function Release(reserved: map<string, int>, txs: seq<Transaction>): map<string, int>
  {
    if txs == [] then reserved else ReleaseOne(Release(reserved, txs[..|txs| - 1]), Last(txs))
  }

  function WithoutTransactions(txs: seq<Transaction>, ids: set<string>): seq<Transaction>
  {
    Filter(txs, (tx: Transaction) => tx.txId !in ids)
  }

  function WithoutProofs(ps: seq<BandwidthProof>, ids: set<string>): seq<BandwidthProof>
  {
    Filter(ps, (p: BandwidthProof) => p.receiptId !in ids)
  }

  function WithoutComputes(ps: seq<ComputeProofRecord>, ids: set<string>): seq<ComputeProofRecord>
  {
    Filter(ps, (p: ComputeProofRecord) => p.proofId !in ids)
  }

  function WithoutStorages(ps: seq<StorageProofRecord>, ids: set<string>): seq<StorageProofRecord>
  {
    Filter(ps, (p: StorageProofRecord) => p.proofId !in ids)
  }

  /** _add_block_locked after the block was found valid. */
  function Append(s: State, b: Block): State
  {
    Confirm(MarkSpent(s, b), b).(chain := s.chain + [b])
  }

  /** The proofs of the block are spent and no longer pending. */
  function MarkSpent(s: State, b: Block): State
  {
    var receipts := Elements(ReceiptIds(b.bandwidthProofs));
    var computes := Elements(ComputeIds(b.computeProofs));
    var storages := Elements(StorageIds(b.storageProofs));
    s.(spentReceipts := s.spentReceipts + receipts,
       spentCompute := s.spentCompute + computes,
       spentStorage := s.spentStorage + storages,
       pendingProofs := WithoutProofs(s.pendingProofs, receipts),
       pendingCompute := WithoutComputes(s.pendingCompute, computes),
       pendingStorage := WithoutStorages(s.pendingStorage, storages))
  }

  /** Its transactions leave the mempool, free their reservations and reach the balances. */
  function Confirm(s: State, b: Block): State
  {
    s.(mempool := WithoutTransactions(s.mempool, Elements(TxIds(b.transactions))),
       reserved := Release(s.reserved, b.transactions),
       balances := ApplyTxs(s.balances, b.transactions))
  }

  function AddBlock(c: Crypto, s: State, b: Block): State
    requires s.chain != []
  {
    if ValidateBlock(c, s.chain, s.spentReceipts, b).Valid? then Append(s, b) else s
  }

  predicate ValidateFee(tx: Transaction)
  {
    IsCoinbase(tx) || tx.fee >= MIN_FEE_PER_TX
  }

  /** add_transaction accepts when the unreserved confirmed balance covers the cost. */
  predicate AcceptsTransaction(c: Crypto, s: State, tx: Transaction)
  {
    && VerifyTx(c, tx)
    && ValidateFee(tx)
    && Lookup(s.balances, tx.fromAddress) - Lookup(s.reserved, tx.fromAddress) >= Cost(tx)
  }

  function AddTransaction(c: Crypto, s: State, tx: Transaction): State
  {
    if !AcceptsTransaction(c, s, tx) then s
    else s.(mempool := s.mempool + [tx],
            reserved := s.reserved[tx.fromAddress := Lookup(s.reserved, tx.fromAddress) + Cost(tx)])
  }

  predicate AcceptsProof(s: State, p: BandwidthProof)
  {
    p.receiptId !in s.spentReceipts && p.receiptId !in ReceiptIds(s.pendingProofs)
  }

  function AddProof(s: State, p: BandwidthProof): State
  {
    if AcceptsProof(s, p) then s.(pendingProofs := s.pendingProofs + [p]) else s
  }

  predicate AcceptsComputeProof(s: State, p: ComputeProofRecord, hasStake: bool)
  {
    p.proofId !in s.spentCompute && p.proofId !in ComputeIds(s.pendingCompute) && hasStake
  }

  function AddComputeProof(s: State, p: ComputeProofRecord, hasStake: bool): State
  {
    if AcceptsComputeProof(s, p, hasStake) then s.(pendingCompute := s.pendingCompute + [p]) else s
  }

  predicate AcceptsStorageProof(c: Crypto, s: State, p: StorageProofRecord)
  {
    p.proofId !in s.spentStorage && p.proofId !in StorageIds(s.pendingStorage) && VerifyStorage(c, p)
  }

  function AddStorageProof(c: Crypto, s: State, p: StorageProofRecord): State
  {
    if AcceptsStorageProof(c, s, p) then s.(pendingStorage := s.pendingStorage + [p]) else s
  }

  predicate AcceptsChain(c: Crypto, s: State, newChain: seq<Block>)
  {
    |newChain| > |s.chain| && ValidChain(c, newChain)
  }

  function ReplaceChain(c: Crypto, s: State, newChain: seq<Block>): State
  {
    if !AcceptsChain(c, s, newChain) then s
    else s.(chain := newChain, spentReceipts := ReceiptsOf(newChain), spentCompute := ComputesOf(newChain),
            spentStorage := StoragesOf(newChain), balances := BalancesOf(newChain))
  }

  // ---------------------------------------------------------------- mining

  /** Every coin ever minted on the chain. */
  function Minted(txs: seq<Transaction>): int
  {
    if txs == [] then 0
    else Minted(txs[..|txs| - 1]) + (if IsCoinbase(Last(txs)) then Last(txs).amount else 0)
  }

  function TotalSupply(chain: seq<Block>): int
  {
    if chain == [] then 0 else TotalSupply(chain[..|chain| - 1]) + Minted(Last(chain).transactions)
  }

  predicate Minable(c: Crypto, tx: Transaction)
  {
    VerifyTx(c, tx) && ValidateFee(tx)
  }

  /** create_block: an empty list of proofs or transactions means the pending ones. */
  function CreateBlock(c: Crypto, s: State, miner: string, time: real,
                       proofs: seq<BandwidthProof>, transactions: seq<Transaction>): Option<Block>
    requires s.chain != []
  {
    var difficulty := ComputeNextDifficulty(s.chain);
    var available := if proofs != [] then proofs else s.pendingProofs;
    var validProofs := WithoutProofs(available, s.spentReceipts);
    if TotalBytes(validProofs) < difficulty then None
    else
      var validCompute := WithoutComputes(s.pendingCompute, s.spentCompute);
      var validStorage := WithoutStorages(s.pendingStorage, s.spentStorage);
      var offered := if transactions != [] then transactions else s.mempool;
      var pending := StableSort(Filter(offered, tx => Minable(c, tx)), FeeKey);
      var b := Block(|s.chain|, time, Last(s.chain).blockHash, miner, validProofs, pending, validCompute,
                     validStorage, "", difficulty);
      Some(Finalize(c, b, TotalSupply(s.chain)))
  }

  // ---------------------------------------------------------------- runs

  datatype Event =
    | SubmitTransaction(tx: Transaction)
    | SubmitProof(proof: BandwidthProof)
    | SubmitComputeProof(computeProof: ComputeProofRecord, hasStake: bool)
    | SubmitStorageProof(storageProof: StorageProofRecord)
    | ReceiveBlock(block: Block)
    | ReceiveChain(newChain: seq<Block>)
    | Mine(miner: string, time: real)

  function Step(c: Crypto, s: State, e: Event): State
    requires s.chain != []
  {
    match e
    case SubmitTransaction(tx) => AddTransaction(c, s, tx)
    case SubmitProof(p) => AddProof(s, p)
    case SubmitComputeProof(p, hasStake) => AddComputeProof(s, p, hasStake)
    case SubmitStorageProof(p) => AddStorageProof(c, s, p)
    case ReceiveBlock(b) => AddBlock(c, s, b)
    case ReceiveChain(newChain) => ReplaceChain(c, s, newChain)
    case Mine(miner, time) =>
      match CreateBlock(c, s, miner, time, [], [])
      case None => s
      case Some(b) => AddBlock(c, s, b)
  }

  function Run(c: Crypto, events: seq<Event>): (s: State)
    ensures s.chain != []
  {
    if events == [] then Initial(c) else Step(c, Run(c, events[..|events| - 1]), Last(events))
  }
}

/** The mutable chain object, method by method, against the ledger of Ledger.dfy. */
module ChainObject {
  import opened Numbers
  import opened Wrappers
  import opened Maps
  import opened Sequences
  import opened Economics
  import opened Transactions
  import opened Blocks
  import opened Ledger
  import opened ChainValidity

  class BorderChain {
    const crypto: Crypto
    var chain: seq<Block>
    var mempool: seq<Transaction>
    var pendingProofs: seq<BandwidthProof>
    var pendingCompute: seq<ComputeProofRecord>
    var pendingStorage: seq<StorageProofRecord>
    var spentReceipts: set<string>
    var spentCompute: set<string>
    var spentStorage: set<string>
    var mempoolReserved: map<string, int>
    var balanceCache: map<string, int>

    ghost predicate Valid()
      reads this
    {
      chain != []
    }

    /** The abstract ledger this object stands for. */
    ghost function Value(): State
      reads this
    {
      State(chain, mempool, pendingProofs, pendingCompute, pendingStorage,
            spentReceipts, spentCompute, spentStorage, mempoolReserved, balanceCache)
    }

    constructor (crypto: Crypto)
      ensures Valid() && this.crypto == crypto
      ensures Value() == Initial(crypto)
    {
      this.crypto := crypto;
      chain := [Genesis(crypto)];
      mempool, pendingProofs, pendingCompute, pendingStorage := [], [], [], [];
      spentReceipts, spentCompute, spentStorage := {}, {}, {};
      mempoolReserved := map[];
      balanceCache := map[];
      new;
      RebuildBalanceCache();
    }

    // -------------------------------------------------------------- balance cache

    method ApplyTxToCache(tx: Transaction, sign: int)
      modifies this`balanceCache
      ensures balanceCache == ApplyTx(old(balanceCache), tx, sign)
    {
      if tx.toAddress != "" {
        balanceCache := balanceCache[tx.toAddress := Lookup(balanceCache, tx.toAddress) + sign * tx.amount];
      }
      if tx.fromAddress != "" && tx.fromAddress != COINBASE_ADDRESS {
        balanceCache := balanceCache[tx.fromAddress :=
          Lookup(balanceCache, tx.fromAddress) - sign * (tx.amount + tx.fee)];
      }
    }

    method ApplyAll(txs: seq<Transaction>)
      modifies this`balanceCache
      ensures balanceCache == ApplyTxs(old(balanceCache), txs)
    {
      for i := 0 to |txs|
        invariant balanceCache == ApplyTxs(old(balanceCache), txs[..i])
      {
        assert txs[..i + 1][..i] == txs[..i];
        ApplyTxToCache(txs[i], 1);
      }
      assert txs[..|txs|] == txs;
    }

    method RebuildBalanceCache()
      modifies this`balanceCache
      ensures balanceCache == BalancesOf(chain)
    {
      balanceCache := map[];
      for i := 0 to |chain|
        invariant balanceCache == BalancesOf(chain[..i])
      {
        assert chain[..i + 1][..i] == chain[..i];
        ApplyAll(chain[i].transactions);
      }
      assert chain[..|chain|] == chain;
    }

    method RebuildSpentSet()
      modifies this`spentReceipts, this`spentCompute, this`spentStorage, this`balanceCache
      ensures spentReceipts == ReceiptsOf(chain) && spentCompute == ComputesOf(chain)
      ensures spentStorage == StoragesOf(chain) && balanceCache == BalancesOf(chain)
    {
      spentReceipts, spentCompute, spentStorage := {}, {}, {};
      for i := 0 to |chain|
        invariant spentReceipts == ReceiptsOf(chain[..i]) && spentCompute == ComputesOf(chain[..i])
        invariant spentStorage == StoragesOf(chain[..i])
      {
        assert chain[..i + 1][..i] == chain[..i];
        spentReceipts := spentReceipts + Elements(ReceiptIds(chain[i].bandwidthProofs));
        spentCompute := spentCompute + Elements(ComputeIds(chain[i].computeProofs));
        spentStorage := spentStorage + Elements(StorageIds(chain[i].storageProofs));
      }
      assert chain[..|chain|] == chain;
      RebuildBalanceCache();
    }

    // -------------------------------------------------------------- intake

    method SubmitProof(proof: BandwidthProof) returns (ok: bool)
      modifies this`pendingProofs
      ensures ok <==> AcceptsProof(old(Value()), proof)
      ensures Value() == AddProof(old(Value()), proof)
    {
      if proof.receiptId in spentReceipts { return false; }
      if proof.receiptId in ReceiptIds(pendingProofs) { return false; }
      pendingProofs := pendingProofs + [proof];
      return true;
    }

    method SubmitComputeProof(proof: ComputeProofRecord, hasStake: bool) returns (ok: bool)
      modifies this`pendingCompute
      ensures ok <==> AcceptsComputeProof(old(Value()), proof, hasStake)
      ensures Value() == AddComputeProof(old(Value()), proof, hasStake)
    {
      if proof.proofId in spentCompute { return false; }
      if proof.proofId in ComputeIds(pendingCompute) { return false; }
      if !hasStake { return false; }
      pendingCompute := pendingCompute + [proof];
      return true;
    }

    method SubmitStorageProof(proof: StorageProofRecord) returns (ok: bool)
      modifies this`pendingStorage
      ensures ok <==> AcceptsStorageProof(crypto, old(Value()), proof)
      ensures Value() == AddStorageProof(crypto, old(Value()), proof)
    {
      if proof.proofId in spentStorage { return false; }
      if proof.proofId in StorageIds(pendingStorage) { return false; }
      if !VerifyStorage(crypto, proof) { return false; }
      pendingStorage := pendingStorage + [proof];
      return true;
    }

    method SubmitTransaction(tx: Transaction) returns (ok: bool)
      modifies this`mempool, this`mempoolReserved
      ensures ok <==> AcceptsTransaction(crypto, old(Value()), tx)
      ensures Value() == AddTransaction(crypto, old(Value()), tx)
    {
      if !VerifyTx(crypto, tx) { return false; }
      if !ValidateFee(tx) { return false; }
      var confirmed := Lookup(balanceCache, tx.fromAddress);
      var pendingOut := Lookup(mempoolReserved, tx.fromAddress);
      var available := confirmed - pendingOut;
      if available < tx.amount + tx.fee { return false; }
      mempool := mempool + [tx];
      mempoolReserved := mempoolReserved[tx.fromAddress := pendingOut + (tx.amount + tx.fee)];
      return true;
    }

    // -------------------------------------------------------------- validation

    method Validate(b: Block) returns (v: Verdict)
      requires Valid()
      ensures v == ValidateBlock(crypto, chain, spentReceipts, b)
      ensures v.Valid? <==> Acceptable(crypto, chain, spentReceipts, b)
    {
      ValidateBlockMeaning(crypto, chain, spentReceipts, b);
      if b.index != |chain| { return Invalid(WrongIndex); }
      if b.previousHash != Last(chain).blockHash { return Invalid(PreviousHashMismatch); }
      if b.difficulty != ComputeNextDifficulty(chain) { return Invalid(DifficultyMismatch); }
      if ComputeHash(crypto, b) != b.blockHash { return Invalid(HashInvalid); }
      if TotalBytes(b.bandwidthProofs) < b.difficulty { return Invalid(InsufficientBandwidth); }
      v := ValidateBandwidth(b.bandwidthProofs);
      if v.Valid? { v := ValidateStorage(b.storageProofs); }
      if v.Valid? { v := ValidateTransactions(b.transactions); }
    }

    method ValidateBandwidth(ps: seq<BandwidthProof>) returns (v: Verdict)
      ensures v == CheckBandwidth(crypto, spentReceipts, ps)
    {
      for i := 0 to |ps|
        invariant CheckBandwidth(crypto, spentReceipts, ps[..i]).Valid?
      {
        assert ps[..i + 1][..i] == ps[..i];
        if ps[i].receiptId in spentReceipts {
          BandwidthVerdictStays(ps, i + 1);
          return Invalid(DoubleSpend(ps[i].receiptId));
        }
        if !VerifyBandwidth(crypto, ps[i]) {
          BandwidthVerdictStays(ps, i + 1);
          return Invalid(BandwidthSignature(ps[i].receiptId));
        }
      }
      assert ps[..|ps|] == ps;
      return Verdict.Valid;
    }

    lemma {:induction false} BandwidthVerdictStays(ps: seq<BandwidthProof>, i: nat)
      requires i <= |ps| && CheckBandwidth(crypto, spentReceipts, ps[..i]).Invalid?
      ensures CheckBandwidth(crypto, spentReceipts, ps) == CheckBandwidth(crypto, spentReceipts, ps[..i])
      decreases |ps|
    {
      if i < |ps| {
        assert ps[..|ps| - 1][..i] == ps[..i];
        BandwidthVerdictStays(ps[..|ps| - 1], i);
      } else {
        assert ps[..i] == ps;
      }
    }

    method ValidateStorage(ps: seq<StorageProofRecord>) returns (v: Verdict)
      ensures v == CheckStorage(crypto, ps)
    {
      for i := 0 to |ps|
        invariant CheckStorage(crypto, ps[..i]).Valid?
      {
        assert ps[..i + 1][..i] == ps[..i];
        if !VerifyStorage(crypto, ps[i]) {
          StorageVerdictStays(ps, i + 1);
          return Invalid(StorageSignature(ps[i].proofId));
        }
      }
      assert ps[..|ps|] == ps;
      return Verdict.Valid;
    }

    lemma {:induction false} StorageVerdictStays(ps: seq<StorageProofRecord>, i: nat)
      requires i <= |ps| && CheckStorage(crypto, ps[..i]).Invalid?
      ensures CheckStorage(crypto, ps) == CheckStorage(crypto, ps[..i])
      decreases |ps|
    {
      if i < |ps| {
        assert ps[..|ps| - 1][..i] == ps[..i];
        StorageVerdictStays(ps[..|ps| - 1], i);
      } else {
        assert ps[..i] == ps;
      }
    }

    method ValidateTransactions(txs: seq<Transaction>) returns (v: Verdict)
      ensures v == CheckTransactions(crypto, txs)
    {
      for i := 0 to |txs|
        invariant CheckTransactions(crypto, txs[..i]).Valid?
      {
        assert txs[..i + 1][..i] == txs[..i];
        if txs[i].fromAddress == COINBASE_ADDRESS { continue; }
        if !VerifyTx(crypto, txs[i]) {
          TransactionVerdictStays(txs, i + 1);
          return Invalid(InvalidTx(txs[i].txId));
        }
      }
      assert txs[..|txs|] == txs;
      return Verdict.Valid;
    }

    lemma {:induction false} TransactionVerdictStays(txs: seq<Transaction>, i: nat)
      requires i <= |txs| && CheckTransactions(crypto, txs[..i]).Invalid?
      ensures CheckTransactions(crypto, txs) == CheckTransactions(crypto, txs[..i])
      decreases |txs|
    {
      if i < |txs| {
        assert txs[..|txs| - 1][..i] == txs[..i];
        TransactionVerdictStays(txs[..|txs| - 1], i);
      } else {
        assert txs[..i] == txs;
      }
    }

    /** validate_chain, on the chain it is given. */
    method ValidateChain(candidate: seq<Block>) returns (ok: bool)
      ensures ok <==> ValidChain(crypto, candidate)
    {
      var i := 1;
      while i < |candidate|
        invariant 1 <= i
        invariant forall k :: 0 < k < i && k < |candidate| ==> LinkValid(crypto, candidate, k)
      {
        var block, prev := candidate[i], candidate[i - 1];
        if block.previousHash != prev.blockHash || ComputeHash(crypto, block) != block.blockHash
           || TotalBytes(block.bandwidthProofs) < block.difficulty {
          assert !LinkValid(crypto, candidate, i);
          return false;
        }
        var expected := prev.difficulty;
        if i % ADJUSTMENT_INTERVAL == 0 {
          expected := NextDifficulty(prev.difficulty, candidate[i - ADJUSTMENT_INTERVAL].timestamp, prev.timestamp);
        }
        if block.difficulty != expected {
          assert !LinkValid(crypto, candidate, i);
          return false;
        }
        assert LinkValid(crypto, candidate, i);
        i := i + 1;
      }
      return true;
    }

    // -------------------------------------------------------------- block production and intake

    method Create(miner: string, time: real, proofs: seq<BandwidthProof>, transactions: seq<Transaction>)
      returns (created: Option<Block>)
      requires Valid()
      ensures created == CreateBlock(crypto, Value(), miner, time, proofs, transactions)
    {
      var c := crypto;
      var nextDifficulty := ComputeNextDifficulty(chain);
      var available := if proofs != [] then proofs else pendingProofs;
      var validProofs := WithoutProofs(available, spentReceipts);
      if TotalBytes(validProofs) < nextDifficulty { return None; }
      var validCompute := WithoutComputes(pendingCompute, spentCompute);
      var validStorage := WithoutStorages(pendingStorage, spentStorage);
      var offered := if transactions != [] then transactions else mempool;
      var pending := StableSort(Filter(offered, tx => Minable(c, tx)), FeeKey);
      var block := Block(|chain|, time, Last(chain).blockHash, miner, validProofs, pending, validCompute,
                         validStorage, "", nextDifficulty);
      return Some(Finalize(crypto, block, TotalSupply(chain)));
    }

    method ReleaseReservations(txs: seq<Transaction>)
      modifies this`mempoolReserved
      ensures mempoolReserved == Release(old(mempoolReserved), txs)
    {
      for i := 0 to |txs|
        invariant mempoolReserved == Release(old(mempoolReserved), txs[..i])
      {
        assert txs[..i + 1][..i] == txs[..i];
        var tx := txs[i];
        if tx.fromAddress in mempoolReserved {
          mempoolReserved := mempoolReserved[tx.fromAddress :=
            Max(0, mempoolReserved[tx.fromAddress] - (tx.amount + tx.fee))];
          if mempoolReserved[tx.fromAddress] == 0 {
            mempoolReserved := mempoolReserved - {tx.fromAddress};
          }
        }
        assert mempoolReserved == Release(old(mempoolReserved), txs[..i + 1]);
      }
      assert txs[..|txs|] == txs;
    }

    method Spend(b: Block)
      modifies this
      ensures Value() == MarkSpent(old(Value()), b)
    {
      var receipts := Elements(ReceiptIds(b.bandwidthProofs));
      var computes := Elements(ComputeIds(b.computeProofs));
      var storages := Elements(StorageIds(b.storageProofs));
      spentReceipts := spentReceipts + receipts;
      spentCompute := spentCompute + computes;
      spentStorage := spentStorage + storages;
      pendingProofs := WithoutProofs(pendingProofs, receipts);
      pendingCompute := WithoutComputes(pendingCompute, computes);
      pendingStorage := WithoutStorages(pendingStorage, storages);
    }

    method ConfirmTransactions(b: Block)
      modifies this
      ensures Value() == Confirm(old(Value()), b)
    {
      ReleaseReservations(b.transactions);
      mempool := WithoutTransactions(mempool, Elements(TxIds(b.transactions)));
      ApplyAll(b.transactions);
    }

    method Add(b: Block) returns (v: Verdict)
      requires Valid()
      modifies this
      ensures Valid()
      ensures v == ValidateBlock(crypto, old(chain), old(spentReceipts), b)
      ensures Value() == AddBlock(crypto, old(Value()), b)
      ensures old(ValidChain(crypto, chain)) ==> ValidChain(crypto, chain)
    {
      v := Validate(b);
      if v.Valid? {
        if ValidChain(crypto, chain) { AppendKeepsChainValid(crypto, chain, spentReceipts, b); }
        Spend(b);
        ConfirmTransactions(b);
        chain := chain + [b];
      }
    }

    method Replace(newChain: seq<Block>) returns (ok: bool)
      requires Valid()
      modifies this
      ensures Valid()
      ensures ok <==> AcceptsChain(crypto, old(Value()), newChain)
      ensures old(ValidChain(crypto, chain)) ==> ValidChain(crypto, chain)
      ensures Value() == ReplaceChain(crypto, old(Value()), newChain)
    {
      if |newChain| <= |chain| { return false; }
      ok := ValidateChain(newChain);
      if ok {
        chain := newChain;
        RebuildSpentSet();
      }
    }

    // -------------------------------------------------------------- queries

    function BlockHashAt(index: int): Option<string>
      reads this
    {
      HashAt(chain, index)
    }
  }
}

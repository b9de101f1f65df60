/** No overdraft: the mempool never promises more than the confirmed balances hold. */
module Solvency {
  import opened Wrappers
  import opened Maps
  import opened Sequences
  import opened Economics
  import opened Transactions
  import opened Blocks
  import opened Ledger
  import opened ChainValidity
  import opened Mining

  /** What the transactions in a list take from an address. */
  function Spending(txs: seq<Transaction>, address: string): int
  {
    SumOf(txs, (tx: Transaction) => if tx.fromAddress == address then Cost(tx) else 0)
  }

  ghost predicate Solvent(s: State)
  {
    && (forall a :: Lookup(s.balances, a) >= Lookup(s.reserved, a) >= Spending(s.mempool, a) >= 0)
    && (forall tx :: tx in s.mempool ==> tx.amount >= 0 && tx.fee >= MIN_FEE_PER_TX && IsUser(tx))
    && COINBASE_ADDRESS !in s.reserved
  }

  // ---------------------------------------------------------------- add_transaction

  lemma {:induction false} AddTransactionKeepsSolvent(c: Crypto, s: State, tx: Transaction)
    requires Solvent(s) && tx.amount >= 0 && IsUser(tx)
    ensures Solvent(AddTransaction(c, s, tx))
  {}

  // ---------------------------------------------------------------- add_block

  ghost predicate AmountsNonNegative(txs: seq<Transaction>)
  {
    forall tx :: tx in txs ==> tx.amount >= 0
  }

  /** The block only spends from this node's mempool, each copy once. */
  ghost predicate SpendsMempool(s: State, b: Block)
  {
    multiset(Filter(b.transactions, IsUser)) <= multiset(s.mempool)
  }

  lemma {:induction false} SpendingOfUsers(txs: seq<Transaction>, a: string)
    requires a != COINBASE_ADDRESS
    ensures Spending(txs, a) == Spending(Filter(txs, IsUser), a)
  {
    if txs != [] {
      SpendingOfUsers(txs[..|txs| - 1], a);
      var users := Filter(txs[..|txs| - 1], IsUser);
      assert (users + [Last(txs)])[..|users|] == users;
    }
  }

  /** Releasing confirmed transactions returns exactly their cost, while the reservation covers it. */
  lemma {:induction false} ReleaseExact(reserved: map<string, int>, txs: seq<Transaction>, a: string)
    requires a == COINBASE_ADDRESS ==> a !in reserved
    requires a != COINBASE_ADDRESS ==> forall tx :: tx in txs && tx.fromAddress == a ==> Cost(tx) >= 0
    requires a != COINBASE_ADDRESS ==> Lookup(reserved, a) >= Spending(txs, a)
    ensures a == COINBASE_ADDRESS ==> a !in Release(reserved, txs)
    ensures a != COINBASE_ADDRESS ==> Lookup(Release(reserved, txs), a) == Lookup(reserved, a) - Spending(txs, a)
  {
    if txs != [] {
      assert Last(txs) in txs;
      ReleaseExact(reserved, txs[..|txs| - 1], a);
    }
  }

  /** What is released to nothing leaves no entry behind, and nothing else is touched. */
  lemma {:induction false} ReleaseDropsEmpty(reserved: map<string, int>, txs: seq<Transaction>, a: string)
    ensures a in Release(reserved, txs) ==> a in reserved
    ensures a in Release(reserved, txs) && (exists tx :: tx in txs && tx.fromAddress == a) ==>
      Release(reserved, txs)[a] > 0
    ensures (forall tx :: tx in txs ==> tx.fromAddress != a) ==>
      (a in Release(reserved, txs) <==> a in reserved) && Lookup(Release(reserved, txs), a) == Lookup(reserved, a)
  {
    if txs != [] {
      var init := txs[..|txs| - 1];
      assert txs == init + [Last(txs)];
      ReleaseDropsEmpty(reserved, init, a);
    }
  }

  lemma {:induction false} ApplyLowerBound(m: map<string, int>, txs: seq<Transaction>, a: string)
    requires AmountsNonNegative(txs)
    requires a != COINBASE_ADDRESS ==> forall tx :: tx in txs && tx.fromAddress == a ==> Cost(tx) >= 0
    ensures Lookup(ApplyTxs(m, txs), a)
            >= Lookup(m, a) - (if a == COINBASE_ADDRESS then 0 else Spending(txs, a))
  {
    if txs != [] {
      assert Last(txs) in txs;
      ApplyLowerBound(m, txs[..|txs| - 1], a);
    }
  }

  /** The mempool loses at least what the block spent from it. */
  lemma {:induction false} ConfirmedLeaveMempool(s: State, b: Block, a: string)
    requires Solvent(s) && SpendsMempool(s, b)
    ensures Spending(Append(s, b).mempool, a) + Spending(Filter(b.transactions, IsUser), a)
            <= Spending(s.mempool, a)
    ensures Spending(Append(s, b).mempool, a) >= 0
  {
    var kept, users := Append(s, b).mempool, Filter(b.transactions, IsUser);
    var confirmed := Elements(TxIds(b.transactions));
    var f := (tx: Transaction) => if tx.fromAddress == a then Cost(tx) else 0;
    FilterMultiset(s.mempool, (tx: Transaction) => tx.txId !in confirmed);
    FilterMembers(b.transactions, IsUser);
    FilterMembers(s.mempool, (tx: Transaction) => tx.txId !in confirmed);
    forall tx ensures multiset(kept + users)[tx] <= multiset(s.mempool)[tx] {
      if tx in multiset(users) {
        assert tx in b.transactions;
        var i :| 0 <= i < |b.transactions| && b.transactions[i] == tx;
        assert TxIds(b.transactions)[i] == tx.txId;
      }
    }
    SumOfPart(kept + users, s.mempool, f);
    SumOfConcat(kept, users, f);
    SumOfNonNegative(kept, f);
  }

  lemma {:induction false} AppendKeepsSolvent(s: State, b: Block)
    requires Solvent(s) && SpendsMempool(s, b) && AmountsNonNegative(b.transactions)
    ensures Solvent(Append(s, b))
  {
    var s', users := Append(s, b), Filter(b.transactions, IsUser);
    var confirmed := Elements(TxIds(b.transactions));
    FilterMembers(b.transactions, IsUser);
    FilterMembers(s.mempool, (tx: Transaction) => tx.txId !in confirmed);
    forall tx | tx in b.transactions && IsUser(tx) ensures Cost(tx) >= 0 {
      assert tx in multiset(users);
    }
    forall a ensures Lookup(s'.balances, a) >= Lookup(s'.reserved, a) >= Spending(s'.mempool, a) >= 0
             ensures a == COINBASE_ADDRESS ==> a !in s'.reserved
    {
      assert Lookup(s.balances, a) >= Lookup(s.reserved, a) >= Spending(s.mempool, a) >= 0;
      ConfirmedLeaveMempool(s, b, a);
      if a != COINBASE_ADDRESS { SpendingOfUsers(b.transactions, a); }
      ReleaseExact(s.reserved, b.transactions, a);
      ApplyLowerBound(s.balances, b.transactions, a);
      if a == COINBASE_ADDRESS { CoinbaseNeverSpends(s'.mempool); }
    }
  }

  lemma {:induction false} CoinbaseNeverSpends(txs: seq<Transaction>)
    requires forall tx :: tx in txs ==> IsUser(tx)
    ensures Spending(txs, COINBASE_ADDRESS) == 0
  {
    if txs != [] {
      assert Last(txs) in txs;
      CoinbaseNeverSpends(txs[..|txs| - 1]);
    }
  }

  // ---------------------------------------------------------------- whole runs

  /** A mined block takes its user transactions from the mempool. */
  lemma {:induction false} MinedBlockSpendsMempool(c: Crypto, s: State, miner: string, time: real)
    requires s.chain != [] && CreateBlock(c, s, miner, time, [], []).Some?
    ensures SpendsMempool(s, CreateBlock(c, s, miner, time, [], []).value)
  {
    var b := CreateBlock(c, s, miner, time, [], []).value;
    var users, minable := b.transactions[1..], Filter(s.mempool, tx => Minable(c, tx));
    MinedBlockShape(c, s, miner, time, [], []);
    FilterIsPart(s.mempool, tx => Minable(c, tx));
    FilterIsPart(minable, IsUser);
    forall tx | tx in users ensures IsUser(tx) {
      var i :| 0 <= i < |users| && users[i] == tx;
      assert b.transactions[i + 1] == tx;
    }
    FilterAll(users, IsUser);
    FilterConcat([b.transactions[0]], users, IsUser);
    assert b.transactions == [b.transactions[0]] + users;
    assert [b.transactions[0]][..0] == [];
  }

  /** The events of the claim: signed transfers of a non-negative amount by ordinary addresses,
      blocks that spend this node's mempool, and blocks this node mines itself. */
  ghost predicate Fair(c: Crypto, s: State, e: Event)
    requires s.chain != []
  {
    && !e.ReceiveChain?
    && (e.SubmitTransaction? ==> e.tx.amount >= 0 && IsUser(e.tx))
    && (e.ReceiveBlock? ==> SpendsMempool(s, e.block))
    && (CandidateBlock(c, s, e).Some? ==> AmountsNonNegative(CandidateBlock(c, s, e).value.transactions))
  }

  ghost predicate FairRun(c: Crypto, events: seq<Event>)
  {
    forall k :: 0 <= k < |events| ==> Fair(c, Run(c, events[..k]), events[k])
  }

  lemma {:induction false} StepKeepsSolvent(c: Crypto, s: State, e: Event)
    requires s.chain != [] && Solvent(s) && Fair(c, s, e)
    ensures Solvent(Step(c, s, e))
  {
    match e
    case SubmitTransaction(tx) => AddTransactionKeepsSolvent(c, s, tx);
    case ReceiveBlock(b) => AppendKeepsSolvent(s, b);
    case Mine(miner, time) =>
      var created := CreateBlock(c, s, miner, time, [], []);
      if created.Some? {
        MinedBlockSpendsMempool(c, s, miner, time);
        AppendKeepsSolvent(s, created.value);
      }
    case _ =>
  }

  /** In every fair run each address keeps
      confirmed balance >= reserved amount >= cost of its mempool transactions >= 0. */
  lemma {:induction false} NoOverdraft(c: Crypto, events: seq<Event>)
    requires FairRun(c, events)
    ensures Solvent(Run(c, events))
  {
    if events == [] {
      InitialSolvent(c);
    } else {
      var init := events[..|events| - 1];
      forall k | 0 <= k < |init| ensures Fair(c, Run(c, init[..k]), init[k]) {
        assert init[..k] == events[..k];
        assert Fair(c, Run(c, events[..k]), events[k]);
      }
      NoOverdraft(c, init);
      assert Fair(c, Run(c, events[..|events| - 1]), events[|events| - 1]);
      StepKeepsSolvent(c, Run(c, init), Last(events));
    }
  }

  lemma {:induction false} InitialSolvent(c: Crypto)
    ensures Solvent(Initial(c))
  {
    InitialBalances(c);
    forall a ensures Lookup(Initial(c).balances, a) >= 0 {}
  }

  // ---------------------------------------------------------------- fair inputs

  /** The same events judged by what comes in alone: proofs that claim nothing negative instead of a mined
      block that pays nothing negative. */
  ghost predicate FairInput(s: State, e: Event)
  {
    match e
    case SubmitTransaction(tx) => tx.amount >= 0 && IsUser(tx)
    case SubmitProof(p) => p.bytesForwarded >= 0
    case SubmitComputeProof(p, _) => p.price >= 0
    case SubmitStorageProof(p) => p.reward >= 0
    case ReceiveBlock(b) => SpendsMempool(s, b) && AmountsNonNegative(b.transactions)
    case ReceiveChain(_) => false
    case Mine(_, _) => true
  }

  ghost predicate FairInputs(c: Crypto, events: seq<Event>)
  {
    forall k :: 0 <= k < |events| ==> FairInput(Run(c, events[..k]), events[k])
  }

  ghost predicate PoolsPay(s: State)
  {
    && (forall p :: p in s.pendingProofs ==> p.bytesForwarded >= 0)
    && (forall p :: p in s.pendingCompute ==> p.price >= 0)
    && (forall p :: p in s.pendingStorage ==> p.reward >= 0)
  }

  lemma {:induction false} BandwidthPays(ps: seq<BandwidthProof>)
    requires forall p :: p in ps ==> p.bytesForwarded >= 0
    ensures BandwidthTotal(ps) >= 0.0
  {
    if ps != [] {
      assert ps[|ps| - 1] in ps;
      BandwidthPays(ps[..|ps| - 1]);
    }
  }

  lemma {:induction false} ComputePays(ps: seq<ComputeProofRecord>)
    requires forall p :: p in ps ==> p.price >= 0
    ensures ComputeTotal(ps) >= 0
  {
    if ps != [] {
      assert ps[|ps| - 1] in ps;
      ComputePays(ps[..|ps| - 1]);
    }
  }

  lemma {:induction false} StoragePays(ps: seq<StorageProofRecord>)
    requires forall p :: p in ps ==> p.reward >= 0
    ensures StorageTotal(ps) >= 0
  {
    if ps != [] {
      assert ps[|ps| - 1] in ps;
      StoragePays(ps[..|ps| - 1]);
    }
  }

  lemma {:induction false} EligiblePay(c: Crypto, offered: seq<Transaction>)
    ensures FeeTotal(Eligible(c, offered)) >= 0
  {
    FilterMembers(offered, tx => Minable(c, tx));
    FilterMembers(Filter(offered, tx => Minable(c, tx)), IsUser);
    SumOfNonNegative(Eligible(c, offered), UserFee);
  }

  /** The services of a mined block come from the pools. */
  lemma {:induction false} PoolServicesPay(c: Crypto, s: State)
    requires PoolsPay(s)
    ensures EarnedReward(s, [], Eligible(c, s.mempool)) >= 0.0
  {
    FilterMembers(s.pendingProofs, (p: BandwidthProof) => p.receiptId !in s.spentReceipts);
    FilterMembers(s.pendingCompute, (p: ComputeProofRecord) => p.proofId !in s.spentCompute);
    FilterMembers(s.pendingStorage, (p: StorageProofRecord) => p.proofId !in s.spentStorage);
    BandwidthPays(UnspentBandwidth(s, []));
    ComputePays(UnspentCompute(s));
    StoragePays(UnspentStorage(s));
    EligiblePay(c, s.mempool);
  }

  /** So its coinbase, like every other transaction in it, moves a non-negative amount. */
  lemma {:induction false} MinedAmountsNonNegative(c: Crypto, s: State, miner: string, time: real)
    requires s.chain != [] && Solvent(s) && PoolsPay(s) && CreateBlock(c, s, miner, time, [], []).Some?
    ensures AmountsNonNegative(CreateBlock(c, s, miner, time, [], []).value.transactions)
  {
    var b := CreateBlock(c, s, miner, time, [], []).value;
    PoolServicesPay(c, s);
    MinedBlockShape(c, s, miner, time, [], []);
    MinedBlockSpendsMempool(c, s, miner, time);
    FilterMembers(b.transactions, IsUser);
    PayableNonNegative(EarnedReward(s, [], Eligible(c, s.mempool)), SupplyHeadroom(TotalSupply(s.chain)));
    forall tx | tx in b.transactions ensures tx.amount >= 0 {
      var i :| 0 <= i < |b.transactions| && b.transactions[i] == tx;
      if i > 0 {
        assert b.transactions[1..][i - 1] == tx;
        assert tx in multiset(Filter(b.transactions, IsUser));
      }
    }
  }

  lemma {:induction false} PayableNonNegative(earned: real, headroom: int)
    requires earned >= 0.0 && headroom >= 0
    ensures Payable(earned, headroom) >= 0
  {}

  lemma {:induction false} StepKeepsPoolsPay(c: Crypto, s: State, e: Event)
    requires s.chain != [] && PoolsPay(s) && FairInput(s, e)
    ensures PoolsPay(Step(c, s, e))
  {
    var candidate := CandidateBlock(c, s, e);
    if candidate.Some? {
      var b := candidate.value;
      var receipts, computes := Elements(ReceiptIds(b.bandwidthProofs)), Elements(ComputeIds(b.computeProofs));
      var storages := Elements(StorageIds(b.storageProofs));
      FilterMembers(s.pendingProofs, (p: BandwidthProof) => p.receiptId !in receipts);
      FilterMembers(s.pendingCompute, (p: ComputeProofRecord) => p.proofId !in computes);
      FilterMembers(s.pendingStorage, (p: StorageProofRecord) => p.proofId !in storages);
    }
  }

  lemma {:induction false} FairInputIsFair(c: Crypto, s: State, e: Event)
    requires s.chain != [] && Solvent(s) && PoolsPay(s) && FairInput(s, e)
    ensures Fair(c, s, e)
  {
    if e.Mine? && CandidateBlock(c, s, e).Some? { MinedAmountsNonNegative(c, s, e.miner, e.time); }
  }

  lemma {:induction false} FairInputsAreFair(c: Crypto, events: seq<Event>)
    requires FairInputs(c, events)
    ensures FairRun(c, events) && PoolsPay(Run(c, events))
  {
    if events != [] {
      var n := |events| - 1;
      forall k | 0 <= k < n ensures FairInput(Run(c, events[..n][..k]), events[..n][k]) {
        assert events[..n][..k] == events[..k];
        assert FairInput(Run(c, events[..k]), events[k]);
      }
      FairInputsAreFair(c, events[..n]);
      NoOverdraft(c, events[..n]);
      assert FairInput(Run(c, events[..n]), events[n]);
      FairInputIsFair(c, Run(c, events[..n]), events[n]);
      StepKeepsPoolsPay(c, Run(c, events[..n]), events[n]);
      OneMoreFair(c, events, n);
    }
  }

  lemma {:induction false} OneMoreFair(c: Crypto, events: seq<Event>, n: nat)
    requires n == |events| - 1 && FairRun(c, events[..n]) && Fair(c, Run(c, events[..n]), events[n])
    ensures FairRun(c, events)
  {
    forall k | 0 <= k < |events| ensures Fair(c, Run(c, events[..k]), events[k]) {
      if k < n { FairBefore(c, events, n, k); }
    }
  }

  lemma {:induction false} FairBefore(c: Crypto, events: seq<Event>, n: nat, k: nat)
    requires k < n <= |events| && FairRun(c, events[..n])
    ensures Fair(c, Run(c, events[..k]), events[k])
  {
    assert events[..n][..k] == events[..k];
    assert Fair(c, Run(c, events[..n][..k]), events[..n][k]);
  }

  /** No overdraft when every input is fair: nothing is asked of the blocks this node mines. */
  lemma {:induction false} FairInputsNeverOverdraw(c: Crypto, events: seq<Event>)
    requires FairInputs(c, events)
    ensures Solvent(Run(c, events))
  {
    FairInputsAreFair(c, events);
    NoOverdraft(c, events);
  }

  // ---------------------------------------------------------------- blocks from elsewhere

  /** The first block above the genesis, paid for by one proof, with one transfer in it. */
  function Spends(c: Crypto, p: BandwidthProof, tx: Transaction): Block
  {
    var b := Block(1, 0.0, Genesis(c).blockHash, "miner", [p], [tx], [], [], "", MIN_DIFFICULTY);
    b.(blockHash := ComputeHash(c, b))
  }

  /** Block validation asks no balance: a signed transfer of coins nobody has is accepted inside a block, and
      the sender's balance becomes negative. */
  lemma {:induction false} ReceivedBlockOverdraws(c: Crypto, p: BandwidthProof, tx: Transaction)
    requires VerifyBandwidth(c, p) && p.bytesForwarded >= MIN_DIFFICULTY && VerifyTx(c, tx) && IsUser(tx)
    requires tx.fromAddress !in {"", tx.toAddress} && Cost(tx) > 0
    ensures !AcceptsTransaction(c, Initial(c), tx)
    ensures Lookup(Run(c, [ReceiveBlock(Spends(c, p, tx))]).balances, tx.fromAddress) == -Cost(tx)
  {
    var b := Spends(c, p, tx);
    assert [ReceiveBlock(b)][..0] == [];
    SpendsIsAccepted(c, p, tx);
    InitialBalances(c);
    ApplyOne(Initial(c).balances, tx);
  }

  lemma {:induction false} SpendsIsAccepted(c: Crypto, p: BandwidthProof, tx: Transaction)
    requires VerifyBandwidth(c, p) && p.bytesForwarded >= MIN_DIFFICULTY && VerifyTx(c, tx)
    ensures ValidateBlock(c, [Genesis(c)], {}, Spends(c, p, tx)).Valid?
  {
    assert [p][..0] == [];
    assert TotalBytes([p]) == p.bytesForwarded;
    ValidateBlockMeaning(c, [Genesis(c)], {}, Spends(c, p, tx));
  }

  lemma {:induction false} ApplyOne(m: map<string, int>, tx: Transaction)
    ensures ApplyTxs(m, [tx]) == ApplyTx(m, tx, 1)
  {
    assert [tx][..0] == [];
  }

  lemma {:induction false} InitialBalances(c: Crypto)
    ensures Initial(c).balances == map[GENESIS_MINER := 0]
  {
    var txs := Genesis(c).transactions;
    var g := [Genesis(c)];
    assert g[..0] == [] && txs[..0] == [];
    assert BalancesOf(g) == ApplyTxs(BalancesOf([]), txs);
    assert ApplyTxs(map[], txs) == ApplyTx(ApplyTxs(map[], []), txs[0], 1);
  }
}

/** Locally mined blocks: what create_block puts together, that add_block takes it, and the cap. */
module Mining {
  import opened Numbers
  import opened Wrappers
  import opened Sequences
  import opened Economics
  import opened Text
  import opened Transactions
  import opened Blocks
  import opened Ledger
  import opened ChainValidity

  /** The user transactions a miner may include, in the order they were offered. */
  function Eligible(c: Crypto, offered: seq<Transaction>): seq<Transaction>
  {
    Filter(Filter(offered, tx => Minable(c, tx)), IsUser)
  }

  lemma {:induction false} FeesIgnoreCoinbase(txs: seq<Transaction>)
    ensures FeeTotal(txs) == FeeTotal(Filter(txs, IsUser))
  {
    if txs != [] {
      FeesIgnoreCoinbase(txs[..|txs| - 1]);
      var users := Filter(txs[..|txs| - 1], IsUser);
      assert (users + [Last(txs)])[..|users|] == users;
    }
  }

  /** Filtering and sorting twice, as create_block and finalize do between them, is one stable
      sort of the eligible transactions. */
  lemma {:induction false} TwoSortsAreOne(c: Crypto, offered: seq<Transaction>)
    ensures
      var eligible := Eligible(c, offered);
      var users := StableSort(Filter(StableSort(Filter(offered, tx => Minable(c, tx)), FeeKey), IsUser), FeeKey);
      && SortedBy(users, FeeKey)
      && multiset(users) == multiset(eligible)
      && (forall k :: WithKey(users, FeeKey, k) == WithKey(eligible, FeeKey, k))
      && FeeTotal(StableSort(Filter(offered, tx => Minable(c, tx)), FeeKey)) == FeeTotal(eligible)
  {
    var minable := Filter(offered, tx => Minable(c, tx));
    SortFilterSort(minable, IsUser, FeeKey);
    StableSortCorrect(minable, FeeKey);
    SumOfPermutation(StableSort(minable, FeeKey), minable, UserFee);
    FeesIgnoreCoinbase(minable);
  }

  function UnspentBandwidth(s: State, proofs: seq<BandwidthProof>): seq<BandwidthProof>
  {
    Filter(if proofs != [] then proofs else s.pendingProofs, (p: BandwidthProof) => p.receiptId !in s.spentReceipts)
  }

  function UnspentCompute(s: State): seq<ComputeProofRecord>
  {
    Filter(s.pendingCompute, (p: ComputeProofRecord) => p.proofId !in s.spentCompute)
  }

  function UnspentStorage(s: State): seq<StorageProofRecord>
  {
    Filter(s.pendingStorage, (p: StorageProofRecord) => p.proofId !in s.spentStorage)
  }

  /** What the miner earns before rounding: base reward, the unspent services and the fees it may take. */
  function EarnedReward(s: State, proofs: seq<BandwidthProof>, eligible: seq<Transaction>): real
  {
    BlockReward(|s.chain|) as real + BandwidthTotal(UnspentBandwidth(s, proofs))
    + ComputeTotal(UnspentCompute(s)) as real + StorageTotal(UnspentStorage(s)) as real + FeeTotal(eligible) as real
  }

  function Offered(s: State, transactions: seq<Transaction>): seq<Transaction>
  {
    if transactions != [] then transactions else s.mempool
  }

  /** One coinbase in front, paying the earned reward up to the headroom. */
  ghost predicate PaysMiner(s: State, b: Block, miner: string, proofs: seq<BandwidthProof>, eligible: seq<Transaction>)
  {
    && b.transactions != []
    && b.transactions[0].fromAddress == COINBASE_ADDRESS
    && b.transactions[0].toAddress == miner
    && b.transactions[0].amount == Payable(EarnedReward(s, proofs, eligible), SupplyHeadroom(TotalSupply(s.chain)))
    && b.transactions[0].amount <= SupplyHeadroom(TotalSupply(s.chain))
  }

  /** The earned amount or the headroom, whichever is less, rounded to satoshi. */
  function Payable(earned: real, headroom: int): (amount: int)
    ensures amount <= headroom
  {
    RoundNeverPasses(MinReal(earned, headroom as real), headroom);
    Round(MinReal(earned, headroom as real))
  }

  /** Exactly the eligible transactions, by falling fee, and as offered where fees are equal. */
  ghost predicate FeeOrdered(users: seq<Transaction>, eligible: seq<Transaction>)
  {
    && SortedBy(users, FeeKey)
    && multiset(users) == multiset(eligible)
    && (forall k :: WithKey(users, FeeKey, k) == WithKey(eligible, FeeKey, k))
    && (forall i :: 0 <= i < |users| ==> IsUser(users[i]))
  }

  /** The users of a mined block: what is left of sorting, filtering and sorting again. */
  function MinedUsers(c: Crypto, offered: seq<Transaction>): seq<Transaction>
  {
    StableSort(Filter(StableSort(Filter(offered, tx => Minable(c, tx)), FeeKey), IsUser), FeeKey)
  }

  lemma {:induction false} MinedUsersOrdered(c: Crypto, offered: seq<Transaction>)
    ensures FeeOrdered(MinedUsers(c, offered), Eligible(c, offered))
  {
    var users := MinedUsers(c, offered);
    TwoSortsAreOne(c, offered);
    FilterMembers(Filter(offered, tx => Minable(c, tx)), IsUser);
    forall i | 0 <= i < |users| ensures IsUser(users[i]) {
      assert users[i] in multiset(users);
      assert users[i] in multiset(Eligible(c, offered));
    }
  }

  /** The block of create_block: the coinbase and the eligible user transactions, nothing else. */
  lemma {:induction false} MinedBlockShape(c: Crypto, s: State, miner: string, time: real,
                                           proofs: seq<BandwidthProof>, transactions: seq<Transaction>)
    requires s.chain != [] && CreateBlock(c, s, miner, time, proofs, transactions).Some?
    ensures
      var b := CreateBlock(c, s, miner, time, proofs, transactions).value;
      var eligible := Eligible(c, Offered(s, transactions));
      && b.index == |s.chain| && PaysMiner(s, b, miner, proofs, eligible)
      && b.bandwidthProofs == UnspentBandwidth(s, proofs)
      && b.computeProofs == UnspentCompute(s) && b.storageProofs == UnspentStorage(s)
      && b.transactions[1..] == MinedUsers(c, Offered(s, transactions))
      && FeeOrdered(b.transactions[1..], eligible)
  {
    MinedBlockServices(c, s, miner, time, proofs, transactions);
    MinedBlockPays(c, s, miner, time, proofs, transactions);
    MinedBlockUsers(c, s, miner, time, proofs, transactions);
    MinedUsersOrdered(c, Offered(s, transactions));
  }

  lemma {:induction false} MinedBlockServices(c: Crypto, s: State, miner: string, time: real,
                                              proofs: seq<BandwidthProof>, transactions: seq<Transaction>)
    requires s.chain != [] && CreateBlock(c, s, miner, time, proofs, transactions).Some?
    ensures
      var b := CreateBlock(c, s, miner, time, proofs, transactions).value;
      && b.index == |s.chain| && b.bandwidthProofs == UnspentBandwidth(s, proofs)
      && b.computeProofs == UnspentCompute(s) && b.storageProofs == UnspentStorage(s)
  {}

  lemma {:induction false} MinedBlockUsers(c: Crypto, s: State, miner: string, time: real,
                                           proofs: seq<BandwidthProof>, transactions: seq<Transaction>)
    requires s.chain != [] && CreateBlock(c, s, miner, time, proofs, transactions).Some?
    ensures
      var b := CreateBlock(c, s, miner, time, proofs, transactions).value;
      b.index == |s.chain| && b.transactions != [] && b.transactions[1..] == MinedUsers(c, Offered(s, transactions))
  {}

  lemma {:induction false} MinedBlockPays(c: Crypto, s: State, miner: string, time: real,
                                          proofs: seq<BandwidthProof>, transactions: seq<Transaction>)
    requires s.chain != [] && CreateBlock(c, s, miner, time, proofs, transactions).Some?
    ensures
      var b := CreateBlock(c, s, miner, time, proofs, transactions).value;
      b.index == |s.chain| && PaysMiner(s, b, miner, proofs, Eligible(c, Offered(s, transactions)))
  {
    var offered := Offered(s, transactions);
    var b := CreateBlock(c, s, miner, time, proofs, transactions).value;
    TwoSortsAreOne(c, offered);
    var unsealed := b.(transactions := StableSort(Filter(offered, tx => Minable(c, tx)), FeeKey), blockHash := "");
    assert b == Finalize(c, unsealed, TotalSupply(s.chain));
    MinedBlockServices(c, s, miner, time, proofs, transactions);
    FinalizePays(c, unsealed, TotalSupply(s.chain), Eligible(c, offered),
                 EarnedReward(s, proofs, Eligible(c, offered)));
  }

  lemma {:induction false} FinalizePays(c: Crypto, b: Block, supply: int, eligible: seq<Transaction>, earned: real)
    requires b.index >= 0 && FeeTotal(b.transactions) == FeeTotal(eligible)
    requires earned == BlockReward(b.index) as real + BandwidthTotal(b.bandwidthProofs)
      + ComputeTotal(b.computeProofs) as real + StorageTotal(b.storageProofs) as real + FeeTotal(eligible) as real
    ensures
      var sealed := Finalize(c, b, supply);
      && sealed.transactions != []
      && sealed.transactions[0].fromAddress == COINBASE_ADDRESS
      && sealed.transactions[0].toAddress == b.minerAddress
      && sealed.transactions[0].amount == Payable(earned, SupplyHeadroom(supply))
  {}

  /** add_block accepts it on the same tip if and only if all its bandwidth proofs verify: taking a proof
      into the pool checks no signature, and mining checks none either. */
  lemma {:induction false} MinedBlockAccepted(c: Crypto, s: State, miner: string, time: real,
                                              proofs: seq<BandwidthProof>, transactions: seq<Transaction>)
    requires s.chain != [] && CreateBlock(c, s, miner, time, proofs, transactions).Some?
    requires forall p :: p in s.pendingStorage ==> VerifyStorage(c, p)
    ensures
      var b := CreateBlock(c, s, miner, time, proofs, transactions).value;
      ValidateBlock(c, s.chain, s.spentReceipts, b).Valid? <==>
      forall p :: p in b.bandwidthProofs ==> VerifyBandwidth(c, p)
  {
    var b := CreateBlock(c, s, miner, time, proofs, transactions).value;
    forall tx | tx in b.transactions && IsUser(tx) ensures VerifyTx(c, tx) {
      MinedTransactionMinable(c, s, miner, time, proofs, transactions, tx);
    }
    FilterMembers(if proofs != [] then proofs else s.pendingProofs,
                  (p: BandwidthProof) => p.receiptId !in s.spentReceipts);
    FilterMembers(s.pendingStorage, (p: StorageProofRecord) => p.proofId !in s.spentStorage);
    ValidateBlockMeaning(c, s.chain, s.spentReceipts, b);
  }

  lemma {:induction false} MinedTransactionMinable(c: Crypto, s: State, miner: string, time: real,
      proofs: seq<BandwidthProof>, transactions: seq<Transaction>, tx: Transaction)
    requires s.chain != [] && CreateBlock(c, s, miner, time, proofs, transactions).Some?
    requires tx in CreateBlock(c, s, miner, time, proofs, transactions).value.transactions && IsUser(tx)
    ensures Minable(c, tx)
  {
    var b := CreateBlock(c, s, miner, time, proofs, transactions).value;
    MinedBlockShape(c, s, miner, time, proofs, transactions);
    assert b.transactions == [b.transactions[0]] + b.transactions[1..];
    MinedUsersMinable(c, Offered(s, transactions));
  }

  lemma {:induction false} MinedUsersMinable(c: Crypto, offered: seq<Transaction>)
    ensures forall tx :: tx in MinedUsers(c, offered) ==> Minable(c, tx)
  {
    MinedUsersOrdered(c, offered);
    FilterMembers(Filter(offered, tx => Minable(c, tx)), IsUser);
    FilterMembers(offered, tx => Minable(c, tx));
    forall tx | tx in MinedUsers(c, offered) ensures Minable(c, tx) {
      assert tx in multiset(MinedUsers(c, offered));
      assert tx in multiset(Eligible(c, offered));
    }
  }

  lemma {:induction false} RunKeepsStorageVerified(c: Crypto, events: seq<Event>)
    ensures forall p :: p in Run(c, events).pendingStorage ==> VerifyStorage(c, p)
  {
    if events != [] {
      var s, e := Run(c, events[..|events| - 1]), Last(events);
      RunKeepsStorageVerified(c, events[..|events| - 1]);
      var candidate := CandidateBlock(c, s, e);
      if candidate.Some? {
        var ids := Elements(StorageIds(candidate.value.storageProofs));
        FilterMembers(s.pendingStorage, (p: StorageProofRecord) => p.proofId !in ids);
      }
    }
  }

  /** The pending proofs a miner would use now. */
  function Usable(s: State): seq<BandwidthProof>
  {
    WithoutProofs(s.pendingProofs, s.spentReceipts)
  }

  /** In any reachable state, mining extends the chain if and only if the usable proofs are enough and all
      of them verify. */
  lemma {:induction false} MiningSucceeds(c: Crypto, events: seq<Event>, miner: string, time: real)
    ensures
      var s := Run(c, events);
      var created := CreateBlock(c, s, miner, time, [], []);
      && (created.Some? <==> TotalBytes(Usable(s)) >= ComputeNextDifficulty(s.chain))
      && Run(c, events + [Mine(miner, time)]).chain
         == if created.Some? && (forall p :: p in Usable(s) ==> VerifyBandwidth(c, p))
            then s.chain + [created.value] else s.chain
  {
    var longer := events + [Mine(miner, time)];
    assert longer[..|longer| - 1] == events;
    RunKeepsStorageVerified(c, events);
    MineStep(c, Run(c, events), miner, time);
  }

  lemma {:induction false} MineStep(c: Crypto, s: State, miner: string, time: real)
    requires s.chain != [] && forall p :: p in s.pendingStorage ==> VerifyStorage(c, p)
    ensures
      var created := CreateBlock(c, s, miner, time, [], []);
      && (created.Some? <==> TotalBytes(Usable(s)) >= ComputeNextDifficulty(s.chain))
      && (created.Some? ==> created.value.bandwidthProofs == Usable(s))
      && Step(c, s, Mine(miner, time)).chain
         == if created.Some? && (forall p :: p in Usable(s) ==> VerifyBandwidth(c, p))
            then s.chain + [created.value] else s.chain
  {
    if CreateBlock(c, s, miner, time, [], []).Some? { MinedBlockAccepted(c, s, miner, time, [], []); }
  }

  /** So one pending proof that does not verify stops mining for good: until a block or a chain arrives
      from elsewhere the chain stays what it is. */
  lemma {:induction false} BadProofStopsMining(c: Crypto, events: seq<Event>, later: seq<Event>, p: BandwidthProof)
    requires p in Usable(Run(c, events)) && !VerifyBandwidth(c, p) && OnlyLocalBlocks(later)
    ensures Run(c, events + later).chain == Run(c, events).chain && p in Usable(Run(c, events + later))
    decreases |later|
  {
    if later == [] {
      assert events + later == events;
    } else {
      var init, e := later[..|later| - 1], Last(later);
      assert events + later == events + init + [e];
      BadProofStopsMining(c, events, init, p);
      BadProofStopsStep(c, events + init, e, p);
    }
  }

  lemma {:induction false} BadProofStopsStep(c: Crypto, before: seq<Event>, e: Event, p: BandwidthProof)
    requires p in Usable(Run(c, before)) && !VerifyBandwidth(c, p) && !e.ReceiveBlock? && !e.ReceiveChain?
    ensures Run(c, before + [e]).chain == Run(c, before).chain && p in Usable(Run(c, before + [e]))
  {
    assert (before + [e])[..|before|] == before;
    if e.Mine? { MiningSucceeds(c, before, e.miner, e.time); }
    StaysUsable(c, Run(c, before), e, p);
  }

  lemma {:induction false} StaysUsable(c: Crypto, s: State, e: Event, p: BandwidthProof)
    requires s.chain != [] && p in Usable(s) && !e.ReceiveBlock? && !e.ReceiveChain?
    requires e.Mine? ==> Step(c, s, e).chain == s.chain
    ensures Step(c, s, e).chain == s.chain && p in Usable(Step(c, s, e))
  {
    FilterMembers(s.pendingProofs, (q: BandwidthProof) => q.receiptId !in s.spentReceipts);
    var s' := Step(c, s, e);
    FilterMembers(s'.pendingProofs, (q: BandwidthProof) => q.receiptId !in s'.spentReceipts);
  }

  /** The coinbase is free, unsigned but for its mark, and named after recipient, amount and block; the first
      block of every chain holds one that pays nothing, proves nothing and is sealed by its own hash. */
  lemma {:induction false} CoinbaseAndGenesis(c: Crypto, to: string, reward: int, id: string)
    ensures
      var tx := Coinbase(c, to, reward, id);
      && IsCoinbase(tx) && tx.toAddress == to && tx.amount == reward && tx.fee == 0 && tx.timestamp == 0.0
      && tx.txId == c.coinbaseId(to, reward, id) && VerifyTx(c, tx)
    ensures
      var g := Genesis(c);
      && g.index == 0 && g.timestamp == 1_748_649_600.0 && g.difficulty == 1_048_576 && g.blockHash == ComputeHash(c, g)
      && g.transactions == [Coinbase(c, GENESIS_MINER, 0, "genesis")]
      && g.bandwidthProofs == [] && g.computeProofs == [] && g.storageProofs == []
  {}

  // ---------------------------------------------------------------- the cap

  ghost predicate OnlyLocalBlocks(events: seq<Event>)
  {
    forall i :: 0 <= i < |events| ==> !events[i].ReceiveChain? && !events[i].ReceiveBlock?
  }

  lemma {:induction false} UsersMintNothing(txs: seq<Transaction>)
    requires txs != [] && forall i :: 0 < i < |txs| ==> IsUser(txs[i])
    requires IsCoinbase(txs[0])
    ensures Minted(txs) == txs[0].amount
  {
    if |txs| > 1 { UsersMintNothing(txs[..|txs| - 1]); }
  }

  /** Over runs whose blocks are mined locally the total supply never exceeds the cap. */
  lemma {:induction false} SupplyNeverPassesCap(c: Crypto, events: seq<Event>)
    requires OnlyLocalBlocks(events)
    ensures TotalSupply(Run(c, events).chain) <= MAX_SUPPLY
  {
    if events == [] {
      var g := [Genesis(c)];
      assert g[..0] == [];
      UsersMintNothing(Genesis(c).transactions);
    } else {
      var s, e := Run(c, events[..|events| - 1]), Last(events);
      SupplyNeverPassesCap(c, events[..|events| - 1]);
      StepLength(c, s, e);
      if e.Mine? && CandidateBlock(c, s, e).Some? {
        var b := CandidateBlock(c, s, e).value;
        MinedBlockShape(c, s, e.miner, e.time, [], []);
        UsersMintNothing(b.transactions);
        assert (s.chain + [b])[..|s.chain|] == s.chain;
      }
    }
  }
}

/** What the node takes in, and that mining serves it. */
module Intake {
  import opened Wrappers
  import opened Maps
  import opened Sequences
  import opened Transactions
  import opened Blocks
  import opened Ledger
  import opened ChainValidity
  import opened Accounting
  import opened Mining
  import opened Solvency
  import opened Balances
  import opened Authenticity
  import opened MinedServices

  // ---------------------------------------------------------------- transactions

  /** What an address holds by the history of the chain. */
  function Holds(s: State, a: string): int
  {
    if a == "" then 0 else Income(AllTransactions(s.chain), a) - Expense(AllTransactions(s.chain), a)
  }

  /** The payment waits in the mempool with its cost reserved if its sender signed it, its fee is at least
      0.0001 coins, and what the sender holds, less what is reserved, covers amount and fee; otherwise nothing
      has changed. */
  ghost predicate EntersOrNot(c: Crypto, s: State, s': State, tx: Transaction, held: int)
  {
    var reserved := Lookup(s.reserved, tx.fromAddress);
    if Authorised(c, tx) && tx.fee >= 10_000 && tx.amount + tx.fee <= held - reserved
    then s' == s.(mempool := s.mempool + [tx], reserved := s.reserved[tx.fromAddress := reserved + tx.amount + tx.fee])
    else s' == s
  }

  /** That is what submitting a payment does in every run, where a sender holds what the history of the chain
      says. */
  lemma {:induction false} PaymentEnters(c: Crypto, events: seq<Event>, tx: Transaction)
    requires IsUser(tx)
    ensures EntersOrNot(c, Run(c, events), Run(c, events + [SubmitTransaction(tx)]), tx,
                        Holds(Run(c, events), tx.fromAddress))
  {
    assert (events + [SubmitTransaction(tx)])[..|events|] == events;
    BalanceIsHistory(c, events, tx.fromAddress);
    PaymentStep(c, Run(c, events), tx, Holds(Run(c, events), tx.fromAddress));
  }

  lemma {:induction false} PaymentStep(c: Crypto, s: State, tx: Transaction, held: int)
    requires IsUser(tx) && held == Lookup(s.balances, tx.fromAddress)
    ensures EntersOrNot(c, s, AddTransaction(c, s, tx), tx, held)
  {
    assert VerifyTx(c, tx) <==> Authorised(c, tx);
  }

  lemma {:induction false} MempoolMinable(c: Crypto, events: seq<Event>, tx: Transaction)
    requires tx in Run(c, events).mempool
    ensures Minable(c, tx)
  {
    if events != [] {
      var s, e := Run(c, events[..|events| - 1]), Last(events);
      if tx in s.mempool {
        MempoolMinable(c, events[..|events| - 1], tx);
      } else {
        EntersValid(c, s, e, tx);
      }
    }
  }

  lemma {:induction false} EntersValid(c: Crypto, s: State, e: Event, tx: Transaction)
    requires s.chain != [] && tx !in s.mempool && tx in Step(c, s, e).mempool
    ensures Minable(c, tx)
  {
    EntersByAdding(c, s, e, tx);
  }

  /** In every run, whatever waits in the mempool goes into the next block that is mined, each copy once,
      and waits no longer. */
  lemma {:induction false} WaitingIsMined(c: Crypto, events: seq<Event>, miner: string, time: real)
    requires |Run(c, events + [Mine(miner, time)]).chain| > |Run(c, events).chain|
    ensures
      var s, s' := Run(c, events), Run(c, events + [Mine(miner, time)]);
      var users := Last(s'.chain).transactions;
      && s'.chain[..|s.chain|] == s.chain && |s'.chain| == |s.chain| + 1 && users != []
      && multiset(users[1..]) == multiset(Filter(s.mempool, IsUser))
      && forall tx :: tx in s'.mempool ==> tx in s.mempool && !IsUser(tx)
  {
    var s := Run(c, events);
    assert (events + [Mine(miner, time)])[..|events|] == events;
    forall tx | tx in s.mempool ensures Minable(c, tx) { MempoolMinable(c, events, tx); }
    MinedFromMempool(c, s, miner, time);
  }

  lemma {:induction false} MinedFromMempool(c: Crypto, s: State, miner: string, time: real)
    requires s.chain != [] && |Step(c, s, Mine(miner, time)).chain| > |s.chain|
    requires forall tx :: tx in s.mempool ==> Minable(c, tx)
    ensures
      var s' := Step(c, s, Mine(miner, time));
      var users := Last(s'.chain).transactions;
      && s'.chain[..|s.chain|] == s.chain && |s'.chain| == |s.chain| + 1 && users != []
      && multiset(users[1..]) == multiset(Filter(s.mempool, IsUser))
      && forall tx :: tx in s'.mempool ==> tx in s.mempool && !IsUser(tx)
  {
    StepLength(c, s, Mine(miner, time));
    var b := CreateBlock(c, s, miner, time, [], []).value;
    MinedUsersWait(c, s, miner, time, b);
    assert Step(c, s, Mine(miner, time)) == Append(s, b);
    MinedLeave(s, b, Elements(TxIds(b.transactions)));
  }

  lemma {:induction false} MinedUsersWait(c: Crypto, s: State, miner: string, time: real, b: Block)
    requires s.chain != [] && CreateBlock(c, s, miner, time, [], []) == Some(b)
    requires forall tx :: tx in s.mempool ==> Minable(c, tx)
    ensures b.transactions != [] && multiset(b.transactions[1..]) == multiset(Filter(s.mempool, IsUser))
  {
    MinedBlockShape(c, s, miner, time, [], []);
    FilterAll(s.mempool, tx => Minable(c, tx));
  }

  lemma {:induction false} MinedLeave(s: State, b: Block, ids: set<string>)
    requires b.transactions != [] && ids == Elements(TxIds(b.transactions))
    requires multiset(b.transactions[1..]) == multiset(Filter(s.mempool, IsUser))
    ensures forall tx :: tx in WithoutTransactions(s.mempool, ids) ==> tx in s.mempool && !IsUser(tx)
  {
    FilterMembers(s.mempool, (tx: Transaction) => tx.txId !in ids);
    FilterMembers(s.mempool, IsUser);
    forall tx | tx in s.mempool && IsUser(tx) ensures tx.txId in ids {
      assert tx in multiset(Filter(s.mempool, IsUser));
      assert tx in multiset(b.transactions[1..]);
      var i :| 0 <= i < |b.transactions[1..]| && b.transactions[1..][i] == tx;
      assert TxIds(b.transactions)[i + 1] == tx.txId;
    }
  }

  // ---------------------------------------------------------------- proofs

  /** Some block of the chain holds a proof with this id. */
  ghost predicate OnChain(chain: seq<Block>, ids: IdsOf, id: string)
  {
    exists i :: 0 <= i < |chain| && id in ids(chain[i])
  }

  lemma {:induction false} ComputesOfMeaning(chain: seq<Block>, id: string)
    ensures id in ComputesOf(chain) <==> OnChain(chain, COMPUTES, id)
  {
    if chain != [] {
      ComputesOfMeaning(chain[..|chain| - 1], id);
      OnLonger(chain, COMPUTES, id);
    }
  }

  lemma {:induction false} StoragesOfMeaning(chain: seq<Block>, id: string)
    ensures id in StoragesOf(chain) <==> OnChain(chain, STORAGES, id)
  {
    if chain != [] {
      StoragesOfMeaning(chain[..|chain| - 1], id);
      OnLonger(chain, STORAGES, id);
    }
  }

  lemma {:induction false} OnLonger(chain: seq<Block>, ids: IdsOf, id: string)
    requires chain != []
    ensures OnChain(chain, ids, id) <==> OnChain(chain[..|chain| - 1], ids, id) || id in ids(Last(chain))
  {
    var init := chain[..|chain| - 1];
    if OnChain(init, ids, id) {
      var i :| 0 <= i < |init| && id in ids(init[i]);
      assert id in ids(chain[i]);
    }
    if OnChain(chain, ids, id) {
      var i :| 0 <= i < |chain| && id in ids(chain[i]);
      if i < |init| { assert id in ids(init[i]); }
    }
    if id in ids(Last(chain)) { assert id in ids(chain[|chain| - 1]); }
  }

  /** In every run a bandwidth proof is taken if and only if its receipt is neither on the chain nor
      pending, and a compute proof in the same way from a worker with the stake. */
  lemma {:induction false} ProofsEnter(c: Crypto, events: seq<Event>, p: BandwidthProof, q: ComputeProofRecord,
                                       hasStake: bool)
    ensures
      var s := Run(c, events);
      Run(c, events + [SubmitProof(p)]) ==
        if OnChain(s.chain, RECEIPTS, p.receiptId) || p.receiptId in ReceiptIds(s.pendingProofs)
        then s else s.(pendingProofs := s.pendingProofs + [p])
    ensures
      var s := Run(c, events);
      Run(c, events + [SubmitComputeProof(q, hasStake)]) ==
        if OnChain(s.chain, COMPUTES, q.proofId) || q.proofId in ComputeIds(s.pendingCompute) || !hasStake
        then s else s.(pendingCompute := s.pendingCompute + [q])
  {
    var s := Run(c, events);
    assert (events + [SubmitProof(p)])[..|events|] == events;
    assert (events + [SubmitComputeProof(q, hasStake)])[..|events|] == events;
    RunConsistent(c, events);
    ReceiptsOfMeaning(s.chain, p.receiptId);
    ComputesOfMeaning(s.chain, q.proofId);
  }

  /** And a storage proof if its node also signed it. */
  lemma {:induction false} StorageProofEnters(c: Crypto, events: seq<Event>, p: StorageProofRecord)
    ensures
      var s := Run(c, events);
      Run(c, events + [SubmitStorageProof(p)]) ==
        if OnChain(s.chain, STORAGES, p.proofId) || p.proofId in StorageIds(s.pendingStorage)
           || !Stored(c, p)
        then s else s.(pendingStorage := s.pendingStorage + [p])
  {
    assert (events + [SubmitStorageProof(p)])[..|events|] == events;
    RunConsistent(c, events);
    StoragesOfMeaning(Run(c, events).chain, p.proofId);
  }
}

/** The fast structures of the ledger against slow recomputation, and conservation of coins. */
module Accounting {
  import opened Wrappers
  import opened Maps
  import opened Sequences
  import opened Economics
  import opened Transactions
  import opened Blocks
  import opened Ledger
  import opened ChainValidity

  // ---------------------------------------------------------------- caches equal recomputation

  /** The balance cache and the three spent sets are what a rebuild from the chain would give. */
  ghost predicate Consistent(s: State)
  {
    && s.balances == BalancesOf(s.chain)
    && s.spentReceipts == ReceiptsOf(s.chain)
    && s.spentCompute == ComputesOf(s.chain)
    && s.spentStorage == StoragesOf(s.chain)
  }

  lemma {:induction false} AppendKeepsConsistent(s: State, b: Block)
    requires Consistent(s)
    ensures Consistent(Append(s, b))
  {}

  /** After any interleaving of add_block, mining and replace_chain the caches are exact. */
  lemma {:induction false} RunConsistent(c: Crypto, events: seq<Event>)
    ensures Consistent(Run(c, events))
  {
    if events == [] {
      var g := [Genesis(c)];
      assert g[..|g| - 1] == [];
    } else {
      var s, e := Run(c, events[..|events| - 1]), Last(events);
      RunConsistent(c, events[..|events| - 1]);
      var candidate := CandidateBlock(c, s, e);
      if candidate.Some? { AppendKeepsConsistent(s, candidate.value); }
    }
  }

  /** A spent set is the set of ids that occur somewhere in the chain. */
  lemma {:induction false} ReceiptsOfMeaning(chain: seq<Block>, id: string)
    ensures id in ReceiptsOf(chain) <==>
            exists i :: 0 <= i < |chain| && id in ReceiptIds(chain[i].bandwidthProofs)
  {
    if chain != [] {
      var init := chain[..|chain| - 1];
      ReceiptsOfMeaning(init, id);
      if id in ReceiptIds(Last(chain).bandwidthProofs) {
        assert id in ReceiptIds(chain[|chain| - 1].bandwidthProofs);
      }
      if id in ReceiptsOf(init) {
        var i :| 0 <= i < |init| && id in ReceiptIds(init[i].bandwidthProofs);
        assert id in ReceiptIds(chain[i].bandwidthProofs);
      }
      if i :| 0 <= i < |chain| && id in ReceiptIds(chain[i].bandwidthProofs) {
        if i < |init| { assert id in ReceiptIds(init[i].bandwidthProofs); }
      }
    }
  }

  // ---------------------------------------------------------------- no receipt in two blocks

  ghost predicate ReceiptsDistinct(chain: seq<Block>)
  {
    forall i, j, id :: 0 <= i < j < |chain| && id in ReceiptIds(chain[i].bandwidthProofs)
                       ==> id !in ReceiptIds(chain[j].bandwidthProofs)
  }

  lemma {:induction false} AppendKeepsReceiptsDistinct(c: Crypto, s: State, b: Block)
    requires s.chain != [] && Consistent(s) && ReceiptsDistinct(s.chain)
    requires Acceptable(c, s.chain, s.spentReceipts, b)
    ensures ReceiptsDistinct(s.chain + [b])
  {
    var longer := s.chain + [b];
    forall i, j, id | 0 <= i < j < |longer| && id in ReceiptIds(longer[i].bandwidthProofs)
      ensures id !in ReceiptIds(longer[j].bandwidthProofs)
    {
      assert id in ReceiptIds(s.chain[i].bandwidthProofs);
      if j == |s.chain| {
        ReceiptsOfMeaning(s.chain, id);
        assert id in s.spentReceipts;
      } else {
        assert longer[j] == s.chain[j];
      }
    }
  }

  /** Without replace_chain no bandwidth receipt id appears in two blocks. */
  lemma {:induction false} RunNeverReusesReceipt(c: Crypto, events: seq<Event>)
    requires NoReplacement(events)
    ensures ReceiptsDistinct(Run(c, events).chain)
  {
    if events != [] {
      var s, e := Run(c, events[..|events| - 1]), Last(events);
      RunNeverReusesReceipt(c, events[..|events| - 1]);
      RunConsistent(c, events[..|events| - 1]);
      StepLength(c, s, e);
      var candidate := CandidateBlock(c, s, e);
      if candidate.Some? && Acceptable(c, s.chain, s.spentReceipts, candidate.value) {
        AppendKeepsReceiptsDistinct(c, s, candidate.value);
      }
    }
  }

  // ---------------------------------------------------------------- undo

  /** sign -1 undoes sign +1 for every address, whatever the transaction. */
  lemma {:induction false} UndoRestoresBalances(m: map<string, int>, tx: Transaction, address: string)
    ensures Lookup(ApplyTx(ApplyTx(m, tx, 1), tx, -1), address) == Lookup(m, address)
  {}

  // ---------------------------------------------------------------- conservation

  /** Coins one transaction moves to or from the empty address, which has no balance. */
  function Leak(tx: Transaction): int
  {
    (if tx.toAddress == "" then tx.amount else 0) - (if tx.fromAddress == "" then Cost(tx) else 0)
  }

  function LeakOf(txs: seq<Transaction>): int
  {
    if txs == [] then 0 else LeakOf(txs[..|txs| - 1]) + Leak(Last(txs))
  }

  function ChainLeak(chain: seq<Block>): int
  {
    if chain == [] then 0 else ChainLeak(chain[..|chain| - 1]) + LeakOf(Last(chain).transactions)
  }

  function ChainFees(chain: seq<Block>): int
  {
    if chain == [] then 0 else ChainFees(chain[..|chain| - 1]) + FeeTotal(Last(chain).transactions)
  }

  lemma {:induction false} ApplyTxMovesTotal(m: map<string, int>, tx: Transaction)
    ensures Total(ApplyTx(m, tx, 1)) == Total(m)
              + (if IsCoinbase(tx) then tx.amount else -tx.fee) - Leak(tx)
  {
    var m1 := if tx.toAddress != "" then m[tx.toAddress := Lookup(m, tx.toAddress) + tx.amount] else m;
    if tx.toAddress != "" { TotalUpdate(m, tx.toAddress, Lookup(m, tx.toAddress) + tx.amount); }
    TotalUpdate(m1, tx.fromAddress, Lookup(m1, tx.fromAddress) - (tx.amount + tx.fee));
    assert ApplyTx(m, tx, 1) == if tx.fromAddress != "" && tx.fromAddress != COINBASE_ADDRESS
      then m1[tx.fromAddress := Lookup(m1, tx.fromAddress) - (tx.amount + tx.fee)] else m1;
    assert |COINBASE_ADDRESS| > 0;
  }

  lemma {:induction false} ApplyTxsMovesTotal(m: map<string, int>, txs: seq<Transaction>)
    ensures Total(ApplyTxs(m, txs)) == Total(m) + Minted(txs) - FeeTotal(txs) - LeakOf(txs)
  {
    if txs != [] {
      ApplyTxsMovesTotal(m, txs[..|txs| - 1]);
      ApplyTxMovesTotal(ApplyTxs(m, txs[..|txs| - 1]), Last(txs));
    }
  }

  /** Coins are conserved: what all addresses hold is what was minted, less fees. */
  lemma {:induction false} ChainConservation(chain: seq<Block>)
    ensures Total(BalancesOf(chain)) == TotalSupply(chain) - ChainFees(chain) - ChainLeak(chain)
  {
    if chain != [] {
      ChainConservation(chain[..|chain| - 1]);
      ApplyTxsMovesTotal(BalancesOf(chain[..|chain| - 1]), Last(chain).transactions);
    }
  }

  ghost predicate AddressesNamed(txs: seq<Transaction>)
  {
    forall tx :: tx in txs ==> tx.fromAddress != "" && tx.toAddress != ""
  }

  lemma {:induction false} NamedTxsDoNotLeak(txs: seq<Transaction>)
    requires AddressesNamed(txs)
    ensures LeakOf(txs) == 0
  {
    if txs != [] { NamedTxsDoNotLeak(txs[..|txs| - 1]); }
  }

  lemma {:induction false} NamedChainDoesNotLeak(chain: seq<Block>)
    requires forall b :: b in chain ==> AddressesNamed(b.transactions)
    ensures ChainLeak(chain) == 0
  {
    if chain != [] {
      NamedChainDoesNotLeak(chain[..|chain| - 1]);
      NamedTxsDoNotLeak(Last(chain).transactions);
    }
  }

  /** In every run, with every address non-empty, the balances the cache reports add up to the
      total supply less all non-coinbase fees; otherwise the difference is the leak, exactly. */
  lemma {:induction false} RunConservation(c: Crypto, events: seq<Event>)
    ensures
      var s := Run(c, events);
      && Total(s.balances) == TotalSupply(s.chain) - ChainFees(s.chain) - ChainLeak(s.chain)
      && ((forall b :: b in s.chain ==> AddressesNamed(b.transactions)) ==>
            Total(s.balances) == TotalSupply(s.chain) - ChainFees(s.chain))
  {
    var s := Run(c, events);
    RunConsistent(c, events);
    ChainConservation(s.chain);
    if forall b :: b in s.chain ==> AddressesNamed(b.transactions) {
      NamedChainDoesNotLeak(s.chain);
    }
  }
}

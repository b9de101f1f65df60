/** What every address holds, from the history of transactions alone. */
module Balances {
  import opened Wrappers
  import opened Maps
  import opened Sequences
  import opened Transactions
  import opened Blocks
  import opened Ledger
  import opened Accounting
  import opened Solvency

  /** All transactions of a chain, block after block. */
  function AllTransactions(chain: seq<Block>): seq<Transaction>
  {
    if chain == [] then [] else AllTransactions(chain[..|chain| - 1]) + Last(chain).transactions
  }

  /** Everything that was ever sent to an address. */
  function Income(txs: seq<Transaction>, address: string): int
  {
    SumOf(txs, (tx: Transaction) => if tx.toAddress == address then tx.amount else 0)
  }

  /** Amounts and fees of everything that was ever sent from it; the coinbase pays out of nothing. */
  function Expense(txs: seq<Transaction>, address: string): int
  {
    if address == COINBASE_ADDRESS then 0 else Spending(txs, address)
  }

  /** One transaction moves its amount from one address to another, and its fee away from the first. */
  lemma {:induction false} OneTransfer(m: map<string, int>, tx: Transaction, sign: int, a: string)
    requires a != ""
    ensures Lookup(ApplyTx(m, tx, sign), a) == Lookup(m, a)
      + (if tx.toAddress == a then sign * tx.amount else 0)
      - (if tx.fromAddress == a && a != COINBASE_ADDRESS then sign * (tx.amount + tx.fee) else 0)
  {}

  lemma {:induction false} ManyTransfers(m: map<string, int>, txs: seq<Transaction>, a: string)
    requires a != ""
    ensures Lookup(ApplyTxs(m, txs), a) == Lookup(m, a) + Income(txs, a) - Expense(txs, a)
  {
    if txs != [] {
      var init := txs[..|txs| - 1];
      ManyTransfers(m, init, a);
      OneTransfer(ApplyTxs(m, init), Last(txs), 1, a);
    }
  }

  lemma {:induction false} FlowsConcat(x: seq<Transaction>, y: seq<Transaction>, a: string)
    ensures Income(x + y, a) == Income(x, a) + Income(y, a) && Expense(x + y, a) == Expense(x, a) + Expense(y, a)
  {
    SumOfConcat(x, y, (tx: Transaction) => if tx.toAddress == a then tx.amount else 0);
    SumOfConcat(x, y, (tx: Transaction) => if tx.fromAddress == a then Cost(tx) else 0);
  }

  lemma {:induction false} ChainBalances(chain: seq<Block>, a: string)
    requires a != ""
    ensures Lookup(BalancesOf(chain), a) == Income(AllTransactions(chain), a) - Expense(AllTransactions(chain), a)
  {
    if chain != [] {
      var init := chain[..|chain| - 1];
      ChainBalances(init, a);
      ManyTransfers(BalancesOf(init), Last(chain).transactions, a);
      FlowsConcat(AllTransactions(init), Last(chain).transactions, a);
    }
  }

  /** In every run the cached balance of an address is all it received less all it sent and paid in fees,
      over the transactions of the chain; the empty address has none. */
  lemma {:induction false} BalanceIsHistory(c: Crypto, events: seq<Event>, a: string)
    ensures
      var s := Run(c, events);
      var txs := AllTransactions(s.chain);
      Lookup(s.balances, a) == if a == "" then 0 else Income(txs, a) - Expense(txs, a)
  {
    RunConsistent(c, events);
    if a != "" { ChainBalances(Run(c, events).chain, a); } else { NothingForNobody(Run(c, events).chain); }
  }

  lemma {:induction false} NothingForNobody(chain: seq<Block>)
    ensures Lookup(BalancesOf(chain), "") == 0
  {
    if chain != [] {
      NothingForNobody(chain[..|chain| - 1]);
      NoneForNobody(BalancesOf(chain[..|chain| - 1]), Last(chain).transactions);
    }
  }

  lemma {:induction false} NoneForNobody(m: map<string, int>, txs: seq<Transaction>)
    requires Lookup(m, "") == 0
    ensures Lookup(ApplyTxs(m, txs), "") == 0
  {
    if txs != [] { NoneForNobody(m, txs[..|txs| - 1]); }
  }
}

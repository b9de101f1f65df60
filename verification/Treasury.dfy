/** The DAO treasury (border/dao/treasury.py). Amounts are satoshi. */
module Treasuries {
  import opened Sequences

  datatype Entry = Entry(source: string, amount: int, fromAddress: string, note: string)

  datatype Spend = Spend(proposalId: string, recipient: string, amount: int, note: string)

  datatype Treasury = Treasury(balance: int, income: seq<Entry>, spending: seq<Spend>, rates: map<string, real>)

  const RATE_KEYS := {"tx_fee_pct", "compute_fee_pct", "storage_fee_pct", "infer_fee_pct", "render_fee_pct"}

  const NEW_TREASURY := Treasury(0, [], [],
    map["tx_fee_pct" := 0.01, "compute_fee_pct" := 0.005, "storage_fee_pct" := 0.005,
        "infer_fee_pct" := 0.005, "render_fee_pct" := 0.005])

  function Collected(t: Treasury, e: Entry): Treasury
  {
    if e.amount <= 0 then t else t.(income := t.income + [e], balance := t.balance + e.amount)
  }

  predicate CanSpend(t: Treasury, amount: int)
  {
    amount <= t.balance
  }

  function Spent(t: Treasury, s: Spend): Treasury
  {
    if !CanSpend(t, s.amount) then t else t.(spending := t.spending + [s], balance := t.balance - s.amount)
  }

  function WithRate(t: Treasury, key: string, value: real): Treasury
  {
    if key in RATE_KEYS then t.(rates := t.rates[key := value]) else t
  }

  function Income(t: Treasury): int
  {
    SumOf(t.income, (e: Entry) => e.amount)
  }

  function Spending(t: Treasury): int
  {
    SumOf(t.spending, (s: Spend) => s.amount)
  }

  ghost predicate Balanced(t: Treasury)
  {
    t.balance == Income(t) - Spending(t) && t.balance >= 0
  }

  class BorderTreasury {
    var balance: int
    var income: seq<Entry>
    var spending: seq<Spend>
    var rates: map<string, real>

    constructor ()
      ensures Value() == NEW_TREASURY
    {
      balance, income, spending, rates := 0, [], [], NEW_TREASURY.rates;
    }

    ghost function Value(): Treasury
      reads this
    {
      Treasury(balance, income, spending, rates)
    }

    method Collect(source: string, amount: int, fromAddress: string, note: string) returns (fee: int)
      modifies this
      ensures Value() == Collected(old(Value()), Entry(source, amount, fromAddress, note))
      ensures fee == if amount > 0 then amount else 0
    {
      if amount <= 0 { return 0; }
      income := income + [Entry(source, amount, fromAddress, note)];
      balance := balance + amount;
      return amount;
    }

    method SpendFunds(proposalId: string, recipient: string, amount: int, note: string) returns (ok: bool)
      modifies this
      ensures Value() == Spent(old(Value()), Spend(proposalId, recipient, amount, note))
      ensures ok == CanSpend(old(Value()), amount)
    {
      if amount > balance { return false; }
      spending := spending + [Spend(proposalId, recipient, amount, note)];
      balance := balance - amount;
      return true;
    }

    method ApplyParameter(key: string, value: real) returns (ok: bool)
      modifies this
      ensures Value() == WithRate(old(Value()), key, value)
      ensures ok == (key in RATE_KEYS)
    {
      if key !in RATE_KEYS { return false; }
      rates := rates[key := value];
      return true;
    }
  }
}

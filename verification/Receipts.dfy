/** Signed off-chain payment receipts (border/payments/receipt.py). Amounts are satoshi. */
module Receipts {
  import opened Numbers
  import opened Text

  datatype Wallet = Wallet(address: string, publicKey: string)

  /** Signing with a wallet's key, and checking a signature against a public key. */
  datatype Signatures = Signatures(
    sign: (Wallet, string) -> string,
    verify: (string, string, string) -> bool)

  datatype Receipt = Receipt(
    receiptId: string,
    channelId: string,
    nonce: int,
    amount: int,
    sender: string,
    receiver: string,
    senderSig: string,
    ackSig: string,
    memo: string)

  const COIN: nat := 100_000_000

  /** Coins with eight places. */
  function Coins(satoshi: nat): (s: string)
    ensures ':' !in s
  {
    Decimal(satoshi / COIN) + "." + Digits(satoshi % COIN, 8)
  }

  /** f"{amount:.8f}" */
  function Fixed8(amount: int): (s: string)
    ensures ':' !in s
  {
    if amount < 0 then "-" + Coins(-amount) else Coins(amount)
  }

  function SigningBytes(channelId: string, nonce: int, amount: int): string
  {
    channelId + ":" + SignedDecimal(nonce) + ":" + Fixed8(amount)
  }

  function BytesOf(r: Receipt): string
  {
    SigningBytes(r.channelId, r.nonce, r.amount)
  }

  predicate VerifySender(sigs: Signatures, r: Receipt, publicKey: string)
  {
    r.senderSig != "" && sigs.verify(publicKey, BytesOf(r), r.senderSig)
  }

  function Acked(sigs: Signatures, r: Receipt, wallet: Wallet): Receipt
  {
    r.(ackSig := sigs.sign(wallet, BytesOf(r)))
  }

  // ---------------------------------------------------------------- the signed bytes are unambiguous

  /** Texts of equal length have to agree on both sides of the last mark. */
  lemma {:induction false} SplitAtLast(p: string, s: string, q: string, t: string, mark: char)
    requires p + [mark] + s == q + [mark] + t && mark !in s && mark !in t
    ensures p == q && s == t
  {
    var whole := p + [mark] + s;
    assert whole[|p|] == mark && whole[|q|] == mark;
    forall i | |p| < i < |whole| ensures whole[i] != mark { assert whole[i] == s[i - |p| - 1]; }
    forall i | |q| < i < |whole| ensures whole[i] != mark { assert whole[i] == t[i - |q| - 1]; }
    assert |p| == |q|;
    assert whole[..|p|] == p == q && whole[|p| + 1..] == s == t;
  }

  lemma {:induction false} Fixed8Injective(a: int, b: int)
    requires Fixed8(a) == Fixed8(b)
    ensures a == b
  {
    var m: nat, n: nat := if a < 0 then -a else a, if b < 0 then -b else b;
    SignedCoins(a < 0, m, b < 0, n);
  }

  /** A text without sign starts with a digit. */
  lemma {:induction false} FirstChar(k: nat)
    ensures Coins(k)[0] != '-'
  {
    assert Decimal(k / COIN)[0] in Decimal(k / COIN);
  }

  /** Sign and satoshi can be read off the text. */
  lemma {:induction false} SignedCoins(negative: bool, m: nat, negative': bool, n: nat)
    requires (if negative then "-" + Coins(m) else Coins(m)) == (if negative' then "-" + Coins(n) else Coins(n))
    ensures negative == negative' && m == n
  {
    FirstChar(m);
    FirstChar(n);
    if negative {
      assert ("-" + Coins(m))[1..] == Coins(m) && ("-" + Coins(n))[1..] == Coins(n);
    }
    CoinsInjective(m, n);
  }

  lemma {:induction false} CoinsInjective(m: nat, n: nat)
    requires Coins(m) == Coins(n)
    ensures m == n
  {
    var coins, rest, coins', rest' := m / COIN, m % COIN, n / COIN, n % COIN;
    SplitAtLast(Decimal(coins), Digits(rest, 8), Decimal(coins'), Digits(rest', 8), '.');
    DecimalInjective(coins, coins');
    EightDigitsInjective(rest, rest');
  }

  lemma {:induction false} EightDigitsInjective(m: nat, n: nat)
    requires m < COIN && n < COIN && Digits(m, 8) == Digits(n, 8)
    ensures m == n
  {
    DigitsInjective(m, n, 8);
    EightPlaces();
    SmallMod(m, Power10(8));
    SmallMod(n, Power10(8));
  }

  lemma {:induction false} EightPlaces()
    ensures Power10(8) == COIN
  {}

  lemma {:induction false} SmallMod(m: nat, p: nat)
    requires m < p
    ensures m % p == m
  {}

  /** The signed bytes determine channel, nonce and amount, whatever the channel id contains. */
  lemma {:induction false} SigningBytesInjective(c: string, n: int, a: int, c': string, n': int, a': int)
    requires SigningBytes(c, n, a) == SigningBytes(c', n', a')
    ensures c == c' && n == n' && a == a'
  {
    SplitAtLast(c + ":" + SignedDecimal(n), Fixed8(a), c' + ":" + SignedDecimal(n'), Fixed8(a'), ':');
    SplitAtLast(c, SignedDecimal(n), c', SignedDecimal(n'), ':');
    SignedDecimalInjective(n, n');
    Fixed8Injective(a, a');
  }

  // ---------------------------------------------------------------- amounts from the wire

  /** A receipt that arrives may claim any number of coins, which receiving does not round. */
  function Satoshi(coins: real): nat
  {
    Round((if coins < 0.0 then -coins else coins) * COIN as real)
  }

  function WireBytes(channelId: string, nonce: int, coins: real): string
  {
    var amount := if coins < 0.0 then "-" + Coins(Satoshi(coins)) else Coins(Satoshi(coins));
    channelId + ":" + SignedDecimal(nonce) + ":" + amount
  }

  /** Two claims have the same signed bytes exactly when they agree in channel, nonce, sign and whole
      satoshi: a signature does not cover what is less than half a satoshi away. */
  lemma {:induction false} ClaimsSignAlike(c: string, n: int, x: real, c': string, n': int, y: real)
    ensures WireBytes(c, n, x) == WireBytes(c', n', y) <==>
            c == c' && n == n' && (x < 0.0 <==> y < 0.0) && Satoshi(x) == Satoshi(y)
  {
    if WireBytes(c, n, x) == WireBytes(c', n', y) {
      var a := if x < 0.0 then "-" + Coins(Satoshi(x)) else Coins(Satoshi(x));
      var b := if y < 0.0 then "-" + Coins(Satoshi(y)) else Coins(Satoshi(y));
      SplitAtLast(c + ":" + SignedDecimal(n), a, c' + ":" + SignedDecimal(n'), b, ':');
      SplitAtLast(c, SignedDecimal(n), c', SignedDecimal(n'), ':');
      SignedDecimalInjective(n, n');
      SignedCoins(x < 0.0, Satoshi(x), y < 0.0, Satoshi(y));
    }
  }

  /** What this side signs are whole satoshi, where both texts are one. */
  lemma {:induction false} WholeSatoshi(c: string, n: int, amount: int)
    ensures WireBytes(c, n, amount as real / COIN as real) == SigningBytes(c, n, amount)
  {
    var coins := amount as real / COIN as real;
    assert coins * COIN as real == amount as real;
    assert Satoshi(coins) == if amount < 0 then -amount else amount;
  }
}

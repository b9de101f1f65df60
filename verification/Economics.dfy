/** Supply schedule and difficulty retarget (border/blockchain/economics.py).
    Coin amounts are whole satoshi: one coin is 100_000_000. */
module Economics {
  import opened Numbers

  const SATOSHI_PER_BC: int := 100_000_000
  const MAX_SUPPLY: int := 2_100_000_000_000_000
  const INITIAL_BLOCK_REWARD: int := 5_000_000_000
  const HALVING_INTERVAL: int := 210_000
  const MIN_FEE_PER_TX: int := 10_000

  const ADJUSTMENT_INTERVAL: int := 2016
  const MIN_DIFFICULTY: int := 1_048_576
  const MAX_DIFFICULTY: int := 10_737_418_240
  const RETARGET_CLAMP: real := 4.0

  // ---------------------------------------------------------------- rounding

  /** n / d to the nearest integer, ties to the even one: Python's round. */
  function RoundDiv(n: nat, d: nat): nat
    requires d > 0
  {
    var q, r := n / d, n % d;
    if 2 * r < d || (2 * r == d && q % 2 == 0) then q else q + 1
  }

  lemma {:induction false} RoundNeverPasses(x: real, bound: int)
    requires x <= bound as real
    ensures Round(x) <= bound
  {}

  lemma {:induction false} RoundExact(n: int)
    ensures Round(n as real) == n
  {}

  /** The rounded quotient m is within half a divisor of the number. */
  lemma {:induction false} RoundDivNear(n: nat, d: nat, m: nat)
    requires d > 0 && m == RoundDiv(n, d)
    ensures 2 * (d * m) - d <= 2 * n <= 2 * (d * m) + d
  {
    var q, r := n / d, n % d;
    assert n == d * q + r;
    assert d * (q + 1) == d * q + d;
  }

  /** Doubling the divisor never increases the rounded quotient. */
  lemma {:induction false} RoundDivHalves(n: nat, d: nat)
    requires d > 0
    ensures RoundDiv(n, 2 * d) <= RoundDiv(n, d)
  {
    RoundDivNear(n, d, RoundDiv(n, d));
    RoundDivNear(n, 2 * d, RoundDiv(n, 2 * d));
    NearestFalls(n, d, RoundDiv(n, d), RoundDiv(n, 2 * d));
  }

  lemma {:induction false} NearestFalls(n: nat, d: nat, m: nat, m': nat)
    requires d > 0 && 2 * n <= 2 * (d * m) + d && 2 * (2 * d * m') - 2 * d <= 2 * n
    ensures m' <= m
  {
    Reassociate(d, m');
    ProductsFall(n, d, m, m', d * m, d * m');
  }

  lemma {:induction false} Reassociate(d: nat, m: nat)
    ensures 2 * d * m == 2 * (d * m)
  {}

  lemma {:induction false} ProductsFall(n: nat, d: nat, m: nat, m': nat, p: nat, p': nat)
    requires d > 0 && p == d * m && p' == d * m' && 2 * n <= 2 * p + d && 4 * p' - 2 * d <= 2 * n
    ensures m' <= m
  {
    MulMonoIf(d, m + 1, m');
    assert d * (m + 1) == p + d;
  }

  lemma {:induction false} MulMonoIf(a: nat, b: nat, c: nat)
    ensures b <= c ==> a * b <= a * c
  {
    if b <= c { MulMono(a, b, c); }
  }

  lemma {:induction false} MulMono(a: nat, b: nat, c: nat)
    requires b <= c
    ensures a * b <= a * c
  {}

  // ---------------------------------------------------------------- block rewards

  /** Reward of an era, rounded from the exact quotient. */
  function EraReward(halvings: nat): nat
  {
    if halvings >= 64 then 0
    else if INITIAL_BLOCK_REWARD < Pow2(halvings) then 0
    else RoundDiv(INITIAL_BLOCK_REWARD, Pow2(halvings))
  }

  function BlockReward(height: nat): nat
  {
    EraReward(height / HALVING_INTERVAL)
  }

  /** Everything minted as base rewards by the first n blocks. */
  function Emitted(n: nat): nat
  {
    if n == 0 then 0 else Emitted(n - 1) + BlockReward(n - 1)
  }

  function EraTotal(k: nat): nat
  {
    if k == 0 then 0 else EraTotal(k - 1) + EraReward(k - 1)
  }

  lemma {:induction false} Pow2Grows(j: nat, k: nat)
    requires j <= k
    ensures Pow2(j) <= Pow2(k)
    decreases k
  {
    if j < k { Pow2Grows(j, k - 1); }
  }

  lemma {:induction false} EraRewardSteps(k: nat)
    ensures EraReward(k + 1) <= EraReward(k)
  {
    if k + 1 < 64 && Pow2(k + 1) <= INITIAL_BLOCK_REWARD {
      assert Pow2(k + 1) == 2 * Pow2(k);
      RoundDivHalves(INITIAL_BLOCK_REWARD, Pow2(k));
    }
  }

  lemma {:induction false} EraRewardFalls(j: nat, k: nat)
    requires j <= k
    ensures EraReward(k) <= EraReward(j)
    decreases k
  {
    if j < k {
      EraRewardFalls(j, k - 1);
      EraRewardSteps(k - 1);
    }
  }

  /** The reward never increases with height. */
  lemma {:induction false} BlockRewardNeverRises(low: nat, high: nat)
    requires low <= high
    ensures BlockReward(high) <= BlockReward(low)
  {
    assert low / HALVING_INTERVAL <= high / HALVING_INTERVAL;
    EraRewardFalls(low / HALVING_INTERVAL, high / HALVING_INTERVAL);
  }

  lemma {:induction false} EraTotalBound(k: nat)
    ensures EraTotal(k) <= 9_999_999_998
    ensures k >= 33 ==> EraTotal(k) == 9_999_999_998
  {
    if k >= 33 {
      AfterRows(k);
    } else {
      AfterRows(33);
      EraTotalGrows(k, 33);
    }
  }

  lemma {:induction false} EraTotalGrows(j: nat, k: nat)
    requires j <= k
    ensures EraTotal(j) <= EraTotal(k)
    decreases k
  {
    if j < k { EraTotalGrows(j, k - 1); }
  }

  lemma {:induction false} EraOf(n: nat, k: nat, j: nat)
    requires n == 210_000 * k + j && j < 210_000
    ensures n / 210_000 == k
  {}

  lemma {:induction false} TimesSucc(j: nat, r: nat)
    ensures (j + 1) * r == j * r + r
  {}

  /** Block by block emission, era by era: k full eras and j blocks of the next. */
  lemma {:induction false} EmittedByEra(n: nat, k: nat, j: nat)
    requires n == 210_000 * k + j && j <= 210_000
    ensures Emitted(n) == 210_000 * EraTotal(k) + j * EraReward(k)
    decreases k, j
  {
    if j > 0 {
      EmittedByEra(n - 1, k, j - 1);
      EmittedStep(n - 1, k, j - 1);
      TimesSucc(j - 1, EraReward(k));
    } else if k > 0 {
      EmittedByEra(n, k - 1, 210_000);
    }
  }

  lemma {:induction false} EmittedStep(n: nat, k: nat, j: nat)
    requires n == 210_000 * k + j && j < 210_000
    ensures Emitted(n + 1) == Emitted(n) + EraReward(k)
  {
    EraOf(n, k, j);
  }

  lemma {:induction false} PartialEra(total: nat, reward: nat, j: nat)
    requires j <= 210_000
    ensures 210_000 * total + j * reward <= 210_000 * (total + reward)
    ensures reward == 0 ==> 210_000 * total + j * reward == 210_000 * total
  {}

  lemma {:induction false} EmittedBound(n: nat, k: nat, j: nat)
    requires n == 210_000 * k + j && j < 210_000
    ensures Emitted(n) <= MAX_SUPPLY - 420_000
    ensures k >= 33 ==> Emitted(n) == MAX_SUPPLY - 420_000
  {
    EmittedByEra(n, k, j);
    EraTotalBound(k);
    EraTotalBound(k + 1);
    assert EraTotal(k + 1) == EraTotal(k) + EraReward(k);
    PartialEra(EraTotal(k), EraReward(k), j);
  }

  /** However long the chain, base rewards stop 420_000 satoshi short of the cap. */
  lemma {:induction false} EmissionStaysBelowCap(n: nat)
    ensures Emitted(n) <= MAX_SUPPLY - 420_000
    ensures n >= 33 * HALVING_INTERVAL ==> Emitted(n) == MAX_SUPPLY - 420_000
  {
    EmittedBound(n, n / 210_000, n % 210_000);
  }

  // ---------------------------------------------------------------- cumulative supply

  /** 10^8 times the smallest 53-bit mantissa of a double. */
  const MANTISSA_FLOOR: nat := 450_359_962_737_049_600_000_000

  /** n times the power of two that makes the quotient by 10^8 a 53-bit number. */
  function ScaledUp(n: nat): nat
    requires n > 0
    decreases MANTISSA_FLOOR - n
  {
    if n >= MANTISSA_FLOOR then n else ScaledUp(2 * n)
  }

  /** Half of r satoshi rounded to satoshi. Coins are doubles: half a satoshi goes the way the double
      nearest to r / 10^8 went, and to the even side when that double is exact. */
  function Halve(r: nat): (h: nat)
    ensures 2 * h - 1 <= r <= 2 * h + 1
  {
    if r % 2 == 0 then r / 2
    else
      var exact := ScaledUp(r);
      var nearest := RoundDiv(exact, SATOSHI_PER_BC) * SATOSHI_PER_BC;
      if nearest < exact || (nearest == exact && r / 2 % 2 == 0) then r / 2 else r / 2 + 1
  }

  /** The reward cumulative_supply uses for an era: it halves the rounded reward of the era before. */
  function WalkReward(k: nat): nat
  {
    if k == 0 then INITIAL_BLOCK_REWARD else Halve(WalkReward(k - 1))
  }

  /** Sum over the first n blocks, one at a time, of the era reward above. */
  function WalkEmitted(n: nat): nat
  {
    if n == 0 then 0 else WalkEmitted(n - 1) + WalkReward((n - 1) / HALVING_INTERVAL)
  }

  function WalkTotal(k: nat): nat
  {
    if k == 0 then 0 else WalkTotal(k - 1) + WalkReward(k - 1)
  }

  function CumulativeSupply(height: nat): nat
  {
    Min(WalkEmitted(height + 1), MAX_SUPPLY)
  }

  /** The sum era by era, as EmittedByEra does for the rewards that are paid. */
  lemma {:induction false} WalkByEra(n: nat, k: nat, j: nat)
    requires n == 210_000 * k + j && j <= 210_000
    ensures WalkEmitted(n) == 210_000 * WalkTotal(k) + j * WalkReward(k)
    decreases k, j
  {
    if j > 0 {
      WalkByEra(n - 1, k, j - 1);
      WalkStep(n - 1, k, j - 1);
      TimesSucc(j - 1, WalkReward(k));
    } else if k > 0 {
      WalkByEra(n, k - 1, 210_000);
    }
  }

  lemma {:induction false} WalkStep(n: nat, k: nat, j: nat)
    requires n == 210_000 * k + j && j < 210_000
    ensures WalkEmitted(n + 1) == WalkEmitted(n) + WalkReward(k)
  {
    EraOf(n, k, j);
  }

  lemma {:induction false} WalkStaysZero(m: nat, n: nat)
    requires m <= n && WalkReward(m / 210_000) == 0
    ensures WalkEmitted(n) == WalkEmitted(m)
    decreases n
  {
    if m < n {
      WalkStaysZero(m, n - 1);
      WalkRewardZero(m / 210_000, (n - 1) / 210_000);
    }
  }

  lemma {:induction false} WalkRewardZero(j: nat, k: nat)
    requires j <= k && WalkReward(j) == 0
    ensures WalkReward(k) == 0
    decreases k
  {
    if j < k { WalkRewardZero(j, k - 1); }
  }

  /** cumulative_supply: the loop takes a whole era at a time and meets the block-by-block sum. */
  method ComputeCumulativeSupply(height: nat) returns (supply: nat)
    ensures supply == CumulativeSupply(height)
  {
    var total: nat, currentReward: nat, remaining: nat := 0, INITIAL_BLOCK_REWARD, height + 1;
    ghost var era: nat, done: nat := 0, 0;
    while remaining > 0 && currentReward >= 1
      invariant done + remaining == height + 1 && total == WalkEmitted(done)
      invariant remaining > 0 ==>
          done == 210_000 * era && total == 210_000 * WalkTotal(era) && currentReward == WalkReward(era)
      decreases remaining
    {
      var blocksInEra := Min(HALVING_INTERVAL, remaining);
      WalkByEra(done + blocksInEra, era, blocksInEra);
      total := total + blocksInEra * currentReward;
      remaining := remaining - blocksInEra;
      currentReward := Halve(currentReward);
      done, era := done + blocksInEra, era + 1;
    }
    if remaining > 0 {
      EraOf(done, era, 0);
      WalkStaysZero(done, height + 1);
    }
    supply := Min(total, MAX_SUPPLY);
  }

  lemma {:induction false} WalkEmittedGrows(m: nat, n: nat)
    requires m <= n
    ensures WalkEmitted(m) <= WalkEmitted(n)
    decreases n
  {
    if m < n { WalkEmittedGrows(m, n - 1); }
  }

  /** The reported supply never falls with height and never passes the cap. */
  lemma {:induction false} CumulativeSupplyMonotone(low: nat, high: nat)
    requires low <= high
    ensures CumulativeSupply(low) <= CumulativeSupply(high) <= MAX_SUPPLY
  {
    WalkEmittedGrows(low + 1, high + 1);
  }

  // ---------------------------------------------------------------- halves of a satoshi

  lemma {:induction false} ScaledBy(n: nat, k: nat)
    requires n > 0 && MANTISSA_FLOOR <= n * Pow2(k) && (k > 0 ==> n * Pow2(k - 1) < MANTISSA_FLOOR)
    ensures ScaledUp(n) == n * Pow2(k)
    decreases k
  {
    if k > 0 {
      MulMono(n, 1, Pow2(k - 1));
      assert 2 * n * Pow2(k - 1) == n * Pow2(k);
      if k > 1 { assert 2 * n * Pow2(k - 2) == n * Pow2(k - 1); }
      ScaledBy(2 * n, k - 1);
    }
  }

  /** Half of 2 * h + 1 satoshi, from the 53-bit mantissa of the double nearest to them. */
  lemma {:induction false} Tie(h: nat, k: nat, power: nat, mantissa: nat)
    requires Pow2(k) == power && k > 0 && MANTISSA_FLOOR <= (2 * h + 1) * power < 2 * MANTISSA_FLOOR
    requires RoundDiv((2 * h + 1) * power, SATOSHI_PER_BC) == mantissa
    ensures
      var exact, nearest := (2 * h + 1) * power, mantissa * SATOSHI_PER_BC;
      Halve(2 * h + 1) == if nearest < exact || (nearest == exact && h % 2 == 0) then h else h + 1
  {
    assert (2 * h + 1) * power == 2 * ((2 * h + 1) * Pow2(k - 1));
    ScaledBy(2 * h + 1, k);
    assert (2 * h + 1) % 2 == 1 && (2 * h + 1) / 2 == h;
  }

  lemma {:induction false} Pow2Sum(j: nat, k: nat)
    ensures Pow2(j + k) == Pow2(j) * Pow2(k)
  {
    if j > 0 { Pow2Sum(j - 1, k); }
  }

  lemma {:induction false} PowerSum(j: nat, k: nat, p: nat, q: nat)
    requires Pow2(j) == p && Pow2(k) == q
    ensures Pow2(j + k) == p * q
  {
    Pow2Sum(j, k);
  }

  lemma {:induction false} Powers()
    ensures Pow2(56) == 72_057_594_037_927_936
    ensures Pow2(59) == 576_460_752_303_423_488
    ensures Pow2(64) == 18_446_744_073_709_551_616
    ensures Pow2(66) == 73_786_976_294_838_206_464
    ensures Pow2(67) == 147_573_952_589_676_412_928
    ensures Pow2(72) == 4_722_366_482_869_645_213_696
    ensures Pow2(74) == 18_889_465_931_478_580_854_784
    ensures Pow2(75) == 37_778_931_862_957_161_709_568
    ensures Pow2(77) == 151_115_727_451_828_646_838_272
    ensures Pow2(79) == 604_462_909_807_314_587_353_088
  {
    PowerSum(1, 1, 2, 2);
    PowerSum(2, 2, 4, 4);
    PowerSum(4, 4, 16, 16);
    PowerSum(8, 8, 256, 256);
    PowerSum(16, 16, 65_536, 65_536);
    PowerSum(32, 16, 4_294_967_296, 65_536);
    PowerSum(48, 8, 281_474_976_710_656, 256);
    PowerSum(56, 2, 72_057_594_037_927_936, 4);
    PowerSum(58, 1, 288_230_376_151_711_744, 2);
    PowerSum(59, 4, 576_460_752_303_423_488, 16);
    PowerSum(63, 1, 9_223_372_036_854_775_808, 2);
    PowerSum(64, 2, 18_446_744_073_709_551_616, 4);
    PowerSum(66, 1, 73_786_976_294_838_206_464, 2);
    PowerSum(67, 4, 147_573_952_589_676_412_928, 16);
    PowerSum(71, 1, 2_361_183_241_434_822_606_848, 2);
    PowerSum(72, 2, 4_722_366_482_869_645_213_696, 4);
    PowerSum(74, 1, 18_889_465_931_478_580_854_784, 2);
    PowerSum(75, 2, 37_778_931_862_957_161_709_568, 4);
    PowerSum(77, 2, 151_115_727_451_828_646_838_272, 4);
  }

  lemma {:induction false} TieOf9765625()
    ensures Halve(9_765_625) == 4_882_812
  {
    Powers();
    Tie(4_882_812, 56, 72_057_594_037_927_936, 7_036_874_417_766_400);
  }

  lemma {:induction false} TieOf1220703()
    ensures Halve(1_220_703) == 610_352
  {
    Powers();
    Tie(610_351, 59, 576_460_752_303_423_488, 7_036_873_697_190_460);
  }

  lemma {:induction false} TieOf38147()
    ensures Halve(38_147) == 19_074
  {
    Powers();
    Tie(19_073, 64, 18_446_744_073_709_551_616, 7_036_879_461_797_983);
  }

  lemma {:induction false} TieOf9537()
    ensures Halve(9_537) == 4_769
  {
    Powers();
    Tie(4_768, 66, 73_786_976_294_838_206_464, 7_037_063_929_238_720);
  }

  lemma {:induction false} TieOf4769()
    ensures Halve(4_769) == 2_384
  {
    Powers();
    Tie(2_384, 67, 147_573_952_589_676_412_928, 7_037_801_799_001_668);
  }

  lemma {:induction false} TieOf149()
    ensures Halve(149) == 74
  {
    Powers();
    Tie(74, 72, 4_722_366_482_869_645_213_696, 7_036_326_059_475_771);
  }

  lemma {:induction false} TieOf37()
    ensures Halve(37) == 19
  {
    Powers();
    Tie(18, 74, 18_889_465_931_478_580_854_784, 6_989_102_394_647_075);
  }

  lemma {:induction false} TieOf19()
    ensures Halve(19) == 10
  {
    Powers();
    Tie(9, 75, 37_778_931_862_957_161_709_568, 7_177_997_053_961_861);
  }

  lemma {:induction false} TieOf5()
    ensures Halve(5) == 2
  {
    Powers();
    Tie(2, 77, 151_115_727_451_828_646_838_272, 7_555_786_372_591_432);
  }

  lemma {:induction false} TieOf1()
    ensures Halve(1) == 1
  {
    Powers();
    Tie(0, 79, 604_462_909_807_314_587_353_088, 6_044_629_098_073_146);
  }

  // ---------------------------------------------------------------- the table of eras

  /** Per era: 2^k, the reward that is paid, what was paid before, the reward cumulative_supply uses and
      what it has summed up before. */
  datatype Table = Table(
    power: nat -> nat,
    reward: nat -> nat,
    total: nat -> nat,
    walked: nat -> nat,
    walkTotal: nat -> nat)

  ghost predicate GoesOn(t: Table, k: nat)
  {
    && t.power(k + 1) == 2 * t.power(k)
    && (k < 63 && t.power(k + 1) <= INITIAL_BLOCK_REWARD && t.power(k + 1) > 0 ==>
          t.reward(k + 1) == RoundDiv(INITIAL_BLOCK_REWARD, t.power(k + 1)))
    && t.total(k + 1) == t.total(k) + t.reward(k)
    && t.walked(k + 1) == Halve(t.walked(k)) && t.walkTotal(k + 1) == t.walkTotal(k) + t.walked(k)
  }

  /** Halving the rounded reward and rounding the exact quotient agree up to era 17; afterwards the sum
      of the halved rewards is ahead, and no era takes back more than a satoshi per block. */
  ghost predicate Ahead(t: Table, k: nat)
  {
    && (k < 18 ==> t.walked(k) == t.reward(k))
    && (k <= 18 ==> t.walkTotal(k) == t.total(k))
    && (k == 18 ==> t.walked(k) > t.reward(k))
    && (k > 18 ==> t.walkTotal(k) > t.total(k) && t.walked(k) + 1 >= t.reward(k))
    && (k < 33 ==> t.walkTotal(k) + t.walked(k) <= 10_000_000_000 && t.walked(k) > 0)
  }

  ghost predicate Row(t: Table, k: nat, power: nat, reward: nat, total: nat, walked: nat, walkTotal: nat)
  {
    && t.power(k) == power && t.reward(k) == reward && t.total(k) == total
    && t.walked(k) == walked && t.walkTotal(k) == walkTotal
    && forall i :: 0 <= i <= k ==> Ahead(t, i)
  }

  lemma {:induction false} NextRow(t: Table, k: nat, power: nat, reward: nat, total: nat, walked: nat, walkTotal: nat,
                                   reward': nat, walked': nat)
    requires Row(t, k, power, reward, total, walked, walkTotal) && GoesOn(t, k)
    requires k < 32 && 0 < 2 * power <= INITIAL_BLOCK_REWARD
    requires RoundDiv(INITIAL_BLOCK_REWARD, 2 * power) == reward' && Halve(walked) == walked'
    requires
      && (k < 17 ==> walked' == reward') && (k <= 17 ==> walkTotal + walked == total + reward)
      && (k == 17 ==> walked' > reward')
      && (k > 17 ==> walkTotal + walked > total + reward && walked' + 1 >= reward')
      && walkTotal + walked + walked' <= 10_000_000_000 && walked' > 0
    ensures Row(t, k + 1, 2 * power, reward', total + reward, walked', walkTotal + walked)
  {
    assert Ahead(t, k + 1);
  }

  lemma {:induction false} RowsTo8(t: Table)
    requires forall k :: 0 <= k < 33 ==> GoesOn(t, k)
    requires Row(t, 0, 1, 5_000_000_000, 0, 5_000_000_000, 0)
    ensures Row(t, 8, 256, 19_531_250, 9_960_937_500, 19_531_250, 9_960_937_500)
  {
    NextRow(t, 0, 1, 5_000_000_000, 0, 5_000_000_000, 0, 2_500_000_000, 2_500_000_000);
    NextRow(t, 1, 2, 2_500_000_000, 5_000_000_000, 2_500_000_000, 5_000_000_000, 1_250_000_000, 1_250_000_000);
    NextRow(t, 2, 4, 1_250_000_000, 7_500_000_000, 1_250_000_000, 7_500_000_000, 625_000_000, 625_000_000);
    NextRow(t, 3, 8, 625_000_000, 8_750_000_000, 625_000_000, 8_750_000_000, 312_500_000, 312_500_000);
    NextRow(t, 4, 16, 312_500_000, 9_375_000_000, 312_500_000, 9_375_000_000, 156_250_000, 156_250_000);
    NextRow(t, 5, 32, 156_250_000, 9_687_500_000, 156_250_000, 9_687_500_000, 78_125_000, 78_125_000);
    NextRow(t, 6, 64, 78_125_000, 9_843_750_000, 78_125_000, 9_843_750_000, 39_062_500, 39_062_500);
    NextRow(t, 7, 128, 39_062_500, 9_921_875_000, 39_062_500, 9_921_875_000, 19_531_250, 19_531_250);
  }

  lemma {:induction false} RowsTo14(t: Table)
    requires forall k :: 0 <= k < 33 ==> GoesOn(t, k)
    requires Row(t, 8, 256, 19_531_250, 9_960_937_500, 19_531_250, 9_960_937_500)
    ensures Row(t, 14, 16_384, 305_176, 9_999_389_648, 305_176, 9_999_389_648)
  {
    NextRow(t, 8, 256, 19_531_250, 9_960_937_500, 19_531_250, 9_960_937_500, 9_765_625, 9_765_625);
    TieOf9765625();
    NextRow(t, 9, 512, 9_765_625, 9_980_468_750, 9_765_625, 9_980_468_750, 4_882_812, 4_882_812);
    NextRow(t, 10, 1_024, 4_882_812, 9_990_234_375, 4_882_812, 9_990_234_375, 2_441_406, 2_441_406);
    NextRow(t, 11, 2_048, 2_441_406, 9_995_117_187, 2_441_406, 9_995_117_187, 1_220_703, 1_220_703);
    TieOf1220703();
    NextRow(t, 12, 4_096, 1_220_703, 9_997_558_593, 1_220_703, 9_997_558_593, 610_352, 610_352);
    NextRow(t, 13, 8_192, 610_352, 9_998_779_296, 610_352, 9_998_779_296, 305_176, 305_176);
  }

  lemma {:induction false} RowsTo20(t: Table)
    requires forall k :: 0 <= k < 33 ==> GoesOn(t, k)
    requires Row(t, 14, 16_384, 305_176, 9_999_389_648, 305_176, 9_999_389_648)
    ensures Row(t, 20, 1_048_576, 4_768, 9_999_990_463, 4_769, 9_999_990_464)
  {
    NextRow(t, 14, 16_384, 305_176, 9_999_389_648, 305_176, 9_999_389_648, 152_588, 152_588);
    NextRow(t, 15, 32_768, 152_588, 9_999_694_824, 152_588, 9_999_694_824, 76_294, 76_294);
    NextRow(t, 16, 65_536, 76_294, 9_999_847_412, 76_294, 9_999_847_412, 38_147, 38_147);
    TieOf38147();
    NextRow(t, 17, 131_072, 38_147, 9_999_923_706, 38_147, 9_999_923_706, 19_073, 19_074);
    NextRow(t, 18, 262_144, 19_073, 9_999_961_853, 19_074, 9_999_961_853, 9_537, 9_537);
    TieOf9537();
    NextRow(t, 19, 524_288, 9_537, 9_999_980_926, 9_537, 9_999_980_927, 4_768, 4_769);
  }

  lemma {:induction false} RowsTo26(t: Table)
    requires forall k :: 0 <= k < 33 ==> GoesOn(t, k)
    requires Row(t, 20, 1_048_576, 4_768, 9_999_990_463, 4_769, 9_999_990_464)
    ensures Row(t, 26, 67_108_864, 75, 9_999_999_850, 74, 9_999_999_852)
  {
    TieOf4769();
    NextRow(t, 20, 1_048_576, 4_768, 9_999_990_463, 4_769, 9_999_990_464, 2_384, 2_384);
    NextRow(t, 21, 2_097_152, 2_384, 9_999_995_231, 2_384, 9_999_995_233, 1_192, 1_192);
    NextRow(t, 22, 4_194_304, 1_192, 9_999_997_615, 1_192, 9_999_997_617, 596, 596);
    NextRow(t, 23, 8_388_608, 596, 9_999_998_807, 596, 9_999_998_809, 298, 298);
    NextRow(t, 24, 16_777_216, 298, 9_999_999_403, 298, 9_999_999_405, 149, 149);
    TieOf149();
    NextRow(t, 25, 33_554_432, 149, 9_999_999_701, 149, 9_999_999_703, 75, 74);
  }

  lemma {:induction false} RowsTo32(t: Table)
    requires forall k :: 0 <= k < 33 ==> GoesOn(t, k)
    requires Row(t, 26, 67_108_864, 75, 9_999_999_850, 74, 9_999_999_852)
    ensures Row(t, 32, 4_294_967_296, 1, 9_999_999_997, 1, 9_999_999_999)
  {
    NextRow(t, 26, 67_108_864, 75, 9_999_999_850, 74, 9_999_999_852, 37, 37);
    TieOf37();
    NextRow(t, 27, 134_217_728, 37, 9_999_999_925, 37, 9_999_999_926, 19, 19);
    TieOf19();
    NextRow(t, 28, 268_435_456, 19, 9_999_999_962, 19, 9_999_999_963, 9, 10);
    NextRow(t, 29, 536_870_912, 9, 9_999_999_981, 10, 9_999_999_982, 5, 5);
    TieOf5();
    NextRow(t, 30, 1_073_741_824, 5, 9_999_999_990, 5, 9_999_999_992, 2, 2);
    NextRow(t, 31, 2_147_483_648, 2, 9_999_999_995, 2, 9_999_999_997, 1, 1);
  }

  const ERAS := Table(k => Pow2(k), k => EraReward(k), k => EraTotal(k), k => WalkReward(k), k => WalkTotal(k))

  lemma {:induction false} RewardGoesOn(k: nat, power: nat, reward: nat)
    requires power == Pow2(k + 1) <= INITIAL_BLOCK_REWARD && k < 63
    requires reward == RoundDiv(INITIAL_BLOCK_REWARD, power)
    ensures EraReward(k + 1) == reward
  {}

  lemma {:induction false} ErasGoOn(k: nat)
    ensures GoesOn(ERAS, k)
  {
    if k < 63 && Pow2(k + 1) <= INITIAL_BLOCK_REWARD {
      RewardGoesOn(k, Pow2(k + 1), RoundDiv(INITIAL_BLOCK_REWARD, Pow2(k + 1)));
    }
  }

  lemma {:induction false} Eras()
    ensures Row(ERAS, 32, 4_294_967_296, 1, 9_999_999_997, 1, 9_999_999_999)
  {
    forall k | 0 <= k < 33 ensures GoesOn(ERAS, k) { ErasGoOn(k); }
    assert Row(ERAS, 0, 1, 5_000_000_000, 0, 5_000_000_000, 0);
    RowsTo8(ERAS);
    RowsTo14(ERAS);
    RowsTo20(ERAS);
    RowsTo26(ERAS);
    RowsTo32(ERAS);
  }

  /** The last row goes on for ever: nothing is paid any more, and cumulative_supply keeps counting one
      satoshi for every block. */
  lemma {:induction false} AfterRows(k: nat)
    requires k >= 33
    ensures EraReward(k) == 0 && EraTotal(k) == 9_999_999_998
    ensures WalkReward(k) == 1 && WalkTotal(k) == 10_000_000_000 + (k - 33)
  {
    TieOf1();
    if k == 33 {
      Eras();
      ErasGoOn(32);
      assert Pow2(k) == 8_589_934_592;
    } else {
      AfterRows(k - 1);
      EraRewardSteps(k - 1);
    }
  }

  lemma {:induction false} AlwaysAhead(k: nat)
    ensures Ahead(ERAS, k)
  {
    if k >= 33 {
      AfterRows(k);
    } else {
      Eras();
    }
  }

  lemma {:induction false} WalkMeetsEmission(n: nat, k: nat, j: nat)
    requires n == 210_000 * k + j && j < 210_000
    ensures WalkEmitted(n) == Emitted(n) <==> k < 18 || (k == 18 && j == 0)
  {
    WalkByEra(n, k, j);
    EmittedByEra(n, k, j);
    AlwaysAhead(k);
    AheadInside(WalkTotal(k), WalkReward(k), EraTotal(k), EraReward(k), j);
  }

  lemma {:induction false} AheadInside(wTotal: nat, w: nat, eTotal: nat, e: nat, j: nat)
    requires j < 210_000
    ensures wTotal > eTotal && w + 1 >= e ==> 210_000 * wTotal + j * w > 210_000 * eTotal + j * e
    ensures wTotal == eTotal && w > e && j > 0 ==> 210_000 * wTotal + j * w > 210_000 * eTotal + j * e
    ensures j == 0 ==> j * w == j * e
  {
    if w + 1 >= e {
      assert j * (w + 1) == j * w + j;
      MulMono(j, e, w + 1);
    }
    if w > e && j > 0 {
      assert j * (e + 1) == j * e + j;
      MulMono(j, e + 1, w);
    }
  }

  /** Exactly when cumulative_supply is the sum of the block rewards: below era 18. From height 3_780_000
      on it reports too much, because it halves a reward that was already rounded. */
  lemma {:induction false} CumulativeSupplyExact(height: nat)
    ensures CumulativeSupply(height) == Emitted(height + 1) <==> height < 18 * HALVING_INTERVAL
  {
    WalkMeetsEmission(height + 1, (height + 1) / 210_000, (height + 1) % 210_000);
    EmissionStaysBelowCap(height + 1);
  }

  lemma {:induction false} WalkBelowCap(n: nat, k: nat, j: nat)
    requires n == 210_000 * k + j && j < 210_000
    ensures WalkEmitted(n) < MAX_SUPPLY <==> k < 33
  {
    WalkByEra(n, k, j);
    AlwaysAhead(k);
    if k >= 33 {
      AfterRows(k);
    } else {
      StrictlyInside(WalkTotal(k), WalkReward(k), j);
    }
  }

  lemma {:induction false} StrictlyInside(total: nat, reward: nat, j: nat)
    requires j < 210_000 && reward > 0
    ensures 210_000 * total + j * reward < 210_000 * (total + reward)
  {
    MulMono(reward, j + 1, 210_000);
  }

  /** With the last block of era 32 it reports the whole cap, 420_000 satoshi more than will ever be
      paid. */
  lemma {:induction false} CumulativeSupplyReachesCap(height: nat)
    ensures CumulativeSupply(height) == MAX_SUPPLY <==> height + 1 >= 33 * HALVING_INTERVAL
  {
    WalkBelowCap(height + 1, (height + 1) / 210_000, (height + 1) % 210_000);
  }

  // ---------------------------------------------------------------- supply headroom

  function SupplyHeadroom(currentSupply: int): (room: int)
    ensures room >= 0
    ensures currentSupply <= MAX_SUPPLY ==> currentSupply + room == MAX_SUPPLY
    ensures currentSupply > MAX_SUPPLY ==> room == 0
  {
    Max(0, MAX_SUPPLY - currentSupply)
  }

  // ---------------------------------------------------------------- difficulty

  /** Python's int() on a float: towards zero. */
  function Truncate(x: real): int
  {
    if x >= 0.0 then x.Floor else -((-x).Floor)
  }

  /** 2016 blocks of 600 seconds. */
  const EXPECTED_TIME: real := 1_209_600.0

  /** Length of the window after the four-fold clamp. */
  function ClampedTime(start: real, end: real): (t: real)
    ensures 302_400.0 <= t <= 4_838_400.0
  {
    var actual := MaxReal(1.0, end - start);
    MinReal(MaxReal(actual, EXPECTED_TIME / RETARGET_CLAMP), EXPECTED_TIME * RETARGET_CLAMP)
  }

  function Scale(current: int, time: real): int
  {
    Truncate(current as real * time / EXPECTED_TIME)
  }

  function NextDifficulty(current: int, start: real, end: real): (d: int)
    ensures MIN_DIFFICULTY <= d <= MAX_DIFFICULTY
  {
    Max(MIN_DIFFICULTY, Min(MAX_DIFFICULTY, Scale(current, ClampedTime(start, end))))
  }

  lemma {:induction false} RealScaleBounds(x: real, t: real)
    requires x >= 0.0 && 302_400.0 <= t <= 4_838_400.0
    ensures 0.25 * x <= x * t / EXPECTED_TIME <= 4.0 * x
  {
    var low, high := t - 302_400.0, 4_838_400.0 - t;
    ProductNonNegative(x, low);
    ProductNonNegative(x, high);
    assert x * t == x * low + 302_400.0 * x;
    assert x * t == 4_838_400.0 * x - x * high;
  }

  lemma {:induction false} ProductNonNegative(x: real, y: real)
    requires x >= 0.0 && y >= 0.0
    ensures x * y >= 0.0
  {}

  lemma {:induction false} ScaleBounds(c: nat, t: real)
    requires 302_400.0 <= t <= 4_838_400.0
    ensures c / 4 <= Scale(c, t) <= 4 * c
  {
    RealScaleBounds(c as real, t);
  }

  /** One retarget moves the difficulty by at most a factor four, apart from the floor. */
  lemma {:induction false} RetargetIsClamped(current: int, start: real, end: real)
    requires MIN_DIFFICULTY <= current <= MAX_DIFFICULTY
    ensures Max(MIN_DIFFICULTY, current / 4) <= NextDifficulty(current, start, end) <= Min(MAX_DIFFICULTY, 4 * current)
  {
    ScaleBounds(current, ClampedTime(start, end));
  }

  /** A slower window never lowers the next difficulty: the opposite of Bitcoin's direction. */
  lemma {:induction false} RetargetMonotone(current: int, start: real, end: real, later: real)
    requires current >= 0 && end <= later
    ensures NextDifficulty(current, start, end) <= NextDifficulty(current, start, later)
  {
    var t, t' := ClampedTime(start, end), ClampedTime(start, later);
    ScaleMonotone(current, t, t');
  }

  lemma {:induction false} ScaleMonotone(c: nat, t: real, t': real)
    requires 0.0 <= t <= t'
    ensures Scale(c, t) <= Scale(c, t')
  {}

  /** And it does raise it: a window that took twice the expected time doubles the difficulty, and one that
      took half the time halves it. */
  lemma {:induction false} RetargetFollowsTime(current: int, start: real)
    requires MIN_DIFFICULTY <= current && 2 * current <= MAX_DIFFICULTY
    ensures NextDifficulty(current, start, start + 2.0 * EXPECTED_TIME) == 2 * current
    ensures NextDifficulty(2 * current, start, start + EXPECTED_TIME / 2.0) == current
  {}

  /** In between it is proportional: inside the clamp and the bounds the new difficulty is the old one times
      the elapsed over the expected time, cut to a whole number. */
  lemma {:induction false} RetargetIsProportional(current: nat, start: real, end: real)
    requires EXPECTED_TIME / 4.0 <= end - start <= EXPECTED_TIME * 4.0
    requires MIN_DIFFICULTY as real * EXPECTED_TIME <= current as real * (end - start)
    requires current as real * (end - start) <= MAX_DIFFICULTY as real * EXPECTED_TIME
    ensures
      var d, t := NextDifficulty(current, start, end), end - start;
      d as real * 1_209_600.0 <= current as real * t < (d + 1) as real * 1_209_600.0
  {
    CutDown(current as real * (end - start));
  }

  lemma {:induction false} CutDown(x: real)
    requires MIN_DIFFICULTY as real * EXPECTED_TIME <= x <= MAX_DIFFICULTY as real * EXPECTED_TIME
    ensures
      var d := Truncate(x / EXPECTED_TIME);
      MIN_DIFFICULTY <= d <= MAX_DIFFICULTY && d as real * EXPECTED_TIME <= x < (d + 1) as real * EXPECTED_TIME
  {}

  /** A window of exactly the target length keeps the difficulty. */
  lemma {:induction false} RetargetSteady(current: int, start: real)
    requires MIN_DIFFICULTY <= current <= MAX_DIFFICULTY
    ensures NextDifficulty(current, start, start + EXPECTED_TIME) == current
  {}
}

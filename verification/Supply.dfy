/** The money supply: how much is ever minted, and that no chain holds more. */
module Supply {
  import opened Basics
  import opened Datatypes
  import opened Balances
  import opened Consensus
  import opened Totals
  import opened BlockEffects
  import opened ChainRules

  /** The sum of the subsidies of the first `n` blocks. */
  ghost function SubsidySum(n: nat): nat {
    if n == 0 then 0 else SubsidySum(n - 1) + GetBlockSubsidy(n - 1)
  }

  /** What a block earns in era `k`: half of the era before, rounded down. */
  ghost function EraSubsidy(k: nat): nat {
    if k == 0 then INITIAL_SUBSIDY else EraSubsidy(k - 1) / 2
  }

  lemma {:induction false} EraSubsidyIsQuotient(k: nat)
    ensures EraSubsidy(k) == INITIAL_SUBSIDY / Pow2(k)
  {
    if k > 0 {
      EraSubsidyIsQuotient(k - 1);
      HalfOfQuotient(INITIAL_SUBSIDY, Pow2(k - 1));
    }
  }

  lemma HalfOfQuotient(a: nat, p: nat)
    requires p > 0
    ensures (a / p) / 2 == a / (2 * p)
  {
    var q, r := a / p, a % p;
    assert a == q * p + r;
    var h, odd := q / 2, q % 2;
    Doubled(h, odd, p);
    DivModUnique(a, 2 * p, h, odd * p + r);
  }

  lemma Doubled(h: nat, odd: nat, p: nat)
    requires odd < 2
    ensures (2 * h + odd) * p == h * (2 * p) + odd * p
    ensures odd * p <= p
  {
  }

  lemma {:induction false} PastTheLastEra(k: nat)
    requires k >= 30
    ensures Pow2(k) > 1_000_000_000
  {
    if k == 30 {
      assert Pow2(10) == 1_024;
      assert Pow2(20) == 1_048_576;
    } else {
      PastTheLastEra(k - 1);
    }
  }

  /** At every height the subsidy is ten coins, halved once for every 1,050,000 blocks and rounded down. */
  lemma SubsidyExactly(height: nat)
    ensures GetBlockSubsidy(height) == 1_000_000_000 / Pow2(height / 1_050_000)
  {
    hide Pow2;
    var halvings := height / 1_050_000;
    if halvings >= 64 {
      PastTheLastEra(halvings);
    }
  }

  /** The sum of one block's subsidy over the first `k` eras. */
  ghost function EraSum(k: nat): nat {
    if k == 0 then 0 else EraSum(k - 1) + EraSubsidy(k - 1)
  }

  lemma SubsidyInEra(k: nat, r: nat)
    requires k <= 31 && r < SUBSIDY_HALVING_INTERVAL
    ensures GetBlockSubsidy(k * SUBSIDY_HALVING_INTERVAL + r) == EraSubsidy(k)
  {
    assert (k * SUBSIDY_HALVING_INTERVAL + r) / SUBSIDY_HALVING_INTERVAL == k;
    EraSubsidyIsQuotient(k);
  }

  lemma MulStep(r: nat, s: nat)
    requires r > 0
    ensures r * s == (r - 1) * s + s
  {
  }

  lemma {:induction false} SumWithinEra(k: nat, r: nat)
    requires k <= 31 && r <= SUBSIDY_HALVING_INTERVAL
    ensures SubsidySum(k * SUBSIDY_HALVING_INTERVAL + r)
         == SubsidySum(k * SUBSIDY_HALVING_INTERVAL) + r * EraSubsidy(k)
    decreases r
  {
    hide EraSubsidy, GetBlockSubsidy;
    if r > 0 {
      SumWithinEra(k, r - 1);
      SubsidyInEra(k, r - 1);
      MulStep(r, EraSubsidy(k));
    }
  }

  lemma {:induction false} SumOfEras(k: nat)
    requires k <= 31
    ensures SubsidySum(k * SUBSIDY_HALVING_INTERVAL) == SUBSIDY_HALVING_INTERVAL * EraSum(k)
  {
    hide EraSubsidy, GetBlockSubsidy;
    if k > 0 {
      SumOfEras(k - 1);
      SumWithinEra(k - 1, SUBSIDY_HALVING_INTERVAL);
      assert (k - 1) * SUBSIDY_HALVING_INTERVAL + SUBSIDY_HALVING_INTERVAL == k * SUBSIDY_HALVING_INTERVAL;
    }
  }

  lemma ThreeEras(k: nat, s: nat, sum: nat)
    requires EraSubsidy(k) == s && EraSum(k) == sum
    ensures EraSubsidy(k + 3) == s / 8 && EraSum(k + 3) == sum + s + s / 2 + s / 4
  {
    assert EraSubsidy(k + 1) == s / 2 && EraSum(k + 1) == sum + s;
    assert EraSubsidy(k + 2) == s / 4 && EraSum(k + 2) == sum + s + s / 2;
  }

  lemma FirstEra()
    ensures EraSubsidy(0) == INITIAL_SUBSIDY && EraSum(0) == 0
  {
  }

  lemma LastEra()
    requires EraSubsidy(27) == 7
    ensures EraSubsidy(29) == 1
  {
    assert EraSubsidy(28) == 3;
  }

  /** Thirty eras pay out something, and together exactly the stated maximum. */
  lemma ThirtyEras()
    ensures SUBSIDY_HALVING_INTERVAL * EraSum(30) == MAX_SASHIMI
    ensures EraSubsidy(29) == 1 && EraSubsidy(30) == 0
  {
    hide EraSubsidy, EraSum;
    FirstEra();
    ThreeEras(0, 1_000_000_000, 0);
    ThreeEras(3, 125_000_000, 1_750_000_000);
    ThreeEras(6, 15_625_000, 1_968_750_000);
    ThreeEras(9, 1_953_125, 1_996_093_750);
    ThreeEras(12, 244_140, 1_999_511_718);
    ThreeEras(15, 30_517, 1_999_938_963);
    ThreeEras(18, 3_814, 1_999_992_367);
    ThreeEras(21, 476, 1_999_999_041);
    ThreeEras(24, 59, 1_999_999_874);
    ThreeEras(27, 7, 1_999_999_976);
    LastEra();
  }

  lemma {:induction false} EraSubsidyMonotone(a: nat, b: nat)
    requires a <= b
    ensures EraSubsidy(b) <= EraSubsidy(a)
  {
    if a < b {
      EraSubsidyMonotone(a, b - 1);
    }
  }

  /** The subsidy is positive exactly in the first thirty eras. */
  lemma SubsidyPositive(height: nat)
    ensures GetBlockSubsidy(height) > 0 <==> height < 30 * SUBSIDY_HALVING_INTERVAL
  {
    var k := height / SUBSIDY_HALVING_INTERVAL;
    ThirtyEras();
    EraSubsidyIsQuotient(k);
    if k < 30 {
      EraSubsidyMonotone(k, 29);
    } else {
      EraSubsidyMonotone(30, k);
    }
  }

  lemma {:induction false} SubsidySumMonotone(m: nat, n: nat)
    requires m <= n
    ensures SubsidySum(m) <= SubsidySum(n)
    ensures m < n && m < 30 * SUBSIDY_HALVING_INTERVAL ==> SubsidySum(m) < SubsidySum(n)
    ensures m >= 30 * SUBSIDY_HALVING_INTERVAL ==> SubsidySum(m) == SubsidySum(n)
    decreases n - m
  {
    if m < n {
      SubsidyPositive(m);
      SubsidySumMonotone(m + 1, n);
    }
  }

  /** However many blocks there are, the subsidies sum to at most MAX_SASHIMI, and reach it exactly from
      height 31_500_000 on. */
  lemma SubsidySumBound(n: nat)
    ensures SubsidySum(n) <= MAX_SASHIMI
    ensures SubsidySum(n) == MAX_SASHIMI <==> n >= 31_500_000
  {
    hide SubsidySum, EraSum, EraSubsidy;
    SumOfEras(30);
    ThirtyEras();
    if n >= 31_500_000 {
      SubsidySumMonotone(31_500_000, n);
    } else {
      SubsidySumMonotone(n, 31_500_000);
    }
  }

  /** A block adds at most its subsidy. */
  lemma BlockSupply(u: Utxo, height: nat, b: Block)
    requires TransactionsOk(u, height, b.transactions) && AppliedBlock(u, b).Ok?
    ensures Total(AppliedBlock(u, b).value) <= Total(u) + GetBlockSubsidy(height)
  {
    hide Total, AppliedBlock, GetBlockSubsidy, GetBlockFees, NonCoinbaseInUtxo, Spendable, OutputsValue;
    AppliedBlockValue(u, b);
  }

  /** No valid chain holds more unspent value than its blocks' subsidies; nothing is assumed of the hashes. */
  lemma {:induction false} ChainSupply(chain: seq<Block>)
    requires ValidChain(chain)
    ensures Replayed(chain).Ok? && Total(Replayed(chain).value) <= SubsidySum(|chain|)
    decreases |chain|
  {
    hide GenesisOk, ExtensionOk, TransactionsOk, AppliedBlock, Replayed, Total, GetBlockSubsidy;
    var before, b := chain[..|chain| - 1], chain[|chain| - 1];
    LastBlockOk(chain);
    BlockSupply(Replayed(before).value, |before|, b);
    if before == [] {
      NothingReplayed();
    } else {
      ChainSupply(before);
    }
  }

  lemma NothingReplayed()
    ensures Replayed([]) == Ok(map[]) && Total(map[]) == 0
  {
  }

  lemma ChainSupplyCap(chain: seq<Block>)
    requires ValidChain(chain)
    ensures Replayed(chain).Ok? && Total(Replayed(chain).value) <= SubsidySum(|chain|) <= MAX_SASHIMI
  {
    hide ValidChain, Replayed, Total, SubsidySum;
    ChainSupply(chain);
    SubsidySumBound(|chain|);
  }
}

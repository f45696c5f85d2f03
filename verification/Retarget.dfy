/** Retargeting along a valid chain: always defined, bounded on both sides, constant between readjustments. */
module Retarget {
  import opened Basics
  import opened Crypto
  import opened Datatypes
  import opened Chains
  import opened CoinStates
  import opened Consensus
  import opened ChainRules
  import opened Ledger

  lemma ExtensionAt(chain: seq<Block>, i: nat)
    requires ValidChain(chain) && 1 <= i < |chain|
    ensures chain[i].Timestamp() > chain[i - 1].Timestamp()
    ensures i % BLOCKS_BETWEEN_TARGET_READJUSTMENT != 0 ==> chain[i].Target() == chain[i - 1].Target()
  {
    hide ExtensionOk, GenesisOk;
    assert ExtensionOk(chain[..i], chain[i]);
    ExtensionOrder(chain[..i], chain[i]);
  }

  lemma ExtensionOrder(chain: seq<Block>, b: Block)
    requires chain != [] && ExtensionOk(chain, b)
    ensures b.Timestamp() > chain[|chain| - 1].Timestamp()
    ensures |chain| % BLOCKS_BETWEEN_TARGET_READJUSTMENT != 0 ==> b.Target() == chain[|chain| - 1].Target()
  {
  }

  /** Time passes by at least a second a block. */
  lemma {:induction false} TimestampsIncrease(chain: seq<Block>, i: nat, j: nat)
    requires ValidChain(chain) && i <= j < |chain|
    ensures chain[j].Timestamp() >= chain[i].Timestamp() + (j - i)
    decreases j - i
  {
    hide ValidChain;
    if i < j {
      TimestampsIncrease(chain, i, j - 1);
      ExtensionAt(chain, j);
    }
  }

  /** Heights `a` and `b` belong to one readjustment interval: no multiple of its length lies in between. */
  ghost predicate SameInterval(a: nat, b: nat) {
    forall h | a < h <= b :: h % BLOCKS_BETWEEN_TARGET_READJUSTMENT != 0
  }

  lemma {:induction false} TargetConstantBetweenReadjustments(chain: seq<Block>, i: nat, j: nat)
    requires ValidChain(chain) && i <= j < |chain| && SameInterval(i, j)
    ensures chain[j].Target() == chain[i].Target()
    decreases j - i
  {
    hide ValidChain;
    if i < j {
      TargetConstantBetweenReadjustments(chain, i, j - 1);
      ExtensionAt(chain, j);
    }
  }

  // ----- the new target

  lemma ScaledFloor(former: nat, elapsed: nat)
    requires elapsed >= BLOCKS_BETWEEN_TARGET_READJUSTMENT
    ensures former * elapsed / DESIRED_TARGET_READJUSTMENT_TIMESPAN >= former / 120
  {
    var q := former / 120;
    MulMonotone(120 * q, former, elapsed);
    LeastShare(q, elapsed);
    QuotientAtLeast(former * elapsed, DESIRED_TARGET_READJUSTMENT_TIMESPAN, q);
  }

  lemma LeastShare(q: nat, elapsed: nat)
    requires elapsed >= BLOCKS_BETWEEN_TARGET_READJUSTMENT
    ensures (120 * q) * elapsed >= q * DESIRED_TARGET_READJUSTMENT_TIMESPAN
  {
    MulMonotone(BLOCKS_BETWEEN_TARGET_READJUSTMENT, elapsed, 120 * q);
  }

  lemma QuotientAtLeast(a: nat, d: nat, q: nat)
    requires d > 0 && a >= q * d
    ensures a / d >= q
  {
    if a / d < q {
      MulMonotone(a / d + 1, q, d);
    }
  }

  /** As numbers: `next` is `former` scaled by the time that passed, never below a 120th, capped at 32 bytes. */
  ghost predicate Rescaled(former: nat, elapsed: nat, next: nat) {
    && former / 120 <= next < Pow256(32)
    && next == Min(former * elapsed / DESIRED_TARGET_READJUSTMENT_TIMESPAN, Pow256(32) - 1)
  }

  lemma NewTargetBounds(previous: Hash, elapsed: nat)
    requires elapsed >= BLOCKS_BETWEEN_TARGET_READJUSTMENT
    ensures CalculateNewTarget(previous, elapsed).Ok?
    ensures Rescaled(FromBigEndian(previous), elapsed, FromBigEndian(CalculateNewTarget(previous, elapsed).value))
  {
    hide FromBigEndian, BigEndian, Pow256;
    var former := FromBigEndian(previous);
    ScaledFloor(former, elapsed);
    var wanted := former * elapsed / DESIRED_TARGET_READJUSTMENT_TIMESPAN;
    var kept := if wanted > Pow256(32) - 1 then Pow256(32) - 1 else wanted;
    BigEndianRoundTrip(kept, 32);
    assert former / 120 <= former;
  }

  lemma IntervalStart(cs: CoinState, p: Hash, timestamp: nat) returns (start: nat, elapsed: nat)
    requires LedgerOk(cs) && p in cs.blockByHash && timestamp > cs.blockByHash[p].Timestamp()
    requires (cs.blockByHash[p].Height() + 1) % BLOCKS_BETWEEN_TARGET_READJUSTMENT == 0
    ensures start == cs.blockByHash[p].Height() + 1 - BLOCKS_BETWEEN_TARGET_READJUSTMENT
    ensures p in cs.heightsByHash && start in cs.heightsByHash[p]
    ensures elapsed == timestamp - cs.heightsByHash[p][start].Timestamp() >= BLOCKS_BETWEEN_TARGET_READJUSTMENT
    ensures CalcTarget(cs, cs.blockByHash[p].Height() + 1, timestamp, cs.blockByHash[p])
         == CalculateNewTarget(cs.blockByHash[p].Target(), elapsed)
  {
    hide *;
    EntryParts(cs, p);
    CalcTargetOnChain(cs, p, timestamp);
    start, elapsed := ElapsedOnChain(ChainAt(cs.blockByHash, p), timestamp);
  }

  lemma ElapsedOnChain(chain: seq<Block>, timestamp: nat) returns (start: nat, elapsed: nat)
    requires ValidChain(chain) && chain != [] && timestamp > chain[|chain| - 1].Timestamp()
    requires |chain| % BLOCKS_BETWEEN_TARGET_READJUSTMENT == 0
    ensures start == |chain| - BLOCKS_BETWEEN_TARGET_READJUSTMENT
    ensures start in PathMap(chain) && PathMap(chain)[start] == chain[start]
    ensures elapsed == timestamp - chain[start].Timestamp() >= BLOCKS_BETWEEN_TARGET_READJUSTMENT
  {
    hide ValidChain;
    FirstReadjustment(|chain|);
    start := |chain| - BLOCKS_BETWEEN_TARGET_READJUSTMENT;
    TimestampsIncrease(chain, start, |chain| - 1);
    elapsed := timestamp - chain[start].Timestamp();
  }

  /** At every readjustment height on top of a stored block the block that starts the interval is found, at least
      as many seconds ago as there were blocks, and the new target exists and is bounded on both sides. */
  lemma RetargetIsTotalAndBounded(cs: CoinState, p: Hash, timestamp: nat) returns (start: nat, elapsed: nat)
    requires LedgerOk(cs) && p in cs.blockByHash && timestamp > cs.blockByHash[p].Timestamp()
    requires (cs.blockByHash[p].Height() + 1) % BLOCKS_BETWEEN_TARGET_READJUSTMENT == 0
    ensures start == cs.blockByHash[p].Height() + 1 - BLOCKS_BETWEEN_TARGET_READJUSTMENT
    ensures p in cs.heightsByHash && start in cs.heightsByHash[p]
    ensures elapsed == timestamp - cs.heightsByHash[p][start].Timestamp() >= BLOCKS_BETWEEN_TARGET_READJUSTMENT
    ensures CalcTarget(cs, cs.blockByHash[p].Height() + 1, timestamp, cs.blockByHash[p]).Ok?
    ensures Rescaled(FromBigEndian(cs.blockByHash[p].Target()), elapsed,
              FromBigEndian(CalcTarget(cs, cs.blockByHash[p].Height() + 1, timestamp, cs.blockByHash[p]).value))
  {
    hide *;
    start, elapsed := IntervalStart(cs, p, timestamp);
    NewTargetBounds(cs.blockByHash[p].Target(), elapsed);
  }

  /** The check `hash >= target` on byte strings is the comparison of the numbers. */
  lemma ProofOfWorkIsNumeric(b: Block, now: int)
    ensures HeaderByItself(b, now).Ok? <==>
            FromBigEndian(BlockHash(b)) < FromBigEndian(b.Target()) && b.Timestamp() <= now + MAX_FUTURE_BLOCK_TIME
    ensures HeaderByItself(b, now) == Err(ValidatePOWError) <==>
            FromBigEndian(BlockHash(b)) >= FromBigEndian(b.Target())
  {
    hide BlockHash;
    LexLessIsNumeric(BlockHash(b), b.Target());
  }
}

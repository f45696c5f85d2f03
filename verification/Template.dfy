/** The block a miner assembles from the head and the pool passes validation on top of that head. Transactions are
    hashed as the encoder writes them; for hashes cached from other spellings see `Canonical.ForeignHashesRefused`. */
module Template {
  import opened Basics
  import opened Crypto
  import opened Serialization
  import opened Datatypes
  import opened Codecs
  import opened Balances
  import opened Chains
  import opened CoinStates
  import opened Consensus
  import opened Pow
  import opened Totals
  import opened BlockEffects
  import opened Supply
  import opened History
  import opened Ledger
  import opened Retarget
  import opened Runs
  import opened Spends
  import opened Managers

  // ----- the fees of a pool

  lemma {:induction false} FeesAreEarned(u: Utxo, ts: seq<Transaction>)
    requires forall t | t in ts :: NonCoinbaseInUtxo(t, u).Ok?
    ensures GetBlockFees(ts, u).Ok? && GetBlockFees(ts, u).value >= 0
    decreases |ts|
  {
    hide ClaimedValue, OutputsValue, Claims;
    if ts != [] {
      assert NonCoinbaseInUtxo(ts[0], u).Ok?;
      ClaimedFrom(ts[0], u, 0);
      assert ts[0].inputs[0..] == ts[0].inputs;
      FeesAreEarned(u, ts[1..]);
    }
  }

  lemma FeesAreCovered(u: Utxo, ts: seq<Transaction>)
    requires Spendable(u, ts) && AllCountable(ts)
    ensures GetBlockFees(ts, u).Ok? && GetBlockFees(ts, u).value <= Total(u)
  {
    AppliedRestSucceeds(u, ts);
    assert Only(u, {}) == map[] && Total(map[]) == 0;
    AppliedRestAccounted(u, u, {}, 0, u, ts);
  }

  lemma PoolIsSpendable(u: Utxo, pool: seq<Transaction>)
    requires SoundPool(pool) && forall t | t in pool :: NonCoinbaseInUtxo(t, u).Ok?
    ensures Spendable(u, pool) && AllCountable(pool)
  {
    hide NonCoinbaseInUtxo, References, EncTransaction;
    ReferencesUnspent(u, pool);
    forall t | t in pool ensures Countable(t) {
      assert NonCoinbaseByItself(t).Ok?;
      OutputsFitEncoding(t);
    }
  }

  /** What the coinbase would pay is within the money supply, so it fits its 64-bit field. */
  lemma CoinbaseFits(cs: CoinState, pool: seq<Transaction>)
    requires LedgerOk(cs) && PoolOk(cs, pool)
    ensures var h := cs.current.value;
            && h in cs.utxoByHash && GetBlockFees(pool, cs.utxoByHash[h]).Ok?
            && 0 <= GetBlockSubsidy(cs.blockByHash[h].Height() + 1) + GetBlockFees(pool, cs.utxoByHash[h]).value
                 <= MAX_SASHIMI
  {
    hide NonCoinbaseInUtxo, GetBlockFees, GetBlockSubsidy, Total, ChainAt, EntryOk, WellFormedTree, SoundPool;
    var h := cs.current.value;
    var u, height := cs.utxoByHash[h], cs.blockByHash[h].Height() + 1;
    PoolInUtxo(cs, pool);
    SupplyIsBounded(cs, h);
    PoolIsSpendable(u, pool);
    FeesAreEarned(u, pool);
    FeesAreCovered(u, pool);
    SubsidySumBound(height + 1);
    assert SubsidySum(height + 1) == SubsidySum(height) + GetBlockSubsidy(height);
  }

  lemma PoolInUtxo(cs: CoinState, pool: seq<Transaction>)
    requires cs.current.Some? && PoolOk(cs, pool) && cs.current.value in cs.utxoByHash
    ensures SoundPool(pool) && forall t | t in pool :: NonCoinbaseInUtxo(t, cs.utxoByHash[cs.current.value]).Ok?
  {
    hide NonCoinbaseInUtxo, SoundPool;
    forall t | t in pool ensures NonCoinbaseInUtxo(t, cs.utxoByHash[cs.current.value]).Ok? {
      assert InHeadState(t, cs).Ok?;
    }
  }

  // ----- the header of the template

  lemma TargetExists(cs: CoinState, p: Hash, timestamp: nat)
    requires LedgerOk(cs) && p in cs.blockByHash && timestamp > cs.blockByHash[p].Timestamp()
    ensures CalcTarget(cs, cs.blockByHash[p].Height() + 1, timestamp, cs.blockByHash[p]).Ok?
  {
    hide LedgerOk, CalculateNewTarget, BlockHash;
    if (cs.blockByHash[p].Height() + 1) % BLOCKS_BETWEEN_TARGET_READJUSTMENT == 0 {
      var _, _ := RetargetIsTotalAndBounded(cs, p, timestamp);
    }
  }

  lemma SummaryBuilt(cs: CoinState, ts: seq<Transaction>, timestamp: u32, nonce: u32)
    requires LedgerOk(cs) && ts != [] && timestamp > cs.blockByHash[cs.current.value].Timestamp()
    ensures ConstructMinableSummary(cs, ts, timestamp, nonce).Ok?
    ensures var s := ConstructMinableSummary(cs, ts, timestamp, nonce).value;
            && s.height == cs.blockByHash[cs.current.value].Height() + 1 && s.previousHash == cs.current.value
            && s.merkleRoot == CalcMerkleRootHash(ts) && s.timestamp == timestamp && s.nonce == nonce
            && SummaryInCoinstate(s, cs).Ok?
  {
    hide CalcTarget, CalcMerkleRootHash, WellFormedTree, EntryOk, Childless;
    TargetExists(cs, cs.current.value, timestamp);
  }

  lemma EvidenceBuilt(cs: CoinState, s: BlockSummary, height: nat, ts: seq<Transaction>)
    requires LedgerOk(cs) && s.previousHash in cs.blockByHash
    requires height == cs.blockByHash[s.previousHash].Height() + 1 < Pow256(8)
    ensures ConstructPowEvidence(cs, s, height, ts).Ok?
  {
    hide Pow256, SelectSlices, LedgerOk, EncSummary, EncList, EvidenceHash, ChainAt;
    var summaryHash := ConstructSummaryHash(s, height).value;
    IndexesAreReplays(cs, s.previousHash);
    SamplingIsTotal(summaryHash, height, cs.heightsByHash[s.previousHash], CHAIN_SAMPLE_COUNT, CHAIN_SAMPLE_SIZE);
  }

  // ----- the template

  lemma CoinbaseBuilt(cs: CoinState, pool: seq<Transaction>, data: Payload, minerPublicKey: PublicKey)
    returns (coinbase: Transaction)
    requires LedgerOk(cs) && PoolOk(cs, pool) && cs.blockByHash[cs.current.value].Height() < 0xFFFF_FFFF
    ensures cs.current.value in cs.utxoByHash
    ensures var u, height := cs.utxoByHash[cs.current.value], cs.blockByHash[cs.current.value].Height() + 1;
            && ConstructCoinbaseTransaction(height, pool, u, data, minerPublicKey) == Ok(coinbase)
            && GetBlockFees(pool, u).Ok?
            && OutputsValue(coinbase.outputs) == GetBlockFees(pool, u).value + GetBlockSubsidy(height)
            && PaysMiner(coinbase, minerPublicKey, GetBlockSubsidy(height) + GetBlockFees(pool, u).value)
            && |coinbase.inputs| == 1 && coinbase.inputs[0] == Input(THIN_AIR, CoinbaseData(height, data))
  {
    hide GetBlockFees, GetBlockSubsidy, PoolOk, EntryOk, WellFormedTree, Childless;
    var u, height := cs.utxoByHash[cs.current.value], cs.blockByHash[cs.current.value].Height() + 1;
    CoinbaseFits(cs, pool);
    coinbase := ConstructCoinbaseTransaction(height, pool, u, data, minerPublicKey).value;
    assert coinbase.outputs[1..] == [];
  }

  /** The state and pool allow a template with this timestamp and height. */
  ghost predicate Minable(cs: CoinState, pool: seq<Transaction>, timestamp: u32) {
    && LedgerOk(cs) && PoolOk(cs, pool)
    && timestamp > cs.blockByHash[cs.current.value].Timestamp()
    && cs.blockByHash[cs.current.value].Height() < 0xFFFF_FFFF
  }

  /** One output, of this value, to the miner. */
  ghost predicate PaysMiner(coinbase: Transaction, minerPublicKey: PublicKey, value: int) {
    && |coinbase.outputs| == 1
    && coinbase.outputs[0].value == value && coinbase.outputs[0].publicKey == minerPublicKey
  }

  /** What the template is made of. */
  ghost predicate IsTemplate(
    cs: CoinState, pool: seq<Transaction>, minerPublicKey: PublicKey, timestamp: u32, data: Payload, nonce: u32,
    b: Block)
    requires Minable(cs, pool, timestamp)
  {
    var height := cs.blockByHash[cs.current.value].Height() + 1;
    && b.Height() == height && b.Previous() == cs.current.value && b.Timestamp() == timestamp
    && b.header.summary.nonce == nonce
    && |b.transactions| == |pool| + 1 && b.transactions[1..] == pool
    && b.header.summary.merkleRoot == CalcMerkleRootHash(b.transactions)
    && |b.transactions[0].inputs| == 1
    && b.transactions[0].inputs[0] == Input(THIN_AIR, CoinbaseData(height, data))
    && cs.current.value in cs.utxoByHash && GetBlockFees(pool, cs.utxoByHash[cs.current.value]).Ok?
    && PaysMiner(b.transactions[0], minerPublicKey,
                 GetBlockSubsidy(height) + GetBlockFees(pool, cs.utxoByHash[cs.current.value]).value)
    && ConstructPowEvidence(cs, b.header.summary, height, b.transactions) == Ok(b.header.evidence)
    && SummaryInCoinstate(b.header.summary, cs).Ok?
    && CoinbaseInCoinstate(b.transactions[0], b, cs).Ok?
  }

  lemma TemplateBuilt(
    cs: CoinState, pool: seq<Transaction>, minerPublicKey: PublicKey, timestamp: u32, data: Payload, nonce: u32)
    requires Minable(cs, pool, timestamp)
    ensures ConstructBlockForMining(cs, pool, minerPublicKey, timestamp, data, nonce).Ok?
    ensures IsTemplate(cs, pool, minerPublicKey, timestamp, data, nonce,
              ConstructBlockForMining(cs, pool, minerPublicKey, timestamp, data, nonce).value)
  {
    hide LedgerOk, PoolOk, ConstructMinableSummary, ConstructCoinbaseTransaction, ConstructPowEvidence,
      SummaryInCoinstate,
      CalcMerkleRootHash, GetBlockFees, GetBlockSubsidy, OutputsValue, Pow256, PaysMiner;
    HeadIsStored(cs);
    Pow256Values();
    var height := cs.blockByHash[cs.current.value].Height() + 1;
    var coinbase := CoinbaseBuilt(cs, pool, data, minerPublicKey);
    var ts := [coinbase] + pool;
    SummaryBuilt(cs, ts, timestamp, nonce);
    var s := ConstructMinableSummary(cs, ts, timestamp, nonce).value;
    EvidenceBuilt(cs, s, height, ts);
    assert ts[1..] == pool;
  }

  lemma HeadIsStored(cs: CoinState)
    requires LedgerOk(cs)
    ensures cs.current.Some? && cs.current.value in cs.blockByHash && cs.current.value in cs.utxoByHash
    ensures Head(cs) == Ok(cs.blockByHash[cs.current.value])
  {
    hide WellFormedTree, EntryOk, Childless;
  }

  /** What the construction, when it does not raise, takes from the state. */
  lemma ConstructedParts(
    cs: CoinState, pool: seq<Transaction>, minerPublicKey: PublicKey, timestamp: u32, data: Bytes, nonce: u32)
    requires ConstructBlockForMining(cs, pool, minerPublicKey, timestamp, data, nonce).Ok?
    ensures cs.current.Some? && cs.current.value in cs.blockByHash
    ensures var b := ConstructBlockForMining(cs, pool, minerPublicKey, timestamp, data, nonce).value;
            var previous := cs.blockByHash[cs.current.value];
            && b.Previous() == cs.current.value && b.Timestamp() == timestamp && b.transactions != []
            && b.transactions[1..] == pool
            && CalcTarget(cs, previous.Height() + 1, timestamp, previous) == Ok(b.Target())
            && CoinbaseInCoinstate(b.transactions[0], b, cs).Ok?
            && ConstructPowEvidence(cs, b.header.summary, b.Height(), b.transactions) == Ok(b.header.evidence)
  {
    hide CalcTarget, ConstructPowEvidence, CalcMerkleRootHash, GetBlockFees, GetBlockSubsidy, EncTransaction;
    var previous := cs.blockByHash[cs.current.value];
    var u := cs.utxoByHash[cs.current.value];
    var coinbase := ConstructCoinbaseTransaction(previous.Height() + 1, pool, u, data, minerPublicKey).value;
    var b := ConstructBlockForMining(cs, pool, minerPublicKey, timestamp, data, nonce).value;
    assert b.transactions == [coinbase] + pool && b.transactions[1..] == pool && coinbase.outputs[1..] == [];
    assert OutputsValue(coinbase.outputs) == GetBlockSubsidy(b.Height()) + GetBlockFees(pool, u).value;
  }

  /** In any state at all, a ledger or not: whenever the construction from a valid pool does not raise, its block passes
      the validation in that state exactly when it is dated after the head. */
  lemma ConstructedPasses(
    cp: Checkpoints, cs: CoinState, pool: seq<Transaction>, minerPublicKey: PublicKey, timestamp: u32, data: Bytes,
    nonce: u32)
    requires PoolOk(cs, pool) && ConstructBlockForMining(cs, pool, minerPublicKey, timestamp, data, nonce).Ok?
    ensures cs.current.Some? && cs.current.value in cs.blockByHash
    ensures var b := ConstructBlockForMining(cs, pool, minerPublicKey, timestamp, data, nonce).value;
            && b.Previous() == cs.current.value
            && (b.Height() > cp.maxHeight ==>
                  (BlockInCoinstate(cp, b, cs).Ok? <==> timestamp > cs.blockByHash[cs.current.value].Timestamp()))
  {
    hide ConstructBlockForMining, ConstructPowEvidence, CalcTarget, CoinbaseInCoinstate, SoundPool,
      NonCoinbaseInCoinstate, AllInCoinstate, BlockHash;
    ConstructedParts(cs, pool, minerPublicKey, timestamp, data, nonce);
    forall t | t in pool ensures NonCoinbaseInCoinstate(t, cs.current.value, cs).Ok? {
      assert InHeadState(t, cs).Ok?;
    }
    EachInCoinstate(pool, cs.current.value, cs);
  }

  /** The one thing a caller can get wrong in a minable state: coinbase data of more bytes than its length field counts.
      The constructor of the data lets 256 bytes pass; packing them raises. */
  lemma BuiltExactly(
    cs: CoinState, pool: seq<Transaction>, minerPublicKey: PublicKey, timestamp: u32, data: Bytes, nonce: u32)
    requires Minable(cs, pool, timestamp)
    ensures ConstructBlockForMining(cs, pool, minerPublicKey, timestamp, data, nonce).Ok? <==> |data| <= 255
    ensures |data| > 255 ==>
              ConstructBlockForMining(cs, pool, minerPublicKey, timestamp, data, nonce) ==
              Err(if |data| == 256 then StructError else ValueError)
  {
    hide LedgerOk, PoolOk, ConstructMinableSummary, ConstructPowEvidence, GetBlockFees, GetBlockSubsidy;
    HeadIsStored(cs);
    CoinbaseFits(cs, pool);
    if |data| <= 255 {
      TemplateBuilt(cs, pool, minerPublicKey, timestamp, data, nonce);
    }
  }

  /** The template of a valid pool, dated after the head, passes the validation in the coin state. */
  lemma TemplateValidates(
    cp: Checkpoints, cs: CoinState, pool: seq<Transaction>, minerPublicKey: PublicKey, timestamp: u32, data: Payload,
    nonce: u32)
    requires Minable(cs, pool, timestamp)
    ensures ConstructBlockForMining(cs, pool, minerPublicKey, timestamp, data, nonce).Ok?
    ensures var b := ConstructBlockForMining(cs, pool, minerPublicKey, timestamp, data, nonce).value;
            b.Height() > cp.maxHeight ==> BlockInCoinstate(cp, b, cs).Ok?
  {
    hide LedgerOk, ConstructBlockForMining, BlockInCoinstate, PoolOk, ConstructPowEvidence, SummaryInCoinstate,
      CoinbaseInCoinstate, CalcMerkleRootHash;
    TemplateBuilt(cs, pool, minerPublicKey, timestamp, data, nonce);
    ConstructedPasses(cp, cs, pool, minerPublicKey, timestamp, data, nonce);
  }

  /** It passes in every later state too, wherever the head has moved by then. */
  lemma TemplateStaysValid(
    cp: Checkpoints, cs: CoinState, run: seq<Arrival>, pool: seq<Transaction>,
    minerPublicKey: PublicKey, timestamp: u32, data: Payload, nonce: u32)
    requires Minable(cs, pool, timestamp) && After(cp, cs, run).Some?
    ensures ConstructBlockForMining(cs, pool, minerPublicKey, timestamp, data, nonce).Ok?
    ensures var b := ConstructBlockForMining(cs, pool, minerPublicKey, timestamp, data, nonce).value;
            b.Height() > cp.maxHeight ==> BlockInCoinstate(cp, b, After(cp, cs, run).value).Ok?
  {
    hide LedgerOk, ConstructBlockForMining, BlockInCoinstate, After, PoolOk, ConstructPowEvidence, SummaryInCoinstate,
      CoinbaseInCoinstate, CalcMerkleRootHash;
    TemplateValidates(cp, cs, pool, minerPublicKey, timestamp, data, nonce);
    TemplateBuilt(cs, pool, minerPublicKey, timestamp, data, nonce);
    var b := ConstructBlockForMining(cs, pool, minerPublicKey, timestamp, data, nonce).value;
    HeadIsStored(cs);
    VerdictNeverChanges(cp, cs, run, b);
  }

  // ----- what is left to the miner

  lemma {:induction false} EachByItself(ts: seq<Transaction>)
    requires forall t | t in ts :: NonCoinbaseByItself(t).Ok?
    ensures AllByThemselves(ts).Ok?
    decreases |ts|
  {
    hide NonCoinbaseByItself;
    if ts != [] {
      assert NonCoinbaseByItself(ts[0]).Ok?;
      EachByItself(ts[1..]);
    }
  }

  lemma PoolIsDistinct(pool: seq<Transaction>)
    requires SoundPool(pool)
    ensures Distinct(pool)
  {
    hide References, EncTransaction, ValuesInRange;
    forall k, l | 0 <= k < l < |pool| ensures pool[k] != pool[l] {
      assert NonCoinbaseByItself(pool[l]).Ok?;
      NoSharedReference(pool, k, l);
      assert pool[l].inputs[0] in pool[l].inputs;
    }
  }

  /** By itself the template is valid exactly when the nonce solves it, it is not dated too far ahead, it is not too
      big, and the coinbase data is at most 200 bytes: four things the construction does not see to. */
  lemma TemplateByItself(
    cs: CoinState, pool: seq<Transaction>, minerPublicKey: PublicKey, timestamp: u32, data: Payload, nonce: u32,
    now: int)
    requires Minable(cs, pool, timestamp)
    ensures ConstructBlockForMining(cs, pool, minerPublicKey, timestamp, data, nonce).Ok?
    ensures var b := ConstructBlockForMining(cs, pool, minerPublicKey, timestamp, data, nonce).value;
            BlockByItself(b, now).Ok? <==>
              && LexLess(BlockHash(b), b.Target())
              && timestamp <= now + MAX_FUTURE_BLOCK_TIME
              && |EncBlock(b)| <= MAX_BLOCK_SIZE
              && |data| <= MAX_COINBASE_RANDOM_DATA_SIZE
  {
    hide LedgerOk, ConstructBlockForMining, ConstructPowEvidence, SummaryInCoinstate, CoinbaseInCoinstate, InHeadState,
      CalcMerkleRootHash, BlockHash, EncBlock, References, AllByThemselves, NonCoinbaseByItself, LexLess;
    TemplateBuilt(cs, pool, minerPublicKey, timestamp, data, nonce);
    EachByItself(pool);
    PoolIsDistinct(pool);
  }

  /** A solved template is accepted, and becomes the head of the state it was made for. */
  lemma SolvedTemplateIsNextHead(
    cp: Checkpoints, cs: CoinState, pool: seq<Transaction>, minerPublicKey: PublicKey, timestamp: u32, data: Payload,
    nonce: u32, now: int)
    requires Minable(cs, pool, timestamp)
    ensures ConstructBlockForMining(cs, pool, minerPublicKey, timestamp, data, nonce).Ok?
    ensures var b := ConstructBlockForMining(cs, pool, minerPublicKey, timestamp, data, nonce).value;
            && b.Height() > cp.maxHeight && BlockByItself(b, now).Ok?
            && BlockHash(b) != ZERO_HASH && BlockHash(b) !in cs.blockByHash ==>
              && AddBlock(cp, cs, b, now).Ok?
              && LedgerOk(AddBlock(cp, cs, b, now).value)
              && AddBlock(cp, cs, b, now).value.current == Some(BlockHash(b))
  {
    hide LedgerOk, ConstructBlockForMining, BlockInCoinstate, BlockByItself, PoolOk, ConstructPowEvidence,
      SummaryInCoinstate,
      CoinbaseInCoinstate, CalcMerkleRootHash, BlockHash, AddBlockNoValidation;
    TemplateValidates(cp, cs, pool, minerPublicKey, timestamp, data, nonce);
    TemplateBuilt(cs, pool, minerPublicKey, timestamp, data, nonce);
    HeadIsStored(cs);
    var b := ConstructBlockForMining(cs, pool, minerPublicKey, timestamp, data, nonce).value;
    if
      && b.Height() > cp.maxHeight && BlockByItself(b, now).Ok?
      && BlockHash(b) != ZERO_HASH && BlockHash(b) !in cs.blockByHash
    {
      ValidatedIsAdded(cp, cs, b, now);
      AcceptedKeepsLedger(cp, cs, (b, now));
      AddedCurrent(cs, b);
    }
  }
}

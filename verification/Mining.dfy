/** Mining from a running manager: what a run leaves behind is what the template needs, and what comes later does not
    take its validity away. */
module Mining {
  import opened Basics
  import opened Crypto
  import opened Datatypes
  import opened Balances
  import opened Chains
  import opened CoinStates
  import opened Consensus
  import opened Ledger
  import opened History
  import opened Sources
  import opened Managers
  import opened Receiving
  import opened Verdicts
  import opened Unfunded
  import opened Skipped
  import opened Template

  // ----- whatever was received

  /** In every state of every run, through validated, skipped and rolled-back blocks: whenever the construction does not
      raise, its block passes the validation in that state exactly when it is dated after the head. */
  lemma RunTemplatePasses(
    cp: Checkpoints, s: State, es: seq<Event>, ts: set<Transaction>, minerPublicKey: PublicKey, timestamp: u32,
    data: Bytes, nonce: u32)
    requires NodeOk(s, ts) && NoCollisionIn(ts) && forall e | e in es :: Fits(e, ts)
    requires var s' := Run(cp, s, es);
             ConstructBlockForMining(s'.coinstate, s'.pool, minerPublicKey, timestamp, data, nonce).Ok?
    ensures var s' := Run(cp, s, es);
            var b := ConstructBlockForMining(s'.coinstate, s'.pool, minerPublicKey, timestamp, data, nonce).value;
            && b.Previous() in s'.coinstate.blockByHash
            && (b.Height() > cp.maxHeight ==>
                  (BlockInCoinstate(cp, b, s'.coinstate).Ok? <==>
                   timestamp > s'.coinstate.blockByHash[b.Previous()].Timestamp()))
  {
    hide NoCollisionIn, Fits, Run, StateSourced, PoolOk, ConstructBlockForMining, BlockInCoinstate;
    RunKeepsNodeOk(cp, s, es, ts);
    var s' := Run(cp, s, es);
    ConstructedPasses(cp, s'.coinstate, s'.pool, minerPublicKey, timestamp, data, nonce);
  }

  /** From then on, if its parent was among the last known valid blocks, the verdict on it stays the same in every later
      state, whatever else is received. */
  lemma TemplateVerdictStays(
    cp: Checkpoints, s: State, es: seq<Event>, minerPublicKey: PublicKey, timestamp: u32, data: Bytes, nonce: u32)
    requires ConstructBlockForMining(s.coinstate, s.pool, minerPublicKey, timestamp, data, nonce).Ok?
    requires s.coinstate.current.Some? && Anchored(s.coinstate, s, s.coinstate.current.value)
    requires forall e | e in es :: NotZeroHashed(e)
    ensures var b := ConstructBlockForMining(s.coinstate, s.pool, minerPublicKey, timestamp, data, nonce).value;
            BlockInCoinstate(cp, b, Run(cp, s, es).coinstate) == BlockInCoinstate(cp, b, s.coinstate)
  {
    hide Anchored, NotZeroHashed, Run, ConstructBlockForMining, BlockInCoinstate, CalcTarget, CoinbaseInCoinstate,
      ConstructPowEvidence;
    ConstructedParts(s.coinstate, s.pool, minerPublicKey, timestamp, data, nonce);
    VerdictStays(cp, s.coinstate, s, es,
                 ConstructBlockForMining(s.coinstate, s.pool, minerPublicKey, timestamp, data, nonce).value);
  }

  // ----- what can fail is the construction

  lemma AboveTheHeightField(
    cs: CoinState, pool: seq<Transaction>, minerPublicKey: PublicKey, timestamp: u32, data: Bytes, nonce: u32)
    requires PoolOk(cs, pool) && cs.current.Some? && cs.current.value in cs.blockByHash
    requires cs.current.value in cs.utxoByHash && cs.blockByHash[cs.current.value].Height() >= 0xFFFF_FFFF
    ensures ConstructBlockForMining(cs, pool, minerPublicKey, timestamp, data, nonce) == Err(ValueError)
  {
    hide NonCoinbaseInUtxo, GetBlockFees, GetBlockSubsidy, ConstructMinableSummary, ConstructPowEvidence, SoundPool;
    PoolInUtxo(cs, pool);
    FeesAreEarned(cs.utxoByHash[cs.current.value], pool);
  }

  /** A head taken without validation may leave no height for a template: when it is at the greatest one that the field
      of a coinbase holds, the construction raises, whatever the miner asks for. */
  lemma SkippedBlockStopsMining(
    cp: Checkpoints, s: State, parent: Hash, at: u32, inResponseTo: nat, now: int, ts: set<Transaction>,
    minerPublicKey: PublicKey, timestamp: u32, data: Bytes, nonce: u32)
    requires NodeOk(s, ts) && NoCollisionIn(ts) && LedgerOk(s.coinstate) && parent in s.coinstate.blockByHash
    requires s.coinstate.blockByHash[s.coinstate.current.value].Height() < 0xFFFF_FFFF
    requires EmptyCoinbase(0xFFFF_FFFF) in ts && Unheard(s.coinstate, BareBlock(parent, 0xFFFF_FFFF, at))
    requires inResponseTo > 0 && at <= now + MAX_FUTURE_BLOCK_TIME
    ensures var after := Step(cp, s, Received(BareBlock(parent, 0xFFFF_FFFF, at), inResponseTo, now)).0;
            ConstructBlockForMining(after.coinstate, after.pool, minerPublicKey, timestamp, data, nonce) ==
            Err(ValueError)
  {
    hide BlockHash, BlockByItself, AddBlockNoValidation, LedgerOk, NoCollisionIn, StateSourced, PoolOk, Step, EASIEST,
      CalcMerkleRootHash, ConstructBlockForMining;
    var b := BareBlock(parent, 0xFFFF_FFFF, at);
    var m := Received(b, inResponseTo, now);
    LoneBlockByItself(b, now);
    AddsBare(s.coinstate, b);
    SkippedStep(cp, s, m);
    BlockKeepsNodeOk(cp, s, m, ts);
    HighestIsHead(s.coinstate, b);
    var after := Step(cp, s, m).0;
    AboveTheHeightField(after.coinstate, after.pool, minerPublicKey, timestamp, data, nonce);
  }

  lemma HighestIsHead(cs: CoinState, b: Block)
    requires LedgerOk(cs) && AddBlockNoValidation(cs, b).Ok? && b.Previous() in cs.blockByHash
    requires b.Height() > cs.blockByHash[cs.current.value].Height()
    ensures var cs' := AddBlockNoValidation(cs, b).value;
            && cs'.current == Some(BlockHash(b)) && BlockHash(b) in cs'.utxoByHash
            && BlockHash(b) in cs'.blockByHash && cs'.blockByHash[BlockHash(b)] == b
  {
    hide BlockHash, AppliedBlock, WellFormedTree, EntryOk, Childless;
  }

  // ----- when every block was validated

  /** From a ledger state, every block validated, no transactions colliding. */
  ghost predicate CheckedRun(cp: Checkpoints, cs: CoinState, es: seq<Event>) {
    && LedgerOk(cs) && NoCollisionIn(TransactionsOfRun(cs, es))
    && forall e | e in es :: FullyChecked(cp, e)
  }

  /** A time after the head's, and a height that still fits the coinbase. */
  ghost predicate Datable(cs: CoinState, timestamp: u32) {
    && cs.current.Some? && cs.current.value in cs.blockByHash
    && timestamp > cs.blockByHash[cs.current.value].Timestamp()
    && cs.blockByHash[cs.current.value].Height() < 0xFFFF_FFFF
  }

  /** After every run of blocks and transactions received, in which validation was not skipped, the manager's state and
      pool can be mined at any later time, and the state is the last known valid one. */
  lemma RunIsMinable(cp: Checkpoints, cs: CoinState, es: seq<Event>, timestamp: u32)
    requires CheckedRun(cp, cs, es)
    ensures var s := Run(cp, Start(cs), es);
            && NodeOk(s, TransactionsOfRun(cs, es)) && InStep(s)
            && (Datable(s.coinstate, timestamp) ==> Minable(s.coinstate, s.pool, timestamp))
  {
    hide LedgerOk, NoCollisionIn, TransactionsOfRun, Run, Fits, StateSourced, Inv, PoolOk, IsValidated, BlockHash;
    var ts := TransactionsOfRun(cs, es);
    StartIsNodeOk(cs, es);
    RunKeepsNodeOk(cp, Start(cs), es, ts);
    ValidatedRunInStep(cp, Start(cs), es, ts);
    ValidatedRunKeepsLedger(cp, Start(cs), es);
  }

  /** So the construction does not raise either: the template passes the validation in the state it was made for, and in
      every later state, whatever is received after that. Construction is what can fail after skipped blocks. */
  lemma RunTemplateValidates(
    cp: Checkpoints, cs: CoinState, es: seq<Event>, later: seq<Event>, minerPublicKey: PublicKey, timestamp: u32,
    data: Payload, nonce: u32)
    requires CheckedRun(cp, cs, es) && forall e | e in later :: NotZeroHashed(e)
    ensures var s := Run(cp, Start(cs), es);
            var template := ConstructBlockForMining(s.coinstate, s.pool, minerPublicKey, timestamp, data, nonce);
            Datable(s.coinstate, timestamp) ==>
              && template.Ok?
              && (template.value.Height() > cp.maxHeight ==>
                    && BlockInCoinstate(cp, template.value, s.coinstate).Ok?
                    && BlockInCoinstate(cp, template.value, Run(cp, s, later).coinstate).Ok?)
  {
    hide CheckedRun, Run, Start, Minable, ConstructBlockForMining, BlockInCoinstate, NodeOk, InStep, TransactionsOfRun,
      NotZeroHashed, Anchored;
    RunIsMinable(cp, cs, es, timestamp);
    var s := Run(cp, Start(cs), es);
    if Datable(s.coinstate, timestamp) {
      TemplateValidates(cp, s.coinstate, s.pool, minerPublicKey, timestamp, data, nonce);
      InStepIsAnchored(s, s.coinstate.current.value, TransactionsOfRun(cs, es));
      TemplateVerdictStays(cp, s, later, minerPublicKey, timestamp, data, nonce);
    }
  }
}

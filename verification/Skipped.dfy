/** What skipping validation means: a valid block does not vouch for its parent. */
module Skipped {
  import opened Basics
  import opened Crypto
  import opened Serialization
  import opened Datatypes
  import opened Balances
  import opened Chains
  import opened CoinStates
  import opened Consensus
  import opened Pow
  import opened ChainRules
  import opened History
  import opened Ledger
  import opened Sources
  import opened Managers
  import opened Receiving
  import opened Verdicts
  import opened Unfunded

  // ----- a block that is not valid on its parent, and can be added to it

  /** Only a coinbase that pays nothing, and a target of the sender's choosing. */
  function BareBlock(parent: Hash, height: u32, timestamp: u32): Block {
    Block(
      BlockHeader(
        BlockSummary(height, parent, CalcMerkleRootHash([EmptyCoinbase(height)]), timestamp, EASIEST, 0),
        PowEvidence(ZERO_HASH, ZERO_HASH, ZERO_HASH)),
      [EmptyCoinbase(height)])
  }

  /** A block with only that coinbase and that target. */
  ghost predicate IsLone(b: Block) {
    && b.Height() < 0x1_0000_0000 && b.transactions == [EmptyCoinbase(b.Height())] && b.Target() == EASIEST
    && b.header.summary.merkleRoot == CalcMerkleRootHash(b.transactions)
  }

  lemma LoneBlockSize(b: Block)
    requires IsLone(b)
    ensures |EncBlock(b)| <= MAX_BLOCK_SIZE
  {
    hide EncList, EncHeader, EncTransaction, CalcMerkleRootHash, EASIEST;
    HeaderSize(b.header);
    SingletonSize(EncTransaction, b.transactions[0]);
    CoinbaseSize(b.Height());
  }

  /** It passes every check made before it is added, unless its hash has one particular value or it is dated too far
      ahead. */
  lemma LoneBlockByItself(b: Block, now: int)
    requires IsLone(b)
    ensures BlockByItself(b, now).Ok? <==> BlockHash(b) != EASIEST && b.Timestamp() <= now + MAX_FUTURE_BLOCK_TIME
  {
    hide EncBlock, EncTransaction, CalcMerkleRootHash, BlockHash, LexLess;
    LoneBlockSize(b);
    LexLessIsNumeric(BlockHash(b), EASIEST);
    if BlockHash(b) != EASIEST {
      LessThanAllOnes(BlockHash(b), EASIEST);
    }
    assert b.transactions[1..] == [];
    assert CoinbaseByItself(b.transactions[0]).Ok? && AllByThemselves([]).Ok?;
    assert Distinct(References([]));
  }

  /** Validation in the coin state refuses it wherever another target is due; adding without validation takes it. */
  lemma BareBlockInvalid(cp: Checkpoints, cs: CoinState, parent: Hash, height: u32, timestamp: u32)
    requires LedgerOk(cs) && parent in cs.blockByHash && height > cp.maxHeight
    requires CalcTarget(cs, cs.blockByHash[parent].Height() + 1, timestamp, cs.blockByHash[parent]) != Ok(EASIEST)
    ensures BlockInCoinstate(cp, BareBlock(parent, height, timestamp), cs).Err?
    ensures AddBlockNoValidation(cs, BareBlock(parent, height, timestamp)).Ok?
  {
    hide CalcTarget, CalcMerkleRootHash, ConstructPowEvidence, LedgerOk, BlockHash, AddBlockNoValidation,
      TransactionHash;
    var b := BareBlock(parent, height, timestamp);
    assert SummaryInCoinstate(b.header.summary, cs).Err?;
    AddsBare(cs, b);
  }

  lemma AddsBare(cs: CoinState, b: Block)
    requires LedgerOk(cs) && b.Previous() in cs.blockByHash
    requires |b.transactions| == 1 && b.transactions[0].outputs == []
    ensures AddBlockNoValidation(cs, b).Ok?
  {
    hide BlockHash, Childless, EntryOk, Linked, AppliedBlock;
    BareApplies(cs.utxoByHash[b.Previous()], b);
  }

  lemma BareApplies(u: Utxo, b: Block)
    requires |b.transactions| == 1 && b.transactions[0].outputs == []
    ensures AppliedBlock(u, b) == Ok(u)
  {
    hide TransactionHash;
    assert b.transactions[1..] == [];
  }

  // ----- its child

  /** A child of `p` as a miner would make it, without pooled transactions. */
  ghost function ChildOf(cs: CoinState, p: Block): Result<Block>
    requires p.Height() < 0xFFFF_FFFF && p.Timestamp() < 0xFFFF_FFFF
  {
    var height := p.Height() + 1;
    var ts := [EmptyCoinbase(height)];
    var s := BlockSummary(height, BlockHash(p), CalcMerkleRootHash(ts), p.Timestamp() + 1, p.Target(), 0);
    var evidence :- ConstructPowEvidence(cs, s, height, ts);
    Ok(Block(BlockHeader(s, evidence), ts))
  }

  /** What adding `p`, valid or not, stores under its hash. */
  ghost predicate StoredOn(cs: CoinState, p: Block) {
    var h := BlockHash(p);
    && h in cs.blockByHash && cs.blockByHash[h] == p && h in cs.utxoByHash
    && h in cs.heightsByHash && forall i: nat | i <= p.Height() :: i in cs.heightsByHash[h]
  }

  lemma AddedIsStored(cs: CoinState, p: Block)
    requires LedgerOk(cs) && p.Previous() in cs.blockByHash && p.Height() == cs.blockByHash[p.Previous()].Height() + 1
    requires AddBlockNoValidation(cs, p).Ok?
    ensures StoredOn(AddBlockNoValidation(cs, p).value, p)
  {
    hide BlockHash, AppliedBlock, NextCurrent, LedgerOk, ChainAt, ValidChain, Replayed, WellFormedTree, Linked;
    LedgerIsTree(cs);
    NotZero(cs, p);
    EntryParts(cs, p.Previous());
  }

  lemma NotZero(cs: CoinState, p: Block)
    requires WellFormedTree(cs.blockByHash) && p.Previous() in cs.blockByHash
    ensures p.Previous() != ZERO_HASH
  {
  }

  lemma ChildEvidence(cs: CoinState, p: Block, s: BlockSummary, ts: seq<Transaction>)
    requires StoredOn(cs, p) && s.previousHash == BlockHash(p) && p.Height() + 1 < Pow256(8)
    ensures ConstructPowEvidence(cs, s, p.Height() + 1, ts).Ok?
  {
    hide Pow256, SelectSlices, EvidenceHash, BlockHash;
    var summaryHash := ConstructSummaryHash(s, p.Height() + 1).value;
    var byHeight := cs.heightsByHash[s.previousHash];
    SamplingIsTotal(summaryHash, p.Height() + 1, byHeight, CHAIN_SAMPLE_COUNT, CHAIN_SAMPLE_SIZE);
  }

  lemma ChildPasses(cp: Checkpoints, cs: CoinState, p: Block)
    requires StoredOn(cs, p) && cp.maxHeight <= p.Height() < 0xFFFF_FFFF && p.Timestamp() < 0xFFFF_FFFF
    requires (p.Height() + 1) % BLOCKS_BETWEEN_TARGET_READJUSTMENT != 0
    ensures ChildOf(cs, p).Ok? && BlockInCoinstate(cp, ChildOf(cs, p).value, cs).Ok?
  {
    hide ConstructPowEvidence, CalcMerkleRootHash, BlockHash, Pow256, GetBlockSubsidy;
    var height := p.Height() + 1;
    var ts := [EmptyCoinbase(height)];
    var s := BlockSummary(height, BlockHash(p), CalcMerkleRootHash(ts), p.Timestamp() + 1, p.Target(), 0);
    Pow256Values();
    ChildEvidence(cs, p, s, ts);
    var b := ChildOf(cs, p).value;
    assert b.transactions[1..] == [];
    assert SummaryInCoinstate(b.header.summary, cs).Ok?;
    assert GetBlockFees([], cs.utxoByHash[b.Previous()]) == Ok(0) && OutputsValue([]) == 0;
    assert CoinbaseInCoinstate(b.transactions[0], b, cs).Ok?;
    assert AllInCoinstate([], b.Previous(), cs).Ok?;
    assert ConstructPowEvidence(cs, b.header.summary, b.Height(), b.transactions) == Ok(b.header.evidence);
  }

  /** By itself it passes under the conditions under which its parent does. */
  lemma ChildIsLone(cs: CoinState, p: Block)
    requires p.Height() < 0xFFFF_FFFF && p.Timestamp() < 0xFFFF_FFFF && p.Target() == EASIEST && ChildOf(cs, p).Ok?
    ensures var c := ChildOf(cs, p).value;
            && IsLone(c) && c.Previous() == BlockHash(p)
            && c.Height() == p.Height() + 1 && c.Timestamp() == p.Timestamp() + 1
  {
    hide ConstructPowEvidence, CalcMerkleRootHash, BlockHash, EASIEST;
  }

  /** A block that validation refuses can be added while validation is skipped, and then a child of it passes: the
      verdict on a block depends on the entries of its parent and never on the verdict on its parent. */
  lemma ValidChildOfInvalidParent(cp: Checkpoints, cs: CoinState, parent: Hash, timestamp: u32)
    requires LedgerOk(cs) && parent in cs.blockByHash && cs.blockByHash[parent].Height() + 1 < 0xFFFF_FFFF
    requires cs.blockByHash[parent].Height() + 1 > cp.maxHeight && timestamp < 0xFFFF_FFFF
    requires CalcTarget(cs, cs.blockByHash[parent].Height() + 1, timestamp, cs.blockByHash[parent]) != Ok(EASIEST)
    requires (cs.blockByHash[parent].Height() + 2) % BLOCKS_BETWEEN_TARGET_READJUSTMENT != 0
    ensures var p := BareBlock(parent, cs.blockByHash[parent].Height() + 1, timestamp);
            && BlockInCoinstate(cp, p, cs).Err?
            && AddBlockNoValidation(cs, p).Ok?
            && var cs' := AddBlockNoValidation(cs, p).value;
            && ChildOf(cs', p).Ok? && BlockInCoinstate(cp, ChildOf(cs', p).value, cs').Ok?
  {
    hide LedgerOk, BlockInCoinstate, AddBlockNoValidation, CalcTarget, StoredOn, ChildOf, CalcMerkleRootHash;
    var height: u32 := cs.blockByHash[parent].Height() + 1;
    var p := BareBlock(parent, height, timestamp);
    BareBlockInvalid(cp, cs, parent, height, timestamp);
    AddedIsStored(cs, p);
    ChildPasses(cp, AddBlockNoValidation(cs, p).value, p);
  }

  // ----- exactly when a step leaves the ledgers

  lemma StoredIsValid(cs: CoinState, cs': CoinState, b: Block)
    requires LedgerOk(cs) && LedgerOk(cs') && SubMap(cs.blockByHash, cs'.blockByHash)
    requires BlockHash(b) in cs'.blockByHash && cs'.blockByHash[BlockHash(b)] == b && b.Previous() in cs.blockByHash
    ensures ExtensionOk(ChainAt(cs.blockByHash, b.Previous()), b)
  {
    hide BlockHash, ExtensionOk, GenesisOk, ChainAt, Linked, LedgerOk, Replayed, PathMap;
    LedgerIsTree(cs);
    LedgerIsTree(cs');
    NotZero(cs, b);
    EntryParts(cs', BlockHash(b));
    NewChain(cs'.blockByHash, BlockHash(b));
    ChainStable(cs.blockByHash, cs'.blockByHash, b.Previous());
    var chain := ChainAt(cs.blockByHash, b.Previous());
    assert (chain + [b])[..|chain|] == chain;
  }

  lemma GrownObeys(cs: CoinState, b: Block)
    requires LedgerOk(cs) && b.Previous() in cs.blockByHash && BlockHash(b) !in cs.blockByHash
    requires BlockHash(b) != ZERO_HASH && AddBlockNoValidation(cs, b).Ok?
    ensures LedgerOk(AddBlockNoValidation(cs, b).value) <==> ExtensionOk(ChainAt(cs.blockByHash, b.Previous()), b)
  {
    hide BlockHash, ExtensionOk, ChainAt, LedgerOk, WellFormedTree, AddBlockNoValidation;
    LedgerIsTree(cs);
    AddedBlocks(cs, b);
    SubMapItself(cs.blockByHash);
    SubMapGrows(cs.blockByHash, cs.blockByHash, BlockHash(b), b);
    if ExtensionOk(ChainAt(cs.blockByHash, b.Previous()), b) {
      GrowthKeepsLedger(cs, b);
    }
    if LedgerOk(AddBlockNoValidation(cs, b).value) {
      StoredIsValid(cs, AddBlockNoValidation(cs, b).value, b);
    }
  }

  /** The step adds a block against the rules. */
  ghost predicate Spoils(cp: Checkpoints, s: State, m: Received)
    requires LedgerOk(s.coinstate)
  {
    Adds(cp, s, m) && !ExtensionOk(ChainAt(s.coinstate.blockByHash, m.block.Previous()), m.block)
  }

  /** A step leaves the ledgers exactly when it adds a block against the rules; above the checkpoints, exactly when the
      block gets past the first checks, is funded, is not validated, and breaks the rules. */
  lemma StepKeepsLedgers(cp: Checkpoints, s: State, m: Received)
    requires BothLedgers(s) && BlockHash(m.block) != ZERO_HASH
    ensures BothLedgers(Step(cp, s, m).0) <==> !Spoils(cp, s, m)
    ensures m.block.Height() > cp.maxHeight ==>
              (BothLedgers(Step(cp, s, m).0) <==>
               !(IsTaken(s, m) && IsFunded(s.coinstate, m.block) && !IsValidated(m)
                 && !ExtensionOk(ChainAt(s.coinstate.blockByHash, m.block.Previous()), m.block)))
  {
    hide BlockHash, ExtensionOk, ChainAt, LedgerOk, WellFormedTree, AddBlockNoValidation, BlockByItself,
      BlockInCoinstate, Step, IsValidated, IsFunded, StateSourced, StoredTransactions;
    LedgerIsTree(s.coinstate);
    StepMoves(cp, s, m);
    if IsTaken(s, m) {
      LedgerIsSourced(s.coinstate);
      AddSucceedsExactly(s.coinstate, m.block, m.now, StoredTransactions(s.coinstate.blockByHash));
      if AddBlockNoValidation(s.coinstate, m.block).Ok? {
        GrownObeys(s.coinstate, m.block);
      }
      if m.block.Height() > cp.maxHeight {
        ValidationExactly(cp, s.coinstate, m.block, m.now);
      }
    }
  }

  /** A run stays in the ledgers from beginning to end exactly when none of its steps adds a block against the rules. */
  lemma RunKeepsLedgers(cp: Checkpoints, s: State, es: seq<Event>)
    requires BothLedgers(s) && forall e | e in es :: NotZeroHashed(e)
    ensures (forall n {:trigger es[..n]} | 0 <= n <= |es| :: BothLedgers(Run(cp, s, es[..n]))) <==>
            (forall n {:trigger es[..n]} | 0 <= n < |es| :: !SpoiledBy(cp, Run(cp, s, es[..n]), es[n]))
  {
    hide BothLedgers, SpoiledBy, Run, EventStep, NotZeroHashed;
    if forall n {:trigger es[..n]} | 0 <= n <= |es| :: BothLedgers(Run(cp, s, es[..n])) {
      forall n | 0 <= n < |es| ensures !SpoiledBy(cp, Run(cp, s, es[..n]), es[n]) {
        PrefixStep(cp, s, es, n);
        assert BothLedgers(Run(cp, s, es[..n])) && BothLedgers(Run(cp, s, es[..n + 1]));
        EventKeepsLedgers(cp, Run(cp, s, es[..n]), es[n]);
      }
    }
    if forall n {:trigger es[..n]} | 0 <= n < |es| :: !SpoiledBy(cp, Run(cp, s, es[..n]), es[n]) {
      forall n | 0 <= n <= |es| ensures BothLedgers(Run(cp, s, es[..n])) {
        UnspoiledPrefix(cp, s, es, n);
      }
    }
  }

  ghost predicate SpoiledBy(cp: Checkpoints, s: State, e: Event) {
    BothLedgers(s) && e.BlockReceived? && Spoils(cp, s, e.m)
  }

  lemma EventKeepsLedgers(cp: Checkpoints, s: State, e: Event)
    requires BothLedgers(s) && NotZeroHashed(e)
    ensures BothLedgers(EventStep(cp, s, e).0) <==> !SpoiledBy(cp, s, e)
  {
    hide Spoils, LedgerOk, Step, PoolVerdict, BlockHash;
    if e.BlockReceived? {
      StepKeepsLedgers(cp, s, e.m);
    }
  }

  lemma PrefixStep(cp: Checkpoints, s: State, es: seq<Event>, n: nat)
    requires n < |es|
    ensures Run(cp, s, es[..n + 1]) == EventStep(cp, Run(cp, s, es[..n]), es[n]).0 && es[n] in es
  {
    hide Run, EventStep;
    RunStep(cp, s, es[..n + 1]);
    assert es[..n + 1][..n] == es[..n];
  }

  lemma {:induction false} UnspoiledPrefix(cp: Checkpoints, s: State, es: seq<Event>, n: nat)
    requires BothLedgers(s) && n <= |es| && forall e | e in es :: NotZeroHashed(e)
    requires forall k {:trigger es[..k]} | 0 <= k < |es| :: !SpoiledBy(cp, Run(cp, s, es[..k]), es[k])
    ensures BothLedgers(Run(cp, s, es[..n]))
  {
    hide BothLedgers, SpoiledBy, Run, EventStep, NotZeroHashed;
    if n == 0 {
      RunStart(cp, s);
      assert es[..0] == [];
    } else {
      UnspoiledPrefix(cp, s, es, n - 1);
      PrefixStep(cp, s, es, n - 1);
      EventKeepsLedgers(cp, Run(cp, s, es[..n - 1]), es[n - 1]);
    }
  }

  // ----- a run that leaves them

  lemma SkippedStep(cp: Checkpoints, s: State, m: Received)
    requires IsTaken(s, m) && !IsValidated(m) && AddBlockNoValidation(s.coinstate, m.block).Ok?
    ensures Step(cp, s, m).0.coinstate == AddBlockNoValidation(s.coinstate, m.block).value
  {
    hide BlockHash, BlockByItself, AddBlockNoValidation, Cleaned, IsValidated;
  }

  lemma ValidStep(cp: Checkpoints, s: State, m: Received, ts: set<Transaction>)
    requires NodeOk(s, ts) && NoCollisionIn(ts) && Fits(BlockReceived(m), ts)
    requires IsTaken(s, m) && IsValidated(m) && BlockInCoinstate(cp, m.block, s.coinstate).Ok?
    requires AddBlockNoValidation(s.coinstate, m.block).Ok?
    ensures Step(cp, s, m).0.coinstate == AddBlockNoValidation(s.coinstate, m.block).value
    ensures Step(cp, s, m).0.lastKnownValid == Some(Step(cp, s, m).0.coinstate)
  {
    hide BlockHash, BlockByItself, BlockInCoinstate, AddBlockNoValidation, Cleaned, Flushed, NoCollisionIn, PoolOk,
      StateSourced, IsValidated;
    SourcesGrow(s.coinstate, m.block, ts);
    ChangeKeepsNodeOk(s, AddBlockNoValidation(s.coinstate, m.block).value, true, ts);
  }

  /** The block is not stored, and its hash has neither of two particular values. */
  ghost predicate Unheard(cs: CoinState, b: Block) {
    BlockHash(b) !in cs.blockByHash && BlockHash(b) != ZERO_HASH && BlockHash(b) != EASIEST
  }

  /** A place where the block with the easiest target breaks the rules and is not validated when it answers a request,
      and where a child of it need not break them. */
  ghost predicate Exposed(cp: Checkpoints, cs: CoinState, parent: Hash, timestamp: u32) {
    && parent in cs.blockByHash
    && var height := cs.blockByHash[parent].Height() + 1;
       && cp.maxHeight < height < 0xFFFF_FFFF && timestamp < 0xFFFF_FFFF
       && CalcTarget(cs, height, timestamp, cs.blockByHash[parent]) != Ok(EASIEST)
       && height % IBD_VALIDATION_SKIP != 0
       && (height + 1) % BLOCKS_BETWEEN_TARGET_READJUSTMENT != 0
       && Unheard(cs, BareBlock(parent, height, timestamp))
  }

  ghost function BareAt(cp: Checkpoints, cs: CoinState, parent: Hash, timestamp: u32): (p: Block)
    requires Exposed(cp, cs, parent, timestamp)
    ensures p.Previous() == parent && p.Timestamp() == timestamp && p.Target() == EASIEST
    ensures cp.maxHeight < p.Height() < 0xFFFF_FFFF && p.transactions == [EmptyCoinbase(p.Height())]
    ensures (p.Height() + 1) % BLOCKS_BETWEEN_TARGET_READJUSTMENT != 0
  {
    BareBlock(parent, cs.blockByHash[parent].Height() + 1, timestamp)
  }

  /** The first of the two: it breaks the rules, is taken, and is added without validation. */
  lemma BareIsAdded(cp: Checkpoints, s: State, parent: Hash, timestamp: u32, inResponseTo: nat, now: int)
    requires LedgerOk(s.coinstate) && Exposed(cp, s.coinstate, parent, timestamp)
    requires inResponseTo > 0 && timestamp <= now + MAX_FUTURE_BLOCK_TIME
    ensures WellFormedTree(s.coinstate.blockByHash)
    ensures var p := BareAt(cp, s.coinstate, parent, timestamp);
            var m := Received(p, inResponseTo, now);
            && !ExtensionOk(ChainAt(s.coinstate.blockByHash, parent), p)
            && IsTaken(s, m) && !IsValidated(m) && AddBlockNoValidation(s.coinstate, p).Ok?
            && StoredOn(AddBlockNoValidation(s.coinstate, p).value, p)
  {
    hide BlockHash, ExtensionOk, ChainAt, LedgerOk, WellFormedTree, AddBlockNoValidation, BlockByItself, CalcTarget,
      CalcMerkleRootHash, EASIEST, StoredOn;
    var p := BareAt(cp, s.coinstate, parent, timestamp);
    LedgerIsTree(s.coinstate);
    LoneBlockByItself(p, now);
    BareBlockInvalid(cp, s.coinstate, parent, p.Height(), timestamp);
    AddedIsStored(s.coinstate, p);
    if ExtensionOk(ChainAt(s.coinstate.blockByHash, parent), p) {
      RulesGiveSummary(s.coinstate, p);
    }
  }

  /** The second: a child of the first, which passes every check. */
  lemma ChildIsValid(cp: Checkpoints, s: State, p: Block, c: Block, now: int, ts: set<Transaction>)
    requires StateSourced(s.coinstate, ts) && StoredOn(s.coinstate, p) && p.Target() == EASIEST
    requires cp.maxHeight <= p.Height() < 0xFFFF_FFFF && p.Timestamp() < 0xFFFF_FFFF
    requires (p.Height() + 1) % BLOCKS_BETWEEN_TARGET_READJUSTMENT != 0
    requires p.Timestamp() + 1 <= now + MAX_FUTURE_BLOCK_TIME
    requires ChildOf(s.coinstate, p) == Ok(c) && Unheard(s.coinstate, c)
    ensures IsTaken(s, Received(c, 0, now)) && BlockInCoinstate(cp, c, s.coinstate).Ok?
    ensures AddBlockNoValidation(s.coinstate, c).Ok?
  {
    hide BlockHash, AddBlockNoValidation, BlockByItself, BlockInCoinstate, ChildOf, StateSourced, EASIEST,
      CalcMerkleRootHash, AppliedBlock;
    ChildPasses(cp, s.coinstate, p);
    ChildIsLone(s.coinstate, p);
    LoneBlockByItself(c, now);
    AddNeedsApplying(s.coinstate, c, ts);
    BareApplies(s.coinstate.utxoByHash[c.Previous()], c);
  }

  /** What is remembered and on disk after both. */
  ghost predicate KnownValid(s: State, p: Block, c: Block) {
    && s.lastKnownValid == Some(s.coinstate)
    && BlockHash(p) in s.disk && s.disk[BlockHash(p)] == p && BlockHash(c) in s.disk && s.disk[BlockHash(c)] == c
  }

  lemma BothReachDisk(cp: Checkpoints, s: State, m: Received, next: Received, ts: set<Transaction>)
    requires Inv(s) && NodeOk(s, ts) && NoCollisionIn(ts) && BlockHash(m.block) != BlockHash(next.block)
    requires Fits(BlockReceived(m), ts) && Fits(BlockReceived(next), ts)
    requires IsTaken(s, m) && !IsValidated(m) && AddBlockNoValidation(s.coinstate, m.block).Ok?
    requires var s' := Step(cp, s, m).0;
             && IsTaken(s', next) && IsValidated(next) && BlockInCoinstate(cp, next.block, s'.coinstate).Ok?
             && AddBlockNoValidation(s'.coinstate, next.block).Ok?
    ensures var after := Run(cp, s, [BlockReceived(m), BlockReceived(next)]);
            && KnownValid(after, m.block, next.block)
            && after.coinstate.blockByHash == WithBlock(WithBlock(s.coinstate.blockByHash, m.block), next.block)
  {
    hide BlockHash, BlockByItself, BlockInCoinstate, AddBlockNoValidation, Inv, NodeOk, StateSourced, PoolOk, Run,
      NoCollisionIn, Step, IsValidated, IsTaken, IsFunded, Fits;
    var es := [BlockReceived(m), BlockReceived(next)];
    assert es[..1] == [BlockReceived(m)] && es[..1][..0] == [];
    RunStart(cp, s);
    RunStep(cp, s, es[..1]);
    RunStep(cp, s, es);
    var s' := Step(cp, s, m).0;
    SkippedStep(cp, s, m);
    BlockKeepsNodeOk(cp, s, m, ts);
    ValidStep(cp, s', next, ts);
    AddedKeepsInv(cp, s, m, ts);
    AddedKeepsInv(cp, s', next, ts);
    AddedBlocks(s.coinstate, m.block);
    AddedBlocks(s'.coinstate, next.block);
    InvDisk(Step(cp, s', next).0);
  }

  lemma AddedKeepsInv(cp: Checkpoints, s: State, m: Received, ts: set<Transaction>)
    requires Inv(s) && NodeOk(s, ts) && NoCollisionIn(ts)
    requires IsTaken(s, m) && AddBlockNoValidation(s.coinstate, m.block).Ok?
    ensures Inv(Step(cp, s, m).0)
  {
    hide BlockHash, BlockByItself, AddBlockNoValidation, Inv, StateSourced, PoolOk, NoCollisionIn, Step, IsFunded;
    AddSucceedsExactly(s.coinstate, m.block, m.now, ts);
    StepKeepsInv(cp, s, m, ts);
  }

  lemma InvDisk(s: State)
    requires Inv(s)
    ensures s.lastKnownValid.Some? && s.disk == s.lastKnownValid.value.blockByHash
  {
  }

  /** `c` is the child of `p` as a miner would make it once `p` is added. */
  ghost predicate ChildAfter(cs: CoinState, p: Block, c: Block) {
    && p.Height() < 0xFFFF_FFFF && p.Timestamp() < 0xFFFF_FFFF
    && AddBlockNoValidation(cs, p).Ok? && ChildOf(AddBlockNoValidation(cs, p).value, p) == Ok(c)
  }

  /** The transactions of the two blocks are among `ts`. */
  ghost predicate CoinbasesIn(p: Block, c: Block, ts: set<Transaction>) {
    (forall t | t in p.transactions :: t in ts) && forall t | t in c.transactions :: t in ts
  }

  /** A run of two messages, the first an answer to a request and the second not. The block that breaks the rules ends
      up in the state held to be the last known valid one, which is then no ledger, and on disk with its child. */
  lemma InvalidBecomesKnownValid(
    cp: Checkpoints, s: State, parent: Hash, timestamp: u32, p: Block, c: Block, inResponseTo: nat, now: int,
    ts: set<Transaction>)
    requires Exposed(cp, s.coinstate, parent, timestamp) && p == BareAt(cp, s.coinstate, parent, timestamp)
    requires ChildAfter(s.coinstate, p, c) && Unheard(AddBlockNoValidation(s.coinstate, p).value, c)
    requires inResponseTo > 0 && timestamp + 1 <= now + MAX_FUTURE_BLOCK_TIME
    requires Inv(s) && NodeOk(s, ts) && NoCollisionIn(ts) && LedgerOk(s.coinstate) && CoinbasesIn(p, c, ts)
    ensures var es := [BlockReceived(Received(p, inResponseTo, now)), BlockReceived(Received(c, 0, now))];
            KnownValid(Run(cp, s, es), p, c) && !LedgerOk(Run(cp, s, es).coinstate)
  {
    hide BlockHash, BlockByItself, BlockInCoinstate, AddBlockNoValidation, Inv, StateSourced, PoolOk, Run,
      NoCollisionIn, Step, IsTaken, LedgerOk, ChildOf, StoredOn, EASIEST, CalcMerkleRootHash, WellFormedTree,
      CalcTarget, ExtensionOk, ChainAt;
    BareIsAdded(cp, s, parent, timestamp, inResponseTo, now);
    var m, next := Received(p, inResponseTo, now), Received(c, 0, now);
    var s' := Step(cp, s, m).0;
    SkippedStep(cp, s, m);
    BlockKeepsNodeOk(cp, s, m, ts);
    ChildIsValid(cp, s', p, c, now, ts);
    AddedBlocks(s.coinstate, p);
    BothReachDisk(cp, s, m, next, ts);
    var after := Run(cp, s, [BlockReceived(m), BlockReceived(next)]);
    BothStored(s.coinstate.blockByHash, p, c);
    if LedgerOk(after.coinstate) {
      StoredIsValid(s.coinstate, after.coinstate, p);
    }
  }

  /** There is such a child, whatever the state. */
  lemma ChildExists(cp: Checkpoints, cs: CoinState, parent: Hash, timestamp: u32) returns (c: Block)
    requires LedgerOk(cs) && Exposed(cp, cs, parent, timestamp)
    ensures ChildAfter(cs, BareAt(cp, cs, parent, timestamp), c)
  {
    hide LedgerOk, BlockHash, CalcTarget, ChildOf, AddBlockNoValidation, BlockInCoinstate, StoredOn, CalcMerkleRootHash,
      EASIEST;
    var p := BareAt(cp, cs, parent, timestamp);
    BareBlockInvalid(cp, cs, parent, p.Height(), timestamp);
    AddedIsStored(cs, p);
    ChildPasses(cp, AddBlockNoValidation(cs, p).value, p);
    c := ChildOf(AddBlockNoValidation(cs, p).value, p).value;
  }

  lemma BothStored(blocks: BlockMap, p: Block, c: Block)
    requires BlockHash(p) !in blocks && BlockHash(c) !in WithBlock(blocks, p)
    ensures var more := WithBlock(WithBlock(blocks, p), c);
            SubMap(blocks, more) && BlockHash(p) in more && more[BlockHash(p)] == p
  {
    hide BlockHash;
  }
}

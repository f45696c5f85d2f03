/** Receiving blocks: what is kept in memory, what waits in the write buffer, and what is on disk. */
module Receiving {
  import opened Basics
  import opened Crypto
  import opened Datatypes
  import opened Balances
  import opened Chains
  import opened CoinStates
  import opened Consensus
  import opened Ledger
  import opened History
  import opened Provenance
  import opened Sources
  import opened Managers

  const IBD_VALIDATION_SKIP := 10_000

  // ----- the block store

  function WithBlock(blocks: BlockMap, b: Block): BlockMap {
    blocks[BlockHash(b) := b]
  }

  /** Insert or ignore, one block after another. */
  function Flushed(disk: BlockMap, buffer: seq<Block>): BlockMap
    decreases |buffer|
  {
    if buffer == [] then disk
    else Flushed(if BlockHash(buffer[0]) in disk then disk else WithBlock(disk, buffer[0]), buffer[1..])
  }

  class BlockStore {
    var writeBuffer: seq<Block>
    var disk: BlockMap

    constructor (disk: BlockMap)
      ensures this.disk == disk && writeBuffer == []
    {
      this.disk := disk;
      writeBuffer := [];
    }

    method AddBlockToBuffer(b: Block)
      modifies this`writeBuffer
      ensures writeBuffer == old(writeBuffer) + [b]
    {
      writeBuffer := writeBuffer + [b];
    }

    method FlushBlocksToDisk()
      modifies this
      ensures disk == Flushed(old(disk), old(writeBuffer)) && writeBuffer == []
    {
      hide BlockHash;
      for i := 0 to |writeBuffer|
        invariant writeBuffer == old(writeBuffer)
        invariant Flushed(old(disk), writeBuffer) == Flushed(disk, writeBuffer[i..])
      {
        assert writeBuffer[i..][1..] == writeBuffer[i + 1..];
        if BlockHash(writeBuffer[i]) !in disk {
          disk := WithBlock(disk, writeBuffer[i]);
        }
      }
      writeBuffer := [];
    }
  }

  // ----- one block received, as a step of the whole state

  datatype State = State(
    coinstate: CoinState,
    pool: seq<Transaction>,
    lastKnownValid: Option<CoinState>,
    buffer: seq<Block>,
    disk: BlockMap)

  datatype Received = Received(block: Block, inResponseTo: nat, now: int)

  /** What a peer can send that changes the state. */
  datatype Event = BlockReceived(m: Received) | TransactionReceived(t: Transaction)

  /** `set_coinstate`; a raised exception leaves only the new coin state behind. */
  function WithCoinstate(s: State, cs: CoinState, validated: bool): (State, Result<()>) {
    var kept := Cleaned(cs, s.pool);
    if kept.Err? then (s.(coinstate := cs), Err(kept.error))
    else (s.(coinstate := cs, pool := kept.value,
             lastKnownValid := if validated then Some(cs) else s.lastKnownValid), Ok(()))
  }

  predicate IsValidated(m: Received) {
    m.inResponseTo == 0 || m.block.Height() % IBD_VALIDATION_SKIP == 0
  }

  /** The block gets past the first checks: not stored, its parent stored, valid by itself. */
  predicate IsTaken(s: State, m: Received) {
    && BlockHash(m.block) !in s.coinstate.blockByHash
    && m.block.Previous() in s.coinstate.blockByHash
    && BlockByItself(m.block, m.now).Ok?
  }

  function Step(cp: Checkpoints, s: State, m: Received): (State, Result<()>) {
    if !IsTaken(s, m) then (s, Ok(()))
    else
      var saved := s.(buffer := s.buffer + [m.block]);
      var changed := AddBlockNoValidation(s.coinstate, m.block);
      if changed.Err? then (saved, Err(changed.error))
      else if !IsValidated(m) then WithCoinstate(saved, changed.value, false)
      else if BlockInCoinstate(cp, m.block, s.coinstate).Err? then RolledBack(saved)
      else Flush(WithCoinstate(saved, changed.value, true))
  }

  function RolledBack(s: State): (State, Result<()>) {
    var (back, r) :=
      if s.lastKnownValid.Some? then WithCoinstate(s, s.lastKnownValid.value, true) else (s, Ok(()));
    if r.Err? then (back, r) else (back.(buffer := []), Ok(()))
  }

  function Flush(outcome: (State, Result<()>)): (State, Result<()>) {
    if outcome.1.Err? then outcome
    else (outcome.0.(disk := Flushed(outcome.0.disk, outcome.0.buffer), buffer := []), Ok(()))
  }

  /** `handle_transaction_received`, up to broadcasting. */
  function Offered(s: State, t: Transaction): (State, Result<()>) {
    if t in s.pool then (s, Ok(()))
    else
      var verdict := PoolVerdict(s.coinstate, s.pool, t);
      if verdict.Ok? then (s.(pool := s.pool + [t]), Ok(()))
      else if verdict.error == ValidateTransactionError then (s, Ok(()))
      else (s, Err(verdict.error))
  }

  function EventStep(cp: Checkpoints, s: State, e: Event): (State, Result<()>) {
    match e
    case BlockReceived(m) => Step(cp, s, m)
    case TransactionReceived(t) => Offered(s, t)
  }

  function StateOf(manager: ChainManager, store: BlockStore): State
    reads manager, store
  {
    State(manager.coinstate, manager.transactionPool, manager.lastKnownValid, store.writeBuffer, store.disk)
  }

  method HandleBlockReceived(cp: Checkpoints, manager: ChainManager, store: BlockStore, m: Received)
    returns (r: Result<()>)
    modifies manager, store
    ensures (StateOf(manager, store), r) == Step(cp, old(StateOf(manager, store)), m)
  {
    hide BlockHash, BlockByItself, BlockInCoinstate, AddBlockNoValidation, Cleaned, Flushed, InHeadState, SoundPool;
    var prior, b := manager.coinstate, m.block;
    if BlockHash(b) in prior.blockByHash || b.Previous() !in prior.blockByHash {
      return Ok(());
    }
    var alone := ValidateBlockByItself(b, m.now);
    if alone.Err? {
      return Ok(());
    }
    store.AddBlockToBuffer(b);
    var changed :- AddBlockNoValidation(prior, b);
    if m.inResponseTo == 0 || b.Height() % IBD_VALIDATION_SKIP == 0 {
      var verdict := ValidateBlockInCoinstate(cp, b, prior);
      if verdict.Err? {
        if manager.lastKnownValid.Some? {
          var _ :- manager.SetCoinstate(manager.lastKnownValid.value, true);
        }
        store.writeBuffer := [];
        return Ok(());
      }
      var _ :- manager.SetCoinstate(changed, true);
      store.FlushBlocksToDisk();
    } else {
      var _ :- manager.SetCoinstate(changed, false);
    }
    r := Ok(());
  }

  method HandleTransactionReceived(manager: ChainManager, store: BlockStore, t: Transaction) returns (r: Result<()>)
    modifies manager
    ensures (StateOf(manager, store), r) == Offered(old(StateOf(manager, store)), t)
  {
    hide PoolVerdict, PoolOk;
    if t in manager.transactionPool {
      return Ok(());
    }
    var _ :- manager.AddTransactionToPool(t);
    r := Ok(());
  }

  // ----- what every step keeps

  /** The stored blocks with those of the buffer. */
  ghost function WithBlocks(blocks: BlockMap, buffer: seq<Block>): BlockMap {
    if buffer == [] then blocks
    else WithBlock(WithBlocks(blocks, buffer[..|buffer| - 1]), buffer[|buffer| - 1])
  }

  /** Each block of the buffer is stored nowhere when it is appended. */
  ghost predicate Novel(blocks: BlockMap, buffer: seq<Block>) {
    buffer == [] ||
    (Novel(blocks, buffer[..|buffer| - 1]) &&
     BlockHash(buffer[|buffer| - 1]) !in WithBlocks(blocks, buffer[..|buffer| - 1]))
  }

  /** Every block is stored under its hash, and its parent is stored unless it has none. */
  ghost predicate ParentClosed(blocks: BlockMap) {
    && Keyed(blocks)
    && forall h | h in blocks :: blocks[h].Previous() == ZERO_HASH || blocks[h].Previous() in blocks
  }

  ghost predicate Inv(s: State) {
    && s.lastKnownValid.Some?
    && s.coinstate.blockByHash == WithBlocks(s.lastKnownValid.value.blockByHash, s.buffer)
    && Novel(s.lastKnownValid.value.blockByHash, s.buffer)
    && s.disk == s.lastKnownValid.value.blockByHash
    && ParentClosed(s.disk) && ParentClosed(s.coinstate.blockByHash)
  }

  lemma Appended(blocks: BlockMap, buffer: seq<Block>, b: Block)
    ensures WithBlocks(blocks, buffer + [b]) == WithBlock(WithBlocks(blocks, buffer), b)
    ensures Novel(blocks, buffer + [b]) <==> Novel(blocks, buffer) && BlockHash(b) !in WithBlocks(blocks, buffer)
  {
    hide BlockHash, WithBlock;
    assert (buffer + [b])[..|buffer|] == buffer;
  }

  lemma {:induction false} BufferOnlyAdds(blocks: BlockMap, buffer: seq<Block>, h: Hash)
    requires h in blocks
    ensures h in WithBlocks(blocks, buffer)
    decreases |buffer|
  {
    hide BlockHash;
    if buffer != [] {
      BufferOnlyAdds(blocks, buffer[..|buffer| - 1], h);
    }
  }

  lemma {:induction false} FlushedAppend(disk: BlockMap, buffer: seq<Block>, b: Block)
    ensures Flushed(disk, buffer + [b]) ==
            var before := Flushed(disk, buffer); if BlockHash(b) in before then before else WithBlock(before, b)
    decreases |buffer|
  {
    hide BlockHash, WithBlock;
    if buffer == [] {
      assert [b][1..] == [] && buffer + [b] == [b];
    } else {
      assert (buffer + [b])[1..] == buffer[1..] + [b];
      FlushedAppend(if BlockHash(buffer[0]) in disk then disk else WithBlock(disk, buffer[0]), buffer[1..], b);
    }
  }

  /** Flushing novel blocks drops none of them and overwrites nothing. */
  lemma {:induction false} FlushAddsAll(disk: BlockMap, buffer: seq<Block>)
    requires Novel(disk, buffer)
    ensures Flushed(disk, buffer) == WithBlocks(disk, buffer)
    decreases |buffer|
  {
    hide BlockHash, WithBlock;
    if buffer != [] {
      var front, last := buffer[..|buffer| - 1], buffer[|buffer| - 1];
      FlushAddsAll(disk, front);
      FlushedAppend(disk, front, last);
      assert front + [last] == buffer;
    }
  }

  lemma AddedBlocks(cs: CoinState, b: Block)
    requires AddBlockNoValidation(cs, b).Ok?
    ensures AddBlockNoValidation(cs, b).value.blockByHash == WithBlock(cs.blockByHash, b)
  {
    hide BlockHash, AppliedBlock, NextCurrent;
  }

  lemma ClosedUnderAdding(blocks: BlockMap, b: Block)
    requires ParentClosed(blocks) && b.Previous() in blocks
    ensures ParentClosed(WithBlock(blocks, b))
  {
    hide BlockHash;
  }

  /** Whatever the state, a step breaks the invariant exactly when adding the block fails, or when the block is invalid
      and cleaning the pool for the state to go back to raises. */
  lemma StepKeepsInvUnless(cp: Checkpoints, s: State, m: Received)
    requires Inv(s)
    ensures Inv(Step(cp, s, m).0) <==>
              !(IsTaken(s, m) &&
                (AddBlockNoValidation(s.coinstate, m.block).Err? ||
                 (IsValidated(m) && BlockInCoinstate(cp, m.block, s.coinstate).Err? &&
                  Cleaned(s.lastKnownValid.value, s.pool).Err?)))
  {
    hide BlockHash, BlockByItself, BlockInCoinstate, AddBlockNoValidation, Cleaned, Flushed, WithBlock,
      WithBlocks, Novel, ParentClosed;
    if IsTaken(s, m) {
      var valid, b := s.lastKnownValid.value.blockByHash, m.block;
      var longer := s.buffer + [b];
      Appended(valid, s.buffer, b);
      AddsIts(s.coinstate.blockByHash, b);
      if BlockHash(b) in valid {
        BufferOnlyAdds(valid, s.buffer, BlockHash(b));
      }
      assert BlockHash(b) !in valid;
      if AddBlockNoValidation(s.coinstate, b).Ok? {
        AddedBlocks(s.coinstate, b);
        ClosedUnderAdding(s.coinstate.blockByHash, b);
        FlushAddsAll(valid, longer);
        NothingBuffered(AddBlockNoValidation(s.coinstate, b).value.blockByHash);
        NothingBuffered(valid);
      }
    }
  }

  lemma AddsIts(blocks: BlockMap, b: Block)
    ensures BlockHash(b) in WithBlock(blocks, b)
  {
    hide BlockHash;
  }

  lemma NothingBuffered(blocks: BlockMap)
    ensures WithBlocks(blocks, []) == blocks && Novel(blocks, [])
  {
  }

  // ----- what it keeps as long as transactions do not collide

  /** Both remembered states come from known transactions, and the pool is valid and conflict-free at the head. */
  ghost predicate NodeOk(s: State, ts: set<Transaction>) {
    && StateSourced(s.coinstate, ts)
    && s.lastKnownValid.Some? && StateSourced(s.lastKnownValid.value, ts)
    && PoolOk(s.coinstate, s.pool)
  }

  /** A received block does not hash to the 32 zero bytes that stand for having no parent. */
  ghost predicate NotZeroHashed(e: Event) {
    e.BlockReceived? ==> BlockHash(e.m.block) != ZERO_HASH
  }

  /** And its transactions are among `ts`. */
  ghost predicate Fits(e: Event, ts: set<Transaction>) {
    NotZeroHashed(e) && (e.BlockReceived? ==> forall t | t in e.m.block.transactions :: t in ts)
  }

  /** Changing to any sourced state cannot raise and leaves a pool that is valid there. */
  lemma ChangeKeepsNodeOk(s: State, cs: CoinState, validated: bool, ts: set<Transaction>)
    requires NodeOk(s, ts) && StateSourced(cs, ts) && NoCollisionIn(ts)
    ensures WithCoinstate(s, cs, validated).1.Ok? && NodeOk(WithCoinstate(s, cs, validated).0, ts)
  {
    hide PoolOk, Cleaned, NoCollisionIn, Sourced;
    HeadChangeKeepsSpendable(s.coinstate, cs, s.pool, ts);
  }

  /** A block received, validated or not, keeps the pool valid at the head; an exception comes only from adding. */
  lemma BlockKeepsNodeOk(cp: Checkpoints, s: State, m: Received, ts: set<Transaction>)
    requires NodeOk(s, ts) && NoCollisionIn(ts) && Fits(BlockReceived(m), ts)
    ensures NodeOk(Step(cp, s, m).0, ts)
    ensures Step(cp, s, m).1.Err? <==> IsTaken(s, m) && AddBlockNoValidation(s.coinstate, m.block).Err?
  {
    hide BlockHash, BlockByItself, BlockInCoinstate, AddBlockNoValidation, WithCoinstate, StateSourced, PoolOk, Flushed,
      NoCollisionIn, IsValidated;
    if IsTaken(s, m) {
      var saved, changed := s.(buffer := s.buffer + [m.block]), AddBlockNoValidation(s.coinstate, m.block);
      ChangeKeepsNodeOk(saved, s.lastKnownValid.value, true, ts);
      if changed.Ok? {
        SourcesGrow(s.coinstate, m.block, ts);
        ChangeKeepsNodeOk(saved, changed.value, IsValidated(m), ts);
      }
    }
  }

  lemma SourcesGrow(cs: CoinState, b: Block, ts: set<Transaction>)
    requires StateSourced(cs, ts) && b.Previous() in cs.blockByHash && AddBlockNoValidation(cs, b).Ok?
    requires BlockHash(b) != ZERO_HASH && forall t | t in b.transactions :: t in ts
    ensures StateSourced(AddBlockNoValidation(cs, b).value, ts)
  {
    hide BlockHash, AddBlockNoValidation, StateSourced;
    GrowthKeepsSources(cs, b, ts);
  }

  lemma OfferKeepsNodeOk(s: State, t: Transaction, ts: set<Transaction>)
    requires NodeOk(s, ts)
    ensures NodeOk(Offered(s, t).0, ts)
  {
    hide StateSourced, InHeadState, NonCoinbaseByItself, References;
  }

  lemma EventKeepsNodeOk(cp: Checkpoints, s: State, e: Event, ts: set<Transaction>)
    requires NodeOk(s, ts) && NoCollisionIn(ts) && Fits(e, ts)
    ensures NodeOk(EventStep(cp, s, e).0, ts)
  {
    hide NodeOk, Fits, NoCollisionIn, Step, Offered;
    match e
    case BlockReceived(m) => BlockKeepsNodeOk(cp, s, m, ts);
    case TransactionReceived(t) => OfferKeepsNodeOk(s, t, ts);
  }

  /** The one way to break the invariant, as a caller can check it before the call: the block gets past the first
      checks and spends what is neither unspent at its parent nor created earlier in it. */
  ghost predicate Breaks(s: State, m: Received) {
    IsTaken(s, m) && !IsFunded(s.coinstate, m.block)
  }

  /** The current blocks are the last known valid ones plus the write buffer, and the disk holds exactly the last known
      valid ones: a step keeps this unless the block is not funded, and then it does not. */
  lemma StepKeepsInv(cp: Checkpoints, s: State, m: Received, ts: set<Transaction>)
    requires Inv(s) && NodeOk(s, ts) && NoCollisionIn(ts)
    ensures Inv(Step(cp, s, m).0) <==> !Breaks(s, m)
  {
    hide BlockHash, BlockByItself, BlockInCoinstate, AddBlockNoValidation, Cleaned, Step, Inv, StateSourced, PoolOk,
      IsFunded, NoCollisionIn;
    InvHasValid(s);
    StepKeepsInvUnless(cp, s, m);
    RollbackCleans(s, ts);
    if IsTaken(s, m) {
      AddSucceedsExactly(s.coinstate, m.block, m.now, ts);
    }
  }

  lemma InvHasValid(s: State)
    requires Inv(s)
    ensures s.lastKnownValid.Some?
  {
  }

  lemma RollbackCleans(s: State, ts: set<Transaction>)
    requires NodeOk(s, ts) && NoCollisionIn(ts)
    ensures Cleaned(s.lastKnownValid.value, s.pool).Ok?
  {
    hide PoolOk, Cleaned, NoCollisionIn, Sourced;
    HeadChangeKeepsSpendable(s.coinstate, s.lastKnownValid.value, s.pool, ts);
  }

  /** With no hypothesis at all, the transactions of the pool stay valid by themselves and free of shared references. */
  lemma EventKeepsPoolSound(cp: Checkpoints, s: State, e: Event)
    requires SoundPool(s.pool)
    ensures SoundPool(EventStep(cp, s, e).0.pool)
  {
    hide BlockHash, BlockByItself, BlockInCoinstate, AddBlockNoValidation, Cleaned, Flushed, InHeadState,
      NonCoinbaseByItself, References, IsValidated;
    if e.BlockReceived? {
      var changed := AddBlockNoValidation(s.coinstate, e.m.block);
      if changed.Ok? && Cleaned(changed.value, s.pool).Ok? {
        PoolOkIsSound(changed.value, s.pool);
      }
      if s.lastKnownValid.Some? && Cleaned(s.lastKnownValid.value, s.pool).Ok? {
        PoolOkIsSound(s.lastKnownValid.value, s.pool);
      }
    }
  }

  lemma PoolOkIsSound(cs: CoinState, pool: seq<Transaction>)
    requires SoundPool(pool) && Cleaned(cs, pool).Ok?
    ensures SoundPool(Cleaned(cs, pool).value)
  {
    hide SoundPool, Cleaned, InHeadState;
    CleanedIsOk(cs, pool);
  }

  // ----- whole runs

  /** Event after event, from any peers; an exception costs the connection and leaves the state as the step left it. */
  ghost function Run(cp: Checkpoints, s: State, es: seq<Event>): State {
    if es == [] then s else EventStep(cp, Run(cp, s, es[..|es| - 1]), es[|es| - 1]).0
  }

  lemma RunStep(cp: Checkpoints, s: State, es: seq<Event>)
    requires es != []
    ensures Run(cp, s, es) == EventStep(cp, Run(cp, s, es[..|es| - 1]), es[|es| - 1]).0
    ensures es[|es| - 1] in es && forall e | e in es[..|es| - 1] :: e in es
  {
    hide EventStep;
  }

  lemma RunStart(cp: Checkpoints, s: State)
    ensures Run(cp, s, []) == s
  {
  }

  /** In every state of every run the pool is valid and conflict-free at the head, through validated, skipped and
      rolled-back blocks. */
  lemma {:induction false} RunKeepsNodeOk(cp: Checkpoints, s: State, es: seq<Event>, ts: set<Transaction>)
    requires NodeOk(s, ts) && NoCollisionIn(ts) && forall e | e in es :: Fits(e, ts)
    ensures NodeOk(Run(cp, s, es), ts)
    decreases |es|
  {
    hide NodeOk, NoCollisionIn, Fits, EventStep, Run;
    if es == [] {
      RunStart(cp, s);
    } else {
      RunStep(cp, s, es);
      RunKeepsNodeOk(cp, s, es[..|es| - 1], ts);
      EventKeepsNodeOk(cp, Run(cp, s, es[..|es| - 1]), es[|es| - 1], ts);
    }
  }

  /** Every block of the run that gets past the first checks is funded when its turn comes: every add that is reached
      succeeds. */
  ghost predicate AllFunded(cp: Checkpoints, s: State, es: seq<Event>) {
    forall n {:trigger es[..n]} | 0 <= n < |es| && es[n].BlockReceived? :: !Breaks(Run(cp, s, es[..n]), es[n].m)
  }

  lemma AllFundedPrefix(cp: Checkpoints, s: State, es: seq<Event>)
    requires es != [] && AllFunded(cp, s, es)
    ensures AllFunded(cp, s, es[..|es| - 1])
    ensures es[|es| - 1].BlockReceived? ==> !Breaks(Run(cp, s, es[..|es| - 1]), es[|es| - 1].m)
  {
    hide Breaks, Run;
    var before := es[..|es| - 1];
    forall n | 0 <= n < |before| && before[n].BlockReceived?
      ensures !Breaks(Run(cp, s, before[..n]), before[n].m)
    {
      assert before[..n] == es[..n] && before[n] == es[n];
    }
  }

  lemma {:induction false} FlushKeeps(disk: BlockMap, buffer: seq<Block>)
    ensures SubMap(disk, Flushed(disk, buffer))
    decreases |buffer|
  {
    hide BlockHash;
    if buffer != [] {
      FlushKeeps(if BlockHash(buffer[0]) in disk then disk else WithBlock(disk, buffer[0]), buffer[1..]);
    }
  }

  lemma StepKeepsDisk(cp: Checkpoints, s: State, e: Event)
    ensures SubMap(s.disk, EventStep(cp, s, e).0.disk)
  {
    hide BlockHash, BlockByItself, BlockInCoinstate, AddBlockNoValidation, Cleaned, Flushed, PoolVerdict, IsValidated;
    if e.BlockReceived? {
      FlushKeeps(s.disk, s.buffer + [e.m.block]);
    }
  }

  lemma OfferKeepsInv(s: State, t: Transaction)
    requires Inv(s)
    ensures Inv(Offered(s, t).0)
  {
    hide PoolVerdict, WithBlocks, Novel, ParentClosed;
  }

  /** Over every run in which every add that is reached succeeds: memory is the last known valid blocks plus the
      buffer, the disk holds exactly the last known valid blocks, closed under parents, and never loses one. */
  lemma {:induction false} RunKeepsInv(cp: Checkpoints, s: State, es: seq<Event>, ts: set<Transaction>)
    requires Inv(s) && NodeOk(s, ts) && NoCollisionIn(ts) && forall e | e in es :: Fits(e, ts)
    requires AllFunded(cp, s, es)
    ensures Inv(Run(cp, s, es)) && SubMap(s.disk, Run(cp, s, es).disk)
    decreases |es|
  {
    hide Inv, NodeOk, NoCollisionIn, Fits, Run, AllFunded, Breaks, SubMap, Step, Offered;
    if es == [] {
      RunStart(cp, s);
      SubMapItself(s.disk);
    } else {
      var before, e := Run(cp, s, es[..|es| - 1]), es[|es| - 1];
      RunStep(cp, s, es);
      AllFundedPrefix(cp, s, es);
      RunKeepsInv(cp, s, es[..|es| - 1], ts);
      RunKeepsNodeOk(cp, s, es[..|es| - 1], ts);
      StepKeepsDisk(cp, before, e);
      SubMapTransitive(s.disk, before.disk, Run(cp, s, es).disk);
      match e
      case BlockReceived(m) => StepKeepsInv(cp, before, m, ts);
      case TransactionReceived(t) => OfferKeepsInv(before, t);
    }
  }

  // ----- what becomes of a block that is not funded

  /** A block that is not funded stays in the buffer, and the next validated block takes it to disk, although no state
      ever held it. */
  lemma UnfundedBlockReachesDisk(cp: Checkpoints, s: State, m: Received, next: Received, ts: set<Transaction>)
    requires Inv(s) && NodeOk(s, ts) && NoCollisionIn(ts) && Breaks(s, m)
    requires Fits(BlockReceived(next), ts) && IsTaken(s, next) && IsValidated(next)
    requires next.block.Height() > cp.maxHeight && BlockInCoinstate(cp, next.block, s.coinstate).Ok?
    requires BlockHash(next.block) != BlockHash(m.block)
    ensures var after := Run(cp, s, [BlockReceived(m), BlockReceived(next)]);
            && BlockHash(m.block) in after.disk
            && after.lastKnownValid.Some? && BlockHash(m.block) !in after.lastKnownValid.value.blockByHash
            && BlockHash(m.block) !in after.coinstate.blockByHash
  {
    hide BlockHash, BlockByItself, BlockInCoinstate, AddBlockNoValidation, Inv, StateSourced, PoolOk, Run, IsFunded,
      NoCollisionIn, Step, IsValidated;
    var es := [BlockReceived(m), BlockReceived(next)];
    assert es[..1] == [BlockReceived(m)] && es[..1][..0] == [];
    RunStart(cp, s);
    RunStep(cp, s, es[..1]);
    RunStep(cp, s, es);
    AddSucceedsExactly(s.coinstate, m.block, m.now, ts);
    ValidatedIsFunded(cp, s.coinstate, next.block, next.now);
    AddSucceedsExactly(s.coinstate, next.block, next.now, ts);
    SourcesGrow(s.coinstate, next.block, ts);
    ChangeKeepsNodeOk(s, AddBlockNoValidation(s.coinstate, next.block).value, true, ts);
    FlushTakesBoth(cp, s, m, next);
  }

  lemma FlushTakesBoth(cp: Checkpoints, s: State, m: Received, next: Received)
    requires IsTaken(s, m) && AddBlockNoValidation(s.coinstate, m.block).Err?
    requires IsTaken(s, next) && IsValidated(next) && BlockHash(next.block) != BlockHash(m.block)
    requires AddBlockNoValidation(s.coinstate, next.block).Ok?
    requires BlockInCoinstate(cp, next.block, s.coinstate).Ok?
    requires Cleaned(AddBlockNoValidation(s.coinstate, next.block).value, s.pool).Ok?
    ensures var after := Step(cp, Step(cp, s, m).0, next).0;
            && BlockHash(m.block) in after.disk
            && after.lastKnownValid.Some? && BlockHash(m.block) !in after.lastKnownValid.value.blockByHash
            && BlockHash(m.block) !in after.coinstate.blockByHash
  {
    hide BlockHash, BlockByItself, BlockInCoinstate, AddBlockNoValidation, Cleaned, Flushed;
    var buffer := s.buffer + [m.block];
    FlushedAppend(s.disk, s.buffer, m.block);
    FlushedAppend(s.disk, buffer, next.block);
    AddedBlocks(s.coinstate, next.block);
  }

  // ----- without skipped validation the states stay ledgers

  /** A received block is validated, and its height is above the checkpoints. */
  ghost predicate FullyChecked(cp: Checkpoints, e: Event) {
    NotZeroHashed(e) && (e.BlockReceived? ==> IsValidated(e.m) && e.m.block.Height() > cp.maxHeight)
  }

  ghost predicate BothLedgers(s: State) {
    LedgerOk(s.coinstate) && s.lastKnownValid.Some? && LedgerOk(s.lastKnownValid.value)
  }

  lemma ValidatedStepKeepsLedger(cp: Checkpoints, s: State, e: Event)
    requires BothLedgers(s) && FullyChecked(cp, e)
    ensures BothLedgers(EventStep(cp, s, e).0)
  {
    hide BlockHash, BlockByItself, BlockInCoinstate, AddBlockNoValidation, Cleaned, Flushed, LedgerOk, Ledger.Extends,
      PoolVerdict;
    if e.BlockReceived? && IsTaken(s, e.m) && BlockInCoinstate(cp, e.m.block, s.coinstate).Ok? {
      ValidatedExtends(cp, s.coinstate, e.m.block, e.m.now);
      GrowthKeepsLedger(s.coinstate, e.m.block);
    }
  }

  lemma {:induction false} ValidatedRunKeepsLedger(cp: Checkpoints, s: State, es: seq<Event>)
    requires BothLedgers(s) && forall e | e in es :: FullyChecked(cp, e)
    ensures BothLedgers(Run(cp, s, es))
    decreases |es|
  {
    hide BothLedgers, FullyChecked, EventStep, Run;
    if es == [] {
      RunStart(cp, s);
    } else {
      RunStep(cp, s, es);
      ValidatedRunKeepsLedger(cp, s, es[..|es| - 1]);
      ValidatedStepKeepsLedger(cp, Run(cp, s, es[..|es| - 1]), es[|es| - 1]);
    }
  }

  // ----- where a run starts

  /** The state of a program that has read a ledger state from disk. */
  ghost function Start(cs: CoinState): State {
    State(cs, [], Some(cs), [], cs.blockByHash)
  }

  /** The transactions that a run from `cs` can bring in: those stored at the start and those of the blocks received. */
  ghost function TransactionsOfRun(cs: CoinState, es: seq<Event>): set<Transaction> {
    StoredTransactions(cs.blockByHash) +
    set e, t | e in es && e.BlockReceived? && t in e.m.block.transactions :: t
  }

  lemma StartIsNodeOk(cs: CoinState, es: seq<Event>)
    requires LedgerOk(cs)
    requires forall e | e in es :: NotZeroHashed(e)
    ensures Inv(Start(cs)) && NodeOk(Start(cs), TransactionsOfRun(cs, es)) && BothLedgers(Start(cs))
    ensures forall e | e in es :: Fits(e, TransactionsOfRun(cs, es))
  {
    hide LedgerOk, BlockHash, StateSourced, WithBlocks, Novel, ParentClosed, StoredTransactions;
    LedgerIsSourced(cs);
    SourcedInMore(cs, StoredTransactions(cs.blockByHash), TransactionsOfRun(cs, es));
    NothingBuffered(cs.blockByHash);
    LedgerIsClosed(cs);
  }

  lemma LedgerIsClosed(cs: CoinState)
    requires LedgerOk(cs)
    ensures ParentClosed(cs.blockByHash)
  {
    hide BlockHash, EntryOk, Childless, CurrentOk;
    assert forall h | h in cs.blockByHash :: Linked(cs.blockByHash, h);
  }

  /** From any ledger state, in every state of every run without colliding transactions: each pooled transaction is
      valid by itself and at the head, and no two share a reference. */
  lemma PoolStaysValid(cp: Checkpoints, cs: CoinState, es: seq<Event>)
    requires LedgerOk(cs) && NoCollisionIn(TransactionsOfRun(cs, es))
    requires forall e | e in es :: NotZeroHashed(e)
    ensures var s := Run(cp, Start(cs), es);
            && (forall t | t in s.pool :: NonCoinbaseByItself(t).Ok? && InHeadState(t, s.coinstate).Ok?)
            && Distinct(References(s.pool))
  {
    hide LedgerOk, NoCollisionIn, TransactionsOfRun, Run, Start, Fits, StateSourced, Inv, NonCoinbaseByItself,
      InHeadState, References;
    StartIsNodeOk(cs, es);
    RunKeepsNodeOk(cp, Start(cs), es, TransactionsOfRun(cs, es));
  }
}

/** Whole runs of the ledger: from a trusted state, one validated block after another. */
module Runs {
  import opened Basics
  import opened Crypto
  import opened Datatypes
  import opened Balances
  import opened Chains
  import opened CoinStates
  import opened Consensus
  import opened Totals
  import opened ChainRules
  import opened Supply
  import opened History
  import opened BalanceIndex
  import opened Ledger
  import opened Pow

  /** A block and the time at which it is added. */
  type Arrival = (Block, int)

  /** A block may be added: it is not stored yet, not below the checkpoints, and passes both validations. */
  ghost predicate Acceptable(cp: Checkpoints, cs: CoinState, a: Arrival) {
    && BlockHash(a.0) != ZERO_HASH && BlockHash(a.0) !in cs.blockByHash
    && a.0.Height() > cp.maxHeight
    && AddBlock(cp, cs, a.0, a.1).Ok?
  }

  /** The state after adding the blocks of `run`, in order, each acceptable when its turn comes. */
  ghost function After(cp: Checkpoints, base: CoinState, run: seq<Arrival>): Option<CoinState> {
    if run == [] then Some(base)
    else
      match After(cp, base, run[..|run| - 1])
      case None => None
      case Some(cs) =>
        var a := run[|run| - 1];
        if Acceptable(cp, cs, a) then Some(AddBlock(cp, cs, a.0, a.1).value) else None
  }

  lemma AcceptedKeepsLedger(cp: Checkpoints, cs: CoinState, a: Arrival)
    requires LedgerOk(cs) && Acceptable(cp, cs, a)
    ensures Ledger.Extends(cs, a.0)
    ensures AddBlock(cp, cs, a.0, a.1) == AddBlockNoValidation(cs, a.0)
    ensures LedgerOk(AddBlock(cp, cs, a.0, a.1).value)
    ensures AddBlock(cp, cs, a.0, a.1).value.blockByHash == cs.blockByHash[BlockHash(a.0) := a.0]
  {
    hide BlockByItself, BlockInCoinstate, BlockHash, LedgerOk, Ledger.Extends, AddBlockNoValidation;
    assert BlockByItself(a.0, a.1).Ok? && BlockInCoinstate(cp, a.0, cs).Ok?;
    ValidatedExtends(cp, cs, a.0, a.1);
    GrowthKeepsLedger(cs, a.0);
  }

  /** Validation is enough: once both validations pass, adding the block cannot fail. */
  lemma ValidatedIsAdded(cp: Checkpoints, cs: CoinState, b: Block, now: int)
    requires LedgerOk(cs) && b.Height() > cp.maxHeight
    requires BlockHash(b) != ZERO_HASH && BlockHash(b) !in cs.blockByHash
    requires BlockByItself(b, now).Ok? && BlockInCoinstate(cp, b, cs).Ok?
    ensures AddBlock(cp, cs, b, now).Ok?
  {
    hide BlockByItself, BlockInCoinstate, BlockHash, LedgerOk, Ledger.Extends, AddBlockNoValidation;
    ValidatedExtends(cp, cs, b, now);
    GrowthKeepsLedger(cs, b);
  }

  lemma LastStep(cp: Checkpoints, base: CoinState, run: seq<Arrival>)
    requires run != [] && After(cp, base, run).Some?
    ensures After(cp, base, run[..|run| - 1]).Some?
    ensures var cs, a := After(cp, base, run[..|run| - 1]).value, run[|run| - 1];
            && Acceptable(cp, cs, a) && AddBlock(cp, cs, a.0, a.1).Ok?
            && After(cp, base, run) == Some(AddBlock(cp, cs, a.0, a.1).value)
  {
    hide AddBlock;
  }

  /** Every reachable state satisfies the ledger invariant, and what was stored stays stored. */
  lemma {:induction false} RunKeepsLedger(cp: Checkpoints, base: CoinState, run: seq<Arrival>)
    requires LedgerOk(base) && After(cp, base, run).Some?
    ensures LedgerOk(After(cp, base, run).value)
    ensures SubMap(base.blockByHash, After(cp, base, run).value.blockByHash)
    decreases |run|
  {
    hide LedgerOk, AddBlock, Acceptable, SubMap, BlockHash;
    SubMapItself(base.blockByHash);
    if run != [] {
      LastStep(cp, base, run);
      var before, a := After(cp, base, run[..|run| - 1]).value, run[|run| - 1];
      RunKeepsLedger(cp, base, run[..|run| - 1]);
      AcceptedKeepsLedger(cp, before, a);
      AcceptedIsNew(cp, before, a);
      SubMapGrows(base.blockByHash, before.blockByHash, BlockHash(a.0), a.0);
    }
  }

  // ----- what holds at every stored hash of every reachable state

  /** The incremental maps are replays along the parent pointers. */
  lemma IndexesAreReplays(cs: CoinState, h: Hash)
    requires LedgerOk(cs) && h in cs.blockByHash
    ensures ParentLinked(ChainAt(cs.blockByHash, h))
    ensures h in cs.utxoByHash && Replayed(ChainAt(cs.blockByHash, h)) == Ok(cs.utxoByHash[h])
    ensures h in cs.heightsByHash
    ensures forall i: nat :: i in cs.heightsByHash[h] <==> i <= cs.blockByHash[h].Height()
    ensures forall i: nat | i in cs.heightsByHash[h] :: cs.heightsByHash[h][i] == ChainAt(cs.blockByHash, h)[i]
  {
    EntryFacts(cs, h);
    ChainIsParentLinked(cs.blockByHash, h);
  }

  /** The unspent value never exceeds what the subsidies minted, and that never exceeds the stated maximum. */
  lemma SupplyIsBounded(cs: CoinState, h: Hash)
    requires LedgerOk(cs) && h in cs.blockByHash
    ensures h in cs.utxoByHash
    ensures Total(cs.utxoByHash[h]) <= SubsidySum(cs.blockByHash[h].Height() + 1) <= MAX_SASHIMI
  {
    EntryFacts(cs, h);
    ChainSupplyCap(ChainAt(cs.blockByHash, h));
  }

  /** What the block at height `i` of a stored chain spent is not unspent at any stored hash on top of it. */
  lemma NoDoubleSpend(cs: CoinState, h: Hash, i: nat, r: OutputReference)
    requires LedgerOk(cs) && h in cs.blockByHash && NoCollision(ChainAt(cs.blockByHash, h))
    requires i <= cs.blockByHash[h].Height() && SpendsIn(ChainAt(cs.blockByHash, h)[i], r)
    ensures h in cs.utxoByHash && r !in cs.utxoByHash[h]
    ensures Distinct(TransactionHashes(AllTransactions(ChainAt(cs.blockByHash, h))))
  {
    hide ValidChain, NoCollision, SpendsIn, Replayed, AllTransactions, TransactionHashes, ChainAt;
    var chain := ChainAt(cs.blockByHash, h);
    EntryFacts(cs, h);
    SpentStaysSpent(chain, i, |chain|, r);
    assert chain[..|chain|] == chain;
    NoTransactionTwice(chain);
  }

  /** The balance index at a stored hash exists and summarises the unspent outputs stored under that hash. */
  lemma IndexSummarisesUtxo(cs: CoinState, h: Hash)
    requires LedgerOk(cs) && h in cs.blockByHash && NoCollision(ChainAt(cs.blockByHash, h))
    ensures h in cs.utxoByHash
    ensures IndexAt(cs.blockByHash, Some(h)).Ok?
    ensures Summarises(IndexAt(cs.blockByHash, Some(h)).value, cs.utxoByHash[h])
  {
    hide ValidChain, NoCollision, Summarises, ChainAt;
    EntryFacts(cs, h);
    ChainSummary(ChainAt(cs.blockByHash, h));
  }

  // ----- fork choice

  /** `current` is the hash of the earliest block in `added` among those of maximum height. */
  ghost predicate EarliestHighest(added: seq<Block>, current: Hash) {
    exists i | 0 <= i < |added| :: IsEarliestHighest(added, i) && BlockHash(added[i]) == current
  }

  ghost predicate IsEarliestHighest(added: seq<Block>, i: nat)
    requires i < |added|
  {
    && (forall j | 0 <= j < i :: added[j].Height() < added[i].Height())
    && (forall j | i <= j < |added| :: added[j].Height() <= added[i].Height())
  }

  ghost function BlocksOf(run: seq<Arrival>): seq<Block> {
    seq(|run|, i requires 0 <= i < |run| => run[i].0)
  }

  lemma HighestStep(added: seq<Block>, b: Block, current: Hash, next: Hash, top: Block)
    requires EarliestHighest(added, current) && BlockHash(top) == current
    requires forall i | 0 <= i < |added| && BlockHash(added[i]) == current :: added[i].Height() == top.Height()
    requires next == if b.Height() > top.Height() then BlockHash(b) else current
    ensures EarliestHighest(added + [b], next)
  {
    hide BlockHash;
    var i :| 0 <= i < |added| && IsEarliestHighest(added, i) && BlockHash(added[i]) == current;
    var more := added + [b];
    if b.Height() > top.Height() {
      assert IsEarliestHighest(more, |added|);
    } else {
      assert IsEarliestHighest(more, i);
    }
  }

  lemma NextCurrentByHeight(cs: CoinState, b: Block)
    requires LedgerOk(cs) && Ledger.Extends(cs, b)
    ensures NextCurrent(cs, b) == Ok(
              if b.Height() > cs.blockByHash[cs.current.value].Height() then BlockHash(b) else cs.current.value)
  {
    hide BlockHash, Childless, TargetOk, AppliedBlock, TransactionsOk, Replayed;
  }

  lemma AddedCurrent(cs: CoinState, b: Block)
    requires AddBlockNoValidation(cs, b).Ok?
    ensures NextCurrent(cs, b).Ok? && AddBlockNoValidation(cs, b).value.current == Some(NextCurrent(cs, b).value)
  {
    hide BlockHash, AppliedBlock, NextCurrent;
  }

  ghost predicate StoredUnderHash(cs: CoinState, added: seq<Block>) {
    forall i | 0 <= i < |added| ::
      BlockHash(added[i]) in cs.blockByHash && cs.blockByHash[BlockHash(added[i])] == added[i]
  }

  /** In every state reached from a single first block the head is the earliest block of maximum height. */
  lemma {:induction false} HeadIsEarliestHighest(cp: Checkpoints, base: CoinState, g: Block, run: seq<Arrival>)
    requires LedgerOk(base) && base.blockByHash == map[BlockHash(g) := g]
    requires After(cp, base, run).Some?
    ensures var cs := After(cp, base, run).value;
            && cs.current.Some? && EarliestHighest([g] + BlocksOf(run), cs.current.value)
            && StoredUnderHash(cs, [g] + BlocksOf(run))
    decreases |run|
  {
    hide AddBlock, BlockHash, EarliestHighest, LedgerOk, Acceptable, StoredUnderHash;
    if run == [] {
      assert [g] + BlocksOf(run) == [g];
      SingleIsHighest(cp, base, g);
    } else {
      var before, a := run[..|run| - 1], run[|run| - 1];
      HeadIsEarliestHighest(cp, base, g, before);
      RunKeepsLedger(cp, base, before);
      assert [g] + BlocksOf(run) == ([g] + BlocksOf(before)) + [a.0];
      HeadStep(cp, After(cp, base, before).value, a, [g] + BlocksOf(before));
    }
  }

  lemma SingleIsHighest(cp: Checkpoints, base: CoinState, g: Block)
    requires LedgerOk(base) && base.blockByHash == map[BlockHash(g) := g]
    ensures base.current.Some? && EarliestHighest([g], base.current.value) && StoredUnderHash(base, [g])
  {
    hide BlockHash;
    assert IsEarliestHighest([g], 0);
  }

  lemma HeadStep(cp: Checkpoints, cs: CoinState, a: Arrival, added: seq<Block>)
    requires LedgerOk(cs) && Acceptable(cp, cs, a)
    requires cs.current.Some? && EarliestHighest(added, cs.current.value) && StoredUnderHash(cs, added)
    ensures var cs' := AddBlock(cp, cs, a.0, a.1).value;
            && cs'.current.Some? && EarliestHighest(added + [a.0], cs'.current.value)
            && StoredUnderHash(cs', added + [a.0])
  {
    hide AddBlock, BlockHash, AddBlockNoValidation, Ledger.Extends, NextCurrent, EarliestHighest;
    AcceptedKeepsLedger(cp, cs, a);
    NextCurrentByHeight(cs, a.0);
    AddedCurrent(cs, a.0);
    HighestStep(added, a.0, cs.current.value, NextCurrent(cs, a.0).value, HeadBlock(cs));
  }

  ghost function HeadBlock(cs: CoinState): (b: Block)
    requires LedgerOk(cs)
    ensures BlockHash(b) == cs.current.value && b == cs.blockByHash[cs.current.value]
  {
    assert Linked(cs.blockByHash, cs.current.value);
    cs.blockByHash[cs.current.value]
  }

  /** The head has no stored child, and the heads are exactly the childless blocks. */
  lemma HeadsAreChildless(cs: CoinState)
    requires LedgerOk(cs)
    ensures cs.current.value in cs.heads
    ensures forall h :: h in cs.heads <==> h in cs.blockByHash && !HasChild(cs.blockByHash, h)
  {
    forall k | k in cs.blockByHash ensures cs.blockByHash[k].Previous() != cs.current.value {
      assert Linked(cs.blockByHash, k);
    }
  }

  // ----- the verdict on a block depends only on its parent's entries

  ghost predicate SameEntries(cs: CoinState, cs': CoinState, p: Hash) {
    && p in cs.blockByHash && p in cs'.blockByHash && cs.blockByHash[p] == cs'.blockByHash[p]
    && p in cs.utxoByHash && p in cs'.utxoByHash && cs.utxoByHash[p] == cs'.utxoByHash[p]
    && p in cs.heightsByHash && p in cs'.heightsByHash && cs.heightsByHash[p] == cs'.heightsByHash[p]
    && BlockHash(cs.blockByHash[p]) == p
  }

  lemma {:induction false} TransactionsVerdictLocal(ts: seq<Transaction>, p: Hash, cs: CoinState, cs': CoinState)
    requires SameEntries(cs, cs', p)
    ensures AllInCoinstate(ts, p, cs) == AllInCoinstate(ts, p, cs')
    decreases |ts|
  {
    hide NonCoinbaseInUtxo, BlockHash;
    if ts != [] {
      TransactionsVerdictLocal(ts[1..], p, cs, cs');
    }
  }

  lemma SummaryVerdictLocal(s: BlockSummary, cs: CoinState, cs': CoinState)
    requires SameEntries(cs, cs', s.previousHash)
    ensures SummaryInCoinstate(s, cs) == SummaryInCoinstate(s, cs')
  {
    hide CalculateNewTarget, BlockHash;
  }

  lemma EvidenceLocal(s: BlockSummary, height: nat, ts: seq<Transaction>, cs: CoinState, cs': CoinState)
    requires SameEntries(cs, cs', s.previousHash)
    ensures ConstructPowEvidence(cs, s, height, ts) == ConstructPowEvidence(cs', s, height, ts)
  {
    hide SelectSlices, ConstructSummaryHash, EvidenceHash, BlockHash;
  }

  lemma VerdictLocal(cp: Checkpoints, b: Block, cs: CoinState, cs': CoinState)
    requires SameEntries(cs, cs', b.Previous())
    ensures BlockInCoinstate(cp, b, cs) == BlockInCoinstate(cp, b, cs')
  {
    hide AllInCoinstate, ConstructPowEvidence, SummaryInCoinstate, GetBlockFees, BlockHash, OutputsValue;
    SummaryVerdictLocal(b.header.summary, cs, cs');
    EvidenceLocal(b.header.summary, b.Height(), b.transactions, cs, cs');
    TransactionsVerdictLocal(if b.transactions == [] then [] else b.transactions[1..], b.Previous(), cs, cs');
  }

  /** Two states that agree on the blocks below agree on the entries. */
  lemma EntriesDetermined(cs: CoinState, cs': CoinState, all: BlockMap, p: Hash)
    requires LedgerOk(cs) && LedgerOk(cs') && WellFormedTree(all)
    requires SubMap(cs.blockByHash, all) && SubMap(cs'.blockByHash, all)
    requires p in cs.blockByHash && p in cs'.blockByHash
    ensures SameEntries(cs, cs', p)
  {
    hide ChainAt, Replayed, ValidChain, PathMap, Childless, BlockHash, CurrentOk;
    EntryFacts(cs, p);
    EntryFacts(cs', p);
    ChainStable(cs.blockByHash, all, p);
    ChainStable(cs'.blockByHash, all, p);
    assert Linked(cs.blockByHash, p);
  }

  /** The state is determined by the set of stored blocks, up to which of the highest blocks is the head. */
  lemma StateDeterminedByBlocks(cs: CoinState, cs': CoinState)
    requires LedgerOk(cs) && LedgerOk(cs') && cs.blockByHash == cs'.blockByHash
    ensures cs.utxoByHash == cs'.utxoByHash
    ensures cs.heightsByHash == cs'.heightsByHash
    ensures cs.heads == cs'.heads
    ensures cs.blockByHash[cs.current.value].Height() == cs'.blockByHash[cs'.current.value].Height()
  {
    forall h | h in cs.blockByHash
      ensures cs.utxoByHash[h] == cs'.utxoByHash[h] && cs.heightsByHash[h] == cs'.heightsByHash[h]
    {
      EntriesDetermined(cs, cs', cs.blockByHash, h);
    }
  }

  /** Once its parent is stored, the verdict on a block is the same in every later state. */
  lemma VerdictNeverChanges(cp: Checkpoints, cs: CoinState, run: seq<Arrival>, b: Block)
    requires LedgerOk(cs) && After(cp, cs, run).Some? && b.Previous() in cs.blockByHash
    ensures BlockInCoinstate(cp, b, After(cp, cs, run).value) == BlockInCoinstate(cp, b, cs)
  {
    hide BlockInCoinstate, After;
    RunKeepsLedger(cp, cs, run);
    var cs' := After(cp, cs, run).value;
    EntriesDetermined(cs, cs', cs'.blockByHash, b.Previous());
    VerdictLocal(cp, b, cs, cs');
  }

  // ----- the order of arrival

  /** Each block's parent is in the base or arrives before it. */
  ghost predicate ParentFirst(base: CoinState, run: seq<Arrival>) {
    forall k | 0 <= k < |run| :: ParentBefore(base, run, k)
  }

  ghost predicate ParentBefore(base: CoinState, run: seq<Arrival>, k: nat)
    requires k < |run|
  {
    run[k].0.Previous() in base.blockByHash ||
    exists j | 0 <= j < k :: BlockHash(run[j].0) == run[k].0.Previous()
  }

  ghost function HashesOfRun(run: seq<Arrival>): seq<Hash> {
    seq(|run|, i requires 0 <= i < |run| => BlockHash(run[i].0))
  }

  /** The blocks of `run` are stored in `cs`, and besides them only those of `base`. */
  ghost predicate HoldsExactly(base: CoinState, run: seq<Arrival>, cs: CoinState) {
    && SubMap(base.blockByHash, cs.blockByHash)
    && (forall i | 0 <= i < |run| ::
          BlockHash(run[i].0) in cs.blockByHash && cs.blockByHash[BlockHash(run[i].0)] == run[i].0)
    && (forall h | h in cs.blockByHash :: h in base.blockByHash || h in HashesOfRun(run))
  }

  lemma HoldsStep(base: CoinState, run: seq<Arrival>, cs: CoinState, a: Arrival, cs': CoinState)
    requires HoldsExactly(base, run, cs) && BlockHash(a.0) !in cs.blockByHash
    requires cs'.blockByHash == cs.blockByHash[BlockHash(a.0) := a.0]
    ensures HoldsExactly(base, run + [a], cs')
  {
    hide BlockHash;
    var hs := HashesOfRun(run + [a]);
    assert hs[|run|] == BlockHash(a.0);
    forall h | h in cs'.blockByHash ensures h in base.blockByHash || h in hs {
      if h in cs.blockByHash && h !in base.blockByHash {
        var i :| 0 <= i < |run| && HashesOfRun(run)[i] == h;
        assert hs[i] == h;
      }
    }
  }

  lemma {:induction false} RunHoldsExactly(cp: Checkpoints, base: CoinState, run: seq<Arrival>)
    requires LedgerOk(base) && After(cp, base, run).Some?
    ensures HoldsExactly(base, run, After(cp, base, run).value)
    decreases |run|
  {
    hide *;
    if run == [] {
      NothingHeld(cp, base);
    } else {
      LastStep(cp, base, run);
      var before, a := run[..|run| - 1], run[|run| - 1];
      var cs := After(cp, base, before).value;
      RunHoldsExactly(cp, base, before);
      RunKeepsLedger(cp, base, before);
      AcceptedKeepsLedger(cp, cs, a);
      AcceptedIsNew(cp, cs, a);
      HoldsStep(base, before, cs, a, AddBlock(cp, cs, a.0, a.1).value);
      assert before + [a] == run;
    }
  }

  lemma NothingHeld(cp: Checkpoints, base: CoinState)
    ensures After(cp, base, []) == Some(base) && HoldsExactly(base, [], base)
  {
  }

  /** Some earlier state of the run accepted each of its arrivals. */
  lemma {:induction false} WhenAccepted(
    cp: Checkpoints, base: CoinState, run: seq<Arrival>, k: nat)
    returns (cs: CoinState)
    requires LedgerOk(base) && After(cp, base, run).Some? && k < |run|
    ensures LedgerOk(cs) && Acceptable(cp, cs, run[k])
    ensures SubMap(base.blockByHash, cs.blockByHash)
    ensures SubMap(cs.blockByHash, After(cp, base, run).value.blockByHash)
    decreases |run|
  {
    hide *;
    LastStep(cp, base, run);
    var before, a := run[..|run| - 1], run[|run| - 1];
    var top := After(cp, base, before).value;
    RunKeepsLedger(cp, base, before);
    AcceptedKeepsLedger(cp, top, a);
    AcceptedIsNew(cp, top, a);
    if k == |run| - 1 {
      cs := top;
      SubMapItself(top.blockByHash);
    } else {
      cs := WhenAccepted(cp, base, before, k);
    }
    SubMapGrows(cs.blockByHash, top.blockByHash, BlockHash(a.0), a.0);
  }

  lemma AcceptedIsNew(cp: Checkpoints, cs: CoinState, a: Arrival)
    requires Acceptable(cp, cs, a)
    ensures BlockHash(a.0) !in cs.blockByHash
  {
  }

  /** A block accepted in one state is accepted in every state over the same blocks that has its parent but not it. */
  lemma AcceptedElsewhere(cp: Checkpoints, cs: CoinState, cs': CoinState, all: BlockMap, a: Arrival)
    requires LedgerOk(cs) && LedgerOk(cs') && WellFormedTree(all)
    requires SubMap(cs.blockByHash, all) && SubMap(cs'.blockByHash, all)
    requires Acceptable(cp, cs, a) && a.0.Previous() in cs'.blockByHash && BlockHash(a.0) !in cs'.blockByHash
    ensures Acceptable(cp, cs', a)
  {
    hide BlockByItself, BlockInCoinstate, BlockHash, LedgerOk, Ledger.Extends, WellFormedTree, AddBlockNoValidation;
    assert BlockByItself(a.0, a.1).Ok? && BlockInCoinstate(cp, a.0, cs).Ok?;
    ValidatedHasParent(cp, cs, a);
    EntriesDetermined(cs, cs', all, a.0.Previous());
    VerdictLocal(cp, a.0, cs, cs');
    ValidatedIsAdded(cp, cs', a.0, a.1);
  }

  lemma ValidatedHasParent(cp: Checkpoints, cs: CoinState, a: Arrival)
    requires LedgerOk(cs) && Acceptable(cp, cs, a)
    ensures a.0.Previous() in cs.blockByHash
  {
    hide *;
    LedgerIsTree(cs);
    AcceptedKeepsLedger(cp, cs, a);
    ExtendsHasParent(cs, a.0);
  }

  lemma ExtendsHasParent(cs: CoinState, b: Block)
    requires WellFormedTree(cs.blockByHash) && Ledger.Extends(cs, b)
    ensures b.Previous() in cs.blockByHash
  {
  }

  lemma {:induction false} ReorderedPrefix(
    cp: Checkpoints, base: CoinState, run: seq<Arrival>, other: seq<Arrival>, n: nat)
    requires LedgerOk(base) && After(cp, base, run).Some?
    requires forall a :: a in other ==> a in run
    requires Distinct(HashesOfRun(other)) && ParentFirst(base, other) && n <= |other|
    ensures After(cp, base, other[..n]).Some?
    ensures SubMap(After(cp, base, other[..n]).value.blockByHash, After(cp, base, run).value.blockByHash)
  {
    hide LedgerOk, AddBlock, Acceptable, BlockHash;
    RunKeepsLedger(cp, base, run);
    if n == 0 {
      assert other[..0] == [];
    } else {
      ReorderedPrefix(cp, base, run, other, n - 1);
      ReorderedStep(cp, base, run, other, n - 1);
      assert other[..n][..n - 1] == other[..n - 1];
    }
  }

  lemma ReorderedStep(cp: Checkpoints, base: CoinState, run: seq<Arrival>, other: seq<Arrival>, n: nat)
    requires LedgerOk(base) && After(cp, base, run).Some?
    requires forall a :: a in other ==> a in run
    requires Distinct(HashesOfRun(other)) && ParentFirst(base, other) && n < |other|
    requires After(cp, base, other[..n]).Some?
    requires SubMap(After(cp, base, other[..n]).value.blockByHash, After(cp, base, run).value.blockByHash)
    ensures var cs, a := After(cp, base, other[..n]).value, other[n];
            && Acceptable(cp, cs, a)
            && SubMap(AddBlock(cp, cs, a.0, a.1).value.blockByHash, After(cp, base, run).value.blockByHash)
  {
    hide LedgerOk, AddBlock, Acceptable, BlockHash, After, WellFormedTree;
    var cs, final, a := After(cp, base, other[..n]).value, After(cp, base, run).value, other[n];
    RunKeepsLedger(cp, base, run);
    RunKeepsLedger(cp, base, other[..n]);
    RunHoldsExactly(cp, base, other[..n]);
    RunHoldsExactly(cp, base, run);
    assert a in other;
    var k :| 0 <= k < |run| && run[k] == a;
    var earlier := WhenAccepted(cp, base, run, k);
    AcceptedIsNew(cp, earlier, a);
    ArrivalIsNew(base, other, n, cs);
    ArrivalHasParent(base, other, n, cs);
    LedgerIsTree(final);
    AcceptedElsewhere(cp, earlier, cs, final.blockByHash, a);
    AcceptedKeepsLedger(cp, cs, a);
  }

  lemma ArrivalIsNew(base: CoinState, other: seq<Arrival>, n: nat, cs: CoinState)
    requires n < |other| && Distinct(HashesOfRun(other)) && HoldsExactly(base, other[..n], cs)
    requires BlockHash(other[n].0) !in base.blockByHash
    ensures BlockHash(other[n].0) !in cs.blockByHash
  {
    hide BlockHash;
    var hs := HashesOfRun(other);
    assert forall i | 0 <= i < n :: HashesOfRun(other[..n])[i] == hs[i];
    assert hs[n] == BlockHash(other[n].0);
  }

  lemma ArrivalHasParent(base: CoinState, other: seq<Arrival>, n: nat, cs: CoinState)
    requires n < |other| && ParentFirst(base, other) && HoldsExactly(base, other[..n], cs)
    ensures other[n].0.Previous() in cs.blockByHash
  {
    hide BlockHash;
    assert ParentBefore(base, other, n);
    if other[n].0.Previous() !in base.blockByHash {
      var j :| 0 <= j < n && BlockHash(other[j].0) == other[n].0.Previous();
      assert other[..n][j] == other[j];
    }
  }

  /** Blocks accepted in one order are accepted in every parent-first order, and the two states agree on every
      index and on the height of the head. */
  lemma OrderIsIrrelevant(cp: Checkpoints, base: CoinState, run: seq<Arrival>, other: seq<Arrival>)
    requires LedgerOk(base) && After(cp, base, run).Some?
    requires (forall a :: a in other ==> a in run) && (forall a :: a in run ==> a in other)
    requires Distinct(HashesOfRun(other)) && ParentFirst(base, other)
    ensures After(cp, base, other).Some?
    ensures var cs, cs' := After(cp, base, run).value, After(cp, base, other).value;
            && cs.blockByHash == cs'.blockByHash
            && cs.utxoByHash == cs'.utxoByHash
            && cs.heightsByHash == cs'.heightsByHash
            && cs.heads == cs'.heads
            && cs.current.Some? && cs.current.value in cs.blockByHash
            && cs'.current.Some? && cs'.current.value in cs.blockByHash
            && cs.blockByHash[cs.current.value].Height() == cs.blockByHash[cs'.current.value].Height()
  {
    hide AddBlock, Acceptable, BlockHash, After, WellFormedTree, EntryOk, Childless;
    ReorderedPrefix(cp, base, run, other, |other|);
    assert other[..|other|] == other;
    var cs, cs' := After(cp, base, run).value, After(cp, base, other).value;
    RunKeepsLedger(cp, base, run);
    RunKeepsLedger(cp, base, other);
    RunHoldsExactly(cp, base, run);
    RunHoldsExactly(cp, base, other);
    SameBlocks(base, run, other, cs, cs');
    StateDeterminedByBlocks(cs, cs');
  }

  lemma SameBlocks(base: CoinState, run: seq<Arrival>, other: seq<Arrival>, cs: CoinState, cs': CoinState)
    requires HoldsExactly(base, run, cs) && HoldsExactly(base, other, cs')
    requires SubMap(cs'.blockByHash, cs.blockByHash)
    requires forall a :: a in run ==> a in other
    ensures cs.blockByHash == cs'.blockByHash
  {
    hide BlockHash;
    forall h | h in cs.blockByHash ensures h in cs'.blockByHash {
      if h !in base.blockByHash {
        var i :| 0 <= i < |run| && HashesOfRun(run)[i] == h;
        assert run[i] in run && run[i] in other;
        var j :| 0 <= j < |other| && other[j] == run[i];
      }
    }
  }
}

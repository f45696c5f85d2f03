/** Where the branches of the tree leave the current chain. */
module Forks {
  import opened Basics
  import opened Crypto
  import opened Datatypes
  import opened Chains
  import opened CoinStates
  import opened Consensus
  import opened Ledger
  import opened Runs

  ghost function MainChain(cs: CoinState): seq<Block>
    requires LedgerOk(cs)
  {
    ChainAt(cs.blockByHash, cs.current.value)
  }

  /** `lca` is the highest block that lies on both chains, which agree up to it. */
  ghost predicate IsHighestCommon(chain: seq<Block>, main: seq<Block>, lca: Block) {
    var n := lca.Height();
    && n < |chain| && n < |main| && chain[n] == lca && chain[..n + 1] == main[..n + 1]
    && (forall k | n < k < |chain| && k < |main| :: chain[k] != main[k])
  }

  ghost predicate OnMain(main: seq<Block>, b: Block) {
    b.Height() < |main| && main[b.Height()] == b
  }

  /** The test of the loop, by height and hash, recognises exactly the blocks of the current chain. */
  lemma TestIsMembership(cs: CoinState, b: Block)
    requires LedgerOk(cs) && BlockHash(b) in cs.blockByHash && cs.blockByHash[BlockHash(b)] == b
    ensures ByHeightAtHead(cs).Ok?
    ensures OnMain(MainChain(cs), b) <==>
            var byHeight := ByHeightAtHead(cs).value;
            b.Height() in byHeight && BlockHash(byHeight[b.Height()]) == BlockHash(b)
  {
    hide BlockHash, Childless, ChainAt;
    var h := cs.current.value;
    EntryFacts(cs, h);
    if b.Height() < |MainChain(cs)| {
      ChainMember(cs.blockByHash, h, b.Height());
    }
  }

  /** Two chains of one tree that share the block at `n` share everything below it. */
  lemma CommonBelow(cs: CoinState, h: Hash, n: nat)
    requires LedgerOk(cs) && h in cs.blockByHash && n <= cs.blockByHash[h].Height()
    requires n < |MainChain(cs)| && ChainAt(cs.blockByHash, h)[n] == MainChain(cs)[n]
    ensures ChainAt(cs.blockByHash, h)[..n + 1] == MainChain(cs)[..n + 1]
  {
    hide BlockHash, Childless, ChainAt, EntryOk;
    ChainOfAncestor(cs.blockByHash, h, n);
    ChainOfAncestor(cs.blockByHash, cs.current.value, n);
  }

  /** `_find_lca_with_main`: it ends, and fails only for a branch that shares nothing with the current chain. */
  method FindLcaWithMain(cs: CoinState, head: Hash) returns (r: Result<Block>)
    requires LedgerOk(cs) && head in cs.blockByHash
    ensures r.Ok? ==> IsHighestCommon(ChainAt(cs.blockByHash, head), MainChain(cs), r.value)
    ensures r.Err? ==> r.error == KeyError
    ensures r.Ok? <==> ChainAt(cs.blockByHash, head)[0] == MainChain(cs)[0]
  {
    hide BlockHash, ChainAt, LedgerOk, WellFormedTree, IsHighestCommon;
    LedgerIsTree(cs);
    ghost var chain, main := ChainAt(cs.blockByHash, head), MainChain(cs);
    var block := cs.blockByHash[head];
    ghost var i := block.Height();
    ChainMember(cs.blockByHash, head, i);
    TestIsMembership(cs, block);
    while block.Height() !in ByHeightAtHead(cs).value
       || BlockHash(ByHeightAtHead(cs).value[block.Height()]) != BlockHash(block)
      invariant ByHeightAtHead(cs).Ok? && 0 <= i < |chain| && block == chain[i] && block.Height() == i
      invariant BlockHash(block) in cs.blockByHash && cs.blockByHash[BlockHash(block)] == block
      invariant forall k | i < k < |chain| && k < |main| :: chain[k] != main[k]
      decreases i
    {
      TestIsMembership(cs, block);
      StepDown(cs.blockByHash, chain, head, i);
      if block.Previous() !in cs.blockByHash {
        NoZeroHash(cs.blockByHash);
        return Err(KeyError);
      }
      NoZeroHash(cs.blockByHash);
      block := cs.blockByHash[block.Previous()];
      i := i - 1;
      ChainMember(cs.blockByHash, head, i);
    }
    TestIsMembership(cs, block);
    CommonBelow(cs, head, i);
    assert IsHighestCommon(chain, main, block) by {
      Highest(chain, main, block, i);
    }
    assert chain[0] == chain[..i + 1][0] && main[0] == main[..i + 1][0];
    return Ok(block);
  }

  lemma NoZeroHash(blocks: BlockMap)
    requires WellFormedTree(blocks)
    ensures ZERO_HASH !in blocks
  {
  }

  lemma Highest(chain: seq<Block>, main: seq<Block>, b: Block, i: nat)
    requires i < |chain| && i < |main| && b == chain[i] && b.Height() == i && chain[..i + 1] == main[..i + 1]
    requires forall k | i < k < |chain| && k < |main| :: chain[k] != main[k]
    ensures IsHighestCommon(chain, main, b)
  {
  }

  // ----- one first block for all branches

  ghost predicate SingleRoot(cs: CoinState, g: Block)
    requires LedgerOk(cs)
  {
    forall h {:trigger ChainAt(cs.blockByHash, h)} | h in cs.blockByHash :: ChainAt(cs.blockByHash, h)[0] == g
  }

  lemma RootStep(cp: Checkpoints, cs: CoinState, g: Block, a: Arrival)
    requires LedgerOk(cs) && SingleRoot(cs, g) && Acceptable(cp, cs, a)
    ensures AddBlock(cp, cs, a.0, a.1).Ok? && LedgerOk(AddBlock(cp, cs, a.0, a.1).value)
    ensures SingleRoot(AddBlock(cp, cs, a.0, a.1).value, g)
  {
    hide BlockHash, ChainAt, AddBlock, AddBlockNoValidation, EntryOk, ChainRules.TargetOk,
      ChainRules.TransactionsOk, Childless;
    AcceptedKeepsLedger(cp, cs, a);
    EntryParts(cs, a.0.Previous());
    TreeGrows(cs.blockByHash, a.0);
  }

  /** Nothing that a run adds starts a second tree, so every fork point exists. */
  lemma {:induction false} RunKeepsRoot(cp: Checkpoints, base: CoinState, run: seq<Arrival>, g: Block)
    requires LedgerOk(base) && SingleRoot(base, g) && After(cp, base, run).Some?
    ensures LedgerOk(After(cp, base, run).value) && SingleRoot(After(cp, base, run).value, g)
    decreases |run|
  {
    hide *;
    if run == [] {
      NothingHeld(cp, base);
    } else {
      LastStep(cp, base, run);
      RunKeepsRoot(cp, base, run[..|run| - 1], g);
      RootStep(cp, After(cp, base, run[..|run| - 1]).value, g, run[|run| - 1]);
    }
  }

  /** `forks`: every head with the block where it leaves the current chain, in the order the heads are listed. */
  method ListForks(cs: CoinState, g: Block, heads: seq<Hash>) returns (r: seq<(Block, Block)>)
    requires LedgerOk(cs) && SingleRoot(cs, g)
    requires forall h | h in heads :: h in cs.blockByHash
    ensures |r| == |heads|
    ensures forall i | 0 <= i < |heads| ::
              && r[i].0 == cs.blockByHash[heads[i]]
              && IsHighestCommon(ChainAt(cs.blockByHash, heads[i]), MainChain(cs), r[i].1)
  {
    hide IsHighestCommon, ChainAt, EntryOk;
    r := [];
    for i := 0 to |heads|
      invariant |r| == i
      invariant forall k | 0 <= k < i ::
                  && r[k].0 == cs.blockByHash[heads[k]]
                  && IsHighestCommon(ChainAt(cs.blockByHash, heads[k]), MainChain(cs), r[k].1)
    {
      var lca := FindLcaWithMain(cs, heads[i]);
      r := r + [(cs.blockByHash[heads[i]], lca.value)];
    }
  }
}

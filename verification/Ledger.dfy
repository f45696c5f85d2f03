/** The invariant of the coin state: every index is a function of the stored blocks, and every stored chain is valid. */
module Ledger {
  import opened Basics
  import opened Crypto
  import opened Datatypes
  import opened Balances
  import opened Chains
  import opened CoinStates
  import opened Consensus
  import opened Codecs
  import opened BlockEffects
  import opened ChainRules
  import opened Spends

  // ----- what the indexes should hold

  ghost function PathMap(chain: seq<Block>): map<nat, Block> {
    map i: nat | i < |chain| :: chain[i]
  }

  ghost predicate HasChild(blocks: BlockMap, h: Hash) {
    exists k :: k in blocks && blocks[k].Previous() == h
  }

  /** The stored blocks without stored children. */
  ghost function Childless(blocks: BlockMap): BlockMap {
    map h | h in blocks && !HasChild(blocks, h) :: blocks[h]
  }

  /** The entries under `h` are those of the chain ending in `h`, and that chain is valid. */
  ghost predicate EntryOk(cs: CoinState, h: Hash)
    requires WellFormedTree(cs.blockByHash) && h in cs.blockByHash
  {
    var chain := ChainAt(cs.blockByHash, h);
    && h in cs.utxoByHash && Replayed(chain) == Ok(cs.utxoByHash[h])
    && h in cs.heightsByHash && cs.heightsByHash[h] == PathMap(chain)
    && ValidChain(chain)
  }

  ghost predicate CurrentOk(cs: CoinState) {
    && cs.current.Some? && cs.current.value in cs.blockByHash
    && forall h | h in cs.blockByHash ::
         cs.blockByHash[h].Height() <= cs.blockByHash[cs.current.value].Height()
  }

  ghost predicate LedgerOk(cs: CoinState) {
    && WellFormedTree(cs.blockByHash)
    && cs.utxoByHash.Keys == cs.blockByHash.Keys
    && cs.heightsByHash.Keys == cs.blockByHash.Keys
    && (forall h {:trigger EntryOk(cs, h)} | h in cs.blockByHash :: EntryOk(cs, h))
    && cs.heads == Childless(cs.blockByHash)
    && CurrentOk(cs)
  }

  // ----- the first block

  lemma GenesisEstablishes(g: Block)
    requires GenesisOk(g) && BlockHash(g) != ZERO_HASH
    ensures AddBlockNoValidation(EMPTY, g).Ok?
    ensures LedgerOk(AddBlockNoValidation(EMPTY, g).value)
    ensures AddBlockNoValidation(EMPTY, g).value.blockByHash == map[BlockHash(g) := g]
  {
    hide AppliedBlock, BlockHash;
    GenesisTransactionsOk(g);
    var cs, h := AddBlockNoValidation(EMPTY, g).value, BlockHash(g);
    assert Linked(cs.blockByHash, h);
    assert ChainAt(cs.blockByHash, h) == [g];
    assert [g][..0] == [];
    assert Replayed([g]) == AppliedBlock(map[], g);
    assert EntryOk(cs, h);
    assert cs.heads == Childless(cs.blockByHash) by {
      assert !HasChild(cs.blockByHash, h);
    }
  }

  // ----- one more block

  /** A block that the state may grow by: not stored yet, its parent stored, valid on top of it. */
  ghost predicate Extends(cs: CoinState, b: Block)
    requires WellFormedTree(cs.blockByHash)
  {
    && BlockHash(b) != ZERO_HASH && BlockHash(b) !in cs.blockByHash
    && b.Previous() in cs.blockByHash
    && ExtensionOk(ChainAt(cs.blockByHash, b.Previous()), b)
  }

  lemma TreeGrows(blocks: BlockMap, b: Block)
    requires WellFormedTree(blocks) && BlockHash(b) !in blocks && BlockHash(b) != ZERO_HASH
    requires b.Previous() in blocks && b.Height() == blocks[b.Previous()].Height() + 1
    ensures var more := blocks[BlockHash(b) := b];
            && WellFormedTree(more)
            && (forall h | h in blocks :: ChainAt(more, h) == ChainAt(blocks, h))
            && ChainAt(more, BlockHash(b)) == ChainAt(blocks, b.Previous()) + [b]
            && Childless(more) == (Childless(blocks) - {b.Previous()})[BlockHash(b) := b]
  {
    hide BlockHash, ChainAt;
    var H := BlockHash(b);
    var more := blocks[H := b];
    forall h | h in more ensures Linked(more, h) {
      if h != H {
        assert Linked(blocks, h);
      }
    }
    forall h | h in blocks ensures ChainAt(more, h) == ChainAt(blocks, h) {
      ChainStable(blocks, more, h);
    }
    NewChain(more, H);
    ChildlessGrows(blocks, b);
  }

  lemma NewChain(blocks: BlockMap, h: Hash)
    requires WellFormedTree(blocks) && h in blocks && blocks[h].Previous() != ZERO_HASH
    ensures blocks[h].Previous() in blocks
    ensures ChainAt(blocks, h) == ChainAt(blocks, blocks[h].Previous()) + [blocks[h]]
  {
    assert Linked(blocks, h);
  }

  lemma ChildlessGrows(blocks: BlockMap, b: Block)
    requires WellFormedTree(blocks) && BlockHash(b) !in blocks && BlockHash(b) != ZERO_HASH
    requires b.Previous() in blocks
    ensures Childless(blocks[BlockHash(b) := b]) == (Childless(blocks) - {b.Previous()})[BlockHash(b) := b]
  {
    hide BlockHash, WellFormedTree;
    var H, p := BlockHash(b), b.Previous();
    var more := blocks[H := b];
    NoChildOfUnstored(blocks, H);
    assert p != H;
    forall h | h in blocks ensures HasChild(more, h) <==> HasChild(blocks, h) || h == p {
      if h == p {
        assert more[H].Previous() == h;
      } else if HasChild(blocks, h) {
        var k :| k in blocks && blocks[k].Previous() == h;
        assert more[k].Previous() == h;
      }
    }
    assert !HasChild(more, H);
    SameChildless(blocks, more, H, p, b);
  }

  lemma SameChildless(blocks: BlockMap, more: BlockMap, H: Hash, p: Hash, b: Block)
    requires more == blocks[H := b] && H !in blocks && p in blocks && !HasChild(more, H)
    requires forall h | h in blocks :: HasChild(more, h) <==> HasChild(blocks, h) || h == p
    ensures Childless(more) == (Childless(blocks) - {p})[H := b]
  {
    hide HasChild;
    var left, right := Childless(more), (Childless(blocks) - {p})[H := b];
    assert left.Keys == right.Keys;
    assert forall h | h in left :: left[h] == right[h];
  }

  lemma NoChildOfUnstored(blocks: BlockMap, h: Hash)
    requires WellFormedTree(blocks) && h !in blocks && h != ZERO_HASH
    ensures !HasChild(blocks, h)
  {
    forall k | k in blocks ensures blocks[k].Previous() != h {
      assert Linked(blocks, k);
    }
  }

  lemma PathGrows(chain: seq<Block>, b: Block)
    requires b.Height() == |chain|
    ensures PathMap(chain + [b]) == PathMap(chain)[b.Height() := b]
  {
  }

  /** The fields of the state after adding a block under a stored parent. */
  ghost predicate Grown(cs: CoinState, b: Block, u: Utxo, current: Hash, cs': CoinState) {
    && b.Previous() in cs.heightsByHash
    && var H := BlockHash(b);
       var path: map<nat, Block> := cs.heightsByHash[b.Previous()][b.Height() := b];
       && cs'.blockByHash == cs.blockByHash[H := b]
       && cs'.utxoByHash == cs.utxoByHash[H := u]
       && cs'.heightsByHash == cs.heightsByHash[H := path]
       && cs'.heads == (cs.heads - {b.Previous()})[H := b]
       && cs'.current == Some(current)
  }

  lemma AddGrows(cs: CoinState, b: Block, u: Utxo, current: Hash)
    requires b.Previous() != ZERO_HASH
    requires b.Previous() in cs.utxoByHash && b.Previous() in cs.heightsByHash
    requires AppliedBlock(cs.utxoByHash[b.Previous()], b) == Ok(u) && NextCurrent(cs, b) == Ok(current)
    ensures AddBlockNoValidation(cs, b).Ok? && Grown(cs, b, u, current, AddBlockNoValidation(cs, b).value)
  {
    hide AppliedBlock, BlockHash, NextCurrent;
  }

  /** Growing by a valid block keeps the invariant; everything already stored stays as it is. */
  lemma GrowthKeepsLedger(cs: CoinState, b: Block)
    requires LedgerOk(cs) && Extends(cs, b)
    ensures AddBlockNoValidation(cs, b).Ok?
    ensures LedgerOk(AddBlockNoValidation(cs, b).value)
    ensures AddBlockNoValidation(cs, b).value.blockByHash == cs.blockByHash[BlockHash(b) := b]
  {
    hide ExtensionOk, AppliedBlock, BlockHash, ValidChain, Replayed, PathMap, Childless, ChainAt, AddBlockNoValidation;
    assert EntryOk(cs, b.Previous());
    ExtensionFacts(ChainAt(cs.blockByHash, b.Previous()), b);
    var u, current := AppliedBlock(cs.utxoByHash[b.Previous()], b).value, NextCurrent(cs, b).value;
    AddGrows(cs, b, u, current);
    GrownKeepsLedger(cs, b, u, current, AddBlockNoValidation(cs, b).value);
  }

  lemma GrownKeepsLedger(cs: CoinState, b: Block, u: Utxo, current: Hash, cs': CoinState)
    requires LedgerOk(cs) && Extends(cs, b) && Grown(cs, b, u, current, cs')
    requires NextCurrent(cs, b) == Ok(current)
    requires AppliedBlock(cs.utxoByHash[b.Previous()], b) == Ok(u)
    ensures LedgerOk(cs')
  {
    hide BlockHash, Childless, ChainAt, NextCurrent, AppliedBlock, ExtensionOk, WellFormedTree, EntryOk, CurrentOk;
    EntryFacts(cs, b.Previous());
    ExtensionFacts(ChainAt(cs.blockByHash, b.Previous()), b);
    TreeGrows(cs.blockByHash, b);
    EntriesGrow(cs, b, u, current, cs');
    KeysGrow(cs, b, u, current, cs');
    CurrentGrows(cs, b, u, current, cs');
  }

  lemma KeysGrow(cs: CoinState, b: Block, u: Utxo, current: Hash, cs': CoinState)
    requires Grown(cs, b, u, current, cs')
    requires cs.utxoByHash.Keys == cs.blockByHash.Keys == cs.heightsByHash.Keys
    ensures cs'.utxoByHash.Keys == cs'.blockByHash.Keys == cs'.heightsByHash.Keys
  {
    hide BlockHash;
    assert cs'.utxoByHash.Keys == cs.utxoByHash.Keys + {BlockHash(b)};
    assert cs'.heightsByHash.Keys == cs.heightsByHash.Keys + {BlockHash(b)};
  }

  lemma EntriesGrow(cs: CoinState, b: Block, u: Utxo, current: Hash, cs': CoinState)
    requires LedgerOk(cs) && Extends(cs, b) && Grown(cs, b, u, current, cs') && WellFormedTree(cs'.blockByHash)
    requires AppliedBlock(cs.utxoByHash[b.Previous()], b) == Ok(u)
    ensures forall h {:trigger EntryOk(cs', h)} | h in cs'.blockByHash :: EntryOk(cs', h)
  {
    hide BlockHash, Childless, ChainAt, AppliedBlock, ExtensionOk, WellFormedTree, EntryOk, CurrentOk, Replayed,
      ValidChain;
    var chain := ChainAt(cs.blockByHash, b.Previous());
    EntryFacts(cs, b.Previous());
    EntryValues(cs, b.Previous());
    ExtensionFacts(chain, b);
    TreeGrows(cs.blockByHash, b);
    NewEntry(cs, b, u, current, cs');
    forall h | h in cs'.blockByHash ensures EntryOk(cs', h) {
      if h != BlockHash(b) {
        OldEntry(cs, b, u, current, cs', h);
      }
    }
  }

  lemma EntryValues(cs: CoinState, h: Hash)
    requires WellFormedTree(cs.blockByHash) && h in cs.blockByHash && EntryOk(cs, h)
    ensures h in cs.utxoByHash && Replayed(ChainAt(cs.blockByHash, h)) == Ok(cs.utxoByHash[h])
    ensures ValidChain(ChainAt(cs.blockByHash, h))
  {
  }

  lemma EntryFacts(cs: CoinState, h: Hash)
    requires LedgerOk(cs) && h in cs.blockByHash
    ensures EntryOk(cs, h)
  {
  }

  lemma LedgerIsTree(cs: CoinState)
    requires LedgerOk(cs)
    ensures WellFormedTree(cs.blockByHash)
  {
  }

  /** Everything the invariant says of one stored hash. */
  lemma EntryParts(cs: CoinState, h: Hash)
    requires LedgerOk(cs) && h in cs.blockByHash
    ensures WellFormedTree(cs.blockByHash) && Linked(cs.blockByHash, h) && BlockHash(cs.blockByHash[h]) == h
    ensures ValidChain(ChainAt(cs.blockByHash, h))
    ensures h in cs.utxoByHash && Replayed(ChainAt(cs.blockByHash, h)) == Ok(cs.utxoByHash[h])
    ensures h in cs.heightsByHash && cs.heightsByHash[h] == PathMap(ChainAt(cs.blockByHash, h))
  {
    hide ValidChain, Replayed, PathMap, ChainAt, Childless;
    EntryFacts(cs, h);
  }

  lemma OldEntry(cs: CoinState, b: Block, u: Utxo, current: Hash, cs': CoinState, h: Hash)
    requires Grown(cs, b, u, current, cs') && WellFormedTree(cs.blockByHash) && WellFormedTree(cs'.blockByHash)
    requires h in cs.blockByHash && h != BlockHash(b) && EntryOk(cs, h)
    requires ChainAt(cs'.blockByHash, h) == ChainAt(cs.blockByHash, h)
    ensures EntryOk(cs', h)
  {
    hide BlockHash, ValidChain, Replayed, PathMap, ChainAt, WellFormedTree;
  }

  lemma NewEntry(cs: CoinState, b: Block, u: Utxo, current: Hash, cs': CoinState)
    requires Grown(cs, b, u, current, cs') && WellFormedTree(cs.blockByHash) && WellFormedTree(cs'.blockByHash)
    requires b.Previous() in cs.blockByHash && EntryOk(cs, b.Previous())
    requires var chain := ChainAt(cs.blockByHash, b.Previous());
             && b.Height() == |chain| && ValidChain(chain + [b]) && Replayed(chain + [b]) == Ok(u)
             && ChainAt(cs'.blockByHash, BlockHash(b)) == chain + [b]
    ensures EntryOk(cs', BlockHash(b))
  {
    hide BlockHash, ValidChain, Replayed, PathMap, ChainAt, WellFormedTree;
    PathGrows(ChainAt(cs.blockByHash, b.Previous()), b);
  }

  lemma CurrentGrows(cs: CoinState, b: Block, u: Utxo, current: Hash, cs': CoinState)
    requires CurrentOk(cs) && b.Previous() in cs.blockByHash && NextCurrent(cs, b) == Ok(current)
    requires BlockHash(b) !in cs.blockByHash && Grown(cs, b, u, current, cs')
    requires b.Height() == cs.blockByHash[b.Previous()].Height() + 1
    ensures CurrentOk(cs')
  {
    hide BlockHash;
  }

  lemma ExtensionFacts(chain: seq<Block>, b: Block)
    requires ValidChain(chain) && ExtensionOk(chain, b)
    ensures b.Height() == |chain| && Replayed(chain).Ok? && AppliedBlock(Replayed(chain).value, b).Ok?
    ensures Replayed(chain + [b]) == AppliedBlock(Replayed(chain).value, b)
    ensures ValidChain(chain + [b])
  {
    hide ValidChain, TargetOk, TransactionsOk, AppliedBlock;
    ValidExtension(chain, b);
    assert (chain + [b])[..|chain|] == chain;
  }

  // ----- validation establishes the rules

  lemma AllByThemselvesEach(ts: seq<Transaction>, t: Transaction)
    requires AllByThemselves(ts).Ok? && t in ts
    ensures NonCoinbaseByItself(t).Ok?
  {
    hide NonCoinbaseByItself;
    if t != ts[0] {
      AllByThemselvesEach(ts[1..], t);
    }
  }

  lemma AllInCoinstateEach(ts: seq<Transaction>, at: Hash, cs: CoinState, t: Transaction)
    requires AllInCoinstate(ts, at, cs).Ok? && t in ts
    ensures at in cs.utxoByHash && NonCoinbaseInUtxo(t, cs.utxoByHash[at]).Ok?
  {
    hide NonCoinbaseInUtxo;
    if t != ts[0] {
      AllInCoinstateEach(ts[1..], at, cs, t);
    }
  }

  lemma {:induction false} ReferencesUnspent(u: Utxo, ts: seq<Transaction>)
    requires forall t | t in ts :: NonCoinbaseInUtxo(t, u).Ok?
    ensures forall r | r in References(ts) :: r in u
    decreases |ts|
  {
    hide ClaimedValue, Paid, Held, Claims;
    if ts != [] {
      var here := ReferencesOf(ts[0].inputs);
      forall r | r in here ensures r in u {
        var i :| 0 <= i < |here| && here[i] == r;
        assert NonCoinbaseInUtxo(ts[0], u).Ok?;
        SpendExactly(ts[0], u);
        ClaimsUnspent(ts[0], ts[0].inputs[i], u);
      }
      ReferencesUnspent(u, ts[1..]);
    }
  }

  lemma SizesCountable(b: Block)
    requires |EncBlock(b)| <= MAX_BLOCK_SIZE
    ensures AllCountable(b.transactions)
  {
    forall t | t in b.transactions ensures Countable(t) {
      var k :| 0 <= k < |b.transactions| && b.transactions[k] == t;
      TransactionFitsBlock(b, k);
      OutputsFitEncoding(t);
    }
  }

  lemma ByItselfFacts(b: Block, now: int)
    requires BlockByItself(b, now).Ok?
    ensures b.transactions != [] && AllCountable(b.transactions)
    ensures IsCoinbaseFor(b.transactions[0], b.Height())
    ensures forall t | t in b.transactions[1..] :: IsOrdinary(t)
    ensures Distinct(References(b.transactions[1..]))
  {
    hide HeaderByItself, EncBlock, CalcMerkleRootHash, EncTransaction;
    SizesCountable(b);
    forall t | t in b.transactions[1..] ensures IsOrdinary(t) {
      AllByThemselvesEach(b.transactions[1..], t);
    }
  }

  /** The target computed in the state is the one computed on the chain. */
  lemma CalcTargetOnChain(cs: CoinState, p: Hash, timestamp: int)
    requires LedgerOk(cs) && p in cs.blockByHash
    ensures var chain, previous := ChainAt(cs.blockByHash, p), cs.blockByHash[p];
            var n := |chain|;
            CalcTarget(cs, previous.Height() + 1, timestamp, previous) ==
            if n % BLOCKS_BETWEEN_TARGET_READJUSTMENT != 0 then Ok(previous.Target())
            else CalculateNewTarget(previous.Target(),
                   timestamp - chain[n - BLOCKS_BETWEEN_TARGET_READJUSTMENT].Timestamp())
  {
    hide CalculateNewTarget, BlockHash, ValidChain, Replayed, ChainAt, LedgerOk, WellFormedTree, Linked;
    EntryParts(cs, p);
    var n := cs.blockByHash[p].Height() + 1;
    if n % BLOCKS_BETWEEN_TARGET_READJUSTMENT == 0 {
      FirstReadjustment(n);
    }
  }

  lemma FirstReadjustment(n: nat)
    requires n > 0 && n % BLOCKS_BETWEEN_TARGET_READJUSTMENT == 0
    ensures n >= BLOCKS_BETWEEN_TARGET_READJUSTMENT
  {
  }

  lemma ValidationGivesTransactionsOk(cp: Checkpoints, cs: CoinState, b: Block, now: int)
    requires LedgerOk(cs) && b.Height() > cp.maxHeight
    requires BlockByItself(b, now).Ok? && BlockInCoinstate(cp, b, cs).Ok?
    ensures b.Previous() in cs.blockByHash && b.Height() == cs.blockByHash[b.Previous()].Height() + 1
    ensures TransactionsOk(cs.utxoByHash[b.Previous()], b.Height(), b.transactions)
  {
    hide CalcTarget, ConstructPowEvidence, EntryOk, CurrentOk, Childless, NonCoinbaseInUtxo, BlockByItself,
      WellFormedTree;
    ByItselfFacts(b, now);
    var u, others := cs.utxoByHash[b.Previous()], b.transactions[1..];
    forall t | t in others ensures NonCoinbaseInUtxo(t, u).Ok? {
      AllInCoinstateEach(others, b.Previous(), cs, t);
    }
    ReferencesUnspent(u, others);
  }

  lemma ValidationGivesSummary(cp: Checkpoints, cs: CoinState, b: Block)
    requires LedgerOk(cs) && b.Height() > cp.maxHeight && BlockInCoinstate(cp, b, cs).Ok?
    ensures b.Previous() in cs.blockByHash
    ensures b.Timestamp() > cs.blockByHash[b.Previous()].Timestamp()
    ensures TargetOk(ChainAt(cs.blockByHash, b.Previous()), b)
  {
    hide CalculateNewTarget, ConstructPowEvidence, AllInCoinstate, CoinbaseInCoinstate, CalcTarget, ChainAt;
    CalcTargetOnChain(cs, b.Previous(), b.Timestamp());
  }

  lemma ValidatedObeys(cp: Checkpoints, cs: CoinState, b: Block, now: int)
    requires LedgerOk(cs) && b.Height() > cp.maxHeight
    requires BlockByItself(b, now).Ok? && BlockInCoinstate(cp, b, cs).Ok?
    ensures b.Previous() in cs.blockByHash && ExtensionOk(ChainAt(cs.blockByHash, b.Previous()), b)
  {
    hide BlockByItself, BlockInCoinstate, BlockHash, ValidChain, Replayed, TransactionsOk, TargetOk,
      AppliedBlock, ChainAt;
    ValidationGivesTransactionsOk(cp, cs, b, now);
    ValidationGivesSummary(cp, cs, b);
    assert EntryOk(cs, b.Previous()) && Linked(cs.blockByHash, b.Previous());
    OkTransactionsApply(cs.utxoByHash[b.Previous()], b);
  }

  /** A block that passes both validations is a valid extension. */
  lemma ValidatedExtends(cp: Checkpoints, cs: CoinState, b: Block, now: int)
    requires LedgerOk(cs) && b.Height() > cp.maxHeight
    requires BlockHash(b) != ZERO_HASH && BlockHash(b) !in cs.blockByHash
    requires BlockByItself(b, now).Ok? && BlockInCoinstate(cp, b, cs).Ok?
    ensures Extends(cs, b)
  {
    hide BlockByItself, BlockInCoinstate, BlockHash, ExtensionOk, LedgerOk, WellFormedTree;
    LedgerIsTree(cs);
    ValidatedObeys(cp, cs, b, now);
  }

  lemma OkTransactionsApply(u: Utxo, b: Block)
    requires TransactionsOk(u, b.Height(), b.transactions)
    ensures AppliedBlock(u, b).Ok?
  {
    AppliedBlockSucceeds(u, b);
  }

  // ----- and the rules are all that validation asks for

  lemma {:induction false} EachInCoinstate(ts: seq<Transaction>, at: Hash, cs: CoinState)
    requires forall t | t in ts :: NonCoinbaseInCoinstate(t, at, cs).Ok?
    ensures AllInCoinstate(ts, at, cs).Ok?
    decreases |ts|
  {
    hide NonCoinbaseInCoinstate;
    if ts != [] {
      assert NonCoinbaseInCoinstate(ts[0], at, cs).Ok?;
      EachInCoinstate(ts[1..], at, cs);
    }
  }

  lemma RulesGiveSummary(cs: CoinState, b: Block)
    requires LedgerOk(cs) && b.Previous() in cs.blockByHash && ExtensionOk(ChainAt(cs.blockByHash, b.Previous()), b)
    ensures SummaryInCoinstate(b.header.summary, cs).Ok?
  {
    hide LedgerOk, CalculateNewTarget, CalcTarget, BlockHash, TransactionsOk, AppliedBlock, Replayed, ChainAt, Linked;
    EntryParts(cs, b.Previous());
    CalcTargetOnChain(cs, b.Previous(), b.Timestamp());
  }

  lemma RulesGiveTransactions(cs: CoinState, b: Block)
    requires LedgerOk(cs) && b.Previous() in cs.blockByHash && ExtensionOk(ChainAt(cs.blockByHash, b.Previous()), b)
    ensures b.transactions != []
    ensures CoinbaseInCoinstate(b.transactions[0], b, cs).Ok?
    ensures AllInCoinstate(b.transactions[1..], b.Previous(), cs).Ok?
  {
    hide LedgerOk, TargetOk, BlockHash, AppliedBlock, Replayed, ChainAt, Linked, NonCoinbaseInUtxo, GetBlockFees,
      OutputsValue, GetBlockSubsidy, Spendable;
    EntryParts(cs, b.Previous());
    EachInCoinstate(b.transactions[1..], b.Previous(), cs);
  }

  /** For a block that is valid by itself, validation in the coin state accepts exactly the valid extensions of stored
      chains whose proof-of-work evidence is the reconstructed one. */
  lemma ValidationExactly(cp: Checkpoints, cs: CoinState, b: Block, now: int)
    requires LedgerOk(cs) && b.Height() > cp.maxHeight && BlockByItself(b, now).Ok?
    ensures BlockInCoinstate(cp, b, cs).Ok? <==>
              && b.Previous() in cs.blockByHash
              && ExtensionOk(ChainAt(cs.blockByHash, b.Previous()), b)
              && ConstructPowEvidence(cs, b.header.summary, b.Height(), b.transactions) == Ok(b.header.evidence)
  {
    hide LedgerOk, BlockByItself, ExtensionOk, SummaryInCoinstate, ConstructPowEvidence, CoinbaseInCoinstate,
      AllInCoinstate, BlockHash, ChainAt, WellFormedTree;
    LedgerIsTree(cs);
    if BlockInCoinstate(cp, b, cs).Ok? {
      ValidatedObeys(cp, cs, b, now);
    }
    if b.Previous() in cs.blockByHash && ExtensionOk(ChainAt(cs.blockByHash, b.Previous()), b) {
      RulesGiveSummary(cs, b);
      RulesGiveTransactions(cs, b);
    }
  }

  /** Whatever is spent by a block below a stored hash is claimed by the key it was paid to. */
  lemma LedgerIsSigned(cs: CoinState, h: Hash, i: nat, t: Transaction)
    requires LedgerOk(cs) && h in cs.blockByHash && i <= cs.blockByHash[h].Height()
    requires var b := ChainAt(cs.blockByHash, h)[i]; b.transactions != [] && t in b.transactions[1..]
    ensures Replayed(ChainAt(cs.blockByHash, h)[..i]).Ok?
    ensures AllClaimed(t, Replayed(ChainAt(cs.blockByHash, h)[..i]).value)
  {
    hide LedgerOk, ValidChain, Replayed, AllClaimed, ChainAt, PathMap;
    EntryParts(cs, h);
    ChainIsSigned(ChainAt(cs.blockByHash, h), i, t);
  }
}

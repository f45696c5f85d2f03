/** Coin states whose every stored index is the work of known transactions. Ledger states are such, and so are the
    states that grow by blocks nobody validated. */
module Sources {
  import opened Basics
  import opened Crypto
  import opened Datatypes
  import opened Balances
  import opened Chains
  import opened CoinStates
  import opened Consensus
  import opened BlockEffects
  import opened ChainRules
  import opened History
  import opened Provenance
  import opened Applying
  import opened Ledger

  ghost predicate StateSourced(cs: CoinState, ts: set<Transaction>) {
    && ZERO_HASH !in cs.blockByHash && Keyed(cs.blockByHash)
    && cs.utxoByHash.Keys == cs.blockByHash.Keys && cs.heightsByHash.Keys == cs.blockByHash.Keys
    && cs.current.Some? && cs.current.value in cs.blockByHash
    && forall h | h in cs.utxoByHash :: Sourced(cs.utxoByHash[h], ts)
  }

  ghost function StoredTransactions(blocks: BlockMap): set<Transaction> {
    set h, t | h in blocks && t in blocks[h].transactions :: t
  }

  lemma {:induction false} TransactionOfChain(chain: seq<Block>, t: Transaction) returns (i: nat)
    requires t in AllTransactions(chain)
    ensures i < |chain| && t in chain[i].transactions
    decreases |chain|
  {
    i := |chain| - 1;
    if t !in chain[i].transactions {
      i := TransactionOfChain(chain[..i], t);
    }
  }

  lemma ChainIsStored(blocks: BlockMap, h: Hash)
    requires WellFormedTree(blocks) && h in blocks
    ensures TransactionSet(AllTransactions(ChainAt(blocks, h))) <= StoredTransactions(blocks)
  {
    hide WellFormedTree, AllTransactions, BlockHash, ChainAt;
    var chain := ChainAt(blocks, h);
    forall t | t in AllTransactions(chain) ensures t in StoredTransactions(blocks) {
      var i := TransactionOfChain(chain, t);
      ChainMember(blocks, h, i);
    }
  }

  lemma LedgerIsSourced(cs: CoinState)
    requires LedgerOk(cs)
    ensures StateSourced(cs, StoredTransactions(cs.blockByHash))
  {
    hide EntryOk, Childless, ChainAt, StoredTransactions, Sourced, BlockHash, Keyed;
    TreeIsKeyed(cs.blockByHash);
    forall h | h in cs.utxoByHash ensures Sourced(cs.utxoByHash[h], StoredTransactions(cs.blockByHash)) {
      EntrySourced(cs, h);
    }
  }

  lemma EntrySourced(cs: CoinState, h: Hash)
    requires LedgerOk(cs) && h in cs.blockByHash
    ensures h in cs.utxoByHash && Sourced(cs.utxoByHash[h], StoredTransactions(cs.blockByHash))
  {
    hide LedgerOk, ChainAt, ValidChain, Replayed, PathMap, StoredTransactions, Sourced, Linked, AllTransactions,
      WellFormedTree;
    EntryParts(cs, h);
    var chain := ChainAt(cs.blockByHash, h);
    ChainSourced(chain);
    ChainIsStored(cs.blockByHash, h);
    SourcedMore(cs.utxoByHash[h], TransactionSet(AllTransactions(chain)), StoredTransactions(cs.blockByHash));
  }

  lemma SourcedInMore(cs: CoinState, ts: set<Transaction>, more: set<Transaction>)
    requires StateSourced(cs, ts) && ts <= more
    ensures StateSourced(cs, more)
  {
    hide Sourced;
    forall h | h in cs.utxoByHash ensures Sourced(cs.utxoByHash[h], more) {
      SourcedMore(cs.utxoByHash[h], ts, more);
    }
  }

  /** Growing by any block under a stored parent, valid or not, keeps the sources. */
  lemma GrowthKeepsSources(cs: CoinState, b: Block, ts: set<Transaction>)
    requires StateSourced(cs, ts) && b.Previous() in cs.blockByHash && BlockHash(b) != ZERO_HASH
    requires (forall t | t in b.transactions :: t in ts) && AddBlockNoValidation(cs, b).Ok?
    ensures StateSourced(AddBlockNoValidation(cs, b).value, ts)
  {
    hide BlockHash, AppliedBlock, Sourced, NextCurrent, AddBlockNoValidation, Keyed;
    KeyedGrows(cs.blockByHash, b);
    var p, cs' := b.Previous(), AddBlockNoValidation(cs, b).value;
    NextIsStored(cs, b);
    AddedFields(cs, b);
    BlockSourced(cs.utxoByHash[p], b, ts);
    assert cs'.utxoByHash.Keys == cs.utxoByHash.Keys + {BlockHash(b)};
  }

  lemma AddedFields(cs: CoinState, b: Block)
    requires b.Previous() != ZERO_HASH && AddBlockNoValidation(cs, b).Ok?
    ensures var cs' := AddBlockNoValidation(cs, b).value;
            && b.Previous() in cs.utxoByHash && AppliedBlock(cs.utxoByHash[b.Previous()], b).Ok?
            && NextCurrent(cs, b).Ok? && cs'.current == Some(NextCurrent(cs, b).value)
            && cs'.blockByHash == cs.blockByHash[BlockHash(b) := b]
            && cs'.utxoByHash == cs.utxoByHash[BlockHash(b) := AppliedBlock(cs.utxoByHash[b.Previous()], b).value]
            && cs'.heightsByHash.Keys == cs.heightsByHash.Keys + {BlockHash(b)}
  {
    hide BlockHash, AppliedBlock, NextCurrent;
  }

  lemma NextIsStored(cs: CoinState, b: Block)
    requires cs.current.Some? && cs.current.value in cs.blockByHash
    ensures NextCurrent(cs, b).Ok?
    ensures NextCurrent(cs, b).value == BlockHash(b) || NextCurrent(cs, b).value == cs.current.value
  {
    hide BlockHash;
  }

  lemma AddNeedsApplying(cs: CoinState, b: Block, ts: set<Transaction>)
    requires StateSourced(cs, ts) && b.Previous() in cs.blockByHash
    ensures b.Previous() in cs.utxoByHash
    ensures AddBlockNoValidation(cs, b).Ok? <==> AppliedBlock(cs.utxoByHash[b.Previous()], b).Ok?
  {
    hide BlockHash, AppliedBlock, Sourced, NextCurrent;
    NextIsStored(cs, b);
  }

  /** Every spend of the block refers to an output that is unspent at its parent or is created earlier in the block. */
  ghost predicate IsFunded(cs: CoinState, b: Block) {
    b.Previous() in cs.utxoByHash && AllCountable(b.transactions) &&
    FundedFrom(cs.utxoByHash[b.Previous()], b.transactions, 1)
  }

  /** For a block that is valid by itself, adding it under a stored parent succeeds exactly when it is funded. */
  lemma AddSucceedsExactly(cs: CoinState, b: Block, now: int, ts: set<Transaction>)
    requires StateSourced(cs, ts) && b.Previous() in cs.blockByHash && BlockByItself(b, now).Ok?
    ensures AddBlockNoValidation(cs, b).Ok? <==> IsFunded(cs, b)
  {
    hide BlockByItself, StateSourced, AddBlockNoValidation, AppliedBlock, FundedFrom, References, IsOrdinary;
    AddNeedsApplying(cs, b, ts);
    ByItselfFacts(b, now);
    AppliedExactly(cs.utxoByHash[b.Previous()], b);
  }

  /** Validation above the checkpoints asks for more than funding. */
  lemma ValidatedIsFunded(cp: Checkpoints, cs: CoinState, b: Block, now: int)
    requires BlockByItself(b, now).Ok? && BlockInCoinstate(cp, b, cs).Ok? && b.Height() > cp.maxHeight
    ensures IsFunded(cs, b)
  {
    hide SummaryInCoinstate, ConstructPowEvidence, BlockByItself, NonCoinbaseInUtxo, References, IsOrdinary, Created,
      GetBlockFees;
    ByItselfFacts(b, now);
    var u, ts := cs.utxoByHash[b.Previous()], b.transactions;
    forall t | t in ts[1..] ensures NonCoinbaseInUtxo(t, u).Ok? {
      AllInCoinstateEach(ts[1..], b.Previous(), cs, t);
    }
    ReferencesUnspent(u, ts[1..]);
    forall i | 1 <= i < |ts| ensures Funded(u, ts, i) {
      EachInputUnspent(u, ts, i);
    }
  }

  lemma EachInputUnspent(u: Utxo, ts: seq<Transaction>, i: nat)
    requires 1 <= i < |ts| && AllCountable(ts) && forall r | r in References(ts[1..]) :: r in u
    ensures Funded(u, ts, i)
  {
    hide Created;
    forall r | r in ReferencesOf(ts[i].inputs) ensures r in u {
      var m :| 0 <= m < |ts[i].inputs| && ReferencesOf(ts[i].inputs)[m] == r;
      InputReference(ts[1..], i - 1, m);
    }
  }

  /** In any such state, a ledger or not: the block added becomes the head exactly when it is built on the head or is
      higher; otherwise the head stays. */
  lemma HeadMovesExactly(cs: CoinState, b: Block, ts: set<Transaction>)
    requires StateSourced(cs, ts) && b.Previous() in cs.blockByHash && AddBlockNoValidation(cs, b).Ok?
    ensures AddBlockNoValidation(cs, b).value.current ==
            if b.Previous() == cs.current.value || b.Height() > cs.blockByHash[cs.current.value].Height()
            then Some(BlockHash(b)) else cs.current
  {
    hide BlockHash, AppliedBlock, Sourced, Keyed;
  }
}

/** The tree of stored blocks, the chain that ends in a stored block, and the memoised balance index. */
module Chains {
  import opened Basics
  import opened Crypto
  import opened Datatypes
  import opened Balances

  type BlockMap = map<Hash, Block>

  /** Everything in `small` is in `big`, unchanged. */
  ghost predicate SubMap(small: BlockMap, big: BlockMap) {
    forall h | h in small :: h in big && big[h] == small[h]
  }

  lemma SubMapItself(blocks: BlockMap)
    ensures SubMap(blocks, blocks)
  {
  }

  lemma SubMapGrows(small: BlockMap, big: BlockMap, h: Hash, b: Block)
    requires SubMap(small, big) && h !in big
    ensures SubMap(small, big[h := b])
  {
  }

  lemma SubMapTransitive(a: BlockMap, b: BlockMap, c: BlockMap)
    requires SubMap(a, b) && SubMap(b, c)
    ensures SubMap(a, c)
  {
  }

  /** Every block is stored under its hash. */
  ghost predicate Keyed(blocks: BlockMap) {
    forall h | h in blocks :: BlockHash(blocks[h]) == h
  }

  lemma KeyedGrows(blocks: BlockMap, b: Block)
    requires Keyed(blocks)
    ensures Keyed(blocks[BlockHash(b) := b])
  {
    hide BlockHash;
  }

  /** The block stored under `h` has that hash and sits one above its stored parent, or is a root at height 0. */
  ghost predicate Linked(blocks: BlockMap, h: Hash)
    requires h in blocks
  {
    && BlockHash(blocks[h]) == h
    && if blocks[h].Previous() == ZERO_HASH then blocks[h].Height() == 0
       else blocks[h].Previous() in blocks && blocks[blocks[h].Previous()].Height() + 1 == blocks[h].Height()
  }

  ghost predicate WellFormedTree(blocks: BlockMap) {
    && ZERO_HASH !in blocks
    && forall h {:trigger Linked(blocks, h)} | h in blocks :: Linked(blocks, h)
  }

  lemma TreeIsKeyed(blocks: BlockMap)
    requires WellFormedTree(blocks)
    ensures Keyed(blocks)
  {
    hide BlockHash;
    assert forall h | h in blocks :: Linked(blocks, h);
  }

  /** The blocks from the root to the one stored under `h`, oldest first. */
  ghost function ChainAt(blocks: BlockMap, h: Hash): (chain: seq<Block>)
    requires WellFormedTree(blocks) && h in blocks
    ensures |chain| == blocks[h].Height() + 1 && chain[blocks[h].Height()] == blocks[h]
    decreases blocks[h].Height()
  {
    assert Linked(blocks, h);
    if blocks[h].Previous() == ZERO_HASH then [blocks[h]]
    else ChainAt(blocks, blocks[h].Previous()) + [blocks[h]]
  }

  /** Each block names the one before it as its parent and sits at its index. */
  ghost predicate ParentLinked(chain: seq<Block>) {
    && (forall i | 0 <= i < |chain| :: chain[i].Height() == i)
    && (forall i | 1 <= i < |chain| :: chain[i].Previous() == BlockHash(chain[i - 1]))
    && (chain != [] ==> chain[0].Previous() == ZERO_HASH)
  }

  lemma {:induction false} ChainMember(blocks: BlockMap, h: Hash, i: nat)
    requires WellFormedTree(blocks) && h in blocks && i <= blocks[h].Height()
    ensures var chain := ChainAt(blocks, h);
            && BlockHash(chain[i]) in blocks && blocks[BlockHash(chain[i])] == chain[i]
            && chain[i].Height() == i
            && chain[i].Previous() == if i == 0 then ZERO_HASH else BlockHash(chain[i - 1])
    decreases blocks[h].Height()
  {
    assert Linked(blocks, h);
    var parent := blocks[h].Previous();
    if i < blocks[h].Height() {
      ChainMember(blocks, parent, i);
    } else if i > 0 {
      assert Linked(blocks, parent);
    }
  }

  /** One step towards the root. */
  lemma StepDown(blocks: BlockMap, chain: seq<Block>, h: Hash, i: nat)
    requires WellFormedTree(blocks) && h in blocks && i <= blocks[h].Height()
    requires chain == ChainAt(blocks, h)
    ensures chain[i].Height() == i
    ensures chain[i].Previous() == ZERO_HASH <==> i == 0
    ensures i > 0 ==> chain[i].Previous() in blocks && blocks[chain[i].Previous()] == chain[i - 1]
  {
    ChainMember(blocks, h, i);
    if i > 0 {
      ChainMember(blocks, h, i - 1);
      assert BlockHash(chain[i - 1]) != ZERO_HASH;
    }
  }

  lemma ChainIsParentLinked(blocks: BlockMap, h: Hash)
    requires WellFormedTree(blocks) && h in blocks
    ensures ParentLinked(ChainAt(blocks, h))
  {
    ChainMember(blocks, h, 0);
    forall i | 0 <= i <= blocks[h].Height()
      ensures ChainAt(blocks, h)[i].Height() == i
      ensures ChainAt(blocks, h)[i].Previous() == if i == 0 then ZERO_HASH else BlockHash(ChainAt(blocks, h)[i - 1])
    {
      ChainMember(blocks, h, i);
    }
  }

  /** The chain of any block on a chain is the part of that chain up to it. */
  lemma {:induction false} ChainOfAncestor(blocks: BlockMap, h: Hash, i: nat)
    requires WellFormedTree(blocks) && h in blocks && i <= blocks[h].Height()
    ensures BlockHash(ChainAt(blocks, h)[i]) in blocks
    ensures ChainAt(blocks, BlockHash(ChainAt(blocks, h)[i])) == ChainAt(blocks, h)[..i + 1]
    decreases blocks[h].Height()
  {
    assert Linked(blocks, h);
    var chain, parent := ChainAt(blocks, h), blocks[h].Previous();
    if i == blocks[h].Height() {
      assert chain[..i + 1] == chain;
    } else {
      ChainOfAncestor(blocks, parent, i);
      assert chain[..i + 1] == ChainAt(blocks, parent)[..i + 1];
    }
  }

  /** Storing more blocks does not change the chain of a stored one. */
  lemma {:induction false} ChainStable(blocks: BlockMap, more: BlockMap, h: Hash)
    requires WellFormedTree(blocks) && WellFormedTree(more) && h in blocks && SubMap(blocks, more)
    ensures ChainAt(more, h) == ChainAt(blocks, h)
    decreases blocks[h].Height()
  {
    assert Linked(blocks, h) && Linked(more, h);
    if blocks[h].Previous() != ZERO_HASH {
      ChainStable(blocks, more, blocks[h].Previous());
    }
  }

  /** The balances by key at a stored hash, recomputed from the root; no hash at all gives no balances. */
  ghost function IndexAt(blocks: BlockMap, head: Option<Hash>): Result<Index>
    requires WellFormedTree(blocks)
  {
    match head
    case None => Ok(map[])
    case Some(h) =>
      if h !in blocks then Err(KeyError)
      else
        var (p, _) :- ReplayedIndex(ChainAt(blocks, h));
        Ok(p)
  }

  lemma {:induction false} ReplayFails(chain: seq<Block>, k: nat)
    requires k <= |chain| && ReplayedIndex(chain[..k]).Err?
    ensures ReplayedIndex(chain) == Err(ReplayedIndex(chain[..k]).error)
    decreases |chain| - k
  {
    if k < |chain| {
      assert chain[..k + 1][..k] == chain[..k];
      ReplayFails(chain, k + 1);
    } else {
      assert chain[..k] == chain;
    }
  }

  lemma ReplayStep(chain: seq<Block>, i: nat)
    requires i < |chain| && ReplayedIndex(chain[..i]).Ok?
    ensures var (p, u) := ReplayedIndex(chain[..i]).value;
            var p', u' := IndexedBlock(u, p, chain[i]), AppliedBlock(u, chain[i]);
            if p'.Err? then ReplayedIndex(chain) == Err(p'.error)
            else if u'.Err? then ReplayedIndex(chain) == Err(u'.error)
            else ReplayedIndex(chain[..i + 1]) == Ok((p'.value, u'.value))
  {
    assert chain[..i + 1][..i] == chain[..i];
    if ReplayedIndex(chain[..i + 1]).Err? {
      ReplayFails(chain, i + 1);
    }
  }

  /** The memo of balance indexes that every `CoinState` carries. */
  class PublicKeyBalances {
    const blockByHash: BlockMap
    var cache: map<Option<Hash>, Index>

    /** Every remembered answer is the recomputed one. */
    ghost predicate Valid()
      reads this
    {
      && WellFormedTree(blockByHash)
      && forall head | head in cache :: IndexAt(blockByHash, head) == Ok(cache[head])
    }

    constructor (blocks: BlockMap)
      requires WellFormedTree(blocks)
      ensures Valid() && blockByHash == blocks && cache == map[]
    {
      blockByHash := blocks;
      cache := map[];
    }

    method ChainAtHash(hash: Hash) returns (r: Result<seq<Block>>)
      requires Valid()
      ensures r == if hash in blockByHash then Ok(ChainAt(blockByHash, hash)) else Err(KeyError)
    {
      if hash !in blockByHash {
        return Err(KeyError);
      }
      ghost var full := ChainAt(blockByHash, hash);
      var block := blockByHash[hash];
      var reverseChain := [block];
      ghost var i := block.Height();
      StepDown(blockByHash, full, hash, i);
      while block.Previous() != ZERO_HASH
        invariant 0 <= i < |full| && block == full[i] && |reverseChain| == |full| - i
        invariant block.Previous() == ZERO_HASH <==> i == 0
        invariant forall k | 0 <= k < |reverseChain| :: reverseChain[k] == full[|full| - 1 - k]
        decreases i
      {
        StepDown(blockByHash, full, hash, i);
        block := blockByHash[block.Previous()];
        i := i - 1;
        StepDown(blockByHash, full, hash, i);
        reverseChain := reverseChain + [block];
      }
      var chain := seq(|reverseChain|,
        k requires 0 <= k < |reverseChain| => reverseChain[|reverseChain| - 1 - k]);
      assert chain == full;
      return Ok(chain);
    }

    method PublicKeyBalancesByHash(head: Option<Hash>) returns (r: Result<Index>)
      requires Valid()
      ensures r == IndexAt(blockByHash, head)
      ensures head == None ==> r == Ok(map[])
      ensures head.Some? && head.value !in blockByHash ==> r == Err(KeyError)
    {
      if head == None {
        return Ok(map[]);
      }
      var balances: Index := map[];
      var unspent: Utxo := map[];
      var chain :- ChainAtHash(head.value);
      for i := 0 to |chain|
        invariant ReplayedIndex(chain[..i]) == Ok((balances, unspent))
      {
        ReplayStep(chain, i);
        balances :- PkbApplyBlock(unspent, balances, chain[i]);
        unspent :- UtoApplyBlock(unspent, chain[i]);
      }
      assert chain[..|chain|] == chain;
      return Ok(balances);
    }

    /** `self[key]`: remembered or recomputed, the answer is the same. */
    method GetItem(key: Option<Hash>) returns (r: Result<Index>)
      requires Valid()
      modifies this`cache
      ensures Valid() && r == IndexAt(blockByHash, key)
      ensures r.Ok? ==> cache == old(cache)[key := r.value]
      ensures r.Err? ==> cache == old(cache)
    {
      if key !in cache {
        var index :- PublicKeyBalancesByHash(key);
        cache := cache[key := index];
      }
      return Ok(cache[key]);
    }
  }
}

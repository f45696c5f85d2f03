/** The fork tree with its per-block indexes, and how it grows. */
module CoinStates {
  import opened Basics
  import opened Crypto
  import opened Datatypes
  import opened Balances
  import opened Chains

  datatype CoinState = CoinState(
    blockByHash: BlockMap,
    utxoByHash: map<Hash, Utxo>,
    heightsByHash: map<Hash, map<nat, Block>>,
    heads: BlockMap,
    current: Option<Hash>)

  const EMPTY := CoinState(map[], map[], map[], map[], None)

  /** The head of the current chain; a state without blocks has none. */
  function Head(cs: CoinState): Result<Block> {
    if cs.current.Some? && cs.current.value in cs.blockByHash then Ok(cs.blockByHash[cs.current.value])
    else Err(KeyError)
  }

  function ByHeightAtHead(cs: CoinState): Result<map<nat, Block>> {
    if cs.current.Some? && cs.current.value in cs.heightsByHash then Ok(cs.heightsByHash[cs.current.value])
    else Err(KeyError)
  }

  /** Strictly more work moves the head; on a tie the earlier block stays. Work is height. */
  function NextCurrent(cs: CoinState, b: Block): Result<Hash> {
    if cs.current == None || cs.current.value == b.Previous() then Ok(BlockHash(b))
    else if cs.current.value !in cs.blockByHash then Err(KeyError)
    else if b.Height() > cs.blockByHash[cs.current.value].Height() then Ok(BlockHash(b))
    else Ok(cs.current.value)
  }

  function AddBlockNoValidation(cs: CoinState, b: Block): Result<CoinState> {
    var isRoot := b.Previous() == ZERO_HASH;
    if !isRoot && b.Previous() !in cs.utxoByHash then Err(KeyError)
    else
      var utxo :- AppliedBlock(if isRoot then map[] else cs.utxoByHash[b.Previous()], b);
      var h := BlockHash(b);
      if !isRoot && b.Previous() !in cs.heightsByHash then Err(KeyError)
      else
        var path: map<nat, Block> :=
          if isRoot then map[0 := b] else cs.heightsByHash[b.Previous()][b.Height() := b];
        var heights := if isRoot then map[h := path] else cs.heightsByHash[h := path];
        var current :- NextCurrent(cs, b);
        Ok(CoinState(
          cs.blockByHash[h := b],
          cs.utxoByHash[h := utxo],
          heights,
          (cs.heads - {b.Previous()})[h := b],
          Some(current)))
  }
}

/** Sampling the chain for proof of work: heights, cyclic slices of serialised blocks, chained slices. */
module Pow {
  import opened Basics
  import opened Crypto
  import opened Datatypes

  const CHAIN_SAMPLE_COUNT := 8
  const CHAIN_SAMPLE_SIZE := 4
  const CHAIN_SAMPLE_TOTAL_SIZE := CHAIN_SAMPLE_COUNT * CHAIN_SAMPLE_SIZE

  function SelectBlockHeight(hash: Hash, currentHeight: nat): (h: nat)
    requires currentHeight > 0
    ensures h < currentHeight
  {
    FromBigEndian(hash[..8]) % currentHeight
  }

  /** Read `length` bytes from position `p`, going back to the beginning at the end. */
  function Cyclic(block: Bytes, p: nat, length: nat): (bs: Bytes)
    requires p < |block|
    ensures |bs| == length
    decreases length
  {
    if length == 0 then []
    else [block[p]] + Cyclic(block, if p + 1 == |block| then 0 else p + 1, length - 1)
  }

  /** Byte `k` of a cyclic reading is the byte `k` places further, modulo the length. */
  lemma {:induction false} CyclicIsModular(block: Bytes, p: nat, length: nat, k: nat)
    requires p < |block| && k < length
    ensures Cyclic(block, p, length)[k] == block[(p + k) % |block|]
    decreases length
  {
    var n := |block|;
    if k > 0 {
      var q := if p + 1 == n then 0 else p + 1;
      CyclicIsModular(block, q, length - 1, k - 1);
      if p + 1 == n {
        ModAddModulus(k - 1, n);
      }
    }
  }

  lemma ModAddModulus(x: nat, n: nat)
    requires n > 0
    ensures (n + x) % n == x % n
  {
    var q, r := x / n, x % n;
    assert x == q * n + r;
    assert n + x == (q + 1) * n + r;
    DivModUnique(n + x, n, q + 1, r);
  }

  lemma CyclicStep(block: Bytes, p: nat, length: nat)
    requires p < |block|
    ensures Cyclic(block, p, length) ==
            if length == 0 then []
            else [block[p]] + Cyclic(block, if p + 1 == |block| then 0 else p + 1, length - 1)
  {
  }

  /** A cyclic reading is a run up to the end of the block, and then a reading from the beginning. */
  lemma {:induction false} CyclicRun(block: Bytes, p: nat, length: nat)
    requires p < |block|
    ensures var stop := Min(p + length, |block|);
            Cyclic(block, p, length) == block[p..stop] + Cyclic(block, 0, length - (stop - p))
    decreases length
  {
    hide Cyclic;
    var stop := Min(p + length, |block|);
    CyclicStep(block, p, length);
    if length == 0 {
      CyclicStep(block, 0, 0);
      assert block[p..stop] == [];
    } else if p + 1 == |block| {
      assert block[p..stop] == [block[p]];
    } else {
      var rest := Cyclic(block, 0, length - (stop - p));
      CyclicRun(block, p + 1, length - 1);
      assert block[p..stop] == [block[p]] + block[p + 1..stop];
      assert [block[p]] + (block[p + 1..stop] + rest) == block[p..stop] + rest;
    }
  }

  function StartOf(hash: Hash, block: Bytes): (start: nat)
    requires block != []
    ensures start < |block|
  {
    FromBigEndian(hash[8..12]) % |block|
  }

  method SelectBlockSlice(hash: Hash, block: Bytes, length: nat) returns (result: Bytes)
    requires block != []
    ensures result == Cyclic(block, StartOf(hash, block), length)
  {
    var start: nat := StartOf(hash, block);
    ghost var whole := Cyclic(block, start, length);
    result := [];
    while |result| < length
      invariant 0 <= start < |block| && |result| <= length
      invariant whole == result + Cyclic(block, start, length - |result|)
      decreases length - |result|
    {
      var want := length - |result|;
      var piece := block[start..Min(start + want, |block|)];
      CyclicRun(block, start, want);
      assert whole == (result + piece) + Cyclic(block, 0, want - |piece|);
      result := result + piece;
      start := 0;
    }
  }

  function SelectSliceFromChain(
    hash: Hash, currentHeight: nat, blockByHeight: map<nat, Block>, length: nat): (r: Result<Bytes>)
    requires currentHeight > 0
    ensures r.Ok? ==> |r.value| == length
  {
    var h := SelectBlockHeight(hash, currentHeight);
    if h !in blockByHeight then Err(KeyError)
    else
      var serialized := EncBlock(blockByHeight[h]);
      Ok(Cyclic(serialized, StartOf(hash, serialized), length))
  }

  function NextHash(hash: Bytes, slice: Bytes): Hash {
    Sha256d(hash + slice)
  }

  /** `n` slices; each one's hash, chained with the slice, selects the next. */
  function SelectSlices(hash: Hash, currentHeight: nat, blockByHeight: map<nat, Block>, n: nat, k: nat):
    (r: Result<Bytes>)
    requires currentHeight > 0
    decreases n
  {
    if n == 0 then Ok([])
    else
      var b :- SelectSliceFromChain(hash, currentHeight, blockByHeight, k);
      var rest :- SelectSlices(NextHash(hash, b), currentHeight, blockByHeight, n - 1, k);
      Ok(b + rest)
  }

  method SelectNKLengthSlicesFromChain(
    startingHash: Hash, currentHeight: nat, blockByHeight: map<nat, Block>, n: nat, k: nat)
    returns (r: Result<Bytes>)
    requires currentHeight > 0
    ensures r == SelectSlices(startingHash, currentHeight, blockByHeight, n, k)
  {
    hide SelectBlockHeight, StartOf, EncBlock;
    var result: Bytes := [];
    var currentHash := startingHash;
    PrecededNothing(SelectSlices(startingHash, currentHeight, blockByHeight, n, k));
    for i := 0 to n
      invariant SelectSlices(startingHash, currentHeight, blockByHeight, n, k) ==
        Preceded(result, SelectSlices(currentHash, currentHeight, blockByHeight, n - i, k))
    {
      PrecededStep(result, currentHash, currentHeight, blockByHeight, n - i, k);
      var h := SelectBlockHeight(currentHash, currentHeight);
      if h !in blockByHeight {
        return Err(KeyError);
      }
      var b := SelectBlockSlice(currentHash, EncBlock(blockByHeight[h]), k);
      result := result + b;
      if i != n - 1 {
        currentHash := NextHash(currentHash, b);
      }
    }
    assert result + [] == result;
    return Ok(result);
  }

  ghost function Preceded(before: Bytes, r: Result<Bytes>): Result<Bytes> {
    match r
    case Ok(bs) => Ok(before + bs)
    case Err(e) => Err(e)
  }

  lemma PrecededNothing(r: Result<Bytes>)
    ensures Preceded([], r) == r
  {
    assert r.Ok? ==> [] + r.value == r.value;
  }

  lemma PrecededStep(before: Bytes, hash: Hash, height: nat, blocks: map<nat, Block>, n: nat, k: nat)
    requires height > 0 && n > 0
    ensures Preceded(before, SelectSlices(hash, height, blocks, n, k)) ==
            match SelectSliceFromChain(hash, height, blocks, k)
            case Err(e) => Err(e)
            case Ok(b) => Preceded(before + b, SelectSlices(NextHash(hash, b), height, blocks, n - 1, k))
  {
    var slice := SelectSliceFromChain(hash, height, blocks, k);
    if slice.Ok? {
      var rest := SelectSlices(NextHash(hash, slice.value), height, blocks, n - 1, k);
      if rest.Ok? {
        assert before + (slice.value + rest.value) == (before + slice.value) + rest.value;
      }
    }
  }

  lemma {:induction false} SelectSlicesSize(
    hash: Hash, currentHeight: nat, blockByHeight: map<nat, Block>, n: nat, k: nat)
    requires currentHeight > 0 && SelectSlices(hash, currentHeight, blockByHeight, n, k).Ok?
    ensures |SelectSlices(hash, currentHeight, blockByHeight, n, k).value| == n * k
    decreases n
  {
    hide SelectBlockHeight, StartOf, EncBlock;
    if n > 0 {
      var b := SelectSliceFromChain(hash, currentHeight, blockByHeight, k);
      SelectSlicesSize(NextHash(hash, b.value), currentHeight, blockByHeight, n - 1, k);
      MulStep(n, k);
    }
  }

  /** With a block at every height below the current one, sampling never fails and yields exactly the bytes wanted. */
  lemma {:induction false} SamplingIsTotal(
    hash: Hash, currentHeight: nat, blockByHeight: map<nat, Block>, n: nat, k: nat)
    requires currentHeight > 0
    requires forall h: nat | h < currentHeight :: h in blockByHeight
    ensures SelectSlices(hash, currentHeight, blockByHeight, n, k).Ok?
    ensures |SelectSlices(hash, currentHeight, blockByHeight, n, k).value| == n * k
    decreases n
  {
    hide SelectBlockHeight, StartOf, EncBlock;
    if n > 0 {
      var b := SelectSliceFromChain(hash, currentHeight, blockByHeight, k);
      assert SelectBlockHeight(hash, currentHeight) in blockByHeight;
      SamplingIsTotal(NextHash(hash, b.value), currentHeight, blockByHeight, n - 1, k);
      SelectSlicesSize(hash, currentHeight, blockByHeight, n, k);
    } else {
      SelectSlicesSize(hash, currentHeight, blockByHeight, n, k);
    }
  }

  lemma MulStep(n: nat, k: nat)
    requires n > 0
    ensures k + (n - 1) * k == n * k
  {
  }
}

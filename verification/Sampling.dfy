/** What the sample of a proof of work consists of, said without the functions that draw it, and what evidence binds. */
module Sampling {
  import opened Basics
  import opened Crypto
  import opened Serialization
  import opened Datatypes
  import opened Codecs
  import opened CoinStates
  import opened Consensus
  import opened Pow

  // ----- which height and which position a hash selects

  /** The height is the remainder of the number that the first eight bytes spell. */
  lemma HeightSelected(hash: Hash, currentHeight: nat) returns (q: nat)
    requires currentHeight > 0
    ensures FromBigEndian(hash[..8]) == q * currentHeight + SelectBlockHeight(hash, currentHeight)
  {
    hide FromBigEndian;
    q := FromBigEndian(hash[..8]) / currentHeight;
  }

  /** Every height below the current one that eight bytes can spell is selected by some hash. */
  lemma EveryHeightSelected(currentHeight: nat, h: nat) returns (hash: Hash)
    requires h < currentHeight && h < 0x1_0000_0000_0000_0000
    ensures SelectBlockHeight(hash, currentHeight) == h
  {
    hide FromBigEndian;
    hash := Spelling(h);
    SmallRemainder(h, currentHeight);
  }

  lemma SmallRemainder(h: nat, n: nat)
    requires h < n
    ensures h % n == h
  {
  }

  lemma Spelling(h: nat) returns (hash: Hash)
    requires h < 0x1_0000_0000_0000_0000
    ensures FromBigEndian(hash[..8]) == h
  {
    hide BigEndian, FromBigEndian;
    Pow256Values();
    BigEndianRoundTrip(h, 8);
    var front: Bytes := BigEndian(h, 8);
    hash := front + Zeros(24);
    assert hash[..8] == front;
  }

  /** The position is the remainder of the number that the next four bytes spell. */
  lemma StartSelected(hash: Hash, block: Bytes) returns (q: nat)
    requires block != []
    ensures FromBigEndian(hash[8..12]) == q * |block| + StartOf(hash, block)
  {
    hide FromBigEndian;
    q := FromBigEndian(hash[8..12]) / |block|;
  }

  lemma EveryStartSelected(block: Bytes, start: nat) returns (hash: Hash)
    requires start < |block| && start < 0x1_0000_0000
    ensures StartOf(hash, block) == start
  {
    hide BigEndian, FromBigEndian;
    Pow256Values();
    BigEndianRoundTrip(start, 4);
    var middle: Bytes := BigEndian(start, 4);
    hash := Zeros(8) + middle + Zeros(20);
    assert hash[8..12] == middle;
    SmallRemainder(start, |block|);
  }

  // ----- the whole sample

  /** `slice` is read cyclically from the block at the height that `c` selects, from the position that `c` selects. */
  ghost predicate SliceRight(c: Hash, height: nat, blocks: map<nat, Block>, slice: Bytes)
    requires height > 0
  {
    var h := FromBigEndian(c[..8]) % height;
    && h in blocks && |slice| == 4
    && var bytes := EncBlock(blocks[h]);
       forall j | 0 <= j < 4 :: slice[j] == bytes[(FromBigEndian(c[8..12]) % |bytes| + j) % |bytes|]
  }

  /** The hash that selects slice `i`: each hash is that of the one before it followed by the slice it selected. */
  ghost function Chained(hash: Hash, sample: Bytes, i: nat): Hash
    requires 4 * i <= |sample|
  {
    if i == 0 then hash else Sha256d(Chained(hash, sample, i - 1) + sample[4 * i - 4..4 * i])
  }

  /** Slice `i` is what the hash chained up to it selects. */
  ghost predicate SliceAtRight(hash: Hash, height: nat, blocks: map<nat, Block>, sample: Bytes, i: nat)
    requires height > 0
  {
    4 * i + 4 <= |sample| && SliceRight(Chained(hash, sample, i), height, blocks, sample[4 * i..4 * i + 4])
  }

  ghost predicate SampleRight(hash: Hash, height: nat, blocks: map<nat, Block>, n: nat, sample: Bytes)
    requires height > 0
  {
    |sample| == 4 * n && forall i | 0 <= i < n :: SliceAtRight(hash, height, blocks, sample, i)
  }

  lemma BlockHasBytes(b: Block)
    ensures EncBlock(b) != []
  {
    hide EncSummary, EncEvidence, EncList;
  }

  lemma SliceExactly(c: Hash, height: nat, blocks: map<nat, Block>, slice: Bytes)
    requires height > 0
    ensures SelectSliceFromChain(c, height, blocks, 4) == Ok(slice) <==> SliceRight(c, height, blocks, slice)
  {
    hide EncBlock, FromBigEndian, Cyclic;
    var h := FromBigEndian(c[..8]) % height;
    if h in blocks {
      var bytes := EncBlock(blocks[h]);
      BlockHasBytes(blocks[h]);
      var start := StartOf(c, bytes);
      var read := Cyclic(bytes, start, 4);
      forall j | 0 <= j < 4 ensures read[j] == bytes[(start + j) % |bytes|] {
        CyclicIsModular(bytes, start, 4, j);
      }
      if SliceRight(c, height, blocks, slice) {
        assert slice == read;
      }
    }
  }

  lemma {:induction false} ChainedShift(hash: Hash, slice: Bytes, rest: Bytes, i: nat)
    requires |slice| == 4 && 4 * i <= |rest|
    ensures Chained(hash, slice + rest, i + 1) == Chained(Sha256d(hash + slice), rest, i)
    decreases i
  {
    var sample := slice + rest;
    if i == 0 {
      assert sample[0..4] == slice;
      assert Chained(hash, sample, 0) == hash;
    } else {
      ChainedShift(hash, slice, rest, i - 1);
      assert sample[4 * i..4 * i + 4] == rest[4 * i - 4..4 * i];
    }
  }

  lemma SliceShift(hash: Hash, height: nat, blocks: map<nat, Block>, slice: Bytes, rest: Bytes, i: nat)
    requires height > 0 && |slice| == 4
    ensures SliceAtRight(hash, height, blocks, slice + rest, i + 1) <==>
            SliceAtRight(Sha256d(hash + slice), height, blocks, rest, i)
  {
    hide SliceRight, Chained;
    if 4 * i + 4 <= |rest| {
      ChainedShift(hash, slice, rest, i);
      assert (slice + rest)[4 * (i + 1)..4 * (i + 1) + 4] == rest[4 * i..4 * i + 4];
    }
  }

  lemma FirstSlice(hash: Hash, height: nat, blocks: map<nat, Block>, slice: Bytes, rest: Bytes)
    requires height > 0 && |slice| == 4
    ensures SliceAtRight(hash, height, blocks, slice + rest, 0) <==> SliceRight(hash, height, blocks, slice)
  {
    hide SliceRight;
    assert (slice + rest)[0..4] == slice;
    assert Chained(hash, slice + rest, 0) == hash;
  }

  lemma SampleSplit(hash: Hash, height: nat, blocks: map<nat, Block>, n: nat, slice: Bytes, rest: Bytes)
    requires height > 0 && |slice| == 4
    ensures SampleRight(hash, height, blocks, n + 1, slice + rest) <==>
              SliceRight(hash, height, blocks, slice) && SampleRight(Sha256d(hash + slice), height, blocks, n, rest)
  {
    hide SliceRight, SliceAtRight;
    FirstSlice(hash, height, blocks, slice, rest);
    forall i | 0 <= i < n
      ensures SliceAtRight(hash, height, blocks, slice + rest, i + 1) <==>
              SliceAtRight(Sha256d(hash + slice), height, blocks, rest, i)
    {
      SliceShift(hash, height, blocks, slice, rest, i);
    }
    if SliceRight(hash, height, blocks, slice) && SampleRight(Sha256d(hash + slice), height, blocks, n, rest) {
      forall i | 0 <= i < n + 1 ensures SliceAtRight(hash, height, blocks, slice + rest, i) {
        if i > 0 {
          SliceShift(hash, height, blocks, slice, rest, i - 1);
        }
      }
    }
  }

  /** What is drawn is exactly the sample in which every slice is right. */
  lemma {:induction false} SampleExactly(hash: Hash, height: nat, blocks: map<nat, Block>, n: nat, sample: Bytes)
    requires height > 0
    ensures SelectSlices(hash, height, blocks, n, 4) == Ok(sample) <==> SampleRight(hash, height, blocks, n, sample)
    decreases n
  {
    hide SelectSliceFromChain, SliceRight, SliceAtRight;
    if n > 0 {
      if SelectSlices(hash, height, blocks, n, 4) == Ok(sample) {
        var b := SelectSliceFromChain(hash, height, blocks, 4).value;
        var rest := SelectSlices(NextHash(hash, b), height, blocks, n - 1, 4).value;
        SliceExactly(hash, height, blocks, b);
        SampleExactly(Sha256d(hash + b), height, blocks, n - 1, rest);
        SampleSplit(hash, height, blocks, n - 1, b, rest);
      }
      if SampleRight(hash, height, blocks, n, sample) {
        var b, rest := sample[..4], sample[4..];
        assert sample == b + rest;
        SampleSplit(hash, height, blocks, n - 1, b, rest);
        SliceExactly(hash, height, blocks, b);
        SampleExactly(Sha256d(hash + b), height, blocks, n - 1, rest);
      }
    }
  }

  // ----- the evidence

  /** The evidence for a block at this height, on top of the blocks below it. */
  ghost predicate EvidenceRight(
    cs: CoinState, s: BlockSummary, height: nat, ts: seq<Transaction>, e: PowEvidence)
  {
    && height < Pow256(8) && e.summaryHash == Scrypt(EncSummary(s), BigEndian(height, 8))
    && (if height == 0 then e.chainSample == ZERO_HASH
        else s.previousHash in cs.heightsByHash &&
             SampleRight(e.summaryHash, height, cs.heightsByHash[s.previousHash], 8, e.chainSample))
    && e.blockHash == Blake2(e.summaryHash + e.chainSample + EncList(EncTransaction, ts))
  }

  /** The reconstructed evidence is exactly the right one. */
  lemma EvidenceExactly(cs: CoinState, s: BlockSummary, height: nat, ts: seq<Transaction>, e: PowEvidence)
    ensures ConstructPowEvidence(cs, s, height, ts) == Ok(e) <==> EvidenceRight(cs, s, height, ts, e)
  {
    hide EncSummary, EncList, EncTransaction, SelectSlices, SampleRight, Pow256;
    if height > 0 && height < Pow256(8) && s.previousHash in cs.heightsByHash {
      var hash := Scrypt(EncSummary(s), BigEndian(height, 8));
      var blocks := cs.heightsByHash[s.previousHash];
      SampleExactly(hash, height, blocks, 8, e.chainSample);
      if SelectSlices(hash, height, blocks, 8, 4).Ok? {
        SampleExactly(hash, height, blocks, 8, SelectSlices(hash, height, blocks, 8, 4).value);
      }
    }
  }

  // ----- what evidence binds

  lemma ListsEqual(ts: seq<Transaction>, ts': seq<Transaction>)
    requires EncList(EncTransaction, ts) == EncList(EncTransaction, ts')
    ensures ts == ts'
  {
    hide EncTransaction, DecTransaction;
    TransactionCodec();
    ListRoundTrip(EncTransaction, DecTransaction, ts, []);
    ListRoundTrip(EncTransaction, DecTransaction, ts', []);
  }

  /** One evidence stands for one list of transactions, or two strings collide under blake2. */
  lemma EvidenceBindsTransactions(
    cs: CoinState, s: BlockSummary, height: nat, ts: seq<Transaction>,
    cs': CoinState, s': BlockSummary, height': nat, ts': seq<Transaction>, e: PowEvidence)
    returns (x: Bytes, y: Bytes)
    requires ConstructPowEvidence(cs, s, height, ts) == Ok(e) == ConstructPowEvidence(cs', s', height', ts')
    ensures ts == ts' || (x != y && Blake2(x) == Blake2(y))
  {
    hide EncList, EncTransaction, ConstructPowEvidence, SampleRight, EncSummary;
    EvidenceExactly(cs, s, height, ts, e);
    EvidenceExactly(cs', s', height', ts', e);
    var head: Bytes, l: Bytes, l': Bytes :=
      e.summaryHash + e.chainSample, EncList(EncTransaction, ts), EncList(EncTransaction, ts');
    x, y := head + l, head + l';
    if x == y {
      assert l == x[|head|..] && l' == y[|head|..];
      ListsEqual(ts, ts');
    }
  }

  /** And for one summary and height, or two inputs collide under scrypt. */
  lemma EvidenceBindsSummary(
    cs: CoinState, s: BlockSummary, height: nat, ts: seq<Transaction>,
    cs': CoinState, s': BlockSummary, height': nat, ts': seq<Transaction>, e: PowEvidence)
    returns (x: (Bytes, Bytes), y: (Bytes, Bytes))
    requires ConstructPowEvidence(cs, s, height, ts) == Ok(e) == ConstructPowEvidence(cs', s', height', ts')
    ensures (s == s' && height == height') || (x != y && Scrypt(x.0, x.1) == Scrypt(y.0, y.1))
  {
    hide EncList, EncTransaction, ConstructPowEvidence, SampleRight, EncSummary, BigEndian, Pow256;
    EvidenceExactly(cs, s, height, ts, e);
    EvidenceExactly(cs', s', height', ts', e);
    x, y := (EncSummary(s), BigEndian(height, 8)), (EncSummary(s'), BigEndian(height', 8));
    if x == y {
      SummaryBack(s, []);
      SummaryBack(s', []);
      BigEndianRoundTrip(height, 8);
      BigEndianRoundTrip(height', 8);
    }
  }
}

/** A block that passes every check made before it is put into the write buffer, and cannot be applied. */
module Unfunded {
  import opened Basics
  import opened Crypto
  import opened Serialization
  import opened Datatypes
  import opened Balances
  import opened CoinStates
  import opened Consensus
  import opened BlockEffects
  import opened Applying
  import opened Sources
  import opened Receiving

  function Ones(n: nat): (h: Bytes)
    ensures |h| == n && forall i | 0 <= i < n :: h[i] == 255
  {
    seq(n, _ => 255)
  }

  /** A block by itself may claim any target; this one is met by every hash but one. */
  const EASIEST: Hash := Ones(32)

  function EmptyCoinbase(height: u32): Transaction {
    Transaction([Input(THIN_AIR, CoinbaseData(height, []))], [])
  }

  /** Claim one sashimi from `r`. */
  function Claim(r: OutputReference, signature: Bytes64, key: PublicKey): Transaction {
    Transaction([Input(r, Secp256k1Signature(signature))], [Output(1, key)])
  }

  function ClaimingBlock(
    parent: Hash, height: u32, timestamp: u32, r: OutputReference, signature: Bytes64, key: PublicKey): Block
  {
    var ts := [EmptyCoinbase(height), Claim(r, signature, key)];
    Block(
      BlockHeader(
        BlockSummary(height, parent, CalcMerkleRootHash(ts), timestamp, EASIEST, 0),
        PowEvidence(ZERO_HASH, ZERO_HASH, ZERO_HASH)),
      ts)
  }

  lemma {:induction false} LessThanAllOnes(a: Bytes, b: Bytes)
    requires |a| == |b| && a != b && forall i | 0 <= i < |b| :: b[i] == 255
    ensures LexLess(a, b)
    decreases |a|
  {
    assert a == [a[0]] + a[1..] && b == [b[0]] + b[1..];
    if a[0] == 255 {
      LessThanAllOnes(a[1..], b[1..]);
    }
  }

  // ----- its size

  lemma {:induction false} BitLengthBound(i: nat, n: nat)
    requires i < Pow2(n)
    ensures BitLength(i) <= n
  {
    if i > 0 {
      BitLengthBound(i / 2, n - 1);
    }
  }

  lemma HeightOctets(height: u32)
    ensures |EncVlq(height)| <= 5
  {
    assert Pow2(8) == 256;
    assert Pow2(16) == 65_536;
    assert Pow2(24) == 16_777_216;
    assert Pow2(32) == 4_294_967_296;
    BitLengthBound(height, 32);
  }

  lemma SingletonSize<T>(enc: T -> Bytes, x: T)
    ensures |EncList(enc, [x])| == 1 + |enc(x)|
  {
    SmallOctet(1);
    assert EncAll(enc, [x]) == enc(x) + EncAll(enc, []);
  }

  lemma EmptySize<T>(enc: T -> Bytes)
    ensures |EncList<T>(enc, [])| == 1
  {
    assert BitLength(0) == 0;
  }

  lemma CoinbaseSize(height: u32)
    ensures |EncTransaction(EmptyCoinbase(height))| == 45
  {
    hide EncList;
    var i := Input(THIN_AIR, CoinbaseData(height, []));
    SingletonSize(EncInput, i);
    EmptySize(EncOutput);
    assert |EncInput(i)| == 42;
  }

  lemma ClaimSize(r: OutputReference, signature: Bytes64, key: PublicKey)
    ensures |EncTransaction(Claim(r, signature, key))| == 177
  {
    hide EncList;
    var i, o := Input(r, Secp256k1Signature(signature)), Output(1, key);
    SingletonSize(EncInput, i);
    SingletonSize(EncOutput, o);
    assert |EncInput(i)| == 101 && |EncOutput(o)| == 73;
  }

  lemma PairSize(t: Transaction, t': Transaction)
    ensures |EncList(EncTransaction, [t, t'])| == 1 + |EncTransaction(t)| + |EncTransaction(t')|
  {
    hide EncTransaction;
    SmallOctet(2);
    assert [t, t'][1..] == [t'] && [t'][1..] == [];
    assert EncAll(EncTransaction, [t']) == EncTransaction(t') + EncAll(EncTransaction, []);
  }

  lemma HeaderSize(h: BlockHeader)
    requires h.summary.height < 0x1_0000_0000
    ensures |EncHeader(h)| <= 206
  {
    hide EncVlq;
    HeightOctets(h.summary.height);
  }

  lemma BlockSize(parent: Hash, height: u32, timestamp: u32, r: OutputReference, signature: Bytes64, key: PublicKey)
    ensures |EncBlock(ClaimingBlock(parent, height, timestamp, r, signature, key))| <= 429
  {
    hide EncList, EncHeader, EncTransaction, CalcMerkleRootHash;
    var b := ClaimingBlock(parent, height, timestamp, r, signature, key);
    HeaderSize(b.header);
    PairSize(b.transactions[0], b.transactions[1]);
    CoinbaseSize(height);
    ClaimSize(r, signature, key);
  }

  // ----- it is valid by itself

  lemma ClaimValid(r: OutputReference, signature: Bytes64, key: PublicKey)
    requires !r.ReferencesThinAir()
    ensures NonCoinbaseByItself(Claim(r, signature, key)).Ok?
    ensures References([Claim(r, signature, key)]) == [r]
  {
    hide EncTransaction;
    var t := Claim(r, signature, key);
    ClaimSize(r, signature, key);
    assert t.outputs[1..] == [] && OutputsValue(t.outputs) == 1 && ValuesInRange(t.outputs);
    assert [t][1..] == [] && ReferencesOf(t.inputs) == [r];
    assert RealSignatures(t.inputs);
  }

  lemma ClaimingBlockValid(
    parent: Hash, height: u32, timestamp: u32, r: OutputReference, signature: Bytes64, key: PublicKey, now: int)
    requires !r.ReferencesThinAir() && timestamp <= now + MAX_FUTURE_BLOCK_TIME
    requires BlockHash(ClaimingBlock(parent, height, timestamp, r, signature, key)) != EASIEST
    ensures BlockByItself(ClaimingBlock(parent, height, timestamp, r, signature, key), now).Ok?
  {
    hide EncBlock, EncTransaction, CalcMerkleRootHash, BlockHash, NonCoinbaseByItself, LexLess;
    var b, t := ClaimingBlock(parent, height, timestamp, r, signature, key), Claim(r, signature, key);
    LessThanAllOnes(BlockHash(b), EASIEST);
    BlockSize(parent, height, timestamp, r, signature, key);
    ClaimValid(r, signature, key);
    assert b.transactions[1..] == [t] && [t][1..] == [];
    assert HeaderByItself(b, now).Ok?;
    assert CoinbaseByItself(b.transactions[0]).Ok?;
    assert AllByThemselves([]).Ok? && AllByThemselves([t]).Ok?;
    assert Distinct([t]) && Distinct([r]);
  }

  /** On every stored block there is such a block, for every reference that is not unspent there, unless a hash happens
      to have one particular value: it is buffered, and adding it fails. */
  lemma ClaimingBlockBreaks(
    s: State, parent: Hash, height: u32, timestamp: u32, r: OutputReference, signature: Bytes64, key: PublicKey,
    inResponseTo: nat, now: int, ts: set<Transaction>)
    requires StateSourced(s.coinstate, ts) && parent in s.coinstate.blockByHash
    requires parent in s.coinstate.utxoByHash && r !in s.coinstate.utxoByHash[parent]
    requires !r.ReferencesThinAir() && timestamp <= now + MAX_FUTURE_BLOCK_TIME
    requires r.hash != TransactionHash(EmptyCoinbase(height))
    requires var h := BlockHash(ClaimingBlock(parent, height, timestamp, r, signature, key));
             h != EASIEST && h !in s.coinstate.blockByHash
    ensures var b := ClaimingBlock(parent, height, timestamp, r, signature, key);
            && Breaks(s, Received(b, inResponseTo, now))
            && AddBlockNoValidation(s.coinstate, b).Err?
  {
    hide BlockHash, BlockByItself, StateSourced, CalcMerkleRootHash, TransactionHash, IsFunded, FundedFrom;
    var b := ClaimingBlock(parent, height, timestamp, r, signature, key);
    ClaimingBlockValid(parent, height, timestamp, r, signature, key, now);
    NotFunded(s.coinstate.utxoByHash[parent], b.transactions, r, height, signature, key);
    FundedIs(s.coinstate, b);
    AddSucceedsExactly(s.coinstate, b, now, ts);
  }

  lemma NotFunded(
    u: Utxo, ts: seq<Transaction>, r: OutputReference, height: u32, signature: Bytes64, key: PublicKey)
    requires ts == [EmptyCoinbase(height), Claim(r, signature, key)]
    requires r !in u && r.hash != TransactionHash(EmptyCoinbase(height))
    ensures AllCountable(ts) && !FundedFrom(u, ts, 1)
  {
    hide TransactionHash;
    assert ReferencesOf(ts[1].inputs)[0] == r && r in ReferencesOf(ts[1].inputs);
    assert !Available(u, ts, 1, r);
    assert !Funded(u, ts, 1);
  }

  lemma FundedIs(cs: CoinState, b: Block)
    requires b.Previous() in cs.utxoByHash && AllCountable(b.transactions)
    ensures IsFunded(cs, b) <==> FundedFrom(cs.utxoByHash[b.Previous()], b.transactions, 1)
  {
    hide FundedFrom;
  }
}

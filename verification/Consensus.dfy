/** Construction and validation of blocks. The functions say, case by case, what the code returns or raises;
    the methods are its loops, proved to compute them. */
module Consensus {
  import opened Basics
  import opened Crypto
  import opened Serialization
  import opened Datatypes
  import opened Balances
  import opened CoinStates
  import opened Merkle
  import opened Pow

  const MAX_SASHIMI := 2_099_999_986_350_000
  const MAX_BLOCK_SIZE := 200_000
  const MAX_FUTURE_BLOCK_TIME := 30
  const MAX_COINBASE_RANDOM_DATA_SIZE := 200
  const BLOCKS_BETWEEN_TARGET_READJUSTMENT := 10_080
  const DESIRED_TARGET_READJUSTMENT_TIMESPAN := 1_209_600
  const SUBSIDY_HALVING_INTERVAL := 1_050_000
  const INITIAL_SUBSIDY := 1_000_000_000

  /** The built-in block hashes below which validation in the coin state is skipped. */
  datatype Checkpoints = Checkpoints(known: map<nat, Hash>, maxHeight: int)

  // ----- shared between construction and validation

  function TransactionHashes(ts: seq<Transaction>): seq<Hash> {
    seq(|ts|, i requires 0 <= i < |ts| => TransactionHash(ts[i]))
  }

  function CalcMerkleRootHash(ts: seq<Transaction>): Hash
    requires ts != []
  {
    MerkleRoot(TransactionHashes(ts))
  }

  function CalculateNewTarget(previousTarget: Hash, timePassed: int): Result<Hash> {
    var wanted := FromBigEndian(previousTarget) * timePassed / DESIRED_TARGET_READJUSTMENT_TIMESPAN;
    var result := if wanted > Pow256(32) - 1 then Pow256(32) - 1 else wanted;
    if result < 0 then Err(OverflowError) else Ok(BigEndian(result, 32))
  }

  function CalcTarget(cs: CoinState, height: nat, timestamp: int, previous: Block): Result<Hash> {
    if height % BLOCKS_BETWEEN_TARGET_READJUSTMENT == 0 then
      var start := height - BLOCKS_BETWEEN_TARGET_READJUSTMENT;
      var h := BlockHash(previous);
      if start < 0 || h !in cs.heightsByHash || start !in cs.heightsByHash[h] then Err(KeyError)
      else CalculateNewTarget(previous.Target(), timestamp - cs.heightsByHash[h][start].Timestamp())
    else Ok(previous.Target())
  }

  function OutputsValue(outs: seq<Output>): nat {
    if outs == [] then 0 else outs[0].value + OutputsValue(outs[1..])
  }

  function InputsValue(u: Utxo, ins: seq<Input>): Result<nat> {
    if ins == [] then Ok(0)
    else if ins[0].reference !in u then Err(KeyError)
    else
      var rest :- InputsValue(u, ins[1..]);
      Ok(u[ins[0].reference].value + rest)
  }

  function GetTransactionFee(t: Transaction, u: Utxo): Result<int> {
    var total :- InputsValue(u, t.inputs);
    Ok(total - OutputsValue(t.outputs))
  }

  function GetBlockFees(ts: seq<Transaction>, u: Utxo): Result<int> {
    if ts == [] then Ok(0)
    else
      var fee :- GetTransactionFee(ts[0], u);
      var rest :- GetBlockFees(ts[1..], u);
      Ok(fee + rest)
  }

  function GetBlockSubsidy(height: nat): nat {
    var halvings := height / SUBSIDY_HALVING_INTERVAL;
    if halvings >= 64 then 0 else Quotient(INITIAL_SUBSIDY, Pow2(halvings))
  }

  // ----- construction

  const THIN_AIR := OutputReference(ZERO_HASH, 0)

  /** What cannot be packed into the fields of a transaction surfaces when it is hashed, as a StructError. */
  function ConstructCoinbaseTransaction(
    height: nat, others: seq<Transaction>, u: Utxo, data: Bytes, minerPublicKey: PublicKey): Result<Transaction>
  {
    var fees :- GetBlockFees(others, u);
    var value := GetBlockSubsidy(height) + fees;
    if height > 0xFFFF_FFFF || |data| > 256 then Err(ValueError)
    else if |data| == 256 || !(0 <= value < 0x1_0000_0000_0000_0000) then Err(StructError)
    else Ok(Transaction([Input(THIN_AIR, CoinbaseData(height, data))], [Output(value, minerPublicKey)]))
  }

  function ConstructSummaryHash(summary: BlockSummary, currentHeight: nat): Result<Hash> {
    if currentHeight >= Pow256(8) then Err(OverflowError)
    else Ok(Scrypt(EncSummary(summary), BigEndian(currentHeight, 8)))
  }

  function ChainSample(cs: CoinState, summary: BlockSummary, currentHeight: nat, summaryHash: Hash): Result<Bytes> {
    if currentHeight == 0 then Ok(Zeros(CHAIN_SAMPLE_TOTAL_SIZE))
    else if summary.previousHash !in cs.heightsByHash then Err(KeyError)
    else SelectSlices(summaryHash, currentHeight, cs.heightsByHash[summary.previousHash],
                      CHAIN_SAMPLE_COUNT, CHAIN_SAMPLE_SIZE)
  }

  lemma ChainSampleSize(cs: CoinState, summary: BlockSummary, currentHeight: nat, summaryHash: Hash)
    ensures var sample := ChainSample(cs, summary, currentHeight, summaryHash);
            sample.Ok? ==> |sample.value| == CHAIN_SAMPLE_TOTAL_SIZE
  {
    hide SelectSliceFromChain, SelectSlices;
    var sample := ChainSample(cs, summary, currentHeight, summaryHash);
    if sample.Ok? && currentHeight > 0 {
      SelectSlicesSize(summaryHash, currentHeight, cs.heightsByHash[summary.previousHash],
                       CHAIN_SAMPLE_COUNT, CHAIN_SAMPLE_SIZE);
    }
  }

  function ConstructPowEvidence(cs: CoinState, summary: BlockSummary, currentHeight: nat, ts: seq<Transaction>):
    Result<PowEvidence>
  {
    var summaryHash :- ConstructSummaryHash(summary, currentHeight);
    var sample :- ChainSample(cs, summary, currentHeight, summaryHash);
    ChainSampleSize(cs, summary, currentHeight, summaryHash);
    Ok(PowEvidence(summaryHash, sample, EvidenceHash(summaryHash, sample, EncList(EncTransaction, ts))))
  }

  function EvidenceHash(summaryHash: Bytes, sample: Bytes, transactions: Bytes): Hash {
    Blake2(summaryHash + sample + transactions)
  }

  function ConstructMinableSummary(cs: CoinState, ts: seq<Transaction>, timestamp: u32, nonce: u32):
    Result<BlockSummary>
    requires ts != []
  {
    var previous :- Head(cs);
    var target :- CalcTarget(cs, previous.Height() + 1, timestamp, previous);
    Ok(BlockSummary(previous.Height() + 1, cs.current.value, CalcMerkleRootHash(ts), timestamp, target, nonce))
  }

  /** The template a miner works on: the summary, the height and the transactions, coinbase first. */
  function ConstructBlockPowEvidenceInput(
    cs: CoinState, others: seq<Transaction>, minerPublicKey: PublicKey, timestamp: u32, data: Bytes, nonce: u32):
    (r: Result<(BlockSummary, nat, seq<Transaction>)>)
    ensures r.Ok? ==> |r.value.2| > 0
  {
    var previous :- Head(cs);
    var height := previous.Height() + 1;
    if cs.current.value !in cs.utxoByHash then Err(KeyError)
    else
      var u := cs.utxoByHash[cs.current.value];
      var coinbase :- ConstructCoinbaseTransaction(height, others, u, data, minerPublicKey);
      var ts := [coinbase] + others;
      var summary :- ConstructMinableSummary(cs, ts, timestamp, nonce);
      Ok((summary, height, ts))
  }

  function ConstructBlockForMining(
    cs: CoinState, others: seq<Transaction>, minerPublicKey: PublicKey, timestamp: u32, data: Bytes, nonce: u32):
    Result<Block>
  {
    var (summary, height, ts) :- ConstructBlockPowEvidenceInput(cs, others, minerPublicKey, timestamp, data, nonce);
    var evidence :- ConstructPowEvidence(cs, summary, height, ts);
    Ok(Block(BlockHeader(summary, evidence), ts))
  }

  // ----- validation of a transaction by itself

  predicate InSashimiRange(value: int) {
    0 < value <= MAX_SASHIMI
  }

  function ReferencesOf(ins: seq<Input>): (rs: seq<OutputReference>)
    ensures |rs| == |ins|
  {
    seq(|ins|, i requires 0 <= i < |ins| => ins[i].reference)
  }

  predicate ValuesInRange(outs: seq<Output>) {
    && (forall o | o in outs :: InSashimiRange(o.value))
    && InSashimiRange(OutputsValue(outs))
  }

  predicate RealSignatures(ins: seq<Input>) {
    forall i | i in ins :: !i.reference.ReferencesThinAir() && !i.signature.IsNotSignature()
  }

  function NonCoinbaseByItself(t: Transaction): Verdict {
    if t.inputs == [] || t.outputs == [] || |EncTransaction(t)| > MAX_BLOCK_SIZE then Err(ValidateTransactionError)
    else if !ValuesInRange(t.outputs) then Err(ValidationError)
    else if !Distinct(ReferencesOf(t.inputs)) || !RealSignatures(t.inputs) then Err(ValidateTransactionError)
    else PASS
  }

  method ValidateNonCoinbaseTransactionByItself(t: Transaction) returns (r: Verdict)
    ensures r == NonCoinbaseByItself(t)
  {
    if t.inputs == [] || t.outputs == [] || |EncTransaction(t)| > MAX_BLOCK_SIZE {
      return Err(ValidateTransactionError);
    }
    var _ :- ValidateOutputValues(t.outputs);
    var distinct := NoneSeenTwice(ReferencesOf(t.inputs));
    if !distinct {
      return Err(ValidateTransactionError);
    }
    r := ValidateRealSignatures(t.inputs);
  }

  method ValidateRealSignatures(ins: seq<Input>) returns (r: Verdict)
    ensures r == if RealSignatures(ins) then PASS else Err(ValidateTransactionError)
  {
    for i := 0 to |ins|
      invariant RealSignatures(ins[..i])
    {
      if ins[i].reference.ReferencesThinAir() || ins[i].signature.IsNotSignature() {
        return Err(ValidateTransactionError);
      }
    }
    assert ins[..|ins|] == ins;
    return PASS;
  }

  method ValidateOutputValues(outs: seq<Output>) returns (r: Verdict)
    ensures r == if ValuesInRange(outs) then PASS else Err(ValidationError)
  {
    var total := 0;
    for i := 0 to |outs|
      invariant forall k | 0 <= k < i :: InSashimiRange(outs[k].value)
      invariant OutputsValue(outs) == total + OutputsValue(outs[i..])
    {
      assert outs[i..][1..] == outs[i + 1..];
      if !InSashimiRange(outs[i].value) {
        return Err(ValidationError);
      }
      total := total + outs[i].value;
    }
    return if InSashimiRange(total) then PASS else Err(ValidationError);
  }

  /** Walk a list with a set of what has been seen. */
  method NoneSeenTwice<T(==)>(xs: seq<T>) returns (distinct: bool)
    ensures distinct <==> Distinct(xs)
  {
    var seen := {};
    for i := 0 to |xs|
      invariant forall x :: x in seen <==> exists k | 0 <= k < i :: xs[k] == x
      invariant forall j, k | 0 <= j < k < i :: xs[j] != xs[k]
    {
      if xs[i] in seen {
        return false;
      }
      seen := seen + {xs[i]};
    }
    return true;
  }

  // ----- validation of a coinbase by itself

  function CoinbaseByItself(t: Transaction): Verdict {
    if |t.inputs| != 1 then Err(ValidateTransactionError)
    else if !t.inputs[0].reference.ReferencesThinAir() then Err(ValidateTransactionError)
    else if !t.inputs[0].signature.CoinbaseData? then Err(ValidateTransactionError)
    else if |t.inputs[0].signature.data| > MAX_COINBASE_RANDOM_DATA_SIZE then Err(ValidateTransactionError)
    else PASS
  }

  // ----- validation of a block by itself

  function HeaderByItself(b: Block, now: int): Verdict {
    if !LexLess(BlockHash(b), b.Target()) then Err(ValidatePOWError)
    else if b.Timestamp() > now + MAX_FUTURE_BLOCK_TIME then Err(ValidateBlockHeaderError)
    else PASS
  }

  function AllByThemselves(ts: seq<Transaction>): Verdict {
    if ts == [] then PASS
    else
      var _ :- NonCoinbaseByItself(ts[0]);
      AllByThemselves(ts[1..])
  }

  /** The references of all inputs, in order. */
  function References(ts: seq<Transaction>): seq<OutputReference> {
    if ts == [] then [] else ReferencesOf(ts[0].inputs) + References(ts[1..])
  }

  function BlockByItself(b: Block, now: int): Verdict {
    var _ :- HeaderByItself(b, now);
    if b.transactions == [] || |EncBlock(b)| > MAX_BLOCK_SIZE then Err(ValidateBlockError)
    else
      var coinbase, others := b.transactions[0], b.transactions[1..];
      var _ :- CoinbaseByItself(coinbase);
      if coinbase.inputs[0].signature.height != b.Height() then Err(ValidateBlockError)
      else
        var _ :- AllByThemselves(others);
        if !Distinct(others) || !Distinct(References(others)) then Err(ValidateTransactionError)
        else if b.header.summary.merkleRoot != CalcMerkleRootHash(b.transactions) then Err(ValidateBlockError)
        else PASS
  }

  method ValidateNoDuplicateOutputReferencesInTransactions(ts: seq<Transaction>) returns (r: Verdict)
    ensures r == if Distinct(References(ts)) then PASS else Err(ValidateTransactionError)
  {
    var seen: set<OutputReference> := {};
    ghost var done := [];
    for i := 0 to |ts|
      invariant done + References(ts[i..]) == References(ts)
      invariant Distinct(done) && SeenExactly(seen, done)
    {
      ghost var here := ReferencesOf(ts[i].inputs);
      assert ts[i..][1..] == ts[i + 1..];
      assert References(ts) == (done + here) + References(ts[i + 1..]);
      var unseen;
      unseen, seen := SeeInputs(seen, done, ts[i].inputs);
      if !unseen {
        PrefixDistinct(done + here, References(ts[i + 1..]));
        return Err(ValidateTransactionError);
      }
      done := done + here;
    }
    assert done + [] == done;
    return PASS;
  }

  ghost predicate SeenExactly(seen: set<OutputReference>, done: seq<OutputReference>) {
    forall x :: x in seen <==> x in done
  }

  /** One transaction's turn in the walk above: were all its references unseen? */
  method SeeInputs(seen: set<OutputReference>, ghost done: seq<OutputReference>, ins: seq<Input>)
    returns (unseen: bool, seen': set<OutputReference>)
    requires Distinct(done) && SeenExactly(seen, done)
    ensures unseen <==> Distinct(done + ReferencesOf(ins))
    ensures unseen ==> SeenExactly(seen', done + ReferencesOf(ins))
  {
    seen' := seen;
    ghost var here, all := ReferencesOf(ins), done;
    for j := 0 to |ins|
      invariant all == done + here[..j]
      invariant Distinct(all) && SeenExactly(seen', all)
    {
      var reference := ins[j].reference;
      assert done + here == (all + [reference]) + here[j + 1..];
      if reference in seen' {
        RepeatIsNotDistinct(all, reference);
        PrefixDistinct(all + [reference], here[j + 1..]);
        return false, seen';
      }
      seen' := seen' + {reference};
      all := all + [reference];
    }
    assert all == done + here;
    return true, seen';
  }

  lemma RepeatIsNotDistinct<T>(xs: seq<T>, x: T)
    requires x in xs
    ensures !Distinct(xs + [x])
  {
    var k :| 0 <= k < |xs| && xs[k] == x;
    assert (xs + [x])[k] == (xs + [x])[|xs|];
  }

  lemma PrefixDistinct<T>(xs: seq<T>, rest: seq<T>)
    ensures Distinct(xs + rest) ==> Distinct(xs)
  {
    if !Distinct(xs) {
      var i, j :| 0 <= i < j < |xs| && xs[i] == xs[j];
      assert (xs + rest)[i] == (xs + rest)[j];
    }
  }

  method ValidateBlockByItself(b: Block, now: int) returns (r: Verdict)
    ensures r == BlockByItself(b, now)
  {
    hide HeaderByItself, EncBlock, NonCoinbaseByItself, References, MerkleRoot;
    var _ :- HeaderByItself(b, now);
    if b.transactions == [] || |EncBlock(b)| > MAX_BLOCK_SIZE {
      return Err(ValidateBlockError);
    }
    var coinbase, others := b.transactions[0], b.transactions[1..];
    var _ :- CoinbaseByItself(coinbase);
    if coinbase.inputs[0].signature.height != b.Height() {
      return Err(ValidateBlockError);
    }
    for i := 0 to |others|
      invariant AllByThemselves(others) == AllByThemselves(others[i..])
    {
      assert others[i..][1..] == others[i + 1..];
      var _ :- ValidateNonCoinbaseTransactionByItself(others[i]);
    }
    var distinct := NoneSeenTwice(others);
    if !distinct {
      return Err(ValidateTransactionError);
    }
    var _ :- ValidateNoDuplicateOutputReferencesInTransactions(others);
    var root := GetMerkleRoot(TransactionHashes(b.transactions));
    if b.header.summary.merkleRoot != root {
      return Err(ValidateBlockError);
    }
    return PASS;
  }

  // ----- validation in a coin state

  /** Placeholders in the place of a signature have no way to be checked. */
  function SignatureForSpend(i: Input, previous: Output, t: Transaction): Verdict {
    if !i.signature.Secp256k1Signature? then Err(NotImplementedError)
    else
      match EcdsaVerify(previous.publicKey.key, i.signature.signature, EncTransaction(Signable(t)))
      case Good => PASS
      case Bad => Err(ValidateTransactionError)
      case MalformedKey => Err(MalformedPointError)
  }

  /** The value of the inputs from number `k` on, each found unspent and claimed by a valid signature. */
  function ClaimedValue(u: Utxo, t: Transaction, k: nat): Result<nat>
    requires k <= |t.inputs|
    decreases |t.inputs| - k
  {
    if k == |t.inputs| then Ok(0)
    else if t.inputs[k].reference !in u then Err(ValidateTransactionError)
    else
      var previous := u[t.inputs[k].reference];
      var _ :- SignatureForSpend(t.inputs[k], previous, t);
      var rest :- ClaimedValue(u, t, k + 1);
      Ok(previous.value + rest)
  }

  function NonCoinbaseInUtxo(t: Transaction, u: Utxo): Verdict {
    var total :- ClaimedValue(u, t, 0);
    if OutputsValue(t.outputs) > total then Err(ValidateTransactionError) else PASS
  }

  function NonCoinbaseInCoinstate(t: Transaction, atHash: Hash, cs: CoinState): Verdict {
    if atHash !in cs.utxoByHash then Err(KeyError) else NonCoinbaseInUtxo(t, cs.utxoByHash[atHash])
  }

  method ValidateNonCoinbaseTransactionInCoinstate(t: Transaction, atHash: Hash, cs: CoinState) returns (r: Verdict)
    ensures r == NonCoinbaseInCoinstate(t, atHash, cs)
  {
    if atHash !in cs.utxoByHash {
      return Err(KeyError);
    }
    var u := cs.utxoByHash[atHash];
    var total := 0;
    for k := 0 to |t.inputs|
      invariant ClaimedValue(u, t, 0) == Plus(total, ClaimedValue(u, t, k))
    {
      if t.inputs[k].reference !in u {
        return Err(ValidateTransactionError);
      }
      var previous := u[t.inputs[k].reference];
      var _ :- SignatureForSpend(t.inputs[k], previous, t);
      total := total + previous.value;
    }
    return if OutputsValue(t.outputs) > total then Err(ValidateTransactionError) else PASS;
  }

  ghost function Plus(n: int, r: Result<nat>): Result<int> {
    match r
    case Ok(v) => Ok(n + v)
    case Err(e) => Err(e)
  }

  function CoinbaseInCoinstate(t: Transaction, b: Block, cs: CoinState): Verdict {
    var parent := b.Previous();
    if parent !in cs.blockByHash then Err(KeyError)
    else if b.Height() != cs.blockByHash[parent].Height() + 1 then Err(ValidateBlockHeaderError)
    else if parent !in cs.utxoByHash then Err(KeyError)
    else
      var fees :- GetBlockFees(if b.transactions == [] then [] else b.transactions[1..], cs.utxoByHash[parent]);
      if OutputsValue(t.outputs) > fees + GetBlockSubsidy(b.Height()) then Err(ValidateTransactionError) else PASS
  }

  function SummaryInCoinstate(s: BlockSummary, cs: CoinState): Verdict {
    if s.previousHash !in cs.blockByHash then Err(ValidateBlockHeaderError)
    else
      var previous := cs.blockByHash[s.previousHash];
      if s.timestamp <= previous.Timestamp() then Err(ValidateBlockHeaderError)
      else
        var target :- CalcTarget(cs, previous.Height() + 1, s.timestamp, previous);
        if s.target != target then Err(ValidateBlockHeaderError) else PASS
  }

  function AllInCoinstate(ts: seq<Transaction>, atHash: Hash, cs: CoinState): Verdict {
    if ts == [] then PASS
    else
      var _ :- NonCoinbaseInCoinstate(ts[0], atHash, cs);
      AllInCoinstate(ts[1..], atHash, cs)
  }

  function BlockInCoinstate(cp: Checkpoints, b: Block, cs: CoinState): Verdict {
    if b.Height() <= cp.maxHeight then
      if b.Height() in cp.known && BlockHash(b) != cp.known[b.Height()] then Err(ValidationError) else PASS
    else
      var _ :- SummaryInCoinstate(b.header.summary, cs);
      var evidence :- ConstructPowEvidence(cs, b.header.summary, b.Height(), b.transactions);
      if b.header.evidence != evidence then Err(ValidateBlockError)
      else if b.transactions == [] then Err(IndexError)
      else
        var _ :- CoinbaseInCoinstate(b.transactions[0], b, cs);
        AllInCoinstate(b.transactions[1..], b.Previous(), cs)
  }

  method ValidateBlockInCoinstate(cp: Checkpoints, b: Block, cs: CoinState) returns (r: Verdict)
    ensures r == BlockInCoinstate(cp, b, cs)
  {
    if b.Height() <= cp.maxHeight {
      if b.Height() in cp.known && BlockHash(b) != cp.known[b.Height()] {
        return Err(ValidationError);
      }
      return PASS;
    }
    var _ :- SummaryInCoinstate(b.header.summary, cs);
    var evidence :- ConstructPowEvidence(cs, b.header.summary, b.Height(), b.transactions);
    if b.header.evidence != evidence {
      return Err(ValidateBlockError);
    }
    if b.transactions == [] {
      return Err(IndexError);
    }
    var _ :- CoinbaseInCoinstate(b.transactions[0], b, cs);
    var others := b.transactions[1..];
    for i := 0 to |others|
      invariant AllInCoinstate(others, b.Previous(), cs) == AllInCoinstate(others[i..], b.Previous(), cs)
    {
      assert others[i..][1..] == others[i + 1..];
      var _ :- ValidateNonCoinbaseTransactionInCoinstate(others[i], b.Previous(), cs);
    }
    return PASS;
  }

  /** `CoinState.add_block`: both validations, then the state grows. */
  function AddBlock(cp: Checkpoints, cs: CoinState, b: Block, now: int): Result<CoinState> {
    var _ :- BlockByItself(b, now);
    var _ :- BlockInCoinstate(cp, b, cs);
    AddBlockNoValidation(cs, b)
  }
}

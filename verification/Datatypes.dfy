/** Keys, signatures, transactions and blocks, with their binary encodings and hashes. */
module Datatypes {
  import opened Basics
  import opened Crypto
  import opened Serialization

  // ----- entities

  /** The length byte of coinbase data holds at most 255. */
  type Payload = b: Bytes | |b| <= 255

  datatype PublicKey = Secp256k1PublicKey(key: Bytes64)

  datatype Signature =
    | SignableEquivalent
    | CoinbaseData(height: u32, data: Payload)
    | Secp256k1Signature(signature: Bytes64)
  {
    predicate IsNotSignature() {
      !Secp256k1Signature?
    }
  }

  datatype OutputReference = OutputReference(hash: Hash, index: u32) {
    predicate ReferencesThinAir() {
      hash == ZERO_HASH && index == 0
    }
  }

  datatype Input = Input(reference: OutputReference, signature: Signature)

  datatype Output = Output(value: u64, publicKey: PublicKey)

  datatype Transaction = Transaction(inputs: seq<Input>, outputs: seq<Output>)

  datatype BlockSummary = BlockSummary(
    height: nat, previousHash: Hash, merkleRoot: Hash, timestamp: u32, target: Hash, nonce: u32)

  datatype PowEvidence = PowEvidence(summaryHash: Hash, chainSample: Hash, blockHash: Hash)

  datatype BlockHeader = BlockHeader(summary: BlockSummary, evidence: PowEvidence)

  datatype Block = Block(header: BlockHeader, transactions: seq<Transaction>) {
    function Height(): nat {
      header.summary.height
    }

    function Previous(): Hash {
      header.summary.previousHash
    }

    function Timestamp(): u32 {
      header.summary.timestamp
    }

    function Target(): Hash {
      header.summary.target
    }
  }

  // ----- encoders

  function EncPublicKey(k: PublicKey): Bytes {
    [2] + k.key
  }

  function EncSignature(s: Signature): Bytes {
    match s
    case SignableEquivalent => [0]
    case CoinbaseData(height, data) => [1] + (U32(height) + ([|data|] + data))
    case Secp256k1Signature(signature) => [2] + signature
  }

  function EncReference(r: OutputReference): Bytes {
    r.hash + U32(r.index)
  }

  function EncInput(i: Input): Bytes {
    EncReference(i.reference) + EncSignature(i.signature)
  }

  function EncOutput(o: Output): Bytes {
    U64(o.value) + EncPublicKey(o.publicKey)
  }

  function EncTransaction(t: Transaction): Bytes {
    [0] + (EncList(EncInput, t.inputs) + EncList(EncOutput, t.outputs))
  }

  function EncSummary(s: BlockSummary): Bytes {
    EncVlq(s.height) + (s.previousHash + (s.merkleRoot + (U32(s.timestamp) + (s.target + U32(s.nonce)))))
  }

  function EncEvidence(e: PowEvidence): Bytes {
    e.summaryHash + (e.chainSample + e.blockHash)
  }

  function EncHeader(h: BlockHeader): Bytes {
    [0] + (EncSummary(h.summary) + EncEvidence(h.evidence))
  }

  function EncBlock(b: Block): Bytes {
    EncHeader(b.header) + EncList(EncTransaction, b.transactions)
  }

  // ----- hashes

  function TransactionHash(t: Transaction): Hash {
    Sha256d(EncTransaction(t))
  }

  function BlockHash(b: Block): Hash {
    Sha256d(EncHeader(b.header))
  }

  /** What is signed: the transaction with every signature replaced by a placeholder. */
  function Signable(t: Transaction): Transaction {
    Transaction(
      seq(|t.inputs|, i requires 0 <= i < |t.inputs| => Input(t.inputs[i].reference, SignableEquivalent)), t.outputs)
  }

  /** Signing does not change what is to be signed. */
  lemma SignableIgnoresSignatures(t: Transaction, signed: Transaction)
    requires |t.inputs| == |signed.inputs| && t.outputs == signed.outputs
    requires forall i | 0 <= i < |t.inputs| :: t.inputs[i].reference == signed.inputs[i].reference
    ensures Signable(t) == Signable(signed)
  {
    assert Signable(t).inputs == Signable(signed).inputs;
  }

  // ----- decoders

  function DecPublicKey(bs: Bytes): (d: Decoded<PublicKey>)
    ensures LeavesSuffix(d, bs)
  {
    var (kind, r) :- SafeRead(bs, 1);
    if kind == [2] then
      var (key, r) :- SafeRead(r, 64);
      Ok((Secp256k1PublicKey(key), r))
    else Err(DeserializationError)
  }

  function DecCoinbaseData(bs: Bytes): (d: Decoded<Signature>)
    ensures LeavesSuffix(d, bs)
  {
    var (height, r) :- SafeRead(bs, 4);
    var (length, r) :- SafeRead(r, 1);
    var (data, r) :- SafeRead(r, length[0]);
    Ok((CoinbaseData(FromU32(height), data), r))
  }

  function DecSignature(bs: Bytes): (d: Decoded<Signature>)
    ensures LeavesSuffix(d, bs)
  {
    var (kind, r) :- SafeRead(bs, 1);
    if kind == [0] then Ok((SignableEquivalent, r))
    else if kind == [1] then DecCoinbaseData(r)
    else if kind == [2] then
      var (signature, r) :- SafeRead(r, 64);
      Ok((Secp256k1Signature(signature), r))
    else Err(DeserializationError)
  }

  function DecReference(bs: Bytes): (d: Decoded<OutputReference>)
    ensures LeavesSuffix(d, bs)
  {
    var (hash, r) :- SafeRead(bs, 32);
    var (index, r) :- SafeRead(r, 4);
    Ok((OutputReference(hash, FromU32(index)), r))
  }

  function DecInput(bs: Bytes): (d: Decoded<Input>)
    ensures LeavesSuffix(d, bs)
  {
    var (reference, r) :- DecReference(bs);
    var (signature, r) :- DecSignature(r);
    Ok((Input(reference, signature), r))
  }

  function DecOutput(bs: Bytes): (d: Decoded<Output>)
    ensures LeavesSuffix(d, bs)
  {
    var (value, r) :- SafeRead(bs, 8);
    var (key, r) :- DecPublicKey(r);
    Ok((Output(FromU64(value), key), r))
  }

  function DecTransaction(bs: Bytes): (d: Decoded<Transaction>) {
    var (version, r) :- SafeRead(bs, 1);
    if version != [0] then Err(ValueError)
    else
      var (inputs, r) :- DecList(DecInput, r);
      var (outputs, r) :- DecList(DecOutput, r);
      Ok((Transaction(inputs, outputs), r))
  }

  function DecSummary(bs: Bytes): (d: Decoded<BlockSummary>)
    ensures LeavesSuffix(d, bs)
  {
    var (height, r) :- DecVlq(bs);
    var (previousHash, r) :- SafeRead(r, 32);
    var (merkleRoot, r) :- SafeRead(r, 32);
    var (timestamp, r) :- SafeRead(r, 4);
    var (target, r) :- SafeRead(r, 32);
    var (nonce, r) :- SafeRead(r, 4);
    Ok((BlockSummary(height, previousHash, merkleRoot, FromU32(timestamp), target, FromU32(nonce)), r))
  }

  function DecEvidence(bs: Bytes): (d: Decoded<PowEvidence>)
    ensures LeavesSuffix(d, bs)
  {
    var (summaryHash, r) :- SafeRead(bs, 32);
    var (chainSample, r) :- SafeRead(r, 32);
    var (blockHash, r) :- SafeRead(r, 32);
    Ok((PowEvidence(summaryHash, chainSample, blockHash), r))
  }

  function DecHeader(bs: Bytes): (d: Decoded<BlockHeader>)
    ensures LeavesSuffix(d, bs)
  {
    var (version, r) :- SafeRead(bs, 1);
    if version != [0] then Err(ValueError)
    else
      var (summary, r) :- DecSummary(r);
      var (evidence, r) :- DecEvidence(r);
      Ok((BlockHeader(summary, evidence), r))
  }

  function DecBlock(bs: Bytes): Decoded<Block> {
    var (header, r) :- DecHeader(bs);
    var (transactions, r) :- DecList(DecTransaction, r);
    Ok((Block(header, transactions), r))
  }
}

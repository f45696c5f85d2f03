/** The serialisers as the program runs them: one after another on a stream, each moving its cursor. */
module Streams {
  import opened Basics
  import opened Crypto
  import opened Serialization
  import opened Datatypes
  import opened Codecs

  /** At the end of the stream, ready to write. */
  ghost predicate Writing(f: ByteStream)
    reads f
  {
    f.Valid() && f.pos == |f.data|
  }

  // ----- writing

  method WritePublicKey(f: ByteStream, k: PublicKey)
    requires Writing(f)
    modifies f
    ensures Writing(f) && f.data == old(f.data) + EncPublicKey(k)
  {
    f.Write([2]);
    f.Write(k.key);
  }

  method WriteCoinbaseData(f: ByteStream, height: u32, data: Payload)
    requires Writing(f)
    modifies f
    ensures Writing(f) && f.data == old(f.data) + EncSignature(CoinbaseData(height, data))
  {
    ghost var before := f.data;
    f.Write([1]);
    f.Write(U32(height));
    f.Write([|data|]);
    f.Write(data);
    assert f.data == before + ([1] + (U32(height) + ([|data|] + data)));
  }

  method WriteSignature(f: ByteStream, s: Signature)
    requires Writing(f)
    modifies f
    ensures Writing(f) && f.data == old(f.data) + EncSignature(s)
  {
    match s
    case SignableEquivalent =>
      f.Write([0]);
    case CoinbaseData(height, data) =>
      WriteCoinbaseData(f, height, data);
    case Secp256k1Signature(signature) =>
      f.Write([2]);
      f.Write(signature);
  }

  method WriteReference(f: ByteStream, r: OutputReference)
    requires Writing(f)
    modifies f
    ensures Writing(f) && f.data == old(f.data) + EncReference(r)
  {
    f.Write(r.hash);
    f.Write(U32(r.index));
  }

  method WriteInput(f: ByteStream, i: Input)
    requires Writing(f)
    modifies f
    ensures Writing(f) && f.data == old(f.data) + EncInput(i)
  {
    hide EncReference, EncSignature;
    WriteReference(f, i.reference);
    WriteSignature(f, i.signature);
  }

  method WriteOutput(f: ByteStream, o: Output)
    requires Writing(f)
    modifies f
    ensures Writing(f) && f.data == old(f.data) + EncOutput(o)
  {
    hide EncPublicKey;
    f.Write(U64(o.value));
    WritePublicKey(f, o.publicKey);
  }

  method WriteTransaction(f: ByteStream, t: Transaction)
    requires Writing(f)
    modifies f
    ensures Writing(f) && f.data == old(f.data) + EncTransaction(t)
  {
    hide EncInput, EncOutput, EncList;
    f.Write([0]);
    f.SerializeList(EncInput, t.inputs);
    f.SerializeList(EncOutput, t.outputs);
  }

  method WriteSummary(f: ByteStream, s: BlockSummary)
    requires Writing(f)
    modifies f
    ensures Writing(f) && f.data == old(f.data) + EncSummary(s)
  {
    hide EncVlq;
    f.SerializeVlq(s.height);
    f.Write(s.previousHash);
    f.Write(s.merkleRoot);
    f.Write(U32(s.timestamp));
    f.Write(s.target);
    f.Write(U32(s.nonce));
  }

  method WriteEvidence(f: ByteStream, e: PowEvidence)
    requires Writing(f)
    modifies f
    ensures Writing(f) && f.data == old(f.data) + EncEvidence(e)
  {
    f.Write(e.summaryHash);
    f.Write(e.chainSample);
    f.Write(e.blockHash);
  }

  method WriteHeader(f: ByteStream, h: BlockHeader)
    requires Writing(f)
    modifies f
    ensures Writing(f) && f.data == old(f.data) + EncHeader(h)
  {
    hide EncSummary, EncEvidence;
    f.Write([0]);
    WriteSummary(f, h.summary);
    WriteEvidence(f, h.evidence);
  }

  method WriteBlock(f: ByteStream, b: Block)
    requires Writing(f)
    modifies f
    ensures Writing(f) && f.data == old(f.data) + EncBlock(b)
  {
    hide EncHeader, EncTransaction, EncList;
    WriteHeader(f, b.header);
    f.SerializeList(EncTransaction, b.transactions);
  }

  // ----- reading

  method ReadPublicKey(f: ByteStream) returns (r: Result<PublicKey>)
    requires f.Valid()
    modifies f`pos
    ensures f.Valid() && Agrees(DecPublicKey(old(f.Rest())), r, f.Rest())
  {
    var kind :- f.Read(1);
    if kind != [2] {
      return Err(DeserializationError);
    }
    var key :- f.Read(64);
    r := Ok(Secp256k1PublicKey(key));
  }

  method ReadCoinbaseData(f: ByteStream) returns (r: Result<Signature>)
    requires f.Valid()
    modifies f`pos
    ensures f.Valid() && Agrees(DecCoinbaseData(old(f.Rest())), r, f.Rest())
  {
    var height :- f.Read(4);
    var length :- f.Read(1);
    var data :- f.Read(length[0]);
    r := Ok(CoinbaseData(FromU32(height), data));
  }

  method ReadSignature(f: ByteStream) returns (r: Result<Signature>)
    requires f.Valid()
    modifies f`pos
    ensures f.Valid() && Agrees(DecSignature(old(f.Rest())), r, f.Rest())
  {
    hide DecCoinbaseData;
    var kind :- f.Read(1);
    if kind == [0] {
      return Ok(SignableEquivalent);
    }
    if kind == [1] {
      r := ReadCoinbaseData(f);
      return;
    }
    if kind == [2] {
      var signature :- f.Read(64);
      return Ok(Secp256k1Signature(signature));
    }
    r := Err(DeserializationError);
  }

  method ReadReference(f: ByteStream) returns (r: Result<OutputReference>)
    requires f.Valid()
    modifies f`pos
    ensures f.Valid() && Agrees(DecReference(old(f.Rest())), r, f.Rest())
  {
    var hash :- f.Read(32);
    var index :- f.Read(4);
    r := Ok(OutputReference(hash, FromU32(index)));
  }

  method ReadInput(f: ByteStream) returns (r: Result<Input>)
    requires f.Valid()
    modifies f`pos
    ensures f.Valid() && Agrees(DecInput(old(f.Rest())), r, f.Rest())
  {
    hide DecReference, DecSignature;
    var reference :- ReadReference(f);
    var signature :- ReadSignature(f);
    r := Ok(Input(reference, signature));
  }

  method ReadOutput(f: ByteStream) returns (r: Result<Output>)
    requires f.Valid()
    modifies f`pos
    ensures f.Valid() && Agrees(DecOutput(old(f.Rest())), r, f.Rest())
  {
    hide DecPublicKey;
    var value :- f.Read(8);
    var key :- ReadPublicKey(f);
    r := Ok(Output(FromU64(value), key));
  }

  method ReadSummary(f: ByteStream) returns (r: Result<BlockSummary>)
    requires f.Valid()
    modifies f`pos
    ensures f.Valid() && Agrees(DecSummary(old(f.Rest())), r, f.Rest())
  {
    hide DecVlq;
    var height :- f.DeserializeVlq();
    var previousHash :- f.Read(32);
    var merkleRoot :- f.Read(32);
    var timestamp :- f.Read(4);
    var target :- f.Read(32);
    var nonce :- f.Read(4);
    r := Ok(BlockSummary(height, previousHash, merkleRoot, FromU32(timestamp), target, FromU32(nonce)));
  }

  method ReadEvidence(f: ByteStream) returns (r: Result<PowEvidence>)
    requires f.Valid()
    modifies f`pos
    ensures f.Valid() && Agrees(DecEvidence(old(f.Rest())), r, f.Rest())
  {
    var summaryHash :- f.Read(32);
    var chainSample :- f.Read(32);
    var blockHash :- f.Read(32);
    r := Ok(PowEvidence(summaryHash, chainSample, blockHash));
  }

  method ReadHeader(f: ByteStream) returns (r: Result<BlockHeader>)
    requires f.Valid()
    modifies f`pos
    ensures f.Valid() && Agrees(DecHeader(old(f.Rest())), r, f.Rest())
  {
    hide DecSummary, DecEvidence;
    var version :- f.Read(1);
    if version != [0] {
      return Err(ValueError);
    }
    var summary :- ReadSummary(f);
    var evidence :- ReadEvidence(f);
    r := Ok(BlockHeader(summary, evidence));
  }

  /** The bytes of the header that a block starts with. */
  ghost function HeaderPart(bs: Bytes): Bytes {
    if DecHeader(bs).Ok? then bs[..|bs| - |DecHeader(bs).value.1|] else []
  }

  /** The cached hash is that of the header bytes as read, canonical or not. */
  method ReadBlock(f: ByteStream) returns (r: Result<(Block, Hash)>)
    requires f.Valid()
    modifies f`pos
    ensures f.Valid()
    ensures match DecBlock(old(f.Rest()))
            case Ok((b, rest)) => f.Rest() == rest && r == Ok((b, Sha256d(HeaderPart(old(f.Rest())))))
            case Err(e) => r == Err(e)
  {
    hide DecHeader, DecTransaction, DecList;
    ElementsSuffixing();
    var start := f.pos;
    ghost var before := f.Rest();
    var header :- ReadHeader(f);
    assert |f.Rest()| <= |before|;
    var hash := Sha256d(f.data[start..f.pos]);
    assert f.data[start..f.pos] == HeaderPart(before);
    var transactions :- f.DeserializeList(DecTransaction);
    r := Ok((Block(header, transactions), hash));
  }

  // ----- there and back

  /** What one stream wrote another reads back, and the hash remembered on the way is the block's own. */
  method BlockThereAndBack(b: Block, more: Bytes) returns (r: Result<(Block, Hash)>)
    ensures r == Ok((b, BlockHash(b)))
  {
    hide DecBlock, EncBlock, HeaderPart;
    var out := new ByteStream([]);
    WriteBlock(out, b);
    assert out.data == EncBlock(b);
    var f := new ByteStream(out.data + more);
    BlockReadsBack(b, more);
    assert f.Rest() == EncBlock(b) + more;
    r := ReadBlock(f);
  }

  lemma BlockReadsBack(b: Block, more: Bytes)
    ensures DecBlock(EncBlock(b) + more) == Ok((b, more))
    ensures HeaderPart(EncBlock(b) + more) == EncHeader(b.header)
  {
    hide DecBlock, EncBlock, HeaderPart;
    BlockCodec();
    HeaderReadsBack(b, more);
  }

  lemma HeaderReadsBack(b: Block, more: Bytes)
    ensures HeaderPart(EncBlock(b) + more) == EncHeader(b.header)
  {
    hide DecHeader, EncHeader, EncTransaction, EncList;
    var rest := EncList(EncTransaction, b.transactions) + more;
    HeaderBack(b.header, rest);
    assert EncBlock(b) + more == EncHeader(b.header) + rest;
  }
}

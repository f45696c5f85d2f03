/** Decoding undoes encoding for every entity, and decoders never change their mind when input is added. */
module Codecs {
  import opened Basics
  import opened Crypto
  import opened Serialization
  import opened Datatypes

  // ----- keys, signatures, references

  lemma PublicKeyStreams(p: Bytes, more: Bytes)
    ensures Extends(DecPublicKey(p), DecPublicKey(p + more), more)
  {
    SafeReadStreams(p, 1, more);
    if p != [] {
      SafeReadStreams(p[1..], 64, more);
    }
  }

  lemma PublicKeyBack(k: PublicKey, more: Bytes)
    ensures DecPublicKey(EncPublicKey(k) + more) == Ok((k, more))
  {
    assert EncPublicKey(k) + more == [2] + (k.key + more);
    SafeReadBack([2], k.key + more);
    SafeReadBack(k.key, more);
  }

  lemma CoinbaseDataStreams(p: Bytes, more: Bytes)
    ensures Extends(DecCoinbaseData(p), DecCoinbaseData(p + more), more)
  {
    SafeReadStreams(p, 4, more);
    if 4 <= |p| {
      var p1 := p[4..];
      SafeReadStreams(p1, 1, more);
      if p1 != [] {
        SafeReadStreams(p1[1..], p1[0], more);
      }
    }
  }

  lemma CoinbaseDataBack(height: u32, data: Payload, more: Bytes)
    ensures DecCoinbaseData(U32(height) + ([|data|] + data) + more) == Ok((CoinbaseData(height, data), more))
  {
    var length: Bytes := [|data|];
    assert U32(height) + (length + data) + more == U32(height) + (length + (data + more));
    SafeReadBack(U32(height), length + (data + more));
    SafeReadBack(length, data + more);
    SafeReadBack(data, more);
  }

  lemma TaggedCoinbaseDataBack(height: u32, data: Payload, more: Bytes)
    ensures DecSignature(EncSignature(CoinbaseData(height, data)) + more) == Ok((CoinbaseData(height, data), more))
  {
    var body := U32(height) + ([|data|] + data);
    assert EncSignature(CoinbaseData(height, data)) + more == [1] + (body + more);
    SafeReadBack([1], body + more);
    CoinbaseDataBack(height, data, more);
  }

  lemma SignatureStreams(p: Bytes, more: Bytes)
    ensures Extends(DecSignature(p), DecSignature(p + more), more)
  {
    SafeReadStreams(p, 1, more);
    if p != [] {
      CoinbaseDataStreams(p[1..], more);
      SafeReadStreams(p[1..], 64, more);
    }
  }

  lemma SignatureBack(s: Signature, more: Bytes)
    ensures DecSignature(EncSignature(s) + more) == Ok((s, more))
  {
    match s
    case SignableEquivalent =>
      SafeReadBack([0], more);
    case CoinbaseData(height, data) =>
      TaggedCoinbaseDataBack(height, data, more);
    case Secp256k1Signature(signature) =>
      assert EncSignature(s) + more == [2] + (signature + more);
      SafeReadBack([2], signature + more);
      SafeReadBack(signature, more);
  }

  lemma ReferenceStreams(p: Bytes, more: Bytes)
    ensures Extends(DecReference(p), DecReference(p + more), more)
  {
    SafeReadStreams(p, 32, more);
    if 32 <= |p| {
      SafeReadStreams(p[32..], 4, more);
    }
  }

  lemma ReferenceBack(r: OutputReference, more: Bytes)
    ensures DecReference(EncReference(r) + more) == Ok((r, more))
  {
    assert EncReference(r) + more == r.hash + (U32(r.index) + more);
    SafeReadBack(r.hash, U32(r.index) + more);
    SafeReadBack(U32(r.index), more);
  }

  // ----- inputs, outputs, transactions

  lemma InputCodec()
    ensures Inverts(DecInput, EncInput) && Streams(DecInput) && Suffixing(DecInput)
  {
    forall i: Input, more: Bytes ensures DecInput(EncInput(i) + more) == Ok((i, more)) {
      assert EncInput(i) + more == EncReference(i.reference) + (EncSignature(i.signature) + more);
      ReferenceBack(i.reference, EncSignature(i.signature) + more);
      SignatureBack(i.signature, more);
    }
    forall p: Bytes, more: Bytes ensures Extends(DecInput(p), DecInput(p + more), more) {
      ReferenceStreams(p, more);
      if DecReference(p).Ok? {
        SignatureStreams(DecReference(p).value.1, more);
      }
    }
  }

  lemma OutputCodec()
    ensures Inverts(DecOutput, EncOutput) && Streams(DecOutput) && Suffixing(DecOutput)
  {
    forall o: Output, more: Bytes ensures DecOutput(EncOutput(o) + more) == Ok((o, more)) {
      assert EncOutput(o) + more == U64(o.value) + (EncPublicKey(o.publicKey) + more);
      SafeReadBack(U64(o.value), EncPublicKey(o.publicKey) + more);
      PublicKeyBack(o.publicKey, more);
    }
    forall p: Bytes, more: Bytes ensures Extends(DecOutput(p), DecOutput(p + more), more) {
      SafeReadStreams(p, 8, more);
      if 8 <= |p| {
        PublicKeyStreams(p[8..], more);
      }
    }
  }

  lemma ListsBack(ins: seq<Input>, outs: seq<Output>, more: Bytes)
    ensures DecList(DecInput, EncList(EncInput, ins) + more) == Ok((ins, more))
    ensures DecList(DecOutput, EncList(EncOutput, outs) + more) == Ok((outs, more))
  {
    InputCodec();
    OutputCodec();
    ListRoundTrip(EncInput, DecInput, ins, more);
    ListRoundTrip(EncOutput, DecOutput, outs, more);
  }

  lemma ListsStream(p: Bytes, more: Bytes)
    ensures Extends(DecList(DecInput, p), DecList(DecInput, p + more), more)
    ensures Extends(DecList(DecOutput, p), DecList(DecOutput, p + more), more)
    ensures LeavesSuffix(DecList(DecInput, p), p) && LeavesSuffix(DecList(DecOutput, p), p)
  {
    InputCodec();
    OutputCodec();
    ListStreams(DecInput, p, more);
    ListStreams(DecOutput, p, more);
    ListSuffix(DecInput, p);
    ListSuffix(DecOutput, p);
  }

  lemma TransactionBack(t: Transaction, more: Bytes)
    ensures DecTransaction(EncTransaction(t) + more) == Ok((t, more))
  {
    var ins, outs := EncList(EncInput, t.inputs), EncList(EncOutput, t.outputs);
    assert EncTransaction(t) + more == [0] + (ins + (outs + more));
    SafeReadBack([0], ins + (outs + more));
    ListsBack(t.inputs, [], outs + more);
    ListsBack([], t.outputs, more);
  }

  lemma TransactionStreams(p: Bytes, more: Bytes)
    ensures Extends(DecTransaction(p), DecTransaction(p + more), more)
  {
    SafeReadStreams(p, 1, more);
    if p != [] {
      ListsStream(p[1..], more);
      var inputs := DecList(DecInput, p[1..]);
      if inputs.Ok? {
        ListsStream(inputs.value.1, more);
      }
    }
  }

  lemma TransactionSuffix(p: Bytes)
    ensures LeavesSuffix(DecTransaction(p), p)
  {
    hide DecList;
    if p != [] {
      ListsStream(p[1..], []);
      var inputs := DecList(DecInput, p[1..]);
      if inputs.Ok? {
        ListsStream(inputs.value.1, []);
      }
    }
  }

  lemma TransactionCodec()
    ensures Inverts(DecTransaction, EncTransaction) && Streams(DecTransaction) && Suffixing(DecTransaction)
  {
    forall t: Transaction, more: Bytes ensures DecTransaction(EncTransaction(t) + more) == Ok((t, more)) {
      TransactionBack(t, more);
    }
    forall p: Bytes, more: Bytes ensures Extends(DecTransaction(p), DecTransaction(p + more), more) {
      TransactionStreams(p, more);
    }
    forall p: Bytes | DecTransaction(p).Ok? ensures LeavesSuffix(DecTransaction(p), p) {
      TransactionSuffix(p);
    }
  }

  // ----- summaries, headers, blocks

  lemma SummaryBack(s: BlockSummary, more: Bytes)
    ensures DecSummary(EncSummary(s) + more) == Ok((s, more))
  {
    var r5 := U32(s.nonce) + more;
    var r4 := s.target + r5;
    var r3 := U32(s.timestamp) + r4;
    var r2 := s.merkleRoot + r3;
    var r1 := s.previousHash + r2;
    assert EncSummary(s) + more == EncVlq(s.height) + r1;
    VlqRoundTrip(s.height, r1);
    SafeReadBack(s.previousHash, r2);
    SafeReadBack(s.merkleRoot, r3);
    SafeReadBack(U32(s.timestamp), r4);
    SafeReadBack(s.target, r5);
    SafeReadBack(U32(s.nonce), more);
  }

  lemma SummaryStreams(p: Bytes, more: Bytes)
    ensures Extends(DecSummary(p), DecSummary(p + more), more)
  {
    VlqStreams(0, p, more);
    if DecVlq(p).Ok? {
      var r0 := DecVlq(p).value.1;
      SafeReadStreams(r0, 32, more);
      if 32 <= |r0| {
        var r1 := r0[32..];
        SafeReadStreams(r1, 32, more);
        if 32 <= |r1| {
          var r2 := r1[32..];
          SafeReadStreams(r2, 4, more);
          if 4 <= |r2| {
            var r3 := r2[4..];
            SafeReadStreams(r3, 32, more);
            if 32 <= |r3| {
              SafeReadStreams(r3[32..], 4, more);
            }
          }
        }
      }
    }
  }

  lemma EvidenceBack(e: PowEvidence, more: Bytes)
    ensures DecEvidence(EncEvidence(e) + more) == Ok((e, more))
  {
    var r2 := e.blockHash + more;
    var r1 := e.chainSample + r2;
    assert EncEvidence(e) + more == e.summaryHash + r1;
    SafeReadBack(e.summaryHash, r1);
    SafeReadBack(e.chainSample, r2);
    SafeReadBack(e.blockHash, more);
  }

  lemma EvidenceStreams(p: Bytes, more: Bytes)
    ensures Extends(DecEvidence(p), DecEvidence(p + more), more)
  {
    SafeReadStreams(p, 32, more);
    if 32 <= |p| {
      SafeReadStreams(p[32..], 32, more);
      if 32 <= |p[32..]| {
        SafeReadStreams(p[32..][32..], 32, more);
      }
    }
  }

  lemma HeaderBack(h: BlockHeader, more: Bytes)
    ensures DecHeader(EncHeader(h) + more) == Ok((h, more))
  {
    var r1 := EncEvidence(h.evidence) + more;
    assert EncHeader(h) + more == [0] + (EncSummary(h.summary) + r1);
    SafeReadBack([0], EncSummary(h.summary) + r1);
    SummaryBack(h.summary, r1);
    EvidenceBack(h.evidence, more);
  }

  lemma HeaderStreams(p: Bytes, more: Bytes)
    ensures Extends(DecHeader(p), DecHeader(p + more), more)
  {
    SafeReadStreams(p, 1, more);
    if p != [] {
      SummaryStreams(p[1..], more);
      if DecSummary(p[1..]).Ok? {
        EvidenceStreams(DecSummary(p[1..]).value.1, more);
      }
    }
  }

  lemma TransactionsCodec(ts: seq<Transaction>, p: Bytes, more: Bytes)
    ensures DecList(DecTransaction, EncList(EncTransaction, ts) + more) == Ok((ts, more))
    ensures Extends(DecList(DecTransaction, p), DecList(DecTransaction, p + more), more)
  {
    TransactionCodec();
    ListRoundTrip(EncTransaction, DecTransaction, ts, more);
    ListStreams(DecTransaction, p, more);
  }

  /** Decoding a block undoes encoding it and leaves exactly what follows; more input repairs only truncation. */
  lemma BlockCodec()
    ensures Inverts(DecBlock, EncBlock) && Streams(DecBlock)
  {
    forall b: Block, more: Bytes ensures DecBlock(EncBlock(b) + more) == Ok((b, more)) {
      var txs := EncList(EncTransaction, b.transactions);
      assert EncBlock(b) + more == EncHeader(b.header) + (txs + more);
      HeaderBack(b.header, txs + more);
      TransactionsCodec(b.transactions, [], more);
    }
    forall p: Bytes, more: Bytes ensures Extends(DecBlock(p), DecBlock(p + more), more) {
      HeaderStreams(p, more);
      if DecHeader(p).Ok? {
        TransactionsCodec([], DecHeader(p).value.1, more);
      }
    }
  }

  // ----- consequences

  lemma TransactionEncodingInjective(t: Transaction, u: Transaction)
    requires EncTransaction(t) == EncTransaction(u)
    ensures t == u
  {
    TransactionCodec();
    EncodingInjective(EncTransaction, DecTransaction, t, u);
  }

  lemma HeaderEncodingInjective(g: BlockHeader, h: BlockHeader)
    requires EncHeader(g) == EncHeader(h)
    ensures g == h
  {
    HeaderBack(g, []);
    HeaderBack(h, []);
  }

  lemma BlockEncodingInjective(a: Block, b: Block)
    requires EncBlock(a) == EncBlock(b)
    ensures a == b
  {
    BlockCodec();
    EncodingInjective(EncBlock, DecBlock, a, b);
  }

  /** A transaction or block cut short anywhere is refused, and refused as truncated. */
  lemma CutShortIsTruncated(t: Transaction, b: Block, n: nat)
    ensures n < |EncTransaction(t)| ==> DecTransaction(EncTransaction(t)[..n]) == Err(TruncationError)
    ensures n < |EncBlock(b)| ==> DecBlock(EncBlock(b)[..n]) == Err(TruncationError)
  {
    TransactionCodec();
    BlockCodec();
    if n < |EncTransaction(t)| {
      StrictPrefixTruncated(EncTransaction, DecTransaction, t, n);
    }
    if n < |EncBlock(b)| {
      StrictPrefixTruncated(EncBlock, DecBlock, b, n);
    }
  }

  // ----- sizes

  lemma {:induction false} EncAllSize<T>(enc: T -> Bytes, xs: seq<T>)
    requires forall x :: |enc(x)| > 0
    ensures |EncAll(enc, xs)| >= |xs|
  {
    if xs != [] {
      EncAllSize(enc, xs[1..]);
    }
  }

  lemma {:induction false} EncAllMember<T>(enc: T -> Bytes, xs: seq<T>, k: nat)
    requires k < |xs|
    ensures |enc(xs[k])| <= |EncAll(enc, xs)|
  {
    if k > 0 {
      EncAllMember(enc, xs[1..], k - 1);
    }
  }

  /** A transaction's encoding is longer than its list of outputs. */
  lemma OutputsFitEncoding(t: Transaction)
    ensures |t.outputs| < |EncTransaction(t)|
  {
    EncAllSize(EncOutput, t.outputs);
  }

  lemma TransactionFitsBlock(b: Block, k: nat)
    requires k < |b.transactions|
    ensures |EncTransaction(b.transactions[k])| <= |EncBlock(b)|
  {
    EncAllMember(EncTransaction, b.transactions, k);
  }

  // ----- the stream methods that remember a hash of the bytes they consumed

  lemma ElementsSuffixing()
    ensures Suffixing(DecInput) && Suffixing(DecOutput) && Suffixing(DecTransaction)
  {
    InputCodec();
    OutputCodec();
    TransactionCodec();
  }

  /** `Transaction.stream_deserialize`: the cached hash is that of the bytes read, canonical or not. */
  method DeserializeTransaction(f: ByteStream) returns (r: Result<(Transaction, Hash)>)
    requires f.Valid()
    modifies f`pos
    ensures f.Valid()
    ensures match DecTransaction(old(f.Rest()))
            case Ok((t, rest)) =>
              f.pos >= old(f.pos) && f.Rest() == rest && r == Ok((t, Sha256d(f.data[old(f.pos)..f.pos])))
            case Err(e) => r == Err(e)
  {
    ElementsSuffixing();
    var start := f.pos;
    ghost var before := f.Rest();
    TransactionSuffix(before);
    var version :- f.Read(1);
    assert before == version + f.Rest();
    if version != [0] {
      return Err(ValueError);
    }
    var inputs :- f.DeserializeList(DecInput);
    var outputs :- f.DeserializeList(DecOutput);
    assert |f.Rest()| <= |before|;
    return Ok((Transaction(inputs, outputs), Sha256d(f.data[start..f.pos])));
  }

  /** For bytes this program wrote, the cached hash is the transaction's hash. */
  method DeserializeOwnTransaction(t: Transaction, more: Bytes) returns (r: Result<(Transaction, Hash)>)
    ensures r == Ok((t, TransactionHash(t)))
  {
    var f := new ByteStream(EncTransaction(t) + more);
    TransactionBack(t, more);
    r := DeserializeTransaction(f);
    assert f.data[..f.pos] + f.Rest() == f.data;
    assert f.data[..f.pos] == EncTransaction(t);
  }
}

/** Which accepted byte strings are the encoder's own, and what the hash cached while reading is worth. */
module Canonical {
  import opened Basics
  import opened Crypto
  import opened Serialization
  import opened Datatypes
  import opened Codecs
  import opened Consensus
  import opened Merkle

  // ----- variable-length quantities

  ghost function OctetsRead(bs: Bytes): nat
    requires DecVlq(bs).Ok?
  {
    |bs| - |DecVlq(bs).value.1|
  }

  /** Whatever the decoder accepts is a row of digits: only their number is open. */
  lemma {:induction false} AcceptedOctets(high: nat, m: nat, bs: Bytes)
    requires DecVlqFrom(high * 128, bs).Ok?
    ensures var (n, rest) := DecVlqFrom(high * 128, bs).value;
            var k := |bs| - |rest|;
            && |rest| < |bs| && bs[k..] == rest
            && FlaggedOctets(high, m) + bs[..k] == FlaggedOctets(n / 128, m + k - 1) + [n % 128]
    decreases |bs|
  {
    hide FlaggedOctets;
    var higher := high * 128 + bs[0] % 128;
    if bs[0] >= 128 {
      AcceptedOctets(higher, m + 1, bs[1..]);
      var k := |bs| - |DecVlqFrom(high * 128, bs).value.1|;
      assert bs[..k] == [bs[0]] + bs[1..][..k - 1];
      FlaggedNext(high, m, bs[0]);
      assert FlaggedOctets(high, m) + bs[..k] == (FlaggedOctets(high, m) + [bs[0]]) + bs[1..][..k - 1];
    } else {
      assert bs[..1] == [bs[0]];
    }
  }

  lemma FlaggedNext(high: nat, m: nat, b: byte)
    requires b >= 128
    ensures FlaggedOctets(high * 128 + b % 128, m + 1) == FlaggedOctets(high, m) + [b]
  {
    assert (high * 128 + b % 128) / 128 == high && (high * 128 + b % 128) % 128 + 128 == b;
  }

  /** The octets read are the encoder's own exactly when there are as many as the encoder would write. */
  lemma OwnOctetsExactly(bs: Bytes)
    requires DecVlq(bs).Ok?
    ensures var n := DecVlq(bs).value.0;
            && OctetsRead(bs) <= |bs|
            && (bs[..OctetsRead(bs)] == EncVlq(n) <==> OctetsRead(bs) == NeededBytes(n))
  {
    hide FlaggedOctets, NeededBytes;
    AcceptedOctets(0, 0, bs);
    NoOctets();
    var k := OctetsRead(bs);
    assert [] + bs[..k] == bs[..k];
  }

  lemma NoOctets()
    ensures FlaggedOctets(0, 0) == []
  {
  }

  // ----- decoders that accept nothing but encodings

  ghost predicate Exact<T(!new)>(dec: Bytes -> Decoded<T>, enc: T -> Bytes) {
    forall bs: Bytes | dec(bs).Ok? :: bs == enc(dec(bs).value.0) + dec(bs).value.1
  }

  lemma U32Exact(bs: Bytes)
    requires |bs| == 4
    ensures U32(FromU32(bs)) == bs
  {
    FromBigEndianRoundTrip(bs);
  }

  lemma U64Exact(bs: Bytes)
    requires |bs| == 8
    ensures U64(FromU64(bs)) == bs
  {
    FromBigEndianRoundTrip(bs);
  }

  lemma PublicKeyExact(bs: Bytes)
    requires DecPublicKey(bs).Ok?
    ensures bs == EncPublicKey(DecPublicKey(bs).value.0) + DecPublicKey(bs).value.1
  {
  }

  lemma CoinbaseDataExact(bs: Bytes)
    requires DecCoinbaseData(bs).Ok?
    ensures [1] + bs == EncSignature(DecCoinbaseData(bs).value.0) + DecCoinbaseData(bs).value.1
  {
    hide FromBigEndian;
    U32Exact(bs[..4]);
    var length, data := bs[4], bs[5..][..bs[4]];
    assert bs[4..][..1] == [length] && bs[4..][1..] == bs[5..];
    assert bs == bs[..4] + ([length] + (data + bs[5..][length..]));
  }

  lemma SignatureExact(bs: Bytes)
    requires DecSignature(bs).Ok?
    ensures bs == EncSignature(DecSignature(bs).value.0) + DecSignature(bs).value.1
  {
    hide DecCoinbaseData;
    assert bs == bs[..1] + bs[1..];
    if bs[..1] == [1] {
      CoinbaseDataExact(bs[1..]);
    }
  }

  lemma ReferenceExact(bs: Bytes)
    requires DecReference(bs).Ok?
    ensures bs == EncReference(DecReference(bs).value.0) + DecReference(bs).value.1
  {
    U32Exact(bs[32..][..4]);
    assert bs == bs[..32] + (bs[32..][..4] + bs[32..][4..]);
  }

  lemma InputExact()
    ensures Exact(DecInput, EncInput)
  {
    hide DecReference, DecSignature, EncReference, EncSignature;
    forall bs: Bytes | DecInput(bs).Ok? ensures bs == EncInput(DecInput(bs).value.0) + DecInput(bs).value.1 {
      ReferenceExact(bs);
      SignatureExact(DecReference(bs).value.1);
    }
  }

  lemma OutputExact()
    ensures Exact(DecOutput, EncOutput)
  {
    hide DecPublicKey, EncPublicKey;
    forall bs: Bytes | DecOutput(bs).Ok? ensures bs == EncOutput(DecOutput(bs).value.0) + DecOutput(bs).value.1 {
      U64Exact(bs[..8]);
      PublicKeyExact(bs[8..]);
    }
  }

  lemma {:induction false} AllExact<T(!new)>(enc: T -> Bytes, dec: Bytes -> Decoded<T>, n: nat, bs: Bytes)
    requires Exact(dec, enc) && DecAll(dec, n, bs).Ok?
    ensures bs == EncAll(enc, DecAll(dec, n, bs).value.0) + DecAll(dec, n, bs).value.1
  {
    if n > 0 {
      var (x, rest) := dec(bs).value;
      AllExact(enc, dec, n - 1, rest);
      var (xs, rest') := DecAll(dec, n - 1, rest).value;
      assert ([x] + xs)[1..] == xs;
    }
  }

  /** The number of the elements is written as the encoder would write it. */
  ghost predicate OwnLength(bs: Bytes, n: nat) {
    DecVlq(bs).Ok? && OctetsRead(bs) == NeededBytes(n)
  }

  /** What a list decoder read is the encoder's own exactly when its length prefix is. */
  lemma OwnListExactly<T(!new)>(enc: T -> Bytes, dec: Bytes -> Decoded<T>, bs: Bytes)
    requires Exact(dec, enc) && DecList(dec, bs).Ok?
    ensures var (xs, rest) := DecList(dec, bs).value;
            bs == EncList(enc, xs) + rest <==> OwnLength(bs, |xs|)
  {
    hide DecAll, EncAll, NeededBytes;
    var (n, after) := DecVlq(bs).value;
    var (xs, rest) := DecList(dec, bs).value;
    OwnOctetsExactly(bs);
    AllExact(enc, dec, n, after);
    assert bs == bs[..OctetsRead(bs)] + after;
    assert EncList(enc, xs) + rest == EncVlq(|xs|) + after;
    if bs == EncVlq(|xs|) + after {
      assert bs[..|EncVlq(|xs|)|] == EncVlq(|xs|);
    }
  }

  // ----- transactions

  /** Both lists of the transaction read from `bs` have their own length prefixes. */
  ghost predicate OwnPrefixes(bs: Bytes)
    requires DecTransaction(bs).Ok?
  {
    var t := DecTransaction(bs).value.0;
    && OwnLength(bs[1..], |t.inputs|)
    && OwnLength(DecList(DecInput, bs[1..]).value.1, |t.outputs|)
  }

  /** The bytes of the transaction that `bs` starts with. */
  ghost function BytesRead(bs: Bytes): Bytes
    requires DecTransaction(bs).Ok?
  {
    TransactionSuffix(bs);
    bs[..|bs| - |DecTransaction(bs).value.1|]
  }

  /** Among all byte strings that are read as some transaction, the encoder's own are exactly those whose two length
      prefixes have as many octets as the encoder would write. */
  lemma OwnBytesExactly(bs: Bytes)
    requires DecTransaction(bs).Ok?
    ensures BytesRead(bs) == EncTransaction(DecTransaction(bs).value.0) <==> OwnPrefixes(bs)
  {
    hide DecList, EncList, OwnLength;
    var (t, rest) := DecTransaction(bs).value;
    TransactionSuffix(bs);
    InputExact();
    OutputExact();
    var p, q := bs[1..], DecList(DecInput, bs[1..]).value.1;
    assert bs == [0] + p && bs == BytesRead(bs) + rest;
    OwnListExactly(EncInput, DecInput, p);
    OwnListExactly(EncOutput, DecOutput, q);
    if OwnPrefixes(bs) {
      assert bs == EncTransaction(t) + rest;
    }
    if BytesRead(bs) == EncTransaction(t) {
      OwnIsPrefixed(t, rest, p);
    }
  }

  lemma OwnIsPrefixed(t: Transaction, rest: Bytes, p: Bytes)
    requires [0] + p == EncTransaction(t) + rest
    ensures p == EncList(EncInput, t.inputs) + (EncList(EncOutput, t.outputs) + rest)
    ensures DecList(DecInput, p) == Ok((t.inputs, EncList(EncOutput, t.outputs) + rest))
  {
    hide DecList, EncList;
    var ins, outs := EncList(EncInput, t.inputs), EncList(EncOutput, t.outputs);
    assert EncTransaction(t) + rest == [0] + (ins + (outs + rest));
    assert p == ([0] + p)[1..];
    InputCodec();
    ListRoundTrip(EncInput, DecInput, t.inputs, outs + rest);
  }

  /** The hash cached while reading is the transaction's own exactly when the bytes read are, unless the two strings
      collide. */
  lemma CachedHashExactly(bs: Bytes)
    requires DecTransaction(bs).Ok?
    requires CollisionFree({BytesRead(bs), EncTransaction(DecTransaction(bs).value.0)})
    ensures Sha256d(BytesRead(bs)) == TransactionHash(DecTransaction(bs).value.0) <==> OwnPrefixes(bs)
  {
    hide EncTransaction, DecTransaction, OwnPrefixes, BytesRead;
    OwnBytesExactly(bs);
  }

  /** Another spelling of every transaction: each length prefix with an octet without bits in front. */
  function Padded(t: Transaction): Bytes {
    [0] + (([128] + EncList(EncInput, t.inputs)) + ([128] + EncList(EncOutput, t.outputs)))
  }

  lemma PaddedList<T(!new)>(dec: Bytes -> Decoded<T>, bs: Bytes)
    ensures DecList(dec, [128] + bs) == DecList(dec, bs)
  {
    hide DecAll;
    assert ([128] + bs)[1..] == bs;
    assert DecVlqFrom(0, [128] + bs) == DecVlqFrom(0, bs);
  }

  /** It is read as the same transaction, and is not what the encoder writes. */
  lemma PaddedIsRead(t: Transaction, more: Bytes)
    ensures DecTransaction(Padded(t) + more) == Ok((t, more))
    ensures Padded(t) != EncTransaction(t)
  {
    hide DecList, EncList;
    var ins, outs := EncList(EncInput, t.inputs), EncList(EncOutput, t.outputs);
    assert Padded(t) + more == [0] + ([128] + (ins + ([128] + (outs + more))));
    SafeReadBack([0], [128] + (ins + ([128] + (outs + more))));
    InputCodec();
    OutputCodec();
    PaddedList(DecInput, ins + ([128] + (outs + more)));
    ListRoundTrip(EncInput, DecInput, t.inputs, [128] + (outs + more));
    PaddedList(DecOutput, outs + more);
    ListRoundTrip(EncOutput, DecOutput, t.outputs, more);
    assert |Padded(t)| == |EncTransaction(t)| + 2;
  }

  // ----- what a foreign cached hash does to a Merkle root

  /** A block whose Merkle root was computed from cached hashes that are not all the transactions' own is refused by
      whoever hashes the transactions again, or here are two strings that collide. */
  lemma ForeignHashesRefused(b: Block, cached: seq<Hash>, now: int) returns (x: Bytes, y: Bytes)
    requires |cached| == |b.transactions| > 0 && cached != TransactionHashes(b.transactions)
    requires b.header.summary.merkleRoot == MerkleRoot(cached)
    ensures BlockByItself(b, now).Ok? ==> x != y && Sha256d(x) == Sha256d(y)
  {
    hide HeaderByItself, EncBlock, AllByThemselves, References, MerkleRoot, TransactionHash;
    x, y := [], [];
    if MerkleRoot(cached) == CalcMerkleRootHash(b.transactions) {
      x, y := MerkleBinding(cached, TransactionHashes(b.transactions));
    }
  }

  // ----- headers

  lemma EvidenceExact(bs: Bytes)
    requires DecEvidence(bs).Ok?
    ensures bs == EncEvidence(DecEvidence(bs).value.0) + DecEvidence(bs).value.1
  {
    assert bs == bs[..32] + (bs[32..][..32] + (bs[32..][32..][..32] + bs[32..][32..][32..]));
  }

  /** All of a summary but its height. */
  function SummaryTail(s: BlockSummary): Bytes {
    s.previousHash + (s.merkleRoot + (U32(s.timestamp) + (s.target + U32(s.nonce))))
  }

  lemma SummaryExact(bs: Bytes)
    requires DecSummary(bs).Ok?
    ensures DecVlq(bs).Ok? && DecVlq(bs).value.0 == DecSummary(bs).value.0.height
    ensures DecVlq(bs).value.1 == SummaryTail(DecSummary(bs).value.0) + DecSummary(bs).value.1
  {
    hide FromBigEndian, DecVlq;
    var r0 := DecVlq(bs).value.1;
    var r2 := r0[32..][32..];
    var r4 := r2[4..][32..];
    U32Exact(r2[..4]);
    U32Exact(r4[..4]);
    assert r0 == r0[..32] + (r0[32..][..32] + (r2[..4] + (r2[4..][..32] + (r4[..4] + r4[4..]))));
  }

  /** The header read is the encoder's own exactly when its height is written as the encoder would. */
  lemma OwnHeaderExactly(bs: Bytes)
    requires DecHeader(bs).Ok?
    ensures var (h, rest) := DecHeader(bs).value;
            bs == EncHeader(h) + rest <==> OwnLength(bs[1..], h.summary.height)
  {
    hide DecSummary, DecEvidence, EncEvidence, NeededBytes, EncVlq, DecVlq;
    var (h, rest) := DecHeader(bs).value;
    var p := bs[1..];
    assert bs == [0] + p;
    SummaryExact(p);
    EvidenceExact(DecSummary(p).value.1);
    OwnOctetsExactly(p);
    var tail := SummaryTail(h.summary) + (EncEvidence(h.evidence) + rest);
    assert DecVlq(p).value.1 == tail;
    assert EncHeader(h) + rest == [0] + (EncVlq(h.summary.height) + tail);
    PrefixEqual(p, EncVlq(h.summary.height), tail);
  }

  lemma PrefixEqual(p: Bytes, own: Bytes, tail: Bytes)
    requires DecVlq(p).Ok? && DecVlq(p).value.1 == tail
    ensures p == own + tail <==> p[..OctetsRead(p)] == own
    ensures [0] + p == [0] + (own + tail) <==> p == own + tail
  {
    hide DecVlqFrom;
    assert p == p[..OctetsRead(p)] + tail;
    if p == own + tail {
      assert |own| == OctetsRead(p);
    }
    assert ([0] + p)[1..] == p && ([0] + (own + tail))[1..] == own + tail;
  }
}

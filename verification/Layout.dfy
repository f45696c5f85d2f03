/** Where everything is in the bytes: offsets, widths, tags and byte order, which the round trips alone leave open. */
module Layout {
  import opened Basics
  import opened Serialization
  import opened Datatypes
  import opened Framing

  // ----- variable-length quantities

  /** The number that octets spell in base 128, most significant first, their top bits aside. */
  ghost function Base128(bs: Bytes): nat {
    if bs == [] then 0 else Base128(bs[..|bs| - 1]) * 128 + bs[|bs| - 1] % 128
  }

  lemma {:induction false} FlaggedDigits(i: nat, n: nat)
    requires FitsOctets(i, n)
    ensures Base128(FlaggedOctets(i, n)) == i && forall j | 0 <= j < n :: FlaggedOctets(i, n)[j] >= 128
    decreases n
  {
    if n > 0 {
      FlaggedDigits(i / 128, n - 1);
      assert FlaggedOctets(i, n)[..n - 1] == FlaggedOctets(i / 128, n - 1);
    }
  }

  lemma {:induction false} BitsExactly(i: nat)
    ensures i < Pow2(BitLength(i)) && (BitLength(i) > 0 ==> i >= Pow2(BitLength(i) - 1))
  {
    if i > 0 {
      BitsExactly(i / 2);
    }
  }

  /** The octets spell the number; all but the last have their top bit set. There are as many as it takes to leave the
      first bit of the digits free. */
  lemma VlqLayout(i: nat)
    ensures var bs := EncVlq(i);
            && Base128(bs) == i && |bs| > 0 && bs[|bs| - 1] < 128
            && (forall j | 0 <= j < |bs| - 1 :: bs[j] >= 128)
            && i < Pow2(7 * |bs| - 1) && (|bs| > 1 ==> i >= Pow2(7 * (|bs| - 1) - 1))
  {
    hide BitLength, Pow2;
    DigitsLayout(i);
    BitsExactly(i);
    var n := NeededBytes(i);
    PowerGrows(BitLength(i), 7 * n - 1);
    if n > 1 {
      PowerGrows(7 * (n - 1) - 1, BitLength(i) - 1);
    }
  }

  lemma DigitsLayout(i: nat)
    ensures var bs := EncVlq(i);
            && Base128(bs) == i && bs[|bs| - 1] < 128 && forall j | 0 <= j < |bs| - 1 :: bs[j] >= 128
  {
    hide NeededBytes, FlaggedOctets;
    var n := NeededBytes(i);
    Suffices(i);
    FlaggedDigits(i / 128, n - 1);
    assert EncVlq(i)[..n - 1] == FlaggedOctets(i / 128, n - 1);
  }

  lemma Suffices(i: nat)
    ensures NeededBytes(i) > 0 && FitsOctets(i / 128, NeededBytes(i) - 1)
  {
    NeededBytesSuffice(i);
  }

  lemma {:induction false} PowerGrows(a: nat, b: nat)
    requires a <= b
    ensures Pow2(a) <= Pow2(b)
    decreases b
  {
    if a < b {
      PowerGrows(a, b - 1);
    }
  }

  // ----- lists

  /** The number of elements, then nothing but the elements. */
  lemma ListLayout<T>(enc: T -> Bytes, xs: seq<T>)
    ensures var n := |EncVlq(|xs|)|;
            && n <= |EncList(enc, xs)| && EncList(enc, xs)[..n] == EncVlq(|xs|)
            && EncList(enc, xs)[n..] == EncAll(enc, xs)
  {
  }

  /** Elements follow one another. */
  lemma {:induction false} ElementsLayout<T>(enc: T -> Bytes, xs: seq<T>, ys: seq<T>)
    ensures EncAll(enc, []) == [] && (|xs| == 1 ==> EncAll(enc, xs) == enc(xs[0]))
    ensures EncAll(enc, xs + ys) == EncAll(enc, xs) + EncAll(enc, ys)
    decreases |xs|
  {
    if xs == [] {
      assert xs + ys == ys;
    } else {
      ElementsLayout(enc, xs[1..], ys);
      assert (xs + ys)[1..] == xs[1..] + ys;
    }
  }

  // ----- keys, signatures and transactions

  lemma PublicKeyLayout(k: PublicKey)
    ensures var bs := EncPublicKey(k); |bs| == 65 && bs[0] == 2 && bs[1..] == k.key
  {
  }

  lemma SignatureLayout(s: Signature)
    ensures var bs := EncSignature(s);
            match s
            case SignableEquivalent => bs == [0]
            case CoinbaseData(height, data) =>
              && |bs| == 6 + |data| && bs[0] == 1 && FromBigEndian(bs[1..5]) == height
              && bs[5] == |data| && bs[6..] == data
            case Secp256k1Signature(signature) => |bs| == 65 && bs[0] == 2 && bs[1..] == signature
  {
    if s.CoinbaseData? {
      assert EncSignature(s)[1..5] == U32(s.height);
    }
  }

  lemma ReferenceLayout(r: OutputReference)
    ensures var bs := EncReference(r); |bs| == 36 && bs[..32] == r.hash && FromBigEndian(bs[32..]) == r.index
  {
    assert EncReference(r)[32..] == U32(r.index);
  }

  lemma InputLayout(i: Input)
    ensures var bs := EncInput(i);
            |bs| >= 36 && bs[..36] == EncReference(i.reference) && bs[36..] == EncSignature(i.signature)
  {
    hide EncReference, EncSignature;
    ReferenceLayout(i.reference);
  }

  lemma OutputLayout(o: Output)
    ensures var bs := EncOutput(o);
            |bs| == 73 && FromBigEndian(bs[..8]) == o.value && bs[8..] == EncPublicKey(o.publicKey)
  {
    assert EncOutput(o)[..8] == U64(o.value);
  }

  /** A version byte, the inputs, the outputs. */
  lemma TransactionLayout(t: Transaction)
    ensures var bs, n := EncTransaction(t), 1 + |EncList(EncInput, t.inputs)|;
            && n <= |bs| && bs[0] == 0 && bs[1..n] == EncList(EncInput, t.inputs)
            && bs[n..] == EncList(EncOutput, t.outputs)
  {
    hide EncList;
  }

  // ----- blocks

  /** The height; then the parent, the root, the time, the target and the nonce at fixed distances behind it. */
  lemma SummaryLayout(s: BlockSummary)
    ensures var bs, n := EncSummary(s), |EncVlq(s.height)|;
            && |bs| == n + 104 && bs[..n] == EncVlq(s.height)
            && bs[n..n + 32] == s.previousHash && bs[n + 32..n + 64] == s.merkleRoot
            && FromBigEndian(bs[n + 64..n + 68]) == s.timestamp
            && bs[n + 68..n + 100] == s.target && FromBigEndian(bs[n + 100..]) == s.nonce
  {
    hide EncVlq;
    var bs, n := EncSummary(s), |EncVlq(s.height)|;
    assert bs[n + 64..n + 68] == U32(s.timestamp) && bs[n + 100..] == U32(s.nonce);
  }

  lemma EvidenceLayout(e: PowEvidence)
    ensures var bs := EncEvidence(e);
            |bs| == 96 && bs[..32] == e.summaryHash && bs[32..64] == e.chainSample && bs[64..] == e.blockHash
  {
  }

  lemma HeaderLayout(h: BlockHeader)
    ensures var bs, n := EncHeader(h), 1 + |EncSummary(h.summary)|;
            |bs| == n + 96 && bs[0] == 0 && bs[1..n] == EncSummary(h.summary) && bs[n..] == EncEvidence(h.evidence)
  {
    hide EncSummary, EncEvidence;
    EvidenceLayout(h.evidence);
  }

  lemma BlockLayout(b: Block)
    ensures var bs, n := EncBlock(b), |EncHeader(b.header)|;
            n <= |bs| && bs[..n] == EncHeader(b.header) && bs[n..] == EncList(EncTransaction, b.transactions)
  {
    hide EncHeader, EncList;
  }

  // ----- what is refused

  /** A tag that stands for nothing and a version other than the first raise, whatever follows. */
  lemma OthersRefused(tag: byte, rest: Bytes)
    ensures tag > 2 ==> DecSignature([tag] + rest) == Err(DeserializationError)
    ensures tag != 2 ==> DecPublicKey([tag] + rest) == Err(DeserializationError)
    ensures tag != 0 ==> DecTransaction([tag] + rest) == Err(ValueError) && DecHeader([tag] + rest) == Err(ValueError)
  {
    hide DecCoinbaseData, DecSummary, DecEvidence;
    SafeReadBack([tag], rest);
  }

  // ----- frames

  /** The four letters MAJI, the length of the payload, the payload. */
  lemma FrameLayout(payload: Sendable)
    ensures var bs := Frame(payload);
            && |bs| == 8 + |payload| && bs[..4] == [77, 65, 74, 73]
            && FromBigEndian(bs[4..8]) == |payload| && bs[8..] == payload
  {
    assert Frame(payload)[4..8] == U32(|payload|);
  }

  /** A frame at the beginning of a stream: more than 32 MiB ends the connection, whatever follows; otherwise the
      payload is handed over, and if it is accepted the rest is read next. */
  lemma FrameExactly(accepts: Bytes -> bool, payload: Sendable, rest: Bytes)
    ensures var p, later := Parse(accepts, Frame(payload) + rest), Parse(accepts, rest);
            if |payload| > 33_554_432 then p == Parsed([], true, [])
            else if !accepts(payload) then p == Parsed([payload], true, [])
            else p == Parsed([payload] + later.delivered, later.failed, later.rest)
  {
    hide FromBigEndian;
    var s, n := Frame(payload) + rest, 8 + |payload|;
    FrameLayout(payload);
    assert s[..4] == Frame(payload)[..4] && s[4..8] == Frame(payload)[4..8];
    assert s[8..n] == payload && s[n..] == rest;
  }

  /** Four bytes other than the letters end it too, and fewer than four wait. */
  lemma NoFrameExactly(accepts: Bytes -> bool, s: Bytes)
    ensures |s| < 4 ==> Parse(accepts, s) == Parsed([], false, s)
    ensures |s| >= 4 && s[..4] != [77, 65, 74, 73] ==> Parse(accepts, s) == Parsed([], true, [])
    ensures 4 <= |s| < 8 && s[..4] == [77, 65, 74, 73] ==> Parse(accepts, s) == Parsed([], false, s)
  {
  }
}

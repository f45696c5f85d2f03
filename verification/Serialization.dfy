/** The binary grammar: a cursor over bytes, variable-length quantities and length-prefixed lists.
    Decoders are functions from the bytes not read yet to a value and the bytes left after it. */
module Serialization {
  import opened Basics

  type Decoded<T> = Result<(T, Bytes)>

  // ----- properties of decoders

  /** `later` is what `earlier` becomes when the input turns out to go on with `more`. */
  ghost predicate Extends<T>(earlier: Decoded<T>, later: Decoded<T>, more: Bytes) {
    match earlier
    case Ok((v, rest)) => later == Ok((v, rest + more))
    case Err(e) => e == TruncationError || later == Err(e)
  }

  /** A decoder that never changes its mind: only a truncation can be repaired by more input. */
  ghost predicate Streams<T(!new)>(dec: Bytes -> Decoded<T>) {
    forall p: Bytes, more: Bytes :: Extends(dec(p), dec(p + more), more)
  }

  ghost predicate Inverts<T(!new)>(dec: Bytes -> Decoded<T>, enc: T -> Bytes) {
    forall x: T, more: Bytes :: dec(enc(x) + more) == Ok((x, more))
  }

  /** What a decoder returns is a suffix of what it was given. */
  ghost predicate Suffixing<T(!new)>(dec: Bytes -> Decoded<T>) {
    forall p: Bytes | dec(p).Ok? :: LeavesSuffix(dec(p), p)
  }

  ghost predicate LeavesSuffix<T(!new)>(d: Decoded<T>, p: Bytes) {
    d.Ok? ==> |d.value.1| <= |p| && d.value.1 == p[|p| - |d.value.1|..]
  }

  /** An encoder with a left inverse that streams is injective. */
  lemma EncodingInjective<T(!new)>(enc: T -> Bytes, dec: Bytes -> Decoded<T>, x: T, y: T)
    requires Inverts(dec, enc)
    requires enc(x) == enc(y)
    ensures x == y
  {
    assert dec(enc(x) + []) == Ok((x, []));
    assert dec(enc(y) + []) == Ok((y, []));
  }

  /** Every strict prefix of an encoding is rejected, and rejected as truncated. */
  lemma StrictPrefixTruncated<T(!new)>(enc: T -> Bytes, dec: Bytes -> Decoded<T>, x: T, n: nat)
    requires Inverts(dec, enc) && Streams(dec)
    requires n < |enc(x)|
    ensures dec(enc(x)[..n]) == Err(TruncationError)
  {
    var p, more := enc(x)[..n], enc(x)[n..];
    assert p + more == enc(x) == enc(x) + [];
    assert Extends(dec(p), dec(p + more), more);
    assert dec(enc(x) + []) == Ok((x, []));
  }

  // ----- safe_read

  function SafeRead(bs: Bytes, n: nat): (d: Decoded<Bytes>)
    ensures d.Ok? <==> n <= |bs|
    ensures d.Ok? ==> |d.value.0| == n && d.value.0 + d.value.1 == bs
    ensures LeavesSuffix(d, bs)
  {
    if |bs| < n then Err(TruncationError) else Ok((bs[..n], bs[n..]))
  }

  lemma SafeReadStreams(bs: Bytes, n: nat, more: Bytes)
    ensures Extends(SafeRead(bs, n), SafeRead(bs + more, n), more)
  {
    if n <= |bs| {
      assert (bs + more)[..n] == bs[..n] && (bs + more)[n..] == bs[n..] + more;
    }
  }

  lemma SafeReadBack(x: Bytes, more: Bytes)
    ensures SafeRead(x + more, |x|) == Ok((x, more))
  {
    assert (x + more)[..|x|] == x && (x + more)[|x|..] == more;
  }

  // ----- variable-length quantities

  /** Python's `int.bit_length`. */
  function BitLength(i: nat): nat {
    if i == 0 then 0 else 1 + BitLength(i / 2)
  }

  function NeededBytes(i: nat): nat {
    BitLength(i) / 7 + 1
  }

  /** The low `n` base-128 digits of `i`, most significant first, each flagged as "more follows". */
  function FlaggedOctets(i: nat, n: nat): (bs: Bytes)
    ensures |bs| == n
  {
    if n == 0 then [] else FlaggedOctets(i / 128, n - 1) + [i % 128 + 128]
  }

  function EncVlq(i: nat): (bs: Bytes)
    ensures |bs| == NeededBytes(i)
  {
    FlaggedOctets(i / 128, NeededBytes(i) - 1) + [i % 128]
  }

  function DecVlqFrom(result: nat, bs: Bytes): Decoded<nat>
    decreases |bs|
  {
    if bs == [] then Err(TruncationError)
    else
      var r := result + bs[0] % 128;
      if bs[0] < 128 then Ok((r, bs[1..])) else DecVlqFrom(r * 128, bs[1..])
  }

  function DecVlq(bs: Bytes): (d: Decoded<nat>)
    ensures LeavesSuffix(d, bs)
  {
    DecVlqSuffix(0, bs);
    DecVlqFrom(0, bs)
  }

  lemma {:induction false} DecVlqSuffix(result: nat, bs: Bytes)
    ensures LeavesSuffix(DecVlqFrom(result, bs), bs)
    decreases |bs|
  {
    if bs != [] && bs[0] >= 128 {
      DecVlqSuffix((result + bs[0] % 128) * 128, bs[1..]);
    }
  }

  /** `i` has at most `n` base-128 digits. */
  predicate FitsOctets(i: nat, n: nat) {
    if n == 0 then i == 0 else FitsOctets(i / 128, n - 1)
  }

  lemma BitLengthHalves(i: nat)
    requires i >= 1
    ensures BitLength(i) == 1 + BitLength(i / 2)
  {
  }

  lemma BitLengthShift(i: nat)
    ensures i >= 64 ==> BitLength(i) == 7 + BitLength(i / 128)
    ensures i < 64 ==> BitLength(i) < 7
  {
    if i >= 8 {
      BitLengthEighth(i);
      var j := i / 8;
      if j >= 8 {
        BitLengthEighth(j);
        BitLengthHalves(j / 8);
        assert j / 8 == i / 64 && j / 8 / 2 == i / 128;
      } else {
        BitLengthSmall(j);
      }
    } else {
      BitLengthSmall(i);
    }
  }

  lemma BitLengthEighth(i: nat)
    requires i >= 8
    ensures BitLength(i) == 3 + BitLength(i / 8)
  {
    BitLengthHalves(i);
    BitLengthHalves(i / 2);
    BitLengthHalves(i / 2 / 2);
    assert i / 2 / 2 / 2 == i / 8;
  }

  lemma BitLengthSmall(i: nat)
    requires i < 8
    ensures BitLength(i) <= 3
  {
    assert BitLength(i / 2 / 2) <= 1;
  }

  lemma {:induction false} NeededBytesSuffice(i: nat)
    ensures FitsOctets(i, NeededBytes(i))
  {
    BitLengthShift(i);
    if i >= 64 {
      NeededBytesSuffice(i / 128);
    } else {
      assert NeededBytes(i) == 1 && FitsOctets(i / 128, 0);
    }
  }

  lemma {:induction false} FlaggedOctetsDecode(i: nat, n: nat, more: Bytes)
    requires FitsOctets(i, n)
    ensures DecVlqFrom(0, FlaggedOctets(i, n) + more) == DecVlqFrom(i * 128, more)
  {
    if n == 0 {
      assert FlaggedOctets(i, n) + more == more;
    } else {
      var last: Bytes := [i % 128 + 128];
      assert FlaggedOctets(i, n) + more == FlaggedOctets(i / 128, n - 1) + (last + more);
      FlaggedOctetsDecode(i / 128, n - 1, last + more);
      assert (last + more)[0] % 128 == i % 128 && (last + more)[1..] == more;
    }
  }

  /** Decoding undoes encoding for every natural number, whatever follows. */
  lemma VlqRoundTrip(i: nat, more: Bytes)
    ensures DecVlq(EncVlq(i) + more) == Ok((i, more))
  {
    NeededBytesSuffice(i);
    var last: Bytes := [i % 128];
    assert EncVlq(i) + more == FlaggedOctets(i / 128, NeededBytes(i) - 1) + (last + more);
    FlaggedOctetsDecode(i / 128, NeededBytes(i) - 1, last + more);
    LastOctetDecodes(i / 128 * 128, i % 128, more);
  }

  lemma LastOctetDecodes(result: nat, b: byte, more: Bytes)
    requires b < 128
    ensures DecVlqFrom(result, [b] + more) == Ok((result + b, more))
  {
    assert ([b] + more)[1..] == more;
  }

  lemma {:induction false} VlqStreams(result: nat, bs: Bytes, more: Bytes)
    ensures Extends(DecVlqFrom(result, bs), DecVlqFrom(result, bs + more), more)
    decreases |bs|
  {
    if bs != [] {
      assert (bs + more)[1..] == bs[1..] + more;
      if bs[0] >= 128 {
        VlqStreams((result + bs[0] % 128) * 128, bs[1..], more);
      }
    }
  }

  lemma {:induction false} FlaggedOctetsHead(i: nat, n: nat)
    requires n > 0
    ensures FlaggedOctets(i, n)[0] == if n == 1 then i % 128 + 128 else FlaggedOctets(i / 128, n - 1)[0]
  {
  }

  lemma OctetsDrop(i: nat)
    requires i >= 64
    ensures NeededBytes(i) == NeededBytes(i / 128) + 1 >= 2 && BitLength(i) % 7 == BitLength(i / 128) % 7
    ensures i >= 128 ==> i / 128 > 0 && (NeededBytes(i) == 2 ==> i / 128 < 64)
    ensures i < 128 ==> NeededBytes(i) == 2 && BitLength(i) == 7
  {
    BitLengthShift(i);
    BitLengthShift(i / 128);
    assert BitLength(0) == 0;
  }

  lemma FirstOctet(i: nat)
    ensures NeededBytes(i) == 1 ==> EncVlq(i)[0] == i % 128
    ensures NeededBytes(i) > 1 ==> EncVlq(i)[0] == FlaggedOctets(i / 128, NeededBytes(i) - 1)[0]
  {
    hide NeededBytes;
  }

  /** The encoder spends one octet more than the format needs exactly on the positive numbers whose bit
      length is a multiple of seven: then, and only then, the first octet carries no bits. */
  lemma {:induction false} VlqPaddedExactly(i: nat)
    requires i > 0
    ensures EncVlq(i)[0] == 128 <==> BitLength(i) % 7 == 0
  {
    hide EncVlq, FlaggedOctets, BitLength, NeededBytes;
    FirstOctet(i);
    if i < 64 {
      SmallOctet(i);
    } else {
      OctetsDrop(i);
      FlaggedOctetsHead(i / 128, NeededBytes(i) - 1);
      if i >= 128 {
        VlqPaddedExactly(i / 128);
        FirstOctet(i / 128);
        if NeededBytes(i) == 2 {
          SmallOctet(i / 128);
        }
      }
    }
  }

  lemma SmallOctet(i: nat)
    requires 0 < i < 64
    ensures NeededBytes(i) == 1 && 0 < BitLength(i) < 7
  {
    BitLengthShift(i);
  }

  /** Decoding is not injective: a padded spelling of 1 is accepted beside the encoder's own. */
  lemma VlqNotCanonical()
    ensures DecVlq([128, 1]) == Ok((1, [])) && DecVlq([1]) == Ok((1, [])) && EncVlq(1) == [1]
  {
    var padded: Bytes := [128, 1];
    assert padded[1..] == [1] && padded[1..][1..] == [];
    BitLengthShift(1);
  }

  // ----- the same digits by division, as the serialiser computes them

  function Pow128(n: nat): (p: nat)
    ensures p > 0
  {
    if n == 0 then 1 else 128 * Pow128(n - 1)
  }

  lemma {:induction false} FitsBelow(i: nat, n: nat)
    requires FitsOctets(i, n)
    ensures i < Pow128(n)
  {
    if n > 0 {
      FitsBelow(i / 128, n - 1);
    }
  }

  /** The digit of weight `d` of `i`, and what is left of `i` above it. */
  lemma DigitByDivision(i: nat, d: nat)
    requires d > 0
    ensures (i % (128 * d)) / d == (i / d) % 128
    ensures i / (128 * d) == (i / d) / 128
  {
    var a, r := i / d, i % d;
    assert i == a * d + r;
    var b, c := a / 128, a % 128;
    calc {
      a * d + r;
      (128 * b + c) * d + r;
      128 * b * d + c * d + r;
      b * (128 * d) + (c * d + r);
    }
    MulMonotone(c, 127, d);
    DivModUnique(i, 128 * d, b, c * d + r);
    DivModUnique(c * d + r, d, c, r);
  }

  /** The octets of `i` at index `j` and above, counting from the least significant. */
  ghost function OctetsAbove(i: nat, j: nat): Bytes
    requires j <= NeededBytes(i)
  {
    if j == 0 then EncVlq(i) else FlaggedOctets(Quotient(i, Pow128(j)), NeededBytes(i) - j)
  }

  ghost function OctetAt(i: nat, j: nat): byte {
    Quotient(i, Pow128(j)) % 128 + if j > 0 then 128 else 0
  }

  lemma AllDigitsBelow(i: nat)
    ensures OctetsAbove(i, NeededBytes(i)) == []
    ensures i % Pow128(NeededBytes(i)) == i
  {
    NeededBytesSuffice(i);
    FitsBelow(i, NeededBytes(i));
    DivModUnique(i, Pow128(NeededBytes(i)), 0, i);
  }

  lemma OctetByDivision(i: nat, j: nat)
    requires j < NeededBytes(i)
    ensures (i % Pow128(j + 1)) / Pow128(j) + (if j > 0 then 128 else 0) == OctetAt(i, j)
    ensures OctetsAbove(i, j) == OctetsAbove(i, j + 1) + [OctetAt(i, j)]
  {
    DigitByDivision(i, Pow128(j));
    assert Pow128(j + 1) == 128 * Pow128(j);
    assert Quotient(i, Pow128(j + 1)) == Quotient(i, Pow128(j)) / 128;
    if j == 0 {
      assert Quotient(i, Pow128(0)) == i;
    }
  }

  // ----- length-prefixed lists

  function EncAll<T>(enc: T -> Bytes, xs: seq<T>): Bytes {
    if xs == [] then [] else enc(xs[0]) + EncAll(enc, xs[1..])
  }

  lemma {:induction false} EncAllNext<T>(enc: T -> Bytes, xs: seq<T>, i: nat)
    requires i < |xs|
    ensures EncAll(enc, xs[..i + 1]) == EncAll(enc, xs[..i]) + enc(xs[i])
  {
    if i == 0 {
      assert xs[..1] == [xs[0]] && xs[..1][1..] == xs[..0];
    } else {
      EncAllNext(enc, xs[1..], i - 1);
      assert xs[..i + 1][1..] == xs[1..][..i] && xs[..i][1..] == xs[1..][..i - 1];
    }
  }

  function EncList<T>(enc: T -> Bytes, xs: seq<T>): Bytes {
    EncVlq(|xs|) + EncAll(enc, xs)
  }

  function DecAll<T>(dec: Bytes -> Decoded<T>, n: nat, bs: Bytes): (d: Decoded<seq<T>>)
    ensures d.Ok? ==> |d.value.0| == n
  {
    if n == 0 then Ok(([], bs))
    else
      var (x, rest) :- dec(bs);
      var (xs, rest') :- DecAll(dec, n - 1, rest);
      Ok(([x] + xs, rest'))
  }

  function DecList<T>(dec: Bytes -> Decoded<T>, bs: Bytes): Decoded<seq<T>> {
    var (n, rest) :- DecVlq(bs);
    DecAll(dec, n, rest)
  }

  lemma {:induction false} AllRoundTrip<T(!new)>(enc: T -> Bytes, dec: Bytes -> Decoded<T>, xs: seq<T>, more: Bytes)
    requires Inverts(dec, enc)
    ensures DecAll(dec, |xs|, EncAll(enc, xs) + more) == Ok((xs, more))
  {
    if xs != [] {
      var tail := EncAll(enc, xs[1..]) + more;
      assert EncAll(enc, xs) + more == enc(xs[0]) + tail;
      assert dec(enc(xs[0]) + tail) == Ok((xs[0], tail));
      AllRoundTrip(enc, dec, xs[1..], more);
      assert [xs[0]] + xs[1..] == xs;
    } else {
      assert EncAll(enc, xs) + more == more;
    }
  }

  lemma ListRoundTrip<T(!new)>(enc: T -> Bytes, dec: Bytes -> Decoded<T>, xs: seq<T>, more: Bytes)
    requires Inverts(dec, enc)
    ensures DecList(dec, EncList(enc, xs) + more) == Ok((xs, more))
  {
    assert EncList(enc, xs) + more == EncVlq(|xs|) + (EncAll(enc, xs) + more);
    VlqRoundTrip(|xs|, EncAll(enc, xs) + more);
    AllRoundTrip(enc, dec, xs, more);
  }

  lemma {:induction false} AllStreams<T(!new)>(dec: Bytes -> Decoded<T>, n: nat, bs: Bytes, more: Bytes)
    requires Streams(dec)
    ensures Extends(DecAll(dec, n, bs), DecAll(dec, n, bs + more), more)
  {
    if n > 0 {
      assert Extends(dec(bs), dec(bs + more), more);
      if dec(bs).Ok? {
        AllStreams(dec, n - 1, dec(bs).value.1, more);
      }
    }
  }

  lemma ListStreams<T(!new)>(dec: Bytes -> Decoded<T>, bs: Bytes, more: Bytes)
    requires Streams(dec)
    ensures Extends(DecList(dec, bs), DecList(dec, bs + more), more)
  {
    VlqStreams(0, bs, more);
    if DecVlq(bs).Ok? {
      AllStreams(dec, DecVlq(bs).value.0, DecVlq(bs).value.1, more);
    }
  }

  lemma {:induction false} AllSuffix<T(!new)>(dec: Bytes -> Decoded<T>, n: nat, bs: Bytes)
    requires Suffixing(dec)
    ensures LeavesSuffix(DecAll(dec, n, bs), bs)
  {
    if n > 0 && dec(bs).Ok? {
      assert LeavesSuffix(dec(bs), bs);
      AllSuffix(dec, n - 1, dec(bs).value.1);
    }
  }

  lemma ListSuffix<T(!new)>(dec: Bytes -> Decoded<T>, bs: Bytes)
    requires Suffixing(dec)
    ensures LeavesSuffix(DecList(dec, bs), bs)
  {
    if DecVlq(bs).Ok? {
      AllSuffix(dec, DecVlq(bs).value.0, DecVlq(bs).value.1);
    }
  }

  // ----- the stream

  /** A stream method returned what the decoder returns and left what the decoder leaves. */
  ghost predicate Agrees<T(!new)>(d: Decoded<T>, r: Result<T>, rest: Bytes) {
    match d
    case Ok((v, left)) => r == Ok(v) && rest == left
    case Err(e) => r == Err(e)
  }

  /** The `BytesIO` that serialisation writes to and deserialisation reads from. */
  class ByteStream {
    var data: Bytes
    var pos: nat

    constructor (data: Bytes)
      ensures this.data == data && pos == 0
    {
      this.data := data;
      pos := 0;
    }

    ghost predicate Valid()
      reads this
    {
      pos <= |data|
    }

    function Rest(): Bytes
      requires Valid()
      reads this
    {
      data[pos..]
    }

    /** Serialisers only ever write at the end. */
    method Write(bs: Bytes)
      requires Valid() && pos == |data|
      modifies this
      ensures data == old(data) + bs && pos == |data|
    {
      data := data + bs;
      pos := |data|;
    }

    method Read(n: nat) returns (r: Result<Bytes>)
      requires Valid()
      modifies `pos
      ensures Valid() && Agrees(SafeRead(old(Rest()), n), r, Rest())
    {
      if |data| - pos < n {
        pos := |data|;
        return Err(TruncationError);
      }
      assert Rest()[..n] == data[pos..pos + n] && Rest()[n..] == data[pos + n..];
      r := Ok(data[pos..pos + n]);
      pos := pos + n;
    }

    method SerializeVlq(i: nat)
      requires Valid() && pos == |data|
      modifies this
      ensures data == old(data) + EncVlq(i) && pos == |data|
    {
      var n := NeededBytes(i);
      var j, mod := n, 0;
      AllDigitsBelow(i);
      while j > 0
        invariant j <= n && pos == |data|
        invariant mod == if j == n then 0 else Pow128(j)
        invariant data == old(data) + OctetsAbove(i, j)
      {
        j := j - 1;
        var div := Pow128(j);
        var octet := (if mod != 0 then i % mod else i) / div + if j > 0 then 128 else 0;
        OctetByDivision(i, j);
        assert octet == OctetAt(i, j);
        Write([octet]);
        mod := div;
      }
    }

    method DeserializeVlq() returns (r: Result<nat>)
      requires Valid()
      modifies `pos
      ensures Valid() && Agrees(DecVlq(old(Rest())), r, Rest())
    {
      var result: nat := 0;
      while true
        invariant Valid()
        invariant DecVlq(old(Rest())) == DecVlqFrom(result, Rest())
        decreases |data| - pos
      {
        ghost var before := Rest();
        var b :- Read(1);
        assert before == b + Rest() && before[1..] == Rest();
        result := result + b[0] % 128;
        if b[0] < 128 {
          return Ok(result);
        }
        result := result * 128;
      }
    }

    /** `enc` is the element class's own serialiser. */
    method SerializeList<T>(enc: T -> Bytes, list: seq<T>)
      requires Valid() && pos == |data|
      modifies this
      ensures data == old(data) + EncList(enc, list) && pos == |data|
    {
      SerializeVlq(|list|);
      ghost var start := data;
      for i := 0 to |list|
        invariant pos == |data| && data == start + EncAll(enc, list[..i])
      {
        EncAllNext(enc, list, i);
        Write(enc(list[i]));
      }
      assert list[..|list|] == list;
    }

    /** `dec` is the element class's own deserialiser, applied at the cursor. */
    method DeserializeList<T(!new)>(dec: Bytes -> Decoded<T>) returns (r: Result<seq<T>>)
      requires Valid() && Suffixing(dec)
      modifies `pos
      ensures Valid() && Agrees(DecList(dec, old(Rest())), r, Rest())
    {
      hide DecAll, Prepend, LeavesSuffix;
      var result := [];
      var length :- DeserializeVlq();
      ghost var all := DecAll(dec, length, Rest());
      PrependNothing(all);
      for i := 0 to length
        invariant Valid()
        invariant all == Prepend(result, DecAll(dec, length - i, Rest()))
      {
        SuffixOf(dec, Rest());
        PrependStep(dec, result, length - i, Rest());
        var step :- dec(Rest());
        pos := |data| - |step.1|;
        assert Rest() == step.1;
        result := result + [step.0];
      }
      PrependAll(dec, result, Rest());
      return Ok(result);
    }
  }

  lemma SuffixOf<T(!new)>(dec: Bytes -> Decoded<T>, p: Bytes)
    requires Suffixing(dec)
    ensures dec(p).Ok? ==> |dec(p).value.1| <= |p| && dec(p).value.1 == p[|p| - |dec(p).value.1|..]
  {
    assert dec(p).Ok? ==> LeavesSuffix(dec(p), p);
  }

  ghost function Prepend<T>(before: seq<T>, d: Decoded<seq<T>>): Decoded<seq<T>> {
    match d
    case Ok((xs, rest)) => Ok((before + xs, rest))
    case Err(e) => Err(e)
  }

  lemma PrependNothing<T>(d: Decoded<seq<T>>)
    ensures Prepend([], d) == d
  {
    assert d.Ok? ==> [] + d.value.0 == d.value.0;
  }

  lemma PrependAll<T>(dec: Bytes -> Decoded<T>, before: seq<T>, bs: Bytes)
    ensures Prepend(before, DecAll(dec, 0, bs)) == Ok((before, bs))
  {
    assert before + [] == before;
  }

  lemma PrependStep<T>(dec: Bytes -> Decoded<T>, before: seq<T>, n: nat, bs: Bytes)
    requires n > 0
    ensures Prepend(before, DecAll(dec, n, bs)) ==
      match dec(bs)
      case Ok((x, rest)) => Prepend(before + [x], DecAll(dec, n - 1, rest))
      case Err(e) => Err(e)
  {
    if dec(bs).Ok? {
      var (x, rest) := dec(bs).value;
      var tail := DecAll(dec, n - 1, rest);
      if tail.Ok? {
        assert before + ([x] + tail.value.0) == (before + [x]) + tail.value.0;
      }
    }
  }
}

/** Results, byte strings, fixed-width big-endian numbers and the order Python uses on `bytes`. */
module Basics {
  datatype Option<+T> = None | Some(value: T)

  /** The Python exception classes that the modelled code can raise. */
  datatype Error =
    | KeyError
    | IndexError
    | ValueError
    | OverflowError
    | StructError
    | TruncationError
    | DeserializationError
    | MalformedPointError
    | NotImplementedError
    | OSError
    | AssertionError
    | PlainException
    | ValidationError
    | ValidateTransactionError
    | ValidatePOWError
    | ValidateBlockHeaderError
    | ValidateBlockError

  /** What a call returns, or the class of the exception it raises. */
  datatype Result<+T> = Ok(value: T) | Err(error: Error) {
    predicate IsFailure() {
      Err?
    }

    function PropagateFailure<U>(): Result<U>
      requires Err?
    {
      Err(error)
    }

    function Extract(): T
      requires Ok?
    {
      value
    }
  }

  type Verdict = Result<()>

  const PASS: Verdict := Ok(())

  type byte = x: int | 0 <= x < 256
  type u32 = x: int | 0 <= x < 0x1_0000_0000
  type u64 = x: int | 0 <= x < 0x1_0000_0000_0000_0000
  type Bytes = seq<byte>

  function Min(a: int, b: int): int {
    if a <= b then a else b
  }

  function Max(a: nat, b: nat): nat {
    if a <= b then b else a
  }

  function Pow2(n: nat): (p: nat)
    ensures p > 0
  {
    if n == 0 then 1 else 2 * Pow2(n - 1)
  }

  predicate Distinct<T(==)>(xs: seq<T>) {
    forall i, j | 0 <= i < j < |xs| :: xs[i] != xs[j]
  }

  ghost function Sum(vs: seq<int>): int {
    if vs == [] then 0 else vs[0] + Sum(vs[1..])
  }

  // ----- division

  lemma MulMonotone(a: nat, b: nat, p: nat)
    requires a <= b
    ensures a * p <= b * p
  {
  }

  function Quotient(i: nat, p: nat): (q: nat)
    requires p > 0
  {
    i / p
  }

  lemma DivModUnique(i: nat, p: nat, q: nat, r: nat)
    requires p > 0 && r < p && i == q * p + r
    ensures i / p == q && i % p == r
  {
    var q' := i / p;
    assert i == q' * p + i % p;
    if q < q' {
      MulMonotone(q + 1, q', p);
    } else if q' < q {
      MulMonotone(q' + 1, q, p);
    }
  }

  // ----- fixed-width big-endian numbers (struct ">I", ">Q", int.to_bytes, int.from_bytes)

  function Pow256(n: nat): (p: nat)
    ensures p > 0
  {
    if n == 0 then 1 else 256 * Pow256(n - 1)
  }

  lemma Pow256Values()
    ensures Pow256(4) == 0x1_0000_0000
    ensures Pow256(8) == 0x1_0000_0000_0000_0000
    ensures Pow256(32) == 0x1_00000000_00000000_00000000_00000000_00000000_00000000_00000000_00000000
  {
    assert Pow256(4) == 0x1_0000_0000;
    assert Pow256(8) == 0x1_0000_0000_0000_0000;
    assert Pow256(16) == 0x1_00000000_00000000_00000000_00000000;
    assert Pow256(24) == 0x1_00000000_00000000_00000000_00000000_00000000_00000000;
  }

  function BigEndian(v: nat, width: nat): (bs: Bytes)
    requires v < Pow256(width)
    ensures |bs| == width
  {
    if width == 0 then [] else BigEndian(v / 256, width - 1) + [v % 256]
  }

  function FromBigEndian(bs: Bytes): (v: nat)
    ensures v < Pow256(|bs|)
  {
    if bs == [] then 0 else FromBigEndian(bs[..|bs| - 1]) * 256 + bs[|bs| - 1]
  }

  lemma {:induction false} BigEndianRoundTrip(v: nat, width: nat)
    requires v < Pow256(width)
    ensures FromBigEndian(BigEndian(v, width)) == v
  {
    if width > 0 {
      BigEndianRoundTrip(v / 256, width - 1);
      assert BigEndian(v, width)[..width - 1] == BigEndian(v / 256, width - 1);
    }
  }

  lemma {:induction false} FromBigEndianRoundTrip(bs: Bytes)
    ensures BigEndian(FromBigEndian(bs), |bs|) == bs
  {
    if bs != [] {
      FromBigEndianRoundTrip(bs[..|bs| - 1]);
      assert bs == bs[..|bs| - 1] + [bs[|bs| - 1]];
    }
  }

  lemma {:induction false} BigEndianHead(bs: Bytes)
    requires bs != []
    ensures FromBigEndian(bs) == bs[0] * Pow256(|bs| - 1) + FromBigEndian(bs[1..])
  {
    var n := |bs|;
    var front, last := bs[..n - 1], bs[n - 1];
    if n > 1 {
      BigEndianHead(front);
      assert front[1..] == bs[1..][..n - 2] && bs[1..][n - 2] == last;
      ScaleDigit(bs[0], Pow256(n - 2), FromBigEndian(front[1..]));
    }
  }

  lemma ScaleDigit(x: nat, p: nat, f: nat)
    ensures (x * p + f) * 256 == x * (256 * p) + f * 256
  {
  }

  /** Python compares `bytes` lexicographically. */
  predicate LexLess(a: Bytes, b: Bytes) {
    if b == [] then false
    else if a == [] then true
    else a[0] < b[0] || (a[0] == b[0] && LexLess(a[1..], b[1..]))
  }

  lemma LeadingDigitDecides(x: nat, y: nat, p: nat, f: nat, g: nat)
    requires x < y && f < p
    ensures x * p + f < y * p + g
  {
    assert (x + 1) * p <= y * p;
  }

  /** On strings of one length the comparison of `bytes` is the comparison of the numbers they spell. */
  lemma {:induction false} LexLessIsNumeric(a: Bytes, b: Bytes)
    requires |a| == |b|
    ensures LexLess(a, b) <==> FromBigEndian(a) < FromBigEndian(b)
  {
    if a != [] {
      BigEndianHead(a);
      BigEndianHead(b);
      var p, f, g := Pow256(|a| - 1), FromBigEndian(a[1..]), FromBigEndian(b[1..]);
      if a[0] < b[0] {
        LeadingDigitDecides(a[0], b[0], p, f, g);
      } else if b[0] < a[0] {
        LeadingDigitDecides(b[0], a[0], p, g, f);
      } else {
        LexLessIsNumeric(a[1..], b[1..]);
      }
    }
  }

  function U32(v: u32): (bs: Bytes)
    ensures |bs| == 4 && FromBigEndian(bs) == v
  {
    Pow256Values();
    BigEndianRoundTrip(v, 4);
    BigEndian(v, 4)
  }

  function U64(v: u64): (bs: Bytes)
    ensures |bs| == 8 && FromBigEndian(bs) == v
  {
    Pow256Values();
    BigEndianRoundTrip(v, 8);
    BigEndian(v, 8)
  }

  function FromU32(bs: Bytes): (v: u32)
    requires |bs| == 4
    ensures v == FromBigEndian(bs)
  {
    Pow256Values();
    FromBigEndian(bs)
  }

  function FromU64(bs: Bytes): (v: u64)
    requires |bs| == 8
    ensures v == FromBigEndian(bs)
  {
    Pow256Values();
    FromBigEndian(bs)
  }
}

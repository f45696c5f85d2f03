/** What a transaction and a block have to show by themselves, said without the functions that check it. */
module Alone {
  import opened Basics
  import opened Crypto
  import opened Datatypes
  import opened Consensus
  import opened BlockEffects
  import opened Merkle
  import opened Spends
  import opened Retarget

  // ----- references

  /** No two inputs of the transactions have one reference. */
  ghost predicate NoSharedInputs(ts: seq<Transaction>) {
    forall a, i, b, j | 0 <= a < |ts| && 0 <= i < |ts[a].inputs| && 0 <= b < |ts| && 0 <= j < |ts[b].inputs| ::
      ts[a].inputs[i].reference == ts[b].inputs[j].reference ==> a == b && i == j
  }

  ghost predicate UsedIn(t: Transaction, r: OutputReference) {
    exists i | i in t.inputs :: i.reference == r
  }

  lemma UsedExactly(t: Transaction, r: OutputReference)
    ensures r in ReferencesOf(t.inputs) <==> UsedIn(t, r)
  {
    if r in ReferencesOf(t.inputs) {
      var k :| 0 <= k < |t.inputs| && ReferencesOf(t.inputs)[k] == r;
      assert t.inputs[k] in t.inputs;
    }
    if i :| i in t.inputs && i.reference == r {
      var k :| 0 <= k < |t.inputs| && t.inputs[k] == i;
      assert ReferencesOf(t.inputs)[k] == r;
    }
  }

  /** The references of a list of transactions are those of their inputs. */
  lemma {:induction false} ReferencesExactly(ts: seq<Transaction>, r: OutputReference)
    ensures r in References(ts) <==> exists t | t in ts :: UsedIn(t, r)
    decreases |ts|
  {
    hide UsedIn, ReferencesOf;
    if ts != [] {
      UsedExactly(ts[0], r);
      ReferencesExactly(ts[1..], r);
      assert ts == [ts[0]] + ts[1..];
    }
  }

  /** They are distinct exactly when no two inputs share one. */
  lemma {:induction false} DistinctExactly(ts: seq<Transaction>)
    ensures Distinct(References(ts)) <==> NoSharedInputs(ts)
    decreases |ts|
  {
    hide Distinct, References, NoSharedInputs;
    if ts == [] {
      NothingShared();
    } else {
      var t, rest := ts[0], ts[1..];
      DistinctExactly(rest);
      SharedSplit(t, rest);
      FirstAndRest(ts);
      if Distinct(References(ts)) {
        DistinctParts(ReferencesOf(t.inputs), References(rest));
      }
      if
        && Distinct(ReferencesOf(t.inputs)) && Distinct(References(rest))
        && (forall r | r in ReferencesOf(t.inputs) :: r !in References(rest))
      {
        DistinctJoin(ReferencesOf(t.inputs), References(rest));
      }
    }
  }

  lemma FirstAndRest(ts: seq<Transaction>)
    requires ts != []
    ensures ts == [ts[0]] + ts[1..] && References(ts) == ReferencesOf(ts[0].inputs) + References(ts[1..])
  {
  }

  lemma NothingShared()
    ensures NoSharedInputs([]) && Distinct(References([]))
  {
  }

  lemma SharedSplit(t: Transaction, rest: seq<Transaction>)
    ensures NoSharedInputs([t] + rest) <==>
              && Distinct(ReferencesOf(t.inputs)) && NoSharedInputs(rest)
              && (forall r | r in ReferencesOf(t.inputs) :: r !in References(rest))
  {
    hide References, NoSharedInputs, Distinct;
    var here := ReferencesOf(t.inputs);
    if NoSharedInputs([t] + rest) {
      FirstUnshared(t, rest);
      RestUnshared(t, rest);
      forall r | r in here ensures r !in References(rest) {
        if r in References(rest) {
          SharedWithRest(t, rest, r);
        }
      }
    }
    if Distinct(here) && NoSharedInputs(rest) && forall r | r in here :: r !in References(rest) {
      Joined(t, rest);
    }
  }

  lemma FirstUnshared(t: Transaction, rest: seq<Transaction>)
    requires NoSharedInputs([t] + rest)
    ensures Distinct(ReferencesOf(t.inputs))
  {
    var ts, here := [t] + rest, ReferencesOf(t.inputs);
    forall i, j | 0 <= i < j < |here| ensures here[i] != here[j] {
      assert ts[0].inputs[i].reference != ts[0].inputs[j].reference;
    }
  }

  lemma RestUnshared(t: Transaction, rest: seq<Transaction>)
    requires NoSharedInputs([t] + rest)
    ensures NoSharedInputs(rest)
  {
    var ts := [t] + rest;
    forall a, i, b, j | 0 <= a < |rest| && 0 <= i < |rest[a].inputs| && 0 <= b < |rest| && 0 <= j < |rest[b].inputs|
      ensures rest[a].inputs[i].reference == rest[b].inputs[j].reference ==> a == b && i == j
    {
      assert rest[a] == ts[a + 1] && rest[b] == ts[b + 1];
    }
  }

  lemma Joined(t: Transaction, rest: seq<Transaction>)
    requires Distinct(ReferencesOf(t.inputs)) && NoSharedInputs(rest)
    requires forall r | r in ReferencesOf(t.inputs) :: r !in References(rest)
    ensures NoSharedInputs([t] + rest)
  {
    hide References, Distinct, ReferencesOf;
    var ts := [t] + rest;
    forall a, i, b, j | 0 <= a < |ts| && 0 <= i < |ts[a].inputs| && 0 <= b < |ts| && 0 <= j < |ts[b].inputs|
      ensures ts[a].inputs[i].reference == ts[b].inputs[j].reference ==> a == b && i == j
    {
      Apart(t, rest, a, i, b, j);
    }
  }

  lemma SharedWithRest(t: Transaction, rest: seq<Transaction>, r: OutputReference)
    requires r in ReferencesOf(t.inputs) && r in References(rest)
    ensures !NoSharedInputs([t] + rest)
  {
    hide References;
    var ts := [t] + rest;
    var i :| 0 <= i < |t.inputs| && ReferencesOf(t.inputs)[i] == r;
    ReferencesExactly(rest, r);
    var s :| s in rest && UsedIn(s, r);
    var b :| 0 <= b < |rest| && rest[b] == s;
    var input :| input in s.inputs && input.reference == r;
    var j :| 0 <= j < |s.inputs| && s.inputs[j] == input;
    assert ts[0].inputs[i].reference == ts[b + 1].inputs[j].reference;
  }

  lemma Apart(t: Transaction, rest: seq<Transaction>, a: nat, i: nat, b: nat, j: nat)
    requires Distinct(ReferencesOf(t.inputs)) && NoSharedInputs(rest)
    requires forall r | r in ReferencesOf(t.inputs) :: r !in References(rest)
    requires var ts := [t] + rest; a < |ts| && i < |ts[a].inputs| && b < |ts| && j < |ts[b].inputs|
    ensures var ts := [t] + rest; ts[a].inputs[i].reference == ts[b].inputs[j].reference ==> a == b && i == j
  {
    hide References;
    var ts, here := [t] + rest, ReferencesOf(t.inputs);
    if a == 0 && b == 0 {
      assert here[i] == t.inputs[i].reference && here[j] == t.inputs[j].reference;
    } else if a == 0 {
      Elsewhere(rest, b - 1, j);
      assert here[i] in here;
    } else if b == 0 {
      Elsewhere(rest, a - 1, i);
      assert here[j] in here;
    } else {
      assert ts[a] == rest[a - 1] && ts[b] == rest[b - 1];
    }
  }

  lemma Elsewhere(rest: seq<Transaction>, b: nat, j: nat)
    requires b < |rest| && j < |rest[b].inputs|
    ensures rest[b].inputs[j].reference in References(rest)
  {
    hide References;
    ReferencesExactly(rest, rest[b].inputs[j].reference);
    assert rest[b] in rest && rest[b].inputs[j] in rest[b].inputs;
    assert UsedIn(rest[b], rest[b].inputs[j].reference);
  }

  // ----- transactions

  ghost predicate Amount(v: int) {
    1 <= v <= 2_099_999_986_350_000
  }

  ghost predicate AmountsRight(t: Transaction) {
    (forall o | o in t.outputs :: Amount(o.value)) && Amount(Paid(t.outputs))
  }

  ghost predicate SizedRight(t: Transaction) {
    t.inputs != [] && t.outputs != [] && |EncTransaction(t)| <= 200_000
  }

  /** Every input refers to an output of a transaction, each to another one, and is signed. */
  ghost predicate InputsRight(t: Transaction) {
    && NoSharedInputs([t])
    && forall i | i in t.inputs ::
         i.signature.Secp256k1Signature? && (i.reference.hash != ZERO_HASH || i.reference.index != 0)
  }

  ghost predicate TransactionRight(t: Transaction) {
    SizedRight(t) && AmountsRight(t) && InputsRight(t)
  }

  /** A transaction that is no coinbase is valid by itself exactly when it is not empty, not too big, moves amounts that
      can exist, and its inputs are right. Wrong amounts raise another exception than the rest. */
  lemma TransactionExactly(t: Transaction)
    ensures NonCoinbaseByItself(t).Ok? <==> TransactionRight(t)
    ensures NonCoinbaseByItself(t).Err? ==>
              NonCoinbaseByItself(t).error ==
              if SizedRight(t) && !AmountsRight(t) then ValidationError else ValidateTransactionError
  {
    hide EncTransaction, Paid, NoSharedInputs;
    PaidIsOutputsValue(t.outputs);
    DistinctExactly([t]);
    assert [t][1..] == [] && References([]) == [];
    assert References([t]) == ReferencesOf(t.inputs);
  }

  // ----- blocks

  ghost predicate CoinbaseShaped(t: Transaction) {
    && |t.inputs| == 1
    && t.inputs[0].reference.hash == ZERO_HASH && t.inputs[0].reference.index == 0
    && t.inputs[0].signature.CoinbaseData? && |t.inputs[0].signature.data| <= 200
  }

  ghost predicate CoinbaseRight(t: Transaction, height: nat) {
    CoinbaseShaped(t) && t.inputs[0].signature.height == height
  }

  /** Its hash spells a smaller number than its target, and it is at most half a minute ahead. */
  ghost predicate HeaderRight(b: Block, now: int) {
    FromBigEndian(BlockHash(b)) < FromBigEndian(b.Target()) && b.Timestamp() <= now + 30
  }

  ghost predicate BodyRight(b: Block) {
    && b.transactions != [] && |EncBlock(b)| <= 200_000
    && CoinbaseRight(b.transactions[0], b.Height())
    && (forall t | t in b.transactions[1..] :: TransactionRight(t))
    && NoSharedInputs(b.transactions[1..])
    && RootRight(b)
  }

  ghost predicate RootRight(b: Block)
    requires b.transactions != []
  {
    b.header.summary.merkleRoot ==
      MerkleRoot(seq(|b.transactions|, k requires 0 <= k < |b.transactions| => TransactionHash(b.transactions[k])))
  }

  lemma {:induction false} AllRight(ts: seq<Transaction>)
    ensures AllByThemselves(ts).Ok? <==> forall t | t in ts :: TransactionRight(t)
    decreases |ts|
  {
    hide TransactionRight, NonCoinbaseByItself;
    if ts != [] {
      TransactionExactly(ts[0]);
      AllRight(ts[1..]);
      assert ts == [ts[0]] + ts[1..];
    }
  }

  lemma DifferentTransactions(ts: seq<Transaction>)
    requires NoSharedInputs(ts) && forall t | t in ts :: t.inputs != []
    ensures Distinct(ts)
  {
    forall a, b | 0 <= a < b < |ts| ensures ts[a] != ts[b] {
      assert ts[a] in ts;
      assert ts[b] in ts && ts[a].inputs[0].reference != ts[b].inputs[0].reference;
    }
  }

  /** A block is valid by itself exactly when its header and its body are right. */
  lemma BlockExactly(b: Block, now: int)
    ensures BlockByItself(b, now).Ok? <==> HeaderRight(b, now) && BodyRight(b)
  {
    hide BlockHash, EncBlock, EncTransaction, FromBigEndian, LexLess, TransactionRight, AllByThemselves, References,
      NoSharedInputs, MerkleRoot, Distinct, HeaderByItself, TransactionHash;
    ProofOfWorkIsNumeric(b, now);
    if b.transactions != [] {
      var others := b.transactions[1..];
      assert TransactionHashes(b.transactions) ==
        seq(|b.transactions|, k requires 0 <= k < |b.transactions| => TransactionHash(b.transactions[k]));
      AllRight(others);
      DistinctExactly(others);
      if (forall t | t in others :: TransactionRight(t)) && NoSharedInputs(others) {
        forall t | t in others ensures t.inputs != [] { RightHasInputs(t); }
        DifferentTransactions(others);
      }
    }
  }

  lemma RightHasInputs(t: Transaction)
    requires TransactionRight(t)
    ensures t.inputs != []
  {
    hide EncTransaction, AmountsRight, InputsRight;
  }

  // ----- which exception

  /** The first transaction that is not right decides. */
  lemma {:induction false} FirstWrong(ts: seq<Transaction>, k: nat)
    requires k < |ts| && !TransactionRight(ts[k]) && forall j | 0 <= j < k :: TransactionRight(ts[j])
    ensures AllByThemselves(ts) ==
            Err(if SizedRight(ts[k]) && !AmountsRight(ts[k]) then ValidationError else ValidateTransactionError)
    decreases k
  {
    hide TransactionRight, NonCoinbaseByItself, SizedRight, AmountsRight;
    TransactionExactly(ts[0]);
    if k > 0 {
      FirstWrong(ts[1..], k - 1);
    }
  }

  ghost predicate SpendsRight(b: Block)
    requires b.transactions != []
  {
    (forall t | t in b.transactions[1..] :: TransactionRight(t)) && NoSharedInputs(b.transactions[1..])
  }

  /** The checks come in this order, each with its exception. */
  lemma BlockRefused(b: Block, now: int)
    ensures FromBigEndian(BlockHash(b)) >= FromBigEndian(b.Target()) ==> BlockByItself(b, now) == Err(ValidatePOWError)
    ensures FromBigEndian(BlockHash(b)) < FromBigEndian(b.Target()) && b.Timestamp() > now + 30 ==>
              BlockByItself(b, now) == Err(ValidateBlockHeaderError)
    ensures HeaderRight(b, now) ==>
              if b.transactions == [] || |EncBlock(b)| > 200_000 then BlockByItself(b, now) == Err(ValidateBlockError)
              else if !CoinbaseShaped(b.transactions[0]) then BlockByItself(b, now) == Err(ValidateTransactionError)
              else if !CoinbaseRight(b.transactions[0], b.Height()) then
                BlockByItself(b, now) == Err(ValidateBlockError)
              else if exists t | t in b.transactions[1..] :: !TransactionRight(t) then
                BlockByItself(b, now) == AllByThemselves(b.transactions[1..])
              else if !SpendsRight(b) then BlockByItself(b, now) == Err(ValidateTransactionError)
              else !RootRight(b) ==> BlockByItself(b, now) == Err(ValidateBlockError)
  {
    hide BlockHash, EncBlock, EncTransaction, FromBigEndian, LexLess, TransactionRight, AllByThemselves, References,
      NoSharedInputs, MerkleRoot, Distinct, HeaderByItself, TransactionHash;
    HeaderRefused(b, now);
    if b.transactions != [] {
      var others := b.transactions[1..];
      assert TransactionHashes(b.transactions) ==
        seq(|b.transactions|, k requires 0 <= k < |b.transactions| => TransactionHash(b.transactions[k]));
      AllRight(others);
      DistinctExactly(others);
      if SpendsRight(b) {
        forall t | t in others ensures t.inputs != [] { RightHasInputs(t); }
        DifferentTransactions(others);
      }
    }
  }

  lemma HeaderRefused(b: Block, now: int)
    ensures HeaderByItself(b, now).Ok? <==> HeaderRight(b, now)
    ensures FromBigEndian(BlockHash(b)) >= FromBigEndian(b.Target()) ==> HeaderByItself(b, now) == Err(ValidatePOWError)
    ensures FromBigEndian(BlockHash(b)) < FromBigEndian(b.Target()) && b.Timestamp() > now + 30 ==>
              HeaderByItself(b, now) == Err(ValidateBlockHeaderError)
  {
    hide BlockHash, FromBigEndian;
    LexLessIsNumeric(BlockHash(b), b.Target());
  }
}

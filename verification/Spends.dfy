/** What a spend has to show, said without the functions that check it. */
module Spends {
  import opened Basics
  import opened Crypto
  import opened Datatypes
  import opened Codecs
  import opened Balances
  import opened Consensus
  import opened ChainRules

  /** The input refers to an unspent output and carries a signature, good under that output's key, on the transaction
      without its signatures. */
  ghost predicate Claims(t: Transaction, i: Input, u: Utxo) {
    && i.reference in u && i.signature.Secp256k1Signature?
    && EcdsaVerify(u[i.reference].publicKey.key, i.signature.signature, EncTransaction(Signable(t))) == Good
  }

  ghost predicate AllClaimed(t: Transaction, u: Utxo) {
    forall i | i in t.inputs :: Claims(t, i, u)
  }

  /** What the outputs are worth together. */
  ghost function Paid(outs: seq<Output>): int {
    Sum(seq(|outs|, k requires 0 <= k < |outs| => outs[k].value))
  }

  /** What the unspent outputs that the inputs refer to are worth together. */
  ghost function Held(u: Utxo, ins: seq<Input>): int {
    Sum(seq(|ins|, k requires 0 <= k < |ins| => Worth(u, ins[k].reference)))
  }

  ghost function Worth(u: Utxo, r: OutputReference): nat {
    if r in u then u[r].value else 0
  }

  lemma {:induction false} PaidIsOutputsValue(outs: seq<Output>)
    ensures OutputsValue(outs) == Paid(outs)
    decreases |outs|
  {
    if outs != [] {
      var values := seq(|outs|, k requires 0 <= k < |outs| => outs[k].value);
      assert values[1..] == seq(|outs| - 1, k requires 0 <= k < |outs| - 1 => outs[1..][k].value);
      PaidIsOutputsValue(outs[1..]);
    }
  }

  lemma {:induction false} HeldIsInputsValue(u: Utxo, ins: seq<Input>)
    requires forall i | i in ins :: i.reference in u
    ensures InputsValue(u, ins) == Ok(Held(u, ins))
    decreases |ins|
  {
    if ins != [] {
      var values := seq(|ins|, k requires 0 <= k < |ins| => Worth(u, ins[k].reference));
      assert values[1..] == seq(|ins| - 1, k requires 0 <= k < |ins| - 1 => Worth(u, ins[1..][k].reference));
      HeldIsInputsValue(u, ins[1..]);
    }
  }

  lemma {:induction false} ClaimedFrom(t: Transaction, u: Utxo, k: nat)
    requires k <= |t.inputs|
    ensures ClaimedValue(u, t, k).Ok? <==> forall m | k <= m < |t.inputs| :: Claims(t, t.inputs[m], u)
    ensures ClaimedValue(u, t, k).Ok? ==> InputsValue(u, t.inputs[k..]) == ClaimedValue(u, t, k)
    decreases |t.inputs| - k
  {
    hide EncTransaction;
    if k < |t.inputs| {
      ClaimedFrom(t, u, k + 1);
      assert t.inputs[k..][1..] == t.inputs[k + 1..];
    }
  }

  /** A spend is valid exactly when every input claims an unspent output and the outputs are worth no more. */
  lemma SpendExactly(t: Transaction, u: Utxo)
    ensures NonCoinbaseInUtxo(t, u).Ok? <==> AllClaimed(t, u) && Paid(t.outputs) <= Held(u, t.inputs)
  {
    hide Claims, Paid, Held, ClaimedValue;
    ClaimedFrom(t, u, 0);
    PaidIsOutputsValue(t.outputs);
    assert t.inputs[0..] == t.inputs;
    if AllClaimed(t, u) {
      forall i | i in t.inputs ensures i.reference in u { ClaimsUnspent(t, i, u); }
      HeldIsInputsValue(u, t.inputs);
    }
    assert (forall m | 0 <= m < |t.inputs| :: Claims(t, t.inputs[m], u)) <==> AllClaimed(t, u);
  }

  lemma ClaimsUnspent(t: Transaction, i: Input, u: Utxo)
    requires Claims(t, i, u)
    ensures i.reference in u
  {
    hide EncTransaction;
  }

  /** What is raised for an input that claims nothing: only a key that the library refuses and a placeholder in the
      place of a signature raise another error than the one that says that the transaction is invalid. */
  ghost function Refusal(t: Transaction, i: Input, u: Utxo): Error {
    if i.reference !in u then ValidateTransactionError
    else if !i.signature.Secp256k1Signature? then NotImplementedError
    else
      match EcdsaVerify(u[i.reference].publicKey.key, i.signature.signature, EncTransaction(Signable(t)))
      case MalformedKey => MalformedPointError
      case _ => ValidateTransactionError
  }

  lemma {:induction false} RefusedFrom(t: Transaction, u: Utxo, from: nat, k: nat)
    requires from <= k < |t.inputs| && !Claims(t, t.inputs[k], u)
    requires forall m | from <= m < k :: Claims(t, t.inputs[m], u)
    ensures ClaimedValue(u, t, from) == Err(Refusal(t, t.inputs[k], u))
    decreases k - from
  {
    hide EncTransaction;
    if from < k {
      RefusedFrom(t, u, from + 1, k);
    }
  }

  /** The first input that claims nothing decides. */
  lemma RefusedExactly(t: Transaction, u: Utxo, k: nat)
    requires k < |t.inputs| && !Claims(t, t.inputs[k], u) && forall m | 0 <= m < k :: Claims(t, t.inputs[m], u)
    ensures NonCoinbaseInUtxo(t, u) == Err(Refusal(t, t.inputs[k], u))
  {
    hide Refusal, Claims, ClaimedValue;
    RefusedFrom(t, u, 0, k);
  }

  /** And when all claim, spending more than they hold raises that one error. */
  lemma OverspendingRefused(t: Transaction, u: Utxo)
    requires AllClaimed(t, u) && Paid(t.outputs) > Held(u, t.inputs)
    ensures NonCoinbaseInUtxo(t, u) == Err(ValidateTransactionError)
  {
    hide Claims, Paid, Held, ClaimedValue;
    ClaimedFrom(t, u, 0);
    SpendExactly(t, u);
  }

  // ----- what a signature signs

  /** Two transactions with the same message to sign have the same references and the same outputs. */
  lemma MessageIsPinned(t: Transaction, t': Transaction)
    requires EncTransaction(Signable(t)) == EncTransaction(Signable(t'))
    ensures |t.inputs| == |t'.inputs| && t.outputs == t'.outputs
    ensures forall k | 0 <= k < |t.inputs| :: t.inputs[k].reference == t'.inputs[k].reference
  {
    hide EncTransaction;
    TransactionEncodingInjective(Signable(t), Signable(t'));
    forall k | 0 <= k < |t.inputs| ensures t.inputs[k].reference == t'.inputs[k].reference {
      assert Signable(t).inputs[k] == Signable(t').inputs[k];
    }
  }

  // ----- on every chain

  /** Whatever is spent on a valid chain is claimed by the key it was paid to. */
  lemma ChainIsSigned(chain: seq<Block>, i: nat, t: Transaction)
    requires ValidChain(chain) && i < |chain| && chain[i].transactions != [] && t in chain[i].transactions[1..]
    ensures Replayed(chain[..i]).Ok? && AllClaimed(t, Replayed(chain[..i]).value)
  {
    hide ValidChain, Replayed, AppliedBlock, AllClaimed, NonCoinbaseInUtxo, GetBlockFees;
    BlockAt(chain, i);
    SpendExactly(t, Replayed(chain[..i]).value);
  }
}

/** Exactly which blocks can be applied to a set of unspent outputs, whatever the hashes. */
module Applying {
  import opened Basics
  import opened Datatypes
  import opened Balances
  import opened Consensus
  import opened BlockEffects

  /** When transaction `k` of the block is reached, `r` can have been there from the start or have been created by an
      earlier transaction of the block. */
  ghost predicate Available(u: Utxo, ts: seq<Transaction>, k: nat, r: OutputReference)
    requires k <= |ts| && AllCountable(ts)
  {
    r in u || exists j | 0 <= j < k :: r in Created(ts[j])
  }

  /** Everything that transaction `k` spends is available to it. */
  ghost predicate Funded(u: Utxo, ts: seq<Transaction>, k: nat)
    requires k < |ts| && AllCountable(ts)
  {
    forall r | r in ReferencesOf(ts[k].inputs) :: Available(u, ts, k, r)
  }

  ghost predicate FundedFrom(u: Utxo, ts: seq<Transaction>, k: nat)
    requires AllCountable(ts)
  {
    forall i | k <= i < |ts| :: Funded(u, ts, i)
  }

  lemma {:induction false} SpentExactly(u: Utxo, ins: seq<Input>)
    requires Distinct(ReferencesOf(ins))
    ensures Spent(u, ins).Ok? <==> forall r | r in ReferencesOf(ins) :: r in u
    decreases |ins|
  {
    if ins != [] {
      var r, rest := ins[0].reference, ReferencesOf(ins[1..]);
      assert ReferencesOf(ins) == [r] + rest;
      DistinctTail(r, rest);
      SpentExactly(u - {r}, ins[1..]);
    }
  }

  lemma OneExactly(u: Utxo, t: Transaction)
    requires Countable(t) && Distinct(ReferencesOf(t.inputs))
    ensures AppliedTransaction(u, t, false).Ok? <==> forall r | r in ReferencesOf(t.inputs) :: r in u
    ensures AppliedTransaction(u, t, false).Ok? ==>
              AppliedTransaction(u, t, false).value == (u - SetOf(ReferencesOf(t.inputs))) + Created(t)
  {
    hide ReferencesOf, Created, Spent, Extended;
    SpentExactly(u, t.inputs);
    if forall r | r in ReferencesOf(t.inputs) :: r in u {
      AppliedOneEffect(u, t);
    }
  }

  /** `v` is what the transactions before number `k` left, as far as the rest of the block is concerned. */
  ghost predicate Prepared(v: Utxo, u: Utxo, ts: seq<Transaction>, k: nat)
    requires k <= |ts| && AllCountable(ts)
  {
    forall r | r in References(ts[k..]) :: r in v <==> Available(u, ts, k, r)
  }

  lemma ReferencesFrom(ts: seq<Transaction>, k: nat)
    requires k < |ts| && Distinct(References(ts[k..]))
    ensures Distinct(ReferencesOf(ts[k].inputs)) && Distinct(References(ts[k + 1..]))
    ensures forall r | r in ReferencesOf(ts[k].inputs) :: r in References(ts[k..]) && r !in References(ts[k + 1..])
    ensures forall r | r in References(ts[k + 1..]) :: r in References(ts[k..])
  {
    assert ts[k..][1..] == ts[k + 1..];
    DistinctParts(ReferencesOf(ts[k].inputs), References(ts[k + 1..]));
  }

  lemma PreparedNext(v: Utxo, u: Utxo, ts: seq<Transaction>, k: nat)
    requires k < |ts| && AllCountable(ts) && Distinct(References(ts[k..])) && Prepared(v, u, ts, k)
    ensures Prepared((v - SetOf(ReferencesOf(ts[k].inputs))) + Created(ts[k]), u, ts, k + 1)
  {
    hide References, ReferencesOf, Created;
    ReferencesFrom(ts, k);
    forall r | r in References(ts[k + 1..])
      ensures r in (v - SetOf(ReferencesOf(ts[k].inputs))) + Created(ts[k]) <==> Available(u, ts, k + 1, r)
    {
      AvailableNext(u, ts, k, r);
    }
  }

  lemma AvailableNext(u: Utxo, ts: seq<Transaction>, k: nat, r: OutputReference)
    requires k < |ts| && AllCountable(ts)
    ensures Available(u, ts, k + 1, r) <==> Available(u, ts, k, r) || r in Created(ts[k])
  {
    hide Created;
  }

  lemma {:induction false} RestExactly(v: Utxo, u: Utxo, ts: seq<Transaction>, k: nat)
    requires k <= |ts| && AllCountable(ts) && Distinct(References(ts[k..])) && Prepared(v, u, ts, k)
    ensures AppliedRest(v, ts[k..]).Ok? <==> FundedFrom(u, ts, k)
    decreases |ts| - k
  {
    hide References, ReferencesOf, Created, Prepared, Available, AppliedTransaction;
    if k < |ts| {
      assert ts[k..][0] == ts[k] && ts[k..][1..] == ts[k + 1..];
      ReferencesFrom(ts, k);
      OneExactly(v, ts[k]);
      FundedHere(v, u, ts, k);
      if AppliedTransaction(v, ts[k], false).Ok? {
        PreparedNext(v, u, ts, k);
        RestExactly(AppliedTransaction(v, ts[k], false).value, u, ts, k + 1);
      }
    }
  }

  lemma FundedHere(v: Utxo, u: Utxo, ts: seq<Transaction>, k: nat)
    requires k < |ts| && AllCountable(ts) && Distinct(References(ts[k..])) && Prepared(v, u, ts, k)
    ensures Funded(u, ts, k) <==> forall r | r in ReferencesOf(ts[k].inputs) :: r in v
  {
    hide References, ReferencesOf, Available;
    ReferencesFrom(ts, k);
  }

  /** A block that uses no reference twice can be applied exactly when each of its spends refers to an output that was
      unspent before the block or is created earlier in it. */
  lemma AppliedExactly(u: Utxo, b: Block)
    requires b.transactions != [] && AllCountable(b.transactions) && Distinct(References(b.transactions[1..]))
    ensures AppliedBlock(u, b).Ok? <==> FundedFrom(u, b.transactions, 1)
  {
    hide References, ReferencesOf, FundedFrom;
    var ts := b.transactions;
    CoinbaseEffect(u, ts[0]);
    var v := (u - {}) + Created(ts[0]);
    forall r | r in References(ts[1..]) ensures r in v <==> Available(u, ts, 1, r) {
    }
    RestExactly(v, u, ts, 1);
  }
}

/** The balance index is a summary of the unspent outputs. */
module BalanceIndex {
  import opened Basics
  import opened Crypto
  import opened Datatypes
  import opened Balances
  import opened Consensus
  import opened Totals
  import opened BlockEffects
  import opened ChainRules
  import opened History

  // ----- the simple definition

  ghost function HeldBy(u: Utxo, k: PublicKey): Utxo {
    map r | r in u && u[r].publicKey == k :: u[r]
  }

  /** What the index says of `k`: the sum of its unspent outputs, and their references, each once. */
  ghost predicate SummarisesKey(p: Index, u: Utxo, k: PublicKey) {
    if k in p then
      && p[k].value == Total(HeldBy(u, k))
      && Distinct(p[k].references)
      && SetOf(p[k].references) == HeldBy(u, k).Keys
    else HeldBy(u, k) == map[]
  }

  ghost predicate Summarises(p: Index, u: Utxo) {
    forall k: PublicKey :: SummarisesKey(p, u, k)
  }

  // ----- one output

  lemma {:induction false} WithoutDistinct(rs: seq<OutputReference>, r: OutputReference)
    requires Distinct(rs)
    ensures Distinct(Without(rs, r))
    decreases |rs|
  {
    if rs != [] {
      assert rs == [rs[0]] + rs[1..];
      DistinctTail(rs[0], rs[1..]);
      WithoutDistinct(rs[1..], r);
    }
  }

  lemma OwnerDebited(p: Index, u: Utxo, r: OutputReference)
    requires r in u && SummarisesKey(p, u, u[r].publicKey)
    ensures var k := u[r].publicKey;
            && k in p
            && SummarisesKey(p[k := PKBalance(p[k].value - u[r].value, Without(p[k].references, r))], u - {r}, k)
  {
    hide Total, HeldBy, Without, SetOf, Distinct;
    var k := u[r].publicKey;
    HeldWithout(u, k, r);
    TotalRemove(HeldBy(u, k), r);
    WithoutDistinct(p[k].references, r);
    SetWithout(p[k].references, r);
  }

  lemma HeldWithout(u: Utxo, k: PublicKey, r: OutputReference)
    requires r in u && u[r].publicKey == k
    ensures r in HeldBy(u, k) && HeldBy(u, k)[r] == u[r]
    ensures HeldBy(u - {r}, k) == HeldBy(u, k) - {r}
  {
  }

  lemma SetWithout(rs: seq<OutputReference>, r: OutputReference)
    ensures SetOf(Without(rs, r)) == SetOf(rs) - {r}
  {
    hide Without;
  }

  lemma DebitKeepsSummary(before: Utxo, p: Index, u: Utxo, r: OutputReference)
    requires Summarises(p, u) && r in u && r in before && before[r] == u[r]
    ensures DebitedOne(before, p, r).Ok? && Summarises(DebitedOne(before, p, r).value, u - {r})
  {
    hide Total, Without;
    var owner := u[r].publicKey;
    OwnerDebited(p, u, r);
    var p', u' := DebitedOne(before, p, r).value, u - {r};
    forall k: PublicKey ensures SummarisesKey(p', u', k) {
      assert SummarisesKey(p, u, k);
      if k != owner {
        assert HeldBy(u - {r}, k) == HeldBy(u, k);
      }
    }
  }

  lemma OwnerCredited(p: Index, u: Utxo, r: OutputReference, o: Output)
    requires r !in u && SummarisesKey(p, u, o.publicKey)
    ensures SummarisesKey(CreditedOne(p, r, o), u[r := o], o.publicKey)
  {
    hide Total;
    var k := o.publicKey;
    var held := if k in p then p[k] else PKBalance(0, []);
    assert HeldBy(u[r := o], k) == HeldBy(u, k)[r := o];
    TotalAdd(HeldBy(u, k), r, o);
    TotalOfNothing();
    assert k !in p ==> HeldBy(u, k).Keys == {};
    assert r !in HeldBy(u, k);
    assert r !in SetOf(held.references);
    assert SetOf(held.references + [r]) == SetOf(held.references) + {r};
  }

  lemma CreditKeepsSummary(p: Index, u: Utxo, r: OutputReference, o: Output)
    requires Summarises(p, u) && r !in u
    ensures Summarises(CreditedOne(p, r, o), u[r := o])
  {
    hide Total;
    assert SummarisesKey(p, u, o.publicKey);
    OwnerCredited(p, u, r, o);
    var p', u' := CreditedOne(p, r, o), u[r := o];
    forall k: PublicKey ensures SummarisesKey(p', u', k) {
      assert SummarisesKey(p, u, k);
      if k != o.publicKey {
        assert HeldBy(u[r := o], k) == HeldBy(u, k);
      }
    }
  }

  // ----- one transaction

  lemma {:induction false} DebitsKeepSummary(before: Utxo, p: Index, u: Utxo, ins: seq<Input>)
    requires Summarises(p, u) && Distinct(ReferencesOf(ins))
    requires forall r | r in ReferencesOf(ins) :: r in u && r in before && before[r] == u[r]
    ensures Debited(before, p, ins).Ok?
    ensures Summarises(Debited(before, p, ins).value, u - SetOf(ReferencesOf(ins)))
    decreases |ins|
  {
    hide Summarises, DebitedOne;
    if ins == [] {
      assert u - SetOf(ReferencesOf(ins)) == u;
    } else {
      var r, rest := ins[0].reference, ReferencesOf(ins[1..]);
      assert ReferencesOf(ins) == [r] + rest;
      DistinctTail(r, rest);
      DebitKeepsSummary(before, p, u, r);
      DebitsKeepSummary(before, DebitedOne(before, p, r).value, u - {r}, ins[1..]);
      assert (u - {r}) - SetOf(rest) == u - SetOf(ReferencesOf(ins));
    }
  }

  lemma {:induction false} CreditsKeepSummary(p: Index, u: Utxo, h: Hash, outs: seq<Output>, i: nat)
    requires Summarises(p, u) && i <= |outs| <= MAX_INDEX + 1
    requires forall r | r in u :: r.hash != h || r.index < i
    ensures Credited(p, h, outs, i).Ok?
    ensures Summarises(Credited(p, h, outs, i).value, u + CreatedFrom(h, outs, i))
    decreases |outs| - i
  {
    hide Summarises, CreditedOne;
    if i == |outs| {
      assert u + CreatedFrom(h, outs, i) == u;
    } else {
      var r := OutputReference(h, i);
      CreditKeepsSummary(p, u, r, outs[i]);
      CreditsKeepSummary(CreditedOne(p, r, outs[i]), u[r := outs[i]], h, outs, i + 1);
      UpdateCommutes(u, CreatedFrom(h, outs, i + 1), r, outs[i]);
    }
  }

  lemma TransactionKeepsSummary(before: Utxo, p: Index, u: Utxo, t: Transaction)
    requires Summarises(p, u) && Countable(t) && Distinct(ReferencesOf(t.inputs))
    requires forall r | r in ReferencesOf(t.inputs) :: r in u && r in before && before[r] == u[r]
    requires forall r | r in u :: r.hash != TransactionHash(t)
    ensures IndexedTransaction(before, p, t, false).Ok?
    ensures Summarises(IndexedTransaction(before, p, t, false).value,
                       (u - SetOf(ReferencesOf(t.inputs))) + Created(t))
  {
    hide Summarises, TransactionHash;
    DebitsKeepSummary(before, p, u, t.inputs);
    CreditsKeepSummary(Debited(before, p, t.inputs).value, u - SetOf(ReferencesOf(t.inputs)),
                       TransactionHash(t), t.outputs, 0);
  }

  // ----- one block

  ghost predicate AgreesOn(before: Utxo, u: Utxo, rs: seq<OutputReference>) {
    forall r | r in rs :: r in before && r in u && before[r] == u[r]
  }

  /** The lookups go to the outputs unspent before the block, which is enough because no reference spent in
      the block was created in it. */
  lemma {:induction false} RestKeepsSummary(before: Utxo, p: Index, u: Utxo, ts: seq<Transaction>)
    requires Summarises(p, u) && AllCountable(ts) && Spendable(u, ts)
    requires AgreesOn(before, u, References(ts))
    requires NewHashes(u, ts) && Distinct(TransactionHashes(ts))
    ensures IndexedRest(before, p, ts).Ok? && AppliedRest(u, ts).Ok?
    ensures Summarises(IndexedRest(before, p, ts).value, AppliedRest(u, ts).value)
    decreases |ts|
  {
    hide Summarises, TransactionHash, IndexedTransaction;
    if ts != [] {
      var t, rest := ts[0], ts[1..];
      SpendableSplit(u, ts);
      assert forall r | r in ReferencesOf(t.inputs) :: r in References(ts);
      TransactionKeepsSummary(before, p, u, t);
      AppliedOneEffect(u, t);
      var u' := (u - SetOf(ReferencesOf(t.inputs))) + Created(t);
      NextIsReady(before, u, u', ts);
      RestKeepsSummary(before, IndexedTransaction(before, p, t, false).value, u', rest);
    }
  }

  lemma TailStaysNew(u: Utxo, u': Utxo, ts: seq<Transaction>)
    requires ts != [] && NewHashes(u, ts) && Distinct(TransactionHashes(ts))
    requires forall r | r in u' :: r in u || r.hash == TransactionHash(ts[0])
    ensures NewHashes(u', ts[1..]) && Distinct(TransactionHashes(ts[1..]))
  {
    hide TransactionHash;
    var rest, hs := ts[1..], TransactionHashes(ts);
    assert forall k | 0 <= k < |rest| :: TransactionHashes(rest)[k] == hs[k + 1];
    forall t, r | t in rest && r in u' ensures r.hash != TransactionHash(t) {
      var k :| 0 <= k < |rest| && rest[k] == t;
      assert t in ts && hs[k + 1] == TransactionHash(t) && hs[0] == TransactionHash(ts[0]);
    }
  }

  lemma NextIsReady(before: Utxo, u: Utxo, u': Utxo, ts: seq<Transaction>)
    requires ts != [] && AllCountable(ts) && Spendable(u, ts) && AgreesOn(before, u, References(ts))
    requires NewHashes(u, ts) && Distinct(TransactionHashes(ts))
    requires u' == (u - SetOf(ReferencesOf(ts[0].inputs))) + Created(ts[0])
    ensures Spendable(u', ts[1..]) && AgreesOn(before, u', References(ts[1..]))
    ensures NewHashes(u', ts[1..]) && Distinct(TransactionHashes(ts[1..]))
  {
    hide TransactionHash, TransactionHashes, NewHashes;
    SpendableSplit(u, ts);
    forall r | r in References(ts[1..]) ensures r in u' && u'[r] == u[r] && r in before && before[r] == u[r] {
      assert r in References(ts);
      ReferenceIsOld(u, ts, r);
    }
    TailStaysNew(u, u', ts);
  }

  lemma ReferenceIsOld(u: Utxo, ts: seq<Transaction>, r: OutputReference)
    requires ts != [] && NewHashes(u, ts) && r in u
    ensures r.hash != TransactionHash(ts[0])
  {
    hide TransactionHash;
    assert ts[0] in ts;
  }

  lemma BlockKeepsSummary(p: Index, u: Utxo, b: Block)
    requires Summarises(p, u) && b.transactions != [] && AllCountable(b.transactions)
    requires Spendable(u, b.transactions[1..])
    requires NewHashes(u, b.transactions) && Distinct(TransactionHashes(b.transactions))
    ensures IndexedBlock(u, p, b).Ok? && AppliedBlock(u, b).Ok?
    ensures Summarises(IndexedBlock(u, p, b).value, AppliedBlock(u, b).value)
  {
    hide Summarises, TransactionHash;
    var coinbase, others := b.transactions[0], b.transactions[1..];
    assert coinbase in b.transactions;
    CreditsKeepSummary(p, u, TransactionHash(coinbase), coinbase.outputs, 0);
    CoinbaseEffect(u, coinbase);
    assert u - {} == u;
    var u' := u + Created(coinbase);
    CoinbaseLeavesReady(u, u', b.transactions);
    RestKeepsSummary(u, IndexedTransaction(u, p, coinbase, true).value, u', others);
  }

  lemma CoinbaseLeavesReady(u: Utxo, u': Utxo, ts: seq<Transaction>)
    requires ts != [] && AllCountable(ts) && Spendable(u, ts[1..])
    requires NewHashes(u, ts) && Distinct(TransactionHashes(ts))
    requires u' == u + Created(ts[0])
    ensures Spendable(u', ts[1..]) && AgreesOn(u, u', References(ts[1..]))
    ensures NewHashes(u', ts[1..]) && Distinct(TransactionHashes(ts[1..]))
  {
    hide TransactionHash;
    var rest, hs := ts[1..], TransactionHashes(ts);
    assert ts[0] in ts;
    assert forall k | 0 <= k < |rest| :: TransactionHashes(rest)[k] == hs[k + 1];
    forall t, r | t in rest && r in u' ensures r.hash != TransactionHash(t) {
      var k :| 0 <= k < |rest| && rest[k] == t;
      assert t in ts && hs[k + 1] == TransactionHash(t) && hs[0] == TransactionHash(ts[0]);
    }
  }

  // ----- a whole chain

  lemma BlockOnChainKeepsSummary(chain: seq<Block>, b: Block, p: Index, u: Utxo)
    requires Summarises(p, u) && Remembered(chain, u)
    requires NoCollision(chain + [b]) && TransactionsOk(u, |chain|, b.transactions)
    ensures IndexedBlock(u, p, b).Ok? && AppliedBlock(u, b).Ok?
    ensures Summarises(IndexedBlock(u, p, b).value, AppliedBlock(u, b).value)
  {
    hide Summarises, Remembered, NoCollision, TransactionHash, IndexedBlock, AppliedBlock, NonCoinbaseInUtxo,
      GetBlockFees;
    StepRemembers(chain, b, u);
    DistinctInBlock(chain, b, u);
    BlockKeepsSummary(p, u, b);
  }

  lemma ReplayedIndexStep(chain: seq<Block>, p: Index, u: Utxo)
    requires chain != [] && ReplayedIndex(chain[..|chain| - 1]) == Ok((p, u))
    requires IndexedBlock(u, p, chain[|chain| - 1]).Ok? && AppliedBlock(u, chain[|chain| - 1]).Ok?
    ensures ReplayedIndex(chain) ==
            Ok((IndexedBlock(u, p, chain[|chain| - 1]).value, AppliedBlock(u, chain[|chain| - 1]).value))
  {
    hide IndexedBlock, AppliedBlock;
  }

  lemma {:induction false} ChainSummary(chain: seq<Block>)
    requires ValidChain(chain) && NoCollision(chain)
    ensures ReplayedIndex(chain).Ok? && Replayed(chain) == Ok(ReplayedIndex(chain).value.1)
    ensures Summarises(ReplayedIndex(chain).value.0, ReplayedIndex(chain).value.1)
    decreases |chain|
  {
    hide Summarises, Remembered, NoCollision, IndexedBlock, AppliedBlock, TransactionsOk, ReplayedIndex, Replayed;
    var before, b := chain[..|chain| - 1], chain[|chain| - 1];
    assert chain == before + [b];
    LastBlockOk(chain);
    PrefixNoCollision(chain, |chain| - 1);
    if before == [] {
      NothingSummarised();
      NothingRemembered();
    } else {
      ChainSummary(before);
      ChainRemembers(before);
    }
    var (p, u) := ReplayedIndex(before).value;
    BlockOnChainKeepsSummary(before, b, p, u);
    ReplayedIndexStep(chain, p, u);
  }

  lemma NothingSummarised()
    ensures ReplayedIndex([]) == Ok((map[], map[])) && Replayed([]) == Ok(map[])
    ensures Summarises(map[], map[])
  {
    forall k: PublicKey ensures SummarisesKey(map[], map[], k) {
      assert HeldBy(map[], k) == map[];
    }
  }
}

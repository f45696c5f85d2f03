/** The balance index lists the references of a key in the order in which the chain created them. */
module IndexOrder {
  import opened Basics
  import opened Crypto
  import opened Datatypes
  import opened Balances
  import opened Consensus
  import opened BlockEffects
  import opened ChainRules
  import opened History
  import opened BalanceIndex

  // ----- what is created, in order, and what of it a key still holds

  /** The references of the outputs from number `i` on. */
  ghost function MadeFrom(h: Hash, outs: seq<Output>, i: nat): seq<OutputReference>
    requires i <= |outs|
    decreases |outs| - i
  {
    if i == |outs| || i > MAX_INDEX then [] else [OutputReference(h, i)] + MadeFrom(h, outs, i + 1)
  }

  ghost function MadeBy(ts: seq<Transaction>): seq<OutputReference> {
    if ts == [] then [] else MadeFrom(TransactionHash(ts[0]), ts[0].outputs, 0) + MadeBy(ts[1..])
  }

  ghost predicate IsHeld(u: Utxo, k: PublicKey, r: OutputReference) {
    r in u && u[r].publicKey == k
  }

  /** Those that are unspent and paid to `k`. */
  ghost function Kept(made: seq<OutputReference>, u: Utxo, k: PublicKey): seq<OutputReference> {
    if made == [] then []
    else Kept(made[..|made| - 1], u, k) + if IsHeld(u, k, made[|made| - 1]) then [made[|made| - 1]] else []
  }

  ghost function Listed(p: Index, k: PublicKey): seq<OutputReference> {
    if k in p then p[k].references else []
  }

  ghost predicate Ordered(p: Index, u: Utxo, made: seq<OutputReference>) {
    forall k: PublicKey :: Listed(p, k) == Kept(made, u, k)
  }

  lemma {:induction false} KeptSame(made: seq<OutputReference>, u: Utxo, u': Utxo, k: PublicKey)
    requires forall r | r in made :: IsHeld(u, k, r) <==> IsHeld(u', k, r)
    ensures Kept(made, u, k) == Kept(made, u', k)
    decreases |made|
  {
    hide IsHeld;
    if made != [] {
      KeptSame(made[..|made| - 1], u, u', k);
    }
  }

  lemma {:induction false} WithoutAppend(rs: seq<OutputReference>, last: seq<OutputReference>, r: OutputReference)
    ensures Without(rs + last, r) == Without(rs, r) + Without(last, r)
    decreases |rs|
  {
    if rs == [] {
      assert rs + last == last;
    } else {
      WithoutAppend(rs[1..], last, r);
      assert (rs + last)[1..] == rs[1..] + last;
    }
  }

  lemma {:induction false} KeptWithout(made: seq<OutputReference>, u: Utxo, k: PublicKey, r: OutputReference)
    ensures Kept(made, u - {r}, k) == Without(Kept(made, u, k), r)
    decreases |made|
  {
    if made != [] {
      var front, last := made[..|made| - 1], made[|made| - 1];
      KeptWithout(front, u, k, r);
      var tail := if IsHeld(u, k, last) then [last] else [];
      WithoutAppend(Kept(front, u, k), tail, r);
      assert tail != [] ==> tail[1..] == [];
      assert Without(tail, r) == if IsHeld(u - {r}, k, last) then [last] else [];
    }
  }

  lemma KeptNext(made: seq<OutputReference>, u: Utxo, k: PublicKey, r: OutputReference)
    ensures Kept(made + [r], u, k) == Kept(made, u, k) + if IsHeld(u, k, r) then [r] else []
  {
    assert (made + [r])[..|made|] == made;
  }

  // ----- one output

  lemma DebitKeepsOrder(before: Utxo, p: Index, u: Utxo, made: seq<OutputReference>, r: OutputReference)
    requires Ordered(p, u, made) && r in u && r in before && before[r] == u[r] && DebitedOne(before, p, r).Ok?
    ensures Ordered(DebitedOne(before, p, r).value, u - {r}, made)
  {
    hide Without, Kept;
    var p' := DebitedOne(before, p, r).value;
    forall k: PublicKey ensures Listed(p', k) == Kept(made, u - {r}, k) {
      assert Listed(p, k) == Kept(made, u, k);
      KeptWithout(made, u, k, r);
      if k != u[r].publicKey {
        KeptSame(made, u, u - {r}, k);
      }
    }
  }

  lemma CreditKeepsOrder(p: Index, u: Utxo, made: seq<OutputReference>, r: OutputReference, o: Output)
    requires Ordered(p, u, made) && r !in made
    ensures Ordered(CreditedOne(p, r, o), u[r := o], made + [r])
  {
    hide Kept;
    var p', u' := CreditedOne(p, r, o), u[r := o];
    forall k: PublicKey ensures Listed(p', k) == Kept(made + [r], u', k) {
      assert Listed(p, k) == Kept(made, u, k);
      KeptSame(made, u, u', k);
      KeptNext(made, u', k, r);
    }
  }

  // ----- one transaction

  lemma {:induction false} DebitsKeepOrder(
    before: Utxo, p: Index, u: Utxo, made: seq<OutputReference>, ins: seq<Input>)
    requires Ordered(p, u, made) && Distinct(ReferencesOf(ins)) && Debited(before, p, ins).Ok?
    requires forall r | r in ReferencesOf(ins) :: r in u && r in before && before[r] == u[r]
    ensures Ordered(Debited(before, p, ins).value, u - SetOf(ReferencesOf(ins)), made)
    decreases |ins|
  {
    hide Ordered, DebitedOne;
    if ins == [] {
      assert u - SetOf(ReferencesOf(ins)) == u;
    } else {
      var r, rest := ins[0].reference, ReferencesOf(ins[1..]);
      assert ReferencesOf(ins) == [r] + rest;
      DistinctTail(r, rest);
      DebitKeepsOrder(before, p, u, made, r);
      DebitsKeepOrder(before, DebitedOne(before, p, r).value, u - {r}, made, ins[1..]);
      assert (u - {r}) - SetOf(rest) == u - SetOf(ReferencesOf(ins));
    }
  }

  lemma {:induction false} CreditsKeepOrder(
    p: Index, u: Utxo, made: seq<OutputReference>, h: Hash, outs: seq<Output>, i: nat)
    requires Ordered(p, u, made) && i <= |outs| <= MAX_INDEX + 1 && Credited(p, h, outs, i).Ok?
    requires forall r | r in made :: r.hash != h || r.index < i
    ensures Ordered(Credited(p, h, outs, i).value, u + CreatedFrom(h, outs, i), made + MadeFrom(h, outs, i))
    decreases |outs| - i
  {
    hide Ordered, CreditedOne, CreatedFrom, MadeFrom;
    CreatedStep(u, made, h, outs, i);
    if i < |outs| {
      var r := OutputReference(h, i);
      CreditKeepsOrder(p, u, made, r, outs[i]);
      CreditsKeepOrder(CreditedOne(p, r, outs[i]), u[r := outs[i]], made + [r], h, outs, i + 1);
    }
  }

  lemma CreatedStep(u: Utxo, made: seq<OutputReference>, h: Hash, outs: seq<Output>, i: nat)
    requires i <= |outs| <= MAX_INDEX + 1
    ensures i == |outs| ==> u + CreatedFrom(h, outs, i) == u && made + MadeFrom(h, outs, i) == made
    ensures i < |outs| ==>
              var r := OutputReference(h, i);
              && u[r := outs[i]] + CreatedFrom(h, outs, i + 1) == u + CreatedFrom(h, outs, i)
              && (made + [r]) + MadeFrom(h, outs, i + 1) == made + MadeFrom(h, outs, i)
  {
    if i < |outs| {
      UpdateCommutes(u, CreatedFrom(h, outs, i + 1), OutputReference(h, i), outs[i]);
    }
  }

  /** None of these references names one of these transactions. */
  ghost predicate NotYetMade(made: seq<OutputReference>, ts: seq<Transaction>) {
    forall r, t | r in made && t in ts :: r.hash != TransactionHash(t)
  }

  lemma TransactionKeepsOrder(before: Utxo, p: Index, u: Utxo, made: seq<OutputReference>, t: Transaction)
    requires Ordered(p, u, made) && Countable(t) && Distinct(ReferencesOf(t.inputs))
    requires IndexedTransaction(before, p, t, false).Ok? && NotYetMade(made, [t])
    requires forall r | r in ReferencesOf(t.inputs) :: r in u && r in before && before[r] == u[r]
    ensures Ordered(IndexedTransaction(before, p, t, false).value,
                    (u - SetOf(ReferencesOf(t.inputs))) + Created(t), made + MadeFrom(TransactionHash(t), t.outputs, 0))
  {
    hide Ordered, TransactionHash;
    assert t in [t];
    DebitsKeepOrder(before, p, u, made, t.inputs);
    CreditsKeepOrder(Debited(before, p, t.inputs).value, u - SetOf(ReferencesOf(t.inputs)), made,
                     TransactionHash(t), t.outputs, 0);
  }

  // ----- one block

  lemma {:induction false} MadeHere(h: Hash, outs: seq<Output>, i: nat)
    requires i <= |outs|
    ensures forall r | r in MadeFrom(h, outs, i) :: r.hash == h
    decreases |outs| - i
  {
    if i < |outs| && i <= MAX_INDEX {
      MadeHere(h, outs, i + 1);
    }
  }

  lemma NextNotYetMade(made: seq<OutputReference>, ts: seq<Transaction>)
    requires ts != [] && NotYetMade(made, ts) && Distinct(TransactionHashes(ts))
    ensures NotYetMade(made, [ts[0]])
    ensures NotYetMade(made + MadeFrom(TransactionHash(ts[0]), ts[0].outputs, 0), ts[1..])
  {
    hide TransactionHash, MadeFrom;
    MadeHere(TransactionHash(ts[0]), ts[0].outputs, 0);
    var hs := TransactionHashes(ts);
    assert ts[0] in ts;
    forall t | t in ts[1..] ensures t in ts && TransactionHash(t) != TransactionHash(ts[0]) {
      var k :| 0 <= k < |ts| - 1 && ts[1..][k] == t;
      assert hs[k + 1] == TransactionHash(t) && hs[0] == TransactionHash(ts[0]);
    }
  }

  lemma {:induction false} RestKeepsOrder(
    before: Utxo, p: Index, u: Utxo, made: seq<OutputReference>, ts: seq<Transaction>)
    requires Ordered(p, u, made) && AllCountable(ts) && Spendable(u, ts) && AgreesOn(before, u, References(ts))
    requires NewHashes(u, ts) && Distinct(TransactionHashes(ts)) && NotYetMade(made, ts)
    requires IndexedRest(before, p, ts).Ok? && AppliedRest(u, ts).Ok?
    ensures Ordered(IndexedRest(before, p, ts).value, AppliedRest(u, ts).value, made + MadeBy(ts))
    decreases |ts|
  {
    hide Ordered, TransactionHash, IndexedTransaction, NotYetMade, MadeFrom;
    if ts == [] {
      assert made + MadeBy(ts) == made;
    } else {
      var t, rest := ts[0], ts[1..];
      SpendableSplit(u, ts);
      assert forall r | r in ReferencesOf(t.inputs) :: r in References(ts);
      NextNotYetMade(made, ts);
      TransactionKeepsOrder(before, p, u, made, t);
      AppliedOneEffect(u, t);
      var u' := (u - SetOf(ReferencesOf(t.inputs))) + Created(t);
      NextIsReady(before, u, u', ts);
      var here := MadeFrom(TransactionHash(t), t.outputs, 0);
      RestKeepsOrder(before, IndexedTransaction(before, p, t, false).value, u', made + here, rest);
      assert (made + here) + MadeBy(rest) == made + MadeBy(ts);
    }
  }

  lemma BlockKeepsOrder(p: Index, u: Utxo, made: seq<OutputReference>, b: Block)
    requires Ordered(p, u, made) && b.transactions != [] && AllCountable(b.transactions)
    requires Spendable(u, b.transactions[1..]) && NewHashes(u, b.transactions)
    requires Distinct(TransactionHashes(b.transactions)) && NotYetMade(made, b.transactions)
    requires IndexedBlock(u, p, b).Ok? && AppliedBlock(u, b).Ok?
    ensures Ordered(IndexedBlock(u, p, b).value, AppliedBlock(u, b).value, made + MadeBy(b.transactions))
  {
    hide Ordered, TransactionHash, MadeFrom, NotYetMade;
    var coinbase, others := b.transactions[0], b.transactions[1..];
    assert coinbase in b.transactions;
    NextNotYetMade(made, b.transactions);
    NewHere(made, coinbase);
    CreditsKeepOrder(p, u, made, TransactionHash(coinbase), coinbase.outputs, 0);
    CoinbaseEffect(u, coinbase);
    assert u - {} == u;
    var u', here := u + Created(coinbase), MadeFrom(TransactionHash(coinbase), coinbase.outputs, 0);
    CoinbaseLeavesReady(u, u', b.transactions);
    RestKeepsOrder(u, IndexedTransaction(u, p, coinbase, true).value, u', made + here, others);
    assert (made + here) + MadeBy(others) == made + MadeBy(b.transactions);
  }

  lemma NewHere(made: seq<OutputReference>, t: Transaction)
    requires NotYetMade(made, [t])
    ensures Countable(t) ==> forall r | r in made :: r.hash != TransactionHash(t)
  {
    hide TransactionHash;
    assert t in [t];
  }

  // ----- a whole chain

  lemma {:induction false} MadeByAppend(xs: seq<Transaction>, ys: seq<Transaction>)
    ensures MadeBy(xs + ys) == MadeBy(xs) + MadeBy(ys)
    decreases |xs|
  {
    hide TransactionHash, MadeFrom;
    if xs == [] {
      assert xs + ys == ys;
    } else {
      MadeByAppend(xs[1..], ys);
      assert (xs + ys)[1..] == xs[1..] + ys;
    }
  }

  lemma {:induction false} MadeByThem(ts: seq<Transaction>)
    ensures forall r | r in MadeBy(ts) :: r.hash in HashesOf(ts)
    decreases |ts|
  {
    hide TransactionHash, MadeFrom;
    if ts != [] {
      MadeHere(TransactionHash(ts[0]), ts[0].outputs, 0);
      MadeByThem(ts[1..]);
      assert ts[0] in ts;
    }
  }

  lemma {:induction false} BlockOnChainKeepsOrder(chain: seq<Block>, b: Block, p: Index, u: Utxo)
    requires Ordered(p, u, MadeBy(AllTransactions(chain))) && Remembered(chain, u)
    requires NoCollision(chain + [b]) && TransactionsOk(u, |chain|, b.transactions)
    requires IndexedBlock(u, p, b).Ok? && AppliedBlock(u, b).Ok?
    ensures Ordered(IndexedBlock(u, p, b).value, AppliedBlock(u, b).value, MadeBy(AllTransactions(chain + [b])))
  {
    hide Ordered, NoCollision, TransactionHash, IndexedBlock, AppliedBlock, NonCoinbaseInUtxo, GetBlockFees, MadeBy;
    BlockIsNew(chain, b, u);
    DistinctInBlock(chain, b, u);
    MadeByThem(AllTransactions(chain));
    BlockKeepsOrder(p, u, MadeBy(AllTransactions(chain)), b);
    assert (chain + [b])[..|chain|] == chain;
    MadeByAppend(AllTransactions(chain), b.transactions);
  }

  /** Along every valid chain, the index lists under each key exactly the unspent references that the chain created for
      it, in the order of their creation. */
  lemma {:induction false} ChainOrder(chain: seq<Block>)
    requires ValidChain(chain) && NoCollision(chain)
    ensures ReplayedIndex(chain).Ok?
    ensures Ordered(ReplayedIndex(chain).value.0, ReplayedIndex(chain).value.1, MadeBy(AllTransactions(chain)))
    decreases |chain|
  {
    hide Ordered, Summarises, Remembered, NoCollision, IndexedBlock, AppliedBlock, TransactionsOk, ReplayedIndex,
      Replayed, MadeBy;
    var before, b := chain[..|chain| - 1], chain[|chain| - 1];
    assert chain == before + [b];
    LastBlockOk(chain);
    PrefixNoCollision(chain, |chain| - 1);
    if before == [] {
      NothingSummarised();
      NothingRemembered();
      NothingOrdered();
    } else {
      ChainSummary(before);
      ChainRemembers(before);
      ChainOrder(before);
    }
    var (p, u) := ReplayedIndex(before).value;
    BlockOnChainKeepsSummary(before, b, p, u);
    BlockOnChainKeepsOrder(before, b, p, u);
    ReplayedIndexStep(chain, p, u);
  }

  lemma NothingOrdered()
    ensures Ordered(map[], map[], MadeBy(AllTransactions([])))
  {
  }
}

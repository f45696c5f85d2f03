/** What applying a block does to the unspent outputs, as one map expression and as a balance of values. */
module BlockEffects {
  import opened Basics
  import opened Crypto
  import opened Datatypes
  import opened Balances
  import opened Consensus
  import opened Totals

  // ----- the references a block consumes and creates

  ghost function SetOf<T>(xs: seq<T>): set<T> {
    set x | x in xs
  }

  /** The outputs of a transaction from number `i` on, under their references. */
  ghost function CreatedFrom(h: Hash, outs: seq<Output>, i: nat): (m: Utxo)
    requires i <= |outs| <= MAX_INDEX + 1
    ensures forall r :: r in m <==> r.hash == h && i <= r.index < |outs|
    ensures forall r | r in m :: m[r] == outs[r.index]
    decreases |outs| - i
  {
    if i == |outs| then map[] else CreatedFrom(h, outs, i + 1)[OutputReference(h, i) := outs[i]]
  }

  ghost predicate Countable(t: Transaction) {
    |t.outputs| <= MAX_INDEX + 1
  }

  ghost predicate AllCountable(ts: seq<Transaction>) {
    forall t | t in ts :: Countable(t)
  }

  ghost function Created(t: Transaction): Utxo
    requires Countable(t)
  {
    CreatedFrom(TransactionHash(t), t.outputs, 0)
  }

  ghost function CreatedAll(ts: seq<Transaction>): (m: Utxo)
    requires AllCountable(ts)
    ensures forall r | r in m :: exists t | t in ts :: r.hash == TransactionHash(t)
  {
    if ts == [] then map[] else Created(ts[0]) + CreatedAll(ts[1..])
  }

  lemma DistinctTail<T>(x: T, rest: seq<T>)
    requires Distinct([x] + rest)
    ensures Distinct(rest) && x !in rest
  {
    DistinctParts([x], rest);
    assert x in [x];
  }

  lemma UpdateCommutes(u: Utxo, c: Utxo, r: OutputReference, o: Output)
    requires r !in c
    ensures u[r := o] + c == u + c[r := o]
  {
  }

  lemma SpendThenCreate(u: Utxo, first: set<OutputReference>, c0: Utxo, second: set<OutputReference>, c1: Utxo)
    requires forall r | r in second :: r !in c0
    ensures (((u - first) + c0) - second) + c1 == (u - (first + second)) + (c0 + c1)
  {
  }

  lemma {:induction false} SpentEffect(u: Utxo, ins: seq<Input>)
    requires Distinct(ReferencesOf(ins)) && forall r | r in ReferencesOf(ins) :: r in u
    ensures Spent(u, ins) == Ok(u - SetOf(ReferencesOf(ins)))
    decreases |ins|
  {
    if ins == [] {
      assert u - SetOf(ReferencesOf(ins)) == u;
    } else {
      var r, rest := ins[0].reference, ReferencesOf(ins[1..]);
      assert ReferencesOf(ins) == [r] + rest;
      DistinctTail(r, rest);
      SpentEffect(u - {r}, ins[1..]);
      assert (u - {r}) - SetOf(rest) == u - SetOf(ReferencesOf(ins));
    }
  }

  lemma {:induction false} ExtendedEffect(u: Utxo, h: Hash, outs: seq<Output>, i: nat)
    requires i <= |outs| <= MAX_INDEX + 1
    ensures Extended(u, h, outs, i) == Ok(u + CreatedFrom(h, outs, i))
    decreases |outs| - i
  {
    if i < |outs| {
      var u' := u[OutputReference(h, i) := outs[i]];
      ExtendedEffect(u', h, outs, i + 1);
      UpdateCommutes(u, CreatedFrom(h, outs, i + 1), OutputReference(h, i), outs[i]);
    } else {
      assert u + CreatedFrom(h, outs, i) == u;
    }
  }

  // ----- the conditions under which a block applies cleanly

  /** Every reference of the transactions is unspent, and none is used twice. */
  ghost predicate Spendable(u: Utxo, ts: seq<Transaction>) {
    Distinct(References(ts)) && forall r | r in References(ts) :: r in u
  }

  lemma DistinctParts<T>(xs: seq<T>, ys: seq<T>)
    requires Distinct(xs + ys)
    ensures Distinct(xs) && Distinct(ys) && forall x | x in xs :: x !in ys
  {
    var all := xs + ys;
    assert forall k | 0 <= k < |xs| :: xs[k] == all[k];
    assert forall k | 0 <= k < |ys| :: ys[k] == all[|xs| + k];
  }

  lemma DistinctJoin<T>(xs: seq<T>, ys: seq<T>)
    requires Distinct(xs) && Distinct(ys) && forall x | x in xs :: x !in ys
    ensures Distinct(xs + ys)
  {
    var all := xs + ys;
    assert forall k | |xs| <= k < |all| :: all[k] == ys[k - |xs|] && all[k] in ys;
    assert forall k | 0 <= k < |xs| :: all[k] == xs[k] && all[k] in xs;
  }

  lemma SpendableSplit(u: Utxo, ts: seq<Transaction>)
    requires ts != [] && Spendable(u, ts)
    ensures Distinct(ReferencesOf(ts[0].inputs)) && forall r | r in ReferencesOf(ts[0].inputs) :: r in u
    ensures Spendable(u - SetOf(ReferencesOf(ts[0].inputs)), ts[1..])
    ensures SetOf(References(ts)) == SetOf(ReferencesOf(ts[0].inputs)) + SetOf(References(ts[1..]))
  {
    DistinctParts(ReferencesOf(ts[0].inputs), References(ts[1..]));
    forall r | r in References(ts[1..]) ensures r in References(ts) && r !in ReferencesOf(ts[0].inputs) {
    }
  }

  ghost predicate NewHashes(u: Utxo, ts: seq<Transaction>) {
    forall t, r | t in ts && r in u :: r.hash != TransactionHash(t)
  }

  lemma AppliedOneEffect(u: Utxo, t: Transaction)
    requires Countable(t)
    requires Distinct(ReferencesOf(t.inputs)) && forall r | r in ReferencesOf(t.inputs) :: r in u
    ensures AppliedTransaction(u, t, false) == Ok((u - SetOf(ReferencesOf(t.inputs))) + Created(t))
  {
    SpentEffect(u, t.inputs);
    ExtendedEffect(u - SetOf(ReferencesOf(t.inputs)), TransactionHash(t), t.outputs, 0);
  }

  lemma {:induction false} AppliedRestEffect(u: Utxo, ts: seq<Transaction>)
    requires AllCountable(ts) && Spendable(u, ts)
    requires forall t, r | t in ts && r in References(ts) :: r.hash != TransactionHash(t)
    ensures AppliedRest(u, ts) == Ok((u - SetOf(References(ts))) + CreatedAll(ts))
    decreases |ts|
  {
    if ts == [] {
      assert (u - SetOf(References(ts))) + CreatedAll(ts) == u;
    } else {
      var here, rest := SetOf(ReferencesOf(ts[0].inputs)), SetOf(References(ts[1..]));
      SpendableSplit(u, ts);
      AppliedOneEffect(u, ts[0]);
      assert forall r | r in References(ts[1..]) :: r in References(ts);
      var next := (u - here) + Created(ts[0]);
      assert Spendable(next, ts[1..]);
      AppliedRestEffect(next, ts[1..]);
      SpendThenCreate(u, here, Created(ts[0]), rest, CreatedAll(ts[1..]));
    }
  }

  /** With new hashes, a block takes away exactly what it spends and adds exactly what it creates. */
  lemma AppliedBlockEffect(u: Utxo, b: Block)
    requires b.transactions != [] && AllCountable(b.transactions)
    requires Spendable(u, b.transactions[1..]) && NewHashes(u, b.transactions)
    ensures AppliedBlock(u, b) == Ok((u - SetOf(References(b.transactions[1..]))) + CreatedAll(b.transactions))
  {
    var coinbase, others := b.transactions[0], b.transactions[1..];
    var rs := References(others);
    CoinbaseEffect(u, coinbase);
    forall t, r | t in others && r in rs ensures r.hash != TransactionHash(t) {
      assert t in b.transactions && r in u;
    }
    var next := (u - {}) + Created(coinbase);
    assert Spendable(next, others);
    AppliedRestEffect(next, others);
    assert {} + SetOf(rs) == SetOf(rs);
    forall r | r in rs ensures r !in Created(coinbase) {
      assert coinbase in b.transactions && r in u;
    }
    SpendThenCreate(u, {}, Created(coinbase), SetOf(rs), CreatedAll(others));
  }

  lemma CoinbaseEffect(u: Utxo, t: Transaction)
    requires Countable(t)
    ensures AppliedTransaction(u, t, true) == Ok((u - {}) + Created(t))
  {
    ExtendedEffect(u, TransactionHash(t), t.outputs, 0);
    assert u - {} == u;
  }

  /** Spending what is there, once, never fails, whatever the hashes. */
  lemma {:induction false} AppliedRestSucceeds(u: Utxo, ts: seq<Transaction>)
    requires AllCountable(ts) && Spendable(u, ts)
    ensures AppliedRest(u, ts).Ok?
    decreases |ts|
  {
    if ts != [] {
      SpendableSplit(u, ts);
      AppliedOneEffect(u, ts[0]);
      AppliedRestSucceeds((u - SetOf(ReferencesOf(ts[0].inputs))) + Created(ts[0]), ts[1..]);
    }
  }

  lemma AppliedBlockSucceeds(u: Utxo, b: Block)
    requires b.transactions != [] && AllCountable(b.transactions)
    requires Spendable(u, b.transactions[1..])
    ensures AppliedBlock(u, b).Ok?
  {
    var coinbase := b.transactions[0];
    assert Countable(coinbase);
    CoinbaseEffect(u, coinbase);
    AppliedRestSucceeds((u - {}) + Created(coinbase), b.transactions[1..]);
  }

  // ----- the balance of values, whatever the hashes

  /** `current` is what is left over of `base`, except on the references `novel`, which hold at most `made`. */
  ghost predicate Accounted(current: Utxo, base: Utxo, novel: set<OutputReference>, made: nat) {
    current - novel == base - novel && Total(Only(current, novel)) <= made
  }

  lemma AccountedTotal(current: Utxo, base: Utxo, novel: set<OutputReference>, made: nat)
    requires Accounted(current, base, novel, made)
    ensures Total(current) <= Total(base) + made
  {
    TotalSplit(current, novel);
    TotalMonotone(base, novel);
  }

  lemma AccountSpend(current: Utxo, base: Utxo, novel: set<OutputReference>, made: nat, r: OutputReference)
    requires Accounted(current, base, novel, made)
    ensures Accounted(current - {r}, base - {r}, novel, made)
  {
    assert (current - {r}) - novel == (current - novel) - {r};
    assert (base - {r}) - novel == (base - novel) - {r};
    assert Only(current - {r}, novel) == Only(current, novel) - {r};
    TotalMonotone(Only(current, novel), {r});
  }

  lemma AccountCreate(current: Utxo, base: Utxo, novel: set<OutputReference>, made: nat, r: OutputReference, o: Output)
    requires Accounted(current, base, novel, made)
    ensures Accounted(current[r := o], base, novel + {r}, made + o.value)
  {
    assert current[r := o] - (novel + {r}) == (current - novel) - {r};
    assert base - (novel + {r}) == (base - novel) - {r};
    assert Only(current[r := o], novel + {r}) == Only(current, novel)[r := o];
    TotalAdd(Only(current, novel), r, o);
  }

  lemma {:induction false} SpentAccounted(
    current: Utxo, base: Utxo, novel: set<OutputReference>, made: nat, u: Utxo, ins: seq<Input>)
    returns (left: Utxo)
    requires Accounted(current, base, novel, made) && Spent(current, ins).Ok?
    requires Distinct(ReferencesOf(ins)) && forall r | r in ReferencesOf(ins) :: r in base
    requires forall r | r in base :: r in u && u[r] == base[r]
    ensures left == base - SetOf(ReferencesOf(ins))
    ensures Accounted(Spent(current, ins).value, left, novel, made)
    ensures InputsValue(u, ins).Ok? && Total(left) == Total(base) - InputsValue(u, ins).value
    decreases |ins|
  {
    left := base;
    if ins != [] {
      var r := ins[0].reference;
      var all, rest := ReferencesOf(ins), ReferencesOf(ins[1..]);
      assert all == [r] + rest;
      DistinctTail(r, rest);
      AccountSpend(current, base, novel, made, r);
      TotalRemove(base, r);
      left := SpentAccounted(current - {r}, base - {r}, novel, made, u, ins[1..]);
      assert (base - {r}) - SetOf(rest) == base - SetOf(all);
    } else {
      assert base - SetOf(ReferencesOf(ins)) == base;
    }
  }

  lemma {:induction false} ExtendedAccounted(
    current: Utxo, base: Utxo, novel: set<OutputReference>, made: nat, h: Hash, outs: seq<Output>, i: nat)
    returns (novel': set<OutputReference>)
    requires i <= |outs| && Accounted(current, base, novel, made) && Extended(current, h, outs, i).Ok?
    ensures Accounted(Extended(current, h, outs, i).value, base, novel', made + OutputsValue(outs[i..]))
    decreases |outs| - i
  {
    novel' := novel;
    if i < |outs| {
      var r := OutputReference(h, i);
      AccountCreate(current, base, novel, made, r, outs[i]);
      novel' := ExtendedAccounted(current[r := outs[i]], base, novel + {r}, made + outs[i].value, h, outs, i + 1);
      assert outs[i..][1..] == outs[i + 1..];
    }
  }

  ghost function OutputsValueAll(ts: seq<Transaction>): nat {
    if ts == [] then 0 else OutputsValue(ts[0].outputs) + OutputsValueAll(ts[1..])
  }

  lemma {:induction false} AppliedRestAccounted(
    current: Utxo, base: Utxo, novel: set<OutputReference>, made: nat, u: Utxo, ts: seq<Transaction>)
    requires Accounted(current, base, novel, made) && AppliedRest(current, ts).Ok?
    requires Spendable(base, ts)
    requires forall r | r in base :: r in u && u[r] == base[r]
    ensures GetBlockFees(ts, u).Ok?
    ensures Total(AppliedRest(current, ts).value) <= Total(base) + made - GetBlockFees(ts, u).value
    decreases |ts|
  {
    if ts == [] {
      AccountedTotal(current, base, novel, made);
    } else {
      var t := ts[0];
      SpendableSplit(base, ts);
      var left := SpentAccounted(current, base, novel, made, u, t.inputs);
      var spent := Spent(current, t.inputs).value;
      var novel' := ExtendedAccounted(spent, left, novel, made, TransactionHash(t), t.outputs, 0);
      assert t.outputs[0..] == t.outputs;
      AppliedRestAccounted(Extended(spent, TransactionHash(t), t.outputs, 0).value, left, novel',
                           made + OutputsValue(t.outputs), u, ts[1..]);
    }
  }

  /** A block adds at most what its coinbase pays out beyond the fees. */
  lemma AppliedBlockValue(u: Utxo, b: Block)
    requires b.transactions != [] && AppliedBlock(u, b).Ok? && Spendable(u, b.transactions[1..])
    ensures GetBlockFees(b.transactions[1..], u).Ok?
    ensures Total(AppliedBlock(u, b).value) <=
            Total(u) + OutputsValue(b.transactions[0].outputs) - GetBlockFees(b.transactions[1..], u).value
  {
    var coinbase := b.transactions[0];
    assert u - {} == u && Only(u, {}) == map[];
    var novel := ExtendedAccounted(u, u, {}, 0, TransactionHash(coinbase), coinbase.outputs, 0);
    assert coinbase.outputs[0..] == coinbase.outputs;
    AppliedRestAccounted(Extended(u, TransactionHash(coinbase), coinbase.outputs, 0).value, u, novel,
                         OutputsValue(coinbase.outputs), u, b.transactions[1..]);
  }
}

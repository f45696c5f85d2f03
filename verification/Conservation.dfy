/** Conservation of value: a block changes the unspent total by exactly what its coinbase pays out beyond the fees. */
module Conservation {
  import opened Basics
  import opened Crypto
  import opened Datatypes
  import opened Balances
  import opened Consensus
  import opened Totals
  import opened BlockEffects
  import opened ChainRules
  import opened Supply
  import opened History

  // ----- totals of what a block consumes and creates

  lemma TotalUnion(a: Utxo, c: Utxo)
    requires forall r | r in c :: r !in a
    ensures Total(a + c) == Total(a) + Total(c)
  {
    hide Total;
    TotalSplit(a + c, c.Keys);
    assert Only(a + c, c.Keys) == c && (a + c) - c.Keys == a;
  }

  ghost function SumOf(u: Utxo, rs: seq<OutputReference>): nat {
    if rs == [] then 0 else (if rs[0] in u then u[rs[0]].value else 0) + SumOf(u, rs[1..])
  }

  lemma {:induction false} SumOfAppend(u: Utxo, rs: seq<OutputReference>, more: seq<OutputReference>)
    ensures SumOf(u, rs + more) == SumOf(u, rs) + SumOf(u, more)
    decreases |rs|
  {
    if rs == [] {
      assert rs + more == more;
    } else {
      SumOfAppend(u, rs[1..], more);
      assert (rs + more)[1..] == rs[1..] + more;
    }
  }

  lemma {:induction false} SumOfSpent(u: Utxo, rs: seq<OutputReference>)
    requires Distinct(rs) && forall r | r in rs :: r in u
    ensures Total(u - SetOf(rs)) == Total(u) - SumOf(u, rs)
    decreases |rs|
  {
    hide Total;
    if rs == [] {
      assert u - SetOf(rs) == u;
    } else {
      var r, rest := rs[0], rs[1..];
      assert rs == [r] + rest;
      DistinctTail(r, rest);
      SumOfSpent(u, rest);
      TotalRemove(u - SetOf(rest), r);
      assert (u - SetOf(rest)) - {r} == u - SetOf(rs);
    }
  }

  lemma {:induction false} InputsAreSum(u: Utxo, ins: seq<Input>)
    requires forall i | i in ins :: i.reference in u
    ensures InputsValue(u, ins) == Ok(SumOf(u, ReferencesOf(ins)))
    decreases |ins|
  {
    if ins != [] {
      InputsAreSum(u, ins[1..]);
      assert ReferencesOf(ins)[1..] == ReferencesOf(ins[1..]);
    }
  }

  lemma {:induction false} FeesAreDifference(u: Utxo, ts: seq<Transaction>)
    requires forall r | r in References(ts) :: r in u
    ensures GetBlockFees(ts, u) == Ok(SumOf(u, References(ts)) - OutputsValueAll(ts))
    decreases |ts|
  {
    hide OutputsValue;
    if ts != [] {
      var here := ReferencesOf(ts[0].inputs);
      forall i | i in ts[0].inputs ensures i.reference in u {
        var k :| 0 <= k < |ts[0].inputs| && ts[0].inputs[k] == i;
        assert here[k] == i.reference && here[k] in References(ts);
      }
      InputsAreSum(u, ts[0].inputs);
      FeesAreDifference(u, ts[1..]);
      SumOfAppend(u, here, References(ts[1..]));
    }
  }

  lemma {:induction false} TotalCreatedFrom(h: Hash, outs: seq<Output>, i: nat)
    requires i <= |outs| <= MAX_INDEX + 1
    ensures Total(CreatedFrom(h, outs, i)) == OutputsValue(outs[i..])
    decreases |outs| - i
  {
    hide Total;
    if i == |outs| {
      TotalOfNothing();
    } else {
      TotalCreatedFrom(h, outs, i + 1);
      TotalAdd(CreatedFrom(h, outs, i + 1), OutputReference(h, i), outs[i]);
      assert outs[i..][1..] == outs[i + 1..];
    }
  }

  lemma FirstIsApart(ts: seq<Transaction>)
    requires ts != [] && AllCountable(ts) && Distinct(TransactionHashes(ts))
    ensures Distinct(TransactionHashes(ts[1..]))
    ensures forall r | r in CreatedAll(ts[1..]) :: r !in Created(ts[0])
  {
    hide TransactionHash;
    var rest, hs := ts[1..], TransactionHashes(ts);
    assert forall k | 0 <= k < |rest| :: TransactionHashes(rest)[k] == hs[k + 1];
    assert Countable(ts[0]) by { assert ts[0] in ts; }
    forall r | r in CreatedAll(rest) ensures r !in Created(ts[0]) {
      var t :| t in rest && r.hash == TransactionHash(t);
      var k :| 0 <= k < |rest| && rest[k] == t;
      assert hs[k + 1] == r.hash && hs[0] == TransactionHash(ts[0]);
    }
  }

  lemma {:induction false} TotalCreatedAll(ts: seq<Transaction>)
    requires AllCountable(ts) && Distinct(TransactionHashes(ts))
    ensures Total(CreatedAll(ts)) == OutputsValueAll(ts)
    decreases |ts|
  {
    hide Total, TransactionHash, OutputsValue, TransactionHashes, CreatedFrom, Distinct;
    if ts == [] {
      TotalOfNothing();
    } else {
      assert ts[0] in ts;
      FirstIsApart(ts);
      TotalCreatedAll(ts[1..]);
      TotalCreatedFrom(TransactionHash(ts[0]), ts[0].outputs, 0);
      assert ts[0].outputs[0..] == ts[0].outputs;
      TotalUnion(Created(ts[0]), CreatedAll(ts[1..]));
    }
  }

  // ----- one block

  /** With new hashes nothing is overwritten, so no value is lost. */
  lemma BlockConserves(u: Utxo, b: Block)
    requires b.transactions != [] && AllCountable(b.transactions) && Spendable(u, b.transactions[1..])
    requires NewHashes(u, b.transactions) && Distinct(TransactionHashes(b.transactions))
    ensures AppliedBlock(u, b).Ok? && GetBlockFees(b.transactions[1..], u).Ok?
    ensures Total(AppliedBlock(u, b).value) ==
            Total(u) + OutputsValue(b.transactions[0].outputs) - GetBlockFees(b.transactions[1..], u).value
  {
    hide Total, TransactionHash, AppliedBlock, GetBlockFees, References, SumOf, OutputsValue;
    var ts := b.transactions;
    var rs := References(ts[1..]);
    AppliedBlockEffect(u, b);
    FeesAreDifference(u, ts[1..]);
    SumOfSpent(u, rs);
    TotalCreatedAll(ts);
    forall r | r in CreatedAll(ts) ensures r !in u {
      var t :| t in ts && r.hash == TransactionHash(t);
    }
    TotalUnion(u - SetOf(rs), CreatedAll(ts));
  }

  // ----- a whole chain

  ghost function Fees(u: Utxo, b: Block): int {
    if b.transactions == [] || GetBlockFees(b.transactions[1..], u).Err? then 0
    else GetBlockFees(b.transactions[1..], u).value
  }

  /** What the coinbases of a chain paid out beyond the fees they collected. */
  ghost function Minted(chain: seq<Block>): int {
    if chain == [] then 0
    else
      var before, b := chain[..|chain| - 1], chain[|chain| - 1];
      Minted(before) + (if b.transactions == [] then 0 else OutputsValue(b.transactions[0].outputs))
        - (if Replayed(before).Ok? then Fees(Replayed(before).value, b) else 0)
  }

  lemma MintedStep(before: seq<Block>, b: Block, u: Utxo)
    requires Replayed(before) == Ok(u) && b.transactions != [] && GetBlockFees(b.transactions[1..], u).Ok?
    ensures Minted(before + [b]) ==
            Minted(before) + OutputsValue(b.transactions[0].outputs) - GetBlockFees(b.transactions[1..], u).value
  {
    hide GetBlockFees, OutputsValue, Replayed;
    assert (before + [b])[..|before|] == before;
  }

  /** The unspent outputs of a valid chain are worth exactly what was minted on it. */
  lemma {:induction false} ChainConserves(chain: seq<Block>)
    requires ValidChain(chain) && NoCollision(chain)
    ensures Replayed(chain).Ok? && Total(Replayed(chain).value) == Minted(chain)
    decreases |chain|
  {
    hide Total, Remembered, NoCollision, AppliedBlock, TransactionsOk, Replayed, GetBlockFees, OutputsValue, Minted;
    var before, b := chain[..|chain| - 1], chain[|chain| - 1];
    assert chain == before + [b];
    LastBlockOk(chain);
    PrefixNoCollision(chain, |chain| - 1);
    if before == [] {
      NothingRemembered();
      NothingReplayed();
      NothingMinted();
    } else {
      ChainConserves(before);
      ChainRemembers(before);
    }
    var u := Replayed(before).value;
    StepConserves(before, b, u);
    MintedStep(before, b, u);
  }

  lemma NothingMinted()
    ensures Minted([]) == 0 && ClaimsEverything([])
  {
  }

  lemma StepConserves(chain: seq<Block>, b: Block, u: Utxo)
    requires Remembered(chain, u) && NoCollision(chain + [b]) && TransactionsOk(u, |chain|, b.transactions)
    ensures b.transactions != [] && AppliedBlock(u, b).Ok? && GetBlockFees(b.transactions[1..], u).Ok?
    ensures Total(AppliedBlock(u, b).value) ==
            Total(u) + OutputsValue(b.transactions[0].outputs) - GetBlockFees(b.transactions[1..], u).value
  {
    hide Total, Remembered, NoCollision, AppliedBlock, GetBlockFees, OutputsValue, TransactionHash, NonCoinbaseInUtxo;
    StepRemembers(chain, b, u);
    DistinctInBlock(chain, b, u);
    BlockConserves(u, b);
  }

  /** Every coinbase pays out all it may: the subsidy and the fees. */
  ghost predicate ClaimsEverything(chain: seq<Block>) {
    forall i | 0 <= i < |chain| :: ClaimsAll(chain, i)
  }

  ghost predicate ClaimsAll(chain: seq<Block>, i: nat)
    requires i < |chain|
  {
    && chain[i].transactions != [] && Replayed(chain[..i]).Ok?
    && OutputsValue(chain[i].transactions[0].outputs)
         == Fees(Replayed(chain[..i]).value, chain[i]) + GetBlockSubsidy(i)
  }

  lemma {:induction false} MintedIsSubsidies(chain: seq<Block>)
    requires ClaimsEverything(chain)
    ensures Minted(chain) == SubsidySum(|chain|)
    decreases |chain|
  {
    hide Replayed, GetBlockSubsidy, OutputsValue, Fees;
    if chain != [] {
      var before := chain[..|chain| - 1];
      forall i | 0 <= i < |before| ensures ClaimsAll(before, i) {
        assert ClaimsAll(chain, i) && before[..i] == chain[..i];
      }
      MintedIsSubsidies(before);
      assert ClaimsAll(chain, |before|);
    }
  }

  lemma ClaimsAppend(chain: seq<Block>)
    requires chain != [] && ClaimsEverything(chain[..|chain| - 1])
    requires ClaimsAll(chain, |chain| - 1)
    ensures ClaimsEverything(chain)
  {
    hide Replayed, GetBlockSubsidy, OutputsValue, Fees;
    var before := chain[..|chain| - 1];
    forall i | 0 <= i < |chain| ensures ClaimsAll(chain, i) {
      if i < |before| {
        assert ClaimsAll(before, i) && before[..i] == chain[..i];
      }
    }
  }

  lemma LastClaim(chain: seq<Block>)
    requires ValidChain(chain)
    ensures var before, b := chain[..|chain| - 1], chain[|chain| - 1];
            && Minted(chain) <= Minted(before) + GetBlockSubsidy(|before|)
            && (Minted(chain) == Minted(before) + GetBlockSubsidy(|before|) ==> ClaimsAll(chain, |before|))
  {
    hide GenesisOk, ExtensionOk, Replayed, GetBlockSubsidy, OutputsValue, AppliedBlock, NonCoinbaseInUtxo, Spendable,
      GetBlockFees, IsCoinbaseFor;
    LastBlockOk(chain);
  }

  /** A valid chain mints at most the subsidies, and all of them only when every coinbase claims everything. */
  lemma {:induction false} MintedAtMost(chain: seq<Block>)
    requires ValidChain(chain)
    ensures Minted(chain) <= SubsidySum(|chain|)
    ensures Minted(chain) == SubsidySum(|chain|) ==> ClaimsEverything(chain)
    decreases |chain|
  {
    hide Minted, GetBlockSubsidy, ClaimsEverything, ClaimsAll, GenesisOk, ExtensionOk, Replayed, TransactionsOk,
      AppliedBlock;
    var before := chain[..|chain| - 1];
    LastBlockOk(chain);
    LastClaim(chain);
    NothingMinted();
    if before != [] {
      MintedAtMost(before);
    }
    if Minted(chain) == SubsidySum(|chain|) {
      ClaimsAppend(chain);
    }
  }

  /** The supply bound is met exactly by the chains whose coinbases claim everything. */
  lemma FullClaimsReachTheBound(chain: seq<Block>)
    requires ValidChain(chain) && NoCollision(chain)
    ensures Replayed(chain).Ok?
    ensures Total(Replayed(chain).value) == SubsidySum(|chain|) <==> ClaimsEverything(chain)
  {
    hide Replayed, Total, ValidChain, NoCollision, ClaimsEverything;
    ChainConserves(chain);
    MintedAtMost(chain);
    if ClaimsEverything(chain) {
      MintedIsSubsidies(chain);
    }
  }
}

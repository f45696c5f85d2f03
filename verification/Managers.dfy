/** The chain manager: the current state, the last one known valid, and the pool of transactions to be mined. */
module Managers {
  import opened Basics
  import opened Datatypes
  import opened Balances
  import opened CoinStates
  import opened Consensus
  import opened BlockEffects
  import opened History
  import opened Provenance
  import opened Spends
  import opened Alone

  // ----- the pool

  /** Valid at the head of the current chain; that there is one is asserted first. */
  function InHeadState(t: Transaction, cs: CoinState): Verdict {
    if cs.current == None then Err(AssertionError) else NonCoinbaseInCoinstate(t, cs.current.value, cs)
  }

  function PoolVerdict(cs: CoinState, pool: seq<Transaction>, t: Transaction): Verdict
  {
    var _ :- NonCoinbaseByItself(t);
    var _ :- InHeadState(t, cs);
    if Distinct(References(pool + [t])) then PASS else Err(ValidateTransactionError)
  }

  /** The pool can be mined as it is: every transaction valid on its own and at the head, no reference used twice. */
  ghost predicate PoolOk(cs: CoinState, pool: seq<Transaction>)
  {
    && SoundPool(pool)
    && (forall t | t in pool :: InHeadState(t, cs).Ok?)
  }

  ghost predicate SoundPool(pool: seq<Transaction>) {
    (forall t | t in pool :: NonCoinbaseByItself(t).Ok?) && Distinct(References(pool))
  }

  /** The transactions still valid at the head, in their order; only a ValidateTransactionError drops one. */
  function Cleaned(cs: CoinState, pool: seq<Transaction>): Result<seq<Transaction>>
  {
    if pool == [] then Ok([])
    else
      var verdict := InHeadState(pool[0], cs);
      if verdict.Err? && verdict.error != ValidateTransactionError then Err(verdict.error)
      else
        var rest :- Cleaned(cs, pool[1..]);
        Ok(if verdict.Ok? then [pool[0]] + rest else rest)
  }

  /** Cleaning keeps exactly the valid ones and never makes references collide. */
  lemma {:induction false} CleanedKeepsValid(cs: CoinState, pool: seq<Transaction>)
    requires Cleaned(cs, pool).Ok?
    ensures var kept := Cleaned(cs, pool).value;
            && (forall t :: t in kept <==> t in pool && InHeadState(t, cs).Ok?)
            && (forall r | r in References(kept) :: r in References(pool))
            && (Distinct(References(pool)) ==> Distinct(References(kept)))
    decreases |pool|
  {
    hide InHeadState;
    if pool != [] {
      CleanedKeepsValid(cs, pool[1..]);
      var kept, rest := Cleaned(cs, pool).value, Cleaned(cs, pool[1..]).value;
      assert pool == [pool[0]] + pool[1..];
      if Distinct(References(pool)) {
        DistinctParts(ReferencesOf(pool[0].inputs), References(pool[1..]));
      }
      if InHeadState(pool[0], cs).Ok? {
        assert kept == [pool[0]] + rest;
        assert References(kept) == ReferencesOf(pool[0].inputs) + References(rest);
        if Distinct(References(pool)) {
          DistinctJoin(ReferencesOf(pool[0].inputs), References(rest));
        }
      }
    }
  }

  lemma CleanedIsOk(cs: CoinState, pool: seq<Transaction>)
    requires SoundPool(pool) && Cleaned(cs, pool).Ok?
    ensures PoolOk(cs, Cleaned(cs, pool).value)
  {
    hide InHeadState, NonCoinbaseByItself;
    CleanedKeepsValid(cs, pool);
  }

  lemma {:induction false} ReferencesAppend(ts: seq<Transaction>, more: seq<Transaction>)
    ensures References(ts + more) == References(ts) + References(more)
    decreases |ts|
  {
    if ts == [] {
      assert ts + more == more;
    } else {
      ReferencesAppend(ts[1..], more);
      assert (ts + more)[1..] == ts[1..] + more;
    }
  }

  /** `kept` is what is left of `pool` after taking some out. */
  ghost predicate InOrder(kept: seq<Transaction>, pool: seq<Transaction>)
    decreases |pool|
  {
    if kept == [] then true
    else pool != [] && InOrder(if kept[0] == pool[0] then kept[1..] else kept, pool[1..])
  }

  lemma {:induction false} CleanedInOrder(cs: CoinState, pool: seq<Transaction>)
    requires Cleaned(cs, pool).Ok?
    ensures InOrder(Cleaned(cs, pool).value, pool)
    decreases |pool|
  {
    hide InHeadState;
    if pool != [] {
      CleanedInOrder(cs, pool[1..]);
      var rest := Cleaned(cs, pool[1..]).value;
      if InHeadState(pool[0], cs).Ok? {
        assert ([pool[0]] + rest)[1..] == rest;
      } else {
        LaterInOrder(rest, pool);
      }
    }
  }

  lemma {:induction false} LaterInOrder(kept: seq<Transaction>, pool: seq<Transaction>)
    requires pool != [] && InOrder(kept, pool[1..])
    ensures InOrder(kept, pool)
    decreases |pool|, 0
  {
    if kept != [] && kept[0] == pool[0] {
      Shorter(kept, pool[1..]);
    }
  }

  lemma {:induction false} Shorter(kept: seq<Transaction>, pool: seq<Transaction>)
    requires kept != [] && InOrder(kept, pool)
    ensures InOrder(kept[1..], pool)
    decreases |pool|, 1
  {
    if kept[0] == pool[0] {
      LaterInOrder(kept[1..], pool);
    } else {
      Shorter(kept, pool[1..]);
      LaterInOrder(kept[1..], pool);
    }
  }

  // ----- what the pool takes, said without the functions that decide it

  /** At the head every input claims an unspent output, and the outputs are worth no more. */
  ghost predicate SpendableAtHead(cs: CoinState, t: Transaction) {
    && cs.current.Some? && cs.current.value in cs.utxoByHash
    && AllClaimed(t, cs.utxoByHash[cs.current.value])
    && Paid(t.outputs) <= Held(cs.utxoByHash[cs.current.value], t.inputs)
  }

  /** And no input refers to an output that a pooled transaction spends. */
  ghost predicate Poolable(cs: CoinState, pool: seq<Transaction>, t: Transaction) {
    && TransactionRight(t) && SpendableAtHead(cs, t)
    && forall p, i | p in pool && i in t.inputs :: !UsedIn(p, i.reference)
  }

  lemma HeadExactly(t: Transaction, cs: CoinState)
    ensures InHeadState(t, cs).Ok? <==> SpendableAtHead(cs, t)
    ensures cs.current == None ==> InHeadState(t, cs) == Err(AssertionError)
  {
    hide NonCoinbaseInUtxo, AllClaimed, Paid, Held;
    if cs.current.Some? && cs.current.value in cs.utxoByHash {
      SpendExactly(t, cs.utxoByHash[cs.current.value]);
    }
  }

  /** Its verdict at the head is an error that says more than that it is not valid there. */
  ghost predicate Raises(cs: CoinState, t: Transaction) {
    InHeadState(t, cs).Err? && InHeadState(t, cs).error != ValidateTransactionError
  }

  /** Cleaning succeeds exactly when no transaction raises, and then leaves exactly what can be spent at the head. */
  lemma {:induction false} CleanedExactly(cs: CoinState, pool: seq<Transaction>)
    ensures Cleaned(cs, pool).Ok? <==> forall t | t in pool :: !Raises(cs, t)
    ensures Cleaned(cs, pool).Ok? ==> forall t :: t in Cleaned(cs, pool).value <==> t in pool && SpendableAtHead(cs, t)
    decreases |pool|
  {
    hide InHeadState, SpendableAtHead;
    if pool != [] {
      CleanedExactly(cs, pool[1..]);
      HeadExactly(pool[0], cs);
      assert pool == [pool[0]] + pool[1..];
      assert Raises(cs, pool[0]) ==> Cleaned(cs, pool).Err?;
    }
  }

  /** Otherwise the first that raises decides. */
  lemma {:induction false} FirstRaised(cs: CoinState, pool: seq<Transaction>, k: nat)
    requires k < |pool| && Raises(cs, pool[k]) && forall j | 0 <= j < k :: !Raises(cs, pool[j])
    ensures Cleaned(cs, pool) == Err(InHeadState(pool[k], cs).error)
    decreases |pool|
  {
    hide InHeadState;
    if k > 0 {
      FirstRaised(cs, pool[1..], k - 1);
    }
  }

  /** A sound pool takes exactly the poolable transactions; one that only conflicts with it is turned away quietly. */
  lemma PoolVerdictExactly(cs: CoinState, pool: seq<Transaction>, t: Transaction)
    requires SoundPool(pool)
    ensures PoolVerdict(cs, pool, t).Ok? <==> Poolable(cs, pool, t)
    ensures TransactionRight(t) && SpendableAtHead(cs, t) && !Poolable(cs, pool, t) ==>
              PoolVerdict(cs, pool, t) == Err(ValidateTransactionError)
    ensures TransactionRight(t) && InHeadState(t, cs).Err? ==> PoolVerdict(cs, pool, t) == InHeadState(t, cs)
  {
    hide InHeadState, NonCoinbaseByItself, TransactionRight, SpendableAtHead, References, Distinct, UsedIn;
    TransactionExactly(t);
    HeadExactly(t, cs);
    if TransactionRight(t) {
      NoConflict(pool, t);
    }
  }

  lemma NoConflict(pool: seq<Transaction>, t: Transaction)
    requires Distinct(References(pool)) && TransactionRight(t)
    ensures Distinct(References(pool + [t])) <==>
            forall p, i | p in pool && i in t.inputs :: !UsedIn(p, i.reference)
  {
    hide UsedIn, TransactionRight, References, Distinct;
    var earlier, here := References(pool), ReferencesOf(t.inputs);
    ReferencesAppend(pool, [t]);
    OneTransaction(t);
    RightIsDistinct(t);
    if Distinct(earlier + here) {
      DistinctParts(earlier, here);
    }
    if forall r | r in earlier :: r !in here {
      DistinctJoin(earlier, here);
    }
    SharedExactly(pool, t);
  }

  lemma OneTransaction(t: Transaction)
    ensures References([t]) == ReferencesOf(t.inputs)
  {
    assert [t][1..] == [] && References([]) == [];
  }

  lemma RightIsDistinct(t: Transaction)
    requires TransactionRight(t)
    ensures Distinct(ReferencesOf(t.inputs))
  {
    hide EncTransaction, NoSharedInputs, AmountsRight;
    DistinctExactly([t]);
    OneTransaction(t);
  }

  lemma SharedExactly(pool: seq<Transaction>, t: Transaction)
    ensures (forall r | r in References(pool) :: r !in ReferencesOf(t.inputs)) <==>
            (forall p, i | p in pool && i in t.inputs :: !UsedIn(p, i.reference))
  {
    hide References, UsedIn, ReferencesOf;
    if forall r | r in References(pool) :: r !in ReferencesOf(t.inputs) {
      forall p, i | p in pool && i in t.inputs ensures !UsedIn(p, i.reference) {
        ReferencesExactly(pool, i.reference);
        InputUses(t, i);
      }
    }
    if forall p, i | p in pool && i in t.inputs :: !UsedIn(p, i.reference) {
      forall r | r in References(pool) ensures r !in ReferencesOf(t.inputs) {
        ReferencesExactly(pool, r);
        var p :| p in pool && UsedIn(p, r);
        NotUsedByBoth(p, t, r);
      }
    }
  }

  lemma InputUses(t: Transaction, i: Input)
    requires i in t.inputs
    ensures i.reference in ReferencesOf(t.inputs)
  {
    UsedExactly(t, i.reference);
  }

  lemma NotUsedByBoth(p: Transaction, t: Transaction, r: OutputReference)
    requires UsedIn(p, r) && forall i | i in t.inputs :: !UsedIn(p, i.reference)
    ensures r !in ReferencesOf(t.inputs)
  {
    UsedExactly(t, r);
  }

  class ChainManager {
    var coinstate: CoinState
    var transactionPool: seq<Transaction>
    var lastKnownValid: Option<CoinState>

    ghost predicate Valid()
      reads this
    {
      PoolOk(coinstate, transactionPool)
    }

    /** The manager as it is after the first `set_coinstate`. */
    constructor (cs: CoinState)
        ensures Valid() && coinstate == cs && transactionPool == [] && lastKnownValid == Some(cs)
    {
      coinstate := cs;
      transactionPool := [];
      lastKnownValid := Some(cs);
    }

    /** An exception other than a ValidateTransactionError leaves the new state in place and the pool as it was. */
    method SetCoinstate(cs: CoinState, validated: bool) returns (r: Result<()>)
      modifies this
      ensures coinstate == cs
      ensures match Cleaned(cs, old(transactionPool))
              case Ok(kept) =>
                && r.Ok? && transactionPool == kept && (SoundPool(old(transactionPool)) ==> Valid())
                && lastKnownValid == if validated then Some(cs) else old(lastKnownValid)
              case Err(e) =>
                r == Err(e) && transactionPool == old(transactionPool) && lastKnownValid == old(lastKnownValid)
    {
      coinstate := cs;
      var kept :- CleanupTransactionPool();
      if SoundPool(transactionPool) {
        CleanedIsOk(cs, transactionPool);
      }
      transactionPool := kept;
      if validated {
        lastKnownValid := Some(cs);
      }
      r := Ok(());
    }

    method CleanupTransactionPool() returns (r: Result<seq<Transaction>>)
      ensures r == Cleaned(coinstate, transactionPool)
    {
      hide InHeadState;
      var kept := [];
      ghost var whole := Cleaned(coinstate, transactionPool);
      assert whole.Ok? ==> kept + whole.value == whole.value;
      for i := 0 to |transactionPool|
        invariant whole == match Cleaned(coinstate, transactionPool[i..])
                           case Ok(rest) => Ok(kept + rest)
                           case Err(e) => Err(e)
      {
        var t := transactionPool[i];
        assert transactionPool[i..][1..] == transactionPool[i + 1..];
        ghost var rest := Cleaned(coinstate, transactionPool[i + 1..]);
        assert rest.Ok? ==> kept + ([t] + rest.value) == (kept + [t]) + rest.value;
        var verdict := InHeadState(t, coinstate);
        if verdict.Ok? {
          kept := kept + [t];
        } else if verdict.error != ValidateTransactionError {
          return Err(verdict.error);
        }
      }
      assert kept + [] == kept;
      return Ok(kept);
    }

    method AddTransactionToPool(t: Transaction) returns (r: Result<bool>)
      modifies this`transactionPool
      ensures old(Valid()) ==> Valid()
      ensures old(SoundPool(transactionPool)) ==>
                (transactionPool == old(transactionPool) + [t] <==> Poolable(coinstate, old(transactionPool), t))
      ensures match PoolVerdict(coinstate, old(transactionPool), t)
              case Ok(_) => r == Ok(true) && transactionPool == old(transactionPool) + [t]
              case Err(e) =>
                && transactionPool == old(transactionPool)
                && r == if e == ValidateTransactionError then Ok(false) else Err(e)
    {
      hide InHeadState, NonCoinbaseByItself, References, Poolable;
      if SoundPool(transactionPool) {
        PoolVerdictExactly(coinstate, transactionPool, t);
      }
      var verdict := ValidateForPool(t);
      if verdict.Err? {
        return if verdict.error == ValidateTransactionError then Ok(false) else Err(verdict.error);
      }
      transactionPool := transactionPool + [t];
      return Ok(true);
    }

    method ValidateForPool(t: Transaction) returns (r: Verdict)
      ensures r == PoolVerdict(coinstate, transactionPool, t)
    {
      hide NonCoinbaseInCoinstate, NonCoinbaseByItself, References;
      var _ :- ValidateNonCoinbaseTransactionByItself(t);
      if coinstate.current == None {
        return Err(AssertionError);
      }
      var _ :- ValidateNonCoinbaseTransactionInCoinstate(t, coinstate.current.value, coinstate);
      r := ValidateNoDuplicateOutputReferencesInTransactions(transactionPool + [t]);
    }
  }

  // ----- cleaning after a change of head

  ghost predicate StillUnspent(u: Utxo, t: Transaction) {
    forall i | i in t.inputs :: i.reference in u
  }

  /** Where the two sets of unspent outputs agree on what they share. */
  ghost predicate AgreeOnShared(u: Utxo, u': Utxo) {
    forall r | r in u && r in u' :: u[r] == u'[r]
  }

  lemma {:induction false} ClaimsMove(u: Utxo, u': Utxo, t: Transaction, k: nat)
    requires AgreeOnShared(u, u') && k <= |t.inputs| && ClaimedValue(u, t, k).Ok?
    ensures (forall i | k <= i < |t.inputs| :: t.inputs[i].reference in u') ==>
              ClaimedValue(u', t, k) == ClaimedValue(u, t, k)
    ensures !(forall i | k <= i < |t.inputs| :: t.inputs[i].reference in u') ==>
              ClaimedValue(u', t, k) == Err(ValidateTransactionError)
    decreases |t.inputs| - k
  {
    hide SignatureForSpend;
    if k < |t.inputs| {
      ClaimsMove(u, u', t, k + 1);
    }
  }

  /** A transaction valid over `u` is valid over `u'` exactly when its inputs are unspent there, and otherwise is
      turned away with the one error that cleaning catches. */
  lemma ValidityMoves(u: Utxo, u': Utxo, t: Transaction)
    requires AgreeOnShared(u, u') && NonCoinbaseInUtxo(t, u).Ok?
    ensures NonCoinbaseInUtxo(t, u').Ok? <==> StillUnspent(u', t)
    ensures NonCoinbaseInUtxo(t, u').Err? ==> NonCoinbaseInUtxo(t, u').error == ValidateTransactionError
  {
    hide ClaimedValue;
    ClaimsMove(u, u', t, 0);
    assert forall i | 0 <= i < |t.inputs| :: t.inputs[i] in t.inputs;
  }

  lemma {:induction false} CleaningSucceeds(cs: CoinState, cs': CoinState, pool: seq<Transaction>)
    requires cs.current.Some? && cs'.current.Some? && (forall t | t in pool :: InHeadState(t, cs).Ok?)
    requires cs.current.value in cs.utxoByHash && cs'.current.value in cs'.utxoByHash
    requires AgreeOnShared(cs.utxoByHash[cs.current.value], cs'.utxoByHash[cs'.current.value])
    ensures Cleaned(cs', pool).Ok?
    ensures forall t | t in pool :: InHeadState(t, cs').Ok? <==> StillUnspent(cs'.utxoByHash[cs'.current.value], t)
    decreases |pool|
  {
    hide NonCoinbaseInUtxo, StillUnspent, AgreeOnShared;
    if pool != [] {
      assert InHeadState(pool[0], cs).Ok?;
      CleaningSucceeds(cs, cs', pool[1..]);
      ValidityMoves(cs.utxoByHash[cs.current.value], cs'.utxoByHash[cs'.current.value], pool[0]);
      assert pool == [pool[0]] + pool[1..];
    }
  }

  /** From one state to another whose outputs come from transactions that do not collide, cleaning cannot raise, and
      it keeps exactly the transactions whose inputs are all still unspent. */
  lemma HeadChangeKeepsSpendable(cs: CoinState, cs': CoinState, pool: seq<Transaction>, ts: set<Transaction>)
    requires PoolOk(cs, pool) && NoCollisionIn(ts)
    requires cs.current.Some? && cs.current.value in cs.utxoByHash && Sourced(cs.utxoByHash[cs.current.value], ts)
    requires cs'.current.Some? && cs'.current.value in cs'.utxoByHash && Sourced(cs'.utxoByHash[cs'.current.value], ts)
    ensures Cleaned(cs', pool).Ok? && PoolOk(cs', Cleaned(cs', pool).value)
    ensures forall t :: t in Cleaned(cs', pool).value <==>
              t in pool && StillUnspent(cs'.utxoByHash[cs'.current.value], t)
  {
    hide Sourced, NoCollisionIn, Cleaned, StillUnspent, InHeadState, SoundPool;
    SourcedAgree(cs.utxoByHash[cs.current.value], cs'.utxoByHash[cs'.current.value], ts);
    CleaningSucceeds(cs, cs', pool);
    CleanedIsOk(cs', pool);
    CleanedKeepsValid(cs', pool);
  }
}

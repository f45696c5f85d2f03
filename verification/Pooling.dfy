/** What enters the pool, and how long it stays. */
module Pooling {
  import opened Basics
  import opened Datatypes
  import opened CoinStates
  import opened Consensus
  import opened History
  import opened Provenance
  import opened Sources
  import opened Alone
  import opened Managers
  import opened Receiving

  /** A transaction offered is pooled exactly when the pool can take it, and nothing else changes. Amounts that cannot
      exist raise; a mere conflict with the pool does not. */
  lemma OfferedExactly(s: State, t: Transaction, ts: set<Transaction>)
    requires NodeOk(s, ts)
    ensures Offered(s, t).0 ==
            if t !in s.pool && Poolable(s.coinstate, s.pool, t) then s.(pool := s.pool + [t]) else s
    ensures t in s.pool || (TransactionRight(t) && SpendableAtHead(s.coinstate, t)) ==> Offered(s, t).1.Ok?
    ensures t !in s.pool && SizedRight(t) && !AmountsRight(t) ==> Offered(s, t).1 == Err(ValidationError)
  {
    hide StateSourced, Poolable, InHeadState, SoundPool, References, SpendableAtHead, NonCoinbaseByItself,
      EncTransaction, AmountsRight, InputsRight;
    TransactionExactly(t);
    PoolVerdictExactly(s.coinstate, s.pool, t);
  }

  /** Every input is unspent at the head. */
  ghost predicate UnspentAtHead(s: State, t: Transaction) {
    && s.coinstate.current.Some? && s.coinstate.current.value in s.coinstate.utxoByHash
    && forall i | i in t.inputs :: i.reference in s.coinstate.utxoByHash[s.coinstate.current.value]
  }

  lemma PooledIsUnspent(s: State, t: Transaction, ts: set<Transaction>)
    requires NodeOk(s, ts) && t in s.pool
    ensures UnspentAtHead(s, t)
  {
    hide StateSourced, SoundPool, EncTransaction;
    assert InHeadState(t, s.coinstate).Ok?;
    HeadExactly(t, s.coinstate);
  }

  lemma CleanedFor(s: State, cs: CoinState, validated: bool, t: Transaction, ts: set<Transaction>)
    requires NodeOk(s, ts) && StateSourced(cs, ts) && NoCollisionIn(ts) && t in s.pool
    ensures t in WithCoinstate(s, cs, validated).0.pool <==> UnspentAtHead(WithCoinstate(s, cs, validated).0, t)
  {
    hide PoolOk, Cleaned, NoCollisionIn, Sourced;
    HeadChangeKeepsSpendable(s.coinstate, cs, s.pool, ts);
  }

  /** A pooled transaction stays through an event exactly when its inputs are unspent at the head after it. */
  lemma StaysExactly(cp: Checkpoints, s: State, e: Event, t: Transaction, ts: set<Transaction>)
    requires NodeOk(s, ts) && NoCollisionIn(ts) && Fits(e, ts) && t in s.pool
    ensures t in EventStep(cp, s, e).0.pool <==> UnspentAtHead(EventStep(cp, s, e).0, t)
  {
    hide BlockHash, BlockByItself, BlockInCoinstate, AddBlockNoValidation, WithCoinstate, NodeOk, StateSourced, Flushed,
      NoCollisionIn, IsValidated, PoolVerdict, Cleaned;
    PooledIsUnspent(s, t, ts);
    if e.BlockReceived? {
      Remembered(s, ts);
      var b := e.m.block;
      var saved := s.(buffer := s.buffer + [b]);
      SavedIsOk(s, b, ts);
      CleanedFor(saved, s.lastKnownValid.value, true, t, ts);
      WithCoinstateFields(saved, s.lastKnownValid.value, true, ts);
      if IsTaken(s, e.m) && AddBlockNoValidation(s.coinstate, b).Ok? {
        SourcesGrow(s.coinstate, b, ts);
        CleanedFor(saved, AddBlockNoValidation(s.coinstate, b).value, IsValidated(e.m), t, ts);
        WithCoinstateFields(saved, AddBlockNoValidation(s.coinstate, b).value, IsValidated(e.m), ts);
      }
    }
  }

  lemma Remembered(s: State, ts: set<Transaction>)
    requires NodeOk(s, ts)
    ensures StateSourced(s.coinstate, ts) && s.lastKnownValid.Some? && StateSourced(s.lastKnownValid.value, ts)
  {
    hide StateSourced, PoolOk;
  }

  lemma SavedIsOk(s: State, b: Block, ts: set<Transaction>)
    requires NodeOk(s, ts)
    ensures NodeOk(s.(buffer := s.buffer + [b]), ts)
  {
    hide StateSourced, PoolOk;
  }

  lemma WithCoinstateFields(s: State, cs: CoinState, validated: bool, ts: set<Transaction>)
    requires NodeOk(s, ts) && StateSourced(cs, ts) && NoCollisionIn(ts)
    ensures WithCoinstate(s, cs, validated).1.Ok? && WithCoinstate(s, cs, validated).0.coinstate == cs
  {
    hide StateSourced, PoolOk, Cleaned, NoCollisionIn;
    ChangeKeepsNodeOk(s, cs, validated, ts);
  }

  /** Over every run: it stays in the pool throughout exactly when its inputs stay unspent at every head on the way. */
  lemma StaysThroughout(cp: Checkpoints, s: State, es: seq<Event>, t: Transaction, ts: set<Transaction>)
    requires NodeOk(s, ts) && NoCollisionIn(ts) && (forall e | e in es :: Fits(e, ts)) && t in s.pool
    ensures (forall n {:trigger es[..n]} | 0 <= n <= |es| :: t in Run(cp, s, es[..n]).pool) <==>
            (forall n {:trigger es[..n]} | 0 <= n <= |es| :: UnspentAtHead(Run(cp, s, es[..n]), t))
  {
    hide NodeOk, NoCollisionIn, Fits, Run, UnspentAtHead;
    if forall n {:trigger es[..n]} | 0 <= n <= |es| :: t in Run(cp, s, es[..n]).pool {
      forall n | 0 <= n <= |es| ensures UnspentAtHead(Run(cp, s, es[..n]), t) {
        assert forall e | e in es[..n] :: e in es;
        RunKeepsNodeOk(cp, s, es[..n], ts);
        PooledIsUnspent(Run(cp, s, es[..n]), t, ts);
      }
    }
    if forall n {:trigger es[..n]} | 0 <= n <= |es| :: UnspentAtHead(Run(cp, s, es[..n]), t) {
      forall n | 0 <= n <= |es| ensures t in Run(cp, s, es[..n]).pool {
        StaysUpTo(cp, s, es, t, ts, n);
      }
    }
  }

  lemma {:induction false} StaysUpTo(
    cp: Checkpoints, s: State, es: seq<Event>, t: Transaction, ts: set<Transaction>, n: nat)
    requires NodeOk(s, ts) && NoCollisionIn(ts) && (forall e | e in es :: Fits(e, ts)) && t in s.pool && n <= |es|
    requires forall k {:trigger es[..k]} | 0 <= k <= |es| :: UnspentAtHead(Run(cp, s, es[..k]), t)
    ensures t in Run(cp, s, es[..n]).pool
  {
    hide NodeOk, NoCollisionIn, Fits, Run, UnspentAtHead, EventStep;
    if n == 0 {
      assert es[..0] == [];
      RunStart(cp, s);
    } else {
      StaysUpTo(cp, s, es, t, ts, n - 1);
      assert forall e | e in es[..n - 1] :: e in es;
      RunKeepsNodeOk(cp, s, es[..n - 1], ts);
      RunStep(cp, s, es[..n]);
      assert es[..n][..n - 1] == es[..n - 1];
      StaysExactly(cp, Run(cp, s, es[..n - 1]), es[n - 1], t, ts);
      assert UnspentAtHead(Run(cp, s, es[..n]), t);
    }
  }

  /** Nothing is invented: a block received leaves some of the pool, in its order. */
  lemma BlockOnlyRemoves(cp: Checkpoints, s: State, m: Received)
    ensures InOrder(Step(cp, s, m).0.pool, s.pool)
  {
    hide BlockHash, BlockByItself, BlockInCoinstate, AddBlockNoValidation, Flushed, IsValidated, Cleaned;
    WholeInOrder(s.pool);
    var changed := AddBlockNoValidation(s.coinstate, m.block);
    if changed.Ok? && Cleaned(changed.value, s.pool).Ok? {
      CleanedInOrder(changed.value, s.pool);
    }
    if s.lastKnownValid.Some? && Cleaned(s.lastKnownValid.value, s.pool).Ok? {
      CleanedInOrder(s.lastKnownValid.value, s.pool);
    }
  }

  lemma {:induction false} WholeInOrder(pool: seq<Transaction>)
    ensures InOrder(pool, pool)
    decreases |pool|
  {
    if pool != [] {
      WholeInOrder(pool[1..]);
    }
  }
}

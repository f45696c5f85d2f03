/** What peers send does not change the verdict on a block whose parent is among the last known valid blocks. */
module Verdicts {
  import opened Basics
  import opened Crypto
  import opened Datatypes
  import opened Balances
  import opened CoinStates
  import opened Consensus
  import opened History
  import opened Provenance
  import opened Sources
  import opened Runs
  import opened Managers
  import opened Receiving

  /** The step goes back to the last known valid state. */
  ghost predicate GoesBack(cp: Checkpoints, s: State, m: Received) {
    && IsTaken(s, m) && IsValidated(m) && s.lastKnownValid.Some?
    && AddBlockNoValidation(s.coinstate, m.block).Ok? && BlockInCoinstate(cp, m.block, s.coinstate).Err?
  }

  /** The step adds the block. */
  ghost predicate Adds(cp: Checkpoints, s: State, m: Received) {
    && IsTaken(s, m) && AddBlockNoValidation(s.coinstate, m.block).Ok?
    && (IsValidated(m) ==> BlockInCoinstate(cp, m.block, s.coinstate).Ok?)
  }

  lemma StepMoves(cp: Checkpoints, s: State, m: Received)
    ensures var after := Step(cp, s, m).0;
            && after.coinstate == (if GoesBack(cp, s, m) then s.lastKnownValid.value
                                   else if Adds(cp, s, m) then AddBlockNoValidation(s.coinstate, m.block).value
                                   else s.coinstate)
            && (after.lastKnownValid == s.lastKnownValid || after.lastKnownValid == Some(after.coinstate))
  {
    hide BlockHash, BlockByItself, BlockInCoinstate, AddBlockNoValidation, Cleaned, Flushed, IsValidated;
  }

  lemma AddKeepsEntries(start: CoinState, cs: CoinState, b: Block, p: Hash)
    requires SameEntries(start, cs, p) && BlockHash(b) !in cs.blockByHash && b.Previous() != ZERO_HASH
    requires AddBlockNoValidation(cs, b).Ok?
    ensures SameEntries(start, AddBlockNoValidation(cs, b).value, p)
  {
    hide BlockHash, AppliedBlock, NextCurrent;
  }

  lemma OrphanRefused(cp: Checkpoints, cs: CoinState, b: Block)
    ensures b.Previous() !in cs.blockByHash && b.Height() > cp.maxHeight ==>
              BlockInCoinstate(cp, b, cs) == Err(ValidateBlockHeaderError)
  {
    hide CalcTarget, ConstructPowEvidence, CoinbaseInCoinstate, AllInCoinstate;
  }

  /** One step, exactly: the verdict on a block with a stored parent stays as it is, or becomes that of the state gone
      back to, where a block without its parent is refused. */
  lemma VerdictAfterStep(cp: Checkpoints, s: State, m: Received, b: Block, ts: set<Transaction>)
    requires StateSourced(s.coinstate, ts) && b.Previous() in s.coinstate.blockByHash
    ensures BlockInCoinstate(cp, b, Step(cp, s, m).0.coinstate) ==
            BlockInCoinstate(cp, b, if GoesBack(cp, s, m) then s.lastKnownValid.value else s.coinstate)
    ensures GoesBack(cp, s, m) && b.Previous() !in s.lastKnownValid.value.blockByHash && b.Height() > cp.maxHeight ==>
              BlockInCoinstate(cp, b, Step(cp, s, m).0.coinstate) == Err(ValidateBlockHeaderError)
  {
    hide BlockHash, BlockByItself, BlockInCoinstate, AddBlockNoValidation, Step, IsValidated, Sourced;
    StepMoves(cp, s, m);
    if GoesBack(cp, s, m) {
      OrphanRefused(cp, s.lastKnownValid.value, b);
    } else if Adds(cp, s, m) {
      AddKeepsEntries(s.coinstate, s.coinstate, m.block, b.Previous());
      VerdictLocal(cp, b, s.coinstate, Step(cp, s, m).0.coinstate);
    }
  }

  // ----- whole runs

  /** Both remembered states have the entries of `p` that `start` has. */
  ghost predicate Anchored(start: CoinState, s: State, p: Hash) {
    && s.lastKnownValid.Some?
    && ZERO_HASH !in s.coinstate.blockByHash && SameEntries(start, s.coinstate, p)
    && ZERO_HASH !in s.lastKnownValid.value.blockByHash && SameEntries(start, s.lastKnownValid.value, p)
  }

  lemma EventKeepsAnchor(cp: Checkpoints, start: CoinState, s: State, e: Event, p: Hash)
    requires Anchored(start, s, p) && NotZeroHashed(e)
    ensures Anchored(start, EventStep(cp, s, e).0, p)
  {
    hide BlockHash, BlockByItself, BlockInCoinstate, AddBlockNoValidation, Step, IsValidated, PoolVerdict, SameEntries;
    if e.BlockReceived? {
      StepMoves(cp, s, e.m);
      if Adds(cp, s, e.m) {
        AddKeepsEntries(start, s.coinstate, e.m.block, p);
        AddedBlocks(s.coinstate, e.m.block);
      }
    }
  }

  lemma {:induction false} RunKeepsAnchor(cp: Checkpoints, start: CoinState, s: State, es: seq<Event>, p: Hash)
    requires Anchored(start, s, p) && forall e | e in es :: NotZeroHashed(e)
    ensures Anchored(start, Run(cp, s, es), p)
    decreases |es|
  {
    hide Anchored, NotZeroHashed, EventStep, Run;
    if es == [] {
      RunStart(cp, s);
    } else {
      RunStep(cp, s, es);
      RunKeepsAnchor(cp, start, s, es[..|es| - 1], p);
      EventKeepsAnchor(cp, start, Run(cp, s, es[..|es| - 1]), es[|es| - 1], p);
    }
  }

  /** Whatever is received, validated, skipped or rolled back: once its parent is among the last known valid blocks, the
      verdict on a block never changes. */
  lemma VerdictStays(cp: Checkpoints, start: CoinState, s: State, es: seq<Event>, b: Block)
    requires Anchored(start, s, b.Previous()) && forall e | e in es :: NotZeroHashed(e)
    ensures BlockInCoinstate(cp, b, Run(cp, s, es).coinstate) == BlockInCoinstate(cp, b, start)
  {
    hide SameEntries, NotZeroHashed, Run, BlockInCoinstate;
    RunKeepsAnchor(cp, start, s, es, b.Previous());
    VerdictLocal(cp, b, start, Run(cp, s, es).coinstate);
  }

  // ----- when both states are one

  ghost predicate InStep(s: State) {
    s.lastKnownValid == Some(s.coinstate)
  }

  lemma InStepIsAnchored(s: State, p: Hash, ts: set<Transaction>)
    requires NodeOk(s, ts) && InStep(s) && p in s.coinstate.blockByHash
    ensures Anchored(s.coinstate, s, p)
  {
    hide BlockHash, PoolOk, Sourced;
  }

  /** Without skipped validation the current state is always the last known valid one. */
  lemma ValidatedKeepsInStep(cp: Checkpoints, s: State, e: Event, ts: set<Transaction>)
    requires NodeOk(s, ts) && NoCollisionIn(ts) && Fits(e, ts) && InStep(s)
    requires e.BlockReceived? ==> IsValidated(e.m)
    ensures InStep(EventStep(cp, s, e).0)
  {
    hide BlockHash, BlockByItself, BlockInCoinstate, AddBlockNoValidation, Cleaned, Flushed, NoCollisionIn, PoolOk,
      StateSourced, PoolVerdict;
    if e.BlockReceived? && IsTaken(s, e.m) && AddBlockNoValidation(s.coinstate, e.m.block).Ok? {
      SourcesGrow(s.coinstate, e.m.block, ts);
      ChangeKeepsNodeOk(s, AddBlockNoValidation(s.coinstate, e.m.block).value, true, ts);
    }
  }

  lemma {:induction false} ValidatedRunInStep(cp: Checkpoints, s: State, es: seq<Event>, ts: set<Transaction>)
    requires NodeOk(s, ts) && NoCollisionIn(ts) && InStep(s)
    requires forall e | e in es :: Fits(e, ts) && (e.BlockReceived? ==> IsValidated(e.m))
    ensures InStep(Run(cp, s, es))
    decreases |es|
  {
    hide NodeOk, NoCollisionIn, Fits, InStep, EventStep, Run, IsValidated;
    if es == [] {
      RunStart(cp, s);
    } else {
      RunStep(cp, s, es);
      RunKeepsNodeOk(cp, s, es[..|es| - 1], ts);
      ValidatedRunInStep(cp, s, es[..|es| - 1], ts);
      ValidatedKeepsInStep(cp, Run(cp, s, es[..|es| - 1]), es[|es| - 1], ts);
    }
  }
}

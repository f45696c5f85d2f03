/** What becomes of a block received, branch by branch, said without the functions that handle it. */
module Handling {
  import opened Basics
  import opened Datatypes
  import opened CoinStates
  import opened Consensus
  import opened History
  import opened Provenance
  import opened Sources
  import opened Alone
  import opened Rules
  import opened Managers
  import opened Receiving
  import opened Verdicts


  /** The block gets past the first checks: not stored, its parent stored, right by itself. */
  ghost predicate GetsPast(s: State, m: Received) {
    && BlockHash(m.block) !in s.coinstate.blockByHash && m.block.Previous() in s.coinstate.blockByHash
    && HeaderRight(m.block, m.now) && BodyRight(m.block)
  }

  /** It answers no request, or its height is a multiple of ten thousand. */
  ghost predicate Checked(m: Received) {
    m.inResponseTo == 0 || m.block.Height() % 10_000 == 0
  }

  /** The block is added to what was stored. */
  ghost predicate Added(s: State, b: Block, after: State) {
    && AddBlockNoValidation(s.coinstate, b) == Ok(after.coinstate)
    && after.coinstate.blockByHash == s.coinstate.blockByHash[BlockHash(b) := b]
  }

  /** Nothing waits: what is in memory is known to be valid, and on disk. */
  ghost predicate Settled(after: State) {
    && after.lastKnownValid == Some(after.coinstate)
    && after.buffer == [] && after.disk == after.coinstate.blockByHash
  }

  /** The block waits behind those received before it. */
  ghost predicate Waits(s: State, b: Block, after: State) {
    after.lastKnownValid == s.lastKnownValid && after.buffer == s.buffer + [b] && after.disk == s.disk
  }

  /** Back to the state last known to be valid, without the block, and nothing waits. */
  ghost predicate GoneBack(s: State, b: Block, after: State) {
    && after.lastKnownValid == s.lastKnownValid == Some(after.coinstate)
    && BlockHash(b) !in after.coinstate.blockByHash && after.buffer == [] && after.disk == s.disk
  }

  /** All that can happen to a block received. */
  ghost predicate Handled(cp: Checkpoints, s: State, m: Received, after: State, r: Result<()>) {
    if !GetsPast(s, m) then after == s && r.Ok?
    else if !IsFunded(s.coinstate, m.block) then after == s.(buffer := s.buffer + [m.block]) && r.Err?
    else
      && r.Ok?
      && if !Checked(m) then Added(s, m.block, after) && Waits(s, m.block, after)
         else if Approved(cp, s.coinstate, m.block) then Added(s, m.block, after) && Settled(after)
         else GoneBack(s, m.block, after)
  }

  lemma TakenExactly(s: State, m: Received)
    ensures IsTaken(s, m) <==> GetsPast(s, m)
  {
    hide BlockHash, BlockByItself, HeaderRight, BodyRight;
    BlockExactly(m.block, m.now);
  }

  lemma ParentEntries(s: State, m: Received, ts: set<Transaction>)
    requires StateSourced(s.coinstate, ts) && m.block.Previous() in s.coinstate.blockByHash
    ensures HasParent(s.coinstate, m.block)
  {
    hide BlockHash, Sourced;
  }

  /** One block received, exactly. */
  lemma HandledExactly(cp: Checkpoints, s: State, m: Received, ts: set<Transaction>)
    requires Inv(s) && NodeOk(s, ts) && NoCollisionIn(ts) && Fits(BlockReceived(m), ts)
    ensures Handled(cp, s, m, Step(cp, s, m).0, Step(cp, s, m).1)
  {
    hide BlockHash, BlockByItself, BlockInCoinstate, AddBlockNoValidation, Inv, NodeOk, StateSourced, IsFunded, Cleaned,
      Flushed, GetsPast, Approved, NoCollisionIn, Fits;
    TakenExactly(s, m);
    if IsTaken(s, m) {
      NodeHasParent(s, m, ts);
      AddedExactly(s, m, ts);
      VerdictExactly(cp, s.coinstate, m.block);
      BlockKeepsNodeOk(cp, s, m, ts);
      StepKeepsInv(cp, s, m, ts);
      InvParts(s, m.block);
      if AddBlockNoValidation(s.coinstate, m.block).Ok? {
        InvParts(Step(cp, s, m).0, m.block);
        AddedBlocks(s.coinstate, m.block);
      }
    }
  }

  lemma NodeHasParent(s: State, m: Received, ts: set<Transaction>)
    requires NodeOk(s, ts) && m.block.Previous() in s.coinstate.blockByHash
    ensures HasParent(s.coinstate, m.block)
  {
    hide StateSourced, BlockHash;
    ParentEntries(s, m, ts);
  }

  lemma AddedExactly(s: State, m: Received, ts: set<Transaction>)
    requires NodeOk(s, ts) && IsTaken(s, m)
    ensures AddBlockNoValidation(s.coinstate, m.block).Ok? <==> IsFunded(s.coinstate, m.block)
  {
    hide StateSourced, BlockHash, BlockByItself, AddBlockNoValidation, IsFunded;
    AddSucceedsExactly(s.coinstate, m.block, m.now, ts);
  }

  /** The blocks last known to be valid are among the current ones, and they are those on disk. */
  lemma InvParts(s: State, b: Block)
    requires Inv(s)
    ensures s.lastKnownValid.Some? && s.disk == s.lastKnownValid.value.blockByHash
    ensures BlockHash(b) in s.lastKnownValid.value.blockByHash ==> BlockHash(b) in s.coinstate.blockByHash
  {
    hide BlockHash, WithBlocks, Novel, ParentClosed;
    if BlockHash(b) in s.lastKnownValid.value.blockByHash {
      BufferOnlyAdds(s.lastKnownValid.value.blockByHash, s.buffer, BlockHash(b));
    }
  }

  // ----- over whole runs

  /** Every block of a run is handled so, as long as every add that was reached before it succeeded. */
  lemma RunHandledExactly(cp: Checkpoints, s: State, es: seq<Event>, n: nat, ts: set<Transaction>)
    requires Inv(s) && NodeOk(s, ts) && NoCollisionIn(ts) && forall e | e in es :: Fits(e, ts)
    requires n < |es| && AllFunded(cp, s, es[..n]) && es[n].BlockReceived?
    ensures var before := Run(cp, s, es[..n]);
            Handled(cp, before, es[n].m, Step(cp, before, es[n].m).0, Step(cp, before, es[n].m).1)
  {
    hide Inv, NodeOk, NoCollisionIn, Fits, Run, Step, Handled, AllFunded;
    assert forall e | e in es[..n] :: e in es;
    RunKeepsInv(cp, s, es[..n], ts);
    RunKeepsNodeOk(cp, s, es[..n], ts);
    assert es[n] in es;
    HandledExactly(cp, Run(cp, s, es[..n]), es[n].m, ts);
  }

  /** At a height with a checkpoint, a funded block that is checked stays, and nothing is undone, exactly when it has
      the known hash. */
  lemma CheckpointDecides(cp: Checkpoints, s: State, m: Received, ts: set<Transaction>)
    requires Inv(s) && NodeOk(s, ts) && NoCollisionIn(ts) && Fits(BlockReceived(m), ts)
    requires GetsPast(s, m) && IsFunded(s.coinstate, m.block) && Checked(m)
    requires m.block.Height() <= cp.maxHeight && m.block.Height() in cp.known
    ensures var after := Step(cp, s, m).0;
            && (BlockHash(m.block) == cp.known[m.block.Height()] ==>
                  Settled(after) && BlockHash(m.block) in after.coinstate.blockByHash)
            && (BlockHash(m.block) != cp.known[m.block.Height()] ==> GoneBack(s, m.block, after))
  {
    hide Inv, NodeOk, NoCollisionIn, Fits, GetsPast, IsFunded, Step, BlockHash;
    HandledExactly(cp, s, m, ts);
  }

  lemma CheckedObeys(cp: Checkpoints, s: State, m: Received, ts: set<Transaction>)
    requires NodeOk(s, ts) && Checked(m) && m.block.Height() > cp.maxHeight
    requires BlockHash(m.block) !in s.coinstate.blockByHash
    requires BlockHash(m.block) !in s.lastKnownValid.value.blockByHash
    ensures BlockHash(m.block) in Step(cp, s, m).0.coinstate.blockByHash ==> BlockRules(s.coinstate, m.block)
  {
    hide StateSourced, PoolOk, Step, BlockHash, BlockRules, BlockByItself, AddBlockNoValidation, BlockInCoinstate;
    StepMoves(cp, s, m);
    if Adds(cp, s, m) {
      ParentEntries(s, m, ts);
      VerdictExactly(cp, s.coinstate, m.block);
    }
  }

  /** Over every run, whatever else is received: no checked block above the checkpoints ever enters the state against
      the rules on its parent. */
  lemma RunObeys(cp: Checkpoints, s: State, es: seq<Event>, n: nat, ts: set<Transaction>)
    requires NodeOk(s, ts) && NoCollisionIn(ts) && forall e | e in es :: Fits(e, ts)
    requires n < |es| && es[n].BlockReceived? && Checked(es[n].m) && es[n].m.block.Height() > cp.maxHeight
    ensures var before, h := Run(cp, s, es[..n]), BlockHash(es[n].m.block);
            && before.lastKnownValid.Some?
            && (h !in before.coinstate.blockByHash && h !in before.lastKnownValid.value.blockByHash
                && h in Run(cp, s, es[..n + 1]).coinstate.blockByHash ==>
                  BlockRules(before.coinstate, es[n].m.block))
  {
    hide NoCollisionIn, Fits, Run, Step, BlockHash, BlockRules, StateSourced, PoolOk, Checked;
    assert forall e | e in es[..n] :: e in es;
    RunKeepsNodeOk(cp, s, es[..n], ts);
    RunStep(cp, s, es[..n + 1]);
    assert es[..n + 1][..n] == es[..n];
    var before := Run(cp, s, es[..n]);
    var h := BlockHash(es[n].m.block);
    if h !in before.coinstate.blockByHash && h !in before.lastKnownValid.value.blockByHash {
      CheckedObeys(cp, before, es[n].m, ts);
    }
  }
}

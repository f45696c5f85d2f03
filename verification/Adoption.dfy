/** A requester that lags behind adds the blocks it is told of, round after round, until it has caught up. */
module Adoption {
  import opened Basics
  import opened Crypto
  import opened Datatypes
  import opened Balances
  import opened Chains
  import opened CoinStates
  import opened Consensus
  import opened ChainRules
  import opened History
  import opened Ledger
  import opened Sources
  import opened Runs
  import opened Receiving
  import opened Verdicts
  import opened Forks
  import opened Sync

  // ----- adding the blocks of another peer's active chain

  /** The requester has a beginning of the responder's active chain, and their headers do not collide. */
  ghost predicate Follows(q: CoinState, r: CoinState) {
    && LedgerOk(q) && LedgerOk(r) && NoHeaderCollision(q, r)
    && MainChain(q) <= MainChain(r)
  }

  lemma FollowsFacts(q: CoinState, r: CoinState)
    requires Follows(q, r)
    ensures LedgerOk(q) && LedgerOk(r) && NoHeaderCollision(q, r)
    ensures MainChain(q) <= MainChain(r) && MainHashes(q) <= MainHashes(r)
    ensures |MainChain(q)| == |MainHashes(q)| > 0 && |MainChain(r)| == |MainHashes(r)|
  {
    hide LedgerOk, NoHeaderCollision, MainChain, BlockHash;
  }

  lemma HeadIsHighest(q: CoinState, h: Hash)
    requires LedgerOk(q) && h in q.blockByHash
    ensures q.blockByHash[h].Height() < |MainChain(q)|
  {
    hide WellFormedTree, EntryOk, Childless;
  }

  lemma NextIsNew(q: CoinState, r: CoinState, b: Block)
    requires LedgerOk(q) && LedgerOk(r) && NoHeaderCollision(q, r) && b.Height() >= |MainChain(q)|
    requires BlockHash(b) in r.blockByHash && r.blockByHash[BlockHash(b)] == b
    ensures BlockHash(b) !in q.blockByHash
  {
    hide LedgerOk, NoHeaderCollision, MainChain, BlockHash;
    if BlockHash(b) in q.blockByHash {
      HeadIsHighest(q, BlockHash(b));
      SameHashSameHeader(q, r, BlockHash(b));
    }
  }

  /** The next block of the responder's chain is stored there under its hash, one above the requester's head. */
  lemma NextBlock(q: CoinState, r: CoinState)
    requires Follows(q, r) && |MainChain(q)| < |MainChain(r)|
    ensures var b := MainChain(r)[|MainChain(q)|];
            && b.Height() == |MainChain(q)| && q.current.Some? && b.Previous() == q.current.value
            && BlockHash(b) in r.blockByHash && r.blockByHash[BlockHash(b)] == b
  {
    hide BlockHash, LedgerOk, MainChain, MainHashes, NoHeaderCollision, ByHeightAtHead, Follows;
    FollowsFacts(q, r);
    var n := |MainChain(q)|;
    OnActiveChain(r, n);
    OnActiveChain(r, n - 1);
    OnActiveChain(q, n - 1);
    HeadOfMain(q);
  }

  lemma HeadOfMain(q: CoinState)
    requires LedgerOk(q)
    ensures q.current.Some? && q.current.value in q.blockByHash
    ensures MainHashes(q)[|MainHashes(q)| - 1] == q.current.value
  {
    hide BlockHash, EntryOk, Childless;
    assert Linked(q.blockByHash, q.current.value);
  }

  /** The next block of the responder's chain is one that the requester's state may grow by. */
  lemma NextExtends(q: CoinState, r: CoinState)
    requires Follows(q, r) && |MainChain(q)| < |MainChain(r)|
    ensures WellFormedTree(q.blockByHash)
    ensures Ledger.Extends(q, MainChain(r)[|MainChain(q)|])
  {
    hide BlockHash, ExtensionOk, GenesisOk, ChainAt, NoHeaderCollision, Linked, LedgerOk, Follows, Replayed, PathMap;
    FollowsFacts(q, r);
    NextBlock(q, r);
    var n, b := |MainChain(q)|, MainChain(r)[|MainChain(q)|];
    NextIsNew(q, r, b);
    HeadOfMain(q);
    HeadOfMain(r);
    EntryParts(r, r.current.value);
    EntryParts(q, q.current.value);
    assert MainChain(r)[..n] == MainChain(q);
    assert ExtensionOk(MainChain(r)[..n], MainChain(r)[n]);
  }

  lemma HeadersGrow(q: CoinState, r: CoinState, b: Block, q': CoinState)
    requires NoHeaderCollision(q, r) && BlockHash(b) in r.blockByHash && r.blockByHash[BlockHash(b)] == b
    requires q'.blockByHash == q.blockByHash[BlockHash(b) := b]
    ensures NoHeaderCollision(q', r)
  {
    hide BlockHash, EncHeader;
    assert EncHeader(b.header) in HeaderBytes(r.blockByHash);
    assert HeaderBytes(q'.blockByHash) <= HeaderBytes(q.blockByHash) + HeaderBytes(r.blockByHash);
  }

  lemma AdoptNext(q: CoinState, r: CoinState)
    requires Follows(q, r) && |MainChain(q)| < |MainChain(r)|
    ensures var b := MainChain(r)[|MainChain(q)|];
            && AddBlockNoValidation(q, b).Ok?
            && Follows(AddBlockNoValidation(q, b).value, r)
            && MainChain(AddBlockNoValidation(q, b).value) == MainChain(q) + [b]
  {
    hide BlockHash, LedgerOk, NoHeaderCollision, AddBlockNoValidation, ChainAt, ExtensionOk, WellFormedTree;
    FollowsFacts(q, r);
    NextBlock(q, r);
    NextExtends(q, r);
    var b := MainChain(r)[|MainChain(q)|];
    GrowthKeepsLedger(q, b);
    AddedCurrent(q, b);
    var q' := AddBlockNoValidation(q, b).value;
    HeadersGrow(q, r, b, q');
    ExtensionHeight(q, b);
    TreeGrows(q.blockByHash, b);
  }

  lemma ExtensionHeight(q: CoinState, b: Block)
    requires WellFormedTree(q.blockByHash) && Ledger.Extends(q, b)
    ensures b.Height() == q.blockByHash[b.Previous()].Height() + 1
  {
    hide BlockHash, ChainAt, TransactionsOk, TargetOk, Linked;
  }

  // ----- the verdict on it is the responder's

  /** Requester and responder have the same entries for the requester's head. */
  lemma HeadEntries(q: CoinState, r: CoinState)
    requires Follows(q, r)
    ensures q.current.Some? && SameEntries(q, r, q.current.value)
  {
    hide BlockHash, LedgerOk, NoHeaderCollision, Follows, Replayed, PathMap, ValidChain, Linked, WellFormedTree,
      ChainAt;
    FollowsFacts(q, r);
    HeadOfMain(q);
    HeadOfMain(r);
    var h, n := q.current.value, |MainChain(q)| - 1;
    EntryParts(q, h);
    EntryParts(r, r.current.value);
    OnActiveChain(r, n);
    OnActiveChain(q, n);
    ChainOfAncestor(r.blockByHash, r.current.value, n);
    assert MainChain(r)[..n + 1] == MainChain(q);
    EntryParts(r, h);
  }

  /** How the block at each height arrives: in response to what, and when. */
  type Delivery = nat -> (nat, int)

  function Message(b: Block, how: Delivery): Event {
    BlockReceived(Received(b, how(b.Height()).0, how(b.Height()).1))
  }

  /** The responder has a ledger of known transactions, and found the blocks of its active chain valid, as they are by
      themselves when they arrive. */
  ghost predicate Serves(cp: Checkpoints, r: CoinState, how: Delivery, ts: set<Transaction>) {
    && LedgerOk(r) && StoredTransactions(r.blockByHash) <= ts && NoCollisionIn(ts)
    && forall b | b in MainChain(r) && b.Height() > 0 ::
         BlockByItself(b, how(b.Height()).1).Ok? && BlockInCoinstate(cp, b, r).Ok?
  }

  /** The requester's node: it follows the responder, its pool is valid, its transactions are known. */
  ghost predicate Catching(s: State, r: CoinState, ts: set<Transaction>) {
    NodeOk(s, ts) && Follows(s.coinstate, r)
  }

  /** `b` comes next after the requester's head. */
  ghost predicate IsNext(s: State, r: CoinState, b: Block) {
    && Follows(s.coinstate, r) && |MainChain(s.coinstate)| < |MainChain(r)|
    && b == MainChain(r)[|MainChain(s.coinstate)|]
  }

  /** The requester's active chain has grown by `b`. */
  ghost predicate Advanced(s: State, r: CoinState, ts: set<Transaction>, b: Block, after: State) {
    && LedgerOk(s.coinstate) && Catching(after, r, ts)
    && MainChain(after.coinstate) == MainChain(s.coinstate) + [b]
  }

  /** The handler takes the next block, validating it or not, raises nothing, and the block becomes the head. */
  lemma ReceiveNext(cp: Checkpoints, s: State, r: CoinState, how: Delivery, ts: set<Transaction>, b: Block)
    requires Catching(s, r, ts) && Serves(cp, r, how, ts) && IsNext(s, r, b)
    ensures EventStep(cp, s, Message(b, how)).1.Ok? && Advanced(s, r, ts, b, EventStep(cp, s, Message(b, how)).0)
  {
    hide BlockHash, LedgerOk, NoHeaderCollision, AddBlockNoValidation, ChainAt, Follows, BlockByItself, MainChain,
      BlockInCoinstate, Step, NodeOk, NoCollisionIn, StoredTransactions, IsValidated, SameEntries, Fits;
    var q, m := s.coinstate, Message(b, how).m;
    FollowsFacts(q, r);
    NextBlock(q, r);
    ServedBlock(cp, r, how, ts, b);
    HeadOfMain(q);
    HeadEntries(q, r);
    AdoptNext(q, r);
    NextIsNew(q, r, b);
    VerdictLocal(cp, b, q, r);
    StepMoves(cp, s, m);
    BlockKeepsNodeOk(cp, s, m, ts);
  }

  lemma ServedBlock(cp: Checkpoints, r: CoinState, how: Delivery, ts: set<Transaction>, b: Block)
    requires Serves(cp, r, how, ts) && b in MainChain(r) && b.Height() > 0
    requires BlockHash(b) in r.blockByHash && r.blockByHash[BlockHash(b)] == b
    ensures BlockByItself(b, Message(b, how).m.now).Ok? && BlockInCoinstate(cp, b, r).Ok?
    ensures NoCollisionIn(ts) && Fits(Message(b, how), ts)
  {
    hide BlockHash, EntryOk, Childless, MainChain, BlockByItself, BlockInCoinstate, NoCollisionIn;
  }

  ghost function Messages(blocks: seq<Block>, how: Delivery): seq<Event> {
    seq(|blocks|, i requires 0 <= i < |blocks| => Message(blocks[i], how))
  }

  lemma {:induction false} ReceiveUpTo(
    cp: Checkpoints, s: State, r: CoinState, how: Delivery, ts: set<Transaction>, m: nat)
    requires Catching(s, r, ts) && Serves(cp, r, how, ts) && |MainChain(s.coinstate)| <= m <= |MainChain(r)|
    ensures var after := Run(cp, s, Messages(MainChain(r)[|MainChain(s.coinstate)|..m], how));
            Catching(after, r, ts) && MainChain(after.coinstate) == MainChain(r)[..m]
    decreases m
  {
    hide LedgerOk, NoHeaderCollision, MainChain, NodeOk, Serves, EventStep, Run, Follows;
    FollowsFacts(s.coinstate, r);
    var n, main := |MainChain(s.coinstate)|, MainChain(r);
    var es := Messages(main[n..m], how);
    if m == n {
      assert es == [] && main[..m] == MainChain(s.coinstate);
      RunStart(cp, s);
    } else {
      ReceiveUpTo(cp, s, r, how, ts, m - 1);
      assert es[..|es| - 1] == Messages(main[n..m - 1], how);
      RunStep(cp, s, es);
      assert es[|es| - 1] == Message(main[m - 1], how);
      ReceiveNext(cp, Run(cp, s, es[..|es| - 1]), r, how, ts, main[m - 1]);
      assert main[..m] == main[..m - 1] + [main[m - 1]];
    }
  }

  // ----- rounds

  ghost function BlocksFor(r: CoinState, items: seq<Hash>): Result<seq<Block>> {
    if exists h | h in items :: h !in r.blockByHash then Err(KeyError)
    else Ok(seq(|items|, i requires 0 <= i < |items| => r.blockByHash[items[i]]))
  }

  /** One round: the locator, the inventory, and the blocks named in it received one after another. */
  ghost function Round(cp: Checkpoints, s: State, r: CoinState, how: Delivery): Result<State> {
    var locator :- GetGetBlocksMessage(s.coinstate);
    var items :- Reply(r, locator);
    var blocks :- BlocksFor(r, items);
    Ok(Run(cp, s, Messages(blocks, how)))
  }

  ghost function Rounds(cp: Checkpoints, s: State, r: CoinState, how: Delivery, i: nat): Result<State> {
    if i == 0 then Ok(s)
    else
      var before :- Rounds(cp, s, r, how, i - 1);
      Round(cp, before, r, how)
  }

  lemma ActiveBlocks(r: CoinState, n: nat, m: nat)
    requires LedgerOk(r) && n <= m <= |MainHashes(r)|
    ensures BlocksFor(r, MainHashes(r)[n..m]) == Ok(MainChain(r)[n..m])
  {
    hide LedgerOk, BlockHash, MainChain, ByHeightAtHead;
    var items, blocks := MainHashes(r)[n..m], MainChain(r)[n..m];
    forall i | 0 <= i < |items| ensures items[i] in r.blockByHash && r.blockByHash[items[i]] == blocks[i] {
      OnActiveChain(r, n + i);
    }
    assert forall h | h in items :: h in r.blockByHash;
    assert BlocksFor(r, items).value == blocks;
  }

  /** The requester has got `k` more blocks of the responder's active chain, or as many as there are. */
  ghost predicate CaughtUpBy(s: State, r: CoinState, ts: set<Transaction>, k: nat, after: State) {
    && LedgerOk(s.coinstate) && LedgerOk(r) && LedgerOk(after.coinstate)
    && MainChain(after.coinstate) == MainChain(r)[..Min(|MainChain(s.coinstate)| + k, |MainChain(r)|)]
    && Catching(after, r, ts)
  }

  /** A round adds exactly the next blocks of the responder's active chain, 500 or as many as there are. */
  lemma RoundAdopts(cp: Checkpoints, s: State, r: CoinState, how: Delivery, ts: set<Transaction>)
    requires Catching(s, r, ts) && Serves(cp, r, how, ts)
    ensures Round(cp, s, r, how).Ok?
    ensures CaughtUpBy(s, r, ts, GET_BLOCKS_INVENTORY_SIZE, Round(cp, s, r, how).value)
  {
    hide LedgerOk, NoHeaderCollision, MainChain, MainHashes, Reply, GetGetBlocksMessage, BlocksFor, Run, Follows,
      NodeOk, Serves, Messages;
    FollowsFacts(s.coinstate, r);
    PrefixReply(s.coinstate, r);
    var n := |MainChain(s.coinstate)|;
    var m := Min(n + GET_BLOCKS_INVENTORY_SIZE, |MainChain(r)|);
    ServesLedger(cp, r, how, ts);
    ActiveBlocks(r, n, m);
    ReceiveUpTo(cp, s, r, how, ts, m);
    FollowsFacts(Round(cp, s, r, how).value.coinstate, r);
  }

  lemma ServesLedger(cp: Checkpoints, r: CoinState, how: Delivery, ts: set<Transaction>)
    requires Serves(cp, r, how, ts)
    ensures LedgerOk(r)
  {
    hide LedgerOk, MainChain;
  }

  lemma {:induction false} AfterRounds(
    cp: Checkpoints, s: State, r: CoinState, how: Delivery, ts: set<Transaction>, i: nat)
    requires Catching(s, r, ts) && Serves(cp, r, how, ts)
    ensures Rounds(cp, s, r, how, i).Ok?
    ensures CaughtUpBy(s, r, ts, GET_BLOCKS_INVENTORY_SIZE * i, Rounds(cp, s, r, how, i).value)
    decreases i
  {
    hide LedgerOk, NoHeaderCollision, MainChain, Round, Follows, NodeOk, Serves;
    FollowsFacts(s.coinstate, r);
    if i == 0 {
      assert MainChain(s.coinstate) == MainChain(r)[..|MainChain(s.coinstate)|];
    } else {
      AfterRounds(cp, s, r, how, ts, i - 1);
      RoundAdopts(cp, Rounds(cp, s, r, how, i - 1).value, r, how, ts);
    }
  }

  /** A gap of `g` blocks is closed after ceil(g / 500) rounds, and not before. */
  lemma GapCloses(cp: Checkpoints, s: State, r: CoinState, how: Delivery, ts: set<Transaction>, i: nat)
    requires Catching(s, r, ts) && Serves(cp, r, how, ts)
    ensures Rounds(cp, s, r, how, i).Ok? && LedgerOk(Rounds(cp, s, r, how, i).value.coinstate)
    ensures var gap := |MainChain(r)| - |MainChain(s.coinstate)|;
            MainChain(Rounds(cp, s, r, how, i).value.coinstate) == MainChain(r) <==>
            i >= (gap + 499) / GET_BLOCKS_INVENTORY_SIZE
  {
    hide LedgerOk, NoHeaderCollision, MainChain, Rounds, Follows, NodeOk, Serves;
    FollowsFacts(s.coinstate, r);
    AfterRounds(cp, s, r, how, ts, i);
    FollowsFacts(Rounds(cp, s, r, how, i).value.coinstate, r);
    var n := |MainChain(r)|;
    assert MainChain(r)[..n] == MainChain(r);
  }
}

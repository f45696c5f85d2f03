/** Chain synchronisation: the locator a peer sends, and the inventory it gets back. */
module Sync {
  import opened Basics
  import opened Crypto
  import opened Datatypes
  import opened Codecs
  import opened Balances
  import opened Chains
  import opened CoinStates
  import opened ChainRules
  import opened Ledger
  import opened Forks

  const GET_BLOCKS_INVENTORY_SIZE := 500

  // ----- the requester

  const LOCATOR_SIZE: nat := 70

  /** Ten recent heights, then squares: 0, 1, ..., 9, 16, 25, ..., 3969 below the head. */
  function Oldness(i: nat): nat {
    if i < 10 then i else (i - 6) * (i - 6)
  }

  function HeightsFrom(blockHeight: nat, i: nat): seq<nat>
    requires i <= LOCATOR_SIZE
    decreases LOCATOR_SIZE - i
  {
    if i == LOCATOR_SIZE then []
    else (if Oldness(i) <= blockHeight then [blockHeight - Oldness(i)] else []) + HeightsFrom(blockHeight, i + 1)
  }

  function GetRecentBlockHeights(blockHeight: nat): seq<nat> {
    HeightsFrom(blockHeight, 0)
  }

  lemma HeightsStep(blockHeight: nat, i: nat)
    requires i < LOCATOR_SIZE
    ensures HeightsFrom(blockHeight, i) ==
            if Oldness(i) <= blockHeight then [blockHeight - Oldness(i)] + HeightsFrom(blockHeight, i + 1)
            else HeightsFrom(blockHeight, i + 1)
  {
    hide Oldness;
  }

  /** Exactly the heights at one of these distances below the head, as far as there are any. */
  lemma {:induction false} RecentHeightsExactly(blockHeight: nat, i: nat, x: nat)
    requires i <= LOCATOR_SIZE
    ensures x in HeightsFrom(blockHeight, i) <==>
              exists k: nat | i <= k < LOCATOR_SIZE :: x + Oldness(k) == blockHeight
    decreases LOCATOR_SIZE - i
  {
    hide Oldness, HeightsFrom;
    if i < LOCATOR_SIZE {
      HeightsStep(blockHeight, i);
      RecentHeightsExactly(blockHeight, i + 1, x);
    } else {
      assert HeightsFrom(blockHeight, LOCATOR_SIZE) == [] by { NoHeights(blockHeight); }
    }
  }

  lemma NoHeights(blockHeight: nat)
    ensures HeightsFrom(blockHeight, LOCATOR_SIZE) == []
  {
  }

  /** Highest first. */
  lemma {:induction false} RecentHeightsDescend(blockHeight: nat, i: nat)
    requires i <= LOCATOR_SIZE
    ensures forall a, b | 0 <= a < b < |HeightsFrom(blockHeight, i)| ::
              HeightsFrom(blockHeight, i)[a] > HeightsFrom(blockHeight, i)[b]
    ensures forall y | y in HeightsFrom(blockHeight, i) :: i < LOCATOR_SIZE && y + Oldness(i) <= blockHeight
    decreases LOCATOR_SIZE - i
  {
    hide Oldness, HeightsFrom;
    if i < LOCATOR_SIZE {
      HeightsStep(blockHeight, i);
      RecentHeightsDescend(blockHeight, i + 1);
      if i + 1 < LOCATOR_SIZE {
        OldnessGap(i + 1);
      }
      var rest := HeightsFrom(blockHeight, i + 1);
      assert forall k | 0 <= k < |rest| :: rest[k] in rest;
    } else {
      NoHeights(blockHeight);
    }
  }

  function HashesAt(byHeight: map<nat, Block>, heights: seq<nat>): Result<seq<Hash>> {
    if heights == [] then Ok([])
    else if heights[0] !in byHeight then Err(KeyError)
    else
      var rest :- HashesAt(byHeight, heights[1..]);
      Ok([BlockHash(byHeight[heights[0]])] + rest)
  }

  /** The potential start hashes of a GetBlocks message, most recent first. */
  function GetGetBlocksMessage(cs: CoinState): Result<seq<Hash>> {
    var head :- Head(cs);
    var byHeight :- ByHeightAtHead(cs);
    HashesAt(byHeight, GetRecentBlockHeights(head.Height()))
  }

  // ----- the responder

  /** Where the reply starts; `None` when there is nothing new to tell. */
  function StartHeight(cs: CoinState, byHeight: map<nat, Block>, hashes: seq<Hash>): Option<nat> {
    if hashes == [] then Some(1)
    else if hashes[0] !in cs.blockByHash then StartHeight(cs, byHeight, hashes[1..])
    else
      var start := cs.blockByHash[hashes[0]].Height() + 1;
      if start !in byHeight then None
      else if byHeight[start].Previous() == hashes[0] then Some(start)
      else StartHeight(cs, byHeight, hashes[1..])
  }

  function HashesBetween(byHeight: map<nat, Block>, start: nat, stop: nat): Result<seq<Hash>>
    decreases stop - start
  {
    if start >= stop then Ok([])
    else if start !in byHeight then Err(KeyError)
    else
      var rest :- HashesBetween(byHeight, start + 1, stop);
      Ok([BlockHash(byHeight[start])] + rest)
  }

  function Reply(cs: CoinState, hashes: seq<Hash>): Result<seq<Hash>> {
    var byHeight :- ByHeightAtHead(cs);
    match StartHeight(cs, byHeight, hashes)
    case None => Ok([])
    case Some(start) =>
      var head :- Head(cs);
      HashesBetween(byHeight, start, Min(start + GET_BLOCKS_INVENTORY_SIZE, head.Height() + 1))
  }

  method HandleGetBlocksMessageReceived(cs: CoinState, potentialStartHashes: seq<Hash>) returns (r: Result<seq<Hash>>)
    ensures r == Reply(cs, potentialStartHashes)
  {
    hide BlockHash;
    var byHeight :- ByHeightAtHead(cs);
    var startHeight := 1;
    for i := 0 to |potentialStartHashes|
      invariant startHeight == 1
      invariant StartHeight(cs, byHeight, potentialStartHashes)
             == StartHeight(cs, byHeight, potentialStartHashes[i..])
    {
      assert potentialStartHashes[i..][1..] == potentialStartHashes[i + 1..];
      var hash := potentialStartHashes[i];
      if hash in cs.blockByHash {
        var start := cs.blockByHash[hash].Height() + 1;
        if start !in byHeight {
          return Ok([]);
        }
        if byHeight[start].Previous() == hash {
          startHeight := start;
          break;
        }
      }
    }
    assert StartHeight(cs, byHeight, potentialStartHashes) == Some(startHeight);
    var head :- Head(cs);
    r := InventoryItems(byHeight, startHeight, Min(startHeight + GET_BLOCKS_INVENTORY_SIZE, head.Height() + 1));
  }

  method InventoryItems(byHeight: map<nat, Block>, start: nat, stop: nat) returns (r: Result<seq<Hash>>)
    ensures r == HashesBetween(byHeight, start, stop)
  {
    hide BlockHash;
    var items := [];
    var height := start;
    ghost var whole := HashesBetween(byHeight, start, stop);
    assert whole.Ok? ==> items + whole.value == whole.value;
    while height < stop
      invariant whole == match HashesBetween(byHeight, height, stop)
                         case Ok(rest) => Ok(items + rest)
                         case Err(e) => Err(e)
    {
      ghost var rest := HashesBetween(byHeight, height, stop);
      if height !in byHeight {
        return Err(KeyError);
      }
      if rest.Ok? {
        var later := HashesBetween(byHeight, height + 1, stop).value;
        assert items + rest.value == (items + [BlockHash(byHeight[height])]) + later;
      }
      items := items + [BlockHash(byHeight[height])];
      height := height + 1;
    }
    assert items + [] == items;
    return Ok(items);
  }

  // ----- what both sides know of their active chains

  ghost function MainHashes(cs: CoinState): (hs: seq<Hash>)
    requires LedgerOk(cs)
    ensures |hs| == |MainChain(cs)| > 0
  {
    seq(|MainChain(cs)|, i requires 0 <= i < |MainChain(cs)| => BlockHash(MainChain(cs)[i]))
  }

  /** A block of the active chain: in the height map, stored under its hash, and its parent is the one before it. */
  lemma OnActiveChain(cs: CoinState, i: nat)
    requires LedgerOk(cs)
    ensures Head(cs).Ok? && Head(cs).value.Height() + 1 == |MainHashes(cs)|
    ensures ByHeightAtHead(cs).Ok? && (i in ByHeightAtHead(cs).value <==> i < |MainHashes(cs)|)
    ensures i < |MainHashes(cs)| ==>
              var b := ByHeightAtHead(cs).value[i];
              && b == MainChain(cs)[i] && BlockHash(b) == MainHashes(cs)[i]
              && MainHashes(cs)[i] in cs.blockByHash && cs.blockByHash[MainHashes(cs)[i]] == b && b.Height() == i
              && (i > 0 ==> b.Previous() == MainHashes(cs)[i - 1])
  {
    hide BlockHash, ChainAt, ValidChain, Replayed, Childless;
    EntryParts(cs, cs.current.value);
    if i < |MainHashes(cs)| {
      ChainMember(cs.blockByHash, cs.current.value, i);
    }
  }

  lemma {:induction false} HashesBetweenActive(cs: CoinState, start: nat, stop: nat)
    requires LedgerOk(cs) && start <= stop <= |MainHashes(cs)|
    ensures ByHeightAtHead(cs).Ok?
    ensures HashesBetween(ByHeightAtHead(cs).value, start, stop) == Ok(MainHashes(cs)[start..stop])
    decreases stop - start
  {
    hide LedgerOk, BlockHash, MainHashes, ByHeightAtHead, Head;
    OnActiveChain(cs, start);
    if start < stop {
      HashesBetweenActive(cs, start + 1, stop);
      assert MainHashes(cs)[start..stop] == [MainHashes(cs)[start]] + MainHashes(cs)[start + 1..stop];
    } else {
      assert MainHashes(cs)[start..stop] == [];
    }
  }

  /** From a start height on or just above the active chain the reply is its next 500 hashes. */
  lemma ReplyFrom(cs: CoinState, hashes: seq<Hash>)
    requires LedgerOk(cs)
    ensures Reply(cs, hashes).Ok? && ByHeightAtHead(cs).Ok?
    ensures match StartHeight(cs, ByHeightAtHead(cs).value, hashes)
            case None => Reply(cs, hashes).value == []
            case Some(start) =>
              && 1 <= start <= |MainHashes(cs)|
              && Reply(cs, hashes).value ==
                   MainHashes(cs)[start..Min(start + GET_BLOCKS_INVENTORY_SIZE, |MainHashes(cs)|)]
  {
    hide LedgerOk, BlockHash, MainHashes, ByHeightAtHead, Head, StartHeight;
    OnActiveChain(cs, 0);
    StartIsOnChain(cs, hashes);
    var start := StartHeight(cs, ByHeightAtHead(cs).value, hashes);
    if start.Some? {
      HashesBetweenActive(cs, start.value, Min(start.value + GET_BLOCKS_INVENTORY_SIZE, |MainHashes(cs)|));
    }
  }

  lemma {:induction false} StartIsOnChain(cs: CoinState, hashes: seq<Hash>)
    requires LedgerOk(cs) && ByHeightAtHead(cs).Ok?
    ensures match StartHeight(cs, ByHeightAtHead(cs).value, hashes)
            case None => true
            case Some(start) => 1 <= start <= |MainHashes(cs)|
    decreases |hashes|
  {
    hide LedgerOk, BlockHash, MainHashes, ByHeightAtHead, Head;
    if hashes != [] {
      StartIsOnChain(cs, hashes[1..]);
      if hashes[0] in cs.blockByHash {
        OnActiveChain(cs, cs.blockByHash[hashes[0]].Height() + 1);
      }
    }
  }

  // ----- where two active chains agree

  ghost function HeaderBytes(blocks: BlockMap): set<Bytes> {
    set h | h in blocks :: EncHeader(blocks[h].header)
  }

  /** The hypothesis: no two headers stored by the two peers collide under the hash. */
  ghost predicate NoHeaderCollision(q: CoinState, r: CoinState) {
    CollisionFree(HeaderBytes(q.blockByHash) + HeaderBytes(r.blockByHash))
  }

  lemma SameHashSameHeader(q: CoinState, r: CoinState, h: Hash)
    requires LedgerOk(q) && LedgerOk(r) && NoHeaderCollision(q, r)
    requires h in q.blockByHash && h in r.blockByHash
    ensures q.blockByHash[h].header == r.blockByHash[h].header
  {
    hide EncHeader, Childless, EntryOk, CurrentOk;
    assert Linked(q.blockByHash, h) && Linked(r.blockByHash, h);
    assert EncHeader(q.blockByHash[h].header) in HeaderBytes(q.blockByHash);
    assert EncHeader(r.blockByHash[h].header) in HeaderBytes(r.blockByHash);
    HeaderEncodingInjective(q.blockByHash[h].header, r.blockByHash[h].header);
  }

  ghost predicate AgreeAt(q: CoinState, r: CoinState, i: nat)
    requires LedgerOk(q) && LedgerOk(r)
  {
    i < |MainHashes(q)| && i < |MainHashes(r)| && MainHashes(q)[i] == MainHashes(r)[i]
  }

  /** `f` is the greatest height at which the active chains have the same block hash. */
  ghost predicate LastAgreement(q: CoinState, r: CoinState, f: nat)
    requires LedgerOk(q) && LedgerOk(r)
  {
    AgreeAt(q, r, f) && forall i | i > f :: !AgreeAt(q, r, i)
  }

  /** Chains that agree at a height agree below it. */
  lemma {:induction false} AgreeBelow(q: CoinState, r: CoinState, f: nat, i: nat)
    requires LedgerOk(q) && LedgerOk(r) && NoHeaderCollision(q, r) && AgreeAt(q, r, f) && i <= f
    ensures AgreeAt(q, r, i)
    decreases f - i
  {
    hide LedgerOk, NoHeaderCollision, MainHashes, ByHeightAtHead, Head, BlockHash;
    if i < f {
      OnActiveChain(q, f);
      OnActiveChain(r, f);
      SameHashSameHeader(q, r, MainHashes(q)[f]);
      AgreeBelow(q, r, f - 1, i);
    }
  }

  // ----- the locator, entry by entry

  ghost function LocatorFrom(main: seq<Hash>, i: nat): seq<Hash>
    requires main != [] && i <= LOCATOR_SIZE
    decreases LOCATOR_SIZE - i
  {
    if i == LOCATOR_SIZE then []
    else (if Oldness(i) < |main| then [main[|main| - 1 - Oldness(i)]] else []) + LocatorFrom(main, i + 1)
  }

  lemma LocatorStep(main: seq<Hash>, i: nat)
    requires main != [] && i < LOCATOR_SIZE
    ensures LocatorFrom(main, i) ==
            if Oldness(i) < |main| then [main[|main| - 1 - Oldness(i)]] + LocatorFrom(main, i + 1)
            else LocatorFrom(main, i + 1)
  {
    hide Oldness;
  }

  lemma HashesAtStep(byHeight: map<nat, Block>, height: nat, rest: seq<nat>)
    requires height in byHeight && HashesAt(byHeight, rest).Ok?
    ensures HashesAt(byHeight, [height] + rest) == Ok([BlockHash(byHeight[height])] + HashesAt(byHeight, rest).value)
  {
    hide BlockHash;
    assert ([height] + rest)[1..] == rest;
  }

  lemma NothingLocated(byHeight: map<nat, Block>, main: seq<Hash>)
    requires main != []
    ensures HashesAt(byHeight, []) == Ok([]) && LocatorFrom(main, LOCATOR_SIZE) == []
  {
  }

  /** One more entry, on sequences alone. */
  lemma LocatorEntry(byHeight: map<nat, Block>, main: seq<Hash>, i: nat)
    requires main != [] && i < LOCATOR_SIZE
    requires HashesAt(byHeight, HeightsFrom(|main| - 1, i + 1)) == Ok(LocatorFrom(main, i + 1))
    requires Oldness(i) < |main| ==>
               var height := |main| - 1 - Oldness(i);
               height in byHeight && BlockHash(byHeight[height]) == main[height]
    ensures HashesAt(byHeight, HeightsFrom(|main| - 1, i)) == Ok(LocatorFrom(main, i))
  {
    hide BlockHash, Oldness, HeightsFrom, LocatorFrom, HashesAt;
    HeightsStep(|main| - 1, i);
    LocatorStep(main, i);
    if Oldness(i) < |main| {
      HashesAtStep(byHeight, |main| - 1 - Oldness(i), HeightsFrom(|main| - 1, i + 1));
    }
  }

  lemma {:induction false} HashesAtHeights(cs: CoinState, i: nat)
    requires LedgerOk(cs) && i <= LOCATOR_SIZE
    ensures ByHeightAtHead(cs).Ok?
    ensures HashesAt(ByHeightAtHead(cs).value, HeightsFrom(|MainHashes(cs)| - 1, i))
         == Ok(LocatorFrom(MainHashes(cs), i))
    decreases LOCATOR_SIZE - i
  {
    hide LedgerOk, MainHashes, ByHeightAtHead, Head, BlockHash, Oldness, HeightsFrom, LocatorFrom, HashesAt;
    OnActiveChain(cs, 0);
    var main := MainHashes(cs);
    if i < LOCATOR_SIZE {
      HashesAtHeights(cs, i + 1);
      if Oldness(i) < |main| {
        OnActiveChain(cs, |main| - 1 - Oldness(i));
      }
      LocatorEntry(ByHeightAtHead(cs).value, main, i);
    } else {
      NoHeights(|main| - 1);
      NothingLocated(ByHeightAtHead(cs).value, main);
    }
  }

  lemma LocatorOfState(cs: CoinState)
    requires LedgerOk(cs)
    ensures GetGetBlocksMessage(cs) == Ok(LocatorFrom(MainHashes(cs), 0))
  {
    hide LedgerOk, MainHashes, ByHeightAtHead, Head, HashesAt, HeightsFrom, LocatorFrom;
    OnActiveChain(cs, 0);
    HashesAtHeights(cs, 0);
  }

  /** An entry above the agreement never starts the reply. */
  lemma EntryAbove(q: CoinState, r: CoinState, k: nat, rest: seq<Hash>)
    requires LedgerOk(q) && LedgerOk(r) && NoHeaderCollision(q, r)
    requires k < |MainHashes(q)| && !AgreeAt(q, r, k)
    ensures ByHeightAtHead(r).Ok?
    ensures var start := StartHeight(r, ByHeightAtHead(r).value, [MainHashes(q)[k]] + rest);
            (start == None && k + 1 >= |MainHashes(r)|) || start == StartHeight(r, ByHeightAtHead(r).value, rest)
  {
    hide LedgerOk, NoHeaderCollision, MainHashes, ByHeightAtHead, Head, BlockHash;
    var x := MainHashes(q)[k];
    OnActiveChain(q, k);
    OnActiveChain(r, k + 1);
    assert ([x] + rest)[1..] == rest;
    if x in r.blockByHash {
      SameHashSameHeader(q, r, x);
      assert r.blockByHash[x].Height() == k;
    }
  }

  /** The first entry at or below the agreement starts the reply right above it. */
  lemma EntryBelow(q: CoinState, r: CoinState, k: nat, rest: seq<Hash>)
    requires LedgerOk(q) && LedgerOk(r) && AgreeAt(q, r, k)
    ensures ByHeightAtHead(r).Ok?
    ensures StartHeight(r, ByHeightAtHead(r).value, [MainHashes(q)[k]] + rest)
         == if k + 1 < |MainHashes(r)| then Some(k + 1) else None
  {
    hide LedgerOk, MainHashes, ByHeightAtHead, Head, BlockHash;
    OnActiveChain(r, k);
    OnActiveChain(r, k + 1);
  }

  lemma OldnessGap(i: nat)
    requires 1 <= i < LOCATOR_SIZE
    ensures Oldness(i - 1) < Oldness(i) <= Oldness(i - 1) + 125
    ensures Oldness(0) == 0 && Oldness(LOCATOR_SIZE - 1) == 3969
  {
    if i > 10 {
      var x := i - 6;
      assert Oldness(i) == x * x && Oldness(i - 1) == (x - 1) * (x - 1) == x * x - 2 * x + 1;
    }
  }

  lemma {:induction false} NothingOlder(main: seq<Hash>, i: nat)
    requires main != [] && 1 <= i <= LOCATOR_SIZE && (i < LOCATOR_SIZE ==> Oldness(i) >= |main|)
    ensures LocatorFrom(main, i) == []
    decreases LOCATOR_SIZE - i
  {
    hide Oldness;
    if i + 1 < LOCATOR_SIZE {
      OldnessGap(i + 1);
    }
    if i < LOCATOR_SIZE {
      NothingOlder(main, i + 1);
    }
  }

  lemma LastAgreementIs(q: CoinState, r: CoinState, f: nat, k: nat)
    requires LedgerOk(q) && LedgerOk(r) && LastAgreement(q, r, f)
    ensures AgreeAt(q, r, f) && f < |MainHashes(q)| && (k > f ==> !AgreeAt(q, r, k))
  {
    hide MainHashes, LedgerOk;
  }

  /** What a locator entry and those after it lead to: a start close to the agreement, or nothing new because the
      responder's active chain is no longer than the requester's. */
  ghost predicate CloseStart(q: CoinState, r: CoinState, f: nat, start: Option<nat>)
    requires LedgerOk(q) && LedgerOk(r)
  {
    match start
    case None => |MainHashes(q)| >= |MainHashes(r)|
    case Some(height) => f - 124 < height <= f + 1
  }

  lemma FirstEntryInReach(q: CoinState, r: CoinState, f: nat, k: nat, rest: seq<Hash>)
    requires LedgerOk(q) && LedgerOk(r) && NoHeaderCollision(q, r) && AgreeAt(q, r, f) && f - 125 < k <= f
    ensures ByHeightAtHead(r).Ok?
    ensures CloseStart(q, r, f, StartHeight(r, ByHeightAtHead(r).value, [MainHashes(q)[k]] + rest))
  {
    hide LedgerOk, NoHeaderCollision, MainHashes, ByHeightAtHead, StartHeight;
    AgreeBelow(q, r, f, k);
    EntryBelow(q, r, k, rest);
  }

  lemma NoEntryInReach(q: CoinState, r: CoinState, f: nat)
    requires LedgerOk(q) && LedgerOk(r) && f < 125
    ensures ByHeightAtHead(r).Ok?
    ensures CloseStart(q, r, f, StartHeight(r, ByHeightAtHead(r).value, []))
  {
    hide LedgerOk, MainHashes, ByHeightAtHead;
    OnActiveChain(r, 0);
  }

  lemma EntryOutOfReach(q: CoinState, r: CoinState, f: nat, k: nat, rest: seq<Hash>)
    requires LedgerOk(q) && LedgerOk(r) && NoHeaderCollision(q, r) && LastAgreement(q, r, f)
    requires f < k < |MainHashes(q)| && ByHeightAtHead(r).Ok?
    requires CloseStart(q, r, f, StartHeight(r, ByHeightAtHead(r).value, rest))
    ensures CloseStart(q, r, f, StartHeight(r, ByHeightAtHead(r).value, [MainHashes(q)[k]] + rest))
  {
    hide LedgerOk, NoHeaderCollision, MainHashes, ByHeightAtHead, StartHeight, AgreeAt, LastAgreement;
    LastAgreementIs(q, r, f, k);
    EntryAbove(q, r, k, rest);
  }

  lemma WithinReach(h: nat, f: nat, i: nat)
    requires f + 3969 >= h && f <= h && i <= LOCATOR_SIZE && (i > 0 ==> Oldness(i - 1) < h - f)
    ensures i < LOCATOR_SIZE && (i == 0 ==> Oldness(i) == 0) && (i > 0 ==> Oldness(i) <= Oldness(i - 1) + 125)
  {
    hide Oldness;
    OldnessGap(if 1 <= i < LOCATOR_SIZE then i else 1);
  }

  lemma {:induction false} StartFrom(q: CoinState, r: CoinState, f: nat, i: nat)
    requires LedgerOk(q) && LedgerOk(r) && NoHeaderCollision(q, r) && LastAgreement(q, r, f)
    requires f + 3969 >= |MainHashes(q)| - 1 && i <= LOCATOR_SIZE
    requires i > 0 ==> Oldness(i - 1) < |MainHashes(q)| - 1 - f
    ensures ByHeightAtHead(r).Ok?
    ensures CloseStart(q, r, f, StartHeight(r, ByHeightAtHead(r).value, LocatorFrom(MainHashes(q), i)))
    decreases LOCATOR_SIZE - i
  {
    hide LedgerOk, NoHeaderCollision, MainHashes, ByHeightAtHead, Head, BlockHash, Oldness, StartHeight, LocatorFrom,
      AgreeAt, LastAgreement, CloseStart;
    LastAgreementIs(q, r, f, f);
    var main := MainHashes(q);
    var h := |main| - 1;
    WithinReach(h, f, i);
    LocatorStep(main, i);
    if Oldness(i) > h {
      NothingOlder(main, i);
      NoEntryInReach(q, r, f);
    } else if h - Oldness(i) > f {
      StartFrom(q, r, f, i + 1);
      EntryOutOfReach(q, r, f, h - Oldness(i), LocatorFrom(main, i + 1));
    } else {
      FirstEntryInReach(q, r, f, h - Oldness(i), LocatorFrom(main, i + 1));
    }
  }

  // ----- the main results

  /** The reply is the responder's active chain from `start` on, at most 500 hashes of it, starting less than 124
      below the last agreement and never too late; the requester has the parent of the first block. */
  ghost predicate GoodReply(q: CoinState, r: CoinState, f: nat, start: nat, items: seq<Hash>)
    requires LedgerOk(q) && LedgerOk(r)
  {
    && 1 <= start && f - 124 < start <= f + 1
    && 0 < |items| <= GET_BLOCKS_INVENTORY_SIZE && start + |items| <= |MainHashes(r)|
    && items == MainHashes(r)[start..start + |items|]
    && start - 1 < |MainHashes(q)| && MainHashes(q)[start - 1] == MainHashes(r)[start - 1]
    && items[0] in r.blockByHash && r.blockByHash[items[0]].Previous() in q.blockByHash
  }

  /** A reply is a good one unless it is empty, and it is not empty when the responder's active chain is longer. */
  lemma ReplyBound(q: CoinState, r: CoinState, f: nat) returns (start: nat)
    requires LedgerOk(q) && LedgerOk(r) && NoHeaderCollision(q, r) && LastAgreement(q, r, f)
    requires f + 3969 >= |MainHashes(q)| - 1
    ensures GetGetBlocksMessage(q).Ok? && Reply(r, GetGetBlocksMessage(q).value).Ok?
    ensures var items := Reply(r, GetGetBlocksMessage(q).value).value;
            && (items != [] ==> GoodReply(q, r, f, start, items))
            && (|MainHashes(r)| > |MainHashes(q)| ==> items != [])
  {
    hide LedgerOk, NoHeaderCollision, MainHashes, ByHeightAtHead, Head, BlockHash, StartHeight, Reply,
      GetGetBlocksMessage, AgreeAt, LastAgreement, LocatorFrom;
    LocatorOfState(q);
    var locator := GetGetBlocksMessage(q).value;
    StartFrom(q, r, f, 0);
    LastAgreementIs(q, r, f, f);
    ReplyFrom(r, locator);
    start := 1;
    var found := StartHeight(r, ByHeightAtHead(r).value, locator);
    if found.Some? {
      start := found.value;
      LastAgreementIs(q, r, f, start);
      AgreeBelow(q, r, f, start - 1);
      Agreed(q, r, start - 1);
      OnActiveChain(q, start - 1);
      OnActiveChain(r, start);
    }
  }

  lemma Agreed(q: CoinState, r: CoinState, i: nat)
    requires LedgerOk(q) && LedgerOk(r) && AgreeAt(q, r, i)
    ensures i < |MainHashes(q)| && i < |MainHashes(r)| && MainHashes(q)[i] == MainHashes(r)[i]
  {
    hide MainHashes, LedgerOk;
  }

  /** A request that names one block of the responder's active chain is answered with the 500 hashes after it. */
  lemma FollowUp(r: CoinState, k: nat, rest: seq<Hash>)
    requires LedgerOk(r) && k < |MainHashes(r)|
    ensures Reply(r, [MainHashes(r)[k]] + rest)
         == Ok(MainHashes(r)[k + 1..Min(k + 1 + GET_BLOCKS_INVENTORY_SIZE, |MainHashes(r)|)])
  {
    hide LedgerOk, MainHashes, ByHeightAtHead, Head, BlockHash, StartHeight, Reply;
    var hashes := [MainHashes(r)[k]] + rest;
    ReplyFrom(r, hashes);
    OnActiveChain(r, 0);
    EntryOnActiveChain(r, k, rest);
    if k + 1 == |MainHashes(r)| {
      assert MainHashes(r)[k + 1..Min(k + 1 + GET_BLOCKS_INVENTORY_SIZE, |MainHashes(r)|)] == [];
    }
  }

  lemma EntryOnActiveChain(r: CoinState, k: nat, rest: seq<Hash>)
    requires LedgerOk(r) && k < |MainHashes(r)|
    ensures ByHeightAtHead(r).Ok?
    ensures StartHeight(r, ByHeightAtHead(r).value, [MainHashes(r)[k]] + rest)
         == if k + 1 < |MainHashes(r)| then Some(k + 1) else None
  {
    hide LedgerOk, MainHashes;
    EntryBelow(r, r, k, rest);
  }

  /** A requester whose active chain is a beginning of the responder's gets exactly what comes next. */
  lemma PrefixReply(q: CoinState, r: CoinState)
    requires LedgerOk(q) && LedgerOk(r) && MainHashes(q) <= MainHashes(r)
    ensures GetGetBlocksMessage(q).Ok?
    ensures var n := |MainHashes(q)|;
            Reply(r, GetGetBlocksMessage(q).value)
              == Ok(MainHashes(r)[n..Min(n + GET_BLOCKS_INVENTORY_SIZE, |MainHashes(r)|)])
  {
    hide LedgerOk, MainHashes, Reply, GetGetBlocksMessage, LocatorFrom;
    LocatorOfState(q);
    OldnessGap(1);
    LocatorStep(MainHashes(q), 0);
    FollowUp(r, |MainHashes(q)| - 1, LocatorFrom(MainHashes(q), 1));
  }

  // ----- the answer to every locator, and the locator, said without the functions that build them

  ghost predicate OnMain(r: CoinState, h: Hash)
    requires LedgerOk(r)
  {
    h in MainHashes(r)
  }

  /** The reply to every list of hashes: an unknown one is passed over, and so is a known one off the active chain and
      below its head; one at or above the head ends it with nothing to tell; one on the active chain is answered with
      what follows it; and when none is left, the reply starts at height 1. */
  lemma ReplyExactly(r: CoinState, hashes: seq<Hash>)
    requires LedgerOk(r)
    ensures Reply(r, hashes) ==
            if hashes == [] then Ok(MainHashes(r)[Min(1, |MainHashes(r)|)..Min(501, |MainHashes(r)|)])
            else if hashes[0] !in r.blockByHash then Reply(r, hashes[1..])
            else
              var next := r.blockByHash[hashes[0]].Height() + 1;
              if next >= |MainHashes(r)| then Ok([])
              else if OnMain(r, hashes[0]) then Ok(MainHashes(r)[next..Min(next + 500, |MainHashes(r)|)])
              else Reply(r, hashes[1..])
  {
    hide LedgerOk, MainHashes, ByHeightAtHead, Head, BlockHash, Reply;
    ReplyFrom(r, hashes);
    OnActiveChain(r, 0);
    if hashes != [] {
      ReplyFrom(r, hashes[1..]);
      if hashes[0] in r.blockByHash {
        var next := r.blockByHash[hashes[0]].Height() + 1;
        OnActiveChain(r, next);
        if next < |MainHashes(r)| {
          ParentIsOnMain(r, hashes[0], next);
        }
      }
    }
  }

  /** The block after it on the active chain names a stored block as its parent exactly when that is on the chain. */
  lemma ParentIsOnMain(r: CoinState, h: Hash, next: nat)
    requires LedgerOk(r) && h in r.blockByHash && next == r.blockByHash[h].Height() + 1 < |MainHashes(r)|
    ensures ByHeightAtHead(r).Ok? && next in ByHeightAtHead(r).value
    ensures ByHeightAtHead(r).value[next].Previous() == h <==> OnMain(r, h)
  {
    hide LedgerOk, MainHashes, ByHeightAtHead, Head, BlockHash;
    OnActiveChain(r, next);
    OnActiveChain(r, next - 1);
    if OnMain(r, h) {
      var i :| 0 <= i < |MainHashes(r)| && MainHashes(r)[i] == h;
      OnActiveChain(r, i);
    }
  }

  /** The heights of the locator: the ten highest, and those at the squares of 4 to 63 below the head. */
  lemma HeightsExactly(blockHeight: nat, x: nat)
    ensures x in GetRecentBlockHeights(blockHeight) <==>
            x <= blockHeight && (blockHeight - x < 10 || exists k: nat | 4 <= k <= 63 :: blockHeight - x == k * k)
  {
    RecentHeightsExactly(blockHeight, 0, x);
    if x in GetRecentBlockHeights(blockHeight) {
      var i: nat :| i < LOCATOR_SIZE && x + Oldness(i) == blockHeight;
      if i >= 10 {
        assert 4 <= i - 6 <= 63 && blockHeight - x == (i - 6) * (i - 6);
      }
    }
    if x <= blockHeight && blockHeight - x < 10 {
      assert x + Oldness(blockHeight - x) == blockHeight;
    }
    if k: nat :| x <= blockHeight && 4 <= k <= 63 && blockHeight - x == k * k {
      assert x + Oldness(k + 6) == blockHeight;
    }
  }

  lemma {:induction false} LocatorAtHeights(main: seq<Hash>, i: nat)
    requires main != [] && i <= LOCATOR_SIZE
    ensures var heights := HeightsFrom(|main| - 1, i);
            && |LocatorFrom(main, i)| == |heights|
            && forall k | 0 <= k < |heights| :: heights[k] < |main| && LocatorFrom(main, i)[k] == main[heights[k]]
    decreases LOCATOR_SIZE - i
  {
    hide Oldness, HeightsFrom, LocatorFrom;
    if i < LOCATOR_SIZE {
      HeightsStep(|main| - 1, i);
      LocatorStep(main, i);
      LocatorAtHeights(main, i + 1);
    } else {
      NoHeights(|main| - 1);
      NothingLocated(map[], main);
    }
  }

  /** The locator lists the hashes of the active chain at those heights, in their order. */
  lemma LocatorExactly(cs: CoinState)
    requires LedgerOk(cs)
    ensures GetGetBlocksMessage(cs).Ok?
    ensures var locator, heights := GetGetBlocksMessage(cs).value, GetRecentBlockHeights(|MainHashes(cs)| - 1);
            && |locator| == |heights|
            && forall k | 0 <= k < |heights| ::
                 heights[k] < |MainHashes(cs)| && locator[k] == MainHashes(cs)[heights[k]]
  {
    hide LedgerOk, MainHashes, GetGetBlocksMessage, LocatorFrom, HeightsFrom;
    LocatorOfState(cs);
    LocatorAtHeights(MainHashes(cs), 0);
  }
}

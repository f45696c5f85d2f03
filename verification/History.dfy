/** No transaction occurs twice on a chain, so nothing spent is ever spendable again on it. */
module History {
  import opened Basics
  import opened Crypto
  import opened Datatypes
  import opened Codecs
  import opened Balances
  import opened Consensus
  import opened BlockEffects
  import opened ChainRules

  /** All transactions of a chain, in order. */
  ghost function AllTransactions(chain: seq<Block>): seq<Transaction> {
    if chain == [] then []
    else AllTransactions(chain[..|chain| - 1]) + chain[|chain| - 1].transactions
  }

  ghost function HashesOf(ts: seq<Transaction>): set<Hash> {
    set t | t in ts :: TransactionHash(t)
  }

  ghost function TransactionSet(ts: seq<Transaction>): set<Transaction> {
    set t | t in ts
  }

  ghost function EncodingsIn(ts: set<Transaction>): set<Bytes> {
    set t | t in ts :: EncTransaction(t)
  }

  /** The hypothesis: no two of these transactions collide under the hash. */
  ghost predicate NoCollisionIn(ts: set<Transaction>) {
    CollisionFree(EncodingsIn(ts))
  }

  /** The same for the transactions of a chain. */
  ghost predicate NoCollision(chain: seq<Block>) {
    NoCollisionIn(TransactionSet(AllTransactions(chain)))
  }

  lemma SameHashSameTransaction(chain: seq<Block>, t: Transaction, t': Transaction)
    requires NoCollision(chain) && t in AllTransactions(chain) && t' in AllTransactions(chain)
    requires TransactionHash(t) == TransactionHash(t')
    ensures t == t'
  {
    assert EncTransaction(t) in EncodingsIn(TransactionSet(AllTransactions(chain)));
    assert EncTransaction(t') in EncodingsIn(TransactionSet(AllTransactions(chain)));
    TransactionEncodingInjective(t, t');
  }

  lemma {:induction false} PrefixTransactions(chain: seq<Block>, n: nat)
    requires n <= |chain|
    ensures forall t | t in AllTransactions(chain[..n]) :: t in AllTransactions(chain)
    decreases |chain|
  {
    if n < |chain| {
      PrefixTransactions(chain[..|chain| - 1], n);
      assert chain[..|chain| - 1][..n] == chain[..n];
    } else {
      assert chain[..n] == chain;
    }
  }

  lemma PrefixNoCollision(chain: seq<Block>, n: nat)
    requires NoCollision(chain) && n <= |chain|
    ensures NoCollision(chain[..n])
  {
    PrefixTransactions(chain, n);
    assert TransactionSet(AllTransactions(chain[..n])) <= TransactionSet(AllTransactions(chain));
  }

  // ----- what is kept from block to block

  ghost predicate Consumed(t: Transaction, u: Utxo, hashes: set<Hash>) {
    forall i | i in t.inputs ::
      i.reference.ReferencesThinAir() || (i.reference !in u && i.reference.hash in hashes)
  }

  ghost predicate CoinbaseBelow(t: Transaction, height: nat) {
    IsOrdinary(t) || exists h: nat | h < height :: IsCoinbaseFor(t, h)
  }

  ghost predicate Remembered(chain: seq<Block>, u: Utxo) {
    var ts := AllTransactions(chain);
    && (forall r | r in u :: r.hash in HashesOf(ts))
    && (forall t | t in ts :: Consumed(t, u, HashesOf(ts)))
    && (forall t | t in ts :: CoinbaseBelow(t, |chain|))
    && Distinct(TransactionHashes(ts))
  }

  /** The hashes of a block's transactions are new to the chain it extends. */
  ghost predicate NewToChain(chain: seq<Block>, ts: seq<Transaction>) {
    forall t | t in ts :: TransactionHash(t) !in HashesOf(AllTransactions(chain))
  }

  lemma CoinbaseIsNotOrdinary(t: Transaction, h: nat)
    requires IsCoinbaseFor(t, h)
    ensures !IsOrdinary(t)
  {
    assert t.inputs[0] in t.inputs;
  }

  lemma CoinbaseIsNew(chain: seq<Block>, u: Utxo, t: Transaction)
    requires Remembered(chain, u) && IsCoinbaseFor(t, |chain|)
    ensures t !in AllTransactions(chain)
  {
    if t in AllTransactions(chain) {
      assert CoinbaseBelow(t, |chain|);
      CoinbaseIsNotOrdinary(t, |chain|);
    }
  }

  lemma InputReference(ts: seq<Transaction>, k: nat, i: nat)
    requires k < |ts| && i < |ts[k].inputs|
    ensures ts[k].inputs[i].reference in References(ts)
    decreases k
  {
    if k == 0 {
      assert References(ts) == ReferencesOf(ts[0].inputs) + References(ts[1..]);
      assert ReferencesOf(ts[0].inputs)[i] in References(ts);
    } else {
      InputReference(ts[1..], k - 1, i);
    }
  }

  lemma SpenderIsNew(chain: seq<Block>, u: Utxo, ts: seq<Transaction>, k: nat)
    requires Remembered(chain, u) && Spendable(u, ts) && k < |ts| && IsOrdinary(ts[k])
    ensures ts[k] !in AllTransactions(chain)
  {
    InputReference(ts, k, 0);
    assert ts[k].inputs[0] in ts[k].inputs && ts[k].inputs[0].reference in u;
    assert ts[k] in AllTransactions(chain) ==> Consumed(ts[k], u, HashesOf(AllTransactions(chain)));
  }

  lemma ValueIsNew(chain: seq<Block>, u: Utxo, ts: seq<Transaction>, t: Transaction)
    requires Remembered(chain, u) && TransactionsOk(u, |chain|, ts) && t in ts
    ensures t !in AllTransactions(chain)
  {
    FirstOrOrdinary(ts, t);
    if t == ts[0] {
      CoinbaseIsNew(chain, u, t);
    } else {
      var k :| 0 <= k < |ts[1..]| && ts[1..][k] == t;
      SpenderIsNew(chain, u, ts[1..], k);
    }
  }

  lemma BlockIsNew(chain: seq<Block>, b: Block, u: Utxo)
    requires NoCollision(chain + [b]) && Remembered(chain, u) && TransactionsOk(u, |chain|, b.transactions)
    ensures NewToChain(chain, b.transactions)
  {
    var ts, whole := b.transactions, chain + [b];
    assert whole[..|whole| - 1] == chain;
    forall t | t in ts ensures TransactionHash(t) !in HashesOf(AllTransactions(chain)) {
      ValueIsNew(chain, u, ts, t);
      if TransactionHash(t) in HashesOf(AllTransactions(chain)) {
        var t' :| t' in AllTransactions(chain) && TransactionHash(t') == TransactionHash(t);
        SameHashSameTransaction(whole, t, t');
      }
    }
  }

  lemma {:induction false} NoSharedReference(ts: seq<Transaction>, k: nat, l: nat)
    requires Distinct(References(ts)) && k < l < |ts|
    ensures forall i, j | i in ts[k].inputs && j in ts[l].inputs :: i.reference != j.reference
    decreases k
  {
    var here, rest := ReferencesOf(ts[0].inputs), References(ts[1..]);
    DistinctParts(here, rest);
    if k == 0 {
      forall i, j | i in ts[0].inputs && j in ts[l].inputs ensures i.reference != j.reference {
        var m :| 0 <= m < |ts[0].inputs| && ts[0].inputs[m] == i;
        var n :| 0 <= n < |ts[l].inputs| && ts[l].inputs[n] == j;
        InputReference(ts[1..], l - 1, n);
        assert here[m] == i.reference;
      }
    } else {
      NoSharedReference(ts[1..], k - 1, l - 1);
    }
  }

  lemma DistinctValues(u: Utxo, height: nat, ts: seq<Transaction>, k: nat, l: nat)
    requires TransactionsOk(u, height, ts) && k < l < |ts|
    ensures ts[k] != ts[l]
  {
    hide NonCoinbaseInUtxo, GetBlockFees;
    var others := ts[1..];
    assert others[l - 1] == ts[l] && ts[l] in others;
    assert ts[l].inputs[0] in ts[l].inputs;
    if k == 0 {
      CoinbaseIsNotOrdinary(ts[0], height);
    } else {
      assert others[k - 1] == ts[k];
      NoSharedReference(others, k - 1, l - 1);
    }
  }

  lemma DistinctInBlock(chain: seq<Block>, b: Block, u: Utxo)
    requires NoCollision(chain + [b]) && TransactionsOk(u, |chain|, b.transactions)
    ensures Distinct(TransactionHashes(b.transactions))
  {
    var ts, whole := b.transactions, chain + [b];
    assert whole[..|whole| - 1] == chain;
    forall k, l | 0 <= k < l < |ts| ensures TransactionHash(ts[k]) != TransactionHash(ts[l]) {
      DistinctValues(u, |chain|, ts, k, l);
      if TransactionHash(ts[k]) == TransactionHash(ts[l]) {
        SameHashSameTransaction(whole, ts[k], ts[l]);
      }
    }
  }

  lemma AppendHashes(xs: seq<Transaction>, ys: seq<Transaction>)
    requires Distinct(TransactionHashes(xs)) && Distinct(TransactionHashes(ys))
    requires forall t | t in ys :: TransactionHash(t) !in HashesOf(xs)
    ensures Distinct(TransactionHashes(xs + ys))
    ensures HashesOf(xs + ys) == HashesOf(xs) + HashesOf(ys)
  {
    hide TransactionHash;
    var hs := TransactionHashes(xs + ys);
    forall i, j | 0 <= i < j < |hs| ensures hs[i] != hs[j] {
      if j < |xs| {
        assert TransactionHashes(xs)[i] == hs[i] && TransactionHashes(xs)[j] == hs[j];
      } else if i >= |xs| {
        assert TransactionHashes(ys)[i - |xs|] == hs[i] && TransactionHashes(ys)[j - |xs|] == hs[j];
      } else {
        assert ys[j - |xs|] in ys && xs[i] in xs;
      }
    }
  }

  lemma FirstOrOrdinary(ts: seq<Transaction>, t: Transaction)
    requires t in ts && forall x | x in ts[1..] :: IsOrdinary(x)
    ensures t == ts[0] || (IsOrdinary(t) && t in ts[1..])
  {
    assert ts == [ts[0]] + ts[1..];
  }

  lemma StepRemembers(chain: seq<Block>, b: Block, u: Utxo)
    requires NoCollision(chain + [b]) && Remembered(chain, u) && TransactionsOk(u, |chain|, b.transactions)
    ensures NewHashes(u, b.transactions)
    ensures AppliedBlock(u, b) == Ok((u - SetOf(References(b.transactions[1..]))) + CreatedAll(b.transactions))
    ensures Remembered(chain + [b], AppliedBlock(u, b).value)
  {
    BlockIsNew(chain, b, u);
    DistinctInBlock(chain, b, u);
    var before, ts := AllTransactions(chain), b.transactions;
    assert (chain + [b])[..|chain|] == chain;
    assert AllTransactions(chain + [b]) == before + ts;
    AppendHashes(before, ts);
    assert NewHashes(u, ts);
    AppliedBlockEffect(u, b);
    var u' := AppliedBlock(u, b).value;
    OldStayConsumed(chain, ts, u, u');
    NewAreConsumed(chain, ts, u, u');
    forall t | t in before + ts ensures CoinbaseBelow(t, |chain| + 1) {
      if t in ts {
        FirstOrOrdinary(ts, t);
      } else {
        assert CoinbaseBelow(t, |chain|);
      }
    }
  }

  ghost predicate IsAfter(u': Utxo, u: Utxo, ts: seq<Transaction>)
    requires AllCountable(ts) && ts != []
  {
    u' == (u - SetOf(References(ts[1..]))) + CreatedAll(ts)
  }

  lemma OldStayConsumed(chain: seq<Block>, ts: seq<Transaction>, u: Utxo, u': Utxo)
    requires Remembered(chain, u) && NewToChain(chain, ts)
    requires AllCountable(ts) && ts != [] && IsAfter(u', u, ts)
    ensures forall t | t in AllTransactions(chain) ::
              Consumed(t, u', HashesOf(AllTransactions(chain)) + HashesOf(ts))
    ensures forall r | r in u' :: r.hash in HashesOf(AllTransactions(chain)) + HashesOf(ts)
  {
    hide TransactionHash, References;
    var known := HashesOf(AllTransactions(chain));
    forall t | t in AllTransactions(chain) ensures Consumed(t, u', known + HashesOf(ts)) {
      assert Consumed(t, u, known);
      forall i | i in t.inputs && !i.reference.ReferencesThinAir() ensures i.reference !in CreatedAll(ts) {
        assert i.reference.hash in known;
      }
    }
  }

  lemma NewAreConsumed(chain: seq<Block>, ts: seq<Transaction>, u: Utxo, u': Utxo)
    requires Remembered(chain, u) && NewToChain(chain, ts)
    requires TransactionsOk(u, |chain|, ts) && IsAfter(u', u, ts)
    ensures forall t | t in ts :: Consumed(t, u', HashesOf(AllTransactions(chain)) + HashesOf(ts))
  {
    hide TransactionHash, References, TransactionsOk;
    var known := HashesOf(AllTransactions(chain));
    forall t, i | t in ts && i in t.inputs && !i.reference.ReferencesThinAir()
      ensures i.reference !in u' && i.reference.hash in known
    {
      SpentByBlock(u, |chain|, ts, t, i);
      assert i.reference.hash in known;
    }
  }

  /** Every input that does not point to thin air consumes an unspent output. */
  lemma SpentByBlock(u: Utxo, height: nat, ts: seq<Transaction>, t: Transaction, i: Input)
    requires TransactionsOk(u, height, ts) && t in ts && i in t.inputs && !i.reference.ReferencesThinAir()
    ensures i.reference in References(ts[1..]) && i.reference in u
  {
    var k :| 0 <= k < |ts| && ts[k] == t;
    var m :| 0 <= m < |t.inputs| && t.inputs[m] == i;
    assert k > 0;
    InputReference(ts[1..], k - 1, m);
  }

  /** By induction along a valid chain. */
  lemma {:induction false} ChainRemembers(chain: seq<Block>)
    requires ValidChain(chain) && NoCollision(chain)
    ensures Replayed(chain).Ok? && Remembered(chain, Replayed(chain).value)
    decreases |chain|
  {
    hide Remembered, AppliedBlock, TransactionsOk, NoCollision;
    var before, b := chain[..|chain| - 1], chain[|chain| - 1];
    assert chain == before + [b];
    LastBlockOk(chain);
    PrefixNoCollision(chain, |chain| - 1);
    if before == [] {
      NothingRemembered();
    } else {
      ChainRemembers(before);
    }
    StepRemembers(before, b, Replayed(before).value);
  }

  lemma NothingRemembered()
    ensures Remembered([], map[])
  {
  }

  // ----- the main results

  /** No transaction hash occurs twice on a valid chain. */
  lemma NoTransactionTwice(chain: seq<Block>)
    requires ValidChain(chain) && NoCollision(chain)
    ensures Distinct(TransactionHashes(AllTransactions(chain)))
  {
    ChainRemembers(chain);
  }

  lemma PrefixRemembers(chain: seq<Block>, n: nat)
    requires ValidChain(chain) && NoCollision(chain) && 1 <= n <= |chain|
    ensures ValidChain(chain[..n]) && NoCollision(chain[..n])
    ensures Replayed(chain[..n]).Ok? && Remembered(chain[..n], Replayed(chain[..n]).value)
  {
    hide ValidChain, Remembered, Replayed, TransactionHash, EncTransaction;
    ValidPrefix(chain, n);
    PrefixNoCollision(chain, n);
    ChainRemembers(chain[..n]);
  }

  lemma BlockTransactions(chain: seq<Block>, i: nat, n: nat)
    requires i < n <= |chain|
    ensures forall t | t in chain[i].transactions :: t in AllTransactions(chain[..n])
  {
    assert chain[..i + 1][..i] == chain[..i];
    PrefixTransactions(chain[..n], i + 1);
    assert chain[..n][..i + 1] == chain[..i + 1];
  }

  ghost predicate SpendsIn(b: Block, r: OutputReference) {
    b.transactions != [] && r in References(b.transactions[1..])
  }

  /** An output reference that a block spends was unspent before it, and is never unspent again after it or
      after any later block of the chain. */
  lemma SpentStaysSpent(chain: seq<Block>, i: nat, n: nat, r: OutputReference)
    requires ValidChain(chain) && NoCollision(chain) && i < n <= |chain|
    requires SpendsIn(chain[i], r)
    ensures Replayed(chain[..i]).Ok? && r in Replayed(chain[..i]).value
    ensures Replayed(chain[..n]).Ok? && r !in Replayed(chain[..n]).value
  {
    hide ValidChain, Replayed, NonCoinbaseInUtxo, GetBlockFees, References;
    BlockAt(chain, i);
    PrefixRemembers(chain, n);
    SpenderConsumed(chain, i, n, Replayed(chain[..i]).value, Replayed(chain[..n]).value, r);
  }

  lemma SpenderConsumed(chain: seq<Block>, i: nat, n: nat, before: Utxo, after: Utxo, r: OutputReference)
    requires i < n <= |chain| && SpendsIn(chain[i], r)
    requires TransactionsOk(before, i, chain[i].transactions) && Remembered(chain[..n], after)
    ensures r !in after
  {
    hide NonCoinbaseInUtxo, GetBlockFees, TransactionHashes, AllTransactions;
    var ts := chain[i].transactions;
    var t, input := SpenderOf(ts[1..], r);
    BlockTransactions(chain, i, n);
    assert t in ts && IsOrdinary(t);
    assert Consumed(t, after, HashesOf(AllTransactions(chain[..n])));
  }

  lemma SpenderOf(ts: seq<Transaction>, r: OutputReference) returns (t: Transaction, i: Input)
    requires r in References(ts)
    ensures t in ts && i in t.inputs && i.reference == r
  {
    if r in ReferencesOf(ts[0].inputs) {
      var m :| 0 <= m < |ts[0].inputs| && ReferencesOf(ts[0].inputs)[m] == r;
      t, i := ts[0], ts[0].inputs[m];
    } else {
      t, i := SpenderOf(ts[1..], r);
    }
  }

  /** A reference that a block creates was never unspent before, at any height. */
  lemma CreatedIsFresh(chain: seq<Block>, i: nat, n: nat, t: Transaction, r: OutputReference)
    requires ValidChain(chain) && NoCollision(chain) && n <= i < |chain|
    requires t in chain[i].transactions && r.hash == TransactionHash(t)
    ensures Replayed(chain[..n]).Ok? && r !in Replayed(chain[..n]).value
  {
    hide ValidChain, Replayed, TransactionsOk, Remembered, AllTransactions, TransactionHash;
    if n == 0 {
      ReplayedNothing();
      assert chain[..0] == [];
    } else {
      PrefixRemembers(chain, n);
      NewAt(chain, i);
      EarlierUnknown(chain, i, n, Replayed(chain[..n]).value, t, r);
    }
  }

  lemma NewAt(chain: seq<Block>, i: nat)
    requires ValidChain(chain) && NoCollision(chain) && 1 <= i < |chain|
    ensures NewToChain(chain[..i], chain[i].transactions)
  {
    hide ValidChain, Replayed, TransactionsOk, Remembered, AppliedBlock;
    PrefixRemembers(chain, i);
    BlockAt(chain, i);
    PrefixNoCollision(chain, i + 1);
    assert chain[..i + 1] == chain[..i] + [chain[i]];
    BlockIsNew(chain[..i], chain[i], Replayed(chain[..i]).value);
  }

  lemma EarlierUnknown(chain: seq<Block>, i: nat, n: nat, u: Utxo, t: Transaction, r: OutputReference)
    requires n <= i < |chain| && Remembered(chain[..n], u) && NewToChain(chain[..i], chain[i].transactions)
    requires t in chain[i].transactions && r.hash == TransactionHash(t)
    ensures r !in u
  {
    hide TransactionHash, AllTransactions, TransactionHashes;
    PrefixTransactions(chain[..i], n);
    assert chain[..i][..n] == chain[..n];
  }

  lemma ReplayedNothing()
    ensures Replayed([]) == Ok(map[])
  {
  }
}

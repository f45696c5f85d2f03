/** Every unspent output is an output of the transaction its reference names, so two branches never disagree
    about one reference. */
module Provenance {
  import opened Basics
  import opened Crypto
  import opened Datatypes
  import opened Codecs
  import opened Balances
  import opened History

  ghost predicate Names(t: Transaction, r: OutputReference, o: Output) {
    TransactionHash(t) == r.hash && r.index < |t.outputs| && t.outputs[r.index] == o
  }

  ghost predicate Sourced(u: Utxo, ts: set<Transaction>) {
    forall r | r in u :: exists t | t in ts :: Names(t, r, u[r])
  }

  lemma {:induction false} SpentSourced(u: Utxo, ins: seq<Input>, ts: set<Transaction>)
    requires Sourced(u, ts) && Spent(u, ins).Ok?
    ensures Sourced(Spent(u, ins).value, ts)
    decreases |ins|
  {
    hide Names;
    if ins != [] {
      SpentSourced(u - {ins[0].reference}, ins[1..], ts);
    }
  }

  lemma {:induction false} ExtendedSourced(u: Utxo, t: Transaction, i: nat, ts: set<Transaction>)
    requires Sourced(u, ts) && t in ts && i <= |t.outputs|
    requires Extended(u, TransactionHash(t), t.outputs, i).Ok?
    ensures Sourced(Extended(u, TransactionHash(t), t.outputs, i).value, ts)
    decreases |t.outputs| - i
  {
    hide TransactionHash, Names;
    if i < |t.outputs| {
      OutputNamed(t, i);
      ExtendedSourced(u[OutputReference(TransactionHash(t), i) := t.outputs[i]], t, i + 1, ts);
    }
  }

  lemma OutputNamed(t: Transaction, i: u32)
    requires i < |t.outputs|
    ensures Names(t, OutputReference(TransactionHash(t), i), t.outputs[i])
  {
    hide TransactionHash;
  }

  lemma TransactionSourced(u: Utxo, t: Transaction, isCoinbase: bool, ts: set<Transaction>)
    requires Sourced(u, ts) && t in ts && AppliedTransaction(u, t, isCoinbase).Ok?
    ensures Sourced(AppliedTransaction(u, t, isCoinbase).value, ts)
  {
    hide TransactionHash, Sourced;
    if isCoinbase {
      ExtendedSourced(u, t, 0, ts);
    } else {
      SpentSourced(u, t.inputs, ts);
      ExtendedSourced(Spent(u, t.inputs).value, t, 0, ts);
    }
  }

  lemma {:induction false} RestSourced(u: Utxo, rest: seq<Transaction>, ts: set<Transaction>)
    requires Sourced(u, ts) && (forall t | t in rest :: t in ts) && AppliedRest(u, rest).Ok?
    ensures Sourced(AppliedRest(u, rest).value, ts)
    decreases |rest|
  {
    hide Sourced, AppliedTransaction;
    if rest != [] {
      TransactionSourced(u, rest[0], false, ts);
      RestSourced(AppliedTransaction(u, rest[0], false).value, rest[1..], ts);
    }
  }

  lemma BlockSourced(u: Utxo, b: Block, ts: set<Transaction>)
    requires Sourced(u, ts) && (forall t | t in b.transactions :: t in ts) && AppliedBlock(u, b).Ok?
    ensures Sourced(AppliedBlock(u, b).value, ts)
  {
    hide Sourced, AppliedTransaction, AppliedRest;
    assert b.transactions[0] in b.transactions;
    TransactionSourced(u, b.transactions[0], true, ts);
    RestSourced(AppliedTransaction(u, b.transactions[0], true).value, b.transactions[1..], ts);
  }

  /** Whatever a chain leaves unspent is named by one of its transactions; nothing is assumed of chain or hashes. */
  lemma {:induction false} ChainSourced(chain: seq<Block>)
    requires Replayed(chain).Ok?
    ensures Sourced(Replayed(chain).value, TransactionSet(AllTransactions(chain)))
    decreases |chain|
  {
    hide AppliedBlock;
    if chain != [] {
      var before := chain[..|chain| - 1];
      ChainSourced(before);
      SourcedMore(Replayed(before).value, TransactionSet(AllTransactions(before)),
                  TransactionSet(AllTransactions(chain)));
      BlockSourced(Replayed(before).value, chain[|chain| - 1], TransactionSet(AllTransactions(chain)));
    }
  }

  lemma SourcedMore(u: Utxo, ts: set<Transaction>, more: set<Transaction>)
    requires Sourced(u, ts) && ts <= more
    ensures Sourced(u, more)
  {
    hide Names;
  }

  lemma SameName(t: Transaction, t': Transaction, r: OutputReference, o: Output, o': Output, strings: set<Bytes>)
    requires Names(t, r, o) && Names(t', r, o') && CollisionFree(strings)
    requires EncTransaction(t) in strings && EncTransaction(t') in strings
    ensures o == o'
  {
    hide EncTransaction;
    TransactionEncodingInjective(t, t');
  }

  /** A reference that is unspent in two states stands for the same output in both. */
  lemma SourcedAgree(u: Utxo, u': Utxo, ts: set<Transaction>)
    requires Sourced(u, ts) && Sourced(u', ts) && NoCollisionIn(ts)
    ensures forall r | r in u && r in u' :: u[r] == u'[r]
  {
    hide EncTransaction, Names, CollisionFree;
    forall r | r in u && r in u' ensures u[r] == u'[r] {
      var t :| t in ts && Names(t, r, u[r]);
      var t' :| t' in ts && Names(t', r, u'[r]);
      assert EncTransaction(t) in EncodingsIn(ts) && EncTransaction(t') in EncodingsIn(ts);
      SameName(t, t', r, u[r], u'[r], EncodingsIn(ts));
    }
  }

  /** So two branches of the tree, valid or not, never disagree about one reference. */
  lemma BranchesAgree(chain: seq<Block>, chain': seq<Block>, r: OutputReference)
    requires Replayed(chain).Ok? && Replayed(chain').Ok?
    requires NoCollisionIn(TransactionSet(AllTransactions(chain)) + TransactionSet(AllTransactions(chain')))
    requires r in Replayed(chain).value && r in Replayed(chain').value
    ensures Replayed(chain).value[r] == Replayed(chain').value[r]
  {
    hide Replayed, EncTransaction, AllTransactions, TransactionSet, Sourced;
    var ts, ts' := TransactionSet(AllTransactions(chain)), TransactionSet(AllTransactions(chain'));
    ChainSourced(chain);
    ChainSourced(chain');
    SourcedMore(Replayed(chain).value, ts, ts + ts');
    SourcedMore(Replayed(chain').value, ts', ts + ts');
    SourcedAgree(Replayed(chain).value, Replayed(chain').value, ts + ts');
  }
}

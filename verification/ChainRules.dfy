/** What validation establishes of each block of a chain, stated on the chain alone. */
module ChainRules {
  import opened Basics
  import opened Crypto
  import opened Datatypes
  import opened Balances
  import opened Consensus
  import opened BlockEffects

  ghost predicate IsCoinbaseFor(t: Transaction, height: nat) {
    && |t.inputs| == 1
    && t.inputs[0].reference.ReferencesThinAir()
    && t.inputs[0].signature.CoinbaseData?
    && t.inputs[0].signature.height == height
  }

  ghost predicate IsOrdinary(t: Transaction) {
    && t.inputs != []
    && RealSignatures(t.inputs)
  }

  /** The rules on the transactions of a block at `height` on top of the unspent outputs `u`. */
  ghost predicate TransactionsOk(u: Utxo, height: nat, ts: seq<Transaction>) {
    && ts != []
    && AllCountable(ts)
    && IsCoinbaseFor(ts[0], height)
    && (forall t | t in ts[1..] :: IsOrdinary(t))
    && (forall t | t in ts[1..] :: NonCoinbaseInUtxo(t, u).Ok?)
    && Spendable(u, ts[1..])
    && GetBlockFees(ts[1..], u).Ok?
    && OutputsValue(ts[0].outputs) <= GetBlockFees(ts[1..], u).value + GetBlockSubsidy(height)
  }

  ghost predicate TargetOk(chain: seq<Block>, b: Block)
    requires chain != []
  {
    var n := |chain|;
    if n % BLOCKS_BETWEEN_TARGET_READJUSTMENT == 0 then
      n >= BLOCKS_BETWEEN_TARGET_READJUSTMENT &&
      CalculateNewTarget(chain[n - 1].Target(),
        b.Timestamp() - chain[n - BLOCKS_BETWEEN_TARGET_READJUSTMENT].Timestamp()) == Ok(b.Target())
    else b.Target() == chain[n - 1].Target()
  }

  /** The rules on a block that extends a chain. */
  ghost predicate ExtensionOk(chain: seq<Block>, b: Block)
    requires chain != []
  {
    && b.Height() == |chain|
    && b.Previous() == BlockHash(chain[|chain| - 1])
    && b.Timestamp() > chain[|chain| - 1].Timestamp()
    && TargetOk(chain, b)
    && Replayed(chain).Ok?
    && TransactionsOk(Replayed(chain).value, |chain|, b.transactions)
    && AppliedBlock(Replayed(chain).value, b).Ok?
  }

  /** A first block that only mints: one coinbase, paying at most the first subsidy. */
  ghost predicate GenesisOk(b: Block) {
    && b.Previous() == ZERO_HASH
    && b.Height() == 0
    && |b.transactions| == 1
    && Countable(b.transactions[0])
    && IsCoinbaseFor(b.transactions[0], 0)
    && OutputsValue(b.transactions[0].outputs) <= GetBlockSubsidy(0)
  }

  /** The built-in first block has this form, and so obeys the rules. */
  lemma BuiltInGenesisOk(header: BlockHeader, data: Payload, minerPublicKey: PublicKey)
    requires header.summary.height == 0 && header.summary.previousHash == ZERO_HASH
    ensures GenesisOk(Block(header, [
              Transaction([Input(THIN_AIR, CoinbaseData(0, data))], [Output(1_000_000_000, minerPublicKey)])]))
  {
    var outs := [Output(1_000_000_000, minerPublicKey)];
    assert outs[1..] == [];
    assert Pow2(0) == 1;
  }

  /** A first block by the rules, and every later block a valid extension of those before it. */
  ghost predicate ValidChain(chain: seq<Block>) {
    && chain != [] && GenesisOk(chain[0])
    && forall i {:trigger chain[..i]} | 1 <= i < |chain| :: ExtensionOk(chain[..i], chain[i])
  }

  /** The genesis block's transactions obey the same rules on top of nothing. */
  lemma GenesisTransactionsOk(b: Block)
    requires GenesisOk(b)
    ensures TransactionsOk(map[], 0, b.transactions)
    ensures AppliedBlock(map[], b).Ok?
  {
    assert b.transactions[1..] == [];
    assert Spendable(map[], b.transactions[1..]);
    AppliedBlockSucceeds(map[], b);
  }

  /** One view of every block of a valid chain: its transactions obey the rules on what the blocks before it left. */
  lemma LastBlockOk(chain: seq<Block>)
    requires ValidChain(chain)
    ensures var before, b := chain[..|chain| - 1], chain[|chain| - 1];
            && (before != [] ==> ValidChain(before))
            && Replayed(before).Ok? && TransactionsOk(Replayed(before).value, |before|, b.transactions)
            && AppliedBlock(Replayed(before).value, b).Ok?
            && Replayed(chain) == AppliedBlock(Replayed(before).value, b)
  {
    hide AppliedBlock, TransactionsOk, GenesisOk, TargetOk;
    if |chain| == 1 {
      assert chain[..0] == [];
      GenesisTransactionsOk(chain[0]);
    } else {
      var before := chain[..|chain| - 1];
      ValidPrefix(chain, |chain| - 1);
      assert ExtensionOk(before, chain[|chain| - 1]);
    }
  }

  /** Every beginning of a valid chain is a valid chain. */
  lemma ValidPrefix(chain: seq<Block>, n: nat)
    requires ValidChain(chain) && 1 <= n <= |chain|
    ensures ValidChain(chain[..n])
  {
    hide ExtensionOk, GenesisOk;
    forall i | 1 <= i < n ensures ExtensionOk(chain[..n][..i], chain[..n][i]) {
      assert chain[..n][..i] == chain[..i];
    }
  }

  /** A valid extension of a valid chain makes a valid chain. */
  lemma ValidExtension(chain: seq<Block>, b: Block)
    requires ValidChain(chain) && ExtensionOk(chain, b)
    ensures ValidChain(chain + [b])
  {
    hide ExtensionOk, GenesisOk;
    forall i | 1 <= i <= |chain| ensures ExtensionOk((chain + [b])[..i], (chain + [b])[i]) {
      assert (chain + [b])[..i] == chain[..i] && chain[..|chain|] == chain;
    }
  }

  /** The same view of the block at index `i`. */
  lemma BlockAt(chain: seq<Block>, i: nat)
    requires ValidChain(chain) && i < |chain|
    ensures Replayed(chain[..i]).Ok? && TransactionsOk(Replayed(chain[..i]).value, i, chain[i].transactions)
    ensures AppliedBlock(Replayed(chain[..i]).value, chain[i]).Ok?
    ensures Replayed(chain[..i + 1]) == AppliedBlock(Replayed(chain[..i]).value, chain[i])
  {
    hide ValidChain, Replayed, TransactionsOk, AppliedBlock;
    ValidPrefix(chain, i + 1);
    LastBlockOk(chain[..i + 1]);
    assert chain[..i + 1][..i] == chain[..i];
  }
}

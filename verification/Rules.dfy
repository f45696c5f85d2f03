/** The verdict on a block in a coin state, said without the functions that reach it: the known hashes up to a height,
    and above it rules on the block, its parent, and what is stored with its parent. */
module Rules {
  import opened Basics
  import opened Crypto
  import opened Datatypes
  import opened Balances
  import opened CoinStates
  import opened Consensus
  import opened Supply
  import opened Spends
  import opened Sampling

  // ----- the target that is due

  /** The parent's target; or, at the end of an interval, that target scaled by how long the interval took instead of
      two weeks, cut off at what 32 bytes hold. */
  ghost predicate TargetDue(previous: Block, path: map<nat, Block>, timestamp: int, target: Hash) {
    var height := previous.Height() + 1;
    if height % 10_080 != 0 then target == previous.Target()
    else
      && height - 10_080 in path
      && Scaled(previous.Target(), timestamp - path[height - 10_080].Timestamp(), target)
  }

  ghost predicate Scaled(former: Hash, elapsed: int, target: Hash) {
    var scaled := FromBigEndian(former) * elapsed / 1_209_600;
    scaled >= 0 && FromBigEndian(target) == Min(scaled, Pow256(32) - 1)
  }

  lemma TargetExactly(cs: CoinState, previous: Block, timestamp: int, target: Hash)
    requires BlockHash(previous) in cs.heightsByHash
    ensures CalcTarget(cs, previous.Height() + 1, timestamp, previous) == Ok(target) <==>
            TargetDue(previous, cs.heightsByHash[BlockHash(previous)], timestamp, target)
  {
    hide BlockHash, CalculateNewTarget, Scaled;
    var height := previous.Height() + 1;
    var path := cs.heightsByHash[BlockHash(previous)];
    if height % 10_080 == 0 {
      assert height >= 10_080;
      if height - 10_080 in path {
        NewTargetExactly(previous.Target(), timestamp - path[height - 10_080].Timestamp(), target);
      }
    }
  }

  lemma NewTargetExactly(former: Hash, elapsed: int, target: Hash)
    ensures CalculateNewTarget(former, elapsed) == Ok(target) <==> Scaled(former, elapsed, target)
  {
    hide FromBigEndian, BigEndian, Pow256;
    var scaled := FromBigEndian(former) * elapsed / 1_209_600;
    if scaled >= 0 {
      BigEndianRoundTrip(Min(scaled, Pow256(32) - 1), 32);
      FromBigEndianRoundTrip(target);
    }
  }

  // ----- the coinbase

  ghost predicate AllUnspent(t: Transaction, u: Utxo) {
    forall i | i in t.inputs :: i.reference in u
  }

  /** What the transactions hold beyond what they pay. */
  ghost function Fees(u: Utxo, ts: seq<Transaction>): int {
    Sum(seq(|ts|, k requires 0 <= k < |ts| => Held(u, ts[k].inputs) - Paid(ts[k].outputs)))
  }

  lemma {:induction false} FeesExactly(u: Utxo, ts: seq<Transaction>)
    requires forall t | t in ts :: AllUnspent(t, u)
    ensures GetBlockFees(ts, u) == Ok(Fees(u, ts))
    decreases |ts|
  {
    hide Held, Paid, Fees, OutputsValue, InputsValue, AllUnspent;
    FeesStep(u, ts);
    if ts != [] {
      assert AllUnspent(ts[0], u);
      FeeExactly(u, ts[0]);
      FeesExactly(u, ts[1..]);
    }
  }

  lemma FeeExactly(u: Utxo, t: Transaction)
    requires AllUnspent(t, u)
    ensures GetTransactionFee(t, u) == Ok(Held(u, t.inputs) - Paid(t.outputs))
  {
    hide Held, Paid;
    HeldIsInputsValue(u, t.inputs);
    PaidIsOutputsValue(t.outputs);
  }

  lemma FeesStep(u: Utxo, ts: seq<Transaction>)
    ensures ts == [] ==> Fees(u, ts) == 0
    ensures ts != [] ==> Fees(u, ts) == Held(u, ts[0].inputs) - Paid(ts[0].outputs) + Fees(u, ts[1..])
  {
    hide Held, Paid;
    if ts != [] {
      var fees := seq(|ts|, k requires 0 <= k < |ts| => Held(u, ts[k].inputs) - Paid(ts[k].outputs));
      assert fees[1..] ==
        seq(|ts| - 1, k requires 0 <= k < |ts| - 1 => Held(u, ts[1..][k].inputs) - Paid(ts[1..][k].outputs));
    }
  }

  // ----- the rules

  /** Later than its parent, and with the target that is due. */
  ghost predicate SummaryRules(cs: CoinState, b: Block) {
    && b.Previous() in cs.blockByHash && b.Previous() in cs.heightsByHash
    && b.Timestamp() > cs.blockByHash[b.Previous()].Timestamp()
    && TargetDue(cs.blockByHash[b.Previous()], cs.heightsByHash[b.Previous()], b.Timestamp(), b.Target())
  }

  /** Every spend is claimed and pays no more than it holds, and the coinbase pays at most the fees and the subsidy. */
  ghost predicate TransactionRules(cs: CoinState, b: Block) {
    && b.transactions != [] && b.Previous() in cs.utxoByHash
    && var u, spends := cs.utxoByHash[b.Previous()], b.transactions[1..];
       && (forall t | t in spends :: AllClaimed(t, u) && Paid(t.outputs) <= Held(u, t.inputs))
       && Paid(b.transactions[0].outputs) <= Fees(u, spends) + 1_000_000_000 / Pow2(b.Height() / 1_050_000)
  }

  ghost predicate BlockRules(cs: CoinState, b: Block) {
    && SummaryRules(cs, b)
    && b.Height() == cs.blockByHash[b.Previous()].Height() + 1
    && TransactionRules(cs, b)
    && EvidenceRight(cs, b.header.summary, b.Height(), b.transactions, b.header.evidence)
  }

  /** A known height takes one block only; above the known heights the rules decide. */
  ghost predicate Approved(cp: Checkpoints, cs: CoinState, b: Block) {
    if b.Height() <= cp.maxHeight then b.Height() in cp.known ==> BlockHash(b) == cp.known[b.Height()]
    else BlockRules(cs, b)
  }

  // ----- and the verdict

  lemma SummaryExactly(cs: CoinState, b: Block)
    requires HasParent(cs, b)
    ensures SummaryInCoinstate(b.header.summary, cs).Ok? <==> SummaryRules(cs, b)
  {
    hide BlockHash, CalcTarget, TargetDue;
    TargetExactly(cs, cs.blockByHash[b.Previous()], b.Timestamp(), b.Target());
  }

  lemma {:induction false} SpendsExactly(cs: CoinState, p: Hash, ts: seq<Transaction>)
    requires p in cs.utxoByHash
    ensures AllInCoinstate(ts, p, cs).Ok? <==>
            forall t | t in ts ::
              AllClaimed(t, cs.utxoByHash[p]) && Paid(t.outputs) <= Held(cs.utxoByHash[p], t.inputs)
    decreases |ts|
  {
    hide NonCoinbaseInUtxo, Paid, Held, Claims;
    if ts != [] {
      SpendExactly(ts[0], cs.utxoByHash[p]);
      SpendsExactly(cs, p, ts[1..]);
      assert ts == [ts[0]] + ts[1..];
    }
  }

  lemma ClaimedIsUnspent(t: Transaction, u: Utxo)
    requires AllClaimed(t, u)
    ensures AllUnspent(t, u)
  {
    hide EncTransaction;
  }

  lemma CoinbaseExactly(cs: CoinState, b: Block)
    requires HasParent(cs, b) && b.transactions != []
    requires forall t | t in b.transactions[1..] :: AllUnspent(t, cs.utxoByHash[b.Previous()])
    ensures CoinbaseInCoinstate(b.transactions[0], b, cs).Ok? <==>
              && b.Height() == cs.blockByHash[b.Previous()].Height() + 1
              && Paid(b.transactions[0].outputs) <=
                   Fees(cs.utxoByHash[b.Previous()], b.transactions[1..])
                   + 1_000_000_000 / Pow2(b.Height() / 1_050_000)
  {
    hide BlockHash, Paid, Fees, AllUnspent, Pow2, GetBlockSubsidy;
    FeesExactly(cs.utxoByHash[b.Previous()], b.transactions[1..]);
    PaidIsOutputsValue(b.transactions[0].outputs);
    SubsidyExactly(b.Height());
  }

  /** The parent is stored, with everything that is stored with a block. */
  ghost predicate HasParent(cs: CoinState, b: Block) {
    && b.Previous() in cs.blockByHash && b.Previous() in cs.utxoByHash && b.Previous() in cs.heightsByHash
    && BlockHash(cs.blockByHash[b.Previous()]) == b.Previous()
  }

  lemma RulesExactly(cp: Checkpoints, cs: CoinState, b: Block)
    requires HasParent(cs, b) && b.Height() > cp.maxHeight
    ensures BlockInCoinstate(cp, b, cs).Ok? <==> BlockRules(cs, b)
  {
    hide SummaryInCoinstate, SummaryRules, EvidenceRight, ConstructPowEvidence, CoinbaseInCoinstate, AllInCoinstate,
      Fees, Paid, Held, AllUnspent, AllClaimed, BlockHash, Pow2;
    SummaryExactly(cs, b);
    EvidenceExactly(cs, b.header.summary, b.Height(), b.transactions, b.header.evidence);
    if b.transactions != [] {
      SpendsExactly(cs, b.Previous(), b.transactions[1..]);
      if forall t | t in b.transactions[1..] :: AllClaimed(t, cs.utxoByHash[b.Previous()]) {
        forall t | t in b.transactions[1..] ensures AllUnspent(t, cs.utxoByHash[b.Previous()]) {
          ClaimedIsUnspent(t, cs.utxoByHash[b.Previous()]);
        }
        CoinbaseExactly(cs, b);
      }
    }
  }

  /** Exactly which blocks the validation in a coin state accepts, in any state that has the parent, a ledger or not. */
  lemma VerdictExactly(cp: Checkpoints, cs: CoinState, b: Block)
    requires b.Height() > cp.maxHeight ==> HasParent(cs, b)
    ensures BlockInCoinstate(cp, b, cs).Ok? <==> Approved(cp, cs, b)
    ensures b.Height() <= cp.maxHeight && !Approved(cp, cs, b) ==> BlockInCoinstate(cp, b, cs) == Err(ValidationError)
  {
    hide BlockRules, BlockHash, SummaryInCoinstate, ConstructPowEvidence, CoinbaseInCoinstate, AllInCoinstate,
      HasParent;
    if b.Height() > cp.maxHeight {
      RulesExactly(cp, cs, b);
    }
  }

  // ----- which exception

  lemma SummaryRefused(cs: CoinState, b: Block, due: Hash)
    requires HasParent(cs, b)
    ensures b.Timestamp() <= cs.blockByHash[b.Previous()].Timestamp() ==>
              SummaryInCoinstate(b.header.summary, cs) == Err(ValidateBlockHeaderError)
    ensures b.Timestamp() > cs.blockByHash[b.Previous()].Timestamp() && due != b.Target()
            && TargetDue(cs.blockByHash[b.Previous()], cs.heightsByHash[b.Previous()], b.Timestamp(), due) ==>
              SummaryInCoinstate(b.header.summary, cs) == Err(ValidateBlockHeaderError)
  {
    hide BlockHash, CalcTarget, TargetDue;
    TargetExactly(cs, cs.blockByHash[b.Previous()], b.Timestamp(), due);
  }

  /** Above the known heights the checks come in this order, each with its exception: the time and the target; the
      evidence; that there are transactions at all; the height and what the coinbase pays. */
  lemma BlockRefused(cp: Checkpoints, cs: CoinState, b: Block, due: Hash, e: PowEvidence)
    requires HasParent(cs, b) && b.Height() > cp.maxHeight
    ensures b.Timestamp() <= cs.blockByHash[b.Previous()].Timestamp() ==>
              BlockInCoinstate(cp, b, cs) == Err(ValidateBlockHeaderError)
    ensures b.Timestamp() > cs.blockByHash[b.Previous()].Timestamp() && due != b.Target()
            && TargetDue(cs.blockByHash[b.Previous()], cs.heightsByHash[b.Previous()], b.Timestamp(), due) ==>
              BlockInCoinstate(cp, b, cs) == Err(ValidateBlockHeaderError)
    ensures SummaryRules(cs, b) && EvidenceRight(cs, b.header.summary, b.Height(), b.transactions, e) ==>
              if e != b.header.evidence then BlockInCoinstate(cp, b, cs) == Err(ValidateBlockError)
              else if b.transactions == [] then BlockInCoinstate(cp, b, cs) == Err(IndexError)
              else if b.Height() != cs.blockByHash[b.Previous()].Height() + 1 then
                BlockInCoinstate(cp, b, cs) == Err(ValidateBlockHeaderError)
              else Overpaid(cs, b) ==> BlockInCoinstate(cp, b, cs) == Err(ValidateTransactionError)
  {
    hide SummaryInCoinstate, SummaryRules, EvidenceRight, ConstructPowEvidence, AllInCoinstate, BlockHash, Pow2,
      TargetDue, GetBlockFees, GetBlockSubsidy, Fees, Paid, AllUnspent;
    SummaryExactly(cs, b);
    SummaryRefused(cs, b, due);
    EvidenceExactly(cs, b.header.summary, b.Height(), b.transactions, e);
    if b.transactions != [] && forall t | t in b.transactions[1..] :: AllUnspent(t, cs.utxoByHash[b.Previous()]) {
      FeesExactly(cs.utxoByHash[b.Previous()], b.transactions[1..]);
      PaidIsOutputsValue(b.transactions[0].outputs);
      SubsidyExactly(b.Height());
    }
  }

  /** All its spends are of unspent outputs, and the coinbase pays more than the fees and the subsidy. */
  ghost predicate Overpaid(cs: CoinState, b: Block)
    requires HasParent(cs, b) && b.transactions != []
  {
    var u, spends := cs.utxoByHash[b.Previous()], b.transactions[1..];
    && (forall t | t in spends :: AllUnspent(t, u))
    && Paid(b.transactions[0].outputs) > Fees(u, spends) + 1_000_000_000 / Pow2(b.Height() / 1_050_000)
  }
}

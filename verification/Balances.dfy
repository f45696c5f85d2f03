/** What a block does to the unspent outputs and to the per-key balance index. */
module Balances {
  import opened Basics
  import opened Crypto
  import opened Datatypes

  type Utxo = map<OutputReference, Output>

  datatype PKBalance = PKBalance(value: int, references: seq<OutputReference>)

  type Index = map<PublicKey, PKBalance>

  const MAX_INDEX := 0xffffffff

  // ----- unspent outputs

  /** `u` after deleting the reference of every input in turn; deleting a missing one is a KeyError. */
  function Spent(u: Utxo, ins: seq<Input>): Result<Utxo>
    decreases |ins|
  {
    if ins == [] then Ok(u)
    else if ins[0].reference in u then Spent(u - {ins[0].reference}, ins[1..])
    else Err(KeyError)
  }

  /** `u` after adding the outputs from number `i` on; an output number over 32 bits is a ValueError. */
  function Extended(u: Utxo, h: Hash, outs: seq<Output>, i: nat): Result<Utxo>
    requires i <= |outs|
    decreases |outs| - i
  {
    if i == |outs| then Ok(u)
    else if i <= MAX_INDEX then Extended(u[OutputReference(h, i) := outs[i]], h, outs, i + 1)
    else Err(ValueError)
  }

  function AppliedTransaction(u: Utxo, t: Transaction, isCoinbase: bool): Result<Utxo> {
    var u' :- if isCoinbase then Ok(u) else Spent(u, t.inputs);
    Extended(u', TransactionHash(t), t.outputs, 0)
  }

  function AppliedRest(u: Utxo, ts: seq<Transaction>): Result<Utxo>
    decreases |ts|
  {
    if ts == [] then Ok(u)
    else
      var u' :- AppliedTransaction(u, ts[0], false);
      AppliedRest(u', ts[1..])
  }

  /** The first transaction is the coinbase. */
  function AppliedBlock(u: Utxo, b: Block): Result<Utxo> {
    if b.transactions == [] then Err(IndexError)
    else
      var u' :- AppliedTransaction(u, b.transactions[0], true);
      AppliedRest(u', b.transactions[1..])
  }

  /** The unspent outputs after a chain of blocks. */
  function Replayed(chain: seq<Block>): Result<Utxo> {
    if chain == [] then Ok(map[])
    else
      var u :- Replayed(chain[..|chain| - 1]);
      AppliedBlock(u, chain[|chain| - 1])
  }

  method UtoApplyTransaction(u: Utxo, t: Transaction, isCoinbase: bool) returns (r: Result<Utxo>)
    ensures r == AppliedTransaction(u, t, isCoinbase)
  {
    var mutable := u;
    if !isCoinbase {
      mutable :- DeleteInputs(mutable, t.inputs);
    }
    var hash := TransactionHash(t);
    for i := 0 to |t.outputs|
      invariant AppliedTransaction(u, t, isCoinbase) == Extended(mutable, hash, t.outputs, i)
    {
      if i > MAX_INDEX {
        return Err(ValueError);
      }
      mutable := mutable[OutputReference(hash, i) := t.outputs[i]];
    }
    return Ok(mutable);
  }

  method DeleteInputs(u: Utxo, ins: seq<Input>) returns (r: Result<Utxo>)
    ensures r == Spent(u, ins)
  {
    var mutable := u;
    for i := 0 to |ins|
      invariant Spent(u, ins) == Spent(mutable, ins[i..])
    {
      assert ins[i..][1..] == ins[i + 1..];
      if ins[i].reference !in mutable {
        return Err(KeyError);
      }
      mutable := mutable - {ins[i].reference};
    }
    return Ok(mutable);
  }

  method UtoApplyBlock(u: Utxo, b: Block) returns (r: Result<Utxo>)
    ensures r == AppliedBlock(u, b)
  {
    if b.transactions == [] {
      return Err(IndexError);
    }
    var current :- UtoApplyTransaction(u, b.transactions[0], true);
    var ts := b.transactions[1..];
    for i := 0 to |ts|
      invariant AppliedBlock(u, b) == AppliedRest(current, ts[i..])
    {
      assert ts[i..][1..] == ts[i + 1..];
      current :- UtoApplyTransaction(current, ts[i], false);
    }
    return Ok(current);
  }

  // ----- the balance index

  function Without(rs: seq<OutputReference>, r: OutputReference): (left: seq<OutputReference>)
    ensures forall x :: x in left <==> x in rs && x != r
  {
    if rs == [] then []
    else (if rs[0] != r then [rs[0]] else []) + Without(rs[1..], r)
  }

  /** The output is looked up in `u`, the unspent outputs before the block. */
  function DebitedOne(u: Utxo, p: Index, r: OutputReference): Result<Index> {
    if r !in u then Err(KeyError)
    else
      var k := u[r].publicKey;
      if k !in p then Err(KeyError)
      else Ok(p[k := PKBalance(p[k].value - u[r].value, Without(p[k].references, r))])
  }

  function Debited(u: Utxo, p: Index, ins: seq<Input>): Result<Index>
    decreases |ins|
  {
    if ins == [] then Ok(p)
    else
      var p' :- DebitedOne(u, p, ins[0].reference);
      Debited(u, p', ins[1..])
  }

  function CreditedOne(p: Index, r: OutputReference, o: Output): Index {
    var held := if o.publicKey in p then p[o.publicKey] else PKBalance(0, []);
    p[o.publicKey := PKBalance(held.value + o.value, held.references + [r])]
  }

  function Credited(p: Index, h: Hash, outs: seq<Output>, i: nat): Result<Index>
    requires i <= |outs|
    decreases |outs| - i
  {
    if i == |outs| then Ok(p)
    else if i <= MAX_INDEX then Credited(CreditedOne(p, OutputReference(h, i), outs[i]), h, outs, i + 1)
    else Err(ValueError)
  }

  function IndexedTransaction(u: Utxo, p: Index, t: Transaction, isCoinbase: bool): Result<Index> {
    var p' :- if isCoinbase then Ok(p) else Debited(u, p, t.inputs);
    Credited(p', TransactionHash(t), t.outputs, 0)
  }

  function IndexedRest(u: Utxo, p: Index, ts: seq<Transaction>): Result<Index>
    decreases |ts|
  {
    if ts == [] then Ok(p)
    else
      var p' :- IndexedTransaction(u, p, ts[0], false);
      IndexedRest(u, p', ts[1..])
  }

  function IndexedBlock(u: Utxo, p: Index, b: Block): Result<Index> {
    if b.transactions == [] then Err(IndexError)
    else
      var p' :- IndexedTransaction(u, p, b.transactions[0], true);
      IndexedRest(u, p', b.transactions[1..])
  }

  /** The index and the unspent outputs recomputed from scratch along a chain. */
  function ReplayedIndex(chain: seq<Block>): Result<(Index, Utxo)> {
    if chain == [] then Ok((map[], map[]))
    else
      var (p, u) :- ReplayedIndex(chain[..|chain| - 1]);
      var p' :- IndexedBlock(u, p, chain[|chain| - 1]);
      var u' :- AppliedBlock(u, chain[|chain| - 1]);
      Ok((p', u'))
  }

  method PkbApplyTransaction(u: Utxo, p: Index, t: Transaction, isCoinbase: bool) returns (r: Result<Index>)
    ensures r == IndexedTransaction(u, p, t, isCoinbase)
  {
    var mutable := p;
    if !isCoinbase {
      mutable :- DebitInputs(u, mutable, t.inputs);
    }
    r := CreditOutputs(mutable, TransactionHash(t), t.outputs);
  }

  method CreditOutputs(p: Index, hash: Hash, outs: seq<Output>) returns (r: Result<Index>)
    ensures r == Credited(p, hash, outs, 0)
  {
    var mutable := p;
    for i := 0 to |outs|
      invariant Credited(p, hash, outs, 0) == Credited(mutable, hash, outs, i)
    {
      if i > MAX_INDEX {
        return Err(ValueError);
      }
      ghost var before := mutable;
      var output := outs[i];
      if output.publicKey !in mutable {
        mutable := mutable[output.publicKey := PKBalance(0, [])];
      }
      var held := mutable[output.publicKey];
      mutable := mutable[output.publicKey :=
        PKBalance(held.value + output.value, held.references + [OutputReference(hash, i)])];
      assert mutable == CreditedOne(before, OutputReference(hash, i), output);
    }
    return Ok(mutable);
  }

  method DebitInputs(u: Utxo, p: Index, ins: seq<Input>) returns (r: Result<Index>)
    ensures r == Debited(u, p, ins)
  {
    var mutable := p;
    for i := 0 to |ins|
      invariant Debited(u, p, ins) == Debited(u, mutable, ins[i..])
    {
      assert ins[i..][1..] == ins[i + 1..];
      var reference := ins[i].reference;
      if reference !in u {
        return Err(KeyError);
      }
      var previous := u[reference];
      if previous.publicKey !in mutable {
        return Err(KeyError);
      }
      var held := mutable[previous.publicKey];
      mutable := mutable[previous.publicKey :=
        PKBalance(held.value - previous.value, Without(held.references, reference))];
    }
    return Ok(mutable);
  }

  method PkbApplyBlock(u: Utxo, p: Index, b: Block) returns (r: Result<Index>)
    ensures r == IndexedBlock(u, p, b)
  {
    if b.transactions == [] {
      return Err(IndexError);
    }
    var current :- PkbApplyTransaction(u, p, b.transactions[0], true);
    var ts := b.transactions[1..];
    for i := 0 to |ts|
      invariant IndexedBlock(u, p, b) == IndexedRest(u, current, ts[i..])
    {
      assert ts[i..][1..] == ts[i + 1..];
      current :- PkbApplyTransaction(u, current, ts[i], false);
    }
    return Ok(current);
  }
}

/** Coin selection and signing: what a wallet spends, what it reserves, and when it refuses. */
module Wallets {
  import opened Basics
  import opened Crypto
  import opened Datatypes
  import opened Balances
  import opened Chains
  import opened CoinStates

  // ----- signing

  /** A transaction whose inputs have no signatures yet. */
  datatype Draft = Draft(references: seq<OutputReference>, outputs: seq<Output>) {
    function Unsigned(): Transaction {
      Transaction(
        seq(|references|, i requires 0 <= i < |references| => Input(references[i], SignableEquivalent)), outputs)
    }
  }

  type Keypairs = map<Bytes64, Bytes>

  /** The signed inputs from number `i` on; `salts` is the randomness of the signatures. */
  function SignedFrom(keypairs: Keypairs, u: Utxo, message: Bytes, rs: seq<OutputReference>, salts: nat -> nat, i: nat):
    (r: Result<seq<Input>>)
    requires i <= |rs|
    ensures r.Ok? ==> |r.value| == |rs| - i
    decreases |rs| - i
  {
    if i == |rs| then Ok([])
    else if rs[i] !in u || u[rs[i]].publicKey.key !in keypairs then Err(PlainException)
    else
      var signature := EcdsaSign(keypairs[u[rs[i]].publicKey.key], message, salts(i));
      var rest :- SignedFrom(keypairs, u, message, rs, salts, i + 1);
      Ok([Input(rs[i], Secp256k1Signature(signature))] + rest)
  }

  function Signed(keypairs: Keypairs, u: Utxo, draft: Draft, salts: nat -> nat): Result<Transaction> {
    var inputs :- SignedFrom(keypairs, u, EncTransaction(draft.Unsigned()), draft.references, salts, 0);
    Ok(Transaction(inputs, draft.outputs))
  }

  method SignTransaction(keypairs: Keypairs, u: Utxo, draft: Draft, salts: nat -> nat) returns (r: Result<Transaction>)
    ensures r == Signed(keypairs, u, draft, salts)
  {
    hide EncTransaction;
    var message := EncTransaction(draft.Unsigned());
    var rs, signedInputs := draft.references, [];
    ghost var whole := SignedFrom(keypairs, u, message, rs, salts, 0);
    assert whole.Ok? ==> signedInputs + whole.value == whole.value;
    for i := 0 to |rs|
      invariant whole == match SignedFrom(keypairs, u, message, rs, salts, i)
                         case Ok(rest) => Ok(signedInputs + rest)
                         case Err(e) => Err(e)
    {
      if rs[i] !in u {
        return Err(PlainException);
      }
      var key := u[rs[i]].publicKey.key;
      if key !in keypairs {
        return Err(PlainException);
      }
      var input := Input(rs[i], Secp256k1Signature(EcdsaSign(keypairs[key], message, salts(i))));
      ghost var rest := SignedFrom(keypairs, u, message, rs, salts, i + 1);
      assert rest.Ok? ==> signedInputs + ([input] + rest.value) == (signedInputs + [input]) + rest.value;
      signedInputs := signedInputs + [input];
    }
    assert signedInputs + [] == signedInputs;
    r := Ok(Transaction(signedInputs, draft.outputs));
  }

  // ----- coin selection

  /** The references the index lists under the wallet's keys, key after key. */
  function Candidates(keys: seq<Bytes64>, index: Index): seq<OutputReference> {
    if keys == [] then []
    else
      var key := Secp256k1PublicKey(keys[0]);
      (if key in index then index[key].references else []) + Candidates(keys[1..], index)
  }

  datatype Selection =
    | Enough(inputs: seq<OutputReference>, collected: nat, spent: set<OutputReference>)
    | Short(spent: set<OutputReference>)
    | Missing(spent: set<OutputReference>)

  /** Reserve and take what is not reserved yet, until the goal is reached. */
  function Select(
    u: Utxo, rs: seq<OutputReference>, spent: set<OutputReference>, inputs: seq<OutputReference>, collected: nat,
    goal: int): Selection
    decreases |rs|
  {
    if rs == [] then Short(spent)
    else if rs[0] in spent then Select(u, rs[1..], spent, inputs, collected, goal)
    else if rs[0] !in u then Missing(spent + {rs[0]})
    else
      var more := collected + u[rs[0]].value;
      if more >= goal then Enough(inputs + [rs[0]], more, spent + {rs[0]})
      else Select(u, rs[1..], spent + {rs[0]}, inputs + [rs[0]], more, goal)
  }

  lemma CandidatesStep(keys: seq<Bytes64>, i: nat, index: Index)
    requires i < |keys|
    ensures var key := Secp256k1PublicKey(keys[i]);
            Candidates(keys[i..], index) ==
            if key in index then index[key].references + Candidates(keys[i + 1..], index)
            else Candidates(keys[i + 1..], index)
  {
    assert keys[i..][1..] == keys[i + 1..];
  }

  lemma SelectStep(
    u: Utxo, rs: seq<OutputReference>, j: nat, later: seq<OutputReference>, spent: set<OutputReference>,
    inputs: seq<OutputReference>, collected: nat, goal: int)
    requires j < |rs|
    ensures Select(u, rs[j..] + later, spent, inputs, collected, goal) ==
            if rs[j] in spent then Select(u, rs[j + 1..] + later, spent, inputs, collected, goal)
            else if rs[j] !in u then Missing(spent + {rs[j]})
            else
              var more := collected + u[rs[j]].value;
              if more >= goal then Enough(inputs + [rs[j]], more, spent + {rs[j]})
              else Select(u, rs[j + 1..] + later, spent + {rs[j]}, inputs + [rs[j]], more, goal)
  {
    assert (rs[j..] + later)[0] == rs[j] && (rs[j..] + later)[1..] == rs[j + 1..] + later;
  }

  lemma SelectNothing(
    u: Utxo, spent: set<OutputReference>, inputs: seq<OutputReference>, collected: nat, goal: int, index: Index)
    ensures Select(u, Candidates([], index), spent, inputs, collected, goal) == Short(spent)
  {
  }

  predicate IsU64(v: int) {
    0 <= v < 0x1_0000_0000_0000_0000
  }

  datatype Order = Order(value: int, minersFee: int, outputKey: PublicKey, changeKey: PublicKey, salts: nat -> nat)

  /** Amounts that do not fit their field surface when the draft is serialised for signing. */
  function Completed(
    keypairs: Keypairs, u: Utxo, order: Order, inputs: seq<OutputReference>, collected: nat): Result<Transaction>
  {
    var change := collected - (order.value + order.minersFee);
    if !IsU64(order.value) || !IsU64(change) then Err(StructError)
    else
      var payment := Output(order.value, order.outputKey);
      var outputs := if change == 0 then [payment] else [payment, Output(change, order.changeKey)];
      Signed(keypairs, u, Draft(inputs, outputs), order.salts)
  }

  function SpendResult(keypairs: Keypairs, u: Utxo, order: Order, selection: Selection): Result<Transaction> {
    match selection
    case Enough(inputs, collected, _) => Completed(keypairs, u, order, inputs, collected)
    case Short(_) => Err(PlainException)
    case Missing(_) => Err(KeyError)
  }

  /** The keys of the key pairs, each once. */
  ghost predicate WalletKeys(keys: seq<Bytes64>, keypairs: Keypairs) {
    Distinct(keys) && forall k :: k in keys <==> k in keypairs
  }

  class Wallet {
    /** The public keys in the order they were added; `keypairs` maps each to its private key. */
    var keys: seq<Bytes64>
    var keypairs: Keypairs
    var spentTransactionOutputs: set<OutputReference>

    ghost predicate Valid()
      reads this
    {
      WalletKeys(keys, keypairs)
    }

    constructor ()
      ensures Valid() && keys == [] && spentTransactionOutputs == {}
    {
      keys := [];
      keypairs := map[];
      spentTransactionOutputs := {};
    }

    method GenerateKey(publicKey: Bytes64, privateKey: Bytes)
      requires Valid()
      modifies this`keys, this`keypairs
      ensures Valid() && keypairs == old(keypairs)[publicKey := privateKey]
    {
      if publicKey !in keypairs {
        keys := keys + [publicKey];
      }
      keypairs := keypairs[publicKey := privateKey];
    }

    /** A failed spend keeps what it has reserved. */
    method CreateSpendTransaction(
      cs: CoinState, balances: PublicKeyBalances, order: Order)
      returns (r: Result<Transaction>)
      requires Valid() && balances.Valid() && balances.blockByHash == cs.blockByHash
      modifies this`spentTransactionOutputs, balances`cache
      ensures Valid() && balances.Valid()
      ensures cs.current == None ==> r == Err(AssertionError) && spentTransactionOutputs == old(spentTransactionOutputs)
      ensures cs.current.Some? && cs.current.value in cs.utxoByHash && IndexAt(cs.blockByHash, cs.current).Ok? ==>
                var u, index := cs.utxoByHash[cs.current.value], IndexAt(cs.blockByHash, cs.current).value;
                var goal := order.value + order.minersFee;
                var selection := Select(u, Candidates(keys, index), old(spentTransactionOutputs), [], 0, goal);
                r == SpendResult(keypairs, u, order, selection) && spentTransactionOutputs == selection.spent
    {
      hide IndexAt, EncTransaction, Completed, Select, Candidates;
      if cs.current == None {
        return Err(AssertionError);
      }
      if cs.current.value !in cs.utxoByHash {
        return Err(KeyError);
      }
      var u, goal := cs.utxoByHash[cs.current.value], order.value + order.minersFee;
      var collected: nat, inputs := 0, [];
      ghost var index := IndexAt(cs.blockByHash, cs.current);
      ghost var whole :=
        if index.Ok? then Select(u, Candidates(keys, index.value), spentTransactionOutputs, [], 0, goal) else Short({});
      for i := 0 to |keys|
        invariant balances.Valid()
        invariant index.Ok? ==>
          whole == Select(u, Candidates(keys[i..], index.value), spentTransactionOutputs, inputs, collected, goal)
      {
        var known :- balances.GetItem(cs.current);
        CandidatesStep(keys, i, known);
        var key := Secp256k1PublicKey(keys[i]);
        if key !in known {
          continue;
        }
        var rs := known[key].references;
        ghost var later := Candidates(keys[i + 1..], known);
        assert rs[0..] == rs;
        for j := 0 to |rs|
          invariant balances.Valid()
          invariant whole == Select(u, rs[j..] + later, spentTransactionOutputs, inputs, collected, goal)
        {
          var reference := rs[j];
          SelectStep(u, rs, j, later, spentTransactionOutputs, inputs, collected, goal);
          if reference in spentTransactionOutputs {
            continue;
          }
          spentTransactionOutputs := spentTransactionOutputs + {reference};
          if reference !in u {
            return Err(KeyError);
          }
          inputs := inputs + [reference];
          collected := collected + u[reference].value;
          if collected >= goal {
            r := CompleteSpend(u, order, inputs, collected);
            return;
          }
        }
        assert rs[|rs|..] + later == later;
      }
      assert keys[|keys|..] == [];
      if index.Ok? {
        SelectNothing(u, spentTransactionOutputs, inputs, collected, goal, index.value);
      }
      return Err(PlainException);
    }

    method CompleteSpend(
      u: Utxo, order: Order, inputs: seq<OutputReference>, collected: nat)
      returns (r: Result<Transaction>)
      ensures r == Completed(keypairs, u, order, inputs, collected)
    {
      hide Signed;
      var total := order.value + order.minersFee;
      if !IsU64(order.value) || !IsU64(collected - total) {
        return Err(StructError);
      }
      var outputs := [Output(order.value, order.outputKey)];
      if collected != total {
        outputs := outputs + [Output(collected - total, order.changeKey)];
        assert outputs == [Output(order.value, order.outputKey), Output(collected - total, order.changeKey)];
      }
      r := SignTransaction(keypairs, u, Draft(inputs, outputs), order.salts);
    }
  }
}

/** What a wallet's spends are worth: exactly funded, never reusing a reference, and valid at the head. */
module Spending {
  import opened Basics
  import opened Crypto
  import opened Datatypes
  import opened Balances
  import opened Chains
  import opened CoinStates
  import opened Consensus
  import opened Totals
  import opened BlockEffects
  import opened History
  import opened BalanceIndex
  import opened Ledger
  import opened Runs
  import opened Wallets

  // ----- the candidates are the wallet's unspent outputs

  /** The unspent outputs that belong to a key of the wallet. */
  ghost predicate IsOurs(u: Utxo, keys: seq<Bytes64>, r: OutputReference) {
    r in u && u[r].publicKey.key in keys
  }

  lemma {:induction false} CandidatesAreOurs(u: Utxo, index: Index, keys: seq<Bytes64>)
    requires Summarises(index, u) && Distinct(keys)
    ensures Distinct(Candidates(keys, index))
    ensures forall r :: r in Candidates(keys, index) <==> IsOurs(u, keys, r)
    decreases |keys|
  {
    if keys != [] {
      var key, rest := Secp256k1PublicKey(keys[0]), keys[1..];
      assert keys == [keys[0]] + rest;
      DistinctTail(keys[0], rest);
      CandidatesAreOurs(u, index, rest);
      assert SummarisesKey(index, u, key);
      var mine := if key in index then index[key].references else [];
      forall r ensures r in mine <==> r in HeldBy(u, key) {
        assert key in index ==> (r in mine <==> r in SetOf(mine));
      }
      DistinctJoin(mine, Candidates(rest, index));
    }
  }

  // ----- selection

  ghost function ValueOf(u: Utxo, rs: seq<OutputReference>): nat {
    if rs == [] then 0 else ValueOf(u, rs[..|rs| - 1]) + (if rs[|rs| - 1] in u then u[rs[|rs| - 1]].value else 0)
  }

  lemma ValueOfNext(u: Utxo, rs: seq<OutputReference>, r: OutputReference)
    requires r in u
    ensures ValueOf(u, rs + [r]) == ValueOf(u, rs) + u[r].value
  {
    assert (rs + [r])[..|rs|] == rs;
  }

  /** The candidates that are not reserved, with their outputs. */
  ghost function Free(u: Utxo, rs: seq<OutputReference>, spent: set<OutputReference>): Utxo {
    map r | r in u && r in rs && r !in spent :: u[r]
  }

  lemma FreeStep(u: Utxo, rs: seq<OutputReference>, spent: set<OutputReference>)
    requires rs != [] && Distinct(rs) && rs[0] in u
    ensures rs[0] in spent ==> Free(u, rs, spent) == Free(u, rs[1..], spent)
    ensures rs[0] !in spent ==>
              && Free(u, rs, spent) != map[]
              && Total(Free(u, rs, spent)) == u[rs[0]].value + Total(Free(u, rs[1..], spent + {rs[0]}))
  {
    hide Total;
    var r, rest := rs[0], rs[1..];
    assert rs == [r] + rest;
    DistinctTail(r, rest);
    if r !in spent {
      assert r in Free(u, rs, spent);
      TotalRemove(Free(u, rs, spent), r);
      assert Free(u, rs, spent) - {r} == Free(u, rest, spent + {r});
    }
  }

  /** The state of the loop: what is taken is reserved, distinct, and worth what was counted. */
  ghost predicate Taken(u: Utxo, spent: set<OutputReference>, inputs: seq<OutputReference>, collected: nat) {
    && Distinct(inputs) && (forall r | r in inputs :: r in u && r in spent)
    && collected == ValueOf(u, inputs)
  }

  lemma TakeOne(u: Utxo, spent: set<OutputReference>, inputs: seq<OutputReference>, collected: nat, r: OutputReference)
    requires Taken(u, spent, inputs, collected) && r in u && r !in spent
    ensures Taken(u, spent + {r}, inputs + [r], collected + u[r].value)
  {
    ValueOfNext(u, inputs, r);
    DistinctJoin(inputs, [r]);
  }

  /** All of `inputs`, in order, then what was taken out of `rs`; no more than needed. */
  ghost predicate Chosen(
    u: Utxo, rs: seq<OutputReference>, spent: set<OutputReference>, inputs: seq<OutputReference>,
    goal: int, s: Selection)
    requires s.Enough?
  {
    && Taken(u, s.spent, s.inputs, s.collected) && s.collected >= goal
    && inputs < s.inputs
    && (forall r | r in s.inputs[|inputs|..] :: r in rs && r !in spent)
    && s.spent == spent + SetOf(s.inputs[|inputs|..])
    && (|s.inputs| == |inputs| + 1 || ValueOf(u, s.inputs[..|s.inputs| - 1]) < goal)
  }

  lemma {:induction false} SelectFacts(
    u: Utxo, rs: seq<OutputReference>, spent: set<OutputReference>, inputs: seq<OutputReference>, collected: nat,
    goal: int)
    requires Distinct(rs) && (forall r | r in rs :: r in u) && Taken(u, spent, inputs, collected)
    ensures var s := Select(u, rs, spent, inputs, collected, goal);
            && !s.Missing?
            && (s.Enough? <==> Free(u, rs, spent) != map[] && collected + Total(Free(u, rs, spent)) >= goal)
            && (s.Enough? ==> Chosen(u, rs, spent, inputs, goal, s))
            && (s.Short? ==> s.spent == spent + SetOf(rs))
    decreases |rs|
  {
    hide Taken, ValueOf, Chosen, Free;
    if rs == [] {
      NothingFree(u, spent);
    } else {
      var r, rest := rs[0], rs[1..];
      assert rs == [r] + rest && r in u;
      DistinctTail(r, rest);
      FreeStep(u, rs, spent);
      if r in spent {
        SelectFacts(u, rest, spent, inputs, collected, goal);
        ChosenLater(u, rs, spent, inputs, goal, Select(u, rest, spent, inputs, collected, goal));
      } else {
        var spent', inputs', collected' := spent + {r}, inputs + [r], collected + u[r].value;
        TakeOne(u, spent, inputs, collected, r);
        if collected' >= goal {
          ChosenNow(u, rs, spent, inputs, collected, goal);
        } else {
          SelectFacts(u, rest, spent', inputs', collected', goal);
          NotYet(u, rest, spent', collected', goal);
          ChosenAfter(u, rs, spent, inputs, collected, goal, Select(u, rest, spent', inputs', collected', goal));
        }
      }
    }
  }

  lemma NothingFree(u: Utxo, spent: set<OutputReference>)
    ensures Free(u, [], spent) == map[]
  {
  }

  lemma NotYet(u: Utxo, rest: seq<OutputReference>, spent: set<OutputReference>, collected: nat, goal: int)
    requires collected < goal
    ensures Free(u, rest, spent) == map[] ==> collected + Total(Free(u, rest, spent)) < goal
  {
  }

  lemma ChosenNow(
    u: Utxo, rs: seq<OutputReference>, spent: set<OutputReference>, inputs: seq<OutputReference>, collected: nat,
    goal: int)
    requires rs != [] && rs[0] in u && rs[0] !in spent && collected + u[rs[0]].value >= goal
    requires Taken(u, spent + {rs[0]}, inputs + [rs[0]], collected + u[rs[0]].value)
    ensures Chosen(u, rs, spent, inputs, goal, Enough(inputs + [rs[0]], collected + u[rs[0]].value, spent + {rs[0]}))
  {
    hide Taken, ValueOf;
    assert (inputs + [rs[0]])[|inputs|..] == [rs[0]];
  }

  lemma ChosenLater(
    u: Utxo, rs: seq<OutputReference>, spent: set<OutputReference>, inputs: seq<OutputReference>,
    goal: int, s: Selection)
    requires rs != [] && rs[0] in spent
    requires s.Enough? ==> Chosen(u, rs[1..], spent, inputs, goal, s)
    ensures s.Enough? ==> Chosen(u, rs, spent, inputs, goal, s)
    ensures s.Short? && s.spent == spent + SetOf(rs[1..]) ==> s.spent == spent + SetOf(rs)
  {
    hide Taken, ValueOf;
    assert rs == [rs[0]] + rs[1..];
  }

  lemma ChosenAfter(
    u: Utxo, rs: seq<OutputReference>, spent: set<OutputReference>, inputs: seq<OutputReference>, collected: nat,
    goal: int, s: Selection)
    requires rs != [] && rs[0] in u && rs[0] !in spent && collected + u[rs[0]].value < goal
    requires Taken(u, spent + {rs[0]}, inputs + [rs[0]], collected + u[rs[0]].value)
    requires s.Enough? ==> Chosen(u, rs[1..], spent + {rs[0]}, inputs + [rs[0]], goal, s)
    ensures s.Enough? ==> Chosen(u, rs, spent, inputs, goal, s)
    ensures s.Short? && s.spent == spent + {rs[0]} + SetOf(rs[1..]) ==> s.spent == spent + SetOf(rs)
  {
    hide ValueOf;
    var r := rs[0];
    assert rs == [r] + rs[1..];
    if s.Enough? {
      var n := |inputs|;
      assert s.inputs[..n + 1] == inputs + [r];
      assert s.inputs[n..] == [r] + s.inputs[n + 1..];
      if |s.inputs| == n + 2 {
        assert s.inputs[..|s.inputs| - 1] == inputs + [r];
      }
    }
  }

  // ----- the order of selection

  /** Candidates come key after key, each key's in the order of the index. */
  lemma {:induction false} CandidatesInTurn(keys: seq<Bytes64>, more: seq<Bytes64>, index: Index)
    ensures |keys| == 1 ==>
              var k := Secp256k1PublicKey(keys[0]);
              Candidates(keys, index) == if k in index then index[k].references else []
    ensures Candidates(keys + more, index) == Candidates(keys, index) + Candidates(more, index)
    decreases |keys|
  {
    if keys == [] {
      assert keys + more == more;
    } else {
      CandidatesInTurn(keys[1..], more, index);
      assert (keys + more)[1..] == keys[1..] + more;
      if |keys| == 1 {
        assert keys[1..] == [];
      }
    }
  }

  /** The candidates that are not reserved, in their order. */
  ghost function NotReserved(rs: seq<OutputReference>, spent: set<OutputReference>): seq<OutputReference> {
    if rs == [] then [] else (if rs[0] in spent then [] else [rs[0]]) + NotReserved(rs[1..], spent)
  }

  lemma {:induction false} ReserveOther(
    rs: seq<OutputReference>, spent: set<OutputReference>, r: OutputReference)
    requires r !in rs
    ensures NotReserved(rs, spent + {r}) == NotReserved(rs, spent)
    decreases |rs|
  {
    if rs != [] {
      ReserveOther(rs[1..], spent, r);
    }
  }

  /** What is selected are the first candidates that are not reserved. */
  lemma {:induction false} SelectTakesFirst(
    u: Utxo, rs: seq<OutputReference>, spent: set<OutputReference>, inputs: seq<OutputReference>, collected: nat,
    goal: int)
    requires Distinct(rs) && Select(u, rs, spent, inputs, collected, goal).Enough?
    ensures Select(u, rs, spent, inputs, collected, goal).inputs <= inputs + NotReserved(rs, spent)
    decreases |rs|
  {
    var r, rest := rs[0], rs[1..];
    assert rs == [r] + rest;
    DistinctTail(r, rest);
    if r in spent {
      SelectTakesFirst(u, rest, spent, inputs, collected, goal);
    } else {
      ReserveOther(rest, spent, r);
      assert inputs + NotReserved(rs, spent) == (inputs + [r]) + NotReserved(rest, spent);
      if collected + u[r].value < goal {
        SelectTakesFirst(u, rest, spent + {r}, inputs + [r], collected + u[r].value, goal);
      }
    }
  }

  // ----- the transaction

  /** The wallet can sign for each of its keys. */
  ghost predicate CanSign(keypairs: Keypairs) {
    forall k | k in keypairs :: SignsFor(k, keypairs[k])
  }

  lemma {:induction false} SignedFromSucceeds(
    keypairs: Keypairs, u: Utxo, message: Bytes, rs: seq<OutputReference>, salts: nat -> nat, i: nat)
    requires i <= |rs| && forall r | r in rs :: r in u && u[r].publicKey.key in keypairs
    ensures var ins := SignedFrom(keypairs, u, message, rs, salts, i);
            && ins.Ok?
            && forall k | i <= k < |rs| ::
                 && rs[k] in u && u[rs[k]].publicKey.key in keypairs
                 && ins.value[k - i] == Input(rs[k], Secp256k1Signature(
                      EcdsaSign(keypairs[u[rs[k]].publicKey.key], message, salts(k))))
    decreases |rs| - i
  {
    if i < |rs| {
      assert rs[i] in rs;
      SignedFromSucceeds(keypairs, u, message, rs, salts, i + 1);
    }
  }

  /** `t` is the draft with every input signed by the key its output pays to. */
  ghost predicate IsSigned(keypairs: Keypairs, u: Utxo, draft: Draft, t: Transaction) {
    && ReferencesOf(t.inputs) == draft.references && t.outputs == draft.outputs
    && forall k | 0 <= k < |t.inputs| ::
         && t.inputs[k].reference in u
         && SignatureForSpend(t.inputs[k], u[t.inputs[k].reference], t).Ok?
  }

  lemma SignedIsSigned(keypairs: Keypairs, u: Utxo, draft: Draft, salts: nat -> nat)
    requires CanSign(keypairs)
    requires forall r | r in draft.references :: r in u && u[r].publicKey.key in keypairs
    ensures Signed(keypairs, u, draft, salts).Ok?
    ensures IsSigned(keypairs, u, draft, Signed(keypairs, u, draft, salts).value)
  {
    hide EncTransaction;
    var message, rs := EncTransaction(draft.Unsigned()), draft.references;
    SignedFromSucceeds(keypairs, u, message, rs, salts, 0);
    var t := Signed(keypairs, u, draft, salts).value;
    assert ReferencesOf(t.inputs) == rs;
    assert Signable(t) == draft.Unsigned() by {
      assert Signable(t).inputs == draft.Unsigned().inputs;
    }
    forall k | 0 <= k < |t.inputs| ensures SignatureForSpend(t.inputs[k], u[rs[k]], t).Ok? {
      var key := u[rs[k]].publicKey.key;
      assert SignsFor(key, keypairs[key]);
      assert EcdsaVerify(key, EcdsaSign(keypairs[key], message, salts(k)), message) == Good;
    }
  }

  lemma SignedInput(keypairs: Keypairs, u: Utxo, draft: Draft, t: Transaction, k: nat)
    requires IsSigned(keypairs, u, draft, t) && k < |t.inputs|
    ensures |draft.references| == |t.inputs| && draft.references[k] == t.inputs[k].reference
    ensures t.inputs[k].reference in u
    ensures SignatureForSpend(t.inputs[k], u[t.inputs[k].reference], t).Ok?
  {
    hide SignatureForSpend;
    assert ReferencesOf(t.inputs)[k] == t.inputs[k].reference;
  }

  lemma {:induction false} ClaimsOfSigned(keypairs: Keypairs, u: Utxo, draft: Draft, t: Transaction, k: nat)
    requires IsSigned(keypairs, u, draft, t) && |t.inputs| == |draft.references| && k <= |t.inputs|
    ensures ClaimedValue(u, t, k).Ok?
    ensures InputsValue(u, t.inputs[k..]) == ClaimedValue(u, t, k)
    ensures ClaimedValue(u, t, k).value + ValueOf(u, draft.references[..k]) == ValueOf(u, draft.references)
    decreases |t.inputs| - k
  {
    hide SignatureForSpend, IsSigned, ValueOf;
    var rs := draft.references;
    if k < |t.inputs| {
      SignedInput(keypairs, u, draft, t, k);
      ClaimsOfSigned(keypairs, u, draft, t, k + 1);
      assert t.inputs[k..][1..] == t.inputs[k + 1..];
      assert rs[..k + 1] == rs[..k] + [rs[k]];
      ValueOfNext(u, rs[..k], rs[k]);
    } else {
      assert rs[..k] == rs && t.inputs[k..] == [];
    }
  }

  /** A signed draft is worth what its references are, and valid over `u` exactly when its outputs do not
      exceed that. */
  lemma SignedIsValid(keypairs: Keypairs, u: Utxo, draft: Draft, t: Transaction)
    requires IsSigned(keypairs, u, draft, t)
    ensures GetTransactionFee(t, u) == Ok(ValueOf(u, draft.references) - OutputsValue(draft.outputs))
    ensures NonCoinbaseInUtxo(t, u).Ok? <==> OutputsValue(draft.outputs) <= ValueOf(u, draft.references)
  {
    hide IsSigned, ClaimedValue;
    SignedParts(keypairs, u, draft, t);
    ClaimsOfSigned(keypairs, u, draft, t, 0);
    assert t.inputs[0..] == t.inputs && draft.references[..0] == [];
  }

  lemma SignedParts(keypairs: Keypairs, u: Utxo, draft: Draft, t: Transaction)
    requires IsSigned(keypairs, u, draft, t)
    ensures t.outputs == draft.outputs && ReferencesOf(t.inputs) == draft.references
  {
    hide SignatureForSpend;
  }

  // ----- the main results

  /** What the wallet owns at the head and has not reserved. */
  ghost function Unreserved(u: Utxo, keys: seq<Bytes64>, spent: set<OutputReference>): Utxo {
    map r | r in u && u[r].publicKey.key in keys && r !in spent :: u[r]
  }

  /** A ledger state, its outputs and index at the head, and a wallet. */
  ghost predicate AtHead(cs: CoinState, u: Utxo, index: Index) {
    && LedgerOk(cs) && NoCollision(ChainAt(cs.blockByHash, cs.current.value))
    && cs.current.value in cs.utxoByHash && cs.utxoByHash[cs.current.value] == u
    && IndexAt(cs.blockByHash, cs.current) == Ok(index)
  }

  lemma HeadIndex(cs: CoinState, u: Utxo, index: Index)
    requires AtHead(cs, u, index)
    ensures Summarises(index, u) && Total(u) <= MAX_SASHIMI
  {
    hide Summarises, Total, NoCollision, ChainAt;
    IndexSummarisesUtxo(cs, cs.current.value);
    SupplyIsBounded(cs, cs.current.value);
  }

  /** The lookup in the unspent outputs never fails; the goal is reached exactly when there is something unreserved and
      it is worth enough; and what is taken is ours, unreserved until now and reserved from now on. */
  lemma SelectionAtHead(
    cs: CoinState, u: Utxo, index: Index, keys: seq<Bytes64>, spent: set<OutputReference>, goal: int)
    requires AtHead(cs, u, index) && Distinct(keys)
    ensures var s, free := Select(u, Candidates(keys, index), spent, [], 0, goal), Unreserved(u, keys, spent);
            && !s.Missing?
            && (s.Enough? <==> free != map[] && Total(free) >= goal)
            && (s.Enough? ==> Chosen(u, Candidates(keys, index), spent, [], goal, s))
            && (s.Short? ==> s.spent == spent + free.Keys)
  {
    hide Summarises, Select, Chosen, Candidates, AtHead, Total, ValueOf;
    HeadIndex(cs, u, index);
    CandidatesAreOurs(u, index, keys);
    var rs := Candidates(keys, index);
    NothingTaken(u, spent);
    SelectFacts(u, rs, spent, [], 0, goal);
    assert Free(u, rs, spent) == Unreserved(u, keys, spent);
    assert spent + SetOf(rs) == spent + Unreserved(u, keys, spent).Keys;
  }

  lemma NothingTaken(u: Utxo, spent: set<OutputReference>)
    ensures Taken(u, spent, [], 0)
  {
  }

  /** The selected inputs: ours, distinct, unreserved until now, reserved from now on, and no more than needed. */
  ghost predicate GoodSelection(u: Utxo, keys: seq<Bytes64>, spent: set<OutputReference>, goal: int, s: Selection)
    requires s.Enough?
  {
    && s.inputs != [] && Distinct(s.inputs)
    && (forall r | r in s.inputs :: IsOurs(u, keys, r) && r !in spent)
    && s.spent == spent + SetOf(s.inputs)
    && s.collected == ValueOf(u, s.inputs) >= goal
    && (|s.inputs| == 1 || ValueOf(u, s.inputs[..|s.inputs| - 1]) < goal)
  }

  /** `t` spends the selected inputs, pays the order and the change, and leaves exactly the fee. */
  ghost predicate GoodSpend(u: Utxo, order: Order, s: Selection, t: Transaction)
    requires s.Enough?
  {
    var change := s.collected - (order.value + order.minersFee);
    && ReferencesOf(t.inputs) == s.inputs
    && IsU64(order.value) && IsU64(change)
    && t.outputs == (if change == 0 then [Output(order.value, order.outputKey)]
                     else [Output(order.value, order.outputKey), Output(change, order.changeKey)])
    && GetTransactionFee(t, u) == Ok(order.minersFee)
  }

  lemma EnoughIsChosen(
    cs: CoinState, u: Utxo, index: Index, keys: seq<Bytes64>, spent: set<OutputReference>, goal: int, s: Selection)
    requires AtHead(cs, u, index) && Distinct(keys)
    requires s == Select(u, Candidates(keys, index), spent, [], 0, goal) && s.Enough?
    ensures GoodSelection(u, keys, spent, goal, s)
  {
    hide Select, Candidates, AtHead, ValueOf, Total, Summarises, Unreserved;
    SelectionAtHead(cs, u, index, keys, spent, goal);
    HeadIndex(cs, u, index);
    CandidatesAreOurs(u, index, keys);
    assert s.inputs[0..] == s.inputs;
  }

  lemma AtHeadVerdict(cs: CoinState, u: Utxo, index: Index, t: Transaction)
    requires AtHead(cs, u, index)
    ensures cs.current.Some? && NonCoinbaseInCoinstate(t, cs.current.value, cs) == NonCoinbaseInUtxo(t, u)
  {
    hide NonCoinbaseInUtxo, NoCollision, IndexAt;
  }

  /** A completed selection is a good spend, and valid at the head exactly when the fee is not negative. */
  lemma CompletedIsGood(
    u: Utxo, keys: seq<Bytes64>, keypairs: Keypairs, spent: set<OutputReference>, order: Order, s: Selection)
    requires WalletKeys(keys, keypairs) && CanSign(keypairs)
    requires s.Enough? && GoodSelection(u, keys, spent, order.value + order.minersFee, s)
    requires IsU64(order.value) && IsU64(s.collected - (order.value + order.minersFee))
    ensures var r := SpendResult(keypairs, u, order, s);
            && r.Ok? && GoodSpend(u, order, s, r.value)
            && (NonCoinbaseInUtxo(r.value, u).Ok? <==> order.minersFee >= 0)
  {
    hide ValueOf, CanSign, Signed, IsSigned, NonCoinbaseInUtxo, GetTransactionFee;
    var payment, change := Output(order.value, order.outputKey), s.collected - (order.value + order.minersFee);
    var draft := Draft(s.inputs, if change == 0 then [payment] else [payment, Output(change, order.changeKey)]);
    OutputsOfDraft(payment, change, order.changeKey);
    SignedIsSigned(keypairs, u, draft, order.salts);
    var t := Signed(keypairs, u, draft, order.salts).value;
    SignedIsValid(keypairs, u, draft, t);
    SignedParts(keypairs, u, draft, t);
  }

  lemma OutputsOfDraft(payment: Output, change: u64, changeKey: PublicKey)
    ensures OutputsValue([payment]) == payment.value
    ensures OutputsValue([payment, Output(change, changeKey)]) == payment.value + change
  {
    var both := [payment, Output(change, changeKey)];
    assert both[1..] == [Output(change, changeKey)] && both[1..][1..] == [] && [payment][1..] == [];
  }

  /** For a positive amount and a fee that is not negative, spending succeeds exactly when the unreserved value held
      covers both, and then with a good spend; otherwise it raises and everything unreserved ends up reserved. */
  lemma SpendSucceedsExactly(
    cs: CoinState, u: Utxo, index: Index, keys: seq<Bytes64>, keypairs: Keypairs, spent: set<OutputReference>,
    order: Order)
    requires AtHead(cs, u, index) && WalletKeys(keys, keypairs) && CanSign(keypairs)
    requires order.value > 0 && order.minersFee >= 0
    ensures var goal, free := order.value + order.minersFee, Unreserved(u, keys, spent);
            var s := Select(u, Candidates(keys, index), spent, [], 0, goal);
            var r := SpendResult(keypairs, u, order, s);
            && (r.Ok? <==> Total(free) >= goal)
            && (r.Ok? ==> s.Enough? && GoodSelection(u, keys, spent, goal, s) && GoodSpend(u, order, s, r.value)
                          && cs.current.Some? && NonCoinbaseInCoinstate(r.value, cs.current.value, cs).Ok?)
            && (r.Err? ==> r.error == PlainException && s.Short? && s.spent == spent + free.Keys)
  {
    hide Select, Candidates, ValueOf, CanSign, NonCoinbaseInUtxo, NonCoinbaseInCoinstate, GoodSpend, GetTransactionFee,
      AtHead, Completed, Unreserved, Total;
    var goal := order.value + order.minersFee;
    var s := Select(u, Candidates(keys, index), spent, [], 0, goal);
    SelectionAtHead(cs, u, index, keys, spent, goal);
    TotalOfNothing();
    if s.Enough? {
      HeadIndex(cs, u, index);
      EnoughIsChosen(cs, u, index, keys, spent, goal, s);
      CollectedWithinTotal(u, s.inputs);
      CompletedIsGood(u, keys, keypairs, spent, order, s);
      AtHeadVerdict(cs, u, index, SpendResult(keypairs, u, order, s).value);
    }
  }

  lemma {:induction false} CollectedWithinTotal(u: Utxo, rs: seq<OutputReference>)
    requires Distinct(rs) && forall r | r in rs :: r in u
    ensures ValueOf(u, rs) <= Total(u)
    decreases |rs|
  {
    if rs != [] {
      var front, last := rs[..|rs| - 1], rs[|rs| - 1];
      assert last in rs && last !in front;
      TotalRemove(u, last);
      CollectedWithinTotal(u - {last}, front);
      SameValue(u, front, last);
    }
  }

  lemma {:induction false} SameValue(u: Utxo, rs: seq<OutputReference>, r: OutputReference)
    requires r !in rs
    ensures ValueOf(u - {r}, rs) == ValueOf(u, rs)
    decreases |rs|
  {
    if rs != [] {
      SameValue(u, rs[..|rs| - 1], r);
    }
  }

  // ----- one spend after another

  /** One attempt to spend: the outputs and index it finds, the keys the wallet has by then, the amount with the fee. */
  datatype Attempt = Attempt(u: Utxo, index: Index, keys: seq<Bytes64>, goal: int)

  ghost function SelectionOf(a: Attempt, spent: set<OutputReference>): Selection {
    Select(a.u, Candidates(a.keys, a.index), spent, [], 0, a.goal)
  }

  /** What is reserved when attempt number `n` is made. */
  ghost function ReservedBefore(spent: set<OutputReference>, attempts: seq<Attempt>, n: nat): set<OutputReference>
    requires n <= |attempts|
  {
    if n == 0 then spent else SelectionOf(attempts[n - 1], ReservedBefore(spent, attempts, n - 1)).spent
  }

  /** Whatever the outputs and the index: what is selected was not reserved before and is reserved from then on. */
  lemma {:induction false} SelectReserves(
    u: Utxo, rs: seq<OutputReference>, spent: set<OutputReference>, inputs: seq<OutputReference>, collected: nat,
    goal: int)
    ensures var s := Select(u, rs, spent, inputs, collected, goal);
            && spent <= s.spent
            && (s.Enough? ==> forall r | r in s.inputs :: r in inputs || (r !in spent && r in s.spent))
            && (s.Missing? ==> exists r | r in rs :: r !in u && r in s.spent)
    decreases |rs|
  {
    if rs != [] {
      var r, rest := rs[0], rs[1..];
      if r in spent {
        SelectReserves(u, rest, spent, inputs, collected, goal);
      } else if r in u && collected + u[r].value < goal {
        SelectReserves(u, rest, spent + {r}, inputs + [r], collected + u[r].value, goal);
      }
    }
  }

  lemma SelectionReserves(a: Attempt, spent: set<OutputReference>)
    ensures var s := SelectionOf(a, spent);
            && spent <= s.spent
            && (s.Enough? ==> forall r | r in s.inputs :: r !in spent && r in s.spent)
  {
    hide Select, Candidates;
    SelectReserves(a.u, Candidates(a.keys, a.index), spent, [], 0, a.goal);
  }

  /** The reserved set only grows. */
  lemma {:induction false} ReservedGrows(spent: set<OutputReference>, attempts: seq<Attempt>, m: nat, n: nat)
    requires m <= n <= |attempts|
    ensures ReservedBefore(spent, attempts, m) <= ReservedBefore(spent, attempts, n)
    decreases n - m
  {
    hide SelectionOf;
    if m < n {
      ReservedGrows(spent, attempts, m, n - 1);
      SelectionReserves(attempts[n - 1], ReservedBefore(spent, attempts, n - 1));
    }
  }

  /** However many spends a wallet attempts, in whatever states and whether they succeed, run short or raise, no two
      that succeed share an input. */
  lemma SpendsAreDisjoint(spent: set<OutputReference>, attempts: seq<Attempt>, i: nat, j: nat)
    requires i < j < |attempts|
    ensures var s, s' := SelectionOf(attempts[i], ReservedBefore(spent, attempts, i)),
                         SelectionOf(attempts[j], ReservedBefore(spent, attempts, j));
            s.Enough? && s'.Enough? ==> forall r :: r in s.inputs ==> r !in s'.inputs
  {
    hide SelectionOf;
    SelectionReserves(attempts[i], ReservedBefore(spent, attempts, i));
    SelectionReserves(attempts[j], ReservedBefore(spent, attempts, j));
    ReservedGrows(spent, attempts, i + 1, j);
  }
}

/** Sums of output values over sets of unspent outputs. */
module Totals {
  import opened Datatypes
  import opened Balances

  ghost function Total(u: Utxo): nat {
    if u == map[] then 0
    else
      var r :| r in u;
      u[r].value + Total(u - {r})
  }

  lemma TotalOfNothing()
    ensures Total(map[]) == 0
  {
  }

  lemma {:induction false} TotalRemove(u: Utxo, r: OutputReference)
    requires r in u
    ensures Total(u) == u[r].value + Total(u - {r})
    decreases |u|
  {
    var q :| q in u && Total(u) == u[q].value + Total(u - {q});
    if q != r {
      TotalRemove(u - {q}, r);
      TotalRemove(u - {r}, q);
      assert (u - {q}) - {r} == (u - {r}) - {q};
    }
  }

  lemma TotalAdd(u: Utxo, r: OutputReference, o: Output)
    ensures r !in u ==> Total(u[r := o]) == Total(u) + o.value
    ensures Total(u[r := o]) <= Total(u) + o.value
  {
    TotalRemove(u[r := o], r);
    assert u[r := o] - {r} == u - {r};
    if r in u {
      TotalRemove(u, r);
    } else {
      assert u - {r} == u;
    }
  }

  lemma {:induction false} TotalMonotone(u: Utxo, rs: set<OutputReference>)
    ensures Total(u - rs) <= Total(u)
    decreases |u|
  {
    if r :| r in u && r in rs {
      TotalRemove(u, r);
      assert (u - {r}) - rs == u - rs;
      TotalMonotone(u - {r}, rs);
    } else {
      assert u - rs == u;
    }
  }

  ghost function Only(u: Utxo, rs: set<OutputReference>): Utxo {
    map r | r in u && r in rs :: u[r]
  }

  lemma {:induction false} TotalSplit(u: Utxo, rs: set<OutputReference>)
    ensures Total(u) == Total(Only(u, rs)) + Total(u - rs)
    decreases |u|
  {
    hide Total;
    if r :| r in u && r in rs {
      TotalRemove(u, r);
      TotalRemove(Only(u, rs), r);
      TotalSplit(u - {r}, rs);
      assert Only(u - {r}, rs) == Only(u, rs) - {r};
      assert (u - {r}) - rs == u - rs;
    } else {
      assert u - rs == u && Only(u, rs) == map[];
      TotalOfNothing();
    }
  }
}

/** The balance ledger: a map from address to amount, absent entries read as zero. */
module Balances {
  import opened CosmwasmStd

  type Ledger = map<Addr, Uint128>

  /** The balance of `a`, zero when the ledger has no entry for it. */
  function Get(b: Ledger, a: Addr): (v: Uint128)
    ensures a !in b ==> v == 0
    ensures a in b ==> v == b[a]
  {
    if a in b then b[a] else 0
  }

  /** The ledger after `amount` is added to the balance of `a`. */
  function Credit(b: Ledger, a: Addr, amount: Uint128): (c: Ledger)
    requires Get(b, a) + amount < UINT128_LIMIT
    ensures c.Keys == b.Keys + {a}
    ensures Get(c, a) == Get(b, a) + amount
    ensures forall x :: x != a ==> Get(c, x) == Get(b, x)
  {
    b[a := Get(b, a) + amount]
  }

  /** The sum of all balances. */
  ghost function SumValues(b: Ledger): nat
    decreases b.Keys
  {
    if b == map[] then 0
    else
      var a :| a in b;
      b[a] + SumValues(b - {a})
  }

  /** The sum can be split at any address, not only at the one the definition picks. */
  lemma {:induction false} SumValuesRemove(b: Ledger, a: Addr)
    requires a in b
    ensures SumValues(b) == b[a] + SumValues(b - {a})
    decreases b.Keys
  {
    var k :| k in b && SumValues(b) == b[k] + SumValues(b - {k});
    if k != a {
      SumValuesRemove(b - {k}, a);
      SumValuesRemove(b - {a}, k);
      assert (b - {k}) - {a} == (b - {a}) - {k};
    }
  }

  /** Adding an entry for a new address adds its amount to the sum. */
  lemma SumValuesAdd(b: Ledger, a: Addr, v: Uint128)
    requires a !in b
    ensures SumValues(b[a := v]) == SumValues(b) + v
  {
    SumValuesRemove(b[a := v], a);
    assert b[a := v] - {a} == b;
  }

  /** Writing `v` over the balance of `a` replaces that balance in the sum. */
  lemma SumValuesOverwrite(b: Ledger, a: Addr, v: Uint128)
    ensures SumValues(b[a := v]) + Get(b, a) == SumValues(b) + v
  {
    if a in b {
      SumValuesRemove(b, a);
      SumValuesRemove(b[a := v], a);
      assert b[a := v] - {a} == b - {a};
    } else {
      SumValuesAdd(b, a, v);
    }
  }

  /** Crediting an address raises the sum of all balances by exactly the amount. */
  lemma SumValuesCredit(b: Ledger, a: Addr, amount: Uint128)
    requires Get(b, a) + amount < UINT128_LIMIT
    ensures SumValues(Credit(b, a, amount)) == SumValues(b) + amount
  {
    var c := Credit(b, a, amount);
    if a in b {
      SumValuesRemove(b, a);
      SumValuesRemove(c, a);
      assert c - {a} == b - {a};
    } else {
      SumValuesAdd(b, a, amount);
    }
  }

  /** No single balance exceeds the sum of all balances. */
  lemma {:induction false} BalanceAtMostSum(b: Ledger, a: Addr)
    ensures Get(b, a) <= SumValues(b)
  {
    if a in b {
      SumValuesRemove(b, a);
    }
  }
}

/**
 * Sums of the amounts held in a finite map. The order of summation is
 * irrelevant, so the account invariant can speak of "the sum of the held
 * amounts" without committing to any iteration order; `amount` says what each
 * entry contributes.
 */
module Sums {
  import opened Ids

  ghost function Sum<V>(m: map<TxId, V>, amount: V -> nat): nat
    decreases |m|
  {
    if m == map[] then 0
    else
      var k :| k in m;
      assert (m - {k}).Keys == m.Keys - {k};
      amount(m[k]) + Sum(m - {k}, amount)
  }

  /** Any entry can be taken out first. */
  lemma {:induction false} SumRemove<V>(m: map<TxId, V>, amount: V -> nat, k: TxId)
    requires k in m
    ensures Sum(m, amount) == amount(m[k]) + Sum(m - {k}, amount)
    decreases |m|
  {
    var j :| j in m && Sum(m, amount) == amount(m[j]) + Sum(m - {j}, amount);
    if j != k {
      assert (m - {j}).Keys == m.Keys - {j};
      SumRemove(m - {j}, amount, k);
      assert (m - {k}).Keys == m.Keys - {k};
      SumRemove(m - {k}, amount, j);
      assert m - {j} - {k} == m - {k} - {j};
    }
  }

  lemma SumInsert<V>(m: map<TxId, V>, amount: V -> nat, k: TxId, v: V)
    requires k !in m
    ensures Sum(m[k := v], amount) == Sum(m, amount) + amount(v)
  {
    SumRemove(m[k := v], amount, k);
    assert m[k := v] - {k} == m;
  }

  lemma SumEmpty<V>(amount: V -> nat)
    ensures Sum(map[], amount) == 0
  {
  }

  /** Every entry is at most the sum. */
  lemma EntryAtMostSum<V>(m: map<TxId, V>, amount: V -> nat, k: TxId)
    requires k in m
    ensures amount(m[k]) <= Sum(m, amount)
  {
    SumRemove(m, amount, k);
  }
}

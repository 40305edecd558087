/** The sum of the values of a finite map, used for byte totals and extension counts. */
module Sums {

  ghost function SumValues<K>(m: map<K, nat>): nat
    decreases |m|
  {
    if m == map[] then 0
    else
      var k :| k in m;
      assert |m - {k}| < |m| by { assert m.Keys - {k} < m.Keys; }
      m[k] + SumValues(m - {k})
  }

  /** The sum does not depend on the order in which keys are taken out. */
  lemma {:induction false} SumValuesRemove<K>(m: map<K, nat>, x: K)
    requires x in m
    ensures SumValues(m) == m[x] + SumValues(m - {x})
    decreases |m|
  {
    var k :| k in m && SumValues(m) == m[k] + SumValues(m - {k});
    if k != x {
      assert |m - {k}| < |m| by { assert (m - {k}).Keys < m.Keys; }
      SumValuesRemove(m - {k}, x);
      assert |m - {x}| < |m| by { assert (m - {x}).Keys < m.Keys; }
      SumValuesRemove(m - {x}, k);
      assert m - {k} - {x} == m - {x} - {k};
    }
  }

  lemma SumValuesEmpty<K>(m: map<K, nat>)
    requires |m| == 0
    ensures SumValues(m) == 0
  {
    assert m == map[];
  }

  /** Setting one key changes the sum by the difference at that key. */
  lemma SumValuesUpdate<K>(m: map<K, nat>, x: K, v: nat)
    ensures SumValues(m[x := v]) == SumValues(m) - (if x in m then m[x] else 0) + v
  {
    var m' := m[x := v];
    SumValuesRemove(m', x);
    assert m' - {x} == m - {x};
    if x in m {
      SumValuesRemove(m, x);
    } else {
      assert m - {x} == m;
    }
  }
}

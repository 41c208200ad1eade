/** The multiset of values of a map. */
module Bags {
  ghost function Bag<K, V>(m: map<K, V>): multiset<V>
    decreases |m|
  {
    if m == map[] then multiset{}
    else
      var k :| k in m;
      multiset{m[k]} + Bag(m - {k})
  }

  lemma Swap<V>(a: V, b: V, rest: multiset<V>)
    ensures multiset{a} + (multiset{b} + rest) == multiset{b} + (multiset{a} + rest)
  {
  }

  lemma Commute<V>(a: V, rest: multiset<V>)
    ensures multiset{a} + rest == rest + multiset{a}
  {
  }

  lemma TakeOut<V>(a: V, rest: multiset<V>)
    ensures multiset{a} + rest - multiset{a} == rest
  {
  }

  lemma Replace<V>(a: V, b: V, rest: multiset<V>)
    ensures multiset{a} + rest - multiset{a} + multiset{b} == multiset{b} + rest
  {
  }

  /** The recursion of `Bag` may start with any key. */
  lemma {:induction false} BagWithout<K, V>(m: map<K, V>, k: K)
    requires k in m
    ensures Bag(m) == multiset{m[k]} + Bag(m - {k})
    decreases |m|
  {
    var j :| j in m && Bag(m) == multiset{m[j]} + Bag(m - {j});
    if j != k {
      var rest := m - {j} - {k};
      assert rest == m - {k} - {j};
      BagWithout(m - {j}, k);
      BagWithout(m - {k}, j);
      Swap(m[j], m[k], Bag(rest));
    }
  }
}

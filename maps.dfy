/**
 * Small facts about finite maps that the ledger proofs share: removing keys
 * that were just added, or that are absent, and putting a key back.
 */
module MapFacts {
  /** A map that equals `m` once key `k` is removed, and holds `v` at `k`, is `m[k := v]`. */
  lemma Reinsert<K, V>(m': map<K, V>, m: map<K, V>, k: K, v: V)
    requires k in m' && m'[k] == v && m' - {k} == m - {k}
    ensures m' == m[k := v]
  {
    forall x | x != k
      ensures (x in m') == (x in m) && (x in m ==> m'[x] == m[x])
    {
      assert (x in m') == (x in m' - {k}) && (x in m) == (x in m - {k});
    }
    assert m'.Keys == m[k := v].Keys;
  }

  /** Removing a key that was just added to `m`, or that `m` lacks, gives back `m`. */
  lemma DropAdded<K, V>(m: map<K, V>, k: K, v: V)
    requires k !in m
    ensures m[k := v] - {k} == m && m - {k} == m
  {
    assert (m[k := v] - {k}).Keys == m.Keys;
    assert (m - {k}).Keys == m.Keys;
  }

  /** Removing two keys at once is removing them one after the other, in either order. */
  lemma DropPair<K, V>(m: map<K, V>, a: K, b: K)
    ensures m - {a, b} == (m - {a}) - {b} == (m - {b}) - {a}
  {
    assert (m - {a, b}).Keys == ((m - {a}) - {b}).Keys == ((m - {b}) - {a}).Keys;
  }

  /** Removing the same key twice is removing it once. */
  lemma DropSame<K, V>(m: map<K, V>, k: K)
    ensures m - {k, k} == m - {k}
  {
    assert {k, k} == {k};
  }
}

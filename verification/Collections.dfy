/** Equalities of sets, sequences and maps. */
module Collections {
  lemma EmptyUnion<T>(s: set<T>)
    ensures {} + s == s && s + {} == s
  {
  }

  lemma UnionOfSubset<T>(part: set<T>, whole: set<T>)
    requires part <= whole
    ensures part + whole == whole
  {
  }

  lemma Associative<T>(a: seq<T>, b: seq<T>, c: seq<T>)
    ensures (a + b) + c == a + (b + c)
  {
  }

  lemma EmptyMapUnion<K, V>(m: map<K, V>)
    ensures map[] + m == m
  {
  }

  lemma StoringTheSame<K, V>(m: map<K, V>, k: K)
    requires k in m
    ensures m[k := m[k]] == m
  {
  }

  lemma KeysAfterUpdate<K, V>(m: map<K, V>, k: K, v: V)
    ensures m[k := v].Keys == m.Keys + {k}
    ensures k in m ==> m[k := v].Keys == m.Keys
    ensures k !in m ==> |m[k := v]| == |m| + 1
  {
    assert m[k := v].Keys == m.Keys + {k};
  }
}

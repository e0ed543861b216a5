/** Updating a map at a sequence of keys, as dict.update does. */
module Maps {

  function Assign<K, V>(m: map<K, V>, ks: seq<K>, vs: seq<V>): map<K, V>
    requires |ks| == |vs|
  {
    if ks == [] then m
    else
      var n := |ks| - 1;
      Assign(m, ks[..n], vs[..n])[ks[n] := vs[n]]
  }

  ghost predicate Distinct<K>(ks: seq<K>) {
    forall i, j :: 0 <= i < j < |ks| ==> ks[i] != ks[j]
  }

  function KeySetOf<K>(ks: seq<K>): set<K> {
    set k | k in ks
  }

  lemma {:induction false} AssignEffect<K(!new), V>(m: map<K, V>, ks: seq<K>, vs: seq<V>)
    requires |ks| == |vs| && Distinct(ks)
    ensures Assign(m, ks, vs).Keys == m.Keys + KeySetOf(ks)
    ensures forall i :: 0 <= i < |ks| ==> ks[i] in Assign(m, ks, vs) && Assign(m, ks, vs)[ks[i]] == vs[i]
    ensures forall k :: k in m && k !in ks ==> Assign(m, ks, vs)[k] == m[k]
  {
    if ks != [] {
      var n := |ks| - 1;
      AssignEffect(m, ks[..n], vs[..n]);
      assert ks == ks[..n] + [ks[n]];
      forall i | 0 <= i < |ks|
        ensures ks[i] in Assign(m, ks, vs) && Assign(m, ks, vs)[ks[i]] == vs[i]
      {
        if i < n { assert ks[..n][i] == ks[i] && vs[..n][i] == vs[i]; }
      }
    }
  }

  lemma {:induction false} AssignKeys<K, V>(m: map<K, V>, ks: seq<K>, vs: seq<V>)
    requires |ks| == |vs|
    ensures Assign(m, ks, vs).Keys == m.Keys + KeySetOf(ks)
  {
    if ks != [] {
      var n := |ks| - 1;
      AssignKeys(m, ks[..n], vs[..n]);
      assert ks == ks[..n] + [ks[n]];
    }
  }

  lemma AssignNext<K, V>(m: map<K, V>, ks: seq<K>, vs: seq<V>, i: nat)
    requires i < |ks| == |vs|
    ensures Assign(m, ks[..i + 1], vs[..i + 1]) == Assign(m, ks[..i], vs[..i])[ks[i] := vs[i]]
  {
    assert ks[..i + 1][..i] == ks[..i] && vs[..i + 1][..i] == vs[..i];
  }
}

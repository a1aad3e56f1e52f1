/** Python dictionaries built from a sequence of key/value pairs, as a dict
    comprehension or a loop of `d[k] = v` builds them. */
module Tables {

  /** `{k: v for k, v in pairs}`: when a key repeats, the later pair wins. */
  function DictOf<K(==,!new), V(==,!new)>(pairs: seq<(K, V)>): (m: map<K, V>)
    ensures forall k :: k in m <==> exists i :: 0 <= i < |pairs| && pairs[i].0 == k
    ensures forall k :: k in m ==> exists i :: 0 <= i < |pairs| && pairs[i] == (k, m[k])
    decreases |pairs|
  {
    if pairs == [] then map[]
    else
      var prefix := pairs[..|pairs| - 1];
      assert forall i :: 0 <= i < |prefix| ==> prefix[i] == pairs[i];
      DictOf(prefix)[pairs[|pairs| - 1].0 := pairs[|pairs| - 1].1]
  }

  /** A key maps to the value of its last pair. */
  lemma {:induction false} DictOfLastWins<K(!new), V(!new)>(pairs: seq<(K, V)>, i: nat)
    requires i < |pairs|
    requires forall j :: i < j < |pairs| ==> pairs[j].0 != pairs[i].0
    ensures pairs[i].0 in DictOf(pairs)
    ensures DictOf(pairs)[pairs[i].0] == pairs[i].1
    decreases |pairs|
  {
    var prefix := pairs[..|pairs| - 1];
    if i < |pairs| - 1 {
      assert prefix[i] == pairs[i];
      assert forall j :: i < j < |prefix| ==> prefix[j] == pairs[j];
      DictOfLastWins(prefix, i);
    }
  }

  /** A key's value comes from the last pair with that key. */
  lemma {:induction false} DictOfValueIsLast<K(!new), V(!new)>(pairs: seq<(K, V)>, k: K)
    requires k in DictOf(pairs)
    ensures exists i ::
      0 <= i < |pairs| && pairs[i] == (k, DictOf(pairs)[k]) && forall j :: i < j < |pairs| ==> pairs[j].0 != k
    decreases |pairs|
  {
    var last := |pairs| - 1;
    var m := DictOf(pairs);
    if pairs[last].0 == k {
      assert pairs[last] == (k, m[k]);
    } else {
      var prefix := pairs[..last];
      assert m == DictOf(prefix)[pairs[last].0 := pairs[last].1];
      DictOfValueIsLast(prefix, k);
      var i :| 0 <= i < |prefix| && prefix[i] == (k, DictOf(prefix)[k]) &&
        forall j :: i < j < |prefix| ==> prefix[j].0 != k;
      assert pairs[i] == (k, m[k]);
      forall j | i < j < |pairs| ensures pairs[j].0 != k {
        if j < last {
          assert pairs[j] == prefix[j];
        }
      }
    }
  }

  /** There are never more keys than pairs. */
  lemma {:induction false} DictOfSize<K(!new), V(!new)>(pairs: seq<(K, V)>)
    ensures |DictOf(pairs)| <= |pairs|
    decreases |pairs|
  {
    if pairs != [] {
      DictOfSize(pairs[..|pairs| - 1]);
    }
  }

  /** Adding one more pair updates the dictionary built so far. */
  lemma DictOfSnoc<K(!new), V(!new)>(pairs: seq<(K, V)>, k: K, v: V)
    ensures DictOf(pairs + [(k, v)]) == DictOf(pairs)[k := v]
  {
    assert (pairs + [(k, v)])[..|pairs|] == pairs;
  }
}

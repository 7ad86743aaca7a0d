/** One value for each key, from the first element that has it. */
module Firsts {

  function KeysOf<T, K(==)>(xs: seq<T>, ok: T -> bool, key: T -> K): set<K> {
    if xs == [] then {}
    else
      var n := |xs| - 1;
      KeysOf(xs[..n], ok, key) + if ok(xs[n]) then {key(xs[n])} else {}
  }

  function ValuesOf<T, K(==), V>(xs: seq<T>, ok: T -> bool, key: T -> K, value: T -> V): seq<V> {
    if xs == [] then []
    else
      var n := |xs| - 1;
      var isNew := ok(xs[n]) && key(xs[n]) !in KeysOf(xs[..n], ok, key);
      ValuesOf(xs[..n], ok, key, value) + if isNew then [value(xs[n])] else []
  }

  /** No earlier element that counts has the key. */
  predicate IsFirst<T, K(==)>(xs: seq<T>, ok: T -> bool, key: T -> K, i: nat)
    requires i < |xs|
  {
    ok(xs[i]) && forall j :: 0 <= j < i && ok(xs[j]) ==> key(xs[j]) != key(xs[i])
  }

  lemma {:induction false} KeysFrom<T, K>(xs: seq<T>, ok: T -> bool, key: T -> K, k: K)
    ensures k in KeysOf(xs, ok, key) <==> exists i :: 0 <= i < |xs| && ok(xs[i]) && key(xs[i]) == k
  {
    if xs != [] {
      var n := |xs| - 1;
      KeysFrom(xs[..n], ok, key, k);
      assert forall i :: 0 <= i < n ==> xs[..n][i] == xs[i];
    }
  }

  /** One value for each key. */
  lemma {:induction false} ValuesCount<T, K, V>(xs: seq<T>, ok: T -> bool, key: T -> K, value: T -> V)
    ensures |ValuesOf(xs, ok, key, value)| == |KeysOf(xs, ok, key)|
  {
    if xs != [] {
      var n := |xs| - 1;
      var before := KeysOf(xs[..n], ok, key);
      ValuesCount(xs[..n], ok, key, value);
      if !ok(xs[n]) || key(xs[n]) in before {
        assert KeysOf(xs, ok, key) == before;
      } else {
        assert KeysOf(xs, ok, key) == before + {key(xs[n])};
      }
    }
  }

  lemma FirstIff<T, K>(xs: seq<T>, ok: T -> bool, key: T -> K, i: nat)
    requires i < |xs|
    ensures IsFirst(xs, ok, key, i) <==> ok(xs[i]) && key(xs[i]) !in KeysOf(xs[..i], ok, key)
  {
    KeysFrom(xs[..i], ok, key, key(xs[i]));
    assert forall j :: 0 <= j < i ==> xs[..i][j] == xs[j];
  }

  /** The value of one of the first n elements that is the first with its key. */
  ghost predicate IsValue<T, K, V>(xs: seq<T>, ok: T -> bool, key: T -> K, value: T -> V, v: V, n: nat)
    requires n <= |xs|
  {
    exists i :: 0 <= i < n && IsFirst(xs, ok, key, i) && v == value(xs[i])
  }

  lemma {:induction false} ValuesFrom<T, K, V>(xs: seq<T>, ok: T -> bool, key: T -> K, value: T -> V, v: V, n: nat)
    requires n <= |xs|
    ensures v in ValuesOf(xs[..n], ok, key, value) <==> IsValue(xs, ok, key, value, v, n)
  {
    if n > 0 {
      ValuesFrom(xs, ok, key, value, v, n - 1);
      FirstIff(xs, ok, key, n - 1);
      assert xs[..n][..n - 1] == xs[..n - 1] && xs[..n][n - 1] == xs[n - 1];
    }
  }

  lemma {:induction false} FirstExists<T, K>(xs: seq<T>, ok: T -> bool, key: T -> K, k: nat) returns (i: nat)
    requires k < |xs| && ok(xs[k])
    ensures i <= k && IsFirst(xs, ok, key, i) && key(xs[i]) == key(xs[k])
  {
    i := k;
    if !IsFirst(xs, ok, key, k) {
      var j :| 0 <= j < k && ok(xs[j]) && key(xs[j]) == key(xs[k]);
      i := FirstExists(xs, ok, key, j);
    }
  }
}

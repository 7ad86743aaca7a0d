/** Unsigned 64-bit arithmetic and sums over maps. */
module Totals {
  const TWO_64 := 0x1_0000_0000_0000_0000
  type Uint64 = n: int | 0 <= n < 0x1_0000_0000_0000_0000

  /** The value of a uint64 computation: arithmetic wraps around. */
  function Wrap(n: int): (w: Uint64)
    ensures 0 <= n < TWO_64 ==> w == n
  {
    n % TWO_64
  }

  /** Wrapping early makes no difference to a sum or difference. */
  lemma WrapInside(a: int, b: int)
    ensures Wrap(Wrap(a) + b) == Wrap(a + b)
    ensures Wrap(a + Wrap(b)) == Wrap(a + b)
  {
    var q, r := a / TWO_64, b / TWO_64;
    assert Wrap(a) == a - q * TWO_64 && Wrap(b) == b - r * TWO_64;
  }

  /** A total that shrinks along with a sum, wrapping, stays as far from it. */
  lemma GapShrinks(total: int, sum: int, part: int)
    ensures Wrap(Wrap(total - part) - (sum - part)) == Wrap(total - sum)
  {
    WrapInside(total - part, -(sum - part));
  }

  lemma WrapZero(total: Uint64, sum: int)
    ensures Wrap(total - sum) == 0 <==> total == Wrap(sum)
  {
    var q := sum / TWO_64;
    assert Wrap(sum) == sum - q * TWO_64;
    if Wrap(total - sum) == 0 {
      var r := (total - sum) / TWO_64;
      assert total - sum == r * TWO_64;
    }
  }

  ghost function Pick(keys: set<string>): (k: string)
    requires keys != {}
    ensures k in keys
  {
    var k :| k in keys; k
  }

  ghost function Sum(m: map<string, nat>): nat
    decreases |m|
  {
    if m.Keys == {} then 0
    else
      var k := Pick(m.Keys);
      m[k] + Sum(m - {k})
  }

  lemma {:induction false} SumRemove(m: map<string, nat>, k: string)
    requires k in m
    ensures Sum(m) == m[k] + Sum(m - {k})
    decreases |m|
  {
    var p := Pick(m.Keys);
    if p != k {
      SumRemove(m - {p}, k);
      SumRemove(m - {k}, p);
      assert m - {p} - {k} == m - {k} - {p};
    }
  }

  lemma SumUpdate(m: map<string, nat>, k: string, v: nat)
    ensures Sum(m[k := v]) == Sum(m) + v - if k in m then m[k] else 0
  {
    SumRemove(m[k := v], k);
    assert m[k := v] - {k} == m - {k};
    if k in m {
      SumRemove(m, k);
    } else {
      assert m - {k} == m;
    }
  }

  lemma {:induction false} SumMonotone(m: map<string, nat>, n: map<string, nat>)
    requires m.Keys == n.Keys && forall k :: k in m ==> m[k] <= n[k]
    ensures Sum(m) <= Sum(n)
    decreases |m|
  {
    if m.Keys != {} {
      var k := Pick(m.Keys);
      SumMonotone(m - {k}, n - {k});
    }
  }
}

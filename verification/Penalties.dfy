/** daemon/penalty.go: the penalty score, over the reals.  Powers with fractional exponents are parameters. */
module Penalties {
  import opened Options
  const ALPHA := 0.7
  const BETA := -0.15
  const LAMBDA := 1.0
  const FI := 7

  /** math.Pow(x, 0.5), of which only [0,1] -> [0,1] matters, and math.Pow(x/10, x/10). */
  datatype Powers = Powers(root: real -> real, load: int -> real)

  ghost predicate GoodRoot(pow: Powers) {
    forall x :: 0.0 <= x <= 1.0 ==> 0.0 <= pow.root(x) <= 1.0
  }

  lemma PositiveProduct(x: real, y: real)
    requires x > 0.0 && y > 0.0
    ensures x * y > 0.0
  {
  }

  lemma NonNegativeProduct(x: real, y: real)
    requires x >= 0.0 && y >= 0.0
    ensures x * y >= 0.0
  {
  }

  lemma UnitQuotient(a: real, d: real)
    requires 0.0 <= a <= d && d > 0.0
    ensures 0.0 <= a / d <= 1.0
  {
    var q := a / d;
    assert q * d == a;
    if q < 0.0 {
      PositiveProduct(-q, d);
    } else if q > 1.0 {
      PositiveProduct(q - 1.0, d);
    }
  }

  function Normal(x: real, lo: real, hi: real): (r: real)
    requires lo < hi
    ensures lo <= x <= hi ==> 0.0 <= r <= 1.0
  {
    if lo <= x <= hi then UnitQuotient(x - lo, hi - lo); (x - lo) / (hi - lo) else (x - lo) / (hi - lo)
  }

  lemma UnitProduct(x: real, y: real)
    requires 0.0 <= x <= 1.0 && 0.0 <= y <= 1.0
    ensures 0.0 <= x * y <= 1.0
  {
    NonNegativeProduct(x, y);
    NonNegativeProduct(1.0 - x, y);
    assert (1.0 - x) * y == y - x * y;
  }

  function Power(x: real, n: nat): (y: real)
    ensures 0.0 <= x <= 1.0 ==> 0.0 <= y <= 1.0
  {
    if n == 0 then 1.0
    else
      var y := Power(x, n - 1);
      if 0.0 <= x <= 1.0 then UnitProduct(x, y); x * y else x * y
  }

  function DistancePenalty(distance: real, lo: real, hi: real, pow: Powers): (p: real)
    requires lo < hi
    ensures GoodRoot(pow) && lo <= distance <= hi ==> 0.0 <= p <= 0.7
  {
    ALPHA * pow.root(Normal(distance, lo, hi))
  }

  /** Nearer is cheaper. */
  ghost predicate RisingRoot(pow: Powers) {
    forall x, y :: 0.0 <= x < y <= 1.0 ==> pow.root(x) < pow.root(y)
  }

  lemma NormalRises(x: real, y: real, lo: real, hi: real)
    requires lo < hi && x < y
    ensures Normal(x, lo, hi) < Normal(y, lo, hi)
  {
    var d := hi - lo;
    assert Normal(x, lo, hi) * d == x - lo && Normal(y, lo, hi) * d == y - lo;
    if Normal(x, lo, hi) >= Normal(y, lo, hi) {
      NonNegativeProduct(Normal(x, lo, hi) - Normal(y, lo, hi), d);
    }
  }

  lemma ProductRises(x: real, y: real, p: real, q: real)
    requires 0.0 <= x < y && 0.0 <= p < q
    ensures 0.0 <= x * p < y * q
  {
    NonNegativeProduct(x, p);
    NonNegativeProduct(x, q - p);
    PositiveProduct(y - x, q);
    assert y * q - x * p == x * (q - p) + (y - x) * q;
  }

  lemma {:induction false} PowerRises(x: real, y: real, n: nat)
    requires 0.0 <= x < y && n > 0
    ensures 0.0 <= Power(x, n) < Power(y, n)
  {
    if n > 1 {
      PowerRises(x, y, n - 1);
      ProductRises(x, y, Power(x, n - 1), Power(y, n - 1));
    } else {
      assert Power(x, 0) == 1.0 && Power(y, 0) == 1.0;
    }
  }

  lemma DistancePenaltyRises(x: real, y: real, lo: real, hi: real, pow: Powers)
    requires lo <= x < y <= hi && RisingRoot(pow)
    ensures DistancePenalty(x, lo, hi, pow) < DistancePenalty(y, lo, hi, pow)
  {
    NormalRises(x, y, lo, hi);
  }

  /** Of obfuscated servers the younger is cheaper. */
  lemma ObfuscationPenaltyFalls(x: int, y: int, lo: int, hi: int)
    requires lo <= x < y <= hi
    ensures ObfuscationPenalty(true, y, lo, hi) < ObfuscationPenalty(true, x, lo, hi)
  {
    NormalRises(x as real, y as real, lo as real, hi as real);
    PowerRises(Normal(x as real, lo as real, hi as real), Normal(y as real, lo as real, hi as real), FI);
  }

  function CountryPenalty(user: string, server: string): real {
    if user == server then 0.0 else 1.0
  }

  function HubPenalty(hubScore: Option<real>): real {
    if hubScore.Some? then hubScore.value else 0.0
  }

  function ObfuscationPenalty(obfuscated: bool, timestamp: int, lo: int, hi: int): (p: real)
    requires obfuscated ==> lo < hi
    ensures obfuscated && lo <= timestamp <= hi ==> 0.85 <= p <= 1.0
    ensures !obfuscated ==> p == 0.0
  {
    if obfuscated then BETA * Power(Normal(timestamp as real, lo as real, hi as real), FI) + LAMBDA else 0.0
  }
}

/** Decimal numerals: what strconv prints and parses, and how semver orders them. */
module Decimals {
  import Text

  predicate IsDigit(c: char) {
    '0' <= c <= '9'
  }

  predicate AllDigits(s: string) {
    forall i :: 0 <= i < |s| ==> IsDigit(s[i])
  }

  /** A numeral without superfluous leading zeros. */
  predicate Canonical(s: string) {
    s != "" && AllDigits(s) && (s[0] == '0' ==> |s| == 1)
  }

  function Digit(c: char): (d: nat)
    requires IsDigit(c)
    ensures d < 10
  {
    c as int - '0' as int
  }

  function Value(s: string): nat
    requires AllDigits(s)
  {
    if s == "" then 0 else 10 * Value(s[..|s| - 1]) + Digit(s[|s| - 1])
  }

  /** strconv.Itoa on a non-negative number. */
  function Print(n: nat): (s: string)
    ensures Canonical(s) && Value(s) == n
    ensures s[0] == '0' <==> n == 0
  {
    if n < 10 then [(n + '0' as int) as char]
    else
      var front, back := Print(n / 10), [(n % 10 + '0' as int) as char];
      assert (front + back)[..|front + back| - 1] == front;
      front + back
  }

  function Pow10(n: nat): (p: nat)
    ensures p >= 1
  {
    if n == 0 then 1 else 10 * Pow10(n - 1)
  }

  lemma {:induction false} ValueBounds(s: string)
    requires AllDigits(s)
    ensures Value(s) < Pow10(|s|)
    ensures s != "" && s[0] != '0' ==> Value(s) >= Pow10(|s| - 1)
  {
    if |s| > 1 {
      ValueBounds(s[..|s| - 1]);
    }
  }

  lemma {:induction false} Pow10Monotone(m: nat, n: nat)
    requires m <= n
    ensures Pow10(m) <= Pow10(n)
  {
    if m < n {
      Pow10Monotone(m, n - 1);
    }
  }

  /** A longer canonical numeral denotes a greater number. */
  lemma LongerIsGreater(s: string, t: string)
    requires Canonical(s) && Canonical(t) && |s| < |t|
    ensures Value(s) < Value(t)
  {
    ValueBounds(s);
    ValueBounds(t);
    Pow10Monotone(|s|, |t| - 1);
  }

  /** Numerals of one length are ordered like their values. */
  lemma {:induction false} SameLength(s: string, t: string)
    requires AllDigits(s) && AllDigits(t) && |s| == |t|
    ensures Text.Less(s, t) <==> Value(s) < Value(t)
    ensures s == t <==> Value(s) == Value(t)
  {
    if s != "" {
      var s', t' := s[..|s| - 1], t[..|t| - 1];
      SameLength(s', t');
      assert s == s' + s[|s| - 1..] && t == t' + t[|t| - 1..];
      LessOnLast(s', t', s[|s| - 1], t[|t| - 1]);
      assert s == s' + [s[|s| - 1]] && t == t' + [t[|t| - 1]];
      Text.LessTotal(s', t');
    }
  }

  lemma {:induction false} LessOnLast(s: string, t: string, c: char, d: char)
    requires |s| == |t|
    ensures Text.Less(s + [c], t + [d]) <==> Text.Less(s, t) || (s == t && c < d)
  {
    if s != "" {
      assert (s + [c])[1..] == s[1..] + [c] && (t + [d])[1..] == t[1..] + [d];
      LessOnLast(s[1..], t[1..], c, d);
      assert s == [s[0]] + s[1..] && t == [t[0]] + t[1..];
    }
  }

  lemma CanonicalUnique(s: string, t: string)
    requires Canonical(s) && Canonical(t) && Value(s) == Value(t)
    ensures s == t
  {
    if |s| < |t| {
      LongerIsGreater(s, t);
    } else if |t| < |s| {
      LongerIsGreater(t, s);
    } else {
      SameLength(s, t);
    }
  }
}

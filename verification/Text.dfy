/** Strings as the Go sources use them: byte order, splitting and case folding. */
module Text {

  /** Byte-wise string order, the order of Go's `<` on strings. */
  predicate Less(s: string, t: string) {
    t != "" && (s == "" || s[0] < t[0] || (s[0] == t[0] && Less(s[1..], t[1..])))
  }

  lemma {:induction false} LessIrreflexive(s: string)
    ensures !Less(s, s)
  {
    if s != "" {
      LessIrreflexive(s[1..]);
    }
  }

  lemma {:induction false} LessTransitive(s: string, t: string, u: string)
    requires Less(s, t) && Less(t, u)
    ensures Less(s, u)
  {
    if s != "" && s[0] == t[0] == u[0] {
      LessTransitive(s[1..], t[1..], u[1..]);
    }
  }

  lemma {:induction false} LessTotal(s: string, t: string)
    ensures s == t || Less(s, t) || Less(t, s)
  {
    if s != "" && t != "" && s[0] == t[0] {
      LessTotal(s[1..], t[1..]);
      assert s == [s[0]] + s[1..] && t == [t[0]] + t[1..];
    }
  }

  lemma LessOrder(a: string, b: string, c: string)
    ensures Less(a, b) ==> !Less(b, a)
    ensures Less(a, c) ==> Less(a, b) || Less(b, c)
  {
    LessIrreflexive(a);
    if Less(a, b) && Less(b, a) {
      LessTransitive(a, b, a);
    }
    LessTotal(a, b);
    if Less(b, a) && Less(a, c) {
      LessTransitive(b, a, c);
    }
  }

  /** strings.Split for a one-character separator. */
  function Split(s: string, sep: char): (parts: seq<string>)
    ensures |parts| >= 1
  {
    if s == "" then [""]
    else if s[0] == sep then [""] + Split(s[1..], sep)
    else
      var rest := Split(s[1..], sep);
      [[s[0]] + rest[0]] + rest[1..]
  }

  lemma {:induction false} SplitNone(s: string, sep: char)
    requires sep !in s
    ensures Split(s, sep) == [s]
  {
    if s != "" {
      SplitNone(s[1..], sep);
      assert s == [s[0]] + s[1..];
    }
  }

  lemma {:induction false} SplitFirst(s: string, sep: char, rest: string)
    requires sep !in s
    ensures Split(s + [sep] + rest, sep) == [s] + Split(rest, sep)
  {
    var whole := s + [sep] + rest;
    if s == "" {
      assert whole[1..] == rest;
    } else {
      assert whole[1..] == s[1..] + [sep] + rest;
      SplitFirst(s[1..], sep, rest);
      assert s == [s[0]] + s[1..];
    }
  }

  /** strings.ToLower on ASCII text. */
  function LowerChar(c: char): char {
    if 'A' <= c <= 'Z' then (c as int + 32) as char else c
  }

  function Lower(s: string): (t: string)
    ensures |t| == |s|
    ensures forall i :: 0 <= i < |s| ==> t[i] == LowerChar(s[i])
  {
    seq(|s|, i requires 0 <= i < |s| => LowerChar(s[i]))
  }

  lemma LowerTwice(s: string)
    ensures Lower(Lower(s)) == Lower(s)
  {
  }

  lemma LowerConcat(s: string, t: string)
    ensures Lower(s + t) == Lower(s) + Lower(t)
  {
  }

  /** Simple case folding.  Only the long s and the Kelvin sign fold to ASCII letters from outside ASCII,
      so comparing folded strings is exact as soon as one of them is ASCII. */
  function FoldChar(c: char): char {
    if c == '\U{17F}' then 's' else if c == '\U{212A}' then 'k' else LowerChar(c)
  }

  function Fold(s: string): (t: string)
    ensures |t| == |s|
    ensures forall i :: 0 <= i < |s| ==> t[i] == FoldChar(s[i])
  {
    seq(|s|, i requires 0 <= i < |s| => FoldChar(s[i]))
  }

  predicate EqualFold(s: string, t: string) {
    Fold(s) == Fold(t)
  }

  /** A letter equals both its cases, and two of them a character outside ASCII as well. */
  lemma FoldedChars(c: char, d: char)
    requires 'a' <= d <= 'z'
    ensures EqualFold([c], [d]) <==> LowerChar(c) == d || (d == 's' && c == '\U{17F}') || (d == 'k' && c == '\U{212A}')
  {
    assert Fold([c])[0] == FoldChar(c) && Fold([d])[0] == FoldChar(d);
  }
}
